# Incident priority filter — a Dafny model

The repository holds a small console tool that reads an XML file of IT incidents
(`Incidencia` records, each carrying a `Prioritat_de_lincidncia` field and other
fields). It exists in three versions, plus a plain dump script:

- `incidencias_filtro.py` asks for a priority from 1 to 4 and keeps the records with
  that priority. It prints a summary, then shows the kept records one at a time,
  waiting for Enter before each one. Field tags are padded to 25 columns.
- `incidencies_filtre.py` does the same with colours and a tag column of 30.
- `incidencies_filtre_json.py` does the same as the coloured version, then also
  saves the kept records as a list of JSON objects (`xml_to_dict`,
  `emmagatzemar_json`).
- `incidencies.py` prints every record, numbered from 1, with all of its fields
  and no padding.

The model shares one description of the logic across the three filtering tools.
Each tool's particulars are a `Variant(width, exports)`:

| tool | `Pipeline` constant | width | exports |
|---|---|---|---|
| `incidencias_filtro.py` | `PlainConsole` | 25 | no |
| `incidencies_filtre.py` | `ColourConsole` | 30 | no |
| `incidencies_filtre_json.py` | `JsonExport` | 30 | yes |

The parsed document is an abstract ElementTree value:
`Element(tag, text: Option<string>, children)`. The console is the finite sequence
of lines the user types. Reading past its end is `input()` raising `EOFError`,
which the tools' generic `except Exception` handler reports as an unexpected error.

Modules, one per file:

| module | what it models |
|---|---|
| `Wrappers` | `Option` and `Result` |
| `Text` | `str.strip()`, `str.ljust()`, `int()` on text, `str()` on integers |
| `Seqs` | order-preserving filtering of a sequence, and subsequences |
| `ElementTree` | `iter()`, `findall()` and `find()` with a plain tag |
| `Priority` | the priority prompt loop and the search key `str(p)` |
| `RecordFilter` | the filtering list comprehension, including the fault it can raise |
| `Fields` | a record's field pairs, Python dicts, `xml_to_dict` and the export list |
| `Presenter` | field lines, the count summary, the paginated listing |
| `Pipeline` | `executar_filtre_prioritat` once the document is parsed |
| `Dump` | `mostrar_datos_xml_supersimples` |
| `Scenarios` | worked inputs: prompt boundaries, the digit limit and a three-record document |

Four behaviours of the code are easy to miss:

- A priority field that exists but has no text (`None`) is not skipped. Calling
  `.strip()` on it raises, and the run ends in the "ERROR inesperat" branch
  (`RecordFilter.Condition`, `Pipeline.Run`).
- A prompt line made only of whitespace also ends the run, not only an empty line,
  because the line is stripped before the emptiness test (`Priority.ClassifySpec`).
- The exported object of a record has one key per distinct tag. When a tag occurs
  several times in a record, the key keeps the position of its first occurrence
  and the value of its last one (`Fields.FoldPutKeys`, `Fields.FoldPutValues`).
  The console listings show every occurrence (`Presenter.ShowRecord`).
- Python's `int()` refuses a literal of more than 4300 digits, leading zeros
  included, with a `ValueError`. Such a line draws the "not an integer" warning
  even when its value is between 1 and 4 (`Text.TooManyDigits`,
  `Scenarios.LeadingZerosCount`).

## Model

| member | source | states |
|---|---|---|
| Text.Trim | incidencies_filtre_json.py:91 | `strip()` yields a string with no whitespace at either end, never longer than the input; the result is empty exactly when the line is all whitespace |
| Text.TrimPadded | incidencies_filtre_json.py:91 | a trimmed string with any whitespace added on both sides strips back to itself |
| Text.TrimSplit | incidencies_filtre_json.py:91 | every string is its stripped form with only whitespace before and after it |
| Text.TrimIdempotent | incidencies_filtre_json.py:91 | stripping twice is the same as stripping once |
| Text.LeftJustify | incidencies_filtre_json.py:152 | `ljust(width)` keeps the whole string and pads it with spaces to at least `width` characters, never truncating |
| Text.IntToDecimal | incidencies_filtre_json.py:105 | `str(n)` is non-empty with no surrounding whitespace, made of digits with a leading minus sign for negative numbers |
| Text.ParseIntOfDecimal | incidencies_filtre_json.py:97 | `int(str(n)) == n` for every integer of at most 4300 digits; the decimal form of a longer integer is refused |
| Text.TooManyDigits | incidencies_filtre_json.py:97 | a literal of more than 4300 decimal digits is refused by `int()` whatever its value |
| ElementTree.Iter | incidencies_filtre_json.py:37 | `iter()` visits the element itself first, then its subtree |
| ElementTree.IterSpec | incidencies_filtre_json.py:37 | `iter()` visits the element itself and exactly the elements that the walk of one of its children visits |
| ElementTree.FindAllSpec | incidencies_filtre_json.py:114 | `findall(tag)` gives an in-order subsequence of the direct children, only elements with the tag, each as many times as it occurs among the children |
| ElementTree.Find | incidencies_filtre_json.py:116-117 | `find(tag)` is `None` exactly when no direct child has the tag, and otherwise the first such child |
| Priority.ClassifySpec | incidencies_filtre_json.py:91-103 | one prompt line: blank cancels; a non-integer is refused as such; an integer is accepted exactly when it lies in 1..4 and otherwise refused as out of range, carrying the parsed value |
| Priority.Prompted | incidencies_filtre_json.py:88-103 | the loop never reads more lines than were typed, and a chosen priority is always in 1..4 |
| Priority.PromptedDecides | incidencies_filtre_json.py:88-103 | the loop's outcome is decided by the first line that is neither a non-integer nor out of range; every earlier line got its own warning; without such a line the input runs out |
| Priority.LoopDecides | incidencias_filtro.py:38-61 | the loop over the classified lines satisfies that characterisation |
| Priority.DecidesUnique | incidencies_filtre.py:44-59 | the characterisation determines the run completely: any run it describes is the loop's |
| Priority.ReadPriority | incidencies_filtre_json.py:88-103 | the `while prioritat_nombre is None` loop produces exactly the run of the prompt specification, stopping early on a blank line or when input runs out |
| Priority.SearchKey | incidencies_filtre_json.py:105 | the key `str(p)` is one of "1".."4" and reads back as `p` |
| Priority.ClassifyDecimal | incidencias_filtro.py:48-61 | typing the decimal form of `n` never cancels; it is refused as a non-integer exactly when it has more than 4300 digits, and otherwise accepted exactly when `1 <= n <= 4` and refused as out of range elsewhere |
| Priority.CanonicalKey | incidencies_filtre_json.py:97-105 | an accepted line such as "03" or " +3 " parses to `p` in 1..4, and the key searched for parses to the same value |
| RecordFilter.Condition | incidencies_filtre_json.py:116-117 | one record's test fails exactly when its first priority field has no text; otherwise it holds exactly when that field's stripped text equals the key |
| RecordFilter.SelectSpec | incidencies_filtre_json.py:112-118 | the comprehension fails exactly when some record has a priority field without text, and otherwise keeps precisely the matching records, in order |
| RecordFilter.FilterByPrioritySpec | incidencies_filtre_json.py:112-118 | the filter fails exactly when a direct `Incidencia` child has a text-less priority field; otherwise its result is an in-order subsequence of the root's children, each element a matching record, each matching record kept as often as it occurs |
| RecordFilter.MissingPriorityIsSkipped | incidencias_filtro.py:74-75 | a record without a priority field is skipped silently, never a fault |
| RecordFilter.BlankPriorityNeverMatches | incidencies_filtre.py:70-71 | a priority text that is empty or only whitespace never matches a non-empty key |
| RecordFilter.FilterIdempotent | incidencies_filtre.py:66-72 | filtering the found records again with the same key returns them unchanged |
| Fields.FieldOf | incidencies_filtre_json.py:39 | a field pair keeps the element's tag and its stripped text |
| Fields.CollectSpec | incidencies.py:27-30 | the walk gives one pair per shown element (text present and non-empty before stripping, tag not `Incidencia`), in walk order, duplicates included, each value stripped |
| Fields.BlankTextGivesEmptyValue | incidencies_filtre_json.py:38-39 | an element whose text is only whitespace is still listed, with an empty value |
| Fields.RecordNodeNotListed | incidencies_filtre_json.py:37-38 | a record's own element never gives a field; only its descendants do |
| Fields.Put | incidencies_filtre_json.py:39 | `d[k] = v` keeps keys unique, appends a new key and leaves an existing key in place, makes `k` map to `v` and changes no other key |
| Fields.FoldPutKeys | incidencies_filtre_json.py:36-40 | the dict's keys are the field tags in order of first occurrence, each once |
| Fields.FoldPutValues | incidencies_filtre_json.py:36-40 | each key holds the value of the last field with that tag; a tag with no field is not a key |
| Fields.FoldPutDistinct | incidencies_filtre_json.py:36-40 | when no tag repeats, the keys are the tags in walk order and each maps to its own value |
| Fields.XmlToDict | incidencies_filtre_json.py:33-40 | the loop builds a well-formed dict whose keys are the shown tags in order of first occurrence and whose values are the last stripped texts |
| Fields.StoreJson | incidencies_filtre_json.py:42-60 | an empty list is not written; otherwise there is one well-formed dict per record, in order, and the write either succeeds or fails |
| Presenter.FieldLine | incidencies_filtre_json.py:152 | the line is `"  - "`, the tag, spaces up to column `4 + max(len(tag), width)`, `": "`, then the value |
| Presenter.FieldLinesAligned | incidencias_filtro.py:106 | for tags no longer than the width, the colon and the value start at the same column on every line |
| Presenter.ShowRecord | incidencies_filtre.py:99-102 | the inner loop prints one field line per shown element of the walk, in order |
| Presenter.Summarize | incidencies_filtre_json.py:126-131 | the "not found" message is shown exactly when the count is zero; otherwise the count is reported; both name the key |
| Presenter.Paginate | incidencies_filtre_json.py:137-152 | each record gets one pause and then its page: the first pause has its own wording, pages are numbered 1..n of n and show the record's field lines; the listing completes exactly when there are at least n lines of input left |
| Pipeline.Run | incidencies_filtre_json.py:88-175 | a whole run: the prompt's warnings, then quit, input exhaustion, a filter fault, or the summary, the listing and, only in the exporting tool with a completed non-empty listing, the save |
| Dump.UnpaddedLine | incidencies.py:30 | with no padding a field line is `"  - " + tag + ": " + value` |
| Dump.ShowAll | incidencies.py:18-30 | every direct `Incidencia` child is shown in document order, numbered consecutively from 1, with all of its field lines; the final counter equals the number of records |
| Scenarios.NumericBoundaries | incidencies_filtre_json.py:97-101 | "0" and "5" are refused as out of range; "1" to "4" are accepted |
| Scenarios.LeadingZerosCount | incidencies_filtre_json.py:97-103 | 4300 or more zeros followed by "3" are refused as a non-integer, not accepted as 3 |
| Scenarios.TextBoundaries | incidencies_filtre_json.py:91-103 | "abc" is refused as a non-integer; "" and "   " cancel |
| Scenarios.ThreeRecords | incidencies_filtre_json.py:112-118 | with records of priorities "1", "2", "1", searching for 1 finds the first and the third, in that order |

## Left out

- Loading the document: the file-existence check, `ET.parse`, well-formedness and the `ET.ParseError` branch. The model starts from the parsed root.
- Colours, banners, separator lines, emoji, the header before the prompt and the exact wording of messages. Messages are modelled as datatype values.
- `json.dump` formatting (indentation, `ensure_ascii=False`) and the overwriting of the file. The model stops at the list of ordered dicts; whether the write succeeds is the parameter `writeOk`.
- `input()` blocking. The console is a finite sequence of lines. A pause consumes one line whatever it holds, and running out of lines is `EOFError`.
- The generic `except Exception` handler, beyond the two causes that reach it here: running out of input and a priority field without text.
- Priority.ClassifySpec: `int()` is modelled on ASCII decimal digits with an optional sign and the default limit of 4300 digits; underscores and non-ASCII digits, which Python also accepts, are not modelled, nor is changing the limit with `sys.set_int_max_str_digits` or `PYTHONINTMAXSTRDIGITS`, nor the Python versions before the limit existed.
- Text.IntToDecimal: `str(n)` is total in the model, while Python raises for more than 4300 digits; the tools only apply `str` to a priority from 1 to 4.
- Text.Trim: `str.strip()` is modelled on the ASCII whitespace Python removes (codes 9 to 13 and 28 to 32); other Unicode whitespace is not.
- Pipeline.Run: a pause shown just before the input runs out is not recorded as a page, since its record is never shown.
