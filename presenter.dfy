/**
 * What the tools show: the count summary, and the paginated listing in which each
 * found record waits for one line of input and then shows its header and one line
 * per field, `"  - " + tag padded to the column width + ": " + value`.
 */
module Presenter {
  import opened Text
  import opened ElementTree
  import opened Fields

  /** `FIELD_SEPARATOR`. */
  const Separator: char := '-'

  /** One field line: two spaces, the separator, a space, the tag left-justified to
      `width` (never truncated), a colon and a space, then the value. */
  function FieldLine(f: Field, width: nat): (line: string)
    ensures var col := 4 + Max(|f.tag|, width);
      && |line| == col + 2 + |f.value|
      && line[..4] == "  - "
      && line[4..4 + |f.tag|] == f.tag
      && (forall i | 4 + |f.tag| <= i < col :: line[i] == ' ')
      && line[col..col + 2] == ": "
      && line[col + 2..] == f.value
  {
    var padded := LeftJustify(f.tag, width);
    var line := "  " + [Separator] + " " + padded + ": " + f.value;
    assert line[4..4 + |padded|] == padded;
    line
  }

  /** The padding aligns the values: for tags no longer than the width, the colon and
      the value start at the same column on every line. */
  lemma FieldLinesAligned(f: Field, g: Field, width: nat)
    requires |f.tag| <= width && |g.tag| <= width
    ensures FieldLine(f, width)[4 + width..4 + width + 2] == FieldLine(g, width)[4 + width..4 + width + 2] == ": "
    ensures FieldLine(f, width)[4 + width + 2..] == f.value && FieldLine(g, width)[4 + width + 2..] == g.value
  {
  }

  /** The lines of a list of fields, one per field, in order. */
  function Render(fs: seq<Field>, width: nat): (lines: seq<string>)
    ensures |lines| == |fs|
    ensures forall i | 0 <= i < |fs| :: lines[i] == FieldLine(fs[i], width)
  {
    seq(|fs|, i requires 0 <= i < |fs| => FieldLine(fs[i], width))
  }

  lemma RenderSnoc(fs: seq<Field>, f: Field, width: nat)
    ensures Render(fs + [f], width) == Render(fs, width) + [FieldLine(f, width)]
  {
  }

  /** The lines shown for a record. */
  function FieldLines(rec: Element, width: nat): seq<string> {
    Render(FieldsOf(rec), width)
  }

  /** The inner loop `for camp in registre.iter(): if camp.text and ...: print(...)`:
      one line per shown element, in walk order, duplicates included. */
  method ShowRecord(rec: Element, width: nat) returns (lines: seq<string>)
    ensures lines == FieldLines(rec, width)
    ensures |lines| == |FieldsOf(rec)|
    ensures forall i | 0 <= i < |lines| :: lines[i] == FieldLine(FieldsOf(rec)[i], width)
  {
    var nodes := Iter(rec);
    lines := [];
    var i := 0;
    while i < |nodes|
      invariant 0 <= i <= |nodes|
      invariant lines == Render(Collect(nodes[..i]), width)
    {
      var n := nodes[i];
      CollectPrefix(nodes, i);
      if Shown(n) {
        RenderSnoc(Collect(nodes[..i]), FieldOf(n), width);
        lines := lines + [FieldLine(Field(n.tag, Trim(n.text.value)), width)];
      }
      i := i + 1;
    }
    assert nodes[..i] == nodes;
  }

  /** The summary after filtering: nothing found, or how many were found; both name the
      searched key. */
  datatype Summary = NoneFound(key: string) | Found(count: nat, key: string)

  function Summarize(count: nat, key: string): (s: Summary)
    ensures s.key == key
    ensures s.NoneFound? <==> count == 0
    ensures s.Found? ==> s.count == count
  {
    if count == 0 then NoneFound(key) else Found(count, key)
  }

  /** The two wordings of the pause before a record: the first record's, and every
      later one's. */
  datatype Gate = FirstGate | NextGate

  /** What one record of the listing shows: the pause, the header "number de total",
      and the field lines. */
  datatype Page = Page(gate: Gate, number: nat, total: nat, lines: seq<string>)

  function Min(a: int, b: int): int {
    if a < b then a else b
  }

  /** The listing of `found` after `answered` lines were available to the pauses: one
      page per record up to the first pause left without input, the first page with
      the first wording and every later one with the other, numbered from 1 to the
      number of records found. */
  ghost predicate Listed(pages: seq<Page>, found: seq<Element>, width: nat, answered: nat) {
    && |pages| == Min(|found|, answered)
    && forall i | 0 <= i < |pages| ::
         pages[i] == Page(if i == 0 then FirstGate else NextGate, i + 1, |found|, FieldLines(found[i], width))
  }

  /** The paginated loop `for i, registre in enumerate(registres_trobats)`: each pause
      consumes one line of `input`, whatever it holds; when the input runs out,
      `input()` raises `EOFError` and the listing stops (`complete` is false). */
  method Paginate(found: seq<Element>, width: nat, input: seq<string>)
    returns (pages: seq<Page>, complete: bool)
    ensures complete <==> |input| >= |found|
    ensures Listed(pages, found, width, |input|)
  {
    pages := [];
    var i := 0;
    while i < |found|
      invariant 0 <= i <= |found| && i <= |input|
      invariant Listed(pages, found, width, i)
    {
      var gate := if i == 0 then FirstGate else NextGate;
      if i == |input| {
        complete := false;
        return;
      }
      var lines := ShowRecord(found[i], width);
      pages := pages + [Page(gate, i + 1, |found|, lines)];
      i := i + 1;
    }
    complete := true;
  }
}
