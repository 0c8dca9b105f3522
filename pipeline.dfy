/**
 * `executar_filtre_prioritat` once the document is parsed: prompt for a priority,
 * filter the records, print the summary, page through the found records and, in
 * the JSON variant, save them. The three filtering tools differ only in the width
 * of the tag column and in whether they save.
 */
module Pipeline {
  import opened Wrappers
  import opened ElementTree
  import opened Priority
  import opened RecordFilter
  import opened Fields
  import opened Presenter

  /** What distinguishes the three filtering tools. */
  datatype Variant = Variant(width: nat, exports: bool)

  /** incidencias_filtro.py: tag column of 25, no export. */
  const PlainConsole: Variant := Variant(25, false)

  /** incidencies_filtre.py: tag column of 30, no export. */
  const ColourConsole: Variant := Variant(30, false)

  /** incidencies_filtre_json.py: tag column of 30, saves the found records as JSON. */
  const JsonExport: Variant := Variant(30, true)

  /** What reached the generic `except Exception` handler ("ERROR inesperat"). */
  datatype Cause = InputExhausted | NoPriorityText

  /** How a run ended: the user quit at the prompt, the run reached "Programa
      finalitzat!", or an unexpected error was reported. */
  datatype Ending = Quit | Finished | Unexpected(cause: Cause)

  /** Everything a run shows, in order: the prompt's warnings, the summary, the pages
      of the listing, what the export did, and how the run ended. */
  datatype Transcript = Transcript(
    warnings: seq<Warning>,
    summary: Option<Summary>,
    pages: seq<Page>,
    store: Option<Store>,
    ending: Ending)

  /** One run on the parsed document `root` with the console lines `input`; `writeOk`
      stands for whether writing the JSON file succeeds. */
  method Run(v: Variant, root: Element, input: seq<string>, writeOk: bool) returns (t: Transcript)
    ensures t.warnings == Prompted(input).warnings
    ensures t.ending == Quit <==> Prompted(input).decision.Cancelled?
    ensures Prompted(input).decision.Exhausted? ==> t.ending == Unexpected(InputExhausted)
    ensures !Prompted(input).decision.Chosen? ==> t.summary == None && t.pages == [] && t.store == None
    ensures Prompted(input).decision.Chosen? ==>
      var key := SearchKey(Prompted(input).decision.priority);
      var found := FilterByPriority(root, key);
      && (found.Err? ==>
            t == Transcript(Prompted(input).warnings, None, [], None, Unexpected(NoPriorityText)))
      && (found.Ok? ==>
            var n := |found.value|;
            var answered := |input| - Prompted(input).used;
            && t.summary == Some(Summarize(n, key))
            && Listed(t.pages, found.value, v.width, answered)
            && t.ending == (if answered >= n then Finished else Unexpected(InputExhausted))
            && t.store == (if v.exports && 0 < n <= answered then Some(StoreJson(found.value, writeOk)) else None))
  {
    var prompt := ReadPriority(input);
    match prompt.decision {
      case Exhausted =>
        t := Transcript(prompt.warnings, None, [], None, Unexpected(InputExhausted));
      case Cancelled =>
        t := Transcript(prompt.warnings, None, [], None, Quit);
      case Chosen(p) =>
        var key := SearchKey(p);
        match FilterByPriority(root, key) {
          case Err(_) =>
            t := Transcript(prompt.warnings, None, [], None, Unexpected(NoPriorityText));
          case Ok(found) =>
            var count := |found|;
            var summary := Summarize(count, key);
            var pages: seq<Page> := [];
            var complete := true;
            if count > 0 {
              pages, complete := Paginate(found, v.width, input[prompt.used..]);
            }
            if !complete {
              t := Transcript(prompt.warnings, Some(summary), pages, None, Unexpected(InputExhausted));
              return;
            }
            var store: Option<Store> := None;
            if v.exports && count > 0 {
              store := Some(StoreJson(found, writeOk));
            }
            t := Transcript(prompt.warnings, Some(summary), pages, store, Finished);
        }
    }
  }
}
