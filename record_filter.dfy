/**
 * The filtering list comprehension: the direct `Incidencia` children of the root,
 * in document order, whose first direct `Prioritat_de_lincidncia` child has a
 * stripped text equal to the search key. The comparison is textual.
 */
module RecordFilter {
  import opened Wrappers
  import opened Text
  import opened ElementTree
  import Seqs

  /** The tag of one incident record. */
  const RecordTag: string := "Incidencia"

  /** The tag of a record's priority field. */
  const PriorityTag: string := "Prioritat_de_lincidncia"

  /** The one fault the comprehension can raise: calling `.strip()` on the `None`
      text of a priority field (an `AttributeError`). */
  datatype Fault = PriorityWithoutText

  /** The record's first priority field exists and has a text whose stripped form
      is the key. */
  predicate Matches(r: Element, key: string) {
    var f := Find(r, PriorityTag);
    f.Some? && f.value.text.Some? && Trim(f.value.text.value) == key
  }

  /** The record's first priority field exists but has no text at all. */
  predicate Raises(r: Element) {
    var f := Find(r, PriorityTag);
    f.Some? && f.value.text.None?
  }

  function MatchesKey(key: string): Element -> bool {
    (r: Element) => Matches(r, key)
  }

  /** The comprehension's condition for one record: a missing priority field is
      `False` (the `is not None` test short-circuits), a field without text raises. */
  function Condition(r: Element, key: string): (res: Result<bool, Fault>)
    ensures res.Err? <==> Raises(r)
    ensures res.Ok? ==> res.value == Matches(r, key)
  {
    match Find(r, PriorityTag)
    case None => Ok(false)
    case Some(f) =>
      match f.text
      case None => Err(PriorityWithoutText)
      case Some(t) => Ok(Trim(t) == key)
  }

  /** The comprehension over a list of records: the condition is evaluated on each
      record and the first fault ends it. */
  function Select(records: seq<Element>, key: string): Result<seq<Element>, Fault>
  {
    if records == [] then Ok([])
    else
      match Select(records[..|records| - 1], key)
      case Err(e) => Err(e)
      case Ok(kept) =>
        var last := records[|records| - 1];
        match Condition(last, key)
        case Err(e) => Err(e)
        case Ok(b) => Ok(kept + if b then [last] else [])
  }

  /** The comprehension fails exactly when some record has a priority field without
      text; otherwise it keeps precisely the matching records, in order. */
  lemma {:induction false} SelectSpec(records: seq<Element>, key: string)
    ensures Select(records, key).Err? <==> exists r | r in records :: Raises(r)
    ensures Select(records, key).Ok? ==>
              Select(records, key).value == Seqs.Filter(records, MatchesKey(key))
  {
    if records != [] {
      var init := records[..|records| - 1];
      SelectSpec(init, key);
      assert records == init + [records[|records| - 1]];
    }
  }

  /** Lines 112-118 of the JSON variant (and their copies): filter the root's direct
      records by the key. */
  function FilterByPriority(root: Element, key: string): Result<seq<Element>, Fault> {
    Select(FindAll(root, RecordTag), key)
  }

  /** What the filter promises. It fails exactly when a record of the root has a
      priority field without text. Otherwise the result is an in-order subsequence of
      the root's direct children holding each child exactly as often as it occurs when
      that child is an `Incidencia` record that matches the key, and no other child. */
  lemma FilterByPrioritySpec(root: Element, key: string)
    ensures FilterByPriority(root, key).Err? <==>
              exists r | r in root.children :: r.tag == RecordTag && Raises(r)
    ensures FilterByPriority(root, key).Ok? ==>
              var found := FilterByPriority(root, key).value;
              && Seqs.IsSubsequence(found, root.children)
              && (forall r | r in found :: r.tag == RecordTag && Matches(r, key))
              && (forall r: Element :: multiset(found)[r] ==
                    if r.tag == RecordTag && Matches(r, key) then multiset(root.children)[r] else 0)
  {
    FilterFails(root, key);
    if FilterByPriority(root, key).Ok? {
      FilterKeepsOrder(root, key);
      FilterCounts(root, key);
    }
  }

  lemma FilterFails(root: Element, key: string)
    ensures FilterByPriority(root, key).Err? <==>
              exists r | r in root.children :: r.tag == RecordTag && Raises(r)
  {
    var records := FindAll(root, RecordTag);
    FindAllSpec(root, RecordTag);
    SelectSpec(records, key);
    forall r | r in root.children && r.tag == RecordTag ensures r in records {
      assert multiset(records)[r] == multiset(root.children)[r];
    }
  }

  lemma FilterKeepsOrder(root: Element, key: string)
    requires FilterByPriority(root, key).Ok?
    ensures Seqs.IsSubsequence(FilterByPriority(root, key).value, root.children)
    ensures forall r | r in FilterByPriority(root, key).value :: r.tag == RecordTag && Matches(r, key)
  {
    var records := FindAll(root, RecordTag);
    var found := FilterByPriority(root, key).value;
    FindAllSpec(root, RecordTag);
    SelectSpec(records, key);
    Seqs.FilterIsSubsequence(records, MatchesKey(key));
    Seqs.SubsequenceTransitive(found, records, root.children);
    forall r | r in found ensures r.tag == RecordTag && Matches(r, key) {
      Seqs.FilterCount(records, MatchesKey(key), r);
      assert multiset(found)[r] > 0;
    }
  }

  lemma FilterCounts(root: Element, key: string)
    requires FilterByPriority(root, key).Ok?
    ensures forall r: Element :: multiset(FilterByPriority(root, key).value)[r] ==
              if r.tag == RecordTag && Matches(r, key) then multiset(root.children)[r] else 0
  {
    var records := FindAll(root, RecordTag);
    var found := FilterByPriority(root, key).value;
    FindAllSpec(root, RecordTag);
    SelectSpec(records, key);
    forall r: Element ensures multiset(found)[r] ==
        if r.tag == RecordTag && Matches(r, key) then multiset(root.children)[r] else 0 {
      Seqs.FilterCount(records, MatchesKey(key), r);
    }
  }

  /** A record without a priority field is skipped silently, never a fault. */
  lemma MissingPriorityIsSkipped(r: Element, key: string)
    requires Find(r, PriorityTag).None?
    ensures Condition(r, key) == Ok(false)
  {
  }

  /** A priority field whose text is empty or only whitespace never matches a key that
      has something in it, such as every `str(p)`. */
  lemma BlankPriorityNeverMatches(r: Element, key: string)
    requires key != []
    requires Find(r, PriorityTag).Some? && Find(r, PriorityTag).value.text.Some?
    requires Blank(Find(r, PriorityTag).value.text.value)
    ensures !Matches(r, key) && Condition(r, key) == Ok(false)
  {
  }

  /** Filtering the found records again with the same key gives them back unchanged. */
  lemma FilterIdempotent(root: Element, key: string)
    requires FilterByPriority(root, key).Ok?
    ensures Select(FilterByPriority(root, key).value, key) == FilterByPriority(root, key)
  {
    var records := FindAll(root, RecordTag);
    var found := FilterByPriority(root, key).value;
    SelectSpec(records, key);
    SelectSpec(found, key);
    Seqs.FilterIdempotent(records, MatchesKey(key));
  }
}
