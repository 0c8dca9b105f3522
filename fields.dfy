/**
 * The fields of a record: the pre-order walk `registre.iter()` keeping each element
 * whose text is non-empty before stripping and whose tag is not `Incidencia`, as
 * (tag, stripped text) pairs; and `xml_to_dict`, which folds those pairs into a
 * Python dict (one entry per tag, the last value wins, keys in order of first
 * insertion), and the list of such dicts that the JSON variant exports.
 */
module Fields {
  import opened Wrappers
  import opened Text
  import opened ElementTree
  import Seqs
  import RecordFilter

  datatype Field = Field(tag: string, value: string)

  /** `camp.text and camp.tag != RECORD_TAG`: a text is present and non-empty (a text
      of only whitespace passes), and the element is not a record itself. */
  predicate Shown(n: Element) {
    n.text.Some? && n.text.value != "" && n.tag != RecordFilter.RecordTag
  }

  /** The pair an element contributes: its tag and its stripped text. */
  function FieldOf(n: Element): (f: Field)
    requires n.text.Some?
    ensures f.tag == n.tag && Trimmed(f.value)
  {
    Field(n.tag, Trim(n.text.value))
  }

  /** The pairs of the shown elements of a walk, in walk order. */
  function Collect(nodes: seq<Element>): (fs: seq<Field>)
    ensures |fs| <= |nodes|
  {
    if nodes == [] then []
    else
      var n := nodes[|nodes| - 1];
      Collect(nodes[..|nodes| - 1]) + if Shown(n) then [FieldOf(n)] else []
  }

  /** The fields of a record, in the order `iter()` visits its elements. */
  function FieldsOf(rec: Element): seq<Field> {
    Collect(Iter(rec))
  }

  /** Every shown element of the walk gives exactly one field, in walk order, and no
      other element gives one: duplicates are kept, nested records are left out, and
      each value is stripped. */
  lemma {:induction false} CollectSpec(nodes: seq<Element>)
    ensures var shown := Seqs.Filter(nodes, Shown);
      |Collect(nodes)| == |shown| &&
      forall i | 0 <= i < |shown| ::
        Collect(nodes)[i] == FieldOf(shown[i]) &&
        Collect(nodes)[i].tag != RecordFilter.RecordTag &&
        Trimmed(Collect(nodes)[i].value)
  {
    if nodes != [] {
      CollectSpec(nodes[..|nodes| - 1]);
    }
  }

  /** An element whose text is only whitespace is still listed, with an empty value. */
  lemma BlankTextGivesEmptyValue(n: Element)
    requires n.text.Some? && n.text.value != "" && Blank(n.text.value)
    requires n.tag != RecordFilter.RecordTag
    ensures Collect([n]) == [Field(n.tag, "")]
  {
    assert Collect([n]) == Collect([]) + [FieldOf(n)];
  }

  /** A record never lists its own container element. */
  lemma RecordNodeNotListed(rec: Element)
    requires rec.tag == RecordFilter.RecordTag
    ensures FieldsOf(rec) == Collect(IterAll(rec.children))
  {
    CollectAppend([rec], IterAll(rec.children));
    assert Collect([rec]) == [];
  }

  /** One more element of the walk adds its field when it is shown. */
  lemma CollectPrefix(nodes: seq<Element>, i: nat)
    requires i < |nodes|
    ensures Collect(nodes[..i + 1]) ==
              Collect(nodes[..i]) + if Shown(nodes[i]) then [FieldOf(nodes[i])] else []
  {
    assert nodes[..i + 1][..i] == nodes[..i];
  }

  lemma {:induction false} CollectAppend(a: seq<Element>, b: seq<Element>)
    ensures Collect(a + b) == Collect(a) + Collect(b)
    decreases |b|
  {
    if b == [] {
      assert a + b == a;
    } else {
      var b' := b[..|b| - 1];
      assert (a + b)[..|a + b| - 1] == a + b';
      CollectAppend(a, b');
    }
  }

  // ---------------------------------------------------------------------------
  // Python dicts

  /** A dict: its keys in insertion order, and the value of each key. */
  datatype Dict = Dict(keys: seq<string>, entries: map<string, string>)

  predicate Distinct(s: seq<string>) {
    forall i, j | 0 <= i < j < |s| :: s[i] != s[j]
  }

  /** Every key occurs once in the order and has a value, and vice versa. */
  predicate Valid(d: Dict) {
    && Distinct(d.keys)
    && (forall k | k in d.keys :: k in d.entries)
    && (forall k | k in d.entries :: k in d.keys)
  }

  const EmptyDict: Dict := Dict([], map[])

  /** `d[k]` as `dict.get(k)`. */
  function Lookup(d: Dict, k: string): Option<string> {
    if k in d.entries then Some(d.entries[k]) else None
  }

  /** `d[k] = v`: a new key goes to the end of the order; an existing key keeps its
      place and takes the new value. */
  function Put(d: Dict, k: string, v: string): (r: Dict)
    requires Valid(d)
    ensures Valid(r)
    ensures r.keys == if k in d.entries then d.keys else d.keys + [k]
    ensures Lookup(r, k) == Some(v)
    ensures forall k' | k' != k :: Lookup(r, k') == Lookup(d, k')
  {
    var keys := if k in d.entries then d.keys else d.keys + [k];
    Dict(keys, d.entries[k := v])
  }

  /** Successive assignments of the pairs, in order, into an empty dict. */
  function FoldPut(fs: seq<Field>): (d: Dict)
    ensures Valid(d)
  {
    if fs == [] then EmptyDict
    else
      var f := fs[|fs| - 1];
      Put(FoldPut(fs[..|fs| - 1]), f.tag, f.value)
  }

  lemma FoldPutSnoc(fs: seq<Field>, f: Field)
    ensures FoldPut(fs + [f]) == Put(FoldPut(fs), f.tag, f.value)
  {
    assert (fs + [f])[..|fs|] == fs;
  }

  /** The dict `xml_to_dict` builds for a record. */
  function DictOf(rec: Element): Dict {
    FoldPut(FieldsOf(rec))
  }

  function Tags(fs: seq<Field>): (ts: seq<string>)
    ensures |ts| == |fs| && forall i | 0 <= i < |fs| :: ts[i] == fs[i].tag
  {
    seq(|fs|, i requires 0 <= i < |fs| => fs[i].tag)
  }

  /** The tags in order of first occurrence, each once. */
  function Dedup(ts: seq<string>): seq<string> {
    if ts == [] then []
    else
      var t := ts[|ts| - 1];
      var init := ts[..|ts| - 1];
      if t in init then Dedup(init) else Dedup(init) + [t]
  }

  /** The value of the last pair with tag `k`, if any. */
  function LastValue(fs: seq<Field>, k: string): Option<string> {
    if fs == [] then None
    else if fs[|fs| - 1].tag == k then Some(fs[|fs| - 1].value)
    else LastValue(fs[..|fs| - 1], k)
  }

  lemma {:induction false} DedupMembers(ts: seq<string>)
    ensures forall t :: t in Dedup(ts) <==> t in ts
  {
    if ts != [] {
      var init := ts[..|ts| - 1];
      DedupMembers(init);
      assert ts == init + [ts[|ts| - 1]];
    }
  }

  /** The keys of the folded dict are the pair tags in order of first occurrence. */
  lemma {:induction false} FoldPutKeys(fs: seq<Field>)
    ensures FoldPut(fs).keys == Dedup(Tags(fs))
  {
    if fs != [] {
      var init := fs[..|fs| - 1];
      FoldPutKeys(init);
      DedupMembers(Tags(init));
      assert Tags(fs) == Tags(init) + [fs[|fs| - 1].tag];
      assert Tags(fs)[..|fs| - 1] == Tags(init);
    }
  }

  /** Each key of the folded dict holds the value of the last pair with that tag, and
      a tag with no pair is not a key. */
  lemma {:induction false} FoldPutValues(fs: seq<Field>, k: string)
    ensures Lookup(FoldPut(fs), k) == LastValue(fs, k)
  {
    if fs != [] {
      FoldPutValues(fs[..|fs| - 1], k);
    }
  }

  lemma {:induction false} DedupDistinct(ts: seq<string>)
    requires Distinct(ts)
    ensures Dedup(ts) == ts
  {
    if ts != [] {
      var init := ts[..|ts| - 1];
      DedupDistinct(init);
      assert ts == init + [ts[|ts| - 1]];
    }
  }

  lemma {:induction false} LastValueDistinct(fs: seq<Field>, i: nat)
    requires i < |fs| && Distinct(Tags(fs))
    ensures LastValue(fs, fs[i].tag) == Some(fs[i].value)
  {
    if i < |fs| - 1 {
      LastValueDistinct(fs[..|fs| - 1], i);
    }
  }

  /** When no tag repeats, nothing is lost in the dict: its keys are the tags in walk
      order and each maps to its own value, so the exported object lists exactly the
      record's fields. */
  lemma {:induction false} FoldPutDistinct(fs: seq<Field>)
    requires Distinct(Tags(fs))
    ensures FoldPut(fs).keys == Tags(fs)
    ensures forall i | 0 <= i < |fs| :: Lookup(FoldPut(fs), fs[i].tag) == Some(fs[i].value)
  {
    FoldPutKeysDistinct(fs);
    FoldPutValuesDistinct(fs);
  }

  lemma {:induction false} FoldPutValuesDistinct(fs: seq<Field>)
    requires Distinct(Tags(fs))
    ensures forall i | 0 <= i < |fs| :: Lookup(FoldPut(fs), fs[i].tag) == Some(fs[i].value)
  {
    forall i | 0 <= i < |fs| ensures Lookup(FoldPut(fs), fs[i].tag) == Some(fs[i].value) {
      FoldPutValueDistinct(fs, i);
    }
  }

  lemma {:induction false} FoldPutKeysDistinct(fs: seq<Field>)
    requires Distinct(Tags(fs))
    ensures FoldPut(fs).keys == Tags(fs)
  {
    FoldPutKeys(fs);
    DedupDistinct(Tags(fs));
  }

  lemma {:induction false} FoldPutValueDistinct(fs: seq<Field>, i: nat)
    requires i < |fs| && Distinct(Tags(fs))
    ensures Lookup(FoldPut(fs), fs[i].tag) == Some(fs[i].value)
  {
    FoldPutValues(fs, fs[i].tag);
    LastValueDistinct(fs, i);
  }

  /** `xml_to_dict`: walks the record with `iter()` and assigns each shown element's
      stripped text to its tag in a dict that starts empty. */
  method XmlToDict(rec: Element) returns (d: Dict)
    ensures d == DictOf(rec)
    ensures Valid(d)
    ensures d.keys == Dedup(Tags(FieldsOf(rec)))
    ensures forall k :: Lookup(d, k) == LastValue(FieldsOf(rec), k)
  {
    var nodes := Iter(rec);
    d := EmptyDict;
    var i := 0;
    while i < |nodes|
      invariant 0 <= i <= |nodes|
      invariant d == FoldPut(Collect(nodes[..i]))
    {
      var n := nodes[i];
      CollectPrefix(nodes, i);
      if Shown(n) {
        FoldPutSnoc(Collect(nodes[..i]), Field(n.tag, Trim(n.text.value)));
        d := Put(d, n.tag, Trim(n.text.value));
      } else {
        assert Collect(nodes[..i + 1]) == Collect(nodes[..i]);
      }
      i := i + 1;
    }
    assert nodes[..i] == nodes;
    FoldPutKeys(FieldsOf(rec));
    forall k ensures Lookup(d, k) == LastValue(FieldsOf(rec), k) {
      FoldPutValues(FieldsOf(rec), k);
    }
  }

  /** What `emmagatzemar_json` does with the found records: nothing to save for an empty
      list, otherwise a write of the list of their dicts, which succeeds or fails. */
  datatype Store = NothingToSave | Saved(objects: seq<Dict>) | SaveFailed(objects: seq<Dict>)

  /** `emmagatzemar_json`: one dict per record, in the same order; an empty list is not
      written. `writeOk` stands for whether opening and writing the file succeeds. */
  function StoreJson(records: seq<Element>, writeOk: bool): (s: Store)
    ensures s.NothingToSave? <==> records == []
    ensures !s.NothingToSave? ==> s.Saved? == writeOk
    ensures !s.NothingToSave? ==>
              |s.objects| == |records| &&
              forall i | 0 <= i < |records| :: s.objects[i] == DictOf(records[i]) && Valid(s.objects[i])
  {
    var objects := seq(|records|, i requires 0 <= i < |records| => DictOf(records[i]));
    if objects == [] then NothingToSave
    else if writeOk then Saved(objects)
    else SaveFailed(objects)
  }
}
