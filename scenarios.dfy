/**
 * Small worked documents and inputs that pin the general statements to cases:
 * the boundary inputs of the prompt and a document with priorities 1, 2, 1.
 */
module Scenarios {
  import opened Wrappers
  import opened Text
  import opened ElementTree
  import opened Priority
  import opened RecordFilter
  import Seqs

  /** "0" and "5" are refused as out of range; "1" to "4" are accepted. */
  lemma NumericBoundaries()
    ensures Classify("0") == OutOfRange(0) && Classify("5") == OutOfRange(5)
    ensures Classify("1") == Accept(1) && Classify("2") == Accept(2)
    ensures Classify("3") == Accept(3) && Classify("4") == Accept(4)
  {
    ClassifyDecimal(0);
    ClassifyDecimal(5);
    ClassifyDecimal(1);
    ClassifyDecimal(2);
    ClassifyDecimal(3);
    ClassifyDecimal(4);
  }

  /** "abc" is refused as not an integer, and a blank line quits. */
  lemma TextBoundaries()
    ensures Classify("abc") == NotInteger
    ensures Classify("") == Cancel && Classify("   ") == Cancel
  {
    ClassifySpec("abc");
    ClassifySpec("   ");
    assert !IsDigit("abc"[0]);
  }

  /** Leading zeros count toward the digit limit: more than 4300 zeros before a 3 are
      refused as not an integer, although the value is 3. */
  lemma LeadingZerosCount(zeros: string)
    requires |zeros| >= MaxStrDigits
    requires forall i | 0 <= i < |zeros| :: zeros[i] == '0'
    ensures Classify(zeros + "3") == NotInteger
  {
    var t := zeros + "3";
    assert AllDigits(t) by {
      forall i | 0 <= i < |t| ensures IsDigit(t[i]) {
        if i < |zeros| { assert t[i] == zeros[i]; }
      }
    }
    TooManyDigits(t);
    ClassifySpec(t);
    assert !IsSpace(t[|t| - 1]);
  }

  /** Stripping a single digit leaves it unchanged. */
  lemma TrimDigit(d: string)
    requires |d| == 1 && IsDigit(d[0])
    ensures Trim(d) == d
  {
    assert [] + d + [] == d;
    TrimPadded([], d, []);
  }

  /** The text of a record's first priority field, when it has one. */
  function PriorityText(r: Element): Option<Option<string>> {
    match Find(r, PriorityTag)
    case None => None
    case Some(f) => Some(f.text)
  }

  lemma ConditionOfDigit(r: Element, key: string, d: string)
    requires PriorityText(r) == Some(Some(d)) && |d| == 1 && IsDigit(d[0])
    ensures Condition(r, key) == Ok(d == key)
  {
    TrimDigit(d);
  }

  lemma SelectStep(rs: seq<Element>, x: Element, key: string, kept: seq<Element>, b: bool)
    requires Select(rs, key) == Ok(kept) && Condition(x, key) == Ok(b)
    ensures Select(rs + [x], key) == Ok(kept + if b then [x] else [])
  {
    assert (rs + [x])[..|rs|] == rs;
  }

  /** Three records whose priorities are "1", "2" and "1": searching for 1 finds the
      first and the third, in that order. */
  lemma ThreeRecords(root: Element, a: Element, b: Element, c: Element)
    requires root.children == [a, b, c]
    requires a.tag == RecordTag && b.tag == RecordTag && c.tag == RecordTag
    requires PriorityText(a) == Some(Some("1"))
    requires PriorityText(b) == Some(Some("2"))
    requires PriorityText(c) == Some(Some("1"))
    ensures FilterByPriority(root, "1") == Ok([a, c])
  {
    AllRecords(root, a, b, c);
    SelectOne(a, b, c);
    assert [a] + [c] == [a, c];
  }

  /** When every child is a record, `findall` returns the children unchanged. */
  lemma AllRecords(root: Element, a: Element, b: Element, c: Element)
    requires root.children == [a, b, c]
    requires a.tag == RecordTag && b.tag == RecordTag && c.tag == RecordTag
    ensures FindAll(root, RecordTag) == [a] + [b] + [c]
  {
    var abc := [a] + [b] + [c];
    assert abc == root.children;
    forall i | 0 <= i < |abc| ensures HasTag(RecordTag)(abc[i]) {
    }
    Seqs.FilterAll(abc, HasTag(RecordTag));
  }

  lemma SelectOne(a: Element, b: Element, c: Element)
    requires PriorityText(a) == Some(Some("1"))
    requires PriorityText(b) == Some(Some("2"))
    requires PriorityText(c) == Some(Some("1"))
    ensures Select([a] + [b] + [c], "1") == Ok([a] + [c])
  {
    ConditionOfDigit(a, "1", "1");
    ConditionOfDigit(b, "1", "2");
    ConditionOfDigit(c, "1", "1");
    SelectStep([], a, "1", [], true);
    assert [] + [a] == [a];
    SelectStep([a], b, "1", [a], false);
    assert [a] + [] == [a];
    SelectStep([a] + [b], c, "1", [a], true);
  }
}
