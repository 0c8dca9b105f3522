/**
 * incidencies.py: every direct `Incidencia` record of the root, numbered from 1,
 * with all its fields and no priority filter. Its field lines have no padding,
 * which is the listing's line with a tag column of width 0.
 */
module Dump {
  import opened Text
  import opened ElementTree
  import opened RecordFilter
  import opened Fields
  import opened Presenter

  /** "REGISTRO number:" followed by the record's field lines. */
  datatype Block = Block(number: nat, lines: seq<string>)

  /** A width of 0 pads nothing: the line is `"  - " + tag + ": " + value`. */
  lemma UnpaddedLine(f: Field)
    ensures FieldLine(f, 0) == "  - " + f.tag + ": " + f.value
  {
    var line := FieldLine(f, 0);
    assert line == line[..4] + line[4..4 + |f.tag|] + line[4 + |f.tag|..4 + |f.tag| + 2] + line[4 + |f.tag| + 2..];
  }

  /** `mostrar_datos_xml_supersimples` after parsing: `contador` counts the records as
      they are visited, each record's block carries its number, and each block lists
      every shown element of the record, duplicates included. */
  method ShowAll(root: Element) returns (blocks: seq<Block>, counter: nat)
    ensures counter == |FindAll(root, RecordTag)| == |blocks|
    ensures forall i | 0 <= i < |blocks| ::
              blocks[i] == Block(i + 1, FieldLines(FindAll(root, RecordTag)[i], 0))
  {
    var records := FindAll(root, RecordTag);
    counter := 0;
    blocks := [];
    while counter < |records|
      invariant counter <= |records| && |blocks| == counter
      invariant forall i | 0 <= i < counter :: blocks[i] == Block(i + 1, FieldLines(records[i], 0))
    {
      var registro := records[counter];
      counter := counter + 1;
      var lines := ShowRecord(registro, 0);
      blocks := blocks + [Block(counter, lines)];
    }
  }
}
