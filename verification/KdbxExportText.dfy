/** The document of an export, as text. */
module KdbxExportText {
  import opened Bytes
  import opened KdbxTypes
  import opened Xml
  import opened KdbxWalker
  import opened KdbxTree
  import opened KdbxWriter
  import opened KdbxXmlText
  import Base64
  import Utf8

  /** One value; a protected one is XORed with the key stream from `pos` on and written in Base64. */
  function ValueElement(ks: KeyStream, pos: nat, f: Field): string {
    if f.guarded then
      "<Value Protected=\"True\">" + Base64.Encode(Apply(ks, pos, Utf8.Encode(f.value))) + "</Value>"
    else "<Value>" + Escape(f.value) + "</Value>"
  }

  function Spent(f: Field): nat {
    if f.guarded then |Utf8.Encode(f.value)| else 0
  }

  /** The fields in order, without those that have no key or are tags. */
  function StringElements(ks: KeyStream, pos: nat, fields: seq<Field>): string
    decreases |fields|
  {
    if fields == [] then ""
    else if fields[0].key == "" || fields[0].key == "Tags" then StringElements(ks, pos, fields[1..])
    else
      "<String>" + ("<Key>" + Escape(fields[0].key) + "</Key>" + ValueElement(ks, pos, fields[0])) + "</String>"
      + StringElements(ks, pos + Spent(fields[0]), fields[1..])
  }

  function SpentOn(fields: seq<Field>): nat {
    if fields == [] then 0
    else (if fields[0].key == "" || fields[0].key == "Tags" then 0 else Spent(fields[0])) + SpentOn(fields[1..])
  }

  function EntryElement(ks: KeyStream, pos: nat, uuid: seq<byte>, e: Entry): string {
    "<Entry>" + ("<UUID>" + Base64.Encode(uuid) + "</UUID>"
    + (if FirstTags(e) == "" then "" else "<Tags>" + Escape(FirstTags(e)) + "</Tags>")
    + StringElements(ks, pos, e)) + "</Entry>"
  }

  function EntryElements(ks: KeyStream, pos: nat, uuids: seq<seq<byte>>, es: seq<Entry>): string
    requires |uuids| == |es|
    decreases |es|
  {
    if es == [] then ""
    else EntryElement(ks, pos, uuids[0], es[0]) + EntryElements(ks, pos + SpentOn(es[0]), uuids[1..], es[1..])
  }

  lemma {:induction false} SpentIsCost(fields: seq<Field>)
    ensures SpentOn(fields) == CostAll(fields)
  {
    if fields != [] {
      SpentIsCost(fields[1..]);
    }
  }

  lemma StringTags()
    ensures Open("String") == "<String>" && Close("String") == "</String>"
    ensures Open("Key") == "<Key>" && Close("Key") == "</Key>"
  {
  }

  lemma ValueTags()
    ensures OpenValue(true) == "<Value Protected=\"True\">" && OpenValue(false) == "<Value>"
    ensures Close("Value") == "</Value>"
  {
  }

  lemma EntryTags()
    ensures Open("Entry") == "<Entry>" && Close("Entry") == "</Entry>"
    ensures Open("UUID") == "<UUID>" && Close("UUID") == "</UUID>"
    ensures Open("Tags") == "<Tags>" && Close("Tags") == "</Tags>"
  {
  }

  lemma FieldIsElement(ks: KeyStream, pos: nat, f: Field)
    ensures Print(FieldNode(ks, pos, f)) ==
            "<String>" + ("<Key>" + Escape(f.key) + "</Key>" + ValueElement(ks, pos, f)) + "</String>"
  {
    hide Print, FieldNode, Open, Close, OpenValue, Escape, Base64.Encode, Utf8.Encode, Apply;
    PrintField(ks, pos, f);
    StringTags();
    ValueTags();
  }

  lemma {:induction false} FieldsAreElements(ks: KeyStream, pos: nat, fields: seq<Field>)
    ensures PrintAll(FieldNodes(ks, pos, fields)) == StringElements(ks, pos, fields)
    decreases |fields|
  {
    hide Print, PrintAll, FieldNode, ValueElement, Escape, Utf8.Encode;
    if fields == [] {
      PrintNothing();
    } else if !Written(fields[0]) {
      FieldsAreElements(ks, pos, fields[1..]);
    } else {
      FieldsAreElements(ks, pos + Spent(fields[0]), fields[1..]);
      FieldIsElement(ks, pos, fields[0]);
      PrintCons(FieldNode(ks, pos, fields[0]), FieldNodes(ks, pos + Cost(fields[0]), fields[1..]));
    }
  }

  lemma EntryIsElement(ks: KeyStream, pos: nat, uuid: seq<byte>, e: Entry)
    ensures Print(EntryNode(ks, pos, uuid, e)) == EntryElement(ks, pos, uuid, e)
  {
    hide Print, PrintAll, FieldNodes, EntryNode, StringElements, Open, Close, Escape, Base64.Encode;
    PrintEntry(ks, pos, uuid, e);
    FieldsAreElements(ks, pos, e);
    EntryTags();
  }

  lemma {:induction false} EntriesAreElements(ks: KeyStream, pos: nat, uuids: seq<seq<byte>>, es: seq<Entry>)
    requires |uuids| == |es|
    ensures PrintAll(EntryNodes(ks, pos, uuids, es)) == EntryElements(ks, pos, uuids, es)
    decreases |es|
  {
    hide Print, PrintAll, EntryNode, EntryElement;
    if es == [] {
      PrintNothing();
    } else {
      EntriesAreElements(ks, pos + SpentOn(es[0]), uuids[1..], es[1..]);
      SpentIsCost(es[0]);
      EntryIsElement(ks, pos, uuids[0], es[0]);
      PrintCons(EntryNode(ks, pos, uuids[0], es[0]), EntryNodes(ks, pos + CostAll(es[0]), uuids[1..], es[1..]));
    }
  }

  // ----- around the entries -----

  lemma Declared()
    ensures PROLOG == "<?" + "xml version=\"1.0\" encoding=\"utf-8\"" + " standalone=\"yes\"" + "?>"
  {
  }

  lemma SettingTags()
    ensures Open("Generator") == "<Generator>" && Close("Generator") == "</Generator>"
    ensures Open("DatabaseName") == "<DatabaseName>" && Close("DatabaseName") == "</DatabaseName>"
    ensures Open("Name") == "<Name>" && Close("Name") == "</Name>"
  {
  }

  lemma BinTags()
    ensures Open("RecycleBinEnabled") == "<RecycleBinEnabled>" && Close("RecycleBinEnabled") == "</RecycleBinEnabled>"
  {
  }

  lemma HistoryTags()
    ensures Open("HistoryMaxItems") == "<HistoryMaxItems>" && Close("HistoryMaxItems") == "</HistoryMaxItems>"
  {
  }

  lemma OuterTags()
    ensures Open("KeePassFile") == "<KeePassFile>" && Close("KeePassFile") == "</KeePassFile>"
    ensures Open("Meta") == "<Meta>" && Close("Meta") == "</Meta>"
    ensures Open("Root") == "<Root>" && Close("Root") == "</Root>"
    ensures Open("Group") == "<Group>" && Close("Group") == "</Group>"
  {
  }

  /** An export's text: declaration, four settings, one group, and the entries in order. */
  lemma ExportText(ks: KeyStream, uuid: seq<byte>, uuids: seq<seq<byte>>, es: seq<Entry>)
    requires |uuids| == |es|
    ensures Render(FlattenAll(Document(ks, uuid, uuids, es))) ==
            "<?" + "xml version=\"1.0\" encoding=\"utf-8\"" + " standalone=\"yes\"" + "?>" + "<KeePassFile>"
            + ("<Meta>" + ("<Generator>" + "Vautix" + "</Generator>"
               + ("<DatabaseName>" + "Vautix Export" + "</DatabaseName>"
               + ("<RecycleBinEnabled>" + "False" + "</RecycleBinEnabled>"
               + ("<HistoryMaxItems>" + "0" + "</HistoryMaxItems>")))) + "</Meta>")
            + "<Root>" + "<Group>" + ("<UUID>" + Base64.Encode(uuid) + "</UUID>")
            + ("<Name>" + "Vautix" + "</Name>")
            + EntryElements(ks, 0, uuids, es)
            + ("</Group>" + "</Root>" + "</KeePassFile>")
  {
    hide Document, EntryNodes, EntryElements, Open, Close, PROLOG, Base64.Encode, Render, FlattenAll;
    assert Render(FlattenAll(Document(ks, uuid, uuids, es))) == PrintAll(Document(ks, uuid, uuids, es));
    PrintDocument(ks, uuid, uuids, es);
    EntriesAreElements(ks, 0, uuids, es);
    Declared();
    SettingTags();
    BinTags();
    HistoryTags();
    OuterTags();
    EntryTags();
  }
}
