/** The inner XML an export writes, and the proof that the importer reads every entry back. */
module KdbxWriter {
  import opened Bytes
  import opened KdbxTypes
  import opened Xml
  import opened KdbxWalker
  import opened KdbxTree
  import Base64
  import Utf8

  // ----- what comes back -----

  /** An empty key has nowhere to land, and tags travel in an element of their own. */
  predicate Written(f: Field) {
    f.key != "" && f.key != TAGS_KEY
  }

  function Kept(e: Entry): seq<Field> {
    if e == [] then [] else (if Written(e[0]) then [e[0]] else []) + Kept(e[1..])
  }

  /** The first pair keyed "Tags" whose value is not empty. */
  function FirstTags(e: Entry): string {
    if e == [] then ""
    else if e[0].key == TAGS_KEY && e[0].value != "" then e[0].value
    else FirstTags(e[1..])
  }

  /** The entry as an import returns it: tags first and in clear, then every other keyed field in
      order with its protection flag. */
  function NormalForm(e: Entry): Entry {
    (if FirstTags(e) == "" then [] else [Field(TAGS_KEY, FirstTags(e), false)]) + Kept(e)
  }

  /** The fields that come back, from the last to the first. */
  function Others(e: Entry): seq<Field> {
    if e == [] then []
    else
      var n := |e| - 1;
      Others(e[..n]) + (if e[n].key == "" || e[n].key == "Tags" then [] else [e[n]])
  }

  /** The first field keyed "Tags" whose value is not empty. */
  predicate TagsAt(e: Entry, i: nat) {
    && i < |e| && e[i].key == "Tags" && e[i].value != ""
    && forall j | 0 <= j < i :: e[j].key != "Tags" || e[j].value == ""
  }

  lemma {:induction false} KeptConcat(a: Entry, b: Entry)
    ensures Kept(a + b) == Kept(a) + Kept(b)
  {
    hide Kept, Written;
    if a == [] {
      assert a + b == b;
      KeptNothing();
    } else {
      assert (a + b)[1..] == a[1..] + b;
      KeptConcat(a[1..], b);
      KeptFirst(a);
      KeptFirst(a + b);
    }
  }

  lemma KeptFirst(e: Entry)
    requires e != []
    ensures Kept(e) == (if Written(e[0]) then [e[0]] else []) + Kept(e[1..])
  {
  }

  lemma KeptNothing()
    ensures Kept([]) == []
  {
  }

  lemma {:induction false} KeptIsOthers(e: Entry)
    ensures Kept(e) == Others(e)
  {
    if e != [] {
      var n := |e| - 1;
      KeptIsOthers(e[..n]);
      KeptConcat(e[..n], [e[n]]);
      assert e == e[..n] + [e[n]] && [e[n]][1..] == [];
    }
  }

  lemma {:induction false} FirstTagsAt(e: Entry) returns (i: nat)
    ensures FirstTags(e) != "" ==> TagsAt(e, i) && e[i].value == FirstTags(e)
    ensures FirstTags(e) == "" ==> forall k: nat :: !TagsAt(e, k)
  {
    i := 0;
    if e != [] && !(e[0].key == "Tags" && e[0].value != "") {
      i := FirstTagsAt(e[1..]);
      if FirstTags(e) == "" {
        forall k: nat
          ensures !TagsAt(e, k)
        {
          assert TagsAt(e, k) ==> TagsAt(e[1..], k - 1);
        }
      } else {
        assert forall j | 0 < j <= i :: e[j] == e[1..][j - 1];
        i := i + 1;
      }
    }
  }

  /** What comes back of an entry: the first tags that are not empty, in clear, and then every field with a key
      other than "Tags", as it was and in order. */
  lemma NormalFormMeans(e: Entry)
    ensures (exists i: nat :: TagsAt(e, i) && NormalForm(e) == [Field("Tags", e[i].value, false)] + Others(e))
            || ((forall i: nat :: !TagsAt(e, i)) && NormalForm(e) == Others(e))
  {
    KeptIsOthers(e);
    var i := FirstTagsAt(e);
    assert [] + Others(e) == Others(e);
    if FirstTags(e) != "" {
      assert TagsAt(e, i);
    }
  }

  /** The normal form is one: it does not change when taken again. */
  lemma NormalFormIsStable(e: Entry)
    ensures NormalForm(NormalForm(e)) == NormalForm(e)
  {
    KeptIsStable(e);
    if FirstTags(e) != "" {
      var tags := Field(TAGS_KEY, FirstTags(e), false);
      assert ([tags] + Kept(e))[1..] == Kept(e);
      assert [] + Kept(Kept(e)) == Kept(e);
    } else {
      assert [] + Kept(e) == Kept(e);
    }
  }

  lemma {:induction false} KeptIsStable(e: Entry)
    ensures Kept(Kept(e)) == Kept(e) && FirstTags(Kept(e)) == ""
  {
    if e != [] {
      KeptIsStable(e[1..]);
      if Written(e[0]) {
        assert Kept(e)[1..] == Kept(e[1..]);
      } else {
        assert Kept(e) == Kept(e[1..]);
      }
    }
  }

  lemma {:induction false} NormalFormsAreStable(es: seq<Entry>)
    ensures NormalForms(NormalForms(es)) == NormalForms(es) && |NormalForms(es)| == |es|
  {
    hide NormalForm;
    if es != [] {
      NormalFormIsStable(es[0]);
      NormalFormsAreStable(es[1..]);
      assert NormalForms(es)[1..] == NormalForms(es[1..]);
    }
  }

  function NormalForms(es: seq<Entry>): seq<Entry> {
    if es == [] then [] else [NormalForm(es[0])] + NormalForms(es[1..])
  }

  // ----- the document -----

  /** A text as the reader delivers its escaped form. */
  function Words(s: string): seq<Event> {
    Contents(Runs(s))
  }

  function Leaf(tag: string, text: string): Node {
    Box(tag, [Noise(Words(text))])
  }

  /** The text of a value element: a protected value is XORed with the key stream at `pos`. */
  function ValueOf(ks: KeyStream, pos: nat, f: Field): string {
    if f.guarded then Base64.Encode(Apply(ks, pos, Utf8.Encode(f.value))) else f.value
  }

  function Cost(f: Field): nat {
    if f.guarded then |Utf8.Encode(f.value)| else 0
  }

  function CostAll(fields: seq<Field>): nat {
    if fields == [] then 0 else (if Written(fields[0]) then Cost(fields[0]) else 0) + CostAll(fields[1..])
  }

  function FieldNode(ks: KeyStream, pos: nat, f: Field): Node {
    Box("String", [KeyText(Words(f.key)), ValueText(Words(ValueOf(ks, pos, f)), f.guarded)])
  }

  function FieldNodes(ks: KeyStream, pos: nat, fields: seq<Field>): seq<Node>
    decreases |fields|
  {
    if fields == [] then []
    else if !Written(fields[0]) then FieldNodes(ks, pos, fields[1..])
    else [FieldNode(ks, pos, fields[0])] + FieldNodes(ks, pos + Cost(fields[0]), fields[1..])
  }

  function TagNodes(e: Entry): seq<Node> {
    if FirstTags(e) == "" then [] else [Tags(Words(FirstTags(e)))]
  }

  function EntryNode(ks: KeyStream, pos: nat, uuid: seq<byte>, e: Entry): Node {
    Record([Leaf("UUID", Base64.Encode(uuid))] + (TagNodes(e) + FieldNodes(ks, pos, e)))
  }

  function EntriesCost(es: seq<Entry>): nat {
    if es == [] then 0 else CostAll(es[0]) + EntriesCost(es[1..])
  }

  function EntryNodes(ks: KeyStream, pos: nat, uuids: seq<seq<byte>>, es: seq<Entry>): seq<Node>
    requires |uuids| == |es|
    decreases |es|
  {
    if es == [] then []
    else [EntryNode(ks, pos, uuids[0], es[0])] + EntryNodes(ks, pos + CostAll(es[0]), uuids[1..], es[1..])
  }

  const ENCODING := "xml version=\"1.0\" encoding=\"utf-8\""
  const STANDALONE := " standalone=\"yes\""
  const DECLARATION := ENCODING + STANDALONE

  const META := [Leaf("Generator", "Vautix"), Leaf("DatabaseName", "Vautix Export"),
                 Leaf("RecycleBinEnabled", "False"), Leaf("HistoryMaxItems", "0")]

  function RootGroup(ks: KeyStream, uuid: seq<byte>, uuids: seq<seq<byte>>, es: seq<Entry>): Node
    requires |uuids| == |es|
  {
    Group([Leaf("UUID", Base64.Encode(uuid))] + ([GroupName(Words("Vautix"))] + EntryNodes(ks, 0, uuids, es)))
  }

  function Document(ks: KeyStream, uuid: seq<byte>, uuids: seq<seq<byte>>, es: seq<Entry>): seq<Node>
    requires |uuids| == |es|
  {
    [Noise([Prolog(DECLARATION)]),
     Box("KeePassFile", [Box("Meta", META), Box("Root", [RootGroup(ks, uuid, uuids, es)])])]
  }
}
