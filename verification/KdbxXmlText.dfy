/** The text of an exported document: built by appending, equal to the printed document, and printed
    in a form a reader can take apart again. */
module KdbxXmlText {
  import opened Bytes
  import opened KdbxTypes
  import opened Xml
  import opened KdbxWalker
  import opened KdbxTree
  import opened KdbxWriter
  import Base64
  import Utf8

  function Open(tag: string): string {
    "<" + tag + ">"
  }

  function Close(tag: string): string {
    "</" + tag + ">"
  }

  function Print(n: Node): string {
    Render(Flatten(n))
  }

  function PrintAll(ns: seq<Node>): string {
    Render(FlattenAll(ns))
  }

  // ----- printing node by node -----

  lemma RenderOne(a: Event)
    ensures Render([a]) == RenderEvent(a)
  {
    hide RenderEvent;
    assert [a][1..] == [];
    assert RenderEvent(a) + "" == RenderEvent(a);
  }

  lemma PrintWrap(tag: string, p: bool, inner: seq<Event>)
    ensures Render(Wrap(tag, p, inner)) == RenderEvent(Start(tag, p)) + Render(inner) + Close(tag)
  {
    hide Render;
    RenderConcat([Start(tag, p)] + inner, [End(tag)]);
    RenderConcat([Start(tag, p)], inner);
    RenderOne(Start(tag, p));
    RenderOne(End(tag));
  }

  lemma PrintCons(n: Node, ns: seq<Node>)
    ensures PrintAll([n] + ns) == Print(n) + PrintAll(ns)
  {
    hide Render, Flatten;
    assert ([n] + ns)[1..] == ns;
    RenderConcat(Flatten(n), FlattenAll(ns));
  }

  lemma PrintNothing()
    ensures PrintAll([]) == ""
  {
  }

  lemma PrintOne(n: Node)
    ensures PrintAll([n]) == Print(n)
  {
    PrintNothing();
    PrintCons(n, []);
    assert [n] + [] == [n];
    assert Print(n) + "" == Print(n);
  }

  lemma PrintText(s: string)
    ensures Render(Words(s)) == Escape(s)
  {
    RenderContents(Runs(s));
    RenderRuns(s);
  }

  lemma PrintBox(tag: string, kids: seq<Node>)
    ensures Print(Box(tag, kids)) == Open(tag) + PrintAll(kids) + Close(tag)
  {
    PrintWrap(tag, false, FlattenAll(kids));
  }

  lemma PrintLeaf(tag: string, text: string)
    ensures Print(Leaf(tag, text)) == Open(tag) + Escape(text) + Close(tag)
  {
    PrintBox(tag, [Noise(Words(text))]);
    PrintOne(Noise(Words(text)));
    PrintText(text);
  }

  predicate NothingSpecial(s: string) {
    forall i | 0 <= i < |s| :: !Special(s[i])
  }

  lemma {:induction false} EscapePlain(s: string)
    requires NothingSpecial(s)
    ensures Escape(s) == s
  {
    if s != "" {
      assert !Special(s[0]);
      EscapePlain(s[1..]);
      assert s == [s[0]] + s[1..];
    }
  }

  lemma EscapeBase64(b: seq<byte>)
    ensures Escape(Base64.Encode(b)) == Base64.Encode(b)
  {
    Base64.EncodedSymbols(b);
    EscapePlain(Base64.Encode(b));
  }

  function OpenValue(guarded: bool): string {
    RenderEvent(Start("Value", guarded))
  }

  /** What the writer appends for one field. */
  function FieldText(ks: KeyStream, pos: nat, f: Field): string {
    Open("String") + (Open("Key") + Escape(f.key) + Close("Key")
                      + (OpenValue(f.guarded) + (if f.guarded then ValueOf(ks, pos, f) else Escape(f.value))
                      + Close("Value")))
    + Close("String")
  }

  lemma PrintKey(text: string)
    ensures Print(KeyText(Words(text))) == Open("Key") + Escape(text) + Close("Key")
  {
    PrintWrap("Key", false, Words(text));
    PrintText(text);
  }

  lemma PrintValue(text: string, guarded: bool)
    ensures Print(ValueText(Words(text), guarded)) == OpenValue(guarded) + Escape(text) + Close("Value")
  {
    PrintWrap("Value", guarded, Words(text));
    PrintText(text);
  }

  lemma PrintField(ks: KeyStream, pos: nat, f: Field)
    ensures Print(FieldNode(ks, pos, f)) == FieldText(ks, pos, f)
  {
    hide Render, Words, Print, PrintAll, Open, Close, OpenValue, Escape, Base64.Encode;
    var k, v := KeyText(Words(f.key)), ValueText(Words(ValueOf(ks, pos, f)), f.guarded);
    PrintBox("String", [k, v]);
    PrintOne(v);
    PrintCons(k, [v]);
    assert [k] + [v] == [k, v];
    PrintKey(f.key);
    PrintValue(ValueOf(ks, pos, f), f.guarded);
    if f.guarded {
      EscapeBase64(Apply(ks, pos, Utf8.Encode(f.value)));
    }
  }

  // ----- the writer -----

  lemma PrintEntry(ks: KeyStream, pos: nat, uuid: seq<byte>, e: Entry)
    ensures Print(EntryNode(ks, pos, uuid, e))
         == Open("Entry") + (Open("UUID") + Base64.Encode(uuid) + Close("UUID")
            + (if FirstTags(e) == "" then "" else Open("Tags") + Escape(FirstTags(e)) + Close("Tags"))
            + PrintAll(FieldNodes(ks, pos, e))) + Close("Entry")
  {
    hide Render, Open, Close, Escape, Base64.Encode, FieldNodes, Leaf, Flatten;
    var fields := FieldNodes(ks, pos, e);
    var leaf := Leaf("UUID", Base64.Encode(uuid));
    PrintRecord([leaf] + (TagNodes(e) + fields));
    PrintCons(leaf, TagNodes(e) + fields);
    PrintLeaf("UUID", Base64.Encode(uuid));
    EscapeBase64(uuid);
    if FirstTags(e) == "" {
      assert TagNodes(e) + fields == fields;
    } else {
      PrintCons(Tags(Words(FirstTags(e))), fields);
      PrintTags(FirstTags(e));
    }
  }

  lemma PrintRecord(kids: seq<Node>)
    ensures Print(Record(kids)) == Open("Entry") + PrintAll(kids) + Close("Entry")
  {
    PrintWrap("Entry", false, FlattenAll(kids));
  }

  lemma PrintTags(text: string)
    ensures Print(Tags(Words(text))) == Open("Tags") + Escape(text) + Close("Tags")
  {
    PrintWrap("Tags", false, Words(text));
    PrintText(text);
  }

  lemma {:induction false} CostSplit(fields: seq<Field>, i: nat)
    requires i < |fields|
    ensures CostAll(fields[i..]) == (if Written(fields[i]) then Cost(fields[i]) else 0) + CostAll(fields[i + 1..])
  {
    assert fields[i..][1..] == fields[i + 1..];
  }

  lemma Regroup(a: string, b: string, c: string, d: string, e: string, f: string)
    ensures a + b + c + d + e + f == a + (b + (c + d + e) + f)
  {
  }

  /** One `<Entry>` element, appended piece by piece while the key stream advances. */
  method WriteEntry(before: string, e: Entry, uuid: seq<byte>, ks: KeyStream, start: nat) returns (x: string, pos: nat)
    ensures x == before + Print(EntryNode(ks, start, uuid, e))
    ensures pos == start + CostAll(e)
  {
    hide Print, PrintAll, Render, Open, Close, Escape, Base64.Encode, Base64.Decode, Utf8.Encode, Apply, EntryNode,
         FieldNode;
    x, pos := before, start;
    x := x + Open("Entry");
    x := x + (Open("UUID") + Base64.Encode(uuid) + Close("UUID"));
    var tags := FirstTags(e);
    ghost var tagText := if tags == "" then "" else Open("Tags") + Escape(tags) + Close("Tags");
    if tags != "" {
      x := x + (Open("Tags") + Escape(tags) + Close("Tags"));
    }
    ghost var head := x;
    assert head == before + Open("Entry") + (Open("UUID") + Base64.Encode(uuid) + Close("UUID")) + tagText;
    for i := 0 to |e|
      invariant x + PrintAll(FieldNodes(ks, pos, e[i..])) == head + PrintAll(FieldNodes(ks, start, e))
      invariant pos + CostAll(e[i..]) == start + CostAll(e)
    {
      var s := e[i];
      CostSplit(e, i);
      assert e[i..][0] == s && e[i..][1..] == e[i + 1..];
      if s.key == "" || s.key == TAGS_KEY {
        continue;
      }
      ghost var from, was := pos, x;
      var text := Open("Key") + Escape(s.key) + Close("Key");
      if s.guarded {
        var raw := Utf8.Encode(s.value);
        text := text + (OpenValue(true) + Base64.Encode(Apply(ks, pos, raw)) + Close("Value"));
        pos := pos + |raw|;
      } else {
        text := text + (OpenValue(false) + Escape(s.value) + Close("Value"));
      }
      x := x + (Open("String") + text + Close("String"));
      PrintField(ks, from, s);
      PrintCons(FieldNode(ks, from, s), FieldNodes(ks, pos, e[i + 1..]));
      assert x == was + Print(FieldNode(ks, from, s));
    }
    assert e[|e|..] == [];
    PrintNothing();
    PrintEntry(ks, start, uuid, e);
    Regroup(before, Open("Entry"), Open("UUID") + Base64.Encode(uuid) + Close("UUID"), tagText,
            PrintAll(FieldNodes(ks, start, e)), Close("Entry"));
    x := x + Close("Entry");
  }

  // ----- the whole document -----

  function LeafText(tag: string, text: string): string {
    Open(tag) + text + Close(tag)
  }

  const PROLOG := "<?" + DECLARATION + "?>"

  function MetaText(): string {
    LeafText("Generator", "Vautix") + (LeafText("DatabaseName", "Vautix Export")
      + (LeafText("RecycleBinEnabled", "False") + LeafText("HistoryMaxItems", "0")))
  }

  function Head(id: string): string {
    PROLOG + Open("KeePassFile") + (Open("Meta") + MetaText() + Close("Meta")) + Open("Root") + Open("Group")
    + LeafText("UUID", id) + LeafText("Name", "Vautix")
  }

  function Tail(): string {
    Close("Group") + Close("Root") + Close("KeePassFile")
  }

  lemma PlainLeaf(tag: string, text: string)
    requires NothingSpecial(text)
    ensures Print(Leaf(tag, text)) == LeafText(tag, text)
  {
    EscapePlain(text);
    PrintLeaf(tag, text);
  }

  lemma PrintMeta()
    ensures PrintAll(META) == MetaText()
  {
    hide Print, PrintAll, Leaf, LeafText;
    var g, d, r, h := META[0], META[1], META[2], META[3];
    PlainLeaf("Generator", "Vautix");
    PlainLeaf("DatabaseName", "Vautix Export");
    PlainLeaf("RecycleBinEnabled", "False");
    PlainLeaf("HistoryMaxItems", "0");
    PrintOne(h);
    PrintCons(r, [h]);
    PrintCons(d, [r] + [h]);
    PrintCons(g, [d] + ([r] + [h]));
    assert META == [g] + ([d] + ([r] + [h]));
  }

  lemma PrintGroup(id: string, name: string, kids: seq<Node>)
    requires NothingSpecial(id) && NothingSpecial(name)
    ensures Print(Group([Leaf("UUID", id)] + ([GroupName(Words(name))] + kids)))
         == Open("Group") + (LeafText("UUID", id) + LeafText("Name", name) + PrintAll(kids)) + Close("Group")
  {
    hide Render, Leaf, Flatten, FlattenAll, Wrap, Words, LeafText, Print, PrintAll;
    var leaf, named := Leaf("UUID", id), GroupName(Words(name));
    PrintGroupOf([leaf] + ([named] + kids));
    PrintCons(leaf, [named] + kids);
    PrintCons(named, kids);
    PlainLeaf("UUID", id);
    PrintName(name);
  }

  lemma PrintGroupOf(kids: seq<Node>)
    ensures Print(Group(kids)) == Open("Group") + PrintAll(kids) + Close("Group")
  {
    PrintWrap("Group", false, FlattenAll(kids));
  }

  lemma PrintName(name: string)
    requires NothingSpecial(name)
    ensures Print(GroupName(Words(name))) == LeafText("Name", name)
  {
    hide Render;
    PrintWrap("Name", false, Words(name));
    PrintText(name);
    EscapePlain(name);
    LeafTextOf("Name", name);
  }

  lemma LeafTextOf(tag: string, text: string)
    ensures LeafText(tag, text) == RenderEvent(Start(tag, false)) + text + Close(tag)
  {
  }

  lemma PrintFile(body: string, file: string, meta: string, root: string, group: Node)
    ensures PrintAll([Noise([Prolog(body)]), Box(file, [Box(meta, META), Box(root, [group])])])
         == "<?" + body + "?>"
         + (Open(file) + ((Open(meta) + MetaText() + Close(meta)) + (Open(root) + Print(group) + Close(root)))
         + Close(file))
  {
    hide Print, PrintAll, Open, Close, META, MetaText;
    var r, m := Box(root, [group]), Box(meta, META);
    PrintOne(group);
    PrintBox(root, [group]);
    PrintOne(r);
    PrintMeta();
    PrintBox(meta, META);
    PrintCons(m, [r]);
    assert [m] + [r] == [m, r];
    PrintBox(file, [m, r]);
    var f, d := Box(file, [m, r]), Noise([Prolog(body)]);
    PrintOne(f);
    PrintDeclaration(body);
    PrintCons(d, [f]);
    assert [d] + [f] == [d, f];
  }

  lemma PrintDeclaration(body: string)
    ensures Print(Noise([Prolog(body)])) == "<?" + body + "?>"
  {
    RenderOne(Prolog(body));
  }

  lemma RegroupFile(p: string, kf: string, m: string, r: string, g: string, u: string, n: string, es: string,
                    cg: string, cr: string, ckf: string)
    ensures p + (kf + (m + (r + (g + (u + n + es) + cg) + cr)) + ckf)
         == (p + kf + m + r + g + u + n) + es + (cg + cr + ckf)
  {
  }

  function FileNode(id: string, name: string, kids: seq<Node>): Node {
    var group := Group([Leaf("UUID", id)] + ([GroupName(Words(name))] + kids));
    Box("KeePassFile", [Box("Meta", META), Box("Root", [group])])
  }

  lemma PrintTree(body: string, prolog: string, id: string, name: string, kids: seq<Node>)
    requires NothingSpecial(id) && NothingSpecial(name) && prolog == "<?" + body + "?>"
    ensures PrintAll([Noise([Prolog(body)]), FileNode(id, name, kids)])
         == prolog + Open("KeePassFile") + (Open("Meta") + MetaText() + Close("Meta")) + Open("Root") + Open("Group")
            + LeafText("UUID", id) + LeafText("Name", name) + PrintAll(kids) + Tail()
  {
    hide Print, PrintAll, Open, Close, LeafText, MetaText, META, Leaf, Words, NothingSpecial;
    PrintFile(body, "KeePassFile", "Meta", "Root", Group([Leaf("UUID", id)] + ([GroupName(Words(name))] + kids)));
    PrintGroup(id, name, kids);
    RegroupFile(prolog, Open("KeePassFile"), Open("Meta") + MetaText() + Close("Meta"), Open("Root"), Open("Group"),
                LeafText("UUID", id), LeafText("Name", name), PrintAll(kids), Close("Group"), Close("Root"),
                Close("KeePassFile"));
  }

  lemma NameIsPlain()
    ensures NothingSpecial("Vautix")
  {
  }

  lemma PrintDocument(ks: KeyStream, uuid: seq<byte>, uuids: seq<seq<byte>>, es: seq<Entry>)
    requires |uuids| == |es|
    ensures PrintAll(Document(ks, uuid, uuids, es))
              == Head(Base64.Encode(uuid)) + PrintAll(EntryNodes(ks, 0, uuids, es)) + Tail()
  {
    hide PrintAll, Open, Close, LeafText, MetaText, META, Base64.Encode, EntryNodes, Leaf, Words, NothingSpecial,
         Tail, DECLARATION;
    SymbolsAreNotSpecial(uuid);
    NameIsPlain();
    PrintTree(DECLARATION, PROLOG, Base64.Encode(uuid), "Vautix", EntryNodes(ks, 0, uuids, es));
  }

  lemma SymbolsAreNotSpecial(b: seq<byte>)
    ensures NothingSpecial(Base64.Encode(b))
  {
    Base64.EncodedSymbols(b);
  }

  /** The export's XML: exactly the printed document, with the key stream spent in document order. */
  method BuildXml(entries: seq<Entry>, ks: KeyStream, uuid: seq<byte>, uuids: seq<seq<byte>>) returns (x: string)
    requires |uuids| == |entries|
    ensures x == Render(FlattenAll(Document(ks, uuid, uuids, entries)))
  {
    hide Print, Render, FlattenAll, Document, Open, Close, LeafText, MetaText, Base64.Encode, EntryNode;
    x := PROLOG;
    x := x + Open("KeePassFile");
    x := x + (Open("Meta") + MetaText() + Close("Meta"));
    x := x + Open("Root") + Open("Group");
    x := x + LeafText("UUID", Base64.Encode(uuid));
    x := x + LeafText("Name", "Vautix");
    ghost var head := x;
    var pos: nat := 0;
    for i := 0 to |entries|
      invariant x + PrintAll(EntryNodes(ks, pos, uuids[i..], entries[i..]))
                  == head + PrintAll(EntryNodes(ks, 0, uuids, entries))
    {
      ghost var from := pos;
      assert entries[i..][0] == entries[i] && entries[i..][1..] == entries[i + 1..];
      assert uuids[i..][0] == uuids[i] && uuids[i..][1..] == uuids[i + 1..];
      x, pos := WriteEntry(x, entries[i], uuids[i], ks, pos);
      PrintCons(EntryNode(ks, from, uuids[i], entries[i]), EntryNodes(ks, pos, uuids[i + 1..], entries[i + 1..]));
    }
    PrintNothing();
    assert entries[|entries|..] == [] && EntryNodes(ks, pos, uuids[|entries|..], entries[|entries|..]) == [];
    x := x + Close("Group") + Close("Root") + Close("KeePassFile");
    PrintDocument(ks, uuid, uuids, entries);
  }
}
