/** An exported document is printed unambiguously: its text determines its events. */
module KdbxPrintable {
  import opened Bytes
  import opened KdbxTypes
  import opened Xml
  import opened KdbxWalker
  import opened KdbxTree
  import opened KdbxWriter
  import Base64

  /** What may stand inside an element: nested elements and character data. */
  predicate Sound(es: seq<Event>) {
    Printable(es) && Balanced(es) && forall i | 0 <= i < |es| :: !es[i].Prolog?
  }

  /** Sound, and with no character data at either end. */
  predicate Framed(es: seq<Event>) {
    && Sound(es)
    && (es != [] ==> !Plain(es[0]) && !Plain(es[|es| - 1]))
  }

  lemma PrintableConcat(a: seq<Event>, b: seq<Event>)
    requires Printable(a) && Printable(b)
    requires a != [] && b != [] ==> !(Plain(a[|a| - 1]) && Plain(b[0]))
    ensures Printable(a + b)
  {
    hide PrintableEvent, Plain;
    var es := a + b;
    forall i | 0 < i < |es|
      ensures !(Plain(es[i - 1]) && Plain(es[i]))
    {
      if i < |a| {
        assert es[i - 1] == a[i - 1] && es[i] == a[i];
      } else if i > |a| {
        assert es[i - 1] == b[i - 1 - |a|] && es[i] == b[i - |a|];
      } else {
        assert a == [] || es[i - 1] == a[|a| - 1];
      }
    }
  }

  lemma FramedConcat(a: seq<Event>, b: seq<Event>)
    requires Framed(a) && Framed(b)
    ensures Framed(a + b)
  {
    hide PrintableEvent, Plain, Printable, Balanced;
    PrintableConcat(a, b);
    BalancedConcat(a, b);
  }

  lemma BalancedWrap(tag: string, p: bool, inner: seq<Event>)
    requires Balanced(inner)
    ensures Balanced(Wrap(tag, p, inner))
  {
    NestingUnder(inner, [], [tag]);
    assert [tag] + [] == [tag];
    NestingConcat(inner, [End(tag)], [tag]);
    assert [End(tag)][1..] == [] && [tag][..0] == [];
    assert Wrap(tag, p, inner)[1..] == inner + [End(tag)];
    assert [] + [tag] == [tag];
  }

  lemma FramedWrap(tag: string, p: bool, inner: seq<Event>)
    requires Name(tag) && Sound(inner)
    ensures Framed(Wrap(tag, p, inner))
  {
    hide Balanced;
    var open, close := [Start(tag, p)], [End(tag)];
    assert Printable(open) && Printable(close);
    PrintableConcat(open, inner);
    PrintableConcat(open + inner, close);
    BalancedWrap(tag, p, inner);
  }

  predicate RunsPrintable(runs: seq<Run>) {
    && (forall i | 0 <= i < |runs| :: PrintableEvent(Content(runs[i])))
    && (forall i | 0 < i < |runs| :: !(runs[i - 1].Chars? && runs[i].Chars?))
  }

  lemma EntityNameIsPrintable(c: char)
    requires Special(c)
    ensures PrintableEvent(Content(Reference(EntityName(c))))
  {
  }

  lemma PrependPrintable(c: char, runs: seq<Run>)
    requires RunsPrintable(runs) && !Special(c)
    ensures RunsPrintable(Prepend(c, runs))
  {
    var p := Prepend(c, runs);
    if runs != [] && runs[0].Chars? {
      assert PrintableEvent(Content(runs[0]));
      var t := [c] + runs[0].text;
      assert forall j | 0 <= j < |t| :: PlainChar(t[j]) by {
        forall j | 0 <= j < |t| ensures PlainChar(t[j]) {
          if j > 0 {
            assert t[j] == runs[0].text[j - 1];
          }
        }
      }
      assert forall i | 1 <= i < |p| :: p[i] == runs[i];
    } else {
      assert forall i | 1 <= i < |p| :: p[i] == runs[i - 1];
    }
  }

  lemma ConsReferencePrintable(name: string, runs: seq<Run>)
    requires RunsPrintable(runs) && PrintableEvent(Content(Reference(name)))
    ensures RunsPrintable([Reference(name)] + runs)
  {
    var p := [Reference(name)] + runs;
    assert forall i | 1 <= i < |p| :: p[i] == runs[i - 1];
  }

  lemma {:induction false} EscapedRunsPrintable(s: string)
    ensures RunsPrintable(Runs(s))
  {
    if s != "" {
      EscapedRunsPrintable(s[1..]);
      if Special(s[0]) {
        EntityNameIsPrintable(s[0]);
        ConsReferencePrintable(EntityName(s[0]), Runs(s[1..]));
      } else {
        PrependPrintable(s[0], Runs(s[1..]));
      }
    }
  }

  lemma {:induction false} RunsAreFlat(runs: seq<Run>)
    ensures Balanced(Contents(runs))
  {
    if runs != [] {
      RunsAreFlat(runs[1..]);
      assert Contents(runs)[1..] == Contents(runs[1..]);
    }
  }

  lemma SoundText(s: string)
    ensures Sound(Words(s))
  {
    hide Runs, Balanced;
    EscapedRunsPrintable(s);
    RunsAreFlat(Runs(s));
  }

  lemma FramedTags(tag: string, s: string, p: bool)
    requires Name(tag)
    ensures Framed(Wrap(tag, p, Words(s)))
  {
    hide Words, Sound, Framed;
    SoundText(s);
    FramedWrap(tag, p, Words(s));
  }

  lemma FlattenOne(n: Node)
    ensures FlattenAll([n]) == Flatten(n)
  {
    assert [n][1..] == [];
    assert Flatten(n) + FlattenAll([]) == Flatten(n);
  }

  lemma FramedLeaf(tag: string, s: string)
    requires Name(tag)
    ensures Framed(Flatten(Leaf(tag, s)))
  {
    FramedTags(tag, s, false);
    FlattenOne(Noise(Words(s)));
  }

  lemma FramedBox(tag: string, kids: seq<Node>)
    requires Name(tag) && Framed(FlattenAll(kids))
    ensures Framed(Flatten(Box(tag, kids)))
  {
    FramedWrap(tag, false, FlattenAll(kids));
  }

  lemma FramedCons(n: Node, ns: seq<Node>)
    requires Framed(Flatten(n)) && Framed(FlattenAll(ns))
    ensures Framed(FlattenAll([n] + ns))
  {
    hide Framed, Flatten;
    assert ([n] + ns)[1..] == ns;
    FramedConcat(Flatten(n), FlattenAll(ns));
  }

  lemma FramedOne(n: Node)
    requires Framed(Flatten(n))
    ensures Framed(FlattenAll([n]))
  {
    NothingIsFramed();
    FramedCons(n, []);
    assert [n] + [] == [n];
  }

  lemma NothingIsFramed()
    ensures Framed(FlattenAll([]))
  {
  }

  lemma TagNames()
    ensures Name("String") && Name("Key") && Name("Value") && Name("Tags") && Name("UUID") && Name("Entry")
    ensures Name("Group") && Name("Name") && Name("Root") && Name("Meta") && Name("KeePassFile")
  {
  }

  lemma MetaNames()
    ensures Name("Generator") && Name("DatabaseName") && Name("RecycleBinEnabled") && Name("HistoryMaxItems")
  {
  }

  lemma FramedField(ks: KeyStream, pos: nat, f: Field)
    ensures Framed(Flatten(FieldNode(ks, pos, f)))
  {
    hide Framed, Name, Words;
    TagNames();
    var k, v := KeyText(Words(f.key)), ValueText(Words(ValueOf(ks, pos, f)), f.guarded);
    FramedTags("Key", f.key, false);
    FramedTags("Value", ValueOf(ks, pos, f), f.guarded);
    FramedOne(v);
    FramedCons(k, [v]);
    assert [k] + [v] == [k, v];
    FramedBox("String", [k, v]);
  }

  lemma {:induction false} FramedFields(ks: KeyStream, pos: nat, fields: seq<Field>)
    ensures Framed(FlattenAll(FieldNodes(ks, pos, fields)))
    decreases |fields|
  {
    hide Flatten, FieldNode;
    if fields != [] {
      if Written(fields[0]) {
        FramedField(ks, pos, fields[0]);
        FramedFields(ks, pos + Cost(fields[0]), fields[1..]);
        FramedCons(FieldNode(ks, pos, fields[0]), FieldNodes(ks, pos + Cost(fields[0]), fields[1..]));
      } else {
        FramedFields(ks, pos, fields[1..]);
      }
    }
  }

  lemma FramedEntry(ks: KeyStream, pos: nat, uuid: seq<byte>, e: Entry)
    ensures Framed(Flatten(EntryNode(ks, pos, uuid, e)))
  {
    hide Framed, Name, FieldNodes, Leaf, Words;
    TagNames();
    var leaf := Leaf("UUID", Base64.Encode(uuid));
    var fields := FieldNodes(ks, pos, e);
    FramedLeaf("UUID", Base64.Encode(uuid));
    FramedFields(ks, pos, e);
    if FirstTags(e) == "" {
      assert TagNodes(e) + fields == fields;
    } else {
      FramedTags("Tags", FirstTags(e), false);
      FramedCons(Tags(Words(FirstTags(e))), fields);
    }
    FramedCons(leaf, TagNodes(e) + fields);
    SoundFramed(FlattenAll([leaf] + (TagNodes(e) + fields)));
    FramedWrap("Entry", false, FlattenAll([leaf] + (TagNodes(e) + fields)));
  }

  lemma SoundFramed(es: seq<Event>)
    requires Framed(es)
    ensures Sound(es)
  {
  }

  lemma {:induction false} FramedEntries(ks: KeyStream, pos: nat, uuids: seq<seq<byte>>, es: seq<Entry>)
    requires |uuids| == |es|
    ensures Framed(FlattenAll(EntryNodes(ks, pos, uuids, es)))
    decreases |es|
  {
    hide EntryNode, Flatten;
    if es != [] {
      FramedEntry(ks, pos, uuids[0], es[0]);
      FramedEntries(ks, pos + CostAll(es[0]), uuids[1..], es[1..]);
      FramedCons(EntryNode(ks, pos, uuids[0], es[0]), EntryNodes(ks, pos + CostAll(es[0]), uuids[1..], es[1..]));
    }
  }

  lemma FramedMeta()
    ensures Framed(FlattenAll(META))
  {
    hide Framed, Name, Leaf, FlattenAll;
    MetaNames();
    var g, d, r, h := META[0], META[1], META[2], META[3];
    FramedLeaf("Generator", "Vautix");
    FramedLeaf("DatabaseName", "Vautix Export");
    FramedLeaf("RecycleBinEnabled", "False");
    FramedLeaf("HistoryMaxItems", "0");
    FramedOne(h);
    FramedCons(r, [h]);
    FramedCons(d, [r] + [h]);
    FramedCons(g, [d] + ([r] + [h]));
    assert META == [g] + ([d] + ([r] + [h]));
  }

  lemma FramedGroup(id: string, name: string, kids: seq<Node>)
    requires Framed(FlattenAll(kids))
    ensures Framed(Flatten(Group([Leaf("UUID", id)] + ([GroupName(Words(name))] + kids))))
  {
    hide Framed, Name, Leaf, Words, FlattenAll, Sound;
    TagNames();
    var named := GroupName(Words(name));
    FramedLeaf("UUID", id);
    FramedTags("Name", name, false);
    FramedCons(named, kids);
    FramedCons(Leaf("UUID", id), [named] + kids);
    SoundFramed(FlattenAll([Leaf("UUID", id)] + ([named] + kids)));
    FramedWrap("Group", false, FlattenAll([Leaf("UUID", id)] + ([named] + kids)));
  }

  lemma FramedFile(group: Node)
    requires Framed(Flatten(group))
    ensures Framed(FlattenAll([Box("KeePassFile", [Box("Meta", META), Box("Root", [group])])]))
  {
    hide Framed, Name, META, FlattenAll, Sound;
    TagNames();
    var m, r := Box("Meta", META), Box("Root", [group]);
    FramedOne(group);
    FramedInBox("Root", [group]);
    FramedMeta();
    FramedInBox("Meta", META);
    FramedOne(r);
    FramedCons(m, [r]);
    assert [m] + [r] == [m, r];
    FramedInBox("KeePassFile", [m, r]);
    FramedOne(Box("KeePassFile", [m, r]));
  }

  lemma FramedInBox(tag: string, kids: seq<Node>)
    requires Name(tag) && Framed(FlattenAll(kids))
    ensures Framed(Flatten(Box(tag, kids)))
  {
    hide Framed, Name, FlattenAll;
    FramedBox(tag, kids);
  }

  lemma DeclarationIsPrintable()
    ensures PrintableEvent(Prolog(DECLARATION))
  {
    assert forall i | 0 <= i < |ENCODING| :: ENCODING[i] != '>';
    assert forall i | 0 <= i < |STANDALONE| :: STANDALONE[i] != '>';
    assert DECLARATION[..4] == XML;
  }

  lemma Declared(body: string, es: seq<Event>)
    requires PrintableEvent(Prolog(body)) && Framed(es)
    ensures Readable([Prolog(body)] + es)
  {
    hide PrintableEvent;
    var all := [Prolog(body)] + es;
    PrintableConcat([Prolog(body)], es);
    assert all[1..] == es;
  }

  /** The events of an exported document can be told from its text by any reader that reads documents of
      nested elements. */
  lemma DocumentIsReadable(ks: KeyStream, uuid: seq<byte>, uuids: seq<seq<byte>>, es: seq<Entry>)
    requires |uuids| == |es|
    ensures Readable(FlattenAll(Document(ks, uuid, uuids, es)))
  {
    hide Framed, FlattenAll, Flatten, META, Leaf, Words, EntryNodes, DECLARATION, Readable, Sound;
    FramedEntries(ks, 0, uuids, es);
    FramedGroup(Base64.Encode(uuid), "Vautix", EntryNodes(ks, 0, uuids, es));
    FramedFile(RootGroup(ks, uuid, uuids, es));
    DeclarationIsPrintable();
    var file := Box("KeePassFile", [Box("Meta", META), Box("Root", [RootGroup(ks, uuid, uuids, es)])]);
    Declared(DECLARATION, FlattenAll([file]));
    DeclarationFirst(DECLARATION, [file]);
    assert Document(ks, uuid, uuids, es) == [Noise([Prolog(DECLARATION)])] + [file];
  }

  lemma DeclarationFirst(body: string, ns: seq<Node>)
    ensures FlattenAll([Noise([Prolog(body)])] + ns) == [Prolog(body)] + FlattenAll(ns)
  {
    assert ([Noise([Prolog(body)])] + ns)[1..] == ns;
  }
}
