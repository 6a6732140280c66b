/** Reading an exported document gives every entry back in normal form. */
module KdbxReadBack {
  import opened Wrappers
  import opened Bytes
  import opened KdbxTypes
  import opened Xml
  import opened KdbxWalker
  import opened KdbxTree
  import opened KdbxOnePass
  import opened KdbxWriter
  import Base64
  import Utf8

  /** From `at` the node is met without error up to `end`; it adds `own` to an entry around it, nothing to
      a group's name, and yields the entries `kept`. */
  ghost predicate Reads(ks: KeyStream, n: Node, at: Spot, end: Spot, own: seq<Field>, path: seq<string>,
                        kept: seq<Entry>) {
    && WellFormed(n)
    && var d := Discharge(ks, Duties(n), at);
    && d.Success? && |d.value.0| == ValueCount(n) && d.value.1 == end
    && Own(Fill(n, d.value.0)) == own && NameIn(Fill(n, d.value.0)) == ""
    && Select(Fill(n, d.value.0), path) == kept
  }

  ghost predicate ReadsAll(ks: KeyStream, ns: seq<Node>, at: Spot, end: Spot, own: seq<Field>, path: seq<string>,
                           kept: seq<Entry>) {
    && AllWellFormed(ns)
    && var d := Discharge(ks, AllDuties(ns), at);
    && d.Success? && |d.value.0| == ValueCounts(ns) && d.value.1 == end
    && AllOwn(FillAll(ns, d.value.0)) == own && NamesIn(FillAll(ns, d.value.0)) == ""
    && SelectAll(FillAll(ns, d.value.0), path) == kept
  }

  lemma Units<T>(x: seq<T>)
    ensures [] + x == x && x + [] == x
  {
  }

  lemma ReadNothing(ks: KeyStream, at: Spot, path: seq<string>)
    ensures ReadsAll(ks, [], at, at, [], path, [])
  {
  }

  lemma ReadCons(ks: KeyStream, n: Node, ns: seq<Node>, at: Spot, mid: Spot, end: Spot, own1: seq<Field>,
                 own2: seq<Field>, path: seq<string>, kept1: seq<Entry>, kept2: seq<Entry>)
    requires Reads(ks, n, at, mid, own1, path, kept1)
    requires ReadsAll(ks, ns, mid, end, own2, path, kept2)
    ensures ReadsAll(ks, [n] + ns, at, end, own1 + own2, path, kept1 + kept2)
  {
    hide Discharge, WellFormed, AllWellFormed, Duties, AllDuties, Own, AllOwn, Select, SelectAll, Fill, FillAll,
         NameIn, NamesIn, ValueCount, ValueCounts, Named;
    var all := [n] + ns;
    NodesCons(n, ns);
    DischargeConcat(ks, Duties(n), AllDuties(ns), at);
    var f1, f2 := Discharge(ks, Duties(n), at).value.0, Discharge(ks, AllDuties(ns), mid).value.0;
    FillCons(all, f1, f2);
    ClearCons(Fill(n, f1), FillAll(ns, f2), path);
    NamedTwice(path, "", "");
  }

  lemma NodesCons(n: Node, ns: seq<Node>)
    ensures var all := [n] + ns;
            && all[0] == n && all[1..] == ns
            && AllWellFormed(all) == (WellFormed(n) && AllWellFormed(ns))
            && AllDuties(all) == Duties(n) + AllDuties(ns) && ValueCounts(all) == ValueCount(n) + ValueCounts(ns)
  {
    hide WellFormed, Duties, ValueCount;
    assert ([n] + ns)[1..] == ns;
  }

  lemma ClearCons(c: Clear, cs: seq<Clear>, path: seq<string>)
    ensures var all := [c] + cs;
            && AllOwn(all) == Own(c) + AllOwn(cs) && NamesIn(all) == NameIn(c) + NamesIn(cs)
            && SelectAll(all, path) == Select(c, path) + SelectAll(cs, Named(path, NameIn(c)))
  {
    hide Own, NameIn, Select, Named;
    assert ([c] + cs)[1..] == cs;
  }

  lemma ReadOne(ks: KeyStream, n: Node, at: Spot, end: Spot, own: seq<Field>, path: seq<string>, kept: seq<Entry>)
    requires Reads(ks, n, at, end, own, path, kept)
    ensures ReadsAll(ks, [n], at, end, own, path, kept)
  {
    ReadNothing(ks, end, path);
    ReadCons(ks, n, [], at, end, end, own, [], path, kept, []);
    assert [n] + [] == [n] && own + [] == own && kept + [] == kept;
  }

  lemma ReadBox(ks: KeyStream, tag: string, kids: seq<Node>, at: Spot, end: Spot, own: seq<Field>,
                path: seq<string>, kept: seq<Entry>)
    requires ReadsAll(ks, kids, at, end, own, path, kept)
    requires tag !in MEANINGFUL
    ensures Reads(ks, Box(tag, kids), at, end, own, path, kept)
  {
  }

  // ----- text -----

  /** Escaped text is met without error, spells what was escaped, and leaves no trace in phase one. */
  lemma ReadWords(ks: KeyStream, s: string, at: Spot)
    ensures AllSilent(Words(s)) && Spelled(Words(s)) == s
    ensures Discharge(ks, TextDuties(Words(s)), at) == Success(([], at))
  {
    hide Runs;
    RunsRoundTrip(s);
    ReadRuns(ks, Runs(s), at);
  }

  lemma {:induction false} ReadRuns(ks: KeyStream, runs: seq<Run>, at: Spot)
    requires Resolvable(runs)
    ensures Spelled(Contents(runs)) == TextOf(runs)
    ensures Discharge(ks, TextDuties(Contents(runs)), at) == Success(([], at))
  {
    hide Resolve;
    if runs != [] {
      assert RunText(runs[0]).Some?;
      assert Resolvable(runs[1..]) by {
        forall i | 0 <= i < |runs[1..]|
          ensures RunText(runs[1..][i]).Some?
        {
          assert RunText(runs[i + 1]).Some?;
        }
      }
      ReadRuns(ks, runs[1..], at);
      assert Contents(runs)[1..] == Contents(runs[1..]);
      TextDutiesStep(Contents(runs));
    }
  }

  lemma ReadNoise(ks: KeyStream, text: string, at: Spot, path: seq<string>)
    ensures Reads(ks, Noise(Words(text)), at, at, [], path, [])
  {
    hide Words;
    ReadWords(ks, text, at);
    EmptyBoxYields(path);
  }

  lemma ReadLeaf(ks: KeyStream, tag: string, text: string, at: Spot, path: seq<string>)
    requires tag !in MEANINGFUL
    ensures Reads(ks, Leaf(tag, text), at, at, [], path, [])
  {
    hide Reads, ReadsAll, Words;
    ReadNoise(ks, text, at, path);
    ReadOne(ks, Noise(Words(text)), at, at, [], path, []);
    ReadBox(ks, tag, [Noise(Words(text))], at, at, [], path, []);
  }

  lemma ReadTags(ks: KeyStream, text: string, at: Spot, path: seq<string>)
    requires text != ""
    ensures Reads(ks, Tags(Words(text)), at, at, [Field(TAGS_KEY, text, false)], path, [])
  {
    hide Words;
    ReadWords(ks, text, at);
  }

  // ----- a key and its value -----

  /** What was encrypted at a position is decrypted at that position. */
  lemma UnprotectProtected(ks: KeyStream, pos: nat, value: string)
    ensures Unprotect(ks, pos, Base64.Encode(Apply(ks, pos, Utf8.Encode(value))))
         == Success((value, |Utf8.Encode(value)|))
  {
    hide Base64.Encode, Base64.Decode, Utf8.Decode, Utf8.Encode, Apply;
    var raw := Utf8.Encode(value);
    Base64.RoundTrip(Apply(ks, pos, raw));
    ApplyTwice(ks, pos, raw);
    Utf8.RoundTrip(value);
  }

  lemma EmptyStaysEmpty(ks: KeyStream, pos: nat, value: string)
    ensures Base64.Encode(Apply(ks, pos, Utf8.Encode(value))) == "" <==> value == ""
    ensures value == "" ==> |Utf8.Encode(value)| == 0
  {
  }

  /** Whatever the writer puts into a value element, protected or not, empty or not, the reader reveals
      from the same position, spending the same. */
  lemma RevealWritten(ks: KeyStream, pos: nat, f: Field)
    ensures Reveal(ks, pos, ValueOf(ks, pos, f), f.guarded) == Success((f.value, Cost(f)))
  {
    hide Unprotect, Base64.Encode, Utf8.Encode, Apply;
    if f.guarded {
      UnprotectProtected(ks, pos, f.value);
      EmptyStaysEmpty(ks, pos, f.value);
    }
  }

  /** `raw` is what a Base64 text stands for. */
  predicate Holds64(text: string, raw: seq<byte>) {
    Base64.Encode(raw) == text
  }

  /** On any text: a protected value is revealed exactly if it is the Base64 of what the key stream at its position
      makes of a text in UTF-8, costing as many bytes; it fails as no Base64 or as no UTF-8. */
  lemma RevealMeans(ks: KeyStream, pos: nat, text: string, guarded: bool, plain: string)
    ensures Reveal(ks, pos, text, false) == Success((text, 0)) && Reveal(ks, pos, "", guarded) == Success(("", 0))
    ensures text != "" ==>
              var r := Reveal(ks, pos, text, true);
              && (forall raw | Holds64(text, raw) ::
                    r == Success((plain, |raw|)) <==> Apply(ks, pos, raw) == Utf8.Encode(plain))
              && (r.Success? ==> exists raw :: Holds64(text, raw))
              && (r == Failure(Corrupt("b64")) <==> forall raw :: !Holds64(text, raw))
              && (r.Failure? ==> r.error in {Corrupt("b64"), Corrupt("protected utf8")})
  {
    hide Base64.Encode, Base64.Decode, Utf8.Encode, Utf8.Decode, Apply;
    forall raw
      ensures Holds64(text, raw) <==> Base64.Decode(text) == Some(raw)
    {
      Base64.RoundTrip(raw);
      Base64.DecodeIsInverse(text);
    }
    if Base64.Decode(text).Some? {
      var x := Apply(ks, pos, Base64.Decode(text).value);
      Utf8.RoundTrip(plain);
      Utf8.DecodeIsInverse(x);
      assert Holds64(text, Base64.Decode(text).value);
    }
  }

  lemma ReadKey(ks: KeyStream, key: string, at: Spot, path: seq<string>)
    ensures Reads(ks, KeyText(Words(key)), at, at.(key := key), [], path, [])
  {
    hide Words, Discharge;
    ReadWords(ks, key, at);
    DischargeConcat(ks, TextDuties(Words(key)), [KeyIs(key)], at);
    DischargeKey(ks, key, at);
    EmptyBoxYields(path);
  }

  lemma ReadValueText(ks: KeyStream, f: Field, at: Spot, path: seq<string>)
    requires at.key == f.key
    ensures Reads(ks, ValueText(Words(ValueOf(ks, at.pos, f)), f.guarded), at, at.(pos := at.pos + Cost(f)), [f], path,
                  [])
  {
    hide Words, Discharge, Reveal, Cost, ValueOf;
    var text := ValueOf(ks, at.pos, f);
    ReadWords(ks, text, at);
    DischargeConcat(ks, TextDuties(Words(text)), [ValueIs(text, f.guarded)], at);
    DischargeValue(ks, text, f.guarded, at);
    RevealWritten(ks, at.pos, f);
    Units([f]);
  }

  lemma ReadField(ks: KeyStream, f: Field, at: Spot, path: seq<string>)
    ensures Reads(ks, FieldNode(ks, at.pos, f), at, Spot(at.pos + Cost(f), f.key), [f], path, [])
  {
    hide Reads, ReadsAll, Words, Cost;
    var keyed, end := at.(key := f.key), Spot(at.pos + Cost(f), f.key);
    var k, v := KeyText(Words(f.key)), ValueText(Words(ValueOf(ks, at.pos, f)), f.guarded);
    ReadKey(ks, f.key, at, path);
    ReadValueText(ks, f, keyed, path);
    ReadOne(ks, v, keyed, end, [f], path, []);
    ReadCons(ks, k, [v], at, keyed, end, [], [f], path, [], []);
    Units([f]);
    Units<Entry>([]);
    assert [k] + [v] == [k, v];
    ReadBox(ks, "String", [k, v], at, end, [f], path, []);
  }

  /** The last key read when some fields have been. */
  function LastKey(fields: seq<Field>, key: string): string
    decreases |fields|
  {
    if fields == [] then key else LastKey(fields[1..], if Written(fields[0]) then fields[0].key else key)
  }

  lemma {:induction false} ReadFields(ks: KeyStream, at: Spot, fields: seq<Field>, path: seq<string>)
    ensures ReadsAll(ks, FieldNodes(ks, at.pos, fields), at, Spot(at.pos + CostAll(fields), LastKey(fields, at.key)),
                     Kept(fields), path, [])
    decreases |fields|
  {
    hide ReadsAll, Reads, Cost, FieldNode;
    if fields == [] {
      ReadNothing(ks, at, path);
    } else if !Written(fields[0]) {
      ReadFields(ks, at, fields[1..], path);
      Units(Kept(fields[1..]));
    } else {
      var f := fields[0];
      var next := Spot(at.pos + Cost(f), f.key);
      ReadField(ks, f, at, path);
      ReadFields(ks, next, fields[1..], path);
      ReadCons(ks, FieldNode(ks, at.pos, f), FieldNodes(ks, next.pos, fields[1..]), at, next,
               Spot(next.pos + CostAll(fields[1..]), LastKey(fields[1..], f.key)), [f], Kept(fields[1..]), path,
               [], []);
      Units<Entry>([]);
    }
  }

  // ----- entries -----

  lemma ReadTagsThen(ks: KeyStream, e: Entry, rest: seq<Node>, at: Spot, end: Spot, own: seq<Field>, path: seq<string>)
    requires ReadsAll(ks, rest, at, end, own, path, [])
    ensures ReadsAll(ks, TagNodes(e) + rest, at, end,
                     (if FirstTags(e) == "" then [] else [Field(TAGS_KEY, FirstTags(e), false)]) + own, path, [])
  {
    hide ReadsAll, Reads, Words;
    var text := FirstTags(e);
    Units(own);
    Units(rest);
    if text != "" {
      ReadTags(ks, text, at, path);
      ReadCons(ks, Tags(Words(text)), rest, at, at, end, [Field(TAGS_KEY, text, false)], own, path, [], []);
      Units<Entry>([]);
    }
  }

  lemma ReadEntry(ks: KeyStream, at: Spot, uuid: seq<byte>, e: Entry, path: seq<string>)
    requires RECYCLE_BIN !in path
    ensures Reads(ks, EntryNode(ks, at.pos, uuid, e), at, Spot(at.pos + CostAll(e), LastKey(e, at.key)), [], path,
                  [WithGroupPath(NormalForm(e), path)])
  {
    hide ReadsAll, WithGroupPath, Discharge, Leaf, FieldNodes, TagNodes;
    var end := Spot(at.pos + CostAll(e), LastKey(e, at.key));
    var leaf := Leaf("UUID", Base64.Encode(uuid));
    ReadLeaf(ks, "UUID", Base64.Encode(uuid), at, path);
    ReadFields(ks, at, e, path);
    ReadTagsThen(ks, e, FieldNodes(ks, at.pos, e), at, end, Kept(e), path);
    var rest := TagNodes(e) + FieldNodes(ks, at.pos, e);
    ReadCons(ks, leaf, rest, at, at, end, [], NormalForm(e), path, [], []);
    Units(NormalForm(e));
    Units<Entry>([]);
    ReadRecord(ks, [leaf] + rest, at, end, NormalForm(e), path);
  }

  lemma ReadRecord(ks: KeyStream, kids: seq<Node>, at: Spot, end: Spot, own: seq<Field>, path: seq<string>)
    requires ReadsAll(ks, kids, at, end, own, path, []) && RECYCLE_BIN !in path
    ensures Reads(ks, Record(kids), at, end, [], path, [WithGroupPath(own, path)])
  {
  }

  function Placed(es: seq<Entry>, path: seq<string>): seq<Entry> {
    if es == [] then [] else [WithGroupPath(NormalForm(es[0]), path)] + Placed(es[1..], path)
  }

  function LastKeyOfAll(es: seq<Entry>, key: string): string
    decreases |es|
  {
    if es == [] then key else LastKeyOfAll(es[1..], LastKey(es[0], key))
  }

  lemma {:induction false} ReadEntries(ks: KeyStream, at: Spot, uuids: seq<seq<byte>>, es: seq<Entry>,
                                       path: seq<string>)
    requires |uuids| == |es| && RECYCLE_BIN !in path
    ensures ReadsAll(ks, EntryNodes(ks, at.pos, uuids, es), at,
                     Spot(at.pos + EntriesCost(es), LastKeyOfAll(es, at.key)), [],
                     path, Placed(es, path))
    decreases |es|
  {
    hide ReadsAll, Reads, WithGroupPath, NormalForm, CostAll, EntryNode, LastKey;
    if es == [] {
      ReadNothing(ks, at, path);
    } else {
      var next := Spot(at.pos + CostAll(es[0]), LastKey(es[0], at.key));
      var end := Spot(at.pos + EntriesCost(es), LastKeyOfAll(es, at.key));
      ReadEntry(ks, at, uuids[0], es[0], path);
      ReadEntries(ks, next, uuids[1..], es[1..], path);
      ReadCons(ks, EntryNode(ks, at.pos, uuids[0], es[0]), EntryNodes(ks, next.pos, uuids[1..], es[1..]), at, next,
               end, [], [], path, [WithGroupPath(NormalForm(es[0]), path)], Placed(es[1..], path));
      Units<Field>([]);
    }
  }

  lemma {:induction false} PlacedUnderRoot(es: seq<Entry>, root: string)
    ensures Placed(es, [root]) == NormalForms(es)
  {
    if es != [] {
      PlacedUnderRoot(es[1..], root);
      assert [root][1..] == [];
    }
  }

  // ----- the file around the entries -----

  lemma WrittenTagsAreMeaningless()
    ensures "UUID" !in MEANINGFUL && "Meta" !in MEANINGFUL && "Root" !in MEANINGFUL && "KeePassFile" !in MEANINGFUL
  {
  }

  lemma ReadGroupName(ks: KeyStream, name: string, at: Spot)
    ensures var n := GroupName(Words(name));
            && WellFormed(n) && Discharge(ks, Duties(n), at) == Success(([], at)) && ValueCount(n) == 0
            && Own(Fill(n, [])) == [] && NameIn(Fill(n, [])) == name
  {
    hide Words, Discharge;
    ReadWords(ks, name, at);
  }

  /** A group of a name and its entries. */
  lemma ReadNamed(ks: KeyStream, name: string, kids: seq<Node>, at: Spot, end: Spot, kept: seq<Entry>)
    requires ReadsAll(ks, kids, at, end, [], [name], kept)
    ensures var ns := [GroupName(Words(name))] + kids;
            var d := Discharge(ks, AllDuties(ns), at);
            && AllWellFormed(ns) && d.Success? && |d.value.0| == ValueCounts(ns) && d.value.1 == end
            && AllOwn(FillAll(ns, d.value.0)) == [] && SelectAll(FillAll(ns, d.value.0), [""]) == kept
  {
    hide Words, Discharge, Fill, Duties, WellFormed, Own, Select, NameIn, ValueCount;
    var n := GroupName(Words(name));
    var ns := [n] + kids;
    assert ns[0] == n && ns[1..] == kids;
    ReadGroupName(ks, name, at);
    DischargeConcat(ks, Duties(n), AllDuties(kids), at);
    var fields := Discharge(ks, AllDuties(kids), at).value.0;
    Units(fields);
    FillCons(ns, [], fields);
    NameSelectsNothing(Words(name), [""]);
    Units(kept);
    assert "" + name == name && Front([""]) == [];
    assert Named([""], name) == [name];
  }

  lemma NameSelectsNothing(text: seq<Event>, path: seq<string>)
    ensures Select(Fill(GroupName(text), []), path) == []
  {
  }

  lemma ReadRootGroup(ks: KeyStream, id: string, name: string, uuids: seq<seq<byte>>, es: seq<Entry>)
    requires |uuids| == |es| && name != RECYCLE_BIN && "UUID" !in MEANINGFUL
    ensures var end := Spot(EntriesCost(es), LastKeyOfAll(es, ""));
            Reads(ks, Group([Leaf("UUID", id)] + ([GroupName(Words(name))] + EntryNodes(ks, 0, uuids, es))), OUTSET,
                  end, [], [],
                  NormalForms(es))
  {
    hide Words, Discharge, EntryNodes, EntriesCost, NormalForms, Placed, LastKeyOfAll, ReadsAll, Reads, Leaf,
         MEANINGFUL, RECYCLE_BIN;
    var kids := EntryNodes(ks, 0, uuids, es);
    var end := Spot(EntriesCost(es), LastKeyOfAll(es, ""));
    ReadEntries(ks, OUTSET, uuids, es, [name]);
    PlacedUnderRoot(es, name);
    ReadNamed(ks, name, kids, OUTSET, end, NormalForms(es));
    ReadLeaf(ks, "UUID", id, OUTSET, [""]);
    ReadGroup(ks, Leaf("UUID", id), [GroupName(Words(name))] + kids, OUTSET, end, NormalForms(es));
  }

  lemma ReadGroup(ks: KeyStream, first: Node, rest: seq<Node>, at: Spot, end: Spot, kept: seq<Entry>)
    requires Reads(ks, first, at, at, [], [""], [])
    requires var d := Discharge(ks, AllDuties(rest), at);
             && AllWellFormed(rest) && d.Success? && |d.value.0| == ValueCounts(rest) && d.value.1 == end
             && AllOwn(FillAll(rest, d.value.0)) == [] && SelectAll(FillAll(rest, d.value.0), [""]) == kept
    ensures Reads(ks, Group([first] + rest), at, end, [], [], kept)
  {
    hide Discharge, Fill, Duties, WellFormed, Own, Select, NameIn;
    var ns := [first] + rest;
    assert ns[0] == first && ns[1..] == rest;
    DischargeConcat(ks, Duties(first), AllDuties(rest), at);
    var f1, f2 := Discharge(ks, Duties(first), at).value.0, Discharge(ks, AllDuties(rest), at).value.0;
    FillCons(ns, f1, f2);
    NamedTwice([""], "", "");
    Units(kept);
    GroupOf(ks, ns, at, end, f1 + f2, kept);
  }

  lemma GroupOf(ks: KeyStream, ns: seq<Node>, at: Spot, end: Spot, fields: seq<Field>, kept: seq<Entry>)
    requires AllWellFormed(ns) && Discharge(ks, AllDuties(ns), at) == Success((fields, end))
             && |fields| == ValueCounts(ns)
    requires AllOwn(FillAll(ns, fields)) == [] && SelectAll(FillAll(ns, fields), [""]) == kept
    ensures Reads(ks, Group(ns), at, end, [], [], kept)
  {
    hide Discharge;
    assert [] + [""] == [""];
  }

  lemma ReadMeta(ks: KeyStream, at: Spot)
    ensures ReadsAll(ks, META, at, at, [], [], [])
  {
    hide ReadsAll, Reads, Leaf;
    var g, d, r, h := META[0], META[1], META[2], META[3];
    ReadLeaf(ks, "Generator", "Vautix", at, []);
    ReadLeaf(ks, "DatabaseName", "Vautix Export", at, []);
    ReadLeaf(ks, "RecycleBinEnabled", "False", at, []);
    ReadLeaf(ks, "HistoryMaxItems", "0", at, []);
    var nof: seq<Field>, noe: seq<Entry> := [], [];
    assert nof + nof == nof && noe + noe == noe;
    ReadOne(ks, h, at, at, [], [], []);
    ReadCons(ks, r, [h], at, at, at, [], [], [], [], []);
    ReadCons(ks, d, [r] + [h], at, at, at, [], [], [], [], []);
    ReadCons(ks, g, [d] + ([r] + [h]), at, at, at, [], [], [], [], []);
    assert META == [g] + ([d] + ([r] + [h]));
  }

  lemma ReadDeclaration(ks: KeyStream, body: string, at: Spot)
    ensures Reads(ks, Noise([Prolog(body)]), at, at, [], [], [])
  {
    assert [Prolog(body)][1..] == [];
    TextDutiesStep([Prolog(body)]);
    EmptyBoxYields([]);
  }

  lemma ReadFile(ks: KeyStream, file: string, meta: string, root: string, body: string, group: Node, end: Spot,
                 kept: seq<Entry>)
    requires file !in MEANINGFUL && meta !in MEANINGFUL && root !in MEANINGFUL
    requires Reads(ks, group, OUTSET, end, [], [], kept)
    ensures ReadsAll(ks, [Noise([Prolog(body)]), Box(file, [Box(meta, META), Box(root, [group])])], OUTSET, end, [],
                     [], kept)
  {
    hide ReadsAll, Reads, META, MEANINGFUL;
    var r, m := Box(root, [group]), Box(meta, META);
    Units<Field>([]);
    Units(kept);
    ReadOne(ks, group, OUTSET, end, [], [], kept);
    ReadBox(ks, root, [group], OUTSET, end, [], [], kept);
    ReadOne(ks, r, OUTSET, end, [], [], kept);
    ReadMeta(ks, OUTSET);
    ReadBox(ks, meta, META, OUTSET, OUTSET, [], [], []);
    ReadCons(ks, m, [r], OUTSET, OUTSET, end, [], [], [], [], kept);
    assert [m] + [r] == [m, r];
    ReadBox(ks, file, [m, r], OUTSET, end, [], [], kept);
    var f, d := Box(file, [m, r]), Noise([Prolog(body)]);
    ReadOne(ks, f, OUTSET, end, [], [], kept);
    ReadDeclaration(ks, body, OUTSET);
    ReadCons(ks, d, [f], OUTSET, OUTSET, end, [], [], [], [], kept);
    assert [d] + [f] == [d, f];
  }

  lemma ReadDocument(ks: KeyStream, uuid: seq<byte>, uuids: seq<seq<byte>>, es: seq<Entry>)
    requires |uuids| == |es|
    ensures ReadsAll(ks, Document(ks, uuid, uuids, es), OUTSET, Spot(EntriesCost(es), LastKeyOfAll(es, "")), [], [],
                     NormalForms(es))
  {
    hide ReadsAll, Reads, META, MEANINGFUL, Leaf, Words, EntryNodes, Base64.Encode, EntriesCost, LastKeyOfAll,
         NormalForms;
    WrittenTagsAreMeaningless();
    assert |"Vautix"| == 6 && |RECYCLE_BIN| == 11;
    ReadRootGroup(ks, Base64.Encode(uuid), "Vautix", uuids, es);
    ReadFile(ks, "KeePassFile", "Meta", "Root", DECLARATION, RootGroup(ks, uuid, uuids, es),
             Spot(EntriesCost(es), LastKeyOfAll(es, "")), NormalForms(es));
  }

  /** Every list of entries, with whatever characters and empty values, is read back in normal form,
      and reader and writer have spent the same key stream. */
  lemma ExportReadsBack(ks: KeyStream, uuid: seq<byte>, uuids: seq<seq<byte>>, es: seq<Entry>)
    requires |uuids| == |es|
    ensures AllWellFormed(Document(ks, uuid, uuids, es))
    ensures Walk(ks, FlattenAll(Document(ks, uuid, uuids, es))) == Success(NormalForms(es))
    ensures Feed(ks, INITIAL, FlattenAll(Document(ks, uuid, uuids, es))).Success?
    ensures Feed(ks, INITIAL, FlattenAll(Document(ks, uuid, uuids, es))).value.pos == EntriesCost(es)
  {
    hide Feed, Discharge, Document, EntriesCost, NormalForms, AllOwn, NamesIn, ValueCounts, AllDuties,
         FlattenAll, LastKeyOfAll;
    ReadDocument(ks, uuid, uuids, es);
    OnePassIsTwoPhase(ks, Document(ks, uuid, uuids, es));
    WalkForest(ks, INITIAL, Document(ks, uuid, uuids, es));
  }
}
