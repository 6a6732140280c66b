/** The one-pass walker computes the two-phase meaning of every document. */
module KdbxOnePass {
  import opened Wrappers
  import opened KdbxTypes
  import opened Xml
  import opened KdbxWalker
  import opened KdbxTree

  function PushAll(frames: seq<Entry>, fields: seq<Field>): seq<Entry> {
    if frames == [] then [] else Front(frames) + [Last(frames) + fields]
  }

  predicate Hidden(st: Walker) {
    st.frames != [] || st.history > 0
  }

  function SpotOf(st: Walker): Spot {
    Spot(st.pos, st.key)
  }

  /** What a part of a document makes of the walk around it: the fields and the name it contributes, the
      entries it yields, and where phase one stands after it. */
  datatype Yield = Yield(own: seq<Field>, name: string, kept: seq<Entry>, end: Spot)

  /** `after` is `before` with the fields added to the open entry, the name to the open group when no entry
      is open, and the entries to the result unless hidden; all stacks are back at their starting heights. */
  ghost predicate Returned(before: Walker, after: Walker, y: Yield) {
    && after.mode == Idle
    && SpotOf(after) == y.end
    && after.history == before.history
    && after.groups == (if before.frames == [] then Named(before.groups, y.name) else before.groups)
    && after.frames == PushAll(before.frames, y.own)
    && after.entries == before.entries + (if Hidden(before) then [] else y.kept)
  }

  lemma AppendNothing<T>(ss: seq<seq<T>>)
    requires ss != []
    ensures Front(ss) + [Last(ss) + []] == ss
  {
    assert Last(ss) + [] == Last(ss);
  }

  lemma NamedTwice(path: seq<string>, a: string, b: string)
    ensures Named(Named(path, a), b) == Named(path, a + b)
    ensures Named(path, "") == path
  {
    if path != [] {
      AppendNothing(path);
      assert Last(path) + a + b == Last(path) + (a + b);
      assert Front(Named(path, a)) == Front(path);
    }
  }

  lemma ReturnedTwice(a: Walker, b: Walker, c: Walker, y: Yield, z: Yield, kept: seq<Entry>)
    requires Returned(a, b, y) && Returned(b, c, z)
    requires a.frames == [] ==> kept == y.kept + z.kept
    ensures Returned(a, c, Yield(y.own + z.own, y.name + z.name, kept, z.end))
  {
    NamedTwice(a.groups, y.name, z.name);
    assert Hidden(a) <==> Hidden(b);
    if a.frames != [] {
      assert Last(a.frames) + y.own + z.own == Last(a.frames) + (y.own + z.own);
      assert Front(b.frames) == Front(a.frames);
    }
  }

  // ----- pieces of a run -----

  lemma FeedOne(ks: KeyStream, st: Walker, e: Event)
    ensures Feed(ks, st, [e]) == Step(ks, st, e)
  {
    hide Step;
    assert [e][1..] == [];
    if Step(ks, st, e).Success? {
      FeedNothing(ks, Step(ks, st, e).value);
    }
  }

  function Finish(ks: KeyStream, r: Res<Walker>, tag: string): Res<Walker> {
    match r
    case Failure(e) => Failure(e)
    case Success(st) => EndElement(ks, st, tag)
  }

  lemma FeedWrap(ks: KeyStream, st: Walker, tag: string, p: bool, inner: seq<Event>)
    ensures Feed(ks, st, Wrap(tag, p, inner)) == Finish(ks, Feed(ks, StartElement(st, tag, p), inner), tag)
  {
    hide StartElement, EndElement, Feed;
    FeedConcat(ks, st, [Start(tag, p)] + inner, [End(tag)]);
    FeedConcat(ks, st, [Start(tag, p)], inner);
    FeedOne(ks, st, Start(tag, p));
    var r := Feed(ks, StartElement(st, tag, p), inner);
    if r.Success? {
      FeedOne(ks, r.value, End(tag));
    }
  }

  lemma AddTextTwice(st: Walker, a: string, b: string)
    ensures AddText(AddText(st, a), b) == AddText(st, a + b)
    ensures AddText(st, "") == st
  {
    assert st.key + "" == st.key && st.val + "" == st.val;
    if st.mode == InGroupName && st.groups != [] {
      AppendNothing(st.groups);
      assert Last(st.groups) + a + b == Last(st.groups) + (a + b);
      assert Front(AddText(st, a).groups) == Front(st.groups);
    }
    assert st.key + a + b == st.key + (a + b);
    assert st.val + a + b == st.val + (a + b);
  }

  /** Two stretches of phase one in a row. */
  function Onward(ks: KeyStream, r: Res<(seq<Field>, Spot)>, duties: seq<Duty>): Res<(seq<Field>, Spot)> {
    var (fields, mid) :- r;
    var (more, end) :- Discharge(ks, duties, mid);
    Success((fields + more, end))
  }

  lemma {:induction false} DischargeConcat(ks: KeyStream, a: seq<Duty>, b: seq<Duty>, at: Spot)
    ensures Discharge(ks, a + b, at) == Onward(ks, Discharge(ks, a, at), b)
    decreases |a|
  {
    hide Reveal, Resolve;
    if a == [] {
      assert a + b == b;
      var d := Discharge(ks, b, at);
      if d.Success? {
        assert [] + d.value.0 == d.value.0;
      }
    } else {
      assert (a + b)[1..] == a[1..] + b;
      match a[0]
      case Mention(_) => DischargeConcat(ks, a[1..], b, at);
      case KeyIs(key) => DischargeConcat(ks, a[1..], b, at.(key := key));
      case ValueIs(text, guarded) =>
        var u := Reveal(ks, at.pos, text, guarded);
        if u.Success? {
          var next := at.(pos := at.pos + u.value.1);
          DischargeConcat(ks, a[1..], b, next);
          DischargeValueFirst(ks, a, b, at, Field(at.key, u.value.0, guarded), next);
        }
    }
  }

  lemma DischargeValueFirst(ks: KeyStream, a: seq<Duty>, b: seq<Duty>, at: Spot, f: Field, next: Spot)
    requires a != [] && a[0].ValueIs? && f == Field(at.key, f.value, a[0].guarded)
    requires Reveal(ks, at.pos, a[0].text, a[0].guarded).Success?
    requires f.value == Reveal(ks, at.pos, a[0].text, a[0].guarded).value.0
    requires next == at.(pos := at.pos + Reveal(ks, at.pos, a[0].text, a[0].guarded).value.1)
    requires Discharge(ks, (a + b)[1..], next) == Onward(ks, Discharge(ks, a[1..], next), b)
    ensures Discharge(ks, a + b, at) == Onward(ks, Discharge(ks, a, at), b)
  {
    hide Reveal;
    var d := Discharge(ks, a[1..], next);
    if d.Success? {
      var e := Discharge(ks, b, d.value.1);
      if e.Success? {
        assert [f] + (d.value.0 + e.value.0) == [f] + d.value.0 + e.value.0;
      }
    }
  }

  /** Events without a meaning of their own: a dangling reference stops the walk, the rest is appended to
      what is open. */
  lemma {:induction false} WalkText(ks: KeyStream, st: Walker, es: seq<Event>)
    requires AllSilent(es)
    ensures match Discharge(ks, TextDuties(es), SpotOf(st))
            case Failure(e) => Feed(ks, st, es) == Failure(e)
            case Success((fields, end)) =>
              fields == [] && end == SpotOf(st) && Feed(ks, st, es) == Success(AddText(st, Spelled(es)))
    decreases |es|
  {
    hide Resolve, AddText, StartElement, EndElement;
    if es == [] {
      AddTextTwice(st, "", "");
    } else {
      assert Silent(es[0]);
      TextDutiesStep(es);
      SilentStep(ks, st, es[0]);
      var text := if es[0].Content? && RunText(es[0].run).Some? then RunText(es[0].run).value else "";
      AddTextTwice(st, text, Spelled(es[1..]));
      if Step(ks, st, es[0]).Success? {
        WalkText(ks, AddText(st, text), es[1..]);
        DischargeText(ks, es[1..], SpotOf(AddText(st, text)), SpotOf(st));
      }
    }
  }

  lemma SilentStep(ks: KeyStream, st: Walker, e: Event)
    requires Silent(e)
    ensures Step(ks, st, e) == if e.Content? && RunText(e.run).None? then Failure(Corrupt("xml entity"))
                               else Success(AddText(st, if e.Content? then RunText(e.run).value else ""))
  {
    hide AddText, Resolve;
    AddTextTwice(st, "", "");
  }

  /** Phase one passes over text without leaving a trace. */
  lemma {:induction false} DischargeText(ks: KeyStream, es: seq<Event>, at: Spot, other: Spot)
    ensures match Discharge(ks, TextDuties(es), at)
            case Failure(e) => Discharge(ks, TextDuties(es), other) == Failure(e)
            case Success((fields, end)) =>
              fields == [] && end == at && Discharge(ks, TextDuties(es), other) == Success(([], other))
  {
    hide Resolve;
    if es != [] {
      TextDutiesStep(es);
      DischargeText(ks, es[1..], at, other);
    }
  }

  // ----- nodes -----

  /** The walk over a node is what the two phases say about it. */
  ghost predicate Agrees(ks: KeyStream, st: Walker, n: Node) {
    var r := Feed(ks, st, Flatten(n));
    match Discharge(ks, Duties(n), SpotOf(st))
    case Failure(e) => r == Failure(e)
    case Success((fields, end)) =>
      && |fields| == ValueCount(n)
      && r.Success?
      && var c := Fill(n, fields);
         Returned(st, r.value, Yield(Own(c), NameIn(c), Select(c, st.groups), end))
  }

  ghost predicate AgreesAll(ks: KeyStream, st: Walker, ns: seq<Node>) {
    var r := Feed(ks, st, FlattenAll(ns));
    match Discharge(ks, AllDuties(ns), SpotOf(st))
    case Failure(e) => r == Failure(e)
    case Success((fields, end)) =>
      && |fields| == ValueCounts(ns)
      && r.Success?
      && var cs := FillAll(ns, fields);
         Returned(st, r.value, Yield(AllOwn(cs), NamesIn(cs), SelectAll(cs, st.groups), end))
  }

  lemma {:induction false} WalkNode(ks: KeyStream, st: Walker, n: Node)
    requires WellFormed(n) && st.mode == Idle
    ensures Agrees(ks, st, n)
    decreases n, 1
  {
    match n
    case Group(kids) => WalkForest(ks, StartElement(st, "Group", false), kids); WalkGroup(ks, st, kids);
    case Record(kids) => WalkForest(ks, StartElement(st, "Entry", false), kids); WalkRecord(ks, st, kids);
    case History(kids) => WalkForest(ks, StartElement(st, "History", false), kids); WalkHistory(ks, st, kids);
    case KeyText(text) => WalkKey(ks, st, text);
    case ValueText(text, guarded) => WalkValue(ks, st, text, guarded);
    case Tags(text) => WalkTags(ks, st, text);
    case GroupName(text) => WalkName(ks, st, text);
    case Box(tag, kids) => WalkForest(ks, st, kids); WalkBox(ks, st, tag, kids);
    case Noise(text) => WalkNoise(ks, st, text);
  }

  lemma {:induction false} WalkForest(ks: KeyStream, st: Walker, ns: seq<Node>)
    requires AllWellFormed(ns) && st.mode == Idle
    ensures AgreesAll(ks, st, ns)
    decreases ns, 0
  {
    if ns == [] {
      UnchangedReturns(st);
    } else {
      WalkNode(ks, st, ns[0]);
      var r := Feed(ks, st, Flatten(ns[0]));
      if r.Success? && Discharge(ks, Duties(ns[0]), SpotOf(st)).Success? {
        WalkForest(ks, r.value, ns[1..]);
      }
      WalkCons(ks, st, ns);
    }
  }

  lemma UnchangedReturns(st: Walker)
    requires st.mode == Idle
    ensures Returned(st, st, Yield([], "", [], SpotOf(st)))
  {
    NamedTwice(st.groups, "", "");
    if st.frames != [] {
      AppendNothing(st.frames);
    }
  }

  lemma WalkCons(ks: KeyStream, st: Walker, ns: seq<Node>)
    requires ns != [] && st.mode == Idle
    requires Agrees(ks, st, ns[0])
    requires var r := Feed(ks, st, Flatten(ns[0]));
             r.Success? && Discharge(ks, Duties(ns[0]), SpotOf(st)).Success? ==> AgreesAll(ks, r.value, ns[1..])
    ensures AgreesAll(ks, st, ns)
  {
    hide Feed, Discharge, Returned, Select, Own, NameIn;
    FeedConcat(ks, st, Flatten(ns[0]), FlattenAll(ns[1..]));
    DischargeConcat(ks, Duties(ns[0]), AllDuties(ns[1..]), SpotOf(st));
    var r := Feed(ks, st, Flatten(ns[0]));
    var d := Discharge(ks, Duties(ns[0]), SpotOf(st));
    if d.Success? {
      var (fields1, mid) := d.value;
      var c := Fill(ns[0], fields1);
      var y := Yield(Own(c), NameIn(c), Select(c, st.groups), mid);
      ReturnedKeeps(st, r.value, y);
      var d2 := Discharge(ks, AllDuties(ns[1..]), mid);
      if d2.Success? {
        var (fields2, end) := d2.value;
        var cs := FillAll(ns[1..], fields2);
        FillCons(ns, fields1, fields2);
        var z := Yield(AllOwn(cs), NamesIn(cs), SelectAll(cs, r.value.groups), end);
        ReturnedTwice(st, r.value, Feed(ks, r.value, FlattenAll(ns[1..])).value, y, z,
                      Select(c, st.groups) + SelectAll(cs, Named(st.groups, NameIn(c))));
      }
    }
  }

  lemma FillCons(ns: seq<Node>, fields1: seq<Field>, fields2: seq<Field>)
    requires ns != [] && |fields1| == ValueCount(ns[0]) && |fields2| == ValueCounts(ns[1..])
    ensures FillAll(ns, fields1 + fields2) == [Fill(ns[0], fields1)] + FillAll(ns[1..], fields2)
    ensures FillAll(ns, fields1 + fields2)[1..] == FillAll(ns[1..], fields2)
  {
    var fields := fields1 + fields2;
    assert fields[..|fields1|] == fields1 && fields[|fields1|..] == fields2;
  }

  lemma ReturnedKeeps(a: Walker, b: Walker, y: Yield)
    requires Returned(a, b, y)
    ensures b.mode == Idle && SpotOf(b) == y.end
    ensures b.groups == if a.frames == [] then Named(a.groups, y.name) else a.groups
  {
  }

  // ----- elements around others -----

  lemma WalkRecord(ks: KeyStream, st: Walker, kids: seq<Node>)
    requires st.mode == Idle
    requires AgreesAll(ks, StartElement(st, "Entry", false), kids)
    ensures Agrees(ks, st, Record(kids))
  {
    hide Feed, Discharge, WithGroupPath, Reveal, Returned, EndElement, SelectAll;
    var inner := StartElement(st, "Entry", false);
    FeedWrap(ks, st, "Entry", false, FlattenAll(kids));
    var d := Discharge(ks, AllDuties(kids), SpotOf(st));
    if d.Success? {
      var cs := FillAll(kids, d.value.0);
      EntryReturns(ks, st, Feed(ks, inner, FlattenAll(kids)).value, cs, SelectAll(cs, inner.groups), d.value.1);
    }
  }

  lemma EntryEnds(ks: KeyStream, st: Walker)
    requires st.frames != []
    ensures EndElement(ks, st, "Entry")
         == var below := Front(st.frames);
            var kept := if st.history == 0 && below == [] && RECYCLE_BIN !in st.groups
                        then [WithGroupPath(Last(st.frames), st.groups)] else [];
            Success(st.(frames := below, entries := st.entries + kept))
  {
    hide WithGroupPath, Reveal;
    assert st.entries + [] == st.entries;
  }

  lemma EntryReturns(ks: KeyStream, st: Walker, after: Walker, cs: seq<Clear>, kept: seq<Entry>, end: Spot)
    requires st.mode == Idle
    requires Returned(st.(frames := st.frames + [[]]), after, Yield(AllOwn(cs), NamesIn(cs), kept, end))
    ensures var r := EndElement(ks, after, "Entry");
            r.Success? && Returned(st, r.value, Yield([], "", Select(ClearRecord(cs), st.groups), end))
  {
    hide WithGroupPath, EndElement, AllOwn, NamesIn, Named;
    EntryEnds(ks, after);
    var inner := st.frames + [[]];
    NamedTwice(st.groups, "", "");
    assert Front(inner) == st.frames && Last(inner) == [] && [] + AllOwn(cs) == AllOwn(cs);
    assert after.frames == st.frames + [AllOwn(cs)];
    assert Front(after.frames) == st.frames && Last(after.frames) == AllOwn(cs);
    if st.frames != [] {
      AppendNothing(st.frames);
    }
  }

  lemma WalkGroup(ks: KeyStream, st: Walker, kids: seq<Node>)
    requires st.mode == Idle
    requires AgreesAll(ks, StartElement(st, "Group", false), kids)
    ensures Agrees(ks, st, Group(kids))
  {
    hide Feed, Discharge, Reveal;
    FeedWrap(ks, st, "Group", false, FlattenAll(kids));
    NamedTwice(st.groups, "", "");
    var d := Discharge(ks, AllDuties(kids), SpotOf(st));
    if d.Success? {
      var after := Feed(ks, StartElement(st, "Group", false), FlattenAll(kids)).value;
      assert Front(st.groups + [""]) == st.groups;
      assert after.groups != [] && Front(after.groups) == st.groups;
    }
  }

  lemma WalkHistory(ks: KeyStream, st: Walker, kids: seq<Node>)
    requires st.mode == Idle
    requires AgreesAll(ks, StartElement(st, "History", false), kids)
    ensures Agrees(ks, st, History(kids))
  {
    hide Feed, Discharge;
    FeedWrap(ks, st, "History", false, FlattenAll(kids));
  }

  lemma WalkBox(ks: KeyStream, st: Walker, tag: string, kids: seq<Node>)
    requires st.mode == Idle && tag !in MEANINGFUL
    requires AgreesAll(ks, st, kids)
    ensures Agrees(ks, st, Box(tag, kids))
  {
    hide Feed, Discharge;
    FeedWrap(ks, st, tag, false, FlattenAll(kids));
    assert StartElement(st, tag, false) == st;
    forall s ensures EndElement(ks, s, tag) == Success(s) {
    }
  }

  // ----- elements around text -----

  lemma WalkNoise(ks: KeyStream, st: Walker, text: seq<Event>)
    requires st.mode == Idle && AllSilent(text)
    ensures Agrees(ks, st, Noise(text))
  {
    hide Feed, Discharge;
    WalkText(ks, st, text);
    EmptyBoxYields(st.groups);
    UnchangedReturns(st);
  }

  lemma EmptyBoxYields(path: seq<string>)
    ensures Own(ClearBox([])) == [] && NameIn(ClearBox([])) == "" && Select(ClearBox([]), path) == []
  {
  }

  lemma WalkKey(ks: KeyStream, st: Walker, text: seq<Event>)
    requires st.mode == Idle && AllSilent(text)
    ensures Agrees(ks, st, KeyText(text))
  {
    hide Feed, Discharge, Returned, EndElement, AddText, Spelled;
    var inKey := StartElement(st, "Key", false);
    FeedWrap(ks, st, "Key", false, text);
    WalkText(ks, inKey, text);
    DischargeText(ks, text, SpotOf(inKey), SpotOf(st));
    DischargeConcat(ks, TextDuties(text), [KeyIs(Spelled(text))], SpotOf(st));
    DischargeKey(ks, Spelled(text), SpotOf(st));
    EmptyBoxYields(st.groups);
    KeyReturns(ks, st, Spelled(text));
  }

  lemma KeyReturns(ks: KeyStream, st: Walker, key: string)
    requires st.mode == Idle
    ensures var r := EndElement(ks, AddText(StartElement(st, "Key", false), key), "Key");
            r.Success? && Returned(st, r.value, Yield([], "", [], SpotOf(st).(key := key)))
  {
    assert "" + key == key;
    UnchangedReturns(st.(key := key));
  }

  lemma DischargeKey(ks: KeyStream, key: string, at: Spot)
    ensures Discharge(ks, [KeyIs(key)], at) == Success(([], at.(key := key)))
  {
    assert [KeyIs(key)][1..] == [];
  }

  lemma DischargeValue(ks: KeyStream, text: string, guarded: bool, at: Spot)
    ensures Discharge(ks, [ValueIs(text, guarded)], at)
         == match Reveal(ks, at.pos, text, guarded)
            case Failure(e) => Failure(e)
            case Success((plain, spent)) => Success(([Field(at.key, plain, guarded)], at.(pos := at.pos + spent)))
  {
    hide Reveal;
    var rest := [ValueIs(text, guarded)][1..];
    assert rest == [];
    var u := Reveal(ks, at.pos, text, guarded);
    if u.Success? {
      var next := at.(pos := at.pos + u.value.1);
      assert Discharge(ks, rest, next) == Success(([], next));
      assert [Field(at.key, u.value.0, guarded)] + [] == [Field(at.key, u.value.0, guarded)];
    }
  }

  lemma WalkValue(ks: KeyStream, st: Walker, text: seq<Event>, guarded: bool)
    requires st.mode == Idle && AllSilent(text)
    ensures Agrees(ks, st, ValueText(text, guarded))
  {
    hide Feed, Discharge, Reveal, Returned, EndElement, AddText, Spelled;
    FeedWrap(ks, st, "Value", guarded, text);
    WalkText(ks, StartElement(st, "Value", guarded), text);
    DischargeConcat(ks, TextDuties(text), [ValueIs(Spelled(text), guarded)], SpotOf(st));
    DischargeValue(ks, Spelled(text), guarded, SpotOf(st));
    var u := Reveal(ks, st.pos, Spelled(text), guarded);
    ValueReturns(ks, st, Spelled(text), guarded);
    if u.Success? {
      assert [] + [Field(st.key, u.value.0, guarded)] == [Field(st.key, u.value.0, guarded)];
    }
  }

  lemma ValueReturns(ks: KeyStream, st: Walker, text: string, guarded: bool)
    requires st.mode == Idle
    ensures var r := EndElement(ks, AddText(StartElement(st, "Value", guarded), text), "Value");
            match Reveal(ks, st.pos, text, guarded)
            case Failure(e) => r == Failure(e)
            case Success((plain, spent)) =>
              && r.Success?
              && Returned(st, r.value, Yield([Field(st.key, plain, guarded)], "", [],
                                             SpotOf(st).(pos := st.pos + spent)))
  {
    hide Reveal;
    assert "" + text == text;
    NamedTwice(st.groups, "", "");
  }

  lemma WalkTags(ks: KeyStream, st: Walker, text: seq<Event>)
    requires st.mode == Idle && AllSilent(text)
    ensures Agrees(ks, st, Tags(text))
  {
    hide Feed, Discharge, Returned, EndElement, AddText, Spelled;
    FeedWrap(ks, st, "Tags", false, text);
    WalkText(ks, StartElement(st, "Tags", false), text);
    TagsReturn(ks, st, Spelled(text));
  }

  lemma TagsReturn(ks: KeyStream, st: Walker, text: string)
    requires st.mode == Idle
    ensures var r := EndElement(ks, AddText(StartElement(st, "Tags", false), text), "Tags");
            r.Success? && Returned(st, r.value, Yield(Own(ClearTags(text)), "", [], SpotOf(st)))
  {
    hide Reveal;
    assert "" + text == text;
    UnchangedReturns(st);
  }

  /** A name is added to the innermost group's, unless an entry is open. */
  lemma WalkName(ks: KeyStream, st: Walker, text: seq<Event>)
    requires st.mode == Idle && AllSilent(text)
    ensures Agrees(ks, st, GroupName(text))
  {
    hide Feed, Discharge, Returned, EndElement, AddText, Spelled;
    FeedWrap(ks, st, "Name", false, text);
    WalkText(ks, StartElement(st, "Name", false), text);
    NameReturns(ks, st, Spelled(text));
  }

  lemma NameReturns(ks: KeyStream, st: Walker, text: string)
    requires st.mode == Idle
    ensures var r := EndElement(ks, AddText(StartElement(st, "Name", false), text), "Name");
            r.Success? && Returned(st, r.value, Yield([], text, [], SpotOf(st)))
  {
    hide Reveal;
    UnchangedReturns(st);
  }

  // ----- the result -----

  /** For every document the one-pass walker returns what making fields of all values first and choosing
      afterwards returns, including which error is reported. */
  lemma OnePassIsTwoPhase(ks: KeyStream, doc: seq<Node>)
    requires AllWellFormed(doc)
    ensures Walk(ks, FlattenAll(doc)) == Meaning(ks, doc)
  {
    hide Feed, Discharge;
    WalkForest(ks, INITIAL, doc);
    var d := Discharge(ks, AllDuties(doc), OUTSET);
    if d.Success? {
      var kept := SelectAll(FillAll(doc, d.value.0), []);
      assert [] + kept == kept;
    }
  }
}
