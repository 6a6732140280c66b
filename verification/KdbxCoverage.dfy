/** Which event lists the two-phase meaning covers: every properly nested one in which keys, values, tags
    and names hold no element with a meaning of its own. */
module KdbxCoverage {
  import opened Wrappers
  import opened KdbxTypes
  import opened Xml
  import opened KdbxWalker
  import opened KdbxTree
  import opened KdbxOnePass

  predicate HoldsText(tag: string) {
    tag == "Key" || tag == "Value" || tag == "Tags" || tag == "Name"
  }

  predicate InText(open: seq<string>) {
    exists t | t in open :: HoldsText(t)
  }

  /** An element may start: inside text only elements without a meaning occur. */
  predicate MayOpen(tag: string, open: seq<string>) {
    InText(open) ==> tag !in MEANINGFUL
  }

  /** The rest of a document in which the elements `open` are still open. */
  predicate Regular(es: seq<Event>, open: seq<string>)
    decreases |es|
  {
    if es == [] then open == []
    else if es[0].Start? then
      MayOpen(es[0].name, open) && Regular(es[1..], open + [es[0].name])
    else if es[0].End? then open != [] && Last(open) == es[0].name && Regular(es[1..], Front(open))
    else !es[0].Fault? && Regular(es[1..], open)
  }

  predicate Meaningless(tags: seq<string>) {
    forall t | t in tags :: t !in MEANINGFUL
  }

  lemma StackLast(tag: string, inner: seq<string>)
    requires inner != []
    ensures Last([tag] + inner) == Last(inner) && Front([tag] + inner) == [tag] + Front(inner)
  {
  }

  lemma StackPush(tag: string, inner: seq<string>, n: string)
    ensures [tag] + inner + [n] == [tag] + (inner + [n])
    ensures Meaningless(inner) && n !in MEANINGFUL ==> Meaningless(inner + [n])
    ensures InText([tag] + inner) <==> HoldsText(tag) || InText(inner)
  {
    assert tag in [tag] + inner;
    assert forall t | t in inner :: t in [tag] + inner;
  }

  lemma ConsRegular(e: Event, es: seq<Event>, open: seq<string>)
    requires e.Content? || e.Prolog?
    ensures Regular([e] + es, open) == Regular(es, open)
  {
    assert ([e] + es)[1..] == es;
  }

  lemma ConsRegularStart(n: string, p: bool, es: seq<Event>, open: seq<string>)
    ensures Regular([Start(n, p)] + es, open) == (MayOpen(n, open) && Regular(es, open + [n]))
  {
    assert ([Start(n, p)] + es)[1..] == es;
  }

  lemma ConsRegularEnd(n: string, es: seq<Event>, open: seq<string>)
    ensures Regular([End(n)] + es, open) == (open != [] && Last(open) == n && Regular(es, Front(open)))
  {
    assert ([End(n)] + es)[1..] == es;
  }

  /** The end tag of the outermost open element, what it closes, and what follows it. */
  lemma {:induction false} ClosingTag(es: seq<Event>, tag: string, inner: seq<string>) returns (k: nat)
    requires Regular(es, [tag] + inner)
    ensures k < |es| && es[k] == End(tag) && Regular(es[k + 1..], [])
    ensures !HoldsText(tag) ==> Regular(es[..k], inner)
    ensures HoldsText(tag) && Meaningless(inner) ==> AllSilent(es[..k])
    decreases |es|
  {
    hide Regular, HoldsText, InText;
    RegularUnfolds(es, [tag] + inner);
    match es[0]
    case Start(n, p) =>
      StackPush(tag, inner, n);
      k := ClosingTag(es[1..], tag, inner + [n]);
      k := k + 1;
      assert es[..k] == [es[0]] + es[1..][..k - 1];
      ConsRegularStart(n, p, es[1..][..k - 1], inner);
    case End(n) =>
      if inner == [] {
        k := 0;
        assert Front([tag] + inner) == [];
        RegularEnd();
      } else {
        StackLast(tag, inner);
        k := ClosingTag(es[1..], tag, Front(inner));
        k := k + 1;
        assert es[..k] == [es[0]] + es[1..][..k - 1];
        ConsRegularEnd(n, es[1..][..k - 1], inner);
      }
    case Fault(_) =>
    case _ =>
      k := ClosingTag(es[1..], tag, inner);
      k := k + 1;
      assert es[..k] == [es[0]] + es[1..][..k - 1];
      ConsRegular(es[0], es[1..][..k - 1], inner);
  }

  lemma RegularEnd()
    ensures Regular([], [])
  {
  }

  predicate RegularStep(e: Event, rest: seq<Event>, open: seq<string>) {
    && (e.Start? ==> MayOpen(e.name, open) && Regular(rest, open + [e.name]))
    && (e.End? ==> open != [] && Last(open) == e.name && Regular(rest, Front(open)))
    && (e.Content? || e.Prolog? ==> Regular(rest, open))
  }

  lemma RegularUnfolds(es: seq<Event>, open: seq<string>)
    requires Regular(es, open)
    ensures es == [] ==> open == []
    ensures es != [] ==> !es[0].Fault? && RegularStep(es[0], es[1..], open)
  {
  }

  /** The node of one element. */
  function Element(tag: string, p: bool, text: seq<Event>, kids: seq<Node>): Node {
    if tag == "Group" then Group(kids)
    else if tag == "Entry" then Record(kids)
    else if tag == "History" then History(kids)
    else if tag == "Key" then KeyText(text)
    else if tag == "Value" then ValueText(text, p)
    else if tag == "Tags" then Tags(text)
    else if tag == "Name" then GroupName(text)
    else Box(tag, kids)
  }

  lemma ElementFlattens(tag: string, p: bool, text: seq<Event>, kids: seq<Node>)
    requires p ==> tag == "Value"
    requires if HoldsText(tag) then AllSilent(text) else AllWellFormed(kids) && FlattenAll(kids) == text
    ensures WellFormed(Element(tag, p, text, kids)) && Flatten(Element(tag, p, text, kids)) == Wrap(tag, p, text)
  {
  }

  lemma ConsFlattens(n: Node, ns: seq<Node>)
    requires WellFormed(n) && AllWellFormed(ns)
    ensures AllWellFormed([n] + ns) && FlattenAll([n] + ns) == Flatten(n) + FlattenAll(ns)
  {
    assert ([n] + ns)[1..] == ns;
  }

  /** Whether any other element is marked as protected makes no difference. */
  predicate OnlyValuesMarked(es: seq<Event>) {
    forall i | 0 <= i < |es| :: es[i].Start? && es[i].protectedTrue ==> es[i].name == "Value"
  }

  function Unmarked(e: Event): Event {
    if e.Start? && e.name != "Value" then Start(e.name, false) else e
  }

  function AllUnmarked(es: seq<Event>): (r: seq<Event>)
    ensures OnlyValuesMarked(r)
  {
    if es == [] then [] else [Unmarked(es[0])] + AllUnmarked(es[1..])
  }

  lemma StepUnmarked(ks: KeyStream, st: Walker, e: Event)
    ensures Step(ks, st, Unmarked(e)) == Step(ks, st, e)
  {
  }

  lemma {:induction false} FeedUnmarked(ks: KeyStream, st: Walker, es: seq<Event>)
    ensures Feed(ks, st, AllUnmarked(es)) == Feed(ks, st, es)
    decreases |es|
  {
    hide Step, Unmarked;
    if es != [] {
      StepUnmarked(ks, st, es[0]);
      assert AllUnmarked(es)[1..] == AllUnmarked(es[1..]);
      if Step(ks, st, es[0]).Success? {
        FeedUnmarked(ks, Step(ks, st, es[0]).value, es[1..]);
      }
    }
  }

  lemma {:induction false} UnmarkedIsRegular(es: seq<Event>, open: seq<string>)
    requires Regular(es, open)
    ensures Regular(AllUnmarked(es), open)
    decreases |es|
  {
    hide InText;
    if es != [] {
      assert AllUnmarked(es)[1..] == AllUnmarked(es[1..]);
      var inside := if es[0].Start? then open + [es[0].name] else if es[0].End? then Front(open) else open;
      UnmarkedIsRegular(es[1..], inside);
    }
  }

  /** Take an element apart from what follows it. */
  lemma Outermost(es: seq<Event>, n: string, p: bool, k: nat)
    requires es != [] && es[0] == Start(n, p) && k < |es[1..]| && es[1..][k] == End(n)
    ensures es == Wrap(n, p, es[1..][..k]) + es[1..][k + 1..]
  {
  }

  lemma {:induction false} TreeOf(es: seq<Event>) returns (doc: seq<Node>)
    requires Regular(es, []) && OnlyValuesMarked(es)
    ensures AllWellFormed(doc) && FlattenAll(doc) == es
    decreases |es|
  {
    hide Regular, Flatten, WellFormed, HoldsText, InText, Wrap, AllSilent, Element;
    RegularUnfolds(es, []);
    if es == [] {
      return [];
    }
    match es[0]
    case Start(n, p) =>
      assert [] + [n] == [n] + [];
      var k := ClosingTag(es[1..], n, []);
      var text, rest := es[1..][..k], es[1..][k + 1..];
      var kids: seq<Node> := [];
      if !HoldsText(n) {
        kids := TreeOf(text);
      }
      ElementFlattens(n, p, text, kids);
      var more := TreeOf(rest);
      doc := [Element(n, p, text, kids)] + more;
      ConsFlattens(Element(n, p, text, kids), more);
      Outermost(es, n, p, k);
    case End(_) =>
    case Fault(_) =>
    case _ =>
      var more := TreeOf(es[1..]);
      NoiseIsWellFormed(es[0]);
      doc := [Noise([es[0]])] + more;
      ConsFlattens(Noise([es[0]]), more);
      assert es == [es[0]] + es[1..];
  }

  lemma NoiseIsWellFormed(e: Event)
    requires Silent(e)
    ensures WellFormed(Noise([e])) && Flatten(Noise([e])) == [e]
  {
  }

  /** Every such document has a tree, and the one-pass walker computes its two-phase meaning: there is no
      restriction on where keys, values and names stand, on what stands between them, or on what else is
      marked as protected. */
  lemma EveryDocumentHasItsMeaning(ks: KeyStream, es: seq<Event>) returns (doc: seq<Node>)
    requires Regular(es, [])
    ensures AllWellFormed(doc) && FlattenAll(doc) == AllUnmarked(es) && Walk(ks, es) == Meaning(ks, doc)
  {
    UnmarkedIsRegular(es, []);
    doc := TreeOf(AllUnmarked(es));
    OnePassIsTwoPhase(ks, doc);
    FeedUnmarked(ks, INITIAL, es);
  }

  /** An end without a beginning does nothing. */
  lemma StrayEnds(ks: KeyStream, st: Walker)
    ensures st.history == 0 ==> EndElement(ks, st, "History") == Success(st)
    ensures st.groups == [] ==> EndElement(ks, st, "Group") == Success(st)
    ensures st.frames == [] ==> EndElement(ks, st, "Entry") == Success(st)
    ensures st.mode != InTags ==> EndElement(ks, st, "Tags") == Success(st)
  {
  }

  /** A document the tokenizer gives up on is never read in part: the walk fails, with the tokenizer's error
      unless an element before it already failed. */
  lemma CutOffByFault(ks: KeyStream, before: seq<Event>, error: KdbxError, after: seq<Event>)
    ensures Walk(ks, before + [Fault(error)] + after)
         == Failure(if Walk(ks, before).Failure? then Walk(ks, before).error else error)
  {
    hide Feed;
    var rest := [Fault(error)] + after;
    assert before + [Fault(error)] + after == before + rest;
    FeedConcat(ks, INITIAL, before, rest);
    if Walk(ks, before).Success? {
      FeedStep(ks, Feed(ks, INITIAL, before).value, rest);
    }
  }
}
