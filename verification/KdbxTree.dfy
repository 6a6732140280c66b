/** The meaning of an inner XML document, given in two phases over its tree: first make a field of every
    value in document order, then choose what to keep. The one-pass walker is proved to compute exactly
    this. */
module KdbxTree {
  import opened Wrappers
  import opened KdbxTypes
  import opened Xml
  import opened KdbxWalker
  import Base64

  /** A document: elements with a meaning, boxes without one, and what stands between them. Everything
      may stand anywhere; keys, values, tags and names hold events without a meaning of their own. */
  datatype Node =
    | Group(kids: seq<Node>)
    | Record(kids: seq<Node>)
    | History(kids: seq<Node>)
    | KeyText(text: seq<Event>)
    | ValueText(text: seq<Event>, guarded: bool)
    | Tags(text: seq<Event>)
    | GroupName(text: seq<Event>)
    | Box(tag: string, kids: seq<Node>)
    | Noise(text: seq<Event>)

  const MEANINGFUL := {"Group", "Entry", "History", "Tags", "Name", "Key", "Value"}

  /** Character data, an ignored event, or a tag the importer gives no meaning to. */
  predicate Silent(e: Event) {
    match e
    case Start(name, _) => name !in MEANINGFUL
    case End(name) => name !in MEANINGFUL
    case Content(_) => true
    case Prolog(_) => true
    case Fault(_) => false
  }

  predicate AllSilent(es: seq<Event>) {
    forall i | 0 <= i < |es| :: Silent(es[i])
  }

  predicate WellFormed(n: Node) {
    match n
    case Group(kids) => AllWellFormed(kids)
    case Record(kids) => AllWellFormed(kids)
    case History(kids) => AllWellFormed(kids)
    case Box(tag, kids) => tag !in MEANINGFUL && AllWellFormed(kids)
    case _ => AllSilent(n.text)
  }

  predicate AllWellFormed(ns: seq<Node>) {
    ns == [] || (WellFormed(ns[0]) && AllWellFormed(ns[1..]))
  }

  // ----- the events of a document -----

  function Wrap(tag: string, protectedTrue: bool, inner: seq<Event>): seq<Event> {
    [Start(tag, protectedTrue)] + inner + [End(tag)]
  }

  function Flatten(n: Node): seq<Event> {
    match n
    case Group(kids) => Wrap("Group", false, FlattenAll(kids))
    case Record(kids) => Wrap("Entry", false, FlattenAll(kids))
    case History(kids) => Wrap("History", false, FlattenAll(kids))
    case KeyText(text) => Wrap("Key", false, text)
    case ValueText(text, guarded) => Wrap("Value", guarded, text)
    case Tags(text) => Wrap("Tags", false, text)
    case GroupName(text) => Wrap("Name", false, text)
    case Box(tag, kids) => Wrap(tag, false, FlattenAll(kids))
    case Noise(text) => text
  }

  function FlattenAll(ns: seq<Node>): seq<Event> {
    if ns == [] then [] else Flatten(ns[0]) + FlattenAll(ns[1..])
  }

  /** The characters some events spell; a reference to nothing spells nothing. */
  function Spelled(es: seq<Event>): string {
    if es == [] then ""
    else (if es[0].Content? && RunText(es[0].run).Some? then RunText(es[0].run).value else "") + Spelled(es[1..])
  }

  // ----- phase one: in document order -----

  /** What the first phase meets: a reference to make sense of, a key, or a value. */
  datatype Duty = Mention(name: string) | KeyIs(key: string) | ValueIs(text: string, guarded: bool)

  /** How far it has come: the key stream spent, and the last key read. */
  datatype Spot = Spot(pos: nat, key: string)

  const OUTSET := Spot(0, "")

  function TextDuties(es: seq<Event>): seq<Duty> {
    if es == [] then []
    else (if es[0].Content? && es[0].run.Reference? then [Mention(es[0].run.name)] else []) + TextDuties(es[1..])
  }

  function Duties(n: Node): seq<Duty> {
    match n
    case Group(kids) => AllDuties(kids)
    case Record(kids) => AllDuties(kids)
    case History(kids) => AllDuties(kids)
    case KeyText(text) => TextDuties(text) + [KeyIs(Spelled(text))]
    case ValueText(text, guarded) => TextDuties(text) + [ValueIs(Spelled(text), guarded)]
    case Box(_, kids) => AllDuties(kids)
    case _ => TextDuties(n.text)
  }

  function AllDuties(ns: seq<Node>): seq<Duty> {
    if ns == [] then [] else Duties(ns[0]) + AllDuties(ns[1..])
  }

  /** The fields that all values become, each under the last key before it and decrypted where the key
      stream stands by then; or the first failure in document order. */
  function Discharge(ks: KeyStream, duties: seq<Duty>, at: Spot): Res<(seq<Field>, Spot)>
    decreases |duties|
  {
    if duties == [] then Success(([], at))
    else match duties[0]
      case Mention(name) =>
        if Resolve(name).None? then Failure(Corrupt("xml entity")) else Discharge(ks, duties[1..], at)
      case KeyIs(key) => Discharge(ks, duties[1..], at.(key := key))
      case ValueIs(text, guarded) =>
        var (plain, spent) :- Reveal(ks, at.pos, text, guarded);
        var (more, end) :- Discharge(ks, duties[1..], at.(pos := at.pos + spent));
        Success(([Field(at.key, plain, guarded)] + more, end))
  }

  // ----- phase two: choose -----

  /** The document with a field for every value. */
  datatype Clear =
    | ClearGroup(kids: seq<Clear>)
    | ClearRecord(kids: seq<Clear>)
    | ClearHistory(kids: seq<Clear>)
    | ClearField(field: Field)
    | ClearTags(text: string)
    | ClearName(text: string)
    | ClearBox(kids: seq<Clear>)

  function ValueCount(n: Node): nat {
    match n
    case Group(kids) => ValueCounts(kids)
    case Record(kids) => ValueCounts(kids)
    case History(kids) => ValueCounts(kids)
    case Box(_, kids) => ValueCounts(kids)
    case ValueText(_, _) => 1
    case _ => 0
  }

  function ValueCounts(ns: seq<Node>): nat {
    if ns == [] then 0 else ValueCount(ns[0]) + ValueCounts(ns[1..])
  }

  /** Put the fields where the values were, in document order. */
  function Fill(n: Node, fields: seq<Field>): Clear
    requires |fields| == ValueCount(n)
  {
    match n
    case Group(kids) => ClearGroup(FillAll(kids, fields))
    case Record(kids) => ClearRecord(FillAll(kids, fields))
    case History(kids) => ClearHistory(FillAll(kids, fields))
    case KeyText(_) => ClearBox([])
    case ValueText(_, _) => ClearField(fields[0])
    case Tags(text) => ClearTags(Spelled(text))
    case GroupName(text) => ClearName(Spelled(text))
    case Box(_, kids) => ClearBox(FillAll(kids, fields))
    case Noise(_) => ClearBox([])
  }

  function FillAll(ns: seq<Node>, fields: seq<Field>): seq<Clear>
    requires |fields| == ValueCounts(ns)
  {
    if ns == [] then []
    else
      var k := ValueCount(ns[0]);
      [Fill(ns[0], fields[..k])] + FillAll(ns[1..], fields[k..])
  }

  /** The fields an entry takes from its content: those of nested entries are not its own. */
  function Own(c: Clear): seq<Field> {
    match c
    case ClearGroup(kids) => AllOwn(kids)
    case ClearRecord(_) => []
    case ClearHistory(kids) => AllOwn(kids)
    case ClearField(field) => [field]
    case ClearTags(text) => if text == "" then [] else [Field(TAGS_KEY, text, false)]
    case ClearName(_) => []
    case ClearBox(kids) => AllOwn(kids)
  }

  function AllOwn(cs: seq<Clear>): seq<Field> {
    if cs == [] then [] else Own(cs[0]) + AllOwn(cs[1..])
  }

  /** What a part of a group adds to the group's name: names inside entries are not meant. */
  function NameIn(c: Clear): string {
    match c
    case ClearName(text) => text
    case ClearHistory(kids) => NamesIn(kids)
    case ClearBox(kids) => NamesIn(kids)
    case _ => ""
  }

  function NamesIn(cs: seq<Clear>): string {
    if cs == [] then "" else NameIn(cs[0]) + NamesIn(cs[1..])
  }

  /** The innermost group's name grows; outside all groups a name is lost. */
  function Named(path: seq<string>, name: string): seq<string> {
    if path == [] then [] else Front(path) + [Last(path) + name]
  }

  /** The entries to keep: none inside an entry or a History, none under a group named "Recycle Bin";
      each with the path of the groups it lies in, as far as they have been named before it. */
  function Select(c: Clear, path: seq<string>): seq<Entry> {
    match c
    case ClearGroup(kids) => SelectAll(kids, path + [""])
    case ClearRecord(kids) => if RECYCLE_BIN in path then [] else [WithGroupPath(AllOwn(kids), path)]
    case ClearBox(kids) => SelectAll(kids, path)
    case _ => []
  }

  function SelectAll(cs: seq<Clear>, path: seq<string>): seq<Entry> {
    if cs == [] then [] else Select(cs[0], path) + SelectAll(cs[1..], Named(path, NameIn(cs[0])))
  }

  /** The two phases together. */
  function Meaning(ks: KeyStream, doc: seq<Node>): Res<seq<Entry>> {
    var (fields, _) :- Discharge(ks, AllDuties(doc), OUTSET);
    DischargeCounts(ks, AllDuties(doc), OUTSET);
    DocumentValues(doc);
    Success(SelectAll(FillAll(doc, fields), []))
  }

  // ----- counting values -----

  function CountValues(duties: seq<Duty>): nat {
    if duties == [] then 0 else (if duties[0].ValueIs? then 1 else 0) + CountValues(duties[1..])
  }

  lemma {:induction false} DischargeCounts(ks: KeyStream, duties: seq<Duty>, at: Spot)
    ensures var r := Discharge(ks, duties, at); r.Success? ==> |r.value.0| == CountValues(duties)
    decreases |duties|
  {
    hide Reveal, Resolve;
    if duties != [] {
      match duties[0]
      case Mention(_) => DischargeCounts(ks, duties[1..], at);
      case KeyIs(key) => DischargeCounts(ks, duties[1..], at.(key := key));
      case ValueIs(text, guarded) =>
        if Reveal(ks, at.pos, text, guarded).Success? {
          DischargeCounts(ks, duties[1..], at.(pos := at.pos + Reveal(ks, at.pos, text, guarded).value.1));
        }
    }
  }

  lemma {:induction false} CountConcat(a: seq<Duty>, b: seq<Duty>)
    ensures CountValues(a + b) == CountValues(a) + CountValues(b)
  {
    if a == [] {
      assert a + b == b;
    } else {
      assert (a + b)[1..] == a[1..] + b;
      CountConcat(a[1..], b);
    }
  }

  lemma {:induction false} TextHasNoValues(es: seq<Event>)
    ensures CountValues(TextDuties(es)) == 0
  {
    if es != [] {
      TextHasNoValues(es[1..]);
      TextDutiesStep(es);
    }
  }

  lemma TextDutiesStep(es: seq<Event>)
    requires es != []
    ensures if es[0].Content? && es[0].run.Reference?
            then TextDuties(es) == [Mention(es[0].run.name)] + TextDuties(es[1..])
            else TextDuties(es) == TextDuties(es[1..])
  {
    assert [] + TextDuties(es[1..]) == TextDuties(es[1..]);
  }

  lemma {:induction false} NodeValues(n: Node)
    ensures CountValues(Duties(n)) == ValueCount(n)
  {
    match n
    case Group(kids) => DocumentValues(kids);
    case Record(kids) => DocumentValues(kids);
    case History(kids) => DocumentValues(kids);
    case Box(_, kids) => DocumentValues(kids);
    case KeyText(text) =>
      TextHasNoValues(text);
      CountConcat(TextDuties(text), [KeyIs(Spelled(text))]);
    case ValueText(text, guarded) =>
      TextHasNoValues(text);
      CountConcat(TextDuties(text), [ValueIs(Spelled(text), guarded)]);
    case _ => TextHasNoValues(n.text);
  }

  lemma {:induction false} DocumentValues(ns: seq<Node>)
    ensures CountValues(AllDuties(ns)) == ValueCounts(ns)
  {
    if ns != [] {
      NodeValues(ns[0]);
      DocumentValues(ns[1..]);
      CountConcat(Duties(ns[0]), AllDuties(ns[1..]));
    }
  }

  // ----- which key, and where in the key stream -----

  /** A value with the last key before it. */
  datatype Claim = Claim(key: string, text: string, guarded: bool)

  function Claims(duties: seq<Duty>, key: string): seq<Claim>
    decreases |duties|
  {
    if duties == [] then []
    else match duties[0]
      case Mention(_) => Claims(duties[1..], key)
      case KeyIs(k) => Claims(duties[1..], k)
      case ValueIs(text, guarded) => [Claim(key, text, guarded)] + Claims(duties[1..], key)
  }

  /** The key stream a value spends: what its Base64 stands for, if it is protected. */
  function ClaimCost(c: Claim): nat {
    if !c.guarded || c.text == "" then 0
    else match Base64.Decode(c.text)
      case Some(raw) => |raw|
      case None => 0
  }

  function Spent(claims: seq<Claim>): nat {
    if claims == [] then 0 else ClaimCost(claims[0]) + Spent(claims[1..])
  }

  predicate MetAt(ks: KeyStream, pos: nat, c: Claim, f: Field) {
    f.key == c.key && f.guarded == c.guarded && Reveal(ks, pos, c.text, c.guarded) == Success((f.value, ClaimCost(c)))
  }

  /** Every value becomes a field under the last key before it, decrypted at the total decoded length of
      the protected values before it. */
  predicate MetInPlace(ks: KeyStream, pos: nat, claims: seq<Claim>, fields: seq<Field>) {
    && |fields| == |claims|
    && forall i | 0 <= i < |claims| :: MetAt(ks, pos + Spent(claims[..i]), claims[i], fields[i])
  }

  lemma MetCons(ks: KeyStream, pos: nat, c: Claim, f: Field, claims: seq<Claim>, fields: seq<Field>)
    requires MetAt(ks, pos, c, f) && MetInPlace(ks, pos + ClaimCost(c), claims, fields)
    ensures MetInPlace(ks, pos, [c] + claims, [f] + fields)
  {
    hide MetAt, ClaimCost;
    var all := [c] + claims;
    forall i | 0 <= i < |all|
      ensures MetAt(ks, pos + Spent(all[..i]), all[i], ([f] + fields)[i])
    {
      if i > 0 {
        assert all[..i][1..] == claims[..i - 1];
        assert all[i] == claims[i - 1] && ([f] + fields)[i] == fields[i - 1];
      }
    }
  }

  lemma NothingMet(ks: KeyStream, pos: nat)
    ensures MetInPlace(ks, pos, [], [])
  {
  }

  lemma RevealSpends(ks: KeyStream, at: Spot, text: string, guarded: bool)
    requires Reveal(ks, at.pos, text, guarded).Success?
    ensures var (plain, spent) := Reveal(ks, at.pos, text, guarded).value;
            var c := Claim(at.key, text, guarded);
            MetAt(ks, at.pos, c, Field(at.key, plain, guarded)) && spent == ClaimCost(c)
  {
  }

  lemma {:induction false} ValuesAreMetInPlace(ks: KeyStream, duties: seq<Duty>, at: Spot)
    ensures match Discharge(ks, duties, at)
            case Failure(_) => true
            case Success((fields, end)) =>
              && MetInPlace(ks, at.pos, Claims(duties, at.key), fields)
              && end.pos == at.pos + Spent(Claims(duties, at.key))
    decreases |duties|
  {
    hide Resolve, Reveal, MetAt, ClaimCost, MetInPlace;
    if duties == [] {
      NothingMet(ks, at.pos);
    } else if Discharge(ks, duties, at).Success? {
      match duties[0]
      case Mention(_) => ValuesAreMetInPlace(ks, duties[1..], at);
      case KeyIs(key) => ValuesAreMetInPlace(ks, duties[1..], at.(key := key));
      case ValueIs(text, guarded) =>
        var (plain, spent) := Reveal(ks, at.pos, text, guarded).value;
        var next := at.(pos := at.pos + spent);
        var rest := Claims(duties[1..], at.key);
        RevealSpends(ks, at, text, guarded);
        ValuesAreMetInPlace(ks, duties[1..], next);
        MetCons(ks, at.pos, Claim(at.key, text, guarded), Field(at.key, plain, guarded), rest,
                Discharge(ks, duties[1..], next).value.0);
        assert ([Claim(at.key, text, guarded)] + rest)[1..] == rest;
    }
  }
}
