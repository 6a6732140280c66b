/** Matching one filter against one event. Both come from clients and are any JSON values at all, so that
    matching can throw. */
module RelayMatching {
  import opened Wrappers

  datatype Numeric = NaN | Finite(value: real) | Infinite(positive: bool)

  type Known = n: Numeric | n != NaN witness Finite(0.0)

  /** The string and the number a value converts to; the conversion of an object can throw. */
  datatype Conversion = Fails | Becomes(text: string, number: Numeric)

  /** A JSON value. What formatting, parsing and the methods of an object make of it is given with it; `props`
      are in key order. JavaScript's `undefined` is None of an Option. */
  datatype Json =
    | Null
    | Flag(on: bool)
    | Number(value: Known, digits: string)
    | Text(text: string, number: Numeric)
    | List(items: seq<Json>, conversion: Conversion)
    | Object(props: seq<(string, Json)>, conversion: Conversion)

  /** The value of a condition, unless evaluating it throws. */
  datatype Verdict = Yes | No | Throws

  function Decided(b: bool): Verdict {
    if b then Yes else No
  }

  function Find<T>(entries: seq<(string, T)>, key: string): Option<T> {
    if entries == [] then None else if entries[0].0 == key then Some(entries[0].1) else Find(entries[1..], key)
  }

  /** `v.name`, for a name that no JavaScript object inherits. */
  function Prop(v: Json, name: string): Option<Json> {
    if v.Object? then Find(v.props, name) else None
  }

  predicate Truthy(v: Option<Json>) {
    && v.Some?
    && match v.value
       case Null => false
       case Flag(on) => on
       case Number(n, _) => n != Finite(0.0)
       case Text(t, _) => t != ""
       case _ => true
  }

  function Primitive(v: Option<Json>): Conversion {
    match v
    case None => Becomes("undefined", NaN)
    case Some(Null) => Becomes("null", Finite(0.0))
    case Some(Flag(on)) => if on then Becomes("true", Finite(1.0)) else Becomes("false", Finite(0.0))
    case Some(Number(n, digits)) => Becomes(digits, n)
    case Some(Text(t, n)) => Becomes(t, n)
    case Some(List(_, c)) => c
    case Some(Object(_, c)) => c
  }

  /** Equality as `includes` takes it: lists and objects equal nothing but themselves, and the values of a
      filter are never those of an event. */
  predicate Same(a: Json, b: Json) {
    match a
    case Null => b.Null?
    case Flag(on) => b.Flag? && b.on == on
    case Number(n, _) => b.Number? && b.value == n
    case Text(t, _) => b.Text? && b.text == t
    case _ => false
  }

  predicate Contains(s: string, t: string) {
    exists i: nat | i <= |s| :: t <= s[i..]
  }

  predicate Member(items: seq<Json>, v: Option<Json>) {
    v.Some? && exists item | item in items :: Same(item, v.value)
  }

  /** `list.includes(v)`; a string has a method of that name, too. */
  function Includes(list: Json, v: Option<Json>): Verdict {
    match list
    case List(items, _) => Decided(Member(items, v))
    case Text(s, _) =>
      (match Primitive(v)
       case Fails => Throws
       case Becomes(t, _) => Decided(Contains(s, t)))
    case _ => Throws
  }

  function KindsVerdict(f: Json, e: Json): Verdict {
    var kinds := Prop(f, "kinds");
    if !Truthy(kinds) then Yes else Includes(kinds.value, Prop(e, "kind"))
  }

  function AuthorsVerdict(f: Json, e: Json): Verdict {
    var authors, pubkey := Prop(f, "authors"), Prop(e, "pubkey");
    if !Truthy(authors) then Yes
    else if !Truthy(pubkey) then No
    else Includes(authors.value, pubkey)
  }

  /** `t[0]` or `t[1]`, of anything but null. What number a character of a string converts to is left open
      (as NaN), since tags are only compared as text. */
  function At(t: Json, i: nat): Option<Json>
    requires i < 2
  {
    match t
    case Text(s, _) => if i < |s| then Some(Text([s[i]], NaN)) else None
    case List(items, _) => if i < |items| then Some(items[i]) else None
    case _ => Prop(t, if i == 0 then "0" else "1")
  }

  predicate Names(t: Json, tag: string) {
    At(t, 0).Some? && At(t, 0).value.Text? && At(t, 0).value.text == tag
  }

  function Second(t: Json, tag: string): seq<Option<Json>> {
    if Names(t, tag) then [At(t, 1)] else []
  }

  /** The tags of that name, each represented by its second part. */
  function Seconds(items: seq<Json>, tag: string): seq<Option<Json>> {
    if items == [] then []
    else Second(items[0], tag) + Seconds(items[1..], tag)
  }

  /** The values an event has under a tag, or none if asking for them throws. */
  function Present(e: Json, tag: string): Option<seq<Option<Json>>> {
    match Prop(e, "tags")
    case None => Some([])
    case Some(Null) => Some([])
    case Some(List(items, _)) => if Null in items then None else Some(Seconds(items, tag))
    case _ => None
  }

  predicate Has(present: seq<Option<Json>>, v: Json) {
    exists p | p in present :: p.Some? && Same(p.value, v)
  }

  predicate Shares(present: seq<Option<Json>>, vals: seq<Json>) {
    exists v | v in vals :: Has(present, v)
  }

  function TagVerdict(e: Json, tag: string, vals: seq<Json>): Verdict {
    match Present(e, tag)
    case None => Throws
    case Some(present) => Decided(Shares(present, vals))
  }

  predicate IsTagEntry(entry: (string, Json)) {
    entry.0 != "" && entry.0[0] == '#' && entry.1.List?
  }

  /** The tag entries of a filter, up to the first the event does not meet. */
  function TagsVerdict(entries: seq<(string, Json)>, e: Json): Verdict {
    if entries == [] then Yes
    else
      var here := if IsTagEntry(entries[0]) then TagVerdict(e, entries[0].0[1..], entries[0].1.items) else Yes;
      if here.Yes? then TagsVerdict(entries[1..], e) else here
  }

  function Entries(f: Json): seq<(string, Json)> {
    if f.Object? then f.props else []
  }

  function Matches(f: Json, e: Json): Verdict {
    if f.Null? then Throws
    else if !KindsVerdict(f, e).Yes? then KindsVerdict(f, e)
    else if !AuthorsVerdict(f, e).Yes? then AuthorsVerdict(f, e)
    else TagsVerdict(Entries(f), e)
  }

  // ----- the loops -----

  lemma SecondsFirst(items: seq<Json>, tag: string)
    requires items != []
    ensures Seconds(items, tag) == Second(items[0], tag) + Seconds(items[1..], tag)
  {
    hide Second;
  }

  lemma NoSeconds(tag: string)
    ensures Seconds([], tag) == []
  {
  }

  lemma {:induction false} SecondsConcat(a: seq<Json>, b: seq<Json>, tag: string)
    ensures Seconds(a + b, tag) == Seconds(a, tag) + Seconds(b, tag)
  {
    hide Seconds, Second;
    if a == [] {
      assert a + b == b;
      NoSeconds(tag);
    } else {
      assert (a + b)[1..] == a[1..] + b;
      SecondsConcat(a[1..], b, tag);
      SecondsFirst(a, tag);
      SecondsFirst(a + b, tag);
      var here := Second(a[0], tag);
      assert here + (Seconds(a[1..], tag) + Seconds(b, tag)) == here + Seconds(a[1..], tag) + Seconds(b, tag);
    }
  }

  lemma OneSecond(t: Json, tag: string)
    ensures Seconds([t], tag) == if Names(t, tag) then [At(t, 1)] else []
  {
    hide Names, At;
    assert [t][1..] == [];
    assert Second(t, tag) + [] == Second(t, tag);
  }

  /** `event.tags?.filter((t) => t[0] === tag).map((t) => t[1]) ?? []` on a list of tags. */
  method TagValues(items: seq<Json>, tag: string) returns (r: Option<seq<Option<Json>>>)
    ensures r == if Null in items then None else Some(Seconds(items, tag))
  {
    hide Names, Seconds;
    var present: seq<Option<Json>> := [];
    NoSeconds(tag);
    for i := 0 to |items|
      invariant Null !in items[..i] && present == Seconds(items[..i], tag)
    {
      if items[i].Null? {
        return None;
      }
      SecondsConcat(items[..i], [items[i]], tag);
      assert items[..i] + [items[i]] == items[..i + 1];
      OneSecond(items[i], tag);
      if Names(items[i], tag) {
        present := present + [At(items[i], 1)];
      }
    }
    assert items[..|items|] == items;
    r := Some(present);
  }

  method AnyPresent(present: seq<Option<Json>>, vals: seq<Json>) returns (r: bool)
    ensures r == Shares(present, vals)
  {
    hide Has;
    for i := 0 to |vals|
      invariant forall j | 0 <= j < i :: !Has(present, vals[j])
    {
      if Has(present, vals[i]) {
        return true;
      }
    }
    r := false;
  }

  method TagMatches(e: Json, tag: string, vals: seq<Json>) returns (r: Verdict)
    ensures r == TagVerdict(e, tag, vals)
  {
    hide Shares, Seconds;
    var tags := Prop(e, "tags");
    var present: seq<Option<Json>> := [];
    if tags.Some? && !tags.value.Null? {
      if !tags.value.List? {
        return Throws;
      }
      var found := TagValues(tags.value.items, tag);
      if found.None? {
        return Throws;
      }
      present := found.value;
    }
    var hit := AnyPresent(present, vals);
    r := Decided(hit);
  }

  method FilterMatches(f: Json, e: Json) returns (r: Verdict)
    ensures r == Matches(f, e)
  {
    hide Prop, Includes, TagsVerdict;
    if f.Null? {
      return Throws;
    }
    var kinds := Prop(f, "kinds");
    if Truthy(kinds) {
      var listed := Includes(kinds.value, Prop(e, "kind"));
      if listed != Yes {
        return listed;
      }
    }
    var authors := Prop(f, "authors");
    if Truthy(authors) {
      var pubkey := Prop(e, "pubkey");
      if !Truthy(pubkey) {
        return No;
      }
      var listed := Includes(authors.value, pubkey);
      if listed != Yes {
        return listed;
      }
    }
    r := EntriesMatch(Entries(f), e);
  }

  method EntriesMatch(entries: seq<(string, Json)>, e: Json) returns (r: Verdict)
    ensures r == TagsVerdict(entries, e)
  {
    hide TagVerdict;
    for i := 0 to |entries|
      invariant TagsVerdict(entries[i..], e) == TagsVerdict(entries, e)
    {
      assert entries[i..][0] == entries[i] && entries[i..][1..] == entries[i + 1..];
      if IsTagEntry(entries[i]) {
        var present := TagMatches(e, entries[i].0[1..], entries[i].1.items);
        if present != Yes {
          return present;
        }
      }
    }
    r := Yes;
  }

  // ----- when matching throws -----

  /** Asking the event for the values of a tag throws unless this holds. */
  predicate ListsTags(e: Json) {
    match Prop(e, "tags")
    case None => true
    case Some(Null) => true
    case Some(List(items, _)) => Null !in items
    case _ => false
  }

  /** There is no `list.includes` to call, or it is that of a string and `v` converts to none. */
  predicate CannotInclude(list: Json, v: Option<Json>) {
    !list.List? && !(list.Text? && Primitive(v).Becomes?)
  }

  predicate CannotTellKind(f: Json, e: Json) {
    Truthy(Prop(f, "kinds")) && CannotInclude(Prop(f, "kinds").value, Prop(e, "kind"))
  }

  predicate CannotTellAuthor(f: Json, e: Json) {
    && Truthy(Prop(f, "authors")) && Truthy(Prop(e, "pubkey"))
    && CannotInclude(Prop(f, "authors").value, Prop(e, "pubkey"))
  }

  predicate AsksForTags(f: Json) {
    exists entry | entry in Entries(f) :: IsTagEntry(entry)
  }

  lemma {:induction false} TagsThrow(entries: seq<(string, Json)>, e: Json)
    ensures TagsVerdict(entries, e).Throws? <==> (!ListsTags(e) && exists entry | entry in entries :: IsTagEntry(entry))
  {
    hide Shares, Seconds, Find, IsTagEntry;
    if entries != [] {
      TagsThrow(entries[1..], e);
      assert entries == [entries[0]] + entries[1..];
    }
  }

  /** Matching throws exactly on the filter null, on kinds or authors that are no list (and no string the event
      can be looked up in), and, when both of these pass, on a filter by tags and an event whose tags are
      neither missing nor a list without null. */
  lemma ThrowsExactly(f: Json, e: Json)
    ensures Matches(f, e).Throws? <==>
            (|| f.Null?
             || CannotTellKind(f, e)
             || (KindsVerdict(f, e).Yes? && CannotTellAuthor(f, e))
             || (KindsVerdict(f, e).Yes? && AuthorsVerdict(f, e).Yes? && AsksForTags(f) && !ListsTags(e)))
  {
    hide Find, Member, Contains, TagsVerdict, ListsTags, IsTagEntry;
    TagsThrow(Entries(f), e);
  }
}
