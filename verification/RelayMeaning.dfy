/** What a filter asks for, said without its evaluation, and what that means for who receives an event. */
module RelayMeaning {
  import opened Wrappers
  import opened RelayMatching
  import opened Relay
  import opened RelayDelivery

  // ----- values -----

  /** The value has a property of that name, the first there is. */
  predicate HasField(v: Json, name: string, x: Json) {
    v.Object? && exists i: nat ::
      i < |v.props| && v.props[i].0 == name && v.props[i].1 == x && forall j | 0 <= j < i :: v.props[j].0 != name
  }

  /** What a condition takes for false. */
  predicate Falsy(x: Json) {
    x == Null || x == Flag(false) || (x.Number? && x.value == Finite(0.0)) || (x.Text? && x.text == "")
  }

  predicate SameScalar(a: Json, b: Json) {
    || (a.Null? && b.Null?)
    || (a.Flag? && b.Flag? && a.on == b.on)
    || (a.Number? && b.Number? && a.value == b.value)
    || (a.Text? && b.Text? && a.text == b.text)
  }

  /** The text a value, or a missing one, is converted to. */
  predicate Spells(x: Option<Json>, t: string) {
    || (x == None && t == "undefined")
    || (x == Some(Null) && t == "null")
    || (x == Some(Flag(true)) && t == "true")
    || (x == Some(Flag(false)) && t == "false")
    || (x.Some? && x.value.Number? && t == x.value.digits)
    || (x.Some? && x.value.Text? && t == x.value.text)
    || (x.Some? && (x.value.List? || x.value.Object?) && x.value.conversion.Becomes? && t == x.value.conversion.text)
  }

  /** `x` is among the values of a list, or its text occurs in a text. */
  ghost predicate Among(list: Json, x: Option<Json>) {
    || (list.List? && x.Some? && exists y :: y in list.items && SameScalar(y, x.value))
    || (list.Text? && exists a, t, b :: Spells(x, t) && a + t + b == list.text)
  }

  lemma {:induction false} FindsFirst(props: seq<(string, Json)>, name: string, x: Json)
    ensures Find(props, name) == Some(x)
            <==> exists i: nat :: i < |props| && props[i].0 == name && props[i].1 == x
                                  && forall j | 0 <= j < i :: props[j].0 != name
  {
    if props != [] {
      FindsFirst(props[1..], name, x);
      if props[0].0 == name {
        assert Find(props, name) == Some(x) ==> props[0].0 == name && props[0].1 == x;
      } else {
        if Find(props, name) == Some(x) {
          var i: nat :| i < |props[1..]| && props[1..][i].0 == name && props[1..][i].1 == x
                        && forall j | 0 <= j < i :: props[1..][j].0 != name;
          assert props[i + 1].0 == name && props[i + 1].1 == x;
          assert forall j | 0 <= j < i + 1 :: props[j].0 != name by {
            assert forall j | 1 <= j < i + 1 :: props[j] == props[1..][j - 1];
          }
        }
        if i: nat :| i < |props| && props[i].0 == name && props[i].1 == x
                     && forall j | 0 <= j < i :: props[j].0 != name {
          assert props[1..][i - 1] == props[i];
          assert forall j | 0 <= j < i - 1 :: props[1..][j] == props[j + 1];
        }
      }
    }
  }

  lemma PropIsField(v: Json, name: string, x: Json)
    ensures Prop(v, name) == Some(x) <==> HasField(v, name, x)
  {
    hide Find;
    if v.Object? {
      FindsFirst(v.props, name, x);
    }
  }

  lemma TruthyIsNotFalsy(x: Json)
    ensures Truthy(Some(x)) <==> !Falsy(x)
  {
  }

  lemma SameIsSameScalar(a: Json, b: Json)
    ensures Same(a, b) <==> SameScalar(a, b)
  {
  }

  lemma PrimitiveSpells(x: Option<Json>, t: string)
    ensures Spells(x, t) <==> (Primitive(x).Becomes? && Primitive(x).text == t)
  {
  }

  lemma ContainsInTheMiddle(s: string, t: string)
    ensures Contains(s, t) <==> exists a, b :: a + t + b == s
  {
    if Contains(s, t) {
      var i: nat :| i <= |s| && t <= s[i..];
      assert s[..i] + t + s[i + |t|..] == s;
    }
    if a, b :| a + t + b == s {
      assert s[|a|..] == t + b;
    }
  }

  lemma IncludesIsAmong(list: Json, x: Option<Json>)
    ensures Includes(list, x) == Yes <==> Among(list, x)
  {
    hide Primitive, Spells, Contains;
    if list.List? && x.Some? {
      forall y
        ensures Same(y, x.value) <==> SameScalar(y, x.value)
      {
        SameIsSameScalar(y, x.value);
      }
    } else if list.Text? {
      forall t
        ensures Spells(x, t) <==> (Primitive(x).Becomes? && Primitive(x).text == t)
      {
        PrimitiveSpells(x, t);
      }
      if Primitive(x).Becomes? {
        ContainsInTheMiddle(list.text, Primitive(x).text);
      }
    }
  }

  // ----- what a filter asks for -----

  /** `v.name`, which may be missing. */
  ghost predicate IsField(v: Json, name: string, x: Option<Json>) {
    if x.Some? then HasField(v, name, x.value) else forall y :: !HasField(v, name, y)
  }

  ghost predicate AsksKind(f: Json, e: Json) {
    forall kinds | HasField(f, "kinds", kinds) && !Falsy(kinds) ::
      exists kind: Option<Json> :: IsField(e, "kind", kind) && Among(kinds, kind)
  }

  ghost predicate AsksAuthor(f: Json, e: Json) {
    forall authors | HasField(f, "authors", authors) && !Falsy(authors) ::
      exists pubkey :: HasField(e, "pubkey", pubkey) && !Falsy(pubkey) && Among(authors, Some(pubkey))
  }

  /** `x` is the first or second part of a tag: a list, a text by its characters, or an object. */
  predicate Part(t: Json, i: nat, x: Json)
    requires i < 2
  {
    || (t.List? && i < |t.items| && x == t.items[i])
    || (t.Text? && i < |t.text| && x.Text? && x.text == [t.text[i]])
    || HasField(t, ["0", "1"][i], x)
  }

  ghost predicate Says(t: Json, tag: string, v: Json) {
    exists name, y :: Part(t, 0, name) && name.Text? && name.text == tag && Part(t, 1, y) && SameScalar(y, v)
  }

  /** Some tag of that name says one of the values; and the tags are a list without null. */
  ghost predicate AsksTag(e: Json, tag: string, vals: seq<Json>) {
    exists tags ::
      && HasField(e, "tags", tags) && tags.List? && Null !in tags.items
      && exists t, v :: t in tags.items && v in vals && Says(t, tag, v)
  }

  ghost predicate AsksTags(props: seq<(string, Json)>, e: Json) {
    forall i | 0 <= i < |props| ::
      |props[i].0| > 0 && props[i].0[0] == '#' && props[i].1.List? ==> AsksTag(e, props[i].0[1..], props[i].1.items)
  }

  /** The filter asks for this event: for its kind, its author, and for each `#` list a tag of that name with
      one of the values listed. */
  ghost predicate AsksFor(f: Json, e: Json) {
    !f.Null? && AsksKind(f, e) && AsksAuthor(f, e) && (f.Object? ==> AsksTags(f.props, e))
  }

  lemma KindsAgree(f: Json, e: Json)
    ensures KindsVerdict(f, e) == Yes <==> AsksKind(f, e)
  {
    hide Prop, Truthy, Falsy, HasField, Includes, Among;
    forall x
      ensures Prop(f, "kinds") == Some(x) <==> HasField(f, "kinds", x)
      ensures Prop(e, "kind") == Some(x) <==> HasField(e, "kind", x)
      ensures Truthy(Some(x)) <==> !Falsy(x)
    {
      PropIsField(f, "kinds", x);
      PropIsField(e, "kind", x);
      TruthyIsNotFalsy(x);
    }
    NothingIsFalse();
    var kinds, kind := Prop(f, "kinds"), Prop(e, "kind");
    if kinds.Some? {
      IncludesIsAmong(kinds.value, kind);
      assert IsField(e, "kind", kind);
    }
  }

  lemma NothingIsFalse()
    ensures !Truthy(None)
  {
  }

  lemma AuthorsAgree(f: Json, e: Json)
    ensures AuthorsVerdict(f, e) == Yes <==> AsksAuthor(f, e)
  {
    hide Prop, Truthy, Falsy, HasField, Includes, Among;
    forall x
      ensures Prop(f, "authors") == Some(x) <==> HasField(f, "authors", x)
      ensures Prop(e, "pubkey") == Some(x) <==> HasField(e, "pubkey", x)
      ensures Truthy(Some(x)) <==> !Falsy(x)
    {
      PropIsField(f, "authors", x);
      PropIsField(e, "pubkey", x);
      TruthyIsNotFalsy(x);
    }
    NothingIsFalse();
    var authors, pubkey := Prop(f, "authors"), Prop(e, "pubkey");
    if authors.Some? {
      IncludesIsAmong(authors.value, pubkey);
    }
  }

  lemma AtIsPart(t: Json, i: nat)
    requires i < 2
    ensures At(t, i).Some? ==> Part(t, i, At(t, i).value)
    ensures forall x | Part(t, i, x) ::
              At(t, i).Some? && (At(t, i).value == x || (x.Text? && SameScalar(At(t, i).value, x)))
  {
    hide Prop, HasField;
    forall x
      ensures Prop(t, ["0", "1"][i]) == Some(x) <==> HasField(t, ["0", "1"][i], x)
    {
      PropIsField(t, ["0", "1"][i], x);
    }
    NoFields(t);
  }

  lemma NoFields(t: Json)
    ensures forall name, x | HasField(t, name, x) :: t.Object?
  {
  }

  lemma SaysIsSecond(t: Json, tag: string, v: Json)
    ensures Says(t, tag, v) <==> (Names(t, tag) && At(t, 1).Some? && Same(At(t, 1).value, v))
  {
    hide At, Part;
    AtIsPart(t, 0);
    AtIsPart(t, 1);
  }

  lemma {:induction false} SecondsHave(items: seq<Json>, tag: string, v: Json)
    ensures Has(Seconds(items, tag), v) <==> exists t :: t in items && Says(t, tag, v)
  {
    hide Says, Names, At, Same;
    if items != [] {
      SecondsHave(items[1..], tag, v);
      SaysIsSecond(items[0], tag, v);
      assert items == [items[0]] + items[1..];
      var rest := Seconds(items[1..], tag);
      assert Second(items[0], tag) + rest == Seconds(items, tag);
      HasEither(Second(items[0], tag), rest, v);
      OneHas(items[0], tag, v);
    }
  }

  lemma HasEither(a: seq<Option<Json>>, b: seq<Option<Json>>, v: Json)
    ensures Has(a + b, v) <==> Has(a, v) || Has(b, v)
  {
    hide Same;
  }

  lemma OneHas(t: Json, tag: string, v: Json)
    ensures Has(Second(t, tag), v) <==> (Names(t, tag) && At(t, 1).Some? && Same(At(t, 1).value, v))
  {
    hide At, Same;
    if Names(t, tag) {
      assert At(t, 1) in Second(t, tag);
    }
  }

  lemma TagAgrees(e: Json, tag: string, vals: seq<Json>)
    ensures TagVerdict(e, tag, vals) == Yes <==> AsksTag(e, tag, vals)
  {
    hide Prop, HasField, Seconds, Has, Says;
    forall x
      ensures Prop(e, "tags") == Some(x) <==> HasField(e, "tags", x)
    {
      PropIsField(e, "tags", x);
    }
    var tags := Prop(e, "tags");
    NothingSaid(vals);
    if tags.Some? && tags.value.List? {
      forall v
        ensures Has(Seconds(tags.value.items, tag), v) <==> exists t :: t in tags.value.items && Says(t, tag, v)
      {
        SecondsHave(tags.value.items, tag, v);
      }
    }
  }

  lemma NothingSaid(vals: seq<Json>)
    ensures !Shares([], vals)
  {
  }

  lemma {:induction false} TagsAgree(props: seq<(string, Json)>, e: Json)
    ensures TagsVerdict(props, e) == Yes <==> AsksTags(props, e)
  {
    hide TagVerdict, AsksTag;
    if props != [] {
      TagsAgree(props[1..], e);
      if IsTagEntry(props[0]) {
        TagAgrees(e, props[0].0[1..], props[0].1.items);
      }
      assert AsksTags(props, e) ==> AsksTags(props[1..], e);
    }
  }

  /** Matching says yes exactly to what the filter asks for, for every filter and event. */
  lemma MatchesIsAskedFor(f: Json, e: Json)
    ensures Matches(f, e) == Yes <==> AsksFor(f, e)
  {
    hide KindsVerdict, AuthorsVerdict, TagsVerdict, AsksKind, AsksAuthor, AsksTags;
    KindsAgree(f, e);
    AuthorsAgree(f, e);
    TagsAgree(Entries(f), e);
    assert AsksTags([], e) by { NoTagsAsked(e); }
  }

  lemma NoTagsAsked(e: Json)
    ensures AsksTags([], e)
  {
  }

  // ----- the guard and the answers -----

  /** The number a value, or a missing one, is converted to. */
  predicate Counts(x: Option<Json>, n: Numeric) {
    || (x == None && n == NaN)
    || (x == Some(Null) && n == Finite(0.0))
    || (x == Some(Flag(true)) && n == Finite(1.0))
    || (x == Some(Flag(false)) && n == Finite(0.0))
    || (x.Some? && x.value.Number? && n == x.value.value)
    || (x.Some? && x.value.Text? && n == x.value.number)
    || (x.Some? && (x.value.List? || x.value.Object?) && x.value.conversion.Becomes? && n == x.value.conversion.number)
  }

  /** An event is let through exactly if it is there and not false, zero, null or empty, and its kind counts as
      no number or as one from 20000 up to 30000. */
  lemma GuardMeans(e: Json)
    ensures Guard(Some(e)) == Yes <==>
            (!Falsy(e) && exists kind, n :: IsField(e, "kind", kind) && Counts(kind, n)
                                           && (n == NaN || (n.Finite? && 20000.0 <= n.value < 30000.0)))
    ensures Guard(None) == No
  {
    hide Prop, HasField, IsField, Falsy, Truthy, Counts, Primitive;
    TruthyIsNotFalsy(e);
    NothingIsFalse();
    var kind := Prop(e, "kind");
    forall x
      ensures IsField(e, "kind", x) <==> kind == x
    {
      FieldIsProp(e, "kind", x);
    }
    CountsIsPrimitive(kind);
    if Primitive(kind).Becomes? {
      assert IsField(e, "kind", kind) && Counts(kind, Primitive(kind).number);
    }
  }

  lemma FieldIsProp(v: Json, name: string, x: Option<Json>)
    ensures IsField(v, name, x) <==> Prop(v, name) == x
  {
    hide Prop, HasField;
    forall y
      ensures Prop(v, name) == Some(y) <==> HasField(v, name, y)
    {
      PropIsField(v, name, y);
    }
  }

  lemma CountsIsPrimitive(x: Option<Json>)
    ensures forall n :: Counts(x, n) <==> (Primitive(x).Becomes? && Primitive(x).number == n)
  {
  }

  /** The id an answer names: the event's, or the empty text if it has none. */
  ghost predicate AnswerId(e: Json, id: Json) {
    || (id != Null && HasField(e, "id", id))
    || (id == Text("", Finite(0.0)) && forall x | x != Null :: !HasField(e, "id", x))
  }

  lemma IdOfIsAnswerId(e: Json)
    ensures AnswerId(e, IdOf(Some(e)))
  {
    hide Prop, HasField;
    forall x
      ensures Prop(e, "id") == Some(x) <==> HasField(e, "id", x)
    {
      PropIsField(e, "id", x);
    }
  }

  /** The frames that are no event. */
  function Answers(sent: seq<(SocketId, Frame)>): seq<(SocketId, Frame)> {
    if sent == [] then []
    else (if sent[0].1.EventFrame? then [] else [sent[0]]) + Answers(sent[1..])
  }

  lemma {:induction false} AnswersConcat(a: seq<(SocketId, Frame)>, b: seq<(SocketId, Frame)>)
    ensures Answers(a + b) == Answers(a) + Answers(b)
  {
    if a == [] {
      assert a + b == b;
    } else {
      assert (a + b)[1..] == a[1..] + b;
      AnswersConcat(a[1..], b);
    }
  }

  lemma OneEvent(to: SocketId, f: Frame)
    requires f.EventFrame?
    ensures Answers([(to, f)]) == []
  {
    assert [(to, f)][1..] == [];
  }

  lemma {:induction false} FanOutAnswersNothing(peers: seq<SocketId>, subs: map<SocketId, Subs>, from: SocketId,
                                                e: Json)
    requires forall q | q in peers :: q in subs
    ensures Answers(FanOut(peers, subs, from, e).frames) == []
  {
    hide First;
    if peers != [] {
      FanOutAnswersNothing(peers[1..], subs, from, e);
      if peers[0] != from && First(subs[peers[0]], e).Found? {
        var frame := (peers[0], EventFrame(First(subs[peers[0]], e).sub, e));
        AnswersConcat([frame], FanOut(peers[1..], subs, from, e).frames);
        OneEvent(frame.0, frame.1);
      }
    }
  }

  lemma OneAnswer(who: SocketId, f: Frame)
    requires !f.EventFrame?
    ensures Answers([(who, f)]) == [(who, f)] && Answers([]) == []
  {
    assert [(who, f)][1..] == [];
  }

  /** A publisher gets one answer and nobody else does: its event's id, and whether the event was let through;
      none at all if the guard or the fan-out threw. */
  lemma PublishingIsAnswered(s: State, who: SocketId, e: Json) returns (id: Json)
    requires Enabled(s, Message(who, Publish(Some(e))))
    ensures AnswerId(e, id)
    ensures Answers(Sends(s, Message(who, Publish(Some(e))))) ==
            match Guard(Some(e))
            case Yes => if FanOut(s.sockets, s.subs, who, e).crashed then [] else [(who, Ok(id, true))]
            case No => [(who, Ok(id, false))]
            case Throws => []
    ensures FanOut(s.sockets, s.subs, who, e).crashed
            <==> exists q :: q in s.sockets && q != who && First(s.subs[q], e) == Crash
  {
    hide Guard, FanOut, First, IdOf, AnswerId, OwnKeys, Plain, Distinct, Find;
    id := IdOf(Some(e));
    IdOfIsAnswerId(e);
    OneAnswer(who, Ok(id, true));
    OneAnswer(who, Ok(id, false));
    FanOutAnswersNothing(s.sockets, s.subs, who, e);
    CrashedSomewhere(s.sockets, s.subs, who, e);
    if Guard(Some(e)).Yes? {
      var out := FanOut(s.sockets, s.subs, who, e);
      AnswersConcat(out.frames, if out.crashed then [] else [(who, Ok(id, true))]);
    }
  }

  lemma {:induction false} CrashedSomewhere(peers: seq<SocketId>, subs: map<SocketId, Subs>, from: SocketId, e: Json)
    requires forall q | q in peers :: q in subs
    ensures FanOut(peers, subs, from, e).crashed <==> exists q :: q in peers && q != from && First(subs[q], e) == Crash
  {
    hide First;
    if peers != [] {
      CrashedSomewhere(peers[1..], subs, from, e);
      assert peers == [peers[0]] + peers[1..];
    }
  }

  /** A request is acknowledged, to its sender and with its own id, if and only if that is the name of a property
      the subscriptions have, held or inherited, or fewer than eight are held. */
  lemma RequestIsAcknowledged(s: State, who: SocketId, id: Option<Json>, filters: seq<Json>)
    requires Enabled(s, Message(who, Req(id, filters)))
    ensures var sent := Sends(s, Message(who, Req(id, filters)));
            && (sent == [(who, Eose(id))] || sent == [])
            && (sent != [] <==>
                  exists key :: Spells(id, key)
                                && (Find(s.subs[who], key).Some? || key == "__proto__" || key in INHERITED
                                    || |s.subs[who]| < 8))
  {
    hide Primitive, Find, OwnKeys, Plain, Distinct, Spells;
    forall key
      ensures Spells(id, key) <==> (Primitive(id).Becomes? && Primitive(id).text == key)
    {
      PrimitiveSpells(id, key);
    }
    if Primitive(id).Becomes? {
      assert Spells(id, Primitive(id).text);
    }
  }

  // ----- who receives what -----

  /** Matching this filter and this event throws on neither side: kinds and authors that count are lists, and
      the tags are missing or a list without null. */
  ghost predicate SoundFilter(f: Json) {
    && f != Null
    && (forall x | (HasField(f, "kinds", x) || HasField(f, "authors", x)) && !Falsy(x) :: x.List?)
  }

  ghost predicate SoundEvent(e: Json) {
    forall tags | HasField(e, "tags", tags) :: tags == Null || (tags.List? && Null !in tags.items)
  }

  lemma SoundNeverThrows(f: Json, e: Json)
    requires SoundFilter(f) && SoundEvent(e)
    ensures !Matches(f, e).Throws?
  {
    hide Prop, HasField, Falsy, Truthy, Matches, KindsVerdict, AuthorsVerdict, SoundFilter, AsksForTags;
    ThrowsExactly(f, e);
    ListIfItCounts(f, "kinds");
    ListIfItCounts(f, "authors");
    if Prop(e, "tags").Some? {
      PropIsField(e, "tags", Prop(e, "tags").value);
    }
    assert f != Null by { NotNull(f); }
  }

  lemma NotNull(f: Json)
    requires SoundFilter(f)
    ensures f != Null
  {
  }

  lemma ListIfItCounts(f: Json, name: string)
    requires SoundFilter(f) && name in {"kinds", "authors"}
    ensures Truthy(Prop(f, name)) ==> Prop(f, name).value.List?
  {
    hide Prop, HasField, Falsy, Truthy;
    NothingIsFalse();
    if Prop(f, name).Some? {
      PropIsField(f, name, Prop(f, name).value);
      TruthyIsNotFalsy(Prop(f, name).value);
    }
  }

  /** Some subscription `p` has opened, under an id it can be held under, and has neither closed nor replaced
      since, has a filter that asks for the event. */
  ghost predicate HasAskedFor(run: seq<Action>, p: SocketId, sub: string, e: Json)
    requires Legal(run)
  {
    exists j: nat, filters: seq<Json>, f ::
      OpenSince(run, j, p, sub, filters) && sub != PROTO && f in filters && AsksFor(f, e)
  }

  /** Whatever a peer receives it has asked for: each frame is another socket's event that the guard let
      through, under a subscription of the peer that asks for it; and there is at most one. */
  lemma ReceivedWasAskedFor(run: seq<Action>, a: Action, p: SocketId)
    requires Legal(run) && Enabled(After(run), a)
    ensures |Received(Sends(After(run), a), p)| <= 1
    ensures forall r | r in Received(Sends(After(run), a), p) ::
              && r.EventFrame? && a == Message(a.who, Publish(Some(r.event))) && a.who != p
              && Guard(Some(r.event)) == Yes && HasAskedFor(run, p, r.sub, r.event)
  {
    hide Received, Sends, OpenSince, AsksFor, Guard, After, Legal;
    DeliveriesWereAskedFor(run, a, p);
    forall r | r in Received(Sends(After(run), a), p)
      ensures HasAskedFor(run, p, r.sub, r.event)
    {
      var j: nat, filters, i: nat :| OpenSince(run, j, p, r.sub, filters) && Settles(filters, r.event, i, Yes);
      MatchesIsAskedFor(filters[i], r.event);
      ReceivedIsHeld(run, a, p, r);
    }
  }

  lemma ReceivedIsHeld(run: seq<Action>, a: Action, p: SocketId, r: Frame)
    requires Legal(run) && Enabled(After(run), a) && r in Received(Sends(After(run), a), p) && r.EventFrame?
    ensures r.sub != PROTO
  {
    hide Received, Sends, First, CutOff, Guard, After, Legal, Plain;
    StepReceives(After(run), a, p);
    FoundIsHeld(After(run).subs[p], a.msg.event.value);
  }

  lemma {:induction false} NoneAsks(filters: seq<Json>, e: Json)
    requires Any(filters, e) == No
    ensures forall f | f in filters :: !AsksFor(f, e)
  {
    hide Matches, AsksFor;
    if filters != [] {
      MatchesIsAskedFor(filters[0], e);
      NoneAsks(filters[1..], e);
      assert filters == [filters[0]] + filters[1..];
    }
  }

  lemma {:induction false} FoundIsFirst(subs: Subs, e: Json) returns (i: nat)
    requires First(subs, e).Found?
    ensures i < |subs| && subs[i].0 == First(subs, e).sub
    ensures forall k, f | 0 <= k < i && f in subs[k].1 :: !AsksFor(f, e)
  {
    hide Any, AsksFor;
    if Any(subs[0].1, e) == Yes {
      i := 0;
    } else {
      NoneAsks(subs[0].1, e);
      i := FoundIsFirst(subs[1..], e);
      i := i + 1;
      forall k, f | 0 <= k < i && f in subs[k].1
        ensures !AsksFor(f, e)
      {
        assert k > 0 ==> subs[k] == subs[1..][k - 1];
      }
    }
  }

  /** The copy comes under the first subscription that asks for it. */
  lemma CopyIsUnderTheFirst(run: seq<Action>, a: Action, p: SocketId, r: Frame) returns (i: nat)
    requires Legal(run) && Enabled(After(run), a) && r in Received(Sends(After(run), a), p)
    ensures r.EventFrame? && p in After(run).subs
    ensures var subs := After(run).subs[p];
            && i < |subs| && subs[i].0 == r.sub
            && forall k, f | 0 <= k < i && f in subs[k].1 :: !AsksFor(f, r.event)
  {
    hide Received, Sends, First, CutOff, Guard, After, Legal, Plain, AsksFor, OwnKeys;
    StepReceives(After(run), a, p);
    i := FoundIsFirst(After(run).subs[p], a.msg.event.value);
  }

  /** While all that other sockets have open is sound, a peer gets exactly one copy of an event with sound tags
      if it has asked for it, and none if it has not. */
  lemma WhoAskedGetsIt(run: seq<Action>, a: Action, p: SocketId)
    requires Legal(run) && Enabled(After(run), a) && a.Message? && a.msg.Publish? && Guard(a.msg.event).Yes?
    requires p in After(run).sockets && p != a.who && SoundEvent(a.msg.event.value)
    requires forall j: nat, q, sub, filters: seq<Json>, f |
               OpenSince(run, j, q, sub, filters) && q != a.who && f in filters :: SoundFilter(f)
    ensures |Received(Sends(After(run), a), p)| == 1 <==> exists sub :: HasAskedFor(run, p, sub, a.msg.event.value)
  {
    hide Received, Sends, OpenSince, AsksFor, Guard, After, Legal, SoundEvent, SoundFilter, Matches;
    var e := a.msg.event.value;
    ReceivedWasAskedFor(run, a, p);
    if sub :| HasAskedFor(run, p, sub, e) {
      var j: nat, filters: seq<Json>, f :|
        OpenSince(run, j, p, sub, filters) && sub != PROTO && f in filters && AsksFor(f, e);
      MatchesIsAskedFor(f, e);
      forall j: nat, q, sub, filters: seq<Json>, f |
        OpenSince(run, j, q, sub, filters) && q != a.who && f in filters
        ensures !Matches(f, e).Throws?
      {
        SoundNeverThrows(f, e);
      }
      assert Harmless(run, a.who, e);
      AskedForIsDelivered(run, a, p, j, sub, filters, f);
    }
    if |Received(Sends(After(run), a), p)| == 1 {
      var r := Received(Sends(After(run), a), p)[0];
      assert r in Received(Sends(After(run), a), p);
      assert HasAskedFor(run, p, r.sub, e);
    }
  }
}
