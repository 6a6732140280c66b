/** What the relay's clients receive, over every history of connections and messages. */
module RelayDelivery {
  import opened Wrappers
  import opened RelayMatching
  import opened Relay

  predicate Legal(run: seq<Action>)
    decreases |run|, 0
  {
    run == [] || (Legal(run[..|run| - 1]) && Enabled(After(run[..|run| - 1]), run[|run| - 1]))
  }

  function After(run: seq<Action>): State
    requires Legal(run)
    decreases |run|, 1
  {
    if run == [] then State([], map[]) else Next(After(run[..|run| - 1]), run[|run| - 1])
  }

  lemma Nothing()
    ensures Legal([]) && After([]) == State([], map[]) && Good(After([]))
  {
  }

  lemma Continued(run: seq<Action>, a: Action)
    requires Legal(run) && Enabled(After(run), a)
    ensures Legal(run + [a]) && After(run + [a]) == Next(After(run), a)
  {
    hide Next, Enabled;
    assert (run + [a])[..|run|] == run;
  }

  /** No socket ever holds two subscriptions under one id, nor more than eight under ids that are no names
      every object inherits, nor more than nineteen in all. */
  lemma {:induction false} AlwaysGood(run: seq<Action>)
    requires Legal(run)
    ensures Good(After(run))
    ensures forall p | p in After(run).subs ::
              && |After(run).subs[p]| <= MAX_SUBS_PER_CONN + 11
              && (|After(run).subs[p]| > MAX_SUBS_PER_CONN ==>
                    exists key :: key in INHERITED && Find(After(run).subs[p], key).Some?)
    decreases |run|
  {
    hide Next, Find, OwnKeys, Plain, Distinct;
    if run == [] {
      Nothing();
    } else {
      StepIsGood(After(run[..|run| - 1]), run[|run| - 1]);
    }
    forall p | p in After(run).subs
      ensures |After(run).subs[p]| <= MAX_SUBS_PER_CONN + 11
      ensures |After(run).subs[p]| > MAX_SUBS_PER_CONN ==>
                exists key :: key in INHERITED && Find(After(run).subs[p], key).Some?
    {
      AtMostNineteen(After(run).subs[p]);
    }
  }

  // ----- what is held -----

  predicate IsKey(id: Option<Json>, sub: string) {
    Primitive(id).Becomes? && Primitive(id).text == sub
  }

  predicate Asks(a: Action, p: SocketId, sub: string, filters: seq<Json>) {
    a.Message? && a.who == p && a.msg.Req? && IsKey(a.msg.id, sub) && a.msg.filters == filters
  }

  /** The step ends, opens or replaces the subscription `sub` of `p`. */
  predicate Touches(a: Action, p: SocketId, sub: string) {
    a.who == p && (a.Message? ==> (a.msg.Req? && IsKey(a.msg.id, sub)) || (a.msg.Close? && IsKey(a.msg.id, sub)))
  }

  /** The `j`-th step of the run opened `sub` for `p` with these filters and was acknowledged, and
      nothing has touched that subscription since. */
  predicate OpenSince(run: seq<Action>, j: nat, p: SocketId, sub: string, filters: seq<Json>)
    requires Legal(run)
  {
    && j < |run| && Asks(run[j], p, sub, filters)
    && Legal(run[..j]) && Enabled(After(run[..j]), run[j])
    && Sends(After(run[..j]), run[j]) == [(p, Eose(run[j].msg.id))]
    && forall i | j < i < |run| :: !Touches(run[i], p, sub)
  }

  predicate Holds(s: State, p: SocketId, sub: string, filters: seq<Json>) {
    p in s.subs && Find(s.subs[p], sub) == Some(filters)
  }

  lemma UntouchedHolds(s: State, a: Action, p: SocketId, sub: string, filters: seq<Json>)
    requires Enabled(s, a) && !Touches(a, p, sub)
    ensures Holds(Next(s, a), p, sub, filters) <==> Holds(s, p, sub, filters)
  {
    hide Find, Delete, Assign, HasProperty, OwnKeys, Plain, Distinct;
    if a.Message? && a.who == p {
      if a.msg.Req? && Primitive(a.msg.id).Becomes? {
        AssignFinds(s.subs[p], Primitive(a.msg.id).text, a.msg.filters, sub);
      } else if a.msg.Close? && Primitive(a.msg.id).Becomes? {
        DeleteFinds(s.subs[p], Primitive(a.msg.id).text, sub);
      }
    }
  }

  lemma TouchedHolds(s: State, a: Action, p: SocketId, sub: string, filters: seq<Json>)
    requires Enabled(s, a) && Touches(a, p, sub)
    ensures Holds(Next(s, a), p, sub, filters)
            <==> (Asks(a, p, sub, filters) && Sends(s, a) == [(p, Eose(a.msg.id))] && sub != PROTO)
  {
    hide Find, Delete, Assign, Inherited, OwnKeys, Plain, Distinct;
    if a.Message? && a.msg.Req? {
      AssignFinds(s.subs[p], sub, a.msg.filters, sub);
    } else if a.Message? {
      DeleteFinds(s.subs[p], sub, sub);
    } else {
      NothingFound(sub);
    }
  }

  lemma NothingFound(sub: string)
    ensures Find<seq<Json>>([], sub).None?
  {
  }

  lemma StartHoldsNothing(p: SocketId, sub: string, filters: seq<Json>)
    ensures !Holds(After([]), p, sub, filters)
  {
  }

  lemma OpenEarlier(run: seq<Action>, j: nat, p: SocketId, sub: string, filters: seq<Json>)
    requires Legal(run) && run != [] && !Touches(run[|run| - 1], p, sub)
    ensures OpenSince(run, j, p, sub, filters) <==> OpenSince(run[..|run| - 1], j, p, sub, filters)
  {
    hide Touches, Asks, After, Sends, Enabled;
    var before := run[..|run| - 1];
    if j < |before| {
      assert before[..j] == run[..j] && before[j] == run[j];
    } else if j == |before| {
      AskingTouches(run[j], p, sub, filters);
    }
  }

  lemma AskingTouches(a: Action, p: SocketId, sub: string, filters: seq<Json>)
    ensures Asks(a, p, sub, filters) ==> Touches(a, p, sub)
  {
  }

  /** A socket holds a subscription exactly when its history says so; but none is ever held under the id that
      names the prototype. */
  lemma {:induction false} HeldIffOpened(run: seq<Action>, p: SocketId, sub: string, filters: seq<Json>)
    requires Legal(run)
    ensures Holds(After(run), p, sub, filters)
            <==> (sub != PROTO && exists j: nat :: OpenSince(run, j, p, sub, filters))
    decreases |run|
  {
    hide Holds, Touches, Asks, Sends, Enabled, Next;
    if run == [] {
      StartHoldsNothing(p, sub, filters);
      return;
    }
    var n := |run| - 1;
    var before, a := run[..n], run[n];
    if Touches(a, p, sub) {
      TouchedHolds(After(before), a, p, sub, filters);
      if Holds(After(run), p, sub, filters) {
        assert OpenSince(run, n, p, sub, filters);
      }
    } else {
      UntouchedHolds(After(before), a, p, sub, filters);
      HeldIffOpened(before, p, sub, filters);
      forall j: nat
        ensures OpenSince(run, j, p, sub, filters) <==> OpenSince(before, j, p, sub, filters)
      {
        OpenEarlier(run, j, p, sub, filters);
      }
    }
  }

  /** A request under that id is acknowledged at any time, and changes nothing. */
  lemma AcknowledgedButLost(run: seq<Action>, p: SocketId, id: Option<Json>, filters: seq<Json>)
    requires Legal(run) && p in After(run).sockets && IsKey(id, PROTO)
    ensures var a := Message(p, Req(id, filters));
            && Enabled(After(run), a)
            && Sends(After(run), a) == [(p, Eose(id))] && Next(After(run), a) == After(run)
  {
    hide Legal, After, Find, OwnKeys, Plain, Distinct;
    AlwaysGood(run);
    var s := After(run);
    assert s.subs[p := s.subs[p]] == s.subs;
  }

  // ----- deliveries -----

  /** The event frames among `sent` that go to `p`. */
  function Received(sent: seq<(SocketId, Frame)>, p: SocketId): seq<Frame> {
    if sent == [] then []
    else (if sent[0].0 == p && sent[0].1.EventFrame? then [sent[0].1] else []) + Received(sent[1..], p)
  }

  lemma {:induction false} ReceivedConcat(a: seq<(SocketId, Frame)>, b: seq<(SocketId, Frame)>, p: SocketId)
    ensures Received(a + b, p) == Received(a, p) + Received(b, p)
  {
    if a == [] {
      assert a + b == b;
    } else {
      assert (a + b)[1..] == a[1..] + b;
      ReceivedConcat(a[1..], b, p);
    }
  }

  lemma ReceivedOne(who: SocketId, f: Frame, p: SocketId)
    ensures Received([], p) == []
    ensures Received([(who, f)], p) == if who == p && f.EventFrame? then [f] else []
  {
    assert [(who, f)][1..] == [];
  }

  /** The sockets listed before `p`. */
  function Before(peers: seq<SocketId>, p: SocketId): seq<SocketId> {
    if peers == [] || peers[0] == p then [] else [peers[0]] + Before(peers[1..], p)
  }

  /** The fan-out throws at a socket listed before `p`. */
  predicate CutOff(peers: seq<SocketId>, subs: map<SocketId, Subs>, from: SocketId, e: Json, p: SocketId) {
    exists q | q in Before(peers, p) :: q != from && q in subs && First(subs[q], e).Crash?
  }

  /** What the fan-out brings to `p`: its copy, if it is reached and has a match. */
  function CopyFor(peers: seq<SocketId>, subs: map<SocketId, Subs>, from: SocketId, e: Json, p: SocketId): seq<Frame>
    requires forall q | q in peers :: q in subs
  {
    if p in peers && p != from && !CutOff(peers, subs, from, e, p) && First(subs[p], e).Found?
    then [EventFrame(First(subs[p], e).sub, e)] else []
  }

  lemma CutOffLater(peers: seq<SocketId>, subs: map<SocketId, Subs>, from: SocketId, e: Json, p: SocketId)
    requires peers != [] && peers[0] != p && peers[0] in subs
    ensures CutOff(peers, subs, from, e, p) <==>
            ((peers[0] != from && First(subs[peers[0]], e).Crash?) || CutOff(peers[1..], subs, from, e, p))
  {
    hide First;
    assert Before(peers, p) == [peers[0]] + Before(peers[1..], p);
  }

  lemma CutOffNow(peers: seq<SocketId>, subs: map<SocketId, Subs>, from: SocketId, e: Json, p: SocketId)
    ensures peers != [] && peers[0] == p ==> !CutOff(peers, subs, from, e, p)
  {
  }

  lemma {:induction false} ReceivedFanOut(peers: seq<SocketId>, subs: map<SocketId, Subs>, from: SocketId, e: Json,
                                          p: SocketId)
    requires forall q | q in peers :: q in subs
    requires Distinct(peers)
    ensures Received(FanOut(peers, subs, from, e).frames, p) == CopyFor(peers, subs, from, e, p)
  {
    hide First, Received, CutOff;
    ReceivedOne(p, Pong, p);
    if peers != [] {
      ReceivedFanOut(peers[1..], subs, from, e, p);
      assert peers == [peers[0]] + peers[1..];
      var rest := FanOut(peers[1..], subs, from, e);
      CutOffNow(peers, subs, from, e, p);
      if peers[0] != p {
        CutOffLater(peers, subs, from, e, p);
      }
      if peers[0] != from && First(subs[peers[0]], e).Found? {
        var frame := EventFrame(First(subs[peers[0]], e).sub, e);
        ReceivedConcat([(peers[0], frame)], rest.frames, p);
        ReceivedOne(peers[0], frame, p);
      }
    }
  }

  /** What a step brings to `p`. */
  lemma StepReceives(s: State, a: Action, p: SocketId)
    requires Enabled(s, a)
    ensures Received(Sends(s, a), p) ==
            if a.Message? && a.msg.Publish? && Guard(a.msg.event).Yes?
            then CopyFor(s.sockets, s.subs, a.who, a.msg.event.value, p) else []
  {
    hide FanOut, Find, Accepts, Received, CutOff, First, IdOf, Primitive, OwnKeys, Plain;
    ReceivedOne(p, Pong, p);
    if a.Message? {
      match a.msg
      case Ping => ReceivedOne(a.who, Pong, p);
      case Req(id, _) => ReceivedOne(a.who, Eose(id), p);
      case Publish(e) =>
        ReceivedOne(a.who, Ok(IdOf(e), false), p);
        if Guard(e).Yes? {
          var last := if FanOut(s.sockets, s.subs, a.who, e.value).crashed then [] else [(a.who, Ok(IdOf(e), true))];
          ReceivedOne(a.who, Ok(IdOf(e), true), p);
          ReceivedConcat(FanOut(s.sockets, s.subs, a.who, e.value).frames, last, p);
          ReceivedFanOut(s.sockets, s.subs, a.who, e.value, p);
        }
      case _ =>
    }
  }

  lemma {:induction false} FoundIsHeld(subs: Subs, e: Json)
    requires OwnKeys(subs) && First(subs, e).Found?
    ensures var sub := First(subs, e).sub;
            Find(subs, sub).Some? && Any(Find(subs, sub).value, e) == Yes
  {
    hide Any;
    if Any(subs[0].1, e) == No {
      FoundIsHeld(subs[1..], e);
    }
  }

  lemma {:induction false} HeldIsSearched(subs: Subs, e: Json, sub: string)
    requires Find(subs, sub).Some? && Any(Find(subs, sub).value, e) != No
    ensures !First(subs, e).Nowhere?
  {
    hide Any;
    if subs[0].0 != sub && Any(subs[0].1, e) == No {
      HeldIsSearched(subs[1..], e, sub);
    }
  }

  lemma {:induction false} MatchIsNoMiss(filters: seq<Json>, e: Json, f: Json)
    requires f in filters && Matches(f, e) == Yes
    ensures Any(filters, e) != No
  {
    hide Matches;
    if filters[0] != f {
      assert filters == [filters[0]] + filters[1..];
      MatchIsNoMiss(filters[1..], e, f);
    }
  }

  /** After any history, a step delivers an event frame to `p` only for an event another socket just
      published, that the guard let through, under a subscription `p` opened and has neither closed nor
      replaced since, one of whose filters matches with no earlier one throwing; and never more than one
      frame. */
  lemma DeliveriesWereAskedFor(run: seq<Action>, a: Action, p: SocketId)
    requires Legal(run) && Enabled(After(run), a)
    ensures |Received(Sends(After(run), a), p)| <= 1
    ensures forall f | f in Received(Sends(After(run), a), p) ::
              && f.EventFrame? && a == Message(a.who, Publish(Some(f.event))) && a.who != p
              && Guard(a.msg.event).Yes?
              && exists j: nat, filters, i: nat ::
                   OpenSince(run, j, p, f.sub, filters) && Settles(filters, f.event, i, Yes)
  {
    hide OpenSince, Any, Guard, Received, Sends, First, CutOff, Settles, Find, OwnKeys, Plain;
    var s := After(run);
    StepReceives(s, a, p);
    if Received(Sends(s, a), p) != [] {
      var e := a.msg.event.value;
      FoundIsHeld(s.subs[p], e);
      var sub := First(s.subs[p], e).sub;
      var filters := Find(s.subs[p], sub).value;
      HeldIffOpened(run, p, sub, filters);
      var j: nat :| OpenSince(run, j, p, sub, filters);
      AnyExactly(filters, e, Yes);
      var i: nat :| Settles(filters, e, i, Yes);
      assert OpenSince(run, j, p, sub, filters) && Settles(filters, e, i, Yes);
    }
  }

  /** Of an event the guard lets through, a connected peer with an open subscription that has a matching filter
      gets exactly one copy if and only if matching throws neither at a socket listed before it nor at a
      filter of its own that comes before the first match; otherwise it gets none. */
  lemma DeliveredUnlessThrown(run: seq<Action>, a: Action, p: SocketId, j: nat, sub: string, filters: seq<Json>,
                              f: Json)
    requires Legal(run) && Enabled(After(run), a)
    requires a.Message? && a.msg.Publish? && Guard(a.msg.event).Yes?
    requires p in After(run).sockets && p != a.who
    requires OpenSince(run, j, p, sub, filters) && sub != PROTO
    requires f in filters && Matches(f, a.msg.event.value) == Yes
    ensures var s, e := After(run), a.msg.event.value;
            var copies := Received(Sends(s, a), p);
            && (|copies| == 1 <==> (!CutOff(s.sockets, s.subs, a.who, e, p) && !First(s.subs[p], e).Crash?))
            && (|copies| != 1 <==> copies == [])
  {
    hide OpenSince, Any, Guard, Received, Sends, First, CutOff, Matches, Find, OwnKeys, Plain;
    var s, e := After(run), a.msg.event.value;
    StepReceives(s, a, p);
    HeldIffOpened(run, p, sub, filters);
    MatchIsNoMiss(filters, e, f);
    HeldIsSearched(s.subs[p], e, sub);
  }

  lemma {:induction false} HarmlessAny(filters: seq<Json>, e: Json)
    requires forall f | f in filters :: !Matches(f, e).Throws?
    ensures !Any(filters, e).Throws?
  {
    hide Matches;
    if filters != [] {
      HarmlessAny(filters[1..], e);
    }
  }

  lemma {:induction false} HarmlessSearch(subs: Subs, e: Json)
    requires OwnKeys(subs)
    requires forall sub | Find(subs, sub).Some? :: !Any(Find(subs, sub).value, e).Throws?
    ensures !First(subs, e).Crash?
  {
    hide Any;
    if subs != [] {
      assert Find(subs, subs[0].0) == Some(subs[0].1);
      forall sub | Find(subs[1..], sub).Some?
        ensures !Any(Find(subs[1..], sub).value, e).Throws?
      {
        assert Find(subs, sub) == Find(subs[1..], sub);
      }
      HarmlessSearch(subs[1..], e);
    }
  }

  /** No open subscription of any socket but the sender has a filter on which matching the event throws. */
  ghost predicate Harmless(run: seq<Action>, from: SocketId, e: Json)
    requires Legal(run)
  {
    forall j: nat, q, sub, filters: seq<Json> | OpenSince(run, j, q, sub, filters) && q != from ::
      forall f | f in filters :: !Matches(f, e).Throws?
  }

  lemma HarmlessSocket(run: seq<Action>, from: SocketId, e: Json, q: SocketId)
    requires Legal(run) && Harmless(run, from, e) && q != from && q in After(run).subs
    ensures !First(After(run).subs[q], e).Crash?
  {
    hide OpenSince, Any, First, Matches, Find, OwnKeys, Plain, Distinct;
    AlwaysGood(run);
    var subs := After(run).subs[q];
    forall sub | Find(subs, sub).Some?
      ensures !Any(Find(subs, sub).value, e).Throws?
    {
      var filters := Find(subs, sub).value;
      HeldIffOpened(run, q, sub, filters);
      var j: nat :| OpenSince(run, j, q, sub, filters);
      HarmlessAny(filters, e);
    }
    HarmlessSearch(subs, e);
  }

  /** So as long as nobody has asked for what throws, everybody gets exactly one copy of what they asked for. */
  lemma AskedForIsDelivered(run: seq<Action>, a: Action, p: SocketId, j: nat, sub: string, filters: seq<Json>,
                            f: Json)
    requires Legal(run) && Enabled(After(run), a)
    requires a.Message? && a.msg.Publish? && Guard(a.msg.event).Yes?
    requires p in After(run).sockets && p != a.who
    requires OpenSince(run, j, p, sub, filters) && sub != PROTO
    requires f in filters && Matches(f, a.msg.event.value) == Yes
    requires Harmless(run, a.who, a.msg.event.value)
    ensures |Received(Sends(After(run), a), p)| == 1
  {
    hide OpenSince, Harmless, Guard, Received, Sends, First, Matches, Find, OwnKeys, Plain;
    var s, e := After(run), a.msg.event.value;
    DeliveredUnlessThrown(run, a, p, j, sub, filters, f);
    HarmlessSocket(run, a.who, e, p);
    if CutOff(s.sockets, s.subs, a.who, e, p) {
      var q :| q in Before(s.sockets, p) && q != a.who && q in s.subs && First(s.subs[q], e).Crash?;
      HarmlessSocket(run, a.who, e, q);
    }
  }

  // ----- the guard -----

  predicate InRange(n: Numeric) {
    n.Finite? && 20000.0 <= n.value < 30000.0
  }

  /** An event passes exactly if it is none of null, false, zero and the empty string, and its kind compares as
      no number or as one in the ephemeral range. Of events whose kind is a number the ephemeral ones pass and
      no others; besides, events with no kind and with a string, array or object for a kind can pass. */
  lemma GuardIsExact(e: Json)
    ensures var kind := Primitive(Prop(e, "kind"));
            && (Guard(Some(e)) == Yes <==>
                  (Truthy(Some(e)) && kind.Becomes? && (kind.number == NaN || InRange(kind.number))))
            && (Guard(Some(e)) == Throws <==> kind.Fails?)
    ensures var kind := Prop(e, "kind");
            && (kind.Some? && kind.value.Number? ==> (Guard(Some(e)) == Yes <==> Ephemeral(e)))
            && (Guard(Some(e)) == Yes ==>
                  Ephemeral(e) || kind.None? || kind.value.Text? || kind.value.List? || kind.value.Object?)
  {
  }

  // ----- three histories -----

  const ANYTHING := Object([], Becomes("[object Object]", NaN))
  const A := Some(Text("a", NaN))

  lemma AnythingMatches(e: Json)
    ensures Matches(ANYTHING, e) == Yes
  {
  }

  lemma OneSubscription(filters: seq<Json>, e: Json, v: Verdict)
    requires |filters| == 1 && Matches(filters[0], e) == v
    ensures Accepts([], A) && Assign([], "a", filters) == [("a", filters)]
    ensures First([("a", filters)], e) == match v
                                          case Yes => Found("a")
                                          case No => Nowhere
                                          case Throws => Crash
  {
    hide Matches;
    assert filters[1..] == [];
    assert Any(filters, e) == v;
    var subs := [("a", filters)];
    assert subs[1..] == [] && First(subs[1..], e) == Nowhere;
  }

  lemma ListenerJoins(filters: seq<Json>) returns (run: seq<Action>)
    requires Accepts([], A) && Assign([], "a", filters) == [("a", filters)]
    ensures Legal(run) && After(run) == State([0, 1], map[0 := [], 1 := [("a", filters)]])
    ensures Good(After(run))
  {
    hide After, Legal, Accepts, Assign, Good;
    Nothing();
    Continued([], Connect(0));
    run := [] + [Connect(0)];
    AlwaysGood(run);
    Continued(run, Connect(1));
    run := run + [Connect(1)];
    AlwaysGood(run);
    assert After(run) == State([0, 1], map[0 := [], 1 := []]);
    Continued(run, Message(1, Req(A, filters)));
    run := run + [Message(1, Req(A, filters))];
    AlwaysGood(run);
    assert After(run).subs == map[0 := [], 1 := [("a", filters)]];
  }

  /** Every event the guard lets through reaches a peer that asked for everything, ephemeral or not. */
  lemma WhatPassesIsRelayed(e: Json) returns (run: seq<Action>, a: Action)
    requires Guard(Some(e)) == Yes
    ensures Legal(run) && Enabled(After(run), a) && a == Message(0, Publish(Some(e)))
    ensures Received(Sends(After(run), a), 1) == [EventFrame("a", e)]
  {
    hide After, Legal, Sends, Received, Matches, Accepts, Assign, First, Guard;
    AnythingMatches(e);
    OneSubscription([ANYTHING], e, Yes);
    run := ListenerJoins([ANYTHING]);
    a := Message(0, Publish(Some(e)));
    StepReceives(After(run), a, 1);
    assert Before([0, 1], 1) == [0] + Before([1], 1);
  }

  lemma SecondListenerJoins(first: seq<Json>, second: seq<Json>) returns (run: seq<Action>)
    requires Accepts([], A) && Assign([], "a", first) == [("a", first)] && Assign([], "a", second) == [("a", second)]
    ensures Legal(run) && Good(After(run)) && After(run).sockets == [0, 1, 2]
    ensures After(run).subs == map[0 := [], 1 := [("a", first)], 2 := [("a", second)]]
  {
    hide After, Legal, Accepts, Assign, Good;
    run := ListenerJoins(first);
    Continued(run, Connect(2));
    run := run + [Connect(2)];
    AlwaysGood(run);
    assert After(run) == State([0, 1, 2], map[0 := [], 1 := [("a", first)], 2 := []]);
    Continued(run, Message(2, Req(A, second)));
    run := run + [Message(2, Req(A, second))];
    AlwaysGood(run);
    assert After(run).subs == map[0 := [], 1 := [("a", first)], 2 := [("a", second)]];
  }

  lemma StopsAtOnce(subs: map<SocketId, Subs>, e: Json)
    requires 0 in subs && 1 in subs && 2 in subs && First(subs[1], e) == Crash
    ensures FanOut([0, 1, 2], subs, 0, e) == Outcome([], true)
  {
    hide First;
    assert [0, 1, 2][1..] == [1, 2];
    assert FanOut([1, 2], subs, 0, e) == Outcome([], true);
  }

  /** One null for a filter keeps every event from every peer listed later: socket 2 has asked for
      everything, but of what socket 0 publishes nobody gets anything, not even an answer. */
  lemma NullStopsDelivery(e: Json) returns (run: seq<Action>, a: Action, j: nat)
    requires Guard(Some(e)) == Yes
    ensures Legal(run) && Enabled(After(run), a) && a == Message(0, Publish(Some(e)))
    ensures 2 in After(run).sockets && OpenSince(run, j, 2, "a", [ANYTHING]) && Matches(ANYTHING, e) == Yes
    ensures Sends(After(run), a) == []
  {
    hide After, Legal, OpenSince, Matches, Accepts, Assign, First, Guard, FanOut, Good;
    AnythingMatches(e);
    NullThrows(e);
    OneSubscription([Null], e, Throws);
    OneSubscription([ANYTHING], e, Yes);
    run := SecondListenerJoins([Null], [ANYTHING]);
    assert Holds(After(run), 2, "a", [ANYTHING]);
    HeldIffOpened(run, 2, "a", [ANYTHING]);
    j :| OpenSince(run, j, 2, "a", [ANYTHING]);
    a := Message(0, Publish(Some(e)));
    StopsAtOnce(After(run).subs, e);
  }

  lemma NullThrows(e: Json)
    ensures Matches(Null, e) == Throws
  {
  }

  // ----- nineteen subscriptions -----

  predicate Fillable(ids: seq<string>) {
    forall i | 0 <= i < |ids| ::
      ids[i] !in ids[..i] && ids[i] != PROTO && (i < MAX_SUBS_PER_CONN || ids[i] in INHERITED)
  }

  /** A socket can open subscriptions under any eight ids, and under inherited names after that. */
  lemma {:induction false} Fill(ids: seq<string>) returns (run: seq<Action>)
    requires Fillable(ids)
    ensures Legal(run) && After(run).sockets == [0] && 0 in After(run).subs
    ensures |After(run).subs[0]| == |ids|
    ensures forall key :: Find(After(run).subs[0], key).Some? <==> key in ids
  {
    hide After, Legal, Find, Insert, Replace, OwnKeys, Plain, Distinct;
    if ids == [] {
      Nothing();
      Continued([], Connect(0));
      run := [] + [Connect(0)];
      forall key
        ensures Find(After(run).subs[0], key).None?
      {
        NothingFound(key);
      }
      return;
    }
    var n := |ids| - 1;
    run := Fill(ids[..n]);
    AlwaysGood(run);
    var subs, id := After(run).subs[0], Some(Text(ids[n], NaN));
    assert Find(subs, ids[n]).None?;
    Continued(run, Message(0, Req(id, [])));
    run := run + [Message(0, Req(id, []))];
    forall key
      ensures Find(After(run).subs[0], key).Some? <==> key in ids
    {
      AssignFinds(subs, ids[n], [], key);
      assert ids == ids[..n] + [ids[n]];
    }
    InsertAdds(subs, ids[n], []);
  }

  const NINETEEN: seq<string> := ["1", "2", "3", "4", "5", "6", "7", "8", "valueOf", "toString", "constructor",
                                  "isPrototypeOf", "hasOwnProperty", "toLocaleString", "propertyIsEnumerable",
                                  "__defineGetter__", "__defineSetter__", "__lookupGetter__", "__lookupSetter__"]

  lemma NineteenDiffer(i: nat)
    requires i < |NINETEEN|
    ensures NINETEEN[i] !in NINETEEN[..i]
  {
  }

  lemma NineteenAreFree(i: nat)
    requires i < |NINETEEN|
    ensures NINETEEN[i] != PROTO && (i < MAX_SUBS_PER_CONN || NINETEEN[i] in INHERITED)
  {
  }

  /** So nineteen subscriptions can be held at once, not eight. */
  lemma NineteenAreHeld() returns (run: seq<Action>)
    ensures Legal(run) && 0 in After(run).subs && |After(run).subs[0]| == MAX_SUBS_PER_CONN + 11
  {
    hide Legal, After;
    forall i | 0 <= i < |NINETEEN|
      ensures NINETEEN[i] !in NINETEEN[..i]
      ensures NINETEEN[i] != PROTO && (i < MAX_SUBS_PER_CONN || NINETEEN[i] in INHERITED)
    {
      NineteenDiffer(i);
      NineteenAreFree(i);
    }
    run := Fill(NINETEEN);
  }
}
