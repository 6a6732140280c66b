/** The signaling relay: sockets open and close subscriptions, and every event is offered once to each other
    socket, under its first matching subscription. Nothing is stored. */
module Relay {
  import opened Wrappers
  import opened RelayMatching

  type SocketId = nat

  const MAX_SUBS_PER_CONN: nat := 8

  datatype Frame =
    | Pong
    | Eose(id: Option<Json>)
    | EventFrame(sub: string, event: Json)
    | Ok(eventId: Json, accepted: bool)

  /** Every part of a message may be missing, and is any JSON value if it is there. */
  datatype Incoming =
    | TooLong
    | Ping
    | NotUnderstood
    | Req(id: Option<Json>, filters: seq<Json>)
    | Close(id: Option<Json>)
    | Publish(event: Option<Json>)

  datatype Action = Connect(who: SocketId) | Leave(who: SocketId) | Message(who: SocketId, msg: Incoming)

  // ----- subscriptions, in the order a JavaScript object keeps its keys -----

  type Subs = seq<(string, seq<Json>)>

  /** Keys that are array indices come first, by value. */
  predicate IsIndex(key: string) {
    && 1 <= |key| <= 10
    && (forall c | c in key :: '0' <= c <= '9')
    && (key[0] == '0' ==> |key| == 1)
    && Decimal(key) < 0xffff_ffff
  }

  function Decimal(key: string): int {
    if key == "" then 0 else Decimal(key[..|key| - 1]) * 10 + (key[|key| - 1] as int - '0' as int)
  }

  predicate KeyBefore(a: string, b: string) {
    IsIndex(a) && (!IsIndex(b) || Decimal(a) < Decimal(b))
  }

  /** Assigning an object this property sets its prototype and adds no key. */
  const PROTO := "__proto__"

  /** The other properties every object inherits. */
  const INHERITED: set<string> := {"constructor", "hasOwnProperty", "isPrototypeOf", "propertyIsEnumerable",
                                   "toLocaleString", "toString", "valueOf", "__defineGetter__",
                                   "__defineSetter__", "__lookupGetter__", "__lookupSetter__"}

  predicate Inherited(key: string) {
    key == PROTO || key in INHERITED
  }

  /** `key in subs`. */
  predicate HasProperty(subs: Subs, key: string) {
    Find(subs, key).Some? || Inherited(key)
  }

  /** `subs[key] = filters`. */
  function Assign(subs: Subs, key: string, filters: seq<Json>): Subs {
    if key == PROTO then subs
    else if Find(subs, key).Some? then Replace(subs, key, filters)
    else Insert(subs, key, filters)
  }

  function Replace(subs: Subs, key: string, filters: seq<Json>): Subs {
    if subs == [] then []
    else if subs[0].0 == key then [(key, filters)] + subs[1..]
    else [subs[0]] + Replace(subs[1..], key, filters)
  }

  function Insert(subs: Subs, key: string, filters: seq<Json>): Subs {
    if subs == [] || KeyBefore(key, subs[0].0) then [(key, filters)] + subs
    else [subs[0]] + Insert(subs[1..], key, filters)
  }

  /** `delete subs[key]`. */
  function Delete(subs: Subs, key: string): Subs {
    if subs == [] then [] else if subs[0].0 == key then subs[1..] else [subs[0]] + Delete(subs[1..], key)
  }

  /** No two entries under one key. */
  predicate OwnKeys(subs: Subs) {
    subs == [] || (Find(subs[1..], subs[0].0).None? && OwnKeys(subs[1..]))
  }

  /** How many of the keys are not inherited names. */
  function Plain(subs: Subs): nat {
    if subs == [] then 0 else (if Inherited(subs[0].0) then 0 else 1) + Plain(subs[1..])
  }

  lemma {:induction false} ReplaceFinds(subs: Subs, key: string, filters: seq<Json>, other: string)
    ensures Find(Replace(subs, key, filters), other) ==
            if other == key && Find(subs, key).Some? then Some(filters) else Find(subs, other)
  {
    if subs != [] && subs[0].0 != key {
      ReplaceFinds(subs[1..], key, filters, other);
      assert Replace(subs, key, filters)[1..] == Replace(subs[1..], key, filters);
    }
  }

  lemma {:induction false} ReplaceKeeps(subs: Subs, key: string, filters: seq<Json>)
    requires OwnKeys(subs)
    ensures var t := Replace(subs, key, filters);
            OwnKeys(t) && |t| == |subs| && Plain(t) == Plain(subs)
  {
    hide Inherited;
    if subs != [] {
      var t := Replace(subs, key, filters);
      if subs[0].0 == key {
        assert t[1..] == subs[1..];
      } else {
        ReplaceKeeps(subs[1..], key, filters);
        ReplaceFinds(subs[1..], key, filters, subs[0].0);
        assert t[1..] == Replace(subs[1..], key, filters);
      }
    }
  }

  lemma {:induction false} InsertFinds(subs: Subs, key: string, filters: seq<Json>, other: string)
    requires Find(subs, key).None?
    ensures Find(Insert(subs, key, filters), other) == if other == key then Some(filters) else Find(subs, other)
  {
    hide KeyBefore;
    var t := Insert(subs, key, filters);
    if subs == [] || KeyBefore(key, subs[0].0) {
      assert t[1..] == subs;
    } else {
      InsertFinds(subs[1..], key, filters, other);
      assert t[1..] == Insert(subs[1..], key, filters);
    }
  }

  lemma {:induction false} InsertAdds(subs: Subs, key: string, filters: seq<Json>)
    requires Find(subs, key).None? && OwnKeys(subs)
    ensures var t := Insert(subs, key, filters);
            OwnKeys(t) && |t| == |subs| + 1 && Plain(t) == Plain(subs) + if Inherited(key) then 0 else 1
  {
    hide KeyBefore, Inherited;
    var t := Insert(subs, key, filters);
    if subs == [] || KeyBefore(key, subs[0].0) {
      assert t[1..] == subs;
    } else {
      InsertAdds(subs[1..], key, filters);
      InsertFinds(subs[1..], key, filters, subs[0].0);
      assert t[1..] == Insert(subs[1..], key, filters);
    }
  }

  lemma {:induction false} DeleteFinds(subs: Subs, key: string, other: string)
    requires OwnKeys(subs)
    ensures Find(Delete(subs, key), other) == if other == key then None else Find(subs, other)
  {
    if subs != [] && subs[0].0 != key {
      DeleteFinds(subs[1..], key, other);
      assert Delete(subs, key)[1..] == Delete(subs[1..], key);
    }
  }

  lemma {:induction false} DeleteRemoves(subs: Subs, key: string)
    requires OwnKeys(subs)
    ensures var t := Delete(subs, key);
            OwnKeys(t) && |t| <= |subs| && Plain(t) <= Plain(subs)
  {
    hide Inherited;
    if subs != [] && subs[0].0 != key {
      DeleteRemoves(subs[1..], key);
      DeleteFinds(subs[1..], key, subs[0].0);
      assert Delete(subs, key)[1..] == Delete(subs[1..], key);
    }
  }

  lemma AssignFinds(subs: Subs, key: string, filters: seq<Json>, other: string)
    ensures Find(Assign(subs, key, filters), other) ==
            if other == key && key != PROTO then Some(filters) else Find(subs, other)
  {
    hide Find, Replace, Insert;
    if Find(subs, key).Some? {
      ReplaceFinds(subs, key, filters, other);
    } else {
      InsertFinds(subs, key, filters, other);
    }
  }

  // ----- the relay's steps -----

  /** Connected sockets in the order the runtime lists them, and each one's attachment. */
  datatype State = State(sockets: seq<SocketId>, subs: map<SocketId, Subs>)

  /** `filters.some((f) => matches(f, event))`: what the first filter that does not just fail to match gives. */
  function Any(filters: seq<Json>, e: Json): Verdict {
    if filters == [] then No
    else if Matches(filters[0], e).No? then Any(filters[1..], e)
    else Matches(filters[0], e)
  }

  datatype Search = Found(sub: string) | Nowhere | Crash

  /** The first subscription, in key order, with a filter that matches, unless matching throws before. */
  function First(subs: Subs, e: Json): Search {
    if subs == [] then Nowhere
    else match Any(subs[0].1, e)
      case Yes => Found(subs[0].0)
      case No => First(subs[1..], e)
      case Throws => Crash
  }

  datatype Outcome = Outcome(frames: seq<(SocketId, Frame)>, crashed: bool)

  function FanOut(peers: seq<SocketId>, subs: map<SocketId, Subs>, from: SocketId, e: Json): Outcome
    requires forall p | p in peers :: p in subs
  {
    if peers == [] then Outcome([], false)
    else if peers[0] == from then FanOut(peers[1..], subs, from, e)
    else match First(subs[peers[0]], e)
      case Crash => Outcome([], true)
      case Nowhere => FanOut(peers[1..], subs, from, e)
      case Found(sub) =>
        var rest := FanOut(peers[1..], subs, from, e);
        Outcome([(peers[0], EventFrame(sub, e))] + rest.frames, rest.crashed)
  }

  lemma FanOutOne(peers: seq<SocketId>, i: nat, subs: map<SocketId, Subs>, from: SocketId, e: Json)
    requires i < |peers| && forall p | p in peers :: p in subs
    ensures var here, rest := FanOut(peers[i..], subs, from, e), FanOut(peers[i + 1..], subs, from, e);
            if peers[i] == from then here == rest
            else match First(subs[peers[i]], e)
              case Crash => here == Outcome([], true)
              case Nowhere => here == rest
              case Found(sub) => here == Outcome([(peers[i], EventFrame(sub, e))] + rest.frames, rest.crashed)
  {
    hide First;
    assert peers[i..][0] == peers[i] && peers[i..][1..] == peers[i + 1..];
  }

  predicate Less(x: Numeric, y: real) {
    match x
    case NaN => false
    case Finite(v) => v < y
    case Infinite(positive) => !positive
  }

  predicate AtLeast(x: Numeric, y: real) {
    match x
    case NaN => false
    case Finite(v) => v >= y
    case Infinite(positive) => positive
  }

  /** The guard on events: whether one is fanned out. */
  function Guard(e: Option<Json>): (r: Verdict)
    ensures r.Yes? ==> Truthy(e)
  {
    if !Truthy(e) then No
    else match Primitive(Prop(e.value, "kind"))
      case Fails => Throws
      case Becomes(_, kind) => Decided(!Less(kind, 20000.0) && !AtLeast(kind, 30000.0))
  }

  predicate Ephemeral(e: Json) {
    var kind := Prop(e, "kind");
    kind.Some? && kind.value.Number? && kind.value.value.Finite? && 20000.0 <= kind.value.value.value < 30000.0
  }

  /** `event?.id ?? ""`. */
  function IdOf(e: Option<Json>): Json {
    var id := if e.Some? then Prop(e.value, "id") else None;
    if id.None? || id.value.Null? then Text("", Finite(0.0)) else id.value
  }

  predicate Distinct(peers: seq<SocketId>) {
    peers == [] || (peers[0] !in peers[1..] && Distinct(peers[1..]))
  }

  predicate Good(s: State) {
    && (forall p | p in s.sockets :: p in s.subs)
    && Distinct(s.sockets)
    && (forall p | p in s.subs :: OwnKeys(s.subs[p]) && Plain(s.subs[p]) <= MAX_SUBS_PER_CONN
                                  && Find(s.subs[p], PROTO).None?)
  }

  predicate Enabled(s: State, a: Action) {
    Good(s) && (if a.Connect? then a.who !in s.sockets else a.who in s.sockets)
  }

  function Without(peers: seq<SocketId>, p: SocketId): (r: seq<SocketId>)
    ensures forall q :: q in r <==> q in peers && q != p
    ensures Distinct(peers) ==> Distinct(r)
  {
    if peers == [] then []
    else
      var rest := Without(peers[1..], p);
      assert peers == [peers[0]] + peers[1..];
      if peers[0] == p then rest else assert ([peers[0]] + rest)[1..] == rest; [peers[0]] + rest
  }

  predicate Accepts(subs: Subs, id: Option<Json>) {
    Primitive(id).Becomes? && (HasProperty(subs, Primitive(id).text) || |subs| < MAX_SUBS_PER_CONN)
  }

  function Offer(s: State, from: SocketId, e: Json): seq<(SocketId, Frame)>
    requires Good(s)
  {
    var out := FanOut(s.sockets, s.subs, from, e);
    out.frames + if out.crashed then [] else [(from, Ok(IdOf(Some(e)), true))]
  }

  /** What one step sends, to whom, in order. */
  function Sends(s: State, a: Action): seq<(SocketId, Frame)>
    requires Enabled(s, a)
  {
    if !a.Message? then []
    else match a.msg
      case Ping => [(a.who, Pong)]
      case Req(id, _) => if Accepts(s.subs[a.who], id) then [(a.who, Eose(id))] else []
      case Publish(e) =>
        (match Guard(e)
         case Yes => Offer(s, a.who, e.value)
         case No => [(a.who, Ok(IdOf(e), false))]
         case Throws => [])
      case _ => []
  }

  function Next(s: State, a: Action): State
    requires Enabled(s, a)
  {
    match a
    case Connect(p) => State(s.sockets + [p], s.subs[p := []])
    case Leave(p) => State(Without(s.sockets, p), s.subs - {p})
    case Message(p, Req(id, filters)) =>
      if Accepts(s.subs[p], id) then s.(subs := s.subs[p := Assign(s.subs[p], Primitive(id).text, filters)]) else s
    case Message(p, Close(id)) =>
      if Primitive(id).Becomes? then s.(subs := s.subs[p := Delete(s.subs[p], Primitive(id).text)]) else s
    case _ => s
  }

  class Hub {
    var sockets: seq<SocketId>
    var attachments: map<SocketId, Subs>
    var sent: seq<(SocketId, Frame)>

    function Now(): State
      reads this
    {
      State(sockets, attachments)
    }

    constructor ()
      ensures Now() == State([], map[]) && sent == []
    {
      sockets, attachments, sent := [], map[], [];
    }

    method AnyFilter(filters: seq<Json>, e: Json) returns (r: Verdict)
      ensures r == Any(filters, e)
    {
      hide Matches;
      for i := 0 to |filters|
        invariant Any(filters[i..], e) == Any(filters, e)
      {
        assert filters[i..][0] == filters[i] && filters[i..][1..] == filters[i + 1..];
        r := FilterMatches(filters[i], e);
        if r != No {
          return;
        }
      }
      r := No;
    }

    method FirstMatching(subs: Subs, e: Json) returns (r: Search)
      ensures r == First(subs, e)
    {
      hide Any;
      for i := 0 to |subs|
        invariant First(subs[i..], e) == First(subs, e)
      {
        assert subs[i..][0] == subs[i] && subs[i..][1..] == subs[i + 1..];
        var hit := AnyFilter(subs[i].1, e);
        match hit {
          case Yes => return Found(subs[i].0);
          case Throws => return Crash;
          case No =>
        }
      }
      r := Nowhere;
    }

    method Send(to: SocketId, f: Frame)
      modifies `sent
      ensures sent == old(sent) + [(to, f)]
    {
      sent := sent + [(to, f)];
    }

    /** The loop over the other sockets; it is left at the first filter on which matching throws. */
    method FanOutEvent(ws: SocketId, e: Json) returns (crashed: bool)
      requires Good(Now())
      modifies `sent
      ensures sent == old(sent) + FanOut(sockets, attachments, ws, e).frames
      ensures crashed == FanOut(sockets, attachments, ws, e).crashed
    {
      hide First, Good, FanOut;
      assert forall p | p in sockets :: p in attachments by { PeersAreAttached(Now()); }
      ghost var all := FanOut(sockets, attachments, ws, e);
      NoPeersLeft(attachments, ws, e);
      for i := 0 to |sockets|
        invariant sent + FanOut(sockets[i..], attachments, ws, e).frames == old(sent) + all.frames
        invariant FanOut(sockets[i..], attachments, ws, e).crashed == all.crashed
      {
        var peer := sockets[i];
        FanOutOne(sockets, i, attachments, ws, e);
        if peer != ws {
          var found := FirstMatching(attachments[peer], e);
          match found {
            case Crash =>
              assert sent + [] == sent;
              return true;
            case Nowhere =>
            case Found(sub) =>
              Send(peer, EventFrame(sub, e));
          }
        }
      }
      assert sent + [] == sent;
      crashed := false;
    }

    method WebSocketMessage(ws: SocketId, msg: Incoming)
      requires Enabled(Now(), Message(ws, msg))
      modifies this
      ensures Now() == Next(old(Now()), Message(ws, msg))
      ensures sent == old(sent) + Sends(old(Now()), Message(ws, msg))
    {
      hide FanOut, Find, Inherited, Assign, Delete;
      match msg {
        case TooLong =>
        case NotUnderstood =>
        case Ping => Send(ws, Pong);
        case Req(id, filters) =>
          var subs := attachments[ws];
          if Primitive(id).Fails? {
            return;
          }
          if !HasProperty(subs, Primitive(id).text) && |subs| >= MAX_SUBS_PER_CONN {
            return;
          }
          attachments := attachments[ws := Assign(subs, Primitive(id).text, filters)];
          Send(ws, Eose(id));
        case Close(id) =>
          if Primitive(id).Fails? {
            return;
          }
          attachments := attachments[ws := Delete(attachments[ws], Primitive(id).text)];
        case Publish(event) =>
          var passes := Guard(event);
          if passes.Throws? {
            return;
          }
          if passes.No? {
            Send(ws, Ok(IdOf(event), false));
            return;
          }
          var crashed := FanOutEvent(ws, event.value);
          if !crashed {
            Send(ws, Ok(IdOf(event), true));
          }
      }
    }
  }

  lemma NoPeersLeft(subs: map<SocketId, Subs>, from: SocketId, e: Json)
    ensures FanOut([], subs, from, e) == Outcome([], false)
  {
  }

  lemma PeersAreAttached(s: State)
    requires Good(s)
    ensures forall p | p in s.sockets :: p in s.subs
  {
  }

  // ----- what the searches find -----

  /** The `j`-th filter is the first that does not just fail to match, and it gives `v`. */
  predicate Settles(filters: seq<Json>, e: Json, j: nat, v: Verdict) {
    j < |filters| && Matches(filters[j], e) == v && v != No && forall k | 0 <= k < j :: Matches(filters[k], e) == No
  }

  lemma {:induction false} AnyExactly(filters: seq<Json>, e: Json, v: Verdict)
    requires v != No
    ensures Any(filters, e) == v <==> exists j: nat :: Settles(filters, e, j, v)
  {
    hide Matches;
    if filters != [] {
      AnyExactly(filters[1..], e, v);
      if Matches(filters[0], e) == v {
        assert Settles(filters, e, 0, v);
      } else if Matches(filters[0], e) == No {
        if Any(filters, e) == v {
          var j: nat :| Settles(filters[1..], e, j, v);
          assert Settles(filters, e, j + 1, v);
        }
        if j: nat :| Settles(filters, e, j, v) {
          assert Settles(filters[1..], e, j - 1, v);
        }
      }
    }
  }

  /** The `i`-th subscription is the first with a filter that does not just fail to match. */
  predicate Reaches(subs: Subs, e: Json, i: nat, v: Verdict) {
    i < |subs| && Any(subs[i].1, e) == v && v != No && forall k | 0 <= k < i :: Any(subs[k].1, e) == No
  }

  function Result(subs: Subs, i: nat, v: Verdict): Search
    requires i < |subs|
  {
    if v.Yes? then Found(subs[i].0) else Crash
  }

  /** Whichever subscription settles the search settles it for good; without one, nothing is found. */
  lemma {:induction false} FirstExactly(subs: Subs, e: Json)
    ensures forall i: nat, v | Reaches(subs, e, i, v) :: First(subs, e) == Result(subs, i, v)
    ensures !First(subs, e).Nowhere? <==> exists i: nat, v :: Reaches(subs, e, i, v)
  {
    hide Any;
    if subs != [] {
      FirstExactly(subs[1..], e);
      var here := Any(subs[0].1, e);
      forall i: nat, v | Reaches(subs, e, i, v)
        ensures First(subs, e) == Result(subs, i, v)
      {
        if i > 0 {
          assert Reaches(subs[1..], e, i - 1, v);
        }
      }
      if here != No {
        assert Reaches(subs, e, 0, here);
      } else if !First(subs, e).Nowhere? {
        var i: nat, v :| Reaches(subs[1..], e, i, v);
        assert Reaches(subs, e, i + 1, v);
      }
    }
  }

  // ----- what is held -----

  function InheritedKeys(subs: Subs): set<string> {
    if subs == [] then {} else (if Inherited(subs[0].0) then {subs[0].0} else {}) + InheritedKeys(subs[1..])
  }

  lemma {:induction false} InheritedKeysAreFound(subs: Subs, key: string)
    ensures key in InheritedKeys(subs) <==> Inherited(key) && Find(subs, key).Some?
  {
    hide Inherited;
    if subs != [] {
      InheritedKeysAreFound(subs[1..], key);
    }
  }

  lemma {:induction false} PlainAndInherited(subs: Subs)
    requires OwnKeys(subs)
    ensures |subs| == Plain(subs) + |InheritedKeys(subs)|
  {
    hide Inherited, Find;
    if subs != [] {
      PlainAndInherited(subs[1..]);
      InheritedKeysAreFound(subs[1..], subs[0].0);
    }
  }

  lemma SubsetSize(a: set<string>, b: set<string>)
    requires a <= b
    ensures |a| <= |b|
  {
    assert b == a + (b - a);
  }

  /** At most eight subscriptions whose ids are no inherited names; with those, at most nineteen. */
  lemma AtMostNineteen(subs: Subs)
    requires OwnKeys(subs) && Plain(subs) <= MAX_SUBS_PER_CONN && Find(subs, PROTO).None?
    ensures |subs| <= MAX_SUBS_PER_CONN + 11
    ensures |subs| > MAX_SUBS_PER_CONN ==> exists key :: key in INHERITED && Find(subs, key).Some?
  {
    hide Find, OwnKeys, Plain;
    PlainAndInherited(subs);
    forall key
      ensures key in InheritedKeys(subs) <==> key in INHERITED && Find(subs, key).Some?
    {
      InheritedKeysAreFound(subs, key);
    }
    SubsetSize(InheritedKeys(subs), INHERITED);
    assert |INHERITED| <= 11 by { ElevenNames(); }
    if |subs| > MAX_SUBS_PER_CONN {
      var key :| key in InheritedKeys(subs);
    }
  }

  lemma ElevenNames()
    ensures |INHERITED| <= 11
  {
  }

  lemma AssignIsGood(subs: Subs, key: string, filters: seq<Json>)
    requires OwnKeys(subs) && Plain(subs) <= MAX_SUBS_PER_CONN && Find(subs, PROTO).None?
    requires HasProperty(subs, key) || |subs| < MAX_SUBS_PER_CONN
    ensures var t := Assign(subs, key, filters);
            OwnKeys(t) && Plain(t) <= MAX_SUBS_PER_CONN && Find(t, PROTO).None?
  {
    hide OwnKeys, Find, Inherited, Insert, Replace, Plain;
    AssignFinds(subs, key, filters, PROTO);
    ReplaceKeeps(subs, key, filters);
    PlainAndInherited(subs);
    if Find(subs, key).None? {
      InsertAdds(subs, key, filters);
    }
  }

  lemma {:induction false} JoinedIsDistinct(peers: seq<SocketId>, p: SocketId)
    requires Distinct(peers) && p !in peers
    ensures Distinct(peers + [p])
  {
    if peers != [] {
      JoinedIsDistinct(peers[1..], p);
      assert (peers + [p])[1..] == peers[1..] + [p];
    }
  }

  lemma StepIsGood(s: State, a: Action)
    requires Enabled(s, a)
    ensures Good(Next(s, a))
  {
    hide Find, Assign, Delete, OwnKeys, Plain, Distinct, Inherited;
    match a
    case Connect(p) =>
      JoinedIsDistinct(s.sockets, p);
      NothingHeld();
    case Message(p, Req(id, filters)) =>
      if Accepts(s.subs[p], id) {
        AssignIsGood(s.subs[p], Primitive(id).text, filters);
      }
    case Message(p, Close(id)) =>
      if Primitive(id).Becomes? {
        DeleteRemoves(s.subs[p], Primitive(id).text);
        DeleteFinds(s.subs[p], Primitive(id).text, PROTO);
      }
    case _ =>
  }

  lemma NothingHeld()
    ensures OwnKeys([]) && Plain([]) == 0 && Find<seq<Json>>([], PROTO).None?
  {
  }
}
