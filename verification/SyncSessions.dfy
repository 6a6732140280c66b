/** Starting and stopping the sync sessions: messages arrive whenever they like, each handler suspends
    at its awaits, and a promise chain is all that keeps them apart. */
module SyncSessions {
  import opened Wrappers

  datatype Opts = Opts(relayUrl: string, iceUrl: Option<string>, groupKey: string, devicePub: string,
                       devicePriv: string)

  datatype Key = Key(relayUrl: string, iceUrl: string, groupKey: string, devicePub: string)

  function KeyOf(o: Opts): Key {
    Key(o.relayUrl, if o.iceUrl.Some? then o.iceUrl.value else "", o.groupKey, o.devicePub)
  }

  type Session = nat

  /** The module's variables, with every session ever started (and what it was started with) and every
      call of `stop`, in order. */
  datatype Memory = Memory(sync: Option<Session>, link: Option<Session>, key: Option<Key>, started: seq<Opts>,
                           stops: seq<Session>)

  const AT_LOAD := Memory(None, None, None, [], [])

  datatype Msg = RosterSync(opts: Opts) | Disconnect

  /** How the three awaits of a start turn out, when it gets to them. */
  datatype Luck = Luck(wasm: bool, first: bool, second: bool)

  // ----- one handler, uninterrupted -----

  function Held(s: Option<Session>): seq<Session> {
    if s.Some? then [s.value] else []
  }

  function Stopped(m: Memory): Memory {
    Memory(None, None, None, m.started, m.stops + Held(m.sync) + Held(m.link))
  }

  predicate Running(m: Memory, o: Opts) {
    m.sync.Some? && m.link.Some? && m.key == Some(KeyOf(o))
  }

  function SyncUp(m: Memory, o: Opts): Memory {
    m.(sync := Some(|m.started|), started := m.started + [o])
  }

  function LinkUp(m: Memory, o: Opts): Memory {
    m.(link := Some(|m.started|), started := m.started + [o], key := Some(KeyOf(o)))
  }

  function Handled(m: Memory, msg: Msg, luck: Luck): Memory {
    if msg.Disconnect? then Stopped(m)
    else if Running(m, msg.opts) || !luck.wasm then m
    else if !luck.first then Stopped(m)
    else if !luck.second then SyncUp(Stopped(m), msg.opts)
    else LinkUp(SyncUp(Stopped(m), msg.opts), msg.opts)
  }

  /** The sequential meaning of a message history. */
  function Folded(msgs: seq<Msg>, luck: seq<Luck>): Memory
    requires |luck| == |msgs|
    decreases |msgs|
  {
    if msgs == [] then AT_LOAD
    else
      var n := |msgs| - 1;
      Handled(Folded(msgs[..n], luck[..n]), msgs[n], luck[n])
  }

  class SyncHost {
    var syncSession: Option<Session>
    var linkSyncSession: Option<Session>
    var syncConfigKey: Option<Key>
    var started: seq<Opts>
    var stops: seq<Session>

    constructor ()
      ensures Mem() == AT_LOAD
    {
      syncSession, linkSyncSession, syncConfigKey, started, stops := None, None, None, [], [];
    }

    function Mem(): Memory
      reads this
    {
      Memory(syncSession, linkSyncSession, syncConfigKey, started, stops)
    }

    method StopSyncSessions()
      modifies this
      ensures Mem() == Stopped(old(Mem()))
    {
      if syncSession.Some? {
        stops := stops + [syncSession.value];
      }
      syncSession := None;
      if linkSyncSession.Some? {
        stops := stops + [linkSyncSession.value];
      }
      linkSyncSession := None;
      syncConfigKey := None;
    }

    /** A successful `startRosterSync`. */
    method StartRosterSync(o: Opts) returns (s: Session)
      modifies `started
      ensures s == |old(started)| && started == old(started) + [o]
    {
      s := |started|;
      started := started + [o];
    }

    method StartSyncSessions(o: Opts, luck: Luck)
      modifies this
      ensures Mem() == Handled(old(Mem()), RosterSync(o), luck)
    {
      var key := KeyOf(o);
      if syncSession.Some? && linkSyncSession.Some? && syncConfigKey == Some(key) {
        return;
      }
      if !luck.wasm {
        return;
      }
      StopSyncSessions();
      if !luck.first {
        return;
      }
      var first := StartRosterSync(o);
      syncSession := Some(first);
      if !luck.second {
        return;
      }
      var second := StartRosterSync(o);
      linkSyncSession := Some(second);
      syncConfigKey := Some(key);
    }
  }

  // ----- all handlers, interleaved -----

  /** How far a handler has come. It waits until the one that was the end of the chain when it arrived
      has settled, whether well or badly. */
  datatype Pc = Waiting | AwaitWasm | AwaitFirst | AwaitSecond | Settled(luck: Luck)

  /** Handlers in the order of arrival. */
  datatype State = State(mem: Memory, msgs: seq<Msg>, pcs: seq<Pc>)

  datatype Action = Arrive(msg: Msg) | Resume(op: nat, ok: bool)

  predicate Enabled(s: State, a: Action) {
    match a
    case Arrive(_) => true
    case Resume(i, _) =>
      && i < |s.pcs| == |s.msgs| && !s.pcs[i].Settled?
      && (s.pcs[i].Waiting? && i > 0 ==> s.pcs[i - 1].Settled?)
  }

  /** What one handler does up to its next await. */
  function Segment(m: Memory, msg: Msg, pc: Pc, ok: bool): (Memory, Pc) {
    match (msg, pc)
    case (_, Settled(_)) => (m, pc)
    case (Disconnect, _) => (Stopped(m), Settled(Luck(true, true, true)))
    case (RosterSync(o), Waiting) => (m, if Running(m, o) then Settled(Luck(true, true, true)) else AwaitWasm)
    case (RosterSync(o), AwaitWasm) => if ok then (Stopped(m), AwaitFirst) else (m, Settled(Luck(false, true, true)))
    case (RosterSync(o), AwaitFirst) =>
      if ok then (SyncUp(m, o), AwaitSecond) else (m, Settled(Luck(true, false, true)))
    case (RosterSync(o), AwaitSecond) =>
      if ok then (LinkUp(m, o), Settled(Luck(true, true, true))) else (m, Settled(Luck(true, true, false)))
  }

  function Next(s: State, a: Action): State
    requires Enabled(s, a)
  {
    match a
    case Arrive(msg) => State(s.mem, s.msgs + [msg], s.pcs + [Waiting])
    case Resume(i, ok) =>
      var (m, pc) := Segment(s.mem, s.msgs[i], s.pcs[i], ok);
      State(m, s.msgs, s.pcs[i := pc])
  }

  predicate Legal(run: seq<Action>)
    decreases |run|, 0
  {
    run == [] || (Legal(run[..|run| - 1]) && Enabled(After(run[..|run| - 1]), run[|run| - 1]))
  }

  /** The state a run of the host leads to. */
  function After(run: seq<Action>): State
    requires Legal(run)
    decreases |run|, 1
  {
    if run == [] then State(AT_LOAD, [], []) else Next(After(run[..|run| - 1]), run[|run| - 1])
  }

  function Arrivals(run: seq<Action>): seq<Msg> {
    if run == [] then []
    else Arrivals(run[..|run| - 1]) + (if run[|run| - 1].Arrive? then [run[|run| - 1].msg] else [])
  }

  // ----- one at a time, in the order of arrival -----

  function Lucks(pcs: seq<Pc>): (l: seq<Luck>)
    ensures |l| == |pcs|
  {
    seq(|pcs|, i requires 0 <= i < |pcs| => if pcs[i].Settled? then pcs[i].luck else Luck(true, true, true))
  }

  /** Memory while a handler that found `m` stands at `pc`. */
  predicate Midway(m: Memory, msg: Msg, pc: Pc, now: Memory) {
    match pc
    case Waiting => now == m
    case AwaitWasm => now == m && msg.RosterSync? && !Running(m, msg.opts)
    case AwaitFirst => now == Stopped(m) && msg.RosterSync? && !Running(m, msg.opts)
    case AwaitSecond => msg.RosterSync? && now == SyncUp(Stopped(m), msg.opts) && !Running(m, msg.opts)
    case Settled(luck) => now == Handled(m, msg, luck)
  }

  /** The first `n` handlers have settled, the next may be midway, all later ones wait; memory is what
      handling the first `n` messages one after the other gives, plus what the next has done so far. */
  predicate Serial(s: State, n: nat) {
    && |s.pcs| == |s.msgs| && n <= |s.pcs|
    && (forall i | 0 <= i < n :: s.pcs[i].Settled?)
    && (forall i | n < i < |s.pcs| :: s.pcs[i].Waiting?)
    && var m := Folded(s.msgs[..n], Lucks(s.pcs[..n]));
       if n < |s.pcs| then !s.pcs[n].Settled? && Midway(m, s.msgs[n], s.pcs[n], s.mem) else s.mem == m
  }

  lemma FoldedSnoc(s: State, n: nat)
    requires |s.pcs| == |s.msgs| && n < |s.pcs| && s.pcs[n].Settled?
    ensures Folded(s.msgs[..n + 1], Lucks(s.pcs[..n + 1]))
              == Handled(Folded(s.msgs[..n], Lucks(s.pcs[..n])), s.msgs[n], s.pcs[n].luck)
  {
    var msgs, luck := s.msgs[..n + 1], Lucks(s.pcs[..n + 1]);
    assert msgs[..n] == s.msgs[..n] && luck[..n] == Lucks(s.pcs[..n]);
  }

  lemma SegmentIsHandling(m: Memory, msg: Msg, pc: Pc, now: Memory, ok: bool)
    requires Midway(m, msg, pc, now)
    ensures Midway(m, msg, Segment(now, msg, pc, ok).1, Segment(now, msg, pc, ok).0)
    ensures Segment(now, msg, pc, ok).1 != Waiting || pc.Waiting?
  {
  }

  lemma ResumeIsSerial(s: State, n: nat, i: nat, ok: bool) returns (k: nat)
    requires Serial(s, n) && Enabled(s, Resume(i, ok))
    ensures i == n && Serial(Next(s, Resume(i, ok)), k)
  {
    hide Folded, Segment, Midway, Handled;
    assert i == n;
    var t := Next(s, Resume(i, ok));
    SegmentIsHandling(Folded(s.msgs[..n], Lucks(s.pcs[..n])), s.msgs[n], s.pcs[n], s.mem, ok);
    assert t.msgs[..n] == s.msgs[..n] && t.pcs[..n] == s.pcs[..n];
    k := n;
    if t.pcs[n].Settled? {
      k := n + 1;
      FoldedSnoc(t, n);
      SettledMidway(Folded(s.msgs[..n], Lucks(s.pcs[..n])), t.msgs[n], t.pcs[n], t.mem);
      if k < |t.pcs| {
        WaitingMidway(t.mem, t.msgs[k]);
      }
    }
  }

  lemma SettledMidway(m: Memory, msg: Msg, pc: Pc, now: Memory)
    requires pc.Settled? && Midway(m, msg, pc, now)
    ensures now == Handled(m, msg, pc.luck)
  {
  }

  lemma WaitingMidway(m: Memory, msg: Msg)
    ensures Midway(m, msg, Waiting, m)
  {
  }

  lemma ArrivalIsSerial(s: State, n: nat, msg: Msg)
    requires Serial(s, n)
    ensures Serial(Next(s, Arrive(msg)), n)
  {
    hide Folded;
    var t := Next(s, Arrive(msg));
    assert t.msgs[..n] == s.msgs[..n] && t.pcs[..n] == s.pcs[..n];
  }

  /** However arrivals and completions interleave, handlers run one at a time in the order of arrival. */
  lemma {:induction false} HandlersAreSerial(run: seq<Action>) returns (n: nat)
    requires Legal(run)
    ensures Serial(After(run), n) && After(run).msgs == Arrivals(run)
    decreases |run|
  {
    hide Serial, Enabled, Segment;
    if run == [] {
      StartIsSerial();
      return 0;
    }
    var before, a := run[..|run| - 1], run[|run| - 1];
    n := HandlersAreSerial(before);
    NextKeepsMsgs(After(before), a);
    match a
    case Arrive(msg) => ArrivalIsSerial(After(before), n, msg);
    case Resume(i, ok) => n := ResumeIsSerial(After(before), n, i, ok);
  }

  lemma StartIsSerial()
    ensures Serial(State(AT_LOAD, [], []), 0)
  {
    var s := State(AT_LOAD, [], []);
    assert s.msgs[..0] == [];
  }

  lemma NextKeepsMsgs(s: State, a: Action)
    requires Enabled(s, a)
    ensures Next(s, a).msgs == s.msgs + (if a.Arrive? then [a.msg] else [])
  {
  }

  predicate AllSettled(s: State) {
    forall i | 0 <= i < |s.pcs| :: s.pcs[i].Settled?
  }

  /** Once every handler has settled, memory is the fold of the messages in arrival order. */
  lemma ResultIsTheFold(run: seq<Action>)
    requires Legal(run) && AllSettled(After(run))
    ensures var s := After(run);
            |s.pcs| == |Arrivals(run)| && s.mem == Folded(Arrivals(run), Lucks(s.pcs))
  {
    hide Folded, After;
    var n := HandlersAreSerial(run);
    var s := After(run);
    assert s.msgs[..n] == s.msgs && s.pcs[..n] == s.pcs;
  }

  /** While a handler has not settled, one of them can go on: none waits for ever for the others. */
  lemma SomeHandlerCanGoOn(run: seq<Action>, ok: bool) returns (i: nat)
    requires Legal(run) && !AllSettled(After(run))
    ensures Enabled(After(run), Resume(i, ok))
  {
    hide Folded, After, Midway;
    i := HandlersAreSerial(run);
  }

  // ----- every session accounted for -----

  function LiveCount(m: Memory, s: Session): nat {
    (if m.sync == Some(s) then 1 else 0) + (if m.link == Some(s) then 1 else 0)
  }

  /** Every session started is live once or has been stopped once, and never both; a recorded key means
      two live sessions, both started under it. */
  ghost predicate Accounted(m: Memory) {
    && (forall s: Session | s < |m.started| :: multiset(m.stops)[s] + LiveCount(m, s) == 1)
    && (forall s: Session | s >= |m.started| :: multiset(m.stops)[s] + LiveCount(m, s) == 0)
    && (m.key.Some? ==> m.sync.Some? && m.link.Some?
                        && m.sync.value < |m.started| && KeyOf(m.started[m.sync.value]) == m.key.value
                        && m.link.value < |m.started| && KeyOf(m.started[m.link.value]) == m.key.value)
  }

  lemma HeldCounts(o: Option<Session>, s: Session)
    ensures multiset(Held(o))[s] == if o == Some(s) then 1 else 0
  {
  }

  lemma StoppedIsAccounted(m: Memory)
    requires Accounted(m)
    ensures Accounted(Stopped(m))
  {
    hide Held;
    var t := Stopped(m);
    assert multiset(t.stops) == multiset(m.stops) + multiset(Held(m.sync)) + multiset(Held(m.link));
    forall s: Session
      ensures multiset(t.stops)[s] == multiset(m.stops)[s] + LiveCount(m, s) && LiveCount(t, s) == 0
    {
      HeldCounts(m.sync, s);
      HeldCounts(m.link, s);
    }
  }

  lemma SyncUpIsAccounted(m: Memory, o: Opts)
    requires Accounted(m) && m.sync == None && m.key == None
    ensures Accounted(SyncUp(m, o))
  {
  }

  lemma LinkUpIsAccounted(m: Memory, o: Opts)
    requires Accounted(m) && m.link == None && m.sync.Some? && m.key == None
    requires m.sync.value < |m.started| && m.started[m.sync.value] == o
    ensures Accounted(LinkUp(m, o))
  {
  }

  lemma SyncUpShape(m: Memory, o: Opts)
    ensures var t := SyncUp(Stopped(m), o);
            t.link == None && t.key == None && t.sync == Some(|m.started|) && t.started == m.started + [o]
  {
  }

  lemma HandledIsAccounted(m: Memory, msg: Msg, luck: Luck)
    requires Accounted(m)
    ensures Accounted(Handled(m, msg, luck))
  {
    hide Accounted;
    StoppedIsAccounted(m);
    if msg.RosterSync? {
      SyncUpIsAccounted(Stopped(m), msg.opts);
      SyncUpShape(m, msg.opts);
      LinkUpIsAccounted(SyncUp(Stopped(m), msg.opts), msg.opts);
    }
  }

  lemma {:induction false} FoldedIsAccounted(msgs: seq<Msg>, luck: seq<Luck>)
    requires |luck| == |msgs|
    ensures Accounted(Folded(msgs, luck))
    decreases |msgs|
  {
    hide Handled, Accounted;
    if msgs == [] {
      LoadIsAccounted();
    } else {
      var n := |msgs| - 1;
      FoldedIsAccounted(msgs[..n], luck[..n]);
      HandledIsAccounted(Folded(msgs[..n], luck[..n]), msgs[n], luck[n]);
    }
  }

  lemma LoadIsAccounted()
    ensures Accounted(AT_LOAD)
  {
  }

  /** At every moment of every run, no session has leaked or been stopped twice, and the key is only
      set while both sessions are live under it. */
  lemma NoSessionLeaks(run: seq<Action>)
    requires Legal(run)
    ensures Accounted(After(run).mem)
  {
    hide Accounted, Handled, Folded, After;
    var n := HandlersAreSerial(run);
    var s := After(run);
    FoldedIsAccounted(s.msgs[..n], Lucks(s.pcs[..n]));
    if n < |s.pcs| {
      MidwayIsAccounted(Folded(s.msgs[..n], Lucks(s.pcs[..n])), s.msgs[n], s.pcs[n], s.mem);
    }
  }

  lemma MidwayIsAccounted(m: Memory, msg: Msg, pc: Pc, now: Memory)
    requires Accounted(m) && Midway(m, msg, pc, now)
    ensures Accounted(now)
  {
    hide Accounted, Handled;
    StoppedIsAccounted(m);
    if msg.RosterSync? {
      SyncUpIsAccounted(Stopped(m), msg.opts);
    }
    if pc.Settled? {
      HandledIsAccounted(m, msg, pc.luck);
    }
  }

  /** Two requests are for the same configuration if they agree on relay, group and device, and on the ICE
      server, where none is as good as an empty one. The private key does not count. */
  lemma KeyTells(o: Opts, p: Opts)
    ensures KeyOf(o) == KeyOf(p) <==>
            (&& o.relayUrl == p.relayUrl && o.groupKey == p.groupKey && o.devicePub == p.devicePub
             && (o.iceUrl == p.iceUrl || (o.iceUrl in {None, Some("")} && p.iceUrl in {None, Some("")})))
  {
  }

  // ----- the order of stops -----

  predicate Increasing(s: seq<Session>) {
    forall i, j | 0 <= i < j < |s| :: s[i] < s[j]
  }

  /** The sessions stopped and then those that are live, in the order they were started. */
  predicate InStartOrder(m: Memory) {
    var all := m.stops + Held(m.sync) + Held(m.link);
    Increasing(all) && forall s | s in all :: s < |m.started|
  }

  lemma IncreasingSnoc(s: seq<Session>, n: Session)
    requires Increasing(s) && forall x | x in s :: x < n
    ensures Increasing(s + [n])
  {
    assert forall i | 0 <= i < |s| :: s[i] in s;
  }

  lemma StoppedInStartOrder(m: Memory)
    requires InStartOrder(m)
    ensures InStartOrder(Stopped(m))
  {
    var t := Stopped(m);
    assert t.stops + Held(t.sync) + Held(t.link) == m.stops + Held(m.sync) + Held(m.link);
  }

  lemma UpInStartOrder(m: Memory, o: Opts)
    requires InStartOrder(m)
    ensures m.sync == None && m.link == None ==> InStartOrder(SyncUp(m, o))
    ensures m.link == None ==> InStartOrder(LinkUp(m, o))
  {
    var n := |m.started|;
    if m.link == None {
      var all := m.stops + Held(m.sync);
      assert all == m.stops + Held(m.sync) + Held(m.link);
      IncreasingSnoc(all, n);
      var u := LinkUp(m, o);
      assert u.stops + Held(u.sync) + Held(u.link) == all + [n];
      if m.sync == None {
        var t := SyncUp(m, o);
        assert t.stops + Held(t.sync) + Held(t.link) == all + [n];
      }
    }
  }

  lemma HandledInStartOrder(m: Memory, msg: Msg, luck: Luck)
    requires InStartOrder(m)
    ensures InStartOrder(Handled(m, msg, luck))
  {
    hide InStartOrder;
    StoppedInStartOrder(m);
    if msg.RosterSync? {
      UpInStartOrder(Stopped(m), msg.opts);
      SyncUpShape(m, msg.opts);
      UpInStartOrder(SyncUp(Stopped(m), msg.opts), msg.opts);
    }
  }

  lemma {:induction false} FoldedInStartOrder(msgs: seq<Msg>, luck: seq<Luck>)
    requires |luck| == |msgs|
    ensures InStartOrder(Folded(msgs, luck))
    decreases |msgs|
  {
    hide InStartOrder, Handled;
    if msgs == [] {
      assert InStartOrder(AT_LOAD) by { LoadInStartOrder(); }
    } else {
      var n := |msgs| - 1;
      FoldedInStartOrder(msgs[..n], luck[..n]);
      HandledInStartOrder(Folded(msgs[..n], luck[..n]), msgs[n], luck[n]);
    }
  }

  lemma LoadInStartOrder()
    ensures InStartOrder(AT_LOAD)
  {
  }

  lemma MidwayInStartOrder(m: Memory, msg: Msg, pc: Pc, now: Memory)
    requires InStartOrder(m) && Midway(m, msg, pc, now)
    ensures InStartOrder(now)
  {
    hide InStartOrder, Handled;
    StoppedInStartOrder(m);
    if msg.RosterSync? {
      UpInStartOrder(Stopped(m), msg.opts);
    }
    if pc.Settled? {
      HandledInStartOrder(m, msg, pc.luck);
    }
  }

  /** At every moment of every run, sessions have been stopped in the order in which they were started, the
      relay's before the local one's, and those still live are the last. */
  lemma StopsFollowStarts(run: seq<Action>)
    requires Legal(run)
    ensures InStartOrder(After(run).mem)
  {
    hide InStartOrder, Handled, Folded, After;
    var n := HandlersAreSerial(run);
    var s := After(run);
    FoldedInStartOrder(s.msgs[..n], Lucks(s.pcs[..n]));
    if n < |s.pcs| {
      MidwayInStartOrder(Folded(s.msgs[..n], Lucks(s.pcs[..n])), s.msgs[n], s.pcs[n], s.mem);
    }
  }

  /** A repeat of the live configuration settles at once and neither starts nor stops a session: its
      key alone tells that both sessions are up. */
  lemma RepeatChangesNothing(run: seq<Action>, i: nat, ok: bool)
    requires Legal(run) && Enabled(After(run), Resume(i, ok))
    requires After(run).pcs[i].Waiting? && After(run).msgs[i].RosterSync?
    requires After(run).mem.key == Some(KeyOf(After(run).msgs[i].opts))
    ensures var t := Next(After(run), Resume(i, ok)); t.mem == After(run).mem && t.pcs[i].Settled?
  {
    hide After;
    NoSessionLeaks(run);
  }

  lemma NoneLive(m: Memory)
    requires Accounted(m) && m.sync == None && m.link == None
    ensures forall s: Session | s < |m.started| :: multiset(m.stops)[s] == 1
  {
    forall s: Session | s < |m.started|
      ensures multiset(m.stops)[s] == 1
    {
      assert LiveCount(m, s) == 0;
    }
  }

  /** A disconnect is not overtaken by the starts before it: when it was the last message and all have
      settled, nothing is live and every session ever started has been stopped exactly once. */
  lemma DisconnectLeavesNothing(run: seq<Action>)
    requires Legal(run) && AllSettled(After(run))
    requires Arrivals(run) != [] && Arrivals(run)[|Arrivals(run)| - 1] == Disconnect
    ensures var m := After(run).mem;
            && m.sync == None && m.link == None && m.key == None
            && forall s: Session | s < |m.started| :: multiset(m.stops)[s] == 1
  {
    hide After, Accounted;
    ResultIsTheFold(run);
    NoSessionLeaks(run);
    NoneLive(After(run).mem);
  }

  // ----- what a failing relay costs -----

  lemma HandledNeedsBoth(m: Memory, o: Opts, luck: Luck)
    requires !Running(m, o) && luck.wasm
    ensures var t := Handled(m, RosterSync(o), luck);
            && (t.link.Some? <==> (luck.first && luck.second))
            && (!luck.first ==> t == Stopped(m))
  {
  }

  lemma StoppedHasNone(m: Memory)
    ensures Stopped(m).sync == None && Stopped(m).link == None
  {
  }

  /** When the last message asks for a sync that is not running yet, and its handler gets the wasm, a local
      session is live in the end if and only if both starts succeed. If the relay's fails, no session is
      live at all: those of before have been stopped, and the local one is not tried. */
  lemma LocalPeerNeedsBoth(run: seq<Action>, n: nat, o: Opts, luck: Luck)
    requires Legal(run) && AllSettled(After(run)) && |Arrivals(run)| == |After(run).pcs| == n + 1
    requires Arrivals(run)[n] == RosterSync(o) && After(run).pcs[n] == Settled(luck) && luck.wasm
    requires !Running(Folded(Arrivals(run)[..n], Lucks(After(run).pcs[..n])), o)
    ensures var m := After(run).mem;
            && (m.link.Some? <==> (luck.first && luck.second))
            && (!luck.first ==> m.sync == None && m.link == None
                                && forall s: Session | s < |m.started| :: multiset(m.stops)[s] == 1)
  {
    hide After, Legal, Arrivals, Running, Folded, Handled, Stopped, Accounted, Serial;
    var s := After(run);
    var k := HandlersAreSerial(run);
    ResultIsTheFold(run);
    NoSessionLeaks(run);
    var before := Folded(s.msgs[..n], Lucks(s.pcs[..n]));
    FoldedSnoc(s, n);
    assert s.msgs[..n + 1] == s.msgs && s.pcs[..n + 1] == s.pcs;
    HandledNeedsBoth(before, o, luck);
    StoppedHasNone(before);
    if !luck.first {
      NoneLive(s.mem);
    }
  }

  lemma Continued(run: seq<Action>, a: Action)
    requires Legal(run) && Enabled(After(run), a)
    ensures Legal(run + [a]) && After(run + [a]) == Next(After(run), a)
  {
    hide Next, Enabled;
    assert (run + [a])[..|run|] == run;
  }

  lemma GoOn(run: seq<Action>, i: nat, ok: bool) returns (longer: seq<Action>)
    requires Legal(run) && Enabled(After(run), Resume(i, ok))
    ensures Legal(longer) && After(longer) == Next(After(run), Resume(i, ok)) && Arrivals(longer) == Arrivals(run)
  {
    hide After, Legal, Enabled, Next;
    Continued(run, Resume(i, ok));
    longer := run + [Resume(i, ok)];
    assert longer[..|run|] == run;
  }

  lemma EveryHandlerHasItsMessage(run: seq<Action>)
    requires Legal(run)
    ensures |After(run).pcs| == |After(run).msgs|
  {
    var n := HandlersAreSerial(run);
  }

  /** So a live local session is lost to a relay that fails on a changed configuration. */
  lemma RelayFailureCostsTheLocalPeer(run: seq<Action>, o: Opts) returns (longer: seq<Action>)
    requires Legal(run) && AllSettled(After(run)) && After(run).mem.link.Some? && !Running(After(run).mem, o)
    ensures Legal(longer) && AllSettled(After(longer)) && Arrivals(longer) == Arrivals(run) + [RosterSync(o)]
    ensures After(longer).mem.link == None
  {
    hide After, Legal, Running;
    EveryHandlerHasItsMessage(run);
    var i := |After(run).pcs|;
    longer := run + [Arrive(RosterSync(o))];
    Continued(run, Arrive(RosterSync(o)));
    assert longer[..|run|] == run;
    longer := GoOn(longer, i, true);
    longer := GoOn(longer, i, true);
    longer := GoOn(longer, i, false);
  }
}
