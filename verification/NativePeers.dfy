/** The native WebRTC shim: every connection chains its native operations behind the creation of its
    native peer, and native events find their connection through a shared table of handles. */
module NativePeers {
  type Handle = nat
  type ConnId = nat

  /** A native operation, by name and argument. */
  datatype Op = CloseOp | Other(name: string, arg: string)

  datatype Event = Event(kind: string, data: string)

  datatype Mint = Minting | Minted | Rejected

  /** Where an enqueued operation stands; `ran` says whether the native side was called at all. */
  datatype Pc = Waiting | Running | Settled(ran: bool)

  datatype Conn = Conn(mint: Mint, peerId: int, ops: seq<Op>, pcs: seq<Pc>)

  datatype Call = Call(conn: ConnId, peer: int, op: Op)

  /** `calls` logs the native operations as they are started, `delivered` the events as they arrive. */
  datatype State = State(conns: seq<Conn>, peers: map<Handle, ConnId>, calls: seq<Call>,
                         delivered: seq<(ConnId, Event)>)

  datatype Action =
    | New
    | Resolve(conn: ConnId, handle: Handle)
    | Reject(conn: ConnId)
    | Enqueue(conn: ConnId, op: Op)
    | Close(conn: ConnId)
    | Begin(conn: ConnId, index: nat)
    | Finish(conn: ConnId, index: nat)
    | Native(handle: Handle, event: Event)

  const AT_LOAD := State([], map[], [], [])

  // ----- steps -----

  /** What the operation is chained to has settled, well or badly. */
  predicate Due(c: Conn, i: nat) {
    i < |c.pcs| == |c.ops| && c.pcs[i].Waiting? && (if i == 0 then c.mint != Minting else c.pcs[i - 1].Settled?)
  }

  predicate Enabled(s: State, a: Action) {
    match a
    case New => true
    case Native(_, _) => true
    case Resolve(c, h) => c < |s.conns| && s.conns[c].mint == Minting
    case Reject(c) => c < |s.conns| && s.conns[c].mint == Minting
    case Enqueue(c, _) => c < |s.conns|
    case Close(c) => c < |s.conns|
    case Begin(c, i) => c < |s.conns| && Due(s.conns[c], i)
    case Finish(c, i) => c < |s.conns| && i < |s.conns[c].pcs| && s.conns[c].pcs[i] == Running
  }

  function Queued(c: Conn, op: Op): Conn {
    c.(ops := c.ops + [op], pcs := c.pcs + [Waiting])
  }

  /** An operation chained to a failed creation is skipped; the chain then counts as settled. */
  predicate Skipped(c: Conn, i: nat) {
    i == 0 && c.mint == Rejected
  }

  function Next(s: State, a: Action): State
    requires Enabled(s, a)
  {
    match a
    case New => s.(conns := s.conns + [Conn(Minting, -1, [], [])])
    case Resolve(c, h) => s.(conns := s.conns[c := s.conns[c].(mint := Minted, peerId := h)], peers := s.peers[h := c])
    case Reject(c) => s.(conns := s.conns[c := s.conns[c].(mint := Rejected)])
    case Enqueue(c, op) => s.(conns := s.conns[c := Queued(s.conns[c], op)])
    case Close(c) =>
      var conn := s.conns[c];
      s.(conns := s.conns[c := Queued(conn, CloseOp)],
         peers := if conn.peerId >= 0 then s.peers - {conn.peerId} else s.peers)
    case Begin(c, i) =>
      var conn := s.conns[c];
      if Skipped(conn, i) then s.(conns := s.conns[c := conn.(pcs := conn.pcs[i := Settled(false)])])
      else s.(conns := s.conns[c := conn.(pcs := conn.pcs[i := Running])],
              calls := s.calls + [Call(c, conn.peerId, conn.ops[i])])
    case Finish(c, i) =>
      var conn := s.conns[c];
      s.(conns := s.conns[c := conn.(pcs := conn.pcs[i := Settled(true)])])
    case Native(h, e) => if h in s.peers then s.(delivered := s.delivered + [(s.peers[h], e)]) else s
  }

  class Shim {
    var conns: seq<Conn>
    var peers: map<Handle, ConnId>
    var calls: seq<Call>
    var delivered: seq<(ConnId, Event)>

    constructor ()
      ensures Now() == AT_LOAD
    {
      conns, peers, calls, delivered := [], map[], [], [];
    }

    function Now(): State
      reads this
    {
      State(conns, peers, calls, delivered)
    }

    method CreateConnection() returns (c: ConnId)
      modifies this
      ensures c == |old(conns)| && Now() == Next(old(Now()), New)
    {
      c := |conns|;
      conns := conns + [Conn(Minting, -1, [], [])];
    }

    method OnPeerCreated(c: ConnId, value: Handle)
      requires Enabled(Now(), Resolve(c, value))
      modifies this
      ensures Now() == Next(old(Now()), Resolve(c, value))
    {
      conns := conns[c := conns[c].(mint := Minted, peerId := value)];
      peers := peers[value := c];
    }

    method EnqueueOp(c: ConnId, op: Op)
      requires c < |conns|
      modifies `conns
      ensures Now() == Next(old(Now()), Enqueue(c, op))
    {
      var conn := conns[c];
      conns := conns[c := Conn(conn.mint, conn.peerId, conn.ops + [op], conn.pcs + [Waiting])];
    }

    method CloseConnection(c: ConnId)
      requires c < |conns|
      modifies this
      ensures Now() == Next(old(Now()), Close(c))
    {
      EnqueueOp(c, CloseOp);
      if conns[c].peerId >= 0 {
        peers := peers - {conns[c].peerId};
      }
    }

    method Route(h: Handle, e: Event)
      modifies `delivered
      ensures Now() == Next(old(Now()), Native(h, e))
    {
      if h in peers {
        delivered := delivered + [(peers[h], e)];
      }
    }
  }

  // ----- histories -----

  /** The native side never mints one handle twice. */
  predicate Distinct(run: seq<Action>) {
    forall i, j | 0 <= i < j < |run| :: run[i].Resolve? && run[j].Resolve? ==> run[i].handle != run[j].handle
  }

  predicate Legal(run: seq<Action>)
    decreases |run|, 0
  {
    run == [] || (Legal(run[..|run| - 1]) && Enabled(After(run[..|run| - 1]), run[|run| - 1]))
  }

  function After(run: seq<Action>): State
    requires Legal(run)
    decreases |run|, 1
  {
    if run == [] then AT_LOAD else Next(After(run[..|run| - 1]), run[|run| - 1])
  }

  // ----- operations run in order -----

  function CallsOf(calls: seq<Call>, c: ConnId): seq<Call> {
    if calls == [] then []
    else CallsOf(calls[..|calls| - 1], c) + (if calls[|calls| - 1].conn == c then [calls[|calls| - 1]] else [])
  }

  function Naming(c: ConnId, peer: int, ops: seq<Op>): seq<Call> {
    seq(|ops|, i requires 0 <= i < |ops| => Call(c, peer, ops[i]))
  }

  /** How many operations of the chain have been reached: `settled` of them done, and at most one more
      under way. */
  function Reached(c: Conn, settled: nat): nat {
    if settled < |c.pcs| && c.pcs[settled].Running? then settled + 1 else settled
  }

  predicate InOrder(c: Conn, settled: nat) {
    && |c.pcs| == |c.ops| && settled <= |c.pcs|
    && (forall i | 0 <= i < settled :: c.pcs[i].Settled?)
    && (forall i | settled < i < |c.pcs| :: c.pcs[i].Waiting?)
    && (settled < |c.pcs| ==> !c.pcs[settled].Settled?)
    && (c.mint == Minting ==> Reached(c, settled) == 0)
    && (c.mint == Minted <==> c.peerId >= 0)
    && (c.mint != Minted ==> c.peerId == -1)
    && (c.mint == Rejected && |c.pcs| > 0 ==> c.pcs[0] != Running)
  }

  /** The native calls made for a connection: its operations in the order they were enqueued, as far as
      the chain has got, leaving out the first if there was no peer to chain it to. */
  function CallsDue(id: ConnId, c: Conn, settled: nat): seq<Call>
    requires InOrder(c, settled)
  {
    var reached := Reached(c, settled);
    if c.mint == Rejected && reached > 0 then Naming(id, -1, c.ops[1..reached])
    else Naming(id, c.peerId, c.ops[..reached])
  }

  predicate Tracks(s: State, c: ConnId, settled: nat) {
    c < |s.conns| && InOrder(s.conns[c], settled) && CallsOf(s.calls, c) == CallsDue(c, s.conns[c], settled)
  }

  lemma CallsSnoc(calls: seq<Call>, call: Call, c: ConnId)
    ensures CallsOf(calls + [call], c) == CallsOf(calls, c) + (if call.conn == c then [call] else [])
  {
    assert (calls + [call])[..|calls|] == calls;
  }

  /** Steps of one connection, one lemma a kind. */
  lemma QueueingTracks(id: ConnId, c: Conn, settled: nat, op: Op)
    requires InOrder(c, settled)
    ensures InOrder(Queued(c, op), settled) && CallsDue(id, Queued(c, op), settled) == CallsDue(id, c, settled)
  {
    var d := Queued(c, op);
    assert Reached(d, settled) == Reached(c, settled);
    assert d.ops[..Reached(c, settled)] == c.ops[..Reached(c, settled)];
    if Reached(c, settled) > 0 {
      assert d.ops[1..Reached(c, settled)] == c.ops[1..Reached(c, settled)];
    }
  }

  lemma MintingTracks(id: ConnId, c: Conn, settled: nat, d: Conn)
    requires InOrder(c, settled) && c.mint == Minting && d.ops == c.ops && d.pcs == c.pcs
    requires (d.mint == Minted && d.peerId >= 0) || (d.mint == Rejected && d.peerId == -1)
    ensures InOrder(d, settled) && CallsDue(id, d, settled) == CallsDue(id, c, settled)
  {
    assert Naming(id, d.peerId, d.ops[..0]) == [];
  }

  lemma BeginningTracks(id: ConnId, c: Conn, settled: nat, i: nat) returns (k: nat)
    requires InOrder(c, settled) && Due(c, i)
    ensures i == settled
    ensures Skipped(c, i) ==> var d := c.(pcs := c.pcs[i := Settled(false)]);
                              InOrder(d, k) && CallsDue(id, d, k) == CallsDue(id, c, settled)
    ensures !Skipped(c, i) ==> var d := c.(pcs := c.pcs[i := Running]);
                               && InOrder(d, k)
                               && CallsDue(id, d, k) == CallsDue(id, c, settled) + [Call(id, c.peerId, c.ops[i])]
  {
    assert i == settled;
    if Skipped(c, i) {
      k := 1;
      var d := c.(pcs := c.pcs[i := Settled(false)]);
      assert CallsDue(id, d, 1) == Naming(id, -1, d.ops[1..1]) == [];
      assert c.ops[..0] == [];
    } else {
      k := settled;
      assert c.ops[..i + 1] == c.ops[..i] + [c.ops[i]];
      if i > 0 {
        assert c.ops[1..i + 1] == c.ops[1..i] + [c.ops[i]];
      }
    }
  }

  lemma FinishingTracks(id: ConnId, c: Conn, settled: nat, i: nat)
    requires InOrder(c, settled) && i < |c.pcs| && c.pcs[i] == Running
    ensures i == settled
    ensures var d := c.(pcs := c.pcs[i := Settled(true)]);
            && InOrder(d, i + 1)
            && CallsDue(id, d, i + 1) == CallsDue(id, c, settled)
  {
  }

  lemma StepTracks(s: State, a: Action, c: ConnId, settled: nat) returns (k: nat)
    requires Enabled(s, a) && Tracks(s, c, settled)
    ensures Tracks(Next(s, a), c, k)
  {
    hide InOrder, CallsDue, CallsOf;
    k := settled;
    match a
    case New =>
    case Native(_, _) =>
    case Resolve(d, h) => if d == c { MintingTracks(c, s.conns[c], settled, Next(s, a).conns[c]); }
    case Reject(d) =>
      if d == c {
        RejectKeepsId(s.conns[c], settled);
        MintingTracks(c, s.conns[c], settled, Next(s, a).conns[c]);
      }
    case Enqueue(d, op) => if d == c { QueueingTracks(c, s.conns[c], settled, op); }
    case Close(d) => if d == c { QueueingTracks(c, s.conns[c], settled, CloseOp); }
    case Begin(d, i) =>
      CallsSnoc(s.calls, Call(d, s.conns[d].peerId, s.conns[d].ops[i]), c);
      if d == c {
        k := BeginningTracks(c, s.conns[c], settled, i);
      } else {
        assert CallsOf(s.calls, c) + [] == CallsOf(s.calls, c);
      }
    case Finish(d, i) =>
      if d == c {
        FinishingTracks(c, s.conns[c], settled, i);
        k := i + 1;
      }
  }

  lemma RejectKeepsId(c: Conn, settled: nat)
    requires InOrder(c, settled) && c.mint == Minting
    ensures c.peerId == -1
  {
  }

  lemma NewTracks(s: State)
    requires CallsOf(s.calls, |s.conns|) == []
    ensures Tracks(Next(s, New), |s.conns|, 0)
  {
  }

  lemma {:induction false} NoCallsYet(run: seq<Action>, c: ConnId)
    requires Legal(run) && c >= |After(run).conns|
    ensures CallsOf(After(run).calls, c) == []
    decreases |run|
  {
    if run != [] {
      var before, a := run[..|run| - 1], run[|run| - 1];
      var s := After(before);
      assert |s.conns| <= |After(run).conns|;
      NoCallsYet(before, c);
      if a.Begin? {
        CallsSnoc(s.calls, Call(a.conn, s.conns[a.conn].peerId, s.conns[a.conn].ops[a.index]), c);
      }
    }
  }

  /** In every run, the native calls of a connection follow the order in which its operations were
      enqueued, each only after the one before has settled, and none before the peer exists; if the peer
      could not be created, the first is left out. */
  lemma {:induction false} OperationsRunInOrder(run: seq<Action>, c: ConnId) returns (settled: nat)
    requires Legal(run) && c < |After(run).conns|
    ensures Tracks(After(run), c, settled)
    decreases |run|
  {
    hide Tracks, Enabled, Next;
    assert run != [] by { NothingYet(); }
    var before, a := run[..|run| - 1], run[|run| - 1];
    if c < |After(before).conns| {
      settled := OperationsRunInOrder(before, c);
      settled := StepTracks(After(before), a, c, settled);
    } else {
      NoCallsYet(before, c);
      OnlyNewAdds(After(before), a);
      NewTracks(After(before));
      settled := 0;
    }
  }

  lemma NothingYet()
    ensures Legal([]) && After([]) == AT_LOAD
  {
  }

  lemma OnlyNewAdds(s: State, a: Action)
    requires Enabled(s, a)
    ensures |Next(s, a).conns| == |s.conns| + (if a.New? then 1 else 0)
  {
  }

  /** Given that `createPeer` does not fail: every native call carries the handle, calls come in the
      order of enqueueing, and at most one is under way. */
  lemma CallsFollowTheQueue(run: seq<Action>, c: ConnId)
    requires Legal(run) && c < |After(run).conns| && After(run).conns[c].mint != Rejected
    ensures var conn := After(run).conns[c];
            var calls := CallsOf(After(run).calls, c);
            && |calls| <= |conn.ops| && calls == Naming(c, conn.peerId, conn.ops[..|calls|])
            && (calls != [] ==> conn.peerId >= 0)
            && (forall i, j | 0 <= i < j < |conn.pcs| :: conn.pcs[j] != Waiting ==> conn.pcs[i].Settled?)
  {
    hide After, CallsOf;
    var settled := OperationsRunInOrder(run, c);
  }

  /** Otherwise the operations after the first reach the native side without a handle: a call with no
      handle is made exactly when creation failed and a second operation has been reached. */
  lemma HandlelessIffRejected(run: seq<Action>, c: ConnId) returns (settled: nat)
    requires Legal(run) && c < |After(run).conns|
    ensures Tracks(After(run), c, settled)
    ensures (exists call | call in CallsOf(After(run).calls, c) :: call.peer < 0)
            <==> (After(run).conns[c].mint == Rejected && Reached(After(run).conns[c], settled) >= 2)
  {
    hide After, CallsOf;
    settled := OperationsRunInOrder(run, c);
    var conn := After(run).conns[c];
    var due := CallsDue(c, conn, settled);
    if conn.mint == Rejected && Reached(conn, settled) >= 2 {
      assert due[0] in due;
    }
  }

  /** What was asked of a connection: operations, and closing. */
  function Requests(run: seq<Action>, c: ConnId): seq<Op> {
    if run == [] then []
    else Requests(run[..|run| - 1], c) + Asked(run[|run| - 1], c)
  }

  function Asked(a: Action, c: ConnId): seq<Op> {
    if a.Enqueue? && a.conn == c then [a.op] else if a == Close(c) then [CloseOp] else []
  }

  function QueueOf(s: State, c: ConnId): seq<Op> {
    if c < |s.conns| then s.conns[c].ops else []
  }

  lemma StepQueues(s: State, a: Action, c: ConnId)
    requires Enabled(s, a)
    ensures QueueOf(Next(s, a), c) == QueueOf(s, c) + Asked(a, c)
  {
    assert QueueOf(s, c) + [] == QueueOf(s, c);
  }

  /** Nothing asked of a connection is lost or added: its queue is what was asked of it, in order. */
  lemma {:induction false} QueueIsWhatWasAsked(run: seq<Action>, c: ConnId)
    requires Legal(run)
    ensures Requests(run, c) == QueueOf(After(run), c)
    decreases |run|
  {
    if run != [] {
      hide Next, Asked, QueueOf, Enabled;
      var before := run[..|run| - 1];
      QueueIsWhatWasAsked(before, c);
      StepQueues(After(before), run[|run| - 1], c);
    } else {
      assert QueueOf(After([]), c) == [];
    }
  }

  lemma Continued(run: seq<Action>, a: Action)
    requires Legal(run) && Enabled(After(run), a)
    ensures Legal(run + [a]) && After(run + [a]) == Next(After(run), a)
  {
    hide Next, Enabled;
    assert (run + [a])[..|run|] == run;
  }

  /** Creation fails, two operations are enqueued, and the second is called without a handle. */
  lemma CallWithoutHandle(first: Op, second: Op) returns (run: seq<Action>)
    ensures Legal(run) && After(run).calls == [Call(0, -1, second)]
  {
    hide After, Legal;
    NothingYet();
    Continued([], New);
    run := [] + [New];
    Continued(run, Reject(0));
    run := run + [Reject(0)];
    Continued(run, Enqueue(0, first));
    run := run + [Enqueue(0, first)];
    Continued(run, Enqueue(0, second));
    run := run + [Enqueue(0, second)];
    Continued(run, Begin(0, 0));
    run := run + [Begin(0, 0)];
    Continued(run, Begin(0, 1));
    run := run + [Begin(0, 1)];
  }

  // ----- events find their connection -----

  /** Connection `c` got handle `h` in the `j`-th step and has not been closed since. */
  predicate MintedSince(run: seq<Action>, j: nat, c: ConnId, h: Handle) {
    j < |run| && run[j] == Resolve(c, h) && forall i | j < i < |run| :: run[i] != Close(c)
  }

  predicate HasHandle(s: State, c: ConnId, h: Handle) {
    c < |s.conns| && s.conns[c].peerId == h
  }

  lemma {:induction false} HandleWasMinted(run: seq<Action>, c: ConnId, h: Handle)
    requires Legal(run)
    ensures HasHandle(After(run), c, h) <==> exists j: nat :: j < |run| && run[j] == Resolve(c, h)
    ensures c < |After(run).conns| && After(run).conns[c].mint == Minting ==> After(run).conns[c].peerId == -1
    decreases |run|
  {
    if run != [] {
      var n := |run| - 1;
      var before, a := run[..n], run[n];
      HandleWasMinted(before, c, h);
      if a == Resolve(c, h) {
        assert run[n] == Resolve(c, h);
      }
      if exists j: nat :: j < |before| && before[j] == Resolve(c, h) {
        var j: nat :| j < |before| && before[j] == Resolve(c, h);
        assert run[j] == Resolve(c, h);
        StillMinted(before, j, c, h);
      }
      forall j: nat | j < |run| && run[j] == Resolve(c, h)
        ensures j == n || before[j] == Resolve(c, h)
      {
      }
    }
  }

  lemma {:induction false} StillMinted(run: seq<Action>, j: nat, c: ConnId, h: Handle)
    requires Legal(run) && j < |run| && run[j] == Resolve(c, h)
    ensures c < |After(run).conns| && After(run).conns[c].mint == Minted && After(run).conns[c].peerId == h
    decreases |run|
  {
    var n := |run| - 1;
    if j < n {
      StillMinted(run[..n], j, c, h);
    }
  }

  lemma MintedEarlier(run: seq<Action>, j: nat, c: ConnId, h: Handle)
    requires run != [] && run[|run| - 1] != Resolve(c, h)
    ensures MintedSince(run, j, c, h) <==> MintedSince(run[..|run| - 1], j, c, h) && run[|run| - 1] != Close(c)
  {
    var before := run[..|run| - 1];
    if j < |before| {
      assert before[j] == run[j];
      assert forall i | j < i < |before| :: before[i] == run[i];
    }
  }

  /** With distinct handles, a handle leads to a connection exactly when that connection minted it and
      has not been closed since. */
  lemma {:induction false} HandleLeadsToItsConnection(run: seq<Action>, c: ConnId, h: Handle)
    requires Legal(run) && Distinct(run)
    ensures (h in After(run).peers && After(run).peers[h] == c) <==> (exists j: nat :: MintedSince(run, j, c, h))
    decreases |run|, 1
  {
    hide MintedSince, Enabled;
    if run == [] {
      forall j: nat
        ensures !MintedSince(run, j, c, h)
      {
        NeverMinted(j, c, h);
      }
      return;
    }
    var n := |run| - 1;
    var before, a := run[..n], run[n];
    HandleLeadsToItsConnection(before, c, h);
    if a == Resolve(c, h) {
      JustMinted(run, c, h);
      assert MintedSince(run, n, c, h);
    } else {
      forall j: nat
        ensures MintedSince(run, j, c, h) <==> MintedSince(before, j, c, h) && a != Close(c)
      {
        MintedEarlier(run, j, c, h);
      }
      OthersKeepTheTable(run, c, h);
    }
  }

  lemma NeverMinted(j: nat, c: ConnId, h: Handle)
    ensures !MintedSince([], j, c, h)
  {
  }

  lemma JustMinted(run: seq<Action>, c: ConnId, h: Handle)
    requires run != [] && run[|run| - 1] == Resolve(c, h)
    ensures MintedSince(run, |run| - 1, c, h)
  {
  }

  /** Whether the table maps `h` to `c` changes only when `c` is closed, if it was not just minted. */
  lemma {:induction false} OthersKeepTheTable(run: seq<Action>, c: ConnId, h: Handle)
    requires Legal(run) && Distinct(run) && run != [] && run[|run| - 1] != Resolve(c, h)
    ensures var s := After(run[..|run| - 1]);
            (h in After(run).peers && After(run).peers[h] == c)
            <==> (h in s.peers && s.peers[h] == c && run[|run| - 1] != Close(c))
    decreases |run|, 0
  {
    var n := |run| - 1;
    var before, a := run[..n], run[n];
    var s := After(before);
    if h in s.peers && s.peers[h] == c {
      HandleLeadsToItsConnection(before, c, h);
      var j: nat :| MintedSince(before, j, c, h);
      assert run[j] == Resolve(c, h);
      StillMinted(before, j, c, h);
      if a.Close? && HasHandle(s, a.conn, h) {
        OneConnectionPerHandle(before, a.conn, c, h);
      }
    }
  }

  lemma OneConnectionPerHandle(run: seq<Action>, c: ConnId, d: ConnId, h: Handle)
    requires Legal(run) && Distinct(run) && HasHandle(After(run), c, h) && HasHandle(After(run), d, h)
    ensures c == d
  {
    HandleWasMinted(run, c, h);
    HandleWasMinted(run, d, h);
    var i: nat :| i < |run| && run[i] == Resolve(c, h);
    var j: nat :| j < |run| && run[j] == Resolve(d, h);
    assert i == j;
  }

  /** So an event is delivered to a connection exactly when that connection minted the event's handle
      and has not been closed since; a close before the handle was minted does not count. */
  lemma EventsReachTheirConnectionOnly(run: seq<Action>, h: Handle, e: Event, c: ConnId)
    requires Legal(run) && Distinct(run)
    ensures var t := Next(After(run), Native(h, e)).delivered;
            && (t == After(run).delivered + [(c, e)] <==> exists j: nat :: MintedSince(run, j, c, h))
            && (t == After(run).delivered || exists d :: t == After(run).delivered + [(d, e)])
  {
    hide After, MintedSince;
    HandleLeadsToItsConnection(run, c, h);
    var s := After(run);
    if h in s.peers {
      assert (s.delivered + [(s.peers[h], e)])[|s.delivered|] == (s.peers[h], e);
    }
  }

  /** A connection closed before its handle exists still receives that handle's events. */
  lemma ClosedTooEarlyStillReceives(h: Handle, e: Event) returns (run: seq<Action>)
    ensures Legal(run) && Close(0) in run && After(run).delivered == [(0, e)]
  {
    hide After, Legal;
    NothingYet();
    Continued([], New);
    run := [] + [New];
    Continued(run, Close(0));
    run := run + [Close(0)];
    Continued(run, Resolve(0, h));
    run := run + [Resolve(0, h)];
    Continued(run, Native(h, e));
    run := run + [Native(h, e)];
    assert run[1] == Close(0);
  }
}
