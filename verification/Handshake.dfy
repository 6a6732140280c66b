/** Noise sessions in a handle registry. Cryptography is symbolic: a message records the exchange it
    continues and the keys its author used, and reading it checks exactly that. */
module Handshake {
  import opened Wrappers
  import opened Bytes

  type Handle = nat
  type KeyId = nat

  /** How many handles there are before they repeat. */
  const CYCLE: nat := 0xffff_ffff

  const MAX_MSG: nat := 65535

  /** A pattern is known by its number of messages: Noise_KK has 2, Noise_XXpsk3 has 3. `remote` is the
      peer's static key where the pattern needs it up front; a key is named by its keypair. */
  datatype Config = Config(messages: nat, initiator: bool, local: KeyId, remote: Option<KeyId>, psk: Option<KeyId>)

  /** One handshake message: its number is the length of `prior`, the exchange so far. */
  datatype Msg = Msg(messages: nat, prior: seq<nat>, ephemeral: nat, author: KeyId, reader: Option<KeyId>,
                     psk: Option<KeyId>)

  datatype Sealed = Sealed(exchange: seq<nat>, byInitiator: bool, nonce: nat, text: seq<byte>)

  datatype Session =
    | Handshaking(cfg: Config, exchange: seq<nat>, peer: Option<KeyId>)
    | Transport(channel: seq<nat>, initiator: bool, sent: nat, received: nat, remoteStatic: Option<KeyId>)

  datatype Error =
    | BuildFailed
    | UnknownSession
    | AlreadyComplete
    | ReadFailed
    | NotComplete
    | TooLarge
    | DecryptFailed
    | NoRemoteStatic

  /** `drawn` is the ephemeral key an operation may have to draw. */
  datatype Action =
    | Start(cfg: Config, valid: bool, drawn: nat)
    | Read(on: Handle, msg: Msg, drawn: nat)
    | Encrypt(on: Handle, text: seq<byte>)
    | Decrypt(on: Handle, sealed: Sealed)
    | RemoteStatic(on: Handle)
    | Close(on: Handle)

  datatype Reply =
    | Started(handle: Handle, first: Option<Msg>)
    | WasRead(next: Option<Msg>, done: bool)
    | WasEncrypted(sealed: Sealed)
    | WasDecrypted(text: seq<byte>)
    | Static(key: KeyId)
    | Closed
    | Failed(error: Error)

  // ----- a handshake -----

  predicate Finished(s: Session)
    requires s.Handshaking?
  {
    |s.exchange| >= s.cfg.messages
  }

  /** The initiator writes the messages with even numbers. */
  predicate MyTurn(s: Session)
    requires s.Handshaking?
  {
    (|s.exchange| % 2 == 0) == s.cfg.initiator
  }

  function Written(s: Session, drawn: nat): (Session, Msg)
    requires s.Handshaking?
  {
    (s.(exchange := s.exchange + [drawn]), Msg(s.cfg.messages, s.exchange, drawn, s.cfg.local, s.cfg.remote, s.cfg.psk))
  }

  /** A message is accepted when it continues this very exchange under this pattern, comes from the peer
      expected and for this reader where either is known, and, as the last one, under the same psk. */
  predicate Accepts(s: Session, m: Msg)
    requires s.Handshaking?
  {
    && !Finished(s) && !MyTurn(s)
    && m.messages == s.cfg.messages && m.prior == s.exchange
    && (s.cfg.remote.Some? ==> s.cfg.remote.value == m.author)
    && (m.reader.Some? ==> m.reader.value == s.cfg.local)
    && (|m.prior| + 1 == m.messages ==> m.psk == s.cfg.psk)
  }

  function Absorbed(s: Session, m: Msg): Session
    requires s.Handshaking?
  {
    s.(exchange := s.exchange + [m.ephemeral], peer := Some(m.author))
  }

  function Moved(s: Session): Session
    requires s.Handshaking?
  {
    if Finished(s) then Transport(s.exchange, s.cfg.initiator, 0, 0, s.peer) else s
  }

  /** What an operation makes of the session under its handle, and its reply. */
  function On(s: Option<Session>, a: Action): (Option<Session>, Reply)
    requires !a.Start?
  {
    match a
    case Close(_) => (None, Closed)
    case Encrypt(_, text) =>
      if |text| > MAX_MSG - 16 then (s, Failed(TooLarge))
      else if s.None? then (s, Failed(UnknownSession))
      else if s.value.Handshaking? then (s, Failed(NotComplete))
      else (Some(s.value.(sent := s.value.sent + 1)),
            WasEncrypted(Sealed(s.value.channel, s.value.initiator, s.value.sent, text)))
    case Decrypt(_, c) =>
      if s.None? then (s, Failed(UnknownSession))
      else if s.value.Handshaking? then (s, Failed(NotComplete))
      else if c.exchange != s.value.channel || c.byInitiator == s.value.initiator || c.nonce != s.value.received then
        (s, Failed(DecryptFailed))
      else (Some(s.value.(received := s.value.received + 1)), WasDecrypted(c.text))
    case RemoteStatic(_) =>
      if s.None? then (s, Failed(UnknownSession))
      else if s.value.Handshaking? then (s, Failed(NotComplete))
      else if s.value.remoteStatic.None? then (s, Failed(NoRemoteStatic))
      else (s, Static(s.value.remoteStatic.value))
    case Read(_, m, drawn) =>
      if s.None? then (s, Failed(UnknownSession))
      else if s.value.Transport? then (s, Failed(AlreadyComplete))
      else if !Accepts(s.value, m) then (None, Failed(ReadFailed))
      else
        var hs := Absorbed(s.value, m);
        if Finished(hs) then (Some(Moved(hs)), WasRead(None, true))
        else
          var (written, next) := Written(hs, drawn);
          (Some(Moved(written)), WasRead(Some(next), Finished(written)))
  }

  /** A new session, and the first message where it is the initiator's. */
  function Born(cfg: Config, drawn: nat): (Session, Option<Msg>) {
    var hs := Handshaking(cfg, [], None);
    if cfg.initiator then (Written(hs, drawn).0, Some(Written(hs, drawn).1)) else (hs, None)
  }

  // ----- the registry -----

  datatype State = State(next: Handle, sessions: map<Handle, Session>)

  const AT_LOAD := State(1, map[])

  /** `wrapping_add(1).max(1)` on a 32-bit counter. */
  function NextHandle(h: Handle): Handle {
    var n := (h + 1) % U32_SIZE;
    if n < 1 then 1 else n
  }

  function At(s: State, h: Handle): Option<Session> {
    if h in s.sessions then Some(s.sessions[h]) else None
  }

  function With(s: State, h: Handle, session: Option<Session>): State {
    s.(sessions := if session.Some? then s.sessions[h := session.value] else s.sessions - {h})
  }

  function Step(s: State, a: Action): (State, Reply) {
    if a.Start? then
      if !a.valid then (s, Failed(BuildFailed))
      else
        var (session, first) := Born(a.cfg, a.drawn);
        (State(NextHandle(s.next), s.sessions[s.next := session]), Started(s.next, first))
    else
      var (session, reply) := On(At(s, a.on), a);
      (With(s, a.on, session), reply)
  }

  class Registry {
    var next: Handle
    var sessions: map<Handle, Session>

    constructor ()
      ensures Now() == AT_LOAD
    {
      next, sessions := 1, map[];
    }

    function Now(): State
      reads this
    {
      State(next, sessions)
    }

    method InsertSession(s: Session) returns (id: Handle)
      modifies this
      ensures id == old(next) && Now() == State(NextHandle(old(next)), old(sessions)[id := s])
    {
      id := next;
      next := NextHandle(next);
      sessions := sessions[id := s];
    }

    /** Both kinds of initiator: the handshake and the enrollment one. */
    method StartInitiator(cfg: Config, valid: bool, drawn: nat) returns (r: Reply)
      requires cfg.initiator
      modifies this
      ensures (Now(), r) == Step(old(Now()), Start(cfg, valid, drawn))
    {
      if !valid {
        return Failed(BuildFailed);
      }
      var (hs, msg) := Written(Handshaking(cfg, [], None), drawn);
      var id := InsertSession(hs);
      r := Started(id, Some(msg));
    }

    method StartResponder(cfg: Config, valid: bool, drawn: nat) returns (r: Reply)
      requires !cfg.initiator
      modifies this
      ensures (Now(), r) == Step(old(Now()), Start(cfg, valid, drawn))
    {
      if !valid {
        return Failed(BuildFailed);
      }
      var id := InsertSession(Handshaking(cfg, [], None));
      r := Started(id, None);
    }

    /** The session is taken out first and put back only if all goes well. */
    method ReadMessage(id: Handle, msg: Msg, drawn: nat) returns (r: Reply)
      modifies this
      ensures Now().next == old(next) && Now().sessions == Step(old(Now()), Read(id, msg, drawn)).0.sessions
      ensures r == Step(old(Now()), Read(id, msg, drawn)).1
    {
      if id !in sessions {
        assert sessions - {id} == sessions;
        return Failed(UnknownSession);
      }
      var session := sessions[id];
      sessions := sessions - {id};
      if session.Transport? {
        sessions := sessions[id := session];
        assert sessions == old(sessions)[id := session];
        return Failed(AlreadyComplete);
      }
      if !Accepts(session, msg) {
        return Failed(ReadFailed);
      }
      var hs := Absorbed(session, msg);
      var reply := None;
      if !Finished(hs) {
        var (written, next) := Written(hs, drawn);
        hs := written;
        reply := Some(next);
      }
      var done := Finished(hs);
      sessions := sessions[id := Moved(hs)];
      assert sessions == old(sessions)[id := Moved(hs)];
      r := WasRead(reply, done);
    }

    method EncryptText(id: Handle, text: seq<byte>) returns (r: Reply)
      modifies this
      ensures Now().next == old(next) && Now().sessions == Step(old(Now()), Encrypt(id, text)).0.sessions
      ensures r == Step(old(Now()), Encrypt(id, text)).1
    {
      assert id !in sessions ==> sessions - {id} == sessions;
      if |text| > MAX_MSG - 16 {
        return Failed(TooLarge);
      }
      if id !in sessions {
        return Failed(UnknownSession);
      }
      var session := sessions[id];
      if session.Handshaking? {
        return Failed(NotComplete);
      }
      r := WasEncrypted(Sealed(session.channel, session.initiator, session.sent, text));
      sessions := sessions[id := session.(sent := session.sent + 1)];
    }

    method DecryptText(id: Handle, c: Sealed) returns (r: Reply)
      modifies this
      ensures Now().next == old(next) && Now().sessions == Step(old(Now()), Decrypt(id, c)).0.sessions
      ensures r == Step(old(Now()), Decrypt(id, c)).1
    {
      if id !in sessions {
        assert sessions - {id} == sessions;
        return Failed(UnknownSession);
      }
      var session := sessions[id];
      if session.Handshaking? {
        return Failed(NotComplete);
      }
      if c.exchange != session.channel || c.byInitiator == session.initiator || c.nonce != session.received {
        return Failed(DecryptFailed);
      }
      sessions := sessions[id := session.(received := session.received + 1)];
      r := WasDecrypted(c.text);
    }

    method CloseSession(id: Handle)
      modifies this
      ensures Now() == Step(old(Now()), Close(id)).0
    {
      sessions := sessions - {id};
    }

    method RemoteStaticKey(id: Handle) returns (r: Reply)
      ensures r == Step(Now(), RemoteStatic(id)).1
    {
      if id !in sessions {
        return Failed(UnknownSession);
      }
      match sessions[id] {
        case Handshaking(_, _, _) => return Failed(NotComplete);
        case Transport(_, _, _, _, key) => return if key.None? then Failed(NoRemoteStatic) else Static(key.value);
      }
    }
  }

  // ----- handles -----

  function After(run: seq<Action>): State {
    if run == [] then AT_LOAD else Step(After(run[..|run| - 1]), run[|run| - 1]).0
  }

  function ReplyTo(run: seq<Action>, i: nat): Reply
    requires i < |run|
  {
    Step(After(run[..i]), run[i]).1
  }

  predicate Allocates(a: Action) {
    a.Start? && a.valid
  }

  function Allocations(run: seq<Action>): nat {
    if run == [] then 0 else Allocations(run[..|run| - 1]) + (if Allocates(run[|run| - 1]) then 1 else 0)
  }

  function HandleNumber(n: nat): (h: Handle)
    ensures 1 <= h < U32_SIZE
  {
    n % CYCLE + 1
  }

  lemma NextHandleNumber(n: nat)
    ensures NextHandle(HandleNumber(n)) == HandleNumber(n + 1)
  {
    if n % CYCLE == CYCLE - 1 {
      assert n + 1 == (n / CYCLE + 1) * CYCLE;
      assert (n + 1) % CYCLE == 0;
    } else {
      assert n + 1 == n / CYCLE * CYCLE + (n % CYCLE + 1);
      assert (n + 1) % CYCLE == n % CYCLE + 1;
    }
  }

  lemma StepNext(s: State, a: Action)
    ensures Step(s, a).0.next == if Allocates(a) then NextHandle(s.next) else s.next
  {
    hide On;
  }

  lemma {:induction false} NextIsNumbered(run: seq<Action>)
    ensures After(run).next == HandleNumber(Allocations(run))
    decreases |run|
  {
    hide Step, NextHandle, HandleNumber;
    if run == [] {
      assert HandleNumber(0) == 1 by { FirstHandle(); }
    } else {
      var before, a := run[..|run| - 1], run[|run| - 1];
      NextIsNumbered(before);
      StepNext(After(before), a);
      NextHandleNumber(Allocations(before));
    }
  }

  lemma FirstHandle()
    ensures HandleNumber(0) == 1
  {
  }

  /** The `n`-th session started gets handle `n mod (2^32 - 1) + 1`, whatever else happens. */
  lemma HandlesAreNumbered(run: seq<Action>, i: nat)
    requires i < |run| && Allocates(run[i])
    ensures ReplyTo(run, i).Started? && ReplyTo(run, i).handle == Allocations(run[..i]) % CYCLE + 1
  {
    NextIsNumbered(run[..i]);
  }

  lemma SameHandle(m: nat, n: nat)
    requires m < n && HandleNumber(m) == HandleNumber(n)
    ensures n >= m + CYCLE && HandleNumber(m + CYCLE) == HandleNumber(m)
  {
    assert n - m == (n / CYCLE - m / CYCLE) * CYCLE;
    if n / CYCLE == m / CYCLE {
      assert false;
    }
    assert m + CYCLE == (m / CYCLE + 1) * CYCLE + m % CYCLE;
    assert (m + CYCLE) % CYCLE == m % CYCLE;
  }

  lemma {:induction false} AllocationsGrow(run: seq<Action>, i: nat, j: nat)
    requires i <= j <= |run|
    ensures Allocations(run[..i]) <= Allocations(run[..j]) <= Allocations(run[..i]) + (j - i)
    decreases j
  {
    if i < j {
      AllocationsGrow(run, i, j - 1);
      assert run[..j][..j - 1] == run[..j - 1];
    }
  }

  /** Where the session under `h` was started: no later start was given that handle. */
  predicate StartedAt(run: seq<Action>, i: nat, h: Handle) {
    && i < |run| && Allocates(run[i]) && HandleNumber(Allocations(run[..i])) == h
    && forall n | Allocations(run[..i]) < n < Allocations(run) :: HandleNumber(n) != h
  }

  lemma StepSessions(s: State, a: Action, h: Handle)
    ensures h in Step(s, a).0.sessions ==> h in s.sessions || (Allocates(a) && h == s.next)
  {
    if !a.Start? && a.on !in s.sessions {
      assert On(None, a).0 == None;
    }
  }

  lemma {:induction false} LiveWasStarted(run: seq<Action>, h: Handle) returns (i: nat)
    requires h in After(run).sessions
    ensures StartedAt(run, i, h)
    decreases |run|
  {
    hide Step, HandleNumber;
    var k := |run| - 1;
    var before, a := run[..k], run[k];
    NextIsNumbered(before);
    StepSessions(After(before), a, h);
    if Allocates(a) && h == After(before).next {
      i := k;
    } else {
      i := LiveWasStarted(before, h);
      assert before[..i] == run[..i];
      StepNext(After(before), a);
    }
  }

  /** Starting a session can only push out a live one that has outlived a whole cycle of handles:
      it is the (2^32 - 1)-th start after the one that made it. */
  lemma ReplacedAfterAFullCycle(run: seq<Action>) returns (i: nat)
    requires After(run).next in After(run).sessions
    ensures i < |run| && Allocates(run[i]) && ReplyTo(run, i).handle == After(run).next
    ensures Allocations(run) - Allocations(run[..i]) == CYCLE
  {
    hide Step, HandleNumber, After;
    var h := After(run).next;
    i := LiveWasStarted(run, h);
    NextIsNumbered(run);
    var m, n := Allocations(run[..i]), Allocations(run);
    AllocationsGrow(run, i + 1, |run|);
    assert run[..i + 1][..i] == run[..i] && run[..|run|] == run;
    SameHandle(m, n);
    assert StartedAt(run, i, h);
    HandleOf(run, i);
  }

  lemma HandleOf(run: seq<Action>, i: nat)
    requires i < |run| && Allocates(run[i])
    ensures ReplyTo(run, i).Started? && ReplyTo(run, i).handle == HandleNumber(Allocations(run[..i]))
  {
    HandlesAreNumbered(run, i);
  }

  // ----- sessions do not interfere -----

  /** The operations on handle `h`, from the start that it names now. */
  function OwnHistory(run: seq<Action>, h: Handle): seq<Action> {
    if run == [] then []
    else
      var before, a := run[..|run| - 1], run[|run| - 1];
      if Allocates(a) && After(before).next == h then [a]
      else if !a.Start? && a.on == h then OwnHistory(before, h) + [a]
      else OwnHistory(before, h)
  }

  /** One session with the registry to itself. */
  function Replayed(history: seq<Action>): Option<Session> {
    if history == [] then None
    else
      var a := history[|history| - 1];
      if a.Start? then Some(Born(a.cfg, a.drawn).0) else On(Replayed(history[..|history| - 1]), a).0
  }

  lemma StepAt(s: State, a: Action, h: Handle)
    ensures At(Step(s, a).0, h) == if Allocates(a) && s.next == h then Some(Born(a.cfg, a.drawn).0)
                                   else if !a.Start? && a.on == h then On(At(s, h), a).0
                                   else At(s, h)
  {
    hide On, Born, NextHandle;
  }

  /** However sessions interleave, each is what its own operations make of it: no other session's
      messages, failures or closing have any effect on it. */
  lemma {:induction false} SessionsAreIndependent(run: seq<Action>, h: Handle)
    ensures At(After(run), h) == Replayed(OwnHistory(run, h))
    decreases |run|
  {
    hide Step, On, Born;
    if run != [] {
      var before, a := run[..|run| - 1], run[|run| - 1];
      SessionsAreIndependent(before, h);
      StepAt(After(before), a, h);
      if !a.Start? && a.on == h {
        var history := OwnHistory(before, h) + [a];
        assert history[..|history| - 1] == OwnHistory(before, h);
      }
    }
  }

  /** The same for the reply an operation gets. */
  lemma RepliesAreIndependent(run: seq<Action>, a: Action)
    requires !a.Start?
    ensures Step(After(run), a).1 == On(Replayed(OwnHistory(run, a.on)), a).1
  {
    SessionsAreIndependent(run, a.on);
  }

  /** A message that is refused ends its own session, and nothing else changes. */
  lemma FailedReadKillsOnlyItself(s: State, h: Handle, m: Msg, drawn: nat)
    requires Step(s, Read(h, m, drawn)).1 == Failed(ReadFailed)
    ensures At(Step(s, Read(h, m, drawn)).0, h) == None
    ensures forall k: Handle | k != h :: At(Step(s, Read(h, m, drawn)).0, k) == At(s, k)
  {
  }

  predicate Completes(history: seq<Action>, k: nat) {
    && k < |history| && history[k].Read? && Replayed(history[..k]).Some?
    && On(Replayed(history[..k]), history[k]).1.WasRead?
    && On(Replayed(history[..k]), history[k]).1.done
  }

  lemma BecomesTransport(s: Option<Session>, a: Action)
    requires !a.Start? && On(s, a).0.Some? && On(s, a).0.value.Transport?
    ensures s.Some? && (s.value.Transport? || (a.Read? && On(s, a).1.WasRead? && On(s, a).1.done))
  {
  }

  lemma {:induction false} TransportWasCompleted(history: seq<Action>) returns (k: nat)
    requires Replayed(history).Some? && Replayed(history).value.Transport?
    ensures Completes(history, k)
    decreases |history|
  {
    hide On;
    var n := |history| - 1;
    var before, a := history[..n], history[n];
    BornHandshaking(a);
    BecomesTransport(Replayed(before), a);
    if Replayed(before).value.Transport? {
      k := TransportWasCompleted(before);
      assert before[..k] == history[..k];
    } else {
      k := n;
    }
  }

  lemma BornHandshaking(a: Action)
    ensures a.Start? ==> Born(a.cfg, a.drawn).0.Handshaking?
  {
  }

  /** No operation of the established channel succeeds unless a read on that very handle, since it was
      last given out, reported the handshake done. */
  lemma ChannelNeedsCompletion(run: seq<Action>, a: Action) returns (k: nat)
    requires a.Encrypt? || a.Decrypt? || a.RemoteStatic?
    requires !Step(After(run), a).1.Failed?
    ensures Completes(OwnHistory(run, a.on), k)
  {
    hide After, OwnHistory, Replayed;
    SessionsAreIndependent(run, a.on);
    k := TransportWasCompleted(OwnHistory(run, a.on));
  }

  /** What a history of one session has established about its peer. */
  predicate PeerChecked(s: Option<Session>, cfg: Config) {
    match s
    case None => true
    case Some(Handshaking(c, _, peer)) => c == cfg && (peer.Some? && cfg.remote.Some? ==> peer == cfg.remote)
    case Some(Transport(_, _, _, _, key)) => cfg.remote.Some? ==> key == cfg.remote
  }

  lemma OnChecksPeer(s: Option<Session>, a: Action, cfg: Config)
    requires !a.Start? && PeerChecked(s, cfg)
    ensures PeerChecked(On(s, a).0, cfg)
  {
  }

  lemma {:induction false} HistoryChecksPeer(run: seq<Action>, h: Handle)
    ensures var own := OwnHistory(run, h);
            Replayed(own).Some? ==> own != [] && own[0].Start? && PeerChecked(Replayed(own), own[0].cfg)
    decreases |run|
  {
    hide On, PeerChecked, After;
    if run != [] {
      var before, a := run[..|run| - 1], run[|run| - 1];
      HistoryChecksPeer(before, h);
      var own := OwnHistory(before, h);
      if Allocates(a) && After(before).next == h {
        BornChecked(a);
      } else if !a.Start? && a.on == h {
        assert (own + [a])[..|own|] == own;
        if Replayed(own).Some? {
          OnChecksPeer(Replayed(own), a, own[0].cfg);
        } else {
          NothingStaysNothing(a);
        }
      }
    }
  }

  lemma BornChecked(a: Action)
    requires a.Start?
    ensures PeerChecked(Some(Born(a.cfg, a.drawn).0), a.cfg)
  {
  }

  lemma NothingStaysNothing(a: Action)
    requires !a.Start?
    ensures On(None, a).0 == None
  {
  }

  lemma AcceptedIsFromThePeer(s: Option<Session>, a: Action, cfg: Config)
    requires a.Read? && PeerChecked(s, cfg) && On(s, a).1.WasRead? && cfg.remote.Some?
    ensures a.msg.author == cfg.remote.value
  {
  }

  /** The `k`-th operation read a message and accepted it. */
  predicate ReadAt(history: seq<Action>, k: nat) {
    k < |history| && history[k].Read? && On(Replayed(history[..k]), history[k]).1.WasRead?
  }

  lemma NobodyIsChecked(cfg: Config)
    ensures PeerChecked(None, cfg)
  {
  }

  lemma {:induction false} PrefixChecksPeer(run: seq<Action>, h: Handle, k: nat)
    requires k < |OwnHistory(run, h)| && OwnHistory(run, h)[0].Start?
    ensures var own := OwnHistory(run, h);
            k == 0 || (!own[k].Start? && PeerChecked(Replayed(own[..k]), own[0].cfg))
    decreases |run|
  {
    hide On, PeerChecked, After;
    var n := |run| - 1;
    var before, a := run[..n], run[n];
    var own := OwnHistory(before, h);
    if Allocates(a) && After(before).next == h {
    } else if !a.Start? && a.on == h {
      assert (own + [a])[..|own|] == own;
      if k < |own| {
        PrefixChecksPeer(before, h, k);
        assert (own + [a])[..k] == own[..k];
      } else {
        HistoryChecksPeer(before, h);
        NobodyIsChecked(own[0].cfg);
      }
    } else {
      PrefixChecksPeer(before, h, k);
    }
  }

  /** In a session started with a known static key (the roster's, in the KK pattern) every message that was
      ever accepted is that key's, and at least one was by the time the session is complete: nobody else's
      messages can have completed it. */
  lemma CompletionProvesTheKnownKey(run: seq<Action>, h: Handle) returns (k: nat)
    requires h in After(run).sessions && After(run).sessions[h].Transport?
    ensures var own := OwnHistory(run, h);
            && own != [] && own[0].Start? && Completes(own, k)
            && (own[0].cfg.remote.Some? ==>
                  && After(run).sessions[h].remoteStatic == own[0].cfg.remote
                  && own[k].msg.author == own[0].cfg.remote.value
                  && forall i: nat | ReadAt(own, i) :: own[i].msg.author == own[0].cfg.remote.value)
  {
    hide OwnHistory, Replayed, After;
    SessionsAreIndependent(run, h);
    HistoryChecksPeer(run, h);
    var own := OwnHistory(run, h);
    k := TransportWasCompleted(own);
    forall i: nat | ReadAt(own, i) && own[0].cfg.remote.Some?
      ensures own[i].msg.author == own[0].cfg.remote.value
    {
      PrefixChecksPeer(run, h, i);
      AcceptedIsFromThePeer(Replayed(own[..i]), own[i], own[0].cfg);
    }
    assert ReadAt(own, k);
  }

  // ----- two sides of one handshake -----

  /** Two configurations that belong together. */
  predicate Mirrored(a: Config, b: Config) {
    && a.messages == b.messages && a.initiator != b.initiator && a.psk == b.psk
    && (a.remote.Some? ==> a.remote.value == b.local)
    && (b.remote.Some? ==> b.remote.value == a.local)
  }

  /** A session of `cfg` that has just written its `n`-th message of the exchange. */
  predicate JustWrote(s: Session, cfg: Config, exchange: seq<nat>, peer: KeyId) {
    if |exchange| >= cfg.messages && |exchange| > 1 then s == Transport(exchange, cfg.initiator, 0, 0, Some(peer))
    else s == Handshaking(cfg, exchange, if |exchange| > 1 then Some(peer) else None)
  }

  predicate Awaits(s: Session, cfg: Config, exchange: seq<nat>, peer: KeyId) {
    s == Handshaking(cfg, exchange, if |exchange| > 1 then Some(peer) else None)
  }

  /** Both sides at the end, how many messages were delivered, and the reads each side made. */
  datatype Outcome = Outcome(reader: Option<Session>, writer: Option<Session>, delivered: nat,
                             readerReads: seq<Action>, writerReads: seq<Action>)

  /** Deliver `m` to the side that waits for it, and every reply to the other side, until none comes. */
  function Delivered(reader: Option<Session>, rh: Handle, writer: Option<Session>, wh: Handle, m: Msg,
                     drawn: nat -> nat, count: nat, fuel: nat): Outcome
    decreases fuel
  {
    var read := Read(rh, m, drawn(count));
    var (s, reply) := On(reader, read);
    if fuel == 0 || !reply.WasRead? || reply.next.None? then Outcome(s, writer, count + 1, [read], [])
    else
      var o := Delivered(writer, wh, s, rh, reply.next.value, drawn, count + 1, fuel - 1);
      Outcome(o.writer, o.reader, o.delivered, [read] + o.writerReads, o.readerReads)
  }

  predicate Established(s: Option<Session>, exchange: seq<nat>, cfg: Config, peer: KeyId) {
    s == Some(Transport(exchange, cfg.initiator, 0, 0, Some(peer)))
  }

  /** One delivery: the reader answers exactly when its read did not finish the handshake. */
  lemma OneDelivery(r: Session, rc: Config, h: Handle, wc: Config, exchange: seq<nat>, eph: nat, m: Msg, drawn: nat)
    requires Mirrored(rc, wc) && rc.messages >= 1 && |exchange| < rc.messages
    requires Awaits(r, rc, exchange, wc.local) && (|exchange| % 2 == 0) == wc.initiator
    requires m == Msg(wc.messages, exchange, eph, wc.local, wc.remote, wc.psk)
    ensures var (s, reply) := On(Some(r), Read(h, m, drawn));
            var read := exchange + [eph];
            && reply.WasRead? && s.Some?
            && (reply.next.Some? <==> |read| < rc.messages)
            && if reply.next.None? then reply.done && Established(s, read, rc, wc.local)
               else && JustWrote(s.value, rc, read + [drawn], wc.local)
                    && reply.next.value == Msg(rc.messages, read, drawn, rc.local, rc.remote, rc.psk)
                    && (reply.done <==> |read| + 1 == rc.messages)
  {
  }

  lemma {:induction false} ExchangeRuns(r: Session, rc: Config, rh: Handle, w: Session, wc: Config, wh: Handle,
                                        exchange: seq<nat>, eph: nat, m: Msg, drawn: nat -> nat, count: nat, fuel: nat)
    returns (final: seq<nat>)
    requires Mirrored(rc, wc) && rc.messages >= 1 && |exchange| < rc.messages && count == |exchange|
    requires Awaits(r, rc, exchange, wc.local) && (|exchange| % 2 == 0) == wc.initiator
    requires m == Msg(wc.messages, exchange, eph, wc.local, wc.remote, wc.psk)
    requires JustWrote(w, wc, exchange + [eph], rc.local)
    requires fuel >= rc.messages - |exchange| - 1
    ensures var o := Delivered(Some(r), rh, Some(w), wh, m, drawn, count, fuel);
            && o.delivered == rc.messages
            && (rc.messages == 1 ==> o.writer == Some(w))
            && (rc.messages > 1 ==> Established(o.writer, final, wc, rc.local))
            && Established(o.reader, final, rc, wc.local)
    decreases fuel
  {
    hide On;
    var f := drawn(count);
    OneDelivery(r, rc, rh, wc, exchange, eph, m, f);
    var (s, reply) := On(Some(r), Read(rh, m, f));
    var read := exchange + [eph];
    if reply.next.None? {
      final := read;
    } else {
      final := ExchangeRuns(w, wc, wh, s.value, rc, rh, read, f, reply.next.value, drawn, count + 1, fuel - 1);
    }
  }

  /** The handshake of an initiator under handle `ih` and a responder under `rh`, from its first message. */
  function Exchanged(ic: Config, ih: Handle, rc: Config, rh: Handle, first: nat, drawn: nat -> nat): Outcome
    requires ic.initiator
  {
    var (i, m) := Born(ic, first);
    Delivered(Some(Born(rc, first).0), rh, Some(i), ih, m.value, drawn, 0, ic.messages)
  }

  /** Feeding each reply to the other side, exactly `messages` messages are delivered; then the responder
      has a channel to the initiator's key, and the initiator one to the responder's exactly if the
      pattern has more than one message: a single message leaves it in the handshake for ever. */
  lemma HandshakeCompletes(ic: Config, ih: Handle, rc: Config, rh: Handle, first: nat, drawn: nat -> nat)
    returns (final: seq<nat>)
    requires Mirrored(ic, rc) && ic.initiator && ic.messages >= 1
    ensures var o := Exchanged(ic, ih, rc, rh, first, drawn);
            && o.delivered == ic.messages
            && Established(o.reader, final, rc, ic.local)
            && (Established(o.writer, final, ic, rc.local) <==> ic.messages >= 2)
            && (ic.messages == 1 ==> o.writer.Some? && o.writer.value.Handshaking?)
  {
    hide On, Delivered;
    var (i, m) := Born(ic, first);
    final := ExchangeRuns(Born(rc, first).0, rc, rh, i, ic, ih, [], first, m.value, drawn, 0, ic.messages);
  }

  lemma ReplayedSnoc(history: seq<Action>, a: Action)
    ensures Replayed(history + [a]) == if a.Start? then Some(Born(a.cfg, a.drawn).0) else On(Replayed(history), a).0
  {
    hide On, Born;
    assert (history + [a])[..|history|] == history;
  }

  /** Each side's reads, replayed on its own, lead to where the exchange left it. */
  lemma {:induction false} ReadsReplay(reader: seq<Action>, rh: Handle, writer: seq<Action>, wh: Handle, m: Msg,
                                       drawn: nat -> nat, count: nat, fuel: nat)
    ensures var o := Delivered(Replayed(reader), rh, Replayed(writer), wh, m, drawn, count, fuel);
            Replayed(reader + o.readerReads) == o.reader && Replayed(writer + o.writerReads) == o.writer
    decreases fuel
  {
    hide On, Replayed;
    var read := Read(rh, m, drawn(count));
    var reply := On(Replayed(reader), read).1;
    ReplayedSnoc(reader, read);
    assert writer + [] == writer;
    if fuel != 0 && reply.WasRead? && reply.next.Some? {
      ReadsReplay(writer, wh, reader + [read], rh, reply.next.value, drawn, count + 1, fuel - 1);
      var o := Delivered(Replayed(writer), wh, Replayed(reader + [read]), rh, reply.next.value, drawn,
                         count + 1, fuel - 1);
      assert reader + ([read] + o.writerReads) == reader + [read] + o.writerReads;
    }
  }

  /** In registries where any number of other sessions come, go and fail in between: if each side's own
      operations are its start and the reads of the exchange, both end up with the channel. */
  lemma HandshakeCompletesAmongOthers(ic: Config, ih: Handle, ri: seq<Action>, rc: Config, rh: Handle,
                                      rr: seq<Action>, first: nat, drawn: nat -> nat)
    returns (final: seq<nat>)
    requires Mirrored(ic, rc) && ic.initiator && ic.messages >= 2
    requires OwnHistory(ri, ih) == [Start(ic, true, first)] + Exchanged(ic, ih, rc, rh, first, drawn).writerReads
    requires OwnHistory(rr, rh) == [Start(rc, true, first)] + Exchanged(ic, ih, rc, rh, first, drawn).readerReads
    ensures Established(At(After(ri), ih), final, ic, rc.local)
    ensures Established(At(After(rr), rh), final, rc, ic.local)
  {
    hide On, Delivered, OwnHistory, After, Replayed;
    final := HandshakeCompletes(ic, ih, rc, rh, first, drawn);
    var i, r := Start(ic, true, first), Start(rc, true, first);
    ReplayedSnoc([], i);
    ReplayedSnoc([], r);
    assert [] + [i] == [i] && [] + [r] == [r];
    ReadsReplay([r], rh, [i], ih, Born(ic, first).1.value, drawn, 0, ic.messages);
    SessionsAreIndependent(ri, ih);
    SessionsAreIndependent(rr, rh);
  }

  // ----- the channel -----

  /** The frames one side makes of some texts: those too large are refused and leave none. */
  function Sent(s: Session, texts: seq<seq<byte>>): seq<Sealed>
    requires s.Transport?
    decreases |texts|
  {
    if texts == [] then []
    else
      var (t, reply) := On(Some(s), Encrypt(0, texts[0]));
      (if reply.WasEncrypted? then [reply.sealed] else []) + Sent(t.value, texts[1..])
  }

  /** What a session makes of frames as they come in: those it accepts, in order. */
  function Opened(s: Session, frames: seq<Sealed>): seq<seq<byte>>
    requires s.Transport?
    decreases |frames|
  {
    if frames == [] then []
    else
      var (t, reply) := On(Some(s), Decrypt(0, frames[0]));
      (if reply.WasDecrypted? then [reply.text] else []) + Opened(t.value, frames[1..])
  }

  /** The texts that fit one frame. */
  function Fitting(texts: seq<seq<byte>>): seq<seq<byte>> {
    if texts == [] then []
    else (if |texts[0]| > MAX_MSG - 16 then [] else [texts[0]]) + Fitting(texts[1..])
  }

  /** Across an established pair, whatever one side can encrypt the other decrypts, in order; a text too
      large for a frame disturbs nothing. */
  lemma {:induction false} ChannelDelivers(a: Session, b: Session, texts: seq<seq<byte>>)
    requires a.Transport? && b.Transport? && a.channel == b.channel && a.initiator != b.initiator
             && a.sent == b.received
    ensures Opened(b, Sent(a, texts)) == Fitting(texts)
    decreases |texts|
  {
    if texts != [] {
      if |texts[0]| > MAX_MSG - 16 {
        ChannelDelivers(a, b, texts[1..]);
        assert [] + Sent(a, texts[1..]) == Sent(a, texts[1..]);
      } else {
        var a2, b2 := a.(sent := a.sent + 1), b.(received := b.received + 1);
        var frames := Sent(a, texts);
        assert frames[1..] == Sent(a2, texts[1..]);
        ChannelDelivers(a2, b2, texts[1..]);
      }
    }
  }

  /** The session after some further operations on it. */
  function Later(s: Option<Session>, ops: seq<Action>): Option<Session>
    requires forall a | a in ops :: !a.Start?
    decreases |ops|
  {
    if ops == [] then s else Later(On(s, ops[0]).0, ops[1..])
  }

  /** The session is on this channel and has received at least so many frames, or is gone. */
  predicate Beyond(s: Option<Session>, channel: seq<nat>, received: nat) {
    s.Some? ==> s.value.Transport? && s.value.channel == channel && s.value.received >= received
  }

  lemma {:induction false} ReceivedGrows(s: Option<Session>, ops: seq<Action>, channel: seq<nat>, received: nat)
    requires (forall a | a in ops :: !a.Start?) && Beyond(s, channel, received)
    ensures Beyond(Later(s, ops), channel, received)
    decreases |ops|
  {
    hide On;
    if ops != [] {
      assert ops[0] in ops;
      BeyondStays(s, ops[0], channel, received);
      ReceivedGrows(On(s, ops[0]).0, ops[1..], channel, received);
    }
  }

  lemma BeyondStays(s: Option<Session>, a: Action, channel: seq<nat>, received: nat)
    requires !a.Start? && Beyond(s, channel, received)
    ensures Beyond(On(s, a).0, channel, received)
  {
  }

  /** A session accepts exactly the next frame of the other side on its own channel; any other fails and
      changes nothing. Once accepted, a frame is refused for ever, whatever is done with the session. */
  lemma FramesOpenOnce(s: Session, c: Sealed, ops: seq<Action>)
    requires s.Transport? && forall a | a in ops :: !a.Start?
    ensures var (t, reply) := On(Some(s), Decrypt(0, c));
            && (reply.WasDecrypted? <==>
                  c.exchange == s.channel && c.byInitiator != s.initiator && c.nonce == s.received)
            && (!reply.WasDecrypted? ==> t == Some(s))
            && (reply.WasDecrypted? ==> On(Later(t, ops), Decrypt(0, c)).1.Failed?)
  {
    hide Later;
    var (t, reply) := On(Some(s), Decrypt(0, c));
    if reply.WasDecrypted? {
      ReceivedGrows(t, ops, s.channel, s.received + 1);
    }
  }
}
