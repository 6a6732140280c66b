/** What a session does, told by its own operations and the replies they got, without the session. */
module HandshakeTrace {
  import opened Wrappers
  import opened Bytes
  import opened Handshake

  /** The operations of one session: a start, and then none. */
  predicate Lone(own: seq<Action>) {
    own != [] && own[0].Start? && forall i | 0 < i < |own| :: !own[i].Start?
  }

  function ReplyIn(own: seq<Action>, i: nat): Reply
    requires i < |own| && !own[i].Start?
  {
    On(Replayed(own[..i]), own[i]).1
  }

  /** The ephemeral keys of all handshake messages so far, the peer's and its own, in order. */
  function Ephemerals(own: seq<Action>): seq<nat> {
    if own == [] then []
    else
      var n := |own| - 1;
      Ephemerals(own[..n]) +
      match own[n]
      case Start(cfg, _, drawn) => if cfg.initiator then [drawn] else []
      case Read(_, m, drawn) =>
        (match ReplyIn(own, n)
         case WasRead(None, _) => [m.ephemeral]
         case WasRead(Some(_), _) => [m.ephemeral, drawn]
         case _ => [])
      case _ => []
  }

  /** How many frames have been made and opened. */
  function Made(own: seq<Action>): nat {
    if own == [] then 0
    else
      var n := |own| - 1;
      Made(own[..n]) + if own[n].Encrypt? && ReplyIn(own, n).WasEncrypted? then 1 else 0
  }

  function Unsealed(own: seq<Action>): nat {
    if own == [] then 0
    else
      var n := |own| - 1;
      Unsealed(own[..n]) + if own[n].Decrypt? && ReplyIn(own, n).WasDecrypted? then 1 else 0
  }

  predicate Told(s: Option<Session>, cfg: Config, exchange: seq<nat>, made: nat, got: nat) {
    match s
    case None => true
    case Some(Handshaking(c, ex, _)) => c == cfg && ex == exchange && made == 0 && got == 0
    case Some(Transport(channel, initiator, sent, received, _)) =>
      channel == exchange && initiator == cfg.initiator && sent == made && received == got
  }

  lemma OnTells(s: Option<Session>, a: Action, cfg: Config, exchange: seq<nat>, made: nat, got: nat)
    requires !a.Start? && Told(s, cfg, exchange, made, got)
    ensures var (t, r) := On(s, a);
            var more := if a.Read? && r.WasRead? then
                          (if r.next.Some? then [a.msg.ephemeral, a.drawn] else [a.msg.ephemeral]) else [];
            Told(t, cfg, exchange + more, made + (if a.Encrypt? && r.WasEncrypted? then 1 else 0),
                 got + if a.Decrypt? && r.WasDecrypted? then 1 else 0)
  {
    assert exchange + [] == exchange;
    if a.Read? {
      assert exchange + [a.msg.ephemeral] + [a.drawn] == exchange + [a.msg.ephemeral, a.drawn];
    }
  }

  lemma {:induction false} HistoryTells(own: seq<Action>)
    requires Lone(own)
    ensures Told(Replayed(own), own[0].cfg, Ephemerals(own), Made(own), Unsealed(own))
    decreases |own|
  {
    hide On, Told;
    var n := |own| - 1;
    var before, a := own[..n], own[n];
    if n == 0 {
      StartTells(own);
    } else {
      assert Lone(before) && before[0] == own[0];
      HistoryTells(before);
      OnTells(Replayed(before), a, own[0].cfg, Ephemerals(before), Made(before), Unsealed(before));
    }
  }

  lemma StartTells(own: seq<Action>)
    requires Lone(own) && |own| == 1
    ensures Told(Replayed(own), own[0].cfg, Ephemerals(own), Made(own), Unsealed(own))
  {
    assert own[..0] == [];
  }

  /** A session in its handshake accepts a message exactly if it is of its pattern, from the other side in turn,
      continues the exchange so far, comes from the peer and is for the reader that are named, if any are,
      and, as the last one, was made under the same psk. The reply is the next message, if there is one. */
  lemma ReadsExactly(own: seq<Action>, h: Handle, m: Msg, drawn: nat)
    requires Lone(own) && Replayed(own).Some? && Replayed(own).value.Handshaking?
    ensures var cfg, exchange := own[0].cfg, Ephemerals(own);
            var n := |exchange|;
            var r := On(Replayed(own), Read(h, m, drawn)).1;
            var accepted := && m.messages == cfg.messages && n < m.messages && (n % 2 == 0) != cfg.initiator
                            && m.prior == exchange
                            && (cfg.remote == None || cfg.remote == Some(m.author))
                            && (m.reader == None || m.reader == Some(cfg.local))
                            && (n + 1 < m.messages || m.psk == cfg.psk);
            if !accepted then r == Failed(ReadFailed)
            else if n + 1 == m.messages then r == WasRead(None, true)
            else r == WasRead(Some(Msg(cfg.messages, exchange + [m.ephemeral], drawn, cfg.local, cfg.remote, cfg.psk)),
                              n + 2 == m.messages)
  {
    hide Replayed, Ephemerals;
    HistoryTells(own);
  }

  /** A session with its channel seals texts of up to 65519 bytes under the number of frames it has made, and
      opens exactly the other side's frame with the number of frames it has opened. */
  lemma FramesExactly(own: seq<Action>, h: Handle, text: seq<byte>, c: Sealed)
    requires Lone(own) && Replayed(own).Some? && Replayed(own).value.Transport?
    ensures var cfg := own[0].cfg;
            && (On(Replayed(own), Encrypt(h, text)).1 ==
                if |text| > 65519 then Failed(TooLarge)
                else WasEncrypted(Sealed(Ephemerals(own), cfg.initiator, Made(own), text)))
            && (On(Replayed(own), Decrypt(h, c)).1 ==
                if c == Sealed(Ephemerals(own), !cfg.initiator, Unsealed(own), c.text) then WasDecrypted(c.text)
                else Failed(DecryptFailed))
  {
    hide Replayed, Ephemerals, Made, Unsealed;
    HistoryTells(own);
  }

  /** What is refused, and why. */
  lemma Refusals(s: Option<Session>, h: Handle, text: seq<byte>, c: Sealed, m: Msg, drawn: nat)
    ensures var large := |text| > 65519;
            var why := if s == None then UnknownSession else NotComplete;
            && (s == None || s.value.Handshaking? ==>
                  && On(s, Encrypt(h, text)) == (s, Failed(if large then TooLarge else why))
                  && On(s, Decrypt(h, c)) == (s, Failed(why))
                  && On(s, RemoteStatic(h)) == (s, Failed(why)))
            && (s == None ==> On(s, Read(h, m, drawn)) == (None, Failed(UnknownSession)))
            && (s.Some? && s.value.Transport? ==>
                  && On(s, Read(h, m, drawn)) == (s, Failed(AlreadyComplete))
                  && On(s, RemoteStatic(h)) ==
                     (s, match s.value.remoteStatic case None => Failed(NoRemoteStatic) case Some(k) => Static(k)))
  {
  }

  /** A session that was closed is gone, whatever happens to others, until its handle is given out again. */
  lemma {:induction false} ClosedIsGone(run: seq<Action>, i: nat, h: Handle)
    requires i < |run| && run[i] == Close(h)
    requires forall j: nat | i < j < |run| && Allocates(run[j]) :: After(run[..j]).next != h
    ensures At(After(run), h) == None
    decreases |run|
  {
    hide On;
    var n := |run| - 1;
    StepAt(After(run[..n]), run[n], h);
    if i < n {
      assert forall j: nat | i < j < n :: run[..n][..j] == run[..j];
      ClosedIsGone(run[..n], i, h);
      if !run[n].Start? {
        NothingStaysNothing(run[n]);
      }
    } else {
      Closing(At(After(run[..n]), h), h);
    }
  }

  lemma Closing(s: Option<Session>, h: Handle)
    ensures On(s, Close(h)) == (None, Closed)
  {
  }

  /** A live session's own operations are of that form. */
  lemma {:induction false} LiveIsLone(run: seq<Action>, h: Handle)
    ensures var own := OwnHistory(run, h); own != [] && own[0].Start? ==> Lone(own)
    ensures h in After(run).sessions ==> Lone(OwnHistory(run, h)) && Replayed(OwnHistory(run, h)) == At(After(run), h)
    decreases |run|
  {
    hide On, After, Step;
    SessionsAreIndependent(run, h);
    HistoryChecksPeer(run, h);
    if run != [] {
      LiveIsLone(run[..|run| - 1], h);
    }
  }
}
