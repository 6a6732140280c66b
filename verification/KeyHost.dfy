/** Many vaults share the one key slot: each host call loads its own key and runs its operation in one
    stretch between two awaits. */
module KeyHost {
  import opened Wrappers
  import opened Bytes
  import opened KeySlot

  /** Operations carry the key of the vault they are for, as the caller sent it; calls of the old kind
      do not. An unwrap is followed by an export, and a batch decrypts many entries after one load. */
  datatype Call =
    | WithVek(vek: Base64Of<seq<byte>>, op: Op)
    | UnwrapAndExport(cred: Credential, slotId: Base64Of<seq<byte>>, blob: SlotBlob, magic: seq<byte>)
    | Batch(vek: Base64Of<seq<byte>>, entries: seq<Payload>)
    | Bare(op: Op)

  datatype HostReply =
    | Replies(reply: Reply)
    | Recovered(vek: Key)
    | Refused
    | Texts(texts: seq<string>)
    | Threw(error: Error)

  /** An exception in the operation is an exception of the call. */
  function Outcome(r: Reply): HostReply {
    if r.Failed? then Threw(r.error) else Replies(r)
  }

  /** The texts before a reply; a failure makes up the reply alone. */
  function Preceded(texts: seq<string>, rest: HostReply): HostReply {
    if rest.Texts? then Texts(texts + rest.texts) else rest
  }

  lemma PrecededTwice(a: seq<string>, b: seq<string>, rest: HostReply)
    ensures Preceded(a, Preceded(b, rest)) == Preceded(a + b, rest)
  {
    if rest.Texts? {
      assert a + (b + rest.texts) == a + b + rest.texts;
    }
  }

  function DecryptAll(slot: Option<Key>, entries: seq<Payload>): HostReply {
    if entries == [] then Texts([])
    else match Do(slot, DecryptEntry(entries[0])).1
      case Text(t) => Preceded([t], DecryptAll(slot, entries[1..]))
      case Failed(e) => Threw(e)
      case _ => Threw(AesFailed)
  }

  /** One call's stretch between its awaits. */
  function Section(slot: Option<Key>, call: Call): (Option<Key>, HostReply) {
    match call
    case WithVek(vek, op) =>
      var (s, loaded) := Do(slot, UnlockWith(vek));
      if loaded.Failed? then (s, Threw(loaded.error)) else (Do(s, op).0, Outcome(Do(s, op).1))
    case UnwrapAndExport(c, id, blob, magic) =>
      var (s, r) := Do(slot, Unwrap(c, id, blob, magic));
      if r.Failed? then (s, Threw(r.error))
      else if r != Answer(true) then (s, Refused)
      else (match Do(s, Export).1 case Exported(vek) => (s, Recovered(vek)) case _ => (s, Threw(Locked)))
    case Batch(vek, entries) =>
      var (s, loaded) := Do(slot, UnlockWith(vek));
      if loaded.Failed? then (s, Threw(loaded.error)) else (s, DecryptAll(s, entries))
    case Bare(op) => (Do(slot, op).0, Outcome(Do(slot, op).1))
  }

  class Host {
    const core: Core

    constructor (c: Core)
      ensures core == c
    {
      core := c;
    }

    /** Load the injected key when there is one, then run the operation. */
    method WrapWithVek(vek: Option<Base64Of<seq<byte>>>, c: Credential, id: Base64Of<seq<byte>>, magic: seq<byte>,
                       wrapIv: Iv) returns (r: HostReply)
      modifies core
      ensures var op := Wrap(c, id, magic, wrapIv);
              (core.vek, r) == Section(old(core.vek), if vek.Some? then WithVek(vek.value, op) else Bare(op))
    {
      if vek.Some? {
        var loaded := core.UnlockWithVek(vek.value);
        if loaded.Failed? {
          return Threw(loaded.error);
        }
      }
      var reply := core.WrapVek(c, id, magic, wrapIv);
      r := Outcome(reply);
    }

    method UnwrapSlot(c: Credential, id: Base64Of<seq<byte>>, blob: SlotBlob, magic: seq<byte>) returns (r: HostReply)
      modifies core
      ensures (core.vek, r) == Section(old(core.vek), UnwrapAndExport(c, id, blob, magic))
    {
      var reply := core.UnwrapVek(c, id, blob, magic);
      if reply.Failed? {
        return Threw(reply.error);
      }
      if reply != Answer(true) {
        return Refused;
      }
      r := if core.vek.Some? then Recovered(core.vek.value) else Threw(Locked);
    }

    method DecryptBatch(vek: Base64Of<seq<byte>>, entries: seq<Payload>) returns (r: HostReply)
      modifies core
      ensures (core.vek, r) == Section(old(core.vek), Batch(vek, entries))
    {
      hide EntryText;
      var loaded := core.UnlockWithVek(vek);
      if loaded.Failed? {
        return Threw(loaded.error);
      }
      r := DecryptEntries(entries);
    }

    method DecryptEntries(entries: seq<Payload>) returns (r: HostReply)
      ensures r == DecryptAll(core.vek, entries)
    {
      hide EntryText;
      var texts: seq<string> := [];
      for i := 0 to |entries|
        invariant DecryptAll(core.vek, entries) == Preceded(texts, DecryptAll(core.vek, entries[i..]))
      {
        assert entries[i..][0] == entries[i] && entries[i..][1..] == entries[i + 1..];
        var one := Do(core.vek, DecryptEntry(entries[i])).1;
        if one.Failed? {
          return Threw(one.error);
        }
        PrecededTwice(texts, [one.text], DecryptAll(core.vek, entries[i + 1..]));
        texts := texts + [one.text];
      }
      assert texts + [] == texts;
      r := Texts(texts);
    }
  }

  // ----- any interleaving -----

  /** A call waits for the module, then either runs its section at once or, in a host that awaits again
      between the two, first loads its key. */
  datatype Pc = Waiting | KeyLoaded | Replied(reply: HostReply)

  datatype State = State(slot: Option<Key>, calls: seq<Call>, pcs: seq<Pc>)

  datatype Action = Arrive(call: Call) | Resume(who: nat)

  predicate Enabled(s: State, a: Action) {
    a.Arrive? || (a.who < |s.pcs| == |s.calls| && !s.pcs[a.who].Replied?)
  }

  function Resumed(slot: Option<Key>, call: Call, pc: Pc, awaitsBetween: bool): (Option<Key>, Pc) {
    if pc.KeyLoaded? && call.WithVek? then (Do(slot, call.op).0, Replied(Outcome(Do(slot, call.op).1)))
    else if awaitsBetween && call.WithVek? then
      var (s, loaded) := Do(slot, UnlockWith(call.vek));
      (s, if loaded.Failed? then Replied(Threw(loaded.error)) else KeyLoaded)
    else
      var (s, r) := Section(slot, call);
      (s, Replied(r))
  }

  function Next(s: State, a: Action, awaitsBetween: bool): State
    requires Enabled(s, a)
  {
    match a
    case Arrive(c) => State(s.slot, s.calls + [c], s.pcs + [Waiting])
    case Resume(i) =>
      var (slot, pc) := Resumed(s.slot, s.calls[i], s.pcs[i], awaitsBetween);
      State(slot, s.calls, s.pcs[i := pc])
  }

  predicate Legal(run: seq<Action>, awaitsBetween: bool)
    decreases |run|, 0
  {
    || run == []
    || (Legal(run[..|run| - 1], awaitsBetween) && Enabled(AfterRun(run[..|run| - 1], awaitsBetween), run[|run| - 1]))
  }

  function AfterRun(run: seq<Action>, awaitsBetween: bool): State
    requires Legal(run, awaitsBetween)
    decreases |run|, 1
  {
    if run == [] then State(None, [], [])
    else Next(AfterRun(run[..|run| - 1], awaitsBetween), run[|run| - 1], awaitsBetween)
  }

  /** Calls that bring what they need: the key of their vault, a credential and its slot, or nothing
      because they never look at the slot. */
  predicate SelfContained(call: Call) {
    match call
    case WithVek(_, _) => true
    case UnwrapAndExport(_, _, _, _) => true
    case Batch(_, _) => true
    case Bare(op) => op.Lock? || op.Generate? || op.UnlockWith? || op.Verify? || op.Seal? || op.Open?
  }

  lemma SectionIgnoresTheSlot(s: Option<Key>, t: Option<Key>, call: Call)
    requires SelfContained(call)
    ensures Section(s, call).1 == Section(t, call).1
  {
    hide EntryText, OuterText, OpenedFile, DecryptAll;
  }

  /** In every state of every run, calls have either not run or been answered as they would have been on
      an empty slot of their own. */
  ghost predicate AllAnsweredAlone(s: State) {
    && |s.pcs| == |s.calls|
    && forall i | 0 <= i < |s.pcs| ::
         && !s.pcs[i].KeyLoaded?
         && (SelfContained(s.calls[i]) && s.pcs[i].Replied? ==> s.pcs[i].reply == Section(None, s.calls[i]).1)
  }

  lemma StepAnswersAlone(s: State, a: Action)
    requires AllAnsweredAlone(s) && Enabled(s, a)
    ensures AllAnsweredAlone(Next(s, a, false))
  {
    hide Section, SelfContained;
    if a.Resume? && SelfContained(s.calls[a.who]) {
      SectionIgnoresTheSlot(s.slot, None, s.calls[a.who]);
    }
  }

  lemma {:induction false} RunAnswersAlone(run: seq<Action>)
    requires Legal(run, false)
    ensures AllAnsweredAlone(AfterRun(run, false))
    decreases |run|
  {
    hide Next, Enabled;
    if run != [] {
      RunAnswersAlone(run[..|run| - 1]);
      StepAnswersAlone(AfterRun(run[..|run| - 1], false), run[|run| - 1]);
    }
  }

  /** Whatever else is going on in the host, a call that brings its own key is answered as if it ran
      alone. */
  lemma RepliesDoNotMix(run: seq<Action>, i: nat)
    requires Legal(run, false) && i < |AfterRun(run, false).pcs| && AfterRun(run, false).pcs[i].Replied?
    requires |AfterRun(run, false).calls| == |AfterRun(run, false).pcs| && SelfContained(AfterRun(run, false).calls[i])
    ensures AfterRun(run, false).pcs[i].reply == Section(None, AfterRun(run, false).calls[i]).1
  {
    hide Section, SelfContained;
    RunAnswersAlone(run);
  }

  lemma UnwrapReportsItsBlob(slot: Option<Key>, c: Credential, id: Base64Of<seq<byte>>, blob: SlotBlob,
                             magic: seq<byte>)
    requires Section(slot, UnwrapAndExport(c, id, blob, magic)).1.Recovered?
    ensures Derive(c).Success? && blob.wrapIv.Some? && id.Some?
    ensures var k := Section(slot, UnwrapAndExport(c, id, blob, magic)).1.vek;
            && blob.wrappedVek == Some(Box(Derived(Derive(c).value), blob.wrapIv.value, k))
            && blob.verifier == Some(Tag(Derive(c).value, magic + id.value))
  {
  }

  /** A successful unwrap reports the very key inside the slot it was given, in every interleaving. */
  lemma UnwrapReportsItsOwnKey(run: seq<Action>, i: nat)
    requires Legal(run, false) && i < |AfterRun(run, false).pcs| == |AfterRun(run, false).calls|
    requires AfterRun(run, false).calls[i].UnwrapAndExport?
    requires AfterRun(run, false).pcs[i].Replied? && AfterRun(run, false).pcs[i].reply.Recovered?
    ensures var call := AfterRun(run, false).calls[i];
            && Derive(call.cred).Success? && call.blob.wrapIv.Some?
            && call.blob.wrappedVek == Some(Box(Derived(Derive(call.cred).value), call.blob.wrapIv.value,
                                                AfterRun(run, false).pcs[i].reply.vek))
  {
    hide Section, AfterRun, Legal;
    RepliesDoNotMix(run, i);
    var call := AfterRun(run, false).calls[i];
    UnwrapReportsItsBlob(None, call.cred, call.slotId, call.blob, call.magic);
  }

  // ----- what the replies are -----

  predicate Keyed(op: Op) {
    op.Wrap? || op.EncryptEntry? || op.DecryptEntry? || op.EncryptOuter? || op.DecryptOuter?
  }

  /** An operation that comes with a key is answered as on a slot that holds that key; a key that does not
      decode or is not 32 bytes long is refused. */
  lemma AnsweredUnderItsKey(vek: Base64Of<seq<byte>>, op: Op)
    requires Keyed(op)
    ensures var r := Section(None, WithVek(vek, op)).1;
            && (vek == None ==> r == Threw(NotBase64))
            && (vek.Some? && |vek.value| != 32 ==> r == Threw(BadVekLength))
            && (vek.Some? && |vek.value| == 32 ==>
                  match Do(Some(vek.value), op).1
                  case Failed(e) => r == Threw(e)
                  case reply => r == Replies(reply))
  {
    hide EntryText, OuterText, OpenedFile;
  }

  /** In every interleaving: what one call encrypted under a key, another decrypts under the same key and
      under no other. */
  lemma EntriesReadBack(run: seq<Action>, i: nat, j: nat, mine: Key, theirs: Key, text: string, dek: Key, iv: Iv,
                        dekIv: Iv, p: Payload)
    requires Legal(run, false)
    requires var s := AfterRun(run, false);
             && i < |s.pcs| == |s.calls| && j < |s.pcs|
             && s.calls[i] == WithVek(Some(mine), EncryptEntry(text, dek, iv, dekIv))
             && s.calls[j] == WithVek(Some(theirs), DecryptEntry(p))
             && s.pcs[i] == Replied(Replies(Entry(p))) && s.pcs[j].Replied?
    ensures AfterRun(run, false).pcs[j].reply == if mine == theirs then Replies(Text(text)) else Threw(AesFailed)
  {
    hide AfterRun, Legal, Section, EntryText;
    RepliesDoNotMix(run, i);
    RepliesDoNotMix(run, j);
    AnsweredUnderItsKey(Some(mine), EncryptEntry(text, dek, iv, dekIv));
    AnsweredUnderItsKey(Some(theirs), DecryptEntry(p));
    EntryMadeUnder(mine, EncryptEntry(text, dek, iv, dekIv));
    EntryDecryptsUnderItsKeyOnly(mine, text, dek, iv, dekIv, Some(theirs));
  }

  /** `p` is an entry of this text, made under `k`. */
  ghost predicate MadeUnder(k: Key, p: Payload, text: string) {
    exists dek: Key, iv: Iv, dekIv: Iv :: p == EntryOf(k, text, dek, iv, dekIv)
  }

  lemma Reads(k: Key, p: Payload, text: string)
    requires MadeUnder(k, p, text)
    ensures Do(Some(k), DecryptEntry(p)).1 == Text(text)
  {
    DecryptsExactly(k, p, text);
  }

  /** A batch of entries made under its key gives all their texts, in order; the first that is not stops it. */
  lemma {:induction false} BatchReadsBack(k: Key, entries: seq<Payload>, texts: seq<string>)
    requires |texts| <= |entries|
    requires forall i | 0 <= i < |texts| :: MadeUnder(k, entries[i], texts[i])
    ensures |texts| == |entries| ==> DecryptAll(Some(k), entries) == Texts(texts)
    ensures |texts| < |entries| && Do(Some(k), DecryptEntry(entries[|texts|])).1.Failed? ==>
              DecryptAll(Some(k), entries) == Threw(Do(Some(k), DecryptEntry(entries[|texts|])).1.error)
    decreases |entries|
  {
    hide Do, MadeUnder;
    if texts != [] {
      Reads(k, entries[0], texts[0]);
      forall i | 0 <= i < |texts[1..]|
        ensures MadeUnder(k, entries[1..][i], texts[1..][i])
      {
        assert MadeUnder(k, entries[i + 1], texts[i + 1]);
      }
      BatchReadsBack(k, entries[1..], texts[1..]);
      assert [texts[0]] + texts[1..] == texts;
    }
  }

  lemma BatchLoadsItsKey(s: Option<Key>, k: Key, entries: seq<Payload>)
    ensures Section(s, Batch(Some(k), entries)) == (Some(k), DecryptAll(Some(k), entries))
  {
  }

  /** In every interleaving: unwrapping what was wrapped under a credential gives the very key to it, and to
      every other usable credential a refusal. */
  lemma UnwrapGivesTheWrappedKey(run: seq<Action>, i: nat, j: nat, k: Key, c: Credential, other: Credential,
                                 id: Base64Of<seq<byte>>, magic: seq<byte>, wrapIv: Iv, blob: SlotBlob)
    requires Legal(run, false) && Usable(other)
    requires var s := AfterRun(run, false);
             && i < |s.pcs| == |s.calls| && j < |s.pcs|
             && s.calls[i] == WithVek(Some(k), Wrap(c, id, magic, wrapIv))
             && s.calls[j] == UnwrapAndExport(other, id, blob, magic)
             && s.pcs[i] == Replied(Replies(Wrapped(blob))) && s.pcs[j].Replied?
    ensures AfterRun(run, false).pcs[j].reply == if c == other then Recovered(k) else Refused
  {
    hide AfterRun, Legal, DecryptAll;
    RepliesDoNotMix(run, i);
    RepliesDoNotMix(run, j);
    AnsweredUnderItsKey(Some(k), Wrap(c, id, magic, wrapIv));
    OnlyItsCredentialUnwraps(k, c, other, id, magic, wrapIv, None);
  }

  // ----- why the load and the operation must not be separated -----

  lemma Continued(run: seq<Action>, a: Action, awaitsBetween: bool)
    requires Legal(run, awaitsBetween) && Enabled(AfterRun(run, awaitsBetween), a)
    ensures Legal(run + [a], awaitsBetween)
            && AfterRun(run + [a], awaitsBetween) == Next(AfterRun(run, awaitsBetween), a, awaitsBetween)
  {
    hide Next, Enabled;
    assert (run + [a])[..|run|] == run;
  }

  lemma Fresh(awaitsBetween: bool)
    ensures Legal([], awaitsBetween) && AfterRun([], awaitsBetween) == State(None, [], [])
  {
  }

  /** Why the host has no await between loading and running: in a hypothetical one that had, two vaults'
      calls can cross, and the first is answered with the second vault's key. */
  lemma AwaitBetweenMixesKeys(mine: Key, theirs: Key, text: string, dek: Key, iv: Iv, dekIv: Iv)
    returns (run: seq<Action>)
    requires mine != theirs
    ensures Legal(run, true)
    ensures var s := AfterRun(run, true);
            && |s.calls| == |s.pcs| == 2 && s.calls[0] == WithVek(Some(mine), EncryptEntry(text, dek, iv, dekIv))
               && SelfContained(s.calls[0])
            && s.pcs[0] == Replied(Replies(Entry(EntryOf(theirs, text, dek, iv, dekIv))))
            && s.pcs[0].reply != Section(None, s.calls[0]).1
  {
    hide AfterRun, Legal, EntryOf;
    var op := EncryptEntry(text, dek, iv, dekIv);
    var a, b := WithVek(Some(mine), op), WithVek(Some(theirs), op);
    Fresh(true);
    Continued([], Arrive(a), true);
    run := [] + [Arrive(a)];
    Continued(run, Arrive(b), true);
    run := run + [Arrive(b)];
    Continued(run, Resume(0), true);
    run := run + [Resume(0)];
    Continued(run, Resume(1), true);
    run := run + [Resume(1)];
    assert AfterRun(run, true) == State(Some(theirs), [a, b], [KeyLoaded, KeyLoaded]);
    Continued(run, Resume(0), true);
    run := run + [Resume(0)];
    EntriesDiffer(mine, theirs, text, dek, iv, dekIv);
  }

  lemma EntriesDiffer(mine: Key, theirs: Key, text: string, dek: Key, iv: Iv, dekIv: Iv)
    requires mine != theirs
    ensures EntryOf(mine, text, dek, iv, dekIv) != EntryOf(theirs, text, dek, iv, dekIv)
  {
  }
}
