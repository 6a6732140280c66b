/** What holds in every reachable state of racing and dying migrations. */
module StorageSafety {
  import opened Wrappers
  import opened StorageMachine
  import Fresh = StorageFresh
  import Registered = StorageRegistered

  /** Exactly the starts from which no run can lose the vault. Without a registry: there is a flat blob,
      or the file handle can be relied on. With a vault registered as flat: its record is there and,
      once moved, cannot be mistaken for a ghost. */
  predicate SafeStart(w: World, s: State) {
    || w.orig == map[]
    || (match s.disk.reg
        case Absent => BlobIn(w.orig).Some? || !w.handle || !w.flaky
        case Published(vaults, None) => true
        case Published(vaults, Some(f)) => f in vaults && (Live(w.orig) || (w.handle && !w.flaky)))
  }

  // ----- nothing to migrate -----

  predicate IdlePc(pc: Pc) {
    match pc
    case ReadRaw => true
    case ReadBlob => true
    case AskHandle => true
    case CheckEmpty => true
    case PublishEmpty => true
    case ReapRead => true
    case Finished => true
    case ReadBlobOf(_, first) => !first
    case Returned(_, first, _) => !first
    case NoVault => true
    case Dead => true
    case _ => false
  }

  /** Without a blob and without a handle the only registry ever written is the empty one. */
  predicate IdleInv(w: World, s: State) {
    && s.disk.flat == w.orig
    && (s.disk.reg == Absent || s.disk.reg == Published([], None))
    && forall i | 0 <= i < |s.ctxs| :: IdlePc(s.ctxs[i])
  }

  lemma IdleStep(w: World, s: State, a: Action)
    requires !w.handle && BlobIn(w.orig).None? && IdleInv(w, s) && Allowed(w, s, a)
    ensures IdleInv(w, Perform(s, a))
  {
    if a.Act? {
      assert IdlePc(s.ctxs[a.who]);
    }
  }

  lemma {:induction false} FlatShrinks(w: World, s0: State, run: seq<Action>, s: State)
    requires Runs(w, s0, run, s)
    ensures s.disk.flat == s0.disk.flat || s.disk.flat == map[]
    decreases |run|
  {
    if run != [] {
      FlatShrinks(w, Perform(s0, run[0]), run[1..], s);
    }
  }

  // ----- invariants along runs -----

  lemma {:induction false} FreshRun(w: World, s0: State, run: seq<Action>, s: State)
    requires Fresh.Inv(w, s0) && Runs(w, s0, run, s)
    ensures Fresh.Inv(w, s)
    decreases |run|
  {
    hide Fresh.Inv, Allowed, Perform;
    if run != [] {
      AllowedIsPerformable(w, s0, run[0]);
      Fresh.InvStep(w, s0, run[0]);
      FreshRun(w, Perform(s0, run[0]), run[1..], s);
    }
  }

  lemma {:induction false} RegisteredRun(w: World, s0: State, o: Registered.Start, run: seq<Action>, s: State)
    requires Registered.Inv(w, s0, o) && Runs(w, s0, run, s)
    ensures Registered.Inv(w, s, o)
    decreases |run|
  {
    hide Registered.Inv, Allowed, Perform;
    if run != [] {
      AllowedIsPerformable(w, s0, run[0]);
      Registered.InvStep(w, s0, o, run[0]);
      RegisteredRun(w, Perform(s0, run[0]), o, run[1..], s);
    }
  }

  lemma {:induction false} IdleRun(w: World, s0: State, run: seq<Action>, s: State)
    requires !w.handle && BlobIn(w.orig).None? && IdleInv(w, s0) && Runs(w, s0, run, s)
    ensures IdleInv(w, s)
    decreases |run|
  {
    hide IdleInv, Allowed, Perform;
    if run != [] {
      AllowedIsPerformable(w, s0, run[0]);
      IdleStep(w, s0, run[0]);
      IdleRun(w, Perform(s0, run[0]), run[1..], s);
    }
  }

  // ----- the vault survives -----

  lemma SafeStartsStaySafe(w: World, s0: State, s: State)
    requires Initial(w, s0) && SafeStart(w, s0) && Reachable(w, s0, s)
    ensures Kept(w, s.disk)
  {
    hide Runs, Fresh.PcInv, Registered.PcInv;
    var run :| Runs(w, s0, run, s);
    if w.orig == map[] {
      FlatShrinks(w, s0, run, s);
    } else if s0.disk.reg.Published? {
      var o := Registered.Start(s0.disk.reg.vaults, s0.disk.reg.legacy);
      Registered.InvInitially(w, s0);
      RegisteredRun(w, s0, o, run, s);
    } else if Fresh.Migrating(w) {
      Fresh.InvInitially(w, s0);
      FreshRun(w, s0, run, s);
      if s.disk.reg.Published? {
        assert s.disk.reg.vaults[0] in s.disk.reg.vaults;
      }
    } else {
      IdleRun(w, s0, run, s);
    }
  }
}
