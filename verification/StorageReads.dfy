/** What the documents see: every read returns the original vault, one vault is registered, reaping
    drops no vault, and every document gets there. */
module StorageReads {
  import opened Wrappers
  import opened StorageMachine
  import opened StorageSafety
  import Fresh = StorageFresh
  import Registered = StorageRegistered

  /** Starting without a registry but with a flat blob: in every interleaving, a document that reads the
      first vault gets the original bytes, none is told there is no vault, and once any document has
      finished migrating the registry names exactly one vault, holding everything. */
  lemma ReadersSeeTheVault(w: World, s0: State, s: State, i: nat)
    requires Initial(w, s0) && s0.disk.reg.Absent? && BlobIn(w.orig).Some?
    requires Reachable(w, s0, s) && i < |s.ctxs|
    ensures s.ctxs[i].Returned? && s.ctxs[i].first ==> s.ctxs[i].blob == BlobIn(w.orig)
    ensures !s.ctxs[i].NoVault?
    ensures s.ctxs[i].Finished? ==> s.disk.reg.Published? && |s.disk.reg.vaults| == 1
                                    && DataOf(s.disk, s.disk.reg.vaults[0]) == w.orig
  {
    var run :| Runs(w, s0, run, s);
    Fresh.InvInitially(w, s0);
    FreshRun(w, s0, run, s);
    assert Fresh.PcInv(w, s, s.ctxs[i]);
    if s.disk.reg.Published? {
      assert s.disk.reg.vaults[0] in s.disk.reg.vaults;
    }
  }

  /** Starting with a vault registered as flat: whoever reads that vault gets the original bytes. */
  lemma FlatVaultReadsBack(w: World, s0: State, s: State, i: nat, f: Id)
    requires Initial(w, s0) && w.flatId == Some(f)
    requires Reachable(w, s0, s) && i < |s.ctxs|
    ensures s.ctxs[i].Returned? && s.ctxs[i].id == f ==> s.ctxs[i].blob == BlobIn(w.orig)
  {
    var run :| Runs(w, s0, run, s);
    var o := Registered.Start(s0.disk.reg.vaults, s0.disk.reg.legacy);
    Registered.InvInitially(w, s0);
    RegisteredRun(w, s0, o, run, s);
    assert Registered.PcInv(w, s.disk, o, s.ctxs[i]);
  }

  /** Once a document has finished, the vault that was registered as flat is whole under its own id, and it
      is still listed if it was and cannot be taken for a ghost. */
  lemma FinishedHoldsTheFlatVault(w: World, s0: State, s: State, i: nat, f: Id)
    requires Initial(w, s0) && w.flatId == Some(f)
    requires Reachable(w, s0, s) && i < |s.ctxs| && s.ctxs[i].Finished?
    ensures s.disk.reg.Published? && s.disk.reg.legacy == None && DataOf(s.disk, f) == w.orig
    ensures f in s0.disk.reg.vaults && (Live(w.orig) || (w.handle && !w.flaky)) ==> f in s.disk.reg.vaults
  {
    var run :| Runs(w, s0, run, s);
    var o := Registered.Start(s0.disk.reg.vaults, s0.disk.reg.legacy);
    Registered.InvInitially(w, s0);
    RegisteredRun(w, s0, o, run, s);
    assert Registered.PcInv(w, s.disk, o, s.ctxs[i]);
  }

  // ----- reaping drops no vault -----

  lemma MigratedRecordsAreNeverReaped(w: World, s0: State, s: State, i: nat)
    requires Initial(w, s0) && s0.disk.reg.Absent? && BlobIn(w.orig).Some?
    requires Reachable(w, s0, s) && i < |s.ctxs|
    ensures !s.ctxs[i].ReapAsk? && !s.ctxs[i].ReapWrite?
  {
    var run :| Runs(w, s0, run, s);
    Fresh.InvInitially(w, s0);
    FreshRun(w, s0, run, s);
    assert Fresh.PcInv(w, s, s.ctxs[i]);
  }

  /** With a registry at the start, such a record is listed in every reachable state, whatever any document
      writes. */
  lemma RecordsWithDataStayListed(w: World, s0: State, s: State, v: Id)
    requires Initial(w, s0) && Reachable(w, s0, s)
    requires s0.disk.reg.Published? && v in s0.disk.reg.vaults
    requires v in s.disk.named
             && (Blob in s.disk.named[v] || Backup in s.disk.named[v] || SyncGroup in s.disk.named[v])
    ensures s.disk.reg.Published? && v in s.disk.reg.vaults
  {
    hide Runs, Registered.PcInv;
    var run :| Runs(w, s0, run, s);
    var o := Registered.Start(s0.disk.reg.vaults, s0.disk.reg.legacy);
    Registered.InvInitially(w, s0);
    RegisteredRun(w, s0, o, run, s);
  }

  lemma OnlyGhostsAreReaped(w: World, s: State, i: nat, v: Id)
    requires Fresh.Inv(w, s) && i < |s.ctxs| && s.ctxs[i].ReapWrite?
    requires s.disk.reg.Published? && v in s.disk.reg.vaults
    ensures !Live(DataOf(s.disk, v))
  {
    assert Fresh.PcInv(w, s, s.ctxs[i]);
  }

  /** From every start, in every interleaving: when a document writes the registry it has sifted, every
      record stays under which a blob, a recovery snapshot or a sync group is stored. */
  lemma ReapKeepsRecords(w: World, s0: State, s: State, i: nat, c: Choice, v: Id)
    requires Initial(w, s0) && Reachable(w, s0, s)
    requires i < |s.ctxs| && s.ctxs[i].ReapWrite?
    requires s.disk.reg.Published? && v in s.disk.reg.vaults
    requires v in s.disk.named
             && (Blob in s.disk.named[v] || Backup in s.disk.named[v] || SyncGroup in s.disk.named[v])
    ensures v in Perform(s, Act(i, c)).disk.reg.vaults
  {
    hide Runs;
    var run :| Runs(w, s0, run, s);
    if s0.disk.reg.Published? {
      var o := Registered.Start(s0.disk.reg.vaults, s0.disk.reg.legacy);
      Registered.InvInitially(w, s0);
      RegisteredRun(w, s0, o, run, s);
      assert Registered.PcInv(w, s.disk, o, s.ctxs[i]);
    } else {
      Fresh.InvInitially(w, s0);
      FreshRun(w, s0, run, s);
      OnlyGhostsAreReaped(w, s, i, v);
    }
  }

  // ----- progress -----

  /** How many kinds of storage access lie ahead at most. */
  function Stage(pc: Pc): nat {
    match pc
    case ReadRaw => 14
    case LegacyGet(_, _) => 13
    case LegacySet(_, _, _) => 12
    case LegacyPublish(_) => 11
    case LegacyDelete => 8
    case ReadBlob => 13
    case AskHandle => 12
    case CheckEmpty => 10
    case PublishEmpty => 9
    case CopyGet(_) => 11
    case CopySet(_, _) => 10
    case CheckRace(_) => 9
    case DropCopies(_) => 8
    case Publish(_) => 8
    case Delete => 7
    case ReapRead => 6
    case ReapCheck(_, _, _) => 5
    case ReapAsk(_) => 4
    case ReapWrite(_) => 3
    case Finished => 2
    case ReadBlobOf(_, _) => 1
    case Returned(_, _, _) => 0
    case NoVault => 0
    case Dead => 0
  }

  function Ahead(pc: Pc): nat {
    if pc.ReapCheck? && pc.next < |pc.read| then |pc.read| - pc.next else 0
  }

  /** Every step of a document brings it closer to its end, whatever the others do to storage: no
      document waits for another. */
  lemma EveryStepAdvances(d: Disk, pc: Pc, c: Choice)
    requires Stage(pc) > 0
    ensures var next := Do(d, pc, c).1;
            Stage(next) < Stage(pc) || (Stage(next) == Stage(pc) && Ahead(next) < Ahead(pc))
  {
    hide Put, DataOf, BlobIn, Live;
  }
}
