/** Migration from storage that already has a registry: finish a vault still registered as flat, and
    drop ghost records. */
module StorageRegistered {
  import opened Wrappers
  import opened StorageMachine

  /** `V` are the vaults registered at the start and `f` the one still stored flat, if any. */
  datatype Start = Start(vaults: seq<Id>, flat: Option<Id>)

  /** The flat vault's record cannot be taken for a ghost once its keys have moved. */
  predicate RecordStays(w: World, o: Start) {
    && o.flat.Some? && o.flat.value in o.vaults
    && (Live(w.orig) || (w.handle && !w.flaky))
  }

  /** No record that is not a ghost is missing from `vs`, and nothing was added. */
  predicate Faithful(d: Disk, o: Start, vs: seq<Id>) {
    && (forall v | v in vs :: v in o.vaults)
    && (forall v | v in o.vaults && Live(DataOf(d, v)) :: v in vs)
  }

  predicate Moved(w: World, d: Disk, o: Start) {
    o.flat.Some? ==> DataOf(d, o.flat.value) == w.orig
  }

  predicate Uniform(d: Disk) {
    d.reg.Published? && d.reg.legacy == None
  }

  /** Of the records looked at so far, all that are no ghosts are in `live`. */
  predicate Sifted(w: World, d: Disk, o: Start, read: seq<Id>, live: seq<Id>, next: nat) {
    && next <= |read|
    && (forall v | v in live :: v in o.vaults)
    && (forall j | 0 <= j < next :: Live(DataOf(d, read[j])) ==> read[j] in live)
  }

  predicate PcInv(w: World, d: Disk, o: Start, pc: Pc) {
    match pc
    case ReadRaw => true
    case LegacyGet(id, vs) => o == Start(vs, Some(id))
    case LegacySet(id, vs, copy) => o == Start(vs, Some(id)) && copy == w.orig
    case LegacyPublish(vs) => vs == o.vaults && o.flat.Some? && Moved(w, d, o)
    case LegacyDelete => o.flat.Some? && Uniform(d)
    case ReapRead => Uniform(d)
    case ReapCheck(read, live, next) =>
      && Uniform(d) && Faithful(d, o, read) && Sifted(w, d, o, read, live, next)
      && (RecordStays(w, o) ==> o.flat.value in read)
    case ReapAsk(live) =>
      && Uniform(d) && Faithful(d, o, live)
      && (RecordStays(w, o) && Live(w.orig) ==> o.flat.value in live)
    case ReapWrite(live) => Uniform(d) && Faithful(d, o, live) && (RecordStays(w, o) ==> o.flat.value in live)
    case Finished => Uniform(d)
    case ReadBlobOf(_, _) => Uniform(d)
    case Returned(id, _, blob) => o.flat == Some(id) ==> blob == BlobIn(w.orig)
    case NoVault => true
    case Dead => true
    case _ => false
  }

  predicate DiskInv(w: World, d: Disk, o: Start) {
    && d.reg.Published?
    && (if Uniform(d) then Faithful(d, o, d.reg.vaults) && Moved(w, d, o)
        else d.reg == Published(o.vaults, o.flat) && d.flat == w.orig)
    && (o.flat == None ==> d.flat == w.orig)
    && (o.flat.Some? ==>
          && (d.flat == w.orig || d.flat == map[])
          && forall k | k in DataOf(d, o.flat.value) :: k in w.orig && DataOf(d, o.flat.value)[k] == w.orig[k])
    && (RecordStays(w, o) ==> o.flat.value in d.reg.vaults)
  }

  predicate Inv(w: World, s: State, o: Start) {
    DiskInv(w, s.disk, o) && forall i | 0 <= i < |s.ctxs| :: PcInv(w, s.disk, o, s.ctxs[i])
  }

  lemma InvInitially(w: World, s: State)
    requires Initial(w, s) && s.disk.reg.Published?
    ensures Inv(w, s, Start(s.disk.reg.vaults, s.disk.reg.legacy))
  {
  }

  /** Data changes only while the flat vault is being copied, and then only towards the original. */
  ghost predicate Gentle(w: World, d: Disk, e: Disk, o: Start) {
    && (Uniform(d) ==> Uniform(e))
    && (forall v: Id :: Some(v) != o.flat ==> DataOf(e, v) == DataOf(d, v))
    && (Moved(w, d, o) ==> Moved(w, e, o))
  }

  lemma OtherStays(w: World, d: Disk, e: Disk, o: Start, pc: Pc)
    requires DiskInv(w, d, o) && PcInv(w, d, o, pc) && Gentle(w, d, e, o)
    ensures PcInv(w, e, o, pc)
  {
    if Uniform(d) {
      assert forall v: Id :: DataOf(e, v) == DataOf(d, v);
    }
  }

  lemma AppendOrig(w: World, data: Data)
    requires forall k | k in data :: k in w.orig && data[k] == w.orig[k]
    ensures data + w.orig == w.orig
  {
  }

  lemma DiskStep(w: World, d: Disk, o: Start, pc: Pc, c: Choice)
    requires DiskInv(w, d, o) && PcInv(w, d, o, pc)
    ensures var (e, _) := Do(d, pc, c); DiskInv(w, e, o) && Gentle(w, d, e, o)
  {
    if pc.LegacySet? {
      AppendOrig(w, DataOf(d, pc.id));
    }
  }

  lemma SiftStep(w: World, d: Disk, o: Start, pc: Pc, c: Choice)
    requires DiskInv(w, d, o) && PcInv(w, d, o, pc) && (pc.ReapCheck? || pc.ReapRead?)
    ensures PcInv(w, d, o, Do(d, pc, c).1)
  {
    if pc.ReapRead? {
      Sorted(w, d, o, d.reg.vaults, [], 0);
    } else if pc.next < |pc.read| {
      var v := pc.read[pc.next];
      Sorted(w, d, o, pc.read, if Live(DataOf(d, v)) then pc.live + [v] else pc.live, pc.next + 1);
    } else {
      Sorted(w, d, o, pc.read, pc.live, pc.next);
    }
  }

  lemma Sorted(w: World, d: Disk, o: Start, read: seq<Id>, live: seq<Id>, next: nat)
    requires DiskInv(w, d, o) && Uniform(d) && Faithful(d, o, read) && Sifted(w, d, o, read, live, next)
    requires RecordStays(w, o) ==> o.flat.value in read
    ensures PcInv(w, d, o, AfterChecks(read, live, next))
  {
    if next == |read| {
      forall v | v in o.vaults && Live(DataOf(d, v))
        ensures v in live
      {
        assert v in read;
      }
    }
  }

  lemma PcStep(w: World, d: Disk, o: Start, pc: Pc, c: Choice)
    requires DiskInv(w, d, o) && PcInv(w, d, o, pc)
    requires Asks(pc) ==> c.sawHandle == w.handle || (w.flaky && !c.sawHandle)
    ensures var (e, next) := Do(d, pc, c); PcInv(w, e, o, next)
  {
    if pc.ReapCheck? || pc.ReapRead? {
      SiftStep(w, d, o, pc, c);
    } else if pc.LegacySet? {
      AppendOrig(w, DataOf(d, pc.id));
    }
  }

  lemma InvStep(w: World, s: State, o: Start, a: Action)
    requires Inv(w, s, o) && Allowed(w, s, a)
    ensures Inv(w, Perform(s, a), o)
  {
    hide DiskInv, PcInv, Gentle, Do;
    assert forall i | 0 <= i < |s.ctxs| :: PcInv(w, s.disk, o, s.ctxs[i]);
    DeadIsFine(w, s.disk, o);
    if a.Act? {
      var pc := s.ctxs[a.who];
      assert PcInv(w, s.disk, o, pc);
      DiskStep(w, s.disk, o, pc, a.choice);
      PcStep(w, s.disk, o, pc, a.choice);
      var e := Do(s.disk, pc, a.choice).0;
      forall j | 0 <= j < |s.ctxs|
        ensures PcInv(w, e, o, s.ctxs[j])
      {
        OtherStays(w, s.disk, e, o, s.ctxs[j]);
      }
    }
  }

  lemma DeadIsFine(w: World, d: Disk, o: Start)
    ensures PcInv(w, d, o, Dead) && PcInv(w, d, o, ReadRaw)
  {
  }
}
