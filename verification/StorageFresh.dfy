/** Migration from storage without a registry. */
module StorageFresh {
  import opened Wrappers
  import opened StorageMachine

  /** Every document finds something to migrate: a flat blob, or a file handle it can rely on reading. */
  predicate Migrating(w: World) {
    BlobIn(w.orig).Some? || (w.handle && !w.flaky)
  }

  /** The id a document has drawn and may still write, drop or publish. */
  function Own(pc: Pc): Option<Id> {
    match pc
    case CopyGet(id) => Some(id)
    case CopySet(id, _) => Some(id)
    case CheckRace(id) => Some(id)
    case DropCopies(id) => Some(id)
    case Publish(id) => Some(id)
    case _ => None
  }

  predicate Unheld(ctxs: seq<Pc>, id: Id) {
    forall i | 0 <= i < |ctxs| :: Own(ctxs[i]) != Some(id)
  }

  /** A vault copied in full that no document will touch again. */
  predicate Settled(w: World, s: State, id: Id) {
    id in s.used && Unheld(s.ctxs, id) && DataOf(s.disk, id) == w.orig
  }

  predicate PcInv(w: World, s: State, pc: Pc) {
    var d := s.disk;
    match pc
    case ReadRaw => true
    case ReadBlob => true
    case AskHandle => BlobIn(w.orig).Some? ==> d.reg.Published?
    case CheckEmpty => Migrating(w) ==> d.reg.Published?
    case PublishEmpty => !Migrating(w)
    case CopyGet(id) => id in s.used && id !in d.named
    case CopySet(id, copy) => id in s.used && id !in d.named && copy == w.orig
    case CheckRace(id) => id in s.used && (d.reg.Absent? ==> DataOf(d, id) == w.orig)
    case DropCopies(id) => id in s.used && d.reg.Published?
    case Publish(id) => id in s.used && DataOf(d, id) == w.orig
    case Delete => d.reg.Published?
    case ReapRead => d.reg.Published?
    case ReapCheck(read, live, next) =>
      d.reg.Published? && |read| == 1 && Settled(w, s, read[0]) && next == 0 && live == []
    case ReapAsk(live) => d.reg.Published? && !Live(w.orig) && live == []
    case ReapWrite(live) => d.reg.Published? && !Live(w.orig) && live == [] && !Migrating(w)
    case Finished => d.reg.Published?
    case ReadBlobOf(id, first) => first ==> Settled(w, s, id)
    case Returned(_, first, blob) => first ==> blob == BlobIn(w.orig)
    case NoVault => !Migrating(w)
    case Dead => true
    case _ => false
  }

  /** What a document may have written: one settled vault, or none where there is none to migrate. */
  predicate RegInv(w: World, s: State) {
    s.disk.reg.Published? ==>
      && s.disk.reg.legacy == None && |s.disk.reg.vaults| <= 1
      && (forall v | v in s.disk.reg.vaults :: Settled(w, s, v))
      && (Migrating(w) ==> s.disk.reg.vaults != [])
  }

  predicate Inv(w: World, s: State) {
    && s.disk.named.Keys <= s.used
    && (s.disk.flat == w.orig || (s.disk.flat == map[] && s.disk.reg.Published?))
    && RegInv(w, s)
    && (forall i | 0 <= i < |s.ctxs| :: PcInv(w, s, s.ctxs[i]))
    && (forall i, j | 0 <= i < j < |s.ctxs| :: Own(s.ctxs[i]).Some? ==> Own(s.ctxs[i]) != Own(s.ctxs[j]))
  }

  lemma InvInitially(w: World, s: State)
    requires Initial(w, s) && s.disk.reg.Absent?
    ensures Inv(w, s)
  {
  }

  /** A step that leaves alone every id but the actor's own, and never takes a published registry
      away. */
  ghost predicate Considerate(s: State, i: nat, t: State)
    requires i < |s.ctxs| == |t.ctxs|
  {
    && t.ctxs == s.ctxs[i := t.ctxs[i]]
    && s.used <= t.used
    && (s.disk.reg.Published? ==> t.disk.reg.Published?)
    && (forall id: Id | Own(s.ctxs[i]) != Some(id) ::
          (id in t.disk.named <==> id in s.disk.named) && DataOf(t.disk, id) == DataOf(s.disk, id))
    && (match Own(t.ctxs[i])
        case None => true
        case Some(id) => Own(s.ctxs[i]) == Some(id) || id !in s.used)
  }

  lemma SettledStays(w: World, s: State, i: nat, t: State, id: Id)
    requires i < |s.ctxs| == |t.ctxs| && Considerate(s, i, t) && Settled(w, s, id)
    ensures Settled(w, t, id)
  {
    assert Own(s.ctxs[i]) != Some(id);
    forall j | 0 <= j < |t.ctxs|
      ensures Own(t.ctxs[j]) != Some(id)
    {
      if j != i {
        assert t.ctxs[j] == s.ctxs[j];
      }
    }
  }

  lemma OtherStays(w: World, s: State, i: nat, t: State, j: nat)
    requires i < |s.ctxs| == |t.ctxs| && j < |s.ctxs| && i != j && Considerate(s, i, t)
    requires PcInv(w, s, s.ctxs[j]) && (Own(s.ctxs[j]).Some? ==> Own(s.ctxs[i]) != Own(s.ctxs[j]))
    ensures PcInv(w, t, s.ctxs[j])
  {
    match s.ctxs[j]
    case ReapCheck(read, _, _) => SettledStays(w, s, i, t, read[0]);
    case ReadBlobOf(id, first) =>
      if first {
        SettledStays(w, s, i, t, id);
      }
    case _ =>
  }

  /** What is left to show for one step: the actor's own new place, the flat keys and the registry. */
  lemma StepKeepsInv(w: World, s: State, i: nat, t: State)
    requires Inv(w, s) && i < |s.ctxs| == |t.ctxs| && Considerate(s, i, t)
    requires t.disk.named.Keys <= t.used
    requires t.disk.flat == w.orig || (t.disk.flat == map[] && t.disk.reg.Published?)
    requires t.disk.reg == s.disk.reg || (t.disk.reg.Published? && RegInv(w, t))
    requires PcInv(w, t, t.ctxs[i])
    ensures Inv(w, t)
  {
    hide PcInv, Settled, Considerate;
    DistinctPairs(s);
    forall j | 0 <= j < |t.ctxs|
      ensures PcInv(w, t, t.ctxs[j])
    {
      if j != i {
        ConsiderateKeeps(s, i, t, j);
        OtherStays(w, s, i, t, j);
      }
    }
    if s.disk.reg.Published? && t.disk.reg == s.disk.reg {
      forall v | v in s.disk.reg.vaults
        ensures Settled(w, t, v)
      {
        SettledStays(w, s, i, t, v);
      }
    }
    OwnsStayDistinct(w, s, i, t);
  }

  lemma ConsiderateKeeps(s: State, i: nat, t: State, j: nat)
    requires i < |s.ctxs| == |t.ctxs| && j < |s.ctxs| && i != j && Considerate(s, i, t)
    ensures t.ctxs[j] == s.ctxs[j]
  {
  }

  lemma DistinctPairs(s: State)
    requires forall i, j | 0 <= i < j < |s.ctxs| :: Own(s.ctxs[i]).Some? ==> Own(s.ctxs[i]) != Own(s.ctxs[j])
    ensures forall i, j | 0 <= i < |s.ctxs| && 0 <= j < |s.ctxs| && i != j ::
              Own(s.ctxs[j]).Some? ==> Own(s.ctxs[i]) != Own(s.ctxs[j])
  {
  }

  lemma OwnedIsUsed(w: World, s: State, j: nat)
    requires Inv(w, s) && j < |s.ctxs|
    ensures Own(s.ctxs[j]).Some? ==> Own(s.ctxs[j]).value in s.used
  {
    assert PcInv(w, s, s.ctxs[j]);
  }

  lemma OwnsStayDistinct(w: World, s: State, i: nat, t: State)
    requires Inv(w, s) && i < |s.ctxs| == |t.ctxs| && Considerate(s, i, t)
    ensures forall j, k | 0 <= j < k < |t.ctxs| :: Own(t.ctxs[j]).Some? ==> Own(t.ctxs[j]) != Own(t.ctxs[k])
  {
    forall j, k | 0 <= j < k < |t.ctxs|
      ensures Own(t.ctxs[j]).Some? ==> Own(t.ctxs[j]) != Own(t.ctxs[k])
    {
      OwnedIsUsed(w, s, j);
      OwnedIsUsed(w, s, k);
    }
  }

  lemma PublishStep(w: World, s: State, i: nat, c: Choice)
    requires Inv(w, s) && i < |s.ctxs| && s.ctxs[i].Publish?
    ensures Inv(w, Perform(s, Act(i, c)))
  {
    var id := s.ctxs[i].id;
    var t := Perform(s, Act(i, c));
    assert PcInv(w, s, s.ctxs[i]);
    assert Settled(w, t, id) by {
      forall j | 0 <= j < |t.ctxs|
        ensures Own(t.ctxs[j]) != Some(id)
      {
        if j != i {
          assert t.ctxs[j] == s.ctxs[j];
          assert Own(s.ctxs[i]) == Some(id);
        }
      }
    }
    StepKeepsInv(w, s, i, t);
  }

  /** Writing an empty registry. */
  lemma EmptyStep(w: World, s: State, i: nat, c: Choice)
    requires Inv(w, s) && i < |s.ctxs| && (s.ctxs[i].PublishEmpty? || s.ctxs[i].ReapWrite?)
    ensures Inv(w, Perform(s, Act(i, c)))
  {
    assert PcInv(w, s, s.ctxs[i]);
    StepKeepsInv(w, s, i, Perform(s, Act(i, c)));
  }

  lemma WriteStep(w: World, s: State, i: nat, c: Choice)
    requires Inv(w, s) && i < |s.ctxs|
    requires s.ctxs[i].CopySet? || s.ctxs[i].DropCopies? || s.ctxs[i].Delete?
    ensures Inv(w, Perform(s, Act(i, c)))
  {
    hide PcInv, Considerate, Settled;
    WriteIsConsiderate(w, s, i, c);
    WriteLeaves(w, s, i, c);
    StepKeepsInv(w, s, i, Perform(s, Act(i, c)));
  }

  lemma WriteIsConsiderate(w: World, s: State, i: nat, c: Choice)
    requires Inv(w, s) && i < |s.ctxs|
    requires s.ctxs[i].CopySet? || s.ctxs[i].DropCopies? || s.ctxs[i].Delete?
    ensures |s.ctxs| == |Perform(s, Act(i, c)).ctxs| && Considerate(s, i, Perform(s, Act(i, c)))
  {
    assert PcInv(w, s, s.ctxs[i]);
  }

  lemma WriteLeaves(w: World, s: State, i: nat, c: Choice)
    requires Inv(w, s) && i < |s.ctxs|
    requires s.ctxs[i].CopySet? || s.ctxs[i].DropCopies? || s.ctxs[i].Delete?
    ensures var t := Perform(s, Act(i, c));
            && PcInv(w, t, t.ctxs[i])
            && t.disk.named.Keys <= t.used && t.disk.reg == s.disk.reg
            && (t.disk.flat == w.orig || (t.disk.flat == map[] && t.disk.reg.Published?))
  {
    hide Settled;
    assert PcInv(w, s, s.ctxs[i]);
    if s.ctxs[i].CopySet? {
      assert map[] + w.orig == w.orig;
    }
  }

  lemma ReadIsConsiderate(w: World, s: State, i: nat, c: Choice)
    requires Inv(w, s) && Allowed(w, s, Act(i, c))
    requires Perform(s, Act(i, c)).disk == s.disk
    ensures |s.ctxs| == |Perform(s, Act(i, c)).ctxs| && Considerate(s, i, Perform(s, Act(i, c)))
  {
  }

  /** A document that has just read the registry trusts the vault it names. */
  lemma ReadRegistry(w: World, s: State, i: nat, c: Choice)
    requires Inv(w, s) && i < |s.ctxs| && (s.ctxs[i].ReapRead? || s.ctxs[i].Finished?)
    ensures var t := Perform(s, Act(i, c)); PcInv(w, t, t.ctxs[i])
  {
    var t := Perform(s, Act(i, c));
    assert PcInv(w, s, s.ctxs[i]);
    assert Considerate(s, i, t);
    if s.disk.reg.vaults != [] {
      SettledStays(w, s, i, t, s.disk.reg.vaults[0]);
    }
  }

  lemma CheckedRecord(w: World, s: State, i: nat, c: Choice)
    requires Inv(w, s) && i < |s.ctxs| && s.ctxs[i].ReapCheck?
    ensures var t := Perform(s, Act(i, c)); PcInv(w, t, t.ctxs[i])
  {
    assert PcInv(w, s, s.ctxs[i]);
  }

  lemma OtherReads(w: World, s: State, i: nat, c: Choice)
    requires Inv(w, s) && Allowed(w, s, Act(i, c))
    requires Perform(s, Act(i, c)).disk == s.disk
    requires !s.ctxs[i].ReapRead? && !s.ctxs[i].Finished? && !s.ctxs[i].ReapCheck?
    ensures var t := Perform(s, Act(i, c)); PcInv(w, t, t.ctxs[i])
  {
    hide Settled;
    assert PcInv(w, s, s.ctxs[i]);
    if s.ctxs[i].ReadBlobOf? {
      FetchedBlob(w, s, s.ctxs[i].id);
    }
  }

  lemma FetchedBlob(w: World, s: State, id: Id)
    ensures Settled(w, s, id) ==> BlobIn(DataOf(s.disk, id)) == BlobIn(w.orig)
  {
  }

  lemma ReadStep(w: World, s: State, i: nat, c: Choice)
    requires Inv(w, s) && Allowed(w, s, Act(i, c))
    requires Perform(s, Act(i, c)).disk == s.disk
    ensures Inv(w, Perform(s, Act(i, c)))
  {
    hide PcInv, Settled, Considerate;
    var t := Perform(s, Act(i, c));
    ReadIsConsiderate(w, s, i, c);
    if s.ctxs[i].ReapRead? || s.ctxs[i].Finished? {
      ReadRegistry(w, s, i, c);
    } else if s.ctxs[i].ReapCheck? {
      CheckedRecord(w, s, i, c);
    } else {
      OtherReads(w, s, i, c);
    }
    StepKeepsInv(w, s, i, t);
  }

  lemma InvStep(w: World, s: State, a: Action)
    requires Inv(w, s) && Allowed(w, s, a)
    ensures Inv(w, Perform(s, a))
  {
    match a
    case Spawn => SpawnStep(w, s);
    case Kill(i) => StepKeepsInv(w, s, i, Perform(s, a));
    case Act(i, c) =>
      assert PcInv(w, s, s.ctxs[i]);
      match s.ctxs[i]
      case Publish(_) => PublishStep(w, s, i, c);
      case PublishEmpty => EmptyStep(w, s, i, c);
      case ReapWrite(_) => EmptyStep(w, s, i, c);
      case CopySet(_, _) => WriteStep(w, s, i, c);
      case DropCopies(_) => WriteStep(w, s, i, c);
      case Delete => WriteStep(w, s, i, c);
      case _ => ReadStep(w, s, i, c);
  }

  lemma SpawnStep(w: World, s: State)
    requires Inv(w, s)
    ensures Inv(w, Perform(s, Spawn))
  {
    var t := Perform(s, Spawn);
    forall id | Settled(w, s, id)
      ensures Settled(w, t, id)
    {
    }
    forall j | 0 <= j < |s.ctxs|
      ensures PcInv(w, t, s.ctxs[j])
    {
      assert PcInv(w, s, s.ctxs[j]);
    }
  }
}
