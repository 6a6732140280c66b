/** Every start that is not safe has a run that loses the vault. */
module StorageLoss {
  import opened Wrappers
  import opened StorageMachine
  import opened StorageSafety

  lemma {:induction false} FreshId(used: set<Id>) returns (id: Id)
    ensures id !in used
    ensures forall u | u in used :: u < id
  {
    if used == {} {
      id := 0;
    } else {
      var u :| u in used;
      var rest := FreshId(used - {u});
      id := if u < rest then rest else u + 1;
      assert forall v | v in used :: v == u || v in used - {u};
    }
  }

  lemma Go(w: World, s0: State, s: State, who: nat, c: Choice) returns (t: State)
    requires Reachable(w, s0, s) && Allowed(w, s, Act(who, c))
    ensures t == Perform(s, Act(who, c)) && Reachable(w, s0, t)
  {
    t := Perform(s, Act(who, c));
    ReachStep(w, s0, s, Act(who, c));
  }

  lemma SpawnOne(w: World, s0: State, s: State) returns (t: State)
    requires Reachable(w, s0, s)
    ensures t == Perform(s, Spawn) && Reachable(w, s0, t)
  {
    t := Perform(s, Spawn);
    ReachStep(w, s0, s, Spawn);
  }

  /** Two documents, no flat blob, and one failed read of the file handle: the one that saw no handle
      decides to write an empty registry, the other migrates and deletes the flat keys, and then the
      empty registry overwrites the published one. */
  lemma LostByEmptyRegistry(w: World, s0: State) returns (s: State)
    requires Initial(w, s0) && s0.disk.reg.Absent?
    requires w.orig != map[] && BlobIn(w.orig).None? && w.handle && w.flaky
    ensures Reachable(w, s0, s) && !Kept(w, s.disk)
  {
    hide Reachable;
    var id := FreshId(s0.used);
    var c := Choice(id, true, None);
    var blind := Choice(id + 1, false, None);
    ReachStart(w, s0);
    s := SpawnOne(w, s0, s0);
    s := SpawnOne(w, s0, s);
    assert s.ctxs == [ReadRaw, ReadRaw];
    s := Go(w, s0, s, 1, blind);
    s := Go(w, s0, s, 1, blind);
    s := Go(w, s0, s, 1, blind);
    s := Go(w, s0, s, 1, blind);
    assert s.ctxs == [ReadRaw, PublishEmpty] && s.disk == s0.disk;
    s := LoseRace(w, s0, s, c);
    s := Go(w, s0, s, 1, blind);
  }

  lemma Overtake(w: World, s0: State, before: State, c: Choice) returns (s: State)
    requires Reachable(w, s0, before) && before.ctxs == [ReadRaw, PublishEmpty]
    requires before.disk.reg.Absent? && BlobIn(before.disk.flat).None?
    requires w.handle && c.sawHandle && c.id !in before.used
    ensures Reachable(w, s0, s) && s.ctxs == [CopyGet(c.id), PublishEmpty] && s.disk == before.disk
  {
    hide Reachable;
    s := Go(w, s0, before, 0, c);
    s := Go(w, s0, s, 0, c);
    s := Go(w, s0, s, 0, c);
  }

  lemma LoseRace(w: World, s0: State, before: State, c: Choice) returns (s: State)
    requires Reachable(w, s0, before) && before.ctxs == [ReadRaw, PublishEmpty]
    requires before.disk.reg.Absent? && before.disk.flat == w.orig != map[] && BlobIn(w.orig).None?
    requires w.handle && c.sawHandle && c.id !in before.used
    ensures Reachable(w, s0, s) && s.ctxs == [ReapRead, PublishEmpty] && s.disk.flat == map[]
  {
    hide Reachable;
    s := Overtake(w, s0, before, c);
    s := Go(w, s0, s, 0, c);
    s := Go(w, s0, s, 0, c);
    s := Go(w, s0, s, 0, c);
    assert s.ctxs == [Publish(c.id), PublishEmpty];
    s := Go(w, s0, s, 0, c);
    s := Go(w, s0, s, 0, c);
  }

  /** One document finishes a vault registered as flat and deletes the flat keys. */
  lemma MoveFlatVault(w: World, s0: State, f: Id, c: Choice) returns (s: State)
    requires Initial(w, s0) && s0.disk.reg.Published? && s0.disk.reg.legacy == Some(f)
    requires w.orig != map[]
    ensures Reachable(w, s0, s) && s.ctxs == [ReapRead]
    ensures s.disk.flat == map[] && s.disk.reg == Published(s0.disk.reg.vaults, None)
    ensures DataOf(s.disk, f) == w.orig
  {
    hide Reachable, Initial;
    s := ReadFlatVault(w, s0, f, c);
    assert DataOf(s.disk, f) + w.orig == w.orig by { PartOfACopy(w, s0, f); }
    s := Go(w, s0, s, 0, c);
    s := Go(w, s0, s, 0, c);
    s := Go(w, s0, s, 0, c);
  }

  lemma PartOfACopy(w: World, s0: State, f: Id)
    requires Initial(w, s0) && s0.disk.reg.Published? && s0.disk.reg.legacy == Some(f)
    ensures DataOf(s0.disk, f) + w.orig == w.orig
  {
  }

  lemma ReadFlatVault(w: World, s0: State, f: Id, c: Choice) returns (s: State)
    requires Initial(w, s0) && s0.disk.reg.Published? && s0.disk.reg.legacy == Some(f)
    requires w.orig != map[]
    ensures Reachable(w, s0, s) && s.ctxs == [LegacySet(f, s0.disk.reg.vaults, w.orig)] && s.disk == s0.disk
  {
    hide Reachable;
    ReachStart(w, s0);
    s := SpawnOne(w, s0, s0);
    assert s.ctxs == [ReadRaw];
    s := Go(w, s0, s, 0, c);
    s := Go(w, s0, s, 0, c);
  }

  /** A vault whose record is missing from the registry loses its keys at the cutover. */
  lemma LostWithoutRecord(w: World, s0: State, f: Id) returns (s: State)
    requires Initial(w, s0) && s0.disk.reg.Published? && s0.disk.reg.legacy == Some(f)
    requires w.orig != map[] && f !in s0.disk.reg.vaults
    ensures Reachable(w, s0, s) && !Kept(w, s.disk)
  {
    s := MoveFlatVault(w, s0, f, Choice(0, false, None));
  }

  /** The sift of a registry that holds the ghost-like vault ends before the handle is asked for, with
      that vault dropped. */
  lemma {:induction false} SiftDrops(w: World, s0: State, before: State, f: Id, c: Choice) returns (s: State)
    requires Reachable(w, s0, before) && |before.ctxs| == 1 && before.ctxs[0].ReapCheck?
    requires var pc := before.ctxs[0];
             && pc.next < |pc.read| && f in pc.read && f !in pc.live && !Live(DataOf(before.disk, f))
             && |pc.live| <= pc.next && (f in pc.read[..pc.next] ==> |pc.live| < pc.next)
    ensures Reachable(w, s0, s) && |s.ctxs| == 1 && s.ctxs[0].ReapAsk? && f !in s.ctxs[0].live && s.disk == before.disk
    decreases |before.ctxs[0].read| - before.ctxs[0].next
  {
    hide Reachable;
    var pc := before.ctxs[0];
    s := Go(w, s0, before, 0, c);
    var v := pc.read[pc.next];
    assert pc.read[..pc.next + 1] == pc.read[..pc.next] + [v];
    if pc.next + 1 < |pc.read| {
      s := SiftDrops(w, s0, s, f, c);
    } else {
      assert pc.read[..pc.next + 1] == pc.read;
    }
  }

  lemma SweepsAway(w: World, s0: State, before: State, f: Id, c: Choice) returns (s: State)
    requires Reachable(w, s0, before) && before.ctxs == [ReapRead]
    requires before.disk.reg.Published? && f in before.disk.reg.vaults && !Live(DataOf(before.disk, f))
    requires !c.sawHandle && (!w.handle || w.flaky)
    ensures Reachable(w, s0, s) && s.disk.flat == before.disk.flat && s.disk.reg.Published? && f !in s.disk.reg.vaults
  {
    hide Reachable;
    s := Go(w, s0, before, 0, c);
    s := SiftDrops(w, s0, s, f, c);
    s := Go(w, s0, s, 0, c);
    s := Go(w, s0, s, 0, c);
  }

  /** A vault with sync keys but neither blob, snapshot nor group is taken for a ghost right after it
      was moved, unless the handle is there to be read. */
  lemma LostAsGhost(w: World, s0: State, f: Id) returns (s: State)
    requires Initial(w, s0) && s0.disk.reg.Published? && s0.disk.reg.legacy == Some(f)
    requires w.orig != map[] && f in s0.disk.reg.vaults && !Live(w.orig) && (!w.handle || w.flaky)
    ensures Reachable(w, s0, s) && !Kept(w, s.disk)
  {
    hide Reachable;
    var c := Choice(0, false, None);
    s := MoveFlatVault(w, s0, f, c);
    s := SweepsAway(w, s0, s, f, c);
  }

  /** The vault survives every run from a start if and only if that start is safe. */
  lemma SafeExactly(w: World, s0: State)
    requires Initial(w, s0)
    ensures SafeStart(w, s0) <==> forall s | Reachable(w, s0, s) :: Kept(w, s.disk)
  {
    hide Reachable, Kept;
    if SafeStart(w, s0) {
      forall s | Reachable(w, s0, s)
        ensures Kept(w, s.disk)
      {
        SafeStartsStaySafe(w, s0, s);
      }
    } else {
      var s: State;
      if s0.disk.reg.Absent? {
        s := LostByEmptyRegistry(w, s0);
      } else {
        var f := s0.disk.reg.legacy.value;
        if f in s0.disk.reg.vaults {
          s := LostAsGhost(w, s0, f);
        } else {
          s := LostWithoutRecord(w, s0, f);
        }
      }
    }
  }
}
