/** The adapter's own code, run by one document without interruption: it does exactly what that
    document's steps of the state machine do, and so recovers the vault from wherever others stopped. */
module StorageAdapter {
  import opened Wrappers
  import opened StorageMachine
  import opened StorageReads

  /** The document alone, from place `pc` until its migration has finished. */
  function Alone(d: Disk, pc: Pc, c: Choice): Disk
    decreases Stage(pc), Ahead(pc)
  {
    if Stage(pc) <= 2 then d
    else
      EveryStepAdvances(d, pc, c);
      var (e, next) := Do(d, pc, c);
      Alone(e, next, c)
  }

  lemma AloneStep(d: Disk, pc: Pc, c: Choice)
    requires Stage(pc) > 2
    ensures Alone(d, pc, c) == Alone(Do(d, pc, c).0, Do(d, pc, c).1, c)
  {
  }

  lemma PutKeepsTheRest(d: Disk, id: Id, copy: Data)
    ensures Put(d, id, copy).flat == d.flat && Put(d, id, copy).reg == d.reg
  {
  }

  class Storage {
    var flat: Data
    var named: map<Id, Data>
    var reg: Registry

    constructor (d: Disk)
      ensures Stored() == d
    {
      flat, named, reg := d.flat, d.named, d.reg;
    }

    function Stored(): Disk
      reads this
    {
      Disk(flat, named, reg)
    }

    /** One `get` of the flat keys, then one `set` of whatever was there. */
    method CopyFlatVaultToNamespaced(id: Id)
      modifies this
      ensures Stored() == if old(flat) == map[] then old(Stored()) else Put(old(Stored()), id, old(flat))
    {
      var writes := flat;
      if writes != map[] {
        named := named[id := DataOf(Stored(), id) + writes];
      }
    }

    method DeleteFlatVaultKeys()
      modifies this`flat
      ensures flat == map[]
    {
      flat := map[];
    }

    /** A vault registered as flat moves under its own id: copy, retire the mark, delete. */
    method MigrateRegistered(vaults: seq<Id>, flatId: Id, c: Choice)
      requires reg == Published(vaults, Some(flatId))
      modifies this
      ensures Alone(old(Stored()), LegacyGet(flatId, vaults), c) == Alone(Stored(), ReapRead, c)
    {
      hide Alone, Put, DataOf;
      AloneStep(Stored(), LegacyGet(flatId, vaults), c);
      if flat != map[] {
        AloneStep(Stored(), LegacySet(flatId, vaults, flat), c);
      }
      CopyFlatVaultToNamespaced(flatId);
      AloneStep(Stored(), LegacyPublish(vaults), c);
      reg := Published(vaults, None);
      AloneStep(Stored(), LegacyDelete, c);
      DeleteFlatVaultKeys();
    }

    /** An unregistered vault moves under a fresh id: copy, publish, delete. */
    method MigrateUnregistered(c: Choice)
      requires reg == Absent
      modifies this
      ensures Alone(old(Stored()), CopyGet(c.id), c) == Alone(Stored(), ReapRead, c)
    {
      hide Alone, Put, DataOf, BlobIn;
      PutKeepsTheRest(Stored(), c.id, flat);
      AloneStep(Stored(), CopyGet(c.id), c);
      if flat != map[] {
        AloneStep(Stored(), CopySet(c.id, flat), c);
      }
      CopyFlatVaultToNamespaced(c.id);
      PublishAndDelete(c);
    }

    method PublishAndDelete(c: Choice)
      requires reg == Absent
      modifies this`reg, this`flat
      ensures Alone(old(Stored()), CheckRace(c.id), c) == Alone(Stored(), ReapRead, c)
    {
      hide Alone;
      AloneStep(Stored(), CheckRace(c.id), c);
      AloneStep(Stored(), Publish(c.id), c);
      reg := Published([c.id], None);
      AloneStep(Stored(), Delete, c);
      DeleteFlatVaultKeys();
    }

    /** The migration steps before reaping. */
    method MigrateNamespacing(c: Choice)
      modifies this
      ensures Alone(old(Stored()), ReadRaw, c) == Alone(Stored(), ReapRead, c)
    {
      hide Alone, BlobIn, Put, DataOf;
      AloneStep(Stored(), ReadRaw, c);
      if reg.Published? {
        if reg.legacy.Some? {
          MigrateRegistered(reg.vaults, reg.legacy.value, c);
        }
        return;
      }
      AloneStep(Stored(), ReadBlob, c);
      if BlobIn(flat).None? {
        AloneStep(Stored(), AskHandle, c);
        if !c.sawHandle {
          AloneStep(Stored(), CheckEmpty, c);
          AloneStep(Stored(), PublishEmpty, c);
          reg := Published([], None);
          return;
        }
      }
      MigrateUnregistered(c);
    }

    /** Look at every record, keep the live ones, and write only when something is dropped. */
    method ReapGhostRecords(c: Choice)
      modifies this`reg
      ensures Stored() == Alone(old(Stored()), ReapRead, c)
    {
      hide Alone;
      ghost var d := Stored();
      var vaults := if reg.Absent? then [] else reg.vaults;
      AloneStep(d, ReapRead, c);
      var live: seq<Id> := [];
      for i := 0 to |vaults|
        invariant Stored() == d
        invariant Alone(d, ReapRead, c) == Alone(d, AfterChecks(vaults, live, i), c)
      {
        AloneStep(d, ReapCheck(vaults, live, i), c);
        if Live(DataOf(Stored(), vaults[i])) {
          live := live + [vaults[i]];
        }
      }
      if |live| == |vaults| {
        AloneEnds(d, c);
        return;
      }
      AloneStep(d, ReapAsk(live), c);
      if c.sawHandle {
        AloneEnds(d, c);
        return;
      }
      AloneStep(d, ReapWrite(live), c);
      reg := Published(live, None);
      AloneEnds(Stored(), c);
    }

    method RunMigration(c: Choice)
      modifies this
      ensures Stored() == Alone(old(Stored()), ReadRaw, c)
    {
      MigrateNamespacing(c);
      ReapGhostRecords(c);
    }
  }

  lemma AloneEnds(d: Disk, c: Choice)
    ensures Alone(d, Finished, c) == d
  {
  }

  /** One document: it migrates at most once, before whatever it is first asked. */
  class Document {
    const storage: Storage
    var migrated: bool

    constructor (s: Storage)
      ensures storage == s && !migrated
    {
      storage, migrated := s, false;
    }

    method EnsureMigrated(c: Choice)
      modifies this, storage
      ensures migrated
      ensures storage.Stored() == if old(migrated) then old(storage.Stored())
                                  else Alone(old(storage.Stored()), ReadRaw, c)
    {
      if !migrated {
        storage.RunMigration(c);
        migrated := true;
      }
    }

    /** The blob of the vault asked for, or of the first one registered. */
    method ReadVaultBlob(vaultId: Option<Id>, c: Choice) returns (r: Option<string>)
      modifies this, storage
      ensures migrated
      ensures storage.Stored() == if old(migrated) then old(storage.Stored())
                                  else Alone(old(storage.Stored()), ReadRaw, c)
      ensures r == Fetched(storage.Stored(), vaultId)
    {
      EnsureMigrated(c);
      var vaults := if storage.reg.Absent? then [] else storage.reg.vaults;
      if vaultId == None && vaults == [] {
        return None;
      }
      var target := if vaultId.Some? then vaultId.value else vaults[0];
      r := BlobIn(DataOf(storage.Stored(), target));
    }
  }

  function Fetched(d: Disk, vaultId: Option<Id>): Option<string> {
    match vaultId
    case Some(id) => BlobIn(DataOf(d, id))
    case None => if d.reg.Absent? || d.reg.vaults == [] then None else BlobIn(DataOf(d, d.reg.vaults[0]))
  }

  /** A read gives the text stored under the blob key of the vault asked for, or of the first one listed,
      and nothing where there is none or an empty one. */
  lemma ReadsWhatIsStored(d: Disk, id: Id, text: string)
    ensures Fetched(d, Some(id)) == Some(text)
            <==> (text != "" && id in d.named && Blob in d.named[id] && d.named[id][Blob] == text)
    ensures Fetched(d, None) == Some(text)
            <==> (d.reg.Published? && |d.reg.vaults| > 0 && Fetched(d, Some(d.reg.vaults[0])) == Some(text))
  {
  }

  /** A copy wins over what was stored under the vault's own keys before; other keys and vaults stay. */
  lemma CopyOverwrites(d: Disk, id: Id, copy: Data, k: Key, v: Id)
    ensures var e := Put(d, id, copy);
            && e.flat == d.flat && e.reg == d.reg && id in e.named
            && (k in copy ==> k in e.named[id] && e.named[id][k] == copy[k])
            && (k !in copy ==>
                  (k in e.named[id] <==> id in d.named && k in d.named[id])
                  && (k in e.named[id] ==> e.named[id][k] == d.named[id][k]))
            && (v != id ==> (v in e.named <==> v in d.named) && (v in e.named ==> e.named[v] == d.named[v]))
  {
  }

  // ----- which records a run keeps -----

  /** The records under which a blob, a recovery snapshot or a sync group is stored, in order. */
  function Guarded(d: Disk, vs: seq<Id>): (r: seq<Id>)
    ensures |r| <= |vs| && (|r| == |vs| ==> r == vs)
  {
    if vs == [] then []
    else
      var n := |vs| - 1;
      var v := vs[n];
      assert vs == vs[..n] + [v];
      Guarded(d, vs[..n]) +
      (if v in d.named && (Blob in d.named[v] || Backup in d.named[v] || SyncGroup in d.named[v]) then [v] else [])
  }

  lemma SiftsOne(d: Disk, read: seq<Id>, next: nat)
    requires next < |read|
    ensures Guarded(d, read[..next + 1])
         == Guarded(d, read[..next]) + if Live(DataOf(d, read[next])) then [read[next]] else []
  {
    assert read[..next + 1][..next] == read[..next];
  }

  lemma {:induction false} SiftKeepsExactly(d: Disk, read: seq<Id>, next: nat, c: Choice)
    requires next <= |read| && d.reg.Published? && d.reg.vaults == read
    ensures var e := Alone(d, AfterChecks(read, Guarded(d, read[..next]), next), c);
            && e.reg.Published? && e.reg.vaults == (if c.sawHandle then read else Guarded(d, read))
            && e.named == d.named
    decreases |read| - next
  {
    hide Alone, Guarded, Live, DataOf;
    var live := Guarded(d, read[..next]);
    if next < |read| {
      AloneStep(d, ReapCheck(read, live, next), c);
      SiftsOne(d, read, next);
      SiftKeepsExactly(d, read, next + 1, c);
      assert live + [] == live;
    } else {
      assert read[..next] == read;
      AloneEnds(d, c);
      if |live| != |read| {
        AloneStep(d, ReapAsk(live), c);
        AloneStep(d, ReapWrite(live), c);
        AloneEnds(Do(d, ReapWrite(live), c).0, c);
      }
    }
  }

  /** What the migration leaves for the reap to look at. */
  lemma MovesFirst(d: Disk, c: Choice) returns (m: Disk)
    requires d.reg.Published?
    ensures Alone(d, ReadRaw, c) == Alone(m, ReapRead, c)
    ensures m.reg.Published? && m.reg.vaults == d.reg.vaults
  {
    hide Alone, Put;
    AloneStep(d, ReadRaw, c);
    m := d;
    if d.reg.legacy.Some? {
      var id, vaults := d.reg.legacy.value, d.reg.vaults;
      AloneStep(d, LegacyGet(id, vaults), c);
      if d.flat != map[] {
        AloneStep(d, LegacySet(id, vaults, d.flat), c);
        m := Put(d, id, d.flat);
      }
      AloneStep(m, LegacyPublish(vaults), c);
      m := m.(reg := Published(vaults, None));
      AloneStep(m, LegacyDelete, c);
      m := m.(flat := map[]);
    }
  }

  lemma GuardedByData(d: Disk, e: Disk, vs: seq<Id>)
    requires d.named == e.named
    ensures Guarded(d, vs) == Guarded(e, vs)
  {
    if vs != [] {
      GuardedByData(d, e, vs[..|vs| - 1]);
    }
  }

  /** Alone and with no handle seen, a document leaves a registry of exactly the records under which one of
      the three is stored in the end, in their order; with the handle seen it drops none. */
  lemma SoloRunKeepsExactly(d: Disk, c: Choice)
    requires d.reg.Published?
    ensures var e := Alone(d, ReadRaw, c);
            && e.reg.Published?
            && e.reg.vaults == if c.sawHandle then d.reg.vaults else Guarded(e, d.reg.vaults)
  {
    hide Alone, Guarded;
    var m := MovesFirst(d, c);
    AloneStep(m, ReapRead, c);
    assert m.reg.vaults[..0] == [];
    NothingGuarded(m);
    SiftKeepsExactly(m, m.reg.vaults, 0, c);
    GuardedByData(m, Alone(d, ReadRaw, c), d.reg.vaults);
  }

  lemma NothingGuarded(d: Disk)
    ensures Guarded(d, []) == []
  {
  }

  // ----- recovery -----

  lemma NotDoneYet(d: Disk, pc: Pc, c: Choice)
    requires Stage(pc) > 2
    ensures Stage(Do(d, pc, c).1) >= 2
    ensures Do(d, pc, c).1.CopyGet? ==> Stage(pc) > 11
  {
  }

  /** What reading the legacy handle may report. */
  predicate Sees(w: World, sawHandle: bool) {
    sawHandle == w.handle || (w.flaky && !sawHandle)
  }

  lemma {:induction false} AloneIsARun(w: World, s0: State, s: State, who: nat, c: Choice) returns (t: State)
    requires Reachable(w, s0, s) && who < |s.ctxs| && Stage(s.ctxs[who]) >= 2
    requires Sees(w, c.sawHandle) && (Stage(s.ctxs[who]) > 11 ==> c.id !in s.used)
    ensures Reachable(w, s0, t)
    ensures t.disk == Alone(s.disk, s.ctxs[who], c) && t.ctxs == s.ctxs[who := Finished]
    decreases Stage(s.ctxs[who]), Ahead(s.ctxs[who])
  {
    hide Reachable, Do, Alone, Ahead;
    var pc := s.ctxs[who];
    if Stage(pc) <= 2 {
      AloneEnds(s.disk, c);
      return s;
    }
    AloneStep(s.disk, pc, c);
    NotDoneYet(s.disk, pc, c);
    EveryStepAdvances(s.disk, pc, c);
    ReachStep(w, s0, s, Act(who, c));
    t := AloneIsARun(w, s0, Perform(s, Act(who, c)), who, c);
  }

  /** Whatever racing documents left behind when they died, the next document to start, running alone,
      ends with exactly one registered vault and reads the original bytes from it. */
  lemma SoloRunRecovers(w: World, s0: State, s: State, c: Choice)
    requires Initial(w, s0) && s0.disk.reg.Absent? && BlobIn(w.orig).Some? && Reachable(w, s0, s)
    requires c.id !in s.used && Sees(w, c.sawHandle)
    ensures var d := Alone(s.disk, ReadRaw, c);
            && Fetched(d, None) == BlobIn(w.orig)
            && d.reg.Published? && |d.reg.vaults| == 1 && DataOf(d, d.reg.vaults[0]) == w.orig
  {
    hide Reachable, Alone;
    ReachStep(w, s0, s, Spawn);
    var t := AloneIsARun(w, s0, Perform(s, Spawn), |s.ctxs|, c);
    ReadersSeeTheVault(w, s0, t, |s.ctxs|);
  }

  /** The same for a vault already registered as flat: it is whole under its own id, reads back, and is still
      listed unless it may be taken for a ghost. */
  lemma SoloRunRecoversRegistered(w: World, s0: State, s: State, c: Choice, f: Id)
    requires Initial(w, s0) && w.flatId == Some(f) && Reachable(w, s0, s)
    requires c.id !in s.used && Sees(w, c.sawHandle)
    ensures var d := Alone(s.disk, ReadRaw, c);
            && Fetched(d, Some(f)) == BlobIn(w.orig)
            && d.reg.Published? && d.reg.legacy == None && DataOf(d, f) == w.orig
            && (f in s0.disk.reg.vaults && (Live(w.orig) || (w.handle && !w.flaky)) ==> f in d.reg.vaults)
  {
    hide Reachable, Alone;
    var who := |s.ctxs|;
    ReachStep(w, s0, s, Spawn);
    var t := AloneIsARun(w, s0, Perform(s, Spawn), who, c);
    FinishedHoldsTheFlatVault(w, s0, t, who, f);
    var ask := Act(who, c.(want := Some(f)));
    ReachStep(w, s0, t, ask);
    var u := Perform(t, ask);
    ReachStep(w, s0, u, ask);
    FlatVaultReadsBack(w, s0, Perform(u, ask), who, f);
  }
}
