/** Vault storage migration as a state machine: any number of UI documents migrate the same storage
    at once, each `await` on storage is one atomic step, and any document may die between two. */
module StorageMachine {
  import opened Wrappers

  type Id = nat

  /** The per-vault keys; a vault's copy of one lives at `<key>:<id>`. */
  datatype Key = Blob | Backup | SyncGroup | SyncLastSyncedAt | SyncDeviceId | SyncDeviceKeypair | SyncSigningKey

  type Data = map<Key, string>

  /** What is stored under the registry key: `vaults` is what parsing yields (nothing, for a corrupt
      value) and `legacy` the retired `legacyBlobVaultId`. */
  datatype Registry = Absent | Published(vaults: seq<Id>, legacy: Option<Id>)

  datatype Disk = Disk(flat: Data, named: map<Id, Data>, reg: Registry)

  /** `orig` is what the flat keys held at the start and `flatId` the id already given to that vault,
      if any. `handle` says a legacy file handle is stored; `flaky`, that reading it may fail, which
      the code cannot tell from there being none. */
  datatype World = World(orig: Data, flatId: Option<Id>, handle: bool, flaky: bool)

  /** Where a document stands: the next storage access it makes, with its local variables. After the
      migration it may read a vault blob: the registry, then the blob of the vault asked for, or of the
      first one registered; with none registered it finds no vault. */
  datatype Pc =
    | ReadRaw
    | LegacyGet(id: Id, vaults: seq<Id>)
    | LegacySet(id: Id, vaults: seq<Id>, copy: Data)
    | LegacyPublish(vaults: seq<Id>)
    | LegacyDelete
    | ReadBlob
    | AskHandle
    | CheckEmpty
    | PublishEmpty
    | CopyGet(id: Id)
    | CopySet(id: Id, copy: Data)
    | CheckRace(id: Id)
    | DropCopies(id: Id)
    | Publish(id: Id)
    | Delete
    | ReapRead
    | ReapCheck(read: seq<Id>, live: seq<Id>, next: nat)
    | ReapAsk(live: seq<Id>)
    | ReapWrite(live: seq<Id>)
    | Finished
    | ReadBlobOf(id: Id, first: bool)
    | Returned(id: Id, first: bool, blob: Option<string>)
    | NoVault
    | Dead

  /** What the outside world decides in a step: the random id drawn, what reading the handle gave, and
      which vault the UI asks for. */
  datatype Choice = Choice(id: Id, sawHandle: bool, want: Option<Id>)

  function DataOf(d: Disk, id: Id): Data {
    if id in d.named then d.named[id] else map[]
  }

  function BlobIn(data: Data): Option<string> {
    if Blob in data && data[Blob] != "" then Some(data[Blob]) else None
  }

  /** A record with a blob, a recovery snapshot or a sync group is not a ghost. */
  predicate Live(data: Data) {
    Blob in data || Backup in data || SyncGroup in data
  }

  /** `storage.set` of several keys at once. */
  function Put(d: Disk, id: Id, copy: Data): Disk {
    d.(named := d.named[id := DataOf(d, id) + copy])
  }

  function AfterChecks(read: seq<Id>, live: seq<Id>, next: nat): Pc {
    if next < |read| then ReapCheck(read, live, next)
    else if |live| == |read| then Finished
    else ReapAsk(live)
  }

  /** One step of one document. */
  function Do(d: Disk, pc: Pc, c: Choice): (Disk, Pc) {
    match pc
    case ReadRaw =>
      (match d.reg
       case Absent => (d, ReadBlob)
       case Published(vaults, None) => (d, ReapRead)
       case Published(vaults, Some(id)) => (d, LegacyGet(id, vaults)))
    case LegacyGet(id, vaults) =>
      (d, if d.flat == map[] then LegacyPublish(vaults) else LegacySet(id, vaults, d.flat))
    case LegacySet(id, vaults, copy) => (Put(d, id, copy), LegacyPublish(vaults))
    case LegacyPublish(vaults) => (d.(reg := Published(vaults, None)), LegacyDelete)
    case LegacyDelete => (d.(flat := map[]), ReapRead)
    case ReadBlob => (d, if BlobIn(d.flat).Some? then CopyGet(c.id) else AskHandle)
    case AskHandle => (d, if c.sawHandle then CopyGet(c.id) else CheckEmpty)
    case CheckEmpty => (d, if d.reg.Absent? then PublishEmpty else ReapRead)
    case PublishEmpty => (d.(reg := Published([], None)), ReapRead)
    case CopyGet(id) => (d, if d.flat == map[] then CheckRace(id) else CopySet(id, d.flat))
    case CopySet(id, copy) => (Put(d, id, copy), CheckRace(id))
    case CheckRace(id) => (d, if d.reg.Absent? then Publish(id) else DropCopies(id))
    case DropCopies(id) => (d.(named := d.named - {id}), ReapRead)
    case Publish(id) => (d.(reg := Published([id], None)), Delete)
    case Delete => (d.(flat := map[]), ReapRead)
    case ReapRead => (d, AfterChecks(if d.reg.Absent? then [] else d.reg.vaults, [], 0))
    case ReapCheck(read, live, next) =>
      if next >= |read| then (d, AfterChecks(read, live, next))
      else (d, AfterChecks(read, if Live(DataOf(d, read[next])) then live + [read[next]] else live, next + 1))
    case ReapAsk(live) => (d, if c.sawHandle then Finished else ReapWrite(live))
    case ReapWrite(live) => (d.(reg := Published(live, None)), Finished)
    case Finished =>
      (match c.want
       case Some(id) => (d, ReadBlobOf(id, false))
       case None => (d, if d.reg.Absent? || d.reg.vaults == [] then NoVault else ReadBlobOf(d.reg.vaults[0], true)))
    case ReadBlobOf(id, first) => (d, Returned(id, first, BlobIn(DataOf(d, id))))
    case Returned(_, _, _) => (d, pc)
    case NoVault => (d, pc)
    case Dead => (d, pc)
  }

  /** All documents, and every id that is or was in use (random ids never repeat one). */
  datatype State = State(disk: Disk, ctxs: seq<Pc>, used: set<Id>)

  datatype Action = Spawn | Kill(who: nat) | Act(who: nat, choice: Choice)

  predicate Asks(pc: Pc) {
    pc.AskHandle? || pc.ReapAsk?
  }

  predicate Allowed(w: World, s: State, a: Action) {
    match a
    case Spawn => true
    case Kill(i) => i < |s.ctxs|
    case Act(i, c) =>
      && i < |s.ctxs|
      && (Do(s.disk, s.ctxs[i], c).1.CopyGet? ==> c.id !in s.used)
      && (Asks(s.ctxs[i]) ==> c.sawHandle == w.handle || (w.flaky && !c.sawHandle))
  }

  function Perform(s: State, a: Action): State
    requires a.Spawn? || a.who < |s.ctxs|
  {
    match a
    case Spawn => s.(ctxs := s.ctxs + [ReadRaw])
    case Kill(i) => s.(ctxs := s.ctxs[i := Dead])
    case Act(i, c) =>
      var (d, pc) := Do(s.disk, s.ctxs[i], c);
      State(d, s.ctxs[i := pc], if pc.CopyGet? then s.used + {c.id} else s.used)
  }

  /** `s` is a state that some run of allowed actions reaches from `s0`. */
  ghost predicate Runs(w: World, s0: State, run: seq<Action>, s: State)
    decreases |run|
  {
    if run == [] then s == s0
    else Allowed(w, s0, run[0]) && Runs(w, Perform(s0, run[0]), run[1..], s)
  }

  ghost predicate Reachable(w: World, s0: State, s: State) {
    exists run :: Runs(w, s0, run, s)
  }

  /** Storage before any document of this version ran: the flat keys untouched, and of a vault still
      registered as flat at most part of the copy an interrupted run left. */
  predicate Initial(w: World, s: State) {
    && s.ctxs == []
    && s.disk.flat == w.orig
    && s.disk.named.Keys <= s.used
    && w.flatId == (if s.disk.reg.Absent? then None else s.disk.reg.legacy)
    && (s.disk.reg.Published? ==> forall v | v in s.disk.reg.vaults :: v in s.used)
    && (s.disk.reg.Published? && s.disk.reg.legacy.Some? ==>
          && s.disk.reg.legacy.value in s.used
          && var data := DataOf(s.disk, s.disk.reg.legacy.value);
             forall k | k in data :: k in w.orig && data[k] == w.orig[k])
  }

  /** The vault survives: under its flat keys, or whole under the keys of a registered id, which is its
      own id where it had one. */
  predicate Kept(w: World, d: Disk) {
    || d.flat == w.orig
    || (d.reg.Published? && exists id | id in d.reg.vaults ::
          DataOf(d, id) == w.orig && (w.flatId.Some? ==> w.flatId == Some(id)))
  }

  // ----- runs -----

  lemma {:induction false} RunsSnoc(w: World, s0: State, run: seq<Action>, s: State, a: Action)
    requires Runs(w, s0, run, s) && Allowed(w, s, a)
    ensures Runs(w, s0, run + [a], Perform(s, a))
    decreases |run|
  {
    hide Allowed, Perform;
    AllowedIsPerformable(w, s, a);
    if run == [] {
      assert [] + [a] == [a] && [a][1..] == [];
      assert Runs(w, Perform(s0, a), [], Perform(s, a));
    } else {
      AllowedIsPerformable(w, s0, run[0]);
      RunsSnoc(w, Perform(s0, run[0]), run[1..], s, a);
      assert (run + [a])[1..] == run[1..] + [a];
    }
  }

  lemma AllowedIsPerformable(w: World, s: State, a: Action)
    requires Allowed(w, s, a)
    ensures a.Spawn? || a.who < |s.ctxs|
  {
  }

  lemma ReachStart(w: World, s0: State)
    ensures Reachable(w, s0, s0)
  {
    assert Runs(w, s0, [], s0);
  }

  lemma ReachStep(w: World, s0: State, s: State, a: Action)
    requires Reachable(w, s0, s) && Allowed(w, s, a)
    ensures Reachable(w, s0, Perform(s, a))
  {
    var run :| Runs(w, s0, run, s);
    RunsSnoc(w, s0, run, s, a);
  }
}
