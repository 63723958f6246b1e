/**
The multi-device backup protocol as a step system.

Any number of devices share one remote blob. The remote is the sequence of all blobs ever accepted:
generation `g` is `history[g - 1]`. Each device runs one worker, whose phases are the points between
two statements of a sync at which another party can act. A push is a message that the transport may
apply late, repeatedly or never; it takes effect when its base equals the current generation.
*/
module BackupProtocol {
  import opened Options
  import opened SyncTables

  // ----- State

  type DeviceId = nat

  /** A message. `merged` only tells where the data comes from: a merge with the remote, or a snapshot of a device. */
  datatype Push = Push(base: nat, data: SyncDb, merged: bool)

  /** Where a worker stands inside `sync`. */
  datatype Phase =
    | Idle
    | Requested(id: nat)
    | Versioned(id: nat, version: Option<nat>)
    | Pushing(id: nat, msg: nat, data: SyncDb, retry: bool)
    | Conflict(id: nat, data: SyncDb)
    | Fresh(id: nat, data: SyncDb)
    | Pulled(generation: nat, remote: SyncDb)
    | Imported(generation: nat, remote: SyncDb)
    | Copied(generation: nat, data: SyncDb, mark: nat)
    | Merged(id: nat, generation: nat, data: SyncDb)
    | Accepted(id: nat, accepted: nat, data: SyncDb)
    | Stored(id: nat, accepted: nat)

  /**
  `db`, `requests`, `lastId` and `lastVersion` are the stored state. The rest only records history:
  `stamps` the request that the last write of a record created, `began` when the current sync began,
  `completed` when the last successful sync had begun.
  */
  datatype Device = Device(
    db: SyncDb,
    requests: set<nat>,
    lastId: nat,
    lastVersion: Option<nat>,
    phase: Phase,
    stamps: map<Record, nat>,
    began: nat,
    completed: Option<nat>
  )

  /** What the transport holds. `accepted` are the indices in `sent` that took effect. */
  datatype Remote = Remote(history: seq<SyncDb>, sent: seq<Push>, accepted: set<nat>)

  datatype State = State(devices: map<DeviceId, Device>, remote: Remote, clock: nat)

  // ----- Local writes

  datatype Write =
    | InsertSwap(key: Key, row: Row, fee: Stamped)
    | UpdateDeposit(key: Key, row: Row)
    | InsertRefund(key: Key, txid: Key)
    | PutExternal(key: Key, row: Row)
    | PutMetadata(key: Key, stamped: Stamped)
    | InsertReverse(key: Key, row: Row)
    | PutFee(key: Key, stamped: Stamped)

  /** A swap is inserted together with its fee, and only a stored swap is given another fee. */
  predicate WriteEnabled(db: SyncDb, w: Write) {
    match w
    case InsertSwap(k, _, _) => k !in db.swaps
    case UpdateDeposit(k, _) => k in db.swaps
    case InsertReverse(k, _) => k !in db.reverseSwaps
    case PutFee(k, _) => k in db.swaps
    case _ => true
  }

  function ApplyWrite(db: SyncDb, w: Write): SyncDb {
    match w
    case InsertSwap(k, row, fee) => db.(swaps := db.swaps[k := row], fees := db.fees[k := fee])
    case UpdateDeposit(k, row) => db.(swaps := db.swaps[k := row])
    case InsertRefund(k, t) => db.(refunds := db.refunds + {(k, t)})
    case PutExternal(k, row) => db.(external := db.external[k := row])
    case PutMetadata(k, stamped) => db.(metadata := db.metadata[k := stamped])
    case InsertReverse(k, row) => db.(reverseSwaps := db.reverseSwaps[k := row])
    case PutFee(k, stamped) => db.(fees := db.fees[k := stamped])
  }

  /** The two databases have the same rows under the key. */
  predicate SameUnder(a: SyncDb, b: SyncDb, k: Key) {
    && (k in a.swaps <==> k in b.swaps) && (k in a.swaps && k in b.swaps ==> a.swaps[k] == b.swaps[k])
    && (k in a.external <==> k in b.external) && (k in a.external && k in b.external ==> a.external[k] == b.external[k])
    && (k in a.metadata <==> k in b.metadata) && (k in a.metadata && k in b.metadata ==> a.metadata[k] == b.metadata[k])
    && (k in a.reverseSwaps <==> k in b.reverseSwaps)
    && (k in a.reverseSwaps && k in b.reverseSwaps ==> a.reverseSwaps[k] == b.reverseSwaps[k])
    && (k in a.fees <==> k in b.fees) && (k in a.fees && k in b.fees ==> a.fees[k] == b.fees[k])
  }

  /** A write puts its row, or its pair of keys, into its table and leaves all other keys alone. */
  lemma WriteWrites(db: SyncDb, w: Write, k: Key)
    ensures var db' := ApplyWrite(db, w);
      && (w.InsertSwap? || w.UpdateDeposit? ==> w.key in db'.swaps && db'.swaps[w.key] == w.row)
      && (w.InsertSwap? ==> w.key in db'.fees && db'.fees[w.key] == w.fee)
      && (w.PutFee? ==> w.key in db'.fees && db'.fees[w.key] == w.stamped)
      && (w.PutExternal? ==> w.key in db'.external && db'.external[w.key] == w.row)
      && (w.PutMetadata? ==> w.key in db'.metadata && db'.metadata[w.key] == w.stamped)
      && (w.InsertReverse? ==> w.key in db'.reverseSwaps && db'.reverseSwaps[w.key] == w.row)
      && db'.refunds == db.refunds + (if w.InsertRefund? then {(w.key, w.txid)} else {})
      && (k != w.key ==> SameUnder(db, db', k))
  {
  }

  /**
  Whether the write fires a trigger that adds a row to `sync_requests`. Updates of swaps and the fees
  table never had one; the trigger on reverse swaps went away with the table it was created on, when a
  migration renamed and dropped that table.
  */
  predicate Fires(db: SyncDb, w: Write) {
    match w
    case UpdateDeposit(_, _) => false
    case InsertRefund(k, t) => (k, t) !in db.refunds
    case InsertReverse(_, _) => false
    case PutFee(_, _) => false
    case _ => true
  }

  function RecordOf(w: Write): Record {
    match w
    case InsertSwap(k, _, _) => SwapRec(k)
    case UpdateDeposit(k, _) => SwapRec(k)
    case InsertRefund(k, t) => RefundRec(k, t)
    case PutExternal(k, _) => ExternalRec(k)
    case PutMetadata(k, _) => MetadataRec(k, 0)
    case InsertReverse(k, _) => ReverseRec(k)
    case PutFee(k, _) => FeeRec(k, 0)
  }

  // ----- Steps

  datatype Action =
    | LocalWrite(write: Write)
    | Begin(force: bool)
    | ReadVersion
    | PushSnapshot
    | PushSucceeded
    | PushFailed
    | PullState
    | PullNothing
    | ImportRemote(fired: nat)
    | CopyLocal
    | ReadRequest
    | PushMerged
    | PushFresh
    | StoreVersion
    | DeleteRequests
    | Abort

  datatype Event = Act(device: DeviceId, action: Action) | Deliver(msg: nat)

  lemma LargestExists(ids: set<nat>)
    requires ids != {}
    ensures exists m :: m in ids && forall i :: i in ids ==> i <= m
  {
    var x :| x in ids;
    var rest := ids - {x};
    if rest != {} {
      LargestExists(rest);
      var m :| m in rest && forall i :: i in rest ==> i <= m;
      assert forall i :: i in ids ==> i == x || i in rest;
      assert (if m < x then x else m) in ids;
    } else {
      assert ids == {x} + rest;
      assert x in ids && forall i :: i in ids ==> i <= x;
    }
  }

  /** The largest request id, or 0 when there is none. */
  function LastRequest(ids: set<nat>): (m: nat)
    ensures ids == {} ==> m == 0
    ensures forall i :: i in ids ==> i <= m
    ensures ids != {} ==> m in ids
  {
    if ids == {} then 0 else
    LargestExists(ids);
    var m :| m in ids && forall i :: i in ids ==> i <= m;
    m
  }

  /** A missing version is sent as version 0, which only an absent blob has. */
  function BaseOf(version: Option<nat>): nat {
    if version.None? then 0 else version.value
  }

  predicate Ready(remote: Remote, dev: Device, a: Action) {
    match a
    case LocalWrite(w) => WriteEnabled(dev.db, w)
    case Begin(force) => dev.phase.Idle? && (force || LastRequest(dev.requests) != 0)
    case ReadVersion => dev.phase.Requested?
    case PushSnapshot => dev.phase.Versioned?
    case PushSucceeded => dev.phase.Pushing? && dev.phase.msg in remote.accepted && dev.phase.msg < |remote.sent|
    case PushFailed => dev.phase.Pushing?
    case PullState => dev.phase.Conflict? && remote.history != []
    case PullNothing => dev.phase.Conflict?
    case ImportRemote(_) => dev.phase.Pulled?
    case CopyLocal => dev.phase.Imported?
    case ReadRequest => dev.phase.Copied?
    case PushMerged => dev.phase.Merged?
    case PushFresh => dev.phase.Fresh?
    case StoreVersion => dev.phase.Accepted?
    case DeleteRequests => dev.phase.Stored?
    case Abort => true
  }

  function AfterWrite(dev: Device, w: Write): Device {
    var written := dev.(db := ApplyWrite(dev.db, w));
    if Fires(dev.db, w) then
      var id := dev.lastId + 1;
      written.(requests := dev.requests + {id}, lastId := id, stamps := dev.stamps[RecordOf(w) := id])
    else
      written
  }

  /** The `n` ids that follow `last`. */
  function NextIds(last: nat, n: nat): (ids: set<nat>)
    ensures forall i :: i in ids <==> last < i <= last + n
  {
    if n == 0 then {} else NextIds(last, n - 1) + {last + n}
  }

  /** An import adds one request per row it inserts; any number `n` of them is allowed here. */
  function AfterImport(dev: Device, remote: SyncDb, n: nat): Device {
    dev.(
      db := ImportRemoteChanges(dev.db, remote),
      requests := dev.requests + NextIds(dev.lastId, n),
      lastId := dev.lastId + n
    )
  }

  /** The device after the action. */
  function Advance(remote: Remote, clock: nat, dev: Device, a: Action): Device
    requires Ready(remote, dev, a)
  {
    var p := dev.phase;
    match a
    case LocalWrite(w) => AfterWrite(dev, w)
    case Begin(_) => dev.(phase := Requested(LastRequest(dev.requests)), began := clock)
    case ReadVersion => dev.(phase := Versioned(p.id, dev.lastVersion))
    case PushSnapshot => dev.(phase := Pushing(p.id, |remote.sent|, dev.db, false))
    case PushSucceeded => dev.(phase := Accepted(p.id, remote.sent[p.msg].base + 1, p.data))
    case PushFailed => dev.(phase := if p.retry then Idle else Conflict(p.id, p.data))
    case PullState => dev.(phase := Pulled(|remote.history|, remote.history[|remote.history| - 1]))
    case PullNothing => dev.(phase := Fresh(p.id, p.data))
    case ImportRemote(n) => AfterImport(dev, p.remote, n).(phase := Imported(p.generation, p.remote))
    case CopyLocal => dev.(phase := Copied(p.generation, ImportRemoteChanges(p.remote, dev.db), dev.lastId))
    case ReadRequest => dev.(phase := Merged(LastRequest(dev.requests), p.generation, p.data))
    case PushMerged => dev.(phase := Pushing(p.id, |remote.sent|, p.data, true))
    case PushFresh => dev.(phase := Pushing(p.id, |remote.sent|, p.data, true))
    case StoreVersion => dev.(lastVersion := Some(p.accepted), phase := Stored(p.id, p.accepted))
    case DeleteRequests =>
      dev.(requests := (set i | i in dev.requests && i > p.id), phase := Idle, completed := Some(dev.began))
    case Abort => dev.(phase := Idle)
  }

  /** The messages the action hands to the transport. */
  function Outgoing(dev: Device, a: Action): seq<Push> {
    if a.PushSnapshot? && dev.phase.Versioned? then [Push(BaseOf(dev.phase.version), dev.db, false)]
    else if a.PushMerged? && dev.phase.Merged? then [Push(dev.phase.generation, dev.phase.data, true)]
    else if a.PushFresh? && dev.phase.Fresh? then [Push(0, dev.phase.data, false)]
    else []
  }

  /** The transport applies a message: a compare-and-swap on the generation. */
  function Apply(remote: Remote, msg: nat): Remote
    requires msg < |remote.sent|
  {
    var m := remote.sent[msg];
    if m.base == |remote.history|
    then remote.(history := remote.history + [m.data], accepted := remote.accepted + {msg})
    else remote
  }

  predicate Enabled(s: State, e: Event) {
    match e
    case Act(d, a) => d in s.devices && Ready(s.remote, s.devices[d], a)
    case Deliver(msg) => msg < |s.remote.sent|
  }

  function Step(s: State, e: Event): State
    requires Enabled(s, e)
  {
    match e
    case Act(d, a) =>
      State(
        s.devices[d := Advance(s.remote, s.clock, s.devices[d], a)],
        s.remote.(sent := s.remote.sent + Outgoing(s.devices[d], a)),
        s.clock + 1)
    case Deliver(msg) => s.(remote := Apply(s.remote, msg), clock := s.clock + 1)
  }

  const NEW_DEVICE := Device(EMPTY_DB, {}, 0, None, Idle, map[], 0, None)

  function Start(ids: set<DeviceId>): State {
    State(map d | d in ids :: NEW_DEVICE, Remote([], [], {}), 0)
  }

  /** Every event of the list is enabled when its turn comes. */
  predicate Runs(s: State, events: seq<Event>)
    decreases |events|
  {
    events == [] || (Enabled(s, events[0]) && Runs(Step(s, events[0]), events[1..]))
  }

  function Exec(s: State, events: seq<Event>): State
    requires Runs(s, events)
    decreases |events|
  {
    if events == [] then s else Exec(Step(s, events[0]), events[1..])
  }

  /** The records a user sees as backed up: no request is pending. */
  predicate BackedUp(dev: Device) {
    dev.requests == {}
  }
}
