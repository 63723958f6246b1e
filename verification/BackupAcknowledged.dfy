/** The link between sync requests and the remote: what deleting a request promises. */
module BackupAcknowledged {
  import opened Options
  import opened SyncTables
  import opened BackupProtocol
  import opened BackupSafety

  /** The tables whose inserts create a sync request; payment metadata counts as far as it is in scope. */
  predicate Triggered(scope: Scope, r: Record) {
    r.SwapRec? || r.RefundRec? || r.ExternalRec? || (r.MetadataRec? && In(scope, r))
  }

  predicate InRemote(h: seq<SyncDb>, r: Record) {
    h != [] && Has(h[|h| - 1], r)
  }

  /** The record whose write announces this one: a fee is written with its swap, a row at any age by its last write. */
  function Announcer(r: Record): Record {
    match r
    case FeeRec(k, _) => SwapRec(k)
    case MetadataRec(k, _) => MetadataRec(k, 0)
    case _ => r
  }

  predicate Announced(dev: Device, r: Record) {
    Announcer(r) in dev.stamps && dev.stamps[Announcer(r)] in dev.requests
  }

  /** The request that announced the record was `id` or an earlier one. */
  predicate AnnouncedBy(dev: Device, r: Record, id: nat) {
    Announcer(r) in dev.stamps && dev.stamps[Announcer(r)] <= id
  }

  ghost predicate IdsOk(dev: Device) {
    && (forall i :: i in dev.requests ==> i <= dev.lastId)
    && (forall r :: r in dev.stamps ==> dev.stamps[r] <= dev.lastId)
  }

  ghost predicate AllAnnounced(scope: Scope, h: seq<SyncDb>, dev: Device) {
    forall r :: Triggered(scope, r) && Has(dev.db, r) ==> InRemote(h, r) || Announced(dev, r)
  }

  /** Once `data` is in the remote, deleting the requests up to `id` is harmless. */
  ghost predicate Pending(scope: Scope, h: seq<SyncDb>, dev: Device, id: nat, data: SyncDb) {
    && id <= dev.lastId
    && forall r :: Triggered(scope, r) && Has(dev.db, r) && AnnouncedBy(dev, r, id) ==>
                     InRemote(h, r) || Has(data, r)
  }

  ghost predicate PhaseAck(scope: Scope, h: seq<SyncDb>, dev: Device) {
    match dev.phase
    case Idle | Pulled(_, _) | Imported(_, _) => true
    case Requested(id) => id <= dev.lastId
    case Versioned(id, _) => id <= dev.lastId
    case Pushing(id, _, data, _) => Pending(scope, h, dev, id, data)
    case Conflict(id, data) => Pending(scope, h, dev, id, data)
    case Fresh(id, data) => Pending(scope, h, dev, id, data)
    case Copied(_, data, mark) => Pending(scope, h, dev, mark, data)
    case Merged(id, _, data) => Pending(scope, h, dev, id, data)
    case Accepted(id, _, data) => Pending(scope, h, dev, id, data)
    case Stored(id, _) =>
      && id <= dev.lastId
      && forall r :: Triggered(scope, r) && Has(dev.db, r) && AnnouncedBy(dev, r, id) ==> InRemote(h, r)
  }

  ghost predicate AckOk(scope: Scope, h: seq<SyncDb>, dev: Device) {
    IdsOk(dev) && AllAnnounced(scope, h, dev) && PhaseAck(scope, h, dev)
  }

  ghost predicate AckInv(scope: Scope, s: State) {
    forall d :: d in s.devices ==> AckOk(scope, s.remote.history, s.devices[d])
  }

  // ----- The guards

  /** The request id is read in the state that the copy was taken in. */
  predicate WindowGuard(dev: Device, a: Action) {
    a.ReadRequest? && dev.phase.Copied? ==> dev.lastId == dev.phase.mark
  }

  /** The pulled copy has the local metadata keys, so that copying the local data into it drops none. */
  predicate CopyGuard(dev: Device, a: Action) {
    a.CopyLocal? && dev.phase.Imported? ==> dev.db.metadata.Keys <= dev.phase.remote.metadata.Keys
  }

  predicate AckGuard(scope: Scope, dev: Device, a: Action) {
    WindowGuard(dev, a) && Guard(scope, dev, a) && (scope.metadata ==> CopyGuard(dev, a))
  }

  predicate Acked1(scope: Scope, s: State, e: Event)
    requires Enabled(s, e)
  {
    e.Act? ==> AckGuard(scope, s.devices[e.device], e.action)
  }

  // ----- Every step keeps the link

  lemma WriteAddsOnlyItsRecord(scope: Scope, db: SyncDb, w: Write, r: Record)
    requires WriteEnabled(db, w) && Triggered(scope, r) && Has(ApplyWrite(db, w), r)
    ensures Has(db, r) || (Fires(db, w) && Announcer(r) == RecordOf(w))
  {
  }

  lemma WriteKeepsAck(scope: Scope, h: seq<SyncDb>, dev: Device, w: Write)
    requires AckOk(scope, h, dev) && WriteEnabled(dev.db, w)
    ensures AckOk(scope, h, AfterWrite(dev, w))
  {
    var dev' := AfterWrite(dev, w);
    forall r | Triggered(scope, r) && Has(dev'.db, r)
      ensures Has(dev.db, r) || (Fires(dev.db, w) && Announcer(r) == RecordOf(w))
    {
      WriteAddsOnlyItsRecord(scope, dev.db, w, r);
    }
  }

  lemma ImportKeepsAck(scope: Scope, remote: Remote, dev: Device, n: nat)
    requires RemoteOk(scope, remote) && DeviceOk(scope, remote, dev)
    requires AckOk(scope, remote.history, dev) && dev.phase.Pulled?
    ensures var p := dev.phase;
      AckOk(scope, remote.history, AfterImport(dev, p.remote, n).(phase := Imported(p.generation, p.remote)))
  {
    var h := remote.history;
    var pulled := dev.phase.remote;
    assert Covers(scope, h[|h| - 1], pulled);
    forall r | Triggered(scope, r) && Has(AfterImport(dev, pulled, n).db, r)
      ensures InRemote(h, r) || Announced(dev, r)
    {
      if !r.MetadataRec? {
        ImportIsUnion(dev.db, pulled, r);
      }
    }
  }

  lemma CopyKeepsAck(scope: Scope, h: seq<SyncDb>, dev: Device, g: nat, pulled: SyncDb)
    requires AckOk(scope, h, dev) && (scope.metadata ==> dev.db.metadata.Keys <= pulled.metadata.Keys)
    ensures AckOk(scope, h, dev.(phase := Copied(g, ImportRemoteChanges(pulled, dev.db), dev.lastId)))
  {
    forall r | Triggered(scope, r) && Has(dev.db, r) ensures Has(ImportRemoteChanges(pulled, dev.db), r) {
      if !r.MetadataRec? {
        ImportIsUnion(pulled, dev.db, r);
      }
    }
  }

  lemma CommitKeepsAck(scope: Scope, remote: Remote, dev: Device, a: Action, clock: nat)
    requires RemoteOk(scope, remote) && DeviceOk(scope, remote, dev)
    requires AckOk(scope, remote.history, dev) && Ready(remote, dev, a) && (a.StoreVersion? || a.DeleteRequests?)
    ensures AckOk(scope, remote.history, Advance(remote, clock, dev, a))
  {
    var h := remote.history;
    if a.StoreVersion? {
      assert Covers(scope, h[|h| - 1], dev.phase.data);
    }
  }

  lemma AdvanceKeepsAck(scope: Scope, remote: Remote, clock: nat, dev: Device, a: Action)
    requires RemoteOk(scope, remote) && DeviceOk(scope, remote, dev)
    requires AckOk(scope, remote.history, dev) && Ready(remote, dev, a)
    requires AckGuard(scope, dev, a)
    ensures AckOk(scope, remote.history, Advance(remote, clock, dev, a))
  {
    match a
    case LocalWrite(w) => WriteKeepsAck(scope, remote.history, dev, w);
    case ImportRemote(n) => ImportKeepsAck(scope, remote, dev, n);
    case CopyLocal => CopyKeepsAck(scope, remote.history, dev, dev.phase.generation, dev.phase.remote);
    case StoreVersion => CommitKeepsAck(scope, remote, dev, a, clock);
    case DeleteRequests => CommitKeepsAck(scope, remote, dev, a, clock);
    case _ =>
  }

  lemma AckStable(scope: Scope, remote: Remote, h': seq<SyncDb>, dev: Device)
    requires AckOk(scope, remote.history, dev)
    requires remote.history <= h' && forall i, j :: 0 <= i <= j < |h'| ==> Covers(scope, h'[j], h'[i])
    ensures AckOk(scope, h', dev)
  {
    var h := remote.history;
    if h != [] {
      assert Covers(scope, h'[|h'| - 1], h'[|h| - 1]);
    }
    assert forall r :: Triggered(scope, r) && InRemote(h, r) ==> InRemote(h', r);
  }

  /** Every step with a clean window keeps the link. */
  lemma StepKeepsAck(scope: Scope, s: State, e: Event)
    requires Inv(scope, s) && AckInv(scope, s) && Enabled(s, e) && Acked1(scope, s, e)
    ensures AckInv(scope, Step(s, e))
  {
    var s' := Step(s, e);
    match e
    case Act(d, a) =>
      AdvanceKeepsAck(scope, s.remote, s.clock, s.devices[d], a);
    case Deliver(msg) =>
      ApplyKeepsRemote(scope, s.remote, msg);
      forall d | d in s'.devices ensures AckOk(scope, s'.remote.history, s'.devices[d]) {
        AckStable(scope, s.remote, s'.remote.history, s.devices[d]);
      }
  }
}
