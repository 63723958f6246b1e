/** What every run of the backup protocol keeps: the remote never loses a record. */
module BackupSafety {
  import opened Options
  import opened SyncTables
  import opened BackupProtocol

  // ----- The invariant

  /** A push never drops what its base generation held. */
  ghost predicate MessageOk(scope: Scope, h: seq<SyncDb>, m: Push) {
    m.base <= |h| && (m.base > 0 ==> Covers(scope, m.data, h[m.base - 1]))
  }

  ghost predicate RemoteOk(scope: Scope, remote: Remote) {
    var h := remote.history;
    && (forall i, j :: 0 <= i <= j < |h| ==> Covers(scope, h[j], h[i]))
    && (forall i :: 0 <= i < |remote.sent| ==> MessageOk(scope, h, remote.sent[i]))
    && (forall i :: i in remote.accepted ==>
          i < |remote.sent| && remote.sent[i].base < |h| && h[remote.sent[i].base] == remote.sent[i].data)
  }

  /** A device that stores version `g` holds every record pushed at `g`. */
  ghost predicate VersionOk(scope: Scope, h: seq<SyncDb>, version: Option<nat>, db: SyncDb) {
    version.Some? ==> 0 < version.value <= |h| && Covers(scope, db, h[version.value - 1])
  }

  ghost predicate Current(h: seq<SyncDb>, generation: nat, data: SyncDb) {
    0 < generation <= |h| && h[generation - 1] == data
  }

  ghost predicate PhaseOk(scope: Scope, remote: Remote, dev: Device) {
    var h := remote.history;
    match dev.phase
    case Idle | Requested(_) => true
    case Versioned(_, version) => VersionOk(scope, h, version, dev.db)
    case Pushing(_, msg, data, _) =>
      msg < |remote.sent| && remote.sent[msg].data == data && Covers(scope, dev.db, data)
    case Conflict(_, data) => Covers(scope, dev.db, data)
    case Fresh(_, data) => Covers(scope, dev.db, data)
    case Pulled(g, data) => Current(h, g, data)
    case Imported(g, data) => Current(h, g, data) && Covers(scope, dev.db, data)
    case Copied(g, data, _) => 0 < g <= |h| && Covers(scope, data, h[g - 1]) && Covers(scope, dev.db, data)
    case Merged(_, g, data) => 0 < g <= |h| && Covers(scope, data, h[g - 1]) && Covers(scope, dev.db, data)
    case Accepted(_, g, data) => Current(h, g, data) && Covers(scope, dev.db, data)
    case Stored(_, g) => dev.lastVersion == Some(g)
  }

  ghost predicate DeviceOk(scope: Scope, remote: Remote, dev: Device) {
    VersionOk(scope, remote.history, dev.lastVersion, dev.db) && PhaseOk(scope, remote, dev)
  }

  ghost predicate Inv(scope: Scope, s: State) {
    RemoteOk(scope, s.remote) && forall d :: d in s.devices ==> DeviceOk(scope, s.remote, s.devices[d])
  }

  // ----- The guards under which more than `RECORDS` is kept

  /** Only an import into a device that lacks a pulled metadata row is unsafe for metadata. */
  predicate ImportGuard(dev: Device, a: Action) {
    a.ImportRemote? && dev.phase.Pulled? ==> dev.phase.remote.metadata.Keys <= dev.db.metadata.Keys
  }

  /** The clock did not go back: a row is replaced by one that is at least as young. */
  predicate Advances(db: SyncDb, w: Write) {
    match w
    case InsertSwap(k, _, fee) => k in db.fees ==> fee.at >= db.fees[k].at
    case PutFee(k, fee) => k in db.fees ==> fee.at >= db.fees[k].at
    case PutMetadata(k, row) => k in db.metadata ==> row.at >= db.metadata[k].at
    case _ => true
  }

  predicate Guard(scope: Scope, dev: Device, a: Action) {
    && (scope.metadata ==> ImportGuard(dev, a))
    && (scope.times && a.LocalWrite? ==> Advances(dev.db, a.write))
  }

  predicate Safe1(scope: Scope, s: State, e: Event)
    requires Enabled(s, e)
  {
    e.Act? ==> Guard(scope, s.devices[e.device], e.action)
  }

  // ----- Every step keeps it

  lemma WriteGrows(scope: Scope, db: SyncDb, w: Write)
    requires WriteEnabled(db, w) && (scope.times ==> Advances(db, w))
    ensures Covers(scope, ApplyWrite(db, w), db)
  {
  }

  lemma ImportGrows(scope: Scope, mine: SyncDb, theirs: SyncDb)
    ensures Covers(Scope(true, true), ImportRemoteChanges(mine, theirs), mine)
    ensures (scope.metadata ==> theirs.metadata.Keys <= mine.metadata.Keys) <==>
      Covers(scope, ImportRemoteChanges(mine, theirs), theirs)
  {
    if scope.metadata {
      ImportKeepsMetadataIff(scope, mine, theirs);
    }
  }

  /** The copy that is pushed holds nothing that the device does not hold. */
  lemma CopyAddsNothing(scope: Scope, local: SyncDb, pulled: SyncDb)
    requires Covers(scope, local, pulled)
    ensures Covers(scope, local, ImportRemoteChanges(pulled, local))
    ensures Covers(scope, ImportRemoteChanges(pulled, local), pulled)
  {
  }

  /** A device keeps its part of the invariant while the transport moves on without it. */
  lemma DeviceStable(scope: Scope, old_: Remote, new_: Remote, dev: Device)
    requires DeviceOk(scope, old_, dev)
    requires old_.history <= new_.history && old_.sent <= new_.sent
    ensures DeviceOk(scope, new_, dev)
  {
  }

  /** A device keeps its part of the invariant while its database grows. */
  lemma GrowthKeepsDevice(scope: Scope, remote: Remote, dev: Device, dev': Device)
    requires DeviceOk(scope, remote, dev) && Covers(scope, dev'.db, dev.db)
    requires dev'.phase == dev.phase && dev'.lastVersion == dev.lastVersion
    ensures DeviceOk(scope, remote, dev')
  {
  }

  lemma MergeKeepsDevice(scope: Scope, remote: Remote, clock: nat, dev: Device, a: Action)
    requires DeviceOk(scope, remote, dev) && Guard(scope, dev, a)
    requires Ready(remote, dev, a) && (a.ImportRemote? || a.CopyLocal?)
    ensures DeviceOk(scope, remote, Advance(remote, clock, dev, a))
  {
    if a.ImportRemote? {
      ImportGrows(scope, dev.db, dev.phase.remote);
      GrowthKeepsDevice(scope, remote, dev, AfterImport(dev, dev.phase.remote, a.fired));
    } else {
      CopyAddsNothing(scope, dev.db, dev.phase.remote);
    }
  }

  lemma AdvanceKeepsDevice(scope: Scope, remote: Remote, clock: nat, dev: Device, a: Action)
    requires RemoteOk(scope, remote) && DeviceOk(scope, remote, dev)
    requires Ready(remote, dev, a) && Guard(scope, dev, a)
    ensures DeviceOk(scope, remote.(sent := remote.sent + Outgoing(dev, a)), Advance(remote, clock, dev, a))
  {
    if a.LocalWrite? {
      WriteGrows(scope, dev.db, a.write);
      GrowthKeepsDevice(scope, remote, dev, AfterWrite(dev, a.write));
    } else if a.ImportRemote? || a.CopyLocal? {
      MergeKeepsDevice(scope, remote, clock, dev, a);
    }
  }

  lemma OutgoingOk(scope: Scope, remote: Remote, dev: Device, a: Action)
    requires DeviceOk(scope, remote, dev)
    requires Ready(remote, dev, a)
    ensures forall m :: m in Outgoing(dev, a) ==> MessageOk(scope, remote.history, m)
  {
  }

  lemma ApplyKeepsRemote(scope: Scope, remote: Remote, msg: nat)
    requires RemoteOk(scope, remote) && msg < |remote.sent|
    ensures RemoteOk(scope, Apply(remote, msg))
  {
    var m := remote.sent[msg];
    if m.base == |remote.history| {
      var h, h' := remote.history, remote.history + [m.data];
      forall i, j | 0 <= i <= j < |h'| ensures Covers(scope, h'[j], h'[i]) {
        if i < |h| == j {
          assert Covers(scope, m.data, h[|h| - 1]);
          assert Covers(scope, h[|h| - 1], h[i]);
        }
      }
    }
  }

  /** Every step keeps the invariant; beyond `RECORDS` every step that meets its guard. */
  lemma StepKeepsInv(scope: Scope, s: State, e: Event)
    requires Inv(scope, s) && Enabled(s, e) && Safe1(scope, s, e)
    ensures Inv(scope, Step(s, e))
  {
    var s' := Step(s, e);
    match e
    case Act(d, a) =>
      AdvanceKeepsDevice(scope, s.remote, s.clock, s.devices[d], a);
      OutgoingOk(scope, s.remote, s.devices[d], a);
      forall d' | d' in s'.devices ensures DeviceOk(scope, s'.remote, s'.devices[d']) {
        if d' != d {
          DeviceStable(scope, s.remote, s'.remote, s.devices[d']);
        }
      }
    case Deliver(msg) =>
      ApplyKeepsRemote(scope, s.remote, msg);
      forall d | d in s'.devices ensures DeviceOk(scope, s'.remote, s'.devices[d]) {
        DeviceStable(scope, s.remote, s'.remote, s.devices[d]);
      }
  }
}
