/**
Payment metadata does not travel: which keys a device has, which keys the remote has, and when metadata
converges.
*/
module BackupMetadata {
  import opened Options
  import opened SyncTables
  import opened BackupProtocol
  import opened BackupSafety
  import opened BackupAcknowledged
  import opened BackupEverywhere
  import opened BackupRuns
  import opened BackupConvergence
  import opened BackupReverse

  predicate WritesMetadata(e: Event, d: DeviceId, k: Key) {
    e.Act? && e.device == d && e.action.LocalWrite? && e.action.write.PutMetadata? && e.action.write.key == k
  }

  /** The device itself wrote metadata under the key. */
  ghost predicate WroteMetadata(events: seq<Event>, d: DeviceId, k: Key) {
    exists i :: 0 <= i < |events| && WritesMetadata(events[i], d, k)
  }

  lemma AdvanceKeys(remote: Remote, clock: nat, dev: Device, a: Action, k: Key)
    requires Ready(remote, dev, a)
    ensures k in Advance(remote, clock, dev, a).db.metadata <==>
      k in dev.db.metadata || (a.LocalWrite? && a.write.PutMetadata? && a.write.key == k)
  {
    match a
    case LocalWrite(w) => WriteKeys(dev.db, w, k);
    case ImportRemote(_) => assert ImportRemoteChanges(dev.db, dev.phase.remote).metadata.Keys == dev.db.metadata.Keys;
    case _ =>
  }

  lemma WriteKeys(db: SyncDb, w: Write, k: Key)
    ensures k in ApplyWrite(db, w).metadata <==> k in db.metadata || (w.PutMetadata? && w.key == k)
  {
  }

  lemma StepKeys(s: State, e: Event, d: DeviceId, k: Key)
    requires Enabled(s, e) && d in s.devices
    ensures d in Step(s, e).devices
    ensures k in Step(s, e).devices[d].db.metadata <==> k in s.devices[d].db.metadata || WritesMetadata(e, d, k)
  {
    if e.Act? && e.device == d {
      AdvanceKeys(s.remote, s.clock, s.devices[d], e.action, k);
    }
  }

  /** In every run a device has the metadata keys that it started with or wrote itself, and no others. */
  lemma {:induction false} KeysAreOwn(s: State, events: seq<Event>, d: DeviceId, k: Key)
    requires Runs(s, events) && d in s.devices
    ensures d in Exec(s, events).devices
    ensures k in Exec(s, events).devices[d].db.metadata <==>
      k in s.devices[d].db.metadata || WroteMetadata(events, d, k)
    decreases |events|
  {
    if events != [] {
      StepKeys(s, events[0], d, k);
      KeysAreOwn(Step(s, events[0]), events[1..], d, k);
      assert forall i :: 0 <= i < |events[1..]| ==> events[1..][i] == events[i + 1];
      assert WroteMetadata(events, d, k) <==> WritesMetadata(events[0], d, k) || WroteMetadata(events[1..], d, k) by {
        if i :| 0 <= i < |events| && WritesMetadata(events[i], d, k) {
          assert i > 0 ==> WritesMetadata(events[1..][i - 1], d, k);
        }
        if i :| 0 <= i < |events[1..]| && WritesMetadata(events[1..][i], d, k) {
          assert WritesMetadata(events[i + 1], d, k);
        }
      }
    }
  }

  ghost predicate SameKeys(s: State) {
    forall d, d', k :: d in s.devices && d' in s.devices && k in s.devices[d].db.metadata ==>
                         k in s.devices[d'].db.metadata
  }

  lemma SilentKeepsKeys(s: State, events: seq<Event>, d: DeviceId, k: Key)
    requires Runs(s, events) && Silent(events) && d in s.devices
    ensures d in Exec(s, events).devices
    ensures k in Exec(s, events).devices[d].db.metadata <==> k in s.devices[d].db.metadata
  {
    KeysAreOwn(s, events, d, k);
  }

  /** However often the devices sync, their metadata keys agree exactly when all wrote the same keys. */
  lemma MetadataConvergesIff(ids: set<DeviceId>, events: seq<Event>, first: seq<Event>, second: seq<Event>)
    requires Runs(Start(ids), events) && TwoRounds(Exec(Start(ids), events), first, second)
    ensures SameKeys(After(Exec(Start(ids), events), first, second)) <==>
      forall d, d', k :: d in ids && d' in ids && WroteMetadata(events, d, k) ==> WroteMetadata(events, d', k)
  {
    var s0 := Exec(Start(ids), events);
    var s1 := Exec(s0, first);
    var s2 := Exec(s1, second);
    RunKeepsDevices(Start(ids), events);
    RunKeepsDevices(s0, first);
    RunKeepsDevices(s1, second);
    assert Start(ids).devices.Keys == ids;
    forall d, k | d in ids ensures k in s2.devices[d].db.metadata <==> WroteMetadata(events, d, k) {
      KeysAreOwn(Start(ids), events, d, k);
      SilentKeepsKeys(s0, first, d, k);
      SilentKeepsKeys(s1, second, d, k);
    }
  }

  /** One write, two devices, two complete rounds of syncs: one device still lacks the metadata. */
  lemma MetadataStaysApart() returns (events: seq<Event>, first: seq<Event>, second: seq<Event>, k: Key)
    ensures Runs(Start({0, 1}), events) && TwoRounds(Exec(Start({0, 1}), events), first, second)
    ensures var s2 := After(Exec(Start({0, 1}), events), first, second);
      s2.devices.Keys == {0, 1} && k in s2.devices[0].db.metadata && k !in s2.devices[1].db.metadata
  {
    k := "p";
    var start := Start({0, 1});
    assert start.devices.Keys == {0, 1};
    var e := Act(0, LocalWrite(PutMetadata(k, Stamped(1, "note"))));
    events := [] + [e];
    RunsExtend(start, [], e);
    first, second := RoundsExist({0, 1}, events);
    var s0 := Exec(start, events);
    assert s0 == Step(start, e);
    RunKeepsDevices(s0, first);
    RunKeepsDevices(Exec(s0, first), second);
    forall d | d in {0, 1}
      ensures k in After(s0, first, second).devices[d].db.metadata <==> k in s0.devices[d].db.metadata
    {
      SilentKeepsKeys(s0, first, d, k);
      SilentKeepsKeys(Exec(s0, first), second, d, k);
    }
  }

  // ----- Where the keys of the remote come from

  /** Device `d` took a snapshot at event `n`; `keys` are the keys that it had written itself by then. */
  ghost predicate SnapshotAt(events: seq<Event>, d: DeviceId, n: nat, keys: set<Key>) {
    && n < |events| && events[n] == Act(d, PushSnapshot)
    && forall k :: k in keys <==> WroteMetadata(events[..n], d, k)
  }

  ghost predicate FromSnapshot(events: seq<Event>, db: SyncDb) {
    exists d: nat, n: nat :: SnapshotAt(events, d, n, db.metadata.Keys)
  }

  /** The data has the metadata keys of generation `g`. */
  predicate KeysOf(h: seq<SyncDb>, g: nat, data: SyncDb) {
    0 < g <= |h| && data.metadata.Keys == h[g - 1].metadata.Keys
  }

  ghost predicate PhaseOrigin(p: Property, h: seq<SyncDb>, phase: Phase) {
    match phase
    case Pushing(_, _, data, retry) => !retry ==> p(data)
    case Conflict(_, data) => p(data)
    case Fresh(_, data) => p(data)
    case Pulled(g, data) => Current(h, g, data)
    case Imported(g, data) => Current(h, g, data)
    case Copied(g, data, _) => KeysOf(h, g, data)
    case Merged(_, g, data) => KeysOf(h, g, data)
    case _ => true
  }

  ghost predicate MessageOrigin(p: Property, h: seq<SyncDb>, m: Push) {
    if m.merged then KeysOf(h, m.base, m.data) else p(m.data)
  }

  /** A merge has the keys of the generation it replaces; whatever else is sent satisfies `p`. */
  ghost predicate Origins(p: Property, s: State) {
    && (forall d :: d in s.devices ==> PhaseOrigin(p, s.remote.history, s.devices[d].phase))
    && (forall i :: 0 <= i < |s.remote.sent| ==> MessageOrigin(p, s.remote.history, s.remote.sent[i]))
  }

  lemma AdvanceOrigins(p: Property, remote: Remote, clock: nat, dev: Device, a: Action)
    requires Ready(remote, dev, a) && PhaseOrigin(p, remote.history, dev.phase) && (a.PushSnapshot? ==> p(dev.db))
    ensures PhaseOrigin(p, remote.history, Advance(remote, clock, dev, a).phase)
    ensures forall m :: m in Outgoing(dev, a) ==> MessageOrigin(p, remote.history, m)
  {
    if a.CopyLocal? {
      var pulled := dev.phase.remote;
      assert ImportRemoteChanges(pulled, dev.db).metadata.Keys == pulled.metadata.Keys;
    }
  }

  lemma StepOrigins(p: Property, s: State, e: Event)
    requires Origins(p, s) && Enabled(s, e)
    requires e.Act? && e.action.PushSnapshot? ==> p(s.devices[e.device].db)
    ensures Origins(p, Step(s, e))
  {
    if e.Act? {
      AdvanceOrigins(p, s.remote, s.clock, s.devices[e.device], e.action);
    }
  }

  lemma OriginsWeaken(p: Property, q: Property, s: State)
    requires Origins(p, s) && forall db :: p(db) ==> q(db)
    ensures Origins(q, s)
  {
  }

  lemma SnapshotStays(events: seq<Event>, e: Event, db: SyncDb)
    requires FromSnapshot(events, db)
    ensures FromSnapshot(events + [e], db)
  {
    var d: nat, n: nat :| SnapshotAt(events, d, n, db.metadata.Keys);
    assert (events + [e])[..n] == events[..n];
    assert SnapshotAt(events + [e], d, n, db.metadata.Keys);
  }

  lemma NewSnapshot(ids: set<DeviceId>, events: seq<Event>, d: DeviceId)
    requires Runs(Start(ids), events) && d in Exec(Start(ids), events).devices
    ensures FromSnapshot(events + [Act(d, PushSnapshot)], Exec(Start(ids), events).devices[d].db)
  {
    RunKeepsDevices(Start(ids), events);
    var e, db := Act(d, PushSnapshot), Exec(Start(ids), events).devices[d].db;
    forall k ensures k in db.metadata <==> WroteMetadata(events, d, k) {
      KeysAreOwn(Start(ids), events, d, k);
    }
    assert (events + [e])[..|events|] == events;
    assert SnapshotAt(events + [e], d, |events|, db.metadata.Keys);
  }

  lemma {:induction false} RunOrigins(ids: set<DeviceId>, events: seq<Event>)
    requires Runs(Start(ids), events)
    ensures Origins(db => FromSnapshot(events, db), Exec(Start(ids), events))
  {
    if events != [] {
      var before, e := events[..|events| - 1], events[|events| - 1];
      assert events == before + [e];
      RunsPrefix(Start(ids), before, e);
      RunOrigins(ids, before);
      var s := Exec(Start(ids), before);
      forall db | FromSnapshot(before, db) ensures FromSnapshot(events, db) {
        SnapshotStays(before, e, db);
      }
      OriginsWeaken(db => FromSnapshot(before, db), db => FromSnapshot(events, db), s);
      if e.Act? && e.action.PushSnapshot? {
        NewSnapshot(ids, before, e.device);
      }
      StepOrigins(db => FromSnapshot(events, db), s, e);
    }
  }

  // ----- Which keys the remote has

  /** Generation `g + 1` was pushed by a merge. */
  ghost predicate IsMerge(remote: Remote, g: nat) {
    exists i: nat :: Became(remote, g, i) && remote.sent[i].merged
  }

  /** Generation `g + 1` is the snapshot that device `d` took at event `n`. */
  ghost predicate IsSnapshot(remote: Remote, events: seq<Event>, g: nat, d: DeviceId, n: nat) {
    && g < |remote.history| && SnapshotAt(events, d, n, remote.history[g].metadata.Keys)
    && exists i: nat :: Became(remote, g, i) && !remote.sent[i].merged
  }

  /** Every generation is a merge, with the keys of the one before, or the snapshot of a device. */
  lemma GenerationKeys(ids: set<DeviceId>, events: seq<Event>, g: nat)
    requires Runs(Start(ids), events) && g < |Exec(Start(ids), events).remote.history|
    ensures var remote := Exec(Start(ids), events).remote;
      && (IsMerge(remote, g) ==> g > 0 && remote.history[g].metadata.Keys == remote.history[g - 1].metadata.Keys)
      && (!IsMerge(remote, g) ==> exists d: nat, n: nat :: IsSnapshot(remote, events, g, d, n))
  {
    RunOrigins(ids, events);
    RunKeepsAccounted(Start(ids), events);
    var remote := Exec(Start(ids), events).remote;
    assert WasSent(remote, g);
    var i: nat :| Became(remote, g, i);
    assert MessageOrigin(db => FromSnapshot(events, db), remote.history, remote.sent[i]);
    if IsMerge(remote, g) {
      var j: nat :| Became(remote, g, j) && remote.sent[j].merged;
      assert MessageOrigin(db => FromSnapshot(events, db), remote.history, remote.sent[j]);
    } else {
      var d: nat, n: nat :| SnapshotAt(events, d, n, remote.history[g].metadata.Keys);
      assert IsSnapshot(remote, events, g, d, n);
    }
  }

  /**
  Exactly when a generation loses a metadata key of the one before: when it is the snapshot of a device
  that had not written that key itself.
  */
  lemma LosesKeyIff(ids: set<DeviceId>, events: seq<Event>, g: nat, k: Key)
    requires Runs(Start(ids), events) && 0 < g < |Exec(Start(ids), events).remote.history|
    requires k in Exec(Start(ids), events).remote.history[g - 1].metadata
    ensures var remote := Exec(Start(ids), events).remote;
      k !in remote.history[g].metadata <==>
        !IsMerge(remote, g) &&
        exists d: nat, n: nat :: IsSnapshot(remote, events, g, d, n) && !WroteMetadata(events[..n], d, k)
  {
    GenerationKeys(ids, events, g);
    var remote := Exec(Start(ids), events).remote;
    if !IsMerge(remote, g) && k !in remote.history[g].metadata {
      var d: nat, n: nat :| IsSnapshot(remote, events, g, d, n);
      assert !WroteMetadata(events[..n], d, k);
    }
  }

  /** No generation ever loses metadata exactly when no snapshot lacks a key of the generation it replaces. */
  lemma NeverLostIff(ids: set<DeviceId>, events: seq<Event>)
    requires Runs(Start(ids), events)
    ensures var remote := Exec(Start(ids), events).remote;
      var h := remote.history;
      (forall i, j :: 0 <= i <= j < |h| ==> h[i].metadata.Keys <= h[j].metadata.Keys) <==>
        (forall g :: 0 < g < |h| && !IsMerge(remote, g) ==> h[g - 1].metadata.Keys <= h[g].metadata.Keys)
  {
    var remote := Exec(Start(ids), events).remote;
    var h := remote.history;
    if forall g :: 0 < g < |h| && !IsMerge(remote, g) ==> h[g - 1].metadata.Keys <= h[g].metadata.Keys {
      forall i, j | 0 <= i <= j < |h| ensures h[i].metadata.Keys <= h[j].metadata.Keys {
        KeysGrow(ids, events, i, j);
      }
    }
  }

  lemma {:induction false} KeysGrow(ids: set<DeviceId>, events: seq<Event>, i: nat, j: nat)
    requires Runs(Start(ids), events) && i <= j < |Exec(Start(ids), events).remote.history|
    requires var remote := Exec(Start(ids), events).remote;
      forall g :: 0 < g < |remote.history| && !IsMerge(remote, g) ==>
        remote.history[g - 1].metadata.Keys <= remote.history[g].metadata.Keys
    ensures var h := Exec(Start(ids), events).remote.history; h[i].metadata.Keys <= h[j].metadata.Keys
    decreases j
  {
    if i < j {
      KeysGrow(ids, events, i, j - 1);
      GenerationKeys(ids, events, j);
    }
  }

  /** The last generation up to `g` that is no merge, and the device and the event it comes from. */
  lemma {:induction false} LastSnapshot(ids: set<DeviceId>, events: seq<Event>, g: nat)
    returns (last: nat, d: DeviceId, n: nat)
    requires Runs(Start(ids), events) && g < |Exec(Start(ids), events).remote.history|
    ensures var remote := Exec(Start(ids), events).remote;
      && last <= g && IsSnapshot(remote, events, last, d, n) && (forall m :: last < m <= g ==> IsMerge(remote, m))
      && remote.history[g].metadata.Keys == remote.history[last].metadata.Keys
  {
    GenerationKeys(ids, events, g);
    var remote := Exec(Start(ids), events).remote;
    if IsMerge(remote, g) {
      last, d, n := LastSnapshot(ids, events, g - 1);
    } else {
      last := g;
      d, n :| IsSnapshot(remote, events, g, d, n);
    }
  }

  /**
  Exactly when a metadata key is in the remote: when the device whose snapshot was the last push that was
  no merge had written it itself before that snapshot.
  */
  lemma MetadataInRemoteIff(ids: set<DeviceId>, events: seq<Event>) returns (last: nat, d: DeviceId, n: nat)
    requires Runs(Start(ids), events) && Exec(Start(ids), events).remote.history != []
    ensures var remote := Exec(Start(ids), events).remote;
      && IsSnapshot(remote, events, last, d, n)
      && (forall m :: last < m < |remote.history| ==> IsMerge(remote, m))
      && (forall k :: InRemote(remote.history, MetadataRec(k, 0)) <==> WroteMetadata(events[..n], d, k))
  {
    var h := Exec(Start(ids), events).remote.history;
    last, d, n := LastSnapshot(ids, events, |h| - 1);
    assert forall k :: InRemote(h, MetadataRec(k, 0)) <==> k in h[|h| - 1].metadata.Keys;
  }

  /** Exactly when all metadata of a device is in the remote: when that snapshot's device had written all its keys. */
  lemma DeviceMetadataInRemoteIff(ids: set<DeviceId>, events: seq<Event>, mine: DeviceId)
    returns (last: nat, d: DeviceId, n: nat)
    requires Runs(Start(ids), events) && Exec(Start(ids), events).remote.history != [] && mine in ids
    ensures var s := Exec(Start(ids), events);
      && IsSnapshot(s.remote, events, last, d, n) && mine in s.devices
      && (forall m :: last < m < |s.remote.history| ==> IsMerge(s.remote, m))
      && ((forall k :: k in s.devices[mine].db.metadata ==> InRemote(s.remote.history, MetadataRec(k, 0))) <==>
            (forall k :: WroteMetadata(events, mine, k) ==> WroteMetadata(events[..n], d, k)))
  {
    last, d, n := MetadataInRemoteIff(ids, events);
    RunKeepsDevices(Start(ids), events);
    assert Start(ids).devices.Keys == ids;
    forall k ensures k in Exec(Start(ids), events).devices[mine].db.metadata <==> WroteMetadata(events, mine, k) {
      KeysAreOwn(Start(ids), events, mine, k);
    }
  }
}
