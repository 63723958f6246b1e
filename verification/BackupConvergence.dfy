/**
Propagation and convergence under arbitrary interleavings: once every device has completed a sync that
began after some moment, and then every device has completed another that began after that, everything
any device held at the first moment is held by all of them.
*/
module BackupConvergence {
  import opened Options
  import opened SyncTables
  import opened BackupProtocol
  import opened BackupSafety
  import opened BackupRuns

  // ----- Time stamps of syncs

  ghost predicate TimesOk(s: State) {
    forall d :: d in s.devices ==>
      var dev := s.devices[d];
      && (dev.began < s.clock || dev.phase.Idle?)
      && (dev.completed.Some? ==> dev.completed.value < s.clock)
  }

  /** The last successful sync of the device began at time `t` or later. */
  predicate SyncedSince(dev: Device, t: nat) {
    dev.completed.Some? && dev.completed.value >= t
  }

  lemma StepKeepsTimes(s: State, e: Event)
    requires TimesOk(s) && Enabled(s, e)
    ensures TimesOk(Step(s, e))
  {
  }

  // ----- First round: what a device held reaches the remote

  ghost predicate LastCovers(scope: Scope, h: seq<SyncDb>, db: SyncDb) {
    h != [] && Covers(scope, h[|h| - 1], db)
  }

  ghost predicate Carries(scope: Scope, h: seq<SyncDb>, phase: Phase, db: SyncDb) {
    match phase
    case Pushing(_, _, data, _) => Covers(scope, data, db)
    case Conflict(_, data) => Covers(scope, data, db)
    case Fresh(_, data) => Covers(scope, data, db)
    case Copied(_, data, _) => Covers(scope, data, db)
    case Merged(_, _, data) => Covers(scope, data, db)
    case Accepted(_, _, data) => Covers(scope, data, db)
    case Stored(_, _) => LastCovers(scope, h, db)
    case _ => true
  }

  /** `db` is what the device held at time `t`. Payment metadata is out of scope in all that follows. */
  ghost predicate Uploads(scope: Scope, t: nat, db: SyncDb, h: seq<SyncDb>, dev: Device) {
    && Covers(scope, dev.db, db)
    && (dev.began >= t ==> Carries(scope, h, dev.phase, db))
    && (SyncedSince(dev, t) ==> LastCovers(scope, h, db))
  }

  lemma AdvanceUploads(scope: Scope, t: nat, db: SyncDb, remote: Remote, clock: nat, dev: Device, a: Action)
    requires RemoteOk(scope, remote) && DeviceOk(scope, remote, dev) && Ready(remote, dev, a)
    requires !scope.metadata && Guard(scope, dev, a)
    requires Uploads(scope, t, db, remote.history, dev)
    ensures Uploads(scope, t, db, remote.history, Advance(remote, clock, dev, a))
  {
    var h := remote.history;
    match a
    case LocalWrite(w) => WriteGrows(scope, dev.db, w);
    case ImportRemote(n) => ImportGrows(scope, dev.db, dev.phase.remote);
    case CopyLocal => ImportGrows(scope, dev.phase.remote, dev.db);
    case StoreVersion => assert Covers(scope, h[|h| - 1], dev.phase.data);
    case _ =>
  }

  lemma UploadsStable(scope: Scope, t: nat, db: SyncDb, h: seq<SyncDb>, h': seq<SyncDb>, dev: Device)
    requires Uploads(scope, t, db, h, dev) && h <= h'
    requires forall i, j :: 0 <= i <= j < |h'| ==> Covers(scope, h'[j], h'[i])
    ensures Uploads(scope, t, db, h', dev)
  {
    if h != [] {
      assert Covers(scope, h'[|h'| - 1], h'[|h| - 1]);
    }
  }

  ghost predicate AllUpload(scope: Scope, s0: State, s: State) {
    s.devices.Keys == s0.devices.Keys &&
    forall d :: d in s0.devices ==> Uploads(scope, s0.clock, s0.devices[d].db, s.remote.history, s.devices[d])
  }

  lemma StepUploads(scope: Scope, s0: State, s: State, e: Event)
    requires !scope.metadata && Inv(scope, s) && Enabled(s, e) && Safe1(scope, s, e) && AllUpload(scope, s0, s)
    ensures AllUpload(scope, s0, Step(s, e))
  {
    var s' := Step(s, e);
    match e
    case Act(d, a) => AdvanceUploads(scope, s0.clock, s0.devices[d].db, s.remote, s.clock, s.devices[d], a);
    case Deliver(msg) =>
      ApplyKeepsRemote(scope, s.remote, msg);
      forall d | d in s0.devices
        ensures Uploads(scope, s0.clock, s0.devices[d].db, s'.remote.history, s'.devices[d])
      {
        UploadsStable(scope, s0.clock, s0.devices[d].db, s.remote.history, s'.remote.history, s.devices[d]);
      }
  }

  // ----- Second round: what the remote held reaches the device

  /** Messages sent after the first `n` were accepted, if at all, after the generations of `h`. */
  ghost predicate LaterAccepted(h: seq<SyncDb>, n: nat, remote: Remote) {
    && h <= remote.history && n <= |remote.sent|
    && forall i :: i in remote.accepted && n <= i < |remote.sent| ==> remote.sent[i].base >= |h|
  }

  ghost predicate Downloads(scope: Scope, t: nat, h: seq<SyncDb>, n: nat, dev: Device)
    requires h != []
  {
    && (dev.began >= t ==>
          match dev.phase
          case Pushing(_, msg, _, _) => msg >= n
          case Accepted(_, g, _) => g > |h|
          case Stored(_, g) => g > |h|
          case _ => true)
    && (SyncedSince(dev, t) ==> Covers(scope, dev.db, h[|h| - 1]))
  }

  lemma AdvanceDownloads(
    scope: Scope, t: nat, h: seq<SyncDb>, n: nat, remote: Remote, clock: nat, dev: Device, a: Action)
    requires h != [] && RemoteOk(scope, remote) && DeviceOk(scope, remote, dev) && Ready(remote, dev, a)
    requires Guard(scope, dev, a)
    requires LaterAccepted(h, n, remote) && Downloads(scope, t, h, n, dev)
    ensures Downloads(scope, t, h, n, Advance(remote, clock, dev, a))
  {
    match a
    case LocalWrite(w) => WriteGrows(scope, dev.db, w);
    case ImportRemote(fired) => ImportGrows(scope, dev.db, dev.phase.remote);
    case DeleteRequests =>
      if dev.began >= t {
        assert Covers(scope, remote.history[dev.phase.accepted - 1], remote.history[|h| - 1]);
      }
    case _ =>
  }

  ghost predicate AllDownload(scope: Scope, s1: State, s: State)
    requires s1.remote.history != []
  {
    && s.devices.Keys == s1.devices.Keys
    && LaterAccepted(s1.remote.history, |s1.remote.sent|, s.remote)
    && forall d :: d in s1.devices ==> Downloads(scope, s1.clock, s1.remote.history, |s1.remote.sent|, s.devices[d])
  }

  lemma StepDownloads(scope: Scope, s1: State, s: State, e: Event)
    requires s1.remote.history != [] && Inv(scope, s) && AllDownload(scope, s1, s)
    requires Enabled(s, e) && Safe1(scope, s, e)
    ensures AllDownload(scope, s1, Step(s, e))
  {
    if e.Act? {
      var d := e.device;
      var h, n := s1.remote.history, |s1.remote.sent|;
      AdvanceDownloads(scope, s1.clock, h, n, s.remote, s.clock, s.devices[d], e.action);
    }
  }

  lemma {:induction false} RunUploads(scope: Scope, s0: State, s: State, events: seq<Event>)
    requires !scope.metadata && Inv(scope, s) && TimesOk(s) && AllUpload(scope, s0, s)
    requires Runs(s, events) && Safe(scope, s, events)
    ensures var s' := Exec(s, events); Inv(scope, s') && TimesOk(s') && AllUpload(scope, s0, s')
    decreases |events|
  {
    if events != [] {
      StepKeepsInv(scope, s, events[0]);
      StepKeepsTimes(s, events[0]);
      StepUploads(scope, s0, s, events[0]);
      RunUploads(scope, s0, Step(s, events[0]), events[1..]);
    }
  }

  lemma {:induction false} RunDownloads(scope: Scope, s1: State, s: State, events: seq<Event>)
    requires s1.remote.history != [] && Inv(scope, s) && AllDownload(scope, s1, s)
    requires Runs(s, events) && Safe(scope, s, events)
    ensures Inv(scope, Exec(s, events)) && AllDownload(scope, s1, Exec(s, events))
    decreases |events|
  {
    if events != [] {
      StepKeepsInv(scope, s, events[0]);
      StepDownloads(scope, s1, s, events[0]);
      RunDownloads(scope, s1, Step(s, events[0]), events[1..]);
    }
  }

  /** Every device completes, before the end of the run, a sync that began after its start. */
  ghost predicate EveryoneSyncs(s: State, events: seq<Event>)
    requires Runs(s, events)
  {
    forall d :: d in s.devices && d in Exec(s, events).devices ==> SyncedSince(Exec(s, events).devices[d], s.clock)
  }

  /** Two rounds of completed syncs, interleaved in any way with writes and lost messages, spread every record. */
  lemma TwoRoundsSpread(
    scope: Scope, s0: State, first: seq<Event>, second: seq<Event>, d: DeviceId, holder: DeviceId)
    requires !scope.metadata && Inv(scope, s0) && TimesOk(s0) && d in s0.devices && holder in s0.devices
    requires Runs(s0, first) && Safe(scope, s0, first) && EveryoneSyncs(s0, first)
    requires var s1 := Exec(s0, first); Runs(s1, second) && Safe(scope, s1, second) && EveryoneSyncs(s1, second)
    ensures var s2 := Exec(Exec(s0, first), second);
      && d in s2.devices && Covers(scope, s2.devices[d].db, s0.devices[holder].db)
      && LastCovers(scope, s2.remote.history, s0.devices[holder].db)
  {
    RunUploads(scope, s0, s0, first);
    var s1 := Exec(s0, first);
    assert Uploads(scope, s0.clock, s0.devices[holder].db, s1.remote.history, s1.devices[holder]);
    RunDownloads(scope, s1, s1, second);
    var s2 := Exec(s1, second);
    var h1, h2 := s1.remote.history, s2.remote.history;
    assert Downloads(scope, s1.clock, h1, |s1.remote.sent|, s2.devices[d]);
    assert Covers(scope, h2[|h2| - 1], h2[|h1| - 1]);
  }

  /**
  Whatever a device held is in the remote once a sync that it began since then has completed; when no clock
  goes back, at no older age.
  */
  lemma SyncedMeansUploaded(scope: Scope, s0: State, events: seq<Event>, d: DeviceId)
    requires !scope.metadata && Inv(scope, s0) && TimesOk(s0) && d in s0.devices
    requires Runs(s0, events) && Safe(scope, s0, events)
    requires d in Exec(s0, events).devices && SyncedSince(Exec(s0, events).devices[d], s0.clock)
    ensures LastCovers(scope, Exec(s0, events).remote.history, s0.devices[d].db)
  {
    RunUploads(scope, s0, s0, events);
    var s := Exec(s0, events);
    assert Uploads(scope, s0.clock, s0.devices[d].db, s.remote.history, s.devices[d]);
  }

  /** The same without ages, for whatever run led there. */
  lemma ReachedMeansUploaded(s0: State, s: State, d: DeviceId)
    requires Inv(RECORDS, s0) && TimesOk(s0) && Reaches(s0, s) && d in s0.devices
    requires d in s.devices && SyncedSince(s.devices[d], s0.clock)
    ensures LastCovers(RECORDS, s.remote.history, s0.devices[d].db)
  {
    var events :| Runs(s0, events) && Exec(s0, events) == s;
    AlwaysSafe(s0, events);
    SyncedMeansUploaded(RECORDS, s0, events, d);
  }

  // ----- Nothing is invented

  ghost predicate Held(s: State, r: Record) {
    exists d :: d in s.devices && Has(s.devices[d].db, r)
  }

  ghost predicate FromDevices(scope: Scope, s: State, db: SyncDb) {
    forall r :: Has(db, r) && In(scope, r) ==> Held(s, r)
  }

  /** Whatever the transport holds is held by some device. */
  ghost predicate Sourced(scope: Scope, s: State) {
    && (forall i :: 0 <= i < |s.remote.history| ==> FromDevices(scope, s, s.remote.history[i]))
    && (forall i :: 0 <= i < |s.remote.sent| ==> FromDevices(scope, s, s.remote.sent[i].data))
  }

  lemma AdvanceGrows(scope: Scope, remote: Remote, clock: nat, dev: Device, a: Action)
    requires Ready(remote, dev, a) && (a.LocalWrite? && scope.times ==> Advances(dev.db, a.write))
    ensures Covers(scope, Advance(remote, clock, dev, a).db, dev.db)
  {
    match a
    case LocalWrite(w) => WriteGrows(scope, dev.db, w);
    case ImportRemote(n) => ImportGrows(scope, dev.db, dev.phase.remote);
    case _ =>
  }

  lemma HeldForever(scope: Scope, s: State, e: Event, r: Record)
    requires Enabled(s, e) && Safe1(scope, s, e) && In(scope, r) && Held(s, r)
    ensures Held(Step(s, e), r)
  {
    var d :| d in s.devices && Has(s.devices[d].db, r);
    if e.Act? && e.device == d {
      AdvanceGrows(scope, s.remote, s.clock, s.devices[d], e.action);
    }
    assert d in Step(s, e).devices && Has(Step(s, e).devices[d].db, r);
  }

  lemma OutgoingIsOwn(scope: Scope, remote: Remote, dev: Device, a: Action)
    requires DeviceOk(scope, remote, dev) && Ready(remote, dev, a)
    ensures forall m :: m in Outgoing(dev, a) ==> Covers(scope, dev.db, m.data)
  {
  }

  lemma StepKeepsSourced(scope: Scope, s: State, e: Event)
    requires Inv(scope, s) && Sourced(scope, s) && Enabled(s, e) && Safe1(scope, s, e)
    ensures Sourced(scope, Step(s, e))
  {
    var s' := Step(s, e);
    forall r | In(scope, r) && Held(s, r) ensures Held(s', r) {
      HeldForever(scope, s, e, r);
    }
    if e.Act? {
      OutgoingIsOwn(scope, s.remote, s.devices[e.device], e.action);
      forall i | 0 <= i < |s'.remote.sent| ensures FromDevices(scope, s', s'.remote.sent[i].data) {
        if i >= |s.remote.sent| {
          assert s'.remote.sent[i] in Outgoing(s.devices[e.device], e.action);
          assert forall r :: Has(s.devices[e.device].db, r) ==> Held(s, r);
        } else {
          assert FromDevices(scope, s, s.remote.sent[i].data);
        }
      }
    }
    forall i | 0 <= i < |s'.remote.history| ensures FromDevices(scope, s', s'.remote.history[i]) {
      if i < |s.remote.history| {
        assert FromDevices(scope, s, s.remote.history[i]);
      } else {
        assert FromDevices(scope, s, s.remote.sent[e.msg].data);
      }
    }
  }

  predicate Silent(events: seq<Event>) {
    forall i :: 0 <= i < |events| ==> events[i].Deliver? || !events[i].action.LocalWrite?
  }

  /** An import brings nothing that no device held. */
  lemma ImportInventsNothing(scope: Scope, s: State, d: DeviceId, r: Record)
    requires Inv(scope, s) && Sourced(scope, s) && d in s.devices && s.devices[d].phase.Pulled?
    requires !scope.metadata && In(scope, r)
    requires Has(ImportRemoteChanges(s.devices[d].db, s.devices[d].phase.remote), r)
    ensures Held(s, r)
  {
    var dev := s.devices[d];
    ImportIsUnion(dev.db, dev.phase.remote, r);
    assert FromDevices(scope, s, s.remote.history[dev.phase.generation - 1]);
    if Has(dev.db, r) {
      assert Held(s, r);
    }
  }

  lemma SilentAdvance(remote: Remote, clock: nat, dev: Device, a: Action)
    requires Ready(remote, dev, a) && !a.LocalWrite?
    ensures Advance(remote, clock, dev, a).db ==
      if a.ImportRemote? then ImportRemoteChanges(dev.db, dev.phase.remote) else dev.db
  {
  }

  lemma SilentStepInventsNothing(scope: Scope, s: State, e: Event, r: Record)
    requires Inv(scope, s) && Sourced(scope, s) && Enabled(s, e) && (e.Deliver? || !e.action.LocalWrite?)
    requires !scope.metadata && In(scope, r) && Held(Step(s, e), r)
    ensures Held(s, r)
  {
    var d :| d in Step(s, e).devices && Has(Step(s, e).devices[d].db, r);
    if e.Act? && e.device == d {
      SilentAdvance(s.remote, s.clock, s.devices[d], e.action);
      if e.action.ImportRemote? {
        ImportInventsNothing(scope, s, d, r);
        return;
      }
    }
    assert Has(s.devices[d].db, r);
  }

  /** Without local writes there is nothing to guard, as long as payment metadata is out of scope. */
  lemma {:induction false} SilentIsSafe(scope: Scope, s: State, events: seq<Event>)
    requires !scope.metadata && Runs(s, events) && Silent(events)
    ensures Safe(scope, s, events)
    decreases |events|
  {
    if events != [] {
      assert forall i :: 0 <= i < |events[1..]| ==> events[1..][i] == events[i + 1];
      SilentIsSafe(scope, Step(s, events[0]), events[1..]);
    }
  }

  lemma {:induction false} SilentRunInventsNothing(scope: Scope, s: State, events: seq<Event>, r: Record)
    requires !scope.metadata && In(scope, r) && Inv(scope, s) && Sourced(scope, s)
    requires Runs(s, events) && Silent(events)
    ensures Sourced(scope, Exec(s, events)) && (Held(Exec(s, events), r) ==> Held(s, r))
    decreases |events|
  {
    if events != [] {
      var s' := Step(s, events[0]);
      StepKeepsInv(scope, s, events[0]);
      StepKeepsSourced(scope, s, events[0]);
      assert forall i :: 0 <= i < |events[1..]| ==> events[1..][i] == events[i + 1];
      SilentRunInventsNothing(scope, s', events[1..], r);
      if Held(s', r) {
        SilentStepInventsNothing(scope, s, events[0], r);
      }
    }
  }

  lemma {:induction false} RunKeepsSourced(scope: Scope, s: State, events: seq<Event>)
    requires Inv(scope, s) && TimesOk(s) && Sourced(scope, s) && Runs(s, events) && Safe(scope, s, events)
    ensures var s' := Exec(s, events); Inv(scope, s') && TimesOk(s') && Sourced(scope, s')
    decreases |events|
  {
    if events != [] {
      StepKeepsInv(scope, s, events[0]);
      StepKeepsTimes(s, events[0]);
      StepKeepsSourced(scope, s, events[0]);
      RunKeepsSourced(scope, Step(s, events[0]), events[1..]);
    }
  }

  lemma {:induction false} RunKeepsDevices(s: State, events: seq<Event>)
    requires Runs(s, events)
    ensures Exec(s, events).devices.Keys == s.devices.Keys
    decreases |events|
  {
    if events != [] {
      assert Step(s, events[0]).devices.Keys == s.devices.Keys;
      RunKeepsDevices(Step(s, events[0]), events[1..]);
    }
  }

  /** Two rounds of syncs without local writes: in each, every device completes a sync that it began in it. */
  ghost predicate TwoRounds(s0: State, first: seq<Event>, second: seq<Event>) {
    && Runs(s0, first) && Silent(first) && EveryoneSyncs(s0, first)
    && Runs(Exec(s0, first), second) && Silent(second) && EveryoneSyncs(Exec(s0, first), second)
  }

  function After(s0: State, first: seq<Event>, second: seq<Event>): State
    requires Runs(s0, first) && Runs(Exec(s0, first), second)
  {
    Exec(Exec(s0, first), second)
  }

  lemma ReachableSourced(scope: Scope, ids: set<DeviceId>, events: seq<Event>)
    requires Runs(Start(ids), events) && Safe(scope, Start(ids), events)
    ensures var s := Exec(Start(ids), events);
      Inv(scope, s) && TimesOk(s) && Sourced(scope, s) && s.devices.Keys == ids
  {
    StartInv(scope, ids);
    RunKeepsSourced(scope, Start(ids), events);
    RunKeepsDevices(Start(ids), events);
    assert Start(ids).devices.Keys == ids;
  }

  /**
  Convergence: from any reachable state, when writes have stopped and every device has synced in two
  rounds, each device and the remote hold exactly the records that were held by any device before. When
  no clock went back, `scope` may include the age of rows: then all have the newest fees.
  */
  lemma Converged(
    scope: Scope, ids: set<DeviceId>, events: seq<Event>, first: seq<Event>, second: seq<Event>,
    d: DeviceId, r: Record)
    requires !scope.metadata && In(scope, r) && d in ids
    requires Runs(Start(ids), events) && Safe(scope, Start(ids), events)
    requires TwoRounds(Exec(Start(ids), events), first, second)
    ensures var s0 := Exec(Start(ids), events);
      var s2 := After(s0, first, second);
      && d in s2.devices && s2.remote.history != []
      && (Has(s2.devices[d].db, r) <==> Held(s0, r))
      && (Has(s2.remote.history[|s2.remote.history| - 1], r) <==> Held(s0, r))
  {
    ReachableSourced(scope, ids, events);
    RoundsConverge(scope, Exec(Start(ids), events), first, second, d, r);
  }

  lemma RoundsInventNothing(scope: Scope, s0: State, first: seq<Event>, second: seq<Event>, r: Record)
    requires !scope.metadata && In(scope, r)
    requires Inv(scope, s0) && Sourced(scope, s0) && TwoRounds(s0, first, second)
    ensures Sourced(scope, After(s0, first, second)) && (Held(After(s0, first, second), r) ==> Held(s0, r))
  {
    SilentIsSafe(scope, s0, first);
    SilentRunInventsNothing(scope, s0, first, r);
    RunKeepsInv(scope, s0, first);
    SilentRunInventsNothing(scope, Exec(s0, first), second, r);
  }

  lemma RoundsSpread(
    scope: Scope, s0: State, first: seq<Event>, second: seq<Event>, d: DeviceId, holder: DeviceId)
    requires !scope.metadata && d in s0.devices && holder in s0.devices
    requires Inv(scope, s0) && TimesOk(s0) && TwoRounds(s0, first, second)
    ensures var s2 := After(s0, first, second);
      && d in s2.devices && Covers(scope, s2.devices[d].db, s0.devices[holder].db)
      && LastCovers(scope, s2.remote.history, s0.devices[holder].db)
  {
    SilentIsSafe(scope, s0, first);
    SilentIsSafe(scope, Exec(s0, first), second);
    TwoRoundsSpread(scope, s0, first, second, d, holder);
  }

  lemma RoundsConverge(scope: Scope, s0: State, first: seq<Event>, second: seq<Event>, d: DeviceId, r: Record)
    requires !scope.metadata && In(scope, r) && d in s0.devices
    requires Inv(scope, s0) && TimesOk(s0) && Sourced(scope, s0) && TwoRounds(s0, first, second)
    ensures var s2 := After(s0, first, second);
      && d in s2.devices && s2.remote.history != []
      && (Has(s2.devices[d].db, r) <==> Held(s0, r))
      && (Has(s2.remote.history[|s2.remote.history| - 1], r) <==> Held(s0, r))
  {
    RoundsInventNothing(scope, s0, first, second, r);
    RoundsSpread(scope, s0, first, second, d, d);
    if holder :| holder in s0.devices && Has(s0.devices[holder].db, r) {
      RoundsSpread(scope, s0, first, second, d, holder);
    }
    var s2 := After(s0, first, second);
    assert FromDevices(scope, s2, s2.remote.history[|s2.remote.history| - 1]);
    assert Has(s2.devices[d].db, r) ==> Held(s2, r);
  }

  // ----- Rounds exist

  /** From every state of the invariant a device can, alone, complete a forced sync. */
  lemma CanSync(s: State, d: DeviceId) returns (s': State)
    requires Inv(RECORDS, s) && d in s.devices
    ensures ReachesQuietly(d, s, s') && s'.devices.Keys == s.devices.Keys
    ensures SyncedSince(s'.devices[d], s.clock)
    ensures forall d' :: d' in s.devices && d' != d ==> s'.devices[d'] == s.devices[d']
  {
    ReachesSelf(d, s);
    var s1 := QuietAct(d, s, s, Abort);
    if BaseOf(s1.devices[d].lastVersion) == |s1.remote.history| {
      s' := ForcedPush(s1, d);
    } else {
      assert VersionOk(RECORDS, s.remote.history, s.devices[d].lastVersion, s.devices[d].db);
      var s2 := ConflictAndPull(s1, d);
      var s3 := ImportAndCopy(s2, d, 0);
      s' := FinishMerge(s3, d);
      QuietOn(d, s1, s2, s3);
      QuietOn(d, s1, s3, s');
    }
    QuietOn(d, s, s1, s');
  }

  /** One after another, all devices of `todo` sync. */
  lemma {:induction false} SyncAll(s: State, mid: State, todo: set<DeviceId>) returns (events: seq<Event>)
    requires Inv(RECORDS, mid) && todo <= mid.devices.Keys && mid.clock >= s.clock
    requires forall d :: d in mid.devices && d !in todo ==> SyncedSince(mid.devices[d], s.clock)
    ensures Runs(mid, events) && Silent(events)
    ensures forall d :: d in Exec(mid, events).devices ==> SyncedSince(Exec(mid, events).devices[d], s.clock)
    decreases todo
  {
    if todo == {} {
      events := [];
    } else {
      var d :| d in todo;
      var now := SyncOne(mid, d);
      var later := SyncAll(s, Exec(mid, now), todo - {d});
      RunsAppend(mid, now, later);
      events := now + later;
    }
  }

  lemma SyncOne(s: State, d: DeviceId) returns (events: seq<Event>)
    requires Inv(RECORDS, s) && d in s.devices
    ensures Runs(s, events) && Silent(events) && Inv(RECORDS, Exec(s, events))
    ensures var s' := Exec(s, events);
      && s'.devices.Keys == s.devices.Keys && s'.clock >= s.clock && SyncedSince(s'.devices[d], s.clock)
      && forall d' :: d' in s.devices && d' != d ==> s'.devices[d'] == s.devices[d']
  {
    var s' := CanSync(s, d);
    events :| && Runs(s, events) && Exec(s, events) == s'
              && forall i :: 0 <= i < |events| ==> Quiet(d, events[i]);
    AlwaysSafe(s, events);
    RunKeepsInv(RECORDS, s, events);
    ClockGrows(s, events);
  }

  lemma {:induction false} ClockGrows(s: State, events: seq<Event>)
    requires Runs(s, events)
    ensures Exec(s, events).clock == s.clock + |events|
    decreases |events|
  {
    if events != [] {
      ClockGrows(Step(s, events[0]), events[1..]);
    }
  }

  /** From every reachable state there are two rounds of syncs. */
  lemma RoundsExist(ids: set<DeviceId>, events: seq<Event>) returns (first: seq<Event>, second: seq<Event>)
    requires Runs(Start(ids), events)
    ensures TwoRounds(Exec(Start(ids), events), first, second)
  {
    ReachableInv(ids, events);
    var s0 := Exec(Start(ids), events);
    first := SyncAll(s0, s0, s0.devices.Keys);
    AlwaysSafe(s0, first);
    RunKeepsInv(RECORDS, s0, first);
    var s1 := Exec(s0, first);
    second := SyncAll(s1, s1, s1.devices.Keys);
  }
}
