/** The safety theorems over whole runs, and the runs that show where each condition is needed. */
module BackupRuns {
  import opened Options
  import opened SyncTables
  import opened BackupProtocol
  import opened BackupSafety
  import opened BackupAcknowledged
  import opened BackupEverywhere

  // ----- Runs

  /** A run can be extended by any event that its last state enables. */
  lemma {:induction false} RunsExtend(s: State, events: seq<Event>, e: Event)
    requires Runs(s, events) && Enabled(Exec(s, events), e)
    ensures Runs(s, events + [e]) && Exec(s, events + [e]) == Step(Exec(s, events), e)
    decreases |events|
  {
    if events != [] {
      RunsExtend(Step(s, events[0]), events[1..], e);
      assert (events + [e])[1..] == events[1..] + [e];
    } else {
      assert [e][1..] == [];
    }
  }

  lemma {:induction false} RunsAppend(s: State, events: seq<Event>, more: seq<Event>)
    requires Runs(s, events) && Runs(Exec(s, events), more)
    ensures Runs(s, events + more) && Exec(s, events + more) == Exec(Exec(s, events), more)
    decreases |events|
  {
    if events != [] {
      RunsAppend(Step(s, events[0]), events[1..], more);
      assert (events + more)[1..] == events[1..] + more;
    } else {
      assert events + more == more;
    }
  }

  lemma {:induction false} RunsPrefix(s: State, before: seq<Event>, e: Event)
    requires Runs(s, before + [e])
    ensures Runs(s, before) && Enabled(Exec(s, before), e) && Exec(s, before + [e]) == Step(Exec(s, before), e)
    decreases |before|
  {
    if before != [] {
      assert (before + [e])[1..] == before[1..] + [e];
      RunsPrefix(Step(s, before[0]), before[1..], e);
    } else {
      assert before + [e] == [e];
    }
  }

  /** Every event of the run meets the guards of the scope. */
  ghost predicate Safe(scope: Scope, s: State, events: seq<Event>)
    requires Runs(s, events)
    decreases |events|
  {
    events == [] || (Safe1(scope, s, events[0]) && Safe(scope, Step(s, events[0]), events[1..]))
  }

  /** Without metadata and ages there is nothing to guard. */
  lemma {:induction false} AlwaysSafe(s: State, events: seq<Event>)
    requires Runs(s, events)
    ensures Safe(RECORDS, s, events)
    decreases |events|
  {
    if events != [] {
      AlwaysSafe(Step(s, events[0]), events[1..]);
    }
  }

  /**
  No triggering write of the run falls between the copy of the local data and the next read of the
  request id, and the guards of the scope are met; with metadata in scope, also those of the copies.
  */
  ghost predicate Acked(scope: Scope, s: State, events: seq<Event>)
    requires Runs(s, events)
    decreases |events|
  {
    events == [] || (Acked1(scope, s, events[0]) && Acked(scope, Step(s, events[0]), events[1..]))
  }

  lemma StartInv(scope: Scope, ids: set<DeviceId>)
    ensures Inv(scope, Start(ids)) && AckInv(scope, Start(ids))
  {
  }

  lemma {:induction false} RunKeepsInv(scope: Scope, s: State, events: seq<Event>)
    requires Inv(scope, s) && Runs(s, events) && Safe(scope, s, events)
    ensures Inv(scope, Exec(s, events))
    decreases |events|
  {
    if events != [] {
      StepKeepsInv(scope, s, events[0]);
      RunKeepsInv(scope, Step(s, events[0]), events[1..]);
    }
  }

  lemma {:induction false} RunKeepsAck(scope: Scope, s: State, events: seq<Event>)
    requires Inv(scope, s) && AckInv(scope, s) && Runs(s, events) && Acked(scope, s, events)
    ensures AckInv(scope, Exec(s, events))
    decreases |events|
  {
    if events != [] {
      StepKeepsInv(scope, s, events[0]);
      StepKeepsAck(scope, s, events[0]);
      RunKeepsAck(scope, Step(s, events[0]), events[1..]);
    }
  }

  lemma ReachableInv(ids: set<DeviceId>, events: seq<Event>)
    requires Runs(Start(ids), events)
    ensures Inv(RECORDS, Exec(Start(ids), events))
  {
    StartInv(RECORDS, ids);
    AlwaysSafe(Start(ids), events);
    RunKeepsInv(RECORDS, Start(ids), events);
  }

  // ----- Theorems

  /** In every run no later generation lacks a record of an earlier one, payment metadata aside. */
  lemma NoLostUpdates(ids: set<DeviceId>, events: seq<Event>, i: nat, j: nat, r: Record)
    requires Runs(Start(ids), events)
    requires i <= j < |Exec(Start(ids), events).remote.history|
    requires In(RECORDS, r) && Has(Exec(Start(ids), events).remote.history[i], r)
    ensures Has(Exec(Start(ids), events).remote.history[j], r)
  {
    ReachableInv(ids, events);
    var h := Exec(Start(ids), events).remote.history;
    assert Covers(RECORDS, h[j], h[i]);
  }

  /**
  The same for payment metadata, in every run whose imports find the pulled keys present, and for the age
  of timestamped rows, in every run in which no clock goes back.
  */
  lemma NothingLostWhenSafe(scope: Scope, ids: set<DeviceId>, events: seq<Event>, i: nat, j: nat, r: Record)
    requires Runs(Start(ids), events) && Safe(scope, Start(ids), events)
    requires i <= j < |Exec(Start(ids), events).remote.history|
    requires In(scope, r) && Has(Exec(Start(ids), events).remote.history[i], r)
    ensures Has(Exec(Start(ids), events).remote.history[j], r)
  {
    StartInv(scope, ids);
    RunKeepsInv(scope, Start(ids), events);
    var h := Exec(Start(ids), events).remote.history;
    assert Covers(scope, h[j], h[i]);
  }

  lemma FeeFollowsSwap(ids: set<DeviceId>, events: seq<Event>, d: DeviceId, k: Key)
    requires Runs(Start(ids), events) && d in Exec(Start(ids), events).devices
    ensures var s := Exec(Start(ids), events);
      && (Has(s.devices[d].db, FeeRec(k, 0)) <==> Has(s.devices[d].db, SwapRec(k)))
      && (InRemote(s.remote.history, FeeRec(k, 0)) <==> InRemote(s.remote.history, SwapRec(k)))
  {
    SwapsHaveFees(ids, events);
    var s := Exec(Start(ids), events);
    assert Paired(s.devices[d].db);
    assert s.remote.history != [] ==> Paired(s.remote.history[|s.remote.history| - 1]);
  }

  /** What the acknowledgement is about: not reverse swaps, and of fees only that there is one. */
  predicate Acknowledged(scope: Scope, r: Record) {
    In(scope, r) && !r.ReverseRec? && (r.FeeRec? ==> r.since == 0)
  }

  /**
  A device that reports itself backed up has every acknowledged record in the remote. Payment metadata
  counts when the guards of the scope were met, and then with its age: the remote has no older row.
  */
  lemma BackedUpMeansInRemote(scope: Scope, ids: set<DeviceId>, events: seq<Event>, d: DeviceId, r: Record)
    requires Runs(Start(ids), events) && Acked(scope, Start(ids), events)
    requires var s := Exec(Start(ids), events); d in s.devices && BackedUp(s.devices[d])
    requires Acknowledged(scope, r) && Has(Exec(Start(ids), events).devices[d].db, r)
    ensures InRemote(Exec(Start(ids), events).remote.history, r)
  {
    StartInv(scope, ids);
    RunKeepsAck(scope, Start(ids), events);
    if r.FeeRec? {
      FeeFollowsSwap(ids, events, d, r.key);
      assert Triggered(scope, SwapRec(r.key));
    } else {
      assert Triggered(scope, r);
    }
  }

  /** When `sync` is about to delete requests, every acknowledged record they announced is in the remote. */
  lemma DeletedRequestsWerePushed(scope: Scope, ids: set<DeviceId>, events: seq<Event>, d: DeviceId, r: Record)
    requires Runs(Start(ids), events) && Acked(scope, Start(ids), events)
    requires var s := Exec(Start(ids), events); d in s.devices && s.devices[d].phase.Stored?
    requires Acknowledged(scope, r) && Has(Exec(Start(ids), events).devices[d].db, r)
    requires var dev := Exec(Start(ids), events).devices[d]; AnnouncedBy(dev, r, dev.phase.id)
    ensures InRemote(Exec(Start(ids), events).remote.history, r)
  {
    StartInv(scope, ids);
    RunKeepsAck(scope, Start(ids), events);
    if r.FeeRec? {
      FeeFollowsSwap(ids, events, d, r.key);
      assert Triggered(scope, SwapRec(r.key)) && Announcer(SwapRec(r.key)) == Announcer(r);
    } else {
      assert Triggered(scope, r);
    }
  }

  // ----- Necessity of the conditions

  /** Device `d` works alone: nobody writes and no other device acts. */
  predicate Quiet(d: DeviceId, e: Event) {
    e.Deliver? || (e.device == d && !e.action.LocalWrite?)
  }

  ghost predicate Reaches(s: State, s': State) {
    exists events :: Runs(s, events) && Exec(s, events) == s'
  }

  ghost predicate ReachesQuietly(d: DeviceId, s: State, s': State) {
    exists events :: Runs(s, events) && Exec(s, events) == s' && forall i :: 0 <= i < |events| ==> Quiet(d, events[i])
  }

  lemma ReachesSelf(d: DeviceId, s: State)
    ensures Reaches(s, s) && ReachesQuietly(d, s, s)
  {
    assert Runs(s, []) && Exec(s, []) == s;
  }

  lemma ReachesStep(s: State, mid: State, e: Event)
    requires Reaches(s, mid) && Enabled(mid, e)
    ensures Reaches(s, Step(mid, e))
  {
    var events :| Runs(s, events) && Exec(s, events) == mid;
    RunsExtend(s, events, e);
  }

  /** One more event of a quiet run. */
  lemma QuietStep(d: DeviceId, s: State, mid: State, e: Event)
    requires ReachesQuietly(d, s, mid) && Enabled(mid, e) && Quiet(d, e)
    ensures ReachesQuietly(d, s, Step(mid, e))
  {
    var events :| Runs(s, events) && Exec(s, events) == mid && forall i :: 0 <= i < |events| ==> Quiet(d, events[i]);
    RunsExtend(s, events, e);
    assert forall i :: 0 <= i < |events + [e]| ==> Quiet(d, (events + [e])[i]);
  }

  lemma QuietAct(d: DeviceId, s: State, mid: State, a: Action) returns (s': State)
    requires ReachesQuietly(d, s, mid) && d in mid.devices && Ready(mid.remote, mid.devices[d], a) && !a.LocalWrite?
    ensures ReachesQuietly(d, s, s')
    ensures s'.devices == mid.devices[d := Advance(mid.remote, mid.clock, mid.devices[d], a)]
    ensures s'.remote == mid.remote.(sent := mid.remote.sent + Outgoing(mid.devices[d], a))
    ensures s'.clock == mid.clock + 1
  {
    QuietStep(d, s, mid, Act(d, a));
    s' := Step(mid, Act(d, a));
  }

  lemma QuietDeliver(d: DeviceId, s: State, mid: State, msg: nat) returns (s': State)
    requires ReachesQuietly(d, s, mid) && msg < |mid.remote.sent|
    ensures ReachesQuietly(d, s, s') && s'.devices == mid.devices && s'.remote == Apply(mid.remote, msg)
  {
    QuietStep(d, s, mid, Deliver(msg));
    s' := Step(mid, Deliver(msg));
  }

  lemma ReachesOn(d: DeviceId, s: State, mid: State, s': State)
    requires Reaches(s, mid) && ReachesQuietly(d, mid, s')
    ensures Reaches(s, s')
  {
    var events :| Runs(s, events) && Exec(s, events) == mid;
    var more :| Runs(mid, more) && Exec(mid, more) == s';
    RunsAppend(s, events, more);
  }

  lemma QuietOn(d: DeviceId, s: State, mid: State, s': State)
    requires ReachesQuietly(d, s, mid) && ReachesQuietly(d, mid, s')
    ensures ReachesQuietly(d, s, s')
  {
    var events :| Runs(s, events) && Exec(s, events) == mid && forall i :: 0 <= i < |events| ==> Quiet(d, events[i]);
    var more :| Runs(mid, more) && Exec(mid, more) == s' && forall i :: 0 <= i < |more| ==> Quiet(d, more[i]);
    RunsAppend(s, events, more);
    assert forall i :: 0 <= i < |events + more| ==> Quiet(d, (events + more)[i]);
  }

  /** A push that meets its base is applied and acknowledged, and the worker stores its outcome. */
  lemma FinishPush(s: State, d: DeviceId) returns (s': State)
    requires d in s.devices && s.devices[d].phase.Pushing?
    requires s.devices[d].phase.msg < |s.remote.sent|
    requires var m := s.remote.sent[s.devices[d].phase.msg];
      m.base == |s.remote.history| && m.data == s.devices[d].phase.data
    ensures ReachesQuietly(d, s, s') && s'.devices.Keys == s.devices.Keys
    ensures s'.remote.history == s.remote.history + [s.devices[d].phase.data]
    ensures var dev := s.devices[d];
      s'.devices[d] == dev.(
        requests := (set i | i in dev.requests && i > dev.phase.id),
        lastVersion := Some(|s.remote.history| + 1), phase := Idle, completed := Some(dev.began))
    ensures forall d' :: d' in s.devices && d' != d ==> s'.devices[d'] == s.devices[d']
  {
    ReachesSelf(d, s);
    s' := QuietDeliver(d, s, s, s.devices[d].phase.msg);
    s' := QuietAct(d, s, s', PushSucceeded);
    s' := QuietAct(d, s, s', StoreVersion);
    s' := QuietAct(d, s, s', DeleteRequests);
  }

  /** From `Copied` the worker reads the last request and sends its copy. */
  lemma SendMerge(s: State, d: DeviceId) returns (s': State)
    requires d in s.devices && s.devices[d].phase.Copied?
    ensures ReachesQuietly(d, s, s')
    ensures var dev := s.devices[d];
      && s'.remote == s.remote.(sent := s.remote.sent + [Push(dev.phase.generation, dev.phase.data, true)])
      && s'.devices == s.devices[d := dev.(
           phase := Pushing(LastRequest(dev.requests), |s.remote.sent|, dev.phase.data, true))]
  {
    ReachesSelf(d, s);
    s' := QuietAct(d, s, s, ReadRequest);
    s' := QuietAct(d, s, s', PushMerged);
  }

  /** From `Copied`, with nobody else pushing, the worker finishes its sync and forgets all requests. */
  lemma FinishMerge(s: State, d: DeviceId) returns (s': State)
    requires d in s.devices && s.devices[d].phase.Copied?
    requires s.devices[d].phase.generation == |s.remote.history|
    ensures ReachesQuietly(d, s, s') && s'.devices.Keys == s.devices.Keys
    ensures s'.remote.history == s.remote.history + [s.devices[d].phase.data]
    ensures s'.devices[d].db == s.devices[d].db && s'.devices[d].requests == {} && s'.devices[d].phase.Idle?
    ensures s'.devices[d].lastVersion == Some(|s.remote.history| + 1)
    ensures s'.devices[d].completed == Some(s.devices[d].began)
    ensures forall d' :: d' in s.devices && d' != d ==> s'.devices[d'] == s.devices[d']
  {
    var s1 := SendMerge(s, d);
    s' := FinishPush(s1, d);
    QuietOn(d, s, s1, s');
    assert s'.devices[d].requests == {};
  }

  /**
  If a record was written after the copy and before the id is read, the worker can go on, alone, to a
  state that reports everything backed up while the record is not in the remote.
  */
  lemma WindowWriteIsForgotten(s: State, d: DeviceId, r: Record) returns (s': State)
    requires d in s.devices && s.devices[d].phase.Copied?
    requires s.devices[d].phase.generation == |s.remote.history|
    requires Has(s.devices[d].db, r) && !Has(s.devices[d].phase.data, r)
    ensures ReachesQuietly(d, s, s') && d in s'.devices && BackedUp(s'.devices[d])
    ensures Has(s'.devices[d].db, r) && !InRemote(s'.remote.history, r)
  {
    s' := FinishMerge(s, d);
  }

  /**
  Exactly when the report of a merging sync that nobody disturbs is right: when the copy it sends already
  has every record that the device holds as it reads the request id.
  */
  lemma ReportIsRightIff(s: State, d: DeviceId) returns (s': State)
    requires d in s.devices && s.devices[d].phase.Copied?
    requires s.devices[d].phase.generation == |s.remote.history|
    ensures ReachesQuietly(d, s, s') && d in s'.devices && BackedUp(s'.devices[d])
    ensures (forall r :: Has(s'.devices[d].db, r) ==> InRemote(s'.remote.history, r)) <==>
      (forall r :: Has(s.devices[d].db, r) ==> Has(s.devices[d].phase.data, r))
  {
    s' := FinishMerge(s, d);
    assert forall r :: InRemote(s'.remote.history, r) <==> Has(s.devices[d].phase.data, r);
  }

  /** A device at rest takes a snapshot and sends it with its stored version. */
  lemma SendSnapshot(s: State, d: DeviceId) returns (s': State)
    requires d in s.devices && s.devices[d].phase.Idle?
    ensures ReachesQuietly(d, s, s') && s'.devices.Keys == s.devices.Keys
    ensures var dev := s.devices[d];
      s'.remote == s.remote.(sent := s.remote.sent + [Push(BaseOf(dev.lastVersion), dev.db, false)])
    ensures s'.devices[d].phase == Pushing(LastRequest(s.devices[d].requests), |s.remote.sent|, s.devices[d].db, false)
    ensures s'.devices[d] == s.devices[d].(phase := s'.devices[d].phase, began := s.clock)
    ensures forall d' :: d' in s.devices && d' != d ==> s'.devices[d'] == s.devices[d']
  {
    ReachesSelf(d, s);
    s' := QuietAct(d, s, s, Begin(true));
    s' := QuietAct(d, s, s', ReadVersion);
    s' := QuietAct(d, s, s', PushSnapshot);
  }

  /** A device at rest, whose version is current, replaces the remote by its own copy. */
  lemma ForcedPush(s: State, d: DeviceId) returns (s': State)
    requires d in s.devices && s.devices[d].phase.Idle?
    requires BaseOf(s.devices[d].lastVersion) == |s.remote.history|
    ensures ReachesQuietly(d, s, s') && s'.devices.Keys == s.devices.Keys
    ensures s'.remote.history == s.remote.history + [s.devices[d].db]
    ensures s'.devices[d].db == s.devices[d].db && s'.devices[d].phase.Idle?
    ensures s'.devices[d].completed == Some(s.clock) && BackedUp(s'.devices[d])
    ensures forall d' :: d' in s.devices && d' != d ==> s'.devices[d'] == s.devices[d']
  {
    var s1 := SendSnapshot(s, d);
    s' := FinishPush(s1, d);
    QuietOn(d, s, s1, s');
  }

  /**
  If the import guard fails, the worker can go on, alone, to a remote that has lost the metadata row:
  the import skips it, and the next push of the device overwrites the blob that held it.
  */
  lemma UnsafeImportLosesMetadata(s: State, d: DeviceId, k: Key, fired: nat) returns (s': State)
    requires d in s.devices && s.devices[d].phase.Pulled?
    requires Current(s.remote.history, |s.remote.history|, s.devices[d].phase.remote)
    requires s.devices[d].phase.generation == |s.remote.history|
    requires k in s.devices[d].phase.remote.metadata && k !in s.devices[d].db.metadata
    ensures ReachesQuietly(d, s, s') && s.remote.history <= s'.remote.history
    ensures s'.remote.history != [] && k !in s'.remote.history[|s'.remote.history| - 1].metadata
    ensures s'.devices.Keys == s.devices.Keys
    ensures forall d' :: d' in s.devices && d' != d ==> s'.devices[d'] == s.devices[d']
  {
    var s1 := ImportAndCopy(s, d, fired);
    assert k !in s1.devices[d].db.metadata;
    var s2 := FinishMerge(s1, d);
    s' := ForcedPush(s2, d);
    QuietOn(d, s, s1, s2);
    QuietOn(d, s, s2, s');
  }

  lemma ImportAndCopy(s: State, d: DeviceId, n: nat) returns (s': State)
    requires d in s.devices && s.devices[d].phase.Pulled?
    ensures ReachesQuietly(d, s, s') && s'.devices.Keys == s.devices.Keys && s'.remote == s.remote
    ensures s'.devices[d].db == ImportRemoteChanges(s.devices[d].db, s.devices[d].phase.remote)
    ensures s'.devices[d].phase.Copied? && s'.devices[d].phase.generation == s.devices[d].phase.generation
    ensures s'.devices[d].phase.data == ImportRemoteChanges(s.devices[d].phase.remote, s'.devices[d].db)
    ensures s'.devices[d].began == s.devices[d].began
    ensures forall d' :: d' in s.devices && d' != d ==> s'.devices[d'] == s.devices[d']
  {
    ReachesSelf(d, s);
    s' := QuietAct(d, s, s, ImportRemote(n));
    s' := QuietAct(d, s, s', CopyLocal);
  }

  /** What the pushed copy of a merge has of the device's records. */
  lemma MergedCopyIff(local: SyncDb, pulled: SyncDb, merged: SyncDb, copy: SyncDb)
    requires (merged, copy) == SyncBothWays(local, pulled)
    ensures merged.metadata.Keys == local.metadata.Keys && copy.metadata.Keys == pulled.metadata.Keys
    ensures (forall r :: Has(merged, r) && In(Scope(true, false), r) ==> Has(copy, r)) <==>
      local.metadata.Keys <= pulled.metadata.Keys
  {
    if k :| k in local.metadata && k !in pulled.metadata {
      assert Has(merged, MetadataRec(k, 0)) && In(Scope(true, false), MetadataRec(k, 0));
    } else {
      forall r | Has(merged, r) && In(Scope(true, false), r) ensures Has(copy, r) {
        CopyHas(merged, pulled, r);
      }
    }
  }

  lemma CopyHas(merged: SyncDb, pulled: SyncDb, r: Record)
    requires Has(merged, r) && In(Scope(true, false), r) && merged.metadata.Keys <= pulled.metadata.Keys
    ensures Has(ImportRemoteChanges(pulled, merged), r)
  {
    if !r.MetadataRec? {
      ImportIsUnion(pulled, merged, r);
    }
  }

  /**
  Exactly when the report of a whole merge that nobody disturbs is right about the records: when the
  pulled copy had every metadata key of the device. The keys it lacked are reported and not in the remote.
  */
  lemma MergeReportIsRightIff(s: State, d: DeviceId, fired: nat) returns (s': State)
    requires d in s.devices && s.devices[d].phase.Pulled?
    requires s.devices[d].phase.generation == |s.remote.history|
    ensures ReachesQuietly(d, s, s') && d in s'.devices && BackedUp(s'.devices[d])
    ensures s'.devices[d].db.metadata.Keys == s.devices[d].db.metadata.Keys
    ensures forall k :: k in s.devices[d].db.metadata ==>
      (InRemote(s'.remote.history, MetadataRec(k, 0)) <==> k in s.devices[d].phase.remote.metadata)
    ensures (forall r :: Has(s'.devices[d].db, r) && In(Scope(true, false), r) ==> InRemote(s'.remote.history, r)) <==>
      s.devices[d].db.metadata.Keys <= s.devices[d].phase.remote.metadata.Keys
  {
    var s1 := ImportAndCopy(s, d, fired);
    s' := FinishMerge(s1, d);
    QuietOn(d, s, s1, s');
    var copy := s1.devices[d].phase.data;
    MergedCopyIff(s.devices[d].db, s.devices[d].phase.remote, s'.devices[d].db, copy);
    assert forall r :: InRemote(s'.remote.history, r) <==> Has(copy, r);
  }

  // ----- Concrete runs

  /** A device at rest with a stale version meets a conflict and pulls the current blob. */
  lemma ConflictAndPull(s: State, d: DeviceId) returns (s': State)
    requires d in s.devices && s.devices[d].phase.Idle? && s.remote.history != []
    requires BaseOf(s.devices[d].lastVersion) != |s.remote.history|
    ensures ReachesQuietly(d, s, s') && s'.devices.Keys == s.devices.Keys && s'.remote.history == s.remote.history
    ensures s'.devices[d] == s.devices[d].(phase := s'.devices[d].phase, began := s.clock)
    ensures forall d' :: d' in s.devices && d' != d ==> s'.devices[d'] == s.devices[d']
    ensures s'.devices[d].phase == Pulled(|s.remote.history|, s.remote.history[|s.remote.history| - 1])
  {
    var n := |s.remote.sent|;
    var s1 := SendSnapshot(s, d);
    s' := QuietDeliver(d, s, s1, n);
    assert s'.remote == s1.remote;
    s' := QuietAct(d, s, s', PushFailed);
    s' := QuietAct(d, s, s', PullState);
  }

  /** Device 0 writes and pushes; device 1 is left at `Pulled` with an empty database. */
  lemma OneWriterRun(w: Write) returns (s': State)
    requires WriteEnabled(EMPTY_DB, w)
    ensures Reaches(Start({0, 1}), s') && s'.devices.Keys == {0, 1}
    ensures s'.remote.history == [ApplyWrite(EMPTY_DB, w)]
    ensures s'.devices[0].db == ApplyWrite(EMPTY_DB, w) && BackedUp(s'.devices[0])
    ensures s'.devices[1].db == EMPTY_DB && s'.devices[1].phase == Pulled(1, ApplyWrite(EMPTY_DB, w))
  {
    var s := Start({0, 1});
    assert s.devices.Keys == {0, 1};
    var s1 := Step(s, Act(0, LocalWrite(w)));
    ReachesSelf(0, s);
    ReachesStep(s, s, Act(0, LocalWrite(w)));
    var s2 := ForcedPush(s1, 0);
    ReachesOn(0, s, s1, s2);
    s' := ConflictAndPull(s2, 1);
    ReachesOn(1, s, s2, s');
  }

  /**
  Payment metadata can disappear from the remote, while the device that wrote it reports itself backed
  up: two devices, one write.
  */
  lemma MetadataCanBeLost() returns (s': State, k: Key)
    ensures Reaches(Start({0, 1}), s') && |s'.remote.history| > 0
    ensures k in s'.remote.history[0].metadata && k !in s'.remote.history[|s'.remote.history| - 1].metadata
    ensures 0 in s'.devices && k in s'.devices[0].db.metadata && BackedUp(s'.devices[0])
  {
    k := "p";
    var w := PutMetadata(k, Stamped(1, "note"));
    var s := OneWriterRun(w);
    var written := ApplyWrite(EMPTY_DB, w);
    assert k in written.metadata && k !in EMPTY_DB.metadata;
    s' := UnsafeImportLosesMetadata(s, 1, k, 0);
    ReachesOn(1, Start({0, 1}), s, s');
  }

  /** A device that merges a copy without its metadata row reports the row backed up: two writes in all. */
  lemma UnmergedMetadataIsForgotten() returns (s': State, k: Key)
    ensures Reaches(Start({0, 1}), s') && 1 in s'.devices && BackedUp(s'.devices[1])
    ensures k in s'.devices[1].db.metadata && !InRemote(s'.remote.history, MetadataRec(k, 0))
  {
    k := "p";
    var start, w := Start({0, 1}), InsertSwap("a", "row", Stamped(1, "fee"));
    var s := OneWriterRun(w);
    assert k !in ApplyWrite(EMPTY_DB, w).metadata;
    var late := Act(1, LocalWrite(PutMetadata(k, Stamped(1, "note"))));
    ReachesStep(start, s, late);
    var s1 := Step(s, late);
    s' := MergeReportIsRightIff(s1, 1, 0);
    ReachesOn(1, start, s1, s');
  }

  /** A new fee of a stored swap makes no request: the status says backed up with an older fee in the remote. */
  lemma FeeUpdateIsNotReported() returns (s': State, k: Key, t: nat)
    ensures Reaches(Start({0, 1}), s') && 0 in s'.devices && BackedUp(s'.devices[0])
    ensures Has(s'.devices[0].db, FeeRec(k, t)) && InRemote(s'.remote.history, FeeRec(k, 0))
    ensures !InRemote(s'.remote.history, FeeRec(k, t))
  {
    k, t := "a", 2;
    var w := InsertSwap(k, "row", Stamped(1, "fee"));
    var s := OneWriterRun(w);
    assert ApplyWrite(EMPTY_DB, w).fees[k].at == 1 && k in ApplyWrite(EMPTY_DB, w).swaps;
    var e := Act(0, LocalWrite(PutFee(k, Stamped(t, "new fee"))));
    ReachesStep(Start({0, 1}), s, e);
    s' := Step(s, e);
  }

  /** A swap that is created inside the window is forgotten in this way. */
  lemma LateSwapIsForgotten(s: State, d: DeviceId, w: Write) returns (s': State)
    requires d in s.devices && s.devices[d].phase.Copied?
    requires s.devices[d].phase.generation == |s.remote.history|
    requires w.InsertSwap? && w.key !in s.devices[d].db.swaps && w.key !in s.devices[d].phase.data.swaps
    ensures Reaches(s, s') && d in s'.devices && BackedUp(s'.devices[d])
    ensures Has(s'.devices[d].db, SwapRec(w.key)) && !InRemote(s'.remote.history, SwapRec(w.key))
  {
    var late := Act(d, LocalWrite(w));
    var s1 := Step(s, late);
    ReachesSelf(d, s);
    ReachesStep(s, s, late);
    s' := WindowWriteIsForgotten(s1, d, SwapRec(w.key));
    ReachesOn(d, s, s1, s');
  }

  lemma ReachesTrans(s: State, mid: State, s': State)
    requires Reaches(s, mid) && Reaches(mid, s')
    ensures Reaches(s, s')
  {
    var events :| Runs(s, events) && Exec(s, events) == mid;
    var more :| Runs(mid, more) && Exec(mid, more) == s';
    RunsAppend(s, events, more);
  }

  /** A swap written inside the window can be reported as backed up while the remote lacks it. */
  lemma BackedUpCanBeWrong() returns (s': State, r: Record)
    ensures Reaches(Start({0, 1}), s') && 1 in s'.devices && BackedUp(s'.devices[1])
    ensures Triggered(RECORDS, r) && Has(s'.devices[1].db, r) && !InRemote(s'.remote.history, r)
  {
    var start := Start({0, 1});
    var s := OneWriterRun(InsertSwap("a", "row", Stamped(1, "fee")));
    var s1 := ImportAndCopy(s, 1, 1);
    ReachesOn(1, start, s, s1);
    var w := InsertSwap("b", "row", Stamped(2, "fee"));
    s' := LateSwapIsForgotten(s1, 1, w);
    ReachesTrans(start, s1, s');
    r := SwapRec("b");
  }
}
