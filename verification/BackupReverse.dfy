/**
Reverse swaps are stored without a sync request. What the backup status says about them, and when they
are in the remote all the same.
*/
module BackupReverse {
  import opened Options
  import opened SyncTables
  import opened BackupProtocol
  import opened BackupSafety
  import opened BackupAcknowledged
  import opened BackupEverywhere
  import opened BackupRuns
  import opened BackupConvergence

  /** Creating a reverse swap changes neither the status nor whether a sync that is not forced would start. */
  lemma InsertAsksForNothing(remote: Remote, dev: Device, k: Key, row: Row)
    ensures var dev' := AfterWrite(dev, InsertReverse(k, row));
      && Has(dev'.db, ReverseRec(k)) && dev'.phase == dev.phase
      && (BackedUp(dev') <==> BackedUp(dev)) && (BackedUp(dev') ==> !Ready(remote, dev', Begin(false)))
  {
  }

  /** One device, one write: the status says backed up and the remote is empty. */
  lemma ReverseSwapIsNotReported() returns (s': State, k: Key)
    ensures Reaches(Start({0}), s') && 0 in s'.devices && BackedUp(s'.devices[0])
    ensures Has(s'.devices[0].db, ReverseRec(k)) && s'.remote.history == []
  {
    k := "r";
    var start := Start({0});
    ReachesSelf(0, start);
    ReachesStep(start, start, Act(0, LocalWrite(InsertReverse(k, "row"))));
    s' := Step(start, Act(0, LocalWrite(InsertReverse(k, "row"))));
  }

  // ----- Once its device has synced

  /** Whatever a device held is in the remote once a sync that it began since then has completed. */
  lemma InRemoteOnceSynced(ids: set<DeviceId>, events: seq<Event>, more: seq<Event>, d: DeviceId, r: Record)
    requires Runs(Start(ids), events) && Runs(Exec(Start(ids), events), more)
    requires In(RECORDS, r) && d in Exec(Start(ids), events).devices
    requires Has(Exec(Start(ids), events).devices[d].db, r)
    requires var s := Exec(Exec(Start(ids), events), more);
      d in s.devices && SyncedSince(s.devices[d], Exec(Start(ids), events).clock)
    ensures InRemote(Exec(Exec(Start(ids), events), more).remote.history, r)
  {
    AlwaysSafe(Start(ids), events);
    ReachableSourced(RECORDS, ids, events);
    var s0 := Exec(Start(ids), events);
    AlwaysSafe(s0, more);
    SyncedMeansUploaded(RECORDS, s0, more, d);
  }

  // ----- Before its device has copied it

  predicate Lacks(k: Key, db: SyncDb) {
    k !in db.reverseSwaps
  }

  /** Nothing but the database of device `d` has the reverse swap. */
  ghost predicate OnlyOn(d: DeviceId, k: Key, s: State) {
    && (forall d' :: d' in s.devices ==>
          PhaseHolds(db => Lacks(k, db), s.devices[d'].phase) && (d' != d ==> Lacks(k, s.devices[d'].db)))
    && (forall i :: 0 <= i < |s.remote.history| ==> Lacks(k, s.remote.history[i]))
    && (forall i :: 0 <= i < |s.remote.sent| ==> Lacks(k, s.remote.sent[i].data))
  }

  /** The event neither copies the data of device `d` nor creates the reverse swap elsewhere. */
  predicate LeavesAlone(d: DeviceId, k: Key, e: Event) {
    e.Act? ==>
      && (e.device == d ==> !e.action.PushSnapshot? && !e.action.CopyLocal?)
      && (e.device != d ==> !Creates(e, k))
  }

  /** A device that does not copy its data puts the reverse swap into no phase and no message. */
  lemma AdvanceCopiesNothing(p: Property, remote: Remote, clock: nat, dev: Device, a: Action)
    requires Ready(remote, dev, a) && !a.PushSnapshot? && !a.CopyLocal? && PhaseHolds(p, dev.phase)
    requires forall i :: 0 <= i < |remote.history| ==> p(remote.history[i])
    ensures PhaseHolds(p, Advance(remote, clock, dev, a).phase)
    ensures forall m :: m in Outgoing(dev, a) ==> p(m.data)
  {
  }

  predicate Creates(e: Event, k: Key) {
    e.Act? && e.action.LocalWrite? && e.action.write.InsertReverse? && e.action.write.key == k
  }

  lemma LackIsKept(k: Key, e: Event)
    requires !Creates(e, k)
    ensures KeptByImports(db => Lacks(k, db)) && KeptByWrite(db => Lacks(k, db), e)
  {
  }

  lemma StepLeavesAlone(d: DeviceId, k: Key, s: State, e: Event)
    requires OnlyOn(d, k, s) && Enabled(s, e) && LeavesAlone(d, k, e)
    ensures OnlyOn(d, k, Step(s, e))
  {
    var p: Property := db => Lacks(k, db);
    if e.Act? && e.device == d {
      AdvanceCopiesNothing(p, s.remote, s.clock, s.devices[d], e.action);
    } else if e.Act? {
      LackIsKept(k, e);
      AdvanceHolds(p, s.remote, s.clock, e.device, s.devices[e.device], e.action);
    }
  }

  /** A reverse swap that only its device has stays out of the remote until that device copies its data. */
  lemma {:induction false} NotInRemoteUncopied(d: DeviceId, k: Key, s: State, events: seq<Event>)
    requires OnlyOn(d, k, s) && Runs(s, events)
    requires forall i :: 0 <= i < |events| ==> LeavesAlone(d, k, events[i])
    ensures OnlyOn(d, k, Exec(s, events)) && !InRemote(Exec(s, events).remote.history, ReverseRec(k))
    decreases |events|
  {
    if events != [] {
      StepLeavesAlone(d, k, s, events[0]);
      assert forall i :: 0 <= i < |events[1..]| ==> events[1..][i] == events[i + 1];
      NotInRemoteUncopied(d, k, Step(s, events[0]), events[1..]);
    }
  }

  lemma {:induction false} LackedEverywhere(ids: set<DeviceId>, events: seq<Event>, k: Key)
    requires Runs(Start(ids), events) && forall i :: 0 <= i < |events| ==> !Creates(events[i], k)
    ensures Everywhere(db => Lacks(k, db), Exec(Start(ids), events))
  {
    var p: Property := db => Lacks(k, db);
    StartHolds(p, ids);
    forall i | 0 <= i < |events| ensures KeptByWrite(p, events[i]) {
      LackIsKept(k, events[i]);
    }
    LackIsKept(k, Deliver(0));
    RunHolds(p, Start(ids), events);
  }

  /** A reverse swap that has just been created under a new id is on its device only. */
  lemma NewReverseSwap(ids: set<DeviceId>, events: seq<Event>, d: DeviceId, k: Key, row: Row)
    requires Runs(Start(ids), events) && d in Exec(Start(ids), events).devices
    requires forall i :: 0 <= i < |events| ==> !Creates(events[i], k)
    ensures var s, e := Exec(Start(ids), events), Act(d, LocalWrite(InsertReverse(k, row)));
      Enabled(s, e) && OnlyOn(d, k, Step(s, e))
  {
    LackedEverywhere(ids, events, k);
    Created(Exec(Start(ids), events), d, k, row);
  }

  lemma Created(s: State, d: DeviceId, k: Key, row: Row)
    requires d in s.devices && Everywhere(db => Lacks(k, db), s)
    ensures var e := Act(d, LocalWrite(InsertReverse(k, row))); Enabled(s, e) && OnlyOn(d, k, Step(s, e))
  {
  }

  // ----- In between

  /** Message `i` was accepted as generation `g + 1`. */
  predicate Became(remote: Remote, g: nat, i: nat) {
    && i in remote.accepted && i < |remote.sent| && g < |remote.history|
    && remote.sent[i].base == g && remote.sent[i].data == remote.history[g]
  }

  /** Every generation is the data of an accepted message. */
  ghost predicate Accounted(remote: Remote) {
    forall g :: 0 <= g < |remote.history| ==> WasSent(remote, g)
  }

  ghost predicate WasSent(remote: Remote, g: nat) {
    exists i: nat :: Became(remote, g, i)
  }

  lemma StepKeepsAccounted(s: State, e: Event)
    requires Accounted(s.remote) && Enabled(s, e)
    ensures Accounted(Step(s, e).remote)
  {
    var r, r' := s.remote, Step(s, e).remote;
    forall g | 0 <= g < |r'.history| ensures WasSent(r', g) {
      if g < |r.history| {
        assert WasSent(r, g);
        var i: nat :| Became(r, g, i);
        assert Became(r', g, i);
      } else {
        assert Became(r', g, e.msg);
      }
    }
  }

  lemma {:induction false} RunKeepsAccounted(s: State, events: seq<Event>)
    requires Accounted(s.remote) && Runs(s, events)
    ensures Accounted(Exec(s, events).remote)
    decreases |events|
  {
    if events != [] {
      StepKeepsAccounted(s, events[0]);
      RunKeepsAccounted(Step(s, events[0]), events[1..]);
    }
  }

  /** In every run a record is in the remote exactly when an accepted push had it. */
  lemma InRemoteIff(ids: set<DeviceId>, events: seq<Event>, r: Record)
    requires Runs(Start(ids), events) && In(RECORDS, r)
    ensures var remote := Exec(Start(ids), events).remote;
      InRemote(remote.history, r) <==>
        exists i: nat :: i in remote.accepted && i < |remote.sent| && Has(remote.sent[i].data, r)
  {
    ReachableInv(ids, events);
    RunKeepsAccounted(Start(ids), events);
    var remote := Exec(Start(ids), events).remote;
    var h := remote.history;
    if InRemote(h, r) {
      assert WasSent(remote, |h| - 1);
      var i: nat :| Became(remote, |h| - 1, i);
      assert Has(remote.sent[i].data, r);
    }
    if i: nat :| i in remote.accepted && i < |remote.sent| && Has(remote.sent[i].data, r) {
      assert Covers(RECORDS, h[|h| - 1], h[remote.sent[i].base]);
    }
  }
}
