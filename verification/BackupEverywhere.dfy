/**
Properties of single databases that spread: if imports and the writes of a run keep a property, then in
every run it holds of every copy there is, on a device, in a worker's hands, under way or in the remote.
*/
module BackupEverywhere {
  import opened Options
  import opened SyncTables
  import opened BackupProtocol

  type Property = SyncDb -> bool

  ghost predicate PhaseHolds(p: Property, phase: Phase) {
    match phase
    case Idle | Requested(_) | Versioned(_, _) | Stored(_, _) => true
    case Pushing(_, _, data, _) => p(data)
    case Conflict(_, data) => p(data)
    case Fresh(_, data) => p(data)
    case Pulled(_, remote) => p(remote)
    case Imported(_, remote) => p(remote)
    case Copied(_, data, _) => p(data)
    case Merged(_, _, data) => p(data)
    case Accepted(_, _, data) => p(data)
  }

  ghost predicate Everywhere(p: Property, s: State) {
    && (forall d :: d in s.devices ==> p(s.devices[d].db) && PhaseHolds(p, s.devices[d].phase))
    && (forall i :: 0 <= i < |s.remote.history| ==> p(s.remote.history[i]))
    && (forall i :: 0 <= i < |s.remote.sent| ==> p(s.remote.sent[i].data))
  }

  ghost predicate KeptByImports(p: Property) {
    forall mine, theirs :: p(mine) && p(theirs) ==> p(ImportRemoteChanges(mine, theirs))
  }

  ghost predicate KeptByWrite(p: Property, e: Event) {
    e.Act? && e.action.LocalWrite? ==>
      forall db :: p(db) && WriteEnabled(db, e.action.write) ==> p(ApplyWrite(db, e.action.write))
  }

  lemma AdvanceHolds(p: Property, remote: Remote, clock: nat, d: DeviceId, dev: Device, a: Action)
    requires Ready(remote, dev, a) && KeptByImports(p) && KeptByWrite(p, Act(d, a))
    requires p(dev.db) && PhaseHolds(p, dev.phase)
    requires forall i :: 0 <= i < |remote.history| ==> p(remote.history[i])
    ensures p(Advance(remote, clock, dev, a).db) && PhaseHolds(p, Advance(remote, clock, dev, a).phase)
    ensures forall m :: m in Outgoing(dev, a) ==> p(m.data)
  {
  }

  lemma StepHolds(p: Property, s: State, e: Event)
    requires KeptByImports(p) && KeptByWrite(p, e) && Everywhere(p, s) && Enabled(s, e)
    ensures Everywhere(p, Step(s, e))
  {
    if e.Act? {
      AdvanceHolds(p, s.remote, s.clock, e.device, s.devices[e.device], e.action);
    }
  }

  lemma {:induction false} RunHolds(p: Property, s: State, events: seq<Event>)
    requires KeptByImports(p) && Everywhere(p, s) && Runs(s, events)
    requires forall i :: 0 <= i < |events| ==> KeptByWrite(p, events[i])
    ensures Everywhere(p, Exec(s, events))
    decreases |events|
  {
    if events != [] {
      StepHolds(p, s, events[0]);
      assert forall i :: 0 <= i < |events[1..]| ==> events[1..][i] == events[i + 1];
      RunHolds(p, Step(s, events[0]), events[1..]);
    }
  }

  lemma StartHolds(p: Property, ids: set<DeviceId>)
    requires p(EMPTY_DB)
    ensures Everywhere(p, Start(ids))
  {
  }

  // ----- Swaps and their fees

  predicate Paired(db: SyncDb) {
    db.swaps.Keys == db.fees.Keys
  }

  lemma WriteKeepsPaired(db: SyncDb, w: Write)
    requires Paired(db) && WriteEnabled(db, w)
    ensures Paired(ApplyWrite(db, w))
  {
  }

  lemma ImportKeepsPaired(mine: SyncDb, theirs: SyncDb)
    requires Paired(mine) && Paired(theirs)
    ensures Paired(ImportRemoteChanges(mine, theirs))
  {
  }

  /** In every run every copy of the database has a fee for each swap, and for nothing else. */
  lemma SwapsHaveFees(ids: set<DeviceId>, events: seq<Event>)
    requires Runs(Start(ids), events)
    ensures Everywhere(Paired, Exec(Start(ids), events))
  {
    StartHolds(Paired, ids);
    forall e: Event ensures KeptByWrite(Paired, e) {
      if e.Act? && e.action.LocalWrite? {
        forall db | Paired(db) && WriteEnabled(db, e.action.write) ensures Paired(ApplyWrite(db, e.action.write)) {
          WriteKeepsPaired(db, e.action.write);
        }
      }
    }
    forall mine, theirs | Paired(mine) && Paired(theirs) ensures Paired(ImportRemoteChanges(mine, theirs)) {
      ImportKeepsPaired(mine, theirs);
    }
    RunHolds(Paired, Start(ids), events);
  }
}
