/** The contents of rows: where they come from, and which of them the remote and the devices end up with. */
module BackupRows {
  import opened Options
  import opened SyncTables
  import opened BackupProtocol
  import opened BackupSafety
  import opened BackupEverywhere
  import opened BackupRuns
  import opened BackupConvergence

  // ----- Reverse swaps: inserted once, never changed

  function ReverseOf(e: Event): Option<(Key, Row)> {
    if e.Act? && e.action.LocalWrite? && e.action.write.InsertReverse?
    then Some((e.action.write.key, e.action.write.row)) else None
  }

  ghost predicate ReverseFrom(events: seq<Event>, k: Key, row: Row) {
    exists i :: 0 <= i < |events| && ReverseOf(events[i]) == Some((k, row))
  }

  /** Every reverse swap of the database was created by an event. */
  ghost predicate ReverseWritten(events: seq<Event>, db: SyncDb) {
    forall k :: k in db.reverseSwaps ==> ReverseFrom(events, k, db.reverseSwaps[k])
  }

  /** No reverse swap id is created with two different rows. */
  ghost predicate DistinctReverse(events: seq<Event>) {
    forall k, a, b :: ReverseFrom(events, k, a) && ReverseFrom(events, k, b) ==> a == b
  }

  lemma WriteKeepsReverse(events: seq<Event>, i: nat, db: SyncDb)
    requires i < |events| && events[i].Act? && events[i].action.LocalWrite? && ReverseWritten(events, db)
    ensures ReverseWritten(events, ApplyWrite(db, events[i].action.write))
  {
    if ReverseOf(events[i]).Some? {
      assert ReverseFrom(events, ReverseOf(events[i]).value.0, ReverseOf(events[i]).value.1);
    }
  }

  lemma ReverseRowsAreWritten(ids: set<DeviceId>, events: seq<Event>)
    requires Runs(Start(ids), events)
    ensures Everywhere(db => ReverseWritten(events, db), Exec(Start(ids), events))
  {
    var p: Property := db => ReverseWritten(events, db);
    StartHolds(p, ids);
    forall i | 0 <= i < |events| ensures KeptByWrite(p, events[i]) {
      if events[i].Act? && events[i].action.LocalWrite? {
        forall db | p(db) ensures p(ApplyWrite(db, events[i].action.write)) {
          WriteKeepsReverse(events, i, db);
        }
      }
    }
    assert KeptByImports(p);
    RunHolds(p, Start(ids), events);
  }

  /** A reverse swap that reached the remote stays there with the very row that was created for it. */
  lemma ReverseSwapsIntact(ids: set<DeviceId>, events: seq<Event>, i: nat, j: nat, k: Key)
    requires Runs(Start(ids), events) && DistinctReverse(events)
    requires i <= j < |Exec(Start(ids), events).remote.history|
    requires k in Exec(Start(ids), events).remote.history[i].reverseSwaps
    ensures var h := Exec(Start(ids), events).remote.history;
      && k in h[j].reverseSwaps && h[j].reverseSwaps[k] == h[i].reverseSwaps[k]
      && ReverseFrom(events, k, h[j].reverseSwaps[k])
  {
    ReverseRowsAreWritten(ids, events);
    NoLostUpdates(ids, events, i, j, ReverseRec(k));
    var h := Exec(Start(ids), events).remote.history;
    assert ReverseWritten(events, h[i]) && ReverseWritten(events, h[j]);
  }

  // ----- Fees: the newest wins

  function FeeOf(e: Event): Option<(Key, Stamped)> {
    if e.Act? && e.action.LocalWrite? then
      match e.action.write
      case InsertSwap(k, _, fee) => Some((k, fee))
      case PutFee(k, fee) => Some((k, fee))
      case _ => None
    else None
  }

  ghost predicate FeeFrom(events: seq<Event>, k: Key, fee: Stamped) {
    exists i :: 0 <= i < |events| && FeeOf(events[i]) == Some((k, fee))
  }

  ghost predicate FeesWritten(events: seq<Event>, db: SyncDb) {
    forall k :: k in db.fees ==> FeeFrom(events, k, db.fees[k])
  }

  /** No two different fees of a swap carry the same time. */
  ghost predicate NoFeeTies(events: seq<Event>) {
    forall k, a, b :: FeeFrom(events, k, a) && FeeFrom(events, k, b) && a.at == b.at ==> a == b
  }

  lemma WriteKeepsFees(events: seq<Event>, i: nat, db: SyncDb)
    requires i < |events| && events[i].Act? && events[i].action.LocalWrite? && FeesWritten(events, db)
    ensures FeesWritten(events, ApplyWrite(db, events[i].action.write))
  {
    if FeeOf(events[i]).Some? {
      assert FeeFrom(events, FeeOf(events[i]).value.0, FeeOf(events[i]).value.1);
    }
  }

  lemma FeesAreWritten(ids: set<DeviceId>, events: seq<Event>)
    requires Runs(Start(ids), events)
    ensures Everywhere(db => FeesWritten(events, db), Exec(Start(ids), events))
  {
    var p: Property := db => FeesWritten(events, db);
    StartHolds(p, ids);
    forall i | 0 <= i < |events| ensures KeptByWrite(p, events[i]) {
      if events[i].Act? && events[i].action.LocalWrite? {
        forall db | p(db) ensures p(ApplyWrite(db, events[i].action.write)) {
          WriteKeepsFees(events, i, db);
        }
      }
    }
    assert KeptByImports(p);
    RunHolds(p, Start(ids), events);
  }

  lemma SilentKeepsFees(events: seq<Event>, s: State, silent: seq<Event>)
    requires Everywhere(db => FeesWritten(events, db), s) && Runs(s, silent) && Silent(silent)
    ensures Everywhere(db => FeesWritten(events, db), Exec(s, silent))
  {
    var p: Property := db => FeesWritten(events, db);
    assert KeptByImports(p);
    RunHolds(p, s, silent);
  }

  /** Two rows of the same swap, neither of which is younger than the other, are the same row. */
  lemma SameAgeSameFee(events: seq<Event>, a: SyncDb, b: SyncDb, k: Key)
    requires NoFeeTies(events) && FeesWritten(events, a) && FeesWritten(events, b) && k in a.fees && k in b.fees
    requires Has(a, FeeRec(k, b.fees[k].at)) && Has(b, FeeRec(k, a.fees[k].at))
    ensures a.fees[k] == b.fees[k]
  {
  }

  /**
  When no clock goes back and no two fees of a swap tie, two rounds of syncs leave every device, and the
  remote, with the newest fee that any device held: no holder had a younger one, and one had just this.
  */
  lemma NewestFeeWins(
    ids: set<DeviceId>, events: seq<Event>, first: seq<Event>, second: seq<Event>, d: DeviceId, k: Key)
    requires Runs(Start(ids), events) && Safe(Scope(false, true), Start(ids), events) && NoFeeTies(events)
    requires d in ids && TwoRounds(Exec(Start(ids), events), first, second)
    requires Held(Exec(Start(ids), events), FeeRec(k, 0))
    ensures var s0 := Exec(Start(ids), events);
      var s2 := After(s0, first, second);
      && d in s2.devices && s2.remote.history != [] && k in s2.devices[d].db.fees
      && var last, fee := s2.remote.history[|s2.remote.history| - 1], s2.devices[d].db.fees[k];
         && k in last.fees && last.fees[k] == fee
         && (forall holder :: holder in s0.devices && k in s0.devices[holder].db.fees ==>
               s0.devices[holder].db.fees[k].at <= fee.at)
         && (exists holder :: holder in s0.devices && k in s0.devices[holder].db.fees
                              && s0.devices[holder].db.fees[k] == fee)
  {
    var s0 := Exec(Start(ids), events);
    FeesAreWritten(ids, events);
    SilentKeepsFees(events, s0, first);
    SilentKeepsFees(events, Exec(s0, first), second);
    ReachableSourced(Scope(false, true), ids, events);
    RoundsConverge(Scope(false, true), s0, first, second, d, FeeRec(k, 0));
    NewestOfRounds(events, s0, first, second, d, k);
  }

  lemma NewestOfRounds(
    events: seq<Event>, s0: State, first: seq<Event>, second: seq<Event>, d: DeviceId, k: Key)
    requires Inv(Scope(false, true), s0) && TimesOk(s0) && Sourced(Scope(false, true), s0)
    requires d in s0.devices && TwoRounds(s0, first, second) && NoFeeTies(events)
    requires Everywhere(db => FeesWritten(events, db), s0)
    requires Everywhere(db => FeesWritten(events, db), After(s0, first, second))
    requires var s2 := After(s0, first, second);
      && d in s2.devices && s2.remote.history != [] && k in s2.devices[d].db.fees
      && k in s2.remote.history[|s2.remote.history| - 1].fees
    ensures var s2 := After(s0, first, second);
      var last, fee := s2.remote.history[|s2.remote.history| - 1], s2.devices[d].db.fees[k];
      && last.fees[k] == fee
      && (forall holder :: holder in s0.devices && k in s0.devices[holder].db.fees ==>
            s0.devices[holder].db.fees[k].at <= fee.at)
      && (exists holder :: holder in s0.devices && k in s0.devices[holder].db.fees
                           && s0.devices[holder].db.fees[k] == fee)
  {
    var scope, s2 := Scope(false, true), After(s0, first, second);
    var mine, last := s2.devices[d].db, s2.remote.history[|s2.remote.history| - 1];
    assert FeesWritten(events, mine) && FeesWritten(events, last);
    RoundsConverge(scope, s0, first, second, d, FeeRec(k, mine.fees[k].at));
    RoundsConverge(scope, s0, first, second, d, FeeRec(k, last.fees[k].at));
    SameAgeSameFee(events, mine, last, k);
    forall holder | holder in s0.devices && k in s0.devices[holder].db.fees
      ensures s0.devices[holder].db.fees[k].at <= mine.fees[k].at
    {
      assert Held(s0, FeeRec(k, s0.devices[holder].db.fees[k].at));
      RoundsConverge(scope, s0, first, second, d, FeeRec(k, s0.devices[holder].db.fees[k].at));
    }
    var holder :| holder in s0.devices && Has(s0.devices[holder].db, FeeRec(k, mine.fees[k].at));
    assert FeesWritten(events, s0.devices[holder].db);
    SameAgeSameFee(events, mine, s0.devices[holder].db, k);
  }
}
