/**
The worker that syncs one device, as the objects it updates: the local storage, the transport and the
worker itself. Wherever another party can act, between any two statements, it does: local writers, the
workers of other devices and the transport. Every method moves the protocol along a run, so what the
protocol keeps holds of it.
*/
module BackupWorker {
  import opened Options
  import opened SyncTables
  import opened BackupProtocol
  import opened BackupSafety
  import opened BackupRuns
  import opened BackupConvergence

  /** What becomes of one push: applied and answered, applied with the answer lost, or not applied. */
  datatype Fate = Answered | AnswerLost | Dropped

  /** What becomes of one pull: the blob arrives, cannot be decompressed, or the call fails. */
  datatype PullFate = Arrives | Undecodable | Unreachable

  /** How the requests of a sync end, and what the other parties do at each point of it. */
  datatype Network = Network(optimistic: Fate, pull: PullFate, retry: Fate, others: nat -> seq<Event>)

  ghost predicate Undisturbed(net: Network) {
    forall k :: net.others(k) == []
  }

  /** Whether the first push is answered, sent with `base` to a store that holds `n` generations. */
  predicate FirstAnswered(net: Network, base: nat, n: nat) {
    net.optimistic.Answered? && base == n
  }

  /** How many generations the store holds after the first push. */
  function AfterFirst(net: Network, base: nat, n: nat): nat {
    if !net.optimistic.Dropped? && base == n then n + 1 else n
  }

  /**
  Whether the second push is answered: the pull has to be reachable, and what it says has to be current. A
  pulled generation is; a blob that is absent or cannot be decoded makes the base 0, which is current only
  when there is no generation.
  */
  predicate SecondAnswered(net: Network, n: nat) {
    !net.pull.Unreachable? && net.retry.Answered? && (net.pull.Arrives? || n == 0)
  }

  /** Whether a sync that nobody disturbs succeeds. */
  predicate Succeeds(net: Network, base: nat, n: nat) {
    FirstAnswered(net, base, n) || SecondAnswered(net, AfterFirst(net, base, n))
  }

  /** What success takes in any case: the answer to one of the two pushes. */
  predicate SomeAnswer(net: Network) {
    net.optimistic.Answered? || (!net.pull.Unreachable? && net.retry.Answered?)
  }

  datatype BackupEvent = BackupSucceeded | BackupFailed

  datatype BackupState = BackupState(generation: nat, data: SyncDb)

  class Storage {
    var db: SyncDb
    var requests: set<nat>
    var lastId: nat
    var lastVersion: Option<nat>

    constructor ()
      ensures db == EMPTY_DB && requests == {} && lastId == 0 && lastVersion == None
    {
      db, requests, lastId, lastVersion := EMPTY_DB, {}, 0, None;
    }

    method ImportRemoteChanges(remote: SyncDb) returns (fired: nat)
      modifies this
      ensures db == SyncTables.ImportRemoteChanges(old(db), remote)
      ensures fired ==
        |db.swaps.Keys - old(db).swaps.Keys| + |db.refunds - old(db).refunds|
        + |db.external.Keys - old(db).external.Keys| + |ChangedRows(old(db).metadata, db.metadata)|
      ensures requests == old(requests) + NextIds(old(lastId), fired) && lastId == old(lastId) + fired
      ensures lastVersion == old(lastVersion)
    {
      var merged := SyncTables.ImportRemoteChanges(db, remote);
      InsertedRowsAre(db, remote, merged);
      fired := InsertedRows(db, remote);
      requests, lastId, db := requests + NextIds(lastId, fired), lastId + fired, merged;
    }

    /** A write of the application, with the request that its trigger adds. */
    method Write(w: BackupProtocol.Write)
      requires WriteEnabled(db, w)
      modifies `db, `requests, `lastId
      ensures db == ApplyWrite(old(db), w)
      ensures Fires(old(db), w) ==> lastId == old(lastId) + 1 && requests == old(requests) + {lastId}
      ensures !Fires(old(db), w) ==> lastId == old(lastId) && requests == old(requests)
      ensures w.InsertSwap? || w.PutExternal? || w.PutMetadata? ==> lastId == old(lastId) + 1
      ensures w.UpdateDeposit? || w.InsertReverse? || w.PutFee? ==> lastId == old(lastId)
      ensures w.InsertRefund? ==> (lastId == old(lastId) + 1 <==> (w.key, w.txid) !in old(db).refunds)
    {
      if Fires(db, w) {
        lastId := lastId + 1;
        requests := requests + {lastId};
      }
      db := ApplyWrite(db, w);
    }

    method SetLastSyncVersion(version: nat)
      modifies this`lastVersion
      ensures lastVersion == Some(version)
    {
      lastVersion := Some(version);
    }

    method DeleteSyncRequestsUpTo(id: nat)
      modifies this`requests
      ensures requests == set i | i in old(requests) && i > id
    {
      requests := set i | i in requests && i > id;
    }
  }

  class Transport {
    var remote: Remote

    constructor ()
      ensures remote == Remote([], [], {})
    {
      remote := Remote([], [], {});
    }

    /** Hands a message to the network. */
    method Send(m: Push)
      modifies this
      ensures remote == old(remote).(sent := old(remote).sent + [m])
    {
      remote := remote.(sent := remote.sent + [m]);
    }

    /** The store takes a message that names the current generation and no other. */
    method Receive(msg: nat)
      requires msg < |remote.sent|
      modifies this
      ensures remote == Apply(old(remote), msg)
    {
      var m := remote.sent[msg];
      if m.base == |remote.history| {
        remote := remote.(history := remote.history + [m.data], accepted := remote.accepted + {msg});
      }
    }

    method Pull(fate: PullFate) returns (state: Result<Option<BackupState>, ()>)
      ensures state.Err? <==> fate.Unreachable?
      ensures state.Ok? ==> (state.value.Some? <==> fate.Arrives? && remote.history != [])
      ensures state.Ok? && state.value.Some? ==>
        state.value.value == BackupState(|remote.history|, remote.history[|remote.history| - 1])
    {
      if fate.Unreachable? {
        return Err(());
      }
      if fate.Undecodable? || remote.history == [] {
        return Ok(None);
      }
      return Ok(Some(BackupState(|remote.history|, remote.history[|remote.history| - 1])));
    }
  }

  lemma WrittenAs(dev: Device, dev': Device, w: Write)
    requires dev'.db == ApplyWrite(dev.db, w)
    requires Fires(dev.db, w) ==>
      && dev'.lastId == dev.lastId + 1 && dev'.requests == dev.requests + {dev'.lastId}
      && dev'.stamps == dev.stamps[RecordOf(w) := dev'.lastId]
    requires !Fires(dev.db, w) ==>
      dev'.lastId == dev.lastId && dev'.requests == dev.requests && dev'.stamps == dev.stamps
    requires (dev'.lastVersion, dev'.phase, dev'.began, dev'.completed) ==
      (dev.lastVersion, dev.phase, dev.began, dev.completed)
    ensures dev' == AfterWrite(dev, w)
  {
  }

  /** What other parties leave in place: they only add to the transport. */
  ghost predicate Later(r: Remote, r': Remote) {
    r.history <= r'.history && r.sent <= r'.sent && r.accepted <= r'.accepted
  }

  class Worker {
    const id: DeviceId
    const storage: Storage
    const transport: Transport

    // The rest of the protocol state: the other devices, and where this worker stands.
    var others: map<DeviceId, Device>
    ghost var phase: Phase
    ghost var stamps: map<Record, nat>
    ghost var began: nat
    ghost var completed: Option<nat>
    var clock: nat

    constructor (id: DeviceId, storage: Storage, transport: Transport, others: map<DeviceId, Device>)
      requires id !in others && forall i :: i in transport.remote.accepted ==> i < |transport.remote.sent|
      ensures this.id == id && this.storage == storage && this.transport == transport && this.others == others
      ensures Valid() && phase == Idle
    {
      this.id, this.storage, this.transport, this.others := id, storage, transport, others;
      phase, stamps, began, completed, clock := Idle, map[], 0, None, 0;
    }

    ghost predicate Valid()
      reads this, transport
    {
      id !in others && forall i :: i in transport.remote.accepted ==> i < |transport.remote.sent|
    }

    ghost function Self(): Device
      reads this, storage
    {
      Device(storage.db, storage.requests, storage.lastId, storage.lastVersion, phase, stamps, began, completed)
    }

    ghost function World(): State
      reads this, storage, transport
    {
      State(others[id := Self()], transport.remote, clock)
    }

    // ----- The other parties

    /** Records that the fields have just moved by one event. */
    ghost method Took(start: State, before: State, e: Event)
      requires Reaches(start, before) && Enabled(before, e)
      requires others[id := Self()] == Step(before, e).devices && transport.remote == Step(before, e).remote
      requires clock == before.clock + 1
      ensures Reaches(start, World())
    {
      ReachesStep(start, before, e);
      assert World() == Step(before, e);
    }

    /** Records that the fields have just moved by one action of this device. */
    method TookAction(ghost start: State, ghost dev: Device, ghost remote: Remote, ghost a: Action)
      requires Reaches(start, State(others[id := dev], remote, clock)) && Ready(remote, dev, a)
      requires Self() == Advance(remote, clock, dev, a)
      requires transport.remote == remote.(sent := remote.sent + Outgoing(dev, a))
      modifies this`clock
      ensures clock == old(clock) + 1 && Reaches(start, World())
    {
      ghost var before := State(others[id := dev], remote, clock);
      ReachesStep(start, before, Act(id, a));
      clock := clock + 1;
      assert others[id := dev][id := Self()] == others[id := Self()];
      assert World() == Step(before, Act(id, a));
    }

    /** A local write, if it is possible. */
    method LocalWriter(w: Write, ghost start: State)
      requires Valid() && Reaches(start, World())
      modifies storage`db, storage`requests, storage`lastId, this`stamps, this`clock
      ensures Valid() && Reaches(start, World())
      ensures old(storage.requests) <= storage.requests && old(storage.lastId) <= storage.lastId
    {
      if WriteEnabled(storage.db, w) {
        ghost var dev := Self();
        ghost var fires := Fires(storage.db, w);
        storage.Write(w);
        if fires {
          stamps := stamps[RecordOf(w) := storage.lastId];
        }
        WrittenAs(dev, Self(), w);
        TookAction(start, dev, transport.remote, LocalWrite(w));
      }
    }

    /** A step of another device, if it is possible. */
    method OtherDevice(d: DeviceId, a: Action, ghost start: State)
      requires Valid() && Reaches(start, World())
      modifies transport, this`others, this`clock
      ensures Valid() && Reaches(start, World()) && Later(old(transport.remote), transport.remote)
    {
      if d in others && Ready(transport.remote, others[d], a) {
        ghost var before := World();
        var dev := others[d];
        others := others[d := Advance(transport.remote, clock, dev, a)];
        transport.remote := transport.remote.(sent := transport.remote.sent + Outgoing(dev, a));
        clock := clock + 1;
        assert others[id := Self()] == before.devices[d := others[d]];
        Took(start, before, Act(d, a));
      }
    }

    /** The store takes a message, late or not. */
    method Delivery(msg: nat, ghost start: State)
      requires Valid() && Reaches(start, World())
      modifies transport, this`clock
      ensures Valid() && Reaches(start, World()) && Later(old(transport.remote), transport.remote)
      ensures msg < |old(transport.remote).sent| ==> transport.remote == Apply(old(transport.remote), msg)
    {
      if msg < |transport.remote.sent| {
        ghost var before := World();
        transport.Receive(msg);
        clock := clock + 1;
        Took(start, before, Deliver(msg));
      }
    }

    /** The other parties act in some order; steps of this worker are not theirs to take. */
    method Await(events: seq<Event>, ghost start: State)
      requires Valid() && Reaches(start, World())
      modifies storage`db, storage`requests, storage`lastId, transport, this`others, this`stamps, this`clock
      ensures Valid() && Reaches(start, World()) && Later(old(transport.remote), transport.remote)
      ensures old(storage.requests) <= storage.requests && old(storage.lastId) <= storage.lastId
      ensures events == [] ==> transport.remote == old(transport.remote) && Self() == old(Self())
    {
      for i := 0 to |events|
        invariant Valid() && Reaches(start, World()) && Later(old(transport.remote), transport.remote)
        invariant old(storage.requests) <= storage.requests && old(storage.lastId) <= storage.lastId
        invariant i == 0 ==> transport.remote == old(transport.remote) && Self() == old(Self())
      {
        match events[i]
        case Deliver(msg) => Delivery(msg, start);
        case Act(d, a) =>
          if d != id {
            OtherDevice(d, a, start);
          } else if a.LocalWrite? {
            LocalWriter(a.write, start);
          }
      }
    }

    // ----- The statements of a sync

    /** A statement that touches neither the storage nor the transport; then the other parties act. */
    method Moves(ghost a: Action, ghost next: Phase, events: seq<Event>, ghost start: State)
      requires Valid() && Reaches(start, World()) && Ready(transport.remote, Self(), a) && Outgoing(Self(), a) == []
      requires Advance(transport.remote, clock, Self(), a) == Self().(phase := next)
      modifies storage`db, storage`requests, storage`lastId, transport
      modifies this`phase, this`others, this`stamps, this`clock
      ensures Valid() && Reaches(start, World()) && phase == next && Later(old(transport.remote), transport.remote)
      ensures old(storage.requests) <= storage.requests
      ensures events == [] ==> transport.remote == old(transport.remote) && Self() == old(Self()).(phase := next)
    {
      ghost var dev := Self();
      phase := next;
      TookAction(start, dev, transport.remote, a);
      Await(events, start);
    }

    /** Sends `data` and waits for the answer, while the other parties act. */
    method Push(
      base: nat, data: SyncDb, merged: bool, fate: Fate, ghost a: Action,
      first: seq<Event>, later: seq<Event>, ghost start: State)
      returns (answer: Option<nat>)
      requires Valid() && Reaches(start, World()) && Ready(transport.remote, Self(), a)
      requires a.PushSnapshot? || a.PushMerged? || a.PushFresh?
      requires Outgoing(Self(), a) == [BackupProtocol.Push.Push(base, data, merged)]
      modifies storage`db, storage`requests, storage`lastId, transport
      modifies this`phase, this`others, this`stamps, this`clock
      ensures Valid() && Reaches(start, World())
      ensures phase == Pushing(old(phase).id, |old(transport.remote).sent|, data, !a.PushSnapshot?)
      ensures old(storage.requests) <= storage.requests
      ensures answer.Some? ==>
        && Ready(transport.remote, Self(), PushSucceeded)
        && answer.value == base + 1 == transport.remote.sent[phase.msg].base + 1
      ensures answer.Some? ==> fate.Answered?
      ensures first == [] && later == [] ==>
        && storage.requests == old(storage.requests)
        && (answer.Some? <==> fate.Answered? && base == |old(transport.remote).history|)
        && |transport.remote.history| == |old(transport.remote).history|
             + if !fate.Dropped? && base == |old(transport.remote).history| then 1 else 0
    {
      ghost var dev, remote := Self(), transport.remote;
      var msg := |transport.remote.sent|;
      transport.Send(BackupProtocol.Push.Push(base, data, merged));
      phase := Pushing(phase.id, msg, data, !a.PushSnapshot?);
      TookAction(start, dev, remote, a);
      Await(first, start);
      if !fate.Dropped? {
        Delivery(msg, start);
      }
      Await(later, start);
      answer := if fate.Answered? && msg in transport.remote.accepted then Some(base + 1) else None;
    }

    method Sync(force: bool, net: Network) returns (event: Option<BackupEvent>)
      requires Valid() && phase.Idle?
      modifies this, storage, transport
      ensures Valid() && phase.Idle? && Reaches(old(World()), World())
      ensures event.None? <==> !force && LastRequest(old(storage.requests)) == 0
      ensures event.None? ==> World() == old(World())
      ensures event == Some(BackupSucceeded) ==>
        && storage.lastVersion.Some? && completed == Some(old(clock))
        && (forall i :: i in storage.requests ==> i !in old(storage.requests))
        && (Undisturbed(net) ==> BackedUp(Self()))
      ensures event == Some(BackupSucceeded) && Inv(RECORDS, old(World())) && TimesOk(old(World())) ==>
        LastCovers(RECORDS, transport.remote.history, old(storage.db))
      ensures event == Some(BackupSucceeded) ==> SomeAnswer(net)
      ensures event == Some(BackupFailed) ==>
        old(storage.requests) <= storage.requests && storage.lastVersion == old(storage.lastVersion)
      ensures event.Some? && Undisturbed(net) ==>
        (event == Some(BackupSucceeded) <==>
           Succeeds(net, BaseOf(old(storage.lastVersion)), |old(transport.remote).history|))
    {
      ghost var start, dev := World(), Self();
      ReachesSelf(id, start);
      var last := LastRequest(storage.requests);
      if !force && last == 0 {
        return None;
      }
      phase, began := Requested(last), clock;
      TookAction(start, dev, transport.remote, Begin(force));
      Await(net.others(0), start);
      var ok := SyncInternal(last, net, start);
      event := Some(if ok then BackupSucceeded else BackupFailed);
      if ok && Inv(RECORDS, start) && TimesOk(start) {
        ReachedMeansUploaded(start, World(), id);
      }
    }

    method SyncInternal(last: nat, net: Network, ghost start: State) returns (ok: bool)
      requires Valid() && Reaches(start, World()) && phase == Requested(last)
      requires last == 0 || last in storage.requests
      modifies storage, transport
      modifies this`phase, this`others, this`stamps, this`clock, this`completed
      ensures Valid() && Reaches(start, World()) && phase.Idle?
      ensures ok ==> storage.lastVersion.Some? && completed == Some(began)
      ensures ok ==> forall i :: i in storage.requests ==> i > last
      ensures ok && Undisturbed(net) && last == LastRequest(old(storage.requests)) ==> storage.requests == {}
      ensures ok ==> SomeAnswer(net)
      ensures !ok ==> old(storage.requests) <= storage.requests && storage.lastVersion == old(storage.lastVersion)
      ensures Undisturbed(net) ==>
        (ok <==> Succeeds(net, BaseOf(old(storage.lastVersion)), |old(transport.remote).history|))
    {
      var answer, lastRequest := PushTwice(last, net, start);
      ok := answer.Some?;
      if ok {
        Moves(PushSucceeded, Accepted(lastRequest, answer.value, phase.data), net.others(11), start);
        Commit(lastRequest, answer.value, net, start);
      } else {
        Moves(Abort, Idle, net.others(13), start);
      }
    }

    /** Pushes the local data, and on failure once more what results from a merge with the remote. */
    method PushTwice(last: nat, net: Network, ghost start: State) returns (answer: Option<nat>, lastRequest: nat)
      requires Valid() && Reaches(start, World()) && phase == Requested(last)
      requires last == 0 || last in storage.requests
      modifies storage, transport
      modifies this`phase, this`others, this`stamps, this`clock
      ensures Valid() && Reaches(start, World())
      ensures answer.Some? ==>
        && phase.Pushing? && phase.id == lastRequest >= last
        && Ready(transport.remote, Self(), PushSucceeded) && answer.value == transport.remote.sent[phase.msg].base + 1
      ensures Undisturbed(net) && last == LastRequest(old(storage.requests)) ==>
        forall i :: i in storage.requests ==> i <= lastRequest
      ensures old(storage.requests) <= storage.requests && storage.lastVersion == old(storage.lastVersion)
      ensures answer.Some? ==> SomeAnswer(net)
      ensures Undisturbed(net) ==>
        (answer.Some? <==> Succeeds(net, BaseOf(old(storage.lastVersion)), |old(transport.remote).history|))
    {
      var data;
      data, answer := PushOptimistically(last, net, start);
      lastRequest := last;
      if answer.None? {
        Moves(PushFailed, Conflict(last, data), net.others(4), start);
        answer, lastRequest := SyncRemoteAndPush(data, last, net, start);
      }
    }

    /** The first attempt: the local data, sent with the stored version. */
    method PushOptimistically(last: nat, net: Network, ghost start: State) returns (data: SyncDb, answer: Option<nat>)
      requires Valid() && Reaches(start, World()) && phase == Requested(last)
      modifies storage`db, storage`requests, storage`lastId, transport
      modifies this`phase, this`others, this`stamps, this`clock
      ensures Valid() && Reaches(start, World())
      ensures phase.Pushing? && phase == Pushing(last, phase.msg, data, false)
      ensures old(storage.requests) <= storage.requests
      ensures answer.Some? ==>
        Ready(transport.remote, Self(), PushSucceeded) && answer.value == transport.remote.sent[phase.msg].base + 1
      ensures answer.Some? ==> net.optimistic.Answered?
      ensures Undisturbed(net) ==>
        var base, n := BaseOf(storage.lastVersion), |old(transport.remote).history|;
        && storage.requests == old(storage.requests)
        && (answer.Some? <==> FirstAnswered(net, base, n))
        && |transport.remote.history| == AfterFirst(net, base, n)
    {
      var version := storage.lastVersion;
      Moves(ReadVersion, Versioned(last, version), net.others(1), start);
      data := storage.db;
      answer := Push(BaseOf(version), data, false, net.optimistic, PushSnapshot, net.others(2), net.others(3), start);
    }

    /** The updates that record a successful push: exactly the requests after the one it covers remain. */
    method Commit(lastRequest: nat, version: nat, net: Network, ghost start: State)
      requires Valid() && Reaches(start, World())
      requires phase.Accepted? && phase.id == lastRequest && phase.accepted == version
      modifies storage, transport
      modifies this`phase, this`others, this`stamps, this`clock, this`completed
      ensures Valid() && Reaches(start, World()) && phase.Idle?
      ensures storage.lastVersion == Some(version) && completed == Some(began)
      ensures forall i :: i in old(storage.requests) && i > lastRequest ==> i in storage.requests
      ensures forall i :: i in storage.requests ==> i > lastRequest
      ensures Undisturbed(net) ==> storage.requests <= old(storage.requests)
    {
      ghost var dev := Self();
      storage.SetLastSyncVersion(version);
      phase := Stored(lastRequest, version);
      TookAction(start, dev, transport.remote, StoreVersion);
      Await(net.others(12), start);
      dev := Self();
      storage.DeleteSyncRequestsUpTo(lastRequest);
      phase, completed := Idle, Some(began);
      TookAction(start, dev, transport.remote, DeleteRequests);
    }

    /** The import as the protocol sees it, where any number of triggers may fire. */
    method ImportRecords(remote: SyncDb) returns (fired: nat)
      modifies storage
      ensures storage.db == ImportRemoteChanges(old(storage.db), remote)
      ensures storage.requests == old(storage.requests) + NextIds(old(storage.lastId), fired)
      ensures storage.lastId == old(storage.lastId) + fired && storage.lastVersion == old(storage.lastVersion)
    {
      fired := storage.ImportRemoteChanges(remote);
    }

    method ImportToLocal(state: BackupState, events: seq<Event>, ghost start: State)
      requires Valid() && Reaches(start, World()) && phase == Pulled(state.generation, state.data)
      modifies storage, transport
      modifies this`phase, this`others, this`stamps, this`clock
      ensures Valid() && Reaches(start, World()) && phase == Imported(state.generation, state.data)
      ensures old(storage.requests) <= storage.requests && storage.lastVersion == old(storage.lastVersion)
      ensures events == [] ==>
        && transport.remote == old(transport.remote)
        && storage.db == ImportRemoteChanges(old(storage.db), state.data)
    {
      ghost var dev := Self();
      var fired := ImportRecords(state.data);
      phase := Imported(state.generation, state.data);
      TookAction(start, dev, transport.remote, ImportRemote(fired));
      Await(events, start);
    }

    /** Imports the pulled copy, copies the result back into it, and reads the last request again. */
    method ImportBothWays(state: BackupState, net: Network, ghost start: State)
      returns (merged: SyncDb, lastRequest: nat)
      requires Valid() && Reaches(start, World()) && phase == Pulled(state.generation, state.data)
      modifies storage, transport
      modifies this`phase, this`others, this`stamps, this`clock
      ensures Valid() && Reaches(start, World()) && phase == Merged(lastRequest, state.generation, merged)
      ensures old(storage.requests) <= storage.requests && lastRequest >= LastRequest(old(storage.requests))
      ensures storage.lastVersion == old(storage.lastVersion)
      ensures Undisturbed(net) ==>
        && transport.remote == old(transport.remote) && lastRequest == LastRequest(storage.requests)
        && (storage.db, merged) == SyncBothWays(old(storage.db), state.data)
    {
      ImportToLocal(state, net.others(6), start);
      merged, lastRequest := CopyBack(state, net, start);
    }

    /** The copy, and the id that is read after it; other parties act in between. */
    method CopyBack(state: BackupState, net: Network, ghost start: State) returns (merged: SyncDb, lastRequest: nat)
      requires Valid() && Reaches(start, World()) && phase == Imported(state.generation, state.data)
      modifies storage`db, storage`requests, storage`lastId, transport
      modifies this`phase, this`others, this`stamps, this`clock
      ensures Valid() && Reaches(start, World()) && phase == Merged(lastRequest, state.generation, merged)
      ensures merged == ImportRemoteChanges(state.data, old(storage.db))
      ensures old(storage.requests) <= storage.requests && lastRequest >= LastRequest(old(storage.requests))
      ensures Undisturbed(net) ==>
        && transport.remote == old(transport.remote) && lastRequest == LastRequest(storage.requests)
        && storage.db == old(storage.db)
    {
      merged := ImportRemoteChanges(state.data, storage.db);
      Moves(CopyLocal, Copied(state.generation, merged, storage.lastId), net.others(7), start);
      lastRequest := LastRequest(storage.requests);
      Moves(ReadRequest, Merged(lastRequest, state.generation, merged), net.others(8), start);
    }

    method SyncRemoteAndPush(local: SyncDb, last: nat, net: Network, ghost start: State)
      returns (answer: Option<nat>, lastRequest: nat)
      requires Valid() && Reaches(start, World()) && phase == Conflict(last, local)
      modifies storage, transport
      modifies this`phase, this`others, this`stamps, this`clock
      ensures Valid() && Reaches(start, World())
      ensures answer.Some? ==>
        && phase.Pushing? && phase.id == lastRequest
        && (last == 0 || last in old(storage.requests) ==> lastRequest >= last)
        && Ready(transport.remote, Self(), PushSucceeded) && answer.value == transport.remote.sent[phase.msg].base + 1
      ensures Undisturbed(net) && last == LastRequest(old(storage.requests)) ==>
        forall i :: i in storage.requests ==> i <= lastRequest
      ensures old(storage.requests) <= storage.requests && storage.lastVersion == old(storage.lastVersion)
      ensures answer.Some? ==> !net.pull.Unreachable? && net.retry.Answered?
      ensures Undisturbed(net) ==> (answer.Some? <==> SecondAnswered(net, |old(transport.remote).history|))
    {
      lastRequest := last;
      answer := None;
      var pulled := transport.Pull(net.pull);
      if pulled.Err? {
        return;
      }
      match pulled.value
      case Some(state) =>
        Moves(PullState, Pulled(state.generation, state.data), net.others(5), start);
        answer, lastRequest := MergeAndPush(state, net, start);
      case None =>
        answer := PushAsFirst(local, last, net, start);
    }

    /** The second attempt without a remote copy: the local data again, as the first generation. */
    method PushAsFirst(local: SyncDb, last: nat, net: Network, ghost start: State) returns (answer: Option<nat>)
      requires Valid() && Reaches(start, World()) && phase == Conflict(last, local)
      modifies storage`db, storage`requests, storage`lastId, transport
      modifies this`phase, this`others, this`stamps, this`clock
      ensures Valid() && Reaches(start, World()) && old(storage.requests) <= storage.requests
      ensures answer.Some? ==>
        && phase.Pushing? && phase.id == last && net.retry.Answered?
        && Ready(transport.remote, Self(), PushSucceeded) && answer.value == transport.remote.sent[phase.msg].base + 1
      ensures Undisturbed(net) ==>
        && storage.requests == old(storage.requests)
        && (answer.Some? <==> net.retry.Answered? && |old(transport.remote).history| == 0)
    {
      Moves(PullNothing, Fresh(last, local), net.others(5), start);
      answer := Push(0, local, false, net.retry, PushFresh, net.others(9), net.others(10), start);
    }

    /** The second attempt: the merged copy, sent with the pulled generation. */
    method MergeAndPush(state: BackupState, net: Network, ghost start: State)
      returns (answer: Option<nat>, lastRequest: nat)
      requires Valid() && Reaches(start, World()) && phase == Pulled(state.generation, state.data)
      modifies storage, transport
      modifies this`phase, this`others, this`stamps, this`clock
      ensures Valid() && Reaches(start, World()) && lastRequest >= LastRequest(old(storage.requests))
      ensures answer.Some? ==>
        && phase.Pushing? && phase.id == lastRequest
        && Ready(transport.remote, Self(), PushSucceeded) && answer.value == transport.remote.sent[phase.msg].base + 1
      ensures Undisturbed(net) ==> forall i :: i in storage.requests ==> i <= lastRequest
      ensures old(storage.requests) <= storage.requests && storage.lastVersion == old(storage.lastVersion)
      ensures answer.Some? ==> net.retry.Answered?
      ensures Undisturbed(net) && state.generation == |old(transport.remote).history| ==>
        (answer.Some? <==> net.retry.Answered?)
    {
      var merged;
      merged, lastRequest := ImportBothWays(state, net, start);
      answer := Push(state.generation, merged, true, net.retry, PushMerged, net.others(9), net.others(10), start);
    }
  }
}
