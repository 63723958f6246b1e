/**
Webhook registration: calls that overlap. A call is a thread; between any two of its statements other
calls act, swaps expire and swaps arrive from other devices. The cached URL stands for the swaps there
were when it was cached and for those created since. Two statements can make it untrue: caching a URL that
misses a live swap, be it a new URL or an overtaken refresh, and a creating call that succeeds with a
registration at a URL that is no longer cached.
*/
module Webhooks {
  import opened Options

  type Url = string
  type Address = string

  /** How a remote request ends: well, with its answer lost, or without an effect. */
  datatype Outcome = Done | AnswerLost | Failed

  /** A registration: the addresses it listed, and whether nobody has unregistered its URL since. */
  datatype Job = Job(url: Url, swaps: set<Address>, lockups: set<Address>, intact: bool)

  /** The statement that a call is about to execute. */
  datatype Thread =
    | ReadCache(url: Url)
    | ListSwaps(url: Url)
    | RegisterSwaps(job: Job, todo: seq<Address>)
    | ListLockups(job: Job)
    | RegisterLockups(job: Job, todo: seq<Address>)
    | NotifyAndCache(job: Job, isNew: bool)
    | Store(address: Address, reverse: bool)
    | ReadUrl(address: Address)
    | Announce(address: Address, url: Url)
    | Unregister(url: Url)
    | Forget(url: Url)

  /**
  `swaps` and `lockups` are the addresses of the unexpired swaps and of the monitored reverse swaps,
  `known` all addresses ever stored. `due` and `withdrawn` only record history: the addresses that the
  cached URL stands for, and whether an unregistration of it has taken effect since it was cached.
  */
  datatype State = State(
    cache: Option<Url>,
    onchain: set<(Address, Url)>,
    swaps: set<Address>,
    lockups: set<Address>,
    known: set<Address>,
    threads: map<nat, Thread>,
    due: set<Address>,
    withdrawn: bool
  )

  const START := State(None, {}, {}, {}, {}, map[], {}, false)

  /**
  `outcome` is how the request of the statement ends, `order` the order in which a list is returned. Any
  statement may also fail without an effect.
  */
  datatype Event =
    | Call(t: nat, thread: Thread)
    | Go(t: nat, outcome: Outcome, order: seq<Address>)
    | Fail(t: nat)
    | Expire(address: Address)
    | Arrive(address: Address, reverse: bool)

  predicate Live(s: State, a: Address) {
    a in s.swaps || a in s.lockups
  }

  // ----- Steps

  function Elements(order: seq<Address>): set<Address> {
    set a | a in order
  }

  predicate Enabled(s: State, e: Event) {
    match e
    case Call(t, thread) => t !in s.threads && (thread.ReadCache? || thread.Store? || thread.Unregister?)
    case Fail(t) => t in s.threads
    case Expire(_) => true
    case Arrive(a, _) => a !in s.known
    case Go(t, outcome, order) =>
      && t in s.threads
      && match s.threads[t]
         case ListSwaps(_) => Elements(order) == s.swaps
         case ListLockups(_) => Elements(order) == s.lockups
         case Store(a, reverse) => a !in s.known || (!reverse && a in s.swaps)
         case _ => true
  }

  function Ended(s: State, t: nat): State {
    s.(threads := s.threads - {t})
  }

  function Next(s: State, t: nat, thread: Thread): State {
    s.(threads := s.threads[t := thread])
  }

  function Stored(s: State, a: Address, reverse: bool): State {
    if reverse then s.(lockups := s.lockups + {a}, known := s.known + {a})
    else s.(swaps := s.swaps + {a}, known := s.known + {a})
  }

  function Took(regs: set<(Address, Url)>, address: Address, url: Url, outcome: Outcome): set<(Address, Url)> {
    if outcome.Failed? then regs else regs + {(address, url)}
  }

  /** One request for an address; `onward` is where the call goes on when it succeeds. */
  function Registered(s: State, t: nat, a: Address, url: Url, outcome: Outcome, onward: Thread): State {
    var s' := s.(onchain := Took(s.onchain, a, url, outcome));
    if outcome.Done? then Next(s', t, onward) else Ended(s', t)
  }

  function Wiped(thread: Thread, url: Url): Thread {
    match thread
    case RegisterSwaps(job, todo) => if job.url == url then RegisterSwaps(job.(intact := false), todo) else thread
    case ListLockups(job) => if job.url == url then ListLockups(job.(intact := false)) else thread
    case RegisterLockups(job, todo) => if job.url == url then RegisterLockups(job.(intact := false), todo) else thread
    case NotifyAndCache(job, isNew) => if job.url == url then NotifyAndCache(job.(intact := false), isNew) else thread
    case _ => thread
  }

  /** The on-chain unregistration of a URL takes effect. */
  function Wipe(s: State, url: Url): State {
    s.(
      onchain := (set r | r in s.onchain && r.1 != url),
      threads := (map t | t in s.threads :: Wiped(s.threads[t], url)),
      withdrawn := s.withdrawn || s.cache == Some(url))
  }

  /** A refresh that finds its URL still cached; nothing changes. */
  predicate Unchanged(s: State, job: Job, isNew: bool) {
    !isNew && s.cache == Some(job.url)
  }

  /** The URL is cached. When the cache becomes this URL, it stands for all swaps there are at that moment. */
  function Cached(s: State, job: Job, isNew: bool): State {
    if Unchanged(s, job, isNew) then s
    else s.(cache := Some(job.url), due := s.swaps + s.lockups, withdrawn := false)
  }

  function Advance(s: State, t: nat, outcome: Outcome, order: seq<Address>): State
    requires Enabled(s, Go(t, outcome, order))
  {
    match s.threads[t]
    case ReadCache(url) =>
      Next(s, t, if s.cache == Some(url) then NotifyAndCache(Job(url, {}, {}, true), false) else ListSwaps(url))
    case ListSwaps(url) => Next(s, t, RegisterSwaps(Job(url, s.swaps, {}, true), order))
    case RegisterSwaps(job, todo) =>
      if todo == [] then Next(s, t, ListLockups(job))
      else Registered(s, t, todo[0], job.url, outcome, RegisterSwaps(job, todo[1..]))
    case ListLockups(job) => Next(s, t, RegisterLockups(job.(lockups := s.lockups), order))
    case RegisterLockups(job, todo) =>
      if todo == [] then Next(s, t, NotifyAndCache(job, true))
      else Registered(s, t, todo[0], job.url, outcome, RegisterLockups(job, todo[1..]))
    case NotifyAndCache(job, isNew) =>
      if outcome.Done? then Ended(Cached(s, job, isNew), t) else Ended(s, t)
    case Store(a, reverse) => Next(Stored(s, a, reverse), t, ReadUrl(a))
    case ReadUrl(a) => if s.cache.None? then Ended(s, t) else Next(s, t, Announce(a, s.cache.value))
    case Announce(a, url) =>
      var s' := s.(onchain := Took(s.onchain, a, url, outcome));
      if outcome.Done? then Ended(s'.(due := s.due + {a}), t) else Ended(s', t)
    case Unregister(url) =>
      if outcome.Failed? then Ended(s, t)
      else if outcome.Done? then Next(Wipe(s, url), t, Forget(url))
      else Ended(Wipe(s, url), t)
    case Forget(_) => if outcome.Done? then Ended(s.(cache := None), t) else Ended(s, t)
  }

  function Step(s: State, e: Event): State
    requires Enabled(s, e)
  {
    match e
    case Call(t, thread) => Next(s, t, thread)
    case Go(t, outcome, order) => Advance(s, t, outcome, order)
    case Fail(t) => Ended(s, t)
    case Expire(a) => s.(swaps := s.swaps - {a}, lockups := s.lockups - {a})
    case Arrive(a, reverse) => Stored(s, a, reverse)
  }

  predicate Runs(s: State, events: seq<Event>)
    decreases |events|
  {
    events == [] || (Enabled(s, events[0]) && Runs(Step(s, events[0]), events[1..]))
  }

  function Exec(s: State, events: seq<Event>): State
    requires Runs(s, events)
    decreases |events|
  {
    if events == [] then s else Exec(Step(s, events[0]), events[1..])
  }

  // ----- What every step keeps

  /** Everything the cached URL stands for, and that is still live, is registered there. */
  ghost predicate Truthful(s: State) {
    s.cache.Some? && !s.withdrawn ==>
      forall a :: a in s.due && Live(s, a) ==> (a, s.cache.value) in s.onchain
  }

  /** The listed addresses that are not still to do are registered, unless the URL was unregistered since. */
  ghost predicate JobOk(s: State, job: Job, todo: seq<Address>) {
    job.intact ==> forall a :: (a in job.swaps || a in job.lockups) && a !in todo ==> (a, job.url) in s.onchain
  }

  /** What a registration has done so far. */
  ghost predicate JobPart(s: State, thread: Thread) {
    match thread
    case RegisterSwaps(job, todo) => job.lockups == {} && JobOk(s, job, todo)
    case ListLockups(job) => job.lockups == {} && JobOk(s, job, [])
    case RegisterLockups(job, todo) => JobOk(s, job, todo)
    case NotifyAndCache(job, isNew) => isNew ==> JobOk(s, job, [])
    case _ => true
  }

  /** A creating call that is about to register at a URL that is no longer cached has been taken care of. */
  ghost predicate CreatorPart(s: State, thread: Thread) {
    match thread
    case Announce(a, url) =>
      s.cache.Some? && s.cache.value != url && !s.withdrawn && Live(s, a) ==> (a, s.cache.value) in s.onchain
    case _ => true
  }

  ghost predicate AllKnown(s: State) {
    && s.swaps <= s.known && s.lockups <= s.known && s.due <= s.known
    && forall t :: t in s.threads && (s.threads[t].ReadUrl? || s.threads[t].Announce?) ==>
                     s.threads[t].address in s.known
  }

  ghost predicate JobAt(s: State, t: nat) {
    t in s.threads ==> JobPart(s, s.threads[t])
  }

  /** What holds in every run, whatever goes wrong with the cache. */
  ghost predicate Sound(s: State) {
    AllKnown(s) && forall t :: t in s.threads ==> JobAt(s, t)
  }

  /** What holds in every run whose cachings are clean. */
  ghost predicate Inv(s: State) {
    Sound(s) && Truthful(s) && forall t :: t in s.threads ==> CreatorPart(s, s.threads[t])
  }

  // ----- Jobs: kept by every step

  lemma TodoShrinks(s: State, job: Job, todo: seq<Address>, outcome: Outcome)
    requires JobOk(s, job, todo)
    ensures todo == [] ==> JobOk(s, job, [])
    ensures todo != [] && outcome.Done? ==>
      JobOk(s.(onchain := Took(s.onchain, todo[0], job.url, outcome)), job, todo[1..])
  {
    if todo != [] {
      assert forall a :: a in todo ==> a == todo[0] || a in todo[1..];
    }
  }

  lemma OwnJob(s: State, e: Event)
    requires e.Go? && Enabled(s, e) && JobAt(s, e.t)
    ensures JobAt(Step(s, e), e.t)
  {
    match s.threads[e.t]
    case RegisterSwaps(job, todo) => TodoShrinks(s, job, todo, e.outcome);
    case RegisterLockups(job, todo) => TodoShrinks(s, job, todo, e.outcome);
    case _ =>
  }

  lemma WipedJob(s: State, url: Url, thread: Thread)
    requires JobPart(s, thread)
    ensures JobPart(Wipe(s, url), Wiped(thread, url))
  {
  }

  /** What others do to a call: nothing, unless they unregister its URL. */
  lemma OthersThread(s: State, t: nat, e: Event)
    requires Enabled(s, e) && t in s.threads && ((e.Go? || e.Fail?) ==> e.t != t)
    ensures t in Step(s, e).threads
    ensures Step(s, e).threads[t] ==
      if e.Go? && s.threads[e.t].Unregister? && !e.outcome.Failed? then Wiped(s.threads[t], s.threads[e.t].url)
      else s.threads[t]
  {
  }

  /** Every step, whatever it does to the cache, keeps what each registration has done so far. */
  lemma StepKeepsJob(s: State, t: nat, e: Event)
    requires Enabled(s, e) && JobAt(s, t)
    ensures JobAt(Step(s, e), t)
  {
    if e.Go? && e.t == t {
      OwnJob(s, e);
    } else if e.Go? && t in s.threads {
      OthersThread(s, t, e);
      if s.threads[e.t].Unregister? && !e.outcome.Failed? {
        WipedJob(s, s.threads[e.t].url, s.threads[t]);
      } else {
        assert s.onchain <= Step(s, e).onchain;
      }
    }
  }

  lemma StepKeepsKnown(s: State, e: Event)
    requires AllKnown(s) && Enabled(s, e)
    ensures AllKnown(Step(s, e))
  {
    if e.Go? && s.threads[e.t].Unregister? && !e.outcome.Failed? {
      var url := s.threads[e.t].url;
      assert forall t :: t in s.threads && t != e.t ==> Wiped(s.threads[t], url).ReadUrl? == s.threads[t].ReadUrl?;
    }
  }

  lemma StepKeepsSound(s: State, e: Event)
    requires Sound(s) && Enabled(s, e)
    ensures Sound(Step(s, e))
  {
    StepKeepsKnown(s, e);
    forall t | t in Step(s, e).threads ensures JobAt(Step(s, e), t) {
      StepKeepsJob(s, t, e);
    }
  }

  // ----- Truth: exactly when a step keeps it

  /** The call is about to cache its URL. */
  predicate Caches(s: State, e: Event)
    requires Enabled(s, e)
  {
    e.Go? && s.threads[e.t].NotifyAndCache? && e.outcome.Done?
  }

  /** The call has listed the address, and nobody has unregistered its URL since. */
  predicate Listed(job: Job, isNew: bool, a: Address) {
    isNew && job.intact && (a in job.swaps || a in job.lockups)
  }

  /** Every live address that the call has not just registered itself is registered at its URL by others. */
  ghost predicate NobodyMissed(s: State, job: Job, isNew: bool) {
    forall a :: Live(s, a) && !Listed(job, isNew, a) ==> (a, job.url) in s.onchain
  }

  /**
  The two statements that can make the cache untrue: caching a URL that misses a live address, and
  succeeding with a registration at a URL that is no longer the cached one.
  */
  ghost predicate Right(s: State, e: Event)
    requires Enabled(s, e)
  {
    e.Go? && e.outcome.Done? ==>
      match s.threads[e.t]
      case NotifyAndCache(job, isNew) => Unchanged(s, job, isNew) || NobodyMissed(s, job, isNew)
      case Announce(a, url) =>
        s.cache.Some? && s.cache.value != url && !s.withdrawn && Live(s, a) ==> (a, s.cache.value) in s.onchain
      case _ => true
  }

  /**
  Exactly when a caching leaves the cache truthful, for a new URL and for a refresh, whatever went wrong
  before: a refresh of the cached URL when it was truthful, any other caching when no live address is missed.
  */
  lemma CachingIsRightIff(s: State, e: Event)
    requires Enabled(s, e) && Caches(s, e) && JobAt(s, e.t)
    ensures var job, isNew := s.threads[e.t].job, s.threads[e.t].isNew;
      Truthful(Step(s, e)) <==> if Unchanged(s, job, isNew) then Truthful(s) else NobodyMissed(s, job, isNew)
  {
    var job, s' := s.threads[e.t].job, Step(s, e);
    assert forall a :: Live(s', a) <==> Live(s, a);
  }

  /** Exactly when a step of a truthful state leads to a truthful state. */
  lemma StepIsTruthfulIff(s: State, e: Event)
    requires Truthful(s) && Sound(s) && Enabled(s, e)
    ensures Truthful(Step(s, e)) <==> Right(s, e)
  {
    if Caches(s, e) {
      CachingIsRightIff(s, e);
    }
  }

  ghost predicate AllRight(s: State, events: seq<Event>)
    requires Runs(s, events)
    decreases |events|
  {
    events == [] || (Right(s, events[0]) && AllRight(Step(s, events[0]), events[1..]))
  }

  ghost predicate TruthfulThroughout(s: State, events: seq<Event>)
    requires Runs(s, events)
    decreases |events|
  {
    Truthful(s) && (events == [] || TruthfulThroughout(Step(s, events[0]), events[1..]))
  }

  lemma {:induction false} RunIsTruthfulIff(s: State, events: seq<Event>)
    requires Truthful(s) && Sound(s) && Runs(s, events)
    ensures TruthfulThroughout(s, events) <==> AllRight(s, events)
    decreases |events|
  {
    if events != [] {
      StepIsTruthfulIff(s, events[0]);
      StepKeepsSound(s, events[0]);
      if Right(s, events[0]) {
        RunIsTruthfulIff(Step(s, events[0]), events[1..]);
      }
    }
  }

  /** The cache is truthful throughout a run of overlapping calls exactly when its two risky statements are right. */
  lemma TruthfulThroughoutIff(events: seq<Event>)
    requires Runs(START, events)
    ensures TruthfulThroughout(START, events) <==> AllRight(START, events)
  {
    RunIsTruthfulIff(START, events);
  }

  // ----- Clean runs

  /**
  A URL is cached only if nothing slipped in: for a new URL every live address was listed and the URL was
  not unregistered since the listing; a refresh finds its URL still cached.
  */
  predicate Clean(s: State, e: Event)
    requires Enabled(s, e)
  {
    Caches(s, e) ==>
      var job, isNew := s.threads[e.t].job, s.threads[e.t].isNew;
      if isNew then s.swaps <= job.swaps && s.lockups <= job.lockups && job.intact else s.cache == Some(job.url)
  }

  lemma CreatorStable(s: State, s': State, thread: Thread)
    requires CreatorPart(s, thread) && s.onchain <= s'.onchain && s'.cache == s.cache && s'.withdrawn == s.withdrawn
    requires thread.Announce? && Live(s', thread.address) ==> Live(s, thread.address)
    ensures CreatorPart(s', thread)
  {
  }

  lemma CreatorAtCaching(s: State, e: Event, thread: Thread)
    requires Enabled(s, e) && Caches(s, e) && Clean(s, e) && JobAt(s, e.t) && CreatorPart(s, thread)
    ensures CreatorPart(Step(s, e), thread)
  {
  }

  lemma CreatorAtWipe(s: State, e: Event, thread: Thread)
    requires e.Go? && Enabled(s, e) && s.threads[e.t].Unregister? && !e.outcome.Failed? && CreatorPart(s, thread)
    ensures CreatorPart(Step(s, e), Wiped(thread, s.threads[e.t].url))
  {
  }

  /** A creating call keeps its part while others act. */
  lemma OthersKeepCreator(s: State, t: nat, e: Event)
    requires Sound(s) && Enabled(s, e) && Clean(s, e) && t in s.threads && CreatorPart(s, s.threads[t])
    requires (e.Go? || e.Fail?) ==> e.t != t
    ensures var s' := Step(s, e); t in s'.threads && CreatorPart(s', s'.threads[t])
  {
    var s', thread := Step(s, e), s.threads[t];
    OthersThread(s, t, e);
    if e.Go? && s.threads[e.t].Unregister? && !e.outcome.Failed? {
      CreatorAtWipe(s, e, thread);
    } else if Caches(s, e) {
      CreatorAtCaching(s, e, thread);
    } else if !(e.Go? && s.threads[e.t].Forget? && e.outcome.Done?) {
      CreatorStable(s, s', thread);
    }
  }

  lemma OwnCreator(s: State, e: Event)
    requires e.Go? && Enabled(s, e) && CreatorPart(s, s.threads[e.t])
    ensures e.t in Step(s, e).threads ==> CreatorPart(Step(s, e), Step(s, e).threads[e.t])
  {
  }

  lemma CleanIsRight(s: State, e: Event)
    requires Inv(s) && Enabled(s, e) && Clean(s, e)
    ensures Right(s, e)
  {
  }

  /** Every clean step keeps the invariant, whatever other calls are under way. */
  lemma StepKeepsInv(s: State, e: Event)
    requires Inv(s) && Enabled(s, e) && Clean(s, e)
    ensures Inv(Step(s, e))
  {
    CleanIsRight(s, e);
    StepIsTruthfulIff(s, e);
    StepKeepsSound(s, e);
    var s' := Step(s, e);
    forall t | t in s'.threads ensures CreatorPart(s', s'.threads[t]) {
      if e.Go? && e.t == t {
        OwnCreator(s, e);
      } else if t in s.threads {
        OthersKeepCreator(s, t, e);
      }
    }
  }

  ghost predicate AllClean(s: State, events: seq<Event>)
    requires Runs(s, events)
    decreases |events|
  {
    events == [] || (Clean(s, events[0]) && AllClean(Step(s, events[0]), events[1..]))
  }

  lemma {:induction false} RunKeepsInv(s: State, events: seq<Event>)
    requires Inv(s) && Runs(s, events) && AllClean(s, events)
    ensures Inv(Exec(s, events))
    decreases |events|
  {
    if events != [] {
      StepKeepsInv(s, events[0]);
      RunKeepsInv(Step(s, events[0]), events[1..]);
    }
  }

  /**
  In every run of overlapping calls whose cachings are clean, what the cached URL stands for is registered:
  every swap there was when it was cached and every one whose creating call has succeeded since, unless it
  has expired or the unregistration of the URL took effect.
  */
  lemma AlwaysTruthful(events: seq<Event>)
    requires Runs(START, events) && AllClean(START, events)
    ensures Truthful(Exec(START, events))
  {
    RunKeepsInv(START, events);
  }

  /** Only the last statement of a call changes the cache, so a call that fails partway never does. */
  lemma FailureKeepsCache(s: State, e: Event)
    requires Enabled(s, e) && Step(s, e).cache != s.cache
    ensures e.Go? && e.outcome.Done? && (s.threads[e.t].NotifyAndCache? || s.threads[e.t].Forget?)
    ensures e.t !in Step(s, e).threads
  {
  }

  /** An unregistration that takes effect removes all registrations at its URL and none at another. */
  lemma UnregisterClears(s: State, e: Event, a: Address, other: Url)
    requires Enabled(s, e) && e.Go? && s.threads[e.t].Unregister? && !e.outcome.Failed?
    ensures var url := s.threads[e.t].url;
      && (a, url) !in Step(s, e).onchain
      && (other != url ==> ((a, other) in Step(s, e).onchain <==> (a, other) in s.onchain))
  {
  }

  // ----- What a registration covers

  /** No address comes back to life: whatever was known at `s0` and is live at `s` was live at `s0`. */
  ghost predicate NoneRevived(s0: State, s: State) {
    && s0.known <= s.known
    && (forall a :: a in s0.known && a in s.swaps ==> a in s0.swaps)
    && (forall a :: a in s0.known && a in s.lockups ==> a in s0.lockups)
  }

  /** A registration that began after `s0` has listed what was live at `s0` and still is. */
  ghost predicate ListedSince(s0: State, s: State, thread: Thread) {
    var swaps := thread.RegisterSwaps? || thread.ListLockups? || thread.RegisterLockups?
      || (thread.NotifyAndCache? && thread.isNew);
    var lockups := thread.RegisterLockups? || (thread.NotifyAndCache? && thread.isNew);
    && (swaps ==> forall a :: a in s0.swaps && a in s.swaps ==> a in thread.job.swaps)
    && (lockups ==> forall a :: a in s0.lockups && a in s.lockups ==> a in thread.job.lockups)
  }

  ghost predicate Since(s0: State, s: State, t: nat) {
    && s0.swaps <= s0.known && s0.lockups <= s0.known && NoneRevived(s0, s)
    && (t in s.threads ==> ListedSince(s0, s, s.threads[t]))
  }

  lemma NoRevival(s0: State, s: State, e: Event)
    requires NoneRevived(s0, s) && Enabled(s, e)
    ensures NoneRevived(s0, Step(s, e))
  {
  }

  lemma StepKeepsSince(s0: State, s: State, t: nat, e: Event)
    requires Since(s0, s, t) && Enabled(s, e)
    ensures Since(s0, Step(s, e), t)
  {
    NoRevival(s0, s, e);
    if e.Go? && e.t == t {
      OwnListing(s0, s, e);
    } else if t in s.threads {
      OthersKeepListing(s0, s, t, e);
    }
  }

  lemma OwnListing(s0: State, s: State, e: Event)
    requires e.Go? && Since(s0, s, e.t) && Enabled(s, e)
    ensures e.t in Step(s, e).threads ==> ListedSince(s0, Step(s, e), Step(s, e).threads[e.t])
  {
  }

  lemma OthersKeepListing(s0: State, s: State, t: nat, e: Event)
    requires Since(s0, s, t) && t in s.threads && Enabled(s, e) && (e.Go? ==> e.t != t)
    ensures t in Step(s, e).threads ==> ListedSince(s0, Step(s, e), Step(s, e).threads[t])
  {
    if e.Go? && s.threads[e.t].Unregister? && !e.outcome.Failed? {
      assert Step(s, e).threads[t] == Wiped(s.threads[t], s.threads[e.t].url);
    }
  }

  lemma {:induction false} RunKeepsSince(s0: State, s: State, t: nat, events: seq<Event>)
    requires Since(s0, s, t) && Runs(s, events)
    ensures Since(s0, Exec(s, events), t)
    decreases |events|
  {
    if events != [] {
      StepKeepsSince(s0, s, t, events[0]);
      RunKeepsSince(s0, Step(s, events[0]), t, events[1..]);
    }
  }

  lemma {:induction false} RunKeepsJob(s: State, t: nat, events: seq<Event>)
    requires JobAt(s, t) && Runs(s, events)
    ensures JobAt(Exec(s, events), t)
    decreases |events|
  {
    if events != [] {
      StepKeepsJob(s, t, events[0]);
      RunKeepsJob(Step(s, events[0]), t, events[1..]);
    }
  }

  /**
  Whatever other calls do meanwhile, and whatever went wrong before: when a registration of a new URL ends
  in its being cached, and nobody unregistered that URL meanwhile, every address that was live when the
  call began and still is, is registered there.
  */
  lemma RegistrationCovers(s0: State, t: nat, url: Url, events: seq<Event>, e: Event, a: Address)
    requires s0.swaps <= s0.known && s0.lockups <= s0.known && t !in s0.threads
    requires var s1 := Step(s0, Call(t, ReadCache(url)));
      Runs(s1, events) && Enabled(Exec(s1, events), e) && e.Go? && e.t == t
    requires var s := Exec(Step(s0, Call(t, ReadCache(url))), events);
      && Caches(s, e) && s.threads[t].isNew && s.threads[t].job.intact && s.threads[t].job.url == url
      && Live(s0, a) && Live(s, a)
    ensures var s' := Step(Exec(Step(s0, Call(t, ReadCache(url))), events), e);
      s'.cache == Some(url) && (a, url) in s'.onchain
  {
    var s1 := Step(s0, Call(t, ReadCache(url)));
    RunKeepsJob(s1, t, events);
    RunKeepsSince(s0, s1, t, events);
    var s := Exec(s1, events);
    assert JobAt(s, t) && ListedSince(s0, s, s.threads[t]) && NoneRevived(s0, s);
    assert a in s.threads[t].job.swaps || a in s.threads[t].job.lockups;
  }

  // ----- Reaching

  lemma {:induction false} RunsAppend(s: State, events: seq<Event>, more: seq<Event>)
    requires Runs(s, events) && Runs(Exec(s, events), more)
    ensures Runs(s, events + more) && Exec(s, events + more) == Exec(Exec(s, events), more)
    decreases |events|
  {
    if events != [] {
      RunsAppend(Step(s, events[0]), events[1..], more);
      assert (events + more)[1..] == events[1..] + more;
    } else {
      assert events + more == more;
    }
  }

  ghost predicate Reaches(s: State, s': State) {
    exists events :: Runs(s, events) && Exec(s, events) == s'
  }

  lemma ReachesSelf(s: State)
    ensures Reaches(s, s)
  {
    assert Runs(s, []) && Exec(s, []) == s;
  }

  lemma ReachesStep(s: State, mid: State, e: Event)
    requires Reaches(s, mid) && Enabled(mid, e)
    ensures Reaches(s, Step(mid, e))
  {
    var events :| Runs(s, events) && Exec(s, events) == mid;
    assert [e][1..] == [] && Runs(Step(mid, e), []);
    RunsAppend(s, events, [e]);
  }

  /** One more statement of a call. */
  lemma Goes(s: State, mid: State, t: nat) returns (s': State)
    requires Reaches(s, mid) && Enabled(mid, Go(t, Done, []))
    ensures Reaches(s, s') && s' == Advance(mid, t, Done, [])
  {
    ReachesStep(s, mid, Go(t, Done, []));
    s' := Step(mid, Go(t, Done, []));
  }

  lemma Calls(s: State, mid: State, t: nat, thread: Thread) returns (s': State)
    requires Reaches(s, mid) && Enabled(mid, Call(t, thread))
    ensures Reaches(s, s') && s' == Next(mid, t, thread)
  {
    ReachesStep(s, mid, Call(t, thread));
    s' := Step(mid, Call(t, thread));
  }

  // ----- The two races

  /** Nothing slips between a listing and the caching after it; refreshes may be overtaken. */
  predicate NothingSlips(s: State, e: Event)
    requires Enabled(s, e)
  {
    Caches(s, e) && s.threads[e.t].isNew ==> Clean(s, e)
  }

  ghost predicate NothingSlipsIn(s: State, events: seq<Event>)
    requires Runs(s, events)
    decreases |events|
  {
    events == [] || (NothingSlips(s, events[0]) && NothingSlipsIn(Step(s, events[0]), events[1..]))
  }

  lemma {:induction false} NothingSlipsOn(s: State, events: seq<Event>, e: Event)
    requires Runs(s, events) && NothingSlipsIn(s, events)
    requires Enabled(Exec(s, events), e) && NothingSlips(Exec(s, events), e)
    ensures Runs(s, events + [e]) && Exec(s, events + [e]) == Step(Exec(s, events), e)
    ensures NothingSlipsIn(s, events + [e])
    decreases |events|
  {
    if events != [] {
      NothingSlipsOn(Step(s, events[0]), events[1..], e);
      assert (events + [e])[1..] == events[1..] + [e];
    } else {
      assert [] + [e] == [e] && [e][1..] == [];
    }
  }

  ghost predicate ReachesUnslipped(s: State, s': State) {
    exists events :: Runs(s, events) && Exec(s, events) == s' && NothingSlipsIn(s, events)
  }

  lemma Moves(mid: State, e: Event) returns (s': State)
    requires ReachesUnslipped(START, mid) && Enabled(mid, e) && NothingSlips(mid, e)
    ensures ReachesUnslipped(START, s') && s' == Step(mid, e)
  {
    var events :| Runs(START, events) && Exec(START, events) == mid && NothingSlipsIn(START, events);
    NothingSlipsOn(START, events, e);
    s' := Step(mid, e);
  }

  lemma StartUnslipped()
    ensures ReachesUnslipped(START, START)
  {
    assert Runs(START, []) && Exec(START, []) == START && NothingSlipsIn(START, []);
  }

  lemma UnslippedReaches(s: State)
    requires ReachesUnslipped(START, s)
    ensures Reaches(START, s)
  {
  }

  /** One statement of a call that leaves all else as it is. */
  lemma Onward(mid: State, t: nat, from: Thread, to: Thread)
    requires ReachesUnslipped(START, Next(mid, t, from)) && !from.NotifyAndCache?
    requires Enabled(Next(mid, t, from), Go(t, Done, []))
    requires Advance(Next(mid, t, from), t, Done, []) == Next(mid, t, to)
    ensures ReachesUnslipped(START, Next(mid, t, to))
  {
    var s' := Moves(Next(mid, t, from), Go(t, Done, []));
  }

  lemma Rewritten(mid: State, t: nat, from: Thread, to: Thread)
    ensures Next(Next(mid, t, from), t, to) == Next(mid, t, to)
  {
    assert mid.threads[t := from][t := to] == mid.threads[t := to];
  }

  /** Without swaps, a registration of a new URL has nothing to register. */
  lemma ListsNothing(mid: State, t: nat, url: Url) returns (s': State)
    requires ReachesUnslipped(START, mid) && t !in mid.threads
    requires mid.cache != Some(url) && mid.swaps == {} && mid.lockups == {}
    ensures ReachesUnslipped(START, s')
    ensures s' == Next(mid, t, NotifyAndCache(Job(url, {}, {}, true), true))
  {
    var job := Job(url, {}, {}, true);
    s' := Moves(mid, Call(t, ReadCache(url)));
    Rewritten(mid, t, ReadCache(url), ListSwaps(url));
    Onward(mid, t, ReadCache(url), ListSwaps(url));
    Rewritten(mid, t, ListSwaps(url), RegisterSwaps(job, []));
    Onward(mid, t, ListSwaps(url), RegisterSwaps(job, []));
    RegistersNone(mid, t, job);
    s' := Next(mid, t, NotifyAndCache(job, true));
  }

  lemma RegistersNone(mid: State, t: nat, job: Job)
    requires ReachesUnslipped(START, Next(mid, t, RegisterSwaps(job, []))) && mid.lockups == {} == job.lockups
    ensures ReachesUnslipped(START, Next(mid, t, NotifyAndCache(job, true)))
  {
    Rewritten(mid, t, RegisterSwaps(job, []), ListLockups(job));
    Onward(mid, t, RegisterSwaps(job, []), ListLockups(job));
    Rewritten(mid, t, ListLockups(job), RegisterLockups(job, []));
    Onward(mid, t, ListLockups(job), RegisterLockups(job, []));
    Rewritten(mid, t, RegisterLockups(job, []), NotifyAndCache(job, true));
    Onward(mid, t, RegisterLockups(job, []), NotifyAndCache(job, true));
  }

  /** Without swaps, a registration runs through from its call to its end. */
  lemma RegistersNothing(mid: State, t: nat, url: Url) returns (s': State)
    requires ReachesUnslipped(START, mid) && t !in mid.threads
    requires mid.cache != Some(url) && mid.swaps == {} && mid.lockups == {}
    ensures ReachesUnslipped(START, s') && s' == mid.(cache := Some(url), due := {}, withdrawn := false)
  {
    s' := ListsNothing(mid, t, url);
    s' := Moves(s', Go(t, Done, []));
    assert s'.threads == mid.threads;
  }

  /** A swap is created and registered at the cached URL. */
  lemma CreatesOne(mid: State, t: nat, url: Url, a: Address) returns (s': State)
    requires ReachesUnslipped(START, mid) && t !in mid.threads && mid.cache == Some(url) && a !in mid.known
    ensures ReachesUnslipped(START, s')
    ensures s' == mid.(
      onchain := mid.onchain + {(a, url)}, swaps := mid.swaps + {a}, known := mid.known + {a}, due := mid.due + {a})
  {
    var go := Go(t, Done, []);
    s' := Moves(mid, Call(t, Store(a, false)));
    s' := Moves(s', go);
    s' := Moves(s', go);
    s' := Moves(s', go);
    assert s'.threads == mid.threads;
  }

  /**
  A refresh that is overtaken: it reads the cached URL, another URL is registered and cached, a swap is
  created and registered there, and then the refresh caches its own URL. Nothing slipped in after any
  listing, and the swap is not registered at the URL that is now cached.
  */
  lemma OvertakenRefreshIsWrong(first: Url, second: Url, a: Address) returns (s': State)
    requires first != second
    ensures ReachesUnslipped(START, s') && s'.threads == map[] && s'.cache == Some(first) && !s'.withdrawn
    ensures a in s'.due && Live(s', a) && (a, second) in s'.onchain && (a, first) !in s'.onchain && !Truthful(s')
  {
    StartUnslipped();
    s' := RegistersNothing(START, 0, first);
    s' := Moves(s', Call(1, ReadCache(first)));
    s' := Moves(s', Go(1, Done, []));
    s' := RegistersNothing(s', 0, second);
    s' := CreatesOne(s', 2, second, a);
    s' := Moves(s', Go(1, Done, []));
    assert s'.threads == map[];
  }

  /**
  The racing run: a swap is created after the listing, its creating call finds no cached URL and succeeds,
  and then the URL is cached. The swap is live, the URL stands for it, and it is not registered.
  */
  lemma RacingSwapIsMissed(url: Url, a: Address) returns (s': State)
    ensures Reaches(START, s') && s'.threads == map[] && s'.cache == Some(url) && !s'.withdrawn
    ensures a in s'.due && Live(s', a) && (a, url) !in s'.onchain && !Truthful(s')
  {
    StartUnslipped();
    s' := ListsNothing(START, 0, url);
    UnslippedReaches(s');
    s' := Calls(START, s', 1, Store(a, false));
    s' := Goes(START, s', 1);
    s' := Goes(START, s', 1);
    s' := Goes(START, s', 0);
    assert s'.threads == map[];
  }

  // ----- Failed unregistrations, and registering again

  /** A swap exists, its address is registered at the first URL, and that URL is cached. */
  lemma OneRegistered(url: Url, a: Address) returns (s': State)
    ensures Reaches(START, s')
    ensures s' == State(Some(url), {(a, url)}, {a}, {}, {a}, map[], {a}, false)
  {
    ReachesSelf(START);
    ReachesStep(START, START, Arrive(a, false));
    s' := Step(START, Arrive(a, false));
    s' := Calls(START, s', 0, ReadCache(url));
    s' := Goes(START, s', 0);
    var list := [a];
    assert Elements(list) == s'.swaps;
    ReachesStep(START, s', Go(0, Done, list));
    s' := Step(s', Go(0, Done, list));
    s' := RegistersOne(START, s', url, a);
    assert s'.threads == map[];
  }

  lemma RegistersOne(s: State, mid: State, url: Url, a: Address) returns (s': State)
    requires Reaches(s, mid) && 0 in mid.threads && mid.lockups == {} && mid.swaps == {a}
    requires mid.threads[0] == RegisterSwaps(Job(url, {a}, {}, true), [a])
    ensures Reaches(s, s')
    ensures s' == mid.(
      cache := Some(url), onchain := mid.onchain + {(a, url)}, threads := mid.threads - {0},
      due := {a}, withdrawn := false)
  {
    assert [a][1..] == [];
    s' := Goes(s, mid, 0);
    s' := Goes(s, s', 0);
    s' := Goes(s, s', 0);
    s' := Goes(s, s', 0);
    s' := Goes(s, s', 0);
    assert s'.threads == mid.threads - {0};
    assert s'.due == {a};
  }

  /** An unregistration that fails after its first request: the URL stays cached and nothing is registered there. */
  lemma WithdrawnIsReachable(url: Url, a: Address) returns (s': State)
    ensures Reaches(START, s') && s'.threads == map[] && s'.cache == Some(url) && s'.withdrawn
    ensures Live(s', a) && forall b :: (b, url) !in s'.onchain
  {
    s' := OneRegistered(url, a);
    s' := Calls(START, s', 0, Unregister(url));
    s' := Goes(START, s', 0);
    ReachesStep(START, s', Go(0, Failed, []));
    s' := Step(s', Go(0, Failed, []));
    assert s'.threads == map[];
  }

  /** The event belongs to registrations of the URL. */
  predicate Registers(url: Url, e: Event) {
    e.Go? || e.Fail? || (e.Call? && e.thread == ReadCache(url))
  }

  ghost predicate OnlyRefreshes(s: State, url: Url) {
    forall t :: t in s.threads ==>
      s.threads[t] == ReadCache(url) || s.threads[t] == NotifyAndCache(Job(url, {}, {}, true), false)
  }

  /** Registering the cached URL again, however often, registers no address that was missed. */
  lemma {:induction false} MissedStaysMissed(s: State, url: Url, a: Address, events: seq<Event>)
    requires s.cache == Some(url) && OnlyRefreshes(s, url) && (a, url) !in s.onchain && Runs(s, events)
    requires forall i :: 0 <= i < |events| ==> Registers(url, events[i])
    ensures Exec(s, events).cache == Some(url) && (a, url) !in Exec(s, events).onchain
    decreases |events|
  {
    if events != [] {
      assert forall i :: 0 <= i < |events[1..]| ==> events[1..][i] == events[i + 1];
      MissedStaysMissed(Step(s, events[0]), url, a, events[1..]);
    }
  }
}
