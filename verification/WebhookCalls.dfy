/**
The webhook calls as methods of the service: loops that register address after address and stop at the
first failure, and the cached URL. Between any two statements the other calls act. Every call follows a
run of the step system.
*/
module WebhookCalls {
  import opened Options
  import opened Webhooks

  /** What another call does to the registrations with the LSPs. */
  datatype LspEvent = Added(lsp: string, url: Url) | Removed(lsp: string, url: Url)

  /**
  How the requests of a call end, and what happens at each point of it: `others` in the step system,
  `lspOthers` after each request to an LSP. `lsps` is absent when the list of LSPs cannot be had.
  */
  datatype Network = Network(
    outcome: nat -> Outcome,
    others: nat -> seq<Event>,
    lsps: Option<seq<string>>,
    lsp: nat -> Outcome,
    lspOthers: nat -> seq<LspEvent>
  )

  ghost predicate Undisturbed(net: Network) {
    forall k :: net.others(k) == []
  }

  /** Every LSP can be listed and answers. */
  predicate LspsAnswer(net: Network) {
    net.lsps.Some? && forall i :: 0 <= i < |net.lsps.value| ==> net.lsp(i).Done?
  }

  /** The request for the `i`-th listed swap, or reverse swap. */
  function Slot(reverse: bool, i: nat): nat {
    2 * i + if reverse then 1 else 0
  }

  /** The first `n` requests of a listing are answered. */
  predicate Answered(net: Network, reverse: bool, n: nat) {
    forall i :: 0 <= i < n ==> net.outcome(Slot(reverse, i)).Done?
  }

  predicate AllAnswered(net: Network, swaps: nat, lockups: nat) {
    Answered(net, false, swaps) && Answered(net, true, lockups)
  }

  /** The registrations of the addresses at the URL. */
  ghost function AllAt(addresses: set<Address>, url: Url): set<(Address, Url)> {
    set a | a in addresses :: (a, url)
  }

  lemma OneMoreAt(regs: set<(Address, Url)>, list: seq<Address>, i: nat, url: Url)
    requires i < |list|
    ensures Took(regs + AllAt(Elements(list[..i]), url), list[i], url, Done) ==
      regs + AllAt(Elements(list[..i + 1]), url)
  {
    assert list[..i + 1] == list[..i] + [list[i]];
  }

  // ----- LSPs

  type Registrations = set<(string, Url)>

  function AfterOthers(regs: Registrations, events: seq<LspEvent>): Registrations {
    if events == [] then regs
    else
      var before, e := AfterOthers(regs, events[..|events| - 1]), events[|events| - 1];
      if e.Added? then before + {(e.lsp, e.url)} else before - {(e.lsp, e.url)}
  }

  datatype LspProgress = LspProgress(ok: bool, regs: Registrations)

  /** Registers with every LSP, going on after a failure, while others act after each request. */
  function RegisterLsps(lsps: seq<string>, url: Url, net: Network, regs: Registrations): LspProgress {
    if lsps == [] then LspProgress(true, regs)
    else
      var k := |lsps| - 1;
      var p, o := RegisterLsps(lsps[..k], url, net, regs), net.lsp(k);
      var mine := if o.Failed? then p.regs else p.regs + {(lsps[k], url)};
      LspProgress(p.ok && o.Done?, AfterOthers(mine, net.lspOthers(k)))
  }

  function UnregisterLsps(lsps: seq<string>, url: Url, net: Network, regs: Registrations): LspProgress {
    if lsps == [] then LspProgress(true, regs)
    else
      var k := |lsps| - 1;
      var p, o := UnregisterLsps(lsps[..k], url, net, regs), net.lsp(k);
      var mine := if o.Failed? then p.regs else p.regs - {(lsps[k], url)};
      LspProgress(p.ok && o.Done?, AfterOthers(mine, net.lspOthers(k)))
  }

  /** Nobody else does `e` after request `i` of `n`. */
  predicate NobodyDoes(net: Network, i: nat, n: nat, e: LspEvent) {
    forall j :: i <= j < n ==> e !in net.lspOthers(j)
  }

  lemma {:induction false} OthersDo(regs: Registrations, events: seq<LspEvent>, lsp: string, url: Url)
    ensures (lsp, url) in regs && Removed(lsp, url) !in events ==> (lsp, url) in AfterOthers(regs, events)
    ensures (lsp, url) !in regs && Added(lsp, url) !in events ==> (lsp, url) !in AfterOthers(regs, events)
  {
    if events != [] {
      OthersDo(regs, events[..|events| - 1], lsp, url);
    }
  }

  /**
  The answer is yes exactly when every LSP answered; an LSP that the request reached has the URL, unless
  another call has removed it since; and no registration appears that neither this call nor another made.
  */
  lemma {:induction false} RegisterLspsIff(lsps: seq<string>, url: Url, net: Network, regs: Registrations)
    ensures var p := RegisterLsps(lsps, url, net, regs);
      p.ok <==> forall i :: 0 <= i < |lsps| ==> net.lsp(i).Done?
    ensures forall i :: 0 <= i < |lsps| && !net.lsp(i).Failed? && NobodyDoes(net, i, |lsps|, Removed(lsps[i], url)) ==>
      (lsps[i], url) in RegisterLsps(lsps, url, net, regs).regs
    ensures forall l, u :: (l, u) in RegisterLsps(lsps, url, net, regs).regs && (l, u) !in regs ==>
      (u == url && l in lsps) || !NobodyDoes(net, 0, |lsps|, Added(l, u))
  {
    if lsps != [] {
      var k := |lsps| - 1;
      var before, p := lsps[..k], RegisterLsps(lsps[..k], url, net, regs);
      RegisterLspsIff(before, url, net, regs);
      var mine := if net.lsp(k).Failed? then p.regs else p.regs + {(lsps[k], url)};
      forall l, u ensures
          && ((l, u) in mine && Removed(l, u) !in net.lspOthers(k) ==> (l, u) in AfterOthers(mine, net.lspOthers(k)))
          && ((l, u) !in mine && Added(l, u) !in net.lspOthers(k) ==> (l, u) !in AfterOthers(mine, net.lspOthers(k)))
      {
        OthersDo(mine, net.lspOthers(k), l, u);
      }
      forall i | 0 <= i < k && NobodyDoes(net, i, |lsps|, Removed(lsps[i], url))
        ensures NobodyDoes(net, i, k, Removed(lsps[i], url)) && before[i] == lsps[i]
      {
      }
    }
  }

  /** The same for unregistering: an LSP that the request reached lacks the URL, unless another call added it since. */
  lemma {:induction false} UnregisterLspsIff(lsps: seq<string>, url: Url, net: Network, regs: Registrations)
    ensures var p := UnregisterLsps(lsps, url, net, regs);
      p.ok <==> forall i :: 0 <= i < |lsps| ==> net.lsp(i).Done?
    ensures forall i :: 0 <= i < |lsps| && !net.lsp(i).Failed? && NobodyDoes(net, i, |lsps|, Added(lsps[i], url)) ==>
      (lsps[i], url) !in UnregisterLsps(lsps, url, net, regs).regs
    ensures forall l, u :: (l, u) in regs && (l, u) !in UnregisterLsps(lsps, url, net, regs).regs ==>
      (u == url && l in lsps) || !NobodyDoes(net, 0, |lsps|, Removed(l, u))
  {
    if lsps != [] {
      var k := |lsps| - 1;
      var before, p := lsps[..k], UnregisterLsps(lsps[..k], url, net, regs);
      UnregisterLspsIff(before, url, net, regs);
      var mine := if net.lsp(k).Failed? then p.regs else p.regs - {(lsps[k], url)};
      forall l, u ensures
          && ((l, u) in mine && Removed(l, u) !in net.lspOthers(k) ==> (l, u) in AfterOthers(mine, net.lspOthers(k)))
          && ((l, u) !in mine && Added(l, u) !in net.lspOthers(k) ==> (l, u) !in AfterOthers(mine, net.lspOthers(k)))
      {
        OthersDo(mine, net.lspOthers(k), l, u);
      }
      forall i | 0 <= i < k && NobodyDoes(net, i, |lsps|, Added(lsps[i], url))
        ensures NobodyDoes(net, i, k, Added(lsps[i], url)) && before[i] == lsps[i]
      {
      }
    }
  }

  /** Every listed LSP has the URL, unless another call has removed it since it was registered there. */
  ghost predicate HaveUrl(net: Network, url: Url, regs: Registrations) {
    net.lsps.Some? ==>
      var list := net.lsps.value;
      forall i :: 0 <= i < |list| && NobodyDoes(net, i, |list|, Removed(list[i], url)) ==> (list[i], url) in regs
  }

  /** No listed LSP has the URL, unless another call has added it since it was unregistered there. */
  ghost predicate LackUrl(net: Network, url: Url, regs: Registrations) {
    net.lsps.Some? ==>
      var list := net.lsps.value;
      forall i :: 0 <= i < |list| && NobodyDoes(net, i, |list|, Added(list[i], url)) ==> (list[i], url) !in regs
  }

  // ----- Calls

  /** The statement without what others may do to it. */
  function Statement(thread: Thread): Thread {
    match thread
    case RegisterSwaps(job, todo) => RegisterSwaps(job.(intact := true), todo)
    case ListLockups(job) => ListLockups(job.(intact := true))
    case RegisterLockups(job, todo) => RegisterLockups(job.(intact := true), todo)
    case NotifyAndCache(job, isNew) => NotifyAndCache(job.(intact := true), isNew)
    case _ => thread
  }

  /** The event is not a statement of call `me`. */
  predicate Foreign(me: nat, e: Event) {
    (e.Go? || e.Call? || e.Fail?) ==> e.t != me
  }

  lemma OthersLeaveStatement(me: nat, s: State, e: Event)
    requires Enabled(s, e) && Foreign(me, e)
    ensures me in Step(s, e).threads <==> me in s.threads
    ensures me in s.threads ==> Statement(Step(s, e).threads[me]) == Statement(s.threads[me])
    ensures s.known <= Step(s, e).known
  {
    if e.Go? && s.threads[e.t].Unregister? && !e.outcome.Failed? && me in s.threads {
      assert Step(s, e).threads[me] == Wiped(s.threads[me], s.threads[e.t].url);
    }
  }

  /** The call is in one of its two loops, with these addresses to come. */
  predicate IsListing(thread: Thread, reverse: bool, job: Job, todo: seq<Address>) {
    Statement(thread) == if reverse then RegisterLockups(job, todo) else RegisterSwaps(job, todo)
  }

  predicate IsCaching(thread: Thread, url: Url, isNew: bool) {
    thread.NotifyAndCache? && thread.isNew == isNew && thread.job.url == url
  }

  /** What only records history decides nothing. */
  lemma HistoryIsIdle(s: State, visible: State, e: Event)
    requires visible == s.(due := {}, withdrawn := false) && Enabled(s, e)
    ensures Enabled(visible, e)
    ensures Step(visible, e) == Step(s, e).(due := Step(visible, e).due, withdrawn := Step(visible, e).withdrawn)
  {
  }

  /** A state of the run in which call `me` is about to execute the statement. */
  ghost predicate IsAt(start: State, s: State, me: nat, thread: Thread) {
    Reaches(start, s) && me in s.threads && s.threads[me] == thread
  }

  /** The address is new, or that of an unused swap that is handed out again. */
  predicate CanStore(s: State, a: Address, reverse: bool) {
    a !in s.known || (!reverse && a in s.swaps)
  }

  class BreezServices {
    var webhookUrl: Option<Url>
    var onchain: set<(Address, Url)>
    var swaps: set<Address>
    var lockups: set<Address>
    var known: set<Address>
    var threads: map<nat, Thread>
    var lsps: Registrations
    ghost var due: set<Address>
    ghost var withdrawn: bool

    constructor ()
      ensures World() == START && lsps == {}
    {
      lsps := {};
      webhookUrl, onchain, swaps, lockups, known := None, {}, {}, {}, {};
      threads, due, withdrawn := map[], {}, false;
    }

    ghost function World(): State
      reads this
    {
      State(webhookUrl, onchain, swaps, lockups, known, threads, due, withdrawn)
    }

    /** The state without its history. */
    function Visible(): State
      reads this
    {
      State(webhookUrl, onchain, swaps, lockups, known, threads, {}, false)
    }

    /** Somebody else's event happens. */
    method Happen(e: Event)
      requires Enabled(World(), e)
      modifies this
      ensures World() == Step(old(World()), e) && lsps == old(lsps)
    {
      HistoryIsIdle(World(), Visible(), e);
      ghost var next := Step(World(), e);
      var s := Step(Visible(), e);
      webhookUrl, onchain, swaps, lockups, known, threads := s.cache, s.onchain, s.swaps, s.lockups, s.known, s.threads;
      due, withdrawn := next.due, next.withdrawn;
    }

    /** Other calls act, swaps expire and swaps arrive. */
    method Await(me: nat, events: seq<Event>, ghost start: State)
      requires Reaches(start, World())
      modifies this
      ensures Reaches(start, World()) && (me in threads <==> me in old(threads)) && lsps == old(lsps)
      ensures me in threads ==> Statement(threads[me]) == Statement(old(threads[me]))
      ensures old(known) <= known && (events == [] ==> World() == old(World()))
    {
      for i := 0 to |events|
        invariant Reaches(start, World()) && (me in threads <==> me in old(threads)) && lsps == old(lsps)
        invariant me in threads ==> Statement(threads[me]) == Statement(old(threads[me]))
        invariant old(known) <= known && (i == 0 ==> World() == old(World()))
      {
        var e := events[i];
        if Foreign(me, e) && Enabled(Visible(), e) {
          OthersLeaveStatement(me, World(), e);
          ReachesStep(start, World(), e);
          Happen(e);
        }
      }
    }

    /** A set as the list that a query returns. */
    method Listed(addresses: set<Address>) returns (order: seq<Address>)
      ensures Elements(order) == addresses && |order| == |addresses|
    {
      order := [];
      var rest := addresses;
      while rest != {}
        invariant Elements(order) + rest == addresses && |order| + |rest| == |addresses|
      {
        var a :| a in rest;
        order, rest := order + [a], rest - {a};
      }
    }

    method RegisterOnchainTxNotification(address: Address, url: Url, outcome: Outcome) returns (ok: bool)
      modifies this`onchain
      ensures onchain == Took(old(onchain), address, url, outcome) && (ok <==> outcome.Done?)
    {
      if !outcome.Failed? {
        onchain := onchain + {(address, url)};
      }
      ok := outcome.Done?;
    }

    /** The call ends. */
    method End(me: nat)
      modifies this`threads
      ensures threads == old(threads) - {me}
    {
      threads := threads - {me};
    }

    method Begin(me: nat, thread: Thread, events: seq<Event>, ghost start: State)
      requires start == World() && Enabled(World(), Call(me, thread)) && Statement(thread) == thread
      modifies this
      ensures Reaches(start, World()) && me in threads && threads[me] == thread && lsps == old(lsps)
      ensures events == [] ==> World() == Next(start, me, thread)
    {
      ReachesSelf(start);
      ReachesStep(start, start, Call(me, thread));
      threads := threads[me := thread];
      Await(me, events, start);
    }

    /** A statement fails and so does the call. */
    method Abandon(me: nat, ghost start: State)
      requires Reaches(start, World()) && me in threads
      modifies this`threads
      ensures Reaches(start, World()) && me !in threads
    {
      ReachesStep(start, World(), Fail(me));
      End(me);
    }

    /**
    Stores the swap, reads the cached URL and registers the address there if there is one. `at` is the state
    in which it stores, `read` the one in which it reads the URL.
    */
    method CreateSwap(me: nat, address: Address, reverse: bool, net: Network)
      returns (ok: bool, url: Option<Url>, ghost at: State, ghost read: State)
      requires me !in threads
      modifies this
      ensures me !in threads && Reaches(old(World()), World())
      ensures IsAt(old(World()), at, me, Store(address, reverse))
      ensures CanStore(at, address, reverse) ==>
        && IsAt(old(World()), read, me, ReadUrl(address)) && address in read.known
        && url == read.cache && (ok <==> url.None? || net.outcome(0).Done?) && address in known
      ensures !CanStore(at, address, reverse) ==> !ok && url.None?
      ensures ok && url.Some? ==> (address, url.value) in onchain && address in due
      ensures Undisturbed(net) ==>
        && at == Next(old(World()), me, Store(address, reverse))
        && (CanStore(old(World()), address, reverse) ==>
              && url == old(webhookUrl) && webhookUrl == old(webhookUrl) && Live(World(), address)
              && onchain == if url.None? then old(onchain)
                            else Took(old(onchain), address, url.value, net.outcome(0)))
    {
      ghost var start := World();
      Begin(me, Store(address, reverse), net.others(0), start);
      ok, url, at, read := false, None, World(), World();
      if address in known && (reverse || address !in swaps) {
        Abandon(me, start);
        return;
      }
      StoreSwap(me, address, reverse, start);
      ok, url, read := AnnounceIfCached(me, address, net, start);
    }

    method AnnounceIfCached(me: nat, address: Address, net: Network, ghost start: State)
      returns (ok: bool, url: Option<Url>, ghost read: State)
      requires Reaches(start, World()) && me in threads && threads[me] == ReadUrl(address) && address in known
      modifies this
      ensures me !in threads && Reaches(start, World())
      ensures IsAt(start, read, me, ReadUrl(address)) && address in read.known && url == read.cache
      ensures (ok <==> url.None? || net.outcome(0).Done?) && old(known) <= known
      ensures ok && url.Some? ==> (address, url.value) in onchain && address in due
      ensures Undisturbed(net) ==>
        && url == old(webhookUrl)
        && (webhookUrl, swaps, lockups, known) == old((webhookUrl, swaps, lockups, known))
        && onchain == if url.None? then old(onchain) else Took(old(onchain), address, url.value, net.outcome(0))
    {
      Await(me, net.others(1), start);
      read := World();
      url := GetWebhookUrl(me, address, start);
      ok := true;
      if url.Some? {
        Await(me, net.others(2), start);
        ok := AnnounceSwap(me, address, url.value, net.outcome(0), start);
      }
    }

    /** Without a cached URL the creating call is done. */
    method GetWebhookUrl(me: nat, address: Address, ghost start: State) returns (url: Option<Url>)
      requires Reaches(start, World()) && me in threads && threads[me] == ReadUrl(address)
      modifies this`threads
      ensures Reaches(start, World()) && url == webhookUrl
      ensures if url.None? then me !in threads else me in threads && threads[me] == Announce(address, url.value)
    {
      ReachesStep(start, World(), Go(me, Done, []));
      url := webhookUrl;
      if url.None? {
        End(me);
      } else {
        threads := threads[me := Announce(address, url.value)];
      }
    }

    method StoreSwap(me: nat, address: Address, reverse: bool, ghost start: State)
      requires Reaches(start, World()) && me in threads && threads[me] == Store(address, reverse)
      requires address !in known || (!reverse && address in swaps)
      modifies this
      ensures Reaches(start, World()) && me in threads && threads[me] == ReadUrl(address)
      ensures address in known && address in (if reverse then lockups else swaps)
      ensures (webhookUrl, onchain, due) == old((webhookUrl, onchain, due))
    {
      ReachesStep(start, World(), Go(me, Done, []));
      if reverse {
        lockups := lockups + {address};
      } else {
        swaps := swaps + {address};
      }
      known := known + {address};
      threads := threads[me := ReadUrl(address)];
    }

    method AnnounceSwap(me: nat, address: Address, url: Url, outcome: Outcome, ghost start: State) returns (ok: bool)
      requires Reaches(start, World()) && me in threads && threads[me] == Announce(address, url)
      modifies this
      ensures Reaches(start, World()) && me !in threads && (ok <==> outcome.Done?)
      ensures ok ==> (address, url) in onchain && address in due
      ensures (webhookUrl, swaps, lockups, known) == old((webhookUrl, swaps, lockups, known))
      ensures onchain == Took(old(onchain), address, url, outcome)
    {
      ReachesStep(start, World(), Go(me, outcome, []));
      ok := RegisterOnchainTxNotification(address, url, outcome);
      if ok {
        due := due + {address};
      }
      End(me);
    }

    /** Removes the registrations at the URL, then with the LSPs, then the cached URL. */
    method UnregisterWebhook(me: nat, url: Url, net: Network) returns (ok: bool)
      requires me !in threads
      modifies this
      ensures me !in threads && Reaches(old(World()), World())
      ensures ok ==> webhookUrl == None && LackUrl(net, url, lsps)
      ensures ok <==> net.outcome(0).Done? && LspsAnswer(net)
      ensures Undisturbed(net) ==>
        && webhookUrl == (if ok then None else old(webhookUrl))
        && onchain == if net.outcome(0).Failed? then old(onchain) else set r | r in old(onchain) && r.1 != url
    {
      ghost var start := World();
      Begin(me, Unregister(url), net.others(0), start);
      ok := UnregisterOnchain(me, url, net.outcome(0), start);
      if ok {
        ok := UnregisterRest(me, url, net, start);
      }
    }

    /** The LSPs, and then the cached URL. */
    method UnregisterRest(me: nat, url: Url, net: Network, ghost start: State) returns (ok: bool)
      requires Reaches(start, World()) && me in threads && threads[me] == Forget(url)
      modifies this
      ensures me !in threads && Reaches(start, World())
      ensures ok ==> webhookUrl == None && LackUrl(net, url, lsps)
      ensures ok <==> LspsAnswer(net)
      ensures Undisturbed(net) ==>
        onchain == old(onchain) && webhookUrl == if ok then None else old(webhookUrl)
    {
      Await(me, net.others(1), start);
      ghost var before := lsps;
      ok := UnregisterPaymentNotifications(url, net);
      if net.lsps.Some? {
        UnregisterLspsIff(net.lsps.value, url, net, before);
      }
      ok := RemoveWebhookUrl(me, url, ok, start);
    }

    /** Every LSP is tried, and a failure of any is reported at the end. */
    method UnregisterPaymentNotifications(url: Url, net: Network) returns (ok: bool)
      modifies this`lsps
      ensures net.lsps.None? ==> !ok && lsps == old(lsps)
      ensures net.lsps.Some? ==> UnregisterLsps(net.lsps.value, url, net, old(lsps)) == LspProgress(ok, lsps)
    {
      if net.lsps.None? {
        return false;
      }
      var list, errorFound := net.lsps.value, false;
      for i := 0 to |list|
        invariant UnregisterLsps(list[..i], url, net, old(lsps)) == LspProgress(!errorFound, lsps)
      {
        assert list[..i + 1][..i] == list[..i];
        if !net.lsp(i).Failed? {
          lsps := lsps - {(list[i], url)};
        }
        lsps := AfterOthers(lsps, net.lspOthers(i));
        if !net.lsp(i).Done? {
          errorFound := true;
        }
      }
      assert list[..|list|] == list;
      ok := !errorFound;
    }

    method RemoveWebhookUrl(me: nat, url: Url, unregistered: bool, ghost start: State) returns (ok: bool)
      requires Reaches(start, World()) && me in threads && threads[me] == Forget(url)
      modifies this`webhookUrl, this`threads
      ensures Reaches(start, World()) && me !in threads && ok == unregistered
      ensures webhookUrl == if ok then None else old(webhookUrl)
    {
      ReachesStep(start, World(), Go(me, if unregistered then Done else Failed, []));
      ok := unregistered;
      if ok {
        webhookUrl := None;
      }
      End(me);
    }

    method UnregisterOnchain(me: nat, url: Url, outcome: Outcome, ghost start: State) returns (ok: bool)
      requires Reaches(start, World()) && me in threads && threads[me] == Unregister(url)
      modifies this
      ensures Reaches(start, World())
      ensures if ok then me in threads && threads[me] == Forget(url) else me !in threads
      ensures (ok <==> outcome.Done?) && webhookUrl == old(webhookUrl)
      ensures onchain == if outcome.Failed? then old(onchain) else set r | r in old(onchain) && r.1 != url
    {
      ReachesStep(start, World(), Go(me, outcome, []));
      ok := outcome.Done?;
      if !outcome.Failed? {
        onchain := set r | r in onchain && r.1 != url;
        threads := map t | t in threads :: Wiped(threads[t], url);
        withdrawn := withdrawn || webhookUrl == Some(url);
      }
      threads := if ok then threads[me := Forget(url)] else threads - {me};
    }

    /** Registers all swaps there are at a new URL, and the URL with the LSPs, and caches it. */
    method RegisterWebhook(me: nat, url: Url, net: Network) returns (ok: bool)
      requires me !in threads
      modifies this
      ensures me !in threads && Reaches(old(World()), World())
      ensures ok ==> webhookUrl == Some(url) && LspsAnswer(net) && HaveUrl(net, url, lsps)
      ensures (forall k :: net.outcome(k).Done?) && LspsAnswer(net) ==> ok
      ensures Undisturbed(net) ==>
        var isNew := old(webhookUrl) != Some(url);
        && (ok <==> (isNew ==> AllAnswered(net, |old(swaps)|, |old(lockups)|)) && LspsAnswer(net))
        && webhookUrl == (if ok then Some(url) else old(webhookUrl))
        && (ok ==> onchain == old(onchain) + if isNew then AllAt(old(swaps) + old(lockups), url) else {})
    {
      ghost var start := World();
      Begin(me, ReadCache(url), net.others(0), start);
      var isNew := IsNew(me, url, start);
      ok := RegisterIfNew(me, url, isNew, net, start);
      if ok {
        ok := NotifyAndCacheUrl(me, url, isNew, net, start);
      }
    }

    /** Every LSP is tried, and a failure of any is reported at the end. */
    method RegisterPaymentNotifications(url: Url, net: Network) returns (ok: bool)
      modifies this`lsps
      ensures net.lsps.None? ==> !ok && lsps == old(lsps)
      ensures net.lsps.Some? ==> RegisterLsps(net.lsps.value, url, net, old(lsps)) == LspProgress(ok, lsps)
    {
      if net.lsps.None? {
        return false;
      }
      var list, errorFound := net.lsps.value, false;
      for i := 0 to |list|
        invariant RegisterLsps(list[..i], url, net, old(lsps)) == LspProgress(!errorFound, lsps)
      {
        assert list[..i + 1][..i] == list[..i];
        if !net.lsp(i).Failed? {
          lsps := lsps + {(list[i], url)};
        }
        lsps := AfterOthers(lsps, net.lspOthers(i));
        if !net.lsp(i).Done? {
          errorFound := true;
        }
      }
      assert list[..|list|] == list;
      ok := !errorFound;
    }

    method RegisterIfNew(me: nat, url: Url, isNew: bool, net: Network, ghost start: State) returns (ok: bool)
      requires Reaches(start, World()) && me in threads
      requires threads[me] == if isNew then ListSwaps(url) else NotifyAndCache(Job(url, {}, {}, true), false)
      modifies this
      ensures Reaches(start, World())
      ensures if ok then me in threads && IsCaching(threads[me], url, isNew) else me !in threads
      ensures !isNew || (forall k :: net.outcome(k).Done?) ==> ok
      ensures Undisturbed(net) ==>
        && (webhookUrl, swaps, lockups) == old((webhookUrl, swaps, lockups))
        && (ok <==> (isNew ==> AllAnswered(net, |swaps|, |lockups|)))
        && (ok ==> onchain == old(onchain) + if isNew then AllAt(swaps + lockups, url) else {})
    {
      Await(me, net.others(1), start);
      ok := true;
      if isNew {
        ok := RegisterAll(me, url, net, start);
      }
    }

    method IsNew(me: nat, url: Url, ghost start: State) returns (isNew: bool)
      requires Reaches(start, World()) && me in threads && threads[me] == ReadCache(url)
      modifies this`threads
      ensures Reaches(start, World()) && isNew == (webhookUrl != Some(url)) && me in threads
      ensures threads[me] == if isNew then ListSwaps(url) else NotifyAndCache(Job(url, {}, {}, true), false)
    {
      ReachesStep(start, World(), Go(me, Done, []));
      isNew := webhookUrl != Some(url);
      threads := threads[me := if isNew then ListSwaps(url) else NotifyAndCache(Job(url, {}, {}, true), false)];
    }

    method NotifyAndCacheUrl(me: nat, url: Url, isNew: bool, net: Network, ghost start: State) returns (ok: bool)
      requires Reaches(start, World()) && me in threads
      requires IsCaching(threads[me], url, isNew)
      modifies this
      ensures Reaches(start, World()) && me !in threads
      ensures ok ==> webhookUrl == Some(url) && (isNew ==> due == swaps + lockups && !withdrawn)
      ensures ok ==> HaveUrl(net, url, lsps)
      ensures ok <==> LspsAnswer(net)
      ensures Undisturbed(net) ==> onchain == old(onchain) && (!ok ==> webhookUrl == old(webhookUrl))
    {
      Await(me, net.others(4), start);
      ghost var before := lsps;
      ok := RegisterPaymentNotifications(url, net);
      if net.lsps.Some? {
        RegisterLspsIff(net.lsps.value, url, net, before);
      }
      CacheUrl(me, url, isNew, ok, start);
    }

    /** Only cache the URL if all went well. */
    method CacheUrl(me: nat, url: Url, isNew: bool, registered: bool, ghost start: State)
      requires Reaches(start, World()) && me in threads && IsCaching(threads[me], url, isNew)
      modifies this`webhookUrl, this`due, this`withdrawn, this`threads
      ensures Reaches(start, World()) && me !in threads
      ensures registered ==> webhookUrl == Some(url) && (isNew ==> due == swaps + lockups && !withdrawn)
      ensures !registered ==> webhookUrl == old(webhookUrl)
    {
      ReachesStep(start, World(), Go(me, if registered then Done else Failed, []));
      if registered {
        if isNew || webhookUrl != Some(url) {
          due, withdrawn := swaps + lockups, false;
        }
        webhookUrl := Some(url);
      }
      End(me);
    }

    /** The unexpired swaps, and then the monitored reverse swaps. */
    method RegisterAll(me: nat, url: Url, net: Network, ghost start: State) returns (ok: bool)
      requires Reaches(start, World()) && me in threads && threads[me] == ListSwaps(url)
      modifies this
      ensures Reaches(start, World())
      ensures if ok then me in threads && IsCaching(threads[me], url, true) else me !in threads
      ensures (forall k :: net.outcome(k).Done?) ==> ok
      ensures Undisturbed(net) ==>
        && (webhookUrl, swaps, lockups) == old((webhookUrl, swaps, lockups))
        && (ok <==> AllAnswered(net, |swaps|, |lockups|))
        && (ok ==> onchain == old(onchain) + AllAt(swaps + lockups, url))
    {
      var job, list := ListUnexpired(me, url, start);
      ok := RegisterEach(me, false, job, list, net, start);
      if ok {
        ok := RegisterMonitored(me, job, net, start);
      }
    }

    method RegisterMonitored(me: nat, before: Job, net: Network, ghost start: State) returns (ok: bool)
      requires Reaches(start, World()) && me in threads
      requires Statement(threads[me]) == ListLockups(before) && before.intact
      modifies this
      ensures Reaches(start, World())
      ensures if ok then me in threads && IsCaching(threads[me], before.url, true) else me !in threads
      ensures (forall k :: net.outcome(k).Done?) ==> ok
      ensures Undisturbed(net) ==>
        && (webhookUrl, swaps, lockups) == old((webhookUrl, swaps, lockups))
        && (ok <==> Answered(net, true, |lockups|))
        && (ok ==> onchain == old(onchain) + AllAt(lockups, before.url))
    {
      Await(me, net.others(3), start);
      var job, list := ListMonitored(me, before, start);
      ok := RegisterEach(me, true, job, list, net, start);
    }

    method ListUnexpired(me: nat, url: Url, ghost start: State) returns (job: Job, list: seq<Address>)
      requires Reaches(start, World()) && me in threads && threads[me] == ListSwaps(url)
      modifies this`threads
      ensures Reaches(start, World()) && me in threads && threads[me] == RegisterSwaps(job, list)
      ensures job == Job(url, swaps, {}, true) && Elements(list) == swaps && |list| == |swaps|
    {
      list := Listed(swaps);
      ReachesStep(start, World(), Go(me, Done, list));
      job := Job(url, swaps, {}, true);
      threads := threads[me := RegisterSwaps(job, list)];
    }

    method ListMonitored(me: nat, before: Job, ghost start: State) returns (job: Job, list: seq<Address>)
      requires Reaches(start, World()) && me in threads
      requires Statement(threads[me]) == ListLockups(before) && before.intact
      modifies this`threads
      ensures Reaches(start, World()) && me in threads && Statement(threads[me]) == RegisterLockups(job, list)
      ensures job == before.(lockups := lockups) && Elements(list) == lockups && |list| == |lockups|
    {
      list := Listed(lockups);
      ReachesStep(start, World(), Go(me, Done, list));
      job := before.(lockups := lockups);
      threads := threads[me := RegisterLockups(threads[me].job.(lockups := lockups), list)];
    }

    /** Registers address after address and stops at the first failure. */
    method RegisterEach(me: nat, reverse: bool, job: Job, list: seq<Address>, net: Network, ghost start: State)
      returns (ok: bool)
      requires Reaches(start, World()) && me in threads && job.intact
      requires Statement(threads[me]) == if reverse then RegisterLockups(job, list) else RegisterSwaps(job, list)
      modifies this
      ensures Reaches(start, World())
      ensures if !ok then me !in threads
        else me in threads && Statement(threads[me]) == if reverse then NotifyAndCache(job, true) else ListLockups(job)
      ensures ok <==> Answered(net, reverse, |list|)
      ensures Undisturbed(net) ==>
        && (webhookUrl, swaps, lockups) == old((webhookUrl, swaps, lockups))
        && (ok ==> onchain == old(onchain) + AllAt(Elements(list), job.url))
    {
      ok := RegisterListed(me, reverse, job, list, net, start);
      if ok {
        EndList(me, reverse, job, start);
      }
    }

    /** The loop. */
    method RegisterListed(me: nat, reverse: bool, job: Job, list: seq<Address>, net: Network, ghost start: State)
      returns (ok: bool)
      requires Reaches(start, World()) && me in threads && job.intact && IsListing(threads[me], reverse, job, list)
      modifies this
      ensures Reaches(start, World())
      ensures if ok then me in threads && IsListing(threads[me], reverse, job, []) else me !in threads
      ensures ok <==> Answered(net, reverse, |list|)
      ensures Undisturbed(net) ==>
        && (webhookUrl, swaps, lockups) == old((webhookUrl, swaps, lockups))
        && (ok ==> onchain == old(onchain) + AllAt(Elements(list), job.url))
    {
      for i := 0 to |list|
        invariant Reaches(start, World()) && me in threads && IsListing(threads[me], reverse, job, list[i..])
        invariant Answered(net, reverse, i)
        invariant Undisturbed(net) ==>
          && (webhookUrl, swaps, lockups) == old((webhookUrl, swaps, lockups))
          && onchain == old(onchain) + AllAt(Elements(list[..i]), job.url)
      {
        OneMoreAt(old(onchain), list, i, job.url);
        assert list[i..][1..] == list[i + 1..];
        ok := RegisterNext(me, reverse, job, list[i..], net.others(i + 5), net.outcome(Slot(reverse, i)), start);
        if !ok {
          return;
        }
      }
      assert list[|list|..] == [] && list[..|list|] == list;
      ok := true;
    }

    method RegisterNext(me: nat, reverse: bool, job: Job, todo: seq<Address>, events: seq<Event>, outcome: Outcome,
                        ghost start: State)
      returns (ok: bool)
      requires Reaches(start, World()) && me in threads && job.intact && todo != []
      requires IsListing(threads[me], reverse, job, todo)
      modifies this
      ensures Reaches(start, World()) && (ok <==> outcome.Done?)
      ensures if ok then me in threads && IsListing(threads[me], reverse, job, todo[1..]) else me !in threads
      ensures events == [] ==>
        && (webhookUrl, swaps, lockups) == old((webhookUrl, swaps, lockups))
        && onchain == Took(old(onchain), todo[0], job.url, outcome)
    {
      Await(me, events, start);
      ok := RegisterOne(me, reverse, job, todo, outcome, start);
    }

    method EndList(me: nat, reverse: bool, job: Job, ghost start: State)
      requires Reaches(start, World()) && me in threads && job.intact
      requires Statement(threads[me]) == if reverse then RegisterLockups(job, []) else RegisterSwaps(job, [])
      modifies this`threads
      ensures Reaches(start, World()) && me in threads
      ensures Statement(threads[me]) == if reverse then NotifyAndCache(job, true) else ListLockups(job)
    {
      ReachesStep(start, World(), Go(me, Done, []));
      threads := threads[me :=
        if reverse then NotifyAndCache(threads[me].job, true) else ListLockups(threads[me].job)];
    }

    method RegisterOne(me: nat, reverse: bool, job: Job, todo: seq<Address>, outcome: Outcome, ghost start: State)
      returns (ok: bool)
      requires Reaches(start, World()) && me in threads && job.intact && todo != []
      requires Statement(threads[me]) == if reverse then RegisterLockups(job, todo) else RegisterSwaps(job, todo)
      modifies this
      ensures Reaches(start, World())
      ensures if !ok then me !in threads
        else
          && me in threads && (todo[0], job.url) in onchain
          && Statement(threads[me]) ==
             if reverse then RegisterLockups(job, todo[1..]) else RegisterSwaps(job, todo[1..])
      ensures (ok <==> outcome.Done?) && (webhookUrl, swaps, lockups) == old((webhookUrl, swaps, lockups))
      ensures onchain == Took(old(onchain), todo[0], job.url, outcome)
    {
      ReachesStep(start, World(), Go(me, outcome, []));
      ok := RegisterOnchainTxNotification(todo[0], job.url, outcome);
      if ok {
        var now := threads[me].job;
        threads := threads[me := if reverse then RegisterLockups(now, todo[1..]) else RegisterSwaps(now, todo[1..])];
      } else {
        End(me);
      }
    }
  }
}
