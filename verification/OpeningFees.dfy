/** Channel opening fees: the menu of an LSP, the entry that is chosen, the quote and the charge. */
module OpeningFees {
  import opened Options

  const U64: nat := 0x1_0000_0000_0000_0000
  const SWAP_FEE_EXPIRY_SECONDS: nat := 60 * 60 * 24 * 2
  const INVOICE_FEE_EXPIRY_SECONDS: nat := 60 * 60
  const HOURS_48: nat := 48 * 60 * 60

  /** `validUntil` is the parsed date, in seconds; absent when the text is not a date. */
  datatype FeeParams = FeeParams(minMsat: nat, proportional: nat, validUntil: Option<int>)

  datatype Error = MenuNotOrdered | MenuExpired | BadDate | EmptyMenu | InvalidAmount | NoSuchParams | Overflow

  /** The opening fee for an amount; `None` when the product leaves 64 bits. */
  function FeeFor(p: FeeParams, amount: nat): Option<nat> {
    if amount * p.proportional >= U64 then None
    else
      var fee := amount * p.proportional / 1_000_000;
      var wholeSats := fee / 1000 * 1000;
      Some(if wholeSats >= p.minMsat then wholeSats else p.minMsat)
  }

  // ----- Menu validation

  /** The pairwise check: no field decreases and one increases. */
  predicate Ascends(a: FeeParams, b: FeeParams) {
    || (a.minMsat < b.minMsat && a.proportional == b.proportional)
    || (a.minMsat == b.minMsat && a.proportional < b.proportional)
    || (a.minMsat < b.minMsat && a.proportional < b.proportional)
  }

  predicate Ordered(menu: seq<FeeParams>) {
    forall i :: 0 <= i < |menu| - 1 ==> Ascends(menu[i], menu[i + 1])
  }

  predicate Expired(menu: seq<FeeParams>, now: int) {
    exists i :: 0 <= i < |menu| && menu[i].validUntil.Some? && now > menu[i].validUntil.value
  }

  function Validate(menu: seq<FeeParams>, now: int): Result<(), Error> {
    if !Ordered(menu) then Err(MenuNotOrdered)
    else if Expired(menu, now) then Err(MenuExpired)
    else Ok(())
  }

  /** A menu is accepted exactly when later entries never cost less in any field, and differ, and no date has passed. */
  lemma ValidateIff(menu: seq<FeeParams>, now: int)
    ensures Validate(menu, now).Ok? <==>
      && (forall i, j :: 0 <= i < j < |menu| ==>
            && menu[i].minMsat <= menu[j].minMsat && menu[i].proportional <= menu[j].proportional
            && (menu[i].minMsat != menu[j].minMsat || menu[i].proportional != menu[j].proportional))
      && (forall i :: 0 <= i < |menu| ==> menu[i].validUntil.None? || now <= menu[i].validUntil.value)
    ensures Validate(menu, now) == Err(MenuExpired) ==>
      exists i :: 0 <= i < |menu| && menu[i].validUntil.Some? && menu[i].validUntil.value < now
    ensures Validate(menu, now).Err? ==> Validate(menu, now) in [Err(MenuExpired), Err(MenuNotOrdered)]
    ensures Validate(menu, now) == Err(MenuNotOrdered) <==>
      !forall i, j :: 0 <= i < j < |menu| ==> Ascends(menu[i], menu[j])
  {
    OrderedIff(menu);
  }

  // ----- Choosing an entry

  predicate ValidFor(p: FeeParams, expiry: nat, now: int) {
    p.validUntil.Some? && p.validUntil.value > now + expiry
  }

  /** The first entry valid for the period, and the last entry when none is; a bad date on the way is an error. */
  function Cheapest(menu: seq<FeeParams>, expiry: nat, now: int): Result<FeeParams, Error> {
    if menu == [] then Err(EmptyMenu)
    else if menu[0].validUntil.None? then Err(BadDate)
    else if ValidFor(menu[0], expiry, now) || |menu| == 1 then Ok(menu[0])
    else Cheapest(menu[1..], expiry, now)
  }

  /**
  When the entries before `i` have dates that come too early, entry `i` decides: a bad date is an error, and
  an entry that lives longer than the period, or is the last, is the answer.
  */
  lemma {:induction false} CheapestIs(menu: seq<FeeParams>, expiry: nat, now: int, i: nat)
    requires i <= |menu|
    requires forall j :: 0 <= j < i ==> menu[j].validUntil.Some? && menu[j].validUntil.value <= now + expiry
    ensures menu == [] ==> Cheapest(menu, expiry, now) == Err(EmptyMenu)
    ensures i < |menu| && menu[i].validUntil.None? ==> Cheapest(menu, expiry, now) == Err(BadDate)
    ensures i < |menu| && menu[i].validUntil.Some? && (menu[i].validUntil.value > now + expiry || i == |menu| - 1) ==>
      Cheapest(menu, expiry, now) == Ok(menu[i])
    decreases i
  {
    if 0 < i < |menu| {
      CheapestIs(menu[1..], expiry, now, i - 1);
    }
  }

  /** `i` is the first valid entry and every date up to it parses. */
  predicate FirstValid(menu: seq<FeeParams>, expiry: nat, now: int, i: nat) {
    && i < |menu| && ValidFor(menu[i], expiry, now)
    && forall j :: 0 <= j < i ==> menu[j].validUntil.Some? && !ValidFor(menu[j], expiry, now)
  }

  lemma {:induction false} CheapestIsFirstValid(menu: seq<FeeParams>, expiry: nat, now: int, i: nat)
    requires FirstValid(menu, expiry, now, i)
    ensures Cheapest(menu, expiry, now) == Ok(menu[i])
    decreases i
  {
    if i > 0 {
      CheapestIsFirstValid(menu[1..], expiry, now, i - 1);
    }
  }

  /** When no entry is valid and all dates parse, the last entry is returned all the same. */
  lemma {:induction false} CheapestFallsBack(menu: seq<FeeParams>, expiry: nat, now: int)
    requires menu != [] && forall j :: 0 <= j < |menu| ==> menu[j].validUntil.Some? && !ValidFor(menu[j], expiry, now)
    ensures Cheapest(menu, expiry, now) == Ok(menu[|menu| - 1])
  {
    if |menu| > 1 {
      CheapestFallsBack(menu[1..], expiry, now);
    }
  }

  lemma {:induction false} NeighboursAscend(menu: seq<FeeParams>, i: nat, j: nat)
    requires Ordered(menu) && i < j < |menu|
    ensures Ascends(menu[i], menu[j])
    decreases j - i
  {
    assert Ascends(menu[j - 1], menu[j - 1 + 1]);
    if i < j - 1 {
      NeighboursAscend(menu, i, j - 1);
    }
  }

  /** Checking neighbours is as strong as checking every pair of entries. */
  lemma OrderedIff(menu: seq<FeeParams>)
    ensures Ordered(menu) <==> forall i, j :: 0 <= i < j < |menu| ==> Ascends(menu[i], menu[j])
  {
    if Ordered(menu) {
      forall i, j | 0 <= i < j < |menu| ensures Ascends(menu[i], menu[j]) {
        NeighboursAscend(menu, i, j);
      }
    }
  }

  /**
  There is a fee exactly when the product fits in 64 bits. It is the larger of the minimum and the largest
  number of whole satoshis within the rate's share.
  */
  lemma FeeIsExact(p: FeeParams, amount: nat, sats: nat)
    ensures FeeFor(p, amount).Some? <==> amount * p.proportional <= 0xffff_ffff_ffff_ffff
    ensures FeeFor(p, amount).Some? ==>
      var fee := FeeFor(p, amount).value;
      && fee >= p.minMsat
      && (1_000_000 * (1000 * sats) <= amount * p.proportional ==> 1000 * sats <= fee)
      && (fee > p.minMsat ==> fee % 1000 == 0 && 1_000_000 * fee <= amount * p.proportional)
  {
    var x := amount * p.proportional;
    assert 1_000_000 * (x / 1_000_000) <= x < 1_000_000 * (x / 1_000_000 + 1);
    if 1_000_000 * (1000 * sats) <= x {
      assert 1000 * sats <= x / 1_000_000;
      assert sats <= x / 1_000_000 / 1000;
    }
  }

  lemma ProductIsMonotone(amount: nat, a: nat, b: nat)
    requires a <= b
    ensures amount * a <= amount * b
  {
  }

  /** Down to a millionth and then down to whole satoshis. */
  lemma RoundingIsMonotone(x: nat, y: nat)
    requires x <= y
    ensures x / 1_000_000 / 1000 * 1000 <= y / 1_000_000 / 1000 * 1000
  {
    assert x / 1_000_000 <= y / 1_000_000;
  }

  lemma FeeIsMonotone(p: FeeParams, q: FeeParams, amount: nat)
    requires p.minMsat <= q.minMsat && p.proportional <= q.proportional && FeeFor(q, amount).Some?
    ensures FeeFor(p, amount).Some? && FeeFor(p, amount).value <= FeeFor(q, amount).value
  {
    var x, y := amount * p.proportional, amount * q.proportional;
    ProductIsMonotone(amount, p.proportional, q.proportional);
    RoundingIsMonotone(x, y);
  }

  /** In a validated menu the chosen entry is the cheapest valid one, for every amount at once. */
  lemma CheapestForEveryAmount(menu: seq<FeeParams>, expiry: nat, now: int, other: nat, amount: nat)
    requires Validate(menu, now).Ok? && forall i :: 0 <= i < |menu| ==> menu[i].validUntil.Some?
    requires other < |menu| && ValidFor(menu[other], expiry, now) && FeeFor(menu[other], amount).Some?
    ensures Cheapest(menu, expiry, now).Ok? && ValidFor(Cheapest(menu, expiry, now).value, expiry, now)
    ensures var fee := FeeFor(Cheapest(menu, expiry, now).value, amount);
      fee.Some? && fee.value <= FeeFor(menu[other], amount).value
  {
    var i := FindFirstValid(menu, expiry, now, other);
    CheapestIsFirstValid(menu, expiry, now, i);
    OrderedIff(menu);
    FeeIsMonotone(menu[i], menu[other], amount);
  }

  lemma {:induction false} FindFirstValid(menu: seq<FeeParams>, expiry: nat, now: int, other: nat) returns (i: nat)
    requires other < |menu| && ValidFor(menu[other], expiry, now)
    requires forall j :: 0 <= j < other ==> menu[j].validUntil.Some?
    ensures i <= other && FirstValid(menu, expiry, now, i)
  {
    i := 0;
    while !ValidFor(menu[i], expiry, now)
      invariant i <= other && forall j :: 0 <= j < i ==> !ValidFor(menu[j], expiry, now)
      decreases other - i
    {
      i := i + 1;
    }
  }

  // ----- The 48 hour entry

  /** Entries whose date does not parse are skipped here. */
  function Filter48h(menu: seq<FeeParams>, now: int): seq<FeeParams> {
    if menu == [] then []
    else if menu[0].validUntil.Some? && menu[0].validUntil.value - now > HOURS_48
    then [menu[0]] + Filter48h(menu[1..], now)
    else Filter48h(menu[1..], now)
  }

  function Get48h(menu: seq<FeeParams>, now: int): Result<FeeParams, Error> {
    var valid := Filter48h(menu, now);
    if valid == [] then Err(NoSuchParams) else Ok(valid[0])
  }

  /** The first entry that lives longer than 172,800 seconds, dates that do not parse being skipped. */
  lemma {:induction false} Get48hIs(menu: seq<FeeParams>, now: int, i: nat)
    requires i <= |menu|
    requires forall j :: 0 <= j < i ==> menu[j].validUntil.None? || menu[j].validUntil.value <= now + 172_800
    ensures i == |menu| ==> Get48h(menu, now) == Err(NoSuchParams)
    ensures i < |menu| && menu[i].validUntil.Some? && menu[i].validUntil.value > now + 172_800 ==>
      Get48h(menu, now) == Ok(menu[i])
    decreases i
  {
    if i > 0 {
      Get48hIs(menu[1..], now, i - 1);
    }
  }

  lemma {:induction false} Get48hIsFirst(menu: seq<FeeParams>, now: int)
    ensures Get48h(menu, now).Ok? <==> exists i :: 0 <= i < |menu| && ValidFor(menu[i], HOURS_48, now)
    ensures Get48h(menu, now).Ok? ==>
      exists i :: && 0 <= i < |menu| && Get48h(menu, now).value == menu[i] && ValidFor(menu[i], HOURS_48, now)
                  && forall j :: 0 <= j < i ==> !ValidFor(menu[j], HOURS_48, now)
  {
    if menu != [] {
      Get48hIsFirst(menu[1..], now);
      if ValidFor(menu[0], HOURS_48, now) {
        assert Get48h(menu, now).value == menu[0];
      } else {
        assert Get48h(menu, now) == Get48h(menu[1..], now);
        forall i | 0 < i < |menu| ensures menu[i] == menu[1..][i - 1] {
        }
        if Get48h(menu, now).Ok? {
          var k :| && 0 <= k < |menu[1..]| && Get48h(menu[1..], now).value == menu[1..][k]
                   && ValidFor(menu[1..][k], HOURS_48, now)
                   && forall j :: 0 <= j < k ==> !ValidFor(menu[1..][j], HOURS_48, now);
          assert menu[k + 1] == menu[1..][k];
          assert forall j :: 0 < j < k + 1 ==> menu[j] == menu[1..][j - 1];
        }
      }
    }
  }

  lemma {:induction false} CheapestErrors(menu: seq<FeeParams>, expiry: nat, now: int)
    ensures Cheapest(menu, expiry, now) in [Err(EmptyMenu), Err(BadDate)] || Cheapest(menu, expiry, now).Ok?
  {
    if menu != [] {
      CheapestErrors(menu[1..], expiry, now);
    }
  }

  /** For two days both searches agree exactly when some entry lives that long and every date before it parses. */
  lemma AgreeAt48h(menu: seq<FeeParams>, now: int)
    ensures Cheapest(menu, SWAP_FEE_EXPIRY_SECONDS, now) == Get48h(menu, now) <==>
      exists i :: FirstValid(menu, HOURS_48, now, i)
  {
    Get48hIsFirst(menu, now);
    if Get48h(menu, now).Err? {
      CheapestErrors(menu, SWAP_FEE_EXPIRY_SECONDS, now);
      return;
    }
    var i :| && 0 <= i < |menu| && Get48h(menu, now).value == menu[i] && ValidFor(menu[i], HOURS_48, now)
             && forall j :: 0 <= j < i ==> !ValidFor(menu[j], HOURS_48, now);
    if k :| FirstValid(menu, HOURS_48, now, k) {
      CheapestIsFirstValid(menu, HOURS_48, now, k);
      assert k == i;
    } else {
      assert !FirstValid(menu, HOURS_48, now, i);
      var bad :| 0 <= bad < i && menu[bad].validUntil.None?;
      BadDateStops(menu, HOURS_48, now, bad);
    }
  }

  lemma {:induction false} BadDateStops(menu: seq<FeeParams>, expiry: nat, now: int, bad: nat)
    requires bad < |menu| && menu[bad].validUntil.None?
    requires forall j :: 0 <= j < bad ==> !ValidFor(menu[j], expiry, now)
    ensures Cheapest(menu, expiry, now) == Err(BadDate)
    decreases bad
  {
    if bad > 0 && menu[0].validUntil.Some? {
      BadDateStops(menu[1..], expiry, now, bad - 1);
    }
  }

  // ----- Quote and charge

  /** What `open_channel_fee` answers: the fee for the amount, if one was given, and the entry. */
  function OpenChannelFee(menu: seq<FeeParams>, receivable: nat, expiry: Option<nat>, amount: Option<nat>, now: int)
    : Result<(Option<nat>, FeeParams), Error>
  {
    var params := Cheapest(menu, if expiry.Some? then expiry.value else INVOICE_FEE_EXPIRY_SECONDS, now);
    if params.Err? then Err(params.error)
    else if amount.None? then Ok((None, params.value))
    else if receivable >= amount.value then Ok((Some(0), params.value))
    else if FeeFor(params.value, amount.value).None? then Err(Overflow)
    else Ok((FeeFor(params.value, amount.value), params.value))
  }

  /** What `receive_payment` settles before it creates the invoice: the entry and the fee, if a channel is needed. */
  function ReceivePayment(
    menu: seq<FeeParams>, receivable: nat, amount: nat, requested: Option<FeeParams>, expiry: Option<nat>, now: int)
    : Result<(Option<FeeParams>, Option<nat>), Error>
  {
    if amount == 0 then Err(InvalidAmount)
    else if receivable >= amount then Ok((None, None))
    else
      var params :=
        if requested.Some? then Ok(requested.value)
        else Cheapest(menu, if expiry.Some? then expiry.value else INVOICE_FEE_EXPIRY_SECONDS, now);
      if params.Err? then Err(params.error)
      else
        var fee := FeeFor(params.value, amount);
        if fee.None? || fee.value + 1000 >= U64 then Err(Overflow)
        else if amount < fee.value + 1000 then Err(InvalidAmount)
        else Ok((Some(params.value), fee))
  }

  /** The entry that the call uses: the requested one, else the cheapest for the expiry, an hour by default. */
  ghost predicate Uses(
    menu: seq<FeeParams>, requested: Option<FeeParams>, expiry: Option<nat>, now: int, p: Result<FeeParams, Error>)
  {
    && (requested.Some? ==> p == Ok(requested.value))
    && (requested.None? && expiry.Some? ==> p == Cheapest(menu, expiry.value, now))
    && (requested.None? && expiry.None? ==> p == Cheapest(menu, 3600, now))
  }

  /**
  A receive is accepted exactly when the amount is positive and either can be received as it is, or the entry
  has a fee that leaves a satoshi of the amount.
  */
  lemma ReceiveIff(menu: seq<FeeParams>, receivable: nat, amount: nat, requested: Option<FeeParams>,
                   expiry: Option<nat>, now: int, p: Result<FeeParams, Error>)
    requires amount <= 0xffff_ffff_ffff_ffff && Uses(menu, requested, expiry, now, p)
    ensures var r := ReceivePayment(menu, receivable, amount, requested, expiry, now);
      var fee := if p.Ok? then FeeFor(p.value, amount) else None;
      && (r.Ok? <==> amount > 0 && (amount <= receivable || (fee.Some? && fee.value + 1000 <= amount)))
      && (r.Ok? && amount <= receivable ==> r.value == (None, None))
      && (r.Ok? && amount > receivable ==> r.value == (Some(p.value), fee))
      && (amount > receivable && p.Err? ==> r == Err(p.error))
      && (amount == 0 || (amount > receivable && fee.Some? && amount < fee.value + 1000 <= 0xffff_ffff_ffff_ffff) ==>
            r == Err(InvalidAmount))
  {
  }

  /** The quote: no fee without an amount, zero when no channel is needed, and the entry's fee otherwise. */
  lemma QuoteIs(menu: seq<FeeParams>, receivable: nat, expiry: Option<nat>, amount: Option<nat>, now: int,
                p: Result<FeeParams, Error>)
    requires Uses(menu, None, expiry, now, p)
    ensures var r := OpenChannelFee(menu, receivable, expiry, amount, now);
      && (p.Err? ==> r == Err(p.error))
      && (p.Ok? && amount.None? ==> r == Ok((None, p.value)))
      && (p.Ok? && amount.Some? && amount.value <= receivable ==> r == Ok((Some(0), p.value)))
      && (p.Ok? && amount.Some? && amount.value > receivable ==>
            if FeeFor(p.value, amount.value).Some? then r == Ok((FeeFor(p.value, amount.value), p.value))
            else r == Err(Overflow))
  {
  }

  /** For the same LSP, limit, expiry and clock, a receive without chosen parameters charges what was quoted. */
  lemma QuoteIsCharge(menu: seq<FeeParams>, receivable: nat, amount: nat, expiry: Option<nat>, now: int)
    requires ReceivePayment(menu, receivable, amount, None, expiry, now).Ok?
    ensures var (params, fee) := ReceivePayment(menu, receivable, amount, None, expiry, now).value;
      var quote := OpenChannelFee(menu, receivable, expiry, Some(amount), now);
      && (quote.Ok? ==> quote.value.0 == Some(if fee.Some? then fee.value else 0))
      && (quote.Ok? && params.Some? ==> quote.value.1 == params.value)
      && (quote.Err? ==> receivable >= amount && fee.None?)
  {
  }

  /** An accepted receive that opens a channel leaves at least one satoshi after the fee. */
  lemma ReceiveLeavesASat(
    menu: seq<FeeParams>, receivable: nat, amount: nat, requested: Option<FeeParams>, expiry: Option<nat>, now: int)
    requires ReceivePayment(menu, receivable, amount, requested, expiry, now).Ok?
    ensures var (params, fee) := ReceivePayment(menu, receivable, amount, requested, expiry, now).value;
      && (params.Some? <==> fee.Some?)
      && (fee.Some? <==> amount > receivable)
      && (fee.Some? ==> amount - fee.value >= 1000 && fee.value >= params.value.minMsat)
  {
  }
}
