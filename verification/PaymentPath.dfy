/**
Amounts along a payment path: what arrives at the last hop, and what has to enter the first one.

Amounts are millisatoshi. The functions on natural numbers say what is meant; the methods run the
source's loops on 64-bit words, where a step that leaves the range has no answer.
*/
module PaymentPath {
  import opened Options

  const MILLION: nat := 1_000_000
  const U64: nat := 0x1_0000_0000_0000_0000

  datatype Edge = Edge(base: nat, ppm: nat)

  // ----- One hop

  function DivCeil(n: nat, q: nat): nat
    requires q > 0
  {
    (n + q - 1) / q
  }

  function AmountToForward(e: Edge, amount: nat): nat
    requires amount >= e.base
  {
    DivCeil(MILLION * (amount - e.base), MILLION + e.ppm)
  }

  function AmountFromForward(e: Edge, forward: nat): nat {
    e.base + forward * (MILLION + e.ppm) / MILLION
  }

  /** The fee of section "HTLC Fees" of BOLT 7, on the amount the hop forwards. */
  function HopFee(e: Edge, forward: nat): nat {
    e.base + forward * e.ppm / MILLION
  }

  // ----- A path: the hops after the first edge

  /** The amount covers the base fee of every hop it meets. */
  predicate Covered(hops: seq<Edge>, amount: nat) {
    hops == [] || (amount >= hops[0].base && Covered(hops[1..], AmountToForward(hops[0], amount)))
  }

  function FinalAmount(hops: seq<Edge>, amount: nat): nat
    requires Covered(hops, amount)
  {
    if hops == [] then amount else FinalAmount(hops[1..], AmountToForward(hops[0], amount))
  }

  function FirstAmount(hops: seq<Edge>, amount: nat): nat {
    if hops == [] then amount else AmountFromForward(hops[0], FirstAmount(hops[1..], amount))
  }

  function TotalFees(hops: seq<Edge>, amount: nat): nat {
    if hops == [] then 0 else HopFee(hops[0], FirstAmount(hops[1..], amount)) + TotalFees(hops[1..], amount)
  }

  // ----- The pair of roundings

  lemma MulMono(q: nat, a: nat, b: nat)
    requires a <= b
    ensures q * a <= q * b
  {
  }

  lemma DivCeilAdjoint(n: nat, q: nat, y: nat)
    requires q > 0
    ensures DivCeil(n, q) <= y <==> n <= q * y
  {
    var t := DivCeil(n, q);
    assert q * t <= n + q - 1 < q * t + q;
    if t <= y {
      MulMono(q, t, y);
    } else {
      MulMono(q, y + 1, t);
      assert q * (y + 1) == q * y + q;
    }
  }

  /** Rounding up going forward and rounding down going back are adjoint. */
  lemma EdgeAdjoint(e: Edge, amount: nat, y: nat)
    requires amount >= e.base
    ensures AmountToForward(e, amount) <= y <==> amount <= AmountFromForward(e, y)
  {
    DivCeilAdjoint(MILLION * (amount - e.base), MILLION + e.ppm, y);
    assert y * (MILLION + e.ppm) == (MILLION + e.ppm) * y;
  }

  lemma {:induction false} PathAdjoint(hops: seq<Edge>, amount: nat, y: nat)
    requires Covered(hops, amount)
    ensures FinalAmount(hops, amount) <= y <==> amount <= FirstAmount(hops, y)
    decreases |hops|
  {
    if hops != [] {
      PathAdjoint(hops[1..], AmountToForward(hops[0], amount), y);
      EdgeAdjoint(hops[0], amount, FirstAmount(hops[1..], y));
    }
  }

  lemma SplitRate(forward: nat, ppm: nat)
    ensures forward * (MILLION + ppm) / MILLION == forward + forward * ppm / MILLION
  {
    assert forward * (MILLION + ppm) == forward * MILLION + forward * ppm;
  }

  lemma EdgeRoundTrip(e: Edge, y: nat)
    ensures AmountFromForward(e, y) >= e.base && AmountToForward(e, AmountFromForward(e, y)) == y
  {
    var amount := AmountFromForward(e, y);
    EdgeAdjoint(e, amount, y);
    if y > 0 {
      EdgeAdjoint(e, amount, y - 1);
      SplitRate(y, e.ppm);
      SplitRate(y - 1, e.ppm);
      assert y * e.ppm == (y - 1) * e.ppm + e.ppm;
    }
  }

  /** Paying what the path asks for delivers exactly the amount it was asked for. */
  lemma {:induction false} PathRoundTrip(hops: seq<Edge>, y: nat)
    ensures Covered(hops, FirstAmount(hops, y)) && FinalAmount(hops, FirstAmount(hops, y)) == y
    decreases |hops|
  {
    if hops != [] {
      EdgeRoundTrip(hops[0], FirstAmount(hops[1..], y));
      PathRoundTrip(hops[1..], y);
    }
  }

  // ----- How much is asked for beyond what was offered

  function ChargedHops(hops: seq<Edge>): nat {
    if hops == [] then 0 else (if hops[0].ppm > 0 then 1 else 0) + ChargedHops(hops[1..])
  }

  function Pow2(n: nat): nat {
    if n == 0 then 1 else 2 * Pow2(n - 1)
  }

  lemma FromForwardGrows(e: Edge, x: nat, d: nat)
    requires e.ppm <= MILLION
    ensures AmountFromForward(e, x + d) <= AmountFromForward(e, x) + 2 * d
    ensures e.ppm == 0 ==> AmountFromForward(e, x + d) == AmountFromForward(e, x) + d
  {
    SplitRate(x + d, e.ppm);
    SplitRate(x, e.ppm);
    assert (x + d) * e.ppm == x * e.ppm + d * e.ppm;
    MulMono(d, e.ppm, MILLION);
  }

  lemma EdgeExcess(e: Edge, amount: nat)
    requires amount >= e.base && e.ppm <= MILLION
    ensures amount <= AmountFromForward(e, AmountToForward(e, amount)) <= amount + 1
    ensures e.ppm == 0 ==> AmountFromForward(e, AmountToForward(e, amount)) == amount
  {
    var t := AmountToForward(e, amount);
    EdgeAdjoint(e, amount, t);
    if t > 0 {
      EdgeAdjoint(e, amount, t - 1);
      FromForwardGrows(e, t - 1, 1);
    }
  }

  /** An excess of `d` behind the hop is at most `2 * d + 1` in front of it, and `d` if the hop charges no rate. */
  lemma EdgeExcessFrom(e: Edge, amount: nat, d: nat)
    requires amount >= e.base && e.ppm <= MILLION
    ensures var before := AmountFromForward(e, AmountToForward(e, amount) + d);
      amount <= before <= amount + 2 * d + 1 && (e.ppm == 0 ==> before == amount + d)
  {
    var t := AmountToForward(e, amount);
    EdgeExcess(e, amount);
    FromForwardGrows(e, t, d);
    FromForwardMonotone(e, t, d);
  }

  lemma FromForwardMonotone(e: Edge, x: nat, d: nat)
    ensures AmountFromForward(e, x) <= AmountFromForward(e, x + d)
  {
    SplitRate(x + d, e.ppm);
    SplitRate(x, e.ppm);
    assert (x + d) * e.ppm == x * e.ppm + d * e.ppm;
  }

  /** Offering `amount` and paying for what it delivers costs at most `2^n - 1` more over `n` charged hops. */
  lemma {:induction false} PathExcess(hops: seq<Edge>, amount: nat)
    requires Covered(hops, amount) && forall i :: 0 <= i < |hops| ==> hops[i].ppm <= MILLION
    ensures amount <= FirstAmount(hops, FinalAmount(hops, amount)) <= amount + Pow2(ChargedHops(hops)) - 1
    decreases |hops|
  {
    if hops != [] {
      var e, rest := hops[0], hops[1..];
      var t := AmountToForward(e, amount);
      PathExcess(rest, t);
      EdgeExcessFrom(e, amount, FirstAmount(rest, FinalAmount(rest, t)) - t);
    }
  }

  /** Going there and back a second time changes nothing more. */
  lemma PathIdempotent(hops: seq<Edge>, amount: nat)
    requires Covered(hops, amount)
    ensures var settled := FirstAmount(hops, FinalAmount(hops, amount));
      Covered(hops, settled) && FirstAmount(hops, FinalAmount(hops, settled)) == settled
  {
    PathRoundTrip(hops, FinalAmount(hops, amount));
  }

  /** What enters the path is what leaves it plus each hop's fee on what that hop forwards. */
  lemma {:induction false} FirstIsFinalPlusFees(hops: seq<Edge>, y: nat)
    ensures FirstAmount(hops, y) == y + TotalFees(hops, y)
    decreases |hops|
  {
    if hops != [] {
      FirstIsFinalPlusFees(hops[1..], y);
      SplitRate(FirstAmount(hops[1..], y), hops[0].ppm);
    }
  }

  // ----- 64-bit arithmetic

  /** The step on 64-bit words; `None` when a subtraction, a product or a sum leaves the range. */
  function ToForwardU64(e: Edge, amount: nat): Option<nat> {
    if amount < e.base || MILLION * (amount - e.base) >= U64 || MILLION + e.ppm >= U64 then None
    else Some(AmountToForward(e, amount))
  }

  function FromForwardU64(e: Edge, forward: nat): Option<nat> {
    if MILLION + e.ppm >= U64 || forward * (MILLION + e.ppm) >= U64 || AmountFromForward(e, forward) >= U64 then None
    else Some(AmountFromForward(e, forward))
  }

  function FinalU64(hops: seq<Edge>, amount: nat): Option<nat> {
    if hops == [] then Some(amount)
    else
      var next := ToForwardU64(hops[0], amount);
      if next.None? then None else FinalU64(hops[1..], next.value)
  }

  function FirstU64(hops: seq<Edge>, amount: nat): Option<nat> {
    if hops == [] then Some(amount)
    else
      var rest := FirstU64(hops[1..], amount);
      if rest.None? then None else FromForwardU64(hops[0], rest.value)
  }

  /** The largest amount whose product with a million fits in 64 bits. */
  const MAX_AMOUNT: nat := 18_446_744_073_709

  lemma ForwardShrinks(e: Edge, amount: nat)
    requires amount >= e.base
    ensures AmountToForward(e, amount) <= amount - e.base
  {
    var z := amount - e.base;
    DivCeilAdjoint(MILLION * z, MILLION + e.ppm, z);
    assert (MILLION + e.ppm) * z == MILLION * z + e.ppm * z;
  }

  /** Every rate can be added to a million. */
  predicate RatesFit(hops: seq<Edge>) {
    forall i :: 0 <= i < |hops| ==> MILLION + hops[i].ppm < U64
  }

  /**
  Going forward, the range is left exactly when a base fee is not covered, a rate is absurd, or the amount
  is too large for the first hop: behind it the amounts only shrink.
  */
  lemma {:induction false} FinalIsExact(hops: seq<Edge>, amount: nat)
    ensures FinalU64(hops, amount) ==
      if Covered(hops, amount) && RatesFit(hops) && (hops == [] || amount - hops[0].base <= MAX_AMOUNT)
      then Some(FinalAmount(hops, amount)) else None
    decreases |hops|
  {
    if hops != [] && amount >= hops[0].base {
      assert RatesFit(hops) <==> MILLION + hops[0].ppm < U64 && RatesFit(hops[1..]) by {
        assert forall i :: 0 <= i < |hops[1..]| ==> hops[1..][i] == hops[i + 1];
        assert forall i :: 0 < i < |hops| ==> hops[i] == hops[1..][i - 1];
      }
      ForwardShrinks(hops[0], amount);
      FinalIsExact(hops[1..], AmountToForward(hops[0], amount));
    }
  }

  /** Hop `i` of the way back stays in the range: its rate, its product and its sum. */
  predicate HopFits(hops: seq<Edge>, y: nat, i: nat)
    requires i < |hops|
  {
    && MILLION + hops[i].ppm < U64
    && FirstAmount(hops[i + 1..], y) * (MILLION + hops[i].ppm) < U64
    && FirstAmount(hops[i..], y) < U64
  }

  /** Going back, there is an answer exactly when every hop stays in the range, and then it is the exact one. */
  lemma {:induction false} FirstIsExact(hops: seq<Edge>, y: nat)
    ensures FirstU64(hops, y) ==
      if forall i :: 0 <= i < |hops| ==> HopFits(hops, y, i) then Some(FirstAmount(hops, y)) else None
    decreases |hops|
  {
    if hops != [] {
      var rest := hops[1..];
      FirstIsExact(rest, y);
      forall i | 0 <= i < |rest| ensures HopFits(rest, y, i) <==> HopFits(hops, y, i + 1) {
        assert rest[i + 1..] == hops[i + 2..] && rest[i..] == hops[i + 1..];
      }
      assert hops[0..] == hops;
      if forall i :: 0 <= i < |rest| ==> HopFits(rest, y, i) {
        forall i | 0 < i < |hops| ensures HopFits(hops, y, i) {
          assert HopFits(rest, y, i - 1);
        }
        assert FirstU64(hops, y).Some? <==> HopFits(hops, y, 0);
      }
    }
  }

  lemma {:induction false} FinalSomeIsExact(hops: seq<Edge>, amount: nat)
    requires FinalU64(hops, amount).Some?
    ensures Covered(hops, amount) && FinalU64(hops, amount).value == FinalAmount(hops, amount)
    decreases |hops|
  {
    if hops != [] {
      FinalSomeIsExact(hops[1..], AmountToForward(hops[0], amount));
    }
  }

  /** The two computed answers are adjoint whenever both exist. */
  lemma ComputedAdjoint(hops: seq<Edge>, amount: nat, y: nat)
    requires FinalU64(hops, amount).Some? && FirstU64(hops, y).Some?
    ensures FinalU64(hops, amount).value <= y <==> amount <= FirstU64(hops, y).value
  {
    FinalSomeIsExact(hops, amount);
    FirstIsExact(hops, y);
    PathAdjoint(hops, amount, y);
  }

  /** Going back fits whenever going there did: the product going back is no larger. */
  lemma EdgeFits(e: Edge, y: nat)
    requires FromForwardU64(e, y).Some?
    ensures ToForwardU64(e, FromForwardU64(e, y).value) == Some(y)
  {
    EdgeRoundTrip(e, y);
    assert MILLION * (y * (MILLION + e.ppm) / MILLION) <= y * (MILLION + e.ppm);
  }

  /** Whenever the first amount can be computed, feeding it back gives the requested final amount. */
  lemma {:induction false} ComputedRoundTrip(hops: seq<Edge>, y: nat)
    requires FirstU64(hops, y).Some?
    ensures FinalU64(hops, FirstU64(hops, y).value) == Some(y)
    decreases |hops|
  {
    if hops != [] {
      EdgeFits(hops[0], FirstU64(hops[1..], y).value);
      ComputedRoundTrip(hops[1..], y);
    }
  }

  method FinalHopAmount(edges: seq<Edge>, firstHopAmount: nat) returns (r: Option<nat>)
    ensures |edges| <= 1 ==> r == Some(firstHopAmount)
    ensures forall hops, e :: edges == [e] + hops ==> r == FinalU64(hops, firstHopAmount)
  {
    var maxToSend := firstHopAmount;
    var i := 1;
    while i < |edges|
      invariant 1 <= i && (i <= |edges| || edges == [])
      invariant edges != [] ==> FinalU64(edges[1..], firstHopAmount) == FinalU64(edges[i..], maxToSend)
      invariant edges == [] ==> maxToSend == firstHopAmount
    {
      var next := ToForwardU64(edges[i], maxToSend);
      assert edges[i..][1..] == edges[i + 1..];
      if next.None? {
        return None;
      }
      maxToSend := next.value;
      i := i + 1;
    }
    r := Some(maxToSend);
    assert forall hops, e :: edges == [e] + hops ==> hops == edges[1..];
  }

  method FirstHopAmount(edges: seq<Edge>, finalHopAmount: nat) returns (r: Option<nat>)
    ensures |edges| <= 1 ==> r == Some(finalHopAmount)
    ensures forall hops, e :: edges == [e] + hops ==> r == FirstU64(hops, finalHopAmount)
  {
    r := Some(finalHopAmount);
    var i := |edges|;
    while i > 1
      invariant 0 <= i <= |edges| && (edges != [] ==> i >= 1)
      invariant r.Some? && r == FirstU64(edges[i..], finalHopAmount)
    {
      i := i - 1;
      assert edges[i..][1..] == edges[i + 1..];
      r := FromForwardU64(edges[i], r.value);
      if r.None? {
        NoneStays(edges, i, finalHopAmount);
        return;
      }
    }
  }

  /** A later hop that overflows leaves the whole path without an answer. */
  lemma {:induction false} NoneStays(edges: seq<Edge>, i: nat, y: nat)
    requires 1 <= i < |edges| && FirstU64(edges[i..], y).None?
    ensures FirstU64(edges[1..], y).None?
    decreases i
  {
    if i > 1 {
      assert edges[i - 1..][1..] == edges[i..];
      NoneStays(edges, i - 1, y);
    }
  }
}
