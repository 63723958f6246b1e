/** The unspent outputs of an address, computed from its transaction list in two passes. */
module Utxos {
  import opened Options

  type TxId = nat

  datatype OutPoint = OutPoint(txid: TxId, vout: nat)

  /** An input names the output it spends, and the address that output paid to. Ids are texts to be parsed. */
  datatype Input = Input(txid: string, vout: nat, address: string)
  datatype Output = Output(address: string, value: nat)
  datatype Tx = Tx(txid: string, confirmed: bool, blockHeight: Option<nat>, vin: seq<Input>, vout: seq<Output>)
  datatype Utxo = Utxo(out: OutPoint, value: nat, blockHeight: Option<nat>)

  type Parser = string -> Option<TxId>

  // ----- What is meant

  /** Whether spends of this transaction count. */
  predicate Counts(tx: Tx, includeUnconfirmed: bool) {
    includeUnconfirmed || tx.confirmed
  }

  ghost predicate SpendsOut(parse: Parser, address: string, tx: Tx, out: OutPoint) {
    exists i :: 0 <= i < |tx.vin| && tx.vin[i].address == address
                && parse(tx.vin[i].txid) == Some(out.txid) && tx.vin[i].vout == out.vout
  }

  /** Some counted transaction of the list spends the output. */
  ghost predicate Spent(parse: Parser, address: string, txs: seq<Tx>, includeUnconfirmed: bool, out: OutPoint) {
    exists tx :: tx in txs && Counts(tx, includeUnconfirmed) && SpendsOut(parse, address, tx, out)
  }

  /** Some transaction of the list has this output to the address. */
  ghost predicate Pays(parse: Parser, address: string, txs: seq<Tx>, u: Utxo) {
    exists tx :: tx in txs && PaysIn(parse, address, tx, u)
  }

  ghost predicate PaysIn(parse: Parser, address: string, tx: Tx, u: Utxo) {
    && u.out.vout < |tx.vout| && tx.vout[u.out.vout].address == address && parse(tx.txid) == Some(u.out.txid)
    && u.value == tx.vout[u.out.vout].value && u.blockHeight == tx.blockHeight
  }

  /** Every transaction id that is looked at parses. */
  ghost predicate ParsesIn(parse: Parser, address: string, tx: Tx, includeUnconfirmed: bool) {
    (Counts(tx, includeUnconfirmed) ==> InputsParse(parse, address, tx)) && OutputsParse(parse, address, tx)
  }

  ghost predicate Parses(parse: Parser, address: string, txs: seq<Tx>, includeUnconfirmed: bool) {
    forall tx :: tx in txs ==> ParsesIn(parse, address, tx, includeUnconfirmed)
  }

  // ----- The two passes

  /** The outputs spent by the first `n` inputs of a transaction. */
  function SpentIn(parse: Parser, address: string, tx: Tx, n: nat): seq<OutPoint>
    requires n <= |tx.vin|
  {
    if n == 0 then []
    else
      var before, i := SpentIn(parse, address, tx, n - 1), tx.vin[n - 1];
      if i.address == address && parse(i.txid).Some? then before + [OutPoint(parse(i.txid).value, i.vout)] else before
  }

  function SpentOutputs(parse: Parser, address: string, txs: seq<Tx>, includeUnconfirmed: bool): seq<OutPoint> {
    if txs == [] then []
    else
      var before, tx := SpentOutputs(parse, address, txs[..|txs| - 1], includeUnconfirmed), txs[|txs| - 1];
      if Counts(tx, includeUnconfirmed) then before + SpentIn(parse, address, tx, |tx.vin|) else before
  }

  /** The first `n` outputs of a transaction, as far as they pay to the address. */
  function ReceivedIn(parse: Parser, address: string, tx: Tx, n: nat): seq<Utxo>
    requires n <= |tx.vout|
  {
    if n == 0 then []
    else
      var before, o := ReceivedIn(parse, address, tx, n - 1), tx.vout[n - 1];
      if o.address == address && parse(tx.txid).Some?
      then before + [Utxo(OutPoint(parse(tx.txid).value, n - 1), o.value, tx.blockHeight)]
      else before
  }

  function Received(parse: Parser, address: string, txs: seq<Tx>): seq<Utxo> {
    if txs == [] then []
    else
      var tx := txs[|txs| - 1];
      Received(parse, address, txs[..|txs| - 1]) + ReceivedIn(parse, address, tx, |tx.vout|)
  }

  function Without(spent: seq<OutPoint>, us: seq<Utxo>): seq<Utxo> {
    if us == [] then []
    else
      var before, u := Without(spent, us[..|us| - 1]), us[|us| - 1];
      if u.out in spent then before else before + [u]
  }

  function Confirmed(us: seq<Utxo>): seq<Utxo> {
    if us == [] then []
    else
      var before, u := Confirmed(us[..|us| - 1]), us[|us| - 1];
      if u.blockHeight.Some? then before + [u] else before
  }

  function ConfirmedUtxos(parse: Parser, address: string, txs: seq<Tx>, includeUnconfirmed: bool): seq<Utxo> {
    Confirmed(Without(SpentOutputs(parse, address, txs, includeUnconfirmed), Received(parse, address, txs)))
  }

  lemma {:induction false} WithoutAppend(spent: seq<OutPoint>, a: seq<Utxo>, b: seq<Utxo>)
    ensures Without(spent, a + b) == Without(spent, a) + Without(spent, b)
    decreases |b|
  {
    if b == [] {
      assert a + b == a;
    } else {
      assert (a + b)[..|a + b| - 1] == a + b[..|b| - 1];
      WithoutAppend(spent, a, b[..|b| - 1]);
    }
  }

  predicate InputsParse(parse: Parser, address: string, tx: Tx) {
    forall i :: 0 <= i < |tx.vin| && tx.vin[i].address == address ==> parse(tx.vin[i].txid).Some?
  }

  predicate OutputsParse(parse: Parser, address: string, tx: Tx) {
    forall i :: 0 <= i < |tx.vout| && tx.vout[i].address == address ==> parse(tx.txid).Some?
  }

  /** The inner loop of the first pass. */
  method SpentOutputsOf(parse: Parser, address: string, tx: Tx) returns (r: Option<seq<OutPoint>>)
    ensures r.Some? <==> InputsParse(parse, address, tx)
    ensures r.Some? ==> r.value == SpentIn(parse, address, tx, |tx.vin|)
  {
    var spent := [];
    for i := 0 to |tx.vin|
      invariant spent == SpentIn(parse, address, tx, i)
      invariant forall j :: 0 <= j < i && tx.vin[j].address == address ==> parse(tx.vin[j].txid).Some?
    {
      if tx.vin[i].address == address {
        if parse(tx.vin[i].txid).None? {
          return None;
        }
        spent := spent + [OutPoint(parse(tx.vin[i].txid).value, tx.vin[i].vout)];
      }
    }
    r := Some(spent);
  }

  /** The first pass. */
  method CollectSpent(parse: Parser, address: string, txs: seq<Tx>, includeUnconfirmed: bool)
    returns (r: Option<seq<OutPoint>>)
    ensures r.Some? ==> r.value == SpentOutputs(parse, address, txs, includeUnconfirmed)
    ensures r.Some? <==> forall tx :: tx in txs && Counts(tx, includeUnconfirmed) ==> InputsParse(parse, address, tx)
  {
    var spent := [];
    for t := 0 to |txs|
      invariant spent == SpentOutputs(parse, address, txs[..t], includeUnconfirmed)
      invariant forall k :: 0 <= k < t && Counts(txs[k], includeUnconfirmed) ==> InputsParse(parse, address, txs[k])
    {
      assert txs[..t + 1][..t] == txs[..t];
      if includeUnconfirmed || txs[t].confirmed {
        var more := SpentOutputsOf(parse, address, txs[t]);
        if more.None? {
          return None;
        }
        spent := spent + more.value;
      }
    }
    assert txs[..|txs|] == txs;
    r := Some(spent);
  }

  /** The inner loop of the second pass. */
  method UnspentOutputsOf(parse: Parser, address: string, tx: Tx, spent: seq<OutPoint>) returns (r: Option<seq<Utxo>>)
    ensures r.Some? <==> OutputsParse(parse, address, tx)
    ensures r.Some? ==> r.value == Without(spent, ReceivedIn(parse, address, tx, |tx.vout|))
  {
    var utxos := [];
    for i := 0 to |tx.vout|
      invariant utxos == Without(spent, ReceivedIn(parse, address, tx, i))
      invariant forall j :: 0 <= j < i && tx.vout[j].address == address ==> parse(tx.txid).Some?
    {
      if tx.vout[i].address == address {
        if parse(tx.txid).None? {
          return None;
        }
        var u := Utxo(OutPoint(parse(tx.txid).value, i), tx.vout[i].value, tx.blockHeight);
        ghost var seen := ReceivedIn(parse, address, tx, i);
        assert (seen + [u])[..|seen|] == seen;
        if u.out !in spent {
          utxos := utxos + [u];
        }
      }
    }
    r := Some(utxos);
  }

  /** The second pass, before the confirmed outputs are picked. */
  method CollectUnspent(parse: Parser, address: string, txs: seq<Tx>, spent: seq<OutPoint>)
    returns (r: Option<seq<Utxo>>)
    ensures r.Some? ==> r.value == Without(spent, Received(parse, address, txs))
    ensures r.Some? <==> forall tx :: tx in txs ==> OutputsParse(parse, address, tx)
  {
    var utxos := [];
    for t := 0 to |txs|
      invariant utxos == Without(spent, Received(parse, address, txs[..t]))
      invariant forall k :: 0 <= k < t ==> OutputsParse(parse, address, txs[k])
    {
      var more := UnspentOutputsOf(parse, address, txs[t], spent);
      if more.None? {
        return None;
      }
      assert txs[..t + 1][..t] == txs[..t];
      WithoutAppend(spent, Received(parse, address, txs[..t]), ReceivedIn(parse, address, txs[t], |txs[t].vout|));
      utxos := utxos + more.value;
    }
    assert txs[..|txs|] == txs;
    r := Some(utxos);
  }

  /** An answer exists exactly when every id that is looked at parses. */
  method GetUtxos(parse: Parser, address: string, txs: seq<Tx>, includeUnconfirmed: bool) returns (r: Option<seq<Utxo>>)
    ensures r.Some? <==> Parses(parse, address, txs, includeUnconfirmed)
    ensures r.Some? ==> r.value == ConfirmedUtxos(parse, address, txs, includeUnconfirmed)
  {
    var spent := CollectSpent(parse, address, txs, includeUnconfirmed);
    if spent.None? {
      ghost var tx :| tx in txs && Counts(tx, includeUnconfirmed) && !InputsParse(parse, address, tx);
      assert !ParsesIn(parse, address, tx, includeUnconfirmed);
      return None;
    }
    var utxos := CollectUnspent(parse, address, txs, spent.value);
    if utxos.None? {
      ghost var tx :| tx in txs && !OutputsParse(parse, address, tx);
      assert !ParsesIn(parse, address, tx, includeUnconfirmed);
      return None;
    }
    return Some(Confirmed(utxos.value));
  }

  // ----- Exactness

  lemma {:induction false} SpentInIff(parse: Parser, address: string, tx: Tx, n: nat, out: OutPoint)
    requires n <= |tx.vin|
    ensures out in SpentIn(parse, address, tx, n) <==>
      exists i :: 0 <= i < n && tx.vin[i].address == address
                  && parse(tx.vin[i].txid) == Some(out.txid) && tx.vin[i].vout == out.vout
  {
    if n > 0 {
      SpentInIff(parse, address, tx, n - 1, out);
    }
  }

  lemma {:induction false} SpentOutputsIff(
    parse: Parser, address: string, txs: seq<Tx>, includeUnconfirmed: bool, out: OutPoint)
    ensures out in SpentOutputs(parse, address, txs, includeUnconfirmed) <==>
      Spent(parse, address, txs, includeUnconfirmed, out)
    decreases |txs|
  {
    if txs != [] {
      var before, tx := txs[..|txs| - 1], txs[|txs| - 1];
      SpentOutputsIff(parse, address, before, includeUnconfirmed, out);
      SpentInIff(parse, address, tx, |tx.vin|, out);
      assert forall x :: x in txs <==> x in before || x == tx;
    }
  }

  lemma {:induction false} ReceivedInIff(parse: Parser, address: string, tx: Tx, n: nat, u: Utxo)
    requires n <= |tx.vout|
    ensures u in ReceivedIn(parse, address, tx, n) <==> u.out.vout < n && PaysIn(parse, address, tx, u)
  {
    if n > 0 {
      ReceivedInIff(parse, address, tx, n - 1, u);
    }
  }

  lemma {:induction false} ReceivedIff(parse: Parser, address: string, txs: seq<Tx>, u: Utxo)
    ensures u in Received(parse, address, txs) <==> Pays(parse, address, txs, u)
    decreases |txs|
  {
    if txs != [] {
      var before, tx := txs[..|txs| - 1], txs[|txs| - 1];
      ReceivedIff(parse, address, before, u);
      ReceivedInIff(parse, address, tx, |tx.vout|, u);
      assert forall x :: x in txs <==> x in before || x == tx;
    }
  }

  lemma {:induction false} WithoutCount(spent: seq<OutPoint>, us: seq<Utxo>, u: Utxo)
    ensures multiset(Without(spent, us))[u] == if u.out in spent then 0 else multiset(us)[u]
    decreases |us|
  {
    if us != [] {
      WithoutCount(spent, us[..|us| - 1], u);
      assert us == us[..|us| - 1] + [us[|us| - 1]];
    }
  }

  lemma {:induction false} ConfirmedCount(us: seq<Utxo>, u: Utxo)
    ensures multiset(Confirmed(us))[u] == if u.blockHeight.Some? then multiset(us)[u] else 0
    decreases |us|
  {
    if us != [] {
      ConfirmedCount(us[..|us| - 1], u);
      assert us == us[..|us| - 1] + [us[|us| - 1]];
    }
  }

  /** How often an output is reported: as often as the list has it, if it is confirmed and unspent. */
  lemma UtxoCount(parse: Parser, address: string, txs: seq<Tx>, includeUnconfirmed: bool, u: Utxo)
    ensures multiset(ConfirmedUtxos(parse, address, txs, includeUnconfirmed))[u] ==
      if u.blockHeight.Some? && !Spent(parse, address, txs, includeUnconfirmed, u.out)
      then multiset(Received(parse, address, txs))[u] else 0
  {
    var spent := SpentOutputs(parse, address, txs, includeUnconfirmed);
    ConfirmedCount(Without(spent, Received(parse, address, txs)), u);
    WithoutCount(spent, Received(parse, address, txs), u);
    SpentOutputsIff(parse, address, txs, includeUnconfirmed, u.out);
  }

  /** The result is exactly the confirmed outputs to the address that no counted input spends. */
  lemma UtxosExact(parse: Parser, address: string, txs: seq<Tx>, includeUnconfirmed: bool, u: Utxo)
    ensures u in ConfirmedUtxos(parse, address, txs, includeUnconfirmed) <==>
      Pays(parse, address, txs, u) && u.blockHeight.Some? && !Spent(parse, address, txs, includeUnconfirmed, u.out)
  {
    UtxoCount(parse, address, txs, includeUnconfirmed, u);
    ReceivedIff(parse, address, txs, u);
    assert u in ConfirmedUtxos(parse, address, txs, includeUnconfirmed)
      <==> u in multiset(ConfirmedUtxos(parse, address, txs, includeUnconfirmed));
    assert u in Received(parse, address, txs) <==> u in multiset(Received(parse, address, txs));
  }

  /** Counting unconfirmed spends removes exactly the outputs that only unconfirmed transactions spend. */
  lemma UnconfirmedSpendsRemove(parse: Parser, address: string, txs: seq<Tx>, u: Utxo)
    ensures u in ConfirmedUtxos(parse, address, txs, true) ==> u in ConfirmedUtxos(parse, address, txs, false)
    ensures u in ConfirmedUtxos(parse, address, txs, false) && u !in ConfirmedUtxos(parse, address, txs, true) <==>
      && Pays(parse, address, txs, u) && u.blockHeight.Some?
      && (exists tx :: tx in txs && !tx.confirmed && SpendsOut(parse, address, tx, u.out))
      && (forall tx :: tx in txs && tx.confirmed ==> !SpendsOut(parse, address, tx, u.out))
  {
    UtxosExact(parse, address, txs, true, u);
    UtxosExact(parse, address, txs, false, u);
    assert forall tx :: tx in txs ==> Counts(tx, true) && (Counts(tx, false) <==> tx.confirmed);
  }

  // ----- Conservation

  function Total(us: seq<Utxo>): nat {
    if us == [] then 0 else Total(us[..|us| - 1]) + us[|us| - 1].value
  }

  /** The confirmed outputs to the address that a counted input spends. */
  function SpentValue(spent: seq<OutPoint>, us: seq<Utxo>): nat {
    if us == [] then 0
    else
      var u := us[|us| - 1];
      SpentValue(spent, us[..|us| - 1]) + if u.blockHeight.Some? && u.out in spent then u.value else 0
  }

  lemma TotalSnoc(us: seq<Utxo>, u: Utxo)
    ensures Total(us + [u]) == Total(us) + u.value
    ensures Confirmed(us + [u]) == if u.blockHeight.Some? then Confirmed(us) + [u] else Confirmed(us)
  {
    assert (us + [u])[..|us + [u]| - 1] == us;
  }

  /** What was received is what is unspent plus what was spent. */
  lemma {:induction false} Conservation(spent: seq<OutPoint>, us: seq<Utxo>)
    ensures Total(Confirmed(us)) == Total(Confirmed(Without(spent, us))) + SpentValue(spent, us)
    decreases |us|
  {
    if us != [] {
      var before, u := us[..|us| - 1], us[|us| - 1];
      Conservation(spent, before);
      TotalSnoc(Confirmed(before), u);
      TotalSnoc(Without(spent, before), u);
      TotalSnoc(Confirmed(Without(spent, before)), u);
    }
  }

  /** The confirmed value that the list has at one output. */
  function ValueAt(us: seq<Utxo>, out: OutPoint): nat {
    if us == [] then 0
    else
      var u := us[|us| - 1];
      ValueAt(us[..|us| - 1], out) + if u.blockHeight.Some? && u.out == out then u.value else 0
  }

  /** What a list of inputs takes out: the value at the output each of them spends, an output once only. */
  function InputTotal(inputs: seq<OutPoint>, us: seq<Utxo>): nat {
    if inputs == [] then 0
    else
      var before, out := inputs[..|inputs| - 1], inputs[|inputs| - 1];
      InputTotal(before, us) + if out in before then 0 else ValueAt(us, out)
  }

  lemma {:induction false} OneMoreInput(before: seq<OutPoint>, out: OutPoint, us: seq<Utxo>)
    ensures SpentValue(before + [out], us) == SpentValue(before, us) + if out in before then 0 else ValueAt(us, out)
    decreases |us|
  {
    if us != [] {
      OneMoreInput(before, out, us[..|us| - 1]);
    }
  }

  /** The value that leaves the received outputs is the value that the inputs take out. */
  lemma {:induction false} SpentIsTakenByInputs(inputs: seq<OutPoint>, us: seq<Utxo>)
    ensures SpentValue(inputs, us) == InputTotal(inputs, us)
    decreases |inputs|
  {
    if inputs == [] {
      NothingSpent(us);
    } else {
      var before, out := inputs[..|inputs| - 1], inputs[|inputs| - 1];
      assert inputs == before + [out];
      SpentIsTakenByInputs(before, us);
      OneMoreInput(before, out, us);
    }
  }

  lemma {:induction false} NothingSpent(us: seq<Utxo>)
    ensures SpentValue([], us) == 0
  {
    if us != [] {
      NothingSpent(us[..|us| - 1]);
    }
  }

  /** What the address received is what it has plus what the counted inputs took out of it. */
  lemma ReceivedIsUnspentPlusSpent(parse: Parser, address: string, txs: seq<Tx>, includeUnconfirmed: bool)
    ensures var received, inputs :=
        Received(parse, address, txs), SpentOutputs(parse, address, txs, includeUnconfirmed);
      Total(Confirmed(received)) ==
        Total(ConfirmedUtxos(parse, address, txs, includeUnconfirmed)) + InputTotal(inputs, received)
  {
    var received, inputs := Received(parse, address, txs), SpentOutputs(parse, address, txs, includeUnconfirmed);
    Conservation(inputs, received);
    SpentIsTakenByInputs(inputs, received);
  }

  // ----- Order of the list

  lemma AppendAssociates<T>(a: seq<T>, b: seq<T>, c: seq<T>)
    ensures a + b + c == a + (b + c)
  {
  }

  lemma {:induction false} ReceivedAppend(parse: Parser, address: string, a: seq<Tx>, b: seq<Tx>)
    ensures Received(parse, address, a + b) == Received(parse, address, a) + Received(parse, address, b)
    decreases |b|
  {
    if b == [] {
      assert a + b == a;
    } else {
      var all, before, tx := a + b, b[..|b| - 1], b[|b| - 1];
      assert all[..|all| - 1] == a + before && all[|all| - 1] == tx;
      ReceivedAppend(parse, address, a, before);
      var ofA, ofB := Received(parse, address, a), Received(parse, address, before);
      AppendAssociates(ofA, ofB, ReceivedIn(parse, address, tx, |tx.vout|));
    }
  }

  lemma TakeOut<T>(s: seq<T>, i: nat)
    requires i < |s|
    ensures multiset(s[..i] + s[i + 1..]) == multiset(s) - multiset{s[i]}
  {
    assert s == s[..i] + [s[i]] + s[i + 1..];
  }

  lemma ReceivedTakeOut(parse: Parser, address: string, txs: seq<Tx>, i: nat, rest: seq<Tx>)
    requires i < |txs| && rest == txs[..i] + txs[i + 1..]
    ensures multiset(Received(parse, address, txs)) ==
      multiset(Received(parse, address, rest)) + multiset(Received(parse, address, [txs[i]]))
  {
    var left, tx, right := txs[..i], [txs[i]], txs[i + 1..];
    assert txs == (left + tx) + right;
    ReceivedAppend(parse, address, left, right);
    ReceivedAppend(parse, address, left + tx, right);
    ReceivedAppend(parse, address, left, tx);
  }

  lemma SameAfterTakeOut<T>(s: seq<T>, s': seq<T>) returns (i: nat, rest: seq<T>, rest': seq<T>)
    requires multiset(s) == multiset(s') && s != []
    ensures i < |s'| && s'[i] == s[0] && multiset(rest) == multiset(rest')
    ensures |rest| < |s| && rest == s[..0] + s[1..] && rest' == s'[..i] + s'[i + 1..]
  {
    assert s[0] in multiset(s');
    i :| 0 <= i < |s'| && s'[i] == s[0];
    TakeOut(s, 0);
    TakeOut(s', i);
    rest, rest' := s[..0] + s[1..], s'[..i] + s'[i + 1..];
  }

  lemma {:induction false} ReceivedReordered(parse: Parser, address: string, txs: seq<Tx>, txs': seq<Tx>)
    requires multiset(txs) == multiset(txs')
    ensures multiset(Received(parse, address, txs)) == multiset(Received(parse, address, txs'))
    decreases |txs|
  {
    if txs == [] {
      assert |multiset(txs')| == 0;
    } else {
      var i, rest, rest' := SameAfterTakeOut(txs, txs');
      ReceivedReordered(parse, address, rest, rest');
      ReceivedTakeOut(parse, address, txs, 0, rest);
      ReceivedTakeOut(parse, address, txs', i, rest');
    }
  }

  /** Reordering the transaction list only reorders the result. */
  lemma UtxosReordered(parse: Parser, address: string, txs: seq<Tx>, txs': seq<Tx>, includeUnconfirmed: bool)
    requires multiset(txs) == multiset(txs')
    ensures multiset(ConfirmedUtxos(parse, address, txs, includeUnconfirmed)) ==
      multiset(ConfirmedUtxos(parse, address, txs', includeUnconfirmed))
    ensures Parses(parse, address, txs, includeUnconfirmed) <==> Parses(parse, address, txs', includeUnconfirmed)
  {
    forall tx ensures tx in txs <==> tx in txs' {
      assert tx in txs <==> tx in multiset(txs);
      assert tx in txs' <==> tx in multiset(txs');
    }
    ReceivedReordered(parse, address, txs, txs');
    var a := ConfirmedUtxos(parse, address, txs, includeUnconfirmed);
    var b := ConfirmedUtxos(parse, address, txs', includeUnconfirmed);
    forall u: Utxo ensures multiset(a)[u] == multiset(b)[u] {
      UtxoCount(parse, address, txs, includeUnconfirmed, u);
      UtxoCount(parse, address, txs', includeUnconfirmed, u);
      assert Spent(parse, address, txs, includeUnconfirmed, u.out) <==>
        Spent(parse, address, txs', includeUnconfirmed, u.out);
    }
  }
}
