/** Route hints: conversion between the two representations, and merging into an invoice's hints. */
module RouteHints {
  import opened Options
  import opened Text
  import ShortChannelId

  datatype Hop = Hop(
    srcNodeId: string,
    shortChannelId: string,
    feesBaseMsat: nat,
    feesProportionalMillionths: nat,
    cltvExpiryDelta: nat,
    htlcMinimumMsat: Option<nat>,
    htlcMaximumMsat: Option<nat>
  )

  datatype LdkHop = LdkHop(
    srcNodeId: Bytes,
    shortChannelId: nat,
    baseMsat: nat,
    proportionalMillionths: nat,
    cltvExpiryDelta: nat,
    htlcMinimumMsat: Option<nat>,
    htlcMaximumMsat: Option<nat>
  )

  type Hint = seq<Hop>
  type LdkHint = seq<LdkHop>

  /**
  How the texts of a hop are read and printed: public keys, in any accepted encoding, become their
  compressed form; short channel ids become numbers.
  */
  datatype Codec = Codec(readKey: Bytes -> Option<Bytes>, readId: string -> Option<nat>, printId: nat -> string)

  /** The codec of the source, for a given reader of public keys. */
  function SourceCodec(readKey: Bytes -> Option<Bytes>): Codec {
    Codec(readKey, ShortChannelId.Parse, ShortChannelId.Format)
  }

  const U16: nat := 0x1_0000

  // ----- One hop

  function ReadKey(c: Codec, text: string): Option<Bytes> {
    var bytes := HexDecode(text);
    if bytes.None? then None else c.readKey(bytes.value)
  }

  function ToLdkHop(c: Codec, h: Hop): Option<LdkHop> {
    var key, id := ReadKey(c, h.srcNodeId), c.readId(h.shortChannelId);
    if key.None? || id.None? then None
    else Some(LdkHop(key.value, id.value, h.feesBaseMsat, h.feesProportionalMillionths,
                     h.cltvExpiryDelta % U16, h.htlcMinimumMsat, h.htlcMaximumMsat))
  }

  function FromLdkHop(c: Codec, h: LdkHop): Hop {
    Hop(HexEncode(h.srcNodeId), c.printId(h.shortChannelId), h.baseMsat, h.proportionalMillionths,
        h.cltvExpiryDelta, h.htlcMinimumMsat, h.htlcMaximumMsat)
  }

  lemma HopRoundTrip(c: Codec, h: LdkHop)
    requires c.readKey(h.srcNodeId) == Some(h.srcNodeId)
    requires c.readId(c.printId(h.shortChannelId)) == Some(h.shortChannelId)
    requires h.cltvExpiryDelta < U16
    ensures ToLdkHop(c, FromLdkHop(c, h)) == Some(h)
  {
    HexRoundTrip(h.srcNodeId);
  }

  /** The texts of a hop are the ones its values print as, and the delta fits in 16 bits. */
  ghost predicate CanonicalHop(readKey: Bytes -> Option<Bytes>, h: Hop) {
    var key := ReadKey(SourceCodec(readKey), h.srcNodeId);
    && key.Some? && h.srcNodeId == HexEncode(key.value)
    && ShortChannelId.Canonical(h.shortChannelId) && h.cltvExpiryDelta < U16
  }

  lemma FromToHop(c: Codec, h: Hop)
    requires ToLdkHop(c, h).Some?
    ensures FromLdkHop(c, ToLdkHop(c, h).value) == h <==>
      && h.srcNodeId == HexEncode(ReadKey(c, h.srcNodeId).value)
      && c.printId(c.readId(h.shortChannelId).value) == h.shortChannelId && h.cltvExpiryDelta < U16
  {
  }

  /** A hop that can be converted survives the way there and back exactly when it is canonical. */
  lemma HopRoundTripIff(readKey: Bytes -> Option<Bytes>, h: Hop)
    ensures ToLdkHop(SourceCodec(readKey), h).Some? ==>
      (FromLdkHop(SourceCodec(readKey), ToLdkHop(SourceCodec(readKey), h).value) == h <==> CanonicalHop(readKey, h))
  {
    var c := SourceCodec(readKey);
    if ToLdkHop(c, h).Some? {
      FromToHop(c, h);
      ReadsBack(readKey, h.shortChannelId);
    }
  }

  lemma ReadsBack(readKey: Bytes -> Option<Bytes>, text: string)
    ensures var c := SourceCodec(readKey);
      c.readId(text).Some? ==> (c.printId(c.readId(text).value) == text <==> ShortChannelId.Canonical(text))
  {
    if ShortChannelId.Parse(text).Some? {
      ShortChannelId.FormatParseIff(text);
    }
  }

  // ----- A whole hint

  /** Converts every element, or none if one of them cannot be converted. */
  function TryMap<A, B>(f: A -> Option<B>, s: seq<A>): Option<seq<B>> {
    if s == [] then Some([])
    else
      var before, x := TryMap(f, s[..|s| - 1]), f(s[|s| - 1]);
      if before.None? || x.None? then None else Some(before.value + [x.value])
  }

  lemma {:induction false} TryMapPrefix<A, B>(f: A -> Option<B>, s: seq<A>, n: nat)
    requires n <= |s| && TryMap(f, s[..n]).None?
    ensures TryMap(f, s).None?
    decreases |s| - n
  {
    if n < |s| {
      assert s[..n + 1][..n] == s[..n];
      TryMapPrefix(f, s, n + 1);
    } else {
      assert s[..n] == s;
    }
  }

  lemma {:induction false} TryMapEach<A, B>(f: A -> Option<B>, s: seq<A>)
    requires TryMap(f, s).Some?
    ensures |TryMap(f, s).value| == |s| && forall i :: 0 <= i < |s| ==> f(s[i]) == Some(TryMap(f, s).value[i])
  {
    if s != [] {
      TryMapEach(f, s[..|s| - 1]);
    }
  }

  lemma {:induction false} TryMapIff<A, B>(f: A -> Option<B>, s: seq<A>)
    ensures TryMap(f, s).Some? <==> forall i :: 0 <= i < |s| ==> f(s[i]).Some?
  {
    if s != [] {
      TryMapIff(f, s[..|s| - 1]);
    }
  }

  function ToLdk(c: Codec, hint: Hint): Option<LdkHint> {
    TryMap(h => ToLdkHop(c, h), hint)
  }

  function FromLdk(c: Codec, hint: LdkHint): Hint {
    if hint == [] then [] else FromLdk(c, hint[..|hint| - 1]) + [FromLdkHop(c, hint[|hint| - 1])]
  }

  method ToLdkHint(c: Codec, hint: Hint) returns (r: Option<LdkHint>)
    ensures r == ToLdk(c, hint)
  {
    ghost var f := h => ToLdkHop(c, h);
    var hops := [];
    for i := 0 to |hint|
      invariant TryMap(f, hint[..i]) == Some(hops)
    {
      assert hint[..i + 1][..i] == hint[..i];
      var h := ToLdkHop(c, hint[i]);
      if h.None? {
        TryMapPrefix(f, hint, i + 1);
        return None;
      }
      hops := hops + [h.value];
    }
    assert hint[..|hint|] == hint;
    r := Some(hops);
  }

  method FromLdkHint(c: Codec, hint: LdkHint) returns (r: Hint)
    ensures r == FromLdk(c, hint)
  {
    r := [];
    for i := 0 to |hint|
      invariant r == FromLdk(c, hint[..i])
    {
      assert hint[..i + 1][..i] == hint[..i];
      r := r + [FromLdkHop(c, hint[i])];
    }
    assert hint[..|hint|] == hint;
  }

  lemma {:induction false} ToFromHint(c: Codec, hint: LdkHint)
    requires forall i :: 0 <= i < |hint| ==> ToLdkHop(c, FromLdkHop(c, hint[i])) == Some(hint[i])
    ensures ToLdk(c, FromLdk(c, hint)) == Some(hint)
  {
    if hint != [] {
      var before, h := hint[..|hint| - 1], hint[|hint| - 1];
      ToFromHint(c, before);
      assert (FromLdk(c, before) + [FromLdkHop(c, h)])[..|FromLdk(c, before)|] == FromLdk(c, before);
      assert hint == before + [h];
    }
  }

  /** A hop that LDK can hold: a compressed key, a 64-bit id and a 16-bit delta. */
  predicate LdkHopOk(readKey: Bytes -> Option<Bytes>, h: LdkHop) {
    readKey(h.srcNodeId) == Some(h.srcNodeId) && h.shortChannelId < ShortChannelId.U64 && h.cltvExpiryDelta < U16
  }

  lemma IdSurvives(c: Codec, id: nat)
    requires c.readId == ShortChannelId.Parse && c.printId == ShortChannelId.Format && id < ShortChannelId.U64
    ensures c.readId(c.printId(id)) == Some(id)
  {
    ShortChannelId.ParseFormat(id);
  }

  /** Printing an LDK hint of any length and reading it again gives the same hint. */
  lemma HintRoundTrip(readKey: Bytes -> Option<Bytes>, hint: LdkHint)
    requires forall i :: 0 <= i < |hint| ==> LdkHopOk(readKey, hint[i])
    ensures ToLdk(SourceCodec(readKey), FromLdk(SourceCodec(readKey), hint)) == Some(hint)
  {
    var c := SourceCodec(readKey);
    forall i | 0 <= i < |hint| ensures ToLdkHop(c, FromLdkHop(c, hint[i])) == Some(hint[i]) {
      IdSurvives(c, hint[i].shortChannelId);
      HopRoundTrip(c, hint[i]);
    }
    ToFromHint(c, hint);
  }

  lemma HintKeys(c: Codec, hint: Hint, j: nat)
    requires ToLdk(c, hint).Some? && j < |hint|
    ensures |ToLdk(c, hint).value| == |hint|
    ensures ReadKey(c, hint[j].srcNodeId) == Some(ToLdk(c, hint).value[j].srcNodeId)
  {
    TryMapEach(h => ToLdkHop(c, h), hint);
    assert ToLdkHop(c, hint[j]) == Some(ToLdk(c, hint).value[j]);
  }

  /** The key and the short channel id of every hop can be read. */
  predicate Readable(c: Codec, hint: Hint) {
    forall j :: 0 <= j < |hint| ==> ReadKey(c, hint[j].srcNodeId).Some? && c.readId(hint[j].shortChannelId).Some?
  }

  /** A hint converts exactly when all its texts can be read, hop by hop, and the delta is cut to 16 bits. */
  lemma HintConverts(c: Codec, hint: Hint)
    ensures ToLdk(c, hint).Some? <==> Readable(c, hint)
    ensures ToLdk(c, hint).Some? ==> |ToLdk(c, hint).value| == |hint|
    ensures ToLdk(c, hint).Some? ==> forall j :: 0 <= j < |hint| ==>
      var from, to := hint[j], ToLdk(c, hint).value[j];
      && ReadKey(c, from.srcNodeId) == Some(to.srcNodeId) && c.readId(from.shortChannelId) == Some(to.shortChannelId)
      && to.baseMsat == from.feesBaseMsat && to.proportionalMillionths == from.feesProportionalMillionths
      && to.cltvExpiryDelta < 65536 && (from.cltvExpiryDelta - to.cltvExpiryDelta) % 65536 == 0
      && to.htlcMinimumMsat == from.htlcMinimumMsat && to.htlcMaximumMsat == from.htlcMaximumMsat
  {
    var f := (h: Hop) => ToLdkHop(c, h);
    assert ToLdk(c, hint) == TryMap(f, hint);
    TryMapIff(f, hint);
    assert forall j :: 0 <= j < |hint| ==> f(hint[j]) == ToLdkHop(c, hint[j]);
    if ToLdk(c, hint).Some? {
      TryMapEach(f, hint);
    }
  }

  // ----- Merging

  /** The node ids of all hops, as the text they are compared in. */
  function NodeTexts(hints: seq<LdkHint>): set<string> {
    set i, j | 0 <= i < |hints| && 0 <= j < |hints[i]| :: HexEncode(hints[i][j].srcNodeId)
  }

  predicate Unique(nodes: set<string>, hint: Hint) {
    forall j :: 0 <= j < |hint| ==> hint[j].srcNodeId !in nodes
  }

  function ToLdkAll(c: Codec, hints: seq<Hint>): Option<seq<LdkHint>> {
    TryMap(h => ToLdk(c, h), hints)
  }

  /** The hints that pass the test, converted. */
  function Selected<A, B>(f: A -> Option<B>, keep: A -> bool, s: seq<A>): seq<B> {
    if s == [] then []
    else
      var before, x := Selected(f, keep, s[..|s| - 1]), s[|s| - 1];
      if keep(x) && f(x).Some? then before + [f(x).value] else before
  }

  /** The converted hints that share no node with `nodes`. */
  function Added(c: Codec, nodes: set<string>, hints: seq<Hint>): seq<LdkHint> {
    Selected(h => ToLdk(c, h), h => Unique(nodes, h), hints)
  }

  /** The hints of the new invoice. */
  function Merged(c: Codec, existing: seq<LdkHint>, hints: seq<Hint>, merge: bool): Option<seq<LdkHint>> {
    var converted := ToLdkAll(c, hints);
    if converted.None? then None
    else if hints == [] then Some(existing)
    else if merge then Some(existing + Added(c, NodeTexts(existing), hints))
    else converted
  }

  method ToLdkHints(c: Codec, hints: seq<Hint>) returns (r: Option<seq<LdkHint>>)
    ensures r == ToLdkAll(c, hints)
  {
    ghost var f := h => ToLdk(c, h);
    var converted := [];
    for i := 0 to |hints|
      invariant TryMap(f, hints[..i]) == Some(converted)
    {
      assert hints[..i + 1][..i] == hints[..i];
      var h := ToLdkHint(c, hints[i]);
      assert h == f(hints[i]);
      if h.None? {
        TryMapPrefix(f, hints, i + 1);
        return None;
      }
      converted := converted + [h.value];
    }
    assert hints[..|hints|] == hints;
    r := Some(converted);
  }

  method AddUnique(c: Codec, existing: seq<LdkHint>, hints: seq<Hint>) returns (all: seq<LdkHint>)
    requires ToLdkAll(c, hints).Some?
    ensures all == existing + Added(c, NodeTexts(existing), hints)
  {
    ghost var f := h => ToLdk(c, h);
    TryMapEach(f, hints);
    var nodes := NodeTexts(existing);
    ghost var keep := h => Unique(nodes, h);
    all := existing;
    for i := 0 to |hints|
      invariant all == existing + Selected(f, keep, hints[..i])
    {
      assert hints[..i + 1][..i] == hints[..i];
      assert keep(hints[i]) == Unique(nodes, hints[i]) && f(hints[i]).Some?;
      if Unique(nodes, hints[i]) {
        var h := ToLdkHint(c, hints[i]);
        assert h == f(hints[i]);
        all := all + [h.value];
      }
    }
    assert hints[..|hints|] == hints;
  }

  method MergeRoutingHints(c: Codec, existing: seq<LdkHint>, hints: seq<Hint>, merge: bool)
    returns (r: Option<seq<LdkHint>>)
    ensures r == Merged(c, existing, hints, merge)
  {
    var converted := ToLdkHints(c, hints);
    if converted.None? {
      return None;
    }
    if hints == [] {
      return Some(existing);
    }
    if merge {
      var all := AddUnique(c, existing, hints);
      return Some(all);
    }
    return converted;
  }

  // ----- What a merge does

  /** Node ids are given in the lower-case compressed form in which they are compared. */
  ghost predicate CanonicalIds(c: Codec, hints: seq<Hint>) {
    forall i, j :: 0 <= i < |hints| && 0 <= j < |hints[i]| ==>
      && ReadKey(c, hints[i][j].srcNodeId).Some?
      && hints[i][j].srcNodeId == HexEncode(ReadKey(c, hints[i][j].srcNodeId).value)
  }

  /** Some hop of the hints starts at the node. */
  ghost predicate HasNode(hints: seq<LdkHint>, key: Bytes) {
    exists i, j :: 0 <= i < |hints| && 0 <= j < |hints[i]| && hints[i][j].srcNodeId == key
  }

  ghost predicate SharesNode(hints: seq<LdkHint>, hint: LdkHint) {
    exists j :: 0 <= j < |hint| && HasNode(hints, hint[j].srcNodeId)
  }

  lemma NodeTextsIff(hints: seq<LdkHint>, key: Bytes)
    ensures HexEncode(key) in NodeTexts(hints) <==> HasNode(hints, key)
  {
    if HexEncode(key) in NodeTexts(hints) {
      var i, j :| 0 <= i < |hints| && 0 <= j < |hints[i]| && HexEncode(hints[i][j].srcNodeId) == HexEncode(key);
      HexRoundTrip(key);
      HexRoundTrip(hints[i][j].srcNodeId);
    }
  }

  /** For canonical ids the comparison of texts decides whether a node is shared. */
  lemma UniqueIff(c: Codec, existing: seq<LdkHint>, hints: seq<Hint>, i: nat)
    requires i < |hints| && CanonicalIds(c, hints) && ToLdk(c, hints[i]).Some?
    ensures Unique(NodeTexts(existing), hints[i]) <==> !SharesNode(existing, ToLdk(c, hints[i]).value)
  {
    var hint, ldk := hints[i], ToLdk(c, hints[i]).value;
    TryMapEach(h => ToLdkHop(c, h), hint);
    forall j | 0 <= j < |hint|
      ensures hint[j].srcNodeId in NodeTexts(existing) <==> HasNode(existing, ldk[j].srcNodeId)
    {
      HintKeys(c, hint, j);
      NodeTextsIff(existing, ldk[j].srcNodeId);
    }
  }

  lemma {:induction false} SelectedIff<A, B>(f: A -> Option<B>, keep: A -> bool, s: seq<A>, y: B)
    ensures y in Selected(f, keep, s) <==> exists i :: 0 <= i < |s| && keep(s[i]) && f(s[i]) == Some(y)
  {
    if s != [] {
      SelectedIff(f, keep, s[..|s| - 1], y);
      assert forall i :: 0 <= i < |s| - 1 ==> s[i] == s[..|s| - 1][i];
    }
  }

  lemma {:induction false} SelectedNothingIff<A, B>(f: A -> Option<B>, keep: A -> bool, s: seq<A>)
    requires forall i :: 0 <= i < |s| ==> f(s[i]).Some?
    ensures Selected(f, keep, s) == [] <==> forall i :: 0 <= i < |s| ==> !keep(s[i])
  {
    if s != [] {
      SelectedNothingIff(f, keep, s[..|s| - 1]);
      assert forall i :: 0 <= i < |s| - 1 ==> s[i] == s[..|s| - 1][i];
    }
  }

  lemma AddedIff(c: Codec, nodes: set<string>, hints: seq<Hint>, ldk: LdkHint)
    ensures ldk in Added(c, nodes, hints) <==>
      exists i :: 0 <= i < |hints| && Unique(nodes, hints[i]) && ToLdk(c, hints[i]) == Some(ldk)
  {
    var f, keep := (h: Hint) => ToLdk(c, h), (h: Hint) => Unique(nodes, h);
    assert Added(c, nodes, hints) == Selected(f, keep, hints);
    SelectedIff(f, keep, hints, ldk);
    if ldk in Added(c, nodes, hints) {
      var i :| 0 <= i < |hints| && keep(hints[i]) && f(hints[i]) == Some(ldk);
      assert Unique(nodes, hints[i]) && ToLdk(c, hints[i]) == Some(ldk);
    }
    if i :| 0 <= i < |hints| && Unique(nodes, hints[i]) && ToLdk(c, hints[i]) == Some(ldk) {
      assert keep(hints[i]) && f(hints[i]) == Some(ldk);
    }
  }

  lemma EachConverts(c: Codec, hints: seq<Hint>, i: nat)
    requires ToLdkAll(c, hints).Some? && i < |hints|
    ensures ToLdk(c, hints[i]).Some?
  {
    var f := (h: Hint) => ToLdk(c, h);
    TryMapEach(f, hints);
    assert f(hints[i]).Some?;
  }

  /**
  The call fails exactly when some hint cannot be read. Otherwise, without hints the invoice's own stay, and
  when they are not merged the given hints replace them, one by one.
  */
  lemma NotMerged(c: Codec, existing: seq<LdkHint>, hints: seq<Hint>, merge: bool)
    ensures Merged(c, existing, hints, merge).Some? <==> forall i :: 0 <= i < |hints| ==> Readable(c, hints[i])
    ensures hints == [] ==> Merged(c, existing, hints, merge) == Some(existing)
    ensures Merged(c, existing, hints, merge).Some? && !merge && hints != [] ==>
      var r := Merged(c, existing, hints, merge).value;
      |r| == |hints| && forall i :: 0 <= i < |hints| ==> ToLdk(c, hints[i]) == Some(r[i])
  {
    var f := (h: Hint) => ToLdk(c, h);
    assert ToLdkAll(c, hints) == TryMap(f, hints);
    TryMapIff(f, hints);
    forall i | 0 <= i < |hints|
      ensures f(hints[i]) == ToLdk(c, hints[i]) && (f(hints[i]).Some? <==> Readable(c, hints[i]))
    {
      HintConverts(c, hints[i]);
    }
    if ToLdkAll(c, hints).Some? {
      TryMapEach(f, hints);
    }
  }

  lemma {:induction false} SelectedAppend<A, B>(f: A -> Option<B>, keep: A -> bool, s: seq<A>, t: seq<A>)
    ensures Selected(f, keep, s + t) == Selected(f, keep, s) + Selected(f, keep, t)
  {
    if t == [] {
      assert s + t == s;
    } else {
      var n := |t| - 1;
      SelectedAppend(f, keep, s, t[..n]);
      assert (s + t)[..|s + t| - 1] == s + t[..n];
    }
  }

  /** The added hints come in the order in which they were given, each as often as it was given. */
  lemma AddedInOrder(c: Codec, nodes: set<string>, hints: seq<Hint>, more: seq<Hint>, hint: Hint)
    ensures Added(c, nodes, hints + more) == Added(c, nodes, hints) + Added(c, nodes, more)
    ensures ToLdk(c, hint).Some? ==>
      Added(c, nodes, [hint]) == if Unique(nodes, hint) then [ToLdk(c, hint).value] else []
  {
    var f, keep := (h: Hint) => ToLdk(c, h), (h: Hint) => Unique(nodes, h);
    SelectedAppend(f, keep, hints, more);
    assert [hint][..0] == [] && f(hint) == ToLdk(c, hint) && keep(hint) == Unique(nodes, hint);
    assert Selected(f, keep, [hint][..0]) == [];
  }

  /** A merge keeps the invoice's hints in front and adds a hint exactly when it shares no node with them. */
  lemma MergeIsDisjointUnion(c: Codec, existing: seq<LdkHint>, hints: seq<Hint>, i: nat)
    requires Merged(c, existing, hints, true).Some? && i < |hints| && CanonicalIds(c, hints)
    ensures var r := Merged(c, existing, hints, true).value;
      && existing <= r
      && ToLdk(c, hints[i]).Some?
      && (ToLdk(c, hints[i]).value in r[|existing|..] <==> !SharesNode(existing, ToLdk(c, hints[i]).value))
  {
    EachConverts(c, hints, i);
    var nodes, ldk := NodeTexts(existing), ToLdk(c, hints[i]).value;
    assert Merged(c, existing, hints, true).value[|existing|..] == Added(c, nodes, hints);
    AddedIff(c, nodes, hints, ldk);
    UniqueIff(c, existing, hints, i);
    if ldk in Added(c, nodes, hints) {
      var k :| 0 <= k < |hints| && Unique(nodes, hints[k]) && ToLdk(c, hints[k]) == Some(ldk);
      UniqueIff(c, existing, hints, k);
    }
  }

  /** After a merge every hint with a hop shares a node with the result. */
  lemma MergedBlocks(c: Codec, existing: seq<LdkHint>, hints: seq<Hint>, i: nat)
    requires Merged(c, existing, hints, true).Some? && i < |hints| && CanonicalIds(c, hints) && hints[i] != []
    ensures !Unique(NodeTexts(Merged(c, existing, hints, true).value), hints[i])
  {
    EachConverts(c, hints, i);
    var nodes, ldk := NodeTexts(existing), ToLdk(c, hints[i]).value;
    var r: seq<LdkHint> := Merged(c, existing, hints, true).value;
    var added := Added(c, nodes, hints);
    assert r == existing + added;
    HintKeys(c, hints[i], 0);
    if Unique(nodes, hints[i]) {
      AddedIff(c, nodes, hints, ldk);
      var k :| 0 <= k < |added| && added[k] == ldk;
      assert r[|existing| + k] == ldk && r[|existing| + k][0].srcNodeId == ldk[0].srcNodeId;
      assert HasNode(r, ldk[0].srcNodeId);
      assert SharesNode(r, ldk);
    } else {
      UniqueIff(c, existing, hints, i);
      var j :| 0 <= j < |ldk| && HasNode(existing, ldk[j].srcNodeId);
      var a, b :| 0 <= a < |existing| && 0 <= b < |existing[a]| && existing[a][b].srcNodeId == ldk[j].srcNodeId;
      assert r[a] == existing[a] && r[a][b].srcNodeId == ldk[j].srcNodeId;
      assert HasNode(r, ldk[j].srcNodeId);
      assert SharesNode(r, ldk);
    }
    UniqueIff(c, r, hints, i);
  }

  lemma AddedNothingIff(c: Codec, nodes: set<string>, hints: seq<Hint>)
    requires ToLdkAll(c, hints).Some?
    ensures Added(c, nodes, hints) == [] <==> forall i :: 0 <= i < |hints| ==> !Unique(nodes, hints[i])
  {
    var f, keep := (h: Hint) => ToLdk(c, h), (h: Hint) => Unique(nodes, h);
    assert Added(c, nodes, hints) == Selected(f, keep, hints);
    TryMapEach(f, hints);
    SelectedNothingIff(f, keep, hints);
    assert forall i :: 0 <= i < |hints| ==> (keep(hints[i]) <==> Unique(nodes, hints[i]));
  }

  /** Merging the same hints a second time adds nothing exactly when every hint has a hop. */
  lemma MergeTwiceIff(c: Codec, existing: seq<LdkHint>, hints: seq<Hint>)
    requires Merged(c, existing, hints, true).Some? && CanonicalIds(c, hints)
    ensures var once := Merged(c, existing, hints, true).value;
      Merged(c, once, hints, true) == Some(once) <==> forall i :: 0 <= i < |hints| ==> hints[i] != []
  {
    var once := Merged(c, existing, hints, true).value;
    var nodes := NodeTexts(once);
    AddedNothingIff(c, nodes, hints);
    forall i | 0 <= i < |hints| ensures Unique(nodes, hints[i]) <==> hints[i] == [] {
      if hints[i] != [] {
        MergedBlocks(c, existing, hints, i);
      }
    }
    assert once + Added(c, nodes, hints) == once <==> Added(c, nodes, hints) == [];
  }
}
