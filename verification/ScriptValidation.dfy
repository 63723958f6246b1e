/**
The lockup script as bytes and as the assembly text that is searched for the refund key, and the
validation that a received script is the expected one.
*/
module ScriptValidation {
  import opened Options
  import opened Text
  import opened Script

  // ----- Bytes

  /** One opcode byte and the data it pushes, if any. */
  datatype Chunk = Chunk(code: Byte, data: Bytes)

  const PUSHDATA1: Byte := 0x4C
  const PUSHDATA2: Byte := 0x4D
  const PUSHDATA4: Byte := 0x4E

  /** How many length bytes follow the opcode. */
  function LengthSize(code: Byte): nat {
    if code == PUSHDATA1 then 1 else if code == PUSHDATA2 then 2 else if code == PUSHDATA4 then 4 else 0
  }

  predicate WellFormed(c: Chunk) {
    if c.code < PUSHDATA1 then |c.data| == c.code
    else if c.code == PUSHDATA1 then |c.data| < 0x100
    else if c.code == PUSHDATA2 then |c.data| < 0x1_0000
    else if c.code == PUSHDATA4 then |c.data| < 0x1_0000_0000
    else c.data == []
  }

  predicate AllWellFormed(chunks: seq<Chunk>) {
    forall i :: 0 <= i < |chunks| ==> WellFormed(chunks[i])
  }

  function FixedWidth(n: nat, size: nat): (b: Bytes)
    ensures |b| == size
  {
    if size == 0 then [] else [n % 256] + FixedWidth(n / 256, size - 1)
  }

  function Pow256(size: nat): nat {
    if size == 0 then 1 else 256 * Pow256(size - 1)
  }

  lemma {:induction false} FixedWidthRoundTrip(n: nat, size: nat)
    requires n < Pow256(size)
    ensures FromLittleEndian(FixedWidth(n, size)) == n
  {
    if size > 0 {
      FixedWidthRoundTrip(n / 256, size - 1);
      assert FixedWidth(n, size)[1..] == FixedWidth(n / 256, size - 1);
    }
  }

  function SerializeChunk(c: Chunk): Bytes {
    [c.code] + FixedWidth(|c.data|, LengthSize(c.code)) + c.data
  }

  function Serialize(chunks: seq<Chunk>): Bytes {
    if chunks == [] then [] else SerializeChunk(chunks[0]) + Serialize(chunks[1..])
  }

  /** How a byte string ends: after a chunk, inside a length, or inside the data of an opcode. */
  datatype Tail = Complete | UnexpectedEnd | PastEnd(code: Byte)

  datatype Parsed = Parsed(chunks: seq<Chunk>, tail: Tail)

  function PushLength(b: Bytes): nat
    requires b != [] && |b| >= 1 + LengthSize(b[0])
  {
    if b[0] < PUSHDATA1 then b[0] else FromLittleEndian(b[1..1 + LengthSize(b[0])])
  }

  function Parse(b: Bytes): Parsed {
    if b == [] then Parsed([], Complete)
    else
      var k := LengthSize(b[0]);
      if |b| < 1 + k then Parsed([], UnexpectedEnd)
      else
        var n := PushLength(b);
        if |b| < 1 + k + n then Parsed([], PastEnd(b[0]))
        else
          var rest := Parse(b[1 + k + n..]);
          rest.(chunks := [Chunk(b[0], b[1 + k..1 + k + n])] + rest.chunks)
  }

  lemma ParseChunk(c: Chunk, rest: Bytes)
    requires WellFormed(c)
    ensures var b := SerializeChunk(c) + rest;
      var k := LengthSize(c.code);
      && b[0] == c.code && |b| >= 1 + k && PushLength(b) == |c.data|
      && |b| >= 1 + k + |c.data| && b[1 + k..1 + k + |c.data|] == c.data && b[1 + k + |c.data|..] == rest
  {
    var b := SerializeChunk(c) + rest;
    var k := LengthSize(c.code);
    assert b[1..1 + k] == FixedWidth(|c.data|, k);
    assert Pow256(1) == 0x100 && Pow256(2) == 0x1_0000;
    assert Pow256(4) == 256 * (256 * Pow256(2)) == 0x1_0000_0000;
    if k > 0 {
      FixedWidthRoundTrip(|c.data|, k);
    } else if c.code >= PUSHDATA1 {
      assert b[1..1] == [];
    }
  }

  lemma ParseCons(c: Chunk, tail: seq<Chunk>, rest: Bytes)
    requires WellFormed(c) && Parse(rest) == Parsed(tail, Complete)
    ensures Parse(SerializeChunk(c) + rest) == Parsed([c] + tail, Complete)
  {
    ParseChunk(c, rest);
    var b := SerializeChunk(c) + rest;
    var k := LengthSize(b[0]);
    assert Chunk(b[0], b[1 + k..1 + k + PushLength(b)]) == c;
  }

  /** Reading back what was written gives the same chunks. */
  lemma {:induction false} ParseRoundTrip(chunks: seq<Chunk>)
    requires AllWellFormed(chunks)
    ensures Parse(Serialize(chunks)) == Parsed(chunks, Complete)
  {
    if chunks != [] {
      var c, tail := chunks[0], chunks[1..];
      var rest := Serialize(tail);
      ParseRoundTrip(tail);
      ParseCons(c, tail, rest);
      assert chunks == [c] + tail && Serialize(chunks) == SerializeChunk(c) + rest;
    }
  }

  // ----- What the bytes mean to the machine

  const OPCODES: map<Byte, Opcode> := map[
    0x63 := OpIf, 0x67 := OpElse, 0x68 := OpEndIf, 0x75 := OpDrop, 0x82 := OpSize,
    0x87 := OpEqual, 0x88 := OpEqualVerify, 0xA9 := OpHash160, 0xAC := OpCheckSig, 0xB1 := OpCltv
  ]

  function Interpret(c: Chunk): Instr {
    if c.code <= PUSHDATA4 then Push(c.data)
    else if 0x51 <= c.code <= 0x60 then Push([c.code - 0x50])
    else if c.code in OPCODES then Op(OPCODES[c.code])
    else Unsupported(c.code)
  }

  function InterpretAll(chunks: seq<Chunk>): seq<Instr> {
    if chunks == [] then [] else [Interpret(chunks[0])] + InterpretAll(chunks[1..])
  }

  lemma {:induction false} InterpretAppend(a: seq<Chunk>, b: seq<Chunk>)
    ensures InterpretAll(a + b) == InterpretAll(a) + InterpretAll(b)
  {
    if a == [] {
      assert a + b == b;
    } else {
      assert (a + b)[1..] == a[1..] + b;
      InterpretAppend(a[1..], b);
    }
  }

  lemma Interpret1(a: Chunk)
    ensures InterpretAll([a]) == [Interpret(a)]
  {
    assert [a][1..] == [];
  }

  lemma Interpret2(a: Chunk, b: Chunk)
    ensures InterpretAll([a, b]) == [Interpret(a), Interpret(b)]
  {
    assert [a, b][1..] == [b];
    Interpret1(b);
  }

  lemma Interpret4(a: Chunk, b: Chunk, c: Chunk, d: Chunk)
    ensures InterpretAll([a, b, c, d]) == [Interpret(a), Interpret(b), Interpret(c), Interpret(d)]
  {
    assert [a, b, c, d] == [a, b] + [c, d];
    InterpretAppend([a, b], [c, d]);
    Interpret2(a, b);
    Interpret2(c, d);
  }

  /** A witness spends a script given as bytes; bytes that do not parse cannot be spent. */
  predicate SpendsBytes(env: Env, script: Bytes, stack: seq<Bytes>) {
    Parse(script).tail.Complete? && Spends(env, InterpretAll(Parse(script).chunks), stack)
  }

  // ----- Building

  function PushSlice(data: Bytes): Chunk {
    Chunk(
      if |data| < 0x4C then |data| as Byte
      else if |data| < 0x100 then PUSHDATA1
      else if |data| < 0x1_0000 then PUSHDATA2
      else PUSHDATA4,
      data)
  }

  /** Numbers up to 16 have opcodes of their own. */
  function PushHeight(height: nat): Chunk {
    if height == 0 then Chunk(0, [])
    else if height <= 16 then Chunk(0x50 + height, [])
    else PushSlice(EncodeNum(height))
  }

  function Plain(code: Byte): Chunk {
    Chunk(code, [])
  }

  const SIZE_CHUNKS := [Plain(0x82), PushSlice([0x20]), Plain(0x87), Plain(0x63)]

  function ClaimChunks(hash: Bytes, claimKey: Bytes): seq<Chunk> {
    [Plain(0xA9), PushSlice(hash), Plain(0x88), PushSlice(claimKey)]
  }

  function RefundChunks(height: nat, refundKey: Bytes): seq<Chunk> {
    [Plain(0x75), PushHeight(height), Plain(0xB1), Plain(0x75)] + [PushSlice(refundKey)]
  }

  const SIGNATURE_CHUNKS := [Plain(0x68), Plain(0xAC)]

  function LockupChunks(hash: Bytes, claimKey: Bytes, refundKey: Bytes, height: nat): seq<Chunk> {
    SIZE_CHUNKS + (ClaimChunks(hash, claimKey) + ([Plain(0x67)] + (RefundChunks(height, refundKey) + SIGNATURE_CHUNKS)))
  }

  datatype Error =
    | InvalidHex | InvalidKey | InvalidLockTime | InvalidPush | UnexpectedRedeemScript | UnexpectedLockupAddress

  function BuildExpectedScript(hash: Bytes, claimKey: Bytes, refundKey: Bytes, height: nat): Result<Bytes, Error> {
    if height >= LOCKTIME_THRESHOLD then Err(InvalidLockTime)
    else if |refundKey| >= 0x1_0000_0000 then Err(InvalidPush)
    else Ok(Serialize(LockupChunks(hash, claimKey, refundKey, height)))
  }

  /** Building fails exactly for a height that would be a time and for a refund key that no push can hold. */
  lemma BuildsIff(hash: Bytes, claimKey: Bytes, refundKey: Bytes, height: nat)
    ensures var r := BuildExpectedScript(hash, claimKey, refundKey, height);
      && (r.Ok? <==> height < 500_000_000 && |refundKey| <= 0xffff_ffff)
      && (r == Err(InvalidLockTime) <==> height >= 500_000_000)
      && (r == Err(InvalidPush) <==> height < 500_000_000 && |refundKey| > 0xffff_ffff)
  {
  }

  lemma SmallNum(n: nat)
    requires 1 <= n <= 16
    ensures EncodeNum(n) == [n]
  {
    assert LittleEndian(n / 256) == [];
  }

  lemma NumIsNotEmpty(n: nat)
    requires n > 0
    ensures EncodeNum(n) != []
  {
  }

  lemma PushHeightOk(height: nat)
    requires height < LOCKTIME_THRESHOLD
    ensures WellFormed(PushHeight(height)) && Interpret(PushHeight(height)) == Push(EncodeNum(height))
  {
    NumSize(height);
    if 1 <= height <= 16 {
      SmallNum(height);
    }
  }

  lemma BuiltWellFormed(hash: Bytes, claimKey: Bytes, refundKey: Bytes, height: nat)
    requires height < LOCKTIME_THRESHOLD && |refundKey| < 0x1_0000_0000 && |hash| == 20 && |claimKey| == 33
    ensures AllWellFormed(LockupChunks(hash, claimKey, refundKey, height))
  {
    PushHeightOk(height);
    assert AllWellFormed(SIZE_CHUNKS) && AllWellFormed(ClaimChunks(hash, claimKey));
    assert AllWellFormed([Plain(0x67)]) && AllWellFormed(RefundChunks(height, refundKey));
    assert AllWellFormed(SIGNATURE_CHUNKS);
  }

  /** The built chunks are the lockup program, whatever opcode the height takes. */
  lemma BuiltProgram(hash: Bytes, claimKey: Bytes, refundKey: Bytes, height: nat)
    requires height < LOCKTIME_THRESHOLD
    ensures InterpretAll(LockupChunks(hash, claimKey, refundKey, height)) ==
      LockupProgram(hash, claimKey, refundKey, height)
  {
    var claim, refund := ClaimChunks(hash, claimKey), RefundChunks(height, refundKey);
    InterpretFive(SIZE_CHUNKS, claim, [Plain(0x67)], refund, SIGNATURE_CHUNKS);
    Interpret4(Plain(0x82), PushSlice([0x20]), Plain(0x87), Plain(0x63));
    Interpret4(Plain(0xA9), PushSlice(hash), Plain(0x88), PushSlice(claimKey));
    Interpret1(Plain(0x67));
    InterpretRefund(height, refundKey);
    Interpret2(Plain(0x68), Plain(0xAC));
  }

  lemma InterpretFive(a: seq<Chunk>, b: seq<Chunk>, c: seq<Chunk>, d: seq<Chunk>, e: seq<Chunk>)
    ensures InterpretAll(a + (b + (c + (d + e)))) ==
      InterpretAll(a) + (InterpretAll(b) + (InterpretAll(c) + (InterpretAll(d) + InterpretAll(e))))
  {
    InterpretAppend(a, b + (c + (d + e)));
    InterpretAppend(b, c + (d + e));
    InterpretAppend(c, d + e);
    InterpretAppend(d, e);
  }

  lemma InterpretRefund(height: nat, refundKey: Bytes)
    requires height < LOCKTIME_THRESHOLD
    ensures InterpretAll(RefundChunks(height, refundKey)) == RefundBranch(height, refundKey)
  {
    PushHeightOk(height);
    InterpretAppend([Plain(0x75), PushHeight(height), Plain(0xB1), Plain(0x75)], [PushSlice(refundKey)]);
    Interpret4(Plain(0x75), PushHeight(height), Plain(0xB1), Plain(0x75));
    Interpret1(PushSlice(refundKey));
  }

  /** The built bytes are an HTLC; a refund key too long for the stack makes them unspendable. */
  lemma BuiltMeaning(env: Env, hash: Bytes, claimKey: Bytes, refundKey: Bytes, height: nat, w: seq<Bytes>)
    requires height < LOCKTIME_THRESHOLD && |refundKey| < 0x1_0000_0000 && |hash| == 20 && |claimKey| == 33
    ensures SpendsBytes(env, Serialize(LockupChunks(hash, claimKey, refundKey, height)), w) <==>
      |refundKey| <= MAX_ELEMENT && Htlc(env, hash, claimKey, refundKey, height, w)
  {
    BuiltWellFormed(hash, claimKey, refundKey, height);
    ParseRoundTrip(LockupChunks(hash, claimKey, refundKey, height));
    BuiltProgram(hash, claimKey, refundKey, height);
    if |refundKey| > MAX_ELEMENT {
      OversizedKeyIsUnspendable(env, hash, claimKey, refundKey, height, w);
    } else {
      LockupMeaning(env, hash, claimKey, refundKey, height, w);
    }
  }

  // ----- Assembly text

  function OpcodeName(op: Opcode): string {
    match op
    case OpSize => "OP_SIZE"
    case OpEqual => "OP_EQUAL"
    case OpEqualVerify => "OP_EQUALVERIFY"
    case OpIf => "OP_IF"
    case OpElse => "OP_ELSE"
    case OpEndIf => "OP_ENDIF"
    case OpHash160 => "OP_HASH160"
    case OpDrop => "OP_DROP"
    case OpCltv => "OP_CLTV"
    case OpCheckSig => "OP_CHECKSIG"
  }

  /** The printed name of an opcode; numbered families carry their number. */
  function Name(code: Byte): string {
    if code == 0 then "OP_0"
    else if code < PUSHDATA1 then "OP_PUSHBYTES_" + Decimal(code)
    else if code == PUSHDATA1 then "OP_PUSHDATA1"
    else if code == PUSHDATA2 then "OP_PUSHDATA2"
    else if code == PUSHDATA4 then "OP_PUSHDATA4"
    else if 0x51 <= code <= 0x60 then "OP_PUSHNUM_" + Decimal(code - 0x50)
    else if code in OPCODES then OpcodeName(OPCODES[code])
    else "OP_UNSUPPORTED_" + Decimal(code)
  }

  function ChunkTokens(c: Chunk): seq<string> {
    if c.data == [] then [Name(c.code)] else [Name(c.code), HexEncode(c.data)]
  }

  function Tokens(chunks: seq<Chunk>): seq<string> {
    if chunks == [] then [] else ChunkTokens(chunks[0]) + Tokens(chunks[1..])
  }

  /** The text that is printed where the bytes break off. */
  function TailText(tail: Tail, first: bool): string {
    match tail
    case Complete => ""
    case UnexpectedEnd => "<unexpected end>"
    case PastEnd(code) => (if first then "" else " ") + Name(code) + " <push past end>"
  }

  function AsmString(script: Bytes): string {
    var parsed := Parse(script);
    Join(Tokens(parsed.chunks), ' ') + TailText(parsed.tail, parsed.chunks == [])
  }

  lemma {:induction false} TokensAppend(a: seq<Chunk>, b: seq<Chunk>)
    ensures Tokens(a + b) == Tokens(a) + Tokens(b)
  {
    if a == [] {
      assert a + b == b;
    } else {
      assert (a + b)[1..] == a[1..] + b;
      TokensAppend(a[1..], b);
    }
  }

  lemma OpcodeNameIsOneWord(op: Opcode)
    ensures ' ' !in OpcodeName(op) && |OpcodeName(op)| >= 2 && OpcodeName(op)[0] == 'O'
  {
  }

  lemma NumberedNameIsOneWord(prefix: string, n: nat)
    requires ' ' !in prefix
    ensures ' ' !in prefix + Decimal(n)
  {
    DecimalIsDigits(n);
  }

  lemma NameIsOneWord(code: Byte)
    ensures ' ' !in Name(code) && |Name(code)| >= 2 && Name(code)[0] == 'O'
  {
    if 0 < code < PUSHDATA1 {
      NumberedNameIsOneWord("OP_PUSHBYTES_", code);
    } else if 0x51 <= code <= 0x60 {
      NumberedNameIsOneWord("OP_PUSHNUM_", code - 0x50);
    } else if code in OPCODES {
      OpcodeNameIsOneWord(OPCODES[code]);
    } else {
      NumberedNameIsOneWord("OP_UNSUPPORTED_", code);
    }
  }

  lemma {:induction false} TokensAreWords(chunks: seq<Chunk>)
    ensures forall i :: 0 <= i < |Tokens(chunks)| ==> ' ' !in Tokens(chunks)[i]
  {
    if chunks != [] {
      NameIsOneWord(chunks[0].code);
      HexText(chunks[0].data);
      TokensAreWords(chunks[1..]);
    }
  }

  lemma AsmIsJoin(chunks: seq<Chunk>)
    requires AllWellFormed(chunks)
    ensures AsmString(Serialize(chunks)) == Join(Tokens(chunks), ' ')
  {
    ParseRoundTrip(chunks);
  }

  /** Splitting the text of a complete script at the spaces gives its tokens back. */
  lemma AsmSplits(chunks: seq<Chunk>)
    requires AllWellFormed(chunks) && Tokens(chunks) != []
    ensures Split(AsmString(Serialize(chunks)), ' ') == Tokens(chunks)
  {
    AsmIsJoin(chunks);
    TokensAreWords(chunks);
    SplitJoin(Tokens(chunks), ' ');
  }

  lemma Tokens1(a: Chunk)
    ensures Tokens([a]) == ChunkTokens(a)
  {
    assert [a][1..] == [];
  }

  lemma Tokens2(a: Chunk, b: Chunk)
    ensures Tokens([a, b]) == ChunkTokens(a) + ChunkTokens(b)
  {
    assert [a, b] == [a] + [b];
    TokensAppend([a], [b]);
    Tokens1(a);
    Tokens1(b);
  }

  lemma Tokens4(a: Chunk, b: Chunk, c: Chunk, d: Chunk)
    ensures Tokens([a, b, c, d]) == ChunkTokens(a) + ChunkTokens(b) + ChunkTokens(c) + ChunkTokens(d)
  {
    assert [a, b, c, d] == [a, b] + [c, d];
    TokensAppend([a, b], [c, d]);
    Tokens2(a, b);
    Tokens2(c, d);
  }

  lemma HeadTokens(hash: Bytes, claimKey: Bytes)
    requires hash != [] && claimKey != []
    ensures |Tokens(SIZE_CHUNKS)| == 5 && |Tokens(ClaimChunks(hash, claimKey))| == 6 && |Tokens([Plain(0x67)])| == 1
  {
    Tokens4(Plain(0x82), PushSlice([0x20]), Plain(0x87), Plain(0x63));
    Tokens4(Plain(0xA9), PushSlice(hash), Plain(0x88), PushSlice(claimKey));
    Tokens1(Plain(0x67));
  }

  lemma RefundTokens(height: nat, refundKey: Bytes)
    ensures Tokens(RefundChunks(height, refundKey)) ==
      Tokens([Plain(0x75), PushHeight(height), Plain(0xB1), Plain(0x75)]) + ChunkTokens(PushSlice(refundKey))
    ensures |Tokens([Plain(0x75), PushHeight(height), Plain(0xB1), Plain(0x75)])| == if height >= 17 then 5 else 4
  {
    var first := [Plain(0x75), PushHeight(height), Plain(0xB1), Plain(0x75)];
    TokensAppend(first, [PushSlice(refundKey)]);
    Tokens1(PushSlice(refundKey));
    Tokens4(Plain(0x75), PushHeight(height), Plain(0xB1), Plain(0x75));
    if height >= 17 {
      NumIsNotEmpty(height);
    }
  }

  lemma SignatureTokens()
    ensures Tokens(SIGNATURE_CHUNKS) == ["OP_ENDIF", "OP_CHECKSIG"]
  {
    Tokens2(Plain(0x68), Plain(0xAC));
  }

  /** Token 18 is the refund key exactly when the height and the key each print as two words. */
  lemma LockupTokens(hash: Bytes, claimKey: Bytes, refundKey: Bytes, height: nat)
    requires hash != [] && claimKey != []
    ensures var tokens := Tokens(LockupChunks(hash, claimKey, refundKey, height));
      && |tokens| >= 19
      && (height >= 17 && refundKey != [] ==> tokens[18] == HexEncode(refundKey))
      && (height < 17 || refundKey == [] ==> tokens[18] in ["OP_ENDIF", "OP_CHECKSIG"])
  {
    var claim, refund := ClaimChunks(hash, claimKey), RefundChunks(height, refundKey);
    HeadTokens(hash, claimKey);
    RefundTokens(height, refundKey);
    SignatureTokens();
    TokensOfFive(SIZE_CHUNKS, claim, [Plain(0x67)], refund, SIGNATURE_CHUNKS);
    PickToken(
      Tokens(SIZE_CHUNKS), Tokens(claim), Tokens([Plain(0x67)]),
      Tokens([Plain(0x75), PushHeight(height), Plain(0xB1), Plain(0x75)]),
      ChunkTokens(PushSlice(refundKey)), Tokens(SIGNATURE_CHUNKS));
  }

  lemma TokensOfFive(a: seq<Chunk>, b: seq<Chunk>, c: seq<Chunk>, d: seq<Chunk>, e: seq<Chunk>)
    ensures Tokens(a + (b + (c + (d + e)))) == Tokens(a) + (Tokens(b) + (Tokens(c) + (Tokens(d) + Tokens(e))))
  {
    TokensAppend(a, b + (c + (d + e)));
    TokensAppend(b, c + (d + e));
    TokensAppend(c, d + e);
    TokensAppend(d, e);
  }

  lemma PickToken(a: seq<string>, b: seq<string>, c: seq<string>, d: seq<string>, key: seq<string>, end: seq<string>)
    requires |a| == 5 && |b| == 6 && |c| == 1 && 4 <= |d| <= 5 && 1 <= |key| <= 2 && |end| == 2
    ensures var all := a + (b + (c + ((d + key) + end)));
      && |all| >= 19
      && (|d| == 5 && |key| == 2 ==> all[18] == key[1])
      && (|d| == 4 || |key| == 1 ==> all[18] in end)
  {
    var all := a + (b + (c + ((d + key) + end)));
    assert all == (a + b + c + d) + key + end;
    if |d| == 4 && |key| == 1 {
      assert all[18] == end[1];
    } else if |d| == 4 || |key| == 1 {
      assert all[18] == end[0];
    }
  }

  lemma WordIsNotHex(s: string)
    requires |s| >= 2 && s[0] == 'O'
    ensures HexDecode(s) == None
  {
  }

  // ----- Validation

  /** The fields of a stored reverse swap that validation reads; `claimKey` is absent for an unusable secret key. */
  datatype ReverseSwap = ReverseSwap(redeemScript: string, claimKey: Option<Bytes>, paymentHash: Bytes, timeout: nat)

  function RefundToken(script: Bytes): string {
    var words := Split(AsmString(script), ' ');
    if |words| > 18 then words[18] else ""
  }

  function ValidateRedeemScript(
    swap: ReverseSwap, ripemd160: Bytes -> Bytes, p2wsh: Bytes -> string, lockupAddress: string)
    : Result<(), Error>
  {
    var received := HexDecode(swap.redeemScript);
    if received.None? then Err(InvalidHex)
    else if swap.claimKey.None? then Err(InvalidKey)
    else
      var refundKey := HexDecode(RefundToken(received.value));
      if refundKey.None? then Err(InvalidHex)
      else
        var hash := ripemd160(swap.paymentHash);
        var expected := BuildExpectedScript(hash, swap.claimKey.value, refundKey.value, swap.timeout);
        if expected.Err? then Err(expected.error)
        else if received.value != expected.value then Err(UnexpectedRedeemScript)
        else if p2wsh(received.value) != lockupAddress then Err(UnexpectedLockupAddress)
        else Ok(())
  }

  /** `script` is the lockup script of the swap for some refund key, and its height and key print as two words each. */
  ghost predicate IsLockup(swap: ReverseSwap, ripemd160: Bytes -> Bytes, script: Bytes, refundKey: Bytes) {
    && swap.claimKey.Some?
    && 17 <= swap.timeout < LOCKTIME_THRESHOLD && 0 < |refundKey| < 0x1_0000_0000
    && script == Serialize(LockupChunks(ripemd160(swap.paymentHash), swap.claimKey.value, refundKey, swap.timeout))
  }

  lemma BuiltToken(hash: Bytes, claimKey: Bytes, refundKey: Bytes, height: nat)
    requires |hash| == 20 && |claimKey| == 33 && height < LOCKTIME_THRESHOLD && |refundKey| < 0x1_0000_0000
    ensures HexDecode(RefundToken(Serialize(LockupChunks(hash, claimKey, refundKey, height)))) ==
      if height >= 17 && refundKey != [] then Some(refundKey) else None
  {
    var chunks := LockupChunks(hash, claimKey, refundKey, height);
    BuiltWellFormed(hash, claimKey, refundKey, height);
    LockupTokens(hash, claimKey, refundKey, height);
    AsmSplits(chunks);
    HexRoundTrip(refundKey);
    if height < 17 || refundKey == [] {
      WordIsNotHex(Tokens(chunks)[18]);
    }
  }

  /** Validation accepts exactly the lockup scripts of the swap, at their own address. */
  lemma AcceptedIff(swap: ReverseSwap, ripemd160: Bytes -> Bytes, p2wsh: Bytes -> string, lockupAddress: string)
    requires |ripemd160(swap.paymentHash)| == 20 && (swap.claimKey.Some? ==> |swap.claimKey.value| == 33)
    ensures ValidateRedeemScript(swap, ripemd160, p2wsh, lockupAddress).Ok? <==>
      exists script, refundKey ::
        && HexDecode(swap.redeemScript) == Some(script) && IsLockup(swap, ripemd160, script, refundKey)
        && p2wsh(script) == lockupAddress
    ensures ValidateRedeemScript(swap, ripemd160, p2wsh, lockupAddress) == Err(UnexpectedLockupAddress) <==>
      exists script, refundKey ::
        && HexDecode(swap.redeemScript) == Some(script) && IsLockup(swap, ripemd160, script, refundKey)
        && p2wsh(script) != lockupAddress
  {
    var received := HexDecode(swap.redeemScript);
    if received.Some? && swap.claimKey.Some? {
      var hash, key := ripemd160(swap.paymentHash), swap.claimKey.value;
      var refundKey := HexDecode(RefundToken(received.value));
      if ValidateRedeemScript(swap, ripemd160, p2wsh, lockupAddress) in [Ok(()), Err(UnexpectedLockupAddress)] {
        BuiltToken(hash, key, refundKey.value, swap.timeout);
        assert IsLockup(swap, ripemd160, received.value, refundKey.value);
      }
      forall r | IsLockup(swap, ripemd160, received.value, r)
        ensures refundKey == Some(r)
      {
        BuiltToken(hash, key, r, swap.timeout);
      }
    }
  }

  /**
  Whoever validation accepts a script for can rely on the HTLC: for every witness, the accepted bytes are
  spent by our key with the preimage, or by the refund key after our timeout, and by nothing else.
  */
  lemma AcceptedIsHtlc(swap: ReverseSwap, env: Env, p2wsh: Bytes -> string, lockupAddress: string, w: seq<Bytes>)
    requires |env.ripemd160(swap.paymentHash)| == 20 && (swap.claimKey.Some? ==> |swap.claimKey.value| == 33)
    requires ValidateRedeemScript(swap, env.ripemd160, p2wsh, lockupAddress).Ok?
    ensures var script := HexDecode(swap.redeemScript).value;
      var refundKey := HexDecode(RefundToken(script));
      && refundKey.Some?
      && (SpendsBytes(env, script, w) <==>
            && |refundKey.value| <= MAX_ELEMENT
            && Htlc(env, env.ripemd160(swap.paymentHash), swap.claimKey.value, refundKey.value, swap.timeout, w))
  {
    var script := HexDecode(swap.redeemScript).value;
    var refundKey := HexDecode(RefundToken(script)).value;
    BuiltMeaning(env, env.ripemd160(swap.paymentHash), swap.claimKey.value, refundKey, swap.timeout, w);
  }
}
