/**
A Bitcoin Script machine for the opcodes of the reverse swap lockup script, and the meaning of that
script for every witness. Hashes and the signature check are parameters.
*/
module Script {
  import opened Options
  import opened Text

  // ----- Script numbers

  function LittleEndian(n: nat): Bytes {
    if n == 0 then [] else [n % 256] + LittleEndian(n / 256)
  }

  function FromLittleEndian(b: Bytes): nat {
    if b == [] then 0 else b[0] + 256 * FromLittleEndian(b[1..])
  }

  /** The shortest little-endian form whose top bit, the sign, is clear. */
  function EncodeNum(n: nat): Bytes {
    var b := LittleEndian(n);
    if b != [] && b[|b| - 1] >= 128 then b + [0] else b
  }

  function DecodeNum(b: Bytes): int {
    if b == [] then 0
    else if b[|b| - 1] >= 128 then 0 - FromLittleEndian(b[|b| - 1 := b[|b| - 1] - 128])
    else FromLittleEndian(b)
  }

  lemma {:induction false} LittleEndianRoundTrip(n: nat)
    ensures FromLittleEndian(LittleEndian(n)) == n
  {
    if n > 0 {
      LittleEndianRoundTrip(n / 256);
      assert LittleEndian(n)[1..] == LittleEndian(n / 256);
    }
  }

  lemma {:induction false} PaddingIsZero(b: Bytes)
    ensures FromLittleEndian(b + [0]) == FromLittleEndian(b)
  {
    if b != [] {
      PaddingIsZero(b[1..]);
      assert (b + [0])[1..] == b[1..] + [0];
    } else {
      assert (b + [0])[1..] == [];
    }
  }

  /** Every non-negative number survives its encoding, so the encoding is injective. */
  lemma NumRoundTrip(n: nat)
    ensures DecodeNum(EncodeNum(n)) == n
  {
    LittleEndianRoundTrip(n);
    PaddingIsZero(LittleEndian(n));
  }

  lemma {:induction false} NumSize(n: nat)
    requires n < 0x1_0000_0000
    ensures |EncodeNum(n)| <= 5
  {
    assert LittleEndian(n / 0x1_0000_0000) == [];
    assert n / 256 / 256 / 256 / 256 == n / 0x1_0000_0000;
    assert |LittleEndian(n / 256 / 256 / 256)| <= 1;
    assert |LittleEndian(n / 256 / 256)| <= 2;
    assert |LittleEndian(n / 256)| <= 3;
  }

  // ----- The machine

  datatype Opcode =
    | OpSize | OpEqual | OpEqualVerify | OpIf | OpElse | OpEndIf
    | OpHash160 | OpDrop | OpCltv | OpCheckSig

  datatype Instr = Push(data: Bytes) | Op(op: Opcode) | Unsupported(code: Byte)

  /** A signature check says valid, invalid, or that the signature is not even encoded correctly. */
  datatype SigCheck = Valid | Invalid | Malformed

  datatype Env = Env(
    sha256: Bytes -> Bytes,
    ripemd160: Bytes -> Bytes,
    checkSig: (Bytes, Bytes) -> SigCheck,
    lockTime: nat,
    sequence: nat
  )

  const MAX_ELEMENT := 520
  const LOCKTIME_THRESHOLD := 500_000_000
  const SEQUENCE_FINAL := 0xFFFF_FFFF

  /** The main stack, bottom first, and the stack of open conditionals; a failed script has no state. */
  datatype Machine = Running(stack: seq<Bytes>, conds: seq<bool>) | Failed

  const TRUE: Bytes := [1]
  const FALSE: Bytes := []

  function Bool(b: bool): Bytes {
    if b then TRUE else FALSE
  }

  /** Zero and negative zero are false. */
  predicate CastToBool(b: Bytes) {
    exists i :: 0 <= i < |b| && b[i] != 0 && !(i == |b| - 1 && b[i] == 128)
  }

  predicate Executing(conds: seq<bool>) {
    forall i :: 0 <= i < |conds| ==> conds[i]
  }

  function Hash160(env: Env, x: Bytes): Bytes {
    env.ripemd160(env.sha256(x))
  }

  /** BIP 65: the operand is a non-negative height or time that the transaction's lock time has reached. */
  predicate LockTimeReached(env: Env, operand: Bytes) {
    && |operand| <= 5
    && DecodeNum(operand) >= 0
    && (DecodeNum(operand) < LOCKTIME_THRESHOLD <==> env.lockTime < LOCKTIME_THRESHOLD)
    && DecodeNum(operand) <= env.lockTime
    && env.sequence != SEQUENCE_FINAL
  }

  function RunOp(env: Env, op: Opcode, stack: seq<Bytes>, conds: seq<bool>): Machine {
    var n := |stack|;
    if n == 0 then Failed
    else
      var top := stack[n - 1];
      match op
      case OpSize => Running(stack + [EncodeNum(|top|)], conds)
      case OpDrop => Running(stack[..n - 1], conds)
      case OpHash160 => Running(stack[..n - 1] + [Hash160(env, top)], conds)
      case OpCltv => if LockTimeReached(env, top) then Running(stack, conds) else Failed
      case OpIf => Running(stack[..n - 1], conds + [CastToBool(top)])
      case OpEqual => if n < 2 then Failed else Running(stack[..n - 2] + [Bool(stack[n - 2] == top)], conds)
      case OpEqualVerify => if n < 2 || stack[n - 2] != top then Failed else Running(stack[..n - 2], conds)
      case OpCheckSig =>
        if n < 2 || env.checkSig(stack[n - 2], top).Malformed? then Failed
        else Running(stack[..n - 2] + [Bool(env.checkSig(stack[n - 2], top).Valid?)], conds)
      case OpElse => Failed
      case OpEndIf => Failed
  }

  function Step(env: Env, instr: Instr, m: Machine): Machine {
    match m
    case Failed => Failed
    case Running(stack, conds) =>
      match instr
      case Unsupported(_) => Failed
      case Push(data) =>
        if |data| > MAX_ELEMENT then Failed
        else if Executing(conds) then Running(stack + [data], conds)
        else m
      case Op(op) =>
        match op
        case OpElse => if conds == [] then Failed else Running(stack, conds[..|conds| - 1] + [!conds[|conds| - 1]])
        case OpEndIf => if conds == [] then Failed else Running(stack, conds[..|conds| - 1])
        case OpIf => if Executing(conds) then RunOp(env, op, stack, conds) else Running(stack, conds + [false])
        case _ => if Executing(conds) then RunOp(env, op, stack, conds) else m
  }

  function Exec(env: Env, program: seq<Instr>, m: Machine): Machine {
    if program == [] then m else Exec(env, program[1..], Step(env, program[0], m))
  }

  /** A witness spends a script when exactly one element is left and it is true. */
  predicate Spends(env: Env, program: seq<Instr>, stack: seq<Bytes>) {
    && (forall i :: 0 <= i < |stack| ==> |stack[i]| <= MAX_ELEMENT)
    && var m := Exec(env, program, Running(stack, []));
       m.Running? && m.conds == [] && |m.stack| == 1 && CastToBool(m.stack[0])
  }

  lemma {:induction false} ExecAppend(env: Env, p: seq<Instr>, q: seq<Instr>, m: Machine)
    ensures Exec(env, p + q, m) == Exec(env, q, Exec(env, p, m))
    decreases |p|
  {
    if p == [] {
      assert p + q == q;
    } else {
      assert (p + q)[1..] == p[1..] + q;
      ExecAppend(env, p[1..], q, Step(env, p[0], m));
    }
  }

  lemma {:induction false} FailedStaysFailed(env: Env, p: seq<Instr>)
    ensures Exec(env, p, Failed) == Failed
  {
    if p != [] {
      FailedStaysFailed(env, p[1..]);
    }
  }

  // ----- The lockup script

  const CHECK_SIZE := [Op(OpSize), Push([0x20]), Op(OpEqual), Op(OpIf)]

  function ClaimBranch(hash: Bytes, claimKey: Bytes): seq<Instr> {
    [Op(OpHash160), Push(hash), Op(OpEqualVerify), Push(claimKey)]
  }

  function RefundBranch(height: nat, refundKey: Bytes): seq<Instr> {
    [Op(OpDrop), Push(EncodeNum(height)), Op(OpCltv), Op(OpDrop), Push(refundKey)]
  }

  const CHECK_SIGNATURE := [Op(OpEndIf), Op(OpCheckSig)]

  /** What `build_expected_reverse_swap_script` emits; `hash` is the RIPEMD-160 of the payment hash. */
  function LockupProgram(hash: Bytes, claimKey: Bytes, refundKey: Bytes, height: nat): seq<Instr> {
    CHECK_SIZE + (ClaimBranch(hash, claimKey) + ([Op(OpElse)] + (RefundBranch(height, refundKey) + CHECK_SIGNATURE)))
  }

  // ----- Its meaning

  lemma Exec1(env: Env, a: Instr, m: Machine)
    ensures Exec(env, [a], m) == Step(env, a, m)
  {
    assert [a][1..] == [];
  }

  lemma Exec2(env: Env, a: Instr, b: Instr, m: Machine)
    ensures Exec(env, [a, b], m) == Step(env, b, Step(env, a, m))
  {
    assert [a, b][1..] == [b];
    Exec1(env, b, Step(env, a, m));
  }

  lemma Exec4(env: Env, a: Instr, b: Instr, c: Instr, d: Instr, m: Machine)
    ensures Exec(env, [a, b, c, d], m) == Step(env, d, Step(env, c, Step(env, b, Step(env, a, m))))
  {
    assert [a, b, c, d] == [a, b] + [c, d];
    ExecAppend(env, [a, b], [c, d], m);
    Exec2(env, a, b, m);
    Exec2(env, c, d, Step(env, b, Step(env, a, m)));
  }

  lemma SizeIs32(x: Bytes)
    ensures EncodeNum(|x|) == [0x20] <==> |x| == 32
  {
    NumRoundTrip(|x|);
    NumRoundTrip(32);
    assert LittleEndian(32 / 256) == [];
    assert EncodeNum(32) == [0x20];
  }

  /** The size check consumes nothing and opens the conditional with its verdict. */
  lemma RunSizeCheck(env: Env, w: seq<Bytes>)
    ensures w == [] ==> Exec(env, CHECK_SIZE, Running(w, [])) == Failed
    ensures w != [] ==> Exec(env, CHECK_SIZE, Running(w, [])) == Running(w, [|w[|w| - 1]| == 32])
  {
    var m := Running(w, []);
    Exec4(env, Op(OpSize), Push([0x20]), Op(OpEqual), Op(OpIf), m);
    if w != [] {
      var x := w[|w| - 1];
      SizeIs32(x);
      var m1 := Step(env, Op(OpSize), m);
      var m2 := Step(env, Push([0x20]), m1);
      assert m2 == Running(w + [EncodeNum(|x|), [0x20]], []);
      var m3 := Step(env, Op(OpEqual), m2);
      assert m3 == Running(w + [Bool(|x| == 32)], []) by {
        assert m2.stack[..|w|] == w;
      }
      assert CastToBool(TRUE) by {
        assert TRUE[0] == 1;
      }
      assert (w + [Bool(|x| == 32)])[..|w|] == w;
    }
  }

  predicate Plain(instr: Instr) {
    (instr.Push? && |instr.data| <= MAX_ELEMENT) || (instr.Op? && !(instr.op in {OpIf, OpElse, OpEndIf}))
  }

  /** A branch that is not taken has no effect. */
  lemma {:induction false} SkipBranch(env: Env, p: seq<Instr>, w: seq<Bytes>)
    requires forall i :: 0 <= i < |p| ==> Plain(p[i])
    ensures Exec(env, p, Running(w, [false])) == Running(w, [false])
  {
    if p != [] {
      assert !Executing([false]) by {
        assert ![false][0];
      }
      SkipBranch(env, p[1..], w);
    }
  }

  lemma RunClaim(env: Env, hash: Bytes, claimKey: Bytes, w: seq<Bytes>)
    requires w != [] && |hash| <= MAX_ELEMENT && |claimKey| <= MAX_ELEMENT
    ensures Exec(env, ClaimBranch(hash, claimKey), Running(w, [true])) ==
      if Hash160(env, w[|w| - 1]) == hash then Running(w[..|w| - 1] + [claimKey], [true]) else Failed
  {
    var m := Running(w, [true]);
    Exec4(env, Op(OpHash160), Push(hash), Op(OpEqualVerify), Push(claimKey), m);
    var base, h := w[..|w| - 1], Hash160(env, w[|w| - 1]);
    var m1 := Step(env, Op(OpHash160), m);
    assert m1 == Running(base + [h], [true]);
    var m2 := Step(env, Push(hash), m1);
    assert m2 == Running(base + [h] + [hash], [true]);
    assert m2.stack[|m2.stack| - 2] == h && m2.stack[..|m2.stack| - 2] == base;
  }

  /** The lock height's own condition on the spending transaction. */
  predicate HeightReached(env: Env, height: nat) {
    height <= env.lockTime < LOCKTIME_THRESHOLD && env.sequence != SEQUENCE_FINAL
  }

  lemma RunRefund(env: Env, height: nat, refundKey: Bytes, w: seq<Bytes>)
    requires w != [] && height < LOCKTIME_THRESHOLD && |refundKey| <= MAX_ELEMENT
    ensures Exec(env, RefundBranch(height, refundKey), Running(w, [true])) ==
      if HeightReached(env, height) then Running(w[..|w| - 1] + [refundKey], [true]) else Failed
  {
    var m, base, num := Running(w, [true]), w[..|w| - 1], EncodeNum(height);
    var first := [Op(OpDrop), Push(num), Op(OpCltv), Op(OpDrop)];
    assert RefundBranch(height, refundKey) == first + [Push(refundKey)];
    ExecAppend(env, first, [Push(refundKey)], m);
    Exec4(env, Op(OpDrop), Push(num), Op(OpCltv), Op(OpDrop), m);
    Exec1(env, Push(refundKey), Exec(env, first, m));
    NumRoundTrip(height);
    NumSize(height);
    var m1 := Step(env, Op(OpDrop), m);
    var m2 := Step(env, Push(num), m1);
    assert m2 == Running(base + [num], [true]);
    assert LockTimeReached(env, num) <==> HeightReached(env, height);
    assert (base + [num])[..|base|] == base;
  }

  lemma RunSignature(env: Env, w: seq<Bytes>, taken: bool)
    ensures var m := Exec(env, CHECK_SIGNATURE, Running(w, [taken]));
      if |w| < 2 || env.checkSig(w[|w| - 2], w[|w| - 1]).Malformed? then m == Failed
      else m == Running(w[..|w| - 2] + [Bool(env.checkSig(w[|w| - 2], w[|w| - 1]).Valid?)], [])
  {
    Exec2(env, Op(OpEndIf), Op(OpCheckSig), Running(w, [taken]));
  }

  /** What the script runs to after the size check: one of the two keys on top of the rest of the witness. */
  function KeyChosen(env: Env, hash: Bytes, claimKey: Bytes, refundKey: Bytes, height: nat, x: Bytes): Option<Bytes> {
    if |x| == 32 then (if Hash160(env, x) == hash then Some(claimKey) else None)
    else if HeightReached(env, height) then Some(refundKey)
    else None
  }

  lemma RunBranches(env: Env, hash: Bytes, claimKey: Bytes, refundKey: Bytes, height: nat, w: seq<Bytes>)
    requires w != [] && height < LOCKTIME_THRESHOLD
    requires |hash| <= MAX_ELEMENT && |claimKey| <= MAX_ELEMENT && |refundKey| <= MAX_ELEMENT
    ensures var x := w[|w| - 1];
      var refund := RefundBranch(height, refundKey);
      var branches := ClaimBranch(hash, claimKey) + ([Op(OpElse)] + (refund + CHECK_SIGNATURE));
      var key := KeyChosen(env, hash, claimKey, refundKey, height, x);
      Exec(env, branches, Running(w, [|x| == 32])) ==
        if key.Some? then Exec(env, CHECK_SIGNATURE, Running(w[..|w| - 1] + [key.value], [|x| != 32])) else Failed
  {
    var x := w[|w| - 1];
    var claim, refund := ClaimBranch(hash, claimKey), RefundBranch(height, refundKey);
    var m := Running(w, [|x| == 32]);
    ExecAppend(env, claim, [Op(OpElse)] + (refund + CHECK_SIGNATURE), m);
    var m1 := Exec(env, claim, m);
    ExecAppend(env, [Op(OpElse)], refund + CHECK_SIGNATURE, m1);
    Exec1(env, Op(OpElse), m1);
    var m2 := Step(env, Op(OpElse), m1);
    ExecAppend(env, refund, CHECK_SIGNATURE, m2);
    FailedStaysFailed(env, refund);
    FailedStaysFailed(env, CHECK_SIGNATURE);
    if |x| == 32 {
      RunClaim(env, hash, claimKey, w);
      NumSize(height);
      if m1.Running? {
        assert m2 == Running(m1.stack, [false]);
        SkipBranch(env, refund, m1.stack);
      }
    } else {
      SkipBranch(env, claim, w);
      assert m2 == Running(w, [true]);
      RunRefund(env, height, refundKey, w);
    }
  }

  /** The two ways to spend: by preimage and claim key, or after the lock height by the refund key. */
  predicate Htlc(env: Env, hash: Bytes, claimKey: Bytes, refundKey: Bytes, height: nat, w: seq<Bytes>) {
    && |w| == 2 && |w[0]| <= MAX_ELEMENT && |w[1]| <= MAX_ELEMENT
    && (|| (|w[1]| == 32 && Hash160(env, w[1]) == hash && env.checkSig(w[0], claimKey).Valid?)
        || (|w[1]| != 32 && HeightReached(env, height) && env.checkSig(w[0], refundKey).Valid?))
  }

  /**
  The script is an HTLC: a witness spends it exactly when it is a signature and one more element, and
  either the element is the 32-byte preimage and the signature is the claimer's, or the element is not
  32 bytes long, the lock height has been reached and the signature is the refunder's.
  */
  lemma LockupMeaning(env: Env, hash: Bytes, claimKey: Bytes, refundKey: Bytes, height: nat, w: seq<Bytes>)
    requires height < LOCKTIME_THRESHOLD
    requires |hash| <= MAX_ELEMENT && |claimKey| <= MAX_ELEMENT && |refundKey| <= MAX_ELEMENT
    ensures Spends(env, LockupProgram(hash, claimKey, refundKey, height), w) <==>
      Htlc(env, hash, claimKey, refundKey, height, w)
  {
    var branches := ClaimBranch(hash, claimKey) + ([Op(OpElse)] + (RefundBranch(height, refundKey) + CHECK_SIGNATURE));
    ExecAppend(env, CHECK_SIZE, branches, Running(w, []));
    RunSizeCheck(env, w);
    FailedStaysFailed(env, branches);
    assert CastToBool(TRUE) by {
      assert TRUE[0] == 1;
    }
    if w != [] {
      RunBranches(env, hash, claimKey, refundKey, height, w);
      var x := w[|w| - 1];
      var key := KeyChosen(env, hash, claimKey, refundKey, height, x);
      if key.Some? {
        var w' := w[..|w| - 1] + [key.value];
        RunSignature(env, w', |x| != 32);
      }
    }
  }

  /** A refund key too long for the stack makes the output unspendable, by either party. */
  lemma OversizedKeyIsUnspendable(env: Env, hash: Bytes, claimKey: Bytes, refundKey: Bytes, height: nat, w: seq<Bytes>)
    requires |refundKey| > MAX_ELEMENT
    ensures !Spends(env, LockupProgram(hash, claimKey, refundKey, height), w)
  {
    var before := CHECK_SIZE + (ClaimBranch(hash, claimKey) + ([Op(OpElse)] + RefundBranch(height, refundKey)[..4]));
    var after := [Push(refundKey)] + CHECK_SIGNATURE;
    assert LockupProgram(hash, claimKey, refundKey, height) == before + after;
    var m := Running(w, []);
    ExecAppend(env, before, after, m);
    ExecAppend(env, [Push(refundKey)], CHECK_SIGNATURE, Exec(env, before, m));
    Exec1(env, Push(refundKey), Exec(env, before, m));
    FailedStaysFailed(env, CHECK_SIGNATURE);
  }
}
