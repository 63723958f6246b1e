/**
Short channel ids: the 64-bit number of section "Definition of short_channel_id" of BOLT 7 and its
text form. Masks, shifts and ors are defined bit by bit; `BitsAreFields` and `PrintedBits` say that they are
remainders, products, quotients and sums of disjoint fields.
*/
module ShortChannelId {
  import opened Options
  import opened Text

  const U64: nat := 0x1_0000_0000_0000_0000
  const BITS_16: nat := 0x1_0000
  const BITS_24: nat := 0x100_0000
  const BITS_40: nat := 0x100_0000_0000

  // ----- Reading numbers

  predicate AllDigits(s: string) {
    forall i :: 0 <= i < |s| ==> IsDigit(s[i])
  }

  function DigitsValue(s: string): nat
    requires AllDigits(s)
  {
    if s == "" then 0
    else
      assert IsDigit(s[|s| - 1]);
      10 * DigitsValue(s[..|s| - 1]) + (s[|s| - 1] as int - '0' as int)
  }

  /** One leading plus sign and leading zeros are accepted. */
  function ParseU64(s: string): Option<nat> {
    var digits := if s != "" && s[0] == '+' then s[1..] else s;
    if digits == "" || !AllDigits(digits) then None
    else if DigitsValue(digits) >= U64 then None
    else Some(DigitsValue(digits))
  }

  lemma {:induction false} DecimalValue(n: nat)
    ensures AllDigits(Decimal(n)) && DigitsValue(Decimal(n)) == n
  {
    DecimalIsDigits(n);
    if n >= 10 {
      DecimalValue(n / 10);
      assert Decimal(n)[..|Decimal(n)| - 1] == Decimal(n / 10);
    } else {
      assert Decimal(n)[..0] == "";
    }
  }

  lemma ParseDecimal(n: nat)
    requires n < U64
    ensures ParseU64(Decimal(n)) == Some(n)
  {
    DecimalValue(n);
    assert IsDigit(Decimal(n)[0]);
  }

  function Zeros(k: nat): string {
    seq(k, i => '0')
  }

  /** The shortest form of the number, possibly after zeros and, in front of all, one plus sign. */
  ghost predicate IsNumeral(text: string, n: nat) {
    exists k: nat :: text == Zeros(k) + Decimal(n) || text == ['+'] + (Zeros(k) + Decimal(n))
  }

  lemma OneDigit(c: char)
    requires IsDigit(c)
    ensures Decimal(c as int - '0' as int) == [c]
  {
  }

  lemma OneMoreDigit(n: nat, c: char)
    requires n > 0 && IsDigit(c)
    ensures Decimal(10 * n + (c as int - '0' as int)) == Decimal(n) + [c]
  {
    var v := c as int - '0' as int;
    assert (10 * n + v) / 10 == n && (10 * n + v) % 10 == v;
    OneDigit(c);
  }

  /** One more digit behind a numeral; a zero that was the whole number is then one of the leading zeros. */
  lemma NumeralSnoc(k: nat, n: nat, c: char) returns (k': nat)
    requires IsDigit(c)
    ensures Zeros(k) + Decimal(n) + [c] == Zeros(k') + Decimal(10 * n + (c as int - '0' as int))
  {
    if n == 0 {
      k' := k + 1;
      OneDigit(c);
      assert Zeros(k) + "0" == Zeros(k');
    } else {
      k' := k;
      OneMoreDigit(n, c);
      assert Zeros(k) + Decimal(n) + [c] == Zeros(k) + (Decimal(n) + [c]);
    }
  }

  lemma {:induction false} DigitsAreNumeral(s: string) returns (k: nat)
    requires s != "" && AllDigits(s)
    ensures s == Zeros(k) + Decimal(DigitsValue(s))
  {
    var n := |s| - 1;
    assert IsDigit(s[n]) && s == s[..n] + [s[n]];
    if n == 0 {
      k := 0;
      OneDigit(s[0]);
      assert s == Zeros(0) + [s[0]];
    } else {
      var before := DigitsAreNumeral(s[..n]);
      k := NumeralSnoc(before, DigitsValue(s[..n]), s[n]);
    }
  }

  lemma {:induction false} ZerosAreNothing(k: nat, s: string)
    requires AllDigits(s)
    ensures AllDigits(Zeros(k) + s) && DigitsValue(Zeros(k) + s) == DigitsValue(s)
    decreases k + |s|
  {
    var all := Zeros(k) + s;
    if s != "" {
      assert all[..|all| - 1] == Zeros(k) + s[..|s| - 1];
      ZerosAreNothing(k, s[..|s| - 1]);
    } else if k > 0 {
      assert all[..|all| - 1] == Zeros(k - 1) + s;
      ZerosAreNothing(k - 1, s);
    }
  }

  lemma NumeralReads(k: nat, n: nat)
    requires n < U64
    ensures ParseU64(Zeros(k) + Decimal(n)) == Some(n) && ParseU64(['+'] + (Zeros(k) + Decimal(n))) == Some(n)
  {
    var digits := Zeros(k) + Decimal(n);
    DecimalValue(n);
    ZerosAreNothing(k, Decimal(n));
    assert IsDigit(digits[0]) && (['+'] + digits)[1..] == digits;
  }

  lemma ReadIsNumeral(text: string)
    requires ParseU64(text).Some?
    ensures ParseU64(text).value < U64 && IsNumeral(text, ParseU64(text).value)
  {
    var digits := if text[0] == '+' then text[1..] else text;
    var k := DigitsAreNumeral(digits);
    if text[0] == '+' {
      assert text == ['+'] + digits;
    }
  }

  /** Exactly the numerals of the number are read as it, if it fits in 64 bits. */
  lemma ReadsNumberIff(text: string, n: nat)
    ensures ParseU64(text) == Some(n) <==> n < U64 && IsNumeral(text, n)
  {
    if ParseU64(text) == Some(n) {
      ReadIsNumeral(text);
    } else if n < U64 && IsNumeral(text, n) {
      var k: nat :| text == Zeros(k) + Decimal(n) || text == ['+'] + (Zeros(k) + Decimal(n));
      NumeralReads(k, n);
      assert false;
    }
  }

  // ----- The id

  /** The three fields side by side, each cut to its width. */
  function Pack(block: nat, tx: nat, output: nat): (id: nat)
    ensures id < U64
  {
    block % BITS_24 * BITS_40 + tx % BITS_24 * BITS_16 + output % BITS_16
  }

  // ----- The bit operations

  function Pow2(n: nat): (p: nat)
    ensures p > 0
  {
    if n == 0 then 1 else 2 * Pow2(n - 1)
  }

  /** Bit by bit: a bit of the result is set when both bits are. */
  function And(x: nat, y: nat): nat {
    if x == 0 || y == 0 then 0 else 2 * And(x / 2, y / 2) + (x % 2) * (y % 2)
  }

  /** Bit by bit: a bit of the result is set when one of the bits is. */
  function Or(x: nat, y: nat): nat {
    if x == 0 then y else if y == 0 then x
    else 2 * Or(x / 2, y / 2) + if x % 2 == 1 || y % 2 == 1 then 1 else 0
  }

  /** Shifts of 64-bit words: what leaves the word at the top is gone. */
  function ShiftLeft(x: nat, n: nat): nat {
    x * Pow2(n) % U64
  }

  function ShiftRight(x: nat, n: nat): nat {
    Quotient(x, Pow2(n));
    x / Pow2(n)
  }

  lemma Quotient(x: nat, p: nat)
    requires p > 0
    ensures x / p >= 0
  {
  }

  /** Masking the lowest bits is a remainder. */
  lemma {:induction false} MaskIsRemainder(x: nat, n: nat)
    ensures And(x, Pow2(n) - 1) == x % Pow2(n)
  {
    if n > 0 {
      var p := Pow2(n - 1);
      assert (Pow2(n) - 1) / 2 == p - 1 && (Pow2(n) - 1) % 2 == 1;
      MaskIsRemainder(x / 2, n - 1);
      HalfRemainder(x, p);
    }
  }

  lemma HalfRemainder(x: nat, p: nat)
    requires p > 0
    ensures x % (2 * p) == 2 * (x / 2 % p) + x % 2
  {
    var q, m := x / 2 / p, x / 2 % p;
    assert x / 2 == p * q + m;
    assert x == (2 * p) * q + (2 * m + x % 2);
    Remainder(2 * p, q, 2 * m + x % 2);
  }

  lemma Remainder(p: nat, q: nat, m: nat)
    requires m < p
    ensures (p * q + m) % p == m
  {
    var x := p * q + m;
    var d := x / p;
    assert x == p * d + x % p;
    if d < q {
      NextMultiple(p, d, q);
    } else if d > q {
      NextMultiple(p, q, d);
    }
  }

  lemma NextMultiple(p: nat, a: nat, b: nat)
    requires a < b
    ensures p * a + p <= p * b
  {
    assert p * b == p * a + p * (b - a);
    assert p * (b - a) == p + p * (b - a - 1);
  }

  /** Joining a number with one that only has bits above it is a sum. */
  lemma {:induction false} JoinIsSum(high: nat, n: nat, low: nat)
    requires low < Pow2(n)
    ensures Or(high * Pow2(n), low) == high * Pow2(n) + low
  {
    if n > 0 && high > 0 && low > 0 {
      var p := Pow2(n - 1);
      var x := high * Pow2(n);
      assert x == 2 * (high * p);
      JoinIsSum(high, n - 1, low / 2);
    }
  }

  /** The number as the source computes it. */
  function PackBits(block: nat, tx: nat, output: nat): nat {
    Or(Or(ShiftLeft(And(block, 0xFFFFFF), 40), ShiftLeft(And(tx, 0xFFFFFF), 16)), And(output, 0xFFFF))
  }

  lemma Powers()
    ensures Pow2(16) == BITS_16 && Pow2(24) == BITS_24 && Pow2(40) == BITS_40
  {
    assert Pow2(4) == 16;
    assert Pow2(8) == 256;
    assert Pow2(12) == 4096;
    assert Pow2(16) == BITS_16;
    assert Pow2(20) == 16 * BITS_16;
    assert Pow2(24) == BITS_24;
    assert Pow2(28) == 16 * BITS_24;
    assert Pow2(32) == 256 * BITS_24;
    assert Pow2(36) == 4096 * BITS_24;
    assert Pow2(40) == BITS_40;
  }

  /** The masks, shifts and ors of the source pack the three fields, each cut to its width. */
  lemma BitsAreFields(block: nat, tx: nat, output: nat)
    ensures PackBits(block, tx, output) == Pack(block, tx, output)
  {
    Powers();
    MaskIsRemainder(block, 24);
    MaskIsRemainder(tx, 24);
    MaskIsRemainder(output, 16);
    ShiftFits(block % BITS_24, tx % BITS_24);
    JoinFields(block % BITS_24, tx % BITS_24, output % BITS_16);
  }

  lemma ShiftFits(b: nat, t: nat)
    requires b < BITS_24 && t < BITS_24
    ensures ShiftLeft(b, 40) == b * BITS_40 && ShiftLeft(t, 16) == t * BITS_16
  {
    Powers();
    SmallRemainder(b * BITS_40);
    SmallRemainder(t * BITS_16);
  }

  lemma SmallRemainder(x: nat)
    requires x < U64
    ensures x % U64 == x
  {
  }

  lemma JoinFields(b: nat, t: nat, o: nat)
    requires b < BITS_24 && t < BITS_24 && o < BITS_16
    ensures Or(Or(b * BITS_40, t * BITS_16), o) == b * BITS_40 + t * BITS_16 + o
  {
    Powers();
    JoinIsSum(b, 40, t * BITS_16);
    var high := b * BITS_24 + t;
    assert b * BITS_40 + t * BITS_16 == high * BITS_16;
    JoinIsSum(high, 16, o);
  }

  /** The fields that the source prints. */
  lemma PrintedBits(id: nat)
    ensures ShiftRight(id, 40) == id / BITS_40 && And(ShiftRight(id, 16), 0xFFFFFF) == id / BITS_16 % BITS_24
    ensures And(id, 0xFFFF) == id % BITS_16
  {
    Powers();
    MaskIsRemainder(id / BITS_16, 24);
    MaskIsRemainder(id, 16);
  }

  // ----- The text

  function Format(id: nat): string {
    Text3(ShiftRight(id, 40), And(ShiftRight(id, 16), 0xFFFFFF), And(id, 0xFFFF))
  }

  function Text3(block: nat, tx: nat, output: nat): string {
    Decimal(block) + ['x'] + (Decimal(tx) + ['x'] + Decimal(output))
  }

  function Parse(s: string): Option<nat> {
    var parts := Split(s, 'x');
    if |parts| != 3 then None
    else
      var block, tx, output := ParseU64(parts[0]), ParseU64(parts[1]), ParseU64(parts[2]);
      if block.None? || tx.None? || output.None? then None else Some(PackBits(block.value, tx.value, output.value))
  }

  lemma NoSeparator(n: nat)
    ensures 'x' !in Decimal(n)
  {
    DecimalIsDigits(n);
  }

  lemma ParseText3(block: nat, tx: nat, output: nat)
    requires block < U64 && tx < U64 && output < U64
    ensures Parse(Text3(block, tx, output)) == Some(Pack(block, tx, output))
  {
    BitsAreFields(block, tx, output);
    NoSeparator(block);
    NoSeparator(tx);
    NoSeparator(output);
    SplitAfter(Decimal(block), Decimal(tx) + ['x'] + Decimal(output), 'x');
    SplitAfter(Decimal(tx), Decimal(output), 'x');
    SplitNothing(Decimal(output), 'x');
    ParseDecimal(block);
    ParseDecimal(tx);
    ParseDecimal(output);
  }

  /** Three parts that can be read as numbers are packed, and a part that cannot be read is an error. */
  lemma ReadsThreeParts(block: string, tx: string, output: string)
    requires 'x' !in block && 'x' !in tx && 'x' !in output
    ensures var b, t, o := ParseU64(block), ParseU64(tx), ParseU64(output);
      Parse(block + ['x'] + (tx + ['x'] + output)) ==
        if b.Some? && t.Some? && o.Some? then Some(Pack(b.value, t.value, o.value)) else None
  {
    SplitAfter(block, tx + ['x'] + output, 'x');
    SplitAfter(tx, output, 'x');
    SplitNothing(output, 'x');
    var b, t, o := ParseU64(block), ParseU64(tx), ParseU64(output);
    if b.Some? && t.Some? && o.Some? {
      BitsAreFields(b.value, t.value, o.value);
    }
  }

  /** Whatever can be read has three parts. */
  lemma ReadableHasThreeParts(s: string) returns (block: string, tx: string, output: string)
    requires Parse(s).Some?
    ensures 'x' !in block && 'x' !in tx && 'x' !in output && s == block + ['x'] + (tx + ['x'] + output)
  {
    JoinSplit(s, 'x');
    var parts := Split(s, 'x');
    block, tx, output := parts[0], parts[1], parts[2];
    assert parts == [block, tx, output];
    JoinThree(block, tx, output, 'x');
  }

  lemma PackFields(id: nat)
    requires id < U64
    ensures Pack(id / BITS_40, id / BITS_16 % BITS_24, id % BITS_16) == id
    ensures id / BITS_40 < BITS_24
  {
    var high := id / BITS_16;
    assert id == high * BITS_16 + id % BITS_16;
    assert high == high / BITS_24 * BITS_24 + high % BITS_24;
    assert high / BITS_24 == id / BITS_40;
  }

  lemma UnpackFields(block: nat, tx: nat, output: nat)
    requires block < BITS_24 && tx < BITS_24 && output < BITS_16
    ensures var id := Pack(block, tx, output);
      id / BITS_40 == block && id / BITS_16 % BITS_24 == tx && id % BITS_16 == output
  {
    var id := Pack(block, tx, output);
    assert id == (block * BITS_24 + tx) * BITS_16 + output;
    assert id / BITS_16 == block * BITS_24 + tx;
  }

  /** Reading the printed form of any id gives the id back. */
  lemma ParseFormat(id: nat)
    requires id < U64
    ensures Parse(Format(id)) == Some(id)
  {
    PrintedBits(id);
    PackFields(id);
    ParseText3(id / BITS_40, id / BITS_16 % BITS_24, id % BITS_16);
  }

  /** Three numbers in their shortest form, each within its field. */
  ghost predicate Canonical(s: string) {
    exists block: nat, tx: nat, output: nat ::
      block < BITS_24 && tx < BITS_24 && output < BITS_16 && s == Text3(block, tx, output)
  }

  lemma FormatPacked(block: nat, tx: nat, output: nat)
    requires block < BITS_24 && tx < BITS_24 && output < BITS_16
    ensures Format(Pack(block, tx, output)) == Text3(block, tx, output)
  {
    PrintedBits(Pack(block, tx, output));
    UnpackFields(block, tx, output);
  }

  lemma FormatIsCanonical(id: nat)
    requires id < U64
    ensures Canonical(Format(id))
  {
    PrintedBits(id);
    PackFields(id);
    assert Format(id) == Text3(id / BITS_40, id / BITS_16 % BITS_24, id % BITS_16);
  }

  lemma ParseInRange(s: string)
    requires Parse(s).Some?
    ensures Parse(s).value < U64
  {
    var parts := Split(s, 'x');
    BitsAreFields(ParseU64(parts[0]).value, ParseU64(parts[1]).value, ParseU64(parts[2]).value);
  }

  lemma CanonicalPrints(s: string)
    requires Canonical(s)
    ensures Parse(s).Some? && Format(Parse(s).value) == s
  {
    var block: nat, tx: nat, output: nat :|
      block < BITS_24 && tx < BITS_24 && output < BITS_16 && s == Text3(block, tx, output);
    ParseText3(block, tx, output);
    FormatPacked(block, tx, output);
  }

  /** A text that can be read prints back to itself exactly when it is canonical. */
  lemma FormatParseIff(s: string)
    requires Parse(s).Some?
    ensures Format(Parse(s).value) == s <==> Canonical(s)
  {
    ParseInRange(s);
    FormatIsCanonical(Parse(s).value);
    if Canonical(s) {
      CanonicalPrints(s);
    }
  }
}
