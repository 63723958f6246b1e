/** Text as the source handles it: splitting at a separator, hexadecimal bytes and decimal numbers. */
module Text {
  import opened Options

  type Byte = b: int | 0 <= b < 256
  type Bytes = seq<Byte>
  type Nibble = v: int | 0 <= v < 16

  // ----- Splitting

  function Split(s: string, sep: char): (parts: seq<string>)
    ensures |parts| >= 1
  {
    if s == "" then [""]
    else
      var rest := Split(s[1..], sep);
      if s[0] == sep then [""] + rest else [[s[0]] + rest[0]] + rest[1..]
  }

  function Join(parts: seq<string>, sep: char): string {
    if parts == [] then ""
    else if |parts| == 1 then parts[0]
    else parts[0] + [sep] + Join(parts[1..], sep)
  }

  lemma {:induction false} SplitAfter(part: string, rest: string, sep: char)
    requires sep !in part
    ensures Split(part + [sep] + rest, sep) == [part] + Split(rest, sep)
  {
    var s := part + [sep] + rest;
    if part == "" {
      assert s[1..] == rest;
    } else {
      SplitAfter(part[1..], rest, sep);
      assert s[1..] == part[1..] + [sep] + rest;
      assert [s[0]] + part[1..] == part;
    }
  }

  lemma {:induction false} SplitNothing(part: string, sep: char)
    requires sep !in part
    ensures Split(part, sep) == [part]
  {
    if part != "" {
      SplitNothing(part[1..], sep);
      assert [part[0]] + part[1..] == part;
    }
  }

  lemma {:induction false} SplitJoin(parts: seq<string>, sep: char)
    requires parts != [] && forall p :: p in parts ==> sep !in p
    ensures Split(Join(parts, sep), sep) == parts
  {
    if |parts| == 1 {
      SplitNothing(parts[0], sep);
    } else {
      SplitJoin(parts[1..], sep);
      SplitAfter(parts[0], Join(parts[1..], sep), sep);
    }
  }

  /** Splitting loses nothing but the separators. */
  lemma {:induction false} JoinSplit(s: string, sep: char)
    ensures Join(Split(s, sep), sep) == s
    ensures forall i :: 0 <= i < |Split(s, sep)| ==> sep !in Split(s, sep)[i]
  {
    if s != "" {
      var rest := Split(s[1..], sep);
      JoinSplit(s[1..], sep);
      assert s == [s[0]] + s[1..];
      if s[0] == sep {
        assert ([""] + rest)[1..] == rest;
      } else {
        assert ([[s[0]] + rest[0]] + rest[1..])[1..] == rest[1..];
      }
    }
  }

  lemma JoinThree(a: string, b: string, c: string, sep: char)
    ensures Join([a, b, c], sep) == a + [sep] + (b + [sep] + c)
  {
    assert [b, c][1..] == [c] && Join([c], sep) == c;
    assert Join([b, c], sep) == b + [sep] + c;
    assert [a, b, c][1..] == [b, c];
  }

  // ----- Hexadecimal

  const HEX_DIGITS := "0123456789abcdef"

  function HexDigit(v: Nibble): char {
    HEX_DIGITS[v]
  }

  /** Both letter cases are read. */
  function HexValue(c: char): Option<Nibble> {
    if '0' <= c <= '9' then Some(c as int - '0' as int)
    else if 'a' <= c <= 'f' then Some(c as int - 'a' as int + 10)
    else if 'A' <= c <= 'F' then Some(c as int - 'A' as int + 10)
    else None
  }

  function HexEncode(bytes: Bytes): string {
    if bytes == [] then ""
    else [HexDigit(bytes[0] / 16), HexDigit(bytes[0] % 16)] + HexEncode(bytes[1..])
  }

  function HexDecode(s: string): (bytes: Option<Bytes>) {
    if s == "" then Some([])
    else if |s| == 1 then None
    else
      var hi, lo, rest := HexValue(s[0]), HexValue(s[1]), HexDecode(s[2..]);
      if hi.None? || lo.None? || rest.None? then None
      else Some([hi.value * 16 + lo.value] + rest.value)
  }

  lemma HexDigitValue(v: Nibble)
    ensures HexValue(HexDigit(v)) == Some(v)
  {
  }

  lemma {:induction false} HexRoundTrip(bytes: Bytes)
    ensures HexDecode(HexEncode(bytes)) == Some(bytes)
  {
    if bytes != [] {
      var hi, lo := bytes[0] / 16, bytes[0] % 16;
      var rest := HexEncode(bytes[1..]);
      var s := [HexDigit(hi), HexDigit(lo)] + rest;
      HexRoundTrip(bytes[1..]);
      HexDigitValue(hi);
      HexDigitValue(lo);
      assert s[2..] == rest && s[0] == HexDigit(hi) && s[1] == HexDigit(lo);
      assert HexDecode(s) == Some([hi * 16 + lo] + bytes[1..]);
      assert bytes == [bytes[0]] + bytes[1..];
    }
  }

  /** The two letters are lower-case hexadecimal digits and stand for the byte. */
  predicate Spells(b: Byte, hi: char, lo: char) {
    && ('0' <= hi <= '9' || 'a' <= hi <= 'f') && ('0' <= lo <= '9' || 'a' <= lo <= 'f')
    && b == (hi as int - if hi <= '9' then 48 else 87) * 16 + (lo as int - if lo <= '9' then 48 else 87)
  }

  lemma HexLetter(v: Nibble)
    ensures v < 10 ==> HexDigit(v) as int == 48 + v
    ensures v >= 10 ==> HexDigit(v) as int == 87 + v
  {
  }

  lemma HexPair(b: Byte)
    ensures Spells(b, HexDigit(b / 16), HexDigit(b % 16))
  {
    HexLetter(b / 16);
    HexLetter(b % 16);
  }

  /** Two letters for every byte, in order. */
  lemma {:induction false} HexText(bytes: Bytes)
    ensures |HexEncode(bytes)| == 2 * |bytes|
    ensures forall c :: c in HexEncode(bytes) ==> '0' <= c <= '9' || 'a' <= c <= 'f'
    ensures forall i :: 0 <= i < |bytes| ==> Spells(bytes[i], HexEncode(bytes)[2 * i], HexEncode(bytes)[2 * i + 1])
  {
    if bytes != [] {
      HexText(bytes[1..]);
      HexPair(bytes[0]);
      PairInFront(bytes, HexEncode(bytes[1..]), HexDigit(bytes[0] / 16), HexDigit(bytes[0] % 16));
    }
  }

  lemma PairInFront(bytes: Bytes, text: string, hi: char, lo: char)
    requires bytes != [] && |text| == 2 * |bytes[1..]| && Spells(bytes[0], hi, lo)
    requires forall i :: 0 <= i < |bytes[1..]| ==> Spells(bytes[1..][i], text[2 * i], text[2 * i + 1])
    ensures forall i :: 0 <= i < |bytes| ==> Spells(bytes[i], ([hi, lo] + text)[2 * i], ([hi, lo] + text)[2 * i + 1])
  {
    var all := [hi, lo] + text;
    forall i | 0 < i < |bytes| ensures Spells(bytes[i], all[2 * i], all[2 * i + 1]) {
      assert all[2 * i] == text[2 * (i - 1)] && all[2 * i + 1] == text[2 * (i - 1) + 1];
      assert bytes[i] == bytes[1..][i - 1];
    }
  }

  // ----- Decimal

  function DecimalDigit(v: int): char
    requires 0 <= v < 10
  {
    HEX_DIGITS[v]
  }

  /** The shortest decimal form. */
  function Decimal(n: nat): (s: string)
    ensures |s| >= 1
  {
    if n < 10 then [DecimalDigit(n)] else Decimal(n / 10) + [DecimalDigit(n % 10)]
  }

  predicate IsDigit(c: char) {
    '0' <= c <= '9'
  }

  lemma {:induction false} DecimalIsDigits(n: nat)
    ensures forall i :: 0 <= i < |Decimal(n)| ==> IsDigit(Decimal(n)[i])
  {
    if n >= 10 {
      DecimalIsDigits(n / 10);
    }
  }
}
