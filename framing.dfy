/**
 * Bytes, bits and numbers shared by the transmitter scripts: MSB-first
 * unpacking of bytes into bits and its inverse, Python's `format(n, '08b')`,
 * UTF-8 encoding of a `str`, and `int(sample_rate / baud_rate)`.
 */
module Framing {
  import opened Wrappers

  type Byte = b: int | 0 <= b < 256
  type Bit = b: int | 0 <= b < 2

  function Pow2(k: nat): (r: nat)
    ensures r >= 1
  {
    if k == 0 then 1 else 2 * Pow2(k - 1)
  }

  /** `n >> j` on a non-negative integer: `j` halvings. */
  function Shr(n: nat, j: nat): nat
  {
    if j == 0 then n else Shr(n / 2, j - 1)
  }

  /** A sequence of `n` copies of `x` (Python's `[x] * n`). */
  function Repeat<T>(x: T, n: nat): (r: seq<T>)
    ensures |r| == n
    ensures forall i :: 0 <= i < n ==> r[i] == x
  {
    seq(n, _ => x)
  }

  /** Python's `s * n` on a list or a bytes object. */
  function Times<T>(s: seq<T>, n: nat): (r: seq<T>)
    ensures |r| == |s| * n
  {
    if n == 0 then [] else s + Times(s, n - 1)
  }

  lemma {:induction false} TimesAt<T>(s: seq<T>, n: nat, j: nat, k: nat)
    requires j < n && k < |s|
    ensures |Times(s, n)| == |s| * n
    ensures Times(s, n)[j * |s| + k] == s[k]
  {
    if j > 0 {
      TimesAt(s, n - 1, j - 1, k);
      assert j * |s| + k == |s| + ((j - 1) * |s| + k);
    }
  }

  /**
   * Every symbol held for `n` samples (`signal.extend([value] * n)` once per
   * symbol, or GNU Radio's `blocks.repeat`).
   */
  function Hold<T>(symbols: seq<T>, n: nat): (r: seq<T>)
    ensures |r| == |symbols| * n
  {
    if symbols == [] then []
    else
      var last := |symbols| - 1;
      assert |symbols| * n == last * n + n;
      Hold(symbols[..last], n) + Repeat(symbols[last], n)
  }

  /** Sample `j` of symbol `k` is that symbol. */
  lemma {:induction false} HoldAt<T>(symbols: seq<T>, n: nat, k: nat, j: nat)
    requires k < |symbols| && j < n
    ensures k * n + j < |Hold(symbols, n)| && Hold(symbols, n)[k * n + j] == symbols[k]
  {
    var last := |symbols| - 1;
    assert k * n + j < (k + 1) * n <= |symbols| * n;
    if k < last {
      HoldAt(symbols[..last], n, k, j);
      assert symbols[..last][k] == symbols[k];
    } else {
      assert k * n == |Hold(symbols[..last], n)|;
    }
  }

  lemma HoldSnoc<T>(symbols: seq<T>, x: T, n: nat)
    ensures Hold(symbols + [x], n) == Hold(symbols, n) + Repeat(x, n)
  {
    assert (symbols + [x])[..|symbols|] == symbols;
  }

  /** Copy `j` of `s` sits at offset `|s| * j` of `s * n`. */
  lemma {:induction false} TimesSlice<T>(s: seq<T>, n: nat, j: nat)
    requires j < n
    ensures |s| * j + |s| <= |Times(s, n)|
    ensures Times(s, n)[|s| * j..|s| * j + |s|] == s
  {
    var t := Times(s, n);
    var len := |s|;
    if j == 0 {
      assert t[..len] == s;
    } else {
      TimesSlice(s, n - 1, j - 1);
      var u := Times(s, n - 1);
      var at := len * (j - 1);
      assert len * j == len + at by { MulStep(len, j - 1); }
      assert at + len <= |u|;
      assert t == s + u;
      assert t[len + at..len + at + len] == u[at..at + len];
    }
  }

  lemma MulStep(a: nat, b: nat)
    ensures a * (b + 1) == a + a * b
  {
  }

  // ---------------------------------------------------------------------
  // Bits, most significant first

  /** The `k` low bits of `n`, most significant first. */
  function BitsMsb(n: nat, k: nat): (r: seq<Bit>)
    ensures |r| == k
  {
    if k == 0 then [] else BitsMsb(n / 2, k - 1) + [n % 2]
  }

  /** The number that MSB-first bits stand for. */
  function BitsValue(bits: seq<Bit>): nat
  {
    if bits == [] then 0 else 2 * BitsValue(bits[..|bits| - 1]) + bits[|bits| - 1]
  }

  /** Bit `i` of the `k`-bit field is `(n >> (k - 1 - i)) & 1`. */
  lemma {:induction false} BitsMsbAt(n: nat, k: nat, i: nat)
    requires i < k
    ensures BitsMsb(n, k)[i] == Shr(n, k - 1 - i) % 2
  {
    if i < k - 1 {
      BitsMsbAt(n / 2, k - 1, i);
    }
  }

  /** Regrouping the bits gives the number back when it fits in `k` bits. */
  lemma {:induction false} BitsMsbValue(n: nat, k: nat)
    requires n < Pow2(k)
    ensures BitsValue(BitsMsb(n, k)) == n
  {
    if k > 0 {
      var s := BitsMsb(n, k);
      assert s[..|s| - 1] == BitsMsb(n / 2, k - 1);
      BitsMsbValue(n / 2, k - 1);
    }
  }

  /** Unpack bytes into bits, eight per byte, most significant bit first. */
  function UnpackMsb(bytes: seq<Byte>): (r: seq<Bit>)
    ensures |r| == 8 * |bytes|
  {
    if bytes == [] then [] else BitsMsb(bytes[0], 8) + UnpackMsb(bytes[1..])
  }

  lemma {:induction false} UnpackMsbSnoc(bytes: seq<Byte>, b: Byte)
    ensures UnpackMsb(bytes + [b]) == UnpackMsb(bytes) + BitsMsb(b, 8)
  {
    if bytes != [] {
      assert (bytes + [b])[1..] == bytes[1..] + [b];
      UnpackMsbSnoc(bytes[1..], b);
    }
  }

  lemma {:induction false} UnpackMsbAppend(a: seq<Byte>, b: seq<Byte>)
    ensures UnpackMsb(a + b) == UnpackMsb(a) + UnpackMsb(b)
  {
    if a == [] {
      assert a + b == b;
    } else {
      assert (a + b)[0] == a[0];
      assert (a + b)[1..] == a[1..] + b;
      UnpackMsbAppend(a[1..], b);
    }
  }

  /** 0xAA is 1,0,1,0,… and 0x55 is 0,1,0,1,… most significant bit first. */
  lemma AlternatingBytes()
    ensures BitsMsb(0xAA, 8) == [1, 0, 1, 0, 1, 0, 1, 0]
    ensures BitsMsb(0x55, 8) == [0, 1, 0, 1, 0, 1, 0, 1]
  {
    assert BitsMsb(0, 0) == [];
    assert BitsMsb(1, 1) == [1];
    assert BitsMsb(2, 2) == [1, 0];
    assert BitsMsb(5, 3) == [1, 0, 1];
    assert BitsMsb(10, 4) == [1, 0, 1, 0];
    assert BitsMsb(21, 5) == [1, 0, 1, 0, 1];
    assert BitsMsb(42, 6) == [1, 0, 1, 0, 1, 0];
    assert BitsMsb(85, 7) == [1, 0, 1, 0, 1, 0, 1];
    assert BitsMsb(0, 1) == [0];
    assert BitsMsb(1, 2) == [0, 1];
    assert BitsMsb(2, 3) == [0, 1, 0];
    assert BitsMsb(5, 4) == [0, 1, 0, 1];
    assert BitsMsb(10, 5) == [0, 1, 0, 1, 0];
    assert BitsMsb(21, 6) == [0, 1, 0, 1, 0, 1];
    assert BitsMsb(42, 7) == [0, 1, 0, 1, 0, 1, 0];
  }

  /** Group bits by eight, most significant first, into numbers. */
  function Regroup(bits: seq<Bit>): seq<nat>
    requires |bits| % 8 == 0
  {
    if bits == [] then [] else [BitsValue(bits[..8])] + Regroup(bits[8..])
  }

  lemma {:induction false} UnpackMsbAt(bytes: seq<Byte>, k: nat, i: nat)
    requires k < |bytes| && i < 8
    ensures UnpackMsb(bytes)[8 * k + i] == Shr(bytes[k], 7 - i) % 2
  {
    if k == 0 {
      BitsMsbAt(bytes[0], 8, i);
    } else {
      UnpackMsbAt(bytes[1..], k - 1, i);
    }
  }

  lemma {:induction false} RegroupUnpack(bytes: seq<Byte>)
    ensures Regroup(UnpackMsb(bytes)) == bytes
  {
    if bytes != [] {
      var u := UnpackMsb(bytes);
      assert u[..8] == BitsMsb(bytes[0], 8);
      assert u[8..] == UnpackMsb(bytes[1..]);
      BitsMsbValue(bytes[0], 8);
      RegroupUnpack(bytes[1..]);
    }
  }

  // ---------------------------------------------------------------------
  // Python's format(n, '08b')

  /** The binary digits of `n` without leading zeros (`"0"` for zero). */
  function BinaryDigits(n: nat): (r: seq<Bit>)
    ensures |r| >= 1
  {
    if n < 2 then [n] else BinaryDigits(n / 2) + [n % 2]
  }

  /** Zeros on the left up to width `w`; a longer sequence is kept whole. */
  function PadLeft(d: seq<Bit>, w: nat): (r: seq<Bit>)
  {
    if |d| >= w then d else Repeat(0, w - |d|) + d
  }

  /** `format(n, '08b')` read digit by digit. */
  function Format08b(n: nat): seq<Bit>
  {
    PadLeft(BinaryDigits(n), 8)
  }

  lemma {:induction false} BinaryDigitsFit(n: nat, k: nat)
    requires k >= 1
    ensures |BinaryDigits(n)| <= k <==> n < Pow2(k)
  {
    if n >= 2 && k > 1 {
      BinaryDigitsFit(n / 2, k - 1);
    }
  }

  lemma {:induction false} BitsMsbZero(k: nat)
    ensures BitsMsb(0, k) == Repeat(0, k)
  {
    if k > 0 {
      BitsMsbZero(k - 1);
    }
  }

  lemma {:induction false} PaddedDigits(n: nat, k: nat)
    requires k >= 1 && n < Pow2(k)
    ensures PadLeft(BinaryDigits(n), k) == BitsMsb(n, k)
  {
    if n < 2 {
      BitsMsbZero(k - 1);
      assert BitsMsb(n, k) == BitsMsb(0, k - 1) + [n];
    } else {
      BinaryDigitsFit(n / 2, k - 1);
      PaddedDigits(n / 2, k - 1);
      var d := BinaryDigits(n / 2);
      assert BinaryDigits(n) == d + [n % 2];
      if |d| < k - 1 {
        assert Repeat(0, k - |d + [n % 2]|) + (d + [n % 2])
            == (Repeat(0, k - 1 - |d|) + d) + [n % 2];
      }
    }
  }

  /**
   * `format(n, '08b')` is exactly eight bits when `n < 256` and then equals the
   * MSB-first unpacking; larger code points give more than eight digits.
   */
  lemma Format08bShape(n: nat)
    ensures n < 256 ==> Format08b(n) == BitsMsb(n, 8)
    ensures |Format08b(n)| == 8 <==> n < 256
    ensures n >= 256 ==> |Format08b(n)| > 8 && Format08b(n) == BinaryDigits(n)
  {
    BinaryDigitsFit(n, 8);
    if n < 256 {
      PaddedDigits(n, 8);
    }
  }

  lemma {:induction false} BinaryDigitsValue(n: nat)
    ensures BitsValue(BinaryDigits(n)) == n
  {
    if n >= 2 {
      var d := BinaryDigits(n);
      assert d[..|d| - 1] == BinaryDigits(n / 2);
      BinaryDigitsValue(n / 2);
    }
  }

  // ---------------------------------------------------------------------
  // A text as the binary digits of its characters

  /** `format(ord(c), '08b')` of every character, in order. */
  function TextBits(text: string): seq<Bit>
  {
    if text == [] then [] else TextBits(text[..|text| - 1]) + Format08b(text[|text| - 1] as int)
  }

  /** The code points of a text whose characters are all below 256. */
  function Latin1(text: string): (r: seq<Byte>)
    requires forall i :: 0 <= i < |text| ==> (text[i] as int) < 256
    ensures |r| == |text|
  {
    seq(|text|, i requires 0 <= i < |text| => text[i] as int)
  }

  /**
   * For characters below 256 every character gives exactly eight bits, most
   * significant first, so regrouping the bits by eight gives the code
   * points back.
   */
  lemma {:induction false} TextBitsLatin1(text: string)
    requires forall i :: 0 <= i < |text| ==> (text[i] as int) < 256
    ensures TextBits(text) == UnpackMsb(Latin1(text))
    ensures |TextBits(text)| == 8 * |text|
    ensures Regroup(TextBits(text)) == Latin1(text)
  {
    if text != [] {
      var n := |text| - 1;
      TextBitsLatin1(text[..n]);
      Format08bShape(text[n] as int);
      assert Latin1(text) == Latin1(text[..n]) + [text[n] as int];
      UnpackMsbSnoc(Latin1(text[..n]), text[n] as int);
    }
    RegroupUnpack(Latin1(text));
  }

  /** A character at or above 256 gives more than eight bits, so the text no longer regroups by eight. */
  lemma {:induction false} TextBitsWide(text: string)
    ensures |TextBits(text)| >= 8 * |text|
    ensures (exists i :: 0 <= i < |text| && (text[i] as int) >= 256) ==> |TextBits(text)| > 8 * |text|
  {
    if text != [] {
      var n := |text| - 1;
      TextBitsWide(text[..n]);
      Format08bShape(text[n] as int);
      if exists i :: 0 <= i < |text| && (text[i] as int) >= 256 {
        var i :| 0 <= i < |text| && (text[i] as int) >= 256;
        if i < n {
          assert text[..n][i] == text[i];
        }
      }
    }
  }

  // ---------------------------------------------------------------------
  // UTF-8 (RFC 3629, section 3)

  function Utf8Char(c: char): (r: seq<Byte>)
    ensures 1 <= |r| <= 4
    ensures |r| == 1 <==> (c as int) < 0x80
    ensures (c as int) < 0x80 ==> r == [c as int]
  {
    var cp := c as int;
    if cp < 0x80 then [cp]
    else if cp < 0x800 then [0xC0 + cp / 0x40, 0x80 + cp % 0x40]
    else if cp < 0x10000 then [0xE0 + cp / 0x1000, 0x80 + (cp / 0x40) % 0x40, 0x80 + cp % 0x40]
    else [0xF0 + cp / 0x40000, 0x80 + (cp / 0x1000) % 0x40, 0x80 + (cp / 0x40) % 0x40, 0x80 + cp % 0x40]
  }

  /** Python's `s.encode('utf-8')` for a string of Unicode scalar values. */
  function Utf8Encode(s: string): (r: seq<Byte>)
    ensures |s| <= |r| <= 4 * |s|
    ensures (forall i :: 0 <= i < |s| ==> (s[i] as int) < 0x80) ==>
              r == seq(|s|, i requires 0 <= i < |s| => s[i] as int)
  {
    if s == [] then [] else Utf8Char(s[0]) + Utf8Encode(s[1..])
  }

  /** A continuation byte `10xxxxxx`. */
  predicate IsContinuation(x: Byte)
  {
    0x80 <= x < 0xC0
  }

  /**
   * The first character of `b` and the number of bytes it occupies, the
   * inverse of `Utf8Char`: overlong forms, surrogates and code points past
   * U+10FFFF are malformed, as RFC 3629 section 3 requires.
   */
  function Utf8DecodeFirst(b: seq<Byte>): (r: Option<(char, nat)>)
    ensures r.Some? ==> 1 <= r.value.1 <= |b| && r.value.1 <= 4
  {
    if |b| == 0 then None
    else if b[0] < 0x80 then Some((b[0] as char, 1))
    else if 0xC0 <= b[0] < 0xE0 then
      if |b| < 2 || !IsContinuation(b[1]) then None
      else
        var cp := Join2(b[0] as int - 0xC0, b[1] as int - 0x80);
        if cp < 0x80 then None else Some((cp as char, 2))
    else if 0xE0 <= b[0] < 0xF0 then
      if |b| < 3 || !IsContinuation(b[1]) || !IsContinuation(b[2]) then None
      else
        var cp := Join3(b[0] as int - 0xE0, b[1] as int - 0x80, b[2] as int - 0x80);
        if cp < 0x800 || (0xD800 <= cp < 0xE000) then None else Some((cp as char, 3))
    else if 0xF0 <= b[0] < 0xF8 then
      if |b| < 4 || !IsContinuation(b[1]) || !IsContinuation(b[2]) || !IsContinuation(b[3]) then None
      else
        var cp := Join4(b[0] as int - 0xF0, b[1] as int - 0x80, b[2] as int - 0x80, b[3] as int - 0x80);
        if cp < 0x10000 || cp >= 0x110000 then None else Some((cp as char, 4))
    else None
  }

  /** The code point whose 6-bit groups, most significant first, are the arguments. */
  function Join2(x1: int, x0: int): int
  {
    x1 * 0x40 + x0
  }

  function Join3(x2: int, x1: int, x0: int): int
  {
    Join2(x2, x1) * 0x40 + x0
  }

  function Join4(x3: int, x2: int, x1: int, x0: int): int
  {
    Join3(x3, x2, x1) * 0x40 + x0
  }

  /** Splitting off the low 6 bits is undone by `Join2`, and only one split does so. */
  lemma SixBits(n: int, hi: int, lo: int)
    requires n >= 0 && 0 <= lo < 0x40
    ensures n == Join2(hi, lo) <==> (hi == n / 0x40 && lo == n % 0x40)
  {
  }

  /** The bytes `Utf8Char` emits, read back as the groups `Utf8DecodeFirst` joins. */
  lemma Utf8CharGroups(c: char)
    ensures var r, cp := Utf8Char(c), c as int;
            && (|r| == 2 ==>
                  (0xC0 <= r[0] < 0xE0 && IsContinuation(r[1])
                   && cp == Join2(r[0] - 0xC0, r[1] - 0x80)))
            && (|r| == 3 ==>
                  (0xE0 <= r[0] < 0xF0 && IsContinuation(r[1]) && IsContinuation(r[2])
                   && cp == Join3(r[0] - 0xE0, r[1] - 0x80, r[2] - 0x80)))
            && (|r| == 4 ==>
                  (0xF0 <= r[0] < 0xF8 && IsContinuation(r[1]) && IsContinuation(r[2])
                   && IsContinuation(r[3])
                   && cp == Join4(r[0] - 0xF0, r[1] - 0x80, r[2] - 0x80, r[3] - 0x80)))
  {
    var cp := c as int;
    SixBits(cp, cp / 0x40, cp % 0x40);
    SixBits(cp / 0x40, cp / 0x40 / 0x40, cp / 0x40 % 0x40);
    SixBits(cp / 0x40 / 0x40, cp / 0x40 / 0x40 / 0x40, cp / 0x40 / 0x40 % 0x40);
    assert cp / 0x40 / 0x40 == cp / 0x1000;
    assert cp / 0x40 / 0x40 / 0x40 == cp / 0x40000;
  }

  /** A character that decodes is re-encoded to exactly the bytes it came from. */
  lemma Utf8DecodeFirstEncodes(b: seq<Byte>)
    requires Utf8DecodeFirst(b).Some?
    ensures Utf8Char(Utf8DecodeFirst(b).value.0) == b[..Utf8DecodeFirst(b).value.1]
  {
    var (c, n) := Utf8DecodeFirst(b).value;
    var cp := c as int;
    if n == 2 {
      SixBits(cp, b[0] - 0xC0, b[1] - 0x80);
    } else if n == 3 {
      SixBits(cp, Join2(b[0] - 0xE0, b[1] - 0x80), b[2] - 0x80);
      SixBits(cp / 0x40, b[0] - 0xE0, b[1] - 0x80);
      assert cp / 0x40 / 0x40 == cp / 0x1000;
    } else if n == 4 {
      SixBits(cp, Join3(b[0] - 0xF0, b[1] - 0x80, b[2] - 0x80), b[3] - 0x80);
      SixBits(cp / 0x40, Join2(b[0] - 0xF0, b[1] - 0x80), b[2] - 0x80);
      SixBits(cp / 0x40 / 0x40, b[0] - 0xF0, b[1] - 0x80);
      assert cp / 0x40 / 0x40 == cp / 0x1000;
      assert cp / 0x40 / 0x40 / 0x40 == cp / 0x40000;
    }
  }

  /** The bytes of one character, followed by anything, decode to that character first. */
  lemma Utf8CharDecodes(c: char, rest: seq<Byte>)
    ensures Utf8DecodeFirst(Utf8Char(c) + rest) == Some((c, |Utf8Char(c)|))
  {
    Utf8CharGroups(c);
  }

  /** A byte string decoded as UTF-8, or `None` when it is malformed. */
  function Utf8Decode(b: seq<Byte>): (r: Option<string>)
    ensures r.Some? ==> Utf8Encode(r.value) == b
    decreases |b|
  {
    if b == [] then Some([])
    else
      match Utf8DecodeFirst(b)
      case None => None
      case Some((c, n)) =>
        match Utf8Decode(b[n..])
        case None => None
        case Some(rest) =>
          Utf8DecodeStep(b, c, n, rest);
          Some([c] + rest)
  }

  /** One decoded character in front of the re-encoded rest gives the bytes back. */
  lemma Utf8DecodeStep(b: seq<Byte>, c: char, n: nat, rest: string)
    requires Utf8DecodeFirst(b) == Some((c, n)) && Utf8Encode(rest) == b[n..]
    ensures Utf8Encode([c] + rest) == b
  {
    Utf8DecodeFirstEncodes(b);
    assert ([c] + rest)[1..] == rest;
    assert b == b[..n] + b[n..];
  }

  /** Decoding undoes `Utf8Encode`. */
  lemma {:induction false} Utf8RoundTrip(s: string)
    ensures Utf8Decode(Utf8Encode(s)) == Some(s)
  {
    if s != [] {
      var b := Utf8Encode(s);
      assert b == Utf8Char(s[0]) + Utf8Encode(s[1..]);
      Utf8CharDecodes(s[0], Utf8Encode(s[1..]));
      var n := |Utf8Char(s[0])|;
      assert b[n..] == Utf8Encode(s[1..]);
      Utf8RoundTrip(s[1..]);
      assert [s[0]] + s[1..] == s;
    }
  }

  // ---------------------------------------------------------------------
  // Python's int(x) and int(sample_rate / baud_rate)

  /** Python's `int(x)` on a float: truncation toward zero. */
  function Trunc(x: real): (r: int)
    ensures x >= 0.0 ==> r as real <= x < r as real + 1.0
    ensures x < 0.0 ==> r as real - 1.0 < x <= r as real
  {
    if x >= 0.0 then x.Floor else -((-x).Floor)
  }

  /** `int(s / b)` brackets `s` between consecutive multiples of `b`. */
  lemma QuotientBracket(s: real, b: real)
    requires s >= 0.0 && b > 0.0
    ensures Trunc(s / b) >= 0
    ensures Trunc(s / b) as real * b <= s < (Trunc(s / b) + 1) as real * b
  {
    var q := s / b;
    var n := Trunc(q);
    assert q * b == s;
    if q < 0.0 {
      ScaleStrict(q, 0.0, b);
    }
    var lo, hi := n as real, n as real + 1.0;
    assert lo <= q < hi;
    ScaleStrict(q, hi, b);
    if lo < q {
      ScaleStrict(lo, q, b);
    }
    assert (n + 1) as real == hi;
    assert s < hi * b;
    assert s < (n + 1) as real * b;
  }

  lemma ScaleStrict(x: real, y: real, b: real)
    requires x < y && b > 0.0
    ensures x * b < y * b
  {
  }

  /**
   * `int(self.sample_rate / self.baud_rate)`, as every transmitter computes it;
   * `None` is the ZeroDivisionError Python raises for a zero baud rate.
   */
  function SamplesPerSymbol(sampleRate: real, baudRate: real): (r: Option<int>)
    ensures r.None? <==> baudRate == 0.0
    ensures r.Some? && sampleRate >= 0.0 && baudRate > 0.0 ==>
              r.value >= 0 && r.value as real * baudRate <= sampleRate < (r.value + 1) as real * baudRate
  {
    if baudRate == 0.0 then None
    else
      var n := Trunc(sampleRate / baudRate);
      if sampleRate >= 0.0 && baudRate > 0.0 then
        QuotientBracket(sampleRate, baudRate);
        Some(n)
      else Some(n)
  }
}
