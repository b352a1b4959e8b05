/** ZigZag base-128 varints, as in storage/src/compression/delta.rs. */
module Varint {
  import opened Machine

  // ----- ZigZag -----------------------------------------------------------

  /** `x ^ mask` where the mask is all zero bits (0) or all one bits (-1). */
  function XorMask(x: i64, mask: i64): (r: i64)
    requires mask == 0 || mask == -1
  {
    if mask == 0 then x else -1 - x
  }

  /** `((value << 1) ^ (value >> 63)) as u64`: the left shift drops the top bit,
      the arithmetic right shift yields the all-zero or all-one mask. */
  function ZigZag(value: i64): (z: u64)
    ensures value >= 0 ==> z == 2 * value
    ensures value < 0 ==> z == -2 * value - 1
  {
    var shifted := Wrap64(2 * value);
    var sign: i64 := if value < 0 then -1 else 0;
    assert value >= TWO63 / 2 ==> shifted == 2 * value - TWO64 by { WrapFar(2 * value); }
    assert value < -(TWO63 / 2) ==> shifted == 2 * value + TWO64 by { WrapFar(2 * value); }
    Unsigned(XorMask(shifted, sign))
  }

  lemma WrapFar(x: int)
    ensures TWO63 <= x < TWO63 + TWO64 ==> Wrap64(x) == x - TWO64
    ensures -TWO63 - TWO64 <= x < -TWO63 ==> Wrap64(x) == x + TWO64
  {
  }

  /** `((z >> 1) as i64) ^ -((z & 1) as i64)`. */
  function UnZigZag(z: u64): (value: i64)
    ensures ZigZag(value) == z
  {
    XorMask(z / 2, -(z % 2))
  }

  lemma ZigZagRoundTrip(v: i64)
    ensures UnZigZag(ZigZag(v)) == v
  {
  }

  // ----- the byte form ----------------------------------------------------

  /** Base-128 digits, least significant first, with a continuation bit on all
      but the last. */
  function Digits(z: nat): (s: seq<byte>)
    ensures |s| >= 1
  {
    if z < 128 then [z] else [z % 128 + 128] + Digits(z / 128)
  }

  /** Continuation bits mark exactly the bytes before the last, and a longer form
      never ends in a zero byte. */
  lemma {:induction false} DigitsShape(z: nat)
    ensures var s := Digits(z);
            && s[|s| - 1] < 128
            && (forall i :: 0 <= i < |s| - 1 ==> s[i] >= 128)
            && (|s| >= 2 ==> s[|s| - 1] > 0)
  {
    if z >= 128 {
      var t := Digits(z / 128);
      DigitsShape(z / 128);
      assert Digits(z) == [z % 128 + 128] + t;
    }
  }

  function Encode(value: i64): (s: seq<byte>) {
    Digits(ZigZag(value))
  }

  function Pow128(k: nat): (p: nat)
    ensures p > 0
  {
    if k == 0 then 1 else 128 * Pow128(k - 1)
  }

  lemma Pow128Values()
    ensures Pow128(2) == 0x4000
    ensures Pow128(8) == 0x100_0000_0000_0000 && Pow128(9) == TWO63
    ensures Pow128(10) == 128 * TWO63
  {
    assert Pow128(2) == 128 * Pow128(1);
    assert Pow128(4) == 128 * Pow128(3) == 0x4000 * Pow128(2);
    assert Pow128(6) == 128 * Pow128(5) == 0x4000 * Pow128(4);
    assert Pow128(8) == 128 * Pow128(7) == 0x4000 * Pow128(6);
    assert Pow128(10) == 128 * Pow128(9);
  }

  /** A digit string has the fewest digits that can hold its value. */
  lemma {:induction false} DigitsLength(z: nat)
    ensures z < Pow128(|Digits(z)|)
    ensures |Digits(z)| > 1 ==> z >= Pow128(|Digits(z)| - 1)
    decreases z
  {
    if z >= 128 {
      DigitsLength(z / 128);
    }
  }

  lemma {:induction false} Pow128Monotone(a: nat, b: nat)
    requires a <= b
    ensures Pow128(a) <= Pow128(b)
    decreases b
  {
    if a < b {
      Pow128Monotone(a, b - 1);
    }
  }

  /** Every encoded i64 takes between one and ten bytes. */
  lemma EncodeLength(v: i64)
    ensures 1 <= |Encode(v)| <= 10
  {
    var n := |Encode(v)|;
    DigitsLength(ZigZag(v));
    if n > 10 {
      Pow128Monotone(10, n - 1);
      Pow128Values();
      assert false;
    }
  }

  /** The loop of `encode_varint`: emit seven bits at a time. */
  method EncodeVarint(value: i64) returns (result: seq<byte>)
    ensures result == Encode(value)
  {
    result := [];
    var v := ZigZag(value);
    while v >= 0x80
      invariant v >= 0
      invariant result + Digits(v) == Encode(value)
    {
      ghost var before := result;
      assert Digits(v) == [v % 128 + 128] + Digits(v / 128);
      assert before + Digits(v) == (before + [v % 128 + 128]) + Digits(v / 128);
      result := result + [v % 128 + 128];
      v := v / 128;
    }
    assert Digits(v) == [v];
    result := result + [v];
  }

  // ----- decoding ---------------------------------------------------------

  /** Position of the first byte without a continuation bit, or |s| if none. */
  function Terminator(s: seq<byte>): (k: nat)
    ensures k <= |s|
  {
    if s == [] || s[0] < 128 then 0 else 1 + Terminator(s[1..])
  }

  lemma {:induction false} TerminatorSpec(s: seq<byte>)
    ensures forall i :: 0 <= i < Terminator(s) ==> s[i] >= 128
    ensures Terminator(s) < |s| ==> s[Terminator(s)] < 128
  {
    if s != [] && s[0] >= 128 {
      TerminatorSpec(s[1..]);
      assert s == [s[0]] + s[1..];
    }
  }

  /** The number whose base-128 digits are the low seven bits of the bytes. */
  function DigitValue(s: seq<byte>): (n: nat) {
    if s == [] then 0 else s[0] % 128 + 128 * DigitValue(s[1..])
  }

  /** What decoding means: the first unterminated byte must come within ten, and
      the digits up to it are read modulo 2^64. */
  function Decode(s: seq<byte>): (r: Result<(i64, nat)>) {
    var k := Terminator(s);
    if k >= 10 then Err("Varint too long")
    else if k >= |s| then Err("Unexpected end of varint data")
    else Ok((UnZigZag(DigitValue(s[..k + 1]) % TWO64), k + 1))
  }

  lemma {:induction false} DigitValueAppend(s: seq<byte>, b: byte)
    ensures DigitValue(s + [b]) == DigitValue(s) + (b % 128) * Pow128(|s|)
  {
    if s == [] {
      assert [b][1..] == [];
    } else {
      assert (s + [b])[1..] == s[1..] + [b];
      DigitValueAppend(s[1..], b);
      var d := b % 128;
      var p := Pow128(|s| - 1);
      assert 128 * (d * p) == d * (128 * p);
    }
  }

  lemma {:induction false} DigitValueBound(s: seq<byte>)
    ensures DigitValue(s) < Pow128(|s|)
  {
    if s != [] {
      DigitValueBound(s[1..]);
    }
  }

  lemma {:induction false} TerminatorFrom(s: seq<byte>, k: nat)
    requires k <= |s|
    requires forall i :: 0 <= i < k ==> s[i] >= 128
    ensures Terminator(s) >= k
    ensures k < |s| && s[k] < 128 ==> Terminator(s) == k
  {
    if k > 0 {
      assert forall i :: 0 <= i < k - 1 ==> s[1..][i] == s[i + 1];
      TerminatorFrom(s[1..], k - 1);
    }
  }

  /** The tenth byte is shifted by 63, so only its lowest bit stays in the word. */
  lemma TopDigit(low: nat, d: nat)
    requires low < TWO63 && d < 128
    ensures (low + d * TWO63) % TWO64 == low + (d * TWO63) % TWO64
    ensures (d * TWO63) % TWO64 == (d % 2) * TWO63
  {
    assert d * TWO63 == (d % 2) * TWO63 + (d / 2) * TWO64;
    ModShift((d % 2) * TWO63, d / 2, TWO64);
    ModShift(low + (d % 2) * TWO63, d / 2, TWO64);
  }

  lemma SmallDigit(low: nat, d: nat, p: nat)
    requires low < p <= 0x100_0000_0000_0000 && d < 128
    ensures (low + d * p) % TWO64 == low + d * p
    ensures (d * p) % TWO64 == d * p
  {
    assert 0 <= d * p <= 127 * p;
  }

  /** The contribution of one digit never reaches past the word below the tenth
      byte, and is cut to one bit there. */
  lemma DigitInWord(s: seq<byte>, b: byte)
    requires |s| <= 9
    ensures (DigitValue(s) + (b % 128) * Pow128(|s|)) % TWO64
         == DigitValue(s) + ((b % 128) * Pow128(|s|)) % TWO64
    ensures DigitValue(s) < TWO63
    ensures |s| < 9 ==> ((b % 128) * Pow128(|s|)) % TWO64 == (b % 128) * Pow128(|s|)
  {
    var d, p := b % 128, Pow128(|s|);
    DigitValueBound(s);
    Pow128Values();
    Pow128Monotone(|s|, 9);
    if |s| == 9 {
      TopDigit(DigitValue(s), d);
    } else {
      Pow128Monotone(|s|, 8);
      SmallDigit(DigitValue(s), d, p);
    }
  }

  /** `((byte & 0x7F) as u64) << (7 * pos)`: bits shifted out of the word are lost. */
  function Shifted(b: byte, pos: nat): (n: u64) {
    ((b % 128) * Pow128(pos)) % TWO64
  }

  /** One more digit of a number in the making. */
  lemma DecodeTurn(data: seq<byte>, pos: nat, b: byte)
    requires pos < |data| && pos <= 9 && b == data[pos]
    ensures DigitValue(data[..pos + 1]) % TWO64 == DigitValue(data[..pos]) + Shifted(b, pos)
    ensures pos < 9 ==> DigitValue(data[..pos + 1]) == DigitValue(data[..pos]) + Shifted(b, pos) < TWO63
  {
    var done, more := data[..pos], data[..pos + 1];
    assert more == done + [b];
    DigitValueAppend(done, b);
    DigitInWord(done, b);
    if pos < 9 {
      DigitInWord(more, 0);
    }
  }

  /** The three ends of decoding once `pos` bytes had a continuation bit. */
  lemma DecodeEnds(data: seq<byte>, pos: nat)
    requires pos <= Terminator(data) && pos <= 10
    ensures pos < |data| && data[pos] >= 128 ==> pos < Terminator(data)
    ensures pos == 10 ==> Decode(data) == Err("Varint too long")
    ensures pos < 10 && pos == |data| ==> Decode(data) == Err("Unexpected end of varint data")
    ensures pos < 10 && pos < |data| && data[pos] < 128 ==>
            Decode(data) == Ok((UnZigZag(DigitValue(data[..pos + 1]) % TWO64), pos + 1))
  {
    TerminatorSpec(data);
  }

  /** The loop of `decode_varint`. `shift` counts 0, 7, .., 63: Rust's `<<` by 64
      or more never happens (the assertion). Below 2^shift the `|=` is a sum. */
  method DecodeVarint(data: seq<byte>) returns (r: Result<(i64, nat)>)
    ensures r == Decode(data)
  {
    var result := 0;
    var shift, pos := 0, 0;
    while true
      invariant 0 <= pos <= Terminator(data) && pos <= 9
      invariant shift == 7 * pos
      invariant result == DigitValue(data[..pos]) < TWO63
      decreases |data| - pos
    {
      DecodeEnds(data, pos);
      if pos >= |data| {
        return Err("Unexpected end of varint data");
      }
      var byte := data[pos];
      assert shift < 64;
      DecodeTurn(data, pos, byte);
      result := result + Shifted(byte, pos);
      pos := pos + 1;
      shift := shift + 7;
      if byte < 128 {
        break;
      }
      if shift >= 64 {
        DecodeEnds(data, pos);
        return Err("Varint too long");
      }
    }
    r := Ok((UnZigZag(result), pos));
  }

  lemma {:induction false} DigitsValue(z: nat)
    ensures DigitValue(Digits(z)) == z
    decreases z
  {
    if z >= 128 {
      assert Digits(z)[1..] == Digits(z / 128);
      DigitsValue(z / 128);
    } else {
      assert Digits(z)[1..] == [];
    }
  }

  /** Decoding stops where the digits of an unsigned number do. */
  lemma DecodeDigits(z: u64, suffix: seq<byte>)
    requires |Digits(z)| <= 10
    ensures Decode(Digits(z) + suffix) == Ok((UnZigZag(z), |Digits(z)|))
  {
    DigitsEnd(z, suffix);
    assert (Digits(z) + suffix)[..|Digits(z)|] == Digits(z);
    DigitsValue(z);
    ModShift(z, 0, TWO64);
  }

  lemma DigitsEnd(z: nat, suffix: seq<byte>)
    ensures Terminator(Digits(z) + suffix) == |Digits(z)| - 1
  {
    DigitsShape(z);
    TerminatorFrom(Digits(z) + suffix, |Digits(z)| - 1);
  }

  /** Decoding inverts encoding whatever bytes follow, and says how many were read. */
  lemma DecodeEncode(v: i64, suffix: seq<byte>)
    ensures Decode(Encode(v) + suffix) == Ok((v, |Encode(v)|))
    ensures 1 <= |Encode(v)| <= 10
  {
    EncodeLength(v);
    DecodeDigits(ZigZag(v), suffix);
    ZigZagRoundTrip(v);
  }

  /** On arbitrary bytes: accepted exactly when one of the first ten bytes has no
      continuation bit, and then between one and ten bytes are consumed. */
  lemma DecodeTotal(s: seq<byte>)
    ensures Decode(s).Ok? <==> exists i :: 0 <= i < |s| && i < 10 && s[i] < 128
    ensures Decode(s).Ok? ==> 1 <= Decode(s).value.1 <= 10 && Decode(s).value.1 <= |s|
    ensures Decode(s).Ok? ==> s[Decode(s).value.1 - 1] < 128
  {
    TerminatorSpec(s);
    if i :| 0 <= i < |s| && i < 10 && s[i] < 128 {
      assert Terminator(s) <= i;
    }
    if Decode(s).Ok? {
      assert s[Terminator(s)] < 128;
    }
  }
}
