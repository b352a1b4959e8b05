/** The XOR value stream of storage/src/columnstore/block_format.rs, on 64-bit
    patterns. The source has no reader for it; `Decode` here is its inverse. */
module ValueStream {
  import opened Machine

  /** Bitwise exclusive or. */
  function Xor(a: nat, b: nat): (c: nat)
    decreases a + b
  {
    if a == 0 && b == 0 then 0
    else (a + b) % 2 + 2 * Xor(a / 2, b / 2)
  }

  lemma XorParts(a: nat, b: nat)
    ensures Xor(a, b) / 2 == Xor(a / 2, b / 2)
    ensures Xor(a, b) % 2 == (a + b) % 2
  {
  }

  lemma {:induction false} XorCancels(a: nat, b: nat)
    ensures Xor(a, Xor(a, b)) == b
    decreases a + b
  {
    if a != 0 || b != 0 {
      XorCancels(a / 2, b / 2);
      XorParts(a, b);
      XorParts(a, Xor(a, b));
      ParityCancels(a, b, Xor(a, b));
    }
  }

  lemma ParityCancels(a: nat, b: nat, c: nat)
    requires c % 2 == (a + b) % 2
    ensures (a + c) % 2 == b % 2
  {
  }

  lemma {:induction false} XorSelf(a: nat)
    ensures Xor(a, a) == 0
  {
    if a != 0 {
      XorSelf(a / 2);
      assert (a + a) % 2 == 0;
    }
  }

  lemma {:induction false} XorBound(a: nat, b: nat, k: nat)
    requires a < Pow2(k) && b < Pow2(k)
    ensures Xor(a, b) < Pow2(k)
    decreases k
  {
    if k > 0 {
      XorBound(a / 2, b / 2, k - 1);
    }
  }

  lemma {:induction false} Pow2Bytes(w: nat)
    ensures Pow2(8 * w) == Pow256(w)
  {
    if w > 0 {
      Pow2Bytes(w - 1);
      var n := 8 * (w - 1);
      assert Pow2(n + 2) == 2 * Pow2(n + 1) == 4 * Pow2(n);
      assert Pow2(n + 4) == 2 * Pow2(n + 3) == 4 * Pow2(n + 2);
      assert Pow2(n + 6) == 2 * Pow2(n + 5) == 4 * Pow2(n + 4);
      assert Pow2(n + 8) == 2 * Pow2(n + 7) == 4 * Pow2(n + 6);
    }
  }

  function XorBytes(xor: nat): (s: seq<byte>) {
    if xor == 0 then [0] else [1] + PutBE(xor, 8)
  }

  /** Two values as the stream stores the second after the first. */
  function Step(prev: u64, bits: u64): (s: seq<byte>) {
    XorBytes(Xor(prev, bits))
  }

  function Steps(prev: u64, rest: seq<u64>): (s: seq<byte>)
    decreases |rest|
  {
    if rest == [] then [] else Step(prev, rest[0]) + Steps(rest[0], rest[1..])
  }

  /** `encode_values`. */
  function Encode(values: seq<u64>): (s: seq<byte>) {
    if values == [] then [] else PutBE(values[0], 8) + Steps(values[0], values[1..])
  }

  method EncodeValues(values: seq<u64>) returns (buf: seq<byte>)
    ensures buf == Encode(values)
  {
    buf := [];
    if values == [] {
      return;
    }
    buf := buf + PutBE(values[0], 8);
    var prev := values[0];
    for i := 1 to |values|
      invariant prev == values[i - 1]
      invariant buf + Steps(prev, values[i..]) == Encode(values)
    {
      var bits := values[i];
      StepsTurn(buf, prev, values[i..], values[i + 1..]);
      buf := AppendXor(buf, Xor(prev, bits));
      prev := bits;
    }
    assert buf + [] == buf;
  }

  method AppendXor(before: seq<byte>, xor: nat) returns (buf: seq<byte>)
    ensures buf == before + XorBytes(xor)
  {
    if xor == 0 {
      buf := before + [0];
    } else {
      buf := before + ([1] + PutBE(xor, 8));
    }
  }

  lemma StepsTurn(buf: seq<byte>, prev: u64, rest: seq<u64>, tail: seq<u64>)
    requires rest != [] && tail == rest[1..]
    ensures buf + Steps(prev, rest) == (buf + XorBytes(Xor(prev, rest[0]))) + Steps(rest[0], tail)
  {
    Assoc(buf, Step(prev, rest[0]), Steps(rest[0], tail));
  }

  // ----- the inverse -------------------------------------------------------

  function ReadSteps(prev: u64, data: seq<byte>): (r: Option<seq<u64>>)
    decreases |data|
  {
    if data == [] then Some([])
    else if data[0] == 0 then Prepend(prev, ReadSteps(prev, data[1..]))
    else if data[0] != 1 || |data| < 9 then None
    else
      var bits := Xor(prev, GetBE(data[1..9]));
      if bits >= TWO64 then None else Prepend(bits, ReadSteps(bits, data[9..]))
  }

  function Prepend(x: u64, rest: Option<seq<u64>>): Option<seq<u64>> {
    if rest.Some? then Some([x] + rest.value) else None
  }

  function Decode(data: seq<byte>): (r: Option<seq<u64>>) {
    if data == [] then Some([])
    else if |data| < 8 then None
    else
      GetBEBound(data[..8]);
      Pow256Values();
      Prepend(GetBE(data[..8]), ReadSteps(GetBE(data[..8]), data[8..]))
  }

  lemma ReadStep(prev: u64, bits: u64, tail: seq<byte>)
    ensures ReadSteps(prev, Step(prev, bits) + tail) == Prepend(bits, ReadSteps(bits, tail))
  {
    var xor := Xor(prev, bits);
    var data := Step(prev, bits) + tail;
    XorCancels(prev, bits);
    XorSelf(prev);
    if xor == 0 {
      XorCancels(prev, 0);
      assert prev == bits by { XorZero(prev, bits); }
      assert data[1..] == tail;
    } else {
      Pow256Values();
      Pow2Bytes(8);
      XorBound(prev, bits, 64);
      GetPutBEExact(xor, 8);
      assert data[1..9] == PutBE(xor, 8) && data[9..] == tail;
    }
  }

  lemma XorZero(a: nat, b: nat)
    requires Xor(a, b) == 0
    ensures a == b
  {
    XorCancels(a, b);
    XorSelf(a);
    XorCancels(a, a);
  }

  lemma {:induction false} ReadStepsInverts(prev: u64, rest: seq<u64>)
    ensures ReadSteps(prev, Steps(prev, rest)) == Some(rest)
    decreases |rest|
  {
    if rest != [] {
      ReadStepsInverts(rest[0], rest[1..]);
      ReadStep(prev, rest[0], Steps(rest[0], rest[1..]));
      assert [rest[0]] + rest[1..] == rest;
    }
  }

  lemma DecodeEncode(values: seq<u64>)
    ensures Decode(Encode(values)) == Some(values)
  {
    if values != [] {
      var data := Encode(values);
      Pow256Values();
      GetPutBEExact(values[0], 8);
      assert data[..8] == PutBE(values[0], 8) && data[8..] == Steps(values[0], values[1..]);
      ReadStepsInverts(values[0], values[1..]);
      assert [values[0]] + values[1..] == values;
    }
  }

  /** Two different value lists never give the same byte stream. */
  lemma EncodeInjective(a: seq<u64>, b: seq<u64>)
    requires Encode(a) == Encode(b)
    ensures a == b
  {
    DecodeEncode(a);
    DecodeEncode(b);
  }
}
