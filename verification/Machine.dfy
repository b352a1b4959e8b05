/** Machine integers as ranges of `int`, two's-complement conversion, and the
    big- and little-endian byte forms that the storage formats are built from. */
module Machine {

  type byte = b: int | 0 <= b < 256
  type u32 = x: int | 0 <= x < 0x1_0000_0000
  type u64 = x: int | 0 <= x < 0x1_0000_0000_0000_0000
  type i64 = x: int | -0x8000_0000_0000_0000 <= x < 0x8000_0000_0000_0000

  const TWO32: int := 0x1_0000_0000
  const TWO63: int := 0x8000_0000_0000_0000
  const TWO64: int := 0x1_0000_0000_0000_0000

  predicate FitsI64(x: int) {
    -TWO63 <= x < TWO63
  }

  /** Reduction modulo 2^64 into the signed range: what `+` and `-` on i64 yield
      in a build without overflow checks. */
  function Wrap64(x: int): (r: i64)
    ensures FitsI64(x) ==> r == x
    ensures (r - x) % TWO64 == 0
  {
    (x + TWO63) % TWO64 - TWO63
  }

  datatype Option<+T> = None | Some(value: T)
  datatype Result<+T> = Ok(value: T) | Err(error: string)
  datatype Outcome<+T> = Done(value: T) | Failed(error: string) | Panicked

  // ----- sequences of any elements -----------------------------------------

  lemma Assoc<T>(a: seq<T>, b: seq<T>, c: seq<T>)
    ensures (a + b) + c == a + (b + c)
  {
  }

  lemma AppendNil<T>(a: seq<T>)
    ensures a + [] == a && [] + a == a
  {
  }

  lemma Uncons<T>(s: seq<T>)
    requires s != []
    ensures s == [s[0]] + s[1..]
  {
  }

  lemma Unsnoc<T>(s: seq<T>)
    requires s != []
    ensures s == s[..|s| - 1] + [s[|s| - 1]]
  {
  }

  lemma TailOfAppend<T>(a: seq<T>, b: seq<T>)
    requires a != []
    ensures (a + b)[0] == a[0] && (a + b)[1..] == a[1..] + b
  {
  }

  lemma InitOfAppend<T>(a: seq<T>, b: seq<T>)
    requires b != []
    ensures (a + b)[|a + b| - 1] == b[|b| - 1] && (a + b)[..|a + b| - 1] == a + b[..|b| - 1]
  {
  }

  lemma InitOfSnoc<T>(a: seq<T>, x: T)
    ensures (a + [x])[..|a|] == a && (a + [x])[|a|] == x
  {
  }

  lemma TakeTake<T>(s: seq<T>, i: nat)
    requires i < |s|
    ensures s[..i + 1][..i] == s[..i]
  {
  }

  lemma TakeAll<T>(s: seq<T>)
    ensures s[..|s|] == s
  {
  }

  /** The parts of a text put together from three. */
  lemma ThreeParts<T>(a: seq<T>, b: seq<T>, c: seq<T>, s: seq<T>)
    requires s == a + (b + c)
    ensures s[..|a|] == a && s[|a|..] == b + c && s[|a|..|a| + |b|] == b && s[|a| + |b|..] == c
  {
  }

  /** What a loop yields that has `done` behind it and `rest` still to come. */
  function Onto<T>(done: seq<T>, rest: Option<seq<T>>): Option<seq<T>> {
    if rest.Some? then Some(done + rest.value) else None
  }

  function OntoOutcome<T>(done: seq<T>, rest: Outcome<seq<T>>): Outcome<seq<T>> {
    if rest.Done? then Done(done + rest.value) else rest
  }

  function Min(a: nat, b: nat): nat {
    if a < b then a else b
  }

  function Pow2(k: nat): (p: nat)
    ensures p > 0
  {
    if k == 0 then 1 else 2 * Pow2(k - 1)
  }

  /** How i64 overflow ends: a panic where overflow checks are on, wrap-around in
      the release profile. */
  datatype Build = Checked | Wrapping

  /** The i64 result of `+` or `-` whose exact value is `x`; None is the overflow panic. */
  function Arith(build: Build, x: int): (r: Option<i64>)
    ensures FitsI64(x) ==> r == Some(x)
  {
    if FitsI64(x) then Some(x) else if build.Checked? then None else Some(Wrap64(x))
  }

  function Add(build: Build, a: i64, b: i64): (r: Option<i64>) {
    Arith(build, a as int + b as int)
  }

  function Sub(build: Build, a: i64, b: i64): (r: Option<i64>) {
    Arith(build, a as int - b as int)
  }

  /** Subtraction undoes addition in both builds, panics included. */
  lemma AddSub(build: Build, a: i64, b: i64, x: i64)
    ensures Add(build, a, b) == Some(x) <==> Sub(build, x, a) == Some(b)
  {
    if build.Wrapping? {
      var sum, diff := a as int + b as int, x as int - a as int;
      if Add(build, a, b) == Some(x) {
        assert (x - sum) % TWO64 == 0;
        WrapUnique(diff, b);
      }
      if Sub(build, x, a) == Some(b) {
        assert (b - diff) % TWO64 == 0;
        WrapUnique(sum, x);
      }
    }
  }

  /** The bit pattern of a signed value, read as unsigned. */
  function Unsigned(x: i64): (r: u64) {
    if x < 0 then x + TWO64 else x
  }

  /** The bit pattern of an unsigned value, read as signed. */
  function Signed(u: u64): (r: i64)
    ensures Unsigned(r) == u
  {
    if u >= TWO63 then u - TWO64 else u
  }

  /** Two signed values that agree modulo 2^64 are equal. */
  lemma WrapUnique(x: int, y: i64)
    requires (x - y) % TWO64 == 0
    ensures Wrap64(x) == y
  {
    var k := (x - y) / TWO64;
    assert x + TWO63 == (y + TWO63) + k * TWO64;
    ModShift(y + TWO63, k, TWO64);
  }

  lemma ModShift(a: int, k: int, m: int)
    requires 0 <= a < m
    ensures (a + k * m) % m == a
  {
    var q := (a + k * m) / m;
    var r := (a + k * m) % m;
    assert q * m + r == a + k * m;
    assert (q - k) * m == a - r;
    MulGrows(q - k, m);
  }

  lemma MulGrows(k: int, m: int)
    requires m >= 0
    ensures k >= 1 ==> k * m >= m
    ensures k <= -1 ==> k * m <= -m
  {
  }

  function Pow256(w: nat): (p: nat)
    ensures p > 0
  {
    if w == 0 then 1 else 256 * Pow256(w - 1)
  }

  lemma Pow256Values()
    ensures Pow256(1) == 256 && Pow256(2) == 0x1_0000
    ensures Pow256(4) == TWO32 && Pow256(8) == TWO64
  {
    assert Pow256(2) == 256 * Pow256(1);
    assert Pow256(4) == 256 * Pow256(3) == 0x1_0000 * Pow256(2);
    assert Pow256(6) == 256 * Pow256(5) == 0x1_0000 * Pow256(4);
    assert Pow256(8) == 256 * Pow256(7) == 0x1_0000 * Pow256(6);
  }

  /** The `w` low-order bytes of `n`, most significant first. */
  function PutBE(n: nat, w: nat): (s: seq<byte>)
    ensures |s| == w
  {
    if w == 0 then [] else PutBE(n / 256, w - 1) + [n % 256]
  }

  function GetBE(s: seq<byte>): (n: nat)
    decreases |s|
  {
    if s == [] then 0 else GetBE(s[..|s| - 1]) * 256 + s[|s| - 1]
  }

  /** Reading back a written field truncates it to the field's width. */
  lemma {:induction false} GetPutBE(n: nat, w: nat)
    ensures GetBE(PutBE(n, w)) == n % Pow256(w)
  {
    if w > 0 {
      var s := PutBE(n, w);
      assert s[..|s| - 1] == PutBE(n / 256, w - 1);
      GetPutBE(n / 256, w - 1);
      DivModStep(n, Pow256(w - 1));
    }
  }

  /** Digit-by-digit reduction: (n / 256 mod p) * 256 + n mod 256 = n mod 256 p. */
  lemma DivModStep(n: nat, p: nat)
    requires p > 0
    ensures (n / 256 % p) * 256 + n % 256 == n % (256 * p)
  {
    var q := n / 256 / p;
    var r := n / 256 % p;
    assert n / 256 == q * p + r;
    assert n == (r * 256 + n % 256) + q * (256 * p) by {
      assert q * p * 256 == q * (256 * p);
    }
    assert r * 256 + n % 256 < 256 * p;
    ModShift(r * 256 + n % 256, q, 256 * p);
  }

  lemma GetPutBEExact(n: nat, w: nat)
    requires n < Pow256(w)
    ensures GetBE(PutBE(n, w)) == n
  {
    GetPutBE(n, w);
    ModShift(n, 0, Pow256(w));
  }

  lemma {:induction false} GetBEBound(s: seq<byte>)
    ensures GetBE(s) < Pow256(|s|)
    decreases |s|
  {
    if s != [] {
      GetBEBound(s[..|s| - 1]);
    }
  }

  /** The `w` low-order bytes of `n`, least significant first. */
  function PutLE(n: nat, w: nat): (s: seq<byte>)
    ensures |s| == w
  {
    if w == 0 then [] else [n % 256] + PutLE(n / 256, w - 1)
  }

  function GetLE(s: seq<byte>): (n: nat) {
    if s == [] then 0 else s[0] + 256 * GetLE(s[1..])
  }

  lemma {:induction false} GetPutLE(n: nat, w: nat)
    ensures GetLE(PutLE(n, w)) == n % Pow256(w)
  {
    if w > 0 {
      assert PutLE(n, w)[1..] == PutLE(n / 256, w - 1);
      GetPutLE(n / 256, w - 1);
      DivModStep(n, Pow256(w - 1));
    }
  }

  lemma GetPutLEExact(n: nat, w: nat)
    requires n < Pow256(w)
    ensures GetLE(PutLE(n, w)) == n
  {
    GetPutLE(n, w);
    ModShift(n, 0, Pow256(w));
  }

  lemma {:induction false} GetLEBound(s: seq<byte>)
    ensures GetLE(s) < Pow256(|s|)
  {
    if s != [] {
      GetLEBound(s[1..]);
    }
  }

  lemma SliceOfDrop<T>(s: seq<T>, a: nat, i: nat, j: nat)
    requires i <= j && a + j <= |s|
    ensures s[a..][i..j] == s[a + i..a + j]
  {
  }
}
