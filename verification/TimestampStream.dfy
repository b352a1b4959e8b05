/** The escaped delta-of-delta timestamp stream of
    storage/src/columnstore/block_format.rs: one byte per small second difference,
    0x80 before a 16-bit one, 0x81 before a 64-bit one. */
module TimestampStream {
  import opened Machine

  // ----- one second difference ---------------------------------------------

  /** The low-order bytes of a two's-complement value, big-endian. */
  function PutSigned(x: i64, w: nat): (s: seq<byte>)
    ensures |s| == w
  {
    PutBE(Unsigned(x), w)
  }

  function GetSigned64(s: seq<byte>): i64
    requires |s| == 8
  {
    GetBEBound(s);
    Pow256Values();
    Signed(GetBE(s))
  }

  function GetSigned16(s: seq<byte>): (x: i64)
    requires |s| == 2
    ensures -32768 <= x <= 32767
  {
    var n := s[0] as int * 256 + s[1];
    if n >= 32768 then n - 65536 else n
  }

  lemma Signed64RoundTrip(x: i64)
    ensures GetSigned64(PutSigned(x, 8)) == x
  {
    Pow256Values();
    GetPutBEExact(Unsigned(x), 8);
  }

  lemma Signed16RoundTrip(x: i64)
    requires -32768 <= x <= 32767
    ensures GetSigned16(PutSigned(x, 2)) == x
  {
    TwoBytes(Unsigned(x));
  }

  lemma TwoBytes(u: nat)
    ensures PutBE(u, 2) == [u / 256 % 256, u % 256]
  {
    assert PutBE(u / 256, 1) == PutBE(u / 256 / 256, 0) + [u / 256 % 256];
  }

  function Token(d: i64): (s: seq<byte>) {
    if -128 <= d <= 127 then PutSigned(d, 1)
    else if -32768 <= d <= 32767 then [0x80] + PutSigned(d, 2)
    else [0x81] + PutSigned(d, 8)
  }

  /** The differences whose one-byte form is one of the escape bytes. */
  predicate Colliding(d: i64) {
    d == -128 || d == -127
  }

  /** The body of the decoding loop up to the difference; None is the panic of
      reading past the end of the buffer. */
  function ReadToken(data: seq<byte>): (r: Option<(i64, nat)>)
    requires data != []
    ensures r.Some? ==> 1 <= r.value.1 <= |data|
  {
    var flag := data[0];
    if flag == 0x80 then
      if |data| < 3 then None else Some((GetSigned16(data[1..3]), 3))
    else if flag == 0x81 then
      if |data| < 9 then None else Some((GetSigned64(data[1..9]), 9))
    else Some((if flag < 128 then flag else flag as int - 256, 1))
  }

  /** A reader never spends fewer bytes on a difference than the writer, and
      strictly more on a colliding one. */
  lemma ReadLength(data: seq<byte>)
    requires data != [] && ReadToken(data).Some?
    ensures var (d, used) := ReadToken(data).value;
            used >= |Token(d)| && (Colliding(d) ==> used > |Token(d)|)
  {
  }

  lemma ReadWritten(d: i64, tail: seq<byte>)
    requires !Colliding(d)
    ensures Token(d) != [] && ReadToken(Token(d) + tail) == Some((d, |Token(d)|))
  {
    var s := Token(d) + tail;
    if -128 <= d <= 127 {
      var u := Unsigned(d);
      assert PutBE(u, 1) == PutBE(u / 256, 0) + [u % 256];
    } else if -32768 <= d <= 32767 {
      assert s[1..3] == PutSigned(d, 2);
      Signed16RoundTrip(d);
    } else {
      assert s[1..9] == PutSigned(d, 8);
      Signed64RoundTrip(d);
    }
  }

  // ----- the stream of second differences ----------------------------------

  function Tokens(ds: seq<i64>): (s: seq<byte>) {
    if ds == [] then [] else Token(ds[0]) + Tokens(ds[1..])
  }

  /** The second differences of the timestamps after the first two; None is the
      overflow panic. */
  function Dods(build: Build, prev: i64, prevDelta: i64, rest: seq<i64>): (r: Option<seq<i64>>)
    ensures r.Some? ==> |r.value| == |rest|
    ensures build.Wrapping? ==> r.Some?
    decreases |rest|
  {
    if rest == [] then Some([])
    else
      var delta := Sub(build, rest[0], prev);
      if delta.None? then None
      else
        var dod := Sub(build, delta.value, prevDelta);
        if dod.None? then None
        else
          var tail := Dods(build, rest[0], delta.value, rest[1..]);
          if tail.None? then None else Some([dod.value] + tail.value)
  }

  /** `prev_delta += delta; push(last + prev_delta)`. */
  function AddDod(build: Build, prev: i64, prevDelta: i64, dod: i64): (r: Option<(i64, i64)>) {
    var delta := Add(build, prevDelta, dod);
    if delta.None? then None
    else
      var value := Add(build, prev, delta.value);
      if value.None? then None else Some((delta.value, value.value))
  }

  function ReadAll(build: Build, prev: i64, prevDelta: i64, data: seq<byte>): (r: Outcome<seq<i64>>)
    decreases |data|
  {
    if data == [] then Done([])
    else
      var token := ReadToken(data);
      if token.None? then Panicked
      else
        var next := AddDod(build, prev, prevDelta, token.value.0);
        if next.None? then Panicked
        else
          var rest := ReadAll(build, next.value.1, next.value.0, data[token.value.1..]);
          if rest.Done? then Done([next.value.1] + rest.value) else rest
  }

  /** What the reader adds, the writer had subtracted. */
  lemma AddDodInverse(build: Build, prev: i64, prevDelta: i64, x: i64, dod: i64)
    requires Sub(build, x, prev).Some?
    requires var delta := Sub(build, x, prev).value; Sub(build, delta, prevDelta) == Some(dod)
    ensures AddDod(build, prev, prevDelta, dod) == Some((Sub(build, x, prev).value, x))
  {
    var delta := Sub(build, x, prev).value;
    AddSub(build, prev, delta, x);
    AddSub(build, prevDelta, dod, delta);
  }

  lemma AddDodUnique(build: Build, prev: i64, prevDelta: i64, x: i64, dod: i64, read: i64, delta: i64)
    requires Sub(build, x, prev).Some?
    requires Sub(build, Sub(build, x, prev).value, prevDelta) == Some(dod)
    requires AddDod(build, prev, prevDelta, read) == Some((delta, x))
    ensures read == dod && delta == Sub(build, x, prev).value
  {
    AddSub(build, prev, delta, x);
    AddSub(build, prevDelta, read, delta);
  }

  /** Without a colliding difference the stream reads back. */
  lemma {:induction false} ReadTokens(build: Build, prev: i64, prevDelta: i64, rest: seq<i64>)
    requires Dods(build, prev, prevDelta, rest).Some?
    requires forall d :: d in Dods(build, prev, prevDelta, rest).value ==> !Colliding(d)
    ensures ReadAll(build, prev, prevDelta, Tokens(Dods(build, prev, prevDelta, rest).value)) == Done(rest)
    decreases |rest|
  {
    if rest != [] {
      var ds := Dods(build, prev, prevDelta, rest).value;
      var delta := Sub(build, rest[0], prev).value;
      assert ds[1..] == Dods(build, rest[0], delta, rest[1..]).value;
      ReadTokens(build, rest[0], delta, rest[1..]);
      var tail := Tokens(ds[1..]);
      assert !Colliding(ds[0]);
      ReadWritten(ds[0], tail);
      AddDodInverse(build, prev, prevDelta, rest[0], ds[0]);
      assert (Token(ds[0]) + tail)[|Token(ds[0])|..] == tail;
      assert [rest[0]] + rest[1..] == rest;
    }
  }

  /** Any data that reads back as `rest` is at least as long as the tokens of its
      differences, and longer as soon as one of them collides. */
  lemma {:induction false} LengthForced(build: Build, prev: i64, prevDelta: i64, data: seq<byte>, rest: seq<i64>)
    requires ReadAll(build, prev, prevDelta, data) == Done(rest)
    requires Dods(build, prev, prevDelta, rest).Some?
    ensures var ds := Dods(build, prev, prevDelta, rest).value;
            && |data| >= |Tokens(ds)|
            && ((exists d :: d in ds && Colliding(d)) ==> |data| > |Tokens(ds)|)
    decreases |data|
  {
    if data != [] {
      var (read, used) := ReadToken(data).value;
      var (delta, x) := AddDod(build, prev, prevDelta, read).value;
      assert rest[0] == x && rest[1..] == ReadAll(build, x, delta, data[used..]).value;
      var ds := Dods(build, prev, prevDelta, rest).value;
      AddDodUnique(build, prev, prevDelta, x, ds[0], read, delta);
      ReadLength(data);
      assert ds[1..] == Dods(build, x, delta, rest[1..]).value;
      LengthForced(build, x, delta, data[used..], rest[1..]);
      if d :| d in ds && Colliding(d) {
        assert d == ds[0] || d in ds[1..];
      }
    }
  }

  // ----- whole lists -------------------------------------------------------

  function Heads(ts: seq<i64>): (s: seq<byte>) {
    if ts == [] then [] else PutSigned(ts[0], 8) + Heads(ts[1..])
  }

  /** `encode_timestamps`. */
  function Encode(build: Build, ts: seq<i64>): (r: Outcome<seq<byte>>)
    ensures build.Wrapping? ==> r.Done?
  {
    if |ts| < 2 then Done(Heads(ts))
    else
      var delta := Sub(build, ts[1], ts[0]);
      if delta.None? then Panicked
      else
        var dods := Dods(build, ts[1], delta.value, ts[2..]);
        if dods.None? then Panicked
        else Done(PutSigned(ts[0], 8) + PutSigned(delta.value, 8) + Tokens(dods.value))
  }

  /** `decode_timestamps`. */
  function Decode(build: Build, data: seq<byte>): (r: Outcome<seq<i64>>) {
    if |data| < 16 then Failed("Timestamp data too short")
    else
      var first, delta := GetSigned64(data[..8]), GetSigned64(data[8..16]);
      var second := Add(build, first, delta);
      if second.None? then Panicked
      else
        var rest := ReadAll(build, second.value, delta, data[16..]);
        if rest.Done? then Done([first, second.value] + rest.value) else rest
  }

  /** No second difference is -128 or -127. */
  predicate CollisionFree(build: Build, ts: seq<i64>)
    requires |ts| >= 2 && Encode(build, ts).Done?
  {
    forall d :: d in Dods(build, ts[1], Sub(build, ts[1], ts[0]).value, ts[2..]).value ==> !Colliding(d)
  }

  lemma DecodeHead(build: Build, ts: seq<i64>)
    requires |ts| >= 2 && Encode(build, ts).Done?
    ensures var delta := Sub(build, ts[1], ts[0]).value;
            var rest := ReadAll(build, ts[1], delta, Tokens(Dods(build, ts[1], delta, ts[2..]).value));
            Decode(build, Encode(build, ts).value)
            == if rest.Done? then Done([ts[0], ts[1]] + rest.value) else rest
  {
    var delta := Sub(build, ts[1], ts[0]).value;
    var data := Encode(build, ts).value;
    assert data[..8] == PutSigned(ts[0], 8);
    assert data[8..16] == PutSigned(delta, 8);
    assert data[16..] == Tokens(Dods(build, ts[1], delta, ts[2..]).value);
    Signed64RoundTrip(ts[0]);
    Signed64RoundTrip(delta);
    AddSub(build, ts[0], delta, ts[1]);
  }

  /** The exact condition of the round trip, for every list and both builds: at
      least two timestamps and no second difference equal to an escape byte. */
  lemma RoundTripIff(build: Build, ts: seq<i64>)
    requires Encode(build, ts).Done?
    ensures Decode(build, Encode(build, ts).value) == Done(ts)
       <==> |ts| >= 2 && CollisionFree(build, ts)
  {
    if |ts| < 2 {
      ShortNotRead(build, ts);
    } else {
      var delta := Sub(build, ts[1], ts[0]).value;
      var ds := Dods(build, ts[1], delta, ts[2..]).value;
      DecodeHead(build, ts);
      assert [ts[0], ts[1]] + ts[2..] == ts;
      if CollisionFree(build, ts) {
        ReadTokens(build, ts[1], delta, ts[2..]);
      } else if Decode(build, Encode(build, ts).value) == Done(ts) {
        var rest := ReadAll(build, ts[1], delta, Tokens(ds));
        assert rest.value == ([ts[0], ts[1]] + rest.value)[2..] == ts[2..];
        LengthForced(build, ts[1], delta, Tokens(ds), ts[2..]);
        assert false;
      }
    }
  }

  lemma ShortNotRead(build: Build, ts: seq<i64>)
    requires |ts| < 2 && Encode(build, ts).Done?
    ensures !Decode(build, Encode(build, ts).value).Done?
  {
    assert ts[..] == ts;
    if |ts| == 1 {
      assert Heads(ts) == PutSigned(ts[0], 8) + Heads(ts[1..]);
      assert Heads(ts[1..]) == [];
    }
    assert |Encode(build, ts).value| < 16;
  }

  /** A list of three timestamps that is not read back. */
  lemma RoundTripFails(build: Build)
    ensures Encode(build, [0, 128, 128]).Done?
    ensures Decode(build, Encode(build, [0, 128, 128]).value) != Done([0, 128, 128])
  {
    var ts: seq<i64> := [0, 128, 128];
    assert ts[2..] == [128] && ts[2..][1..] == [];
    assert Dods(build, 128, 0, ts[2..][1..]) == Some([]);
    var ds: seq<i64> := [-128];
    assert ds + [] == ds && -128 in ds;
    assert Dods(build, 128, 128, ts[2..]) == Some(ds);
    RoundTripIff(build, ts);
  }

  // ----- lists that no reader could tell apart -----------------------------

  lemma SmallToken(d: i64)
    requires -128 <= d <= 127
    ensures Token(d) == [if d < 0 then d + 256 else d]
  {
    var u := Unsigned(d);
    assert PutBE(u, 1) == PutBE(u / 256, 0) + [u % 256];
  }

  lemma WideToken(high: byte, low: byte)
    requires 1 <= high < 128
    ensures Token(high * 256 + low) == [0x80, high, low]
  {
    var u: nat := high * 256 + low;
    assert Unsigned(u) == u;
    assert PutBE(u, 2) == PutBE(u / 256, 1) + [u % 256];
    assert PutBE(u / 256, 1) == PutBE(u / 256 / 256, 0) + [u / 256 % 256];
  }

  lemma TokensCons(list: seq<i64>, d: i64, ds: seq<i64>, bytes: seq<byte>, out: seq<byte>)
    requires list == [d] + ds && Tokens(ds) == bytes && out == Token(d) + bytes
    ensures Tokens(list) == out
  {
    assert list[1..] == ds;
  }

  lemma FourTokens(w: i64, x: i64, y: i64, z: i64)
    ensures Tokens([w, x, y, z]) == Token(w) + (Token(x) + (Token(y) + Token(z)))
  {
    TokensCons([z], z, [], [], Token(z));
    TokensCons([y, z], y, [z], Token(z), Token(y) + Token(z));
    TokensCons([x, y, z], x, [y, z], Token(y) + Token(z), Token(x) + (Token(y) + Token(z)));
    var last := Token(x) + (Token(y) + Token(z));
    TokensCons([w, x, y, z], w, [x, y, z], last, Token(w) + last);
  }

  /** The bytes 80 p q 80 r s, written for two different lists of differences. */
  lemma TokensCollide(e: i64, p: byte, q: byte, r: byte, s: byte)
    requires e == -128 && 1 <= p < 128 && q < 128 && 1 <= r < 128 && s < 128
    ensures Tokens([e, p, q, r * 256 + s]) == Tokens([p * 256 + q, e, r, s])
  {
    FourTokens(e, p, q, r * 256 + s);
    FourTokens(p * 256 + q, e, r, s);
    SmallToken(e);
    SmallToken(p);
    SmallToken(q);
    SmallToken(r);
    SmallToken(s);
    WideToken(p, q);
    WideToken(r, s);
    Spliced(0x80, p, q, r, s);
  }

  lemma Spliced(e: byte, p: byte, q: byte, r: byte, s: byte)
    ensures [e] + ([p] + ([q] + [e, r, s])) == [e, p, q] + ([e] + ([r] + [s]))
  {
  }

  lemma DodsCons(build: Build, prev: i64, prevDelta: i64, list: seq<i64>, x: i64, rest: seq<i64>, ds: seq<i64>,
                 out: seq<i64>)
    requires FitsI64(x - prev) && FitsI64(x - prev - prevDelta) && Dods(build, x, x - prev, rest) == Some(ds)
    requires list == [x] + rest && out == [x - prev - prevDelta] + ds
    ensures Dods(build, prev, prevDelta, list) == Some(out)
  {
    assert list[1..] == rest;
  }

  /** Four timestamps after one that stands still, with their second differences. */
  lemma FourDods(build: Build, w: i64, x: i64, y: i64, z: i64, ds: seq<i64>)
    requires -TWO32 <= w <= TWO32 && -TWO32 <= x <= TWO32 && -TWO32 <= y <= TWO32 && -TWO32 <= z <= TWO32
    requires ds == [w, x - 2 * w, y - 2 * x + w, z - 2 * y + x]
    ensures Dods(build, 0, 0, [w, x, y, z]) == Some(ds)
  {
    DodsCons(build, y, y - x, [z], z, [], [], [ds[3]]);
    DodsCons(build, x, x - w, [y, z], y, [z], [ds[3]], [ds[2], ds[3]]);
    DodsCons(build, w, w, [x, y, z], x, [y, z], [ds[2], ds[3]], [ds[1], ds[2], ds[3]]);
    DodsCons(build, 0, 0, [w, x, y, z], w, [x, y, z], [ds[1], ds[2], ds[3]], ds);
  }

  /** The stream of two bounds, a stand at 0 and a continuation. */
  lemma StandThen(build: Build, bound: i64, tail: seq<i64>, ds: seq<i64>, rest: seq<i64>, out: seq<i64>)
    requires 0 < bound < TWO32 && Dods(build, 0, 0, tail) == Some(ds)
    requires rest == [0, 0] + tail && out == [-3 * bound, bound] + ds
    ensures Dods(build, bound, 2 * bound, rest) == Some(out)
    ensures Tokens(out) == Token(-3 * bound) + (Token(bound) + Tokens(ds))
  {
    DodsCons(build, 0, -bound, [0] + tail, 0, tail, ds, [bound] + ds);
    DodsCons(build, bound, 2 * bound, rest, 0, [0] + tail, [bound] + ds, out);
    TokensCons([bound] + ds, bound, ds, Tokens(ds), Token(bound) + Tokens(ds));
    var last := Token(bound) + Tokens(ds);
    TokensCons(out, -3 * bound, [bound] + ds, last, Token(-3 * bound) + last);
  }

  lemma StandStream(build: Build, bound: i64, rest: seq<i64>, out: seq<i64>, ts: seq<i64>)
    requires 0 < bound < TWO32 && Dods(build, bound, 2 * bound, rest) == Some(out) && ts == [-bound, bound] + rest
    ensures Encode(build, ts) == Done(PutSigned(-bound, 8) + PutSigned(2 * bound, 8) + Tokens(out))
  {
    assert ts[2..] == rest;
  }

  /** The bytes of a stream that goes from -bound to bound, stands at 0, and goes on. */
  function Frame(bound: i64, tokens: seq<byte>): (bytes: seq<byte>)
    requires 0 < bound < TWO32
  {
    PutSigned(-bound, 8) + PutSigned(2 * bound, 8) + (Token(-3 * bound) + (Token(bound) + tokens))
  }

  lemma FramedBytes(build: Build, bound: i64, tail: seq<i64>, ds: seq<i64>, ts: seq<i64>)
    requires 0 < bound < TWO32 && Dods(build, 0, 0, tail) == Some(ds) && ts == [-bound, bound] + ([0, 0] + tail)
    ensures Encode(build, ts) == Done(Frame(bound, Tokens(ds)))
  {
    var rest, out := [0, 0] + tail, [-3 * bound, bound] + ds;
    StandThen(build, bound, tail, ds, rest, out);
    StandStream(build, bound, rest, out, ts);
  }

  lemma FramedAlike(build: Build, bound: i64, c: seq<i64>, cs: seq<i64>, a: seq<i64>, d: seq<i64>, ds: seq<i64>,
                    b: seq<i64>)
    requires 0 < bound < TWO32 && Dods(build, 0, 0, c) == Some(cs) && Dods(build, 0, 0, d) == Some(ds)
    requires a == [-bound, bound] + ([0, 0] + c) && b == [-bound, bound] + ([0, 0] + d)
    requires Tokens(cs) == Tokens(ds)
    ensures Encode(build, a).Done? && Encode(build, a) == Encode(build, b)
  {
    FramedBytes(build, bound, c, cs, a);
    FramedBytes(build, bound, d, ds, b);
  }

  /** Such timestamps, when the four that go on stay within the bounds. */
  function Framed(bound: i64, tail: seq<i64>): (ts: seq<i64>)
    requires |tail| == 4 && 0 < bound < TWO32
    requires forall i :: 0 <= i < 4 ==> -bound <= tail[i] <= bound
    ensures |ts| == 8 && ts[0] == -bound && ts[1] == bound && ts[4] == tail[0]
    ensures forall i :: 0 <= i < 8 ==> ts[0] <= ts[i] <= ts[1]
  {
    [-bound, bound] + ([0, 0] + tail)
  }

  /** A family of pairs of lists of eight timestamps within the same bounds and with the
      same bytes: the format itself, not only its reader, loses them. */
  lemma StreamsCollide(build: Build, bound: i64, p: byte, q: byte, r: byte, s: byte) returns (a: seq<i64>, b: seq<i64>)
    requires 1 <= p < 128 && q < 128 && 1 <= r < 128 && s < 128 && 0x10_0000 <= bound < TWO32
    ensures |a| == |b| == 8 && a[4] == -128 && b[4] == p * 256 + q && a[0] == b[0] && a[1] == b[1]
    ensures forall i :: 0 <= i < 8 ==> a[0] <= a[i] <= a[1] && b[0] <= b[i] <= b[1]
    ensures Encode(build, a).Done? && Encode(build, a) == Encode(build, b)
  {
    var e: i64, u: i64, v: i64 := -128, p * 256 + q, r * 256 + s;
    var c := FourAfterStand(build, e, p, q, v);
    var d := FourAfterStand(build, u, e, r, s);
    TokensCollide(e, p, q, r, s);
    a, b := Framed(bound, c), Framed(bound, d);
    FramedAlike(build, bound, c, [e, p, q, v], a, d, [u, e, r, s], b);
  }

  /** Timestamps with the given second differences after a stand at 0. */
  lemma FourAfterStand(build: Build, w: i64, x: i64, y: i64, z: i64) returns (ts: seq<i64>)
    requires -0x8000 <= w < 0x8000 && -0x8000 <= x < 0x8000 && -0x8000 <= y < 0x8000 && -0x8000 <= z < 0x8000
    ensures |ts| == 4 && ts[0] == w && Dods(build, 0, 0, ts) == Some([w, x, y, z])
    ensures forall i :: 0 <= i < 4 ==> -0x10_0000 <= ts[i] <= 0x10_0000
  {
    ts := [w, 2 * w + x, 3 * w + 2 * x + y, 4 * w + 3 * x + 2 * y + z];
    FourDods(build, ts[0], ts[1], ts[2], ts[3], [w, x, y, z]);
  }

  // ----- the loops ---------------------------------------------------------

  method EncodeTimestamps(build: Build, timestamps: seq<i64>) returns (r: Outcome<seq<byte>>)
    ensures r == Encode(build, timestamps)
  {
    if |timestamps| < 2 {
      var buf := AppendHeads(timestamps);
      return Done(buf);
    }
    var firstDelta := Sub(build, timestamps[1], timestamps[0]);
    if firstDelta.None? {
      return Panicked;
    }
    var deltas := SecondDifferences(build, timestamps, firstDelta.value);
    if deltas.None? {
      return Panicked;
    }
    var buf := AppendTokens(PutSigned(timestamps[0], 8) + PutSigned(firstDelta.value, 8), deltas.value);
    r := Done(buf);
  }

  method AppendHeads(timestamps: seq<i64>) returns (buf: seq<byte>)
    ensures buf == Heads(timestamps)
  {
    buf := [];
    for i := 0 to |timestamps|
      invariant buf + Heads(timestamps[i..]) == Heads(timestamps)
    {
      assert timestamps[i..][1..] == timestamps[i + 1..];
      buf := buf + PutSigned(timestamps[i], 8);
    }
    assert buf + [] == buf;
  }

  method SecondDifferences(build: Build, timestamps: seq<i64>, firstDelta: i64) returns (r: Option<seq<i64>>)
    requires |timestamps| >= 2
    ensures r == Dods(build, timestamps[1], firstDelta, timestamps[2..])
  {
    var deltas: seq<i64> := [];
    var prevDelta := firstDelta;
    ghost var all := Dods(build, timestamps[1], prevDelta, timestamps[2..]);
    assert all.Some? ==> [] + all.value == all.value;
    for i := 2 to |timestamps|
      invariant all == Onto(deltas, Dods(build, timestamps[i - 1], prevDelta, timestamps[i..]))
    {
      AfterStep(build, deltas, timestamps[i - 1], prevDelta, timestamps[i..]);
      assert timestamps[i..][1..] == timestamps[i + 1..];
      var delta := Sub(build, timestamps[i], timestamps[i - 1]);
      if delta.None? {
        return None;
      }
      var dod := Sub(build, delta.value, prevDelta);
      if dod.None? {
        return None;
      }
      deltas := deltas + [dod.value];
      prevDelta := delta.value;
    }
    assert deltas + [] == deltas;
    r := Some(deltas);
  }

  method AppendTokens(head: seq<byte>, deltas: seq<i64>) returns (buf: seq<byte>)
    ensures buf == head + Tokens(deltas)
  {
    buf := head;
    for i := 0 to |deltas|
      invariant buf + Tokens(deltas[i..]) == head + Tokens(deltas)
    {
      assert deltas[i..][1..] == deltas[i + 1..];
      assert buf + Tokens(deltas[i..]) == (buf + Token(deltas[i])) + Tokens(deltas[i + 1..]);
      buf := buf + Token(deltas[i]);
    }
    assert buf + [] == buf;
  }

  lemma AfterStep(build: Build, done: seq<i64>, prev: i64, prevDelta: i64, rest: seq<i64>)
    requires rest != []
    ensures var all := Onto(done, Dods(build, prev, prevDelta, rest));
            var delta := Sub(build, rest[0], prev);
            if delta.None? then all == None
            else
              var dod := Sub(build, delta.value, prevDelta);
              if dod.None? then all == None
              else all == Onto(done + [dod.value], Dods(build, rest[0], delta.value, rest[1..]))
  {
    var delta := Sub(build, rest[0], prev);
    if delta.Some? {
      var dod := Sub(build, delta.value, prevDelta);
      if dod.Some? {
        var tail := Dods(build, rest[0], delta.value, rest[1..]);
        assert tail.Some? ==> done + ([dod.value] + tail.value) == (done + [dod.value]) + tail.value;
      }
    }
  }

  method DecodeTimestamps(build: Build, data: seq<byte>) returns (r: Outcome<seq<i64>>)
    ensures r == Decode(build, data)
  {
    if |data| < 16 {
      return Failed("Timestamp data too short");
    }
    var first, firstDelta := GetSigned64(data[..8]), GetSigned64(data[8..16]);
    var second := Add(build, first, firstDelta);
    if second.None? {
      return Panicked;
    }
    var timestamps := [first, second.value];
    var last, prevDelta := second.value, firstDelta;
    var buf := data[16..];
    ghost var final := Decode(build, data);
    while buf != []
      invariant final == OntoOutcome(timestamps, ReadAll(build, last, prevDelta, buf))
      invariant timestamps != [] && last == timestamps[|timestamps| - 1]
      decreases |buf|
    {
      OntoStep(build, timestamps, last, prevDelta, buf);
      var token := ReadToken(buf);
      if token.None? {
        return Panicked;
      }
      var next := AddDod(build, last, prevDelta, token.value.0);
      if next.None? {
        return Panicked;
      }
      prevDelta, last := next.value.0, next.value.1;
      timestamps := timestamps + [last];
      buf := buf[token.value.1..];
    }
    assert timestamps + [] == timestamps;
    r := Done(timestamps);
  }

  lemma OntoStep(build: Build, done: seq<i64>, last: i64, prevDelta: i64, data: seq<byte>)
    requires data != []
    ensures var run := OntoOutcome(done, ReadAll(build, last, prevDelta, data));
            var token := ReadToken(data);
            if token.None? then run == Panicked
            else
              var next := AddDod(build, last, prevDelta, token.value.0);
              if next.None? then run == Panicked
              else
                run == OntoOutcome(done + [next.value.1],
                                   ReadAll(build, next.value.1, next.value.0, data[token.value.1..]))
  {
    var token := ReadToken(data);
    if token.Some? {
      var next := AddDod(build, last, prevDelta, token.value.0);
      if next.Some? {
        var x, rest := next.value.1, ReadAll(build, next.value.1, next.value.0, data[token.value.1..]);
        assert rest.Done? ==> done + ([x] + rest.value) == (done + [x]) + rest.value;
      }
    }
  }
}
