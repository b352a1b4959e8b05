/** The timestamp column of storage/src/columnstore/column.rs. The builder writes
    delta-of-delta varints; the column decoder reads fixed 8-byte words. The bytes
    are those between zstd compression and decompression. */
module TimestampColumn {
  import opened Machine
  import opened Varint
  import opened DeltaCodec

  /** `build_timestamp_column`. */
  function Build(ts: seq<i64>): (r: Result<seq<byte>>) {
    EncodeRun(Second, FRESH, ts).1
  }

  /** The loop of `decode_timestamp_column` over `chunks(8)`, from a running delta
      and value; a short last chunk is an out-of-bounds panic. */
  function DecodeWords(build: Build, delta: i64, current: i64, data: seq<byte>): (r: Outcome<seq<i64>>)
    decreases |data|
  {
    if data == [] then Done([])
    else if |data| < 8 then Panicked
    else
      var step := AddWord(build, delta, current, Word(data[..8]));
      if step.None? then Panicked
      else
        var rest := DecodeWords(build, step.value.0, step.value.1, data[8..]);
        if rest.Done? then Done([step.value.1] + rest.value) else rest
  }

  /** `delta += dod; current += delta`. */
  function AddWord(build: Build, delta: i64, current: i64, dod: i64): (r: Option<(i64, i64)>) {
    var d := Add(build, delta, dod);
    if d.None? then None
    else
      var c := Add(build, current, d.value);
      if c.None? then None else Some((d.value, c.value))
  }

  function Word(chunk: seq<byte>): i64
    requires |chunk| == 8
  {
    GetLEBound(chunk);
    Pow256Values();
    Signed(GetLE(chunk))
  }

  method DecodeTimestampColumn(build: Build, data: seq<byte>) returns (r: Outcome<seq<i64>>)
    ensures r == DecodeWords(build, 0, 0, data)
  {
    var timestamps: seq<i64> := [];
    var current: i64, delta: i64 := 0, 0;
    var rest := data;
    ghost var final := DecodeWords(build, 0, 0, data);
    assert final.Done? ==> [] + final.value == final.value;
    while rest != []
      invariant final == OntoOutcome(timestamps, DecodeWords(build, delta, current, rest))
      decreases |rest|
    {
      OntoStep(build, timestamps, delta, current, rest);
      if |rest| < 8 {
        return Panicked;
      }
      var step := AddWord(build, delta, current, Word(rest[..8]));
      if step.None? {
        return Panicked;
      }
      delta, current := step.value.0, step.value.1;
      timestamps := timestamps + [current];
      rest := rest[8..];
    }
    assert timestamps + [] == timestamps;
    r := Done(timestamps);
  }

  /** One turn of the decoding loop. */
  lemma OntoStep(build: Build, done: seq<i64>, delta: i64, current: i64, data: seq<byte>)
    requires data != []
    ensures var run := OntoOutcome(done, DecodeWords(build, delta, current, data));
            if |data| < 8 then run == Panicked
            else
              var step := AddWord(build, delta, current, Word(data[..8]));
              if step.None? then run == Panicked
              else run == OntoOutcome(done + [step.value.1], DecodeWords(build, step.value.0, step.value.1, data[8..]))
  {
    if |data| >= 8 {
      var step := AddWord(build, delta, current, Word(data[..8]));
      if step.Some? {
        var c, rest := step.value.1, DecodeWords(build, step.value.0, step.value.1, data[8..]);
        assert rest.Done? ==> done + ([c] + rest.value) == (done + [c]) + rest.value;
      }
    }
  }

  // ----- when the column decoder returns a given list ----------------------

  /** Decoding to `ts` forces the words of the data to be the second differences
      of `ts`, one per timestamp. */
  lemma {:induction false} WordsAreDifferences(build: Build, delta: i64, current: i64, data: seq<byte>, ts: seq<i64>,
                                               k: nat)
    requires DecodeWords(build, delta, current, data) == Done(ts)
    requires AllFit(Deltas(current, ts)) && AllFit(Deltas(delta, Deltas(current, ts)))
    ensures |data| == 8 * |ts|
    ensures k < |ts| ==> Word(data[8 * k..8 * k + 8]) == Deltas(delta, Deltas(current, ts))[k]
    decreases |data|
  {
    if data != [] {
      var d, rest := DifferencesTurn(delta, current, ts);
      FirstWord(build, delta, current, data, ts, d);
      if k == 0 {
        WordsAreDifferences(build, d, ts[0], data[8..], ts[1..], 0);
        assert data[0..8] == data[..8];
      } else {
        WordsAreDifferences(build, d, ts[0], data[8..], ts[1..], k - 1);
        if k < |ts| {
          SliceOfDrop(data, 8, 8 * (k - 1), 8 * (k - 1) + 8);
        }
      }
    }
  }

  /** The first difference of each order, and those of the timestamps after it. */
  lemma DifferencesTurn(delta: i64, current: i64, ts: seq<i64>) returns (d: i64, rest: seq<int>)
    requires ts != [] && AllFit(Deltas(current, ts)) && AllFit(Deltas(delta, Deltas(current, ts)))
    ensures d == ts[0] - current && FitsI64(d - delta)
    ensures rest == Deltas(ts[0], ts[1..]) && AllFit(rest) && AllFit(Deltas(d, rest))
    ensures Deltas(delta, Deltas(current, ts)) == [d - delta] + Deltas(d, rest)
  {
    var ds := Deltas(current, ts);
    AllFitSplit(ds);
    AllFitSplit(Deltas(delta, ds));
    d, rest := ds[0], ds[1..];
    assert rest == Deltas(ts[0], ts[1..]);
  }

  lemma FirstWord(build: Build, delta: i64, current: i64, data: seq<byte>, ts: seq<i64>, d: i64)
    requires data != [] && ts != []
    requires DecodeWords(build, delta, current, data) == Done(ts)
    requires d == ts[0] - current && FitsI64(d - delta)
    ensures |data| >= 8 && Word(data[..8]) == d - delta
    ensures DecodeWords(build, d, ts[0], data[8..]) == Done(ts[1..])
  {
    var word := Word(data[..8]);
    var nextDelta := Add(build, delta, word).value;
    AddSub(build, current, nextDelta, ts[0]);
    AddSub(build, delta, word, nextDelta);
  }

  /** The 8-byte words that the column decoder looks for. */
  function Words(ds: seq<int>): (s: seq<byte>)
    requires AllFit(ds)
  {
    if ds == [] then [] else PutLE(Unsigned(ds[0]), 8) + Words(ds[1..])
  }

  lemma WordOfPut(d: i64)
    ensures Word(PutLE(Unsigned(d), 8)) == d
  {
    Pow256Values();
    GetPutLEExact(Unsigned(d), 8);
  }

  /** The format it does read: second differences, 8 bytes each, for every list whose
      differences fit. */
  lemma {:induction false} WordsDecode(build: Build, delta: i64, current: i64, ts: seq<i64>)
    requires AllFit(Deltas(current, ts)) && AllFit(Deltas(delta, Deltas(current, ts)))
    ensures DecodeWords(build, delta, current, Words(Deltas(delta, Deltas(current, ts)))) == Done(ts)
    decreases |ts|
  {
    if ts != [] {
      var d, rest := DifferencesTurn(delta, current, ts);
      var first, dods := d - delta, Deltas(d, rest);
      WordsDecode(build, d, ts[0], ts[1..]);
      WordsTurn(build, delta, current, d, ts[0], dods, ts[1..]);
      Uncons(ts);
    }
  }

  lemma WordsTurn(build: Build, delta: i64, current: i64, d: i64, t: i64, dods: seq<int>, ts: seq<i64>)
    requires FitsI64(d - delta) && d == t - current && AllFit(dods) && AllFit([d - delta] + dods)
    requires DecodeWords(build, d, t, Words(dods)) == Done(ts)
    ensures DecodeWords(build, delta, current, Words([d - delta] + dods)) == Done([t] + ts)
  {
    var all := [d - delta] + dods;
    TailOfAppend([d - delta], dods);
    AppendNil(dods);
    assert Words(all) == PutLE(Unsigned(all[0]), 8) + Words(all[1..]);
    WordOfPut(d - delta);
    AddWordExact(build, delta, current, d, t);
    DecodeCons(build, delta, current, PutLE(Unsigned(d - delta), 8), Words(dods), d, t, ts);
  }

  lemma AddWordExact(build: Build, delta: i64, current: i64, d: i64, t: i64)
    requires FitsI64(d - delta) && d == t - current
    ensures AddWord(build, delta, current, d - delta) == Some((d, t))
  {
  }

  lemma DecodeCons(build: Build, delta: i64, current: i64, word: seq<byte>, rest: seq<byte>, d: i64, t: i64,
                   ts: seq<i64>)
    requires |word| == 8 && AddWord(build, delta, current, Word(word)) == Some((d, t))
    requires DecodeWords(build, d, t, rest) == Done(ts)
    ensures DecodeWords(build, delta, current, word + rest) == Done([t] + ts)
  {
    assert (word + rest)[..8] == word && (word + rest)[8..] == rest;
  }

  lemma AddWordWraps(build: Build, delta: i64, current: i64, dod: i64)
    ensures AddWord(Wrapping, delta, current, dod).Some?
    ensures AddWord(build, delta, current, dod).Some? ==>
            AddWord(build, delta, current, dod) == AddWord(Wrapping, delta, current, dod)
  {
  }

  lemma {:induction false} WholeWords(build: Build, delta: i64, current: i64, data: seq<byte>)
    ensures var r := DecodeWords(build, delta, current, data);
            !r.Failed? && (r.Done? ==> |data| == 8 * |r.value|)
    decreases |data|
  {
    if |data| >= 8 {
      var step := AddWord(build, delta, current, Word(data[..8]));
      if step.Some? {
        WholeWords(build, step.value.0, step.value.1, data[8..]);
      }
    }
  }

  lemma {:induction false} WrappingReads(delta: i64, current: i64, data: seq<byte>)
    requires |data| % 8 == 0
    ensures DecodeWords(Wrapping, delta, current, data).Done?
    decreases |data|
  {
    if data != [] {
      AddWordWraps(Wrapping, delta, current, Word(data[..8]));
      var step := AddWord(Wrapping, delta, current, Word(data[..8])).value;
      WrappingReads(step.0, step.1, data[8..]);
    }
  }

  lemma {:induction false} CheckedAgrees(build: Build, delta: i64, current: i64, data: seq<byte>)
    requires DecodeWords(build, delta, current, data).Done?
    ensures DecodeWords(build, delta, current, data) == DecodeWords(Wrapping, delta, current, data)
    decreases |data|
  {
    if data != [] {
      AddWordWraps(build, delta, current, Word(data[..8]));
      var step := AddWord(build, delta, current, Word(data[..8])).value;
      CheckedAgrees(build, step.0, step.1, data[8..]);
    }
  }

  /** On arbitrary bytes: a remainder of less than 8 panics in every build. Without one a
      wrapping build reads one timestamp per word, and a checked build either panics or
      reads the same. */
  lemma WordsTotal(build: Build, data: seq<byte>)
    ensures var r, wrapping := DecodeWords(build, 0, 0, data), DecodeWords(Wrapping, 0, 0, data);
            && !r.Failed? && (|data| % 8 != 0 ==> r == Panicked)
            && (|data| % 8 == 0 ==> wrapping.Done? && 8 * |wrapping.value| == |data|)
            && (r.Done? ==> r == wrapping)
  {
    WholeWords(build, 0, 0, data);
    WholeWords(Wrapping, 0, 0, data);
    if |data| % 8 == 0 {
      WrappingReads(0, 0, data);
    }
    if DecodeWords(build, 0, 0, data).Done? {
      CheckedAgrees(build, 0, 0, data);
    }
  }

  // ----- why varints never line up with words ------------------------------

  lemma {:induction false} DigitsLast(z: nat)
    ensures Digits(z)[|Digits(z)| - 1] == z / Pow128(|Digits(z)| - 1)
    decreases z
  {
    if z >= 128 {
      DigitsLast(z / 128);
      DivDiv(z, Pow128(|Digits(z)| - 2));
    }
  }

  lemma DivDiv(z: nat, p: nat)
    requires p > 0
    ensures z / 128 / p == z / (128 * p)
  {
    var q, r := z / 128 / p, z / 128 % p;
    assert z / 128 == q * p + r;
    assert z == (r * 128 + z % 128) + q * (128 * p) by {
      assert q * p * 128 == q * (128 * p);
    }
    var rest := r * 128 + z % 128;
    assert 0 <= rest < 128 * p;
    ModShift(rest, q, 128 * p);
    var m := 128 * p;
    assert z / m * m == q * m;
    MulGrows(z / m - q, m);
  }

  lemma {:induction false} EncodeAllSnoc(rs: seq<int>)
    requires AllFit(rs) && rs != []
    ensures AllFit(rs[..|rs| - 1])
    ensures EncodeAll(rs) == EncodeAll(rs[..|rs| - 1]) + Encode(rs[|rs| - 1])
  {
    var a, b := rs[..|rs| - 1], rs[|rs| - 1..];
    assert rs == a + b;
    EncodeAllAppend(a, b);
    assert b[1..] == [];
    assert EncodeAll(b) == Encode(b[0]) + [];
  }

  /** A word whose top byte is also the last byte of its own varint is zero. */
  lemma LastByteZero(r: i64, chunk: seq<byte>)
    requires |chunk| == 8 && Word(chunk) == r
    requires var e := Encode(r); chunk[7] == e[|e| - 1]
    ensures r == 0
  {
    DigitsShape(ZigZag(r));
    TopByte(chunk);
    EncodeLength(r);
    LastDigitZero(r, chunk[7]);
  }

  /** A number whose eighth byte is the last digit of its double is zero. */
  lemma LastDigitZero(r: nat, b: byte)
    requires r < TWO63 && |Digits(2 * r)| <= 10 && b == Digits(2 * r)[|Digits(2 * r)| - 1]
    requires (b as int) * 0x100_0000_0000_0000 <= r < (b as int + 1) * 0x100_0000_0000_0000
    ensures r == 0
  {
    DigitsShape(2 * r);
    DigitsLength(2 * r);
    DigitsLast(2 * r);
    TopDigitVanishes(r, |Digits(2 * r)|, b);
    assert |Digits(2 * r)| == 1;
  }

  /** With `n` digits the last digit of 2r cannot also be the eighth byte of r,
      other than by being 0. */
  lemma TopDigitVanishes(r: nat, n: nat, b: int)
    requires 1 <= n <= 10 && 2 * r < Pow128(n) && r < TWO63
    requires b * 0x100_0000_0000_0000 <= r < (b + 1) * 0x100_0000_0000_0000
    requires b == 2 * r / Pow128(n - 1)
    ensures b == 0
  {
    Pow128Values();
    if n <= 8 {
      Pow128Monotone(n, 8);
    }
  }

  lemma TopByte(chunk: seq<byte>)
    requires |chunk| == 8
    ensures GetLE(chunk) == GetLE(chunk[..7]) + (chunk[7] as int) * 0x100_0000_0000_0000
    ensures chunk[7] < 128 ==> Word(chunk) == GetLE(chunk) >= (chunk[7] as int) * 0x100_0000_0000_0000
    ensures chunk[7] < 128 ==> Word(chunk) < (chunk[7] as int + 1) * 0x100_0000_0000_0000
  {
    GetLESnoc(chunk);
    GetLEBound(chunk[..7]);
    Pow256Seven();
  }

  lemma Pow256Seven()
    ensures Pow256(7) == 0x100_0000_0000_0000
  {
    Pow256Values();
    assert Pow256(8) == 256 * Pow256(7);
  }

  lemma {:induction false} GetLESnoc(s: seq<byte>)
    requires s != []
    ensures GetLE(s) == GetLE(s[..|s| - 1]) + s[|s| - 1] * Pow256(|s| - 1)
  {
    if |s| == 1 {
      assert s[1..] == [] && s[..0] == [];
    } else {
      var t := s[1..];
      GetLESnoc(t);
      assert s[..|s| - 1][1..] == t[..|t| - 1];
      var top, p := s[|s| - 1], Pow256(|s| - 2);
      assert 256 * (top * p) == top * (256 * p);
    }
  }

  /** The last `j` entries are 0. */
  predicate ZeroTail(s: seq<int>, j: nat) {
    j <= |s| && forall i :: |s| - j <= i < |s| ==> s[i] == 0
  }

  lemma {:induction false} ZeroValue(s: seq<byte>)
    requires GetLE(s) == 0
    ensures forall i :: 0 <= i < |s| ==> s[i] == 0
  {
    if s != [] {
      ZeroValue(s[1..]);
      assert s == [s[0]] + s[1..];
    }
  }

  /** A zero byte at the end of a varint stream is a whole varint for 0, so `j`
      trailing zero bytes mean that the last `j` residues are 0. */
  lemma {:induction false} TrailingZeroBytes(rs: seq<int>, j: nat)
    requires AllFit(rs) && ZeroTail(EncodeAll(rs), j)
    ensures ZeroTail(rs, j)
    decreases j
  {
    if j > 0 {
      LastByteIsZero(rs);
      TrailingZeroBytes(rs[..|rs| - 1], j - 1);
    }
  }

  lemma LastByteIsZero(rs: seq<int>)
    requires AllFit(rs) && EncodeAll(rs) != []
    requires EncodeAll(rs)[|EncodeAll(rs)| - 1] == 0
    ensures rs != [] && rs[|rs| - 1] == 0 && AllFit(rs[..|rs| - 1])
    ensures EncodeAll(rs[..|rs| - 1]) == EncodeAll(rs)[..|EncodeAll(rs)| - 1]
  {
    EncodeAllSnoc(rs);
    DigitsShape(ZigZag(rs[|rs| - 1]));
  }

  predicate WordsMatch(rs: seq<int>, bytes: seq<byte>) {
    |bytes| == 8 * |rs| && forall k :: 0 <= k < |rs| ==> Word(bytes[8 * k..8 * k + 8]) == rs[k]
  }

  /** Zero residues at the end make the words over them, hence eight times as many
      bytes, zero. */
  lemma ZeroWords(rs: seq<int>, bytes: seq<byte>, m: nat)
    requires WordsMatch(rs, bytes) && ZeroTail(rs, m)
    ensures ZeroTail(bytes, 8 * m)
  {
    forall i | |bytes| - 8 * m <= i < |bytes|
      ensures bytes[i] == 0
    {
      var k := i / 8;
      var chunk := bytes[8 * k..8 * k + 8];
      assert Word(chunk) == rs[k] == 0;
      assert GetLE(chunk) == 0;
      ZeroValue(chunk);
      assert bytes[i] == chunk[i - 8 * k];
    }
  }

  /** Varints and words never agree: from one trailing zero residue follow eight,
      from eight follow sixty-four, beyond the length of the list. */
  lemma {:induction false} ZerosSpread(rs: seq<int>, m: nat)
    requires AllFit(rs) && WordsMatch(rs, EncodeAll(rs))
    requires 0 < m && ZeroTail(rs, m)
    ensures false
    decreases |rs| - m
  {
    ZeroWords(rs, EncodeAll(rs), m);
    TrailingZeroBytes(rs, 8 * m);
    ZerosSpread(rs, 8 * m);
  }

  lemma NeverAligned(rs: seq<int>)
    requires AllFit(rs) && WordsMatch(rs, EncodeAll(rs))
    ensures rs == []
  {
    if rs != [] {
      var bytes, n := EncodeAll(rs), |rs|;
      EncodeAllSnoc(rs);
      var r := rs[n - 1];
      var chunk := bytes[8 * (n - 1)..8 * (n - 1) + 8];
      assert chunk[7] == Encode(r)[|Encode(r)| - 1];
      LastByteZero(r, chunk);
      ZerosSpread(rs, 1);
    }
  }

  /** What `build_timestamp_column` writes, `decode_timestamp_column` never gives
      back, in any build, unless the column is empty. */
  lemma ColumnRoundTripIffEmpty(build: Build, ts: seq<i64>)
    requires Build(ts).Ok?
    ensures DecodeWords(build, 0, 0, Build(ts).value) == Done(ts) <==> ts == []
  {
    EncodeRunSpec(Second, FRESH, ts);
    var bytes := Build(ts).value;
    var rs := Residues(Second, FRESH, ts);
    if DecodeWords(build, 0, 0, bytes) == Done(ts) {
      WordsAreDifferences(build, 0, 0, bytes, ts, 0);
      forall k | 0 <= k < |rs|
        ensures Word(bytes[8 * k..8 * k + 8]) == rs[k]
      {
        WordsAreDifferences(build, 0, 0, bytes, ts, k);
      }
      NeverAligned(rs);
    }
  }

  /** The decoder that does invert the builder is `DeltaOfDeltaDecoder`. */
  lemma ColumnInverse(build: Build, ts: seq<i64>)
    requires Build(ts).Ok?
    ensures DecodeRun(build, Second, FRESH, Build(ts).value).1 == Done(ts)
  {
    RoundTrip(build, Second, ts);
  }
}
