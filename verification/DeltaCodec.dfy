/** The delta and delta-of-delta codecs of storage/src/compression/delta.rs. */
module DeltaCodec {
  import opened Machine
  import opened Varint

  // ----- differences and running sums, on unbounded integers ---------------

  /** First differences, the first taken against `base`. */
  function Deltas(base: int, vs: seq<int>): (ds: seq<int>)
    ensures |ds| == |vs|
    decreases |vs|
  {
    if vs == [] then [] else [vs[0] - base] + Deltas(vs[0], vs[1..])
  }

  lemma {:induction false} DeltasAt(base: int, vs: seq<int>, i: nat)
    requires i < |vs|
    ensures Deltas(base, vs)[i] == vs[i] - (if i == 0 then base else vs[i - 1])
    decreases |vs|
  {
    if i > 0 {
      DeltasAt(vs[0], vs[1..], i - 1);
    }
  }

  function Last(base: int, vs: seq<int>): int {
    if vs == [] then base else vs[|vs| - 1]
  }

  lemma {:induction false} DeltasAppend(base: int, a: seq<int>, b: seq<int>)
    ensures Deltas(base, a + b) == Deltas(base, a) + Deltas(Last(base, a), b)
    decreases |a|
  {
    if a == [] {
      assert a + b == b;
    } else {
      assert (a + b)[1..] == a[1..] + b;
      DeltasAppend(a[0], a[1..], b);
    }
  }

  predicate AllFit(ds: seq<int>) {
    forall i :: 0 <= i < |ds| ==> FitsI64(ds[i])
  }

  /** The varints of a list of differences, one after another. */
  function EncodeAll(ds: seq<int>): (s: seq<byte>)
    requires AllFit(ds)
  {
    if ds == [] then [] else Encode(ds[0]) + EncodeAll(ds[1..])
  }

  lemma {:induction false} EncodeAllAppend(a: seq<int>, b: seq<int>)
    requires AllFit(a) && AllFit(b)
    ensures AllFit(a + b) && EncodeAll(a + b) == EncodeAll(a) + EncodeAll(b)
  {
    if a == [] {
      assert a + b == b;
    } else {
      var rest := a[1..];
      TailOfAppend(a, b);
      AllFitAppend(a, b);
      EncodeAllAppend(rest, b);
      Assoc(Encode(a[0]), EncodeAll(rest), EncodeAll(b));
    }
  }

  // ----- what the codecs remember between calls ----------------------------

  /** `None` behaves like a remembered 0: the first value is its own delta. */
  function Base(o: Option<i64>): i64 {
    if o.Some? then o.value else 0
  }

  /** Plain delta uses only `lastValue`; delta-of-delta uses both. */
  datatype Memory = Memory(lastValue: Option<i64>, lastDelta: Option<i64>)

  datatype Order = First | Second

  /** The number that is varint-encoded for one value. */
  function Residue(order: Order, m: Memory, v: i64): int {
    var delta := v - Base(m.lastValue);
    if order.First? then delta else delta - Base(m.lastDelta)
  }

  /** One call of `encode`: an overflow is reported before the memory changes. */
  function EncodeOne(order: Order, m: Memory, v: i64): (r: (Memory, Result<seq<byte>>)) {
    var delta := v - Base(m.lastValue);
    if !FitsI64(delta) then (m, Err("Delta encoding overflow"))
    else if order.First? then (Memory(Some(v), None), Ok(Encode(delta)))
    else if !FitsI64(delta - Base(m.lastDelta)) then (m, Err("Delta of delta encoding overflow"))
    else (Memory(Some(v), Some(delta)), Ok(Encode(delta - Base(m.lastDelta))))
  }

  /** `encode_batch`: value by value, giving up at the first overflow with the
      memory of the values before it. */
  function EncodeRun(order: Order, m: Memory, vs: seq<i64>): (r: (Memory, Result<seq<byte>>))
    decreases |vs|
  {
    if vs == [] then (m, Ok([]))
    else
      var (m1, r1) := EncodeOne(order, m, vs[0]);
      if r1.Err? then (m1, Err(r1.error))
      else
        var (m2, r2) := EncodeRun(order, m1, vs[1..]);
        (m2, if r2.Err? then Err(r2.error) else Ok(r1.value + r2.value))
  }

  /** One iteration of `decode`'s loop after the varint has been read. */
  function DecodeOne(build: Build, order: Order, m: Memory, residue: i64): (r: Option<(Memory, i64)>) {
    var delta := if order.First? then Some(residue) else Add(build, Base(m.lastDelta), residue);
    if delta.None? then None
    else
      var value := Add(build, Base(m.lastValue), delta.value);
      if value.None? then None
      else Some((Memory(Some(value.value), if order.First? then None else delta), value.value))
  }

  function DecodeRun(build: Build, order: Order, m: Memory, data: seq<byte>): (r: (Memory, Outcome<seq<i64>>))
    decreases |data|
  {
    if data == [] then (m, Done([]))
    else
      DecodeTotal(data);
      var v := Decode(data);
      if v.Err? then (m, Failed(v.error))
      else
        var (residue, used) := v.value;
        var one := DecodeOne(build, order, m, residue);
        if one.None? then (m, Panicked)
        else
          var (m1, value) := one.value;
          var (m2, rest) := DecodeRun(build, order, m1, data[used..]);
          (m2, if rest.Done? then Done([value] + rest.value) else rest)
  }

  // ----- the streaming codecs against differences --------------------------

  /** The differences a batch gives rise to: first differences for plain delta,
      differences of those for delta-of-delta. */
  function Residues(order: Order, m: Memory, vs: seq<i64>): (ds: seq<int>)
    ensures |ds| == |vs|
  {
    var ds := Deltas(Base(m.lastValue), vs);
    if order.First? then ds else Deltas(Base(m.lastDelta), ds)
  }

  predicate Encodable(order: Order, m: Memory, vs: seq<i64>) {
    AllFit(Deltas(Base(m.lastValue), vs)) && AllFit(Residues(order, m, vs))
  }

  function Advance(order: Order, m: Memory, vs: seq<i64>): Memory
    requires Encodable(order, m, vs)
  {
    if vs == [] then m
    else
      var ds := Deltas(Base(m.lastValue), vs);
      Memory(Some(vs[|vs| - 1]), if order.First? then None else Some(ds[|ds| - 1]))
  }

  lemma EncodableTail(order: Order, m: Memory, vs: seq<i64>)
    requires vs != []
    ensures Encodable(order, m, vs) <==>
            EncodeOne(order, m, vs[0]).1.Ok? && Encodable(order, EncodeOne(order, m, vs[0]).0, vs[1..])
    ensures Encodable(order, m, vs) ==>
            && Residues(order, m, vs)
                == [Residue(order, m, vs[0])] + Residues(order, EncodeOne(order, m, vs[0]).0, vs[1..])
            && Advance(order, m, vs) == Advance(order, EncodeOne(order, m, vs[0]).0, vs[1..])
  {
    var ds := Deltas(Base(m.lastValue), vs);
    var rs := Residues(order, m, vs);
    assert ds[0] == vs[0] - Base(m.lastValue) && ds[1..] == Deltas(vs[0], vs[1..]);
    assert rs[0] == Residue(order, m, vs[0]);
    assert order.Second? ==> rs[1..] == Deltas(ds[0], ds[1..]);
    AllFitSplit(ds);
    AllFitSplit(rs);
  }

  lemma AllFitSplit(ds: seq<int>)
    requires ds != []
    ensures AllFit(ds) <==> FitsI64(ds[0]) && AllFit(ds[1..])
  {
    assert ds == [ds[0]] + ds[1..];
  }

  /** `encode_batch` succeeds exactly when every first difference (and, for
      delta-of-delta, every second difference) fits i64, and then its bytes are
      the varints of those differences. */
  lemma {:induction false} EncodeRunSpec(order: Order, m: Memory, vs: seq<i64>)
    ensures EncodeRun(order, m, vs).1.Ok? <==> Encodable(order, m, vs)
    ensures Encodable(order, m, vs) ==>
            EncodeRun(order, m, vs) == (Advance(order, m, vs), Ok(EncodeAll(Residues(order, m, vs))))
    decreases |vs|
  {
    if vs != [] {
      var m1 := EncodeOne(order, m, vs[0]).0;
      EncodableTail(order, m, vs);
      EncodeRunSpec(order, m1, vs[1..]);
      if Encodable(order, m, vs) {
        assert Residues(order, m, vs)[1..] == Residues(order, m1, vs[1..]);
      }
    }
  }

  lemma DecodeOneInverts(build: Build, order: Order, m: Memory, v: i64)
    requires EncodeOne(order, m, v).1.Ok?
    ensures DecodeOne(build, order, m, Residue(order, m, v)) == Some((EncodeOne(order, m, v).0, v))
  {
  }

  /** One more encoded value in front of a stream that decodes. */
  lemma DecodeStep(build: Build, order: Order, m: Memory, v: i64, tail: seq<byte>, end: Memory, vs: seq<i64>)
    requires EncodeOne(order, m, v).1.Ok?
    requires DecodeRun(build, order, EncodeOne(order, m, v).0, tail) == (end, Done(vs))
    ensures DecodeRun(build, order, m, EncodeOne(order, m, v).1.value + tail) == (end, Done([v] + vs))
  {
    var residue := Residue(order, m, v);
    DecodeOneInverts(build, order, m, v);
    DecodeEncode(residue, tail);
    assert (Encode(residue) + tail)[|Encode(residue)|..] == tail;
  }

  lemma EncodeAllCons(order: Order, m: Memory, vs: seq<i64>)
    requires vs != [] && Encodable(order, m, vs)
    ensures var (m1, e) := EncodeOne(order, m, vs[0]);
            && e.Ok? && Encodable(order, m1, vs[1..])
            && EncodeAll(Residues(order, m, vs)) == e.value + EncodeAll(Residues(order, m1, vs[1..]))
            && Advance(order, m, vs) == Advance(order, m1, vs[1..])
  {
    EncodableTail(order, m, vs);
    var m1 := EncodeOne(order, m, vs[0]).0;
    assert Residues(order, m, vs)[1..] == Residues(order, m1, vs[1..]);
  }

  /** A decoder in the encoder's memory returns the encoded values and ends in the
      encoder's memory; in a checked build no intermediate sum overflows. */
  lemma {:induction false} DecodeRunSpec(build: Build, order: Order, m: Memory, vs: seq<i64>)
    requires Encodable(order, m, vs)
    ensures DecodeRun(build, order, m, EncodeAll(Residues(order, m, vs)))
         == (Advance(order, m, vs), Done(vs))
    decreases |vs|
  {
    if vs != [] {
      EncodeAllCons(order, m, vs);
      var m1 := EncodeOne(order, m, vs[0]).0;
      DecodeRunSpec(build, order, m1, vs[1..]);
      DecodeStep(build, order, m, vs[0], EncodeAll(Residues(order, m1, vs[1..])), Advance(order, m, vs), vs[1..]);
      assert [vs[0]] + vs[1..] == vs;
    }
  }

  const FRESH := Memory(None, None)

  /** The round trip, on every list and both builds: whenever a fresh encoder
      accepts the list a fresh decoder returns it. */
  lemma RoundTrip(build: Build, order: Order, vs: seq<i64>)
    ensures var e := EncodeRun(order, FRESH, vs).1;
            && (e.Ok? <==> Encodable(order, FRESH, vs))
            && (e.Ok? ==> DecodeRun(build, order, FRESH, e.value).1 == Done(vs))
  {
    EncodeRunSpec(order, FRESH, vs);
    if Encodable(order, FRESH, vs) {
      DecodeRunSpec(build, order, FRESH, vs);
    }
  }

  // ----- truncated streams -------------------------------------------------

  /** A varint cut short is refused. */
  lemma DecodeCut(v: i64, cut: nat)
    requires 0 < cut < |Encode(v)|
    ensures Decode(Encode(v)[..cut]) == Err("Unexpected end of varint data")
  {
    DigitsShape(ZigZag(v));
    EncodeLength(v);
    TerminatorFrom(Encode(v)[..cut], cut);
  }

  /** One more encoded value in front of a stream that is refused. */
  lemma FailStep(build: Build, order: Order, m: Memory, v: i64, tail: seq<byte>, end: Memory, e: string)
    requires EncodeOne(order, m, v).1.Ok?
    requires DecodeRun(build, order, EncodeOne(order, m, v).0, tail) == (end, Failed(e))
    ensures DecodeRun(build, order, m, EncodeOne(order, m, v).1.value + tail) == (end, Failed(e))
  {
    var residue := Residue(order, m, v);
    DecodeOneInverts(build, order, m, v);
    DecodeEncode(residue, tail);
    TailOfAppend(Encode(residue), tail);
  }

  /** The bytes of a list that the encoder accepts. */
  function Bytes(order: Order, m: Memory, vs: seq<i64>): (bytes: seq<byte>)
    requires Encodable(order, m, vs)
  {
    EncodeAll(Residues(order, m, vs))
  }

  /** What a decoder makes of the first bytes of a stream: whole values, or an error. */
  function CutRun(m: Memory, vs: seq<i64>, whole: bool): (Memory, Outcome<seq<i64>>) {
    (m, if whole then Done(vs) else Failed("Unexpected end of varint data"))
  }

  /** The first `k` values are there in full in the first `cut` bytes, and no more. A decoder
      in the encoder's memory has read these, and returns them if they end at the cut. */
  predicate CutReads(build: Build, order: Order, m: Memory, vs: seq<i64>, cut: nat, k: nat)
    requires Encodable(order, m, vs) && cut <= |Bytes(order, m, vs)|
  {
    && k <= |vs| && Encodable(order, m, vs[..k])
    && var whole := |Bytes(order, m, vs[..k])|;
       && whole <= cut && (k < |vs| ==> cut < whole + |Encode(Residues(order, m, vs)[k])|)
       && DecodeRun(build, order, m, Bytes(order, m, vs)[..cut])
          == CutRun(Advance(order, m, vs[..k]), vs[..k], cut == whole)
  }

  /** Of a stream cut anywhere, a decoder returns the values that are there in full only if
      the cut falls between two values: otherwise it reports an error and returns none. */
  lemma {:induction false} DecodeTruncated(build: Build, order: Order, m: Memory, vs: seq<i64>, cut: nat)
    returns (k: nat)
    requires Encodable(order, m, vs) && cut <= |Bytes(order, m, vs)|
    ensures CutReads(build, order, m, vs, cut, k)
    decreases |vs|
  {
    if vs == [] {
      k := 0;
      CutNothing(build, order, m, cut);
    } else {
      var rest := vs[1..];
      var m1, e := BytesCons(order, m, vs, rest);
      if cut < |e| {
        k := 0;
        CutInFirst(build, order, m, vs, cut);
      } else {
        var left := cut - |e|;
        var j := DecodeTruncated(build, order, m1, rest, left);
        k := j + 1;
        CutLater(build, order, m, vs, rest, m1, e, cut, left, j);
      }
    }
  }

  lemma BytesCons(order: Order, m: Memory, vs: seq<i64>, rest: seq<i64>) returns (m1: Memory, e: seq<byte>)
    requires vs != [] && rest == vs[1..] && Encodable(order, m, vs)
    ensures EncodeOne(order, m, vs[0]) == (m1, Ok(e)) && Encodable(order, m1, rest)
    ensures Bytes(order, m, vs) == e + Bytes(order, m1, rest) && e == Encode(Residues(order, m, vs)[0])
    ensures Residues(order, m, vs)[1..] == Residues(order, m1, rest)
    ensures Advance(order, m, vs) == Advance(order, m1, rest)
  {
    EncodeAllCons(order, m, vs);
    EncodableTail(order, m, vs);
    m1, e := EncodeOne(order, m, vs[0]).0, EncodeOne(order, m, vs[0]).1.value;
  }

  lemma CutNothing(build: Build, order: Order, m: Memory, cut: nat)
    requires Encodable(order, m, []) && cut <= |Bytes(order, m, [])|
    ensures CutReads(build, order, m, [], cut, 0)
  {
  }

  lemma CutInFirst(build: Build, order: Order, m: Memory, vs: seq<i64>, cut: nat)
    requires vs != [] && Encodable(order, m, vs) && cut < |Encode(Residues(order, m, vs)[0])|
    requires cut <= |Bytes(order, m, vs)|
    ensures CutReads(build, order, m, vs, cut, 0)
  {
    var rs := Residues(order, m, vs);
    assert EncodeAll(rs)[..cut] == Encode(rs[0])[..cut];
    if cut > 0 {
      DecodeCut(rs[0], cut);
    }
    assert vs[..0] == [];
  }

  lemma CutLater(build: Build, order: Order, m: Memory, vs: seq<i64>, rest: seq<i64>, m1: Memory, e: seq<byte>,
                 cut: nat, left: nat, j: nat)
    requires vs != [] && rest == vs[1..] && Encodable(order, m, vs) && EncodeOne(order, m, vs[0]) == (m1, Ok(e))
    requires Encodable(order, m1, rest) && cut == |e| + left && left <= |Bytes(order, m1, rest)|
    requires Bytes(order, m, vs) == e + Bytes(order, m1, rest)
    requires Residues(order, m, vs)[1..] == Residues(order, m1, rest)
    requires CutReads(build, order, m1, rest, left, j)
    ensures CutReads(build, order, m, vs, cut, j + 1)
  {
    var bytes, part := Bytes(order, m1, rest), rest[..j];
    PrefixCons(order, m, vs, j + 1);
    var m2, e2 := BytesCons(order, m, vs[..j + 1], part);
    assert (e + bytes)[..cut] == e + bytes[..left];
    CutStep(build, order, m, vs[0], bytes[..left], Advance(order, m1, part), part, left == |Bytes(order, m1, part)|);
  }

  lemma CutStep(build: Build, order: Order, m: Memory, v: i64, tail: seq<byte>, end: Memory, vs: seq<i64>, whole: bool)
    requires EncodeOne(order, m, v).1.Ok?
    requires DecodeRun(build, order, EncodeOne(order, m, v).0, tail) == CutRun(end, vs, whole)
    ensures DecodeRun(build, order, m, EncodeOne(order, m, v).1.value + tail) == CutRun(end, [v] + vs, whole)
  {
    if whole {
      DecodeStep(build, order, m, v, tail, end, vs);
    } else {
      FailStep(build, order, m, v, tail, end, "Unexpected end of varint data");
    }
  }

  lemma PrefixCons(order: Order, m: Memory, vs: seq<i64>, k: nat)
    requires 0 < k <= |vs| && Encodable(order, m, vs)
    requires Encodable(order, EncodeOne(order, m, vs[0]).0, vs[1..][..k - 1])
    ensures vs[..k] == [vs[0]] + vs[1..][..k - 1] && vs[..k][1..] == vs[1..][..k - 1]
    ensures Encodable(order, m, vs[..k])
  {
    EncodableTail(order, m, vs);
    assert vs[..k][1..] == vs[1..][..k - 1];
    EncodableTail(order, m, vs[..k]);
  }

  // ----- batches -----------------------------------------------------------

  function Flatten<T>(xss: seq<seq<T>>): (s: seq<T>) {
    if xss == [] then [] else xss[0] + Flatten(xss[1..])
  }

  /** Successive `encode_batch` calls on one encoder. */
  function EncodeBatches(order: Order, m: Memory, batches: seq<seq<i64>>): (r: Result<seq<seq<byte>>>)
    ensures r.Ok? ==> |r.value| == |batches|
    decreases |batches|
  {
    if batches == [] then Ok([])
    else
      var (m1, r1) := EncodeRun(order, m, batches[0]);
      if r1.Err? then Err(r1.error)
      else
        var r2 := EncodeBatches(order, m1, batches[1..]);
        if r2.Err? then Err(r2.error) else Ok([r1.value] + r2.value)
  }

  /** Successive `decode` calls on one decoder. */
  function DecodeBatches(build: Build, order: Order, m: Memory, pieces: seq<seq<byte>>): (r: Outcome<seq<seq<i64>>>)
    decreases |pieces|
  {
    if pieces == [] then Done([])
    else
      var (m1, r1) := DecodeRun(build, order, m, pieces[0]);
      match r1
      case Failed(e) => Failed(e)
      case Panicked => Panicked
      case Done(vs) =>
        var r2 := DecodeBatches(build, order, m1, pieces[1..]);
        if r2.Done? then Done([vs] + r2.value) else r2
  }

  lemma ResiduesAppend(order: Order, m: Memory, a: seq<i64>, b: seq<i64>)
    ensures Encodable(order, m, a + b) <==>
            Encodable(order, m, a) && Encodable(order, Advance(order, m, a), b)
    ensures Encodable(order, m, a + b) ==>
            Residues(order, m, a + b) == Residues(order, m, a) + Residues(order, Advance(order, m, a), b)
  {
    var base := Base(m.lastValue);
    var da, db := Deltas(base, a), Deltas(Last(base, a), b);
    DeltasAppend(base, a, b);
    DeltasAppend(Base(m.lastDelta), da, db);
    var ra, rb := Deltas(Base(m.lastDelta), da), Deltas(Last(Base(m.lastDelta), da), db);
    AllFitAppend(da, db);
    AllFitAppend(ra, rb);
  }

  lemma AllFitAppend(a: seq<int>, b: seq<int>)
    ensures AllFit(a + b) <==> AllFit(a) && AllFit(b)
  {
    if AllFit(a + b) {
      assert forall i :: 0 <= i < |a| ==> a[i] == (a + b)[i];
      assert forall i :: 0 <= i < |b| ==> b[i] == (a + b)[|a| + i];
    }
  }

  /** Splitting a list into successive batches changes nothing: the batches are
      accepted exactly when the whole list is, the pieces concatenate to the bytes
      of the whole, and one decoder fed the pieces gives the batches back. */
  lemma {:induction false} BatchesAgree(build: Build, order: Order, m: Memory, batches: seq<seq<i64>>)
    ensures var whole := EncodeRun(order, m, Flatten(batches)).1;
            var pieces := EncodeBatches(order, m, batches);
            && (pieces.Ok? <==> whole.Ok?)
            && (pieces.Ok? ==>
                  && Flatten(pieces.value) == whole.value
                  && DecodeBatches(build, order, m, pieces.value) == Done(batches))
    decreases |batches|
  {
    if batches != [] {
      var a, b := batches[0], Flatten(batches[1..]);
      assert Flatten(batches) == a + b;
      EncodeRunSpec(order, m, a);
      EncodeRunSpec(order, m, a + b);
      ResiduesAppend(order, m, a, b);
      if Encodable(order, m, a) {
        var m1 := Advance(order, m, a);
        EncodeRunSpec(order, m1, b);
        BatchesAgree(build, order, m1, batches[1..]);
        DecodeRunSpec(build, order, m, a);
        if Encodable(order, m, a + b) {
          var pieces := EncodeBatches(order, m, batches).value;
          EncodeAllAppend(Residues(order, m, a), Residues(order, m1, b));
          assert pieces[1..] == EncodeBatches(order, m1, batches[1..]).value;
          assert [a] + batches[1..] == batches;
        }
      }
    }
  }

  // ----- the codec objects -------------------------------------------------

  /** `DeltaEncoder` (order First) and `DeltaOfDeltaEncoder` (order Second). */
  class Encoder {
    const order: Order
    var memory: Memory

    constructor (order: Order)
      ensures this.order == order && memory == FRESH
    {
      this.order := order;
      memory := FRESH;
    }

    method EncodeValue(value: i64) returns (r: Result<seq<byte>>)
      modifies this
      ensures (memory, r) == EncodeOne(order, old(memory), value)
    {
      var delta := value;
      if memory.lastValue.Some? {
        if !FitsI64(value - memory.lastValue.value) {
          return Err("Delta encoding overflow");
        }
        delta := value - memory.lastValue.value;
      }
      if order.First? {
        memory := Memory(Some(value), None);
        var bytes := EncodeVarint(delta);
        return Ok(bytes);
      }
      var dod := delta;
      if memory.lastDelta.Some? {
        if !FitsI64(delta - memory.lastDelta.value) {
          return Err("Delta of delta encoding overflow");
        }
        dod := delta - memory.lastDelta.value;
      }
      memory := Memory(Some(value), Some(delta));
      var bytes := EncodeVarint(dod);
      r := Ok(bytes);
    }

    method EncodeBatch(values: seq<i64>) returns (r: Result<seq<byte>>)
      modifies this
      ensures (memory, r) == EncodeRun(order, old(memory), values)
    {
      var result: seq<byte> := [];
      assert values[0..] == values;
      PrefixedEmpty(EncodeRun(order, memory, values));
      for i := 0 to |values|
        invariant EncodeRun(order, old(memory), values)
               == Prefixed(result, EncodeRun(order, memory, values[i..]))
      {
        PrefixedStep(order, memory, result, values[i..], values[i + 1..]);
        var bytes := EncodeValue(values[i]);
        if bytes.Err? {
          return Err(bytes.error);
        }
        result := result + bytes.value;
      }
      assert result + [] == result;
      r := Ok(result);
    }
  }

  function Wrapped(ds: seq<int>): (ws: seq<i64>)
    ensures |ws| == |ds|
    ensures forall i :: 0 <= i < |ds| ==> ws[i] == Wrap64(ds[i])
  {
    seq(|ds|, i requires 0 <= i < |ds| => Wrap64(ds[i]))
  }

  /** Exact differences as i64 subtraction gives them; None is the overflow panic. */
  function Fitted(build: Build, ds: seq<int>): (r: Option<seq<i64>>)
    ensures AllFit(ds) ==> r == Some(ds)
  {
    if build.Checked? && !AllFit(ds) then None
    else
      assert AllFit(ds) ==> Wrapped(ds) == ds;
      Some(Wrapped(ds))
  }

  /** Consecutive differences in one pass over a list, as both passes of
      `encode_batch_optimized` compute them. */
  method Differences(build: Build, values: seq<i64>) returns (r: Option<seq<i64>>)
    ensures r == Fitted(build, Deltas(0, values))
  {
    if values == [] {
      return Some([]);
    }
    var deltas: seq<i64> := [values[0]];
    var prev: int := values[0];
    ghost var exact := Deltas(0, values);
    DeltasAt(0, values, 0);
    for i := 1 to |values|
      invariant prev == values[i - 1]
      invariant |deltas| == i && forall k :: 0 <= k < i ==> deltas[k] == Wrap64(exact[k])
      invariant build.Checked? ==> forall k :: 0 <= k < i ==> FitsI64(exact[k])
    {
      DeltasAt(0, values, i);
      var delta := Arith(build, values[i] - prev);
      if delta.None? {
        assert !FitsI64(exact[i]);
        return None;
      }
      deltas := deltas + [delta.value];
      prev := values[i];
    }
    assert deltas == Wrapped(exact);
    r := Some(deltas);
  }

  /** Wrap-around commutes with taking differences. */
  lemma WrappedDeltas(ds: seq<int>)
    ensures Wrapped(Deltas(0, Wrapped(ds))) == Wrapped(Deltas(0, ds))
  {
    forall i | 0 <= i < |ds|
      ensures Wrapped(Deltas(0, Wrapped(ds)))[i] == Wrapped(Deltas(0, ds))[i]
    {
      DeltasAt(0, ds, i);
      DeltasAt(0, Wrapped(ds), i);
      WrapDifference(ds[i], if i == 0 then 0 else ds[i - 1]);
      assert Wrap64(0) == 0;
    }
  }

  lemma WrapDifference(a: int, b: int)
    ensures Wrap64(Wrap64(a) - Wrap64(b)) == Wrap64(a - b)
  {
    var x, y := Wrap64(a), Wrap64(b);
    assert (x - a) % TWO64 == 0 && (y - b) % TWO64 == 0;
    assert (Wrap64(a - b) - (a - b)) % TWO64 == 0;
    SameResidue(Wrap64(a - b), a - b, x - a, y - b);
    WrapUnique(x - y, Wrap64(a - b));
  }

  lemma SameResidue(w: int, d: int, p: int, q: int)
    requires (w - d) % TWO64 == 0 && p % TWO64 == 0 && q % TWO64 == 0
    ensures (w - (d + p - q)) % TWO64 == 0
  {
    var i, j, k := (w - d) / TWO64, p / TWO64, q / TWO64;
    assert w - (d + p - q) == (i - j + k) * TWO64;
  }

  /** The two passes of `encode_batch_optimized`, on every list. In a checked build they
      succeed exactly when the streaming encoder accepts the list, and always with its
      residues; a wrapping build gives the exact second differences reduced to i64. */
  method TwoPassResidues(build: Build, values: seq<i64>) returns (r: Option<seq<i64>>)
    ensures var streamed := EncodeRun(Second, FRESH, values).1;
            && (streamed.Ok? ==> r.Some? && streamed.value == EncodeAll(r.value))
            && (build.Checked? ==> (r.Some? <==> streamed.Ok?))
    ensures build.Wrapping? ==> r == Some(Wrapped(Deltas(0, Deltas(0, values))))
  {
    EncodeRunSpec(Second, FRESH, values);
    var deltas := Differences(build, values);
    if deltas.None? {
      return None;
    }
    r := Differences(build, deltas.value);
    if build.Wrapping? {
      WrappedDeltas(Deltas(0, values));
    }
  }

  /** A run continued after `bytes` have already been produced. */
  function Prefixed(bytes: seq<byte>, run: (Memory, Result<seq<byte>>)): (Memory, Result<seq<byte>>) {
    (run.0, if run.1.Ok? then Ok(bytes + run.1.value) else run.1)
  }

  /** One turn of the encoding loop. */
  lemma PrefixedStep(order: Order, m: Memory, bytes: seq<byte>, vs: seq<i64>, tail: seq<i64>)
    requires vs != [] && tail == vs[1..]
    ensures var (m1, one) := EncodeOne(order, m, vs[0]);
            Prefixed(bytes, EncodeRun(order, m, vs))
            == if one.Err? then (m1, Err(one.error)) else Prefixed(bytes + one.value, EncodeRun(order, m1, tail))
  {
    var (m1, one) := EncodeOne(order, m, vs[0]);
    var rest := EncodeRun(order, m1, tail).1;
    if one.Ok? && rest.Ok? {
      Assoc(bytes, one.value, rest.value);
    }
  }

  lemma PrefixedEmpty(run: (Memory, Result<seq<byte>>))
    ensures Prefixed([], run) == run
  {
    assert run.1.Ok? ==> [] + run.1.value == run.1.value;
  }

  /** `DeltaDecoder` and `DeltaOfDeltaDecoder`. */
  class Decoder {
    const build: Build
    const order: Order
    var memory: Memory

    constructor (build: Build, order: Order)
      ensures this.build == build && this.order == order && memory == FRESH
    {
      this.build := build;
      this.order := order;
      memory := FRESH;
    }

    method DecodeBytes(data: seq<byte>) returns (r: Outcome<seq<i64>>)
      modifies this
      ensures (memory, r) == DecodeRun(build, order, old(memory), data)
    {
      var values: seq<i64> := [];
      var rest := data;
      ghost var final := DecodeRun(build, order, memory, data);
      ContinuedEmpty(DecodeRun(build, order, memory, data));
      while rest != []
        invariant final == Continued(values, DecodeRun(build, order, memory, rest))
        decreases |rest|
      {
        ContinuedStep(build, order, values, memory, rest);
        var v := DecodeVarint(rest);
        if v.Err? {
          return Failed(v.error);
        }
        var one := DecodeOne(build, order, memory, v.value.0);
        if one.None? {
          return Panicked;
        }
        memory := one.value.0;
        values := values + [one.value.1];
        rest := rest[v.value.1..];
      }
      ContinuedEnd(build, order, values, memory);
      r := Done(values);
    }
  }

  function Continued(values: seq<i64>, run: (Memory, Outcome<seq<i64>>)): (Memory, Outcome<seq<i64>>) {
    (run.0, OntoOutcome(values, run.1))
  }

  lemma ContinuedEmpty(run: (Memory, Outcome<seq<i64>>))
    ensures Continued([], run) == run
  {
    assert run.1.Done? ==> [] + run.1.value == run.1.value;
  }

  lemma ContinuedEnd(build: Build, order: Order, values: seq<i64>, m: Memory)
    ensures Continued(values, DecodeRun(build, order, m, [])) == (m, Done(values))
  {
    assert values + [] == values;
  }

  /** One turn of the decoding loop. */
  lemma ContinuedStep(build: Build, order: Order, values: seq<i64>, m: Memory, data: seq<byte>)
    requires data != []
    ensures var run := Continued(values, DecodeRun(build, order, m, data));
            var v := Decode(data);
            if v.Err? then run == (m, Failed(v.error))
            else
              var one := DecodeOne(build, order, m, v.value.0);
              if one.None? then run == (m, Panicked)
              else
                && 1 <= v.value.1 <= |data|
                && run == Continued(values + [one.value.1], DecodeRun(build, order, one.value.0, data[v.value.1..]))
  {
    DecodeTotal(data);
    var v := Decode(data);
    if v.Ok? {
      var one := DecodeOne(build, order, m, v.value.0);
      if one.Some? {
        ContinuedOne(values, one.value.1, DecodeRun(build, order, one.value.0, data[v.value.1..]));
      }
    }
  }

  lemma ContinuedOne(values: seq<i64>, value: i64, run: (Memory, Outcome<seq<i64>>))
    ensures Continued(values, (run.0, if run.1.Done? then Done([value] + run.1.value) else run.1))
         == Continued(values + [value], run)
  {
    if run.1.Done? {
      Assoc(values, [value], run.1.value);
    }
  }
}
