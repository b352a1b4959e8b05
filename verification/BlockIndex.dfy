/** The series index file: `build_index` in storage/src/columnstore/writer.rs and
    `read_index` in storage/src/columnstore/reader.rs. JSON is a pair of functions
    of which only "parsing inverts printing" is used. */
module BlockIndex {
  import opened Machine
  import opened Records
  import opened Model

  datatype Json = Json(render: Labels -> seq<byte>, parse: seq<byte> -> Option<Labels>)

  ghost predicate Faithful(json: Json) {
    forall l :: json.parse(json.render(l)) == Some(l)
  }

  const HEAD: nat := 24

  function ToRecord(json: Json, e: Entry): (r: Record)
    ensures |r.head| == HEAD
  {
    Record(PutLE(e.seriesId, 8) + PutLE(e.offset, 8) + PutLE(e.count, 8), json.render(e.labels))
  }

  function ToRecords(json: Json, es: seq<Entry>): (rs: seq<Record>)
    ensures |rs| == |es|
    ensures forall i :: 0 <= i < |es| ==> rs[i] == ToRecord(json, es[i])
  {
    seq(|es|, i requires 0 <= i < |es| => ToRecord(json, es[i]))
  }

  /** None where the JSON does not parse. */
  function FromRecord(json: Json, r: Record): (e: Option<Entry>) {
    var labels := json.parse(r.payload);
    if labels.None? || |r.head| != HEAD then None
    else Some(Entry(Field(r.head[..8]), labels.value, Field(r.head[8..16]), Field(r.head[16..24])))
  }

  function Field(s: seq<byte>): u64
    requires |s| == 8
  {
    GetLEBound(s);
    Pow256Values();
    GetLE(s)
  }

  lemma RecordRoundTrip(json: Json, e: Entry)
    requires Faithful(json) && e.offset < TWO64 && e.count < TWO64
    ensures FromRecord(json, ToRecord(json, e)) == Some(e)
  {
    var head := ToRecord(json, e).head;
    assert head[..8] == PutLE(e.seriesId, 8);
    assert head[8..16] == PutLE(e.offset, 8);
    assert head[16..24] == PutLE(e.count, 8);
    Pow256Values();
    GetPutLEExact(e.seriesId, 8);
    GetPutLEExact(e.offset, 8);
    GetPutLEExact(e.count, 8);
  }

  /** `build_index`: the count is cut to 32 bits. */
  function Build(json: Json, es: seq<Entry>): (s: seq<byte>) {
    PutLE(|es|, 4) + Bytes(ToRecords(json, es))
  }

  method BuildIndex(json: Json, es: seq<Entry>) returns (data: seq<byte>)
    ensures data == Build(json, es)
  {
    data := PutLE(|es|, 4);
    ghost var rs := ToRecords(json, es);
    for i := 0 to |es|
      invariant data + Bytes(rs[i..]) == Build(json, es)
    {
      var bytes := RecordBytes(ToRecord(json, es[i]));
      assert rs[i..][1..] == rs[i + 1..];
      assert data + (bytes + Bytes(rs[i + 1..])) == (data + bytes) + Bytes(rs[i + 1..]);
      data := data + bytes;
    }
    assert data + [] == data;
  }

  function Parser(json: Json): Record -> Option<Entry> {
    r => FromRecord(json, r)
  }

  /** `read_index`. */
  function ReadAll(json: Json, data: seq<byte>): (r: Result<seq<Entry>>) {
    if |data| < 4 then Ok([])
    else FromOption(ReadParsed(HEAD, Parser(json), GetLE(data[..4]), data[4..]))
  }

  function FromOption(o: Option<seq<Entry>>): Result<seq<Entry>> {
    if o.Some? then Ok(o.value) else Err("invalid JSON")
  }

  method ReadIndex(json: Json, data: seq<byte>) returns (r: Result<seq<Entry>>)
    ensures r == ReadAll(json, data)
  {
    if |data| < 4 {
      return Ok([]);
    }
    var count := GetLE(data[..4]);
    var entries := ReadLoop(HEAD, Parser(json), count, data[4..]);
    r := FromOption(entries);
  }

  /** The fields of the format can hold the entries. */
  predicate Printable(json: Json, es: seq<Entry>) {
    forall i :: 0 <= i < |es| ==> es[i].offset < TWO64 && es[i].count < TWO64 && |json.render(es[i].labels)| < TWO32
  }

  /** On any truncation to `k` bytes the reader returns exactly the entries that
      lie wholly within them, up to the stored 32-bit count. */
  lemma ReadTruncatedIndex(json: Json, es: seq<Entry>, k: nat, m: nat)
    requires Faithful(json) && Printable(json, es) && k <= |Build(json, es)|
    requires if k < 4 then m == 0 else WholeWithin(ToRecords(json, es), k - 4, m)
    ensures var stored := |es| % TWO32;
            ReadAll(json, Build(json, es)[..k]) == Ok(es[..Min(stored, m)])
  {
    if k >= 4 {
      CountField(json, es, k);
      ReadCut(json, es, ToRecords(json, es), Build(json, es)[..k], k - 4, m);
    }
  }

  /** A count field and so many bytes of the records. */
  lemma ReadCut(json: Json, es: seq<Entry>, rs: seq<Record>, data: seq<byte>, k: nat, m: nat)
    requires Faithful(json) && Printable(json, es) && rs == ToRecords(json, es)
    requires |data| >= 4 && GetLE(data[..4]) == |es| % TWO32 && k <= |Bytes(rs)| && data[4..] == Bytes(rs)[..k]
    requires WholeWithin(rs, k, m)
    ensures ReadAll(json, data) == Ok(es[..Min(|es| % TWO32, m)])
  {
    ParsesWritten(json, es);
    ReadParsedTruncated(HEAD, Parser(json), |es| % TWO32, rs, es, k, m);
  }

  lemma CountField(json: Json, es: seq<Entry>, k: nat)
    requires 4 <= k <= |Build(json, es)|
    ensures var data := Build(json, es)[..k];
            GetLE(data[..4]) == |es| % TWO32 && data[4..] == Bytes(ToRecords(json, es))[..k - 4]
  {
    HeadAndRest(PutLE(|es|, 4), Bytes(ToRecords(json, es)), k);
    Pow256Values();
    GetPutLE(|es|, 4);
  }

  lemma HeadAndRest(head: seq<byte>, rest: seq<byte>, k: nat)
    requires |head| == 4 <= k <= |head + rest|
    ensures (head + rest)[..k][..4] == head && (head + rest)[..k][4..] == rest[..k - 4]
  {
  }

  lemma ParsesWritten(json: Json, es: seq<Entry>)
    requires Faithful(json) && Printable(json, es)
    ensures Parses(Parser(json), ToRecords(json, es), es)
  {
    forall i | 0 <= i < |es|
      ensures Parser(json)(ToRecords(json, es)[i]) == Some(es[i])
    {
      RecordRoundTrip(json, es[i]);
    }
  }

  lemma AllWithin(rs: seq<Record>)
    ensures WholeWithin(rs, |Bytes(rs)|, |rs|)
  {
    TakeAll(rs);
  }

  lemma ReadWhole(json: Json, es: seq<Entry>, whole: seq<byte>)
    requires Faithful(json) && Printable(json, es) && whole == Build(json, es)
    ensures ReadAll(json, whole) == Ok(es[..|es| % TWO32])
  {
    var rs := ToRecords(json, es);
    AllWithin(rs);
    assert |whole| - 4 == |Bytes(rs)|;
    ReadTruncatedIndex(json, es, |whole|, |es|);
    TakeAll(whole);
  }

  /** `read_index` inverts `build_index`. */
  lemma ReadInvertsBuild(json: Json, es: seq<Entry>)
    requires Faithful(json) && Printable(json, es)
    ensures ReadAll(json, Build(json, es)) == Ok(es[..|es| % TWO32])
    ensures |es| < TWO32 ==> ReadAll(json, Build(json, es)) == Ok(es)
  {
    ReadWhole(json, es, Build(json, es));
    StoredCount(es);
  }

  /** Up to 2^32 entries the stored count is the true one. */
  lemma StoredCount(es: seq<Entry>)
    ensures |es| < TWO32 ==> es[..|es| % TWO32] == es
  {
    if |es| < TWO32 {
      TakeAll(es);
    }
  }
}
