/** Runs of length-prefixed records, the shape shared by the series index and the
    label column: a fixed-size head, a 32-bit little-endian length, the payload. */
module Records {
  import opened Machine

  datatype Record = Record(head: seq<byte>, payload: seq<byte>)

  predicate WellFormed(h: nat, rs: seq<Record>) {
    forall i :: 0 <= i < |rs| ==> |rs[i].head| == h && |rs[i].payload| < TWO32
  }

  function RecordBytes(r: Record): (s: seq<byte>) {
    r.head + PutLE(|r.payload|, 4) + r.payload
  }

  function Bytes(rs: seq<Record>): (s: seq<byte>) {
    if rs == [] then [] else RecordBytes(rs[0]) + Bytes(rs[1..])
  }

  /** The record at the front, if it is there in full. */
  function First(h: nat, data: seq<byte>): (r: Option<Record>)
    ensures r.Some? ==> |r.value.head| == h && h + 4 + |r.value.payload| <= |data|
  {
    if |data| < h + 4 then None
    else
      var len := GetLE(data[h..h + 4]);
      if |data| < h + 4 + len then None
      else Some(Record(data[..h], data[h + 4..h + 4 + len]))
  }

  /** What a reader sees that stops at the first incomplete record, or after
      `limit` records. */
  function Read(h: nat, limit: nat, data: seq<byte>): (rs: seq<Record>)
    decreases limit
  {
    if limit == 0 || First(h, data).None? then []
    else
      var r := First(h, data).value;
      [r] + Read(h, limit - 1, data[h + 4 + |r.payload|..])
  }

  lemma FirstWritten(h: nat, r: Record, tail: seq<byte>)
    requires |r.head| == h && |r.payload| < TWO32
    ensures First(h, RecordBytes(r) + tail) == Some(r)
  {
    var data := RecordBytes(r) + tail;
    assert data[..h] == r.head;
    assert data[h..h + 4] == PutLE(|r.payload|, 4);
    assert data[h + 4..h + 4 + |r.payload|] == r.payload;
    Pow256Values();
    GetPutLEExact(|r.payload|, 4);
  }

  /** A record cut short is not read. */
  lemma FirstCut(h: nat, r: Record, k: nat)
    requires |r.head| == h && |r.payload| < TWO32 && k < |RecordBytes(r)|
    ensures First(h, RecordBytes(r)[..k]) == None
  {
    var data := RecordBytes(r)[..k];
    if k >= h + 4 {
      assert data[h..h + 4] == PutLE(|r.payload|, 4);
      Pow256Values();
      GetPutLEExact(|r.payload|, 4);
    }
  }

  /** `m` is the number of leading records that lie wholly within `k` bytes. */
  predicate WholeWithin(rs: seq<Record>, k: nat, m: nat) {
    && m <= |rs| && |Bytes(rs[..m])| <= k
    && (m < |rs| ==> k < |Bytes(rs[..m + 1])|)
  }

  lemma BytesCons(rs: seq<Record>, m: nat)
    requires 0 < m <= |rs|
    ensures Bytes(rs[..m]) == RecordBytes(rs[0]) + Bytes(rs[1..][..m - 1])
  {
    assert rs[..m][1..] == rs[1..][..m - 1];
  }

  /** Reading any truncation of a written run gives exactly the longest prefix of
      records wholly contained in it, up to the limit. */
  lemma ReadTruncated(h: nat, limit: nat, rs: seq<Record>, k: nat, m: nat)
    requires WellFormed(h, rs) && k <= |Bytes(rs)| && WholeWithin(rs, k, m)
    ensures Read(h, limit, Bytes(rs)[..k]) == rs[..Min(limit, m)]
  {
    ReadPrefix(h, limit, rs, Bytes(rs)[..k], m);
  }

  lemma {:induction false} ReadPrefix(h: nat, limit: nat, rs: seq<Record>, data: seq<byte>, m: nat)
    requires WellFormed(h, rs) && data <= Bytes(rs) && WholeWithin(rs, |data|, m)
    ensures Read(h, limit, data) == rs[..Min(limit, m)]
    decreases limit
  {
    if limit == 0 {
      ReadUpToNone(h, rs, data);
    } else if m == 0 {
      ReadNothing(h, rs, data);
    } else {
      var rest := rs[1..];
      var tail := ReadFirst(h, rs, data, m, rest);
      ReadPrefix(h, limit - 1, rest, tail, m - 1);
      ReadCons(h, limit, data, tail, rs, rest, m);
    }
  }

  lemma ReadUpToNone(h: nat, rs: seq<Record>, data: seq<byte>)
    ensures Read(h, 0, data) == rs[..0]
  {
  }

  lemma ReadCons(h: nat, limit: nat, data: seq<byte>, tail: seq<byte>, rs: seq<Record>, rest: seq<Record>, m: nat)
    requires limit > 0 && 0 < m <= |rs| && First(h, data) == Some(rs[0]) && rest == rs[1..]
    requires tail == data[h + 4 + |rs[0].payload|..]
    requires Read(h, limit - 1, tail) == rest[..Min(limit - 1, m - 1)]
    ensures Read(h, limit, data) == rs[..Min(limit, m)]
  {
    var j := Min(limit, m);
    assert rs[..j] == [rs[0]] + rest[..j - 1];
  }

  lemma ReadNothing(h: nat, rs: seq<Record>, data: seq<byte>)
    requires WellFormed(h, rs) && data <= Bytes(rs) && WholeWithin(rs, |data|, 0)
    ensures First(h, data) == None
  {
    if rs != [] {
      BytesCons(rs, 1);
      assert rs[1..][..0] == [];
      assert data == RecordBytes(rs[0])[..|data|];
      FirstCut(h, rs[0], |data|);
    }
  }

  lemma ReadFirst(h: nat, rs: seq<Record>, data: seq<byte>, m: nat, rest: seq<Record>) returns (tail: seq<byte>)
    requires WellFormed(h, rs) && data <= Bytes(rs) && WholeWithin(rs, |data|, m) && m > 0 && rest == rs[1..]
    ensures First(h, data) == Some(rs[0])
    ensures tail == data[h + 4 + |rs[0].payload|..]
    ensures tail <= Bytes(rest) && WholeWithin(rest, |tail|, m - 1) && WellFormed(h, rest)
  {
    var first := RecordBytes(rs[0]);
    assert Bytes(rs) == first + Bytes(rs[1..]);
    TailWithin(rs, |data|, m);
    tail := data[|first|..];
    assert data == first + tail;
    FirstWritten(h, rs[0], tail);
  }

  /** Without its first record a prefix holds one whole record less. */
  lemma TailWithin(rs: seq<Record>, k: nat, m: nat)
    requires WholeWithin(rs, k, m) && m > 0
    ensures |RecordBytes(rs[0])| <= k && WholeWithin(rs[1..], k - |RecordBytes(rs[0])|, m - 1)
  {
    BytesCons(rs, m);
    if m < |rs| {
      BytesCons(rs, m + 1);
    }
  }

  /** There is always such a prefix. */
  lemma {:induction false} WholeExists(rs: seq<Record>, k: nat) returns (m: nat)
    ensures WholeWithin(rs, k, m)
  {
    m := 0;
    assert rs[..0] == [];
    while m < |rs| && |Bytes(rs[..m + 1])| <= k
      invariant m <= |rs| && |Bytes(rs[..m])| <= k
    {
      m := m + 1;
    }
  }

  // ----- parsed records ----------------------------------------------------

  /** A list of records, each parsed; one bad payload fails the whole list. */
  function ParseAll<T>(parse: Record -> Option<T>, rs: seq<Record>): (r: Option<seq<T>>) {
    if rs == [] then Some([])
    else if parse(rs[0]).None? then None
    else
      var rest := ParseAll(parse, rs[1..]);
      if rest.None? then None else Some([parse(rs[0]).value] + rest.value)
  }

  /** The reading loop: at most `limit` records, each parsed when it is read. */
  function ReadParsed<T>(h: nat, parse: Record -> Option<T>, limit: nat, data: seq<byte>): (r: Option<seq<T>>)
    decreases limit
  {
    if limit == 0 || First(h, data).None? then Some([])
    else
      var record := First(h, data).value;
      if parse(record).None? then None
      else
        var rest := ReadParsed(h, parse, limit - 1, data[h + 4 + |record.payload|..]);
        if rest.None? then None else Some([parse(record).value] + rest.value)
  }

  lemma {:induction false} ReadThenParse<T>(h: nat, parse: Record -> Option<T>, limit: nat, data: seq<byte>)
    ensures ReadParsed(h, parse, limit, data) == ParseAll(parse, Read(h, limit, data))
    decreases limit
  {
    if limit > 0 && First(h, data).Some? {
      var record := First(h, data).value;
      var rest := Read(h, limit - 1, data[h + 4 + |record.payload|..]);
      ReadThenParse(h, parse, limit - 1, data[h + 4 + |record.payload|..]);
      assert ([record] + rest)[1..] == rest;
    }
  }

  /** `rest` is the data from the current position on; the bounds tests of the
      source are those of `First`. */
  method ReadLoop<T>(h: nat, parse: Record -> Option<T>, limit: nat, data: seq<byte>) returns (r: Option<seq<T>>)
    ensures r == ReadParsed(h, parse, limit, data)
  {
    var items: seq<T> := [];
    var rest := data;
    var left := limit;
    ghost var final := ReadParsed(h, parse, limit, data);
    assert final.Some? ==> [] + final.value == final.value;
    while left > 0
      invariant final == Onto(items, ReadParsed(h, parse, left, rest))
    {
      OntoStep(h, parse, items, left, rest);
      var first := First(h, rest);
      if first.None? {
        return Some(items);
      }
      var item := parse(first.value);
      if item.None? {
        return None;
      }
      items := items + [item.value];
      rest := rest[h + 4 + |first.value.payload|..];
      left := left - 1;
    }
    assert items + [] == items;
    r := Some(items);
  }

  /** One turn of the reading loop. */
  lemma OntoStep<T>(h: nat, parse: Record -> Option<T>, done: seq<T>, limit: nat, data: seq<byte>)
    requires limit > 0
    ensures var run := Onto(done, ReadParsed(h, parse, limit, data));
            var first := First(h, data);
            if first.None? then run == Some(done)
            else if parse(first.value).None? then run == None
            else run == Onto(done + [parse(first.value).value],
                             ReadParsed(h, parse, limit - 1, data[h + 4 + |first.value.payload|..]))
  {
    var first := First(h, data);
    if first.None? {
      assert done + [] == done;
    } else {
      var x, tail := parse(first.value), ReadParsed(h, parse, limit - 1, data[h + 4 + |first.value.payload|..]);
      if x.Some? && tail.Some? {
        assert done + ([x.value] + tail.value) == (done + [x.value]) + tail.value;
      }
    }
  }

  ghost predicate Parses<T>(parse: Record -> Option<T>, rs: seq<Record>, xs: seq<T>) {
    |rs| == |xs| && forall i :: 0 <= i < |rs| ==> parse(rs[i]) == Some(xs[i])
  }

  lemma {:induction false} ParseWritten<T>(parse: Record -> Option<T>, rs: seq<Record>, xs: seq<T>)
    requires Parses(parse, rs, xs)
    ensures ParseAll(parse, rs) == Some(xs)
  {
    if rs != [] {
      ParseWritten(parse, rs[1..], xs[1..]);
      assert [xs[0]] + xs[1..] == xs;
    }
  }

  /** Any truncation of a written run reads as exactly the items whose records lie
      wholly within it, up to the limit. */
  lemma ReadParsedTruncated<T>(h: nat, parse: Record -> Option<T>, limit: nat, rs: seq<Record>, xs: seq<T>, k: nat,
                               m: nat)
    requires WellFormed(h, rs) && Parses(parse, rs, xs)
    requires k <= |Bytes(rs)| && WholeWithin(rs, k, m)
    ensures ReadParsed(h, parse, limit, Bytes(rs)[..k]) == Some(xs[..Min(limit, m)])
  {
    ReadThenParse(h, parse, limit, Bytes(rs)[..k]);
    ReadTruncated(h, limit, rs, k, m);
    var j := Min(limit, m);
    ParseWritten(parse, rs[..j], xs[..j]);
  }
}
