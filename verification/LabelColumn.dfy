/** The label column of storage/src/columnstore/column.rs (the bytes between
    compression and decompression). UTF-8 is a pair of functions of which only
    "decoding inverts encoding" is used. */
module LabelColumn {
  import opened Machine
  import opened Records

  datatype Utf8 = Utf8(encode: string -> seq<byte>, decode: seq<byte> -> Option<string>)

  ghost predicate Faithful(utf8: Utf8) {
    forall s :: utf8.decode(utf8.encode(s)) == Some(s)
  }

  function ToRecords(utf8: Utf8, labels: seq<string>): (rs: seq<Record>)
    ensures |rs| == |labels|
    ensures forall i :: 0 <= i < |labels| ==> rs[i] == Record([], utf8.encode(labels[i]))
  {
    seq(|labels|, i requires 0 <= i < |labels| => Record([], utf8.encode(labels[i])))
  }

  /** `build_label_column`. */
  function Build(utf8: Utf8, labels: seq<string>): (s: seq<byte>) {
    Bytes(ToRecords(utf8, labels))
  }

  function Parser(utf8: Utf8): Record -> Option<string> {
    (r: Record) => utf8.decode(r.payload)
  }

  /** `decode_label_column`. There is no stored count; every record takes at least
      four bytes, so the length of the data is never reached as a limit. */
  function Decode(utf8: Utf8, data: seq<byte>): (r: Option<seq<string>>) {
    ReadParsed(0, Parser(utf8), |data|, data)
  }

  method DecodeLabelColumn(utf8: Utf8, data: seq<byte>) returns (r: Result<seq<string>>)
    ensures r == if Decode(utf8, data).Some? then Ok(Decode(utf8, data).value) else Err("Invalid UTF-8")
  {
    var labels := ReadLoop(0, Parser(utf8), |data|, data);
    r := if labels.Some? then Ok(labels.value) else Err("Invalid UTF-8");
  }

  lemma {:induction false} RecordCount(rs: seq<Record>)
    ensures 4 * |rs| <= |Bytes(rs)|
  {
    if rs != [] {
      RecordCount(rs[1..]);
    }
  }

  /** Any truncation of a written label column decodes to exactly the labels that
      lie wholly within it. */
  lemma DecodeTruncated(utf8: Utf8, labels: seq<string>, k: nat, m: nat)
    requires Faithful(utf8) && k <= |Build(utf8, labels)|
    requires forall i :: 0 <= i < |labels| ==> |utf8.encode(labels[i])| < TWO32
    requires WholeWithin(ToRecords(utf8, labels), k, m)
    ensures Decode(utf8, Build(utf8, labels)[..k]) == Some(labels[..m])
  {
    var rs := ToRecords(utf8, labels);
    RecordCount(rs[..m]);
    ReadParsedTruncated(0, Parser(utf8), k, rs, labels, k, m);
  }

  lemma DecodeInvertsBuild(utf8: Utf8, labels: seq<string>)
    requires Faithful(utf8)
    requires forall i :: 0 <= i < |labels| ==> |utf8.encode(labels[i])| < TWO32
    ensures Decode(utf8, Build(utf8, labels)) == Some(labels)
  {
    var rs, data := ToRecords(utf8, labels), Build(utf8, labels);
    assert rs[..|rs|] == rs && data[..|data|] == data && labels[..|labels|] == labels;
    DecodeTruncated(utf8, labels, |data|, |labels|);
  }
}
