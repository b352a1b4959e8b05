/** The data model shared by the storage and server modules
    (storage/src/model/mod.rs). Sample values are 64-bit patterns. */
module Model {
  import opened Machine

  datatype Label = Label(name: string, value: string)
  type Labels = seq<Label>

  datatype Sample = Sample(timestamp: i64, value: u64)

  /** An entry of a block's series index; offset and count are row numbers. */
  datatype Entry = Entry(seriesId: u64, labels: Labels, offset: nat, count: nat)

  function Timestamps(samples: seq<Sample>): (ts: seq<i64>)
    ensures |ts| == |samples|
    ensures forall i :: 0 <= i < |samples| ==> ts[i] == samples[i].timestamp
  {
    seq(|samples|, i requires 0 <= i < |samples| => samples[i].timestamp)
  }

  function Values(samples: seq<Sample>): (vs: seq<u64>)
    ensures |vs| == |samples|
    ensures forall i :: 0 <= i < |samples| ==> vs[i] == samples[i].value
  {
    seq(|samples|, i requires 0 <= i < |samples| => samples[i].value)
  }

  function Least(ts: seq<i64>): (m: i64)
    ensures ts != [] ==> m in ts && forall t :: t in ts ==> m <= t
  {
    if ts == [] then 0
    else if |ts| == 1 then ts[0]
    else assert ts == [ts[0]] + ts[1..]; var m := Least(ts[1..]); if ts[0] < m then ts[0] else m
  }

  function Greatest(ts: seq<i64>): (m: i64)
    ensures ts != [] ==> m in ts && forall t :: t in ts ==> t <= m
  {
    if ts == [] then 0
    else if |ts| == 1 then ts[0]
    else assert ts == [ts[0]] + ts[1..]; var m := Greatest(ts[1..]); if ts[0] > m then ts[0] else m
  }
}
