/** Streaming a network into a fresh equipment container.

    Each streamed record is a message with optional fields; the loop asks for
    ten known fields in a fixed order and hands the first one present to the
    matching insert routine of the container, skipping a record that has
    none of them. The RPC call is replaced by the sequence of records it
    yields, and the container's insert routines by a log of the calls made. */
module Streaming {
  import opened Wrappers
  import opened MetricsStores

  /** The fields a record may carry: the ten the loop asks about, and any
      other field, which it never asks about. */
  datatype Tag = Es | Ec | Pt | Acls | Br | Bv | Ai | Si | Up | Mt | Other(name: string)

  /** A field's payload, an unseen protobuf message. */
  type Payload = string

  /** A streamed record: its present fields and their payloads. */
  datatype Record = Record(fields: map<Tag, Payload>)

  /** One call of an insert routine: the field that selected it (`es` for
      `add_pb_energy_source`, and so on) and the payload passed. */
  datatype InsertCall = InsertCall(tag: Tag, payload: Payload)

  /** The order in which the loop asks for the known fields. */
  const Priority: seq<Tag> := [Es, Ec, Pt, Acls, Br, Bv, Ai, Si, Up, Mt]

  /** One of the ten fields the loop asks about. */
  predicate Known(t: Tag) {
    !t.Other?
  }

  /** The position of a known field in `Priority`. */
  function Rank(t: Tag): (k: nat)
    requires Known(t)
    ensures k < |Priority| && Priority[k] == t
  {
    match t
    case Es => 0
    case Ec => 1
    case Pt => 2
    case Acls => 3
    case Br => 4
    case Bv => 5
    case Ai => 6
    case Si => 7
    case Up => 8
    case Mt => 9
  }

  /** `Priority` lists each known field once, at its rank. */
  lemma PriorityRanks(j: int)
    requires 0 <= j < |Priority|
    ensures Known(Priority[j]) && Rank(Priority[j]) == j
  {
    if j == 0 {} else if j == 1 {} else if j == 2 {} else if j == 3 {} else if j == 4 {}
    else if j == 5 {} else if j == 6 {} else if j == 7 {} else if j == 8 {} else {}
  }

  /** The record carries at least one of the known fields. */
  predicate HasKnownField(rec: Record) {
    exists t :: t in rec.fields && Known(t)
  }

  /** The index of the first field of `Priority` from position `j` on that
      is present in `fields`, or `|Priority|` when none is. */
  function FirstIndex(fields: map<Tag, Payload>, j: nat): (r: nat)
    requires j <= |Priority|
    ensures j <= r <= |Priority|
    ensures forall i :: j <= i < r ==> Priority[i] !in fields
    ensures r < |Priority| ==> Priority[r] in fields
    decreases |Priority| - j
  {
    if j == |Priority| then j
    else if Priority[j] in fields then j
    else FirstIndex(fields, j + 1)
  }

  /** The if/elif chain from position `j` of `Priority` on: a call for the
      first of those fields present in `fields`, with its payload; none when
      none is present. */
  function DispatchFrom(fields: map<Tag, Payload>, j: nat): Option<InsertCall>
    requires j <= |Priority|
    decreases |Priority| - j
  {
    if j == |Priority| then None
    else if Priority[j] in fields then Some(InsertCall(Priority[j], fields[Priority[j]]))
    else DispatchFrom(fields, j + 1)
  }

  /** The chain picks the field at the first present index, and nothing when
      there is none. */
  lemma {:induction false} DispatchFromFirstIndex(fields: map<Tag, Payload>, j: nat)
    requires j <= |Priority|
    ensures var k := FirstIndex(fields, j);
      DispatchFrom(fields, j) == if k == |Priority| then None else Some(InsertCall(Priority[k], fields[Priority[k]]))
    decreases |Priority| - j
  {
    if j < |Priority| && Priority[j] !in fields {
      DispatchFromFirstIndex(fields, j + 1);
    }
  }

  /** The insert call one record triggers: the first field of `Priority`
      the record carries, with its payload; none when it carries none. */
  function Dispatch(rec: Record): Option<InsertCall> {
    DispatchFrom(rec.fields, 0)
  }

  /** A record triggers a call exactly when it carries a known field; the
      call is for a known field it carries, with that field's payload, and
      no known field it carries comes earlier in `Priority`. */
  lemma DispatchSpec(rec: Record)
    ensures Dispatch(rec).None? <==> !HasKnownField(rec)
    ensures Dispatch(rec).Some? ==>
      var c := Dispatch(rec).value;
      && Known(c.tag)
      && c.tag in rec.fields
      && c.payload == rec.fields[c.tag]
      && (forall j :: 0 <= j < Rank(c.tag) ==> Priority[j] !in rec.fields)
      && (forall t :: t in rec.fields && Known(t) ==> Rank(c.tag) <= Rank(t))
  {
    var k := FirstIndex(rec.fields, 0);
    DispatchFromFirstIndex(rec.fields, 0);
    if k == |Priority| {
      forall t | Known(t) ensures t !in rec.fields {
        assert Priority[Rank(t)] == t;
      }
    } else {
      var c := Dispatch(rec).value;
      PriorityRanks(k);
      assert c.tag == Priority[k] && Rank(c.tag) == k;
      forall t | t in rec.fields && Known(t) ensures k <= Rank(t) {
        assert Priority[Rank(t)] == t;
      }
    }
  }

  /** A present known field is the one dispatched when no present known
      field comes before it. */
  lemma DispatchPicks(rec: Record, t: Tag)
    requires Known(t) && t in rec.fields
    requires forall u :: u in rec.fields && Known(u) ==> Rank(t) <= Rank(u)
    ensures Dispatch(rec) == Some(InsertCall(t, rec.fields[t]))
    ensures CallsOf(rec) == [InsertCall(t, rec.fields[t])]
  {
    DispatchSpec(rec);
    assert HasKnownField(rec);
    var c := Dispatch(rec).value;
    assert Priority[Rank(t)] == t && Priority[Rank(c.tag)] == c.tag;
    assert Rank(c.tag) == Rank(t);
  }

  /** A record with none of the known fields triggers no call. */
  lemma DispatchSkips(rec: Record)
    requires forall t :: Known(t) ==> t !in rec.fields
    ensures Dispatch(rec) == None && CallsOf(rec) == []
  {
    DispatchSpec(rec);
  }

  /** The calls one record triggers, as a list of none or one. */
  function CallsOf(rec: Record): seq<InsertCall> {
    match Dispatch(rec)
    case None => []
    case Some(c) => [c]
  }

  /** The calls a sequence of records triggers, in stream order. */
  function DispatchAll(stream: seq<Record>): seq<InsertCall>
    decreases |stream|
  {
    if stream == [] then []
    else
      var n := |stream| - 1;
      DispatchAll(stream[..n]) + CallsOf(stream[n])
  }

  /** The records that carry at least one known field, in stream order. */
  function KnownRecords(stream: seq<Record>): (r: seq<Record>)
    ensures forall k :: 0 <= k < |r| ==> HasKnownField(r[k])
    ensures |r| <= |stream|
    decreases |stream|
  {
    if stream == [] then []
    else
      var n := |stream| - 1;
      KnownRecords(stream[..n]) + if HasKnownField(stream[n]) then [stream[n]] else []
  }

  /** Streaming two parts one after the other makes the first part's calls,
      then the second's. */
  lemma {:induction false} DispatchAllAppend(a: seq<Record>, b: seq<Record>)
    ensures DispatchAll(a + b) == DispatchAll(a) + DispatchAll(b)
    decreases |b|
  {
    if b == [] {
      assert a + b == a;
    } else {
      var n := |b| - 1;
      assert (a + b)[..|a + b| - 1] == a + b[..n];
      assert (a + b)[|a + b| - 1] == b[n];
      DispatchAllAppend(a, b[..n]);
    }
  }

  /** There is one call per record with a known field, and the calls are
      those records' dispatches, in stream order. */
  lemma {:induction false} DispatchAllIsKnownRecords(stream: seq<Record>)
    ensures |DispatchAll(stream)| == |KnownRecords(stream)|
    ensures forall k :: 0 <= k < |KnownRecords(stream)| ==>
      Dispatch(KnownRecords(stream)[k]) == Some(DispatchAll(stream)[k])
    decreases |stream|
  {
    if stream != [] {
      var n := |stream| - 1;
      DispatchSpec(stream[n]);
      DispatchAllIsKnownRecords(stream[..n]);
    }
  }

  /** One more record adds that record's calls at the end. */
  lemma DispatchAllSnoc(s: seq<Record>, rec: Record)
    ensures DispatchAll(s + [rec]) == DispatchAll(s) + CallsOf(rec)
  {
    assert (s + [rec])[..|s|] == s;
  }

  /** The calls of a prefix one record longer end with that record's. */
  lemma DispatchAllPrefix(stream: seq<Record>, i: int)
    requires 0 <= i < |stream|
    ensures DispatchAll(stream[..i + 1]) == DispatchAll(stream[..i]) + CallsOf(stream[i])
  {
    assert stream[..i + 1][..i] == stream[..i];
  }

  /** A record without a known field triggers no call. */
  lemma SkippedRecordNoCalls(rec: Record)
    requires !HasKnownField(rec)
    ensures CallsOf(rec) == []
  {
    DispatchSpec(rec);
  }

  /** A record without a known field can be dropped from the stream without
      changing the calls. */
  lemma SkippedRecordAddsNothing(a: seq<Record>, rec: Record, b: seq<Record>)
    requires !HasKnownField(rec)
    ensures DispatchAll(a + [rec] + b) == DispatchAll(a + b)
  {
    var ar := a + [rec];
    DispatchAllSnoc(a, rec);
    SkippedRecordNoCalls(rec);
    assert DispatchAll(ar) == DispatchAll(a);
    DispatchAllAppend(ar, b);
    DispatchAllAppend(a, b);
  }

  /** The container the network is streamed into: the insert calls it has
      received, and its metrics store. */
  class EquipmentContainer {
    var log: seq<InsertCall>
    const metrics: MetricsStore

    constructor (metrics: MetricsStore)
      ensures log == [] && this.metrics == metrics
    {
      log := [];
      this.metrics := metrics;
    }

    /** An `add_pb_*` routine, recorded as the call it receives. */
    method AddPb(tag: Tag, payload: Payload)
      modifies this`log
      ensures log == old(log) + [InsertCall(tag, payload)]
    {
      log := log + [InsertCall(tag, payload)];
    }
  }

  /** One pass of the loop body of `retrieve_network`: the chain of
      `HasField` tests, making the call for the first known field present. */
  method InsertRecord(network: EquipmentContainer, rec: Record)
    modifies network`log
    ensures network.log == old(network.log) + CallsOf(rec)
  {
    var f := rec.fields;
    if Es in f {
      DispatchPicks(rec, Es);
      network.AddPb(Es, f[Es]);
    } else if Ec in f {
      DispatchPicks(rec, Ec);
      network.AddPb(Ec, f[Ec]);
    } else if Pt in f {
      DispatchPicks(rec, Pt);
      network.AddPb(Pt, f[Pt]);
    } else if Acls in f {
      DispatchPicks(rec, Acls);
      network.AddPb(Acls, f[Acls]);
    } else if Br in f {
      DispatchPicks(rec, Br);
      network.AddPb(Br, f[Br]);
    } else if Bv in f {
      DispatchPicks(rec, Bv);
      network.AddPb(Bv, f[Bv]);
    } else if Ai in f {
      DispatchPicks(rec, Ai);
      network.AddPb(Ai, f[Ai]);
    } else if Si in f {
      DispatchPicks(rec, Si);
      network.AddPb(Si, f[Si]);
    } else if Up in f {
      DispatchPicks(rec, Up);
      network.AddPb(Up, f[Up]);
    } else if Mt in f {
      DispatchPicks(rec, Mt);
      network.AddPb(Mt, f[Mt]);
    } else {
      DispatchSkips(rec);
    }
  }

  /** `retrieve_network`: a new container with a new, empty metrics store of
      the default width, which has received exactly the calls the stream
      dispatches, in stream order. */
  method RetrieveNetwork(stream: seq<Record>) returns (network: EquipmentContainer)
    ensures fresh(network) && fresh(network.metrics)
    ensures network.metrics.Valid() && network.metrics.bucketDuration == DefaultBucketDuration
    ensures network.metrics.store == map[] && network.metrics.bucketTimes == {}
    ensures network.log == DispatchAll(stream)
  {
    var metrics := new MetricsStore(DefaultBucketDuration);
    network := new EquipmentContainer(metrics);
    var i := 0;
    while i < |stream|
      invariant 0 <= i <= |stream|
      invariant fresh(network) && network.metrics == metrics
      invariant metrics.Valid() && metrics.store == map[] && metrics.bucketTimes == {}
      invariant network.log == DispatchAll(stream[..i])
    {
      InsertRecord(network, stream[i]);
      DispatchAllPrefix(stream, i);
      i := i + 1;
    }
    assert stream[..i] == stream;
  }

  /** A record carrying `ec` and `mt` and nothing else is dispatched as `ec`. */
  lemma ConsumerOutranksMeter(meter: Payload, consumer: Payload)
    ensures CallsOf(Record(map[Mt := meter, Ec := consumer])) == [InsertCall(Ec, consumer)]
  {
    var both := Record(map[Mt := meter, Ec := consumer]);
    forall u | u in both.fields && Known(u) ensures Rank(Ec) <= Rank(u) {
      assert u == Mt || u == Ec;
    }
    DispatchPicks(both, Ec);
  }

  /** A stream of a record carrying both `mt` and `ec`, then a record with
      no known field, makes one call: the consumer's insert. */
  lemma MixedStreamCalls(meter: Payload, consumer: Payload, other: Payload)
    ensures DispatchAll([Record(map[Mt := meter, Ec := consumer]), Record(map[Other("sw") := other])])
         == [InsertCall(Ec, consumer)]
  {
    var both := Record(map[Mt := meter, Ec := consumer]);
    var unknown := Record(map[Other("sw") := other]);
    ConsumerOutranksMeter(meter, consumer);
    DispatchSkips(unknown);
    DispatchAllSnoc([], both);
    DispatchAllSnoc([both], unknown);
    assert [] + [both] == [both] && [both] + [unknown] == [both, unknown];
  }
}
