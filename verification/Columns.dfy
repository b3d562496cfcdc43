/**
 Row-to-column marshalling (src/discovery.rs, src/query.rs): loops push record fields into parallel
 vectors, which become the columns of one record batch.
 */
module Columns {
  import opened Prelude
  import opened Utf8
  import opened ErrorChannel

  datatype DataType = Utf8Type | Int64Type | Float64Type | BooleanType
  datatype Field = Field(name: string, dataType: DataType, nullable: bool)
  type Schema = seq<Field>

  datatype Column =
    | Utf8Array(strings: seq<Option<Str>>)
    | Int64Array(ints: seq<Option<I64>>)
    | Float64Array(floats: seq<Option<F64>>)
    | BooleanArray(bools: seq<Option<bool>>)
  {
    function Length(): nat {
      match this
      case Utf8Array(s) => |s|
      case Int64Array(s) => |s|
      case Float64Array(s) => |s|
      case BooleanArray(s) => |s|
    }

    function Type(): DataType {
      match this
      case Utf8Array(_) => Utf8Type
      case Int64Array(_) => Int64Type
      case Float64Array(_) => Float64Type
      case BooleanArray(_) => BooleanType
    }

    function At(i: nat): Value
      requires i < Length()
    {
      match this
      case Utf8Array(s) => Text(s[i])
      case Int64Array(s) => Int(s[i])
      case Float64Array(s) => Float(s[i])
      case BooleanArray(s) => Bool(s[i])
    }

    predicate HasNull() {
      match this
      case Utf8Array(s) => None in s
      case Int64Array(s) => None in s
      case Float64Array(s) => None in s
      case BooleanArray(s) => None in s
    }
  }

  datatype Value = Text(s: Option<Str>) | Int(i: Option<I64>) | Float(f: Option<F64>) | Bool(b: Option<bool>)

  datatype Batch = Batch(schema: Schema, columns: seq<Column>, rows: nat)

  /** Arrow's condition for building a batch from a schema and columns. */
  predicate Buildable(schema: Schema, columns: seq<Column>) {
    && 0 < |columns| == |schema|
    && (forall j :: 0 <= j < |columns| ==> columns[j].Type() == schema[j].dataType)
    && (forall j :: 0 <= j < |columns| ==> columns[j].Length() == columns[0].Length())
    && (forall j :: 0 <= j < |columns| ==> columns[j].HasNull() ==> schema[j].nullable)
  }

  /** `RecordBatch::try_new(...).map_err(arrow_err)`. */
  function TryNew(schema: Schema, columns: seq<Column>): Result<Batch, CallError> {
    if Buildable(schema, columns) then Ok(Batch(schema, columns, columns[0].Length()))
    else Err(QueryFailed(Ascii("arrow: ")))
  }

  /** Row `i`, read across the columns. */
  function Row(b: Batch, i: nat): (r: seq<Value>)
    requires forall j :: 0 <= j < |b.columns| ==> i < b.columns[j].Length()
    ensures |r| == |b.columns|
  {
    seq(|b.columns|, j requires 0 <= j < |b.columns| => b.columns[j].At(i))
  }

  /** A consumer that looks a column up by its name reads this value in row `i`; the name is unambiguous. */
  ghost predicate Reads(b: Batch, i: nat, name: string, v: Value) {
    && (exists j :: 0 <= j < |b.schema| && b.schema[j].name == name)
    && (forall j :: 0 <= j < |b.schema| && b.schema[j].name == name ==>
          j < |b.columns| && i < b.columns[j].Length() && b.columns[j].At(i) == v)
  }

  /** Only the named columns may hold nulls. */
  predicate NullableAre(schema: Schema, names: set<string>) {
    forall j :: 0 <= j < |schema| ==> (schema[j].nullable <==> schema[j].name in names)
  }

  lemma ReadsColumn(b: Batch, i: nat, j: nat)
    requires j < |b.schema| == |b.columns| && i < b.columns[j].Length()
    requires forall k :: 0 <= k < |b.schema| && k != j ==> b.schema[k].name != b.schema[j].name
    ensures Reads(b, i, b.schema[j].name, b.columns[j].At(i))
  {
  }

  predicate Rectangular(b: Batch) {
    forall j :: 0 <= j < |b.columns| ==> b.columns[j].Length() == b.rows
  }

  /** A vector of non-optional values has no nulls. */
  function Present<T>(xs: seq<T>): (ys: seq<Option<T>>)
    ensures |ys| == |xs| && None !in ys
    ensures forall i :: 0 <= i < |xs| ==> ys[i] == Some(xs[i])
  {
    seq(|xs|, i requires 0 <= i < |xs| => Some(xs[i]))
  }

  /** The unsigned reading of a signed 64-bit value. */
  function AsU64(x: I64): U64 {
    if x < 0 then x + TWO_64 else x
  }

  /** A `u64` stored in an Int64 column keeps its bits, and keeps its value exactly below 2^63. */
  lemma CastKeepsBits(x: U64)
    ensures AsU64(AsI64(x)) == x
    ensures AsI64(x) == x <==> x < TWO_63
  {
    assert x % TWO_64 == x;
  }

  // ---- Trace summaries ---------------------------------------------------------------------------

  /** `imbh::TraceSummary`, with its id already in hex. */
  datatype TraceSummary = TraceSummary(
    traceId: Str,
    rootService: Option<Str>,
    rootName: Option<Str>,
    startTime: I64,
    durationNs: U64,
    spanCount: U64,
    error: bool)

  const TRACE_SCHEMA: Schema := [
    Field("trace_id", Utf8Type, false),
    Field("root_service", Utf8Type, true),
    Field("root_name", Utf8Type, true),
    Field("start_time", Int64Type, false),
    Field("duration_ns", Int64Type, false),
    Field("span_count", Int64Type, false),
    Field("error", BooleanType, false)]

  /** What a consumer reads for one summary. */
  function TraceRow(s: TraceSummary): seq<Value> {
    [Text(Some(s.traceId)), Text(s.rootService), Text(s.rootName), Int(Some(s.startTime)),
     Int(Some(AsI64(s.durationNs))), Int(Some(AsI64(s.spanCount))), Bool(Some(s.error))]
  }

  /** A row determines its record. */
  lemma TraceRowInjective(s: TraceSummary, t: TraceSummary)
    ensures TraceRow(s) == TraceRow(t) <==> s == t
  {
    CastKeepsBits(s.durationNs);
    CastKeepsBits(t.durationNs);
    CastKeepsBits(s.spanCount);
    CastKeepsBits(t.spanCount);
    if TraceRow(s) == TraceRow(t) {
      assert TraceRow(s)[0] == TraceRow(t)[0] && TraceRow(s)[1] == TraceRow(t)[1] && TraceRow(s)[2] == TraceRow(t)[2];
      assert TraceRow(s)[3] == TraceRow(t)[3] && TraceRow(s)[4] == TraceRow(t)[4];
      assert TraceRow(s)[5] == TraceRow(t)[5] && TraceRow(s)[6] == TraceRow(t)[6];
    }
  }

  /** The seven columns of a summary, by name. */
  ghost predicate TraceReads(b: Batch, i: nat, s: TraceSummary) {
    && Reads(b, i, "trace_id", Text(Some(s.traceId)))
    && Reads(b, i, "root_service", Text(s.rootService))
    && Reads(b, i, "root_name", Text(s.rootName))
    && Reads(b, i, "start_time", Int(Some(s.startTime)))
    && Reads(b, i, "duration_ns", Int(Some(AsI64(s.durationNs))))
    && Reads(b, i, "span_count", Int(Some(AsI64(s.spanCount))))
    && Reads(b, i, "error", Bool(Some(s.error)))
  }

  lemma TraceNames()
    ensures forall j, k :: 0 <= j < k < |TRACE_SCHEMA| ==> TRACE_SCHEMA[j].name != TRACE_SCHEMA[k].name
    ensures NullableAre(TRACE_SCHEMA, {"root_service", "root_name"})
  {
    assert TRACE_SCHEMA[3].name[1] == 't' && TRACE_SCHEMA[5].name[1] == 'p';
  }

  lemma TraceByName(b: Batch, i: nat, s: TraceSummary)
    requires b.schema == TRACE_SCHEMA && |b.columns| == |b.schema| && Rectangular(b) && i < b.rows
    requires Row(b, i) == TraceRow(s)
    ensures TraceReads(b, i, s)
  {
    TraceNames();
    ReadsColumn(b, i, 0);
    ReadsColumn(b, i, 1);
    ReadsColumn(b, i, 2);
    ReadsColumn(b, i, 3);
    ReadsColumn(b, i, 4);
    ReadsColumn(b, i, 5);
    ReadsColumn(b, i, 6);
    assert Row(b, i)[0] == Text(Some(s.traceId));
    assert Row(b, i)[1] == Text(s.rootService);
    assert Row(b, i)[2] == Text(s.rootName);
    assert Row(b, i)[3] == Int(Some(s.startTime));
    assert Row(b, i)[4] == Int(Some(AsI64(s.durationNs)));
    assert Row(b, i)[5] == Int(Some(AsI64(s.spanCount)));
    assert Row(b, i)[6] == Bool(Some(s.error));
  }

  lemma TraceReadBack(b: Batch, records: seq<TraceSummary>)
    requires b.schema == TRACE_SCHEMA && |b.columns| == |b.schema| && Rectangular(b) && b.rows == |records|
    requires forall i :: 0 <= i < |records| ==> Row(b, i) == TraceRow(records[i])
    ensures forall i :: 0 <= i < |records| ==> TraceReads(b, i, records[i])
    ensures NullableAre(b.schema, {"root_service", "root_name"})
  {
    TraceNames();
    forall i | 0 <= i < |records| ensures TraceReads(b, i, records[i]) {
      TraceByName(b, i, records[i]);
    }
  }

  /** `trace_summary_batch`: never fails, and row `i` is record `i`. */
  method TraceSummaryBatch(summaries: seq<TraceSummary>) returns (r: Result<Batch, CallError>)
    ensures r.Ok? && r.value.schema == TRACE_SCHEMA && r.value.rows == |summaries| && Rectangular(r.value)
    ensures forall i :: 0 <= i < |summaries| ==> Row(r.value, i) == TraceRow(summaries[i])
    ensures forall i :: 0 <= i < |summaries| ==>
              var s := summaries[i];
              && Reads(r.value, i, "trace_id", Text(Some(s.traceId)))
              && Reads(r.value, i, "root_service", Text(s.rootService))
              && Reads(r.value, i, "root_name", Text(s.rootName))
              && Reads(r.value, i, "start_time", Int(Some(s.startTime)))
              && Reads(r.value, i, "duration_ns", Int(Some(AsI64(s.durationNs))))
              && Reads(r.value, i, "span_count", Int(Some(AsI64(s.spanCount))))
              && Reads(r.value, i, "error", Bool(Some(s.error)))
    ensures NullableAre(r.value.schema, {"root_service", "root_name"})
  {
    var traceIds: seq<Str> := [];
    var rootServices: seq<Option<Str>> := [];
    var rootNames: seq<Option<Str>> := [];
    var startTimes: seq<I64> := [];
    var durations: seq<I64> := [];
    var spanCounts: seq<I64> := [];
    var errors: seq<bool> := [];
    for n := 0 to |summaries|
      invariant |traceIds| == |rootServices| == |rootNames| == n
      invariant |startTimes| == |durations| == |spanCounts| == |errors| == n
      invariant forall i :: 0 <= i < n ==>
                  && traceIds[i] == summaries[i].traceId
                  && rootServices[i] == summaries[i].rootService
                  && rootNames[i] == summaries[i].rootName
                  && startTimes[i] == summaries[i].startTime
                  && durations[i] == AsI64(summaries[i].durationNs)
                  && spanCounts[i] == AsI64(summaries[i].spanCount)
                  && errors[i] == summaries[i].error
    {
      var s := summaries[n];
      traceIds := traceIds + [s.traceId];
      rootServices := rootServices + [s.rootService];
      rootNames := rootNames + [s.rootName];
      startTimes := startTimes + [s.startTime];
      durations := durations + [AsI64(s.durationNs)];
      spanCounts := spanCounts + [AsI64(s.spanCount)];
      errors := errors + [s.error];
    }
    r := TryNew(TRACE_SCHEMA,
                [Utf8Array(Present(traceIds)), Utf8Array(rootServices), Utf8Array(rootNames),
                 Int64Array(Present(startTimes)), Int64Array(Present(durations)),
                 Int64Array(Present(spanCounts)), BooleanArray(Present(errors))]);
    TraceReadBack(r.value, summaries);
  }

  // ---- Exemplars ---------------------------------------------------------------------------------

  /** An exemplar, with its ids already in hex when it has them. */
  datatype Exemplar = Exemplar(
    time: I64,
    value: F64,
    traceId: Option<Str>,
    spanId: Option<Str>,
    attributes: Str)

  const EXEMPLAR_SCHEMA: Schema := [
    Field("time", Int64Type, false),
    Field("value", Float64Type, false),
    Field("trace_id", Utf8Type, true),
    Field("span_id", Utf8Type, true),
    Field("attributes", Utf8Type, false)]

  function ExemplarRow(e: Exemplar): seq<Value> {
    [Int(Some(e.time)), Float(Some(e.value)), Text(e.traceId), Text(e.spanId), Text(Some(e.attributes))]
  }

  /** The five columns of an exemplar, by name. */
  ghost predicate ExemplarReads(b: Batch, i: nat, e: Exemplar) {
    && Reads(b, i, "time", Int(Some(e.time)))
    && Reads(b, i, "value", Float(Some(e.value)))
    && Reads(b, i, "trace_id", Text(e.traceId))
    && Reads(b, i, "span_id", Text(e.spanId))
    && Reads(b, i, "attributes", Text(Some(e.attributes)))
  }

  lemma ExemplarNames()
    ensures forall j, k :: 0 <= j < k < |EXEMPLAR_SCHEMA| ==> EXEMPLAR_SCHEMA[j].name != EXEMPLAR_SCHEMA[k].name
    ensures NullableAre(EXEMPLAR_SCHEMA, {"trace_id", "span_id"})
  {
  }

  lemma ExemplarByName(b: Batch, i: nat, e: Exemplar)
    requires b.schema == EXEMPLAR_SCHEMA && |b.columns| == |b.schema| && Rectangular(b) && i < b.rows
    requires Row(b, i) == ExemplarRow(e)
    ensures ExemplarReads(b, i, e)
  {
    ExemplarNames();
    ReadsColumn(b, i, 0);
    ReadsColumn(b, i, 1);
    ReadsColumn(b, i, 2);
    ReadsColumn(b, i, 3);
    ReadsColumn(b, i, 4);
    assert Row(b, i)[0] == Int(Some(e.time));
    assert Row(b, i)[1] == Float(Some(e.value));
    assert Row(b, i)[2] == Text(e.traceId);
    assert Row(b, i)[3] == Text(e.spanId);
    assert Row(b, i)[4] == Text(Some(e.attributes));
  }

  lemma ExemplarReadBack(b: Batch, records: seq<Exemplar>)
    requires b.schema == EXEMPLAR_SCHEMA && |b.columns| == |b.schema| && Rectangular(b) && b.rows == |records|
    requires forall i :: 0 <= i < |records| ==> Row(b, i) == ExemplarRow(records[i])
    ensures forall i :: 0 <= i < |records| ==> ExemplarReads(b, i, records[i])
    ensures NullableAre(b.schema, {"trace_id", "span_id"})
  {
    ExemplarNames();
    forall i | 0 <= i < |records| ensures ExemplarReads(b, i, records[i]) {
      ExemplarByName(b, i, records[i]);
    }
  }

  /** The loop and batch of `imbh_db_metric_exemplars`. */
  method ExemplarBatch(exemplars: seq<Exemplar>) returns (r: Result<Batch, CallError>)
    ensures r.Ok? && r.value.schema == EXEMPLAR_SCHEMA && r.value.rows == |exemplars| && Rectangular(r.value)
    ensures forall i :: 0 <= i < |exemplars| ==> Row(r.value, i) == ExemplarRow(exemplars[i])
    ensures forall i :: 0 <= i < |exemplars| ==>
              var e := exemplars[i];
              && Reads(r.value, i, "time", Int(Some(e.time)))
              && Reads(r.value, i, "value", Float(Some(e.value)))
              && Reads(r.value, i, "trace_id", Text(e.traceId))
              && Reads(r.value, i, "span_id", Text(e.spanId))
              && Reads(r.value, i, "attributes", Text(Some(e.attributes)))
    ensures NullableAre(r.value.schema, {"trace_id", "span_id"})
  {
    var times: seq<I64> := [];
    var values: seq<F64> := [];
    var traceIds: seq<Option<Str>> := [];
    var spanIds: seq<Option<Str>> := [];
    var attributes: seq<Str> := [];
    for n := 0 to |exemplars|
      invariant |times| == |values| == |traceIds| == |spanIds| == |attributes| == n
      invariant forall i :: 0 <= i < n ==>
                  && times[i] == exemplars[i].time
                  && values[i] == exemplars[i].value
                  && traceIds[i] == exemplars[i].traceId
                  && spanIds[i] == exemplars[i].spanId
                  && attributes[i] == exemplars[i].attributes
    {
      var e := exemplars[n];
      times := times + [e.time];
      values := values + [e.value];
      traceIds := traceIds + [e.traceId];
      spanIds := spanIds + [e.spanId];
      attributes := attributes + [e.attributes];
    }
    r := TryNew(EXEMPLAR_SCHEMA,
                [Int64Array(Present(times)), Float64Array(Present(values)), Utf8Array(traceIds),
                 Utf8Array(spanIds), Utf8Array(Present(attributes))]);
    ExemplarReadBack(r.value, exemplars);
  }

  // ---- Log volume --------------------------------------------------------------------------------

  /** A volume bucket, with its labels already rendered as canonical JSON. */
  datatype Bucket = Bucket(time: I64, labels: Str, count: U64)

  const VOLUME_SCHEMA: Schema := [
    Field("bucket_time", Int64Type, false),
    Field("labels", Utf8Type, false),
    Field("count", Int64Type, false)]

  function BucketRow(b: Bucket): seq<Value> {
    [Int(Some(b.time)), Text(Some(b.labels)), Int(Some(AsI64(b.count)))]
  }

  /** The three columns of a bucket, by name. */
  ghost predicate BucketReads(b: Batch, i: nat, k: Bucket) {
    && Reads(b, i, "bucket_time", Int(Some(k.time)))
    && Reads(b, i, "labels", Text(Some(k.labels)))
    && Reads(b, i, "count", Int(Some(AsI64(k.count))))
  }

  lemma BucketNames()
    ensures forall j, k :: 0 <= j < k < |VOLUME_SCHEMA| ==> VOLUME_SCHEMA[j].name != VOLUME_SCHEMA[k].name
    ensures NullableAre(VOLUME_SCHEMA, {})
  {
  }

  lemma BucketByName(b: Batch, i: nat, k: Bucket)
    requires b.schema == VOLUME_SCHEMA && |b.columns| == |b.schema| && Rectangular(b) && i < b.rows
    requires Row(b, i) == BucketRow(k)
    ensures BucketReads(b, i, k)
  {
    BucketNames();
    ReadsColumn(b, i, 0);
    ReadsColumn(b, i, 1);
    ReadsColumn(b, i, 2);
    assert Row(b, i)[0] == Int(Some(k.time));
    assert Row(b, i)[1] == Text(Some(k.labels));
    assert Row(b, i)[2] == Int(Some(AsI64(k.count)));
  }

  lemma BucketReadBack(b: Batch, records: seq<Bucket>)
    requires b.schema == VOLUME_SCHEMA && |b.columns| == |b.schema| && Rectangular(b) && b.rows == |records|
    requires forall i :: 0 <= i < |records| ==> Row(b, i) == BucketRow(records[i])
    ensures forall i :: 0 <= i < |records| ==> BucketReads(b, i, records[i])
    ensures NullableAre(b.schema, {})
  {
    BucketNames();
    forall i | 0 <= i < |records| ensures BucketReads(b, i, records[i]) {
      BucketByName(b, i, records[i]);
    }
  }

  /** The loop of `imbh_db_logs_volume` and `volume_batch`. */
  method VolumeBatch(buckets: seq<Bucket>) returns (r: Result<Batch, CallError>)
    ensures r.Ok? && r.value.schema == VOLUME_SCHEMA && r.value.rows == |buckets| && Rectangular(r.value)
    ensures forall i :: 0 <= i < |buckets| ==> Row(r.value, i) == BucketRow(buckets[i])
    ensures forall i :: 0 <= i < |buckets| ==>
              var k := buckets[i];
              && Reads(r.value, i, "bucket_time", Int(Some(k.time)))
              && Reads(r.value, i, "labels", Text(Some(k.labels)))
              && Reads(r.value, i, "count", Int(Some(AsI64(k.count))))
    ensures NullableAre(r.value.schema, {})
  {
    var times: seq<I64> := [];
    var labels: seq<Str> := [];
    var counts: seq<I64> := [];
    for n := 0 to |buckets|
      invariant |times| == |labels| == |counts| == n
      invariant forall i :: 0 <= i < n ==>
                  times[i] == buckets[i].time && labels[i] == buckets[i].labels && counts[i] == AsI64(buckets[i].count)
    {
      times := times + [buckets[n].time];
      labels := labels + [buckets[n].labels];
      counts := counts + [AsI64(buckets[n].count)];
    }
    r := TryNew(VOLUME_SCHEMA,
                [Int64Array(Present(times)), Utf8Array(Present(labels)), Int64Array(Present(counts))]);
    BucketReadBack(r.value, buckets);
  }

  /**
   Reading the count column as signed numbers gives every bucket's count exactly when no count reaches
   2^63; reading the same bits as unsigned numbers always does.
   */
  lemma CountsReadBackIff(buckets: seq<Bucket>)
    ensures (forall i :: 0 <= i < |buckets| ==> BucketRow(buckets[i])[2].i.value == buckets[i].count)
            <==> forall i :: 0 <= i < |buckets| ==> buckets[i].count < TWO_63
    ensures forall i :: 0 <= i < |buckets| ==> AsU64(BucketRow(buckets[i])[2].i.value) == buckets[i].count
  {
    forall i | 0 <= i < |buckets|
      ensures BucketRow(buckets[i])[2].i.value == buckets[i].count <==> buckets[i].count < TWO_63
      ensures AsU64(BucketRow(buckets[i])[2].i.value) == buckets[i].count
    {
      CastKeepsBits(buckets[i].count);
    }
  }
}
