/**
 From a list of batches to an exported stream (src/arrow_stream.rs), and the consumer that drains and
 releases it (examples/c/quickstart.c). Release callbacks require a struct that is not yet released, so
 a verified consumer uses nothing after its release and releases nothing twice.
 */
module Drain {
  import opened Prelude
  import opened Utf8
  import opened ErrorChannel
  import opened Columns

  /** What happens to a stream and to the arrays pulled from it, in time order. */
  datatype StreamEvent = PulledArray(k: nat) | ReleasedArray(k: nat) | NoArray | ReleasedStream

  /** `struct ArrowArray` holding the `k`-th batch of a stream. */
  class ArrayStruct {
    const batch: Batch
    const k: nat
    ghost const stream: ExportedStream
    var released: bool

    constructor (batch: Batch, k: nat, ghost stream: ExportedStream)
      ensures this.batch == batch && this.k == k && this.stream == stream && !released
    {
      this.batch, this.k, this.stream := batch, k, stream;
      released := false;
    }

    method Release()
      requires !released
      modifies this, stream`trace
      ensures released && stream.trace == old(stream.trace) + [ReleasedArray(k)]
    {
      released := true;
      stream.trace := stream.trace + [ReleasedArray(k)];
    }
  }

  /** `struct ArrowSchema`. */
  class SchemaStruct {
    const fields: Schema
    var released: bool

    constructor (fields: Schema)
      ensures this.fields == fields && !released
    {
      this.fields := fields;
      released := false;
    }

    method Release()
      requires !released
      modifies this
      ensures released
    {
      released := true;
    }
  }

  /** When the stream's callbacks report an error: `get_schema`, and the `k`-th call of `get_next`. */
  datatype Faults = Faults(schema: bool, next: Option<nat>)

  /** `struct ArrowArrayStream` over an iterator of batches. */
  class ExportedStream {
    const schema: Schema
    const batches: seq<Batch>
    const faults: Faults
    var pos: nat
    var released: bool
    ghost var trace: seq<StreamEvent>

    constructor (schema: Schema, batches: seq<Batch>, faults: Faults)
      ensures this.schema == schema && this.batches == batches && this.faults == faults
      ensures pos == 0 && !released && trace == []
    {
      this.schema, this.batches, this.faults := schema, batches, faults;
      pos, released, trace := 0, false, [];
    }

    method GetSchema() returns (rc: int, out: SchemaStruct?)
      requires !released
      ensures rc != 0 <==> faults.schema
      ensures rc == 0 ==> out != null && fresh(out) && !out.released && out.fields == schema
    {
      if faults.schema {
        return 5, null;
      }
      var s := new SchemaStruct(schema);
      return 0, s;
    }

    /** A null array stands for the released array that marks the end of the stream. */
    method GetNext() returns (rc: int, out: ArrayStruct?)
      requires !released && pos <= |batches|
      modifies this`pos, this`trace
      ensures rc != 0 <==> faults.next == Some(old(pos))
      ensures trace == old(trace) + [if rc == 0 && out != null then PulledArray(old(pos)) else NoArray]
      ensures rc != 0 || old(pos) == |batches| ==> pos == old(pos)
      ensures rc == 0 && old(pos) == |batches| ==> out == null
      ensures rc == 0 && old(pos) < |batches| ==>
                && pos == old(pos) + 1 && out != null && fresh(out) && !out.released
                && out.batch == batches[old(pos)] && out.k == old(pos) && out.stream == this
    {
      if faults.next == Some(pos) {
        trace := trace + [NoArray];
        return 5, null;
      }
      if pos == |batches| {
        trace := trace + [NoArray];
        return 0, null;
      }
      var a := new ArrayStruct(batches[pos], pos, this);
      trace := trace + [PulledArray(pos)];
      pos := pos + 1;
      return 0, a;
    }

    method Release()
      requires !released
      modifies this`released, this`trace
      ensures released && trace == old(trace) + [ReleasedStream]
    {
      released := true;
      trace := trace + [ReleasedStream];
    }
  }

  /** `export_batches_infer`: the schema is the first batch's, or empty when there is none. */
  method ExportBatchesInfer(batches: seq<Batch>, faults: Faults) returns (s: ExportedStream)
    ensures fresh(s) && s.batches == batches && s.faults == faults && s.pos == 0 && !s.released && s.trace == []
    ensures batches != [] ==> s.schema == batches[0].schema
    ensures batches == [] ==> s.schema == []
  {
    var schema := if batches == [] then [] else batches[0].schema;
    s := new ExportedStream(schema, batches, faults);
  }

  /** `imbh_db*`. */
  class Handle {
    var freed: bool

    constructor ()
      ensures !freed
    {
      freed := false;
    }

    method Free()
      requires !freed
      modifies this
      ensures freed
    {
      freed := true;
    }
  }

  /** What the world decides in one execution of the example. */
  datatype Scenario = Scenario(open: Body, ingest: Body, query: Body, batches: seq<Batch>, faults: Faults)

  /** The first guarded call that fails, if any. */
  function FirstFailure(w: Scenario): Option<Body> {
    if w.open != Returns then Some(w.open)
    else if w.ingest != Returns then Some(w.ingest)
    else if w.query != Returns then Some(w.query)
    else None
  }

  /** The failure that is reported is the earliest: the calls before it, in program order, returned. */
  lemma FirstFailureIsEarliest(w: Scenario, i: nat)
    requires i < 3
    ensures var calls := [w.open, w.ingest, w.query];
            calls[i] != Returns && (forall j :: 0 <= j < i ==> calls[j] == Returns) ==>
              FirstFailure(w) == Some(calls[i])
    ensures FirstFailure(w).None? <==> w.open == Returns && w.ingest == Returns && w.query == Returns
  {
    var calls := [w.open, w.ingest, w.query];
    assert calls[0] == w.open && calls[1] == w.ingest && calls[2] == w.query;
  }

  function SumRows(batches: seq<Batch>): nat {
    if batches == [] then 0 else SumRows(batches[..|batches| - 1]) + batches[|batches| - 1].rows
  }

  /** The total is that of the parts, and a batch counts with its rows. */
  lemma {:induction false} SumRowsLaws(a: seq<Batch>, b: seq<Batch>, one: Batch)
    ensures SumRows([one]) == one.rows
    ensures SumRows(a + b) == SumRows(a) + SumRows(b)
    decreases |b|
  {
    assert [one][..0] == [];
    if b == [] {
      assert a + b == a;
    } else {
      var n := |b| - 1;
      SumRowsLaws(a, b[..n], one);
      assert (a + b)[..|a + b| - 1] == a + b[..n];
    }
  }

  /** The rows of a batch, each read across the columns. */
  function RowList(b: Batch): (rows: seq<seq<Value>>)
    requires Rectangular(b)
    ensures |rows| == b.rows
  {
    seq(b.rows, i requires 0 <= i < b.rows => Row(b, i))
  }

  /** All rows of a list of batches, one batch after the other. */
  function AllRows(batches: seq<Batch>): seq<seq<Value>>
    requires forall b :: b in batches ==> Rectangular(b)
  {
    if batches == [] then [] else RowList(batches[0]) + AllRows(batches[1..])
  }

  /** The total is the number of rows that a consumer reads out of all the batches. */
  lemma {:induction false} TotalIsRowsRead(batches: seq<Batch>)
    requires forall b :: b in batches ==> Rectangular(b)
    ensures SumRows(batches) == |AllRows(batches)|
  {
    if batches != [] {
      TotalIsRowsRead(batches[1..]);
      SumRowsLaws([batches[0]], batches[1..], batches[0]);
      assert [batches[0]] + batches[1..] == batches;
    }
  }

  /** The number of batches pulled before an error or the end of the stream. */
  function Pulled(w: Scenario): nat {
    if w.faults.schema then 0
    else if w.faults.next.Some? && w.faults.next.value <= |w.batches| then w.faults.next.value
    else |w.batches|
  }

  predicate StreamFails(w: Scenario) {
    w.faults.schema || (w.faults.next.Some? && w.faults.next.value <= |w.batches|)
  }

  lemma WrapAdd(a: int, b: int)
    ensures AsI64(AsI64(a) + b) == AsI64(a + b)
  {
    var k := (a - AsI64(a)) / TWO_64;
    assert a == AsI64(a) + k * TWO_64;
    assert (AsI64(a) + b + k * TWO_64) % TWO_64 == (AsI64(a) + b) % TWO_64;
  }

  lemma WrapIsExact(a: nat)
    ensures AsI64(a) == a <==> a < TWO_63
  {
  }

  lemma TotalIs(batches: seq<Batch>)
    ensures AsI64(SumRows(batches)) == SumRows(batches) <==> SumRows(batches) < TWO_63
    ensures (forall b :: b in batches ==> Rectangular(b)) ==> SumRows(batches) == |AllRows(batches)|
  {
    WrapIsExact(SumRows(batches));
    if forall b :: b in batches ==> Rectangular(b) {
      TotalIsRowsRead(batches);
    }
  }

  /** `fail`: prints the calling thread's message, which is still that of the failed call `b`. */
  method Fail(errors: LastErrors, t: Thread, ghost b: Body) returns (exit: int, printed: Bytes)
    requires b != Returns && t in errors.slots && errors.slots[t] == Stored(MessageOf(b))
    ensures exit == 1 && printed == Encode(Clean(MessageOf(b)))
  {
    StoredReadsBack(MessageOf(b));
    var m := errors.LastErrorMessage(t);
    match m {
      case At(mem) => printed := ScanToNul(mem);
      case Null => printed := Encode(Ascii("(no message)"));
    }
    exit := 1;
  }

  /** The guarded calls of `main`; a failing one frees the handle, then reports, then returns. */
  method Start(w: Scenario, errors: LastErrors, t: Thread)
    returns (exit: int, printed: Option<Bytes>, db: Handle?)
    modifies errors
    ensures db != null <==> w.open == Returns
    ensures db != null ==> fresh(db) && db.freed == FirstFailure(w).Some?
    ensures FirstFailure(w).Some? ==>
              exit == 1 && printed == Some(Encode(Clean(MessageOf(FirstFailure(w).value))))
    ensures FirstFailure(w).None? ==> printed == None
  {
    exit, printed, db := 0, None, null;
    var text: Bytes;
    var code := errors.Guard(t, w.open);
    if code != CodeOk {
      exit, text := Fail(errors, t, w.open);
      printed := Some(text);
      return;
    }
    db := new Handle();
    code := errors.Guard(t, w.ingest);
    if code != CodeOk {
      db.Free();
      exit, text := Fail(errors, t, w.ingest);
      printed := Some(text);
      return;
    }
    code := errors.Guard(t, w.query);
    if code != CodeOk {
      db.Free();
      exit, text := Fail(errors, t, w.query);
      printed := Some(text);
    }
  }

  /** The first `n` arrays, each released before the next is pulled. */
  function InTurn(n: nat): seq<StreamEvent> {
    if n == 0 then [] else InTurn(n - 1) + [PulledArray(n - 1), ReleasedArray(n - 1)]
  }

  /** Array `k` is pulled as event `2k` and released as event `2k + 1`. */
  lemma {:induction false} InTurnAt(n: nat, k: nat)
    requires k < n
    ensures |InTurn(n)| == 2 * n && InTurn(n)[2 * k] == PulledArray(k) && InTurn(n)[2 * k + 1] == ReleasedArray(k)
    decreases n
  {
    if k < n - 1 {
      InTurnAt(n - 1, k);
    } else if n > 1 {
      InTurnAt(n - 1, n - 2);
    }
  }

  /**
   The drain loop: batches in order, each array released before the next is pulled. The total is exact
   below 2^63 rows; from there on the C addition overflows, and the wrapped value is what a compiler that
   defines signed overflow as wrapping gives.
   */
  method DrainLoop(stream: ExportedStream)
    returns (ok: bool, rows: I64, batches: nat, ghost arrays: seq<ArrayStruct>)
    requires !stream.released && stream.pos == 0 && stream.trace == []
    modifies stream`pos, stream`trace
    ensures stream.trace == InTurn(batches) + [NoArray]
    ensures ok <==> !(stream.faults.next.Some? && stream.faults.next.value <= |stream.batches|)
    ensures stream.pos == batches == |arrays|
    ensures batches == if ok then |stream.batches| else stream.faults.next.value
    ensures forall i :: 0 <= i < |arrays| ==>
              i < |stream.batches| && fresh(arrays[i]) && arrays[i].released && arrays[i].batch == stream.batches[i]
    ensures batches <= |stream.batches| && rows == AsI64(SumRows(stream.batches[..batches]))
    ensures rows == SumRows(stream.batches[..batches]) <==> SumRows(stream.batches[..batches]) < TWO_63
    ensures (forall b :: b in stream.batches ==> Rectangular(b)) && SumRows(stream.batches[..batches]) < TWO_63 ==>
              rows == |AllRows(stream.batches[..batches])|
  {
    rows, batches, arrays, ok := 0, 0, [], true;
    while true
      invariant !stream.released && batches == stream.pos == |arrays| <= |stream.batches|
      invariant stream.trace == InTurn(batches)
      invariant rows == AsI64(SumRows(stream.batches[..batches]))
      invariant stream.faults.next.Some? ==> batches <= stream.faults.next.value
      invariant forall i :: 0 <= i < |arrays| ==>
                  fresh(arrays[i]) && arrays[i].released && arrays[i].batch == stream.batches[i]
      decreases |stream.batches| - batches
    {
      var rc, arr := stream.GetNext();
      if rc != 0 {
        ok := false;
        TotalIs(stream.batches[..batches]);
        return;
      }
      if arr == null {
        break;
      }
      WrapAdd(SumRows(stream.batches[..batches]), arr.batch.rows);
      assert stream.batches[..batches + 1][..batches] == stream.batches[..batches];
      rows := AsI64(rows + arr.batch.rows);
      batches := batches + 1;
      arr.Release();
      assert InTurn(batches - 1) + [PulledArray(batches - 1)] + [ReleasedArray(batches - 1)] == InTurn(batches);
      arrays := arrays + [arr];
    }
    TotalIs(stream.batches[..batches]);
  }

  /**
   The example's `main`. On every exit path each array and the schema are released, the stream is
   released and the handle freed, each once; a failing call's own message is printed, although the
   handle was freed before it is read; and the exit code tells the three outcomes apart.
   */
  method Quickstart(w: Scenario, errors: LastErrors, t: Thread)
    returns (exit: int, printed: Option<Bytes>, db: Handle?, stream: ExportedStream?, schema: SchemaStruct?,
             ghost arrays: seq<ArrayStruct>)
    modifies errors
    ensures db != null <==> w.open == Returns
    ensures db != null ==> fresh(db) && db.freed
    ensures stream != null <==> FirstFailure(w) == None
    ensures stream != null ==> fresh(stream) && stream.released && stream.pos == |arrays| == Pulled(w)
    ensures stream != null ==>
              stream.trace == (if w.faults.schema then [] else InTurn(Pulled(w)) + [NoArray]) + [ReleasedStream]
    ensures schema != null <==> FirstFailure(w) == None && !w.faults.schema
    ensures schema != null ==>
              schema.released && schema.fields == if w.batches == [] then [] else w.batches[0].schema
    ensures forall i :: 0 <= i < |arrays| ==>
              i < |w.batches| && arrays[i].released && arrays[i].batch == w.batches[i]
    ensures FirstFailure(w).Some? ==>
              exit == 1 && arrays == [] && printed == Some(Encode(Clean(MessageOf(FirstFailure(w).value))))
    ensures FirstFailure(w).None? ==> printed == None
    ensures FirstFailure(w).None? && (StreamFails(w) || SumRows(w.batches) < TWO_63) ==>
              exit == if StreamFails(w) then 1 else if SumRows(w.batches) == 2 then 0 else 2
    ensures FirstFailure(w).None? && !StreamFails(w) && SumRows(w.batches) < TWO_63
            && (forall b :: b in w.batches ==> Rectangular(b)) ==>
              exit == if |AllRows(w.batches)| == 2 then 0 else 2
    ensures FirstFailure(w).None? ==>
              exit == if StreamFails(w) then 1 else if AsI64(SumRows(w.batches)) == 2 then 0 else 2
  {
    stream, schema, arrays := null, null, [];
    exit, printed, db := Start(w, errors, t);
    if printed.Some? {
      return;
    }
    stream := ExportBatchesInfer(w.batches, w.faults);
    var rc;
    rc, schema := stream.GetSchema();
    if rc != 0 {
      schema := null;
      stream.Release();
      db.Free();
      exit := 1;
      return;
    }
    schema.Release();
    var ok, rows, batches;
    ok, rows, batches, arrays := DrainLoop(stream);
    stream.Release();
    db.Free();
    if !ok {
      exit := 1;
      return;
    }
    assert w.batches[..batches] == w.batches;
    exit := if rows == 2 then 0 else 2;
  }
}
