/**
 Ownership across the boundary: resources that Rust hands out as raw pointers (src/lib.rs, src/query.rs),
 the C++ wrappers that own, move, relinquish and free them (include/imbh.hpp), and every finite run of
 wrapper operations.
 */
module Ownership {
  import opened Prelude
  import opened ErrorChannel
  import opened CArgs

  // ---- The Rust side: resources and their release ------------------------------------------------

  datatype BuilderKind = LogB | MetricB | SpanMetricsB | TraceB | MetricPointsB

  datatype Kind = DbHandle | Builder(b: BuilderKind) | Buffer(len: nat) | ArrowStream

  /** A resource ever handed out, with the number of times it was released. */
  datatype Cell = Cell(kind: Kind, releases: nat)

  /**
   All resources, by identity. `fault` records that some operation used or released a resource that was
   not live, or released it with the wrong type or length.
   */
  datatype Heap = Heap(cells: seq<Cell>, fault: bool)

  predicate Live(h: Heap, id: nat, kind: Kind) {
    id < |h.cells| && h.cells[id] == Cell(kind, 0)
  }

  function Alloc(h: Heap, kind: Kind): Heap {
    h.(cells := h.cells + [Cell(kind, 0)])
  }

  function Release(h: Heap, id: nat, kind: Kind): Heap {
    if Live(h, id, kind) then h.(cells := h.cells[id := Cell(kind, 1)])
    else if id < |h.cells| then
      Heap(h.cells[id := Cell(h.cells[id].kind, h.cells[id].releases + 1)], true)
    else h.(fault := true)
  }

  /** Dereferencing a pointer to a resource. */
  function Touch(h: Heap, id: nat, kind: Kind): Heap {
    if Live(h, id, kind) then h else h.(fault := true)
  }

  datatype Ptr = Null | At(id: nat)

  /** `imbh_*_query_free`, `imbh_db_free`: null is a no-op. */
  function FreePtr(h: Heap, p: Ptr, kind: Kind): Heap {
    match p
    case Null => h
    case At(id) => Release(h, id, kind)
  }

  /** A data pointer of `imbh_bytes`; an empty boxed slice has a non-null address that owns nothing. */
  datatype DataPtr = NoData | Dangling | DataAt(id: nat)

  datatype BytesSlot = BytesSlot(data: DataPtr, len: nat)

  const NO_BYTES: BytesSlot := BytesSlot(NoData, 0)

  /** `make_bytes`. */
  function MakeBytes(h: Heap, len: nat): (Heap, BytesSlot) {
    if len == 0 then (h, BytesSlot(Dangling, 0))
    else (Alloc(h, Buffer(len)), BytesSlot(DataAt(|h.cells|), len))
  }

  /** `imbh_bytes_free`: the region handed back is `len` bytes at `data`. */
  function FreeBytes(h: Heap, b: BytesSlot): Heap {
    if b.data != NoData && b.len > 0 then
      match b.data
      case DataAt(id) => Release(h, id, Buffer(b.len))
      case _ => h.(fault := true)
    else h
  }

  /**
   An `ArrowArrayStream` struct: whether its release callback is non-null, and its private data. A
   released (or moved-from) struct keeps stale private data.
   */
  datatype StreamSlot = StreamSlot(release: bool, data: nat)

  const NO_STREAM: StreamSlot := StreamSlot(false, 0)

  /** A call's builder argument: none, or a builder pointer of some kind. */
  datatype BuilderArg = NoBuilder | WithBuilder(b: BuilderKind, q: Ptr)

  datatype Reply<T> = Reply(heap: Heap, out: T, body: Body)

  /** The message for a null builder of each kind. */
  function NullBuilder(b: BuilderKind): Body {
    Fails(Misuse(
      match b
      case LogB => NULL_LOG_QUERY
      case MetricB => "null imbh_metric_query"
      case SpanMetricsB => "null imbh_span_metrics_query"
      case TraceB => "null imbh_trace_query"
      case MetricPointsB => NULL_POINTS_QUERY))
  }

  /** Checks and dereferences the handle and the builder, then ends as `engine` does. */
  function Enter(h: Heap, db: Ptr, q: BuilderArg, engine: Body): (Heap, Body) {
    match db
    case Null => (h, Fails(Misuse(NULL_DB)))
    case At(id) =>
      var h1 := Touch(h, id, DbHandle);
      match q
      case NoBuilder => (h1, engine)
      case WithBuilder(b, Null) => (h1, NullBuilder(b))
      case WithBuilder(b, At(qid)) => (Touch(h1, qid, Builder(b)), engine)
  }

  /** An entry point that exports a stream with `ptr::write(out, ...)` as its last action. */
  function CallForStream(h: Heap, db: Ptr, q: BuilderArg, out: StreamSlot, engine: Body): Reply<StreamSlot> {
    var (h1, body) := Enter(h, db, q, engine);
    if body == Returns then Reply(Alloc(h1, ArrowStream), StreamSlot(true, |h1.cells|), Returns)
    else Reply(h1, out, body)
  }

  /** An entry point that hands back bytes. */
  function CallForBytes(h: Heap, db: Ptr, out: BytesSlot, len: nat, engine: Body): Reply<BytesSlot> {
    var (h1, body) := Enter(h, db, NoBuilder, engine);
    if body == Returns then
      var (h2, b) := MakeBytes(h1, len);
      Reply(h2, b, Returns)
    else Reply(h1, out, body)
  }

  /** `imbh_db_open*` through a non-null out pointer. */
  function CallOpen(h: Heap, out: Ptr, engine: Body): Reply<Ptr> {
    if engine == Returns then Reply(Alloc(h, DbHandle), At(|h.cells|), Returns) else Reply(h, out, engine)
  }

  /** A setter or adder: the builder pointer is checked before the arguments. */
  function CallSetter(h: Heap, b: BuilderKind, q: Ptr, engine: Body): (Heap, Body) {
    match q
    case Null => (h, NullBuilder(b))
    case At(id) => (Touch(h, id, Builder(b)), engine)
  }

  // ---- The C++ side: what each wrapper method does to its fields ---------------------------------

  /** `Stream::reset`; the release callback itself marks the struct released. */
  function StreamReset(h: Heap, s: StreamSlot): (Heap, StreamSlot) {
    (if s.release then Release(h, s.data, ArrowStream) else h, s.(release := false))
  }

  /** `Stream::release`: the struct handed to the caller, and the one left behind. */
  function StreamRelinquish(s: StreamSlot): (StreamSlot, StreamSlot) {
    (s, s.(release := false))
  }

  /** `Stream& operator=(Stream&&)` for two distinct objects: heap, target, source. */
  function StreamAssign(h: Heap, to: StreamSlot, from: StreamSlot): (Heap, StreamSlot, StreamSlot) {
    (StreamReset(h, to).0, from, from.(release := false))
  }

  /** `Bytes::reset`. */
  function BytesReset(h: Heap, b: BytesSlot): (Heap, BytesSlot) {
    (if b.data != NoData then FreeBytes(h, b) else h, NO_BYTES)
  }

  function BytesAssign(h: Heap, to: BytesSlot, from: BytesSlot): (Heap, BytesSlot, BytesSlot) {
    (BytesReset(h, to).0, from, NO_BYTES)
  }

  /** `operator=(T&&)` of `Db` and of the five query builders, for two distinct objects. */
  function PtrAssign(h: Heap, kind: Kind, to: Ptr, from: Ptr): (Heap, Ptr, Ptr) {
    (FreePtr(h, to, kind), from, Null)
  }

  /** The fields of a wrapper object. */
  datatype Wrapper =
    | AStream(s: StreamSlot)
    | ABytes(b: BytesSlot)
    | ABuilder(k: BuilderKind, q: Ptr)
    | ADb(h: Ptr)

  /** The heap after the wrapper's destructor. */
  function Destroyed(h: Heap, w: Wrapper): Heap {
    match w
    case AStream(s) => StreamReset(h, s).0
    case ABytes(b) => BytesReset(h, b).0
    case ABuilder(k, q) => FreePtr(h, q, Builder(k))
    case ADb(p) => FreePtr(h, p, DbHandle)
  }

  /** A wrapper whose value was moved out. */
  function MovedFrom(w: Wrapper): Wrapper {
    match w
    case AStream(s) => AStream(s.(release := false))
    case ABytes(_) => ABytes(NO_BYTES)
    case ABuilder(k, _) => ABuilder(k, Null)
    case ADb(_) => ADb(Null)
  }

  /** Two wrappers have the same C++ class. */
  predicate SameClass(a: Wrapper, b: Wrapper) {
    || (a.AStream? && b.AStream?)
    || (a.ABytes? && b.ABytes?)
    || (a.ABuilder? && b.ABuilder? && a.k == b.k)
    || (a.ADb? && b.ADb?)
  }

  /** Move assignment of two distinct objects of the same class: heap, target, source. */
  function Assigned(h: Heap, to: Wrapper, from: Wrapper): (Heap, Wrapper, Wrapper)
    requires SameClass(to, from)
  {
    match from
    case AStream(f) =>
      var (h', t', f') := StreamAssign(h, to.s, f);
      (h', AStream(t'), AStream(f'))
    case ABytes(f) =>
      var (h', t', f') := BytesAssign(h, to.b, f);
      (h', ABytes(t'), ABytes(f'))
    case ABuilder(k, f) =>
      var (h', t', f') := PtrAssign(h, Builder(k), to.q, f);
      (h', ABuilder(k, t'), ABuilder(k, f'))
    case ADb(f) =>
      var (h', t', f') := PtrAssign(h, DbHandle, to.h, f);
      (h', ADb(t'), ADb(f'))
  }

  // ---- Runs --------------------------------------------------------------------------------------

  type Obj = nat

  /** The heap, the living wrapper objects, and the streams given away and not yet released. */
  datatype State = State(heap: Heap, objs: map<Obj, Wrapper>, given: set<nat>)

  const INITIAL: State := State(Heap([], false), map[], {})

  datatype Op =
    | NewStream(w: Obj)
    | NewBytes(w: Obj)
    | NewBuilder(w: Obj, k: BuilderKind)
    | OpenDb(w: Obj, engine: Body)
    | MoveConstruct(w: Obj, from: Obj)
    | MoveAssign(w: Obj, from: Obj)
    | Reset(w: Obj)
    | GiveAway(w: Obj)
    | Destroy(w: Obj)
    | QueryStream(w: Obj, db: Obj, builder: Option<Obj>, engine: Body)
    | QueryInto(w: Obj, db: Obj, builder: Option<Obj>, engine: Body)
    | QueryBytes(w: Obj, db: Obj, len: nat, engine: Body)
    | BytesInto(w: Obj, db: Obj, len: nat, engine: Body)
    | UseBuilder(w: Obj, engine: Body)
    | UseDb(w: Obj, engine: Body)
    | Pull(w: Obj)
    | ConsumerRelease(id: nat)

  /**
   The operations a well-typed program can perform in a state. The only conditions beyond C++ typing are
   two of the Arrow C stream interface: a released stream is not pulled from, and a consumer releases a
   stream it was given once. In particular a raw call may write into any slot that `get()` returned, also
   into one that owns a resource.
   */
  predicate Enabled(s: State, op: Op) {
    match op
    case NewStream(w) => w !in s.objs
    case NewBytes(w) => w !in s.objs
    case NewBuilder(w, _) => w !in s.objs
    case OpenDb(w, _) => w !in s.objs
    case MoveConstruct(w, from) => w !in s.objs && from in s.objs
    case MoveAssign(w, from) => w in s.objs && from in s.objs && SameClass(s.objs[w], s.objs[from])
    case Reset(w) => w in s.objs && (s.objs[w].AStream? || s.objs[w].ABytes?)
    case GiveAway(w) => w in s.objs && s.objs[w].AStream?
    case Destroy(w) => w in s.objs
    case QueryStream(w, db, b, _) =>
      w !in s.objs && db in s.objs && s.objs[db].ADb?
      && (b.Some? ==> b.value in s.objs && s.objs[b.value].ABuilder?)
    case QueryInto(w, db, b, _) =>
      w in s.objs && s.objs[w].AStream? && db in s.objs && s.objs[db].ADb?
      && (b.Some? ==> b.value in s.objs && s.objs[b.value].ABuilder?)
    case QueryBytes(w, db, _, _) => w !in s.objs && db in s.objs && s.objs[db].ADb?
    case BytesInto(w, db, _, _) =>
      w in s.objs && s.objs[w].ABytes? && db in s.objs && s.objs[db].ADb?
    case UseBuilder(w, _) => w in s.objs && s.objs[w].ABuilder?
    case UseDb(w, _) => w in s.objs && s.objs[w].ADb?
    case Pull(w) => w in s.objs && s.objs[w].AStream? && s.objs[w].s.release
    case ConsumerRelease(id) => id in s.given
  }

  function ArgOf(s: State, b: Option<Obj>): BuilderArg
    requires b.Some? ==> b.value in s.objs && s.objs[b.value].ABuilder?
  {
    match b
    case None => NoBuilder
    case Some(o) => WithBuilder(s.objs[o].k, s.objs[o].q)
  }

  /** `Stream s; check(imbh_db_...(h_, ..., s.get())); return s;` - the local is destroyed when it throws. */
  function QueryStreamStep(s: State, w: Obj, db: Ptr, q: BuilderArg, engine: Body): State {
    var r := CallForStream(s.heap, db, q, NO_STREAM, engine);
    if r.body == Returns then State(r.heap, s.objs[w := AStream(r.out)], s.given)
    else s.(heap := Destroyed(r.heap, AStream(r.out)))
  }

  function QueryBytesStep(s: State, w: Obj, db: Ptr, len: nat, engine: Body): State {
    var r := CallForBytes(s.heap, db, NO_BYTES, len, engine);
    if r.body == Returns then State(r.heap, s.objs[w := ABytes(r.out)], s.given)
    else s.(heap := Destroyed(r.heap, ABytes(r.out)))
  }

  /** The raw call on `s.get()` of a wrapper that already exists. */
  function QueryIntoStep(s: State, w: Obj, db: Ptr, q: BuilderArg, engine: Body): State
    requires w in s.objs && s.objs[w].AStream?
  {
    var r := CallForStream(s.heap, db, q, s.objs[w].s, engine);
    State(r.heap, s.objs[w := AStream(r.out)], s.given)
  }

  /** The raw call on `b.get()` of a wrapper that already exists. */
  function BytesIntoStep(s: State, w: Obj, db: Ptr, len: nat, engine: Body): State
    requires w in s.objs && s.objs[w].ABytes?
  {
    var r := CallForBytes(s.heap, db, s.objs[w].b, len, engine);
    State(r.heap, s.objs[w := ABytes(r.out)], s.given)
  }

  function Step(s: State, op: Op): State
    requires Enabled(s, op)
  {
    match op
    case NewStream(w) => s.(objs := s.objs[w := AStream(NO_STREAM)])
    case NewBytes(w) => s.(objs := s.objs[w := ABytes(NO_BYTES)])
    case NewBuilder(w, k) =>
      State(Alloc(s.heap, Builder(k)), s.objs[w := ABuilder(k, At(|s.heap.cells|))], s.given)
    case OpenDb(w, engine) =>
      var r := CallOpen(s.heap, Null, engine);
      if r.body == Returns then State(r.heap, s.objs[w := ADb(r.out)], s.given) else s.(heap := r.heap)
    case MoveConstruct(w, from) =>
      s.(objs := s.objs[w := s.objs[from]][from := MovedFrom(s.objs[from])])
    case MoveAssign(w, from) =>
      if w == from then s
      else
        var (h, t, f) := Assigned(s.heap, s.objs[w], s.objs[from]);
        State(h, s.objs[w := t][from := f], s.given)
    case Reset(w) => State(Destroyed(s.heap, s.objs[w]), s.objs[w := MovedFrom(s.objs[w])], s.given)
    case GiveAway(w) =>
      var (out, left) := StreamRelinquish(s.objs[w].s);
      State(s.heap, s.objs[w := AStream(left)], if out.release then s.given + {out.data} else s.given)
    case Destroy(w) => State(Destroyed(s.heap, s.objs[w]), s.objs - {w}, s.given)
    case QueryStream(w, db, b, engine) => QueryStreamStep(s, w, s.objs[db].h, ArgOf(s, b), engine)
    case QueryInto(w, db, b, engine) => QueryIntoStep(s, w, s.objs[db].h, ArgOf(s, b), engine)
    case QueryBytes(w, db, len, engine) => QueryBytesStep(s, w, s.objs[db].h, len, engine)
    case BytesInto(w, db, len, engine) => BytesIntoStep(s, w, s.objs[db].h, len, engine)
    case UseBuilder(w, engine) => s.(heap := CallSetter(s.heap, s.objs[w].k, s.objs[w].q, engine).0)
    case UseDb(w, engine) => s.(heap := Enter(s.heap, s.objs[w].h, NoBuilder, engine).0)
    case Pull(w) => s.(heap := Touch(s.heap, s.objs[w].s.data, ArrowStream))
    case ConsumerRelease(id) => State(Release(s.heap, id, ArrowStream), s.objs, s.given - {id})
  }

  /** The state after a run from `s`; an operation that is not enabled does not happen. */
  function Run(s: State, ops: seq<Op>): State
    decreases |ops|
  {
    if ops == [] then s
    else Run(if Enabled(s, ops[0]) then Step(s, ops[0]) else s, ops[1..])
  }

  /** How the call made by an operation ends; operations that make no guarded call return. */
  function Outcome(s: State, op: Op): Body
    requires Enabled(s, op)
  {
    match op
    case OpenDb(_, engine) => engine
    case QueryStream(_, db, b, engine) => Enter(s.heap, s.objs[db].h, ArgOf(s, b), engine).1
    case QueryInto(_, db, b, engine) => Enter(s.heap, s.objs[db].h, ArgOf(s, b), engine).1
    case QueryBytes(_, db, _, engine) => Enter(s.heap, s.objs[db].h, NoBuilder, engine).1
    case BytesInto(_, db, _, engine) => Enter(s.heap, s.objs[db].h, NoBuilder, engine).1
    case UseBuilder(w, engine) => CallSetter(s.heap, s.objs[w].k, s.objs[w].q, engine).1
    case UseDb(w, engine) => Enter(s.heap, s.objs[w].h, NoBuilder, engine).1
    case _ => Returns
  }

  // ---- The invariant -----------------------------------------------------------------------------

  /** The resource a wrapper must release, if any. */
  function Owns(w: Wrapper): Option<(nat, Kind)> {
    match w
    case AStream(s) => if s.release then Some((s.data, ArrowStream)) else None
    case ABytes(b) => if b.data.DataAt? && b.len > 0 then Some((b.data.id, Buffer(b.len))) else None
    case ABuilder(k, q) => if q.At? then Some((q.id, Builder(k))) else None
    case ADb(h) => if h.At? then Some((h.id, DbHandle)) else None
  }

  predicate OwnsId(w: Wrapper, id: nat) {
    Owns(w).Some? && Owns(w).value.0 == id
  }

  predicate WellFormed(w: Wrapper) {
    w.ABytes? ==> (w.b.len > 0 <==> w.b.data.DataAt?)
  }

  ghost predicate Owned(s: State, id: nat) {
    exists w :: w in s.objs && OwnsId(s.objs[w], id)
  }

  /** Nothing dead is held, and nothing was misused on the way here. */
  ghost predicate Sound(s: State) {
    && !s.heap.fault
    && (forall id :: 0 <= id < |s.heap.cells| ==> s.heap.cells[id].releases <= 1)
    && (forall w :: w in s.objs ==>
          WellFormed(s.objs[w])
          && (Owns(s.objs[w]).Some? ==> Live(s.heap, Owns(s.objs[w]).value.0, Owns(s.objs[w]).value.1)))
    && (forall id :: id in s.given ==> Live(s.heap, id, ArrowStream))
  }

  ghost predicate Unique(s: State) {
    && (forall v, w, id :: v in s.objs && w in s.objs && OwnsId(s.objs[v], id) && OwnsId(s.objs[w], id) ==> v == w)
    && (forall w, id :: w in s.objs && id in s.given ==> !OwnsId(s.objs[w], id))
  }

  /** `lost` are exactly the unreleased resources that no wrapper and no consumer holds. */
  ghost predicate LeaksAre(s: State, lost: set<nat>) {
    && (forall id :: id in lost ==> id < |s.heap.cells| && s.heap.cells[id].releases == 0 && id !in s.given)
    && (forall w, id :: w in s.objs && id in lost ==> !OwnsId(s.objs[w], id))
    && (forall id :: 0 <= id < |s.heap.cells| && s.heap.cells[id].releases == 0 ==>
          Owned(s, id) || id in s.given || id in lost)
  }

  ghost predicate Inv(s: State, lost: set<nat>) {
    Sound(s) && Unique(s) && LeaksAre(s, lost)
  }
}
