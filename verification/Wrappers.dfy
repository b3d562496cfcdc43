/**
 The C++ wrapper classes (include/imbh.hpp) and the entry points they call, with their fields updated in
 place. Each method is proved against the functions that the run model of module Ownership is built from.
 */
module Wrappers {
  import opened Prelude
  import opened Utf8
  import opened ErrorChannel
  import opened CArgs
  import opened Ownership

  /** The Rust library: its resources and the message slots of all threads. */
  class Library {
    var heap: Heap
    const errors: LastErrors

    constructor ()
      ensures heap == INITIAL.heap && fresh(errors) && errors.slots == map[]
    {
      heap := Heap([], false);
      errors := new LastErrors();
    }

    /** `drop(Box::from_raw(p))`, or a release callback. */
    method Drop(id: nat, kind: Kind)
      modifies this`heap
      ensures heap == Release(old(heap), id, kind)
    {
      if id < |heap.cells| {
        var c := heap.cells[id];
        var ok := c.kind == kind && c.releases == 0;
        heap := Heap(heap.cells[id := Cell(c.kind, c.releases + 1)], heap.fault || !ok);
      } else {
        heap := heap.(fault := true);
      }
    }

    /** `Box::into_raw(Box::new(...))`. */
    method Box(kind: Kind) returns (id: nat)
      modifies this`heap
      ensures heap == Alloc(old(heap), kind) && id == |old(heap).cells|
    {
      id := |heap.cells|;
      heap := heap.(cells := heap.cells + [Cell(kind, 0)]);
    }

    method Deref(id: nat, kind: Kind)
      modifies this`heap
      ensures heap == Touch(old(heap), id, kind)
    {
      if !(id < |heap.cells| && heap.cells[id] == Cell(kind, 0)) {
        heap := heap.(fault := true);
      }
    }

    method FreePointer(p: Ptr, kind: Kind)
      modifies this`heap
      ensures heap == FreePtr(old(heap), p, kind)
    {
      if p.At? {
        Drop(p.id, kind);
      }
    }

    /** `make_bytes`: an empty slice never allocates. */
    method MakeBytesOf(len: nat) returns (b: BytesSlot)
      modifies this`heap
      ensures (heap, b) == MakeBytes(old(heap), len)
    {
      if len == 0 {
        b := BytesSlot(Dangling, 0);
      } else {
        var id := Box(Buffer(len));
        b := BytesSlot(DataAt(id), len);
      }
    }

    /** `imbh_bytes_free`. */
    method BytesFree(b: BytesSlot)
      modifies this`heap
      ensures heap == FreeBytes(old(heap), b)
    {
      if b.data != NoData && b.len > 0 {
        if b.data.DataAt? {
          Drop(b.data.id, Buffer(b.len));
        } else {
          heap := heap.(fault := true);
        }
      }
    }

    /** `handle(db)?`, then the builder check, then the engine. */
    method EnterCall(db: Ptr, q: BuilderArg, engine: Body) returns (body: Body)
      modifies this`heap
      ensures (heap, body) == Enter(old(heap), db, q, engine)
    {
      if db.Null? {
        return Fails(Misuse(NULL_DB));
      }
      Deref(db.id, DbHandle);
      if q.WithBuilder? {
        if q.q.Null? {
          return NullBuilder(q.b);
        }
        Deref(q.q.id, Builder(q.b));
      }
      body := engine;
    }

    /** A guarded entry point with a stream out-pointer. */
    method ExportStream(t: Thread, db: Ptr, q: BuilderArg, out: Stream, engine: Body) returns (code: Code)
      modifies this`heap, errors, out
      ensures var r := CallForStream(old(heap), db, q, old(out.slot), engine);
              && heap == r.heap && out.slot == r.out && code == CodeOf(r.body)
              && errors.slots == AfterGuard(old(errors.slots), t, r.body)
    {
      var body := EnterCall(db, q, engine);
      if body == Returns {
        var id := Box(ArrowStream);
        out.slot := StreamSlot(true, id);
      }
      code := errors.Guard(t, body);
    }

    /** A guarded entry point with a bytes out-pointer. */
    method ExportBytes(t: Thread, db: Ptr, out: Bytes, len: nat, engine: Body) returns (code: Code)
      modifies this`heap, errors, out
      ensures var r := CallForBytes(old(heap), db, old(out.buf), len, engine);
              && heap == r.heap && out.buf == r.out && code == CodeOf(r.body)
              && errors.slots == AfterGuard(old(errors.slots), t, r.body)
    {
      var body := EnterCall(db, NoBuilder, engine);
      if body == Returns {
        var b := MakeBytesOf(len);
        out.buf := b;
      }
      code := errors.Guard(t, body);
    }

    /** `imbh_db_open*`: the handle is boxed and written last. */
    method OpenHandle(t: Thread, engine: Body) returns (code: Code, out: Ptr)
      modifies this`heap, errors
      ensures var r := CallOpen(old(heap), Ptr.Null, engine);
              && heap == r.heap && out == r.out && code == CodeOf(r.body)
              && errors.slots == AfterGuard(old(errors.slots), t, r.body)
    {
      out := Ptr.Null;
      if engine == Returns {
        var id := Box(DbHandle);
        out := Ptr.At(id);
      }
      code := errors.Guard(t, engine);
    }
  }

  class Stream {
    var slot: StreamSlot

    /** The object's value in the run model. */
    ghost function Value(): Wrapper
      reads this
    {
      AStream(slot)
    }

    constructor ()
      ensures slot == NO_STREAM
    {
      slot := NO_STREAM;
    }

    constructor Move(o: Stream)
      modifies o
      ensures slot == old(o.slot) && o.slot == old(o.slot).(release := false)
      ensures Value() == old(o.Value()) && o.Value() == MovedFrom(old(o.Value()))
    {
      slot := o.slot;
      new;
      o.slot := o.slot.(release := false);
    }

    method Reset(lib: Library)
      modifies this, lib`heap
      ensures lib.heap == Destroyed(old(lib.heap), old(Value())) && Value() == MovedFrom(old(Value()))
    {
      if slot.release {
        lib.Drop(slot.data, ArrowStream);
        slot := slot.(release := false);
      }
      slot := slot.(release := false);
    }

    method Assign(lib: Library, o: Stream)
      modifies this, o, lib`heap
      ensures this != o ==> slot == old(o.slot) && o.slot == old(o.slot).(release := false)
      ensures this == o ==> lib.heap == old(lib.heap) && Value() == old(Value())
      ensures this != o ==> (lib.heap, Value(), o.Value()) == Assigned(old(lib.heap), old(Value()), old(o.Value()))
    {
      if this != o {
        Reset(lib);
        slot := o.slot;
        o.slot := o.slot.(release := false);
      }
    }

    method Relinquish() returns (s: StreamSlot)
      modifies this
      ensures (s, slot) == StreamRelinquish(old(slot))
    {
      s := slot;
      slot := slot.(release := false);
    }
  }

  class Bytes {
    var buf: BytesSlot

    /** The object's value in the run model. */
    ghost function Value(): Wrapper
      reads this
    {
      ABytes(buf)
    }

    constructor ()
      ensures buf == NO_BYTES
    {
      buf := NO_BYTES;
    }

    constructor Move(o: Bytes)
      modifies o
      ensures buf == old(o.buf) && o.buf == BytesSlot(NoData, 0)
      ensures Value() == old(o.Value()) && o.Value() == MovedFrom(old(o.Value()))
    {
      buf := o.buf;
      new;
      o.buf := NO_BYTES;
    }

    method Reset(lib: Library)
      modifies this, lib`heap
      ensures lib.heap == Destroyed(old(lib.heap), old(Value())) && Value() == MovedFrom(old(Value()))
    {
      if buf.data != NoData {
        lib.BytesFree(buf);
      }
      buf := BytesSlot(NoData, 0);
    }

    method Assign(lib: Library, o: Bytes)
      modifies this, o, lib`heap
      ensures this != o ==> buf == old(o.buf) && o.buf == BytesSlot(NoData, 0)
      ensures this == o ==> lib.heap == old(lib.heap) && Value() == old(Value())
      ensures this != o ==> (lib.heap, Value(), o.Value()) == Assigned(old(lib.heap), old(Value()), old(o.Value()))
    {
      if this != o {
        Reset(lib);
        buf := o.buf;
        o.buf := NO_BYTES;
      }
    }
  }

  /** The five query-builder classes; they differ in `kind` only. */
  class Query {
    const kind: BuilderKind
    var q: Ptr

    /** The object's value in the run model. */
    ghost function Value(): Wrapper
      reads this
    {
      ABuilder(kind, q)
    }

    constructor (lib: Library, kind: BuilderKind)
      modifies lib`heap
      ensures this.kind == kind
      ensures lib.heap == Alloc(old(lib.heap), Builder(kind)) && q == Ptr.At(|old(lib.heap).cells|)
    {
      this.kind := kind;
      q := Ptr.Null;
      new;
      var id := lib.Box(Builder(kind));
      q := Ptr.At(id);
    }

    constructor Move(o: Query)
      modifies o
      ensures q == old(o.q) && o.q == Ptr.Null
      ensures Value() == old(o.Value()) && o.Value() == MovedFrom(old(o.Value()))
    {
      kind := o.kind;
      q := o.q;
      new;
      o.q := Ptr.Null;
    }

    method Assign(lib: Library, o: Query)
      requires o.kind == kind
      modifies this, o, lib`heap
      ensures this != o ==> q == old(o.q) && o.q == Ptr.Null
      ensures this == o ==> lib.heap == old(lib.heap) && Value() == old(Value())
      ensures this != o ==> (lib.heap, Value(), o.Value()) == Assigned(old(lib.heap), old(Value()), old(o.Value()))
    {
      if this != o {
        lib.FreePointer(q, Builder(kind));
        q := o.q;
        o.q := Ptr.Null;
      }
    }

    /** The destructor: `imbh_*_query_free(q_)`. The dead object is given its moved-from value. */
    method Destroy(lib: Library)
      modifies this, lib`heap
      ensures lib.heap == Destroyed(old(lib.heap), old(Value())) && Value() == MovedFrom(old(Value()))
    {
      lib.FreePointer(q, Builder(kind));
      q := Ptr.Null;
    }

    /** `check(imbh_*_set_*(q_, ...))`: throws the setter's message, and changes no resource. */
    method Setter(lib: Library, t: Thread, engine: Body) returns (thrown: Option<Exception>)
      modifies lib`heap, lib.errors
      ensures var (h, body) := CallSetter(old(lib.heap), kind, q, engine);
              && lib.heap == h
              && thrown == ThrownFor(body)
      ensures q.Null? ==> thrown.Some? && thrown.value.code == CodeInvalidArg && lib.heap == old(lib.heap)
    {
      var body := engine;
      if q.Null? {
        body := NullBuilder(kind);
      } else {
        lib.Deref(q.id, Builder(kind));
      }
      var code := lib.errors.Guard(t, body);
      thrown := lib.errors.Check(t, code);
      if body != Returns {
        StoredReadsBack(MessageOf(body));
      }
    }
  }

  /** The exception a C++ method throws for a body's outcome. */
  function ThrownFor(body: Body): Option<Exception> {
    if body == Returns then None
    else Some(Exception(CodeOf(body), Encode(Clean(MessageOf(body)))))
  }

  /** The method throws the INVALID_ARG exception of a given misuse. */
  ghost predicate ThrowsMisuse<T>(r: Result<T, Exception>, misuse: Body) {
    r.Err? && r.error.code == CodeInvalidArg && Some(r.error) == ThrownFor(misuse)
  }

  class Db {
    var h: Ptr

    /** The object's value in the run model. */
    ghost function Value(): Wrapper
      reads this
    {
      ADb(h)
    }

    constructor (h: Ptr)
      ensures this.h == h
    {
      this.h := h;
    }

    constructor Move(o: Db)
      modifies o
      ensures h == old(o.h) && o.h == Ptr.Null
      ensures Value() == old(o.Value()) && o.Value() == MovedFrom(old(o.Value()))
    {
      h := o.h;
      new;
      o.h := Ptr.Null;
    }

    /** `Db::free`, also what the destructor does. */
    method Free(lib: Library)
      modifies this, lib`heap
      ensures lib.heap == Destroyed(old(lib.heap), old(Value())) && Value() == MovedFrom(old(Value()))
    {
      if h.At? {
        lib.FreePointer(h, DbHandle);
        h := Ptr.Null;
      }
    }

    method Assign(lib: Library, o: Db)
      modifies this, o, lib`heap
      ensures this != o ==> h == old(o.h) && o.h == Ptr.Null
      ensures this == o ==> lib.heap == old(lib.heap) && Value() == old(Value())
      ensures this != o ==> (lib.heap, Value(), o.Value()) == Assigned(old(lib.heap), old(Value()), old(o.Value()))
    {
      if this != o {
        Free(lib);
        h := o.h;
        o.h := Ptr.Null;
      }
    }

    /** `Db::open*`: a failing open throws and creates no `Db`. */
    static method Open(lib: Library, t: Thread, engine: Body) returns (r: Result<Db, Exception>)
      modifies lib`heap, lib.errors
      ensures r.Ok? <==> engine == Returns
      ensures r.Ok? ==> fresh(r.value) && lib.heap == Alloc(old(lib.heap), DbHandle)
                        && r.value.h == Ptr.At(|old(lib.heap).cells|)
      ensures r.Err? ==> lib.heap == old(lib.heap) && Some(r.error) == ThrownFor(engine)
      ensures r.Err? && engine.Fails? && engine.error.Imbh? && Plain(engine.error.error) ==>
                && (r.error.code == CodeOpen <==> engine.error.error.category == Category.Open)
                && (r.error.code == CodeStorage <==> engine.error.error.category in {Category.Storage, Category.Future})
                && (r.error.code == CodeConfig <==> engine.error.error.category == Category.Config)
    {
      var code, p := lib.OpenHandle(t, engine);
      var thrown := lib.errors.Check(t, code);
      if thrown.Some? {
        StoredReadsBack(MessageOf(engine));
        return Err(thrown.value);
      }
      var db := new Db(p);
      r := Ok(db);
    }

    /**
     The query methods: `Stream s; check(imbh_db_...(h_, ..., s.get())); return s;`. When the call fails
     the exception carries its code and message, and destroying `s` while unwinding frees nothing.
     */
    method QueryStream(lib: Library, t: Thread, q: BuilderArg, engine: Body) returns (r: Result<Stream, Exception>)
      modifies lib`heap, lib.errors
      ensures var reply := CallForStream(old(lib.heap), h, q, NO_STREAM, engine);
              && lib.heap == reply.heap
              && (r.Ok? <==> reply.body == Returns)
              && (r.Ok? ==> fresh(r.value) && r.value.slot == reply.out)
              && (r.Err? ==> Some(r.error) == ThrownFor(reply.body))
      ensures h.Null? ==> ThrowsMisuse(r, Fails(Misuse(NULL_DB))) && lib.heap == old(lib.heap)
      ensures h.At? && q.WithBuilder? && q.q.Null? ==>
                ThrowsMisuse(r, NullBuilder(q.b)) && lib.heap == Touch(old(lib.heap), h.id, DbHandle)
    {
      ghost var body := Enter(lib.heap, h, q, engine).1;
      var s := new Stream();
      var code := lib.ExportStream(t, h, q, s, engine);
      var thrown := lib.errors.Check(t, code);
      if thrown.Some? {
        StoredReadsBack(MessageOf(body));
        s.Reset(lib);
        return Err(thrown.value);
      }
      var result := new Stream.Move(s);
      s.Reset(lib);
      r := Ok(result);
    }

    /** `export_ipc` and `query_sql_ipc`. */
    method QueryBytes(lib: Library, t: Thread, len: nat, engine: Body) returns (r: Result<Bytes, Exception>)
      modifies lib`heap, lib.errors
      ensures var reply := CallForBytes(old(lib.heap), h, NO_BYTES, len, engine);
              && lib.heap == reply.heap
              && (r.Ok? <==> reply.body == Returns)
              && (r.Ok? ==> fresh(r.value) && r.value.buf == reply.out)
              && (r.Err? ==> Some(r.error) == ThrownFor(reply.body))
      ensures h.Null? ==> ThrowsMisuse(r, Fails(Misuse(NULL_DB))) && lib.heap == old(lib.heap)
    {
      ghost var body := Enter(lib.heap, h, NoBuilder, engine).1;
      var b := new Bytes();
      var code := lib.ExportBytes(t, h, b, len, engine);
      var thrown := lib.errors.Check(t, code);
      if thrown.Some? {
        StoredReadsBack(MessageOf(body));
        b.Reset(lib);
        return Err(thrown.value);
      }
      var result := new Bytes.Move(b);
      b.Reset(lib);
      r := Ok(result);
    }
  }
}
