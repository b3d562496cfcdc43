/**
 A C++ program's wrapper objects, living in the object heap: every operation of the run model is carried
 out by the wrapper classes themselves, so what is proved of runs holds of the objects.
 */
module Program {
  import opened Prelude
  import opened ErrorChannel
  import opened Ownership
  import opened OwnershipProofs
  import opened Wrappers

  /** A wrapper object of one of the classes. */
  datatype Ref = S(s: Stream) | B(b: Bytes) | Q(q: Query) | D(d: Db)

  function Object(r: Ref): object {
    match r
    case S(s) => s
    case B(b) => b
    case Q(q) => q
    case D(d) => d
  }

  ghost function ValueOf(r: Ref): Wrapper
    reads Object(r)
  {
    match r
    case S(s) => s.Value()
    case B(b) => b.Value()
    case Q(q) => q.Value()
    case D(d) => d.Value()
  }

  method DestroyRef(lib: Library, r: Ref)
    modifies Object(r), lib`heap
    ensures lib.heap == Destroyed(old(lib.heap), old(ValueOf(r))) && ValueOf(r) == MovedFrom(old(ValueOf(r)))
  {
    match r {
      case S(s) => s.Reset(lib);
      case B(b) => b.Reset(lib);
      case Q(q) => q.Destroy(lib);
      case D(d) => d.Free(lib);
    }
  }

  method MoveRef(r: Ref) returns (n: Ref)
    modifies Object(r)
    ensures fresh(Object(n))
    ensures ValueOf(n) == old(ValueOf(r)) && ValueOf(r) == MovedFrom(old(ValueOf(r)))
  {
    if r.S? {
      var o := new Stream.Move(r.s);
      n := S(o);
    } else if r.B? {
      var o := new Bytes.Move(r.b);
      n := B(o);
    } else if r.Q? {
      var o := new Query.Move(r.q);
      n := Q(o);
    } else {
      var o := new Db.Move(r.d);
      n := D(o);
    }
  }

  method AssignRef(lib: Library, to: Ref, from: Ref)
    requires SameClass(ValueOf(to), ValueOf(from))
    modifies Object(to), Object(from), lib`heap
    ensures Object(to) == Object(from) ==> lib.heap == old(lib.heap) && ValueOf(to) == old(ValueOf(to))
    ensures Object(to) != Object(from) ==>
              (lib.heap, ValueOf(to), ValueOf(from)) == Assigned(old(lib.heap), old(ValueOf(to)), old(ValueOf(from)))
  {
    match to {
      case S(s) => s.Assign(lib, from.s);
      case B(b) => b.Assign(lib, from.b);
      case Q(q) => q.Assign(lib, from.q);
      case D(d) => d.Assign(lib, from.d);
    }
  }

  lemma MoveInEitherOrder(m: map<Obj, Wrapper>, w: Obj, from: Obj)
    requires w !in m && from in m
    ensures m[from := MovedFrom(m[from])][w := m[from]] == m[w := m[from]][from := MovedFrom(m[from])]
  {
  }

  /** The living wrapper objects of a program, by name, and the streams it has given away. */
  class Population {
    const lib: Library
    const thread: Thread
    var objs: map<Obj, Ref>
    var given: set<nat>
    ghost var repr: set<object>

    constructor (thread: Thread)
      ensures Valid() && repr == {} && fresh(lib) && fresh(lib.errors) && Abs() == INITIAL
    {
      lib := new Library();
      this.thread := thread;
      objs, given, repr := map[], {}, {};
    }

    /** Different names denote different objects. */
    ghost predicate Valid()
      reads this
    {
      && this !in repr
      && (forall o :: o in objs ==> Object(objs[o]) in repr)
      && (forall v, w :: v in objs && w in objs && Object(objs[v]) == Object(objs[w]) ==> v == w)
    }

    /** The state of the run model that this program is in. */
    ghost function Abs(): State
      requires Valid()
      reads this, lib, repr
    {
      State(lib.heap, map o | o in objs :: ValueOf(objs[o]), given)
    }

    /** Registers a new object under an unused name. */
    method Add(w: Obj, r: Ref)
      requires Valid() && w !in objs && Object(r) !in repr && Object(r) != this
      modifies this`objs, this`repr
      ensures Valid() && repr == old(repr) + {Object(r)}
      ensures Abs() == old(Abs()).(objs := old(Abs()).objs[w := ValueOf(r)])
    {
      objs := objs[w := r];
      repr := repr + {Object(r)};
      assert Abs().objs == old(Abs()).objs[w := ValueOf(r)];
    }

    // The calls that reach Rust, with what they do to the heap and to wrappers only.

    method CallDb(d: Db, engine: Body)
      modifies lib`heap, lib.errors
      ensures lib.heap == Enter(old(lib.heap), d.h, NoBuilder, engine).0
    {
      var body := lib.EnterCall(d.h, NoBuilder, engine);
      var code := lib.errors.Guard(thread, body);
    }

    method CallBuilder(q: Query, engine: Body)
      modifies lib`heap, lib.errors
      ensures lib.heap == CallSetter(old(lib.heap), q.kind, q.q, engine).0
    {
      var thrown := q.Setter(lib, thread, engine);
    }

    method OpenNew(engine: Body) returns (d: Db?)
      modifies lib`heap, lib.errors
      ensures d != null <==> engine == Returns
      ensures d != null ==>
                fresh(d) && lib.heap == Alloc(old(lib.heap), DbHandle) && d.h == Ptr.At(|old(lib.heap).cells|)
      ensures d == null ==> lib.heap == old(lib.heap)
    {
      var r := Db.Open(lib, thread, engine);
      d := if r.Ok? then r.value else null;
    }

    method QueryNew(d: Db, arg: BuilderArg, engine: Body) returns (s: Stream?)
      modifies lib`heap, lib.errors
      ensures var reply := CallForStream(old(lib.heap), d.h, arg, NO_STREAM, engine);
              && lib.heap == reply.heap
              && (s != null <==> reply.body == Returns)
              && (s != null ==> fresh(s) && s.slot == reply.out)
    {
      var r := d.QueryStream(lib, thread, arg, engine);
      s := if r.Ok? then r.value else null;
    }

    method QueryNewBytes(d: Db, len: nat, engine: Body) returns (b: Bytes?)
      modifies lib`heap, lib.errors
      ensures var reply := CallForBytes(old(lib.heap), d.h, NO_BYTES, len, engine);
              && lib.heap == reply.heap
              && (b != null <==> reply.body == Returns)
              && (b != null ==> fresh(b) && b.buf == reply.out)
    {
      var r := d.QueryBytes(lib, thread, len, engine);
      b := if r.Ok? then r.value else null;
    }

    method QueryExisting(d: Db, arg: BuilderArg, s: Stream, engine: Body)
      modifies lib`heap, lib.errors, s
      ensures var reply := CallForStream(old(lib.heap), d.h, arg, old(s.slot), engine);
              lib.heap == reply.heap && s.slot == reply.out
    {
      var code := lib.ExportStream(thread, d.h, arg, s, engine);
    }

    method ExportExisting(d: Db, b: Bytes, len: nat, engine: Body)
      modifies lib`heap, lib.errors, b
      ensures var reply := CallForBytes(old(lib.heap), d.h, old(b.buf), len, engine);
              lib.heap == reply.heap && b.buf == reply.out
    {
      var code := lib.ExportBytes(thread, d.h, b, len, engine);
    }

    /** `q.raw()` of a builder argument. */
    function RawBuilder(builder: Option<Obj>): (arg: BuilderArg)
      requires Valid() && (builder.Some? ==> builder.value in objs && objs[builder.value].Q?)
      reads this, lib, repr
      ensures builder.Some? ==> Abs().objs[builder.value].ABuilder?
      ensures arg == ArgOf(Abs(), builder)
    {
      match builder
      case None => NoBuilder
      case Some(o) => WithBuilder(objs[o].q.kind, objs[o].q.q)
    }

    /** Moves a wrapper's value into a new object that has no name yet. */
    method TakeOut(from: Obj) returns (n: Ref)
      requires Valid() && from in objs
      modifies repr
      ensures Valid() && fresh(Object(n)) && Object(n) !in repr && ValueOf(n) == old(Abs()).objs[from]
      ensures Abs() == old(Abs()).(objs := old(Abs()).objs[from := MovedFrom(old(Abs()).objs[from])])
    {
      n := MoveRef(objs[from]);
      assert Abs().objs == old(Abs()).objs[from := MovedFrom(old(Abs()).objs[from])];
    }

    // One method per operation.

    method DoNewStream(w: Obj)
      requires Valid() && Enabled(Abs(), NewStream(w))
      modifies this, lib`heap, lib.errors, repr
      ensures Valid() && fresh(repr - old(repr)) && Abs() == Step(old(Abs()), NewStream(w))
    {
      var s := new Stream();
      Add(w, S(s));
    }

    method DoNewBytes(w: Obj)
      requires Valid() && Enabled(Abs(), NewBytes(w))
      modifies this, lib`heap, lib.errors, repr
      ensures Valid() && fresh(repr - old(repr)) && Abs() == Step(old(Abs()), NewBytes(w))
    {
      var b := new Bytes();
      Add(w, B(b));
    }

    method DoNewBuilder(w: Obj, k: BuilderKind)
      requires Valid() && Enabled(Abs(), NewBuilder(w, k))
      modifies this, lib`heap, lib.errors, repr
      ensures Valid() && fresh(repr - old(repr)) && Abs() == Step(old(Abs()), NewBuilder(w, k))
    {
      var q := new Query(lib, k);
      assert Abs().objs == old(Abs()).objs;
      Add(w, Q(q));
    }

    method DoOpenDb(w: Obj, engine: Body)
      requires Valid() && Enabled(Abs(), OpenDb(w, engine))
      modifies this, lib`heap, lib.errors, repr
      ensures Valid() && fresh(repr - old(repr)) && Abs() == Step(old(Abs()), OpenDb(w, engine))
    {
      var d := OpenNew(engine);
      assert Abs().objs == old(Abs()).objs;
      if d != null {
        Add(w, D(d));
      }
    }

    method MoveInto(w: Obj, from: Obj)
      requires Valid() && w !in objs && from in objs
      modifies this, repr
      ensures Valid() && fresh(repr - old(repr)) && Abs() == MovedState(old(Abs()), w, from)
    {
      MoveInEitherOrder(Abs().objs, w, from);
      var n := TakeOut(from);
      Add(w, n);
    }

    method DoMoveConstruct(w: Obj, from: Obj)
      requires Valid() && Enabled(Abs(), MoveConstruct(w, from))
      modifies this, lib`heap, lib.errors, repr
      ensures Valid() && fresh(repr - old(repr)) && Abs() == Step(old(Abs()), MoveConstruct(w, from))
    {
      MoveInto(w, from);
    }

    method DoMoveAssign(w: Obj, from: Obj)
      requires Valid() && Enabled(Abs(), MoveAssign(w, from))
      modifies this, lib`heap, lib.errors, repr
      ensures Valid() && fresh(repr - old(repr)) && Abs() == Step(old(Abs()), MoveAssign(w, from))
    {
      AssignRef(lib, objs[w], objs[from]);
      assert Abs().objs == Step(old(Abs()), MoveAssign(w, from)).objs;
    }

    method DoReset(w: Obj)
      requires Valid() && Enabled(Abs(), Reset(w))
      modifies this, lib`heap, lib.errors, repr
      ensures Valid() && fresh(repr - old(repr)) && Abs() == Step(old(Abs()), Reset(w))
    {
      DestroyRef(lib, objs[w]);
      assert Abs().objs == Step(old(Abs()), Reset(w)).objs;
    }

    method DoGiveAway(w: Obj)
      requires Valid() && Enabled(Abs(), GiveAway(w))
      modifies this, lib`heap, lib.errors, repr
      ensures Valid() && fresh(repr - old(repr)) && Abs() == Step(old(Abs()), GiveAway(w))
    {
      var s := objs[w].s;
      var out := s.Relinquish();
      if out.release {
        given := given + {out.data};
      }
      assert Abs().objs == Step(old(Abs()), GiveAway(w)).objs;
    }

    method DoDestroy(w: Obj)
      requires Valid() && Enabled(Abs(), Destroy(w))
      modifies this, lib`heap, lib.errors, repr
      ensures Valid() && fresh(repr - old(repr)) && Abs() == Step(old(Abs()), Destroy(w))
    {
      DestroyRef(lib, objs[w]);
      objs := objs - {w};
      assert Abs().objs == Step(old(Abs()), Destroy(w)).objs;
    }

    method DoQueryStream(w: Obj, db: Obj, builder: Option<Obj>, engine: Body)
      requires Valid() && Enabled(Abs(), QueryStream(w, db, builder, engine))
      modifies this, lib`heap, lib.errors, repr
      ensures Valid() && fresh(repr - old(repr)) && Abs() == Step(old(Abs()), QueryStream(w, db, builder, engine))
    {
      var arg := RawBuilder(builder);
      var d := objs[db].d;
      var s := QueryNew(d, arg, engine);
      assert Abs().objs == old(Abs()).objs;
      if s != null {
        Add(w, S(s));
      }
    }

    method DoQueryInto(w: Obj, db: Obj, builder: Option<Obj>, engine: Body)
      requires Valid() && Enabled(Abs(), QueryInto(w, db, builder, engine))
      modifies this, lib`heap, lib.errors, repr
      ensures Valid() && fresh(repr - old(repr)) && Abs() == Step(old(Abs()), QueryInto(w, db, builder, engine))
    {
      ghost var before := Abs();
      var arg := RawBuilder(builder);
      var d, s := objs[db].d, objs[w].s;
      QueryExisting(d, arg, s, engine);
      assert Abs().objs == before.objs[w := AStream(s.slot)];
    }

    method DoBytesInto(w: Obj, db: Obj, len: nat, engine: Body)
      requires Valid() && Enabled(Abs(), BytesInto(w, db, len, engine))
      modifies this, lib`heap, lib.errors, repr
      ensures Valid() && fresh(repr - old(repr)) && Abs() == Step(old(Abs()), BytesInto(w, db, len, engine))
    {
      var d, b := objs[db].d, objs[w].b;
      ExportExisting(d, b, len, engine);
      assert Abs().objs == Step(old(Abs()), BytesInto(w, db, len, engine)).objs;
    }

    method DoQueryBytes(w: Obj, db: Obj, len: nat, engine: Body)
      requires Valid() && Enabled(Abs(), QueryBytes(w, db, len, engine))
      modifies this, lib`heap, lib.errors, repr
      ensures Valid() && fresh(repr - old(repr)) && Abs() == Step(old(Abs()), QueryBytes(w, db, len, engine))
    {
      var d := objs[db].d;
      var b := QueryNewBytes(d, len, engine);
      assert Abs().objs == old(Abs()).objs;
      if b != null {
        Add(w, B(b));
      }
    }

    method DoUseBuilder(w: Obj, engine: Body)
      requires Valid() && Enabled(Abs(), UseBuilder(w, engine))
      modifies this, lib`heap, lib.errors, repr
      ensures Valid() && fresh(repr - old(repr)) && Abs() == Step(old(Abs()), UseBuilder(w, engine))
    {
      var q := objs[w].q;
      CallBuilder(q, engine);
      assert Abs().objs == old(Abs()).objs;
    }

    method DoUseDb(w: Obj, engine: Body)
      requires Valid() && Enabled(Abs(), UseDb(w, engine))
      modifies this, lib`heap, lib.errors, repr
      ensures Valid() && fresh(repr - old(repr)) && Abs() == Step(old(Abs()), UseDb(w, engine))
    {
      var d := objs[w].d;
      CallDb(d, engine);
      assert Abs().objs == old(Abs()).objs;
    }

    method DoPull(w: Obj)
      requires Valid() && Enabled(Abs(), Pull(w))
      modifies this, lib`heap, lib.errors, repr
      ensures Valid() && fresh(repr - old(repr)) && Abs() == Step(old(Abs()), Pull(w))
    {
      var s := objs[w].s;
      lib.Deref(s.slot.data, ArrowStream);
      assert Abs().objs == old(Abs()).objs;
    }

    method DoConsumerRelease(id: nat)
      requires Valid() && Enabled(Abs(), ConsumerRelease(id))
      modifies this, lib`heap, lib.errors, repr
      ensures Valid() && fresh(repr - old(repr)) && Abs() == Step(old(Abs()), ConsumerRelease(id))
    {
      lib.Drop(id, ArrowStream);
      given := given - {id};
      assert Abs().objs == old(Abs()).objs;
    }

    method Do(op: Op)
      requires Valid() && Enabled(Abs(), op)
      modifies this, lib`heap, lib.errors, repr
      ensures Valid() && fresh(repr - old(repr)) && Abs() == Step(old(Abs()), op)
    {
      match op {
        case NewStream(w) => DoNewStream(w);
        case NewBytes(w) => DoNewBytes(w);
        case NewBuilder(w, k) => DoNewBuilder(w, k);
        case OpenDb(w, engine) => DoOpenDb(w, engine);
        case MoveConstruct(w, from) => DoMoveConstruct(w, from);
        case MoveAssign(w, from) => DoMoveAssign(w, from);
        case Reset(w) => DoReset(w);
        case GiveAway(w) => DoGiveAway(w);
        case Destroy(w) => DoDestroy(w);
        case QueryStream(w, db, builder, engine) => DoQueryStream(w, db, builder, engine);
        case QueryInto(w, db, builder, engine) => DoQueryInto(w, db, builder, engine);
        case QueryBytes(w, db, len, engine) => DoQueryBytes(w, db, len, engine);
        case BytesInto(w, db, len, engine) => DoBytesInto(w, db, len, engine);
        case UseBuilder(w, engine) => DoUseBuilder(w, engine);
        case UseDb(w, engine) => DoUseDb(w, engine);
        case Pull(w) => DoPull(w);
        case ConsumerRelease(id) => DoConsumerRelease(id);
      }
    }

    /** Carries out a run whose operations are enabled in turn, on the objects. */
    method Execute(ops: seq<Op>)
      requires Valid() && AllEnabled(Abs(), ops)
      modifies this, lib`heap, lib.errors, repr
      ensures Valid() && fresh(repr - old(repr)) && Abs() == Run(old(Abs()), ops)
      decreases |ops|
    {
      if ops != [] {
        Do(ops[0]);
        Execute(ops[1..]);
      }
    }
  }

  /** Each operation is enabled when its turn comes. */
  predicate AllEnabled(s: State, ops: seq<Op>)
    decreases |ops|
  {
    ops == [] || (Enabled(s, ops[0]) && AllEnabled(Step(s, ops[0]), ops[1..]))
  }

  /**
   A whole program on real wrapper objects: after any operations, followed by the destructors of all
   living wrappers in any order, nothing was misused, everything else was released once, and what is
   still unreleased are the streams given away and not yet consumed, and what raw calls overwrote.
   */
  method RunProgram(thread: Thread, ops: seq<Op>, order: seq<Obj>) returns (lib: Library, given: set<nat>)
    requires AllEnabled(INITIAL, ops)
    requires forall w :: w in Run(INITIAL, ops).objs <==> w in order
    requires forall i, j :: 0 <= i < j < |order| ==> order[i] != order[j]
    ensures !lib.heap.fault
    ensures given == GaveAway(INITIAL, ops) - Consumed(INITIAL, ops)
    ensures forall id :: 0 <= id < |lib.heap.cells| ==>
              lib.heap.cells[id].releases == if id in given + Lost(INITIAL, ops) then 0 else 1
  {
    var p := new Population(thread);
    p.Execute(ops);
    ghost var middle := p.Abs();
    RunKeepsInv(INITIAL, {}, ops);
    assert {} + Lost(INITIAL, ops) == Lost(INITIAL, ops);
    DestroysEnabled(middle, order);
    p.Execute(Destroys(order));
    DestroyInAnyOrder(middle, Lost(INITIAL, ops), order);
    GivenIsGaveAway(INITIAL, {}, ops);
    assert {} + GaveAway(INITIAL, ops) == GaveAway(INITIAL, ops);
    lib, given := p.lib, p.given;
  }

  lemma {:induction false} DestroysEnabled(s: State, order: seq<Obj>)
    requires forall w :: w in order ==> w in s.objs
    requires forall i, j :: 0 <= i < j < |order| ==> order[i] != order[j]
    ensures AllEnabled(s, Destroys(order))
    decreases |order|
  {
    if order != [] {
      assert order[0] in order;
      var s' := Step(s, Destroy(order[0]));
      forall w | w in order[1..] ensures w in s'.objs {
        assert w in order;
      }
      DestroysEnabled(s', order[1..]);
      assert Destroys(order)[1..] == Destroys(order[1..]);
    }
  }
}
