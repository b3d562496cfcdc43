/** Every run of wrapper operations: what it releases, uses and leaks. */
module OwnershipProofs {
  import opened Prelude
  import opened ErrorChannel
  import opened Ownership

  /** The resource a wrapper holds, as a set. */
  function Held(w: Wrapper): set<nat> {
    if Owns(w).Some? then {Owns(w).value.0} else {}
  }

  /** A call of the C entry point on a slot that a wrapper's `get()` returned. */
  predicate IsRawCall(op: Op) {
    op.QueryInto? || op.BytesInto?
  }

  /** What an operation loses: a raw call that returns overwrites whatever its out slot owned. */
  function LostBy(s: State, op: Op): set<nat>
    requires Enabled(s, op)
  {
    if IsRawCall(op) && Outcome(s, op) == Returns then Held(s.objs[op.w]) else {}
  }

  /**
   Every operation keeps the invariant, and the resources it leaks are exactly those that a successful
   raw call overwrote.
   */
  lemma StepKeepsInv(s: State, lost: set<nat>, op: Op)
    requires Inv(s, lost) && Enabled(s, op)
    ensures Inv(Step(s, op), lost + LostBy(s, op))
  {
    if op.QueryInto? {
      QueryIntoKeepsInv(s, lost, op.w, op.db, op.builder, op.engine);
    } else if op.BytesInto? {
      BytesIntoKeepsInv(s, lost, op.w, op.db, op.len, op.engine);
    } else {
      OtherStepKeepsInv(s, lost, op);
      assert lost + LostBy(s, op) == lost;
    }
  }

  lemma OtherStepKeepsInv(s: State, lost: set<nat>, op: Op)
    requires Inv(s, lost) && Enabled(s, op) && !IsRawCall(op)
    ensures Inv(Step(s, op), lost)
  {
    match op
    case NewStream(w) => BindKeepsInv(s, lost, w, AStream(NO_STREAM));
    case NewBytes(w) => BindKeepsInv(s, lost, w, ABytes(NO_BYTES));
    case NewBuilder(w, k) => AllocKeepsInv(s, lost, w, ABuilder(k, At(|s.heap.cells|)), Builder(k));
    case OpenDb(w, engine) => OpenKeepsInv(s, lost, w, engine);
    case MoveConstruct(w, from) => MoveKeepsInv(s, lost, w, from);
    case MoveAssign(w, from) => AssignKeepsInv(s, lost, w, from);
    case Reset(w) => ResetKeepsInv(s, lost, w);
    case GiveAway(w) => GiveAwayKeepsInv(s, lost, w);
    case Destroy(w) => DropKeepsInv(s, lost, w);
    case QueryStream(w, db, b, engine) => QueryStreamKeepsInv(s, lost, w, db, b, engine);
    case QueryBytes(w, db, len, engine) => QueryBytesKeepsInv(s, lost, w, db, len, engine);
    case UseBuilder(w, engine) => UsesAreQuiet(s, op);
    case UseDb(w, engine) => UsesAreQuiet(s, op);
    case Pull(w) => UsesAreQuiet(s, op);
    case ConsumerRelease(id) => ConsumerReleaseKeepsInv(s, lost, id);
  }

  /** Setter calls, handle calls and pulls dereference live resources only, and change nothing. */
  lemma UsesAreQuiet(s: State, op: Op)
    requires Sound(s) && Enabled(s, op) && (op.UseBuilder? || op.UseDb? || op.Pull?)
    ensures Step(s, op) == s
  {
    match op
    case UseDb(w, engine) => EnterIsQuiet(s, w, None, engine);
    case UseBuilder(w, _) => assert WellFormed(s.objs[w]);
    case Pull(w) => assert WellFormed(s.objs[w]);
  }

  lemma OpenKeepsInv(s: State, lost: set<nat>, w: Obj, engine: Body)
    requires Inv(s, lost) && w !in s.objs
    ensures Inv(Step(s, OpenDb(w, engine)), lost)
  {
    if engine == Returns {
      AllocKeepsInv(s, lost, w, ADb(At(|s.heap.cells|)), DbHandle);
    }
  }

  lemma AssignKeepsInv(s: State, lost: set<nat>, w: Obj, from: Obj)
    requires Inv(s, lost) && Enabled(s, MoveAssign(w, from))
    ensures Inv(Step(s, MoveAssign(w, from)), lost)
  {
    if w != from {
      DropKeepsInv(s, lost, w);
      MoveKeepsInv(Dropped(s, w), lost, w, from);
      AssignIsDropThenMove(s, w, from);
    }
  }

  /** Move assignment is the target's destructor followed by a move construction. */
  lemma AssignIsDropThenMove(s: State, w: Obj, from: Obj)
    requires Enabled(s, MoveAssign(w, from)) && w != from
    ensures Step(s, MoveAssign(w, from)) == MovedState(Dropped(s, w), w, from)
  {
    var l, r := Step(s, MoveAssign(w, from)), MovedState(Dropped(s, w), w, from);
    assert l.heap == r.heap && l.given == r.given;
    assert l.objs == r.objs;
  }

  lemma ResetKeepsInv(s: State, lost: set<nat>, w: Obj)
    requires Inv(s, lost) && Enabled(s, Reset(w))
    ensures Inv(Step(s, Reset(w)), lost)
  {
    var d := Dropped(s, w);
    DropKeepsInv(s, lost, w);
    BindKeepsInv(d, lost, w, MovedFrom(s.objs[w]));
    assert d.objs[w := MovedFrom(s.objs[w])] == s.objs[w := MovedFrom(s.objs[w])];
  }

  lemma QueryStreamKeepsInv(s: State, lost: set<nat>, w: Obj, db: Obj, b: Option<Obj>, engine: Body)
    requires Inv(s, lost) && Enabled(s, QueryStream(w, db, b, engine))
    ensures Inv(Step(s, QueryStream(w, db, b, engine)), lost)
  {
    EnterIsQuiet(s, db, b, engine);
    AllocKeepsInv(s, lost, w, AStream(StreamSlot(true, |s.heap.cells|)), ArrowStream);
  }

  lemma QueryBytesKeepsInv(s: State, lost: set<nat>, w: Obj, db: Obj, len: nat, engine: Body)
    requires Inv(s, lost) && Enabled(s, QueryBytes(w, db, len, engine))
    ensures Inv(Step(s, QueryBytes(w, db, len, engine)), lost)
  {
    EnterIsQuiet(s, db, None, engine);
    BytesKeepInv(s, lost, w, len);
  }

  /** `w`, new or owning nothing, receives a buffer. */
  lemma BytesKeepInv(s: State, lost: set<nat>, w: Obj, len: nat)
    requires Inv(s, lost) && Unowning(s, w)
    ensures var (h, b) := MakeBytes(s.heap, len); Inv(State(h, s.objs[w := ABytes(b)], s.given), lost)
  {
    if len == 0 {
      BindKeepsInv(s, lost, w, ABytes(BytesSlot(Dangling, 0)));
    } else {
      AllocKeepsInv(s, lost, w, ABytes(BytesSlot(DataAt(|s.heap.cells|), len)), Buffer(len));
    }
  }

  // ---- Raw calls into a slot that already exists ---------------------------------------------------

  /** The state in which `w` has forgotten what it owned, without releasing it. */
  function Forgotten(s: State, w: Obj): State
    requires w in s.objs
  {
    s.(objs := s.objs[w := MovedFrom(s.objs[w])])
  }

  lemma MovedFromOwnsNothing(v: Wrapper)
    ensures Owns(MovedFrom(v)).None? && WellFormed(MovedFrom(v))
  {
  }

  lemma ForgetKeepsInv(s: State, lost: set<nat>, w: Obj)
    requires Inv(s, lost) && w in s.objs
    ensures Inv(Forgotten(s, w), lost + Held(s.objs[w])) && Unowning(Forgotten(s, w), w)
  {
    MovedFromOwnsNothing(s.objs[w]);
    LoseKeepsInv(s, lost, w, MovedFrom(s.objs[w]));
  }

  lemma HoldLess(s: State, w: Obj, v: Wrapper)
    requires Sound(s) && Unique(s) && Owns(v).None? && WellFormed(v)
    ensures Sound(s.(objs := s.objs[w := v])) && Unique(s.(objs := s.objs[w := v]))
  {
  }

  /** A wrapper gets a value that owns nothing, and what it owned is lost. */
  lemma LoseKeepsInv(s: State, lost: set<nat>, w: Obj, v: Wrapper)
    requires Inv(s, lost) && w in s.objs && Owns(v).None? && WellFormed(v)
    ensures Inv(s.(objs := s.objs[w := v]), lost + Held(s.objs[w]))
  {
    var s', l' := s.(objs := s.objs[w := v]), lost + Held(s.objs[w]);
    HoldLess(s, w, v);
    assert forall id :: id in l' <==> id in lost || OwnsId(s.objs[w], id);
    forall id | Owned(s, id) && !OwnsId(s.objs[w], id) ensures Owned(s', id) {
      var o :| o in s.objs && OwnsId(s.objs[o], id);
      assert o in s'.objs && OwnsId(s'.objs[o], id);
    }
  }

  lemma QueryIntoKeepsInv(s: State, lost: set<nat>, w: Obj, db: Obj, b: Option<Obj>, engine: Body)
    requires Inv(s, lost) && Enabled(s, QueryInto(w, db, b, engine))
    ensures Inv(Step(s, QueryInto(w, db, b, engine)), lost + LostBy(s, QueryInto(w, db, b, engine)))
  {
    EnterIsQuiet(s, db, b, engine);
    if Outcome(s, QueryInto(w, db, b, engine)) == Returns {
      var f, v := Forgotten(s, w), AStream(StreamSlot(true, |s.heap.cells|));
      ForgetKeepsInv(s, lost, w);
      AllocKeepsInv(f, lost + Held(s.objs[w]), w, v, ArrowStream);
      assert f.objs[w := v] == s.objs[w := v];
    } else {
      assert s.objs[w := s.objs[w]] == s.objs && lost + {} == lost;
    }
  }

  lemma BytesIntoKeepsInv(s: State, lost: set<nat>, w: Obj, db: Obj, len: nat, engine: Body)
    requires Inv(s, lost) && Enabled(s, BytesInto(w, db, len, engine))
    ensures Inv(Step(s, BytesInto(w, db, len, engine)), lost + LostBy(s, BytesInto(w, db, len, engine)))
  {
    EnterIsQuiet(s, db, None, engine);
    if Outcome(s, BytesInto(w, db, len, engine)) == Returns {
      var f, v := Forgotten(s, w), ABytes(MakeBytes(s.heap, len).1);
      ForgetKeepsInv(s, lost, w);
      BytesKeepInv(f, lost + Held(s.objs[w]), w, len);
      assert f.objs[w := v] == s.objs[w := v];
    } else {
      assert s.objs[w := s.objs[w]] == s.objs && lost + {} == lost;
    }
  }

  /**
   A raw call into a slot leaks if and only if it returns and the slot owned a resource. The notes of three
   stream entry points (`imbh_db_query_sql`, `imbh_db_attr_names` and the PromQL one) exclude this; those of
   the others, and of the byte-buffer ones, ask only for a writable slot.
   */
  lemma RawCallLeaksIff(s: State, op: Op)
    requires Inv(s, {}) && Enabled(s, op) && IsRawCall(op)
    ensures Inv(Step(s, op), {}) <==> !(Outcome(s, op) == Returns && Owns(s.objs[op.w]).Some?)
  {
    StepKeepsInv(s, {}, op);
    if Outcome(s, op) == Returns && Owns(s.objs[op.w]).Some? {
      assert Owns(s.objs[op.w]).value.0 in {} + LostBy(s, op);
    } else {
      assert {} + LostBy(s, op) == {};
    }
  }

  /** A program that opened a database and exported three bytes from it. */
  const EXPORTED: State :=
    State(
      Heap([Cell(DbHandle, 0), Cell(Buffer(3), 0)], false),
      map[0 := ADb(At(0)), 1 := ABytes(BytesSlot(DataAt(1), 3))],
      {})

  lemma ExportedIsReached()
    ensures Run(INITIAL, [OpenDb(0, Returns), QueryBytes(1, 0, 3, Returns)]) == EXPORTED
  {
    var first, second := OpenDb(0, Returns), QueryBytes(1, 0, 3, Returns);
    var one := Step(INITIAL, first);
    assert one == State(Heap([Cell(DbHandle, 0)], false), map[0 := ADb(At(0))], {});
    assert Step(one, second) == EXPORTED;
    assert [first, second][1..] == [second] && [second][1..] == [];
  }

  /**
   A second export into the same `Bytes` overwrites the first buffer, which is then never freed although
   every wrapper is destroyed.
   */
  lemma SecondExportLeaks()
    ensures var ops := [BytesInto(1, 0, 5, Returns), Destroy(1), Destroy(0)];
            Run(EXPORTED, ops)
            == State(Heap([Cell(DbHandle, 1), Cell(Buffer(3), 0), Cell(Buffer(5), 1)], false), map[], {})
  {
    var again := BytesInto(1, 0, 5, Returns);
    var both := Step(EXPORTED, again);
    assert both.heap == Heap([Cell(DbHandle, 0), Cell(Buffer(3), 0), Cell(Buffer(5), 0)], false);
    assert both.objs == map[0 := ADb(At(0)), 1 := ABytes(BytesSlot(DataAt(2), 5))];
    var one := Step(both, Destroy(1));
    assert one.heap == Heap([Cell(DbHandle, 0), Cell(Buffer(3), 0), Cell(Buffer(5), 1)], false);
    assert one.objs == map[0 := ADb(At(0))];
    assert Step(one, Destroy(0)).objs == map[];
    assert [again, Destroy(1), Destroy(0)][1..] == [Destroy(1), Destroy(0)];
    assert [Destroy(1), Destroy(0)][1..] == [Destroy(0)] && [Destroy(0)][1..] == [];
  }

  /** A program that opened a database and ran one query. */
  const QUERIED: State :=
    State(
      Heap([Cell(DbHandle, 0), Cell(ArrowStream, 0)], false),
      map[0 := ADb(At(0)), 1 := AStream(StreamSlot(true, 1))],
      {})

  lemma QueriedIsReached()
    ensures Run(INITIAL, [OpenDb(0, Returns), QueryStream(1, 0, None, Returns)]) == QUERIED
  {
    var first, second := OpenDb(0, Returns), QueryStream(1, 0, None, Returns);
    var one := Step(INITIAL, first);
    assert one == State(Heap([Cell(DbHandle, 0)], false), map[0 := ADb(At(0))], {});
    assert Step(one, second) == QUERIED;
    assert [first, second][1..] == [second] && [second][1..] == [];
  }

  /** A raw query into the `Stream` that holds the first result: that result is never released. */
  lemma SecondQueryLeaks()
    ensures var ops := [QueryInto(1, 0, None, Returns), Destroy(1), Destroy(0)];
            Run(QUERIED, ops)
            == State(Heap([Cell(DbHandle, 1), Cell(ArrowStream, 0), Cell(ArrowStream, 1)], false), map[], {})
  {
    var again := QueryInto(1, 0, None, Returns);
    var both := Step(QUERIED, again);
    assert both.heap == Heap([Cell(DbHandle, 0), Cell(ArrowStream, 0), Cell(ArrowStream, 0)], false);
    assert both.objs == map[0 := ADb(At(0)), 1 := AStream(StreamSlot(true, 2))];
    var one := Step(both, Destroy(1));
    assert one.heap == Heap([Cell(DbHandle, 0), Cell(ArrowStream, 0), Cell(ArrowStream, 1)], false);
    assert one.objs == map[0 := ADb(At(0))];
    assert Step(one, Destroy(0)).objs == map[];
    assert [again, Destroy(1), Destroy(0)][1..] == [Destroy(1), Destroy(0)];
    assert [Destroy(1), Destroy(0)][1..] == [Destroy(0)] && [Destroy(0)][1..] == [];
  }

  // ---- The primitive changes every operation is made of -------------------------------------------

  predicate Unowning(s: State, w: Obj) {
    w in s.objs ==> Owns(s.objs[w]).None?
  }

  /** A wrapper that owned nothing gets a value that owns nothing. */
  lemma BindKeepsInv(s: State, lost: set<nat>, w: Obj, v: Wrapper)
    requires Inv(s, lost) && Unowning(s, w) && Owns(v).None? && WellFormed(v)
    ensures Inv(s.(objs := s.objs[w := v]), lost)
  {
    var s' := s.(objs := s.objs[w := v]);
    forall id | Owned(s, id) ensures Owned(s', id) {
      var o :| o in s.objs && OwnsId(s.objs[o], id);
      assert o in s'.objs && OwnsId(s'.objs[o], id);
    }
  }

  /** A wrapper that owned nothing becomes the owner of a new resource. */
  lemma AllocKeepsInv(s: State, lost: set<nat>, w: Obj, v: Wrapper, kind: Kind)
    requires Inv(s, lost) && Unowning(s, w)
    requires Owns(v) == Some((|s.heap.cells|, kind)) && WellFormed(v)
    ensures Inv(State(Alloc(s.heap, kind), s.objs[w := v], s.given), lost)
  {
    var s' := State(Alloc(s.heap, kind), s.objs[w := v], s.given);
    assert OwnsId(s'.objs[w], |s.heap.cells|);
    forall id | Owned(s, id) ensures Owned(s', id) {
      var o :| o in s.objs && OwnsId(s.objs[o], id);
      assert o in s'.objs && OwnsId(s'.objs[o], id);
    }
  }

  /** The state after a wrapper's destructor ran and the object is gone. */
  function Dropped(s: State, w: Obj): State
    requires w in s.objs
  {
    State(Destroyed(s.heap, s.objs[w]), s.objs - {w}, s.given)
  }

  /** The destructor releases exactly the resource the wrapper owns. */
  lemma DestroyedReleasesOwned(h: Heap, w: Wrapper)
    requires WellFormed(w)
    ensures Destroyed(h, w) ==
            match Owns(w) { case None => h case Some(p) => Release(h, p.0, p.1) }
  {
  }

  lemma DropKeepsInv(s: State, lost: set<nat>, w: Obj)
    requires Inv(s, lost) && w in s.objs
    ensures Inv(Dropped(s, w), lost)
  {
    var s' := Dropped(s, w);
    DestroyedReleasesOwned(s.heap, s.objs[w]);
    forall id | Owned(s, id) && !OwnsId(s.objs[w], id) ensures Owned(s', id) {
      var o :| o in s.objs && OwnsId(s.objs[o], id);
      assert o in s'.objs && OwnsId(s'.objs[o], id);
    }
  }

  /** `w`, new or owning nothing, takes over the value of `from`. */
  function MovedState(s: State, w: Obj, from: Obj): State
    requires from in s.objs
  {
    s.(objs := s.objs[w := s.objs[from]][from := MovedFrom(s.objs[from])])
  }

  /** After a move, what `o` owns is what its value's previous holder owned; the source owns nothing. */
  lemma MovedOwnership(s: State, w: Obj, from: Obj, o: Obj)
    requires w !in s.objs && from in s.objs && o in MovedState(s, w, from).objs
    ensures var v := MovedState(s, w, from).objs[o];
            if o == from then Owns(v).None? && WellFormed(v)
            else v == s.objs[if o == w then from else o]
  {
  }

  lemma MoveKeepsInv(s: State, lost: set<nat>, w: Obj, from: Obj)
    requires Inv(s, lost) && w !in s.objs && from in s.objs
    ensures Inv(MovedState(s, w, from), lost)
  {
    var s' := MovedState(s, w, from);
    assert s'.objs.Keys == s.objs.Keys + {w};
    assert Sound(s') by {
      forall o | o in s'.objs
        ensures WellFormed(s'.objs[o])
             && (Owns(s'.objs[o]).Some? ==> Live(s'.heap, Owns(s'.objs[o]).value.0, Owns(s'.objs[o]).value.1))
      {
        MovedOwnership(s, w, from, o);
      }
    }
    forall v, o, id | v in s'.objs && o in s'.objs && OwnsId(s'.objs[v], id) && OwnsId(s'.objs[o], id)
      ensures v == o
    {
      MovedOwnership(s, w, from, v);
      MovedOwnership(s, w, from, o);
    }
    forall o, id | o in s'.objs && (id in s'.given || id in lost) ensures !OwnsId(s'.objs[o], id) {
      MovedOwnership(s, w, from, o);
    }
    forall id | Owned(s, id) ensures Owned(s', id) {
      var o :| o in s.objs && OwnsId(s.objs[o], id);
      var o' := if o == from then w else o;
      MovedOwnership(s, w, from, o');
      assert o' in s'.objs && OwnsId(s'.objs[o'], id);
    }
  }

  lemma GiveAwayKeepsInv(s: State, lost: set<nat>, w: Obj)
    requires Inv(s, lost) && w in s.objs && s.objs[w].AStream?
    ensures Inv(Step(s, GiveAway(w)), lost)
  {
    var s' := Step(s, GiveAway(w));
    forall id | Owned(s, id) ensures Owned(s', id) || id in s'.given {
      var o :| o in s.objs && OwnsId(s.objs[o], id);
      assert o != w ==> o in s'.objs && OwnsId(s'.objs[o], id);
    }
  }

  lemma ConsumerReleaseKeepsInv(s: State, lost: set<nat>, id: nat)
    requires Inv(s, lost) && id in s.given
    ensures Inv(Step(s, ConsumerRelease(id)), lost)
  {
    var s' := Step(s, ConsumerRelease(id));
    forall i | Owned(s, i) ensures Owned(s', i) {
      var o :| o in s.objs && OwnsId(s.objs[o], i);
      assert o in s'.objs && OwnsId(s'.objs[o], i);
    }
  }

  /** Entering a call dereferences only live resources, so it leaves the heap as it was. */
  lemma EnterIsQuiet(s: State, db: Obj, b: Option<Obj>, engine: Body)
    requires Sound(s) && db in s.objs && s.objs[db].ADb?
    requires b.Some? ==> b.value in s.objs && s.objs[b.value].ABuilder?
    ensures Enter(s.heap, s.objs[db].h, ArgOf(s, b), engine).0 == s.heap
  {
  }


  // ---- Whole runs --------------------------------------------------------------------------------

  function Next(s: State, op: Op): State {
    if Enabled(s, op) then Step(s, op) else s
  }

  /** The resources that successful raw calls overwrote along a run. */
  function Lost(s: State, ops: seq<Op>): set<nat>
    decreases |ops|
  {
    if ops == [] then {}
    else (if Enabled(s, ops[0]) then LostBy(s, ops[0]) else {}) + Lost(Next(s, ops[0]), ops[1..])
  }

  lemma {:induction false} RunKeepsInv(s: State, lost: set<nat>, ops: seq<Op>)
    requires Inv(s, lost)
    ensures Inv(Run(s, ops), lost + Lost(s, ops))
    decreases |ops|
  {
    if ops == [] {
      assert lost + {} == lost;
    } else {
      var now := if Enabled(s, ops[0]) then LostBy(s, ops[0]) else {};
      if Enabled(s, ops[0]) {
        StepKeepsInv(s, lost, ops[0]);
      } else {
        assert lost + {} == lost;
      }
      RunKeepsInv(Next(s, ops[0]), lost + now, ops[1..]);
      assert lost + now + Lost(Next(s, ops[0]), ops[1..]) == lost + Lost(s, ops);
    }
  }

  ghost predicate Holds(s: State, w: Obj, id: nat) {
    w in s.objs && OwnsId(s.objs[w], id)
  }

  /**
   Safety of every run: nothing was used or released after its release, or released with the wrong type
   or length; every resource was released at most once, and is unreleased exactly when a wrapper or a
   consumer holds it or a raw call overwrote it; and no two of these hold the same one.
   */
  lemma RunsAreSafe(ops: seq<Op>)
    ensures var s := Run(INITIAL, ops);
            && !s.heap.fault
            && (forall id :: 0 <= id < |s.heap.cells| ==>
                  s.heap.cells[id].releases
                  == if Owned(s, id) || id in s.given || id in Lost(INITIAL, ops) then 0 else 1)
            && (forall v, w, id :: Holds(s, v, id) && Holds(s, w, id) ==>
                  v == w && id !in s.given && id !in Lost(INITIAL, ops))
            && s.given !! Lost(INITIAL, ops)
  {
    RunKeepsInv(INITIAL, {}, ops);
    assert {} + Lost(INITIAL, ops) == Lost(INITIAL, ops);
  }

  /** The streams that `Stream::release()` hands out along a run. */
  function GaveAway(s: State, ops: seq<Op>): set<nat>
    decreases |ops|
  {
    if ops == [] then {}
    else
      var out := if Enabled(s, ops[0]) && ops[0].GiveAway? then Held(s.objs[ops[0].w]) else {};
      out + GaveAway(Next(s, ops[0]), ops[1..])
  }

  /** The streams that consumers release along a run. */
  function Consumed(s: State, ops: seq<Op>): set<nat>
    decreases |ops|
  {
    if ops == [] then {}
    else
      var done := if Enabled(s, ops[0]) && ops[0].ConsumerRelease? then {ops[0].id} else {};
      done + Consumed(Next(s, ops[0]), ops[1..])
  }

  predicate Dead(h: Heap, id: nat) {
    id < |h.cells| && h.cells[id].releases > 0
  }

  lemma DeadStaysDead(s: State, op: Op, id: nat)
    requires Enabled(s, op) && Dead(s.heap, id)
    ensures Dead(Step(s, op).heap, id)
  {
  }

  /** A released stream is never handed out again. */
  lemma {:induction false} DeadIsNotGivenAway(s: State, lost: set<nat>, ops: seq<Op>, id: nat)
    requires Inv(s, lost) && Dead(s.heap, id)
    ensures id !in GaveAway(s, ops)
    decreases |ops|
  {
    if ops != [] {
      if Enabled(s, ops[0]) {
        StepKeepsInv(s, lost, ops[0]);
        DeadStaysDead(s, ops[0], id);
        DeadIsNotGivenAway(Step(s, ops[0]), lost + LostBy(s, ops[0]), ops[1..], id);
      } else {
        DeadIsNotGivenAway(s, lost, ops[1..], id);
      }
    }
  }

  /** The outstanding streams are those handed out along the run and not yet released by their consumer. */
  lemma {:induction false} GivenIsGaveAway(s: State, lost: set<nat>, ops: seq<Op>)
    requires Inv(s, lost)
    ensures Run(s, ops).given == s.given + GaveAway(s, ops) - Consumed(s, ops)
    decreases |ops|
  {
    if ops != [] {
      if Enabled(s, ops[0]) {
        var op, s' := ops[0], Step(s, ops[0]);
        StepKeepsInv(s, lost, op);
        GivenIsGaveAway(s', lost + LostBy(s, op), ops[1..]);
        if op.ConsumerRelease? {
          DeadIsNotGivenAway(s', lost + LostBy(s, op), ops[1..], op.id);
        } else if op.GiveAway? {
          assert s'.given == s.given + Held(s.objs[op.w]);
        } else {
          assert s'.given == s.given;
        }
      } else {
        GivenIsGaveAway(s, lost, ops[1..]);
      }
    }
  }

  /**
   What any run leaves unreleased once all its wrappers are destroyed: the streams that `release()` handed
   out and no consumer has released, and what raw calls overwrote. Nothing else leaks.
   */
  lemma NothingLeaks(ops: seq<Op>, id: nat)
    requires Run(INITIAL, ops).objs == map[]
    requires id < |Run(INITIAL, ops).heap.cells|
    ensures Run(INITIAL, ops).heap.cells[id].releases
            == if id in GaveAway(INITIAL, ops) - Consumed(INITIAL, ops) + Lost(INITIAL, ops) then 0 else 1
  {
    RunsAreSafe(ops);
    GivenIsGaveAway(INITIAL, {}, ops);
  }

  /** A run that has destroyed all its wrappers has leaked nothing exactly when it lost nothing. */
  lemma LeakFreeIff(ops: seq<Op>)
    requires Run(INITIAL, ops).objs == map[]
    ensures Inv(Run(INITIAL, ops), {}) <==> Lost(INITIAL, ops) == {}
  {
    RunKeepsInv(INITIAL, {}, ops);
    var lost := {} + Lost(INITIAL, ops);
    assert lost == Lost(INITIAL, ops);
    if id :| id in lost {
      assert Run(INITIAL, ops).heap.cells[id].releases == 0;
    }
  }

  /** A run loses nothing exactly when each of its raw calls that returned had a slot that owned nothing. */
  lemma {:induction false} LosesNothingIff(s: State, ops: seq<Op>)
    ensures Lost(s, ops) == {} <==>
            forall i :: 0 <= i < |ops| && IsRawCall(ops[i]) && Enabled(Run(s, ops[..i]), ops[i])
                        && Outcome(Run(s, ops[..i]), ops[i]) == Returns
                        ==> Owns(Run(s, ops[..i]).objs[ops[i].w]).None?
    decreases |ops|
  {
    if ops != [] {
      LosesNothingIff(Next(s, ops[0]), ops[1..]);
      assert ops[..0] == [];
      forall i | 0 < i < |ops| ensures Run(s, ops[..i]) == Run(Next(s, ops[0]), ops[1..][..i - 1]) {
        assert ops[..i][1..] == ops[1..][..i - 1];
      }
    }
  }

  function Destroys(order: seq<Obj>): seq<Op> {
    seq(|order|, i requires 0 <= i < |order| => Destroy(order[i]))
  }

  /**
   Wrappers can be destroyed in any order: afterwards only given-away streams and what was lost before are
   unreleased.
   */
  lemma {:induction false} DestroyInAnyOrder(s: State, lost: set<nat>, order: seq<Obj>)
    requires Inv(s, lost) && forall w :: w in s.objs ==> w in order
    ensures var end := Run(s, Destroys(order));
            && end.objs == map[] && end.given == s.given && !end.heap.fault
            && |end.heap.cells| == |s.heap.cells|
            && (forall id :: 0 <= id < |end.heap.cells| ==>
                  end.heap.cells[id].releases == if id in s.given + lost then 0 else 1)
    decreases |order|
  {
    if order == [] {
      assert s.objs == map[];
    } else {
      var op := Destroys(order)[0];
      var s' := Next(s, op);
      if Enabled(s, op) {
        StepKeepsInv(s, lost, op);
        assert lost + {} == lost;
        DestroyedReleasesOwned(s.heap, s.objs[order[0]]);
      }
      assert Destroys(order)[1..] == Destroys(order[1..]);
      forall w | w in s'.objs ensures w in order[1..] {
        assert w in order;
      }
      DestroyInAnyOrder(s', lost, order[1..]);
    }
  }

  predicate Mentions(op: Op, w: Obj) {
    match op
    case NewStream(x) => x == w
    case NewBytes(x) => x == w
    case NewBuilder(x, _) => x == w
    case OpenDb(x, _) => x == w
    case MoveConstruct(x, from) => x == w || from == w
    case MoveAssign(x, from) => x == w || from == w
    case Reset(x) => x == w
    case GiveAway(x) => x == w
    case Destroy(x) => x == w
    case QueryStream(x, _, _, _) => x == w
    case QueryInto(x, _, _, _) => x == w
    case QueryBytes(x, _, _, _) => x == w
    case BytesInto(x, _, _, _) => x == w
    case UseBuilder(x, _) => x == w
    case UseDb(x, _) => x == w
    case Pull(x) => x == w
    case ConsumerRelease(_) => false
  }

  lemma {:induction false} UntouchedWrapperStays(s: State, ops: seq<Op>, w: Obj)
    requires w in s.objs && forall op :: op in ops ==> !Mentions(op, w)
    ensures w in Run(s, ops).objs && Run(s, ops).objs[w] == s.objs[w]
    decreases |ops|
  {
    if ops != [] {
      assert !Mentions(ops[0], w);
      UntouchedWrapperStays(Next(s, ops[0]), ops[1..], w);
    }
  }

  /**
   A stream stays usable whatever else happens to other wrappers, the database and the builders it came
   from included: pulling from it later still reaches a live stream.
   */
  lemma StreamOutlivesItsDb(s: State, lost: set<nat>, ops: seq<Op>, w: Obj)
    requires Inv(s, lost) && w in s.objs && s.objs[w].AStream? && s.objs[w].s.release
    requires forall op :: op in ops ==> !Mentions(op, w)
    ensures var end := Run(s, ops);
            Enabled(end, Pull(w)) && Step(end, Pull(w)) == end
            && Live(end.heap, s.objs[w].s.data, ArrowStream)
  {
    RunKeepsInv(s, lost, ops);
    UntouchedWrapperStays(s, ops, w);
  }

  // ---- Misuse and failure --------------------------------------------------------------------------

  /** The operations that call Rust through a `Db` or a builder, and how the engine part would end. */
  predicate IsCall(op: Op) {
    op.QueryStream? || op.QueryInto? || op.QueryBytes? || op.BytesInto? || op.UseBuilder? || op.UseDb?
  }

  /** The wrappers through whose pointers an operation calls Rust. */
  function CallsThrough(op: Op): set<Obj> {
    match op
    case QueryStream(_, db, b, _) => if b.Some? then {db, b.value} else {db}
    case QueryInto(_, db, b, _) => if b.Some? then {db, b.value} else {db}
    case QueryBytes(_, db, _, _) => {db}
    case BytesInto(_, db, _, _) => {db}
    case UseBuilder(w, _) => {w}
    case UseDb(w, _) => {w}
    case _ => {}
  }

  predicate IsNull(w: Wrapper) {
    (w.ADb? && w.h.Null?) || (w.ABuilder? && w.q.Null?)
  }

  /** An operation that fails, for any reason, leaves every wrapper and every resource as it was. */
  lemma FailureChangesNothing(s: State, op: Op)
    requires Sound(s) && Enabled(s, op) && Outcome(s, op) != Returns
    ensures Step(s, op) == s
  {
    match op
    case OpenDb(_, _) =>
    case QueryStream(_, db, b, engine) => EnterIsQuiet(s, db, b, engine);
    case QueryInto(w, db, b, engine) =>
      EnterIsQuiet(s, db, b, engine);
      assert s.objs[w := s.objs[w]] == s.objs;
    case QueryBytes(_, db, _, engine) => EnterIsQuiet(s, db, None, engine);
    case BytesInto(w, db, _, engine) =>
      EnterIsQuiet(s, db, None, engine);
      assert s.objs[w := s.objs[w]] == s.objs;
    case UseBuilder(_, _) => UsesAreQuiet(s, op);
    case UseDb(_, _) => UsesAreQuiet(s, op);
  }

  /** A query method creates its wrapper exactly when the call returns; otherwise nothing has changed. */
  lemma QueryIsAllOrNothing(s: State, op: Op)
    requires Sound(s) && Enabled(s, op) && (op.OpenDb? || op.QueryStream? || op.QueryBytes?)
    ensures Outcome(s, op) == Returns <==> op.w in Step(s, op).objs
    ensures Outcome(s, op) != Returns <==> Step(s, op) == s
  {
    if Outcome(s, op) != Returns {
      FailureChangesNothing(s, op);
    }
  }

  /**
   A call through a null handle or a null builder reports INVALID_ARG, whatever the engine would have
   done, and changes nothing; any other call ends as the engine does.
   */
  lemma NullIsMisuse(s: State, op: Op)
    requires Sound(s) && Enabled(s, op) && IsCall(op)
    ensures if exists o :: o in CallsThrough(op) && IsNull(s.objs[o])
            then CodeOf(Outcome(s, op)) == CodeInvalidArg && Step(s, op) == s
            else Outcome(s, op) == op.engine
  {
    if o :| o in CallsThrough(op) && IsNull(s.objs[o]) {
      FailureChangesNothing(s, op);
    } else if op.QueryStream? || op.QueryInto? {
      assert op.db in CallsThrough(op);
      assert op.builder.Some? ==> op.builder.value in CallsThrough(op);
    } else {
      assert (if op.UseBuilder? || op.UseDb? then op.w else op.db) in CallsThrough(op);
    }
  }

  /**
   Once a `Db` or builder was moved from, by construction or by assignment, every later call through it
   reports INVALID_ARG and changes nothing, however long the run since, until something is moved into it.
   */
  lemma MovedFromIsMisuse(s: State, lost: set<nat>, w: Obj, from: Obj, move: Op, ops: seq<Op>, op: Op)
    requires Inv(s, lost) && w != from && Enabled(s, move)
    requires move == MoveConstruct(w, from) || move == MoveAssign(w, from)
    requires forall o :: o in ops ==> !Mentions(o, from)
    requires var end := Run(Step(s, move), ops);
             Enabled(end, op) && IsCall(op) && from in CallsThrough(op)
    ensures var end := Run(Step(s, move), ops);
            CodeOf(Outcome(end, op)) == CodeInvalidArg && Step(end, op) == end
  {
    var s', end := Step(s, move), Run(Step(s, move), ops);
    StepKeepsInv(s, lost, move);
    RunKeepsInv(s', lost + LostBy(s, move), ops);
    UntouchedWrapperStays(s', ops, from);
    assert s'.objs[from] == MovedFrom(s.objs[from]);
    assert end.objs[from].ADb? || end.objs[from].ABuilder?;
    NullIsMisuse(end, op);
  }

  /**
   A byte buffer handed out and freed through its wrapper: the region of exactly that length is released
   once, and the empty vector's dangling pointer is never freed.
   */
  lemma BytesRoundTrip(h: Heap, len: nat)
    ensures var (h', b) := MakeBytes(h, len);
            && b.data != NoData && b.len == len
            && BytesReset(h', b).0 == if len == 0 then h else h.(cells := h.cells + [Cell(Buffer(len), 1)])
  {
    var (h', b) := MakeBytes(h, len);
    if len > 0 {
      assert h'.cells[|h.cells| := Cell(Buffer(len), 1)] == h.cells + [Cell(Buffer(len), 1)];
    }
  }
}
