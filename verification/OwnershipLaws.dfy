/**
 What each operation does to owners and resources, said without the functions that the operations are
 made of: moves hand over, resets and destructors release, calls that return create.
 */
module OwnershipLaws {
  import opened Prelude
  import opened Utf8
  import opened ErrorChannel
  import opened Ownership
  import opened OwnershipProofs

  /** The heap differs in one thing at most: what the wrapper owned has now been released. */
  predicate ReleasedOnly(h: Heap, h': Heap, w: Wrapper) {
    && h'.fault == h.fault && |h'.cells| == |h.cells|
    && forall id :: 0 <= id < |h.cells| ==>
         h'.cells[id] == if OwnsId(w, id) then Cell(h.cells[id].kind, h.cells[id].releases + 1) else h.cells[id]
  }

  /** All wrappers but those named are there as before, and no other one is. */
  predicate SameOthers(s: State, s': State, named: set<Obj>) {
    && (forall o :: o in s.objs && o !in named ==> o in s'.objs && s'.objs[o] == s.objs[o])
    && (forall o :: o in s'.objs && o !in named ==> o in s.objs)
  }

  /**
   A move, by construction or by assignment, gives the new object the whole value of the old one, which is
   left owning nothing; an assignment releases what its target owned before. Nothing else changes.
   */
  lemma MoveHandsOver(s: State, lost: set<nat>, op: Op, w: Obj, from: Obj)
    requires Inv(s, lost) && Enabled(s, op) && w != from
    requires op == MoveConstruct(w, from) || op == MoveAssign(w, from)
    ensures var s' := Step(s, op);
            && w in s'.objs && s'.objs[w] == s.objs[from]
            && from in s'.objs && SameClass(s'.objs[from], s.objs[from]) && Owns(s'.objs[from]).None?
            && SameOthers(s, s', {w, from}) && s'.given == s.given
            && (op.MoveConstruct? ==> s'.heap == s.heap)
            && (op.MoveAssign? ==> ReleasedOnly(s.heap, s'.heap, s.objs[w]))
  {
    if op.MoveAssign? {
      DestroyedReleasesOwned(s.heap, s.objs[w]);
      AssignIsDropThenMove(s, w, from);
    }
  }

  /** `reset()` and the destructors release what the wrapper owned; a reset wrapper owns nothing. */
  lemma ResetReleases(s: State, lost: set<nat>, op: Op, w: Obj)
    requires Inv(s, lost) && Enabled(s, op) && (op == Reset(w) || op == Destroy(w))
    ensures var s' := Step(s, op);
            && ReleasedOnly(s.heap, s'.heap, s.objs[w])
            && SameOthers(s, s', {w}) && s'.given == s.given
            && (op.Destroy? ==> w !in s'.objs)
            && (op.Reset? ==>
                  w in s'.objs && SameClass(s'.objs[w], s.objs[w]) && Owns(s'.objs[w]).None?)
  {
    DestroyedReleasesOwned(s.heap, s.objs[w]);
  }

  /** `Stream::release()` passes the stream to the caller; a consumer then releases it once. */
  lemma GiveAwayHandsOver(s: State, w: Obj)
    requires Enabled(s, GiveAway(w))
    ensures var s' := Step(s, GiveAway(w));
            && s'.heap == s.heap && SameOthers(s, s', {w})
            && w in s'.objs && s'.objs[w].AStream? && Owns(s'.objs[w]).None?
            && (forall id :: id in s'.given <==> id in s.given || OwnsId(s.objs[w], id))
  {
  }

  /** What a returning call or a constructor makes: a new resource, owned by the wrapper. */
  predicate Makes(s: State, s': State, w: Obj, kind: Kind) {
    && s'.heap == Heap(s.heap.cells + [Cell(kind, 0)], s.heap.fault)
    && w in s'.objs && Owns(s'.objs[w]) == Some((|s.heap.cells|, kind))
  }

  /** No resource is made, and the wrapper owns none. */
  predicate MakesNothing(s: State, s': State, w: Obj) {
    s'.heap == s.heap && w in s'.objs && Owns(s'.objs[w]).None?
  }

  /**
   Constructors and returning calls, raw ones included: the wrapper owns a resource of the right kind that
   did not exist before; an empty byte vector needs none.
   */
  lemma CallsCreate(s: State, lost: set<nat>, op: Op)
    requires Inv(s, lost) && Enabled(s, op) && Outcome(s, op) == Returns
    ensures var s' := Step(s, op);
            match op
            case NewStream(w) => MakesNothing(s, s', w) && s'.objs[w].AStream?
            case NewBytes(w) => MakesNothing(s, s', w) && s'.objs[w].ABytes? && s'.objs[w].b.data == NoData
            case NewBuilder(w, k) => Makes(s, s', w, Builder(k))
            case OpenDb(w, _) => Makes(s, s', w, DbHandle)
            case QueryStream(w, _, _, _) => Makes(s, s', w, ArrowStream)
            case QueryInto(w, _, _, _) => Makes(s, s', w, ArrowStream)
            case QueryBytes(w, _, len, _) =>
              (if len > 0 then Makes(s, s', w, Buffer(len)) else MakesNothing(s, s', w))
              && s'.objs[w].ABytes? && s'.objs[w].b.len == len && s'.objs[w].b.data != NoData
            case BytesInto(w, _, len, _) =>
              (if len > 0 then Makes(s, s', w, Buffer(len)) else MakesNothing(s, s', w))
              && s'.objs[w].ABytes? && s'.objs[w].b.len == len && s'.objs[w].b.data != NoData
            case _ => true
    ensures op.NewStream? || op.NewBytes? || op.NewBuilder? || op.OpenDb? || op.QueryStream? || op.QueryInto?
            || op.QueryBytes? || op.BytesInto? ==>
              SameOthers(s, Step(s, op), {op.w}) && Step(s, op).given == s.given
  {
    match op
    case QueryStream(_, db, b, engine) => EnterIsQuiet(s, db, b, engine);
    case QueryInto(_, db, b, engine) => EnterIsQuiet(s, db, b, engine);
    case QueryBytes(_, db, _, engine) => EnterIsQuiet(s, db, None, engine);
    case BytesInto(_, db, _, engine) => EnterIsQuiet(s, db, None, engine);
    case _ =>
  }

  /** The message for a null builder names its type, so a caller can tell the five apart. */
  lemma NullBuilderText(a: BuilderKind, b: BuilderKind)
    ensures NullBuilder(a) == NullBuilder(b) <==> a == b
    ensures NullBuilder(LogB) == Fails(InvalidArg(Ascii("null imbh_log_query")))
    ensures NullBuilder(MetricB) == Fails(InvalidArg(Ascii("null imbh_metric_query")))
    ensures NullBuilder(SpanMetricsB) == Fails(InvalidArg(Ascii("null imbh_span_metrics_query")))
    ensures NullBuilder(TraceB) == Fails(InvalidArg(Ascii("null imbh_trace_query")))
    ensures NullBuilder(MetricPointsB) == Fails(InvalidArg(Ascii("null imbh_metric_points_query")))
  {
    assert |NullBuilder(LogB).error.reason| == 19 && |NullBuilder(MetricB).error.reason| == 22;
    assert |NullBuilder(SpanMetricsB).error.reason| == 28 && |NullBuilder(TraceB).error.reason| == 21;
    assert |NullBuilder(MetricPointsB).error.reason| == 29;
  }

  // ---- Faults ------------------------------------------------------------------------------------

  /**
   A fault is recorded exactly when a call dereferences a handle or a builder that is not live, or is of
   another type; a null pointer ends the call before anything behind it is dereferenced.
   */
  lemma DeadUseIsAFault(h: Heap, db: Ptr, q: BuilderArg, b: BuilderKind, engine: Body)
    ensures Enter(h, db, q, engine).0.fault
            <==> h.fault
                 || (db.At? && (!Live(h, db.id, DbHandle)
                                || (q.WithBuilder? && q.q.At? && !Live(h, q.q.id, Builder(q.b)))))
    ensures q.WithBuilder? ==>
              (CallSetter(h, q.b, q.q, engine).0.fault
               <==> h.fault || (q.q.At? && !Live(h, q.q.id, Builder(q.b))))
    ensures Enter(h, db, q, engine).0.cells == h.cells
  {
  }

  /**
   A fault is recorded exactly when a release hits something that is not live, or has another type or
   length; every release counts.
   */
  lemma DeadReleaseIsAFault(h: Heap, id: nat, kind: Kind)
    ensures Release(h, id, kind).fault <==> h.fault || !Live(h, id, kind)
    ensures id < |h.cells| ==>
              Release(h, id, kind).cells[id].releases == h.cells[id].releases + 1
    ensures |Release(h, id, kind).cells| == |h.cells|
    ensures forall i :: 0 <= i < |h.cells| && i != id ==> Release(h, id, kind).cells[i] == h.cells[i]
    ensures kind.Buffer? && kind.len > 0 ==>
              FreeBytes(h, BytesSlot(DataAt(id), kind.len)) == Release(h, id, kind)
  {
  }

  /** Pulling from a stream is a fault exactly when it is not live. */
  lemma DeadPullIsAFault(s: State, w: Obj)
    requires Enabled(s, Pull(w))
    ensures Step(s, Pull(w)).heap.fault <==> s.heap.fault || !Live(s.heap, s.objs[w].s.data, ArrowStream)
  {
  }

  // ---- Chains of moves ---------------------------------------------------------------------------

  /** One move of a chain: into the object `w`, new or existing. */
  datatype Hop = Into(w: Obj) | Over(w: Obj)

  function MoveOf(from: Obj, hop: Hop): Op {
    match hop
    case Into(w) => MoveConstruct(w, from)
    case Over(w) => MoveAssign(w, from)
  }

  /** The moves of a chain, each out of the object that the one before moved into. */
  function Moves(from: Obj, hops: seq<Hop>): seq<Op>
    decreases |hops|
  {
    if hops == [] then [] else [MoveOf(from, hops[0])] + Moves(hops[0].w, hops[1..])
  }

  function LastTarget(from: Obj, hops: seq<Hop>): Obj {
    if hops == [] then from else hops[|hops| - 1].w
  }

  /** Each move of the chain is possible when its turn comes. */
  predicate Possible(s: State, from: Obj, hops: seq<Hop>)
    decreases |hops|
  {
    hops == []
    || (Enabled(s, MoveOf(from, hops[0])) && Possible(Step(s, MoveOf(from, hops[0])), hops[0].w, hops[1..]))
  }

  lemma HopHandsOver(s: State, lost: set<nat>, from: Obj, hop: Hop)
    requires Inv(s, lost) && from in s.objs && Enabled(s, MoveOf(from, hop))
    ensures var s' := Step(s, MoveOf(from, hop));
            Inv(s', lost) && hop.w in s'.objs && s'.objs[hop.w] == s.objs[from]
  {
    var op := MoveOf(from, hop);
    StepKeepsInv(s, lost, op);
    assert lost + LostBy(s, op) == lost;
    if hop.w != from {
      MoveHandsOver(s, lost, op, hop.w, from);
    }
  }

  lemma RunUnfold(s: State, op: Op, rest: seq<Op>)
    requires Enabled(s, op)
    ensures Run(s, [op] + rest) == Run(Step(s, op), rest)
  {
    assert ([op] + rest)[1..] == rest;
  }

  /** After any chain of moves, self-assignments included, the last target has the first object's value. */
  lemma {:induction false} MoveChain(s: State, lost: set<nat>, from: Obj, hops: seq<Hop>)
    requires Inv(s, lost) && from in s.objs && Possible(s, from, hops)
    ensures var end, last := Run(s, Moves(from, hops)), LastTarget(from, hops);
            Inv(end, lost) && last in end.objs && end.objs[last] == s.objs[from]
    decreases |hops|
  {
    if hops != [] {
      var op, s' := MoveOf(from, hops[0]), Step(s, MoveOf(from, hops[0]));
      HopHandsOver(s, lost, from, hops[0]);
      MoveChain(s', lost, hops[0].w, hops[1..]);
      RunUnfold(s, op, Moves(hops[0].w, hops[1..]));
    }
  }

  /** The one owner of a live resource. */
  ghost predicate SoleOwner(s: State, w: Obj, id: nat, kind: Kind) {
    && w in s.objs && Owns(s.objs[w]) == Some((id, kind)) && Live(s.heap, id, kind)
    && forall o :: o in s.objs && OwnsId(s.objs[o], id) ==> o == w
  }

  /** Whatever a wrapper owns is live and owned by it alone; a chain of moves passes just this on. */
  lemma MovedResource(s: State, lost: set<nat>, from: Obj, hops: seq<Hop>, id: nat, kind: Kind)
    requires Inv(s, lost) && from in s.objs && Possible(s, from, hops)
    requires Owns(s.objs[from]) == Some((id, kind))
    ensures SoleOwner(Run(s, Moves(from, hops)), LastTarget(from, hops), id, kind)
  {
    MoveChain(s, lost, from, hops);
    SoundOwner(Run(s, Moves(from, hops)), lost, LastTarget(from, hops), id, kind);
  }

  lemma SoundOwner(s: State, lost: set<nat>, w: Obj, id: nat, kind: Kind)
    requires Inv(s, lost) && w in s.objs && Owns(s.objs[w]) == Some((id, kind))
    ensures SoleOwner(s, w, id, kind)
  {
    assert OwnsId(s.objs[w], id);
  }

  /**
   The stream of a query, however often it is moved: only the last target owns it, it is still the
   unreleased resource that the query made, and pulling through that target reaches it.
   */
  lemma QueriedStreamIsReached(s: State, lost: set<nat>, query: Op, hops: seq<Hop>)
    requires Inv(s, lost) && Enabled(s, query) && query.QueryStream? && Outcome(s, query) == Returns
    requires Possible(Step(s, query), query.w, hops)
    ensures var end, last := Run(Step(s, query), Moves(query.w, hops)), LastTarget(query.w, hops);
            var stream := |s.heap.cells|;
            && SoleOwner(end, last, stream, ArrowStream)
            && Enabled(end, Pull(last)) && end.objs[last].s.data == stream && Step(end, Pull(last)) == end
  {
    var s' := Step(s, query);
    StepKeepsInv(s, lost, query);
    assert lost + LostBy(s, query) == lost;
    CallsCreate(s, lost, query);
    MovedResource(s', lost, query.w, hops, |s.heap.cells|, ArrowStream);
    PullReaches(Run(s', Moves(query.w, hops)), LastTarget(query.w, hops), |s.heap.cells|);
  }

  lemma PullReaches(s: State, w: Obj, stream: nat)
    requires SoleOwner(s, w, stream, ArrowStream)
    ensures Enabled(s, Pull(w)) && s.objs[w].s.data == stream && Step(s, Pull(w)) == s
  {
  }
}
