/**
 The metric-points builder (src/query.rs). It has no proto message: the native query is assembled from
 the stashed inputs each time it runs.
 */
module PointsBuilder {
  import opened Prelude
  import opened Utf8
  import opened ErrorChannel
  import opened CArgs
  import opened Histories

  datatype Kind = Gauge | Sum | Histogram

  /** The engine's fluent `MetricPointsQuery`; `limit: None` leaves its default page size in place. */
  datatype Native = Native(
    kind: Kind,
    metric: Str,
    filters: seq<(Str, Str)>,
    range: Option<(I64, I64)>,
    limit: Option<U64>)
  {
    function Filter(k: Str, v: Str): Native { this.(filters := filters + [(k, v)]) }
    function Within(r: (I64, I64)): Native { this.(range := Some(r)) }
    function Limit(n: U64): Native { this.(limit := Some(n)) }
  }

  datatype Event =
    | SetMetric(arg: CPtr)
    | AddFilter(key: CPtr, value: CPtr)
    | SetRange(start: I64, end: I64)
    | SetLimit(n: U64)
    | RunQuery

  /** The stashed inputs, as a value. */
  datatype Inputs = Inputs(metric: Str, filters: seq<(Str, Str)>, range: Option<(I64, I64)>, limit: U64)

  const EMPTY: Inputs := Inputs([], [], None, 0)

  function Step(i: Inputs, e: Event): Inputs {
    match e
    case SetMetric(p) =>
      (match ReadStr(p)
       case Ok(s) => i.(metric := s)
       case Err(_) => i)
    case AddFilter(k, v) =>
      if ReadStr(k).Ok? && ReadStr(v).Ok?
      then i.(filters := i.filters + [(ReadStr(k).value, ReadStr(v).value)])
      else i
    case SetRange(a, b) => i.(range := Some((a, b)))
    case SetLimit(n) => i.(limit := n)
    case RunQuery => i
  }

  class MetricPointsQuery {
    const kind: Kind
    var metric: Str
    var filters: seq<(Str, Str)>
    var range: Option<(I64, I64)>
    var limit: U64

    constructor (kind: Kind)
      ensures this.kind == kind && Stashed() == EMPTY
      ensures metric == [] && filters == [] && range == None && limit == 0
    {
      this.kind := kind;
      metric, filters, range, limit := [], [], None, 0;
    }

    function Stashed(): Inputs
      reads this
    {
      Inputs(metric, filters, range, limit)
    }
  }

  /** Arguments are decoded left to right; the first failure is the call's error. */
  function Checked(e: Event): Result<(), CallError> {
    match e
    case SetMetric(p) => var s :- ReadStr(p); Ok(())
    case AddFilter(k, v) => var key :- ReadStr(k); var value :- ReadStr(v); Ok(())
    case _ => Ok(())
  }

  /** What a setter reports; the builder pointer is checked before any argument. */
  ghost predicate Reports(r: Result<(), CallError>, q: MetricPointsQuery?, e: Event) {
    r == if q == null then Err(Misuse(NULL_POINTS_QUERY)) else Checked(e)
  }

  method SetPointsMetric(q: MetricPointsQuery?, arg: CPtr) returns (r: Result<(), CallError>)
    modifies q
    ensures Reports(r, q, SetMetric(arg))
    ensures q != null ==> q.Stashed() == Step(old(q.Stashed()), SetMetric(arg))
  {
    if q == null {
      return Err(Misuse(NULL_POINTS_QUERY));
    }
    var s :- ReadStr(arg);
    q.metric := s;
    r := Ok(());
  }

  method AddPointsFilter(q: MetricPointsQuery?, key: CPtr, value: CPtr) returns (r: Result<(), CallError>)
    modifies q
    ensures Reports(r, q, AddFilter(key, value))
    ensures q != null ==> q.Stashed() == Step(old(q.Stashed()), AddFilter(key, value))
  {
    if q == null {
      return Err(Misuse(NULL_POINTS_QUERY));
    }
    var k :- ReadStr(key);
    var v :- ReadStr(value);
    q.filters := q.filters + [(k, v)];
    r := Ok(());
  }

  method SetPointsRange(q: MetricPointsQuery?, start: I64, end: I64) returns (r: Result<(), CallError>)
    modifies q
    ensures Reports(r, q, SetRange(start, end))
    ensures q != null ==> q.Stashed() == Step(old(q.Stashed()), SetRange(start, end))
  {
    if q == null {
      return Err(Misuse(NULL_POINTS_QUERY));
    }
    q.range := Some((start, end));
    r := Ok(());
  }

  method SetPointsLimit(q: MetricPointsQuery?, limit: U64) returns (r: Result<(), CallError>)
    modifies q
    ensures Reports(r, q, SetLimit(limit))
    ensures q != null ==> q.Stashed() == Step(old(q.Stashed()), SetLimit(limit))
  {
    if q == null {
      return Err(Misuse(NULL_POINTS_QUERY));
    }
    q.limit := limit;
    r := Ok(());
  }

  /**
   Each call does to its own field what its raw arguments say, and nothing else; a call with a string that
   does not decode does nothing and reports the first such string.
   */
  lemma CallsEdit(i: Inputs, p: CPtr, v: CPtr, s: Str, start: I64, end: I64, n: U64)
    requires ReadStr(p) == Ok(s)
    ensures Step(i, SetMetric(p)) == i.(metric := s)
    ensures forall value :: ReadStr(v) == Ok(value) ==>
              Step(i, AddFilter(p, v)) == i.(filters := i.filters + [(s, value)])
              && FilterOf(AddFilter(p, v)) == Some((s, value))
    ensures forall e :: ReadStr(v) == Err(e) ==>
              && Step(i, SetMetric(v)) == i && Checked(SetMetric(v)) == Err(e)
              && Step(i, AddFilter(p, v)) == i && Checked(AddFilter(p, v)) == Err(e)
              && Step(i, AddFilter(v, p)) == i && Checked(AddFilter(v, p)) == Err(e)
    ensures Step(i, SetRange(start, end)) == i.(range := Some((start, end)))
    ensures Step(i, SetLimit(n)) == i.(limit := n)
  {
  }

  /** The native query that a builder with these inputs runs. */
  function NativeOf(kind: Kind, i: Inputs): Native {
    Native(kind, i.metric, i.filters, i.range, if i.limit > 0 then Some(i.limit) else None)
  }

  /** The assembly inside `imbh_db_metrics_points`; it reads the builder and changes nothing. */
  method Assemble(q: MetricPointsQuery?) returns (r: Result<Native, CallError>)
    ensures r == if q == null then Err(Misuse(NULL_POINTS_QUERY)) else Ok(NativeOf(q.kind, q.Stashed()))
  {
    if q == null {
      return Err(Misuse(NULL_POINTS_QUERY));
    }
    var built := Native(q.kind, q.metric, [], None, None);
    var i := 0;
    while i < |q.filters|
      invariant 0 <= i <= |q.filters|
      invariant built == Native(q.kind, q.metric, q.filters[..i], None, None)
    {
      built := built.Filter(q.filters[i].0, q.filters[i].1);
      i := i + 1;
    }
    assert q.filters[..i] == q.filters;
    if q.range.Some? {
      built := built.Within(q.range.value);
    }
    if q.limit > 0 {
      built := built.Limit(q.limit);
    }
    r := Ok(built);
  }

  // ---- Runs: setter calls, failing or not, and query executions in any order ----------------------

  function After(history: seq<Event>): Inputs {
    if history == [] then EMPTY else Step(After(history[..|history| - 1]), history[|history| - 1])
  }

  function MetricOf(e: Event): Option<Str> {
    if e.SetMetric? && ReadStr(e.arg).Ok? then Some(ReadStr(e.arg).value) else None
  }

  function FilterOf(e: Event): Option<(Str, Str)> {
    if e.AddFilter? && ReadStr(e.key).Ok? && ReadStr(e.value).Ok?
    then Some((ReadStr(e.key).value, ReadStr(e.value).value))
    else None
  }

  function RangeOf(e: Event): Option<(I64, I64)> {
    if e.SetRange? then Some((e.start, e.end)) else None
  }

  function LimitOf(e: Event): Option<U64> {
    if e.SetLimit? then Some(e.n) else None
  }

  /** The native query read off the call history alone. */
  function Described(kind: Kind, history: seq<Event>): Native {
    var limit := Or(Last(history, LimitOf), 0);
    Native(
      kind,
      Or(Last(history, MetricOf), []),
      All(history, FilterOf),
      Last(history, RangeOf),
      if limit == 0 then None else Some(limit))
  }

  /**
   The query that runs after any history is the one the history describes: last accepted metric, range
   and limit, accepted filters in call order. Failed calls and earlier executions leave no trace.
   */
  lemma {:induction false} NativeIsDescribed(kind: Kind, history: seq<Event>)
    ensures NativeOf(kind, After(history)) == Described(kind, history)
    ensures After(history).limit == Or(Last(history, LimitOf), 0)
  {
    if history != [] {
      NativeIsDescribed(kind, history[..|history| - 1]);
    }
  }

  /**
   An accepted metric, or a range or limit, that no later accepted call of its kind replaced is the one the
   query runs with, whatever else was called since.
   */
  lemma LatestWins(kind: Kind, history: seq<Event>, i: nat)
    requires i < |history|
    ensures var q := NativeOf(kind, After(history));
            && q.kind == kind
            && (MetricOf(history[i]).Some? && (forall j :: i < j < |history| ==> MetricOf(history[j]).None?) ==>
                  q.metric == MetricOf(history[i]).value)
            && (history[i].SetRange? && (forall j :: i < j < |history| ==> !history[j].SetRange?) ==>
                  q.range == Some((history[i].start, history[i].end)))
            && (history[i].SetLimit? && (forall j :: i < j < |history| ==> !history[j].SetLimit?) ==>
                  q.limit == if history[i].n == 0 then None else Some(history[i].n))
  {
    NativeIsDescribed(kind, history);
    if MetricOf(history[i]).Some? && forall j :: i < j < |history| ==> MetricOf(history[j]).None? {
      LastIs(history, MetricOf, i);
    }
    if history[i].SetRange? && forall j :: i < j < |history| ==> !history[j].SetRange? {
      LastIs(history, RangeOf, i);
    }
    if history[i].SetLimit? && forall j :: i < j < |history| ==> !history[j].SetLimit? {
      LastIs(history, LimitOf, i);
    }
  }

  function Without(history: seq<Event>, drop: Event -> bool): seq<Event> {
    if history == [] then []
    else
      var before := Without(history[..|history| - 1], drop);
      if drop(history[|history| - 1]) then before else before + [history[|history| - 1]]
  }

  predicate IsRun(e: Event) { e.RunQuery? }

  predicate IsLimit(e: Event) { e.SetLimit? }

  /** Running the query any number of times between edits does not matter. */
  lemma {:induction false} RunningIsInvisible(history: seq<Event>)
    ensures After(Without(history, IsRun)) == After(history)
  {
    if history != [] {
      var n := |history| - 1;
      RunningIsInvisible(history[..n]);
      var before := Without(history[..n], IsRun);
      assert (before + [history[n]])[..|before|] == before;
    }
  }

  lemma {:induction false} WithoutLimits(history: seq<Event>)
    ensures After(Without(history, IsLimit)) == After(history).(limit := 0)
  {
    if history != [] {
      var n := |history| - 1;
      WithoutLimits(history[..n]);
      var before := Without(history[..n], IsLimit);
      assert (before + [history[n]])[..|before|] == before;
    }
  }

  /** Setting the limit to 0 runs the query of a history in which no limit was ever set. */
  lemma ZeroLimitIsUnset(kind: Kind, history: seq<Event>)
    ensures NativeOf(kind, After(history + [SetLimit(0)])) == NativeOf(kind, After(Without(history, IsLimit)))
  {
    assert (history + [SetLimit(0)])[..|history|] == history;
    WithoutLimits(history);
  }
}
