/**
 The typed log-query builder (src/query.rs): an opaque handle whose setters and adders decode C
 arguments and may fail halfway. What a run of calls leaves in the builder is determined by the calls
 that returned OK.
 */
module LogBuilder {
  import opened Prelude
  import opened Utf8
  import opened ErrorChannel
  import opened CArgs
  import opened Histories

  datatype Kv = Kv(key: Str, value: Str)
  datatype KeyValues = KeyValues(key: Str, values: seq<Str>)
  datatype TimeRange = TimeRange(start: I64, end: I64)

  datatype NumOp = Gt | Ge | Lt | Le
  datatype NumFilter = NumFilter(key: Str, op: NumOp, value: F64)
  datatype Direction = Backward | Forward

  /** The proto message behind `imbh_log_query`. */
  datatype Message = Message(
    service: Option<Str>,
    minSeverity: Option<nat>,
    text: Option<Str>,
    range: Option<TimeRange>,
    limit: U64,
    direction: Direction,
    offset: U64,
    attrEq: seq<Kv>,
    attrExists: seq<Str>,
    attrMatches: seq<Kv>,
    attrRegex: seq<Kv>,
    attrIn: seq<KeyValues>,
    attrNotIn: seq<KeyValues>,
    attrNum: seq<NumFilter>)

  const DEFAULT: Message :=
    Message(None, None, None, None, 0, Backward, 0, [], [], [], [], [], [], [])

  /** A setter or adder call with its raw C arguments. */
  datatype Call =
    | SetService(arg: CPtr)
    | SetMinSeverity(min: nat)
    | SetText(arg: CPtr)
    | SetRange(start: I64, end: I64)
    | SetLimit(limit: U64)
    | SetDirection(direction: Direction)
    | SetOffset(offset: U64)
    | AddAttrEq(key: CPtr, value: CPtr)
    | AddAttrExists(key: CPtr)
    | AddAttrMatches(key: CPtr, value: CPtr)
    | AddAttrRegex(key: CPtr, value: CPtr)
    | AddAttrIn(key: CPtr, values: CArray)
    | AddAttrNotIn(key: CPtr, values: CArray)
    | AddAttrNum(key: CPtr, op: NumOp, bits: F64)

  /** A call whose arguments have been decoded. */
  datatype Edit =
    | Service(s: Str)
    | MinSeverity(min: nat)
    | Text(s: Str)
    | Range(r: TimeRange)
    | Limit(n: U64)
    | Dir(d: Direction)
    | Offset(n: U64)
    | AttrEq(kv: Kv)
    | AttrExists(s: Str)
    | AttrMatches(kv: Kv)
    | AttrRegex(kv: Kv)
    | AttrIn(kvs: KeyValues)
    | AttrNotIn(kvs: KeyValues)
    | AttrNum(f: NumFilter)

  function ReadKv(key: CPtr, value: CPtr): Result<Kv, CallError> {
    var k :- ReadStr(key);
    var v :- ReadStr(value);
    Ok(Kv(k, v))
  }

  function ReadKvs(key: CPtr, values: CArray): Result<KeyValues, CallError> {
    var k :- ReadStr(key);
    var vs :- ReadArray(values);
    Ok(KeyValues(k, vs))
  }

  /** Arguments are decoded left to right; the first failure is the call's error. */
  function Decoded(c: Call): Result<Edit, CallError> {
    match c
    case SetService(p) => var s :- ReadStr(p); Ok(Service(s))
    case SetMinSeverity(n) => Ok(MinSeverity(n))
    case SetText(p) => var s :- ReadStr(p); Ok(Text(s))
    case SetRange(a, b) => Ok(Range(TimeRange(a, b)))
    case SetLimit(n) => Ok(Limit(n))
    case SetDirection(d) => Ok(Dir(d))
    case SetOffset(n) => Ok(Offset(n))
    case AddAttrEq(k, v) => var kv :- ReadKv(k, v); Ok(AttrEq(kv))
    case AddAttrExists(k) => var s :- ReadStr(k); Ok(AttrExists(s))
    case AddAttrMatches(k, v) => var kv :- ReadKv(k, v); Ok(AttrMatches(kv))
    case AddAttrRegex(k, v) => var kv :- ReadKv(k, v); Ok(AttrRegex(kv))
    case AddAttrIn(k, vs) => var kvs :- ReadKvs(k, vs); Ok(AttrIn(kvs))
    case AddAttrNotIn(k, vs) => var kvs :- ReadKvs(k, vs); Ok(AttrNotIn(kvs))
    case AddAttrNum(k, op, x) => var s :- ReadStr(k); Ok(AttrNum(NumFilter(s, op, x)))
  }

  function Apply(m: Message, e: Edit): Message {
    match e
    case Service(s) => m.(service := Some(s))
    case MinSeverity(n) => m.(minSeverity := Some(n))
    case Text(s) => m.(text := Some(s))
    case Range(r) => m.(range := Some(r))
    case Limit(n) => m.(limit := n)
    case Dir(d) => m.(direction := d)
    case Offset(n) => m.(offset := n)
    case AttrEq(kv) => m.(attrEq := m.attrEq + [kv])
    case AttrExists(s) => m.(attrExists := m.attrExists + [s])
    case AttrMatches(kv) => m.(attrMatches := m.attrMatches + [kv])
    case AttrRegex(kv) => m.(attrRegex := m.attrRegex + [kv])
    case AttrIn(kvs) => m.(attrIn := m.attrIn + [kvs])
    case AttrNotIn(kvs) => m.(attrNotIn := m.attrNotIn + [kvs])
    case AttrNum(f) => m.(attrNum := m.attrNum + [f])
  }

  /** The effect of one call: a call that fails leaves the message alone. */
  function Step(m: Message, c: Call): Message {
    match Decoded(c)
    case Ok(e) => Apply(m, e)
    case Err(_) => m
  }

  /** What a setter reports; the builder pointer is checked before any argument. */
  ghost predicate Reports(r: Result<(), CallError>, q: LogQuery?, c: Call) {
    r == if q == null then Err(Misuse(NULL_LOG_QUERY))
         else match Decoded(c) case Ok(_) => Ok(()) case Err(e) => Err(e)
  }

  class LogQuery {
    var inner: Message

    constructor ()
      ensures inner == DEFAULT
      ensures inner.service == inner.text == None && inner.minSeverity == None && inner.range == None
      ensures inner.limit == inner.offset == 0 && inner.direction == Backward
      ensures inner.attrEq == inner.attrMatches == inner.attrRegex == [] && inner.attrExists == []
      ensures inner.attrIn == inner.attrNotIn == [] && inner.attrNum == []
    {
      inner := DEFAULT;
    }
  }

  /** `builder_mut!`. */
  function BuilderMut(q: LogQuery?): (r: Result<LogQuery, CallError>)
    ensures r.Ok? <==> q != null
    ensures r.Ok? ==> r.value == q
  {
    if q == null then Err(Misuse(NULL_LOG_QUERY)) else Ok(q)
  }

  method LogQuerySetService(q: LogQuery?, arg: CPtr) returns (r: Result<(), CallError>)
    modifies q
    ensures Reports(r, q, SetService(arg))
    ensures q != null ==> q.inner == Step(old(q.inner), SetService(arg))
  {
    var b :- BuilderMut(q);
    var s :- ReadStr(arg);
    b.inner := b.inner.(service := Some(s));
    r := Ok(());
  }

  method LogQuerySetMinSeverity(q: LogQuery?, min: nat) returns (r: Result<(), CallError>)
    modifies q
    ensures Reports(r, q, SetMinSeverity(min))
    ensures q != null ==> q.inner == Step(old(q.inner), SetMinSeverity(min))
  {
    var b :- BuilderMut(q);
    b.inner := b.inner.(minSeverity := Some(min));
    r := Ok(());
  }

  method LogQuerySetText(q: LogQuery?, arg: CPtr) returns (r: Result<(), CallError>)
    modifies q
    ensures Reports(r, q, SetText(arg))
    ensures q != null ==> q.inner == Step(old(q.inner), SetText(arg))
  {
    var b :- BuilderMut(q);
    var s :- ReadStr(arg);
    b.inner := b.inner.(text := Some(s));
    r := Ok(());
  }

  method LogQuerySetRange(q: LogQuery?, start: I64, end: I64) returns (r: Result<(), CallError>)
    modifies q
    ensures Reports(r, q, SetRange(start, end))
    ensures q != null ==> q.inner == Step(old(q.inner), SetRange(start, end))
  {
    var b :- BuilderMut(q);
    b.inner := b.inner.(range := Some(TimeRange(start, end)));
    r := Ok(());
  }

  method LogQuerySetLimit(q: LogQuery?, limit: U64) returns (r: Result<(), CallError>)
    modifies q
    ensures Reports(r, q, SetLimit(limit))
    ensures q != null ==> q.inner == Step(old(q.inner), SetLimit(limit))
  {
    var b :- BuilderMut(q);
    b.inner := b.inner.(limit := limit);
    r := Ok(());
  }

  method LogQuerySetDirection(q: LogQuery?, direction: Direction) returns (r: Result<(), CallError>)
    modifies q
    ensures Reports(r, q, SetDirection(direction))
    ensures q != null ==> q.inner == Step(old(q.inner), SetDirection(direction))
  {
    var b :- BuilderMut(q);
    b.inner := b.inner.(direction := direction);
    r := Ok(());
  }

  method LogQuerySetOffset(q: LogQuery?, offset: U64) returns (r: Result<(), CallError>)
    modifies q
    ensures Reports(r, q, SetOffset(offset))
    ensures q != null ==> q.inner == Step(old(q.inner), SetOffset(offset))
  {
    var b :- BuilderMut(q);
    b.inner := b.inner.(offset := offset);
    r := Ok(());
  }

  method LogQueryAddAttrEq(q: LogQuery?, key: CPtr, value: CPtr) returns (r: Result<(), CallError>)
    modifies q
    ensures Reports(r, q, AddAttrEq(key, value))
    ensures q != null ==> q.inner == Step(old(q.inner), AddAttrEq(key, value))
  {
    var b :- BuilderMut(q);
    var k :- ReadStr(key);
    var v :- ReadStr(value);
    b.inner := b.inner.(attrEq := b.inner.attrEq + [Kv(k, v)]);
    r := Ok(());
  }

  method LogQueryAddAttrExists(q: LogQuery?, key: CPtr) returns (r: Result<(), CallError>)
    modifies q
    ensures Reports(r, q, AddAttrExists(key))
    ensures q != null ==> q.inner == Step(old(q.inner), AddAttrExists(key))
  {
    var b :- BuilderMut(q);
    var k :- ReadStr(key);
    b.inner := b.inner.(attrExists := b.inner.attrExists + [k]);
    r := Ok(());
  }

  method LogQueryAddAttrMatches(q: LogQuery?, key: CPtr, value: CPtr) returns (r: Result<(), CallError>)
    modifies q
    ensures Reports(r, q, AddAttrMatches(key, value))
    ensures q != null ==> q.inner == Step(old(q.inner), AddAttrMatches(key, value))
  {
    var b :- BuilderMut(q);
    var k :- ReadStr(key);
    var v :- ReadStr(value);
    b.inner := b.inner.(attrMatches := b.inner.attrMatches + [Kv(k, v)]);
    r := Ok(());
  }

  method LogQueryAddAttrRegex(q: LogQuery?, key: CPtr, value: CPtr) returns (r: Result<(), CallError>)
    modifies q
    ensures Reports(r, q, AddAttrRegex(key, value))
    ensures q != null ==> q.inner == Step(old(q.inner), AddAttrRegex(key, value))
  {
    var b :- BuilderMut(q);
    var k :- ReadStr(key);
    var v :- ReadStr(value);
    b.inner := b.inner.(attrRegex := b.inner.attrRegex + [Kv(k, v)]);
    r := Ok(());
  }

  method LogQueryAddAttrIn(q: LogQuery?, key: CPtr, values: CArray) returns (r: Result<(), CallError>)
    modifies q
    ensures Reports(r, q, AddAttrIn(key, values))
    ensures q != null ==> q.inner == Step(old(q.inner), AddAttrIn(key, values))
  {
    var b :- BuilderMut(q);
    var k :- ReadStr(key);
    var vs :- ReadStrArray(values);
    b.inner := b.inner.(attrIn := b.inner.attrIn + [KeyValues(k, vs)]);
    r := Ok(());
  }

  method LogQueryAddAttrNotIn(q: LogQuery?, key: CPtr, values: CArray) returns (r: Result<(), CallError>)
    modifies q
    ensures Reports(r, q, AddAttrNotIn(key, values))
    ensures q != null ==> q.inner == Step(old(q.inner), AddAttrNotIn(key, values))
  {
    var b :- BuilderMut(q);
    var k :- ReadStr(key);
    var vs :- ReadStrArray(values);
    b.inner := b.inner.(attrNotIn := b.inner.attrNotIn + [KeyValues(k, vs)]);
    r := Ok(());
  }

  method LogQueryAddAttrNum(q: LogQuery?, key: CPtr, op: NumOp, bits: F64) returns (r: Result<(), CallError>)
    modifies q
    ensures Reports(r, q, AddAttrNum(key, op, bits))
    ensures q != null ==> q.inner == Step(old(q.inner), AddAttrNum(key, op, bits))
  {
    var b :- BuilderMut(q);
    var k :- ReadStr(key);
    b.inner := b.inner.(attrNum := b.inner.attrNum + [NumFilter(k, op, bits)]);
    r := Ok(());
  }

  // ---- What each call does, from its raw arguments -------------------------------------------------

  /** Each setter replaces its own field with its own arguments, and nothing else. */
  lemma SettersSet(m: Message, p: CPtr, s: Str, n: nat, start: I64, end: I64, d: Direction, u: U64)
    ensures ReadStr(p) == Ok(s) ==>
              Step(m, SetService(p)) == m.(service := Some(s)) && Step(m, SetText(p)) == m.(text := Some(s))
    ensures Step(m, SetMinSeverity(n)) == m.(minSeverity := Some(n))
    ensures Step(m, SetRange(start, end)) == m.(range := Some(TimeRange(start, end)))
    ensures Step(m, SetLimit(u)) == m.(limit := u)
    ensures Step(m, SetDirection(d)) == m.(direction := d)
    ensures Step(m, SetOffset(u)) == m.(offset := u)
  {
  }

  /** Each adder appends its own key and value to its own list, and changes nothing else. */
  lemma AddersAppend(m: Message, k: CPtr, v: CPtr, key: Str, value: Str)
    requires ReadStr(k) == Ok(key) && ReadStr(v) == Ok(value)
    ensures Step(m, AddAttrEq(k, v)) == m.(attrEq := m.attrEq + [Kv(key, value)])
    ensures Step(m, AddAttrMatches(k, v)) == m.(attrMatches := m.attrMatches + [Kv(key, value)])
    ensures Step(m, AddAttrRegex(k, v)) == m.(attrRegex := m.attrRegex + [Kv(key, value)])
  {
  }

  /** So do the adders that take a key alone, or a key with an operator and a number. */
  lemma KeyAddersAppend(m: Message, k: CPtr, key: Str, op: NumOp, bits: F64)
    requires ReadStr(k) == Ok(key)
    ensures Step(m, AddAttrExists(k)) == m.(attrExists := m.attrExists + [key])
    ensures Step(m, AddAttrNum(k, op, bits)) == m.(attrNum := m.attrNum + [NumFilter(key, op, bits)])
  {
  }

  /** An array adder appends the key with all the values, in order; null stands for an empty array only. */
  lemma ArrayAddersAppend(m: Message, k: CPtr, values: CArray, key: Str, vs: seq<Str>)
    requires ReadStr(k) == Ok(key)
    requires (values == NullArray(0) && vs == []) || (values.Items? && AllDecodeTo(values.ptrs, vs))
    ensures Step(m, AddAttrIn(k, values)) == m.(attrIn := m.attrIn + [KeyValues(key, vs)])
    ensures Step(m, AddAttrNotIn(k, values)) == m.(attrNotIn := m.attrNotIn + [KeyValues(key, vs)])
  {
    if values.Items? {
      ReadAllOk(values.ptrs, vs);
    }
  }

  /** The calls with a string as their first argument. */
  predicate FirstArgumentIs(c: Call, p: CPtr) {
    match c
    case SetService(q) => q == p
    case SetText(q) => q == p
    case AddAttrEq(q, _) => q == p
    case AddAttrExists(q) => q == p
    case AddAttrMatches(q, _) => q == p
    case AddAttrRegex(q, _) => q == p
    case AddAttrIn(q, _) => q == p
    case AddAttrNotIn(q, _) => q == p
    case AddAttrNum(q, _, _) => q == p
    case _ => false
  }

  /** A call whose first string does not decode reports that, whatever its other arguments are. */
  lemma BadFirstArgument(m: Message, c: Call, p: CPtr, e: CallError)
    requires FirstArgumentIs(c, p) && ReadStr(p) == Err(e)
    ensures Decoded(c) == Err(e) && Step(m, c) == m
  {
  }

  /** With a good key, a bad value is reported, and so is a null array that should have elements. */
  lemma BadSecondArgument(m: Message, k: CPtr, v: CPtr, n: nat, e: CallError)
    requires ReadStr(k).Ok? && ReadStr(v) == Err(e) && n > 0
    ensures forall c :: c in [AddAttrEq(k, v), AddAttrMatches(k, v), AddAttrRegex(k, v)] ==>
              Decoded(c) == Err(e) && Step(m, c) == m
    ensures forall c :: c in [AddAttrIn(k, NullArray(n)), AddAttrNotIn(k, NullArray(n))] ==>
              Decoded(c) == Err(InvalidArg(Ascii("null values array"))) && Step(m, c) == m
  {
  }

  // ---- Runs of calls -----------------------------------------------------------------------------

  /** The builder's message after a run of calls on a fresh builder. */
  function After(calls: seq<Call>): Message {
    if calls == [] then DEFAULT else Step(After(calls[..|calls| - 1]), calls[|calls| - 1])
  }

  /** The decoded arguments of exactly the calls that returned OK, in call order. */
  function Accepted(calls: seq<Call>): seq<Edit> {
    if calls == [] then []
    else
      var before := Accepted(calls[..|calls| - 1]);
      match Decoded(calls[|calls| - 1])
      case Ok(e) => before + [e]
      case Err(_) => before
  }

  function IsService(e: Edit): Option<Str> { if e.Service? then Some(e.s) else None }
  function IsMinSeverity(e: Edit): Option<nat> { if e.MinSeverity? then Some(e.min) else None }
  function IsText(e: Edit): Option<Str> { if e.Text? then Some(e.s) else None }
  function IsRange(e: Edit): Option<TimeRange> { if e.Range? then Some(e.r) else None }
  function IsLimit(e: Edit): Option<U64> { if e.Limit? then Some(e.n) else None }
  function IsDirection(e: Edit): Option<Direction> { if e.Dir? then Some(e.d) else None }
  function IsOffset(e: Edit): Option<U64> { if e.Offset? then Some(e.n) else None }
  function IsAttrEq(e: Edit): Option<Kv> { if e.AttrEq? then Some(e.kv) else None }
  function IsAttrExists(e: Edit): Option<Str> { if e.AttrExists? then Some(e.s) else None }
  function IsAttrMatches(e: Edit): Option<Kv> { if e.AttrMatches? then Some(e.kv) else None }
  function IsAttrRegex(e: Edit): Option<Kv> { if e.AttrRegex? then Some(e.kv) else None }
  function IsAttrIn(e: Edit): Option<KeyValues> { if e.AttrIn? then Some(e.kvs) else None }
  function IsAttrNotIn(e: Edit): Option<KeyValues> { if e.AttrNotIn? then Some(e.kvs) else None }
  function IsAttrNum(e: Edit): Option<NumFilter> { if e.AttrNum? then Some(e.f) else None }

  /** Field by field: a set field holds its last accepted value, an added-to field all of them in order. */
  function FieldByField(edits: seq<Edit>): Message {
    Message(
      Last(edits, IsService),
      Last(edits, IsMinSeverity),
      Last(edits, IsText),
      Last(edits, IsRange),
      Or(Last(edits, IsLimit), 0),
      Or(Last(edits, IsDirection), Backward),
      Or(Last(edits, IsOffset), 0),
      All(edits, IsAttrEq),
      All(edits, IsAttrExists),
      All(edits, IsAttrMatches),
      All(edits, IsAttrRegex),
      All(edits, IsAttrIn),
      All(edits, IsAttrNotIn),
      All(edits, IsAttrNum))
  }

  lemma FieldByFieldStep(edits: seq<Edit>, e: Edit)
    ensures FieldByField(edits + [e]) == Apply(FieldByField(edits), e)
  {
    assert (edits + [e])[..|edits|] == edits;
  }

  /**
   After any run of calls, failing ones included, each field of the builder is the last value (or the
   list of values) given to that field by the calls that returned OK, and nothing else.
   */
  lemma {:induction false} RunIsFieldByField(calls: seq<Call>)
    ensures After(calls) == FieldByField(Accepted(calls))
  {
    if calls != [] {
      var n := |calls| - 1;
      RunIsFieldByField(calls[..n]);
      var before := Accepted(calls[..n]);
      match Decoded(calls[n])
      case Err(_) =>
      case Ok(e) => FieldByFieldStep(before, e);
    }
  }

  /** One call of the C interface, by the setter or adder that it names. */
  method Perform(q: LogQuery?, c: Call) returns (r: Result<(), CallError>)
    modifies q
    ensures Reports(r, q, c)
    ensures q != null ==> q.inner == Step(old(q.inner), c)
  {
    match c {
      case SetService(p) => r := LogQuerySetService(q, p);
      case SetMinSeverity(n) => r := LogQuerySetMinSeverity(q, n);
      case SetText(p) => r := LogQuerySetText(q, p);
      case SetRange(a, b) => r := LogQuerySetRange(q, a, b);
      case SetLimit(n) => r := LogQuerySetLimit(q, n);
      case SetDirection(d) => r := LogQuerySetDirection(q, d);
      case SetOffset(n) => r := LogQuerySetOffset(q, n);
      case AddAttrEq(k, v) => r := LogQueryAddAttrEq(q, k, v);
      case AddAttrExists(k) => r := LogQueryAddAttrExists(q, k);
      case AddAttrMatches(k, v) => r := LogQueryAddAttrMatches(q, k, v);
      case AddAttrRegex(k, v) => r := LogQueryAddAttrRegex(q, k, v);
      case AddAttrIn(k, vs) => r := LogQueryAddAttrIn(q, k, vs);
      case AddAttrNotIn(k, vs) => r := LogQueryAddAttrNotIn(q, k, vs);
      case AddAttrNum(k, op, x) => r := LogQueryAddAttrNum(q, k, op, x);
    }
  }

  /**
   A client that makes any calls on a fresh builder and goes on after failures: the builder holds, field by
   field, what the calls that returned OK gave it.
   */
  method Build(calls: seq<Call>) returns (q: LogQuery, results: seq<Result<(), CallError>>)
    ensures fresh(q) && q.inner == FieldByField(Accepted(calls))
    ensures |results| == |calls| && forall i :: 0 <= i < |calls| ==> Reports(results[i], q, calls[i])
  {
    q := new LogQuery();
    results := [];
    var i := 0;
    while i < |calls|
      invariant 0 <= i <= |calls|
      invariant q.inner == After(calls[..i])
      invariant |results| == i && forall j :: 0 <= j < i ==> Reports(results[j], q, calls[j])
    {
      var r := Perform(q, calls[i]);
      results := results + [r];
      assert calls[..i + 1][..i] == calls[..i];
      i := i + 1;
    }
    assert calls[..i] == calls;
    RunIsFieldByField(calls);
  }

  lemma {:induction false} AfterSplit(a: seq<Call>, b: seq<Call>, a': seq<Call>)
    requires After(a) == After(a')
    ensures After(a + b) == After(a' + b)
  {
    if b == [] {
      assert a + b == a && a' + b == a';
    } else {
      var n := |b| - 1;
      AfterSplit(a, b[..n], a');
      assert (a + b)[..|a + b| - 1] == a + b[..n];
      assert (a' + b)[..|a' + b| - 1] == a' + b[..n];
    }
  }

  /** A failed call can be struck from a run, wherever it stands, without a trace in the builder. */
  lemma FailedCallIsInvisible(before: seq<Call>, c: Call, after: seq<Call>)
    requires Decoded(c).Err?
    ensures After(before + [c] + after) == After(before + after)
  {
    assert (before + [c])[..|before|] == before;
    AfterSplit(before + [c], after, before);
  }

  /**
   An array argument with one bad element at any position `k` fails the whole call with that element's
   error, although the elements before it were already decoded.
   */
  lemma BadElementRejectsCall(m: Message, key: CPtr, ptrs: seq<CPtr>, k: nat, e: CallError)
    requires ReadStr(key).Ok?
    requires k < |ptrs| && ReadStr(ptrs[k]) == Err(e)
    requires forall i :: 0 <= i < k ==> ReadStr(ptrs[i]).Ok?
    ensures Decoded(AddAttrIn(key, Items(ptrs))) == Err(e) && Step(m, AddAttrIn(key, Items(ptrs))) == m
    ensures Decoded(AddAttrNotIn(key, Items(ptrs))) == Err(e) && Step(m, AddAttrNotIn(key, Items(ptrs))) == m
  {
    ReadAllErr(ptrs, k, e);
  }

  lemma AttrInAccepts(k: CPtr, ptrs: seq<CPtr>, key: Str, vs: seq<Str>)
    ensures Decoded(AddAttrIn(k, Items(ptrs))) == Ok(AttrIn(KeyValues(key, vs)))
            <==> ReadStr(k) == Ok(key) && ReadAll(ptrs) == Ok(vs)
  {
  }

  /**
   `LogQuery::attr_in` of the C++ wrapper: the call is accepted with its own arguments, unchanged,
   exactly when neither the key nor any value contains a NUL.
   */
  lemma CppAttrInArrives(key: Str, vs: seq<Str>)
    ensures Decoded(AddAttrIn(CStrOf(Encode(key)), Items(CStrs(vs)))) == Ok(AttrIn(KeyValues(key, vs)))
            <==> 0 !in key && forall i :: 0 <= i < |vs| ==> 0 !in vs[i]
  {
    var k, ptrs := CStrOf(Encode(key)), CStrs(vs);
    AttrInAccepts(k, ptrs, key, vs);
    assert ReadStr(k) == Ok(key) <==> 0 !in key by {
      CppStringArrives(Encode(key), key);
    }
    CppVectorArrives(vs);
  }
}
