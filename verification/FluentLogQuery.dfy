/**
 The C++ `LogQuery` methods (include/imbh.hpp) end to end: the wrapper's pointer, the Rust builder behind
 it, the error channel and the exception. The Rust builders are boxed by their resource identity.
 */
module FluentLogQuery {
  import opened Prelude
  import opened Utf8
  import opened ErrorChannel
  import opened CArgs
  import opened Ownership
  import opened Wrappers
  import LogBuilder

  /** The builders that `imbh_log_query_new` boxed, by resource. */
  type Boxes = map<nat, LogBuilder.LogQuery>

  /** A `LogQuery` wrapper whose pointer is null or leads to a live, boxed builder. */
  ghost predicate Attached(q: Query, lib: Library, boxes: Boxes)
    reads q, lib
  {
    q.kind == LogB && (q.q.At? ==> q.q.id in boxes && Live(lib.heap, q.q.id, Builder(LogB)))
  }

  /** The builder that a wrapper's pointer leads to. */
  function Target(q: Query, boxes: Boxes): LogBuilder.LogQuery?
    requires q.q.At? ==> q.q.id in boxes
    reads q
  {
    if q.q.At? then boxes[q.q.id] else null
  }

  /** How the guarded body of a setter ends. */
  function BodyOf(r: Result<(), CallError>): Body {
    match r
    case Ok(_) => Returns
    case Err(e) => Fails(e)
  }

  /** A builder call can fail only with misuse: a null pointer or a string that is not UTF-8. */
  lemma OnlyMisuse(c: LogBuilder.Call)
    ensures LogBuilder.Decoded(c).Err? ==> CodeOf(BodyOf(Err(LogBuilder.Decoded(c).error))) == CodeInvalidArg
  {
    match c
    case AddAttrIn(k, vs) => ArrayMisuse(vs);
    case AddAttrNotIn(k, vs) => ArrayMisuse(vs);
    case _ =>
  }

  lemma ArrayMisuse(a: CArray)
    ensures ReadArray(a).Err? ==> ReadArray(a).error.InvalidArg?
  {
    if a.Items? {
      ElementMisuse(a.ptrs);
    }
  }

  lemma {:induction false} ElementMisuse(ptrs: seq<CPtr>)
    ensures ReadAll(ptrs).Err? ==> ReadAll(ptrs).error.InvalidArg?
  {
    if ptrs != [] {
      ElementMisuse(ptrs[1..]);
    }
  }

  /** A call all of whose arguments decode. */
  predicate Good(c: LogBuilder.Call) {
    LogBuilder.Decoded(c).Ok?
  }

  /** The exception that a call's arguments cause: that of the first one that does not decode. */
  function Throws(c: LogBuilder.Call): (r: Option<Exception>)
    ensures r.None? <==> Good(c)
    ensures r.Some? ==> r.value.code == CodeInvalidArg
  {
    OnlyMisuse(c);
    match LogBuilder.Decoded(c)
    case Ok(_) => None
    case Err(e) => ThrownFor(Fails(e))
  }

  /** `LogQuery::LogQuery()`. */
  method New(lib: Library, boxes: Boxes) returns (q: Query, boxes': Boxes)
    modifies lib`heap
    ensures fresh(q) && Attached(q, lib, boxes') && q.q == Ptr.At(|old(lib.heap).cells|)
    ensures lib.heap == Alloc(old(lib.heap), Builder(LogB))
    ensures boxes'.Keys == boxes.Keys + {q.q.id} && forall id :: id in boxes && id != q.q.id ==> boxes'[id] == boxes[id]
    ensures fresh(boxes'[q.q.id]) && boxes'[q.q.id].inner == LogBuilder.DEFAULT
  {
    q := new Query(lib, LogB);
    var inner := new LogBuilder.LogQuery();
    boxes' := boxes[q.q.id := inner];
  }

  /**
   A fluent setter or adder. It throws INVALID_ARG exactly when the wrapper was moved from or an argument
   does not decode, with the message of that error; then the builder is as it was. Otherwise the builder's
   message has the call applied. No resource and no other builder changes.
   */
  method Call(q: Query, lib: Library, boxes: Boxes, t: Thread, c: LogBuilder.Call) returns (thrown: Option<Exception>)
    requires Attached(q, lib, boxes)
    modifies lib`heap, lib.errors, Target(q, boxes)
    ensures lib.heap == old(lib.heap)
    ensures thrown == if q.q.At? then Throws(c) else ThrownFor(NullBuilder(LogB))
    ensures thrown.Some? ==> thrown.value.code == CodeInvalidArg
    ensures q.q.At? ==> boxes[q.q.id].inner == LogBuilder.Step(old(boxes[q.q.id].inner), c)
  {
    var r := LogBuilder.Perform(Target(q, boxes), c);
    thrown := q.Setter(lib, t, BodyOf(r));
  }

  /** The next call of a chain, after `calls[..done]`. */
  method Next(q: Query, lib: Library, boxes: Boxes, t: Thread, calls: seq<LogBuilder.Call>, done: nat)
    returns (thrown: Option<Exception>)
    requires Attached(q, lib, boxes) && q.q.At? && done < |calls|
    requires boxes[q.q.id].inner == LogBuilder.After(calls[..done])
    modifies lib`heap, lib.errors, boxes[q.q.id]
    ensures lib.heap == old(lib.heap) && thrown == Throws(calls[done])
    ensures boxes[q.q.id].inner == LogBuilder.After(calls[..if thrown.None? then done + 1 else done])
  {
    thrown := Call(q, lib, boxes, t, calls[done]);
    AfterNext(calls, done);
  }

  /** The calls of a chain on a wrapper that has not been moved from, up to the first that throws. */
  method RunChain(q: Query, lib: Library, boxes: Boxes, t: Thread, calls: seq<LogBuilder.Call>)
    returns (done: nat, thrown: Option<Exception>)
    requires Attached(q, lib, boxes) && q.q.At? && boxes[q.q.id].inner == LogBuilder.DEFAULT
    modifies lib`heap, lib.errors, boxes[q.q.id]
    ensures lib.heap == old(lib.heap) && done <= |calls|
    ensures thrown == if done < |calls| then Throws(calls[done]) else None
    ensures thrown.None? ==> done == |calls|
    ensures forall i :: 0 <= i < done ==> Good(calls[i])
    ensures boxes[q.q.id].inner == LogBuilder.After(calls[..done])
  {
    done, thrown := 0, None;
    while done < |calls|
      invariant lib.heap == old(lib.heap) && done <= |calls| && thrown == None
      invariant forall i :: 0 <= i < done ==> Good(calls[i])
      invariant boxes[q.q.id].inner == LogBuilder.After(calls[..done])
    {
      thrown := Next(q, lib, boxes, t, calls, done);
      if thrown.Some? {
        return;
      }
      done := done + 1;
    }
  }

  /**
   A fluent chain on a new `LogQuery`: it runs up to the first call with an argument that does not decode,
   and throws that argument's error. The builder then holds, field by field, what the calls before it gave
   (all calls, when none fails).
   */
  method Chain(lib: Library, boxes: Boxes, t: Thread, calls: seq<LogBuilder.Call>)
    returns (q: Query, boxes': Boxes, done: nat, thrown: Option<Exception>)
    modifies lib`heap, lib.errors
    ensures lib.heap == Alloc(old(lib.heap), Builder(LogB)) && Attached(q, lib, boxes') && q.q.At?
    ensures done <= |calls| && forall i :: 0 <= i < done ==> Good(calls[i])
    ensures thrown == if done < |calls| then Throws(calls[done]) else None
    ensures thrown.None? ==> done == |calls|
    ensures boxes'[q.q.id].inner == LogBuilder.FieldByField(LogBuilder.Accepted(calls[..done]))
    ensures |LogBuilder.Accepted(calls[..done])| == done
  {
    q, boxes' := New(lib, boxes);
    done, thrown := RunChain(q, lib, boxes', t, calls);
    LogBuilder.RunIsFieldByField(calls[..done]);
    AllAccepted(calls[..done]);
  }

  lemma AfterNext(calls: seq<LogBuilder.Call>, i: nat)
    requires i < |calls|
    ensures LogBuilder.After(calls[..i + 1]) == LogBuilder.Step(LogBuilder.After(calls[..i]), calls[i])
    ensures !Good(calls[i]) ==> LogBuilder.After(calls[..i + 1]) == LogBuilder.After(calls[..i])
  {
    assert calls[..i + 1][..i] == calls[..i];
  }

  lemma {:induction false} AllAccepted(calls: seq<LogBuilder.Call>)
    requires forall i :: 0 <= i < |calls| ==> Good(calls[i])
    ensures |LogBuilder.Accepted(calls)| == |calls|
  {
    if calls != [] {
      assert Good(calls[|calls| - 1]);
      AllAccepted(calls[..|calls| - 1]);
    }
  }
}
