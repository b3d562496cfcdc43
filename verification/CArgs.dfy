/** Decoding of C string arguments and arrays (src/lib.rs, src/query.rs): the fallible half of every setter. */
module CArgs {
  import opened Prelude
  import opened Utf8
  import opened ErrorChannel

  /** A `const char* const*` with its element count: null, or an array of that many pointers. */
  datatype CArray = NullArray(n: nat) | Items(ptrs: seq<CPtr>)

  // The messages for null pointers, shared by the entry points.

  const NULL_DB: string := "null imbh_db handle"
  const NULL_OUT: string := "null out pointer"
  const NULL_OUT_STREAM: string := "null out stream pointer"
  const NULL_LOG_QUERY: string := "null imbh_log_query"
  const NULL_POINTS_QUERY: string := "null imbh_metric_points_query"

  function Misuse(text: string): CallError {
    InvalidArg(Ascii(text))
  }

  function ReadStr(p: CPtr): Result<Str, CallError> {
    match ReadCStr(p)
    case Ok(s) => Ok(s)
    case Err(text) => Err(Misuse(text))
  }

  /**
   A string argument is refused exactly when it is null or its bytes are not the encoding of any string, and
   the message tells the two apart.
   */
  lemma BadStringIff(p: CPtr)
    ensures ReadStr(p) == Err(InvalidArg(Ascii("null string pointer"))) <==> p.Null?
    ensures ReadStr(p) == Err(InvalidArg(Ascii("string is not valid UTF-8")))
            <==> p.At? && forall s :: ScanToNul(p.mem) != Encode(s)
    ensures ReadStr(p).Ok? <==> p.At? && exists s :: ScanToNul(p.mem) == Encode(s)
  {
    assert |Ascii("null string pointer")| != |Ascii("string is not valid UTF-8")|;
    if p.At? {
      if ReadStr(p).Ok? {
        ReadCStrAccepts(p, ReadStr(p).value);
      }
      if s :| ScanToNul(p.mem) == Encode(s) {
        ReadCStrAccepts(p, s);
      }
    }
  }

  /** The element strings in order, or the error of the first element that does not decode. */
  function ReadAll(ptrs: seq<CPtr>): Result<seq<Str>, CallError> {
    if ptrs == [] then Ok([])
    else
      match ReadStr(ptrs[0])
      case Err(e) => Err(e)
      case Ok(s) =>
        match ReadAll(ptrs[1..])
        case Err(e) => Err(e)
        case Ok(rest) => Ok([s] + rest)
  }

  function ReadArray(a: CArray): Result<seq<Str>, CallError> {
    match a
    case NullArray(n) => if n == 0 then Ok([]) else Err(Misuse("null values array"))
    case Items(ptrs) => ReadAll(ptrs)
  }

  predicate AllDecodeTo(ptrs: seq<CPtr>, vs: seq<Str>) {
    |vs| == |ptrs| && forall i :: 0 <= i < |ptrs| ==> ReadStr(ptrs[i]) == Ok(vs[i])
  }

  /** Success means every element decoded, in place. */
  lemma {:induction false} ReadAllOk(ptrs: seq<CPtr>, vs: seq<Str>)
    ensures ReadAll(ptrs) == Ok(vs) <==> AllDecodeTo(ptrs, vs)
  {
    if ptrs != [] && vs != [] {
      ReadAllOk(ptrs[1..], vs[1..]);
      assert vs == [vs[0]] + vs[1..];
      assert AllDecodeTo(ptrs, vs) ==> AllDecodeTo(ptrs[1..], vs[1..]);
      if ReadStr(ptrs[0]) == Ok(vs[0]) && AllDecodeTo(ptrs[1..], vs[1..]) {
        forall i | 0 <= i < |ptrs| ensures ReadStr(ptrs[i]) == Ok(vs[i]) {
          assert i > 0 ==> ptrs[i] == ptrs[1..][i - 1] && vs[i] == vs[1..][i - 1];
        }
      }
    }
  }

  /** Failure reports the first element that does not decode, wherever it stands. */
  lemma {:induction false} ReadAllErr(ptrs: seq<CPtr>, k: nat, e: CallError)
    requires k < |ptrs| && ReadStr(ptrs[k]) == Err(e)
    requires forall i :: 0 <= i < k ==> ReadStr(ptrs[i]).Ok?
    ensures ReadAll(ptrs) == Err(e)
  {
    if k > 0 {
      assert ReadStr(ptrs[0]).Ok?;
      ReadAllErr(ptrs[1..], k - 1, e);
    }
  }

  function Prepend(out: seq<Str>, r: Result<seq<Str>, CallError>): Result<seq<Str>, CallError> {
    match r
    case Ok(vs) => Ok(out + vs)
    case Err(e) => Err(e)
  }

  lemma PrependTwice(a: seq<Str>, b: seq<Str>, r: Result<seq<Str>, CallError>)
    ensures Prepend(a, Prepend(b, r)) == Prepend(a + b, r)
    ensures Prepend([], r) == r
  {
    if r.Ok? {
      assert a + (b + r.value) == a + b + r.value;
      assert [] + r.value == r.value;
    }
  }

  lemma ReadAllCons(p: CPtr, rest: seq<CPtr>)
    ensures ReadStr(p).Ok? ==> ReadAll([p] + rest) == Prepend([ReadStr(p).value], ReadAll(rest))
    ensures ReadStr(p).Err? ==> ReadAll([p] + rest) == Err(ReadStr(p).error)
  {
    assert ([p] + rest)[1..] == rest;
  }

  lemma {:induction false} ReadAllSplit(done: seq<CPtr>, out: seq<Str>, rest: seq<CPtr>)
    requires ReadAll(done) == Ok(out)
    ensures ReadAll(done + rest) == Prepend(out, ReadAll(rest))
  {
    if done == [] {
      assert done + rest == rest;
      PrependTwice([], [], ReadAll(rest));
    } else {
      var p, ps := done[0], done[1..];
      ReadAllCons(p, ps);
      assert done == [p] + ps;
      var tail := ReadAll(ps).value;
      ReadAllSplit(ps, tail, rest);
      ReadAllCons(p, ps + rest);
      Associate([p], ps, rest);
      PrependTwice([ReadStr(p).value], tail, ReadAll(rest));
    }
  }

  /** The loop shared by `read_str_array` and `read_promote_keys`. */
  method ReadItems(ptrs: seq<CPtr>) returns (r: Result<seq<Str>, CallError>)
    ensures r == ReadAll(ptrs)
  {
    var out: seq<Str> := [];
    var i := 0;
    while i < |ptrs|
      invariant 0 <= i <= |ptrs|
      invariant ReadAll(ptrs[..i]) == Ok(out)
    {
      var rest := ptrs[i..];
      assert ptrs == ptrs[..i] + rest;
      ReadAllSplit(ptrs[..i], out, rest);
      var s :- ReadStr(ptrs[i]);
      assert ptrs[..i + 1] == ptrs[..i] + [ptrs[i]];
      ReadAllOk([ptrs[i]], [s]);
      ReadAllSplit(ptrs[..i], out, [ptrs[i]]);
      out := out + [s];
      i := i + 1;
    }
    assert ptrs[..i] == ptrs;
    r := Ok(out);
  }

  method ReadStrArray(a: CArray) returns (r: Result<seq<Str>, CallError>)
    ensures r == ReadArray(a)
  {
    match a {
      case NullArray(n) =>
        if n == 0 {
          return Ok([]);
        }
        return Err(Misuse("null values array"));
      case Items(ptrs) =>
        r := ReadItems(ptrs);
    }
  }

  /** `read_promote_keys` differs from `read_str_array` in one case: a null array of positive length. */
  method ReadPromoteKeys(a: CArray) returns (r: Result<seq<Str>, CallError>)
    ensures r == ReadArray(a) <==> !(a.NullArray? && a.n > 0)
    ensures a.NullArray? ==> r == Ok([])
  {
    match a {
      case NullArray(_) => r := Ok([]);
      case Items(ptrs) => r := ReadItems(ptrs);
    }
  }

  /** `detail::cstrs`: the C strings of a vector of `std::string`. */
  function CStrs(vs: seq<Str>): seq<CPtr> {
    seq(|vs|, i requires 0 <= i < |vs| => CStrOf(Encode(vs[i])))
  }

  /** A vector of C++ strings arrives unchanged exactly when none of them contains a NUL. */
  lemma CppVectorArrives(vs: seq<Str>)
    ensures ReadAll(CStrs(vs)) == Ok(vs) <==> forall i :: 0 <= i < |vs| ==> 0 !in vs[i]
  {
    ReadAllOk(CStrs(vs), vs);
    assert ReadAll(CStrs(vs)) == Ok(vs) <==> AllDecodeTo(CStrs(vs), vs);
    forall i | 0 <= i < |vs| ensures ReadStr(CStrs(vs)[i]) == Ok(vs[i]) <==> 0 !in vs[i] {
      CppStringArrives(Encode(vs[i]), vs[i]);
    }
  }
}
