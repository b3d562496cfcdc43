/**
 The error channel of the C ABI (src/error.rs): every guarded body becomes a result code plus a
 message in the calling thread's slot.
 */
module ErrorChannel {
  import opened Prelude
  import opened Utf8

  type Thread = nat

  datatype Code =
    | CodeOk | CodeInvalidArg | CodePanic | CodeNotFound | CodeBackpressure
    | CodeOpen | CodeIngest | CodeQuery | CodeStorage | CodeConfig | CodeClosed

  /** The engine's error categories; `Future` stands for one added after this binding was written. */
  datatype Category = Open | Ingest | Query | Storage | Config | Closed | Future

  datatype EngineError = EngineError(backpressure: bool, notFound: bool, category: Category, text: Str)

  datatype CallError = Imbh(error: EngineError) | InvalidArg(reason: Str) | QueryFailed(reason: Str)

  datatype Payload = StaticText(text: Str) | OwnedText(text: Str) | Opaque

  /** How a guarded body ends. */
  datatype Body = Returns | Fails(error: CallError) | Panics(payload: Payload)

  /** An error that neither stable classifier claims. */
  predicate Plain(e: EngineError) {
    !e.backpressure && !e.notFound
  }

  /** The stable classifiers win over the category. */
  function Classify(e: EngineError): (c: Code)
    ensures c == CodeBackpressure <==> e.backpressure
    ensures c == CodeNotFound <==> e.notFound && !e.backpressure
    ensures c == CodeOpen <==> Plain(e) && e.category == Open
    ensures c == CodeIngest <==> Plain(e) && e.category == Ingest
    ensures c == CodeQuery <==> Plain(e) && e.category == Query
    ensures c == CodeStorage <==> Plain(e) && (e.category == Storage || e.category == Future)
    ensures c == CodeConfig <==> Plain(e) && e.category == Config
    ensures c == CodeClosed <==> Plain(e) && e.category == Closed
  {
    if e.backpressure then CodeBackpressure
    else if e.notFound then CodeNotFound
    else
      match e.category
      case Open => CodeOpen
      case Ingest => CodeIngest
      case Query => CodeQuery
      case Storage => CodeStorage
      case Config => CodeConfig
      case Closed => CodeClosed
      case Future => CodeStorage
  }

  function PanicMessage(p: Payload): Str {
    match p
    case StaticText(s) => s
    case OwnedText(s) => s
    case Opaque => Ascii("unknown panic")
  }

  /** A code that only an engine error, or a query that does not translate, can have. */
  predicate EngineCode(c: Code) {
    c != CodeOk && c != CodeInvalidArg && c != CodePanic
  }

  function CodeOf(b: Body): (c: Code)
    ensures c == CodeOk <==> b == Returns
    ensures c == CodePanic <==> b.Panics?
    ensures c == CodeInvalidArg <==> b.Fails? && b.error.InvalidArg?
    ensures b.Fails? && b.error.Imbh? ==> c == Classify(b.error.error)
    ensures b.Fails? && b.error.QueryFailed? ==> c == CodeQuery
    ensures EngineCode(c) ==> b.Fails? && (b.error.Imbh? || (b.error.QueryFailed? && c == CodeQuery))
  {
    match b
    case Returns => CodeOk
    case Fails(InvalidArg(_)) => CodeInvalidArg
    case Fails(QueryFailed(_)) => CodeQuery
    case Fails(Imbh(e)) => Classify(e)
    case Panics(_) => CodePanic
  }

  function MessageOf(b: Body): Str
    requires b != Returns
  {
    match b
    case Fails(InvalidArg(m)) => m
    case Fails(QueryFailed(m)) => m
    case Fails(Imbh(e)) => e.text
    case Panics(p) => Ascii("panic: ") + PanicMessage(p)
  }

  // ---- Cleaning a message ------------------------------------------------------------------------

  /** `msg.replace('\0', "\u{fffd}")`. */
  function Clean(m: Str): (c: Str)
    ensures |c| == |m|
    ensures forall i :: 0 <= i < |m| ==> c[i] == if m[i] == 0 then REPLACEMENT else m[i]
  {
    seq(|m|, i requires 0 <= i < |m| => if m[i] == 0 then REPLACEMENT else m[i])
  }

  /** `CString::new`: refuses a buffer with an interior NUL, otherwise terminates it. */
  function CStringNew(b: Bytes): Option<Memory> {
    if 0 in b then None
    else
      assert (b + [0])[|b|] == 0;
      Some(b + [0])
  }

  function Nuls(m: Str): nat {
    if m == [] then 0 else (if m[0] == 0 then 1 else 0) + Nuls(m[1..])
  }

  /** The slot contents for a message: what `set_last_error` stores. */
  function Stored(m: Str): Memory {
    var b := Encode(Clean(m));
    assert (b + [0])[|b|] == 0;
    b + [0]
  }

  /** A cleaned message has no NUL byte, so `CString::new` accepts it and its fallback never runs. */
  lemma CleanedIsAccepted(m: Str)
    ensures CStringNew(Encode(Clean(m))) == Some(Stored(m))
  {
    NulInEncoding(Clean(m));
    assert 0 !in Clean(m);
  }

  /** Reading the returned pointer up to its first NUL recovers the whole cleaned message, as UTF-8. */
  lemma StoredReadsBack(m: Str)
    ensures ScanToNul(Stored(m)) == Encode(Clean(m))
    ensures ReadCStr(At(Stored(m))) == Ok(Clean(m))
    ensures Clean(m) == m <==> 0 !in m
  {
    var b := Encode(Clean(m));
    CleanedIsAccepted(m);
    assert b + [0] + [] == Stored(m);
    ScanUnique(b, []);
    ReadCStrAccepts(At(Stored(m)), Clean(m));
  }

  lemma ReplacementBytes()
    ensures EncodeScalar(REPLACEMENT) == [0xEF, 0xBF, 0xBD]
  {
    assert High(REPLACEMENT) == 1023 && High(1023) == 15;
  }

  lemma CleanAround(before: Str, after: Str)
    ensures Clean(before + [0] + after) == Clean(before) + [REPLACEMENT] + Clean(after)
  {
  }

  lemma EncodeAround(before: Str, c: Scalar, after: Str)
    ensures Encode(before + [c] + after) == Encode(before) + EncodeScalar(c) + Encode(after)
  {
    assert before + [c] + after == before + ([c] + after);
    EncodeAppend(before, [c] + after);
    EncodeCons(c, after);
    Associate(Encode(before), EncodeScalar(c), Encode(after));
  }

  /** In the stored bytes a NUL becomes EF BF BD, and what stands before and after it is kept. */
  lemma NulIsReplaced(before: Str, after: Str)
    ensures Encode(Clean(before + [0] + after))
            == Encode(Clean(before)) + [0xEF, 0xBF, 0xBD] + Encode(Clean(after))
  {
    CleanAround(before, after);
    EncodeAround(Clean(before), REPLACEMENT, Clean(after));
    ReplacementBytes();
  }

  lemma {:induction false} CleanedWidth(m: Str)
    ensures TotalWidth(Clean(m)) == TotalWidth(m) + 2 * Nuls(m)
  {
    if m != [] {
      CleanedWidth(m[1..]);
      assert Clean(m)[1..] == Clean(m[1..]);
    }
  }

  /** Each NUL costs exactly two more bytes (EF BF BD instead of 00). */
  lemma CleanedLength(m: Str)
    ensures |Encode(Clean(m))| == |Encode(m)| + 2 * Nuls(m)
  {
    CleanedWidth(m);
    EncodedLength(m);
    EncodedLength(Clean(m));
  }

  // ---- The thread-local slots --------------------------------------------------------------------

  /** One slot per thread; a thread without an entry has an empty slot. */
  type Slots = map<Thread, Memory>

  function AfterGuard(slots: Slots, t: Thread, b: Body): Slots {
    if b == Returns then slots - {t} else slots[t := Stored(MessageOf(b))]
  }

  class LastErrors {
    var slots: Slots

    constructor ()
      ensures slots == map[]
    {
      slots := map[];
    }

    method SetLastError(t: Thread, msg: Str)
      modifies this
      ensures slots == old(slots)[t := Stored(msg)]
    {
      var cleaned := Clean(msg);
      var c := CStringNew(Encode(cleaned));
      CleanedIsAccepted(msg);
      if c.None? {
        c := CStringNew(Encode(Ascii("error")));
      }
      slots := slots[t := c.value];
    }

    method ClearLastError(t: Thread)
      modifies this
      ensures slots == old(slots) - {t}
    {
      slots := slots - {t};
    }

    method Guard(t: Thread, body: Body) returns (code: Code)
      modifies this
      ensures code == CodeOf(body)
      ensures slots == AfterGuard(old(slots), t, body)
    {
      match body {
        case Returns =>
          ClearLastError(t);
          code := CodeOk;
        case Fails(InvalidArg(msg)) =>
          SetLastError(t, msg);
          code := CodeInvalidArg;
        case Fails(QueryFailed(msg)) =>
          SetLastError(t, msg);
          code := CodeQuery;
        case Fails(Imbh(e)) =>
          code := Classify(e);
          SetLastError(t, e.text);
        case Panics(payload) =>
          SetLastError(t, Ascii("panic: ") + PanicMessage(payload));
          code := CodePanic;
      }
    }

    /** `imbh_last_error_message`: a borrowed pointer, or null. */
    method LastErrorMessage(t: Thread) returns (p: CPtr)
      ensures p == MessagePointer(slots, t)
    {
      if t in slots {
        p := At(slots[t]);
      } else {
        p := CPtr.Null;
      }
    }

    /** `check` of the C++ wrapper: the exception thrown for a non-OK code, if any. */
    method Check(t: Thread, code: Code) returns (thrown: Option<Exception>)
      ensures thrown == Thrown(slots, t, code)
    {
      thrown := None;
      if code != CodeOk {
        var m := LastErrorMessage(t);
        match m {
          case At(mem) => thrown := Some(Exception(code, ScanToNul(mem)));
          case Null => thrown := Some(Exception(code, Encode(Ascii("imbh error"))));
        }
      }
    }
  }

  datatype Exception = Exception(code: Code, what: Bytes)

  function MessagePointer(slots: Slots, t: Thread): CPtr {
    if t in slots then At(slots[t]) else CPtr.Null
  }

  function Thrown(slots: Slots, t: Thread, code: Code): Option<Exception> {
    if code == CodeOk then None
    else if t in slots then Some(Exception(code, ScanToNul(slots[t])))
    else Some(Exception(code, Encode(Ascii("imbh error"))))
  }

  // ---- Runs over interleaved threads -------------------------------------------------------------

  /**
   One call on some thread. `Unguarded` is a call that bypasses `guard`: the `*_new` and `*_free`
   functions, `imbh_bytes_free`, and reading the message itself.
   */
  datatype Event = Guarded(thread: Thread, body: Body) | Unguarded(thread: Thread)

  type Trace = seq<Event>

  function AfterEvent(slots: Slots, e: Event): Slots {
    match e
    case Guarded(t, b) => AfterGuard(slots, t, b)
    case Unguarded(_) => slots
  }

  function SlotsAfter(trace: Trace): Slots {
    if trace == [] then map[] else AfterEvent(SlotsAfter(trace[..|trace| - 1]), trace[|trace| - 1])
  }

  /** No event of `trace` from index `i` on is a guarded call of thread `t`. */
  predicate QuietFrom(trace: Trace, t: Thread, i: nat) {
    forall j :: i <= j < |trace| ==> !(trace[j].Guarded? && trace[j].thread == t)
  }

  /** Event `i` is the latest guarded call of thread `t`. */
  predicate IsLatest(trace: Trace, t: Thread, i: nat) {
    i < |trace| && trace[i].Guarded? && trace[i].thread == t && QuietFrom(trace, t, i + 1)
  }

  /**
   The slot of a thread after its latest guarded call: empty when that call returned OK, otherwise that
   call's cleaned message, whatever other threads and unguarded calls did since.
   */
  lemma {:induction false} SlotHoldsLatest(trace: Trace, t: Thread, i: nat)
    requires IsLatest(trace, t, i)
    ensures trace[i].body == Returns ==> t !in SlotsAfter(trace)
    ensures trace[i].body != Returns ==> t in SlotsAfter(trace) && SlotsAfter(trace)[t] == Stored(MessageOf(trace[i].body))
  {
    var n := |trace| - 1;
    if i < n {
      var shorter := trace[..n];
      assert shorter[i] == trace[i];
      assert IsLatest(shorter, t, i) by {
        assert forall j :: i + 1 <= j < n ==> shorter[j] == trace[j];
      }
      SlotHoldsLatest(shorter, t, i);
      assert !(trace[n].Guarded? && trace[n].thread == t);
    }
  }

  lemma {:induction false} SlotOfQuietThread(trace: Trace, t: Thread)
    requires QuietFrom(trace, t, 0)
    ensures t !in SlotsAfter(trace)
  {
    if trace != [] {
      var n := |trace| - 1;
      assert QuietFrom(trace[..n], t, 0) by {
        assert forall j :: 0 <= j < n ==> trace[..n][j] == trace[j];
      }
      SlotOfQuietThread(trace[..n], t);
      assert !(trace[n].Guarded? && trace[n].thread == t);
    }
  }

  lemma LatestExists(trace: Trace, t: Thread, from: nat) returns (i: nat)
    requires !QuietFrom(trace, t, from)
    ensures IsLatest(trace, t, i) && from <= i
    decreases |trace| - from
  {
    var j :| from <= j < |trace| && trace[j].Guarded? && trace[j].thread == t;
    i := j;
    if !QuietFrom(trace, t, j + 1) {
      i := LatestExists(trace, t, j + 1);
    }
  }

  /** A thread's slot is non-empty exactly when its latest guarded call exists and failed. */
  lemma SlotNonEmptyIff(trace: Trace, t: Thread)
    ensures t in SlotsAfter(trace) <==> exists i: nat :: IsLatest(trace, t, i) && trace[i].body != Returns
  {
    forall i: nat | IsLatest(trace, t, i) && trace[i].body != Returns ensures t in SlotsAfter(trace) {
      SlotHoldsLatest(trace, t, i);
    }
    if QuietFrom(trace, t, 0) {
      SlotOfQuietThread(trace, t);
    } else {
      var i := LatestExists(trace, t, 0);
      SlotHoldsLatest(trace, t, i);
    }
  }

  /**
   What a C or C++ caller reads after a failed call, once any events without a guarded call of its own
   thread have happened (`imbh_db_free` before printing, other threads' calls): exactly the failed
   call's cleaned message. The fallback text of `check` and the `(no message)` text are unreachable.
   */
  lemma FailureIsReported(before: Trace, t: Thread, b: Body, after: Trace)
    requires b != Returns && QuietFrom(after, t, 0)
    ensures var slots := SlotsAfter(before + [Guarded(t, b)] + after);
            && ReadCStr(MessagePointer(slots, t)) == Ok(Clean(MessageOf(b)))
            && Thrown(slots, t, CodeOf(b)) == Some(Exception(CodeOf(b), Encode(Clean(MessageOf(b)))))
  {
    var trace := before + [Guarded(t, b)] + after;
    var i := |before|;
    assert trace[i] == Guarded(t, b);
    assert QuietFrom(trace, t, i + 1) by {
      forall j | i + 1 <= j < |trace| ensures trace[j] == after[j - i - 1] {
      }
    }
    SlotHoldsLatest(trace, t, i);
    StoredReadsBack(MessageOf(b));
  }

  lemma PlainMessage(text: string, rest: Str)
    requires forall i :: 0 <= i < |text| ==> 0 < text[i] as int < 128
    ensures var bytes := seq(|text|, i requires 0 <= i < |text| => text[i] as int);
            Encode(Clean(Ascii(text) + rest)) == bytes + Encode(Clean(rest))
  {
    var a := Ascii(text);
    assert Clean(a + rest) == a + Clean(rest);
    EncodeAppend(a, Clean(rest));
    EncodeAscii(a);
    assert a == seq(|text|, i requires 0 <= i < |text| => text[i] as int);
  }

  /** The bytes of `panic: `. */
  const PANIC_PREFIX: Bytes := [0x70, 0x61, 0x6E, 0x69, 0x63, 0x3A, 0x20]

  lemma PanicText(s: Str)
    ensures Encode(Clean(Ascii("panic: ") + s)) == PANIC_PREFIX + Encode(Clean(s))
  {
    PlainMessage("panic: ", s);
    assert seq(7, i requires 0 <= i < 7 => "panic: "[i] as int) == PANIC_PREFIX;
  }

  /**
   Which code and text a C++ caller catches for each way a call can fail: an engine error's own text, a
   misuse's or failed query's reason, and a panic's payload after `panic: `, each with NULs replaced.
   */
  lemma FailureText(before: Trace, t: Thread, b: Body)
    requires b != Returns
    ensures var thrown := Thrown(SlotsAfter(before + [Guarded(t, b)]), t, CodeOf(b));
            && thrown.Some?
            && (forall e :: b == Fails(Imbh(e)) ==>
                  thrown.value == Exception(Classify(e), Encode(Clean(e.text))))
            && (forall m :: b == Fails(InvalidArg(m)) ==>
                  thrown.value == Exception(CodeInvalidArg, Encode(Clean(m))))
            && (forall m :: b == Fails(QueryFailed(m)) ==>
                  thrown.value == Exception(CodeQuery, Encode(Clean(m))))
            && (forall m :: b == Panics(StaticText(m)) || b == Panics(OwnedText(m)) ==>
                  thrown.value == Exception(CodePanic, PANIC_PREFIX + Encode(Clean(m))))
            && (b == Panics(Opaque) ==>
                  thrown.value == Exception(CodePanic, PANIC_PREFIX + Encode(Clean(Ascii("unknown panic")))))
  {
    FailureIsReported(before, t, b, []);
    assert before + [Guarded(t, b)] + [] == before + [Guarded(t, b)];
    if b.Panics? {
      PanicText(PanicMessage(b.payload));
    }
  }

  /**
   The header documents a null message after any successful `imbh_*` call. The code meets that for a
   successful call exactly when the call is guarded or the slot was already empty before it.
   */
  lemma SuccessClearsIff(trace: Trace, e: Event)
    requires e.Guarded? ==> e.body == Returns
    ensures MessagePointer(SlotsAfter(trace + [e]), e.thread) == CPtr.Null
            <==> e.Guarded? || MessagePointer(SlotsAfter(trace), e.thread) == CPtr.Null
  {
    assert (trace + [e])[..|trace|] == trace;
  }

  /** A stale message: a failed setter, then a successful `imbh_log_query_new` on the same thread. */
  lemma StaleMessageExample(t: Thread)
    ensures MessagePointer(SlotsAfter([Guarded(t, Fails(InvalidArg(Ascii("null string pointer")))), Unguarded(t)]), t)
            != CPtr.Null
  {
    var failed := Guarded(t, Fails(InvalidArg(Ascii("null string pointer"))));
    assert [failed, Unguarded(t)][..1] == [failed];
    assert [failed][..0] == [];
  }
}
