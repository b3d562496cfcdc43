/**
 Who owns the last-error strings (src/error.rs). The pointer that `imbh_last_error_message` returns is
 borrowed from the thread's slot: here the strings are resources that are dropped when their slot is
 cleared or overwritten, and the pointer is an identity that may outlive them.
 */
module MessageLifetime {
  import opened Utf8
  import opened ErrorChannel

  /** A `CString` that `set_last_error` made, and whether it has been dropped. */
  datatype Text = Text(mem: Memory, dropped: bool)

  /** All strings ever stored, by identity, and the one that each thread's slot owns. */
  datatype Store = Store(texts: seq<Text>, slots: map<Thread, nat>)

  predicate Owning(st: Store) {
    && (forall t :: t in st.slots ==> st.slots[t] < |st.texts| && !st.texts[st.slots[t]].dropped)
    && (forall t, u :: t in st.slots && u in st.slots && st.slots[t] == st.slots[u] ==> t == u)
  }

  /** `*slot = None`: drops what the slot owned. */
  function Cleared(st: Store, t: Thread): Store
    requires Owning(st)
  {
    if t !in st.slots then st
    else Store(st.texts[st.slots[t] := st.texts[st.slots[t]].(dropped := true)], st.slots - {t})
  }

  /** `*slot = Some(c)`: drops what the slot owned and takes the new string. */
  function Replaced(st: Store, t: Thread, mem: Memory): Store
    requires Owning(st)
  {
    var c := Cleared(st, t);
    Store(c.texts + [Text(mem, false)], c.slots[t := |c.texts|])
  }

  function After(st: Store, e: Event): (r: Store)
    requires Owning(st)
    ensures Owning(r)
  {
    match e
    case Guarded(t, b) => if b == Returns then Cleared(st, t) else Replaced(st, t, Stored(MessageOf(b)))
    case Unguarded(_) => st
  }

  function StoreAfter(trace: Trace): (st: Store)
    ensures Owning(st)
  {
    if trace == [] then Store([], map[]) else After(StoreAfter(trace[..|trace| - 1]), trace[|trace| - 1])
  }

  /** Reading the slots through their own pointers gives these messages. */
  ghost predicate Shows(st: Store, slots: Slots)
    requires Owning(st)
  {
    && (forall t :: t in slots <==> t in st.slots)
    && (forall t :: t in slots ==> slots[t] == st.texts[st.slots[t]].mem)
  }

  lemma ShowsAfterClearing(st: Store, slots: Slots, t: Thread)
    requires Owning(st) && Shows(st, slots)
    ensures Owning(Cleared(st, t)) && Shows(Cleared(st, t), slots - {t})
  {
  }

  lemma ShowsAfter(st: Store, slots: Slots, e: Event)
    requires Owning(st) && Shows(st, slots)
    ensures Shows(After(st, e), AfterEvent(slots, e))
  {
    if e.Guarded? {
      ShowsAfterClearing(st, slots, e.thread);
    }
  }

  /** The slots hold, through pointers to live strings, the messages that the value model says they hold. */
  lemma {:induction false} SlotsAreOwned(trace: Trace)
    ensures Shows(StoreAfter(trace), SlotsAfter(trace))
  {
    if trace != [] {
      var n := |trace| - 1;
      SlotsAreOwned(trace[..n]);
      ShowsAfter(StoreAfter(trace[..n]), SlotsAfter(trace[..n]), trace[n]);
    }
  }

  /** The string at `p`, which thread `t` owns or used to own, after one more event. */
  lemma TextAfter(st: Store, e: Event, t: Thread, p: nat)
    requires Owning(st) && p < |st.texts|
    requires st.texts[p].dropped || (t in st.slots && st.slots[t] == p)
    ensures var st' := After(st, e);
            && p < |st'.texts| && st'.texts[p].mem == st.texts[p].mem
            && (st'.texts[p].dropped <==> st.texts[p].dropped || (e.Guarded? && e.thread == t))
            && (!st'.texts[p].dropped ==> t in st'.slots && st'.slots[t] == p)
  {
  }

  lemma AppendEvent(trace: Trace, after: Trace)
    requires after != []
    ensures StoreAfter(trace + after)
            == After(StoreAfter(trace + after[..|after| - 1]), after[|after| - 1])
  {
    assert (trace + after)[..|trace + after| - 1] == trace + after[..|after| - 1];
  }

  lemma QuietToTheEnd(after: Trace, t: Thread)
    requires after != []
    ensures var n := |after| - 1;
            QuietFrom(after, t, 0)
            <==> QuietFrom(after[..n], t, 0) && !(after[n].Guarded? && after[n].thread == t)
  {
    var n := |after| - 1;
    assert forall j :: 0 <= j < n ==> after[..n][j] == after[j];
  }

  /**
   A message pointer that thread `t` was given stays valid, with its text, exactly until the thread's next
   guarded call. The documentation only grants it until the next `imbh_*` call of any kind.
   */
  lemma {:induction false} PointerLivesIff(trace: Trace, t: Thread, after: Trace)
    requires t in StoreAfter(trace).slots
    ensures var st, p := StoreAfter(trace + after), StoreAfter(trace).slots[t];
            && p < |st.texts| && st.texts[p].mem == StoreAfter(trace).texts[p].mem
            && (!st.texts[p].dropped <==> QuietFrom(after, t, 0))
            && (!st.texts[p].dropped ==> t in st.slots && st.slots[t] == p)
  {
    if after == [] {
      assert trace + after == trace;
    } else {
      var n := |after| - 1;
      PointerLivesIff(trace, t, after[..n]);
      AppendEvent(trace, after);
      TextAfter(StoreAfter(trace + after[..n]), after[n], t, StoreAfter(trace).slots[t]);
      QuietToTheEnd(after, t);
    }
  }

  /**
   `check` and the example's `fail` read the message of a failed call, after any calls that are not guarded
   calls of the same thread: the pointer they get is non-null, still valid, and points to that message.
   */
  lemma FailureReadIsValid(before: Trace, t: Thread, b: Body, after: Trace)
    requires b != Returns && QuietFrom(after, t, 0)
    ensures var st := StoreAfter(before + [Guarded(t, b)] + after);
            t in st.slots && st.texts[st.slots[t]] == Text(Stored(MessageOf(b)), false)
  {
    var failed := before + [Guarded(t, b)];
    assert failed[..|before|] == before;
    PointerLivesIff(failed, t, after);
  }
}
