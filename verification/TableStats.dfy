/** Per-table statistics and the cross-table totals (src/lib.rs). */
module TableStats {
  import opened Prelude
  import opened Utf8
  import opened ErrorChannel
  import opened CArgs

  /** `imbh_table`, by discriminant order. */
  datatype CTable = CLogs | CSpans | CGauge | CSum | CHistogram | CExpHistogram | CSummary

  /** `imbh::Table`. */
  datatype Table = Logs | Spans | Gauge | Sum | Histogram | ExpHistogram | Summary

  /** `Table::from(imbh_table)`, and `table_to_c` is its inverse on either side. */
  function ToEngine(t: CTable): (e: Table)
    ensures forall e' :: ToC(e') == t <==> e' == e
  {
    match t
    case CLogs => Logs
    case CSpans => Spans
    case CGauge => Gauge
    case CSum => Sum
    case CHistogram => Histogram
    case CExpHistogram => ExpHistogram
    case CSummary => Summary
  }

  function ToC(t: Table): CTable {
    match t
    case Logs => CLogs
    case Spans => CSpans
    case Gauge => CGauge
    case Sum => CSum
    case Histogram => CHistogram
    case ExpHistogram => CExpHistogram
    case Summary => CSummary
  }

  datatype Entry = Entry(
    table: Table,
    segmentCount: U64,
    segmentRows: U64,
    bufferRows: U64,
    minTime: Option<I64>,
    maxTime: Option<I64>)

  datatype CTableStats = CTableStats(
    table: CTable,
    segmentCount: U64,
    segmentRows: U64,
    bufferRows: U64,
    minTime: I64,
    maxTime: I64,
    hasTimeBounds: bool)

  function Bound(t: Option<I64>): I64 {
    match t case Some(x) => x case None => 0
  }

  function Converted(e: Entry): CTableStats {
    CTableStats(ToC(e.table), e.segmentCount, e.segmentRows, e.bufferRows, Bound(e.minTime), Bound(e.maxTime),
                e.minTime.Some? && e.maxTime.Some?)
  }

  /** `iter().find(|t| t.table == want)`. */
  function First(entries: seq<Entry>, t: Table): (r: Option<Entry>)
    ensures r.Some? ==> r.value in entries && r.value.table == t
    ensures r.None? ==> forall e :: e in entries ==> e.table != t
  {
    if entries == [] then None
    else if entries[0].table == t then Some(entries[0])
    else First(entries[1..], t)
  }

  /** The three counters that are both reported per table and totalled. */
  datatype Counter = SegmentCount | SegmentRows | BufferRows

  /** A counter of an engine entry. */
  function Of(e: Entry, k: Counter): U64 {
    match k
    case SegmentCount => e.segmentCount
    case SegmentRows => e.segmentRows
    case BufferRows => e.bufferRows
  }

  /** The same counter as a C caller reads it from the slot. */
  function Read(s: CTableStats, k: Counter): U64 {
    match k
    case SegmentCount => s.segmentCount
    case SegmentRows => s.segmentRows
    case BufferRows => s.bufferRows
  }

  /** The exact sum of one counter over the list. */
  function SumBy(entries: seq<Entry>, k: Counter): nat {
    if entries == [] then 0 else SumBy(entries[..|entries| - 1], k) + Of(entries[|entries| - 1], k)
  }

  /** The sum that `u64` addition can deliver: none when it does not fit and overflow is checked. */
  function Total(entries: seq<Entry>, k: Counter, checked: bool): Option<U64> {
    var s := SumBy(entries, k);
    if checked && s >= TWO_64 then None else Some(s % TWO_64)
  }

  /** The sums count each entry's own counter once: one entry's is its field, and lists add up. */
  lemma {:induction false} SumLaws(a: seq<Entry>, b: seq<Entry>, k: Counter, e: Entry)
    ensures SumBy([e], SegmentCount) == e.segmentCount
    ensures SumBy([e], SegmentRows) == e.segmentRows
    ensures SumBy([e], BufferRows) == e.bufferRows
    ensures SumBy(a + b, k) == SumBy(a, k) + SumBy(b, k)
    decreases |b|
  {
    assert [e][..0] == [];
    if b == [] {
      assert a + b == a;
    } else {
      var n := |b| - 1;
      SumLaws(a, b[..n], k, e);
      assert (a + b)[..|a + b| - 1] == a + b[..n];
    }
  }

  /** The entry found for a table is its earliest one. */
  lemma {:induction false} FirstIsEarliest(entries: seq<Entry>, i: nat)
    requires i < |entries| && forall j :: 0 <= j < i ==> entries[j].table != entries[i].table
    ensures First(entries, entries[i].table) == Some(entries[i])
    decreases i
  {
    if i > 0 {
      assert entries[1..][i - 1] == entries[i];
      FirstIsEarliest(entries[1..], i - 1);
    }
  }

  lemma {:induction false} PrefixSum(entries: seq<Entry>, i: nat, k: Counter)
    requires i <= |entries|
    ensures SumBy(entries[..i], k) <= SumBy(entries, k)
    decreases |entries| - i
  {
    if i == |entries| {
      assert entries[..i] == entries;
    } else {
      assert entries[..i + 1][..i] == entries[..i];
      PrefixSum(entries, i + 1, k);
    }
  }

  lemma WrapSum(a: nat, b: nat)
    ensures (a % TWO_64 + b) % TWO_64 == (a + b) % TWO_64
  {
    var q := a / TWO_64;
    assert a + b == a % TWO_64 + b + q * TWO_64;
    assert (a % TWO_64 + b + q * TWO_64) % TWO_64 == (a % TWO_64 + b) % TWO_64;
  }

  /**
   `tables.iter().map(f).sum()` over `u64`: each addition panics when overflow is checked, and wraps
   otherwise. Some addition overflows exactly when the exact sum does not fit.
   */
  method SumCounter(entries: seq<Entry>, k: Counter, checked: bool) returns (r: Option<U64>)
    ensures r == Total(entries, k, checked)
  {
    var acc: U64 := 0;
    var i := 0;
    while i < |entries|
      invariant 0 <= i <= |entries|
      invariant acc == SumBy(entries[..i], k) % TWO_64
      invariant checked ==> acc == SumBy(entries[..i], k)
    {
      assert entries[..i + 1][..i] == entries[..i];
      WrapSum(SumBy(entries[..i], k), Of(entries[i], k));
      var next := acc + Of(entries[i], k);
      if checked && next >= TWO_64 {
        PrefixSum(entries, i + 1, k);
        return None;
      }
      acc := next % TWO_64;
      i := i + 1;
    }
    assert entries[..i] == entries;
    r := Some(acc);
  }

  /** The totals of `imbh_stats`. */
  datatype CStats = CStats(totalSegmentCount: U64, totalSegmentRows: U64, totalBufferRows: U64)

  function ReadTotal(s: CStats, k: Counter): U64 {
    match k
    case SegmentCount => s.totalSegmentCount
    case SegmentRows => s.totalSegmentRows
    case BufferRows => s.totalBufferRows
  }

  const OVERFLOW: Body := Panics(StaticText(Ascii("attempt to add with overflow")))

  /** Every total fits, or the build does not check. */
  predicate TotalsFit(entries: seq<Entry>, checked: bool) {
    forall k :: Total(entries, k, checked).Some?
  }

  /**
   `imbh_db_stats`: the slot is written only when all three totals were formed; then each is the sum over
   all tables. A checked overflow panics before anything is written.
   */
  method DbStats(dbIsNull: bool, entries: seq<Entry>, checked: bool, out: OutSlot?<CStats>, engine: Body)
    returns (r: Body)
    modifies out
    ensures dbIsNull ==> r == Fails(InvalidArg(Ascii("null imbh_db handle")))
    ensures !dbIsNull && out == null ==> r == Fails(InvalidArg(Ascii("null out pointer")))
    ensures !dbIsNull && out != null && engine != Returns ==> r == engine
    ensures !dbIsNull && out != null && engine == Returns ==>
              r == if TotalsFit(entries, checked) then Returns else OVERFLOW
    ensures out != null && r != Returns ==> out.v == old(out.v)
    ensures out != null && r == Returns ==>
              && Some(out.v.totalSegmentCount) == Total(entries, SegmentCount, checked)
              && Some(out.v.totalSegmentRows) == Total(entries, SegmentRows, checked)
              && Some(out.v.totalBufferRows) == Total(entries, BufferRows, checked)
  {
    if dbIsNull {
      return Fails(Misuse(NULL_DB));
    }
    if out == null {
      return Fails(Misuse(NULL_OUT));
    }
    if engine != Returns {
      return engine;
    }
    var segments := SumCounter(entries, SegmentCount, checked);
    if segments.None? {
      return OVERFLOW;
    }
    var sealed := SumCounter(entries, SegmentRows, checked);
    if sealed.None? {
      return OVERFLOW;
    }
    var buffered := SumCounter(entries, BufferRows, checked);
    if buffered.None? {
      return OVERFLOW;
    }
    out.v := CStats(segments.value, sealed.value, buffered.value);
    r := Returns;
  }

  /**
   `imbh_db_table_stats`: the slot is written only on success, with the wanted table's first entry; the
   selector comes back unchanged through both table conversions.
   */
  method DbTableStats(dbIsNull: bool, entries: seq<Entry>, table: CTable, out: OutSlot?<CTableStats>, engine: Body)
    returns (r: Body)
    modifies out
    ensures dbIsNull ==> r == Fails(InvalidArg(Ascii("null imbh_db handle")))
    ensures !dbIsNull && out == null ==> r == Fails(InvalidArg(Ascii("null out pointer")))
    ensures !dbIsNull && out != null && engine != Returns ==> r == engine
    ensures !dbIsNull && out != null && engine == Returns ==>
              r == if First(entries, ToEngine(table)).Some? then Returns
                   else Fails(InvalidArg(Ascii("unknown table")))
    ensures out != null && r != Returns ==> out.v == old(out.v)
    ensures out != null && r == Returns ==>
              var e := First(entries, ToEngine(table)).value;
              && out.v == Converted(e) && out.v.table == table
              && out.v.segmentCount == e.segmentCount && out.v.segmentRows == e.segmentRows
              && out.v.bufferRows == e.bufferRows
              && (e.minTime == Some(out.v.minTime) || (e.minTime.None? && out.v.minTime == 0))
              && (e.maxTime == Some(out.v.maxTime) || (e.maxTime.None? && out.v.maxTime == 0))
              && (out.v.hasTimeBounds <==> e.minTime.Some? && e.maxTime.Some?)
  {
    if dbIsNull {
      return Fails(Misuse(NULL_DB));
    }
    if out == null {
      return Fails(Misuse(NULL_OUT));
    }
    if engine != Returns {
      return engine;
    }
    var found := First(entries, ToEngine(table));
    if found.None? {
      return Fails(Misuse("unknown table"));
    }
    var e := found.value;
    out.v := CTableStats(ToC(e.table), e.segmentCount, e.segmentRows, e.bufferRows,
                         if e.minTime.Some? then e.minTime.value else 0,
                         if e.maxTime.Some? then e.maxTime.value else 0,
                         e.minTime.Some? && e.maxTime.Some?);
    r := Returns;
  }

  // ---- Conservation ------------------------------------------------------------------------------

  /** The seven selectors of the C interface. */
  const SELECTORS: seq<CTable> := [CLogs, CSpans, CGauge, CSum, CHistogram, CExpHistogram, CSummary]

  /** The counter that the per-table call writes for a selector, or 0 when it reports no entry. */
  function Reported(entries: seq<Entry>, c: CTable, k: Counter): nat {
    match First(entries, ToEngine(c))
    case Some(e) => Read(Converted(e), k)
    case None => 0
  }

  /** The sum of the reported counters over a list of selectors. */
  function SumOver(selectors: seq<CTable>, entries: seq<Entry>, k: Counter): nat {
    if selectors == [] then 0
    else SumOver(selectors[..|selectors| - 1], entries, k) + Reported(entries, selectors[|selectors| - 1], k)
  }

  /** A client that asks for every table in turn and adds up one counter. */
  method AddUpTables(entries: seq<Entry>, k: Counter) returns (sum: nat)
    ensures sum == SumOver(SELECTORS, entries, k)
  {
    sum := 0;
    var out := new OutSlot<CTableStats>(CTableStats(CLogs, 0, 0, 0, 0, 0, false));
    var i := 0;
    while i < |SELECTORS|
      invariant 0 <= i <= |SELECTORS|
      invariant sum == SumOver(SELECTORS[..i], entries, k)
    {
      var r := DbTableStats(false, entries, SELECTORS[i], out, Returns);
      if r == Returns {
        sum := sum + Read(out.v, k);
      }
      assert SELECTORS[..i + 1][..i] == SELECTORS[..i];
      i := i + 1;
    }
    assert SELECTORS[..i] == SELECTORS;
  }

  /** The counters of entries whose table already has an earlier entry: no selector reaches them. */
  function Shadowed(entries: seq<Entry>, k: Counter): nat {
    if entries == [] then 0
    else
      var n := |entries| - 1;
      Shadowed(entries[..n], k) + if First(entries[..n], entries[n].table).Some? then Of(entries[n], k) else 0
  }

  lemma {:induction false} FirstOfAppend(entries: seq<Entry>, e: Entry, t: Table)
    ensures First(entries + [e], t) ==
            if First(entries, t).Some? then First(entries, t) else if e.table == t then Some(e) else None
  {
    if entries == [] {
      assert entries + [e] == [e];
      assert [e][1..] == [];
    } else {
      assert (entries + [e])[1..] == entries[1..] + [e];
      FirstOfAppend(entries[1..], e, t);
    }
  }

  /** A new entry shows up under the selector of its own table only, and only if it is the table's first. */
  lemma ReportedOfAppend(entries: seq<Entry>, e: Entry, c: CTable, k: Counter)
    ensures Reported(entries + [e], c, k) ==
            Reported(entries, c, k) + if c == ToC(e.table) && First(entries, e.table).None? then Of(e, k) else 0
  {
    FirstOfAppend(entries, e, ToEngine(c));
  }

  lemma {:induction false} SumOverOfAppend(selectors: seq<CTable>, entries: seq<Entry>, e: Entry, k: Counter)
    requires forall i, j :: 0 <= i < j < |selectors| ==> selectors[i] != selectors[j]
    ensures SumOver(selectors, entries + [e], k) ==
            SumOver(selectors, entries, k)
            + if ToC(e.table) in selectors && First(entries, e.table).None? then Of(e, k) else 0
  {
    if selectors != [] {
      var n := |selectors| - 1;
      SumOverOfAppend(selectors[..n], entries, e, k);
      ReportedOfAppend(entries, e, selectors[n], k);
      assert selectors == selectors[..n] + [selectors[n]];
    }
  }

  /** Every selector is asked once. */
  lemma SelectorsAreAll(c: CTable)
    ensures c in SELECTORS
  {
    match c
    case CLogs => assert SELECTORS[0] == c;
    case CSpans => assert SELECTORS[1] == c;
    case CGauge => assert SELECTORS[2] == c;
    case CSum => assert SELECTORS[3] == c;
    case CHistogram => assert SELECTORS[4] == c;
    case CExpHistogram => assert SELECTORS[5] == c;
    case CSummary => assert SELECTORS[6] == c;
  }

  lemma {:induction false} NothingReported(selectors: seq<CTable>, k: Counter)
    ensures SumOver(selectors, [], k) == 0
  {
    if selectors != [] {
      NothingReported(selectors[..|selectors| - 1], k);
    }
  }

  /** For any list at all: the total is what the seven selectors report plus what is shadowed. */
  lemma {:induction false} TotalsAreConserved(entries: seq<Entry>, k: Counter)
    ensures SumBy(entries, k) == SumOver(SELECTORS, entries, k) + Shadowed(entries, k)
  {
    if entries == [] {
      NothingReported(SELECTORS, k);
    } else {
      var n := |entries| - 1;
      TotalsAreConserved(entries[..n], k);
      assert entries == entries[..n] + [entries[n]];
      SumOverOfAppend(SELECTORS, entries[..n], entries[n], k);
      SelectorsAreAll(ToC(entries[n].table));
    }
  }

  predicate OnePerTable(entries: seq<Entry>) {
    forall i, j :: 0 <= i < j < |entries| ==> entries[i].table != entries[j].table
  }

  lemma {:induction false} NothingShadowed(entries: seq<Entry>, k: Counter)
    requires OnePerTable(entries)
    ensures Shadowed(entries, k) == 0
  {
    if entries != [] {
      NothingShadowed(entries[..|entries| - 1], k);
    }
  }

  /**
   With at most one entry per table, in any order, a client that adds up the per-table values of a counter
   gets the exact sum; `imbh_db_stats` reports it as a `u64`, or panics when it does not fit and overflow
   is checked.
   */
  lemma StatsAgree(entries: seq<Entry>, k: Counter, checked: bool)
    requires OnePerTable(entries)
    ensures var sum := SumOver(SELECTORS, entries, k);
            Total(entries, k, checked) == if checked && sum >= TWO_64 then None else Some(sum % TWO_64)
  {
    TotalsAreConserved(entries, k);
    NothingShadowed(entries, k);
  }

  /** The two entry points against each other: whatever totals are reported are the seven values added up. */
  method CompareStats(entries: seq<Entry>, checked: bool, k: Counter) returns (total: Option<U64>, sum: nat)
    requires OnePerTable(entries)
    ensures total.Some? && sum < TWO_64 ==> total.value == sum
    ensures total.Some? && checked ==> total.value == sum
    ensures total.Some? ==> total.value == sum % TWO_64
    ensures total.None? ==> checked && exists c :: SumOver(SELECTORS, entries, c) >= TWO_64
  {
    var out := new OutSlot<CStats>(CStats(0, 0, 0));
    var r := DbStats(false, entries, checked, out, Returns);
    total := if r == Returns then Some(ReadTotal(out.v, k)) else None;
    sum := AddUpTables(entries, k);
    StatsAgree(entries, k, checked);
    if r != Returns {
      var c :| Total(entries, c, checked).None?;
      StatsAgree(entries, c, checked);
    }
  }
}
