/**
 Offset paging of logs (src/query.rs): `imbh_db_logs_page`, `imbh_db_logs_count`, and the client loop
 that feeds `next_offset` back while `has_more` holds.
 */
module Paging {
  import opened Prelude
  import opened Utf8
  import opened ErrorChannel
  import opened CArgs
  import opened LogBuilder

  /** The engine's page size when the builder's limit is 0. */
  const DEFAULT_LIMIT: nat := 100

  /**
   The engine behind a handle, by its contract: a message selects a fixed sequence of rows (its filters
   and direction decide which, its limit and offset do not), and a query answers with the slice that
   starts at the offset and has at most the effective limit of rows.
   */
  class Database<R> {
    const rowsOf: Message -> seq<R>

    constructor (rowsOf: Message -> seq<R>)
      ensures this.rowsOf == rowsOf
    {
      this.rowsOf := rowsOf;
    }

    function Selected(m: Message): seq<R> {
      rowsOf(m.(limit := 0, offset := 0))
    }

    function Answer(m: Message): (rows: seq<R>) {
      Slice(Selected(m), m.offset, Effective(m.limit))
    }

    /** Row counts fit the `uint64_t` that reports them; the direction only reorders rows. */
    ghost predicate Contract() {
      && (forall m :: |Selected(m)| < TWO_64)
      && (forall m :: |Selected(m)| == |Selected(m.(direction := Backward))|)
    }
  }

  function Effective(limit: U64): nat {
    if limit == 0 then DEFAULT_LIMIT else limit
  }

  function Min(a: nat, b: nat): nat { if a < b then a else b }

  function Slice<R>(rows: seq<R>, offset: nat, limit: nat): (s: seq<R>)
    ensures |s| <= limit
  {
    rows[Min(offset, |rows|)..Min(offset + limit, |rows|)]
  }

  /** One page as a client sees it. */
  datatype Page<R> = Page(start: nat, limit: nat, rows: seq<R>, next: nat, more: bool)

  function PageOf<R>(rows: seq<R>, after: nat, limit: U64): Page<R> {
    var s := Slice(rows, after, Effective(limit));
    Page(after, limit, s, after + |s|, limit > 0 && |s| >= limit)
  }

  /**
   What a page is, row by row: row `i` of it is row `after + i`, there are no more than the limit (100 when
   it is 0) and no fewer unless the rows run out, and there is a next page exactly for a full one with a limit.
   */
  lemma PageMeaning<R>(rows: seq<R>, after: nat, limit: U64)
    ensures var p := PageOf(rows, after, limit);
            && |p.rows| <= (if limit == 0 then 100 else limit)
            && (|p.rows| < (if limit == 0 then 100 else limit) ==> |rows| <= after + |p.rows|)
            && (p.rows != [] ==> after + |p.rows| <= |rows|)
            && (forall i :: 0 <= i < |p.rows| ==> p.rows[i] == rows[after + i])
            && p.next == after + |p.rows|
            && (p.more <==> limit > 0 && |p.rows| == limit)
  {
  }

  /** The next offset never passes the larger of `after` and the row count, so it fits in 64 bits. */
  lemma NextFits<R>(rows: seq<R>, after: U64, limit: U64)
    requires |rows| < TWO_64
    ensures var next := PageOf(rows, after, limit).next;
            after <= next < TWO_64 && next <= if after < |rows| then |rows| else after
  {
  }

  /**
   `imbh_db_logs_page`. `engine` is how validation and execution end; nothing after them can fail, and
   no out-slot is written before them, so the slots are written all or not at all. The builder is only
   read: the cursor overrides the offset in a copy of its message.
   */
  method LogsPage<R>(db: Database?<R>, query: LogQuery?, after: U64, out: OutSlot?<seq<R>>,
                     rowsReturned: OutSlot?<U64>, nextOffset: OutSlot?<U64>, hasMore: OutSlot?<bool>, engine: Body)
    returns (r: Body)
    requires db != null ==> db.Contract()
    requires nextOffset != null ==> nextOffset != rowsReturned
    modifies out, rowsReturned, nextOffset, hasMore
    ensures db == null ==> r == Fails(InvalidArg(Ascii("null imbh_db handle")))
    ensures db != null && query == null ==> r == Fails(InvalidArg(Ascii("null imbh_log_query")))
    ensures db != null && query != null && out == null ==> r == Fails(InvalidArg(Ascii("null out stream pointer")))
    ensures db != null && query != null && out != null ==> r == engine
    ensures r != Returns ==>
              && (out != null ==> out.v == old(out.v))
              && (rowsReturned != null ==> rowsReturned.v == old(rowsReturned.v))
              && (nextOffset != null ==> nextOffset.v == old(nextOffset.v))
              && (hasMore != null ==> hasMore.v == old(hasMore.v))
    ensures r == Returns ==>
              var page := PageOf(db.Selected(query.inner), after, query.inner.limit);
              && out.v == page.rows
              && (rowsReturned != null ==> rowsReturned.v == |page.rows|)
              && (nextOffset != null ==> nextOffset.v == page.next)
              && (hasMore != null ==> hasMore.v == page.more)
  {
    if db == null {
      return Fails(Misuse(NULL_DB));
    }
    if query == null {
      return Fails(Misuse(NULL_LOG_QUERY));
    }
    if out == null {
      return Fails(Misuse(NULL_OUT_STREAM));
    }
    var proto := query.inner;
    proto := proto.(offset := after);
    var limit := proto.limit;
    if engine != Returns {
      return engine;
    }
    var rows := db.Answer(proto);
    NextFits(db.Selected(query.inner), after, limit);
    assert proto.(limit := 0, offset := 0) == query.inner.(limit := 0, offset := 0);
    var returned := |rows|;
    var more := limit > 0 && returned >= limit;
    if rowsReturned != null {
      rowsReturned.v := returned;
    }
    if nextOffset != null {
      nextOffset.v := after + returned;
    }
    if hasMore != null {
      hasMore.v := more;
    }
    out.v := rows;
    r := Returns;
  }

  /** Two messages with the same filters, whatever their limit, offset and direction. */
  predicate SameFilters(m: Message, m': Message) {
    m.(limit := 0, offset := 0, direction := Backward) == m'.(limit := 0, offset := 0, direction := Backward)
  }

  lemma CountIgnoresPaging<R>(db: Database<R>, m: Message, m': Message)
    requires db.Contract() && SameFilters(m, m')
    ensures |db.Selected(m)| == |db.Selected(m')|
  {
    assert |db.Selected(m)| == |db.Selected(m.(direction := Backward))|;
    assert |db.Selected(m')| == |db.Selected(m'.(direction := Backward))|;
    assert m.(direction := Backward).(limit := 0, offset := 0) == m'.(direction := Backward).(limit := 0, offset := 0);
  }

  /**
   `imbh_db_logs_count`: the slot is written only when the call returns; limit, offset and direction do
   not matter. The engine counts the rows of the query without them.
   */
  method LogsCount<R>(db: Database?<R>, query: LogQuery?, count: OutSlot?<U64>, engine: Body) returns (r: Body)
    requires db != null ==> db.Contract()
    modifies count
    ensures db == null ==> r == Fails(InvalidArg(Ascii("null imbh_db handle")))
    ensures db != null && query == null ==> r == Fails(InvalidArg(Ascii("null imbh_log_query")))
    ensures db != null && query != null && count == null ==> r == Fails(InvalidArg(Ascii("null out pointer")))
    ensures db != null && query != null && count != null ==> r == engine
    ensures r != Returns && count != null ==> count.v == old(count.v)
    ensures r == Returns ==> forall m :: SameFilters(m, query.inner) ==> count.v == |db.Selected(m)|
  {
    if db == null {
      return Fails(Misuse(NULL_DB));
    }
    if query == null {
      return Fails(Misuse(NULL_LOG_QUERY));
    }
    if count == null {
      return Fails(Misuse(NULL_OUT));
    }
    if engine != Returns {
      return engine;
    }
    var bare := query.inner.(limit := 0, offset := 0, direction := Backward);
    count.v := |db.Selected(bare)|;
    forall m | SameFilters(m, query.inner) ensures |db.Selected(m)| == |db.Selected(bare)| {
      CountIgnoresPaging(db, m, bare);
    }
    r := Returns;
  }

  // ---- The client loop ---------------------------------------------------------------------------

  /**
   The pages a client reads from offset `after`, when its `k`-th call uses limit `choose(k)` and it goes
   on while the page says there is more.
   */
  function Pages<R>(rows: seq<R>, after: nat, choose: nat -> U64, k: nat): (ps: seq<Page<R>>)
    ensures ps != []
    decreases if after < |rows| then |rows| - after else 0
  {
    var p := PageOf(rows, after, choose(k));
    if p.more then [p] + Pages(rows, p.next, choose, k + 1) else [p]
  }

  function Concat<R>(ps: seq<Page<R>>): seq<R> {
    if ps == [] then [] else ps[0].rows + Concat(ps[1..])
  }

  function TotalReturned<R>(ps: seq<Page<R>>): nat {
    if ps == [] then 0 else |ps[0].rows| + TotalReturned(ps[1..])
  }

  function Suffix<R>(rows: seq<R>, after: nat): seq<R> {
    rows[Min(after, |rows|)..]
  }

  lemma SuffixMeaning<R>(rows: seq<R>, after: nat)
    ensures if after >= |rows| then Suffix(rows, after) == []
            else |Suffix(rows, after)| == |rows| - after
                 && forall i :: 0 <= i < |rows| - after ==> Suffix(rows, after)[i] == rows[after + i]
  {
  }

  lemma PagesUnfold<R>(rows: seq<R>, after: nat, choose: nat -> U64, k: nat)
    ensures var ps, p := Pages(rows, after, choose, k), PageOf(rows, after, choose(k));
            && ps[0] == p
            && ps[1..] == (if p.more then Pages(rows, p.next, choose, k + 1) else [])
            && Concat(ps) == p.rows + Concat(ps[1..])
            && TotalReturned(ps) == |p.rows| + TotalReturned(ps[1..])
  {
  }

  /** A page starts the remaining rows, and the next offset is where it ends. */
  lemma PageStartsSuffix<R>(rows: seq<R>, after: nat, limit: U64)
    ensures var p := PageOf(rows, after, limit);
            Suffix(rows, after) == p.rows + Suffix(rows, p.next)
  {
    var lo, hi := Min(after, |rows|), Min(after + Effective(limit), |rows|);
    assert rows[lo..] == rows[lo..hi] + rows[hi..];
  }

  /** A page without a next one is all that remains, exactly when it had a limit or remained within 100. */
  lemma LastPageIff<R>(rows: seq<R>, after: nat, limit: U64)
    requires !PageOf(rows, after, limit).more
    ensures PageOf(rows, after, limit).rows == Suffix(rows, after)
            <==> limit > 0 || |rows| <= after + DEFAULT_LIMIT
  {
    var p := PageOf(rows, after, limit);
    PageStartsSuffix(rows, after, limit);
    assert p.rows == Suffix(rows, after) <==> |p.rows| == |Suffix(rows, after)|;
  }

  /**
   The pages put together are the rows from `after` on, each once and in order, exactly when the last
   call had a limit or at most one default page was left to it.
   */
  lemma {:induction false} CoverageIff<R>(rows: seq<R>, after: nat, choose: nat -> U64, k: nat)
    ensures var ps := Pages(rows, after, choose, k);
            var last := ps[|ps| - 1];
            && !last.more
            && (Concat(ps) == Suffix(rows, after) <==> last.limit > 0 || |rows| <= last.start + DEFAULT_LIMIT)
    decreases if after < |rows| then |rows| - after else 0
  {
    var p := PageOf(rows, after, choose(k));
    var ps := Pages(rows, after, choose, k);
    PagesUnfold(rows, after, choose, k);
    if p.more {
      var rest := ps[1..];
      CoverageIff(rows, p.next, choose, k + 1);
      PageStartsSuffix(rows, after, choose(k));
      SamePrefix(p.rows, Concat(rest), Suffix(rows, p.next));
      assert ps[|ps| - 1] == rest[|rest| - 1];
    } else {
      LastPageIff(rows, after, choose(k));
      assert Concat(ps) == p.rows;
    }
  }

  lemma SamePrefix<R>(a: seq<R>, b: seq<R>, c: seq<R>)
    ensures a + b == a + c <==> b == c
  {
    if a + b == a + c {
      assert b == (a + b)[|a|..] && c == (a + c)[|a|..];
    }
  }

  /** Every page's limit is the one chosen for that call. */
  lemma {:induction false} PageLimits<R>(rows: seq<R>, after: nat, choose: nat -> U64, k: nat, i: nat)
    requires i < |Pages(rows, after, choose, k)|
    ensures Pages(rows, after, choose, k)[i].limit == choose(k + i)
    decreases i
  {
    if i > 0 {
      PageLimits(rows, PageOf(rows, after, choose(k)).next, choose, k + 1, i - 1);
    }
  }

  /** With positive limits, chosen anew for each call, paging from any offset reads exactly the suffix. */
  lemma PositiveLimitsCover<R>(rows: seq<R>, after: nat, choose: nat -> U64)
    requires forall i :: choose(i) > 0
    ensures Concat(Pages(rows, after, choose, 0)) == Suffix(rows, after)
  {
    CoverageIff(rows, after, choose, 0);
    var ps := Pages(rows, after, choose, 0);
    PageLimits(rows, after, choose, 0, |ps| - 1);
  }

  /** With the default limit the loop stops after one call, which is enough only for one default page. */
  lemma DefaultLimitCoversIff<R>(rows: seq<R>, after: nat)
    ensures |Pages(rows, after, _ => 0, 0)| == 1
    ensures Concat(Pages(rows, after, _ => 0, 0)) == Suffix(rows, after) <==> |rows| <= after + 100
  {
    CoverageIff(rows, after, _ => 0, 0);
  }

  lemma SmallMultiple(d: int, l: int)
    requires -l < d * l < l
    ensures d == 0
  {
  }

  lemma DivUnique(a: nat, l: nat, q: nat, r: nat)
    requires 0 < l && a == q * l + r && r < l
    ensures a / l == q && a % l == r
  {
    assert (a / l - q) * l == r - a % l;
    SmallMultiple(a / l - q, l);
  }

  lemma DivStep(a: nat, l: nat)
    requires 0 < l <= a
    ensures a / l == (a - l) / l + 1 && a % l == (a - l) % l
  {
    DivUnique(a, l, (a - l) / l + 1, (a - l) % l);
  }

  /**
   A fixed positive limit takes exactly floor(remaining / limit) + 1 calls: full pages, then one short
   page (empty when the limit divides what remained).
   */
  lemma {:induction false} ExactCalls<R>(rows: seq<R>, after: nat, limit: U64, choose: nat -> U64, k: nat)
    requires limit > 0 && forall i :: choose(i) == limit
    ensures var ps := Pages(rows, after, choose, k);
            var remaining := |Suffix(rows, after)|;
            && |ps| == remaining / limit + 1
            && (forall i :: 0 <= i < |ps| - 1 ==> ps[i].more && |ps[i].rows| == limit)
            && !ps[|ps| - 1].more && |ps[|ps| - 1].rows| == remaining % limit
    decreases if after < |rows| then |rows| - after else 0
  {
    var p := PageOf(rows, after, choose(k));
    var remaining := |Suffix(rows, after)|;
    if p.more {
      ExactCalls(rows, p.next, limit, choose, k + 1);
      DivStep(remaining, limit);
      assert |Suffix(rows, p.next)| == remaining - limit;
    } else {
      DivUnique(remaining, limit, 0, remaining);
    }
  }

  lemma {:induction false} TotalIsLength<R>(ps: seq<Page<R>>)
    ensures TotalReturned(ps) == |Concat(ps)|
  {
    if ps != [] {
      TotalIsLength(ps[1..]);
    }
  }

  lemma SelectedIgnoresLimit<R>(db: Database<R>, m: Message, m': Message)
    requires m.(limit := 0) == m'.(limit := 0)
    ensures db.Selected(m) == db.Selected(m')
  {
    assert m.(limit := 0, offset := 0) == m'.(limit := 0, offset := 0);
  }

  /** One call of the documented loop: set the limit, then ask for the page after `after`, which may fail. */
  method FetchPage<R>(db: Database<R>, query: LogQuery, after: U64, limit: U64, engine: Body)
    returns (page: Result<Page<R>, Body>)
    requires db.Contract()
    modifies query
    ensures query.inner == old(query.inner).(limit := limit)
    ensures db.Selected(query.inner) == old(db.Selected(query.inner))
    ensures if engine == Returns
            then page == Ok(PageOf(old(db.Selected(query.inner)), after, limit)) && page.value.next < TWO_64
            else page == Err(engine)
  {
    var limited := LogQuerySetLimit(query, limit);
    var out := new OutSlot<seq<R>>([]);
    var returned := new OutSlot<U64>(0);
    var next := new OutSlot<U64>(0);
    var has := new OutSlot<bool>(false);
    SelectedIgnoresLimit(db, query.inner, old(query.inner));
    var r := LogsPage(db, query, after, out, returned, next, has, engine);
    page := if r == Returns then Ok(Page(after, limit, out.v, next.v, has.v)) else Err(r);
  }

  /**
   The documented loop, run against the entry point: before each call the client may set a new limit,
   and whatever offset is stored in the builder, the rows it collects are the pages from `start` on.
   */
  method FetchAll<R>(db: Database<R>, query: LogQuery, start: U64, choose: nat -> U64)
    returns (rows: seq<R>, calls: nat, total: nat)
    requires db.Contract()
    modifies query
    ensures var pages := Pages(old(db.Selected(query.inner)), start, choose, 0);
            rows == Concat(pages) && calls == |pages| && total == TotalReturned(pages)
    ensures query.inner == old(query.inner).(limit := query.inner.limit)
  {
    ghost var all, before := db.Selected(query.inner), query.inner;
    ghost var pages := Pages(all, start, choose, 0);
    ghost var rest := pages;
    rows, calls, total := [], 0, 0;
    var after: U64 := start;
    var more := true;
    while more
      invariant query.inner == before.(limit := query.inner.limit) && db.Selected(query.inner) == all
      invariant rest == if more then Pages(all, after, choose, calls) else []
      invariant |pages| == calls + |rest|
      invariant Concat(pages) == rows + Concat(rest)
      invariant TotalReturned(pages) == total + TotalReturned(rest)
      decreases |rest|
    {
      var fetched := FetchPage(db, query, after, choose(calls), Returns);
      var page := fetched.value;
      PagesUnfold(all, after, choose, calls);
      Regroup(rows, page.rows, Concat(rest[1..]));
      rest := rest[1..];
      rows := rows + page.rows;
      total := total + |page.rows|;
      after, more := page.next, page.more;
      calls := calls + 1;
    }
    Regroup(rows, [], []);
  }

  lemma Regroup<R>(a: seq<R>, b: seq<R>, c: seq<R>)
    ensures a + (b + c) == a + b + c
    ensures a + [] == a && [] + a == a
  {
  }

  /** How many of the first `n` attempts return. */
  function Returning(engine: nat -> Body, n: nat): nat {
    if n == 0 then 0 else Returning(engine, n - 1) + if engine(n - 1) == Returns then 1 else 0
  }

  /** The rows a client still has to read: none once it was told that there are no more. */
  function Left<R>(rows: seq<R>, after: nat, more: bool): seq<R> {
    if more then Suffix(rows, after) else []
  }

  /** A page with a positive limit moves its rows from those left to those read, and at least one if it is full. */
  lemma TakePage<R>(read: seq<R>, rows: seq<R>, after: nat, limit: U64)
    requires limit > 0
    ensures var p := PageOf(rows, after, limit);
            && read + Suffix(rows, after) == (read + p.rows) + Left(rows, p.next, p.more)
            && (p.more ==> |Suffix(rows, p.next)| + 1 <= |Suffix(rows, after)|)
  {
    var p := PageOf(rows, after, limit);
    PageStartsSuffix(rows, after, limit);
    Regroup(read, p.rows, Suffix(rows, p.next));
    if !p.more {
      LastPageIff(rows, after, limit);
      Regroup(read + p.rows, [], []);
    }
  }

  /**
   A client whose calls may throw at any point and who then asks again with the same cursor, for at most
   `attempts` calls, each with a positive limit of its own. At any time the rows read so far and those from
   the cursor on are the rows from `start` on; a finished client has read exactly these; and it is finished
   as soon as more of its calls have returned than there are rows to read.
   */
  method FetchWithRetries<R>(db: Database<R>, query: LogQuery, start: U64, choose: nat -> U64, engine: nat -> Body,
                             attempts: nat)
    returns (rows: seq<R>, after: U64, more: bool)
    requires db.Contract() && forall i :: choose(i) > 0
    modifies query
    ensures var all := old(db.Selected(query.inner));
            && rows + Left(all, after, more) == Suffix(all, start)
            && (more ==> Returning(engine, attempts) <= |Suffix(all, start)|)
    ensures query.inner == old(query.inner).(limit := query.inner.limit)
  {
    ghost var all, before := db.Selected(query.inner), query.inner;
    rows, after, more := [], start, true;
    var k := 0;
    Regroup(Suffix(all, start), [], []);
    while more && k < attempts
      invariant k <= attempts
      invariant query.inner == before.(limit := query.inner.limit) && db.Selected(query.inner) == all
      invariant rows + Left(all, after, more) == Suffix(all, start)
      invariant more ==> Returning(engine, k) + |Suffix(all, after)| <= |Suffix(all, start)|
      decreases attempts - k
    {
      var fetched := FetchPage(db, query, after, choose(k), engine(k));
      if fetched.Ok? {
        var page := fetched.value;
        TakePage(rows, all, after, choose(k));
        rows, after, more := rows + page.rows, page.next, page.more;
      }
      k := k + 1;
    }
  }

  /** With positive limits the pages from offset 0 are all rows, and the returned counts add up to their number. */
  lemma AllRowsOnce<R>(rows: seq<R>, choose: nat -> U64)
    requires forall i :: choose(i) > 0
    ensures TotalReturned(Pages(rows, 0, choose, 0)) == |rows|
    ensures Concat(Pages(rows, 0, choose, 0)) == rows
  {
    PositiveLimitsCover(rows, 0, choose);
    TotalIsLength(Pages(rows, 0, choose, 0));
  }

  /**
   A client that pages from offset 0 with positive limits and then asks for the count of the same builder,
   whose limit the paging has changed: the rows returned add up to the reported count.
   */
  method TotalIsCount<R>(db: Database<R>, query: LogQuery, choose: nat -> U64)
    returns (rows: seq<R>, total: nat, count: U64)
    requires db.Contract() && forall i :: choose(i) > 0
    modifies query
    ensures rows == old(db.Selected(query.inner))
    ensures total == count == |rows|
  {
    ghost var before := query.inner;
    var calls;
    rows, calls, total := FetchAll(db, query, 0, choose);
    AllRowsOnce(db.Selected(before), choose);
    var slot := new OutSlot<U64>(0);
    var r := LogsCount(db, query, slot, Returns);
    count := slot.v;
    assert SameFilters(before, query.inner);
  }
}
