/** The trade report loop: a complete venue history or a refusal. */
module HistoryPaging {
  // A venue is a function from a requested window to one page.  The loop is proved to terminate for
  // every such function; against a venue that answers from a fixed history it returns that history
  // exactly, and it refuses exactly when one millisecond holds a full page.

  import opened Rounding

  const PAGE_LIMIT: nat := 2_500

  datatype Result<+T> = Success(value: T) | Refused

  // ---------------------------------------------------------------- trades

  datatype Trade = Trade(id: int, ms: int, facts: int)

  type TradeVenue = (int, int) -> seq<Trade>

  function InWindow(venue: seq<Trade>, start: int, end: int): seq<Trade> {
    if venue == [] then []
    else if start <= venue[0].ms <= end then [venue[0]] + InWindow(venue[1..], start, end)
    else InWindow(venue[1..], start, end)
  }

  /** Ascending by (timestamp, ID), every trade ID once. */
  ghost predicate Ascending(venue: seq<Trade>) {
    venue == [] || (Ascending(venue[1..]) && PrecedesAll(venue[0], venue[1..]))
  }

  ghost predicate PrecedesAll(a: Trade, rows: seq<Trade>) {
    forall i :: 0 <= i < |rows| ==> Precedes(a, rows[i])
  }

  ghost predicate AllWithin(rows: seq<Trade>, start: int, end: int) {
    forall i :: 0 <= i < |rows| ==> start <= rows[i].ms <= end
  }

  predicate Precedes(a: Trade, b: Trade) {
    KeyBefore(a, b) && a.id != b.id
  }

  predicate KeyBefore(a: Trade, b: Trade) {
    a.ms < b.ms || (a.ms == b.ms && a.id < b.id)
  }

  ghost predicate DistinctIds(rows: seq<Trade>) {
    forall i, j :: 0 <= i < j < |rows| ==> rows[i].id != rows[j].id
  }

  ghost predicate AnswersTrades(rest: TradeVenue, venue: seq<Trade>) {
    forall start, end ::
      var w := InWindow(venue, start, end);
      rest(start, end) == if |w| <= PAGE_LIMIT then w else w[..PAGE_LIMIT]
  }

  /** Some millisecond of the window alone fills a page. */
  ghost predicate TradesSaturate(rows: seq<Trade>) {
    exists i :: 0 <= i && SaturatedAt(rows, i)
  }

  ghost predicate SaturatedAt(rows: seq<Trade>, i: nat) {
    i + PAGE_LIMIT <= |rows| && rows[i].ms == rows[i + PAGE_LIMIT - 1].ms
  }

  predicate Holds(rows: seq<Trade>, id: int) {
    exists k :: 0 <= k < |rows| && rows[k].id == id
  }

  function Find(rows: seq<Trade>, id: int): (k: nat)
    requires Holds(rows, id)
    ensures k < |rows| && rows[k].id == id
  {
    if rows[0].id == id then 0 else 1 + Find(rows[1..], id)
  }

  /** The rows held after a page: known IDs are skipped and new ones appended.  None when a row
      escapes the window, breaks the order, or changes the facts of a known ID. */
  function Absorb(held: seq<Trade>, page: seq<Trade>, cursor: int, end: int): (r: Option<seq<Trade>>)
    decreases |page|
  {
    if page == [] then Some(held)
    else
      var before := Absorb(held, page[..|page| - 1], cursor, end);
      var row := page[|page| - 1];
      if before.None? || !(cursor <= row.ms <= end) then None
      else if |page| > 1 && KeyBefore(row, page[|page| - 2]) then None
      else if !Holds(before.value, row.id) then Some(before.value + [row])
      else if before.value[Find(before.value, row.id)] == row then before
      else None
  }

  lemma {:induction false} RefusedPrefix(held: seq<Trade>, page: seq<Trade>, cursor: int, end: int, i: nat)
    requires i <= |page| && Absorb(held, page[..i], cursor, end).None?
    ensures Absorb(held, page, cursor, end).None?
    decreases |page|
  {
    if i == |page| {
      assert page[..i] == page;
    } else {
      assert page[..|page| - 1][..i] == page[..i];
      RefusedPrefix(held, page[..|page| - 1], cursor, end, i);
    }
  }

  method AbsorbPage(held: seq<Trade>, page: seq<Trade>, cursor: int, end: int)
    returns (r: Option<seq<Trade>>, newIds: nat, lastMs: int)
    ensures r == Absorb(held, page, cursor, end)
    ensures r.Some? ==> newIds == |r.value| - |held|
    ensures r.Some? ==> lastMs == if page == [] then cursor else page[|page| - 1].ms
  {
    var rows := held;
    newIds, lastMs := 0, cursor;
    for i := 0 to |page|
      invariant Absorb(held, page[..i], cursor, end) == Some(rows) && newIds == |rows| - |held|
      invariant lastMs == if i == 0 then cursor else page[i - 1].ms
    {
      var row := page[i];
      assert page[..i + 1][..i] == page[..i];
      if !(cursor <= row.ms <= end) || (i > 0 && KeyBefore(row, page[i - 1])) {
        RefusedPrefix(held, page, cursor, end, i + 1);
        return None, newIds, lastMs;
      }
      if !Holds(rows, row.id) {
        rows, newIds := rows + [row], newIds + 1;
      } else if rows[Find(rows, row.id)] != row {
        RefusedPrefix(held, page, cursor, end, i + 1);
        return None, newIds, lastMs;
      }
      lastMs := row.ms;
    }
    assert page[..|page|] == page;
    r := Some(rows);
  }

  /** Every ID the venue can still show in windows that end at `end`. */
  ghost function AllIds(rest: TradeVenue, start: int, end: int): set<int>
    decreases end - start
  {
    var page := rest(start, end);
    var here := set k | 0 <= k < |page| :: page[k].id;
    if start < end then here + AllIds(rest, start + 1, end) else here
  }

  ghost predicate IdsWithin(rows: seq<Trade>, ids: set<int>) {
    forall k :: 0 <= k < |rows| ==> rows[k].id in ids
  }

  lemma {:induction false} AllIdsCoversPage(rest: TradeVenue, start: int, end: int, cursor: int)
    requires start <= cursor && (cursor <= end || cursor == start)
    ensures IdsWithin(rest(cursor, end), AllIds(rest, start, end))
    decreases cursor - start
  {
    if start < cursor {
      AllIdsCoversPage(rest, start + 1, end, cursor);
    }
  }

  // Absorbing a page keeps the IDs distinct, the rows inside the window, and adds only page rows.
  lemma {:induction false} AbsorbKeeps(held: seq<Trade>, page: seq<Trade>, cursor: int, end: int,
                                       start: int, ids: set<int>)
    requires Absorb(held, page, cursor, end).Some? && start <= cursor
    requires DistinctIds(held) && AllWithin(held, start, end)
    requires IdsWithin(held, ids) && IdsWithin(page, ids)
    ensures
      var rows := Absorb(held, page, cursor, end).value;
      && DistinctIds(rows) && AllWithin(rows, start, end)
      && IdsWithin(rows, ids)
    ensures page != [] ==> cursor <= page[|page| - 1].ms <= end
    decreases |page|
  {
    if page != [] {
      AbsorbKeeps(held, page[..|page| - 1], cursor, end, start, ids);
    }
  }

  lemma {:induction false} DistinctIdsCount(rows: seq<Trade>, ids: set<int>)
    requires DistinctIds(rows) && IdsWithin(rows, ids)
    ensures |rows| <= |ids|
  {
    if rows != [] {
      var last := rows[|rows| - 1].id;
      DistinctIdsCount(rows[..|rows| - 1], ids - {last});
      assert |ids - {last}| == |ids| - 1;
    }
  }

  lemma {:induction false} WindowFollows(a: Trade, venue: seq<Trade>, start: int, end: int)
    requires PrecedesAll(a, venue)
    ensures PrecedesAll(a, InWindow(venue, start, end))
  {
    if venue != [] {
      WindowFollows(a, venue[1..], start, end);
    }
  }

  lemma {:induction false} WindowWithin(venue: seq<Trade>, start: int, end: int)
    ensures AllWithin(InWindow(venue, start, end), start, end)
  {
    if venue != [] {
      WindowWithin(venue[1..], start, end);
    }
  }

  lemma {:induction false} WindowAscends(venue: seq<Trade>, start: int, end: int)
    requires Ascending(venue)
    ensures Ascending(InWindow(venue, start, end))
  {
    if venue != [] {
      WindowAscends(venue[1..], start, end);
      WindowFollows(venue[0], venue[1..], start, end);
      var tail := InWindow(venue[1..], start, end);
      assert ([venue[0]] + tail)[1..] == tail;
    }
  }

  // The window from a later cursor is a suffix of the whole window.
  lemma {:induction false} LaterWindow(venue: seq<Trade>, start: int, end: int, cursor: int)
    requires Ascending(venue) && start <= cursor
    ensures
      var w, later := InWindow(venue, start, end), InWindow(venue, cursor, end);
      && |later| <= |w| && later == w[|w| - |later|..]
      && (forall i :: 0 <= i < |w| - |later| ==> w[i].ms < cursor)
  {
    if venue != [] {
      if cursor <= venue[0].ms {
        SameWindow(venue, start, end, cursor);
      } else {
        LaterWindow(venue[1..], start, end, cursor);
      }
    }
  }

  lemma {:induction false} SameWindow(venue: seq<Trade>, start: int, end: int, cursor: int)
    requires start <= cursor && forall i :: 0 <= i < |venue| ==> cursor <= venue[i].ms
    ensures InWindow(venue, start, end) == InWindow(venue, cursor, end)
  {
    if venue != [] {
      SameWindow(venue[1..], start, end, cursor);
    }
  }

  lemma {:induction false} AscendingAt(w: seq<Trade>, i: nat, j: nat)
    requires Ascending(w) && i < j < |w|
    ensures Precedes(w[i], w[j])
  {
    if i == 0 {
      assert w[j] == w[1..][j - 1];
    } else {
      AscendingAt(w[1..], i - 1, j - 1);
    }
  }

  // A page that overlaps the rows held extends them without a gap or a repetition.
  lemma {:induction false} AbsorbOverlap(w: seq<Trade>, from: nat, n: nat, upto: nat, cursor: int, end: int)
    requires from <= n <= |w| && from <= upto <= |w|
    requires Ascending(w) && AllWithin(w[from..], cursor, end)
    ensures Absorb(w[..n], w[from..upto], cursor, end) == Some(w[..if upto < n then n else upto])
    decreases upto
  {
    if from < upto {
      AbsorbOverlap(w, from, n, upto - 1, cursor, end);
      assert w[from..][upto - 1 - from] == w[upto - 1];
      OverlapStep(w, from, n, upto, cursor, end);
    }
  }

  lemma OverlapStep(w: seq<Trade>, from: nat, n: nat, upto: nat, cursor: int, end: int)
    requires from <= n <= |w| && from < upto <= |w| && Ascending(w) && cursor <= w[upto - 1].ms <= end
    requires Absorb(w[..n], w[from..upto - 1], cursor, end)
          == Some(w[..if upto - 1 < n then n else upto - 1])
    ensures Absorb(w[..n], w[from..upto], cursor, end) == Some(w[..if upto < n then n else upto])
  {
    var front, last := w[from..upto - 1], w[upto - 1];
    var held := if upto - 1 < n then n else upto - 1;
    SliceOneMore(w, from, upto);
    LastIsNext(w, from, upto, front);
    FindInRows(w, held, upto - 1);
    AbsorbOneMore(w[..n], front, last, w[..held], cursor, end);
    if held == upto - 1 {
      SliceOneMore(w, 0, upto);
    }
  }

  lemma LastIsNext(w: seq<Trade>, from: nat, upto: nat, front: seq<Trade>)
    requires Ascending(w) && from < upto <= |w| && front == w[from..upto - 1]
    ensures front != [] ==> !KeyBefore(w[upto - 1], front[|front| - 1])
  {
    if front != [] {
      assert front[|front| - 1] == w[upto - 2];
      AscendingAt(w, upto - 2, upto - 1);
    }
  }

  lemma SliceOneMore(w: seq<Trade>, from: nat, upto: nat)
    requires from < upto <= |w|
    ensures w[from..upto] == w[from..upto - 1] + [w[upto - 1]]
  {
  }

  lemma AbsorbOneMore(held: seq<Trade>, front: seq<Trade>, last: Trade, before: seq<Trade>,
                      cursor: int, end: int)
    requires Absorb(held, front, cursor, end) == Some(before) && cursor <= last.ms <= end
    requires front != [] ==> !KeyBefore(last, front[|front| - 1])
    requires Holds(before, last.id) ==> before[Find(before, last.id)] == last
    ensures Absorb(held, front + [last], cursor, end)
         == Some(if Holds(before, last.id) then before else before + [last])
  {
    var page := front + [last];
    assert page[..|page| - 1] == front;
  }

  lemma FindInRows(w: seq<Trade>, n: nat, at: nat)
    requires Ascending(w) && n <= |w| && at < |w|
    ensures Holds(w[..n], w[at].id) <==> at < n
    ensures at < n ==> w[..n][Find(w[..n], w[at].id)] == w[at]
  {
    forall k | 0 <= k < |w| && k != at ensures w[k].id != w[at].id {
      if k < at { AscendingAt(w, k, at); } else { AscendingAt(w, at, k); }
    }
    if at < n {
      assert w[..n][at].id == w[at].id;
    }
  }

  /** What the loop knows of a faithful venue: it holds the first rows of the window w, the next
      page starts at `from` and overlaps them, and a saturated stretch inside them can only sit at
      the cursor. */
  ghost predicate Covered(w: seq<Trade>, from: nat, cursor: int, rows: seq<Trade>) {
    && from <= |rows| && rows <= w
    && (forall i :: 0 <= i < from ==> w[i].ms < cursor)
    && (forall i :: from <= i < |w| ==> cursor <= w[i].ms)
    && (rows != [] ==> rows[|rows| - 1].ms == cursor)
    && (forall i :: 0 <= i && i + PAGE_LIMIT <= |rows| && SaturatedAt(w, i) ==> w[i].ms == cursor)
  }

  function PageEnd(w: seq<Trade>, from: nat): nat {
    if |w| <= from + PAGE_LIMIT then |w| else from + PAGE_LIMIT
  }

  lemma CoveredPage(w: seq<Trade>, from: nat, cursor: int, end: int, rows: seq<Trade>)
    requires Ascending(w) && Covered(w, from, cursor, rows) && AllWithin(w[from..], cursor, end)
    ensures
      var upto := PageEnd(w, from);
      Absorb(rows, w[from..upto], cursor, end) == Some(w[..if upto < |rows| then |rows| else upto])
  {
    AbsorbOverlap(w, from, |rows|, PageEnd(w, from), cursor, end);
    assert rows == w[..|rows|];
  }

  lemma MsAscends(w: seq<Trade>, i: int, j: int)
    requires Ascending(w) && 0 <= i <= j < |w|
    ensures w[i].ms <= w[j].ms
  {
    if i < j {
      AscendingAt(w, i, j);
    }
  }

  lemma ShortPageFinishes(w: seq<Trade>, from: nat, cursor: int, rows: seq<Trade>)
    requires Ascending(w) && Covered(w, from, cursor, rows) && |w| < from + PAGE_LIMIT
    ensures !TradesSaturate(w)
  {
    forall i: nat | i + PAGE_LIMIT <= |w| ensures w[i].ms < w[i + PAGE_LIMIT - 1].ms {
      MsAscends(w, i, i + PAGE_LIMIT - 1);
      if |rows| < i + PAGE_LIMIT {
        assert w[i].ms < cursor == w[|rows| - 1].ms;
        MsAscends(w, |rows| - 1, i + PAGE_LIMIT - 1);
      } else {
        assert !SaturatedAt(w, i);
      }
    }
  }

  lemma StuckPageIsSaturated(w: seq<Trade>, from: nat, cursor: int, rows: seq<Trade>)
    requires Ascending(w) && Covered(w, from, cursor, rows) && from + PAGE_LIMIT <= |rows|
    ensures TradesSaturate(w)
  {
    MsAscends(w, from, from + PAGE_LIMIT - 1);
    MsAscends(w, from + PAGE_LIMIT - 1, |rows| - 1);
    assert w[|rows| - 1].ms == cursor;
    assert SaturatedAt(w, from);
  }

  lemma FullPageAdvances(w: seq<Trade>, from: nat, cursor: int, rows: seq<Trade>, from': nat, cursor': int)
    requires Ascending(w) && Covered(w, from, cursor, rows)
    requires |rows| < from + PAGE_LIMIT <= |w| && cursor' == w[from + PAGE_LIMIT - 1].ms
    requires from' <= |w|
    requires forall i :: 0 <= i < from' ==> w[i].ms < cursor'
    requires forall i :: from' <= i < |w| ==> cursor' <= w[i].ms
    ensures Covered(w, from', cursor', w[..from + PAGE_LIMIT])
  {
    assert from' < from + PAGE_LIMIT;
    forall i: nat | i + PAGE_LIMIT <= from + PAGE_LIMIT && SaturatedAt(w, i) ensures w[i].ms == cursor' {
      if i < from && |rows| < i + PAGE_LIMIT {
        MsAscends(w, |rows| - 1, i + PAGE_LIMIT - 1);
      }
    }
  }

  // The window seen from a cursor, as a suffix of the whole window.
  lemma WindowFrom(venue: seq<Trade>, start: int, end: int, cursor: int) returns (from: nat)
    requires Ascending(venue) && start <= cursor
    ensures var w := InWindow(venue, start, end);
      && from <= |w| && InWindow(venue, cursor, end) == w[from..]
      && AllWithin(w[from..], cursor, end)
      && (forall i :: 0 <= i < from ==> w[i].ms < cursor)
      && (forall i :: from <= i < |w| ==> cursor <= w[i].ms)
  {
    LaterWindow(venue, start, end, cursor);
    WindowWithin(venue, cursor, end);
    var w := InWindow(venue, start, end);
    from := |w| - |InWindow(venue, cursor, end)|;
    forall i | from <= i < |w| ensures cursor <= w[i].ms {
      assert w[i] == w[from..][i - from];
    }
  }

  ghost predicate Tracks(venue: seq<Trade>, start: int, end: int, cursor: int, from: nat, rows: seq<Trade>) {
    var w := InWindow(venue, start, end);
    && Ascending(w) && start <= cursor && from <= |w|
    && InWindow(venue, cursor, end) == w[from..] && AllWithin(w[from..], cursor, end)
    && Covered(w, from, cursor, rows)
  }

  lemma TracksFirst(venue: seq<Trade>, start: int, end: int)
    requires Ascending(venue)
    ensures Tracks(venue, start, end, start, 0, [])
  {
    WindowAscends(venue, start, end);
    WindowWithin(venue, start, end);
  }

  // One page of a faithful venue: the loop finishes, is stuck, or advances.
  lemma TracksPage(venue: seq<Trade>, rest: TradeVenue, start: int, end: int, cursor: int, from: nat,
                   rows: seq<Trade>)
    requires AnswersTrades(rest, venue) && Tracks(venue, start, end, cursor, from, rows)
    ensures
      var w, page := InWindow(venue, start, end), rest(cursor, end);
      var upto := PageEnd(w, from);
      && page == w[from..upto]
      && Absorb(rows, page, cursor, end) == Some(w[..if upto < |rows| then |rows| else upto])
      && (|page| < PAGE_LIMIT ==> upto == |w| && !TradesSaturate(w))
      && (|page| >= PAGE_LIMIT && upto <= |rows| ==> TradesSaturate(w))
  {
    var w, page := InWindow(venue, start, end), rest(cursor, end);
    var upto := PageEnd(w, from);
    assert page == w[from..upto];
    CoveredPage(w, from, cursor, end, rows);
    if |page| < PAGE_LIMIT {
      ShortPageFinishes(w, from, cursor, rows);
    } else if upto <= |rows| {
      StuckPageIsSaturated(w, from, cursor, rows);
    }
  }

  lemma TracksAdvance(venue: seq<Trade>, start: int, end: int, cursor: int, from: nat, rows: seq<Trade>)
    returns (from': nat)
    requires Ascending(venue) && Tracks(venue, start, end, cursor, from, rows)
    requires |rows| < from + PAGE_LIMIT <= |InWindow(venue, start, end)|
    ensures
      var w, upto := InWindow(venue, start, end), from + PAGE_LIMIT;
      Tracks(venue, start, end, w[upto - 1].ms, from', w[..upto])
  {
    var w, upto := InWindow(venue, start, end), from + PAGE_LIMIT;
    from' := WindowFrom(venue, start, end, w[upto - 1].ms);
    FullPageAdvances(w, from, cursor, rows, from', w[upto - 1].ms);
  }

  lemma ShortPage(venue: seq<Trade>, rest: TradeVenue, start: int, end: int, cursor: int, from: nat, rows: seq<Trade>, w: seq<Trade>)
    requires AnswersTrades(rest, venue) && Tracks(venue, start, end, cursor, from, rows) && w == InWindow(venue, start, end)
    requires |rest(cursor, end)| < PAGE_LIMIT
    ensures Absorb(rows, rest(cursor, end), cursor, end) == Some(w) && !TradesSaturate(w)
  {
    TracksPage(venue, rest, start, end, cursor, from, rows);
    assert w[..|w|] == w;
  }

  lemma FullPage(venue: seq<Trade>, rest: TradeVenue, start: int, end: int, cursor: int, from: nat, rows: seq<Trade>, w: seq<Trade>)
    returns (from': nat)
    requires Ascending(venue) && AnswersTrades(rest, venue) && w == InWindow(venue, start, end)
    requires Tracks(venue, start, end, cursor, from, rows) && |rest(cursor, end)| >= PAGE_LIMIT
    ensures Absorb(rows, rest(cursor, end), cursor, end).Some?
    ensures |Absorb(rows, rest(cursor, end), cursor, end).value| == |rows| ==> TradesSaturate(w)
    ensures |Absorb(rows, rest(cursor, end), cursor, end).value| != |rows| ==>
      from + PAGE_LIMIT <= |w| && rest(cursor, end) == w[from..from + PAGE_LIMIT]
      && Absorb(rows, rest(cursor, end), cursor, end) == Some(w[..from + PAGE_LIMIT])
      && Tracks(venue, start, end, w[from + PAGE_LIMIT - 1].ms, from', w[..from + PAGE_LIMIT])
  {
    TracksPage(venue, rest, start, end, cursor, from, rows);
    from' := 0;
    if PageEnd(w, from) > |rows| {
      from' := TracksAdvance(venue, start, end, cursor, from, rows);
    }
  }

  /** What one page of a faithful venue comes to: everything, a refusal, or more rows to track. */
  lemma PageOutcome(venue: seq<Trade>, rest: TradeVenue, start: int, end: int, cursor: int, from: nat, rows: seq<Trade>,
                    page: seq<Trade>, absorbed: Option<seq<Trade>>) returns (from': nat)
    requires Ascending(venue) && AnswersTrades(rest, venue) && Tracks(venue, start, end, cursor, from, rows)
    requires page == rest(cursor, end) && absorbed == Absorb(rows, page, cursor, end)
    ensures absorbed.Some?
    ensures |page| < PAGE_LIMIT ==>
      absorbed.value == InWindow(venue, start, end) && !TradesSaturate(InWindow(venue, start, end))
    ensures |page| >= PAGE_LIMIT && |absorbed.value| == |rows| ==> TradesSaturate(InWindow(venue, start, end))
    ensures |page| >= PAGE_LIMIT && |absorbed.value| != |rows| ==>
      page[|page| - 1].ms >= cursor && Tracks(venue, start, end, page[|page| - 1].ms, from', absorbed.value)
  {
    var w := InWindow(venue, start, end);
    from' := 0;
    if |page| < PAGE_LIMIT {
      ShortPage(venue, rest, start, end, cursor, from, rows, w);
    } else {
      from' := FullPage(venue, rest, start, end, cursor, from, rows, w);
      if |absorbed.value| != |rows| {
        LastOfPage(w, from, cursor, end, page);
      }
    }
  }

  lemma LastOfPage(w: seq<Trade>, from: nat, cursor: int, end: int, page: seq<Trade>)
    requires from + PAGE_LIMIT <= |w| && page == w[from..from + PAGE_LIMIT] && AllWithin(w[from..], cursor, end)
    ensures page[|page| - 1] == w[from + PAGE_LIMIT - 1] && page[|page| - 1].ms >= cursor
  {
    assert w[from..][PAGE_LIMIT - 1] == w[from + PAGE_LIMIT - 1];
  }

  /** Forward paging by the last timestamp of each full page. */
  method TradeHistoryRows(rest: TradeVenue, start: int, end: int, ghost venue: seq<Trade>)
    returns (r: Result<seq<Trade>>)
    ensures r.Success? ==> DistinctIds(r.value) && AllWithin(r.value, start, end)
    ensures Ascending(venue) && AnswersTrades(rest, venue) ==>
      && (r.Success? <==> !TradesSaturate(InWindow(venue, start, end)))
      && (r.Success? ==> r.value == InWindow(venue, start, end))
  {
    ghost var faithful := Ascending(venue) && AnswersTrades(rest, venue);
    ghost var from: nat := 0;
    ghost var ids := AllIds(rest, start, end);
    var cursor := start;
    var rows: seq<Trade> := [];
    if faithful {
      TracksFirst(venue, start, end);
    }
    while true
      invariant start <= cursor && (cursor <= end || cursor == start)
      invariant DistinctIds(rows) && AllWithin(rows, start, end)
      invariant IdsWithin(rows, ids)
      invariant faithful ==> Tracks(venue, start, end, cursor, from, rows)
      decreases |ids| - |rows|
    {
      var page := rest(cursor, end);
      AllIdsCoversPage(rest, start, end, cursor);
      var absorbed, newIds, lastMs := AbsorbPage(rows, page, cursor, end);
      if faithful {
        from := PageOutcome(venue, rest, start, end, cursor, from, rows, page, absorbed);
      }
      if absorbed.None? {
        return Refused;
      }
      AbsorbKeeps(rows, page, cursor, end, start, ids);
      DistinctIdsCount(absorbed.value, ids);
      if |page| < PAGE_LIMIT {
        return Success(absorbed.value);
      }
      if newIds == 0 || lastMs < cursor {
        return Refused;
      }
      rows, cursor := absorbed.value, lastMs;
    }
  }
}
