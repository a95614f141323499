/** Order history by bisection: a full page is discarded and its window halved. */
module OrderPaging {
  // The venue filters on one timestamp axis, which the loop does not know.  Whatever the venue
  // answers, the rows returned lie in the requested window on one common axis; against a venue with
  // a fixed history they are exactly its orders, and the loop refuses exactly when one millisecond
  // holds a full page.

  import opened HistoryPaging

  datatype Axis = Created | Updated

  datatype Order = Order(venueId: int, created: int, updated: int, facts: int)

  type OrderVenue = (int, int) -> seq<Order>

  function Stamp(order: Order, axis: Axis): int {
    if axis.Created? then order.created else order.updated
  }

  predicate Within(order: Order, axis: Axis, start: int, end: int) {
    start <= Stamp(order, axis) <= end
  }

  function InWindow(venue: seq<Order>, axis: Axis, start: int, end: int): seq<Order> {
    if venue == [] then []
    else if Within(venue[0], axis, start, end) then [venue[0]] + InWindow(venue[1..], axis, start, end)
    else InWindow(venue[1..], axis, start, end)
  }

  predicate PageWithin(page: seq<Order>, axis: Axis, start: int, end: int) {
    forall k :: 0 <= k < |page| ==> Within(page[k], axis, start, end)
  }

  /** A short page is complete, in any order; a full page holds any rows of the window. */
  ghost predicate AnswersOrders(rest: OrderVenue, venue: seq<Order>, axis: Axis) {
    forall start, end {:trigger rest(start, end)} :: Answers(rest(start, end), InWindow(venue, axis, start, end), axis, start, end)
  }

  ghost predicate Answers(page: seq<Order>, w: seq<Order>, axis: Axis, start: int, end: int) {
    && PageWithin(page, axis, start, end)
    && (if |w| < PAGE_LIMIT then multiset(page) == multiset(w) else |page| == PAGE_LIMIT)
  }

  ghost predicate OrdersSaturate(venue: seq<Order>, axis: Axis, start: int, end: int) {
    exists t :: start <= t <= end && |InWindow(venue, axis, t, t)| >= PAGE_LIMIT
  }

  type Window = (int, int)

  function Content(venue: seq<Order>, axis: Axis, pending: seq<Window>): multiset<Order> {
    if pending == [] then multiset{}
    else
      var last := pending[|pending| - 1];
      Content(venue, axis, pending[..|pending| - 1]) + multiset(InWindow(venue, axis, last.0, last.1))
  }

  function Weight(pending: seq<Window>): nat {
    if pending == [] then 0
    else
      var last := pending[|pending| - 1];
      Weight(pending[..|pending| - 1]) + if last.0 <= last.1 then 2 * (last.1 - last.0) + 1 else 1
  }

  lemma {:induction false} BisectContent(venue: seq<Order>, axis: Axis, start: int, mid: int, end: int)
    requires start <= mid < end
    ensures multiset(InWindow(venue, axis, start, end))
         == multiset(InWindow(venue, axis, start, mid)) + multiset(InWindow(venue, axis, mid + 1, end))
  {
    if venue != [] {
      BisectContent(venue[1..], axis, start, mid, end);
    }
  }

  lemma {:induction false} WindowGrows(venue: seq<Order>, axis: Axis, start: int, end: int, t: int)
    requires start <= t <= end
    ensures |InWindow(venue, axis, t, t)| <= |InWindow(venue, axis, start, end)|
  {
    if venue != [] {
      WindowGrows(venue[1..], axis, start, end, t);
    }
  }

  lemma {:induction false} EmptyWindow(venue: seq<Order>, axis: Axis, start: int, end: int)
    requires end < start
    ensures InWindow(venue, axis, start, end) == []
  {
    if venue != [] {
      EmptyWindow(venue[1..], axis, start, end);
    }
  }

  ghost predicate Queued(pending: seq<Window>, t: int) {
    exists k :: 0 <= k < |pending| && pending[k].0 <= t <= pending[k].1
  }

  /** Against a fixed history nothing is lost or doubled across splits, and every millisecond not
      queued any more is known to fit a page. */
  ghost predicate Tracks(venue: seq<Order>, axis: Axis, start: int, end: int,
                         pending: seq<Window>, rows: seq<Order>) {
    && multiset(rows) + Content(venue, axis, pending) == multiset(InWindow(venue, axis, start, end))
    && (forall t :: start <= t <= end ==>
          Queued(pending, t) || |InWindow(venue, axis, t, t)| < PAGE_LIMIT)
  }

  lemma TracksShortPage(venue: seq<Order>, axis: Axis, start: int, end: int,
                        front: seq<Window>, window: Window, rows: seq<Order>, page: seq<Order>)
    requires Tracks(venue, axis, start, end, front + [window], rows)
    requires |InWindow(venue, axis, window.0, window.1)| < PAGE_LIMIT
    requires multiset(page) == multiset(InWindow(venue, axis, window.0, window.1))
    ensures Tracks(venue, axis, start, end, front, rows + page)
  {
    var pending := front + [window];
    assert pending[..|pending| - 1] == front;
    forall t | start <= t <= end && !Queued(front, t)
      ensures |InWindow(venue, axis, t, t)| < PAGE_LIMIT
    {
      if Queued(pending, t) {
        WindowGrows(venue, axis, window.0, window.1, t);
      }
    }
  }

  lemma TracksBisect(venue: seq<Order>, axis: Axis, start: int, end: int,
                     front: seq<Window>, window: Window, mid: int, rows: seq<Order>)
    requires Tracks(venue, axis, start, end, front + [window], rows)
    requires window.0 <= mid < window.1
    ensures Tracks(venue, axis, start, end, front + [(mid + 1, window.1)] + [(window.0, mid)], rows)
  {
    BisectContent(venue, axis, window.0, mid, window.1);
    var one := front + [(mid + 1, window.1)];
    var two := one + [(window.0, mid)];
    assert (front + [window])[..|front|] == front && one[..|front|] == front && two[..|one|] == one;
    assert Content(venue, axis, two) == Content(venue, axis, front + [window]);
    forall t | start <= t <= end && Queued(front + [window], t) ensures Queued(two, t) {
      var k :| 0 <= k < |front + [window]|
            && (front + [window])[k].0 <= t <= (front + [window])[k].1;
      if k < |front| {
        assert two[k] == front[k];
      } else if t <= mid {
        assert two[|front| + 1] == (window.0, mid);
      } else {
        assert two[|front|] == (mid + 1, window.1);
      }
    }
  }

  lemma WeightSplit(front: seq<Window>, window: Window, mid: int)
    requires window.0 <= mid < window.1
    ensures Weight(front) < Weight(front + [window])
    ensures Weight(front + [(mid + 1, window.1)] + [(window.0, mid)]) < Weight(front + [window])
  {
    var one := front + [(mid + 1, window.1)];
    var two := one + [(window.0, mid)];
    assert (front + [window])[..|front|] == front && one[..|front|] == front && two[..|one|] == one;
  }

  lemma WeightPop(front: seq<Window>, window: Window)
    ensures Weight(front) < Weight(front + [window])
  {
    assert (front + [window])[..|front|] == front;
  }

  lemma FaithfulPage(rest: OrderVenue, venue: seq<Order>, axis: Axis, window: Window)
    requires AnswersOrders(rest, venue, axis)
    ensures
      var page, w := rest(window.0, window.1), InWindow(venue, axis, window.0, window.1);
      && PageWithin(page, axis, window.0, window.1)
      && (|page| < PAGE_LIMIT ==> |w| < PAGE_LIMIT && multiset(page) == multiset(w))
      && (|page| >= PAGE_LIMIT ==> |w| >= PAGE_LIMIT)
  {
    var page, w := rest(window.0, window.1), InWindow(venue, axis, window.0, window.1);
    assert Answers(page, w, axis, window.0, window.1);
    if multiset(page) == multiset(w) {
      assert |multiset(page)| == |page| && |multiset(w)| == |w|;
    }
  }

  lemma TracksDone(venue: seq<Order>, axis: Axis, start: int, end: int, rows: seq<Order>)
    requires Tracks(venue, axis, start, end, [], rows)
    ensures !OrdersSaturate(venue, axis, start, end)
    ensures multiset(rows) == multiset(InWindow(venue, axis, start, end))
  {
  }

  lemma TracksFirst(venue: seq<Order>, axis: Axis, start: int, end: int)
    ensures Tracks(venue, axis, start, end, [(start, end)], [])
  {
    var pending: seq<Window> := [(start, end)];
    assert pending[..0] == [];
    assert pending[0] == (start, end);
  }

  lemma RowsStayWithin(rows: seq<Order>, page: seq<Order>, axes: set<Axis>, start: int, end: int, window: Window)
    requires OnAll(rows, axes, start, end) && OnAll(page, axes, window.0, window.1)
    requires start <= window.0 && window.1 <= end
    ensures OnAll(rows + page, axes, start, end)
  {
  }

  /** Every pending window is a proper part of the requested one. */
  ghost predicate WindowsWithin(pending: seq<Window>, start: int, end: int) {
    forall k :: 0 <= k < |pending| ==>
      start <= pending[k].0 && pending[k].1 <= end && (start <= end ==> pending[k].0 <= pending[k].1)
  }

  lemma WindowsBisect(front: seq<Window>, window: Window, mid: int, start: int, end: int)
    requires WindowsWithin(front + [window], start, end) && window.0 <= mid < window.1
    ensures WindowsWithin(front, start, end) && WindowsWithin(front + [(mid + 1, window.1)] + [(window.0, mid)], start, end)
  {
    assert (front + [window])[|front|] == window;
    assert forall k :: 0 <= k < |front| ==> (front + [window])[k] == front[k];
  }

  lemma WindowPops(front: seq<Window>, window: Window, start: int, end: int)
    requires WindowsWithin(front + [window], start, end)
    ensures WindowsWithin(front, start, end) && start <= window.0 && window.1 <= end && (start <= end ==> window.0 <= window.1)
  {
    assert (front + [window])[|front|] == window;
    assert forall k :: 0 <= k < |front| ==> (front + [window])[k] == front[k];
  }

  ghost predicate OnAll(rows: seq<Order>, axes: set<Axis>, start: int, end: int) {
    forall a :: a in axes ==> PageWithin(rows, a, start, end)
  }

  // A full page holds a row, so its window is not empty on any axis that fits.
  lemma FullPageWindow(page: seq<Order>, axes: set<Axis>, window: Window)
    requires |page| >= PAGE_LIMIT && axes != {} && OnAll(page, axes, window.0, window.1)
    ensures window.0 <= window.1
  {
    var known: Axis :| known in axes;
    assert Within(page[0], known, window.0, window.1);
  }

  lemma SomeAxis(rows: seq<Order>, axes: set<Axis>, start: int, end: int)
    requires axes != {} && OnAll(rows, axes, start, end)
    ensures exists a :: PageWithin(rows, a, start, end)
  {
    var common: Axis :| common in axes;
    assert PageWithin(rows, common, start, end);
  }

  // A full page of one instant cannot be bisected.
  lemma InstantSaturates(venue: seq<Order>, axis: Axis, window: Window, start: int, end: int)
    requires window.0 == window.1 && start <= window.0 <= end && |InWindow(venue, axis, window.0, window.1)| >= PAGE_LIMIT
    ensures OrdersSaturate(venue, axis, start, end)
  {
    assert |InWindow(venue, axis, window.0, window.0)| >= PAGE_LIMIT;
  }

  /** The axes on which every row of the page lies in its window. */
  method PageAxes(page: seq<Order>, candidates: set<Axis>, start: int, end: int) returns (axes: set<Axis>)
    ensures axes <= candidates
    ensures forall axis :: axis in candidates ==> (axis in axes <==> PageWithin(page, axis, start, end))
  {
    axes := set axis | axis in candidates && PageWithin(page, axis, start, end);
  }

  method OrderHistoryRows(rest: OrderVenue, start: int, end: int, ghost venue: seq<Order>, ghost axis: Axis)
    returns (r: Result<seq<Order>>)
    ensures r.Success? ==> exists a :: PageWithin(r.value, a, start, end)
    ensures AnswersOrders(rest, venue, axis) ==>
      && (r.Success? <==> !OrdersSaturate(venue, axis, start, end))
      && (r.Success? ==> multiset(r.value) == multiset(InWindow(venue, axis, start, end)))
  {
    ghost var faithful := AnswersOrders(rest, venue, axis);
    var pending: seq<Window> := [(start, end)];
    var rows: seq<Order> := [];
    var candidates := {Created, Updated};
    TracksFirst(venue, axis, start, end);
    while pending != []
      invariant candidates != {}
      invariant OnAll(rows, candidates, start, end) && WindowsWithin(pending, start, end)
      invariant faithful ==> axis in candidates && Tracks(venue, axis, start, end, pending, rows)
      decreases Weight(pending)
    {
      ghost var before := pending;
      var window := pending[|pending| - 1];
      pending := pending[..|pending| - 1];
      assert before == pending + [window];
      WeightPop(pending, window);
      WindowPops(pending, window, start, end);
      var page := rest(window.0, window.1);
      if faithful {
        FaithfulPage(rest, venue, axis, window);
      }
      candidates := PageAxes(page, candidates, window.0, window.1);
      if candidates == {} {
        return Refused;
      }
      if |page| < PAGE_LIMIT {
        if faithful {
          TracksShortPage(venue, axis, start, end, pending, window, rows, page);
        }
        RowsStayWithin(rows, page, candidates, start, end, window);
        rows := rows + page;
        continue;
      }
      FullPageWindow(page, candidates, window);
      if window.0 == window.1 {
        if faithful {
          InstantSaturates(venue, axis, window, start, end);
        }
        return Refused;
      }
      var mid := (window.0 + window.1) / 2;
      WeightSplit(pending, window, mid);
      WindowsBisect(pending, window, mid, start, end);
      if faithful {
        TracksBisect(venue, axis, start, end, pending, window, mid, rows);
      }
      pending := pending + [(mid + 1, window.1)];
      pending := pending + [(window.0, mid)];
    }
    SomeAxis(rows, candidates, start, end);
    if faithful {
      TracksDone(venue, axis, start, end, rows);
    }
    r := Success(rows);
  }
}
