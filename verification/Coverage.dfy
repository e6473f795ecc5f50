/**
  The share of a window that a set of spans covers, scripts/qualify_analysis.py. Times are integers of
  any common unit, so the measure of a union of spans is its number of units; the result is exact,
  before the division's rounding.
*/
module Coverage {
  import Sorting

  datatype Span = Span(begin: int, end: int)

  function Max(a: int, b: int): int { if a < b then b else a }
  function Min(a: int, b: int): int { if a < b then a else b }

  /** The units from `a` up to `b`. */
  function Units(a: int, b: int): (r: set<int>)
    ensures |r| == Max(b - a, 0) && forall t :: t in r <==> a <= t < b
    decreases b - a
  {
    if a < b then Units(a, b - 1) + {b - 1} else {}
  }

  /** The units of the window that some span covers. */
  ghost function Cells(spans: seq<Span>, started: int, ended: int): set<int> {
    set t | t in Units(started, ended) && Hit(spans, t)
  }

  ghost predicate Hit(spans: seq<Span>, t: int) {
    exists i :: 0 <= i < |spans| && spans[i].begin <= t < spans[i].end
  }

  function Clip(s: Span, started: int, ended: int): Span {
    Span(Max(s.begin, started), Min(s.end, ended))
  }

  function Clipped(spans: seq<Span>, started: int, ended: int): (r: seq<Span>)
    ensures |r| == |spans|
  {
    seq(|spans|, i requires 0 <= i < |spans| => Clip(spans[i], started, ended))
  }

  /** The order of pairs. */
  predicate Before(a: Span, b: Span) {
    a.begin < b.begin || (a.begin == b.begin && a.end <= b.end)
  }

  /** The spans as the sweep takes them: by their begin, within the window. */
  ghost predicate Tidy(sorted: seq<Span>, started: int, ended: int) {
    && (forall i, j | 0 <= i <= j < |sorted| :: sorted[i].begin <= sorted[j].begin)
    && forall i | 0 <= i < |sorted| :: started <= sorted[i].begin && sorted[i].end <= ended
  }

  lemma SortedSpans(clipped: seq<Span>)
    ensures var sorted := Sorting.Sort(Before, clipped);
            && (forall s :: s in sorted <==> s in clipped)
            && forall i, j | 0 <= i <= j < |sorted| :: sorted[i].begin <= sorted[j].begin
  {
    var sorted := Sorting.Sort(Before, clipped);
    Sorting.SortSorts(Before, clipped);
    assert Sorting.Ascending(Before, sorted);
    forall s ensures s in sorted <==> s in clipped {
      assert s in sorted <==> s in multiset(sorted);
      assert s in clipped <==> s in multiset(clipped);
    }
  }

  /** Sorted, they cover the same units. */
  lemma SortedCells(spans: seq<Span>, started: int, ended: int)
    ensures var sorted := Sorting.Sort(Before, Clipped(spans, started, ended));
            Tidy(sorted, started, ended) && Cells(sorted, started, ended) == Cells(spans, started, ended)
  {
    var clipped := Clipped(spans, started, ended);
    var sorted := Sorting.Sort(Before, clipped);
    SortedSpans(clipped);
    forall i | 0 <= i < |sorted| ensures started <= sorted[i].begin && sorted[i].end <= ended {
      assert sorted[i] in clipped;
    }
    forall t | started <= t < ended ensures t in Cells(sorted, started, ended) <==> t in Cells(spans, started, ended) {
      SameAt(spans, sorted, started, ended, t);
    }
  }

  lemma SameAt(spans: seq<Span>, sorted: seq<Span>, started: int, ended: int, t: int)
    requires started <= t < ended
    requires forall s :: s in sorted <==> s in Clipped(spans, started, ended)
    ensures t in Cells(sorted, started, ended) <==> t in Cells(spans, started, ended)
  {
    var clipped := Clipped(spans, started, ended);
    if t in Cells(sorted, started, ended) {
      var i :| 0 <= i < |sorted| && sorted[i].begin <= t < sorted[i].end;
      assert sorted[i] in clipped;
      var k :| 0 <= k < |clipped| && clipped[k] == sorted[i];
      assert spans[k].begin <= t < spans[k].end;
    }
    if t in Cells(spans, started, ended) {
      var k :| 0 <= k < |spans| && spans[k].begin <= t < spans[k].end;
      assert clipped[k] in sorted;
      var i :| 0 <= i < |sorted| && sorted[i] == clipped[k];
      assert sorted[i].begin <= t < sorted[i].end;
    }
  }

  lemma HitAppend(spans: seq<Span>, last: Span, t: int)
    ensures Hit(spans + [last], t) <==> Hit(spans, t) || last.begin <= t < last.end
  {
    var all := spans + [last];
    if Hit(spans, t) {
      var i :| 0 <= i < |spans| && spans[i].begin <= t < spans[i].end;
      assert all[i].begin <= t < all[i].end;
    }
    if last.begin <= t < last.end {
      assert all[|spans|].begin <= t < all[|spans|].end;
    }
  }

  /** Before the cursor, a span sorted after the others adds nothing. */
  lemma HitPast(spans: seq<Span>, last: Span, started: int, cursor: int, t: int)
    requires Swept(spans, started, cursor) && started <= last.begin
    requires forall i | 0 <= i < |spans| :: spans[i].begin <= last.begin
    ensures Hit(spans + [last], t) <==> Hit(spans, t) || Max(last.begin, cursor) <= t < last.end
    ensures !(Hit(spans, t) && cursor <= t)
  {
    HitAppend(spans, last, t);
    if last.begin <= t < cursor {
      var j :| 0 <= j < |spans| && spans[j].end == cursor;
      assert spans[j].begin <= t < spans[j].end;
    }
  }

  /** One more span, sorted after the others, adds exactly what lies past the cursor. */
  lemma OneMoreSpan(spans: seq<Span>, last: Span, started: int, ended: int, cursor: int)
    requires Swept(spans, started, cursor) && started <= last.begin && last.end <= ended
    requires forall i | 0 <= i < |spans| :: spans[i].begin <= last.begin
    ensures var begin, end := Max(last.begin, cursor), last.end;
            |Cells(spans + [last], started, ended)| == |Cells(spans, started, ended)| + Max(end - begin, 0)
  {
    var begin, end := Max(last.begin, cursor), last.end;
    var cells, more := Cells(spans, started, ended), Units(begin, end);
    forall t ensures t in Cells(spans + [last], started, ended) <==> t in cells || t in more {
      HitPast(spans, last, started, cursor, t);
    }
    forall t | t in cells ensures t !in more {
      HitPast(spans, last, started, cursor, t);
    }
    assert Cells(spans + [last], started, ended) == cells + more;
  }

  lemma CursorMoves(spans: seq<Span>, last: Span, started: int, cursor: int)
    requires Swept(spans, started, cursor)
    ensures Swept(spans + [last], started, if last.end > Max(last.begin, cursor) then last.end else cursor)
  {
    var all := spans + [last];
    assert all[|spans|].end == last.end;
    if cursor != started {
      var j :| 0 <= j < |spans| && spans[j].end == cursor;
      assert all[j].end == cursor;
    }
  }

  /** The sweep's cursor: no unit at or past it is covered yet, and it is the window's start or the end
      of a span already taken. */
  ghost predicate Swept(spans: seq<Span>, started: int, cursor: int) {
    && (cursor == started || exists j :: 0 <= j < |spans| && spans[j].end == cursor)
    && started <= cursor
    && forall i | 0 <= i < |spans| :: spans[i].end <= cursor || spans[i].end <= spans[i].begin
  }

  method Sweep(sorted: seq<Span>, started: int, ended: int) returns (total: nat)
    requires Tidy(sorted, started, ended)
    ensures total == |Cells(sorted, started, ended)|
  {
    var cursor := started;
    total := 0;
    assert Cells(sorted[..0], started, ended) == {};
    for n := 0 to |sorted|
      invariant Swept(sorted[..n], started, cursor)
      invariant total == |Cells(sorted[..n], started, ended)|
    {
      OneMoreSpan(sorted[..n], sorted[n], started, ended, cursor);
      CursorMoves(sorted[..n], sorted[n], started, cursor);
      assert sorted[..n] + [sorted[n]] == sorted[..n + 1];
      var begin, end := Max(sorted[n].begin, cursor), sorted[n].end;
      if end > begin {
        total := total + (end - begin);
        cursor := end;
      }
    }
    assert sorted[..|sorted|] == sorted;
  }

  /** The sweep computes exactly the measure of the union of the spans within the window. */
  method Covered(spans: seq<Span>, started: int, ended: int) returns (total: nat)
    ensures total == |Cells(spans, started, ended)|
  {
    SortedCells(spans, started, ended);
    total := Sweep(Sorting.Sort(Before, Clipped(spans, started, ended)), started, ended);
  }

  /** The covered units lie between none and the whole window. */
  lemma CoverIsBounded(spans: seq<Span>, started: int, ended: int)
    ensures 0 <= |Cells(spans, started, ended)| <= Max(ended - started, 0)
  {
    var cells := Cells(spans, started, ended);
    if started <= ended {
      assert cells <= Units(started, ended);
      SubsetCount(cells, Units(started, ended));
    } else {
      assert cells == {};
    }
  }

  /** The share before it is rounded, with `least` the length an empty window is given. */
  method Share(spans: seq<Span>, started: int, ended: int, least: real) returns (share: real)
    requires 0.0 < least <= 1.0
    ensures 0.0 <= share <= 1.0
    ensures started < ended ==> share * (ended - started) as real == |Cells(spans, started, ended)| as real
    ensures started >= ended ==> share == 0.0
  {
    var total := Covered(spans, started, ended);
    CoverIsBounded(spans, started, ended);
    var window := (ended - started) as real;
    var length := if window < least then least else window;
    share := total as real / length;
    Divides(total as real, length);
  }

  lemma Divides(part: real, whole: real)
    requires 0.0 <= part <= whole && 0.0 < whole
    ensures part / whole * whole == part && 0.0 <= part / whole <= 1.0
  {
  }

  lemma SubsetCount(a: set<int>, b: set<int>)
    requires a <= b
    ensures |a| <= |b|
  {
    assert b == a + (b - a);
  }

  /** Neither the order of spans nor how often one is given matters, and a span more never lowers it. */
  lemma MoreSpansCoverMore(spans: seq<Span>, more: seq<Span>, started: int, ended: int)
    requires forall s | s in spans :: s in more
    ensures |Cells(spans, started, ended)| <= |Cells(more, started, ended)|
    ensures (forall s | s in more :: s in spans) ==> Cells(spans, started, ended) == Cells(more, started, ended)
  {
    CellsGrow(spans, more, started, ended);
    SubsetCount(Cells(spans, started, ended), Cells(more, started, ended));
    if forall s | s in more :: s in spans {
      CellsGrow(more, spans, started, ended);
    }
  }

  lemma CellsGrow(spans: seq<Span>, more: seq<Span>, started: int, ended: int)
    requires forall s | s in spans :: s in more
    ensures Cells(spans, started, ended) <= Cells(more, started, ended)
  {
    forall t | t in Cells(spans, started, ended) ensures t in Cells(more, started, ended) {
      var i :| 0 <= i < |spans| && spans[i].begin <= t < spans[i].end;
      assert spans[i] in more;
      var k :| 0 <= k < |more| && more[k] == spans[i];
      assert more[k].begin <= t < more[k].end;
    }
  }
}
