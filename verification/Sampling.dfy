/**
  The fixed-slot sampler of scripts/qualify-devguard.py. Time is a number of ticks of any common
  unit. Everything but a wait and an action takes no time; stopping is one instant; a wait may end
  late by an amount that is an input, and an action takes the time it takes.
*/
module Sampling {

  /** Slots every `period`, or at the given offsets. */
  datatype Plan = Every(begin: int, period: nat) | At(begin: int, offsets: seq<int>)

  predicate More(p: Plan, slot: nat) {
    p.Every? || slot < |p.offsets|
  }

  function Moment(p: Plan, slot: nat): int
    requires More(p, slot)
  {
    match p
    case Every(begin, period) => begin + slot * period
    case At(begin, offsets) => begin + offsets[slot]
  }

  predicate Valid(p: Plan) {
    match p
    case Every(_, period) => period > 0
    case At(_, offsets) =>
      (forall i | 0 <= i < |offsets| :: 0 <= offsets[i]) && forall i, j | 0 <= i < j < |offsets| :: offsets[i] <= offsets[j]
  }

  lemma {:induction false} ProductsAscend(i: nat, j: nat, period: nat)
    requires i <= j && period > 0
    ensures 0 <= i * period && i * period + (j - i) <= j * period
    decreases j
  {
    if i < j {
      ProductsAscend(i, j - 1, period);
      assert j * period == (j - 1) * period + period;
    }
  }

  lemma MomentsAscend(p: Plan, i: nat, j: nat)
    requires Valid(p) && i <= j && More(p, j)
    ensures More(p, i) && p.begin <= Moment(p, i) <= Moment(p, j)
  {
  }

  datatype Row = Missed(slot: nat) | Ran(slot: nat, start: int, end: int)

  /** How the run goes: when the thread started, when it was stopped, how late each wait ended and
      how long each action took. */
  datatype Course = Course(started: int, stop: int, late: nat -> nat, took: nat -> nat)

  function Max(a: int, b: int): int { if a < b then b else a }

  /** When the wait for a slot's moment ends. */
  function Wakes(p: Plan, c: Course, slot: nat, now: int): int
    requires More(p, slot)
  {
    Max(now, Moment(p, slot)) + c.late(slot)
  }

  function Left(p: Plan, c: Course, slot: nat): nat {
    match p
    case Every(begin, period) => var m := begin + slot * period; if m < c.stop then c.stop - m else 0
    case At(_, offsets) => if slot < |offsets| then |offsets| - slot else 0
  }

  /** The clock never falls behind the last action; before the first one there is none. */
  predicate Timely(p: Plan, now: int, ended: int) {
    ended <= now || ended == p.begin
  }

  /** The rows from a slot on, when it is `now` and the last action ended at `ended`. */
  function RowsFrom(p: Plan, c: Course, slot: nat, now: int, ended: int): (rows: seq<Row>)
    requires Valid(p) && Timely(p, now, ended)
    decreases Left(p, c, slot)
  {
    if !More(p, slot) then []
    else
      var moment := Moment(p, slot);
      LeftShrinks(p, c, slot);
      if now >= c.stop && moment >= c.stop then []
      else if ended > moment then [Missed(slot)] + RowsFrom(p, c, slot + 1, now, ended)
      else
        var start := Wakes(p, c, slot, now);
        if c.stop <= start then []
        else
          var end := start + c.took(slot);
          [Ran(slot, start, end)] + RowsFrom(p, c, slot + 1, end, end)
  }

  lemma LeftShrinks(p: Plan, c: Course, slot: nat)
    requires Valid(p) && More(p, slot)
    ensures p.begin <= Moment(p, slot)
    ensures p.At? || Moment(p, slot) < c.stop ==> Left(p, c, slot + 1) < Left(p, c, slot)
  {
  }

  /** All rows of a run. */
  function Rows(p: Plan, c: Course): seq<Row>
    requires Valid(p)
  {
    RowsFrom(p, c, 0, c.started, p.begin)
  }

  lemma Regroup(before: seq<Row>, row: Row, after: seq<Row>)
    ensures (before + [row]) + after == before + ([row] + after)
  {
  }

  class Schedule {
    const plan: Plan
    var rows: seq<Row>
    var ended: int

    constructor (plan: Plan)
      ensures this.plan == plan && rows == [] && ended == plan.begin
    {
      this.plan := plan;
      rows, ended := [], plan.begin;
    }

    /** One turn of the loop: the slot's row, or the end of the schedule. */
    method Turn(c: Course, slot: nat, now: int) returns (over: bool, next: int)
      requires Valid(plan) && More(plan, slot) && Timely(plan, now, ended)
      modifies this
      ensures over ==> rows == old(rows) && RowsFrom(plan, c, slot, now, old(ended)) == []
      ensures !over ==> Timely(plan, next, ended) && Left(plan, c, slot + 1) < Left(plan, c, slot)
      ensures !over ==> |rows| == |old(rows)| + 1 && rows == old(rows) + [rows[|rows| - 1]]
      ensures !over ==> RowsFrom(plan, c, slot, now, old(ended)) ==
                          [rows[|rows| - 1]] + RowsFrom(plan, c, slot + 1, next, ended)
    {
      over, next := true, now;
      var moment := Moment(plan, slot);
      LeftShrinks(plan, c, slot);
      if now >= c.stop && moment >= c.stop {
        return;
      }
      if ended > moment {
        rows := rows + [Missed(slot)];
      } else {
        var start := Max(now, moment) + c.late(slot);
        if c.stop <= start {
          return;
        }
        next := start + c.took(slot);
        ended := next;
        rows := rows + [Ran(slot, start, next)];
      }
      over := false;
    }

    /** The thread's loop over the plan's moments. */
    method Run(c: Course)
      requires Valid(plan) && rows == [] && ended == plan.begin
      modifies this
      ensures rows == Rows(plan, c)
    {
      var slot, now := 0, c.started;
      while More(plan, slot)
        invariant Timely(plan, now, ended)
        invariant Rows(plan, c) == rows + RowsFrom(plan, c, slot, now, ended)
        decreases Left(plan, c, slot)
      {
        ghost var before := rows;
        var over;
        over, now := Turn(c, slot, now);
        if over {
          return;
        }
        Regroup(before, rows[|rows| - 1], RowsFrom(plan, c, slot + 1, now, ended));
        slot := slot + 1;
      }
    }
  }

  // ---------------------------------------------------------------- what the rows are

  /** When the last action before a row ended; `ended` when there is none. */
  function LastEnd(rows: seq<Row>, ended: int): int {
    if rows == [] then ended
    else var row := rows[|rows| - 1]; if row.Ran? then row.end else LastEnd(rows[..|rows| - 1], ended)
  }

  lemma {:induction false} LastEndAfter(row: Row, rows: seq<Row>, ended: int)
    ensures LastEnd([row] + rows, ended) == LastEnd(rows, if row.Ran? then row.end else ended)
  {
    if rows != [] {
      assert ([row] + rows)[..|rows|] == [row] + rows[..|rows| - 1];
      LastEndAfter(row, rows[..|rows| - 1], ended);
    } else {
      assert ([row] + rows)[..0] == [];
    }
  }

  /** A slot's row: before the stop, not early, and missed exactly when the action before it, which
      ended at `before`, ended after its moment. */
  ghost predicate Fits(p: Plan, c: Course, row: Row, slot: nat, before: int) {
    && row.slot == slot && More(p, slot) && Moment(p, slot) < c.stop
    && (row.Missed? <==> before > Moment(p, slot))
    && (row.Ran? ==> Moment(p, slot) <= row.start < c.stop && row.start <= row.end)
  }

  /** The rows are slots in order, each fitting. */
  ghost predicate Faithful(p: Plan, c: Course, rows: seq<Row>, slot: nat, ended: int) {
    forall i | 0 <= i < |rows| :: Fits(p, c, rows[i], slot + i, LastEnd(rows[..i], ended))
  }

  /** However late waits end and however long actions take. */
  lemma {:induction false} RowsAreFaithful(p: Plan, c: Course, slot: nat, now: int, ended: int)
    requires Valid(p) && Timely(p, now, ended)
    ensures Faithful(p, c, RowsFrom(p, c, slot, now, ended), slot, ended)
    decreases Left(p, c, slot)
  {
    var rows := RowsFrom(p, c, slot, now, ended);
    if rows != [] {
      LeftShrinks(p, c, slot);
      var row, rest := rows[0], rows[1..];
      var e := if row.Ran? then row.end else ended;
      var n := if row.Ran? then row.end else now;
      RowsAreFaithful(p, c, slot + 1, n, e);
      assert rest == RowsFrom(p, c, slot + 1, n, e);
      assert rows == [row] + rest && Fits(p, c, row, slot, ended);
      FaithfulFrom(p, c, row, rest, slot, ended);
    }
  }

  lemma FaithfulFrom(p: Plan, c: Course, row: Row, rest: seq<Row>, slot: nat, ended: int)
    requires Fits(p, c, row, slot, ended) && Faithful(p, c, rest, slot + 1, if row.Ran? then row.end else ended)
    ensures Faithful(p, c, [row] + rest, slot, ended)
  {
    var rows := [row] + rest;
    var e := if row.Ran? then row.end else ended;
    assert rows[..0] == [];
    forall i | 0 < i < |rows| ensures Fits(p, c, rows[i], slot + i, LastEnd(rows[..i], ended)) {
      assert rows[..i] == [row] + rest[..i - 1];
      LastEndAfter(row, rest[..i - 1], ended);
      assert Fits(p, c, rest[i - 1], slot + 1 + (i - 1), LastEnd(rest[..i - 1], e));
    }
  }

  /** When the wait for a slot's moment ends: only the first can find the thread started late. */
  function WakesAt(p: Plan, c: Course, slot: nat): int
    requires More(p, slot)
  {
    Max(Moment(p, slot), if slot == 0 then c.started else Moment(p, slot)) + c.late(slot)
  }

  /** When the last action before a slot ends, as long as none is cut short. */
  function EndBefore(p: Plan, c: Course, slot: nat): int
    requires slot == 0 || More(p, slot - 1)
  {
    if slot == 0 then p.begin
    else
      assert slot == 1 || More(p, slot - 2);
      var before := EndBefore(p, c, slot - 1);
      if before > Moment(p, slot - 1) then before else WakesAt(p, c, slot - 1) + c.took(slot - 1)
  }

  /** The slot is due, and the stop comes before its wait has ended. */
  ghost predicate Cut(p: Plan, c: Course, slot: nat) {
    && More(p, slot) && (slot == 0 || More(p, slot - 1))
    && EndBefore(p, c, slot) <= Moment(p, slot) && c.stop <= WakesAt(p, c, slot)
  }

  /** One slot on: the rows end at the stop or at a cut, and otherwise go on from the next slot. */
  lemma OneSlot(p: Plan, c: Course, slot: nat, now: int, ended: int)
    requires Valid(p) && Timely(p, now, ended) && More(p, slot)
    requires (slot == 0 || More(p, slot - 1)) && ended == EndBefore(p, c, slot)
    requires now == if slot == 0 then c.started else ended
    ensures var rows := RowsFrom(p, c, slot, now, ended);
            if Moment(p, slot) >= c.stop || Cut(p, c, slot) then rows == []
            else
              var next := EndBefore(p, c, slot + 1);
              |rows| == 1 + |RowsFrom(p, c, slot + 1, next, next)|
  {
    LeftShrinks(p, c, slot);
    assert Wakes(p, c, slot, now) == Max(now, Moment(p, slot)) + c.late(slot);
    if ended <= Moment(p, slot) {
      assert Wakes(p, c, slot, now) == WakesAt(p, c, slot);
    }
  }

  lemma {:induction false} CoversFrom(p: Plan, c: Course, slot: nat, now: int, ended: int, k: nat)
    requires Valid(p) && Timely(p, now, ended) && slot <= k && More(p, k)
    requires (slot == 0 || More(p, slot - 1)) && ended == EndBefore(p, c, slot)
    requires now == if slot == 0 then c.started else ended
    ensures k < slot + |RowsFrom(p, c, slot, now, ended)| <==>
              Moment(p, k) < c.stop && forall j: nat | slot <= j <= k :: !Cut(p, c, j)
    decreases k - slot
  {
    MomentsAscend(p, slot, k);
    OneSlot(p, c, slot, now, ended);
    if slot < k {
      MomentsAscend(p, slot + 1, k);
      var next := EndBefore(p, c, slot + 1);
      CoversFrom(p, c, slot + 1, next, next, k);
    }
  }

  /** Exactly when a moment has its row: it lies before the stop, and no slot up to it was due and still
      waited for at the stop. */
  lemma CoversIff(p: Plan, c: Course, k: nat)
    requires Valid(p) && More(p, k)
    ensures k < |Rows(p, c)| <==> Moment(p, k) < c.stop && forall j: nat | j <= k :: !Cut(p, c, j)
  {
    MomentsAscend(p, 0, k);
    CoversFrom(p, c, 0, c.started, p.begin, k);
  }

  /** So the first such slot ends the rows, although its moment may lie before the stop. */
  lemma CutEndsTheRows(p: Plan, c: Course, k: nat)
    requires Valid(p) && Cut(p, c, k) && Moment(p, k) < c.stop && forall j: nat | j < k :: !Cut(p, c, j)
    ensures |Rows(p, c)| == k
  {
    CoversIff(p, c, k);
    if k > 0 {
      MomentsAscend(p, k - 1, k);
      CoversIff(p, c, k - 1);
    }
  }

  lemma CutSecond(p: Plan, c: Course, k: nat)
    requires Valid(p) && k == 1 && More(p, k) && c.started <= Moment(p, k - 1)
    requires Moment(p, k - 1) + c.late(k - 1) < c.stop
    requires Moment(p, k - 1) + c.late(k - 1) + c.took(k - 1) <= Moment(p, k) < c.stop <= Moment(p, k) + c.late(k)
    ensures |Rows(p, c)| == k
  {
    MomentsAscend(p, k - 1, k);
    assert EndBefore(p, c, k - 1) == p.begin;
    assert EndBefore(p, c, k) == WakesAt(p, c, k - 1) + c.took(k - 1);
    CutEndsTheRows(p, c, k);
  }

  /** A wait that is 5 late, at the stop at 15, loses the slot due at 10. */
  lemma LateWaitLosesARow(p: Plan, c: Course)
    requires p == At(0, [0, 10]) && c.started == 0 && c.stop == 15
    requires c.late(0) == 0 && c.took(0) == 0 && c.late(1) == 5
    ensures Moment(p, 1) < c.stop && |Rows(p, c)| == 1
  {
    CutSecond(p, c, 1);
  }

  /** When no wait is later than `delay` and the thread started by the first moment, every moment more
      than `delay` before the stop has its row. */
  lemma RowsCover(p: Plan, c: Course, delay: nat, k: nat)
    requires Valid(p) && (forall i :: c.late(i) <= delay) && (More(p, 0) ==> c.started <= Moment(p, 0))
    requires More(p, k) && Moment(p, k) + delay < c.stop
    ensures k < |Rows(p, c)|
  {
    forall j: nat | j <= k ensures !Cut(p, c, j) {
      MomentsAscend(p, j, k);
    }
    CoversIff(p, c, k);
  }

  /** And no action starts more than that after its moment. */
  lemma {:induction false} StartsSoon(p: Plan, c: Course, slot: nat, now: int, ended: int, delay: nat, k: nat)
    requires Valid(p) && Timely(p, now, ended)
    requires forall i :: c.late(i) <= delay
    requires More(p, slot) ==> now <= ended || now <= Moment(p, slot)
    requires k < |RowsFrom(p, c, slot, now, ended)| && RowsFrom(p, c, slot, now, ended)[k].Ran?
    ensures More(p, slot + k) && RowsFrom(p, c, slot, now, ended)[k].start <= Moment(p, slot + k) + delay
    decreases Left(p, c, slot)
  {
    if k > 0 {
      LeftShrinks(p, c, slot);
      if More(p, slot + 1) {
        MomentsAscend(p, slot, slot + 1);
      }
      var row := RowsFrom(p, c, slot, now, ended)[0];
      if row.Ran? {
        StartsSoon(p, c, slot + 1, row.end, row.end, delay, k - 1);
      } else {
        StartsSoon(p, c, slot + 1, now, ended, delay, k - 1);
      }
    }
  }

  /** With waits that end at their moments, there is exactly one row for every moment before the
      stop, and every action starts at its moment. */
  lemma IdealRows(p: Plan, c: Course)
    requires Valid(p) && (forall i :: c.late(i) == 0) && (More(p, 0) ==> c.started <= Moment(p, 0))
    ensures Faithful(p, c, Rows(p, c), 0, p.begin)
    ensures forall k: nat :: k < |Rows(p, c)| <==> More(p, k) && Moment(p, k) < c.stop
    ensures forall k | 0 <= k < |Rows(p, c)| && Rows(p, c)[k].Ran? ::
              More(p, k) && Rows(p, c)[k].start == Moment(p, k)
  {
    var rows := Rows(p, c);
    forall k | 0 <= k < |rows| && rows[k].Ran? ensures More(p, k) && rows[k].start == Moment(p, k) {
      StartsSoon(p, c, 0, c.started, p.begin, 0, k);
      assert Fits(p, c, rows[k], 0 + k, LastEnd(rows[..k], p.begin)) by {
        RowsAreFaithful(p, c, 0, c.started, p.begin);
      }
    }
    RowsAreFaithful(p, c, 0, c.started, p.begin);
    forall k: nat ensures k < |rows| <==> More(p, k) && Moment(p, k) < c.stop {
      if k < |rows| {
        assert Fits(p, c, rows[k], 0 + k, LastEnd(rows[..k], p.begin));
      } else if More(p, k) && Moment(p, k) < c.stop {
        RowsCover(p, c, 0, k);
      }
    }
  }

  /** A periodic schedule stopped after `elapsed` has at least the rows its period promises. */
  lemma PeriodRows(p: Plan, c: Course)
    requires Valid(p) && p.Every? && (forall i :: c.late(i) == 0) && c.started <= p.begin <= c.stop
    ensures |Rows(p, c)| >= (c.stop - p.begin) / p.period
  {
    var n := (c.stop - p.begin) / p.period;
    if n > 0 {
      IdealRows(p, c);
      ProductsAscend(n - 1, n, p.period);
      assert n * p.period <= c.stop - p.begin;
      assert Moment(p, n - 1) < c.stop;
    }
  }
}
