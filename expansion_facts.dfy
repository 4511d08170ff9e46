/**
 * What the occurrence expander guarantees: instances stay inside the viewed
 * month, never precede the anchor date, come out in date order, and are
 * exactly the dates the recurrence reaches (every day from the anchor on for
 * daily, every seventh day for weekly, one clamped day per month for
 * monthly); one-time templates give one paid instance in their own month.
 */
module ExpansionFacts {
  import opened Calendar
  import opened Types
  import opened Expansion

  /** Valid dates in `[first, last]`, none before `from`, strictly increasing. */
  predicate AscendingInWindow(ds: seq<Date>, from: Date, first: Date, last: Date) {
    && (forall i :: 0 <= i < |ds| ==> Valid(ds[i]) && OnOrBefore(from, ds[i]))
    && (forall i :: 0 <= i < |ds| ==> OnOrBefore(first, ds[i]) && OnOrBefore(ds[i], last))
    && (forall i, j :: 0 <= i < j < |ds| ==> Before(ds[i], ds[j]))
  }

  /** Every kept step lies in the window, on or after the starting date, and the dates strictly increase. */
  lemma {:induction false} WalkInWindow(r: Recurrence, anchorDay: int, cur: Date, first: Date, last: Date)
    requires r != Once && Valid(cur) && 1 <= anchorDay <= 31
    ensures AscendingInWindow(Walk(r, anchorDay, cur, first, last), cur, first, last)
    decreases Stamp(last) - Stamp(cur)
  {
    if !Before(last, cur) {
      var next := Step(r, anchorDay, cur);
      var rest := Walk(r, anchorDay, next, first, last);
      WalkInWindow(r, anchorDay, next, first, last);
      if OnOrBefore(first, cur) {
        assert Walk(r, anchorDay, cur, first, last) == [cur] + rest;
        AscendingCons(cur, next, rest, first, last);
      } else {
        assert Walk(r, anchorDay, cur, first, last) == rest;
        AscendingWeaken(rest, next, cur, first, last);
      }
    }
  }

  lemma AscendingCons(cur: Date, next: Date, rest: seq<Date>, first: Date, last: Date)
    requires Valid(cur) && Before(cur, next) && OnOrBefore(first, cur) && OnOrBefore(cur, last)
    requires AscendingInWindow(rest, next, first, last)
    ensures AscendingInWindow([cur] + rest, cur, first, last)
  {
    var ds := [cur] + rest;
    forall i | 1 <= i < |ds|
      ensures ds[i] == rest[i - 1] && Before(cur, ds[i])
    {
    }
    forall i, j | 0 <= i < j < |ds|
      ensures Before(ds[i], ds[j])
    {
      if i > 0 {
        assert ds[i] == rest[i - 1] && ds[j] == rest[j - 1];
      }
    }
  }

  lemma AscendingWeaken(ds: seq<Date>, from: Date, from': Date, first: Date, last: Date)
    requires AscendingInWindow(ds, from, first, last) && OnOrBefore(from', from)
    ensures AscendingInWindow(ds, from', first, last)
  {
  }

  /** A kept date is some step of the recurrence from the starting date. */
  lemma {:induction false} WalkOnlySteps(r: Recurrence, anchorDay: int, cur: Date, first: Date, last: Date, d: Date)
    returns (k: nat)
    requires r != Once && Valid(cur) && 1 <= anchorDay <= 31
    requires d in Walk(r, anchorDay, cur, first, last)
    ensures Nth(r, anchorDay, cur, k) == d
    decreases Stamp(last) - Stamp(cur)
  {
    var next := Step(r, anchorDay, cur);
    var rest := Walk(r, anchorDay, next, first, last);
    if d == cur {
      k := 0;
    } else {
      assert d in rest;
      var k' := WalkOnlySteps(r, anchorDay, next, first, last, d);
      k := k' + 1;
    }
  }

  /** Every step of the recurrence that lands in the window is kept. */
  lemma {:induction false} WalkKeepsSteps(r: Recurrence, anchorDay: int, cur: Date, first: Date, last: Date, k: nat)
    requires r != Once && Valid(cur) && 1 <= anchorDay <= 31
    requires OnOrBefore(first, Nth(r, anchorDay, cur, k)) && OnOrBefore(Nth(r, anchorDay, cur, k), last)
    ensures Nth(r, anchorDay, cur, k) in Walk(r, anchorDay, cur, first, last)
    decreases k
  {
    if k > 0 {
      WalkKeepsSteps(r, anchorDay, Step(r, anchorDay, cur), first, last, k - 1);
    }
  }

  /** The kept dates are exactly the steps `cur`, `Step(cur)`, ... that lie in `[first, last]`. */
  lemma WalkMembership(r: Recurrence, anchorDay: int, cur: Date, first: Date, last: Date, d: Date)
    requires r != Once && Valid(cur) && 1 <= anchorDay <= 31
    ensures d in Walk(r, anchorDay, cur, first, last)
            <==> (exists k: nat :: Nth(r, anchorDay, cur, k) == d) && OnOrBefore(first, d) && OnOrBefore(d, last)
  {
    if d in Walk(r, anchorDay, cur, first, last) {
      var k := WalkOnlySteps(r, anchorDay, cur, first, last, d);
      WalkInWindow(r, anchorDay, cur, first, last);
    }
    if (exists k: nat :: Nth(r, anchorDay, cur, k) == d) && OnOrBefore(first, d) && OnOrBefore(d, last) {
      var k: nat :| Nth(r, anchorDay, cur, k) == d;
      WalkKeepsSteps(r, anchorDay, cur, first, last, k);
    }
  }

  /** Daily steps are `d + k` days. */
  lemma {:induction false} DailyNth(anchorDay: int, d: Date, k: nat)
    requires Valid(d) && 1 <= anchorDay <= 31
    ensures Nth(Daily, anchorDay, d, k) == AddDays(d, k)
    decreases k
  {
    if k > 0 {
      DailyNth(anchorDay, AddDays(d, 1), k - 1);
      AddDaysAdd(d, 1, k - 1);
    }
  }

  /** Weekly steps are `d + 7k` days, so they keep the anchor's weekday. */
  lemma {:induction false} WeeklyNth(anchorDay: int, d: Date, k: nat)
    requires Valid(d) && 1 <= anchorDay <= 31
    ensures Nth(Weekly, anchorDay, d, k) == AddDays(d, 7 * k)
    decreases k
  {
    if k > 0 {
      var e := AddDays(d, 7);
      assert Nth(Weekly, anchorDay, d, k) == Nth(Weekly, anchorDay, e, k - 1);
      WeeklyNth(anchorDay, e, k - 1);
      AddDaysAdd(d, 7, 7 * (k - 1));
      assert 7 + 7 * (k - 1) == 7 * k;
    }
  }

  /** Daily stepping reaches every valid date from `cur` up to `last`. */
  lemma {:induction false} DailyWalkComplete(anchorDay: int, cur: Date, first: Date, last: Date, d: Date)
    requires Valid(cur) && 1 <= anchorDay <= 31 && Valid(d)
    requires OnOrBefore(cur, d) && OnOrBefore(first, d) && OnOrBefore(d, last)
    ensures d in Walk(Daily, anchorDay, cur, first, last)
    decreases Stamp(last) - Stamp(cur)
  {
    if d != cur {
      StampIsChronological(cur, d);
      NextDayIsImmediate(cur, d);
      assert Step(Daily, anchorDay, cur) == NextDay(cur);
      DailyWalkComplete(anchorDay, NextDay(cur), first, last, d);
    }
  }

  /** A daily template yields exactly the valid dates of the window that are on or after its anchor. */
  lemma DailyWalkExact(anchorDay: int, cur: Date, first: Date, last: Date, d: Date)
    requires Valid(cur) && 1 <= anchorDay <= 31
    ensures d in Walk(Daily, anchorDay, cur, first, last)
            <==> Valid(d) && OnOrBefore(cur, d) && OnOrBefore(first, d) && OnOrBefore(d, last)
  {
    WalkInWindow(Daily, anchorDay, cur, first, last);
    if Valid(d) && OnOrBefore(cur, d) && OnOrBefore(first, d) && OnOrBefore(d, last) {
      DailyWalkComplete(anchorDay, cur, first, last, d);
    }
  }

  /**
   * Monthly steps move one calendar month per step and land on the anchor day
   * clamped to that month's length: the clamping of a short month does not
   * carry over to the next one.
   */
  lemma {:induction false} MonthlyNth(anchorDay: int, d: Date, k: nat)
    requires Valid(d) && 1 <= anchorDay <= 31
    requires d.day == Min(anchorDay, DaysInMonth(d.year, d.month))
    ensures var n := Nth(Monthly, anchorDay, d, k);
            MonthIndex(n) == MonthIndex(d) + k && n.day == Min(anchorDay, DaysInMonth(n.year, n.month))
    decreases k
  {
    if k > 0 {
      MonthlyNth(anchorDay, NextMonthClamped(d, anchorDay), k - 1);
    }
  }

  /**
   * For the month (y, m), monthly stepping from `cur` gives the single date
   * `y-m-min(anchorDay, daysIn(y, m))` when that month is not before `cur`'s,
   * and nothing otherwise.
   */
  lemma {:induction false} MonthlyWalkInMonth(anchorDay: int, cur: Date, y: int, m: int)
    requires Valid(cur) && 1 <= anchorDay <= 31 && 1 <= m <= 12
    requires cur.day == Min(anchorDay, DaysInMonth(cur.year, cur.month))
    ensures Walk(Monthly, anchorDay, cur, FirstOfMonth(y, m), LastOfMonth(y, m))
            == if MonthIndex(cur) <= y * 12 + m - 1 then [Date(y, m, Min(anchorDay, DaysInMonth(y, m)))] else []
    decreases Stamp(LastOfMonth(y, m)) - Stamp(cur)
  {
    var first, last := FirstOfMonth(y, m), LastOfMonth(y, m);
    var next := NextMonthClamped(cur, anchorDay);
    if MonthIndex(cur) < y * 12 + m - 1 {
      MonthIndexOrder(cur, first);
      MonthlyWalkInMonth(anchorDay, next, y, m);
    } else if MonthIndex(cur) == y * 12 + m - 1 {
      assert cur.year == y && cur.month == m;
      assert Before(last, next);
      assert Walk(Monthly, anchorDay, next, first, last) == [];
    } else {
      MonthIndexOrder(last, cur);
    }
  }

  /** A one-time template yields one paid instance at its own date when that date is in the month, else none. */
  lemma OnceInstances(t: Transaction, y: int, m: int, today: Date)
    requires Valid(t.date) && 1 <= m <= 12 && t.recurrence == Once
    ensures var xs := Instances(t, y, m, today);
            && (|xs| == 1 <==> t.date.year == y && t.date.month == m)
            && (|xs| == 0 <==> !(t.date.year == y && t.date.month == m))
            && forall i :: 0 <= i < |xs| ==> xs[i].txn == t && xs[i].instanceDate == t.date && xs[i].status == Paid
  {
  }

  /**
   * Month containment and the no-pre-anchor rule: every instance of every
   * template carries the template unchanged and is dated in the viewed month,
   * on or after the template's anchor date; recurring instances are in strictly
   * increasing date order.
   */
  lemma InstancesInMonth(t: Transaction, y: int, m: int, today: Date)
    requires Valid(t.date) && 1 <= m <= 12
    ensures var xs := Instances(t, y, m, today);
            && (forall i :: 0 <= i < |xs| ==>
                  xs[i].txn == t && Valid(xs[i].instanceDate)
                  && xs[i].instanceDate.year == y && xs[i].instanceDate.month == m
                  && OnOrBefore(t.date, xs[i].instanceDate))
            && (forall i, j :: 0 <= i < j < |xs| ==> Before(xs[i].instanceDate, xs[j].instanceDate))
  {
    var xs := Instances(t, y, m, today);
    if t.recurrence != Once {
      var first, last := FirstOfMonth(y, m), LastOfMonth(y, m);
      var ds := Walk(t.recurrence, t.date.day, t.date, first, last);
      WalkInWindow(t.recurrence, t.date.day, t.date, first, last);
      forall i | 0 <= i < |xs|
        ensures xs[i].instanceDate.year == y && xs[i].instanceDate.month == m
      {
        assert xs[i].instanceDate == ds[i];
        InMonthWindow(ds[i], y, m);
      }
    }
  }

  /**
   * Status partition: an instance is paid exactly when its template is one-time
   * or its date is in the template's processed dates; otherwise it is pending
   * when due (on or before today) and future when not.
   */
  lemma InstanceStatus(t: Transaction, y: int, m: int, today: Date)
    requires Valid(t.date) && 1 <= m <= 12
    ensures var xs := Instances(t, y, m, today);
            forall i :: 0 <= i < |xs| ==>
              && (xs[i].status == Paid <==> t.recurrence == Once || IsProcessed(t, xs[i].instanceDate))
              && (xs[i].status == Pending <==>
                    t.recurrence != Once && !IsProcessed(t, xs[i].instanceDate) && OnOrBefore(xs[i].instanceDate, today))
              && (xs[i].status == Future <==>
                    t.recurrence != Once && !IsProcessed(t, xs[i].instanceDate) && Before(today, xs[i].instanceDate))
  {
  }

  /**
   * The instance dates of a recurring template are exactly the steps of its
   * recurrence from the anchor date that fall in the month.
   */
  lemma RecurringInstanceDates(t: Transaction, y: int, m: int, today: Date, d: Date)
    requires Valid(t.date) && 1 <= m <= 12 && t.recurrence != Once
    ensures (exists i :: 0 <= i < |Instances(t, y, m, today)| && Instances(t, y, m, today)[i].instanceDate == d)
            <==> (exists k: nat :: Nth(t.recurrence, t.date.day, t.date, k) == d) && Valid(d) && d.year == y && d.month == m
  {
    var first, last := FirstOfMonth(y, m), LastOfMonth(y, m);
    var ds := Walk(t.recurrence, t.date.day, t.date, first, last);
    var xs := Instances(t, y, m, today);
    WalkMembership(t.recurrence, t.date.day, t.date, first, last, d);
    if exists k: nat :: Nth(t.recurrence, t.date.day, t.date, k) == d {
      InMonthWindow(d, y, m);
    }
    if exists i :: 0 <= i < |xs| && xs[i].instanceDate == d {
      var i :| 0 <= i < |xs| && xs[i].instanceDate == d;
      assert ds[i] == d;
    }
    if d in ds {
      var i :| 0 <= i < |ds| && ds[i] == d;
      assert xs[i].instanceDate == d;
    }
  }

  /** Weekly phase: a weekly template anchored 2024-03-06 shows on the 6th, 13th, 20th and 27th of March 2024. */
  lemma WeeklyScenario(t: Transaction, today: Date)
    requires t.recurrence == Weekly && t.date == Date(2024, 3, 6)
    ensures var xs := Instances(t, 2024, 3, today);
            && |xs| == 4
            && xs[0].instanceDate == Date(2024, 3, 6) && xs[1].instanceDate == Date(2024, 3, 13)
            && xs[2].instanceDate == Date(2024, 3, 20) && xs[3].instanceDate == Date(2024, 3, 27)
  {
    WeeklyWithinMonth(t.date.day, t.date);
  }

  /**
   * A weekly walk over the anchor's own month, for an anchor whose fourth
   * week still falls in the month and whose fifth does not: exactly the
   * anchor and the three following weeks.
   */
  lemma WeeklyWithinMonth(anchorDay: int, d: Date)
    requires Valid(d) && 1 <= anchorDay <= 31
    requires d.day + 21 <= DaysInMonth(d.year, d.month) < d.day + 28
    ensures var w := Walk(Weekly, anchorDay, d, FirstOfMonth(d.year, d.month), LastOfMonth(d.year, d.month));
            && |w| == 4 && w[0] == d && w[1] == Date(d.year, d.month, d.day + 7)
            && w[2] == Date(d.year, d.month, d.day + 14) && w[3] == Date(d.year, d.month, d.day + 21)
  {
    var first, last := FirstOfMonth(d.year, d.month), LastOfMonth(d.year, d.month);
    var d1, d2, d3 := Date(d.year, d.month, d.day + 7), Date(d.year, d.month, d.day + 14), Date(d.year, d.month, d.day + 21);
    AddDaysWithinMonth(d, 7);
    AddDaysWithinMonth(d1, 7);
    AddDaysWithinMonth(d2, 7);
    var d4 := AddDays(d3, 7);
    AddDaysLeavesMonth(d3, 7);
    var w4 := WeeklyWalkPast(anchorDay, d4, first, last);
    var w3 := WeeklyWalkStep(anchorDay, d3, d4, first, last, w4);
    var w2 := WeeklyWalkStep(anchorDay, d2, d3, first, last, w3);
    var w1 := WeeklyWalkStep(anchorDay, d1, d2, first, last, w2);
    var w0 := WeeklyWalkStep(anchorDay, d, d1, first, last, w1);
    assert w0[1] == w1[0] && w0[2] == w2[0] && w0[3] == w3[0];
  }

  /** The weekly walk from a date past the window is empty. */
  lemma WeeklyWalkPast(anchorDay: int, cur: Date, first: Date, last: Date) returns (w: seq<Date>)
    requires Valid(cur) && 1 <= anchorDay <= 31 && Before(last, cur)
    ensures w == Walk(Weekly, anchorDay, cur, first, last) && w == []
  {
    w := [];
  }

  /** One iteration of the weekly walk at a date inside the window. */
  lemma WeeklyWalkStep(anchorDay: int, cur: Date, next: Date, first: Date, last: Date, rest: seq<Date>)
    returns (w: seq<Date>)
    requires Valid(cur) && 1 <= anchorDay <= 31 && OnOrBefore(first, cur) && OnOrBefore(cur, last)
    requires next == AddDays(cur, 7) && rest == Walk(Weekly, anchorDay, next, first, last)
    ensures w == Walk(Weekly, anchorDay, cur, first, last)
    ensures |w| == |rest| + 1 && w[0] == cur && forall i :: 0 <= i < |rest| ==> w[i + 1] == rest[i]
  {
    w := [cur] + rest;
  }

  /** Month-end clamp: anchored 2024-01-31, monthly shows on 2024-02-29 and on 2024-04-30. */
  lemma MonthlyClampScenario()
    ensures Walk(Monthly, 31, Date(2024, 1, 31), FirstOfMonth(2024, 2), LastOfMonth(2024, 2)) == [Date(2024, 2, 29)]
    ensures Walk(Monthly, 31, Date(2024, 1, 31), FirstOfMonth(2024, 4), LastOfMonth(2024, 4)) == [Date(2024, 4, 30)]
  {
    MonthlyWalkInMonth(31, Date(2024, 1, 31), 2024, 2);
    MonthlyWalkInMonth(31, Date(2024, 1, 31), 2024, 4);
  }
}
