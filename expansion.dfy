/**
 * The occurrence expander and the status classifier of the month view: every
 * template is turned into the dated instances that fall in the viewed month,
 * and each recurring instance is tagged paid, pending or future.
 */
module Expansion {
  import opened Calendar
  import opened Types

  /** One step of a recurrence: one day, seven days, or the next calendar month clamped to the anchor day. */
  function Step(r: Recurrence, anchorDay: int, d: Date): (n: Date)
    requires r != Once && Valid(d) && 1 <= anchorDay <= 31
    ensures Valid(n) && Before(d, n)
  {
    match r
    case Daily => AddDays(d, 1)
    case Weekly => AddDays(d, 7)
    case Monthly => NextMonthClamped(d, anchorDay)
  }

  /** The date reached after `k` steps from `d`. */
  function Nth(r: Recurrence, anchorDay: int, d: Date, k: nat): (n: Date)
    requires r != Once && Valid(d) && 1 <= anchorDay <= 31
    ensures Valid(n) && OnOrBefore(d, n)
    ensures k > 0 ==> Before(d, n)
    decreases k
  {
    if k == 0 then d else Nth(r, anchorDay, Step(r, anchorDay, d), k - 1)
  }

  /**
   * The dates the expansion loop keeps when it starts stepping at `cur`:
   * it stops once past `last` and keeps only steps on or after `first`.
   */
  function Walk(r: Recurrence, anchorDay: int, cur: Date, first: Date, last: Date): (ds: seq<Date>)
    requires r != Once && Valid(cur) && 1 <= anchorDay <= 31
    decreases Stamp(last) - Stamp(cur)
  {
    if Before(last, cur) then []
    else
      (if OnOrBefore(first, cur) then [cur] else []) + Walk(r, anchorDay, Step(r, anchorDay, cur), first, last)
  }

  /** `t.processedDates?.includes(d)` */
  predicate IsProcessed(t: Transaction, d: Date) {
    t.processedDates.Some? && d in t.processedDates.value
  }

  /** The status of a recurring instance on date `d`. */
  function Classify(t: Transaction, d: Date, today: Date): (s: Status)
    ensures s == Paid <==> IsProcessed(t, d)
    ensures s == Pending <==> !IsProcessed(t, d) && OnOrBefore(d, today)
    ensures s == Future <==> !IsProcessed(t, d) && Before(today, d)
  {
    if IsProcessed(t, d) then Paid
    else if OnOrBefore(d, today) then Pending
    else Future
  }

  /** The recurring instances of `t` on the dates `ds`, each with its classified status. */
  function Tag(t: Transaction, ds: seq<Date>, today: Date): (xs: seq<DisplayTransaction>)
    ensures |xs| == |ds|
    ensures forall i :: 0 <= i < |ds| ==>
              xs[i].txn == t && xs[i].instanceDate == ds[i] && xs[i].status == Classify(t, ds[i], today)
  {
    if ds == [] then []
    else [DisplayTransaction(t, ds[0], Classify(t, ds[0], today))] + Tag(t, ds[1..], today)
  }

  /** The instances of one template in month (y, m). */
  function Instances(t: Transaction, y: int, m: int, today: Date): seq<DisplayTransaction>
    requires Valid(t.date) && 1 <= m <= 12
  {
    if t.recurrence == Once then
      if t.date.month == m && t.date.year == y then [DisplayTransaction(t, t.date, Paid)] else []
    else
      Tag(t, Walk(t.recurrence, t.date.day, t.date, FirstOfMonth(y, m), LastOfMonth(y, m)), today)
  }

  predicate AllValid(ts: seq<Transaction>) {
    forall i :: 0 <= i < |ts| ==> Valid(ts[i].date)
  }

  /** The generated list: the instances of every template, in template order. */
  function Generated(ts: seq<Transaction>, y: int, m: int, today: Date): seq<DisplayTransaction>
    requires AllValid(ts) && 1 <= m <= 12
    decreases |ts|
  {
    if ts == [] then []
    else Generated(ts[..|ts| - 1], y, m, today) + Instances(ts[|ts| - 1], y, m, today)
  }

  /** One iteration of the expansion loop: the instance at `cur`, if kept, followed by those from the next step. */
  lemma WalkTagUnfold(t: Transaction, cur: Date, first: Date, last: Date, today: Date)
    requires t.recurrence != Once && Valid(cur) && 1 <= t.date.day <= 31 && OnOrBefore(cur, last)
    ensures Tag(t, Walk(t.recurrence, t.date.day, cur, first, last), today)
            == (if OnOrBefore(first, cur) then [DisplayTransaction(t, cur, Classify(t, cur, today))] else [])
               + Tag(t, Walk(t.recurrence, t.date.day, Step(t.recurrence, t.date.day, cur), first, last), today)
  {
    var rest := Walk(t.recurrence, t.date.day, Step(t.recurrence, t.date.day, cur), first, last);
    if OnOrBefore(first, cur) {
      assert ([cur] + rest)[1..] == rest;
    } else {
      assert Walk(t.recurrence, t.date.day, cur, first, last) == rest;
    }
  }

  lemma ConcatAssoc<T>(a: seq<T>, b: seq<T>, c: seq<T>)
    ensures (a + b) + c == a + (b + c)
  {
  }

  /**
   * The instances of one template, as the body of `transactions.forEach`
   * computes them: a one-time template is pushed as paid when its date is in
   * the month; a recurring one is stepped from its anchor date until past the
   * month's last day, pushing each step that is on or after the first day.
   */
  method ExpandTemplate(t: Transaction, y: int, m: int, today: Date) returns (out: seq<DisplayTransaction>)
    requires Valid(t.date) && 1 <= m <= 12
    ensures out == Instances(t, y, m, today)
  {
    var first := FirstOfMonth(y, m);
    var last := LastOfMonth(y, m);
    out := [];
    if t.recurrence == Once {
      if t.date.month == m && t.date.year == y {
        out := out + [DisplayTransaction(t, t.date, Paid)];
      }
    } else {
      var cur := t.date;
      while OnOrBefore(cur, last)
        invariant Valid(cur)
        invariant out + Tag(t, Walk(t.recurrence, t.date.day, cur, first, last), today)
                  == Tag(t, Walk(t.recurrence, t.date.day, t.date, first, last), today)
        decreases Stamp(last) - Stamp(cur)
      {
        ghost var next := Step(t.recurrence, t.date.day, cur);
        ghost var later := Tag(t, Walk(t.recurrence, t.date.day, next, first, last), today);
        ghost var now := Tag(t, Walk(t.recurrence, t.date.day, cur, first, last), today);
        ghost var whole := out + now;
        WalkTagUnfold(t, cur, first, last, today);
        if OnOrBefore(first, cur) {
          var status := Classify(t, cur, today);
          assert now == [DisplayTransaction(t, cur, status)] + later;
          ConcatAssoc(out, [DisplayTransaction(t, cur, status)], later);
          out := out + [DisplayTransaction(t, cur, status)];
        } else {
          assert now == [] + later == later;
        }
        assert out + later == whole;
        cur := Step(t.recurrence, t.date.day, cur);
      }
    }
  }

  /** The `forEach` over all templates, pushing into one generated list. */
  method GenerateInstances(ts: seq<Transaction>, y: int, m: int, today: Date) returns (generated: seq<DisplayTransaction>)
    requires AllValid(ts) && 1 <= m <= 12
    ensures generated == Generated(ts, y, m, today)
  {
    generated := [];
    for i := 0 to |ts|
      invariant generated == Generated(ts[..i], y, m, today)
    {
      var more := ExpandTemplate(ts[i], y, m, today);
      assert ts[..i + 1][..i] == ts[..i];
      generated := generated + more;
    }
    assert ts[..|ts|] == ts;
  }
}
