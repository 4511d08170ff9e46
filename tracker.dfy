/**
 * The month view as the tracker recomputes it, the choice of the one pending
 * instance to ask the user about, and the tracker's state: the template list
 * and the single outstanding confirmation.
 */
module Tracker {
  import opened Calendar
  import opened Types
  import opened Expansion
  import opened ExpansionFacts
  import opened Summary
  import opened Ledger

  datatype MonthView = MonthView(display: seq<DisplayTransaction>, totals: Totals)

  /**
   * The view of month (y, m) on day `today`: the generated instances sorted
   * newest first, and the totals over them.
   */
  method BuildMonthView(ts: seq<Transaction>, today: Date, y: int, m: int) returns (v: MonthView)
    requires AllValid(ts) && 1 <= m <= 12
    ensures v.display == SortNewestFirst(Generated(ts, y, m, today))
    ensures v.totals == Aggregate(Generated(ts, y, m, today))
    ensures multiset(v.display) == multiset(Generated(ts, y, m, today)) && NewestFirst(v.display)
    ensures v.totals.savings == v.totals.totalIncome - v.totals.totalExpenses
  {
    var generated := GenerateInstances(ts, y, m, today);
    var totals := Aggregate(generated);
    v := MonthView(SortNewestFirst(generated), totals);
  }

  /** The position of the first pending instance, or `|s|` when there is none. */
  function FirstPendingAt(s: seq<DisplayTransaction>): (k: nat)
    ensures k <= |s|
    ensures k < |s| ==> s[k].status == Pending
    ensures forall j :: 0 <= j < k ==> s[j].status != Pending
  {
    if s == [] || s[0].status == Pending then 0 else 1 + FirstPendingAt(s[1..])
  }

  /** `find(t => t.status === 'pending')`: the first pending instance in list order, if any. */
  function FirstPending(s: seq<DisplayTransaction>): (r: Option<DisplayTransaction>)
    ensures r.None? <==> forall i :: 0 <= i < |s| ==> s[i].status != Pending
    ensures r.Some? ==> exists i :: 0 <= i < |s| && s[i] == r.value && s[i].status == Pending
                                   && forall j :: 0 <= j < i ==> s[j].status != Pending
  {
    var k := FirstPendingAt(s);
    if k < |s| then Some(s[k]) else None
  }

  /** Every generated instance is an instance of one of the templates. */
  lemma {:induction false} GeneratedFromTemplates(ts: seq<Transaction>, y: int, m: int, today: Date, x: DisplayTransaction)
    requires AllValid(ts) && 1 <= m <= 12
    requires x in Generated(ts, y, m, today)
    ensures exists i :: 0 <= i < |ts| && x in Instances(ts[i], y, m, today)
    decreases |ts|
  {
    var init := ts[..|ts| - 1];
    if x in Generated(init, y, m, today) {
      GeneratedFromTemplates(init, y, m, today, x);
      var i :| 0 <= i < |init| && x in Instances(init[i], y, m, today);
      assert ts[i] == init[i];
    } else {
      assert x in Instances(ts[|ts| - 1], y, m, today);
    }
  }

  /**
   * The instance surfaced for confirmation is a recurring one that is due
   * (dated on or before today), not yet processed, and in the viewed month.
   */
  lemma SurfacedIsDue(ts: seq<Transaction>, today: Date, y: int, m: int)
    requires AllValid(ts) && 1 <= m <= 12
    ensures var r := FirstPending(SortNewestFirst(Generated(ts, y, m, today)));
            r.Some? ==>
              && r.value.txn.recurrence != Once
              && !IsProcessed(r.value.txn, r.value.instanceDate)
              && OnOrBefore(r.value.instanceDate, today)
              && r.value.instanceDate.year == y && r.value.instanceDate.month == m
  {
    var g := Generated(ts, y, m, today);
    var display := SortNewestFirst(g);
    var r := FirstPending(display);
    if r.Some? {
      var x := r.value;
      assert x in multiset(display);
      GeneratedFromTemplates(ts, y, m, today, x);
      var i :| 0 <= i < |ts| && x in Instances(ts[i], y, m, today);
      var xs := Instances(ts[i], y, m, today);
      var j :| 0 <= j < |xs| && xs[j] == x;
      InstanceStatus(ts[i], y, m, today);
      InstancesInMonth(ts[i], y, m, today);
    }
  }

  lemma {:induction false} TagPaidSumRecord(t: Transaction, ds: seq<Date>, d: Date, today: Date, k: Kind)
    requires !IsProcessed(t, d)
    requires forall i, j :: 0 <= i < j < |ds| ==> Before(ds[i], ds[j])
    ensures PaidSum(Tag(Record(t, d), ds, today), k)
            == PaidSum(Tag(t, ds, today), k) + (if d in ds && t.kind == k then t.amount else 0)
  {
    if ds != [] {
      var u := Record(t, d);
      var xs, ys := Tag(t, ds, today), Tag(u, ds, today);
      TagPaidSumRecord(t, ds[1..], d, today, k);
      assert xs[1..] == Tag(t, ds[1..], today);
      assert ys[1..] == Tag(u, ds[1..], today);
      ContributionRecord(t, d, ds[0], today, k);
      assert d in ds <==> d == ds[0] || d in ds[1..];
      if ds[0] == d {
        assert d !in ds[1..];
      }
    }
  }

  /** What the instance on date `e` contributes once `d` is recorded: its amount more exactly when `e` is `d`. */
  lemma ContributionRecord(t: Transaction, d: Date, e: Date, today: Date, k: Kind)
    requires !IsProcessed(t, d)
    ensures var u := Record(t, d);
            Contribution(DisplayTransaction(u, e, Classify(u, e, today)), k)
            == Contribution(DisplayTransaction(t, e, Classify(t, e, today)), k) + (if e == d && t.kind == k then t.amount else 0)
  {
    var u := Record(t, d);
    if e != d {
      assert IsProcessed(u, e) == IsProcessed(t, e);
    }
  }

  /**
   * Confirming (or skipping) a due instance moves exactly that instance to
   * paid: on re-aggregation the template's paid total of its own kind grows by
   * its amount once, and the other kind's total is unchanged.
   */
  lemma DecisionAddsAmountOnce(ts: seq<Transaction>, inst: DisplayTransaction, a: Action, i: int,
                               y: int, m: int, today: Date, k: Kind)
    requires 0 <= i < |ts| && ts[i].id == inst.txn.id
    requires Valid(ts[i].date) && 1 <= m <= 12 && ts[i].recurrence != Once
    requires inst in Instances(ts[i], y, m, today) && inst.status != Paid
    ensures PaidSum(Instances(ProcessTransaction(ts, inst, a)[i], y, m, today), k)
            == PaidSum(Instances(ts[i], y, m, today), k) + (if ts[i].kind == k then ts[i].amount else 0)
  {
    var t := ts[i];
    var d := inst.instanceDate;
    var first, last := FirstOfMonth(y, m), LastOfMonth(y, m);
    var ds := Walk(t.recurrence, t.date.day, t.date, first, last);
    WalkInWindow(t.recurrence, t.date.day, t.date, first, last);
    var xs := Instances(t, y, m, today);
    var j :| 0 <= j < |xs| && xs[j] == inst;
    assert ds[j] == d;
    assert !IsProcessed(t, d);
    assert ProcessTransaction(ts, inst, a)[i] == Record(t, d);
    TagPaidSumRecord(t, ds, d, today, k);
  }

  /**
   * Changing one template so that its instances' paid sum of kind `k` grows
   * by `delta`, and leaving the others as they are, grows the generated
   * list's paid sum of kind `k` by `delta`.
   */
  lemma {:induction false} GeneratedPaidSumChange(ts: seq<Transaction>, us: seq<Transaction>, i: int,
                                                  y: int, m: int, today: Date, k: Kind, delta: int)
    requires AllValid(ts) && AllValid(us) && 1 <= m <= 12
    requires |us| == |ts| && 0 <= i < |ts|
    requires forall j :: 0 <= j < |ts| && j != i ==> us[j] == ts[j]
    requires PaidSum(Instances(us[i], y, m, today), k) == PaidSum(Instances(ts[i], y, m, today), k) + delta
    ensures PaidSum(Generated(us, y, m, today), k) == PaidSum(Generated(ts, y, m, today), k) + delta
    decreases |ts|
  {
    var n := |ts| - 1;
    var tInit, uInit := ts[..n], us[..n];
    PaidSumAppend(Generated(tInit, y, m, today), Instances(ts[n], y, m, today), k);
    PaidSumAppend(Generated(uInit, y, m, today), Instances(us[n], y, m, today), k);
    if i == n {
      assert tInit == uInit;
    } else {
      GeneratedPaidSumChange(tInit, uInit, i, y, m, today, k, delta);
      assert us[n] == ts[n];
    }
  }

  /**
   * Confirming (or skipping) a due instance of a template whose id is unique
   * raises the month's total of the template's kind by exactly its amount,
   * leaves the other total unchanged, and moves savings by the same amount.
   */
  lemma DecisionRaisesMonthTotals(ts: seq<Transaction>, inst: DisplayTransaction, a: Action, i: int,
                                  y: int, m: int, today: Date)
    requires AllValid(ts) && 1 <= m <= 12
    requires 0 <= i < |ts| && ts[i].id == inst.txn.id
    requires forall j :: 0 <= j < |ts| && j != i ==> ts[j].id != ts[i].id
    requires ts[i].recurrence != Once
    requires inst in Instances(ts[i], y, m, today) && inst.status != Paid
    ensures AllValid(ProcessTransaction(ts, inst, a))
    ensures var before := Aggregate(Generated(ts, y, m, today));
            var after := Aggregate(Generated(ProcessTransaction(ts, inst, a), y, m, today));
            && after.totalIncome == before.totalIncome + (if ts[i].kind == Income then ts[i].amount else 0)
            && after.totalExpenses == before.totalExpenses + (if ts[i].kind == Expense then ts[i].amount else 0)
            && after.savings == before.savings + (if ts[i].kind == Income then ts[i].amount else -ts[i].amount)
  {
    ProcessKeepsValid(ts, inst, a);
    var us := ProcessTransaction(ts, inst, a);
    DecisionRaisesPaidSum(ts, inst, a, i, y, m, today, Income);
    DecisionRaisesPaidSum(ts, inst, a, i, y, m, today, Expense);
    AggregateIsPaidSums(Generated(ts, y, m, today));
    AggregateIsPaidSums(Generated(us, y, m, today));
  }

  lemma ProcessKeepsValid(ts: seq<Transaction>, inst: DisplayTransaction, a: Action)
    requires AllValid(ts)
    ensures AllValid(ProcessTransaction(ts, inst, a))
  {
    var us := ProcessTransaction(ts, inst, a);
    assert forall j :: 0 <= j < |ts| ==> us[j].date == ts[j].date;
  }

  lemma DecisionRaisesPaidSum(ts: seq<Transaction>, inst: DisplayTransaction, a: Action, i: int,
                              y: int, m: int, today: Date, k: Kind)
    requires AllValid(ts) && 1 <= m <= 12
    requires 0 <= i < |ts| && ts[i].id == inst.txn.id
    requires forall j :: 0 <= j < |ts| && j != i ==> ts[j].id != ts[i].id
    requires ts[i].recurrence != Once
    requires inst in Instances(ts[i], y, m, today) && inst.status != Paid
    ensures AllValid(ProcessTransaction(ts, inst, a))
    ensures PaidSum(Generated(ProcessTransaction(ts, inst, a), y, m, today), k)
            == PaidSum(Generated(ts, y, m, today), k) + (if ts[i].kind == k then ts[i].amount else 0)
  {
    ProcessKeepsValid(ts, inst, a);
    var us := ProcessTransaction(ts, inst, a);
    DecisionAddsAmountOnce(ts, inst, a, i, y, m, today, k);
    GeneratedPaidSumChange(ts, us, i, y, m, today, k, if ts[i].kind == k then ts[i].amount else 0);
  }

  /**
   * On 2024-06-10, a daily template anchored 2024-06-01 with nothing processed
   * has a pending instance on 2024-06-05, which is paid once recorded.
   */
  lemma PendingThenConfirmedScenario(ts: seq<Transaction>, i: int, a: Action)
    requires 0 <= i < |ts| && ts[i].recurrence == Daily && ts[i].date == Date(2024, 6, 1)
    requires ts[i].processedDates == Some([])
    ensures var xs := Instances(ts[i], 2024, 6, Date(2024, 6, 10));
            exists j :: 0 <= j < |xs| && xs[j].instanceDate == Date(2024, 6, 5) && xs[j].status == Pending
    ensures var inst := DisplayTransaction(ts[i], Date(2024, 6, 5), Pending);
            var ys := Instances(ProcessTransaction(ts, inst, a)[i], 2024, 6, Date(2024, 6, 10));
            exists j :: 0 <= j < |ys| && ys[j].instanceDate == Date(2024, 6, 5) && ys[j].status == Paid
  {
    var t := ts[i];
    var d, today := Date(2024, 6, 5), Date(2024, 6, 10);
    var first, last := FirstOfMonth(2024, 6), LastOfMonth(2024, 6);
    DailyWalkExact(1, t.date, first, last, d);
    var ds := Walk(Daily, 1, t.date, first, last);
    var j :| 0 <= j < |ds| && ds[j] == d;
    var xs := Instances(t, 2024, 6, today);
    assert xs[j].instanceDate == d && xs[j].status == Classify(t, d, today);
    var inst := DisplayTransaction(t, d, Pending);
    var u := ProcessTransaction(ts, inst, a)[i];
    assert u == Record(t, d);
    var ys := Instances(u, 2024, 6, today);
    assert ys[j].instanceDate == d && ys[j].status == Classify(u, d, today);
  }

  /** The tracker: its template list and the outstanding confirmation, if one is shown. */
  class FinanceTracker {
    var transactions: seq<Transaction>
    var pendingConfirmation: Option<DisplayTransaction>

    /** Every template the core works on has a valid anchor date. */
    predicate Valid()
      reads this
    {
      AllValid(transactions)
    }

    /** Starts from the stored records, each repaired by the load-time defaulting, with nothing outstanding. */
    constructor (stored: seq<StoredRecord>)
      requires forall i :: 0 <= i < |stored| ==> Calendar.Valid(stored[i].date)
      ensures Valid()
      ensures transactions == Load(stored) && pendingConfirmation == None
    {
      transactions := Load(stored);
      pendingConfirmation := None;
    }

    /** The month view of the current templates. */
    method View(today: Date, y: int, m: int) returns (v: MonthView)
      requires Valid() && 1 <= m <= 12
      ensures v.display == SortNewestFirst(Generated(transactions, y, m, today))
      ensures v.totals == Aggregate(Generated(transactions, y, m, today))
    {
      v := BuildMonthView(transactions, today, y, m);
    }

    /**
     * The effect run after each render: the first pending instance of the
     * view becomes the outstanding confirmation, but only when none is
     * outstanding already.
     */
    method RefreshPending(today: Date, y: int, m: int)
      requires Valid() && 1 <= m <= 12
      modifies this`pendingConfirmation
      ensures old(pendingConfirmation).Some? ==> pendingConfirmation == old(pendingConfirmation)
      ensures old(pendingConfirmation).None? ==>
                pendingConfirmation == FirstPending(SortNewestFirst(Generated(transactions, y, m, today)))
    {
      var v := BuildMonthView(transactions, today, y, m);
      var firstPending := FirstPending(v.display);
      if firstPending.Some? && pendingConfirmation.None? {
        pendingConfirmation := firstPending;
      }
    }

    /** `handleConfirmTransaction`: records the instance date and clears the outstanding confirmation. */
    method ConfirmTransaction(inst: DisplayTransaction)
      requires Valid()
      modifies this
      ensures Valid()
      ensures transactions == ProcessTransaction(old(transactions), inst, Confirm)
      ensures pendingConfirmation == None
    {
      transactions := ProcessTransaction(transactions, inst, Confirm);
      pendingConfirmation := None;
    }

    /** `handleSkipTransaction`: the same ledger update as confirming, and the outstanding confirmation is cleared. */
    method SkipTransaction(inst: DisplayTransaction)
      requires Valid()
      modifies this
      ensures Valid()
      ensures transactions == ProcessTransaction(old(transactions), inst, Skip)
      ensures pendingConfirmation == None
    {
      transactions := ProcessTransaction(transactions, inst, Skip);
      pendingConfirmation := None;
    }

    /** `handleAddTransaction`, with the fresh id given by the caller. */
    method AddNew(data: NewTransaction, id: string)
      requires Valid() && WellFormedEntry(data)
      modifies this`transactions
      ensures Valid()
      ensures transactions == AddTransaction(old(transactions), data, id)
    {
      transactions := AddTransaction(transactions, data, id);
    }

    /** `handleUpdateTransaction`: replaces the template with the edited one's id. */
    method Update(u: Transaction)
      requires Valid() && WellFormed(u)
      modifies this`transactions
      ensures Valid()
      ensures transactions == UpdateTransaction(old(transactions), u)
    {
      transactions := UpdateTransaction(transactions, u);
    }
  }
}
