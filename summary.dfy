/**
 * The aggregator and the display order of the month view: totals over the
 * paid instances by kind, and the generated list sorted newest first by a
 * stable sort.
 */
module Summary {
  import opened Calendar
  import opened Types

  datatype Totals = Totals(totalIncome: int, totalExpenses: int, savings: int)

  /** `filter(t => t.status === 'paid')` */
  function PaidOnly(s: seq<DisplayTransaction>): (r: seq<DisplayTransaction>)
  {
    if s == [] then []
    else (if s[0].status == Paid then [s[0]] else []) + PaidOnly(s[1..])
  }

  /** `filter(t => t.type === k)` */
  function OfKind(s: seq<DisplayTransaction>, k: Kind): (r: seq<DisplayTransaction>)
  {
    if s == [] then []
    else (if s[0].txn.kind == k then [s[0]] else []) + OfKind(s[1..], k)
  }

  /** `reduce((sum, t) => sum + t.amount, 0)` */
  function SumAmounts(s: seq<DisplayTransaction>): int
  {
    if s == [] then 0 else s[0].txn.amount + SumAmounts(s[1..])
  }

  /** The three totals of the month view. */
  function Aggregate(s: seq<DisplayTransaction>): (r: Totals)
    ensures r.savings == r.totalIncome - r.totalExpenses
  {
    var paid := PaidOnly(s);
    var income := SumAmounts(OfKind(paid, Income));
    var expenses := SumAmounts(OfKind(paid, Expense));
    Totals(income, expenses, income - expenses)
  }

  /** What one instance adds to the total of kind `k`. */
  function Contribution(x: DisplayTransaction, k: Kind): int {
    if x.status == Paid && x.txn.kind == k then x.txn.amount else 0
  }

  /** Reference definition: the sum of `amount` over the paid instances of kind `k`. */
  function PaidSum(s: seq<DisplayTransaction>, k: Kind): int
  {
    if s == [] then 0 else Contribution(s[0], k) + PaidSum(s[1..], k)
  }

  lemma {:induction false} SumOfKindOfPaid(s: seq<DisplayTransaction>, k: Kind)
    ensures SumAmounts(OfKind(PaidOnly(s), k)) == PaidSum(s, k)
  {
    if s != [] {
      SumOfKindOfPaid(s[1..], k);
      var p := if s[0].status == Paid then [s[0]] else [];
      OfKindAppend(p, PaidOnly(s[1..]), k);
      var q := OfKind(p, k);
      SumAppend(q, OfKind(PaidOnly(s[1..]), k));
    }
  }

  lemma {:induction false} OfKindAppend(a: seq<DisplayTransaction>, b: seq<DisplayTransaction>, k: Kind)
    ensures OfKind(a + b, k) == OfKind(a, k) + OfKind(b, k)
  {
    if a != [] {
      assert (a + b)[1..] == a[1..] + b;
      OfKindAppend(a[1..], b, k);
    } else {
      assert a + b == b;
    }
  }

  lemma {:induction false} SumAppend(a: seq<DisplayTransaction>, b: seq<DisplayTransaction>)
    ensures SumAmounts(a + b) == SumAmounts(a) + SumAmounts(b)
  {
    if a != [] {
      assert (a + b)[1..] == a[1..] + b;
      SumAppend(a[1..], b);
    } else {
      assert a + b == b;
    }
  }

  lemma {:induction false} PaidSumAppend(a: seq<DisplayTransaction>, b: seq<DisplayTransaction>, k: Kind)
    ensures PaidSum(a + b, k) == PaidSum(a, k) + PaidSum(b, k)
  {
    if a != [] {
      assert (a + b)[1..] == a[1..] + b;
      PaidSumAppend(a[1..], b, k);
    } else {
      assert a + b == b;
    }
  }

  /**
   * The totals are the sums of `amount` over the paid instances of each kind,
   * and `savings` is their difference; an empty list gives all zeros.
   */
  lemma AggregateIsPaidSums(s: seq<DisplayTransaction>)
    ensures Aggregate(s).totalIncome == PaidSum(s, Income)
    ensures Aggregate(s).totalExpenses == PaidSum(s, Expense)
    ensures Aggregate(s).savings == PaidSum(s, Income) - PaidSum(s, Expense)
    ensures s == [] ==> Aggregate(s) == Totals(0, 0, 0)
  {
    SumOfKindOfPaid(s, Income);
    SumOfKindOfPaid(s, Expense);
  }

  /** Income and expense partition the paid instances: each paid amount is counted in exactly one total. */
  lemma {:induction false} PaidPartition(s: seq<DisplayTransaction>)
    ensures PaidSum(s, Income) + PaidSum(s, Expense) == SumAmounts(PaidOnly(s))
  {
    if s != [] {
      PaidPartition(s[1..]);
      SumAppend(if s[0].status == Paid then [s[0]] else [], PaidOnly(s[1..]));
    }
  }

  /** With positive amounts no total is negative. */
  lemma {:induction false} PaidSumNonNegative(s: seq<DisplayTransaction>, k: Kind)
    requires forall i :: 0 <= i < |s| ==> s[i].txn.amount > 0
    ensures PaidSum(s, k) >= 0
  {
    if s != [] {
      PaidSumNonNegative(s[1..], k);
    }
  }

  /** Summation order does not matter: lists with the same elements have the same paid sums. */
  lemma {:induction false} PaidSumPermutation(a: seq<DisplayTransaction>, b: seq<DisplayTransaction>, k: Kind)
    requires multiset(a) == multiset(b)
    ensures PaidSum(a, k) == PaidSum(b, k)
    decreases |a|
  {
    if a == [] {
      assert |b| == |multiset(b)| == 0;
    } else {
      var x := a[0];
      assert x in multiset(b);
      var i :| 0 <= i < |b| && b[i] == x;
      var b' := RemoveAt(b, i);
      assert a == [x] + a[1..];
      assert multiset(a[1..]) == multiset(a) - multiset{x};
      PaidSumPermutation(a[1..], b', k);
    }
  }

  /**
   * `b` without its element at `i`: its contents lose exactly that element,
   * and its paid sums lose exactly that element's contribution.
   */
  lemma RemoveAt(b: seq<DisplayTransaction>, i: int) returns (b': seq<DisplayTransaction>)
    requires 0 <= i < |b|
    ensures |b'| == |b| - 1
    ensures multiset(b') == multiset(b) - multiset{b[i]}
    ensures forall k :: PaidSum(b, k) == Contribution(b[i], k) + PaidSum(b', k)
  {
    var x := b[i];
    b' := b[..i] + b[i + 1..];
    assert b == b[..i] + [x] + b[i + 1..];
    assert multiset(b) == multiset(b[..i]) + multiset{x} + multiset(b[i + 1..]);
    forall k
      ensures PaidSum(b, k) == Contribution(x, k) + PaidSum(b', k)
    {
      PaidSumAppend(b[..i] + [x], b[i + 1..], k);
      PaidSumAppend(b[..i], [x], k);
      PaidSumAppend(b[..i], b[i + 1..], k);
    }
  }

  lemma AggregatePermutation(a: seq<DisplayTransaction>, b: seq<DisplayTransaction>)
    requires multiset(a) == multiset(b)
    ensures Aggregate(a) == Aggregate(b)
  {
    AggregateIsPaidSums(a);
    AggregateIsPaidSums(b);
    PaidSumPermutation(a, b, Income);
    PaidSumPermutation(a, b, Expense);
  }

  /** Newest first: no instance is dated after the one before it. */
  predicate NewestFirst(s: seq<DisplayTransaction>) {
    forall i, j :: 0 <= i < j < |s| ==> OnOrBefore(s[j].instanceDate, s[i].instanceDate)
  }

  /** Places `x` before the first instance that is not newer than it. */
  function InsertByDate(x: DisplayTransaction, s: seq<DisplayTransaction>): (r: seq<DisplayTransaction>)
    ensures multiset(r) == multiset(s) + multiset{x}
  {
    if s == [] || OnOrBefore(s[0].instanceDate, x.instanceDate) then [x] + s
    else
      assert s == [s[0]] + s[1..];
      [s[0]] + InsertByDate(x, s[1..])
  }

  lemma {:induction false} InsertKeepsOrder(x: DisplayTransaction, s: seq<DisplayTransaction>)
    requires NewestFirst(s)
    ensures NewestFirst(InsertByDate(x, s))
  {
    var r := InsertByDate(x, s);
    if s == [] || OnOrBefore(s[0].instanceDate, x.instanceDate) {
      forall i, j | 0 <= i < j < |r|
        ensures OnOrBefore(r[j].instanceDate, r[i].instanceDate)
      {
        assert r[j] == s[j - 1];
        if i > 0 {
          assert r[i] == s[i - 1];
        } else if j > 1 {
          assert OnOrBefore(s[j - 1].instanceDate, s[0].instanceDate);
        }
      }
    } else {
      var tail := s[1..];
      var rest := InsertByDate(x, tail);
      InsertKeepsOrder(x, tail);
      assert r == [s[0]] + rest;
      forall i, j | 0 <= i < j < |r|
        ensures OnOrBefore(r[j].instanceDate, r[i].instanceDate)
      {
        assert r[j] == rest[j - 1];
        if i > 0 {
          assert r[i] == rest[i - 1];
        } else {
          assert rest[j - 1] in multiset(rest);
          if rest[j - 1] != x {
            assert rest[j - 1] in multiset(tail);
            var k :| 0 <= k < |tail| && tail[k] == rest[j - 1];
            assert s[k + 1] == rest[j - 1];
          }
        }
      }
    }
  }

  /**
   * `sort((a, b) => date(b) - date(a))` as a stable insertion sort: the
   * result is a permutation of the input with the newest instance first.
   */
  function SortNewestFirst(s: seq<DisplayTransaction>): (r: seq<DisplayTransaction>)
    ensures multiset(r) == multiset(s)
    ensures NewestFirst(r)
  {
    if s == [] then []
    else
      assert s == [s[0]] + s[1..];
      InsertKeepsOrder(s[0], SortNewestFirst(s[1..]));
      InsertByDate(s[0], SortNewestFirst(s[1..]))
  }

  /** The instances of `s` whose date has the stamp `n`, in their order in `s`. */
  function Dated(s: seq<DisplayTransaction>, n: int): seq<DisplayTransaction>
  {
    if s == [] then []
    else (if Stamp(s[0].instanceDate) == n then [s[0]] else []) + Dated(s[1..], n)
  }

  lemma {:induction false} DatedInsert(x: DisplayTransaction, s: seq<DisplayTransaction>, n: int)
    ensures Dated(InsertByDate(x, s), n)
            == if Stamp(x.instanceDate) == n then [x] + Dated(s, n) else Dated(s, n)
  {
    if s == [] || OnOrBefore(s[0].instanceDate, x.instanceDate) {
      assert ([x] + s)[1..] == s;
    } else {
      var rest := InsertByDate(x, s[1..]);
      assert ([s[0]] + rest)[1..] == rest;
      DatedInsert(x, s[1..], n);
    }
  }

  /**
   * Stability: ties keep generation order. Among instances with the same
   * date, the sorted list has them in the order of the input.
   */
  lemma {:induction false} SortIsStable(s: seq<DisplayTransaction>, n: int)
    ensures Dated(SortNewestFirst(s), n) == Dated(s, n)
  {
    if s != [] {
      SortIsStable(s[1..], n);
      DatedInsert(s[0], SortNewestFirst(s[1..]), n);
    }
  }

  /** The totals shown beside the sorted list are those of the generated list. */
  lemma SortedTotals(s: seq<DisplayTransaction>)
    ensures Aggregate(SortNewestFirst(s)) == Aggregate(s)
  {
    AggregatePermutation(SortNewestFirst(s), s);
  }
}
