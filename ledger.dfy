/**
 * Copy-on-write operations on the template list: recording a confirm or skip
 * decision in a template's processed dates, defaulting records loaded from
 * storage, adding a template and replacing one by id.
 */
module Ledger {
  import opened Calendar
  import opened Types
  import opened Expansion

  datatype Action = Confirm | Skip

  /**
   * A record as read back from storage: records saved by older versions may
   * lack `recurrence` or `processedDates`.
   */
  datatype StoredRecord = StoredRecord(
    id: string,
    kind: Kind,
    amount: int,
    description: string,
    date: Date,
    recurrence: Option<Recurrence>,
    processedDates: Option<seq<Date>>)

  /** The load-time repair of one record: a missing recurrence becomes one-time, missing processed dates become empty. */
  function Migrate(raw: StoredRecord): (t: Transaction)
    ensures t.processedDates.Some?
  {
    Transaction(raw.id, raw.kind, raw.amount, raw.description, raw.date,
                raw.recurrence.GetOr(Once), Some(raw.processedDates.GetOr([])))
  }

  /** The record that saving a template writes (an absent `processedDates` stays absent). */
  function Store(t: Transaction): StoredRecord {
    StoredRecord(t.id, t.kind, t.amount, t.description, t.date, Some(t.recurrence), t.processedDates)
  }

  /** Loading repairs each record on its own, keeping the list's length and order. */
  function Load(raws: seq<StoredRecord>): (ts: seq<Transaction>)
    ensures |ts| == |raws|
    ensures forall i :: 0 <= i < |raws| ==> ts[i] == Migrate(raws[i])
  {
    seq(|raws|, i requires 0 <= i < |raws| => Migrate(raws[i]))
  }

  /**
   * Defaulting keeps what a record has and fills in only what it lacks: a
   * present recurrence and present processed dates are kept, absent ones
   * become one-time and empty.
   */
  lemma MigrateDefaults(raw: StoredRecord)
    ensures var t := Migrate(raw);
            && t.id == raw.id && t.kind == raw.kind && t.amount == raw.amount
            && t.description == raw.description && t.date == raw.date
            && (raw.recurrence.Some? ==> t.recurrence == raw.recurrence.value)
            && (raw.recurrence.None? ==> t.recurrence == Once)
            && (raw.processedDates.Some? ==> t.processedDates == raw.processedDates)
            && (raw.processedDates.None? ==> t.processedDates == Some([]))
  {
  }

  /** Saving then loading gives back a template whose processed dates are present, and repairing twice is repairing once. */
  lemma StoreLoadRoundTrip(t: Transaction, raw: StoredRecord)
    ensures t.processedDates.Some? ==> Migrate(Store(t)) == t
    ensures Migrate(Store(Migrate(raw))) == Migrate(raw)
  {
  }

  /** Adds `d` to the template's processed dates unless it is already there. */
  function Record(t: Transaction, d: Date): (u: Transaction)
    ensures u == t.(processedDates := u.processedDates)
    ensures u.processedDates.Some? && d in u.processedDates.value
    ensures var before := t.processedDates.GetOr([]);
            u.processedDates.value == (if d in before then before else before + [d])
  {
    var before := t.processedDates.GetOr([]);
    t.(processedDates := Some(if d in before then before else before + [d]))
  }

  /**
   * `processTransaction`: every template whose id is the instance's gets the
   * instance date recorded; the others are returned unchanged. The action is
   * not consulted: confirm and skip record the same thing.
   */
  function ProcessTransaction(ts: seq<Transaction>, inst: DisplayTransaction, action: Action): (r: seq<Transaction>)
    ensures |r| == |ts|
    ensures forall i :: 0 <= i < |ts| && ts[i].id != inst.txn.id ==> r[i] == ts[i]
    ensures forall i :: 0 <= i < |ts| && ts[i].id == inst.txn.id ==>
              r[i] == ts[i].(processedDates := r[i].processedDates) && IsProcessed(r[i], inst.instanceDate)
    ensures forall i, d :: 0 <= i < |ts| && d != inst.instanceDate ==> (IsProcessed(r[i], d) <==> IsProcessed(ts[i], d))
  {
    seq(|ts|, i requires 0 <= i < |ts| => if ts[i].id == inst.txn.id then Record(ts[i], inst.instanceDate) else ts[i])
  }

  /**
   * Recording a decision twice has the effect of recording it once, whichever
   * actions are used, and whichever copies of the instance are passed: only
   * the template id and the instance date are consulted.
   */
  lemma ProcessIdempotent(ts: seq<Transaction>, i1: DisplayTransaction, i2: DisplayTransaction, a: Action, b: Action)
    requires i1.txn.id == i2.txn.id && i1.instanceDate == i2.instanceDate
    ensures ProcessTransaction(ProcessTransaction(ts, i1, a), i2, b) == ProcessTransaction(ts, i1, a)
  {
    var once := ProcessTransaction(ts, i1, a);
    var twice := ProcessTransaction(once, i2, b);
    forall i | 0 <= i < |ts|
      ensures twice[i] == once[i]
    {
      if ts[i].id == i1.txn.id {
        assert i1.instanceDate in once[i].processedDates.value;
      }
    }
  }

  /** Confirm and skip produce identical template lists. */
  lemma ConfirmEqualsSkip(ts: seq<Transaction>, inst: DisplayTransaction)
    ensures ProcessTransaction(ts, inst, Confirm) == ProcessTransaction(ts, inst, Skip)
  {
  }

  /**
   * The ledger only grows: the processed dates after a decision start with the
   * ones before it, and a date appears at most once if it did before.
   */
  lemma ProcessGrowsLedger(ts: seq<Transaction>, inst: DisplayTransaction, a: Action, i: int)
    requires 0 <= i < |ts|
    ensures var before := ts[i].processedDates.GetOr([]);
            var after := ProcessTransaction(ts, inst, a)[i].processedDates.GetOr([]);
            && |before| <= |after| <= |before| + 1
            && after[..|before|] == before
            && (NoDuplicates(before) ==> NoDuplicates(after))
  {
  }

  predicate NoDuplicates(ds: seq<Date>) {
    forall i, j :: 0 <= i < j < |ds| ==> ds[i] != ds[j]
  }

  /**
   * After a decision, re-expanding the month shows that template's instance on
   * the decided date as paid, so it is never surfaced as pending again.
   */
  lemma ProcessedInstanceIsPaid(ts: seq<Transaction>, inst: DisplayTransaction, a: Action, i: int,
                                y: int, m: int, today: Date)
    requires 0 <= i < |ts| && ts[i].id == inst.txn.id
    requires Valid(ts[i].date) && 1 <= m <= 12
    ensures var xs := Instances(ProcessTransaction(ts, inst, a)[i], y, m, today);
            forall j :: 0 <= j < |xs| && xs[j].instanceDate == inst.instanceDate ==> xs[j].status == Paid
  {
    var u := ProcessTransaction(ts, inst, a)[i];
    var xs := Instances(u, y, m, today);
    if u.recurrence != Once {
      forall j | 0 <= j < |xs| && xs[j].instanceDate == inst.instanceDate
        ensures xs[j].status == Paid
      {
        assert xs[j].status == Classify(u, inst.instanceDate, today);
      }
    }
  }

  /** `handleAddTransaction`: appends the new template with the given id and no processed dates. */
  function AddTransaction(ts: seq<Transaction>, data: NewTransaction, id: string): (r: seq<Transaction>)
    ensures |r| == |ts| + 1 && r[..|ts|] == ts
    ensures r[|ts|].id == id && r[|ts|].processedDates == Some([])
    ensures r[|ts|].kind == data.kind && r[|ts|].amount == data.amount && r[|ts|].description == data.description
    ensures r[|ts|].date == data.date && r[|ts|].recurrence == data.recurrence
  {
    ts + [Transaction(id, data.kind, data.amount, data.description, data.date, data.recurrence, Some([]))]
  }

  /** A template just added has no settled instance yet: all its recurring instances are pending or future. */
  lemma AddedTemplateUnsettled(ts: seq<Transaction>, data: NewTransaction, id: string, y: int, m: int, today: Date)
    requires Valid(data.date) && 1 <= m <= 12 && data.recurrence != Once
    ensures var xs := Instances(AddTransaction(ts, data, id)[|ts|], y, m, today);
            forall j :: 0 <= j < |xs| ==> xs[j].status != Paid
  {
    var t := AddTransaction(ts, data, id)[|ts|];
    var xs := Instances(t, y, m, today);
    forall j | 0 <= j < |xs|
      ensures xs[j].status != Paid
    {
      assert xs[j].status == Classify(t, xs[j].instanceDate, today);
    }
  }

  /** `handleUpdateTransaction`: every template with the edited one's id is replaced by it. */
  function UpdateTransaction(ts: seq<Transaction>, u: Transaction): (r: seq<Transaction>)
    ensures |r| == |ts|
    ensures forall i :: 0 <= i < |ts| ==> r[i] == if ts[i].id == u.id then u else ts[i]
  {
    seq(|ts|, i requires 0 <= i < |ts| => if ts[i].id == u.id then u else ts[i])
  }

  /** Replacing by id twice is replacing once, and an id that is not in the list leaves it unchanged. */
  lemma UpdateProperties(ts: seq<Transaction>, u: Transaction)
    ensures UpdateTransaction(UpdateTransaction(ts, u), u) == UpdateTransaction(ts, u)
    ensures (forall i :: 0 <= i < |ts| ==> ts[i].id != u.id) ==> UpdateTransaction(ts, u) == ts
  {
  }
}
