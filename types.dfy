/**
 * The records of the finance tracker: a transaction template as stored and
 * edited, and the dated instance of it that the month view shows.
 */
module Types {
  import opened Calendar

  datatype Option<T> = None | Some(value: T) {
    function GetOr(default: T): T {
      match this
      case Some(v) => v
      case None => default
    }
  }

  /** The `type` field: exactly income or expense. */
  datatype Kind = Income | Expense

  /** The `recurrence` field; `Once` is the source's `'none'`. */
  datatype Recurrence = Once | Daily | Weekly | Monthly

  /** The `status` of a displayed instance. */
  datatype Status = Paid | Pending | Future

  /**
   * A transaction template. `amount` is in minor currency units; `date` is
   * the anchor date; `processedDates` is optional, as in the stored records,
   * and lists the instance dates already confirmed or skipped.
   */
  datatype Transaction = Transaction(
    id: string,
    kind: Kind,
    amount: int,
    description: string,
    date: Date,
    recurrence: Recurrence,
    processedDates: Option<seq<Date>>)

  /** A transaction as entered in the form, before it is given an id. */
  datatype NewTransaction = NewTransaction(
    kind: Kind,
    amount: int,
    description: string,
    date: Date,
    recurrence: Recurrence)

  /** A `DisplayTransaction`: every template field unchanged, plus the instance date and its status. */
  datatype DisplayTransaction = DisplayTransaction(txn: Transaction, instanceDate: Date, status: Status)

  /** What the entry form guarantees of an edited template: a positive amount, a description and a valid date. */
  predicate WellFormed(t: Transaction) {
    t.amount > 0 && |t.description| > 0 && Valid(t.date)
  }

  /** What the entry form guarantees of a new template. */
  predicate WellFormedEntry(data: NewTransaction) {
    data.amount > 0 && |data.description| > 0 && Valid(data.date)
  }
}
