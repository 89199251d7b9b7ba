/**
 * The two record shapes of the store: `Account` and `Transaction`, and the
 * `IngestionStatus` choices of a transaction row.
 *
 * Identifiers are strings, amounts are integer cents (the column is a decimal
 * with two places), and dates are day numbers. A table is a map from its
 * primary key to the rest of the row.
 */
module Models {
  import opened Wrappers

  /** An `account_id` or a `transaction_id`: an external string primary key. */
  type Id = string

  /** An amount in cents; negative is an expense, positive is income. */
  type Cents = int

  /** A calendar day as an ordered day number. */
  type Day = int

  /** A stored account; `created_at`/`updated_at` are not modelled. */
  datatype Account = Account(
    name: string,
    accountType: string,
    subtype: Option<string>,
    mask: Option<string>)

  /**
   * The `ingestion_status` column. It is a plain character column whose four
   * choices are not enforced by the database, so a row may hold some other
   * text; `Unrecognised` stands for any such value.
   */
  datatype IngestionStatus =
    | Pending
    | Processing
    | Completed
    | Failed
    | Unrecognised(raw: string)

  /** The four statuses the summary reports on. */
  const KnownStatuses: set<IngestionStatus> := {Pending, Processing, Completed, Failed}

  /** The text stored in the column for a status. */
  function StatusText(s: IngestionStatus): string {
    match s
    case Pending => "pending"
    case Processing => "processing"
    case Completed => "completed"
    case Failed => "failed"
    case Unrecognised(raw) => raw
  }

  /** A column value: other text is never the text of one of the four choices. */
  type Status = s: IngestionStatus | s.Unrecognised? ==> s.raw !in {"pending", "processing", "completed", "failed"}
    witness Pending

  /**
   * Each column text has one status: grouping rows by the stored text, as
   * the database does, is grouping them by status.
   */
  lemma StatusTextInjective(a: Status, b: Status)
    ensures StatusText(a) == StatusText(b) <==> a == b
  {
  }

  /** A stored transaction; `created_at`/`updated_at` are not modelled. */
  datatype Transaction = Transaction(
    accountId: Id,
    amount: Cents,
    currency: string,
    date: Day,
    merchantName: Option<string>,
    description: string,
    category: Option<string>,
    batchId: string,
    ingestionStatus: Status)

  /** The foreign-key constraint: every transaction's account exists. */
  ghost predicate ReferencesResolve(accounts: map<Id, Account>, transactions: map<Id, Transaction>) {
    forall id :: id in transactions ==> transactions[id].accountId in accounts
  }
}
