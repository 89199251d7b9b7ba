/**
 * The store and the two operations that write to it: the batch ingestion
 * writer (`CompositeCreationSerializer.create`) and the categorisation worker
 * (`categorise_transactions`).
 */
module Database {
  import opened Wrappers
  import opened Models
  import opened Tables
  import opened Ingestion
  import opened Categorisation

  /**
   * `bulk_create` on one table: insert the rows one after the other into a
   * copy of the table. A key that is already present, in the table or from
   * an earlier row, raises the integrity error, returned here as `Err(key)`.
   */
  method BulkCreate<K(==), V>(table: map<K, V>, rows: seq<(K, V)>) returns (r: Result<map<K, V>, K>)
    ensures r.Ok? <==> CanInsert(table, rows)
    ensures r.Ok? ==> r.value == BulkInsert(table, rows)
    ensures r.Err? ==> r.error in table || exists i, j :: 0 <= i < j < |rows| && rows[i].0 == rows[j].0 == r.error
  {
    var result := table;
    for k := 0 to |rows|
      invariant result == BulkInsert(table, rows[..k])
      invariant CanInsert(table, rows[..k])
    {
      var (key, value) := rows[k];
      if key in result {
        KeyClash(table, rows, k);
        return Err(key);
      }
      CanInsertSnoc(table, rows, k);
      BulkInsertSnoc(table, rows, k);
      result := result[key := value];
    }
    assert rows[..|rows|] == rows;
    return Ok(result);
  }

  /** The foreign-key check at commit: does every transaction name a known account? */
  method CheckReferences(accounts: map<Id, Account>, transactionsData: seq<TransactionData>) returns (ok: bool)
    ensures ok == ReferencesKnown(accounts, transactionsData)
  {
    for i := 0 to |transactionsData|
      invariant ReferencesKnown(accounts, transactionsData[..i])
    {
      if transactionsData[i].accountId !in accounts {
        return false;
      }
    }
    assert transactionsData[..|transactionsData|] == transactionsData;
    return true;
  }

  /**
   * When the batch id of a write is new to the table, as `uuid4()` gives in
   * practice, the worker run on that batch classifies exactly the rows the
   * write added and leaves every older row as it was.
   */
  lemma FreshBatchCategorisesOnlyNewRows(accounts: map<Id, Account>, transactions: map<Id, Transaction>,
                                         accountsData: seq<AccountData>, transactionsData: seq<TransactionData>,
                                         batchId: string, classify: Classifier)
    requires forall id :: id in transactions ==> transactions[id].batchId != batchId
    requires Ingest(accounts, transactions, accountsData, transactionsData, batchId).Committed?
    ensures var o := Ingest(accounts, transactions, accountsData, transactionsData, batchId);
      var after := Categorised(o.transactions, batchId, classify);
      && (forall id :: id in transactions ==> id in after && after[id] == transactions[id])
      && forall j :: 0 <= j < |transactionsData| ==>
           var id := transactionsData[j].transactionId;
           id in after && after[id] == ClassifyRow(o.transactions[id], classify)
  {
    IngestAppendsTransactions(accounts, transactions, accountsData, transactionsData, batchId);
  }

  /** `scan` lists every stored transaction id once: an order the table may be read in. */
  predicate IsScanOf(scan: seq<Id>, table: map<Id, Transaction>) {
    && (forall i :: 0 <= i < |scan| ==> scan[i] in table)
    && (forall id :: id in table ==> id in scan)
    && (forall i, j :: 0 <= i < j < |scan| ==> scan[i] != scan[j])
  }

  /** The rows of the table, read in the order `scan` gives. */
  function ScanRows(table: map<Id, Transaction>, scan: seq<Id>): seq<Transaction>
    requires forall i :: 0 <= i < |scan| ==> scan[i] in table
  {
    seq(|scan|, i requires 0 <= i < |scan| => table[scan[i]])
  }

  /** A scan reads every stored transaction, each at its own position, and nothing else. */
  lemma ScanRowsCoverTable(table: map<Id, Transaction>, scan: seq<Id>)
    requires IsScanOf(scan, table)
    ensures var rows := ScanRows(table, scan);
      && |rows| == |scan|
      && (forall i :: 0 <= i < |rows| ==> scan[i] in table && rows[i] == table[scan[i]])
      && forall id :: id in table ==> exists i :: 0 <= i < |rows| && scan[i] == id && rows[i] == table[id]
  {
    var rows := ScanRows(table, scan);
    forall id | id in table
      ensures exists i :: 0 <= i < |rows| && scan[i] == id && rows[i] == table[id]
    {
      var i :| 0 <= i < |scan| && scan[i] == id;
      assert rows[i] == table[id];
    }
  }

  /** The two tables: accounts and transactions, keyed by their ids. */
  class Store {
    var accounts: map<Id, Account>
    var transactions: map<Id, Transaction>

    /** The database's foreign key from transactions to accounts. */
    ghost predicate Valid()
      reads this
    {
      ReferencesResolve(accounts, transactions)
    }

    constructor ()
      ensures Valid()
      ensures accounts == map[] && transactions == map[]
    {
      accounts := map[];
      transactions := map[];
    }

    /**
     * The loop that collects `accounts_to_create`: every submitted account
     * whose id is not among the stored ids of the request.
     */
    method StageAccounts(accountsData: seq<AccountData>) returns (accountsToCreate: seq<(Id, Account)>)
      ensures accountsToCreate == AccountsToCreate(accounts, accountsData)
    {
      var requestAccountIds := set j | 0 <= j < |accountsData| :: accountsData[j].accountId;
      var existingAccountIds := set id | id in requestAccountIds && id in accounts;
      accountsToCreate := [];
      for i := 0 to |accountsData|
        invariant accountsToCreate == AccountsToCreate(accounts, accountsData[..i])
      {
        var account := accountsData[i];
        assert account.accountId in requestAccountIds;
        if account.accountId !in existingAccountIds {
          accountsToCreate := accountsToCreate + [AccountRow(account)];
        }
        assert accountsData[..i + 1][..i] == accountsData[..i];
      }
      assert accountsData[..|accountsData|] == accountsData;
    }

    /**
     * `CompositeCreationSerializer.create`: skip the submitted accounts that
     * exist, bulk-insert the others, then bulk-insert the transactions with
     * the fresh batch id `freshBatchId` (the `uuid4()` of the call), all in one
     * database transaction. Either both tables take the whole batch, or the
     * call fails and neither table changes.
     */
    method Create(accountsData: seq<AccountData>, transactionsData: seq<TransactionData>, freshBatchId: string)
      returns (r: Result<CreateResponse, Violation>)
      requires Valid()
      modifies this
      ensures Valid()
      ensures match Ingest(old(accounts), old(transactions), accountsData, transactionsData, freshBatchId)
        case Committed(accounts', transactions', response) =>
          r == Ok(response) && accounts == accounts' && transactions == transactions'
        case RolledBack(violation) =>
          r == Err(violation) && accounts == old(accounts) && transactions == old(transactions)
    {
      var accountsToCreate := StageAccounts(accountsData);

      // The atomic block: both inserts work on copies, committed together at the end.
      AccountsToCreateContents(accounts, accountsData);
      var accounts' := accounts;
      if accountsToCreate != [] {
        var inserted := BulkCreate(accounts, accountsToCreate);
        if inserted.Err? {
          return Err(AccountKeyViolation);
        }
        accounts' := inserted.value;
      }
      var batchId := freshBatchId;
      var insertedTransactions := BulkCreate(transactions, TransactionRows(transactionsData, batchId));
      if insertedTransactions.Err? {
        return Err(TransactionKeyViolation);
      }
      // The foreign key is checked when the transaction commits.
      var referencesKnown := CheckReferences(accounts', transactionsData);
      if !referencesKnown {
        return Err(AccountReferenceViolation);
      }
      IngestKeepsReferences(accounts, transactions, accountsData, transactionsData, batchId);
      accounts := accounts';
      transactions := insertedTransactions.value;
      r := Ok(CreateResponse(|accountsData| + |transactionsData|, batchId));
    }

    /**
     * `categorise_transactions`: for every row of the batch, in whatever order
     * the query yields them, save it as `Processing`, classify its
     * description, and save it as `Completed` with the category or, when the
     * classifier raises, as `Failed` with the category untouched.
     */
    method CategoriseTransactions(batchId: string, classify: Classifier)
      requires Valid()
      modifies this
      ensures Valid()
      ensures accounts == old(accounts)
      ensures transactions == Categorised(old(transactions), batchId, classify)
    {
      var batch := set id | id in transactions && transactions[id].batchId == batchId;
      var remaining := batch;
      while remaining != {}
        invariant remaining <= batch
        invariant accounts == old(accounts)
        invariant transactions.Keys == old(transactions).Keys
        invariant forall id :: id in transactions ==>
          transactions[id] == if id in batch && id !in remaining
                              then ClassifyRow(old(transactions)[id], classify)
                              else old(transactions)[id]
        decreases remaining
      {
        var id :| id in remaining;
        var t := transactions[id];
        t := t.(ingestionStatus := Processing);
        transactions := transactions[id := t];
        match classify(t.description) {
          case Err(_) =>
            t := t.(ingestionStatus := Failed);
            transactions := transactions[id := t];
          case Ok(category) =>
            t := t.(category := Some(category));
            t := t.(ingestionStatus := Completed);
            transactions := transactions[id := t];
        }
        remaining := remaining - {id};
      }
      CategorisedKeepsReferences(accounts, old(transactions), batchId, classify);
    }
  }
}
