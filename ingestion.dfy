/**
 * The batch ingestion writer (`CompositeCreationSerializer.create`), as the
 * change it makes to the two tables.
 *
 * Accounts are upserted-or-skipped: an account whose id is already stored is
 * left alone, and every other submitted account is inserted. All submitted
 * transactions are inserted with one shared batch id, status `Pending` and no
 * category. The whole write is one database transaction: when a primary-key
 * or foreign-key constraint fails, nothing is written.
 */
module Ingestion {
  import opened Wrappers
  import opened Models
  import opened Tables

  /** A validated account entry of the request. */
  datatype AccountData = AccountData(
    accountId: Id,
    name: string,
    accountType: string,
    subtype: Option<string>,
    mask: Option<string>)

  /**
   * A validated transaction entry of the request, after the serializer's
   * renames: `iso_currency_code` arrives as `currency`, `name` as `description`.
   */
  datatype TransactionData = TransactionData(
    transactionId: Id,
    accountId: Id,
    amount: Cents,
    currency: string,
    date: Day,
    merchantName: Option<string>,
    description: string)

  /** The result dictionary of a successful write. */
  datatype CreateResponse = CreateResponse(totalTransactions: nat, batchId: string)

  /** The integrity error that aborts the write. */
  datatype Violation =
    | AccountKeyViolation        // a new account id is submitted twice
    | TransactionKeyViolation    // a transaction id is stored already or submitted twice
    | AccountReferenceViolation  // a transaction names an account that does not exist

  /** What a write does: commit the new tables, or roll back. */
  datatype Outcome =
    | Committed(accounts: map<Id, Account>, transactions: map<Id, Transaction>, response: CreateResponse)
    | RolledBack(violation: Violation)

  function ToAccount(a: AccountData): Account {
    Account(a.name, a.accountType, a.subtype, a.mask)
  }

  /** The row `Account(**account)` adds to the account table. */
  function AccountRow(a: AccountData): (Id, Account) {
    (a.accountId, ToAccount(a))
  }

  /** A new transaction row: stamped with the batch id, pending, uncategorised. */
  function NewTransaction(t: TransactionData, batchId: string): Transaction {
    Transaction(t.accountId, t.amount, t.currency, t.date, t.merchantName, t.description,
                None, batchId, Pending)
  }

  function TransactionRows(data: seq<TransactionData>, batchId: string): (rows: seq<(Id, Transaction)>)
    ensures |rows| == |data|
  {
    seq(|data|, i requires 0 <= i < |data| => (data[i].transactionId, NewTransaction(data[i], batchId)))
  }

  /** The submitted accounts whose id is not stored yet, in request order. */
  function AccountsToCreate(existing: map<Id, Account>, data: seq<AccountData>): seq<(Id, Account)>
    decreases |data|
  {
    if data == [] then []
    else
      var last := data[|data| - 1];
      AccountsToCreate(existing, data[..|data| - 1])
        + (if last.accountId in existing then [] else [AccountRow(last)])
  }

  /** Every transaction names an account of `accounts`. */
  predicate ReferencesKnown(accounts: map<Id, Account>, data: seq<TransactionData>) {
    forall i :: 0 <= i < |data| ==> data[i].accountId in accounts
  }

  /**
   * The write. The new accounts are inserted first (the account key must
   * hold), then the transactions (the transaction key must hold), and the
   * foreign key is checked when the database transaction commits.
   */
  function Ingest(accounts: map<Id, Account>, transactions: map<Id, Transaction>,
                  accountsData: seq<AccountData>, transactionsData: seq<TransactionData>,
                  batchId: string): Outcome
  {
    var newAccounts := AccountsToCreate(accounts, accountsData);
    if !KeysDistinct(newAccounts) then RolledBack(AccountKeyViolation)
    else
      var accounts' := BulkInsert(accounts, newAccounts);
      var newTransactions := TransactionRows(transactionsData, batchId);
      if !CanInsert(transactions, newTransactions) then RolledBack(TransactionKeyViolation)
      else if !ReferencesKnown(accounts', transactionsData) then RolledBack(AccountReferenceViolation)
      else Committed(accounts', BulkInsert(transactions, newTransactions),
                     CreateResponse(|accountsData| + |transactionsData|, batchId))
  }

  // ---------------------------------------------------------------------------
  // The reasons a request is refused, stated on the request itself

  /** An account id that is not stored yet occurs twice in the request. */
  predicate RepeatsNewAccount(accounts: map<Id, Account>, data: seq<AccountData>) {
    exists i, j :: 0 <= i < j < |data| && data[i].accountId == data[j].accountId && data[i].accountId !in accounts
  }

  /** A transaction id is stored already, or occurs twice in the request. */
  predicate ReusesTransactionId(transactions: map<Id, Transaction>, data: seq<TransactionData>) {
    || (exists i :: 0 <= i < |data| && data[i].transactionId in transactions)
    || (exists i, j :: 0 <= i < j < |data| && data[i].transactionId == data[j].transactionId)
  }

  /** A transaction names an account that is neither stored nor submitted. */
  predicate ReferencesUnknownAccount(accounts: map<Id, Account>, accountsData: seq<AccountData>,
                                     data: seq<TransactionData>) {
    exists i :: 0 <= i < |data| && data[i].accountId !in accounts
      && forall j :: 0 <= j < |accountsData| ==> accountsData[j].accountId != data[i].accountId
  }

  function SubmittedIds(data: seq<AccountData>): set<Id> {
    set j | 0 <= j < |data| :: data[j].accountId
  }

  // ---------------------------------------------------------------------------
  // Facts about the accounts to create

  /**
   * The accounts to create are the submitted ones that are not stored: none
   * of them is stored, each such submitted account is among them, and storing
   * them gives every submitted id an account.
   */
  lemma {:induction false} AccountsToCreateContents(existing: map<Id, Account>, data: seq<AccountData>)
    ensures KeysAbsent(existing, AccountsToCreate(existing, data))
    ensures forall j :: 0 <= j < |data| && data[j].accountId !in existing ==>
              AccountRow(data[j]) in AccountsToCreate(existing, data)
    ensures existing.Keys + RowKeys(AccountsToCreate(existing, data)) == existing.Keys + SubmittedIds(data)
    decreases |data|
  {
    if data != [] {
      var init := data[..|data| - 1];
      var last := data[|data| - 1];
      var r := AccountsToCreate(existing, data);
      var r' := AccountsToCreate(existing, init);
      AccountsToCreateContents(existing, init);
      assert r == r' + (if last.accountId in existing then [] else [AccountRow(last)]);
      forall j | 0 <= j < |data| && data[j].accountId !in existing
        ensures AccountRow(data[j]) in r
      {
        if j < |data| - 1 { assert init[j] == data[j]; }
      }
      assert SubmittedIds(data) == SubmittedIds(init) + {last.accountId} by {
        forall id | id in SubmittedIds(data) ensures id in SubmittedIds(init) + {last.accountId} {
          var j :| 0 <= j < |data| && data[j].accountId == id;
          if j < |data| - 1 { assert init[j] == data[j]; }
        }
        forall id | id in SubmittedIds(init) ensures id in SubmittedIds(data) {
          var j :| 0 <= j < |init| && init[j].accountId == id;
          assert data[j] == init[j];
        }
      }
      assert RowKeys(r) == RowKeys(r') + (if last.accountId in existing then {} else {last.accountId}) by {
        forall id | id in RowKeys(r)
          ensures id in RowKeys(r') + (if last.accountId in existing then {} else {last.accountId})
        {
          var k :| 0 <= k < |r| && r[k].0 == id;
          if k < |r'| { assert r[k] == r'[k]; }
        }
        forall id | id in RowKeys(r') ensures id in RowKeys(r) {
          var k :| 0 <= k < |r'| && r'[k].0 == id;
          assert r[k] == r'[k];
        }
      }
    }
  }

  /** A repeated new id is repeated before the last entry, or the last entry repeats one. */
  lemma RepeatsNewAccountSplit(existing: map<Id, Account>, data: seq<AccountData>)
    requires data != []
    ensures var init, last := data[..|data| - 1], data[|data| - 1];
      RepeatsNewAccount(existing, data) <==>
        || RepeatsNewAccount(existing, init)
        || (last.accountId !in existing && last.accountId in SubmittedIds(init))
  {
    var init, last := data[..|data| - 1], data[|data| - 1];
    if RepeatsNewAccount(existing, data) {
      var i, j :| 0 <= i < j < |data| && data[i].accountId == data[j].accountId && data[i].accountId !in existing;
      assert init[i] == data[i];
      if j < |data| - 1 {
        assert init[j] == data[j];
        assert RepeatsNewAccount(existing, init);
      }
    }
    if RepeatsNewAccount(existing, init) {
      var i, j :| 0 <= i < j < |init| && init[i].accountId == init[j].accountId && init[i].accountId !in existing;
      assert data[i] == init[i] && data[j] == init[j];
    }
    if last.accountId !in existing && last.accountId in SubmittedIds(init) {
      var j :| 0 <= j < |init| && init[j].accountId == last.accountId;
      assert data[j] == init[j];
      assert data[j].accountId == data[|data| - 1].accountId;
    }
  }

  /** The new accounts have distinct ids exactly when no new id is repeated. */
  lemma {:induction false} AccountsToCreateDistinct(existing: map<Id, Account>, data: seq<AccountData>)
    ensures KeysDistinct(AccountsToCreate(existing, data)) <==> !RepeatsNewAccount(existing, data)
    decreases |data|
  {
    if data != [] {
      var init := data[..|data| - 1];
      var last := data[|data| - 1];
      var r' := AccountsToCreate(existing, init);
      AccountsToCreateDistinct(existing, init);
      AccountsToCreateContents(existing, init);
      RepeatsNewAccountSplit(existing, data);
      if last.accountId !in existing {
        KeysDistinctSnoc(r', AccountRow(last));
        assert last.accountId in RowKeys(r') <==> last.accountId in SubmittedIds(init);
      } else {
        assert r' + [] == r';
      }
    }
  }

  // ---------------------------------------------------------------------------
  // Properties of the write

  /** The write is refused exactly for the three request defects, checked in this order. */
  lemma IngestRefusals(accounts: map<Id, Account>, transactions: map<Id, Transaction>,
                       accountsData: seq<AccountData>, transactionsData: seq<TransactionData>,
                       batchId: string)
    ensures var o := Ingest(accounts, transactions, accountsData, transactionsData, batchId);
      && (o == RolledBack(AccountKeyViolation) <==> RepeatsNewAccount(accounts, accountsData))
      && (o == RolledBack(TransactionKeyViolation) <==>
            !RepeatsNewAccount(accounts, accountsData) && ReusesTransactionId(transactions, transactionsData))
      && (o == RolledBack(AccountReferenceViolation) <==>
            && !RepeatsNewAccount(accounts, accountsData)
            && !ReusesTransactionId(transactions, transactionsData)
            && ReferencesUnknownAccount(accounts, accountsData, transactionsData))
      && (o.Committed? <==>
            && !RepeatsNewAccount(accounts, accountsData)
            && !ReusesTransactionId(transactions, transactionsData)
            && !ReferencesUnknownAccount(accounts, accountsData, transactionsData))
  {
    var newAccounts := AccountsToCreate(accounts, accountsData);
    AccountsToCreateDistinct(accounts, accountsData);
    var rows := TransactionRows(transactionsData, batchId);
    assert CanInsert(transactions, rows) <==> !ReusesTransactionId(transactions, transactionsData) by {
      assert forall i :: 0 <= i < |rows| ==> rows[i].0 == transactionsData[i].transactionId;
    }
    if KeysDistinct(newAccounts) {
      var accounts' := BulkInsert(accounts, newAccounts);
      BulkInsertKeys(accounts, newAccounts);
      AccountsToCreateContents(accounts, accountsData);
      assert accounts'.Keys == accounts.Keys + SubmittedIds(accountsData);
      assert ReferencesKnown(accounts', transactionsData) <==>
             !ReferencesUnknownAccount(accounts, accountsData, transactionsData) by {
        if !ReferencesKnown(accounts', transactionsData) {
          var i :| 0 <= i < |transactionsData| && transactionsData[i].accountId !in accounts';
          assert transactionsData[i].accountId !in SubmittedIds(accountsData);
        }
        if ReferencesUnknownAccount(accounts, accountsData, transactionsData) {
          var i :| 0 <= i < |transactionsData| && transactionsData[i].accountId !in accounts
            && forall j :: 0 <= j < |accountsData| ==> accountsData[j].accountId != transactionsData[i].accountId;
          assert transactionsData[i].accountId !in SubmittedIds(accountsData);
        }
      }
    }
  }

  /** Stored accounts are left exactly as they were: the first write wins. */
  lemma IngestFirstWriteWins(accounts: map<Id, Account>, transactions: map<Id, Transaction>,
                             accountsData: seq<AccountData>, transactionsData: seq<TransactionData>,
                             batchId: string, id: Id)
    requires Ingest(accounts, transactions, accountsData, transactionsData, batchId).Committed?
    requires id in accounts
    ensures var o := Ingest(accounts, transactions, accountsData, transactionsData, batchId);
      id in o.accounts && o.accounts[id] == accounts[id]
  {
    var newAccounts := AccountsToCreate(accounts, accountsData);
    AccountsToCreateContents(accounts, accountsData);
    BulkInsertKeepsOthers(accounts, newAccounts, id);
  }

  /**
   * After the write the account table holds exactly the stored and the
   * submitted ids, and each submitted account that was not stored is stored
   * with its submitted attributes.
   */
  lemma IngestStoresNewAccounts(accounts: map<Id, Account>, transactions: map<Id, Transaction>,
                                accountsData: seq<AccountData>, transactionsData: seq<TransactionData>,
                                batchId: string)
    requires Ingest(accounts, transactions, accountsData, transactionsData, batchId).Committed?
    ensures var o := Ingest(accounts, transactions, accountsData, transactionsData, batchId);
      && o.accounts.Keys == accounts.Keys + SubmittedIds(accountsData)
      && forall j :: 0 <= j < |accountsData| && accountsData[j].accountId !in accounts ==>
           o.accounts[accountsData[j].accountId] == ToAccount(accountsData[j])
  {
    var newAccounts := AccountsToCreate(accounts, accountsData);
    AccountsToCreateContents(accounts, accountsData);
    BulkInsertKeys(accounts, newAccounts);
    forall j | 0 <= j < |accountsData| && accountsData[j].accountId !in accounts
      ensures BulkInsert(accounts, newAccounts)[accountsData[j].accountId] == ToAccount(accountsData[j])
    {
      var k :| 0 <= k < |newAccounts| && newAccounts[k] == AccountRow(accountsData[j]);
      BulkInsertStoresRows(accounts, newAccounts, k);
    }
  }

  /**
   * After the write the transaction table is the old one plus exactly the
   * submitted rows: old rows are untouched, and each submitted row is stored
   * with its submitted fields, the shared batch id, status `Pending` and no
   * category.
   */
  lemma IngestAppendsTransactions(accounts: map<Id, Account>, transactions: map<Id, Transaction>,
                                  accountsData: seq<AccountData>, transactionsData: seq<TransactionData>,
                                  batchId: string)
    requires Ingest(accounts, transactions, accountsData, transactionsData, batchId).Committed?
    ensures var o := Ingest(accounts, transactions, accountsData, transactionsData, batchId);
      && o.transactions.Keys == transactions.Keys + (set j | 0 <= j < |transactionsData| :: transactionsData[j].transactionId)
      && (forall id :: id in transactions ==> o.transactions[id] == transactions[id])
      && forall j :: 0 <= j < |transactionsData| ==>
           var d, t := transactionsData[j], o.transactions[transactionsData[j].transactionId];
           && t.batchId == batchId && t.ingestionStatus == Pending && t.category == None
           && t.accountId == d.accountId && t.amount == d.amount && t.currency == d.currency
           && t.date == d.date && t.merchantName == d.merchantName && t.description == d.description
  {
    var rows := TransactionRows(transactionsData, batchId);
    BulkInsertKeys(transactions, rows);
    assert RowKeys(rows) == (set j | 0 <= j < |transactionsData| :: transactionsData[j].transactionId) by {
      assert forall j :: 0 <= j < |rows| ==> rows[j].0 == transactionsData[j].transactionId;
    }
    forall id | id in transactions ensures BulkInsert(transactions, rows)[id] == transactions[id] {
      BulkInsertKeepsOthers(transactions, rows, id);
    }
    forall j | 0 <= j < |transactionsData|
      ensures BulkInsert(transactions, rows)[transactionsData[j].transactionId] == NewTransaction(transactionsData[j], batchId)
    {
      BulkInsertStoresRows(transactions, rows, j);
    }
  }

  /** The response names the batch id stamped on the rows and counts accounts plus transactions. */
  lemma IngestResponse(accounts: map<Id, Account>, transactions: map<Id, Transaction>,
                       accountsData: seq<AccountData>, transactionsData: seq<TransactionData>,
                       batchId: string)
    requires Ingest(accounts, transactions, accountsData, transactionsData, batchId).Committed?
    ensures var o := Ingest(accounts, transactions, accountsData, transactionsData, batchId);
      && o.response.batchId == batchId
      && o.response.totalTransactions == |accountsData| + |transactionsData|
      && forall id :: id in o.transactions && id !in transactions ==> o.transactions[id].batchId == o.response.batchId
  {
    IngestAppendsTransactions(accounts, transactions, accountsData, transactionsData, batchId);
  }

  /** A committed write keeps the foreign-key constraint of the store. */
  lemma IngestKeepsReferences(accounts: map<Id, Account>, transactions: map<Id, Transaction>,
                              accountsData: seq<AccountData>, transactionsData: seq<TransactionData>,
                              batchId: string)
    requires ReferencesResolve(accounts, transactions)
    requires Ingest(accounts, transactions, accountsData, transactionsData, batchId).Committed?
    ensures var o := Ingest(accounts, transactions, accountsData, transactionsData, batchId);
      ReferencesResolve(o.accounts, o.transactions)
  {
    var o := Ingest(accounts, transactions, accountsData, transactionsData, batchId);
    IngestStoresNewAccounts(accounts, transactions, accountsData, transactionsData, batchId);
    IngestAppendsTransactions(accounts, transactions, accountsData, transactionsData, batchId);
    forall id | id in o.transactions ensures o.transactions[id].accountId in o.accounts {
      if id !in transactions {
        var j :| 0 <= j < |transactionsData| && transactionsData[j].transactionId == id;
        assert ReferencesKnown(o.accounts, transactionsData);
      }
    }
  }

  /** Re-submitting only stored accounts leaves the account table as it was. */
  lemma IngestResubmissionKeepsAccounts(accounts: map<Id, Account>, transactions: map<Id, Transaction>,
                                        accountsData: seq<AccountData>, transactionsData: seq<TransactionData>,
                                        batchId: string)
    requires forall j :: 0 <= j < |accountsData| ==> accountsData[j].accountId in accounts
    requires Ingest(accounts, transactions, accountsData, transactionsData, batchId).Committed?
    ensures Ingest(accounts, transactions, accountsData, transactionsData, batchId).accounts == accounts
  {
    var o := Ingest(accounts, transactions, accountsData, transactionsData, batchId);
    IngestStoresNewAccounts(accounts, transactions, accountsData, transactionsData, batchId);
    forall id | id in accounts ensures o.accounts[id] == accounts[id] {
      IngestFirstWriteWins(accounts, transactions, accountsData, transactionsData, batchId, id);
    }
    assert o.accounts.Keys == accounts.Keys;
  }

  /**
   * When every submitted transaction id is new to the table (the uniqueness
   * check of the serializer's `transaction_id` field), the transaction key is
   * broken only by an id that occurs twice in the request.
   */
  lemma FreshTransactionIdsClashOnlyWithinRequest(accounts: map<Id, Account>, transactions: map<Id, Transaction>,
                                                  accountsData: seq<AccountData>, transactionsData: seq<TransactionData>,
                                                  batchId: string)
    requires forall j :: 0 <= j < |transactionsData| ==> transactionsData[j].transactionId !in transactions
    ensures Ingest(accounts, transactions, accountsData, transactionsData, batchId) == RolledBack(TransactionKeyViolation)
            <==> && !RepeatsNewAccount(accounts, accountsData)
                 && exists i, j :: 0 <= i < j < |transactionsData|
                                   && transactionsData[i].transactionId == transactionsData[j].transactionId
  {
    IngestRefusals(accounts, transactions, accountsData, transactionsData, batchId);
  }
}
