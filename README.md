# Lucro transaction ingestion, enrichment and summary — a Dafny model

Lucro is a Django service that takes a batch of bank accounts and transactions in one POST, stores them atomically, offers a Celery task that categorises the transactions of one batch, and answers per-account summaries over a date window. This project models that core in Dafny and proves properties of the model:

- **Ingestion** (`CompositeCreationSerializer.create`).
  - Submitted accounts that already exist are skipped: the stored row wins.
  - The other accounts and all transactions are bulk-inserted inside one database transaction.
  - Every new transaction gets the same batch id (a parameter standing for `str(uuid4())`), no category (NULL) and the `pending` status.
  - The primary keys and the foreign key from transaction to account are enforced. A violation rolls back the whole batch.
  - `Ingestion` is the pure specification. `Database.Store` is a class whose two tables are `map` fields. Its `Create` method runs the source's loops and is proved against that specification.
- **Enrichment** (`categorise_transactions`, `determine_transaction_category`).
  - The keyword classifier is a pure function (`Categorisation`).
  - The worker is a loop over the rows of one batch (`Database.Store.CategoriseTransactions`), run on a batch id given to it; nothing in the modelled code enqueues it. The classifier it calls is a parameter that may fail.
- **Summary** (`TransactionManager.account_summary`).
  - The account/date filter, the metrics, the top five categories and the status breakdown are functions over the table's rows in scan order (`Summary`).
  - The status dictionary is built by a loop method.
- **Views** (`BulkAccountTransactionView.post`, `SummaryAccountView.get`).
  - The date validation of the summary query is a pure function.
  - Each view is a method returning a response with its HTTP status (`Views`).

Files:

| file | contents |
|---|---|
| `wrappers.dfy` | `Option`, `Result` |
| `models.dfy` | account and transaction records, ingestion status, the foreign-key invariant |
| `tables.dfy` | `bulk_create` on a keyed table: keys, rows stored, rows kept |
| `ingestion.dfy` | the specification of a batch write and its lemmas |
| `categorisation.dfy` | the classifier, its rule-table reading, and the specification of the worker |
| `summary.dfy` | the account summary |
| `database.dfy` | the `Store` class and its imperative operations |
| `views.dfy` | the two endpoints |

Where the code and its documentation or tests disagree, the model follows the code:

- **No pending-only guard.** The worker reprocesses every row of the batch, whatever its status. `Categorisation.CompletedRowIsReclassified` shows the consequence. A row already `Completed` as `"Shopping"` with description `"Store"` ends up categorised `"Other"`. `test_tasks.py` expects it to be left alone.
- **No failure for empty descriptions.** The classifier never raises. A description without any keyword, the empty one included, is `Other`, and the row is `Completed`. `test_tasks.py` expects `Failed` for an empty description. `Categorisation.EmptyDescriptionIsOther` and `Categorisation.ShippedClassifierCompletesBatch` state what the code does.
- **Top categories are ordered by raw spend.** `order_by("-total_spend")` sorts the raw, non-positive spend sums in descending order. The list therefore holds the five categories with the *smallest* spend magnitude, smallest first (`Summary.TopCategoriesOrder`, `Summary.TopCategoriesSelection`). The model keeps this ordering.

Amounts are integers of cents. Days are integers. Identifiers and texts are strings.

## Model

| member | source | states |
|---|---|---|
| Tables.BulkInsert | src/transact/serializers.py:55-59 | defines `bulk_create` on a keyed table: the rows are stored under their keys one after another, in list order |
| Tables.BulkInsertKeys | src/transact/serializers.py:55 | after a bulk insert the table's keys are the old keys plus the rows' keys |
| Tables.BulkInsertKeepsOthers | src/transact/serializers.py:55 | a stored row whose key no inserted row carries is unchanged |
| Tables.BulkInsertStoresRows | src/transact/serializers.py:59 | with distinct keys, every inserted row is stored under its key |
| Tables.KeysDistinctSnoc | src/transact/serializers.py:59 | appending a row keeps keys distinct exactly when its key is new to the list |
| Tables.BulkInsertSnoc | src/transact/serializers.py:55 | inserting one more row of a prefix is one map update |
| Tables.CanInsertSnoc | src/transact/serializers.py:55 | a row whose key the partial insert lacks keeps the primary key satisfied |
| Tables.KeyClash | src/transact/serializers.py:55 | a row whose key the partial insert holds breaks the primary key: the key is stored or repeated earlier |
| Database.BulkCreate | src/transact/serializers.py:55 | `bulk_create` succeeds exactly when no key is stored or repeated; on success the table is the bulk insert; on failure the reported key is stored or repeated |
| Database.CheckReferences | src/transact/models.py:101 | the commit-time foreign-key check answers true exactly when every transaction names a known account |
| Database.Store.StageAccounts | src/transact/serializers.py:41-52 | the staged accounts are exactly the submitted accounts whose ids are not stored, in request order |
| Database.Store.Create | src/transact/serializers.py:31-64 | the store takes exactly the outcome of `Ingestion.Ingest`: both tables updated and the response returned, or an integrity violation reported and both tables unchanged; the foreign-key invariant is kept |
| Ingestion.AccountsToCreate | src/transact/serializers.py:47-52 | defines `accounts_to_create`: the submitted accounts whose ids are not stored, in request order, repeats included |
| Ingestion.Ingest | src/transact/serializers.py:31-64 | defines the batch write: the account insert, then the transaction insert of the pending, uncategorised rows carrying the batch id, then the commit-time foreign-key check; the first violation rolls everything back, otherwise both tables and the response are committed |
| Ingestion.AccountsToCreateContents | src/transact/serializers.py:47-52 | no staged account is stored, each submitted unstored account is staged, and after the insert every submitted id has an account |
| Ingestion.RepeatsNewAccountSplit | src/transact/serializers.py:50-52 | a new account id is repeated in a request exactly when it is repeated in its prefix or the last account is new and repeats an earlier id |
| Ingestion.AccountsToCreateDistinct | src/transact/serializers.py:50-55 | the staged accounts carry distinct keys exactly when no unstored account id is submitted twice |
| Ingestion.IngestRefusals | src/transact/serializers.py:44-59 | the batch fails on the account key exactly when an unstored id is repeated, then on the transaction key exactly when a transaction id is stored or repeated, then on the foreign key exactly when a transaction names an account that is neither stored nor submitted; it commits exactly when none holds |
| Ingestion.IngestFirstWriteWins | src/transact/serializers.py:47-52 | a committed batch leaves every stored account as it was, whatever the request submits for its id |
| Ingestion.IngestStoresNewAccounts | src/transact/serializers.py:50-55 | after a commit the account ids are the stored plus the submitted ones, and each unstored submitted account is stored with its fields |
| Ingestion.IngestAppendsTransactions | src/transact/serializers.py:57-59 | after a commit the transaction ids are the old plus the submitted ones, old rows are unchanged, and each new row has the batch id, status pending, no category and its submitted fields |
| Ingestion.IngestResponse | src/transact/serializers.py:58-63 | the response carries the batch id of the write, every new row has it, and the total is the number of accounts plus the number of transactions submitted |
| Ingestion.IngestKeepsReferences | src/transact/models.py:101 | a committed batch keeps every transaction's account present |
| Ingestion.IngestResubmissionKeepsAccounts | src/transact/serializers.py:47-55 | resubmitting known accounts leaves the account table unchanged |
| Ingestion.FreshTransactionIdsClashOnlyWithinRequest | src/transact/serializers.py:16-24 | when no submitted transaction id is stored (the uniqueness check of the `transaction_id` field), the transaction key fails exactly when an id repeats within the request and the account key holds |
| Categorisation.DetermineCategory | src/transact/task.py:44-61 | defines the classifier: the if/elif chain over the ASCII-lower-cased description, Shopping for amazon, Income for stripe or paypal, Transport for uber or lyft, Software for aws or azure, Other when no keyword occurs |
| Categorisation.FirstMatchIsFirst | src/transact/task.py:52-61 | a first-match rule list answers the category of a matching rule that no earlier rule matches, or the fallback when none matches |
| Categorisation.DetermineCategoryFollowsRules | src/transact/task.py:44-61 | the if/elif chain is the first match of the keyword rules amazon; stripe, paypal; uber, lyft; aws, azure over the lower-cased text, with fallback Other |
| Categorisation.OtherExactlyWhenNoKeyword | src/transact/task.py:51-61 | the category is Other exactly when no rule's keyword occurs in the lower-cased text |
| Categorisation.LowerIdempotent | src/transact/task.py:51 | lower-casing twice is lower-casing once |
| Categorisation.ClassifierIgnoresCase | src/transact/task.py:51 | a description and its lower-cased form get the same category |
| Categorisation.AmazonTakesPrecedence | src/transact/task.py:52-53 | a description mentioning amazon is Shopping, whatever other keyword it has |
| Categorisation.ContainsLetters | src/transact/task.py:52-59 | a text containing a keyword contains each of its characters |
| Categorisation.ClassifiesTestDescriptions | src/transact/tests/test_tasks.py:39-97 | "Amazon order #123" is Shopping and "Uber ride" is Transport |
| Categorisation.EmptyDescriptionIsOther | src/transact/task.py:60-61 | the empty description is Other; the classifier does not raise on it |
| Categorisation.ClassifyRow | src/transact/task.py:25-40 | defines one worker step as it is left: Completed with the chosen category when the classifier answers, Failed with the category untouched when it raises |
| Categorisation.Categorised | src/transact/task.py:21-40 | defines the table after the worker: every row of the batch transformed by one step, every other row unchanged |
| Categorisation.CategorisedScope | src/transact/task.py:21 | the worker adds and removes no row and leaves rows of other batches unchanged |
| Categorisation.CategorisedBatchOutcome | src/transact/task.py:23-40 | each row of the batch ends Completed with the classifier's category, or Failed with its category untouched when the classifier fails; none stays Processing |
| Categorisation.CategorisedChangesOnlyEnrichment | src/transact/task.py:25-39 | the worker changes only the category and the status of a row |
| Categorisation.CategorisedKeepsReferences | src/transact/task.py:23-40 | the worker keeps every transaction's account present |
| Categorisation.CategorisedIdempotent | src/transact/task.py:23-40 | running the worker twice on a batch is running it once |
| Categorisation.ShippedClassifierCompletesBatch | src/transact/task.py:31-40 | with the shipped classifier no row of the batch fails: each ends Completed with the label of its keyword category |
| Categorisation.CompletedRowIsReclassified | src/transact/tests/test_tasks.py:73-104 | a row already Completed as "Shopping" with description "Store" is recategorised "Other", because the worker has no status guard |
| Database.Store.CategoriseTransactions | src/transact/task.py:14-41 | the transaction table becomes the worker's specification applied to the old table; accounts are unchanged; the foreign-key invariant is kept |
| Summary.ApplicableRows | src/transact/models.py:29-33 | defines the filter: the rows of the account whose day lies in the inclusive window, in scan order |
| Summary.ApplicableRowsScope | src/transact/models.py:29-33 | the applicable rows are exactly the rows of the account dated within the window, each with its multiplicity, in scan order |
| Summary.BoundaryDaysExcluded | src/transact/models.py:31-32 | rows dated the day before the start or after the end are not applicable |
| Summary.WindowIsInclusive | src/transact/models.py:31-32 | rows of the account dated on the start or the end day are applicable |
| Summary.SpendSum | src/transact/models.py:37 | the spend sum is never positive, and is zero when no amount is negative |
| Summary.IncomeSum | src/transact/models.py:38 | the income sum is never negative, and is zero when no amount is positive |
| Summary.SpendAndIncomeSplitSum | src/transact/models.py:35-39 | income plus raw spend is the sum of all amounts |
| Summary.ComputeMetrics | src/transact/models.py:35-42 | defines the metrics: the row count, the magnitude of the negative sum (0 when NULL), the positive sum (0 when NULL), and income minus spend |
| Summary.MetricsMeaning | src/transact/models.py:35-42 | the count is the number of rows, spend is the magnitude of the negative amounts, income the sum of the positive ones, and net is income minus spend, the sum of all amounts |
| Summary.MetricsExample | src/transact/models.py:35-42 | amounts -12.34 and 100.00 give count 2, spend 12.34, income 100.00, net 87.66 |
| Summary.CategoriesOfContents | src/transact/models.py:45-46 | the grouped categories are distinct and are exactly those of rows with a category |
| Summary.Groups | src/transact/models.py:44-50 | defines the `values("category").annotate(...)` grouping: one group per category of the categorised rows, in order of first appearance, with its raw spend sum and row count |
| Summary.SortBySpend | src/transact/models.py:51 | defines `order_by("-total_spend")`: a stable insertion sort, descending by raw spend |
| Summary.InsertBySpendElements | src/transact/models.py:51 | inserting a group into the ranking adds exactly that group |
| Summary.InsertBySpendOrdered | src/transact/models.py:51 | insertion keeps the ranking in descending raw spend |
| Summary.InsertBySpendDistinct | src/transact/models.py:51 | insertion of a new category keeps categories distinct |
| Summary.SortBySpendOrdered | src/transact/models.py:51 | the ranking is descending in raw spend and a permutation of the groups |
| Summary.SortBySpendDistinct | src/transact/models.py:51 | sorting keeps categories distinct |
| Summary.GroupsFacts | src/transact/models.py:44-50 | there is one group per category, and each holds that category's raw spend and row count |
| Summary.RankedFacts | src/transact/models.py:44-51 | the ranking has one entry per category, holds each category's group, is distinct and descending in raw spend |
| Summary.TopEntries | src/transact/models.py:51-61 | defines the slice and the mapping: the first five ranked groups, each with its category, the magnitude of its spend and its count |
| Summary.TopCategories | src/transact/models.py:44-61 | defines the top categories: the groups of rows with a category, ranked descending by raw spend, cut to five |
| Summary.TopCategoriesContents | src/transact/models.py:44-61 | at most five entries (fewer only when there are fewer categories), distinct categories present in the rows, each with the magnitude of its rows' spend and its row count |
| Summary.TopCategoriesOrder | src/transact/models.py:51-61 | the entries appear in ascending order of spend magnitude |
| Summary.TopCategoriesSelection | src/transact/models.py:51 | a category left out means five entries are shown, none spending more than it |
| Summary.StatusBreakdown | src/transact/models.py:63 | defines the group-by: one entry per status present in the rows with its row count |
| Summary.CountStatus | src/transact/models.py:63 | defines a status's `Count("transaction_id")`: the number of rows with that status |
| Summary.StatusesOfComplete | src/transact/models.py:63 | a status absent from the breakdown has count zero |
| Summary.ProcessingStatus | src/transact/models.py:63-75 | the dictionary has exactly the four known statuses, each mapped to its row count |
| Summary.StatusCountsBound | src/transact/models.py:63-75 | the four counts add up to at most the row count, and to exactly it when every status is known |
| Summary.ComputeAccountSummary | src/transact/models.py:20-88 | the summary carries the account, the window, and the metrics, top categories and status counts of the applicable rows |
| Views.StatusCode | src/transact/views.py:10-52 | 200 exactly for a summary, 201 for a created batch, 400 for a refused query or payload, 500 for an integrity error |
| Views.ValidateSummaryQuery | src/transact/views.py:21-39 | a missing or empty start date is refused; an accepted window has start ≤ end and both texts parse to its days, the end defaulting to today |
| Views.ValidateSummaryQueryCases | src/transact/views.py:25-39 | an unparsable start is reported before the end; an unparsable end is reported with its text; with both parsed, start after end is refused and otherwise the window is accepted |
| Views.ValidateSummaryQueryAccepts | src/transact/views.py:21-39 | a window is accepted exactly when the start is given, both dates parse to its days and start ≤ end |
| Views.MissingEndMeansToday | src/transact/views.py:22 | an absent or empty end date is today's date |
| Views.StartCheckedFirst | src/transact/views.py:25-28 | without a start date the query is refused before any parsing |
| Models.StatusTextInjective | src/transact/models.py:94-109 | two column values are equal exactly when their texts are, so counting by column text is counting by status |
| Database.ScanRowsCoverTable | src/transact/models.py:29 | reading the table in a scan order yields every stored transaction, at its own position, and nothing else |
| Database.FreshBatchCategorisesOnlyNewRows | src/transact/serializers.py:58-59 | when the write's batch id is new to the table, the worker run on that batch (task.py:21-40) classifies exactly the rows the write added and leaves every older row unchanged |
| Views.GetSummary | src/transact/views.py:20-52 | a refused query answers 400 with its reason; an accepted one answers 200 with the summary of the store's transactions, read in a scan order, over its window; the store is only read |
| Views.PostBatch | src/transact/views.py:11-16 | an invalid payload answers 400 and changes nothing; a valid one answers 201 with the committed outcome, or 500 with the store unchanged when the write violates a key |

## Left out

- Timestamps: `created_at` and `updated_at` are clock values and are not modelled.
- Field validation by the serializers is a parameter of `Views.PostBatch`. It covers field types, `max_digits`, `decimal_places`, and the `max_length` of the fields that are not redeclared: the account's `name`, `type`, `subtype` and `mask`, and the transaction's `transaction_id` and `merchant_name`. It also covers the uniqueness check that the default `transaction_id` field of `TransactionSerializer` carries against stored ids, so a request reusing a stored transaction id is refused there with 400. The redeclared fields `account_id` (both serializers), `iso_currency_code` and `name` have no length check, and stored account ids pass. Amounts are assumed to be whole cents.
- Ingestion.Ingest: column widths are not modelled. The model commits a batch whose account id is over 100 characters or whose currency is over 3 characters. On PostgreSQL such a value raises a database error inside the atomic block, so the batch rolls back and the view answers 500.
- Time zones: `date__date` reduces a datetime to a calendar day. The model uses whole days, and the server time zone is not modelled.
- Clock and date parser: `datetime.now().date()` and `strptime("%Y-%m-%d")` are the parameters `today` and `parseDate` of `Views.ValidateSummaryQuery`.
- Summary serializer: the `AccountSummarySerializer` check in `SummaryAccountView.get` is not modelled. A summary built by `account_summary` is taken to be valid, so its 400 branch does not occur.
- Views.PostBatch: an `IntegrityError` in the view is modelled as a 500 response. Django's error handling beyond that is not modelled. The contract does not tie `validated` to the uniqueness check. A 500 for a transaction id that is already stored therefore arises only when that check is bypassed or loses a race with a concurrent write. With the check in force, `Ingestion.FreshTransactionIdsClashOnlyWithinRequest` shows the transaction-key 500 comes only from an id repeated within the request.
- The task queue: `categorise_transactions` is a Celery task that the modelled code never enqueues. Neither `create` nor the views call `.delay` or `apply_async`; only the tests call the task, directly. The model treats the worker as a standalone operation on a batch id (`Database.Store.CategoriseTransactions`). The Celery decorator, `time.sleep`, `random` and logging are left out. Each worker save is modelled as a map update. The intermediate `Processing` save is visible only inside the loop.
- Concurrency: concurrent requests and concurrent workers are not modelled, and neither are the database's isolation levels.
- Database.Store.CategoriseTransactions: the query's row order is not modelled; the loop takes the batch's rows in any order. The exception path is modelled by a classifier parameter returning `Err`.
- Categorisation.Lower: only ASCII letters are lower-cased. Python's full Unicode `str.lower` is not modelled.
- Category labels: `enums.py` is not part of this model. The labels "Shopping", "Income", "Transport", "Software" and "Other" are assumed; `test_tasks.py` shows "Shopping".
- Summary ordering of NULL sums: a category with no negative amount has a NULL spend sum. It is ranked as a raw sum of 0, which PostgreSQL's `NULLS FIRST` for descending order also puts first.
- Summary ties: among equal raw spends, categories keep the order of their first row. The database's own tie order is unspecified.
- Summary rows: the database's scan order is a parameter of `Views.GetSummary`, any order listing each stored transaction once.
- Batch ids: a batch id is modelled as the canonical text `str(uuid4())` gives, compared as a string. `models.py` stores it in a `UUIDField`. The worker's UUID parsing of its argument (task.py:21) is not modelled. In the source, a text that is not a UUID raises `ValidationError` before any row is visited, and another spelling of a stored UUID selects that batch. In the model, such an argument selects no row whose text differs.
- Database.Store.Create: the freshness of `uuid4()` is not assumed, so `freshBatchId` may equal a stored batch id. A worker run on it then reclassifies the older rows as well. Statements about one write's batch carry `requires forall id :: id in transactions ==> transactions[id].batchId != batchId`, as `Database.FreshBatchCategorisesOnlyNewRows` does.
- Status column: a value other than the four choices is `Unrecognised`. Its text is never one of the four choices' texts.
- Simulator, Celery and URLs: the simulator command (`simulate_integration.py`), `celery.py` and `urls.py` sit outside the core and are not modelled.
- Account deletion: the cascade from account to transactions is never exercised by the core and is not modelled.
