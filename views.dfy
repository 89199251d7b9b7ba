/**
 * The two HTTP endpoints: `POST` of a batch of accounts and transactions, and
 * `GET` of an account's summary over a date window.
 *
 * The clock (`datetime.now().date()`) and the date parser (`strptime` with
 * the `%Y-%m-%d` format) are parameters: `today` is the ISO text of the
 * current day, and `parseDate` answers `None` where `strptime` raises.
 */
module Views {
  import opened Wrappers
  import opened Models
  import opened Summary
  import opened Ingestion
  import opened Database

  /** Parses a `YYYY-MM-DD` text to a day, or fails. */
  type DateParser = string -> Option<Day>

  /** Why a summary query is refused with 400. */
  datatype QueryError =
    | MissingStartDate
    | InvalidDateFormat(text: string)
    | StartAfterEnd

  /** What a view sends back. */
  datatype Response =
    | SummaryBody(summary: AccountSummary)
    | CreatedBody(created: CreateResponse)
    | QueryRejected(error: QueryError)
    | PayloadRejected(errors: seq<string>)
    | IntegrityFailure(violation: Violation)

  /** The HTTP status of a response; an integrity error is not caught by the view. */
  function StatusCode(r: Response): (code: int)
    ensures code == 400 <==> r.QueryRejected? || r.PayloadRejected?
    ensures code == 200 <==> r.SummaryBody?
    ensures code == 201 <==> r.CreatedBody?
    ensures code == 500 <==> r.IntegrityFailure?
  {
    match r
    case SummaryBody(_) => 200
    case CreatedBody(_) => 201
    case QueryRejected(_) => 400
    case PayloadRejected(_) => 400
    case IntegrityFailure(_) => 500
  }

  /** A query parameter that Python treats as false: absent or empty. */
  predicate Blank(param: Option<string>) {
    param.None? || param.value == ""
  }

  /** `end_date`, or today's date when it is absent or empty. */
  function EndText(endParam: Option<string>, today: string): string {
    if Blank(endParam) then today else endParam.value
  }

  /**
   * The date validation of `SummaryAccountView.get`: `start_date` is
   * required; both dates are parsed, start first; the start may not be
   * after the end (equal days are a one-day window).
   */
  function ValidateSummaryQuery(startParam: Option<string>, endParam: Option<string>,
                                today: string, parseDate: DateParser): (r: Result<DateRange, QueryError>)
    ensures r.Ok? ==> r.value.start <= r.value.end
    ensures r.Ok? ==> !Blank(startParam)
                      && parseDate(startParam.value) == Some(r.value.start)
                      && parseDate(EndText(endParam, today)) == Some(r.value.end)
    ensures Blank(startParam) ==> r == Err(MissingStartDate)
  {
    if Blank(startParam) then Err(MissingStartDate)
    else
      var endText := EndText(endParam, today);
      match parseDate(startParam.value)
      case None => Err(InvalidDateFormat(startParam.value))
      case Some(start) =>
        match parseDate(endText)
        case None => Err(InvalidDateFormat(endText))
        case Some(end) =>
          if start > end then Err(StartAfterEnd) else Ok(DateRange(start, end))
  }

  /** Every refusal, with its reason, and the acceptance of a valid window. */
  lemma ValidateSummaryQueryCases(startParam: Option<string>, endParam: Option<string>,
                                  today: string, parseDate: DateParser)
    ensures var r := ValidateSummaryQuery(startParam, endParam, today, parseDate);
      && (!Blank(startParam) && parseDate(startParam.value).None? ==>
            r == Err(InvalidDateFormat(startParam.value)))
      && (!Blank(startParam) && parseDate(startParam.value).Some? && parseDate(EndText(endParam, today)).None? ==>
            r == Err(InvalidDateFormat(EndText(endParam, today))))
      && (!Blank(startParam) && parseDate(startParam.value).Some? && parseDate(EndText(endParam, today)).Some? ==>
            var start := parseDate(startParam.value).value;
            var end := parseDate(EndText(endParam, today)).value;
            r == if start > end then Err(StartAfterEnd) else Ok(DateRange(start, end)))
  {
  }

  /** The query is accepted exactly when both dates parse and are in order. */
  lemma ValidateSummaryQueryAccepts(startParam: Option<string>, endParam: Option<string>,
                                    today: string, parseDate: DateParser, start: Day, end: Day)
    ensures ValidateSummaryQuery(startParam, endParam, today, parseDate) == Ok(DateRange(start, end))
            <==> && !Blank(startParam)
                 && parseDate(startParam.value) == Some(start)
                 && parseDate(EndText(endParam, today)) == Some(end)
                 && start <= end
  {
  }

  /** Leaving `end_date` out, or sending it empty, is asking for today. */
  lemma MissingEndMeansToday(startParam: Option<string>, endParam: Option<string>,
                             today: string, parseDate: DateParser)
    requires Blank(endParam)
    ensures ValidateSummaryQuery(startParam, endParam, today, parseDate)
            == ValidateSummaryQuery(startParam, Some(today), today, parseDate)
  {
  }

  /** The start date is checked before anything is parsed. */
  lemma StartCheckedFirst(endParam: Option<string>, today: string, parseDate: DateParser)
    ensures ValidateSummaryQuery(None, endParam, today, parseDate) == Err(MissingStartDate)
    ensures ValidateSummaryQuery(Some(""), endParam, today, parseDate) == Err(MissingStartDate)
  {
  }

  /**
   * `SummaryAccountView.get`: a refused query answers 400 with its reason;
   * an accepted one answers 200 with the summary of the store's rows in the
   * window. `scan` is the order in which the database reads the table; the
   * view only reads the store.
   */
  method GetSummary(store: Store, scan: seq<Id>, accountId: Id,
                    startParam: Option<string>, endParam: Option<string>,
                    today: string, parseDate: DateParser) returns (response: Response)
    requires IsScanOf(scan, store.transactions)
    ensures match ValidateSummaryQuery(startParam, endParam, today, parseDate)
      case Ok(range) =>
        response.SummaryBody? && StatusCode(response) == 200
        && Summarises(response.summary, ScanRows(store.transactions, scan), accountId, range.start, range.end)
      case Err(e) =>
        response == QueryRejected(e) && StatusCode(response) == 400
  {
    var query := ValidateSummaryQuery(startParam, endParam, today, parseDate);
    match query {
      case Err(e) =>
        response := QueryRejected(e);
      case Ok(range) =>
        var rows := ScanRows(store.transactions, scan);
        var summary := ComputeAccountSummary(rows, accountId, range.start, range.end);
        response := SummaryBody(summary);
    }
  }

  /**
   * `BulkAccountTransactionView.post`: `validated` is the outcome of
   * `serializer.is_valid()`, the payload or its field errors. Errors answer
   * 400 and touch nothing; a valid payload is saved, answering 201 with the
   * create response, or failing with the integrity error the save raises.
   */
  method PostBatch(store: Store, validated: Result<(seq<AccountData>, seq<TransactionData>), seq<string>>,
                   freshBatchId: string) returns (response: Response)
    requires store.Valid()
    modifies store
    ensures store.Valid()
    ensures validated.Err? ==>
      response == PayloadRejected(validated.error) && StatusCode(response) == 400
      && store.accounts == old(store.accounts) && store.transactions == old(store.transactions)
    ensures validated.Ok? ==>
      match Ingest(old(store.accounts), old(store.transactions), validated.value.0, validated.value.1, freshBatchId)
      case Committed(accounts', transactions', created) =>
        response == CreatedBody(created) && StatusCode(response) == 201
        && store.accounts == accounts' && store.transactions == transactions'
      case RolledBack(violation) =>
        response == IntegrityFailure(violation) && StatusCode(response) == 500
        && store.accounts == old(store.accounts) && store.transactions == old(store.transactions)
  {
    match validated {
      case Err(errors) =>
        response := PayloadRejected(errors);
      case Ok((accountsData, transactionsData)) =>
        var saved := store.Create(accountsData, transactionsData, freshBatchId);
        match saved {
          case Ok(created) => response := CreatedBody(created);
          case Err(violation) => response := IntegrityFailure(violation);
        }
    }
  }
}
