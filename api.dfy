/** The data the HTTP handlers and the dashboard exchange: rows of the
    `coinbase_rankings` table, the payloads handed to the database client,
    the outcomes the client reports, and the JSON bodies of the replies. */
module Api {
  import opened Js

  /** A row of `coinbase_rankings` as the database client returns it. */
  datatype Row = Row(
    id: int,
    ranking: Option<int>,
    rating: Option<real>,
    ratingCount: Option<string>,
    scrapedAt: string,
    entryType: Option<string>)

  /** A row as the dashboard components hold it, with `scraped_at` already
      read as a `Date`: milliseconds since the epoch, or None when the
      date is invalid. */
  datatype Point = Point(ranking: Option<int>, time: Option<int>)

  /** The `ranking`, `rating` and rating-count fields of a request body;
      a field the body does not have is `Undefined`. */
  datatype Fields = Fields(ranking: Value, rating: Value, ratingCount: Value)

  /** What `await request.json()` gives: the fields, or the message of the
      exception it throws. */
  datatype JsonBody = Parsed(fields: Fields) | NotJson(message: string)

  /** The object handed to `insert`; None stands for `null` (and for NaN,
      which JSON serialisation turns into `null`). */
  datatype Insert = Insert(
    ranking: Option<int>,
    rating: Option<real>,
    ratingCount: Option<Value>,
    scrapedAt: Option<string>,
    entryType: Option<string>)

  /** A `select('*').gte('scraped_at', since).order(...).limit(...)` query;
      `since` in milliseconds, None for a NaN limit. */
  datatype SelectQuery = SelectQuery(since: int, limit: Option<int>, ascending: bool)

  /** What `insert(...).select().single()` produced. */
  datatype InsertOutcome =
    | Inserted(row: Row)
    | InsertFailed(message: string)
    | InsertThrew(message: string)

  /** What a select produced: the `{ data, error }` pair, or an exception. */
  datatype SelectOutcome =
    | Selected(data: Option<seq<Row>>, error: Option<string>)
    | SelectThrew(message: string)

  datatype Meta = Meta(limit: Option<int>, days: Option<int>, oldestRecord: Option<string>, newestRecord: Option<string>)

  datatype EnvReport = EnvReport(url: string, key: string)

  /** The JSON bodies the handlers send. */
  datatype Body =
    | ErrorBody(error: string, details: Option<string>)
    | ConfigErrorBody(error: string, details: Option<string>, env: EnvReport)
    | ListingBody(data: seq<Row>, count: nat, meta: Meta)
    | SavedBody(record: Row, message: Option<string>)
    | ScrapedBody(timestamp: string, ranking: Option<int>, rating: Option<real>, id: int)
    | ScrapeFailedBody(error: string, timestamp: string)

  datatype Reply = Reply(status: int, body: Body)

  /** A handler's reply together with the database request it issued, if any. */
  datatype Handled<Q> = Handled(reply: Reply, request: Option<Q>)

  /** The `success` key of a body; None where the body has no such key. */
  function SuccessFlag(b: Body): Option<bool> {
    match b
    case ListingBody(_, _, _) => Some(true)
    case SavedBody(_, _) => Some(true)
    case ScrapedBody(_, _, _, _) => Some(true)
    case ScrapeFailedBody(_, _) => Some(false)
    case _ => None
  }

  /** An environment variable is truthy when it is set and not empty. */
  predicate EnvSet(v: Option<string>) {
    v.Some? && v.value != []
  }

  const MethodNotAllowed := "Method not allowed"
  const MissingConfig := "Missing Supabase configuration"
  const EnvNotSet := "Environment variables not set"
  const InternalError := "Internal server error"
  const FetchFailed := "Failed to fetch rankings"

  /** The message of the RangeError `toISOString` throws on an invalid date. */
  const InvalidTimeValue := "Invalid time value"

  const DayMs := 86400000

  /** The largest distance from the epoch a `Date` can hold, in milliseconds. */
  const MaxTimeMs := 8640000000000000

  /** `d = new Date(); d.setDate(d.getDate() - days); d.toISOString()`, in
      milliseconds; None when `toISOString` throws because `days` is NaN or
      the date falls outside the range a `Date` can hold. */
  function DaysAgo(nowMs: int, days: Option<int>): (r: Option<int>)
    ensures r.Some? ==> days.Some? && r.value == nowMs - days.value * DayMs
    ensures r.Some? ==> -MaxTimeMs <= r.value <= MaxTimeMs
    ensures days.None? ==> r.None?
  {
    if days.None? then None
    else
      var t := nowMs - days.value * DayMs;
      if -MaxTimeMs <= t <= MaxTimeMs then Some(t) else None
  }

  /** The default of 30 days reaches back 30 days, when the clock is far
      enough from the edge of the range a `Date` can hold. */
  lemma ThirtyDaysAgo(nowMs: int)
    requires -MaxTimeMs + 30 * DayMs <= nowMs <= MaxTimeMs
    ensures DaysAgo(nowMs, ParseIntString("30")) == Some(nowMs - 30 * DayMs)
  {
    ParseIntOfDigits("30");
    DefaultNumerals();
    DaysAgoInRange(nowMs, 30);
  }

  lemma DaysAgoInRange(nowMs: int, days: int)
    requires -MaxTimeMs <= nowMs - days * DayMs <= MaxTimeMs
    ensures DaysAgo(nowMs, Some(days)) == Some(nowMs - days * DayMs)
  {
  }
}
