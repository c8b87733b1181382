/** The app-router rankings endpoint (app/api/rankings/route.js): `GET`
    lists the rows of the last days in chronological order, `POST` stores a
    ranking. The database client is replaced by its outcome. */
module RankingsRoute {
  import opened Js
  import opened Api

  const RankingRequired := "Ranking is required"
  const SaveRankingFailed := "Failed to save ranking"

  /** The TypeError `data.length` throws when the client returns no error
      and no data. */
  const NullLength := "Cannot read properties of null (reading 'length')"

  /** `searchParams.get(name) || fallback`: an absent or empty parameter
      takes the fallback. */
  function ParamOr(p: Option<string>, fallback: string): (r: string)
    ensures p.Some? && p.value != [] ==> r == p.value
    ensures p.None? || p.value == [] ==> r == fallback
  {
    if p.Some? && p.value != [] then p.value else fallback
  }

  /** The query `GET` issues, or None when computing its date throws. */
  function GetQuery(limit: Option<string>, days: Option<string>, nowMs: int): (r: Option<SelectQuery>)
    ensures r.Some? <==> DaysAgo(nowMs, ParseIntString(ParamOr(days, "30"))).Some?
    ensures r.Some? ==>
              && r.value.ascending
              && r.value.limit == ParseIntString(ParamOr(limit, "100"))
              && r.value.since == nowMs - ParseIntString(ParamOr(days, "30")).value * DayMs
  {
    match DaysAgo(nowMs, ParseIntString(ParamOr(days, "30")))
    case None => None
    case Some(since) => Some(SelectQuery(since, ParseIntString(ParamOr(limit, "100")), true))
  }

  /** The `{ success, data, count, meta }` reply to rows the query returned. */
  function Listing(rows: seq<Row>, limitText: string, daysText: string): (r: Reply)
    ensures r.status == 200 && r.body.ListingBody?
    ensures r.body.data == rows && r.body.count == |rows|
    ensures r.body.meta.limit == ParseIntString(limitText) && r.body.meta.days == ParseIntString(daysText)
    ensures rows == [] ==> r.body.meta.oldestRecord.None? && r.body.meta.newestRecord.None?
    ensures rows != [] ==> r.body.meta.oldestRecord == Some(rows[0].scrapedAt)
                           && r.body.meta.newestRecord == Some(rows[|rows| - 1].scrapedAt)
  {
    Reply(200, ListingBody(rows, |rows|, Meta(
      ParseIntString(limitText),
      ParseIntString(daysText),
      if |rows| > 0 then Some(rows[0].scrapedAt) else None,
      if |rows| > 0 then Some(rows[|rows| - 1].scrapedAt) else None)))
  }

  /** The reply to what the query produced. */
  function Answer(outcome: SelectOutcome, limitText: string, daysText: string): (r: Reply)
    ensures r.status == 200 <==> outcome.Selected? && outcome.error.None? && outcome.data.Some?
    ensures r.status == 200 ==> r == Listing(outcome.data.value, limitText, daysText)
    ensures r.status != 200 ==> r.status == 500 && r.body.ErrorBody?
    ensures outcome.Selected? && outcome.error.Some? ==> r == Reply(500, ErrorBody(FetchFailed, outcome.error))
    ensures outcome.Selected? && outcome.error.None? && outcome.data.None? ==> r == Reply(500, ErrorBody(InternalError, Some(NullLength)))
    ensures outcome.SelectThrew? ==> r == Reply(500, ErrorBody(InternalError, Some(outcome.message)))
  {
    match outcome
    case SelectThrew(message) => Reply(500, ErrorBody(InternalError, Some(message)))
    case Selected(data, error) =>
      if error.Some? then Reply(500, ErrorBody(FetchFailed, error))
      else if data.None? then Reply(500, ErrorBody(InternalError, Some(NullLength)))
      else Listing(data.value, limitText, daysText)
  }

  /** The reply to `GET`, given the clock and what the query produced. */
  function Get(limit: Option<string>, days: Option<string>, nowMs: int, outcome: SelectOutcome): (r: Handled<SelectQuery>)
    ensures r.request == GetQuery(limit, days, nowMs)
    ensures r.request.None? ==> r.reply == Reply(500, ErrorBody(InternalError, Some(InvalidTimeValue)))
    ensures r.request.Some? ==> r.reply == Answer(outcome, ParamOr(limit, "100"), ParamOr(days, "30"))
  {
    match GetQuery(limit, days, nowMs)
    case None => Handled(Reply(500, ErrorBody(InternalError, Some(InvalidTimeValue))), None)
    case Some(query) => Handled(Answer(outcome, ParamOr(limit, "100"), ParamOr(days, "30")), Some(query))
  }

  /** An absent parameter and an empty one both mean limit 100 and 30 days. */
  lemma GetDefaults(nowMs: int, outcome: SelectOutcome, limit: Option<string>, days: Option<string>)
    requires limit.None? || limit == Some("")
    requires days.None? || days == Some("")
    ensures Get(limit, days, nowMs, outcome) == Get(Some("100"), Some("30"), nowMs, outcome)
    ensures -MaxTimeMs + 30 * DayMs <= nowMs <= MaxTimeMs ==>
              GetQuery(limit, days, nowMs) == Some(SelectQuery(nowMs - 30 * DayMs, Some(100), true))
  {
    GetReadsTexts(nowMs, outcome, limit, days, Some("100"), Some("30"));
    if -MaxTimeMs + 30 * DayMs <= nowMs <= MaxTimeMs {
      DefaultQuery(nowMs);
    }
  }

  /** `GET` sees its parameters only through their texts after the fallback. */
  lemma GetReadsTexts(nowMs: int, outcome: SelectOutcome, limit: Option<string>, days: Option<string>,
                      limit': Option<string>, days': Option<string>)
    requires ParamOr(limit, "100") == ParamOr(limit', "100") && ParamOr(days, "30") == ParamOr(days', "30")
    ensures Get(limit, days, nowMs, outcome) == Get(limit', days', nowMs, outcome)
  {
  }

  lemma DefaultQuery(nowMs: int)
    requires -MaxTimeMs + 30 * DayMs <= nowMs <= MaxTimeMs
    ensures GetQuery(Some("100"), Some("30"), nowMs) == Some(SelectQuery(nowMs - 30 * DayMs, Some(100), true))
  {
    DefaultLimitParses();
    assert ParamOr(Some("30"), "30") == "30";
    assert ParamOr(Some("100"), "100") == "100";
    ThirtyDaysAgo(nowMs);
  }

  lemma DefaultLimitParses()
    ensures ParseIntString("100") == Some(100)
  {
    ParseIntOfDigits("100");
    DefaultNumerals();
  }

  /** The payload `POST` inserts: no time stamp and no entry type, the
      ranking through `parseInt`, and falsy rating and rating count as null. */
  function PostInsert(f: Fields): (r: Insert)
    ensures r.scrapedAt.None? && r.entryType.None?
    ensures r.ranking == ParseInt(f.ranking)
    ensures r.rating.Some? ==> Truthy(f.rating) && r.rating == ParseFloat(f.rating)
    ensures !Truthy(f.rating) ==> r.rating.None?
    ensures Truthy(f.rating) ==> r.rating == ParseFloat(f.rating)
    ensures r.ratingCount == OrNull(f.ratingCount)
  {
    Insert(
      ParseInt(f.ranking),
      if Truthy(f.rating) then ParseFloat(f.rating) else None,
      OrNull(f.ratingCount),
      None,
      None)
  }

  /** The reply to `POST`, given the parsed body and what the insert produced. */
  function Post(body: JsonBody, outcome: InsertOutcome): (r: Handled<Insert>)
    ensures r.request.Some? <==> body.Parsed? && Truthy(body.fields.ranking)
    ensures r.request.Some? ==> r.request.value == PostInsert(body.fields)
    ensures body.Parsed? && !Truthy(body.fields.ranking) ==> r.reply == Reply(400, ErrorBody(RankingRequired, None))
    ensures r.reply.status == 201 <==> r.request.Some? && outcome.Inserted?
    ensures r.reply.status == 201 ==> r.reply.body == SavedBody(outcome.row, None)
    ensures r.reply.status in {201, 400, 500}
    ensures SuccessFlag(r.reply.body) == Some(true) <==> r.reply.status == 201
    ensures r.request.Some? && !outcome.Inserted? ==> r.reply.status == 500
    ensures r.request.Some? && outcome.InsertFailed? ==>
              r.reply == Reply(500, ErrorBody(SaveRankingFailed, Some(outcome.message)))
    ensures r.request.Some? && outcome.InsertThrew? ==>
              r.reply == Reply(500, ErrorBody(InternalError, Some(outcome.message)))
    ensures body.NotJson? ==> r.reply == Reply(500, ErrorBody(InternalError, Some(body.message)))
  {
    match body
    case NotJson(message) => Handled(Reply(500, ErrorBody(InternalError, Some(message))), None)
    case Parsed(f) =>
      if !Truthy(f.ranking) then Handled(Reply(400, ErrorBody(RankingRequired, None)), None)
      else
        var reply := match outcome
          case Inserted(row) => Reply(201, SavedBody(row, None))
          case InsertFailed(message) => Reply(500, ErrorBody(SaveRankingFailed, Some(message)))
          case InsertThrew(message) => Reply(500, ErrorBody(InternalError, Some(message)));
        Handled(reply, Some(PostInsert(f)))
  }

  /** Missing, null, 0, false and the empty string are all refused as a
      ranking, and nothing is inserted for them. */
  lemma FalsyRankingRefused(ranking: Value, rating: Value, ratingCount: Value, outcome: InsertOutcome)
    requires ranking in {Undefined, Null, Num(0.0), Bool(false), Str("")}
    ensures Post(Parsed(Fields(ranking, rating, ratingCount)), outcome)
         == Handled(Reply(400, ErrorBody(RankingRequired, None)), None)
  {
  }
}
