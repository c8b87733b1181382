/** The manual-entry endpoint (pages/api/manual-entry.js): the method and
    configuration guards, the validation of the posted ranking and rating,
    the row handed to the database and the status of each outcome. */
module ManualEntryApi {
  import opened Js
  import opened Api

  datatype Request = Request(httpMethod: string, body: Fields)

  /** `NEXT_PUBLIC_SUPABASE_URL` and `SUPABASE_SERVICE_ROLE_KEY`. */
  datatype Env = Env(url: Option<string>, serviceKey: Option<string>)

  const InvalidRanking := "Invalid ranking"
  const RankingRule := "Ranking must be a positive number"
  const InvalidRating := "Invalid rating"
  const RatingRule := "Rating must be between 0 and 5"
  const SaveFailed := "Failed to save entry"
  const Saved := "Entry saved successfully"

  /** `!ranking || isNaN(ranking) || ranking < 1`. */
  function RankingRejected(v: Value): (b: bool)
    ensures !b ==> Truthy(v) && ToNumber(v).Some? && ToNumber(v).value >= 1.0
    ensures v.Undefined? || v.Null? ==> b
    ensures v.Num? ==> (b <==> v.x < 1.0)
    ensures v.Bool? ==> (b <==> !v.b)
    ensures v.Str? ==> (b <==> v.s == [] || StringToNumber(v.s).None? || StringToNumber(v.s).value < 1.0)
  {
    !Truthy(v) || IsNaN(v) || LessThan(v, 1.0)
  }

  /** A rating that is present and `isNaN(rating) || rating < 0 || rating > 5`. */
  function RatingRejected(v: Value): (b: bool)
    ensures !b <==> v.Null? || v.Undefined? || (ToNumber(v).Some? && 0.0 <= ToNumber(v).value <= 5.0)
  {
    !v.Null? && !v.Undefined? && (IsNaN(v) || LessThan(v, 0.0) || GreaterThan(v, 5.0))
  }

  /** `insertData`: the ranking through `parseInt`, the rating through
      `parseFloat` when truthy, the rating count when truthy, the time of the
      request and the `manual` mark. */
  function InsertData(body: Fields, now: string): (r: Insert)
    ensures r.entryType == Some("manual") && r.scrapedAt == Some(now)
    ensures r.ranking == ParseInt(body.ranking)
    ensures r.rating.Some? ==> Truthy(body.rating) && r.rating == ParseFloat(body.rating)
    ensures Truthy(body.rating) ==> r.rating == ParseFloat(body.rating)
    ensures r.ratingCount.Some? <==> Truthy(body.ratingCount)
    ensures r.ratingCount == OrNull(body.ratingCount)
  {
    Insert(
      ParseInt(body.ranking),
      if Truthy(body.rating) then ParseFloat(body.rating) else None,
      OrNull(body.ratingCount),
      Some(now),
      Some("manual"))
  }

  /** The request passes every guard of the handler. */
  function Accepted(req: Request, env: Env): (b: bool)
    ensures b ==> req.httpMethod == "POST" && EnvSet(env.url) && EnvSet(env.serviceKey)
    ensures b ==> ToNumber(req.body.ranking).Some? && ToNumber(req.body.ranking).value >= 1.0
    ensures b && !req.body.rating.Null? && !req.body.rating.Undefined? ==>
              ToNumber(req.body.rating).Some? && 0.0 <= ToNumber(req.body.rating).value <= 5.0
  {
    && req.httpMethod == "POST"
    && EnvSet(env.url) && EnvSet(env.serviceKey)
    && !RankingRejected(req.body.ranking)
    && !RatingRejected(req.body.rating)
  }

  /** The reply to a request, given the time `now` and what the insert
      produced if it is issued. */
  function Handle(req: Request, env: Env, now: string, outcome: InsertOutcome): (r: Handled<Insert>)
    ensures r.request.Some? <==> Accepted(req, env)
    ensures r.request.Some? ==> r.request.value == InsertData(req.body, now)
    ensures r.reply.status == 405 <==> req.httpMethod != "POST"
    ensures r.reply.status == 400 <==>
              && req.httpMethod == "POST" && EnvSet(env.url) && EnvSet(env.serviceKey)
              && (RankingRejected(req.body.ranking) || RatingRejected(req.body.rating))
    ensures r.reply.status == 200 <==> Accepted(req, env) && outcome.Inserted?
    ensures r.reply.status in {200, 400, 405, 500}
    ensures SuccessFlag(r.reply.body) == Some(true) <==> r.reply.status == 200
    ensures r.reply.status == 200 ==> r.reply.body == SavedBody(outcome.row, Some(Saved))
    ensures Accepted(req, env) && outcome.InsertFailed? ==>
              r.reply == Reply(500, ErrorBody(SaveFailed, Some(outcome.message)))
    ensures Accepted(req, env) && outcome.InsertThrew? ==>
              r.reply == Reply(500, ErrorBody(InternalError, Some(outcome.message)))
  {
    if req.httpMethod != "POST" then
      Handled(Reply(405, ErrorBody(MethodNotAllowed, None)), None)
    else if !EnvSet(env.url) || !EnvSet(env.serviceKey) then
      Handled(Reply(500, ErrorBody(MissingConfig, Some(EnvNotSet))), None)
    else if RankingRejected(req.body.ranking) then
      Handled(Reply(400, ErrorBody(InvalidRanking, Some(RankingRule))), None)
    else if RatingRejected(req.body.rating) then
      Handled(Reply(400, ErrorBody(InvalidRating, Some(RatingRule))), None)
    else
      var insert := InsertData(req.body, now);
      var reply := match outcome
        case Inserted(row) => Reply(200, SavedBody(row, Some(Saved)))
        case InsertFailed(message) => Reply(500, ErrorBody(SaveFailed, Some(message)))
        case InsertThrew(message) => Reply(500, ErrorBody(InternalError, Some(message)));
      Handled(reply, Some(insert))
  }

  /** The guards run in order: the method first, then the configuration,
      then the ranking, then the rating; each failure hides the later ones. */
  lemma GuardOrder(req: Request, env: Env, now: string, outcome: InsertOutcome)
    ensures var r := Handle(req, env, now, outcome).reply;
            && (req.httpMethod != "POST" ==> r == Reply(405, ErrorBody(MethodNotAllowed, None)))
            && (req.httpMethod == "POST" && !(EnvSet(env.url) && EnvSet(env.serviceKey)) ==>
                  r == Reply(500, ErrorBody(MissingConfig, Some(EnvNotSet))))
            && (req.httpMethod == "POST" && EnvSet(env.url) && EnvSet(env.serviceKey)
                && RankingRejected(req.body.ranking) ==>
                  r == Reply(400, ErrorBody(InvalidRanking, Some(RankingRule))))
            && (req.httpMethod == "POST" && EnvSet(env.url) && EnvSet(env.serviceKey)
                && !RankingRejected(req.body.ranking) && RatingRejected(req.body.rating) ==>
                  r == Reply(400, ErrorBody(InvalidRating, Some(RatingRule))))
  {
  }

  /** An accepted ranking given as a number, or as text without an
      exponent mark, is stored as its integer part, which is at least 1. */
  lemma StoredRankingIsIntegerPart(body: Fields, now: string)
    requires !RankingRejected(body.ranking)
    requires body.ranking.Num? || body.ranking.Str?
    requires body.ranking.Str? ==> PlainDecimalText(body.ranking.s)
    ensures var x := ToNumber(body.ranking).value;
            InsertData(body, now).ranking == Some(Trunc(x)) && Trunc(x) >= 1
  {
    if body.ranking.Str? {
      ParseIntOfNumber(body.ranking.s);
    }
  }

  /** Text `0.<b>e<x>` with nonzero digits b and x, such as "0.5e1", reads
      as a number of at least 1 and passes the ranking check; but
      `parseInt` stops at the dot, so the row stores a ranking of 0. */
  lemma ExponentRankingStoredZero(u: string, rating: Value, ratingCount: Value, now: string)
    requires |u| == 5 && u[0] == '0' && u[1] == '.' && '1' <= u[2] <= '9' && u[3] == 'e' && '1' <= u[4] <= '9'
    ensures !RankingRejected(Str(u))
    ensures InsertData(Fields(Str(u), rating, ratingCount), now).ranking == Some(0)
  {
    TenthExponentReads(u);
    TextRankingPasses(u);
    TextRankingStored(u, 0, rating, ratingCount, now);
  }

  /** `0.<b>e<x>` reads as a number of at least 1 and parses to 0. */
  lemma TenthExponentReads(u: string)
    requires |u| == 5 && u[0] == '0' && u[1] == '.' && '1' <= u[2] <= '9' && u[3] == 'e' && '1' <= u[4] <= '9'
    ensures StringToNumber(u).Some? && StringToNumber(u).value >= 1.0
    ensures ParseIntString(u) == Some(0)
  {
    var b, p := DigitValue(u[2]), DigitValue(u[4]);
    assert StringToNumber(u) == Some(Scaled(DigitValue('0') as real + b as real / 10.0, p))
        && ParseIntString(u) == Some(DigitValue('0')) by {
      ExponentAfterFraction(u, '0', u[2], u[4]);
    }
    TenthScaledUp(u, b, p);
  }

  /** Ranking text that reads as a number of at least 1 passes the check. */
  lemma TextRankingPasses(u: string)
    requires StringToNumber(u).Some? && StringToNumber(u).value >= 1.0
    ensures !RankingRejected(Str(u))
  {
  }

  /** Ranking text is stored as whatever `parseInt` makes of it. */
  lemma TextRankingStored(u: string, k: int, rating: Value, ratingCount: Value, now: string)
    requires ParseIntString(u) == Some(k)
    ensures InsertData(Fields(Str(u), rating, ratingCount), now).ranking == Some(k)
  {
  }

  /** Text reading as 0.b scaled by a positive power of ten reads as at
      least 1 when b is not 0. */
  lemma TenthScaledUp(u: string, b: nat, p: nat)
    requires 1 <= b && 1 <= p
    requires StringToNumber(u) == Some(Scaled(DigitValue('0') as real + b as real / 10.0, p))
    ensures StringToNumber(u).Some? && StringToNumber(u).value >= 1.0
  {
    TenthScaledBound(b, p);
  }

  /** 0.b scaled by a positive power of ten is at least 1 when b is not 0. */
  lemma TenthScaledBound(b: nat, p: nat)
    requires 1 <= b && 1 <= p
    ensures Scaled(DigitValue('0') as real + b as real / 10.0, p) >= 1.0
  {
    Pow10AtLeastTen(p);
    assert DigitValue('0') == 0;
    assert (b as real / 10.0) * Pow10(p) as real >= (1.0 / 10.0) * 10.0;
  }

  /** Text `<d>e<x>` with nonzero digits, such as "1e3", passes the ranking
      check as d times ten to the power x, but the row stores only d. */
  lemma ExponentRankingTruncated(u: string, rating: Value, ratingCount: Value, now: string)
    requires |u| == 3 && '1' <= u[0] <= '9' && u[1] == 'e' && '1' <= u[2] <= '9'
    ensures !RankingRejected(Str(u))
    ensures InsertData(Fields(Str(u), rating, ratingCount), now).ranking == Some(DigitValue(u[0]))
    ensures Trunc(ToNumber(Str(u)).value) >= 10 * DigitValue(u[0])
  {
    ExponentAfterWhole(u, u[0], u[2]);
    ScaledDigitBound(DigitValue(u[0]), DigitValue(u[2]));
    TextRankingPasses(u);
    TextRankingStored(u, DigitValue(u[0]), rating, ratingCount, now);
  }

  /** d scaled by a positive power of ten is at least 10 d. */
  lemma ScaledDigitBound(d: nat, p: nat)
    requires d >= 1 && p >= 1
    ensures Scaled(d as real, p) >= 10.0 * d as real >= 1.0
    ensures Trunc(Scaled(d as real, p)) >= 10 * d
  {
    Pow10AtLeastTen(p);
    assert d as real * Pow10(p) as real >= d as real * 10.0;
  }

  /** Text `0b<digits>` or `0o<digits>` worth at least 1, such as "0b11",
      passes the ranking check in base 2 or 8; but `parseInt` stops at the
      letter, so the row stores a ranking of 0. */
  lemma RadixRankingStoredZero(x: char, h: string, rating: Value, ratingCount: Value, now: string)
    requires RadixOf(x) == 2 || RadixOf(x) == 8
    requires h != [] && forall i :: 0 <= i < |h| ==> IsRadixDigit(RadixOf(x), h[i])
    requires RadixDigitsValue(RadixOf(x), h) >= 1
    ensures !RankingRejected(Str(['0', x] + h))
    ensures InsertData(Fields(Str(['0', x] + h), rating, ratingCount), now).ranking == Some(0)
  {
    var u := ['0', x] + h;
    NumberOfRadixDigits(x, h);
    TextRankingPasses(u);
    ParseIntOfLeadingDigit(u, '0');
    TextRankingStored(u, 0, rating, ratingCount, now);
  }

  /** `insertData` with the ranking stored as the integer part of the
      number the ranking check read, `Math.trunc(Number(ranking))`. */
  function IntendedInsertData(body: Fields, now: string): (r: Insert)
    ensures r.ranking.Some? <==> ToNumber(body.ranking).Some?
    ensures r.ranking.Some? ==> r.ranking.value == Trunc(ToNumber(body.ranking).value)
    ensures r.rating == InsertData(body, now).rating && r.ratingCount == InsertData(body, now).ratingCount
    ensures r.scrapedAt == Some(now) && r.entryType == Some("manual")
  {
    InsertData(body, now).(ranking := match ToNumber(body.ranking)
                                      case Some(x) => Some(Trunc(x))
                                      case None => None)
  }

  /** With the intended ranking, every ranking the check accepts is stored
      as an integer of at least 1. */
  lemma IntendedRankingAtLeastOne(body: Fields, now: string)
    requires !RankingRejected(body.ranking)
    ensures IntendedInsertData(body, now).ranking.Some?
    ensures IntendedInsertData(body, now).ranking.value >= 1
  {
  }

  /** The intended ranking agrees with the stored one on numbers and on
      text without an exponent mark. */
  lemma IntendedAgreesOnPlainRankings(body: Fields, now: string)
    requires !RankingRejected(body.ranking)
    requires body.ranking.Num? || body.ranking.Str?
    requires body.ranking.Str? ==> PlainDecimalText(body.ranking.s)
    ensures IntendedInsertData(body, now) == InsertData(body, now)
  {
    StoredRankingIsIntegerPart(body, now);
  }

  /** A missing or null rating is never rejected. */
  lemma AbsentRatingPasses(v: Value)
    requires v.Null? || v.Undefined?
    ensures !RatingRejected(v)
  {
  }

  /** A rating of 0 is valid but falsy, so it is stored as null; so is an
      empty rating count. */
  lemma FalsyFieldsStoredNull(ranking: Value, now: string)
    ensures !RatingRejected(Num(0.0))
    ensures InsertData(Fields(ranking, Num(0.0), Str("")), now).rating.None?
    ensures InsertData(Fields(ranking, Num(0.0), Str("")), now).ratingCount.None?
  {
  }

  /** `true` passes the ranking check (it converts to 1) but `parseInt(true)`
      is NaN, so the stored ranking is null. */
  lemma BooleanRankingStoredNull(rating: Value, ratingCount: Value, now: string)
    ensures !RankingRejected(Bool(true))
    ensures InsertData(Fields(Bool(true), rating, ratingCount), now).ranking.None?
  {
  }
}
