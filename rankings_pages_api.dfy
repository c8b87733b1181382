/** The pages-router rankings endpoint (pages/api/rankings.js): it asks
    for the newest rows first, reverses the returned array in place so that
    the oldest comes first, and reports them with their meta data. */
module RankingsPagesApi {
  import opened Js
  import opened Api

  /** `NEXT_PUBLIC_SUPABASE_URL` and `NEXT_PUBLIC_SUPABASE_ANON_KEY`. */
  datatype Env = Env(url: Option<string>, anonKey: Option<string>)

  /** The method and the `limit` and `days` query parameters; None for a
      parameter the query string does not have. */
  datatype Request = Request(httpMethod: string, limit: Option<string>, days: Option<string>)

  /** The rows in the opposite order. */
  function Reversed(s: seq<Row>): (r: seq<Row>)
    ensures |r| == |s|
    ensures forall i :: 0 <= i < |s| ==> r[i] == s[|s| - 1 - i]
  {
    if s == [] then [] else Reversed(s[1..]) + [s[0]]
  }

  /** Reversing twice gives the rows back. */
  lemma ReversedTwice(s: seq<Row>)
    ensures Reversed(Reversed(s)) == s
  {
  }

  /** Rows listed from last to first under an order come out from first to
      last under it. */
  lemma ReversedOrder(s: seq<Row>, before: (Row, Row) -> bool)
    requires forall i, j :: 0 <= i < j < |s| ==> before(s[j], s[i])
    ensures forall i, j :: 0 <= i < j < |s| ==> before(Reversed(s)[i], Reversed(s)[j])
  {
    var r := Reversed(s);
    forall i, j | 0 <= i < j < |s| ensures before(r[i], r[j]) {
      assert r[i] == s[|s| - 1 - i] && r[j] == s[|s| - 1 - j];
    }
  }

  /** A sequence that holds the rows of another from the last to the first
      is its reversal. */
  lemma ReversedByIndex(r: seq<Row>, s: seq<Row>)
    requires |r| == |s|
    requires forall k :: 0 <= k < |s| ==> r[k] == s[|s| - 1 - k]
    ensures r == Reversed(s)
  {
    assert forall k :: 0 <= k < |s| ==> r[k] == Reversed(s)[k];
  }

  /** `rawData.reverse()`: swaps the two ends, moving inwards. */
  method ReverseInPlace(a: array<Row>)
    modifies a
    ensures a[..] == Reversed(old(a[..]))
  {
    ghost var s := a[..];
    var n := a.Length;
    var i := 0;
    while i < n - 1 - i
      invariant 0 <= i && i <= n - i
      invariant forall k :: 0 <= k < i ==> a[k] == s[n - 1 - k]
      invariant forall k :: n - i <= k < n ==> a[k] == s[n - 1 - k]
      invariant forall k :: i <= k < n - i ==> a[k] == s[k]
    {
      a[i], a[n - 1 - i] := a[n - 1 - i], a[i];
      i := i + 1;
    }
    forall k | 0 <= k < n ensures a[..][k] == s[n - 1 - k] {
      if i <= k < n - i {
        assert k == n - 1 - k;
      }
    }
    ReversedByIndex(a[..], s);
  }

  /** `const { limit = '1000', days = '30' } = req.query`: the default
      applies only when the parameter is absent, not when it is empty. */
  function ParamOrDefault(p: Option<string>, fallback: string): (r: string)
    ensures p.Some? ==> r == p.value
    ensures p.None? ==> r == fallback
  {
    if p.Some? then p.value else fallback
  }

  /** `value || null` on a time stamp: the empty stamp becomes null. */
  function Stamp(s: string): (r: Option<string>)
    ensures r.None? <==> s == []
    ensures r.Some? ==> r.value == s
  {
    if s == [] then None else Some(s)
  }

  /** How the configuration error reports one variable. */
  function Report(v: Option<string>): (r: string)
    ensures r == "SET" <==> EnvSet(v)
    ensures r == "SET" || r == "MISSING"
  {
    if EnvSet(v) then "SET" else "MISSING"
  }

  /** The newest-first query, or None when computing its date throws. */
  function Query(req: Request, nowMs: int): (r: Option<SelectQuery>)
    ensures r.Some? <==> DaysAgo(nowMs, ParseIntString(ParamOrDefault(req.days, "30"))).Some?
    ensures r.Some? ==>
              && !r.value.ascending
              && r.value.limit == ParseIntString(ParamOrDefault(req.limit, "1000"))
              && r.value.since == nowMs - ParseIntString(ParamOrDefault(req.days, "30")).value * DayMs
  {
    match DaysAgo(nowMs, ParseIntString(ParamOrDefault(req.days, "30")))
    case None => None
    case Some(since) => Some(SelectQuery(since, ParseIntString(ParamOrDefault(req.limit, "1000")), false))
  }

  /** The 200 reply for rows already in the order they are sent. */
  function Listing(rows: seq<Row>, req: Request): (r: Reply)
    ensures r.status == 200 && r.body.ListingBody?
    ensures r.body.data == rows && r.body.count == |rows|
    ensures r.body.meta.limit == ParseIntString(ParamOrDefault(req.limit, "1000"))
    ensures r.body.meta.days == ParseIntString(ParamOrDefault(req.days, "30"))
    ensures rows == [] ==> r.body.meta.oldestRecord.None? && r.body.meta.newestRecord.None?
    ensures rows != [] ==> r.body.meta.oldestRecord == Stamp(rows[0].scrapedAt)
                           && r.body.meta.newestRecord == Stamp(rows[|rows| - 1].scrapedAt)
  {
    Reply(200, ListingBody(rows, |rows|, Meta(
      ParseIntString(ParamOrDefault(req.limit, "1000")),
      ParseIntString(ParamOrDefault(req.days, "30")),
      if rows != [] then Stamp(rows[0].scrapedAt) else None,
      if rows != [] then Stamp(rows[|rows| - 1].scrapedAt) else None)))
  }

  /** The reply once the query has produced an outcome; `rows` is the
      returned data after the reversal, [] when there was none. */
  function Answer(outcome: SelectOutcome, rows: seq<Row>, req: Request): (r: Reply)
    ensures r.status == 200 <==> outcome.Selected? && outcome.error.None?
    ensures r.status == 200 ==> r == Listing(rows, req)
    ensures r.status != 200 ==> r.status == 500 && r.body.ErrorBody?
    ensures outcome.Selected? && outcome.error.Some? ==> r == Reply(500, ErrorBody(FetchFailed, outcome.error))
    ensures outcome.SelectThrew? ==> r == Reply(500, ErrorBody(InternalError, Some(outcome.message)))
  {
    match outcome
    case SelectThrew(message) => Reply(500, ErrorBody(InternalError, Some(message)))
    case Selected(_, error) =>
      if error.Some? then Reply(500, ErrorBody(FetchFailed, error)) else Listing(rows, req)
  }

  /** `rawData ? rawData.reverse() : []`. */
  function Returned(outcome: SelectOutcome): (r: seq<Row>)
    ensures outcome.Selected? && outcome.data.Some? ==> r == Reversed(outcome.data.value)
    ensures !(outcome.Selected? && outcome.data.Some?) ==> r == []
  {
    if outcome.Selected? && outcome.data.Some? then Reversed(outcome.data.value) else []
  }

  /** What the handler replies, as a function of the request, the
      configuration, the clock and the query's outcome. */
  function Respond(req: Request, env: Env, nowMs: int, outcome: SelectOutcome): (r: Handled<SelectQuery>)
    ensures r.reply.status == 405 <==> req.httpMethod != "GET"
    ensures r.request.Some? <==>
              req.httpMethod == "GET" && EnvSet(env.url) && EnvSet(env.anonKey) && Query(req, nowMs).Some?
    ensures r.request.Some? ==> r.request == Query(req, nowMs)
    ensures req.httpMethod == "GET" && !(EnvSet(env.url) && EnvSet(env.anonKey)) ==>
              r.reply == Reply(500, ConfigErrorBody(MissingConfig, Some(EnvNotSet), EnvReport(Report(env.url), Report(env.anonKey))))
    ensures r.request.Some? ==> r.reply == Answer(outcome, Returned(outcome), req)
    ensures req.httpMethod == "GET" && EnvSet(env.url) && EnvSet(env.anonKey) && Query(req, nowMs).None? ==>
              r.reply == Reply(500, ErrorBody(InternalError, Some(InvalidTimeValue)))
  {
    if req.httpMethod != "GET" then
      Handled(Reply(405, ErrorBody(MethodNotAllowed, None)), None)
    else if !EnvSet(env.url) || !EnvSet(env.anonKey) then
      Handled(Reply(500, ConfigErrorBody(MissingConfig, Some(EnvNotSet), EnvReport(Report(env.url), Report(env.anonKey)))), None)
    else match Query(req, nowMs)
      case None => Handled(Reply(500, ErrorBody(InternalError, Some(InvalidTimeValue))), None)
      case Some(query) => Handled(Answer(outcome, Returned(outcome), req), Some(query))
  }

  /** The handler: the guards, then the returned array reversed in place. */
  method Handle(req: Request, env: Env, nowMs: int, outcome: SelectOutcome) returns (h: Handled<SelectQuery>)
    ensures h == Respond(req, env, nowMs, outcome)
  {
    if req.httpMethod != "GET" {
      return Handled(Reply(405, ErrorBody(MethodNotAllowed, None)), None);
    }
    if !EnvSet(env.url) || !EnvSet(env.anonKey) {
      var report := EnvReport(Report(env.url), Report(env.anonKey));
      return Handled(Reply(500, ConfigErrorBody(MissingConfig, Some(EnvNotSet), report)), None);
    }
    var query := Query(req, nowMs);
    if query.None? {
      return Handled(Reply(500, ErrorBody(InternalError, Some(InvalidTimeValue))), None);
    }
    var rows: seq<Row> := [];
    if outcome.Selected? && outcome.data.Some? {
      rows := ReverseReturned(outcome.data.value);
    }
    h := Handled(Answer(outcome, rows, req), query);
  }

  /** The returned rows put into a fresh array and reversed there. */
  method ReverseReturned(raw: seq<Row>) returns (rows: seq<Row>)
    ensures rows == Reversed(raw)
  {
    var a := new Row[|raw|](i requires 0 <= i < |raw| => raw[i]);
    assert a[..] == raw;
    ReverseInPlace(a);
    rows := a[..];
  }

  /** A successful reply lists the returned rows oldest first: row k is the
      k-th from the end of the newest-first result, and the oldest and newest
      stamps are those of its last and first rows. */
  lemma Chronological(req: Request, env: Env, nowMs: int, outcome: SelectOutcome)
    requires Respond(req, env, nowMs, outcome).reply.status == 200
    requires outcome.Selected? && outcome.data.Some?
    ensures var raw := outcome.data.value;
            var body := Respond(req, env, nowMs, outcome).reply.body;
            && body.count == |raw|
            && (forall k :: 0 <= k < |raw| ==> body.data[k] == raw[|raw| - 1 - k])
            && (raw != [] ==> body.meta.oldestRecord == Stamp(raw[|raw| - 1].scrapedAt)
                              && body.meta.newestRecord == Stamp(raw[0].scrapedAt))
  {
  }

  /** Null rows without an error are reported as an empty listing. */
  lemma NullRowsAreEmpty(req: Request, env: Env, nowMs: int)
    requires req.httpMethod == "GET" && EnvSet(env.url) && EnvSet(env.anonKey) && Query(req, nowMs).Some?
    ensures Respond(req, env, nowMs, Selected(None, None)).reply == Listing([], req)
    ensures Respond(req, env, nowMs, Selected(None, None)).reply.body.count == 0
  {
  }

  /** Absent parameters mean limit 1000 and 30 days. */
  lemma PagesDefaults(httpMethod: string, nowMs: int)
    ensures Query(Request(httpMethod, None, None), nowMs) == Query(Request(httpMethod, Some("1000"), Some("30")), nowMs)
    ensures -MaxTimeMs + 30 * DayMs <= nowMs <= MaxTimeMs ==>
              Query(Request(httpMethod, None, None), nowMs) == Some(SelectQuery(nowMs - 30 * DayMs, Some(1000), false))
  {
    if -MaxTimeMs + 30 * DayMs <= nowMs <= MaxTimeMs {
      DefaultQuery(httpMethod, nowMs);
    }
  }

  lemma DefaultQuery(httpMethod: string, nowMs: int)
    requires -MaxTimeMs + 30 * DayMs <= nowMs <= MaxTimeMs
    ensures Query(Request(httpMethod, None, None), nowMs) == Some(SelectQuery(nowMs - 30 * DayMs, Some(1000), false))
  {
    DefaultLimitParses();
    assert ParamOrDefault(None, "30") == "30";
    assert ParamOrDefault(None, "1000") == "1000";
    ThirtyDaysAgo(nowMs);
  }

  lemma DefaultLimitParses()
    ensures ParseIntString("1000") == Some(1000)
  {
    ParseIntOfDigits("1000");
    DefaultNumerals();
  }


  /** Unlike `||`, the destructuring default leaves an empty parameter
      empty: `days=` reads as NaN days, so computing the date throws. */
  lemma EmptyDaysThrows(req: Request, env: Env, nowMs: int, outcome: SelectOutcome)
    requires req.httpMethod == "GET" && EnvSet(env.url) && EnvSet(env.anonKey)
    requires req.days == Some("")
    ensures Respond(req, env, nowMs, outcome) == Handled(Reply(500, ErrorBody(InternalError, Some(InvalidTimeValue))), None)
  {
  }
}
