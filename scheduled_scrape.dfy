/** The cron endpoint (app/api/scheduled-scrape/route.js): who may trigger
    a scrape, and the reply to its outcome. The scrape itself
    (`scrapeAndSave`) is replaced by its outcome. */
module ScheduledScrape {
  import opened Js
  import opened Api

  /** The headers and the secret the decision reads: `authorization`,
      `x-vercel-cron` and `CRON_SECRET`; None for an absent one. */
  datatype Caller = Caller(authorization: Option<string>, vercelCron: Option<string>)

  /** What `scrapeAndSave` did: the row it saved, or the message of the
      error it threw. */
  datatype ScrapeOutcome = ScrapeSaved(row: Row) | ScrapeFailed(message: string)

  const Unauthorized := "Unauthorized"

  /** The two nested checks as written: a set secret with a token that does
      not match, and then no cron header with the secret still set. */
  function Refused(secret: Option<string>, caller: Caller): (b: bool)
    ensures b ==> EnvSet(secret) && caller.vercelCron != Some("1")
                  && caller.authorization != Some("Bearer " + secret.value)
  {
    if EnvSet(secret) && caller.authorization != Some("Bearer " + secret.value) then
      caller.vercelCron != Some("1") && EnvSet(secret)
    else false
  }

  /** A caller is let through when no secret is set, when it presents the
      secret as a bearer token, or when it carries the cron header. */
  lemma {:induction false} RefusedIff(secret: Option<string>, caller: Caller)
    ensures !Refused(secret, caller) <==>
              || !EnvSet(secret)
              || caller.authorization == Some("Bearer " + secret.value)
              || caller.vercelCron == Some("1")
  {
  }

  /** The reply to a POST; the request part is the time stamp of the scrape
      it started, None when it started none. */
  function Post(secret: Option<string>, caller: Caller, startedAt: string, outcome: ScrapeOutcome, failedAt: string)
    : (r: Handled<string>)
    ensures r.request.None? <==> Refused(secret, caller)
    ensures Refused(secret, caller) ==> r.reply == Reply(401, ErrorBody(Unauthorized, None))
    ensures r.reply.status == 200 <==> !Refused(secret, caller) && outcome.ScrapeSaved?
    ensures r.reply.status == 200 ==>
              r.reply.body == ScrapedBody(startedAt, outcome.row.ranking, outcome.row.rating, outcome.row.id)
    ensures !Refused(secret, caller) && outcome.ScrapeFailed? ==>
              r.reply == Reply(500, ScrapeFailedBody(outcome.message, failedAt))
    ensures r.request.Some? ==> SuccessFlag(r.reply.body) == Some(outcome.ScrapeSaved?)
  {
    if Refused(secret, caller) then Handled(Reply(401, ErrorBody(Unauthorized, None)), None)
    else
      var reply := match outcome
        case ScrapeSaved(row) => Reply(200, ScrapedBody(startedAt, row.ranking, row.rating, row.id))
        case ScrapeFailed(message) => Reply(500, ScrapeFailedBody(message, failedAt));
      Handled(reply, Some(startedAt))
  }

  /** Without a secret nobody is refused; with one, a matching bearer
      token or the cron header is enough, and anything else gets 401. */
  lemma AuthorizationCases(secret: Option<string>, caller: Caller, startedAt: string, outcome: ScrapeOutcome, failedAt: string)
    ensures !EnvSet(secret) ==> Post(secret, caller, startedAt, outcome, failedAt).reply.status != 401
    ensures EnvSet(secret) && caller.authorization == Some("Bearer " + secret.value) ==>
              Post(secret, caller, startedAt, outcome, failedAt).reply.status != 401
    ensures caller.vercelCron == Some("1") ==> Post(secret, caller, startedAt, outcome, failedAt).reply.status != 401
    ensures EnvSet(secret) && caller.authorization != Some("Bearer " + secret.value) && caller.vercelCron != Some("1") ==>
              Post(secret, caller, startedAt, outcome, failedAt).reply == Reply(401, ErrorBody(Unauthorized, None))
  {
    RefusedIff(secret, caller);
  }
}
