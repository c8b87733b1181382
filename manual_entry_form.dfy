/** The manual-entry form (components/ManualEntryForm.js): its five pieces
    of state, the field setters, and `handleSubmit` split at its `await`
    into `Submit` (up to the request) and `Settle` (once the reply is in). */
module ManualEntryForm {
  import opened Js
  import opened Api
  import ManualEntryApi

  datatype FormState = FormState(
    ranking: string,
    rating: string,
    ratingCount: string,
    loading: bool,
    error: Option<string>)

  const Initial := FormState("", "", "", false, None)

  const InvalidRankingMessage := "Please enter a valid ranking (1 or higher)"
  const SaveFailedMessage := "Failed to save entry"

  /** The JSON body posted to the endpoint; None stands for `null`. */
  datatype Payload = Payload(ranking: Option<int>, rating: Option<real>, ratingCount: Option<string>)

  /** How the request ended: the status flag and the parsed JSON of the
      reply, or the message of the exception `fetch` or `json()` threw. */
  datatype ServerReply =
    | Answered(ok: bool, error: Option<string>, details: Option<string>, success: bool, data: Option<Row>)
    | Threw(message: string)

  /** Whether `onSuccess` was called, and with what. */
  datatype Notice = Silent | Delivered(data: Option<Row>)

  /** `!ranking || ranking < 1` on the text of the ranking field: the empty
      text, or text whose number is below 1. Text that is not a number
      compares false and passes. */
  function RankingBlocked(ranking: string): (b: bool)
    ensures ranking == [] ==> b
    ensures ranking != [] && StringToNumber(ranking).None? ==> !b
    ensures !b && StringToNumber(ranking).Some? ==> StringToNumber(ranking).value >= 1.0
    ensures b && ranking != [] ==> StringToNumber(ranking).Some? && StringToNumber(ranking).value < 1.0
  {
    ranking == [] || (StringToNumber(ranking).Some? && StringToNumber(ranking).value < 1.0)
  }

  /** The body of the request, built from the field texts. */
  function PayloadOf(s: FormState): (p: Payload)
    ensures p.ranking == ParseIntString(s.ranking)
    ensures p.rating.Some? ==> s.rating != [] && p.rating == ParseFloatString(s.rating)
    ensures s.rating != [] ==> p.rating == ParseFloatString(s.rating)
    ensures p.ratingCount.Some? <==> s.ratingCount != []
    ensures p.ratingCount.Some? ==> p.ratingCount.value == s.ratingCount
  {
    Payload(
      ParseIntString(s.ranking),
      if s.rating != [] then ParseFloatString(s.rating) else None,
      if s.ratingCount != [] then Some(s.ratingCount) else None)
  }

  /** The state once `handleSubmit` has reached its `await`. */
  function Begin(s: FormState): (r: FormState)
    ensures r.ranking == s.ranking && r.rating == s.rating && r.ratingCount == s.ratingCount
    ensures RankingBlocked(s.ranking) ==> r.loading == s.loading && r.error == Some(InvalidRankingMessage)
    ensures !RankingBlocked(s.ranking) ==> r.loading && r.error.None?
  {
    if RankingBlocked(s.ranking) then s.(error := Some(InvalidRankingMessage))
    else s.(error := None, loading := true)
  }

  /** `result.error || result.details || 'Failed to save entry'`. */
  function FailureMessage(error: Option<string>, details: Option<string>): (m: string)
    ensures m != []
    ensures m == SaveFailedMessage || Some(m) == error || Some(m) == details
    ensures error.Some? && error.value != [] ==> m == error.value
    ensures (error.None? || error.value == []) && details.Some? && details.value != [] ==> m == details.value
    ensures (error.None? || error.value == []) && (details.None? || details.value == []) ==> m == SaveFailedMessage
  {
    if error.Some? && error.value != [] then error.value
    else if details.Some? && details.value != [] then details.value
    else SaveFailedMessage
  }

  /** The state once the request has settled. */
  function Finish(s: FormState, reply: ServerReply): (r: FormState)
    ensures !r.loading
    ensures reply.Answered? && reply.ok && reply.success ==>
              r == FormState("", "", "", false, s.error)
    ensures !(reply.Answered? && reply.ok && reply.success) ==>
              r.error.Some? && r.ranking == s.ranking && r.rating == s.rating && r.ratingCount == s.ratingCount
    ensures reply.Threw? ==> r.error == Some(reply.message)
    ensures reply.Answered? && !reply.ok ==> r.error == Some(FailureMessage(reply.error, reply.details))
    ensures reply.Answered? && reply.ok && !reply.success ==> r.error == Some(SaveFailedMessage)
  {
    match reply
    case Threw(message) => s.(error := Some(message), loading := false)
    case Answered(ok, error, details, success, _) =>
      if !ok then s.(error := Some(FailureMessage(error, details)), loading := false)
      else if success then s.(ranking := "", rating := "", ratingCount := "", loading := false)
      else s.(error := Some(SaveFailedMessage), loading := false)
  }

  /** Whether the parent hears of the new row. */
  function NoticeOf(reply: ServerReply, notifies: bool): (n: Notice)
    ensures n.Delivered? <==> notifies && reply.Answered? && reply.ok && reply.success
    ensures n.Delivered? ==> n.data == reply.data
  {
    if notifies && reply.Answered? && reply.ok && reply.success then Delivered(reply.data) else Silent
  }

  /** The form component. `notifies` says whether an `onSuccess` callback
      was passed. */
  class Form {
    var ranking: string
    var rating: string
    var ratingCount: string
    var loading: bool
    var error: Option<string>
    const notifies: bool

    function State(): FormState
      reads this
    {
      FormState(ranking, rating, ratingCount, loading, error)
    }

    constructor(notifies: bool)
      ensures State() == Initial && this.notifies == notifies
    {
      this.notifies := notifies;
      ranking := "";
      rating := "";
      ratingCount := "";
      loading := false;
      error := None;
    }

    method SetRanking(text: string)
      modifies this
      ensures State() == old(State()).(ranking := text)
    {
      ranking := text;
    }

    method SetRating(text: string)
      modifies this
      ensures State() == old(State()).(rating := text)
    {
      rating := text;
    }

    method SetRatingCount(text: string)
      modifies this
      ensures State() == old(State()).(ratingCount := text)
    {
      ratingCount := text;
    }

    /** `handleSubmit` up to the `fetch`: clears the error, checks the
        ranking, and either records the error or starts loading and yields
        the body to post. */
    method Submit() returns (request: Option<Payload>)
      modifies this
      ensures State() == Begin(old(State()))
      ensures request.Some? <==> !RankingBlocked(old(ranking))
      ensures request.Some? ==> request.value == PayloadOf(old(State()))
    {
      error := None;
      if RankingBlocked(ranking) {
        error := Some(InvalidRankingMessage);
        request := None;
        return;
      }
      loading := true;
      request := Some(PayloadOf(State()));
    }

    /** `handleSubmit` after the `fetch`: reacts to the reply and always
        ends by clearing `loading`. */
    method Settle(reply: ServerReply) returns (notice: Notice)
      modifies this
      ensures State() == Finish(old(State()), reply)
      ensures notice == NoticeOf(reply, notifies)
    {
      notice := Silent;
      match reply {
        case Threw(message) =>
          error := Some(message);
        case Answered(ok, err, details, success, data) =>
          if !ok {
            error := Some(FailureMessage(err, details));
          } else if success {
            ranking := "";
            rating := "";
            ratingCount := "";
            if notifies {
              notice := Delivered(data);
            }
          } else {
            error := Some(SaveFailedMessage);
          }
      }
      loading := false;
    }
  }

  /** Submitting a blocked ranking sends nothing and leaves `loading` as it
      was; a submit that sends a request ends, whatever the reply, with
      `loading` false. */
  lemma SubmitCycle(s: FormState, reply: ServerReply)
    ensures RankingBlocked(s.ranking) ==> Begin(s) == s.(error := Some(InvalidRankingMessage))
    ensures !RankingBlocked(s.ranking) ==> Begin(s).loading && !Finish(Begin(s), reply).loading
    ensures !RankingBlocked(s.ranking) ==>
              (Finish(Begin(s), reply) == Initial <==> reply.Answered? && reply.ok && reply.success)
  {
  }

  /** The JSON object the endpoint receives for a payload. */
  function BodyOf(p: Payload): (f: Fields)
    ensures f.ranking.Null? <==> p.ranking.None?
    ensures p.ranking.Some? ==> f.ranking == Num(p.ranking.value as real)
  {
    Fields(
      if p.ranking.Some? then Num(p.ranking.value as real) else Null,
      if p.rating.Some? then Num(p.rating.value) else Null,
      if p.ratingCount.Some? then Str(p.ratingCount.value) else Null)
  }

  /** A numeric ranking the form lets through, written without an exponent
      or a base prefix, reaches the endpoint as its integer part, which
      passes the endpoint's ranking check. */
  lemma NumericRankingAccepted(s: FormState)
    requires !RankingBlocked(s.ranking) && StringToNumber(s.ranking).Some?
    requires PlainDecimalText(s.ranking)
    ensures PayloadOf(s).ranking == Some(Trunc(StringToNumber(s.ranking).value))
    ensures !ManualEntryApi.RankingRejected(BodyOf(PayloadOf(s)).ranking)
  {
    ParseIntOfNumber(s.ranking);
    SentRankingAccepted(s, Trunc(StringToNumber(s.ranking).value));
  }

  /** A ranking text that `parseInt` reads as k >= 1 is posted as the
      number k, which the endpoint accepts. */
  lemma SentRankingAccepted(s: FormState, k: int)
    requires ParseIntString(s.ranking) == Some(k) && k >= 1
    ensures PayloadOf(s).ranking == Some(k)
    ensures !ManualEntryApi.RankingRejected(BodyOf(PayloadOf(s)).ranking)
  {
    assert BodyOf(PayloadOf(s)).ranking == Num(k as real);
  }

  /** Ranking text `0.<b>e<x>` with nonzero digits, such as "0.5e1", is a
      number of at least 1 and passes the form's check; but it is posted as
      `parseInt` of the text, 0, which the endpoint rejects. */
  lemma TenthExponentRefusedByEndpoint(s: FormState)
    requires |s.ranking| == 5 && s.ranking[0] == '0' && s.ranking[1] == '.' && '1' <= s.ranking[2] <= '9'
    requires s.ranking[3] == 'e' && '1' <= s.ranking[4] <= '9'
    ensures !RankingBlocked(s.ranking)
    ensures PayloadOf(s).ranking == Some(0)
    ensures ManualEntryApi.RankingRejected(BodyOf(PayloadOf(s)).ranking)
  {
    ManualEntryApi.TenthExponentReads(s.ranking);
    SentZeroRefused(s);
  }

  /** A ranking text that `parseInt` reads as 0 is posted as the number 0,
      which the endpoint rejects. */
  lemma SentZeroRefused(s: FormState)
    requires ParseIntString(s.ranking) == Some(0)
    ensures PayloadOf(s).ranking == Some(0)
    ensures ManualEntryApi.RankingRejected(BodyOf(PayloadOf(s)).ranking)
  {
    assert BodyOf(PayloadOf(s)).ranking == Num(0.0);
  }

  /** Text that is not a number passes the form's check but is posted as a
      null ranking, which the endpoint rejects. */
  lemma NonNumericRankingRejected(s: FormState)
    requires s.ranking != [] && StringToNumber(s.ranking).None? && ParseIntString(s.ranking).None?
    ensures !RankingBlocked(s.ranking)
    ensures ManualEntryApi.RankingRejected(BodyOf(PayloadOf(s)).ranking)
  {
  }
}
