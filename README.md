# cb-ranking-monitor in Dafny

A model of the decision and transformation logic of cb-ranking-monitor, a
small Next.js service that follows the App Store chart position of the
Coinbase app. The model covers six parts of the service:

- **Scraper:** the text rules that turn the scraped listing page into a ranking, a rating token and a rating count.
- **Dashboard time window:** the filter the dashboard chart applies to the stored rows.
- **Statistics cards:** the best, worst and change figures and how the change is coloured and worded.
- **Manual entry:** the validation, payload and reply of the endpoint, and the form that posts to it.
- **The two rankings endpoints:** defaults, date cut-off, in-place reversal into chronological order, and reply meta data.
- **Cron endpoint:** its authorisation rule.

Library calls are replaced by their inputs and outcomes. The HTML library
becomes the two element texts, the database client becomes its outcome,
the clock becomes a parameter, and `fetch` becomes the reply it settled with.

Modules, one per source file plus two shared ones:

- `Js` (js.dfy): the JavaScript semantics the handlers rely on.
  - Truthiness, `isNaN` and comparisons with a number.
  - `Number` and `parseFloat` on decimal literals with exponents; `Number` also on `0x`, `0o` and `0b` literals.
  - `parseInt`, which also reads a `0x` prefix in base 16.
  - `trim`, and the `\s` character class.
- `Api` (api.dfy): shared data.
  - Rows and insert payloads.
  - Database outcomes and reply bodies.
  - The `setDate`/`toISOString` date cut-off.
- `Scraper` (scraper.dfy): `lib/scraper.js`.
- `RankingChart` (ranking_chart.dfy): `components/RankingChart.js`.
- `StatsCards` (stats_cards.dfy): `components/StatsCards.js`.
- `ManualEntryApi` (manual_entry_api.dfy): `pages/api/manual-entry.js`.
- `ManualEntryForm` (manual_entry_form.dfy): `components/ManualEntryForm.js`.
  - The component is a class whose methods update its five state fields.
  - `handleSubmit` is split at its `await` into `Submit` and `Settle`.
- `RankingsRoute` (rankings_route.dfy): `app/api/rankings/route.js`.
- `RankingsPagesApi` (rankings_pages_api.dfy): `pages/api/rankings.js`.
  - `rawData.reverse()` is a method that reverses an array in place.
- `ScheduledScrape` (scheduled_scrape.dfy): `app/api/scheduled-scrape/route.js`.

Two details of the code that the model keeps as written:

- **Rating-count separator:** the rating-count pattern matches only the literal bullet U+2022, not other separators.
- **Chart data:** the chart filters its rows by time and never thins them to a maximum number of points.

## Model

| member | source | states |
|---|---|---|
| Js.TrimStart | lib/scraper.js:27 | the result is a suffix of the input, everything cut off is white space, and it does not start with white space |
| Js.TrimEnd | lib/scraper.js:27 | the result is a prefix of the input, everything cut off is white space, and it does not end with white space |
| Js.Trim | lib/scraper.js:27 | `.trim()`: the result neither starts nor ends with white space and is no longer than the input |
| Js.TrimCutsOnlySpace | lib/scraper.js:27 | `.trim()` keeps a contiguous piece of the input: everything before it and everything after it is white space |
| Js.TrimOfTrimmed | lib/scraper.js:27 | text that neither starts nor ends with white space is its own trim |
| Js.TrimOfSpace | lib/scraper.js:55 | white space trims to the empty string |
| Js.TrimStartSkipsSpace | lib/scraper.js:53-55 | leading white space does not affect the start trim |
| Js.SpanUnique | lib/scraper.js:32 | a regex run `p+` is determined uniquely: any n with p holding below it and failing at it is the run length |
| Js.DigitsValueBound | lib/scraper.js:33 | k decimal digits are worth less than 10^k |
| Js.LeadingZeroIgnored | lib/scraper.js:33 | `parseInt(_, 10)` reads base 10: a leading zero changes nothing |
| Js.ScanDecimal | components/ManualEntryForm.js:32 | the longest decimal numeral at the start, none exactly when the text starts with neither a digit nor a dot and a digit. Its integer digits are the whole digit run. After a dot it takes the dot and the whole digit run behind it, and no digit follows the numeral |
| Js.Unsigned | components/ManualEntryForm.js:31 | a leading sign is dropped, nothing else |
| Js.Magnitude | components/ManualEntryForm.js:31 | after `0x` or `0X` there is a magnitude exactly when a hexadecimal digit follows; otherwise exactly when the text starts with a decimal digit |
| Js.ParseIntString | components/ManualEntryForm.js:31 | `parseInt` of text is a number exactly when a magnitude follows the white space and the sign; it is at most 0 after a minus sign and at least 0 otherwise |
| Js.ParseIntOfPlain | components/ManualEntryForm.js:31 | text that starts with neither white space nor a sign parses exactly to its magnitude |
| Js.ParseIntOfDigits | app/api/rankings/route.js:7-8 | a plain run of digits parses to its value |
| Js.ParseIntOfHex | components/ManualEntryForm.js:31 | `0x` or `0X` followed by hexadecimal digits parses to their value in base 16 |
| Js.ParseIntOfBarePrefix | components/ManualEntryForm.js:31 | `0x` with no digit after it is NaN |
| Js.ParseIntNegated | components/ManualEntryForm.js:31 | a minus sign negates what the rest parses to, and keeps NaN as NaN |
| Js.ScanExponent | components/ManualEntryForm.js:32 | an exponent part is `e` or `E`, an optional sign and at least one digit, and none is read otherwise. It takes the whole digit run, and its power is at most 0 after a minus sign and at least 0 otherwise |
| Js.ScanExponentOfDigits | components/ManualEntryForm.js:32 | `e` and a run of digits is an exponent part worth the digits |
| Js.LiteralEnd | components/ManualEntryForm.js:32 | a literal ends after its exponent part when a complete one follows the numeral, and right after the numeral otherwise |
| Js.LiteralValue | components/ManualEntryForm.js:32 | a literal is worth its numeral, scaled by ten to the power of its exponent part when it has one |
| Js.ParseFloatString | components/ManualEntryForm.js:32 | `parseFloat` of text is a number exactly when a decimal numeral follows the white space and the sign |
| Js.ParseFloatOfPlain | components/ManualEntryForm.js:32 | unsigned text without leading white space parses to the value of the literal at its start, exponent part included |
| Js.ParseFloatOfDecimal | components/ManualEntryForm.js:32 | `<digits>.<digits><rest>`, with neither a digit nor an exponent mark opening the rest, parses to the integer digits plus the fraction digits over 10 to the power of their count |
| Js.ParseFloatOfWhole | components/ManualEntryForm.js:32 | `<digits><rest>`, with the rest opening with neither a digit, a dot nor an exponent mark, parses to the value of the digits |
| Js.ParseFloatNegated | components/ManualEntryForm.js:32 | a minus sign negates what the rest parses to, and keeps NaN as NaN |
| Js.StringToNumber | components/ManualEntryForm.js:17 | `Number` of white space is 0, and a literal with a base prefix is never negative |
| Js.NumberIsCompleteLiteral | components/ManualEntryForm.js:17 | `Number(s)` is a number exactly when `s` is white space, a base prefix with its digits, or one signed decimal literal up to trailing white space. On such a decimal literal it agrees with `parseFloat`, and a base-prefixed literal reads as its digits in that base |
| Js.RadixOf | components/ManualEntryForm.js:17 | `x`, `o` and `b`, in either case, select bases 16, 8 and 2, and no other character selects a base |
| Js.RadixLiteral | components/ManualEntryForm.js:17 | a base-prefixed literal is read only when at least one character follows the prefix and every character up to the trailing white space is a digit of that base |
| Js.NumberOfRadixDigits | components/ManualEntryForm.js:17 | `0x`, `0o` or `0b` followed by digits of that base reads as their value in that base |
| Js.NumberOfBareRadix | components/ManualEntryForm.js:17 | a base prefix with no digit after it is NaN |
| Js.HexNumberIsParseInt | components/ManualEntryForm.js:17-31 | on `0x` followed by hexadecimal digits, `Number` and `parseInt` agree |
| Js.NumberOfPlainLiteral | components/ManualEntryForm.js:17 | unsigned text that is one decimal literal up to trailing white space reads as that literal's value |
| Js.NumberOfScientific | components/ManualEntryForm.js:17 | a numeral followed by an exponent part, and nothing else, reads as the numeral scaled by ten to the power of the exponent |
| Js.NumberWithoutExponent | components/ManualEntryForm.js:17 | text `Number` reads that has no exponent mark and no base letter, and is not blank, is one signed numeral up to trailing white space, and reads as its value |
| Js.ParseIntOfLeadingDigit | components/ManualEntryForm.js:31 | a digit followed by anything but a digit or `x` parses to that digit |
| Js.ExponentAfterWhole | components/ManualEntryForm.js:17-31 | `<d>e<x>` reads under `Number` as d times ten to the power x, and under `parseInt` as d |
| Js.ExponentAfterFraction | components/ManualEntryForm.js:17-31 | `<a>.<b>e<x>` reads under `Number` as a.b times ten to the power x, and under `parseInt` as a |
| Js.WholeDigitsOfLargeNumeral | components/ManualEntryForm.js:17 | a numeral worth at least 1 has at least one integer digit |
| Js.ParseIntOfNumber | components/ManualEntryForm.js:17-31 | for text with no exponent mark and no base letter, when `Number(s) >= 1`, `parseInt(s)` is its integer part, which is at least 1 |
| Js.DecimalMagnitude | components/ManualEntryForm.js:17-31 | text that is one decimal numeral with integer digits, up to trailing white space, has those digits as its `parseInt` magnitude |
| Js.Truthy | pages/api/manual-entry.js:26 | the falsy values are exactly `undefined`, `null`, `false`, 0 and the empty string |
| Js.IsNaN | pages/api/manual-entry.js:26 | `isNaN`: only `undefined` and text can be NaN. `undefined` always is, and text is exactly when `Number` cannot read it |
| Js.LessThan | pages/api/manual-entry.js:26 | `v < c` is false for NaN. It compares a number, `null` as 0 and a boolean as 0 or 1 |
| Js.GreaterThan | pages/api/manual-entry.js:35 | `v > c` is false for NaN. It compares a number, `null` as 0 and a boolean as 0 or 1 |
| Js.ToNumber | pages/api/manual-entry.js:26 | `Number(v)`: a number stays itself and `undefined` is NaN |
| Js.Trunc | pages/api/manual-entry.js:45 | rounds toward zero: within 1 of x, on the side of zero |
| Js.ParseInt | pages/api/manual-entry.js:45 | `parseInt(v)`: a number gives its integer part; `undefined`, `null` and booleans give NaN |
| Js.ParseFloat | pages/api/manual-entry.js:46 | `parseFloat(v)`: a number gives itself, text is read by `ParseFloatString`, and `undefined`, `null` and booleans give NaN |
| Js.OrNull | pages/api/manual-entry.js:47 | the or-default to null keeps exactly the truthy values |
| Api.DaysAgo | app/api/rankings/route.js:11-17 | days before now, in milliseconds. It is absent when `days` is NaN or the date leaves the range a `Date` holds, which makes `toISOString` throw |
| Api.ThirtyDaysAgo | app/api/rankings/route.js:8-12 | the default "30" reaches back exactly 30 days |
| Api.DaysAgoInRange | app/api/rankings/route.js:11-12 | a cut-off inside the `Date` range is computed |
| Scraper.FirstRankMark | lib/scraper.js:32 | the leftmost position where `/#\d/` matches, with no match before it; none means no match at all |
| Scraper.RankingOf | lib/scraper.js:29-36 | no ranking exactly when no `#` in the text is followed by a digit |
| Scraper.RankingAtFirstMark | lib/scraper.js:30-35 | the ranking is the value of the whole digit run after the first `#` that starts one |
| Scraper.LinkRanking | lib/scraper.js:26-35 | link text `<prefix>#<digits><rest>` is its own trim and gives the value of the digits |
| Scraper.ExampleLeadingZeros | lib/scraper.js:32-34 | "#007" gives 7 and "#0" gives 0: base 10, and 0 is not excluded |
| Scraper.RatingTokenOf | lib/scraper.js:47-50 | the rating token is the maximal run of digits and dots at the very start, and there is none exactly when the caption starts with anything else |
| Scraper.TokenThen | lib/scraper.js:47-50 | a token followed by a character that does not continue it is read whole |
| Scraper.CaptureStart | lib/scraper.js:53 | where `(.+)` starts after `\s*` backs off: the last line character in the white-space run |
| Scraper.CaptureAt | lib/scraper.js:53 | a match at a bullet fails exactly when only line terminators follow it; a capture is non-empty and holds no line terminator |
| Scraper.LineFrom | lib/scraper.js:53 | `.+` stays inside the text and takes at least one character where a line character stands |
| Scraper.LineFromMaximal | lib/scraper.js:53 | `.+` takes a piece of the text holding only line characters, followed by the end of the text or a line terminator |
| Scraper.CaptureFrom | lib/scraper.js:53 | the leftmost match's capture is non-empty and holds no line terminator |
| Scraper.CaptureFromNone | lib/scraper.js:53-54 | there is no match exactly when no bullet at or after the start has a capture |
| Scraper.RatingCountOf | lib/scraper.js:53-56 | a caption without a bullet has no rating count |
| Scraper.NoBulletNoMatch | lib/scraper.js:53 | `/•\s*(.+)/` cannot match text without a bullet |
| Scraper.CaptureFromSkips | lib/scraper.js:53 | the match search passes over everything before the first bullet |
| Scraper.CaptureAtBullet | lib/scraper.js:53-56 | at a bullet followed by one line of text, the trimmed capture is the trimmed rest of the line; a final bullet gives none |
| Scraper.SingleLineCount | lib/scraper.js:53-56 | on a one-line caption the count is the trimmed text after the first bullet, none when the bullet ends it |
| Scraper.BulletThenCount | lib/scraper.js:53-56 | `<text>•<spaces><count>` gives the count as written |
| Scraper.CaptionTrimmed | lib/scraper.js:40 | a caption that starts and ends with non-space characters is its own trim |
| Scraper.CaptionToken | lib/scraper.js:47-50 | in `<token><spaces>•…` the rating token is the token |
| Scraper.CaptionCount | lib/scraper.js:53-56 | in `<token><spaces>•<spaces><count>` the rating count is the count |
| Scraper.RatingAndCount | lib/scraper.js:42-56 | a caption `<token><spaces>•<spaces><count>` gives the token and the count |
| Scraper.Extract | lib/scraper.js:22-65 | the ranking comes from the trimmed link text. An empty trimmed caption gives no rating and no count. Otherwise both come from the trimmed caption. The time stamp is passed through |
| Scraper.NoMarkNoRanking | lib/scraper.js:29-36 | link text without `#` and a digit, the empty text included, gives no ranking |
| Scraper.PageRecord | lib/scraper.js:22-65 | a listing page of the usual shape gives the ranking, the rating token and the count |
| Scraper.RatingOnly | lib/scraper.js:42-57 | a caption with only a rating gives no count |
| Scraper.CountOnly | lib/scraper.js:42-57 | a caption with only a count gives no rating |
| Scraper.ExamplePage | lib/scraper.js:31-46 | "#20 in Finance" and "4.7 • 1.8M Ratings" give 20, "4.7" and "1.8M Ratings" |
| RankingChart.WindowMs | components/RankingChart.js:42-54 | only the four range names have a window: 6 hours, 24 hours, 7 days and 30 days |
| RankingChart.InWindow | components/RankingChart.js:59 | an invalid date is never in the window; a valid one is exactly when it is at or after the cut-off |
| RankingChart.KeepSince | components/RankingChart.js:59 | every kept point lies in the window, and no more points than given are kept |
| RankingChart.FilterByTimeRange | components/RankingChart.js:36-37 | no data gives no points |
| RankingChart.KeepSinceIsSubsequence | components/RankingChart.js:59 | the filter keeps points in their order |
| RankingChart.KeepSinceCounts | components/RankingChart.js:59 | every point in the window is kept as often as it occurs, and no other point is kept |
| RankingChart.KeepSinceAppend | components/RankingChart.js:59 | filtering a concatenation filters each part |
| RankingChart.KeepSinceIdempotent | components/RankingChart.js:59 | filtering twice is filtering once |
| RankingChart.FilterWindowed | components/RankingChart.js:43-59 | a windowed view is an ordered subsequence holding exactly the in-window points. It holds no point with an invalid date |
| RankingChart.FilterUnwindowed | components/RankingChart.js:37-56 | no data or empty data gives no points for every range; another range name gives the data unchanged |
| RankingChart.FilterIdempotent | components/RankingChart.js:36-60 | filtering the filtered view again with the same range and clock changes nothing |
| RankingChart.Labels | components/RankingChart.js:65-68 | one label per point: its date, or now when the date is invalid |
| RankingChart.WindowedLabels | components/RankingChart.js:59-68 | in a windowed view every label is the point's own date, inside the window |
| RankingChart.Latest | components/RankingChart.js:235-237 | the latest point shown is the last point plotted, and none is shown when nothing is plotted |
| RankingChart.LatestInWindow | components/RankingChart.js:59-237 | the latest point of a window is the last in-window point of the data, none exactly when no point is in the window |
| StatsCards.Rankings | components/StatsCards.js:33 | the non-null rankings are exactly those of the rows |
| StatsCards.MinOf | components/StatsCards.js:34 | `Math.min`: a member no larger than any |
| StatsCards.MaxOf | components/StatsCards.js:35 | `Math.max`: a member no smaller than any |
| StatsCards.StatsOf | components/StatsCards.js:30-39 | current is the last row and previous the one before it. Best and worst are the least and greatest non-null rankings, both absent exactly when there are none. The change is current minus previous and is present exactly when both rankings are truthy |
| StatsCards.BestNotAboveWorst | components/StatsCards.js:34-35 | best never exceeds worst |
| StatsCards.Render | components/StatsCards.js:6-27 | loading wins over everything; missing or empty data shows the empty card; non-empty data that is not loading shows exactly the cards of `StatsOf` the data, and only then are cards shown |
| StatsCards.ChangeColor | components/StatsCards.js:43-46 | green exactly for a negative change, red exactly for a positive one, grey exactly for none or 0 |
| StatsCards.ChangeIcon | components/StatsCards.js:48-51 | the up-right arrow exactly for a negative change, the down-right arrow exactly for a positive one, the flat arrow exactly for none or 0 |
| StatsCards.ChangeSuffix | components/StatsCards.js:66 | " up" exactly for a negative change, " down" exactly for a positive one, nothing for 0 |
| StatsCards.ChangePresentation | components/StatsCards.js:43-66 | the colour, arrow and word agree in both directions. A fall in rank number is green, up-right and " up". A rise is red, down-right and " down". No change, or none known, is grey with a flat arrow |
| StatsCards.ImprovementIsGreen | components/StatsCards.js:37-46 | an improvement between two known rankings is shown green |
| ManualEntryApi.RankingRejected | pages/api/manual-entry.js:26 | a ranking that passes is truthy and reads as a number of at least 1. `undefined` and `null` fail, a number fails exactly below 1, `true` passes and `false` fails, and text fails exactly when empty, unreadable or below 1 |
| ManualEntryApi.RatingRejected | pages/api/manual-entry.js:34-35 | a rating passes exactly when it is absent, null, or reads as a number from 0 to 5 |
| ManualEntryApi.Accepted | pages/api/manual-entry.js:4-41 | an accepted request is a POST with both variables set, its ranking reads as a number of at least 1, and a rating it gives reads as a number from 0 to 5 |
| ManualEntryApi.InsertData | pages/api/manual-entry.js:44-50 | the row is marked manual and stamped with the request time. The ranking is stored through `parseInt`. The rating is stored through `parseFloat` exactly when truthy, and null otherwise. The count is stored exactly when truthy, as given |
| ManualEntryApi.Handle | pages/api/manual-entry.js:3-79 | an insert is issued exactly when every guard passes. 405 means exactly a method other than POST, 400 exactly a failed validation. 200 means the entry was accepted and inserted and has `success`. A database error gives 500 "Failed to save entry" with its message, and a thrown one 500 "Internal server error" with its message |
| ManualEntryApi.GuardOrder | pages/api/manual-entry.js:4-41 | the method check, the configuration check, the ranking check and the rating check run in that order, each hiding the later ones |
| ManualEntryApi.StoredRankingIsIntegerPart | pages/api/manual-entry.js:26-45 | an accepted ranking given as a number, or as text with no exponent mark and no base letter, is stored as its integer part, which is at least 1 |
| ManualEntryApi.TenthExponentReads | pages/api/manual-entry.js:26-45 | `0.<b>e<x>` with nonzero digits reads under `Number` as at least 1, and under `parseInt` as 0 |
| ManualEntryApi.ExponentRankingStoredZero | pages/api/manual-entry.js:26-45 | as written: ranking text `0.<b>e<x>` with nonzero digits, such as "0.5e1", passes the ranking check and is stored as ranking 0 |
| ManualEntryApi.ExponentRankingTruncated | pages/api/manual-entry.js:26-45 | as written: ranking text `<d>e<x>` with nonzero digits, such as "1e3", passes the check as a number of at least 10 d, and is stored as d |
| ManualEntryApi.RadixRankingStoredZero | pages/api/manual-entry.js:26-45 | as written: ranking text `0b` or `0o` with digits worth at least 1, such as "0b11", passes the check and is stored as ranking 0 |
| ManualEntryApi.IntendedInsertData | pages/api/manual-entry.js:44-50 | corrected: the row `InsertData` builds, except that the ranking is the integer part of the number the ranking check read, and null only when there is none |
| ManualEntryApi.IntendedRankingAtLeastOne | pages/api/manual-entry.js:26-45 | corrected: every ranking the check accepts is stored by `IntendedInsertData` as an integer of at least 1 |
| ManualEntryApi.IntendedAgreesOnPlainRankings | pages/api/manual-entry.js:26-45 | the corrected row equals the row as written for every accepted ranking given as a number, or as text with no exponent mark and no base letter |
| ManualEntryApi.AbsentRatingPasses | pages/api/manual-entry.js:34-41 | a missing or null rating always passes |
| ManualEntryApi.FalsyFieldsStoredNull | pages/api/manual-entry.js:35-47 | a rating of 0 passes but is stored as null, and so is an empty rating count |
| ManualEntryApi.BooleanRankingStoredNull | pages/api/manual-entry.js:26-45 | `true` passes the ranking check but is stored as a null ranking |
| ManualEntryForm.RankingBlocked | components/ManualEntryForm.js:17 | empty text is blocked and text `Number` cannot read passes. Other text is blocked exactly when its number is below 1 |
| ManualEntryForm.PayloadOf | components/ManualEntryForm.js:30-34 | the ranking through `parseInt`. The rating through `parseFloat` exactly when its text is not empty, and null otherwise. The count exactly when its text is not empty |
| ManualEntryForm.Begin | components/ManualEntryForm.js:14-23 | the fields are kept. A blocked ranking sets the fixed message and keeps `loading`; otherwise the error is cleared and `loading` set |
| ManualEntryForm.FailureMessage | components/ManualEntryForm.js:40 | the server's error, else its details, else "Failed to save entry"; never empty |
| ManualEntryForm.Finish | components/ManualEntryForm.js:37-61 | `loading` ends false. Success clears the three fields. Any other end sets an error and keeps them: the thrown message, the failure message, or "Failed to save entry" |
| ManualEntryForm.NoticeOf | components/ManualEntryForm.js:49-52 | `onSuccess` is called exactly on a successful reply when it was given, and receives the reply's data |
| ManualEntryForm.Form.constructor | components/ManualEntryForm.js:6-10 | the form starts with empty fields, not loading and no error |
| ManualEntryForm.Form.SetRanking | components/ManualEntryForm.js:85 | only the ranking text changes |
| ManualEntryForm.Form.SetRating | components/ManualEntryForm.js:107 | only the rating text changes |
| ManualEntryForm.Form.SetRatingCount | components/ManualEntryForm.js:125 | only the count text changes |
| ManualEntryForm.Form.Submit | components/ManualEntryForm.js:12-35 | the new state is `Begin` of the old one, and a request is sent exactly when the ranking is not blocked, with the payload of the old fields |
| ManualEntryForm.Form.Settle | components/ManualEntryForm.js:37-61 | the new state is `Finish` of the old one and the reply, and the parent is notified as `NoticeOf` says |
| ManualEntryForm.SubmitCycle | components/ManualEntryForm.js:12-62 | a blocked submit only sets the message. A submit that sends a request ends not loading, and back at the initial state exactly when the reply was a success |
| ManualEntryForm.BodyOf | components/ManualEntryForm.js:30-34 | a null ranking is sent as JSON null, any other as its number |
| ManualEntryForm.NumericRankingAccepted | components/ManualEntryForm.js:17-31 | a numeric ranking the form lets through, written with no exponent mark and no base letter, is sent as its integer part and passes the endpoint's ranking check |
| ManualEntryForm.TenthExponentRefusedByEndpoint | components/ManualEntryForm.js:17-31 | ranking text `0.<b>e<x>` with nonzero digits, such as "0.5e1", passes the form's check but is sent as 0, which the endpoint rejects |
| ManualEntryForm.NonNumericRankingRejected | components/ManualEntryForm.js:17-31 | ranking text that neither `Number` nor `parseInt` can read passes the form's check but is sent as null, which the endpoint rejects |
| RankingsRoute.ParamOr | app/api/rankings/route.js:7-8 | the or-default of a search parameter: an absent or empty parameter takes the fallback |
| RankingsRoute.GetQuery | app/api/rankings/route.js:11-19 | the query is oldest first, limited by `parseInt(limit)`, and reaches back `parseInt(days)` days. There is none when the date throws |
| RankingsRoute.Listing | app/api/rankings/route.js:32-48 | the reply holds the rows and their count. Its meta gives the parsed limit and days, and the first and last stamps, or null for no rows |
| RankingsRoute.Answer | app/api/rankings/route.js:21-59 | 200 exactly when the query returned rows without error. A query error gives 500 with "Failed to fetch rankings"; null rows without an error give 500 "Internal server error" with the TypeError of `data.length`; a thrown query gives 500 "Internal server error" with its message |
| RankingsRoute.Get | app/api/rankings/route.js:4-60 | the query issued is `GetQuery`, a thrown date gives 500 "Invalid time value", and otherwise the reply is `Answer` of the outcome |
| RankingsRoute.GetDefaults | app/api/rankings/route.js:7-8 | absent and empty parameters behave as limit 100 and 30 days |
| RankingsRoute.GetReadsTexts | app/api/rankings/route.js:7-8 | `GET` depends on its parameters only through their texts after the fallback |
| RankingsRoute.DefaultQuery | app/api/rankings/route.js:7-19 | the default query is limit 100, ascending, from 30 days back |
| RankingsRoute.DefaultLimitParses | app/api/rankings/route.js:7 | "100" parses to 100 |
| RankingsRoute.PostInsert | app/api/rankings/route.js:77-83 | no time stamp and no entry type. The ranking through `parseInt`. The rating through `parseFloat` exactly when truthy, and null otherwise. The count when truthy |
| RankingsRoute.Post | app/api/rankings/route.js:62-119 | an insert happens exactly for a parsed body with a truthy ranking, and a falsy ranking gives 400. 201 means exactly an insert that succeeded, with the row and `success`. A failed insert gives 500 "Failed to save ranking" with its message, a thrown one 500 "Internal server error", and so does a body that is not JSON |
| RankingsRoute.FalsyRankingRefused | app/api/rankings/route.js:67-75 | a missing, null, 0, false or empty ranking gives 400 "Ranking is required" and no insert |
| RankingsPagesApi.Reversed | pages/api/rankings.js:41 | row k of the result is row n-1-k of the input |
| RankingsPagesApi.ReversedTwice | pages/api/rankings.js:41 | reversing twice gives the rows back |
| RankingsPagesApi.ReversedOrder | pages/api/rankings.js:32-41 | rows newest first come out oldest first |
| RankingsPagesApi.ReversedByIndex | pages/api/rankings.js:41 | a sequence holding the rows last to first is their reversal |
| RankingsPagesApi.ReverseInPlace | pages/api/rankings.js:41 | the array afterwards is the reversal of the array before |
| RankingsPagesApi.ReverseReturned | pages/api/rankings.js:41 | copying the rows into an array and reversing it yields their reversal |
| RankingsPagesApi.ParamOrDefault | pages/api/rankings.js:26 | the destructuring default applies only to an absent parameter |
| RankingsPagesApi.Stamp | pages/api/rankings.js:58-59 | the or-default to null: only the empty stamp becomes null |
| RankingsPagesApi.Report | pages/api/rankings.js:18-19 | "SET" exactly for a truthy variable, otherwise "MISSING" |
| RankingsPagesApi.Query | pages/api/rankings.js:26-38 | the query is newest first, limited by `parseInt(limit)`, and reaches back `parseInt(days)` days; none when the date throws |
| RankingsPagesApi.Listing | pages/api/rankings.js:51-61 | the reply holds the rows and their count. Its meta gives the parsed limit and days, and the first and last stamps, null for no rows |
| RankingsPagesApi.Answer | pages/api/rankings.js:43-69 | 200 exactly when the query had no error, listing the rows; a query error gives 500 "Failed to fetch rankings"; a thrown query gives 500 "Internal server error" with its message |
| RankingsPagesApi.Returned | pages/api/rankings.js:41 | returned rows are reversed, and null rows become the empty list |
| RankingsPagesApi.Respond | pages/api/rankings.js:3-70 | 405 exactly for a method other than GET. Missing configuration gives 500 with each variable reported. The query is issued exactly when the guards pass and the date does not throw, and the reply answers the reversed rows. A date that throws gives 500 "Internal server error" with "Invalid time value" |
| RankingsPagesApi.Handle | pages/api/rankings.js:3-70 | the handler, reversing the rows in place, replies as `Respond` says |
| RankingsPagesApi.Chronological | pages/api/rankings.js:32-59 | a 200 reply lists the rows oldest first. Its oldest and newest stamps are those of the last and first rows the query returned |
| RankingsPagesApi.NullRowsAreEmpty | pages/api/rankings.js:41-54 | null rows without an error are an empty listing with count 0 |
| RankingsPagesApi.PagesDefaults | pages/api/rankings.js:26-30 | absent parameters behave as limit 1000 and 30 days |
| RankingsPagesApi.DefaultQuery | pages/api/rankings.js:26-38 | the default query is limit 1000, descending, from 30 days back |
| RankingsPagesApi.DefaultLimitParses | pages/api/rankings.js:26 | "1000" parses to 1000 |
| RankingsPagesApi.EmptyDaysThrows | pages/api/rankings.js:26-30 | an empty `days` is not defaulted: the date becomes invalid and the reply is 500 "Invalid time value" |
| ScheduledScrape.Refused | app/api/scheduled-scrape/route.js:13-16 | a refused caller faces a set secret, has no cron header "1" and does not present the secret as a bearer token |
| ScheduledScrape.RefusedIff | app/api/scheduled-scrape/route.js:13-22 | a caller is let through exactly when no secret is set, the bearer token matches, or the cron header is "1" |
| ScheduledScrape.Post | app/api/scheduled-scrape/route.js:6-59 | a refused caller gets 401 "Unauthorized" and starts no scrape. A saved scrape gives 200 with its timestamp, ranking, rating and id. A failed one gives 500 with `success: false` and the message |
| ScheduledScrape.AuthorizationCases | app/api/scheduled-scrape/route.js:13-21 | no secret, a matching token or the cron header each avoid 401; a set secret with neither gives 401 |

## Findings

| source | as written | input that shows it | evidently intended | confidence | as-written member | corrected member |
|---|---|---|---|---|---|---|
| pages/api/manual-entry.js:26-45 | the ranking check reads the ranking with `Number`, but the row stores `parseInt` of it, which stops at a dot, an exponent mark or a `b`/`o` base letter | ranking "0.5e1" (or "0b11") passes the check as 5 (or 3) and is stored as 0; "1e3" passes as 1000 and is stored as 1 | the stored ranking is the integer part of the number the check accepted, so it is at least 1 | not executed | ManualEntryApi.ExponentRankingStoredZero | ManualEntryApi.IntendedRankingAtLeastOne |

The corrected row is `ManualEntryApi.IntendedInsertData`.
`ManualEntryApi.IntendedAgreesOnPlainRankings` shows that it differs from the row as written only on such texts.
`ManualEntryApi.Handle` keeps the row as written.

## Left out

- The HTML library that selects the two elements (`lib/scraper.js`, lines 23-40): the element texts are the inputs of `Scraper.Extract`.
- The HTTP fetch of the store page, the database client and all its queries, and the lazy client set-up: they are network I/O, so their outcomes are inputs.
- Creating the database client in the pages-router handlers, and any exception it throws for a malformed URL: that code is foreign.
- Logging to the console: it has no effect on the replies.
- The `GET` of the cron endpoint: a constant message.
- JSX markup, chart options, `date-fns` formatting, and the dashboard's refresh timers: they are presentation and timing.
- React's batching of state updates: each setter is applied at once.
- A second submit while one is in flight: the disabled button prevents it.
- A throwing `onSuccess` callback.
- Browser input constraints (`type="number"`, `min`, `max`, `required`): the model takes any text for the form fields.
- Query parameters given more than once (array values).
- Request bodies that are JSON but not objects.
- Error values that are not strings.
- Scraper.Extract: the rating is kept as the token text that `parseFloat` reads, not as a floating-point number.
- Js.StringToNumber: `Infinity` and `-Infinity` read as NaN instead of an infinity, because a value here is a finite real. Values are also exact instead of rounded to a double.
- Js.ParseIntOfNumber: holds for the program only on text other than `Infinity`. `Number("Infinity")` is at least 1 while `parseInt` reads NaN, and the model reads both as NaN. The requirement of no exponent mark and no base letter excludes the texts, such as "1e3", "0.5e1" and "0b11", where the program's `parseInt` is not the integer part.
- ManualEntryApi.StoredRankingIsIntegerPart: for the program, the ranking text `Infinity` also passes the check, and is stored as null. The model reads it as NaN and rejects it.
- ManualEntryForm.NumericRankingAccepted: for the program, the ranking text `Infinity` also passes the form, and is sent as null and rejected. The model reads it as NaN, which the form lets through as well.
- JSON field values that are arrays or objects: `Value` has no such case. The program would convert them through their text, so that `{"ranking": [5]}` passes the ranking check and is stored as 5.
- Js.ParseIntString: computes the magnitude exactly. In JavaScript integers above 2^53 are rounded to the nearest double.
- Js.ParseFloatString: reads `Infinity` as NaN, and computes exactly instead of rounding to a double.
- Js.ParseInt: a number is read as its integer part. That ignores that `parseInt` prints the number first, which for values printed with an exponent (at least 1e21, or below 1e-6) reads only the leading digit.
- Api.DaysAgo: a day is 86400000 ms. That ignores the local-time daylight-saving shift of `setDate`.
- RankingChart.FilterByTimeRange: dates are already parsed to milliseconds, or None when invalid. Parsing the stored text is not modelled.
