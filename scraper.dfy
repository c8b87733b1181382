/** The text rules of `extractRankingData` (lib/scraper.js): the chart
    position from the text of the link to the charts page, and the rating
    and the rating count from the rating caption. Selecting the two
    elements in the HTML is left to the caller: their texts are the inputs. */
module Scraper {
  import opened Js

  /** The bullet U+2022 that separates the rating from the rating count. */
  const Bullet: char := '\U{2022}'

  /** The extracted record. The rating is kept as the numeral text that
      `parseFloat` reads. */
  datatype Extracted = Extracted(
    ranking: Option<nat>,
    ratingToken: Option<string>,
    ratingCount: Option<string>,
    scrapedAt: string)

  // ---------------------------------------------------------------------
  // Ranking: /#(\d+)/ and parseInt(match[1], 10)
  // ---------------------------------------------------------------------

  /** A match of `/#\d/` starts at position i. */
  predicate RankMarkAt(s: string, i: int) {
    0 <= i && i + 1 < |s| && s[i] == '#' && IsDigit(s[i + 1])
  }

  /** The leftmost position at or after k where `/#\d/` matches. */
  function FirstRankMark(s: string, k: nat): (r: Option<nat>)
    requires k <= |s|
    ensures r.Some? ==> k <= r.value && RankMarkAt(s, r.value)
    ensures r.Some? ==> forall j :: k <= j < r.value ==> !RankMarkAt(s, j)
    ensures r.None? ==> forall j :: k <= j < |s| ==> !RankMarkAt(s, j)
    decreases |s| - k
  {
    if k + 1 >= |s| then None
    else if RankMarkAt(s, k) then Some(k)
    else FirstRankMark(s, k + 1)
  }

  /** The ranking the link text gives: the value of the digits after the
      first `#` that is followed by a digit; None when there is no such `#`. */
  function RankingOf(text: string): (r: Option<nat>)
    ensures r.None? <==> forall i :: 0 <= i < |text| ==> !RankMarkAt(text, i)
  {
    match FirstRankMark(text, 0)
    case None => None
    case Some(i) =>
      var tail := text[i + 1..];
      Some(DigitsValue(tail[..Span(tail, IsDigit)]))
  }

  /** The ranking is the value of the whole digit run after the first `#`
      that starts one: `"#20 in Finance"` is 20. */
  lemma RankingAtFirstMark(prefix: string, digits: string, rest: string)
    requires forall i :: 0 <= i < |prefix| ==> !RankMarkAt(prefix, i)
    requires digits != [] && AllDigits(digits)
    requires rest == [] || !IsDigit(rest[0])
    ensures RankingOf(prefix + "#" + digits + rest) == Some(DigitsValue(digits))
  {
    var s := prefix + "#" + digits + rest;
    var k := |prefix|;
    assert RankMarkAt(s, k) by {
      assert s[k] == '#' && s[k + 1] == digits[0];
    }
    forall j | 0 <= j < k ensures !RankMarkAt(s, j) {
      if j + 1 < k {
        assert s[j] == prefix[j] && s[j + 1] == prefix[j + 1];
        assert !RankMarkAt(prefix, j);
      } else {
        assert s[j + 1] == '#';
      }
    }
    var tail := s[k + 1..];
    assert tail == digits + rest;
    SpanUnique(tail, IsDigit, |digits|);
    assert tail[..|digits|] == digits;
  }

  // ---------------------------------------------------------------------
  // Rating: /^([\d.]+)/
  // ---------------------------------------------------------------------

  predicate IsDigitOrDot(c: char) {
    IsDigit(c) || c == '.'
  }

  /** The rating token: the longest run of digits and dots at the very start
      of the caption; None when the caption does not start with one. */
  function RatingTokenOf(caption: string): (r: Option<string>)
    ensures r.None? <==> caption == [] || !IsDigitOrDot(caption[0])
    ensures r.Some? ==>
              && r.value != []
              && |r.value| <= |caption| && caption[..|r.value|] == r.value
              && (forall i :: 0 <= i < |r.value| ==> IsDigitOrDot(r.value[i]))
              && (|r.value| == |caption| || !IsDigitOrDot(caption[|r.value|]))
  {
    var n := Span(caption, IsDigitOrDot);
    if n == 0 then None else Some(caption[..n])
  }

  // ---------------------------------------------------------------------
  // Rating count: /•\s*(.+)/ and .trim()
  // ---------------------------------------------------------------------

  /** Where `(.+)` can start once `\s*` has run from j to p and gives back
      characters one at a time: the last position in [j, p] holding a
      character `.` matches. */
  function CaptureStart(s: string, j: nat, p: nat): (r: Option<nat>)
    requires j <= p <= |s|
    ensures r.Some? ==> j <= r.value <= p && r.value < |s| && IsLineChar(s[r.value])
    ensures r.Some? ==> forall q :: r.value < q <= p && q < |s| ==> !IsLineChar(s[q])
    ensures r.None? ==> forall q :: j <= q <= p && q < |s| ==> !IsLineChar(s[q])
    decreases p - j
  {
    if p < |s| && IsLineChar(s[p]) then Some(p)
    else if p == j then None
    else CaptureStart(s, j, p - 1)
  }

  /** The capture group of `/•\s*(.+)/` for a match starting at position i,
      or None when no match starts there, which is when everything after the
      bullet is a line terminator. */
  function CaptureAt(s: string, i: nat): (r: Option<string>)
    requires i < |s| && s[i] == Bullet
    ensures r.None? <==> i + 1 + Span(s[i + 1..], IsLineTerminator) == |s|
    ensures r.Some? ==> r.value != [] && forall c :: 0 <= c < |r.value| ==> IsLineChar(r.value[c])
  {
    var j := i + 1;
    var start := CaptureStart(s, j, j + Span(s[j..], IsSpace));
    if start.None? then None else Some(LineFrom(s, start.value))
  }

  /** What `.+` takes from position p: everything up to the end of the line. */
  function LineFrom(s: string, p: nat): (r: string)
    requires p <= |s|
    ensures p + |r| <= |s|
    ensures p < |s| && IsLineChar(s[p]) ==> r != []
  {
    s[p..p + Span(s[p..], IsLineChar)]
  }

  /** The line from p is the longest run of line characters there: it is a
      piece of the text, and the end of the text or a line terminator
      follows it. */
  lemma LineFromMaximal(s: string, p: nat)
    requires p <= |s|
    ensures var r := LineFrom(s, p);
            && r == s[p..p + |r|]
            && (forall c :: 0 <= c < |r| ==> IsLineChar(r[c]))
            && (p + |r| == |s| || IsLineTerminator(s[p + |r|]))
  {
    var n := Span(s[p..], IsLineChar);
    assert p + n == |s| || s[p + n] == s[p..][n];
  }

  /** The capture group of the leftmost match at or after k. */
  function CaptureFrom(s: string, k: nat): (r: Option<string>)
    requires k <= |s|
    ensures r.Some? ==> r.value != [] && forall c :: 0 <= c < |r.value| ==> IsLineChar(r.value[c])
    decreases |s| - k
  {
    if k == |s| then None
    else if s[k] == Bullet && CaptureAt(s, k).Some? then CaptureAt(s, k)
    else CaptureFrom(s, k + 1)
  }

  /** The rating count: the trimmed capture of `/•\s*(.+)/`, None without a match. */
  function RatingCountOf(caption: string): (r: Option<string>)
    ensures (forall i :: 0 <= i < |caption| ==> caption[i] != Bullet) ==> r.None?
  {
    NoBulletNoMatch(caption, 0);
    match CaptureFrom(caption, 0)
    case None => None
    case Some(c) => Some(Trim(c))
  }

  /** No match at or after k exactly when no bullet there starts one. */
  lemma {:induction false} CaptureFromNone(s: string, k: nat)
    requires k <= |s|
    ensures CaptureFrom(s, k).None? <==> forall q :: k <= q < |s| && s[q] == Bullet ==> CaptureAt(s, q).None?
    decreases |s| - k
  {
    if k < |s| {
      CaptureFromNone(s, k + 1);
    }
  }

  lemma {:induction false} NoBulletNoMatch(s: string, k: nat)
    requires k <= |s|
    ensures (forall i :: k <= i < |s| ==> s[i] != Bullet) ==> CaptureFrom(s, k).None?
    decreases |s| - k
  {
    if k < |s| {
      NoBulletNoMatch(s, k + 1);
    }
  }

  /** Positions before the first bullet are skipped. */
  lemma {:induction false} CaptureFromSkips(s: string, k: nat, i: nat)
    requires k <= i <= |s|
    requires forall q :: k <= q < i ==> s[q] != Bullet
    ensures CaptureFrom(s, k) == CaptureFrom(s, i)
    decreases i - k
  {
    if k < i {
      CaptureFromSkips(s, k + 1, i);
    }
  }

  /** At a bullet followed by a single line of text, the match starts at
      the bullet, and its trimmed capture is the trimmed rest of the line. */
  lemma CaptureAtBullet(s: string, i: nat)
    requires i < |s| && s[i] == Bullet
    requires forall q :: i < q < |s| ==> IsLineChar(s[q])
    ensures i + 1 == |s| ==> CaptureAt(s, i).None?
    ensures i + 1 < |s| ==> CaptureAt(s, i).Some? && Trim(CaptureAt(s, i).value) == Trim(s[i + 1..])
  {
    var a := s[i + 1..];
    var m := Span(a, IsSpace);
    if i + 1 < |s| {
      assert a == a[..m] + a[m..];
      TrimStartSkipsSpace(a[..m], a[m..]);
      if i + 1 + m < |s| {
        CaptureAfterSpaces(s, i);
      } else {
        CaptureOfLastSpace(s, i);
      }
    }
  }

  /** When text follows the spaces after the bullet, the capture is all of
      it, up to the end of the line. */
  lemma CaptureAfterSpaces(s: string, i: nat)
    requires i < |s| && s[i] == Bullet
    requires forall q :: i < q < |s| ==> IsLineChar(s[q])
    requires i + 1 + Span(s[i + 1..], IsSpace) < |s|
    ensures CaptureAt(s, i) == Some(s[i + 1..][Span(s[i + 1..], IsSpace)..])
  {
    var a := s[i + 1..];
    var m := Span(a, IsSpace);
    var e := i + 1 + m;
    assert CaptureStart(s, i + 1, e) == Some(e) by {
      assert IsLineChar(s[e]);
    }
    CaptureFromStart(s, i, e, e);
    LineToEnd(s, e);
    assert s[e..] == a[m..];
  }

  /** On the last line, `.+` takes everything to the end. */
  lemma LineToEnd(s: string, e: nat)
    requires e <= |s|
    requires forall q :: e <= q < |s| ==> IsLineChar(s[q])
    ensures LineFrom(s, e) == s[e..]
  {
    var c := s[e..];
    forall k | 0 <= k < |c| ensures IsLineChar(c[k]) {
      assert c[k] == s[e + k];
    }
    SpanUnique(c, IsLineChar, |c|);
    assert s[e..e + |c|] == c;
  }

  /** The capture runs from where `(.+)` starts to the end of the line. */
  lemma CaptureFromStart(s: string, i: nat, e: nat, p: nat)
    requires i < |s| && s[i] == Bullet
    requires e == i + 1 + Span(s[i + 1..], IsSpace)
    requires CaptureStart(s, i + 1, e) == Some(p)
    ensures CaptureAt(s, i) == Some(LineFrom(s, p))
  {
  }

  /** When only spaces follow the bullet, `\s*` gives back the last one and
      the capture is that single space. */
  lemma CaptureOfLastSpace(s: string, i: nat)
    requires i + 1 < |s| && s[i] == Bullet
    requires forall q :: i < q < |s| ==> IsLineChar(s[q])
    requires i + 1 + Span(s[i + 1..], IsSpace) == |s|
    ensures CaptureAt(s, i).Some? && Trim(CaptureAt(s, i).value) == [] == Trim(s[i + 1..])
  {
    var j := i + 1;
    var a := s[j..];
    var m := Span(a, IsSpace);
    var e := j + m;
    assert IsLineChar(s[e - 1]);
    assert CaptureStart(s, j, e) == Some(e - 1);
    CaptureFromStart(s, i, e, e - 1);
    var c := s[e - 1..];
    SpanUnique(c, IsLineChar, 1);
    assert AllSpace(c[..1]) by {
      assert c[0] == a[m - 1];
    }
    TrimOfSpace(c[..1]);
    TrimOfSpace(a);
  }

  /** On a caption without line breaks, the rating count is the trimmed
      text after the first bullet, and there is none when the bullet ends
      the caption. */
  lemma SingleLineCount(before: string, after: string)
    requires forall i :: 0 <= i < |before| ==> before[i] != Bullet
    requires forall i :: 0 <= i < |after| ==> IsLineChar(after[i])
    ensures RatingCountOf(before + [Bullet] + after) == if after == [] then None else Some(Trim(after))
  {
    var s := before + [Bullet] + after;
    var i := |before|;
    assert s[i] == Bullet;
    forall q | 0 <= q < i ensures s[q] != Bullet {
      assert s[q] == before[q];
    }
    CaptureFromSkips(s, 0, i);
    assert s[i + 1..] == after;
    forall q | i < q < |s| ensures IsLineChar(s[q]) {
      assert s[q] == after[q - i - 1];
    }
    CaptureAtBullet(s, i);
  }

  // ---------------------------------------------------------------------
  // extractRankingData
  // ---------------------------------------------------------------------

  /** The record built from the link text and the caption text
      (`.text()` of the two elements) and the extraction time. */
  function Extract(linkText: string, captionText: string, scrapedAt: string): (r: Extracted)
    ensures r.ranking == RankingOf(Trim(linkText))
    ensures Trim(captionText) == [] ==> r.ratingToken.None? && r.ratingCount.None?
    ensures Trim(captionText) != [] ==>
              r.ratingToken == RatingTokenOf(Trim(captionText)) && r.ratingCount == RatingCountOf(Trim(captionText))
    ensures r.scrapedAt == scrapedAt
  {
    var rankingText := Trim(linkText);
    var ratingText := Trim(captionText);
    Extracted(
      if rankingText != [] then RankingOf(rankingText) else None,
      if ratingText != [] then RatingTokenOf(ratingText) else None,
      if ratingText != [] then RatingCountOf(ratingText) else None,
      scrapedAt)
  }

  /** Link text with no `#` followed by a digit, the empty text included,
      gives no ranking. */
  lemma NoMarkNoRanking(linkText: string, captionText: string, scrapedAt: string)
    requires forall i :: 0 <= i < |Trim(linkText)| ==> !RankMarkAt(Trim(linkText), i)
    ensures Extract(linkText, captionText, scrapedAt).ranking.None?
  {
  }

  /** A caption of the form `<rating> • <count>`, with nothing but
      same-line spaces after the bullet, gives the count as written. */
  lemma BulletThenCount(before: string, gap: string, count: string)
    requires forall i :: 0 <= i < |before| ==> before[i] != Bullet
    requires AllSpace(gap) && forall i :: 0 <= i < |gap| ==> IsLineChar(gap[i])
    requires forall i :: 0 <= i < |count| ==> IsLineChar(count[i])
    requires count != [] && !IsSpace(count[0]) && !IsSpace(count[|count| - 1])
    ensures RatingCountOf(before + [Bullet] + gap + count) == Some(count)
  {
    var after := gap + count;
    assert before + [Bullet] + gap + count == before + [Bullet] + after;
    forall i | 0 <= i < |after| ensures IsLineChar(after[i]) {
      if i < |gap| {
        assert after[i] == gap[i];
      } else {
        assert after[i] == count[i - |gap|];
      }
    }
    SingleLineCount(before, after);
    TrimStartSkipsSpace(gap, count);
    TrimOfTrimmed(count);
  }

  /** A rating token followed by anything that does not continue it. */
  lemma TokenThen(token: string, rest: string)
    requires token != [] && forall i :: 0 <= i < |token| ==> IsDigitOrDot(token[i])
    requires rest == [] || !IsDigitOrDot(rest[0])
    ensures RatingTokenOf(token + rest) == Some(token)
  {
    var s := token + rest;
    forall i | 0 <= i < |token| ensures IsDigitOrDot(s[i]) {
      assert s[i] == token[i];
    }
    if rest != [] {
      assert s[|token|] == rest[0];
    }
    SpanUnique(s, IsDigitOrDot, |token|);
    assert s[..|token|] == token;
  }

  /** Link text `<prefix>#<digits><rest>` without surrounding spaces and
      without an earlier `#` and digit gives the value of the digits. */
  lemma LinkRanking(prefix: string, digits: string, rest: string)
    requires forall i :: 0 <= i < |prefix| ==> !RankMarkAt(prefix, i)
    requires prefix == [] || !IsSpace(prefix[0])
    requires digits != [] && AllDigits(digits)
    requires rest == [] || (!IsDigit(rest[0]) && !IsSpace(rest[|rest| - 1]))
    ensures Trim(prefix + "#" + digits + rest) == prefix + "#" + digits + rest
    ensures RankingOf(prefix + "#" + digits + rest) == Some(DigitsValue(digits))
  {
    var link := prefix + "#" + digits + rest;
    assert link[0] == if prefix == [] then '#' else prefix[0];
    assert link[|link| - 1] == if rest == [] then digits[|digits| - 1] else rest[|rest| - 1];
    TrimOfTrimmed(link);
    RankingAtFirstMark(prefix, digits, rest);
  }

  /** A one-line caption `<token><spaces>•<spaces><count>` gives the token
      as the rating and the count as written. */
  lemma RatingAndCount(token: string, gap: string, gap': string, count: string)
    requires token != [] && forall i :: 0 <= i < |token| ==> IsDigitOrDot(token[i])
    requires AllSpace(gap) && forall i :: 0 <= i < |gap| ==> IsLineChar(gap[i])
    requires AllSpace(gap') && forall i :: 0 <= i < |gap'| ==> IsLineChar(gap'[i])
    requires forall i :: 0 <= i < |count| ==> IsLineChar(count[i])
    requires count != [] && !IsSpace(count[0]) && !IsSpace(count[|count| - 1])
    ensures Trim(token + gap + [Bullet] + gap' + count) == token + gap + [Bullet] + gap' + count
    ensures RatingTokenOf(token + gap + [Bullet] + gap' + count) == Some(token)
    ensures RatingCountOf(token + gap + [Bullet] + gap' + count) == Some(count)
  {
    CaptionTrimmed(token, gap + [Bullet] + gap', count);
    assert token + (gap + [Bullet] + gap') + count == token + gap + [Bullet] + gap' + count;
    CaptionToken(token, gap, gap' + count);
    assert token + gap + [Bullet] + (gap' + count) == token + gap + [Bullet] + gap' + count;
    CaptionCount(token, gap, gap', count);
  }

  lemma CaptionTrimmed(first: string, middle: string, last: string)
    requires first != [] && !IsSpace(first[0])
    requires last != [] && !IsSpace(last[|last| - 1])
    ensures Trim(first + middle + last) == first + middle + last
  {
    var s := first + middle + last;
    assert s[0] == first[0];
    assert s[|s| - 1] == last[|last| - 1];
    TrimOfTrimmed(s);
  }

  lemma CaptionToken(token: string, gap: string, rest: string)
    requires token != [] && forall i :: 0 <= i < |token| ==> IsDigitOrDot(token[i])
    requires AllSpace(gap)
    ensures RatingTokenOf(token + gap + [Bullet] + rest) == Some(token)
  {
    var after := gap + [Bullet] + rest;
    assert token + gap + [Bullet] + rest == token + after;
    assert after[0] == if gap == [] then Bullet else gap[0];
    TokenThen(token, after);
  }

  lemma CaptionCount(token: string, gap: string, gap': string, count: string)
    requires forall i :: 0 <= i < |token| ==> IsDigitOrDot(token[i])
    requires AllSpace(gap)
    requires AllSpace(gap') && forall i :: 0 <= i < |gap'| ==> IsLineChar(gap'[i])
    requires forall i :: 0 <= i < |count| ==> IsLineChar(count[i])
    requires count != [] && !IsSpace(count[0]) && !IsSpace(count[|count| - 1])
    ensures RatingCountOf(token + gap + [Bullet] + gap' + count) == Some(count)
  {
    var before := token + gap;
    forall i | 0 <= i < |before| ensures before[i] != Bullet {
      if i < |token| {
        assert before[i] == token[i];
      } else {
        assert before[i] == gap[i - |token|];
      }
    }
    BulletThenCount(before, gap', count);
  }

  /** A whole listing page whose texts have those shapes. */
  lemma PageRecord(prefix: string, digits: string, rest: string,
                   token: string, gap: string, gap': string, count: string, scrapedAt: string)
    requires forall i :: 0 <= i < |prefix| ==> !RankMarkAt(prefix, i)
    requires prefix == [] || !IsSpace(prefix[0])
    requires digits != [] && AllDigits(digits)
    requires rest == [] || (!IsDigit(rest[0]) && !IsSpace(rest[|rest| - 1]))
    requires token != [] && forall i :: 0 <= i < |token| ==> IsDigitOrDot(token[i])
    requires AllSpace(gap) && forall i :: 0 <= i < |gap| ==> IsLineChar(gap[i])
    requires AllSpace(gap') && forall i :: 0 <= i < |gap'| ==> IsLineChar(gap'[i])
    requires forall i :: 0 <= i < |count| ==> IsLineChar(count[i])
    requires count != [] && !IsSpace(count[0]) && !IsSpace(count[|count| - 1])
    ensures Extract(prefix + "#" + digits + rest, token + gap + [Bullet] + gap' + count, scrapedAt)
         == Extracted(Some(DigitsValue(digits)), Some(token), Some(count), scrapedAt)
  {
    LinkRanking(prefix, digits, rest);
    RatingAndCount(token, gap, gap', count);
  }

  /** A caption that is only a rating token has no count. */
  lemma RatingOnly(token: string, scrapedAt: string)
    requires token != [] && forall i :: 0 <= i < |token| ==> IsDigitOrDot(token[i])
    ensures Extract("", token, scrapedAt) == Extracted(None, Some(token), None, scrapedAt)
  {
    TrimOfTrimmed(token);
    TokenThen(token, []);
    assert token + [] == token;
    NoBulletNoMatch(token, 0);
  }

  /** A caption that starts at the bullet has a count and no rating. */
  lemma CountOnly(gap: string, count: string, scrapedAt: string)
    requires AllSpace(gap) && forall i :: 0 <= i < |gap| ==> IsLineChar(gap[i])
    requires forall i :: 0 <= i < |count| ==> IsLineChar(count[i])
    requires count != [] && !IsSpace(count[0]) && !IsSpace(count[|count| - 1])
    ensures Extract("", [Bullet] + gap + count, scrapedAt) == Extracted(None, None, Some(count), scrapedAt)
  {
    CaptionTrimmed([Bullet], gap, count);
    NoTokenAtBullet(gap + count);
    assert [Bullet] + (gap + count) == [Bullet] + gap + count;
    CountAtBullet(gap, count);
  }

  lemma NoTokenAtBullet(rest: string)
    ensures RatingTokenOf([Bullet] + rest).None?
  {
    assert ([Bullet] + rest)[0] == Bullet;
  }

  lemma CountAtBullet(gap: string, count: string)
    requires AllSpace(gap) && forall i :: 0 <= i < |gap| ==> IsLineChar(gap[i])
    requires forall i :: 0 <= i < |count| ==> IsLineChar(count[i])
    requires count != [] && !IsSpace(count[0]) && !IsSpace(count[|count| - 1])
    ensures RatingCountOf([Bullet] + gap + count) == Some(count)
  {
    BulletThenCount([], gap, count);
    assert [] + [Bullet] == [Bullet];
  }

  /** The texts of the listing page: "#20 in Finance" and
      "4.7 • 1.8M Ratings" give 20, "4.7" and "1.8M Ratings". */
  lemma ExamplePage(scrapedAt: string)
    ensures Extract("#20 in Finance", "4.7 \U{2022} 1.8M Ratings", scrapedAt)
         == Extracted(Some(20), Some("4.7"), Some("1.8M Ratings"), scrapedAt)
  {
    PageRecord("", "20", " in Finance", "4.7", " ", " ", "1.8M Ratings", scrapedAt);
    ExampleTexts();
    ExampleTwenty();
  }

  lemma ExampleTexts()
    ensures "" + "#" + "20" + " in Finance" == "#20 in Finance"
    ensures "4.7" + " " + [Bullet] + " " + "1.8M Ratings" == "4.7 \U{2022} 1.8M Ratings"
  {
  }

  lemma ExampleTwenty()
    ensures DigitsValue("20") == 20
  {
    assert "20"[..1] == "2";
  }

  /** Leading zeros are ignored and 0 is not excluded: "#007" is 7, "#0" is 0. */
  lemma ExampleLeadingZeros()
    ensures RankingOf("#007") == Some(7)
    ensures RankingOf("#0") == Some(0)
  {
    RankingAtFirstMark("", "007", "");
    RankingAtFirstMark("", "0", "");
    ExampleZeroTexts();
  }

  lemma ExampleZeroTexts()
    ensures "" + "#" + "007" + "" == "#007" && "" + "#" + "0" + "" == "#0"
    ensures DigitsValue("007") == 7 && DigitsValue("0") == 0
  {
    LeadingZeroIgnored("07");
    LeadingZeroIgnored("7");
  }
}
