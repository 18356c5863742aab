/** The POST /parse handler of server/routes/shareParser.js: it checks the
    request, runs parseShareString (twice for Keyword), falls back to the
    numbers of the text with per-game corrections, and answers with the
    score or an error.

    The two database lookups (the game's slug and its parser row) are
    inputs: the Lookup datatype holds what they returned, or the message
    of the exception they threw. */
module ParseRoute {
  import opened Wrappers
  import opened Seqs
  import opened Matchers
  import opened ShareParser

  /** The request body; None for a field that is absent. */
  datatype Request = Request(gameId: Option<string>, shareText: Option<string>)

  /** What the two lookups returned: the game's slug (None when no game
      row came back), the parser row, and whether the parser query failed. */
  datatype Lookup =
    | Found(slug: Option<string>, parser: Option<ParserConfig>, parserError: bool)
    | Threw(message: string)

  datatype Response = Scored(score: real) | Failed(status: nat, error: string)

  const MissingInput: string := "Missing gameId or shareText"
  const NoScore: string := "Could not extract score from share text"

  /** A field counts as given when it is present and not the empty string. */
  predicate Given(x: Option<string>) { x.Some? && |x.value| > 0 }

  /** parseShareString compares the slug with literals only, so an
      undefined slug behaves as the empty string. */
  function SlugOf(slug: Option<string>): string { if slug.Some? then slug.value else "" }

  /** shareParser.js:225-226: a + 10·b lies in the Keyword band. */
  predicate InBand(x: real) { 10.0 <= x < 2000.0 }

  /** shareParser.js:211-216: the first number, or the second for a Pyramid
      Scheme text whose first number is 0. */
  function PyramidCorrection(numbers: seq<real>, slug: string): (r: real)
    requires |numbers| > 0
    ensures r == numbers[0] || (|numbers| >= 2 && r == numbers[1])
  {
    if slug == "pyramid-scheme" && numbers[0] == 0.0 && |numbers| >= 2 && 1.0 <= numbers[1] < 3600.0
    then numbers[1] else numbers[0]
  }

  /** shareParser.js:218-221: a score of at most 1 for Bracket City becomes
      the largest number above 1, when there is one. */
  function BracketCorrection(numbers: seq<real>, slug: string, score: real): (r: real)
    ensures slug != "bracket-city" || score > 1.0 ==> r == score
    ensures r != score ==> r > 1.0 && r in numbers
                           && forall k :: 0 <= k < |numbers| && numbers[k] > 1.0 ==> numbers[k] <= r
  {
    var big := Filter(numbers, IsAboveOne);
    FilterSpec(numbers, IsAboveOne);
    if slug == "bracket-city" && score <= 1.0 && |big| > 0 then
      var m := Max(big);
      assert forall k :: 0 <= k < |numbers| && numbers[k] > 1.0 ==> numbers[k] in big;
      m
    else score
  }

  /** shareParser.js:223-232: for Keyword, a + 10·b if it is in the band,
      then b + 10·a if it is in the band and larger than the score so far. */
  function KeywordCorrection(numbers: seq<real>, slug: string, score: real): (r: real)
    ensures slug != "keyword" || |numbers| < 2 ==> r == score
    ensures r != score ==> |numbers| >= 2 && InBand(r)
                           && (r == numbers[0] + 10.0 * numbers[1] || r == numbers[1] + 10.0 * numbers[0])
  {
    if slug == "keyword" && |numbers| >= 2 then
      var a := numbers[0];
      var b := numbers[1];
      var s1 := a + b * 10.0;
      var s2 := b + a * 10.0;
      var afterS1 := if InBand(s1) then s1 else score;
      if InBand(s2) && s2 > afterS1 then s2 else afterS1
    else score
  }

  /** The fallback of shareParser.js:210-235 on the numbers of the text. */
  function FallbackScore(text: string, slug: string): Option<real> {
    var numbers := Decimals(text, 0);
    if |numbers| == 0 then None
    else
      var score := PyramidCorrection(numbers, slug);
      var score := BracketCorrection(numbers, slug, score);
      Some(KeywordCorrection(numbers, slug, score))
  }

  /** shareParser.js:203-208: parseShareString for Keyword, then again when
      there is still no score and the parser row came back without error. */
  function ParsedScore(text: string, slug: Option<string>, parser: Option<ParserConfig>, parserError: bool,
                       host: Host): Option<real> {
    var score := if slug == Some("keyword") then ShareScore(text, parser, "keyword", host) else None;
    if score.None? && !parserError && parser.Some? then ShareScore(text, parser, SlugOf(slug), host)
    else score
  }

  /** The response of POST /parse. */
  function RouteResponse(req: Request, lookup: Lookup, host: Host): Response {
    if !Given(req.gameId) || !Given(req.shareText) then Failed(400, MissingInput)
    else match lookup
      case Threw(message) => Failed(500, message)
      case Found(slug, parser, parserError) =>
        var text := req.shareText.value;
        var parsed := ParsedScore(text, slug, parser, parserError, host);
        var score := if parsed.Some? then parsed else FallbackScore(text, SlugOf(slug));
        if score.None? then Failed(400, NoScore) else Scored(score.value)
  }

  /** The fallback as the handler runs it, reassigning `score` step by step. */
  method Fallback(text: string, slug: string) returns (score: Option<real>)
    ensures score == FallbackScore(text, slug)
  {
    var numbers := Decimals(text, 0);
    if |numbers| == 0 {
      return None;
    }
    var v := numbers[0];
    if slug == "pyramid-scheme" && v == 0.0 && |numbers| >= 2 {
      var sec := numbers[1];
      if 1.0 <= sec < 3600.0 {
        v := sec;
      }
    }
    if slug == "bracket-city" && v <= 1.0 {
      var nums := Filter(numbers, IsAboveOne);
      if |nums| > 0 {
        v := Max(nums);
      }
    }
    if slug == "keyword" && |numbers| >= 2 {
      var a := numbers[0];
      var b := numbers[1];
      var s1 := a + b * 10.0;
      var s2 := b + a * 10.0;
      if InBand(s1) {
        v := s1;
      }
      if InBand(s2) && s2 > v {
        v := s2;
      }
    }
    return Some(v);
  }

  /** The handler of shareParser.js:199-244. */
  method ParseScore(req: Request, lookup: Lookup, host: Host) returns (resp: Response)
    ensures resp == RouteResponse(req, lookup, host)
  {
    if !Given(req.gameId) || !Given(req.shareText) {
      return Failed(400, MissingInput);
    }
    if lookup.Threw? {
      return Failed(500, lookup.message);
    }
    var text := req.shareText.value;
    var score: Option<real> := None;
    if lookup.slug == Some("keyword") {
      score := ParseShareString(text, lookup.parser, "keyword", host);
    }
    if score.None? && !lookup.parserError && lookup.parser.Some? {
      score := ParseShareString(text, lookup.parser, SlugOf(lookup.slug), host);
    }
    if score.None? {
      score := Fallback(text, SlugOf(lookup.slug));
    }
    if score.None? {
      return Failed(400, NoScore);
    }
    return Scored(score.value);
  }
}

/** Properties of the /parse handler. */
module ParseRouteFacts {
  import opened Wrappers
  import opened Text
  import opened Seqs
  import opened Matchers
  import opened ShareParser
  import opened ShareParserFacts
  import opened ParseRoute

  /** Without a game id or a share text the handler answers 400 before any lookup. */
  lemma {:induction false} MissingFieldsRejected(req: Request, lookup: Lookup, host: Host)
    requires !Given(req.gameId) || !Given(req.shareText)
    ensures RouteResponse(req, lookup, host) == Failed(400, "Missing gameId or shareText")
  {
  }

  /** The handler answers with a score exactly when parsing or the
      fallback finds one, and with the 400 error otherwise. */
  lemma {:induction false} ScoreOrNoScoreError(req: Request, slug: Option<string>, parser: Option<ParserConfig>,
                                               parserError: bool, host: Host)
    requires Given(req.gameId) && Given(req.shareText)
    ensures var text := req.shareText.value;
            var parsed := ParsedScore(text, slug, parser, parserError, host);
            var resp := RouteResponse(req, Found(slug, parser, parserError), host);
            (resp == Failed(400, "Could not extract score from share text")
             <==> (parsed.None? && FallbackScore(text, SlugOf(slug)).None?))
            && (parsed.Some? ==> resp == Scored(parsed.value))
  {
  }

  /** The fallback finds a number exactly when the text holds a digit. */
  lemma {:induction false} FallbackNeedsDigit(text: string, slug: string)
    ensures FallbackScore(text, slug).None? <==> DigitRuns(text, 0) == []
  {
    DecimalsEmpty(text, 0);
  }

  /** With a parser row that came back, the handler's parse is parseShareString's. */
  lemma {:induction false} ParsedWithParser(text: string, slug: Option<string>, p: ParserConfig, host: Host)
    ensures ParsedScore(text, slug, Some(p), false, host) == ShareScore(text, Some(p), SlugOf(slug), host)
  {
  }

  /** Keyword needs no parser row: without one the parse is parseShareString's with none. */
  lemma {:induction false} KeywordWithoutParser(text: string, parserError: bool, host: Host)
    ensures ParsedScore(text, Some("keyword"), None, parserError, host) == ShareScore(text, None, "keyword", host)
  {
  }

  /** "Time: T, Errors: E" sent for Keyword is answered with T + 10·E,
      whatever parser row there is. */
  lemma {:induction false} KeywordRequest(t: string, e: string, rest: string, gameId: string,
                                          parser: Option<ParserConfig>, parserError: bool, host: Host)
    requires |gameId| > 0
    requires |t| > 0 && AllDigits(t) && |e| > 0 && AllDigits(e)
    requires rest == [] || !IsDigit(rest[0])
    ensures RouteResponse(Request(Some(gameId), Some(KeywordText(t, e, rest))), Found(Some("keyword"), parser, parserError), host)
            == Scored((NatOf(t) + 10 * NatOf(e)) as real)
  {
    KeywordTimeErrors(t, e, rest, parser, host);
  }

  /** The Pyramid Scheme correction takes the second number exactly when
      the first is 0 and the second lies in [1, 3600). */
  lemma {:induction false} PyramidFallback(numbers: seq<real>)
    requires |numbers| > 0
    ensures var r := PyramidCorrection(numbers, "pyramid-scheme");
            (r != numbers[0] ==> numbers[0] == 0.0 && 1.0 <= r < 3600.0)
            && (numbers[0] == 0.0 && |numbers| >= 2 && 1.0 <= numbers[1] < 3600.0 ==> r == numbers[1])
  {
  }

  /** The Bracket City correction replaces a score of at most 1 by the
      largest number above 1, when there is one, and keeps it otherwise. */
  lemma {:induction false} BracketFallback(numbers: seq<real>, score: real)
    ensures var r := BracketCorrection(numbers, "bracket-city", score);
            (score > 1.0 ==> r == score)
            && (score <= 1.0 && (exists k :: 0 <= k < |numbers| && numbers[k] > 1.0) ==>
                  r > 1.0 && r in numbers && forall k :: 0 <= k < |numbers| && numbers[k] > 1.0 ==> numbers[k] <= r)
            && (score <= 1.0 && (forall k :: 0 <= k < |numbers| ==> numbers[k] <= 1.0) ==> r == score)
  {
    var big := Filter(numbers, IsAboveOne);
    FilterSpec(numbers, IsAboveOne);
    if score <= 1.0 && exists k :: 0 <= k < |numbers| && numbers[k] > 1.0 {
      var k :| 0 <= k < |numbers| && numbers[k] > 1.0;
      assert numbers[k] in big;
      var m := Max(big);
      assert IsAboveOne(m);
      forall j | 0 <= j < |numbers| && numbers[j] > 1.0 ensures numbers[j] <= m {
        assert numbers[j] in big;
      }
    }
  }

  /** The Keyword correction changes the score only to a value in the band
      [10, 2000) that is a + 10·b or b + 10·a; with both in the band it
      picks the larger; b + 10·a wins only when it is in the band and
      strictly larger than what a + 10·b left. */
  lemma {:induction false} KeywordFallback(a: real, b: real, rest: seq<real>, score: real)
    ensures var r := KeywordCorrection([a, b] + rest, "keyword", score);
            var s1 := a + 10.0 * b;
            var s2 := b + 10.0 * a;
            (r != score ==> InBand(r) && (r == s1 || r == s2))
            && (InBand(s1) && InBand(s2) ==> r == if s2 > s1 then s2 else s1)
            && (InBand(s1) ==> r >= s1)
            && (r == s2 && s2 != s1 && s2 != score ==> InBand(s2) && s2 > (if InBand(s1) then s1 else score))
            && (!InBand(s1) && !InBand(s2) ==> r == score)
  {
    var ns := [a, b] + rest;
    assert ns[0] == a && ns[1] == b;
  }

  /** For games other than the three, the fallback is the first number of the text. */
  lemma {:induction false} FallbackFirstNumber(text: string, slug: string)
    requires slug != "pyramid-scheme" && slug != "bracket-city" && slug != "keyword"
    ensures FallbackScore(text, slug) == if Decimals(text, 0) == [] then None else Some(Decimals(text, 0)[0])
  {
  }
}
