/** parseShareString of server/routes/shareParser.js: from a game slug, the
    game's optional parser row and a share text, the score or nothing.

    The chain is first-match-wins: the Keyword time+errors extractor (which
    needs no parser row), then, for a parser of type 'regex', the
    Connections, Wordle, Pyramid Scheme and Bracket City extractors and the
    parser's own pattern; for a parser of type 'url_param', the Spelling Bee
    rank; and last the first number of the text with per-game corrections.

    The parser's own pattern and `new URL(...)` are evaluated by the host's
    regular-expression and URL engines, which the model takes as the Host
    parameter. `None` stands for JavaScript's null. */
module ShareParser {
  import opened Wrappers
  import opened Text
  import opened Seqs
  import opened Matchers

  // The coloured squares of the share grids, one character each.
  const Purple: char := '\U{1F7EA}'
  const Blue: char := '\U{1F7E6}'
  const Green: char := '\U{1F7E9}'
  const Yellow: char := '\U{1F7E8}'
  const White: char := '\U{2B1C}'

  /** A row of game_share_parsers. */
  datatype ParserConfig = ParserConfig(patternType: string, pattern: string, scorePath: string)

  datatype RegexFlag = Multiline | Global

  /** What `text.match(new RegExp(pattern, flag))` gives: the constructor
      throws, null, or the returned array (capture groups for Multiline,
      all matches for Global; an element that is undefined is None). */
  datatype RegexOutcome = BadPattern | NoMatch | Matched(elements: seq<Option<string>>)

  /** What `new URL(text).searchParams.get(name)` gives: the constructor
      throws, or the parameter's value (None when it is absent). */
  datatype UrlOutcome = NotAUrl | Url(param: Option<string>)

  datatype Host = Host(regex: (string, RegexFlag, string) -> RegexOutcome,
                       urlParam: (string, string) -> UrlOutcome)

  /** One stage of the chain either returns (Done) or lets the next one try. */
  datatype Step = Done(score: Option<real>) | Next

  /** `a || b || ...` over the leftmost matches of several patterns. */
  function FirstOf<T>(s: string, ms: seq<(string, nat) -> Option<T>>): Option<T> {
    if ms == [] then None
    else
      var m := Leftmost(s, ms[0], 0);
      if m.Some? then m else FirstOf(s, ms[1..])
  }

  // ---------------------------------------------------------------------
  // Keyword: "Time: X, Errors: Y" and looser forms (shareParser.js:5-18)

  /** `Errors:\s*(\d+)` at i, case-insensitive. */
  function ErrorsLabelAt(s: string, i: nat): Option<nat> {
    if !CiAt(s, i, "Errors:") then None else NumberAt(s, SpacesEnd(s, i + 7))
  }

  /** `\s*,\s*Errors:\s*(\d+)` at j. */
  function CommaErrorsAt(s: string, j: nat): Option<nat>
    requires j <= |s|
  {
    var c := SpacesEnd(s, j);
    if c < |s| && s[c] == ',' then ErrorsLabelAt(s, SpacesEnd(s, c + 1)) else None
  }

  /** /Time:\s*(\d+)\s*,\s*Errors:\s*(\d+)/i at i. */
  function TimeCommaErrorsAt(s: string, i: nat): Option<(nat, nat)> {
    if !CiAt(s, i, "Time:") then None
    else
      var d := DigitsAt(s, SpacesEnd(s, i + 5));
      if d.None? then None
      else
        var n := CommaErrorsAt(s, d.value.1);
        if n.None? then None else Some((d.value.0, n.value))
  }

  /** /Time:\s*(\d+).*Errors:\s*(\d+)/is at i: the greedy `.*` reaches the last "Errors:". */
  function TimeThenErrorsAt(s: string, i: nat): Option<(nat, nat)> {
    if !CiAt(s, i, "Time:") then None
    else match DigitsAt(s, SpacesEnd(s, i + 5))
      case None => None
      case Some((t, e)) =>
        match Rightmost(s, ErrorsLabelAt, e, |s|)
        case Some(n) => Some((t, n))
        case None => None
  }

  /** /(\d+)\s*,\s*(\d+)/ at i. */
  function NumberPairAt(s: string, i: nat): Option<(nat, nat)> {
    match DigitsAt(s, i)
    case None => None
    case Some((a, e)) =>
      var c := SpacesEnd(s, e);
      if c < |s| && s[c] == ',' then
        match NumberAt(s, SpacesEnd(s, c + 1))
        case Some(b) => Some((a, b))
        case None => None
      else None
  }

  /** `(\d+)\s+errors?` at p, case-insensitive. */
  function ErrorsTailAt(s: string, p: nat): Option<nat> {
    match DigitsAt(s, p)
    case None => None
    case Some((n, e)) =>
      var j := SpacesEnd(s, e);
      if j > e && CiAt(s, j, "error") then Some(n) else None
  }

  /** `(\d+)\s+<unit>.*?(\d+)\s+errors?` at i: the lazy `.*?` stops at the first place the rest matches. */
  function UnitThenErrorsAt(s: string, i: nat, unit: string): Option<(nat, nat)> {
    match DigitsAt(s, i)
    case None => None
    case Some((t, e)) =>
      var j := SpacesEnd(s, e);
      if j > e && CiAt(s, j, unit) then
        match Leftmost(s, ErrorsTailAt, j + |unit|)
        case Some(n) => Some((t, n))
        case None => None
      else None
  }

  /** /(\d+)\s+seconds?.*?(\d+)\s+errors?/is at i. The optional `s` needs no
      case of its own: it is no digit, so the lazy search from before it
      finds what the search from after it finds. */
  function SecondsErrorsAt(s: string, i: nat): Option<(nat, nat)> {
    UnitThenErrorsAt(s, i, "second")
  }

  /** /(\d+)\s+sec.*?(\d+)\s+errors?/is at i. */
  function SecErrorsAt(s: string, i: nat): Option<(nat, nat)> {
    UnitThenErrorsAt(s, i, "sec")
  }

  const KeywordPatterns: seq<(string, nat) -> Option<(nat, nat)>> :=
    [TimeCommaErrorsAt, TimeThenErrorsAt, NumberPairAt, SecondsErrorsAt, SecErrorsAt]

  /** The score of a time and an error count: the seconds plus ten per error. */
  function TimePlusErrors(m: Option<(nat, nat)>): (r: Option<real>)
    ensures r.Some? <==> m.Some?
    ensures r.Some? ==> r.value >= m.value.0 as real && r.value - m.value.0 as real == 10.0 * m.value.1 as real
  {
    if m.Some? then Some((m.value.0 + 10 * m.value.1) as real) else None
  }

  /** Keyword's score, from the first of the five patterns that matches
      (shareParser.js:6-17). */
  function KeywordScore(s: string): Option<real> {
    TimePlusErrors(FirstOf(s, KeywordPatterns))
  }

  // ---------------------------------------------------------------------
  // Connections: lines that are not one colour (shareParser.js:25-42)

  /** The code units of the class [🟪🟦🟩🟨]. */
  const ConnectionsUnits: set<int> := {0xD83D, 0xDFEA, 0xDFE6, 0xDFE9, 0xDFE8}

  /** The code units of the class [⬜🟨🟩]. */
  const WordleUnits: set<int> := {0x2B1C, 0xD83D, 0xDFE8, 0xDFE9}

  predicate IsConnectionsGlyph(c: char) { InUnitClass(c, ConnectionsUnits) }

  predicate HasConnectionsGlyph(t: string) { exists k :: 0 <= k < |t| && IsConnectionsGlyph(t[k]) }

  /** /^[g]+$/ for a square g. Its class holds g's two code units, the
      lead unit 0xD83D and a trail unit; as a lead unit is never a trail
      unit, a string matches exactly when it is a run of g. */
  predicate AllOf(t: string, g: char) { |t| > 0 && forall k :: 0 <= k < |t| ==> t[k] == g }

  /** A line solved in one try: one colour all along. */
  predicate IsUniform(t: string) {
    AllOf(t, Purple) || AllOf(t, Blue) || AllOf(t, Green) || AllOf(t, Yellow)
  }

  /** The filter of shareParser.js:26-30: the trimmed line is non-empty and shows a square. */
  predicate IsMarkerLine(line: string) {
    var t := JsTrim(line);
    |t| > 0 && HasConnectionsGlyph(t)
  }

  predicate IsErrorLine(line: string) { !IsUniform(JsTrim(line)) }

  function MarkerLines(text: string): seq<string> { Filter(Split(text, '\n'), IsMarkerLine) }

  /** The Connections score: the marker lines that are not of one colour. */
  function ConnectionsErrors(text: string): nat {
    |Filter(MarkerLines(text), IsErrorLine)|
  }

  /** The `for` loop of shareParser.js:34-40, which counts the error lines. */
  method CountErrorLines(lines: seq<string>) returns (errors: nat)
    ensures errors == |Filter(lines, IsErrorLine)|
  {
    errors := 0;
    for k := 0 to |lines|
      invariant errors == |Filter(lines[..k], IsErrorLine)|
    {
      assert lines[..k + 1] == lines[..k] + [lines[k]];
      FilterSnoc(lines[..k], lines[k], IsErrorLine);
      if !IsUniform(JsTrim(lines[k])) {
        errors := errors + 1;
      }
    }
    assert lines[..|lines|] == lines;
  }

  /** shareParser.js:26-41: the marker lines, then the count of those not of one colour. */
  method CountConnectionsErrors(text: string) returns (errors: nat)
    ensures errors == ConnectionsErrors(text)
    ensures errors <= |MarkerLines(text)|
  {
    errors := CountErrorLines(MarkerLines(text));
  }

  // ---------------------------------------------------------------------
  // Wordle: lines with a square (shareParser.js:45-52)

  predicate IsWordleGlyph(c: char) { InUnitClass(c, WordleUnits) }

  predicate HasWordleGlyph(t: string) { exists k :: 0 <= k < |t| && IsWordleGlyph(t[k]) }

  predicate IsGuessLine(line: string) { HasWordleGlyph(JsTrim(line)) }

  /** The Wordle score: the number of lines that show a square. */
  function WordleGuesses(text: string): nat {
    |Filter(Split(text, '\n'), IsGuessLine)|
  }

  // ---------------------------------------------------------------------
  // Pyramid Scheme: a time in seconds (shareParser.js:56-95)

  /** `(\d+):(\d+)` at j. */
  function ColonTimeAt(s: string, j: nat): Option<(nat, nat)> {
    match DigitsAt(s, j)
    case None => None
    case Some((m, e)) =>
      if e < |s| && s[e] == ':' then
        match NumberAt(s, e + 1)
        case Some(sec) => Some((m, sec))
        case None => None
      else None
  }

  /** `<prefix>(\d+):(\d+)` at i, case-insensitive. */
  function LabelledTimeAt(s: string, i: nat, prefix: string): Option<(nat, nat)> {
    if CiAt(s, i, prefix) then ColonTimeAt(s, i + |prefix|) else None
  }

  function SolvedOnExpertModeAt(s: string, i: nat): Option<(nat, nat)> {
    LabelledTimeAt(s, i, "Solved on Expert Mode in ")
  }

  function SolvedInAt(s: string, i: nat): Option<(nat, nat)> {
    LabelledTimeAt(s, i, "Solved in ")
  }

  function ExpertModeInAt(s: string, i: nat): Option<(nat, nat)> {
    LabelledTimeAt(s, i, "Expert Mode in ")
  }

  function CompletedInAt(s: string, i: nat): Option<(nat, nat)> {
    LabelledTimeAt(s, i, "Completed in ")
  }

  /** `\s*(\d+):(\d{1,2})\b` at j. */
  function ShortTimeAfter(s: string, j: nat): Option<(nat, nat)>
    requires j <= |s|
  {
    match DigitsAt(s, SpacesEnd(s, j))
    case None => None
    case Some((m, e)) =>
      if e < |s| && s[e] == ':' then
        match ShortNumberAt(s, e + 1)
        case Some(sec) => Some((m, sec))
        case None => None
      else None
  }

  /** /(?:in|:)\s*(\d+):(\d{1,2})\b/ at i (case-sensitive). */
  function InOrColonTimeAt(s: string, i: nat): Option<(nat, nat)> {
    if AtPos(s, i, "in") then ShortTimeAfter(s, i + 2)
    else if AtPos(s, i, ":") then ShortTimeAfter(s, i + 1)
    else None
  }

  /** /\b(\d{1,2}):(\d{1,2})\b/ at i. */
  function BareTimeAt(s: string, i: nat): Option<(nat, nat)> {
    if i > |s| || !BoundaryAt(s, i) then None
    else match DigitsAt(s, i)
      case None => None
      case Some((m, e)) =>
        if e - i <= 2 && e < |s| && s[e] == ':' then
          match ShortNumberAt(s, e + 1)
          case Some(sec) => Some((m, sec))
          case None => None
        else None
  }

  /** The six M:SS patterns of shareParser.js:58-65, in their order. */
  const MmSsPatterns: seq<(string, nat) -> Option<(nat, nat)>> :=
    [SolvedOnExpertModeAt, SolvedInAt, ExpertModeInAt, CompletedInAt, InOrColonTimeAt, BareTimeAt]

  /** A minutes:seconds reading is accepted when both parts are below 60. */
  function AcceptedTime(t: Option<(nat, nat)>): (r: Option<nat>)
    ensures r.Some? <==> t.Some? && t.value.0 < 60 && t.value.1 < 60
    ensures r.Some? ==> r.value == t.value.0 * 60 + t.value.1 && r.value < 3600
  {
    if t.Some? && t.value.0 < 60 && t.value.1 < 60 then Some(t.value.0 * 60 + t.value.1) else None
  }

  /** The scan of the M:SS patterns: the first pattern, in order, whose
      leftmost match has minutes and seconds below 60. */
  function FirstAcceptedTime(s: string, pats: seq<(string, nat) -> Option<(nat, nat)>>): (r: Option<nat>)
    ensures r.Some? ==> r.value < 3600
  {
    if pats == [] then None
    else
      var t := AcceptedTime(Leftmost(s, pats[0], 0));
      if t.Some? then t else FirstAcceptedTime(s, pats[1..])
  }

  /** The `for` loop of shareParser.js:66-75 with its early return. */
  method ScanTimePatterns(s: string) returns (r: Option<nat>)
    ensures r == FirstAcceptedTime(s, MmSsPatterns)
  {
    var pats := MmSsPatterns;
    for k := 0 to |pats|
      invariant FirstAcceptedTime(s, pats) == FirstAcceptedTime(s, pats[k..])
    {
      assert pats[k..][1..] == pats[k + 1..];
      var m := Leftmost(s, pats[k], 0);
      if m.Some? {
        var minutes, seconds := m.value.0, m.value.1;
        if seconds < 60 && minutes < 60 {
          return Some(minutes * 60 + seconds);
        }
      }
    }
    return None;
  }

  /** /(\d+)\s*seconds?/i at i. */
  function SecondsAt(s: string, i: nat): Option<nat> {
    match DigitsAt(s, i)
    case None => None
    case Some((v, e)) => if CiAt(s, SpacesEnd(s, e), "second") then Some(v) else None
  }

  /** /(\d+)\s*sec\b/i at i. */
  function SecAt(s: string, i: nat): Option<nat> {
    match DigitsAt(s, i)
    case None => None
    case Some((v, e)) =>
      var j := SpacesEnd(s, e);
      if CiAt(s, j, "sec") && (j + 3 == |s| || !IsWordChar(s[j + 3])) then Some(v) else None
  }

  predicate IsColon(c: char) { c == ':' || c == '\U{2236}' }

  /** /0\s*[:∶]\s*(\d{1,2})\b/ at i. */
  function ZeroColonAt(s: string, i: nat): Option<nat> {
    if i >= |s| || s[i] != '0' then None
    else
      var j := SpacesEnd(s, i + 1);
      if j < |s| && IsColon(s[j]) then ShortNumberAt(s, SpacesEnd(s, j + 1)) else None
  }

  /** /(\d{1,2})\s*[:∶]\s*(\d{1,2})\b/ at i. */
  function LooseTimeAt(s: string, i: nat): Option<(nat, nat)> {
    match DigitsAt(s, i)
    case None => None
    case Some((m, e)) =>
      var j := SpacesEnd(s, e);
      if e - i <= 2 && j < |s| && IsColon(s[j]) then
        match ShortNumberAt(s, SpacesEnd(s, j + 1))
        case Some(sec) => Some((m, sec))
        case None => None
      else None
  }

  /** Pyramid Scheme's time in seconds: the M:SS patterns, then a number of
      seconds below 3600, then "0:SS", then any M:SS with optional spaces. */
  function PyramidTime(s: string): (r: Option<nat>)
    ensures r.Some? ==> r.value < 3600
  {
    var t := FirstAcceptedTime(s, MmSsPatterns);
    if t.Some? then t
    else
      var secOnly := FirstOf(s, [SecondsAt, SecAt]);
      if secOnly.Some? && secOnly.value < 3600 then secOnly
      else
        var zero := Leftmost(s, ZeroColonAt, 0);
        if zero.Some? && zero.value < 60 then zero
        else AcceptedTime(Leftmost(s, LooseTimeAt, 0))
  }

  // ---------------------------------------------------------------------
  // Bracket City: a labelled score (shareParser.js:98-113)

  /** `<prefix>\s*(\d+(?:\.\d+)?)` at i, case-insensitive. */
  function LabelledNumberAt(s: string, i: nat, prefix: string): Option<real> {
    if !CiAt(s, i, prefix) then None
    else match DecimalAt(s, SpacesEnd(s, i + |prefix|))
      case Some((v, _)) => Some(v)
      case None => None
  }

  function TotalScoreAt(s: string, i: nat): Option<real> { LabelledNumberAt(s, i, "Total Score:") }

  function ScoreLabelAt(s: string, i: nat): Option<real> { LabelledNumberAt(s, i, "Score:") }

  function ScoreIsAt(s: string, i: nat): Option<real> { LabelledNumberAt(s, i, "score is") }

  /** /(\d+(?:\.\d+)?)\s*points?/i at i. */
  function PointsAt(s: string, i: nat): Option<real> {
    match DecimalAt(s, i)
    case None => None
    case Some((v, e)) => if CiAt(s, SpacesEnd(s, e), "point") then Some(v) else None
  }

  /** /(\d+(?:\.\d+)?)\s*\/\s*\d+/ at i. */
  function FractionAt(s: string, i: nat): Option<real> {
    match DecimalAt(s, i)
    case None => None
    case Some((v, e)) =>
      var j := SpacesEnd(s, e);
      if j < |s| && s[j] == '/' && DigitsAt(s, SpacesEnd(s, j + 1)).Some? then Some(v) else None
  }

  const BracketPatterns: seq<(string, nat) -> Option<real>> :=
    [TotalScoreAt, ScoreLabelAt, ScoreIsAt, PointsAt, FractionAt]

  /** The first pattern, in order, whose capture reads as a number >= 0. */
  function FirstNonNegative(s: string, pats: seq<(string, nat) -> Option<real>>): (r: Option<real>)
    ensures r.Some? ==> r.value >= 0.0
  {
    if pats == [] then None
    else
      var m := Leftmost(s, pats[0], 0);
      if m.Some? && m.value >= 0.0 then m else FirstNonNegative(s, pats[1..])
  }

  /** Bracket City's score. */
  function BracketScore(s: string): Option<real> { FirstNonNegative(s, BracketPatterns) }

  /** The `for` loop of shareParser.js:106-112 with its early return. */
  method ScanBracketPatterns(s: string) returns (r: Option<real>)
    ensures r == BracketScore(s)
  {
    var pats := BracketPatterns;
    for k := 0 to |pats|
      invariant FirstNonNegative(s, pats) == FirstNonNegative(s, pats[k..])
    {
      assert pats[k..][1..] == pats[k + 1..];
      var m := Leftmost(s, pats[k], 0);
      if m.Some? {
        var score := m.value;
        if score >= 0.0 {
          return Some(score);
        }
      }
    }
    return None;
  }

  // ---------------------------------------------------------------------
  // The parser's own pattern (shareParser.js:116-125)

  /** `match[1]` when it is a non-empty string, read by parseFloat. */
  function SecondElementNumber(m: RegexOutcome): Option<real> {
    if m.Matched? && |m.elements| > 1 && m.elements[1].Some? && |m.elements[1].value| > 0 then
      ParseFloat(m.elements[1].value)
    else None
  }

  /** The parser's pattern with the 'm' flag, and with 'g' when that finds
      nothing. A pattern the engine refuses throws, and the catch of
      shareParser.js:170-173 makes the whole answer null. */
  function GenericPatternStep(text: string, p: ParserConfig, host: Host): Step {
    var m := host.regex(p.pattern, Multiline, text);
    if m.BadPattern? then Done(None)
    else
      var m := if m.NoMatch? then host.regex(p.pattern, Global, text) else m;
      if m.BadPattern? then Done(None)
      else
        var v := SecondElementNumber(m);
        if v.Some? then Done(v) else Next
  }

  /** Everything a parser of type 'regex' tries, in order. */
  function RegexStep(text: string, p: ParserConfig, slug: string, host: Host): Step {
    if slug == "connections" && p.scorePath == "count_errors" then
      Done(Some(ConnectionsErrors(text) as real))
    else if slug == "wordle" && p.scorePath == "count_lines" then
      Done(Some(WordleGuesses(text) as real))
    else
      var t := if slug == "pyramid-scheme" && p.scorePath == "time_mm_ss" then PyramidTime(text) else None;
      if t.Some? then Done(Some(t.value as real))
      else
        var b := if slug == "bracket-city" then BracketScore(text) else None;
        if b.Some? then Done(b)
        else GenericPatternStep(text, p, host)
  }

  // ---------------------------------------------------------------------
  // Spelling Bee rank (shareParser.js:129-146)

  /** /Queen\s+Bee/i at i. */
  predicate QueenBeeAt(s: string, i: nat) {
    CiAt(s, i, "Queen") && var j := SpacesEnd(s, i + 5); j > i + 5 && CiAt(s, j, "Bee")
  }

  function QueenBeeMatch(s: string, i: nat): Option<()> { if QueenBeeAt(s, i) then Some(()) else None }

  function GeniusMatch(s: string, i: nat): Option<()> { if CiAt(s, i, "Genius") then Some(()) else None }

  /** The rank read from the URL parameter. */
  function ParamRank(param: Option<string>): (r: nat)
    ensures r <= 2
    ensures r == 2 <==> param == Some("Queen Bee")
    ensures r == 1 <==> param == Some("Genius")
  {
    if param == Some("Queen Bee") then 2 else if param == Some("Genius") then 1 else 0
  }

  /** The rank read from text that is not a URL: "Queen Bee" before "Genius". */
  function TextRank(s: string): (r: nat)
    ensures r <= 2
    ensures r == 2 <==> exists i :: 0 <= i <= |s| && QueenBeeAt(s, i)
    ensures r == 1 <==> (forall i :: 0 <= i <= |s| ==> !QueenBeeAt(s, i))
                        && exists i :: 0 <= i <= |s| && CiAt(s, i, "Genius")
  {
    LeftmostSpec(s, QueenBeeMatch, 0);
    if Leftmost(s, QueenBeeMatch, 0).Some? then 2
    else
      assert forall i :: 0 <= i <= |s| ==> !QueenBeeAt(s, i) by {
        forall i | 0 <= i <= |s| ensures !QueenBeeAt(s, i) {
          assert QueenBeeMatch(s, i).None?;
        }
      }
      LeftmostSpec(s, GeniusMatch, 0);
      assert (exists i :: 0 <= i <= |s| && CiAt(s, i, "Genius")) <==> Leftmost(s, GeniusMatch, 0).Some? by {
        if Leftmost(s, GeniusMatch, 0).None? {
          forall i | 0 <= i <= |s| ensures !CiAt(s, i, "Genius") {
            assert GeniusMatch(s, i).None?;
          }
        } else {
          var i :| 0 <= i <= |s| && GeniusMatch(s, i) == Leftmost(s, GeniusMatch, 0);
          assert CiAt(s, i, "Genius");
        }
      }
      if Leftmost(s, GeniusMatch, 0).Some? then 1 else 0
  }

  function UrlStep(text: string, p: ParserConfig, slug: string, host: Host): Step {
    var rank := slug == "spelling-bee" && p.scorePath == "spelling_bee_rank";
    match host.urlParam(text, p.pattern)
    case Url(param) => if rank then Done(Some(ParamRank(param) as real)) else Next
    case NotAUrl => if rank then Done(Some(TextRank(text) as real)) else Next
  }

  // ---------------------------------------------------------------------
  // The first number of the text (shareParser.js:149-169)

  predicate IsAboveOne(n: real) { n > 1.0 }

  function RawNumberScore(s: string, slug: string): Option<real> {
    match Leftmost(s, NumberAt, 0)
    case None => None
    case Some(n) =>
      var all := DigitRuns(s, 0);
      if slug == "pyramid-scheme" && n == 0 && |all| >= 2 && 1 <= all[1] < 60 then Some(all[1] as real)
      else
        var big := Filter(Decimals(s, 0), IsAboveOne);
        if slug == "bracket-city" && n == 1 && |big| > 0 then Some(Max(big))
        else Some(n as real)
  }

  // ---------------------------------------------------------------------
  // The whole chain

  /** What a parser row yields once the Keyword extractor has not answered:
      the stage for its pattern type, then the first number of the text. */
  function ParserScore(text: string, p: ParserConfig, slug: string, host: Host): Option<real> {
    var step := if p.patternType == "regex" then RegexStep(text, p, slug, host) else Next;
    if step.Done? then step.score
    else
      var step := if p.patternType == "url_param" then UrlStep(text, p, slug, host) else Next;
      if step.Done? then step.score
      else RawNumberScore(text, slug)
  }

  /** parseShareString(shareText, parser, gameSlug). */
  function ShareScore(text: string, parser: Option<ParserConfig>, slug: string, host: Host): Option<real> {
    var kw := if slug == "keyword" && |text| > 0 then KeywordScore(text) else None;
    if kw.Some? then kw
    else if parser.None? then None
    else ParserScore(text, parser.value, slug, host)
  }

  /** The part of parseShareString for a parser of type 'regex' (shareParser.js:23-126). */
  method RunRegexStep(shareText: string, p: ParserConfig, gameSlug: string, host: Host) returns (step: Step)
    ensures step == RegexStep(shareText, p, gameSlug, host)
  {
    if gameSlug == "connections" && p.scorePath == "count_errors" {
      var errors := CountConnectionsErrors(shareText);
      return Done(Some(errors as real));
    }
    if gameSlug == "wordle" && p.scorePath == "count_lines" {
      return Done(Some(WordleGuesses(shareText) as real));
    }
    if gameSlug == "pyramid-scheme" && p.scorePath == "time_mm_ss" {
      var t := ScanTimePatterns(shareText);
      if t.None? {
        t := PyramidTail(shareText);
      }
      if t.Some? {
        return Done(Some(t.value as real));
      }
    }
    if gameSlug == "bracket-city" {
      var b := ScanBracketPatterns(shareText);
      if b.Some? {
        return Done(b);
      }
    }
    return GenericPatternStep(shareText, p, host);
  }

  /** parseShareString as the source runs it, with its early returns. */
  method ParseShareString(shareText: string, parser: Option<ParserConfig>, gameSlug: string, host: Host)
    returns (r: Option<real>)
    ensures r == ShareScore(shareText, parser, gameSlug, host)
  {
    if gameSlug == "keyword" && |shareText| > 0 {
      var score := KeywordScore(shareText);
      if score.Some? {
        return score;
      }
    }
    if parser.None? {
      return None;
    }
    r := ParseWithParser(shareText, parser.value, gameSlug, host);
  }

  /** The part of parseShareString after `if (!parser) return null`. */
  method ParseWithParser(shareText: string, p: ParserConfig, gameSlug: string, host: Host) returns (r: Option<real>)
    ensures r == ParserScore(shareText, p, gameSlug, host)
  {
    if p.patternType == "regex" {
      var step := RunRegexStep(shareText, p, gameSlug, host);
      if step.Done? {
        return step.score;
      }
    }
    if p.patternType == "url_param" {
      var step := UrlStep(shareText, p, gameSlug, host);
      if step.Done? {
        return step.score;
      }
    }
    return RawNumberScore(shareText, gameSlug);
  }

  /** The seconds-only and loose M:SS forms tried after the pattern scan (shareParser.js:77-94). */
  method PyramidTail(s: string) returns (r: Option<nat>)
    requires FirstAcceptedTime(s, MmSsPatterns).None?
    ensures r == PyramidTime(s)
  {
    var secOnly := FirstOf(s, [SecondsAt, SecAt]);
    if secOnly.Some? && secOnly.value < 3600 {
      return secOnly;
    }
    var zeroColon := Leftmost(s, ZeroColonAt, 0);
    if zeroColon.Some? && zeroColon.value < 60 {
      return zeroColon;
    }
    return AcceptedTime(Leftmost(s, LooseTimeAt, 0));
  }
}

/** Properties of the share-text extractors. */
module ShareParserFacts {
  import opened Wrappers
  import opened Text
  import opened Seqs
  import opened Matchers
  import opened ShareParser

  // ---------------------------------------------------------------------
  // Keyword

  /** `Errors:\s*(\d+)` reads "Errors: E". */
  lemma {:induction false} ErrorsLabelOf(s: string, i: nat, e: string)
    requires |e| > 0 && AllDigits(e)
    requires AtPos(s, i, "Errors:") && i + 7 < |s| && s[i + 7] == ' ' && AtPos(s, i + 8, e)
    requires i + 8 + |e| == |s| || !IsDigit(s[i + 8 + |e|])
    ensures ErrorsLabelAt(s, i) == Some(NatOf(e))
  {
    ExactIsCi(s, i, "Errors:");
    AtPosChar(s, i + 8, e, 0);
    DigitIsNoSpace(e[0]);
    OneSpace(s, i + 7);
    DigitsAtOf(s, i + 8, e);
  }

  /** The first Keyword pattern reads "Time: T, Errors: E". */
  lemma {:induction false} TimeCommaErrorsOf(s: string, t: string, e: string)
    requires |t| > 0 && AllDigits(t) && |e| > 0 && AllDigits(e)
    requires AtPos(s, 0, "Time:") && 5 < |s| && s[5] == ' ' && AtPos(s, 6, t)
    requires 7 + |t| < |s| && s[6 + |t|] == ',' && s[7 + |t|] == ' '
    requires AtPos(s, 8 + |t|, "Errors:") && 15 + |t| < |s| && s[15 + |t|] == ' ' && AtPos(s, 16 + |t|, e)
    requires 16 + |t| + |e| == |s| || !IsDigit(s[16 + |t| + |e|])
    ensures TimeCommaErrorsAt(s, 0) == Some((NatOf(t), NatOf(e)))
  {
    var a := 6 + |t|;
    assert CiAt(s, 0, "Time:") by {
      ExactIsCi(s, 0, "Time:");
    }
    assert SpacesEnd(s, 5) == 6 by {
      AtPosChar(s, 6, t, 0);
      DigitIsNoSpace(t[0]);
      OneSpace(s, 5);
    }
    assert DigitsAt(s, 6) == Some((NatOf(t), a)) by {
      DigitsAtOf(s, 6, t);
    }
    CommaErrorsOf(s, a, e);
    TimeCommaErrorsStep(s, a, NatOf(t), NatOf(e));
  }

  /** `\s*,\s*Errors:\s*(\d+)` reads ", Errors: E". */
  lemma {:induction false} CommaErrorsOf(s: string, j: nat, e: string)
    requires |e| > 0 && AllDigits(e)
    requires j + 1 < |s| && s[j] == ',' && s[j + 1] == ' '
    requires AtPos(s, j + 2, "Errors:") && j + 9 < |s| && s[j + 9] == ' ' && AtPos(s, j + 10, e)
    requires j + 10 + |e| == |s| || !IsDigit(s[j + 10 + |e|])
    ensures CommaErrorsAt(s, j) == Some(NatOf(e))
  {
    NoSpaces(s, j);
    AtPosChar(s, j + 2, "Errors:", 0);
    OneSpace(s, j + 1);
    ErrorsLabelOf(s, j + 2, e);
    CommaErrorsStep(s, j, NatOf(e));
  }

  lemma {:induction false} CommaErrorsStep(s: string, j: nat, v: nat)
    requires j + 2 <= |s| && s[j] == ','
    requires SpacesEnd(s, j) == j && SpacesEnd(s, j + 1) == j + 2 && ErrorsLabelAt(s, j + 2) == Some(v)
    ensures CommaErrorsAt(s, j) == Some(v)
  {
  }

  lemma {:induction false} TimeCommaErrorsStep(s: string, a: nat, t: nat, e: nat)
    requires 6 <= a <= |s|
    requires CiAt(s, 0, "Time:") && SpacesEnd(s, 5) == 6 && DigitsAt(s, 6) == Some((t, a))
    requires CommaErrorsAt(s, a) == Some(e)
    ensures TimeCommaErrorsAt(s, 0) == Some((t, e))
  {
  }

  /** The share text "Time: T, Errors: E" followed by rest. */
  function KeywordText(t: string, e: string, rest: string): string {
    "Time: " + t + ", Errors: " + e + rest
  }

  /** Where the pieces of KeywordText lie. */
  lemma {:induction false} KeywordPieces(t: string, e: string, rest: string)
    requires rest == [] || !IsDigit(rest[0])
    ensures var s := KeywordText(t, e, rest);
            AtPos(s, 0, "Time:") && 5 < |s| && s[5] == ' ' && AtPos(s, 6, t)
            && 7 + |t| < |s| && s[6 + |t|] == ',' && s[7 + |t|] == ' '
            && AtPos(s, 8 + |t|, "Errors:") && 15 + |t| < |s| && s[15 + |t|] == ' ' && AtPos(s, 16 + |t|, e)
            && (16 + |t| + |e| == |s| || !IsDigit(s[16 + |t| + |e|]))
  {
    var x1 := "Time:" + " " + t;
    var x2 := x1 + "," + " " + "Errors:" + " ";
    var s := x2 + e + rest;
    assert s == KeywordText(t, e, rest);
    assert s[..|x2|] == x2 && s[|x2|..|x2| + |e|] == e;
    assert x1[..5] == "Time:" && x1[6..] == t;
    assert x2[..|x1|] == x1 && x2[|x1| + 2..|x1| + 9] == "Errors:";
    assert AtPos(s, 6, t) by {
      assert s[6..6 + |t|] == x1[6..];
    }
    assert AtPos(s, 8 + |t|, "Errors:") by {
      assert s[8 + |t|..15 + |t|] == x2[|x1| + 2..|x1| + 9];
    }
    assert 16 + |t| + |e| == |s| || !IsDigit(s[16 + |t| + |e|]) by {
      if rest != [] {
        assert s[16 + |t| + |e|] == rest[0];
      }
    }
  }

  /** The Keyword patterns read "Time: T, Errors: E" as T + 10·E. */
  lemma {:induction false} KeywordTextScore(t: string, e: string, rest: string)
    requires |t| > 0 && AllDigits(t) && |e| > 0 && AllDigits(e)
    requires rest == [] || !IsDigit(rest[0])
    ensures KeywordScore(KeywordText(t, e, rest)) == TimePlusErrors(Some((NatOf(t), NatOf(e))))
  {
    var s := KeywordText(t, e, rest);
    KeywordPieces(t, e, rest);
    TimeCommaErrorsOf(s, t, e);
    KeywordFirstPattern(s, NatOf(t), NatOf(e));
  }

  /** "Time: T, Errors: E" at the start of the text scores T + 10·E,
      whatever parser row there is. */
  lemma {:induction false} KeywordTimeErrors(t: string, e: string, rest: string, parser: Option<ParserConfig>, host: Host)
    requires |t| > 0 && AllDigits(t) && |e| > 0 && AllDigits(e)
    requires rest == [] || !IsDigit(rest[0])
    ensures ShareScore(KeywordText(t, e, rest), parser, "keyword", host) == Some((NatOf(t) + 10 * NatOf(e)) as real)
  {
    var s := KeywordText(t, e, rest);
    KeywordTextScore(t, e, rest);
    assert KeywordScore(s) == Some((NatOf(t) + 10 * NatOf(e)) as real);
    KeywordDecides(s, parser, host);
  }

  /** For Keyword, a match of its patterns decides the score before any parser row is looked at. */
  lemma {:induction false} KeywordDecides(text: string, parser: Option<ParserConfig>, host: Host)
    requires |text| > 0 && KeywordScore(text).Some?
    ensures ShareScore(text, parser, "keyword", host) == KeywordScore(text)
  {
  }

  /** When the first Keyword pattern matches at the start, it decides the score. */
  lemma {:induction false} KeywordFirstPattern(s: string, t: nat, e: nat)
    requires TimeCommaErrorsAt(s, 0) == Some((t, e))
    ensures FirstOf(s, KeywordPatterns) == Some((t, e))
  {
    assert KeywordPatterns[0] == TimeCommaErrorsAt;
    assert Leftmost(s, KeywordPatterns[0], 0) == Some((t, e));
  }

  // ---------------------------------------------------------------------
  // Connections and Wordle: which lines count

  /** No character of either square class is whitespace. */
  lemma {:induction false} GlyphIsNoSpace(c: char)
    requires InUnitClass(c, ConnectionsUnits) || InUnitClass(c, WordleUnits)
    ensures !IsJsSpace(c)
  {
  }

  /** The four squares are in the Connections class, the Wordle three in the Wordle class. */
  lemma {:induction false} SquaresInClasses()
    ensures IsConnectionsGlyph(Purple) && IsConnectionsGlyph(Blue) && IsConnectionsGlyph(Green) && IsConnectionsGlyph(Yellow)
    ensures IsWordleGlyph(White) && IsWordleGlyph(Yellow) && IsWordleGlyph(Green)
  {
  }

  /** Every character from U+1F400 to U+1F7FF counts as a Connections and
      as a Wordle glyph, a coloured square or not. */
  lemma {:induction false} LeadUnitIsGlyph(c: char)
    requires 0x1_F400 <= c as int < 0x1_F800
    ensures IsConnectionsGlyph(c) && IsWordleGlyph(c)
  {
    LeadUnitD83D(c);
  }

  /** Trimming keeps every character that is not whitespace. */
  lemma {:induction false} TrimmedHas(line: string, k: nat)
    requires k < |line| && !IsJsSpace(line[k])
    ensures exists j :: 0 <= j < |JsTrim(line)| && JsTrim(line)[j] == line[k]
  {
    TrimKeeps(line, IsJsSpace, k, k + 1);
    var a := TrimBounds(line, IsJsSpace).0;
    assert JsTrim(line)[k - a..k + 1 - a] == line[k..k + 1];
    assert JsTrim(line)[k - a] == line[k];
  }

  /** A character of the trimmed line is a character of the line. */
  lemma {:induction false} TrimmedFrom(line: string, j: nat)
    requires j < |JsTrim(line)|
    ensures exists k :: 0 <= k < |line| && line[k] == JsTrim(line)[j]
  {
    var ab := TrimBounds(line, IsJsSpace);
    assert JsTrim(line)[j] == line[ab.0 + j];
  }

  /** A line is a Connections marker line exactly when it contains a
      character of the square class: trimming does not matter. */
  lemma {:induction false} MarkerLineIffGlyph(line: string)
    ensures IsMarkerLine(line) <==> HasConnectionsGlyph(line)
  {
    if HasConnectionsGlyph(line) {
      var k :| 0 <= k < |line| && IsConnectionsGlyph(line[k]);
      GlyphIsNoSpace(line[k]);
      TrimmedHas(line, k);
    }
    if IsMarkerLine(line) {
      var j :| 0 <= j < |JsTrim(line)| && IsConnectionsGlyph(JsTrim(line)[j]);
      TrimmedFrom(line, j);
    }
  }

  /** A line counts as a Wordle guess exactly when it contains a character
      of the class [⬜🟨🟩], whatever else it holds. */
  lemma {:induction false} GuessLineIffGlyph(line: string)
    ensures IsGuessLine(line) <==> HasWordleGlyph(line)
  {
    if HasWordleGlyph(line) {
      var k :| 0 <= k < |line| && IsWordleGlyph(line[k]);
      GlyphIsNoSpace(line[k]);
      TrimmedHas(line, k);
    }
    if IsGuessLine(line) {
      var j :| 0 <= j < |JsTrim(line)| && IsWordleGlyph(JsTrim(line)[j]);
      TrimmedFrom(line, j);
    }
  }

  /** Filtering twice is filtering by both conditions. */
  lemma {:induction false} FilterFilter<T>(s: seq<T>, p: T -> bool, q: T -> bool, pq: T -> bool)
    requires forall x :: pq(x) == (p(x) && q(x))
    ensures Filter(Filter(s, p), q) == Filter(s, pq)
  {
    if s != [] {
      FilterFilter(s[1..], p, q, pq);
      assert Filter(s, pq) == (if pq(s[0]) then [s[0]] else []) + Filter(s[1..], pq);
      if p(s[0]) {
        var fp := Filter(s, p);
        assert fp == [s[0]] + Filter(s[1..], p);
        assert fp[0] == s[0] && fp[1..] == Filter(s[1..], p);
        assert Filter(fp, q) == (if q(fp[0]) then [fp[0]] else []) + Filter(fp[1..], q);
        assert pq(s[0]) == q(s[0]);
      } else {
        assert !pq(s[0]);
        assert Filter(s, p) == Filter(s[1..], p);
      }
    }
  }

  predicate IsMixedMarkerLine(line: string) { IsMarkerLine(line) && IsErrorLine(line) }

  /** The Connections score of the lines joined by newlines: the number of
      lines that show a square and are not one colour. */
  lemma {:induction false} ConnectionsOfLines(lines: seq<string>)
    requires |lines| >= 1 && forall k :: 0 <= k < |lines| ==> '\n' !in lines[k]
    ensures ConnectionsErrors(Join(lines, '\n')) == |Filter(lines, IsMixedMarkerLine)|
    ensures ConnectionsErrors(Join(lines, '\n')) <= |Filter(lines, IsMarkerLine)|
  {
    SplitJoin(lines, '\n');
    FilterFilter(lines, IsMarkerLine, IsErrorLine, IsMixedMarkerLine);
  }

  /** The Wordle score of the lines joined by newlines: the number of lines
      that show a square, once each. */
  lemma {:induction false} WordleOfLines(lines: seq<string>)
    requires |lines| >= 1 && forall k :: 0 <= k < |lines| ==> '\n' !in lines[k]
    ensures WordleGuesses(Join(lines, '\n')) == |Filter(lines, IsGuessLine)| <= |lines|
  {
    SplitJoin(lines, '\n');
  }

  /** Adding a line to the grid adds one to the Wordle score exactly when the line shows a square. */
  lemma {:induction false} WordleOneMoreLine(lines: seq<string>, line: string)
    requires |lines| >= 1 && forall k :: 0 <= k < |lines| ==> '\n' !in lines[k]
    requires '\n' !in line
    ensures WordleGuesses(Join(lines + [line], '\n'))
            == WordleGuesses(Join(lines, '\n')) + (if HasWordleGlyph(line) then 1 else 0)
  {
    WordleOfLines(lines);
    WordleOfLines(lines + [line]);
    FilterSnoc(lines, line, IsGuessLine);
    GuessLineIffGlyph(line);
  }

  // ---------------------------------------------------------------------
  // Pyramid Scheme

  /** `(\d+):(\d+)` reads "M:SS". */
  lemma {:induction false} ColonTimeOf(s: string, j: nat, m: string, sec: string)
    requires |m| > 0 && AllDigits(m) && |sec| > 0 && AllDigits(sec)
    requires AtPos(s, j, m) && j + |m| < |s| && s[j + |m|] == ':' && AtPos(s, j + |m| + 1, sec)
    requires j + |m| + 1 + |sec| == |s| || !IsDigit(s[j + |m| + 1 + |sec|])
    ensures ColonTimeAt(s, j) == Some((NatOf(m), NatOf(sec)))
  {
    DigitsAtOf(s, j, m);
    DigitsAtOf(s, j + |m| + 1, sec);
    ColonTimeStep(s, j, j + |m|, NatOf(m), NatOf(sec));
  }

  lemma {:induction false} ColonTimeStep(s: string, j: nat, e: nat, m: nat, sec: nat)
    requires e < |s| && s[e] == ':'
    requires DigitsAt(s, j) == Some((m, e)) && NumberAt(s, e + 1) == Some(sec)
    ensures ColonTimeAt(s, j) == Some((m, sec))
  {
  }

  /** An accepted reading of the first M:SS pattern at the start decides Pyramid Scheme's time. */
  lemma {:induction false} PyramidFirstPattern(s: string, m: nat, sec: nat)
    requires SolvedOnExpertModeAt(s, 0) == Some((m, sec)) && m < 60 && sec < 60
    ensures PyramidTime(s) == Some(m * 60 + sec)
  {
    assert MmSsPatterns[0] == SolvedOnExpertModeAt;
    assert Leftmost(s, MmSsPatterns[0], 0) == Some((m, sec));
    assert FirstAcceptedTime(s, MmSsPatterns) == AcceptedTime(Some((m, sec)));
  }

  /** The share text "Solved on Expert Mode in M:SS" followed by rest. */
  function ExpertModeText(m: string, sec: string, rest: string): string {
    "Solved on Expert Mode in " + m + ":" + sec + rest
  }

  /** Where the pieces of ExpertModeText lie. */
  lemma {:induction false} ExpertModePieces(m: string, sec: string, rest: string)
    requires rest == [] || !IsDigit(rest[0])
    ensures var s := ExpertModeText(m, sec, rest);
            AtPos(s, 0, "Solved on Expert Mode in ") && AtPos(s, 25, m)
            && 25 + |m| < |s| && s[25 + |m|] == ':' && AtPos(s, 26 + |m|, sec)
            && (26 + |m| + |sec| == |s| || !IsDigit(s[26 + |m| + |sec|]))
  {
    var lead := "Solved on Expert Mode in ";
    var x1 := lead + m;
    var x2 := x1 + ":";
    var x3 := x2 + sec;
    var s := x3 + rest;
    assert s == ExpertModeText(m, sec, rest);
    AtPosConcat(lead, m);
    AtPosConcat(x1, ":");
    AtPosConcat(x2, sec);
    AtPosConcat(x3, rest);
    AtPosExtend(x1, ":", 0, lead);
    AtPosExtend(x2, sec, 0, lead);
    AtPosExtend(x3, rest, 0, lead);
    AtPosExtend(x1, ":", 25, m);
    AtPosExtend(x2, sec, 25, m);
    AtPosExtend(x3, rest, 25, m);
    AtPosExtend(x3, rest, |x2|, sec);
    assert s[25 + |m|] == ':' by {
      AtPosExtend(x2, sec, |x1|, ":");
      AtPosExtend(x3, rest, |x1|, ":");
      AtPosChar(s, |x1|, ":", 0);
    }
    if rest != [] {
      AtPosChar(s, |x3|, rest, 0);
    }
  }

  /** "Solved on Expert Mode in M:SS" at the start of the text gives M·60 + SS
      when both parts are below 60. */
  lemma {:induction false} PyramidExpertMode(m: string, sec: string, rest: string)
    requires |m| > 0 && AllDigits(m) && |sec| > 0 && AllDigits(sec)
    requires rest == [] || !IsDigit(rest[0])
    requires NatOf(m) < 60 && NatOf(sec) < 60
    ensures PyramidTime(ExpertModeText(m, sec, rest)) == Some(NatOf(m) * 60 + NatOf(sec))
  {
    var s := ExpertModeText(m, sec, rest);
    ExpertModePieces(m, sec, rest);
    ExpertModeOf(s, m, sec);
    PyramidFirstPattern(s, NatOf(m), NatOf(sec));
  }

  /** The first M:SS pattern reads "Solved on Expert Mode in M:SS". */
  lemma {:induction false} ExpertModeOf(s: string, m: string, sec: string)
    requires |m| > 0 && AllDigits(m) && |sec| > 0 && AllDigits(sec)
    requires AtPos(s, 0, "Solved on Expert Mode in ") && AtPos(s, 25, m)
    requires 25 + |m| < |s| && s[25 + |m|] == ':' && AtPos(s, 26 + |m|, sec)
    requires 26 + |m| + |sec| == |s| || !IsDigit(s[26 + |m| + |sec|])
    ensures SolvedOnExpertModeAt(s, 0) == Some((NatOf(m), NatOf(sec)))
  {
    ExactIsCi(s, 0, "Solved on Expert Mode in ");
    ColonTimeOf(s, 25, m, sec);
  }

  // ---------------------------------------------------------------------
  // Bracket City

  /** The share text "Total Score: I.F" followed by rest. */
  function TotalScoreText(ip: string, fp: string, rest: string): string {
    "Total Score: " + ip + "." + fp + rest
  }

  /** Where the pieces of TotalScoreText lie. */
  lemma {:induction false} TotalScorePieces(ip: string, fp: string, rest: string)
    requires rest == [] || !IsDigit(rest[0])
    ensures var s := TotalScoreText(ip, fp, rest);
            var a := 13 + |ip|;
            AtPos(s, 0, "Total Score:") && s[12] == ' ' && AtPos(s, 13, ip)
            && a < |s| && s[a] == '.' && AtPos(s, a + 1, fp)
            && (a + 1 + |fp| == |s| || !IsDigit(s[a + 1 + |fp|]))
  {
    var p := "Total Score: ";
    var x1 := p + ip;
    var x2 := x1 + ".";
    var x3 := x2 + fp;
    var s := x3 + rest;
    assert s == TotalScoreText(ip, fp, rest);
    AtPosConcat(p, ip);
    AtPosConcat(x1, ".");
    AtPosConcat(x2, fp);
    AtPosConcat(x3, rest);
    AtPosExtend(x1, ".", 0, p);
    AtPosExtend(x2, fp, 0, p);
    AtPosExtend(x3, rest, 0, p);
    AtPosExtend(x1, ".", 13, ip);
    AtPosExtend(x2, fp, 13, ip);
    AtPosExtend(x3, rest, 13, ip);
    AtPosExtend(x2, fp, |x1|, ".");
    AtPosExtend(x3, rest, |x1|, ".");
    AtPosExtend(x3, rest, |x2|, fp);
    assert p == "Total Score:" + " ";
    AtPosSplit(s, 0, "Total Score:", " ");
    AtPosChar(s, 12, " ", 0);
    AtPosChar(s, |x1|, ".", 0);
    if rest != [] {
      AtPosChar(s, |x3|, rest, 0);
    }
  }

  /** `Total Score:\s*(\d+(?:\.\d+)?)` reads "Total Score: I.F". */
  lemma {:induction false} TotalScoreOf(s: string, ip: string, fp: string)
    requires |ip| > 0 && AllDigits(ip) && |fp| > 0 && AllDigits(fp)
    requires AtPos(s, 0, "Total Score:") && |s| > 13 && s[12] == ' ' && AtPos(s, 13, ip)
    requires 13 + |ip| < |s| && s[13 + |ip|] == '.' && AtPos(s, 14 + |ip|, fp)
    requires 14 + |ip| + |fp| == |s| || !IsDigit(s[14 + |ip| + |fp|])
    ensures TotalScoreAt(s, 0) == Some(DecimalOf(ip, fp))
  {
    ExactIsCi(s, 0, "Total Score:");
    AtPosChar(s, 13, ip, 0);
    DigitIsNoSpace(ip[0]);
    OneSpace(s, 12);
    DecimalAtOf(s, 13, ip, fp);
  }

  /** When the Total Score pattern reads a number at the start, it is Bracket City's score. */
  lemma {:induction false} BracketFirstPattern(s: string, v: real)
    requires TotalScoreAt(s, 0) == Some(v) && v >= 0.0
    ensures BracketScore(s) == Some(v)
  {
    assert BracketPatterns[0] == TotalScoreAt;
    assert Leftmost(s, BracketPatterns[0], 0) == Some(v);
  }

  /** "Total Score: I.F" at the start of the text gives I.F. */
  lemma {:induction false} BracketTotalScore(ip: string, fp: string, rest: string)
    requires |ip| > 0 && AllDigits(ip) && |fp| > 0 && AllDigits(fp)
    requires rest == [] || !IsDigit(rest[0])
    ensures BracketScore(TotalScoreText(ip, fp, rest)) == Some(DecimalOf(ip, fp))
  {
    var s := TotalScoreText(ip, fp, rest);
    TotalScorePieces(ip, fp, rest);
    TotalScoreOf(s, ip, fp);
    BracketFirstPattern(s, DecimalOf(ip, fp));
  }

  // ---------------------------------------------------------------------
  // Dispatch: which extractor answers

  /** With a 'regex' parser of score path 'count_errors', Connections is scored by its error lines. */
  lemma {:induction false} ConnectionsDispatch(text: string, p: ParserConfig, host: Host)
    requires p.patternType == "regex" && p.scorePath == "count_errors"
    ensures ShareScore(text, Some(p), "connections", host) == Some(ConnectionsErrors(text) as real)
  {
  }

  /** With a 'regex' parser of score path 'count_lines', Wordle is scored by its guess lines. */
  lemma {:induction false} WordleDispatch(text: string, p: ParserConfig, host: Host)
    requires p.patternType == "regex" && p.scorePath == "count_lines"
    ensures ShareScore(text, Some(p), "wordle", host) == Some(WordleGuesses(text) as real)
  {
  }

  /** Spelling Bee with its 'url_param' parser always scores 0, 1 or 2. */
  lemma {:induction false} SpellingBeeRank(text: string, p: ParserConfig, host: Host)
    requires p.patternType == "url_param" && p.scorePath == "spelling_bee_rank"
    ensures var r := ShareScore(text, Some(p), "spelling-bee", host);
            r == Some(0.0) || r == Some(1.0) || r == Some(2.0)
  {
    var step := UrlStep(text, p, "spelling-bee", host);
    assert step.Done?;
    match host.urlParam(text, p.pattern)
    case Url(param) =>
      assert ShareScore(text, Some(p), "spelling-bee", host) == Some(ParamRank(param) as real);
    case NotAUrl =>
      assert ShareScore(text, Some(p), "spelling-bee", host) == Some(TextRank(text) as real);
  }

  /** With no parser row only Keyword can answer. */
  lemma {:induction false} NoParserOnlyKeyword(text: string, slug: string, host: Host)
    requires slug != "keyword"
    ensures ShareScore(text, None, slug, host) == None
  {
  }

  // ---------------------------------------------------------------------
  // The first-number fallback

  /** For Bracket City whose first number is 1, the fallback answer, when
      some number exceeds 1, is the largest number of the text. */
  lemma {:induction false} BracketRawIsLargest(s: string)
    requires Leftmost(s, NumberAt, 0) == Some(1)
    requires exists k :: 0 <= k < |Decimals(s, 0)| && Decimals(s, 0)[k] > 1.0
    ensures var r := RawNumberScore(s, "bracket-city");
            r.Some? && r.value in Decimals(s, 0)
            && forall k :: 0 <= k < |Decimals(s, 0)| ==> Decimals(s, 0)[k] <= r.value
  {
    var ds := Decimals(s, 0);
    var k :| 0 <= k < |ds| && ds[k] > 1.0;
    var big := Filter(ds, IsAboveOne);
    FilterSpec(ds, IsAboveOne);
    assert ds[k] in big;
    var m := Max(big);
    forall j | 0 <= j < |ds| ensures ds[j] <= m {
      if ds[j] > 1.0 {
        assert ds[j] in big;
      } else {
        assert ds[k] in big;
      }
    }
  }

  /** For Pyramid Scheme whose first number is 0, the fallback answer is the
      second number when that is between 1 and 59, and is below 60 then. */
  lemma {:induction false} PyramidRawSeconds(s: string)
    requires Leftmost(s, NumberAt, 0) == Some(0)
    requires |DigitRuns(s, 0)| >= 2 && 1 <= DigitRuns(s, 0)[1] < 60
    ensures RawNumberScore(s, "pyramid-scheme") == Some(DigitRuns(s, 0)[1] as real)
  {
  }

  /** Every other game (and these two, when no correction applies) gets the
      first number of the text, or nothing when it holds no digit. */
  lemma {:induction false} RawFirstNumber(s: string, slug: string)
    requires slug != "pyramid-scheme" && slug != "bracket-city"
    ensures RawNumberScore(s, slug) == if DigitRuns(s, 0) == [] then None else Some(DigitRuns(s, 0)[0] as real)
  {
    FirstDigitRun(s, 0);
  }
}
