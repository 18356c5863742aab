/** The extension's view of an NYT Games page (content-nyt-games.js
    lines 6-57): the game a path belongs to, by the table of path
    prefixes, and the test for text that looks like a game's share text.
    Which frame's location the path comes from is left to the caller: the
    path is a parameter. Each regular expression of looksLikeShareText is
    hand-compiled into a matcher at a position, as in Matchers. */
module GameDetection {
  import opened Wrappers
  import opened Text
  import opened Seqs
  import opened Matchers

  // ---------------------------------------------------------------------
  // getGameSlug

  /** PATH_PREFIX_TO_SLUG, in its order. */
  const PathPrefixToSlug: seq<(string, string)> := [
    ("/games/wordle", "wordle"),
    ("/games/connections", "connections"),
    ("/games/strands", "strands"),
    ("/games/spelling-bee", "spelling-bee"),
    ("/puzzles/spelling-bee", "spelling-bee"),
    ("/games/letter-boxed", "letter-boxed"),
    ("/games/vertex", "vertex"),
    ("/games/sudoku", "sudoku"),
    ("/games/mini-crossword", "mini-crossword"),
    ("/games/crossword", "crossword"),
    ("/games/tiles", "tiles"),
    ("/games/pyramid-scheme", "pyramid-scheme"),
    ("/games/bracket-city", "bracket-city"),
    ("/games/keyword", "keyword"),
    ("/games/quintumble", "quintumble")
  ]

  /** `(pathname || '').replace(/\/$/, '') || '/'`: one trailing '/'
      dropped, and the empty path read as "/". */
  function NormalizePath(pathname: string): (path: string)
    ensures |path| > 0
    ensures |pathname| <= 1 ==> path == (if pathname == "/" then "/" else if |pathname| == 0 then "/" else pathname)
    ensures |pathname| > 1 && pathname[|pathname| - 1] == '/' ==> path + "/" == pathname
    ensures |pathname| > 0 && pathname[|pathname| - 1] != '/' ==> path == pathname
  {
    var p := if |pathname| > 0 && pathname[|pathname| - 1] == '/' then pathname[..|pathname| - 1] else pathname;
    if |p| == 0 then "/" else p
  }

  /** `path === prefix || path.startsWith(prefix + '/')` */
  predicate PathMatches(path: string, prefix: string) {
    path == prefix || AtPos(path, 0, prefix + "/")
  }

  function EntryMatches(path: string): ((string, string)) -> bool {
    (e: (string, string)) => PathMatches(path, e.0)
  }

  /** The slug of the first table entry whose prefix the path matches. */
  function SlugOfPath(path: string): Option<string> {
    match FirstFrom(PathPrefixToSlug, EntryMatches(path), 0)
    case None => None
    case Some(i) => Some(PathPrefixToSlug[i].1)
  }

  /** getGameSlug, for the pathname of the page: the slug of the first
      entry the normalised path matches, or null when it matches none. */
  function GetGameSlug(pathname: string): (r: Option<string>)
    ensures r.None? <==> forall i | 0 <= i < |PathPrefixToSlug| :: !PathMatches(NormalizePath(pathname), PathPrefixToSlug[i].0)
    ensures r.Some? ==>
              exists i | 0 <= i < |PathPrefixToSlug| ::
                r.value == PathPrefixToSlug[i].1 && PathMatches(NormalizePath(pathname), PathPrefixToSlug[i].0)
                && forall j | 0 <= j < i :: !PathMatches(NormalizePath(pathname), PathPrefixToSlug[j].0)
  {
    SlugOfPathSpec(NormalizePath(pathname));
    SlugOfPath(NormalizePath(pathname))
  }

  /** The slug is that of the first entry matching the path, and there is
      none exactly when no entry matches. */
  lemma {:induction false} SlugOfPathSpec(path: string)
    ensures SlugOfPath(path).None? <==> forall i | 0 <= i < |PathPrefixToSlug| :: !PathMatches(path, PathPrefixToSlug[i].0)
    ensures SlugOfPath(path).Some? ==>
              exists i | 0 <= i < |PathPrefixToSlug| ::
                SlugOfPath(path) == Some(PathPrefixToSlug[i].1) && PathMatches(path, PathPrefixToSlug[i].0)
                && forall j | 0 <= j < i :: !PathMatches(path, PathPrefixToSlug[j].0)
  {
    var t := PathPrefixToSlug;
    var p := EntryMatches(path);
    FirstFromFirst(t, p, 0);
    forall i | 0 <= i < |t| ensures p(t[i]) == PathMatches(path, t[i].0) { }
  }

  /** A prefix matches only on a segment boundary: the path is the prefix,
      or continues it with '/'. */
  lemma {:induction false} PathMatchesBoundary(path: string, prefix: string)
    requires PathMatches(path, prefix)
    ensures |prefix| <= |path| && path[..|prefix|] == prefix
    ensures |path| == |prefix| || path[|prefix|] == '/'
  {
    if path != prefix {
      AtPosSplit(path, 0, prefix, "/");
      AtPosChar(path, |prefix|, "/", 0);
    }
  }

  /** "/games/wordleX" is not a Wordle page. */
  lemma {:induction false} WordleXIsNotWordle()
    ensures !PathMatches("/games/wordleX", "/games/wordle")
  {
    var path := "/games/wordleX";
    var lit := "/games/wordle" + "/";
    assert path[..|lit|][13] == 'X' != lit[13];
  }

  /** Every prefix of the table: its only slashes are at its first nine
      positions, which it does not end in. */
  predicate SlashesEarly(prefix: string) {
    |prefix| >= 12 && forall k | 9 <= k < |prefix| :: prefix[k] != '/'
  }

  lemma {:induction false} TableSlashes()
    ensures forall i | 0 <= i < |PathPrefixToSlug| :: SlashesEarly(PathPrefixToSlug[i].0)
  {
  }

  lemma {:induction false} TableDistinct()
    ensures forall i, j | 0 <= i < j < |PathPrefixToSlug| :: PathPrefixToSlug[i].0 != PathPrefixToSlug[j].0
  {
  }

  /** In a table of distinct prefixes whose slashes all come early, no
      path matches two entries. */
  lemma {:induction false} MatchUniqueIn(table: seq<(string, string)>, path: string, i: nat, j: nat)
    requires forall k | 0 <= k < |table| :: SlashesEarly(table[k].0)
    requires forall k, l | 0 <= k < l < |table| :: table[k].0 != table[l].0
    requires i < |table| && j < |table|
    requires PathMatches(path, table[i].0) && PathMatches(path, table[j].0)
    ensures i == j
  {
    var a := table[i].0;
    var b := table[j].0;
    PathMatchesBoundary(path, a);
    PathMatchesBoundary(path, b);
    if |a| != |b| {
      assert false;
    }
    assert a == path[..|a|] == b;
  }

  /** No path matches two entries of the table: the order of the table
      decides nothing, and no path is both a crossword and a mini crossword. */
  lemma {:induction false} MatchUnique(path: string, i: nat, j: nat)
    requires i < |PathPrefixToSlug| && j < |PathPrefixToSlug|
    requires PathMatches(path, PathPrefixToSlug[i].0) && PathMatches(path, PathPrefixToSlug[j].0)
    ensures i == j
  {
    TableSlashes();
    TableDistinct();
    MatchUniqueIn(PathPrefixToSlug, path, i, j);
  }

  /** A path that matches an entry gets that entry's slug. */
  lemma {:induction false} SlugOfMatchingPath(path: string, i: nat)
    requires i < |PathPrefixToSlug| && PathMatches(path, PathPrefixToSlug[i].0)
    ensures SlugOfPath(path) == Some(PathPrefixToSlug[i].1)
  {
    SlugOfPathSpec(path);
    var k :| 0 <= k < |PathPrefixToSlug| && SlugOfPath(path) == Some(PathPrefixToSlug[k].1)
             && PathMatches(path, PathPrefixToSlug[k].0);
    MatchUnique(path, i, k);
  }

  /** Each prefix of the table, as a path, belongs to its own entry's game;
      so both Spelling Bee prefixes (entries 3 and 4) give "spelling-bee". */
  lemma {:induction false} PrefixOwnGame(i: nat)
    requires i < |PathPrefixToSlug|
    ensures GetGameSlug(PathPrefixToSlug[i].0) == Some(PathPrefixToSlug[i].1)
  {
    var prefix := PathPrefixToSlug[i].0;
    TableSlashes();
    assert prefix[|prefix| - 1] != '/';
    assert NormalizePath(prefix) == prefix;
    SlugOfMatchingPath(prefix, i);
  }

  /** Entries 3 and 4 are the Spelling Bee prefixes under /games and
      under /puzzles, with the one slug "spelling-bee"; by PrefixOwnGame
      both paths give it. */
  lemma {:induction false} SpellingBeeEntries()
    ensures PathPrefixToSlug[3] == ("/games/spelling-bee", "spelling-bee")
    ensures PathPrefixToSlug[4] == ("/puzzles/spelling-bee", "spelling-bee")
  {
  }

  /** A page below a table entry's prefix belongs to that entry's game. */
  lemma {:induction false} PagesBelowPrefix(i: nat, rest: string)
    requires i < |PathPrefixToSlug| && |rest| > 0 && rest[|rest| - 1] != '/'
    ensures GetGameSlug(PathPrefixToSlug[i].0 + "/" + rest) == Some(PathPrefixToSlug[i].1)
  {
    var prefix := PathPrefixToSlug[i].0;
    var path := prefix + "/" + rest;
    assert path == (prefix + "/") + rest;
    AtPosConcat(prefix + "/", rest);
    assert NormalizePath(path) == path;
    SlugOfMatchingPath(path, i);
  }

  // ---------------------------------------------------------------------
  // looksLikeShareText

  /** /Wordle\s+\d+\s+\d\/6/i at i. */
  predicate WordleAt(t: string, i: nat) {
    CiAt(t, i, "Wordle") && i + 6 < |t| && IsJsSpace(t[i + 6])
    && var a := SpacesEnd(t, i + 6);
       a < |t| && IsDigit(t[a])
       && var b := RunEnd(t, a, IsDigit);
          b < |t| && IsJsSpace(t[b])
          && var c := SpacesEnd(t, b);
             c + 2 < |t| && IsDigit(t[c]) && t[c + 1] == '/' && t[c + 2] == '6'
  }

  /** /Puzzle\s*#/i at j. */
  predicate PuzzleNumberAt(t: string, j: nat) {
    CiAt(t, j, "Puzzle") && var e := SpacesEnd(t, j + 6); e < |t| && t[e] == '#'
  }

  /** /Connections\s*[\s\S]*Puzzle\s*#/i at i: "Puzzle #" anywhere after it. */
  predicate ConnectionsAt(t: string, i: nat) {
    CiAt(t, i, "Connections") && exists j | i + 11 <= j <= |t| :: PuzzleNumberAt(t, j)
  }

  /** The code units of the class [🟪🟦🟩🟨⬜🟨🟩]. */
  const SquareUnits: set<int> := {0xD83D, 0xDFEA, 0xDFE6, 0xDFE9, 0xDFE8, 0x2B1C}

  /** /\d+\s*words/i ending its digits at q. */
  predicate WordCountAt(t: string, q: nat) {
    q < |t| && IsDigit(t[q]) && CiAt(t, SpacesEnd(t, q + 1), "words")
  }

  /** /Strands\s*[\s\S]*\d+\s*words/i at i. */
  predicate StrandsAt(t: string, i: nat) {
    CiAt(t, i, "Strands") && exists q | i + 7 <= q < |t| :: WordCountAt(t, q)
  }

  /** /Solved on Expert Mode in \d+:\d+/i at i. */
  predicate ExpertModeAt(t: string, i: nat) {
    var lit := "Solved on Expert Mode in ";
    CiAt(t, i, lit) && i + |lit| < |t| && IsDigit(t[i + |lit|])
    && var b := RunEnd(t, i + |lit|, IsDigit); b + 1 < |t| && t[b] == ':' && IsDigit(t[b + 1])
  }

  /** /🎯\s*\d+/ at i. */
  predicate TargetScoreAt(t: string, i: nat) {
    i < |t| && t[i] == '🎯' && var a := SpacesEnd(t, i + 1); a < |t| && IsDigit(t[a])
  }

  /** /Total Score:\s*[\d.]+/i at i. */
  predicate TotalScoreAt(t: string, i: nat) {
    var lit := "Total Score:";
    CiAt(t, i, lit) && var a := SpacesEnd(t, i + |lit|); a < |t| && (IsDigit(t[a]) || t[a] == '.')
  }

  /** A regex of looksLikeShareText that tests a pattern at one place of t. */
  predicate MarkerAt(t: string, i: nat) {
    WordleAt(t, i) || ConnectionsAt(t, i) || StrandsAt(t, i)
    || CiAt(t, i, "Spelling Bee") || CiAt(t, i, "Queen Bee") || CiAt(t, i, "Genius")
    || ExpertModeAt(t, i) || TargetScoreAt(t, i) || CiAt(t, i, "Quintumble")
    || TotalScoreAt(t, i) || CiAt(t, i, "Bracket City")
  }

  /** The tests of looksLikeShareText on the trimmed text, any of which makes it true. */
  predicate ShareMarker(t: string) {
    (exists i | 0 <= i <= |t| :: MarkerAt(t, i))
    || (exists k | 0 <= k < |t| :: InUnitClass(t[k], SquareUnits))
    || ((exists i | 0 <= i <= |t| :: CiAt(t, i, "Keyword")) && exists k | 0 <= k < |t| :: IsDigit(t[k]))
  }

  /** looksLikeShareText; None stands for a value that is not a string. */
  function LooksLikeShareText(text: Option<string>): (r: bool)
    ensures r ==> text.Some? && |text.value| > 0 && Utf16Length(JsTrim(text.value)) >= 10
  {
    if text.None? || |text.value| == 0 then false
    else
      var t := JsTrim(text.value);
      if Utf16Length(t) < 10 then false else ShareMarker(t)
  }

  /** A stretch of the text that starts and ends with a character that is
      not blank is found in the trimmed text, which is at least as long. */
  lemma {:induction false} InTrimmed(s: string, i: nat, lit: string) returns (at: nat)
    requires AtPos(s, i, lit) && |lit| > 0 && !IsJsSpace(lit[0]) && !IsJsSpace(lit[|lit| - 1])
    ensures AtPos(JsTrim(s), at, lit) && |lit| <= |JsTrim(s)|
  {
    AtPosChar(s, i, lit, 0);
    AtPosChar(s, i, lit, |lit| - 1);
    TrimKeeps(s, IsJsSpace, i, i + |lit|);
    at := i - TrimBounds(s, IsJsSpace).0;
  }

  /** A marker at a place of the trimmed text, which is long enough, makes
      the text look like a share text. */
  lemma {:induction false} MarkerLooksShared(s: string, i: nat)
    requires |JsTrim(s)| >= 10 && i <= |JsTrim(s)| && MarkerAt(JsTrim(s), i)
    ensures LooksLikeShareText(Some(s))
  {
    assert ShareMarker(JsTrim(s));
  }

  /** "Solved on Expert Mode in M:SS" */
  function ExpertSolveText(m: string, ss: string): string {
    "Solved on Expert Mode in " + m + ":" + ss
  }

  /** Text holding "Solved on Expert Mode in M:SS" looks like a share text. */
  lemma {:induction false} ExpertModeLooksShared(pre: string, m: string, ss: string, post: string)
    requires |m| > 0 && AllDigits(m) && |ss| > 0 && AllDigits(ss)
    ensures LooksLikeShareText(Some(pre + ExpertSolveText(m, ss) + post))
  {
    var s := pre + ExpertSolveText(m, ss) + post;
    var at := ExpertModeInText(pre, post, m, ss);
    ExpertAtOf(JsTrim(s), at, m, ss);
    MarkerLooksShared(s, at);
  }

  /** Where "Solved on Expert Mode in M:SS" lies in the trimmed text. */
  lemma {:induction false} ExpertModeInText(pre: string, post: string, m: string, ss: string)
    returns (at: nat)
    requires |m| > 0 && AllDigits(m) && |ss| > 0 && AllDigits(ss)
    ensures var w := ExpertSolveText(m, ss);
            AtPos(JsTrim(pre + w + post), at, w) && |w| <= |JsTrim(pre + w + post)|
  {
    var w := ExpertSolveText(m, ss);
    assert w[0] == 'S';
    assert w[|w| - 1] == ss[|ss| - 1];
    DigitIsNoSpace(ss[|ss| - 1]);
    at := FoundInText(pre, w, post);
  }

  /** A stretch w that starts and ends with a character that is not blank
      lies in the trimmed text of pre + w + post. */
  lemma {:induction false} FoundInText(pre: string, w: string, post: string) returns (at: nat)
    requires |w| > 0 && !IsJsSpace(w[0]) && !IsJsSpace(w[|w| - 1])
    ensures AtPos(JsTrim(pre + w + post), at, w) && |w| <= |JsTrim(pre + w + post)|
  {
    var s := pre + w + post;
    assert s == pre + (w + post);
    AtPosConcat(w, post);
    AtPosShift(pre, w + post, 0, w);
    at := InTrimmed(s, |pre|, w);
  }

  /** "Total Score: N" */
  function TotalScoreLine(n: string): string {
    "Total Score: " + n
  }

  /** Text holding "Total Score: N" looks like a share text. */
  lemma {:induction false} TotalScoreLooksShared(pre: string, n: string, post: string)
    requires |n| > 0 && AllDigits(n)
    ensures LooksLikeShareText(Some(pre + TotalScoreLine(n) + post))
  {
    var w := TotalScoreLine(n);
    var s := pre + w + post;
    assert w[0] == 'T';
    assert w[|w| - 1] == n[|n| - 1];
    DigitIsNoSpace(n[|n| - 1]);
    var at := FoundInText(pre, w, post);
    TotalScoreAtOf(JsTrim(s), at, n);
    MarkerLooksShared(s, at);
  }

  lemma {:induction false} TotalScoreAtOf(t: string, at: nat, n: string)
    requires |n| > 0 && AllDigits(n) && AtPos(t, at, TotalScoreLine(n))
    ensures TotalScoreAt(t, at)
  {
    var lit := "Total Score:";
    assert TotalScoreLine(n) == lit + (" " + n);
    AtPosSplit(t, at, lit, " " + n);
    ExactIsCi(t, at, lit);
    AtPosSplit(t, at + 12, " ", n);
    AtPosChar(t, at + 12, " ", 0);
    AtPosChar(t, at + 13, n, 0);
    DigitIsNoSpace(n[0]);
    OneSpace(t, at + 12);
  }

  /** Text holding "Keyword", in any case, and a digit looks like a share
      text once its trimmed text is ten code units long. */
  lemma {:induction false} KeywordLooksShared(s: string, i: nat, k: nat)
    requires CiAt(s, i, "Keyword") && k < |s| && IsDigit(s[k])
    requires Utf16Length(JsTrim(s)) >= 10
    ensures LooksLikeShareText(Some(s))
  {
    var t := JsTrim(s);
    var lit := "Keyword";
    assert Lower(s[i + 0]) == Lower(lit[0]) == 'k';
    assert Lower(s[i + 6]) == Lower(lit[6]) == 'd';
    TrimKeeps(s, IsJsSpace, i, i + |lit|);
    var b := TrimBounds(s, IsJsSpace).0;
    assert CiAt(t, i - b, lit) by {
      forall j | 0 <= j < |lit| ensures Lower(t[i - b + j]) == Lower(lit[j]) {
        assert t[i - b..i + |lit| - b][j] == s[i..i + |lit|][j];
      }
    }
    DigitIsNoSpace(s[k]);
    TrimKeeps(s, IsJsSpace, k, k + 1);
    var a := TrimBounds(s, IsJsSpace).0;
    assert t[k - a..k - a + 1] == s[k..k + 1];
    assert IsDigit(t[k - a]);
    assert ShareMarker(t);
  }

  /** Any character from U+1F400 to U+1F7FF, a square or not, makes a
      text whose trimmed text is ten code units long look like a share
      text: the class of squares holds their common lead unit. */
  lemma {:induction false} AnyEmojiLooksShared(s: string, k: nat)
    requires k < |s| && 0x1_F400 <= s[k] as int < 0x1_F800
    requires Utf16Length(JsTrim(s)) >= 10
    ensures LooksLikeShareText(Some(s))
  {
    var t := JsTrim(s);
    LeadUnitD83D(s[k]);
    assert !IsJsSpace(s[k]);
    TrimKeeps(s, IsJsSpace, k, k + 1);
    var a := TrimBounds(s, IsJsSpace).0;
    assert t[k - a..k - a + 1] == s[k..k + 1];
    assert InUnitClass(t[k - a], SquareUnits);
    assert ShareMarker(t);
  }

  /** What is found at i in y is found i further on in x + y. */
  lemma {:induction false} AtPosShift(x: string, y: string, i: nat, lit: string)
    requires AtPos(y, i, lit)
    ensures AtPos(x + y, |x| + i, lit)
  {
    assert (x + y)[|x| + i..|x| + i + |lit|] == y[i..i + |lit|];
  }

  lemma {:induction false} ExpertAtOf(t: string, at: nat, m: string, ss: string)
    requires |m| > 0 && AllDigits(m) && |ss| > 0 && AllDigits(ss)
    requires AtPos(t, at, ExpertSolveText(m, ss))
    ensures ExpertModeAt(t, at)
  {
    var lit := "Solved on Expert Mode in ";
    var rest := m + (":" + ss);
    assert ExpertSolveText(m, ss) == lit + rest;
    AtPosSplit(t, at, lit, rest);
    ExactIsCi(t, at, lit);
    var a := at + |lit|;
    DigitsThenColon(t, a, m, ss);
  }

  /** `\d+:\d` at a, where the text holds m + ":" + ss. */
  lemma {:induction false} DigitsThenColon(t: string, a: nat, m: string, ss: string)
    requires |m| > 0 && AllDigits(m) && |ss| > 0 && AllDigits(ss)
    requires AtPos(t, a, m + (":" + ss))
    ensures a < |t| && IsDigit(t[a])
    ensures var b := RunEnd(t, a, IsDigit); b + 1 < |t| && t[b] == ':' && IsDigit(t[b + 1])
  {
    AtPosSplit(t, a, m, ":" + ss);
    AtPosSplit(t, a + |m|, ":", ss);
    forall k | 0 <= k < |m| ensures t[a + k] == m[k] { AtPosChar(t, a, m, k); }
    AtPosChar(t, a + |m|, ":", 0);
    AtPosChar(t, a + |m| + 1, ss, 0);
    RunEndDigits(t, a, a + |m|);
  }

  /** The digit run from i ends at the first character that is not a digit. */
  lemma {:induction false} RunEndDigits(t: string, i: nat, e: nat)
    requires i <= e < |t| && !IsDigit(t[e]) && forall k | i <= k < e :: IsDigit(t[k])
    ensures RunEnd(t, i, IsDigit) == e
    decreases e - i
  {
    if i < e {
      RunEndDigits(t, i + 1, e);
    }
  }
}
