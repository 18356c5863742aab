/** The cell-level rules of the league spreadsheet backfill: handicap cells,
    score cells, header dates, which crossword scores carry a handicap to
    undo, and the Wordle and Connections re-codings of a stored value. */
module BackfillCells {
  import opened Wrappers
  import opened Text
  import opened Matchers
  import opened PyNumbers

  // ---------------------------------------------------------------------
  // Constants of the league

  const Players: set<string> := {"sary", "sal", "bob", "stolowd"}
  const HandicapAlways: set<string> := {"sary", "stolowd"}
  /** From this date on sal's crossword times are no longer handicapped. */
  const SalCutoff: string := "2024-11-24"

  /** Spreadsheet game name to the slug of the games table. */
  const GameSlugs: map<string, string> := map[
    "crossword" := "crossword",
    "connections" := "connections",
    "pyramid" := "pyramid",
    "bee" := "spelling-bee",
    "wordle" := "wordle",
    "waffle" := "waffle",
    "keyword" := "keyword",
    "flashback" := "flashback",
    "quintumble" := "quintumble",
    "bracketcity" := "bracket-city"
  ]

  /** str.replace(" ", "_") */
  function ReplaceSpaces(s: string): (r: string)
    ensures |r| == |s|
  {
    seq(|s|, k requires 0 <= k < |s| => if s[k] == ' ' then '_' else s[k])
  }

  /** The slug of a (lower-cased, stripped) game name: the table's entry, or
      the name with its blanks turned into underscores. No slug holds a
      blank, and a named game has a non-empty slug. */
  function SlugOf(name: string): (r: string)
    ensures ' ' !in r
    ensures |name| > 0 ==> |r| > 0
    ensures name !in GameSlugs ==> |r| == |name| && forall k | 0 <= k < |name| && name[k] != ' ' :: r[k] == name[k]
  {
    if name in GameSlugs then
      assert name == "crossword" || name == "connections" || name == "pyramid" || name == "bee"
        || name == "wordle" || name == "waffle" || name == "keyword" || name == "flashback"
        || name == "quintumble" || name == "bracketcity";
      GameSlugs[name]
    else
      var r := ReplaceSpaces(name);
      assert forall k | 0 <= k < |r| :: r[k] != ' ';
      r
  }

  // ---------------------------------------------------------------------
  // Handicap cells: `^(\d+(?:\.\d+)?)\s*%$` on the stripped cell

  /** The percentage the pattern captures, if the whole text matches. */
  function PercentOf(t: string): (r: Option<real>)
    ensures r.Some? ==> |t| >= 2 && IsDigit(t[0]) && t[|t| - 1] == '%' && r.value >= 0.0
  {
    match DecimalAt(t, 0)
    case None => None
    case Some((v, e)) =>
      var e2 := RunEnd(t, e, IsPySpace);
      if e2 + 1 == |t| && t[e2] == '%' then Some(v) else None
  }

  /** parse_handicap: the fraction a percentage cell stands for, when the
      percentage is in (0, 100]. */
  function ParseHandicap(s: string): (r: Option<real>)
    ensures r.Some? ==> 0.0 < r.value <= 1.0
  {
    if |s| == 0 then None
    else match PercentOf(PyStrip(s))
      case None => None
      case Some(pct) => if pct <= 0.0 || pct > 100.0 then None else Some(pct / 100.0)
  }

  /** A handicap cell, stripped, starts with a digit and ends with '%'. */
  lemma {:induction false} HandicapShape(s: string)
    requires ParseHandicap(s).Some?
    ensures var t := PyStrip(s); |t| >= 2 && IsDigit(t[0]) && t[|t| - 1] == '%'
  {
    assert PercentOf(PyStrip(s)).Some?;
  }

  /** Stripping leaves alone a string that starts and ends with a kept character. */
  lemma {:induction false} StripKeeps(s: string)
    requires |s| > 0 && !IsPySpace(s[0]) && !IsPySpace(s[|s| - 1])
    ensures PyStrip(s) == s
  {
    TrimKeeps(s, IsPySpace, 0, |s|);
    assert s[0..|s|] == s;
  }

  /** "N%" for a digit string N: N/100 exactly when 0 < N <= 100. */
  lemma {:induction false} HandicapOfPercent(ds: string)
    requires |ds| > 0 && AllDigits(ds)
    ensures var n := NatOf(ds) as real;
            ParseHandicap(ds + "%") == if 0.0 < n <= 100.0 then Some(n / 100.0) else None
  {
    var t := ds + "%";
    DigitIsNoSpace(ds[0]);
    assert t[0] == ds[0] && t[|t| - 1] == '%';
    StripKeeps(t);
    assert AtPos(t, 0, ds) by {
      assert t[0..|ds|] == ds;
    }
    DigitsAtOf(t, 0, ds);
    assert RunEnd(t, |ds|, IsPySpace) == |ds|;
  }

  /** The pattern reads "I.F%" whole, for digit strings I and F. */
  lemma {:induction false} PercentOfDecimal(ip: string, fp: string, t: string)
    requires |ip| > 0 && AllDigits(ip) && |fp| > 0 && AllDigits(fp)
    requires t == ip + "." + fp + "%"
    ensures PercentOf(t) == Some(DecimalOf(ip, fp))
  {
    var e := |ip| + 1 + |fp|;
    assert AtPos(t, 0, ip) by {
      assert t[0..|ip|] == ip;
    }
    assert AtPos(t, |ip| + 1, fp) by {
      assert t[|ip| + 1..e] == fp;
    }
    assert t[|ip|] == '.' && t[e] == '%' && |t| == e + 1;
    DecimalAtOf(t, 0, ip, fp);
    assert RunEnd(t, e, IsPySpace) == e;
  }

  /** "I.F%" for digit strings I and F: its value over 100, when in (0, 100]. */
  lemma {:induction false} HandicapOfDecimalPercent(ip: string, fp: string)
    requires |ip| > 0 && AllDigits(ip) && |fp| > 0 && AllDigits(fp)
    ensures var v := DecimalOf(ip, fp);
            ParseHandicap(ip + "." + fp + "%") == if 0.0 < v <= 100.0 then Some(v / 100.0) else None
  {
    var t := ip + "." + fp + "%";
    DigitIsNoSpace(ip[0]);
    assert t[0] == ip[0] && t[|t| - 1] == '%';
    StripKeeps(t);
    PercentOfDecimal(ip, fp, t);
  }

  // ---------------------------------------------------------------------
  // Crossword handicap reversal

  /** `_crossword_gets_handicap_reversal`: whether the player's crossword
      time of that date was scaled by a handicap. */
  function GetsHandicapReversal(player: string, date: string): (r: bool)
    ensures r ==> player in Players
  {
    if player in HandicapAlways then true
    else if player == "sal" then StrLt(date, SalCutoff)
    else false
  }

  /** sary and stolowd always; sal exactly on the dates before the cutoff,
      never on it or after it; nobody else ever. */
  lemma {:induction false} ReversalRule(player: string, date: string)
    ensures player == "sary" || player == "stolowd" ==> GetsHandicapReversal(player, date)
    ensures player == "sal" ==> (GetsHandicapReversal(player, date) <==> StrLt(date, SalCutoff))
    ensures player == "sal" && StrLe(SalCutoff, date) ==> !GetsHandicapReversal(player, date)
    ensures player != "sary" && player != "stolowd" && player != "sal" ==> !GetsHandicapReversal(player, date)
  {
    StrLtAsym(SalCutoff, date);
    assert !StrLt(date, date) by {
      StrLtAsym(date, date);
    }
  }

  // ---------------------------------------------------------------------
  // Header dates

  /** `datetime.strptime(text, fmt).strftime("%Y-%m-%d")`, or None where
      strptime raises ValueError. The calendar is not part of this model. */
  type Strptime = (string, string) -> Option<string>

  /** parse_date: the stripped cell under the three accepted formats, in order. */
  function ParseDate(s: string, strptime: Strptime): (r: Option<string>)
    ensures |s| == 0 ==> r.None?
  {
    if |s| == 0 then None
    else
      var t := PyStrip(s);
      match strptime(t, "%m/%d/%Y")
      case Some(d) => Some(d)
      case None =>
        match strptime(t, "%m/%d/%y")
        case Some(d) => Some(d)
        case None => strptime(t, "%Y-%m-%d")
  }

  /** `if parse_date(cell):` a date was read and it is a non-empty string. */
  predicate IsDate(cell: string, strptime: Strptime): (b: bool)
    ensures b ==> |cell| > 0
    ensures b ==> strptime(PyStrip(cell), "%m/%d/%Y").Some? || strptime(PyStrip(cell), "%m/%d/%y").Some?
                  || strptime(PyStrip(cell), "%Y-%m-%d").Some?
  {
    var d := ParseDate(cell, strptime);
    d.Some? && |d.value| > 0
  }

  // ---------------------------------------------------------------------
  // Score cells and their values

  /** A Python number as the backfill produces it: int or float. */
  datatype Num = Int(i: int) | Float(f: real)

  function Value(n: Num): real {
    match n
    case Int(i) => i as real
    case Float(f) => f
  }

  /** int(val): truncation toward zero. */
  function Trunc(n: Num): (r: int)
    ensures Value(n) >= 0.0 ==> r as real <= Value(n) < r as real + 1.0
  {
    match n
    case Int(i) => i
    case Float(f) => if f >= 0.0 then f.Floor else -((-f).Floor)
  }

  /** parse_score_cell: None for a blank cell or one that neither float()
      (when it holds a '.') nor int() accepts. */
  function ParseScoreCell(cell: string): (r: Option<Num>)
    ensures |PyStrip(cell)| == 0 ==> r.None?
    ensures r.Some? ==> (r.value.Float? <==> '.' in PyStrip(cell))
    ensures r.Some? && r.value.Float? ==> PyFloat(PyStrip(cell)) == Some(r.value.f)
    ensures r.Some? && r.value.Int? ==> PyInt(PyStrip(cell)) == Some(r.value.i)
  {
    if |cell| == 0 then None
    else
      var s := PyStrip(cell);
      if |s| == 0 then None
      else if '.' in s then
        match PyFloat(s)
        case None => None
        case Some(v) => Some(Float(v))
      else
        match PyInt(s)
        case None => None
        case Some(n) => Some(Int(n))
  }

  lemma {:induction false} ScoreOfDigits(ds: string)
    requires |ds| > 0 && AllDigits(ds)
    ensures ParseScoreCell(ds) == Some(Int(NatOf(ds)))
  {
    DigitIsNoSpace(ds[0]);
    DigitIsNoSpace(ds[|ds| - 1]);
    StripKeeps(ds);
    assert '.' !in ds by {
      assert forall k :: 0 <= k < |ds| ==> IsDigit(ds[k]);
    }
    PyIntOfDigits(ds);
  }

  lemma {:induction false} ScoreOfNegative(ds: string)
    requires |ds| > 0 && AllDigits(ds)
    ensures ParseScoreCell("-" + ds) == Some(Int(-(NatOf(ds) as int)))
  {
    var s := "-" + ds;
    DigitIsNoSpace(ds[|ds| - 1]);
    assert s[|s| - 1] == ds[|ds| - 1];
    StripKeeps(s);
    assert '.' !in s by {
      assert forall k :: 1 <= k < |s| ==> s[k] == ds[k - 1] && IsDigit(s[k]);
    }
    PyIntOfNegative(ds);
  }

  lemma {:induction false} ScoreOfDecimal(ip: string, fp: string)
    requires |ip| > 0 && AllDigits(ip) && |fp| > 0 && AllDigits(fp)
    ensures ParseScoreCell(ip + "." + fp) == Some(Float(DecimalOf(ip, fp)))
  {
    var s := ip + "." + fp;
    DigitIsNoSpace(ip[0]);
    DigitIsNoSpace(fp[|fp| - 1]);
    assert s[0] == ip[0] && s[|s| - 1] == fp[|fp| - 1];
    StripKeeps(s);
    PyFloatOfDecimal(ip, fp);
  }

  /** A cell whose text starts with a letter is not a number: the
      ValueError path. */
  lemma {:induction false} ScoreOfWord(cell: string)
    requires |PyStrip(cell)| > 0 && var c := PyStrip(cell)[0]; 'a' <= c <= 'z' || 'A' <= c <= 'Z'
    ensures ParseScoreCell(cell) == None
  {
  }

  /** `val / h` when the handicap is present and positive, else val. */
  function ReverseHandicap(val: Num, h: Option<real>): (r: Num)
    ensures h.Some? && h.value > 0.0 ==> r.Float? && Value(r) * h.value == Value(val)
    ensures !(h.Some? && h.value > 0.0) ==> r == val
  {
    if h.Some? && h.value > 0.0 then Float(Value(val) / h.value) else val
  }

  /** Undoing a handicap in (0, 1] never shortens a non-negative time. */
  lemma {:induction false} ReverseNotBelow(val: Num, h: real)
    requires 0.0 < h <= 1.0 && Value(val) >= 0.0
    ensures Value(ReverseHandicap(val, Some(h))) >= Value(val)
  {
    var v := Value(val);
    var r := Value(ReverseHandicap(val, Some(h)));
    assert r == v / h;
    assert r >= 0.0 by {
      assert r * h == v;
    }
    assert r - v == r * (1.0 - h);
    MulNonNegative(r, 1.0 - h);
  }

  lemma {:induction false} MulNonNegative(a: real, b: real)
    requires a >= 0.0 && b >= 0.0
    ensures a * b >= 0.0
  {
  }

  /** Wordle: the sheet holds remaining slots (0..5) or -1 for a fail; the
      database holds guesses (1..6) or 7 for a fail. */
  function WordleMap(val: Num): (r: Num)
    ensures Value(val) == -1.0 ==> r == Int(7)
    ensures 0.0 <= Value(val) <= 5.0 ==> r.Int? && 1 <= r.i <= 6
    ensures Value(val) != -1.0 && !(0.0 <= Value(val) <= 5.0) ==> r == val
  {
    if Value(val) == -1.0 then Int(7)
    else if 0.0 <= Value(val) <= 5.0 then Int(6 - Trunc(val))
    else val
  }

  /** Remaining slots and guesses add up to six. */
  lemma {:induction false} WordleGuesses(v: int)
    requires 0 <= v <= 5
    ensures WordleMap(Int(v)) == Int(6 - v)
  {
  }

  /** Distinct sheet codes give distinct guess counts. */
  lemma {:induction false} WordleInjective(a: int, b: int)
    requires a == -1 || 0 <= a <= 5
    requires b == -1 || 0 <= b <= 5
    requires WordleMap(Int(a)) == WordleMap(Int(b))
    ensures a == b
  {
  }

  /** Connections: the sheet holds 5 for no mistake down to 1 for four and 0
      for a fail; the database holds mistakes (0..4), a fail counting four. */
  function ConnectionsMap(val: Num): (r: Num)
    ensures Value(val) == 0.0 ==> r == Int(4)
    ensures 1.0 <= Value(val) <= 5.0 ==> r.Int? && 0 <= r.i <= 4
    ensures Value(val) != 0.0 && !(1.0 <= Value(val) <= 5.0) ==> r == val
  {
    if Value(val) == 0.0 then Int(4)
    else if 1.0 <= Value(val) <= 5.0 then Int(5 - Trunc(val))
    else val
  }

  /** Sheet value and mistakes add up to five, and a fail is stored as four
      mistakes, the same as the sheet's 1. */
  lemma {:induction false} ConnectionsMistakes(v: int)
    requires 1 <= v <= 5
    ensures ConnectionsMap(Int(v)) == Int(5 - v)
    ensures ConnectionsMap(Int(0)) == ConnectionsMap(Int(1))
  {
  }

  /** The value stored for a parsed cell: the handicap undone where the rule
      says so, then the game's re-coding. */
  function StoredValue(val: Num, isCrossword: bool, player: string, date: string,
                       h: Option<real>, slug: string): (r: Num)
    ensures slug == "wordle" ==> Value(r) == 7.0 || Value(r) < -1.0 || (-1.0 < Value(r) < 0.0)
                                 || (1.0 <= Value(r) <= 6.0) || Value(r) > 5.0
    ensures slug != "wordle" && slug != "connections" && !(isCrossword && GetsHandicapReversal(player, date)) ==> r == val
  {
    var v1 := if isCrossword && GetsHandicapReversal(player, date) then ReverseHandicap(val, h) else val;
    var v2 := if slug == "wordle" then WordleMap(v1) else v1;
    if slug == "connections" then ConnectionsMap(v2) else v2
  }
}
