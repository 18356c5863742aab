/** Building blocks for the fixed regular expressions of the source, each
    hand-compiled into a deterministic matcher at a start position.

    Every pattern the model compiles has the property that greedy maximal
    munch gives the captures JavaScript's backtracking engine gives: each
    `\d+` or `\s*` is followed by a character its own class cannot contain,
    so giving characters back never lets the rest match. Where a pattern
    contains `.*` or `.*?`, the matcher searches for the last, respectively
    the first, position at which the rest of the pattern matches. The
    search for a leftmost start position is Leftmost. */
module Matchers {
  import opened Wrappers
  import opened Text

  /** `lit` at position i of s, letters compared as a JavaScript /i literal. */
  predicate CiAt(s: string, i: nat, lit: string) {
    i + |lit| <= |s| && forall k :: 0 <= k < |lit| ==> Lower(s[i + k]) == Lower(lit[k])
  }

  lemma {:induction false} ExactIsCi(s: string, i: nat, lit: string)
    requires AtPos(s, i, lit)
    ensures CiAt(s, i, lit)
  {
    forall k | 0 <= k < |lit| ensures s[i + k] == lit[k] {
      assert s[i..i + |lit|][k] == s[i + k];
    }
  }

  /** The end of `\s*` (JavaScript whitespace) from i. */
  function SpacesEnd(s: string, i: nat): (e: nat)
    requires i <= |s|
    ensures i <= e <= |s|
  {
    RunEnd(s, i, IsJsSpace)
  }

  /** `\s*` matches nothing before a character that is not whitespace. */
  lemma {:induction false} NoSpaces(s: string, i: nat)
    requires i < |s| && !IsJsSpace(s[i])
    ensures SpacesEnd(s, i) == i
  {
  }

  /** `\s*` matches one blank before a character that is not whitespace. */
  lemma {:induction false} OneSpace(s: string, i: nat)
    requires i + 1 < |s| && s[i] == ' ' && !IsJsSpace(s[i + 1])
    ensures SpacesEnd(s, i) == i + 1
  {
    assert IsJsSpace(s[i]);
    assert RunEnd(s, i, IsJsSpace) == RunEnd(s, i + 1, IsJsSpace);
    NoSpaces(s, i + 1);
  }

  /** `\d+` at i: the value and the end of the greedy digit run. */
  function DigitsAt(s: string, i: nat): (r: Option<(nat, nat)>)
    ensures r.Some? <==> i < |s| && IsDigit(s[i])
    ensures r.Some? ==> i < r.value.1 <= |s| && AllDigits(s[i..r.value.1])
                        && r.value.0 == NatOf(s[i..r.value.1])
                        && (r.value.1 == |s| || !IsDigit(s[r.value.1]))
  {
    if i >= |s| || !IsDigit(s[i]) then None
    else
      var e := RunEnd(s, i, IsDigit);
      RunEndAll(s, i, IsDigit);
      assert AllDigits(s[i..e]) by {
        forall k | 0 <= k < e - i ensures IsDigit(s[i..e][k]) {
          assert s[i..e][k] == s[i + k];
        }
      }
      Some((NatOf(s[i..e]), e))
  }

  /** A digit string followed by a non-digit (or the end) is read whole by DigitsAt. */
  lemma {:induction false} DigitsAtOf(s: string, i: nat, ds: string)
    requires |ds| > 0 && AllDigits(ds) && AtPos(s, i, ds)
    requires i + |ds| == |s| || !IsDigit(s[i + |ds|])
    ensures DigitsAt(s, i) == Some((NatOf(ds), i + |ds|))
  {
    assert forall k :: i <= k < i + |ds| ==> s[k] == s[i..i + |ds|][k - i];
    var e := DigitsAt(s, i).value.1;
    assert forall k :: i <= k < e ==> s[k] == s[i..e][k - i];
  }

  /** `\d+(?:\.\d+)?` at i: the value as parseFloat reads it, and the end. */
  function DecimalAt(s: string, i: nat): (r: Option<(real, nat)>)
    ensures r.Some? <==> i < |s| && IsDigit(s[i])
    ensures r.Some? ==> i < r.value.1 <= |s| && r.value.0 >= 0.0
  {
    match DigitsAt(s, i)
    case None => None
    case Some((n, e)) =>
      if e + 1 < |s| && s[e] == '.' && IsDigit(s[e + 1]) then
        var f := DigitsAt(s, e + 1).value.1;
        Some((DecimalOf(s[i..e], s[e + 1..f]), f))
      else Some((n as real, e))
  }

  /** "I.F" followed by a non-digit (or the end) is read whole by DecimalAt. */
  lemma {:induction false} DecimalAtOf(s: string, i: nat, ip: string, fp: string)
    requires |ip| > 0 && AllDigits(ip) && |fp| > 0 && AllDigits(fp)
    requires AtPos(s, i, ip) && i + |ip| < |s| && s[i + |ip|] == '.' && AtPos(s, i + |ip| + 1, fp)
    requires i + |ip| + 1 + |fp| == |s| || !IsDigit(s[i + |ip| + 1 + |fp|])
    ensures DecimalAt(s, i) == Some((DecimalOf(ip, fp), i + |ip| + 1 + |fp|))
  {
    var e := i + |ip|;
    var f := e + 1 + |fp|;
    DecimalDigits(s, i, ip, fp);
    DecimalAtFraction(s, i, e, f);
  }

  /** The two digit runs of "I.F" at i. */
  lemma {:induction false} DecimalDigits(s: string, i: nat, ip: string, fp: string)
    requires |ip| > 0 && AllDigits(ip) && |fp| > 0 && AllDigits(fp)
    requires AtPos(s, i, ip) && i + |ip| < |s| && s[i + |ip|] == '.' && AtPos(s, i + |ip| + 1, fp)
    requires i + |ip| + 1 + |fp| == |s| || !IsDigit(s[i + |ip| + 1 + |fp|])
    ensures DigitsAt(s, i) == Some((NatOf(ip), i + |ip|))
    ensures DigitsAt(s, i + |ip| + 1) == Some((NatOf(fp), i + |ip| + 1 + |fp|))
    ensures s[i..i + |ip|] == ip && s[i + |ip| + 1..i + |ip| + 1 + |fp|] == fp
  {
    DigitsAtOf(s, i, ip);
    AtPosChar(s, i + |ip| + 1, fp, 0);
    DigitsAtOf(s, i + |ip| + 1, fp);
  }

  /** DecimalAt reads the fraction when a point and a digit follow the
      integer digits. */
  lemma {:induction false} DecimalAtFraction(s: string, i: nat, e: nat, f: nat)
    requires DigitsAt(s, i).Some? && DigitsAt(s, i).value.1 == e
    requires e + 1 < |s| && s[e] == '.' && DigitsAt(s, e + 1).Some? && DigitsAt(s, e + 1).value.1 == f
    ensures DecimalAt(s, i) == Some((DecimalOf(s[i..e], s[e + 1..f]), f))
  {
  }

  /** `\d{1,2}\b` at i: a digit run of length one or two that a word
      boundary ends. A longer run does not match: neither one nor two of its
      digits is followed by a boundary. */
  function ShortNumberAt(s: string, i: nat): (r: Option<nat>)
    ensures r.Some? ==> r.value < 100
  {
    match DigitsAt(s, i)
    case None => None
    case Some((n, e)) =>
      if e - i <= 2 && (e == |s| || !IsWordChar(s[e])) then
        NatOfBound(s[i..e]);
        assert Pow10(e - i) <= 100 by {
          assert e - i == 1 || e - i == 2;
        }
        Some(n)
      else None
  }

  /** `\b` at i. */
  predicate BoundaryAt(s: string, i: nat)
    requires i <= |s|
  {
    (i > 0 && IsWordChar(s[i - 1])) != (i < |s| && IsWordChar(s[i]))
  }

  /** String.prototype.match of a non-global regex whose matcher at a start
      position is m: the captures at the leftmost start position where m
      succeeds, searching from `from`. */
  function Leftmost<T>(s: string, m: (string, nat) -> Option<T>, from: nat): Option<T>
    decreases |s| + 1 - from
  {
    if from > |s| then None
    else if m(s, from).Some? then m(s, from)
    else Leftmost(s, m, from + 1)
  }

  /** Leftmost finds nothing exactly when m succeeds nowhere from `from` on,
      and what it finds is m's result at a position before which m fails. */
  lemma {:induction false} LeftmostSpec<T>(s: string, m: (string, nat) -> Option<T>, from: nat)
    ensures Leftmost(s, m, from).None? <==> forall i :: from <= i <= |s| ==> m(s, i).None?
    ensures Leftmost(s, m, from).Some? ==>
              exists i :: from <= i <= |s| && m(s, i) == Leftmost(s, m, from)
                          && forall j :: from <= j < i ==> m(s, j).None?
    decreases |s| + 1 - from
  {
    if from <= |s| && m(s, from).None? {
      LeftmostSpec(s, m, from + 1);
      if Leftmost(s, m, from).Some? {
        var i :| from + 1 <= i <= |s| && m(s, i) == Leftmost(s, m, from)
                 && forall j :: from + 1 <= j < i ==> m(s, j).None?;
        assert forall j :: from <= j < i ==> m(s, j).None?;
      }
    }
  }

  /** If m succeeds at i and nowhere before it, the leftmost match is the one at i. */
  lemma {:induction false} LeftmostAt<T>(s: string, m: (string, nat) -> Option<T>, from: nat, i: nat)
    requires from <= i <= |s| && m(s, i).Some?
    requires forall j :: from <= j < i ==> m(s, j).None?
    ensures Leftmost(s, m, from) == m(s, i)
    decreases i - from
  {
    if from < i {
      LeftmostAt(s, m, from + 1, i);
    }
  }

  /** A greedy `.*` in front of m: the match of m at the last position in
      [lo, hi] where it succeeds. */
  function Rightmost<T>(s: string, m: (string, nat) -> Option<T>, lo: nat, hi: nat): Option<T>
    decreases hi
  {
    if hi < lo then None
    else if m(s, hi).Some? then m(s, hi)
    else if hi == 0 then None
    else Rightmost(s, m, lo, hi - 1)
  }

  /** Rightmost finds nothing exactly when m succeeds nowhere in [lo, hi],
      and what it finds is m's result at a position after which m fails. */
  lemma {:induction false} RightmostSpec<T>(s: string, m: (string, nat) -> Option<T>, lo: nat, hi: nat)
    ensures Rightmost(s, m, lo, hi).None? <==> forall i :: lo <= i <= hi ==> m(s, i).None?
    ensures Rightmost(s, m, lo, hi).Some? ==>
              exists i :: lo <= i <= hi && m(s, i) == Rightmost(s, m, lo, hi)
                          && forall j :: i < j <= hi ==> m(s, j).None?
    decreases hi
  {
    if lo <= hi && m(s, hi).None? && hi > 0 {
      RightmostSpec(s, m, lo, hi - 1);
      if Rightmost(s, m, lo, hi).Some? {
        var i :| lo <= i <= hi - 1 && m(s, i) == Rightmost(s, m, lo, hi)
                 && forall j :: i < j <= hi - 1 ==> m(s, j).None?;
        assert forall j :: i < j <= hi ==> m(s, j).None?;
      }
    }
  }

  /** The values of String.prototype.match(/\d+/g), from position i on. */
  function DigitRuns(s: string, i: nat): (r: seq<nat>)
    decreases |s| - i
  {
    if i >= |s| then []
    else match DigitsAt(s, i)
      case Some((n, e)) => [n] + DigitRuns(s, e)
      case None => DigitRuns(s, i + 1)
  }

  /** The values of String.prototype.match(/\d+(?:\.\d+)?/g), from position i on. */
  function Decimals(s: string, i: nat): (r: seq<real>)
    ensures forall k :: 0 <= k < |r| ==> r[k] >= 0.0
    decreases |s| - i
  {
    if i >= |s| then []
    else match DecimalAt(s, i)
      case Some((v, e)) => [v] + Decimals(s, e)
      case None => Decimals(s, i + 1)
  }

  /** The value of `\d+` at i, as a matcher. */
  function NumberAt(s: string, i: nat): Option<nat> {
    match DigitsAt(s, i)
    case Some((n, _)) => Some(n)
    case None => None
  }

  /** The first match of /\d+/ is the first of the matches of /\d+/g. */
  lemma {:induction false} FirstDigitRun(s: string, i: nat)
    requires i <= |s|
    ensures Leftmost(s, NumberAt, i) == if DigitRuns(s, i) == [] then None else Some(DigitRuns(s, i)[0])
    decreases |s| - i
  {
    if i < |s| {
      if DigitsAt(s, i).None? {
        FirstDigitRun(s, i + 1);
      }
    }
  }

  /** /\d+(?:\.\d+)?/g finds some number exactly when /\d+/g does. */
  lemma {:induction false} DecimalsEmpty(s: string, i: nat)
    requires i <= |s|
    ensures Decimals(s, i) == [] <==> DigitRuns(s, i) == []
    decreases |s| - i
  {
    if i < |s| && DigitsAt(s, i).None? {
      DecimalsEmpty(s, i + 1);
    }
  }

  /** A digit run from j and its end, with its digits known to be digits. */
  function DigitSpan(t: string, j: nat): (e: nat)
    requires j <= |t|
    ensures j <= e <= |t| && AllDigits(t[j..e])
    ensures e == |t| || !IsDigit(t[e])
  {
    var e := RunEnd(t, j, IsDigit);
    RunEndAll(t, j, IsDigit);
    assert forall k :: 0 <= k < e - j ==> t[j..e][k] == t[j + k];
    e
  }

  /** The exponent part `[eE][+-]?\d+` at k, or 0 when there is none. */
  function ExponentAt(t: string, k: nat): int
    requires k <= |t|
  {
    if k < |t| && (t[k] == 'e' || t[k] == 'E') then
      var neg := k + 1 < |t| && t[k + 1] == '-';
      var j := if k + 1 < |t| && (t[k + 1] == '-' || t[k + 1] == '+') then k + 2 else k + 1;
      var e := DigitSpan(t, j);
      var n: int := if e == j then 0 else NatOf(t[j..e]);
      if neg then -n else n
    else 0
  }

  /** JavaScript's parseFloat: leading whitespace, an optional sign, digits
      with an optional fraction (at least one digit in all) and an optional
      exponent; None stands for NaN. The word Infinity, which parseFloat
      also reads, is not modelled. */
  function ParseFloat(t: string): (r: Option<real>)
    ensures r.None? <==> var i := SpacesEnd(t, 0);
                         var j := if i < |t| && (t[i] == '-' || t[i] == '+') then i + 1 else i;
                         !(j < |t| && IsDigit(t[j])) && !(j + 1 < |t| && t[j] == '.' && IsDigit(t[j + 1]))
  {
    var i := SpacesEnd(t, 0);
    var neg := i < |t| && t[i] == '-';
    var j := if i < |t| && (t[i] == '-' || t[i] == '+') then i + 1 else i;
    var ie := DigitSpan(t, j);
    var fs := if ie < |t| && t[ie] == '.' then ie + 1 else ie;
    var fe := DigitSpan(t, fs);
    var fe := if fs > ie then fe else fs;
    if ie == j && fe == fs then None
    else
      assert AllDigits(t[fs..fe]);
      var mant := DecimalOf(t[j..ie], t[fs..fe]);
      var ex := ExponentAt(t, fe);
      var mag := if ex >= 0 then mant * Pow10(ex) as real else mant / Pow10(-ex) as real;
      Some(if neg then -mag else mag)
  }
}
