/** Characters and strings as the JavaScript and Python sources see them:
    character classes, trimming, line splitting, ASCII case folding,
    lexicographic order and the values of digit strings.
    A string is a sequence of Unicode code points. */
module Text {

  // ---------------------------------------------------------------------
  // Character classes

  predicate IsDigit(c: char) { '0' <= c <= '9' }

  /** JavaScript's \s and the set String.prototype.trim removes:
      WhiteSpace plus LineTerminator of ECMAScript. */
  predicate IsJsSpace(c: char) {
    c == '\t' || c == '\n' || c == '\U{000B}' || c == '\U{000C}' || c == '\r' || c == ' '
    || c == '\U{00A0}' || c == '\U{1680}' || ('\U{2000}' <= c <= '\U{200A}')
    || c == '\U{2028}' || c == '\U{2029}' || c == '\U{202F}' || c == '\U{205F}'
    || c == '\U{3000}' || c == '\U{FEFF}'
  }

  lemma {:induction false} DigitIsNoSpace(c: char)
    requires IsDigit(c)
    ensures !IsJsSpace(c) && !IsPySpace(c)
  {
  }

  /** Python's str.isspace(), which str.strip() and re's \s use. */
  predicate IsPySpace(c: char) {
    ('\t' <= c <= '\r') || ('\U{001C}' <= c <= '\U{001F}') || c == ' '
    || c == '\U{0085}' || c == '\U{00A0}' || c == '\U{1680}' || ('\U{2000}' <= c <= '\U{200A}')
    || c == '\U{2028}' || c == '\U{2029}' || c == '\U{202F}' || c == '\U{205F}' || c == '\U{3000}'
  }

  /** The characters of a regular-expression \w (both engines, ASCII letters only here). */
  predicate IsWordChar(c: char) {
    ('a' <= c <= 'z') || ('A' <= c <= 'Z') || IsDigit(c) || c == '_'
  }

  /** ASCII lower-casing. A JavaScript /i literal of ASCII letters matches
      exactly the characters whose ASCII lower case agrees with it. */
  function Lower(c: char): (r: char)
    ensures 'A' <= c <= 'Z' ==> 'a' <= r <= 'z' && r as int == c as int + 32
    ensures !('A' <= c <= 'Z') ==> r == c
  {
    if 'A' <= c <= 'Z' then (c as int + 32) as char else c
  }

  function LowerStr(s: string): (r: string)
    ensures |r| == |s|
  {
    seq(|s|, k requires 0 <= k < |s| => Lower(s[k]))
  }

  predicate AllDigits(s: string) {
    forall k :: 0 <= k < |s| ==> IsDigit(s[k])
  }

  // ---------------------------------------------------------------------
  // UTF-16

  /** The UTF-16 code units of c. */
  function CodeUnits(c: char): (u: seq<int>)
    ensures 1 <= |u| <= 2
  {
    var v := c as int;
    if v < 0x1_0000 then [v] else [0xD800 + (v - 0x1_0000) / 0x400, 0xDC00 + (v - 0x1_0000) % 0x400]
  }

  /** A character class written without the `u` flag, such as the ones of
      shareParser.js:29 and :49 and content-nyt-games.js:45, is a set of
      UTF-16 code units: it matches a character one of whose code units it
      holds. A class of coloured squares thus holds the lead unit 0xD83D
      that every character from U+1F400 to U+1F7FF shares. */
  predicate InUnitClass(c: char, units: set<int>) {
    var u := CodeUnits(c);
    u[0] in units || (|u| == 2 && u[1] in units)
  }

  /** Every character from U+1F400 to U+1F7FF has the lead unit 0xD83D. */
  lemma {:induction false} LeadUnitD83D(c: char)
    requires 0x1_F400 <= c as int < 0x1_F800
    ensures CodeUnits(c)[0] == 0xD83D && InUnitClass(c, {0xD83D})
  {
  }

  /** A JavaScript string's length: its number of UTF-16 code units. */
  function Utf16Length(s: string): (n: nat)
    ensures |s| <= n <= 2 * |s|
  {
    if |s| == 0 then 0 else Utf16Length(s[..|s| - 1]) + |CodeUnits(s[|s| - 1])|
  }

  // ---------------------------------------------------------------------
  // Runs and trimming

  /** The end of the run of characters satisfying p that starts at i. */
  function RunEnd(s: string, i: nat, p: char -> bool): (e: nat)
    requires i <= |s|
    ensures i <= e <= |s|
    ensures e == |s| || !p(s[e])
    decreases |s| - i
  {
    if i == |s| || !p(s[i]) then i else RunEnd(s, i + 1, p)
  }

  /** The start of the run of characters satisfying p that ends at j. */
  function RunStart(s: string, j: nat, p: char -> bool): (b: nat)
    requires j <= |s|
    ensures b <= j
    ensures b == 0 || !p(s[b - 1])
  {
    if j == 0 || !p(s[j - 1]) then j else RunStart(s, j - 1, p)
  }

  /** The bounds [a, b) of s with the leading and trailing p-characters removed. */
  function TrimBounds(s: string, p: char -> bool): (ab: (nat, nat))
    ensures ab.0 <= ab.1 <= |s|
    ensures ab.0 < ab.1 ==> !p(s[ab.0]) && !p(s[ab.1 - 1])
  {
    var a := RunEnd(s, 0, p);
    var b := RunStart(s, |s|, p);
    if a >= b then (|s|, |s|) else (a, b)
  }

  /** Every character of the run from i to its end satisfies p. */
  lemma {:induction false} RunEndAll(s: string, i: nat, p: char -> bool)
    requires i <= |s|
    ensures forall k {:trigger p(s[k])} :: i <= k < RunEnd(s, i, p) ==> p(s[k])
    decreases |s| - i
  {
    if i < |s| && p(s[i]) {
      RunEndAll(s, i + 1, p);
    }
  }

  /** Every character of the run that ends at j satisfies p. */
  lemma {:induction false} RunStartAll(s: string, j: nat, p: char -> bool)
    requires j <= |s|
    ensures forall k {:trigger p(s[k])} :: RunStart(s, j, p) <= k < j ==> p(s[k])
  {
    if j > 0 && p(s[j - 1]) {
      RunStartAll(s, j - 1, p);
    }
  }

  /** What trimming removes satisfies p, on both sides. */
  lemma {:induction false} TrimBoundsAll(s: string, p: char -> bool)
    ensures forall k {:trigger p(s[k])} :: 0 <= k < TrimBounds(s, p).0 ==> p(s[k])
    ensures forall k {:trigger p(s[k])} :: TrimBounds(s, p).1 <= k < |s| ==> p(s[k])
  {
    RunEndAll(s, 0, p);
    RunStartAll(s, |s|, p);
  }

  function Trim(s: string, p: char -> bool): string {
    var ab := TrimBounds(s, p);
    s[ab.0..ab.1]
  }

  /** String.prototype.trim */
  function JsTrim(s: string): string { Trim(s, IsJsSpace) }

  /** str.strip() with no argument */
  function PyStrip(s: string): string { Trim(s, IsPySpace) }

  /** A stretch of s that starts and ends with a kept character survives
      trimming unchanged, at a shifted position. */
  lemma {:induction false} TrimKeeps(s: string, p: char -> bool, i: nat, j: nat)
    requires i < j <= |s|
    requires !p(s[i]) && !p(s[j - 1])
    ensures TrimBounds(s, p).0 <= i && j <= TrimBounds(s, p).1
    ensures var a := TrimBounds(s, p).0;
            Trim(s, p)[i - a..j - a] == s[i..j]
  {
    var ab := TrimBounds(s, p);
    TrimBoundsAll(s, p);
    assert ab.0 <= i && j <= ab.1;
    var t := s[ab.0..ab.1];
    assert forall k :: i - ab.0 <= k < j - ab.0 ==> t[k] == s[k + ab.0];
    assert t[i - ab.0..j - ab.0] == s[i..j];
  }

  // ---------------------------------------------------------------------
  // Splitting into lines

  /** String.prototype.split with a one-character separator. */
  function Split(s: string, sep: char): (parts: seq<string>)
    ensures |parts| >= 1
    ensures forall k :: 0 <= k < |parts| ==> sep !in parts[k]
  {
    if s == [] then [""]
    else
      var rest := Split(s[1..], sep);
      if s[0] == sep then [""] + rest
      else [[s[0]] + rest[0]] + rest[1..]
  }

  /** Array.prototype.join, the inverse of Split. */
  function Join(parts: seq<string>, sep: char): string
    requires |parts| >= 1
  {
    if |parts| == 1 then parts[0] else parts[0] + [sep] + Join(parts[1..], sep)
  }

  lemma {:induction false} JoinSplit(s: string, sep: char)
    ensures Join(Split(s, sep), sep) == s
  {
    if s != [] {
      JoinSplit(s[1..], sep);
      var rest := Split(s[1..], sep);
      if s[0] == sep {
        assert Split(s, sep) == [""] + rest;
        assert ([""] + rest)[1..] == rest;
      } else {
        var parts := [[s[0]] + rest[0]] + rest[1..];
        if |rest| == 1 {
          assert parts == [[s[0]] + rest[0]];
        } else {
          assert parts[1..] == rest[1..];
          assert Join(rest, sep) == rest[0] + [sep] + Join(rest[1..], sep);
        }
      }
    }
  }

  /** Splitting the lines of a joined text gives those lines back. */
  lemma {:induction false} SplitJoin(parts: seq<string>, sep: char)
    requires |parts| >= 1
    requires forall k :: 0 <= k < |parts| ==> sep !in parts[k]
    ensures Split(Join(parts, sep), sep) == parts
  {
    if |parts| == 1 {
      SplitOfLine(parts[0], sep);
    } else {
      SplitJoin(parts[1..], sep);
      SplitPrefix(parts[0], Join(parts[1..], sep), sep);
      assert [parts[0]] + parts[1..] == parts;
    }
  }

  lemma {:induction false} SplitOfLine(line: string, sep: char)
    requires sep !in line
    ensures Split(line, sep) == [line]
  {
    if line != [] {
      assert sep !in line[1..] by {
        forall k | 0 <= k < |line[1..]| ensures line[1..][k] != sep {
          assert line[1..][k] == line[k + 1];
        }
      }
      SplitOfLine(line[1..], sep);
      assert [line[0]] + line[1..] == line;
    }
  }

  lemma {:induction false} SplitPrefix(line: string, rest: string, sep: char)
    requires sep !in line
    ensures Split(line + [sep] + rest, sep) == [line] + Split(rest, sep)
  {
    if line == [] {
      assert line + [sep] + rest == [sep] + rest;
      assert ([sep] + rest)[1..] == rest;
    } else {
      var t := line + [sep] + rest;
      assert t[1..] == line[1..] + [sep] + rest;
      assert sep !in line[1..] by {
        forall k | 0 <= k < |line[1..]| ensures line[1..][k] != sep {
          assert line[1..][k] == line[k + 1];
        }
      }
      SplitPrefix(line[1..], rest, sep);
      assert [line[0]] + line[1..] == line;
    }
  }

  // ---------------------------------------------------------------------
  // Substrings and order

  predicate AtPos(s: string, i: nat, lit: string) {
    i + |lit| <= |s| && s[i..i + |lit|] == lit
  }

  lemma {:induction false} AtPosChar(s: string, i: nat, lit: string, k: nat)
    requires AtPos(s, i, lit) && k < |lit|
    ensures s[i + k] == lit[k]
  {
    assert s[i..i + |lit|][k] == s[i + k];
  }

  /** Finding x + y at i is finding x at i and y right after it. */
  lemma {:induction false} AtPosSplit(s: string, i: nat, x: string, y: string)
    requires AtPos(s, i, x + y)
    ensures AtPos(s, i, x) && AtPos(s, i + |x|, y)
  {
    assert s[i..i + |x|] == s[i..i + |x + y|][..|x|];
    assert s[i + |x|..i + |x| + |y|] == s[i..i + |x + y|][|x|..];
  }

  /** x is found at the start of x + y, and y right after it. */
  lemma {:induction false} AtPosConcat(x: string, y: string)
    ensures AtPos(x + y, 0, x) && AtPos(x + y, |x|, y)
  {
    assert (x + y)[..|x|] == x;
    assert (x + y)[|x|..|x| + |y|] == y;
  }

  /** What is found in x is still found, at the same place, in x + y. */
  lemma {:induction false} AtPosExtend(x: string, y: string, i: nat, lit: string)
    requires AtPos(x, i, lit)
    ensures AtPos(x + y, i, lit)
  {
    assert (x + y)[i..i + |lit|] == x[i..i + |lit|];
  }

  /** Python's `sub in s` for strings. */
  predicate Contains(s: string, sub: string) {
    exists i | 0 <= i <= |s| :: AtPos(s, i, sub)
  }

  /** Python's `<` on str: lexicographic by code point. JavaScript's default
      sort compares UTF-16 code units, which orders alike below U+10000. */
  predicate StrLt(a: string, b: string) {
    if a == [] then b != []
    else if b == [] then false
    else if a[0] != b[0] then a[0] < b[0]
    else StrLt(a[1..], b[1..])
  }

  predicate StrLe(a: string, b: string) { a == b || StrLt(a, b) }

  lemma {:induction false} StrLtTransitive(a: string, b: string, c: string)
    requires StrLt(a, b) && StrLt(b, c)
    ensures StrLt(a, c)
  {
    if a != [] && b != [] && c != [] && a[0] == b[0] && b[0] == c[0] {
      StrLtTransitive(a[1..], b[1..], c[1..]);
    }
  }

  lemma {:induction false} StrLtAsym(a: string, b: string)
    ensures StrLt(a, b) ==> !StrLt(b, a)
  {
    if a != [] && b != [] && a[0] == b[0] {
      StrLtAsym(a[1..], b[1..]);
    }
  }

  lemma {:induction false} StrLtTotal(a: string, b: string)
    ensures a == b || StrLt(a, b) || StrLt(b, a)
  {
    if a != [] && b != [] && a[0] == b[0] {
      StrLtTotal(a[1..], b[1..]);
      if a[1..] == b[1..] {
        assert a == [a[0]] + a[1..] && b == [b[0]] + b[1..];
      }
    }
  }

  // ---------------------------------------------------------------------
  // Values of digit strings (parseInt, parseFloat, int(), float())

  function DigitVal(c: char): (d: nat)
    requires IsDigit(c)
    ensures d < 10
  {
    c as int - '0' as int
  }

  /** The value of a decimal digit string; leading zeros are allowed. */
  function NatOf(ds: string): nat
    requires AllDigits(ds)
  {
    if ds == [] then 0 else 10 * NatOf(ds[..|ds| - 1]) + DigitVal(ds[|ds| - 1])
  }

  function Pow10(n: nat): (p: nat)
    ensures p >= 1
  {
    if n == 0 then 1 else 10 * Pow10(n - 1)
  }

  /** NatOf(ds) has at most |ds| digits. */
  lemma {:induction false} NatOfBound(ds: string)
    requires AllDigits(ds)
    ensures NatOf(ds) < Pow10(|ds|)
  {
    if ds != [] {
      NatOfBound(ds[..|ds| - 1]);
    }
  }

  /** The value of "<ip>.<fp>" (or of "<ip>" when fp is empty). */
  function DecimalOf(ip: string, fp: string): (r: real)
    requires AllDigits(ip) && AllDigits(fp)
    ensures NatOf(ip) as real <= r < NatOf(ip) as real + 1.0
  {
    NatOfBound(fp);
    var q := NatOf(fp) as real / Pow10(|fp|) as real;
    FractionBelowOne(NatOf(fp) as real, Pow10(|fp|) as real);
    NatOf(ip) as real + q
  }

  lemma {:induction false} FractionBelowOne(a: real, b: real)
    requires 0.0 <= a < b
    ensures 0.0 <= a / b < 1.0
  {
    assert a / b * b == a;
  }
}
