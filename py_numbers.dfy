/** Python's int() and float() on a string that has already been stripped,
    for ASCII digits: an optional sign, digit groups that single
    underscores may separate, and for float() a fraction and an exponent.
    A string these reject raises ValueError in Python; here it gives None. */
module PyNumbers {
  import opened Wrappers
  import opened Text

  predicate DigitOrUnderscore(c: char) { IsDigit(c) || c == '_' }

  /** `digitpart ::= digit (["_"] digit)*` read greedily from i: its end. */
  function DigitPartEnd(s: string, i: nat): (e: nat)
    requires i < |s| && IsDigit(s[i])
    ensures i < e <= |s| && IsDigit(s[e - 1])
    ensures forall k :: i <= k < e ==> DigitOrUnderscore(s[k])
    ensures e == |s| || (!IsDigit(s[e]) && !(s[e] == '_' && e + 1 < |s| && IsDigit(s[e + 1])))
    decreases |s| - i
  {
    if i + 1 < |s| && IsDigit(s[i + 1]) then DigitPartEnd(s, i + 1)
    else if i + 2 < |s| && s[i + 1] == '_' && IsDigit(s[i + 2]) then DigitPartEnd(s, i + 2)
    else i + 1
  }

  /** The digits of a digit part, its underscores dropped. */
  function DropUnderscores(s: string): (r: string)
    requires forall k :: 0 <= k < |s| ==> DigitOrUnderscore(s[k])
    ensures AllDigits(r) && |r| <= |s|
  {
    if |s| == 0 then []
    else
      assert forall k :: 0 <= k < |s| - 1 ==> s[1..][k] == s[k + 1];
      var t := DropUnderscores(s[1..]);
      if s[0] == '_' then t
      else
        assert DigitOrUnderscore(s[0]);
        assert forall k :: 0 < k < |t| + 1 ==> ([s[0]] + t)[k] == t[k - 1];
        [s[0]] + t
  }

  lemma {:induction false} DropNone(s: string)
    requires AllDigits(s)
    ensures DropUnderscores(s) == s
  {
    if |s| > 0 {
      DropNone(s[1..]);
    }
  }

  /** A digit string is one digit part, read to its end. */
  lemma {:induction false} DigitPartOfDigits(s: string, i: nat)
    requires i < |s| && forall k :: i <= k < |s| ==> IsDigit(s[k])
    ensures DigitPartEnd(s, i) == |s|
    decreases |s| - i
  {
    if i + 1 < |s| {
      DigitPartOfDigits(s, i + 1);
    }
  }

  /** The digit part s[i..e], made of digits and underscores. */
  function DigitsBetween(s: string, i: nat, e: nat): (r: string)
    requires i <= e <= |s| && forall k :: i <= k < e ==> DigitOrUnderscore(s[k])
    ensures AllDigits(r)
  {
    assert forall k :: 0 <= k < e - i ==> s[i..e][k] == s[i + k];
    DropUnderscores(s[i..e])
  }

  /** An optional digit part from i: its end, i itself when there is none. */
  function OptDigitPartEnd(s: string, i: nat): (e: nat)
    requires i <= |s|
    ensures i <= e <= |s|
    ensures forall k :: i <= k < e ==> DigitOrUnderscore(s[k])
    ensures e > i <==> i < |s| && IsDigit(s[i])
  {
    if i < |s| && IsDigit(s[i]) then DigitPartEnd(s, i) else i
  }

  /** The end of an optional sign at i. */
  function SignEnd(s: string, i: nat): (j: nat)
    requires i <= |s|
    ensures j == i || j == i + 1
  {
    if i < |s| && (s[i] == '+' || s[i] == '-') then i + 1 else i
  }

  /** int(s): `[sign] digitpart`, covering all of s. */
  function PyInt(s: string): (r: Option<int>)
    ensures r.Some? ==> |s| > 0 && '.' !in s
  {
    var p := SignEnd(s, 0);
    if p < |s| && IsDigit(s[p]) && DigitPartEnd(s, p) == |s| then
      var n: int := NatOf(DigitsBetween(s, p, |s|));
      Some(if p == 1 && s[0] == '-' then -n else n)
    else None
  }

  /** The exponent `[eE] [sign] digitpart` that must cover s from k to its end. */
  function PyExponent(s: string, k: nat): (r: Option<int>)
    requires k < |s|
  {
    if s[k] == 'e' || s[k] == 'E' then
      var q := SignEnd(s, k + 1);
      if q < |s| && IsDigit(s[q]) && DigitPartEnd(s, q) == |s| then
        var n: int := NatOf(DigitsBetween(s, q, |s|));
        Some(if s[k + 1] == '-' then -n else n)
      else None
    else None
  }

  function Scale(m: real, x: int): real {
    if x >= 0 then m * Pow10(x) as real else m / Pow10(-x) as real
  }

  /** float(s) for a string holding a '.', which rules out the spellings of
      infinity and NaN: `[sign] ([digitpart] "." [digitpart]) [exponent]`
      with a digit on at least one side of the point. */
  function PyFloat(s: string): (r: Option<real>)
    requires '.' in s
  {
    var p := SignEnd(s, 0);
    var ie := OptDigitPartEnd(s, p);
    if ie < |s| && s[ie] == '.' then
      var fs := ie + 1;
      var fe := OptDigitPartEnd(s, fs);
      if ie == p && fe == fs then None
      else
        var mant := DecimalOf(DigitsBetween(s, p, ie), DigitsBetween(s, fs, fe));
        var signed := if p == 1 && s[0] == '-' then -mant else mant;
        if fe == |s| then Some(signed)
        else match PyExponent(s, fe)
          case None => None
          case Some(x) => Some(Scale(signed, x))
    else None
  }

  // ---------------------------------------------------------------------
  // The values of the plain forms

  lemma {:induction false} PyIntOfDigits(ds: string)
    requires |ds| > 0 && AllDigits(ds)
    ensures PyInt(ds) == Some(NatOf(ds))
  {
    DigitPartOfDigits(ds, 0);
    assert ds[0..|ds|] == ds;
    DropNone(ds);
  }

  lemma {:induction false} PyIntOfNegative(ds: string)
    requires |ds| > 0 && AllDigits(ds)
    ensures PyInt("-" + ds) == Some(-(NatOf(ds) as int))
  {
    var s := "-" + ds;
    assert SignEnd(s, 0) == 1;
    assert IsDigit(s[1]) && DigitPartEnd(s, 1) == |s| by {
      assert forall k :: 1 <= k < |s| ==> s[k] == ds[k - 1];
      DigitPartOfDigits(s, 1);
    }
    assert DigitsBetween(s, 1, |s|) == ds by {
      assert s[1..|s|] == ds;
      DropNone(ds);
    }
  }

  lemma {:induction false} PyFloatOfDecimal(ip: string, fp: string)
    requires |ip| > 0 && AllDigits(ip) && |fp| > 0 && AllDigits(fp)
    ensures '.' in ip + "." + fp
    ensures PyFloat(ip + "." + fp) == Some(DecimalOf(ip, fp))
  {
    DecimalParts(ip, fp);
  }

  /** How `ip.fp` splits: the integer part ends at the point and the
      fraction part at the end, neither holding an underscore. */
  lemma {:induction false} DecimalParts(ip: string, fp: string)
    requires |ip| > 0 && AllDigits(ip) && |fp| > 0 && AllDigits(fp)
    ensures var s := ip + "." + fp;
            s[|ip|] == '.' && SignEnd(s, 0) == 0
            && OptDigitPartEnd(s, 0) == |ip| && OptDigitPartEnd(s, |ip| + 1) == |s|
            && DigitsBetween(s, 0, |ip|) == ip && DigitsBetween(s, |ip| + 1, |s|) == fp
  {
    var s := ip + "." + fp;
    var fs := |ip| + 1;
    assert s[|ip|] == '.';
    assert OptDigitPartEnd(s, 0) == |ip| by {
      assert forall k :: 0 <= k < |ip| ==> s[k] == ip[k];
      DigitPartPrefix(s, ip, 0);
    }
    assert OptDigitPartEnd(s, fs) == |s| by {
      assert forall k :: fs <= k < |s| ==> s[k] == fp[k - fs];
      DigitPartOfDigits(s, fs);
    }
    assert DigitsBetween(s, 0, |ip|) == ip by {
      assert s[0..|ip|] == ip;
      DropNone(ip);
    }
    assert DigitsBetween(s, fs, |s|) == fp by {
      assert s[fs..|s|] == fp;
      DropNone(fp);
    }
  }

  /** A digit part that ends where the digits of s end. */
  lemma {:induction false} DigitPartPrefix(s: string, ds: string, i: nat)
    requires |ds| <= |s| && i < |ds| && forall k :: 0 <= k < |ds| ==> s[k] == ds[k] && IsDigit(ds[k])
    requires |ds| < |s| && !IsDigit(s[|ds|]) && !(s[|ds|] == '_' && |ds| + 1 < |s| && IsDigit(s[|ds| + 1]))
    ensures DigitPartEnd(s, i) == |ds|
    decreases |ds| - i
  {
    if i + 1 < |ds| {
      DigitPartPrefix(s, ds, i + 1);
    }
  }

  /** A digit part runs across one underscore between two digit groups. */
  lemma {:induction false} DigitPartAcross(a: string, b: string, s: string, i: nat)
    requires AllDigits(a) && |b| > 0 && AllDigits(b) && s == a + "_" + b
    requires i < |a|
    ensures DigitPartEnd(s, i) == |s|
    decreases |a| - i
  {
    assert forall k :: 0 <= k < |a| ==> s[k] == a[k];
    assert forall k :: |a| < k < |s| ==> s[k] == b[k - |a| - 1];
    if i + 1 < |a| {
      DigitPartAcross(a, b, s, i + 1);
    } else {
      assert s[i + 1] == '_' && IsDigit(s[i + 2]);
      DigitPartOfDigits(s, i + 2);
    }
  }

  lemma {:induction false} DropAcross(a: string, b: string)
    requires AllDigits(a) && AllDigits(b)
    ensures forall k :: 0 <= k < |a + "_" + b| ==> DigitOrUnderscore((a + "_" + b)[k])
    ensures DropUnderscores(a + "_" + b) == a + b
  {
    var s := a + "_" + b;
    assert forall k :: 0 <= k < |s| ==> DigitOrUnderscore(s[k]) by {
      assert forall k :: 0 <= k < |a| ==> s[k] == a[k];
      assert forall k :: |a| < k < |s| ==> s[k] == b[k - |a| - 1];
    }
    if |a| == 0 {
      assert s[1..] == b;
      DropNone(b);
    } else {
      assert s[1..] == a[1..] + "_" + b;
      DropAcross(a[1..], b);
      assert a + b == [a[0]] + (a[1..] + b);
    }
  }

  /** int() accepts an underscore exactly between two digit groups: one
      underscore there is dropped, and two in a row, a trailing one or a
      leading one make the text no integer. */
  lemma {:induction false} PyIntUnderscore(a: string, b: string)
    requires |a| > 0 && AllDigits(a) && |b| > 0 && AllDigits(b)
    ensures AllDigits(a + b)
    ensures PyInt(a + "_" + b) == Some(NatOf(a + b))
    ensures PyInt(a + "__" + b) == None
    ensures PyInt(a + "_") == None
    ensures PyInt("_" + a) == None
  {
    var s := a + "_" + b;
    assert forall k :: 0 <= k < |a + b| ==> (a + b)[k] == if k < |a| then a[k] else b[k - |a|];
    assert s[0] == a[0];
    DigitPartAcross(a, b, s, 0);
    DropAcross(a, b);
    assert s[0..|s|] == s;
    var d := a + "__" + b;
    assert d[0] == a[0];
    DigitPartPrefix(d, a, 0);
    var t := a + "_";
    assert t[0] == a[0];
    DigitPartPrefix(t, a, 0);
    assert ("_" + a)[0] == '_';
  }
}
