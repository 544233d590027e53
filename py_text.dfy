/**
 * The few Python string operations the bot's access-control code depends on,
 * restricted to ASCII text: str.strip(), str(int), int(str), str.split(sep)
 * with a one-character separator, and the substring test `p in s`.
 */
module PyText {
  import opened Wrappers

  /** The ASCII characters for which Python's str.isspace() holds:
      tab through carriage return, the separators 0x1C-0x1F, and space. */
  predicate IsSpace(c: char) {
    9 <= c as int <= 13 || 28 <= c as int <= 32
  }

  predicate IsDigit(c: char) {
    '0' <= c <= '9'
  }

  predicate AllDigits(s: string) {
    forall k :: 0 <= k < |s| ==> IsDigit(s[k])
  }

  /** str.lstrip(): the suffix left after dropping leading whitespace. */
  function StripLeft(s: string): (r: string)
    ensures |r| <= |s| && r == s[|s| - |r|..]
    ensures forall k :: 0 <= k < |s| - |r| ==> IsSpace(s[k])
    ensures r == [] || !IsSpace(r[0])
  {
    if s != [] && IsSpace(s[0]) then
      var r := StripLeft(s[1..]);
      assert s[1..][|s| - 1 - |r|..] == s[|s| - |r|..];
      r
    else
      s
  }

  /** str.rstrip(): the prefix left after dropping trailing whitespace. */
  function StripRight(s: string): (r: string)
    ensures |r| <= |s| && r == s[..|r|]
    ensures forall k :: |r| <= k < |s| ==> IsSpace(s[k])
    ensures r == [] || !IsSpace(r[|r| - 1])
  {
    if s != [] && IsSpace(s[|s| - 1]) then
      var r := StripRight(s[..|s| - 1]);
      assert s[..|s| - 1][..|r|] == s[..|r|];
      r
    else
      s
  }

  /** str.strip() with no argument: what is left of s between its leading
      and its trailing whitespace (StripTrims, StripUnique). */
  function Strip(s: string): (r: string)
    ensures |r| <= |s|
    ensures r == [] || (!IsSpace(r[0]) && !IsSpace(r[|r| - 1]))
  {
    var t := StripLeft(s);
    var r := StripRight(t);
    assert r != [] ==> r[0] == t[0];
    r
  }

  /** r is the stretch of s that starts at i and has only whitespace
      before and after it. */
  ghost predicate Trimmed(s: string, r: string, i: int) {
    && 0 <= i <= |s| - |r| && r == s[i..i + |r|]
    && (forall k :: 0 <= k < i ==> IsSpace(s[k]))
    && (forall k :: i + |r| <= k < |s| ==> IsSpace(s[k]))
  }

  /** strip() removes only whitespace, and only from the two ends. */
  lemma StripTrims(s: string)
    ensures Trimmed(s, Strip(s), |s| - |StripLeft(s)|)
  {
    TrimmedAt(s, StripLeft(s), Strip(s));
  }

  /** The facts about lstrip and rstrip that make their composition a
      Trimmed stretch of s. */
  lemma TrimmedAt(s: string, t: string, r: string)
    requires |t| <= |s| && t == s[|s| - |t|..]
    requires forall k :: 0 <= k < |s| - |t| ==> IsSpace(s[k])
    requires |r| <= |t| && r == t[..|r|]
    requires forall k :: |r| <= k < |t| ==> IsSpace(t[k])
    ensures Trimmed(s, r, |s| - |t|)
  {
    var i := |s| - |t|;
    assert r == s[i..i + |r|];
    forall k | i + |r| <= k < |s|
      ensures IsSpace(s[k])
    {
      assert s[k] == t[k - i];
    }
  }

  /** lstrip() stops at the first character that is not whitespace. */
  lemma StripLeftAt(s: string, i: int)
    requires 0 <= i <= |s| && (i == |s| || !IsSpace(s[i]))
    requires forall k :: 0 <= k < i ==> IsSpace(s[k])
    ensures StripLeft(s) == s[i..]
  {
    assert |StripLeft(s)| == |s| - i;
  }

  /** rstrip() stops at the last character that is not whitespace. */
  lemma StripRightAt(t: string, m: int)
    requires 0 <= m <= |t| && (m == 0 || !IsSpace(t[m - 1]))
    requires forall k :: m <= k < |t| ==> IsSpace(t[k])
    ensures StripRight(t) == t[..m]
  {
    assert |StripRight(t)| == m;
  }

  /** strip() removes all the whitespace at the two ends: the only stretch
      of s with whitespace around it and none at its own ends is Strip(s). */
  lemma StripUnique(s: string, r: string, i: int)
    requires Trimmed(s, r, i)
    requires r == [] || (!IsSpace(r[0]) && !IsSpace(r[|r| - 1]))
    ensures r == Strip(s)
  {
    if r == [] {
      StripLeftAt(s, |s|);
    } else {
      StripAround(s, r, i);
    }
  }

  /** The case of StripUnique where the stretch is not empty. */
  lemma StripAround(s: string, r: string, i: int)
    requires 0 <= i && i + |r| <= |s| && r != [] && r == s[i..i + |r|]
    requires !IsSpace(r[0]) && !IsSpace(r[|r| - 1])
    requires forall k :: 0 <= k < i ==> IsSpace(s[k])
    requires forall k :: i + |r| <= k < |s| ==> IsSpace(s[k])
    ensures Strip(s) == r
  {
    assert s[i] == r[0];
    StripLeftAt(s, i);
    var t := s[i..];
    assert t[..|r|] == r;
    assert t[|r| - 1] == r[|r| - 1];
    forall k | |r| <= k < |t|
      ensures IsSpace(t[k])
    {
      assert t[k] == s[i + k];
    }
    StripRightAt(t, |r|);
  }

  /** A string that neither starts nor ends with whitespace is its own strip. */
  lemma StripFixed(s: string)
    requires s == [] || (!IsSpace(s[0]) && !IsSpace(s[|s| - 1]))
    ensures Strip(s) == s
  {
  }

  /** Stripping twice is stripping once. */
  lemma StripIdempotent(s: string)
    ensures Strip(Strip(s)) == Strip(s)
  {
    StripFixed(Strip(s));
  }

  function DigitChar(d: nat): (c: char)
    requires d < 10
    ensures IsDigit(c)
  {
    ('0' as int + d) as char
  }

  function DigitValue(c: char): (d: nat)
    requires IsDigit(c)
    ensures d < 10 && DigitChar(d) == c
  {
    c as int - '0' as int
  }

  /** The decimal digits of n, most significant first and without leading zeros. */
  function NatDigits(n: nat): (r: string)
    ensures r != [] && AllDigits(r)
    ensures r[0] == '0' ==> n == 0
  {
    if n < 10 then [DigitChar(n)] else NatDigits(n / 10) + [DigitChar(n % 10)]
  }

  /** str(n) for a Python int: an optional minus sign and the digits of |n|. */
  function Str(n: int): (r: string)
    ensures r != [] && !IsSpace(r[0]) && !IsSpace(r[|r| - 1])
    ensures forall k :: 0 <= k < |r| ==> r[k] == '-' || IsDigit(r[k])
  {
    if n < 0 then "-" + NatDigits(-n) else NatDigits(n)
  }

  /** The base-ten value of a run of ASCII digits, the empty run being 0. */
  function DigitsValue(s: string): nat
    requires AllDigits(s)
  {
    if s == [] then 0 else 10 * DigitsValue(s[..|s| - 1]) + DigitValue(s[|s| - 1])
  }

  /** The value of a non-empty run of ASCII digits; None if the string is
      empty or holds anything else. */
  function ParseDigits(s: string): Option<nat>
  {
    if s != [] && AllDigits(s) then Some(DigitsValue(s)) else None
  }

  /** The ASCII characters int() skips around a number (CPython's
      Py_ISSPACE): tab through carriage return, and space.  The separators
      0x1C-0x1F, which str.strip() removes, are not among them. */
  predicate IsIntSpace(c: char) {
    9 <= c as int <= 13 || c == ' '
  }

  /** The leading characters int() skips: the suffix after them. */
  function IntStripLeft(s: string): (r: string)
    ensures |r| <= |s| && r == s[|s| - |r|..]
    ensures forall k :: 0 <= k < |s| - |r| ==> IsIntSpace(s[k])
    ensures r == [] || !IsIntSpace(r[0])
  {
    if s != [] && IsIntSpace(s[0]) then
      var r := IntStripLeft(s[1..]);
      assert s[1..][|s| - 1 - |r|..] == s[|s| - |r|..];
      r
    else
      s
  }

  /** The trailing characters int() skips: the prefix before them. */
  function IntStripRight(s: string): (r: string)
    ensures |r| <= |s| && r == s[..|r|]
    ensures forall k :: |r| <= k < |s| ==> IsIntSpace(s[k])
    ensures r == [] || !IsIntSpace(r[|r| - 1])
  {
    if s != [] && IsIntSpace(s[|s| - 1]) then
      var r := IntStripRight(s[..|s| - 1]);
      assert s[..|s| - 1][..|r|] == s[..|r|];
      r
    else
      s
  }

  /** What int() reads of s once it has skipped the whitespace around it. */
  function IntStrip(s: string): (r: string)
    ensures |r| <= |s|
    ensures r == [] || (!IsIntSpace(r[0]) && !IsIntSpace(r[|r| - 1]))
  {
    var t := IntStripLeft(s);
    var r := IntStripRight(t);
    assert r != [] ==> r[0] == t[0];
    r
  }

  /** r is the stretch of s that starts at i and has only int() whitespace
      before and after it. */
  ghost predicate IntTrimmed(s: string, r: string, i: int) {
    && 0 <= i <= |s| - |r| && r == s[i..i + |r|]
    && (forall k :: 0 <= k < i ==> IsIntSpace(s[k]))
    && (forall k :: i + |r| <= k < |s| ==> IsIntSpace(s[k]))
  }

  /** int() skips only its own whitespace, and only at the two ends. */
  lemma IntStripTrims(s: string)
    ensures IntTrimmed(s, IntStrip(s), |s| - |IntStripLeft(s)|)
  {
    IntTrimmedAt(s, IntStripLeft(s), IntStrip(s));
  }

  /** The facts about int()'s two skips that make their composition an
      IntTrimmed stretch of s. */
  lemma IntTrimmedAt(s: string, t: string, r: string)
    requires |t| <= |s| && t == s[|s| - |t|..]
    requires forall k :: 0 <= k < |s| - |t| ==> IsIntSpace(s[k])
    requires |r| <= |t| && r == t[..|r|]
    requires forall k :: |r| <= k < |t| ==> IsIntSpace(t[k])
    ensures IntTrimmed(s, r, |s| - |t|)
  {
    var i := |s| - |t|;
    assert r == s[i..i + |r|];
    forall k | i + |r| <= k < |s|
      ensures IsIntSpace(s[k])
    {
      assert s[k] == t[k - i];
    }
  }

  /** int() skips all the whitespace at the two ends: the only stretch of s
      with int() whitespace around it and none at its own ends is
      IntStrip(s). */
  lemma IntStripUnique(s: string, r: string, i: int)
    requires IntTrimmed(s, r, i)
    requires r == [] || (!IsIntSpace(r[0]) && !IsIntSpace(r[|r| - 1]))
    ensures r == IntStrip(s)
  {
    if r == [] {
      IntStripLeftAt(s, |s|);
    } else {
      IntStripAround(s, r, i);
    }
  }

  /** int()'s leading skip stops at the first other character. */
  lemma IntStripLeftAt(s: string, i: int)
    requires 0 <= i <= |s| && (i == |s| || !IsIntSpace(s[i]))
    requires forall k :: 0 <= k < i ==> IsIntSpace(s[k])
    ensures IntStripLeft(s) == s[i..]
  {
    assert |IntStripLeft(s)| == |s| - i;
  }

  /** int()'s trailing skip stops at the last other character. */
  lemma IntStripRightAt(t: string, m: int)
    requires 0 <= m <= |t| && (m == 0 || !IsIntSpace(t[m - 1]))
    requires forall k :: m <= k < |t| ==> IsIntSpace(t[k])
    ensures IntStripRight(t) == t[..m]
  {
    assert |IntStripRight(t)| == m;
  }

  /** The case of IntStripUnique where the stretch is not empty. */
  lemma IntStripAround(s: string, r: string, i: int)
    requires 0 <= i && i + |r| <= |s| && r != [] && r == s[i..i + |r|]
    requires !IsIntSpace(r[0]) && !IsIntSpace(r[|r| - 1])
    requires forall k :: 0 <= k < i ==> IsIntSpace(s[k])
    requires forall k :: i + |r| <= k < |s| ==> IsIntSpace(s[k])
    ensures IntStrip(s) == r
  {
    assert s[i] == r[0];
    IntStripLeftAt(s, i);
    var t := s[i..];
    assert t[..|r|] == r;
    assert t[|r| - 1] == r[|r| - 1];
    forall k | |r| <= k < |t|
      ensures IsIntSpace(t[k])
    {
      assert t[k] == s[i + k];
    }
    IntStripRightAt(t, |r|);
  }

  /** A string that neither starts nor ends with int() whitespace is read
      whole. */
  lemma IntStripFixed(s: string)
    requires s == [] || (!IsIntSpace(s[0]) && !IsIntSpace(s[|s| - 1]))
    ensures IntStrip(s) == s
  {
  }

  /** int(s) for a str s: the whitespace int() skips, then the signed
      digits; None where Python raises ValueError. */
  function ParseInt(s: string): Option<int>
  {
    ParseSigned(IntStrip(s))
  }

  /** An optional sign followed by at least one decimal digit. */
  function ParseSigned(t: string): Option<int>
  {
    if t != [] && (t[0] == '+' || t[0] == '-') then
      match ParseDigits(t[1..])
      case None => None
      case Some(v) =>
        var n: int := if t[0] == '-' then -(v as int) else v as int;
        Some(n)
    else
      ParseDigits(t)
  }

  /** Reading back the digits of n gives n. */
  lemma {:induction false} NatDigitsRoundTrip(n: nat)
    ensures ParseDigits(NatDigits(n)) == Some(n)
  {
    var s := NatDigits(n);
    if n < 10 {
      assert s == [DigitChar(n)];
      assert DigitsValue(s[..0]) == 0;
      assert DigitValue(DigitChar(n)) == n;
    } else {
      NatDigitsRoundTrip(n / 10);
      var d := NatDigits(n / 10);
      assert s[..|s| - 1] == d;
      assert DigitValue(DigitChar(n % 10)) == n % 10;
    }
  }

  /** "-" followed by the digits of n reads as -n. */
  lemma SignedNegative(n: nat)
    ensures ParseSigned("-" + NatDigits(n)) == Some(-(n as int))
  {
    var t := "-" + NatDigits(n);
    assert t[1..] == NatDigits(n);
    NatDigitsRoundTrip(n);
  }

  /** The digits of n alone read as n. */
  lemma SignedNonNegative(n: nat)
    ensures ParseSigned(NatDigits(n)) == Some(n as int)
  {
    assert IsDigit(NatDigits(n)[0]);
    NatDigitsRoundTrip(n);
  }

  /** int(str(n)) == n. */
  lemma ParseIntStr(n: int)
    ensures ParseInt(Str(n)) == Some(n)
  {
    SignedStr(n);
    IntStripFixed(Str(n));
  }

  /** str(n) reads back as n as signed digits. */
  lemma SignedStr(n: int)
    ensures ParseSigned(Str(n)) == Some(n)
  {
    if n < 0 {
      SignedNegative(-n);
    } else {
      SignedNonNegative(n);
    }
  }

  /** int() accepts str(n) with its own whitespace around it: int(" 5\n")
      is 5. */
  lemma ParseIntPadded(lead: string, n: int, trail: string)
    requires forall k :: 0 <= k < |lead| ==> IsIntSpace(lead[k])
    requires forall k :: 0 <= k < |trail| ==> IsIntSpace(trail[k])
    ensures ParseInt(lead + Str(n) + trail) == Some(n)
  {
    SignedStr(n);
    var s := lead + Str(n) + trail;
    var r := Str(n);
    assert s[|lead|..|lead| + |r|] == r;
    forall k | 0 <= k < |lead|
      ensures IsIntSpace(s[k])
    {
      assert s[k] == lead[k];
    }
    forall k | |lead| + |r| <= k < |s|
      ensures IsIntSpace(s[k])
    {
      assert s[k] == trail[k - |lead| - |r|];
    }
    IntStripUnique(s, r, |lead|);
  }

  /** Whatever strips to str(n) parses as n once stripped: the exact string
      comparison is a stricter test than the integer parse. */
  lemma StrictMatchParses(t: string, n: int)
    requires Strip(t) == Str(n)
    ensures ParseInt(Strip(t)) == Some(n)
  {
    ParseIntStr(n);
  }

  /** After str.strip() there is nothing left for int() to skip: the parse
      of a stripped text is the signed-digit reading of it. */
  lemma ParseIntStripped(s: string)
    ensures ParseInt(Strip(s)) == ParseSigned(Strip(s))
  {
    IntStripFixed(Strip(s));
  }

  /** Text that starts with neither a sign nor a digit is not a number. */
  lemma SignedNeedsDigit(t: string)
    requires t != [] && t[0] != '+' && t[0] != '-' && !IsDigit(t[0])
    ensures ParseSigned(t) == None
  {
    assert !AllDigits(t);
  }

  /** str.strip() removes a separator such as 0x1C before a digit:
      "\x1c5".strip() is "5" (compare IntKeepsSeparator). */
  lemma StripDropsSeparator(s: string)
    requires |s| == 2 && 28 <= s[0] as int <= 31 && IsDigit(s[1])
    ensures Strip(s) == s[1..]
  {
    StripLeftAt(s, 1);
  }

  /** int() does not skip that separator: int("\x1c5") raises. */
  lemma IntKeepsSeparator(s: string)
    requires |s| == 2 && 28 <= s[0] as int <= 31 && IsDigit(s[1])
    ensures ParseInt(s) == None
  {
    SignedNeedsDigit(s);
    IntStripFixed(s);
  }

  /** The digits "042" read as 42. */
  lemma DigitsWithLeadingZero()
    ensures ParseDigits("042") == Some(42)
  {
    assert ParseDigits("0") == Some(0);
    assert ParseDigits("04") == Some(4) by {
      assert "04"[..1] == "0";
    }
    assert "042"[..2] == "04";
  }

  lemma StrFortyTwo()
    ensures Str(42) == "42"
  {
    assert NatDigits(4) == "4";
    assert NatDigits(42) == NatDigits(4) + [DigitChar(2)];
  }

  /** A leading zero parses but is not the canonical spelling. */
  lemma LeadingZeroParses()
    ensures ParseInt("042") == Some(42)
    ensures Strip("042") != Str(42)
  {
    DigitsWithLeadingZero();
    assert ParseSigned("042") == Some(42);
    IntStripFixed("042");
    StripFixed("042");
    StrFortyTwo();
  }

  /** The index of the first occurrence of c in s. */
  function IndexOf(s: string, c: char): (i: nat)
    requires c in s
    ensures i < |s| && s[i] == c && c !in s[..i]
  {
    if s[0] == c then 0
    else
      var i := 1 + IndexOf(s[1..], c);
      assert s[..i] == [s[0]] + s[1..][..i - 1];
      i
  }

  /** The inverse of Split: the parts with sep between neighbours. */
  function Join(parts: seq<string>, sep: char): string
    requires |parts| >= 1
  {
    if |parts| == 1 then parts[0] else parts[0] + [sep] + Join(parts[1..], sep)
  }

  /** str.split(sep) for a one-character sep: the maximal runs of s that do
      not contain sep, one more than the number of separators. */
  function Split(s: string, sep: char): (parts: seq<string>)
    ensures |parts| >= 1
    ensures |parts| == 1 <==> sep !in s
    ensures forall i :: 0 <= i < |parts| ==> sep !in parts[i]
    ensures Join(parts, sep) == s
    decreases |s|
  {
    if sep !in s then [s]
    else
      var i := IndexOf(s, sep);
      var rest := Split(s[i + 1..], sep);
      var parts := [s[..i]] + rest;
      assert parts[1..] == rest;
      assert s == s[..i] + [sep] + s[i + 1..];
      parts
  }

  /** The first separator of a + [sep] + b is the one after a, when a has none. */
  lemma IndexOfAfter(a: string, sep: char, b: string)
    requires sep !in a
    ensures IndexOf(a + [sep] + b, sep) == |a|
  {
    var s := a + [sep] + b;
    assert s[..|a|] == a;
    assert forall j :: 0 <= j < |a| ==> s[j] == a[j];
    var i := IndexOf(s, sep);
    assert s[|a|] == sep;
  }

  /** Splitting a + sep + b, where a has no separator, gives a and then the
      fields of b. */
  lemma SplitCons(a: string, sep: char, b: string)
    requires sep !in a
    ensures Split(a + [sep] + b, sep) == [a] + Split(b, sep)
  {
    var s := a + [sep] + b;
    assert s[|a|] == sep;
    IndexOfAfter(a, sep, b);
    assert s[..|a|] == a;
    assert s[|a| + 1..] == b;
  }

  /** Splitting what Join produced gives the parts back, provided no part
      contains the separator. */
  lemma {:induction false} SplitJoin(parts: seq<string>, sep: char)
    requires |parts| >= 1
    requires forall i :: 0 <= i < |parts| ==> sep !in parts[i]
    ensures Split(Join(parts, sep), sep) == parts
  {
    if |parts| > 1 {
      var tail := parts[1..];
      var t := Join(tail, sep);
      assert Join(parts, sep) == parts[0] + [sep] + t;
      assert sep !in parts[0];
      SplitCons(parts[0], sep, t);
      assert forall i :: 0 <= i < |tail| ==> sep !in tail[i] by {
        forall i | 0 <= i < |tail| ensures sep !in tail[i] {
          assert tail[i] == parts[i + 1];
        }
      }
      SplitJoin(tail, sep);
      assert [parts[0]] + tail == parts;
    }
  }

  /** Python's `p in s` on strings: p occurs in s as a contiguous run. */
  function Contains(s: string, p: string): (r: bool)
    ensures r <==> exists i :: 0 <= i <= |s| && p <= s[i..]
  {
    if p <= s then
      assert p <= s[0..];
      true
    else if s == [] then
      false
    else
      var r := Contains(s[1..], p);
      assert forall i :: 1 <= i <= |s| ==> s[i..] == s[1..][i - 1..];
      r
  }

  /** Every character of a run that s contains occurs in s. */
  lemma ContainsChar(s: string, p: string, k: nat)
    requires Contains(s, p) && k < |p|
    ensures p[k] in s
  {
    var i :| 0 <= i <= |s| && p <= s[i..];
    assert s[i..][k] == p[k];
  }
}
