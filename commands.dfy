/**
  Command normalisation: a raw command line is stripped of surrounding
  whitespace and upper-cased (`strip().upper()`) before it is matched
  against the vocabulary. Both are modelled over ASCII.
 */
module Commands {

  /** The ASCII characters that Python's `str.strip()` removes:
      tab, line feed, vertical tab, form feed, carriage return (9..13),
      the four information separators (28..31) and space. */
  predicate IsSpace(c: char) {
    (9 <= c as int <= 13) || (28 <= c as int <= 31) || c == ' '
  }

  predicate AllSpace(s: string) {
    forall i :: 0 <= i < |s| ==> IsSpace(s[i])
  }

  predicate IsLower(c: char) {
    'a' <= c <= 'z'
  }

  /** ASCII upper-casing of one character; every other character is kept. */
  function ToUpper(c: char): (u: char)
    ensures IsSpace(u) <==> IsSpace(c)
    ensures !IsLower(u)
    ensures !IsLower(c) ==> u == c
  {
    if IsLower(c) then (c as int - 32) as char else c
  }

  /** `s.upper()`, character by character. */
  function UpperString(s: string): (r: string)
    ensures |r| == |s|
  {
    if s == [] then [] else [ToUpper(s[0])] + UpperString(s[1..])
  }

  /** `lstrip()`: drops the leading whitespace. */
  function TrimStart(s: string): (r: string)
    ensures |r| <= |s|
  {
    if s != [] && IsSpace(s[0]) then TrimStart(s[1..]) else s
  }

  /** `rstrip()`: drops the trailing whitespace. */
  function TrimEnd(s: string): (r: string)
    ensures |r| <= |s|
  {
    if s != [] && IsSpace(s[|s| - 1]) then TrimEnd(s[..|s| - 1]) else s
  }

  /** `s.strip()`. */
  function Strip(s: string): (r: string)
    ensures |r| <= |s|
  {
    TrimEnd(TrimStart(s))
  }

  /** The token a command line is matched on: `command.strip().upper()`. */
  function Normalize(s: string): (r: string)
    ensures |r| <= |s|
  {
    UpperString(Strip(s))
  }

  /** Upper-casing maps every character on its own. */
  lemma {:induction false} UpperStringAt(s: string)
    ensures forall i :: 0 <= i < |s| ==> UpperString(s)[i] == ToUpper(s[i])
    decreases |s|
  {
    if s != [] {
      UpperStringAt(s[1..]);
    }
  }

  /** What `lstrip()` leaves is a suffix of `s`, everything it drops is
      whitespace, and what it leaves does not start with whitespace. */
  lemma {:induction false} TrimStartSpec(s: string)
    ensures TrimStart(s) == s[|s| - |TrimStart(s)|..]
    ensures AllSpace(s[..|s| - |TrimStart(s)|])
    ensures TrimStart(s) != [] ==> !IsSpace(TrimStart(s)[0])
    decreases |s|
  {
    if s != [] && IsSpace(s[0]) {
      TrimStartSpec(s[1..]);
      var k := |s| - |TrimStart(s)|;
      assert s[..k] == [s[0]] + s[1..][..k - 1];
    }
  }

  /** What `rstrip()` leaves is a prefix of `s`, everything it drops is
      whitespace, and what it leaves does not end with whitespace. */
  lemma {:induction false} TrimEndSpec(s: string)
    ensures TrimEnd(s) == s[..|TrimEnd(s)|]
    ensures AllSpace(s[|TrimEnd(s)|..])
    ensures TrimEnd(s) != [] ==> !IsSpace(TrimEnd(s)[|TrimEnd(s)| - 1])
    decreases |s|
  {
    if s != [] && IsSpace(s[|s| - 1]) {
      var n := |s| - 1;
      TrimEndSpec(s[..n]);
      var k := |TrimEnd(s)|;
      assert s[k..] == s[..n][k..] + [s[n]];
    }
  }

  /** `s` is `r` with only whitespace added on either side. */
  ghost predicate PaddedBy(s: string, r: string) {
    exists k :: 0 <= k <= |s| - |r| && s[k..k + |r|] == r && AllSpace(s[..k]) && AllSpace(s[k + |r|..])
  }

  /** `strip()` leaves the slice of `s` between whitespace at both ends; the
      slice neither starts nor ends with whitespace. */
  lemma StripSpec(s: string)
    ensures PaddedBy(s, Strip(s))
    ensures Strip(s) != [] ==> !IsSpace(Strip(s)[0]) && !IsSpace(Strip(s)[|Strip(s)| - 1])
  {
    var t := TrimStart(s);
    var r := TrimEnd(t);
    TrimStartSpec(s);
    TrimEndSpec(t);
    var k := |s| - |t|;
    assert s[k..k + |r|] == r;
    var tail := s[k + |r|..];
    assert tail == t[|r|..];
  }

  /** The normal form has no surrounding whitespace and no lower-case
      letter. */
  lemma NormalizeSpec(s: string)
    ensures var r := Normalize(s);
      r != [] ==> !IsSpace(r[0]) && !IsSpace(r[|r| - 1])
    ensures forall i :: 0 <= i < |Normalize(s)| ==> !IsLower(Normalize(s)[i])
  {
    StripSpec(s);
    UpperStringAt(Strip(s));
  }

  lemma {:induction false} UpperStringIdempotent(s: string)
    ensures UpperString(UpperString(s)) == UpperString(s)
  {
    var u := UpperString(s);
    UpperStringAt(s);
    UpperStringAt(u);
    assert forall i :: 0 <= i < |u| ==> UpperString(u)[i] == u[i];
  }

  lemma {:induction false} TrimStartOfTrimmed(s: string)
    requires s == [] || !IsSpace(s[0])
    ensures TrimStart(s) == s
  {
  }

  lemma {:induction false} TrimEndOfTrimmed(s: string)
    requires s == [] || !IsSpace(s[|s| - 1])
    ensures TrimEnd(s) == s
  {
  }

  /** A word without whitespace at its ends only has its case changed. */
  lemma NormalizeOfWord(s: string)
    requires s == [] || (!IsSpace(s[0]) && !IsSpace(s[|s| - 1]))
    ensures Normalize(s) == UpperString(s)
  {
    TrimStartOfTrimmed(s);
    TrimEndOfTrimmed(s);
  }

  /** Normalising twice is normalising once: a token already in normal form
      is matched as it stands. */
  lemma {:induction false} NormalizeIdempotent(s: string)
    ensures Normalize(Normalize(s)) == Normalize(s)
  {
    var n := Normalize(s);
    NormalizeSpec(s);
    TrimStartOfTrimmed(n);
    TrimEndOfTrimmed(n);
    assert Strip(n) == n;
    UpperStringIdempotent(Strip(s));
  }

  lemma {:induction false} TrimStartUpper(s: string)
    ensures TrimStart(UpperString(s)) == UpperString(TrimStart(s))
    decreases |s|
  {
    if s != [] {
      UpperStringAt(s);
      assert UpperString(s)[0] == ToUpper(s[0]);
      if IsSpace(s[0]) {
        assert UpperString(s)[1..] == UpperString(s[1..]);
        TrimStartUpper(s[1..]);
      }
    }
  }

  lemma {:induction false} TrimEndUpper(s: string)
    ensures TrimEnd(UpperString(s)) == UpperString(TrimEnd(s))
    decreases |s|
  {
    if s != [] {
      var n := |s| - 1;
      UpperStringAt(s);
      assert UpperString(s)[n] == ToUpper(s[n]);
      if IsSpace(s[n]) {
        UpperPrefix(s, n);
        TrimEndUpper(s[..n]);
      }
    }
  }

  lemma UpperPrefix(s: string, n: nat)
    requires n <= |s|
    ensures UpperString(s)[..n] == UpperString(s[..n])
  {
    UpperStringAt(s);
    UpperStringAt(s[..n]);
  }

  /** Normalisation commutes: upper-casing first and stripping afterwards
      gives the same token. */
  lemma {:induction false} NormalizeUpperFirst(s: string)
    ensures Normalize(s) == Strip(UpperString(s))
  {
    TrimStartUpper(s);
    TrimEndUpper(TrimStart(s));
  }

  /** Letter case does not matter: two lines that agree once upper-cased
      normalise to the same token (`n` and `N`, `north` and `North`). */
  lemma {:induction false} NormalizeIgnoresCase(s: string, t: string)
    requires UpperString(s) == UpperString(t)
    ensures Normalize(s) == Normalize(t)
  {
    NormalizeUpperFirst(s);
    NormalizeUpperFirst(t);
  }

  lemma {:induction false} TrimStartSkipsPadding(a: string, s: string)
    requires AllSpace(a)
    ensures TrimStart(a + s) == TrimStart(s)
    decreases |a|
  {
    if a != [] {
      assert (a + s)[0] == a[0];
      assert (a + s)[1..] == a[1..] + s;
      TrimStartSkipsPadding(a[1..], s);
    } else {
      assert a + s == s;
    }
  }

  lemma {:induction false} TrimEndSkipsPadding(s: string, b: string)
    requires AllSpace(b)
    ensures TrimEnd(s + b) == TrimEnd(s)
    decreases |b|
  {
    if b != [] {
      var n := |b| - 1;
      assert (s + b)[|s + b| - 1] == b[n];
      assert (s + b)[..|s + b| - 1] == s + b[..n];
      TrimEndSkipsPadding(s, b[..n]);
    } else {
      assert s + b == s;
    }
  }

  lemma {:induction false} TrimStartBeforePadding(s: string, b: string)
    requires AllSpace(b)
    ensures TrimStart(s + b) == if TrimStart(s) == [] then TrimStart(b) else TrimStart(s) + b
    decreases |s|
  {
    if s != [] {
      assert (s + b)[0] == s[0];
      if IsSpace(s[0]) {
        assert (s + b)[1..] == s[1..] + b;
        TrimStartBeforePadding(s[1..], b);
      }
    } else {
      assert s + b == b;
    }
  }

  /** Surrounding whitespace does not matter: `"  NORTH "` normalises like
      `"NORTH"`. */
  lemma {:induction false} NormalizeIgnoresPadding(a: string, s: string, b: string)
    requires AllSpace(a) && AllSpace(b)
    ensures Normalize(a + s + b) == Normalize(s)
  {
    assert a + s + b == a + (s + b);
    TrimStartSkipsPadding(a, s + b);
    TrimStartBeforePadding(s, b);
    if TrimStart(s) == [] {
      TrimStartSpec(b);
    } else {
      TrimEndSkipsPadding(TrimStart(s), b);
    }
  }
}
