/** The string built-ins the library relies on. */
module JsStr {
  import opened Js

  /** `pat` occurs in `s` at position `j`. */
  predicate MatchAt(s: string, pat: string, j: int)
  {
    0 <= j && j + |pat| <= |s| && s[j..j + |pat|] == pat
  }

  /** `s.indexOf(pat)`: the first position where `pat` occurs, or -1. */
  function IndexOf(s: string, pat: string): (i: int)
    ensures i == -1 || MatchAt(s, pat, i)
    ensures forall j | 0 <= j && (i < 0 || j < i) :: !MatchAt(s, pat, j)
  {
    IndexFrom(s, pat, 0)
  }

  function IndexFrom(s: string, pat: string, from: nat): (i: int)
    ensures i == -1 || (from <= i && MatchAt(s, pat, i))
    ensures forall j | from <= j && (i < 0 || j < i) :: !MatchAt(s, pat, j)
    decreases |s| + 1 - from
  {
    if from + |pat| > |s| then -1
    else if s[from..from + |pat|] == pat then from
    else IndexFrom(s, pat, from + 1)
  }

  predicate Contains(s: string, pat: string)
  {
    IndexOf(s, pat) >= 0
  }

  /** `s` has no character `c`. */
  predicate Lacks(s: string, c: char)
  {
    forall k | 0 <= k < |s| :: s[k] != c
  }

  /** `s.replace(pat, rep)` with a string pattern: only the first occurrence. */
  function ReplaceFirst(s: string, pat: string, rep: string): (r: string)
    ensures !Contains(s, pat) ==> r == s
    ensures Contains(s, pat) ==> |r| == |s| - |pat| + |rep|
  {
    var i := IndexOf(s, pat);
    if i < 0 then s else s[..i] + rep + s[i + |pat|..]
  }

  /** `s.replace(/pat/g, rep)` for a pattern without special characters: every occurrence, left to right. */
  function ReplaceAll(s: string, pat: string, rep: string): (r: string)
    requires |pat| > 0
    ensures !Contains(s, pat) ==> r == s
    decreases |s|
  {
    var i := IndexOf(s, pat);
    if i < 0 then s else s[..i] + rep + ReplaceAll(s[i + |pat|..], pat, rep)
  }

  /** The first occurrence is the one at `i` when one starts there and none starts earlier. */
  lemma FirstAt(s: string, pat: string, i: int)
    requires MatchAt(s, pat, i)
    requires forall j | 0 <= j < i :: !MatchAt(s, pat, j)
    ensures IndexOf(s, pat) == i
  {
  }

  /** `replace` with a string pattern rewrites exactly the first occurrence and keeps the rest. */
  lemma ReplaceFirstAt(s: string, pat: string, rep: string, i: int)
    requires MatchAt(s, pat, i)
    requires forall j | 0 <= j < i :: !MatchAt(s, pat, j)
    ensures ReplaceFirst(s, pat, rep) == s[..i] + rep + s[i + |pat|..]
  {
    FirstAt(s, pat, i);
  }

  /** A global `replace` rewrites the first occurrence, then goes on after it. */
  lemma ReplaceAllAt(s: string, pat: string, rep: string, i: nat)
    requires |pat| > 0
    requires MatchAt(s, pat, i)
    requires forall j | 0 <= j < i :: !MatchAt(s, pat, j)
    ensures ReplaceAll(s, pat, rep) == s[..i] + rep + ReplaceAll(s[i + |pat|..], pat, rep)
  {
    FirstAt(s, pat, i);
    ReplaceAllFirst(s, pat, rep, i);
  }

  lemma ReplaceAllFirst(s: string, pat: string, rep: string, i: nat)
    requires |pat| > 0 && IndexOf(s, pat) == i
    ensures ReplaceAll(s, pat, rep) == s[..i] + rep + ReplaceAll(s[i + |pat|..], pat, rep)
  {
  }

  /** A concatenation lacks a character iff both halves do. */
  lemma LacksAppend(a: string, b: string, c: char)
    ensures Lacks(a + b, c) <==> Lacks(a, c) && Lacks(b, c)
  {
    assert forall k | 0 <= k < |a| :: (a + b)[k] == a[k];
    assert forall k | 0 <= k < |b| :: (a + b)[|a| + k] == b[k];
    if Lacks(a, c) && Lacks(b, c) {
      forall k | 0 <= k < |a + b| ensures (a + b)[k] != c {
        if k >= |a| {
          assert (a + b)[k] == b[k - |a|];
        }
      }
    }
  }

  /** A string without the pattern's first character holds no occurrence of it. */
  lemma LacksNoMatch(a: string, pat: string)
    requires |pat| > 0 && Lacks(a, pat[0])
    ensures !Contains(a, pat)
  {
  }

  /** In `a + pat + t`, where `a` lacks the pattern's first character, the first occurrence follows `a`. */
  lemma OccurrenceAfter(a: string, pat: string, t: string)
    requires |pat| > 0 && Lacks(a, pat[0])
    ensures MatchAt(a + pat + t, pat, |a|)
    ensures forall j | 0 <= j < |a| :: !MatchAt(a + pat + t, pat, j)
  {
    var s := a + pat + t;
    assert s[|a|..|a| + |pat|] == pat;
    forall j | 0 <= j < |a|
      ensures !MatchAt(s, pat, j)
    {
      assert s[j] == a[j] != pat[0];
    }
  }

  /**
   * With two placeholders separated by text that lacks the placeholder's first
   * character, `replace` fills the first and keeps the second, while a global
   * replace fills both.
   */
  lemma SecondOccurrence(a: string, b: string, c: string, pat: string, rep: string)
    requires |pat| > 0 && Lacks(a, pat[0]) && Lacks(b, pat[0]) && Lacks(c, pat[0])
    ensures ReplaceFirst(a + pat + b + pat + c, pat, rep) == a + rep + b + pat + c
    ensures ReplaceAll(a + pat + b + pat + c, pat, rep) == a + rep + b + rep + c
  {
    SecondOccurrenceKept(a, b, c, pat, rep);
    SecondOccurrenceFilled(a, b, c, pat, rep);
  }

  lemma SecondOccurrenceKept(a: string, b: string, c: string, pat: string, rep: string)
    requires |pat| > 0 && Lacks(a, pat[0])
    ensures ReplaceFirst(a + pat + b + pat + c, pat, rep) == a + rep + b + pat + c
  {
    var tail := b + pat + c;
    assert a + pat + b + pat + c == a + pat + tail;
    assert a + rep + tail == a + rep + b + pat + c;
    var first := ReplaceFirstAfter(a, pat, rep, tail);
  }

  lemma SecondOccurrenceFilled(a: string, b: string, c: string, pat: string, rep: string)
    requires |pat| > 0 && Lacks(a, pat[0]) && Lacks(b, pat[0]) && Lacks(c, pat[0])
    ensures ReplaceAll(a + pat + b + pat + c, pat, rep) == a + rep + b + rep + c
  {
    var tail := b + pat + c;
    assert a + pat + b + pat + c == a + pat + tail;
    assert a + rep + (b + rep + c) == a + rep + b + rep + c;
    var all := ReplaceAllAfter(a, pat, rep, tail);
    var rest := ReplaceAllAfter(b, pat, rep, c);
    LacksNoMatch(c, pat);
  }

  /** `replace` on `a + pat + t` fills the occurrence right after `a`. */
  lemma ReplaceFirstAfter(a: string, pat: string, rep: string, t: string) returns (s: string)
    requires |pat| > 0 && Lacks(a, pat[0])
    ensures s == a + pat + t
    ensures ReplaceFirst(s, pat, rep) == a + rep + t
  {
    s := a + pat + t;
    OccurrenceAfter(a, pat, t);
    ReplaceFirstAt(s, pat, rep, |a|);
    assert s[..|a|] == a && s[|a| + |pat|..] == t;
  }

  /** A global `replace` on `a + pat + t` fills the occurrence right after `a` and goes on in `t`. */
  lemma ReplaceAllAfter(a: string, pat: string, rep: string, t: string) returns (s: string)
    requires |pat| > 0 && Lacks(a, pat[0])
    ensures s == a + pat + t
    ensures ReplaceAll(s, pat, rep) == a + rep + ReplaceAll(t, pat, rep)
  {
    s := a + pat + t;
    OccurrenceAfter(a, pat, t);
    ReplaceAllAt(s, pat, rep, |a|);
    assert s[..|a|] == a && s[|a| + |pat|..] == t;
  }

  /** `":option"` does not occur in `x + ":param" + y` when `x` and `y` hold no colon. */
  lemma NoOptionAroundParam(x: string, y: string)
    requires Lacks(x, ':') && Lacks(y, ':')
    ensures !Contains(x + ":param" + y, ":option")
  {
    var s := x + ":param" + y;
    forall j | 0 <= j
      ensures !MatchAt(s, ":option", j)
    {
      if j + 7 <= |s| {
        var h := s[j..j + 7];
        assert h[0] == s[j] && h[1] == s[j + 1];
        if j < |x| {
          assert s[j] == x[j];
        } else if j == |x| {
          assert s[j + 1] == 'p';
        } else if j < |x| + 6 {
          assert s[j] == ":param"[j - |x|];
        } else {
          assert s[j] == y[j - |x| - 6];
        }
        assert h[0] != ':' || h[1] != 'o';
      }
    }
  }

  /** `s.split(sep)` for a one-character separator. */
  function Split(s: string, sep: char): (parts: seq<string>)
    ensures |parts| >= 1
  {
    SplitFrom(s, sep, 0, 0)
  }

  function SplitFrom(s: string, sep: char, start: nat, i: nat): (parts: seq<string>)
    requires start <= i <= |s|
    ensures |parts| >= 1
    decreases |s| - i
  {
    if i == |s| then [s[start..]]
    else if s[i] == sep then [s[start..i]] + SplitFrom(s, sep, i + 1, i + 1)
    else SplitFrom(s, sep, start, i + 1)
  }

  function ToLowerChar(c: char): char
  {
    if 'A' <= c <= 'Z' then (c as int + 32) as char else c
  }

  function ToUpperChar(c: char): char
  {
    if 'a' <= c <= 'z' then (c as int - 32) as char else c
  }

  /**
   * `toLowerCase` on ASCII letters. Other characters are kept, which decides the
   * same as the full mapping whenever the result is compared with an ASCII word
   * that has no `k`: the Kelvin sign is the only other character that becomes
   * an ASCII letter.
   */
  function ToLower(s: string): (r: string)
    ensures |r| == |s|
  {
    seq(|s|, i requires 0 <= i < |s| => ToLowerChar(s[i]))
  }

  /**
   * What `trim` removes: the white space characters (tab, vertical tab, form
   * feed, space, no-break space, the byte order mark and the other space
   * separators) and the line terminators.
   */
  predicate IsWhitespace(c: char)
  {
    c == ' ' || c == '\t' || c == '\n' || c == '\r' || c == '\U{000B}' || c == '\U{000C}'
    || c == '\U{00A0}' || c == '\U{1680}' || ('\U{2000}' <= c <= '\U{200A}') || c == '\U{2028}' || c == '\U{2029}'
    || c == '\U{202F}' || c == '\U{205F}' || c == '\U{3000}' || c == '\U{FEFF}'
  }

  function TrimStart(s: string): (r: string)
    ensures |r| <= |s| && r == s[|s| - |r|..]
    ensures r != [] ==> !IsWhitespace(r[0])
    ensures forall k | 0 <= k < |s| - |r| :: IsWhitespace(s[k])
  {
    if s != [] && IsWhitespace(s[0]) then TrimStart(s[1..]) else s
  }

  function TrimEnd(s: string): (r: string)
    ensures |r| <= |s| && r == s[..|r|]
    ensures r != [] ==> !IsWhitespace(r[|r| - 1])
    ensures forall k | |r| <= k < |s| :: IsWhitespace(s[k])
  {
    if s != [] && IsWhitespace(s[|s| - 1]) then TrimEnd(s[..|s| - 1]) else s
  }

  /** `s.trim()`. */
  function Trim(s: string): (r: string)
    ensures |r| <= |s|
    ensures r != [] ==> !IsWhitespace(r[0]) && !IsWhitespace(r[|r| - 1])
  {
    TrimEnd(TrimStart(s))
  }

  /** `trim` keeps a contiguous slice of `s` and drops only white space around it. */
  lemma TrimSpec(s: string) returns (i: nat)
    ensures i + |Trim(s)| <= |s| && Trim(s) == s[i..i + |Trim(s)|]
    ensures forall k | 0 <= k < i :: IsWhitespace(s[k])
    ensures forall k | i + |Trim(s)| <= k < |s| :: IsWhitespace(s[k])
  {
    var t := TrimStart(s);
    i := |s| - |t|;
    var r := TrimEnd(t);
    assert r == t[..|r|];
    assert t == s[i..];
    forall k | i + |r| <= k < |s|
      ensures IsWhitespace(s[k])
    {
      assert s[k] == t[k - i];
    }
  }

  lemma TrimStartStep(t: string)
    requires t != [] && IsWhitespace(t[0])
    ensures TrimStart(t) == TrimStart(t[1..])
  {
  }

  /** White space in front of a string does not survive `trimStart`. */
  lemma {:induction false} TrimStartPrefix(w: string, s: string)
    requires forall k | 0 <= k < |w| :: IsWhitespace(w[k])
    ensures TrimStart(w + s) == TrimStart(s)
    decreases |w|
  {
    if w != [] {
      var t := w + s;
      assert t[0] == w[0];
      TrimStartStep(t);
      assert t[1..] == w[1..] + s;
      TrimStartPrefix(w[1..], s);
    } else {
      assert w + s == s;
    }
  }

  /** White space after a string does not survive `trimEnd`. */
  lemma {:induction false} TrimEndSuffix(s: string, w: string)
    requires forall k | 0 <= k < |w| :: IsWhitespace(w[k])
    ensures TrimEnd(s + w) == TrimEnd(s)
    decreases |w|
  {
    if w != [] {
      var u := w[..|w| - 1];
      assert (s + w)[|s + w| - 1] == w[|w| - 1] && IsWhitespace(w[|w| - 1]);
      assert (s + w)[..|s + w| - 1] == s + u;
      TrimEndSuffix(s, u);
    } else {
      assert s + w == s;
    }
  }

  /** White space appended to a string does not survive `trim`. */
  lemma {:induction false} TrimAppended(s: string, w: string)
    requires forall k | 0 <= k < |w| :: IsWhitespace(w[k])
    ensures TrimEnd(TrimStart(s + w)) == TrimEnd(TrimStart(s))
    decreases |s|
  {
    if s == [] {
      assert s + w == w + [];
      TrimStartPrefix(w, []);
    } else if IsWhitespace(s[0]) {
      assert (s + w)[0] == s[0];
      assert (s + w)[1..] == s[1..] + w;
      TrimAppended(s[1..], w);
    } else {
      assert (s + w)[0] == s[0];
      TrimEndSuffix(s, w);
    }
  }

  /** `trim` ignores white space on either side: `(w1 + s + w2).trim() == s.trim()`. */
  lemma TrimSurrounded(w1: string, s: string, w2: string)
    requires forall k | 0 <= k < |w1| :: IsWhitespace(w1[k])
    requires forall k | 0 <= k < |w2| :: IsWhitespace(w2[k])
    ensures Trim(w1 + s + w2) == Trim(s)
  {
    assert w1 + s + w2 == w1 + (s + w2);
    TrimStartPrefix(w1, s + w2);
    TrimAppended(s, w2);
  }

  /**
   * `s.length`: JavaScript strings count UTF-16 code units, so a character
   * outside the Basic Multilingual Plane counts twice.
   */
  function Utf16Length(s: string): (n: nat)
    ensures |s| <= n <= 2 * |s|
    ensures (forall k | 0 <= k < |s| :: s[k] as int <= 0xFFFF) ==> n == |s|
  {
    if s == [] then 0 else (if s[0] as int > 0xFFFF then 2 else 1) + Utf16Length(s[1..])
  }

  predicate IsDigit(c: char)
  {
    '0' <= c <= '9'
  }

  predicate AllDigits(s: string)
  {
    s != [] && forall i | 0 <= i < |s| :: IsDigit(s[i])
  }

  function DigitValue(c: char): nat
    requires IsDigit(c)
  {
    c as int - '0' as int
  }

  function DecimalValue(s: string): nat
    requires forall i | 0 <= i < |s| :: IsDigit(s[i])
  {
    if s == [] then 0 else DecimalValue(s[..|s| - 1]) * 10 + DigitValue(s[|s| - 1])
  }

  /** `Number(s)` for a string: plain digit runs are decimal, anything else is up to the runtime. */
  function StrToNumber(num: NumberParser, s: string): Option<int>
  {
    if AllDigits(s) then Some(DecimalValue(s)) else num(s)
  }

  /** `s.substr(0, n)`. */
  function Take(s: string, n: int): (r: string)
    ensures |r| == if n <= 0 then 0 else if n < |s| then n else |s|
  {
    if n <= 0 then "" else if n < |s| then s[..n] else s
  }

  /** `s.substr(1)`. */
  function Drop1(s: string): (r: string)
    ensures |r| == if s == "" then 0 else |s| - 1
  {
    if s == "" then "" else s[1..]
  }

  // Lemmas about split

  /** A trailing separator adds one empty piece. */
  lemma {:induction false} SplitTrailing(s: string, sep: char, start: nat, i: nat)
    requires start <= i <= |s|
    ensures SplitFrom(s + [sep], sep, start, i) == SplitFrom(s, sep, start, i) + [""]
    decreases |s| - i
  {
    var t := s + [sep];
    if i == |s| {
      assert t[start..i] == s[start..];
      assert SplitFrom(t, sep, i + 1, i + 1) == [t[i + 1..]];
      assert t[i + 1..] == "";
    } else {
      assert t[i] == s[i];
      assert t[start..i] == s[start..i];
      if s[i] == sep {
        SplitTrailing(s, sep, i + 1, i + 1);
      } else {
        SplitTrailing(s, sep, start, i + 1);
      }
    }
  }

  /** Splitting a string without the separator gives it back whole. */
  lemma {:induction false} SplitNone(s: string, sep: char, start: nat, i: nat)
    requires start <= i <= |s|
    requires forall k | i <= k < |s| :: s[k] != sep
    ensures SplitFrom(s, sep, start, i) == [s[start..]]
    decreases |s| - i
  {
    if i < |s| {
      SplitNone(s, sep, start, i + 1);
    }
  }

  /** Splitting `a + [sep] + b` where neither piece holds the separator. */
  lemma SplitPair(a: string, b: string, sep: char)
    requires forall k | 0 <= k < |a| :: a[k] != sep
    requires forall k | 0 <= k < |b| :: b[k] != sep
    ensures Split(a + [sep] + b, sep) == [a, b]
  {
    var s := a + [sep] + b;
    SplitNone(s, sep, |a| + 1, |a| + 1);
    assert s[|a| + 1..] == b;
    SplitSkip(s, sep, 0, 0, |a|);
    assert s[..|a|] == a;
  }

  lemma {:induction false} SplitSkip(s: string, sep: char, start: nat, i: nat, j: nat)
    requires start <= i <= j <= |s|
    requires forall k | i <= k < j :: s[k] != sep
    ensures SplitFrom(s, sep, start, i) == SplitFrom(s, sep, start, j)
    decreases j - i
  {
    if i < j {
      SplitSkip(s, sep, start, i + 1, j);
    }
  }
}
