/**
 * The Python string behaviour both scripts lean on: `str()` of an int, `int()` of a
 * decimal numeral, `s.split("/")[-1]`, `s.replace(pat, "")`, `s.strip()`, `s.split()`
 * on whitespace and `s.split(",")`.
 */
module Text {
  import opened Wrappers

  // ---------------------------------------------------------------------------
  // Decimal numerals
  // ---------------------------------------------------------------------------

  predicate IsDigit(c: char) { '0' <= c <= '9' }

  predicate AllDigits(s: string) { forall k :: 0 <= k < |s| ==> IsDigit(s[k]) }

  function DigitChar(d: nat): (c: char)
    requires d < 10
    ensures IsDigit(c) && c as int - '0' as int == d
  {
    ('0' as int + d) as char
  }

  function DigitValue(c: char): (d: nat)
    requires IsDigit(c)
    ensures d < 10
  {
    c as int - '0' as int
  }

  /** `str(n)` for a non-negative int: its decimal digits, most significant first. */
  function NatText(n: nat): (s: string)
    ensures s != [] && AllDigits(s)
    ensures |s| > 1 ==> s[0] != '0'
  {
    if n < 10 then [DigitChar(n)] else NatText(n / 10) + [DigitChar(n % 10)]
  }

  /** `str(i)` for any int: a minus sign for negative values, then the digits. */
  function IntText(i: int): (s: string)
    ensures s != []
    ensures s[0] == '-' <==> i < 0
    ensures forall k :: 0 <= k < |s| ==> IsDigit(s[k]) || s[k] == '-'
  {
    if i < 0 then "-" + NatText(-i) else NatText(i)
  }

  /** The value of a run of decimal digits (0 for the empty run). */
  function DigitsValue(s: string): nat
    requires AllDigits(s)
  {
    if s == [] then 0 else 10 * DigitsValue(s[..|s| - 1]) + DigitValue(s[|s| - 1])
  }

  lemma {:induction false} DigitsValueOfNatText(n: nat)
    ensures DigitsValue(NatText(n)) == n
  {
    if n >= 10 {
      var s := NatText(n);
      assert s[..|s| - 1] == NatText(n / 10);
      DigitsValueOfNatText(n / 10);
    }
  }

  /** `int(s)` on an optionally signed run of decimal digits; anything else raises (None). */
  function ParseInt(s: string): Option<int>
  {
    if s != [] && (s[0] == '-' || s[0] == '+') then
      if |s| > 1 && AllDigits(s[1..]) then
        var v: int := DigitsValue(s[1..]);
        Some(if s[0] == '-' then -v else v)
      else None
    else if s != [] && AllDigits(s) then Some(DigitsValue(s))
    else None
  }

  /** Reading back `str(i)` gives `i`. */
  lemma ParseIntText(i: int)
    ensures ParseInt(IntText(i)) == Some(i)
  {
    if i < 0 {
      assert IntText(i)[1..] == NatText(-i);
      DigitsValueOfNatText(-i);
    } else {
      DigitsValueOfNatText(i);
    }
  }

  // ---------------------------------------------------------------------------
  // s.split("/")[-1]
  // ---------------------------------------------------------------------------

  predicate IsSuffix(t: string, s: string) { |t| <= |s| && s[|s| - |t|..] == t }

  /**
   * `s.split("/")[-1]`: the text after the last '/' of `s`, or all of `s` when it
   * has none. The three ensures clauses characterise it (see LastSegmentUnique).
   */
  function LastSegment(s: string): (r: string)
    ensures '/' !in r
    ensures IsSuffix(r, s)
    ensures |r| < |s| ==> s[|s| - |r| - 1] == '/'
  {
    if s == [] then []
    else if s[|s| - 1] == '/' then []
    else
      var r := LastSegment(s[..|s| - 1]) + [s[|s| - 1]];
      assert s[|s| - |r|..] == s[..|s| - 1][|s| - |r|..] + [s[|s| - 1]];
      r
  }

  /** Any slash-free suffix that is the whole text or follows a '/' is the last segment. */
  lemma LastSegmentUnique(s: string, t: string)
    requires '/' !in t
    requires IsSuffix(t, s)
    requires |t| < |s| ==> s[|s| - |t| - 1] == '/'
    ensures t == LastSegment(s)
  {
  }

  /** The last segment of `dir + "/" + name` is `name` when `name` has no '/'. */
  lemma LastSegmentOfJoin(dir: string, name: string)
    requires '/' !in name
    ensures LastSegment(dir + "/" + name) == name
  {
    var s := dir + "/" + name;
    assert s[|s| - |name|..] == name;
    assert s[|s| - |name| - 1] == '/';
    LastSegmentUnique(s, name);
  }

  // ---------------------------------------------------------------------------
  // s.replace(pat, "")
  // ---------------------------------------------------------------------------

  /** `pat` occurs somewhere in `s`. */
  predicate Contains(s: string, pat: string)
    decreases |s|
  {
    |pat| <= |s| && (s[..|pat|] == pat || Contains(s[1..], pat))
  }

  /**
   * `s.replace(pat, "")`: occurrences of `pat` are found from left to right,
   * without overlapping, and each is deleted.
   */
  function RemoveAll(s: string, pat: string): (r: string)
    requires pat != []
    ensures |r| <= |s|
    decreases |s|
  {
    if |s| < |pat| then s
    else if s[..|pat|] == pat then RemoveAll(s[|pat|..], pat)
    else [s[0]] + RemoveAll(s[1..], pat)
  }

  /** Text without an occurrence is left as it is. */
  lemma {:induction false} RemoveAllAbsent(s: string, pat: string)
    requires pat != [] && !Contains(s, pat)
    ensures RemoveAll(s, pat) == s
    decreases |s|
  {
    if |s| >= |pat| {
      RemoveAllAbsent(s[1..], pat);
      assert s == [s[0]] + s[1..];
    }
  }

  /**
   * When the first character of `pat` does not recur inside it (".jpg" is such a
   * pattern), an occurrence placed right after a text `a` that has none is found
   * and deleted, and `a` itself is kept as it is.
   */
  lemma {:induction false} RemoveAllSplice(a: string, pat: string, b: string)
    requires pat != [] && pat[0] !in pat[1..]
    requires !Contains(a, pat)
    ensures RemoveAll(a + pat + b, pat) == a + RemoveAll(b, pat)
    decreases |a|
  {
    var s := a + pat + b;
    if a == [] {
      assert s == pat + b;
      assert s[..|pat|] == pat && s[|pat|..] == b;
    } else {
      NoMatchBeforePattern(a, pat, b);
      var t := a[1..] + pat + b;
      assert s[1..] == t;
      calc {
        RemoveAll(s, pat);
        [s[0]] + RemoveAll(t, pat);
        { RemoveAllSplice(a[1..], pat, b); }
        [a[0]] + (a[1..] + RemoveAll(b, pat));
        { assert a == [a[0]] + a[1..]; }
        a + RemoveAll(b, pat);
      }
    }
  }

  lemma NoMatchBeforePattern(a: string, pat: string, b: string)
    requires pat != [] && pat[0] !in pat[1..]
    requires !Contains(a, pat) && a != []
    ensures |pat| <= |a + pat + b| && (a + pat + b)[..|pat|] != pat
  {
    var s := a + pat + b;
    if |a| >= |pat| {
      assert s[..|pat|] == a[..|pat|];
    } else {
      assert s[|a|] == pat[0];
      assert pat[|a|] == pat[1..][|a| - 1];
    }
  }

  /** The same pattern at the very end is stripped and nothing else changes. */
  lemma RemoveAllTrailing(a: string, pat: string)
    requires pat != [] && pat[0] !in pat[1..]
    requires !Contains(a, pat)
    ensures RemoveAll(a + pat, pat) == a
  {
    RemoveAllSplice(a, pat, []);
    assert a + pat + [] == a + pat;
  }

  // ---------------------------------------------------------------------------
  // os.path.join
  // ---------------------------------------------------------------------------

  /** `os.path.join(a, b)` on POSIX for two components. */
  function PathJoin(a: string, b: string): string
  {
    if b != [] && b[0] == '/' then b
    else if a == [] || a[|a| - 1] == '/' then a + b
    else a + "/" + b
  }

  /** Text appended to the name is appended to the joined path. */
  lemma PathJoinAppend(a: string, b: string, t: string)
    requires b == [] ==> t == [] || t[0] != '/'
    ensures PathJoin(a, b + t) == PathJoin(a, b) + t
  {
    if b != [] {
      assert (b + t)[0] == b[0];
      if b[0] != '/' {
        assert a + (b + t) == (a + b) + t;
        assert a + "/" + (b + t) == (a + "/" + b) + t;
      }
    } else {
      assert b + t == t;
    }
  }

  /** Joining a slash-free name onto any directory keeps the name as the last segment. */
  lemma LastSegmentOfPathJoin(dir: string, name: string)
    requires '/' !in name
    ensures LastSegment(PathJoin(dir, name)) == name
  {
    if dir == [] {
      LastSegmentUnique(name, name);
    } else if dir[|dir| - 1] == '/' {
      var s := dir + name;
      assert s[|s| - |name|..] == name;
      assert s[|s| - |name| - 1] == '/';
      LastSegmentUnique(s, name);
    } else {
      LastSegmentOfJoin(dir, name);
    }
  }

  // ---------------------------------------------------------------------------
  // Whitespace: s.strip() and s.split()
  // ---------------------------------------------------------------------------

  /** Python's `str.isspace` for one character. */
  predicate IsSpace(c: char)
  {
    var n := c as int;
    || 9 <= n <= 13 || 28 <= n <= 32 || n == 0x85 || n == 0xA0 || n == 0x1680
    || 0x2000 <= n <= 0x200A || n == 0x2028 || n == 0x2029 || n == 0x202F
    || n == 0x205F || n == 0x3000
  }

  /** A non-empty run without whitespace: what `split()` yields. */
  predicate IsWord(s: string) { s != [] && forall k :: 0 <= k < |s| ==> !IsSpace(s[k]) }

  /** The length of the whitespace-free run at the start of `s`. */
  function LeadingWord(s: string): (n: nat)
    ensures n <= |s|
    ensures forall k :: 0 <= k < n ==> !IsSpace(s[k])
    ensures n < |s| ==> IsSpace(s[n])
  {
    if s == [] || IsSpace(s[0]) then 0 else 1 + LeadingWord(s[1..])
  }

  /** `s.split()`: the maximal whitespace-free runs of `s`, in order. */
  function SplitWs(s: string): (r: seq<string>)
    ensures forall k :: 0 <= k < |r| ==> IsWord(r[k])
    decreases |s|
  {
    if s == [] then []
    else if IsSpace(s[0]) then SplitWs(s[1..])
    else
      var n := LeadingWord(s);
      [s[..n]] + SplitWs(s[n..])
  }

  /** `s.strip()`: leading and trailing whitespace removed. */
  function Strip(s: string): (r: string)
    ensures r == [] || (!IsSpace(r[0]) && !IsSpace(r[|r| - 1]))
  {
    StripRight(StripLeft(s))
  }

  function StripLeft(s: string): (r: string)
    ensures IsSuffix(r, s)
    ensures r == [] || !IsSpace(r[0])
  {
    if s != [] && IsSpace(s[0]) then
      var r := StripLeft(s[1..]);
      assert s[1..][|s| - 1 - |r|..] == s[|s| - |r|..];
      r
    else s
  }

  function StripRight(s: string): (r: string)
    ensures |r| <= |s| && r == s[..|r|]
    ensures r == [] || !IsSpace(r[|r| - 1])
    ensures s != [] && !IsSpace(s[0]) ==> r != [] && r[0] == s[0]
  {
    if s != [] && IsSpace(s[|s| - 1]) then StripRight(s[..|s| - 1]) else s
  }

  lemma {:induction false} LeadingWordStops(w: string, rest: string)
    requires forall k :: 0 <= k < |w| ==> !IsSpace(w[k])
    requires rest == [] || IsSpace(rest[0])
    ensures LeadingWord(w + rest) == |w|
  {
    if w != [] {
      assert (w + rest)[1..] == w[1..] + rest;
      LeadingWordStops(w[1..], rest);
    }
  }

  /** A word followed by one whitespace character splits off as the first token. */
  lemma SplitWsWord(w: string, c: char, rest: string)
    requires IsWord(w) && IsSpace(c)
    ensures SplitWs(w + [c] + rest) == [w] + SplitWs(rest)
  {
    var s := w + [c] + rest;
    LeadingWordStops(w, [c] + rest);
    assert s == w + ([c] + rest);
    assert s[..|w|] == w && s[|w|..] == [c] + rest;
    assert ([c] + rest)[1..] == rest;
  }

  /** Trailing whitespace never adds a token. */
  lemma {:induction false} SplitWsTrailingSpace(t: string, c: char)
    requires IsSpace(c)
    ensures SplitWs(t + [c]) == SplitWs(t)
    decreases |t|
  {
    var s := t + [c];
    if t == [] {
      assert s[1..] == [];
    } else if IsSpace(t[0]) {
      assert s[1..] == t[1..] + [c];
      SplitWsTrailingSpace(t[1..], c);
    } else {
      var n := LeadingWord(t);
      LeadingWordStops(t[..n], t[n..] + [c]);
      assert s == t[..n] + (t[n..] + [c]);
      LeadingWordStops(t[..n], t[n..]);
      assert t == t[..n] + t[n..];
      assert s[..n] == t[..n];
      assert s[n..] == t[n..] + [c];
      SplitWsTrailingSpace(t[n..], c);
    }
  }

  lemma {:induction false} SplitWsStripRight(s: string)
    ensures SplitWs(StripRight(s)) == SplitWs(s)
    decreases |s|
  {
    if s != [] && IsSpace(s[|s| - 1]) {
      SplitWsStripRight(s[..|s| - 1]);
      assert s == s[..|s| - 1] + [s[|s| - 1]];
      SplitWsTrailingSpace(s[..|s| - 1], s[|s| - 1]);
    }
  }

  /** `s.strip().split()` gives the same tokens as `s.split()`. */
  lemma {:induction false} SplitWsStrip(s: string)
    ensures SplitWs(Strip(s)) == SplitWs(s)
    decreases |s|
  {
    if s != [] && IsSpace(s[0]) {
      SplitWsStrip(s[1..]);
    } else {
      SplitWsStripRight(s);
    }
  }

  // ---------------------------------------------------------------------------
  // s.split(",")
  // ---------------------------------------------------------------------------

  /** `s.split(c)` for one separator character: every piece between separators, empty ones included. */
  function SplitOn(s: string, c: char): (r: seq<string>)
    ensures |r| >= 1
  {
    if s == [] then [[]]
    else
      var r := SplitOn(s[1..], c);
      if s[0] == c then [[]] + r else [[s[0]] + r[0]] + r[1..]
  }

  lemma {:induction false} SplitOnNone(a: string, c: char)
    requires c !in a
    ensures SplitOn(a, c) == [a]
  {
    if a != [] {
      SplitOnNone(a[1..], c);
      assert a == [a[0]] + a[1..];
    }
  }

  /** A separator-free piece followed by the separator is the first piece. */
  lemma {:induction false} SplitOnPiece(a: string, c: char, b: string)
    requires c !in a
    ensures SplitOn(a + [c] + b, c) == [a] + SplitOn(b, c)
  {
    var s := a + [c] + b;
    if a == [] {
      assert s[1..] == b;
    } else {
      assert s[1..] == a[1..] + [c] + b;
      SplitOnPiece(a[1..], c, b);
      assert a == [a[0]] + a[1..];
    }
  }

  /** `c.join(parts)` for a one-character separator. */
  function Join(parts: seq<string>, c: char): string
  {
    if parts == [] then []
    else if |parts| == 1 then parts[0]
    else parts[0] + [c] + Join(parts[1..], c)
  }

  /** A property every part's characters and the separator have, the join has too. */
  lemma {:induction false} JoinChars(parts: seq<string>, c: char, ok: char -> bool)
    requires ok(c)
    requires forall k, j :: 0 <= k < |parts| && 0 <= j < |parts[k]| ==> ok(parts[k][j])
    ensures forall j :: 0 <= j < |Join(parts, c)| ==> ok(Join(parts, c)[j])
  {
    if |parts| > 1 {
      JoinChars(parts[1..], c, ok);
      var rest := Join(parts[1..], c);
      var s := parts[0] + [c] + rest;
      forall j | 0 <= j < |s| ensures ok(s[j]) {
        if j < |parts[0]| {
          assert s[j] == parts[0][j];
        } else if j > |parts[0]| {
          assert s[j] == rest[j - |parts[0]| - 1];
        }
      }
    }
  }

  /** Splitting a join on its separator gives the parts back, when no part holds the separator. */
  lemma {:induction false} SplitOnJoin(parts: seq<string>, c: char)
    requires parts != []
    requires forall k :: 0 <= k < |parts| ==> c !in parts[k]
    ensures SplitOn(Join(parts, c), c) == parts
  {
    if |parts| == 1 {
      SplitOnNone(parts[0], c);
    } else {
      SplitOnJoin(parts[1..], c);
      SplitOnPiece(parts[0], c, Join(parts[1..], c));
    }
  }
}
