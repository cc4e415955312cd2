/** The parts of Python's str and sorting that the tool relies on, over
    strings of Unicode code points. */
module Text {
  import opened Base

  predicate IsPrefix(p: string, s: string) { |p| <= |s| && s[..|p|] == p }

  predicate IsSuffix(p: string, s: string) { |p| <= |s| && s[|s| - |p|..] == p }

  /** Python's `p in s` on two strings. */
  predicate IsSubstring(p: string, s: string)
    decreases |s|
  {
    IsPrefix(p, s) || (|s| > 0 && IsSubstring(p, s[1..]))
  }

  /** str.isspace() of one character. */
  predicate IsSpace(c: char) {
    c == ' ' || c == '\t' || c == '\n' || c == '\r' || c == '\U{b}' || c == '\U{c}'
    || ('\U{1c}' <= c <= '\U{1f}') || c == '\U{85}' || c == '\U{a0}' || c == '\U{1680}'
    || ('\U{2000}' <= c <= '\U{200a}') || c == '\U{2028}' || c == '\U{2029}'
    || c == '\U{202f}' || c == '\U{205f}' || c == '\U{3000}'
  }

  predicate IsAsciiDigit(c: char) { '0' <= c <= '9' }

  predicate IsAsciiLetter(c: char) { ('a' <= c <= 'z') || ('A' <= c <= 'Z') }

  /** str.lstrip() */
  function LStrip(s: string): (r: string)
    ensures IsSuffix(r, s)
    ensures r == [] || !IsSpace(r[0])
    decreases |s|
  {
    if |s| > 0 && IsSpace(s[0]) then
      var r := LStrip(s[1..]);
      assert s[|s| - |r|..] == s[1..][|s| - 1 - |r|..];
      r
    else s
  }

  /** str.rstrip() */
  function RStrip(s: string): (r: string)
    ensures IsPrefix(r, s)
    ensures r == [] || !IsSpace(r[|r| - 1])
    decreases |s|
  {
    if |s| > 0 && IsSpace(s[|s| - 1]) then RStrip(s[..|s| - 1]) else s
  }

  /** str.strip() */
  function Strip(s: string): string { RStrip(LStrip(s)) }

  /** str.lstrip(c) for a single character. */
  function LStripChar(s: string, c: char): (r: string)
    ensures IsSuffix(r, s)
    ensures r == [] || r[0] != c
    ensures forall i :: 0 <= i < |s| - |r| ==> s[i] == c
    decreases |s|
  {
    if |s| > 0 && s[0] == c then
      var r := LStripChar(s[1..], c);
      assert s[|s| - |r|..] == s[1..][|s| - 1 - |r|..];
      r
    else s
  }

  /** str.rstrip(c) for a single character. */
  function RStripChar(s: string, c: char): (r: string)
    ensures IsPrefix(r, s)
    ensures r == [] || r[|r| - 1] != c
    ensures forall i :: |r| <= i < |s| ==> s[i] == c
    decreases |s|
  {
    if |s| > 0 && s[|s| - 1] == c then RStripChar(s[..|s| - 1], c) else s
  }

  /** The leading run of non-space characters. */
  function Word(s: string): (r: string)
    ensures IsPrefix(r, s)
    ensures forall i :: 0 <= i < |r| ==> !IsSpace(r[i])
    ensures |r| == |s| || IsSpace(s[|r|])
    decreases |s|
  {
    if |s| == 0 || IsSpace(s[0]) then [] else [s[0]] + Word(s[1..])
  }

  /** str.split(None, 1): at most two whitespace-separated fields, the
      second one being everything after the first run of whitespace. */
  function SplitMax1(s: string): (r: seq<string>)
    ensures |r| <= 2
    ensures |r| >= 1 ==> r[0] != [] && r[0] == Word(LStrip(s))
  {
    var t := LStrip(s);
    if t == [] then []
    else
      var w := Word(t);
      var rest := LStrip(t[|w|..]);
      if rest == [] then [w] else [w, rest]
  }

  /** The first index of c in s. */
  function IndexOf<T(==)>(s: seq<T>, c: T): (i: nat)
    requires c in s
    ensures i < |s| && s[i] == c && c !in s[..i]
  {
    if s[0] == c then 0 else 1 + IndexOf(s[1..], c)
  }

  /** The first index of c is no later than any index holding c. */
  lemma {:induction false} IndexOfFirst<T>(s: seq<T>, c: T, k: nat)
    requires k < |s| && s[k] == c
    ensures IndexOf(s, c) <= k
  {
  }

  /** str.split(c) for a one-character separator. */
  function SplitOn(s: string, c: char): (r: seq<string>)
    ensures |r| >= 1
    ensures forall k :: 0 <= k < |r| ==> c !in r[k]
    decreases |s|
  {
    if c !in s then [s]
    else
      var i := IndexOf(s, c);
      [s[..i]] + SplitOn(s[i + 1..], c)
  }

  lemma {:induction false} SubstringOfTail(p: string, s: string, k: nat)
    requires k <= |s| && IsSubstring(p, s[k..])
    ensures IsSubstring(p, s)
    decreases k
  {
    if k > 0 {
      assert s[1..][k - 1..] == s[k..];
      SubstringOfTail(p, s[1..], k - 1);
    }
  }

  /** Every piece of s.split(c) occurs in s. */
  lemma {:induction false} SplitOnPieces(s: string, c: char)
    ensures forall k :: 0 <= k < |SplitOn(s, c)| ==> IsSubstring(SplitOn(s, c)[k], s)
    decreases |s|
  {
    if c !in s {
      assert SplitOn(s, c) == [s];
      assert IsSubstring(s, s) by { assert IsPrefix(s, s); }
    } else {
      var i := IndexOf(s, c);
      var rest := SplitOn(s[i + 1..], c);
      assert SplitOn(s, c) == [s[..i]] + rest;
      SplitOnPieces(s[i + 1..], c);
      assert IsSubstring(s[..i], s) by { assert IsPrefix(s[..i], s); }
      forall k | 0 <= k < |rest| ensures IsSubstring(rest[k], s) {
        SubstringOfTail(rest[k], s, i + 1);
      }
    }
  }

  /** sep.join(parts) */
  function Join(parts: seq<string>, sep: string): string {
    if |parts| == 0 then ""
    else if |parts| == 1 then parts[0]
    else parts[0] + sep + Join(parts[1..], sep)
  }

  lemma {:induction false} JoinSplitOn(s: string, c: char)
    ensures Join(SplitOn(s, c), [c]) == s
    decreases |s|
  {
    if c in s {
      var i := IndexOf(s, c);
      var rest := SplitOn(s[i + 1..], c);
      var parts := [s[..i]] + rest;
      assert SplitOn(s, c) == parts;
      assert parts[1..] == rest;
      assert Join(parts, [c]) == s[..i] + [c] + Join(rest, [c]);
      JoinSplitOn(s[i + 1..], c);
      assert s == s[..i] + [c] + s[i + 1..];
    }
  }

  lemma {:induction false} SplitOnJoin(parts: seq<string>, c: char)
    requires |parts| >= 1
    requires forall k :: 0 <= k < |parts| ==> c !in parts[k]
    ensures SplitOn(Join(parts, [c]), c) == parts
    decreases |parts|
  {
    if |parts| > 1 {
      var s := Join(parts, [c]);
      var rest := Join(parts[1..], [c]);
      assert s == parts[0] + [c] + rest;
      assert c in s by { assert s[|parts[0]|] == c; }
      var i := IndexOf(s, c);
      assert i == |parts[0]|;
      assert s[..i] == parts[0];
      assert s[i + 1..] == rest;
      SplitOnJoin(parts[1..], c);
    }
  }

  /** The first c sits where it is found with none before it. */
  lemma {:induction false} IndexOfAt<T>(s: seq<T>, c: T, j: nat)
    requires j < |s| && s[j] == c && c !in s[..j]
    ensures IndexOf(s, c) == j
    decreases j
  {
    if j > 0 {
      assert s[0] in s[..j];
      assert s[1..][..j - 1] == s[1..j];
      assert forall x :: x in s[1..j] ==> x in s[..j];
      IndexOfAt(s[1..], c, j - 1);
    }
  }

  /** str.split(c, n): at most n splits; the rest stays in the last piece. */
  function SplitN(s: string, c: char, n: nat): (r: seq<string>)
    ensures 1 <= |r| <= n + 1
    decreases n
  {
    if n == 0 || c !in s then [s]
    else
      var i := IndexOf(s, c);
      [s[..i]] + SplitN(s[i + 1..], c, n - 1)
  }

  /** Splitting a piece placed in front of more text. */
  lemma {:induction false} SplitNCons(first: string, rest: string, c: char, n: nat)
    requires c !in first
    ensures SplitN(first + [c] + rest, c, n + 1) == [first] + SplitN(rest, c, n)
  {
    var s := first + [c] + rest;
    assert s[..|first|] == first;
    IndexOfAt(s, c, |first|);
    assert s[|first| + 1..] == rest;
  }

  /** No piece before the last holds c. */
  predicate NoSepBefore(parts: seq<string>, c: char)
    decreases |parts|
  {
    |parts| <= 1 || (c !in parts[0] && NoSepBefore(parts[1..], c))
  }

  lemma {:induction false} NoSepBeforeAll(parts: seq<string>, c: char)
    requires forall k :: 0 <= k < |parts| - 1 ==> c !in parts[k]
    ensures NoSepBefore(parts, c)
    decreases |parts|
  {
    if |parts| > 1 {
      var tail := parts[1..];
      forall k | 0 <= k < |tail| - 1 ensures c !in tail[k] {
        assert tail[k] == parts[k + 1];
      }
      NoSepBeforeAll(tail, c);
    }
  }

  /** Splitting joined pieces once per separator gives them back when only
      the last piece may hold the separator. */
  lemma {:induction false} SplitNJoin(parts: seq<string>, c: char)
    requires |parts| >= 1
    requires forall k :: 0 <= k < |parts| - 1 ==> c !in parts[k]
    ensures SplitN(Join(parts, [c]), c, |parts| - 1) == parts
  {
    NoSepBeforeAll(parts, c);
    SplitNJoinRec(parts, c);
  }

  lemma {:induction false} SplitNJoinRec(parts: seq<string>, c: char)
    requires |parts| >= 1 && NoSepBefore(parts, c)
    ensures SplitN(Join(parts, [c]), c, |parts| - 1) == parts
    decreases |parts|, 1
  {
    if |parts| > 1 {
      SplitNJoinStep(parts[0], parts[1..], c);
      assert parts == [parts[0]] + parts[1..];
    } else {
      assert parts == [parts[0]];
    }
  }

  lemma {:induction false} SplitNJoinStep(head: string, tail: seq<string>, c: char)
    requires c !in head && |tail| >= 1 && NoSepBefore(tail, c)
    ensures SplitN(head + [c] + Join(tail, [c]), c, |tail|) == [head] + tail
    decreases |tail| + 1, 0
  {
    var rest := Join(tail, [c]);
    var m: nat := |tail| - 1;
    assert SplitN(rest, c, m) == tail by {
      SplitNJoinRec(tail, c);
    }
    assert SplitN(head + [c] + rest, c, m + 1) == [head] + SplitN(rest, c, m) by {
      SplitNCons(head, rest, c, m);
    }
  }

  /** Splitting a line placed in front of more text. */
  lemma {:induction false} SplitOnCons(first: string, rest: string, c: char)
    requires c !in first
    ensures SplitOn(first + [c] + rest, c) == [first] + SplitOn(rest, c)
  {
    var s := first + [c] + rest;
    assert s[|first|] == c;
    var i := IndexOf(s, c);
    assert forall j :: 0 <= j < |first| ==> s[j] == first[j];
    assert s[..i] == first;
    assert s[i + 1..] == rest;
  }

  /** The leading word of a word followed by a space. */
  lemma {:induction false} WordBeforeSpace(w: string, x: string)
    requires forall i :: 0 <= i < |w| ==> !IsSpace(w[i])
    requires |x| > 0 && IsSpace(x[0])
    ensures Word(w + x) == w
    decreases |w|
  {
    if |w| > 0 {
      assert (w + x)[1..] == w[1..] + x;
      WordBeforeSpace(w[1..], x);
      assert w == [w[0]] + w[1..];
    }
  }

  /** "w x".split(None, 1) == [w, x] when w is one word and x starts and
      ends with no whitespace. */
  lemma {:induction false} SplitMax1Pair(w: string, x: string)
    requires |w| > 0 && forall i :: 0 <= i < |w| ==> !IsSpace(w[i])
    requires |x| > 0 && !IsSpace(x[0])
    ensures SplitMax1(w + " " + x) == [w, x]
  {
    var s := w + " " + x;
    assert s[0] == w[0];
    assert LStrip(s) == s;
    assert s == w + (" " + x);
    WordBeforeSpace(w, " " + x);
    assert s[|w|..] == " " + x;
    assert LStrip(" " + x) == LStrip(x) by {
      assert (" " + x)[1..] == x;
    }
  }

  /** str.replace(pat, rep): every non-overlapping occurrence, left to right. */
  function Replace(s: string, pat: string, rep: string): (r: string)
    requires |pat| > 0
    decreases |s|
  {
    if IsPrefix(pat, s) then rep + Replace(s[|pat|..], pat, rep)
    else if |s| == 0 then []
    else [s[0]] + Replace(s[1..], pat, rep)
  }

  lemma {:induction false} ReplacePrefix(s: string, pat: string, rep: string)
    requires |pat| > 0 && IsPrefix(pat, s)
    ensures IsPrefix(rep, Replace(s, pat, rep))
  {
  }

  lemma {:induction false} ReplaceNoChar(s: string, pat: string, rep: string, c: char)
    requires |pat| > 0 && c !in s && c !in rep
    ensures c !in Replace(s, pat, rep)
    decreases |s|
  {
    if IsPrefix(pat, s) {
      assert forall i :: |pat| <= i < |s| ==> s[i] == s[|pat|..][i - |pat|];
      ReplaceNoChar(s[|pat|..], pat, rep, c);
    } else if |s| > 0 {
      ReplaceNoChar(s[1..], pat, rep, c);
    }
  }

  lemma {:induction false} ReplaceAbsent(s: string, pat: string, rep: string)
    requires |pat| > 0 && !IsSubstring(pat, s)
    ensures Replace(s, pat, rep) == s
    decreases |s|
  {
    if |s| > 0 {
      ReplaceAbsent(s[1..], pat, rep);
    }
  }

  /** re.split(r"[<seps>]+", s): the pieces between maximal runs of
      separator characters; a leading or trailing run gives an empty piece. */
  function SplitRuns(s: string, isSep: char -> bool): (r: seq<string>)
    ensures |r| >= 1
    ensures forall k, i :: 0 <= k < |r| && 0 <= i < |r[k]| ==> !isSep(r[k][i])
    decreases |s|
  {
    if |s| == 0 then [""]
    else
      var rest := SplitRuns(s[1..], isSep);
      if !isSep(s[0]) then [[s[0]] + rest[0]] + rest[1..]
      else if |s| > 1 && isSep(s[1]) then rest
      else [""] + rest
  }

  /** The characters of `[,\s]`. */
  predicate IsCommaOrSpace(c: char) { c == ',' || IsSpace(c) }

  // ---------------------------------------------------------------
  // Integers as Python's int() and str() read and write them

  predicate IsDigitGroups(s: string) {
    && |s| > 0
    && (forall i :: 0 <= i < |s| ==> IsAsciiDigit(s[i]) || s[i] == '_')
    && (forall i :: 0 <= i < |s| && s[i] == '_' ==>
          0 < i < |s| - 1 && IsAsciiDigit(s[i - 1]) && IsAsciiDigit(s[i + 1]))
  }

  function DigitsValue(s: string): nat
    decreases |s|
  {
    if |s| == 0 then 0
    else if s[|s| - 1] == '_' then DigitsValue(s[..|s| - 1])
    else
      var d := s[|s| - 1] as int - '0' as int;
      DigitsValue(s[..|s| - 1]) * 10 + (if 0 <= d <= 9 then d else 0)
  }

  /** int(s) for base 10: surrounding whitespace, an optional sign and ASCII
      digits, with single underscores allowed between digits. */
  function ParseInt(s: string): (r: Option<int>)
    ensures r.Some? ==> |Strip(s)| > 0
  {
    var t := Strip(s);
    if |t| > 0 && t[0] == '-' then
      var v: int := DigitsValue(t[1..]);
      (if IsDigitGroups(t[1..]) then Some(-v) else None)
    else if |t| > 0 && t[0] == '+' then
      (if IsDigitGroups(t[1..]) then Some(DigitsValue(t[1..])) else None)
    else if IsDigitGroups(t) then Some(DigitsValue(t)) else None
  }

  /** What int(s) raises for text it cannot read; the repr of s that
      Python puts in the message is not modelled. */
  function IntError(s: string): Exc {
    ValueError("invalid literal for int() with base 10")
  }

  function NatToString(n: nat): (r: string)
    ensures |r| > 0
    ensures forall i :: 0 <= i < |r| ==> IsAsciiDigit(r[i])
  {
    var d := [(('0' as int) + n % 10) as char];
    if n < 10 then d else NatToString(n / 10) + d
  }

  /** str(n) */
  function IntToString(n: int): string {
    if n < 0 then "-" + NatToString(-n) else NatToString(n)
  }

  lemma {:induction false} NatToStringValue(n: nat)
    ensures DigitsValue(NatToString(n)) == n
  {
    var s := NatToString(n);
    if n >= 10 {
      NatToStringValue(n / 10);
      assert s[..|s| - 1] == NatToString(n / 10);
    }
  }

  lemma {:induction false} StripUnpadded(s: string)
    requires |s| > 0 && !IsSpace(s[0]) && !IsSpace(s[|s| - 1])
    ensures Strip(s) == s
  {
  }

  /** Stripping keeps a leading run of non-space characters. */
  lemma {:induction false} RStripKeepsPrefix(p: string, s: string)
    requires IsPrefix(p, s) && |p| > 0 && !IsSpace(p[|p| - 1])
    ensures IsPrefix(p, RStrip(s))
    decreases |s|
  {
    if IsSpace(s[|s| - 1]) {
      assert |p| < |s|;
      assert IsPrefix(p, s[..|s| - 1]) by {
        assert s[..|s| - 1][..|p|] == s[..|p|];
      }
      RStripKeepsPrefix(p, s[..|s| - 1]);
    }
  }

  lemma {:induction false} StripKeepsPrefix(p: string, s: string)
    requires IsPrefix(p, s) && |p| > 0 && !IsSpace(p[0]) && !IsSpace(p[|p| - 1])
    ensures IsPrefix(p, Strip(s))
  {
    assert LStrip(s) == s;
    RStripKeepsPrefix(p, s);
  }

  /** A character absent from s is absent from anything cut out of it. */
  lemma {:induction false} NoCharStrip(s: string, c: char)
    requires c !in s
    ensures c !in LStrip(s) && c !in Strip(s)
  {
    var l := LStrip(s);
    forall i | 0 <= i < |l| ensures l[i] != c {
      assert l[i] == s[|s| - |l| + i];
    }
    var r := RStrip(l);
    forall i | 0 <= i < |r| ensures r[i] != c {
      assert r[i] == l[i];
    }
  }

  lemma {:induction false} AllDigitsGroups(s: string)
    requires |s| > 0 && forall i :: 0 <= i < |s| ==> IsAsciiDigit(s[i])
    ensures IsDigitGroups(s)
  {
  }

  lemma {:induction false} ParseIntDigits(ds: string)
    requires |ds| > 0 && forall i :: 0 <= i < |ds| ==> IsAsciiDigit(ds[i])
    ensures ParseInt(ds) == Some(DigitsValue(ds))
  {
    StripUnpadded(ds);
    AllDigitsGroups(ds);
  }

  lemma {:induction false} ParseIntNegated(ds: string)
    requires |ds| > 0 && forall i :: 0 <= i < |ds| ==> IsAsciiDigit(ds[i])
    ensures var v: int := DigitsValue(ds); ParseInt("-" + ds) == Some(-v)
  {
    var s := "-" + ds;
    assert s[|s| - 1] == ds[|ds| - 1];
    StripUnpadded(s);
    assert s[1..] == ds;
    AllDigitsGroups(ds);
  }

  /** int(str(n)) == n */
  lemma {:induction false} ParseIntToString(n: int)
    ensures ParseInt(IntToString(n)) == Some(n)
  {
    var m: nat := if n < 0 then -n else n;
    NatToStringValue(m);
    if n < 0 {
      ParseIntNegated(NatToString(m));
    } else {
      ParseIntDigits(NatToString(m));
    }
  }

  // ---------------------------------------------------------------
  // Code-point order and a stable sort

  /** Python's `<` on two strings. */
  predicate LexLess(a: string, b: string)
    decreases |a|
  {
    |b| > 0 && (|a| == 0 || a[0] < b[0] || (a[0] == b[0] && LexLess(a[1..], b[1..])))
  }

  predicate LexLe(a: string, b: string) { a == b || LexLess(a, b) }

  lemma {:induction false} LexTotal(a: string, b: string)
    ensures LexLess(a, b) || a == b || LexLess(b, a)
    decreases |a|
  {
    if |a| > 0 && |b| > 0 && a[0] == b[0] {
      LexTotal(a[1..], b[1..]);
      if a[1..] == b[1..] {
        assert a == [a[0]] + a[1..] && b == [b[0]] + b[1..];
      }
    }
  }

  lemma {:induction false} LexLessIrreflexive(a: string, b: string)
    requires LexLess(a, b)
    ensures a != b && !LexLess(b, a)
    decreases |a|
  {
    if |a| > 0 && a[0] == b[0] {
      LexLessIrreflexive(a[1..], b[1..]);
    }
  }

  lemma {:induction false} LexLessTransitive(a: string, b: string, c: string)
    requires LexLess(a, b) && LexLess(b, c)
    ensures LexLess(a, c)
    decreases |a|
  {
    if |a| > 0 && a[0] == b[0] && b[0] == c[0] {
      LexLessTransitive(a[1..], b[1..], c[1..]);
    }
  }

  ghost predicate SortedBy<T>(s: seq<T>, key: T -> string) {
    forall i :: 0 < i < |s| ==> LexLe(key(s[i - 1]), key(s[i]))
  }

  /** Insert x after every element whose key is not greater than its own. */
  function InsertBy<T>(x: T, s: seq<T>, key: T -> string): (r: seq<T>)
    ensures multiset(r) == multiset(s) + multiset{x}
    ensures |r| == |s| + 1
    ensures r[0] == x || (|s| > 0 && r[0] == s[0])
    decreases |s|
  {
    if |s| == 0 || LexLess(key(x), key(s[0])) then [x] + s
    else
      assert s == [s[0]] + s[1..];
      [s[0]] + InsertBy(x, s[1..], key)
  }

  lemma {:induction false} InsertBySorted<T>(x: T, s: seq<T>, key: T -> string)
    requires SortedBy(s, key)
    ensures SortedBy(InsertBy(x, s, key), key)
    decreases |s|
  {
    if |s| > 0 && !LexLess(key(x), key(s[0])) {
      var t := s[1..];
      assert SortedBy(t, key) by {
        forall i | 0 < i < |t| ensures LexLe(key(t[i - 1]), key(t[i])) {
          assert t[i - 1] == s[i] && t[i] == s[i + 1];
        }
      }
      InsertBySorted(x, t, key);
      var rest := InsertBy(x, t, key);
      LexTotal(key(x), key(s[0]));
      assert LexLe(key(s[0]), key(rest[0]));
      var r := InsertBy(x, s, key);
      assert r == [s[0]] + rest;
      forall i | 0 < i < |r| ensures LexLe(key(r[i - 1]), key(r[i])) {
        if i > 1 {
          assert r[i - 1] == rest[i - 2] && r[i] == rest[i - 1];
        }
      }
    }
  }

  /** Python's sorted(s, key=key): a stable sort in code-point order. */
  function SortBy<T>(s: seq<T>, key: T -> string): (r: seq<T>)
    ensures multiset(r) == multiset(s)
    ensures SortedBy(r, key)
    decreases |s|
  {
    if |s| == 0 then []
    else
      assert s == s[..|s| - 1] + [s[|s| - 1]];
      var sorted := SortBy(s[..|s| - 1], key);
      InsertBySorted(s[|s| - 1], sorted, key);
      InsertBy(s[|s| - 1], sorted, key)
  }

  /** Keeps the first element of every run of elements with equal keys. */
  function DedupBy<T>(s: seq<T>, key: T -> string): (r: seq<T>)
    ensures |r| <= |s|
    ensures |s| > 0 <==> |r| > 0
    ensures |r| > 0 ==> key(r[|r| - 1]) == key(s[|s| - 1])
    ensures forall x :: x in r ==> x in s
    decreases |s|
  {
    if |s| == 0 then []
    else
      var p := DedupBy(s[..|s| - 1], key);
      assert forall x :: x in s[..|s| - 1] ==> x in s;
      if |s| >= 2 && key(s[|s| - 1]) == key(s[|s| - 2]) then p
      else p + [s[|s| - 1]]
  }

  /** One more element of a prefix: kept unless its key repeats the previous one. */
  lemma {:induction false} DedupByPrefix<T>(s: seq<T>, i: nat, key: T -> string)
    requires i < |s|
    ensures DedupBy(s[..i + 1], key) ==
      if i > 0 && key(s[i]) == key(s[i - 1]) then DedupBy(s[..i], key) else DedupBy(s[..i], key) + [s[i]]
  {
    var t := s[..i + 1];
    assert t[..|t| - 1] == s[..i];
    assert t[|t| - 1] == s[i];
    if i > 0 {
      assert t[|t| - 2] == s[i - 1];
    }
  }

  ghost predicate HasKey<T>(r: seq<T>, key: T -> string, k: string) {
    exists j :: 0 <= j < |r| && key(r[j]) == k
  }

  /** Every key of the input survives de-duplication. */
  lemma {:induction false} DedupByKeys<T>(s: seq<T>, key: T -> string)
    ensures forall i :: 0 <= i < |s| ==> HasKey(DedupBy(s, key), key, key(s[i]))
    decreases |s|
  {
    if |s| > 0 {
      var s' := s[..|s| - 1];
      var p := DedupBy(s', key);
      var r := DedupBy(s, key);
      DedupByKeys(s', key);
      assert r == p || r == p + [s[|s| - 1]];
      forall i | 0 <= i < |s| ensures HasKey(r, key, key(s[i])) {
        if i == |s| - 1 {
          assert key(r[|r| - 1]) == key(s[i]);
        } else {
          assert s'[i] == s[i];
          assert HasKey(p, key, key(s'[i]));
          var j :| 0 <= j < |p| && key(p[j]) == key(s'[i]);
          assert r[j] == p[j];
        }
      }
    }
  }

  /** De-duplicating a sorted sequence leaves its keys strictly increasing. */
  lemma {:induction false} DedupBySorted<T>(s: seq<T>, key: T -> string)
    requires SortedBy(s, key)
    ensures forall i :: 0 < i < |DedupBy(s, key)| ==> LexLess(key(DedupBy(s, key)[i - 1]), key(DedupBy(s, key)[i]))
    decreases |s|
  {
    if |s| > 0 {
      var s' := s[..|s| - 1];
      assert SortedBy(s', key) by {
        assert forall i :: 0 <= i < |s'| ==> s'[i] == s[i];
      }
      DedupBySorted(s', key);
    }
  }

  /** Sorting then de-duplicating: keys strictly increasing, every input key
      kept, nothing new. */
  lemma {:induction false} SortDedup<T>(s: seq<T>, key: T -> string)
    ensures forall i :: 0 < i < |DedupBy(SortBy(s, key), key)| ==>
      LexLess(key(DedupBy(SortBy(s, key), key)[i - 1]), key(DedupBy(SortBy(s, key), key)[i]))
    ensures forall k :: 0 <= k < |s| ==> HasKey(DedupBy(SortBy(s, key), key), key, key(s[k]))
    ensures forall x :: x in DedupBy(SortBy(s, key), key) ==> x in s
  {
    var sorted := SortBy(s, key);
    var r := DedupBy(sorted, key);
    DedupBySorted(sorted, key);
    DedupByKeys(sorted, key);
    forall k | 0 <= k < |s| ensures HasKey(r, key, key(s[k])) {
      assert s[k] in multiset(sorted);
      var j :| 0 <= j < |sorted| && sorted[j] == s[k];
    }
    forall x | x in r ensures x in s {
      assert x in multiset(sorted);
    }
  }

  lemma {:induction false} StrictlySortedDistinct(s: seq<string>)
    requires forall i :: 0 < i < |s| ==> LexLess(s[i - 1], s[i])
    ensures forall i, j :: 0 <= i < j < |s| ==> LexLess(s[i], s[j])
    ensures forall i, j :: 0 <= i < j < |s| ==> s[i] != s[j]
  {
    forall i, j | 0 <= i < j < |s| ensures LexLess(s[i], s[j]) {
      var k := i + 1;
      while k < j
        invariant i < k <= j
        invariant LexLess(s[i], s[k])
      {
        LexLessTransitive(s[i], s[k], s[k + 1]);
        k := k + 1;
      }
    }
    forall i, j | 0 <= i < j < |s| ensures s[i] != s[j] {
      LexLessIrreflexive(s[i], s[j]);
    }
  }
}
