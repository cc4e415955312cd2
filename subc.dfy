/** yo/subc.py: the unique command-name prefixes offered as aliases, and
    the dictionary that resolves them. */
module Subc {
  import opened Base
  import opened Text

  // ---------------------------------------------------------------
  // Common prefixes

  /** The length of the longest common prefix of a and b. */
  function Lcp(a: string, b: string): (n: nat)
    ensures n <= |a| && n <= |b| && a[..n] == b[..n]
    ensures n < |a| && n < |b| ==> a[n] != b[n]
    decreases |a|
  {
    if |a| == 0 || |b| == 0 || a[0] != b[0] then 0
    else
      var m := Lcp(a[1..], b[1..]);
      assert a[..m + 1] == [a[0]] + a[1..][..m];
      assert b[..m + 1] == [b[0]] + b[1..][..m];
      m + 1
  }

  /** A prefix of both is no longer than their longest common prefix. */
  lemma {:induction false} LcpPrefix(p: string, a: string, b: string)
    requires IsPrefix(p, a) && IsPrefix(p, b)
    ensures |p| <= Lcp(a, b)
    decreases |p|
  {
    if |p| > 0 {
      assert a[1..][..|p| - 1] == p[1..] && b[1..][..|p| - 1] == p[1..];
      LcpPrefix(p[1..], a[1..], b[1..]);
    }
  }

  lemma {:induction false} LcpSymmetric(a: string, b: string)
    ensures Lcp(a, b) == Lcp(b, a)
  {
    LcpPrefix(a[..Lcp(a, b)], b, a);
    LcpPrefix(b[..Lcp(b, a)], a, b);
  }

  /** For a < b < c, a and c share no more than either shares with b. */
  lemma {:induction false} LcpBetween(a: string, b: string, c: string)
    requires LexLess(a, b) && LexLess(b, c)
    ensures Lcp(a, c) <= Lcp(a, b) && Lcp(a, c) <= Lcp(b, c)
    decreases |a|
  {
    if |a| > 0 && |c| > 0 && a[0] == c[0] {
      assert a[0] <= b[0] <= c[0];
      LcpBetween(a[1..], b[1..], c[1..]);
    }
  }

  function DuplicateError(s: string): Exc {
    ValueError("Duplicate string '" + s + "' is not allowed")
  }

  /** _first_different: the first index at which the strings differ, or the
      shorter one's length when it is a prefix of the other. Equal strings
      raise; so does an empty string beside a non-empty one, whose loop
      never binds its index. */
  method FirstDifferent(s1: string, s2: string) returns (r: Result<nat>)
    ensures s1 == s2 ==> r == Err(DuplicateError(s1))
    ensures s1 != s2 && (s1 == [] || s2 == []) ==> r == Err(UnboundLocalError)
    ensures s1 != s2 && s1 != [] && s2 != [] ==> r == Ok(Lcp(s1, s2))
  {
    var n := if |s1| < |s2| then |s1| else |s2|;
    var i := 0;
    while i < n
      invariant 0 <= i <= n
      invariant s1[..i] == s2[..i]
    {
      if s1[i] != s2[i] {
        LcpPrefix(s1[..i], s1, s2);
        return Ok(i);
      }
      assert s1[..i + 1] == s1[..i] + [s1[i]] && s2[..i + 1] == s2[..i] + [s2[i]];
      i := i + 1;
    }
    if |s1| == |s2| {
      assert s1 == s1[..i] && s2 == s2[..i];
      return Err(DuplicateError(s1));
    }
    if n == 0 {
      return Err(UnboundLocalError);
    }
    LcpPrefix(s1[..n], s1, s2);
    return Ok(n);
  }

  // ---------------------------------------------------------------
  // Unique prefixes

  /** p is a non-empty proper prefix of s that begins no other string. */
  ghost predicate UniquePrefix(strings: seq<string>, s: string, p: string) {
    && IsPrefix(p, s) && 0 < |p| < |s|
    && forall t :: t in strings && t != s ==> !IsPrefix(p, t)
  }

  /** [s[:i] for i in range(x + 1, len(s))] */
  function PrefixesFrom(s: string, x: nat): (r: seq<string>)
    ensures forall p :: p in r <==> IsPrefix(p, s) && x < |p| < |s|
    ensures forall i, j :: 0 <= i < j < |r| ==> |r[i]| < |r[j]|
    decreases |s| - x
  {
    if x + 1 >= |s| then []
    else
      var rest := PrefixesFrom(s, x + 1);
      assert forall p :: IsPrefix(p, s) && |p| == x + 1 ==> p == s[..x + 1];
      [s[..x + 1]] + rest
  }

  /** What diffs[k] holds once the pairs before `upto` are compared: the
      larger of k's common prefix lengths with the neighbours compared so far. */
  function Reach(s: seq<string>, k: nat, upto: nat): nat
    requires k < |s|
  {
    var left := if 0 < k <= upto then Lcp(s[k - 1], s[k]) else 0;
    var right := if k < upto && k + 1 < |s| then Lcp(s[k], s[k + 1]) else 0;
    if left < right then right else left
  }

  predicate Increasing(s: seq<string>) {
    forall i :: 0 < i < |s| ==> LexLess(s[i - 1], s[i])
  }

  /** In a strictly increasing list, a prefix of s[k] longer than k's reach
      over both neighbours begins no other entry, and any shorter one begins
      a neighbour. */
  lemma {:induction false} ReachUnique(s: seq<string>, k: nat, p: string)
    requires Increasing(s) && k < |s| && IsPrefix(p, s[k]) && 0 < |p| < |s[k]|
    ensures Reach(s, k, |s|) < |p| <==> forall t :: t in s && t != s[k] ==> !IsPrefix(p, t)
  {
    StrictlySortedDistinct(s);
    var d := Reach(s, k, |s|);
    if d < |p| {
      forall t | t in s && t != s[k] ensures !IsPrefix(p, t) {
        var m :| 0 <= m < |s| && s[m] == t;
        if IsPrefix(p, t) {
          LcpPrefix(p, s[k], t);
          if m > k {
            if m > k + 1 {
              LcpBetween(s[k], s[k + 1], s[m]);
            }
          } else {
            LcpSymmetric(s[k], s[m]);
            if m < k - 1 {
              LcpBetween(s[m], s[k - 1], s[k]);
            }
          }
        }
      }
    } else {
      var t: string := if k > 0 && (k + 1 >= |s| || Lcp(s[k], s[k + 1]) <= Lcp(s[k - 1], s[k])) then s[k - 1] else s[k + 1];
      if k > 0 && (k + 1 >= |s| || Lcp(s[k], s[k + 1]) <= Lcp(s[k - 1], s[k])) {
        LcpSymmetric(s[k - 1], s[k]);
      }
      assert t in s && t != s[k];
      assert p == s[k][..|p|];
      assert t[..|p|] == s[k][..|p|];
      assert IsPrefix(p, t);
    }
  }

  /** The sorted list holds no repeats and, beside another string, no
      empty one. */
  ghost predicate Comparable(s: seq<string>) {
    Distinct(s) && ([] in s ==> |s| <= 1)
  }

  /** A sorted list whose neighbours differ is strictly increasing. */
  lemma {:induction false} SortedDistinctIncreasing(s: seq<string>)
    requires SortedBy(s, (x: string) => x)
    requires forall i :: 0 < i < |s| ==> PairOk(s, i)
    ensures Increasing(s)
  {
    forall i | 0 < i < |s| ensures LexLess(s[i - 1], s[i]) {
      assert PairOk(s, i);
      assert LexLe(s[i - 1], s[i]);
    }
  }

  /** In a sorted list, equal entries sit next to each other. */
  lemma {:induction false} SortedRepeatAdjacent(s: seq<string>, i: nat, j: nat)
    requires SortedBy(s, (x: string) => x) && i < j < |s| && s[i] == s[j]
    ensures s[i] == s[i + 1]
  {
    if s[i] != s[i + 1] {
      assert LexLess(s[i], s[i + 1]);
      var k := i + 1;
      while k < j
        invariant i + 1 <= k <= j
        invariant LexLess(s[i], s[k])
      {
        assert LexLe(s[k], s[k + 1]);
        if s[k] != s[k + 1] {
          LexLessTransitive(s[i], s[k], s[k + 1]);
        }
        k := k + 1;
      }
      LexLessIrreflexive(s[i], s[j]);
    }
  }

  /** Distinctness depends only on the multiset of elements. */
  lemma {:induction false} DistinctCounts(s: seq<string>)
    ensures Distinct(s) <==> forall v :: multiset(s)[v] <= 1
    decreases |s|
  {
    if |s| > 0 {
      var init := s[..|s| - 1];
      var last := s[|s| - 1];
      assert s == init + [last];
      DistinctCounts(init);
      if Distinct(s) {
        assert Distinct(init) by {
          forall i, j | 0 <= i < j < |init| ensures init[i] != init[j] {
            assert init[i] == s[i] && init[j] == s[j];
          }
        }
        assert last !in init by {
          forall i | 0 <= i < |init| ensures init[i] != last {
            assert init[i] == s[i];
          }
        }
      } else {
        var i, j :| 0 <= i < j < |s| && s[i] == s[j];
        if j < |s| - 1 {
          assert init[i] == init[j];
          assert !Distinct(init);
          var v :| multiset(init)[v] > 1;
          assert multiset(s)[v] > 1;
        } else {
          assert s[i] in init by { assert init[i] == s[i]; }
          assert multiset(s)[last] == multiset(init)[last] + 1;
        }
      }
    }
  }

  /** Neighbours k-1 and k differ and neither is empty. */
  predicate PairOk(s: seq<string>, k: nat) {
    0 < k < |s| && s[k - 1] != s[k] && s[k - 1] != [] && s[k] != []
  }

  /** Comparing pair (i, i + 1) raises the reach of those two entries only. */
  lemma {:induction false} ReachStep(s: seq<string>, i: nat, k: nat)
    requires i + 1 < |s| && k < |s|
    ensures k != i && k != i + 1 ==> Reach(s, k, i + 1) == Reach(s, k, i)
    ensures var c := Lcp(s[i], s[i + 1]);
      && Reach(s, i, i + 1) == (if Reach(s, i, i) < c then c else Reach(s, i, i))
      && Reach(s, i + 1, i + 1) == (if Reach(s, i + 1, i) < c then c else Reach(s, i + 1, i))
  {
  }

  /** The loop of _unique_prefixes over neighbouring pairs: each entry's
      reach over both neighbours, or the exception of the first pair that
      cannot be compared. */
  method Diffs(sorted: seq<string>) returns (r: Result<seq<nat>>)
    ensures r.Ok? <==> forall k :: 0 < k < |sorted| ==> PairOk(sorted, k)
    ensures r.Ok? ==> |r.value| == |sorted| && forall k :: 0 <= k < |sorted| ==> r.value[k] == Reach(sorted, k, |sorted|)
  {
    var n := |sorted|;
    var diffs := new nat[n](_ => 0);
    var i := 0;
    while i + 1 < n
      invariant n == 0 || i < n
      invariant forall k :: 0 <= k < n ==> diffs[k] == Reach(sorted, k, i)
      invariant forall k :: 0 < k <= i ==> PairOk(sorted, k)
    {
      var common := FirstDifferent(sorted[i], sorted[i + 1]);
      if common.Err? {
        assert !PairOk(sorted, i + 1);
        return Err(common.exc);
      }
      diffs[i] := if diffs[i] < common.value then common.value else diffs[i];
      diffs[i + 1] := if diffs[i + 1] < common.value then common.value else diffs[i + 1];
      forall k | 0 <= k < n ensures diffs[k] == Reach(sorted, k, i + 1) {
        ReachStep(sorted, i, k);
      }
      i := i + 1;
    }
    assert forall k :: 0 <= k < n ==> Reach(sorted, k, i) == Reach(sorted, k, n);
    r := Ok(diffs[..]);
  }

  /** The dictionary comprehension of _unique_prefixes. */
  method PrefixMap(sorted: seq<string>, d: seq<nat>) returns (m: map<string, seq<string>>)
    requires |d| == |sorted| && Distinct(sorted)
    ensures m.Keys == set s | s in sorted
    ensures forall k :: 0 <= k < |sorted| ==> m[sorted[k]] == PrefixesFrom(sorted[k], d[k])
  {
    m := map[];
    for k := 0 to |sorted|
      invariant m.Keys == set j | 0 <= j < k :: sorted[j]
      invariant forall j :: 0 <= j < k ==> m[sorted[j]] == PrefixesFrom(sorted[j], d[j])
    {
      m := m[sorted[k] := PrefixesFrom(sorted[k], d[k])];
    }
    assert forall s :: s in sorted <==> exists j :: 0 <= j < |sorted| && sorted[j] == s;
  }

  /** With neighbours that all compare, the sorted list holds each string
      once and no empty string beside others. */
  lemma {:induction false} PairsComparable(strings: seq<string>, sorted: seq<string>)
    requires multiset(sorted) == multiset(strings) && SortedBy(sorted, (x: string) => x)
    ensures (forall k :: 0 < k < |sorted| ==> PairOk(sorted, k)) <==> Comparable(strings)
  {
    assert forall t :: t in sorted <==> t in strings by {
      forall t ensures t in sorted <==> t in strings {
        assert t in sorted <==> multiset(sorted)[t] > 0;
      }
    }
    DistinctCounts(sorted);
    DistinctCounts(strings);
    if forall k :: 0 < k < |sorted| ==> PairOk(sorted, k) {
      SortedDistinctIncreasing(sorted);
      StrictlySortedDistinct(sorted);
      forall k | 0 <= k < |sorted| && |sorted| > 1 ensures sorted[k] != [] {
        if k > 0 {
          assert PairOk(sorted, k);
        } else {
          assert PairOk(sorted, 1);
        }
      }
    } else {
      var k :| 0 < k < |sorted| && !PairOk(sorted, k);
      if sorted[k - 1] == sorted[k] {
        assert !Distinct(sorted);
      } else {
        assert sorted[k - 1] in sorted && sorted[k] in sorted;
      }
    }
  }

  /** The map built from the reaches holds exactly the unique prefixes,
      shortest first. */
  lemma {:induction false} PrefixMapMeaning(strings: seq<string>, sorted: seq<string>, d: seq<nat>, m: map<string, seq<string>>)
    requires Increasing(sorted) && multiset(sorted) == multiset(strings)
    requires |d| == |sorted| && forall k :: 0 <= k < |sorted| ==> d[k] == Reach(sorted, k, |sorted|)
    requires m.Keys == set s | s in sorted
    requires forall k :: 0 <= k < |sorted| ==> m[sorted[k]] == PrefixesFrom(sorted[k], d[k])
    ensures m.Keys == set s | s in strings
    ensures forall s, p :: s in m ==> (p in m[s] <==> UniquePrefix(strings, s, p))
    ensures forall s :: s in m ==> forall i, j :: 0 <= i < j < |m[s]| ==> |m[s][i]| < |m[s][j]|
  {
    assert forall t :: t in sorted <==> t in strings by {
      forall t ensures t in sorted <==> t in strings {
        assert t in sorted <==> multiset(sorted)[t] > 0;
      }
    }
    forall s, p | s in m ensures p in m[s] <==> UniquePrefix(strings, s, p) {
      var k :| 0 <= k < |sorted| && sorted[k] == s;
      if IsPrefix(p, s) && 0 < |p| < |s| {
        ReachUnique(sorted, k, p);
      }
    }
    forall s | s in m ensures forall i, j :: 0 <= i < j < |m[s]| ==> |m[s][i]| < |m[s][j]| {
      var k :| 0 <= k < |sorted| && sorted[k] == s;
    }
  }

  /** _unique_prefixes: each string mapped to its non-empty proper prefixes
      that begin no other string, shortest first. A repeated string, or an
      empty one beside others, raises. */
  method UniquePrefixes(strings: seq<string>) returns (r: Result<map<string, seq<string>>>)
    ensures r.Err? <==> !Comparable(strings)
    ensures r.Ok? ==> r.value.Keys == set s | s in strings
    ensures r.Ok? ==> forall s, p :: s in r.value ==> (p in r.value[s] <==> UniquePrefix(strings, s, p))
    ensures r.Ok? ==> forall s :: s in r.value ==> forall i, j :: 0 <= i < j < |r.value[s]| ==> |r.value[s][i]| < |r.value[s][j]|
  {
    var sorted := SortBy(strings, (x: string) => x);
    PairsComparable(strings, sorted);
    var diffs := Diffs(sorted);
    if diffs.Err? {
      return Err(diffs.exc);
    }
    SortedDistinctIncreasing(sorted);
    StrictlySortedDistinct(sorted);
    var m := PrefixMap(sorted, diffs.value);
    PrefixMapMeaning(strings, sorted, diffs.value, m);
    r := Ok(m);
  }

  /** A string that begins another has no unique prefix. */
  lemma {:induction false} PrefixOfAnotherHasNone(strings: seq<string>, s: string, t: string)
    requires t in strings && t != s && IsPrefix(s, t)
    ensures forall p :: !UniquePrefix(strings, s, p)
  {
    forall p | IsPrefix(p, s) && 0 < |p| < |s| ensures IsPrefix(p, t) {
      assert t[..|p|] == t[..|s|][..|p|];
    }
  }

  // ---------------------------------------------------------------
  // The alias-resolving dictionary

  /** {a: n for n, l in alias_map.items() for a in l}, the items in the
      dictionary's order: a later name wins an alias listed twice. */
  function AliasToName(aliasMap: seq<(string, seq<string>)>): (r: map<string, string>)
    ensures forall a :: a in r <==> exists i :: 0 <= i < |aliasMap| && a in aliasMap[i].1
    decreases |aliasMap|
  {
    if |aliasMap| == 0 then map[]
    else
      var init := aliasMap[..|aliasMap| - 1];
      var (name, aliases) := aliasMap[|aliasMap| - 1];
      var prev := AliasToName(init);
      assert forall i :: 0 <= i < |init| ==> init[i] == aliasMap[i];
      prev + map a | a in aliases :: name
  }

  /** An alias resolves to the last name listing it. */
  lemma {:induction false} AliasToNameLast(aliasMap: seq<(string, seq<string>)>, i: nat, a: string)
    requires i < |aliasMap| && a in aliasMap[i].1
    requires forall j :: i < j < |aliasMap| ==> a !in aliasMap[j].1
    ensures AliasToName(aliasMap)[a] == aliasMap[i].0
    decreases |aliasMap|
  {
    if i < |aliasMap| - 1 {
      var init := aliasMap[..|aliasMap| - 1];
      assert init[i] == aliasMap[i];
      AliasToNameLast(init, i, a);
    }
  }

  /** _SneakyDict: a dictionary with hidden alias keys, seen by lookup and
      membership but not by its length or iteration. */
  class SneakyDict<V> {
    var data: map<string, V>
    var aliases: map<string, string>

    constructor (data0: map<string, V>)
      ensures data == data0 && aliases == map[]
    {
      data := data0;
      aliases := map[];
    }

    /** self._aliases.get(key, key) */
    function Resolve(key: string): (k: string)
      reads this
      ensures key in aliases ==> k == aliases[key]
      ensures key !in aliases ==> k == key
    {
      if key in aliases then aliases[key] else key
    }

    /** __getitem__: the entry of the key the alias names, or KeyError for it. */
    function Get(key: string): (r: Result<V>)
      reads this
      ensures r.Ok? <==> Resolve(key) in data
      ensures r.Ok? ==> r.value == data[Resolve(key)]
      ensures r.Err? ==> r.exc == KeyError(Resolve(key))
    {
      var k := Resolve(key);
      if k in data then Ok(data[k]) else Err(KeyError(k))
    }

    /** __contains__ */
    function Contains(key: string): (r: bool)
      reads this
      ensures r <==> Get(key).Ok?
    {
      Resolve(key) in data
    }

    /** len() and iteration see only the real keys. */
    function Keys(): (r: set<string>)
      reads this
      ensures r == data.Keys
    {
      data.Keys
    }

    /** add_aliases: the aliases of each name point to it; the entries are
        untouched. */
    method AddAliases(aliasMap: seq<(string, seq<string>)>)
      modifies this
      ensures data == old(data)
      ensures aliases == old(aliases) + AliasToName(aliasMap)
    {
      aliases := aliases + AliasToName(aliasMap);
    }
  }

  /** After aliasing every unique prefix to its name, each such prefix looks
      up the entry of its name, and the real keys stay as they were. */
  lemma {:induction false} AliasLookup<V>(d: SneakyDict<V>, aliasMap: seq<(string, seq<string>)>, i: nat, a: string)
    requires i < |aliasMap| && a in aliasMap[i].1
    requires forall j :: i < j < |aliasMap| ==> a !in aliasMap[j].1
    requires d.aliases == AliasToName(aliasMap)
    ensures d.Resolve(a) == aliasMap[i].0
    ensures d.Get(a) == if aliasMap[i].0 in d.data then Ok(d.data[aliasMap[i].0]) else Err(KeyError(aliasMap[i].0))
  {
    AliasToNameLast(aliasMap, i, a);
  }
}
