/** yo/main.py: the ordering and merging of inherited instance profiles in
    load_config, and the argument decisions of the commands. */
module Cli {
  import opened Base
  import opened Text
  import opened Util
  import opened Api

  // ---------------------------------------------------------------
  // Instance-profile inheritance

  /** The keys of one `[instances.NAME]` section. */
  type Section = map<string, string>

  /** inheritance.get(x): the `inherit` value of section x; None for a
      section without one and for a name that is not a section. */
  function Parent(secs: map<string, Section>, x: string): Option<string> {
    if x in secs && "inherit" in secs[x] then Some(secs[x]["inherit"]) else None
  }

  /** The ancestor m steps up the inherit chain of x, if the chain is that long. */
  function Follow(secs: map<string, Section>, x: string, m: nat): Option<string>
    decreases m
  {
    if m == 0 then Some(x)
    else
      match Follow(secs, x, m - 1)
      case None => None
      case Some(y) => Parent(secs, y)
  }

  /** The inherit chain from s comes back to a name it has already passed. */
  ghost predicate CycleFrom(secs: map<string, Section>, s: string) {
    exists m: nat, n: nat :: m < n && Follow(secs, s, m).Some? && Follow(secs, s, n) == Follow(secs, s, m)
  }

  /** Every name's parent, when it has one, comes earlier. */
  predicate ParentsBefore(secs: map<string, Section>, order: seq<string>) {
    forall i :: 0 <= i < |order| && Parent(secs, order[i]).Some? ==> Parent(secs, order[i]).value in order[..i]
  }

  /** The names a chain walk can meet: the sections and their inherit values. */
  function Names(secs: map<string, Section>): set<string> {
    secs.Keys + set y | y in secs && "inherit" in secs[y] :: secs[y]["inherit"]
  }

  function Reversed(s: seq<string>): (r: seq<string>)
    ensures |r| == |s|
    ensures forall i :: 0 <= i < |s| ==> r[i] == s[|s| - 1 - i]
  {
    if |s| == 0 then [] else Reversed(s[1..]) + [s[0]]
  }

  const CircularError := YoExc("Circular dependency in instance profiles")

  /** The topological sort of load_config: for each section in turn, walk
      its inherit chain until a name already placed (or the chain's end),
      then place the walked names root first. A name met twice in one walk
      is a cycle. */
  method TopoSort(secs: map<string, Section>, ipSecs: seq<string>) returns (r: Result<seq<string>>)
    requires forall s :: s in ipSecs ==> s in secs
    ensures r.Err? ==> r == Err(CircularError)
    ensures r.Err? <==> exists s :: s in ipSecs && CycleFrom(secs, s)
    ensures r.Ok? ==> Distinct(r.value) && ParentsBefore(secs, r.value)
    ensures r.Ok? ==> forall s :: s in ipSecs ==> s in r.value
    ensures r.Ok? ==> Grouped(secs, ipSecs, |ipSecs|, r.value)
  {
    var seen: set<string> := {};
    var topoSort: seq<string> := [];
    for idx := 0 to |ipSecs|
      invariant Sorting(secs, ipSecs, idx, topoSort, seen)
    {
      var sec := ipSecs[idx];
      var visiting, curr, cycle := Walk(secs, sec, seen);
      if cycle {
        r := Err(CircularError);
        return;
      }
      SortStep(secs, ipSecs, idx, topoSort, seen, visiting, curr);
      topoSort := topoSort + Reversed(visiting);
      seen := seen + set x | x in visiting;
    }
    r := Ok(topoSort);
    forall s | s in ipSecs ensures !CycleFrom(secs, s) {
      OrderAcyclic(secs, topoSort, s);
    }
  }

  /** The sort's state after the first idx sections. */
  ghost predicate Sorting(secs: map<string, Section>, ss: seq<string>, idx: nat, order: seq<string>, seen: set<string>) {
    && Placed(secs, order, seen)
    && (forall j :: 0 <= j < idx && j < |ss| ==> ss[j] in seen)
    && Grouped(secs, ss, idx, order)
  }

  /** Placing the walk of section idx advances the sort's state. */
  lemma {:induction false} SortStep(secs: map<string, Section>, ss: seq<string>, idx: nat, order: seq<string>,
                                    seen: set<string>, visiting: seq<string>, curr: Option<string>)
    requires idx < |ss| && Sorting(secs, ss, idx, order, seen)
    requires Chain(secs, ss[idx], visiting, curr) && Distinct(visiting)
    requires forall x :: x in visiting ==> x !in seen
    requires curr.None? || curr.value in seen
    ensures Sorting(secs, ss, idx + 1, order + Reversed(visiting), seen + set x | x in visiting)
  {
    var order', seen' := order + Reversed(visiting), seen + set x | x in visiting;
    PlaceChain(secs, ss[idx], order, seen, visiting, curr);
    assert forall j :: 0 <= j < idx + 1 && j < |ss| ==> ss[j] in seen';
    GroupStep(secs, ss, idx, order, seen, visiting, curr);
  }

  /** x is on the inherit chain of one of the first n sections. */
  ghost predicate ReachedWithin(secs: map<string, Section>, ss: seq<string>, n: nat, x: string) {
    exists u, m: nat :: 0 <= u < n && u < |ss| && Follow(secs, ss[u], m) == Some(x)
  }

  /** The order holds only names on the chains of the first n sections, and
      for every t the names on the chains of the first t sections come
      before all others. With ParentsBefore this fixes the order: section by
      section, the names not yet placed on its chain, root first. */
  ghost predicate Grouped(secs: map<string, Section>, ss: seq<string>, n: nat, order: seq<string>) {
    && (forall x :: x in order ==> ReachedWithin(secs, ss, n, x))
    && forall t, i, j :: 0 <= t <= n && 0 <= i < j < |order| && ReachedWithin(secs, ss, t, order[j])
         ==> ReachedWithin(secs, ss, t, order[i])
  }

  /** A name on the chain of a placed section is placed: the order is
      closed under parents. */
  lemma {:induction false} WithinPlaced(secs: map<string, Section>, ss: seq<string>, t: nat, order: seq<string>, x: string)
    requires ParentsBefore(secs, order)
    requires forall u :: 0 <= u < t && u < |ss| ==> ss[u] in order
    requires ReachedWithin(secs, ss, t, x)
    ensures x in order
  {
    var u, m: nat :| 0 <= u < t && u < |ss| && Follow(secs, ss[u], m) == Some(x);
    FollowEarlier(secs, order, IndexOf(order, ss[u]), m);
  }

  /** Placing the walk of section n keeps the order grouped. */
  lemma {:induction false} GroupStep(secs: map<string, Section>, ss: seq<string>, n: nat, order: seq<string>,
                                     seen: set<string>, visiting: seq<string>, curr: Option<string>)
    requires n < |ss| && Placed(secs, order, seen) && Grouped(secs, ss, n, order)
    requires forall u :: 0 <= u < n ==> ss[u] in seen
    requires Chain(secs, ss[n], visiting, curr)
    requires forall x :: x in visiting ==> x !in seen
    ensures Grouped(secs, ss, n + 1, order + Reversed(visiting))
  {
    GroupMembers(secs, ss, n, order, visiting, curr);
    GroupOrder(secs, ss, n, order, visiting);
  }

  lemma {:induction false} GroupMembers(secs: map<string, Section>, ss: seq<string>, n: nat, order: seq<string>,
                                        visiting: seq<string>, curr: Option<string>)
    requires n < |ss| && forall x :: x in order ==> ReachedWithin(secs, ss, n, x)
    requires Chain(secs, ss[n], visiting, curr)
    ensures forall x :: x in order + Reversed(visiting) ==> ReachedWithin(secs, ss, n + 1, x)
  {
    var o := order + Reversed(visiting);
    var k := |visiting|;
    forall x | x in o ensures ReachedWithin(secs, ss, n + 1, x) {
      if x in order {
        var u, m: nat :| 0 <= u < n && u < |ss| && Follow(secs, ss[u], m) == Some(x);
        assert 0 <= u < n + 1 && Follow(secs, ss[u], m) == Some(x);
      } else {
        var p :| 0 <= p < |o| && o[p] == x;
        var q := k - 1 - (p - |order|);
        assert o[p] == visiting[q];
        ChainFollow(secs, ss[n], visiting, curr, q);
        assert 0 <= n < n + 1 && Follow(secs, ss[n], q) == Some(x);
      }
    }
  }

  lemma {:induction false} GroupOrder(secs: map<string, Section>, ss: seq<string>, n: nat, order: seq<string>,
                                      visiting: seq<string>)
    requires n < |ss| && ParentsBefore(secs, order)
    requires forall u :: 0 <= u < n ==> ss[u] in order
    requires forall x :: x in visiting ==> x !in order
    requires forall x :: x in order + Reversed(visiting) ==> ReachedWithin(secs, ss, n + 1, x)
    requires forall t, i, j ::
               0 <= t <= n && 0 <= i < j < |order| && ReachedWithin(secs, ss, t, order[j])
               ==> ReachedWithin(secs, ss, t, order[i])
    ensures forall t, i, j ::
              0 <= t <= n + 1 && 0 <= i < j < |order + Reversed(visiting)|
              && ReachedWithin(secs, ss, t, (order + Reversed(visiting))[j])
              ==> ReachedWithin(secs, ss, t, (order + Reversed(visiting))[i])
  {
    var o := order + Reversed(visiting);
    var k := |visiting|;
    forall t, i, j | 0 <= t <= n + 1 && 0 <= i < j < |o| && ReachedWithin(secs, ss, t, o[j])
      ensures ReachedWithin(secs, ss, t, o[i])
    {
      if t == n + 1 {
        assert o[i] in o;
      } else if j >= |order| {
        assert o[j] == visiting[k - 1 - (j - |order|)];
        WithinPlaced(secs, ss, t, order, o[j]);
        assert false;
      } else {
        assert o[i] == order[i] && o[j] == order[j];
      }
    }
  }

  /** The inner loop of the sort: walk the inherit chain from sec until its
      end or a name in seen, or until a name comes round again. */
  method Walk(secs: map<string, Section>, sec: string, seen: set<string>)
    returns (visiting: seq<string>, curr: Option<string>, cycle: bool)
    ensures cycle ==> CycleFrom(secs, sec)
    ensures !cycle ==> Chain(secs, sec, visiting, curr) && Distinct(visiting)
    ensures !cycle ==> (forall x :: x in visiting ==> x !in seen) && (curr.None? || curr.value in seen)
  {
    visiting := [];
    curr := Some(sec);
    ghost var names := Names(secs) + {sec};
    ParentIsName(secs, sec);
    while curr.Some? && curr.value !in seen
      invariant Chain(secs, sec, visiting, curr)
      invariant Distinct(visiting)
      invariant forall x :: x in visiting ==> x !in seen && x in names
      invariant curr.Some? ==> curr.value in names
      invariant |visiting| <= |names|
      decreases |names| - |visiting|
    {
      if curr.value in visiting {
        CycleWitness(secs, sec, visiting, curr);
        return visiting, curr, true;
      }
      ParentIsName(secs, curr.value);
      ChainStep(secs, sec, visiting, curr);
      DistinctAppend(visiting, curr.value);
      visiting := visiting + [curr.value];
      DistinctWithin(visiting, names);
      curr := Parent(secs, curr.value);
    }
    cycle := false;
  }

  lemma {:induction false} DistinctAppend(v: seq<string>, x: string)
    requires Distinct(v) && x !in v
    ensures Distinct(v + [x])
  {
    var w := v + [x];
    forall i, j | 0 <= i < j < |w| ensures w[i] != w[j] {
      assert w[i] == v[i];
      if j < |v| {
        assert w[j] == v[j];
      }
    }
  }

  /** A list without repeats drawn from a set is no longer than the set. */
  lemma {:induction false} DistinctWithin(v: seq<string>, u: set<string>)
    requires Distinct(v) && forall x :: x in v ==> x in u
    ensures |v| <= |u|
    decreases |v|
  {
    if |v| > 0 {
      var last := v[|v| - 1];
      var init := v[..|v| - 1];
      forall x | x in init ensures x in u - {last} {
        var k :| 0 <= k < |init| && init[k] == x;
        assert v[k] == x;
      }
      assert Distinct(init) by {
        forall i, j | 0 <= i < j < |init| ensures init[i] != init[j] {
          assert init[i] == v[i] && init[j] == v[j];
        }
      }
      DistinctWithin(init, u - {last});
    }
  }

  /** visiting is the walk from sec so far and curr the next name. */
  predicate Chain(secs: map<string, Section>, sec: string, visiting: seq<string>, curr: Option<string>) {
    && (|visiting| == 0 ==> curr == Some(sec))
    && (|visiting| > 0 ==> visiting[0] == sec && curr == Parent(secs, visiting[|visiting| - 1]))
    && forall k :: 0 <= k < |visiting| - 1 ==> Parent(secs, visiting[k]) == Some(visiting[k + 1])
  }

  lemma {:induction false} ChainStep(secs: map<string, Section>, sec: string, visiting: seq<string>, curr: Option<string>)
    requires Chain(secs, sec, visiting, curr) && curr.Some?
    ensures Chain(secs, sec, visiting + [curr.value], Parent(secs, curr.value))
  {
    var v := visiting + [curr.value];
    forall k | 0 <= k < |v| - 1 ensures Parent(secs, v[k]) == Some(v[k + 1]) {
      if k < |visiting| - 1 {
        assert v[k] == visiting[k] && v[k + 1] == visiting[k + 1];
      }
    }
  }

  lemma {:induction false} ParentIsName(secs: map<string, Section>, x: string)
    ensures Parent(secs, x).Some? ==> Parent(secs, x).value in Names(secs)
  {
    if Parent(secs, x).Some? {
      var p := secs[x]["inherit"];
      assert p in set y | y in secs && "inherit" in secs[y] :: secs[y]["inherit"];
    }
  }

  /** Along a walk, m steps from its start is its m-th name. */
  lemma {:induction false} ChainFollow(secs: map<string, Section>, sec: string, visiting: seq<string>, curr: Option<string>, m: nat)
    requires Chain(secs, sec, visiting, curr) && m <= |visiting|
    ensures m < |visiting| ==> Follow(secs, sec, m) == Some(visiting[m])
    ensures m == |visiting| ==> Follow(secs, sec, m) == curr
    decreases m
  {
    if m > 0 {
      ChainFollow(secs, sec, visiting, curr, m - 1);
    }
  }

  /** Meeting a walked name again witnesses a cycle from the section. */
  lemma {:induction false} CycleWitness(secs: map<string, Section>, sec: string, visiting: seq<string>, curr: Option<string>)
    requires Chain(secs, sec, visiting, curr) && curr.Some? && curr.value in visiting
    ensures CycleFrom(secs, sec)
  {
    var j :| 0 <= j < |visiting| && visiting[j] == curr.value;
    ChainFollow(secs, sec, visiting, curr, j);
    ChainFollow(secs, sec, visiting, curr, |visiting|);
    assert j < |visiting| && Follow(secs, sec, j).Some? && Follow(secs, sec, |visiting|) == Follow(secs, sec, j);
  }

  /** The sort's running state: seen holds exactly the placed names, which
      are distinct and parents-first. */
  ghost predicate Placed(secs: map<string, Section>, order: seq<string>, seen: set<string>)
  {
    && seen == (set x | x in order)
    && Distinct(order)
    && ParentsBefore(secs, order)
  }

  /** Placing a finished walk root first keeps the order distinct and
      parents first. */
  lemma {:induction false} PlaceChain(secs: map<string, Section>, sec: string, order: seq<string>, seen: set<string>,
                                      visiting: seq<string>, curr: Option<string>)
    requires Placed(secs, order, seen)
    requires Chain(secs, sec, visiting, curr) && Distinct(visiting)
    requires forall x :: x in visiting ==> x !in seen
    requires curr.None? || curr.value in seen
    ensures Placed(secs, order + Reversed(visiting), seen + set x | x in visiting)
    ensures sec in seen + set x | x in visiting
  {
    PlaceDistinct(order, seen, visiting);
    PlaceParents(secs, sec, order, seen, visiting, curr);
    PlaceNames(order, visiting);
    if |visiting| == 0 {
      assert sec in seen;
    } else {
      assert (order + Reversed(visiting))[|order| + |visiting| - 1] == sec;
    }
  }

  lemma {:induction false} PlaceDistinct(order: seq<string>, seen: set<string>, visiting: seq<string>)
    requires seen == set x | x in order
    requires Distinct(order) && Distinct(visiting)
    requires forall x :: x in visiting ==> x !in seen
    ensures Distinct(order + Reversed(visiting))
  {
    var o := order + Reversed(visiting);
    var n := |visiting|;
    forall i, j | 0 <= i < j < |o| ensures o[i] != o[j] {
      if j >= |order| {
        assert o[j] == visiting[n - 1 - (j - |order|)];
        if i >= |order| {
          assert o[i] == visiting[n - 1 - (i - |order|)];
        } else {
          assert o[i] in seen;
        }
      }
    }
  }

  lemma {:induction false} PlaceParents(secs: map<string, Section>, sec: string, order: seq<string>, seen: set<string>,
                                        visiting: seq<string>, curr: Option<string>)
    requires seen == set x | x in order
    requires ParentsBefore(secs, order)
    requires Chain(secs, sec, visiting, curr)
    requires curr.None? || curr.value in seen
    ensures ParentsBefore(secs, order + Reversed(visiting))
  {
    var o := order + Reversed(visiting);
    var n := |visiting|;
    forall i | 0 <= i < |o| && Parent(secs, o[i]).Some? ensures Parent(secs, o[i]).value in o[..i] {
      if i < |order| {
        assert o[..i] == order[..i];
      } else {
        var t := i - |order|;
        assert o[i] == visiting[n - 1 - t];
        if t == 0 {
          assert Parent(secs, o[i]) == curr;
          var k :| 0 <= k < |order| && order[k] == curr.value;
          assert o[k] == curr.value;
        } else {
          assert Parent(secs, visiting[n - 1 - t]) == Some(visiting[n - t]);
          assert o[i - 1] == visiting[n - t];
        }
      }
    }
  }

  lemma {:induction false} PlaceNames(order: seq<string>, visiting: seq<string>)
    ensures (set x | x in order + Reversed(visiting)) == (set x | x in order) + set x | x in visiting
  {
    var rv := Reversed(visiting);
    forall x | x in visiting ensures x in rv {
      var k :| 0 <= k < |visiting| && visiting[k] == x;
      assert rv[|visiting| - 1 - k] == x;
    }
    forall x | x in rv ensures x in visiting {
      var k :| 0 <= k < |rv| && rv[k] == x;
      assert visiting[|visiting| - 1 - k] == x;
    }
  }

  /** Every ancestor of a placed name was placed earlier, at least as many
      places earlier as it is steps up. */
  lemma {:induction false} FollowEarlier(secs: map<string, Section>, order: seq<string>, i: nat, m: nat)
    requires ParentsBefore(secs, order) && i < |order|
    requires Follow(secs, order[i], m).Some?
    ensures Follow(secs, order[i], m).value in order
    ensures IndexOf(order, Follow(secs, order[i], m).value) + m <= i
    decreases m
  {
    if m == 0 {
      IndexOfFirst(order, order[i], i);
    } else {
      FollowEarlier(secs, order, i, m - 1);
      var j := IndexOf(order, Follow(secs, order[i], m - 1).value);
      var p := Parent(secs, order[j]).value;
      assert p in order[..j];
      var k :| 0 <= k < j && order[k] == p;
      IndexOfFirst(order, p, k);
    }
  }

  /** Following an ancestor's chain continues the original chain. */
  lemma {:induction false} FollowAdd(secs: map<string, Section>, x: string, m: nat, k: nat)
    requires Follow(secs, x, m).Some?
    ensures Follow(secs, Follow(secs, x, m).value, k) == Follow(secs, x, m + k)
    decreases k
  {
    if k > 0 {
      FollowAdd(secs, x, m, k - 1);
    }
  }

  /** No name of a parents-first order reaches a cycle. */
  lemma {:induction false} OrderAcyclic(secs: map<string, Section>, order: seq<string>, s: string)
    requires ParentsBefore(secs, order) && s in order
    ensures !CycleFrom(secs, s)
  {
    if CycleFrom(secs, s) {
      var m: nat, n: nat :| m < n && Follow(secs, s, m).Some? && Follow(secs, s, n) == Follow(secs, s, m);
      var i := IndexOf(order, s);
      FollowEarlier(secs, order, i, m);
      var y := Follow(secs, s, m).value;
      var jy := IndexOf(order, y);
      FollowAdd(secs, s, m, n - m);
      FollowEarlier(secs, order, jy, n - m);
    }
  }

  /** What the profile loop keeps of a section's own keys: the inherit key
      is dropped when it names a parent. */
  function OwnKeys(section: Section, parent: Option<string>): (own: Section)
    ensures own.Keys <= section.Keys
    ensures forall k :: k in own ==> own[k] == section[k]
    ensures forall k :: k in section && k != "inherit" ==> k in own
  {
    if parent.Some? && parent.value != "" then section - {"inherit"} else section
  }

  /** InstanceProfile.from_dict and validate on the merged keys; the
      dataclass construction itself is not part of this model. */
  type Check = (string, Section) -> Outcome

  /** The profile loop of load_config: in topological order, a profile is its
      parent's keys overridden by its own. A name in the order that is not
      a section (an undefined parent) is a KeyError; a failed check stops
      the loop. */
  method LoadProfiles(secs: map<string, Section>, order: seq<string>, check: Check)
    returns (r: Result<map<string, Section>>)
    requires Distinct(order) && ParentsBefore(secs, order)
    ensures r.Ok? ==> forall x :: x in order ==> x in secs
    ensures r.Ok? ==> r.value.Keys == set x | x in order
    ensures r.Ok? ==> forall x :: x in order ==> check(x, r.value[x]) == Pass
    ensures r.Ok? ==> forall x :: x in order ==> Inherits(secs, r.value, x)
    ensures (exists x :: x in order && x !in secs) ==> r.Err?
    ensures r.Err? ==> exists k, loaded ::
              && 0 <= k < |order| && Loaded(secs, order, k, loaded, check)
              && (order[k] !in secs ==> r.exc == KeyError(order[k]))
              && (order[k] in secs ==> check(order[k], Merged(secs, loaded, order[k])) == Fail(r.exc))
  {
    var profiles: map<string, Section> := map[];
    for k := 0 to |order|
      invariant Loaded(secs, order, k, profiles, check)
    {
      var sec := order[k];
      if sec !in secs {
        r := Err(KeyError(sec));
        return;
      }
      var parent := Parent(secs, sec);
      var keys: Section := map[];
      if parent.Some? && parent.value != "" {
        keys := profiles[parent.value];
      }
      keys := keys + OwnKeys(secs[sec], parent);
      var o := check(sec, keys);
      assert keys == Merged(secs, profiles, sec);
      if o.Fail? {
        r := Err(o.exc);
        return;
      }
      LoadStep(secs, order, k, profiles, keys, check);
      profiles := profiles[sec := keys];
    }
    assert order[..|order|] == order;
    r := Ok(profiles);
  }

  /** The keys x's profile is built from: its parent's profile, when x
      has a parent, overridden by x's own keys. */
  function Merged(secs: map<string, Section>, profiles: map<string, Section>, x: string): Section
    requires x in secs
  {
    var parent := Parent(secs, x);
    var base := if parent.Some? && parent.value != "" && parent.value in profiles then profiles[parent.value] else map[];
    base + OwnKeys(secs[x], parent)
  }

  /** x's profile is its parent's profile overridden by x's own keys. */
  ghost predicate Inherits(secs: map<string, Section>, profiles: map<string, Section>, x: string) {
    && x in secs && x in profiles
    && var parent := Parent(secs, x);
    && (parent.Some? && parent.value != "" ==> parent.value in profiles)
    && profiles[x] == Merged(secs, profiles, x)
  }

  /** What the profile loop keeps true of the first k names. */
  ghost predicate Loaded(secs: map<string, Section>, order: seq<string>, k: nat, profiles: map<string, Section>, check: Check)
    requires k <= |order|
  {
    && profiles.Keys == (set x | x in order[..k])
    && forall x :: x in order[..k] ==> x in secs && check(x, profiles[x]) == Pass && Inherits(secs, profiles, x)
  }

  /** One turn of the profile loop keeps Loaded. */
  lemma {:induction false} LoadStep(secs: map<string, Section>, order: seq<string>, k: nat,
                                    profiles: map<string, Section>, keys: Section, check: Check)
    requires k < |order| && Distinct(order) && ParentsBefore(secs, order)
    requires Loaded(secs, order, k, profiles, check)
    requires order[k] in secs && check(order[k], keys) == Pass
    requires var parent := Parent(secs, order[k]);
      keys == (if parent.Some? && parent.value != "" then profiles[parent.value] else map[]) + OwnKeys(secs[order[k]], parent)
    ensures Loaded(secs, order, k + 1, profiles[order[k] := keys], check)
  {
    var sec := order[k];
    var p2 := profiles[sec := keys];
    assert order[..k + 1] == order[..k] + [sec];
    assert sec !in order[..k] by {
      forall j | 0 <= j < k ensures order[..k][j] != sec {
        assert order[j] != order[k];
      }
    }
    forall x | x in order[..k + 1] ensures x in secs && check(x, p2[x]) == Pass && Inherits(secs, p2, x) {
      if x != sec {
        assert x in order[..k];
        assert Inherits(secs, profiles, x);
      } else {
        var parent := Parent(secs, sec);
        if parent.Some? && parent.value != "" {
          assert parent.value in order[..k];
        }
      }
    }
  }

  /** A profile holds its own keys as written and its parent's other keys. */
  lemma {:induction false} InheritsOverride(secs: map<string, Section>, profiles: map<string, Section>, x: string, key: string)
    requires Inherits(secs, profiles, x)
    ensures key in secs[x] && key != "inherit" ==> key in profiles[x] && profiles[x][key] == secs[x][key]
    ensures Parent(secs, x).Some? && Parent(secs, x).value != "" && key !in secs[x] && key in profiles[Parent(secs, x).value]
      ==> key in profiles[x] && profiles[x][key] == profiles[Parent(secs, x).value][key]
  {
  }

  // ---------------------------------------------------------------
  // SingleInstanceCommand.arg_name

  /** The name a single-instance command acts on before any `user@` is
      split off: -n, else the positional name where the command takes one,
      else the command's own way (get_instance_name_arg, a parameter). */
  function ChosenName(name: Option<string>, namePos: Option<string>, positionalName: bool,
                      instanceNameArg: Option<string>): Option<string>
  {
    if name.Some? then name
    else if positionalName && namePos.Some? then namePos
    else instanceNameArg
  }

  /** `username, name = name.split("@")`: exactly one `@` unpacks into the
      user before it and the name after it; more raise ValueError. */
  function SplitUser(name: string): (r: Result<(string, string)>)
    requires '@' in name
    ensures r.Ok? <==> '@' !in name[IndexOf(name, '@') + 1..]
    ensures r.Ok? ==> r.value.0 + "@" + r.value.1 == name && '@' !in r.value.0 && '@' !in r.value.1
    ensures r.Err? ==> r == Err(ValueError("too many values to unpack (expected 2)"))
  {
    var parts := SplitOn(name, '@');
    var i := IndexOf(name, '@');
    assert parts == [name[..i]] + SplitOn(name[i + 1..], '@');
    if |parts| == 2 then
      JoinSplitOn(name, '@');
      assert Join(parts, "@") == parts[0] + "@" + parts[1];
      Ok((parts[0], parts[1]))
    else
      Err(ValueError("too many values to unpack (expected 2)"))
  }

  /** The command object; arg_name records the user it splits off. */
  class SingleInstanceCommand {
    var username: Option<string>

    constructor()
      ensures username == None
    {
      username := None;
    }

    /** arg_name: the chosen name, with a `user@` prefix moved into username. */
    method ArgName(name: Option<string>, namePos: Option<string>, positionalName: bool,
                   instanceNameArg: Option<string>) returns (r: Result<Option<string>>)
      modifies this
      ensures var n := ChosenName(name, namePos, positionalName, instanceNameArg);
        && (n.None? || '@' !in n.value ==> r == Ok(n) && username == None)
        && (r.Ok? && username.Some? ==>
              r.value.Some? && username.value + "@" + r.value.value == n.value
              && '@' !in username.value && '@' !in r.value.value)
        && (r.Err? ==>
              (n.Some? && '@' in n.value && '@' in n.value[IndexOf(n.value, '@') + 1..] && username == None))
        && (n.Some? && '@' in n.value && SplitUser(n.value).Ok? ==>
              r == Ok(Some(SplitUser(n.value).value.1)) && username == Some(SplitUser(n.value).value.0))
        && (n.Some? && '@' in n.value && SplitUser(n.value).Err? ==>
              r == Err(SplitUser(n.value).exc) && username == None)
    {
      username := None;
      var n := ChosenName(name, namePos, positionalName, instanceNameArg);
      if Truthy(n) && '@' in n.value {
        var split := SplitUser(n.value);
        if split.Err? {
          return Err(split.exc);
        }
        username := Some(split.value.0);
        return Ok(Some(split.value.1));
      }
      return Ok(n);
    }
  }

  // ---------------------------------------------------------------
  // MultiInstanceCommand.run

  /** The instance names a multi-instance command selects: exactly one of
      --all and a list of names, the names standardized and collected into
      a set. */
  function MultiInstanceNames(instances: seq<string>, all: bool, exactName: Option<bool>, config: Config)
    : (r: Result<set<string>>)
    ensures r.Err? <==> (|instances| > 0 <==> all)
    ensures |instances| > 0 && all ==> r == Err(YoExc("You cannot specify both --all and instance names"))
    ensures |instances| == 0 && !all ==> r == Err(YoExc("You need to specify either --all, or a list of instances"))
    ensures r.Ok? ==> forall x :: x in instances ==> StandardizeName(x, exactName, config) in r.value
    ensures r.Ok? ==> forall y :: y in r.value ==> exists x :: x in instances && StandardizeName(x, exactName, config) == y
  {
    if |instances| > 0 && all then Err(YoExc("You cannot specify both --all and instance names"))
    else if |instances| == 0 && !all then Err(YoExc("You need to specify either --all, or a list of instances"))
    else Ok(set x | x in instances :: StandardizeName(x, exactName, config))
  }

  /** Every selected name is already standardized: standardizing it again
      leaves it unchanged. */
  lemma {:induction false} MultiInstanceNamesStandard(instances: seq<string>, all: bool, exactName: Option<bool>,
                                                     config: Config, y: string)
    requires MultiInstanceNames(instances, all, exactName, config).Ok?
    requires y in MultiInstanceNames(instances, all, exactName, config).value
    ensures StandardizeName(y, exactName, config) == y
  {
    var x :| x in instances && StandardizeName(x, exactName, config) == y;
    StandardizeNameIdempotent(x, exactName, config);
  }

  // ---------------------------------------------------------------
  // LaunchCmd

  /** The wait-related launch arguments. */
  class LaunchArgs {
    var ssh: bool
    var waitSsh: bool
    var wait: bool

    constructor(ssh: bool, waitSsh: bool, wait: bool)
      ensures this.ssh == ssh && this.waitSsh == waitSsh && this.wait == wait
    {
      this.ssh := ssh;
      this.waitSsh := waitSsh;
      this.wait := wait;
    }

    /** The implications standardize_wait establishes. */
    predicate Consistent(tasks: bool)
      reads this
    {
      (ssh || tasks ==> waitSsh) && (waitSsh ==> wait)
    }

    /** standardize_wait: ssh or tasks turns on wait_ssh, and wait_ssh turns
        on wait; a flag that is on stays on. */
    method StandardizeWait(tasks: bool)
      modifies this
      ensures Consistent(tasks)
      ensures ssh == old(ssh)
      ensures waitSsh == (old(waitSsh) || ssh || tasks)
      ensures wait == (old(wait) || waitSsh)
      ensures old(Consistent(tasks)) ==> waitSsh == old(waitSsh) && wait == old(wait)
    {
      if ssh || tasks {
        waitSsh := true;
      }
      if waitSsh {
        wait := true;
      }
    }
  }

  /** An entry of the launch task list: a task named from the library, or
      one built with YoTask.create_from_string from a name and a script
      (the parse itself is TaskDef.CreateFromString). */
  datatype TaskRequest = Named(name: string) | FromScript(name: string, script: string)

  /** The packages of maybe_install_packages: the profile's, then each
      --install value split at runs of commas and whitespace. */
  function Packages(profileInstall: seq<string>, specs: seq<string>): (r: seq<string>)
    ensures |r| >= |profileInstall| + |specs|
    ensures r[..|profileInstall|] == profileInstall
    decreases |specs|
  {
    if |specs| == 0 then profileInstall
    else Packages(profileInstall, specs[..|specs| - 1]) + SplitRuns(specs[|specs| - 1], IsCommaOrSpace)
  }

  const InstallTask := "yo-install-packages"

  /** The script of the package-install task. */
  function InstallScript(packages: seq<string>): string {
    "MAYBE_DEPENDS_ON networking\nPKG_INSTALL " + Join(packages, " ")
  }

  /** maybe_install_packages: when there is any package, one install task is
      appended to the task list; otherwise the list is unchanged. */
  method MaybeInstallPackages(profileInstall: seq<string>, specs: seq<string>, tasks: seq<TaskRequest>)
    returns (tasks': seq<TaskRequest>)
    ensures var packages := Packages(profileInstall, specs);
      && (packages == [] ==> tasks' == tasks)
      && (packages != [] ==> tasks' == tasks + [FromScript(InstallTask, InstallScript(packages))])
  {
    var packages := profileInstall;
    for i := 0 to |specs|
      invariant packages == Packages(profileInstall, specs[..i])
    {
      assert specs[..i + 1][..i] == specs[..i];
      packages := packages + SplitRuns(specs[i], IsCommaOrSpace);
    }
    assert specs[..|specs|] == specs;
    tasks' := tasks;
    if packages != [] {
      tasks' := tasks' + [FromScript(InstallTask, InstallScript(packages))];
    }
  }

  /** Any --install value, even an empty one, yields at least one package
      word, so the install task is added; with neither a profile list nor
      --install values it is not. */
  lemma {:induction false} PackagesEmpty(profileInstall: seq<string>, specs: seq<string>)
    ensures Packages(profileInstall, specs) == [] <==> profileInstall == [] && specs == []
  {
    if |specs| > 0 {
      assert |SplitRuns(specs[|specs| - 1], IsCommaOrSpace)| >= 1;
    }
  }

  /** The packages taken from --install values are free of commas and
      whitespace; the profile's entries are kept as they are, after which
      each --install value contributes its own words. */
  lemma {:induction false} PackagesWords(profileInstall: seq<string>, specs: seq<string>, k: nat, i: nat)
    requires |profileInstall| <= k < |Packages(profileInstall, specs)|
    requires i < |Packages(profileInstall, specs)[k]|
    ensures !IsCommaOrSpace(Packages(profileInstall, specs)[k][i])
    decreases |specs|
  {
    var pre := Packages(profileInstall, specs[..|specs| - 1]);
    var last := SplitRuns(specs[|specs| - 1], IsCommaOrSpace);
    if k < |pre| {
      PackagesWords(profileInstall, specs[..|specs| - 1], k, i);
    } else {
      assert Packages(profileInstall, specs)[k] == last[k - |pre|];
    }
  }

  // ---------------------------------------------------------------
  // TerminateCmd

  /** should_preserve_volume: the command-line choice, else the
      configuration's, else False. */
  function ShouldPreserveVolume(arg: Option<bool>, config: Option<bool>): (r: bool)
    ensures arg.Some? ==> r == arg.value
    ensures arg.None? ==> (r <==> config == Some(true))
  {
    if arg.Some? then arg.value
    else if config.Some? then config.value
    else false
  }

  /** The names of the termination-protected instances, in list order. */
  function ProtectedNames(instances: seq<Instance>): (r: seq<string>)
    ensures |r| <= |instances|
    ensures r == [] <==> forall i :: 0 <= i < |instances| ==> !instances[i].terminationProtected
    ensures forall x :: x in r <==> exists i :: 0 <= i < |instances| && instances[i].terminationProtected && instances[i].name == x
    decreases |instances|
  {
    if |instances| == 0 then []
    else
      var rest := ProtectedNames(instances[..|instances| - 1]);
      var last := instances[|instances| - 1];
      assert forall i :: 0 <= i < |instances| - 1 ==> instances[..|instances| - 1][i] == instances[i];
      if last.terminationProtected then rest + [last.name] else rest
  }

  /** The refusal for the protected names, one or several. */
  function ProtectedError(protected: seq<string>): Exc
    requires |protected| >= 1
  {
    if |protected| == 1 then YoExc("instance " + protected[0] + " is termination protected")
    else YoExc("instances " + Join(protected, ", ") + " are termination protected")
  }

  /** run_for_all's protection check: it refuses, before any confirmation,
      exactly when some instance is termination-protected, naming them all. */
  method CheckTerminationProtection(instances: seq<Instance>) returns (r: Outcome)
    ensures r.Pass? <==> forall i :: 0 <= i < |instances| ==> !instances[i].terminationProtected
    ensures r.Fail? ==> |ProtectedNames(instances)| >= 1 && r.exc == ProtectedError(ProtectedNames(instances))
  {
    var protected: seq<string> := [];
    for k := 0 to |instances|
      invariant protected == ProtectedNames(instances[..k])
    {
      assert instances[..k + 1][..k] == instances[..k];
      if instances[k].terminationProtected {
        protected := protected + [instances[k].name];
      }
    }
    assert instances[..|instances|] == instances;
    if |protected| == 0 {
      return Pass;
    }
    assert protected[0] in protected;
    return Fail(ProtectedError(protected));
  }
}
