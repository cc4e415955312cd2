/** TaskPlan: the tasks to run on one instance, closed under their
    dependencies, with prerequisites inserted, conflicts rejected, an
    execution order in which every task follows its dependencies, and the
    files every task sends prepared. */
module Plan {
  import opened Base
  import opened Text
  import opened Paths
  import opened Globs
  import opened TaskDef
  import opened Tarball
  import opened TaskStatus

  // ---------------------------------------------------------------
  // Loading tasks

  /** What YoTask.load reads: for each task name found in a task directory,
      the path and contents of the first file of that name, together with
      the catalog of task names, the home directory and the shell tokenizer
      that the directive parser uses. */
  datatype Env = Env(scripts: map<string, (string, string)>, allTasks: seq<string>, home: string, tokenize: Tokenizer)

  /** A requested task: a name to load, or a task given as an object. */
  datatype TaskRef = Named(name: string) | Given(task: Task)

  function RefName(r: TaskRef): string {
    match r
    case Named(n) => n
    case Given(t) => t.name
  }

  function NotFoundError(name: string): Exc {
    YoExc("error: Script for task " + name + " not found")
  }

  /** YoTask.load(name): the task parsed from the script of that name. */
  function LoadTask(env: Env, name: string): (r: Result<Task>)
    ensures name !in env.scripts ==> r == Err(NotFoundError(name))
    ensures r.Ok? ==> name in env.scripts && r.value.name == name
  {
    if name !in env.scripts then Err(NotFoundError(name))
    else
      var (path, script) := env.scripts[name];
      var lines := SplitOn(script, '\n');
      var parsed := ParseAll(lines, Parser(env.allTasks, env.home, env.tokenize));
      if parsed.Ok? then Ok(TaskOf(name, path, lines, parsed.value)) else Err(parsed.exc)
  }

  /** name_to_task as a dict: its keys in insertion order, each once, and
      every key mapped to the task of that name. */
  ghost predicate Keyed(names: seq<string>, m: map<string, Task>) {
    KeyOrder(names, m) && NamesMatch(m)
  }

  /** The keys of `m`, each once, in the order of `names`. */
  ghost predicate KeyOrder<K(!new), V>(names: seq<K>, m: map<K, V>) {
    Distinct(names) && forall k :: k in m <==> k in names
  }


  predicate NamesMatch(m: map<string, Task>) {
    forall k :: k in m ==> m[k].name == k
  }

  /** Every dependency of a task in the plan is in the plan. */
  predicate DepsClosed(m: map<string, Task>) {
    forall k, d :: k in m && d in m[k].dependencies ==> d in m
  }

  ghost predicate Closed(names: seq<string>, m: map<string, Task>) {
    Keyed(names, m) && DepsClosed(m)
  }

  lemma {:induction false} SubsetCard<T>(a: set<T>, b: set<T>)
    requires a <= b
    ensures |a| <= |b|
  {
    if a != {} {
      var x :| x in a;
      SubsetCard(a - {x}, b - {x});
    }
  }

  /** Adding an element of `s` to `k` shrinks what is left of `s`. */
  lemma {:induction false} ShrinkByOne<T>(s: set<T>, k: set<T>, k': set<T>, x: T)
    requires x in s && x !in k && k + {x} <= k'
    ensures |s - k'| < |s - k|
  {
    var big := s - k;
    var small := big - {x};
    assert big == small + {x};
    SubsetCard(s - k', small);
  }

  /** Loading only ever adds keys, and a longer key order means a key was
      added, which leaves fewer names of `s` to load. */
  lemma {:induction false} Progress<K(!new), V>(s: set<K>, names: seq<K>, m: map<K, V>, names': seq<K>, m': map<K, V>)
    requires KeyOrder(names, m) && KeyOrder(names', m') && names <= names' && m.Keys <= m'.Keys
    requires forall k :: k in m' && k !in m ==> k in s
    ensures |s - m'.Keys| <= |s - m.Keys|
    ensures |names'| == |names| || |s - m'.Keys| < |s - m.Keys|
  {
    SubsetCard(s - m'.Keys, s - m.Keys);
    if |names'| > |names| {
      var x := names'[|names|];
      assert x in m';
      assert forall j :: 0 <= j < |names| ==> names'[j] == names[j];
      assert x !in names;
      ShrinkByOne(s, m.Keys, m'.Keys, x);
    }
  }

  /** d[k] = v on a dict: a new key goes to the end of the key order. */
  function Put<K(!new), V>(names: seq<K>, m: map<K, V>, k: K, v: V): (r: (seq<K>, map<K, V>))
    requires KeyOrder(names, m)
    ensures KeyOrder(r.0, r.1) && names <= r.0 && r.1 == m[k := v]
  {
    if k in m then (names, m[k := v]) else (names + [k], m[k := v])
  }

  /** The entry that decides d[k] after assigning every entry of `refs` in
      turn: the last one whose key is k. */
  ghost predicate LastFor<R, K, V>(refs: seq<R>, key: R -> K, resolve: R -> Result<V>, i: int, k: K, v: V) {
    && 0 <= i < |refs|
    && key(refs[i]) == k
    && resolve(refs[i]) == Ok(v)
    && forall j :: i < j < |refs| ==> key(refs[j]) != k
  }

  /** The first loop of __init__, for any way of turning a requested entry
      into a key and a value: every entry is resolved in turn and stored
      under its key, the later of two entries for one key wins, and the
      first entry that cannot be resolved raises. */
  method CollectRequested<R, K(!new), V>(refs: seq<R>, key: R -> K, resolve: R -> Result<V>)
    returns (r: Result<(seq<K>, map<K, V>)>)
    ensures r.Ok? ==> KeyOrder(r.value.0, r.value.1)
    ensures r.Ok? ==> forall i :: 0 <= i < |refs| ==> key(refs[i]) in r.value.1
    ensures r.Ok? ==> forall k :: k in r.value.1 ==> exists i :: LastFor(refs, key, resolve, i, k, r.value.1[k])
    ensures r.Ok? <==> forall i :: 0 <= i < |refs| ==> resolve(refs[i]).Ok?
    ensures r.Err? ==> exists i :: && 0 <= i < |refs| && resolve(refs[i]) == Err(r.exc)
                                   && forall j :: 0 <= j < i ==> resolve(refs[j]).Ok?
  {
    var names: seq<K> := [];
    var m: map<K, V> := map[];
    var i := 0;
    while i < |refs|
      invariant 0 <= i <= |refs|
      invariant KeyOrder(names, m)
      invariant forall j :: 0 <= j < i ==> resolve(refs[j]).Ok? && key(refs[j]) in m
      invariant forall k :: k in m ==> exists j :: LastFor(refs[..i], key, resolve, j, k, m[k])
    {
      var v := resolve(refs[i]);
      if v.Err? {
        return Err(v.exc);
      }
      ghost var m0 := m;
      var put := Put(names, m, key(refs[i]), v.value);
      names, m := put.0, put.1;
      ghost var seen := refs[..i + 1];
      forall k | k in m ensures exists j :: LastFor(seen, key, resolve, j, k, m[k]) {
        if k == key(refs[i]) {
          assert LastFor(seen, key, resolve, i, k, m[k]);
        } else {
          var j :| LastFor(refs[..i], key, resolve, j, k, m0[k]);
          assert LastFor(seen, key, resolve, j, k, m[k]);
        }
      }
      i := i + 1;
    }
    assert refs[..i] == refs;
    return Ok((names, m));
  }

  predicate DepsIn<K, V>(deps: seq<K>, m: map<K, V>) {
    forall d :: d in deps ==> d in m
  }

  /** Loading one task's missing dependencies, in order, each appended to
      the work list. */
  method LoadMissing<K(!new), V>(deps: seq<K>, names: seq<K>, m: map<K, V>, load: K -> Result<V>)
    returns (r: Result<(seq<K>, map<K, V>)>)
    requires KeyOrder(names, m)
    ensures r.Ok? ==> KeyOrder(r.value.0, r.value.1) && names <= r.value.0
    ensures r.Ok? ==> forall k :: k in m ==> k in r.value.1 && r.value.1[k] == m[k]
    ensures r.Ok? ==> forall k :: k in r.value.1 && k !in m ==> load(k) == Ok(r.value.1[k])
    ensures r.Ok? ==> DepsIn(deps, r.value.1)
    ensures r.Err? ==> exists d :: d in deps && d !in m && load(d) == Err(r.exc)
  {
    var ns, mm := names, m;
    var i := 0;
    while i < |deps|
      invariant 0 <= i <= |deps|
      invariant KeyOrder(ns, mm) && names <= ns
      invariant m.Keys <= mm.Keys
      invariant forall k :: k in m ==> mm[k] == m[k]
      invariant forall k :: k in mm && k !in m ==> load(k) == Ok(mm[k])
      invariant DepsIn(deps[..i], mm)
    {
      var d := deps[i];
      assert deps[..i + 1] == deps[..i] + [d];
      if d !in mm {
        var loaded := load(d);
        if loaded.Err? {
          return Err(loaded.exc);
        }
        ns, mm := ns + [d], mm[d := loaded.value];
      }
      i := i + 1;
    }
    assert deps[..i] == deps;
    return Ok((ns, mm));
  }

  /** The entries before position i of the work list have all their
      dependencies loaded. */
  ghost predicate DoneUpTo<K(!new), V>(names: seq<K>, m: map<K, V>, depsOf: V -> seq<K>, i: nat)
    requires i <= |names| && KeyOrder(names, m)
  {
    forall j :: 0 <= j < i ==> DepsIn(depsOf(m[names[j]]), m)
  }

  lemma {:induction false} DoneStep<K(!new), V>(names: seq<K>, m: map<K, V>, names': seq<K>, m': map<K, V>,
                                               depsOf: V -> seq<K>, i: nat)
    requires KeyOrder(names, m) && KeyOrder(names', m') && names <= names' && i < |names|
    requires forall k :: k in m ==> k in m' && m'[k] == m[k]
    requires DoneUpTo(names, m, depsOf, i) && DepsIn(depsOf(m[names[i]]), m')
    ensures DoneUpTo(names', m', depsOf, i + 1)
  {
    forall j | 0 <= j < i + 1 ensures DepsIn(depsOf(m'[names'[j]]), m') {
      assert names'[j] == names[j];
      if j < i {
        assert DepsIn(depsOf(m[names[j]]), m);
      }
    }
  }

  /** Every dependency of a value in the map is a key. */
  ghost predicate ClosedBy<K(!new), V>(m: map<K, V>, depsOf: V -> seq<K>) {
    forall k :: k in m ==> DepsIn(depsOf(m[k]), m)
  }

  lemma {:induction false} DoneClosed<K(!new), V>(names: seq<K>, m: map<K, V>, depsOf: V -> seq<K>)
    requires KeyOrder(names, m) && DoneUpTo(names, m, depsOf, |names|)
    ensures ClosedBy(m, depsOf)
  {
    forall k | k in m ensures DepsIn(depsOf(m[k]), m) {
      var j :| 0 <= j < |names| && names[j] == k;
      assert DepsIn(depsOf(m[names[j]]), m);
    }
  }

  /** The work-list loop of __init__: every entry on the list, including
      those appended while it runs, has its missing dependencies loaded.
      Only keys of `loadable` can be loaded, which bounds the loop. */
  method LoadDependencies<K(!new), V>(names: seq<K>, m: map<K, V>, load: K -> Result<V>, depsOf: V -> seq<K>,
                                      ghost loadable: set<K>)
    returns (r: Result<(seq<K>, map<K, V>)>)
    requires KeyOrder(names, m)
    requires forall k :: load(k).Ok? ==> k in loadable
    ensures r.Ok? ==> KeyOrder(r.value.0, r.value.1) && ClosedBy(r.value.1, depsOf) && names <= r.value.0
    ensures r.Ok? ==> forall k :: k in m ==> k in r.value.1 && r.value.1[k] == m[k]
    ensures r.Ok? ==> forall k :: k in r.value.1 && k !in m ==> load(k) == Ok(r.value.1[k])
    ensures r.Err? ==> exists d :: load(d) == Err(r.exc)
  {
    var ns, mm := names, m;
    var i := 0;
    while i < |ns|
      invariant 0 <= i <= |ns|
      invariant KeyOrder(ns, mm) && names <= ns
      invariant forall k :: k in m ==> k in mm && mm[k] == m[k]
      invariant forall k :: k in mm && k !in m ==> load(k) == Ok(mm[k])
      invariant DoneUpTo(ns, mm, depsOf, i)
      decreases |loadable - mm.Keys|, |ns| - i
    {
      var step := LoadMissing(depsOf(mm[ns[i]]), ns, mm, load);
      if step.Err? {
        return Err(step.exc);
      }
      Progress(loadable, ns, mm, step.value.0, step.value.1);
      DoneStep(ns, mm, step.value.0, step.value.1, depsOf, i);
      ns, mm := step.value.0, step.value.1;
      i := i + 1;
    }
    DoneClosed(ns, mm, depsOf);
    return Ok((ns, mm));
  }

  // ---------------------------------------------------------------
  // Prerequisites and conflicts

  /** What the prerequisite pass uses of a task: its name, the tasks it is
      a prerequisite for, the tasks it conflicts with, its dependencies, and
      insert_prereq. */
  datatype TaskOps<!K, !V> = TaskOps(nameOf: V -> K, prereqsOf: V -> seq<K>, conflictsOf: V -> seq<K>,
                                   depsOf: V -> seq<K>, insert: (V, K) -> V)

  /** insert_prereq appends one dependency and leaves the name and the two
      relations read here alone. */
  ghost predicate Appends<K(!new), V(!new)>(ops: TaskOps<K, V>) {
    forall v, o :: && ops.depsOf(ops.insert(v, o)) == ops.depsOf(v) + [o]
                   && Same(ops, v, ops.insert(v, o))
  }

  predicate Same<K(==), V>(ops: TaskOps<K, V>, v: V, w: V) {
    && ops.nameOf(w) == ops.nameOf(v)
    && ops.prereqsOf(w) == ops.prereqsOf(v)
    && ops.conflictsOf(w) == ops.conflictsOf(v)
  }

  /** insert_prereq applied for each of `others` in turn. */
  function InsertAll<K(!new), V(!new)>(ops: TaskOps<K, V>, v: V, others: seq<K>): (r: V)
    requires Appends(ops)
    ensures ops.depsOf(r) == ops.depsOf(v) + others && Same(ops, v, r)
  {
    if |others| == 0 then v
    else ops.insert(InsertAll(ops, v, others[..|others| - 1]), others[|others| - 1])
  }

  lemma {:induction false} InsertAllConcat<K(!new), V(!new)>(ops: TaskOps<K, V>, v: V, a: seq<K>, b: seq<K>)
    requires Appends(ops)
    ensures InsertAll(ops, InsertAll(ops, v, a), b) == InsertAll(ops, v, a + b)
  {
    if |b| > 0 {
      InsertAllConcat(ops, v, a, b[..|b| - 1]);
      assert (a + b)[..|a + b| - 1] == a + b[..|b| - 1];
    } else {
      assert a + b == a;
    }
  }

  /** The number of times x occurs in s. */
  function Count<K(==)>(s: seq<K>, x: K): nat {
    if |s| == 0 then 0 else Count(s[..|s| - 1], x) + (if s[|s| - 1] == x then 1 else 0)
  }

  function Repeat<K>(x: K, n: nat): (r: seq<K>)
    ensures |r| == n && forall i :: 0 <= i < n ==> r[i] == x
  {
    if n == 0 then [] else Repeat(x, n - 1) + [x]
  }

  lemma {:induction false} CountIn<K>(s: seq<K>, x: K)
    ensures Count(s, x) > 0 <==> x in s
  {
    if |s| > 0 {
      CountIn(s[..|s| - 1], x);
      assert s == s[..|s| - 1] + [s[|s| - 1]];
    }
  }

  /** The inner `for name in task.prereq_for` loop: every target that is in
      the plan gets `from` inserted as a prerequisite, once per mention. */
  function ApplyPrereqs<K(!new), V(!new)>(ops: TaskOps<K, V>, m: map<K, V>, from: K, targets: seq<K>): (r: map<K, V>)
    requires Appends(ops)
    ensures r.Keys == m.Keys
  {
    if |targets| == 0 then m
    else
      var prev := ApplyPrereqs(ops, m, from, targets[..|targets| - 1]);
      var t := targets[|targets| - 1];
      if t in prev then prev[t := ops.insert(prev[t], from)] else prev
  }

  /** Each task in the plan gets `from` once per mention among the targets. */
  lemma {:induction false} ApplyPrereqsInserts<K(!new), V(!new)>(ops: TaskOps<K, V>, m: map<K, V>, from: K, targets: seq<K>, k: K)
    requires Appends(ops) && k in m
    ensures ApplyPrereqs(ops, m, from, targets)[k] == InsertAll(ops, m[k], Repeat(from, Count(targets, k)))
  {
    if |targets| > 0 {
      ApplyPrereqsInserts(ops, m, from, targets[..|targets| - 1], k);
    }
  }

  /** The first of `conflicts` that is in the plan. */
  function FirstConflict<K(!new)>(keys: set<K>, conflicts: seq<K>): (r: Option<K>)
    ensures r.None? <==> forall c :: c in conflicts ==> c !in keys
    ensures r.Some? ==> exists i :: && 0 <= i < |conflicts| && conflicts[i] == r.value && r.value in keys
                                    && forall j :: 0 <= j < i ==> conflicts[j] !in keys
  {
    if |conflicts| == 0 then None
    else if conflicts[0] in keys then Some(conflicts[0])
    else
      var r := FirstConflict(keys, conflicts[1..]);
      assert forall j :: 1 <= j < |conflicts| ==> conflicts[j] == conflicts[1..][j - 1];
      r
  }

  /** _prepare_prereqs_check_conflicts over `names`, in order: the new map,
      and the first conflict found as (task, name), at which the pass stops
      with the insertions made so far kept. */
  function PrereqPass<K(!new), V(!new)>(ops: TaskOps<K, V>, names: seq<K>, m: map<K, V>): (r: (map<K, V>, Option<(K, K)>))
    requires Appends(ops) && DepsIn(names, m)
    ensures r.0.Keys == m.Keys
    decreases |names|
  {
    if |names| == 0 then (m, None)
    else
      var task := m[names[0]];
      var m1 := ApplyPrereqs(ops, m, ops.nameOf(task), ops.prereqsOf(task));
      var c := FirstConflict(m1.Keys, ops.conflictsOf(task));
      if c.Some? then (m1, Some((ops.nameOf(task), c.value)))
      else PrereqPass(ops, names[1..], m1)
  }

  /** Inserting prerequisites leaves every task's name and relations alone. */
  lemma {:induction false} ApplyPrereqsSame<K(!new), V(!new)>(ops: TaskOps<K, V>, m: map<K, V>, from: K, targets: seq<K>, k: K)
    requires Appends(ops) && k in m
    ensures Same(ops, m[k], ApplyPrereqs(ops, m, from, targets)[k])
  {
    ApplyPrereqsInserts(ops, m, from, targets, k);
  }

  /** The pass leaves every task's name and relations alone. */
  lemma {:induction false} PrereqPassSame<K(!new), V(!new)>(ops: TaskOps<K, V>, names: seq<K>, m: map<K, V>, k: K)
    requires Appends(ops) && DepsIn(names, m) && k in m
    ensures Same(ops, m[k], PrereqPass(ops, names, m).0[k])
    decreases |names|
  {
    if |names| > 0 {
      var task := m[names[0]];
      var m1 := ApplyPrereqs(ops, m, ops.nameOf(task), ops.prereqsOf(task));
      ApplyPrereqsSame(ops, m, ops.nameOf(task), ops.prereqsOf(task), k);
      if FirstConflict(m1.Keys, ops.conflictsOf(task)).None? {
        PrereqPassSame(ops, names[1..], m1, k);
      }
    }
  }

  /** The names of the tasks among `names` that declare themselves a
      prerequisite of p, in order, once per mention. */
  function Askers<K(!new), V>(ops: TaskOps<K, V>, names: seq<K>, m: map<K, V>, p: K): seq<K>
    requires DepsIn(names, m)
    decreases |names|
  {
    if |names| == 0 then []
    else
      var task := m[names[0]];
      Repeat(ops.nameOf(task), Count(ops.prereqsOf(task), p)) + Askers(ops, names[1..], m, p)
  }

  /** Askers depends only on the names and the prerequisite lists. */
  lemma {:induction false} AskersSame<K(!new), V>(ops: TaskOps<K, V>, names: seq<K>, m: map<K, V>, m': map<K, V>, p: K)
    requires DepsIn(names, m) && DepsIn(names, m') && forall x :: x in names ==> Same(ops, m[x], m'[x])
    ensures Askers(ops, names, m', p) == Askers(ops, names, m, p)
    decreases |names|
  {
    if |names| > 0 {
      AskersSame(ops, names[1..], m, m', p);
    }
  }

  /** Without a conflict, each task's dependencies are the old ones followed
      by the names of the tasks declaring themselves its prerequisite. */
  lemma {:induction false} PrereqPassInserts<K(!new), V(!new)>(ops: TaskOps<K, V>, names: seq<K>, m: map<K, V>, p: K)
    requires Appends(ops) && DepsIn(names, m) && p in m
    requires PrereqPass(ops, names, m).1.None?
    ensures PrereqPass(ops, names, m).0[p] == InsertAll(ops, m[p], Askers(ops, names, m, p))
    decreases |names|
  {
    if |names| == 0 {
      assert InsertAll(ops, m[p], []) == m[p];
    } else {
      var task := m[names[0]];
      var m1 := ApplyPrereqs(ops, m, ops.nameOf(task), ops.prereqsOf(task));
      var added := Repeat(ops.nameOf(task), Count(ops.prereqsOf(task), p));
      PrereqPassInserts(ops, names[1..], m1, p);
      forall x | x in names[1..] ensures Same(ops, m[x], m1[x]) {
        ApplyPrereqsSame(ops, m, ops.nameOf(task), ops.prereqsOf(task), x);
      }
      AskersSame(ops, names[1..], m, m1, p);
      ApplyPrereqsInserts(ops, m, ops.nameOf(task), ops.prereqsOf(task), p);
      InsertAllConcat(ops, m[p], added, Askers(ops, names[1..], m, p));
    }
  }

  /** The conflict the task named x reports: its name and the first of its
      conflicts that is in the plan, if any. */
  function ConflictPair<K(!new), V>(ops: TaskOps<K, V>, m: map<K, V>, x: K): Option<(K, K)>
    requires x in m
  {
    match FirstConflict(m.Keys, ops.conflictsOf(m[x]))
    case None => None
    case Some(c) => Some((ops.nameOf(m[x]), c))
  }

  /** The conflict of the first task in `names` that has one. */
  function FirstPair<K(!new), V>(ops: TaskOps<K, V>, m: map<K, V>, names: seq<K>): (r: Option<(K, K)>)
    requires DepsIn(names, m)
    ensures r.None? <==> forall x :: x in names ==> ConflictPair(ops, m, x).None?
    ensures r.Some? ==> exists x :: x in names && ConflictPair(ops, m, x) == r
    decreases |names|
  {
    if |names| == 0 then None
    else if ConflictPair(ops, m, names[0]).Some? then ConflictPair(ops, m, names[0])
    else
      assert names == [names[0]] + names[1..];
      FirstPair(ops, m, names[1..])
  }

  /** Conflicts depend only on the keys and each task's conflict list. */
  lemma {:induction false} FirstPairSame<K(!new), V>(ops: TaskOps<K, V>, m: map<K, V>, m': map<K, V>, names: seq<K>)
    requires DepsIn(names, m) && m'.Keys == m.Keys && forall x :: x in names ==> Same(ops, m[x], m'[x])
    ensures FirstPair(ops, m', names) == FirstPair(ops, m, names)
    decreases |names|
  {
    if |names| > 0 {
      FirstPairSame(ops, m, m', names[1..]);
    }
  }

  /** The pass stops at exactly the conflict of the first task, in key
      order, that names a task of the plan among its conflicts. */
  lemma {:induction false} PrereqPassConflict<K(!new), V(!new)>(ops: TaskOps<K, V>, names: seq<K>, m: map<K, V>)
    requires Appends(ops) && DepsIn(names, m)
    ensures PrereqPass(ops, names, m).1 == FirstPair(ops, m, names)
    decreases |names|
  {
    if |names| > 0 {
      var task := m[names[0]];
      var m1 := ApplyPrereqs(ops, m, ops.nameOf(task), ops.prereqsOf(task));
      PrereqPassConflict(ops, names[1..], m1);
      forall x | x in names[1..] ensures Same(ops, m[x], m1[x]) {
        ApplyPrereqsSame(ops, m, ops.nameOf(task), ops.prereqsOf(task), x);
      }
      FirstPairSame(ops, m, m1, names[1..]);
    }
  }

  /** Preparing twice is not the same as preparing once: a second pass
      inserts every prerequisite again. */
  lemma {:induction false} PrereqPassTwice<K(!new), V(!new)>(ops: TaskOps<K, V>, names: seq<K>, m: map<K, V>, p: K)
    requires Appends(ops) && DepsIn(names, m) && p in m
    requires PrereqPass(ops, names, m).1.None?
    ensures var once := PrereqPass(ops, names, m).0;
      && PrereqPass(ops, names, once).1.None?
      && PrereqPass(ops, names, once).0[p] == InsertAll(ops, m[p], Askers(ops, names, m, p) + Askers(ops, names, m, p))
  {
    var once := PrereqPass(ops, names, m).0;
    forall x | x in m ensures Same(ops, m[x], once[x]) {
      PrereqPassSame(ops, names, m, x);
    }
    PrereqPassConflict(ops, names, m);
    PrereqPassConflict(ops, names, once);
    FirstPairSame(ops, m, once, names);
    PrereqPassInserts(ops, names, m, p);
    PrereqPassInserts(ops, names, once, p);
    AskersSame(ops, names, m, once, p);
    InsertAllConcat(ops, m[p], Askers(ops, names, m, p), Askers(ops, names, m, p));
  }

  /** Every value is stored under its own name. */
  ghost predicate NamedBy<K(!new), V>(ops: TaskOps<K, V>, m: map<K, V>) {
    forall k :: k in m ==> ops.nameOf(m[k]) == k
  }

  /** Inserting a task of the plan as a prerequisite leaves each task's
      dependencies in the plan. */
  lemma {:induction false} ApplyPrereqsKeyClosed<K(!new), V(!new)>(ops: TaskOps<K, V>, m: map<K, V>, from: K, targets: seq<K>, k: K)
    requires Appends(ops) && k in m && DepsIn(ops.depsOf(m[k]), m) && from in m
    ensures var r := ApplyPrereqs(ops, m, from, targets); DepsIn(ops.depsOf(r[k]), r)
  {
    var n := Count(targets, k);
    ApplyPrereqsInserts(ops, m, from, targets, k);
    var added := Repeat(from, n);
    assert ops.depsOf(InsertAll(ops, m[k], added)) == ops.depsOf(m[k]) + added;
    forall d | d in ops.depsOf(m[k]) + added ensures d in m {
      if d !in ops.depsOf(m[k]) {
        assert d in added;
      }
    }
  }

  lemma {:induction false} ApplyPrereqsClosed<K(!new), V(!new)>(ops: TaskOps<K, V>, m: map<K, V>, from: K, targets: seq<K>)
    requires Appends(ops) && ClosedBy(m, ops.depsOf) && from in m
    ensures ClosedBy(ApplyPrereqs(ops, m, from, targets), ops.depsOf)
  {
    forall k | k in m ensures var r := ApplyPrereqs(ops, m, from, targets); DepsIn(ops.depsOf(r[k]), r) {
      ApplyPrereqsKeyClosed(ops, m, from, targets, k);
    }
  }

  lemma {:induction false} ApplyPrereqsNamedBy<K(!new), V(!new)>(ops: TaskOps<K, V>, m: map<K, V>, from: K, targets: seq<K>)
    requires Appends(ops) && NamedBy(ops, m)
    ensures NamedBy(ops, ApplyPrereqs(ops, m, from, targets))
  {
    var r := ApplyPrereqs(ops, m, from, targets);
    forall k | k in r ensures ops.nameOf(r[k]) == k {
      ApplyPrereqsSame(ops, m, from, targets, k);
    }
  }

  /** The pass, stopped by a conflict or not, keeps the plan closed under
      dependencies. */
  lemma {:induction false} PrereqPassClosed<K(!new), V(!new)>(ops: TaskOps<K, V>, names: seq<K>, m: map<K, V>)
    requires Appends(ops) && DepsIn(names, m) && ClosedBy(m, ops.depsOf) && NamedBy(ops, m)
    ensures ClosedBy(PrereqPass(ops, names, m).0, ops.depsOf)
    decreases |names|
  {
    if |names| > 0 {
      var task := m[names[0]];
      ApplyPrereqsClosed(ops, m, ops.nameOf(task), ops.prereqsOf(task));
      ApplyPrereqsNamedBy(ops, m, ops.nameOf(task), ops.prereqsOf(task));
      var m1 := ApplyPrereqs(ops, m, ops.nameOf(task), ops.prereqsOf(task));
      if FirstConflict(m1.Keys, ops.conflictsOf(task)).None? {
        PrereqPassClosed(ops, names[1..], m1);
      }
    }
  }

  method ApplyPrereqsLoop<K(!new), V(!new)>(ops: TaskOps<K, V>, m: map<K, V>, from: K, targets: seq<K>)
    returns (r: map<K, V>)
    requires Appends(ops)
    ensures r == ApplyPrereqs(ops, m, from, targets)
  {
    r := m;
    var i := 0;
    while i < |targets|
      invariant 0 <= i <= |targets|
      invariant r == ApplyPrereqs(ops, m, from, targets[..i])
    {
      assert targets[..i + 1][..i] == targets[..i];
      if targets[i] in r {
        r := r[targets[i] := ops.insert(r[targets[i]], from)];
      }
      i := i + 1;
    }
    assert targets[..i] == targets;
  }

  method FindConflict<K(!new)>(keys: set<K>, conflicts: seq<K>) returns (r: Option<K>)
    ensures r == FirstConflict(keys, conflicts)
  {
    var i := 0;
    while i < |conflicts|
      invariant 0 <= i <= |conflicts|
      invariant FirstConflict(keys, conflicts[i..]) == FirstConflict(keys, conflicts)
    {
      if conflicts[i] in keys {
        return Some(conflicts[i]);
      }
      assert conflicts[i..][1..] == conflicts[i + 1..];
      i := i + 1;
    }
    return None;
  }

  /** The loop of _prepare_prereqs_check_conflicts over the plan's tasks. */
  method PrereqPhase<K(!new), V(!new)>(ops: TaskOps<K, V>, names: seq<K>, m: map<K, V>)
    returns (m': map<K, V>, conflict: Option<(K, K)>)
    requires Appends(ops) && DepsIn(names, m)
    ensures (m', conflict) == PrereqPass(ops, names, m)
  {
    m' := m;
    var i := 0;
    while i < |names|
      invariant 0 <= i <= |names| && m'.Keys == m.Keys
      invariant PrereqPass(ops, names[i..], m') == PrereqPass(ops, names, m)
    {
      var task := m'[names[i]];
      m' := ApplyPrereqsLoop(ops, m', ops.nameOf(task), ops.prereqsOf(task));
      var c := FindConflict(m'.Keys, ops.conflictsOf(task));
      if c.Some? {
        return m', Some((ops.nameOf(task), c.value));
      }
      assert names[i..][1..] == names[i + 1..];
      i := i + 1;
    }
    conflict := None;
  }

  // ---------------------------------------------------------------
  // Execution order

  /** Each key's dependencies. */
  type Graph<K> = map<K, seq<K>>

  function CycleError(): Exc { YoExc("Tasks express a circular dependency") }

  /** Everything in xs is in ys. */
  predicate AllIn<K(==)>(xs: seq<K>, ys: seq<K>) {
    forall x :: x in xs ==> x in ys
  }

  /** Every key comes after all of its dependencies. */
  ghost predicate TopoSorted<K(!new)>(g: Graph<K>, order: seq<K>) {
    forall i :: 0 <= i < |order| ==> order[i] in g && AllIn(g[order[i]], order[..i])
  }

  /** A dependency chain: each key depends on the next. */
  ghost predicate Chain<K(!new)>(g: Graph<K>, p: seq<K>) {
    forall i :: 0 <= i < |p| - 1 ==> p[i] in g && p[i + 1] in g[p[i]]
  }

  /** The state of the depth-first visit: the colour of each key seen (1
      while its dependencies are being visited, 2 once it is ordered) and
      the keys ordered so far. */
  ghost predicate Visiting<K(!new)>(g: Graph<K>, colors: map<K, int>, order: seq<K>) {
    && colors.Keys <= g.Keys
    && (forall n :: n in colors ==> colors[n] == 1 || colors[n] == 2)
    && (forall n :: n in order <==> n in colors && colors[n] == 2)
    && Distinct(order)
    && TopoSorted(g, order)
  }

  /** Seen keys keep their colour. */
  ghost predicate Keeps<K(!new)>(colors: map<K, int>, colors': map<K, int>) {
    forall n :: n in colors ==> n in colors' && colors'[n] == colors[n]
  }

  /** Ordering a key whose dependencies are all ordered keeps the order
      sorted. */
  lemma {:induction false} TopoAppend<K(!new)>(g: Graph<K>, order: seq<K>, k: K)
    requires TopoSorted(g, order) && k in g && AllIn(g[k], order)
    ensures TopoSorted(g, order + [k])
  {
    var order' := order + [k];
    forall i | 0 <= i < |order'| ensures order'[i] in g && AllIn(g[order'[i]], order'[..i]) {
      if i < |order| {
        assert order'[..i] == order[..i];
      } else {
        assert order'[..i] == order;
      }
    }
  }

  /** Extending the order keeps everything in it in it. */
  lemma {:induction false} AllInLonger<K(!new)>(deps: seq<K>, order: seq<K>, order': seq<K>)
    requires AllIn(deps, order) && order <= order'
    ensures AllIn(deps, order')
  {
    forall d | d in deps ensures d in order' {
      var j :| 0 <= j < |order| && order[j] == d;
      assert order'[j] == d;
    }
  }

  lemma {:induction false} PrefixStep<K(!new)>(deps: seq<K>, i: nat, order: seq<K>, order': seq<K>)
    requires i < |deps| && (forall j :: 0 <= j < i ==> deps[j] in order) && order <= order' && deps[i] in order'
    ensures forall j :: 0 <= j < i + 1 ==> deps[j] in order'
  {
    forall j | 0 <= j < i ensures deps[j] in order' {
      AllInLonger([deps[j]], order, order');
    }
  }

  /** Colouring an unseen key 1 keeps the visit's state. */
  lemma {:induction false} VisitStart<K(!new)>(g: Graph<K>, colors: map<K, int>, order: seq<K>, k: K)
    requires Visiting(g, colors, order) && k in g && k !in colors
    ensures Visiting(g, colors[k := 1], order) && Keeps(colors, colors[k := 1])
  {
  }

  /** Ordering a key coloured 1 whose dependencies are all ordered keeps the
      visit's state. */
  lemma {:induction false} VisitDone<K(!new)>(g: Graph<K>, colors: map<K, int>, order: seq<K>, k: K)
    requires Visiting(g, colors, order) && k in g && k in colors && colors[k] == 1 && AllIn(g[k], order)
    ensures Visiting(g, colors[k := 2], order + [k])
  {
    TopoAppend(g, order, k);
    assert k !in order;
  }

  /** Some chain of dependencies leads from a key back to itself. */
  ghost predicate HasCycle<K(!new)>(g: Graph<K>) {
    exists p :: |p| >= 2 && Chain(g, p) && p[0] == p[|p| - 1]
  }

  /** The keys coloured 1 are exactly those on the stack of visits in
      progress, and each of them depends on the next. */
  ghost predicate OnStack<K(!new)>(g: Graph<K>, colors: map<K, int>, stack: seq<K>) {
    && Chain(g, stack)
    && forall n :: (n in colors && colors[n] == 1) <==> n in stack
  }

  /** Meeting a key that is on the stack closes a cycle. */
  lemma {:induction false} StackCycle<K(!new)>(g: Graph<K>, stack: seq<K>, k: K)
    requires Chain(g, stack) && |stack| > 0 && k in stack
    requires stack[|stack| - 1] in g && k in g[stack[|stack| - 1]]
    ensures HasCycle(g)
  {
    var j :| 0 <= j < |stack| && stack[j] == k;
    var p := stack[j..] + [k];
    forall i | 0 <= i < |p| - 1 ensures p[i] in g && p[i + 1] in g[p[i]] {
      assert p[i] == stack[j + i];
      if i < |p| - 2 {
        assert p[i + 1] == stack[j + i + 1];
      }
    }
    assert Chain(g, p) && p[0] == p[|p| - 1];
  }

  /** Starting to visit an unseen key pushes it on the stack. */
  lemma {:induction false} StackPush<K(!new)>(g: Graph<K>, colors: map<K, int>, stack: seq<K>, k: K)
    requires OnStack(g, colors, stack) && k !in colors && k in g
    requires |stack| > 0 ==> stack[|stack| - 1] in g && k in g[stack[|stack| - 1]]
    ensures OnStack(g, colors[k := 1], stack + [k])
  {
    var s := stack + [k];
    forall i | 0 <= i < |s| - 1 ensures s[i] in g && s[i + 1] in g[s[i]] {
      assert s[i] == stack[i];
      if i < |s| - 2 {
        assert s[i + 1] == stack[i + 1];
      }
    }
  }

  /** Finishing the key on top of the stack pops it. */
  lemma {:induction false} StackPop<K(!new)>(g: Graph<K>, colors: map<K, int>, stack: seq<K>, k: K)
    requires OnStack(g, colors, stack + [k]) && k !in stack
    ensures OnStack(g, colors[k := 2], stack)
  {
    var s := stack + [k];
    forall i | 0 <= i < |stack| - 1 ensures stack[i] in g && stack[i + 1] in g[stack[i]] {
      assert s[i] == stack[i] && s[i + 1] == stack[i + 1];
    }
    forall n ensures (n in colors[k := 2] && colors[k := 2][n] == 1) <==> n in stack {
      assert n in s <==> n in stack || n == k;
    }
  }

  /** visit(task): an ordered key is skipped, a key being visited means the
      dependencies go round in a circle, and any other key is ordered after
      its dependencies, visited in turn. */
  method Visit<K(!new)>(g: Graph<K>, name: K, colors: map<K, int>, order: seq<K>, ghost stack: seq<K>)
    returns (colors': map<K, int>, order': seq<K>, out: Outcome)
    requires name in g && Visiting(g, colors, order) && OnStack(g, colors, stack)
    requires |stack| > 0 ==> stack[|stack| - 1] in g && name in g[stack[|stack| - 1]]
    requires forall k, d :: k in g && d in g[k] ==> d in g
    ensures out.Pass? ==> Visiting(g, colors', order') && OnStack(g, colors', stack) && name in order'
    ensures out.Pass? ==> Keeps(colors, colors') && order <= order'
    ensures out.Fail? ==> out.exc == CycleError() && HasCycle(g)
    ensures DepsIn(order', g)
    decreases |g.Keys - colors.Keys|, 1
  {
    if name in colors {
      if colors[name] == 2 {
        return colors, order, Pass;
      }
      StackCycle(g, stack, name);
      return colors, order, Fail(CycleError());
    }
    VisitStart(g, colors, order, name);
    StackPush(g, colors, stack, name);
    ShrinkByOne(g.Keys, colors.Keys, colors[name := 1].Keys, name);
    colors', order', out := VisitDeps(g, g[name], colors[name := 1], order, stack + [name]);
    if out.Fail? {
      return;
    }
    VisitDone(g, colors', order', name);
    StackPop(g, colors', stack, name);
    colors', order' := colors'[name := 2], order' + [name];
  }

  /** The loop of visit over one task's dependencies. */
  method VisitDeps<K(!new)>(g: Graph<K>, deps: seq<K>, colors: map<K, int>, order: seq<K>, ghost stack: seq<K>)
    returns (colors': map<K, int>, order': seq<K>, out: Outcome)
    requires Visiting(g, colors, order) && OnStack(g, colors, stack) && DepsIn(deps, g)
    requires |stack| > 0 && stack[|stack| - 1] in g && deps == g[stack[|stack| - 1]]
    requires forall k, d :: k in g && d in g[k] ==> d in g
    ensures out.Pass? ==> Visiting(g, colors', order') && OnStack(g, colors', stack) && AllIn(deps, order')
    ensures out.Pass? ==> Keeps(colors, colors') && order <= order'
    ensures out.Fail? ==> out.exc == CycleError() && HasCycle(g)
    ensures DepsIn(order', g)
    decreases |g.Keys - colors.Keys|, 2
  {
    colors', order' := colors, order;
    var i := 0;
    while i < |deps|
      invariant 0 <= i <= |deps|
      invariant Visiting(g, colors', order') && OnStack(g, colors', stack)
      invariant Keeps(colors, colors') && order <= order'
      invariant forall j :: 0 <= j < i ==> deps[j] in order'
    {
      SubsetCard(g.Keys - colors'.Keys, g.Keys - colors.Keys);
      var c, o, r := Visit(g, deps[i], colors', order', stack);
      if r.Fail? {
        return c, o, r;
      }
      PrefixStep(deps, i, order', o);
      colors', order' := c, o;
      i := i + 1;
    }
    out := Pass;
  }

  /** _create_execution_order: every key visited in key order. It fails
      exactly when some chain of dependencies leads from a key back to
      itself; on success every key is ordered once, after all of its
      dependencies. */
  method ExecutionOrder<K(!new)>(names: seq<K>, g: Graph<K>) returns (order: seq<K>, out: Outcome)
    requires KeyOrder(names, g)
    requires forall k, d :: k in g && d in g[k] ==> d in g
    ensures out.Pass? ==> Distinct(order) && TopoSorted(g, order) && forall k :: k in order <==> k in g
    ensures out.Pass? <==> !HasCycle(g)
    ensures out.Fail? ==> out.exc == CycleError()
    ensures DepsIn(order, g)
  {
    var colors: map<K, int> := map[];
    order := [];
    var i := 0;
    while i < |names|
      invariant 0 <= i <= |names|
      invariant Visiting(g, colors, order) && OnStack(g, colors, [])
      invariant forall j :: 0 <= j < i ==> names[j] in order
    {
      var c, o, r := Visit(g, names[i], colors, order, []);
      if r.Fail? {
        return o, r;
      }
      forall j | 0 <= j < i ensures names[j] in o {
        AllInLonger([names[j]], order, o);
      }
      colors, order := c, o;
      i := i + 1;
    }
    forall p | |p| >= 2 && Chain(g, p) ensures p[0] != p[|p| - 1] {
      NoCycle(g, order, p);
    }
    return order, Pass;
  }

  /** The position of a key in a sequence holding it. */
  ghost function Position<K>(s: seq<K>, x: K): (i: nat)
    requires x in s
    ensures i < |s| && s[i] == x
  {
    if s[0] == x then 0 else 1 + Position(s[1..], x)
  }

  /** In a sorted order every dependency sits before the key needing it. */
  lemma {:induction false} DepEarlier<K(!new)>(g: Graph<K>, order: seq<K>, i: nat, d: K)
    requires Distinct(order) && TopoSorted(g, order) && i < |order| && order[i] in g && d in g[order[i]]
    ensures d in order && Position(order, d) < i
  {
    assert AllIn(g[order[i]], order[..i]);
    var j :| 0 <= j < i && order[..i][j] == d;
    assert order[j] == d;
  }

  lemma {:induction false} ChainDescends<K(!new)>(g: Graph<K>, order: seq<K>, p: seq<K>, j: nat)
    requires Distinct(order) && TopoSorted(g, order) && (forall k :: k in g ==> k in order)
    requires Chain(g, p) && 1 <= j < |p|
    ensures p[j] in order && p[0] in order && Position(order, p[j]) < Position(order, p[0])
  {
    assert p[0] in g && p[j - 1] in g;
    if j == 1 {
      DepEarlier(g, order, Position(order, p[0]), p[1]);
    } else {
      ChainDescends(g, order, p, j - 1);
      DepEarlier(g, order, Position(order, p[j - 1]), p[j]);
    }
  }

  /** A sorted order of every key leaves no room for a cycle. */
  lemma {:induction false} NoCycle<K(!new)>(g: Graph<K>, order: seq<K>, p: seq<K>)
    requires Distinct(order) && TopoSorted(g, order) && (forall k :: k in g ==> k in order)
    requires |p| >= 2 && Chain(g, p)
    ensures p[0] != p[|p| - 1]
  {
    ChainDescends(g, order, p, |p| - 1);
  }

  // ---------------------------------------------------------------
  // The generic passes applied to tasks

  /** A task's name, its prereq_for and conflicts lists, its dependencies
      and insert_prereq. */
  function Ops(): TaskOps<string, Task> {
    TaskOps((t: Task) => t.name, (t: Task) => t.prereqFor, (t: Task) => t.conflicts, (t: Task) => t.dependencies,
            (t: Task, o: string) => InsertPrereq(t, o))
  }

  lemma OpsAppends()
    ensures Appends(Ops())
  {
    forall t: Task, o: string
      ensures Ops().depsOf(Ops().insert(t, o)) == Ops().depsOf(t) + [o] && Same(Ops(), t, Ops().insert(t, o))
    {
      var r := InsertPrereq(t, o);
      assert r.(dependencies := t.dependencies, script := t.script) == t;
    }
  }

  /** Inserting prerequisites changes a task's dependencies and script and
      nothing else. */
  lemma {:induction false} InsertAllTask(t: Task, others: seq<string>)
    requires Appends(Ops())
    ensures InsertAll(Ops(), t, others).(dependencies := t.dependencies, script := t.script) == t
  {
    if |others| > 0 {
      InsertAllTask(t, others[..|others| - 1]);
      var prev := InsertAll(Ops(), t, others[..|others| - 1]);
      assert InsertPrereq(prev, others[|others| - 1]).(dependencies := prev.dependencies, script := prev.script) == prev;
    }
  }

  function ConflictError(task: string, other: string): Exc {
    YoExc("Task " + task + " conflicts with " + other)
  }

  /** The outcome of the prerequisite pass for the conflict it found. */
  function ConflictOutcome(c: Option<(string, string)>): Outcome {
    match c
    case None => Pass
    case Some(pair) => Fail(ConflictError(pair.0, pair.1))
  }

  /** Each task's dependencies, the graph that visit walks. */
  function DependencyGraph(m: map<string, Task>): (g: Graph<string>)
    ensures g.Keys == m.Keys
  {
    map k | k in m :: m[k].dependencies
  }

  /** A requested entry loaded (a name) or taken as it is (a task). */
  function ResolveRef(env: Env, r: TaskRef): (t: Result<Task>)
    ensures t.Ok? ==> t.value.name == RefName(r)
    ensures r.Given? ==> t == Ok(r.task)
    ensures r.Named? ==> t == LoadTask(env, r.name)
  {
    match r
    case Named(n) => LoadTask(env, n)
    case Given(task) => Ok(task)
  }

  function Resolver(env: Env): TaskRef -> Result<Task> {
    t => ResolveRef(env, t)
  }

  /** Whether some requested entry has the key `k`. */
  ghost predicate Requested(tasks: seq<TaskRef>, k: string) {
    exists i :: 0 <= i < |tasks| && RefName(tasks[i]) == k
  }

  /** TaskPlan.__init__: the requested tasks, by name, then every missing
      dependency loaded until the plan is closed under dependencies. A
      requested task is the last entry of its name; any other task is the
      one its script defines. The first task that cannot be loaded raises. */
  method Init(tasks: seq<TaskRef>, env: Env) returns (r: Result<(seq<string>, map<string, Task>)>)
    ensures r.Ok? ==> Closed(r.value.0, r.value.1)
    ensures r.Ok? ==> forall i :: 0 <= i < |tasks| ==> RefName(tasks[i]) in r.value.1
    ensures r.Ok? ==> forall k :: k in r.value.1 && Requested(tasks, k) ==>
      exists i :: LastFor(tasks, RefName, Resolver(env), i, k, r.value.1[k])
    ensures r.Ok? ==> forall k :: k in r.value.1 && !Requested(tasks, k) ==> LoadTask(env, k) == Ok(r.value.1[k])
    ensures (exists i :: 0 <= i < |tasks| && tasks[i].Named? && tasks[i].name !in env.scripts) ==> r.Err?
    ensures r.Err? ==> exists n :: LoadTask(env, n) == Err(r.exc)
  {
    var resolve := Resolver(env);
    var requested := CollectRequested(tasks, RefName, resolve);
    if requested.Err? {
      ghost var i :| 0 <= i < |tasks| && resolve(tasks[i]) == Err(requested.exc);
      return Err(requested.exc);
    }
    var names, m := requested.value.0, requested.value.1;
    forall k | k in m ensures m[k].name == k && Requested(tasks, k) {
      var i :| LastFor(tasks, RefName, resolve, i, k, m[k]);
    }
    var load := n => LoadTask(env, n);
    var closed := LoadDependencies(names, m, load, Ops().depsOf, env.scripts.Keys);
    if closed.Err? {
      return Err(closed.exc);
    }
    r := closed;
    forall k | k in r.value.1 ensures r.value.1[k].name == k && DepsIn(r.value.1[k].dependencies, r.value.1) {
      assert DepsIn(Ops().depsOf(r.value.1[k]), r.value.1);
    }
  }

  // ---------------------------------------------------------------
  // Files

  /** Path.is_file: the path exists and is a regular file. */
  predicate IsFile(fs: FileSystem, p: Path) {
    p in fs && fs[p].File?
  }

  /** The files a task sends that are not regular files, in order. */
  function MissingFiles(fs: FileSystem, files: seq<Path>): (r: seq<Path>)
    ensures forall p :: p in r <==> p in files && !IsFile(fs, p)
    ensures r == [] <==> forall p :: p in files ==> IsFile(fs, p)
  {
    if |files| == 0 then []
    else
      var rest := MissingFiles(fs, files[1..]);
      assert forall p :: p in files <==> p == files[0] || p in files[1..];
      if IsFile(fs, files[0]) then rest else [files[0]] + rest
  }

  function PathStrs(ps: seq<Path>): (r: seq<string>)
    ensures |r| == |ps|
  {
    if |ps| == 0 then [] else [PathStr(ps[0])] + PathStrs(ps[1..])
  }

  function MissingError(name: string, missing: seq<Path>): Exc {
    YoExc("missing files for task " + name + ": " + Join(PathStrs(missing), ", "))
  }

  /** What the files phase may change in a task: only the lists of files it
      includes and sends, and the sent files only by appending. */
  predicate Touched(t: Task, t': Task) {
    && t'.(includeFiles := t.includeFiles, sendfiles := t.sendfiles) == t
    && t.sendfiles <= t'.sendfiles
  }

  /** A task ready to start: nothing left to pack and every file it sends
      is a regular file. */
  predicate Ready(fs: FileSystem, t: Task) {
    t.includeFiles == [] && MissingFiles(fs, t.sendfiles) == []
  }

  /** Files that are kept keep a ready task ready. */
  lemma {:induction false} ReadyKept(fs: FileSystem, fs': FileSystem, t: Task)
    requires Ready(fs, t) && FilesKept(fs, fs')
    ensures Ready(fs', t)
  {
    forall p | p in t.sendfiles ensures IsFile(fs', p) {
      assert IsFile(fs, p);
    }
  }

  /** One iteration of _prepare_files as a function: prepare_files, then,
      if that passed, the check that every sent file is a regular file. */
  function PrepareTaskOf(t: Task, fs: FileSystem, home: string, matcher: Matcher, now: int): Packing {
    var p := PrepareFilesOf(t, fs, home, matcher, now);
    if p.out.Fail? then p
    else
      var missing := MissingFiles(p.fs, p.task.sendfiles);
      if missing == [] then p else p.(out := Fail(MissingError(t.name, missing)))
  }

  /** One iteration of _prepare_files: the task's include_files packed if
      it has any, then every file it sends checked. The task fails exactly
      when it is not ready, and the message names the missing files when
      packing succeeded. */
  method PrepareTask(t: Task, fs: FileSystem, home: string, matcher: Matcher, now: int)
    returns (t': Task, fs': FileSystem, actions: seq<Action>, out: Outcome)
    ensures Touched(t, t') && FilesKept(fs, fs')
    ensures out.Pass? <==> Ready(fs', t')
    ensures t'.includeFiles == [] && !Ready(fs', t') ==> out == Fail(MissingError(t.name, MissingFiles(fs', t'.sendfiles)))
    ensures t.includeFiles == [] ==> t' == t && fs' == fs && actions == []
    ensures Packing(t', fs', actions, out) == PreparerOf(home, matcher, now)(t, fs)
  {
    t', fs', actions, out := PrepareFiles(t, fs, home, matcher, now);
    if t.includeFiles != [] && StandardizeGlobs(home, t.includeFiles).Ok? {
      var lists := StandardizeGlobs(home, t.includeFiles).value;
      assert t'.sendfiles == t.sendfiles + Tarballs(lists.0, lists.1, UserTarball(home, t.name), SystemTarball(home, t.name))[..|actions|];
    }
    if out.Fail? {
      return;
    }
    var missing := MissingFiles(fs', t'.sendfiles);
    if missing != [] {
      out := Fail(MissingError(t'.name, missing));
    }
  }

  /** Each task of the map only touched by the files phase. */
  ghost predicate AllTouched(m: map<string, Task>, m': map<string, Task>) {
    m'.Keys == m.Keys && forall k :: k in m ==> Touched(m[k], m'[k])
  }

  /** What the files phase leaves: the tasks, the filesystem, the tar runs
      and the outcome. */
  datatype PhaseEnd = PhaseEnd(tasks: map<string, Task>, fs: FileSystem, actions: seq<Action>, out: Outcome)

  /** One task's preparation, with home, matcher and clock fixed. */
  type Preparer = (Task, FileSystem) -> Packing

  function PreparerOf(home: string, matcher: Matcher, now: int): Preparer {
    (t, fs) => PrepareTaskOf(t, fs, home, matcher, now)
  }

  /** _prepare_files as a function: the tasks of the order prepared in turn
      against the filesystem the previous ones leave, stopping at the first
      task that fails, whose outcome is the phase's. */
  function FilesRun(order: seq<string>, m: map<string, Task>, fs: FileSystem, prep: Preparer): PhaseEnd
    requires DepsIn(order, m)
    decreases |order|
  {
    if |order| == 0 then PhaseEnd(m, fs, [], Pass)
    else
      var p := prep(m[order[0]], fs);
      var m1 := m[order[0] := p.task];
      if p.out.Fail? then PhaseEnd(m1, p.fs, p.actions, p.out)
      else
        var rest := FilesRun(order[1..], m1, p.fs, prep);
        rest.(actions := p.actions + rest.actions)
  }

  /** _prepare_files over the execution order: each task prepared in turn,
      stopping at the first failure. On success every task of the order is
      ready, in the file system as it is at the end. */
  method FilesPhase(order: seq<string>, m: map<string, Task>, fs: FileSystem, home: string, matcher: Matcher, now: int)
    returns (m': map<string, Task>, fs': FileSystem, actions: seq<Action>, out: Outcome)
    requires DepsIn(order, m)
    ensures AllTouched(m, m') && FilesKept(fs, fs')
    ensures PhaseEnd(m', fs', actions, out) == FilesRun(order, m, fs, PreparerOf(home, matcher, now))
    ensures out.Pass? <==> forall i :: 0 <= i < |order| ==> Ready(fs', m'[order[i]])
  {
    m', fs', actions := m, fs, [];
    ghost var prep := PreparerOf(home, matcher, now);
    var i := 0;
    while i < |order|
      invariant PhaseSoFar(order, m, fs, i, m', fs', actions, prep)
    {
      var name := order[i];
      var t, fs1, acts, o := PrepareTask(m'[name], fs', home, matcher, now);
      PhaseStep(order, m, fs, i, m', fs', actions, prep, t, fs1, acts, o);
      m', fs', actions := m'[name := t], fs1, actions + acts;
      if o.Fail? {
        assert !Ready(fs', m'[order[i]]);
        return m', fs', actions, o;
      }
      i := i + 1;
    }
    PhaseDone(order, m, fs, m', fs', actions, prep);
    out := Pass;
  }

  /** The files phase after i tasks: what is left to do, run from the
      current state, ends the whole phase. */
  ghost predicate PhaseSoFar(order: seq<string>, m: map<string, Task>, fs: FileSystem, i: nat, m': map<string, Task>,
                             fs': FileSystem, actions: seq<Action>, prep: Preparer)
  {
    && i <= |order| && DepsIn(order, m) && DepsIn(order, m')
    && AllTouched(m, m') && FilesKept(fs, fs')
    && (forall j :: 0 <= j < i ==> Ready(fs', m'[order[j]]))
    && FilesRun(order, m, fs, prep) == After(actions, FilesRun(order[i..], m', fs', prep))
  }

  lemma {:induction false} PhaseStep(order: seq<string>, m: map<string, Task>, fs: FileSystem, i: nat,
                                     m': map<string, Task>, fs': FileSystem, actions: seq<Action>, prep: Preparer,
                                     t: Task, fs1: FileSystem, acts: seq<Action>, o: Outcome)
    requires i < |order| && PhaseSoFar(order, m, fs, i, m', fs', actions, prep)
    requires Packing(t, fs1, acts, o) == prep(m'[order[i]], fs')
    requires Touched(m'[order[i]], t) && FilesKept(fs', fs1) && (o.Pass? <==> Ready(fs1, t))
    ensures o.Fail? ==> && FilesRun(order, m, fs, prep) == PhaseEnd(m'[order[i] := t], fs1, actions + acts, o)
                        && AllTouched(m, m'[order[i] := t]) && FilesKept(fs, fs1) && !Ready(fs1, m'[order[i] := t][order[i]])
    ensures o.Pass? ==> PhaseSoFar(order, m, fs, i + 1, m'[order[i] := t], fs1, actions + acts, prep)
  {
    RunStep(order, m, fs, i, m', fs', actions, prep, t, fs1, acts, o);
    ReadyStep(order, m, fs, i, m', fs', t, fs1);
  }

  /** The phase's function advances by the task's preparation. */
  lemma {:induction false} RunStep(order: seq<string>, m: map<string, Task>, fs: FileSystem, i: nat,
                                   m': map<string, Task>, fs': FileSystem, actions: seq<Action>, prep: Preparer,
                                   t: Task, fs1: FileSystem, acts: seq<Action>, o: Outcome)
    requires i < |order| && DepsIn(order, m) && DepsIn(order, m')
    requires FilesRun(order, m, fs, prep) == After(actions, FilesRun(order[i..], m', fs', prep))
    requires Packing(t, fs1, acts, o) == prep(m'[order[i]], fs')
    ensures DepsIn(order, m'[order[i] := t])
    ensures o.Fail? ==> FilesRun(order, m, fs, prep) == PhaseEnd(m'[order[i] := t], fs1, actions + acts, o)
    ensures o.Pass? ==> FilesRun(order, m, fs, prep)
                        == After(actions + acts, FilesRun(order[i + 1..], m'[order[i] := t], fs1, prep))
  {
    FilesRunStep(order, i, m', fs', prep);
    AfterAfter(actions, acts, FilesRun(order[i + 1..], m'[order[i] := t], fs1, prep));
  }

  /** The tasks prepared so far stay ready and touched only. */
  lemma {:induction false} ReadyStep(order: seq<string>, m: map<string, Task>, fs: FileSystem, i: nat,
                                     m': map<string, Task>, fs': FileSystem, t: Task, fs1: FileSystem)
    requires i < |order| && DepsIn(order, m') && AllTouched(m, m') && FilesKept(fs, fs')
    requires forall j :: 0 <= j < i ==> Ready(fs', m'[order[j]])
    requires Touched(m'[order[i]], t) && FilesKept(fs', fs1)
    ensures AllTouched(m, m'[order[i] := t]) && FilesKept(fs, fs1)
    ensures Ready(fs1, t) ==> forall j :: 0 <= j < i + 1 ==> Ready(fs1, m'[order[i] := t][order[j]])
  {
    forall j | 0 <= j < i && order[j] != order[i] ensures Ready(fs1, m'[order[j]]) {
      ReadyKept(fs', fs1, m'[order[j]]);
    }
  }

  lemma {:induction false} PhaseDone(order: seq<string>, m: map<string, Task>, fs: FileSystem, m': map<string, Task>,
                                     fs': FileSystem, actions: seq<Action>, prep: Preparer)
    requires PhaseSoFar(order, m, fs, |order|, m', fs', actions, prep)
    ensures FilesRun(order, m, fs, prep) == PhaseEnd(m', fs', actions, Pass)
  {
    assert order[|order|..] == [];
    assert actions + [] == actions;
  }

  /** One task of the phase: its preparation, then, if that passed, the
      rest of the order. */
  lemma {:induction false} FilesRunStep(order: seq<string>, i: nat, m: map<string, Task>, fs: FileSystem, prep: Preparer)
    requires i < |order| && DepsIn(order, m)
    ensures var p := prep(m[order[i]], fs);
      var m1 := m[order[i] := p.task];
      && DepsIn(order, m1)
      && FilesRun(order[i..], m, fs, prep)
         == if p.out.Fail? then PhaseEnd(m1, p.fs, p.actions, p.out)
            else After(p.actions, FilesRun(order[i + 1..], m1, p.fs, prep))
  {
    assert order[i..][0] == order[i] && order[i..][1..] == order[i + 1..];
  }

  lemma {:induction false} AfterAfter(a: seq<Action>, b: seq<Action>, e: PhaseEnd)
    ensures After(a, After(b, e)) == After(a + b, e)
  {
    assert a + (b + e.actions) == (a + b) + e.actions;
  }

  /** A phase end after the tar runs of the tasks already prepared. */
  function After(actions: seq<Action>, e: PhaseEnd): PhaseEnd {
    e.(actions := actions + e.actions)
  }

  // ---------------------------------------------------------------
  // The plan

  /** Touching tasks leaves the dependency graph alone. */
  lemma {:induction false} GraphKept(m: map<string, Task>, m': map<string, Task>)
    requires AllTouched(m, m')
    ensures DependencyGraph(m') == DependencyGraph(m)
  {
    forall k | k in m ensures m'[k].dependencies == m[k].dependencies {
      assert m'[k].(includeFiles := m[k].includeFiles, sendfiles := m[k].sendfiles) == m[k];
    }
  }

  /** A group of tasks to run together on one instance: name_to_task as its
      key order and map, and the execution order as task names. */
  class TaskPlan {
    var names: seq<string>
    var nameToTask: map<string, Task>
    var orderedTasks: seq<string>

    /** name_to_task is closed under dependencies, every task stored under
        its own name, and the execution order names tasks of the plan. */
    ghost predicate Valid()
      reads this
    {
      Closed(names, nameToTask) && DepsIn(orderedTasks, nameToTask)
    }

    constructor (names: seq<string>, m: map<string, Task>)
      requires Closed(names, m)
      ensures Valid() && this.names == names && nameToTask == m && orderedTasks == []
    {
      this.names := names;
      nameToTask := m;
      orderedTasks := [];
    }

    /** TaskPlan(tasks): the plan of Init, with an empty execution order. */
    static method Create(tasks: seq<TaskRef>, env: Env) returns (r: Result<TaskPlan>)
      ensures r.Ok? ==> fresh(r.value) && r.value.Valid() && r.value.orderedTasks == []
      ensures r.Ok? ==> forall i :: 0 <= i < |tasks| ==> RefName(tasks[i]) in r.value.nameToTask
      ensures r.Err? ==> exists n :: LoadTask(env, n) == Err(r.exc)
    {
      var init := Init(tasks, env);
      if init.Err? {
        return Err(init.exc);
      }
      var plan := new TaskPlan(init.value.0, init.value.1);
      return Ok(plan);
    }

    /** _prepare_prereqs_check_conflicts: the pass over the tasks in key
        order; a conflict raises, keeping the insertions made so far. It
        fails exactly when some task lists a task of the plan among its
        conflicts, and otherwise every task has gained, as dependencies, the
        names of the tasks declaring themselves its prerequisite. */
    method PrereqsCheckConflicts() returns (out: Outcome)
      requires Valid()
      modifies this
      ensures Valid() && names == old(names) && orderedTasks == old(orderedTasks)
      ensures nameToTask == PrereqPass(Ops(), names, old(nameToTask)).0
      ensures out == ConflictOutcome(FirstPair(Ops(), old(nameToTask), names))
      ensures out.Pass? ==> forall p :: p in nameToTask ==>
        nameToTask[p].dependencies == old(nameToTask)[p].dependencies + Askers(Ops(), names, old(nameToTask), p)
    {
      OpsAppends();
      var m, c := PrereqPhase(Ops(), names, nameToTask);
      PrereqPassConflict(Ops(), names, nameToTask);
      PrereqPassClosed(Ops(), names, nameToTask);
      forall k | k in m ensures m[k].name == k && DepsIn(m[k].dependencies, m) {
        PrereqPassSame(Ops(), names, nameToTask, k);
        assert DepsIn(Ops().depsOf(m[k]), m);
      }
      if c.None? {
        forall p | p in m
          ensures m[p].dependencies == nameToTask[p].dependencies + Askers(Ops(), names, nameToTask, p)
        {
          PrereqPassInserts(Ops(), names, nameToTask, p);
        }
      }
      nameToTask := m;
      out := ConflictOutcome(c);
    }

    /** _create_execution_order: it fails exactly when the dependencies go
        round in a circle, keeping the order built so far; on success every
        task is ordered once, after its dependencies. */
    method CreateExecutionOrder() returns (out: Outcome)
      requires Valid()
      modifies this
      ensures Valid() && names == old(names) && nameToTask == old(nameToTask)
      ensures out.Pass? ==> && Distinct(orderedTasks)
                            && TopoSorted(DependencyGraph(nameToTask), orderedTasks)
                            && forall k :: k in orderedTasks <==> k in nameToTask
      ensures out.Pass? <==> !HasCycle(DependencyGraph(nameToTask))
      ensures out.Fail? ==> out.exc == CycleError()
    {
      var g := DependencyGraph(nameToTask);
      assert forall k, d :: k in g && d in g[k] ==> d in g by {
        forall k, d | k in g && d in g[k] ensures d in g {
          assert DepsIn(nameToTask[k].dependencies, nameToTask);
        }
      }
      var order;
      order, out := ExecutionOrder(names, g);
      orderedTasks := order;
    }

    /** name_to_task after the prerequisite pass. */
    ghost function AfterPrereqs(): (m: map<string, Task>)
      reads this
      requires Valid()
      ensures m.Keys == nameToTask.Keys
    {
      OpsAppends();
      PrereqPass(Ops(), names, nameToTask).0
    }

    /** _prepare_files over the execution order. */
    method PrepareFilesPhase(fs: FileSystem, home: string, matcher: Matcher, now: int)
      returns (fs': FileSystem, actions: seq<Action>, out: Outcome)
      requires Valid()
      modifies this
      ensures Valid() && names == old(names) && orderedTasks == old(orderedTasks)
      ensures AllTouched(old(nameToTask), nameToTask) && FilesKept(fs, fs')
      ensures PhaseEnd(nameToTask, fs', actions, out) == FilesRun(orderedTasks, old(nameToTask), fs, PreparerOf(home, matcher, now))
      ensures out.Pass? <==> forall i :: 0 <= i < |orderedTasks| ==> Ready(fs', nameToTask[orderedTasks[i]])
    {
      var m;
      m, fs', actions, out := FilesPhase(orderedTasks, nameToTask, fs, home, matcher, now);
      forall k | k in m ensures m[k].name == k && m[k].dependencies == nameToTask[k].dependencies {
        assert m[k].(includeFiles := nameToTask[k].includeFiles, sendfiles := nameToTask[k].sendfiles) == nameToTask[k];
      }
      nameToTask := m;
    }

    /** prepare: the three phases in turn, stopping at the first failure:
        the first conflict's error, else the circular-dependency error when
        the dependencies, prerequisites included, go round in a circle, else
        the outcome of the files phase over the execution order. On success
        no task conflicts with another, every task is ordered after its
        dependencies, and every ordered task is ready. */
    method Prepare(fs: FileSystem, home: string, matcher: Matcher, now: int)
      returns (fs': FileSystem, actions: seq<Action>, out: Outcome)
      requires Valid()
      modifies this
      ensures Valid() && names == old(names)
      ensures FilesKept(fs, fs')
      ensures nameToTask.Keys == old(nameToTask).Keys
      ensures FirstPair(Ops(), old(nameToTask), names).Some? ==>
                out == ConflictOutcome(FirstPair(Ops(), old(nameToTask), names)) && fs' == fs && actions == []
      ensures FirstPair(Ops(), old(nameToTask), names).Some? ==>
                nameToTask == old(AfterPrereqs()) && orderedTasks == old(orderedTasks)
      ensures FirstPair(Ops(), old(nameToTask), names).None? && HasCycle(DependencyGraph(old(AfterPrereqs()))) ==>
                out == Fail(CycleError()) && fs' == fs && actions == []
      ensures FirstPair(Ops(), old(nameToTask), names).None? && HasCycle(DependencyGraph(old(AfterPrereqs()))) ==>
                nameToTask == old(AfterPrereqs())
      ensures FirstPair(Ops(), old(nameToTask), names).None? && !HasCycle(DependencyGraph(old(AfterPrereqs()))) ==>
                PhaseEnd(nameToTask, fs', actions, out)
                == FilesRun(orderedTasks, old(AfterPrereqs()), fs, PreparerOf(home, matcher, now))
      ensures out.Pass? <==> && FirstPair(Ops(), old(nameToTask), names).None?
                             && !HasCycle(DependencyGraph(old(AfterPrereqs())))
                             && forall i :: 0 <= i < |orderedTasks| ==> Ready(fs', nameToTask[orderedTasks[i]])
      ensures out.Pass? ==> FirstPair(Ops(), old(nameToTask), names).None?
      ensures out.Pass? ==> && Distinct(orderedTasks)
                            && TopoSorted(DependencyGraph(nameToTask), orderedTasks)
                            && (forall k :: k in orderedTasks <==> k in nameToTask)
                            && forall i :: 0 <= i < |orderedTasks| ==> Ready(fs', nameToTask[orderedTasks[i]])
    {
      fs', actions := fs, [];
      out := PrereqsCheckConflicts();
      if out.Fail? {
        return;
      }
      out := CreateExecutionOrder();
      if out.Fail? {
        return;
      }
      ghost var ordered := nameToTask;
      fs', actions, out := PrepareFilesPhase(fs, home, matcher, now);
      GraphKept(ordered, nameToTask);
    }

    /** have_tasks: whether the execution order is non-empty. */
    function HaveTasks(): (r: bool)
      reads this
      ensures r <==> orderedTasks != []
    {
      |orderedTasks| > 0
    }

    /** join: wait, over the given poll outputs, for exactly the ordered
        tasks, in order. */
    method Join(polls: seq<string>, taskDir: string) returns (r: JoinEnd, events: seq<Event>)
      ensures (r, events) == JoinRun(polls, StatusReader(taskDir), orderedTasks, map[])
    {
      var waitTasks := orderedTasks;
      r, events := TaskJoin(polls, taskDir, waitTasks);
    }
  }
}
