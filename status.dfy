/** Reading task status back from an instance: the marker files the task
    library leaves behind, how they are grouped and classified, and the loop
    that polls until the awaited tasks are done. */
module TaskStatus {
  import opened Base
  import opened Text

  /** A status code: a pid or an exit code, or the content of a wait file. */
  datatype Code = Num(n: int) | Str(s: string)

  /** A task's state (RUNNING, SUCCESS, FAIL, WAITING or UNKNOWN) and code. */
  datatype Status = Status(state: string, code: Code)

  /** One matched output line: the task directory's name, the marker file's
      kind and the file's content. */
  datatype Marker = Marker(task: string, kind: string, content: string)

  /** The files of each task, in order of first appearance. */
  type Groups = seq<(string, seq<(string, string)>)>

  /** The status of each task, in order of first appearance. */
  type Statuses = seq<(string, Status)>

  predicate IsKind(k: string) { k == "pid" || k == "status" || k == "wait" }

  // ---------------------------------------------------------------
  // The marker pattern ^.*/([^/]*)/(pid|status|wait):(.*)$

  /** The line is `prefix/task/kind:content`, with a slash-free task and
      the slash before the task at position a. */
  ghost predicate SplitsAt(line: string, a: nat, m: Marker) {
    && IsKind(m.kind) && '/' !in m.task
    && a < |line| && line[a] == '/'
    && line[a + 1..] == m.task + "/" + m.kind + ":" + m.content
  }

  /** `(pid|status|wait):(.*)$` at the start of s: the kind and the rest. */
  function ReadKind(s: string): Option<(string, string)> {
    if IsPrefix("pid:", s) then Some(("pid", s[4..]))
    else if IsPrefix("status:", s) then Some(("status", s[7..]))
    else if IsPrefix("wait:", s) then Some(("wait", s[5..]))
    else None
  }

  lemma {:induction false} ReadKindSound(s: string)
    requires ReadKind(s).Some?
    ensures IsKind(ReadKind(s).value.0) && s == ReadKind(s).value.0 + ":" + ReadKind(s).value.1
  {
  }

  lemma {:induction false} ReadKindComplete(k: string, c: string)
    requires IsKind(k)
    ensures ReadKind(k + ":" + c) == Some((k, c))
  {
    var s := k + ":" + c;
    if k == "pid" {
      assert s[..4] == "pid:";
    } else if k == "status" {
      assert s[..7] == "status:";
      assert !IsPrefix("pid:", s) by { assert s[0] == 's'; }
    } else {
      assert s[..5] == "wait:";
      assert !IsPrefix("pid:", s) by { assert s[0] == 'w'; }
      assert !IsPrefix("status:", s) by { assert s[0] == 'w'; }
    }
  }

  /** `([^/]*)/` at the start of s: the slash-free run and what follows. */
  function ReadTask(s: string): Option<(string, string)> {
    if '/' !in s then None
    else
      var b := IndexOf(s, '/');
      Some((s[..b], s[b + 1..]))
  }

  lemma {:induction false} ReadTaskSound(s: string)
    requires ReadTask(s).Some?
    ensures '/' !in ReadTask(s).value.0 && s == ReadTask(s).value.0 + "/" + ReadTask(s).value.1
  {
    var b := IndexOf(s, '/');
    assert s == s[..b] + [s[b]] + s[b + 1..];
  }

  lemma {:induction false} ReadTaskComplete(t: string, rest: string)
    requires '/' !in t
    ensures ReadTask(t + "/" + rest) == Some((t, rest))
  {
    var s := t + "/" + rest;
    assert s[|t|] == '/';
    var b := IndexOf(s, '/');
    assert s[..|t|] == t;
    assert s[b + 1..] == rest;
  }

  /** The match with the task's leading slash at position a, if any. */
  function MatchAt(line: string, a: nat): (r: Option<Marker>) {
    if a >= |line| || line[a] != '/' then None
    else match ReadTask(line[a + 1..])
      case None => None
      case Some(tr) =>
        match ReadKind(tr.1)
        case None => None
        case Some(kc) => Some(Marker(tr.0, kc.0, kc.1))
  }

  /** The last position below n at which f finds something. */
  function LastAt<M>(f: nat -> Option<M>, n: nat): (r: Option<nat>)
    ensures r.Some? ==> r.value < n && f(r.value).Some?
  {
    if n == 0 then None
    else if f(n - 1).Some? then Some(n - 1)
    else LastAt(f, n - 1)
  }

  /** Every position at which f finds something is at or before the last. */
  lemma {:induction false} LastAtMax<M>(f: nat -> Option<M>, n: nat, b: nat)
    requires b < n && f(b).Some?
    ensures LastAt(f, n).Some? && b <= LastAt(f, n).value
  {
    if f(n - 1).None? {
      LastAtMax(f, n - 1, b);
    }
  }

  function MatcherOf(line: string): nat -> Option<Marker> {
    (a: nat) => MatchAt(line, a)
  }

  /** expr.match(line) for a line holding no newline: the greedy `.*` tries
      the positions from the last one down. */
  function MatchMarker(line: string): Option<Marker> {
    match LastAt(MatcherOf(line), |line|)
    case None => None
    case Some(a) => MatchAt(line, a)
  }

  lemma {:induction false} MatchAtSound(line: string, a: nat)
    requires MatchAt(line, a).Some?
    ensures SplitsAt(line, a, MatchAt(line, a).value)
  {
    var tr := ReadTask(line[a + 1..]).value;
    ReadTaskSound(line[a + 1..]);
    ReadKindSound(tr.1);
  }

  /** A split at a position is the match there. */
  lemma {:induction false} MatchAtComplete(line: string, a: nat, m: Marker)
    requires SplitsAt(line, a, m)
    ensures MatchAt(line, a) == Some(m)
  {
    assert m.task + "/" + m.kind + ":" + m.content == m.task + "/" + (m.kind + ":" + m.content);
    ReadTaskComplete(m.task, m.kind + ":" + m.content);
    ReadKindComplete(m.kind, m.content);
  }

  /** A split is found by the matcher, at a position inside the line. */
  lemma {:induction false} SplitFound(line: string, a: nat, m: Marker)
    requires SplitsAt(line, a, m)
    ensures a < |line| && MatcherOf(line)(a) == Some(m)
  {
    MatchAtComplete(line, a, m);
  }

  /** The pattern matches exactly the lines of the form
      `prefix/task/kind:content`, and takes the last such split. */
  lemma {:induction false} MatchMarkerExactly(line: string)
    ensures MatchMarker(line).None? <==> forall a, m :: !SplitsAt(line, a, m)
    ensures MatchMarker(line).Some? ==> exists a :: && SplitsAt(line, a, MatchMarker(line).value)
                                                   && forall a', m' :: SplitsAt(line, a', m') ==> a' <= a
  {
    var last := LastAt(MatcherOf(line), |line|);
    if last.None? {
      forall a, m ensures !SplitsAt(line, a, m) {
        if SplitsAt(line, a, m) {
          SplitFound(line, a, m);
          LastAtMax(MatcherOf(line), |line|, a);
        }
      }
    } else {
      var a := last.value;
      MatchAtSound(line, a);
      forall a', m' | SplitsAt(line, a', m') ensures a' <= a {
        SplitFound(line, a', m');
        LastAtMax(MatcherOf(line), |line|, a');
      }
    }
  }

  // ---------------------------------------------------------------
  // Parsing and grouping

  function BadDataError(taskDir: string): Exc {
    YoExc("bad task status data, examine " + taskDir + " on the host")
  }

  /** The markers of the lines, or the error for the first line that does
      not match. */
  function Markers(lines: seq<string>, taskDir: string): (r: Result<seq<Marker>>)
    ensures r.Ok? ==> |r.value| == |lines|
    ensures r.Err? ==> r.exc == BadDataError(taskDir)
  {
    if |lines| == 0 then Ok([])
    else
      var prev := Markers(lines[..|lines| - 1], taskDir);
      if prev.Err? then prev
      else match MatchMarker(lines[|lines| - 1])
        case None => Err(BadDataError(taskDir))
        case Some(m) => Ok(prev.value + [m])
  }

  /** The entry for key k of an association list, if any. */
  function Lookup<V>(g: seq<(string, V)>, k: string): (r: Option<V>)
    ensures r.None? <==> forall i :: 0 <= i < |g| ==> g[i].0 != k
  {
    if |g| == 0 then None
    else if g[0].0 == k then Some(g[0].1)
    else Lookup(g[1..], k)
  }

  function Keys<V>(g: seq<(string, V)>): (r: seq<string>)
    ensures |r| == |g| && forall i :: 0 <= i < |g| ==> r[i] == g[i].0
  {
    if |g| == 0 then [] else [g[0].0] + Keys(g[1..])
  }

  predicate DistinctKeys<V>(g: seq<(string, V)>) {
    forall i, j :: 0 <= i < j < |g| ==> g[i].0 != g[j].0
  }

  /** task_to_files[task].append((kind, content)) on a defaultdict(list). */
  function AddMarker(g: Groups, m: Marker): (r: Groups)
    decreases |g|
  {
    if |g| == 0 then [(m.task, [(m.kind, m.content)])]
    else if g[0].0 == m.task then [(g[0].0, g[0].1 + [(m.kind, m.content)])] + g[1..]
    else [g[0]] + AddMarker(g[1..], m)
  }

  function GroupAll(ms: seq<Marker>): Groups {
    if |ms| == 0 then [] else AddMarker(GroupAll(ms[..|ms| - 1]), ms[|ms| - 1])
  }

  /** The (kind, content) pairs of the markers of task t, in order. */
  function FilesOf(ms: seq<Marker>, t: string): seq<(string, string)> {
    if |ms| == 0 then []
    else FilesOf(ms[..|ms| - 1], t) + (if ms[|ms| - 1].task == t then [(ms[|ms| - 1].kind, ms[|ms| - 1].content)] else [])
  }

  lemma {:induction false} AddMarkerLookup(g: Groups, m: Marker, t: string)
    ensures Lookup(AddMarker(g, m), t) ==
      if t != m.task then Lookup(g, t)
      else match Lookup(g, t)
        case None => Some([(m.kind, m.content)])
        case Some(l) => Some(l + [(m.kind, m.content)])
    decreases |g|
  {
    if |g| > 0 && g[0].0 != m.task {
      AddMarkerLookup(g[1..], m, t);
    }
  }

  lemma {:induction false} AddMarkerDistinct(g: Groups, m: Marker)
    requires DistinctKeys(g)
    ensures DistinctKeys(AddMarker(g, m))
    decreases |g|
  {
    if |g| > 0 && g[0].0 != m.task {
      var rest := AddMarker(g[1..], m);
      AddMarkerDistinct(g[1..], m);
      AddMarkerLookup(g[1..], m, g[0].0);
      assert Lookup(g[1..], g[0].0).None? by {
        forall i | 0 <= i < |g[1..]| ensures g[1..][i].0 != g[0].0 {
          assert g[1..][i] == g[i + 1];
        }
      }
      var r := [g[0]] + rest;
      forall i, j | 0 <= i < j < |r| ensures r[i].0 != r[j].0 {
        if i > 0 {
          assert r[i] == rest[i - 1] && r[j] == rest[j - 1];
        } else {
          assert r[j] == rest[j - 1];
        }
      }
    }
  }

  /** Grouping keeps each task once, with exactly its own markers' kinds and
      contents, in order. */
  lemma {:induction false} GroupAllFiles(ms: seq<Marker>, t: string)
    ensures Lookup(GroupAll(ms), t) == if FilesOf(ms, t) == [] then None else Some(FilesOf(ms, t))
  {
    if |ms| > 0 {
      var init := ms[..|ms| - 1];
      var last := ms[|ms| - 1];
      GroupAllFiles(init, t);
      AddMarkerLookup(GroupAll(init), last, t);
      assert GroupAll(ms) == AddMarker(GroupAll(init), last);
      if last.task == t {
        assert FilesOf(ms, t) == FilesOf(init, t) + [(last.kind, last.content)];
        if FilesOf(init, t) == [] {
          assert FilesOf(ms, t) == [(last.kind, last.content)];
        }
      } else {
        assert FilesOf(ms, t) == FilesOf(init, t) + [];
        assert FilesOf(init, t) + [] == FilesOf(init, t);
      }
    }
  }

  lemma {:induction false} GroupAllDistinct(ms: seq<Marker>)
    ensures DistinctKeys(GroupAll(ms))
  {
    if |ms| > 0 {
      GroupAllDistinct(ms[..|ms| - 1]);
      AddMarkerDistinct(GroupAll(ms[..|ms| - 1]), ms[|ms| - 1]);
    }
  }

  // ---------------------------------------------------------------
  // Classification

  /** Python's `<` on two (kind, content) pairs. */
  predicate PairLess(x: (string, string), y: (string, string)) {
    LexLess(x.0, y.0) || (x.0 == y.0 && LexLess(x.1, y.1))
  }

  /** stat_list.sort() on a list of two pairs. */
  function SortTwo(x: (string, string), y: (string, string)): seq<(string, string)> {
    if PairLess(y, x) then [y, x] else [x, y]
  }

  /** The classification of one task's marker files. */
  function Classify(files: seq<(string, string)>): Result<Status> {
    if |files| == 1 then
      match ParseInt(files[0].1)
      case None => Err(IntError(files[0].1))
      case Some(stat) =>
        if files[0].0 == "pid" then Ok(Status("RUNNING", Num(stat)))
        else if stat == 0 then Ok(Status("SUCCESS", Num(0)))
        else Ok(Status("FAIL", Num(0)))
    else if |files| == 2 then
      var sorted := SortTwo(files[0], files[1]);
      if sorted[0].0 == "pid" && sorted[1].0 == "wait" then Ok(Status("WAITING", Str(sorted[1].1)))
      else Ok(Status("UNKNOWN", Num(0)))
    else Ok(Status("UNKNOWN", Num(0)))
  }

  /** A lone file: a pid means running with that pid; an exit status of 0
      means success and any other exit status failure, reported with code
      0; content that is not an integer raises. */
  lemma {:induction false} ClassifyOne(kind: string, content: string)
    ensures ParseInt(content).None? ==> Classify([(kind, content)]) == Err(IntError(content))
    ensures ParseInt(content).Some? && kind == "pid" ==>
      Classify([(kind, content)]) == Ok(Status("RUNNING", Num(ParseInt(content).value)))
    ensures ParseInt(content).Some? && kind != "pid" ==>
      Classify([(kind, content)]) == Ok(if ParseInt(content).value == 0 then Status("SUCCESS", Num(0)) else Status("FAIL", Num(0)))
  {
  }

  /** Two files: waiting, on the wait file's content, exactly when they are
      one pid file and one wait file, in either order; unknown otherwise. */
  lemma {:induction false} ClassifyTwo(x: (string, string), y: (string, string))
    ensures Classify([x, y]).Ok?
    ensures Classify([x, y]).value.state == "WAITING" <==>
      (x.0 == "pid" && y.0 == "wait") || (x.0 == "wait" && y.0 == "pid")
    ensures x.0 == "pid" && y.0 == "wait" ==> Classify([x, y]) == Ok(Status("WAITING", Str(y.1)))
    ensures x.0 == "wait" && y.0 == "pid" ==> Classify([x, y]) == Ok(Status("WAITING", Str(x.1)))
    ensures !((x.0 == "pid" && y.0 == "wait") || (x.0 == "wait" && y.0 == "pid")) ==>
      Classify([x, y]) == Ok(Status("UNKNOWN", Num(0)))
  {
    assert LexLess("pid", "wait") by { assert "pid"[0] < "wait"[0]; }
    assert !LexLess("wait", "pid") by { assert "pid"[0] < "wait"[0]; }
    var s := SortTwo(x, y);
    if s[0].0 == "pid" && s[1].0 == "wait" {
      if x.0 == "wait" && y.0 == "wait" {
        assert false;
      }
    }
  }

  /** Each task's classification in order; the first that raises ends it. */
  function ClassifyAll(g: Groups): (r: Result<Statuses>)
    ensures r.Ok? ==> |r.value| == |g| && forall i :: 0 <= i < |g| ==> r.value[i].0 == g[i].0 && Classify(g[i].1) == Ok(r.value[i].1)
    ensures r.Err? ==> exists i :: 0 <= i < |g| && Classify(g[i].1) == Err(r.exc)
  {
    if |g| == 0 then Ok([])
    else
      var prev := ClassifyAll(g[..|g| - 1]);
      if prev.Err? then prev
      else match Classify(g[|g| - 1].1)
        case Err(e) => Err(e)
        case Ok(s) => Ok(prev.value + [(g[|g| - 1].0, s)])
  }

  /** task_get_status once the remote command's output is known. */
  function StatusOf(stdout: string, taskDir: string): Result<Statuses> {
    var output := Strip(stdout);
    if output == [] then Ok([])
    else match Markers(SplitOn(output, '\n'), taskDir)
      case Err(e) => Err(e)
      case Ok(ms) => ClassifyAll(GroupAll(ms))
  }

  /** An output that is only whitespace reports no task at all. */
  lemma {:induction false} BlankStatus(stdout: string, taskDir: string)
    requires forall i :: 0 <= i < |stdout| ==> IsSpace(stdout[i])
    ensures StatusOf(stdout, taskDir) == Ok([])
  {
    StripAllSpace(stdout);
  }

  lemma {:induction false} StripAllSpace(s: string)
    requires forall i :: 0 <= i < |s| ==> IsSpace(s[i])
    ensures Strip(s) == []
  {
    LStripAllSpace(s);
  }

  lemma {:induction false} LStripAllSpace(s: string)
    requires forall i :: 0 <= i < |s| ==> IsSpace(s[i])
    ensures LStrip(s) == []
    decreases |s|
  {
    if |s| > 0 {
      LStripAllSpace(s[1..]);
    }
  }

  /** Appending an entry finds it only for a key not already present. */
  lemma {:induction false} LookupSnoc<V>(g: seq<(string, V)>, x: (string, V), t: string)
    ensures Lookup(g + [x], t) == if Lookup(g, t).Some? then Lookup(g, t) else if x.0 == t then Some(x.1) else None
    decreases |g|
  {
    if |g| > 0 {
      assert (g + [x])[1..] == g[1..] + [x];
      LookupSnoc(g[1..], x, t);
    }
  }

  /** A line that does not match raises, whatever comes before or after. */
  lemma {:induction false} BadLineRaises(lines: seq<string>, taskDir: string, i: nat)
    requires i < |lines| && MatchMarker(lines[i]).None?
    ensures Markers(lines, taskDir) == Err(BadDataError(taskDir))
    decreases |lines|
  {
    if i < |lines| - 1 {
      assert lines[..|lines| - 1][i] == lines[i];
      BadLineRaises(lines[..|lines| - 1], taskDir, i);
    }
  }

  /** Two lists with the same keys at the same positions find a key at the
      same position. */
  lemma {:induction false} LookupSameKeys<V, W>(g: seq<(string, V)>, r: seq<(string, W)>, t: string)
    requires |g| == |r| && forall i :: 0 <= i < |g| ==> r[i].0 == g[i].0
    ensures Lookup(g, t).None? <==> Lookup(r, t).None?
    ensures Lookup(g, t).Some? ==> exists i :: 0 <= i < |g| && Lookup(g, t) == Some(g[i].1) && Lookup(r, t) == Some(r[i].1)
    decreases |g|
  {
    if |g| > 0 && g[0].0 != t {
      LookupSameKeys(g[1..], r[1..], t);
      if Lookup(g, t).Some? {
        var i :| 0 <= i < |g[1..]| && Lookup(g[1..], t) == Some(g[1..][i].1) && Lookup(r[1..], t) == Some(r[1..][i].1);
        assert g[1..][i] == g[i + 1] && r[1..][i] == r[i + 1];
      }
    }
  }

  /** Each reported task appears once, with the classification of exactly
      the markers naming it. */
  lemma {:induction false} StatusOfTask(ms: seq<Marker>, t: string)
    requires ClassifyAll(GroupAll(ms)).Ok?
    ensures DistinctKeys(ClassifyAll(GroupAll(ms)).value)
    ensures FilesOf(ms, t) == [] ==> Lookup(ClassifyAll(GroupAll(ms)).value, t).None?
    ensures FilesOf(ms, t) != [] ==> && Classify(FilesOf(ms, t)).Ok?
                                     && Lookup(ClassifyAll(GroupAll(ms)).value, t) == Some(Classify(FilesOf(ms, t)).value)
  {
    var g := GroupAll(ms);
    var r := ClassifyAll(g).value;
    GroupAllFiles(ms, t);
    GroupAllDistinct(ms);
    LookupSameKeys(g, r, t);
    forall i, j | 0 <= i < j < |r| ensures r[i].0 != r[j].0 {
      assert g[i].0 != g[j].0;
    }
  }

  /** The loop of task_get_status over the output's lines: each matched and
      added to its task's files, the first that does not match raising. */
  method GroupLines(lines: seq<string>, taskDir: string) returns (r: Result<Groups>)
    ensures Markers(lines, taskDir).Err? ==> r == Err(BadDataError(taskDir))
    ensures Markers(lines, taskDir).Ok? ==> r == Ok(GroupAll(Markers(lines, taskDir).value))
  {
    var groups: Groups := [];
    ghost var ms: seq<Marker> := [];
    var i := 0;
    while i < |lines|
      invariant 0 <= i <= |lines|
      invariant Markers(lines[..i], taskDir) == Ok(ms) && groups == GroupAll(ms)
    {
      assert lines[..i + 1][..i] == lines[..i];
      var m := MatchMarker(lines[i]);
      if m.None? {
        BadLineRaises(lines, taskDir, i);
        return Err(BadDataError(taskDir));
      }
      groups := AddMarker(groups, m.value);
      ms := ms + [m.value];
      assert ms[..|ms| - 1] == ms[..i];
      i := i + 1;
    }
    assert lines[..i] == lines;
    r := Ok(groups);
  }

  /** The loop of task_get_status over the tasks: each classified in turn,
      the first that raises ending it. */
  method ClassifyGroups(groups: Groups) returns (r: Result<Statuses>)
    ensures r == ClassifyAll(groups)
  {
    var statuses: Statuses := [];
    var j := 0;
    while j < |groups|
      invariant 0 <= j <= |groups|
      invariant ClassifyAll(groups[..j]) == Ok(statuses)
    {
      assert groups[..j + 1][..j] == groups[..j];
      var c := Classify(groups[j].1);
      if c.Err? {
        ClassifyAllPrefixError(groups, j + 1);
        return Err(c.exc);
      }
      statuses := statuses + [(groups[j].0, c.value)];
      j := j + 1;
    }
    assert groups[..j] == groups;
    r := Ok(statuses);
  }

  /** task_get_status: the output's lines matched and grouped by task, then
      each task classified in order of first appearance. */
  method GetStatus(stdout: string, taskDir: string) returns (r: Result<Statuses>)
    ensures r == StatusOf(stdout, taskDir)
  {
    var output := Strip(stdout);
    if output == [] {
      return Ok([]);
    }
    var groups := GroupLines(SplitOn(output, '\n'), taskDir);
    if groups.Err? {
      return Err(groups.exc);
    }
    r := ClassifyGroups(groups.value);
  }

  lemma {:induction false} ClassifyAllPrefixError(g: Groups, n: nat)
    requires n <= |g| && ClassifyAll(g[..n]).Err?
    ensures ClassifyAll(g) == ClassifyAll(g[..n])
    decreases |g| - n
  {
    if n < |g| {
      assert g[..n + 1][..n] == g[..n];
      ClassifyAllPrefixError(g, n + 1);
    } else {
      assert g[..n] == g;
    }
  }

  // ---------------------------------------------------------------
  // Display

  function CodeStr(c: Code): string {
    match c
    case Num(n) => IntToString(n)
    case Str(s) => s
  }

  /** _status_code: the rich markup shown for a status. */
  function StatusCode(s: Status): string {
    if s.state == "RUNNING" then "[yellow]RUNNING[/yellow] (pid=" + CodeStr(s.code) + ")"
    else if s.state == "FAIL" then "[red]FAILED[/red] (code=" + CodeStr(s.code) + ")"
    else if s.state == "WAITING" then "[green]WAITING[/green] (on=" + CodeStr(s.code) + ")"
    else if s.state == "UNKNOWN" then "[red]UNKNOWN[/red]"
    else "[green]SUCCESS[/green]"
  }

  /** The states shown under their own name; every other state is shown as
      a success. */
  predicate Named(state: string) {
    state == "RUNNING" || state == "FAIL" || state == "WAITING" || state == "UNKNOWN"
  }

  /** The markup tells the five displayed states apart, and for a running,
      failed or waiting task it also tells the code apart. */
  lemma {:induction false} StatusCodeDistinct(a: Status, b: Status)
    requires StatusCode(a) == StatusCode(b)
    ensures Named(a.state) || Named(b.state) ==> a.state == b.state
    ensures a.state == b.state && a.state in {"RUNNING", "FAIL", "WAITING"} ==> CodeStr(a.code) == CodeStr(b.code)
  {
    var r := StatusCode(a);
    MarkupHead(a);
    MarkupHead(b);
    if a.state == b.state && a.state in {"RUNNING", "FAIL", "WAITING"} {
      var p := if a.state == "RUNNING" then "[yellow]RUNNING[/yellow] (pid="
               else if a.state == "FAIL" then "[red]FAILED[/red] (code="
               else "[green]WAITING[/green] (on=";
      assert r == p + CodeStr(a.code) + ")" && r == p + CodeStr(b.code) + ")";
      assert CodeStr(a.code) == r[|p|..|r| - 1];
      assert CodeStr(b.code) == r[|p|..|r| - 1];
    }
  }

  /** The first eight characters of the markup, which differ between the
      five displayed states. */
  lemma MarkupHead(s: Status)
    ensures |StatusCode(s)| >= 8
    ensures StatusCode(s)[..8] ==
      if s.state == "RUNNING" then "[yellow]"
      else if s.state == "FAIL" then "[red]FAI"
      else if s.state == "WAITING" then "[green]W"
      else if s.state == "UNKNOWN" then "[red]UNK"
      else "[green]S"
  {
  }

  /** A failed task, as classified from its exit status file, is always
      shown with code 0, whatever the exit status was. */
  lemma {:induction false} FailedShownWithZero(files: seq<(string, string)>)
    requires Classify(files).Ok? && Classify(files).value.state == "FAIL"
    ensures StatusCode(Classify(files).value) == "[red]FAILED[/red] (code=0)"
  {
    assert NatToString(0) == "0";
  }

  // ---------------------------------------------------------------
  // Joining

  predicate Active(s: Status) { s.state == "RUNNING" || s.state == "WAITING" }

  /** What task_join logs about a task: its first status, or a change. */
  datatype Event = Starting(task: string, now: Status) | Changing(task: string, before: Status, now: Status)

  /** The inner loop over one poll's statuses: each task's status logged if
      it is new or changed, and remembered. */
  function Observe(prev: map<string, Status>, s: Statuses): (r: (map<string, Status>, seq<Event>))
  {
    if |s| == 0 then (prev, [])
    else
      var before := Observe(prev, s[..|s| - 1]);
      var task := s[|s| - 1].0;
      var now := s[|s| - 1].1;
      var event :=
        if task !in before.0 then [Starting(task, now)]
        else if before.0[task] != now then [Changing(task, before.0[task], now)]
        else [];
      (before.0[task := now], before.1 + event)
  }

  /** After a poll every task of it is remembered with its status, and no
      other memory changes. */
  lemma {:induction false} ObserveRemembers(prev: map<string, Status>, s: Statuses, t: string)
    requires DistinctKeys(s)
    ensures Lookup(s, t).Some? ==> t in Observe(prev, s).0 && Observe(prev, s).0[t] == Lookup(s, t).value
    ensures Lookup(s, t).None? ==> (t in Observe(prev, s).0 <==> t in prev)
    ensures Lookup(s, t).None? && t in prev ==> Observe(prev, s).0[t] == prev[t]
  {
    if |s| > 0 {
      var init := s[..|s| - 1];
      assert s == init + [s[|s| - 1]];
      ObserveRemembers(prev, init, t);
      LookupSnoc(init, s[|s| - 1], t);
      if Lookup(init, t).Some? {
        var i :| 0 <= i < |init| && init[i].0 == t;
        assert s[i].0 == t;
      }
    }
  }

  /** A poll whose statuses are all remembered unchanged logs nothing. */
  lemma {:induction false} ObserveQuiet(prev: map<string, Status>, s: Statuses)
    requires forall i :: 0 <= i < |s| ==> s[i].0 in prev && prev[s[i].0] == s[i].1
    ensures Observe(prev, s) == (prev, [])
  {
    if |s| > 0 {
      var init := s[..|s| - 1];
      assert forall i :: 0 <= i < |init| ==> init[i] == s[i];
      ObserveQuiet(prev, init);
      assert prev[s[|s| - 1].0 := s[|s| - 1].1] == prev;
      assert Observe(prev, s).1 == [] + [];
    }
  }

  /** On the first poll every task is logged as starting, in order. */
  lemma {:induction false} ObserveFirst(s: Statuses)
    requires DistinctKeys(s)
    ensures |Observe(map[], s).1| == |s|
    ensures forall i :: 0 <= i < |s| ==> Observe(map[], s).1[i] == Starting(s[i].0, s[i].1)
  {
    if |s| > 0 {
      var init := s[..|s| - 1];
      var (t, now) := s[|s| - 1];
      assert DistinctKeys(init) by {
        forall i, j | 0 <= i < j < |init| ensures init[i].0 != init[j].0 {
          assert init[i] == s[i] && init[j] == s[j];
        }
      }
      ObserveFirst(init);
      ObserveRemembers(map[], init, t);
      assert Lookup(init, t).None? by {
        forall i | 0 <= i < |init| ensures init[i].0 != t {
          assert init[i] == s[i];
        }
      }
      assert Observe(map[], s).1 == Observe(map[], init).1 + [Starting(t, now)];
    }
  }

  /** all(status_dict[wt][0] not in ("RUNNING", "WAITING") for wt in
      wait_tasks): the first awaited task missing from the poll raises. */
  function AllDone(s: Statuses, wait: seq<string>): (r: Result<bool>)
  {
    if |wait| == 0 then Ok(true)
    else match Lookup(s, wait[0])
      case None => Err(KeyError(wait[0]))
      case Some(st) => if Active(st) then Ok(false) else AllDone(s, wait[1..])
  }

  predicate AnyActive(s: Statuses) {
    exists i :: 0 <= i < |s| && Active(s[i].1)
  }

  /** can_terminate. */
  function CanTerminate(s: Statuses, wait: seq<string>): Result<bool> {
    if |wait| == 0 then Ok(!AnyActive(s)) else AllDone(s, wait)
  }

  /** wait[i] is the first awaited task missing from the poll, and every
      awaited task before it is reported and neither runs nor waits. */
  predicate FirstMissing(s: Statuses, wait: seq<string>, i: int) {
    && 0 <= i < |wait|
    && Lookup(s, wait[i]).None?
    && forall j :: 0 <= j < i ==> Lookup(s, wait[j]).Some? && !Active(Lookup(s, wait[j]).value)
  }

  /** With no task awaited the loop ends once nothing runs or waits; with
      some awaited it ends once every one of them is reported and none of
      them runs or waits. It raises exactly when an awaited task is missing
      and every awaited task before it is reported and done, naming that
      task. */
  lemma {:induction false} CanTerminateMeaning(s: Statuses, wait: seq<string>)
    ensures |wait| == 0 ==> CanTerminate(s, wait) == Ok(forall i :: 0 <= i < |s| ==> !Active(s[i].1))
    ensures |wait| > 0 ==> (CanTerminate(s, wait) == Ok(true) <==>
      forall k :: k in wait ==> Lookup(s, k).Some? && !Active(Lookup(s, k).value))
    ensures CanTerminate(s, wait).Err? <==> exists i :: FirstMissing(s, wait, i)
    ensures forall i :: FirstMissing(s, wait, i) ==> CanTerminate(s, wait) == Err(KeyError(wait[i]))
  {
    if |wait| > 0 {
      AllDoneMeaning(s, wait);
    }
  }

  lemma {:induction false} AllDoneMeaning(s: Statuses, wait: seq<string>)
    ensures AllDone(s, wait) == Ok(true) <==> forall k :: k in wait ==> Lookup(s, k).Some? && !Active(Lookup(s, k).value)
    ensures AllDone(s, wait).Err? <==> exists i :: FirstMissing(s, wait, i)
    ensures forall i :: FirstMissing(s, wait, i) ==> AllDone(s, wait) == Err(KeyError(wait[i]))
    decreases |wait|
  {
    if |wait| > 0 {
      var rest := wait[1..];
      AllDoneMeaning(s, rest);
      assert wait[0] in wait;
      assert forall k :: k in wait <==> k == wait[0] || k in rest;
      var head := Lookup(s, wait[0]);
      if head.None? {
        assert FirstMissing(s, wait, 0);
        forall i | 0 < i < |wait| ensures !FirstMissing(s, wait, i) {
          assert Lookup(s, wait[0]).None?;
        }
      } else if Active(head.value) {
        forall i | 0 <= i < |wait| ensures !FirstMissing(s, wait, i) {
          assert Active(Lookup(s, wait[0]).value);
        }
      } else {
        forall i | 0 <= i < |rest| ensures FirstMissing(s, rest, i) <==> FirstMissing(s, wait, i + 1) {
          assert forall j :: 0 <= j < i ==> rest[j] == wait[j + 1];
          assert rest[i] == wait[i + 1];
          if FirstMissing(s, rest, i) {
            forall j | 0 <= j < i + 1 ensures Lookup(s, wait[j]).Some? && !Active(Lookup(s, wait[j]).value) {
              if j > 0 {
                assert wait[j] == rest[j - 1];
              }
            }
          }
        }
        forall i | FirstMissing(s, wait, i) ensures i > 0 && FirstMissing(s, rest, i - 1) {
        }
        if AllDone(s, wait).Err? {
          var i :| FirstMissing(s, rest, i);
          assert FirstMissing(s, wait, i + 1);
        }
      }
    }
  }

  /** How joining ends: every awaited task done, with the last poll's
      statuses; an exception; or the polls given running out first. */
  datatype JoinEnd = Joined(statuses: Statuses) | Raised(exc: Exc) | StillWaiting

  /** The status reading task_join does on each poll's output. */
  function StatusReader(taskDir: string): string -> Result<Statuses> {
    (stdout: string) => StatusOf(stdout, taskDir)
  }

  /** task_join over the outputs of successive polls, remembering each
      task's last status in `prev`: the end and the events logged. */
  /** What one poll does with the statuses read from it: log and remember
      them, then end (on an exception, or once the awaited tasks are done)
      or go on. */
  datatype Poll = Poll(end: Option<JoinEnd>, prev: map<string, Status>, events: seq<Event>)

  function PollStep(read: Result<Statuses>, wait: seq<string>, prev: map<string, Status>): Poll {
    match read
    case Err(e) => Poll(Some(Raised(e)), prev, [])
    case Ok(s) =>
      var (prev', events) := Observe(prev, s);
      match CanTerminate(s, wait)
      case Err(e) => Poll(Some(Raised(e)), prev', events)
      case Ok(done) => Poll(if done then Some(Joined(s)) else None, prev', events)
  }

  function JoinRun(polls: seq<string>, read: string -> Result<Statuses>, wait: seq<string>, prev: map<string, Status>): (r: (JoinEnd, seq<Event>))
  {
    if |polls| == 0 then (StillWaiting, [])
    else
      var p := PollStep(read(polls[0]), wait, prev);
      if p.end.Some? then (p.end.value, p.events)
      else
        var rest := JoinRun(polls[1..], read, wait, p.prev);
        (rest.0, p.events + rest.1)
  }

  /** Joining ends at the first poll after which it may terminate, with that
      poll's statuses; every earlier poll was read and allowed no end. */
  lemma {:induction false} JoinedAtFirst(polls: seq<string>, read: string -> Result<Statuses>, wait: seq<string>, prev: map<string, Status>)
    requires JoinRun(polls, read, wait, prev).0.Joined?
    ensures exists i :: && 0 <= i < |polls|
                        && read(polls[i]) == Ok(JoinRun(polls, read, wait, prev).0.statuses)
                        && CanTerminate(JoinRun(polls, read, wait, prev).0.statuses, wait) == Ok(true)
                        && forall j :: 0 <= j < i ==> && read(polls[j]).Ok?
                                                       && CanTerminate(read(polls[j]).value, wait) == Ok(false)
    decreases |polls|
  {
    var s := read(polls[0]).value;
    if CanTerminate(s, wait) != Ok(true) {
      var prev' := Observe(prev, s).0;
      JoinedAtFirst(polls[1..], read, wait, prev');
      var i :| && 0 <= i < |polls[1..]|
               && read(polls[1..][i]) == Ok(JoinRun(polls, read, wait, prev).0.statuses)
               && CanTerminate(JoinRun(polls, read, wait, prev).0.statuses, wait) == Ok(true)
               && forall j :: 0 <= j < i ==> && read(polls[1..][j]).Ok?
                                              && CanTerminate(read(polls[1..][j]).value, wait) == Ok(false);
      forall j | 0 <= j < i + 1
        ensures read(polls[j]).Ok? && CanTerminate(read(polls[j]).value, wait) == Ok(false)
      {
        if j > 0 {
          assert polls[j] == polls[1..][j - 1];
        }
      }
      assert polls[i + 1] == polls[1..][i];
    }
  }

  /** Once joining succeeds, what it waited for is done: every awaited task
      is reported and neither running nor waiting, or, with none awaited,
      no task at all runs or waits. */
  lemma {:induction false} JoinedDone(polls: seq<string>, read: string -> Result<Statuses>, wait: seq<string>, prev: map<string, Status>)
    requires JoinRun(polls, read, wait, prev).0.Joined?
    ensures var s := JoinRun(polls, read, wait, prev).0.statuses;
      && (|wait| > 0 ==> forall k :: k in wait ==> Lookup(s, k).Some? && !Active(Lookup(s, k).value))
      && (|wait| == 0 ==> forall i :: 0 <= i < |s| ==> !Active(s[i].1))
  {
    JoinedAtFirst(polls, read, wait, prev);
    CanTerminateMeaning(JoinRun(polls, read, wait, prev).0.statuses, wait);
  }

  /** The inner loop of task_join over one poll's statuses. */
  method ObserveLoop(prev: map<string, Status>, s: Statuses) returns (prev': map<string, Status>, events: seq<Event>)
    ensures (prev', events) == Observe(prev, s)
  {
    prev', events := prev, [];
    var i := 0;
    while i < |s|
      invariant 0 <= i <= |s|
      invariant (prev', events) == Observe(prev, s[..i])
    {
      assert s[..i + 1][..i] == s[..i];
      var task := s[i].0;
      var now := s[i].1;
      if task !in prev' {
        events := events + [Starting(task, now)];
      } else if prev'[task] != now {
        events := events + [Changing(task, prev'[task], now)];
      } else {
        assert events + [] == events;
      }
      assert s[..i + 1][i] == s[i];
      prev' := prev'[task := now];
      i := i + 1;
    }
    assert s[..i] == s;
  }

  /** The check of the awaited tasks, in order. */
  method CheckDone(s: Statuses, wait: seq<string>) returns (r: Result<bool>)
    ensures r == CanTerminate(s, wait)
  {
    if |wait| == 0 {
      var anyRunning := false;
      var i := 0;
      while i < |s|
        invariant 0 <= i <= |s|
        invariant anyRunning <==> exists j :: 0 <= j < i && Active(s[j].1)
      {
        if Active(s[i].1) {
          anyRunning := true;
        }
        i := i + 1;
      }
      return Ok(!anyRunning);
    }
    var k := 0;
    while k < |wait|
      invariant 0 <= k <= |wait|
      invariant AllDone(s, wait[k..]) == AllDone(s, wait)
    {
      var st := Lookup(s, wait[k]);
      if st.None? {
        return Err(KeyError(wait[k]));
      }
      if Active(st.value) {
        return Ok(false);
      }
      assert wait[k..][1..] == wait[k + 1..];
      k := k + 1;
    }
    return Ok(true);
  }

  /** One poll of task_join: read the statuses, log what changed, and
      decide whether to stop. */
  method PollOnce(stdout: string, taskDir: string, wait: seq<string>, prev: map<string, Status>) returns (p: Poll)
    ensures p == PollStep(StatusOf(stdout, taskDir), wait, prev)
  {
    var s := GetStatus(stdout, taskDir);
    if s.Err? {
      return Poll(Some(Raised(s.exc)), prev, []);
    }
    var prev', logged := ObserveLoop(prev, s.value);
    var done := CheckDone(s.value, wait);
    if done.Err? {
      return Poll(Some(Raised(done.exc)), prev', logged);
    }
    p := Poll(if done.value then Some(Joined(s.value)) else None, prev', logged);
  }

  /** task_join: poll, log what changed, and stop once the awaited tasks
      (or, with none awaited, all tasks) are done. */
  method TaskJoin(polls: seq<string>, taskDir: string, wait: seq<string>) returns (r: JoinEnd, events: seq<Event>)
    ensures (r, events) == JoinRun(polls, StatusReader(taskDir), wait, map[])
  {
    ghost var read := StatusReader(taskDir);
    var prev: map<string, Status> := map[];
    events := [];
    var i := 0;
    assert polls[i..] == polls;
    assert JoinRun(polls, read, wait, map[]).1 == events + JoinRun(polls, read, wait, map[]).1;
    while i < |polls|
      invariant 0 <= i <= |polls|
      invariant JoinRun(polls, read, wait, map[]) == (JoinRun(polls[i..], read, wait, prev).0,
                                                     events + JoinRun(polls[i..], read, wait, prev).1)
    {
      assert read(polls[i]) == StatusOf(polls[i], taskDir);
      var p := PollOnce(polls[i], taskDir, wait, prev);
      assert polls[i..][0] == polls[i];
      assert p == PollStep(read(polls[i..][0]), wait, prev);
      if p.end.Some? {
        return p.end.value, events + p.events;
      }
      assert polls[i..][1..] == polls[i + 1..];
      ghost var rest := JoinRun(polls[i + 1..], read, wait, p.prev);
      assert events + (p.events + rest.1) == (events + p.events) + rest.1;
      prev, events := p.prev, events + p.events;
      i := i + 1;
    }
    assert polls[i..] == [];
    assert events + [] == events;
    r := StillWaiting;
  }
}
