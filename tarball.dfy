/** build_tarball and prepare_files: which files go into a task's tarballs,
    whether an existing tarball is stale, and the tar command that rebuilds
    it. The filesystem is a map from paths to what stat reports; glob
    matching is a parameter. */
module Tarball {
  import opened Base
  import opened Text
  import opened Paths
  import opened Globs
  import opened TaskDef

  /** What the model knows of a filesystem entry: its own mtime (lstat)
      and, for a directory, the mtime (stat) of every file and directory
      os.walk finds beneath it. */
  datatype Node = File(mtime: int) | Dir(mtime: int, below: seq<int>)

  type FileSystem = map<Path, Node>

  /** root.glob(pattern): the matching paths, each under root. */
  type Matcher = (Path, string) -> seq<Path>

  /** What build_tarball does: nothing, or log a line and run one tar
      command. */
  datatype Action = Skip | Run(log: string, argv: seq<string>)

  /** A source on disk and its path inside the tarball. */
  type Pair = (Path, Path)

  /** s[1:] */
  function Drop1(s: string): string { if |s| == 0 then s else s[1..] }

  // ---------------------------------------------------------------
  // Which files go in

  /** The pairs one INCLUDE_FILE entry contributes: an existing file (under
      dest, or under dest/name when dest is empty or ends in '/'), an
      existing directory (under dest), or every match of the pattern taken
      as a glob (each under dest/name). */
  function Resolve(fs: FileSystem, home: string, matcher: Matcher, g: Glob): Result<seq<Pair>> {
    var destpath := PathOf(g.dest);
    var src := PathOf(g.pattern);
    if src in fs && fs[src].File? then
      if g.dest == "" || g.dest[|g.dest| - 1] == '/' then Ok([(src, Child(destpath, Name(src)))])
      else Ok([(src, destpath)])
    else if src in fs then Ok([(src, destpath)])
    else
      var matches := GlobMatches(home, matcher, g.pattern);
      if |matches| == 0 && !g.optional then Err(YoExc("file or pattern not found: " + g.pattern))
      else if g.pattern == g.dest then Err(YoExc("glob results need to have a destination directory: " + g.pattern))
      else Ok(Placed(matches, destpath))
  }

  /** The glob of a pattern that names no file: relative to the home
      directory for "~/...", to / otherwise, with the leading character and
      slashes removed. */
  function GlobMatches(home: string, matcher: Matcher, pattern: string): seq<Path> {
    var globroot := if IsPrefix("~/", pattern) then PathOf(home) else RootPath;
    matcher(globroot, LStripChar(Drop1(pattern), '/'))
  }

  /** Each match placed under dest by its name. */
  function Placed(matches: seq<Path>, destpath: Path): (r: seq<Pair>)
    ensures |r| == |matches|
    ensures forall i :: 0 <= i < |r| ==> r[i] == (matches[i], Child(destpath, Name(matches[i])))
  {
    if |matches| == 0 then [] else [(matches[0], Child(destpath, Name(matches[0])))] + Placed(matches[1..], destpath)
  }

  /** The resolution rules of one entry. */
  lemma {:induction false} ResolveRules(fs: FileSystem, home: string, matcher: Matcher, g: Glob)
    ensures var src := PathOf(g.pattern); var r := Resolve(fs, home, matcher, g);
      && ((src in fs && fs[src].File? && (g.dest == "" || g.dest[|g.dest| - 1] == '/'))
            ==> r == Ok([(src, Child(PathOf(g.dest), Name(src)))]))
      && ((src in fs && fs[src].File? && g.dest != "" && g.dest[|g.dest| - 1] != '/')
            ==> r == Ok([(src, PathOf(g.dest))]))
      && (src in fs && fs[src].Dir? ==> r == Ok([(src, PathOf(g.dest))]))
      && (r.Err? ==> src !in fs)
      && ((src !in fs && !g.optional && |GlobMatches(home, matcher, g.pattern)| == 0)
            ==> r == Err(YoExc("file or pattern not found: " + g.pattern)))
      && ((src !in fs && g.pattern == g.dest && (g.optional || |GlobMatches(home, matcher, g.pattern)| > 0))
            ==> r == Err(YoExc("glob results need to have a destination directory: " + g.pattern)))
      && ((src !in fs && g.pattern != g.dest && (g.optional || |GlobMatches(home, matcher, g.pattern)| > 0))
            ==> r == Ok(Placed(GlobMatches(home, matcher, g.pattern), PathOf(g.dest))))
  {
  }

  /** A resolution of one entry, with the filesystem and matcher fixed. */
  type Resolver = Glob -> Result<seq<Pair>>

  function ResolverOf(fs: FileSystem, home: string, matcher: Matcher): Resolver {
    g => Resolve(fs, home, matcher, g)
  }

  /** The pairs of all entries in order, or the first entry's error. */
  function ResolveAll(entries: seq<Glob>, resolve: Resolver): Result<seq<Pair>> {
    if |entries| == 0 then Ok([])
    else
      var prev := ResolveAll(entries[..|entries| - 1], resolve);
      var r := resolve(entries[|entries| - 1]);
      if prev.Err? then prev
      else if r.Err? then Err(r.exc)
      else Ok(prev.value + r.value)
  }

  /** The entries resolve exactly when each of them does. */
  lemma {:induction false} ResolveAllOk(entries: seq<Glob>, resolve: Resolver)
    ensures ResolveAll(entries, resolve).Ok? <==> forall i :: 0 <= i < |entries| ==> resolve(entries[i]).Ok?
  {
    if |entries| > 0 {
      var prefix := entries[..|entries| - 1];
      assert forall i :: 0 <= i < |prefix| ==> prefix[i] == entries[i];
      ResolveAllOk(prefix, resolve);
      if ResolveAll(prefix, resolve).Err? {
        var j :| 0 <= j < |prefix| && !resolve(prefix[j]).Ok?;
        assert !resolve(entries[j]).Ok?;
      }
    }
  }

  /** An error in a prefix of the entries is the error of all of them. */
  lemma {:induction false} ResolvePrefixError(entries: seq<Glob>, k: nat, resolve: Resolver)
    requires k <= |entries| && ResolveAll(entries[..k], resolve).Err?
    ensures ResolveAll(entries, resolve) == ResolveAll(entries[..k], resolve)
  {
    if k < |entries| {
      var prefix := entries[..|entries| - 1];
      assert prefix[..k] == entries[..k];
      ResolvePrefixError(prefix, k, resolve);
    } else {
      assert entries[..k] == entries;
    }
  }

  lemma {:induction false} ResolveStep(entries: seq<Glob>, i: nat, pairs: seq<Pair>, resolve: Resolver)
    requires i < |entries| && ResolveAll(entries[..i], resolve) == Ok(pairs)
    ensures resolve(entries[i]).Err? ==> ResolveAll(entries, resolve) == Err(resolve(entries[i]).exc)
    ensures resolve(entries[i]).Ok? ==> ResolveAll(entries[..i + 1], resolve) == Ok(pairs + resolve(entries[i]).value)
  {
    assert entries[..i + 1][..i] == entries[..i];
    assert entries[..i + 1][i] == entries[i];
    if resolve(entries[i]).Err? {
      ResolvePrefixError(entries, i + 1, resolve);
    }
  }

  // ---------------------------------------------------------------
  // Whether the tarball is stale

  /** A source is newer than the tarball when it, or for a directory any
      entry beneath it, has a later mtime. */
  predicate Newer(node: Node, mtime: int) {
    node.mtime > mtime || (node.Dir? && exists k :: 0 <= k < |node.below| && node.below[k] > mtime)
  }

  /** The for/else loop over the pairs: true at the first newer source,
      false when none is; lstat of a missing source raises. */
  function Stale(fs: FileSystem, pairs: seq<Pair>, mtime: int): Result<bool> {
    if |pairs| == 0 then Ok(false)
    else if pairs[0].0 !in fs then Err(FileNotFound(PathStr(pairs[0].0)))
    else if Newer(fs[pairs[0].0], mtime) then Ok(true)
    else Stale(fs, pairs[1..], mtime)
  }

  /** The tarball is up to date exactly when every source exists and none
      is newer than it. */
  lemma {:induction false} StaleExactly(fs: FileSystem, pairs: seq<Pair>, mtime: int)
    ensures Stale(fs, pairs, mtime) == Ok(false)
        <==> forall i :: 0 <= i < |pairs| ==> pairs[i].0 in fs && !Newer(fs[pairs[i].0], mtime)
    ensures Stale(fs, pairs, mtime) == Ok(true)
        ==> exists i :: 0 <= i < |pairs| && pairs[i].0 in fs && Newer(fs[pairs[i].0], mtime)
  {
    if |pairs| > 0 && pairs[0].0 in fs && !Newer(fs[pairs[0].0], mtime) {
      StaleExactly(fs, pairs[1..], mtime);
      assert forall i :: 1 <= i < |pairs| ==> pairs[i] == pairs[1..][i - 1];
      if Stale(fs, pairs, mtime) == Ok(true) {
        var i :| 0 <= i < |pairs[1..]| && pairs[1..][i].0 in fs && Newer(fs[pairs[1..][i].0], mtime);
        assert pairs[i + 1] == pairs[1..][i];
      }
    }
  }

  // ---------------------------------------------------------------
  // The command

  function DestStrings(pairs: seq<Pair>): (r: seq<string>)
    ensures |r| == |pairs| && forall i :: 0 <= i < |pairs| ==> r[i] == PathStr(pairs[i].1)
  {
    if |pairs| == 0 then [] else DestStrings(pairs[..|pairs| - 1]) + [PathStr(pairs[|pairs| - 1].1)]
  }

  /** ["tar", "-czhf", tarball] followed by each destination, run in a
      directory where each destination links to its source. */
  function TarArgv(tarball: Path, pairs: seq<Pair>): seq<string> {
    ["tar", "-czhf", PathStr(tarball)] + DestStrings(pairs)
  }

  function LogLine(taskName: string, exists_: bool, tarball: Path): string {
    "Task " + taskName + ": " + (if exists_ then "rebuilding" else "building") + " " + Name(tarball)
  }

  /** What build_tarball decides, as a function of its inputs. */
  function TarballAction(fs: FileSystem, home: string, matcher: Matcher, entries: seq<Glob>,
                         tarball: Path, taskName: string): Result<Action>
  {
    var pairs := ResolveAll(entries, ResolverOf(fs, home, matcher));
    if pairs.Err? then Err(pairs.exc)
    else
      var stale := if tarball in fs then Stale(fs, pairs.value, fs[tarball].mtime) else Ok(true);
      if stale.Err? then Err(stale.exc)
      else if !stale.value then Ok(Skip)
      else Ok(Run(LogLine(taskName, tarball in fs, tarball), TarArgv(tarball, pairs.value)))
  }

  lemma {:induction false} StaleStep(fs: FileSystem, pairs: seq<Pair>, j: nat, mtime: int)
    requires j < |pairs|
    ensures pairs[j].0 !in fs ==> Stale(fs, pairs[j..], mtime) == Err(FileNotFound(PathStr(pairs[j].0)))
    ensures pairs[j].0 in fs && Newer(fs[pairs[j].0], mtime) ==> Stale(fs, pairs[j..], mtime) == Ok(true)
    ensures pairs[j].0 in fs && !Newer(fs[pairs[j].0], mtime) ==> Stale(fs, pairs[j..], mtime) == Stale(fs, pairs[j + 1..], mtime)
  {
    assert pairs[j..][0] == pairs[j];
    assert pairs[j..][1..] == pairs[j + 1..];
  }

  lemma {:induction false} DestStringsStep(pairs: seq<Pair>, j: nat)
    requires j < |pairs|
    ensures DestStrings(pairs[..j + 1]) == DestStrings(pairs[..j]) + [PathStr(pairs[j].1)]
  {
    assert pairs[..j + 1][..j] == pairs[..j];
  }

  /** The first loop of build_tarball: the pairs of every entry in order,
      stopping at the first entry that raises. */
  method ResolvePairs(entries: seq<Glob>, resolve: Resolver) returns (r: Result<seq<Pair>>)
    ensures r == ResolveAll(entries, resolve)
  {
    var pairs: seq<Pair> := [];
    var i := 0;
    while i < |entries|
      invariant 0 <= i <= |entries|
      invariant ResolveAll(entries[..i], resolve) == Ok(pairs)
    {
      ResolveStep(entries, i, pairs, resolve);
      var resolved := resolve(entries[i]);
      if resolved.Err? {
        return Err(resolved.exc);
      }
      pairs := pairs + resolved.value;
      i := i + 1;
    }
    assert entries[..i] == entries;
    return Ok(pairs);
  }

  /** The for/else loop: stop at the first source newer than the tarball. */
  method CheckStale(fs: FileSystem, pairs: seq<Pair>, mtime: int) returns (r: Result<bool>)
    ensures r == Stale(fs, pairs, mtime)
  {
    var j := 0;
    while j < |pairs|
      invariant 0 <= j <= |pairs|
      invariant Stale(fs, pairs, mtime) == Stale(fs, pairs[j..], mtime)
    {
      StaleStep(fs, pairs, j, mtime);
      var src := pairs[j].0;
      if src !in fs {
        return Err(FileNotFound(PathStr(src)));
      }
      if Newer(fs[src], mtime) {
        return Ok(true);
      }
      j := j + 1;
    }
    return Ok(false);
  }

  /** The command, one destination appended per pair. */
  method TarCommand(tarball: Path, pairs: seq<Pair>) returns (cmd: seq<string>)
    ensures cmd == TarArgv(tarball, pairs)
  {
    cmd := ["tar", "-czhf", PathStr(tarball)];
    var j := 0;
    while j < |pairs|
      invariant 0 <= j <= |pairs|
      invariant cmd == ["tar", "-czhf", PathStr(tarball)] + DestStrings(pairs[..j])
    {
      DestStringsStep(pairs, j);
      cmd := cmd + [PathStr(pairs[j].1)];
      j := j + 1;
    }
    assert pairs[..j] == pairs;
  }

  /** build_tarball(ctx, include_files, root, tarball, task_name). The
      `root` parameter is accepted and never used, as in the source. */
  method BuildTarball(fs: FileSystem, home: string, matcher: Matcher, entries: seq<Glob>,
                      root: Path, tarball: Path, taskName: string)
    returns (r: Result<Action>)
    ensures r == TarballAction(fs, home, matcher, entries, tarball, taskName)
  {
    var pairs := ResolvePairs(entries, ResolverOf(fs, home, matcher));
    if pairs.Err? {
      return Err(pairs.exc);
    }
    var verb := "building";
    if tarball in fs {
      verb := "rebuilding";
      var stale := CheckStale(fs, pairs.value, fs[tarball].mtime);
      if stale.Err? {
        return Err(stale.exc);
      }
      if !stale.value {
        return Ok(Skip);
      }
    }
    var cmd := TarCommand(tarball, pairs.value);
    return Ok(Run("Task " + taskName + ": " + verb + " " + Name(tarball), cmd));
  }

  // ---------------------------------------------------------------
  // What build_tarball promises

  /** It does nothing exactly when every entry resolves, the tarball
      exists, and no source, nor anything beneath a source directory, is
      newer than the tarball. */
  lemma {:induction false} SkipExactly(fs: FileSystem, home: string, matcher: Matcher, entries: seq<Glob>,
                                       tarball: Path, taskName: string)
    ensures var pairs := ResolveAll(entries, ResolverOf(fs, home, matcher));
      TarballAction(fs, home, matcher, entries, tarball, taskName) == Ok(Skip)
      <==> && pairs.Ok? && tarball in fs
           && forall i :: 0 <= i < |pairs.value| ==>
                pairs.value[i].0 in fs && !Newer(fs[pairs.value[i].0], fs[tarball].mtime)
  {
    var pairs := ResolveAll(entries, ResolverOf(fs, home, matcher));
    if pairs.Ok? && tarball in fs {
      StaleExactly(fs, pairs.value, fs[tarball].mtime);
    }
  }

  /** Otherwise, on success, it logs and runs exactly one tar command
      naming the tarball and then every destination, in order. */
  lemma {:induction false} RunLayout(fs: FileSystem, home: string, matcher: Matcher, entries: seq<Glob>,
                                     tarball: Path, taskName: string)
    requires TarballAction(fs, home, matcher, entries, tarball, taskName).Ok?
    requires TarballAction(fs, home, matcher, entries, tarball, taskName) != Ok(Skip)
    ensures var pairs := ResolveAll(entries, ResolverOf(fs, home, matcher)).value;
      var a := TarballAction(fs, home, matcher, entries, tarball, taskName).value;
      && a.Run?
      && |a.argv| == 3 + |pairs|
      && a.argv[..3] == ["tar", "-czhf", PathStr(tarball)]
      && (forall i :: 0 <= i < |pairs| ==> a.argv[3 + i] == PathStr(pairs[i].1))
      && a.log == LogLine(taskName, tarball in fs, tarball)
  {
  }

  /** A required entry that names no file or directory and whose glob
      matches nothing makes the whole call raise. */
  lemma {:induction false} MissingRequiredRaises(fs: FileSystem, home: string, matcher: Matcher, entries: seq<Glob>,
                                                 tarball: Path, taskName: string, k: nat)
    requires k < |entries| && !entries[k].optional && PathOf(entries[k].pattern) !in fs
    requires |GlobMatches(home, matcher, entries[k].pattern)| == 0
    ensures TarballAction(fs, home, matcher, entries, tarball, taskName).Err?
  {
    ResolveRules(fs, home, matcher, entries[k]);
    ResolveAllOk(entries, ResolverOf(fs, home, matcher));
  }

  /** A tarball written after every source was last modified is current:
      once tar has run, the same call does nothing. */
  lemma {:induction false} RebuiltIsCurrent(fs: FileSystem, home: string, matcher: Matcher, entries: seq<Glob>,
                                            tarball: Path, taskName: string, now: int)
    requires TarballAction(fs, home, matcher, entries, tarball, taskName).Ok?
    requires forall i :: 0 <= i < |entries| ==> PathOf(entries[i].pattern) != tarball
    requires var pairs := ResolveAll(entries, ResolverOf(fs, home, matcher)).value;
      forall i :: 0 <= i < |pairs| ==> pairs[i].0 != tarball && pairs[i].0 in fs && !Newer(fs[pairs[i].0], now)
    ensures TarballAction(fs[tarball := File(now)], home, matcher, entries, tarball, taskName) == Ok(Skip)
  {
    var fs' := fs[tarball := File(now)];
    SameResolution(fs, fs', home, matcher, entries, tarball);
    SkipExactly(fs', home, matcher, entries, tarball, taskName);
  }

  /** Entries that do not name the tarball resolve the same whatever the
      tarball is. */
  lemma {:induction false} SameResolution(fs: FileSystem, fs': FileSystem, home: string, matcher: Matcher,
                                          entries: seq<Glob>, tarball: Path)
    requires forall p :: p != tarball ==> (p in fs <==> p in fs') && (p in fs ==> fs[p] == fs'[p])
    requires forall i :: 0 <= i < |entries| ==> PathOf(entries[i].pattern) != tarball
    ensures ResolveAll(entries, ResolverOf(fs, home, matcher)) == ResolveAll(entries, ResolverOf(fs', home, matcher))
  {
    var r1 := ResolverOf(fs, home, matcher);
    var r2 := ResolverOf(fs', home, matcher);
    forall i | 0 <= i < |entries| ensures r1(entries[i]) == r2(entries[i]) {
      SameResolve(fs, fs', home, matcher, entries[i]);
    }
    SameFold(entries, r1, r2);
  }

  /** Resolvers that agree on every entry agree on all of them. */
  lemma {:induction false} SameFold(entries: seq<Glob>, r1: Resolver, r2: Resolver)
    requires forall i :: 0 <= i < |entries| ==> r1(entries[i]) == r2(entries[i])
    ensures ResolveAll(entries, r1) == ResolveAll(entries, r2)
  {
    if |entries| > 0 {
      var prefix := entries[..|entries| - 1];
      assert forall i :: 0 <= i < |prefix| ==> prefix[i] == entries[i];
      SameFold(prefix, r1, r2);
    }
  }

  lemma {:induction false} SameResolve(fs: FileSystem, fs': FileSystem, home: string, matcher: Matcher, g: Glob)
    requires PathOf(g.pattern) in fs <==> PathOf(g.pattern) in fs'
    requires PathOf(g.pattern) in fs ==> fs[PathOf(g.pattern)] == fs'[PathOf(g.pattern)]
    ensures Resolve(fs, home, matcher, g) == Resolve(fs', home, matcher, g)
  {
  }

  // ---------------------------------------------------------------
  // prepare_files

  /** ~/.cache/yo/task-files/<task name> */
  function StagingDir(home: string, name: string): Path {
    Child(JoinPath(PathOf(home), TaskFiles), name)
  }

  /** The relative path `.cache/yo/task-files`, as PathOf reads it. */
  const TaskFiles := Path(false, [".cache", "yo", "task-files"])

  /** The path `/`. */
  const RootPath := Path(true, [])

  /** The filesystem after an action: a tar run leaves the tarball
      written at time `now`. */
  function AfterAction(fs: FileSystem, a: Action, tarball: Path, now: int): FileSystem {
    if a.Run? then fs[tarball := File(now)] else fs
  }

  /** Every path that is a regular file stays one. */
  predicate FilesKept(fs: FileSystem, fs': FileSystem) {
    forall p :: p in fs && fs[p].File? ==> p in fs' && fs'[p].File?
  }

  /** ~/.cache/yo/task-files/<task name>/user.tar.gz */
  function UserTarball(home: string, name: string): Path { JoinPath(StagingDir(home, name), Path(false, ["user.tar.gz"])) }

  /** ~/.cache/yo/task-files/<task name>/system.tar.gz */
  function SystemTarball(home: string, name: string): Path { JoinPath(StagingDir(home, name), Path(false, ["system.tar.gz"])) }

  /** The tarballs added to the task's sendfiles, one per non-empty list. */
  function Tarballs(user: seq<Glob>, system: seq<Glob>, ut: Path, st: Path): seq<Path> {
    (if user != [] then [ut] else []) + (if system != [] then [st] else [])
  }

  /** task.prepare_files(ctx): pack the task's INCLUDE_FILE entries into a
      home-rooted and a /-rooted tarball, send those instead, and forget
      the entries. A failure leaves the changes made before it (a tarball
      appended to sendfiles) in place, as in the source. `now` is the time
      at which tar writes a tarball. */
  method PrepareFiles(t: Task, fs: FileSystem, home: string, matcher: Matcher, now: int)
    returns (t': Task, fs': FileSystem, actions: seq<Action>, out: Outcome)
    ensures t.includeFiles == [] ==> t' == t && fs' == fs && actions == [] && out == Pass
    ensures (t.includeFiles != [] && StandardizeGlobs(home, t.includeFiles).Err?)
      ==> t' == t && fs' == fs && actions == [] && out == Fail(StandardizeGlobs(home, t.includeFiles).exc)
    ensures (t.includeFiles != [] && StandardizeGlobs(home, t.includeFiles).Ok?) ==>
      var lists := StandardizeGlobs(home, t.includeFiles).value;
      Packed(t, fs, home, matcher, lists.0, lists.1, UserTarball(home, t.name), SystemTarball(home, t.name), now, t', fs', actions, out)
    ensures Packing(t', fs', actions, out) == PrepareFilesOf(t, fs, home, matcher, now)
    ensures FilesKept(fs, fs')
  {
    if t.includeFiles == [] {
      return t, fs, [], Pass;
    }
    t', fs', actions, out := PrepareListed(t, fs, home, matcher, now);
  }

  /** prepare_files for a task with INCLUDE_FILE entries. */
  method PrepareListed(t: Task, fs: FileSystem, home: string, matcher: Matcher, now: int)
    returns (t': Task, fs': FileSystem, actions: seq<Action>, out: Outcome)
    ensures StandardizeGlobs(home, t.includeFiles).Err?
      ==> t' == t && fs' == fs && actions == [] && out == Fail(StandardizeGlobs(home, t.includeFiles).exc)
    ensures StandardizeGlobs(home, t.includeFiles).Ok? ==>
      var lists := StandardizeGlobs(home, t.includeFiles).value;
      Packed(t, fs, home, matcher, lists.0, lists.1, UserTarball(home, t.name), SystemTarball(home, t.name), now, t', fs', actions, out)
    ensures t.includeFiles != [] ==> Packing(t', fs', actions, out) == PrepareFilesOf(t, fs, home, matcher, now)
    ensures FilesKept(fs, fs')
  {
    var globs := StandardizeGlobs(home, t.includeFiles);
    if globs.Err? {
      return t, fs, [], Fail(globs.exc);
    }
    t', fs', actions, out := PackAll(t, fs, home, matcher, globs.value.0, globs.value.1,
                                     UserTarball(home, t.name), SystemTarball(home, t.name), now);
  }

  /** What packing the two lists leaves: only sendfiles and include_files
      change; the tarballs of the lists packed so far are sent, in order;
      the user list is packed first against fs, the system list against
      the filesystem that leaves; the first failing build_tarball stops
      the packing with its error; on success every list was packed and the
      entries are forgotten. */
  predicate Packed(t: Task, fs: FileSystem, home: string, matcher: Matcher, user: seq<Glob>, system: seq<Glob>,
                   ut: Path, st: Path, now: int, t': Task, fs': FileSystem, actions: seq<Action>, out: Outcome)
  {
    var tarballs := Tarballs(user, system, ut, st);
    var ua := TarballAction(fs, home, matcher, user, ut, t.name);
    var userDone := user == [] || ua.Ok?;
    var fs1 := if user != [] && ua.Ok? then AfterAction(fs, ua.value, ut, now) else fs;
    var sa := TarballAction(fs1, home, matcher, system, st, t.name);
    && t'.(includeFiles := t.includeFiles, sendfiles := t.sendfiles) == t
    && |actions| <= |tarballs|
    && t'.sendfiles == t.sendfiles + tarballs[..|actions|]
    && (out.Fail? ==> t'.includeFiles == t.includeFiles)
    && (out.Pass? ==> |actions| == |tarballs| && t'.includeFiles == [])
    && (user != [] && ua.Err? ==> actions == [] && out == Fail(ua.exc) && fs' == fs)
    && (user != [] && ua.Ok? ==> |actions| > 0 && actions[0] == ua.value)
    && (userDone && system == [] ==> out == Pass && fs' == fs1)
    && (userDone && system != [] && sa.Err? ==>
          out == Fail(sa.exc) && fs' == fs1 && actions == (if user != [] then [ua.value] else []))
    && (userDone && system != [] && sa.Ok? ==>
          out == Pass && |actions| > 0 && actions[|actions| - 1] == sa.value && fs' == AfterAction(fs1, sa.value, st, now))
  }

  /** What prepare_files leaves: the task, the filesystem, the tar runs
      and the outcome. */
  datatype Packing = Packing(task: Task, fs: FileSystem, actions: seq<Action>, out: Outcome)

  /** The two lists packed in turn: the user list against fs, the system
      list against what that leaves, stopping at the first error. */
  function PackLists(t: Task, fs: FileSystem, home: string, matcher: Matcher, user: seq<Glob>, system: seq<Glob>,
                     ut: Path, st: Path, now: int): (p: Packing)
    ensures FilesKept(fs, p.fs)
    ensures p.task.(includeFiles := t.includeFiles, sendfiles := t.sendfiles) == t && t.sendfiles <= p.task.sendfiles
    ensures p.out.Pass? ==> p.task.includeFiles == []
  {
    var ua := TarballAction(fs, home, matcher, user, ut, t.name);
    if user != [] && ua.Err? then Packing(t, fs, [], Fail(ua.exc))
    else
      var t1 := if user != [] then t.(sendfiles := t.sendfiles + [ut]) else t;
      var fs1 := if user != [] then AfterAction(fs, ua.value, ut, now) else fs;
      var acts := if user != [] then [ua.value] else [];
      if system == [] then Packing(t1.(includeFiles := []), fs1, acts, Pass)
      else
        var sa := TarballAction(fs1, home, matcher, system, st, t.name);
        if sa.Err? then Packing(t1, fs1, acts, Fail(sa.exc))
        else
          Packing(t1.(sendfiles := t1.sendfiles + [st], includeFiles := []),
                  AfterAction(fs1, sa.value, st, now), acts + [sa.value], Pass)
  }

  /** The function meets the description: packing the lists is Packed. */
  lemma {:induction false} PackListsPacked(t: Task, fs: FileSystem, home: string, matcher: Matcher, user: seq<Glob>,
                                           system: seq<Glob>, ut: Path, st: Path, now: int)
    ensures var p := PackLists(t, fs, home, matcher, user, system, ut, st, now);
      Packed(t, fs, home, matcher, user, system, ut, st, now, p.task, p.fs, p.actions, p.out)
  {
    var tarballs := Tarballs(user, system, ut, st);
    var k := if user != [] then 1 else 0;
    assert tarballs[..k] == if user != [] then [ut] else [];
    assert tarballs[..0] == [];
    assert system != [] ==> tarballs[..k + 1] == tarballs;
  }

  /** task.prepare_files(ctx) as a function of its inputs. */
  function PrepareFilesOf(t: Task, fs: FileSystem, home: string, matcher: Matcher, now: int): (p: Packing)
    ensures FilesKept(fs, p.fs)
    ensures p.task.(includeFiles := t.includeFiles, sendfiles := t.sendfiles) == t && t.sendfiles <= p.task.sendfiles
    ensures p.out.Pass? ==> p.task.includeFiles == []
    ensures t.includeFiles == [] ==> p == Packing(t, fs, [], Pass)
  {
    if t.includeFiles == [] then Packing(t, fs, [], Pass)
    else
      var globs := StandardizeGlobs(home, t.includeFiles);
      if globs.Err? then Packing(t, fs, [], Fail(globs.exc))
      else PackLists(t, fs, home, matcher, globs.value.0, globs.value.1,
                     UserTarball(home, t.name), SystemTarball(home, t.name), now)
  }

  /** The two `if` blocks of prepare_files and the final clear(). */
  method PackAll(t: Task, fs: FileSystem, home: string, matcher: Matcher, user: seq<Glob>, system: seq<Glob>,
                 ut: Path, st: Path, now: int)
    returns (t': Task, fs': FileSystem, actions: seq<Action>, out: Outcome)
    ensures Packing(t', fs', actions, out) == PackLists(t, fs, home, matcher, user, system, ut, st, now)
    ensures Packed(t, fs, home, matcher, user, system, ut, st, now, t', fs', actions, out)
    ensures FilesKept(fs, fs')
  {
    PackListsPacked(t, fs, home, matcher, user, system, ut, st, now);
    t', fs', actions, out := t, fs, [], Pass;
    if user != [] {
      var a;
      t', fs', a := PackList(t', fs', home, matcher, user, PathOf(home), ut, now);
      if a.Err? {
        return t', fs', actions, Fail(a.exc);
      }
      actions := [a.value];
    }
    if system != [] {
      var a;
      t', fs', a := PackList(t', fs', home, matcher, system, RootPath, st, now);
      if a.Err? {
        return t', fs', actions, Fail(a.exc);
      }
      actions := actions + [a.value];
    }
    t' := t'.(includeFiles := []);
  }

  /** One `if user:` or `if system:` block: build the tarball and, unless
      that raises, send it. */
  method PackList(t: Task, fs: FileSystem, home: string, matcher: Matcher, entries: seq<Glob>,
                  root: Path, tarball: Path, now: int)
    returns (t': Task, fs': FileSystem, a: Result<Action>)
    ensures a == TarballAction(fs, home, matcher, entries, tarball, t.name)
    ensures a.Ok? ==> t' == t.(sendfiles := t.sendfiles + [tarball]) && fs' == AfterAction(fs, a.value, tarball, now)
    ensures a.Err? ==> t' == t && fs' == fs
    ensures FilesKept(fs, fs')
  {
    a := BuildTarball(fs, home, matcher, entries, root, tarball, t.name);
    if a.Err? {
      return t, fs, a;
    }
    return t.(sendfiles := t.sendfiles + [tarball]), AfterAction(fs, a.value, tarball, now), a;
  }
}
