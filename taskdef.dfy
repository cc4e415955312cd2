/** Task definitions: a task is a shell script whose directive lines
    (DEPENDS_ON, CONFLICTS_WITH, ...) declare its relations to other tasks
    and the files it needs. */
module TaskDef {
  import opened Base
  import opened Text
  import opened Paths
  import opened Globs

  /** A loaded task (YoTask). */
  datatype Task = Task(
    name: string,
    path: string,
    script: string,
    dependencies: seq<string>,
    conflicts: seq<string>,
    prereqFor: seq<string>,
    includeFiles: seq<Glob>,
    sendfiles: seq<Path>)

  /** shlex.split: a line to its shell words, or the error it raises. */
  type Tokenizer = string -> Result<seq<string>>

  /** What one script line declares. */
  datatype Directive =
    | Plain
    | DependsOn(task: string)
    | ConflictsWith(task: string)
      /** `found` records whether the task is in the catalog. */
    | MaybeDependsOn(task: string, found: bool)
    | PrereqFor(task: string)
    | IncludeFile(glob: Glob)
    | SendFile(file: Path)

  const Keywords: seq<string> := ["DEPENDS_ON", "CONFLICTS_WITH", "MAYBE_DEPENDS_ON",
    "PREREQ_FOR", "INCLUDE_FILE", "MAYBE_INCLUDE_FILE", "SENDFILE"]

  function ArityError(keyword: string, expects: string, args: seq<string>, line: string): Exc {
    YoExc(keyword + " expects " + expects + ", got " + IntToString(|args| - 1) + "\n" + line)
  }

  /** The directive of the keywords that name one task. */
  function TaskDirective(k: nat, task: string, allTasks: seq<string>): Directive
    requires k <= 3
  {
    if k == 0 then DependsOn(task)
    else if k == 1 then ConflictsWith(task)
    else if k == 2 then MaybeDependsOn(task, task in allTasks)
    else PrereqFor(task)
  }

  /** The directive of the keywords that name files, from the line's shell words. */
  function FileDirective(k: nat, line: string, args: seq<string>, home: string): Result<Directive>
    requires 4 <= k < |Keywords|
  {
    if k == 6 then
      if |args| != 2 then Err(ArityError("SENDFILE", "1 arg", args, line))
      else Ok(SendFile(PathOf(ExpandUser(home, args[1]))))
    else if |args| == 3 then Ok(IncludeFile(Glob(args[1], args[2], k == 5)))
    else if |args| == 2 then Ok(IncludeFile(Glob(args[1], args[1], k == 5)))
    else Err(ArityError(Keywords[k], "1-2 args", args, line))
  }

  /** The index of the first keyword, in the order the source tests them,
      that the line starts with; |Keywords| when there is none. */
  function FirstKeyword(line: string, k: nat): (r: nat)
    requires k <= |Keywords|
    ensures k <= r <= |Keywords|
    ensures r < |Keywords| ==> IsPrefix(Keywords[r], line)
    ensures forall j :: k <= j < r ==> !IsPrefix(Keywords[j], line)
    decreases |Keywords| - k
  {
    if k == |Keywords| || IsPrefix(Keywords[k], line) then k else FirstKeyword(line, k + 1)
  }

  /** The meaning of a stripped script line. A task keyword takes the
      second whitespace-separated field (line.split(None, 1)[1], an index
      error when missing); a file keyword takes the line's shell words. */
  function ParseStripped(line: string, allTasks: seq<string>, home: string, tokenize: Tokenizer): Result<Directive> {
    var k := FirstKeyword(line, 0);
    if k == |Keywords| then Ok(Plain)
    else if k <= 3 then
      var fields := SplitMax1(line);
      if |fields| < 2 then Err(IndexError) else Ok(TaskDirective(k, fields[1], allTasks))
    else
      match tokenize(line)
      case Err(e) => Err(e)
      case Ok(args) => FileDirective(k, line, args, home)
  }

  /** The meaning of one script line: the tests run on the stripped line. */
  function ParseLine(raw: string, allTasks: seq<string>, home: string, tokenize: Tokenizer): Result<Directive> {
    ParseStripped(Strip(raw), allTasks, home, tokenize)
  }

  /** The line as it is left in the script. */
  function Rewrite(raw: string, d: Directive): string {
    match d
    case MaybeDependsOn(_, found) =>
      Replace(Strip(raw), "MAYBE_DEPENDS_ON", if found then "DEPENDS_ON" else "# MAYBE_DEPENDS_ON")
    case IncludeFile(_) => "# " + Strip(raw)
    case SendFile(_) => "# " + Strip(raw)
    case _ => raw
  }

  /** A line parser with the catalog, the home directory and the tokenizer fixed. */
  type LineParser = string -> Result<Directive>

  function Parser(allTasks: seq<string>, home: string, tokenize: Tokenizer): LineParser {
    raw => ParseLine(raw, allTasks, home, tokenize)
  }

  /** The directives of a sequence of lines, or the first line's error. */
  function ParseAll(lines: seq<string>, parse: LineParser): (r: Result<seq<Directive>>)
    ensures r.Ok? ==> |r.value| == |lines|
  {
    if |lines| == 0 then Ok([])
    else
      var prev := ParseAll(lines[..|lines| - 1], parse);
      var d := parse(lines[|lines| - 1]);
      if prev.Err? then prev
      else if d.Err? then Err(d.exc)
      else Ok(prev.value + [d.value])
  }

  /** The lines parse exactly when each of them does, each to its own directive. */
  lemma {:induction false} ParseAllLines(lines: seq<string>, parse: LineParser)
    ensures ParseAll(lines, parse).Ok? <==> forall i :: 0 <= i < |lines| ==> parse(lines[i]).Ok?
    ensures ParseAll(lines, parse).Ok? ==>
      forall i :: 0 <= i < |lines| ==> parse(lines[i]) == Ok(ParseAll(lines, parse).value[i])
  {
    if |lines| > 0 {
      var prefix := lines[..|lines| - 1];
      assert forall i :: 0 <= i < |prefix| ==> prefix[i] == lines[i];
      ParseAllLines(prefix, parse);
      if ParseAll(prefix, parse).Err? {
        var j :| 0 <= j < |prefix| && !parse(prefix[j]).Ok?;
        assert !parse(lines[j]).Ok?;
      }
    }
  }

  /** A parse error in a prefix of the lines is the error of all of them. */
  lemma {:induction false} ParseAllPrefixError(lines: seq<string>, k: nat, parse: LineParser)
    requires k <= |lines| && ParseAll(lines[..k], parse).Err?
    ensures ParseAll(lines, parse) == ParseAll(lines[..k], parse)
  {
    if k < |lines| {
      var prefix := lines[..|lines| - 1];
      assert prefix[..k] == lines[..k];
      ParseAllPrefixError(prefix, k, parse);
    } else {
      assert lines[..k] == lines;
    }
  }

  /** The lines after rewriting. */
  function RewriteAll(lines: seq<string>, ds: seq<Directive>): (r: seq<string>)
    requires |ds| == |lines|
    ensures |r| == |lines| && forall i :: 0 <= i < |lines| ==> r[i] == Rewrite(lines[i], ds[i])
  {
    if |lines| == 0 then []
    else RewriteAll(lines[..|lines| - 1], ds[..|ds| - 1]) + [Rewrite(lines[|lines| - 1], ds[|ds| - 1])]
  }

  /** What each kind of directive contributes to the task's lists. */
  function DependencyOf(d: Directive): seq<string> {
    match d
    case DependsOn(t) => [t]
    case MaybeDependsOn(t, true) => [t]
    case _ => []
  }
  function ConflictOf(d: Directive): seq<string> { if d.ConflictsWith? then [d.task] else [] }
  function PrereqOf(d: Directive): seq<string> { if d.PrereqFor? then [d.task] else [] }
  function IncludeOf(d: Directive): seq<Glob> { if d.IncludeFile? then [d.glob] else [] }
  function SendfileOf(d: Directive): seq<Path> { if d.SendFile? then [d.file] else [] }

  /** The contributions of the directives, in line order. */
  function Collect<T>(ds: seq<Directive>, pick: Directive -> seq<T>): seq<T> {
    if |ds| == 0 then [] else Collect(ds[..|ds| - 1], pick) + pick(ds[|ds| - 1])
  }

  /** The task a successfully parsed script defines. */
  function TaskOf(name: string, path: string, lines: seq<string>, ds: seq<Directive>): Task
    requires |ds| == |lines|
  {
    Task(name, path, Join(RewriteAll(lines, ds), "\n"),
      Collect(ds, DependencyOf), Collect(ds, ConflictOf), Collect(ds, PrereqOf),
      Collect(ds, IncludeOf), Collect(ds, SendfileOf))
  }

  lemma {:induction false} CollectStep<T>(ds: seq<Directive>, d: Directive, pick: Directive -> seq<T>)
    ensures Collect(ds + [d], pick) == Collect(ds, pick) + pick(d)
  {
    assert (ds + [d])[..|ds|] == ds;
  }

  /** One more line parsed: the directives grow by its directive, or the
      whole parse fails with its error. */
  lemma {:induction false} ScanStep(orig: seq<string>, i: nat, ds: seq<Directive>, parse: LineParser)
    requires i < |orig| && ParseAll(orig[..i], parse) == Ok(ds)
    ensures parse(orig[i]).Err? ==> ParseAll(orig, parse) == Err(parse(orig[i]).exc)
    ensures parse(orig[i]).Ok? ==> ParseAll(orig[..i + 1], parse) == Ok(ds + [parse(orig[i]).value])
  {
    assert orig[..i + 1][..i] == orig[..i];
    assert orig[..i + 1][i] == orig[i];
    if parse(orig[i]).Err? {
      ParseAllPrefixError(orig, i + 1, parse);
    }
  }

  /** One more line rewritten in place. */
  lemma {:induction false} RewriteStep(orig: seq<string>, i: nat, ds: seq<Directive>, d: Directive)
    requires i < |orig| && |ds| == i
    ensures RewriteAll(orig[..i + 1], ds + [d]) + orig[i + 1..]
         == (RewriteAll(orig[..i], ds) + orig[i..])[i := Rewrite(orig[i], d)]
  {
    assert orig[..i + 1][..i] == orig[..i];
    assert (ds + [d])[..i] == ds;
    assert RewriteAll(orig[..i + 1], ds + [d]) == RewriteAll(orig[..i], ds) + [Rewrite(orig[i], d)];
    assert orig[i..] == [orig[i]] + orig[i + 1..];
  }

  /** The loop of create_from_string over the script's lines, for any
      parser of one line: each line's directive is appended to the list it
      belongs to and the line is replaced by its rewritten form. */
  method ScanLines(name: string, path: string, orig: seq<string>, parse: LineParser)
    returns (r: Result<Task>)
    ensures var parsed := ParseAll(orig, parse);
      r == if parsed.Ok? then Ok(TaskOf(name, path, orig, parsed.value)) else Err(parsed.exc)
  {
    var lines := orig;
    var dependencies: seq<string> := [];
    var conflicts: seq<string> := [];
    var prereqFor: seq<string> := [];
    var includeFiles: seq<Glob> := [];
    var sendfiles: seq<Path> := [];
    ghost var ds: seq<Directive> := [];
    var i := 0;
    while i < |lines|
      invariant |lines| == |orig| && 0 <= i <= |orig|
      invariant ParseAll(orig[..i], parse) == Ok(ds)
      invariant lines == RewriteAll(orig[..i], ds) + orig[i..]
      invariant dependencies == Collect(ds, DependencyOf)
      invariant conflicts == Collect(ds, ConflictOf)
      invariant prereqFor == Collect(ds, PrereqOf)
      invariant includeFiles == Collect(ds, IncludeOf)
      invariant sendfiles == Collect(ds, SendfileOf)
    {
      var raw := lines[i];
      ScanStep(orig, i, ds, parse);
      var parsed := parse(raw);
      if parsed.Err? {
        return Err(parsed.exc);
      }
      var d := parsed.value;
      RewriteStep(orig, i, ds, d);
      CollectStep(ds, d, DependencyOf);
      CollectStep(ds, d, ConflictOf);
      CollectStep(ds, d, PrereqOf);
      CollectStep(ds, d, IncludeOf);
      CollectStep(ds, d, SendfileOf);
      lines := lines[i := Rewrite(raw, d)];
      dependencies := dependencies + DependencyOf(d);
      conflicts := conflicts + ConflictOf(d);
      prereqFor := prereqFor + PrereqOf(d);
      includeFiles := includeFiles + IncludeOf(d);
      sendfiles := sendfiles + SendfileOf(d);
      ds := ds + [d];
      i := i + 1;
    }
    assert orig[..i] == orig;
    assert lines == RewriteAll(orig, ds);
    return Ok(Task(name, path, Join(lines, "\n"), dependencies, conflicts, prereqFor, includeFiles, sendfiles));
  }

  /** YoTask.create_from_string(name, script, path): the script is split
      into lines and scanned with the directive parser. The catalog
      (list_tasks()), the home directory and shlex.split are parameters. */
  method CreateFromString(name: string, script: string, path: string, allTasks: seq<string>, home: string, tokenize: Tokenizer)
    returns (r: Result<Task>)
    ensures var lines := SplitOn(script, '\n');
      var parsed := ParseAll(lines, Parser(allTasks, home, tokenize));
      r == if parsed.Ok? then Ok(TaskOf(name, path, lines, parsed.value)) else Err(parsed.exc)
  {
    r := ScanLines(name, path, SplitOn(script, '\n'), Parser(allTasks, home, tokenize));
  }

  // ---------------------------------------------------------------
  // What the parser promises

  /** No directive keyword is a prefix of another, so a line starts with
      at most one of them and the order of the tests does not matter. */
  lemma {:induction false} KeywordsExclusive(line: string, j: nat, k: nat)
    requires j < |Keywords| && k < |Keywords| && j != k
    ensures !(IsPrefix(Keywords[j], line) && IsPrefix(Keywords[k], line))
  {
    var a := Keywords[j];
    var b := Keywords[k];
    // Only MAYBE_DEPENDS_ON and MAYBE_INCLUDE_FILE share a first letter.
    var d := if (j == 2 && k == 5) || (j == 5 && k == 2) then 6 else 0;
    assert d < |a| && d < |b| && a[d] != b[d];
    assert IsPrefix(a, line) ==> line[d] == a[d];
    assert IsPrefix(b, line) ==> line[d] == b[d];
  }

  /** The keyword a line starts with is the one the parser dispatches on. */
  lemma {:induction false} FirstKeywordIs(line: string, k: nat)
    requires k < |Keywords| && IsPrefix(Keywords[k], line)
    ensures FirstKeyword(line, 0) == k
  {
    forall j | 0 <= j < |Keywords| && j != k ensures !IsPrefix(Keywords[j], line) {
      KeywordsExclusive(line, j, k);
    }
  }

  /** DEPENDS_ON, CONFLICTS_WITH and PREREQ_FOR take the second
      whitespace-separated field of the stripped line, catalog or not;
      a missing argument is an index error, not a YoExc. */
  lemma {:induction false} RelationDirective(raw: string, allTasks: seq<string>, home: string, tokenize: Tokenizer, k: nat)
    requires k in {0, 1, 3} && IsPrefix(Keywords[k], Strip(raw))
    ensures var fields := SplitMax1(Strip(raw)); var r := ParseLine(raw, allTasks, home, tokenize);
      && (|fields| < 2 <==> r == Err(IndexError))
      && (|fields| == 2 && k == 0 ==> r == Ok(DependsOn(fields[1])))
      && (|fields| == 2 && k == 1 ==> r == Ok(ConflictsWith(fields[1])))
      && (|fields| == 2 && k == 3 ==> r == Ok(PrereqFor(fields[1])))
  {
    FirstKeywordIs(Strip(raw), k);
  }

  /** MAYBE_DEPENDS_ON x records whether x is in the catalog. */
  lemma {:induction false} MaybeDirective(raw: string, allTasks: seq<string>, home: string, tokenize: Tokenizer)
    requires IsPrefix("MAYBE_DEPENDS_ON", Strip(raw))
    ensures var fields := SplitMax1(Strip(raw)); var r := ParseLine(raw, allTasks, home, tokenize);
      && (|fields| < 2 <==> r == Err(IndexError))
      && (|fields| == 2 ==> r == Ok(MaybeDependsOn(fields[1], fields[1] in allTasks)))
  {
    FirstKeywordIs(Strip(raw), 2);
  }

  /** INCLUDE_FILE and MAYBE_INCLUDE_FILE take one argument (the
      destination is the source) or two; MAYBE_ marks the entry optional.
      Any other count is a YoExc naming the count. */
  lemma {:induction false} IncludeDirective(raw: string, allTasks: seq<string>, home: string, tokenize: Tokenizer, k: nat)
    requires k in {4, 5} && IsPrefix(Keywords[k], Strip(raw))
    ensures var line := Strip(raw); var r := ParseLine(raw, allTasks, home, tokenize);
      && (tokenize(line).Err? ==> r == Err(tokenize(line).exc))
      && (tokenize(line).Ok? ==> var args := tokenize(line).value;
           && (|args| == 2 ==> r == Ok(IncludeFile(Glob(args[1], args[1], k == 5))))
           && (|args| == 3 ==> r == Ok(IncludeFile(Glob(args[1], args[2], k == 5))))
           && (|args| != 2 && |args| != 3 ==> r == Err(ArityError(Keywords[k], "1-2 args", args, line))))
  {
    FirstKeywordIs(Strip(raw), k);
  }

  /** SENDFILE takes exactly one argument, a path with `~` expanded. */
  lemma {:induction false} SendfileDirective(raw: string, allTasks: seq<string>, home: string, tokenize: Tokenizer)
    requires IsPrefix("SENDFILE", Strip(raw))
    ensures var line := Strip(raw); var r := ParseLine(raw, allTasks, home, tokenize);
      && (tokenize(line).Err? ==> r == Err(tokenize(line).exc))
      && (tokenize(line).Ok? ==> var args := tokenize(line).value;
           && (|args| == 2 ==> r == Ok(SendFile(PathOf(ExpandUser(home, args[1])))))
           && (|args| != 2 ==> r == Err(ArityError("SENDFILE", "1 arg", args, line))))
  {
    FirstKeywordIs(Strip(raw), 6);
  }

  /** A line that starts with no keyword once stripped is kept as it is. */
  lemma {:induction false} PlainLine(raw: string, allTasks: seq<string>, home: string, tokenize: Tokenizer)
    requires forall k :: 0 <= k < |Keywords| ==> !IsPrefix(Keywords[k], Strip(raw))
    ensures ParseLine(raw, allTasks, home, tokenize) == Ok(Plain)
    ensures Rewrite(raw, Plain) == raw
  {
  }

  /** A stripped line starting with '#' carries no directive. */
  lemma {:induction false} CommentIsPlain(line: string, k: nat)
    requires |line| > 0 && line[0] == '#' && k <= |Keywords|
    ensures FirstKeyword(line, k) == |Keywords|
    decreases |Keywords| - k
  {
    if k < |Keywords| {
      assert Keywords[k][0] != '#';
      CommentIsPlain(line, k + 1);
    }
  }

  /** A line that reads as a comment once stripped is a plain line under
      any catalog, home directory and tokenizer. */
  lemma {:induction false} CommentLineIsPlain(raw: string)
    requires IsPrefix("#", Strip(raw))
    ensures forall catalog, h, tok :: ParseLine(raw, catalog, h, tok) == Ok(Plain)
  {
    CommentIsPlain(Strip(raw), 0);
  }

  /** Every directive comes from the keyword its stripped line starts
      with: the first keyword in the source's order decides the kind. */
  lemma {:induction false} DirectiveKeyword(line: string, allTasks: seq<string>, home: string, tokenize: Tokenizer)
    requires ParseStripped(line, allTasks, home, tokenize).Ok?
    ensures var d := ParseStripped(line, allTasks, home, tokenize).value; var k := FirstKeyword(line, 0);
      && (d.Plain? <==> k == |Keywords|)
      && (d.DependsOn? ==> k == 0)
      && (d.ConflictsWith? ==> k == 1)
      && (d.MaybeDependsOn? ==> k == 2 && d.found == (d.task in allTasks))
      && (d.PrereqFor? ==> k == 3)
      && (d.IncludeFile? ==> (k == 4 || k == 5) && d.glob.optional == (k == 5))
      && (d.SendFile? ==> k == 6)
  {
    var k := FirstKeyword(line, 0);
    if k == |Keywords| {
    } else if k <= 3 {
      var fields := SplitMax1(line);
      assert ParseStripped(line, allTasks, home, tokenize) == Ok(TaskDirective(k, fields[1], allTasks));
    } else {
      var args := tokenize(line).value;
      assert ParseStripped(line, allTasks, home, tokenize) == FileDirective(k, line, args, home);
    }
  }

  /** A MAYBE_DEPENDS_ON directive comes from a line starting with that keyword. */
  lemma {:induction false} MaybeLine(line: string, allTasks: seq<string>, home: string, tokenize: Tokenizer)
    requires ParseStripped(line, allTasks, home, tokenize).Ok?
    requires ParseStripped(line, allTasks, home, tokenize).value.MaybeDependsOn?
    ensures IsPrefix("MAYBE_DEPENDS_ON", line)
  {
    DirectiveKeyword(line, allTasks, home, tokenize);
    assert Keywords[2] == "MAYBE_DEPENDS_ON";
  }

  /** The lines that are commented out (file directives, and
      MAYBE_DEPENDS_ON on a task outside the catalog) read as plain lines
      when the script is parsed again. */
  lemma {:induction false} CommentedDirectiveInert(raw: string, d: Directive, allTasks: seq<string>, home: string, tokenize: Tokenizer)
    requires ParseLine(raw, allTasks, home, tokenize) == Ok(d)
    requires d.IncludeFile? || d.SendFile? || (d.MaybeDependsOn? && !d.found)
    ensures IsPrefix("#", Rewrite(raw, d))
    ensures forall catalog, h, tok :: ParseLine(Rewrite(raw, d), catalog, h, tok) == Ok(Plain)
  {
    var line := Strip(raw);
    var out := Rewrite(raw, d);
    if d.MaybeDependsOn? {
      MaybeLine(line, allTasks, home, tokenize);
      ReplacePrefix(line, "MAYBE_DEPENDS_ON", "# MAYBE_DEPENDS_ON");
      assert out[0] == '#';
    } else {
      assert out == "# " + line;
    }
    StripKeepsPrefix("#", out);
    CommentLineIsPlain(out);
  }

  /** A MAYBE_DEPENDS_ON on a catalog task is left as a DEPENDS_ON line. */
  lemma {:induction false} FoundMaybeRewritten(raw: string, t: string, allTasks: seq<string>, home: string, tokenize: Tokenizer)
    requires ParseLine(raw, allTasks, home, tokenize) == Ok(MaybeDependsOn(t, true))
    ensures IsPrefix("DEPENDS_ON", Strip(Rewrite(raw, MaybeDependsOn(t, true))))
  {
    var line := Strip(raw);
    MaybeLine(line, allTasks, home, tokenize);
    var out := Replace(line, "MAYBE_DEPENDS_ON", "DEPENDS_ON");
    assert Rewrite(raw, MaybeDependsOn(t, true)) == out;
    ReplacePrefix(line, "MAYBE_DEPENDS_ON", "DEPENDS_ON");
    KeywordStripped(out, 0);
  }

  /** Stripping keeps a keyword the line starts with. */
  lemma {:induction false} KeywordStripped(s: string, k: nat)
    requires k < |Keywords| && IsPrefix(Keywords[k], s)
    ensures IsPrefix(Keywords[k], Strip(s))
  {
    var p := Keywords[k];
    assert !IsSpace(p[0]) && !IsSpace(p[|p| - 1]);
    StripKeepsPrefix(p, s);
  }

  // ---------------------------------------------------------------
  // The task a script defines

  /** A value is collected exactly when some directive contributes it. */
  lemma {:induction false} CollectMembers<T>(ds: seq<Directive>, pick: Directive -> seq<T>)
    ensures forall x :: x in Collect(ds, pick) <==> exists i :: 0 <= i < |ds| && x in pick(ds[i])
  {
    if |ds| > 0 {
      var prefix := ds[..|ds| - 1];
      CollectMembers(prefix, pick);
      assert forall i :: 0 <= i < |prefix| ==> prefix[i] == ds[i];
      forall x | exists i :: 0 <= i < |ds| && x in pick(ds[i])
        ensures x in Collect(ds, pick)
      {
        var i :| 0 <= i < |ds| && x in pick(ds[i]);
        if i < |prefix| {
          assert x in Collect(prefix, pick);
        }
      }
    }
  }

  /** Directives that contribute nothing leave the list empty. */
  lemma {:induction false} CollectNone<T>(ds: seq<Directive>, pick: Directive -> seq<T>)
    requires forall i :: 0 <= i < |ds| ==> pick(ds[i]) == []
    ensures Collect(ds, pick) == []
  {
    if |ds| > 0 {
      var prefix := ds[..|ds| - 1];
      assert forall i :: 0 <= i < |prefix| ==> prefix[i] == ds[i];
      CollectNone(prefix, pick);
    }
  }

  /** Rewriting never puts a line break into a line. */
  lemma {:induction false} RewriteOneLine(raw: string, d: Directive)
    requires '\n' !in raw
    ensures '\n' !in Rewrite(raw, d)
  {
    NoCharStrip(raw, '\n');
    if d.MaybeDependsOn? {
      ReplaceNoChar(Strip(raw), "MAYBE_DEPENDS_ON", if d.found then "DEPENDS_ON" else "# MAYBE_DEPENDS_ON", '\n');
    }
  }

  /** The task's script has one line per line of the original script,
      each the rewriting of its original. */
  lemma {:induction false} ScriptLines(name: string, path: string, script: string, ds: seq<Directive>)
    requires |ds| == |SplitOn(script, '\n')|
    ensures var lines := SplitOn(script, '\n');
      var out := SplitOn(TaskOf(name, path, lines, ds).script, '\n');
      && |out| == |lines|
      && (forall i :: 0 <= i < |lines| ==> out[i] == Rewrite(lines[i], ds[i]))
  {
    var lines := SplitOn(script, '\n');
    var rewritten := RewriteAll(lines, ds);
    forall k | 0 <= k < |rewritten| ensures '\n' !in rewritten[k] {
      RewriteOneLine(lines[k], ds[k]);
    }
    SplitOnJoin(rewritten, '\n');
  }

  /** Directive-free lines and the DEPENDS_ON, CONFLICTS_WITH and
      PREREQ_FOR lines are kept as they were; file directives are
      commented out. */
  lemma {:induction false} ScriptLinesKept(name: string, path: string, script: string, ds: seq<Directive>, i: nat)
    requires |ds| == |SplitOn(script, '\n')| && i < |ds|
    ensures var lines := SplitOn(script, '\n');
      var out := SplitOn(TaskOf(name, path, lines, ds).script, '\n');
      && i < |out|
      && (!ds[i].MaybeDependsOn? && !ds[i].IncludeFile? && !ds[i].SendFile? ==> out[i] == lines[i])
      && (ds[i].IncludeFile? || ds[i].SendFile? ==> out[i] == "# " + Strip(lines[i]))
  {
    ScriptLines(name, path, script, ds);
  }

  /** A script without directives defines a task with that very script
      and empty lists. */
  lemma {:induction false} PlainScriptUnchanged(name: string, path: string, script: string, ds: seq<Directive>)
    requires |ds| == |SplitOn(script, '\n')|
    requires forall i :: 0 <= i < |ds| ==> ds[i] == Plain
    ensures TaskOf(name, path, SplitOn(script, '\n'), ds) == Task(name, path, script, [], [], [], [], [])
  {
    var lines := SplitOn(script, '\n');
    assert RewriteAll(lines, ds) == lines;
    JoinSplitOn(script, '\n');
    CollectNone(ds, DependencyOf);
    CollectNone(ds, ConflictOf);
    CollectNone(ds, PrereqOf);
    CollectNone(ds, IncludeOf);
    CollectNone(ds, SendfileOf);
  }

  // ---------------------------------------------------------------
  // insert_prereq, list_tasks, get_safe_heredoc

  /** task.insert_prereq(other): the task gains the dependency, and its
      script a leading line declaring it. */
  function InsertPrereq(t: Task, other: string): (r: Task)
    ensures r.dependencies == t.dependencies + [other]
    ensures r.(dependencies := t.dependencies, script := t.script) == t
  {
    t.(dependencies := t.dependencies + [other], script := "DEPENDS_ON " + other + "\n" + t.script)
  }

  /** The inserted line comes first and the old lines follow unchanged. */
  lemma {:induction false} InsertPrereqLines(t: Task, other: string)
    requires '\n' !in other
    ensures SplitOn(InsertPrereq(t, other).script, '\n') == ["DEPENDS_ON " + other] + SplitOn(t.script, '\n')
  {
    SplitOnCons("DEPENDS_ON " + other, t.script, '\n');
  }

  /** Parsed again, the inserted line declares the dependency it was
      inserted for. */
  lemma {:induction false} InsertedLineParses(other: string, allTasks: seq<string>, home: string, tokenize: Tokenizer)
    requires |other| > 0 && !IsSpace(other[0]) && !IsSpace(other[|other| - 1])
    ensures ParseLine("DEPENDS_ON " + other, allTasks, home, tokenize) == Ok(DependsOn(other))
  {
    var line := "DEPENDS_ON " + other;
    assert line[|line| - 1] == other[|other| - 1];
    StripUnpadded(line);
    assert Keywords[0] == "DEPENDS_ON";
    assert IsPrefix(Keywords[0], line);
    FirstKeywordIs(line, 0);
    assert "DEPENDS_ON" + " " + other == line;
    SplitMax1Pair("DEPENDS_ON", other);
    assert ParseStripped(line, allTasks, home, tokenize) == Ok(TaskDirective(0, other, allTasks));
  }

  /** list_tasks() over the listings of the task directories that exist:
      the names not ending in '~', sorted, each once. A name that is the
      empty string would make s[-1] raise. */
  function ListTasks(listings: seq<seq<string>>): Result<seq<string>> {
    var names := Flatten(listings);
    if "" in names then Err(IndexError)
    else Ok(DedupBy(SortBy(Filter(names, IsTaskName), Identity), Identity))
  }

  predicate IsTaskName(s: string) { |s| > 0 && s[|s| - 1] != '~' }

  function Identity(s: string): string { s }

  function Flatten(listings: seq<seq<string>>): (r: seq<string>)
    ensures forall x :: x in r <==> exists i :: 0 <= i < |listings| && x in listings[i]
  {
    if |listings| == 0 then [] else listings[0] + Flatten(listings[1..])
  }

  function Filter(s: seq<string>, keep: string -> bool): (r: seq<string>)
    ensures forall x :: x in r <==> x in s && keep(x)
  {
    if |s| == 0 then [] else (if keep(s[0]) then [s[0]] else []) + Filter(s[1..], keep)
  }

  /** The catalog is strictly increasing in code-point order and holds
      exactly the listed names that do not end in '~'. */
  lemma {:induction false} ListTasksCatalog(listings: seq<seq<string>>)
    requires forall i :: 0 <= i < |listings| ==> "" !in listings[i]
    ensures ListTasks(listings).Ok?
    ensures var r := ListTasks(listings).value;
      && (forall i :: 0 < i < |r| ==> LexLess(r[i - 1], r[i]))
      && (forall x :: x in r <==> (exists i :: 0 <= i < |listings| && x in listings[i]) && x[|x| - 1] != '~')
  {
    var names := Flatten(listings);
    var kept := Filter(names, IsTaskName);
    var sorted := SortBy(kept, Identity);
    var r := DedupBy(sorted, Identity);
    DedupBySorted(sorted, Identity);
    DedupByKeys(sorted, Identity);
    assert forall x :: x in sorted <==> x in kept by {
      assert forall x :: x in sorted <==> x in multiset(sorted);
    }
    forall x | x in kept ensures x in r {
      var i :| 0 <= i < |sorted| && sorted[i] == x;
      assert HasKey(r, Identity, Identity(sorted[i]));
    }
  }

  /** Here-document delimiters from the random stream: random.sample of 32
      distinct ASCII letters. */
  predicate IsHeredocDraw(h: string) {
    && |h| == 32
    && (forall i :: 0 <= i < |h| ==> IsAsciiLetter(h[i]))
    && (forall i, j :: 0 <= i < j < |h| ==> h[i] != h[j])
  }

  /** The first draw that does not occur in the text, if any. */
  function FirstSafe(text: string, draws: seq<string>): (r: Option<string>)
    ensures r.Some? ==> r.value in draws && !IsSubstring(r.value, text)
    ensures r.None? <==> forall i :: 0 <= i < |draws| ==> IsSubstring(draws[i], text)
  {
    if |draws| == 0 then None
    else if !IsSubstring(draws[0], text) then Some(draws[0])
    else FirstSafe(text, draws[1..])
  }

  /** get_safe_heredoc(text): draw delimiters until one does not occur in
      the text. The random stream is the parameter `draws`; None stands for
      a stream that ends before a safe delimiter comes up. */
  method GetSafeHeredoc(text: string, draws: seq<string>) returns (r: Option<string>)
    requires forall i :: 0 <= i < |draws| ==> IsHeredocDraw(draws[i])
    ensures r == FirstSafe(text, draws)
    ensures r.Some? ==> IsHeredocDraw(r.value)
  {
    var k := 0;
    while k < |draws|
      invariant 0 <= k <= |draws|
      invariant FirstSafe(text, draws) == FirstSafe(text, draws[k..])
    {
      var here := draws[k];
      assert draws[k..][1..] == draws[k + 1..];
      if !IsSubstring(here, text) {
        return Some(here);
      }
      k := k + 1;
    }
    return None;
  }

  /** A delimiter that does not occur in the script is not one of its
      lines, so the here-document cannot end early. */
  lemma {:induction false} HeredocDelimiterSafe(h: string, text: string)
    requires !IsSubstring(h, text)
    ensures forall k :: 0 <= k < |SplitOn(text, '\n')| ==> SplitOn(text, '\n')[k] != h
  {
    SplitOnPieces(text, '\n');
  }
}
