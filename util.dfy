/** yo/util.py: the configuration helpers and the shell quoting the tool
    uses when it writes commands for the remote host. */
module Util {
  import opened Base
  import opened Text

  // ---------------------------------------------------------------
  // Shell quoting (shlex.quote), with the reading a POSIX shell gives it

  /** The characters shlex.quote leaves unquoted: ASCII letters and digits
      and `_@%+=:,./-`. */
  predicate IsSafeChar(c: char) {
    IsAsciiLetter(c) || IsAsciiDigit(c) || c in "_@%+=:,./-"
  }

  predicate AllSafe(s: string) {
    forall i :: 0 <= i < |s| ==> IsSafeChar(s[i])
  }

  /** A single quote, written as: close the quotes, a double-quoted single
      quote, reopen. */
  const QuotedQuote: string := "'\"'\"'"

  /** shlex.quote */
  function Quote(s: string): string {
    if s == [] then "''"
    else if AllSafe(s) then s
    else "'" + Replace(s, "'", QuotedQuote) + "'"
  }

  /** Where the shell is while reading a word. */
  datatype Mode = Bare | InSingle | InDouble

  /** How a POSIX shell splits a command line into argument words (section
      2.2 of the Shell Command Language of POSIX.1-2017: single quotes keep
      every character, double quotes keep every character but `$`, `\`
      and the backquote; unquoted blanks separate words), for the text that
      quoting produces: unquoted safe characters and spaces, single quotes,
      and double quotes whose only expansion is `$HOME` closing them, which
      becomes `home`. None for anything outside that. `word` is the word
      being read and `inWord` whether one has started. */
  function Lex(w: string, mode: Mode, word: string, inWord: bool, home: string): Option<seq<string>>
    decreases |w|
  {
    if |w| == 0 then
      if mode == Bare then Some(if inWord then [word] else []) else None
    else
      var c := w[0];
      match mode
      case Bare =>
        if c == ' ' then
          match Lex(w[1..], Bare, "", false, home)
          case None => None
          case Some(ws) => Some(if inWord then [word] + ws else ws)
        else if c == '\'' then Lex(w[1..], InSingle, word, true, home)
        else if c == '"' then Lex(w[1..], InDouble, word, true, home)
        else if IsSafeChar(c) then Lex(w[1..], Bare, word + [c], true, home)
        else None
      case InSingle =>
        if c == '\'' then Lex(w[1..], Bare, word, true, home)
        else Lex(w[1..], InSingle, word + [c], true, home)
      case InDouble =>
        if c == '"' then Lex(w[1..], Bare, word, true, home)
        else if c == '$' then
          if IsPrefix("HOME\"", w[1..]) then Lex(w[5..], InDouble, word + home, true, home) else None
        else if c == '\\' || c == '`' then None
        else Lex(w[1..], InDouble, word + [c], true, home)
  }

  /** The shell words of a command line. */
  function Words(w: string, home: string): Option<seq<string>> {
    Lex(w, Bare, "", false, home)
  }

  /** A single-quoted text, its quotes written as QuotedQuote, reads back
      as the text. */
  lemma {:induction false} ReadSingleQuoted(s: string, t: string, word: string, home: string)
    ensures Lex(Replace(s, "'", QuotedQuote) + "'" + t, InSingle, word, true, home)
         == Lex(t, Bare, word + s, true, home)
    decreases |s|
  {
    var body := Replace(s, "'", QuotedQuote);
    var w := body + "'" + t;
    if |s| == 0 {
      assert body == [];
      assert w[0] == '\'' && w[1..] == t;
      assert word + s == word;
    } else if s[0] == '\'' {
      var r := Replace(s[1..], "'", QuotedQuote);
      assert IsPrefix("'", s);
      assert body == QuotedQuote + r;
      var w5 := r + "'" + t;
      var w4 := "'" + w5;
      var w3 := "\"" + w4;
      var w2 := "'" + w3;
      var w1 := "\"" + w2;
      assert w == "'" + w1;
      assert Lex(w, InSingle, word, true, home) == Lex(w1, Bare, word, true, home) by {
        assert w[0] == '\'' && w[1..] == w1;
      }
      assert Lex(w1, Bare, word, true, home) == Lex(w2, InDouble, word, true, home) by {
        assert w1[0] == '"' && w1[1..] == w2;
      }
      assert Lex(w2, InDouble, word, true, home) == Lex(w3, InDouble, word + "'", true, home) by {
        assert w2[0] == '\'' && w2[1..] == w3;
        assert word + [w2[0]] == word + "'";
      }
      assert Lex(w3, InDouble, word + "'", true, home) == Lex(w4, Bare, word + "'", true, home) by {
        assert w3[0] == '"' && w3[1..] == w4;
      }
      assert Lex(w4, Bare, word + "'", true, home) == Lex(w5, InSingle, word + "'", true, home) by {
        assert w4[0] == '\'' && w4[1..] == w5;
      }
      ReadSingleQuoted(s[1..], t, word + "'", home);
      assert word + "'" + s[1..] == word + s;
    } else {
      var r := Replace(s[1..], "'", QuotedQuote);
      assert !IsPrefix("'", s);
      assert body == [s[0]] + r;
      assert w[0] == s[0] && w[1..] == r + "'" + t;
      ReadSingleQuoted(s[1..], t, word + [s[0]], home);
      assert word + [s[0]] + s[1..] == word + s;
    }
  }

  /** Unquoted safe characters read as themselves. */
  lemma {:induction false} ReadSafe(s: string, t: string, word: string, inWord: bool, home: string)
    requires AllSafe(s)
    ensures Lex(s + t, Bare, word, inWord, home) == Lex(t, Bare, word + s, inWord || |s| > 0, home)
    decreases |s|
  {
    if |s| == 0 {
      assert s + t == t && word + s == word;
    } else {
      assert (s + t)[0] == s[0] && (s + t)[1..] == s[1..] + t;
      assert s[0] != ' ' && s[0] != '\'' && s[0] != '"';
      ReadSafe(s[1..], t, word + [s[0]], true, home);
      assert word + [s[0]] + s[1..] == word + s;
    }
  }

  /** A quoted text reads back as exactly that text, whatever follows. */
  lemma {:induction false} ReadQuote(s: string, t: string, word: string, inWord: bool, home: string)
    ensures Lex(Quote(s) + t, Bare, word, inWord, home) == Lex(t, Bare, word + s, true, home)
  {
    if s == [] {
      var w := "''" + t;
      assert w[0] == '\'' && w[1..][0] == '\'' && w[1..][1..] == t;
      assert word + s == word;
    } else if AllSafe(s) {
      ReadSafe(s, t, word, inWord, home);
    } else {
      var body := Replace(s, "'", QuotedQuote);
      var w := "'" + body + "'" + t;
      assert Quote(s) + t == w;
      assert w[0] == '\'' && w[1..] == body + "'" + t;
      ReadSingleQuoted(s, t, word, home);
    }
  }

  /** shlex.quote gives the shell exactly one word, the text itself. */
  lemma {:induction false} QuoteReadsBack(s: string, home: string)
    ensures Words(Quote(s), home) == Some([s])
  {
    ReadQuote(s, "", "", false, home);
    assert Quote(s) + "" == Quote(s);
    assert "" + s == s;
  }

  function QuoteAll(args: seq<string>): (r: seq<string>)
    ensures |r| == |args| && forall i :: 0 <= i < |args| ==> r[i] == Quote(args[i])
  {
    if |args| == 0 then [] else [Quote(args[0])] + QuoteAll(args[1..])
  }

  /** shlex_join */
  function ShlexJoin(args: seq<string>): string {
    Join(QuoteAll(args), " ")
  }

  /** A joined command line reads back as exactly the arguments joined. */
  lemma {:induction false} ShlexJoinReadsBack(args: seq<string>, home: string)
    ensures Words(ShlexJoin(args), home) == Some(args)
    decreases |args|
  {
    if |args| == 1 {
      assert QuoteAll(args) == [Quote(args[0])];
      assert ShlexJoin(args) == Quote(args[0]);
      QuoteReadsBack(args[0], home);
      assert args == [args[0]];
    } else if |args| > 1 {
      var rest := ShlexJoin(args[1..]);
      assert QuoteAll(args)[1..] == QuoteAll(args[1..]);
      assert ShlexJoin(args) == Quote(args[0]) + (" " + rest);
      ReadQuote(args[0], " " + rest, "", false, home);
      assert (" " + rest)[0] == ' ' && (" " + rest)[1..] == rest;
      ShlexJoinReadsBack(args[1..], home);
      assert "" + args[0] == args[0];
      assert [args[0]] + args[1..] == args;
    }
  }

  // ---------------------------------------------------------------
  // The task directory as written into scripts

  /** The directory task_dir_safe stands for: trailing slashes removed and a
      leading `~` or `$HOME` replaced by the home directory. */
  function ExpandedTaskDir(taskDir: string, home: string): string {
    var d := RStripChar(taskDir, '/');
    if IsPrefix("~", d) then home + d[1..]
    else if IsPrefix("$HOME", d) then home + d[5..]
    else d
  }

  /** YoConfig.task_dir_safe */
  function TaskDirSafe(taskDir: string): string {
    var d := RStripChar(taskDir, '/');
    if IsPrefix("~", d) then "\"$HOME\"" + Quote(d[1..])
    else if IsPrefix("$HOME", d) then "\"$HOME\"" + Quote(d[5..])
    else Quote(d)
  }

  /** `"$HOME"` reads as the home directory, joined to what follows. */
  lemma {:induction false} ReadHome(q: string, home: string)
    ensures Lex("\"$HOME\"" + q, Bare, "", false, home) == Lex(q, Bare, home, true, home)
  {
    var w2 := "\"" + q;
    var w1 := "$HOME" + w2;
    var w := "\"" + w1;
    assert w == "\"$HOME\"" + q;
    assert Lex(w, Bare, "", false, home) == Lex(w1, InDouble, "", true, home) by {
      assert w[0] == '"' && w[1..] == w1;
    }
    assert Lex(w1, InDouble, "", true, home) == Lex(w2, InDouble, home, true, home) by {
      assert w1[0] == '$' && w1[1..] == "HOME" + w2 && w1[5..] == w2;
      assert IsPrefix("HOME\"", w1[1..]);
      assert "" + home == home;
    }
    assert w2[0] == '"' && w2[1..] == q;
  }

  /** The shell reads task_dir_safe as one word: the task directory with
      trailing slashes removed and the home directory substituted for a
      leading `~` or `$HOME`. */
  lemma {:induction false} TaskDirSafeReads(taskDir: string, home: string)
    ensures Words(TaskDirSafe(taskDir), home) == Some([ExpandedTaskDir(taskDir, home)])
  {
    var d := RStripChar(taskDir, '/');
    if IsPrefix("~", d) || IsPrefix("$HOME", d) {
      var rest := if IsPrefix("~", d) then d[1..] else d[5..];
      var q := Quote(rest);
      assert TaskDirSafe(taskDir) == "\"$HOME\"" + q;
      ReadHome(q, home);
      ReadQuote(rest, "", home, true, home);
      assert q + "" == q;
    } else {
      QuoteReadsBack(d, home);
    }
  }

  // ---------------------------------------------------------------
  // Names and messages

  /** The parts of the [yo] configuration these helpers read. */
  datatype Config = Config(myEmail: string, myUsername: string, exactName: Option<bool>, creatorTags: seq<string>)

  /** standardize_name: names are prefixed with the user name and a dash,
      unless exact names are asked for on the command line, or, with the
      command line silent, in the configuration. */
  function StandardizeName(name: string, exactName: Option<bool>, config: Config): (r: string)
    ensures exactName == Some(true) ==> r == name
    ensures exactName == None && config.exactName == Some(true) ==> r == name
    ensures !(exactName == Some(true) || (exactName == None && config.exactName == Some(true))) ==>
      && IsPrefix(config.myUsername + "-", r)
      && (IsPrefix(config.myUsername + "-", name) ==> r == name)
      && (!IsPrefix(config.myUsername + "-", name) ==> r == config.myUsername + "-" + name)
  {
    if exactName == Some(true) then name
    else if exactName == None && config.exactName == Some(true) then name
    else
      var pfx := config.myUsername + "-";
      if IsPrefix(pfx, name) then name else pfx + name
  }

  /** Standardizing a standardized name changes nothing. */
  lemma {:induction false} StandardizeNameIdempotent(name: string, exactName: Option<bool>, config: Config)
    ensures StandardizeName(StandardizeName(name, exactName, config), exactName, config)
         == StandardizeName(name, exactName, config)
  {
  }

  /** removesuffix */
  function RemoveSuffix(s: string, suffix: string): (r: string)
    ensures IsSuffix(suffix, s) ==> r + suffix == s
    ensures !IsSuffix(suffix, s) ==> r == s
  {
    if IsSuffix(suffix, s) then s[..|s| - |suffix|] else s
  }

  /** one: the sole element, or the message for none or for several. */
  function One<T>(items: seq<T>, noneMsg: string, multipleMsg: string): (r: Result<T>)
    ensures |items| == 0 ==> r == Err(YoExc(noneMsg))
    ensures |items| > 1 ==> r == Err(YoExc(multipleMsg))
    ensures r.Ok? <==> |items| == 1
    ensures r.Ok? ==> items == [r.value]
  {
    if |items| == 0 then Err(YoExc(noneMsg))
    else if |items| > 1 then Err(YoExc(multipleMsg))
    else Ok(items[0])
  }

  /** fmt_allow_deny */
  function FmtAllowDeny(allow: seq<string>, deny: seq<string>): (r: string)
    ensures allow == [] ==> IsPrefix("any", r)
    ensures allow != [] ==> IsPrefix("[" + Join(allow, ", ") + "]", r)
    ensures deny == [] ==> r == (if allow == [] then "any" else "[" + Join(allow, ", ") + "]")
    ensures deny != [] ==> IsSuffix(" except [" + Join(deny, ", ") + "]", r)
  {
    var fmt := if allow == [] then "any" else "[" + Join(allow, ", ") + "]";
    if deny != [] then fmt + " except [" + Join(deny, ", ") + "]" else fmt
  }

  /** The format tells an empty allow list from any other. */
  lemma {:induction false} FmtAllowDenyAny(allow: seq<string>, deny: seq<string>)
    ensures allow == [] <==> FmtAllowDeny(allow, deny)[0] == 'a'
  {
    var r := FmtAllowDeny(allow, deny);
    if allow != [] {
      assert r[0] == ("[" + Join(allow, ", ") + "]")[0];
    } else {
      assert r[0] == "any"[0];
    }
  }

  /** all_creator_tags: the e-mail address, its "oracle/" form, the user name
      and the configured creator tags. */
  function AllCreatorTags(config: Config): (r: set<string>)
    ensures forall t :: t in r <==> (t == config.myEmail || t == "oracle/" + config.myEmail
                                     || t == config.myUsername || t in config.creatorTags)
  {
    {config.myEmail, "oracle/" + config.myEmail, config.myUsername} + set t | t in config.creatorTags
  }

  // ---------------------------------------------------------------
  // Configuration sections

  /** A dataclass field: its name, and whether it has a default or a
      default factory. */
  datatype Field = Field(name: string, hasDefault: bool)

  function Required(fields: seq<Field>): set<string> {
    set f | f in fields && !f.hasDefault :: f.name
  }

  function Optional(fields: seq<Field>): set<string> {
    set f | f in fields && f.hasDefault :: f.name
  }

  function UnknownConfig(name: string, arg: string): Exc {
    YoExc("In " + name + ": unknown configuration \"" + arg + "\"")
  }

  /** Argument i is rejected: it is not an optional field, and it is either
      not a required one or a required one already seen. */
  ghost predicate Rejected(fields: seq<Field>, args: seq<string>, i: nat)
    requires i < |args|
  {
    args[i] !in Optional(fields) && (args[i] !in Required(fields) || args[i] in args[..i])
  }

  /** check_args_dataclass: the first rejected argument raises; then any
      required field not given raises, naming all of them. */
  method CheckArgsDataclass(fields: seq<Field>, args: seq<string>, name: string) returns (out: Outcome)
    ensures out.Pass? <==> (forall i :: 0 <= i < |args| ==> !Rejected(fields, args, i))
                           && Required(fields) <= set a | a in args
    ensures (exists i :: 0 <= i < |args| && Rejected(fields, args, i)) ==>
      exists i :: && 0 <= i < |args| && Rejected(fields, args, i)
                  && (forall j :: 0 <= j < i ==> !Rejected(fields, args, j))
                  && out == Fail(UnknownConfig(name, args[i]))
    ensures (forall i :: 0 <= i < |args| ==> !Rejected(fields, args, i)) && !(Required(fields) <= set a | a in args) ==>
      out == Fail(MissingConfig(name, Required(fields) - set a | a in args))
  {
    var optional: set<string> := {};
    var required: set<string> := {};
    for k := 0 to |fields|
      invariant required == Required(fields[..k]) && optional == Optional(fields[..k])
    {
      assert fields[..k + 1] == fields[..k] + [fields[k]];
      if !fields[k].hasDefault {
        required := required + {fields[k].name};
      } else {
        optional := optional + {fields[k].name};
      }
    }
    assert fields[..|fields|] == fields;
    for i := 0 to |args|
      invariant forall j :: 0 <= j < i ==> !Rejected(fields, args, j)
      invariant required == Required(fields) - set a | a in args[..i]
    {
      assert forall a :: a in args[..i + 1] <==> a in args[..i] || a == args[i];
      if args[i] in required {
        required := required - {args[i]};
      } else if args[i] in optional {
      } else {
        assert Rejected(fields, args, i);
        return Fail(UnknownConfig(name, args[i]));
      }
    }
    assert args[..|args|] == args;
    if required != {} {
      return Fail(MissingConfig(name, required));
    }
    assert Required(fields) <= set a | a in args by {
      forall x | x in Required(fields) ensures x in set a | a in args {
        assert x !in required;
      }
    }
    return Pass;
  }

  /** filter_keys: the listed keys present in d, with their values, moved
      out of d. */
  method FilterKeys<V>(d: map<string, V>, fields: seq<string>) returns (output: map<string, V>, d': map<string, V>)
    ensures output.Keys == d.Keys * set k | k in fields
    ensures forall k :: k in output ==> output[k] == d[k]
    ensures d' == d - set k | k in fields
  {
    output, d' := map[], d;
    for i := 0 to |fields|
      invariant output.Keys == d.Keys * set k | k in fields[..i]
      invariant forall k :: k in output ==> output[k] == d[k]
      invariant d' == d - set k | k in fields[..i]
    {
      assert forall k :: k in fields[..i + 1] <==> k in fields[..i] || k == fields[i];
      if fields[i] in d' {
        output := output[fields[i] := d'[fields[i]]];
        d' := d' - {fields[i]};
      }
    }
    assert fields[..|fields|] == fields;
  }

  /** A configuration value: text as read, or a list of strings. */
  datatype ConfigValue = Text(s: string) | StrList(items: seq<string>)

  /** opt_strlist: a non-empty text value split, after stripping, at runs of
      commas and whitespace; otherwise nothing changes. */
  method OptStrList(opts: map<string, ConfigValue>, field: string) returns (opts': map<string, ConfigValue>)
    requires field in opts ==> opts[field].Text?
    ensures field !in opts || opts[field] == Text("") ==> opts' == opts
    ensures field in opts && opts[field] != Text("") ==>
      opts' == opts[field := StrList(SplitRuns(Strip(opts[field].s), IsCommaOrSpace))]
  {
    opts' := opts;
    if field in opts && opts[field].s != "" {
      opts' := opts[field := StrList(SplitRuns(Strip(opts[field].s), IsCommaOrSpace))];
    }
  }

  /** s with the characters isSep accepts removed. */
  function Without(s: string, isSep: char -> bool): (r: string) {
    if |s| == 0 then [] else (if isSep(s[0]) then [] else [s[0]]) + Without(s[1..], isSep)
  }

  function Concat(parts: seq<string>): string {
    if |parts| == 0 then [] else parts[0] + Concat(parts[1..])
  }

  /** Splitting at separator runs loses the separators and nothing else, and
      gives empty pieces only at the ends. */
  lemma {:induction false} SplitRunsKeeps(s: string, isSep: char -> bool)
    ensures Concat(SplitRuns(s, isSep)) == Without(s, isSep)
    ensures forall k :: 0 < k < |SplitRuns(s, isSep)| - 1 ==> SplitRuns(s, isSep)[k] != []
    decreases |s|
  {
    if |s| > 0 {
      var rest := SplitRuns(s[1..], isSep);
      SplitRunsKeeps(s[1..], isSep);
      ConcatCons(rest);
      if !isSep(s[0]) {
        var r := [[s[0]] + rest[0]] + rest[1..];
        ConcatCons(r);
        assert r[1..] == rest[1..];
        forall k | 0 < k < |r| - 1 ensures r[k] != [] {
          assert r[k] == rest[k];
        }
      } else if |s| > 1 && isSep(s[1]) {
        assert Without(s, isSep) == Without(s[1..], isSep);
      } else {
        var r := [""] + rest;
        ConcatCons(r);
        assert r[1..] == rest;
        if |s| > 1 {
          assert rest[0] != [] by {
            assert SplitRuns(s[1..], isSep) == [[s[1]] + SplitRuns(s[2..], isSep)[0]] + SplitRuns(s[2..], isSep)[1..];
          }
        }
        forall k | 0 < k < |r| - 1 ensures r[k] != [] {
          assert r[k] == rest[k - 1];
        }
      }
    }
  }

  lemma {:induction false} ConcatCons(parts: seq<string>)
    requires |parts| > 0
    ensures Concat(parts) == parts[0] + Concat(parts[1..])
  {
  }

  // ---------------------------------------------------------------
  // Natural sort keys

  /** re.split(r"([0-9]+)", s): the text between digit runs at even
      positions, the digit runs at odd ones. */
  function DigitSplit(s: string): (r: seq<string>)
    ensures |r| % 2 == 1
    ensures |s| > 0 && IsAsciiDigit(s[0]) ==> r[0] == []
    decreases |s|
  {
    if |s| == 0 then [""]
    else
      var rest := DigitSplit(s[1..]);
      if IsAsciiDigit(s[0]) then
        if |s| > 1 && IsAsciiDigit(s[1]) then [rest[0], [s[0]] + rest[1]] + rest[2..]
        else ["", [s[0]]] + rest
      else [[s[0]] + rest[0]] + rest[1..]
  }

  predicate NoDigit(s: string) { forall i :: 0 <= i < |s| ==> !IsAsciiDigit(s[i]) }

  predicate AllDigits(s: string) { |s| > 0 && forall i :: 0 <= i < |s| ==> IsAsciiDigit(s[i]) }

  /** The split alternates digit-free text and digit runs. */
  lemma {:induction false} DigitSplitParts(s: string)
    ensures forall k :: 0 <= k < |DigitSplit(s)| ==>
      (k % 2 == 0 ==> NoDigit(DigitSplit(s)[k])) && (k % 2 == 1 ==> AllDigits(DigitSplit(s)[k]))
    decreases |s|
  {
    if |s| > 0 {
      var rest := DigitSplit(s[1..]);
      var r := DigitSplit(s);
      DigitSplitParts(s[1..]);
      if IsAsciiDigit(s[0]) && |s| > 1 && IsAsciiDigit(s[1]) {
        assert r == [rest[0], [s[0]] + rest[1]] + rest[2..];
        forall k | 2 <= k < |r| ensures r[k] == rest[k] { }
      } else if IsAsciiDigit(s[0]) {
        assert r == ["", [s[0]]] + rest;
        forall k | 2 <= k < |r| ensures r[k] == rest[k - 2] { }
      } else {
        assert r == [[s[0]] + rest[0]] + rest[1..];
        forall k | 1 <= k < |r| ensures r[k] == rest[k] { }
      }
    }
  }

  /** The split loses nothing: its pieces concatenate to the text. */
  lemma {:induction false} DigitSplitConcat(s: string)
    ensures Concat(DigitSplit(s)) == s
    decreases |s|
  {
    if |s| > 0 {
      var rest := DigitSplit(s[1..]);
      var r := DigitSplit(s);
      DigitSplitConcat(s[1..]);
      ConcatCons(rest);
      if IsAsciiDigit(s[0]) && |s| > 1 && IsAsciiDigit(s[1]) {
        assert r == [rest[0], [s[0]] + rest[1]] + rest[2..];
        ConcatCons(rest[1..]);
        assert rest[1..][1..] == rest[2..];
        ConcatCons(r);
        ConcatCons(r[1..]);
        assert r[1..][1..] == rest[2..];
        assert rest[0] == [];
      } else if IsAsciiDigit(s[0]) {
        assert r == ["", [s[0]]] + rest;
        ConcatCons(r);
        ConcatCons(r[1..]);
        assert r[1..][1..] == rest;
      } else {
        assert r == [[s[0]] + rest[0]] + rest[1..];
        ConcatCons(r);
        assert r[1..] == rest[1..];
      }
    }
  }

  /** An element of a natural sort key. */
  datatype KeyPart = PartStr(s: string) | PartInt(n: int)

  function KeyParts(parts: seq<string>, first: nat): (r: seq<KeyPart>)
    ensures |r| == |parts|
    ensures forall k :: 0 <= k < |parts| ==>
      r[k] == (if (first + k) % 2 == 1 then PartInt(DigitsValue(parts[k])) else PartStr(parts[k]))
  {
    if |parts| == 0 then []
    else
      [if first % 2 == 1 then PartInt(DigitsValue(parts[0])) else PartStr(parts[0])]
      + KeyParts(parts[1..], first + 1)
  }

  /** natural_sort: each digit run read as an integer. */
  function NaturalSort(s: string): seq<KeyPart> {
    KeyParts(DigitSplit(s), 0)
  }

  /** A natural sort key alternates digit-free text and the integers of the
      digit runs, starting and ending with text. */
  lemma {:induction false} NaturalSortShape(s: string)
    ensures |NaturalSort(s)| == |DigitSplit(s)| && |NaturalSort(s)| % 2 == 1
    ensures Concat(DigitSplit(s)) == s
    ensures forall k :: 0 <= k < |NaturalSort(s)| && k % 2 == 0 ==>
      NaturalSort(s)[k] == PartStr(DigitSplit(s)[k]) && NoDigit(DigitSplit(s)[k])
    ensures forall k :: 0 <= k < |NaturalSort(s)| && k % 2 == 1 ==>
      NaturalSort(s)[k] == PartInt(DigitsValue(DigitSplit(s)[k])) && AllDigits(DigitSplit(s)[k])
  {
    DigitSplitParts(s);
    DigitSplitConcat(s);
  }

  /** A digit-free name followed by a number sorts as the name and then
      the number's value. */
  lemma {:induction false} NaturalSortNumbered(p: string, n: nat)
    requires NoDigit(p)
    ensures NaturalSort(p + NatToString(n)) == [PartStr(p), PartInt(n), PartStr("")]
  {
    var ds := NatToString(n);
    DigitRun(ds);
    DigitFreePrefix(p, ds);
    NatToStringValue(n);
    assert DigitSplit(p + ds) == [p + "", ds, ""];
    assert p + "" == p;
  }

  /** A digit run alone splits into itself between two empty texts. */
  lemma {:induction false} DigitRun(ds: string)
    requires AllDigits(ds)
    ensures DigitSplit(ds) == ["", ds, ""]
    decreases |ds|
  {
    if |ds| > 1 {
      DigitRun(ds[1..]);
      assert IsAsciiDigit(ds[1]);
      assert [ds[0]] + ds[1..] == ds;
    } else {
      assert DigitSplit(ds[1..]) == [""];
      assert [ds[0]] == ds;
    }
  }

  /** Digit-free text joins the first text of what follows. */
  lemma {:induction false} DigitFreePrefix(p: string, s: string)
    requires NoDigit(p)
    ensures DigitSplit(p + s) == [p + DigitSplit(s)[0]] + DigitSplit(s)[1..]
    decreases |p|
  {
    if |p| > 0 {
      assert (p + s)[0] == p[0] && (p + s)[1..] == p[1..] + s;
      DigitFreePrefix(p[1..], s);
      assert [p[0]] + (p[1..] + DigitSplit(s)[0]) == p + DigitSplit(s)[0];
    } else {
      assert p + s == s;
      assert p + DigitSplit(s)[0] == DigitSplit(s)[0];
      assert [DigitSplit(s)[0]] + DigitSplit(s)[1..] == DigitSplit(s);
    }
  }
}
