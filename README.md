# yo task engine, modelled in Dafny

yo is a command-line tool for managing Oracle Cloud instances. This project
models the part of yo that runs *tasks*: shell scripts carrying directive
lines (`DEPENDS_ON`, `MAYBE_DEPENDS_ON`, `CONFLICTS_WITH`, `PREREQ_FOR`,
`INCLUDE_FILE`, `MAYBE_INCLUDE_FILE`, `SENDFILE`) that yo parses, folds into
a checked and ordered plan, packs with their included files, and then
watches through status marker files on the instance. It also models the
helpers around that engine: name standardisation, shell quoting and
configuration checks (`yo/util.py`), unique command prefixes and the
alias-resolving dictionary (`yo/subc.py`), the in-memory resource cache,
the saved-instance tag, instance naming and filtering (`yo/api.py`),
instance-profile inheritance and a few argument decisions (`yo/main.py`),
and the ssh argument list (`yo/ssh.py`).

Everything the source reads from outside is a parameter: the task catalog
(names and scripts), the home directory, a tokenizer standing for
`shlex.split`, a glob matcher, the filesystem (a map from path to file or
directory with modification times), the clock, the random stream of
`get_safe_heredoc`, a base64 encoder, and the text each status poll prints.

Modules, one per source component:

- `Base`: Option, Result, Outcome and the exceptions the source raises, kept
  apart by kind (`YoExc`, `KeyError`, `IndexError`, `ValueError`, ...).
- `Text`: the Python string operations the source uses (strip, split,
  join, `int()`, `str()`, ordering and stable sorting).
- `Paths`: the pure part of `pathlib` and `expanduser`.
- `Globs`: `standardize_globs`.
- `TaskDef`: `YoTask.create_from_string`, `insert_prereq`, `list_tasks`,
  `get_safe_heredoc`.
- `Tarball`: `build_tarball` and `YoTask.prepare_files`.
- `Plan`: `YoTask.load` and the class `TaskPlan`.
- `TaskStatus`: `task_get_status`, `_status_code`, `task_join`.
- `Util`, `Subc`, `Cache`, `Api`, `Cli`, `Ssh`: the helpers above.

Where the source changes state in place it is modelled by a class or a
method with a loop: `TaskPlan` (fields `names`, `nameToTask`,
`orderedTasks`), `YoCache` (`data` and the two timestamps), `_SneakyDict`,
the arguments mutated by `arg_name` and `standardize_wait`, and the loops
of `create_from_string`, `build_tarball`, the plan phases, the status
reader, `task_join`, `check_args_dataclass`, `_unique_prefixes`,
`_launch_config_name` and the profile sort. Each such method is tied by
its `ensures` to a function, and the source's promises are lemmas about
that function.

Behaviours kept as the source has them: `build_tarball` ignores its root
argument; a relation directive with no argument is an `IndexError`;
a `MAYBE_DEPENDS_ON` line is rewritten from its stripped form; a FAIL status
always carries code 0; an awaited task missing from a poll is a `KeyError`;
`prepare` run twice inserts every prerequisite twice; prerequisite
insertions made before a conflict stay; an `inherit` naming an undefined
profile ends in a `KeyError`.

## Model

| member | source | states |
|---|---|---|
| Paths.PathOf | yo/tasks.py:107-108 | Path(s) is absolute exactly when s starts with "/", and no component is empty, "." or holds a "/" |
| Paths.ExpandUser | yo/tasks.py:80 | expanduser leaves text that does not start with "~" unchanged |
| Paths.ExpandUserHome | yo/tasks.py:80-84 | with an absolute home directory, "~/x" expands to an absolute path that ends with "/x", so it passes the absolute-path test |
| Globs.RouteRules | yo/tasks.py:79-92 | one INCLUDE_FILE entry: a pattern that is not absolute after expansion raises, then a destination that is neither "~/" nor "/" rooted raises, each with its message; otherwise it goes to the user list exactly when dest starts with "~/", keeps its expanded pattern and optional flag, and its destination loses only the "~" and the leading slashes |
| Globs.PartitionRoutes | yo/tasks.py:77-93 | the lists are built exactly when every entry routes, and each list holds its entries in input order |
| Globs.PartitionFirstError | yo/tasks.py:77-93 | the error raised is the one of the first entry that fails |
| Globs.RoutedPartition | yo/tasks.py:77-93 | every entry lands in exactly one of the two lists |
| Globs.StandardizeGlobs | yo/tasks.py:76-93 | standardize_globs: success exactly when every entry routes; the two lists are the routed entries in order and together as long as the input; an error is that of the first failing entry |
| TaskDef.ParseAllLines | yo/tasks.py:193-240 | the script parses exactly when every line does, each line to its own directive |
| TaskDef.ScanLines | yo/tasks.py:186-250 | the line loop of create_from_string yields the task of the parsed directives (lists in line order, rewritten script), or the first line's error |
| TaskDef.CreateFromString | yo/tasks.py:183-250 | create_from_string splits the script at "\n" and returns the task of its directives or the first error |
| TaskDef.KeywordsExclusive | yo/tasks.py:195-233 | no two directive keywords can both start a line, so the order of the tests does not change which keyword a line has |
| TaskDef.RelationDirective | yo/tasks.py:195-210 | DEPENDS_ON, CONFLICTS_WITH and PREREQ_FOR take the second field of the stripped line; a missing field raises IndexError |
| TaskDef.MaybeDirective | yo/tasks.py:199-208 | MAYBE_DEPENDS_ON x records whether x is in the task catalog; a missing field raises IndexError |
| TaskDef.IncludeDirective | yo/tasks.py:211-232 | INCLUDE_FILE and MAYBE_INCLUDE_FILE take one argument (dest = source) or two, MAYBE_ marks the entry optional, any other count raises with the argument count; a shlex error propagates |
| TaskDef.SendfileDirective | yo/tasks.py:233-240 | SENDFILE takes exactly one argument, the path with "~" expanded; any other count raises |
| TaskDef.PlainLine | yo/tasks.py:193-240 | a line starting with no keyword once stripped is a plain line and is kept unchanged |
| TaskDef.CommentLineIsPlain | yo/tasks.py:193-240 | a line starting with "#" once stripped carries no directive, whatever the catalog, home and tokenizer |
| TaskDef.DirectiveKeyword | yo/tasks.py:195-233 | every directive comes from the first keyword its stripped line starts with, in the order the source tests them |
| TaskDef.CommentedDirectiveInert | yo/tasks.py:199-240 | lines that are commented out (file directives, MAYBE_DEPENDS_ON on an unknown task) start with "#" and parse as plain lines when the script is read again |
| TaskDef.FoundMaybeRewritten | yo/tasks.py:201-203 | a MAYBE_DEPENDS_ON on a catalog task is left as a DEPENDS_ON line |
| TaskDef.CollectMembers | yo/tasks.py:186-240 | a value is in a task's list exactly when some line's directive contributes it |
| TaskDef.ScriptLines | yo/tasks.py:190-244 | the task's script has one line per original line, each the rewriting of its original |
| TaskDef.ScriptLinesKept | yo/tasks.py:194-244 | plain and DEPENDS_ON/CONFLICTS_WITH/PREREQ_FOR lines are kept unchanged; file directives become "# " followed by the stripped line |
| TaskDef.PlainScriptUnchanged | yo/tasks.py:183-250 | a script without directives defines a task with that very script and empty lists |
| TaskDef.InsertPrereq | yo/tasks.py:273-275 | insert_prereq appends the dependency and changes nothing but the dependencies and the script |
| TaskDef.InsertPrereqLines | yo/tasks.py:275 | the script gains "DEPENDS_ON other" as its first line and the old lines follow unchanged |
| TaskDef.InsertedLineParses | yo/tasks.py:273-275 | the inserted line, parsed again, declares the dependency it was inserted for |
| TaskDef.ListTasksCatalog | yo/tasks.py:298-303 | `ListTasks` models list_tasks; list_tasks is strictly increasing in code-point order and holds exactly the listed names that do not end in "~" |
| TaskDef.FirstSafe | yo/tasks.py:306-311 | the delimiter chosen is a drawn one that does not occur in the text; none is found exactly when every draw occurs |
| TaskDef.GetSafeHeredoc | yo/tasks.py:306-311 | the draw loop returns the first draw not in the text, and it is 32 distinct ASCII letters |
| TaskDef.HeredocDelimiterSafe | yo/tasks.py:306-311 | a delimiter absent from the script is none of its lines, so the here-document cannot end early |
| Tarball.ResolveRules | yo/tasks.py:106-129 | one entry: an existing file goes under dest (under dest/name when dest is empty or ends in "/"), a directory goes to dest, otherwise the glob's matches go under dest by name; a required entry with no match raises "file or pattern not found"; otherwise a glob whose destination equals its pattern raises "glob results need to have a destination directory", whether it matched or not |
| Tarball.ResolveAllOk | yo/tasks.py:105-129 | the pair list is built exactly when every entry resolves |
| Tarball.ResolvePairs | yo/tasks.py:105-129 | the first loop of build_tarball computes the pairs of all entries in order, stopping at the first error |
| Tarball.StaleExactly | yo/tasks.py:132-149 | the tarball is up to date exactly when every source exists and neither it nor anything beneath a source directory is newer than the tarball |
| Tarball.CheckStale | yo/tasks.py:134-149 | the for/else loop stops at the first source newer than the tarball; lstat of a missing source raises |
| Tarball.TarCommand | yo/tasks.py:152-159 | the command is tar -czhf, the tarball, then one destination per pair |
| Tarball.BuildTarball | yo/tasks.py:96-160 | build_tarball decides to skip, to run tar with a log line, or to raise, exactly as TarballAction of its inputs |
| Tarball.SkipExactly | yo/tasks.py:131-149 | nothing is done exactly when every entry resolves, the tarball exists and no source is newer than it |
| Tarball.RunLayout | yo/tasks.py:151-160 | otherwise exactly one tar command runs: tar, -czhf, the tarball, then every destination in order, after the building/rebuilding log line |
| Tarball.MissingRequiredRaises | yo/tasks.py:122-123 | a required entry that names nothing and whose glob matches nothing makes the call raise |
| Tarball.RebuiltIsCurrent | yo/tasks.py:132-149 | a tarball written after every source was modified is current: the same call then does nothing |
| Tarball.SameResolution | yo/tasks.py:106-129 | entries that do not name the tarball resolve the same whatever the tarball is |
| Tarball.PackList | yo/tasks.py:284-293 | one `if user:`/`if system:` block builds the tarball and, unless that raises, appends it to sendfiles; regular files stay regular files |
| Tarball.PackLists | yo/tasks.py:284-294 | packing the two lists keeps every regular file, changes only sendfiles and include_files, never drops a sent file, and on success leaves include_files empty |
| Tarball.PackListsPacked | yo/tasks.py:284-294 | the packing PackLists computes is the one Packed describes: user list first, then system list against the filesystem that leaves; the first failing build raises its error, stops, and keeps exactly the actions run before it; the tarballs packed so far are sent in order |
| Tarball.PackAll | yo/tasks.py:284-294 | the loop's task, filesystem, actions and outcome are PackLists of its inputs, so everything PackListsPacked states holds of it |
| Tarball.PrepareFilesOf | yo/tasks.py:277-294 | prepare_files as a value: a task without include files is returned unchanged with no action and success; regular files are kept, only the two file lists change, and success empties include_files |
| Tarball.PrepareListed | yo/tasks.py:280-294 | with include files: the task, filesystem, actions and outcome are exactly PrepareFilesOf's; a routing error raises with nothing changed; files already present stay files |
| Tarball.PrepareFiles | yo/tasks.py:277-294 | prepare_files: the task, filesystem, actions and outcome are exactly PrepareFilesOf's, so nothing happens without include files and the lists are packed as PackListsPacked states otherwise |
| Plan.LoadTask | yo/tasks.py:254-271 | YoTask.load: a name with no script raises "Script for task ... not found"; a loaded task carries the name it was loaded by |
| Plan.CollectRequested | yo/tasks.py:459-464 | the first loop of __init__: every requested entry is stored under its key, the last entry for a key wins, keys in insertion order; it fails exactly when some entry fails to load, with the first such error |
| Plan.LoadMissing | yo/tasks.py:471-474 | one task's missing dependencies are loaded in order and appended to the work list; existing entries are unchanged; new entries are the loaded tasks |
| Plan.LoadDependencies | yo/tasks.py:469-474 | the work-list loop ends with name_to_task closed under dependencies, old entries unchanged, every new entry the task loaded under its name, or with a load error |
| Plan.Init | yo/tasks.py:456-476 | TaskPlan.__init__: every requested task is in the plan, the last request for a name wins, the other tasks are loaded dependencies, the plan is closed under dependencies; a requested name with no script makes it fail |
| Plan.TaskPlan.constructor | yo/tasks.py:456-476 | a plan built from a map closed under dependencies is valid, with that map and an empty execution order |
| Plan.TaskPlan.Create | yo/tasks.py:456-476 | constructing a plan gives a valid plan with an empty execution order holding every requested task, or the load error |
| Plan.ApplyPrereqs | yo/tasks.py:412-414 | the prereq_for loop leaves the set of task names unchanged |
| Plan.ApplyPrereqsInserts | yo/tasks.py:412-414 | a task named n times in the declaring task's prereq_for gets the declaring task inserted n times |
| Plan.ApplyPrereqsLoop | yo/tasks.py:412-414 | the loop computes ApplyPrereqs |
| Plan.FirstConflict | yo/tasks.py:415-417 | the conflict found is the first of the task's conflicts that is in the plan; none exactly when no conflict is in the plan |
| Plan.FindConflict | yo/tasks.py:415-417 | the loop finds FirstConflict |
| Plan.ApplyPrereqsClosed | yo/tasks.py:412-414 | inserting prerequisites keeps the plan closed under dependencies, since only names of the plan are inserted |
| Plan.PrereqPass | yo/tasks.py:411-417 | the pass over all tasks keeps the set of task names |
| Plan.PrereqPhase | yo/tasks.py:411-417 | the loop over name_to_task computes PrereqPass |
| Plan.PrereqPassSame | yo/tasks.py:411-417 | the pass changes no task's name, prereq_for or conflicts |
| Plan.PrereqPassInserts | yo/tasks.py:411-417 | without a conflict, each task's dependencies become the old ones followed by the names of the tasks declaring themselves its prerequisite, in key order |
| Plan.PrereqPassConflict | yo/tasks.py:411-417 | the pass stops at exactly the conflict of the first task, in key order, that lists a task of the plan among its conflicts |
| Plan.PrereqPassTwice | yo/tasks.py:411-417 | the pass is not idempotent: running it twice inserts every prerequisite twice |
| Plan.PrereqPassClosed | yo/tasks.py:411-417 | stopped by a conflict or not, the pass keeps the plan closed under dependencies |
| Plan.TaskPlan.PrereqsCheckConflicts | yo/tasks.py:405-417 | _prepare_prereqs_check_conflicts: the new map is PrereqPass's; it raises "Task X conflicts with Y" for the first conflict; without one every task gained exactly its askers as dependencies |
| Plan.Visit | yo/tasks.py:428-440 | visit: an ordered task is skipped; a task still being visited raises "Tasks express a circular dependency" and then a cycle exists; otherwise the task is ordered after its dependencies and the order only grows |
| Plan.VisitDeps | yo/tasks.py:437-438 | the loop over a task's dependencies orders all of them or meets a cycle |
| Plan.StackCycle | yo/tasks.py:432-434 | meeting a task that is still being visited, as a dependency of the task on top, means the graph has a cycle |
| Plan.ExecutionOrder | yo/tasks.py:419-443 | the execution order fails exactly when the dependencies go round in a circle; otherwise it holds every task once, each after its dependencies |
| Plan.NoCycle | yo/tasks.py:419-443 | a sorted order of all tasks leaves no room for a cycle |
| Plan.TaskPlan.CreateExecutionOrder | yo/tasks.py:419-443 | _create_execution_order on the plan: fails with the circular-dependency error exactly when the task graph has a cycle; otherwise ordered_tasks holds every task once after its dependencies |
| Plan.InsertAllTask | yo/tasks.py:273-275 | inserting prerequisites changes a task's dependencies and script only |
| Plan.DependencyGraph | yo/tasks.py:437-438 | the graph visit walks has exactly the plan's tasks as nodes |
| Plan.ResolveRef | yo/tasks.py:460-464 | a requested name is loaded, a requested task taken as it is; either way the result carries the requested name |
| Plan.MissingFiles | yo/tasks.py:449-450 | the missing files are exactly the sent files that are not regular files |
| Plan.ReadyKept | yo/tasks.py:446-454 | a task ready to start stays ready while regular files stay regular files |
| Plan.PrepareTask | yo/tasks.py:447-454 | one task of _prepare_files: its result is the preparer PreparerOf gives (PrepareFilesOf, then the check that every sent file is a regular file); it succeeds exactly when the task is then ready to start; a task without include files is left alone and fails naming its sent files that are not regular files |
| Plan.FilesPhase | yo/tasks.py:446-454 | _prepare_files over the order: tasks, filesystem, actions and outcome are FilesRun's, which prepares the tasks in order and stops at the first failing one with its outcome; it succeeds exactly when every ordered task is ready; only file lists change |
| Plan.GraphKept | yo/tasks.py:446-454 | the files phase leaves the dependency graph alone |
| Plan.TaskPlan.PrepareFilesPhase | yo/tasks.py:445-454 | _prepare_files on the plan: tasks, filesystem, actions and outcome are FilesRun's over the execution order; it succeeds exactly when every ordered task is ready; names and order unchanged |
| Plan.TaskPlan.Prepare | yo/tasks.py:478-481 | prepare: the first conflicting pair raises the conflict error with nothing run; otherwise a cycle among the tasks after the prerequisite pass raises the cycle error with nothing run; otherwise the result is FilesRun's over the execution order; after a conflict or a cycle the tasks keep the prerequisite insertions made before the failure, and after a conflict the order is unchanged; on success no task conflicts with another, every task is ordered once after its dependencies, and every ordered task is ready to start |
| Plan.TaskPlan.HaveTasks | yo/tasks.py:483-484 | have_tasks is true exactly when the execution order is non-empty |
| Plan.TaskPlan.Join | yo/tasks.py:507-509 | join waits for exactly the ordered tasks, in order |
| TaskStatus.ReadKindSound | yo/tasks.py:535 | what the `(pid\|status\|wait):(.*)` part reads is one of the three kinds, a colon and the rest of the line |
| TaskStatus.ReadKindComplete | yo/tasks.py:535 | every kind followed by a colon and any content is read back as that kind and content |
| TaskStatus.ReadTaskSound | yo/tasks.py:535 | what the `([^/]*)/` part reads is a slash-free name followed by a slash |
| TaskStatus.ReadTaskComplete | yo/tasks.py:535 | every slash-free name followed by a slash is read back as that name |
| TaskStatus.LastAtMax | yo/tasks.py:535 | the greedy leading `.*` settles on the last position at which the rest matches |
| TaskStatus.MatchAtSound | yo/tasks.py:535 | a match at a position splits the line there into prefix, task, kind and content |
| TaskStatus.MatchAtComplete | yo/tasks.py:535 | every such split is the match at its position |
| TaskStatus.SplitFound | yo/tasks.py:535 | every split position lies inside the line and is seen by the matcher |
| TaskStatus.MatchMarkerExactly | yo/tasks.py:535 | the pattern matches exactly the lines of the form `prefix/task/kind:content`, and takes the last such split |
| TaskStatus.Markers | yo/tasks.py:542-549 | every line yields one marker, or the whole read raises "bad task status data, examine ... on the host" |
| TaskStatus.BadLineRaises | yo/tasks.py:542-549 | any one line that does not match makes the read raise, whatever the other lines are |
| TaskStatus.AddMarkerLookup | yo/tasks.py:551 | appending a marker extends its own task's file list, or starts it, and no other task's |
| TaskStatus.LookupSnoc | yo/tasks.py:553-572 | a later entry for a key already present is not the one found |
| TaskStatus.GroupAllFiles | yo/tasks.py:536-551 | after grouping, each task's file list is exactly the kinds and contents of its markers in order, and tasks without markers are absent |
| TaskStatus.GroupLines | yo/tasks.py:542-551 | the loop over the lines groups the markers by task, or raises the bad-data error |
| TaskStatus.ClassifyOne | yo/tasks.py:556-564 | `Classify` models the classification loop's body; a lone file: a pid means RUNNING with that pid; an exit status of 0 means SUCCESS and any other FAIL with code 0; content that is not an integer raises |
| TaskStatus.ClassifyTwo | yo/tasks.py:555-572 | two files sort alphabetically, so the task is WAITING on the wait file's content exactly when they are one pid file and one wait file, in either order, and UNKNOWN otherwise |
| TaskStatus.ClassifyAllPrefixError | yo/tasks.py:554-572 | the first task whose files raise ends the classification with its error |
| TaskStatus.ClassifyGroups | yo/tasks.py:553-573 | the loop over tasks computes the classification of each in order |
| TaskStatus.BlankStatus | yo/tasks.py:539-541 | an output that is only whitespace reports no task at all |
| TaskStatus.StatusOfTask | yo/tasks.py:536-573 | each reported task appears once, with the status of exactly the markers naming it; a task without markers is not reported |
| TaskStatus.GetStatus | yo/tasks.py:512-573 | task_get_status once the remote output is known: stripped, split into lines, matched, grouped and classified |
| TaskStatus.StatusCodeDistinct | yo/tasks.py:576-586 | `StatusCode` models _status_code; _status_code tells RUNNING, FAILED, WAITING, UNKNOWN and SUCCESS apart (every other state shows as SUCCESS), and for running, failed and waiting tasks it tells the code apart |
| TaskStatus.MarkupHead | yo/tasks.py:576-586 | the first eight characters of _status_code's markup, which differ between the five displayed states |
| TaskStatus.FailedShownWithZero | yo/tasks.py:556-580 | a failed task classified from its files is always shown as FAILED with code 0, whatever its exit status was |
| TaskStatus.ObserveRemembers | yo/tasks.py:611-615 | after a poll, every task of it is remembered with its status and no other memory changes |
| TaskStatus.ObserveQuiet | yo/tasks.py:611-625 | a poll whose statuses are all remembered unchanged logs nothing |
| TaskStatus.ObserveFirst | yo/tasks.py:616-620 | on the first poll every task is logged as starting, in order |
| TaskStatus.ObserveLoop | yo/tasks.py:611-627 | the loop over one poll's statuses remembers and logs as Observe says |
| TaskStatus.AllDoneMeaning | yo/tasks.py:634-637 | `AllDone` models the all(...) test; all awaited tasks are done exactly when each is reported and neither running nor waiting; it raises exactly when some awaited task is missing while every awaited task before it is reported and done, and the KeyError names that first missing task |
| TaskStatus.CanTerminateMeaning | yo/tasks.py:632-638 | `CanTerminate` models can_terminate; with nothing awaited the loop may end once no task runs or waits; with tasks awaited, once all of them are done; it raises KeyError exactly when an awaited task is missing after only reported, finished awaited tasks, naming that task (a missing task after a running one does not raise) |
| TaskStatus.CheckDone | yo/tasks.py:632-638 | the check of the awaited tasks, in order, computes can_terminate |
| TaskStatus.PollOnce | yo/tasks.py:608-640 | one poll: read the statuses, log what changed, decide whether to stop |
| TaskStatus.JoinedAtFirst | yo/tasks.py:607-642 | joining ends at the first poll that allows termination, returning its statuses; every earlier poll was read and allowed no end |
| TaskStatus.JoinedDone | yo/tasks.py:600-642 | once joining returns, what it waited for is done: every awaited task is reported and finished, or with none awaited no task runs or waits |
| TaskStatus.TaskJoin | yo/tasks.py:600-642 | task_join over a sequence of poll outputs computes JoinRun, starting from no remembered status |
| Util.ReadSingleQuoted | yo/util.py:361-362 | inside single quotes, a text whose quotes are written as `'"'"'` reads back as the text |
| Util.ReadSafe | yo/util.py:361-362 | unquoted characters that shlex.quote leaves alone read as themselves |
| Util.ReadQuote | yo/util.py:361-362 | a quoted text reads back as exactly that text, whatever follows it |
| Util.QuoteReadsBack | yo/util.py:361-362 | shlex.quote gives the shell exactly one word, the text itself |
| Util.QuoteAll | yo/util.py:361-362 | every argument is quoted, in order |
| Util.ShlexJoinReadsBack | yo/util.py:361-362 | `ShlexJoin` models shlex_join; shlex_join's command line reads back as exactly the arguments joined |
| Util.ReadHome | yo/util.py:197-199 | `"$HOME"` reads as the home directory, joined to the word that follows |
| Util.TaskDirSafeReads | yo/util.py:170-200 | `TaskDirSafe` models task_dir_safe; the shell reads task_dir_safe as one word: the task directory without trailing slashes, with the home directory in place of a leading `~` or `$HOME` |
| Util.StandardizeName | yo/util.py:319-334 | standardize_name: unchanged with --exact-name, or with the flag absent and exact_name configured; otherwise prefixed with the user name and a dash unless it already is |
| Util.StandardizeNameIdempotent | yo/util.py:319-334 | standardizing a standardized name changes nothing |
| Util.RemoveSuffix | yo/util.py:351-358 | removesuffix: with the suffix, the result followed by the suffix is the text; without it, the text itself |
| Util.One | yo/util.py:311-316 | one: succeeds exactly on a one-element list, with that element; none or several raise their messages |
| Util.FmtAllowDeny | yo/util.py:337-344 | fmt_allow_deny: "any" or the bracketed allow list, then " except [...]" exactly when something is denied |
| Util.FmtAllowDenyAny | yo/util.py:337-344 | the format tells an empty allow list from any other |
| Util.AllCreatorTags | yo/util.py:268-274 | all_creator_tags: exactly the e-mail address, its "oracle/" form, the user name and the configured creator tags |
| Util.CheckArgsDataclass | yo/util.py:277-308 | check_args_dataclass: passes exactly when no argument is unknown or a repeated required field and every required field is given; otherwise the first bad argument raises "unknown configuration", then missing fields raise |
| Util.FilterKeys | yo/util.py:77-84 | filter_keys: the listed keys present in the dictionary, with their values, are moved out of it |
| Util.OptStrList | yo/util.py:61-74 | opt_strlist: a non-empty value is replaced by its pieces between runs of commas and whitespace; otherwise nothing changes |
| Util.SplitRunsKeeps | yo/util.py:61-74 | splitting at separator runs loses the separators and nothing else, and gives empty pieces only at the ends |
| Util.DigitSplit | yo/util.py:392-398 | re.split with a capturing digit group gives an odd number of pieces, starting with an empty one when the text starts with a digit |
| Util.DigitSplitParts | yo/util.py:392-398 | the pieces alternate digit-free text and digit runs |
| Util.DigitSplitConcat | yo/util.py:392-398 | the pieces concatenate back to the text |
| Util.KeyParts | yo/util.py:395-398 | the digit runs become integers and the text pieces stay text |
| Util.NaturalSortShape | yo/util.py:395-398 | `NaturalSort` models natural_sort; natural_sort alternates digit-free text and the values of the digit runs, starting and ending with text |
| Util.NaturalSortNumbered | yo/util.py:395-398 | a digit-free name followed by a number sorts as the name, then the number's value |
| Util.DigitRun | yo/util.py:392-398 | a lone digit run splits into itself between two empty texts |
| Util.DigitFreePrefix | yo/util.py:392-398 | digit-free text joins the first piece of what follows |
| Subc.Lcp | yo/subc.py:13-23 | the common prefix length: both strings agree before it and differ at it unless one ends there |
| Subc.LcpPrefix | yo/subc.py:13-23 | every common prefix is no longer than the one found |
| Subc.LcpSymmetric | yo/subc.py:13-23 | the common prefix length does not depend on the order of the strings |
| Subc.LcpBetween | yo/subc.py:42-47 | in sorted order, the outer strings share no more than either shares with the one between, so comparing neighbours suffices |
| Subc.FirstDifferent | yo/subc.py:13-23 | _first_different: the common prefix length of two different non-empty strings; equal strings raise "Duplicate string"; an empty string beside a different one reaches the unbound loop variable |
| Subc.PrefixesFrom | yo/subc.py:48-51 | the listed prefixes are exactly the proper prefixes longer than the reach, shortest first |
| Subc.ReachUnique | yo/subc.py:42-51 | in a strictly increasing list, a proper prefix longer than the reach over both neighbours begins no other string, and a shorter one begins some other string |
| Subc.SortedDistinctIncreasing | yo/subc.py:42 | a sorted list whose neighbours differ is strictly increasing |
| Subc.SortedRepeatAdjacent | yo/subc.py:42 | in a sorted list equal entries sit next to each other, so a repeat is caught by a neighbouring pair |
| Subc.DistinctCounts | yo/subc.py:42 | sorting keeps distinctness, which depends only on the multiset of strings |
| Subc.ReachStep | yo/subc.py:44-47 | comparing one neighbouring pair raises the reach of those two strings only, to at least their common prefix |
| Subc.Diffs | yo/subc.py:42-47 | the loop over neighbouring pairs succeeds exactly when every pair compares, giving each string's reach over both neighbours |
| Subc.PrefixMap | yo/subc.py:48-51 | the dictionary holds every sorted string with its prefixes beyond its reach |
| Subc.PairsComparable | yo/subc.py:42-47 | every neighbouring pair compares exactly when no string repeats and no empty string stands beside another |
| Subc.PrefixMapMeaning | yo/subc.py:42-51 | the map built from the reaches holds exactly the strings, each with exactly its unique proper prefixes, shortest first |
| Subc.UniquePrefixes | yo/subc.py:26-51 | _unique_prefixes: fails exactly on a repeated string or an empty one beside others; otherwise maps each string to exactly its non-empty proper prefixes that begin no other string, shortest first |
| Subc.PrefixOfAnotherHasNone | yo/subc.py:26-51 | a string that begins another (app, apply) has no unique prefix |
| Subc.AliasToName | yo/subc.py:74 | the aliases are exactly the names listed in the alias map |
| Subc.AliasToNameLast | yo/subc.py:74 | an alias resolves to the last name listing it |
| Subc.SneakyDict.Resolve | yo/subc.py:65-67 | a key is replaced by the name it aliases, and otherwise kept |
| Subc.SneakyDict.Get | yo/subc.py:65-67 | lookup goes through the alias; a missing key raises KeyError for the resolved key |
| Subc.SneakyDict.Contains | yo/subc.py:69-71 | containment goes through the alias, agreeing with lookup |
| Subc.SneakyDict.Keys | yo/subc.py:54-59 | listing and length see only the real keys, never the aliases |
| Subc.SneakyDict.AddAliases | yo/subc.py:73-75 | add_aliases: the alias table is updated with each alias pointing at its name; the entries are untouched |
| Subc.AliasLookup | yo/subc.py:54-75 | after aliasing, an alias looks up the entry of the name it abbreviates |
| Cache.SameItemEquivalence | yo/api.py:283-294 | same_item is reflexive, symmetric and transitive; items with an id are the same exactly when the ids agree; an item with an id is never the same as one without |
| Cache.FirstSame | yo/api.py:979-981 | the position found is the first holding the same item, and none means no item is the same |
| Cache.Inserted | yo/api.py:977-983 | after insert, the first same item is replaced at its index and the length unchanged; otherwise the item is appended |
| Cache.InsertedNoSame | yo/api.py:977-983 | inserting keeps a list free of repeated items, and the new item is in it |
| Cache.YoCache.Insert | yo/api.py:977-983 | insert: marks the update time and replaces or appends in place as Inserted says |
| Cache.YoCache.MarkUpdate | yo/api.py:969-972 | mark_update: the update time is set, the refresh time only when asked; the items are kept |
| Cache.YoCache.Dirty | yo/api.py:974-975 | dirty: both timestamps forgotten, the items kept |
| Cache.FirstHit | yo/api.py:934-946 | the position of the first item with the field's value; none means no item has it |
| Cache.Matching | yo/api.py:929-932 | the matches are no more than the items |
| Cache.MatchingFirst | yo/api.py:934-946 | there is no match exactly when there is no first hit; the first match is the item at the first hit |
| Cache.MatchingMembers | yo/api.py:929-932 | an item is yielded exactly when it is in the cache and its field has the value |
| Cache.KeptMembers | yo/api.py:954-967 | an item is kept exactly when it is in the cache and does not match |
| Cache.KeptAppend | yo/api.py:954-967 | what is kept of two lists joined is what is kept of each, joined |
| Cache.KeptNoHit | yo/api.py:954-967 | a list without matches is kept whole |
| Cache.HitIndices | yo/api.py:955-958 | the listed positions hold matches and increase |
| Cache.HitIndicesComplete | yo/api.py:955-958 | every match has its position listed |
| Cache.HitIndicesCount | yo/api.py:955-959 | there are as many positions as matches, so the uniqueness test counts matches |
| Cache.StampOrNull | yo/api.py:908-911 | dtornull: a stored timestamp is read back; a missing or null value gives None |
| Cache.Export | yo/api.py:985-996 | export writes exactly the cache, both timestamps and the version |
| Cache.LoadState | yo/api.py:901-919 | load: an empty dictionary or another version leaves the cache untouched; any change comes from a dictionary of this version |
| Cache.LoadExport | yo/api.py:901-996 | loading what export wrote restores the exported items and timestamps |
| Cache.YoCache.constructor | yo/api.py:873-894 | a new cache is empty with no timestamps, with the given name, version and staleness |
| Cache.YoCache.Clear | yo/api.py:896-899 | clear: no items and both timestamps None |
| Cache.YoCache.Load | yo/api.py:901-919 | load on the cache's state follows LoadState |
| Cache.YoCache.Set | yo/api.py:921-927 | set: exactly the given items, with both timestamps from the clock |
| Cache.YoCache.GetAllBy | yo/api.py:929-932 | get_all_by yields exactly the matches, in list order |
| Cache.YoCache.GetBy | yo/api.py:934-946 | get_by: None exactly without a match; an error exactly with several matches and `unique`; otherwise the first match |
| Cache.YoCache.GetAll | yo/api.py:951-952 | get_all returns the items |
| Cache.YoCache.HitPositions | yo/api.py:955-958 | the first loop of remove_by lists the positions of the matches |
| Cache.YoCache.RemoveBy | yo/api.py:954-967 | remove_by: with several matches and `unique`, raises and changes nothing; otherwise drops exactly the matches and keeps the rest in order; timestamps unchanged |
| Cache.YoCache.DeleteAt | yo/api.py:966-967 | deleting at the match positions, highest first, leaves exactly the non-matching items in order |
| Cache.NoHitBetween | yo/api.py:966-967 | between two neighbouring match positions nothing matches |
| Cache.DeleteStep | yo/api.py:966-967 | deleting one match below the part already processed extends that part down to it |
| Cache.NoHitBefore | yo/api.py:966-967 | nothing before the first match is removed, so the loop's end is the kept list |
| Api.FlexList | yo/api.py:196-201 | flex_list: a list is kept; text becomes at least one piece, the pieces holding no comma or whitespace, empty only at the ends, and together all the text's other characters |
| Api.Validate | yo/api.py:257-263 | InstanceProfile.validate passes exactly when one of image and os is given, and names the profile in the error for neither or both |
| Api.FromStr | yo/api.py:480-487 | from_str: text not starting with "1," raises "cannot understand saved instance metadat"; accepted text starts with "1," |
| Api.FromStrFields | yo/api.py:480-487 | text of six comma-separated fields, split at the first five commas, gives the shape, the two integers, the user and the name, which may itself hold commas |
| Api.IntToStringNoComma | yo/api.py:2824-2833 | a number written out holds no comma, so the two number fields cannot shift the split |
| Api.SaveDataSplits | yo/api.py:2824-2833 | `SaveData` models the savedata tag; the savedata tag starts with "1," and splits back into its six fields when the shape and user hold no comma |
| Api.SavedNumbersParse | yo/api.py:2824-2833 | the ocpu and memory fields parse back to the instance's numbers |
| Api.SaveDataRoundTrip | yo/api.py:480-487 | from_str inverts save_instance's tag when shape and user hold no comma, whatever the name holds |
| Api.TakenNamesCover | yo/api.py:2104-2109 | `TakenNames` models the taken-name collection; every live instance's name and every saved instance's name is taken, once every saved tag is readable |
| Api.CollectNames | yo/api.py:2104-2109 | the loop over volumes collects the taken names, or fails with the first unreadable saved tag |
| Api.PrefixError | yo/api.py:2107-2109 | an unreadable tag early on fails the whole collection the same way |
| Api.TrailingDigits | yo/api.py:2125-2128 | the trailing digit run is no longer than the name |
| Api.TrailingDigitsRun | yo/api.py:2125-2128 | the run found is all digits and is preceded by a non-digit or the start |
| Api.TrailingDigitsSuffix | yo/api.py:2125-2128 | a digit run after a non-digit is found whole |
| Api.SplitVersionCandidate | yo/api.py:2125-2132 | `SplitVersion` models the name/number split; splitting a generated name `stem-i` gives back its stem and i |
| Api.FirstFree | yo/api.py:2129-2132 | the number found is the first in range whose name is free; none means all in range are taken |
| Api.PickName | yo/api.py:2120-2137 | the chosen name is free; the standardized name itself is chosen exactly when it is free; otherwise "could not come up with a unique instance name" |
| Api.PickNumbered | yo/api.py:2124-2132 | a name found by the numbered search is free |
| Api.PickNameNumbered | yo/api.py:2124-2132 | a taken name is replaced by the same stem with a higher number, at most max_tries above the original |
| Api.PickNameExhausted | yo/api.py:2129-2137 | the error comes only when the name and all max_tries numbers above it are taken |
| Api.ChooseFree | yo/api.py:2120-2137 | the choice of a free name computes PickName |
| Api.SearchNumbered | yo/api.py:2124-2132 | the numbered search computes PickNumbered |
| Api.FindFree | yo/api.py:2129-2132 | the loop over numbers finds the first free one |
| Api.LaunchConfigName | yo/api.py:2084-2137 | _launch_config_name: with --exact-name, the given name or an error without one; otherwise a free name chosen from the standardized name or the profile's |
| Api.CloudConfigLines | yo/api.py:2073-2080 | the user data is the four cloud-config lines naming the user |
| Api.LaunchConfigUser | yo/api.py:2061-2082 | _launch_config_user: no user data exactly when the requested or profile user is absent or "$DEFAULT", and then the default user; otherwise the encoded cloud-config for the user, with "$MY_USERNAME" meaning the configured user name |
| Api.InstancesNamed | yo/api.py:1374-1383 | _instances_named: exactly the cached instances named, in order; all of them when no name is given |
| Api.FilterInstances | yo/api.py:1385-1401 | _filter_instances: exactly the instances whose state is not denied and is allowed, an empty allow list allowing all, in order |
| Api.DedupShapes | yo/api.py:1769-1777 | the shape list is sorted by name with strictly increasing names, holds every name of the listing, and keeps only listed shapes |
| Cli.Reversed | yo/main.py:299 | reversed(visiting) holds the same entries, last first |
| Cli.TopoSort | yo/main.py:287-300 | the sort of instance profiles fails with "Circular dependency in instance profiles" exactly when some profile's inherit chain runs into a cycle; otherwise every profile appears once, after the profile it inherits from, the order holds nothing but the profiles and their ancestors, and the names reached from the first t sections come before all others, which fixes the source's order |
| Cli.SortStep | yo/main.py:290-300 | placing one section's walk keeps the order distinct, parents first, covering the sections so far, and grouped by section |
| Cli.GroupStep | yo/main.py:290-300 | placing one section's walk keeps the order grouped by the first section whose chain reaches each name |
| Cli.GroupMembers | yo/main.py:290-300 | the walked names are on the current section's chain, so every placed name is reached from a section |
| Cli.GroupOrder | yo/main.py:290-300 | newly placed names are reached from no earlier section, so they come after all names those sections reach |
| Cli.WithinPlaced | yo/main.py:290-300 | every name on the chain of a placed section is already placed |
| Cli.Walk | yo/main.py:291-298 | the inner loop follows a profile's inherit chain through profiles not yet placed, stopping at a placed one or the chain's end; meeting a profile already on the chain means a cycle |
| Cli.DistinctAppend | yo/main.py:297 | appending a profile not yet on the chain keeps the chain free of repeats |
| Cli.DistinctWithin | yo/main.py:293-298 | a chain without repeats is no longer than the set of profile names, so the walk ends |
| Cli.ChainStep | yo/main.py:297-298 | stepping to the parent extends the chain by one profile |
| Cli.ParentIsName | yo/main.py:298 | a parent is always a profile name or an inherit value |
| Cli.ChainFollow | yo/main.py:291-298 | the chain's entries are the profile's successive ancestors |
| Cli.CycleWitness | yo/main.py:295-296 | a profile met twice on its own chain is an ancestor of itself |
| Cli.PlaceChain | yo/main.py:299-300 | placing the reversed chain keeps the order free of repeats with parents first, and marks the profile seen |
| Cli.PlaceDistinct | yo/main.py:299-300 | the reversed chain adds no repeats to the order |
| Cli.PlaceParents | yo/main.py:299 | in the reversed chain each profile follows its parent |
| Cli.PlaceNames | yo/main.py:299-300 | seen is exactly the set of profiles in the order |
| Cli.FollowEarlier | yo/main.py:299 | in an order with parents first, an ancestor m steps up sits at least m positions earlier |
| Cli.FollowAdd | yo/main.py:298 | going up m steps and then k steps is going up m + k steps |
| Cli.OrderAcyclic | yo/main.py:299 | a profile in an order with parents first has no cycle above it |
| Cli.OwnKeys | yo/main.py:308-309 | a profile's own settings are its section without the inherit key, values kept |
| Cli.LoadProfiles | yo/main.py:302-313 | loading in sorted order: each profile gets its parent's settings overridden by its own, is checked and validated; on an error the names before it loaded, and the error is KeyError for a missing section or the failing check's exception on that name's merged keys |
| Cli.LoadStep | yo/main.py:303-313 | loading one more profile keeps every loaded profile inheriting correctly |
| Cli.InheritsOverride | yo/main.py:304-309 | a profile's own setting wins; a setting it lacks comes from its parent |
| Cli.SplitUser | yo/main.py:638-639 | name.split("@") into two: succeeds exactly with one "@", giving the user and the name around it; more raise "too many values to unpack" |
| Cli.SingleInstanceCommand.constructor | yo/main.py:623-640 | a command starts with no user name |
| Cli.SingleInstanceCommand.ArgName | yo/main.py:623-640 | arg_name: the -n name, else the positional name, else the command's own; a name with one "@" sets the user to the part before it and returns the part after it; a name with more than one raises SplitUser's ValueError and leaves the user None; otherwise the user is None |
| Cli.MultiInstanceNames | yo/main.py:784-796 | fails exactly when both --all and names are given, or neither; otherwise the names to act on are exactly the standardized given names |
| Cli.MultiInstanceNamesStandard | yo/main.py:793-796 | every selected name is already standardized |
| Cli.LaunchArgs.constructor | yo/main.py:1822-1831 | the launch flags start as given |
| Cli.LaunchArgs.StandardizeWait | yo/main.py:1822-1831 | standardize_wait: --ssh or tasks imply --wait-ssh, which implies --wait; nothing else changes, and consistent flags stay as they are |
| Cli.Packages | yo/main.py:1836-1840 | the package list starts with the profile's install list and has at least one entry per --install value |
| Cli.MaybeInstallPackages | yo/main.py:1833-1847 | maybe_install_packages: with any package, one install task with the joined package names is appended; otherwise the task list is unchanged |
| Cli.PackagesEmpty | yo/main.py:1836-1841 | there are no packages exactly when the profile installs none and no --install is given |
| Cli.PackagesWords | yo/main.py:1838-1840 | the package names from --install hold no comma or whitespace |
| Cli.ShouldPreserveVolume | yo/main.py:1971-1976 | should_preserve_volume: the command-line flag when given, else the configuration, else false |
| Cli.ProtectedNames | yo/main.py:2005-2008 | the protected names are exactly those of the termination-protected instances; none exactly when no instance is protected |
| Cli.CheckTerminationProtection | yo/main.py:2000-2013 | passes exactly when no instance is protected; otherwise raises naming the one protected instance, or all of them |
| Ssh.KeyArgs | yo/ssh.py:94-111 | the key arguments are empty exactly when no private key is configured |
| Ssh.SshArgs | yo/ssh.py:94-111 | ssh_args: the fixed options, the configured words, then the key; a configured "-i" raises; a tokenizing error propagates |
| Ssh.SshArgsIdentity | yo/ssh.py:94-111 | with a key, the first "-i" is the one before the configured key; without a key and not interactive, "-i" never appears |
| Ssh.SshCmd | yo/ssh.py:114-125 | ssh_cmd: "ssh", the ssh arguments (interactive exactly when commands are given), the extra arguments, the target, then the commands |

## Left out

- Remote execution: `ssh_into`, `wait_for_ssh_access`, `_task_run` and `TaskPlan.run` only run commands on the instance; `task_get_status` is modelled from the moment its command's output is known (`TaskStatus.StatusOf`), and `task_join` over a given sequence of poll outputs.
- `TaskPlan.dry_run_print`, `task_status_to_table`, the live display and `time.sleep` in `task_join`, and every log line other than the status changes `task_join` logs: printing only.
- `task_join` when the polls run out: the model returns `StillWaiting`, where the source would keep polling for ever.
- The real filesystem and subprocesses: the filesystem is a map from path to node, the staging directory creation and the symlink staging of `build_tarball` are not modelled, and `tar` is recorded as its argument list with the tarball then counting as written at the given time.
- `YoTask.load` and `list_tasks` reading the task directories: the catalog is the parameter `Env`; their `lru_cache` sharing of one task object between plans is not modelled.
- `shlex.split` is the parameter `tokenize`; glob matching is the parameter `matcher`; base64 in `_launch_config_user` is the parameter `b64`.
- The random draws of `get_safe_heredoc` are the parameter `draws`; when every draw occurs in the text the model returns None, where the source would keep drawing.
- Reading the configuration file, `YoConfig.from_config_section`, `InstanceProfile.from_dict` and the `#` checks: `load_config` is modelled from the parsed sections on, with profile construction and validation as the parameter `check`.
- `validate_args` and `get_matching_instances` in `MultiInstanceCommand.run`, the lookup that follows `arg_name`, and `get_instance_name_arg` (a parameter): they call into the cloud client or subclasses.
- `YoCache.is_current`, `YoCache.export`'s and `load`'s conversion of timestamps to and from text, and `to_json`/`from_json` of items: timestamps are integers and items are values.
- The cloud SDK calls around the modelled helpers (`list_instances`, `list_volumes`, `list_shapes`'s fetch, `save_instance`'s update): their results are parameters.
- `int()` on non-ASCII digits is not modelled: `Text.ParseInt` accepts ASCII digits only, and `natural_sort` is modelled for ASCII digit runs.
- Api.TrailingDigits: the `-(\d+)$` search of `_launch_config_name` is modelled for ASCII digits only; Python's `\d` also matches other Unicode decimal digits, which `int()` accepts.
- Paths.ExpandUser: only the current user's `~` and `~/...` forms are expanded; `~user` and `~user/...`, which `os.path.expanduser` looks up in the password database, are left unchanged.
- Symbolic links in `build_tarball`: a `Tarball.Node` is a file or a directory. The staleness test `lstat`s each source, so a symlink to a directory is not walked in the source, while the model walks every `Dir`. The `stat` of entries beneath a directory raises on a broken link, which the model's list of mtimes cannot express.
- Cli.LoadProfiles: a profile inherits its parent's merged section keys, where the source inherits `dataclasses.asdict` of the parent's checked `InstanceProfile`, which holds every field with defaults filled in and values already converted; this is a consequence of modelling `InstanceProfile.from_dict` as the parameter `check`.
- Error messages that embed a Python `repr` (the duplicate-string error of `_first_different`) put the text between single quotes without the escaping `repr` would apply.
- Api.FromStr: states only the "1," gate; what an accepted string yields is stated by `Api.FromStrFields` and `Api.SaveDataRoundTrip`.
- Api.PickNumbered: states only that a found name is free; the renumbering is stated by `Api.PickNameNumbered` and `Api.PickNameExhausted`.
- Cli.Packages: states only that the profile's packages come first and the length bound; emptiness and word contents are `Cli.PackagesEmpty` and `Cli.PackagesWords`.
- Cache.Matching: states only the length bound; membership is `Cache.MatchingMembers` and order is `Cache.MatchingFirst`.
- Cache.Export: states only the keys written; the contents are stated by the round trip `Cache.LoadExport`.
- Cache.LoadState: states the version gate only; the step-by-step effect is stated through `Cache.YoCache.Load` and `Cache.LoadExport`.
- Plan.ApplyPrereqs: states only that the task names are kept; the insertions are `Plan.ApplyPrereqsInserts`.
- Plan.PrereqPass: states only that the task names are kept; its effect is `Plan.PrereqPassSame`, `Plan.PrereqPassInserts` and `Plan.PrereqPassConflict`.
- Util.DigitSplit: states only the parity of the piece count and the leading empty piece; the pieces are `Util.DigitSplitParts` and `Util.DigitSplitConcat`.
- TaskStatus.Markers: states the count and the error only; what each line yields is `TaskStatus.MatchMarkerExactly`.
- Ssh.SshArgs: in an interactive call the words after the key are not stated to be the interactive tokens, only that tokenizing them succeeded.
- Util.CheckArgsDataclass: the message for missing fields lists them in the unspecified iteration order of a Python set, so it is stated as the set.
