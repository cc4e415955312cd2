/** standardize_globs: splitting a task's file inclusions into the part
    that unpacks under the home directory and the part that unpacks under /. */
module Globs {
  import opened Base
  import opened Text
  import opened Paths

  /** An INCLUDE_FILE entry: (glob pattern, destination, optional). */
  datatype Glob = Glob(pattern: string, dest: string, optional: bool)

  function NotAbsoluteError(what: string): Exc {
    YoExc("Only absolute or user-relative paths are allowed: " + what)
  }

  /** The routing of one entry: true for the home-rooted list, false for
      the /-rooted list, with the pattern expanded and the destination made
      relative. */
  function Route(home: string, g: Glob): Result<(bool, Glob)> {
    var pattern := ExpandUser(home, g.pattern);
    if !IsPrefix("/", pattern) then Err(NotAbsoluteError(pattern))
    else if IsPrefix("~/", g.dest) then Ok((true, Glob(pattern, LStripChar(g.dest[2..], '/'), g.optional)))
    else if IsPrefix("/", g.dest) then Ok((false, Glob(pattern, LStripChar(g.dest, '/'), g.optional)))
    else Err(NotAbsoluteError(g.dest))
  }

  /** The routing rules: which entries fail and with which message, which
      list the others go to, and how their destinations are cut. */
  lemma {:induction false} RouteRules(home: string, g: Glob)
    ensures var pattern := ExpandUser(home, g.pattern); var r := Route(home, g);
      && (!IsPrefix("/", pattern) ==> r == Err(NotAbsoluteError(pattern)))
      && ((IsPrefix("/", pattern) && !IsPrefix("~/", g.dest) && !IsPrefix("/", g.dest))
          ==> r == Err(NotAbsoluteError(g.dest)))
      && (r.Ok? <==> IsPrefix("/", pattern) && (IsPrefix("~/", g.dest) || IsPrefix("/", g.dest)))
    ensures Route(home, g).Ok? ==> var (user, out) := Route(home, g).value;
      && user == IsPrefix("~/", g.dest)
      && out.pattern == ExpandUser(home, g.pattern)
      && out.optional == g.optional
      && !IsPrefix("/", out.dest)
      && IsSuffix(out.dest, g.dest)
      && (user ==> forall i :: 1 <= i < |g.dest| - |out.dest| ==> g.dest[i] == '/')
      && (!user ==> forall i :: 0 <= i < |g.dest| - |out.dest| ==> g.dest[i] == '/')
  {
    var pattern := ExpandUser(home, g.pattern);
    if IsPrefix("/", pattern) && IsPrefix("~/", g.dest) {
      var d := LStripChar(g.dest[2..], '/');
      assert Route(home, g) == Ok((true, Glob(pattern, d, g.optional)));
      assert g.dest[1] == '/';
      assert IsSuffix(d, g.dest) by {
        assert g.dest[|g.dest| - |d|..] == g.dest[2..][|g.dest| - 2 - |d|..];
      }
      assert forall i :: 2 <= i < |g.dest| - |d| ==> g.dest[i] == g.dest[2..][i - 2];
    } else if IsPrefix("/", pattern) && IsPrefix("/", g.dest) {
      assert Route(home, g) == Ok((false, Glob(pattern, LStripChar(g.dest, '/'), g.optional)));
    }
  }

  /** One routing decision per entry: which list, and what goes in it. */
  type Router = Glob -> Result<(bool, Glob)>

  /** The accumulating loop of standardize_globs for any routing of the
      entries: entries go to the list their routing names, in input order,
      and the first failing routing aborts. */
  function Partition(entries: seq<Glob>, route: Router): Result<(seq<Glob>, seq<Glob>)> {
    if |entries| == 0 then Ok(([], []))
    else
      var prev := Partition(entries[..|entries| - 1], route);
      var r := route(entries[|entries| - 1]);
      if prev.Err? then prev
      else if r.Err? then Err(r.exc)
      else if r.value.0 then Ok((prev.value.0 + [r.value.1], prev.value.1))
      else Ok((prev.value.0, prev.value.1 + [r.value.1]))
  }

  /** The routed entries that land in one list, in input order. */
  function Routed(entries: seq<Glob>, route: Router, user: bool): seq<Glob> {
    if |entries| == 0 then []
    else Routed(entries[..|entries| - 1], route, user) + Pick(route(entries[|entries| - 1]), user)
  }

  function Pick(r: Result<(bool, Glob)>, user: bool): seq<Glob> {
    if r.Ok? && r.value.0 == user then [r.value.1] else []
  }

  /** The lists are built exactly when every entry can be routed, and then
      each holds its entries in input order. */
  lemma {:induction false} PartitionRoutes(entries: seq<Glob>, route: Router)
    ensures Partition(entries, route).Ok? <==> forall i :: 0 <= i < |entries| ==> route(entries[i]).Ok?
    ensures Partition(entries, route).Ok? ==>
      Partition(entries, route).value == (Routed(entries, route, true), Routed(entries, route, false))
  {
    if |entries| > 0 {
      var prefix := entries[..|entries| - 1];
      var last := entries[|entries| - 1];
      PartitionRoutes(prefix, route);
      var prev := Partition(prefix, route);
      var r := route(last);
      var all := Partition(entries, route);
      if prev.Ok? && r.Ok? {
        forall i | 0 <= i < |entries| ensures route(entries[i]).Ok? {
          if i < |prefix| {
            assert entries[i] == prefix[i];
          }
        }
        assert Routed(entries, route, true) == prev.value.0 + Pick(r, true);
        assert Routed(entries, route, false) == prev.value.1 + Pick(r, false);
        if r.value.0 {
          assert Pick(r, false) == [] && prev.value.1 + [] == prev.value.1;
          assert all.value == (prev.value.0 + [r.value.1], prev.value.1);
        } else {
          assert Pick(r, true) == [] && prev.value.0 + [] == prev.value.0;
          assert all.value == (prev.value.0, prev.value.1 + [r.value.1]);
        }
      } else if prev.Err? {
        var j :| 0 <= j < |prefix| && !route(prefix[j]).Ok?;
        assert entries[j] == prefix[j];
      } else {
        assert !route(entries[|entries| - 1]).Ok?;
      }
    }
  }

  /** The error reported is the one of the first entry that cannot be routed. */
  lemma {:induction false} PartitionFirstError(entries: seq<Glob>, route: Router)
    requires Partition(entries, route).Err?
    ensures exists i ::
              && 0 <= i < |entries|
              && (forall j :: 0 <= j < i ==> route(entries[j]).Ok?)
              && route(entries[i]) == Err(Partition(entries, route).exc)
  {
    var prefix := entries[..|entries| - 1];
    assert forall j :: 0 <= j < |prefix| ==> prefix[j] == entries[j];
    if Partition(prefix, route).Err? {
      PartitionFirstError(prefix, route);
      var i :| 0 <= i < |prefix|
        && (forall j :: 0 <= j < i ==> route(prefix[j]).Ok?)
        && route(prefix[i]) == Err(Partition(prefix, route).exc);
      assert route(entries[i]) == Err(Partition(entries, route).exc);
    } else {
      PartitionRoutes(prefix, route);
      var i := |entries| - 1;
      assert forall j :: 0 <= j < i ==> route(entries[j]).Ok?;
    }
  }

  /** Every routed entry lands in exactly one of the two lists. */
  lemma {:induction false} RoutedPartition(entries: seq<Glob>, route: Router)
    requires forall i :: 0 <= i < |entries| ==> route(entries[i]).Ok?
    ensures |Routed(entries, route, true)| + |Routed(entries, route, false)| == |entries|
  {
    if |entries| > 0 {
      var prefix := entries[..|entries| - 1];
      assert forall j :: 0 <= j < |prefix| ==> prefix[j] == entries[j];
      RoutedPartition(prefix, route);
    }
  }

  /** standardize_globs(include_files): the home-rooted and the /-rooted
      lists, or the error of the first entry that cannot be routed. */
  function StandardizeGlobs(home: string, entries: seq<Glob>): (r: Result<(seq<Glob>, seq<Glob>)>)
    ensures r.Ok? <==> forall i :: 0 <= i < |entries| ==> Route(home, entries[i]).Ok?
    ensures r.Ok? ==> r.value == (Routed(entries, g => Route(home, g), true), Routed(entries, g => Route(home, g), false))
    ensures r.Ok? ==> |r.value.0| + |r.value.1| == |entries|
    ensures r.Err? ==> exists i ::
              && 0 <= i < |entries|
              && (forall j :: 0 <= j < i ==> Route(home, entries[j]).Ok?)
              && Route(home, entries[i]) == Err(r.exc)
  {
    var route: Router := g => Route(home, g);
    var r := Partition(entries, route);
    PartitionRoutes(entries, route);
    if r.Ok? then
      RoutedPartition(entries, route);
      r
    else
      PartitionFirstError(entries, route);
      r
  }
}
