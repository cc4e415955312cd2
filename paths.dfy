/** The pure part of POSIX paths: pathlib's parsing, printing and joining,
    and the `~` expansion of os.path.expanduser. */
module Paths {
  import opened Text

  /** A parsed pathlib path: whether it is rooted, and its components
      (never empty and never "."). */
  datatype Path = Path(absolute: bool, parts: seq<string>)

  predicate IsPart(part: string) { part != "" && part != "." }

  function CleanParts(pieces: seq<string>): (r: seq<string>)
    ensures forall k :: 0 <= k < |r| ==> IsPart(r[k]) && r[k] in pieces
    ensures forall k :: 0 <= k < |pieces| && IsPart(pieces[k]) ==> pieces[k] in r
  {
    if |pieces| == 0 then []
    else if IsPart(pieces[0]) then [pieces[0]] + CleanParts(pieces[1..])
    else CleanParts(pieces[1..])
  }

  /** Path(s): split on "/", dropping empty and "." components. */
  function PathOf(s: string): (p: Path)
    ensures p.absolute <==> IsPrefix("/", s)
    ensures forall k :: 0 <= k < |p.parts| ==> IsPart(p.parts[k]) && '/' !in p.parts[k]
  {
    Path(|s| > 0 && s[0] == '/', CleanParts(SplitOn(s, '/')))
  }

  /** str(p) */
  function PathStr(p: Path): string {
    if p.absolute then "/" + Join(p.parts, "/")
    else if |p.parts| == 0 then "."
    else Join(p.parts, "/")
  }

  /** p.name: the last component, or "" for a root or empty path. */
  function Name(p: Path): string {
    if |p.parts| == 0 then "" else p.parts[|p.parts| - 1]
  }

  /** p / q: a rooted right-hand side replaces the left-hand side. */
  function JoinPath(p: Path, q: Path): Path {
    if q.absolute then q else Path(p.absolute, p.parts + q.parts)
  }

  /** p / s for a string s. */
  function Child(p: Path, s: string): Path { JoinPath(p, PathOf(s)) }

  /** os.path.expanduser(s) with `home` as the value of $HOME. Only the
      current user's `~` and `~/...` forms are expanded. */
  function ExpandUser(home: string, s: string): (r: string)
    ensures !IsPrefix("~", s) ==> r == s
  {
    if |s| == 0 || s[0] != '~' then s
    else if |s| > 1 && s[1] != '/' then s
    else
      var expanded := RStripChar(home, '/') + s[1..];
      if expanded == "" then "/" else expanded
  }

  lemma {:induction false} ExpandUserHome(home: string, s: string)
    requires IsPrefix("~/", s) && IsPrefix("/", home)
    ensures IsPrefix("/", ExpandUser(home, s))
    ensures IsSuffix(s[1..], ExpandUser(home, s))
  {
    var h := RStripChar(home, '/');
    if h == [] {
      assert ExpandUser(home, s) == s[1..];
    } else {
      assert h[0] == home[0];
      assert (h + s[1..])[0] == '/';
    }
  }
}
