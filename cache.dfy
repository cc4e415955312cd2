/** yo/api.py: YoCache, the in-memory list store kept for each kind of
    cached cloud resource, and the identity test it uses to replace items. */
module Cache {
  import opened Base

  /** A clock reading. The clock is not modelled: callers pass the time. */
  type Time = int

  /** A cached item: its dataclass, its name, the cloud id for the classes
      that carry one (YoCachedWithId), and its other fields as text. */
  datatype Item = Item(cls: string, name: string, id: Option<string>, fields: map<string, string>)

  /** getattr(item, field, None) */
  function Attr(item: Item, field: string): Option<string> {
    if field == "name" then Some(item.name)
    else if field == "id" then item.id
    else if field in item.fields then Some(item.fields[field])
    else None
  }

  /** same_item, dispatched on the class of the receiver: items with an id
      are the same when the ids agree; other items when class and name agree. */
  predicate SameItem(self: Item, other: Item) {
    if self.id.Some? then other.id.Some? && self.id == other.id
    else other.id.None? && self.cls == other.cls && self.name == other.name
  }

  /** same_item is an equivalence, whichever item is the receiver. */
  lemma {:induction false} SameItemEquivalence(a: Item, b: Item, c: Item)
    ensures SameItem(a, a)
    ensures SameItem(a, b) ==> SameItem(b, a)
    ensures SameItem(a, b) && SameItem(b, c) ==> SameItem(a, c)
    ensures a.id.Some? && b.id.Some? ==> (SameItem(a, b) <==> a.id == b.id)
    ensures a.id.Some? != b.id.Some? ==> !SameItem(a, b)
  {
  }

  /** No two entries are the same item. */
  predicate NoSame(s: seq<Item>) {
    forall i, j :: 0 <= i < j < |s| ==> !SameItem(s[i], s[j])
  }

  /** The first position holding the same item as x. */
  function FirstSame(s: seq<Item>, x: Item): (r: Option<nat>)
    ensures r.Some? ==> r.value < |s| && SameItem(x, s[r.value])
    ensures r.Some? ==> forall j :: 0 <= j < r.value ==> !SameItem(x, s[j])
    ensures r.None? ==> forall j :: 0 <= j < |s| ==> !SameItem(x, s[j])
    decreases |s|
  {
    if |s| == 0 then None
    else if SameItem(x, s[0]) then Some(0)
    else
      var r := FirstSame(s[1..], x);
      if r.Some? then Some(r.value + 1) else None
  }

  /** The list after insert(x). */
  function Inserted(s: seq<Item>, x: Item): (r: seq<Item>)
    ensures FirstSame(s, x).Some? ==> |r| == |s| && r[FirstSame(s, x).value] == x
    ensures FirstSame(s, x).Some? ==> forall j :: 0 <= j < |s| && j != FirstSame(s, x).value ==> r[j] == s[j]
    ensures FirstSame(s, x).None? ==> |r| == |s| + 1 && r[..|s|] == s && r[|s|] == x
  {
    var i := FirstSame(s, x);
    if i.Some? then s[i.value := x] else s + [x]
  }

  /** Inserting keeps a list free of repeated items, and the new item is in it. */
  lemma {:induction false} InsertedNoSame(s: seq<Item>, x: Item)
    requires NoSame(s)
    ensures NoSame(Inserted(s, x))
    ensures x in Inserted(s, x)
  {
    var r := Inserted(s, x);
    var f := FirstSame(s, x);
    forall i, j | 0 <= i < j < |r| ensures !SameItem(r[i], r[j]) {
      if f.Some? && (i == f.value || j == f.value) {
        var k := if i == f.value then j else i;
        SameItemEquivalence(x, s[f.value], s[k]);
        SameItemEquivalence(s[k], x, s[f.value]);
        SameItemEquivalence(s[f.value], x, s[k]);
        SameItemEquivalence(s[k], s[f.value], x);
      } else if f.None? && j == |s| {
        SameItemEquivalence(x, s[i], x);
        assert r[i] == s[i];
      } else {
        assert r[i] == s[i] && r[j] == s[j];
      }
    }
    if f.Some? {
      assert r[f.value] == x;
    } else {
      assert r[|s|] == x;
    }
  }

  // ---------------------------------------------------------------
  // Lookups by field

  predicate Hit(item: Item, field: string, val: Option<string>) {
    Attr(item, field) == val
  }

  /** The test get_all_by and remove_by apply to each item. */
  function HitOf(field: string, val: Option<string>): Item -> bool {
    (x: Item) => Hit(x, field, val)
  }

  /** The items satisfying p, in list order (what get_all_by yields). */
  function Matching<T>(s: seq<T>, p: T -> bool): (r: seq<T>)
    ensures |r| <= |s|
    decreases |s|
  {
    if |s| == 0 then []
    else Matching(s[..|s| - 1], p) + (if p(s[|s| - 1]) then [s[|s| - 1]] else [])
  }

  /** The position of the first item satisfying p. */
  function FirstHit<T>(s: seq<T>, p: T -> bool): (r: Option<nat>)
    ensures r.Some? ==> r.value < |s| && p(s[r.value])
    ensures r.Some? ==> forall j :: 0 <= j < r.value ==> !p(s[j])
    ensures r.None? ==> forall j :: 0 <= j < |s| ==> !p(s[j])
    decreases |s|
  {
    if |s| == 0 then None
    else if p(s[0]) then Some(0)
    else
      var r := FirstHit(s[1..], p);
      if r.Some? then Some(r.value + 1) else None
  }

  /** The first item get_all_by yields is the one at the first hit. */
  lemma {:induction false} MatchingFirst<T>(s: seq<T>, p: T -> bool)
    ensures |Matching(s, p)| == 0 <==> FirstHit(s, p).None?
    ensures |Matching(s, p)| > 0 ==> Matching(s, p)[0] == s[FirstHit(s, p).value]
    decreases |s|
  {
    if |s| > 0 {
      var init := s[..|s| - 1];
      MatchingFirst(init, p);
      var f := FirstHit(init, p);
      if f.Some? {
        assert init[f.value] == s[f.value];
        forall j | 0 <= j < f.value ensures !p(s[j]) {
          assert init[j] == s[j];
        }
        assert FirstHit(s, p) == f;
      } else {
        forall j | 0 <= j < |s| - 1 ensures !p(s[j]) {
          assert init[j] == s[j];
        }
      }
    }
  }

  /** Membership in the matches. */
  lemma {:induction false} MatchingMembers<T>(s: seq<T>, p: T -> bool, x: T)
    ensures x in Matching(s, p) <==> x in s && p(x)
    decreases |s|
  {
    if |s| > 0 {
      var init := s[..|s| - 1];
      MatchingMembers(init, p, x);
      assert s == init + [s[|s| - 1]];
    }
  }

  /** The items failing p, in list order (what remove_by keeps). */
  function Kept<T>(s: seq<T>, p: T -> bool): seq<T>
    decreases |s|
  {
    if |s| == 0 then []
    else Kept(s[..|s| - 1], p) + (if p(s[|s| - 1]) then [] else [s[|s| - 1]])
  }

  /** Membership in what is kept. */
  lemma {:induction false} KeptMembers<T>(s: seq<T>, p: T -> bool, x: T)
    ensures x in Kept(s, p) <==> x in s && !p(x)
    decreases |s|
  {
    if |s| > 0 {
      var init := s[..|s| - 1];
      KeptMembers(init, p, x);
      assert s == init + [s[|s| - 1]];
    }
  }

  lemma {:induction false} KeptAppend<T>(a: seq<T>, b: seq<T>, p: T -> bool)
    ensures Kept(a + b, p) == Kept(a, p) + Kept(b, p)
    decreases |b|
  {
    if |b| == 0 {
      assert a + b == a;
    } else {
      var b' := b[..|b| - 1];
      assert (a + b)[..|a + b| - 1] == a + b';
      KeptAppend(a, b', p);
    }
  }

  lemma {:induction false} KeptNoHit<T>(s: seq<T>, p: T -> bool)
    requires forall j :: 0 <= j < |s| ==> !p(s[j])
    ensures Kept(s, p) == s
    decreases |s|
  {
    if |s| > 0 {
      var init := s[..|s| - 1];
      KeptNoHit(init, p);
      assert s == init + [s[|s| - 1]];
    }
  }

  /** The positions of the items satisfying p, increasing. */
  function HitIndices<T>(s: seq<T>, p: T -> bool): (r: seq<nat>)
    ensures forall k :: 0 <= k < |r| ==> r[k] < |s| && p(s[r[k]])
    ensures forall k, l :: 0 <= k < l < |r| ==> r[k] < r[l]
    decreases |s|
  {
    if |s| == 0 then []
    else
      var init := s[..|s| - 1];
      var q := HitIndices(init, p);
      assert forall k :: 0 <= k < |q| ==> s[q[k]] == init[q[k]];
      assert forall j :: 0 <= j < |init| ==> s[j] == init[j];
      q + (if p(s[|s| - 1]) then [|s| - 1] else [])
  }

  /** Every match has its position listed. */
  lemma {:induction false} HitIndicesComplete<T>(s: seq<T>, p: T -> bool, j: nat)
    requires j < |s| && p(s[j])
    ensures j in HitIndices(s, p)
    decreases |s|
  {
    var init := s[..|s| - 1];
    if j < |s| - 1 {
      assert init[j] == s[j];
      HitIndicesComplete(init, p, j);
    }
  }

  /** There are as many positions as matches. */
  lemma {:induction false} HitIndicesCount<T>(s: seq<T>, p: T -> bool)
    ensures |HitIndices(s, p)| == |Matching(s, p)|
    decreases |s|
  {
    if |s| > 0 {
      HitIndicesCount(s[..|s| - 1], p);
    }
  }

  /** str(val) */
  function ValStr(val: Option<string>): string {
    if val.Some? then val.value else "None"
  }

  // ---------------------------------------------------------------
  // The stored form

  /** A value of the JSON dictionary the disk cache holds; a timestamp is
      already decoded from its ISO text. */
  datatype Json = JNull | JInt(i: int) | JStamp(t: Time) | JItems(items: seq<Item>)

  function Get(d: map<string, Json>, key: string, default: Json): Json {
    if key in d then d[key] else default
  }

  /** dtornull: a timestamp, or None for a missing or falsy value. Any
      other value raises inside fromisoformat. */
  function StampOrNull(d: map<string, Json>, key: string): (r: Result<Option<Time>>)
    ensures key in d && d[key].JStamp? ==> r == Ok(Some(d[key].t))
    ensures key !in d || d[key] == JNull ==> r == Ok(None)
  {
    match Get(d, key, JNull)
    case JNull => Ok(None)
    case JStamp(t) => Ok(Some(t))
    case JInt(i) => if i == 0 then Ok(None) else Err(TypeError)
    case JItems(items) => if |items| == 0 then Ok(None) else Err(TypeError)
  }

  /** The cache's state: its list and both timestamps. */
  datatype State = State(data: seq<Item>, lastUpdate: Option<Time>, lastRefresh: Option<Time>)

  /** export: the dictionary written to disk. */
  function Export(s: State, version: int): (d: map<string, Json>)
    ensures d.Keys == {"cache", "last_update", "last_refresh", "version"}
  {
    map["cache" := JItems(s.data),
        "last_update" := if s.lastUpdate.Some? then JStamp(s.lastUpdate.value) else JNull,
        "last_refresh" := if s.lastRefresh.Some? then JStamp(s.lastRefresh.value) else JNull,
        "version" := JInt(version)]
  }

  /** load, step by step: the version gate, then each timestamp, then the
      list; an exception leaves the steps before it in place. */
  function LoadState(d: map<string, Json>, version: int, s: State): (r: (State, Outcome))
    ensures d == map[] || Get(d, "version", JInt(0)) != JInt(version) ==> r == (s, Pass)
    ensures r.1.Pass? && r.0 != s ==> Get(d, "version", JInt(0)) == JInt(version)
  {
    if d == map[] || Get(d, "version", JInt(0)) != JInt(version) then (s, Pass)
    else
      match StampOrNull(d, "last_update")
      case Err(e) => (s, Fail(e))
      case Ok(u) =>
        var s1 := s.(lastUpdate := u);
        match StampOrNull(d, "last_refresh")
        case Err(e) => (s1, Fail(e))
        case Ok(f) =>
          var s2 := s1.(lastRefresh := f);
          match Get(d, "cache", JItems([]))
          case JItems(items) => (s2.(data := items), Pass)
          case _ => (s2, Fail(TypeError))
  }

  /** Loading what export wrote restores the exported state. */
  lemma {:induction false} LoadExport(s: State, version: int, s0: State)
    ensures LoadState(Export(s, version), version, s0) == (s, Pass)
  {
    var d := Export(s, version);
    assert "version" in d && d["version"] == JInt(version);
    assert Get(d, "cache", JItems([])) == JItems(s.data);
  }

  // ---------------------------------------------------------------
  // The store

  class YoCache {
    var data: seq<Item>
    var lastUpdate: Option<Time>
    var lastRefresh: Option<Time>
    const name: string
    const version: int
    const staleHours: int

    /** An empty cache with no timestamps. */
    constructor(name: string, version: int, staleHours: int)
      ensures data == [] && lastUpdate == None && lastRefresh == None
      ensures this.name == name && this.version == version && this.staleHours == staleHours
    {
      this.name := name;
      this.version := version;
      this.staleHours := staleHours;
      data := [];
      lastUpdate := None;
      lastRefresh := None;
    }

    function Snapshot(): State
      reads this
    {
      State(data, lastUpdate, lastRefresh)
    }

    method Clear()
      modifies this
      ensures data == [] && lastUpdate == None && lastRefresh == None
    {
      lastUpdate := None;
      lastRefresh := None;
      data := [];
    }

    method Load(d: map<string, Json>) returns (out: Outcome)
      modifies this
      ensures (Snapshot(), out) == LoadState(d, version, old(Snapshot()))
    {
      var v := Get(d, "version", JInt(0));
      if d == map[] || v != JInt(version) {
        return Pass;
      }
      var u := StampOrNull(d, "last_update");
      if u.Err? {
        return Fail(u.exc);
      }
      lastUpdate := u.value;
      var f := StampOrNull(d, "last_refresh");
      if f.Err? {
        return Fail(f.exc);
      }
      lastRefresh := f.value;
      var c := Get(d, "cache", JItems([]));
      if !c.JItems? {
        return Fail(TypeError);
      }
      data := c.items;
      return Pass;
    }

    /** set: both timestamps are read from the clock, one call each. */
    method Set(items: seq<Item>, updateTime: Time, refreshTime: Time)
      modifies this
      ensures data == items && lastUpdate == Some(updateTime) && lastRefresh == Some(refreshTime)
    {
      lastUpdate := Some(updateTime);
      lastRefresh := Some(refreshTime);
      data := items;
    }

    /** mark_update: the update time, and with `refresh` the refresh time,
        read from the clock. */
    method MarkUpdate(refresh: bool, updateTime: Time, refreshTime: Time)
      modifies this
      ensures data == old(data) && lastUpdate == Some(updateTime)
      ensures lastRefresh == if refresh then Some(refreshTime) else old(lastRefresh)
    {
      lastUpdate := Some(updateTime);
      if refresh {
        lastRefresh := Some(refreshTime);
      }
    }

    /** dirty: both timestamps forgotten, the items kept. */
    method Dirty()
      modifies this
      ensures data == old(data) && lastUpdate == None && lastRefresh == None
    {
      lastUpdate := None;
      lastRefresh := None;
    }

    /** insert: the first item that is the same item as the new one is
        replaced in place; with none, the new item is appended. */
    method Insert(newItem: Item, updateTime: Time)
      modifies this
      ensures data == Inserted(old(data), newItem)
      ensures lastUpdate == Some(updateTime) && lastRefresh == old(lastRefresh)
    {
      MarkUpdate(false, updateTime, updateTime);
      for idx := 0 to |data|
        invariant data == old(data) && lastUpdate == Some(updateTime) && lastRefresh == old(lastRefresh)
        invariant forall j :: 0 <= j < idx ==> !SameItem(newItem, data[j])
      {
        if SameItem(newItem, data[idx]) {
          data := data[idx := newItem];
          return;
        }
      }
      data := data + [newItem];
    }

    method GetAllBy(field: string, val: Option<string>) returns (r: seq<Item>)
      ensures r == Matching(data, HitOf(field, val))
    {
      r := [];
      for i := 0 to |data|
        invariant r == Matching(data[..i], HitOf(field, val))
      {
        assert data[..i + 1][..i] == data[..i];
        if Hit(data[i], field, val) {
          r := r + [data[i]];
        }
      }
      assert data[..|data|] == data;
    }

    /** get_by: None without a match; with several and `unique`, an error;
        otherwise the first match in list order. */
    method GetBy(field: string, val: Option<string>, unique: bool) returns (r: Result<Option<Item>>)
      ensures r == Ok(None) <==> FirstHit(data, HitOf(field, val)).None?
      ensures r.Err? <==> unique && |Matching(data, HitOf(field, val))| > 1
      ensures r.Err? ==> r.exc == YoExc("Cache error: multiple items, same value of " + field)
      ensures r.Ok? && r.value.Some? ==> r.value.value == data[FirstHit(data, HitOf(field, val)).value]
    {
      var items := GetAllBy(field, val);
      MatchingFirst(data, HitOf(field, val));
      if |items| == 0 {
        return Ok(None);
      } else if |items| > 1 && unique {
        return Err(YoExc("Cache error: multiple items, same value of " + field));
      } else {
        return Ok(Some(items[0]));
      }
    }

    method GetAll() returns (r: seq<Item>)
      ensures r == data
    {
      r := data[..];
    }

    /** The first loop of remove_by: the positions of the matches. */
    method HitPositions(field: string, val: Option<string>) returns (indices: seq<nat>)
      ensures indices == HitIndices(data, HitOf(field, val))
    {
      indices := [];
      for i := 0 to |data|
        invariant indices == HitIndices(data[..i], HitOf(field, val))
      {
        assert data[..i + 1][..i] == data[..i];
        if Hit(data[i], field, val) {
          indices := indices + [i];
        }
      }
      assert data[..|data|] == data;
    }

    /** remove_by: drops exactly the matches and keeps the rest in order;
        with several matches and `unique`, raises and changes nothing. */
    method RemoveBy(field: string, val: Option<string>, unique: bool) returns (out: Outcome)
      modifies this
      ensures unique && |Matching(old(data), HitOf(field, val))| > 1 ==>
        out == Fail(YoExc("Cache error: multiple items, same " + field + " " + ValStr(val))) && data == old(data)
      ensures !(unique && |Matching(old(data), HitOf(field, val))| > 1) ==>
        out == Pass && data == Kept(old(data), HitOf(field, val))
      ensures lastUpdate == old(lastUpdate) && lastRefresh == old(lastRefresh)
    {
      var indices := HitPositions(field, val);
      HitIndicesCount(data, HitOf(field, val));
      if |indices| > 1 && unique {
        return Fail(YoExc("Cache error: multiple items, same " + field + " " + ValStr(val)));
      }
      DeleteAt(indices, HitOf(field, val));
      out := Pass;
    }

    /** The second loop of remove_by: delete at the given positions, the
        highest first, so that the lower ones stay in place. */
    method DeleteAt(indices: seq<nat>, ghost p: Item -> bool)
      requires indices == HitIndices(data, p)
      modifies this
      ensures data == Kept(old(data), p)
      ensures lastUpdate == old(lastUpdate) && lastRefresh == old(lastRefresh)
    {
      ghost var orig := data;
      var k := |indices|;
      ghost var b := |orig|;
      while k > 0
        invariant 0 <= k <= |indices| && b == Bound(indices, k, |orig|)
        invariant lastUpdate == old(lastUpdate) && lastRefresh == old(lastRefresh)
        invariant data == Partial(orig, p, b)
      {
        var i := indices[k - 1];
        NoHitBetween(orig, p, indices, k - 1);
        DeleteStep(orig, p, i, b, data);
        data := data[..i] + data[i + 1..];
        k := k - 1;
        b := i;
      }
      NoHitBefore(orig, p, indices);
    }
  }

  /** The list once the matches from position b on are deleted. */
  function Partial<T>(orig: seq<T>, p: T -> bool, b: nat): seq<T>
    requires b <= |orig|
  {
    orig[..b] + Kept(orig[b..], p)
  }

  /** Where the list still holds its original entries, given that the
      matches from position k of indices on are already deleted. */
  function Bound(indices: seq<nat>, k: nat, n: nat): nat
    requires k <= |indices|
  {
    if k == |indices| then n else indices[k]
  }

  /** Between two neighbouring matches, nothing matches. */
  lemma {:induction false} NoHitBetween<T>(orig: seq<T>, p: T -> bool, indices: seq<nat>, k: nat)
    requires indices == HitIndices(orig, p) && k < |indices|
    ensures indices[k] < Bound(indices, k + 1, |orig|) <= |orig|
    ensures forall j :: indices[k] < j < Bound(indices, k + 1, |orig|) ==> !p(orig[j])
  {
    forall j | indices[k] < j < Bound(indices, k + 1, |orig|) ensures !p(orig[j]) {
      if p(orig[j]) {
        HitIndicesComplete(orig, p, j);
      }
    }
  }

  /** Deleting a match at i, below the processed tail from b, extends that
      tail down to i, when nothing between them matches. */
  lemma {:induction false} DeleteStep<T>(orig: seq<T>, p: T -> bool, i: nat, b: nat, cur: seq<T>)
    requires i < b <= |orig| && p(orig[i])
    requires forall j :: i < j < b ==> !p(orig[j])
    requires cur == Partial(orig, p, b)
    ensures i < |cur| && cur[..i] + cur[i + 1..] == Partial(orig, p, i)
  {
    var mid := orig[i + 1..b];
    forall j | 0 <= j < |mid| ensures !p(mid[j]) {
      assert mid[j] == orig[i + 1 + j];
    }
    KeptNoHit(mid, p);
    assert Kept([orig[i]], p) == [] by {
      assert [orig[i]][..0] == [];
    }
    calc {
      Kept(orig[i..], p);
      { assert orig[i..] == [orig[i]] + (mid + orig[b..]); }
      Kept([orig[i]] + (mid + orig[b..]), p);
      { KeptAppend([orig[i]], mid + orig[b..], p); }
      Kept(mid + orig[b..], p);
      { KeptAppend(mid, orig[b..], p); }
      mid + Kept(orig[b..], p);
    }
    assert cur[..i] == orig[..i];
    assert cur[i + 1..] == mid + Kept(orig[b..], p);
  }

  /** Before the first match nothing is removed. */
  lemma {:induction false} NoHitBefore<T>(orig: seq<T>, p: T -> bool, indices: seq<nat>)
    requires indices == HitIndices(orig, p)
    ensures Partial(orig, p, Bound(indices, 0, |orig|)) == Kept(orig, p)
  {
    var b := Bound(indices, 0, |orig|);
    var pre := orig[..b];
    forall j | 0 <= j < |pre| ensures !p(pre[j]) {
      assert pre[j] == orig[j];
      if p(orig[j]) {
        HitIndicesComplete(orig, p, j);
      }
    }
    KeptNoHit(pre, p);
    assert orig == pre + orig[b..];
    KeptAppend(pre, orig[b..], p);
  }
}
