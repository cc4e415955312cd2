/** yo/api.py apart from the cache: instance-profile checks, the saved
    instance metadata kept in a boot volume's tags, instance-name and user
    selection at launch, instance filters and shape de-duplication. */
module Api {
  import opened Base
  import opened Text
  import opened Util
  import opened Cache

  /** Python truthiness of an optional string. */
  predicate Truthy(s: Option<string>) {
    s.Some? && s.value != ""
  }

  // ---------------------------------------------------------------
  // Instance profiles

  /** A configuration value that is either text or already a list. */
  datatype StrOrList = Str(s: string) | List(items: seq<string>)

  /** flex_list: text is split at every run of commas and whitespace. */
  function FlexList(arg: StrOrList): (r: seq<string>)
    ensures arg.List? ==> r == arg.items
    ensures arg.Str? ==> |r| >= 1 && Concat(r) == Without(arg.s, IsCommaOrSpace)
    ensures arg.Str? ==> forall k, i :: 0 <= k < |r| && 0 <= i < |r[k]| ==> !IsCommaOrSpace(r[k][i])
    ensures arg.Str? ==> forall k :: 0 < k < |r| - 1 ==> r[k] != []
  {
    match arg
    case List(items) => items
    case Str(s) =>
      SplitRunsKeeps(s, IsCommaOrSpace);
      SplitRuns(s, IsCommaOrSpace)
  }

  /** The fields of InstanceProfile that the modelled code reads. */
  datatype InstanceProfile = InstanceProfile(
    name: string, os: Option<string>, image: Option<string>, username: Option<string>)

  /** InstanceProfile.validate: exactly one of image and os. */
  function Validate(p: InstanceProfile, name: string): (out: Outcome)
    ensures out.Pass? <==> Truthy(p.image) != Truthy(p.os)
    ensures !Truthy(p.image) && !Truthy(p.os) ==>
      out == Fail(YoExc("Instance profile " + name + " must specify one of: image, os"))
    ensures Truthy(p.image) && Truthy(p.os) ==>
      out == Fail(YoExc("Instance profile " + name + " specifies both: image, os"))
  {
    if !(Truthy(p.image) || Truthy(p.os)) then
      Fail(YoExc("Instance profile " + name + " must specify one of: image, os"))
    else if Truthy(p.image) && Truthy(p.os) then
      Fail(YoExc("Instance profile " + name + " specifies both: image, os"))
    else Pass
  }

  // ---------------------------------------------------------------
  // Saved instance metadata

  datatype SavedInstanceMetadata = SavedInstanceMetadata(
    shape: string, ocpu: int, memoryGb: int, username: string, name: string)

  /** The fields of an instance that save_instance, the filters and the
      terminate command read; ocpu and memory are already truncated to
      integers. */
  datatype Instance = Instance(
    name: string, state: string, shape: string, ocpu: int, memoryGb: int, username: Option<string>,
    terminationProtected: bool)

  /** The savedata tag written by save_instance. */
  function SaveData(inst: Instance): string {
    Join(SavedFields(inst), ",")
  }

  function UnpackError(got: nat): Exc {
    ValueError("not enough values to unpack (expected 6, got " + NatToString(got) + ")")
  }

  /** SavedInstanceMetadata.from_str */
  function FromStr(s: string): (r: Result<SavedInstanceMetadata>)
    ensures !IsPrefix("1,", s) ==> r == Err(YoExc("cannot understand saved instance metadat"))
    ensures r.Ok? ==> IsPrefix("1,", s)
  {
    if !IsPrefix("1,", s) then Err(YoExc("cannot understand saved instance metadat"))
    else
      var parts := SplitN(s, ',', 5);
      if |parts| != 6 then Err(UnpackError(|parts|))
      else
        match (ParseInt(parts[2]), ParseInt(parts[3]))
        case (None, _) => Err(IntError(parts[2]))
        case (Some(_), None) => Err(IntError(parts[3]))
        case (Some(ocpu), Some(mem)) => Ok(SavedInstanceMetadata(parts[1], ocpu, mem, parts[4], parts[5]))
  }

  /** Decimal text holds no comma. */
  lemma {:induction false} IntToStringNoComma(n: int)
    ensures ',' !in IntToString(n)
  {
    var m: nat := if n < 0 then -n else n;
    var d := NatToString(m);
    assert ',' !in d by {
      forall i | 0 <= i < |d| ensures d[i] != ',' {
        assert IsAsciiDigit(d[i]);
      }
    }
    if n < 0 {
      assert IntToString(n) == "-" + d;
    }
  }

  /** from_str on text with the "1," tag that splits into six fields. */
  lemma {:induction false} FromStrFields(s: string, parts: seq<string>, ocpu: int, mem: int)
    requires IsPrefix("1,", s) && SplitN(s, ',', 5) == parts && |parts| == 6
    requires ParseInt(parts[2]) == Some(ocpu) && ParseInt(parts[3]) == Some(mem)
    ensures FromStr(s) == Ok(SavedInstanceMetadata(parts[1], ocpu, mem, parts[4], parts[5]))
  {
  }

  /** The six fields save_instance writes. */
  function SavedFields(inst: Instance): seq<string> {
    ["1", inst.shape, IntToString(inst.ocpu), IntToString(inst.memoryGb),
     if Truthy(inst.username) then inst.username.value else "", inst.name]
  }

  /** The savedata tag splits back into its six fields. */
  lemma {:induction false} SaveDataSplits(inst: Instance)
    requires ',' !in inst.shape
    requires inst.username.Some? ==> ',' !in inst.username.value
    ensures IsPrefix("1,", SaveData(inst))
    ensures SplitN(SaveData(inst), ',', 5) == SavedFields(inst)
  {
    var parts := SavedFields(inst);
    IntToStringNoComma(inst.ocpu);
    IntToStringNoComma(inst.memoryGb);
    assert forall k :: 0 <= k < |parts| - 1 ==> ',' !in parts[k];
    SplitNJoin(parts, ',');
    assert SaveData(inst) == "1" + [','] + Join(parts[1..], [',']);
  }

  /** The two numeric fields read back as the numbers written. */
  lemma {:induction false} SavedNumbersParse(inst: Instance)
    ensures ParseInt(SavedFields(inst)[2]) == Some(inst.ocpu)
    ensures ParseInt(SavedFields(inst)[3]) == Some(inst.memoryGb)
  {
    var f := SavedFields(inst);
    assert f[2] == IntToString(inst.ocpu) && f[3] == IntToString(inst.memoryGb);
    ParseIntToString(inst.ocpu);
    ParseIntToString(inst.memoryGb);
  }

  /** from_str reads back what save_instance wrote, when shape and user
      name hold no comma; the instance name may hold commas. */
  lemma {:induction false} SaveDataRoundTrip(inst: Instance)
    requires ',' !in inst.shape
    requires inst.username.Some? ==> ',' !in inst.username.value
    ensures FromStr(SaveData(inst)) == Ok(SavedInstanceMetadata(
      inst.shape, inst.ocpu, inst.memoryGb,
      if Truthy(inst.username) then inst.username.value else "", inst.name))
  {
    SaveDataSplits(inst);
    SavedNumbersParse(inst);
    FromStrFields(SaveData(inst), SavedFields(inst), inst.ocpu, inst.memoryGb);
  }

  // ---------------------------------------------------------------
  // Launch: instance name

  /** A volume with its freeform tags. */
  datatype Volume = Volume(name: string, tags: map<string, string>)

  const SAVEDATA := "yo-savedata"

  /** YoVolume.saved_instance_metadata */
  function SavedMetadata(v: Volume): Result<Option<SavedInstanceMetadata>> {
    if SAVEDATA !in v.tags then Ok(None)
    else
      var m :- FromStr(v.tags[SAVEDATA]);
      Ok(Some(m))
  }

  /** The names of live instances and of instances saved on volumes, or the
      error from the first unreadable saved tag. */
  function TakenNames(instances: seq<Instance>, volumes: seq<Volume>): (r: Result<set<string>>)
    decreases |volumes|
  {
    if |volumes| == 0 then Ok(set i | i in instances && i.state != "TERMINATED" :: i.name)
    else
      var names :- TakenNames(instances, volumes[..|volumes| - 1]);
      var m :- SavedMetadata(volumes[|volumes| - 1]);
      Ok(if m.Some? then names + {m.value.name} else names)
  }

  /** Every live instance's name and every readable saved name is taken. */
  lemma {:induction false} TakenNamesCover(instances: seq<Instance>, volumes: seq<Volume>)
    requires TakenNames(instances, volumes).Ok?
    ensures forall i :: i in instances && i.state != "TERMINATED" ==> i.name in TakenNames(instances, volumes).value
    ensures forall v :: v in volumes ==> SavedMetadata(v).Ok?
    ensures forall v :: v in volumes && SavedMetadata(v).value.Some? ==>
      SavedMetadata(v).value.value.name in TakenNames(instances, volumes).value
    decreases |volumes|
  {
    if |volumes| > 0 {
      var init := volumes[..|volumes| - 1];
      TakenNamesCover(instances, init);
      assert forall v :: v in volumes ==> v in init || v == volumes[|volumes| - 1];
    }
  }

  /** The loop collecting the taken names. */
  method CollectNames(instances: seq<Instance>, volumes: seq<Volume>) returns (r: Result<set<string>>)
    ensures r == TakenNames(instances, volumes)
  {
    var names := set i | i in instances && i.state != "TERMINATED" :: i.name;
    for k := 0 to |volumes|
      invariant TakenNames(instances, volumes[..k]) == Ok(names)
    {
      assert volumes[..k + 1][..k] == volumes[..k];
      var m := SavedMetadata(volumes[k]);
      if m.Err? {
        assert TakenNames(instances, volumes[..k + 1]).Err?;
        PrefixError(instances, volumes, k + 1);
        return Err(m.exc);
      }
      if m.value.Some? {
        names := names + {m.value.value.name};
      }
    }
    assert volumes[..|volumes|] == volumes;
    r := Ok(names);
  }

  /** An unreadable tag in a prefix fails the whole collection the same way. */
  lemma {:induction false} PrefixError(instances: seq<Instance>, volumes: seq<Volume>, k: nat)
    requires k <= |volumes| && TakenNames(instances, volumes[..k]).Err?
    ensures TakenNames(instances, volumes) == TakenNames(instances, volumes[..k])
    decreases |volumes| - k
  {
    if k < |volumes| {
      assert volumes[..k + 1][..k] == volumes[..k];
      PrefixError(instances, volumes, k + 1);
    } else {
      assert volumes[..k] == volumes;
    }
  }

  /** The length of the run of ASCII digits that ends s. */
  function TrailingDigits(s: string): (n: nat)
    ensures n <= |s|
    decreases |s|
  {
    if |s| == 0 || !IsAsciiDigit(s[|s| - 1]) then 0
    else 1 + TrailingDigits(s[..|s| - 1])
  }

  /** The run is all digits and is the longest such run. */
  lemma {:induction false} TrailingDigitsRun(s: string)
    ensures forall i :: |s| - TrailingDigits(s) <= i < |s| ==> IsAsciiDigit(s[i])
    ensures TrailingDigits(s) < |s| ==> !IsAsciiDigit(s[|s| - TrailingDigits(s) - 1])
    decreases |s|
  {
    if |s| > 0 && IsAsciiDigit(s[|s| - 1]) {
      var t := s[..|s| - 1];
      TrailingDigitsRun(t);
      assert forall i :: 0 <= i < |t| ==> t[i] == s[i];
    }
  }

  /** re.search(r"-(\d+)$", name): the stem before the dash and the number,
      or the name itself and 0 without a match. `$` also matches before a
      final newline. */
  function SplitVersion(name: string): (r: (string, nat))
  {
    var body := if |name| > 0 && name[|name| - 1] == '\n' then name[..|name| - 1] else name;
    var n := TrailingDigits(body);
    var k := |body| - n;
    if n > 0 && k > 0 && body[k - 1] == '-' then (name[..k - 1], DigitsValue(body[k..]))
    else (name, 0)
  }

  /** A numbered candidate splits back into its stem and number, so a name
      chosen here continues its own numbering next time. */
  lemma {:induction false} SplitVersionCandidate(stem: string, i: nat)
    ensures SplitVersion(Candidate(stem, i)) == (stem, i)
  {
    var d := NatToString(i);
    var name := Candidate(stem, i);
    assert name[|name| - 1] == d[|d| - 1];
    assert name[|name| - 1] != '\n' by { assert IsAsciiDigit(d[|d| - 1]); }
    TrailingDigitsSuffix(stem + "-", d);
    assert name[..|stem|] == stem;
    assert name[|stem| + 1..] == d;
    NatToStringValue(i);
  }

  lemma {:induction false} TrailingDigitsSuffix(p: string, d: string)
    requires |p| > 0 && !IsAsciiDigit(p[|p| - 1])
    requires forall i :: 0 <= i < |d| ==> IsAsciiDigit(d[i])
    ensures TrailingDigits(p + d) == |d|
    decreases |d|
  {
    if |d| > 0 {
      assert (p + d)[..|p + d| - 1] == p + d[..|d| - 1];
      TrailingDigitsSuffix(p, d[..|d| - 1]);
    } else {
      assert p + d == p;
    }
  }

  function Candidate(stem: string, i: nat): string {
    stem + "-" + NatToString(i)
  }

  /** The first i in [lo, hi) whose candidate is not taken. */
  function FirstFree(stem: string, taken: set<string>, lo: nat, hi: nat): (r: Option<nat>)
    ensures r.Some? ==> lo <= r.value < hi && Candidate(stem, r.value) !in taken
    ensures r.Some? ==> forall j :: lo <= j < r.value ==> Candidate(stem, j) in taken
    ensures r.None? ==> forall j :: lo <= j < hi ==> Candidate(stem, j) in taken
    decreases hi - lo
  {
    if lo >= hi then None
    else if Candidate(stem, lo) !in taken then Some(lo)
    else FirstFree(stem, taken, lo + 1, hi)
  }

  const NoUniqueHead := "We could not come up with a unique instance name, after trying "
  const NoUniqueTail := " times. Consider changing your supplied name or using the --exact-name option to allow non-unique names."

  function NoUniqueNameError(maxTries: int): Exc {
    YoExc(NoUniqueHead + IntToString(maxTries) + NoUniqueTail)
  }

  /** The name chosen when exact names are off: the standardized name n when
      it is free, else the first free `stem-i` above n's own number, trying
      maxTries numbers. */
  function PickName(n: string, taken: set<string>, maxTries: int): (r: Result<string>)
    ensures r.Ok? ==> r.value !in taken
    ensures n !in taken <==> r == Ok(n)
    ensures r.Err? ==> r == Err(NoUniqueNameError(maxTries))
  {
    if n !in taken then Ok(n) else PickNumbered(SplitVersion(n), taken, maxTries)
  }

  /** One past the last number tried from version ver. */
  function Hi(ver: nat, maxTries: int): nat {
    if maxTries > 0 then ver + 1 + maxTries else ver + 1
  }

  /** The numbered search from a split name `(stem, ver)`. */
  function PickNumbered(sv: (string, nat), taken: set<string>, maxTries: int): (r: Result<string>)
    ensures r.Ok? ==> r.value !in taken
  {
    var free := FirstFree(sv.0, taken, sv.1 + 1, Hi(sv.1, maxTries));
    if free.Some? then Ok(Candidate(sv.0, free.value))
    else Err(NoUniqueNameError(maxTries))
  }

  /** A taken name is replaced by its own stem with a higher number, within
      maxTries of the old one. */
  lemma {:induction false} PickNameNumbered(n: string, taken: set<string>, maxTries: int)
    requires n in taken && PickName(n, taken, maxTries).Ok?
    ensures SplitVersion(PickName(n, taken, maxTries).value).0 == SplitVersion(n).0
    ensures SplitVersion(n).1 < SplitVersion(PickName(n, taken, maxTries).value).1 <= SplitVersion(n).1 + maxTries
  {
    var sv := SplitVersion(n);
    var free := FirstFree(sv.0, taken, sv.1 + 1, Hi(sv.1, maxTries));
    SplitVersionCandidate(sv.0, free.value);
  }

  /** The search fails only when every candidate in range is taken. */
  lemma {:induction false} PickNameExhausted(n: string, taken: set<string>, maxTries: int)
    requires PickName(n, taken, maxTries).Err?
    ensures n in taken
    ensures forall i: nat :: SplitVersion(n).1 < i <= SplitVersion(n).1 + maxTries ==>
      Candidate(SplitVersion(n).0, i) in taken
  {
    var sv := SplitVersion(n);
    assert FirstFree(sv.0, taken, sv.1 + 1, Hi(sv.1, maxTries)).None?;
  }

  /** _launch_config_name. With --exact-name the given name is used as is;
      otherwise PickName on the standardized name. */
  method LaunchConfigName(profile: InstanceProfile, name: Option<string>, exactName: bool, config: Config,
                          taken: set<string>, maxTries: int) returns (r: Result<string>)
    ensures exactName && !Truthy(name) ==> r == Err(YoExc("You specified --exact-name but did not provide a name"))
    ensures exactName && Truthy(name) ==> r == Ok(name.value)
    ensures !exactName ==>
      r == PickName(StandardizeName(if Truthy(name) then name.value else profile.name, Some(false), config), taken, maxTries)
  {
    if exactName {
      if !Truthy(name) {
        return Err(YoExc("You specified --exact-name but did not provide a name"));
      }
      return Ok(name.value);
    }
    var n := StandardizeName(if Truthy(name) then name.value else profile.name, Some(false), config);
    r := ChooseFree(n, taken, maxTries);
  }

  /** The tail of _launch_config_name once the standardized name is known. */
  method ChooseFree(n: string, taken: set<string>, maxTries: int) returns (r: Result<string>)
    ensures r == PickName(n, taken, maxTries)
  {
    if n !in taken {
      return Ok(n);
    }
    r := SearchNumbered(SplitVersion(n), taken, maxTries);
  }

  method SearchNumbered(sv: (string, nat), taken: set<string>, maxTries: int) returns (r: Result<string>)
    ensures r == PickNumbered(sv, taken, maxTries)
  {
    var free := FindFree(sv.0, taken, sv.1 + 1, Hi(sv.1, maxTries));
    if free.Some? {
      r := Ok(Candidate(sv.0, free.value));
    } else {
      r := Err(NoUniqueNameError(maxTries));
    }
  }

  /** The search loop of _launch_config_name over the numbers in [lo, hi). */
  method FindFree(stem: string, taken: set<string>, lo: nat, hi: nat) returns (free: Option<nat>)
    ensures free == FirstFree(stem, taken, lo, hi)
  {
    var i := lo;
    while i < hi
      invariant lo <= i && (lo <= hi ==> i <= hi)
      invariant FirstFree(stem, taken, lo, hi) == FirstFree(stem, taken, i, hi)
    {
      var name := stem + "-" + NatToString(i);
      if name !in taken {
        return Some(i);
      }
      i := i + 1;
    }
    return None;
  }

  // ---------------------------------------------------------------
  // Launch: user

  /** The cloud-config document that creates the custom default user. */
  function CloudConfig(user: string): string {
    Join(["#cloud-config", "system_info:", "  default_user:", "    name: " + user], "\n")
  }

  /** The cloud-config names the user on its fourth line. */
  lemma {:induction false} CloudConfigLines(user: string)
    requires '\n' !in user
    ensures SplitOn(CloudConfig(user), '\n') == ["#cloud-config", "system_info:", "  default_user:", "    name: " + user]
  {
    var lines := ["#cloud-config", "system_info:", "  default_user:", "    name: " + user];
    assert "    name: " + user == "    name: " + user;
    forall k | 0 <= k < |lines| ensures '\n' !in lines[k] {
      if k == 3 {
        assert forall i :: 0 <= i < |lines[3]| ==> lines[3][i] == (if i < 10 then ' ' else user[i - 10]) || i >= 4;
      }
    }
    SplitOnJoin(lines, '\n');
  }

  /** _launch_config_user: the default user and no user data, unless a user
      is asked for (by the command or the profile), in which case that user
      (with $MY_USERNAME read from the configuration) and a base64-encoded
      cloud-config creating it. base64 is a parameter. */
  function LaunchConfigUser(defaultUsername: string, requested: Option<string>, profile: InstanceProfile,
                            config: Config, b64: string -> string): (r: (string, Option<string>))
    ensures var spec := if Truthy(requested) then requested else profile.username;
      && (r.1.None? <==> !Truthy(spec) || spec.value == "$DEFAULT")
      && (r.1.None? ==> r.0 == defaultUsername)
      && (r.1.Some? ==> r.1.value == b64(CloudConfig(r.0)))
      && (r.1.Some? && spec.value == "$MY_USERNAME" ==> r.0 == config.myUsername)
      && (r.1.Some? && spec.value != "$MY_USERNAME" ==> r.0 == spec.value)
  {
    var spec := if Truthy(requested) then requested else profile.username;
    if !Truthy(spec) || spec.value == "$DEFAULT" then (defaultUsername, None)
    else
      var user := if spec.value == "$MY_USERNAME" then config.myUsername else spec.value;
      (user, Some(b64(CloudConfig(user))))
  }

  // ---------------------------------------------------------------
  // Instance filters

  function NamedIn(names: set<string>): Instance -> bool {
    (i: Instance) => names == {} || i.name in names
  }

  function StateOk(allow: set<string>, deny: set<string>): Instance -> bool {
    (i: Instance) => i.state !in deny && (allow == {} || i.state in allow)
  }

  /** _instances_named: the cached instances named in `names`, in order;
      all of them when `names` is empty. */
  method InstancesNamed(instances: seq<Instance>, names: set<string>) returns (matches: seq<Instance>)
    ensures matches == Matching(instances, NamedIn(names))
    ensures forall i :: i in matches <==> i in instances && (names == {} || i.name in names)
  {
    matches := [];
    for k := 0 to |instances|
      invariant matches == Matching(instances[..k], NamedIn(names))
    {
      assert instances[..k + 1][..k] == instances[..k];
      if names == {} || instances[k].name in names {
        matches := matches + [instances[k]];
      }
    }
    assert instances[..|instances|] == instances;
    forall i ensures i in matches <==> i in instances && (names == {} || i.name in names) {
      MatchingMembers(instances, NamedIn(names), i);
    }
  }

  /** _filter_instances: in order, the instances whose state is not denied
      and is allowed (an empty allow list allows every state). */
  method FilterInstances(instances: seq<Instance>, allow: set<string>, deny: set<string>) returns (matches: seq<Instance>)
    ensures matches == Matching(instances, StateOk(allow, deny))
    ensures forall i :: i in matches <==> i in instances && i.state !in deny && (allow == {} || i.state in allow)
  {
    matches := [];
    for k := 0 to |instances|
      invariant matches == Matching(instances[..k], StateOk(allow, deny))
    {
      assert instances[..k + 1][..k] == instances[..k];
      var inst := instances[k];
      if inst.state in deny {
        continue;
      }
      if allow != {} && inst.state !in allow {
        continue;
      }
      matches := matches + [inst];
    }
    assert instances[..|instances|] == instances;
    forall i ensures i in matches <==> i in instances && i.state !in deny && (allow == {} || i.state in allow) {
      MatchingMembers(instances, StateOk(allow, deny), i);
    }
  }

  // ---------------------------------------------------------------
  // Shapes

  datatype Shape = Shape(shape: string, details: map<string, string>)

  function ShapeName(x: Shape): string { x.shape }

  /** The de-duplication in list_shapes: sorted by name, the first shape of
      each run of equal names kept. */
  method DedupShapes(shapesDupes: seq<Shape>) returns (shapes: seq<Shape>)
    ensures shapes == DedupBy(SortBy(shapesDupes, ShapeName), ShapeName)
    ensures forall i :: 0 < i < |shapes| ==> LexLess(shapes[i - 1].shape, shapes[i].shape)
    ensures forall k :: 0 <= k < |shapesDupes| ==> HasKey(shapes, ShapeName, shapesDupes[k].shape)
    ensures forall x :: x in shapes ==> x in shapesDupes
  {
    var sorted := SortBy(shapesDupes, ShapeName);
    shapes := [];
    var current: Option<string> := None;
    for i := 0 to |sorted|
      invariant shapes == DedupBy(sorted[..i], ShapeName)
      invariant current == if i == 0 then None else Some(sorted[i - 1].shape)
    {
      DedupByPrefix(sorted, i, ShapeName);
      var shape := sorted[i];
      if current != Some(shape.shape) {
        shapes := shapes + [shape];
        current := Some(shape.shape);
      }
    }
    assert sorted[..|sorted|] == sorted;
    SortDedup(shapesDupes, ShapeName);
  }
}
