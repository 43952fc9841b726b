/**
 * The release builder (`tools/build.py`): the application name, the pinned requirement
 * list written into the project manifest, the dispatch of packaging targets, the
 * signature check, and the cleaning of the `--targets` command-line values.
 *
 * The TOML manifest is a tree of tables; the lock file is its list of packages. Signature
 * checks of files are the oracle `isValid`, and the operating system is a parameter.
 */
module Build {
  import opened Wrappers
  import opened Strings
  import opened Platform

  /** The version a `Builder` uses: the package version, or "unknown-version" when it is empty. */
  function BuilderVersion(packageVersion: string): (v: string)
    ensures v != ""
    ensures packageVersion != "" ==> v == packageVersion
    ensures packageVersion == "" ==> v == "unknown-version"
  {
    if packageVersion != "" then packageVersion else "unknown-version"
  }

  function Capitalized(parts: seq<string>): (r: seq<string>)
    ensures |r| == |parts| && forall i :: 0 <= i < |parts| ==> r[i] == Capitalize(parts[i])
  {
    seq(|parts|, i requires 0 <= i < |parts| => Capitalize(parts[i]))
  }

  /** `app_name_formatter`: capitalise each `_`-separated part and join the parts with `-`. */
  function AppNameFormatter(moduleName: string): string {
    Join(Capitalized(Split(moduleName, '_')), "-")
  }

  lemma CapitalizeKeepsChar(s: string, c: char)
    requires c !in s && !('a' <= c <= 'z') && !('A' <= c <= 'Z')
    ensures c !in Capitalize(s)
  {
  }

  /**
   * The formatted name splits on `-` back into the capitalised parts, one per `_`-part
   * of the module name: no part is lost, merged or split.
   */
  lemma AppNameParts(moduleName: string)
    requires '-' !in moduleName
    ensures Split(AppNameFormatter(moduleName), '-') == Capitalized(Split(moduleName, '_'))
    ensures |Split(AppNameFormatter(moduleName), '-')| == |Split(moduleName, '_')|
  {
    var parts := Split(moduleName, '_');
    var caps := Capitalized(parts);
    forall i | 0 <= i < |caps|
      ensures '-' !in caps[i]
    {
      PartOfSplitAvoids(moduleName, '_', '-', i);
      CapitalizeKeepsChar(parts[i], '-');
    }
    SplitJoin(caps, '-');
  }

  /** Every part of a split holds only characters of the split text. */
  lemma {:induction false} PartOfSplitAvoids(s: string, sep: char, c: char, i: nat)
    requires c !in s && i < |Split(s, sep)|
    ensures c !in Split(s, sep)[i]
    decreases |s|
  {
    var parts := Split(s, sep);
    match IndexOf(s, sep)
    case None =>
    case Some(j) =>
      assert parts == [s[..j]] + Split(s[j + 1..], sep);
      if i == 0 {
        assert forall x :: x in s[..j] ==> x in s;
      } else {
        assert forall x :: x in s[j + 1..] ==> x in s;
        PartOfSplitAvoids(s[j + 1..], sep, c, i - 1);
        assert parts[i] == Split(s[j + 1..], sep)[i - 1];
      }
  }

  /** The application's own module name. */
  lemma AppNameOfBitcoinSafe()
    ensures AppNameFormatter("bitcoin_safe") == "Bitcoin-Safe"
  {
    SplitBitcoinSafe();
    JoinBitcoinSafe();
  }

  lemma SplitBitcoinSafe()
    ensures Split("bitcoin_safe", '_') == ["bitcoin", "safe"]
  {
    var parts := ["bitcoin", "safe"];
    assert Join(parts, "_") == "bitcoin_safe";
    SplitJoin(parts, '_');
  }

  lemma JoinBitcoinSafe()
    ensures Join(Capitalized(["bitcoin", "safe"]), "-") == "Bitcoin-Safe"
  {
    var caps := Capitalized(["bitcoin", "safe"]);
    CapitalizeBitcoin();
    CapitalizeSafe();
    assert caps == ["Bitcoin", "Safe"];
  }

  lemma CapitalizeBitcoin()
    ensures Capitalize("bitcoin") == "Bitcoin"
  {
    assert LowerStr("itcoin") == "itcoin";
  }

  lemma CapitalizeSafe()
    ensures Capitalize("safe") == "Safe"
  {
    assert LowerStr("afe") == "afe";
  }

  /** The fields `Builder.__init__` derives from the module name and the package version. */
  datatype Builder = Builder(moduleName: string, version: string, appName: string)

  function NewBuilder(moduleName: string, packageVersion: string): (b: Builder)
    ensures b.version == BuilderVersion(packageVersion) && b.moduleName == moduleName
    ensures b.appName == AppNameFormatter(moduleName) + "_" + b.version
  {
    var version := BuilderVersion(packageVersion);
    // the "unknown-version" alternative for the application name is unreachable: the version is never empty
    Builder(moduleName, version, if version != "" then AppNameFormatter(moduleName) + "_" + version else "unknown-version")
  }

  /** A TOML value: a string, an array, a table, or the `None` that a missing URL yields. */
  datatype Toml = TStr(s: string) | TArray(items: seq<Toml>) | TTable(entries: map<string, Toml>) | TNone

  /** A package of the lock file; `source` is empty when it has no (or an empty) source table. */
  datatype LockPackage = LockPackage(name: string, version: string, source: map<string, string>)

  /** The requirement pinned for one lock package: its source URL, or `name==version`. */
  function Requirement(p: LockPackage): Toml {
    if |p.source| > 0 then (if "url" in p.source then TStr(p.source["url"]) else TNone)
    else TStr(p.name + "==" + p.version)
  }

  /** The value at `path` below `t`, walking through tables. */
  function Lookup(t: map<string, Toml>, path: seq<string>): Option<Toml>
    requires |path| >= 1
    decreases |path|
  {
    if path[0] !in t then None
    else if |path| == 1 then Some(t[path[0]])
    else if t[path[0]].TTable? then Lookup(t[path[0]].entries, path[1..])
    else None
  }

  /**
   * `t.setdefault(path[0], {}).setdefault(path[1], {})…[key] = v`: missing tables are
   * created; a non-table on the way makes `setdefault` raise.
   */
  function SetIn(t: map<string, Toml>, path: seq<string>, key: string, v: Toml): Result<map<string, Toml>>
    decreases |path|
  {
    if path == [] then Ok(t[key := v])
    else
      var child := if path[0] in t then t[path[0]] else TTable(map[]);
      if !child.TTable? then Err("AttributeError")
      else match SetIn(child.entries, path[1..], key, v)
        case Err(e) => Err(e)
        case Ok(c) => Ok(t[path[0] := TTable(c)])
  }

  /** After `SetIn` the value sits at the path, and every path that branches off elsewhere is unchanged. */
  lemma {:induction false} SetInSpec(t: map<string, Toml>, path: seq<string>, key: string, v: Toml)
    requires SetIn(t, path, key, v).Ok?
    ensures Lookup(SetIn(t, path, key, v).value, path + [key]) == Some(v)
    ensures forall q :: |q| >= 1 && Diverge(q, path + [key]) ==>
      Lookup(SetIn(t, path, key, v).value, q) == Lookup(t, q)
    decreases |path|
  {
    if path != [] {
      var child := if path[0] in t then t[path[0]] else TTable(map[]);
      SetInSpec(child.entries, path[1..], key, v);
      assert (path + [key])[1..] == path[1..] + [key];
    }
    forall q | |q| >= 1 && Diverge(q, path + [key])
      ensures Lookup(SetIn(t, path, key, v).value, q) == Lookup(t, q)
    {
      SetInFrame(t, path, key, v, q);
    }
  }

  /** One path that branches off the written one reads the same before and after `SetIn`. */
  lemma {:induction false} SetInFrame(t: map<string, Toml>, path: seq<string>, key: string, v: Toml, q: seq<string>)
    requires SetIn(t, path, key, v).Ok? && |q| >= 1 && Diverge(q, path + [key])
    ensures Lookup(SetIn(t, path, key, v).value, q) == Lookup(t, q)
    decreases |path|
  {
    if path != [] && q[0] == path[0] {
      var child := if path[0] in t then t[path[0]] else TTable(map[]);
      assert |q| > 1 && Diverge(q[1..], path[1..] + [key]) by {
        var i :| 0 <= i < |q| && i < |path + [key]| && q[i] != (path + [key])[i];
        assert i > 0;
        assert q[1..][i - 1] != (path[1..] + [key])[i - 1];
      }
      SetInFrame(child.entries, path[1..], key, v, q[1..]);
    }
  }

  /** A node that `setdefault` can walk into: absent (it is created) or a table. */
  predicate Open(o: Option<Toml>) {
    o.None? || o.value.TTable?
  }

  /** Every node on the table path `path`, from the outermost inward, is absent or a table. */
  ghost predicate Writable(t: map<string, Toml>, path: seq<string>) {
    forall k :: 1 <= k <= |path| ==> Open(Lookup(t, path[..k]))
  }

  /** `Writable` unfolded one table at a time. */
  lemma WritableCons(t: map<string, Toml>, path: seq<string>)
    requires |path| >= 1
    ensures Writable(t, path) <==>
      (path[0] !in t || (t[path[0]].TTable? && Writable(t[path[0]].entries, path[1..])))
  {
    forall k | 2 <= k <= |path|
      ensures path[..k][1..] == path[1..][..k - 1]
    {
    }
    if path[0] in t && t[path[0]].TTable? && Writable(t, path) {
      forall k | 1 <= k <= |path[1..]|
        ensures Open(Lookup(t[path[0]].entries, path[1..][..k]))
      {
        assert Open(Lookup(t, path[..k + 1]));
      }
    }
    if path[0] in t && t[path[0]].TTable? && Writable(t[path[0]].entries, path[1..]) {
      forall k | 1 <= k <= |path|
        ensures Open(Lookup(t, path[..k]))
      {
        if k >= 2 {
          assert Open(Lookup(t[path[0]].entries, path[1..][..k - 1]));
        }
      }
    }
    if path[0] !in t {
      forall k | 1 <= k <= |path|
        ensures Lookup(t, path[..k]).None?
      {
        assert path[..k][0] == path[0];
      }
    } else {
      assert Lookup(t, path[..1]) == Some(t[path[0]]);
    }
  }

  /** `SetIn` fails exactly when a node on the table path exists and is not a table. */
  lemma {:induction false} SetInOk(t: map<string, Toml>, path: seq<string>, key: string, v: Toml)
    ensures SetIn(t, path, key, v).Ok? <==> Writable(t, path)
    ensures SetIn(t, path, key, v).Ok? ==> Writable(SetIn(t, path, key, v).value, path)
    decreases |path|
  {
    if path != [] {
      var child := if path[0] in t then t[path[0]] else TTable(map[]);
      WritableCons(t, path);
      if child.TTable? {
        SetInOk(child.entries, path[1..], key, v);
        var c := SetIn(child.entries, path[1..], key, v);
        if c.Ok? {
          WritableCons(SetIn(t, path, key, v).value, path);
        }
        if path[0] !in t {
          WritableEmpty(path[1..]);
        }
      }
    }
  }

  /** In an empty table every path can be walked. */
  lemma WritableEmpty(path: seq<string>)
    ensures Writable(map[], path)
  {
    forall k | 1 <= k <= |path|
      ensures Lookup(map[], path[..k]).None?
    {
    }
  }

  /** The table path of the entry at `path`: everything but its last key. */
  function TablePath(path: seq<string>): (r: seq<string>)
    requires |path| >= 1
    ensures |r| == |path| - 1 && r + [path[|path| - 1]] == path
  {
    path[..|path| - 1]
  }

  /**
   * Writing at `p` changes nothing on the way to an entry `p2` that branches off it: that
   * way can be walked afterwards exactly when it could before.
   */
  lemma WritableAfterWrite(t: map<string, Toml>, t': map<string, Toml>, p: seq<string>, p2: seq<string>)
    requires |p| >= 1 && |p2| >= 1 && Diverge(p, p2)
    requires Writable(t, TablePath(p)) && Writable(t', TablePath(p))
    requires forall q :: |q| >= 1 && Diverge(q, p) ==> Lookup(t', q) == Lookup(t, q)
    ensures Writable(t', TablePath(p2)) <==> Writable(t, TablePath(p2))
  {
    var tp2 := TablePath(p2);
    forall k | 1 <= k <= |tp2|
      ensures Open(Lookup(t', tp2[..k])) <==> Open(Lookup(t, tp2[..k]))
    {
      var q := tp2[..k];
      if !Diverge(q, p) {
        var i :| 0 <= i < |p| && i < |p2| && p[i] != p2[i];
        assert k <= i;
        assert q == TablePath(p)[..k];
        assert Open(Lookup(t, TablePath(p)[..k])) && Open(Lookup(t', TablePath(p)[..k]));
      }
    }
  }

  /** `q` and `p` differ at some position both have: neither is a prefix of the other. */
  predicate Diverge(q: seq<string>, p: seq<string>) {
    exists i :: 0 <= i < |q| && i < |p| && q[i] != p[i]
  }

  /** The `requires` list: one entry per lock package in lock order, then the additional requirements. */
  function RequirementList(lock: seq<LockPackage>, additional: seq<string>): (r: seq<Toml>)
    ensures |r| == |lock| + |additional|
    ensures forall i :: 0 <= i < |lock| ==> r[i] == Requirement(lock[i])
    ensures forall i :: 0 <= i < |additional| ==> r[|lock| + i] == TStr(additional[i])
  {
    if lock != [] then [Requirement(lock[0])] + RequirementList(lock[1..], additional)
    else if additional != [] then [TStr(additional[0])] + RequirementList([], additional[1..])
    else []
  }

  /** The loop of `update_briefcase_requires` that collects the requirements. */
  method BriefcaseRequires(lock: seq<LockPackage>, additional: seq<string>) returns (reqs: seq<Toml>)
    ensures reqs == RequirementList(lock, additional)
  {
    reqs := [];
    for i := 0 to |lock|
      invariant |reqs| == i
      invariant forall j :: 0 <= j < i ==> reqs[j] == Requirement(lock[j])
    {
      var package := lock[i];
      if |package.source| > 0 {
        reqs := reqs + [if "url" in package.source then TStr(package.source["url"]) else TNone];
      } else {
        reqs := reqs + [TStr(package.name + "==" + package.version)];
      }
    }
    for i := 0 to |additional|
      invariant |reqs| == |lock| + i
      invariant forall j :: 0 <= j < |lock| ==> reqs[j] == Requirement(lock[j])
      invariant forall j :: 0 <= j < i ==> reqs[|lock| + j] == TStr(additional[j])
    {
      reqs := reqs + [TStr(additional[i])];
    }
    var expected := RequirementList(lock, additional);
    forall i | |lock| <= i < |reqs|
      ensures reqs[i] == expected[i]
    {
      assert reqs[|lock| + (i - |lock|)] == TStr(additional[i - |lock|]);
    }
  }

  /** `SetIn` addressed by the full path of the entry written. */
  function SetPath(t: map<string, Toml>, path: seq<string>, v: Toml): Result<map<string, Toml>>
    requires |path| >= 1
  {
    SetIn(t, path[..|path| - 1], path[|path| - 1], v)
  }

  /**
   * Writing at `path` succeeds exactly when its tables can be walked; then the value reads
   * back, the tables on the way stay walkable, and every path that branches off is unchanged.
   */
  lemma SetPathSpec(t: map<string, Toml>, path: seq<string>, v: Toml)
    requires |path| >= 1
    ensures SetPath(t, path, v).Ok? <==> Writable(t, TablePath(path))
    ensures SetPath(t, path, v).Ok? ==> Writable(SetPath(t, path, v).value, TablePath(path))
    ensures SetPath(t, path, v).Ok? ==> Lookup(SetPath(t, path, v).value, path) == Some(v)
    ensures SetPath(t, path, v).Ok? ==>
      forall q :: |q| >= 1 && Diverge(q, path) ==> Lookup(SetPath(t, path, v).value, q) == Lookup(t, q)
  {
    SetInOk(t, path[..|path| - 1], path[|path| - 1], v);
    if SetPath(t, path, v).Ok? {
      SetInSpec(t, path[..|path| - 1], path[|path| - 1], v);
    }
  }

  const RequiresPath: seq<string> := ["tool", "briefcase", "app", "bitcoin-safe", "requires"]
  const BriefcaseVersionPath: seq<string> := ["tool", "briefcase", "version"]
  const PoetryVersionPath: seq<string> := ["tool", "poetry", "version"]

  /** The three entries written are distinct: none is a prefix of another. */
  lemma ManifestPathsDiverge()
    ensures Diverge(RequiresPath, BriefcaseVersionPath) && Diverge(BriefcaseVersionPath, RequiresPath)
    ensures Diverge(RequiresPath, PoetryVersionPath) && Diverge(PoetryVersionPath, RequiresPath)
    ensures Diverge(BriefcaseVersionPath, PoetryVersionPath) && Diverge(PoetryVersionPath, BriefcaseVersionPath)
  {
    assert RequiresPath[2] != BriefcaseVersionPath[2];
    assert RequiresPath[1] != PoetryVersionPath[1];
    assert BriefcaseVersionPath[1] != PoetryVersionPath[1];
  }

  /**
   * Three writes at paths that branch apart. They succeed exactly when the tables on all
   * three ways can be walked in the original manifest; then each value can be read back,
   * and nothing else changes.
   */
  method WriteEntries(t: map<string, Toml>, p1: seq<string>, v1: Toml, p2: seq<string>, v2: Toml,
                      p3: seq<string>, v3: Toml)
    returns (r: Result<map<string, Toml>>)
    requires |p1| >= 1 && |p2| >= 1 && |p3| >= 1
    requires Diverge(p1, p2) && Diverge(p1, p3) && Diverge(p2, p3)
    ensures r.Ok? <==> Writable(t, TablePath(p1)) && Writable(t, TablePath(p2)) && Writable(t, TablePath(p3))
    ensures r.Ok? ==> Lookup(r.value, p1) == Some(v1) && Lookup(r.value, p2) == Some(v2) && Lookup(r.value, p3) == Some(v3)
    ensures r.Ok? ==> forall q :: (|q| >= 1 && Diverge(q, p1) && Diverge(q, p2) && Diverge(q, p3)) ==>
      Lookup(r.value, q) == Lookup(t, q)
  {
    var step1 := SetPath(t, p1, v1);
    SetPathSpec(t, p1, v1);
    if step1.Err? {
      return Err(step1.error);
    }
    var step2 := SetPath(step1.value, p2, v2);
    SetPathSpec(step1.value, p2, v2);
    WritableAfterWrite(t, step1.value, p1, p2);
    if step2.Err? {
      return Err(step2.error);
    }
    var step3 := SetPath(step2.value, p3, v3);
    SetPathSpec(step2.value, p3, v3);
    WritableAfterWrite(step1.value, step2.value, p2, p3);
    WritableAfterWrite(t, step1.value, p1, p3);
    if step3.Err? {
      return Err(step3.error);
    }
    r := step3;
  }

  /**
   * `updated` is `pyproject` with the requirement list and both versions written, and
   * every other entry as it was.
   */
  ghost predicate ManifestUpdated(pyproject: map<string, Toml>, updated: map<string, Toml>, reqs: seq<Toml>, version: string) {
    && Lookup(updated, RequiresPath) == Some(TArray(reqs))
    && Lookup(updated, BriefcaseVersionPath) == Some(TStr(version))
    && Lookup(updated, PoetryVersionPath) == Some(TStr(version))
    && forall q :: (|q| >= 1 && Diverge(q, RequiresPath) && Diverge(q, BriefcaseVersionPath)
                    && Diverge(q, PoetryVersionPath)) ==> Lookup(updated, q) == Lookup(pyproject, q)
  }

  /** The tables the `setdefault` chains of `update_briefcase_requires` walk into. */
  const ManifestTables: seq<seq<string>> :=
    [["tool"], ["tool", "briefcase"], ["tool", "briefcase", "app"],
     ["tool", "briefcase", "app", "bitcoin-safe"], ["tool", "poetry"]]

  /** None of those tables exists as something other than a table. */
  ghost predicate ManifestWritable(t: map<string, Toml>) {
    forall q :: q in ManifestTables ==> Open(Lookup(t, q))
  }

  /** The tables on the three table paths the update writes through are exactly those listed. */
  lemma ManifestWritableIff(t: map<string, Toml>)
    ensures ManifestWritable(t) <==>
      Writable(t, TablePath(RequiresPath)) && Writable(t, TablePath(BriefcaseVersionPath))
      && Writable(t, TablePath(PoetryVersionPath))
  {
    var rp, bp, pp := TablePath(RequiresPath), TablePath(BriefcaseVersionPath), TablePath(PoetryVersionPath);
    assert rp[..1] == ManifestTables[0] && rp[..2] == ManifestTables[1];
    assert rp[..3] == ManifestTables[2] && rp[..4] == ManifestTables[3];
    assert bp[..1] == ManifestTables[0] && bp[..2] == ManifestTables[1];
    assert pp[..1] == ManifestTables[0] && pp[..2] == ManifestTables[4];
  }

  /** A manifest without a `tool` entry (an empty one, say) can always be updated. */
  lemma ManifestWithoutToolWritable(t: map<string, Toml>)
    requires "tool" !in t
    ensures ManifestWritable(t)
  {
    forall q | q in ManifestTables
      ensures Lookup(t, q).None?
    {
      assert q[0] == "tool";
    }
  }

  /**
   * `update_briefcase_requires`: writes the requirement list, the briefcase version and
   * the poetry version into the manifest, creating missing tables; every other entry is
   * left as it was. It raises exactly when one of the tables on the way exists as
   * something other than a table.
   */
  method UpdateBriefcaseRequires(b: Builder, pyproject: map<string, Toml>, lock: seq<LockPackage>,
                                 additional: seq<string>)
    returns (r: Result<map<string, Toml>>)
    ensures r.Ok? <==> ManifestWritable(pyproject)
    ensures r.Ok? ==> ManifestUpdated(pyproject, r.value, RequirementList(lock, additional), b.version)
  {
    var reqs := BriefcaseRequires(lock, additional);
    ManifestPathsDiverge();
    ManifestWritableIff(pyproject);
    r := WriteEntries(pyproject, RequiresPath, TArray(reqs), BriefcaseVersionPath, TStr(b.version),
                      PoetryVersionPath, TStr(b.version));
  }

  /** The packaging targets `package_application` knows. */
  const KnownTargets: set<string> := {"appimage", "windows", "mac", "deb", "flatpak", "snap"}

  /** What `package_application` does, in order. */
  datatype Step = UpdateRequires | Package(target: string)

  /**
   * `package_application`: refreshes the requirements first, then packages each target
   * in the given order; an unknown target raises, after the targets before it ran.
   */
  method PackageApplication(b: Builder, pyproject: map<string, Toml>, lock: seq<LockPackage>,
                            targets: seq<string>)
    returns (steps: seq<Step>, manifest: Result<map<string, Toml>>, ok: bool)
    ensures manifest.Ok? <==> ManifestWritable(pyproject)
    ensures manifest.Ok? ==> ManifestUpdated(pyproject, manifest.value, RequirementList(lock, []), b.version)
    ensures manifest.Err? ==> steps == [] && !ok
    ensures manifest.Ok? ==> |steps| >= 1 && steps[0] == UpdateRequires
    ensures manifest.Ok? ==> (ok <==> forall t :: t in targets ==> t in KnownTargets)
    ensures manifest.Ok? ==> steps[1..] == PackagingSteps(targets)
  {
    manifest := UpdateBriefcaseRequires(b, pyproject, lock, []);
    if manifest.Err? {
      return [], manifest, false;
    }
    var packaged;
    packaged, ok := PackageTargets(targets);
    steps := [UpdateRequires] + packaged;
  }

  /** The packaging of each target in order, up to and excluding the first unknown one. */
  function PackagingSteps(targets: seq<string>): (r: seq<Step>)
    ensures |r| <= |targets|
    ensures forall i :: 0 <= i < |r| ==> r[i] == Package(targets[i]) && targets[i] in KnownTargets
    ensures |r| < |targets| ==> targets[|r|] !in KnownTargets
    ensures |r| == |targets| <==> forall t :: t in targets ==> t in KnownTargets
  {
    if targets == [] || targets[0] !in KnownTargets then []
    else [Package(targets[0])] + PackagingSteps(targets[1..])
  }

  /** The loop of `package_application` over the targets: `ok` is false when `f_map` lacks one. */
  method PackageTargets(targets: seq<string>) returns (steps: seq<Step>, ok: bool)
    ensures steps == PackagingSteps(targets)
    ensures ok <==> forall t :: t in targets ==> t in KnownTargets
  {
    steps := [];
    for i := 0 to |targets|
      invariant |steps| == i
      invariant forall j :: 0 <= j < i ==> steps[j] == Package(targets[j]) && targets[j] in KnownTargets
    {
      if targets[i] !in KnownTargets {
        PackagingStepsStop(targets, steps);
        return steps, false;
      }
      steps := steps + [Package(targets[i])];
    }
    PackagingStepsStop(targets, steps);
    ok := true;
  }

  /** Packaging steps for a known prefix that ends at the list's end or at an unknown target. */
  lemma PackagingStepsStop(targets: seq<string>, steps: seq<Step>)
    requires |steps| <= |targets|
    requires forall j :: 0 <= j < |steps| ==> steps[j] == Package(targets[j]) && targets[j] in KnownTargets
    requires |steps| < |targets| ==> targets[|steps|] !in KnownTargets
    ensures PackagingSteps(targets) == steps
  {
    var r := PackagingSteps(targets);
    assert |r| == |steps|;
  }

  /**
   * `verify`: the list must not be empty (assertion error); the result is true exactly
   * when every file's signature is valid. `checked` are the files looked at: the check
   * stops at the first invalid one.
   */
  method Verify(signedFiles: seq<string>, isValid: string -> bool) returns (r: Result<bool>, checked: seq<string>)
    ensures signedFiles == [] ==> r.Err?
    ensures signedFiles != [] ==> r == Ok(forall f :: f in signedFiles ==> isValid(f))
    ensures checked <= signedFiles && (forall i :: 0 <= i < |checked| - 1 ==> isValid(checked[i]))
    ensures r == Ok(false) ==> |checked| > 0 && !isValid(checked[|checked| - 1])
    ensures r == Ok(true) ==> checked == signedFiles
  {
    if signedFiles == [] {
      return Err("AssertionError"), [];
    }
    checked := [];
    for i := 0 to |signedFiles|
      invariant checked == signedFiles[..i]
      invariant forall j :: 0 <= j < i ==> isValid(signedFiles[j])
    {
      checked := checked + [signedFiles[i]];
      if !isValid(signedFiles[i]) {
        return Ok(false), checked;
      }
    }
    r := Ok(true);
  }

  /** `sign`: succeeds only when every file it just signed verifies. */
  method Sign(signedFiles: seq<string>, isValid: string -> bool) returns (ok: bool)
    ensures ok <==> signedFiles != [] && forall f :: f in signedFiles ==> isValid(f)
  {
    var verified, _ := Verify(signedFiles, isValid);
    ok := verified == Ok(true);
  }


  /** `get_default_targets`. */
  function DefaultTargets(system: System): (r: seq<string>)
    ensures |r| <= 1 && forall t :: t in r ==> t in KnownTargets
    ensures system.OtherSystem? <==> r == []
  {
    match system
    case Windows => ["windows"]
    case Linux => ["appimage"]
    case Darwin => ["mac"]
    case OtherSystem(_) => []
  }

  function StripCommas(ts: seq<string>): (r: seq<string>)
    ensures |r| == |ts| && forall i :: 0 <= i < |ts| ==> r[i] == ReplaceAll(ts[i], ",", "")
  {
    if ts == [] then [] else [ReplaceAll(ts[0], ",", "")] + StripCommas(ts[1..])
  }

  /** The `--targets` values after cleaning: absent gives none, given empty gives the defaults. */
  function CleanTargets(arg: Option<seq<string>>, system: System): seq<string> {
    match arg
    case None => []
    case Some(ts) => if ts == [] then DefaultTargets(system) else StripCommas(ts)
  }

  /** Cleaning keeps one target per value, each with its commas removed and nothing else. */
  lemma CleanTargetsSpec(arg: Option<seq<string>>, system: System)
    ensures arg.None? ==> CleanTargets(arg, system) == []
    ensures arg == Some([]) ==> CleanTargets(arg, system) == DefaultTargets(system)
    ensures arg.Some? && arg.value != [] ==> var r := CleanTargets(arg, system);
      && |r| == |arg.value|
      && forall i :: 0 <= i < |r| ==> r[i] == WithoutChar(arg.value[i], ',') && ',' !in r[i]
  {
    if arg.Some? && arg.value != [] {
      forall i | 0 <= i < |arg.value| {
        ReplaceCharByNothing(arg.value[i], ',');
      }
    }
  }
}
