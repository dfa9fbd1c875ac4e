/**
 * The decisions `whiskIt` (whisk/whisk.js) takes once the glob results and the
 * file contents are known: the pack roots read from a module's `config.json`,
 * the string-prefix classification into `BP`, `RP` and `data`, the
 * filter-dependency check against the project's `config.json`, and what happens
 * to one destination path (copy, merge, skip, or rewrite when the contents
 * differ). The file system is a value `Fs`; every step returns the new value
 * and the error it throws, if any.
 */
module WhiskCompose {
  import opened Wrappers
  import opened Text
  import opened WhiskJson
  import opened WhiskPatterns

  // ---------------------------------------------------------------------------
  // Paths

  /** Node's `path.join`, `path.normalize` and `path.dirname`, taken as given functions. */
  datatype PathOps = PathOps(join: seq<string> -> string, normalize: string -> string, dirname: string -> string)

  const JsonFileExtensions: seq<string> := [".json", ".material", ".templ", ".modl"]

  /**
   * `path.extname(p)` on a path without a trailing slash: from the last `.` of
   * the last segment, or `""` when that segment has no `.` after its first
   * character.
   */
  function ExtName(p: string): (e: string)
    ensures e == [] || (e[0] == '.' && EndsWith(p, e) && '/' !in e && '.' !in e[1..])
  {
    var slash := LastIndexOf(p, '/');
    var base := p[slash + 1..];
    var dot := LastIndexOf(base, '.');
    if dot <= 0 then ""
    else
      assert base[dot..] == p[slash + 1 + dot..];
      assert forall c :: c in base[dot..] ==> c in base;
      assert base[dot..][1..] == base[dot + 1..];
      base[dot..]
  }

  /** A name that ends in an extension, after at least one other character of its last segment, has that extension. */
  lemma ExtNameOfSuffix(p: string, e: string)
    requires |e| >= 1 && e[0] == '.' && '/' !in e && '.' !in e[1..]
    requires p != [] && p[|p| - 1] != '/'
    ensures ExtName(p + e) == e
  {
    var s := p + e;
    var slash := LastIndexOf(s, '/');
    LastSlashBefore(p, e);
    var at := |p| - slash - 1;
    SuffixAfter(p, e, slash + 1);
    LastDotAt(s[slash + 1..], at);
  }

  /** The tail of `p + e` from inside `p` still ends in `e`. */
  lemma SuffixAfter(p: string, e: string, from: nat)
    requires from < |p| && |e| >= 1
    ensures (p + e)[from..][|p| - from..] == e
    ensures (p + e)[from..][|p| - from] == e[0]
    ensures (p + e)[from..][|p| - from + 1..] == e[1..]
  {
    var base := (p + e)[from..];
    assert base == p[from..] + e;
  }

  lemma LastDotAt(base: string, at: nat)
    requires at < |base| && base[at] == '.' && '.' !in base[at + 1..]
    ensures LastIndexOf(base, '.') == at
  {
    assert base[at] in base;
  }

  lemma LastSlashBefore(p: string, e: string)
    requires '/' !in e && p != [] && p[|p| - 1] != '/'
    ensures LastIndexOf(p + e, '/') < |p| - 1
  {
    var s := p + e;
    assert s[|p| - 1] != '/';
    assert forall k :: |p| <= k < |s| ==> s[k] == e[k - |p|];
  }

  /** A path ending in one of the JSON extensions, after another character of its last segment, is merged. */
  lemma JsonExtensionMerges(p: string, e: string)
    requires e in JsonFileExtensions
    requires p != [] && p[|p| - 1] != '/'
    ensures ExtName(p + e) == e
  {
    if e == ".json" {
      ExtNameOfSuffix(p, ".json");
    } else if e == ".material" {
      ExtNameOfSuffix(p, ".material");
    } else if e == ".templ" {
      ExtNameOfSuffix(p, ".templ");
    } else {
      ExtNameOfSuffix(p, ".modl");
    }
  }

  // ---------------------------------------------------------------------------
  // Classification

  /** `isPathWithin(child, ...parents)`: a plain string-prefix test against each parent in turn. */
  function IsPathWithin(child: string, parents: seq<string>): (r: bool)
    ensures r <==> exists k :: 0 <= k < |parents| && StartsWith(child, parents[k])
  {
    if |parents| == 0 then false
    else if StartsWith(child, parents[0]) then true
    else
      var r := IsPathWithin(child, parents[1..]);
      assert forall k :: 1 <= k < |parents| ==> parents[k] == parents[1..][k - 1];
      r
  }

  const DefaultBehaviorPack: string := "./packs/BP"
  const DefaultResourcePack: string := "./packs/RP"
  const DefaultDataPath: string := "./packs/data"

  const PathTypeError: string := "TypeError [ERR_INVALID_ARG_TYPE]: The \"path\" argument must be of type string"

  /** A path setting: a truthy value replaces the default, and `path.join` accepts only a string. */
  function Chosen(v: Option<Json>, default: string): Result<string>
  {
    if !TruthyOpt(v) then Ok(default)
    else if v.value.Str? then Ok(v.value.s)
    else Err(PathTypeError)
  }

  /** The normalised absolute roots of the three trees. */
  datatype PackRoots = PackRoots(bp: string, rp: string, data: string)

  /** `config.packs.behaviorPack`, read only when `config.packs` is truthy. */
  function PackSetting(config: Json, key: string): Option<Json>
  {
    var packs := Field(config, "packs");
    if TruthyOpt(packs) then Field(packs.value, key) else None
  }

  /** `config.regolith.dataPath`, read only when `config.regolith` is truthy. */
  function DataPathSetting(config: Json): Option<Json>
  {
    var regolith := Field(config, "regolith");
    if TruthyOpt(regolith) then Field(regolith.value, "dataPath") else None
  }

  /** The roots of whisk/whisk.js:194-210, each joined to the module directory and normalised. */
  function PackRootsFrom(config: Json, dir: string, paths: PathOps): (r: Result<PackRoots>)
    ensures r.Err? <==> (config.Null? || Chosen(PackSetting(config, "behaviorPack"), DefaultBehaviorPack).Err?
                         || Chosen(PackSetting(config, "resourcePack"), DefaultResourcePack).Err?
                         || Chosen(DataPathSetting(config), DefaultDataPath).Err?)
    ensures r.Ok? ==> r.value.bp == paths.normalize(paths.join([dir, Chosen(PackSetting(config, "behaviorPack"), DefaultBehaviorPack).value]))
    ensures r.Ok? ==> r.value.rp == paths.normalize(paths.join([dir, Chosen(PackSetting(config, "resourcePack"), DefaultResourcePack).value]))
    ensures r.Ok? ==> r.value.data == paths.normalize(paths.join([dir, Chosen(DataPathSetting(config), DefaultDataPath).value]))
  {
    if config.Null? then Err(NullPropertyError)
    else
      var bp := Chosen(PackSetting(config, "behaviorPack"), DefaultBehaviorPack);
      var rp := Chosen(PackSetting(config, "resourcePack"), DefaultResourcePack);
      var dp := Chosen(DataPathSetting(config), DefaultDataPath);
      if bp.Err? then Err(bp.message)
      else if rp.Err? then Err(rp.message)
      else if dp.Err? then Err(dp.message)
      else
        Ok(PackRoots(paths.normalize(paths.join([dir, bp.value])),
                     paths.normalize(paths.join([dir, rp.value])),
                     paths.normalize(paths.join([dir, dp.value]))))
  }

  const NullPropertyError: string := "TypeError: Cannot read properties of null"

  /** A configuration without `packs` and `regolith` gives the three default roots. */
  lemma DefaultRoots(dir: string, paths: PathOps)
    ensures PackRootsFrom(Obj([]), dir, paths)
         == Ok(PackRoots(paths.normalize(paths.join([dir, DefaultBehaviorPack])),
                         paths.normalize(paths.join([dir, DefaultResourcePack])),
                         paths.normalize(paths.join([dir, DefaultDataPath]))))
  {
  }

  /** A falsy setting, such as `""`, keeps the default; a truthy string replaces it. */
  lemma SettingReplacesDefault(s: string, default: string)
    ensures Chosen(Some(Str(s)), default) == Ok(if s == "" then default else s)
    ensures Chosen(Some(Null), default) == Ok(default) && Chosen(None, default) == Ok(default)
  {
  }

  /** The tree a file goes to and the root it was found under. */
  datatype Placement = Placement(tree: string, root: string)

  /** The `if`/`else if` chain at whisk/whisk.js:274-280: the first root that is a prefix wins. */
  function Classify(absPath: string, roots: PackRoots): (r: Option<Placement>)
    ensures r.Some? <==> IsPathWithin(absPath, [roots.bp, roots.rp, roots.data])
    ensures r.Some? ==> StartsWith(absPath, r.value.root)
  {
    var parents := [roots.bp, roots.rp, roots.data];
    assert parents[0] == roots.bp && parents[1] == roots.rp && parents[2] == roots.data;
    if StartsWith(absPath, roots.bp) then Some(Placement("BP", roots.bp))
    else if StartsWith(absPath, roots.rp) then Some(Placement("RP", roots.rp))
    else if StartsWith(absPath, roots.data) then Some(Placement("data", roots.data))
    else None
  }

  /** The chain is tried in order: `BP` before `RP` before `data`. */
  lemma ClassifyFirstHit(absPath: string, roots: PackRoots)
    ensures Classify(absPath, roots) == Some(Placement("BP", roots.bp)) <==> StartsWith(absPath, roots.bp)
    ensures Classify(absPath, roots) == Some(Placement("RP", roots.rp)) <==>
              !StartsWith(absPath, roots.bp) && StartsWith(absPath, roots.rp)
    ensures Classify(absPath, roots) == Some(Placement("data", roots.data)) <==>
              !StartsWith(absPath, roots.bp) && !StartsWith(absPath, roots.rp) && StartsWith(absPath, roots.data)
  {
  }

  /** `path.join(tree, absPath.replace(root, ""))` for a classified file. */
  function TargetPath(absPath: string, roots: PackRoots, paths: PathOps): (r: Option<string>)
    ensures r.Some? <==> Classify(absPath, roots).Some?
  {
    match Classify(absPath, roots)
    case None => None
    case Some(pl) => Some(paths.join([pl.tree, ReplaceFirst(absPath, pl.root, "")]))
  }

  /** Since the root is a prefix, `replace` removes exactly that prefix: the target is the tree plus the rest of the path. */
  lemma TargetDropsRoot(absPath: string, roots: PackRoots, paths: PathOps)
    requires Classify(absPath, roots).Some?
    ensures var pl := Classify(absPath, roots).value;
            TargetPath(absPath, roots, paths) == Some(paths.join([pl.tree, absPath[|pl.root|..]]))
  {
    var pl := Classify(absPath, roots).value;
    ReplaceFirstOfPrefix(absPath, pl.root);
  }

  /**
   * The test is on strings, not directories: a sibling such as `<bp>2/item.json`
   * of a root `<bp>` counts as inside it and lands in `BP` as `2/item.json`.
   */
  lemma PrefixNotDirectory(roots: PackRoots, rest: string, paths: PathOps)
    ensures Classify(roots.bp + rest, roots) == Some(Placement("BP", roots.bp))
    ensures TargetPath(roots.bp + rest, roots, paths) == Some(paths.join(["BP", rest]))
  {
    assert (roots.bp + rest)[..|roots.bp|] == roots.bp;
    TargetDropsRoot(roots.bp + rest, roots, paths);
    assert (roots.bp + rest)[|roots.bp|..] == rest;
  }

  // ---------------------------------------------------------------------------
  // The filter-dependency check (whisk/whisk.js:212-261)

  const NotAFunctionError: string := "TypeError: filters.some is not a function"

  /** `items.some((f) => f.filter === filter)`, stopping at the first hit. */
  function AnyRefers(items: seq<Json>, filter: string): (r: Result<bool>)
    ensures r == Ok(true) ==> exists k :: 0 <= k < |items| && Field(items[k], "filter") == Some(Str(filter))
    ensures r == Ok(false) <==> forall k :: 0 <= k < |items| ==>
                                   !items[k].Null? && Field(items[k], "filter") != Some(Str(filter))
  {
    if |items| == 0 then Ok(false)
    else if items[0].Null? then Err(NullPropertyError)
    else if Field(items[0], "filter") == Some(Str(filter)) then Ok(true)
    else
      var r := AnyRefers(items[1..], filter);
      assert forall k :: 1 <= k < |items| ==> items[k] == items[1..][k - 1];
      r
  }

  /** `filters.some(...)`: only an array has `some`. */
  function Refers(filters: Json, filter: string): Result<bool>
  {
    if filters.Arr? then AnyRefers(filters.items, filter) else Err(NotAFunctionError)
  }

  /** The profile `profiles[name]` exists, is not `null`, and any truthy `filters` it has does not reference `filter`. */
  predicate ProfileMisses(profiles: Json, name: string, filter: string)
  {
    var profile := Field(profiles, name);
    profile.Some? && !profile.value.Null? &&
    (TruthyOpt(Field(profile.value, "filters")) ==> Refers(Field(profile.value, "filters").value, filter) == Ok(false))
  }

  /**
   * `Object.keys(profiles).some((p) => profiles[p].filters && profiles[p].filters.some(...))`:
   * true only when some profile's filters reference `filter`, and false
   * exactly when every profile was read without error and none does.
   */
  function SomeProfileRefers(profiles: Json, names: seq<string>, filter: string): (r: Result<bool>)
    ensures r == Ok(true) ==> exists k :: 0 <= k < |names| && Field(profiles, names[k]).Some? &&
                                          TruthyOpt(Field(Field(profiles, names[k]).value, "filters")) &&
                                          Refers(Field(Field(profiles, names[k]).value, "filters").value, filter) == Ok(true)
    ensures r == Ok(false) <==> forall k :: 0 <= k < |names| ==> ProfileMisses(profiles, names[k], filter)
  {
    if |names| == 0 then Ok(false)
    else
      var profile := Field(profiles, names[0]);
      if profile.None? then Err("TypeError: Cannot read properties of undefined")
      else if profile.value.Null? then Err(NullPropertyError)
      else
        var filters := Field(profile.value, "filters");
        var hit := if TruthyOpt(filters) then Refers(filters.value, filter) else Ok(false);
        if hit.Err? then Err(hit.message)
        else if hit.value then Ok(true)
        else
          var r := SomeProfileRefers(profiles, names[1..], filter);
          assert forall k :: 1 <= k < |names| ==> names[k] == names[1..][k - 1];
          r
  }

  /** The condition at whisk/whisk.js:231-239 for one filter of the project. */
  function ProjectUses(projectConfig: Json, filter: string): Result<bool>
  {
    var regolith := Get(Some(projectConfig), "regolith");
    if regolith.Err? then Err(regolith.message)
    else
      var defs := Get(regolith.value, "filterDefinitions");
      if defs.Err? then Err(defs.message)
      else
        var def := Get(defs.value, filter);
        if def.Err? then Err(def.message)
        else
          var url := Get(def.value, "url");
          if url.Err? then Err(url.message)
          else if !TruthyOpt(url.value) then Ok(false)
          else
            var profiles := Get(regolith.value, "profiles");
            if profiles.Err? then Err(profiles.message)
            else
              var names := ObjectKeys(profiles.value);
              if names.Err? then Err(names.message)
              else SomeProfileRefers(profiles.value.value, names.value, filter)
  }

  /**
   * A project whose `profiles` is an array is walked by its indices: the one
   * profile at index `"0"` references `f`, so the project uses `f`.
   */
  lemma ArrayProfilesExample()
    ensures var profiles := Arr([Obj([("filters", Arr([Obj([("filter", Str("f"))])]))])]);
            var pc := Obj([("regolith", Obj([("filterDefinitions", Obj([("f", Obj([("url", Str("u"))]))])),
                                             ("profiles", profiles)]))]);
            ProjectUses(pc, "f") == Ok(true)
  {
    var profile := Obj([("filters", Arr([Obj([("filter", Str("f"))])]))]);
    var profiles := Arr([profile]);
    ArrayKeysOf(profile);
    assert Field(profile, "filters") == Some(Arr([Obj([("filter", Str("f"))])]));
    assert Refers(Arr([Obj([("filter", Str("f"))])]), "f") == Ok(true);
    assert SomeProfileRefers(profiles, ["0"], "f") == Ok(true);
  }

  /** `Object.keys(projectConfig.regolith.filterDefinitions)`. */
  function ProjectFilterNames(projectConfig: Json): Result<seq<string>>
  {
    var regolith := Get(Some(projectConfig), "regolith");
    if regolith.Err? then Err(regolith.message)
    else
      var defs := Get(regolith.value, "filterDefinitions");
      if defs.Err? then Err(defs.message) else ObjectKeys(defs.value)
  }

  /** The condition at whisk/whisk.js:246-252 for one filter of the module, given the project's used filters. */
  function ModuleMisses(defs: Json, defaultFilters: Json, used: seq<string>, filter: string): Result<bool>
  {
    var url := Get(Field(defs, filter), "url");
    if url.Err? then Err(url.message)
    else if !TruthyOpt(url.value) then Ok(false)
    else
      var referenced := Refers(defaultFilters, filter);
      if referenced.Err? then Err(referenced.message)
      else Ok(referenced.value && filter !in used)
  }

  /** A loop pushing each key for which `cond` holds, in key order, ending at the first error. */
  function Collected(keys: seq<string>, cond: string -> Result<bool>): Result<seq<string>>
  {
    if |keys| == 0 then Ok([])
    else
      match Collected(keys[..|keys| - 1], cond)
      case Err(e) => Err(e)
      case Ok(acc) =>
        var c := cond(keys[|keys| - 1]);
        if c.Err? then Err(c.message)
        else if c.value then Ok(acc + [keys[|keys| - 1]]) else Ok(acc)
  }

  /** The loops at whisk/whisk.js:228-243 and 245-256: `push` each key whose condition holds. */
  method Collect(keys: seq<string>, cond: string -> Result<bool>) returns (r: Result<seq<string>>)
    ensures r == Collected(keys, cond)
  {
    var acc: seq<string> := [];
    var i := 0;
    while i < |keys|
      invariant 0 <= i <= |keys|
      invariant Collected(keys[..i], cond) == Ok(acc)
    {
      assert keys[..i + 1][..i] == keys[..i];
      var c := cond(keys[i]);
      if c.Err? {
        CollectedStops(keys, cond, i + 1);
        return Err(c.message);
      }
      if c.value {
        acc := acc + [keys[i]];
      }
      i := i + 1;
    }
    assert keys[..i] == keys;
    return Ok(acc);
  }

  lemma {:induction false} CollectedStops(keys: seq<string>, cond: string -> Result<bool>, n: nat)
    requires n <= |keys| && Collected(keys[..n], cond).Err?
    ensures Collected(keys, cond) == Collected(keys[..n], cond)
  {
    if n < |keys| {
      var init := keys[..|keys| - 1];
      assert init[..n] == keys[..n];
      CollectedStops(init, cond, n);
    } else {
      assert keys[..n] == keys;
    }
  }

  /** A collected key is one for which the condition held, and every such key is collected. */
  lemma {:induction false} CollectedMembers(keys: seq<string>, cond: string -> Result<bool>, x: string)
    requires Collected(keys, cond).Ok?
    ensures x in Collected(keys, cond).value <==> x in keys && cond(x) == Ok(true)
  {
    if |keys| > 0 {
      var init := keys[..|keys| - 1];
      CollectedMembers(init, cond, x);
      assert keys == init + [keys[|keys| - 1]];
      if x in init { CollectedOk(init, cond, x); }
    }
  }

  /** When the loop completes, the condition was evaluated without error on every key. */
  lemma {:induction false} CollectedOk(keys: seq<string>, cond: string -> Result<bool>, x: string)
    requires Collected(keys, cond).Ok? && x in keys
    ensures cond(x).Ok?
  {
    var init := keys[..|keys| - 1];
    if x != keys[|keys| - 1] {
      assert x in init;
      CollectedOk(init, cond, x);
    }
  }

  /** Where the module's filter check gets its inputs, when the gate at whisk/whisk.js:216-221 lets it run. */
  datatype FilterInputs = FilterInputs(defs: Json, defaultFilters: Json)

  /** `config.regolith.filterDefinitions && ...profiles && ...profiles.default && ...default.filters`. */
  function FilterGate(config: Json): (r: Option<FilterInputs>)
    ensures r.Some? ==> Truthy(r.value.defs) && Truthy(r.value.defaultFilters)
  {
    var regolith := Field(config, "regolith");
    if !TruthyOpt(regolith) then None
    else
      var defs := Field(regolith.value, "filterDefinitions");
      var profiles := Field(regolith.value, "profiles");
      if !TruthyOpt(defs) || !TruthyOpt(profiles) then None
      else
        var default := Field(profiles.value, "default");
        if !TruthyOpt(default) then None
        else
          var filters := Field(default.value, "filters");
          if !TruthyOpt(filters) then None else Some(FilterInputs(defs.value, filters.value))
  }

  /** `Missing filters: a, b`. */
  function MissingFiltersMessage(missing: seq<string>): string
  {
    "Missing filters: " + JoinWith(missing, ", ")
  }

  /** `missingFilters.join(sep)`. */
  function JoinWith(parts: seq<string>, sep: string): string
  {
    if |parts| == 0 then ""
    else if |parts| == 1 then parts[0]
    else parts[0] + sep + JoinWith(parts[1..], sep)
  }

  /**
   * The check given the module's `config.json` and the project's, parsed (`None`
   * when the project has no `config.json`): it runs only when the module
   * configuration has a truthy `regolith` and the project file exists, and the
   * gate lets it; it fails when a module filter is missing from the project.
   */
  function CheckFilters(config: Json, projectConfig: Option<Json>): Result<seq<string>>
  {
    var inputs := FilterGate(config);
    if projectConfig.None? || inputs.None? then Ok([])
    else
      var pc := projectConfig.value;
      var names := ProjectFilterNames(pc);
      if names.Err? then Err(names.message)
      else
        var used := Collected(names.value, (f: string) => ProjectUses(pc, f));
        if used.Err? then Err(used.message)
        else
          // The gate made `filterDefinitions` truthy, so `Object.keys` of it cannot throw.
          var missing := Collected(OwnKeys(inputs.value.defs),
                                   (f: string) => ModuleMisses(inputs.value.defs, inputs.value.defaultFilters, used.value, f));
          if missing.Err? then Err(missing.message)
          else if |missing.value| > 0 then Err(MissingFiltersMessage(missing.value))
          else Ok(used.value)
  }

  /**
   * When the check completes, a module filter is reported missing exactly when
   * it has a truthy `url`, the module's default profile references it, and the
   * project does not use it; and the project uses a filter exactly when it has
   * a truthy `url` and some project profile references it.
   */
  lemma MissingMeans(inputs: FilterInputs, pc: Json, used: seq<string>, missing: seq<string>, f: string)
    requires ProjectFilterNames(pc).Ok?
    requires Collected(ProjectFilterNames(pc).value, (g: string) => ProjectUses(pc, g)) == Ok(used)
    requires Collected(OwnKeys(inputs.defs), (g: string) => ModuleMisses(inputs.defs, inputs.defaultFilters, used, g)) == Ok(missing)
    ensures f in used <==> f in ProjectFilterNames(pc).value && ProjectUses(pc, f) == Ok(true)
    ensures f in missing <==>
              f in OwnKeys(inputs.defs) && Field(inputs.defs, f).Some? &&
              TruthyOpt(Field(Field(inputs.defs, f).value, "url")) &&
              Refers(inputs.defaultFilters, f) == Ok(true) && f !in used
  {
    CollectedMembers(ProjectFilterNames(pc).value, (g: string) => ProjectUses(pc, g), f);
    CollectedMembers(OwnKeys(inputs.defs), (g: string) => ModuleMisses(inputs.defs, inputs.defaultFilters, used, g), f);
  }

  /** A module whose gate does not open, or a project without `config.json`, is not checked. */
  lemma UngatedPasses(config: Json, projectConfig: Option<Json>)
    requires FilterGate(config).None? || projectConfig.None?
    ensures CheckFilters(config, projectConfig) == Ok([])
  {
  }

  /** The message names the missing filters separated by `", "`. */
  lemma MissingMessageExample()
    ensures MissingFiltersMessage(["a", "b"]) == "Missing filters: a, b"
  {
    assert JoinWith(["a", "b"], ", ") == "a" + ", " + "b";
  }

  // ---------------------------------------------------------------------------
  // Destinations

  /** The file system seen by `whiskIt`: file contents and the directories that exist. */
  datatype Fs = Fs(files: map<string, string>, dirs: set<string>)

  /** An entry of the module directory, keyed by its path relative to that directory. */
  datatype Entry = File(text: string) | Dir

  /** A new file-system state and the error that stopped the work, if any. */
  datatype Run = Run(fs: Fs, error: Option<string>)

  const NoEntryError: string := "ENOENT: no such file or directory"
  const IsDirectoryError: string := "EISDIR: illegal operation on a directory"

  /** `fs.existsSync(p)`. */
  predicate Exists(fs: Fs, p: string)
  {
    p in fs.files || p in fs.dirs
  }

  /** `fs.readFileSync(p)` on the destination tree. */
  function ReadTarget(fs: Fs, p: string): (r: Result<string>)
    ensures r.Ok? <==> p in fs.files && p !in fs.dirs
  {
    if p in fs.dirs then Err(IsDirectoryError)
    else if p in fs.files then Ok(fs.files[p])
    else Err(NoEntryError)
  }

  /** `fs.readFileSync(path.join(dir, file))` on the module directory. */
  function ReadModule(entries: map<string, Entry>, file: string): (r: Result<string>)
    ensures r.Ok? <==> file in entries && entries[file].File?
  {
    if file !in entries then Err(NoEntryError)
    else if entries[file].Dir? then Err(IsDirectoryError)
    else Ok(entries[file].text)
  }

  /** `fs.mkdirSync(path.dirname(p), { recursive: true })`. */
  function MakeParent(fs: Fs, p: string, paths: PathOps): Fs
  {
    Fs(fs.files, fs.dirs + {paths.dirname(p)})
  }

  /** `.replaceAll("\r\n", "\n")`. */
  function NormalizeNewlines(s: string): string
  {
    ReplaceAll(s, "\r\n", "\n")
  }

  /**
   * One file of a `copyToSource` pattern (whisk/whisk.js:166-180): an existing
   * target is rewritten with the newline-normalised source when the normalised
   * texts differ; an absent one gets its directory and a raw copy.
   */
  function SyncStep(fs: Fs, target: string, source: Result<string>, paths: PathOps): Run
  {
    if Exists(fs, target) then
      var existing := ReadTarget(fs, target);
      if existing.Err? then Run(fs, Some(existing.message))
      else if source.Err? then Run(fs, Some(source.message))
      else
        var incoming := NormalizeNewlines(source.value);
        if NormalizeNewlines(existing.value) != incoming then Run(Fs(fs.files[target := incoming], fs.dirs), None)
        else Run(fs, None)
    else
      var made := MakeParent(fs, target, paths);
      if source.Err? then Run(made, Some(source.message))
      else Run(Fs(made.files[target := source.value], made.dirs), None)
  }

  /** An absent target receives the source as it is, and its directory is created. */
  lemma SyncAbsentCopies(fs: Fs, target: string, text: string, paths: PathOps)
    requires !Exists(fs, target)
    ensures SyncStep(fs, target, Ok(text), paths)
         == Run(Fs(fs.files[target := text], fs.dirs + {paths.dirname(target)}), None)
  {
  }

  /** An existing target that differs only in line endings is left as it is. */
  lemma SyncSameContentsKept(fs: Fs, target: string, text: string, paths: PathOps)
    requires target in fs.files && target !in fs.dirs
    requires NormalizeNewlines(fs.files[target]) == NormalizeNewlines(text)
    ensures SyncStep(fs, target, Ok(text), paths) == Run(fs, None)
  {
  }

  /** An existing target with other contents is replaced by the normalised source; nothing else changes. */
  lemma SyncDifferentRewritten(fs: Fs, target: string, text: string, paths: PathOps)
    requires target in fs.files && target !in fs.dirs
    requires NormalizeNewlines(fs.files[target]) != NormalizeNewlines(text)
    ensures SyncStep(fs, target, Ok(text), paths)
         == Run(Fs(fs.files[target := NormalizeNewlines(text)], fs.dirs), None)
  {
  }

  /** Synchronising the same file twice leaves what the first time left. */
  lemma SyncTwice(fs: Fs, target: string, text: string, paths: PathOps)
    requires target !in fs.dirs || !Exists(fs, target)
    requires paths.dirname(target) != target
    ensures var once := SyncStep(fs, target, Ok(text), paths);
            once.error.None? && SyncStep(once.fs, target, Ok(text), paths) == once
  {
    var once := SyncStep(fs, target, Ok(text), paths);
    assert target in once.fs.files && target !in once.fs.dirs;
  }

  /**
   * One classified file (whisk/whisk.js:284-302): the target's directory is
   * created; an absent target gets a verbatim copy; an existing one with a JSON
   * extension is replaced by the deep merge of both, each read through
   * `stripComments` and `JSON.parse`; any other existing target is skipped.
   */
  function PlaceStep(fs: Fs, target: string, source: Result<string>, paths: PathOps,
                     parse: string -> Result<Json>, stringify: Json -> string): Run
  {
    var made := MakeParent(fs, target, paths);
    if Exists(made, target) then
      if ExtName(target) in JsonFileExtensions then MergeExisting(made, target, source, parse, stringify)
      else Run(made, None)
    else if source.Err? then Run(made, Some(source.message))
    else Run(Fs(made.files[target := source.value], made.dirs), None)
  }

  /** Both files through `stripComments` and `JSON.parse`, then the merge serialised over the target. */
  function MergeExisting(fs: Fs, target: string, source: Result<string>,
                         parse: string -> Result<Json>, stringify: Json -> string): Run
  {
    var existing := ReadTarget(fs, target);
    if existing.Err? then Run(fs, Some(existing.message))
    else
      var targetJson := parse(StripComments(existing.value));
      if targetJson.Err? then Run(fs, Some(targetJson.message))
      else if source.Err? then Run(fs, Some(source.message))
      else
        var sourceJson := parse(StripComments(source.value));
        if sourceJson.Err? then Run(fs, Some(sourceJson.message))
        else Run(Fs(fs.files[target := stringify(Merged(targetJson.value, sourceJson.value))], fs.dirs), None)
  }

  /** `PlaceStep` writes no path other than its target. */
  lemma PlaceWritesOnly(fs: Fs, target: string, source: Result<string>, paths: PathOps,
                        parse: string -> Result<Json>, stringify: Json -> string, k: string)
    requires k != target
    ensures var after := PlaceStep(fs, target, source, paths, parse, stringify).fs;
            (k in after.files <==> k in fs.files) && (k in fs.files ==> after.files[k] == fs.files[k])
  {
    var made := MakeParent(fs, target, paths);
    assert made.files == fs.files;
    if Exists(made, target) {
      if ExtName(target) in JsonFileExtensions {
        MergeWritesOnly(made, target, source, parse, stringify, k);
      }
    } else if source.Ok? {
      var files := made.files[target := source.value];
      assert PlaceStep(fs, target, source, paths, parse, stringify).fs.files == files;
      assert (k in files <==> k in made.files) && (k in made.files ==> files[k] == made.files[k]);
    }
  }

  lemma MergeWritesOnly(fs: Fs, target: string, source: Result<string>,
                        parse: string -> Result<Json>, stringify: Json -> string, k: string)
    requires k != target
    ensures var after := MergeExisting(fs, target, source, parse, stringify).fs;
            (k in after.files <==> k in fs.files) && (k in fs.files ==> after.files[k] == fs.files[k])
  {
    var existing := ReadTarget(fs, target);
    if existing.Ok? && source.Ok? {
      var targetJson := parse(StripComments(existing.value));
      var sourceJson := parse(StripComments(source.value));
      if targetJson.Ok? && sourceJson.Ok? {
        var files := fs.files[target := stringify(Merged(targetJson.value, sourceJson.value))];
        assert MergeExisting(fs, target, source, parse, stringify).fs.files == files;
        assert (k in files <==> k in fs.files) && (k in fs.files ==> files[k] == fs.files[k]);
      }
    }
  }

  /** An existing target without a JSON extension keeps its contents. */
  lemma PlaceSkipsOthers(fs: Fs, target: string, source: Result<string>, paths: PathOps,
                         parse: string -> Result<Json>, stringify: Json -> string)
    requires Exists(fs, target) && ExtName(target) !in JsonFileExtensions
    ensures PlaceStep(fs, target, source, paths, parse, stringify) == Run(MakeParent(fs, target, paths), None)
  {
  }

  /** An existing JSON target becomes the serialised merge of the target's value with the source's. */
  lemma PlaceMergesJson(fs: Fs, target: string, text: string, paths: PathOps,
                        parse: string -> Result<Json>, stringify: Json -> string)
    requires target in fs.files && target !in fs.dirs && target != paths.dirname(target)
    requires ExtName(target) in JsonFileExtensions
    requires parse(StripComments(fs.files[target])).Ok? && parse(StripComments(text)).Ok?
    ensures PlaceStep(fs, target, Ok(text), paths, parse, stringify)
         == Run(Fs(fs.files[target := stringify(Merged(parse(StripComments(fs.files[target])).value,
                                                        parse(StripComments(text)).value))],
                   fs.dirs + {paths.dirname(target)}), None)
  {
  }

  /** An absent target whatever its extension, and whatever it would parse to, is a verbatim copy. */
  lemma PlaceCopiesAbsent(fs: Fs, target: string, text: string, paths: PathOps,
                          parse: string -> Result<Json>, stringify: Json -> string)
    requires !Exists(fs, target) && paths.dirname(target) != target
    ensures PlaceStep(fs, target, Ok(text), paths, parse, stringify)
         == Run(Fs(fs.files[target := text], fs.dirs + {paths.dirname(target)}), None)
  {
  }

  // ---------------------------------------------------------------------------
  // Loops over files

  /** A loop whose body is `step`, stopped by the first error it throws. */
  function Fold(fs: Fs, items: seq<string>, step: (Fs, string) -> Run): Run
  {
    if |items| == 0 then Run(fs, None)
    else
      var before := Fold(fs, items[..|items| - 1], step);
      if before.error.Some? then before else step(before.fs, items[|items| - 1])
  }

  /** A step that writes no file other than `target(x)`, if any, for its item `x`. */
  ghost predicate WritesOnly(step: (Fs, string) -> Run, target: string -> Option<string>)
  {
    forall fs: Fs, x: string, k: string {:trigger step(fs, x).fs.files[k]} {:trigger step(fs, x), fs.files[k]} ::
      target(x) != Some(k) ==> (k in step(fs, x).fs.files <==> k in fs.files) &&
                               (k in fs.files ==> step(fs, x).fs.files[k] == fs.files[k])
  }

  /** A path no item of the loop targets keeps its contents, or its absence. */
  lemma {:induction false} FoldLeavesOthers(fs: Fs, items: seq<string>, step: (Fs, string) -> Run,
                                            target: string -> Option<string>, k: string)
    requires WritesOnly(step, target)
    requires forall i :: 0 <= i < |items| ==> target(items[i]) != Some(k)
    ensures k in Fold(fs, items, step).fs.files <==> k in fs.files
    ensures k in fs.files ==> Fold(fs, items, step).fs.files[k] == fs.files[k]
  {
    if |items| > 0 {
      var init := items[..|items| - 1];
      FoldLeavesOthers(fs, init, step, target, k);
      var before := Fold(fs, init, step);
      if before.error.None? {
        var x := items[|items| - 1];
        assert target(x) != Some(k);
        if k in fs.files {
          assert step(before.fs, x).fs.files[k] == before.fs.files[k];
        }
      }
    }
  }

  /** One more item after a prefix that ran without error is one more step. */
  lemma FoldSnoc(fs: Fs, items: seq<string>, step: (Fs, string) -> Run, n: nat)
    requires n < |items| && Fold(fs, items[..n], step).error.None?
    ensures Fold(fs, items[..n + 1], step) == step(Fold(fs, items[..n], step).fs, items[n])
  {
    assert items[..n + 1][..n] == items[..n];
  }

  /** After an error, the remaining items are not processed. */
  lemma {:induction false} FoldStops(fs: Fs, items: seq<string>, step: (Fs, string) -> Run, n: nat)
    requires n <= |items| && Fold(fs, items[..n], step).error.Some?
    ensures Fold(fs, items, step) == Fold(fs, items[..n], step)
  {
    if n < |items| {
      var init := items[..|items| - 1];
      assert init[..n] == items[..n];
      FoldStops(fs, init, step, n);
    } else {
      assert items[..n] == items;
    }
  }
}
