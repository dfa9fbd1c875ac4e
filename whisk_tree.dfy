/**
 * `whiskIt(dir, settings, module)` of whisk/whisk.js as a method on the
 * destination tree it writes: the `copyToSource` patterns first, then the
 * include/exclude file set and, when that set holds `config.json`, the
 * filter-dependency check and the classified copy into `BP`, `RP` and `data`.
 * Every method is proved against the functions of `WhiskCompose` that say what
 * the new tree is.
 */
module WhiskTree {
  import opened Wrappers
  import opened Text
  import opened WhiskJson
  import opened WhiskPatterns
  import opened WhiskFilter
  import opened WhiskModels
  import opened WhiskCompose

  /** A module checkout: its directory and its entries, keyed by their path relative to it. */
  datatype ModuleDir = ModuleDir(dir: string, entries: map<string, Entry>)

  /**
   * What `whiskIt` takes from its surroundings: `process.env.ROOT_DIR`, the
   * `path` functions, and `JSON.parse` / `JSON.stringify(_, null, 4)`.
   */
  datatype Env = Env(root: string, paths: PathOps, parse: string -> Result<Json>, stringify: Json -> string)

  /** `JSON.parse(stripComments(fs.readFileSync(path.join(dir, name))))`. */
  function ReadConfig(entries: map<string, Entry>, name: string, parse: string -> Result<Json>): Result<Json>
  {
    var text := ReadModule(entries, name);
    if text.Err? then Err(text.message) else parse(StripComments(text.value))
  }

  /** The module's `whisk.json`, or `{}` when there is none (whisk/whisk.js:139-145). */
  function LoadWhiskConfig(m: ModuleDir, parse: string -> Result<Json>): (r: Result<WhiskConfig>)
    ensures r.Ok? ==> r.value.copyToSource.Some? && !r.value.copyToSource.value.Null?
  {
    if "whisk.json" in m.entries then
      var json := ReadConfig(m.entries, "whisk.json", parse);
      if json.Err? then Err(json.message) else WhiskConfigFrom(json.value)
    else WhiskConfigFrom(Obj([]))
  }

  /** An include or exclude setting: only an array of strings goes through `processPatterns` and `glob`. */
  function PatternList(v: Json): (r: Result<seq<string>>)
    ensures r.Ok? ==> v.Arr? && |r.value| == |v.items| && forall k :: 0 <= k < |v.items| ==> v.items[k] == Str(r.value[k])
    ensures v.Arr? && (forall k :: 0 <= k < |v.items| ==> v.items[k].Str?) ==> r.Ok?
  {
    if !v.Arr? then Err("TypeError: patterns.forEach is not a function")
    else if forall k :: 0 <= k < |v.items| ==> v.items[k].Str? then
      Ok(seq(|v.items|, (k: int) requires 0 <= k < |v.items| => v.items[k].s))
    else Err("TypeError: glob pattern string required")
  }

  // ---------------------------------------------------------------------------
  // copyToSource (whisk/whisk.js:147-183)

  /** `path.join(projectRoot, destination, makeRelative(file, pattern))`. */
  function SyncTarget(env: Env, destination: string, pattern: string, file: string): string
  {
    env.paths.join([env.root, destination, MakeRelative(file, pattern)])
  }

  /** One matched file of one pattern; a destination that is not a string makes `path.join` throw. */
  function SyncFile(fs: Fs, m: ModuleDir, env: Env, pattern: string, destination: Json, file: string): Run
  {
    if !destination.Str? then Run(fs, Some(PathTypeError))
    else SyncStep(fs, SyncTarget(env, destination.s, pattern, file), ReadModule(m.entries, file), env.paths)
  }

  /** One pattern of `copyToSource`: its matches, each synchronised in turn. */
  function SyncPattern(fs: Fs, m: ModuleDir, glob: Glob, env: Env, copy: Json, pattern: string): Run
  {
    var files := Filtered([pattern], [], glob);
    if files.Err? then Run(fs, Some(files.message))
    else
      var destination := Field(copy, pattern).GetOr(Null);
      Fold(fs, files.value, (fs': Fs, file: string) => SyncFile(fs', m, env, pattern, destination, file))
  }

  /** All of `copyToSource`, pattern by pattern in `Object.keys` order. */
  function CopyToSource(fs: Fs, m: ModuleDir, glob: Glob, env: Env, copy: Json): Run
  {
    var patterns := OwnKeys(copy);
    Fold(fs, patterns, (fs': Fs, pattern: string) => SyncPattern(fs', m, glob, env, copy, pattern))
  }

  /**
   * An array `copyToSource` is walked by its indices: for a one-element array
   * the pattern globbed is `"0"`, and the element is the destination.
   */
  lemma ArrayCopyToSource(fs: Fs, m: ModuleDir, glob: Glob, env: Env, element: Json)
    ensures CopyToSource(fs, m, glob, env, Arr([element])) == SyncPattern(fs, m, glob, env, Arr([element]), "0")
    ensures Field(Arr([element]), "0").GetOr(Null) == element
  {
    ArrayKeysOf(element);
    var step := (fs': Fs, pattern: string) => SyncPattern(fs', m, glob, env, Arr([element]), pattern);
    assert CopyToSource(fs, m, glob, env, Arr([element])) == Fold(fs, ["0"], step);
    assert ["0"][..0] == [];
    assert Fold(fs, ["0"][..0], step) == Run(fs, None);
  }

  // ---------------------------------------------------------------------------
  // The classified copy (whisk/whisk.js:184-305)

  /** One file of the net set: directories are skipped, files inside a root are placed. */
  function ClassifyFile(fs: Fs, m: ModuleDir, env: Env, roots: PackRoots, file: string): Run
  {
    if file !in m.entries then Run(fs, Some(NoEntryError))
    else if m.entries[file].Dir? then Run(fs, None)
    else
      var absPath := env.paths.normalize(env.paths.join([m.dir, file]));
      match TargetPath(absPath, roots, env.paths)
      case None => Run(fs, None)
      case Some(target) => PlaceStep(fs, target, Ok(m.entries[file].text), env.paths, env.parse, env.stringify)
  }

  /** Where `ClassifyFile` may write for `file`. */
  function ClassifiedTarget(m: ModuleDir, env: Env, roots: PackRoots, file: string): Option<string>
  {
    if file in m.entries && m.entries[file].File? then
      TargetPath(env.paths.normalize(env.paths.join([m.dir, file])), roots, env.paths)
    else None
  }

  /** The project's `config.json`, read only when the module's filter check is going to use it. */
  function ProjectConfig(fs: Fs, env: Env, config: Json): Result<Option<Json>>
  {
    var path := env.paths.join([env.root, "config.json"]);
    if FilterGate(config).None? || !Exists(fs, path) then Ok(None)
    else
      var text := ReadTarget(fs, path);
      if text.Err? then Err(text.message)
      else
        var json := env.parse(StripComments(text.value));
        if json.Err? then Err(json.message) else Ok(Some(json.value))
  }

  /** The callback of the main `filterFiles` call, given the net file set. */
  function ComposeFiles(fs: Fs, m: ModuleDir, env: Env, files: seq<string>): Run
  {
    if "config.json" !in files then Run(fs, None)
    else
      var config := ReadConfig(m.entries, "config.json", env.parse);
      if config.Err? then Run(fs, Some(config.message))
      else
        var roots := PackRootsFrom(config.value, m.dir, env.paths);
        if roots.Err? then Run(fs, Some(roots.message))
        else
          var projectConfig := ProjectConfig(fs, env, config.value);
          if projectConfig.Err? then Run(fs, Some(projectConfig.message))
          else
            var check := CheckFilters(config.value, projectConfig.value);
            if check.Err? then Run(fs, Some(check.message))
            else Fold(fs, files, (fs': Fs, file: string) => ClassifyFile(fs', m, env, roots.value, file))
  }

  /** The main `filterFiles` call and its callback. */
  function ComposeModule(fs: Fs, m: ModuleDir, glob: Glob, env: Env, wc: WhiskConfig): Run
  {
    var includes := PatternList(wc.includes);
    var excludes := PatternList(wc.excludes);
    if includes.Err? then Run(fs, Some(includes.message))
    else if excludes.Err? then Run(fs, Some(excludes.message))
    else
      var files := Filtered(includes.value, excludes.value, glob);
      if files.Err? then Run(fs, Some(files.message)) else ComposeFiles(fs, m, env, files.value)
  }

  /** `whiskIt` on a module: its configuration, then `copyToSource`, then the classified copy. */
  function WhiskItSpec(fs: Fs, m: ModuleDir, glob: Glob, env: Env): Run
  {
    var wc := LoadWhiskConfig(m, env.parse);
    if wc.Err? then Run(fs, Some(wc.message))
    else
      var copied := CopyToSource(fs, m, glob, env, wc.value.copyToSource.value);
      if copied.error.Some? then copied else ComposeModule(copied.fs, m, glob, env, wc.value)
  }

  // ---------------------------------------------------------------------------
  // What the composition promises

  /** Without `config.json` in the net set, nothing is classified: only `copyToSource` writes. */
  lemma NoConfigNoCopy(fs: Fs, m: ModuleDir, env: Env, files: seq<string>)
    requires "config.json" !in files
    ensures ComposeFiles(fs, m, env, files) == Run(fs, None)
  {
  }

  /** A missing filter throws before any classified file is written. */
  lemma MissingFilterWritesNothing(fs: Fs, m: ModuleDir, env: Env, files: seq<string>)
    requires "config.json" in files
    requires ReadConfig(m.entries, "config.json", env.parse).Ok?
    requires PackRootsFrom(ReadConfig(m.entries, "config.json", env.parse).value, m.dir, env.paths).Ok?
    requires ProjectConfig(fs, env, ReadConfig(m.entries, "config.json", env.parse).value).Ok?
    requires CheckFilters(ReadConfig(m.entries, "config.json", env.parse).value,
                          ProjectConfig(fs, env, ReadConfig(m.entries, "config.json", env.parse).value).value).Err?
    ensures ComposeFiles(fs, m, env, files).fs == fs && ComposeFiles(fs, m, env, files).error.Some?
  {
  }

  lemma ClassifyWritesOnly(m: ModuleDir, env: Env, roots: PackRoots)
    ensures WritesOnly((fs': Fs, file: string) => ClassifyFile(fs', m, env, roots, file),
                       (file: string) => ClassifiedTarget(m, env, roots, file))
  {
    forall fs: Fs, x: string, k: string | ClassifiedTarget(m, env, roots, x) != Some(k)
      ensures var after := ClassifyFile(fs, m, env, roots, x).fs;
              (k in after.files <==> k in fs.files) && (k in fs.files ==> after.files[k] == fs.files[k])
    {
      if x in m.entries && m.entries[x].File? {
        var t := ClassifiedTarget(m, env, roots, x);
        if t.Some? {
          PlaceWritesOnly(fs, t.value, Ok(m.entries[x].text), env.paths, env.parse, env.stringify, k);
        }
      }
    }
  }

  /**
   * The classified copy writes only the targets of the files it is given: any
   * other path keeps its contents, or its absence; in particular nothing
   * outside the three trees' targets is touched.
   */
  lemma ClassifiedLeavesOthers(fs: Fs, m: ModuleDir, env: Env, roots: PackRoots, files: seq<string>, k: string)
    requires forall i :: 0 <= i < |files| ==> ClassifiedTarget(m, env, roots, files[i]) != Some(k)
    ensures var after := Fold(fs, files, (fs': Fs, file: string) => ClassifyFile(fs', m, env, roots, file)).fs;
            (k in after.files <==> k in fs.files) && (k in fs.files ==> after.files[k] == fs.files[k])
  {
    ClassifyWritesOnly(m, env, roots);
    FoldLeavesOthers(fs, files, (fs': Fs, file: string) => ClassifyFile(fs', m, env, roots, file),
                     (file: string) => ClassifiedTarget(m, env, roots, file), k);
  }

  /** A directory among the matches is skipped without effect. */
  lemma DirectoriesSkipped(fs: Fs, m: ModuleDir, env: Env, roots: PackRoots, file: string)
    requires file in m.entries && m.entries[file].Dir?
    ensures ClassifyFile(fs, m, env, roots, file) == Run(fs, None)
  {
  }

  /** A file outside all three roots is not copied. */
  lemma OutsideRootsSkipped(fs: Fs, m: ModuleDir, env: Env, roots: PackRoots, file: string)
    requires file in m.entries && m.entries[file].File?
    requires !IsPathWithin(env.paths.normalize(env.paths.join([m.dir, file])), [roots.bp, roots.rp, roots.data])
    ensures ClassifyFile(fs, m, env, roots, file) == Run(fs, None)
  {
  }

  /** A module without `whisk.json` includes every file and copies nothing to the source. */
  lemma NoWhiskJson(m: ModuleDir, parse: string -> Result<Json>)
    requires "whisk.json" !in m.entries
    ensures LoadWhiskConfig(m, parse) == Ok(WhiskConfig(DefaultInclude, DefaultExclude, Some(Obj([]))))
    ensures PatternList(DefaultInclude) == Ok(["**/*"]) && PatternList(DefaultExclude) == Ok([])
  {
    EmptyWhiskConfig();
    var v := PatternList(DefaultInclude).value;
    assert |v| == 1 && v[0] == "**/*";
    assert v == ["**/*"];
  }

  lemma EmptyCopyToSource(fs: Fs, m: ModuleDir, glob: Glob, env: Env)
    ensures CopyToSource(fs, m, glob, env, Obj([])) == Run(fs, None)
  {
  }

  // ---------------------------------------------------------------------------
  // The destination tree

  /** The files and directories `whiskIt` writes, the project tree included. */
  class ProjectTree {
    var files: map<string, string>
    var dirs: set<string>

    function State(): Fs
      reads this
    {
      Fs(files, dirs)
    }

    constructor(fs: Fs)
      ensures State() == fs
    {
      files := fs.files;
      dirs := fs.dirs;
    }

    /** One file of a `copyToSource` pattern. */
    method Sync(target: string, source: Result<string>, paths: PathOps) returns (error: Option<string>)
      modifies this
      ensures Run(State(), error) == SyncStep(old(State()), target, source, paths)
    {
      if target in files || target in dirs {
        if target in dirs {
          return Some(IsDirectoryError);
        }
        if source.Err? {
          return Some(source.message);
        }
        var existing := NormalizeNewlines(files[target]);
        var incoming := NormalizeNewlines(source.value);
        if existing != incoming {
          files := files[target := incoming];
        }
        return None;
      }
      dirs := dirs + {paths.dirname(target)};
      if source.Err? {
        return Some(source.message);
      }
      files := files[target := source.value];
      return None;
    }

    /** One classified file: create the directory, then copy, merge or skip. */
    method Place(target: string, source: Result<string>, paths: PathOps,
                 parse: string -> Result<Json>, stringify: Json -> string) returns (error: Option<string>)
      modifies this
      ensures Run(State(), error) == PlaceStep(old(State()), target, source, paths, parse, stringify)
    {
      dirs := dirs + {paths.dirname(target)};
      if target in files || target in dirs {
        if ExtName(target) in JsonFileExtensions {
          error := Merge(target, source, parse, stringify);
        } else {
          error := None;
        }
        return;
      }
      if source.Err? {
        return Some(source.message);
      }
      files := files[target := source.value];
      return None;
    }

    /** The merge of an existing JSON target with its source (whisk/whisk.js:286-296). */
    method Merge(target: string, source: Result<string>,
                 parse: string -> Result<Json>, stringify: Json -> string) returns (error: Option<string>)
      modifies this
      ensures Run(State(), error) == MergeExisting(old(State()), target, source, parse, stringify)
    {
      if target in dirs {
        return Some(IsDirectoryError);
      }
      if target !in files {
        return Some(NoEntryError);
      }
      var targetJson := parse(StripComments(files[target]));
      if targetJson.Err? {
        return Some(targetJson.message);
      }
      if source.Err? {
        return Some(source.message);
      }
      var sourceJson := parse(StripComments(source.value));
      if sourceJson.Err? {
        return Some(sourceJson.message);
      }
      var merged := MergeDeep(targetJson.value, sourceJson.value);
      files := files[target := stringify(merged)];
      return None;
    }

    /** The matches of one pattern, each synchronised to `ROOT/destination/...`. */
    method SyncPatternFiles(m: ModuleDir, env: Env, pattern: string, destination: Json, matched: seq<string>)
      returns (error: Option<string>)
      modifies this
      ensures Run(State(), error)
           == Fold(old(State()), matched, (fs': Fs, file: string) => SyncFile(fs', m, env, pattern, destination, file))
    {
      ghost var step := (fs': Fs, file: string) => SyncFile(fs', m, env, pattern, destination, file);
      ghost var start := State();
      var i := 0;
      while i < |matched|
        invariant 0 <= i <= |matched|
        invariant Fold(start, matched[..i], step) == Run(State(), None)
      {
        FoldSnoc(start, matched, step, i);
        var file := matched[i];
        if !destination.Str? {
          error := Some(PathTypeError);
        } else {
          var target := SyncTarget(env, destination.s, pattern, file);
          error := Sync(target, ReadModule(m.entries, file), env.paths);
        }
        if error.Some? {
          FoldStops(start, matched, step, i + 1);
          return error;
        }
        i := i + 1;
      }
      assert matched[..i] == matched;
      return None;
    }

    /** One key of `copyToSource`: its matches, then each of them synchronised. */
    method SyncOnePattern(m: ModuleDir, glob: Glob, env: Env, copy: Json, pattern: string) returns (error: Option<string>)
      modifies this
      ensures Run(State(), error) == SyncPattern(old(State()), m, glob, env, copy, pattern)
    {
      var matched := FilterFiles([pattern], [], glob);
      if matched.Err? {
        return Some(matched.message);
      }
      var destination := Field(copy, pattern).GetOr(Null);
      error := SyncPatternFiles(m, env, pattern, destination, matched.value);
    }

    /** The loop over `Object.keys(whiskConfig.copyToSource)`. */
    method CopyToSourcePatterns(m: ModuleDir, glob: Glob, env: Env, copy: Json) returns (error: Option<string>)
      modifies this
      ensures Run(State(), error) == CopyToSource(old(State()), m, glob, env, copy)
    {
      var patterns := OwnKeys(copy);
      ghost var step := (fs': Fs, pattern: string) => SyncPattern(fs', m, glob, env, copy, pattern);
      ghost var start := State();
      var i := 0;
      while i < |patterns|
        invariant 0 <= i <= |patterns|
        invariant Fold(start, patterns[..i], step) == Run(State(), None)
      {
        FoldSnoc(start, patterns, step, i);
        error := SyncOnePattern(m, glob, env, copy, patterns[i]);
        if error.Some? {
          FoldStops(start, patterns, step, i + 1);
          return error;
        }
        i := i + 1;
      }
      assert patterns[..i] == patterns;
      return None;
    }

    /** The copy loop at whisk/whisk.js:263-304. */
    method CopyClassified(m: ModuleDir, env: Env, roots: PackRoots, net: seq<string>) returns (error: Option<string>)
      modifies this
      ensures Run(State(), error)
           == Fold(old(State()), net, (fs': Fs, file: string) => ClassifyFile(fs', m, env, roots, file))
    {
      ghost var step := (fs': Fs, file: string) => ClassifyFile(fs', m, env, roots, file);
      ghost var start := State();
      var i := 0;
      while i < |net|
        invariant 0 <= i <= |net|
        invariant Fold(start, net[..i], step) == Run(State(), None)
      {
        FoldSnoc(start, net, step, i);
        var file := net[i];
        if file !in m.entries {
          error := Some(NoEntryError);
        } else if m.entries[file].Dir? {
          error := None;
        } else {
          var absPath := env.paths.normalize(env.paths.join([m.dir, file]));
          var target := TargetPath(absPath, roots, env.paths);
          if target.Some? {
            error := Place(target.value, Ok(m.entries[file].text), env.paths, env.parse, env.stringify);
          } else {
            error := None;
          }
        }
        if error.Some? {
          FoldStops(start, net, step, i + 1);
          return error;
        }
        i := i + 1;
      }
      assert net[..i] == net;
      return None;
    }

    /** The callback of the main `filterFiles` call. */
    method ComposeNet(m: ModuleDir, env: Env, net: seq<string>) returns (error: Option<string>)
      modifies this
      ensures Run(State(), error) == ComposeFiles(old(State()), m, env, net)
    {
      if "config.json" !in net {
        return None;
      }
      var config := ReadConfig(m.entries, "config.json", env.parse);
      if config.Err? {
        return Some(config.message);
      }
      var roots := PackRootsFrom(config.value, m.dir, env.paths);
      if roots.Err? {
        return Some(roots.message);
      }
      var projectConfig := ProjectConfig(State(), env, config.value);
      if projectConfig.Err? {
        return Some(projectConfig.message);
      }
      var check := CheckFiltersRun(config.value, projectConfig.value);
      if check.Err? {
        return Some(check.message);
      }
      error := CopyClassified(m, env, roots.value, net);
    }

    /** `whiskIt(dir, settings, module)`. */
    method WhiskIt(m: ModuleDir, glob: Glob, env: Env) returns (error: Option<string>)
      modifies this
      ensures Run(State(), error) == WhiskItSpec(old(State()), m, glob, env)
    {
      var wc := LoadWhiskConfig(m, env.parse);
      if wc.Err? {
        return Some(wc.message);
      }
      error := CopyToSourcePatterns(m, glob, env, wc.value.copyToSource.value);
      if error.Some? {
        return;
      }
      var includes := PatternList(wc.value.includes);
      var excludes := PatternList(wc.value.excludes);
      if includes.Err? {
        return Some(includes.message);
      }
      if excludes.Err? {
        return Some(excludes.message);
      }
      var net := FilterFiles(includes.value, excludes.value, glob);
      if net.Err? {
        return Some(net.message);
      }
      error := ComposeNet(m, env, net.value);
    }
  }

  /** The filter-dependency check with its two `push` loops run as loops. */
  method CheckFiltersRun(config: Json, projectConfig: Option<Json>) returns (r: Result<seq<string>>)
    ensures r == CheckFilters(config, projectConfig)
  {
    var inputs := FilterGate(config);
    if projectConfig.None? || inputs.None? {
      return Ok([]);
    }
    var pc := projectConfig.value;
    var names := ProjectFilterNames(pc);
    if names.Err? {
      return Err(names.message);
    }
    var used := Collect(names.value, (f: string) => ProjectUses(pc, f));
    if used.Err? {
      return Err(used.message);
    }
    var defs := inputs.value.defs;
    var defaultFilters := inputs.value.defaultFilters;
    var usedNames := used.value;
    var missing := Collect(OwnKeys(defs), (f: string) => ModuleMisses(defs, defaultFilters, usedNames, f));
    if missing.Err? {
      return Err(missing.message);
    }
    if |missing.value| > 0 {
      return Err(MissingFiltersMessage(missing.value));
    }
    return Ok(used.value);
  }
}
