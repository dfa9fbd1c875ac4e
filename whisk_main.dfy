/**
 * The entry point of whisk (whisk/main.js): settings from the first argument,
 * the cache directory, then for each module in order its cache checkout
 * (clone, or fetch with one wipe-and-reclone recovery), its target
 * sub-directory and `whiskIt`; any exception ends the run with status 1.
 *
 * Git is a fake: every command is recorded in an event log and its outcome is
 * an input `Exec`, which may depend on the command and on how many events came
 * before it. The files a checkout leaves in a directory are an input too.
 */
module WhiskMain {
  import opened Wrappers
  import opened Text
  import opened WhiskJson
  import opened WhiskGit
  import opened WhiskModels
  import opened WhiskFilter
  import opened WhiskCompose
  import opened WhiskTree

  /** A shell command and the directory it runs in (`None`: the process's own). */
  datatype Cmd = Cmd(line: string, cwd: Option<string>)

  /** What the run does, in order: commands, cache removals, skipped modules, `whiskIt` calls. */
  datatype Event = Ran(cmd: Cmd) | Removed(dir: string) | Skipped(name: string) | Whisked(dir: string)

  datatype World = World(fs: Fs, events: seq<Event>)

  /** The world after a step and the exception it raised, if any. */
  datatype Outcome = Outcome(w: World, error: Option<string>)

  /** The outcome of `execSync(cmd)`, given the number of events before it: its output or a failure. */
  type Exec = (Cmd, nat) -> Result<string>

  /**
   * The surroundings of the run: `ROOT_DIR` and the `path`/`JSON` functions,
   * the MD5 hex digest, the fake `execSync`, the entries a checkout leaves at a
   * path (`None`: nothing there), `glob` rooted at a directory, and how a
   * template literal prints a number, array or object.
   */
  datatype Host = Host(env: Env, md5hex: string -> string, exec: Exec,
                       checkouts: string -> Option<map<string, Entry>>,
                       globIn: string -> Glob, show: Json -> string)

  function Logged(w: World, e: Event): (r: World)
    ensures r.fs == w.fs && r.events == w.events + [e]
  {
    World(w.fs, w.events + [e])
  }

  /** Every event after the first `n` is a command. */
  ghost predicate OnlyCommandsAfter(events: seq<Event>, n: nat)
  {
    forall k :: n <= k < |events| ==> events[k].Ran?
  }

  // ---------------------------------------------------------------------------
  // The git operations of whisk/git.js as called by main.js

  function CloneCommand(url: string, dir: string): Cmd
  {
    Cmd("git clone " + url + " " + dir, None)
  }

  /** `clone(url, dir)`: the directory exists afterwards exactly when the command succeeds. */
  function CloneSpec(w: World, url: string, dir: string, h: Host): (r: Outcome)
    ensures w.events <= r.w.events && OnlyCommandsAfter(r.w.events, |w.events|)
    ensures r.error.None? <==> url != "" && h.exec(CloneCommand(url, dir), |w.events|).Ok?
    ensures r.error.None? ==> r.w.fs == Fs(w.fs.files, w.fs.dirs + {dir})
    ensures r.error.Some? ==> r.w.fs == w.fs
  {
    var guard := CloneGuard(Some(url));
    if guard.Err? then Outcome(w, Some(guard.message))
    else
      var c := CloneCommand(url, dir);
      var w1 := Logged(w, Ran(c));
      if h.exec(c, |w.events|).Err? then Outcome(w1, Some("Failed to clone " + url))
      else Outcome(World(Fs(w1.fs.files, w1.fs.dirs + {dir}), w1.events), None)
  }

  /** How `${version}` prints a module's version. */
  function Render(v: Option<Json>, show: Json -> string): string
  {
    match v
    case None => "undefined"
    case Some(Null) => "null"
    case Some(Bool(b)) => if b then "true" else "false"
    case Some(Str(s)) => s
    case Some(other) => show(other)
  }

  function LsRemoteCommand(url: Option<string>): Cmd
  {
    Cmd("git ls-remote " + VersionText(url) + " HEAD", None)
  }

  function CheckoutCommand(dir: string, ref: string): Cmd
  {
    Cmd("git checkout " + ref, Some(dir))
  }

  /** `git checkout <ref>` in `dir`. */
  function CheckoutTo(w: World, dir: string, ref: string, h: Host): (r: Outcome)
    ensures r.w == Logged(w, Ran(CheckoutCommand(dir, ref)))
    ensures r.error.None? <==> h.exec(CheckoutCommand(dir, ref), |w.events|).Ok?
  {
    var c := CheckoutCommand(dir, ref);
    var w1 := Logged(w, Ran(c));
    if h.exec(c, |w.events|).Err? then Outcome(w1, Some("Failed to checkout " + ref)) else Outcome(w1, None)
  }

  /**
   * `checkout(dir, version, url)`: the version `"HEAD"` is first resolved with
   * `git ls-remote <url> HEAD`, read with the corrected `HeadSha` (the hash on the
   * first line of the output).
   */
  function CheckoutSpec(w: World, dir: string, version: Option<Json>, url: Option<string>, h: Host): (r: Outcome)
    ensures r.w.fs == w.fs
    ensures w.events <= r.w.events && OnlyCommandsAfter(r.w.events, |w.events|)
  {
    if version == Some(Str("HEAD")) then
      var c := LsRemoteCommand(url);
      var w1 := Logged(w, Ran(c));
      var out := h.exec(c, |w.events|);
      if out.Err? then Outcome(w1, Some("Failed to get HEAD SHA for " + VersionText(url)))
      else CheckoutTo(w1, dir, HeadSha(out.value), h)
    else CheckoutTo(w, dir, Render(version, h.show), h)
  }

  /** The first command `checkout` runs. */
  function CheckoutFirst(dir: string, version: Option<Json>, url: Option<string>, show: Json -> string): Cmd
  {
    if version == Some(Str("HEAD")) then LsRemoteCommand(url) else CheckoutCommand(dir, Render(version, show))
  }

  /**
   * The error `fetch` raises when `git fetch` fails: its message names a
   * variable `version` that `fetch` does not have, so the `throw` itself
   * raises a `ReferenceError`.
   */
  const FetchError: string := "ReferenceError: version is not defined"

  const FetchCommandLine: string := "git fetch"

  /**
   * `fetch(dir)` as main.js calls it, with no cooldown: the gate never skips
   * (`MissingCooldownNeverSkips`), so `git fetch` always runs.
   */
  function FetchSpec(w: World, dir: string, h: Host): (r: Outcome)
    ensures r.w == Logged(w, Ran(Cmd(FetchCommandLine, Some(dir))))
    ensures r.error.Some? <==> h.exec(Cmd(FetchCommandLine, Some(dir)), |w.events|).Err?
  {
    var c := Cmd(FetchCommandLine, Some(dir));
    var w1 := Logged(w, Ran(c));
    if h.exec(c, |w.events|).Err? then Outcome(w1, Some(FetchError)) else Outcome(w1, None)
  }

  /** `p` is `dir` or lies below it. */
  predicate Under(p: string, dir: string)
  {
    p == dir || StartsWith(p, dir + "/")
  }

  /** `fs.rmSync(dir, { recursive: true })`. */
  function RemoveSpec(w: World, dir: string): (r: World)
    ensures !Exists(r.fs, dir)
    ensures forall p :: p in w.fs.files && !Under(p, dir) ==> p in r.fs.files && r.fs.files[p] == w.fs.files[p]
    ensures r.events == w.events + [Removed(dir)]
  {
    World(Fs(map p | p in w.fs.files && !Under(p, dir) :: w.fs.files[p],
             set d | d in w.fs.dirs && !Under(d, dir)),
          w.events + [Removed(dir)])
  }

  /** The fetch and checkout attempted on a cache directory that exists. */
  function Refresh(w: World, dir: string, version: Option<Json>, h: Host): (r: Outcome)
    ensures r.w.fs == w.fs
    ensures w.events <= r.w.events && OnlyCommandsAfter(r.w.events, |w.events|)
  {
    var f := FetchSpec(w, dir, h);
    if f.error.Some? then f else CheckoutSpec(f.w, dir, version, None, h)
  }

  /** Clone then checkout, with nothing to catch a failure. */
  function Fresh(w: World, url: string, dir: string, version: Option<Json>, h: Host): (r: Outcome)
    ensures w.events <= r.w.events && OnlyCommandsAfter(r.w.events, |w.events|)
    ensures r.error.None? ==> r.w.fs == Fs(w.fs.files, w.fs.dirs + {dir})
    ensures CloneSpec(w, url, dir, h).error.Some? ==> r == CloneSpec(w, url, dir, h)
  {
    var c := CloneSpec(w, url, dir, h);
    if c.error.Some? then c else CheckoutSpec(c.w, dir, version, None, h)
  }

  /** whisk/main.js:29-43: bring the cache directory of a module to its version. */
  function PrepareSpec(w: World, url: string, dir: string, version: Option<Json>, h: Host): (r: Outcome)
    ensures w.events <= r.w.events
  {
    if !Exists(w.fs, dir) then Fresh(w, url, dir, version, h)
    else
      var first := Refresh(w, dir, version, h);
      if first.error.None? then first
      else Fresh(RemoveSpec(first.w, dir), url, dir, version, h)
  }

  // ---------------------------------------------------------------------------
  // One module, all modules, the whole run

  /** `module.name` when it is a string, the only kind `getCachedRepoDir` accepts. */
  function NameText(name: Option<Json>): Option<string>
  {
    if name.Some? && name.value.Str? then Some(name.value.s) else None
  }

  /** `whiskIt(d, settings, module)` on what the checkout holds at `d`; a missing path reads as empty. */
  function WhiskAt(w: World, d: string, h: Host): (r: Outcome)
    ensures r.w.events == w.events + [Whisked(d)]
  {
    var m := ModuleDir(d, h.checkouts(d).GetOr(map[]));
    var run := WhiskItSpec(w.fs, m, h.globIn(d), h.env);
    Outcome(World(run.fs, w.events + [Whisked(d)]), run.error)
  }

  function MissingTargetError(name: string, target: string): string
  {
    "Module " + name + " does not have a target directory " + target
  }

  /** The body of the loop at whisk/main.js:21-52 for one module. */
  function ModuleSpec(w: World, item: Json, h: Host): (r: Outcome)
    ensures w.events <= r.w.events
  {
    var name := Get(Some(item), "name");
    if name.Err? then Outcome(w, Some(name.message))
    else
      var repo := NameText(name.value);
      var dir := CachedRepoDir(h.env.root, h.md5hex, repo);
      if dir.Err? then Outcome(w, Some(dir.message))
      else
        var data := MakeGitURL(repo);
        if data.Err? then Outcome(w, Some(data.message))
        else if data.value.None? then Outcome(Logged(w, Skipped(repo.value)), None)
        else
          LocatedSpec(w, repo.value, dir.value, data.value.value, Field(item, "version"), h)
  }

  /** A module with a locator: its checkout, the target check and `whiskIt` (whisk/main.js:28-51). */
  function LocatedSpec(w: World, name: string, dir: string, loc: Locator, version: Option<Json>, h: Host): (r: Outcome)
    ensures PrepareSpec(w, loc.url, dir, version, h).w.events <= r.w.events
    ensures w.events <= r.w.events
  {
    var p := PrepareSpec(w, loc.url, dir, version, h);
    if p.error.Some? then p
    else if loc.subdir.Some? && loc.subdir.value != "" then
      var sub := h.env.paths.join([dir, loc.subdir.value]);
      if h.checkouts(sub).None? then Outcome(p.w, Some(MissingTargetError(name, loc.subdir.value)))
      else WhiskAt(p.w, sub, h)
    else WhiskAt(p.w, dir, h)
  }

  /** The modules in list order; the first exception ends the loop. */
  function RunAll(w: World, mods: seq<Json>, h: Host): (r: Outcome)
    ensures w.events <= r.w.events
  {
    if |mods| == 0 then Outcome(w, None)
    else
      var before := RunAll(w, mods[..|mods| - 1], h);
      if before.error.Some? then before else ModuleSpec(before.w, mods[|mods| - 1], h)
  }

  /** `for (const module of settings.modules)`: an array's items, a string's characters, otherwise a `TypeError`. */
  function ModuleList(modules: Json): (r: Result<seq<Json>>)
    ensures modules.Arr? ==> r == Ok(modules.items)
    ensures r.Err? <==> !modules.Arr? && !modules.Str?
  {
    match modules
    case Arr(items) => Ok(items)
    case Str(s) => Ok(seq(|s|, (k: int) requires 0 <= k < |s| => Str([s[k]])))
    case _ => Err("TypeError: settings.modules is not iterable")
  }

  function CacheDir(env: Env): string
  {
    env.paths.join([env.root, ".whisk/cache"])
  }

  function GitIgnorePath(env: Env): string
  {
    env.paths.join([env.root, ".whisk/cache/.gitignore"])
  }

  /** whisk/main.js:15-18. */
  function EnsureCacheDir(fs: Fs, env: Env): Fs
  {
    if Exists(fs, CacheDir(env)) then fs
    else Fs(fs.files[GitIgnorePath(env) := "cache"], fs.dirs + {CacheDir(env)})
  }

  /** JavaScript's `ToInt32` toward zero, then modulo 2^32. */
  function Wrap32(r: real): bv32
  {
    var t := if r >= 0.0 then r.Floor else -((-r).Floor);
    (t % 0x1_0000_0000) as bv32
  }

  /**
   * `ToInt32` of a value, as `|` applies it; strings and arrays go through a
   * numeric conversion that is an input, an object converts to `NaN`.
   */
  function ToInt32(v: Option<Json>, numeric: Json -> bv32): bv32
  {
    match v
    case None => 0
    case Some(Null) => 0
    case Some(Bool(b)) => if b then 1 else 0
    case Some(Num(r)) => Wrap32(r)
    case Some(Obj(_)) => 0
    case Some(other) => numeric(other)
  }

  /** `settings.debug | process.env.DEBUG`, as a truth value. */
  predicate DebugOn(debug: Json, envDebug: Option<string>, numeric: Json -> bv32)
  {
    var e := if envDebug.Some? then Some(Str(envDebug.value)) else None;
    ToInt32(Some(debug), numeric) | ToInt32(e, numeric) != 0
  }

  /** How the process ends: normally, through the `catch` (the whole error in debug mode, else the message), or before the `try`. */
  datatype Exit = Completed | Reported(message: string, full: bool) | Uncaught(message: string) {
    function Status(): int
    {
      if Completed? then 0 else 1
    }
  }

  datatype Finish = Finish(w: World, exit: Exit)

  /** whisk/main.js as a whole, given `process.argv[2]` and `process.env.DEBUG`. */
  function MainSpec(w: World, arg: string, envDebug: Option<string>, h: Host, numeric: Json -> bv32): (r: Finish)
    ensures w.events <= r.w.events
  {
    var json := h.env.parse(arg);
    if json.Err? then Finish(w, Uncaught(json.message))
    else
      var settings := SettingsFrom(json.value);
      if settings.Err? then Finish(w, Uncaught(settings.message))
      else
        var debug := DebugOn(settings.value.debug, envDebug, numeric);
        var w0 := World(EnsureCacheDir(w.fs, h.env), w.events);
        var mods := ModuleList(settings.value.modules);
        if mods.Err? then Finish(w0, Reported(mods.message, debug))
        else
          var r := RunAll(w0, mods.value, h);
          if r.error.Some? then Finish(r.w, Reported(r.error.value, debug)) else Finish(r.w, Completed)
  }

  // ---------------------------------------------------------------------------
  // What the run promises

  /** Running `a` then `b` is running `a + b`; an error in `a` means `b` never starts. */
  lemma {:induction false} RunAllAppend(w: World, a: seq<Json>, b: seq<Json>, h: Host)
    ensures RunAll(w, a + b, h) == (var r := RunAll(w, a, h); if r.error.Some? then r else RunAll(r.w, b, h))
  {
    if |b| == 0 {
      assert a + b == a;
    } else {
      var b' := b[..|b| - 1];
      assert (a + b)[..|a + b| - 1] == a + b';
      assert (a + b)[|a + b| - 1] == b[|b| - 1];
      RunAllAppend(w, a, b', h);
    }
  }

  lemma {:induction false} RunAllSticks(w: World, mods: seq<Json>, k: nat, h: Host)
    requires k <= |mods| && RunAll(w, mods[..k], h).error.Some?
    ensures RunAll(w, mods, h) == RunAll(w, mods[..k], h)
  {
    if k < |mods| {
      var init := mods[..|mods| - 1];
      assert init[..k] == mods[..k];
      RunAllSticks(w, init, k, h);
    } else {
      assert mods[..k] == mods;
    }
  }

  /** After a module fails, the later modules do nothing. */
  lemma StopsAtFirstError(w: World, a: seq<Json>, b: seq<Json>, h: Host)
    requires RunAll(w, a, h).error.Some?
    ensures RunAll(w, a + b, h) == RunAll(w, a, h)
  {
    RunAllAppend(w, a, b, h);
  }

  /**
   * Modules run strictly in order: everything the earlier modules did,
   * `whiskIt` included, is logged before anything of the later ones.
   */
  lemma ModulesInOrder(w: World, a: seq<Json>, b: seq<Json>, h: Host)
    ensures RunAll(w, a, h).w.events <= RunAll(w, a + b, h).w.events
  {
    RunAllAppend(w, a, b, h);
  }

  /** A module whose name resolves to no locator is logged and skipped: nothing else happens and the loop goes on. */
  lemma InvalidRepoSkipped(w: World, props: seq<(string, Json)>, s: string, h: Host)
    requires Lookup(props, "name") == Some(Str(s))
    requires MakeGitURL(Some(s)) == Ok(None)
    ensures ModuleSpec(w, Obj(props), h) == Outcome(Logged(w, Skipped(s)), None)
  {
    assert Get(Some(Obj(props)), "name") == Ok(Some(Str(s)));
  }

  lemma SkippedContinues(w: World, a: seq<Json>, props: seq<(string, Json)>, s: string, b: seq<Json>, h: Host)
    requires RunAll(w, a, h).error.None?
    requires Lookup(props, "name") == Some(Str(s))
    requires MakeGitURL(Some(s)) == Ok(None)
    ensures RunAll(w, a + [Obj(props)] + b, h) == RunAll(Logged(RunAll(w, a, h).w, Skipped(s)), b, h)
  {
    RunAllAppend(w, a, [Obj(props)], h);
    assert [Obj(props)][..0] == [];
    InvalidRepoSkipped(RunAll(w, a, h).w, props, s, h);
    RunAllAppend(w, a + [Obj(props)], b, h);
  }

  /** A name that is neither a GitHub short form nor an http(s) URL is skipped. */
  lemma PlainNameSkipped(w: World, h: Host)
    ensures ModuleSpec(w, Obj([("name", Str("repo"))]), h) == Outcome(Logged(w, Skipped("repo")), None)
  {
    assert !MatchesGitHubPath("repo") by {
      assert Split("repo", '/') == ["repo"] by { SplitNoSeparator("repo", '/'); }
    }
    assert !StartsWith("repo", "http://") && !StartsWith("repo", "https://") by {
      assert "repo"[0] != "http://"[0];
    }
    NeitherFormIsNull("repo");
    assert Lookup([("name", Str("repo"))], "name") == Some(Str("repo"));
    InvalidRepoSkipped(w, [("name", Str("repo"))], "repo", h);
  }

  /** A module without a string name throws (the hash accepts no `undefined`), which ends the run. */
  lemma NamelessModuleThrows(w: World, props: seq<(string, Json)>, h: Host)
    requires Lookup(props, "name").None?
    ensures ModuleSpec(w, Obj(props), h).error.Some?
    ensures ModuleSpec(w, Obj(props), h).w == w
  {
  }

  /** A missing cache directory is cloned first; if that works, the checkout follows; nothing is removed. */
  lemma AbsentDirClones(w: World, url: string, dir: string, version: Option<Json>, h: Host)
    requires !Exists(w.fs, dir) && url != ""
    ensures var r := PrepareSpec(w, url, dir, version, h);
            && |r.w.events| > |w.events|
            && r.w.events[|w.events|] == Ran(CloneCommand(url, dir))
            && OnlyCommandsAfter(r.w.events, |w.events|)
    ensures h.exec(CloneCommand(url, dir), |w.events|).Ok? ==>
              var r := PrepareSpec(w, url, dir, version, h);
              |r.w.events| > |w.events| + 1 && r.w.events[|w.events| + 1] == Ran(CheckoutFirst(dir, version, None, h.show))
  {
    var c := CloneSpec(w, url, dir, h);
    if c.error.None? {
      var r := CheckoutSpec(c.w, dir, version, None, h);
      assert r.w.events[|w.events|] == c.w.events[|w.events|];
    }
  }

  /** An existing cache directory is fetched first, and checked out when the fetch works. */
  lemma PresentDirFetches(w: World, url: string, dir: string, version: Option<Json>, h: Host)
    requires Exists(w.fs, dir)
    ensures var r := PrepareSpec(w, url, dir, version, h);
            |r.w.events| > |w.events| && r.w.events[|w.events|] == Ran(Cmd(FetchCommandLine, Some(dir)))
    ensures h.exec(Cmd(FetchCommandLine, Some(dir)), |w.events|).Ok? ==>
              var r := PrepareSpec(w, url, dir, version, h);
              |r.w.events| > |w.events| + 1 && r.w.events[|w.events| + 1] == Ran(CheckoutFirst(dir, version, None, h.show))
  {
    var first := Refresh(w, dir, version, h);
    var f := FetchSpec(w, dir, h);
    assert first.w.events[|w.events|] == f.w.events[|w.events|];
    if f.error.None? {
      assert first.w.events[|w.events| + 1] == CheckoutSpec(f.w, dir, version, None, h).w.events[|f.w.events|];
    }
    if first.error.Some? {
      var removed := RemoveSpec(first.w, dir);
      var r := Fresh(removed, url, dir, version, h);
      assert r.w.events[|w.events|] == removed.events[|w.events|] == first.w.events[|w.events|];
      if f.error.None? {
        assert r.w.events[|w.events| + 1] == first.w.events[|w.events| + 1];
      }
    }
  }

  /**
   * The recovery of whisk/main.js:36-41 happens exactly when fetch-and-checkout
   * fails, removes the directory once and is not itself protected: when it
   * fails too, the error is that of the second clone or checkout.
   */
  lemma RecoveryOnce(w: World, url: string, dir: string, version: Option<Json>, h: Host)
    requires Exists(w.fs, dir)
    ensures var r := PrepareSpec(w, url, dir, version, h);
            var first := Refresh(w, dir, version, h);
            && (first.error.None? ==> r == first && Removed(dir) !in r.w.events[|w.events|..])
            && (first.error.Some? ==> r == Fresh(RemoveSpec(first.w, dir), url, dir, version, h)
                                      && r.w.events[|first.w.events|] == Removed(dir)
                                      && OnlyCommandsAfter(r.w.events, |first.w.events| + 1))
  {
    var first := Refresh(w, dir, version, h);
    if first.error.None? {
      assert forall k :: 0 <= k < |first.w.events[|w.events|..]| ==> first.w.events[|w.events|..][k].Ran? by {
        forall k | 0 <= k < |first.w.events[|w.events|..]| ensures first.w.events[|w.events|..][k].Ran? {
          assert first.w.events[|w.events|..][k] == first.w.events[|w.events| + k];
        }
      }
    }
  }

  /** The fetch failure's message never escapes: the `catch` discards it. */
  lemma FetchErrorSwallowed(w: World, url: string, dir: string, version: Option<Json>, h: Host)
    ensures PrepareSpec(w, url, dir, version, h).error != Some(FetchError)
  {
    var first := Refresh(w, dir, version, h);
    if Exists(w.fs, dir) && first.error.Some? {
      var removed := RemoveSpec(first.w, dir);
      CloneNotFetchError(removed, url, dir, h);
      var c := CloneSpec(removed, url, dir, h);
      if c.error.None? {
        CheckoutNotFetchError(c.w, dir, version, h);
      }
    } else if !Exists(w.fs, dir) {
      CloneNotFetchError(w, url, dir, h);
      var c := CloneSpec(w, url, dir, h);
      if c.error.None? {
        CheckoutNotFetchError(c.w, dir, version, h);
      }
    }
  }

  lemma CloneNotFetchError(w: World, url: string, dir: string, h: Host)
    ensures CloneSpec(w, url, dir, h).error != Some(FetchError)
  {
    assert FetchError[0] == 'R';
    var e := CloneSpec(w, url, dir, h).error;
    if e.Some? {
      assert e.value[0] == 'I' || e.value[0] == 'F';
    }
  }

  lemma CheckoutNotFetchError(w: World, dir: string, version: Option<Json>, h: Host)
    ensures CheckoutSpec(w, dir, version, None, h).error != Some(FetchError)
  {
    assert FetchError[0] == 'R';
    var e := CheckoutSpec(w, dir, version, None, h).error;
    if e.Some? {
      assert e.value[0] == 'F';
    }
  }

  /** A successful preparation leaves the cache directory in place. */
  lemma PreparedDirExists(w: World, url: string, dir: string, version: Option<Json>, h: Host)
    requires PrepareSpec(w, url, dir, version, h).error.None?
    ensures Exists(PrepareSpec(w, url, dir, version, h).w.fs, dir)
  {
  }

  /** The `ls-remote` command line for the missing URL. */
  lemma LsRemoteUndefined()
    ensures LsRemoteCommand(None) == Cmd("git ls-remote undefined HEAD", None)
  {
    assert LsRemoteCommand(None).line == "git ls-remote " + "undefined" + " HEAD";
  }

  /** `checkout` gets no URL from main.js, so a `"HEAD"` version asks `git ls-remote` about `undefined`. */
  lemma HeadCheckoutQueriesUndefined(w: World, dir: string, h: Host)
    ensures var r := CheckoutSpec(w, dir, Some(Str("HEAD")), None, h);
            |r.w.events| > |w.events| && r.w.events[|w.events|] == Ran(Cmd("git ls-remote undefined HEAD", None))
  {
    var c := LsRemoteCommand(None);
    LsRemoteUndefined();
    var w1 := Logged(w, Ran(c));
    assert w1.events[|w.events|] == Ran(c);
    var out := h.exec(c, |w.events|);
    if out.Ok? {
      var r := CheckoutTo(w1, dir, HeadSha(out.value), h);
      assert r.w.events[|w.events|] == Ran(c);
    }
  }

  /**
   * On the one-line answer `sha<TAB>HEAD<LF>` of `git ls-remote`, the `"HEAD"`
   * checkout runs `git checkout sha` (where the expression as written would give
   * the empty ref, `WhiskGit.HeadShaReadsWrongLine`).
   */
  lemma HeadOneLineChecksOutHash(w: World, dir: string, url: Option<string>, sha: string, h: Host)
    requires forall k :: 0 <= k < |sha| ==> IsHexDigit(sha[k])
    requires h.exec(LsRemoteCommand(url), |w.events|) == Ok(sha + "\tHEAD\n")
    ensures CheckoutSpec(w, dir, Some(Str("HEAD")), url, h).w.events
         == w.events + [Ran(LsRemoteCommand(url)), Ran(CheckoutCommand(dir, sha))]
  {
    HeadShaReadsWrongLine(sha, VersionText(url));
  }

  /** A named module with a locator goes on to its checkout in the cache directory of its raw name. */
  lemma ModuleLocates(w: World, props: seq<(string, Json)>, s: string, loc: Locator, h: Host)
    requires Lookup(props, "name") == Some(Str(s))
    requires MakeGitURL(Some(s)) == Ok(Some(loc))
    ensures ModuleSpec(w, Obj(props), h)
         == LocatedSpec(w, s, h.env.root + "/.whisk/cache/" + h.md5hex(s), loc, Lookup(props, "version"), h)
  {
    assert Get(Some(Obj(props)), "name") == Ok(Some(Str(s)));
    assert Field(Obj(props), "version") == Lookup(props, "version");
  }

  /**
   * The cache key is the raw `module.name`: the clone of a fresh module goes
   * to `<root>/.whisk/cache/<md5(name)>`, whatever URL the name resolves to.
   */
  lemma CloneUsesRawName(w: World, props: seq<(string, Json)>, s: string, loc: Locator, h: Host)
    requires Lookup(props, "name") == Some(Str(s))
    requires MakeGitURL(Some(s)) == Ok(Some(loc)) && loc.url != ""
    requires !Exists(w.fs, h.env.root + "/.whisk/cache/" + h.md5hex(s))
    ensures var r := ModuleSpec(w, Obj(props), h);
            |r.w.events| > |w.events|
            && r.w.events[|w.events|] == Ran(CloneCommand(loc.url, h.env.root + "/.whisk/cache/" + h.md5hex(s)))
  {
    var dir := h.env.root + "/.whisk/cache/" + h.md5hex(s);
    var version := Lookup(props, "version");
    ModuleLocates(w, props, s, loc, h);
    AbsentDirClones(w, loc.url, dir, version, h);
    var p := PrepareSpec(w, loc.url, dir, version, h).w.events;
    var r := LocatedSpec(w, s, dir, loc, version, h).w.events;
    assert p <= r;
    assert r[|w.events|] == p[|w.events|];
  }

  /** A locator sub-directory the checkout lacks throws before `whiskIt` runs. */
  lemma MissingTargetThrows(w: World, name: string, dir: string, loc: Locator, version: Option<Json>, h: Host)
    requires loc.subdir.Some? && loc.subdir.value != ""
    requires PrepareSpec(w, loc.url, dir, version, h).error.None?
    requires h.checkouts(h.env.paths.join([dir, loc.subdir.value])).None?
    ensures var r := LocatedSpec(w, name, dir, loc, version, h);
            && r.error == Some(MissingTargetError(name, loc.subdir.value))
            && r.w == PrepareSpec(w, loc.url, dir, version, h).w
  {
  }

  /** After a good checkout, `whiskIt` runs on `dir/target`, or on `dir` without a target, as the module's last event. */
  lemma WhiskedWhere(w: World, name: string, dir: string, loc: Locator, version: Option<Json>, h: Host)
    requires PrepareSpec(w, loc.url, dir, version, h).error.None?
    ensures var r := LocatedSpec(w, name, dir, loc, version, h);
            && (loc.subdir.None? || loc.subdir.value == "" ==>
                  |r.w.events| > 0 && r.w.events[|r.w.events| - 1] == Whisked(dir))
            && (loc.subdir.Some? && loc.subdir.value != "" && h.checkouts(h.env.paths.join([dir, loc.subdir.value])).Some? ==>
                  |r.w.events| > 0 && r.w.events[|r.w.events| - 1] == Whisked(h.env.paths.join([dir, loc.subdir.value])))
  {
  }

  /** The cache directory and its `.gitignore` holding `cache` are created only when the directory is missing. */
  lemma CacheDirCreated(fs: Fs, env: Env)
    ensures Exists(EnsureCacheDir(fs, env), CacheDir(env))
    ensures !Exists(fs, CacheDir(env)) ==> EnsureCacheDir(fs, env).files[GitIgnorePath(env)] == "cache"
    ensures Exists(fs, CacheDir(env)) ==> EnsureCacheDir(fs, env) == fs
    ensures EnsureCacheDir(EnsureCacheDir(fs, env), env) == EnsureCacheDir(fs, env)
  {
  }

  /** The exit status is 1 exactly when something threw: the arguments, the module list or a module. */
  lemma ExitStatus(w: World, arg: string, envDebug: Option<string>, h: Host, numeric: Json -> bv32)
    ensures var r := MainSpec(w, arg, envDebug, h, numeric);
            r.exit.Status() == 0 <==>
              && h.env.parse(arg).Ok?
              && SettingsFrom(h.env.parse(arg).value).Ok?
              && ModuleList(SettingsFrom(h.env.parse(arg).value).value.modules).Ok?
              && RunAll(World(EnsureCacheDir(w.fs, h.env), w.events),
                        ModuleList(SettingsFrom(h.env.parse(arg).value).value.modules).value, h).error.None?
  {
  }

  /** Inside the `try`, debug mode reports the whole error and otherwise only its message. */
  lemma ReportedInDebug(w: World, arg: string, envDebug: Option<string>, h: Host, numeric: Json -> bv32)
    requires MainSpec(w, arg, envDebug, h, numeric).exit.Reported?
    ensures var st := SettingsFrom(h.env.parse(arg).value).value;
            MainSpec(w, arg, envDebug, h, numeric).exit.full <==>
              ToInt32(Some(st.debug), numeric) != 0 || ToInt32(if envDebug.Some? then Some(Str(envDebug.value)) else None, numeric) != 0
  {
    var st := SettingsFrom(h.env.parse(arg).value).value;
    DebugEither(st.debug, envDebug, numeric);
  }

  lemma DebugEither(debug: Json, envDebug: Option<string>, numeric: Json -> bv32)
    ensures DebugOn(debug, envDebug, numeric) <==>
              ToInt32(Some(debug), numeric) != 0 || ToInt32(if envDebug.Some? then Some(Str(envDebug.value)) else None, numeric) != 0
  {
  }

  /** `debug: true` turns debug mode on; `debug: 0.5` and `debug: 4294967296` do not, being 0 as 32-bit integers. */
  lemma DebugExamples(numeric: Json -> bv32)
    ensures DebugOn(Bool(true), None, numeric)
    ensures !DebugOn(Num(0.5), None, numeric)
    ensures !DebugOn(Num(4294967296.0), None, numeric)
  {
    WrapExamples();
    assert ToInt32(None, numeric) == 0;
    assert ToInt32(Some(Bool(true)), numeric) == 1;
    assert ToInt32(Some(Num(0.5)), numeric) == 0;
    assert ToInt32(Some(Num(4294967296.0)), numeric) == 0;
    OrZero(1);
    OrZero(0);
  }

  lemma OrZero(x: bv32)
    ensures x | 0 == x
  {
  }

  lemma WrapExamples()
    ensures Wrap32(0.5) == 0 && Wrap32(4294967296.0) == 0
  {
    assert 0.5.Floor == 0;
    assert 4294967296.0.Floor == 0x1_0000_0000;
  }

  // ---------------------------------------------------------------------------
  // The run as a program over the project tree

  class Runner {
    const tree: ProjectTree
    var events: seq<Event>

    function Current(): World
      reads this, tree
    {
      World(tree.State(), events)
    }

    constructor(tree: ProjectTree)
      ensures this.tree == tree && events == []
    {
      this.tree := tree;
      events := [];
    }

    /** The fake `execSync`: the command is logged and its outcome looked up. */
    method Exec(c: Cmd, h: Host) returns (out: Result<string>)
      modifies this
      ensures events == old(events) + [Ran(c)]
      ensures out == h.exec(c, |old(events)|)
    {
      out := h.exec(c, |events|);
      events := events + [Ran(c)];
    }

    method Clone(url: string, dir: string, h: Host) returns (error: Option<string>)
      modifies this, tree
      ensures Outcome(Current(), error) == CloneSpec(old(Current()), url, dir, h)
    {
      if url == "" {
        return Some("Invalid repo: " + url);
      }
      var out := Exec(CloneCommand(url, dir), h);
      if out.Err? {
        return Some("Failed to clone " + url);
      }
      tree.dirs := tree.dirs + {dir};
      return None;
    }

    method Checkout(dir: string, version: Option<Json>, url: Option<string>, h: Host) returns (error: Option<string>)
      modifies this
      ensures Outcome(Current(), error) == CheckoutSpec(old(Current()), dir, version, url, h)
    {
      var ref: string;
      if version == Some(Str("HEAD")) {
        var out := Exec(LsRemoteCommand(url), h);
        if out.Err? {
          return Some("Failed to get HEAD SHA for " + VersionText(url));
        }
        ref := HeadSha(out.value);
      } else {
        ref := Render(version, h.show);
      }
      var done := Exec(CheckoutCommand(dir, ref), h);
      if done.Err? {
        return Some("Failed to checkout " + ref);
      }
      return None;
    }

    method Fetch(dir: string, h: Host) returns (error: Option<string>)
      modifies this
      ensures Outcome(Current(), error) == FetchSpec(old(Current()), dir, h)
    {
      var out := Exec(Cmd(FetchCommandLine, Some(dir)), h);
      error := if out.Err? then Some(FetchError) else None;
    }

    method Remove(dir: string)
      modifies this, tree
      ensures Current() == RemoveSpec(old(Current()), dir)
    {
      tree.files := map p | p in tree.files && !Under(p, dir) :: tree.files[p];
      tree.dirs := set d | d in tree.dirs && !Under(d, dir);
      events := events + [Removed(dir)];
    }

    /** Clone and checkout, the second only when the first worked. */
    method CloneAndCheckout(url: string, dir: string, version: Option<Json>, h: Host) returns (error: Option<string>)
      modifies this, tree
      ensures Outcome(Current(), error) == Fresh(old(Current()), url, dir, version, h)
    {
      error := Clone(url, dir, h);
      if error.None? {
        error := Checkout(dir, version, None, h);
      }
    }

    method Prepare(url: string, dir: string, version: Option<Json>, h: Host) returns (error: Option<string>)
      modifies this, tree
      ensures Outcome(Current(), error) == PrepareSpec(old(Current()), url, dir, version, h)
    {
      if dir !in tree.files && dir !in tree.dirs {
        error := CloneAndCheckout(url, dir, version, h);
        return;
      }
      error := Fetch(dir, h);
      if error.None? {
        error := Checkout(dir, version, None, h);
      }
      if error.Some? {
        Remove(dir);
        error := CloneAndCheckout(url, dir, version, h);
      }
    }

    method Whisk(d: string, h: Host) returns (error: Option<string>)
      modifies this, tree
      ensures Outcome(Current(), error) == WhiskAt(old(Current()), d, h)
    {
      var entries := h.checkouts(d).GetOr(map[]);
      error := tree.WhiskIt(ModuleDir(d, entries), h.globIn(d), h.env);
      events := events + [Whisked(d)];
    }

    method ProcessModule(item: Json, h: Host) returns (error: Option<string>)
      modifies this, tree
      ensures Outcome(Current(), error) == ModuleSpec(old(Current()), item, h)
    {
      var name := Get(Some(item), "name");
      if name.Err? {
        return Some(name.message);
      }
      var repo := NameText(name.value);
      var dir := CachedRepoDir(h.env.root, h.md5hex, repo);
      if dir.Err? {
        return Some(dir.message);
      }
      var data := MakeGitURL(repo);
      if data.Err? {
        return Some(data.message);
      }
      if data.value.None? {
        events := events + [Skipped(repo.value)];
        return None;
      }
      var loc := data.value.value;
      error := Prepare(loc.url, dir.value, Field(item, "version"), h);
      if error.Some? {
        return;
      }
      if loc.subdir.Some? && loc.subdir.value != "" {
        var sub := h.env.paths.join([dir.value, loc.subdir.value]);
        if h.checkouts(sub).None? {
          return Some(MissingTargetError(repo.value, loc.subdir.value));
        }
        error := Whisk(sub, h);
      } else {
        error := Whisk(dir.value, h);
      }
    }

    /** The `for` loop over `settings.modules`. */
    method RunModules(mods: seq<Json>, h: Host) returns (error: Option<string>)
      modifies this, tree
      ensures Outcome(Current(), error) == RunAll(old(Current()), mods, h)
    {
      ghost var start := Current();
      var i := 0;
      while i < |mods|
        invariant 0 <= i <= |mods|
        invariant RunAll(start, mods[..i], h) == Outcome(Current(), None)
      {
        assert mods[..i + 1][..i] == mods[..i];
        error := ProcessModule(mods[i], h);
        if error.Some? {
          RunAllSticks(start, mods, i + 1, h);
          return;
        }
        i := i + 1;
      }
      assert mods[..i] == mods;
      return None;
    }

    /** whisk/main.js:15-18. */
    method EnsureCache(env: Env)
      modifies tree
      ensures tree.State() == EnsureCacheDir(old(tree.State()), env)
    {
      if CacheDir(env) !in tree.files && CacheDir(env) !in tree.dirs {
        tree.files := tree.files[GitIgnorePath(env) := "cache"];
        tree.dirs := tree.dirs + {CacheDir(env)};
      }
    }

    /** The whole of whisk/main.js. */
    method Run(arg: string, envDebug: Option<string>, h: Host, numeric: Json -> bv32) returns (exit: Exit)
      modifies this, tree
      ensures Finish(Current(), exit) == MainSpec(old(Current()), arg, envDebug, h, numeric)
    {
      var json := h.env.parse(arg);
      if json.Err? {
        return Uncaught(json.message);
      }
      var settings := SettingsFrom(json.value);
      if settings.Err? {
        return Uncaught(settings.message);
      }
      var debug := DebugOn(settings.value.debug, envDebug, numeric);
      EnsureCache(h.env);
      var mods := ModuleList(settings.value.modules);
      if mods.Err? {
        return Reported(mods.message, debug);
      }
      var error := RunModules(mods.value, h);
      exit := if error.Some? then Reported(error.value, debug) else Completed;
    }
  }
}
