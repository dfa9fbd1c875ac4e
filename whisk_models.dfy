/**
 * The `??`-defaulted records of whisk/models.js: `Settings`, `WhiskConfig`
 * and `Module`, built from a parsed JSON value. Reading a field of `null`
 * throws, which the constructors report as `Err`.
 */
module WhiskModels {
  import opened Wrappers
  import opened WhiskJson

  /** The fields of a `Settings` object; any JSON value given is kept as it is. */
  datatype Settings = Settings(modules: Json, debug: Json, fetchDelay: Json)

  const DefaultModules: Json := Arr([])
  const DefaultDebug: Json := Bool(false)
  const DefaultFetchDelay: Json := Num(5.0)

  /** `new Settings(json)`. */
  function SettingsFrom(json: Json): (r: Result<Settings>)
    ensures r.Err? <==> json.Null?
  {
    if json.Null? then Err(NullFieldError)
    else
      Ok(Settings(Coalesce(Field(json, "modules"), DefaultModules),
                  Coalesce(Field(json, "debug"), DefaultDebug),
                  Coalesce(Field(json, "fetchDelay"), DefaultFetchDelay)))
  }

  const NullFieldError: string := "TypeError: Cannot read properties of null"

  /** A settings object written back as JSON. */
  function SettingsJson(st: Settings): Json
  {
    Obj([("modules", st.modules), ("debug", st.debug), ("fetchDelay", st.fetchDelay)])
  }

  /**
   * Each field takes its default exactly when it is missing or `null`; any other
   * value, falsy ones such as `false` or `0` included, is kept.
   */
  lemma SettingsDefaults(props: seq<(string, Json)>)
    ensures var st := SettingsFrom(Obj(props)).value;
            && (Lookup(props, "modules").None? || Lookup(props, "modules") == Some(Null) ==> st.modules == DefaultModules)
            && (Lookup(props, "modules").Some? && Lookup(props, "modules") != Some(Null) ==> st.modules == Lookup(props, "modules").value)
            && (Lookup(props, "debug").None? || Lookup(props, "debug") == Some(Null) ==> st.debug == DefaultDebug)
            && (Lookup(props, "debug").Some? && Lookup(props, "debug") != Some(Null) ==> st.debug == Lookup(props, "debug").value)
            && (Lookup(props, "fetchDelay").None? || Lookup(props, "fetchDelay") == Some(Null) ==> st.fetchDelay == DefaultFetchDelay)
            && (Lookup(props, "fetchDelay").Some? && Lookup(props, "fetchDelay") != Some(Null) ==> st.fetchDelay == Lookup(props, "fetchDelay").value)
  {
  }

  /** `{"debug": false, "fetchDelay": 0}` keeps both falsy values. */
  lemma FalsySettingsKept()
    ensures SettingsFrom(Obj([("debug", Bool(false)), ("fetchDelay", Num(0.0))]))
         == Ok(Settings(DefaultModules, Bool(false), Num(0.0)))
  {
  }

  /** A JSON value that is not an object, such as a number, gives every default. */
  lemma ScalarSettingsAreDefaults(n: real)
    ensures SettingsFrom(Num(n)) == Ok(Settings(DefaultModules, DefaultDebug, DefaultFetchDelay))
  {
  }

  /** Reading back the JSON form of settings whose fields are not `null` gives the same settings. */
  lemma SettingsRoundTrip(st: Settings)
    requires !st.modules.Null? && !st.debug.Null? && !st.fetchDelay.Null?
    ensures SettingsFrom(SettingsJson(st)) == Ok(st)
  {
    var p := SettingsJson(st).props;
    assert p[1..] == [("debug", st.debug), ("fetchDelay", st.fetchDelay)];
    assert p[1..][1..] == [("fetchDelay", st.fetchDelay)];
    assert Lookup(p, "modules") == Some(st.modules);
    assert Lookup(p, "debug") == Some(st.debug);
    assert Lookup(p[1..], "fetchDelay") == Some(st.fetchDelay);
    assert Lookup(p, "fetchDelay") == Some(st.fetchDelay);
  }

  /**
   * The fields of a `WhiskConfig` object. `copyToSource` is `None` when the
   * object has no such field, which reads as `undefined`.
   */
  datatype WhiskConfig = WhiskConfig(includes: Json, excludes: Json, copyToSource: Option<Json>)

  const DefaultInclude: Json := Arr([Str("**/*")])
  const DefaultExclude: Json := Arr([])

  /** `new WhiskConfig(json)` as written: `include` and `exclude` only. */
  function WhiskConfigAsWritten(json: Json): (r: Result<WhiskConfig>)
    ensures r.Err? <==> json.Null?
    ensures r.Ok? ==> r.value.copyToSource.None?
  {
    if json.Null? then Err(NullFieldError)
    else Ok(WhiskConfig(Coalesce(Field(json, "include"), DefaultInclude), Coalesce(Field(json, "exclude"), DefaultExclude), None))
  }

  /**
   * As written, `Object.keys(whiskConfig.copyToSource)` at whisk/whisk.js:147
   * is `Object.keys(undefined)`, which throws whatever the configuration says.
   */
  lemma CopyToSourceAlwaysThrows(json: Json)
    requires !json.Null?
    ensures ObjectKeys(WhiskConfigAsWritten(json).value.copyToSource).Err?
  {
  }

  /** `new WhiskConfig(json)` with `copyToSource` read the same way, defaulting to `{}`. */
  function WhiskConfigFrom(json: Json): (r: Result<WhiskConfig>)
    ensures r.Err? <==> json.Null?
    ensures r.Ok? ==> r.value.copyToSource.Some? && !r.value.copyToSource.value.Null?
  {
    if json.Null? then Err(NullFieldError)
    else
      Ok(WhiskConfig(Coalesce(Field(json, "include"), DefaultInclude), Coalesce(Field(json, "exclude"), DefaultExclude),
                     Some(Coalesce(Field(json, "copyToSource"), Obj([])))))
  }

  /** With the default, `Object.keys(copyToSource)` no longer throws, and the other fields are as before. */
  lemma CopyToSourceDefaulted(json: Json)
    requires !json.Null?
    ensures ObjectKeys(WhiskConfigFrom(json).value.copyToSource).Ok?
    ensures WhiskConfigFrom(json).value.includes == WhiskConfigAsWritten(json).value.includes
    ensures WhiskConfigFrom(json).value.excludes == WhiskConfigAsWritten(json).value.excludes
  {
  }

  /** An empty configuration, as used when a module has no `whisk.json`, includes everything and copies nothing directly. */
  lemma EmptyWhiskConfig()
    ensures WhiskConfigFrom(Obj([])) == Ok(WhiskConfig(DefaultInclude, DefaultExclude, Some(Obj([]))))
  {
  }

  /** The fields of a `Module` object. */
  datatype Module = Module(name: Json, version: Json)

  const DefaultVersion: Json := Str("HEAD")

  /**
   * The body of the `Module` constructor, given the value its name check reads:
   * a falsy one throws; otherwise the fields are read from `json`.
   */
  function ModuleConstruct(checked: Option<Json>, json: Json): (r: Result<Module>)
    ensures r.Ok? <==> TruthyOpt(checked) && !json.Null?
    ensures r.Ok? ==> !r.value.version.Null?
  {
    if !TruthyOpt(checked) then Err("Module name must be specified")
    else if json.Null? then Err(NullFieldError)
    else Ok(Module(Field(json, "name").GetOr(Null), Coalesce(Field(json, "version"), DefaultVersion)))
  }

  /**
   * `new Module(json)` as written: the check reads `this.name` before it is
   * assigned, so it sees `undefined`.
   */
  function ModuleAsWritten(json: Json): Result<Module>
  {
    ModuleConstruct(None, json)
  }

  /** As written, the constructor throws for every input, a named module included. */
  lemma ModuleAlwaysThrows(json: Json)
    ensures ModuleAsWritten(json).Err?
    ensures ModuleAsWritten(Obj([("name", Str("user/repo"))])).Err?
  {
  }

  /** `new Module(json)` checking the name it is given. */
  function ModuleFrom(json: Json): (r: Result<Module>)
    ensures r.Ok? ==> Truthy(r.value.name)
  {
    if json.Null? then Err(NullFieldError) else ModuleConstruct(Field(json, "name"), json)
  }

  /** A module object is accepted exactly when its name is truthy; the version defaults to `"HEAD"`. */
  lemma ModuleAccepted(props: seq<(string, Json)>)
    ensures ModuleFrom(Obj(props)).Ok? <==> TruthyOpt(Lookup(props, "name"))
    ensures ModuleFrom(Obj(props)).Ok? ==>
              ModuleFrom(Obj(props)).value == Module(Lookup(props, "name").value, Coalesce(Lookup(props, "version"), DefaultVersion))
  {
  }
}
