/**
 * The validator wrapper's handling of the validation suite's result: the
 * settings overlay, the `logOverrides` rewrite of the reported items, the
 * grouping of the reported errors by message, and the exit decision.
 */
module ValidatePost {
  import opened Wrappers
  import opened Text

  // ---------------------------------------------------------------------------
  // Values

  /**
   * A JavaScript value as it appears in an item or a setting. Objects and
   * arrays are compared by identity, so they are represented by a reference;
   * with numbers taken as reals (no `NaN`, no `-0`), `===` is `==` on this type.
   */
  datatype Value = Undefined | Null | Bool(b: bool) | Num(n: real) | Str(s: string) | Ref(id: nat)

  /** JavaScript truthiness. */
  predicate Truthy(v: Value)
  {
    match v
    case Undefined => false
    case Null => false
    case Bool(b) => b
    case Num(n) => n != 0.0
    case Str(s) => |s| > 0
    case Ref(_) => true
  }

  /** An item of the result's `infoSetData.items`: its own fields. */
  type Item = map<string, Value>

  /** `item[field]`: `undefined` for a field the item does not have. */
  function Get(item: Item, field: string): Value
  {
    if field in item then item[field] else Undefined
  }

  /** `FieldMap[key] || key`. */
  function FieldName(key: string): string
  {
    if key == "level" then "iTp"
    else if key == "error" then "gId"
    else if key == "id" then "gIx"
    else key
  }

  /** The suite's `InfoItemType` members that `LevelMap` names. */
  datatype Levels = Levels(error: Value, warning: Value, info: Value)

  /** `LevelMap[name]`. */
  function LevelOf(name: string, levels: Levels): Value
  {
    if name == "error" then levels.error
    else if name == "warning" then levels.warning
    else if name == "info" then levels.info
    else Undefined
  }

  /** A `match` or `override` value: a string `level` goes through `LevelMap`, anything else is kept. */
  function Mapped(key: string, v: Value, levels: Levels): Value
  {
    if key == "level" && v.Str? then LevelOf(v.s, levels) else v
  }

  const TypeError := "TypeError"

  // ---------------------------------------------------------------------------
  // Settings (validate/main.js:45-55)

  /** One entry of `logOverrides`; `None` is a missing `match` or `override`. */
  datatype LogOverride = LogOverride(on: Option<seq<(string, Value)>>, changes: Option<seq<(string, Value)>>)

  /** `settings.logOverrides`: `None` is an entry that is `null` or `undefined`, whose destructuring throws. */
  datatype Settings = Settings(suite: Value, annoyance: Value, failOnError: Value, logOverrides: seq<Option<LogOverride>>)

  /**
   * The fields the command-line JSON sets. A `logOverrides` of `null`,
   * `false`, `0` or `""` disables the rewrite exactly as `[]` does, so it is
   * given as `Some([])`.
   */
  datatype Args = Args(suite: Option<Value>, annoyance: Option<Value>, failOnError: Option<Value>, logOverrides: Option<seq<Option<LogOverride>>>)

  const Defaults := Settings(Str("addon"), Str("none"), Bool(false), [])

  /** `Object.assign({}, defaultSettings, parsed || {})`; `None` is a missing or falsy argument. */
  function MakeSettings(args: Option<Args>): Settings
  {
    match args
    case None => Defaults
    case Some(a) =>
      Settings(a.suite.GetOr(Defaults.suite), a.annoyance.GetOr(Defaults.annoyance),
               a.failOnError.GetOr(Defaults.failOnError), a.logOverrides.GetOr(Defaults.logOverrides))
  }

  /** Each setting is the argument's when it gives one, and the default otherwise. */
  lemma SettingsOverlay(args: Option<Args>)
    ensures args.None? ==> MakeSettings(args) == Settings(Str("addon"), Str("none"), Bool(false), [])
    ensures args.Some? ==>
      MakeSettings(args).suite == (if args.value.suite.Some? then args.value.suite.value else Str("addon")) &&
      MakeSettings(args).annoyance == (if args.value.annoyance.Some? then args.value.annoyance.value else Str("none")) &&
      MakeSettings(args).failOnError == (if args.value.failOnError.Some? then args.value.failOnError.value else Bool(false)) &&
      MakeSettings(args).logOverrides == (if args.value.logOverrides.Some? then args.value.logOverrides.value else [])
  {
  }

  // ---------------------------------------------------------------------------
  // Log overrides (validate/main.js:152-179)

  /** Every `match` entry strictly equals the item's field. */
  predicate Matches(item: Item, on: seq<(string, Value)>, levels: Levels)
  {
    forall k :: 0 <= k < |on| ==> Get(item, FieldName(on[k].0)) == Mapped(on[k].0, on[k].1, levels)
  }

  /** The inner loop over `Object.entries(match)`, leaving at the first field that differs. */
  method MatchItem(item: Item, on: seq<(string, Value)>, levels: Levels) returns (matched: bool)
    ensures matched == Matches(item, on, levels)
  {
    matched := true;
    var k := 0;
    while k < |on|
      invariant 0 <= k <= |on|
      invariant forall j :: 0 <= j < k ==> Get(item, FieldName(on[j].0)) == Mapped(on[j].0, on[j].1, levels)
    {
      var (key, val) := on[k];
      if Get(item, FieldName(key)) != Mapped(key, val, levels) {
        matched := false;
        break;
      }
      k := k + 1;
    }
  }

  /** The item after the `override` entries are written, in order. */
  function Apply(item: Item, changes: seq<(string, Value)>, levels: Levels): Item
    decreases |changes|
  {
    if |changes| == 0 then item
    else
      var (key, val) := changes[|changes| - 1];
      Apply(item, changes[..|changes| - 1], levels)[FieldName(key) := Mapped(key, val, levels)]
  }

  /** A field no entry renames to keeps its value. */
  lemma {:induction false} ApplyKeeps(item: Item, changes: seq<(string, Value)>, levels: Levels, field: string)
    requires forall k :: 0 <= k < |changes| ==> FieldName(changes[k].0) != field
    ensures Get(Apply(item, changes, levels), field) == Get(item, field)
    decreases |changes|
  {
    if |changes| > 0 {
      var init := changes[..|changes| - 1];
      assert forall k :: 0 <= k < |init| ==> init[k] == changes[k];
      ApplyKeeps(item, init, levels, field);
    }
  }

  /** A field gets the mapped value of the last entry that renames to it. */
  lemma {:induction false} ApplyLastWins(item: Item, changes: seq<(string, Value)>, levels: Levels, k: nat)
    requires k < |changes|
    requires forall j :: k < j < |changes| ==> FieldName(changes[j].0) != FieldName(changes[k].0)
    ensures Get(Apply(item, changes, levels), FieldName(changes[k].0)) == Mapped(changes[k].0, changes[k].1, levels)
    decreases |changes|
  {
    if k < |changes| - 1 {
      var init := changes[..|changes| - 1];
      assert forall j :: 0 <= j < |init| ==> init[j] == changes[j];
      ApplyLastWins(item, init, levels, k);
    }
  }

  /** The loop over the `override` entries, writing each mapped value into the item. */
  method ApplyChanges(item: Item, changes: seq<(string, Value)>, levels: Levels) returns (r: Item)
    ensures r == Apply(item, changes, levels)
  {
    r := item;
    for j := 0 to |changes|
      invariant r == Apply(item, changes[..j], levels)
    {
      assert changes[..j + 1][..j] == changes[..j];
      var (key, val) := changes[j];
      r := r[FieldName(key) := Mapped(key, val, levels)];
    }
    assert changes[..|changes|] == changes;
  }

  /**
   * One item under one override. `Object.entries` of a missing `match`
   * throws for every item, and of a missing `override` for a matched item.
   */
  function OverrideItem(item: Item, o: LogOverride, levels: Levels): Result<Item>
  {
    if o.on.None? then Err(TypeError)
    else if !Matches(item, o.on.value, levels) then Ok(item)
    else if o.changes.None? then Err(TypeError)
    else Ok(Apply(item, o.changes.value, levels))
  }

  /** One override over all items, in order, until one throws. */
  function OverrideItems(items: seq<Item>, o: LogOverride, levels: Levels): Result<seq<Item>>
    decreases |items|
  {
    if |items| == 0 then Ok([])
    else
      match OverrideItems(items[..|items| - 1], o, levels)
      case Err(e) => Err(e)
      case Ok(done) =>
        match OverrideItem(items[|items| - 1], o, levels)
        case Err(e) => Err(e)
        case Ok(item) => Ok(done + [item])
  }

  /**
   * One item of the loop: a missing `match` throws at once, an item that does
   * not match is left alone, and a matched one throws on a missing `override`
   * or takes the entries.
   */
  method RewriteItem(item: Item, o: LogOverride, levels: Levels) returns (r: Result<Item>)
    ensures r == OverrideItem(item, o, levels)
    ensures r.Err? ==> r == Err(TypeError) && (o.on.None? || o.changes.None?)
    ensures r.Ok? && o.changes.None? ==> r.value == item
  {
    if o.on.None? {
      return Err(TypeError);
    }
    var matched := MatchItem(item, o.on.value, levels);
    if !matched {
      return Ok(item);
    }
    if o.changes.None? {
      return Err(TypeError);
    }
    var rewritten := ApplyChanges(item, o.changes.value, levels);
    return Ok(rewritten);
  }

  /** Replacing item `i` extends the first `i` items by the new one and keeps the later ones. */
  lemma UpdatedPrefix(items: seq<Item>, i: nat, x: Item)
    requires i < |items|
    ensures items[i := x][..i + 1] == items[..i] + [x]
    ensures forall k :: i < k < |items| ==> items[i := x][k] == items[k]
  {
  }

  /** One more item: the run so far, then that item's rewrite. */
  lemma OverrideItemsSnoc(items: seq<Item>, o: LogOverride, levels: Levels, i: nat)
    requires i < |items|
    ensures OverrideItems(items[..i + 1], o, levels) ==
      match OverrideItems(items[..i], o, levels)
      case Err(e) => Err(e)
      case Ok(done) =>
        match OverrideItem(items[i], o, levels)
        case Err(e) => Err(e)
        case Ok(item) => Ok(done + [item])
  {
    assert items[..i + 1][..i] == items[..i];
  }

  /** Without an exception, each item is rewritten on its own. */
  lemma {:induction false} OverrideItemsEach(items: seq<Item>, o: LogOverride, levels: Levels)
    ensures OverrideItems(items, o, levels).Ok? <==> forall k :: 0 <= k < |items| ==> OverrideItem(items[k], o, levels).Ok?
    ensures OverrideItems(items, o, levels).Ok? ==>
      |OverrideItems(items, o, levels).value| == |items| &&
      forall k :: 0 <= k < |items| ==> OverrideItems(items, o, levels).value[k] == OverrideItem(items[k], o, levels).value
    decreases |items|
  {
    if |items| > 0 {
      var init := items[..|items| - 1];
      assert forall k :: 0 <= k < |init| ==> init[k] == items[k];
      OverrideItemsEach(init, o, levels);
    }
  }

  /** An empty `match` rewrites every item. */
  lemma EmptyMatchAppliesToAll(items: seq<Item>, changes: seq<(string, Value)>, levels: Levels)
    ensures OverrideItems(items, LogOverride(Some([]), Some(changes)), levels) ==
      Ok(seq(|items|, k requires 0 <= k < |items| => Apply(items[k], changes, levels)))
  {
    var o := LogOverride(Some([]), Some(changes));
    OverrideItemsEach(items, o, levels);
    assert forall k :: 0 <= k < |items| ==> OverrideItem(items[k], o, levels) == Ok(Apply(items[k], changes, levels));
    assert OverrideItems(items, o, levels).value == seq(|items|, k requires 0 <= k < |items| => Apply(items[k], changes, levels));
  }

  /**
   * The overrides in list order, each seeing what the earlier ones wrote. A
   * `null` or `undefined` entry throws at `const { match, override: ov } = ovr`,
   * before its item loop starts.
   */
  function ApplyOverrides(items: seq<Item>, overrides: seq<Option<LogOverride>>, levels: Levels): Result<seq<Item>>
    decreases |overrides|
  {
    if |overrides| == 0 then Ok(items)
    else
      match ApplyOverrides(items, overrides[..|overrides| - 1], levels)
      case Err(e) => Err(e)
      case Ok(done) =>
        var o := overrides[|overrides| - 1];
        if o.None? then Err(TypeError) else OverrideItems(done, o.value, levels)
  }

  /** A `null` or `undefined` entry reached by the loop throws, even when there are no items at all. */
  lemma NullEntryThrows(items: seq<Item>, overrides: seq<Option<LogOverride>>, levels: Levels, k: nat)
    requires k < |overrides| && overrides[k].None?
    requires ApplyOverrides(items, overrides[..k], levels).Ok?
    ensures ApplyOverrides(items, overrides, levels) == Err(TypeError)
  {
    assert overrides[..k + 1][..k] == overrides[..k];
    ApplyOverridesStop(items, overrides, levels, k + 1);
  }

  lemma {:induction false} ApplyOverridesStop(items: seq<Item>, overrides: seq<Option<LogOverride>>, levels: Levels, i: nat)
    requires i <= |overrides| && ApplyOverrides(items, overrides[..i], levels).Err?
    ensures ApplyOverrides(items, overrides, levels) == ApplyOverrides(items, overrides[..i], levels)
    decreases |overrides|
  {
    if i < |overrides| {
      var init := overrides[..|overrides| - 1];
      assert init[..i] == overrides[..i];
      ApplyOverridesStop(items, init, levels, i);
    } else {
      assert overrides[..i] == overrides;
    }
  }

  /** `result[0].infoSetData.items`, rewritten in place. */
  class InfoItems {
    var items: seq<Item>

    constructor (items: seq<Item>)
      ensures this.items == items
    {
      this.items := items;
    }

    /**
     * The loop over the items for one override. An exception leaves the items
     * as they were: it comes at the first item, or at the first matched one.
     */
    method Override(o: LogOverride, levels: Levels) returns (r: Result<bool>)
      modifies this
      ensures r.Ok? <==> OverrideItems(old(items), o, levels).Ok?
      ensures r.Ok? ==> items == OverrideItems(old(items), o, levels).value
      ensures r.Err? ==> r == Err(TypeError) && OverrideItems(old(items), o, levels) == Err(TypeError) && items == old(items)
    {
      ghost var before := items;
      var i := 0;
      while i < |items|
        invariant 0 <= i <= |items| == |before|
        invariant OverrideItems(before[..i], o, levels) == Ok(items[..i])
        invariant forall k :: i <= k < |items| ==> items[k] == before[k]
        invariant o.changes.None? ==> items == before
        invariant o.on.None? ==> i == 0
      {
        OverrideItemsSnoc(before, o, levels, i);
        var next := RewriteItem(items[i], o, levels);
        if next.Err? {
          OverrideStops(before, o, levels, i + 1);
          return Err(TypeError);
        }
        UpdatedPrefix(items, i, next.value);
        items := items[i := next.value];
        i := i + 1;
      }
      assert before[..i] == before && items[..i] == items;
      r := Ok(true);
    }

    /** Every override in list order; a `null` entry or the first exception ends the run. */
    method OverrideAll(overrides: seq<Option<LogOverride>>, levels: Levels) returns (r: Result<bool>)
      modifies this
      ensures r.Ok? <==> ApplyOverrides(old(items), overrides, levels).Ok?
      ensures r.Ok? ==> items == ApplyOverrides(old(items), overrides, levels).value
      ensures r.Err? ==> ApplyOverrides(old(items), overrides, levels) == Err(r.message)
    {
      ghost var before := items;
      for i := 0 to |overrides|
        invariant ApplyOverrides(before, overrides[..i], levels) == Ok(items)
      {
        assert overrides[..i + 1][..i] == overrides[..i];
        if overrides[i].None? {
          ApplyOverridesStop(before, overrides, levels, i + 1);
          return Err(TypeError);
        }
        var step := Override(overrides[i].value, levels);
        if step.Err? {
          ApplyOverridesStop(before, overrides, levels, i + 1);
          return step;
        }
      }
      assert overrides[..|overrides|] == overrides;
      r := Ok(true);
    }
  }

  lemma {:induction false} OverrideStops(items: seq<Item>, o: LogOverride, levels: Levels, i: nat)
    requires i <= |items| && OverrideItems(items[..i], o, levels).Err?
    ensures OverrideItems(items, o, levels) == OverrideItems(items[..i], o, levels)
    decreases |items|
  {
    if i < |items| {
      var init := items[..|items| - 1];
      assert init[..i] == items[..i];
      OverrideStops(init, o, levels, i);
    } else {
      assert items[..i] == items;
    }
  }

  // ---------------------------------------------------------------------------
  // Grouping the errors (validate/main.js:180-219)

  /**
   * The filter: an error whose path is missing or does not start with
   * `/data/`. A truthy path that is not a string has no `startsWith`.
   */
  function Grouped(item: Item, levels: Levels): Result<bool>
  {
    if Get(item, "iTp") != levels.error then Ok(false)
    else
      var p := Get(item, "p");
      if !Truthy(p) then Ok(true)
      else if p.Str? then Ok(!StartsWith(p.s, "/data/"))
      else Err(TypeError)
  }

  /** `items.filter(...)`: the grouped items in order, or the first exception. */
  function Filter(items: seq<Item>, levels: Levels): Result<seq<Item>>
    decreases |items|
  {
    if |items| == 0 then Ok([])
    else
      match Filter(items[..|items| - 1], levels)
      case Err(e) => Err(e)
      case Ok(kept) =>
        match Grouped(items[|items| - 1], levels)
        case Err(e) => Err(e)
        case Ok(g) => Ok(if g then kept + [items[|items| - 1]] else kept)
  }

  lemma {:induction false} FilterStops(items: seq<Item>, levels: Levels, i: nat)
    requires i <= |items| && Filter(items[..i], levels).Err?
    ensures Filter(items, levels) == Filter(items[..i], levels)
    decreases |items|
  {
    if i < |items| {
      var init := items[..|items| - 1];
      assert init[..i] == items[..i];
      FilterStops(init, levels, i);
    } else {
      assert items[..i] == items;
    }
  }

  /** The filter keeps exactly the grouped items, and throws exactly when some item's test does. */
  lemma {:induction false} FilterIff(items: seq<Item>, levels: Levels)
    ensures Filter(items, levels).Ok? <==> forall k :: 0 <= k < |items| ==> Grouped(items[k], levels).Ok?
    ensures Filter(items, levels).Ok? ==> forall x :: x in Filter(items, levels).value <==> x in items && Grouped(x, levels) == Ok(true)
    decreases |items|
  {
    if |items| > 0 {
      var init := items[..|items| - 1];
      assert forall k :: 0 <= k < |init| ==> init[k] == items[k];
      assert items == init + [items[|items| - 1]];
      FilterIff(init, levels);
    }
  }

  /** The text of a value in string concatenation; strings are themselves, other values as `show` gives them. */
  function Show(v: Value, show: Value -> string): string
  {
    if v.Str? then v.s else show(v)
  }

  /** The line pushed for an item: `p (d)`, `p`, `d`, or nothing. */
  function EntryText(item: Item, show: Value -> string): Option<string>
  {
    var p := Get(item, "p");
    var d := Get(item, "d");
    if Truthy(p) then
      if Truthy(d) then Some(Show(p, show) + " (" + Show(d, show) + ")") else Some(Show(p, show))
    else if Truthy(d) then Some(Show(d, show))
    else None
  }

  /** A grouped item's key and line; `messageOf` is `summary[gId][gIx].defaultMessage`, which may throw. */
  function Row(item: Item, messageOf: (Value, Value) -> Result<Value>, show: Value -> string): Result<(Value, Option<string>)>
  {
    match messageOf(Get(item, "gId"), Get(item, "gIx"))
    case Err(e) => Err(e)
    case Ok(key) => Ok((key, EntryText(item, show)))
  }

  function Rows(items: seq<Item>, messageOf: (Value, Value) -> Result<Value>, show: Value -> string): Result<seq<(Value, Option<string>)>>
    decreases |items|
  {
    if |items| == 0 then Ok([])
    else
      match Rows(items[..|items| - 1], messageOf, show)
      case Err(e) => Err(e)
      case Ok(rows) =>
        match Row(items[|items| - 1], messageOf, show)
        case Err(e) => Err(e)
        case Ok(row) => Ok(rows + [row])
  }

  lemma {:induction false} RowsStop(items: seq<Item>, messageOf: (Value, Value) -> Result<Value>, show: Value -> string, i: nat)
    requires i <= |items| && Rows(items[..i], messageOf, show).Err?
    ensures Rows(items, messageOf, show) == Rows(items[..i], messageOf, show)
    decreases |items|
  {
    if i < |items| {
      var init := items[..|items| - 1];
      assert init[..i] == items[..i];
      RowsStop(init, messageOf, show, i);
    } else {
      assert items[..i] == items;
    }
  }

  lemma {:induction false} RowsLength(items: seq<Item>, messageOf: (Value, Value) -> Result<Value>, show: Value -> string)
    requires Rows(items, messageOf, show).Ok?
    ensures |Rows(items, messageOf, show).value| == |items|
    decreases |items|
  {
    if |items| > 0 {
      RowsLength(items[..|items| - 1], messageOf, show);
    }
  }

  function Lines(entry: Option<string>): seq<string>
  {
    if entry.Some? then [entry.value] else []
  }

  /** The index of the first group with `key`, or `|groups|`. */
  function GroupIndex(groups: seq<(Value, seq<string>)>, key: Value): (j: nat)
    ensures j <= |groups|
    ensures j < |groups| ==> groups[j].0 == key
    ensures forall i :: 0 <= i < j ==> groups[i].0 != key
    decreases |groups|
  {
    if |groups| == 0 then 0
    else if groups[0].0 == key then 0
    else 1 + GroupIndex(groups[1..], key)
  }

  /** `groupedErrors.get(key)`, creating the group on first use, then the push. */
  function Add(groups: seq<(Value, seq<string>)>, key: Value, entry: Option<string>): seq<(Value, seq<string>)>
  {
    var j := GroupIndex(groups, key);
    if j < |groups| then groups[j := (key, groups[j].1 + Lines(entry))]
    else groups + [(key, Lines(entry))]
  }

  /** The `Map` of groups in insertion order. */
  function Group(rows: seq<(Value, Option<string>)>): (groups: seq<(Value, seq<string>)>)
    decreases |rows|
  {
    if |rows| == 0 then []
    else
      var last := rows[|rows| - 1];
      Add(Group(rows[..|rows| - 1]), last.0, last.1)
  }

  /** The lines of the rows with `key`, in row order. */
  function LinesOf(rows: seq<(Value, Option<string>)>, key: Value): seq<string>
    decreases |rows|
  {
    if |rows| == 0 then []
    else
      var last := rows[|rows| - 1];
      LinesOf(rows[..|rows| - 1], key) + (if last.0 == key then Lines(last.1) else [])
  }

  /** The index of the first row with `key`, or `|rows|`. */
  function FirstRow(rows: seq<(Value, Option<string>)>, key: Value): (i: nat)
    ensures i <= |rows|
    ensures i < |rows| ==> rows[i].0 == key
    ensures forall j :: 0 <= j < i ==> rows[j].0 != key
    decreases |rows|
  {
    if |rows| == 0 then 0
    else if rows[0].0 == key then 0
    else 1 + FirstRow(rows[1..], key)
  }

  lemma FirstRowSnoc(rows: seq<(Value, Option<string>)>, key: Value)
    requires |rows| > 0
    ensures var init := rows[..|rows| - 1];
      FirstRow(init, key) < |init| ==> FirstRow(rows, key) == FirstRow(init, key)
    ensures var init := rows[..|rows| - 1];
      FirstRow(init, key) == |init| ==> FirstRow(rows, key) == (if rows[|rows| - 1].0 == key then |init| else |rows|)
  {
    var init := rows[..|rows| - 1];
    var i := FirstRow(init, key);
    assert forall j :: 0 <= j < |init| ==> init[j] == rows[j];
    var r := FirstRow(rows, key);
    if i < |init| {
      assert rows[i].0 == key;
    } else if rows[|rows| - 1].0 == key {
      assert r == |init|;
    }
  }

  /** The keys of the groups first occur among the rows in group order. */
  lemma {:induction false} GroupInFirstOrder(rows: seq<(Value, Option<string>)>)
    ensures forall j :: 0 <= j < |Group(rows)| ==> FirstRow(rows, Group(rows)[j].0) < |rows|
    ensures forall j, k :: 0 <= j < k < |Group(rows)| ==> FirstRow(rows, Group(rows)[j].0) < FirstRow(rows, Group(rows)[k].0)
    decreases |rows|
  {
    if |rows| > 0 {
      var init := rows[..|rows| - 1];
      var last := rows[|rows| - 1];
      GroupInFirstOrder(init);
      var g := Group(init);
      var g' := Group(rows);
      forall key ensures FirstRow(init, key) < |init| ==> FirstRow(rows, key) == FirstRow(init, key) {
        FirstRowSnoc(rows, key);
      }
      var j := GroupIndex(g, last.0);
      if j < |g| {
        assert forall m :: 0 <= m < |g'| ==> g'[m].0 == g[m].0;
      } else {
        assert g' == g + [(last.0, Lines(last.1))];
        FirstRowSnoc(rows, last.0);
        GroupCoversRows(init);
      }
    }
  }

  /** Every row's key has a group. */
  lemma {:induction false} GroupCoversRows(rows: seq<(Value, Option<string>)>)
    ensures forall i :: 0 <= i < |rows| ==> GroupIndex(Group(rows), rows[i].0) < |Group(rows)|
    decreases |rows|
  {
    if |rows| > 0 {
      var init := rows[..|rows| - 1];
      var last := rows[|rows| - 1];
      assert forall i :: 0 <= i < |init| ==> init[i] == rows[i];
      GroupCoversRows(init);
      var g := Group(init);
      var g' := Group(rows);
      var j := GroupIndex(g, last.0);
      forall i | 0 <= i < |rows| ensures GroupIndex(g', rows[i].0) < |g'| {
        if j < |g| {
          GroupIndexSame(g, g', rows[i].0);
        } else {
          GroupIndexAppend(g, (last.0, Lines(last.1)), rows[i].0);
        }
      }
    }
  }

  /** Each group holds the lines of its key's rows, in row order. */
  lemma {:induction false} GroupCollectsLines(rows: seq<(Value, Option<string>)>)
    ensures forall j :: 0 <= j < |Group(rows)| ==> Group(rows)[j].1 == LinesOf(rows, Group(rows)[j].0)
    decreases |rows|
  {
    if |rows| > 0 {
      var init := rows[..|rows| - 1];
      var last := rows[|rows| - 1];
      assert forall i :: 0 <= i < |init| ==> init[i] == rows[i];
      GroupCollectsLines(init);
      var g := Group(init);
      var g' := Group(rows);
      var j := GroupIndex(g, last.0);
      if j == |g| {
        GroupCoversRows(init);
        forall i | 0 <= i < |init| ensures init[i].0 != last.0 {
          assert GroupIndex(g, init[i].0) < |g|;
        }
        LinesOfAbsent(init, last.0);
        assert g' == g + [(last.0, Lines(last.1))];
        forall m | 0 <= m < |g'| ensures g'[m].1 == LinesOf(rows, g'[m].0) {
          if m < |g| {
            assert g'[m] == g[m] && g[m].0 != last.0;
          }
        }
      } else {
        GroupDistinct(init);
        assert g' == g[j := (last.0, g[j].1 + Lines(last.1))];
        forall m | 0 <= m < |g'| ensures g'[m].1 == LinesOf(rows, g'[m].0) {
          if m != j {
            assert g'[m] == g[m] && g[m].0 != last.0;
          }
        }
      }
    }
  }

  /** The first index of a key depends only on the keys. */
  lemma {:induction false} GroupIndexSame(g: seq<(Value, seq<string>)>, g': seq<(Value, seq<string>)>, key: Value)
    requires |g| == |g'| && forall m :: 0 <= m < |g| ==> g'[m].0 == g[m].0
    ensures GroupIndex(g', key) == GroupIndex(g, key)
    decreases |g|
  {
    if |g| > 0 && g[0].0 != key {
      GroupIndexSame(g[1..], g'[1..], key);
    }
  }

  lemma GroupIndexAppend(g: seq<(Value, seq<string>)>, x: (Value, seq<string>), key: Value)
    ensures GroupIndex(g + [x], key) ==
      if GroupIndex(g, key) < |g| then GroupIndex(g, key) else if x.0 == key then |g| else |g| + 1
  {
    var j := GroupIndex(g, key);
    var j' := GroupIndex(g + [x], key);
    assert forall m :: 0 <= m < |g| ==> (g + [x])[m] == g[m];
    if j < |g| {
      assert (g + [x])[j] == g[j];
    } else if x.0 == key {
      assert (g + [x])[|g|] == x;
    }
  }

  /** Distinct keys: the group with a key is the first one with it. */
  lemma GroupIndexDistinct(g: seq<(Value, seq<string>)>, key: Value, j: nat)
    requires forall a, b :: 0 <= a < b < |g| ==> g[a].0 != g[b].0
    requires j < |g| && g[j].0 == key
    ensures GroupIndex(g, key) == j
  {
  }

  lemma GroupDistinct(rows: seq<(Value, Option<string>)>)
    ensures forall a, b :: 0 <= a < b < |Group(rows)| ==> Group(rows)[a].0 != Group(rows)[b].0
  {
    GroupInFirstOrder(rows);
  }

  /** `index` finds each group by its key and has no other keys. */
  ghost predicate Indexed(groups: seq<(Value, seq<string>)>, index: map<Value, nat>)
  {
    (forall key :: key in index ==> index[key] < |groups| && groups[index[key]].0 == key) &&
    (forall key :: key !in index ==> GroupIndex(groups, key) == |groups|)
  }

  /** `groupedErrors.get(key)`, the `set` of a new array, and the push, with the `Map` kept as groups and an index. */
  method AddEntry(groups: seq<(Value, seq<string>)>, index: map<Value, nat>, key: Value, entry: Option<string>)
    returns (groups': seq<(Value, seq<string>)>, index': map<Value, nat>)
    requires Indexed(groups, index)
    requires forall a, b :: 0 <= a < b < |groups| ==> groups[a].0 != groups[b].0
    ensures groups' == Add(groups, key, entry) && Indexed(groups', index')
  {
    if key in index {
      var j := index[key];
      GroupIndexDistinct(groups, key, j);
      groups' := groups[j := (key, groups[j].1 + Lines(entry))];
      index' := index;
      forall k ensures GroupIndex(groups', k) == GroupIndex(groups, k) {
        GroupIndexSame(groups, groups', k);
      }
    } else {
      index' := index[key := |groups|];
      groups' := groups + [(key, Lines(entry))];
      forall k ensures GroupIndex(groups', k) ==
        if GroupIndex(groups, k) < |groups| then GroupIndex(groups, k) else if key == k then |groups| else |groups| + 1
      {
        GroupIndexAppend(groups, (key, Lines(entry)), k);
      }
    }
  }

  lemma {:induction false} LinesOfAbsent(rows: seq<(Value, Option<string>)>, key: Value)
    requires forall i :: 0 <= i < |rows| ==> rows[i].0 != key
    ensures LinesOf(rows, key) == []
    decreases |rows|
  {
    if |rows| > 0 {
      LinesOfAbsent(rows[..|rows| - 1], key);
    }
  }

  // ---------------------------------------------------------------------------
  // The whole post-processing

  datatype Grouping = Grouping(groups: seq<(Value, seq<string>)>, hasErrors: bool)

  /** The filter, then the keys and lines; `hasErrors` is set by every grouped item, with a line or without. */
  function Errors(items: seq<Item>, levels: Levels, messageOf: (Value, Value) -> Result<Value>, show: Value -> string): Result<Grouping>
  {
    match Filter(items, levels)
    case Err(e) => Err(e)
    case Ok(kept) =>
      match Rows(kept, messageOf, show)
      case Err(e) => Err(e)
      case Ok(rows) => Ok(Grouping(Group(rows), |kept| > 0))
  }

  /** `hasErrors` holds exactly when some item passes the filter. */
  lemma HasErrorsIff(items: seq<Item>, levels: Levels, messageOf: (Value, Value) -> Result<Value>, show: Value -> string)
    requires Errors(items, levels, messageOf, show).Ok?
    ensures Errors(items, levels, messageOf, show).value.hasErrors <==> exists k :: 0 <= k < |items| && Grouped(items[k], levels) == Ok(true)
  {
    FilterIff(items, levels);
    var kept := Filter(items, levels).value;
    if |kept| > 0 {
      assert kept[0] in kept;
    }
    if exists k :: 0 <= k < |items| && Grouped(items[k], levels) == Ok(true) {
      var k :| 0 <= k < |items| && Grouped(items[k], levels) == Ok(true);
      assert items[k] in kept;
    }
  }

  /** The `forEach` over the filtered items, with the `Map` as a sequence of groups and an index by key. */
  method GroupErrors(items: seq<Item>, levels: Levels, messageOf: (Value, Value) -> Result<Value>, show: Value -> string)
    returns (r: Result<Grouping>)
    ensures r == Errors(items, levels, messageOf, show)
  {
    var kept: seq<Item> := [];
    for i := 0 to |items|
      invariant Filter(items[..i], levels) == Ok(kept)
    {
      assert items[..i + 1][..i] == items[..i];
      var g := Grouped(items[i], levels);
      if g.Err? {
        FilterStops(items, levels, i + 1);
        return Err(g.message);
      }
      if g.value {
        kept := kept + [items[i]];
      }
    }
    assert items[..|items|] == items;
    var hasErrors := false;
    var groups: seq<(Value, seq<string>)> := [];
    var index: map<Value, nat> := map[];
    ghost var rows: seq<(Value, Option<string>)> := [];
    for i := 0 to |kept|
      invariant Rows(kept[..i], messageOf, show) == Ok(rows)
      invariant groups == Group(rows) && Indexed(groups, index)
      invariant hasErrors == (i > 0)
    {
      assert kept[..i + 1][..i] == kept[..i];
      var key := messageOf(Get(kept[i], "gId"), Get(kept[i], "gIx"));
      if key.Err? {
        RowsStop(kept, messageOf, show, i + 1);
        return Err(key.message);
      }
      var entry := EntryText(kept[i], show);
      GroupDistinct(rows);
      groups, index := AddEntry(groups, index, key.value, entry);
      assert (rows + [(key.value, entry)])[..|rows|] == rows;
      rows := rows + [(key.value, entry)];
      hasErrors := true;
    }
    assert kept[..|kept|] == kept;
    r := Ok(Grouping(groups, hasErrors));
  }

  /** `process.exit(1)` exactly when an error was grouped and `failOnError` is truthy; otherwise the script ends normally. */
  function ExitCode(g: Grouping, s: Settings): int
  {
    if g.hasErrors && Truthy(s.failOnError) then 1 else 0
  }

  lemma ExitIff(items: seq<Item>, levels: Levels, messageOf: (Value, Value) -> Result<Value>, show: Value -> string, s: Settings)
    requires Errors(items, levels, messageOf, show).Ok?
    ensures ExitCode(Errors(items, levels, messageOf, show).value, s) == 1 <==>
      (exists k :: 0 <= k < |items| && Grouped(items[k], levels) == Ok(true)) && Truthy(s.failOnError)
    ensures ExitCode(Errors(items, levels, messageOf, show).value, s) in {0, 1}
  {
    HasErrorsIff(items, levels, messageOf, show);
  }

  /** The items after the overrides, the groups printed, and the exit status. */
  datatype Report = Report(items: seq<Item>, grouping: Grouping, exitCode: int)

  /** Everything after the suite returns; `None` is an `undefined` result, which is not looked at. */
  function PostProcess(result: Option<seq<Item>>, s: Settings, levels: Levels,
                       messageOf: (Value, Value) -> Result<Value>, show: Value -> string): Result<Option<Report>>
  {
    match result
    case None => Ok(None)
    case Some(items) =>
      match ApplyOverrides(items, s.logOverrides, levels)
      case Err(e) => Err(e)
      case Ok(items') =>
        match Errors(items', levels, messageOf, show)
        case Err(e) => Err(e)
        case Ok(g) => Ok(Some(Report(items', g, ExitCode(g, s))))
  }

  /** The settings overlay, then the override loop on the items in place, then the grouping and the exit decision. */
  method Validate(result: Option<seq<Item>>, args: Option<Args>, levels: Levels,
                  messageOf: (Value, Value) -> Result<Value>, show: Value -> string) returns (r: Result<Option<Report>>)
    ensures r == PostProcess(result, MakeSettings(args), levels, messageOf, show)
  {
    var settings := MakeSettings(args);
    if result.None? {
      return Ok(None);
    }
    var info := new InfoItems(result.value);
    var overridden := info.OverrideAll(settings.logOverrides, levels);
    if overridden.Err? {
      return Err(overridden.message);
    }
    var grouping := GroupErrors(info.items, levels, messageOf, show);
    if grouping.Err? {
      return Err(grouping.message);
    }
    var exitCode := if grouping.value.hasErrors && Truthy(settings.failOnError) then 1 else 0;
    r := Ok(Some(Report(info.items, grouping.value, exitCode)));
  }
}
