/**
 * The objects of sanity_check/verbose_json.py as they change in place:
 * `StringReader`, the `JsonContext` tree (one object holding every context,
 * ids in creation order), `PropertyListener`, and the recursive-descent
 * parse functions that drive them. Each method is proved to end as the
 * functions of `VerboseTree` and `VerboseParse` say.
 */
module VerboseJson {
  import opened Wrappers
  import opened Text
  import opened SanityUtils
  import T = VerboseTree
  import P = VerboseParse

  /** The longest run of characters satisfying `pred` from `p` ends at `r`. */
  predicate MaxRun(text: string, p: nat, r: nat, pred: char -> bool)
  {
    p <= r && (r == p || r <= |text|) &&
    (forall k :: p <= k < r ==> k < |text| && pred(text[k])) &&
    (r < |text| ==> !pred(text[r]))
  }

  lemma MaxRunUnique(text: string, p: nat, r1: nat, r2: nat, pred: char -> bool)
    requires MaxRun(text, p, r1, pred) && MaxRun(text, p, r2, pred)
    ensures r1 == r2
  {
  }

  /** `skipWhitespace` stops where the scanner's blank run ends. */
  lemma BlankRun(text: string, p: nat, r: nat)
    requires p <= |text| && MaxRun(text, p, r, P.IsWs)
    ensures r == P.WsEnd(text, p)
  {
    P.WsEndBlanks(text, p);
    MaxRunUnique(text, p, r, P.WsEnd(text, p), P.IsWs);
  }

  /** `read_while` over the number characters stops where the scanner's number run ends. */
  lemma NumberRun(text: string, p: nat, r: nat)
    requires p <= |text| && MaxRun(text, p, r, P.IsNumberChar)
    ensures r == P.NumEnd(text, p)
  {
    P.NumEndChars(text, p);
    MaxRunUnique(text, p, r, P.NumEnd(text, p), P.IsNumberChar);
  }

  // ---------------------------------------------------------------------------
  // StringReader

  class StringReader {
    const text: string
    var pos: nat

    constructor (s: string)
      ensures text == s && pos == 0
    {
      text := s;
      pos := 0;
    }

    /** `peek`: the character under the reader; at or past the end, indexing raises. */
    method Peek() returns (c: Result<char>)
      ensures c.Ok? <==> pos < |text|
      ensures c.Ok? ==> c.value == text[pos]
      ensures c.Err? ==> c.message == P.IndexError
    {
      if pos < |text| {
        c := Ok(text[pos]);
      } else {
        c := Err(P.IndexError);
      }
    }

    /** `read(n)`: advance by `n`, even past the end, and give back what lies between. */
    method Read(n: nat) returns (s: string)
      modifies this
      ensures pos == old(pos) + n
      ensures s == T.PySlice(text, old(pos), pos)
      ensures pos <= |text| ==> s == text[old(pos)..pos]
    {
      pos := pos + n;
      s := T.PySlice(text, pos - n, pos);
    }

    /** `skip(n)`. */
    method Skip(n: nat)
      modifies this
      ensures pos == old(pos) + n
    {
      pos := pos + n;
    }

    /** `read_while`: the longest run of characters satisfying `pred`. */
    method ReadWhile(pred: char -> bool) returns (s: string)
      modifies this
      ensures MaxRun(text, old(pos), pos, pred)
      ensures s == T.PySlice(text, old(pos), pos)
    {
      var start := pos;
      SkipWhile(pred);
      s := T.PySlice(text, start, pos);
    }

    /** `read_until`: the longest run of characters not satisfying `pred`. */
    method ReadUntil(pred: char -> bool) returns (s: string)
      modifies this
      ensures MaxRun(text, old(pos), pos, c => !pred(c))
      ensures s == T.PySlice(text, old(pos), pos)
    {
      var start := pos;
      SkipUntil(pred);
      s := T.PySlice(text, start, pos);
    }

    /** `skip_while`. */
    method SkipWhile(pred: char -> bool)
      modifies this
      ensures MaxRun(text, old(pos), pos, pred)
    {
      while pos < |text| && pred(text[pos])
        invariant old(pos) <= pos && (pos == old(pos) || pos <= |text|)
        invariant forall k :: old(pos) <= k < pos ==> k < |text| && pred(text[k])
        decreases |text| - pos
      {
        pos := pos + 1;
      }
    }

    /** `skip_until`. */
    method SkipUntil(pred: char -> bool)
      modifies this
      ensures MaxRun(text, old(pos), pos, c => !pred(c))
    {
      while pos < |text| && !pred(text[pos])
        invariant old(pos) <= pos && (pos == old(pos) || pos <= |text|)
        invariant forall k :: old(pos) <= k < pos ==> k < |text| && !pred(text[k])
        decreases |text| - pos
      {
        pos := pos + 1;
      }
    }

    method Position() returns (p: nat)
      ensures p == pos
    {
      p := pos;
    }

    /** `available`: negative once a `read` has gone past the end. */
    method Available() returns (n: int)
      ensures n == |text| - pos
      ensures n > 0 <==> pos < |text|
    {
      n := |text| - pos;
    }
  }

  /** `skipWhitespace`. */
  method SkipWhitespace(reader: StringReader)
    requires reader.pos <= |reader.text|
    modifies reader
    ensures reader.pos == P.WsEnd(reader.text, old(reader.pos))
  {
    reader.SkipWhile(P.IsWs);
    BlankRun(reader.text, old(reader.pos), reader.pos);
  }

  // ---------------------------------------------------------------------------
  // JsonContext

  function Reversed<X>(s: seq<X>): seq<X>
  {
    if |s| == 0 then [] else [s[|s| - 1]] + Reversed(s[..|s| - 1])
  }

  lemma ReversedSnoc<X>(s: seq<X>, x: X)
    ensures Reversed(s + [x]) == [x] + Reversed(s)
  {
    assert (s + [x])[..|s|] == s;
  }

  /** One step of `to_path`'s walk: moving from `ctx` to its parent and appending `ctx`'s value keeps the chain. */
  lemma ChainStep(parent: seq<int>, value: seq<Option<string>>, ctx: nat, values: seq<Option<string>>)
    requires |value| == |parent| && (forall k :: 0 < k < |parent| ==> 0 <= parent[k] < k) && ctx < |parent|
    ensures ctx > 0 ==> T.Chain(parent, value, parent[ctx]) + Reversed(values + [value[ctx]]) == T.Chain(parent, value, ctx) + Reversed(values)
    ensures ctx == 0 ==> Reversed(values + [value[ctx]]) == T.Chain(parent, value, ctx) + Reversed(values)
  {
    ReversedSnoc(values, value[ctx]);
  }

  /** The join at the end of `to_path`: `"#"`, then `"/" + v` for each string value in order. */
  method JoinPath(values: seq<Option<string>>) returns (path: string)
    ensures path == "#" + T.Segments(values)
  {
    path := "#";
    for i := 0 to |values|
      invariant path == "#" + T.Segments(values[..i])
    {
      assert values[..i + 1][..i] == values[..i];
      if values[i].Some? {
        path := path + "/" + values[i].value;
      }
    }
    assert values[..|values|] == values;
  }

  /** Every `JsonContext` of one parse: context `k` has `parent[k]`, `value[k]`, `index[k]` and `length[k]`. */
  class ContextTree {
    var parent: seq<int>
    var value: seq<Option<string>>
    var index: seq<int>
    var length: seq<int>

    function State(): T.Tree
      reads this
    {
      T.Tree(parent, value, index, length)
    }

    /** The root `JsonContext(reader)` at `pos`, without a parent or a value. */
    constructor (pos: int)
      ensures State() == T.Root(pos)
    {
      parent := [-1];
      value := [None];
      index := [pos];
      length := [0];
    }

    /** `make_child`: a context at `pos`, with length 0, under `p`; its id is the number of contexts before it. */
    method MakeChild(p: nat, pos: int, v: Option<string>) returns (child: nat)
      requires State().Valid() && p < State().Size()
      modifies this
      ensures child == old(State()).Size()
      ensures State() == T.MakeChild(old(State()), p, pos, v)
    {
      child := |parent|;
      parent := parent + [p];
      value := value + [v];
      index := index + [pos];
      length := length + [0];
    }

    /** `update_length`: context `id` now ends at `pos`. */
    method UpdateLength(id: nat, pos: int)
      requires State().Valid() && id < State().Size()
      modifies this
      ensures State() == T.UpdateLength(old(State()), id, pos)
    {
      length := length[id := pos - index[id]];
    }

    /** `get_text`. */
    method GetText(text: string, id: nat) returns (s: string)
      requires State().Valid() && id < State().Size()
      ensures s == T.GetText(State(), text, id)
    {
      s := T.PySlice(text, index[id], index[id] + length[id]);
    }

    /** `to_path`: collect the values from `id` up to the root, reverse them, and join the string ones. */
    method ToPath(id: nat) returns (path: string)
      requires State().Valid() && id < State().Size()
      ensures path == T.Path(State(), id)
    {
      var parent, value := parent, value;
      var values: seq<Option<string>> := [];
      var ctx: int := id;
      while ctx != -1
        invariant -1 <= ctx < |parent|
        invariant ctx >= 0 ==> T.Chain(parent, value, ctx) + Reversed(values) == T.Chain(parent, value, id)
        invariant ctx == -1 ==> Reversed(values) == T.Chain(parent, value, id)
        decreases ctx + 1
      {
        ChainStep(parent, value, ctx, values);
        values := values + [value[ctx]];
        ctx := parent[ctx];
      }
      path := JoinPath(Reversed(values));
    }

    /**
     * `set_text`: splice `v` over context `id`'s span, give `id` the new
     * length, and shift every context that starts after `id` by the change.
     * The source walks the children lists from the root with a stack; every
     * context is reachable from the root, so this visits each context once,
     * in id order.
     */
    method SetText(text: string, id: nat, v: string) returns (newText: string)
      requires State().Valid() && id < State().Size()
      modifies this
      ensures (newText, State()) == T.SetText(old(State()), text, id, v)
    {
      var i := index[id];
      var l := length[id];
      newText := T.PySlice(text, 0, i) + v + T.PySlice(text, i + l, |text|);
      var change := |v| - l;
      length := length[id := |v|];
      var root := id;
      while parent[root] != -1
        invariant 0 <= root < |parent|
        decreases root
      {
        root := parent[root];
      }
      assert root == 0;
      var k := 0;
      while k < |index|
        invariant parent == old(parent) && value == old(value) && length == old(length)[id := |v|]
        invariant 0 <= k <= |index| == |old(index)|
        invariant forall j :: 0 <= j < k ==> index[j] == if old(index)[j] > i then old(index)[j] + change else old(index)[j]
        invariant forall j :: k <= j < |index| ==> index[j] == old(index)[j]
      {
        if index[k] > i {
          index := index[k := index[k] + change];
        }
        k := k + 1;
      }
      assert index == seq(|old(index)|, j requires 0 <= j < |old(index)| =>
        if old(index)[j] > i then old(index)[j] + change else old(index)[j]);
      assert parent == old(parent) && value == old(value);
      assert length == old(length)[id := |v|];
      assert newText == T.SetText(old(State()), text, id, v).0;
      assert State() == T.SetText(old(State()), text, id, v).1;
    }
  }

  // ---------------------------------------------------------------------------
  // PropertyListener

  class PropertyListener {
    const jsonText: string
    /** Python's `float(v)`: `None` when it raises `ValueError`, else whether the number is integral. */
    const floatOf: string -> Option<bool>
    var currentProperty: Option<string>
    var currentRange: seq<nat>
    var currentType: Option<nat>
    var currentDefault: Option<nat>
    var issueList: seq<Issue>

    function State(): P.Lis
      reads this
    {
      P.Lis(currentProperty, currentRange, currentType, currentDefault, issueList)
    }

    constructor (text: string, floatOf: string -> Option<bool>)
      ensures jsonText == text && this.floatOf == floatOf && State() == P.Initial
    {
      jsonText := text;
      this.floatOf := floatOf;
      currentProperty := None;
      currentRange := [];
      currentType := None;
      currentDefault := None;
      issueList := [];
    }

    /**
     * `onEntityProperty`: for a float property with a two-number range,
     * append an issue for each range end that is not a float and for a
     * default that is neither a float nor a string. An exception leaves the
     * issues appended so far.
     */
    method OnEntityProperty(tree: ContextTree, property: Option<string>, typ: Option<nat>, range: seq<nat>, default: Option<nat>)
      returns (err: Option<string>)
      requires tree.State().Valid() && P.LisOk(P.Lis(property, range, typ, default, issueList), tree.State())
      modifies this`issueList
      ensures var r := P.OnEntityProperty(P.Lis(property, range, typ, default, old(issueList)), tree.State(), jsonText, floatOf);
        if err.None? then r == Ok(issueList) else r == Err(err.value)
    {
      if typ.None? {
        return Some(P.NoneText);
      }
      var t := tree.GetText(jsonText, typ.value);
      if T.Unescape(t) == "float" {
        if |range| != 2 {
          return None;
        }
        err := CheckRange(tree, property, typ, range, default);
        if err.Some? {
          return;
        }
        if default.None? {
          return Some(P.NoneText);
        }
        var d := tree.GetText(jsonText, default.value);
        var defaultOk := P.IsFloatOrString(d, floatOf);
        if defaultOk.Err? {
          return Some(defaultOk.message);
        }
        ghost var i2 := issueList;
        if !defaultOk.value {
          issueList := issueList + [P.BadValue(property, "default", default.value)];
        }
        assert issueList == i2 + (if defaultOk.value then [] else [P.BadValue(property, "default", default.value)]);
      }
      return None;
    }

    /** The two range checks of `onEntityProperty`: each end that is not a float appends an issue. */
    method CheckRange(tree: ContextTree, property: Option<string>, typ: Option<nat>, range: seq<nat>, default: Option<nat>)
      returns (err: Option<string>)
      requires tree.State().Valid() && P.LisOk(P.Lis(property, range, typ, default, issueList), tree.State()) && |range| == 2
      modifies this`issueList
      ensures var r := P.RangeIssues(P.Lis(property, range, typ, default, old(issueList)), tree.State(), jsonText, floatOf);
        if err.None? then r == Ok(issueList) else r == Err(err.value)
    {
      ghost var l := P.Lis(property, range, typ, default, old(issueList));
      var start := tree.GetText(jsonText, range[0]);
      var startOk := P.IsFloat(start, floatOf);
      if startOk.Err? {
        return Some(startOk.message);
      }
      if !startOk.value {
        issueList := issueList + [P.BadValue(property, "start range", range[0])];
      }
      ghost var i1 := issueList;
      assert i1 == l.issues + (if startOk.value then [] else [P.BadValue(property, "start range", range[0])]);
      var end := tree.GetText(jsonText, range[1]);
      var endOk := P.IsFloat(end, floatOf);
      if endOk.Err? {
        return Some(endOk.message);
      }
      if !endOk.value {
        issueList := issueList + [P.BadValue(property, "end range", range[1])];
      }
      assert issueList == i1 + (if endOk.value then [] else [P.BadValue(property, "end range", range[1])]);
      return None;
    }

    /** `enterObject`: never stops the parse. */
    method EnterObject(tree: ContextTree, ctx: nat) returns (stop: bool)
      requires tree.State().Valid() && ctx < tree.State().Size()
      modifies this`currentProperty
      ensures !stop && State() == P.EnterObject(old(State()), T.Path(tree.State(), ctx))
    {
      var path := tree.ToPath(ctx);
      if StartsWith(path, P.PropertyPrefix) {
        currentProperty := Some(P.LastSegment(path));
      }
      stop := false;
    }

    /** `exitObject`: true on leaving the properties object; a property object is checked and the fields reset. */
    method ExitObject(tree: ContextTree, ctx: nat) returns (r: Result<bool>)
      requires tree.State().Valid() && ctx < tree.State().Size() && P.LisOk(State(), tree.State())
      modifies this
      ensures match P.ExitObject(old(State()), tree.State(), T.Path(tree.State(), ctx), jsonText, floatOf)
        case Err(e) => r == Err(e)
        case Ok(x) => r == Ok(x.1) && State() == x.0
    {
      ghost var l0 := State();
      var path := tree.ToPath(ctx);
      if path == P.PropertiesPath {
        return Ok(true);
      }
      if StartsWith(path, P.PropertyPrefix) {
        ghost var checked := P.OnEntityProperty(l0, tree.State(), jsonText, floatOf);
        assert P.ExitObject(l0, tree.State(), path, jsonText, floatOf) ==
          if checked.Err? then Err(checked.message) else Ok((P.Lis(None, [], None, None, checked.value), false));
        var err := OnEntityProperty(tree, currentProperty, currentType, currentRange, currentDefault);
        if err.Some? {
          return Err(err.value);
        }
        currentProperty := None;
        currentRange := [];
        currentType := None;
        currentDefault := None;
      }
      return Ok(false);
    }

    /** `exitString`: a string at the current property's `default` or `type` is remembered. */
    method ExitString(tree: ContextTree, ctx: nat) returns (stop: bool)
      requires tree.State().Valid() && ctx < tree.State().Size()
      modifies this`currentDefault, this`currentType
      ensures !stop && State() == P.ExitString(old(State()), T.Path(tree.State(), ctx), ctx)
    {
      var path := tree.ToPath(ctx);
      if currentProperty.Some? && path == P.FieldPath(currentProperty.value, "default") {
        currentDefault := Some(ctx);
      }
      if currentProperty.Some? && path == P.FieldPath(currentProperty.value, "type") {
        currentType := Some(ctx);
      }
      stop := false;
    }

    /** `exitNumber`: a number at the current property's `range` is appended; one at its `default` is remembered. */
    method ExitNumber(tree: ContextTree, ctx: nat) returns (stop: bool)
      requires tree.State().Valid() && ctx < tree.State().Size()
      modifies this`currentRange, this`currentDefault
      ensures !stop && State() == P.ExitNumber(old(State()), T.Path(tree.State(), ctx), ctx)
    {
      var path := tree.ToPath(ctx);
      if currentProperty.Some? && path == P.FieldPath(currentProperty.value, "range") {
        currentRange := currentRange + [ctx];
      }
      if currentProperty.Some? && path == P.FieldPath(currentProperty.value, "default") {
        currentDefault := Some(ctx);
      }
      stop := false;
    }
  }

  // ---------------------------------------------------------------------------
  // The parse functions

  function St(reader: StringReader, tree: ContextTree, listener: PropertyListener): P.PState
    reads reader, tree, listener
  {
    P.PState(reader.pos, tree.State(), listener.State())
  }

  /** The reader and the listener read the text being parsed, with the same float conversion. */
  ghost predicate Wired(src: P.Src, reader: StringReader, listener: PropertyListener)
  {
    reader.text == src.text && listener.jsonText == src.text && listener.floatOf == src.floatOf
  }

  /** A method ended as the function `f` says: with the same exception, or with the same value and state. */
  predicate Agrees(f: P.PRes, s: P.PState, r: Result<bool>)
  {
    r == f.r && (r.Ok? ==> s == f.s)
  }

  /**
   * A method that ends a loop pass agrees with `step`: it is done exactly
   * when the pass ends the loop, with `step`'s result, and otherwise leaves
   * the state the next pass starts from.
   */
  predicate Takes(step: P.Step, s: P.PState, done: bool, r: Result<bool>)
  {
    (done <==> step.Done?) && (done ==> Agrees(step.res, s, r)) && (!done ==> s == step.s)
  }

  /** What the loop of an array (`inArray`) or of an object returns after `step`. */
  ghost function Continue(src: P.Src, step: P.Step, ctx: nat, inArray: bool): P.PRes
    requires step.Next? ==> P.Pre(src, step.s, ctx)
  {
    if step.Done? then step.res
    else if inArray then P.ArrayLoop(src, step.s, ctx)
    else P.ObjectLoop(src, step.s, ctx)
  }


  /** `parseJson`: a root context at 0 and one value; the root is returned with what the value returned. */
  method ParseJson(text: string, listener: PropertyListener, closeEmpty: bool) returns (root: ContextTree, r: Result<bool>)
    requires listener.jsonText == text && listener.State() == P.Initial
    modifies listener
    ensures fresh(root)
    ensures var f := P.ParseJson(P.Src(text, listener.floatOf, closeEmpty));
      r == f.r && (r.Ok? ==> root.State() == f.s.tree && listener.State() == f.s.lis)
  {
    var reader := new StringReader(text);
    root := new ContextTree(reader.pos);
    r := ParseValue(P.Src(text, listener.floatOf, closeEmpty), reader, listener, root, 0);
  }

  method ParseValue(src: P.Src, reader: StringReader, listener: PropertyListener, tree: ContextTree, ctx: nat)
    returns (r: Result<bool>)
    requires Wired(src, reader, listener) && P.Pre(src, St(reader, tree, listener), ctx)
    modifies reader, tree, listener
    ensures Agrees(P.ParseValue(src, old(St(reader, tree, listener)), ctx), St(reader, tree, listener), r)
    decreases |src.text| - reader.pos, 2
  {
    ghost var s0 := St(reader, tree, listener);
    SkipWhitespace(reader);
    ghost var p := reader.pos;
    var c := reader.Peek();
    if c.Err? {
      assert P.ParseValue(src, s0, ctx).r == Err(P.IndexError);
      return Err(c.message);
    }
    ghost var s1 := P.PState(p, T.MakeChild(s0.tree, ctx, p, None), s0.lis);
    var child := tree.MakeChild(ctx, reader.pos, None);
    assert St(reader, tree, listener) == s1;
    if c.value == '{' {
      r := ParseObject(src, reader, listener, tree, child);
    } else if c.value == '[' {
      r := ParseArray(src, reader, listener, tree, child);
    } else if c.value == '"' {
      r := ParseString(src, reader, listener, tree, child);
    } else if c.value == 't' || c.value == 'f' {
      r := ParseBoolean(src, reader, listener, tree, child);
    } else if c.value == 'n' {
      r := ParseNull(src, reader, listener, tree, child);
    } else {
      r := ParseNumber(src, reader, listener, tree, child);
    }
  }

  method ParseObject(src: P.Src, reader: StringReader, listener: PropertyListener, tree: ContextTree, ctx: nat)
    returns (r: Result<bool>)
    requires Wired(src, reader, listener) && P.Pre(src, St(reader, tree, listener), ctx)
    modifies reader, tree, listener
    ensures Agrees(P.ParseObject(src, old(St(reader, tree, listener)), ctx), St(reader, tree, listener), r)
    decreases |src.text| - reader.pos, 1
  {
    var c := reader.Peek();
    if c.Err? {
      return Err(c.message);
    }
    if c.value != '{' {
      return Err("Expected {");
    }
    EnterObj(src, reader, listener, tree, ctx);
    reader.Skip(1);
    r := ObjectLoop(src, reader, listener, tree, ctx);
  }

  /** `parseObject`'s `while` loop, from just past the `{`. */
  method ObjectLoop(src: P.Src, reader: StringReader, listener: PropertyListener, tree: ContextTree, ctx: nat)
    returns (r: Result<bool>)
    requires Wired(src, reader, listener) && P.Pre(src, St(reader, tree, listener), ctx)
    modifies reader, tree, listener
    ensures Agrees(P.ObjectLoop(src, old(St(reader, tree, listener)), ctx), St(reader, tree, listener), r)
    decreases |src.text| - reader.pos, 5
  {
    ghost var goal := P.ObjectLoop(src, St(reader, tree, listener), ctx);
    while reader.pos < |reader.text|
      invariant Wired(src, reader, listener) && P.Pre(src, St(reader, tree, listener), ctx)
      invariant old(reader.pos) <= reader.pos
      invariant P.ObjectLoop(src, St(reader, tree, listener), ctx) == goal
      decreases |src.text| - reader.pos
    {
      var done;
      done, r := ObjectPass(src, reader, listener, tree, ctx);
      if done {
        return;
      }
    }
    return Err("Expected }");
  }

  /**
   * One pass of `parseObject`'s `while` loop: either the object ends (`done`,
   * with `r`), or a field and its `,` were read and the loop goes on.
   */
  method ObjectPass(src: P.Src, reader: StringReader, listener: PropertyListener, tree: ContextTree, ctx: nat)
    returns (done: bool, r: Result<bool>)
    requires Wired(src, reader, listener) && P.Pre(src, St(reader, tree, listener), ctx)
    requires reader.pos < |reader.text|
    modifies reader, tree, listener
    ensures done ==> Agrees(P.ObjectLoop(src, old(St(reader, tree, listener)), ctx), St(reader, tree, listener), r)
    ensures !done ==> (P.Pre(src, St(reader, tree, listener), ctx) && old(reader.pos) < reader.pos &&
      P.ObjectLoop(src, St(reader, tree, listener), ctx) == P.ObjectLoop(src, old(St(reader, tree, listener)), ctx))
    decreases |src.text| - reader.pos, 4
  {
    ghost var s0 := St(reader, tree, listener);
    SkipWhitespace(reader);
    ghost var p := reader.pos;
    var c := reader.Peek();
    if c.Err? {
      assert P.ObjectLoop(src, s0, ctx).r == Err(P.IndexError);
      return true, Err(c.message);
    }
    if c.value == '}' {
      assert P.ObjectLoop(src, s0, ctx) == P.CloseAtBrace(src, St(reader, tree, listener), p, ctx);
      r := CloseAtBrace(src, reader, listener, tree, ctx);
      return true, r;
    }
    done, r := ObjectField(src, reader, listener, tree, ctx, s0);
  }

  /** A pass of `parseObject`'s loop that meets a field: parse it in a new child context, then what follows it. */
  method ObjectField(src: P.Src, reader: StringReader, listener: PropertyListener, tree: ContextTree, ctx: nat, ghost s0: P.PState)
    returns (done: bool, r: Result<bool>)
    requires Wired(src, reader, listener) && P.Pre(src, s0, ctx) && s0.pos < |src.text|
    requires St(reader, tree, listener) == s0.(pos := P.WsEnd(src.text, s0.pos))
    requires reader.pos < |reader.text| && reader.text[reader.pos] != '}'
    modifies reader, tree, listener
    ensures done ==> Agrees(P.ObjectLoop(src, s0, ctx), St(reader, tree, listener), r)
    ensures !done ==> (P.Pre(src, St(reader, tree, listener), ctx) && s0.pos < reader.pos &&
      P.ObjectLoop(src, St(reader, tree, listener), ctx) == P.ObjectLoop(src, s0, ctx))
    decreases |src.text| - reader.pos, 3
  {
    ghost var p := reader.pos;
    ghost var s1 := P.PState(p, T.MakeChild(s0.tree, ctx, p, None), s0.lis);
    ghost var f := P.ParseField(src, s1, s0.tree.Size());
    ObjectLoopField(src, s0, ctx);
    var field := tree.MakeChild(ctx, reader.pos, None);
    assert St(reader, tree, listener) == s1;
    r := ParseField(src, reader, listener, tree, field);
    if r.Err? || r.value {
      return true, r;
    }
    done, r := AfterFieldPass(src, reader, listener, tree, ctx);
  }

  /** `P.ObjectLoop` at a pass that meets a field. */
  lemma ObjectLoopField(src: P.Src, s0: P.PState, ctx: nat)
    requires P.Pre(src, s0, ctx) && s0.pos < |src.text|
    requires P.WsEnd(src.text, s0.pos) < |src.text| && src.text[P.WsEnd(src.text, s0.pos)] != '}'
    ensures var p := P.WsEnd(src.text, s0.pos);
            var f := P.ParseField(src, P.PState(p, T.MakeChild(s0.tree, ctx, p, None), s0.lis), s0.tree.Size());
            P.ObjectLoop(src, s0, ctx) == if f.r.Err? || f.r.value then f else Continue(src, P.AfterField(src, f.s, ctx), ctx, false)
  {
  }

  /**
   * The `}` met at the head of a pass: as written the length is set and
   * `exitObject` called with the reader still on the `}`; the corrected
   * parser skips it first.
   */
  method CloseAtBrace(src: P.Src, reader: StringReader, listener: PropertyListener, tree: ContextTree, ctx: nat)
    returns (r: Result<bool>)
    requires Wired(src, reader, listener) && P.Pre(src, St(reader, tree, listener), ctx)
    requires reader.pos < |reader.text| && reader.text[reader.pos] == '}'
    modifies reader, tree, listener
    ensures Agrees(P.CloseAtBrace(src, old(St(reader, tree, listener)), old(reader.pos), ctx), St(reader, tree, listener), r)
  {
    ghost var end := if src.closeEmpty then reader.pos + 1 else reader.pos;
    ghost var next := P.PState(end, T.UpdateLength(tree.State(), ctx, end), listener.State());
    assert P.CloseAtBrace(src, St(reader, tree, listener), reader.pos, ctx) == P.ExitObj(src, next, ctx);
    if src.closeEmpty {
      reader.Skip(1);
    }
    tree.UpdateLength(ctx, reader.pos);
    assert St(reader, tree, listener) == next;
    r := ExitObj(src, reader, listener, tree, ctx);
  }

  /** The rest of a pass once a field has been read: `}` ends the object, `,` is skipped, anything else raises. */
  method AfterFieldPass(src: P.Src, reader: StringReader, listener: PropertyListener, tree: ContextTree, ctx: nat)
    returns (done: bool, r: Result<bool>)
    requires Wired(src, reader, listener) && P.Pre(src, St(reader, tree, listener), ctx)
    modifies reader, tree, listener
    ensures Takes(P.AfterField(src, old(St(reader, tree, listener)), ctx), St(reader, tree, listener), done, r)
  {
    ghost var s0 := St(reader, tree, listener);
    SkipWhitespace(reader);
    ghost var q := reader.pos;
    var c := reader.Peek();
    if c.Err? {
      assert P.AfterField(src, s0, ctx) == P.Done(P.PRes(s0.(pos := q), Err(P.IndexError)));
      return true, Err(c.message);
    }
    if c.value == '}' {
      r := CloseAfterField(src, reader, listener, tree, ctx, s0);
      return true, r;
    }
    if c.value != ',' {
      assert P.AfterField(src, s0, ctx) == P.Done(P.PRes(s0.(pos := q), Err("Expected ,")));
      return true, Err("Expected ,");
    }
    ghost var next := P.PState(q + 1, s0.tree, s0.lis);
    assert P.AfterField(src, s0, ctx) == P.Next(next);
    reader.Skip(1);
    assert St(reader, tree, listener) == next;
    return false, Ok(false);
  }

  /** The `}` after a field: skip it, set the object's length and call `exitObject`. */
  method CloseAfterField(src: P.Src, reader: StringReader, listener: PropertyListener, tree: ContextTree, ctx: nat, ghost s0: P.PState)
    returns (r: Result<bool>)
    requires Wired(src, reader, listener) && P.Pre(src, s0, ctx)
    requires St(reader, tree, listener) == s0.(pos := P.WsEnd(src.text, s0.pos))
    requires reader.pos < |reader.text| && reader.text[reader.pos] == '}'
    modifies reader, tree, listener
    ensures P.AfterField(src, s0, ctx).Done? && Agrees(P.AfterField(src, s0, ctx).res, St(reader, tree, listener), r)
  {
    ghost var q := reader.pos;
    ghost var next := P.PState(q + 1, T.UpdateLength(s0.tree, ctx, q + 1), s0.lis);
    assert P.AfterField(src, s0, ctx) == P.Done(P.ExitObj(src, next, ctx));
    reader.Skip(1);
    tree.UpdateLength(ctx, reader.pos);
    assert St(reader, tree, listener) == next;
    r := ExitObj(src, reader, listener, tree, ctx);
  }

  /** `listener.enterObject(ctx)`, which never stops the parse. */
  method EnterObj(src: P.Src, reader: StringReader, listener: PropertyListener, tree: ContextTree, ctx: nat)
    requires Wired(src, reader, listener) && P.Pre(src, St(reader, tree, listener), ctx)
    modifies listener
    ensures St(reader, tree, listener) == old(St(reader, tree, listener)).(lis := P.EnterObject(old(listener.State()), T.Path(tree.State(), ctx)))
    ensures P.Pre(src, St(reader, tree, listener), ctx)
  {
    var _ := listener.EnterObject(tree, ctx);
  }

  /** `listener.exitObject(ctx)` once the object's length is set. */
  method ExitObj(src: P.Src, reader: StringReader, listener: PropertyListener, tree: ContextTree, ctx: nat)
    returns (r: Result<bool>)
    requires Wired(src, reader, listener) && P.Pre(src, St(reader, tree, listener), ctx)
    modifies listener
    ensures Agrees(P.ExitObj(src, old(St(reader, tree, listener)), ctx), St(reader, tree, listener), r)
  {
    r := listener.ExitObject(tree, ctx);
  }

  method ParseField(src: P.Src, reader: StringReader, listener: PropertyListener, tree: ContextTree, ctx: nat)
    returns (r: Result<bool>)
    requires Wired(src, reader, listener) && P.Pre(src, St(reader, tree, listener), ctx)
    modifies reader, tree, listener
    ensures Agrees(P.ParseField(src, old(St(reader, tree, listener)), ctx), St(reader, tree, listener), r)
    decreases |src.text| - reader.pos, 2
  {
    var c := reader.Peek();
    if c.Err? {
      return Err(c.message);
    }
    if c.value != '"' {
      return Err("Expected \"");
    }
    var nameCtx := tree.MakeChild(ctx, reader.pos, None);
    var name := ParseFieldName(src, reader, listener, tree, nameCtx);
    if name.Err? {
      return Err(name.message);
    }
    r := FieldValue(src, reader, listener, tree, ctx, name.value);
  }

  /**
   * The rest of `parseField` once the name has been read. (`ctx.name = name`
   * and `enterField`, which returns false, change nothing the model keeps.)
   */
  method FieldValue(src: P.Src, reader: StringReader, listener: PropertyListener, tree: ContextTree, ctx: nat, name: string)
    returns (r: Result<bool>)
    requires Wired(src, reader, listener) && P.Pre(src, St(reader, tree, listener), ctx)
    modifies reader, tree, listener
    ensures Agrees(P.FieldValue(src, old(St(reader, tree, listener)), ctx, name), St(reader, tree, listener), r)
    decreases |src.text| - reader.pos, 3
  {
    ghost var s0 := St(reader, tree, listener);
    SkipWhitespace(reader);
    FieldValueCases(src, s0, ctx, name);
    var c := reader.Peek();
    if c.Err? {
      return Err(c.message);
    }
    if c.value != ':' {
      return Err("Expected :");
    }
    r := ColonValue(src, reader, listener, tree, ctx, name);
  }

  /** `P.FieldValue` by cases on the first character after the blanks. */
  lemma FieldValueCases(src: P.Src, s: P.PState, ctx: nat, name: string)
    requires P.Pre(src, s, ctx)
    ensures var p := P.WsEnd(src.text, s.pos);
            P.FieldValue(src, s, ctx, name) ==
              if p >= |src.text| then P.PRes(s.(pos := p), Err(P.IndexError))
              else if src.text[p] != ':' then P.PRes(s.(pos := p), Err("Expected :"))
              else ColonValueSpec(src, s.(pos := p), ctx, name)
  {
  }

  /** What `parseField` does from its `:` on, as the parse functions say. */
  ghost function ColonValueSpec(src: P.Src, s: P.PState, ctx: nat, name: string): P.PRes
    requires P.Pre(src, s, ctx) && s.pos < |src.text|
  {
    var v := P.ParseValue(src, P.PState(s.pos + 1, T.MakeChild(s.tree, ctx, s.pos + 1, Some(name)), s.lis), s.tree.Size());
    if v.r.Err? then v else P.PRes(v.s.(tree := T.UpdateLength(v.s.tree, ctx, v.s.pos)), v.r)
  }

  /** From the `:` of a field: the value in a new child context, then the field's length. */
  method ColonValue(src: P.Src, reader: StringReader, listener: PropertyListener, tree: ContextTree, ctx: nat, name: string)
    returns (r: Result<bool>)
    requires Wired(src, reader, listener) && P.Pre(src, St(reader, tree, listener), ctx)
    requires reader.pos < |src.text| && src.text[reader.pos] == ':'
    modifies reader, tree, listener
    ensures Agrees(ColonValueSpec(src, old(St(reader, tree, listener)), ctx, name), St(reader, tree, listener), r)
    decreases |src.text| - reader.pos, 2
  {
    ghost var s0 := St(reader, tree, listener);
    reader.Skip(1);
    var valueCtx := tree.MakeChild(ctx, reader.pos, Some(name));
    assert St(reader, tree, listener) == P.PState(s0.pos + 1, T.MakeChild(s0.tree, ctx, s0.pos + 1, Some(name)), s0.lis);
    r := ParseValue(src, reader, listener, tree, valueCtx);
    if r.Err? {
      return;
    }
    tree.UpdateLength(ctx, reader.pos);
  }

  /** The quoted run of `parseString` and `parseFieldName`: the reader ends just past the closing quote. */
  method ScanString(reader: StringReader, ghost start: nat) returns (found: bool)
    requires start < reader.pos == start + 1
    modifies reader
    ensures (reader.pos, found) == P.StringScan(reader.text, start + 1)
  {
    while reader.pos < |reader.text|
      invariant start < reader.pos
      invariant P.StringScan(reader.text, reader.pos) == P.StringScan(reader.text, start + 1)
      decreases |reader.text| - reader.pos
    {
      var c := reader.Peek();
      if c.value == '"' {
        reader.Skip(1);
        return true;
      } else if c.value == '\\' {
        reader.Skip(1);
      }
      reader.Skip(1);
    }
    return false;
  }

  method ParseFieldName(src: P.Src, reader: StringReader, listener: PropertyListener, tree: ContextTree, ctx: nat)
    returns (r: Result<string>)
    requires Wired(src, reader, listener) && P.Pre(src, St(reader, tree, listener), ctx)
    modifies reader, tree
    ensures var f := P.ParseFieldName(src, old(St(reader, tree, listener)), ctx);
      r == f.r && (r.Ok? ==> St(reader, tree, listener) == f.s)
  {
    ghost var s0 := St(reader, tree, listener);
    var c := reader.Peek();
    if c.Err? {
      return Err(c.message);
    }
    if c.value != '"' {
      return Err("Expected \"");
    }
    reader.Skip(1);
    var found := ScanString(reader, reader.pos - 1);
    if !found {
      return Err("Expected \"");
    }
    ghost var t := T.UpdateLength(s0.tree, ctx, reader.pos);
    assert P.ParseFieldName(src, s0, ctx) == P.NRes(P.PState(reader.pos, t, s0.lis), Ok(T.Unescape(T.GetText(t, src.text, ctx))));
    tree.UpdateLength(ctx, reader.pos);
    var text := tree.GetText(reader.text, ctx);
    return Ok(T.Unescape(text));
  }

  method ParseString(src: P.Src, reader: StringReader, listener: PropertyListener, tree: ContextTree, ctx: nat)
    returns (r: Result<bool>)
    requires Wired(src, reader, listener) && P.Pre(src, St(reader, tree, listener), ctx)
    modifies reader, tree, listener
    ensures Agrees(P.ParseString(src, old(St(reader, tree, listener)), ctx), St(reader, tree, listener), r)
  {
    ghost var s0 := St(reader, tree, listener);
    var c := reader.Peek();
    if c.Err? {
      return Err(c.message);
    }
    if c.value != '"' {
      return Err("Expected \"");
    }
    reader.Skip(1);
    var found := ScanString(reader, reader.pos - 1);
    if !found {
      return Err("Expected \"");
    }
    ghost var t := T.UpdateLength(s0.tree, ctx, reader.pos);
    assert P.ParseString(src, s0, ctx) == P.PRes(P.PState(reader.pos, t, P.ExitString(s0.lis, T.Path(t, ctx), ctx)), Ok(false));
    tree.UpdateLength(ctx, reader.pos);
    var stop := listener.ExitString(tree, ctx);
    return Ok(stop);
  }

  method ParseArray(src: P.Src, reader: StringReader, listener: PropertyListener, tree: ContextTree, ctx: nat)
    returns (r: Result<bool>)
    requires Wired(src, reader, listener) && P.Pre(src, St(reader, tree, listener), ctx)
    modifies reader, tree, listener
    ensures Agrees(P.ParseArray(src, old(St(reader, tree, listener)), ctx), St(reader, tree, listener), r)
    decreases |src.text| - reader.pos, 1
  {
    ghost var s0 := St(reader, tree, listener);
    var c := reader.Peek();
    if c.Err? {
      return Err(c.message);
    }
    if c.value != '[' {
      return Err("Expected [");
    }
    reader.Skip(1);
    ghost var goal := P.ParseArray(src, s0, ctx);
    assert St(reader, tree, listener) == P.PState(s0.pos + 1, s0.tree, s0.lis);
    assert goal == P.ArrayLoop(src, P.PState(s0.pos + 1, s0.tree, s0.lis), ctx);
    while reader.pos < |reader.text|
      invariant Wired(src, reader, listener) && P.Pre(src, St(reader, tree, listener), ctx)
      invariant old(reader.pos) < reader.pos
      invariant P.ArrayLoop(src, St(reader, tree, listener), ctx) == goal
      decreases |src.text| - reader.pos
    {
      var done;
      done, r := ArrayPass(src, reader, listener, tree, ctx);
      if done {
        return;
      }
    }
    return Err("Expected ]");
  }

  /**
   * One pass of `parseArray`'s `while` loop. A stop inside an element returns
   * the tuple `(jsonText, True)`, which every caller takes as true.
   */
  method ArrayPass(src: P.Src, reader: StringReader, listener: PropertyListener, tree: ContextTree, ctx: nat)
    returns (done: bool, r: Result<bool>)
    requires Wired(src, reader, listener) && P.Pre(src, St(reader, tree, listener), ctx)
    requires reader.pos < |reader.text|
    modifies reader, tree, listener
    ensures done ==> Agrees(P.ArrayLoop(src, old(St(reader, tree, listener)), ctx), St(reader, tree, listener), r)
    ensures !done ==> (P.Pre(src, St(reader, tree, listener), ctx) && old(reader.pos) < reader.pos &&
      P.ArrayLoop(src, St(reader, tree, listener), ctx) == P.ArrayLoop(src, old(St(reader, tree, listener)), ctx))
    decreases |src.text| - reader.pos, 4
  {
    ghost var s0 := St(reader, tree, listener);
    SkipWhitespace(reader);
    ghost var p := reader.pos;
    var c := reader.Peek();
    if c.Err? {
      assert P.ArrayLoop(src, s0, ctx).r == Err(P.IndexError);
      return true, Err(c.message);
    }
    if c.value == ']' {
      CloseBracket(src, reader, tree, listener, ctx, s0);
      return true, Ok(false);
    }
    done, r := ArrayElement(src, reader, listener, tree, ctx, s0);
  }

  /** The `]` met at the head of a pass: skip it and set the array's length. */
  method CloseBracket(src: P.Src, reader: StringReader, tree: ContextTree, listener: PropertyListener, ctx: nat, ghost s0: P.PState)
    requires Wired(src, reader, listener) && P.Pre(src, s0, ctx) && s0.pos < |src.text|
    requires St(reader, tree, listener) == s0.(pos := P.WsEnd(src.text, s0.pos))
    requires reader.pos < |reader.text| && reader.text[reader.pos] == ']'
    modifies reader, tree
    ensures Agrees(P.ArrayLoop(src, s0, ctx), St(reader, tree, listener), Ok(false))
  {
    ghost var p := reader.pos;
    ghost var next := P.PState(p + 1, T.UpdateLength(s0.tree, ctx, p + 1), s0.lis);
    assert P.ArrayLoop(src, s0, ctx) == P.PRes(next, Ok(false));
    reader.Skip(1);
    tree.UpdateLength(ctx, reader.pos);
    assert St(reader, tree, listener) == next;
  }

  /** A pass of `parseArray`'s loop that meets an element: parse it in a new child context, then what follows it. */
  method ArrayElement(src: P.Src, reader: StringReader, listener: PropertyListener, tree: ContextTree, ctx: nat, ghost s0: P.PState)
    returns (done: bool, r: Result<bool>)
    requires Wired(src, reader, listener) && P.Pre(src, s0, ctx) && s0.pos < |src.text|
    requires St(reader, tree, listener) == s0.(pos := P.WsEnd(src.text, s0.pos))
    requires reader.pos < |reader.text| && reader.text[reader.pos] != ']'
    modifies reader, tree, listener
    ensures done ==> Agrees(P.ArrayLoop(src, s0, ctx), St(reader, tree, listener), r)
    ensures !done ==> (P.Pre(src, St(reader, tree, listener), ctx) && s0.pos < reader.pos &&
      P.ArrayLoop(src, St(reader, tree, listener), ctx) == P.ArrayLoop(src, s0, ctx))
    decreases |src.text| - reader.pos, 3
  {
    ghost var p := reader.pos;
    ghost var s1 := P.PState(p, T.MakeChild(s0.tree, ctx, p, None), s0.lis);
    ghost var v := P.ParseValue(src, s1, s0.tree.Size());
    assert P.ArrayLoop(src, s0, ctx) == if v.r.Err? || v.r.value then v else Continue(src, P.AfterElement(src, v.s, ctx), ctx, true);
    var child := tree.MakeChild(ctx, reader.pos, None);
    assert St(reader, tree, listener) == s1;
    r := ParseValue(src, reader, listener, tree, child);
    if r.Err? || r.value {
      return true, r;
    }
    done, r := AfterElementPass(src, reader, listener, tree, ctx);
  }

  /** The rest of a pass once an element has been read: `]` ends the array, `,` is skipped, anything else raises. */
  method AfterElementPass(src: P.Src, reader: StringReader, listener: PropertyListener, tree: ContextTree, ctx: nat)
    returns (done: bool, r: Result<bool>)
    requires Wired(src, reader, listener) && P.Pre(src, St(reader, tree, listener), ctx)
    modifies reader, tree, listener
    ensures Takes(P.AfterElement(src, old(St(reader, tree, listener)), ctx), St(reader, tree, listener), done, r)
  {
    ghost var s0 := St(reader, tree, listener);
    SkipWhitespace(reader);
    ghost var q := reader.pos;
    var c := reader.Peek();
    if c.Err? {
      assert P.AfterElement(src, s0, ctx) == P.Done(P.PRes(s0.(pos := q), Err(P.IndexError)));
      return true, Err(c.message);
    }
    if c.value == ']' {
      ghost var next := P.PState(q + 1, T.UpdateLength(s0.tree, ctx, q + 1), s0.lis);
      assert P.AfterElement(src, s0, ctx) == P.Done(P.PRes(next, Ok(false)));
      reader.Skip(1);
      tree.UpdateLength(ctx, reader.pos);
      assert St(reader, tree, listener) == next;
      return true, Ok(false);
    }
    if c.value != ',' {
      assert P.AfterElement(src, s0, ctx) == P.Done(P.PRes(s0.(pos := q), Err("Expected ,")));
      return true, Err("Expected ,");
    }
    ghost var next := P.PState(q + 1, s0.tree, s0.lis);
    assert P.AfterElement(src, s0, ctx) == P.Next(next);
    reader.Skip(1);
    assert St(reader, tree, listener) == next;
    return false, Ok(false);
  }

  method ParseBoolean(src: P.Src, reader: StringReader, listener: PropertyListener, tree: ContextTree, ctx: nat)
    returns (r: Result<bool>)
    requires Wired(src, reader, listener) && P.Pre(src, St(reader, tree, listener), ctx)
    modifies reader, tree
    ensures Agrees(P.ParseBoolean(src, old(St(reader, tree, listener)), ctx), St(reader, tree, listener), r)
  {
    var c := reader.Peek();
    if c.Err? {
      return Err(c.message);
    }
    if c.value == 't' {
      r := ReadLiteral(src, reader, listener, tree, ctx, "true");
    } else if c.value == 'f' {
      r := ReadLiteral(src, reader, listener, tree, ctx, "false");
    } else {
      r := Err("Expected true or false");
    }
  }

  method ParseNull(src: P.Src, reader: StringReader, listener: PropertyListener, tree: ContextTree, ctx: nat)
    returns (r: Result<bool>)
    requires Wired(src, reader, listener) && P.Pre(src, St(reader, tree, listener), ctx)
    modifies reader, tree
    ensures Agrees(P.ParseNull(src, old(St(reader, tree, listener)), ctx), St(reader, tree, listener), r)
  {
    r := ReadLiteral(src, reader, listener, tree, ctx, "null");
  }

  /** `read(|word|)`, which must give `word`; the listener's `enterBoolean`, `exitBoolean` and `exitNull` return false. */
  method ReadLiteral(src: P.Src, reader: StringReader, listener: PropertyListener, tree: ContextTree, ctx: nat, word: string)
    returns (r: Result<bool>)
    requires Wired(src, reader, listener) && P.Pre(src, St(reader, tree, listener), ctx)
    modifies reader, tree
    ensures Agrees(P.Literal(src, old(St(reader, tree, listener)), ctx, word), St(reader, tree, listener), r)
  {
    var read := reader.Read(|word|);
    if read != word {
      return Err("Expected " + word);
    }
    tree.UpdateLength(ctx, reader.pos);
    return Ok(false);
  }

  method ParseNumber(src: P.Src, reader: StringReader, listener: PropertyListener, tree: ContextTree, ctx: nat)
    returns (r: Result<bool>)
    requires Wired(src, reader, listener) && P.Pre(src, St(reader, tree, listener), ctx)
    modifies reader, tree, listener
    ensures Agrees(P.ParseNumber(src, old(St(reader, tree, listener)), ctx), St(reader, tree, listener), r)
  {
    var num := reader.ReadWhile(P.IsNumberChar);
    NumberRun(reader.text, old(reader.pos), reader.pos);
    if |num| == 0 {
      return Err("Expected number");
    }
    tree.UpdateLength(ctx, reader.pos);
    var stop := listener.ExitNumber(tree, ctx);
    return Ok(stop);
  }
}
