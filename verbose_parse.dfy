/**
 * The recursive-descent parser of sanity_check/verbose_json.py and the
 * `PropertyListener` it reports to, as functions over an explicit state:
 * the reader's position, the span tree and the listener's fields. A raised
 * exception is an `Err` carrying its message; `Ok(true)` is a listener asking
 * to stop, which every caller passes straight up.
 *
 * `PropertyListener` is the only listener the program uses; the callbacks it
 * does not override are `JsonListener`'s, which return `False`, and they are
 * written here as that constant.
 */
module VerboseParse {
  import opened Wrappers
  import opened Text
  import opened SanityUtils
  import opened VerboseTree

  const IndexError := "IndexError: string index out of range"
  const NoneText := "AttributeError: 'NoneType' object has no attribute 'get_text'"
  const PropertiesPath := "#/minecraft:entity/description/properties"
  /** The path of every context inside the properties object starts with this. */
  const PropertyPrefix := PropertiesPath + "/"

  /**
   * The parser's input. `floatOf(v)` is Python's `float(v)`: `None` when it
   * raises `ValueError`, otherwise whether the number is integral.
   * `closeEmpty` selects whether an empty object consumes its `}`: `false` is
   * the program as written, `true` the corrected parser.
   */
  datatype Src = Src(text: string, floatOf: string -> Option<bool>, closeEmpty: bool)

  // ---------------------------------------------------------------------------
  // PropertyListener

  /** `currentProperty`, `currentRange`, `currentType`, `currentDefault` and `issueList`; contexts are arena ids. */
  datatype Lis = Lis(property: Option<string>, range: seq<nat>, typ: Option<nat>, default: Option<nat>, issues: seq<Issue>)

  const Initial := Lis(None, [], None, None, [])

  /** Every context the listener holds, and every context a fix refers to, exists in `t`. */
  predicate LisOk(l: Lis, t: Tree)
  {
    (forall k :: 0 <= k < |l.range| ==> l.range[k] < t.Size()) &&
    (l.typ.Some? ==> l.typ.value < t.Size()) &&
    (l.default.Some? ==> l.default.value < t.Size()) &&
    FixesIn(l.issues, t)
  }

  lemma LisOkGrows(l: Lis, t: Tree, t': Tree)
    requires LisOk(l, t) && t.Size() <= t'.Size()
    ensures LisOk(l, t')
  {
  }

  /** `path.split("/")[-1]`. */
  function LastSegment(path: string): string
  {
    var parts := Split(path, '/');
    parts[|parts| - 1]
  }

  /** An f-string's rendering of `currentProperty`. */
  function Shown(p: Option<string>): string
  {
    if p.Some? then p.value else "None"
  }

  /** `is_float` on a context's text; an empty text raises on `v[0]`. */
  function IsFloat(v: string, floatOf: string -> Option<bool>): Result<bool>
  {
    if |v| == 0 then Err(IndexError)
    else if v[0] == '"' then Ok(false)
    else
      match floatOf(v)
      case None => Ok(false)
      case Some(integral) => Ok(!(integral && '.' !in v))
  }

  /** `is_float_or_string`: the same, except that a string counts. */
  function IsFloatOrString(v: string, floatOf: string -> Option<bool>): Result<bool>
  {
    if |v| == 0 then Err(IndexError)
    else if v[0] == '"' then Ok(true)
    else
      match floatOf(v)
      case None => Ok(false)
      case Some(integral) => Ok(!(integral && '.' !in v))
  }

  /** The issue `onEntityProperty` appends for a bad value of `ctx`: its fix appends `.0`. */
  function BadValue(property: Option<string>, what: string, ctx: nat): Issue
  {
    Issue("Property " + Shown(property) + " has invalid " + what + " value", Some(AppendText(ctx, ".0")))
  }

  /** Every issue in `issues` carries a fix, and the fix refers to a context of `t`. */
  predicate FixesIn(issues: seq<Issue>, t: Tree)
  {
    forall k :: 0 <= k < |issues| ==> issues[k].fix.Some? && issues[k].fix.value.ctx < t.Size()
  }

  /**
   * `onEntityProperty`: the issue list after checking the property just
   * closed. A missing type, or a missing default on a float property with a
   * two-number range, raises on `None.get_text`.
   */
  function OnEntityProperty(l: Lis, t: Tree, text: string, floatOf: string -> Option<bool>): (r: Result<seq<Issue>>)
    requires t.Valid() && LisOk(l, t)
    ensures r.Ok? ==> FixesIn(r.value, t)
  {
    if l.typ.None? then Err(NoneText)
    else if Unescape(GetText(t, text, l.typ.value)) != "float" then Ok(l.issues)
    else if |l.range| != 2 then Ok(l.issues)
    else
      match RangeIssues(l, t, text, floatOf)
      case Err(e) => Err(e)
      case Ok(issues) =>
        if l.default.None? then Err(NoneText)
        else
          match IsFloatOrString(GetText(t, text, l.default.value), floatOf)
          case Err(e) => Err(e)
          case Ok(ok) => Ok(issues + (if ok then [] else [BadValue(l.property, "default", l.default.value)]))
  }

  /** The two range checks of `onEntityProperty`, in order. */
  function RangeIssues(l: Lis, t: Tree, text: string, floatOf: string -> Option<bool>): (r: Result<seq<Issue>>)
    requires t.Valid() && LisOk(l, t) && |l.range| == 2
    ensures r.Ok? ==> FixesIn(r.value, t)
  {
    match IsFloat(GetText(t, text, l.range[0]), floatOf)
    case Err(e) => Err(e)
    case Ok(start) =>
      var i1 := l.issues + (if start then [] else [BadValue(l.property, "start range", l.range[0])]);
      match IsFloat(GetText(t, text, l.range[1]), floatOf)
      case Err(e) => Err(e)
      case Ok(end) => Ok(i1 + (if end then [] else [BadValue(l.property, "end range", l.range[1])]))
  }

  /** `enterObject`: inside the properties object, the object's last path segment becomes the current property. */
  function EnterObject(l: Lis, path: string): Lis
  {
    if StartsWith(path, PropertyPrefix) then l.(property := Some(LastSegment(path))) else l
  }

  /**
   * `exitObject`: closing the properties object itself stops the parse;
   * closing an object inside it checks the property and resets the fields.
   */
  function ExitObject(l: Lis, t: Tree, path: string, text: string, floatOf: string -> Option<bool>): (r: Result<(Lis, bool)>)
    requires t.Valid() && LisOk(l, t)
    ensures r.Ok? ==> LisOk(r.value.0, t)
  {
    if path == PropertiesPath then Ok((l, true))
    else if StartsWith(path, PropertyPrefix) then
      match OnEntityProperty(l, t, text, floatOf)
      case Err(e) => Err(e)
      case Ok(issues) => Ok((Lis(None, [], None, None, issues), false))
    else Ok((l, false))
  }

  /** The path of the current property's field `field`, when there is a current property. */
  predicate AtField(l: Lis, path: string, field: string)
  {
    l.property.Some? && path == FieldPath(l.property.value, field)
  }

  /** `f"#/minecraft:entity/description/properties/{property}/{field}"`. */
  function FieldPath(property: string, field: string): string
  {
    PropertyPrefix + property + "/" + field
  }

  /** `exitString`: a string is remembered as the property's default or type. */
  function ExitString(l: Lis, path: string, ctx: nat): Lis
  {
    var l1 := if AtField(l, path, "default") then l.(default := Some(ctx)) else l;
    if AtField(l1, path, "type") then l1.(typ := Some(ctx)) else l1
  }

  /** `exitNumber`: a number is appended to the range, or remembered as the default. */
  function ExitNumber(l: Lis, path: string, ctx: nat): Lis
  {
    var l1 := if AtField(l, path, "range") then l.(range := l.range + [ctx]) else l;
    if AtField(l1, path, "default") then l1.(default := Some(ctx)) else l1
  }

  // ---------------------------------------------------------------------------
  // The scanner

  predicate IsWs(c: char)
  {
    c == ' ' || c == '\t' || c == '\n' || c == '\r'
  }

  predicate IsNumberChar(c: char)
  {
    c in "0123456789-+eE."
  }

  /** `skipWhitespace`: the first position at or after `p` that is not a blank, or the end. */
  function WsEnd(text: string, p: int): (r: int)
    requires 0 <= p <= |text|
    ensures p <= r <= |text|
    ensures r == |text| || !IsWs(text[r])
    decreases |text| - p
  {
    if p < |text| && IsWs(text[p]) then WsEnd(text, p + 1) else p
  }

  /** Every character `WsEnd` steps over is a blank. */
  lemma {:induction false} WsEndBlanks(text: string, p: int)
    requires 0 <= p <= |text|
    ensures forall k :: p <= k < WsEnd(text, p) ==> IsWs(text[k])
    decreases |text| - p
  {
    if p < |text| && IsWs(text[p]) {
      WsEndBlanks(text, p + 1);
    }
  }

  /** Where `read_while` over the number characters stops: the longest run, ending at the end or at another character. */
  function NumEnd(text: string, p: int): (r: int)
    requires 0 <= p <= |text|
    ensures p <= r <= |text|
    ensures r == |text| || !IsNumberChar(text[r])
    decreases |text| - p
  {
    if p < |text| && IsNumberChar(text[p]) then NumEnd(text, p + 1) else p
  }

  /** Every character `NumEnd` steps over may occur in a number. */
  lemma {:induction false} NumEndChars(text: string, p: int)
    requires 0 <= p <= |text|
    ensures forall k :: p <= k < NumEnd(text, p) ==> IsNumberChar(text[k])
    decreases |text| - p
  {
    if p < |text| && IsNumberChar(text[p]) {
      NumEndChars(text, p + 1);
    }
  }

  /**
   * The loop of `parseString` and `parseFieldName` from position `q`, just
   * past the opening quote: a backslash skips the next character, and a quote
   * ends the string. `found` is whether the quote was reached before the
   * input ran out; `end` is where the reader stands.
   */
  function StringScan(text: string, q: int): (r: (int, bool))
    requires q >= 0
    ensures r.1 ==> q < r.0 <= |text| && text[r.0 - 1] == '"'
    ensures !r.1 ==> r.0 >= |text|
    decreases |text| - q
  {
    if q >= |text| then (q, false)
    else if text[q] == '"' then (q + 1, true)
    else if text[q] == '\\' then StringScan(text, q + 2)
    else StringScan(text, q + 1)
  }

  // ---------------------------------------------------------------------------
  // The parse functions

  /** The character just before `pos` is `c`: the parser has consumed it. */
  predicate ClosedBy(text: string, pos: int, c: char)
  {
    0 < pos <= |text| && text[pos - 1] == c
  }

  /** The reader stands on `c`. */
  predicate AtChar(text: string, pos: int, c: char)
  {
    0 <= pos < |text| && text[pos] == c
  }

  datatype PState = PState(pos: int, tree: Tree, lis: Lis)

  /** The state after a parse function, and its return value or the exception it raised. */
  datatype PRes = PRes(s: PState, r: Result<bool>)

  /**
   * The end of a pass of an array's or an object's loop, after an element or
   * a field: the loop ends with `res`, or a `,` was read and the next pass
   * starts from `s`.
   */
  datatype Step = Done(res: PRes) | Next(s: PState)

  /** What `parseFieldName` leaves: the unescaped name, or the exception it raised. */
  datatype NRes = NRes(s: PState, r: Result<string>)

  predicate Pre(src: Src, s: PState, ctx: nat)
  {
    s.tree.Valid() && ctx < s.tree.Size() && 0 <= s.pos <= |src.text| && LisOk(s.lis, s.tree)
  }

  /** What every parse function keeps: a valid tree that only grows, and, on success, a position that moved forward. */
  predicate Post(src: Src, s: PState, r: PState, ok: bool)
  {
    r.tree.Valid() && s.tree.Size() <= r.tree.Size() && LisOk(r.lis, r.tree) &&
    (ok ==> s.pos <= r.pos <= |src.text|)
  }

  /** `parseValue`: skip blanks, then dispatch on the next character to a new child context. */
  function ParseValue(src: Src, s: PState, ctx: nat): (r: PRes)
    requires Pre(src, s, ctx)
    ensures Post(src, s, r.s, r.r.Ok?)
    decreases |src.text| - s.pos, 2
  {
    var p := WsEnd(src.text, s.pos);
    if p >= |src.text| then PRes(s.(pos := p), Err(IndexError))
    else
      var child := s.tree.Size();
      var s1 := PState(p, MakeChild(s.tree, ctx, p, None), s.lis);
      var c := src.text[p];
      if c == '{' then ParseObject(src, s1, child)
      else if c == '[' then ParseArray(src, s1, child)
      else if c == '"' then ParseString(src, s1, child)
      else if c == 't' || c == 'f' then ParseBoolean(src, s1, child)
      else if c == 'n' then ParseNull(src, s1, child)
      else ParseNumber(src, s1, child)
  }

  /** `listener.exitObject(ctx)` after the object's length has been set. */
  function ExitObj(src: Src, s: PState, ctx: nat): (r: PRes)
    requires Pre(src, s, ctx)
    ensures Post(src, s, r.s, true) && r.s.pos == s.pos
  {
    match ExitObject(s.lis, s.tree, Path(s.tree, ctx), src.text, src.floatOf)
    case Err(e) => PRes(s, Err(e))
    case Ok(x) => PRes(s.(lis := x.0), Ok(x.1))
  }

  /** `parseObject`: `{`, then the field loop. */
  function ParseObject(src: Src, s: PState, ctx: nat): (r: PRes)
    requires Pre(src, s, ctx)
    ensures Post(src, s, r.s, r.r.Ok?)
    ensures r.r == Ok(false) ==> ClosedBy(src.text, r.s.pos, '}') || (!src.closeEmpty && AtChar(src.text, r.s.pos, '}'))
    decreases |src.text| - s.pos, 1
  {
    if s.pos >= |src.text| then PRes(s, Err(IndexError))
    else if src.text[s.pos] != '{' then PRes(s, Err("Expected {"))
    else
      var l := EnterObject(s.lis, Path(s.tree, ctx));
      ObjectLoop(src, PState(s.pos + 1, s.tree, l), ctx)
  }

  /** One pass of `parseObject`'s `while` loop and the passes after it. */
  function ObjectLoop(src: Src, s: PState, ctx: nat): (r: PRes)
    requires Pre(src, s, ctx)
    ensures Post(src, s, r.s, r.r.Ok?)
    ensures r.r == Ok(false) ==> ClosedBy(src.text, r.s.pos, '}') || (!src.closeEmpty && AtChar(src.text, r.s.pos, '}'))
    decreases |src.text| - s.pos, 4
  {
    if |src.text| - s.pos <= 0 then PRes(s, Err("Expected }"))
    else
      var p := WsEnd(src.text, s.pos);
      if p >= |src.text| then PRes(s.(pos := p), Err(IndexError))
      else if src.text[p] == '}' then CloseAtBrace(src, s, p, ctx)
      else
        var field := s.tree.Size();
        var f := ParseField(src, PState(p, MakeChild(s.tree, ctx, p, None), s.lis), field);
        if f.r.Err? || f.r.value then f
        else
          var step := AfterField(src, f.s, ctx);
          if step.Done? then step.res else ObjectLoop(src, step.s, ctx)
  }

  /**
   * The `}` met at the head of a pass (an empty object, or one after a
   * trailing comma): as written, the length is set and `exitObject` called
   * without skipping the `}`; the corrected parser skips it first.
   */
  function CloseAtBrace(src: Src, s: PState, p: int, ctx: nat): (r: PRes)
    requires Pre(src, s, ctx) && s.pos <= p < |src.text| && src.text[p] == '}'
    ensures Post(src, s, r.s, r.r.Ok?)
    ensures r.s.pos == (if src.closeEmpty then p + 1 else p)
    ensures src.closeEmpty ==> ClosedBy(src.text, r.s.pos, '}')
    ensures !src.closeEmpty ==> AtChar(src.text, r.s.pos, '}')
  {
    var end := if src.closeEmpty then p + 1 else p;
    ExitObj(src, PState(end, UpdateLength(s.tree, ctx, end), s.lis), ctx)
  }

  /** The rest of a pass of `parseObject`'s loop once a field has been parsed: `}` closes, `,` continues. */
  function AfterField(src: Src, s: PState, ctx: nat): (r: Step)
    requires Pre(src, s, ctx)
    ensures r.Done? ==> Post(src, s, r.res.s, r.res.r.Ok?) && (r.res.r == Ok(false) ==> ClosedBy(src.text, r.res.s.pos, '}'))
    ensures r.Next? ==> r.s.tree == s.tree && r.s.lis == s.lis && s.pos < r.s.pos <= |src.text| && ClosedBy(src.text, r.s.pos, ',')
  {
    var q := WsEnd(src.text, s.pos);
    if q >= |src.text| then Done(PRes(s.(pos := q), Err(IndexError)))
    else if src.text[q] == '}' then
      Done(ExitObj(src, PState(q + 1, UpdateLength(s.tree, ctx, q + 1), s.lis), ctx))
    else if src.text[q] != ',' then Done(PRes(s.(pos := q), Err("Expected ,")))
    else Next(PState(q + 1, s.tree, s.lis))
  }

  /** `parseField`: the name, `:`, and the value in a child context carrying the name. */
  function ParseField(src: Src, s: PState, ctx: nat): (r: PRes)
    requires Pre(src, s, ctx)
    ensures Post(src, s, r.s, r.r.Ok?)
    decreases |src.text| - s.pos, 2
  {
    if s.pos >= |src.text| then PRes(s, Err(IndexError))
    else if src.text[s.pos] != '"' then PRes(s, Err("Expected \""))
    else
      var nameCtx := s.tree.Size();
      var n := ParseFieldName(src, PState(s.pos, MakeChild(s.tree, ctx, s.pos, None), s.lis), nameCtx);
      if n.r.Err? then PRes(n.s, Err(n.r.message))
      else FieldValue(src, n.s, ctx, n.r.value)
  }

  /** The rest of `parseField` once the name has been read: `:`, then the value, then the field's length. */
  function FieldValue(src: Src, s: PState, ctx: nat, name: string): (r: PRes)
    requires Pre(src, s, ctx)
    ensures Post(src, s, r.s, r.r.Ok?)
    decreases |src.text| - s.pos, 3
  {
    var p := WsEnd(src.text, s.pos);
    if p >= |src.text| then PRes(s.(pos := p), Err(IndexError))
    else if src.text[p] != ':' then PRes(s.(pos := p), Err("Expected :"))
    else
      var valueCtx := s.tree.Size();
      var v := ParseValue(src, PState(p + 1, MakeChild(s.tree, ctx, p + 1, Some(name)), s.lis), valueCtx);
      if v.r.Err? then v
      else PRes(v.s.(tree := UpdateLength(v.s.tree, ctx, v.s.pos)), v.r)
  }

  /** `parseFieldName`: the quoted name, unescaped. */
  function ParseFieldName(src: Src, s: PState, ctx: nat): (r: NRes)
    requires Pre(src, s, ctx)
    ensures Post(src, s, r.s, r.r.Ok?)
    ensures r.r.Ok? ==> s.pos < r.s.pos
  {
    if s.pos >= |src.text| then NRes(s, Err(IndexError))
    else if src.text[s.pos] != '"' then NRes(s, Err("Expected \""))
    else
      var (end, found) := StringScan(src.text, s.pos + 1);
      if !found then NRes(s.(pos := end), Err("Expected \""))
      else
        var t := UpdateLength(s.tree, ctx, end);
        NRes(PState(end, t, s.lis), Ok(Unescape(GetText(t, src.text, ctx))))
  }

  /** `parseString`: the quoted string; the listener sees it unescaped. */
  function ParseString(src: Src, s: PState, ctx: nat): (r: PRes)
    requires Pre(src, s, ctx)
    ensures Post(src, s, r.s, r.r.Ok?)
    ensures r.r.Ok? ==> s.pos < r.s.pos && src.text[s.pos] == '"' && src.text[r.s.pos - 1] == '"'
    ensures r.r.Ok? ==> r.s.tree.length[ctx] == r.s.pos - s.tree.index[ctx]
  {
    if s.pos >= |src.text| then PRes(s, Err(IndexError))
    else if src.text[s.pos] != '"' then PRes(s, Err("Expected \""))
    else
      var (end, found) := StringScan(src.text, s.pos + 1);
      if !found then PRes(s.(pos := end), Err("Expected \""))
      else
        var t := UpdateLength(s.tree, ctx, end);
        PRes(PState(end, t, ExitString(s.lis, Path(t, ctx), ctx)), Ok(false))
  }

  /** `parseArray`: `[`, then the element loop. */
  function ParseArray(src: Src, s: PState, ctx: nat): (r: PRes)
    requires Pre(src, s, ctx)
    ensures Post(src, s, r.s, r.r.Ok?)
    ensures r.r == Ok(false) ==> ClosedBy(src.text, r.s.pos, ']')
    decreases |src.text| - s.pos, 1
  {
    if s.pos >= |src.text| then PRes(s, Err(IndexError))
    else if src.text[s.pos] != '[' then PRes(s, Err("Expected ["))
    else ArrayLoop(src, PState(s.pos + 1, s.tree, s.lis), ctx)
  }

  /** One pass of `parseArray`'s `while` loop and the passes after it. */
  function ArrayLoop(src: Src, s: PState, ctx: nat): (r: PRes)
    requires Pre(src, s, ctx)
    ensures Post(src, s, r.s, r.r.Ok?)
    ensures r.r == Ok(false) ==> ClosedBy(src.text, r.s.pos, ']')
    decreases |src.text| - s.pos, 4
  {
    if |src.text| - s.pos <= 0 then PRes(s, Err("Expected ]"))
    else
      var p := WsEnd(src.text, s.pos);
      if p >= |src.text| then PRes(s.(pos := p), Err(IndexError))
      else if src.text[p] == ']' then PRes(PState(p + 1, UpdateLength(s.tree, ctx, p + 1), s.lis), Ok(false))
      else
        var child := s.tree.Size();
        var v := ParseValue(src, PState(p, MakeChild(s.tree, ctx, p, None), s.lis), child);
        if v.r.Err? || v.r.value then v
        else
          var step := AfterElement(src, v.s, ctx);
          if step.Done? then step.res else ArrayLoop(src, step.s, ctx)
  }

  /**
   * The rest of a pass of `parseArray`'s loop once an element has been
   * parsed. (A stop inside the element returns the tuple `(jsonText, True)`,
   * which its caller takes as true; here it is `Ok(true)`.)
   */
  function AfterElement(src: Src, s: PState, ctx: nat): (r: Step)
    requires Pre(src, s, ctx)
    ensures r.Done? ==> Post(src, s, r.res.s, r.res.r.Ok?) && (r.res.r == Ok(false) ==> ClosedBy(src.text, r.res.s.pos, ']'))
    ensures r.Next? ==> r.s.tree == s.tree && r.s.lis == s.lis && s.pos < r.s.pos <= |src.text| && ClosedBy(src.text, r.s.pos, ',')
  {
    var q := WsEnd(src.text, s.pos);
    if q >= |src.text| then Done(PRes(s.(pos := q), Err(IndexError)))
    else if src.text[q] == ']' then Done(PRes(PState(q + 1, UpdateLength(s.tree, ctx, q + 1), s.lis), Ok(false)))
    else if src.text[q] != ',' then Done(PRes(s.(pos := q), Err("Expected ,")))
    else Next(PState(q + 1, s.tree, s.lis))
  }

  /** `parseBoolean`: `read(4)` must give `true`, or `read(5)` must give `false`. */
  function ParseBoolean(src: Src, s: PState, ctx: nat): (r: PRes)
    requires Pre(src, s, ctx)
    ensures Post(src, s, r.s, r.r.Ok?)
    ensures s.pos < |src.text| && src.text[s.pos] == 't' ==>
      r.s.pos == s.pos + 4 && (r.r == Ok(false) <==> s.pos + 4 <= |src.text| && src.text[s.pos..s.pos + 4] == "true")
    ensures s.pos < |src.text| && src.text[s.pos] == 'f' ==>
      r.s.pos == s.pos + 5 && (r.r == Ok(false) <==> s.pos + 5 <= |src.text| && src.text[s.pos..s.pos + 5] == "false")
  {
    if s.pos >= |src.text| then PRes(s, Err(IndexError))
    else if src.text[s.pos] == 't' then Literal(src, s, ctx, "true")
    else if src.text[s.pos] == 'f' then Literal(src, s, ctx, "false")
    else PRes(s, Err("Expected true or false"))
  }

  /** `parseNull`: `read(4)` must give `null`. */
  function ParseNull(src: Src, s: PState, ctx: nat): (r: PRes)
    requires Pre(src, s, ctx)
    ensures Post(src, s, r.s, r.r.Ok?)
    ensures r.s.pos == s.pos + 4
    ensures r.r == Ok(false) <==> s.pos + 4 <= |src.text| && src.text[s.pos..s.pos + 4] == "null"
  {
    Literal(src, s, ctx, "null")
  }

  /** `read(|word|)` and compare with `word`; the reader advances by the word's length either way. */
  function Literal(src: Src, s: PState, ctx: nat, word: string): (r: PRes)
    requires Pre(src, s, ctx)
    ensures Post(src, s, r.s, r.r.Ok?)
    ensures r.s.pos == s.pos + |word| && r.r != Ok(true)
    ensures r.r.Ok? <==> s.pos + |word| <= |src.text| && src.text[s.pos..s.pos + |word|] == word
  {
    var end := s.pos + |word|;
    var read := PySlice(src.text, s.pos, end);
    assert end <= |src.text| ==> read == src.text[s.pos..end];
    if read != word then PRes(s.(pos := end), Err("Expected " + word))
    else PRes(PState(end, UpdateLength(s.tree, ctx, end), s.lis), Ok(false))
  }

  /** `parseNumber`: the longest run of number characters; an empty run raises. */
  function ParseNumber(src: Src, s: PState, ctx: nat): (r: PRes)
    requires Pre(src, s, ctx)
    ensures Post(src, s, r.s, r.r.Ok?)
    ensures r.s.pos == NumEnd(src.text, s.pos) && r.r != Ok(true)
    ensures r.r.Ok? <==> s.pos < r.s.pos
  {
    var end := NumEnd(src.text, s.pos);
    if end == s.pos then PRes(s, Err("Expected number"))
    else
      var t := UpdateLength(s.tree, ctx, end);
      PRes(PState(end, t, ExitNumber(s.lis, Path(t, ctx), ctx)), Ok(false))
  }

  /** `parseJson(jsonText, PropertyListener(jsonText))`: the root context at 0 and one value. */
  function ParseJson(src: Src): (r: PRes)
    ensures r.s.tree.Valid() && r.s.tree.Size() >= 1 && LisOk(r.s.lis, r.s.tree)
  {
    ParseValue(src, PState(0, Root(0), Initial), 0)
  }
}
