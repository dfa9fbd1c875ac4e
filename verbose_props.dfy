/**
 * What the parser of sanity_check/verbose_json.py does with closers, commas
 * and the end of input, the empty-object defect and its correction, and what
 * `PropertyListener` reports for a float property.
 */
module VerboseProps {
  import opened Wrappers
  import opened Text
  import opened SanityUtils
  import opened VerboseTree
  import opened VerboseParse

  /** A path at which `PropertyListener` neither stops nor checks a property. */
  predicate Quiet(path: string)
  {
    path != PropertiesPath && !StartsWith(path, PropertyPrefix)
  }

  /** Where the reader stands after an empty object `{}` that starts at `pos`. */
  function EmptyEnd(src: Src, pos: int): int
  {
    if src.closeEmpty then pos + 2 else pos + 1
  }

  /**
   * An empty object: as written the reader is left on its `}` (one past the
   * `{`), and the corrected parser steps over it; either way the listener's
   * `exitObject` decides the result.
   */
  lemma EmptyObject(src: Src, s: PState, ctx: nat)
    requires Pre(src, s, ctx) && s.pos + 1 < |src.text| && src.text[s.pos] == '{' && src.text[s.pos + 1] == '}'
    requires !StartsWith(Path(s.tree, ctx), PropertyPrefix)
    ensures ParseObject(src, s, ctx) ==
      ExitObj(src, PState(EmptyEnd(src, s.pos), UpdateLength(s.tree, ctx, EmptyEnd(src, s.pos)), s.lis), ctx)
  {
    assert !IsWs('}');
    assert WsEnd(src.text, s.pos + 1) == s.pos + 1;
  }

  /** An empty object at a path the listener ignores completes without a stop. */
  lemma EmptyObjectQuiet(src: Src, s: PState, ctx: nat)
    requires Pre(src, s, ctx) && s.pos + 1 < |src.text| && src.text[s.pos] == '{' && src.text[s.pos + 1] == '}'
    requires Quiet(Path(s.tree, ctx))
    ensures ParseObject(src, s, ctx) ==
      PRes(PState(EmptyEnd(src, s.pos), UpdateLength(s.tree, ctx, EmptyEnd(src, s.pos)), s.lis), Ok(false))
  {
    EmptyObject(src, s, ctx);
  }

  /** Closing the properties object makes `exitObject` return true, which stops the parse with the listener unchanged. */
  lemma PropertiesObjectStops(src: Src, s: PState, ctx: nat)
    requires Pre(src, s, ctx) && s.pos + 1 < |src.text| && src.text[s.pos] == '{' && src.text[s.pos + 1] == '}'
    requires Path(s.tree, ctx) == PropertiesPath
    ensures ParseObject(src, s, ctx) ==
      PRes(PState(EmptyEnd(src, s.pos), UpdateLength(s.tree, ctx, EmptyEnd(src, s.pos)), s.lis), Ok(true))
  {
    assert !StartsWith(PropertiesPath, PropertyPrefix);
    EmptyObject(src, s, ctx);
  }

  /** After an element, `,` then blanks then `]` closes the array: a trailing comma is accepted. */
  lemma TrailingCommaArray(src: Src, s: PState, ctx: nat, q: int, p: int)
    requires Pre(src, s, ctx)
    requires q == WsEnd(src.text, s.pos) && q < |src.text| && src.text[q] == ','
    requires p == WsEnd(src.text, q + 1) && p < |src.text| && src.text[p] == ']'
    ensures AfterElement(src, s, ctx) == Next(PState(q + 1, s.tree, s.lis))
    ensures ArrayLoop(src, PState(q + 1, s.tree, s.lis), ctx) == PRes(PState(p + 1, UpdateLength(s.tree, ctx, p + 1), s.lis), Ok(false))
  {
    var s1 := PState(q + 1, s.tree, s.lis);
    assert q < |src.text| && src.text[q] == ',' && src.text[q] != ']';
    assert AfterElement(src, s, ctx) == Next(s1);
    assert |src.text| - s1.pos > 0 && WsEnd(src.text, s1.pos) == p;
  }

  /** After a field, `,` then blanks then `}` closes the object through the head-of-loop `}` branch. */
  lemma TrailingCommaObject(src: Src, s: PState, ctx: nat, q: int, p: int)
    requires Pre(src, s, ctx)
    requires q == WsEnd(src.text, s.pos) && q < |src.text| && src.text[q] == ','
    requires p == WsEnd(src.text, q + 1) && p < |src.text| && src.text[p] == '}'
    ensures AfterField(src, s, ctx) == Next(PState(q + 1, s.tree, s.lis))
    ensures ObjectLoop(src, PState(q + 1, s.tree, s.lis), ctx) == CloseAtBrace(src, PState(q + 1, s.tree, s.lis), p, ctx)
  {
    var s1 := PState(q + 1, s.tree, s.lis);
    assert q < |src.text| && src.text[q] == ',' && src.text[q] != '}';
    assert AfterField(src, s, ctx) == Next(s1);
    assert |src.text| - s1.pos > 0 && WsEnd(src.text, s1.pos) == p;
  }

  /** After an element or a field, any character other than `,` or the closer raises `Expected ,` where it stands. */
  lemma MissingComma(src: Src, s: PState, ctx: nat, q: int)
    requires Pre(src, s, ctx)
    requires q == WsEnd(src.text, s.pos) && q < |src.text| && src.text[q] != ','
    ensures src.text[q] != ']' ==> AfterElement(src, s, ctx) == Done(PRes(s.(pos := q), Err("Expected ,")))
    ensures src.text[q] != '}' ==> AfterField(src, s, ctx) == Done(PRes(s.(pos := q), Err("Expected ,")))
  {
  }

  /** Input that ends inside an array or an object, including right after a comma, raises `Expected ]` or `Expected }`. */
  lemma RunsOut(src: Src, s: PState, ctx: nat, q: int)
    requires Pre(src, s, ctx)
    requires q == WsEnd(src.text, s.pos) && q + 1 == |src.text| && src.text[q] == ','
    ensures AfterElement(src, s, ctx) == Next(s.(pos := |src.text|))
    ensures AfterField(src, s, ctx) == Next(s.(pos := |src.text|))
    ensures ArrayLoop(src, s.(pos := |src.text|), ctx).r == Err("Expected ]")
    ensures ObjectLoop(src, s.(pos := |src.text|), ctx).r == Err("Expected }")
  {
  }

  /**
   * `{}]` as the rest of an array: as written the empty object leaves the
   * reader on its `}`, which the array then rejects with `Expected ,`; the
   * corrected parser closes both.
   */
  lemma EmptyObjectInArray(src: Src, s: PState, ctx: nat)
    requires Pre(src, s, ctx) && s.pos + 2 < |src.text|
    requires src.text[s.pos] == '{' && src.text[s.pos + 1] == '}' && src.text[s.pos + 2] == ']'
    requires Quiet(Path(s.tree, ctx))
    ensures !src.closeEmpty ==> ArrayLoop(src, s, ctx).r == Err("Expected ,")
    ensures src.closeEmpty ==> ArrayLoop(src, s, ctx).r == Ok(false) && ArrayLoop(src, s, ctx).s.pos == s.pos + 3
  {
    var v := ElementIsEmptyObject(src, s, ctx);
    var end := EmptyEnd(src, s.pos);
    assert !IsWs('}') && !IsWs(']');
    assert WsEnd(src.text, end) == end;
    if src.closeEmpty {
      CloseArray(src, v, ctx, end);
    } else {
      MissingComma(src, v, ctx, end);
    }
  }

  /** The element loop meeting `{}`: the array goes on from the state the empty object leaves. */
  lemma ElementIsEmptyObject(src: Src, s: PState, ctx: nat) returns (v: PState)
    requires Pre(src, s, ctx) && s.pos + 1 < |src.text|
    requires src.text[s.pos] == '{' && src.text[s.pos + 1] == '}'
    requires Quiet(Path(s.tree, ctx))
    ensures Pre(src, v, ctx) && v.pos == EmptyEnd(src, s.pos) && v.lis == s.lis
    ensures AfterElement(src, v, ctx).Done? ==> ArrayLoop(src, s, ctx) == AfterElement(src, v, ctx).res
  {
    var t1 := MakeChild(s.tree, ctx, s.pos, None);
    assert !IsWs('{');
    PlainChild(src, s, ctx);
    ArrayLoopElement(src, s, ctx);
    EmptyObjectValue(src, PState(s.pos, t1, s.lis), s.tree.Size());
    v := ParseValue(src, PState(s.pos, t1, s.lis), s.tree.Size()).s;
  }

  /** After an element, blanks then `]` close the array. */
  lemma CloseArray(src: Src, s: PState, ctx: nat, q: int)
    requires Pre(src, s, ctx)
    requires q == WsEnd(src.text, s.pos) && q < |src.text| && src.text[q] == ']'
    ensures AfterElement(src, s, ctx) == Done(PRes(PState(q + 1, UpdateLength(s.tree, ctx, q + 1), s.lis), Ok(false)))
  {
  }

  /** A pass of the element loop that meets neither a blank nor `]` parses a value and goes on after it. */
  lemma ArrayLoopElement(src: Src, s: PState, ctx: nat)
    requires Pre(src, s, ctx) && s.pos < |src.text| && !IsWs(src.text[s.pos]) && src.text[s.pos] != ']'
    ensures var v := ParseValue(src, PState(s.pos, MakeChild(s.tree, ctx, s.pos, None), s.lis), s.tree.Size());
      !(v.r.Err? || v.r.value) && AfterElement(src, v.s, ctx).Done? ==> ArrayLoop(src, s, ctx) == AfterElement(src, v.s, ctx).res
  {
    assert WsEnd(src.text, s.pos) == s.pos;
  }

  /** A child without a field name, made at the current position, is a valid place to parse from, at its parent's path. */
  lemma PlainChild(src: Src, s: PState, ctx: nat)
    requires Pre(src, s, ctx)
    ensures var t1 := MakeChild(s.tree, ctx, s.pos, None);
            Pre(src, PState(s.pos, t1, s.lis), s.tree.Size()) && Path(t1, s.tree.Size()) == Path(s.tree, ctx)
  {
    var t1 := MakeChild(s.tree, ctx, s.pos, None);
    PathOfChild(s.tree, ctx, s.pos, None);
    assert Path(s.tree, ctx) + Segment(None) == Path(s.tree, ctx);
    LisOkGrows(s.lis, s.tree, t1);
  }

  /** An empty object as a value at a path the listener ignores. */
  lemma EmptyObjectValue(src: Src, s: PState, ctx: nat)
    requires Pre(src, s, ctx) && s.pos + 1 < |src.text| && src.text[s.pos] == '{' && src.text[s.pos + 1] == '}'
    requires Quiet(Path(s.tree, ctx))
    ensures ParseValue(src, s, ctx).r == Ok(false)
    ensures ParseValue(src, s, ctx).s.pos == EmptyEnd(src, s.pos)
    ensures ParseValue(src, s, ctx).s.lis == s.lis
  {
    var child := s.tree.Size();
    var t2 := MakeChild(s.tree, ctx, s.pos, None);
    assert !IsWs('{');
    assert WsEnd(src.text, s.pos) == s.pos;
    PlainChild(src, s, ctx);
    EmptyObjectQuiet(src, PState(s.pos, t2, s.lis), child);
  }

  /** The tree `parseJson` has built when it parses the first element of a top-level array. */
  function ArrayRoot(): Tree
  {
    MakeChild(Root(0), 0, 0, None)
  }

  lemma ArrayRootPath()
    ensures ArrayRoot().Valid() && ArrayRoot().Size() == 2 && Path(ArrayRoot(), 1) == "#"
  {
    var t := ArrayRoot();
    assert t == Tree([-1, 0], [None, None], [0, 0], [0, 0]);
    var c := Chain(t.parent, t.value, 1);
    assert c == Chain(t.parent, t.value, 0) + [None];
    assert c == [None, None];
    assert c[..1] == [None];
    assert Segments(c) == "";
  }

  /** A document that is an array starts with its element loop one past the `[`. */
  lemma TopLevelArray(src: Src)
    requires |src.text| > 0 && src.text[0] == '['
    ensures ParseJson(src) == ArrayLoop(src, PState(1, ArrayRoot(), Initial), 1)
  {
    assert !IsWs('[');
    assert WsEnd(src.text, 0) == 0;
    var s1 := PState(0, ArrayRoot(), Initial);
    assert ParseJson(src) == ParseArray(src, s1, 1);
  }

  /** The document `[{}]`: rejected with `Expected ,` as written, accepted by the corrected parser. */
  lemma ArrayOfEmptyObject(floatOf: string -> Option<bool>)
    ensures ParseJson(Src("[{}]", floatOf, false)).r == Err("Expected ,")
    ensures ParseJson(Src("[{}]", floatOf, true)).r == Ok(false)
  {
    ArrayRootPath();
    assert Quiet("#");
    var asWritten := Src("[{}]", floatOf, false);
    var corrected := Src("[{}]", floatOf, true);
    TopLevelArray(asWritten);
    TopLevelArray(corrected);
    EmptyObjectInArray(asWritten, PState(1, ArrayRoot(), Initial), 1);
    EmptyObjectInArray(corrected, PState(1, ArrayRoot(), Initial), 1);
  }

  // ---------------------------------------------------------------------------
  // Spans of the leaves

  /** A string's context spans its quotes and everything between them. */
  lemma StringSpan(src: Src, s: PState, ctx: nat)
    requires Pre(src, s, ctx) && s.tree.index[ctx] == s.pos
    requires ParseString(src, s, ctx).r.Ok?
    ensures GetText(ParseString(src, s, ctx).s.tree, src.text, ctx) == src.text[s.pos..ParseString(src, s, ctx).s.pos]
    ensures |GetText(ParseString(src, s, ctx).s.tree, src.text, ctx)| >= 2
  {
  }

  /** A number's context spans the longest run of number characters from where it starts. */
  lemma NumberSpan(src: Src, s: PState, ctx: nat)
    requires Pre(src, s, ctx) && s.tree.index[ctx] == s.pos
    requires ParseNumber(src, s, ctx).r.Ok?
    ensures GetText(ParseNumber(src, s, ctx).s.tree, src.text, ctx) == src.text[s.pos..NumEnd(src.text, s.pos)]
    ensures forall k :: s.pos <= k < NumEnd(src.text, s.pos) ==> IsNumberChar(src.text[k])
    ensures NumEnd(src.text, s.pos) == |src.text| || !IsNumberChar(src.text[NumEnd(src.text, s.pos)])
  {
    NumEndChars(src.text, s.pos);
  }

  // ---------------------------------------------------------------------------
  // PropertyListener

  /** A numeral that `is_float` rejects: not a string, integral, without a `.`. */
  predicate Integral(v: string, floatOf: string -> Option<bool>)
  {
    |v| > 0 && v[0] != '"' && floatOf(v) == Some(true) && '.' !in v
  }

  /** A numeral that `is_float` accepts. */
  predicate Fractional(v: string, floatOf: string -> Option<bool>)
  {
    |v| > 0 && v[0] != '"' && (floatOf(v) == Some(false) || (floatOf(v).Some? && '.' in v))
  }

  predicate FloatProperty(l: Lis, t: Tree, text: string, floatOf: string -> Option<bool>)
    requires t.Valid() && LisOk(l, t)
  {
    l.typ.Some? && Unescape(GetText(t, text, l.typ.value)) == "float" && |l.range| == 2 && l.default.Some?
  }

  /** A float property whose range ends and default are all integral gets three issues, each fixed by appending `.0`. */
  lemma IntegralFloatProperty(l: Lis, t: Tree, text: string, floatOf: string -> Option<bool>)
    requires t.Valid() && LisOk(l, t) && FloatProperty(l, t, text, floatOf)
    requires Integral(GetText(t, text, l.range[0]), floatOf)
    requires Integral(GetText(t, text, l.range[1]), floatOf)
    requires Integral(GetText(t, text, l.default.value), floatOf)
    ensures OnEntityProperty(l, t, text, floatOf) == Ok(l.issues + [
      BadValue(l.property, "start range", l.range[0]),
      BadValue(l.property, "end range", l.range[1]),
      BadValue(l.property, "default", l.default.value)])
  {
    var b0 := BadValue(l.property, "start range", l.range[0]);
    var b1 := BadValue(l.property, "end range", l.range[1]);
    var b2 := BadValue(l.property, "default", l.default.value);
    assert IsFloat(GetText(t, text, l.range[0]), floatOf) == Ok(false);
    assert IsFloat(GetText(t, text, l.range[1]), floatOf) == Ok(false);
    assert IsFloatOrString(GetText(t, text, l.default.value), floatOf) == Ok(false);
    assert RangeIssues(l, t, text, floatOf) == Ok(l.issues + [b0] + [b1]);
    assert l.issues + [b0] + [b1] + [b2] == l.issues + [b0, b1, b2];
  }

  /** A float property whose range ends and default are all fractional gets no issue. */
  lemma FractionalFloatProperty(l: Lis, t: Tree, text: string, floatOf: string -> Option<bool>)
    requires t.Valid() && LisOk(l, t) && FloatProperty(l, t, text, floatOf)
    requires Fractional(GetText(t, text, l.range[0]), floatOf)
    requires Fractional(GetText(t, text, l.range[1]), floatOf)
    requires Fractional(GetText(t, text, l.default.value), floatOf)
    ensures OnEntityProperty(l, t, text, floatOf) == Ok(l.issues)
  {
    assert IsFloat(GetText(t, text, l.range[0]), floatOf) == Ok(true);
    assert IsFloat(GetText(t, text, l.range[1]), floatOf) == Ok(true);
    assert IsFloatOrString(GetText(t, text, l.default.value), floatOf) == Ok(true);
    assert RangeIssues(l, t, text, floatOf) == Ok(l.issues + [] + []);
    assert l.issues + [] + [] + [] == l.issues;
  }

  /** A string default is accepted, but a string range end is reported. */
  lemma StringValues(v: string, floatOf: string -> Option<bool>)
    requires |v| > 0 && v[0] == '"'
    ensures IsFloatOrString(v, floatOf) == Ok(true)
    ensures IsFloat(v, floatOf) == Ok(false)
  {
  }

  /** Closing a property's object without a recorded type raises, whatever the rest of the property holds. */
  lemma PropertyWithoutType(l: Lis, t: Tree, path: string, text: string, floatOf: string -> Option<bool>)
    requires t.Valid() && LisOk(l, t) && l.typ.None? && StartsWith(path, PropertyPrefix)
    ensures ExitObject(l, t, path, text, floatOf) == Err(NoneText)
  {
    assert path != PropertiesPath;
  }

  /** Closing a property's object that raises nothing resets the fields and keeps the issues found so far. */
  lemma PropertyReset(l: Lis, t: Tree, path: string, text: string, floatOf: string -> Option<bool>)
    requires t.Valid() && LisOk(l, t) && StartsWith(path, PropertyPrefix)
    requires ExitObject(l, t, path, text, floatOf).Ok?
    ensures ExitObject(l, t, path, text, floatOf).value.1 == false
    ensures var l' := ExitObject(l, t, path, text, floatOf).value.0;
      l'.property.None? && l'.range == [] && l'.typ.None? && l'.default.None? && l.issues <= l'.issues
  {
    assert |path| > |PropertiesPath|;
    var r := OnEntityProperty(l, t, text, floatOf);
    assert ExitObject(l, t, path, text, floatOf) == Ok((Lis(None, [], None, None, r.value), false));
    IssuesGrow(l, t, text, floatOf);
  }

  /** `onEntityProperty` only appends to the issue list. */
  lemma IssuesGrow(l: Lis, t: Tree, text: string, floatOf: string -> Option<bool>)
    requires t.Valid() && LisOk(l, t)
    ensures OnEntityProperty(l, t, text, floatOf).Ok? ==> l.issues <= OnEntityProperty(l, t, text, floatOf).value
  {
    if l.typ.Some? && Unescape(GetText(t, text, l.typ.value)) == "float" && |l.range| == 2 {
      var ri := RangeIssues(l, t, text, floatOf);
      if ri.Ok? {
        assert l.issues <= ri.value;
      }
    }
  }

  /** Inside the properties object, opening an object makes its last path segment the current property. */
  lemma EnterNamesProperty(l: Lis, name: string)
    requires '/' !in name
    ensures EnterObject(l, PropertyPrefix + name).property == Some(name)
  {
    var path := PropertyPrefix + name;
    assert StartsWith(path, PropertyPrefix) by {
      assert path[..|PropertyPrefix|] == PropertyPrefix;
    }
    assert path == PropertiesPath + ['/'] + name;
    SplitLast(PropertiesPath, '/', name);
  }

  /** The last piece of `a + [c] + b`, split at `c`, is `b` when `b` has no `c`. */
  lemma {:induction false} SplitLast(a: string, c: char, b: string)
    requires c !in b
    ensures var parts := Split(a + [c] + b, c); parts[|parts| - 1] == b
    decreases |a|
  {
    if c !in a {
      SplitCons(a, c, b);
      SplitNoSeparator(b, c);
    } else {
      var i := IndexOf(a, c);
      var rest := a[i + 1..] + [c] + b;
      assert a + [c] + b == a[..i] + [c] + rest by {
        assert a == a[..i] + [c] + a[i + 1..];
      }
      SplitCons(a[..i], c, rest);
      SplitLast(a[i + 1..], c, b);
    }
  }
}
