/**
 * The span tree of sanity_check/verbose_json.py: every `JsonContext` records
 * where its value starts in the text (`index`), how long it is (`length`),
 * its parent and an optional `value` (the field name, on the context that
 * holds a field's value). The tree is kept as an arena: context `k` is the
 * `k`-th one created, the first is the root made by `parseJson`, and a
 * child is always created after its parent.
 */
module VerboseTree {
  import opened Wrappers
  import opened Text
  import opened SanityUtils

  /** Python's reading of a slice bound `i` on a string of length `n`: negative counts from the end, and it is clamped. */
  function Norm(i: int, n: nat): (r: nat)
    ensures r <= n
    ensures 0 <= i <= n ==> r == i
  {
    if i < 0 then (if i + n < 0 then 0 else i + n) else if i > n then n else i
  }

  /** `s[i:j]` in Python. */
  function PySlice(s: string, i: int, j: int): string
  {
    var a := Norm(i, |s|);
    var b := Norm(j, |s|);
    if a <= b then s[a..b] else ""
  }

  datatype Tree = Tree(parent: seq<int>, value: seq<Option<string>>, index: seq<int>, length: seq<int>) {
    function Size(): nat
    {
      |parent|
    }

    /** All four columns cover the same contexts; context 0 is the root and every other context has an earlier parent. */
    predicate Valid()
    {
      |value| == |parent| && |index| == |parent| && |length| == |parent| &&
      (|parent| > 0 ==> parent[0] == -1) &&
      forall k :: 0 < k < |parent| ==> 0 <= parent[k] < k
    }
  }

  /** `JsonContext(reader)` in `parseJson`: the root, at the reader's position. */
  function Root(pos: int): (t: Tree)
    ensures t.Valid() && t.Size() == 1
  {
    Tree([-1], [None], [pos], [0])
  }

  /** `ctx.make_child(jsonText, v)`: a new context at `pos` with length 0; its id is the old size. */
  function MakeChild(t: Tree, p: nat, pos: int, v: Option<string>): (r: Tree)
    requires t.Valid() && p < t.Size()
    ensures r.Valid() && r.Size() == t.Size() + 1
  {
    Tree(t.parent + [p], t.value + [v], t.index + [pos], t.length + [0])
  }

  /** `update_length`: the context now ends at `pos`. */
  function UpdateLength(t: Tree, id: nat, pos: int): (r: Tree)
    requires t.Valid() && id < t.Size()
    ensures r.Valid() && r.Size() == t.Size()
    ensures r.parent == t.parent && r.value == t.value && r.index == t.index
  {
    t.(length := t.length[id := pos - t.index[id]])
  }

  /** `get_text`: `text[index:index + length]`. */
  function GetText(t: Tree, text: string, id: nat): string
    requires t.Valid() && id < t.Size()
  {
    PySlice(text, t.index[id], t.index[id] + t.length[id])
  }

  /** After `update_length(pos)`, the context's text is what lies between its start and `pos`. */
  lemma UpdateThenGet(t: Tree, text: string, id: nat, pos: int)
    requires t.Valid() && id < t.Size() && 0 <= t.index[id] <= pos <= |text|
    ensures GetText(UpdateLength(t, id, pos), text, id) == text[t.index[id]..pos]
  {
  }

  // ---------------------------------------------------------------------------
  // Paths

  /** The values met from the root down to `id`. */
  function Chain(parent: seq<int>, value: seq<Option<string>>, id: nat): seq<Option<string>>
    requires |value| == |parent| && id < |parent|
    requires forall k :: 0 < k < |parent| ==> 0 <= parent[k] < k
    decreases id
  {
    (if id == 0 then [] else Chain(parent, value, parent[id])) + [value[id]]
  }

  /** `"/" + v` for each string value, in order; `None` contributes nothing. */
  function Segments(vs: seq<Option<string>>): string
  {
    if |vs| == 0 then ""
    else Segments(vs[..|vs| - 1]) + Segment(vs[|vs| - 1])
  }

  function Segment(v: Option<string>): string
  {
    if v.Some? then "/" + v.value else ""
  }

  /** `to_path`. */
  function Path(t: Tree, id: nat): string
    requires t.Valid() && id < t.Size()
  {
    "#" + Segments(Chain(t.parent, t.value, id))
  }

  lemma SegmentsSnoc(vs: seq<Option<string>>, v: Option<string>)
    ensures Segments(vs + [v]) == Segments(vs) + Segment(v)
  {
    assert (vs + [v])[..|vs|] == vs;
  }

  /** Making a child leaves the chain of every earlier context as it was. */
  lemma {:induction false} ChainOfEarlier(t: Tree, p: nat, pos: int, v: Option<string>, id: nat)
    requires t.Valid() && p < t.Size() && id < t.Size()
    ensures Chain(MakeChild(t, p, pos, v).parent, MakeChild(t, p, pos, v).value, id) == Chain(t.parent, t.value, id)
    decreases id
  {
    var r := MakeChild(t, p, pos, v);
    assert r.parent[id] == t.parent[id] && r.value[id] == t.value[id];
    if id > 0 {
      ChainOfEarlier(t, p, pos, v, t.parent[id]);
    }
  }

  /**
   * The path of a new child is its parent's path, extended by `"/" + v` when
   * the child carries a field name `v`; the paths of the existing contexts do
   * not change.
   */
  lemma PathOfChild(t: Tree, p: nat, pos: int, v: Option<string>)
    requires t.Valid() && p < t.Size()
    ensures Path(MakeChild(t, p, pos, v), t.Size()) == Path(t, p) + Segment(v)
  {
    var r := MakeChild(t, p, pos, v);
    var n := t.Size();
    ChainOfEarlier(t, p, pos, v, p);
    assert n != 0 && r.parent[n] == p;
    assert Chain(r.parent, r.value, n) == Chain(r.parent, r.value, p) + [v];
    SegmentsSnoc(Chain(t.parent, t.value, p), v);
  }

  /** Making a child does not change the path of any existing context. */
  lemma PathOfEarlier(t: Tree, p: nat, pos: int, v: Option<string>, id: nat)
    requires t.Valid() && p < t.Size() && id < t.Size()
    ensures Path(MakeChild(t, p, pos, v), id) == Path(t, id)
  {
    ChainOfEarlier(t, p, pos, v, id);
  }

  // ---------------------------------------------------------------------------
  // set_text

  /**
   * `set_text(jsonText, v)` on context `id`: the text with the context's
   * span replaced by `v`, and the tree with the context's length set to `|v|`
   * and every context that starts after it moved by the change in length.
   */
  function SetText(t: Tree, text: string, id: nat, v: string): (r: (string, Tree))
    requires t.Valid() && id < t.Size()
    ensures r.1.Valid() && r.1.Size() == t.Size() && r.1.parent == t.parent && r.1.value == t.value
  {
    var i := t.index[id];
    var l := t.length[id];
    var change := |v| - l;
    var newText := PySlice(text, 0, i) + v + PySlice(text, i + l, |text|);
    var index := seq(|t.index|, k requires 0 <= k < |t.index| => if t.index[k] > i then t.index[k] + change else t.index[k]);
    (newText, Tree(t.parent, t.value, index, t.length[id := |v|]))
  }

  /** A context whose span lies inside the text and is not empty. */
  predicate InBounds(t: Tree, text: string, id: nat)
    requires t.Valid() && id < t.Size()
  {
    0 <= t.index[id] && 0 < t.length[id] && t.index[id] + t.length[id] <= |text|
  }

  predicate Disjoint(t: Tree, a: nat, b: nat)
    requires t.Valid() && a < t.Size() && b < t.Size()
  {
    t.index[a] + t.length[a] <= t.index[b] || t.index[b] + t.length[b] <= t.index[a]
  }

  /** After `set_text`, the context's own text is the new value. */
  lemma SetTextSelf(t: Tree, text: string, id: nat, v: string)
    requires t.Valid() && id < t.Size() && InBounds(t, text, id)
    ensures GetText(SetText(t, text, id, v).1, SetText(t, text, id, v).0, id) == v
    ensures |v| > 0 ==> InBounds(SetText(t, text, id, v).1, SetText(t, text, id, v).0, id)
    ensures |SetText(t, text, id, v).0| == |text| + |v| - t.length[id]
  {
    var (text', t') := SetText(t, text, id, v);
    var i := t.index[id];
    assert text' == text[..i] + v + text[i + t.length[id]..];
    assert t'.index[id] == i;
    assert text'[i..i + |v|] == v;
  }

  /**
   * After `set_text` on `a`, a context `b` whose span does not overlap `a`'s
   * still has the same text in the new text, and still lies inside it.
   */
  lemma SetTextKeepsDisjoint(t: Tree, text: string, a: nat, b: nat, v: string)
    requires t.Valid() && a < t.Size() && b < t.Size() && a != b
    requires InBounds(t, text, a) && InBounds(t, text, b) && Disjoint(t, a, b)
    ensures GetText(SetText(t, text, a, v).1, SetText(t, text, a, v).0, b) == GetText(t, text, b)
    ensures InBounds(SetText(t, text, a, v).1, SetText(t, text, a, v).0, b)
  {
    var r := SetText(t, text, a, v);
    var i, l := t.index[a], t.length[a];
    var ib, lb := t.index[b], t.length[b];
    SpliceText(t, text, a, v);
    assert r.1.length[b] == lb;
    assert r.1.index[b] == if ib >= i + l then ib + |v| - l else ib;
    SpliceSlice(text, i, l, v, ib, lb);
  }

  /** Replacing `text[i..i+l]` by `v` keeps a piece `text[ib..ib+lb]` apart from it, moved by `|v| - l` when it lies after. */
  lemma SpliceSlice(text: string, i: nat, l: nat, v: string, ib: nat, lb: nat)
    requires i + l <= |text| && ib + lb <= |text| && (i + l <= ib || ib + lb <= i)
    ensures var jb := if ib >= i + l then ib + |v| - l else ib;
            var nt := text[..i] + v + text[i + l..];
            jb + lb <= |nt| && PySlice(nt, jb, jb + lb) == PySlice(text, ib, ib + lb)
  {
    var jb := if ib >= i + l then ib + |v| - l else ib;
    var nt := text[..i] + v + text[i + l..];
    assert |nt| == |text| + |v| - l;
    PySliceInside(text, ib, ib + lb);
    PySliceInside(nt, jb, jb + lb);
    if ib >= i + l {
      SpliceKeepsAfter(text, i, l, v, ib, lb);
    } else {
      SpliceKeepsBefore(text, i, l, v, ib, lb);
    }
  }

  /** A Python slice whose bounds lie inside the string is the Dafny slice. */
  lemma PySliceInside(s: string, i: int, j: int)
    requires 0 <= i <= j <= |s|
    ensures PySlice(s, i, j) == s[i..j]
  {
  }

  /** The text `set_text` returns, for a span inside the text. */
  lemma SpliceText(t: Tree, text: string, a: nat, v: string)
    requires t.Valid() && a < t.Size() && InBounds(t, text, a)
    ensures SetText(t, text, a, v).0 == text[..t.index[a]] + v + text[t.index[a] + t.length[a]..]
  {
  }

  /** Replacing `text[i..i+l]` by `v` moves a later piece `text[ib..ib+lb]` by `|v| - l`. */
  lemma SpliceKeepsAfter(text: string, i: nat, l: nat, v: string, ib: nat, lb: nat)
    requires i + l <= ib && ib + lb <= |text|
    ensures (text[..i] + v + text[i + l..])[ib + |v| - l..ib + |v| - l + lb] == text[ib..ib + lb]
  {
    var text' := text[..i] + v + text[i + l..];
    var tail := text[i + l..];
    assert text'[i + |v|..] == tail;
    var d := ib - (i + l);
    assert text'[ib + |v| - l..ib + |v| - l + lb] == text'[i + |v|..][d..d + lb];
    assert tail[d..d + lb] == text[ib..ib + lb];
  }

  /** Replacing `text[i..i+l]` by `v` leaves an earlier piece `text[ib..ib+lb]` where it was. */
  lemma SpliceKeepsBefore(text: string, i: nat, l: nat, v: string, ib: nat, lb: nat)
    requires ib + lb <= i && i + l <= |text|
    ensures (text[..i] + v + text[i + l..])[ib..ib + lb] == text[ib..ib + lb]
  {
    var text' := text[..i] + v + text[i + l..];
    assert text'[..i] == text[..i];
    assert text'[ib..ib + lb] == text'[..i][ib..ib + lb];
  }

  /** Two contexts that both avoid `a` and each other still avoid each other after `set_text` on `a`. */
  lemma SetTextKeepsApart(t: Tree, text: string, a: nat, b: nat, c: nat, v: string)
    requires t.Valid() && a < t.Size() && b < t.Size() && c < t.Size() && a != b && a != c
    requires InBounds(t, text, a) && InBounds(t, text, b) && InBounds(t, text, c)
    requires Disjoint(t, a, b) && Disjoint(t, a, c) && Disjoint(t, b, c)
    ensures Disjoint(SetText(t, text, a, v).1, b, c)
  {
  }

  /** With a value that is not empty, the fixed context still avoids `b`. */
  lemma SetTextStaysApart(t: Tree, text: string, a: nat, b: nat, v: string)
    requires t.Valid() && a < t.Size() && b < t.Size() && a != b
    requires InBounds(t, text, a) && InBounds(t, text, b) && Disjoint(t, a, b) && |v| > 0
    ensures Disjoint(SetText(t, text, a, v).1, a, b)
  {
  }

  // ---------------------------------------------------------------------------
  // Applying fixes one after the other

  /** The closure of a fix applied to `text`: `set_text(text, get_text(text) + suffix)`. */
  function ApplyFix(t: Tree, text: string, f: Fix): (r: (string, Tree))
    requires t.Valid() && f.ctx < t.Size()
    ensures r.1.Valid() && r.1.Size() == t.Size()
  {
    SetText(t, text, f.ctx, GetText(t, text, f.ctx) + f.suffix)
  }

  /** The fixes in order, each given the text (and the moved spans) the previous one left. */
  function ApplyFixes(t: Tree, text: string, fixes: seq<Fix>): (r: (string, Tree))
    requires t.Valid() && forall k :: 0 <= k < |fixes| ==> fixes[k].ctx < t.Size()
    ensures r.1.Valid() && r.1.Size() == t.Size()
    decreases |fixes|
  {
    if |fixes| == 0 then (text, t)
    else
      var (text', t') := ApplyFix(t, text, fixes[0]);
      ApplyFixes(t', text', fixes[1..])
  }

  /** Distinct contexts with non-empty spans inside `text` that pairwise do not overlap. */
  predicate Spans(t: Tree, text: string, ids: seq<nat>)
    requires t.Valid()
  {
    (forall k :: 0 <= k < |ids| ==> ids[k] < t.Size() && InBounds(t, text, ids[k])) &&
    (forall j, k :: 0 <= j < k < |ids| ==> ids[j] != ids[k] && Disjoint(t, ids[j], ids[k]))
  }

  predicate Fixes(fixes: seq<Fix>, id: nat)
  {
    exists k :: 0 <= k < |fixes| && fixes[k].ctx == id
  }

  /** A tracked context other than `a`, itself tracked, does not overlap `a`. */
  lemma ApartFromTracked(t: Tree, text: string, ids: seq<nat>, a: nat, k: nat)
    requires t.Valid() && Spans(t, text, ids) && a in ids && k < |ids| && ids[k] != a
    ensures a < t.Size() && Disjoint(t, a, ids[k])
  {
    var m :| 0 <= m < |ids| && ids[m] == a;
    if m < k {
      assert Disjoint(t, ids[m], ids[k]);
    } else {
      assert Disjoint(t, ids[k], ids[m]);
    }
  }

  /** One fix keeps the tracked spans valid: its own grows, the others keep their text. */
  lemma ApplyFixStep(t: Tree, text: string, f: Fix, ids: seq<nat>)
    requires t.Valid() && f.ctx < t.Size() && f.ctx in ids && Spans(t, text, ids)
    ensures Spans(ApplyFix(t, text, f).1, ApplyFix(t, text, f).0, ids)
    ensures GetText(ApplyFix(t, text, f).1, ApplyFix(t, text, f).0, f.ctx) == GetText(t, text, f.ctx) + f.suffix
    ensures forall k :: 0 <= k < |ids| && ids[k] != f.ctx ==>
      GetText(ApplyFix(t, text, f).1, ApplyFix(t, text, f).0, ids[k]) == GetText(t, text, ids[k])
  {
    var a := f.ctx;
    var v := GetText(t, text, a) + f.suffix;
    var (text', t') := ApplyFix(t, text, f);
    SetTextSelf(t, text, a, v);
    assert |GetText(t, text, a)| == t.length[a];
    forall k | 0 <= k < |ids| && ids[k] != a
      ensures GetText(t', text', ids[k]) == GetText(t, text, ids[k]) && InBounds(t', text', ids[k]) && Disjoint(t', a, ids[k])
    {
      ApartFromTracked(t, text, ids, a, k);
      SetTextKeepsDisjoint(t, text, a, ids[k], v);
      SetTextStaysApart(t, text, a, ids[k], v);
    }
    forall j, k | 0 <= j < k < |ids| ensures Disjoint(t', ids[j], ids[k]) {
      if ids[j] != a && ids[k] != a {
        ApartFromTracked(t, text, ids, a, j);
        ApartFromTracked(t, text, ids, a, k);
        SetTextKeepsApart(t, text, a, ids[j], ids[k], v);
      }
    }
  }

  /**
   * The fix threading of `find_incorrect_property_types`: when the fixed
   * contexts are among spans that do not overlap and each is fixed once, the
   * final text gives every fixed context its original text followed by its
   * suffix, and every other tracked context its original text.
   */
  lemma {:induction false} FixesThreaded(t: Tree, text: string, fixes: seq<Fix>, ids: seq<nat>)
    requires t.Valid() && Spans(t, text, ids)
    requires forall k :: 0 <= k < |fixes| ==> fixes[k].ctx in ids
    requires forall j, k :: 0 <= j < k < |fixes| ==> fixes[j].ctx != fixes[k].ctx
    ensures forall k :: 0 <= k < |fixes| ==> fixes[k].ctx < t.Size()
    ensures Spans(ApplyFixes(t, text, fixes).1, ApplyFixes(t, text, fixes).0, ids)
    ensures forall k :: 0 <= k < |fixes| ==>
      GetText(ApplyFixes(t, text, fixes).1, ApplyFixes(t, text, fixes).0, fixes[k].ctx) == GetText(t, text, fixes[k].ctx) + fixes[k].suffix
    ensures forall k :: 0 <= k < |ids| && !Fixes(fixes, ids[k]) ==>
      GetText(ApplyFixes(t, text, fixes).1, ApplyFixes(t, text, fixes).0, ids[k]) == GetText(t, text, ids[k])
    decreases |fixes|
  {
    if |fixes| > 0 {
      var f := fixes[0];
      var rest := fixes[1..];
      var (text', t') := ApplyFix(t, text, f);
      ApplyFixStep(t, text, f, ids);
      FixesThreaded(t', text', rest, ids);
      var (text'', t'') := ApplyFixes(t, text, fixes);
      assert (text'', t'') == ApplyFixes(t', text', rest);
      forall k | 0 <= k < |fixes|
        ensures GetText(t'', text'', fixes[k].ctx) == GetText(t, text, fixes[k].ctx) + fixes[k].suffix
      {
        if k == 0 {
          assert !Fixes(rest, f.ctx) by {
            forall m | 0 <= m < |rest| ensures rest[m].ctx != f.ctx { assert rest[m] == fixes[m + 1]; }
          }
          var i :| 0 <= i < |ids| && ids[i] == f.ctx;
        } else {
          assert rest[k - 1] == fixes[k];
          assert fixes[k].ctx != f.ctx;
          var i :| 0 <= i < |ids| && ids[i] == fixes[k].ctx;
        }
      }
      forall k | 0 <= k < |ids| && !Fixes(fixes, ids[k])
        ensures GetText(t'', text'', ids[k]) == GetText(t, text, ids[k])
      {
        assert ids[k] != f.ctx;
        assert !Fixes(rest, ids[k]) by {
          forall m | 0 <= m < |rest| ensures rest[m].ctx != ids[k] { assert rest[m] == fixes[m + 1]; }
        }
      }
    }
  }

  // ---------------------------------------------------------------------------
  // unescape_string

  /** `string[1:-1]`, then `\"` becomes `"`, then `\\` becomes `\`. */
  function Unescape(s: string): string
  {
    ReplaceAll(ReplaceAll(PySlice(s, 1, -1), "\\\"", "\""), "\\\\", "\\")
  }

  lemma NoBackslashNoMatch(x: string, pat: string)
    requires '\\' !in x && |pat| > 0 && pat[0] == '\\'
    ensures Find(x, pat) < 0
  {
  }

  /** A quoted text without backslashes unescapes to what lies between the quotes. */
  lemma UnescapePlain(x: string)
    requires '\\' !in x
    ensures Unescape("\"" + x + "\"") == x
  {
    var s := "\"" + x + "\"";
    assert PySlice(s, 1, -1) == x;
    NoBackslashNoMatch(x, "\\\"");
    NoBackslashNoMatch(x, "\\\\");
  }

  /** The escaped quote and the escaped backslash, each on its own. */
  lemma UnescapeExamples()
    ensures Unescape("\"\\\"\"") == "\""
    ensures Unescape("\"\\\\\"") == "\\"
    ensures Unescape("\"") == ""
  {
    UnescapeQuote();
    UnescapeBackslash();
    assert PySlice("\"", 1, -1) == "";
  }

  lemma UnescapeQuote()
    ensures Unescape("\"\\\"\"") == "\""
  {
    assert PySlice("\"\\\"\"", 1, -1) == "\\\"";
    assert StartsWith("\\\"", "\\\"");
    assert Find("\\\"", "\\\"") == 0;
    assert Find("\"", "\\\"") < 0 by { NoBackslashNoMatch("\"", "\\\""); }
    assert ReplaceAll("\\\"", "\\\"", "\"") == "\"";
    assert Find("\"", "\\\\") < 0 by { NoBackslashNoMatch("\"", "\\\\"); }
  }

  lemma UnescapeBackslash()
    ensures Unescape("\"\\\\\"") == "\\"
  {
    assert PySlice("\"\\\\\"", 1, -1) == "\\\\";
    assert Find("\\\\", "\\\"") < 0 by {
      assert "\\\\"[..2][1] != "\\\""[1];
      assert !StartsWith("\\\\", "\\\"");
      assert "\\\\"[1..] == "\\";
      assert !StartsWith("\\", "\\\"");
      assert "\\"[1..] == "";
      assert Find("", "\\\"") == -1;
    }
    assert Find("\\\\", "\\\\") == 0;
    assert ReplaceAll("\\\\", "\\\\", "\\") == "\\";
  }

}
