/**
 * The pure text helpers of whisk/whisk.js: `stripComments`, a single pass of
 * the global regular expression that keeps quoted literals and deletes block
 * and line comments, and the glob helpers `getBaseFromPattern` and
 * `makeRelative`.
 */
module WhiskPatterns {
  import opened Wrappers
  import opened Text

  // ---------------------------------------------------------------------------
  // stripComments

  /** The characters that end a line for `.` and for `$` in multiline mode. */
  predicate IsLineTerminator(c: char)
  {
    c == '\n' || c == '\r' || c == '\U{2028}' || c == '\U{2029}'
  }

  /**
   * Where the quoted literal whose body starts at `i` ends (just past the
   * closing `q`): the body is a run of escapes `\` + a non-terminator and of
   * characters other than `q` and `\`. `None` when no closing quote follows the
   * run, in which case the regular expression does not match at the quote.
   */
  function LiteralEnd(s: string, i: nat, q: char): (e: Option<nat>)
    requires i <= |s|
    ensures e.Some? ==> i < e.value <= |s| && s[e.value - 1] == q
    decreases |s| - i
  {
    if i >= |s| then None
    else if s[i] == q then Some(i + 1)
    else if s[i] == '\\' then
      if i + 1 < |s| && !IsLineTerminator(s[i + 1]) then LiteralEnd(s, i + 2, q) else None
    else LiteralEnd(s, i + 1, q)
  }

  // Just past the first star-slash at or after `i`: the lazy end of a block comment.
  function BlockEnd(s: string, i: nat): (e: Option<nat>)
    requires i <= |s|
    ensures e.Some? ==> i + 2 <= e.value <= |s| && s[e.value - 2] == '*' && s[e.value - 1] == '/'
    decreases |s| - i
  {
    if i + 1 >= |s| then None
    else if s[i] == '*' && s[i + 1] == '/' then Some(i + 2)
    else BlockEnd(s, i + 1)
  }

  /** The first line terminator at or after `i`, or the end of the text: where `.*$` stops. */
  function LineEnd(s: string, i: nat): (e: nat)
    requires i <= |s|
    ensures i <= e <= |s|
    ensures e < |s| ==> IsLineTerminator(s[e])
    ensures forall k :: i <= k < e ==> !IsLineTerminator(s[k])
    decreases |s| - i
  {
    if i >= |s| || IsLineTerminator(s[i]) then i else LineEnd(s, i + 1)
  }

  /**
   * One match attempt of the replacement at position `i`: the regular
   * expression's alternatives are tried in order (double-quoted literal,
   * single-quoted literal, block comment, line comment). A literal is emitted,
   * a comment is emitted as nothing, and where nothing matches one character
   * is kept. Returns the emitted text and the next position.
   */
  function Step(s: string, i: nat): (r: (string, nat))
    requires i < |s|
    ensures i < r.1 <= |s| && |r.0| <= r.1 - i
  {
    if s[i] == '"' || s[i] == '\'' then
      match LiteralEnd(s, i + 1, s[i])
      case Some(e) => (s[i..e], e)
      case None => ([s[i]], i + 1)
    else if s[i] == '/' && i + 1 < |s| && s[i + 1] == '*' then
      match BlockEnd(s, i + 2)
      case Some(e) => ("", e)
      case None => ([s[i]], i + 1)
    else if s[i] == '/' && i + 1 < |s| && s[i + 1] == '/' then ("", LineEnd(s, i + 2))
    else ([s[i]], i + 1)
  }

  /** The replacement pass from position `i` to the end. */
  function StripFrom(s: string, i: nat): (r: string)
    requires i <= |s|
    ensures |r| <= |s| - i
    decreases |s| - i
  {
    if i >= |s| then ""
    else
      var (out, next) := Step(s, i);
      out + StripFrom(s, next)
  }

  /** `stripComments(input)` on the text of the input. */
  function StripComments(s: string): string
  {
    StripFrom(s, 0)
  }

  // No slash-star and no slash-slash anywhere from `i` on.
  predicate NoCommentMarkers(s: string, i: nat)
  {
    forall k :: i <= k < |s| - 1 ==> !(s[k] == '/' && (s[k + 1] == '*' || s[k + 1] == '/'))
  }

  /** Text without comment markers comes back unchanged, whatever quotes it holds. */
  lemma {:induction false} NoCommentsUnchanged(s: string, i: nat)
    requires i <= |s| && NoCommentMarkers(s, i)
    ensures StripFrom(s, i) == s[i..]
    decreases |s| - i
  {
    if i < |s| {
      var next := Step(s, i).1;
      StepKeeps(s, i);
      NoCommentsUnchanged(s, next);
      StripUnfold(s, i);
      assert s[i..] == s[i..next] + s[next..];
    }
  }

  /** Without a comment marker at `i`, one step emits exactly what it consumes. */
  lemma StepKeeps(s: string, i: nat)
    requires i < |s| && NoCommentMarkers(s, i)
    ensures Step(s, i).0 == s[i..Step(s, i).1]
  {
    if !(s[i] == '"' || s[i] == '\'') {
      assert !(s[i] == '/' && i + 1 < |s| && (s[i + 1] == '*' || s[i + 1] == '/'));
      assert s[i..i + 1] == [s[i]];
    } else if LiteralEnd(s, i + 1, s[i]).None? {
      assert s[i..i + 1] == [s[i]];
    }
  }

  lemma StripCommentsNoMarkers(s: string)
    requires NoCommentMarkers(s, 0)
    ensures StripComments(s) == s
  {
    NoCommentsUnchanged(s, 0);
  }

  // Scans only look forward, so a prefix in front shifts every position.

  lemma {:induction false} LiteralEndShift(p: string, t: string, i: nat, q: char)
    requires i <= |t|
    ensures LiteralEnd(p + t, |p| + i, q)
         == (if LiteralEnd(t, i, q).Some? then Some(|p| + LiteralEnd(t, i, q).value) else None)
    decreases |t| - i
  {
    var s := p + t;
    if i < |t| {
      assert s[|p| + i] == t[i];
      if t[i] != q && t[i] == '\\' && i + 1 < |t| {
        assert s[|p| + i + 1] == t[i + 1];
        if !IsLineTerminator(t[i + 1]) { LiteralEndShift(p, t, i + 2, q); }
      } else if t[i] != q && t[i] != '\\' {
        LiteralEndShift(p, t, i + 1, q);
      }
    }
  }

  lemma {:induction false} BlockEndShift(p: string, t: string, i: nat)
    requires i <= |t|
    ensures BlockEnd(p + t, |p| + i)
         == (if BlockEnd(t, i).Some? then Some(|p| + BlockEnd(t, i).value) else None)
    decreases |t| - i
  {
    var s := p + t;
    if i + 1 < |t| {
      assert s[|p| + i] == t[i] && s[|p| + i + 1] == t[i + 1];
      if !(t[i] == '*' && t[i + 1] == '/') { BlockEndShift(p, t, i + 1); }
    }
  }

  lemma {:induction false} LineEndShift(p: string, t: string, i: nat)
    requires i <= |t|
    ensures LineEnd(p + t, |p| + i) == |p| + LineEnd(t, i)
    decreases |t| - i
  {
    var s := p + t;
    if i < |t| {
      assert s[|p| + i] == t[i];
      if !IsLineTerminator(t[i]) { LineEndShift(p, t, i + 1); }
    }
  }

  lemma StepShift(p: string, t: string, i: nat)
    requires i < |t|
    ensures Step(p + t, |p| + i) == (Step(t, i).0, |p| + Step(t, i).1)
  {
    var s := p + t;
    var j := |p| + i;
    assert s[j] == t[i];
    assert i + 1 < |t| ==> s[j + 1] == t[i + 1];
    if t[i] == '"' || t[i] == '\'' {
      QuoteStepShift(p, t, i);
    } else if t[i] == '/' && i + 1 < |t| && t[i + 1] == '*' {
      BlockEndShift(p, t, i + 2);
    } else if t[i] == '/' && i + 1 < |t| && t[i + 1] == '/' {
      LineEndShift(p, t, i + 2);
    }
  }

  lemma QuoteStepShift(p: string, t: string, i: nat)
    requires i < |t| && (t[i] == '"' || t[i] == '\'')
    ensures Step(p + t, |p| + i) == (Step(t, i).0, |p| + Step(t, i).1)
  {
    var s := p + t;
    var j := |p| + i;
    var q := t[i];
    assert s[j] == q;
    LiteralEndShift(p, t, i + 1, q);
    assert |p| + (i + 1) == j + 1;
    match LiteralEnd(t, i + 1, q)
    case Some(e) =>
      SliceShift(p, t, i, e);
      assert LiteralEnd(s, j + 1, q) == Some(|p| + e);
      assert Step(s, j) == (s[j..|p| + e], |p| + e);
    case None =>
      assert LiteralEnd(s, j + 1, q) == None;
      assert Step(s, j) == ([q], j + 1);
  }

  lemma SliceShift(p: string, t: string, a: nat, b: nat)
    requires a <= b <= |t|
    ensures (p + t)[|p| + a..|p| + b] == t[a..b]
  {
    assert forall k :: 0 <= k < b - a ==> (p + t)[|p| + a..|p| + b][k] == t[a..b][k];
  }

  lemma StripUnfold(s: string, i: nat)
    requires i < |s|
    ensures StripFrom(s, i) == Step(s, i).0 + StripFrom(s, Step(s, i).1)
  {
  }

  lemma {:induction false} StripShift(p: string, t: string, i: nat)
    requires i <= |t|
    ensures StripFrom(p + t, |p| + i) == StripFrom(t, i)
    decreases |t| - i
  {
    if i < |t| {
      var next := Step(t, i).1;
      StepShift(p, t, i);
      StripShift(p, t, next);
      StripUnfold(t, i);
      StripUnfold(p + t, |p| + i);
    }
  }

  /** A scan that ends inside `s` ends at the same place when more text follows. */
  lemma {:induction false} LiteralEndExtend(s: string, t: string, i: nat, q: char)
    requires i <= |s| && LiteralEnd(s, i, q).Some?
    ensures LiteralEnd(s + t, i, q) == LiteralEnd(s, i, q)
    decreases |s| - i
  {
    var u := s + t;
    assert u[i] == s[i];
    if s[i] != q && s[i] == '\\' {
      assert u[i + 1] == s[i + 1];
      LiteralEndExtend(s, t, i + 2, q);
    } else if s[i] != q {
      LiteralEndExtend(s, t, i + 1, q);
    }
  }

  /** A complete quoted literal, exactly as the first two alternatives match one. */
  predicate IsQuotedLiteral(lit: string)
  {
    |lit| >= 2 && (lit[0] == '"' || lit[0] == '\'') && LiteralEnd(lit, 1, lit[0]) == Some(|lit|)
  }

  /** A quoted literal is kept verbatim, comment markers inside it included. */
  lemma LiteralKept(lit: string, rest: string)
    requires IsQuotedLiteral(lit)
    ensures StripComments(lit + rest) == lit + StripComments(rest)
  {
    var s := lit + rest;
    LiteralEndExtend(lit, rest, 1, lit[0]);
    assert s[0] == lit[0];
    assert s[0..|lit|] == lit;
    StripShift(lit, rest, 0);
    assert lit + [] == lit;
  }

  // A block comment is removed up to its first star-slash.
  lemma BlockCommentRemoved(body: string, rest: string)
    requires forall k :: 0 <= k < |body| - 1 ==> !(body[k] == '*' && body[k + 1] == '/')
    ensures StripComments("/*" + body + "*/" + rest) == StripComments(rest)
  {
    var c := "/*" + body + "*/";
    var s := c + rest;
    assert s[0] == '/' && s[1] == '*';
    assert BlockEnd(c, 2) == Some(|c|) by {
      forall k | 2 <= k < |c| - 2 ensures !(c[k] == '*' && c[k + 1] == '/') {
        if k < |body| + 1 { assert c[k] == body[k - 2] && c[k + 1] == body[k - 1]; }
        else { assert c[k + 1] == '*'; }
      }
      BlockEndAt(c, 2, |c| - 2);
    }
    BlockEndExtend(c, rest, 2);
    StripShift(c, rest, 0);
  }

  lemma {:induction false} BlockEndAt(s: string, i: nat, j: nat)
    requires i <= j && j + 1 < |s| && s[j] == '*' && s[j + 1] == '/'
    requires forall k :: i <= k < j ==> !(s[k] == '*' && s[k + 1] == '/')
    ensures BlockEnd(s, i) == Some(j + 2)
    decreases j - i
  {
    if i < j { BlockEndAt(s, i + 1, j); }
  }

  lemma {:induction false} BlockEndExtend(s: string, t: string, i: nat)
    requires i <= |s| && BlockEnd(s, i).Some?
    ensures BlockEnd(s + t, i) == BlockEnd(s, i)
    decreases |s| - i
  {
    var u := s + t;
    assert u[i] == s[i] && u[i + 1] == s[i + 1];
    if !(s[i] == '*' && s[i + 1] == '/') { BlockEndExtend(s, t, i + 1); }
  }

  /** A line comment is removed up to, not including, the end of its line. */
  lemma LineCommentRemoved(body: string, rest: string)
    requires forall k :: 0 <= k < |body| ==> !IsLineTerminator(body[k])
    requires rest == [] || IsLineTerminator(rest[0])
    ensures StripComments("//" + body + rest) == StripComments(rest)
  {
    var c := "//" + body;
    var s := c + rest;
    assert "//" + body + rest == s;
    assert s[0] == '/' && s[1] == '/';
    assert LineEnd(s, 2) == |c| by {
      forall k | 2 <= k < |c| ensures !IsLineTerminator(s[k]) { assert s[k] == body[k - 2]; }
      LineEndAt(s, 2, |c|);
    }
    StripShift(c, rest, 0);
  }

  lemma {:induction false} LineEndAt(s: string, i: nat, j: nat)
    requires i <= j <= |s| && (j == |s| || IsLineTerminator(s[j]))
    requires forall k :: i <= k < j ==> !IsLineTerminator(s[k])
    ensures LineEnd(s, i) == j
    decreases j - i
  {
    if i < j { LineEndAt(s, i + 1, j); }
  }

  // ---------------------------------------------------------------------------
  // getBaseFromPattern, makeRelative

  predicate IsWildcard(c: char)
  {
    c == '*' || c == '?'
  }

  /** `pattern.search(/[*?]/)`: the first wildcard, or -1. */
  function WildcardIndex(p: string): (i: int)
    ensures -1 <= i < |p|
    ensures i >= 0 ==> IsWildcard(p[i]) && forall k :: 0 <= k < i ==> !IsWildcard(p[k])
    ensures i < 0 ==> forall k :: 0 <= k < |p| ==> !IsWildcard(p[k])
  {
    if |p| == 0 then -1
    else if IsWildcard(p[0]) then 0
    else
      var j := WildcardIndex(p[1..]);
      if j < 0 then -1 else j + 1
  }

  /** Where the literal part of a pattern ends: its first wildcard, or its end. */
  function LiteralPartEnd(p: string): (w: nat)
    ensures w <= |p|
  {
    if WildcardIndex(p) < 0 then |p| else WildcardIndex(p)
  }

  /**
   * The base of a glob: the prefix up to and including the last `/` before the
   * first wildcard (or anywhere, when there is none), and `""` without one.
   */
  function GetBaseFromPattern(pattern: string): (base: string)
    ensures StartsWith(pattern, base)
    ensures base == [] || base[|base| - 1] == '/'
    ensures |base| <= LiteralPartEnd(pattern)
    ensures forall k :: |base| <= k < LiteralPartEnd(pattern) ==> pattern[k] != '/'
  {
    var w := WildcardIndex(pattern);
    var before := if w == -1 then pattern else pattern[..w];
    var slash := LastIndexOf(before, '/');
    LastSlash(before);
    assert |before| == LiteralPartEnd(pattern) && before == pattern[..|before|];
    if slash == -1 then "" else pattern[..slash + 1]
  }

  /** Nothing after the last `/` is a `/`. */
  lemma LastSlash(s: string)
    ensures forall k :: LastIndexOf(s, '/') < k < |s| ==> s[k] != '/'
  {
    var slash := LastIndexOf(s, '/');
    forall k | slash < k < |s| ensures s[k] != '/' {
      if slash >= 0 { assert s[k] == s[slash + 1..][k - slash - 1]; }
      else { assert s[k] in s; }
    }
  }

  /** The base is the only prefix with those properties: the longest one ending in `/` before any wildcard. */
  lemma BaseIsLongestSlashPrefix(pattern: string, b: string)
    requires StartsWith(pattern, b)
    requires b == [] || b[|b| - 1] == '/'
    requires |b| <= LiteralPartEnd(pattern)
    requires forall k :: |b| <= k < LiteralPartEnd(pattern) ==> pattern[k] != '/'
    ensures b == GetBaseFromPattern(pattern)
  {
    var base := GetBaseFromPattern(pattern);
    assert b == pattern[..|b|] && base == pattern[..|base|];
  }

  /** `makeRelative(filePath, pattern)`: the base is removed only when the path starts with it. */
  function MakeRelative(file: string, pattern: string): (rel: string)
    ensures StartsWith(file, GetBaseFromPattern(pattern)) ==> GetBaseFromPattern(pattern) + rel == file
    ensures !StartsWith(file, GetBaseFromPattern(pattern)) ==> rel == file
  {
    var base := GetBaseFromPattern(pattern);
    if StartsWith(file, base) then file[|base|..] else file
  }

  /** Removing the base of a path under it gives back the part below the base. */
  lemma MakeRelativeOfBase(rel: string, pattern: string)
    ensures MakeRelative(GetBaseFromPattern(pattern) + rel, pattern) == rel
  {
    var base := GetBaseFromPattern(pattern);
    assert (base + rel)[..|base|] == base;
    assert (base + rel)[|base|..] == rel;
  }

  lemma BaseOfGlob()
    ensures GetBaseFromPattern("ui/*.json") == "ui/"
  {
    BaseIsLongestSlashPrefix("ui/*.json", "ui/");
  }

  lemma BaseOfTopLevelGlob()
    ensures GetBaseFromPattern("*.json") == ""
  {
    BaseIsLongestSlashPrefix("*.json", "");
  }
}
