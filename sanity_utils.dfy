/**
 * sanity_check/utils.py: edit distance, the closest valid name, the issue
 * record the checks report, and the file-name test of
 * `list_files_with_extension`.
 */
module SanityUtils {
  import opened Wrappers
  import opened Text

  /**
   * The only fix the checks attach to an issue: the closure of
   * `PropertyListener.onEntityProperty`, which appends `suffix` to the text of
   * the span context `ctx` through `set_text`.
   */
  datatype Fix = AppendText(ctx: nat, suffix: string)

  /** `Issue(message, fixFunc)`; `None` stands for a `fixFunc` of `None`. */
  datatype Issue = Issue(message: string, fix: Option<Fix>) {
    /** `can_fix()`. */
    predicate CanFix()
    {
      fix != None
    }
  }

  lemma CanFixIff(i: Issue)
    ensures i.CanFix() <==> i.fix.Some?
  {
  }

  // ---------------------------------------------------------------------------
  // Edit distance

  function Min3(a: nat, b: nat, c: nat): (m: nat)
    ensures m <= a && m <= b && m <= c
    ensures m == a || m == b || m == c
  {
    if a <= b && a <= c then a else if b <= c then b else c
  }

  /**
   * The recurrence `levenshtein_distance` fills its matrix with: an empty side
   * costs the length of the other, and otherwise the cheapest of deleting the
   * last character of `a`, inserting the last of `b`, or substituting one for
   * the other (free when they are equal).
   */
  function Lev(a: string, b: string): nat
    decreases |a| + |b|
  {
    if |a| == 0 then |b|
    else if |b| == 0 then |a|
    else
      var cost := if a[|a| - 1] == b[|b| - 1] then 0 else 1;
      Min3(Lev(a[..|a| - 1], b) + 1, Lev(a, b[..|b| - 1]) + 1, Lev(a[..|a| - 1], b[..|b| - 1]) + cost)
  }

  /** One cell of the matrix: the recurrence at the prefixes of lengths `i` and `j`. */
  lemma LevStep(s1: string, s2: string, i: nat, j: nat)
    requires 0 < i <= |s1| && 0 < j <= |s2|
    ensures Lev(s1[..i], s2[..j]) ==
      Min3(Lev(s1[..i - 1], s2[..j]) + 1, Lev(s1[..i], s2[..j - 1]) + 1,
           Lev(s1[..i - 1], s2[..j - 1]) + (if s1[i - 1] == s2[j - 1] then 0 else 1))
  {
    assert s1[..i][..i - 1] == s1[..i - 1];
    assert s2[..j][..j - 1] == s2[..j - 1];
  }

  /** `levenshtein_distance(s1, s2)`: the early returns, then the matrix filled row by row. */
  method LevenshteinDistance(s1: string, s2: string) returns (d: nat)
    ensures d == Lev(s1, s2)
  {
    if |s1| == 0 {
      return |s2|;
    }
    if |s2| == 0 {
      return |s1|;
    }
    var matrix := new nat[|s1| + 1, |s2| + 1];
    for i := 0 to |s1| + 1
      invariant forall a :: 0 <= a < i ==> matrix[a, 0] == a
    {
      matrix[i, 0] := i;
    }
    for j := 0 to |s2| + 1
      invariant forall a :: 0 <= a <= |s1| ==> matrix[a, 0] == a
      invariant forall b :: 0 <= b < j ==> matrix[0, b] == b
    {
      matrix[0, j] := j;
    }
    for i := 1 to |s1| + 1
      invariant forall a, b :: 0 <= a < i && 0 <= b <= |s2| ==> matrix[a, b] == Lev(s1[..a], s2[..b])
      invariant forall a :: i <= a <= |s1| ==> matrix[a, 0] == a
    {
      FillRow(matrix, s1, s2, i);
    }
    assert s1[..|s1|] == s1 && s2[..|s2|] == s2;
    d := matrix[|s1|, |s2|];
  }

  /** The inner loop of `levenshtein_distance`: row `i` from the row above it; no other row changes. */
  method FillRow(matrix: array2<nat>, s1: string, s2: string, i: nat)
    requires matrix.Length0 == |s1| + 1 && matrix.Length1 == |s2| + 1 && 0 < i <= |s1|
    requires forall b :: 0 <= b <= |s2| ==> matrix[i - 1, b] == Lev(s1[..i - 1], s2[..b])
    requires matrix[i, 0] == i
    modifies matrix
    ensures forall b :: 0 <= b <= |s2| ==> matrix[i, b] == Lev(s1[..i], s2[..b])
    ensures forall a, b :: 0 <= a <= |s1| && 0 <= b <= |s2| && a != i ==> matrix[a, b] == old(matrix[a, b])
  {
    for j := 1 to |s2| + 1
      invariant forall b :: 0 <= b <= |s2| ==> matrix[i - 1, b] == Lev(s1[..i - 1], s2[..b])
      invariant forall b :: 0 <= b < j ==> matrix[i, b] == Lev(s1[..i], s2[..b])
      invariant forall a, b :: 0 <= a <= |s1| && 0 <= b <= |s2| && a != i ==> matrix[a, b] == old(matrix[a, b])
    {
      var cost := if s1[i - 1] == s2[j - 1] then 0 else 1;
      var cell := Min3(matrix[i - 1, j] + 1, matrix[i, j - 1] + 1, matrix[i - 1, j - 1] + cost);
      LevCell(s1, s2, i, j, matrix[i - 1, j], matrix[i, j - 1], matrix[i - 1, j - 1], cell);
      matrix[i, j] := cell;
    }
  }

  /** The cell the inner loop writes, from the three cells it reads. */
  lemma LevCell(s1: string, s2: string, i: nat, j: nat, up: nat, left: nat, diag: nat, cell: nat)
    requires 0 < i <= |s1| && 0 < j <= |s2|
    requires up == Lev(s1[..i - 1], s2[..j]) && left == Lev(s1[..i], s2[..j - 1]) && diag == Lev(s1[..i - 1], s2[..j - 1])
    requires cell == Min3(up + 1, left + 1, diag + if s1[i - 1] == s2[j - 1] then 0 else 1)
    ensures cell == Lev(s1[..i], s2[..j])
  {
    LevStep(s1, s2, i, j);
  }

  function Abs(x: int): nat
  {
    if x < 0 then -x else x
  }

  function Max(a: nat, b: nat): nat
  {
    if a < b then b else a
  }

  /** The distance is at least the difference of the lengths and at most the longer length. */
  lemma {:induction false} LevBounds(a: string, b: string)
    ensures Abs(|a| - |b|) <= Lev(a, b) <= Max(|a|, |b|)
    decreases |a| + |b|
  {
    if |a| > 0 && |b| > 0 {
      LevBounds(a[..|a| - 1], b);
      LevBounds(a, b[..|b| - 1]);
      LevBounds(a[..|a| - 1], b[..|b| - 1]);
    }
  }

  /** The distance is the same either way round. */
  lemma {:induction false} LevSymmetric(a: string, b: string)
    ensures Lev(a, b) == Lev(b, a)
    decreases |a| + |b|
  {
    if |a| > 0 && |b| > 0 {
      LevSymmetric(a[..|a| - 1], b);
      LevSymmetric(a, b[..|b| - 1]);
      LevSymmetric(a[..|a| - 1], b[..|b| - 1]);
    }
  }

  /** The distance is 0 exactly for equal strings. */
  lemma {:induction false} LevZeroIff(a: string, b: string)
    ensures Lev(a, b) == 0 <==> a == b
    decreases |a| + |b|
  {
    if |a| > 0 && |b| > 0 {
      var a', b' := a[..|a| - 1], b[..|b| - 1];
      var cost := if a[|a| - 1] == b[|b| - 1] then 0 else 1;
      assert Lev(a, b) == Min3(Lev(a', b) + 1, Lev(a, b') + 1, Lev(a', b') + cost);
      LevZeroIff(a', b');
      assert a == a' + [a[|a| - 1]] && b == b' + [b[|b| - 1]];
      if a == b {
        assert a' == b';
      }
    }
  }

  // ---------------------------------------------------------------------------
  // The closest valid entry

  /**
   * `find_closest(string, entries[..])`: the entry and distance kept by the
   * running minimum, which a later entry replaces only when strictly closer;
   * `None` stands for `(None, None)`.
   */
  function Closest(s: string, entries: seq<string>): Option<(string, nat)>
  {
    if |entries| == 0 then None
    else
      var before := Closest(s, entries[..|entries| - 1]);
      var entry := entries[|entries| - 1];
      var d := Lev(s, entry);
      if before.None? || d < before.value.1 then Some((entry, d)) else before
  }

  /** The loop of `find_closest`, with the distance computed by `levenshtein_distance`. */
  method FindClosest(s: string, entries: seq<string>) returns (closest: Option<string>, distance: Option<nat>)
    ensures closest.None? <==> distance.None?
    ensures Closest(s, entries).None? ==> closest.None?
    ensures Closest(s, entries).Some? ==> closest == Some(Closest(s, entries).value.0) && distance == Some(Closest(s, entries).value.1)
  {
    closest, distance := None, None;
    for i := 0 to |entries|
      invariant closest.None? <==> distance.None?
      invariant Closest(s, entries[..i]).None? <==> closest.None?
      invariant Closest(s, entries[..i]).Some? ==>
        closest == Some(Closest(s, entries[..i]).value.0) && distance == Some(Closest(s, entries[..i]).value.1)
    {
      assert entries[..i + 1][..i] == entries[..i];
      var d := LevenshteinDistance(s, entries[i]);
      if distance.None? || d < distance.value {
        closest, distance := Some(entries[i]), Some(d);
      }
    }
    assert entries[..|entries|] == entries;
  }

  /** The index the running minimum settles on: a later entry wins only when strictly closer. */
  function ArgMin(s: string, entries: seq<string>): (k: nat)
    requires |entries| > 0
    ensures k < |entries|
  {
    if |entries| == 1 then 0
    else
      var k := ArgMin(s, entries[..|entries| - 1]);
      if Lev(s, entries[|entries| - 1]) < Lev(s, entries[k]) then |entries| - 1 else k
  }

  /** `find_closest` returns `(None, None)` exactly for an empty list, and otherwise the entry at `ArgMin` with its distance. */
  lemma {:induction false} ClosestAtArgMin(s: string, entries: seq<string>)
    ensures Closest(s, entries).None? <==> |entries| == 0
    ensures |entries| > 0 ==> Closest(s, entries) == Some((entries[ArgMin(s, entries)], Lev(s, entries[ArgMin(s, entries)])))
  {
    if |entries| > 1 {
      ClosestAtArgMin(s, entries[..|entries| - 1]);
    }
  }

  /** No entry is closer than the one at `ArgMin`, and every entry before it is strictly farther. */
  lemma {:induction false} ArgMinIsFirstMinimum(s: string, entries: seq<string>)
    requires |entries| > 0
    ensures forall j :: 0 <= j < |entries| ==> Lev(s, entries[ArgMin(s, entries)]) <= Lev(s, entries[j])
    ensures forall j :: 0 <= j < ArgMin(s, entries) ==> Lev(s, entries[ArgMin(s, entries)]) < Lev(s, entries[j])
  {
    if |entries| > 1 {
      var init := entries[..|entries| - 1];
      ArgMinIsFirstMinimum(s, init);
      assert forall j :: 0 <= j < |init| ==> init[j] == entries[j];
    }
  }

  // ---------------------------------------------------------------------------
  // The file-name test of list_files_with_extension

  /** `filename.lower().endswith(tuple(ext.lower() for ext in extensions))`. */
  predicate HasExtension(filename: string, extensions: seq<string>)
  {
    exists k :: 0 <= k < |extensions| && EndsWith(Lower(filename), Lower(extensions[k]))
  }

  lemma LowerIdempotent(s: string)
    ensures Lower(Lower(s)) == Lower(s)
  {
  }

  /** The test ignores the case of the file name and of the extensions. */
  lemma HasExtensionIgnoresCase(filename: string, extensions: seq<string>)
    ensures HasExtension(Lower(filename), extensions) <==> HasExtension(filename, extensions)
    ensures HasExtension(filename, seq(|extensions|, k requires 0 <= k < |extensions| => Lower(extensions[k]))) <==>
            HasExtension(filename, extensions)
  {
    LowerIdempotent(filename);
    var lowered := seq(|extensions|, k requires 0 <= k < |extensions| => Lower(extensions[k]));
    forall k | 0 <= k < |extensions| ensures Lower(lowered[k]) == Lower(extensions[k]) {
      LowerIdempotent(extensions[k]);
    }
    assert HasExtension(filename, lowered) <==> HasExtension(filename, extensions) by {
      if HasExtension(filename, extensions) {
        var k :| 0 <= k < |extensions| && EndsWith(Lower(filename), Lower(extensions[k]));
        assert EndsWith(Lower(filename), Lower(lowered[k]));
      }
      if HasExtension(filename, lowered) {
        var k :| 0 <= k < |lowered| && EndsWith(Lower(filename), Lower(lowered[k]));
        assert EndsWith(Lower(filename), Lower(extensions[k]));
      }
    }
  }

  /** The joined paths of the files of one walked directory that pass the test, in listing order. */
  function MatchingFiles(dirpath: string, filenames: seq<string>, extensions: seq<string>, join: (string, string) -> string): (r: seq<string>)
    ensures |r| <= |filenames|
  {
    if |filenames| == 0 then []
    else
      var init := MatchingFiles(dirpath, filenames[..|filenames| - 1], extensions, join);
      var last := filenames[|filenames| - 1];
      if HasExtension(last, extensions) then init + [join(dirpath, last)] else init
  }

  /** A path is kept exactly when it is the join of a listed file name that passes the test. */
  lemma {:induction false} MatchingFilesIff(dirpath: string, filenames: seq<string>, extensions: seq<string>, join: (string, string) -> string, p: string)
    ensures p in MatchingFiles(dirpath, filenames, extensions, join) <==>
            exists k :: 0 <= k < |filenames| && HasExtension(filenames[k], extensions) && p == join(dirpath, filenames[k])
  {
    if |filenames| > 0 {
      var init := filenames[..|filenames| - 1];
      MatchingFilesIff(dirpath, init, extensions, join, p);
      assert forall k :: 0 <= k < |init| ==> init[k] == filenames[k];
    }
  }

  /** The listing order is kept: the files of a listing split in two are those of the first part, then those of the second. */
  lemma {:induction false} MatchingFilesAppend(dirpath: string, xs: seq<string>, ys: seq<string>, extensions: seq<string>, join: (string, string) -> string)
    ensures MatchingFiles(dirpath, xs + ys, extensions, join)
         == MatchingFiles(dirpath, xs, extensions, join) + MatchingFiles(dirpath, ys, extensions, join)
    decreases |ys|
  {
    if |ys| == 0 {
      assert xs + ys == xs;
    } else {
      var ys' := ys[..|ys| - 1];
      assert (xs + ys)[..|xs + ys| - 1] == xs + ys';
      assert (xs + ys)[|xs + ys| - 1] == ys[|ys| - 1];
      MatchingFilesAppend(dirpath, xs, ys', extensions, join);
    }
  }

  /** The files of one walked directory that `list_files_with_extension` keeps, in listing order. */
  method ListMatching(dirpath: string, filenames: seq<string>, extensions: seq<string>, join: (string, string) -> string)
    returns (matching: seq<string>)
    ensures matching == MatchingFiles(dirpath, filenames, extensions, join)
    ensures |matching| <= |filenames|
    ensures forall p :: p in matching <==> exists k :: 0 <= k < |filenames| && HasExtension(filenames[k], extensions) && p == join(dirpath, filenames[k])
  {
    matching := [];
    for i := 0 to |filenames|
      invariant matching == MatchingFiles(dirpath, filenames[..i], extensions, join)
    {
      assert filenames[..i + 1][..i] == filenames[..i];
      if HasExtension(filenames[i], extensions) {
        matching := matching + [join(dirpath, filenames[i])];
      }
    }
    assert filenames[..|filenames|] == filenames;
    forall p ensures p in matching <==> exists k :: 0 <= k < |filenames| && HasExtension(filenames[k], extensions) && p == join(dirpath, filenames[k]) {
      MatchingFilesIff(dirpath, filenames, extensions, join, p);
    }
  }

  /** A directory `os.walk` yields: its path and the names of its files, in listing order. */
  datatype WalkedDir = WalkedDir(dirpath: string, filenames: seq<string>)

  /** What `list_files_with_extension` returns: the kept files of each walked directory, in walk order. */
  function WalkMatches(walk: seq<WalkedDir>, extensions: seq<string>, join: (string, string) -> string): seq<string>
  {
    if |walk| == 0 then []
    else
      var d := walk[|walk| - 1];
      WalkMatches(walk[..|walk| - 1], extensions, join) + MatchingFiles(d.dirpath, d.filenames, extensions, join)
  }

  /** A path is returned exactly when it joins a walked directory with one of its files that passes the test. */
  lemma {:induction false} WalkMatchesIff(walk: seq<WalkedDir>, extensions: seq<string>, join: (string, string) -> string, p: string)
    ensures p in WalkMatches(walk, extensions, join) <==>
            exists i, k :: 0 <= i < |walk| && 0 <= k < |walk[i].filenames| &&
              HasExtension(walk[i].filenames[k], extensions) && p == join(walk[i].dirpath, walk[i].filenames[k])
  {
    if |walk| > 0 {
      var init := walk[..|walk| - 1];
      var d := walk[|walk| - 1];
      WalkMatchesIff(init, extensions, join, p);
      MatchingFilesIff(d.dirpath, d.filenames, extensions, join, p);
      assert forall i :: 0 <= i < |init| ==> init[i] == walk[i];
      if p in MatchingFiles(d.dirpath, d.filenames, extensions, join) {
        var k :| 0 <= k < |d.filenames| && HasExtension(d.filenames[k], extensions) && p == join(d.dirpath, d.filenames[k]);
        assert 0 <= |walk| - 1 < |walk| && walk[|walk| - 1].filenames[k] == d.filenames[k];
      }
    }
  }

  /** `list_files_with_extension(base_path, extensions)` over the directories `os.walk` yields. */
  method ListFilesWithExtension(walk: seq<WalkedDir>, extensions: seq<string>, join: (string, string) -> string)
    returns (matchingFiles: seq<string>)
    ensures matchingFiles == WalkMatches(walk, extensions, join)
  {
    matchingFiles := [];
    for i := 0 to |walk|
      invariant matchingFiles == WalkMatches(walk[..i], extensions, join)
    {
      assert walk[..i + 1][..i] == walk[..i];
      var kept := ListMatching(walk[i].dirpath, walk[i].filenames, extensions, join);
      matchingFiles := matchingFiles + kept;
    }
    assert walk[..|walk|] == walk;
  }
}
