/**
 * `filterFiles` of whisk/whisk.js: every include pattern adds its matches to
 * a set, then every exclude pattern deletes its matches, and the set is
 * returned as an array in insertion order. The matches of a pattern are an
 * input (`Glob`); the two asynchronous phases are taken one after the other,
 * each pattern in list order, and the first pattern whose glob fails ends the
 * computation with that error.
 */
module WhiskFilter {
  import opened Wrappers

  /** What `glob(pattern, { cwd: directory })` reports for each pattern. */
  type Glob = string -> Result<seq<string>>

  predicate NoDuplicates(s: seq<string>)
  {
    forall i, j :: 0 <= i < j < |s| ==> s[i] != s[j]
  }

  function Elems(s: seq<string>): set<string>
  {
    set x | x in s
  }

  /** `set.add(x)` on a set listed in insertion order. */
  function Add(acc: seq<string>, x: string): (r: seq<string>)
    ensures Elems(r) == Elems(acc) + {x}
    ensures NoDuplicates(acc) ==> NoDuplicates(r)
  {
    if x in acc then acc else acc + [x]
  }

  /** `set.delete(x)`: the others keep their order. */
  function Remove(acc: seq<string>, x: string): (r: seq<string>)
    ensures Elems(r) == Elems(acc) - {x}
    ensures NoDuplicates(acc) ==> NoDuplicates(r)
    ensures |r| <= |acc|
  {
    if |acc| == 0 then []
    else
      var init := acc[..|acc| - 1];
      var last := acc[|acc| - 1];
      var rest := Remove(init, x);
      assert acc == init + [last];
      assert Elems(acc) == Elems(init) + {last};
      if last == x then rest
      else
        assert Elems(rest + [last]) == Elems(rest) + {last};
        assert NoDuplicates(acc) ==> last !in init && NoDuplicates(init);
        assert last !in init ==> last !in Elems(rest);
        rest + [last]
  }

  /** One pattern's matches applied to the set: added, or deleted when excluding. */
  function Apply(acc: seq<string>, files: seq<string>, exclude: bool): (r: seq<string>)
    ensures exclude ==> Elems(r) == Elems(acc) - Elems(files)
    ensures !exclude ==> Elems(r) == Elems(acc) + Elems(files)
    ensures NoDuplicates(acc) ==> NoDuplicates(r)
  {
    if |files| == 0 then acc
    else
      var before := Apply(acc, files[..|files| - 1], exclude);
      var x := files[|files| - 1];
      assert Elems(files) == Elems(files[..|files| - 1]) + {x} by {
        assert files == files[..|files| - 1] + [x];
      }
      if exclude then Remove(before, x) else Add(before, x)
  }

  /** `processPatterns(pats, exclude, done)`: the set after all of `pats`, or the first error. */
  function Phase(acc: seq<string>, pats: seq<string>, glob: Glob, exclude: bool): Result<seq<string>>
  {
    if |pats| == 0 then Ok(acc)
    else
      match Phase(acc, pats[..|pats| - 1], glob, exclude)
      case Err(e) => Err(e)
      case Ok(a) =>
        var m := glob(pats[|pats| - 1]);
        if m.Err? then Err(m.message) else Ok(Apply(a, m.value, exclude))
  }

  /** The value `filterFiles` passes to its callback. */
  function Filtered(includes: seq<string>, excludes: seq<string>, glob: Glob): Result<seq<string>>
  {
    match Phase([], includes, glob, false)
    case Err(e) => Err(e)
    case Ok(a) => Phase(a, excludes, glob, true)
  }

  /** `processPattern`: the matches of one pattern added to, or deleted from, the set. */
  method ProcessPattern(acc: seq<string>, files: seq<string>, exclude: bool) returns (r: seq<string>)
    ensures r == Apply(acc, files, exclude)
  {
    r := acc;
    var j := 0;
    while j < |files|
      invariant 0 <= j <= |files|
      invariant r == Apply(acc, files[..j], exclude)
    {
      assert files[..j + 1][..j] == files[..j];
      var file := files[j];
      if exclude {
        r := Remove(r, file);
      } else if file !in r {
        r := r + [file];
      }
      j := j + 1;
    }
    assert files[..j] == files;
  }

  /** `processPatterns`: the patterns in list order; an empty list is done at once. */
  method ProcessPatterns(acc: seq<string>, pats: seq<string>, glob: Glob, exclude: bool) returns (r: Result<seq<string>>)
    ensures r == Phase(acc, pats, glob, exclude)
  {
    var files := acc;
    var i := 0;
    while i < |pats|
      invariant 0 <= i <= |pats|
      invariant Phase(acc, pats[..i], glob, exclude) == Ok(files)
    {
      assert pats[..i + 1][..i] == pats[..i];
      var m := glob(pats[i]);
      if m.Err? {
        PhaseErrSticks(acc, pats, i + 1, glob, exclude);
        return Err(m.message);
      }
      files := ProcessPattern(files, m.value, exclude);
      i := i + 1;
    }
    assert pats[..i] == pats;
    return Ok(files);
  }

  /** Once a prefix of the patterns has failed, the later ones do not change the outcome. */
  lemma {:induction false} PhaseErrSticks(acc: seq<string>, pats: seq<string>, k: nat, glob: Glob, exclude: bool)
    requires k <= |pats| && Phase(acc, pats[..k], glob, exclude).Err?
    ensures Phase(acc, pats, glob, exclude) == Phase(acc, pats[..k], glob, exclude)
  {
    if k < |pats| {
      var init := pats[..|pats| - 1];
      assert init[..k] == pats[..k];
      PhaseErrSticks(acc, init, k, glob, exclude);
    } else {
      assert pats[..k] == pats;
    }
  }

  /** `filterFiles(directory, includes, excludes, callback)`: the exclude phase starts after the include phase. */
  method FilterFiles(includes: seq<string>, excludes: seq<string>, glob: Glob) returns (r: Result<seq<string>>)
    ensures r == Filtered(includes, excludes, glob)
  {
    var included := ProcessPatterns([], includes, glob, false);
    if included.Err? {
      return Err(included.message);
    }
    r := ProcessPatterns(included.value, excludes, glob, true);
  }

  // ---------------------------------------------------------------------------
  // What the result is

  predicate AllOk(pats: seq<string>, glob: Glob)
  {
    forall k :: 0 <= k < |pats| ==> glob(pats[k]).Ok?
  }

  /** Every file some pattern of `pats` matches. */
  function Matched(pats: seq<string>, glob: Glob): set<string>
    requires AllOk(pats, glob)
  {
    if |pats| == 0 then {} else Matched(pats[..|pats| - 1], glob) + Elems(glob(pats[|pats| - 1]).value)
  }

  lemma {:induction false} PhaseOk(acc: seq<string>, pats: seq<string>, glob: Glob, exclude: bool)
    requires AllOk(pats, glob)
    ensures Phase(acc, pats, glob, exclude).Ok?
    ensures exclude ==> Elems(Phase(acc, pats, glob, exclude).value) == Elems(acc) - Matched(pats, glob)
    ensures !exclude ==> Elems(Phase(acc, pats, glob, exclude).value) == Elems(acc) + Matched(pats, glob)
    ensures NoDuplicates(acc) ==> NoDuplicates(Phase(acc, pats, glob, exclude).value)
  {
    if |pats| > 0 {
      var init := pats[..|pats| - 1];
      assert AllOk(init, glob) by {
        forall k | 0 <= k < |init| ensures glob(init[k]).Ok? { assert init[k] == pats[k]; }
      }
      PhaseOk(acc, init, glob, exclude);
      assert glob(pats[|pats| - 1]).Ok?;
    }
  }

  /**
   * With every glob succeeding, the result lists each file exactly once, and a
   * file is in it exactly when some include pattern matches it and no exclude
   * pattern does.
   */
  lemma FilteredMembers(includes: seq<string>, excludes: seq<string>, glob: Glob)
    requires AllOk(includes, glob) && AllOk(excludes, glob)
    ensures Filtered(includes, excludes, glob).Ok?
    ensures NoDuplicates(Filtered(includes, excludes, glob).value)
    ensures forall x :: x in Filtered(includes, excludes, glob).value <==>
                        x in Matched(includes, glob) && x !in Matched(excludes, glob)
  {
    PhaseOk([], includes, glob, false);
    var a := Phase([], includes, glob, false).value;
    PhaseOk(a, excludes, glob, true);
    var r := Filtered(includes, excludes, glob).value;
    forall x ensures x in r <==> x in Matched(includes, glob) && x !in Matched(excludes, glob) {
      assert x in r <==> x in Elems(r);
      assert x in a <==> x in Elems(a);
    }
  }

  lemma {:induction false} PhaseErr(acc: seq<string>, pats: seq<string>, glob: Glob, exclude: bool)
    ensures Phase(acc, pats, glob, exclude).Err? <==> !AllOk(pats, glob)
  {
    if |pats| > 0 {
      var init := pats[..|pats| - 1];
      PhaseErr(acc, init, glob, exclude);
      if !AllOk(init, glob) {
        var k :| 0 <= k < |init| && glob(init[k]).Err?;
        assert pats[k] == init[k];
      } else {
        assert AllOk(pats, glob) <==> glob(pats[|pats| - 1]).Ok? by {
          forall k | 0 <= k < |pats| - 1 ensures glob(pats[k]).Ok? { assert pats[k] == init[k]; }
        }
      }
    }
  }

  /** The callback gets an error exactly when the glob of some include or exclude pattern fails. */
  lemma FilteredErr(includes: seq<string>, excludes: seq<string>, glob: Glob)
    ensures Filtered(includes, excludes, glob).Err? <==> !AllOk(includes, glob) || !AllOk(excludes, glob)
  {
    PhaseErr([], includes, glob, false);
    if AllOk(includes, glob) {
      PhaseErr(Phase([], includes, glob, false).value, excludes, glob, true);
    }
  }

  /** An exclude pattern never adds a file: the result is a subset of what the include phase gathered. */
  lemma ExcludesNeverAdd(includes: seq<string>, excludes: seq<string>, glob: Glob, x: string)
    requires Filtered(includes, excludes, glob).Ok?
    requires x in Filtered(includes, excludes, glob).value
    ensures Phase([], includes, glob, false).Ok? && x in Phase([], includes, glob, false).value
  {
    PhaseErr([], includes, glob, false);
    PhaseErr(Phase([], includes, glob, false).value, excludes, glob, true);
    PhaseOk(Phase([], includes, glob, false).value, excludes, glob, true);
    assert x in Elems(Filtered(includes, excludes, glob).value);
  }

  /** Include patterns alone: each match once, in order of first match. */
  lemma SinglePattern(pattern: string, glob: Glob)
    requires glob(pattern).Ok?
    ensures Filtered([pattern], [], glob) == Ok(Apply([], glob(pattern).value, false))
  {
    assert [pattern][..0] == [];
    assert Phase([], [], glob, false) == Ok([]);
    var a := Apply([], glob(pattern).value, false);
    assert Phase([], [pattern], glob, false) == Ok(a);
    assert Phase(a, [], glob, true) == Ok(a);
  }
}
