/**
 * `find_incorrect_property_types` for one entity file: parse the text with
 * a `PropertyListener`, warn for every issue it collected, and, when fixing
 * is on, apply each issue's fix to the text the previous fix produced.
 */
module SanityProperties {
  import opened Wrappers
  import opened SanityUtils
  import T = VerboseTree
  import P = VerboseParse
  import J = VerboseJson

  /** The warning `find_incorrect_property_types` prints for one issue. */
  function Warning(file: string, message: string): string
  {
    file + " has an incorrect value type. " + message + "."
  }

  /** Every fix an issue carries refers to a context of `t`. */
  predicate FixTargets(issues: seq<Issue>, t: T.Tree)
  {
    forall k :: 0 <= k < |issues| ==> issues[k].fix.Some? ==> issues[k].fix.value.ctx < t.Size()
  }

  /** What the loop over `issueList` has produced: warnings, logged fixes, the text and the spans as moved by the fixes. */
  datatype Pass = Pass(warnings: seq<string>, logged: seq<string>, text: string, tree: T.Tree)

  /** The loop over the first issues, in order; a fix is applied only when fixing is on and the issue can be fixed. */
  function Issues(file: string, t: T.Tree, text: string, issues: seq<Issue>, fix: bool): (r: Pass)
    requires t.Valid() && FixTargets(issues, t)
    ensures r.tree.Valid() && r.tree.Size() == t.Size()
    decreases |issues|
  {
    if |issues| == 0 then Pass([], [], text, t)
    else
      var init := issues[..|issues| - 1];
      assert forall k :: 0 <= k < |init| ==> init[k] == issues[k];
      var p := Issues(file, t, text, init, fix);
      var i := issues[|issues| - 1];
      var warnings := p.warnings + [Warning(file, i.message)];
      if fix && i.CanFix() then
        var (text', t') := T.ApplyFix(p.tree, p.text, i.fix.value);
        Pass(warnings, p.logged + [i.message], text', t')
      else
        Pass(warnings, p.logged, p.text, p.tree)
  }

  /** The fixes that run, in issue order; each is the fix of one of the issues. */
  function FixesOf(issues: seq<Issue>, fix: bool): (r: seq<Fix>)
    ensures forall k :: 0 <= k < |r| ==> exists j :: 0 <= j < |issues| && issues[j].fix == Some(r[k])
    decreases |issues|
  {
    if |issues| == 0 || !fix then []
    else
      var i := issues[|issues| - 1];
      var init := issues[..|issues| - 1];
      assert forall k :: 0 <= k < |init| ==> init[k] == issues[k];
      FixesOf(init, fix) + (if i.CanFix() then [i.fix.value] else [])
  }

  /** The messages of the issues that can be fixed, in order. */
  function Fixable(issues: seq<Issue>): seq<string>
    decreases |issues|
  {
    if |issues| == 0 then []
    else
      var i := issues[|issues| - 1];
      Fixable(issues[..|issues| - 1]) + (if i.CanFix() then [i.message] else [])
  }

  /** One more fix at the end of the list is applied to what the others left. */
  lemma {:induction false} ApplyFixesSnoc(t: T.Tree, text: string, fixes: seq<Fix>, f: Fix)
    requires t.Valid() && f.ctx < t.Size() && forall k :: 0 <= k < |fixes| ==> fixes[k].ctx < t.Size()
    ensures var (text', t') := T.ApplyFixes(t, text, fixes);
      T.ApplyFixes(t, text, fixes + [f]) == T.ApplyFix(t', text', f)
    decreases |fixes|
  {
    if |fixes| == 0 {
      assert fixes + [f] == [f];
      assert [f][1..] == [];
    } else {
      var (text', t') := T.ApplyFix(t, text, fixes[0]);
      assert (fixes + [f])[0] == fixes[0];
      assert (fixes + [f])[1..] == fixes[1..] + [f];
      ApplyFixesSnoc(t', text', fixes[1..], f);
    }
  }

  /** Every issue gives one warning, in issue order. */
  lemma {:induction false} IssuesWarnAll(file: string, t: T.Tree, text: string, issues: seq<Issue>, fix: bool)
    requires t.Valid() && FixTargets(issues, t)
    ensures |Issues(file, t, text, issues, fix).warnings| == |issues|
    ensures forall k :: 0 <= k < |issues| ==> Issues(file, t, text, issues, fix).warnings[k] == Warning(file, issues[k].message)
    decreases |issues|
  {
    if |issues| > 0 {
      var init := issues[..|issues| - 1];
      assert forall k :: 0 <= k < |init| ==> init[k] == issues[k];
      IssuesWarnAll(file, t, text, init, fix);
    }
  }

  /** With fixing on, each fixable issue's message is logged, in order; with fixing off nothing is. */
  lemma {:induction false} IssuesLogFixes(file: string, t: T.Tree, text: string, issues: seq<Issue>, fix: bool)
    requires t.Valid() && FixTargets(issues, t)
    ensures Issues(file, t, text, issues, fix).logged == if fix then Fixable(issues) else []
    decreases |issues|
  {
    if |issues| > 0 {
      var init := issues[..|issues| - 1];
      assert forall k :: 0 <= k < |init| ==> init[k] == issues[k];
      IssuesLogFixes(file, t, text, init, fix);
    }
  }

  /**
   * The text is the fixes applied one after the other, each to the text the
   * previous one returned; with fixing off the text is untouched.
   */
  lemma {:induction false} IssuesThreadFixes(file: string, t: T.Tree, text: string, issues: seq<Issue>, fix: bool)
    requires t.Valid() && FixTargets(issues, t)
    ensures (Issues(file, t, text, issues, fix).text, Issues(file, t, text, issues, fix).tree) == T.ApplyFixes(t, text, FixesOf(issues, fix))
    decreases |issues|
  {
    if |issues| > 0 {
      var init := issues[..|issues| - 1];
      assert forall k :: 0 <= k < |init| ==> init[k] == issues[k];
      IssuesThreadFixes(file, t, text, init, fix);
      var p := Issues(file, t, text, init, fix);
      var i := issues[|issues| - 1];
      if fix && i.CanFix() {
        ApplyFixesSnoc(t, text, FixesOf(init, fix), i.fix.value);
        assert FixesOf(issues, fix) == FixesOf(init, fix) + [i.fix.value];
      } else if fix {
        assert FixesOf(issues, fix) == FixesOf(init, fix) + [];
        assert FixesOf(init, fix) + [] == FixesOf(init, fix);
      }
    }
  }

  /** The outcome for one entity file: its warnings, the fixes logged, and the text written back when fixing is on. */
  datatype Outcome = Outcome(warnings: seq<string>, logged: seq<string>, written: Option<string>)

  function Finish(p: Pass, fix: bool): Outcome
  {
    Outcome(p.warnings, p.logged, if fix then Some(p.text) else None)
  }

  /**
   * One file of `find_incorrect_property_types`. The parse is the one with
   * the empty-object closer consumed; an exception from it ends the script,
   * so nothing is written back.
   */
  function EntityFile(file: string, text: string, floatOf: string -> Option<bool>, fix: bool): Result<Outcome>
  {
    var f := P.ParseJson(P.Src(text, floatOf, true));
    match f.r
    case Err(e) => Err(e)
    case Ok(_) => Ok(Finish(Issues(file, f.s.tree, text, f.s.lis.issues, fix), fix))
  }

  method CheckEntityFile(file: string, text: string, floatOf: string -> Option<bool>, fix: bool) returns (r: Result<Outcome>)
    ensures r == EntityFile(file, text, floatOf, fix)
  {
    var listener := new J.PropertyListener(text, floatOf);
    var root, parsed := J.ParseJson(text, listener, true);
    if parsed.Err? {
      return Err(parsed.message);
    }
    var issues := listener.issueList;
    assert FixTargets(issues, root.State());
    var pass := ReportIssues(file, text, root, issues, fix);
    r := Ok(Outcome(pass.warnings, pass.logged, if fix then Some(pass.text) else None));
  }

  /** The loop over `listener.issueList`: warn for every issue, and with fixing on apply each closure. */
  method ReportIssues(file: string, text: string, root: J.ContextTree, issues: seq<Issue>, fix: bool) returns (pass: Pass)
    requires root.State().Valid() && FixTargets(issues, root.State())
    modifies root
    ensures pass == Issues(file, old(root.State()), text, issues, fix) && pass.tree == root.State()
  {
    ghost var t0 := root.State();
    var warnings: seq<string> := [];
    var logged: seq<string> := [];
    var current := text;
    for i := 0 to |issues|
      invariant root.State().Valid() && root.State().Size() == t0.Size()
      invariant Issues(file, t0, text, issues[..i], fix) == Pass(warnings, logged, current, root.State())
    {
      assert issues[..i + 1][..i] == issues[..i];
      var element := issues[i];
      warnings := warnings + [Warning(file, element.message)];
      if fix && element.CanFix() {
        logged := logged + [element.message];
        var before := root.GetText(current, element.fix.value.ctx);
        current := root.SetText(current, element.fix.value.ctx, before + element.fix.value.suffix);
      }
    }
    assert issues[..|issues|] == issues;
    pass := Pass(warnings, logged, current, root.State());
  }

  /** The files in order, each checked by `check`; the first exception ends the run. */
  function EachFile(files: seq<(string, string)>, check: (string, string) -> Result<Outcome>): Result<seq<Outcome>>
    decreases |files|
  {
    if |files| == 0 then Ok([])
    else
      var (file, text) := files[|files| - 1];
      match EachFile(files[..|files| - 1], check)
      case Err(e) => Err(e)
      case Ok(done) =>
        match check(file, text)
        case Err(e) => Err(e)
        case Ok(o) => Ok(done + [o])
  }

  lemma {:induction false} EachFileStop(files: seq<(string, string)>, check: (string, string) -> Result<Outcome>, i: nat)
    requires i <= |files| && EachFile(files[..i], check).Err?
    ensures EachFile(files, check) == EachFile(files[..i], check)
    decreases |files|
  {
    if i < |files| {
      var init := files[..|files| - 1];
      assert init[..i] == files[..i];
      EachFileStop(init, check, i);
    } else {
      assert files[..i] == files;
    }
  }

  lemma {:induction false} EachFileEach(files: seq<(string, string)>, check: (string, string) -> Result<Outcome>)
    requires EachFile(files, check).Ok?
    ensures |EachFile(files, check).value| == |files|
    ensures forall k :: 0 <= k < |files| ==> check(files[k].0, files[k].1) == Ok(EachFile(files, check).value[k])
    decreases |files|
  {
    if |files| > 0 {
      var init := files[..|files| - 1];
      assert forall k :: 0 <= k < |init| ==> init[k] == files[k];
      EachFileEach(init, check);
    }
  }

  /** The check of one entity file, for a given float parser and fixing switch. */
  function Checker(floatOf: string -> Option<bool>, fix: bool): (string, string) -> Result<Outcome>
  {
    (file, text) => EntityFile(file, text, floatOf, fix)
  }

  /** The entity files in walk order, each with its contents; the first parse exception ends the run. */
  function EntityFiles(files: seq<(string, string)>, floatOf: string -> Option<bool>, fix: bool): Result<seq<Outcome>>
  {
    EachFile(files, Checker(floatOf, fix))
  }

  /** Once a file fails to parse, no later file changes the result. */
  lemma EntityFilesStop(files: seq<(string, string)>, floatOf: string -> Option<bool>, fix: bool, i: nat)
    requires i <= |files| && EntityFiles(files[..i], floatOf, fix).Err?
    ensures EntityFiles(files, floatOf, fix) == EntityFiles(files[..i], floatOf, fix)
  {
    EachFileStop(files, Checker(floatOf, fix), i);
  }

  /** A successful run has one outcome per file, each the file's own. */
  lemma EntityFilesEach(files: seq<(string, string)>, floatOf: string -> Option<bool>, fix: bool)
    requires EntityFiles(files, floatOf, fix).Ok?
    ensures |EntityFiles(files, floatOf, fix).value| == |files|
    ensures forall k :: 0 <= k < |files| ==> EntityFile(files[k].0, files[k].1, floatOf, fix) == Ok(EntityFiles(files, floatOf, fix).value[k])
  {
    EachFileEach(files, Checker(floatOf, fix));
  }

  /** `find_incorrect_property_types` over the files under `entities` whose name ends in `json`. */
  method FindIncorrectPropertyTypes(files: seq<(string, string)>, floatOf: string -> Option<bool>, fix: bool) returns (r: Result<seq<Outcome>>)
    ensures r == EntityFiles(files, floatOf, fix)
  {
    var outcomes: seq<Outcome> := [];
    for i := 0 to |files|
      invariant EntityFiles(files[..i], floatOf, fix) == Ok(outcomes)
    {
      assert files[..i + 1][..i] == files[..i];
      var o := CheckEntityFile(files[i].0, files[i].1, floatOf, fix);
      if o.Err? {
        r := Err(o.message);
        EntityFilesStop(files, floatOf, fix, i + 1);
        return;
      }
      outcomes := outcomes + [o.value];
    }
    assert files[..|files|] == files;
    r := Ok(outcomes);
  }
}
