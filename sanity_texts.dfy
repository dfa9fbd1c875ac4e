/**
 * The `texts/` checks of sanity_check/sanity_check.py: reading a `.lang`
 * file into a dictionary (`load_lang_file`) and reporting, for every
 * language file, each key some other language file has and it lacks
 * (`find_missing_translations`).
 */
module SanityTexts {
  import opened Wrappers
  import opened Text
  import opened SanityRules

  // ---------------------------------------------------------------------------
  // load_lang_file

  /** The characters Python's `str.strip()` removes: those `str.isspace()` accepts. */
  predicate IsPyWhitespace(c: char)
  {
    c in {' ', '\t', '\n', '\r', '\U{B}', '\U{C}', '\U{1C}', '\U{1D}', '\U{1E}', '\U{1F}', '\U{85}',
          '\U{A0}', '\U{1680}', '\U{2000}', '\U{2001}', '\U{2002}', '\U{2003}', '\U{2004}', '\U{2005}',
          '\U{2006}', '\U{2007}', '\U{2008}', '\U{2009}', '\U{200A}', '\U{2028}', '\U{2029}', '\U{202F}',
          '\U{205F}', '\U{3000}'}
  }

  /** `not line.strip()`: the line is empty or only whitespace. */
  predicate Blank(line: string)
  {
    forall k :: 0 <= k < |line| ==> IsPyWhitespace(line[k])
  }

  /** A comment or a blank line, which `load_lang_file` skips. */
  predicate Ignored(line: string)
  {
    StartsWith(line, "#") || Blank(line)
  }

  /** `key, value = line.split("=", 1)` on a line without `=`. */
  const UnpackError := "ValueError: not enough values to unpack (expected 2, got 1)"

  /** What precedes the first `=`. */
  function KeyOf(line: string): string
    requires '=' in line
  {
    line[..IndexOf(line, '=')]
  }

  /** What follows the first `=`, to the end of the line (its line break included). */
  function ValueOf(line: string): string
    requires '=' in line
  {
    line[IndexOf(line, '=') + 1..]
  }

  /** A key and a value with `=` between them split back into the two, when the key has no `=`. */
  lemma KeyValueRoundTrip(key: string, value: string)
    requires '=' !in key
    ensures '=' in key + "=" + value
    ensures KeyOf(key + "=" + value) == key && ValueOf(key + "=" + value) == value
  {
    var line := key + "=" + value;
    assert line[|key|] == '=';
    IndexOfAt(line, '=', |key|);
  }

  /** A line that `load_lang_file` turns into an entry. */
  predicate Entry(line: string)
  {
    !Ignored(line) && '=' in line
  }

  /**
   * `f.readlines()`: the text cut after every line break, each line keeping
   * its `\n`; the last line has none when the text does not end in one.
   */
  function ReadLines(text: string): (lines: seq<string>)
    decreases |text|
  {
    var i := IndexOf(text, '\n');
    if i < 0 then (if text == "" then [] else [text])
    else [text[..i + 1]] + ReadLines(text[i + 1..])
  }

  function Concat(lines: seq<string>): string
  {
    if |lines| == 0 then "" else lines[0] + Concat(lines[1..])
  }

  /** A text with a line break reads as its first line, up to and including the break, then the lines of the rest. */
  lemma ReadLinesStep(text: string, i: int)
    requires i == IndexOf(text, '\n') && i >= 0
    ensures ReadLines(text) == [text[..i + 1]] + ReadLines(text[i + 1..])
  {
  }

  lemma ConcatCons(line: string, lines: seq<string>)
    ensures Concat([line] + lines) == line + Concat(lines)
  {
    assert ([line] + lines)[1..] == lines;
  }

  /** The lines put back together are the text. */
  lemma {:induction false} ReadLinesConcat(text: string)
    ensures Concat(ReadLines(text)) == text
    decreases |text|
  {
    var i := IndexOf(text, '\n');
    if i >= 0 {
      var first, rest := text[..i + 1], text[i + 1..];
      ReadLinesStep(text, i);
      ReadLinesConcat(rest);
      ConcatCons(first, ReadLines(rest));
      assert text == first + rest;
    } else if text != "" {
      assert ReadLines(text) == [text];
      ConcatCons(text, []);
    }
  }

  /** A line that is not the last ends with its line break. */
  predicate Broken(line: string)
  {
    EndsWith(line, "\n")
  }

  /** A line is non-empty and has no line break before its last character. */
  predicate OneLine(line: string)
  {
    |line| > 0 && '\n' !in line[..|line| - 1]
  }

  /** Every line but the last ends with its line break, and none has one before its end. */
  lemma {:induction false} ReadLinesBreaks(text: string)
    ensures forall k :: 0 <= k < |ReadLines(text)| - 1 ==> Broken(ReadLines(text)[k])
    ensures forall k :: 0 <= k < |ReadLines(text)| ==> OneLine(ReadLines(text)[k])
    decreases |text|
  {
    var lines := ReadLines(text);
    var i := IndexOf(text, '\n');
    if i >= 0 {
      var first, rest := text[..i + 1], text[i + 1..];
      ReadLinesStep(text, i);
      ReadLinesBreaks(rest);
      var tail := ReadLines(rest);
      assert Broken(first) by {
        assert first[|first| - 1..] == [text[i]];
      }
      assert OneLine(first) by {
        assert first[..i] == text[..i];
      }
      forall k | 1 <= k < |lines|
        ensures lines[k] == tail[k - 1]
      {
      }
    } else if text != "" {
      assert lines == [text];
      assert text[..|text| - 1] <= text;
      assert OneLine(text);
    }
  }

  /**
   * `load_lang_file` on the lines of a file: each entry line in turn sets its
   * key to its value, so a later line for the same key wins. A line that is
   * neither a comment, blank, nor has an `=` raises.
   */
  function LoadLang(lines: seq<string>): (r: Result<map<string, string>>)
  {
    if |lines| == 0 then Ok(map[])
    else
      var init := lines[..|lines| - 1];
      var line := lines[|lines| - 1];
      match LoadLang(init)
      case Err(e) => Err(e)
      case Ok(d) =>
        if Ignored(line) then Ok(d)
        else if '=' !in line then Err(UnpackError)
        else Ok(d[KeyOf(line) := ValueOf(line)])
  }

  /**
   * A file raises exactly when some line is neither a comment, blank, nor
   * has an `=`; otherwise its keys are exactly those of its entry lines.
   */
  lemma {:induction false} LoadLangIff(lines: seq<string>)
    ensures LoadLang(lines).Err? <==> exists k :: 0 <= k < |lines| && !Ignored(lines[k]) && '=' !in lines[k]
    ensures LoadLang(lines).Ok? ==> forall key :: key in LoadLang(lines).value <==>
      exists k :: 0 <= k < |lines| && Entry(lines[k]) && KeyOf(lines[k]) == key
  {
    if |lines| > 0 {
      var init := lines[..|lines| - 1];
      LoadLangIff(init);
      assert forall k :: 0 <= k < |init| ==> init[k] == lines[k];
    }
  }

  /** The value of a key is the one on the last entry line for that key. */
  lemma {:induction false} LoadLangLastWins(lines: seq<string>, k: nat)
    requires k < |lines| && LoadLang(lines).Ok? && Entry(lines[k])
    requires forall j :: k < j < |lines| && Entry(lines[j]) ==> KeyOf(lines[j]) != KeyOf(lines[k])
    ensures KeyOf(lines[k]) in LoadLang(lines).value
    ensures LoadLang(lines).value[KeyOf(lines[k])] == ValueOf(lines[k])
  {
    var init := lines[..|lines| - 1];
    if k < |lines| - 1 {
      assert forall j :: 0 <= j < |init| ==> init[j] == lines[j];
      LoadLangLastWins(init, k);
    } else {
      assert lines[k] == lines[|lines| - 1];
    }
  }

  /** Once a prefix of the lines raised, the whole file raises the same exception. */
  lemma {:induction false} LoadLangStops(lines: seq<string>, i: nat)
    requires i <= |lines| && LoadLang(lines[..i]).Err?
    ensures LoadLang(lines) == LoadLang(lines[..i])
    decreases |lines|
  {
    if i < |lines| {
      var init := lines[..|lines| - 1];
      assert init[..i] == lines[..i];
      LoadLangStops(init, i);
    } else {
      assert lines[..i] == lines;
    }
  }

  /** The loop of `load_lang_file`. */
  method LoadLangFile(lines: seq<string>) returns (r: Result<map<string, string>>)
    ensures r == LoadLang(lines)
  {
    var langDict: map<string, string> := map[];
    for i := 0 to |lines|
      invariant LoadLang(lines[..i]) == Ok(langDict)
    {
      var line := lines[i];
      assert lines[..i + 1][..i] == lines[..i];
      if StartsWith(line, "#") || Blank(line) {
        continue;
      }
      var eq := IndexOf(line, '=');
      if eq < 0 {
        r := Err(UnpackError);
        assert LoadLang(lines[..i + 1]) == r;
        LoadLangStops(lines, i + 1);
        return;
      }
      langDict := langDict[line[..eq] := line[eq + 1..]];
    }
    assert lines[..|lines|] == lines;
    r := Ok(langDict);
  }

  // ---------------------------------------------------------------------------
  // find_missing_translations

  /** Every key any of the dictionaries has (`all_keys`). */
  function AllKeys(dicts: seq<map<string, string>>): (keys: set<string>)
    ensures forall key :: key in keys <==> exists j :: 0 <= j < |dicts| && key in dicts[j]
  {
    if |dicts| == 0 then {}
    else
      var init := dicts[..|dicts| - 1];
      assert forall j :: 0 <= j < |init| ==> init[j] == dicts[j];
      AllKeys(init) + dicts[|dicts| - 1].Keys
  }

  /** The `(file, key)` pairs `find_missing_translations` warns about. */
  function Missing(files: seq<string>, dicts: seq<map<string, string>>): set<(string, string)>
    requires |files| == |dicts|
  {
    MissingFor(files, dicts, AllKeys(dicts))
  }

  /** Nothing is reported exactly when every language file has the same keys. */
  lemma NoneMissingIff(files: seq<string>, dicts: seq<map<string, string>>)
    requires |files| == |dicts|
    ensures Missing(files, dicts) == {} <==> forall j, k :: 0 <= j < |dicts| && 0 <= k < |dicts| ==> dicts[j].Keys == dicts[k].Keys
  {
    if Missing(files, dicts) == {} {
      forall j, k | 0 <= j < |dicts| && 0 <= k < |dicts| ensures dicts[j].Keys == dicts[k].Keys {
        forall key | key in dicts[j] ensures key in dicts[k] {
          assert key in AllKeys(dicts);
          if key !in dicts[k] {
            MissingForHas(files, dicts, AllKeys(dicts), k, key);
          }
        }
        forall key | key in dicts[k] ensures key in dicts[j] {
          assert key in AllKeys(dicts);
          if key !in dicts[j] {
            MissingForHas(files, dicts, AllKeys(dicts), j, key);
          }
        }
      }
    }
  }

  /** The dictionaries of the language files, in order, or the first exception. */
  function LoadAll(files: seq<string>, linesOf: string -> seq<string>): (r: Result<seq<map<string, string>>>)
    ensures r.Ok? ==> |r.value| == |files|
  {
    if |files| == 0 then Ok([])
    else
      var init := files[..|files| - 1];
      match LoadAll(init, linesOf)
      case Err(e) => Err(e)
      case Ok(ds) =>
        match LoadLang(linesOf(files[|files| - 1]))
        case Err(e) => Err(e)
        case Ok(d) => Ok(ds + [d])
  }

  /** The dictionaries are those of the files in order, and loading fails exactly when some file raises. */
  lemma {:induction false} LoadAllIff(files: seq<string>, linesOf: string -> seq<string>)
    ensures LoadAll(files, linesOf).Ok? ==> forall k :: 0 <= k < |files| ==> LoadLang(linesOf(files[k])) == Ok(LoadAll(files, linesOf).value[k])
    ensures LoadAll(files, linesOf).Err? <==> exists k :: 0 <= k < |files| && LoadLang(linesOf(files[k])).Err?
  {
    if |files| > 0 {
      var init := files[..|files| - 1];
      LoadAllIff(init, linesOf);
      assert forall k :: 0 <= k < |init| ==> init[k] == files[k];
    }
  }

  /**
   * `find_missing_translations(base_path)`, with `linesOf(f)` the lines of
   * `texts/f`: the missing pairs, or the exception a language file raised.
   */
  function MissingTranslations(fs: Fs, linesOf: string -> seq<string>): Result<set<(string, string)>>
  {
    match LanguageFiles(fs)
    case Err(e) => Err(e)
    case Ok(files) =>
      match LoadAll(files, linesOf)
      case Err(e) => Err(e)
      case Ok(dicts) => Ok(Missing(files, dicts))
  }

  /**
   * A pair is reported exactly when the file is a language file, some
   * language file has the key, and the file's own lines give no entry for it.
   */
  lemma MissingTranslationIff(files: seq<string>, linesOf: string -> seq<string>, file: string, key: string)
    requires LoadAll(files, linesOf).Ok?
    ensures (file, key) in Missing(files, LoadAll(files, linesOf).value) <==>
      file in files && LoadLang(linesOf(file)).Ok? && key !in LoadLang(linesOf(file)).value &&
      exists other :: other in files && LoadLang(linesOf(other)).Ok? && key in LoadLang(linesOf(other)).value
  {
    var dicts := LoadAll(files, linesOf).value;
    LoadAllIff(files, linesOf);
    if (file, key) in Missing(files, dicts) {
      var k, key' :| 0 <= k < |files| && key' in AllKeys(dicts) && key' !in dicts[k] && (files[k], key') == (file, key);
      var j :| 0 <= j < |dicts| && key in dicts[j];
      assert LoadLang(linesOf(files[j])) == Ok(dicts[j]);
      assert LoadLang(linesOf(files[k])) == Ok(dicts[k]);
    }
    if file in files && LoadLang(linesOf(file)).Ok? && key !in LoadLang(linesOf(file)).value &&
      exists other :: other in files && LoadLang(linesOf(other)).Ok? && key in LoadLang(linesOf(other)).value
    {
      var k :| 0 <= k < |files| && files[k] == file;
      var other :| other in files && LoadLang(linesOf(other)).Ok? && key in LoadLang(linesOf(other)).value;
      var j :| 0 <= j < |files| && files[j] == other;
      assert key in dicts[j];
      assert key in AllKeys(dicts);
      assert (files[k], key) in MissingFor(files, dicts, AllKeys(dicts));
    }
  }

  /** The pairs of the keys in `keys`. */
  function MissingFor(files: seq<string>, dicts: seq<map<string, string>>, keys: set<string>): set<(string, string)>
    requires |files| == |dicts|
  {
    set k, key | 0 <= k < |files| && key in keys && key !in dicts[k] :: (files[k], key)
  }

  lemma MissingForHas(files: seq<string>, dicts: seq<map<string, string>>, keys: set<string>, k: nat, key: string)
    requires |files| == |dicts| && k < |files| && key in keys && key !in dicts[k]
    ensures (files[k], key) in MissingFor(files, dicts, keys)
  {
  }

  /** The pairs of one key among the first `n` files. */
  function MissingKey(files: seq<string>, dicts: seq<map<string, string>>, key: string, n: nat): set<(string, string)>
    requires |files| == |dicts| && n <= |files|
  {
    set k | 0 <= k < n && key !in dicts[k] :: (files[k], key)
  }

  lemma MissingForAdd(files: seq<string>, dicts: seq<map<string, string>>, keys: set<string>, key: string)
    requires |files| == |dicts|
    ensures MissingFor(files, dicts, keys + {key}) == MissingFor(files, dicts, keys) + MissingKey(files, dicts, key, |files|)
  {
  }

  lemma MissingKeyStep(files: seq<string>, dicts: seq<map<string, string>>, key: string, n: nat)
    requires |files| == |dicts| && n < |files|
    ensures MissingKey(files, dicts, key, n + 1) ==
      MissingKey(files, dicts, key, n) + (if key !in dicts[n] then {(files[n], key)} else {})
  {
  }

  /** The two loops over `all_keys` and the files; the keys are taken in an unspecified order, as Python's set gives them. */
  method MissingPairs(files: seq<string>, dicts: seq<map<string, string>>, allKeys: set<string>) returns (missing: set<(string, string)>)
    requires |files| == |dicts|
    ensures missing == MissingFor(files, dicts, allKeys)
  {
    missing := {};
    var done: set<string> := {};
    var remaining := allKeys;
    while remaining != {}
      invariant done + remaining == allKeys && done !! remaining
      invariant missing == MissingFor(files, dicts, done)
      decreases remaining
    {
      var key :| key in remaining;
      ghost var before := missing;
      for k := 0 to |files|
        invariant missing == before + MissingKey(files, dicts, key, k)
      {
        MissingKeyStep(files, dicts, key, k);
        if key !in dicts[k] {
          missing := missing + {(files[k], key)};
        }
      }
      MissingForAdd(files, dicts, done, key);
      done := done + {key};
      remaining := remaining - {key};
    }
  }

  /** The first loop of `find_missing_translations`: each language file's dictionary, and the union of their keys. */
  method LoadTexts(files: seq<string>, linesOf: string -> seq<string>) returns (r: Result<seq<map<string, string>>>, allKeys: set<string>)
    ensures r == LoadAll(files, linesOf)
    ensures r.Ok? ==> allKeys == AllKeys(r.value)
  {
    var dicts: seq<map<string, string>> := [];
    allKeys := {};
    for i := 0 to |files|
      invariant LoadAll(files[..i], linesOf) == Ok(dicts)
      invariant allKeys == AllKeys(dicts)
    {
      assert files[..i + 1][..i] == files[..i];
      var d := LoadLangFile(linesOf(files[i]));
      if d.Err? {
        assert LoadAll(files[..i + 1], linesOf) == Err(d.message);
        LoadAllStops(files, linesOf, i + 1);
        return Err(d.message), allKeys;
      }
      assert (dicts + [d.value])[..|dicts|] == dicts;
      dicts := dicts + [d.value];
      allKeys := allKeys + d.value.Keys;
    }
    assert files[..|files|] == files;
    r := Ok(dicts);
  }

  lemma {:induction false} LoadAllStops(files: seq<string>, linesOf: string -> seq<string>, i: nat)
    requires i <= |files| && LoadAll(files[..i], linesOf).Err?
    ensures LoadAll(files, linesOf) == LoadAll(files[..i], linesOf)
    decreases |files|
  {
    if i < |files| {
      var init := files[..|files| - 1];
      assert init[..i] == files[..i];
      LoadAllStops(init, linesOf, i);
    } else {
      assert files[..i] == files;
    }
  }

  method FindMissingTranslations(fs: Fs, linesOf: string -> seq<string>) returns (r: Result<set<(string, string)>>)
    ensures r == MissingTranslations(fs, linesOf)
  {
    if "texts" !in fs.dirs && "texts" !in fs.files {
      assert MissingFor([], [], {}) == {};
      return Ok({});
    }
    if "texts" !in fs.dirs {
      return Err(NotADirectory);
    }
    var files := LangFiles(fs, fs.dirs["texts"]);
    var dicts, allKeys := LoadTexts(files, linesOf);
    if dicts.Err? {
      return Err(dicts.message);
    }
    var missing := MissingPairs(files, dicts.value, allKeys);
    r := Ok(missing);
  }
}
