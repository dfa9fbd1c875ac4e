/**
 * The file checks of sanity_check/sanity_check.py that look at listings and
 * names: byte order marks, misspelt folders and files, and language file
 * names. The file system is passed in as a listing of the pack directory;
 * every check returns the warnings it would print, in printing order, or the
 * exception it would raise.
 */
module SanityRules {
  import opened Wrappers
  import opened Text
  import opened SanityUtils

  /** `os.path.sep` on POSIX, which the messages are built with. */
  const Sep := "/"

  // ---------------------------------------------------------------------------
  // Byte order marks

  type byte = b: int | 0 <= b < 256

  const Bom: seq<byte> := [0xEF, 0xBB, 0xBF]

  /** `f.read(3)`: the first three bytes, or all of a shorter file. */
  function Read3(content: seq<byte>): seq<byte>
  {
    if |content| < 3 then content else content[..3]
  }

  /** `has_bom`: `f.read(3) == b"\xef\xbb\xbf"`. */
  predicate HasBom(content: seq<byte>)
  {
    Read3(content) == Bom
  }

  /** A file has a BOM exactly when it is at least three bytes long and starts with `EF BB BF`. */
  lemma HasBomIff(content: seq<byte>)
    ensures HasBom(content) <==> |content| >= 3 && content[0] == 0xEF && content[1] == 0xBB && content[2] == 0xBF
  {
    if |content| >= 3 && content[0] == 0xEF && content[1] == 0xBB && content[2] == 0xBF {
      assert content[..3] == Bom;
    }
  }

  /** What the BOM fix writes back: `file.read(3)` and then the rest, `file.read()`. */
  function AfterBom(content: seq<byte>): (rest: seq<byte>)
    requires HasBom(content)
    ensures Bom + rest == content
    ensures |rest| == |content| - 3
  {
    content[3..]
  }

  /** Stripping the BOM from a file that was given one gives the file back. */
  lemma StripAddedBom(rest: seq<byte>)
    ensures HasBom(Bom + rest) && AfterBom(Bom + rest) == rest
  {
    assert (Bom + rest)[..3] == Bom;
  }

  /** A file `os.walk` found under the pack: its joined path, its bare name and its bytes. */
  datatype WalkedFile = WalkedFile(path: string, name: string, content: seq<byte>)

  /** What `find_bom` does with a file that has a BOM: strip it (`remove_bom`) or warn. */
  datatype BomAction = Stripped(path: string, rest: seq<byte>) | Warned(path: string)

  /** The line `find_bom` prints for an action: a `[FIX]` line or a `[WARNING]` line. */
  function BomMessage(a: BomAction): string
  {
    match a
    case Stripped(p, _) => "Removing BOM from " + p + "."
    case Warned(p) => p + " has a BOM. This is not allowed."
  }

  function BomActionOf(f: WalkedFile, extensions: seq<string>, removeBom: bool): Option<BomAction>
  {
    if !HasExtension(f.name, extensions) || !HasBom(f.content) then None
    else if removeBom then Some(Stripped(f.path, AfterBom(f.content)))
    else Some(Warned(f.path))
  }

  /** The actions of `find_bom` over the walked files, in walking order. */
  function BomActions(files: seq<WalkedFile>, extensions: seq<string>, removeBom: bool): seq<BomAction>
  {
    if |files| == 0 then []
    else
      var last := BomActionOf(files[|files| - 1], extensions, removeBom);
      BomActions(files[..|files| - 1], extensions, removeBom) + (if last.Some? then [last.value] else [])
  }

  /**
   * An action is taken for exactly the files with one of the extensions and
   * a BOM: with `remove_bom` the bytes after the BOM are written back,
   * otherwise the file is reported.
   */
  lemma {:induction false} BomActionsIff(files: seq<WalkedFile>, extensions: seq<string>, removeBom: bool, a: BomAction)
    ensures a in BomActions(files, extensions, removeBom) <==>
      exists k :: 0 <= k < |files| && HasExtension(files[k].name, extensions) && HasBom(files[k].content) &&
        a == (if removeBom then Stripped(files[k].path, files[k].content[3..]) else Warned(files[k].path))
  {
    if |files| > 0 {
      var init := files[..|files| - 1];
      BomActionsIff(init, extensions, removeBom, a);
      assert forall k :: 0 <= k < |init| ==> init[k] == files[k];
    }
  }

  /** `find_bom` over the files `list_files_with_extension` walks. */
  method FindBom(files: seq<WalkedFile>, extensions: seq<string>, removeBom: bool) returns (actions: seq<BomAction>)
    ensures actions == BomActions(files, extensions, removeBom)
    ensures |actions| <= |files|
  {
    actions := [];
    for i := 0 to |files|
      invariant actions == BomActions(files[..i], extensions, removeBom)
      invariant |actions| <= i
    {
      assert files[..i + 1][..i] == files[..i];
      var f := files[i];
      if HasExtension(f.name, extensions) {
        var head := if |f.content| < 3 then f.content else f.content[..3];
        if head == Bom {
          if removeBom {
            actions := actions + [Stripped(f.path, f.content[3..])];
          } else {
            actions := actions + [Warned(f.path)];
          }
        }
      }
    }
    assert files[..|files|] == files;
  }

  /** Python's message for `open(..., "wb", encoding=...)`. */
  const BinaryEncodingError := "ValueError: binary mode doesn't take an encoding argument"

  /**
   * `find_bom` as written: with `remove_bom` the first file with a BOM reaches
   * `open(f, "wb", encoding="utf8")`, which raises before anything is written;
   * without it, the warnings are those of `BomActions`.
   */
  function BomOutcomeAsWritten(files: seq<WalkedFile>, extensions: seq<string>, removeBom: bool): (r: Result<seq<BomAction>>)
    ensures r.Err? ==> removeBom && r.message == BinaryEncodingError
    ensures r.Ok? ==> r.value == BomActions(files, extensions, removeBom)
  {
    if removeBom && BomActions(files, extensions, true) != [] then Err(BinaryEncodingError)
    else Ok(BomActions(files, extensions, removeBom))
  }

  /**
   * As written, removing a BOM always fails: any listed file with one of the
   * extensions and a BOM makes `find_bom` raise, so no file is ever stripped.
   */
  lemma BomRemovalRaises(files: seq<WalkedFile>, extensions: seq<string>, k: nat)
    requires k < |files| && HasExtension(files[k].name, extensions) && HasBom(files[k].content)
    ensures BomOutcomeAsWritten(files, extensions, true) == Err(BinaryEncodingError)
  {
    BomActionsIff(files, extensions, true, Stripped(files[k].path, files[k].content[3..]));
  }

  /** `find_bom` as written, over the files `list_files_with_extension` walks. */
  method FindBomAsWritten(files: seq<WalkedFile>, extensions: seq<string>, removeBom: bool) returns (r: Result<seq<BomAction>>)
    ensures r == BomOutcomeAsWritten(files, extensions, removeBom)
  {
    var actions := [];
    for i := 0 to |files|
      invariant actions == BomActions(files[..i], extensions, removeBom)
      invariant removeBom ==> actions == []
    {
      assert files[..i + 1][..i] == files[..i];
      var f := files[i];
      if HasExtension(f.name, extensions) {
        var head := if |f.content| < 3 then f.content else f.content[..3];
        if head == Bom {
          if removeBom {
            BomRemovalRaises(files, extensions, i);
            return Err(BinaryEncodingError);
          }
          actions := actions + [Warned(f.path)];
        }
      }
    }
    assert files[..|files|] == files;
    return Ok(actions);
  }

  // ---------------------------------------------------------------------------
  // The pack directory

  /**
   * The directory a check runs on, by paths relative to it (`""` is the
   * directory itself): each directory with its `os.listdir` listing, in
   * listing order, and the set of plain files.
   */
  datatype Fs = Fs(dirs: map<string, seq<string>>, files: set<string>)

  /** `os.path.exists(os.path.join(base_path, p))`. */
  predicate Exists(fs: Fs, p: string)
  {
    p in fs.dirs || p in fs.files
  }

  /** `os.path.isdir(os.path.join(base_path, p))`. */
  predicate IsDir(fs: Fs, p: string)
  {
    p in fs.dirs
  }

  const NotFound := "FileNotFoundError: [Errno 2] No such file or directory"
  const NotADirectory := "NotADirectoryError: [Errno 20] Not a directory"
  const NoneCompare := "TypeError: '>' not supported between instances of 'NoneType' and 'int'"

  /** `os.listdir(os.path.join(base_path, p))`, which raises for a missing path or a plain file. */
  function ListDir(fs: Fs, p: string): (r: Result<seq<string>>)
    ensures r.Ok? <==> IsDir(fs, p)
  {
    if p in fs.dirs then Ok(fs.dirs[p])
    else if p in fs.files then Err(NotADirectory)
    else Err(NotFound)
  }

  /** `os.path.join(a, b)` of POSIX Python. */
  function PosixJoin(a: string, b: string): string
  {
    if StartsWith(b, "/") then b
    else if a == "" || EndsWith(a, "/") then a + b
    else a + "/" + b
  }

  predicate AllSlashes(s: string)
  {
    forall k :: 0 <= k < |s| ==> s[k] == '/'
  }

  function RStripSlashes(s: string): string
  {
    if |s| > 0 && s[|s| - 1] == '/' then RStripSlashes(s[..|s| - 1]) else s
  }

  /** `os.path.dirname` of POSIX Python: up to the last `/`, without the trailing slashes unless it is all slashes. */
  function DirName(p: string): string
  {
    var head := p[..LastIndexOf(p, '/') + 1];
    if head != "" && !AllSlashes(head) then RStripSlashes(head) else head
  }

  /** `os.path.basename`: what follows the last `/`. */
  function BaseName(p: string): string
  {
    p[LastIndexOf(p, '/') + 1..]
  }

  /** Joining a directory and a name and splitting the result again gives both back. */
  lemma DirNameOfJoin(parent: string, name: string)
    requires '/' !in name && (parent == "" || (parent[|parent| - 1] != '/'))
    ensures DirName(PosixJoin(parent, name)) == parent
    ensures BaseName(PosixJoin(parent, name)) == name
  {
    var p := PosixJoin(parent, name);
    if name != "" {
      assert !StartsWith(name, "/") by { assert name[0] != '/'; }
    }
    if parent == "" {
      assert p == name;
    } else {
      assert !EndsWith(parent, "/");
      assert p == parent + "/" + name;
      var i := |parent|;
      assert p[i] == '/';
      assert p[i + 1..] == name;
      assert LastIndexOf(p, '/') == i by {
        assert '/' !in p[i + 1..];
      }
      var head := p[..i + 1];
      assert head == parent + "/";
      assert head[|head| - 1] == '/' && head[..|head| - 1] == parent;
      assert RStripSlashes(head) == RStripSlashes(parent);
      assert RStripSlashes(parent) == parent;
      assert !AllSlashes(head) by { assert head[i - 1] != '/'; }
    }
  }

  /** The entries of `names` that are directories, in order. */
  function Subdirectories(fs: Fs, names: seq<string>): (r: seq<string>)
    ensures forall d :: d in r <==> d in names && IsDir(fs, d)
  {
    if |names| == 0 then []
    else
      var last := names[|names| - 1];
      var init := names[..|names| - 1];
      assert forall d :: d in names <==> d in init || d == last;
      Subdirectories(fs, init) + (if IsDir(fs, last) then [last] else [])
  }

  // ---------------------------------------------------------------------------
  // One check per name, and the loop over names

  /** What `find_incorrect_language_names` finds wrong with a name; only the first failing test is reported. */
  datatype LangIssue = NotLanguageFile | UnknownLanguage(language: string) | UnknownCountry(country: string)

  datatype Warning =
    | FolderWarning(directory: string, closest: string)
    | FileWarning(entry: string, parent: string, closest: string)
    | LanguageWarning(file: string, issue: LangIssue)

  /** What one check needs besides the name it is given. */
  datatype Check =
    | FolderCheck(valid: seq<string>, threshold: int)
    | FileCheck(fs: Fs, valid: seq<string>, threshold: int)
    | LanguageCheck(languages: set<string>, countries: set<string>)

  /** The `[WARNING]` line of a warning, for the pack directory `base`. */
  function Message(base: string, w: Warning): string
  {
    match w
    case FolderWarning(d, c) =>
      base + Sep + d + " is not a valid folder. Did you mean " + base + Sep + c + "?"
    case FileWarning(e, parent, c) =>
      base + (if parent != "" then Sep else "") + parent + Sep + c + " is not a valid file. Did you mean " + base + Sep + e + "?"
    case LanguageWarning(f, NotLanguageFile) =>
      base + Sep + "texts" + Sep + f + " is not a valid language file."
    case LanguageWarning(f, UnknownLanguage(l)) =>
      base + Sep + "texts" + Sep + f + " is not a valid language file. " + l + " is not a valid language."
    case LanguageWarning(f, UnknownCountry(c)) =>
      base + Sep + "texts" + Sep + f + " is not a valid language file. " + c + " is not a valid country."
  }

  /** The body of `find_folder_misspellings`'s loop for one directory. */
  function CheckFolder(directory: string, valid: seq<string>, threshold: int): Result<Option<Warning>>
  {
    if directory in valid then Ok(None)
    else
      match Closest(directory, valid)
      case None => Err(NoneCompare)
      case Some((closest, d)) => if d > threshold then Ok(None) else Ok(Some(FolderWarning(directory, closest)))
  }

  /** `[f for f in os.listdir(parent) if not isdir(parent/f) and parent/f not in valid_entries]`. */
  function Candidates(fs: Fs, valid: seq<string>, parent: string, names: seq<string>): (r: seq<string>)
    ensures forall f :: f in r <==> f in names && !IsDir(fs, PosixJoin(parent, f)) && PosixJoin(parent, f) !in valid
  {
    if |names| == 0 then []
    else
      var last := names[|names| - 1];
      var init := names[..|names| - 1];
      assert forall f :: f in names <==> f in init || f == last;
      Candidates(fs, valid, parent, init) +
        (if !IsDir(fs, PosixJoin(parent, last)) && PosixJoin(parent, last) !in valid then [last] else [])
  }

  /** The body of `find_file_misspellings`'s loop for one valid entry. */
  function CheckFile(fs: Fs, valid: seq<string>, threshold: int, entry: string): Result<Option<Warning>>
  {
    if Exists(fs, entry) then Ok(None)
    else
      var parent := DirName(entry);
      if !Exists(fs, parent) then Ok(None)
      else
        match ListDir(fs, parent)
        case Err(e) => Err(e)
        case Ok(names) =>
          match Closest(BaseName(entry), Candidates(fs, valid, parent, names))
          case None => Ok(None)
          case Some((closest, d)) => if d > threshold then Ok(None) else Ok(Some(FileWarning(entry, parent, closest)))
  }

  /** `file.split(".")[0].split("_")`. */
  function NameParts(file: string): seq<string>
  {
    Split(Split(file, '.')[0], '_')
  }

  /** The tests of `find_incorrect_language_names` on one name, in order. */
  function LanguageIssue(file: string, languages: set<string>, countries: set<string>): Option<LangIssue>
  {
    var split := NameParts(file);
    if |split| != 2 then Some(NotLanguageFile)
    else if split[0] !in languages then Some(UnknownLanguage(split[0]))
    else if split[1] !in countries then Some(UnknownCountry(split[1]))
    else None
  }

  function Run(c: Check, x: string): Result<Option<Warning>>
  {
    match c
    case FolderCheck(valid, threshold) => CheckFolder(x, valid, threshold)
    case FileCheck(fs, valid, threshold) => CheckFile(fs, valid, threshold, x)
    case LanguageCheck(languages, countries) =>
      var issue := LanguageIssue(x, languages, countries);
      Ok(if issue.Some? then Some(LanguageWarning(x, issue.value)) else None)
  }

  /** A check's loop over `xs` with `run` checking each: the warnings in order, or the first exception. */
  function Each(run: string -> Result<Option<Warning>>, xs: seq<string>): Result<seq<Warning>>
  {
    if |xs| == 0 then Ok([])
    else
      match Each(run, xs[..|xs| - 1])
      case Err(e) => Err(e)
      case Ok(ws) =>
        match run(xs[|xs| - 1])
        case Err(e) => Err(e)
        case Ok(None) => Ok(ws)
        case Ok(Some(w)) => Ok(ws + [w])
  }

  lemma {:induction false} EachIff(run: string -> Result<Option<Warning>>, xs: seq<string>)
    ensures Each(run, xs).Ok? <==> forall k :: 0 <= k < |xs| ==> run(xs[k]).Ok?
    ensures Each(run, xs).Ok? ==> forall w :: w in Each(run, xs).value <==> exists k :: 0 <= k < |xs| && run(xs[k]) == Ok(Some(w))
    ensures Each(run, xs).Err? ==> exists k :: 0 <= k < |xs| && run(xs[k]) == Err(Each(run, xs).message)
  {
    if |xs| > 0 {
      var init := xs[..|xs| - 1];
      EachIff(run, init);
      assert forall k :: 0 <= k < |init| ==> init[k] == xs[k];
    }
  }

  lemma {:induction false} EachStops(run: string -> Result<Option<Warning>>, xs: seq<string>, i: nat)
    requires i < |xs| && Each(run, xs[..i]).Ok? && run(xs[i]).Err?
    ensures Each(run, xs) == Err(run(xs[i]).message)
    decreases |xs|
  {
    if i + 1 < |xs| {
      var init := xs[..|xs| - 1];
      assert init[..i] == xs[..i] && init[i] == xs[i];
      EachStops(run, init, i);
    } else {
      assert xs[..i + 1] == xs;
      assert xs[..i + 1][..i] == xs[..i];
    }
  }

  lemma EachStep(run: string -> Result<Option<Warning>>, xs: seq<string>, i: nat, ws: seq<Warning>)
    requires i < |xs| && Each(run, xs[..i]) == Ok(ws) && run(xs[i]).Ok?
    ensures run(xs[i]) == Ok(None) ==> Each(run, xs[..i + 1]) == Ok(ws)
    ensures run(xs[i]).value.Some? ==> Each(run, xs[..i + 1]) == Ok(ws + [run(xs[i]).value.value])
  {
    var ys := xs[..i + 1];
    assert ys[..i] == xs[..i] && ys[i] == xs[i] && |ys| == i + 1;
  }

  /** A check as a function of the name it checks. */
  function Runner(c: Check): string -> Result<Option<Warning>>
  {
    x => Run(c, x)
  }

  /**
   * A check's loop over `xs`: the warnings in order, or the first exception
   * (the warnings printed before it stay printed).
   */
  function Collect(c: Check, xs: seq<string>): Result<seq<Warning>>
  {
    Each(Runner(c), xs)
  }

  /**
   * The loop completes exactly when no name raises; it then reports exactly
   * the warnings of the single checks, and otherwise the exception of a name
   * it checked.
   */
  lemma CollectIff(c: Check, xs: seq<string>)
    ensures Collect(c, xs).Ok? <==> forall k :: 0 <= k < |xs| ==> Run(c, xs[k]).Ok?
    ensures Collect(c, xs).Ok? ==> forall w :: w in Collect(c, xs).value <==> exists k :: 0 <= k < |xs| && Run(c, xs[k]) == Ok(Some(w))
    ensures Collect(c, xs).Err? ==> exists k :: 0 <= k < |xs| && Run(c, xs[k]) == Err(Collect(c, xs).message)
  {
    EachIff(Runner(c), xs);
  }

  /** The loop ends with the first exception: everything before `xs[i]` passed and `xs[i]` raised. */
  lemma CollectStops(c: Check, xs: seq<string>, i: nat)
    requires i < |xs| && Collect(c, xs[..i]).Ok? && Run(c, xs[i]).Err?
    ensures Collect(c, xs) == Err(Run(c, xs[i]).message)
  {
    EachStops(Runner(c), xs, i);
  }

  /** One more pass of a loop that has not raised. */
  lemma CollectStep(c: Check, xs: seq<string>, i: nat, ws: seq<Warning>)
    requires i < |xs| && Collect(c, xs[..i]) == Ok(ws) && Run(c, xs[i]).Ok?
    ensures Run(c, xs[i]) == Ok(None) ==> Collect(c, xs[..i + 1]) == Ok(ws)
    ensures Run(c, xs[i]).value.Some? ==> Collect(c, xs[..i + 1]) == Ok(ws + [Run(c, xs[i]).value.value])
  {
    EachStep(Runner(c), xs, i, ws);
  }


  // ---------------------------------------------------------------------------
  // find_folder_misspellings

  /** `find_folder_misspellings(base_path, valid_entries)`: the directories of the pack, each checked in listing order. */
  function FolderMisspellings(fs: Fs, valid: seq<string>, threshold: int): Result<seq<Warning>>
  {
    match ListDir(fs, "")
    case Err(e) => Err(e)
    case Ok(names) => Collect(FolderCheck(valid, threshold), Subdirectories(fs, names))
  }

  /**
   * A folder is reported exactly when it is a directory of the pack, not a
   * valid entry, and the first closest valid entry is within the threshold;
   * the suggestion is that entry. With no valid entries at all, the first
   * directory makes the comparison with `None` raise.
   */
  lemma FolderWarningIff(directory: string, valid: seq<string>, threshold: int, w: Warning)
    ensures CheckFolder(directory, valid, threshold).Err? <==> directory !in valid && |valid| == 0
    ensures CheckFolder(directory, valid, threshold) == Ok(Some(w)) <==>
      directory !in valid && |valid| > 0 &&
      w == FolderWarning(directory, valid[ArgMin(directory, valid)]) &&
      Lev(directory, valid[ArgMin(directory, valid)]) <= threshold
  {
    ClosestAtArgMin(directory, valid);
  }

  method FindFolderMisspellings(fs: Fs, valid: seq<string>, threshold: int) returns (r: Result<seq<Warning>>)
    ensures r == FolderMisspellings(fs, valid, threshold)
  {
    if "" !in fs.dirs {
      return if "" in fs.files then Err(NotADirectory) else Err(NotFound);
    }
    var directories := Subdirectories(fs, fs.dirs[""]);
    ghost var c := FolderCheck(valid, threshold);
    var warnings := [];
    for i := 0 to |directories|
      invariant Collect(c, directories[..i]) == Ok(warnings)
    {
      var directory := directories[i];
      if directory !in valid {
        var closest, distance := FindClosest(directory, valid);
        if distance.None? {
          CollectStops(c, directories, i);
          return Err(NoneCompare);
        }
        CollectStep(c, directories, i, warnings);
        if distance.value <= threshold {
          warnings := warnings + [FolderWarning(directory, closest.value)];
        }
      } else {
        CollectStep(c, directories, i, warnings);
      }
    }
    assert directories[..|directories|] == directories;
    r := Ok(warnings);
  }

  // ---------------------------------------------------------------------------
  // find_file_misspellings

  /** `find_file_misspellings(base_path, valid_entries)`: each valid entry, in order. */
  function FileMisspellings(fs: Fs, valid: seq<string>, threshold: int): Result<seq<Warning>>
  {
    Collect(FileCheck(fs, valid, threshold), valid)
  }

  /**
   * A valid entry is reported exactly when it does not exist, its parent is
   * a directory, some file of the parent is not itself a valid entry, and
   * the first closest such file is within the threshold; the warning names
   * that file. Only a parent that is a plain file raises.
   */
  lemma FileWarningIff(fs: Fs, valid: seq<string>, threshold: int, entry: string, w: Warning)
    ensures CheckFile(fs, valid, threshold, entry).Err? <==>
      !Exists(fs, entry) && DirName(entry) in fs.files && !IsDir(fs, DirName(entry))
    ensures CheckFile(fs, valid, threshold, entry) == Ok(Some(w)) <==>
      !Exists(fs, entry) && IsDir(fs, DirName(entry)) &&
      var files := Candidates(fs, valid, DirName(entry), fs.dirs[DirName(entry)]);
      |files| > 0 &&
      w == FileWarning(entry, DirName(entry), files[ArgMin(BaseName(entry), files)]) &&
      Lev(BaseName(entry), files[ArgMin(BaseName(entry), files)]) <= threshold
  {
    var parent := DirName(entry);
    if IsDir(fs, parent) {
      ClosestAtArgMin(BaseName(entry), Candidates(fs, valid, parent, fs.dirs[parent]));
    }
  }

  method FindFileMisspellings(fs: Fs, valid: seq<string>, threshold: int) returns (r: Result<seq<Warning>>)
    ensures r == FileMisspellings(fs, valid, threshold)
  {
    ghost var c := FileCheck(fs, valid, threshold);
    var warnings := [];
    for i := 0 to |valid|
      invariant Collect(c, valid[..i]) == Ok(warnings)
    {
      var entry := valid[i];
      if entry in fs.dirs || entry in fs.files {
        CollectStep(c, valid, i, warnings);
        continue;
      }
      var parent := DirName(entry);
      if parent !in fs.dirs && parent !in fs.files {
        CollectStep(c, valid, i, warnings);
        continue;
      }
      if parent !in fs.dirs {
        CollectStops(c, valid, i);
        return Err(NotADirectory);
      }
      var files := Candidates(fs, valid, parent, fs.dirs[parent]);
      var closest, distance := FindClosest(BaseName(entry), files);
      CollectStep(c, valid, i, warnings);
      if distance.None? || distance.value > threshold {
        continue;
      }
      warnings := warnings + [FileWarning(entry, parent, closest.value)];
    }
    assert valid[..|valid|] == valid;
    r := Ok(warnings);
  }

  // ---------------------------------------------------------------------------
  // find_incorrect_language_names

  /**
   * The filter of `texts/` as written: `os.path.isdir(os.path.join(base_path, f)
   * and f.endswith(".lang"))` passes a `bool`, which Python takes as file
   * descriptor 0 or 1; standard input and output are not directories, so
   * `not isdir(...)` holds and no entry is dropped.
   */
  function LangFilesAsWritten(names: seq<string>): seq<string>
  {
    if |names| == 0 then [] else LangFilesAsWritten(names[..|names| - 1]) + [names[|names| - 1]]
  }

  lemma {:induction false} AsWrittenKeepsEverything(names: seq<string>)
    ensures LangFilesAsWritten(names) == names
  {
    if |names| > 0 {
      AsWrittenKeepsEverything(names[..|names| - 1]);
      assert names == names[..|names| - 1] + [names[|names| - 1]];
    }
  }

  /** The intended filter: the entries of `texts/` that are not directories and end in `.lang`. */
  function LangFiles(fs: Fs, names: seq<string>): (r: seq<string>)
    ensures forall f :: f in r <==> f in names && !IsDir(fs, PosixJoin("texts", f)) && EndsWith(f, ".lang")
  {
    if |names| == 0 then []
    else
      var last := names[|names| - 1];
      var init := names[..|names| - 1];
      assert forall f :: f in names <==> f in init || f == last;
      LangFiles(fs, init) + (if !IsDir(fs, PosixJoin("texts", last)) && EndsWith(last, ".lang") then [last] else [])
  }

  /**
   * The language files both `texts/` checks loop over: none when `texts` does
   * not exist, and `os.listdir` raises when it is a plain file.
   */
  function LanguageFiles(fs: Fs): Result<seq<string>>
  {
    if !Exists(fs, "texts") then Ok([])
    else
      match ListDir(fs, "texts")
      case Err(e) => Err(e)
      case Ok(names) => Ok(LangFiles(fs, names))
  }

  /**
   * `languages.json`, a plain file that sits in `texts/` beside the `.lang`
   * files, is kept by the filter as written and reported as not a language
   * file; the intended filter leaves it out.
   */
  lemma LangFilterFinding(languages: set<string>, countries: set<string>)
    ensures var names := ["languages.json", "en_US.lang"];
      var fs := Fs(map["" := ["texts"], "texts" := names], {"texts/languages.json", "texts/en_US.lang"});
      "languages.json" in LangFilesAsWritten(names) &&
      LanguageIssue("languages.json", languages, countries) == Some(NotLanguageFile) &&
      LangFiles(fs, names) == ["en_US.lang"]
  {
    var names := ["languages.json", "en_US.lang"];
    AsWrittenKeepsEverything(names);
    LanguagesJsonParts();
    LanguagesJsonFiltered();
  }

  lemma LanguagesJsonParts()
    ensures NameParts("languages.json") == ["languages"]
  {
    assert "languages.json" == "languages" + ['.'] + "json";
    assert '.' !in "languages";
    SplitCons("languages", '.', "json");
    SplitNoSeparator("languages", '_');
  }

  lemma TextsJoin(f: string)
    requires f != "" && f[0] != '/'
    ensures PosixJoin("texts", f) == "texts/" + f
  {
    assert !StartsWith(f, "/") by {
      assert f[..1][0] == f[0];
    }
    assert !EndsWith("texts", "/") by {
      assert "texts"[4..] == "s";
    }
  }

  lemma LanguagesJsonFiltered()
    ensures var names := ["languages.json", "en_US.lang"];
      LangFiles(Fs(map["" := ["texts"], "texts" := names], {"texts/languages.json", "texts/en_US.lang"}), names) == ["en_US.lang"]
  {
    var names := ["languages.json", "en_US.lang"];
    var fs := Fs(map["" := ["texts"], "texts" := names], {"texts/languages.json", "texts/en_US.lang"});
    TextsJoin("en_US.lang");
    assert !IsDir(fs, "texts/en_US.lang") by {
      assert |"texts/en_US.lang"| == 16;
    }
    assert !EndsWith("languages.json", ".lang") by {
      assert "languages.json"[|"languages.json"| - 5..] == ".json";
    }
    assert EndsWith("en_US.lang", ".lang") by {
      assert "en_US.lang"[|"en_US.lang"| - 5..] == ".lang";
    }
    var first := names[..1];
    assert first == ["languages.json"] && first[..0] == [];
    assert LangFiles(fs, first) == [];
    assert LangFiles(fs, names) == LangFiles(fs, first) + ["en_US.lang"];
  }

  /** No piece of `Split(s, c)` contains `c`. */
  lemma {:induction false} SplitPiecesFree(s: string, c: char)
    ensures forall k :: 0 <= k < |Split(s, c)| ==> c !in Split(s, c)[k]
    decreases |s|
  {
    var i := IndexOf(s, c);
    if i >= 0 {
      SplitPiecesFree(s[i + 1..], c);
      assert c !in s[..i];
      var rest := Split(s[i + 1..], c);
      assert Split(s, c) == [s[..i]] + rest;
      assert forall k :: 1 <= k < |Split(s, c)| ==> Split(s, c)[k] == rest[k - 1];
    }
  }

  /**
   * A name passes exactly when the part before its first `.` is a language
   * and a country joined by one `_`, neither containing another `_`.
   */
  lemma LanguageNameValid(file: string, languages: set<string>, countries: set<string>)
    ensures LanguageIssue(file, languages, countries) == None <==>
      exists language, country :: Split(file, '.')[0] == language + "_" + country &&
        '_' !in language && '_' !in country && language in languages && country in countries
  {
    var stem := Split(file, '.')[0];
    var split := NameParts(file);
    if LanguageIssue(file, languages, countries) == None {
      JoinSplit(stem, '_');
      SplitPiecesFree(stem, '_');
      assert split == [split[0], split[1]];
      assert Join(split, '_') == split[0] + ['_'] + Join(split[1..], '_');
      assert split[1..] == [split[1]];
      assert stem == split[0] + "_" + split[1];
    }
    if (exists language, country :: stem == language + "_" + country &&
          '_' !in language && '_' !in country && language in languages && country in countries)
    {
      var language, country :| stem == language + "_" + country &&
        '_' !in language && '_' !in country && language in languages && country in countries;
      assert stem == language + ['_'] + country;
      SplitCons(language, '_', country);
      SplitNoSeparator(country, '_');
      assert split == [language, country];
    }
  }

  method FindIncorrectLanguageNames(fs: Fs, languages: set<string>, countries: set<string>) returns (r: Result<seq<Warning>>)
    ensures LanguageFiles(fs).Err? ==> r == Err(LanguageFiles(fs).message)
    ensures LanguageFiles(fs).Ok? ==> r == Collect(LanguageCheck(languages, countries), LanguageFiles(fs).value)
    ensures r.Ok? ==> forall w :: w in r.value <==>
      (exists f :: f in LanguageFiles(fs).value &&
        LanguageIssue(f, languages, countries).Some? && w == LanguageWarning(f, LanguageIssue(f, languages, countries).value))
  {
    if "texts" !in fs.dirs && "texts" !in fs.files {
      return Ok([]);
    }
    if "texts" !in fs.dirs {
      return Err(NotADirectory);
    }
    var files := LangFiles(fs, fs.dirs["texts"]);
    ghost var c := LanguageCheck(languages, countries);
    var warnings := [];
    for i := 0 to |files|
      invariant Collect(c, files[..i]) == Ok(warnings)
    {
      var file := files[i];
      CollectStep(c, files, i, warnings);
      var split := Split(Split(file, '.')[0], '_');
      if |split| != 2 {
        warnings := warnings + [LanguageWarning(file, NotLanguageFile)];
        continue;
      }
      var language := split[0];
      var country := split[1];
      if language !in languages {
        warnings := warnings + [LanguageWarning(file, UnknownLanguage(language))];
        continue;
      }
      if country !in countries {
        warnings := warnings + [LanguageWarning(file, UnknownCountry(country))];
        continue;
      }
    }
    assert files[..|files|] == files;
    r := Ok(warnings);
    CollectIff(c, files);
  }
}
