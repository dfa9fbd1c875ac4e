# A verified model of whisk, sanity_check and the validator post-processing

This project models, in Dafny, the core of three tools for Minecraft Bedrock
add-on projects, and proves properties of the model.

- **whisk**, the module vendoring tool. Its locator resolver (`makeGitURL`)
  turns a short `owner/name[/sub]` reference or an http(s) URL into a clone
  URL and an optional in-repository target. Its cache layer holds one working
  copy per module under `.whisk/cache/<md5>`: `clone`, `checkout` (with
  `"HEAD"` resolved through `git ls-remote`), the `fetch` cooldown, and the
  wipe-and-reclone recovery. The orchestrator (`main.js`) loops over the modules
  in order. The composition engine (`whiskIt`) does the following:
  - `filterFiles` has an include phase, then an exclude phase.
  - `copyToSource` syncs files to the project.
  - The behaviour-pack, resource-pack and data roots are read from the
    module's `config.json`.
  - The filter-dependency check compares the module with the project.
  - Each selected file is copied, deep-merged (JSON files) or skipped.
  The settings models (`Settings`, `Module`, `WhiskConfig`) are modelled too.
- **sanity_check**, the pack linter. It has the following parts:
  - The position-tracking JSON parser (`verbose_json.py`): a string reader,
    a tree of contexts with spans that `set_text` moves, and the
    recursive-descent parser.
  - The property listener, which reports integral float ranges and defaults
    with a `.0` fix.
  - Its utilities: the Levenshtein matrix, `find_closest` and the extension
    walk.
  - Its rules: BOM detection and removal, folder and file misspellings,
    language-file names, missing translations, and fixing property types, with
    each fix applied to the text the previous fix returned.
- **the validator post-processing** (`validate/main.js`):
  - settings over their defaults;
  - log overrides that rewrite matching info items in place;
  - grouping the error items by summary message, in first-occurrence order;
  - the exit code.

Pure code is modelled as functions with lemmas. The code that the source runs
step by step is modelled as methods with loop invariants, proved against those
functions. That code is:

- the string reader;
- the context tree;
- the listener;
- the parser functions;
- the Levenshtein matrix (a two-dimensional `array`);
- the rule loops;
- the deep merge (`mergeDeep`);
- the pattern loops;
- the project tree written by `whiskIt`;
- the git runner of `main.js`;
- the override loop over `InfoItems`.

JavaScript values are a tagged variant: `undefined`, `null`, booleans,
numbers, strings, arrays and key-ordered objects. Truthiness, `??` and
`Object.assign` are written out.

Behaviour of the code worth knowing:

- The settings field is `fetchDelay`. `main.js` calls `fetch(dir)` with no
  cooldown, so the cooldown comparison is made with `NaN` and never skips.
- The cache layer has no dirty check, `status` or `pull`. Recovery happens on
  any failure of fetch-then-checkout.
- `"HEAD"` becomes a hash taken from the output of `git ls-remote`, not a
  branch name. `main.js` passes no URL to `checkout`.
- A URL locator is accepted when its pathname splits into 3 or 4 parts, which
  means 2 or 3 segments.
- `copyToSource` files are written before the filter check runs. A missing
  filter therefore stops only the classified copy.
- The members that compose several steps (`whiskIt`, the runner of `main.js`,
  and the language, translation and property rules of `sanity_check`) run the
  corrected definitions of the rows under "## Findings". "## Left out" names
  each of them.
- An existing JSON target is merged and rewritten on every run. The merge is
  idempotent (`WhiskJson.MergedTwice`), so the written value is unchanged.

## Model

| member | source | states |
|---|---|---|
| WhiskGit.ParseAuthority | whisk/git.js:23 | `new url.URL` on an http(s) URL: the slashes after the scheme are skipped; the host runs up to the first `/`, `\`, `?` or `#` and may not be empty (the parse fails exactly when only slashes come before the end, a `?` or a `#`); the pathname starts with `/`; the query and fragment are kept apart from the pathname |
| WhiskGit.ParsedHost | whisk/git.js:23 | the parsed host is lower-case and holds none of `/`, `\`, `?`, `#` |
| WhiskGit.AuthorityParts | whisk/git.js:23 | any run of slashes, a plain host, a path of plain segments and a `?`/`#` tail parse into the lower-cased host, that path and that tail |
| WhiskGit.PlainPathname | whisk/git.js:23 | a path of segments that are neither `.` nor `..` and hold no `\`, `?`, `#` or `%` is its own pathname |
| WhiskGit.WalkKeep | whisk/git.js:23 | a segment that is not a dot segment (`.`, `..` or a percent-encoded spelling of them) is appended to the path |
| WhiskGit.WalkUp | whisk/git.js:23 | a `..` segment with more segments after it removes the last segment of the path |
| WhiskGit.DoubleDotDropsParent | whisk/git.js:23 | the pathname of `/a/x/../b` is `/a/b` |
| WhiskGit.UrlIsNotShortForm | whisk/git.js:7 | a string `scheme//…` never matches `GitHubPathPattern` |
| WhiskGit.ResolveFullUrl | whisk/git.js:13-21 | `https://` and `http://` strings leave the short-form stage unchanged |
| WhiskGit.ShortFormIgnoresSlashes | whisk/git.js:13-30 | `owner/name` of plain segments (printable, none of `/ \ ? # %` and the other characters a path escapes, not `.` or `..`), with or without one leading and/or trailing slash, locates to `https://github.com/owner/name` with no sub-directory |
| WhiskGit.ShortFormWithSubdir | whisk/git.js:13-32 | `owner/name/sub` of plain segments locates to the repository URL with `sub` as the in-repository target |
| WhiskGit.ShortFormFragment | whisk/git.js:13-32 | in `owner/name/sub#frag` the fragment is not part of the pathname: the target is `sub` and the locator URL keeps `#frag` after the repository path |
| WhiskGit.ShortFormFragmentInOwner | whisk/git.js:13-27 | `owner#frag/name` has a one-segment pathname, so it gives `null` |
| WhiskGit.LocateTwo | whisk/git.js:24-30 | a parsed URL whose pathname is `/owner/name` (two non-empty slash-free segments) gives the input string verbatim with a `null` target |
| WhiskGit.LocateThree | whisk/git.js:24-32 | a parsed URL whose pathname is `/owner/name/sub` gives that URL printed again with the pathname `dirname(normalize(…))`, which is `/owner/name` (or `/owner` when `sub` is empty), keeping scheme, host, query and fragment, and `sub` as the target |
| WhiskGit.ParentOfThree | whisk/git.js:31 | `path.dirname(path.normalize(p))` of `/owner/name/sub` is `/owner/name` (or `/owner` when `sub` is empty) |
| WhiskGit.LocateGitHubRepo | whisk/git.js:22-30 | `https://github.com/owner/name` of plain segments locates to itself |
| WhiskGit.LocateGitHubSub | whisk/git.js:22-32 | `https://github.com/owner/name/sub` followed by an optional query or fragment locates to the repository URL followed by that query or fragment, and `sub` |
| WhiskGit.FullHttpsUrlKept | whisk/git.js:22-30 | a full `https://github.com/owner/name` of plain segments is returned unchanged with no target |
| WhiskGit.FullHttpUrlKept | whisk/git.js:22-30 | a full `http://github.com/owner/name` of plain segments is returned unchanged with no target |
| WhiskGit.FullUrlWithTail | whisk/git.js:13-32 | the locator of a full `https://github.com/owner/name/sub` URL with a query or fragment keeps it after the repository URL |
| WhiskGit.FullUrlTrailingSlash | whisk/git.js:24-32 | a full URL ending in `/` has four pathname parts, so it becomes the owner's URL with an empty target |
| WhiskGit.EmptyLocator | whisk/git.js:10-12 | `undefined`, `null` and `""` give `null` |
| WhiskGit.NeitherFormIsNull | whisk/git.js:22-34 | a string that is neither a short form nor an http(s) URL gives `null` |
| WhiskGit.SegmentCountOutOfRange | whisk/git.js:24-27 | a parsed URL whose pathname (query and fragment excluded) splits into fewer than three or more than four parts gives `null` |
| WhiskGit.ExtraSlashSkipsHost | whisk/git.js:22-27 | in `https:///owner/name` the extra slash is skipped, `owner` becomes the host, and the one-segment pathname gives `null` |
| WhiskGit.EmptyHostThrows | whisk/git.js:22-23 | `https://` or `http://` followed only by slashes and then nothing, a `?` or a `#` makes the URL constructor throw |
| WhiskGit.FragmentAfterSubExample | whisk/git.js:13-32 | `owner/name/s#x` gives `https://github.com/owner/name#x` and the target `s` |
| WhiskGit.FragmentInOwnerExample | whisk/git.js:13-27 | `o#x/name` gives `null` |
| WhiskGit.FragmentWithSlashesExample | whisk/git.js:22-32 | `https://github.com/a/b/c#/d/e` has four pathname parts and gives `https://github.com/a/b#/d/e` and the target `c` |
| WhiskGit.ExtraSlashExample | whisk/git.js:22-27 | `https:///owner/name` gives `null` |
| WhiskGit.NoHostExample | whisk/git.js:22-23 | `https:///` throws |
| WhiskGit.TestTable | whisk/tests.js:8-57 | every expected value of the test table, the sub-directory cases included |
| WhiskGit.MtimeAfterFetch | whisk/git.js:66-72 | the directory's mtime is untouched when the fetch is skipped; otherwise `utimesSync` is asked for `Date.now()` read as seconds, `1000 * now` milliseconds |
| WhiskGit.RecentlyFetchedIsSkipped | whisk/git.js:68-71 | a directory touched less than `cooldown` minutes ago is not fetched, and stays skipped |
| WhiskGit.FetchThenRefetchSkipped | whisk/git.js:68-72 | after a real fetch, a second one at the same instant with a positive cooldown is skipped, and the new mtime is not before `now` |
| WhiskGit.MissingCooldownNeverSkips | whisk/git.js:66-72 | with no `cooldown` the comparison is with `NaN`, so the gate never skips and the mtime requested is `1000 * now` |
| WhiskGit.HeadShaAsWritten | whisk/git.js:86-93 | the expression reads the second output line; it fails exactly when the output has fewer than two lines, with the message `Failed to get HEAD SHA for <url>` |
| WhiskGit.HeadSha | whisk/git.js:88 | the hash read from the first line holds no tab and no newline |
| WhiskGit.HeadShaReadsWrongLine | whisk/git.js:88 | on the one-line output `sha<TAB>HEAD<LF>` the code as written yields `""`, the corrected reading yields `sha` |
| WhiskGit.CloneGuard | whisk/git.js:37-40 | `clone` goes on exactly when the repository is a non-empty string, and uses it unchanged |
| WhiskGit.CachedRepoDir | whisk/git.js:103-106 | the cache directory is `<ROOT_DIR>/.whisk/cache/<md5 hex>`; `undefined` throws |
| WhiskGit.CacheDirDeterministic | whisk/git.js:103-106 | two names share a cache directory exactly when their hashes agree |
| WhiskModels.SettingsFrom | whisk/models.js:11-17 | `new Settings(json)` throws exactly for `null` |
| WhiskModels.SettingsDefaults | whisk/models.js:13-15 | each field takes its default exactly when missing or `null`, and is kept otherwise |
| WhiskModels.FalsySettingsKept | whisk/models.js:13-15 | `false` and `0` are kept: `??` is not `\|\|` |
| WhiskModels.ScalarSettingsAreDefaults | whisk/models.js:12-16 | a number as the settings JSON gives every default |
| WhiskModels.SettingsRoundTrip | whisk/models.js:11-17 | reading back the JSON form of settings with no `null` fields gives the same settings |
| WhiskModels.WhiskConfigAsWritten | whisk/models.js:19-24 | the constructor as written throws only for `null` and sets no `copyToSource` |
| WhiskModels.CopyToSourceAlwaysThrows | whisk/whisk.js:147 | with that constructor `Object.keys(whiskConfig.copyToSource)` throws for every configuration |
| WhiskModels.WhiskConfigFrom | whisk/models.js:19-24 | the corrected constructor also reads `copyToSource`, defaulting it to `{}`, never `null` |
| WhiskModels.CopyToSourceDefaulted | whisk/whisk.js:144-147 | with the default, `Object.keys(copyToSource)` succeeds and `include`/`exclude` are those of the constructor as written |
| WhiskModels.EmptyWhiskConfig | whisk/whisk.js:143-145 | the configuration of a module with no `whisk.json` includes `**/*`, excludes nothing and copies nothing directly |
| WhiskModels.ModuleConstruct | whisk/models.js:2-8 | the constructor body succeeds exactly when the value its name check reads is truthy and `json` is not `null`; the version is never `null` |
| WhiskModels.ModuleAlwaysThrows | whisk/models.js:3-5 | as written the check reads `this.name` before it is set, so every module, a named one included, throws |
| WhiskModels.ModuleFrom | whisk/models.js:1-9 | the corrected constructor only builds modules with a truthy name |
| WhiskModels.ModuleAccepted | whisk/models.js:3-7 | a module object is accepted exactly when its name is truthy; the version defaults to `"HEAD"` |
| WhiskJson.IsObjectMeansTruthyNonArray | whisk/whisk.js:87-89 | `isObject` holds exactly for truthy objects that are not arrays |
| WhiskJson.ObjectKeys | whisk/whisk.js:147 | `Object.keys` throws exactly on `undefined` and `null`, and otherwise lists the own keys |
| WhiskJson.ArrayIndex | whisk/whisk.js:147 | a key is an array index only below 2^32 - 1 |
| WhiskJson.IndexKeyCanonical | whisk/whisk.js:147 | an array-index key is the canonical decimal form of its index (no leading zero) |
| WhiskJson.DecimalIsIndex | whisk/whisk.js:147 | the decimal form of every index below 2^32 - 1 is an array-index key naming it |
| WhiskJson.SortByRankSorted | whisk/whisk.js:147 | the index keys are put in ascending numeric order, none lost and none added |
| WhiskJson.ObjectKeysOrder | whisk/whisk.js:147 | `Object.keys` of an object lists each property key once; index keys come first in ascending order, and the other keys follow in insertion order |
| WhiskJson.ObjectKeysMembers | whisk/whisk.js:147-149 | a key is listed by `Object.keys` exactly when the object has it, and exactly when reading it gives a value |
| WhiskJson.IndexedKeys | whisk/whisk.js:147-149 | `Object.keys` of an array or a string is `"0"` to `"n-1"`, and each key reads the element or character at that index |
| WhiskJson.ObjectKeysExample | whisk/whisk.js:228-229 | keys `b, 10, 2, 01` are listed `2, 10, b, 01`: `01` is not an index |
| WhiskJson.ArrayKeysOf | whisk/whisk.js:233 | `Object.keys` of a one-element array is `["0"]`, and `"0"` reads the element |
| WhiskJson.LookupKeys | whisk/whisk.js:103-105 | `target[key]` is `undefined` exactly when no property has that key, and otherwise a value stored under it |
| WhiskJson.SetShape | whisk/whisk.js:107 | `Object.assign` of one key keeps an existing property's position and appends a new one |
| WhiskJson.LookupSet | whisk/whisk.js:104-107 | after the assignment the key reads the new value and every other key reads as before |
| WhiskJson.SetSame | whisk/whisk.js:107 | assigning a key the value it already has changes nothing |
| WhiskJson.Coalesce | whisk/models.js:13-15 | `v ?? d` replaces only `undefined` and `null` |
| WhiskJson.MergeDeep | whisk/whisk.js:97-113 | the in-place merge loop computes the merged object |
| WhiskJson.NonObjectsLeaveTarget | whisk/whisk.js:101 | when either side is not a plain object the target is returned unchanged |
| WhiskJson.MergeFoldLookup | whisk/whisk.js:102-109 | after the first `n` source keys, a key among them holds its merged entry and any other key its old value |
| WhiskJson.MergedLookup | whisk/whisk.js:101-110 | the merged object key by key: a source key takes its merged entry, a target-only key keeps its value |
| WhiskJson.NonObjectOverwrites | whisk/whisk.js:106-108 | a source value that is not a plain object replaces the target's value |
| WhiskJson.ObjectMergesRecursively | whisk/whisk.js:103-105 | an object source value is merged into the target's value, or into a fresh `{}` when that is falsy or missing |
| WhiskJson.TargetOnlyKeysKept | whisk/whisk.js:102-109 | a key the source lacks keeps the target's value |
| WhiskJson.TruthyScalarSurvives | whisk/whisk.js:104-105 | a truthy scalar under an object source value is left as it is |
| WhiskJson.MergedEntryTwice | whisk/whisk.js:103-107 | merging a source entry a second time gives the same entry |
| WhiskJson.MergedTwice | whisk/whisk.js:97-113 | merging the same source over its own result changes nothing (idempotence) |
| WhiskJson.SecondFoldUnchanged | whisk/whisk.js:102-109 | each step of the second pass finds the value the first pass wrote and keeps it |
| WhiskPatterns.LineEnd | whisk/whisk.js:314 | `//.*$` with the `m` flag stops at the first line terminator or at the end of the text |
| WhiskPatterns.Step | whisk/whisk.js:313-322 | one match attempt consumes at least one character and emits no more than it consumed |
| WhiskPatterns.StripFrom | whisk/whisk.js:313-323 | the replacement pass never lengthens the text |
| WhiskPatterns.StripCommentsNoMarkers | whisk/whisk.js:309-324 | text without comment markers comes back unchanged, whatever quotes it holds |
| WhiskPatterns.LiteralKept | whisk/whisk.js:317-319 | a quoted literal is kept verbatim, comment markers inside it included |
| WhiskPatterns.BlockCommentRemoved | whisk/whisk.js:314-321 | a block comment is removed up to its first star-slash |
| WhiskPatterns.LineCommentRemoved | whisk/whisk.js:314-321 | a line comment is removed up to, not including, the end of its line |
| WhiskPatterns.StripShift | whisk/whisk.js:313 | the global replacement restarted after an emitted prefix gives the same output (matching is position-independent) |
| WhiskPatterns.WildcardIndex | whisk/whisk.js:328 | `search(/[*?]/)` is the index of the first wildcard, or -1 when there is none |
| WhiskPatterns.GetBaseFromPattern | whisk/whisk.js:326-340 | the base is a prefix of the pattern ending in `/` (or empty), with no `/` between it and the first wildcard |
| WhiskPatterns.BaseIsLongestSlashPrefix | whisk/whisk.js:326-340 | the base is the only such prefix: the longest one ending in `/` before any wildcard |
| WhiskPatterns.MakeRelative | whisk/whisk.js:342-346 | the base is removed exactly when the path starts with it, otherwise the path is returned unchanged |
| WhiskPatterns.MakeRelativeOfBase | whisk/whisk.js:342-346 | removing the base from `base + rel` gives back `rel` |
| WhiskPatterns.BaseOfGlob | whisk/whisk.js:336-338 | the base of `ui/*.json` is `ui/` |
| WhiskPatterns.BaseOfTopLevelGlob | whisk/whisk.js:336-338 | the base of `*.json` is empty |
| WhiskFilter.Add | whisk/whisk.js:23 | `Set.add` adds the element and keeps the listing free of duplicates |
| WhiskFilter.Remove | whisk/whisk.js:21 | `Set.delete` removes the element and keeps the others |
| WhiskFilter.Apply | whisk/whisk.js:19-25 | one pattern's matches are added to the set, or deleted from it when excluding |
| WhiskFilter.ProcessPattern | whisk/whisk.js:12-29 | the loop over one glob's matches computes `Apply` |
| WhiskFilter.ProcessPatterns | whisk/whisk.js:31-53 | the loop over the patterns computes the phase; an empty list is done at once, the first glob error ends it |
| WhiskFilter.PhaseErrSticks | whisk/whisk.js:40-44 | once a glob has failed, later patterns do not change the outcome |
| WhiskFilter.FilterFiles | whisk/whisk.js:9-70 | include phase, then exclude phase, then the set as an array |
| WhiskFilter.PhaseOk | whisk/whisk.js:31-53 | with every glob succeeding, a phase adds (or removes) exactly the files its patterns match, without duplicates |
| WhiskFilter.FilteredMembers | whisk/whisk.js:55-69 | with every glob succeeding, each file is listed once, and exactly when some include pattern matches it and no exclude pattern does |
| WhiskFilter.PhaseErr | whisk/whisk.js:40-44 | a phase fails exactly when the glob of one of its patterns fails |
| WhiskFilter.FilteredErr | whisk/whisk.js:55-66 | the callback gets an error exactly when the glob of an include or an exclude pattern fails |
| WhiskFilter.ExcludesNeverAdd | whisk/whisk.js:61-67 | every file in the result was gathered by the include phase |
| WhiskFilter.SinglePattern | whisk/whisk.js:55-69 | one include pattern and no exclude gives its matches once each, in order of first match |
| WhiskCompose.ExtName | whisk/whisk.js:286 | `path.extname` is empty or a `.`-led suffix of the path with no further `.` or `/` |
| WhiskCompose.ExtNameOfSuffix | whisk/whisk.js:286 | a name ending in an extension after another character of its last segment has that extension |
| WhiskCompose.JsonExtensionMerges | whisk/whisk.js:7 | every name ending in `.json`, `.material`, `.templ` or `.modl` after another character has that listed extension |
| WhiskCompose.IsPathWithin | whisk/whisk.js:72-79 | true exactly when some parent is a string prefix of the child |
| WhiskCompose.PackRootsFrom | whisk/whisk.js:193-210 | the three roots are the chosen settings (or defaults) joined to the module directory and normalised; reading them throws exactly when the configuration is `null` or a setting's container throws |
| WhiskCompose.DefaultRoots | whisk/whisk.js:194-196 | with neither `packs` nor `regolith` the roots are `./packs/BP`, `./packs/RP` and `./packs/data` under the module |
| WhiskCompose.SettingReplacesDefault | whisk/whisk.js:197-207 | a falsy setting such as `""` keeps the default; a truthy string replaces it |
| WhiskCompose.Classify | whisk/whisk.js:268-280 | a file is placed exactly when `isPathWithin` holds for some root, and its root is a prefix of its path |
| WhiskCompose.ClassifyFirstHit | whisk/whisk.js:274-280 | `BP` wins over `RP`, which wins over `data`, each exactly when the earlier roots are not prefixes |
| WhiskCompose.TargetPath | whisk/whisk.js:272-280 | a target path exists exactly for classified files |
| WhiskCompose.TargetDropsRoot | whisk/whisk.js:275-279 | `replace(root, "")` removes exactly the root prefix: the target is the tree name joined to the rest |
| WhiskCompose.PrefixNotDirectory | whisk/whisk.js:268-275 | a sibling `<bp>2/…` counts as inside `<bp>` and lands in `BP` as `2/…` |
| WhiskCompose.AnyRefers | whisk/whisk.js:236-238 | `some(f => f.filter === filter)` is true only when an entry names the filter, and false exactly when none does (a `null` entry throws) |
| WhiskCompose.SomeProfileRefers | whisk/whisk.js:233-239 | true only when some listed profile has truthy `filters` one of which names the filter; false exactly when every listed profile exists, is not `null`, and its truthy `filters` names no such filter |
| WhiskCompose.ArrayProfilesExample | whisk/whisk.js:231-239 | a project whose `profiles` is an array is walked by its indices, and its one profile that references the filter makes the project use it |
| WhiskCompose.Collect | whisk/whisk.js:228-243 | the `push` loop computes the collected keys |
| WhiskCompose.CollectedStops | whisk/whisk.js:228-243 | once the condition throws on a key, later keys change nothing |
| WhiskCompose.CollectedMembers | whisk/whisk.js:245-256 | a key is collected exactly when it is listed and its condition holds |
| WhiskCompose.CollectedOk | whisk/whisk.js:245-256 | a completed loop evaluated the condition without error on every key |
| WhiskCompose.FilterGate | whisk/whisk.js:216-221 | the check runs only with truthy `filterDefinitions` and truthy default-profile `filters` |
| WhiskCompose.MissingMeans | whisk/whisk.js:227-256 | a filter is reported missing exactly when `Object.keys` of the module's `filterDefinitions` lists it, it has a truthy `url`, the module's default profile uses it and the project does not; the project uses a filter exactly when it has a truthy `url` and some project profile uses it |
| WhiskCompose.UngatedPasses | whisk/whisk.js:212-221 | a module whose gate stays shut, or a project without `config.json`, is not checked |
| WhiskCompose.MissingMessageExample | whisk/whisk.js:258 | the error names the missing filters separated by `", "` |
| WhiskCompose.ReadTarget | whisk/whisk.js:167-169 | reading a destination path succeeds exactly when it is a file |
| WhiskCompose.ReadModule | whisk/whisk.js:170-172 | reading a module path succeeds exactly when it is a file of the module |
| WhiskCompose.SyncAbsentCopies | whisk/whisk.js:177-180 | an absent target receives the source as it is, and its directory is created |
| WhiskCompose.SyncSameContentsKept | whisk/whisk.js:166-176 | an existing target equal up to `\r\n` is left as it is |
| WhiskCompose.SyncDifferentRewritten | whisk/whisk.js:173-176 | an existing target with other contents is replaced by the normalised source; nothing else changes |
| WhiskCompose.SyncTwice | whisk/whisk.js:161-181 | synchronising the same file twice leaves what the first time left |
| WhiskCompose.PlaceWritesOnly | whisk/whisk.js:284-302 | placing a file writes no path other than its target |
| WhiskCompose.PlaceSkipsOthers | whisk/whisk.js:297-299 | an existing target without a JSON extension keeps its contents |
| WhiskCompose.PlaceMergesJson | whisk/whisk.js:285-296 | an existing JSON target becomes the serialised deep merge of the target's value with the source's |
| WhiskCompose.PlaceCopiesAbsent | whisk/whisk.js:300-302 | an absent target, whatever its extension, is a verbatim copy |
| WhiskCompose.FoldLeavesOthers | whisk/whisk.js:263-304 | a path no file of the loop targets keeps its contents or its absence |
| WhiskCompose.FoldStops | whisk/whisk.js:263-304 | after an exception the remaining files are not processed |
| WhiskTree.LoadWhiskConfig | whisk/whisk.js:139-145 | with the corrected `WhiskConfig` of the Findings row on whisk/models.js:19-24, the module's `whisk.json` (or `{}` without one) always yields a non-`null` `copyToSource` |
| WhiskTree.PatternList | whisk/whisk.js:184 | an include or exclude setting reaches `glob` as its list of strings, exactly when it is an array of strings |
| WhiskTree.NoConfigNoCopy | whisk/whisk.js:189 | without `config.json` among the selected files nothing is classified or copied |
| WhiskTree.MissingFilterWritesNothing | whisk/whisk.js:257-259 | a missing filter throws before any classified file is written |
| WhiskTree.ClassifiedLeavesOthers | whisk/whisk.js:263-304 | the classified copy touches no path other than the targets of its files |
| WhiskTree.DirectoriesSkipped | whisk/whisk.js:264-266 | a directory among the matches is skipped without effect |
| WhiskTree.OutsideRootsSkipped | whisk/whisk.js:267-268 | a file outside all three roots is not copied |
| WhiskTree.NoWhiskJson | whisk/whisk.js:143-145 | with the corrected `WhiskConfig`, a module without `whisk.json` includes every file (`**/*`), excludes none and copies nothing to the source |
| WhiskTree.EmptyCopyToSource | whisk/whisk.js:147-148 | an empty `copyToSource` changes nothing |
| WhiskTree.ArrayCopyToSource | whisk/whisk.js:147-149 | an array `copyToSource` is walked by its indices: a one-element array globs the pattern `"0"` with the element as destination |
| WhiskTree.ProjectTree.constructor | whisk/whisk.js:136 | the tree starts as the given file system |
| WhiskTree.ProjectTree.Sync | whisk/whisk.js:166-180 | the new state and error are those of the synchronisation step (copy, rewrite or keep) |
| WhiskTree.ProjectTree.Place | whisk/whisk.js:284-302 | the new state and error are those of the placement step (mkdir, then copy, merge or skip) |
| WhiskTree.ProjectTree.Merge | whisk/whisk.js:286-296 | the new state and error are those of merging an existing JSON target with its source |
| WhiskTree.ProjectTree.SyncPatternFiles | whisk/whisk.js:161-181 | the matches of one pattern, each synchronised to `ROOT/destination/relative` in order |
| WhiskTree.ProjectTree.SyncOnePattern | whisk/whisk.js:149-182 | one key of `copyToSource`: its matches, then each of them synchronised |
| WhiskTree.ProjectTree.CopyToSourcePatterns | whisk/whisk.js:147-183 | the loop over `Object.keys(copyToSource)`, in its order and for arrays and strings by their indices, computes the specified state |
| WhiskTree.ProjectTree.CopyClassified | whisk/whisk.js:263-304 | the copy loop computes the fold of the per-file classification over the selected files |
| WhiskTree.ProjectTree.ComposeNet | whisk/whisk.js:185-305 | the callback of the main `filterFiles`: config gate, roots, filter check, copy loop |
| WhiskTree.ProjectTree.WhiskIt | whisk/whisk.js:136-307 | `whiskIt` as a whole, with the corrected `WhiskConfig`, computes the specified new project tree and the exception it raises |
| WhiskTree.CheckFiltersRun | whisk/whisk.js:212-261 | the filter-dependency check, with its two `push` loops run as loops over `Object.keys` of the two `filterDefinitions`, computes the specified result |
| WhiskMain.CloneSpec | whisk/git.js:37-50 | `clone` runs only `git clone`; the directory exists afterwards exactly when the URL is non-empty and the command succeeds, and nothing changes on failure |
| WhiskMain.CheckoutTo | whisk/git.js:56-63 | `git checkout <ref>` runs in `dir` and fails exactly when the command fails |
| WhiskMain.CheckoutSpec | whisk/git.js:52-64 | `checkout` changes no file and runs only commands |
| WhiskMain.FetchSpec | whisk/git.js:66-81 | called with no cooldown, `fetch` always logs and runs `git fetch` and raises exactly when the command fails |
| WhiskMain.RemoveSpec | whisk/main.js:39 | `rmSync(dir, {recursive: true})` removes `dir` and keeps every file outside it |
| WhiskMain.Refresh | whisk/main.js:34-35 | fetch then checkout of an existing cache directory changes no file and runs only commands |
| WhiskMain.Fresh | whisk/main.js:30-31 | clone then checkout: on success the directory exists; a failed clone is the outcome as it is |
| WhiskMain.ModuleList | whisk/main.js:21 | `for … of` iterates an array's items or a string's characters and throws a `TypeError` on anything else |
| WhiskMain.RunAllAppend | whisk/main.js:21-52 | running `a` then `b` is running `a + b`; an exception in `a` means `b` never starts |
| WhiskMain.RunAllSticks | whisk/main.js:21-52 | once a prefix of the modules has thrown, the rest change nothing |
| WhiskMain.StopsAtFirstError | whisk/main.js:21-52 | after a module throws, the later modules do nothing |
| WhiskMain.ModulesInOrder | whisk/main.js:21-52 | everything the earlier modules did, `whiskIt` included, is logged before anything of the later ones |
| WhiskMain.InvalidRepoSkipped | whisk/main.js:23-27 | a module whose name gives no locator is logged as skipped, and nothing else happens |
| WhiskMain.SkippedContinues | whisk/main.js:24-27 | after a skipped module the loop goes on with the next one |
| WhiskMain.PlainNameSkipped | whisk/main.js:23-27 | the name `repo` (neither form) is skipped |
| WhiskMain.NamelessModuleThrows | whisk/main.js:22 | a module without a string name throws in `getCachedRepoDir` before anything happens |
| WhiskMain.AbsentDirClones | whisk/main.js:29-31 | a missing cache directory is cloned first, and checked out after a successful clone; nothing is removed |
| WhiskMain.PresentDirFetches | whisk/main.js:32-35 | an existing cache directory is fetched first, and checked out after a successful fetch |
| WhiskMain.RecoveryOnce | whisk/main.js:33-42 | the directory is removed and re-cloned exactly when fetch-and-checkout fails, once, with the second attempt unprotected |
| WhiskMain.FetchErrorSwallowed | whisk/main.js:33-42 | the error `fetch` raises (a `ReferenceError`, since its message names an undefined `version`) never escapes the preparation |
| WhiskMain.PreparedDirExists | whisk/main.js:29-43 | a successful preparation leaves the cache directory in place |
| WhiskMain.HeadCheckoutQueriesUndefined | whisk/main.js:31 | `checkout` receives no URL, so a `"HEAD"` version runs `git ls-remote undefined HEAD` |
| WhiskMain.HeadOneLineChecksOutHash | whisk/git.js:52-59 | with the corrected reading of the Findings row on `getHeadSHA`, the `"HEAD"` checkout on the answer `sha<TAB>HEAD<LF>` runs `git checkout sha` |
| WhiskMain.ModuleLocates | whisk/main.js:22-28 | a named module with a locator goes on to the checkout in the cache directory of its raw name |
| WhiskMain.CloneUsesRawName | whisk/main.js:22-30 | the clone of a fresh module goes to `<root>/.whisk/cache/<md5(name)>` whatever URL the name resolves to |
| WhiskMain.MissingTargetThrows | whisk/main.js:44-47 | a target sub-directory the checkout lacks throws, after the checkout and before `whiskIt` |
| WhiskMain.WhiskedWhere | whisk/main.js:44-51 | after a good checkout, `whiskIt` runs on `dir/target`, or on `dir` with no target, as the module's last event |
| WhiskMain.CacheDirCreated | whisk/main.js:15-18 | the cache directory exists afterwards; a `.gitignore` holding `cache` is written only when it was missing; doing it twice is doing it once |
| WhiskMain.ExitStatus | whisk/main.js:9-60 | the exit status is 1 exactly when parsing the arguments, building the settings, iterating the module list or a module threw |
| WhiskMain.ReportedInDebug | whisk/main.js:11 | debug mode, and so the whole error rather than its message, is on exactly when `settings.debug \| DEBUG` is non-zero as 32-bit integers |
| WhiskMain.DebugExamples | whisk/main.js:11 | `debug: true` turns debug mode on; `0.5` and `4294967296` do not, being 0 after `ToInt32` |
| WhiskMain.WrapExamples | whisk/main.js:11 | `ToInt32` truncates `0.5` to 0 and wraps `2^32` to 0 |
| WhiskMain.Runner.constructor | whisk/main.js:9-11 | the run starts on the given tree with no events |
| WhiskMain.Runner.Exec | whisk/git.js:44 | the `execSync` stand-in logs the command and returns its recorded outcome |
| WhiskMain.Runner.Clone | whisk/git.js:37-50 | the new state and error are those of `clone` |
| WhiskMain.Runner.Checkout | whisk/git.js:52-64 | the new state and error are those of `checkout`, `"HEAD"` resolved first with the corrected reading of `git ls-remote` |
| WhiskMain.Runner.Fetch | whisk/git.js:66-81 | the new state and error are those of `fetch` |
| WhiskMain.Runner.Remove | whisk/main.js:39 | the new state is that of the recursive removal |
| WhiskMain.Runner.CloneAndCheckout | whisk/main.js:30-31 | clone, then checkout only when the clone worked; `"HEAD"` is resolved with the corrected reading of `git ls-remote` |
| WhiskMain.Runner.Prepare | whisk/main.js:29-43 | the new state and error are those of the cache preparation, recovery included, with the corrected reading of `git ls-remote` |
| WhiskMain.Runner.Whisk | whisk/main.js:48-50 | the new state is the project after `whiskIt`, with the corrected `WhiskConfig`, on the checkout |
| WhiskMain.Runner.ProcessModule | whisk/main.js:22-51 | the new state and error are those of one module's iteration, with the corrected `WhiskConfig` and `git ls-remote` reading |
| WhiskMain.Runner.RunModules | whisk/main.js:21-52 | the loop computes the modules in order up to the first exception, with the corrected `WhiskConfig` and `git ls-remote` reading |
| WhiskMain.Runner.EnsureCache | whisk/main.js:15-18 | the new project tree is the one with the cache directory ensured |
| WhiskMain.Runner.Run | whisk/main.js:1-60 | the whole script computes the specified final world and exit of the program with the corrected `WhiskConfig` and `git ls-remote` reading |
| VerboseTree.Norm | sanity_check/verbose_json.py:34 | Python's slice bound: negative indices count from the end and the result is clamped to the length |
| VerboseTree.Root | sanity_check/verbose_json.py:155-156 | the root context is a one-context valid tree |
| VerboseTree.MakeChild | sanity_check/verbose_json.py:25-28 | a child adds exactly one context, keeping the tree valid (parents precede children) |
| VerboseTree.UpdateLength | sanity_check/verbose_json.py:30-31 | `update_length` changes only the length of one context |
| VerboseTree.UpdateThenGet | sanity_check/verbose_json.py:30-34 | after `update_length(pos)` the context's text is what lies between its start and `pos` |
| VerboseTree.ChainOfEarlier | sanity_check/verbose_json.py:25-28 | making a child leaves the parent chain of every earlier context unchanged |
| VerboseTree.PathOfChild | sanity_check/verbose_json.py:12-23 | a new child's path is its parent's path, extended by `/v` when it carries a field name `v` |
| VerboseTree.PathOfEarlier | sanity_check/verbose_json.py:12-28 | making a child does not change the path of any existing context |
| VerboseTree.SetText | sanity_check/verbose_json.py:36-51 | `set_text` keeps the tree's shape, parents and values |
| VerboseTree.SetTextSelf | sanity_check/verbose_json.py:36-39 | after `set_text` the context's own text is the new value, and the text's length changes by the difference |
| VerboseTree.SetTextKeepsDisjoint | sanity_check/verbose_json.py:41-50 | a context whose span does not overlap the changed one keeps its text, moved if it started after it |
| VerboseTree.SpliceText | sanity_check/verbose_json.py:37 | the new text is the prefix, the value, then the suffix after the old span |
| VerboseTree.SetTextKeepsApart | sanity_check/verbose_json.py:41-50 | two spans that avoid the changed one and each other still avoid each other |
| VerboseTree.SetTextStaysApart | sanity_check/verbose_json.py:36-50 | with a non-empty value the changed context still avoids every span it avoided |
| VerboseTree.ApplyFix | sanity_check/verbose_json.py:372-374 | a fix keeps the tree valid and its size |
| VerboseTree.ApplyFixStep | sanity_check/verbose_json.py:372-374 | a fix appends its suffix to its own context's text and leaves every other tracked context's text unchanged |
| VerboseTree.FixesThreaded | sanity_check/sanity_check.py:157-162 | with fixed contexts disjoint and each fixed once, the final text gives every fixed context its original text followed by its suffix, and every other tracked context its original text |
| VerboseTree.UnescapePlain | sanity_check/verbose_json.py:351-352 | a quoted text without backslashes unescapes to what lies between the quotes |
| VerboseTree.UnescapeExamples | sanity_check/verbose_json.py:351-352 | `"\""` gives `"`, `"\\"` gives `\`, and a lone quote gives `""` |
| VerboseParse.OnEntityProperty | sanity_check/verbose_json.py:364-394 | every fix the property check records targets an existing context |
| VerboseParse.RangeIssues | sanity_check/verbose_json.py:366-385 | the range checks record only fixes targeting existing contexts |
| VerboseParse.ExitObject | sanity_check/verbose_json.py:401-415 | `exitObject` keeps the listener's contexts within the tree |
| VerboseParse.WsEnd | sanity_check/verbose_json.py:161-162 | blanks are skipped up to the end or to the first non-blank |
| VerboseParse.WsEndBlanks | sanity_check/verbose_json.py:161-162 | every character skipped is one of space, tab, LF, CR |
| VerboseParse.NumEnd | sanity_check/verbose_json.py:316 | the number run stops at the end or at a character that cannot occur in a number |
| VerboseParse.NumEndChars | sanity_check/verbose_json.py:316 | every character of the run is one of `0123456789-+eE.` |
| VerboseParse.StringScan | sanity_check/verbose_json.py:232-241 | a found closing quote ends the scan just past it; otherwise the reader has run off the end |
| VerboseParse.ParseValue | sanity_check/verbose_json.py:165-178 | parsing keeps the reader within the text, only grows the tree and keeps the listener consistent |
| VerboseParse.ParseObject | sanity_check/verbose_json.py:181-203 | a completed object ends just past its `}` (as written, possibly on its `}`) |
| VerboseParse.ObjectLoop | sanity_check/verbose_json.py:187-203 | every pass of the field loop keeps that promise |
| VerboseParse.CloseAtBrace | sanity_check/verbose_json.py:189-191 | at a `}` at the head of a pass, as written the reader stays on it; the corrected parser steps over it |
| VerboseParse.AfterField | sanity_check/verbose_json.py:195-202 | after a field, `}` closes the object just past it and `,` continues the loop past it, with nothing else changed |
| VerboseParse.ParseField | sanity_check/verbose_json.py:206-223 | the field's name, `:` and value keep the parse state consistent |
| VerboseParse.FieldValue | sanity_check/verbose_json.py:215-223 | the rest of a field keeps the parse state consistent |
| VerboseParse.ParseFieldName | sanity_check/verbose_json.py:244-259 | a field name that closes advances the reader |
| VerboseParse.ParseString | sanity_check/verbose_json.py:226-241 | a string that closes runs from its opening to its closing quote, and its context's length is that span |
| VerboseParse.ParseArray | sanity_check/verbose_json.py:262-285 | a completed array ends just past its `]` |
| VerboseParse.ArrayLoop | sanity_check/verbose_json.py:268-285 | every pass of the element loop keeps that promise |
| VerboseParse.AfterElement | sanity_check/verbose_json.py:274-284 | after an element, `]` closes the array past it and `,` continues past it |
| VerboseParse.ParseBoolean | sanity_check/verbose_json.py:288-303 | `t` reads four characters and succeeds exactly on `true`; `f` reads five and succeeds exactly on `false` |
| VerboseParse.ParseNull | sanity_check/verbose_json.py:306-312 | four characters are read; it succeeds exactly on `null` |
| VerboseParse.Literal | sanity_check/verbose_json.py:290-312 | `read(n)` advances by `n` either way and succeeds exactly when the word is there |
| VerboseParse.ParseNumber | sanity_check/verbose_json.py:315-322 | the reader moves to the end of the number run, and an empty run raises |
| VerboseParse.ParseJson | sanity_check/verbose_json.py:154-158 | the parse leaves a valid tree with the root and a consistent listener |
| VerboseProps.EmptyObject | sanity_check/verbose_json.py:186-191 | `{}` sets its length and calls `exitObject`; as written the reader stays on the `}`, the corrected parser steps over it |
| VerboseProps.EmptyObjectQuiet | sanity_check/verbose_json.py:186-191 | an empty object at a path the listener ignores completes without a stop |
| VerboseProps.PropertiesObjectStops | sanity_check/verbose_json.py:401-403 | closing the properties object stops the parse with the listener unchanged |
| VerboseProps.TrailingCommaArray | sanity_check/verbose_json.py:268-284 | `,` then blanks then `]` closes an array: a trailing comma is accepted |
| VerboseProps.TrailingCommaObject | sanity_check/verbose_json.py:187-202 | `,` then blanks then `}` closes an object through the head-of-loop branch |
| VerboseProps.MissingComma | sanity_check/verbose_json.py:200-201 | any character other than `,` or the closer after a member raises `Expected ,` where it stands |
| VerboseProps.RunsOut | sanity_check/verbose_json.py:187-203 | input ending after a comma inside an array or object raises `Expected ]` or `Expected }` |
| VerboseProps.EmptyObjectInArray | sanity_check/verbose_json.py:189-191 | `{}]` inside an array: rejected with `Expected ,` as written, both closed by the corrected parser |
| VerboseProps.ElementIsEmptyObject | sanity_check/verbose_json.py:274-277 | the array goes on from the state the empty object leaves |
| VerboseProps.CloseArray | sanity_check/verbose_json.py:277-281 | blanks then `]` after an element close the array just past it |
| VerboseProps.EmptyObjectValue | sanity_check/verbose_json.py:165-168 | an empty object as a value at an ignored path gives no stop and leaves the listener unchanged |
| VerboseProps.TopLevelArray | sanity_check/verbose_json.py:154-170 | a document that is an array starts its element loop one past the `[` |
| VerboseProps.ArrayOfEmptyObject | sanity_check/verbose_json.py:189-191 | the document `[{}]` is rejected with `Expected ,` as written and accepted by the corrected parser |
| VerboseProps.StringSpan | sanity_check/verbose_json.py:231-236 | a string's context spans its quotes and everything between them |
| VerboseProps.NumberSpan | sanity_check/verbose_json.py:315-322 | a number's context spans the longest run of number characters from its start |
| VerboseProps.IntegralFloatProperty | sanity_check/verbose_json.py:364-394 | a float property with integral range ends and default gets three issues in order, each fixed by appending `.0` |
| VerboseProps.FractionalFloatProperty | sanity_check/verbose_json.py:364-394 | a float property with fractional range ends and default gets no issue |
| VerboseProps.StringValues | sanity_check/verbose_json.py:325-348 | a quoted default is accepted, but a quoted range end is reported |
| VerboseProps.PropertyWithoutType | sanity_check/verbose_json.py:365 | closing a property without a recorded type raises on `None.get_text` |
| VerboseProps.PropertyReset | sanity_check/verbose_json.py:404-415 | closing a property resets the fields and keeps the issues found so far |
| VerboseProps.IssuesGrow | sanity_check/verbose_json.py:364-394 | the property check only appends to the issue list |
| VerboseProps.EnterNamesProperty | sanity_check/verbose_json.py:396-399 | inside the properties object, opening an object makes its last path segment the current property |
| VerboseJson.BlankRun | sanity_check/verbose_json.py:161-162 | the reader's blank run ends where the specification's does |
| VerboseJson.NumberRun | sanity_check/verbose_json.py:316 | the reader's number run ends where the specification's does |
| VerboseJson.StringReader.constructor | sanity_check/verbose_json.py:58-60 | the reader starts at 0 on the text |
| VerboseJson.StringReader.Peek | sanity_check/verbose_json.py:62-63 | the character under the reader, or an `IndexError` exactly when it stands at or past the end |
| VerboseJson.StringReader.Read | sanity_check/verbose_json.py:65-67 | `read(n)` advances by `n`, even past the end, and returns the Python slice between |
| VerboseJson.StringReader.Skip | sanity_check/verbose_json.py:69-70 | `skip(n)` advances by `n` |
| VerboseJson.StringReader.ReadWhile | sanity_check/verbose_json.py:72-76 | the longest run of characters satisfying the predicate, and that run's text |
| VerboseJson.StringReader.ReadUntil | sanity_check/verbose_json.py:78-82 | the longest run of characters not satisfying the predicate |
| VerboseJson.StringReader.SkipWhile | sanity_check/verbose_json.py:84-87 | advances over the longest run satisfying the predicate |
| VerboseJson.StringReader.SkipUntil | sanity_check/verbose_json.py:89-92 | advances over the longest run not satisfying the predicate |
| VerboseJson.StringReader.Position | sanity_check/verbose_json.py:94-95 | the current position |
| VerboseJson.StringReader.Available | sanity_check/verbose_json.py:97-98 | the characters left, negative past the end, positive exactly before the end |
| VerboseJson.SkipWhitespace | sanity_check/verbose_json.py:161-162 | the reader moves to the end of the blank run |
| VerboseJson.ChainStep | sanity_check/verbose_json.py:15-18 | one step of `to_path`'s walk to the parent keeps the collected values the reverse of the chain walked |
| VerboseJson.ContextTree.constructor | sanity_check/verbose_json.py:5-10 | the root context at the reader's position, with no parent, value or length |
| VerboseJson.ContextTree.MakeChild | sanity_check/verbose_json.py:25-28 | a new context under `p` with length 0; its id is the number of contexts before it |
| VerboseJson.ContextTree.UpdateLength | sanity_check/verbose_json.py:30-31 | the context now ends at the position given |
| VerboseJson.ContextTree.GetText | sanity_check/verbose_json.py:33-34 | the context's slice of the text |
| VerboseJson.ContextTree.ToPath | sanity_check/verbose_json.py:12-23 | the loop up the parents, the reversal and the join compute the context's path `#/a/b…` of string values |
| VerboseJson.JoinPath | sanity_check/verbose_json.py:19-23 | the join starts from `#` and adds `/v` for every string value, in order |
| VerboseJson.ContextTree.SetText | sanity_check/verbose_json.py:36-51 | the splice and the stack walk over all contexts compute the specified text and moved spans |
| VerboseJson.PropertyListener.constructor | sanity_check/verbose_json.py:356-362 | no current property, range, type or default, and no issues |
| VerboseJson.PropertyListener.OnEntityProperty | sanity_check/verbose_json.py:364-394 | the issue list after the property check, or the exception it raises |
| VerboseJson.PropertyListener.CheckRange | sanity_check/verbose_json.py:368-385 | each range end that is not a float appends an issue |
| VerboseJson.PropertyListener.EnterObject | sanity_check/verbose_json.py:396-399 | never stops; inside the properties object records the current property |
| VerboseJson.PropertyListener.ExitObject | sanity_check/verbose_json.py:401-415 | stops on the properties object; a property object is checked and the fields reset |
| VerboseJson.PropertyListener.ExitString | sanity_check/verbose_json.py:417-430 | a string at the current property's `default` or `type` is remembered |
| VerboseJson.PropertyListener.ExitNumber | sanity_check/verbose_json.py:432-445 | a number at the current property's `range` is appended, one at its `default` remembered |
| VerboseJson.ParseJson | sanity_check/verbose_json.py:154-158 | the imperative parser's result, tree and listener are those of the specification parser |
| VerboseJson.ParseValue | sanity_check/verbose_json.py:165-178 | the dispatch agrees with the specification |
| VerboseJson.ParseObject | sanity_check/verbose_json.py:181-203 | the object parser agrees with the specification |
| VerboseJson.ObjectLoop | sanity_check/verbose_json.py:187-203 | the field loop agrees with the specification |
| VerboseJson.ObjectPass | sanity_check/verbose_json.py:188-202 | one pass either ends the object or reads a field and its `,` and goes on, strictly advancing |
| VerboseJson.ObjectField | sanity_check/verbose_json.py:192-202 | a field in a new child context, then what follows it |
| VerboseJson.CloseAtBrace | sanity_check/verbose_json.py:189-191 | the head-of-pass `}` branch agrees with the specification, as written or corrected |
| VerboseJson.AfterFieldPass | sanity_check/verbose_json.py:195-202 | `}` ends the object, `,` is skipped, anything else raises |
| VerboseJson.CloseAfterField | sanity_check/verbose_json.py:196-199 | the `}` after a field is skipped before the length is set and `exitObject` called |
| VerboseJson.EnterObj | sanity_check/verbose_json.py:184-185 | `enterObject` never stops the parse |
| VerboseJson.ExitObj | sanity_check/verbose_json.py:191 | `exitObject` agrees with the specification |
| VerboseJson.ParseField | sanity_check/verbose_json.py:206-223 | the field parser agrees with the specification |
| VerboseJson.FieldValue | sanity_check/verbose_json.py:212-223 | the rest of a field agrees with the specification |
| VerboseJson.ColonValue | sanity_check/verbose_json.py:218-221 | from the `:` on, the value in a new child context named by the field, then the field's length, agree with the specification |
| VerboseJson.ScanString | sanity_check/verbose_json.py:250-258 | the quoted-run loop ends where the specification's scan ends |
| VerboseJson.ParseFieldName | sanity_check/verbose_json.py:244-259 | the field-name parser agrees with the specification |
| VerboseJson.ParseString | sanity_check/verbose_json.py:226-241 | the string parser agrees with the specification |
| VerboseJson.ParseArray | sanity_check/verbose_json.py:262-285 | the array parser agrees with the specification |
| VerboseJson.ArrayPass | sanity_check/verbose_json.py:269-284 | one pass either ends the array or reads an element and its `,`, strictly advancing |
| VerboseJson.CloseBracket | sanity_check/verbose_json.py:270-273 | the head-of-pass `]` is skipped and the array's length set |
| VerboseJson.ArrayElement | sanity_check/verbose_json.py:274-284 | an element in a new child context, then what follows it |
| VerboseJson.AfterElementPass | sanity_check/verbose_json.py:277-284 | `]` ends the array, `,` is skipped, anything else raises |
| VerboseJson.ParseBoolean | sanity_check/verbose_json.py:288-303 | the boolean parser agrees with the specification |
| VerboseJson.ParseNull | sanity_check/verbose_json.py:306-312 | the null parser agrees with the specification |
| VerboseJson.ReadLiteral | sanity_check/verbose_json.py:290-312 | reading a literal agrees with the specification |
| VerboseJson.ParseNumber | sanity_check/verbose_json.py:315-322 | the number parser agrees with the specification |
| SanityUtils.CanFixIff | sanity_check/utils.py:9-10 | an issue can be fixed exactly when it carries a fix |
| SanityUtils.Min3 | sanity_check/utils.py:40-44 | `min` of three is one of them and no larger than any |
| SanityUtils.LevStep | sanity_check/utils.py:33-44 | the distance of two prefixes satisfies the deletion/insertion/substitution recurrence the matrix fills in |
| SanityUtils.LevenshteinDistance | sanity_check/utils.py:16-46 | the early returns and the matrix filled row by row compute the edit distance |
| SanityUtils.FillRow | sanity_check/utils.py:34-44 | the inner loop fills row `i` from the row above and changes no other row |
| SanityUtils.LevBounds | sanity_check/utils.py:16-46 | the distance is at least the difference of the lengths and at most the longer length |
| SanityUtils.LevSymmetric | sanity_check/utils.py:16-46 | the distance is the same either way round |
| SanityUtils.LevZeroIff | sanity_check/utils.py:16-46 | the distance is 0 exactly for equal strings |
| SanityUtils.FindClosest | sanity_check/utils.py:49-57 | the loop returns `(None, None)` exactly when the specification has no closest entry, and otherwise its entry and distance |
| SanityUtils.ClosestAtArgMin | sanity_check/utils.py:49-57 | `(None, None)` exactly for an empty list, otherwise the entry the running minimum settles on, with its distance |
| SanityUtils.ArgMinIsFirstMinimum | sanity_check/utils.py:54 | no entry is closer than the one returned, and every entry before it is strictly farther (`<` keeps the first of equals) |
| SanityUtils.HasExtensionIgnoresCase | sanity_check/utils.py:61-67 | the extension test ignores the ASCII case of the file name and of the extensions |
| SanityUtils.MatchingFilesIff | sanity_check/utils.py:66-68 | a walked directory contributes exactly the joined paths of its files with one of the extensions |
| SanityUtils.MatchingFilesAppend | sanity_check/utils.py:66-68 | the kept files follow the listing order: a listing split in two keeps the files of the first part, then those of the second |
| SanityUtils.ListMatching | sanity_check/utils.py:66-68 | the inner loop computes the kept files of one directory in listing order, one entry per kept name, and so exactly the joined paths of the names that pass the test |
| SanityUtils.WalkMatchesIff | sanity_check/utils.py:60-70 | a path is returned exactly when it joins a walked directory with one of its files that has one of the extensions |
| SanityUtils.ListFilesWithExtension | sanity_check/utils.py:60-70 | the walk loop returns the kept files of each directory, in walk order and listing order within it |
| SanityRules.HasBomIff | sanity_check/sanity_check.py:169-171 | a file has a BOM exactly when its first three bytes are `EF BB BF` |
| SanityRules.AfterBom | sanity_check/sanity_check.py:35-37 | what is written back is the file after its three BOM bytes |
| SanityRules.StripAddedBom | sanity_check/sanity_check.py:35-39 | stripping the BOM from a file that was given one gives the file back |
| SanityRules.BomActionsIff | sanity_check/sanity_check.py:28-41 | an action is taken exactly for the files with one of the extensions and a BOM: the rest written back with `remove_bom`, a warning otherwise |
| SanityRules.FindBom | sanity_check/sanity_check.py:28-41 | the loop over the listed files computes those actions, at most one per file |
| SanityRules.BomOutcomeAsWritten | sanity_check/sanity_check.py:28-41 | as written, `find_bom` either raises the `ValueError` of binary mode with an encoding, only when `remove_bom` is on, or gives the actions of the corrected rule |
| SanityRules.BomRemovalRaises | sanity_check/sanity_check.py:33-37 | as written, with `remove_bom` any listed file with one of the extensions and a BOM makes `find_bom` raise, so no BOM is ever removed |
| SanityRules.FindBomAsWritten | sanity_check/sanity_check.py:28-41 | the loop as written, which stops at the first BOM file when `remove_bom` is on, computes that outcome |
| SanityRules.ListDir | sanity_check/sanity_check.py:46 | `os.listdir` succeeds exactly on a directory |
| SanityRules.DirNameOfJoin | sanity_check/sanity_check.py:63-64 | `dirname` and `basename` of `join(parent, name)` give the two back |
| SanityRules.Subdirectories | sanity_check/sanity_check.py:45-47 | exactly the listed entries that are directories |
| SanityRules.Candidates | sanity_check/sanity_check.py:67-72 | exactly the parent's entries that are not directories and whose joined path is not a valid entry |
| SanityRules.CollectIff | sanity_check/sanity_check.py:48-55 | a checking loop completes exactly when no pass raises, then reports exactly the single checks' warnings; otherwise the exception of one pass |
| SanityRules.CollectStops | sanity_check/sanity_check.py:48-55 | the loop ends with the first exception |
| SanityRules.CollectStep | sanity_check/sanity_check.py:48-55 | one more pass appends its warning, if any |
| SanityRules.FolderWarningIff | sanity_check/sanity_check.py:48-55 | a folder is reported exactly when it is not a valid entry and the first closest one is within the threshold; with no valid entries the comparison with `None` raises |
| SanityRules.FindFolderMisspellings | sanity_check/sanity_check.py:44-55 | the loop computes the specified warnings or exception |
| SanityRules.FileWarningIff | sanity_check/sanity_check.py:59-78 | a valid entry is reported exactly when it does not exist, its parent is a directory, and the first closest candidate file is within the threshold; a parent that is a plain file raises |
| SanityRules.FindFileMisspellings | sanity_check/sanity_check.py:58-78 | the loop computes the specified warnings or exception |
| SanityRules.AsWrittenKeepsEverything | sanity_check/sanity_check.py:84-88 | the `texts/` filter as written, `isdir(<bool>)`, drops no entry |
| SanityRules.LangFiles | sanity_check/sanity_check.py:84-88 | the intended filter keeps exactly the entries that are not directories and end in `.lang` |
| SanityRules.LangFilterFinding | sanity_check/sanity_check.py:84-95 | `languages.json` beside `en_US.lang` is kept and reported as not a language file as written, and left out by the intended filter |
| SanityRules.LanguageNameValid | sanity_check/sanity_check.py:89-107 | a name passes exactly when the part before its first `.` is a known language and a known country joined by one `_` |
| SanityRules.FindIncorrectLanguageNames | sanity_check/sanity_check.py:81-107 | a missing `texts/` gives nothing; otherwise, over the files the corrected filter of the Findings row on sanity_check/sanity_check.py:87 keeps, a warning for exactly each file whose name fails, with its reason |
| SanityTexts.KeyValueRoundTrip | sanity_check/sanity_check.py:118 | `key=value` splits back into the key and the value when the key has no `=` |
| SanityTexts.ReadLinesConcat | sanity_check/sanity_check.py:112 | the lines `readlines` gives put back together are the text |
| SanityTexts.ReadLinesBreaks | sanity_check/sanity_check.py:112 | every line but the last ends with its line break, and none has one before its end |
| SanityTexts.LoadLangIff | sanity_check/sanity_check.py:110-121 | loading raises exactly when a line is neither a comment, blank, nor holds `=`; otherwise the keys are exactly those of the entry lines |
| SanityTexts.LoadLangLastWins | sanity_check/sanity_check.py:114-119 | a key's value is the one on its last entry line |
| SanityTexts.LoadLangStops | sanity_check/sanity_check.py:114-119 | once a line raised, the file raises that exception |
| SanityTexts.LoadLangFile | sanity_check/sanity_check.py:110-121 | the loop computes the specified dictionary or exception |
| SanityTexts.AllKeys | sanity_check/sanity_check.py:133-136 | `all_keys` is exactly the union of the dictionaries' keys |
| SanityTexts.NoneMissingIff | sanity_check/sanity_check.py:138-143 | nothing is reported exactly when every language file has the same keys |
| SanityTexts.LoadAll | sanity_check/sanity_check.py:134-136 | one dictionary per file |
| SanityTexts.LoadAllIff | sanity_check/sanity_check.py:134-136 | the dictionaries are the files' in order, and loading fails exactly when some file raises |
| SanityTexts.MissingTranslationIff | sanity_check/sanity_check.py:124-143 | a (file, key) pair is reported exactly when the file is listed, its own lines give no entry for the key, and some listed file has it |
| SanityTexts.MissingPairs | sanity_check/sanity_check.py:138-143 | the two loops, over the keys in any order, report exactly the missing pairs |
| SanityTexts.LoadTexts | sanity_check/sanity_check.py:132-136 | the first loop computes the dictionaries and the union of their keys |
| SanityTexts.FindMissingTranslations | sanity_check/sanity_check.py:124-143 | the whole check, over the files the corrected filter keeps, computes the specified report or exception |
| SanityProperties.Issues | sanity_check/sanity_check.py:158-162 | the issue loop keeps the spans valid and their number |
| SanityProperties.FixesOf | sanity_check/sanity_check.py:160-162 | every fix that runs is one issue's own fix |
| SanityProperties.ApplyFixesSnoc | sanity_check/sanity_check.py:162 | one more fix is applied to the text the earlier fixes left |
| SanityProperties.IssuesWarnAll | sanity_check/sanity_check.py:158-159 | every issue gives one warning, in issue order |
| SanityProperties.IssuesLogFixes | sanity_check/sanity_check.py:160-161 | with fixing on, exactly the fixable issues are logged in order; with fixing off none |
| SanityProperties.IssuesThreadFixes | sanity_check/sanity_check.py:160-162 | the text is the fixes applied one after another, each to the text the previous one returned |
| SanityProperties.ReportIssues | sanity_check/sanity_check.py:158-162 | the loop over the listener's issues computes the specified warnings, log and text, and leaves the tree the fixes left |
| SanityProperties.CheckEntityFile | sanity_check/sanity_check.py:153-166 | parsing with the property listener, with the corrected `}` handling of the Findings row on sanity_check/verbose_json.py:189-191, and the issue loop compute the file's outcome |
| SanityProperties.EntityFilesStop | sanity_check/sanity_check.py:152-166 | once a file fails to parse, later files change nothing |
| SanityProperties.EntityFilesEach | sanity_check/sanity_check.py:152-166 | a successful run has one outcome per file, each the file's own |
| SanityProperties.FindIncorrectPropertyTypes | sanity_check/sanity_check.py:146-167 | the loop over the entity files computes the specified outcomes, with the corrected `}` handling |
| ValidatePost.SettingsOverlay | validate/main.js:45-55 | each setting is the argument's when it gives one and the default (`addon`, `none`, `false`, `[]`) otherwise |
| ValidatePost.MatchItem | validate/main.js:156-168 | the loop over `match` leaves at the first field that differs and computes whether the item matches |
| ValidatePost.ApplyKeeps | validate/main.js:170-177 | a field no override entry maps to keeps its value |
| ValidatePost.ApplyLastWins | validate/main.js:170-177 | a field gets the mapped value of the last entry that maps to it (`level` through `LevelMap`) |
| ValidatePost.OverrideItemsEach | validate/main.js:155-178 | without an exception each item is rewritten on its own |
| ValidatePost.EmptyMatchAppliesToAll | validate/main.js:155-178 | an empty `match` rewrites every item |
| ValidatePost.ApplyOverridesStop | validate/main.js:153-179 | once an override throws, later ones change nothing |
| ValidatePost.NullEntryThrows | validate/main.js:152-154 | a `null` or `undefined` entry of `logOverrides` reached by the loop throws a `TypeError` at its destructuring |
| ValidatePost.InfoItems.constructor | validate/main.js:155 | the items are those of the result |
| ValidatePost.ApplyChanges | validate/main.js:170-177 | the loop over the override entries computes the specified rewritten item |
| ValidatePost.RewriteItem | validate/main.js:155-177 | one item's rewrite: a `TypeError` only when `match` or `override` is missing, and an item that does not match is returned as it was |
| ValidatePost.InfoItems.Override | validate/main.js:154-178 | the in-place loop for one override gives the specified items; a `TypeError` leaves them unchanged |
| ValidatePost.InfoItems.OverrideAll | validate/main.js:152-180 | every override in list order, stopping at the first exception, a `null` entry included |
| ValidatePost.OverrideStops | validate/main.js:155-178 | once an item throws, later items change nothing |
| ValidatePost.FilterStops | validate/main.js:184-188 | once an item's test throws, later items change nothing |
| ValidatePost.FilterIff | validate/main.js:184-188 | the filter keeps exactly the error items not under `/data/`, and throws exactly when some error item has a truthy `p` that is not a string |
| ValidatePost.RowsStop | validate/main.js:189-191 | once a summary lookup throws, later items change nothing |
| ValidatePost.RowsLength | validate/main.js:189-191 | one row per filtered item |
| ValidatePost.GroupIndex | validate/main.js:192 | `groupedErrors.get(key)` finds the first group with the key, or none |
| ValidatePost.GroupInFirstOrder | validate/main.js:192-195 | the groups follow the order in which their keys first occur (the `Map`'s insertion order) |
| ValidatePost.GroupCoversRows | validate/main.js:192-195 | every row's key has a group |
| ValidatePost.GroupCollectsLines | validate/main.js:197-205 | each group holds the lines of its key's rows, in row order |
| ValidatePost.GroupDistinct | validate/main.js:192-195 | no two groups share a key |
| ValidatePost.AddEntry | validate/main.js:192-205 | the lookup, the new array and the push add the entry to its key's group |
| ValidatePost.LinesOfAbsent | validate/main.js:192-205 | a key no row has collects no line |
| ValidatePost.HasErrorsIff | validate/main.js:181-207 | `hasErrors` holds exactly when some item passes the filter |
| ValidatePost.GroupErrors | validate/main.js:181-207 | the `forEach` computes the specified grouping |
| ValidatePost.ExitIff | validate/main.js:217-219 | the exit code is 1 exactly when some item passes the filter and `failOnError` is truthy, and 0 otherwise |
| ValidatePost.Validate | validate/main.js:150-220 | the overlay, the override loop on the items in place, the grouping and the exit decision compute the specified report |

## Left out

- The file system, `glob`, MD5, `path.join`/`normalize`/`dirname`, `JSON.parse` and `JSON.stringify` are parameters of the model. The file system is a map of files and a set of directories. A glob is a function from a pattern to its ordered matches or an error. Text parsing and exact serialisation are not modelled.
- `execSync` (git) is a recorded outcome per command and position in the run. No real repository, network or clock is involved. What a checkout holds is an input, independent of the version.
- Console output is left out: `console.log`, `print`, `[WARNING]`, `[FIX]`, debug traces and the printed error groups. Warnings, fix logs and skipped modules are returned as values or events instead.
- Asynchrony: the `glob` callbacks of `filterFiles` and `whiskIt` are taken as sequential phases that run to completion in place. In the program they run after `main.js`'s synchronous loop, and an exception they throw escapes its `try`/`catch` as an uncaught error. The model lets it end the loop like a caught one.
- WhiskGit.MtimeAfterFetch: `Date.now()` and `fs.statSync().mtimeMs` are parameters. The value is the mtime `utimesSync` is asked for; a file system that clamps or rounds a time that far in the future is not modelled.
- WhiskGit.ParseAuthority: only the parts of WHATWG URL parsing that `makeGitURL` meets on host and path are modelled: the skipped slashes, the host end at `/ \ ? #`, the empty-host failure, lower-casing, `\` read as `/`, dot segments and the query and fragment kept apart. Not modelled: percent-encoding of the path, userinfo (`@`), the port and the dropping of a default port, IDNA, IPv4 and IPv6 hosts, forbidden host code points, and the removal of tabs, newlines, spaces and control characters. The lemmas about whole URLs therefore ask for plain segments and hosts, in which none of these occurs.
- LoadWhiskConfig: runs the corrected `WhiskConfig` (WhiskModels.WhiskConfigFrom). As written, `copyToSource` is never set and whisk/whisk.js:147 throws for every module (WhiskModels.CopyToSourceAlwaysThrows).
- NoWhiskJson: states the corrected `WhiskConfig`'s defaults; as written the module throws at whisk/whisk.js:147.
- WhiskIt: WhiskTree.ProjectTree.WhiskIt runs the corrected `WhiskConfig`; as written every call throws at whisk/whisk.js:147 before any file is written.
- Whisk: WhiskMain.Runner.Whisk runs `whiskIt` with the corrected `WhiskConfig`.
- Checkout: WhiskMain.Runner.Checkout and WhiskMain.CheckoutSpec resolve `"HEAD"` with the corrected WhiskGit.HeadSha (first line). As written, whisk/git.js:88 reads line [1]: the answer `sha<TAB>HEAD<LF>` then runs `git checkout ` with an empty ref, and an answer without a line break fails with `Failed to get HEAD SHA for undefined` (WhiskGit.HeadShaAsWritten, WhiskGit.HeadShaReadsWrongLine).
- CloneAndCheckout: WhiskMain.Runner.CloneAndCheckout inherits the corrected `"HEAD"` resolution of Checkout.
- Prepare: WhiskMain.Runner.Prepare inherits the corrected `"HEAD"` resolution of Checkout.
- ProcessModule: WhiskMain.Runner.ProcessModule inherits the corrected `"HEAD"` resolution and the corrected `WhiskConfig`.
- RunModules: WhiskMain.Runner.RunModules inherits the corrected `"HEAD"` resolution and the corrected `WhiskConfig`.
- Run: WhiskMain.Runner.Run computes the final world of the program with the corrected `WhiskConfig` and `"HEAD"` resolution; as written every module with a locator ends in the exception of whisk/whisk.js:147.
- FindIncorrectLanguageNames: SanityRules.FindIncorrectLanguageNames checks the files the corrected filter SanityRules.LangFiles keeps. As written, sanity_check/sanity_check.py:87 keeps every entry of `texts/`, so `languages.json` and sub-directories are checked too (SanityRules.LangFilterFinding).
- FindMissingTranslations: SanityTexts.FindMissingTranslations reads the files the corrected filter keeps. As written, `languages.json` in `texts/` raises `ValueError` when its lines are unpacked at sanity_check/sanity_check.py:118, and a sub-directory raises `IsADirectoryError`.
- CheckEntityFile: SanityProperties.CheckEntityFile parses with the corrected `}` handling (`closeEmpty` true). As written, an entity file holding `[{}]` raises `Expected ,` (VerboseProps.ArrayOfEmptyObject).
- FindIncorrectPropertyTypes: SanityProperties.FindIncorrectPropertyTypes inherits the corrected parser of CheckEntityFile.
- WhiskMain.FetchSpec: the raised `ReferenceError` is represented by its message only, because `main.js` catches and discards it; the printed `e` is not modelled.
- whisk's `printDiagnostics` and its TypeScript import are left out: they are never called from the modelled code.
- `sanity_check`'s `warn`, `error` and `log_fix` print only. The configuration always has its defaults (`fail_on_warnings` off, fixes on), so the `sys.exit(1)` of `warn` is not modelled.
- The data module's constants are parameters: the languages, countries, misspelling threshold, folder lists, file lists and BOM extensions. The `__main__` sequence of rule calls is not modelled beyond each rule.
- `is_float`'s `float(v)` is the parameter `floatOf` (Python float parsing is out of scope). Its result, integral or not and with or without a `.`, is modelled as given.
- SanityRules.FindBom: the rewrite `open(f, "wb", encoding="utf8")`, which raises `ValueError` in Python because binary mode takes no encoding, is modelled as writing the bytes after the BOM, the evident intent; the code as written is SanityRules.FindBomAsWritten (see "## Findings").
- SanityTexts.MissingPairs: Python's set iteration order is unspecified, so the missing translations are a set of (file, key) pairs rather than an ordered list of warnings.
- `os.walk`'s traversal order is an input; the files are given in walk order.
- validate/main.js outside lines 45-55 and 150-220 is left out: the worker class `TaskWorker`, the creator-tools invocation and `windowsAlert`/`annoyance` popups are foreign code or I/O. The summary lookup `result[0].infoSetData.info.summary[gId][gIx].defaultMessage` is the parameter `messageOf`, and string conversion of non-strings in `p + " (" + d + ")"` is the parameter `show`.
- ValidatePost.Validate: `FieldMap[key] \|\| key` and `LevelMap[v]` ignore inherited prototype properties, and `===` ignores `NaN` and `-0`. An entry of `logOverrides` is an override object, `null` or `undefined`. `logOverrides`, `match` and `override` that are neither arrays nor objects are not modelled beyond `undefined`, `null`, falsy and empty.
- The unhandled-rejection exit status of an exception thrown inside the validator's `async` function is not modelled; the model returns the exception.
- `packer`, `git_metadata`, `prepare_data.py` and `config.py` are not part of this model.
- WhiskMain.ReportedInDebug: `ToInt32` of non-numeric JSON values goes through the parameter `numeric`.
- SanityTexts.ReadLines: lines are cut at `\n` only; the universal-newline translation of `\r\n` and `\r` by Python's text mode is not modelled.
- WhiskJson.Field: properties inherited from a prototype (`constructor`, `toString` and the like) read as `undefined`, and the indices and `length` of a string count characters, not UTF-16 code units.
- WhiskJson.MergeDeep: `for (const key in source)` visits the source's keys in `Object.keys` order; the model visits them in insertion order. With distinct keys this changes only where new index keys are placed in the list, and `Object.keys` lists index keys first in numeric order either way.
- SanityUtils.HasExtensionIgnoresCase: `str.lower()` is modelled on ASCII letters only; Python also lowers other letters (for example the Kelvin sign to `k`).
- WhiskJson.Lookup: an object is a key-ordered list, and a key is read from its first entry. The objects `JSON.parse` (the `parse` parameter) returns are taken to have distinct keys, so the rule of `JSON.parse` that the last duplicate key wins is not modelled.
- WhiskGit.CachedRepoDir: the directory is the string `<root>/.whisk/cache/<md5>`; the normalisation `path.join` applies to a `ROOT_DIR` with a trailing slash or dot segments is not modelled.
- WhiskCompose.TargetPath: the targets `BP/…`, `RP/…` and `data/…` are relative to the working directory in the program, and the model compares them as plain strings with the paths under `ROOT_DIR`; the two agree only when the program runs from `ROOT_DIR`.

## Findings

| source | as written | input that shows it | evidently intended | confidence | as-written member | corrected member |
|---|---|---|---|---|---|---|
| whisk/models.js:3-6 | the constructor checks `this.name`, which is not yet set, so it always throws | `new Module({name: "user/repo"})` | check `json.name` before assigning it | high, not executed | WhiskModels.ModuleAlwaysThrows | WhiskModels.ModuleAccepted |
| whisk/models.js:19-24 | `WhiskConfig` never sets `copyToSource`, so `Object.keys(whiskConfig.copyToSource)` at whisk/whisk.js:147 throws for every module | any module, with or without `whisk.json` | read `copyToSource` with a `{}` default | high, not executed | WhiskModels.CopyToSourceAlwaysThrows | WhiskModels.CopyToSourceDefaulted |
| whisk/git.js:88 | `getHeadSHA` reads the second line of `git ls-remote <url> HEAD` | the one-line output `sha<TAB>HEAD<LF>` gives `""` | read the first line | high, not executed | WhiskGit.HeadShaReadsWrongLine | WhiskGit.HeadSha |
| sanity_check/verbose_json.py:189-191 | at a `}` at the head of the field loop (an empty object, or one after a trailing comma), the length is set and `exitObject` called without skipping the `}` | the document `[{}]` raises `Expected ,` | skip the `}` first, as lines 196-199 do | high, not executed | VerboseProps.ArrayOfEmptyObject | VerboseProps.EmptyObjectInArray |
| sanity_check/sanity_check.py:38 | with `remove_bom` on, the BOM fix opens the file with `open(f, "wb", encoding="utf8")`, which raises `ValueError` because binary mode takes no encoding | a `.json` file in the pack that starts with `EF BB BF`, with the default configuration | open the file with `open(f, "wb")` and write the bytes after the BOM | high, not executed | SanityRules.BomRemovalRaises | SanityRules.FindBom |
| sanity_check/sanity_check.py:87 | the filter passes `join(base_path, f) and f.endswith(".lang")`, a `bool`, to `isdir`, so no entry of `texts/` is dropped | `texts/` holding `languages.json` and `en_US.lang` reports `languages.json` as not a language file | keep the entries that are not directories and end in `.lang` | high, not executed | SanityRules.LangFilterFinding | SanityRules.LangFiles |
