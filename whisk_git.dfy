/**
 * The repository-locator resolver and the pure decisions of the git wrapper
 * (whisk/git.js): `makeGitURL`, the cooldown gate of `fetch`, the `HEAD`
 * substitution of `checkout`, the parsing of `git ls-remote` output, the
 * repository guard of `clone` and the cache-directory layout.
 */
module WhiskGit {
  import opened Wrappers
  import opened Text

  /** `[url, subdir]` as returned by `makeGitURL`; `subdir` is `null` when absent. */
  datatype Locator = Locator(url: string, subdir: Option<string>)

  const GitHubPrefix: string := "https://github.com/"

  /**
   * The regular expression `^\/?[^/]+\/[^/]+(\/[^/]*)?$`: an optional leading
   * slash, two non-empty slash-free segments, and optionally a slash followed by
   * a (possibly empty) third slash-free segment.
   */
  predicate MatchesGitHubPath(repo: string)
  {
    var rest := if StartsWith(repo, "/") then repo[1..] else repo;
    var parts := Split(rest, '/');
    (|parts| == 2 || |parts| == 3) && parts[0] != "" && parts[1] != ""
  }

  /** The short form with one leading and one trailing slash removed, under the GitHub prefix. */
  function ExpandShortForm(repo: string): string
  {
    var a := if StartsWith(repo, "/") then repo[1..] else repo;
    var b := if EndsWith(a, "/") then a[..|a| - 1] else a;
    GitHubPrefix + b
  }

  /**
   * What `new url.URL(s)` yields for an `http:`/`https:` string, following the
   * WHATWG URL parser for special schemes: the scheme, the lower-cased host, the
   * pathname with its dot segments resolved, and the query and fragment (`tail`),
   * which serialisation puts back after the pathname.
   */
  datatype Url = Url(scheme: string, host: string, pathname: string, tail: string) {
    function ToString(): string
    {
      scheme + "//" + host + pathname + tail
    }
  }

  /** The characters that end the host of a special URL, and those that end its path. */
  const HostEnd: set<char> := {'/', '\\', '?', '#'}
  const PathEnd: set<char> := {'?', '#'}

  /** A special URL treats `\` as `/`. */
  predicate IsSlash(c: char)
  {
    c == '/' || c == '\\'
  }

  /** How many slashes start `s`: after `scheme://` the parser skips any further ones. */
  function LeadingSlashes(s: string): (n: nat)
    ensures n <= |s|
    ensures forall k :: 0 <= k < n ==> IsSlash(s[k])
    ensures n < |s| ==> !IsSlash(s[n])
  {
    if s != [] && IsSlash(s[0]) then 1 + LeadingSlashes(s[1..]) else 0
  }

  /** The length of the longest prefix of `s` holding no character of `stop`. */
  function SpanUntil(s: string, stop: set<char>): (n: nat)
    ensures n <= |s|
    ensures forall k :: 0 <= k < n ==> s[k] !in stop
    ensures n < |s| ==> s[n] in stop
  {
    if s == [] || s[0] in stop then 0 else 1 + SpanUntil(s[1..], stop)
  }

  /** `s` with every `\` read as `/`. */
  function Backslashes(s: string): (r: string)
    ensures |r| == |s|
    ensures forall k :: 0 <= k < |s| ==> r[k] == (if s[k] == '\\' then '/' else s[k])
  {
    if s == [] then "" else [if s[0] == '\\' then '/' else s[0]] + Backslashes(s[1..])
  }

  /** A single-dot path segment: `.` or `%2e`, ASCII case-insensitively. */
  predicate SingleDot(seg: string)
  {
    var l := Lower(seg);
    l == "." || l == "%2e"
  }

  /** A double-dot path segment: `..`, `.%2e`, `%2e.` or `%2e%2e`, ASCII case-insensitively. */
  predicate DoubleDot(seg: string)
  {
    var l := Lower(seg);
    l == ".." || l == ".%2e" || l == "%2e." || l == "%2e%2e"
  }

  /**
   * The path state of the parser over `segs`, appending to the path `acc`: a
   * double-dot segment removes the last segment of the path, a single-dot one is
   * dropped, and either leaves an empty segment when it is the last; any other
   * segment is appended.
   */
  function WalkPath(acc: seq<string>, segs: seq<string>): seq<string>
    decreases |segs|
  {
    if segs == [] then acc
    else
      var seg := segs[0];
      var end := if |segs| == 1 then [""] else [];
      var next :=
        if DoubleDot(seg) then (if acc == [] then [] else acc[..|acc| - 1]) + end
        else if SingleDot(seg) then acc + end
        else acc + [seg];
      WalkPath(next, segs[1..])
  }

  /** The serialised pathname of the path text `p`, which is empty or starts with a slash. */
  function Pathname(p: string): (r: string)
    requires p == [] || IsSlash(p[0])
    ensures r != [] && r[0] == '/'
  {
    var segs := if p == [] then [""] else Split(Backslashes(p)[1..], '/');
    "/" + Join(WalkPath([], segs), '/')
  }

  /**
   * The authority and path of `scheme//after`: further slashes are skipped, the
   * host runs to the first `/`, `\`, `?` or `#` and is lower-cased, the path runs
   * from there to the first `?` or `#`, and the rest is the tail. An empty host
   * makes the constructor throw.
   */
  function ParseAuthority(scheme: string, after: string): (r: Result<Url>)
    ensures r.Ok? ==> r.value.scheme == scheme && r.value.host != []
    ensures r.Ok? ==> r.value.pathname != [] && r.value.pathname[0] == '/'
    ensures r.Ok? ==> r.value.tail == [] || r.value.tail[0] in PathEnd
    ensures r.Err? <==> EmptyHost(after)
  {
    var a := after[LeadingSlashes(after)..];
    var e := SpanUntil(a, HostEnd);
    if e == 0 then Err("Invalid URL")
    else
      var rest := a[e..];
      var q := SpanUntil(rest, PathEnd);
      Ok(Url(scheme, Lower(a[..e]), Pathname(rest[..q]), rest[q..]))
  }

  /** Only slashes come before the end, a `?` or a `#`: the host is empty. */
  predicate EmptyHost(after: string)
  {
    var n := LeadingSlashes(after);
    n == |after| || after[n] in PathEnd
  }

  function ParseUrl(s: string): (r: Result<Url>)
    requires StartsWith(s, "http://") || StartsWith(s, "https://")
    ensures r.Ok? ==> r.value.pathname != [] && r.value.pathname[0] == '/'
  {
    var scheme := if StartsWith(s, "http://") then "http:" else "https:";
    ParseAuthority(scheme, s[|scheme| + 2..])
  }

  /** The host of a parsed URL is lower-case and holds none of the characters that end a host. */
  lemma ParsedHost(scheme: string, after: string)
    requires ParseAuthority(scheme, after).Ok?
    ensures var h := ParseAuthority(scheme, after).value.host;
            forall k :: 0 <= k < |h| ==> h[k] !in HostEnd && !('A' <= h[k] <= 'Z')
  {
    var a := after[LeadingSlashes(after)..];
    var e := SpanUntil(a, HostEnd);
    assert forall k :: 0 <= k < e ==> a[..e][k] !in HostEnd;
    LowerHost(a[..e]);
  }

  lemma LowerHost(s: string)
    requires forall k :: 0 <= k < |s| ==> s[k] !in HostEnd
    ensures forall k :: 0 <= k < |Lower(s)| ==> Lower(s)[k] !in HostEnd && !('A' <= Lower(s)[k] <= 'Z')
  {
  }

  /** One step of `path.normalize` over the segments of an absolute path. */
  function NormalizeStep(acc: seq<string>, seg: string): seq<string>
  {
    if seg == "" || seg == "." then acc
    else if seg == ".." then (if |acc| == 0 then [] else acc[..|acc| - 1])
    else acc + [seg]
  }

  /** `path.normalize` on the segments of an absolute path: empty and `.` segments vanish, `..` drops the previous one. */
  function NormalizeSegments(segs: seq<string>): seq<string>
  {
    if |segs| == 0 then [] else NormalizeStep(NormalizeSegments(segs[..|segs| - 1]), segs[|segs| - 1])
  }

  /** `path.dirname(path.normalize(p))` for an absolute pathname `p`: again an absolute path. */
  function ParentOfNormalized(p: string): (r: string)
    requires p != [] && p[0] == '/'
    ensures r != [] && r[0] == '/'
  {
    var segs := NormalizeSegments(Split(p[1..], '/'));
    if |segs| == 0 then "/" else "/" + Join(segs[..|segs| - 1], '/')
  }

  /** `repo` after the short-form rewrite at the top of `makeGitURL`. */
  function ResolveRepo(repo: string): string
  {
    if MatchesGitHubPath(repo) then ExpandShortForm(repo) else repo
  }

  /**
   * The URL stage of `makeGitURL` on the rewritten string `r`: the source's
   * `null` for a non-URL or a pathname of the wrong length, `[r, null]` for
   * `/owner/name`, and for `/owner/name/sub` the URL with its pathname set to
   * the normalised parent directory, with the last segment.
   */
  function LocateUrl(r: string): Result<Option<Locator>>
  {
    if StartsWith(r, "http://") || StartsWith(r, "https://") then
      match ParseUrl(r)
      case Err(msg) => Err(msg)
      case Ok(u) => Ok(LocateParsed(r, u))
    else Ok(None)
  }

  /** The part of `LocateUrl` after `r` has been parsed into `u`. */
  function LocateParsed(r: string, u: Url): Option<Locator>
    requires u.pathname != [] && u.pathname[0] == '/'
  {
    var parts := Split(u.pathname, '/');
    if |parts| > 4 || |parts| < 3 then None
    else if |parts| == 3 then Some(Locator(r, None))
    else Some(Locator(u.(pathname := Pathname(ParentOfNormalized(u.pathname))).ToString(), Some(parts[3])))
  }

  /**
   * `makeGitURL(repo)`: `Ok(None)` for the source's `null`, `Ok(Some(l))` for
   * `[url, subdir]`, and `Err` when the URL constructor throws. `repo == None`
   * stands for `null`/`undefined`.
   */
  function MakeGitURL(repo: Option<string>): Result<Option<Locator>>
  {
    if repo.None? || repo.value == "" then Ok(None) else LocateUrl(ResolveRepo(repo.value))
  }

  /** A printable ASCII character that the URL parser keeps as it is in a host or a path. */
  predicate PlainChar(c: char)
  {
    ' ' < c <= '~' && c !in {'/', '\\', '?', '#', '%', '"', '<', '>', '`', '{', '}'}
  }

  predicate PlainText(s: string)
  {
    forall k :: 0 <= k < |s| ==> PlainChar(s[k])
  }

  /** A path segment, possibly empty, that the URL and path layers keep literally. */
  predicate KeptSegment(s: string)
  {
    PlainText(s) && s != "." && s != ".."
  }

  /** A non-empty path segment kept literally. */
  predicate PlainSegment(s: string)
  {
    s != "" && KeptSegment(s)
  }

  /** A piece of the short form: non-empty and slash-free. */
  predicate ShortSegment(s: string)
  {
    s != "" && '/' !in s
  }

  // --- segments and pathnames

  lemma PlainLacks(s: string)
    requires PlainText(s)
    ensures '/' !in s && '\\' !in s && '?' !in s && '#' !in s && '%' !in s
  {
    forall c | c in s ensures PlainChar(c) {
      var k :| 0 <= k < |s| && s[k] == c;
    }
  }

  lemma PlainIsShort(s: string)
    requires PlainSegment(s)
    ensures ShortSegment(s)
  {
    PlainLacks(s);
  }

  /** A kept segment is neither a single-dot nor a double-dot segment, in any spelling. */
  lemma KeptNotDot(s: string)
    requires KeptSegment(s)
    ensures !SingleDot(s) && !DoubleDot(s)
  {
    PlainLacks(s);
    var l := Lower(s);
    forall k | 0 <= k < |s| ensures l[k] != '%' && (l[k] == '.' <==> s[k] == '.') {
      assert s[k] in s;
    }
    assert |s| == 1 && l[0] == '.' ==> s == ".";
    assert |s| == 2 && l[0] == '.' && l[1] == '.' ==> s == "..";
    assert "%2e"[0] == '%' && "%2e."[0] == '%' && "%2e%2e"[0] == '%' && ".%2e"[1] == '%';
    if |l| == 4 {
      assert l[1] != '%';
    }
  }

  lemma {:induction false} WalkKept(acc: seq<string>, segs: seq<string>)
    requires forall k :: 0 <= k < |segs| ==> KeptSegment(segs[k])
    ensures WalkPath(acc, segs) == acc + segs
    decreases |segs|
  {
    if segs != [] {
      KeptNotDot(segs[0]);
      WalkKept(acc + [segs[0]], segs[1..]);
      assert acc + [segs[0]] + segs[1..] == acc + segs;
    }
  }

  lemma {:induction false} JoinLacks(segs: seq<string>, c: char)
    requires c != '/' && forall k :: 0 <= k < |segs| ==> c !in segs[k]
    ensures c !in Join(segs, '/')
    decreases |segs|
  {
    if |segs| > 1 {
      JoinLacks(segs[1..], c);
    }
  }

  lemma JoinPlainLacks(segs: seq<string>)
    requires forall k :: 0 <= k < |segs| ==> KeptSegment(segs[k])
    ensures var j := Join(segs, '/'); '\\' !in j && '?' !in j && '#' !in j
  {
    forall k | 0 <= k < |segs| ensures '\\' !in segs[k] && '?' !in segs[k] && '#' !in segs[k] && '/' !in segs[k] {
      PlainLacks(segs[k]);
    }
    JoinLacks(segs, '\\');
    JoinLacks(segs, '?');
    JoinLacks(segs, '#');
  }

  /** A pathname made of kept segments is its own serialisation. */
  lemma PlainPathname(segs: seq<string>)
    requires |segs| >= 1 && forall k :: 0 <= k < |segs| ==> KeptSegment(segs[k])
    ensures Pathname("/" + Join(segs, '/')) == "/" + Join(segs, '/')
  {
    var j := Join(segs, '/');
    BackslashesPlain(segs);
    SplitPlain(segs);
    WalkKept([], segs);
    PathnameOf("/" + j, j, segs);
  }

  lemma BackslashesPlain(segs: seq<string>)
    requires forall k :: 0 <= k < |segs| ==> KeptSegment(segs[k])
    ensures Backslashes("/" + Join(segs, '/'))[1..] == Join(segs, '/')
  {
    var p := "/" + Join(segs, '/');
    JoinPlainLacks(segs);
    assert Backslashes(p) == p;
  }

  lemma SplitPlain(segs: seq<string>)
    requires |segs| >= 1 && forall k :: 0 <= k < |segs| ==> KeptSegment(segs[k])
    ensures Split(Join(segs, '/'), '/') == segs
  {
    forall k | 0 <= k < |segs| ensures '/' !in segs[k] {
      PlainLacks(segs[k]);
    }
    SplitJoin(segs, '/');
  }

  lemma PathnameOf(p: string, j: string, segs: seq<string>)
    requires p == "/" + j && Backslashes(p)[1..] == j && Split(j, '/') == segs && WalkPath([], segs) == [] + segs
    ensures Pathname(p) == "/" + Join(segs, '/')
  {
    assert [] + segs == segs;
  }

  lemma LowerKeeps(s: string)
    requires forall k :: 0 <= k < |s| ==> !('A' <= s[k] <= 'Z')
    ensures Lower(s) == s
  {
  }

  lemma LeadingSlashesAre(s: string, n: nat)
    requires n <= |s| && forall k :: 0 <= k < n ==> IsSlash(s[k])
    requires n < |s| ==> !IsSlash(s[n])
    ensures LeadingSlashes(s) == n
  {
  }

  lemma SpanIs(s: string, stop: set<char>, n: nat)
    requires n <= |s| && forall k :: 0 <= k < n ==> s[k] !in stop
    requires n < |s| ==> s[n] in stop
    ensures SpanUntil(s, stop) == n
  {
  }

  // --- the URL stage

  /**
   * Parsing `slashes + host + "/" + segments + tail`, where `slashes` are slashes,
   * `host` is plain text and `tail` is empty or starts a query or fragment,
   * yields the lower-cased host, the segments as pathname, and the tail.
   */
  lemma AuthorityParts(scheme: string, slashes: string, host: string, segs: seq<string>, tail: string)
    requires forall k :: 0 <= k < |slashes| ==> IsSlash(slashes[k])
    requires host != "" && PlainText(host)
    requires |segs| >= 1 && forall k :: 0 <= k < |segs| ==> KeptSegment(segs[k])
    requires tail == [] || tail[0] in PathEnd
    ensures ParseAuthority(scheme, slashes + host + "/" + Join(segs, '/') + tail)
         == Ok(Url(scheme, Lower(host), "/" + Join(segs, '/'), tail))
  {
    var p := "/" + Join(segs, '/');
    AuthorityConcat(slashes, host, Join(segs, '/'), tail);
    SlashesSpan(slashes, host, p + tail);
    HostSpan(host, p + tail);
    JoinPathSpan(segs, tail);
    PlainPathname(segs);
    ParseAuthorityAt(scheme, slashes, host, p, tail);
  }

  lemma AuthorityConcat(slashes: string, host: string, j: string, tail: string)
    ensures slashes + host + "/" + j + tail == slashes + (host + (("/" + j) + tail))
  {
  }

  lemma SlashesSpan(slashes: string, host: string, rest: string)
    requires forall k :: 0 <= k < |slashes| ==> IsSlash(slashes[k])
    requires host != "" && PlainText(host)
    ensures LeadingSlashes(slashes + (host + rest)) == |slashes|
  {
    var after := slashes + (host + rest);
    assert after[|slashes|] == host[0];
    assert host[0] in host;
    LeadingSlashesAre(after, |slashes|);
  }

  lemma JoinPathSpan(segs: seq<string>, tail: string)
    requires forall k :: 0 <= k < |segs| ==> KeptSegment(segs[k])
    requires tail == [] || tail[0] in PathEnd
    ensures SpanUntil(("/" + Join(segs, '/')) + tail, PathEnd) == |"/" + Join(segs, '/')|
  {
    JoinPlainLacks(segs);
    PathSpan("/" + Join(segs, '/'), tail);
  }


  /** `ParseAuthority` once the slashes, the host and the path have been measured. */
  lemma ParseAuthorityAt(scheme: string, slashes: string, host: string, p: string, tail: string)
    requires host != "" && (p == [] || IsSlash(p[0]))
    requires LeadingSlashes(slashes + (host + (p + tail))) == |slashes|
    requires SpanUntil(host + (p + tail), HostEnd) == |host|
    requires SpanUntil(p + tail, PathEnd) == |p|
    ensures ParseAuthority(scheme, slashes + (host + (p + tail))) == Ok(Url(scheme, Lower(host), Pathname(p), tail))
  {
    var after := slashes + (host + (p + tail));
    assert after[|slashes|..] == host + (p + tail);
    assert (host + (p + tail))[..|host|] == host;
    assert (host + (p + tail))[|host|..] == p + tail;
    assert (p + tail)[..|p|] == p;
    assert (p + tail)[|p|..] == tail;
  }

  /** A plain host followed by something starting with `/` ends right before it. */
  lemma HostSpan(host: string, rest: string)
    requires PlainText(host) && rest != [] && rest[0] == '/'
    ensures SpanUntil(host + rest, HostEnd) == |host|
  {
    PlainLacks(host);
    var a := host + rest;
    forall k | 0 <= k < |host| ensures a[k] !in HostEnd {
      assert a[k] == host[k];
      assert host[k] in host;
    }
    SpanIs(a, HostEnd, |host|);
  }

  /** A path without `?` or `#` runs up to the tail. */
  lemma PathSpan(p: string, tail: string)
    requires '?' !in p && '#' !in p
    requires tail == [] || tail[0] in PathEnd
    ensures SpanUntil(p + tail, PathEnd) == |p|
  {
    var rest := p + tail;
    forall k | 0 <= k < |p| ensures rest[k] !in PathEnd {
      assert rest[k] == p[k];
      assert p[k] in p;
    }
    SpanIs(rest, PathEnd, |p|);
  }

  lemma HttpsParts(rest: string)
    ensures StartsWith("https://" + rest, "https://") && !StartsWith("https://" + rest, "http://")
    ensures ("https://" + rest)[8..] == rest
  {
    var s := "https://" + rest;
    assert s[..8] == "https://";
    assert s[4] == 's';
  }

  lemma HttpParts(rest: string)
    ensures StartsWith("http://" + rest, "http://")
    ensures ("http://" + rest)[7..] == rest
  {
    var s := "http://" + rest;
    assert s[..7] == "http://";
  }

  /** `https://x` is parsed as the authority and path `x` of an `https:` URL. */
  lemma ParseHttps(x: string)
    ensures StartsWith("https://" + x, "https://") && !StartsWith("https://" + x, "http://")
    ensures ParseUrl("https://" + x) == ParseAuthority("https:", x)
  {
    HttpsParts(x);
  }

  /** `http://x` is parsed as the authority and path `x` of an `http:` URL. */
  lemma ParseHttp(x: string)
    ensures StartsWith("http://" + x, "http://")
    ensures ParseUrl("http://" + x) == ParseAuthority("http:", x)
  {
    HttpParts(x);
  }

  /** Lower-case ASCII letters and dots, as in `github.com` and the test repositories. */
  predicate LowerWord(s: string)
  {
    forall k :: 0 <= k < |s| ==> 'a' <= s[k] <= 'z' || s[k] == '.'
  }

  lemma WordIsPlain(s: string)
    requires LowerWord(s)
    ensures PlainText(s) && Lower(s) == s
  {
    LowerKeeps(s);
  }

  lemma GitHubHost()
    ensures PlainText("github.com") && Lower("github.com") == "github.com"
  {
    assert LowerWord("github.com");
    WordIsPlain("github.com");
  }

  /** `AuthorityParts` with no extra slashes. */
  lemma HostParts(scheme: string, host: string, segs: seq<string>, tail: string)
    requires host != "" && PlainText(host)
    requires |segs| >= 1 && forall k :: 0 <= k < |segs| ==> KeptSegment(segs[k])
    requires tail == [] || tail[0] in PathEnd
    ensures ParseAuthority(scheme, host + "/" + Join(segs, '/') + tail)
         == Ok(Url(scheme, Lower(host), "/" + Join(segs, '/'), tail))
  {
    AuthorityParts(scheme, "", host, segs, tail);
    assert "" + host == host;
  }

  lemma GitHubSplit(x: string)
    ensures GitHubPrefix + x == "https://" + ("github.com" + "/" + x)
  {
  }

  lemma HttpGitHubSplit(x: string)
    ensures "http://github.com/" + x == "http://" + ("github.com" + "/" + x)
  {
  }

  /** `https://github.com/` followed by kept segments and a tail parses to those parts. */
  lemma GitHubUrlParses(segs: seq<string>, tail: string)
    requires |segs| >= 1 && forall k :: 0 <= k < |segs| ==> KeptSegment(segs[k])
    requires tail == [] || tail[0] in PathEnd
    ensures var s := GitHubPrefix + Join(segs, '/') + tail;
            && StartsWith(s, "https://") && !StartsWith(s, "http://")
            && ParseUrl(s) == Ok(Url("https:", "github.com", "/" + Join(segs, '/'), tail))
  {
    var j := Join(segs, '/');
    GitHubTailSplit(j, tail);
    ParseHttps("github.com" + "/" + j + tail);
    GitHubHost();
    HostParts("https:", "github.com", segs, tail);
  }

  lemma GitHubTailSplit(j: string, tail: string)
    ensures GitHubPrefix + j + tail == "https://" + ("github.com" + "/" + j + tail)
  {
    GitHubSplit(j + tail);
    assert GitHubPrefix + j + tail == GitHubPrefix + (j + tail);
    assert "github.com" + "/" + (j + tail) == "github.com" + "/" + j + tail;
  }

  /** `http://github.com/` followed by kept segments parses to that host and pathname. */
  lemma HttpGitHubUrlParses(segs: seq<string>)
    requires |segs| >= 1 && forall k :: 0 <= k < |segs| ==> KeptSegment(segs[k])
    ensures var s := "http://github.com/" + Join(segs, '/');
            && StartsWith(s, "http://")
            && ParseUrl(s) == Ok(Url("http:", "github.com", "/" + Join(segs, '/'), ""))
  {
    var x := "github.com" + "/" + Join(segs, '/');
    HttpGitHubSplit(Join(segs, '/'));
    ParseHttp(x);
    GitHubHost();
    HostParts("http:", "github.com", segs, "");
    assert x + "" == x;
  }

  lemma LeadingEmpty(parts: seq<string>)
    requires |parts| >= 1
    ensures "/" + Join(parts, '/') == Join([""] + parts, '/')
  {
    assert ([""] + parts)[1..] == parts;
  }

  /** An absolute path splits on `/` into an empty part and its segments. */
  lemma SlashSplit(parts: seq<string>)
    requires |parts| >= 1 && forall k :: 0 <= k < |parts| ==> '/' !in parts[k]
    ensures Split("/" + Join(parts, '/'), '/') == [""] + parts
  {
    LeadingEmpty(parts);
    var all := [""] + parts;
    forall k | 0 <= k < |all| ensures '/' !in all[k] {
      if k > 0 {
        assert all[k] == parts[k - 1];
      }
    }
    SplitJoin(all, '/');
  }

  /** `LocateUrl` on a string that parses to `u`. */
  lemma LocateVia(r: string, u: Url)
    requires StartsWith(r, "http://") || StartsWith(r, "https://")
    requires ParseUrl(r) == Ok(u)
    ensures LocateUrl(r) == Ok(LocateParsed(r, u))
  {
  }

  /** A URL whose pathname is `/owner/name` is kept verbatim, with no subdirectory. */
  lemma LocateTwo(r: string, u: Url, owner: string, name: string)
    requires ShortSegment(owner) && ShortSegment(name)
    requires u.pathname == "/" + Join([owner, name], '/')
    ensures LocateParsed(r, u) == Some(Locator(r, None))
  {
    SlashSplit([owner, name]);
    assert [""] + [owner, name] == ["", owner, name];
  }

  /**
   * A URL whose pathname is `/owner/name/sub` gets the normalised parent
   * directory as its pathname, keeping its scheme, host and tail, and `sub` is
   * the subdirectory.
   */
  lemma LocateThree(r: string, u: Url, owner: string, name: string, sub: string)
    requires PlainSegment(owner) && PlainSegment(name) && KeptSegment(sub)
    requires u.pathname == "/" + Join([owner, name, sub], '/')
    ensures LocateParsed(r, u) == Some(Locator(
              Url(u.scheme, u.host, "/" + (if sub == "" then owner else Join([owner, name], '/')), u.tail).ToString(),
              Some(sub)))
  {
    ThreeParts(owner, name, sub);
    ParentOfThreeKept(owner, name, sub);
    ParentPathname(owner, name, sub);
  }

  lemma ThreeParts(owner: string, name: string, sub: string)
    requires PlainSegment(owner) && PlainSegment(name) && KeptSegment(sub)
    ensures Split("/" + Join([owner, name, sub], '/'), '/') == ["", owner, name, sub]
  {
    PlainLacks(owner);
    PlainLacks(name);
    PlainLacks(sub);
    SlashSplit([owner, name, sub]);
    assert [""] + [owner, name, sub] == ["", owner, name, sub];
  }

  lemma ParentOfThreeKept(owner: string, name: string, sub: string)
    requires PlainSegment(owner) && PlainSegment(name) && KeptSegment(sub)
    ensures ParentOfNormalized("/" + Join([owner, name, sub], '/'))
         == "/" + (if sub == "" then owner else Join([owner, name], '/'))
  {
    PlainIsShort(owner);
    PlainIsShort(name);
    PlainLacks(sub);
    ParentOfThree(owner, name, sub);
  }

  lemma ParentOfThree(owner: string, name: string, sub: string)
    requires ShortSegment(owner) && ShortSegment(name) && '/' !in sub
    requires owner != "." && owner != ".." && name != "." && name != ".." && sub != "." && sub != ".."
    ensures ParentOfNormalized("/" + Join([owner, name, sub], '/'))
         == "/" + (if sub == "" then owner else Join([owner, name], '/'))
  {
    var s := Join([owner, name, sub], '/');
    var p := "/" + s;
    assert p[1..] == s;
    SplitJoin([owner, name, sub], '/');
    var segs := [owner, name, sub];
    assert segs[..2] == [owner, name];
    assert [owner, name][..1] == [owner];
    assert [owner][..0] == [];
    assert NormalizeSegments([owner]) == [owner];
    assert NormalizeSegments([owner, name]) == [owner, name];
    var norm := NormalizeSegments(segs);
    if sub == "" {
      assert norm == [owner, name];
      assert norm[..1] == [owner];
    } else {
      assert norm == [owner, name, sub];
      assert norm[..2] == [owner, name];
    }
  }

  /** The pathname setter keeps a parent directory made of plain segments as it is. */
  lemma ParentPathname(owner: string, name: string, sub: string)
    requires PlainSegment(owner) && PlainSegment(name)
    ensures var target := if sub == "" then owner else Join([owner, name], '/');
            Pathname("/" + target) == "/" + target
  {
    if sub == "" {
      assert Join([owner], '/') == owner;
      PlainPathname([owner]);
    } else {
      PlainPathname([owner, name]);
    }
  }

  /** A URL whose pathname has a single segment resolves to `null`. */
  lemma LocateOne(r: string, u: Url, seg: string)
    requires '/' !in seg
    requires u.pathname == "/" + Join([seg], '/')
    ensures LocateParsed(r, u) == None
  {
    SlashSplit([seg]);
    assert [""] + [seg] == ["", seg];
  }

  lemma NoTail(s: string)
    ensures s + "" == s
  {
  }

  /** `https://github.com/owner/name` locates to itself with no subdirectory. */
  lemma LocateGitHubRepo(owner: string, name: string)
    requires PlainSegment(owner) && PlainSegment(name)
    ensures LocateUrl(GitHubPrefix + Join([owner, name], '/'))
         == Ok(Some(Locator(GitHubPrefix + Join([owner, name], '/'), None)))
  {
    var s := GitHubPrefix + Join([owner, name], '/');
    var u := Url("https:", "github.com", "/" + Join([owner, name], '/'), "");
    GitHubUrlParses([owner, name], "");
    NoTail(s);
    PlainIsShort(owner);
    PlainIsShort(name);
    LocateVia(s, u);
    LocateTwo(s, u, owner, name);
  }

  lemma GitHubString(target: string, tail: string)
    ensures Url("https:", "github.com", "/" + target, tail).ToString() == GitHubPrefix + target + tail
  {
  }

  /**
   * `https://github.com/owner/name/sub` followed by a query or fragment `tail`
   * locates to the repository's URL with the same tail, and `sub`.
   */
  lemma LocateGitHubSub(owner: string, name: string, sub: string, tail: string)
    requires PlainSegment(owner) && PlainSegment(name) && KeptSegment(sub)
    requires tail == [] || tail[0] in PathEnd
    ensures LocateUrl(GitHubPrefix + Join([owner, name, sub], '/') + tail)
         == Ok(Some(Locator(GitHubPrefix + (if sub == "" then owner else Join([owner, name], '/')) + tail, Some(sub))))
  {
    var s := GitHubPrefix + Join([owner, name, sub], '/') + tail;
    var u := Url("https:", "github.com", "/" + Join([owner, name, sub], '/'), tail);
    GitHubUrlParses([owner, name, sub], tail);
    LocateVia(s, u);
    LocateThree(s, u, owner, name, sub);
    GitHubString(if sub == "" then owner else Join([owner, name], '/'), tail);
  }

  // --- the short-form stage

  lemma CoreShape(owner: string, name: string)
    requires ShortSegment(owner) && ShortSegment(name)
    ensures var core := Join([owner, name], '/');
            && core == owner + "/" + name
            && core[0] != '/' && core[|core| - 1] != '/'
            && Split(core, '/') == [owner, name]
            && core + "/" == Join([owner, name, ""], '/')
            && Split(core + "/", '/') == [owner, name, ""]
  {
    assert [owner, name][1..] == [name];
    assert owner[0] in owner;
    assert name[|name| - 1] in name;
    SplitJoin([owner, name], '/');
    JoinSnoc([owner, name], "", '/');
    assert [owner, name] + [""] == [owner, name, ""];
    SplitJoin([owner, name, ""], '/');
  }

  lemma NoLeadingSlash(s: string)
    requires s != [] && s[0] != '/'
    ensures !StartsWith(s, "/")
  {
    assert s[..1][0] == s[0];
  }

  lemma NoTrailingSlash(s: string)
    requires s != [] && s[|s| - 1] != '/'
    ensures !EndsWith(s, "/")
  {
    assert s[|s| - 1..][0] == s[|s| - 1];
  }

  lemma LeadingSlash(s: string)
    ensures StartsWith("/" + s, "/") && ("/" + s)[1..] == s
  {
    assert ("/" + s)[..1] == "/";
  }

  lemma TrailingSlash(s: string)
    ensures EndsWith(s + "/", "/") && (s + "/")[..|s|] == s
  {
    assert (s + "/")[|s|..] == "/";
  }

  lemma ResolveBare(owner: string, name: string)
    requires ShortSegment(owner) && ShortSegment(name)
    ensures ResolveRepo(Join([owner, name], '/')) == GitHubPrefix + Join([owner, name], '/')
  {
    var core := Join([owner, name], '/');
    CoreShape(owner, name);
    NoLeadingSlash(core);
    NoTrailingSlash(core);
  }

  lemma ResolveLeading(owner: string, name: string)
    requires ShortSegment(owner) && ShortSegment(name)
    ensures ResolveRepo("/" + Join([owner, name], '/')) == GitHubPrefix + Join([owner, name], '/')
  {
    var core := Join([owner, name], '/');
    CoreShape(owner, name);
    LeadingSlash(core);
    NoTrailingSlash(core);
  }

  lemma ResolveTrailing(owner: string, name: string)
    requires ShortSegment(owner) && ShortSegment(name)
    ensures ResolveRepo(Join([owner, name], '/') + "/") == GitHubPrefix + Join([owner, name], '/')
  {
    var core := Join([owner, name], '/');
    CoreShape(owner, name);
    assert (core + "/")[0] == core[0];
    NoLeadingSlash(core + "/");
    TrailingSlash(core);
  }

  lemma ResolveBoth(owner: string, name: string)
    requires ShortSegment(owner) && ShortSegment(name)
    ensures ResolveRepo("/" + Join([owner, name], '/') + "/") == GitHubPrefix + Join([owner, name], '/')
  {
    var core := Join([owner, name], '/');
    var r := "/" + core + "/";
    CoreShape(owner, name);
    assert r == "/" + (core + "/");
    LeadingSlash(core + "/");
    TrailingSlash(core);
    assert StartsWith(r, "/") && r[1..] == core + "/";
    assert Split(r[1..], '/') == [owner, name, ""];
    assert MatchesGitHubPath(r);
    assert ExpandShortForm(r) == GitHubPrefix + core;
  }

  lemma ResolveThree(owner: string, name: string, sub: string)
    requires ShortSegment(owner) && ShortSegment(name) && ShortSegment(sub)
    ensures ResolveRepo(Join([owner, name, sub], '/')) == GitHubPrefix + Join([owner, name, sub], '/')
  {
    var s := Join([owner, name, sub], '/');
    assert [owner, name, sub][1..] == [name, sub];
    assert [name, sub][1..] == [sub];
    assert Join([name, sub], '/') == name + "/" + sub;
    assert s == owner + "/" + (name + "/" + sub);
    assert owner[0] in owner;
    assert sub[|sub| - 1] in sub;
    SplitJoin([owner, name, sub], '/');
    NoLeadingSlash(s);
    NoTrailingSlash(s);
  }

  /** A string `scheme//...` splits on `/` into the scheme, an empty part, and more: never the short form. */
  lemma UrlIsNotShortForm(s: string, schemeLen: nat)
    requires 0 < schemeLen && schemeLen + 1 < |s| && s[schemeLen] == '/' && s[schemeLen + 1] == '/'
    requires forall k :: 0 <= k < schemeLen ==> s[k] != '/'
    ensures !MatchesGitHubPath(s)
  {
    NoLeadingSlash(s);
    SplitAt(s, '/', schemeLen);
    var rest := s[schemeLen + 1..];
    assert rest[0] == '/';
    SplitAt(rest, '/', 0);
    assert rest[..0] == "";
  }

  /** An `https://` or `http://` string is not rewritten. */
  lemma ResolveFullUrl(x: string)
    ensures ResolveRepo("https://" + x) == "https://" + x
    ensures ResolveRepo("http://" + x) == "http://" + x
  {
    var s := "https://" + x;
    assert s[5] == ':' && s[6] == '/' && s[7] == '/';
    UrlIsNotShortForm(s, 6);
    var t := "http://" + x;
    assert t[4] == ':' && t[5] == '/' && t[6] == '/';
    UrlIsNotShortForm(t, 5);
  }

  lemma JoinThree(owner: string, name: string, sub: string)
    ensures Join([owner, name, sub], '/') == Join([owner, name], '/') + "/" + sub
  {
    assert [owner, name, sub][1..] == [name, sub];
    assert [name, sub][1..] == [sub];
    assert [owner, name][1..] == [name];
    assert Join([name, sub], '/') == name + "/" + sub;
    assert Join([owner, name], '/') == owner + "/" + name;
  }

  // --- makeGitURL end to end

  /**
   * A short `owner/name` locator resolves to its GitHub URL with no subdirectory,
   * whatever single leading or trailing slashes surround it.
   */
  lemma ShortFormIgnoresSlashes(owner: string, name: string)
    requires PlainSegment(owner) && PlainSegment(name)
    ensures var core := Join([owner, name], '/');
            var expected := Ok(Some(Locator(GitHubPrefix + core, None)));
            && MakeGitURL(Some(core)) == expected
            && MakeGitURL(Some("/" + core)) == expected
            && MakeGitURL(Some(core + "/")) == expected
            && MakeGitURL(Some("/" + core + "/")) == expected
  {
    var core := Join([owner, name], '/');
    PlainIsShort(owner);
    PlainIsShort(name);
    CoreShape(owner, name);
    LocateGitHubRepo(owner, name);
    ResolveBare(owner, name);
    ResolveLeading(owner, name);
    ResolveTrailing(owner, name);
    ResolveBoth(owner, name);
    ViaResolved(core, GitHubPrefix + core);
    ViaResolved("/" + core, GitHubPrefix + core);
    ViaResolved(core + "/", GitHubPrefix + core);
    ViaResolved("/" + core + "/", GitHubPrefix + core);
  }

  lemma ViaResolved(repo: string, r: string)
    requires repo != "" && ResolveRepo(repo) == r
    ensures MakeGitURL(Some(repo)) == LocateUrl(r)
  {
  }

  /** `owner/name/sub` resolves to the repository's URL and `sub` as the in-repository target. */
  lemma ShortFormWithSubdir(owner: string, name: string, sub: string)
    requires PlainSegment(owner) && PlainSegment(name) && PlainSegment(sub)
    ensures MakeGitURL(Some(Join([owner, name, sub], '/')))
         == Ok(Some(Locator(GitHubPrefix + Join([owner, name], '/'), Some(sub))))
  {
    var j := Join([owner, name, sub], '/');
    PlainIsShort(owner);
    PlainIsShort(name);
    PlainIsShort(sub);
    ResolveThree(owner, name, sub);
    LocateGitHubSub(owner, name, sub, "");
    NoTail(GitHubPrefix + j);
    NoTail(GitHubPrefix + Join([owner, name], '/'));
    ViaResolved(j, GitHubPrefix + j);
  }

  lemma FragmentSegment(s: string, frag: string)
    requires ShortSegment(s) && '/' !in frag
    ensures ShortSegment(s + "#" + frag)
  {
  }

  lemma FragmentJoin(owner: string, name: string, sub: string, frag: string)
    ensures GitHubPrefix + Join([owner, name, sub + "#" + frag], '/')
         == GitHubPrefix + Join([owner, name, sub], '/') + ("#" + frag)
  {
    JoinThree(owner, name, sub + "#" + frag);
    JoinThree(owner, name, sub);
  }

  /**
   * A fragment after the subdirectory of a short form moves, with the repository
   * URL, out of the subdirectory: `owner/name/sub#frag` locates to
   * `https://github.com/owner/name#frag` and `sub`.
   */
  lemma ShortFormFragment(owner: string, name: string, sub: string, frag: string)
    requires PlainSegment(owner) && PlainSegment(name) && PlainSegment(sub) && '/' !in frag
    ensures MakeGitURL(Some(Join([owner, name, sub + "#" + frag], '/')))
         == Ok(Some(Locator(GitHubPrefix + Join([owner, name], '/') + "#" + frag, Some(sub))))
  {
    var j := Join([owner, name, sub + "#" + frag], '/');
    PlainIsShort(owner);
    PlainIsShort(name);
    PlainIsShort(sub);
    FragmentSegment(sub, frag);
    ResolveThree(owner, name, sub + "#" + frag);
    FragmentJoin(owner, name, sub, frag);
    LocateGitHubSub(owner, name, sub, "#" + frag);
    ViaResolved(j, GitHubPrefix + j);
    HashTail(GitHubPrefix + Join([owner, name], '/'), frag);
  }

  lemma HashTail(a: string, frag: string)
    ensures a + ("#" + frag) == a + "#" + frag
  {
  }

  lemma OwnerFragmentJoin(owner: string, frag: string, name: string)
    ensures GitHubPrefix + Join([owner + "#" + frag, name], '/')
         == GitHubPrefix + Join([owner], '/') + ("#" + frag + "/" + name)
  {
    assert [owner + "#" + frag, name][1..] == [name];
  }

  /**
   * A `#` inside the owner of a short form cuts the pathname to one segment,
   * so `owner#frag/name` resolves to `null`.
   */
  lemma ShortFormFragmentInOwner(owner: string, frag: string, name: string)
    requires PlainSegment(owner) && PlainSegment(name) && '/' !in frag
    ensures MakeGitURL(Some(Join([owner + "#" + frag, name], '/'))) == Ok(None)
  {
    var j := Join([owner + "#" + frag, name], '/');
    var tail := "#" + frag + "/" + name;
    var r := GitHubPrefix + Join([owner], '/') + tail;
    var u := Url("https:", "github.com", "/" + Join([owner], '/'), tail);
    PlainIsShort(owner);
    PlainIsShort(name);
    FragmentSegment(owner, frag);
    ResolveBare(owner + "#" + frag, name);
    OwnerFragmentJoin(owner, frag, name);
    GitHubUrlParses([owner], tail);
    LocateVia(r, u);
    PlainLacks(owner);
    LocateOne(r, u, owner);
    ViaResolved(j, r);
  }

  /**
   * A full `https://github.com/owner/name/sub` URL with a query or fragment
   * `tail` locates to the repository's URL with that tail, and `sub`.
   */
  lemma FullUrlWithTail(owner: string, name: string, sub: string, tail: string)
    requires PlainSegment(owner) && PlainSegment(name) && PlainSegment(sub)
    requires tail == [] || tail[0] in PathEnd
    ensures MakeGitURL(Some(GitHubPrefix + Join([owner, name, sub], '/') + tail))
         == Ok(Some(Locator(GitHubPrefix + Join([owner, name], '/') + tail, Some(sub))))
  {
    var j := Join([owner, name, sub], '/');
    var s := GitHubPrefix + j + tail;
    GitHubSplit(j + tail);
    assert s == "https://" + ("github.com" + "/" + (j + tail));
    ResolveFullUrl("github.com" + "/" + (j + tail));
    LocateGitHubSub(owner, name, sub, tail);
    ViaResolved(s, s);
  }

  lemma ExtraSlashSplit(owner: string, name: string)
    ensures "https:///" + Join([owner, name], '/') == "https://" + ("/" + owner + "/" + Join([name], '/') + "")
  {
    assert [owner, name][1..] == [name];
  }

  /**
   * Slashes after `https://` are skipped before the host, so in
   * `https:///owner/name` the owner is the host and the one-segment pathname
   * resolves to `null`.
   */
  lemma ExtraSlashSkipsHost(owner: string, name: string)
    requires PlainSegment(owner) && PlainSegment(name)
    ensures MakeGitURL(Some("https:///" + Join([owner, name], '/'))) == Ok(None)
  {
    var x := "/" + owner + "/" + Join([name], '/') + "";
    var s := "https://" + x;
    var u := Url("https:", Lower(owner), "/" + Join([name], '/'), "");
    ExtraSlashSplit(owner, name);
    ResolveFullUrl(x);
    ExtraSlashParse(owner, name);
    LocateVia(s, u);
    PlainLacks(name);
    LocateOne(s, u, name);
    ViaResolved(s, s);
  }

  lemma ExtraSlashParse(owner: string, name: string)
    requires PlainSegment(owner) && PlainSegment(name)
    ensures var x := "/" + owner + "/" + Join([name], '/') + "";
            && StartsWith("https://" + x, "https://")
            && ParseUrl("https://" + x) == Ok(Url("https:", Lower(owner), "/" + Join([name], '/'), ""))
  {
    var x := "/" + owner + "/" + Join([name], '/') + "";
    ParseHttps(x);
    AuthorityParts("https:", "/", owner, [name], "");
  }

  /** A full `https://github.com/owner/name` URL is returned unchanged, with no subdirectory. */
  lemma FullHttpsUrlKept(owner: string, name: string)
    requires PlainSegment(owner) && PlainSegment(name)
    ensures var s := GitHubPrefix + Join([owner, name], '/');
            MakeGitURL(Some(s)) == Ok(Some(Locator(s, None)))
  {
    var core := Join([owner, name], '/');
    GitHubSplit(core);
    ResolveFullUrl("github.com" + "/" + core);
    LocateGitHubRepo(owner, name);
    ViaResolved(GitHubPrefix + core, GitHubPrefix + core);
  }

  /** A full `http://github.com/owner/name` URL is returned unchanged, with no subdirectory. */
  lemma FullHttpUrlKept(owner: string, name: string)
    requires PlainSegment(owner) && PlainSegment(name)
    ensures var s := "http://github.com/" + Join([owner, name], '/');
            MakeGitURL(Some(s)) == Ok(Some(Locator(s, None)))
  {
    var core := Join([owner, name], '/');
    var s := "http://github.com/" + core;
    var u := Url("http:", "github.com", "/" + core, "");
    HttpGitHubSplit(core);
    ResolveFullUrl("github.com" + "/" + core);
    HttpGitHubUrlParses([owner, name]);
    PlainIsShort(owner);
    PlainIsShort(name);
    LocateVia(s, u);
    LocateTwo(s, u, owner, name);
    ViaResolved(s, s);
  }

  /**
   * A full URL ending in a slash has a four-part pathname, so it is read as the
   * owner's URL plus an empty subdirectory.
   */
  lemma FullUrlTrailingSlash(owner: string, name: string)
    requires PlainSegment(owner) && PlainSegment(name)
    ensures MakeGitURL(Some(GitHubPrefix + Join([owner, name], '/') + "/"))
         == Ok(Some(Locator(GitHubPrefix + owner, Some(""))))
  {
    var core := Join([owner, name], '/');
    var s := GitHubPrefix + core + "/";
    PlainIsShort(owner);
    PlainIsShort(name);
    CoreShape(owner, name);
    NoTail(GitHubPrefix + Join([owner, name, ""], '/'));
    assert s == GitHubPrefix + Join([owner, name, ""], '/') + "";
    GitHubSplit(core + "/");
    assert s == "https://" + ("github.com" + "/" + (core + "/"));
    ResolveFullUrl("github.com" + "/" + (core + "/"));
    LocateGitHubSub(owner, name, "", "");
    NoTail(GitHubPrefix + owner);
    ViaResolved(s, s);
  }

  /** `null`, `undefined` and the empty string resolve to `null`. */
  lemma EmptyLocator()
    ensures MakeGitURL(None) == Ok(None)
    ensures MakeGitURL(Some("")) == Ok(None)
  {
  }

  /** A string that is neither a short form nor an http(s) URL resolves to `null`. */
  lemma NeitherFormIsNull(s: string)
    requires !MatchesGitHubPath(s)
    requires !StartsWith(s, "http://") && !StartsWith(s, "https://")
    ensures MakeGitURL(Some(s)) == Ok(None)
  {
  }

  /** A URL whose pathname splits into fewer than three or more than four parts resolves to `null`. */
  lemma SegmentCountOutOfRange(s: string)
    requires !MatchesGitHubPath(s)
    requires StartsWith(s, "http://") || StartsWith(s, "https://")
    requires ParseUrl(s).Ok?
    requires |Split(ParseUrl(s).value.pathname, '/')| < 3 || |Split(ParseUrl(s).value.pathname, '/')| > 4
    ensures MakeGitURL(Some(s)) == Ok(None)
  {
  }

  lemma EmptyHostIn(slashes: string, rest: string)
    requires forall k :: 0 <= k < |slashes| ==> IsSlash(slashes[k])
    requires rest == [] || rest[0] in PathEnd
    ensures EmptyHost(slashes + rest)
  {
    var x := slashes + rest;
    if rest != [] {
      assert x[|slashes|] == rest[0];
    }
    LeadingSlashesAre(x, |slashes|);
  }

  /**
   * When only slashes come between `http(s)://` and the end or a query or
   * fragment, the host is empty and the URL constructor throws.
   */
  lemma EmptyHostThrows(slashes: string, rest: string)
    requires forall k :: 0 <= k < |slashes| ==> IsSlash(slashes[k])
    requires rest == [] || rest[0] in PathEnd
    ensures MakeGitURL(Some("https://" + slashes + rest)).Err?
    ensures MakeGitURL(Some("http://" + slashes + rest)).Err?
  {
    var x := slashes + rest;
    assert "https://" + slashes + rest == "https://" + x;
    assert "http://" + slashes + rest == "http://" + x;
    EmptyHostIn(slashes, rest);
    ResolveFullUrl(x);
    ParseHttps(x);
    ParseHttp(x);
    ViaResolved("https://" + x, "https://" + x);
    ViaResolved("http://" + x, "http://" + x);
  }

  /** The examples of whisk/tests.js. */
  lemma TestTable()
    ensures MakeGitURL(Some("")) == Ok(None)
    ensures MakeGitURL(None) == Ok(None)
    ensures MakeGitURL(Some("https://github.com/user/repo")) == Ok(Some(Locator("https://github.com/user/repo", None)))
    ensures MakeGitURL(Some("http://github.com/user/repo")) == Ok(Some(Locator("http://github.com/user/repo", None)))
    ensures MakeGitURL(Some("user/repo")) == Ok(Some(Locator("https://github.com/user/repo", None)))
    ensures MakeGitURL(Some("/user/repo")) == Ok(Some(Locator("https://github.com/user/repo", None)))
    ensures MakeGitURL(Some("user/repo/")) == Ok(Some(Locator("https://github.com/user/repo", None)))
    ensures MakeGitURL(Some("/user/repo/")) == Ok(Some(Locator("https://github.com/user/repo", None)))
    ensures MakeGitURL(Some("user/repo/folder")) == Ok(Some(Locator("https://github.com/user/repo", Some("folder"))))
  {
    PlainWords();
    JoinUserRepo();
    JoinUserRepoFolder();
    WordConcats();
    ShortFormIgnoresSlashes("user", "repo");
    ShortFormWithSubdir("user", "repo", "folder");
    FullHttpsUrlKept("user", "repo");
    FullHttpUrlKept("user", "repo");
  }

  // The inputs on which `new url.URL` differs from splitting the string on `/`.

  /** A fragment after the subdirectory stays on the repository URL. */
  lemma FragmentAfterSubExample()
    ensures MakeGitURL(Some("owner/name/s#x")) == Ok(Some(Locator("https://github.com/owner/name#x", Some("s"))))
  {
    ExampleWords();
    FragmentAfterSubStrings();
    ShortFormFragment("owner", "name", "s", "x");
  }

  lemma FragmentAfterSubStrings()
    ensures "s" + "#" + "x" == "s#x"
    ensures Join(["owner", "name", "s#x"], '/') == "owner/name/s#x"
    ensures GitHubPrefix + Join(["owner", "name"], '/') + "#" + "x" == "https://github.com/owner/name#x"
  {
    assert ["owner", "name", "s#x"][1..] == ["name", "s#x"] && ["name", "s#x"][1..] == ["s#x"];
    assert ["owner", "name"][1..] == ["name"];
    assert Join(["owner", "name"], '/') == "owner/name";
    assert GitHubPrefix + "owner/name" == "https://github.com/owner/name";
  }

  /** A `#` in the owner leaves a one-segment pathname. */
  lemma FragmentInOwnerExample()
    ensures MakeGitURL(Some("o#x/name")) == Ok(None)
  {
    ExampleWords();
    FragmentInOwnerStrings();
    ShortFormFragmentInOwner("o", "x", "name");
  }

  lemma FragmentInOwnerStrings()
    ensures "o" + "#" + "x" == "o#x"
    ensures Join(["o#x", "name"], '/') == "o#x/name"
  {
    assert ["o#x", "name"][1..] == ["name"];
  }

  /** Slashes inside the fragment are not path separators. */
  lemma FragmentWithSlashesExample()
    ensures MakeGitURL(Some("https://github.com/a/b/c#/d/e")) == Ok(Some(Locator("https://github.com/a/b#/d/e", Some("c"))))
  {
    ExampleWords();
    FragmentWithSlashesStrings();
    FullUrlWithTail("a", "b", "c", "#/d/e");
  }

  lemma FragmentWithSlashesStrings()
    ensures ("#/d/e")[0] in PathEnd
    ensures GitHubPrefix + Join(["a", "b", "c"], '/') + "#/d/e" == "https://github.com/a/b/c#/d/e"
    ensures GitHubPrefix + Join(["a", "b"], '/') + "#/d/e" == "https://github.com/a/b#/d/e"
  {
    JoinABC();
    JoinAB();
    assert GitHubPrefix + "a/b/c" + "#/d/e" == "https://github.com/a/b/c#/d/e" by {
      assert GitHubPrefix + "a/b/c" == "https://github.com/a/b/c";
    }
    assert GitHubPrefix + "a/b" + "#/d/e" == "https://github.com/a/b#/d/e" by {
      assert GitHubPrefix + "a/b" == "https://github.com/a/b";
    }
  }

  lemma JoinABC()
    ensures Join(["a", "b", "c"], '/') == "a/b/c"
  {
    assert ["a", "b", "c"][1..] == ["b", "c"] && ["b", "c"][1..] == ["c"];
  }

  lemma JoinAB()
    ensures Join(["a", "b"], '/') == "a/b"
  {
    assert ["a", "b"][1..] == ["b"];
  }

  /** An extra slash before the host makes the owner the host. */
  lemma ExtraSlashExample()
    ensures MakeGitURL(Some("https:///owner/name")) == Ok(None)
  {
    ExampleWords();
    ExtraSlashStrings();
    ExtraSlashSkipsHost("owner", "name");
  }

  lemma ExtraSlashStrings()
    ensures "https:///" + Join(["owner", "name"], '/') == "https:///owner/name"
  {
    assert ["owner", "name"][1..] == ["name"];
  }

  /** A `..` segment removes the segment before it while the pathname is parsed. */
  lemma DoubleDotDropsParent(a: string, x: string, b: string)
    requires PlainSegment(a) && PlainSegment(x) && PlainSegment(b)
    ensures Pathname("/" + Join([a, x, "..", b], '/')) == "/" + Join([a, b], '/')
  {
    var segs := [a, x, "..", b];
    var p := "/" + Join(segs, '/');
    DotDot();
    PlainLacks(a);
    PlainLacks(x);
    PlainLacks(b);
    assert forall k :: 0 <= k < |segs| ==> '\\' !in segs[k] && '/' !in segs[k];
    JoinLacks(segs, '\\');
    BackslashFree(p);
    assert p[1..] == Join(segs, '/');
    SplitJoin(segs, '/');
    WalkDropsParent(a, x, b);
    PathnameFrom(p, segs, [a, b]);
  }

  lemma DotDot()
    ensures DoubleDot("..") && '\\' !in ".." && '/' !in ".."
  {
    assert LowerWord("..");
    LowerKeeps("..");
  }

  lemma WalkDropsParent(a: string, x: string, b: string)
    requires PlainSegment(a) && PlainSegment(x) && PlainSegment(b)
    ensures WalkPath([], [a, x, "..", b]) == [a, b]
  {
    KeptNotDot(a);
    KeptNotDot(x);
    KeptNotDot(b);
    DotDot();
    WalkKeep([], a, [x, "..", b]);
    WalkKeep([a], x, ["..", b]);
    WalkUp([a, x], "..", [b]);
    WalkKeep([a], b, []);
    assert [a] + [x, "..", b] == [a, x, "..", b] && [x] + ["..", b] == [x, "..", b];
    assert [] + [a] == [a] && [a] + [x] == [a, x] && [a, x][..1] == [a] && [a] + [b] == [a, b];
  }

  /** A segment that is not a dot segment is appended to the path. */
  lemma WalkKeep(acc: seq<string>, seg: string, rest: seq<string>)
    requires !SingleDot(seg) && !DoubleDot(seg)
    ensures WalkPath(acc, [seg] + rest) == WalkPath(acc + [seg], rest)
  {
    assert ([seg] + rest)[1..] == rest;
  }

  /** A double-dot segment that is not the last removes the last segment of the path. */
  lemma WalkUp(acc: seq<string>, seg: string, rest: seq<string>)
    requires DoubleDot(seg) && rest != [] && acc != []
    ensures WalkPath(acc, [seg] + rest) == WalkPath(acc[..|acc| - 1], rest)
  {
    assert ([seg] + rest)[1..] == rest;
    assert acc[..|acc| - 1] + [] == acc[..|acc| - 1];
  }

  lemma BackslashFree(s: string)
    requires '\\' !in s
    ensures Backslashes(s) == s
  {
  }

  /** `Pathname` from the segments of its text and the outcome of the path state over them. */
  lemma PathnameFrom(p: string, segs: seq<string>, walked: seq<string>)
    requires p != [] && IsSlash(p[0])
    requires Split(Backslashes(p)[1..], '/') == segs && WalkPath([], segs) == walked
    ensures Pathname(p) == "/" + Join(walked, '/')
  {
  }

  /** Nothing but slashes after the scheme: no host. */
  lemma NoHostExample()
    ensures MakeGitURL(Some("https:///")).Err?
  {
    assert "https://" + "/" + "" == "https:///";
    EmptyHostThrows("/", "");
  }

  lemma ExampleWords()
    ensures PlainSegment("owner") && PlainSegment("name") && PlainSegment("s") && PlainSegment("o")
    ensures PlainSegment("a") && PlainSegment("b") && PlainSegment("c")
  {
    assert LowerWord("owner") && LowerWord("name") && LowerWord("s") && LowerWord("o");
    assert LowerWord("a") && LowerWord("b") && LowerWord("c");
    WordIsPlain("owner");
    WordIsPlain("name");
    WordIsPlain("s");
    WordIsPlain("o");
    WordIsPlain("a");
    WordIsPlain("b");
    WordIsPlain("c");
  }

  lemma PlainWords()
    ensures PlainSegment("user") && PlainSegment("repo") && PlainSegment("folder")
  {
    assert LowerWord("user") && LowerWord("repo") && LowerWord("folder");
    WordIsPlain("user");
    WordIsPlain("repo");
    WordIsPlain("folder");
  }

  lemma JoinUserRepo()
    ensures Join(["user", "repo"], '/') == "user/repo"
  {
    assert ["user", "repo"][1..] == ["repo"];
  }

  lemma JoinUserRepoFolder()
    ensures Join(["user", "repo", "folder"], '/') == "user/repo/folder"
  {
    assert ["user", "repo", "folder"][1..] == ["repo", "folder"];
    assert ["repo", "folder"][1..] == ["folder"];
  }

  lemma WordConcats()
    ensures "/" + "user/repo" == "/user/repo"
    ensures "user/repo" + "/" == "user/repo/"
    ensures "/" + "user/repo" + "/" == "/user/repo/"
    ensures GitHubPrefix + "user/repo" == "https://github.com/user/repo"
    ensures "http://github.com/" + "user/repo" == "http://github.com/user/repo"
  {
  }

  // ---------------------------------------------------------------------------
  // fetch, checkout, getHeadSHA, clone, getCachedRepoDir

  const MillisPerMinute: int := 60000

  /**
   * The cooldown gate of `fetch`: the network call is skipped when the
   * directory's mtime is newer than `now - cooldown * 60000`. `cooldown == None`
   * is an omitted argument: the bound is then `NaN` and the comparison is false.
   */
  predicate FetchSkipped(mtimeMs: int, nowMs: int, cooldown: Option<int>)
  {
    cooldown.Some? && mtimeMs > nowMs - MillisPerMinute * cooldown.value
  }

  /**
   * What `fetch` asks for as the directory's new mtime, in milliseconds:
   * untouched when skipped; otherwise `fs.utimesSync(dir, Date.now(), Date.now())`,
   * and a numeric time given to `utimesSync` is read as SECONDS, so the request is
   * `1000 * now` milliseconds.
   */
  function MtimeAfterFetch(mtimeMs: int, nowMs: int, cooldown: Option<int>): (m: int)
    ensures FetchSkipped(mtimeMs, nowMs, cooldown) ==> m == mtimeMs
    ensures !FetchSkipped(mtimeMs, nowMs, cooldown) ==> m == 1000 * nowMs
  {
    if FetchSkipped(mtimeMs, nowMs, cooldown) then mtimeMs else 1000 * nowMs
  }

  /** A directory touched less than `cooldown` minutes ago is not fetched again. */
  lemma RecentlyFetchedIsSkipped(mtimeMs: int, nowMs: int, cooldown: int)
    requires cooldown > 0 && nowMs - MillisPerMinute * cooldown < mtimeMs
    ensures FetchSkipped(mtimeMs, nowMs, Some(cooldown))
    ensures FetchSkipped(MtimeAfterFetch(mtimeMs, nowMs, Some(cooldown)), nowMs, Some(cooldown))
  {
  }

  /**
   * After a fetch that was not skipped, a second one at the same time with a
   * positive cooldown is skipped: the far-future mtime `1000 * now` exceeds
   * `now - cooldown * 60000` for every clock reading `now >= 0` (`Date.now()`
   * counts milliseconds since 1970).
   */
  lemma FetchThenRefetchSkipped(mtimeMs: int, nowMs: int, cooldown: int)
    requires cooldown > 0 && nowMs >= 0
    ensures FetchSkipped(MtimeAfterFetch(mtimeMs, nowMs, Some(cooldown)), nowMs, Some(cooldown))
    ensures !FetchSkipped(mtimeMs, nowMs, Some(cooldown)) ==> MtimeAfterFetch(mtimeMs, nowMs, Some(cooldown)) >= nowMs
  {
    if !FetchSkipped(mtimeMs, nowMs, Some(cooldown)) {
      assert 1000 * nowMs >= nowMs;
    }
  }

  /** With no cooldown argument the gate never skips, and the mtime is set to `now` read as seconds. */
  lemma MissingCooldownNeverSkips(mtimeMs: int, nowMs: int)
    ensures !FetchSkipped(mtimeMs, nowMs, None)
    ensures MtimeAfterFetch(mtimeMs, nowMs, None) == 1000 * nowMs
  {
  }

  /**
   * `getHeadSHA` as written: the text before the first tab on the SECOND line of
   * the `git ls-remote` output, trimmed; a missing second line makes the
   * `split` on `undefined` throw, which `getHeadSHA` reports as its own error
   * naming the URL it queried (`url` is that URL as the template literal prints it).
   */
  function HeadShaAsWritten(output: string, url: string): (r: Result<string>)
    ensures |Split(output, '\n')| < 2 <==> r.Err?
    ensures r.Err? ==> r.message == "Failed to get HEAD SHA for " + url
  {
    var lines := Split(output, '\n');
    if |lines| < 2 then Err("Failed to get HEAD SHA for " + url)
    else Ok(Trim(Split(lines[1], '\t')[0]))
  }

  /** `getHeadSHA` reading the first line, which is where `git ls-remote <url> HEAD` prints the hash. */
  function HeadSha(output: string): (r: string)
    ensures '\t' !in r && '\n' !in r
  {
    var first := Split(output, '\n')[0];
    var field := Split(first, '\t')[0];
    SplitFirstHasNoSeparator(output, '\n');
    SplitFirstHasNoSeparator(first, '\t');
    TrimKeepsAbsence(field, '\t');
    TrimKeepsAbsence(field, '\n');
    Trim(field)
  }

  lemma SplitFirstHasNoSeparator(s: string, c: char)
    ensures c !in Split(s, c)[0]
  {
    var i := IndexOf(s, c);
    if i >= 0 {
      assert Split(s, c)[0] == s[..i];
      assert forall k :: 0 <= k < i ==> s[..i][k] == s[k];
    }
  }

  /** `trim` returns a slice of its argument, so a character absent from it stays absent. */
  lemma TrimKeepsAbsence(s: string, c: char)
    requires c !in s
    ensures c !in Trim(s)
  {
    var t := TrimStart(s);
    var u := TrimEnd(t);
    var i := |s| - |t|;
    assert t == s[i..];
    assert u == t[..|u|] == s[i..i + |u|];
  }

  predicate IsHexDigit(c: char)
  {
    '0' <= c <= '9' || 'a' <= c <= 'f'
  }

  /** A hash made of hex digits survives `trim`. */
  lemma TrimHex(sha: string)
    requires forall k :: 0 <= k < |sha| ==> IsHexDigit(sha[k])
    ensures Trim(sha) == sha
  {
  }

  lemma HexHasNo(sha: string, c: char)
    requires forall k :: 0 <= k < |sha| ==> IsHexDigit(sha[k])
    requires !IsHexDigit(c)
    ensures c !in sha
  {
  }

  lemma NotInConcat(a: string, b: string, c: char)
    requires c !in a && c !in b
    ensures c !in a + b
  {
  }

  lemma LsRemoteShape(sha: string)
    ensures sha + "\tHEAD\n" == (sha + "\tHEAD") + "\n" + ""
    ensures sha + "\tHEAD" == sha + "\t" + "HEAD"
  {
  }

  /** A line `sha<TAB>HEAD<LF>` splits into `sha<TAB>HEAD` and an empty last line. */
  lemma LsRemoteLines(sha: string)
    requires '\n' !in sha
    ensures Split(sha + "\tHEAD\n", '\n') == [sha + "\tHEAD", ""]
  {
    NotInConcat(sha, "\tHEAD", '\n');
    LsRemoteShape(sha);
    SplitCons(sha + "\tHEAD", '\n', "");
    SplitNoSeparator("", '\n');
  }

  /** The first tab-separated field of `sha<TAB>HEAD` is `sha`. */
  lemma LsRemoteField(sha: string)
    requires '\t' !in sha
    ensures Split(sha + "\tHEAD", '\t')[0] == sha
  {
    LsRemoteShape(sha);
    SplitCons(sha, '\t', "HEAD");
  }

  /**
   * On the one-line output `sha<TAB>HEAD<LF>` of `git ls-remote`, the source's
   * expression yields the empty string, while the first line holds the hash.
   */
  lemma HeadShaReadsWrongLine(sha: string, url: string)
    requires forall k :: 0 <= k < |sha| ==> IsHexDigit(sha[k])
    ensures HeadShaAsWritten(sha + "\tHEAD\n", url) == Ok("")
    ensures HeadSha(sha + "\tHEAD\n") == sha
  {
    HexHasNo(sha, '\n');
    HexHasNo(sha, '\t');
    LsRemoteLines(sha);
    LsRemoteField(sha);
    assert Split("", '\t') == [""];
    assert Trim("") == "";
    TrimHex(sha);
  }

  /** How a JavaScript template literal prints an optional string: `undefined` when absent. */
  function VersionText(v: Option<string>): string
  {
    if v.Some? then v.value else "undefined"
  }

  /** The guard of `clone`: a falsy repository raises `Invalid repo`. */
  function CloneGuard(repo: Option<string>): (r: Result<string>)
    ensures r.Ok? <==> repo.Some? && repo.value != ""
    ensures r.Ok? ==> r.value == repo.value
  {
    if repo.None? || repo.value == "" then Err("Invalid repo: " + VersionText(repo)) else Ok(repo.value)
  }

  /**
   * `getCachedRepoDir(s)`: `<root>/.whisk/cache/<md5hex(s)>`. The hash function is
   * a parameter; `md5` accepts no `undefined`, which throws.
   */
  function CachedRepoDir(root: string, md5hex: string -> string, repo: Option<string>): (r: Result<string>)
    ensures repo.Some? ==> r == Ok(root + "/.whisk/cache/" + md5hex(repo.value))
    ensures repo.None? ==> r.Err?
  {
    if repo.None? then Err("The \"data\" argument must be of type string") else Ok(root + "/.whisk/cache/" + md5hex(repo.value))
  }

  /** Two locators share a cache directory exactly when their hashes agree; equal names always do. */
  lemma CacheDirDeterministic(root: string, md5hex: string -> string, a: string, b: string)
    ensures CachedRepoDir(root, md5hex, Some(a)) == CachedRepoDir(root, md5hex, Some(b)) <==> md5hex(a) == md5hex(b)
  {
    var pa := root + "/.whisk/cache/";
    if pa + md5hex(a) == pa + md5hex(b) {
      assert md5hex(a) == (pa + md5hex(a))[|pa|..];
    }
  }
}
