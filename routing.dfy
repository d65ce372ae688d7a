/**
  * Where a downloaded resource goes, decided from the request and from what
  * `fs.stat` reports about its `output` path: a single file written at the
  * path or inside the directory there, or an archive extracted into a
  * directory that is created when missing.
  */
module Routing {
  import opened Base
  import opened JsString
  import opened Request

  /** What `fs.stat(output)` found; a rejected `stat` is `Missing`. */
  datatype Stat = Missing | Directory | RegularFile | OtherKind

  /** The filesystem action chosen for a request. */
  datatype Placement =
    | WriteNewFile(path: string)
    | WriteIntoDirectory(path: string)
    | OverwriteFile(path: string)
    | CreateDirectory(path: string, mode: nat)
    | ReuseDirectory(path: string)
  {
    predicate Extracts() {
      CreateDirectory? || ReuseDirectory?
    }
  }

  /** `fs.mkdir(output, 0o755)`. */
  const DirectoryMode: nat := 0x1ED

  /** The path with every trailing `/` removed. */
  function TrimTrailingSlashes(p: string): (r: string)
    ensures |r| <= |p| && r == p[..|r|] && (r == [] || r[|r| - 1] != '/')
    ensures forall k :: |r| <= k < |p| ==> p[k] == '/'
    decreases |p|
  {
    if |p| > 0 && p[|p| - 1] == '/' then TrimTrailingSlashes(p[..|p| - 1]) else p
  }

  /** The text after the last `/`. */
  function LastSegment(p: string): (r: string)
    ensures '/' !in r
    ensures |r| <= |p| && r == p[|p| - |r|..]
    ensures |r| < |p| ==> p[|p| - |r| - 1] == '/'
    decreases |p|
  {
    if |p| == 0 || p[|p| - 1] == '/' then ""
    else
      var q := p[..|p| - 1];
      var r' := LastSegment(q);
      assert q[|q| - |r'|..] + [p[|p| - 1]] == p[|q| - |r'|..];
      r' + [p[|p| - 1]]
  }

  /** `path.basename(p)` for POSIX paths: the last segment, trailing slashes ignored. */
  function Basename(p: string): (r: string)
    ensures '/' !in r
  {
    LastSegment(TrimTrailingSlashes(p))
  }

  /** The last segment after a `/`, or at the start, is everything after that point. */
  lemma {:induction false} LastSegmentAfterSlash(prefix: string, segment: string)
    requires '/' !in segment
    requires prefix == [] || prefix[|prefix| - 1] == '/'
    ensures LastSegment(prefix + segment) == segment
    decreases |segment|
  {
    if |segment| == 0 {
      assert prefix + segment == prefix;
    } else {
      var p := prefix + segment;
      var init := segment[..|segment| - 1];
      var last := segment[|segment| - 1];
      assert last in segment;
      assert '/' !in init by {
        assert forall c :: c in init ==> c in segment;
      }
      assert p[..|p| - 1] == prefix + init;
      assert p[|p| - 1] == last;
      LastSegmentAfterSlash(prefix, init);
      assert LastSegment(p) == LastSegment(prefix + init) + [last];
      assert init + [last] == segment;
    }
  }

  /** A segment after a `/`, or alone, is the basename again. */
  lemma BasenameAfterSlash(prefix: string, segment: string)
    requires segment != [] && '/' !in segment
    requires prefix == [] || prefix[|prefix| - 1] == '/'
    ensures Basename(prefix + segment) == segment
  {
    var p := prefix + segment;
    assert TrimTrailingSlashes(p) == p by {
      assert p[|p| - 1] == segment[|segment| - 1];
    }
    LastSegmentAfterSlash(prefix, segment);
  }

  /** The basename of `dir/segment` is `segment`. */
  lemma BasenameOfJoin(dir: string, segment: string)
    requires segment != [] && '/' !in segment
    ensures Basename(dir + "/" + segment) == segment
  {
    assert dir + "/" + segment == (dir + "/") + segment;
    BasenameAfterSlash(dir + "/", segment);
  }

  /** A trailing `/` does not change the basename: `dir/` names `dir`. */
  lemma BasenameIgnoresTrailingSlash(p: string)
    ensures Basename(p + "/") == Basename(p)
  {
    assert (p + "/")[..|p|] == p;
  }

  /** `path.basename("/<dir>/")` is `<dir>`: the trailing `/` of a directory path is ignored. */
  lemma BasenameOfDirectoryPath(dir: string)
    requires dir != [] && '/' !in dir
    ensures Basename("/" + dir + "/") == dir
  {
    BasenameIgnoresTrailingSlash("/" + dir);
    BasenameAfterSlash("/", dir);
  }

  /** A path segment that `path.normalize` keeps as it is: not empty, not `.` or `..`, no `/`. */
  predicate PlainSegment(s: string) {
    s != "" && s != "." && s != ".." && '/' !in s
  }

  /**
    * One segment added to those kept so far, as `path.normalize` does: empty
    * segments and `.` vanish, `..` removes the previous segment unless that
    * is `..` too, and above the start it vanishes for an absolute path and
    * stays for a relative one.
    */
  function PushSegment(kept: seq<string>, segment: string, absolute: bool): (next: seq<string>) {
    if segment == "" || segment == "." then kept
    else if segment == ".." then
      if |kept| > 0 && kept[|kept| - 1] != ".." then kept[..|kept| - 1]
      else if absolute then kept
      else kept + [".."]
    else kept + [segment]
  }

  /** The segments that remain after every segment is pushed, left to right. */
  function NormalSegments(segments: seq<string>, absolute: bool): (kept: seq<string>)
    ensures forall k :: 0 <= k < |kept| ==> kept[k] != "" && kept[k] != "."
    ensures absolute ==> forall k :: 0 <= k < |kept| ==> kept[k] != ".."
    decreases |segments|
  {
    if |segments| == 0 then []
    else PushSegment(NormalSegments(segments[..|segments| - 1], absolute), segments[|segments| - 1], absolute)
  }

  /** The segments joined with `/`; no segment gives the empty string. */
  function JoinSegments(segments: seq<string>): (joined: string) {
    if segments == [] then "" else Join(segments, '/')
  }

  /**
    * `path.normalize(p)` for POSIX paths: the normal segments, a leading `/`
    * for an absolute path, a trailing `/` kept, and `.` for a relative path
    * with nothing left.
    */
  function Normalize(p: string): (r: string)
    ensures r != ""
  {
    if p == "" then "."
    else
      var absolute := p[0] == '/';
      var trailing := p[|p| - 1] == '/';
      var body := JoinSegments(NormalSegments(Split(p, '/'), absolute));
      var body' := if body == "" && !absolute then "." else body;
      var withSlash := if body' != "" && trailing then body' + "/" else body';
      if absolute then "/" + withSlash else withSlash
  }

  /** `path.join(dir, base)`: the non-empty arguments joined with `/`, then normalised; `.` when both are empty. */
  function PathJoin(dir: string, base: string): (r: string)
    ensures r != ""
  {
    if dir == "" && base == "" then "."
    else if dir == "" then Normalize(base)
    else if base == "" then Normalize(dir)
    else Normalize(dir + "/" + base)
  }

  /**
    * What `path.join` puts in front of a plain segment appended to `dir`: the
    * normalised directory and a `/`, or nothing when the directory normalises
    * to `.`, or just `/` for the root.
    */
  function DirPrefix(dir: string): (prefix: string)
    ensures prefix == [] || prefix[|prefix| - 1] == '/'
  {
    var absolute := dir != "" && dir[0] == '/';
    var kept := NormalSegments(Split(dir, '/'), absolute);
    (if absolute then "/" else "") + (if kept == [] then "" else JoinSegments(kept) + "/")
  }

  /** A separator before a separator-free tail adds the tail as the last piece. */
  lemma {:induction false} SplitBeforeSuffix(a: string, b: string, separator: char)
    requires separator !in b
    ensures Split(a + [separator] + b, separator) == Split(a, separator) + [b]
    decreases |a|
  {
    var s := a + [separator] + b;
    if |a| == 0 {
      assert s == [separator] + b;
      assert s[1..] == b;
      SplitNoSeparator(b, separator);
    } else {
      assert s[1..] == a[1..] + [separator] + b;
      SplitBeforeSuffix(a[1..], b, separator);
    }
  }

  /** Joining one more piece appends a separator and the piece. */
  lemma {:induction false} JoinAppend(parts: seq<string>, last: string, separator: char)
    requires |parts| >= 1
    ensures Join(parts + [last], separator) == Join(parts, separator) + [separator] + last
    decreases |parts|
  {
    var all := parts + [last];
    if |parts| > 1 {
      assert all[1..] == parts[1..] + [last];
      JoinAppend(parts[1..], last, separator);
    }
  }

  /** Plain segments are kept as they are, after whatever the earlier segments left. */
  lemma {:induction false} PlainSegmentsKept(prefix: seq<string>, segments: seq<string>, absolute: bool)
    requires forall k :: 0 <= k < |segments| ==> PlainSegment(segments[k])
    ensures NormalSegments(prefix + segments, absolute) == NormalSegments(prefix, absolute) + segments
    decreases |segments|
  {
    if |segments| == 0 {
      assert prefix + segments == prefix;
    } else {
      var all := prefix + segments;
      var init := segments[..|segments| - 1];
      assert all[..|all| - 1] == prefix + init;
      assert all[|all| - 1] == segments[|segments| - 1];
      PlainSegmentsKept(prefix, init, absolute);
      assert init + [segments[|segments| - 1]] == segments;
    }
  }

  /** A plain segment on its own is already normal. */
  lemma NormalizePlainSegment(base: string)
    requires PlainSegment(base)
    ensures Normalize(base) == base
  {
    SplitNoSeparator(base, '/');
    assert base[0] != '/' by {
      assert base[0] in base;
    }
    assert base[|base| - 1] != '/' by {
      assert base[|base| - 1] in base;
    }
    assert NormalSegments([base], false) == [base] by {
      assert [base][..0] == [];
    }
    assert Join([base], '/') == base;
  }

  /** The normal segments of `dir/base` are those of `dir` followed by the plain segment `base`. */
  lemma NormalSegmentsOfJoined(dir: string, base: string, absolute: bool)
    requires PlainSegment(base)
    ensures NormalSegments(Split(dir + "/" + base, '/'), absolute)
      == NormalSegments(Split(dir, '/'), absolute) + [base]
  {
    assert Split(dir + "/" + base, '/') == Split(dir, '/') + [base] by {
      assert dir + "/" + base == dir + ['/'] + base;
      SplitBeforeSuffix(dir, base, '/');
    }
    PlainSegmentsKept(Split(dir, '/'), [base], absolute);
  }

  /** Joining the kept segments and one more plain segment. */
  lemma JoinSegmentsAppend(kept: seq<string>, base: string)
    ensures JoinSegments(kept + [base]) == (if kept == [] then "" else JoinSegments(kept) + "/") + base
  {
    if kept == [] {
      assert kept + [base] == [base];
    } else {
      JoinAppend(kept, base, '/');
    }
  }

  /** `path.normalize` of a non-empty directory, a `/` and a plain segment. */
  lemma NormalizeJoined(dir: string, base: string)
    requires dir != "" && PlainSegment(base)
    ensures Normalize(dir + "/" + base) == DirPrefix(dir) + base
  {
    var p := dir + "/" + base;
    var absolute := dir[0] == '/';
    assert p[0] == dir[0];
    assert p[|p| - 1] != '/' by {
      assert p[|p| - 1] == base[|base| - 1] && base[|base| - 1] in base;
    }
    var kept := NormalSegments(Split(dir, '/'), absolute);
    var segments := NormalSegments(Split(p, '/'), absolute);
    assert segments == kept + [base] by {
      NormalSegmentsOfJoined(dir, base, absolute);
    }
    var body := JoinSegments(segments);
    assert body == (if kept == [] then "" else JoinSegments(kept) + "/") + base by {
      JoinSegmentsAppend(kept, base);
    }
    assert body != "";
    assert Normalize(p) == (if absolute then "/" else "") + body;
  }

  /** A plain segment joined to any directory ends the path, after the directory's prefix. */
  lemma PathJoinPlain(dir: string, base: string)
    requires PlainSegment(base)
    ensures PathJoin(dir, base) == DirPrefix(dir) + base
    ensures Basename(PathJoin(dir, base)) == base
  {
    if dir == "" {
      NormalizePlainSegment(base);
      assert Split(dir, '/') == [""];
      assert NormalSegments([""], false) == [];
    } else {
      NormalizeJoined(dir, base);
    }
    BasenameAfterSlash(DirPrefix(dir), base);
  }

  /** The current directory, written `.` or left empty, puts nothing in front. */
  lemma DirPrefixOfCurrent(dir: string)
    requires dir == "." || dir == ""
    ensures DirPrefix(dir) == ""
  {
    if dir == "." {
      assert Split(".", '/') == ["."] by {
        SplitNoSeparator(".", '/');
      }
      assert NormalSegments(["."], false) == [] by {
        assert ["."][..0] == [];
      }
    } else {
      assert Split("", '/') == [""];
      assert NormalSegments([""], false) == [];
    }
  }

  /** Every piece of a path made of plain segments is plain. */
  predicate PlainPath(p: string) {
    forall k :: 0 <= k < |Split(p, '/')| ==> PlainSegment(Split(p, '/')[k])
  }

  /** A path of plain segments is neither empty nor absolute. */
  lemma PlainPathShape(dir: string)
    requires PlainPath(dir)
    ensures dir != "" && dir[0] != '/'
  {
    assert PlainSegment(Split(dir, '/')[0]);
  }

  /** A path of plain segments is its own normal form, so it is followed by one `/`. */
  lemma DirPrefixOfPlainPath(dir: string)
    requires PlainPath(dir)
    ensures DirPrefix(dir) == dir + "/"
  {
    var segments := Split(dir, '/');
    PlainPathShape(dir);
    assert NormalSegments(segments, false) == segments by {
      PlainSegmentsKept([], segments, false);
      assert [] + segments == segments;
    }
    JoinSplit(dir, '/');
  }

  /** A plain path with a trailing `/` has the same prefix as without it, which is the path itself. */
  lemma DirPrefixOfTrailingSlash(dir: string)
    requires PlainPath(dir)
    ensures DirPrefix(dir + "/") == dir + "/"
  {
    DirPrefixOfPlainPath(dir);
    var p := dir + "/";
    var segments := Split(dir, '/');
    PlainPathShape(dir);
    assert p[0] == dir[0];
    assert Split(p, '/') == segments + [""] by {
      assert p == dir + ['/'] + "";
      SplitBeforeSuffix(dir, "", '/');
    }
    assert NormalSegments(segments + [""], false) == NormalSegments(segments, false) by {
      assert (segments + [""])[..|segments|] == segments;
    }
  }

  /** The first position in `s` holding one of `stops`, or `|s|`. */
  function FirstOf(s: string, stops: set<char>): (i: nat)
    ensures i <= |s| && (i < |s| ==> s[i] in stops)
    ensures forall j :: 0 <= j < i ==> s[j] !in stops
    decreases |s|
  {
    if |s| == 0 || s[0] in stops then 0 else 1 + FirstOf(s[1..], stops)
  }

  /** What follows the first `://` of a URL: the host, then path, query and fragment. */
  function AfterScheme(url: string): (rest: string) {
    match IndexOf(url, "://")
    case Some(i) => url[i + 3..]
    case None => url
  }

  /** What follows the host: the text from the first `/`, `?` or `#` on. */
  function AfterHost(rest: string): (tail: string)
    ensures tail == [] || tail[0] in {'/', '?', '#'}
  {
    rest[FirstOf(rest, {'/', '?', '#'})..]
  }

  /** The text before the first `?` or `#`. */
  function BeforeQuery(path: string): (r: string)
    ensures '?' !in r && '#' !in r
  {
    var r := path[..FirstOf(path, {'?', '#'})];
    assert forall k :: 0 <= k < |r| ==> r[k] != '?' && r[k] != '#';
    r
  }

  /**
    * A character that `new URL` keeps as written in a host or a path:
    * printable ASCII other than `%`, `\`, and the characters a path
    * percent-encodes. Tabs, line breaks and spaces, which the URL parser
    * removes, trims or encodes, are excluded.
    */
  predicate UrlLiteral(c: char) {
    '!' <= c <= '~' && c != '"' && c != '%' && c != '<' && c != '>' && c != '\\' && c != '`' && c != '{' && c != '}'
  }

  /**
    * `new URL(input).pathname` for an http(s) URL: what follows the host, up
    * to a query or fragment, and `/` when that is empty.
    */
  function UrlPathname(url: string): (pathname: string)
    ensures pathname != [] && pathname[0] == '/'
    ensures '?' !in pathname && '#' !in pathname
  {
    var path := BeforeQuery(AfterHost(AfterScheme(url)));
    if path == "" then "/" else path
  }

  /**
    * The routing decision of the API after the download (single file) or
    * before the extraction (archive); its `path` is the value that
    * `request.output` holds afterwards.
    */
  function Route(r: FetchRequest, stat: Stat): (result: Result<Placement, FetchError>)
    ensures result.Err? <==> stat == OtherKind || (r.extract && stat == RegularFile)
    ensures result.Err? ==>
      result.error == (if r.extract then NotADirectory(r.output) else NeitherDirectoryNorFile(r.output))
    ensures result.Ok? ==> result.value.Extracts() == r.extract
    ensures result.Ok? && !(stat == Directory && !r.extract) ==> result.value.path == r.output
    ensures result.Ok? && result.value.CreateDirectory? ==> stat == Missing && result.value.mode == DirectoryMode
    ensures !r.extract && stat == Directory && PlainSegment(Basename(UrlPathname(r.input))) ==>
      var base := Basename(UrlPathname(r.input));
      result.value.path == DirPrefix(r.output) + base && Basename(result.value.path) == base
  {
    if !r.extract then
      match stat
      case Directory =>
        var base := Basename(UrlPathname(r.input));
        if PlainSegment(base) then
          PathJoinPlain(r.output, base);
          Ok(WriteIntoDirectory(PathJoin(r.output, base)))
        else Ok(WriteIntoDirectory(PathJoin(r.output, base)))
      case OtherKind => Err(NeitherDirectoryNorFile(r.output))
      case Missing => Ok(WriteNewFile(r.output))
      case RegularFile => Ok(OverwriteFile(r.output))
    else
      match stat
      case Missing => Ok(CreateDirectory(r.output, DirectoryMode))
      case Directory => Ok(ReuseDirectory(r.output))
      case _ => Err(NotADirectory(r.output))
  }

  /**
    * Without `extract`, an existing directory receives the file under the
    * basename of the URL path, whatever the form of the output path: the
    * path is the directory's prefix followed by that basename.
    */
  lemma SingleFileIntoDirectory(r: FetchRequest)
    requires !r.extract
    requires PlainSegment(Basename(UrlPathname(r.input)))
    ensures var result := Route(r, Directory);
      var base := Basename(UrlPathname(r.input));
      result.Ok? && result.value.WriteIntoDirectory?
      && Basename(result.value.path) == base
      && result.value.path == DirPrefix(r.output) + base
  {
  }

  /** The default output `.`, or an empty one, receives the file under its basename alone. */
  lemma IntoCurrentDirectory(r: FetchRequest)
    requires !r.extract && (r.output == "." || r.output == "")
    requires PlainSegment(Basename(UrlPathname(r.input)))
    ensures Route(r, Directory) == Ok(WriteIntoDirectory(Basename(UrlPathname(r.input))))
  {
    DirPrefixOfCurrent(r.output);
    IntoEmptyPrefix(r);
  }

  /** The single-file placement in a directory that puts nothing in front of the basename. */
  lemma IntoEmptyPrefix(r: FetchRequest)
    requires !r.extract && PlainSegment(Basename(UrlPathname(r.input)))
    requires DirPrefix(r.output) == ""
    ensures Route(r, Directory) == Ok(WriteIntoDirectory(Basename(UrlPathname(r.input))))
  {
    SingleFileIntoDirectory(r);
    assert "" + Basename(UrlPathname(r.input)) == Basename(UrlPathname(r.input));
  }

  /** An output made of plain segments gets one `/` and the basename. */
  lemma IntoPlainDirectory(r: FetchRequest)
    requires !r.extract && PlainPath(r.output)
    requires PlainSegment(Basename(UrlPathname(r.input)))
    ensures Route(r, Directory) == Ok(WriteIntoDirectory(r.output + "/" + Basename(UrlPathname(r.input))))
  {
    DirPrefixOfPlainPath(r.output);
  }

  /** An output of plain segments with a trailing `/` gets the basename right after it. */
  lemma IntoDirectoryWithSlash(r: FetchRequest, dir: string)
    requires !r.extract && PlainPath(dir) && r.output == dir + "/"
    requires PlainSegment(Basename(UrlPathname(r.input)))
    ensures Route(r, Directory) == Ok(WriteIntoDirectory(r.output + Basename(UrlPathname(r.input))))
  {
    DirPrefixOfTrailingSlash(dir);
  }

  /**
    * Every stat result is handled: each of the five placements arises for
    * exactly one combination of `extract` and the kind of path found.
    */
  lemma RouteCases(r: FetchRequest, stat: Stat)
    ensures var result := Route(r, stat);
      (result.Ok? && result.value.WriteNewFile? <==> !r.extract && stat == Missing)
      && (result.Ok? && result.value.WriteIntoDirectory? <==> !r.extract && stat == Directory)
      && (result.Ok? && result.value.OverwriteFile? <==> !r.extract && stat == RegularFile)
      && (result.Ok? && result.value.CreateDirectory? <==> r.extract && stat == Missing)
      && (result.Ok? && result.value.ReuseDirectory? <==> r.extract && stat == Directory)
  {
  }

  /** A string none of whose characters is a stop has no stop position. */
  lemma FirstOfNone(s: string, stops: set<char>)
    requires forall c :: c in s ==> c !in stops
    ensures FirstOf(s, stops) == |s|
  {
    var k := FirstOf(s, stops);
    assert forall j :: 0 <= j < |s| ==> s[j] in s;
  }

  /** The first stop of `a + b` is where `b` begins when `a` has none and `b` starts with one. */
  lemma FirstOfAfter(a: string, b: string, stops: set<char>)
    requires forall c :: c in a ==> c !in stops
    requires b != [] && b[0] in stops
    ensures FirstOf(a + b, stops) == |a|
  {
    var s := a + b;
    assert s[|a|] == b[0];
    assert forall j :: 0 <= j < |a| ==> s[j] == a[j] && a[j] in a;
  }

  /** The first stop of `a + b` is where `b` begins when `a` has none and `b` is empty or starts with one. */
  lemma FirstOfAt(a: string, b: string, stops: set<char>)
    requires forall c :: c in a ==> c !in stops
    requires b == [] || b[0] in stops
    ensures FirstOf(a + b, stops) == |a|
  {
    if b == [] {
      assert a + b == a;
      FirstOfNone(a, stops);
    } else {
      FirstOfAfter(a, b, stops);
    }
  }

  /** In `<scheme>://<rest>` with a scheme free of `:`, the separator is found right after the scheme. */
  lemma SchemeSeparator(scheme: string, rest: string)
    requires ':' !in scheme
    ensures AfterScheme(scheme + "://" + rest) == rest
  {
    var url := scheme + "://" + rest;
    assert url[|scheme|..|scheme| + 3] == "://";
    assert OccursAt(url, "://", |scheme|);
    forall j: nat | j < |scheme| ensures !OccursAt(url, "://", j) {
      assert url[j] == scheme[j] && scheme[j] in scheme;
    }
    assert IndexOf(url, "://") == Some(|scheme|);
    assert url[|scheme| + 3..] == rest;
  }

  /** A host free of `/`, `?` and `#` ends where the path, query or fragment begins. */
  lemma AfterHostIs(host: string, tail: string)
    requires forall c :: c in host ==> c != '/' && c != '?' && c != '#'
    requires tail == [] || tail[0] in {'/', '?', '#'}
    ensures AfterHost(host + tail) == tail
  {
    FirstOfAt(host, tail, {'/', '?', '#'});
    assert (host + tail)[|host|..] == tail;
  }

  /** A path free of `?` and `#` ends where the query or fragment begins. */
  lemma BeforeQueryIs(path: string, tail: string)
    requires forall c :: c in path ==> c != '?' && c != '#'
    requires tail == [] || tail[0] == '?' || tail[0] == '#'
    ensures BeforeQuery(path + tail) == path
  {
    FirstOfAt(path, tail, {'?', '#'});
    assert (path + tail)[..|path|] == path;
  }

  /**
    * For `http://` or `https://`, a non-empty host free of `/`, `?` and
    * `#`, a path that is empty or starts with `/` and holds no `?` or `#`,
    * both written in characters the URL parser keeps as they are, and then
    * an optional query or fragment, the pathname is the path, or `/` when
    * the path is empty.
    */
  lemma HttpPathname(scheme: string, host: string, path: string, tail: string)
    requires scheme == "http" || scheme == "https"
    requires host != [] && forall c :: c in host ==> UrlLiteral(c) && c != '/' && c != '?' && c != '#'
    requires path == [] || path[0] == '/'
    requires forall c :: c in path ==> UrlLiteral(c) && c != '?' && c != '#'
    requires tail == [] || tail[0] == '?' || tail[0] == '#'
    ensures UrlPathname(scheme + "://" + host + path + tail) == if path == [] then "/" else path
  {
    var url := scheme + "://" + host + path + tail;
    var rest := host + (path + tail);
    assert url == scheme + "://" + rest;
    assert AfterScheme(url) == rest by {
      assert ':' !in scheme;
      SchemeSeparator(scheme, rest);
    }
    assert AfterHost(rest) == path + tail by {
      assert path + tail == [] || (path + tail)[0] in {'/', '?', '#'};
      AfterHostIs(host, path + tail);
    }
    BeforeQueryIs(path, tail);
  }

  /**
    * Writing `https://<host><dir>/<file>` into an existing directory `out`
    * without extraction gives `out/<file>`: with `x`, `/y` and
    * `file.tar.gz`, the file `out/file.tar.gz`.
    */
  lemma DirectoryExample(r: FetchRequest, host: string, dir: string, file: string)
    requires host != [] && forall c :: c in host ==> UrlLiteral(c) && c != '/' && c != '?' && c != '#'
    requires dir == [] || dir[0] == '/'
    requires forall c :: c in dir ==> UrlLiteral(c) && c != '?' && c != '#'
    requires PlainSegment(file) && '?' !in file && '#' !in file && forall c :: c in file ==> UrlLiteral(c)
    requires r.input == "https://" + host + dir + "/" + file
    requires !r.extract && r.output == "out"
    ensures Route(r, Directory) == Ok(WriteIntoDirectory("out" + "/" + file))
  {
    UrlBasenameOfFile(host, dir, file);
    assert PlainSegment(Basename(UrlPathname(r.input)));
    PlainPathOut();
    IntoPlainDirectory(r);
  }

  /** The basename of the pathname of `https://<host><dir>/<file>` is `<file>`. */
  lemma UrlBasenameOfFile(host: string, dir: string, file: string)
    requires host != [] && forall c :: c in host ==> UrlLiteral(c) && c != '/' && c != '?' && c != '#'
    requires dir == [] || dir[0] == '/'
    requires forall c :: c in dir ==> UrlLiteral(c) && c != '?' && c != '#'
    requires PlainSegment(file) && '?' !in file && '#' !in file && forall c :: c in file ==> UrlLiteral(c)
    ensures Basename(UrlPathname("https://" + host + dir + "/" + file)) == file
  {
    UrlPathnameOfFile(host, dir, file);
    BasenameOfJoin(dir, file);
  }

  /** `out` is a path of one plain segment. */
  lemma PlainPathOut()
    ensures PlainPath("out")
  {
    SplitNoSeparator("out", '/');
  }

  /** The pathname of `https://<host><dir>/<file>` is `<dir>/<file>`. */
  lemma UrlPathnameOfFile(host: string, dir: string, file: string)
    requires host != [] && forall c :: c in host ==> UrlLiteral(c) && c != '/' && c != '?' && c != '#'
    requires dir == [] || dir[0] == '/'
    requires forall c :: c in dir ==> UrlLiteral(c) && c != '?' && c != '#'
    requires '?' !in file && '#' !in file && forall c :: c in file ==> UrlLiteral(c)
    ensures UrlPathname("https://" + host + dir + "/" + file) == dir + "/" + file
  {
    var path := dir + "/" + file;
    assert path != [] && path[0] == '/' by {
      if dir != [] {
        assert path[0] == dir[0];
      }
    }
    assert forall c :: c in path ==> c in dir || c == '/' || c in file;
    assert "https://" + host + dir + "/" + file == "https" + "://" + host + path + "";
    HttpPathname("https", host, path, "");
  }

  /** `path.normalize(".")` is `.`. */
  lemma NormalizeCurrent()
    ensures Normalize(".") == "."
  {
    assert Split(".", '/') == ["."] by {
      SplitNoSeparator(".", '/');
    }
    assert NormalSegments(["."], false) == [] by {
      assert ["."][..0] == [];
    }
  }

  /**
    * A URL whose path ends in `/`, such as `https://example.com/`, has an
    * empty basename, so with the default output `.` the file is to be written
    * at `.`, the directory itself.
    */
  lemma RootUrlIntoDefaultDirectory(r: FetchRequest, host: string)
    requires host != [] && forall c :: c in host ==> UrlLiteral(c) && c != '/' && c != '?' && c != '#'
    requires r.input == "https://" + host + "/" && !r.extract && r.output == "."
    ensures Route(r, Directory) == Ok(WriteIntoDirectory("."))
  {
    UrlBasenameOfRoot(host);
    EmptyBaseIntoCurrentDirectory(r);
  }

  /** A single file whose URL path has an empty basename goes to `.` itself when the output is `.`. */
  lemma EmptyBaseIntoCurrentDirectory(r: FetchRequest)
    requires Basename(UrlPathname(r.input)) == "" && !r.extract && r.output == "."
    ensures Route(r, Directory) == Ok(WriteIntoDirectory("."))
  {
    assert PathJoin(r.output, "") == "." by {
      NormalizeCurrent();
    }
  }

  /**
    * A single file whose URL path has an empty basename goes to the
    * normalised output directory itself, since `path.join(output, "")` is
    * `path.normalize(output)`.
    */
  lemma EmptyBaseIntoDirectory(r: FetchRequest)
    requires !r.extract && Basename(UrlPathname(r.input)) == ""
    ensures Route(r, Directory) == Ok(WriteIntoDirectory(Normalize(r.output)))
  {
  }

  /** `https://<host>/` fetched into the plain directory `dir` is written at `dir` itself. */
  lemma RootUrlIntoPlainDirectory(r: FetchRequest, host: string, dir: string)
    requires host != [] && forall c :: c in host ==> UrlLiteral(c) && c != '/' && c != '?' && c != '#'
    requires PlainSegment(dir)
    requires r.input == "https://" + host + "/" && !r.extract && r.output == dir
    ensures Route(r, Directory) == Ok(WriteIntoDirectory(dir))
  {
    UrlBasenameOfRoot(host);
    EmptyBaseIntoDirectory(r);
    NormalizePlainSegment(dir);
  }

  /** The pathname of `https://<host>/` is `/`, whose basename is empty. */
  lemma UrlBasenameOfRoot(host: string)
    requires host != [] && forall c :: c in host ==> UrlLiteral(c) && c != '/' && c != '?' && c != '#'
    ensures Basename(UrlPathname("https://" + host + "/")) == ""
  {
    assert "https://" + host + "/" == "https" + "://" + host + "/" + "";
    HttpPathname("https", host, "/", "");
    assert Basename("/") == "";
  }
}
