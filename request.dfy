/**
  * One fetch request as the API receives it, the defaults that fill in the
  * omitted fields, and the usage checks that run before anything is
  * downloaded.
  */
module Request {
  import opened Base

  /** The `filter` option: one glob pattern, a list of them, or a predicate over entry paths. */
  datatype FilterSpec =
    | FilterPattern(pattern: string)
    | FilterPatterns(patterns: seq<string>)
    | FilterFunction(keep: string -> bool)

  /** The `map` option: one `[search, replacement]` pair, a list of pairs, or a path rewriting function. */
  datatype MapSpec =
    | MapPair(search: string, replacement: string)
    | MapPairs(pairs: seq<(string, string)>)
    | MapFunction(rewrite: string -> string)

  /** A request as the caller wrote it: every field but `input` may be omitted. */
  datatype RawRequest = RawRequest(
    name: Option<string>,
    input: string,
    extract: Option<bool>,
    filter: Option<FilterSpec>,
    mapping: Option<MapSpec>,
    strip: Option<int>,
    output: Option<string>)

  /** A request after the defaults are filled in; `filter` and `map` have no default. */
  datatype FetchRequest = FetchRequest(
    name: string,
    input: string,
    extract: bool,
    filter: Option<FilterSpec>,
    mapping: Option<MapSpec>,
    strip: int,
    output: string)

  /** The errors the API raises; `Message` is the text of the thrown `Error`. */
  datatype FetchError =
    | InvalidRequests
    | UsageError(option: string)
    | DownloadFailed(reason: string)
    | NeitherDirectoryNorFile(path: string)
    | NotADirectory(path: string)
    | OutputFailed(reason: string)
  {
    function Message(): string {
      match this
      case InvalidRequests => "invalid requests parameter"
      case UsageError(option) => "option \"" + option + "\" requires option \"extract\""
      case DownloadFailed(reason) => "download failed: " + reason
      case NeitherDirectoryNorFile(path) => "output path " + path + " exists, but is neither directory nor file"
      case NotADirectory(path) => "output path " + path + " exists, but is not a directory"
      case OutputFailed(reason) => reason
    }
  }

  /**
    * The part of the request schema that the datatypes above do not already
    * enforce: a filter or map given as a list holds at least one element.
    */
  predicate WellFormed(raw: RawRequest) {
    (raw.filter.Some? && raw.filter.value.FilterPatterns? ==> |raw.filter.value.patterns| > 0)
    && (raw.mapping.Some? && raw.mapping.value.MapPairs? ==> |raw.mapping.value.pairs| > 0)
  }

  /** The schema asks for a non-empty list of well-formed requests. */
  predicate ValidRequests(requests: seq<RawRequest>) {
    |requests| > 0 && forall i :: 0 <= i < |requests| ==> WellFormed(requests[i])
  }

  const DefaultName: string := ""
  const DefaultOutput: string := "."

  function OrElse<T>(field: Option<T>, default: T): (value: T) {
    match field
    case Some(v) => v
    case None => default
  }

  /**
    * `Object.assign({}, {name: "", extract: false, strip: 0, output: "."}, request)`:
    * a field the caller gave keeps its value, an omitted one takes its default.
    */
  function WithDefaults(raw: RawRequest): (r: FetchRequest)
    ensures r.input == raw.input && r.filter == raw.filter && r.mapping == raw.mapping
    ensures raw.name.Some? ==> r.name == raw.name.value
    ensures raw.extract.Some? ==> r.extract == raw.extract.value
    ensures raw.strip.Some? ==> r.strip == raw.strip.value
    ensures raw.output.Some? ==> r.output == raw.output.value
    ensures raw.name.None? ==> r.name == DefaultName
    ensures raw.extract.None? ==> !r.extract
    ensures raw.strip.None? ==> r.strip == 0
    ensures raw.output.None? ==> r.output == DefaultOutput
  {
    FetchRequest(
      OrElse(raw.name, DefaultName),
      raw.input,
      OrElse(raw.extract, false),
      raw.filter,
      raw.mapping,
      OrElse(raw.strip, 0),
      OrElse(raw.output, DefaultOutput))
  }

  /** The raw request that spells out every field of `r`. */
  function Explicit(r: FetchRequest): (raw: RawRequest) {
    RawRequest(Some(r.name), r.input, Some(r.extract), r.filter, r.mapping, Some(r.strip), Some(r.output))
  }

  /** Every field the caller gives is kept as given. */
  lemma DefaultsKeepGivenFields(r: FetchRequest)
    ensures WithDefaults(Explicit(r)) == r
  {
  }

  /** Filling in defaults a second time changes nothing. */
  lemma DefaultsIdempotent(raw: RawRequest)
    ensures WithDefaults(Explicit(WithDefaults(raw))) == WithDefaults(raw)
  {
    DefaultsKeepGivenFields(WithDefaults(raw));
  }

  /**
    * JavaScript truthiness of the options the usage checks test: a filter is
    * falsy only as the empty string (a list or function is an object), a map
    * is always an object, and a strip count is falsy only as 0.
    */
  predicate FilterGiven(filter: Option<FilterSpec>) {
    filter.Some? && !(filter.value.FilterPattern? && filter.value.pattern == "")
  }

  predicate MapGiven(mapping: Option<MapSpec>) {
    mapping.Some?
  }

  predicate StripGiven(strip: int) {
    strip != 0
  }

  /** The three usage checks, in source order: `filter`, then `map`, then `strip`, each needing `extract`. */
  function CheckUsage(r: FetchRequest): (result: Result<FetchRequest, FetchError>)
    ensures result.Ok? <==> r.extract || (!FilterGiven(r.filter) && !MapGiven(r.mapping) && !StripGiven(r.strip))
    ensures result.Ok? ==> result.value == r
    ensures result.Err? ==> result.error.UsageError?
    ensures result.Err? && FilterGiven(r.filter) ==> result.error.option == "filter"
    ensures result.Err? && !FilterGiven(r.filter) && MapGiven(r.mapping) ==> result.error.option == "map"
    ensures result.Err? && !FilterGiven(r.filter) && !MapGiven(r.mapping) ==> result.error.option == "strip"
  {
    if FilterGiven(r.filter) && !r.extract then Err(UsageError("filter"))
    else if MapGiven(r.mapping) && !r.extract then Err(UsageError("map"))
    else if StripGiven(r.strip) && !r.extract then Err(UsageError("strip"))
    else Ok(r)
  }

  /** Defaults, then usage checks: what the loop body does before it downloads. */
  function Prepare(raw: RawRequest): (r: Result<FetchRequest, FetchError>)
    ensures r.Ok? ==> r.value == WithDefaults(raw)
    ensures r.Err? ==> r.error.UsageError?
    ensures r.Ok? <==> (raw.extract == Some(true)
      || (!FilterGiven(raw.filter) && !MapGiven(raw.mapping) && !(raw.strip.Some? && StripGiven(raw.strip.value))))
  {
    CheckUsage(WithDefaults(raw))
  }

  /**
    * An omitted `extract` means false, so a request that gives a non-empty
    * filter, a map or a non-zero strip without `extract` is refused, while
    * `strip: 0` and the empty filter string pass, 0 and "" being falsy.
    */
  lemma PrepareWithoutExtract(raw: RawRequest)
    requires raw.extract.None? || raw.extract == Some(false)
    ensures Prepare(raw).Err? <==>
      FilterGiven(raw.filter) || raw.mapping.Some? || (raw.strip.Some? && raw.strip.value != 0)
    ensures Prepare(raw).Ok? ==> Prepare(raw).value.filter == raw.filter
  {
  }

  /** With `extract` set, every combination of options passes the usage checks unchanged. */
  lemma PrepareWithExtract(raw: RawRequest)
    requires raw.extract == Some(true)
    ensures Prepare(raw) == Ok(WithDefaults(raw))
  {
  }
}
