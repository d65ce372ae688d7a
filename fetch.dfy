/**
  * The request loop of the API: each request is completed with defaults,
  * checked, downloaded and written out, in order, and the first error ends
  * the whole run. The network and the file system are parameters: for each
  * request, the outcome of the download, what `fs.stat` reports for the
  * output path, and whether writing the file (or creating the directory and
  * extracting the archive) succeeds.
  */
module Fetch {
  import opened Base
  import opened Request
  import opened Routing
  import opened Proxy

  /** The outcome of the HTTP GET of one request. */
  datatype Download = Received(size: nat) | Failed(reason: string)

  /**
    * The outcome of the file-system work once the placement is chosen:
    * `fs.writeFile` for a single file, `fs.mkdir` (when needed) and the
    * extraction for an archive; a rejection carries the error's message.
    */
  datatype Output = Written | Rejected(reason: string)

  /** What the network and the file system do for one request. */
  datatype World = World(download: Download, stat: Stat, output: Output)

  /** What one request did: the HTTP options it used, the byte count received and where the data went. */
  datatype Step = Step(request: FetchRequest, url: string, proxy: Option<string>, received: nat, placement: Placement)

  /**
    * One iteration of the request loop: defaults and usage checks, download,
    * routing of the output, then the write or extraction itself.
    */
  function ProcessOne(raw: RawRequest, proxy: Option<string>, world: World): (result: Result<Step, FetchError>)
    ensures Prepare(raw).Err? ==> result == Err(Prepare(raw).error)
    ensures Prepare(raw).Ok? && world.download.Failed? ==> result == Err(DownloadFailed(world.download.reason))
    ensures Prepare(raw).Ok? && world.download.Received? && Route(WithDefaults(raw), world.stat).Err? ==>
      result == Err(Route(WithDefaults(raw), world.stat).error)
    ensures (Prepare(raw).Ok? && world.download.Received? && Route(WithDefaults(raw), world.stat).Ok?
      && world.output.Rejected?) ==> result == Err(OutputFailed(world.output.reason))
    ensures result.Ok? <==>
      Prepare(raw).Ok? && world.download.Received? && Route(WithDefaults(raw), world.stat).Ok? && world.output.Written?
    ensures result.Ok? ==>
      result.value.request == WithDefaults(raw)
      && result.value.url == raw.input
      && result.value.proxy == proxy
      && result.value.received == world.download.size
      && Route(WithDefaults(raw), world.stat) == Ok(result.value.placement)
  {
    match Prepare(raw)
    case Err(e) => Err(e)
    case Ok(r) =>
      match world.download
      case Failed(reason) => Err(DownloadFailed(reason))
      case Received(size) =>
        match Route(r, world.stat)
        case Err(e) => Err(e)
        case Ok(placement) =>
          match world.output
          case Rejected(reason) => Err(OutputFailed(reason))
          case Written => Ok(Step(r, r.input, proxy, size, placement))
  }

  /**
    * The shape of a run: the completed steps are those of a prefix of the
    * requests, in order, and the run ends either with every request done or
    * with the error of the request right after that prefix.
    */
  ghost predicate RanInOrder(requests: seq<RawRequest>, proxy: Option<string>, worlds: seq<World>,
                             steps: seq<Step>, failure: Option<FetchError>)
  {
    |worlds| == |requests|
    && |steps| <= |requests| && (failure.None? <==> |steps| == |requests|)
    && (forall i :: 0 <= i < |steps| ==> ProcessOne(requests[i], proxy, worlds[i]) == Ok(steps[i]))
    && (failure.Some? ==> ProcessOne(requests[|steps|], proxy, worlds[|steps|]) == Err(failure.value))
  }

  /**
    * The API entry point: a request list that breaks the schema is refused
    * before anything happens; otherwise the proxy is resolved once and the
    * requests are processed in order until one fails, every request before
    * it having completed.
    */
  method FetchAll(requests: seq<RawRequest>, environmentProxy: Option<string>, npm: NpmOutcome, worlds: seq<World>)
    returns (steps: seq<Step>, failure: Option<FetchError>)
    requires |worlds| == |requests|
    ensures !ValidRequests(requests) ==> steps == [] && failure == Some(InvalidRequests)
    ensures ValidRequests(requests) ==> RanInOrder(requests, ResolveProxy(environmentProxy, npm), worlds, steps, failure)
  {
    steps := [];
    if !ValidRequests(requests) {
      return [], Some(InvalidRequests);
    }
    var proxy := ResolveProxy(environmentProxy, npm);
    var i := 0;
    while i < |requests|
      invariant 0 <= i <= |requests| && |steps| == i
      invariant forall k :: 0 <= k < i ==> ProcessOne(requests[k], proxy, worlds[k]) == Ok(steps[k])
    {
      var outcome := ProcessOne(requests[i], proxy, worlds[i]);
      match outcome
      case Err(e) =>
        return steps, Some(e);
      case Ok(step) =>
        steps := steps + [step];
      i := i + 1;
    }
    failure := None;
  }

  /**
    * The usage checks run before the download starts: a refused request
    * fails the same way whatever the network and the file system would do.
    */
  lemma UsageErrorIgnoresEnvironment(raw: RawRequest, proxy: Option<string>, w1: World, w2: World)
    requires Prepare(raw).Err?
    ensures ProcessOne(raw, proxy, w1) == ProcessOne(raw, proxy, w2)
    ensures ProcessOne(raw, proxy, w1).Err? && ProcessOne(raw, proxy, w1).error.UsageError?
  {
  }

  /** A failed download ends the request before the output path is examined or written. */
  lemma DownloadFailureIgnoresOutput(raw: RawRequest, proxy: Option<string>, reason: string, w1: World, w2: World)
    requires Prepare(raw).Ok?
    requires w1.download == Failed(reason) && w2.download == Failed(reason)
    ensures ProcessOne(raw, proxy, w1) == ProcessOne(raw, proxy, w2)
    ensures ProcessOne(raw, proxy, w1).Err?
    ensures ProcessOne(raw, proxy, w1).error.Message() == "download failed: " + reason
  {
  }

  /**
    * Once the placement is chosen, a rejected write or extraction ends the
    * request with the file system's own message, whatever the placement.
    */
  lemma OutputFailureEndsRequest(raw: RawRequest, proxy: Option<string>, size: nat, stat: Stat, reason: string)
    requires Prepare(raw).Ok? && Route(WithDefaults(raw), stat).Ok?
    ensures var result := ProcessOne(raw, proxy, World(Received(size), stat, Rejected(reason)));
      result.Err? && result.error.Message() == reason
  {
    var world := World(Received(size), stat, Rejected(reason));
    assert ProcessOne(raw, proxy, world) == Err(OutputFailed(reason));
  }

  /**
    * A run stops at the first failing request: it leaves exactly the steps of
    * the requests before it and reports that request's error.
    */
  lemma FirstFailureStops(requests: seq<RawRequest>, proxy: Option<string>, worlds: seq<World>,
                          steps: seq<Step>, failure: Option<FetchError>, k: nat)
    requires RanInOrder(requests, proxy, worlds, steps, failure)
    requires k < |requests| && ProcessOne(requests[k], proxy, worlds[k]).Err?
    requires forall i :: 0 <= i < k ==> ProcessOne(requests[i], proxy, worlds[i]).Ok?
    ensures |steps| == k && failure == Some(ProcessOne(requests[k], proxy, worlds[k]).error)
  {
    if |steps| < k {
      assert false;
    } else if |steps| > k {
      assert false;
    }
  }

  /** A run in which every request succeeds completes all of them, in order, without error. */
  lemma AllSucceed(requests: seq<RawRequest>, proxy: Option<string>, worlds: seq<World>,
                   steps: seq<Step>, failure: Option<FetchError>)
    requires RanInOrder(requests, proxy, worlds, steps, failure)
    requires forall i :: 0 <= i < |requests| ==> ProcessOne(requests[i], proxy, worlds[i]).Ok?
    ensures failure.None? && |steps| == |requests|
    ensures forall i :: 0 <= i < |steps| ==> steps[i] == ProcessOne(requests[i], proxy, worlds[i]).value
  {
    if failure.Some? {
      assert false;
    }
  }
}
