/**
  * The command-line front end: the parsed options become at most one
  * request, `package.json` and the YAML configuration add theirs, an empty
  * result is refused, and finally `%{name}` placeholders are expanded. File
  * contents are parameters: `None` when the file does not exist.
  */
module Cli {
  import opened Base
  import opened JsString
  import opened Json
  import opened Expansion

  /** An option that may be repeated: one occurrence gives a string, several an array. */
  datatype ArgValue = Single(value: string) | Repeated(values: seq<string>)

  /** The parsed command line; absent options without a default are `None`. */
  datatype Argv = Argv(
    positional: seq<string>,
    arch: string,
    platform: string,
    name: string,
    extract: bool,
    filter: Option<ArgValue>,
    mapping: Option<ArgValue>,
    strip: Option<int>,
    output: Option<string>)

  /** The package whose own `package.json` is never read for requests. */
  const PackageName: string := "npm-install-fetch"

  /** JavaScript truthiness of an option value: the empty string is falsy, an array never is. */
  predicate ArgGiven(arg: ArgValue) {
    arg.Single? ==> arg.value != ""
  }

  /** The option as a JavaScript value. */
  function ArgJson(arg: ArgValue): (value: Json) {
    match arg
    case Single(value) => JString(value)
    case Repeated(values) => Strings(values)
  }

  /** `typeof list === "string"` wraps one value into a list. */
  function ArgList(arg: ArgValue): (list: seq<string>)
    ensures arg.Single? ==> list == [arg.value]
    ensures arg.Repeated? ==> list == arg.values
  {
    match arg
    case Single(value) => [value]
    case Repeated(values) => values
  }

  /** Each `-m` argument split at every `:`, in order. */
  method SplitMappings(list: seq<string>) returns (mappings: seq<seq<string>>)
    ensures |mappings| == |list|
    ensures forall i :: 0 <= i < |list| ==> mappings[i] == Split(list[i], ':')
  {
    mappings := [];
    var i := 0;
    while i < |list|
      invariant 0 <= i <= |list| && |mappings| == i
      invariant forall k :: 0 <= k < i ==> mappings[k] == Split(list[k], ':')
    {
      mappings := mappings + [Split(list[i], ':')];
      i := i + 1;
    }
  }

  /** Every argument split at every `:`, the value `SplitMappings` computes. */
  function SplitAll(list: seq<string>): (mappings: seq<seq<string>>)
    ensures |mappings| == |list|
  {
    seq(|list|, i requires 0 <= i < |list| => Split(list[i], ':'))
  }

  /** The mappings as a JavaScript array of string arrays. */
  function MappingsJson(mappings: seq<seq<string>>): (r: Json)
    ensures r.JArray? && |r.items| == |mappings|
    ensures forall i :: 0 <= i < |mappings| ==> r.items[i] == Strings(mappings[i])
  {
    JArray(seq(|mappings|, i requires 0 <= i < |mappings| => Strings(mappings[i])))
  }

  /** `key` is present exactly when its option was `given`, and then holds `value`. */
  predicate Copied(options: map<string, Json>, key: string, given: bool, value: Json) {
    (key in options <==> given) && (key in options ==> options[key] == value)
  }

  /** The options that do not concern extraction: input, arch, platform, name and extract. */
  method BasicOptions(argv: Argv) returns (options: map<string, Json>)
    requires |argv.positional| == 1
    ensures options.Keys <= BasicKeys
    ensures Copied(options, "input", true, JString(argv.positional[0]))
    ensures Copied(options, "arch", argv.arch != "", JString(argv.arch))
    ensures Copied(options, "platform", argv.platform != "", JString(argv.platform))
    ensures Copied(options, "name", argv.name != "", JString(argv.name))
    ensures Copied(options, "extract", argv.extract, JBool(true))
  {
    options := map["input" := JString(argv.positional[0])];
    if argv.arch != "" {
      options := options["arch" := JString(argv.arch)];
    }
    if argv.platform != "" {
      options := options["platform" := JString(argv.platform)];
    }
    if argv.name != "" {
      options := options["name" := JString(argv.name)];
    }
    if argv.extract {
      options := options["extract" := JBool(true)];
    }
  }

  /** The options for archives: filter, strip, output and the split `-m` mappings, added to `options`. */
  method ExtractionOptions(argv: Argv, options: map<string, Json>) returns (result: map<string, Json>)
    requires options.Keys !! ExtractionKeys
    ensures result.Keys <= options.Keys + ExtractionKeys
    ensures forall key :: key in options ==> key in result && result[key] == options[key]
    ensures argv.filter.Some? ==> Copied(result, "filter", ArgGiven(argv.filter.value), ArgJson(argv.filter.value))
    ensures argv.filter.None? ==> "filter" !in result
    ensures argv.strip.Some? ==> Copied(result, "strip", argv.strip.value != 0, JNumber(argv.strip.value))
    ensures argv.strip.None? ==> "strip" !in result
    ensures argv.output.Some? ==> Copied(result, "output", argv.output.value != "", JString(argv.output.value))
    ensures argv.output.None? ==> "output" !in result
    ensures argv.mapping.None? ==> "map" !in result
    ensures argv.mapping.Some? ==> ("map" in result <==> ArgGiven(argv.mapping.value))
    ensures argv.mapping.Some? ==> Copied(result, "map", ArgGiven(argv.mapping.value),
      MappingsJson(SplitAll(ArgList(argv.mapping.value))))
  {
    result := options;
    if argv.filter.Some? && ArgGiven(argv.filter.value) {
      result := result["filter" := ArgJson(argv.filter.value)];
    }
    if argv.strip.Some? && argv.strip.value != 0 {
      result := result["strip" := JNumber(argv.strip.value)];
    }
    if argv.output.Some? && argv.output.value != "" {
      result := result["output" := JString(argv.output.value)];
    }
    if argv.mapping.Some? && ArgGiven(argv.mapping.value) {
      var list := ArgList(argv.mapping.value);
      var mappings := SplitMappings(list);
      assert mappings == SplitAll(list);
      result := result["map" := MappingsJson(mappings)];
    }
  }

  /** The keys the command line may set in its request. */
  const OptionKeys: set<string> := {"input", "arch", "platform", "name", "extract", "filter", "strip", "output", "map"}
  /** The keys `BasicOptions` sets. */
  const BasicKeys: set<string> := {"input", "arch", "platform", "name", "extract"}
  /** The keys `ExtractionOptions` sets. */
  const ExtractionKeys: set<string> := {"filter", "strip", "output", "map"}

  /**
    * The value the command line gives the request key `key`, `None` when
    * the key is left out: `input` always, every other option only when its
    * value is truthy.
    */
  function OptionValue(argv: Argv, key: string): (v: Option<Json>)
    requires |argv.positional| == 1
    ensures v.Some? ==> key in OptionKeys
    ensures key == "input" ==> v.Some?
    ensures v.Some? && key != "input" ==> Truthy(v.value)
  {
    if key == "input" then Some(JString(argv.positional[0]))
    else if key == "arch" then (if argv.arch != "" then Some(JString(argv.arch)) else None)
    else if key == "platform" then (if argv.platform != "" then Some(JString(argv.platform)) else None)
    else if key == "name" then (if argv.name != "" then Some(JString(argv.name)) else None)
    else if key == "extract" then (if argv.extract then Some(JBool(true)) else None)
    else if key == "filter" then
      (if argv.filter.Some? && ArgGiven(argv.filter.value) then Some(ArgJson(argv.filter.value)) else None)
    else if key == "strip" then
      (if argv.strip.Some? && argv.strip.value != 0 then Some(JNumber(argv.strip.value)) else None)
    else if key == "output" then
      (if argv.output.Some? && argv.output.value != "" then Some(JString(argv.output.value)) else None)
    else if key == "map" then
      (if argv.mapping.Some? && ArgGiven(argv.mapping.value)
       then Some(MappingsJson(SplitAll(ArgList(argv.mapping.value)))) else None)
    else None
  }

  /**
    * The fields of the command line's request, stated option by option: only
    * known keys, `input` always, the others exactly when truthy, absent
    * options absent, and `map` holding each argument split at every `:`.
    */
  function CommandLineOptions(argv: Argv): (f: map<string, Json>)
    requires |argv.positional| == 1
    ensures f.Keys <= OptionKeys
    ensures Copied(f, "input", true, JString(argv.positional[0]))
    ensures Copied(f, "arch", argv.arch != "", JString(argv.arch))
    ensures Copied(f, "platform", argv.platform != "", JString(argv.platform))
    ensures Copied(f, "name", argv.name != "", JString(argv.name))
    ensures Copied(f, "extract", argv.extract, JBool(true))
    ensures argv.filter.None? ==> "filter" !in f
    ensures argv.filter.Some? ==> Copied(f, "filter", ArgGiven(argv.filter.value), ArgJson(argv.filter.value))
    ensures argv.strip.None? ==> "strip" !in f
    ensures argv.strip.Some? ==> Copied(f, "strip", argv.strip.value != 0, JNumber(argv.strip.value))
    ensures argv.output.None? ==> "output" !in f
    ensures argv.output.Some? ==> Copied(f, "output", argv.output.value != "", JString(argv.output.value))
    ensures argv.mapping.None? ==> "map" !in f
    ensures argv.mapping.Some? ==> ("map" in f <==> ArgGiven(argv.mapping.value))
    ensures argv.mapping.Some? && "map" in f ==> var list := ArgList(argv.mapping.value);
      f["map"].JArray? && |f["map"].items| == |list|
      && forall i :: 0 <= i < |list| ==> f["map"].items[i] == Strings(Split(list[i], ':'))
  {
    map key | key in OptionKeys && OptionValue(argv, key).Some? :: OptionValue(argv, key).value
  }

  /** The request of the command line: present only with exactly one positional argument. */
  function CommandLineRequest(argv: Argv): (request: Option<Json>)
    ensures request.Some? <==> |argv.positional| == 1
    ensures request.Some? ==> request.value.JObject?
  {
    if |argv.positional| == 1 then Some(JObject(CommandLineOptions(argv))) else None
  }

  /** `key` is present in `f` exactly when `v` is a value, and then holds it. */
  predicate Holds(f: map<string, Json>, key: string, v: Option<Json>) {
    (key in f <==> v.Some?) && (v.Some? ==> f[key] == v.value)
  }

  /** An option map that holds every key's `OptionValue` and no other key is the command line's. */
  lemma OptionsDetermined(argv: Argv, f: map<string, Json>)
    requires |argv.positional| == 1
    requires f.Keys <= OptionKeys
    requires forall key :: key in BasicKeys ==> Holds(f, key, OptionValue(argv, key))
    requires forall key :: key in ExtractionKeys ==> Holds(f, key, OptionValue(argv, key))
    ensures f == CommandLineOptions(argv)
  {
    assert OptionKeys == BasicKeys + ExtractionKeys;
    var g := CommandLineOptions(argv);
    assert forall key :: key in OptionKeys ==> Holds(g, key, OptionValue(argv, key));
    assert f.Keys == g.Keys;
  }

  /** The facts `BasicOptions` states are those `OptionValue` gives its five keys. */
  lemma BasicHolds(argv: Argv, f: map<string, Json>)
    requires |argv.positional| == 1
    requires Copied(f, "input", true, JString(argv.positional[0]))
    requires Copied(f, "arch", argv.arch != "", JString(argv.arch))
    requires Copied(f, "platform", argv.platform != "", JString(argv.platform))
    requires Copied(f, "name", argv.name != "", JString(argv.name))
    requires Copied(f, "extract", argv.extract, JBool(true))
    ensures forall key :: key in BasicKeys ==> Holds(f, key, OptionValue(argv, key))
  {
  }

  /** Adding the extraction keys leaves the basic keys as they were. */
  lemma BasicKept(argv: Argv, basic: map<string, Json>, f: map<string, Json>)
    requires |argv.positional| == 1
    requires forall key :: key in BasicKeys ==> Holds(basic, key, OptionValue(argv, key))
    requires f.Keys <= basic.Keys + ExtractionKeys
    requires forall key :: key in basic ==> key in f && f[key] == basic[key]
    ensures forall key :: key in BasicKeys ==> Holds(f, key, OptionValue(argv, key))
  {
  }

  /** The facts `ExtractionOptions` states are those `OptionValue` gives its four keys. */
  lemma ExtractionHolds(argv: Argv, f: map<string, Json>)
    requires |argv.positional| == 1
    requires argv.filter.Some? ==> Copied(f, "filter", ArgGiven(argv.filter.value), ArgJson(argv.filter.value))
    requires argv.filter.None? ==> "filter" !in f
    requires argv.strip.Some? ==> Copied(f, "strip", argv.strip.value != 0, JNumber(argv.strip.value))
    requires argv.strip.None? ==> "strip" !in f
    requires argv.output.Some? ==> Copied(f, "output", argv.output.value != "", JString(argv.output.value))
    requires argv.output.None? ==> "output" !in f
    requires argv.mapping.None? ==> "map" !in f
    requires argv.mapping.Some? ==> Copied(f, "map", ArgGiven(argv.mapping.value),
      MappingsJson(SplitAll(ArgList(argv.mapping.value))))
    ensures forall key :: key in ExtractionKeys ==> Holds(f, key, OptionValue(argv, key))
  {
  }

  /** The request of the command line, built option by option as `CommandLineRequest` states it. */
  method CliRequest(argv: Argv) returns (request: Option<Json>)
    ensures request == CommandLineRequest(argv)
  {
    if |argv.positional| != 1 {
      return None;
    }
    var basic := BasicOptions(argv);
    BasicHolds(argv, basic);
    var options := ExtractionOptions(argv, basic);
    ExtractionHolds(argv, options);
    BasicKept(argv, basic, options);
    OptionsDetermined(argv, options);
    request := Some(JObject(options));
  }

  /** A `-m from:to` argument without further colons gives the pair `[from, to]`. */
  lemma MappingPair(from: string, to: string)
    requires ':' !in from && ':' !in to
    ensures Split(from + ":" + to, ':') == [from, to]
  {
    SplitAfterPrefix(from, to, ':');
    SplitNoSeparator(to, ':');
    assert from + ":" + to == from + [':'] + to;
  }

  /** Every `:` splits, so `a:b:c` gives three parts and the API sees a three-element mapping. */
  lemma MappingEveryColon(a: string, b: string, c: string)
    requires ':' !in a && ':' !in b && ':' !in c
    ensures Split(a + ":" + b + ":" + c, ':') == [a, b, c]
  {
    var tail := b + ":" + c;
    assert Split(tail, ':') == [b, c] by {
      MappingPair(b, c);
    }
    assert Split(a + [':'] + tail, ':') == [a] + Split(tail, ':') by {
      SplitAfterPrefix(a, tail, ':');
    }
    assert a + ":" + b + ":" + c == a + [':'] + tail;
  }

  /** Splitting loses nothing: joining the parts with `:` gives the argument back, and no part holds a `:`. */
  lemma MappingParts(mapping: string)
    ensures Join(Split(mapping, ':'), ':') == mapping
    ensures |Split(mapping, ':')| == multiset(mapping)[':'] + 1
    ensures forall part :: part in Split(mapping, ':') ==> ':' !in part
  {
    JoinSplit(mapping, ':');
    SplitShape(mapping, ':');
  }

  /** The errors of the command line before the API runs. */
  datatype CliError = NoResources | NullPackage
  {
    function Message(): string {
      match this
      case NoResources => "no resources given"
      case NullPackage => "Cannot read properties of null (reading 'name')"
    }
  }

  /**
    * What one source contributes: an array adds each of its elements, any
    * other value of type "object" (an object, or `null`) adds itself, and
    * anything else adds nothing.
    */
  function Contribution(source: Option<Json>): (added: seq<Json>)
    ensures source.None? || !source.value.IsObjectType() ==> added == []
    ensures source.Some? && source.value.JArray? ==> added == source.value.items
    ensures source.Some? && (source.value.JObject? || source.value.JNull?) ==> added == [source.value]
  {
    match source
    case Some(JArray(items)) => items
    case Some(value) => if value.IsObjectType() then [value] else []
    case None => []
  }

  /** `package.json` as the expansion sees it: the package's own file counts as `{}`. */
  function EffectivePackage(packageJson: Option<Json>): (pkg: Json)
    ensures packageJson.None? ==> pkg == EmptyObject
    ensures packageJson.Some? && StringProperty(packageJson.value, "name") == Some(PackageName) ==> pkg == EmptyObject
    ensures packageJson.Some? && StringProperty(packageJson.value, "name") != Some(PackageName) ==> pkg == packageJson.value
  {
    match packageJson
    case None => EmptyObject
    case Some(value) => if StringProperty(value, "name") == Some(PackageName) then EmptyObject else value
  }

  /**
    * The request list of the command line: its own request, then the
    * `npm-install-fetch` entry of `package.json`, then the YAML configuration.
    */
  function Sources(cliRequest: Option<Json>, packageJson: Option<Json>, config: Option<Json>): (requests: seq<Json>)
    ensures |requests| == (if cliRequest.Some? then 1 else 0)
      + |Contribution(Property(EffectivePackage(packageJson), PackageName))| + |Contribution(config)|
    ensures cliRequest.Some? ==> requests != [] && requests[0] == cliRequest.value
  {
    (if cliRequest.Some? then [cliRequest.value] else [])
      + Contribution(Property(EffectivePackage(packageJson), PackageName))
      + Contribution(config)
  }

  /**
    * The request list of the command line, built step by step: the command
    * line's own request, then the `npm-install-fetch` entry of `package.json`,
    * then the YAML configuration; also the package object for expansion.
    */
  method AssembleRequests(cliRequest: Option<Json>, packageJson: Option<Json>, config: Option<Json>)
    returns (result: Result<(seq<Json>, Json), CliError>)
    ensures packageJson == Some(JNull) ==> result == Err(NullPackage)
    ensures packageJson != Some(JNull) ==>
      var requests := Sources(cliRequest, packageJson, config);
      (|requests| == 0 ==> result == Err(NoResources))
      && (|requests| > 0 ==> result == Ok((requests, EffectivePackage(packageJson))))
  {
    var requests: seq<Json> := [];
    if cliRequest.Some? {
      requests := requests + [cliRequest.value];
    }
    ghost var fromCli := requests;
    var pkg := EmptyObject;
    if packageJson.Some? {
      pkg := packageJson.value;
      if pkg.JNull? {
        return Err(NullPackage);
      }
      if StringProperty(pkg, "name") == Some(PackageName) {
        pkg := EmptyObject;
      }
      var entry := Property(pkg, PackageName);
      if entry.Some? && entry.value.IsObjectType() {
        if entry.value.JArray? {
          requests := requests + entry.value.items;
        } else {
          requests := requests + [entry.value];
        }
      }
    }
    assert pkg == EffectivePackage(packageJson);
    assert requests == fromCli + Contribution(Property(pkg, PackageName));
    ghost var fromPackage := requests;
    if config.Some? && config.value.IsObjectType() {
      if config.value.JArray? {
        requests := requests + config.value.items;
      } else {
        requests := requests + [config.value];
      }
    }
    assert requests == fromPackage + Contribution(config);
    assert fromCli == (if cliRequest.Some? then [cliRequest.value] else []);
    assert requests == fromCli + Contribution(Property(EffectivePackage(packageJson), PackageName)) + Contribution(config);
    if |requests| == 0 {
      return Err(NoResources);
    }
    return Ok((requests, pkg));
  }

  /**
    * The package's own `package.json` adds no request and provides no
    * variables, whatever it holds.
    */
  lemma OwnPackageIgnored(packageJson: Json)
    requires StringProperty(packageJson, "name") == Some(PackageName)
    ensures EffectivePackage(Some(packageJson)) == EmptyObject
    ensures Contribution(Property(EffectivePackage(Some(packageJson)), PackageName)) == []
    ensures forall name :: StringProperty(EffectivePackage(Some(packageJson)), name).None?
  {
  }

  /**
    * Sources keep their order: the command line's request comes first, then
    * the array entry of `package.json` element by element, then the array of
    * the configuration.
    */
  lemma SourceOrder(cliRequest: Json, packageJson: Json, packageItems: seq<Json>, configItems: seq<Json>)
    requires StringProperty(packageJson, "name") != Some(PackageName)
    requires Property(packageJson, PackageName) == Some(JArray(packageItems))
    ensures [cliRequest] + Contribution(Property(EffectivePackage(Some(packageJson)), PackageName))
      + Contribution(Some(JArray(configItems))) == [cliRequest] + packageItems + configItems
  {
  }

  /**
    * The request list the command line hands to the API: the assembled
    * sources, each with every string's placeholders expanded from
    * `package.json`.
    */
  method PrepareRequests(argv: Argv, packageJson: Option<Json>, config: Option<Json>)
    returns (result: Result<seq<Json>, CliError>)
    ensures packageJson == Some(JNull) ==> result == Err(NullPackage)
    ensures packageJson != Some(JNull) ==>
      var requests := Sources(CommandLineRequest(argv), packageJson, config);
      (requests == [] ==> result == Err(NoResources))
      && (requests != [] ==> result == Ok(ExpandValue(JArray(requests), EffectivePackage(packageJson)).items))
  {
    var cliRequest := CliRequest(argv);
    var assembled := AssembleRequests(cliRequest, packageJson, config);
    match assembled
    case Err(e) =>
      return Err(e);
    case Ok((requests, pkg)) =>
      var expanded := seq(|requests|, i requires 0 <= i < |requests| => ExpandValue(requests[i], pkg));
      assert expanded == ExpandValue(JArray(requests), pkg).items;
      return Ok(expanded);
  }

  /**
    * With one positional argument the first prepared request is the command
    * line's, its input expanded; the list is then never empty, so "no
    * resources given" needs a command line without a single input.
    */
  lemma CommandLineInputExpanded(argv: Argv, packageJson: Option<Json>, config: Option<Json>)
    requires |argv.positional| == 1
    ensures var requests := Sources(CommandLineRequest(argv), packageJson, config);
      var expanded := ExpandValue(JArray(requests), EffectivePackage(packageJson)).items;
      requests != [] && expanded[0].JObject? && "input" in expanded[0].fields
      && expanded[0].fields["input"] == JString(Expand(argv.positional[0], EffectivePackage(packageJson)))
  {
    var requests := Sources(CommandLineRequest(argv), packageJson, config);
    var pkg := EffectivePackage(packageJson);
    assert requests[0] == JObject(CommandLineOptions(argv));
    assert ExpandValue(requests[0], pkg).fields["input"] == ExpandValue(JString(argv.positional[0]), pkg);
  }

  /**
    * A command-line request and a YAML document holding a one-element array,
    * without `package.json`: the list is the command line's request, then
    * that element.
    */
  lemma CommandLineThenConfig(argv: Argv, entry: Json)
    requires |argv.positional| == 1
    ensures Sources(CommandLineRequest(argv), None, Some(JArray([entry])))
      == [JObject(CommandLineOptions(argv)), entry]
  {
  }
}
