# npm-install-fetch, modelled in Dafny

npm-install-fetch downloads external resources when an npm package is
installed. Each resource is a request:

- an `input` URL;
- an `output` path;
- optionally `extract`, to unpack an archive;
- for extraction only, a `filter` of glob patterns, a `map` of path rewrites
  and a `strip` count.

The API takes a list of requests and processes them in order. It fills in
defaults and runs three usage checks. It then resolves an HTTP proxy
(`get-proxy`, falling back to `npm config get proxy`) and downloads each
resource. Finally it writes the single file, or extracts the archive through
the filter and map callbacks. The first error ends the run.

The command-line front end builds the request list from up to three sources:

- its own options;
- the `npm-install-fetch` entry of `package.json`;
- a YAML configuration file.

It refuses an empty list and expands `%{name}` placeholders from the string
fields of `package.json`.

The modules are:

- `Base`: `Option` and `Result`.
- `JsString`: the parts of JavaScript's string library the program relies on.
  This is `indexOf`, `replace` with a string pattern (including the `$$`,
  `$&`, `` $` `` and `$'` replacement patterns) and `split` on one character.
- `FileSize`: the byte-count formatter of the progress display.
- `Request`: requests, defaults, usage checks and the error messages.
- `Proxy`: the proxy choice.
- `Routing`: what happens to the output path after the download.
- `Extraction`: the filter and map callbacks handed to the archive extractor.
  The filter and map loops are methods proved against the specification
  functions `KeepByPatterns` and `MapAll`.
- `Fetch`: the request loop.
- `Json`: the JavaScript values the command line handles.
- `Expansion`: the `%{name}` replacement over every string of the request
  list.
- `Cli`: options to request, request-source assembly and the "no resources
  given" check.

Three behaviours of the code differ from what a reader of the documentation
might expect. The model follows the code in each case:

- A `map` pair searches for its first element as a literal string, because
  JavaScript's `replace` is called with a string. A pattern written like
  `^src/` is therefore not anchored; it looks for the characters `^src/`.
  The replacement still interprets `$` patterns.
- `arch` and `platform` are only copied into the command line's request.
  Nothing in the API reads them. Their default `*` is a truthy string, so the
  command line copies them unless they are given as the empty string.
- `-m` splits its argument at every `:`. So `a:b:c` gives the three-element
  mapping `[a, b, c]`, although the API's request schema types a mapping as
  a pair of strings.

Glob matching (`minimatch`) is a parameter `matches(path, pattern)`, so every
property about filters holds for any glob semantics. The network and the
file system are parameters too:

- the proxy found in the environment;
- the outcome of `npm config get proxy`;
- the outcome of each download;
- what `fs.stat` reports for each output path;
- whether writing the file, or creating the directory and extracting the
  archive, succeeds;
- the contents of `package.json` and of the YAML file.

## Model

| member | source | states |
|---|---|---|
| Request.WithDefaults | npm-install-fetch-api.js:104-109 | Every field the caller gives keeps its value. Omitted `name`, `extract`, `strip` and `output` become `""`, false, 0 and `"."`. `input`, `filter` and `map` are untouched. |
| Request.WellFormed | npm-install-fetch-api.js:55-63 | Reference definition of the part of the request schema the datatypes do not already enforce: a `filter` list or a `map` list of pairs holds at least one element. |
| Request.ValidRequests | npm-install-fetch-api.js:55-64 | Reference definition of the schema test: a non-empty list of well-formed requests; `Fetch.FetchAll` refuses any other list before anything happens. |
| Request.FetchError.Message | npm-install-fetch-api.js:64-186 | Reference definition of the error texts the API throws: the schema refusal, `option "<o>" requires option "extract"`, `download failed: <reason>`, the two `output path <p> exists, …` messages, and the file system's own message passed through. |
| Request.DefaultsKeepGivenFields | npm-install-fetch-api.js:104-109 | A request that spells out every field is returned unchanged by the defaults. |
| Request.DefaultsIdempotent | npm-install-fetch-api.js:104-109 | Filling in defaults a second time changes nothing. |
| Request.CheckUsage | npm-install-fetch-api.js:111-117 | The request passes exactly when `extract` is set or no filter, map or strip is given, using JavaScript truthiness. A failing request is refused for `filter` first, then `map`, then `strip`. |
| Request.Prepare | npm-install-fetch-api.js:104-117 | Preparing gives the defaulted request or a usage error, and succeeds exactly when `extract` is set or no truthy filter, map or strip is given. |
| Request.PrepareWithoutExtract | npm-install-fetch-api.js:104-117 | Without `extract`, a request fails exactly when it has a non-empty filter, a map or a non-zero strip. The empty filter string and `strip: 0` pass because they are falsy. |
| Request.PrepareWithExtract | npm-install-fetch-api.js:104-117 | With `extract` set, every combination of options passes unchanged. |
| Proxy.TrimLineEnding | npm-install-fetch-api.js:80 | The result is a prefix of the output of `npm config get proxy`. |
| Proxy.ResolveProxy | npm-install-fetch-api.js:76-86 | An environment proxy wins. Otherwise a failed `npm` run gives no proxy. Otherwise npm's answer, with one trailing line ending removed, is used exactly when it starts with `http://` or `https://` followed by at least one character that is not a line terminator. |
| Proxy.LooksLikeHttpUrl | npm-install-fetch-api.js:81 | The test `^https?:\/\/.+`: a match starts with `http` and has a character that is not a line terminator right after `http://`; for a string starting with `https://` it holds exactly when a character that is not a line terminator follows the `//`. |
| Proxy.TrimLineEndingRemovesOne | npm-install-fetch-api.js:80 | Exactly one trailing `\r\n` or `\n` is removed, and a second newline stays. |
| Proxy.TrimLineEndingNoNewline | npm-install-fetch-api.js:80 | Text not ending in a newline is unchanged. |
| Proxy.TrimNewline | npm-install-fetch-api.js:80 | A single `\n` after text that does not end in `\r` is removed, leaving the text. |
| Proxy.NpmProxyIsHttpUrl | npm-install-fetch-api.js:78-82 | A proxy taken from npm always begins with an HTTP or HTTPS scheme. |
| Proxy.EnvironmentProxyWins | npm-install-fetch-api.js:76-77 | With an environment proxy, npm's answer is never consulted. |
| Proxy.NpmProxyExample | npm-install-fetch-api.js:78-82 | `http://proxy:3128\n` from npm gives the proxy `http://proxy:3128`. |
| Proxy.NpmNullExample | npm-install-fetch-api.js:78-82 | npm's `null` answer gives no proxy. |
| Proxy.NpmBareSchemeExample | npm-install-fetch-api.js:78-82 | A bare `http://` gives no proxy, because the pattern needs a character after the scheme. |
| FileSize.Decimal | npm-install-fetch-api.js:129 | `%d` formatting gives at least one digit, all decimal digits, with no leading zero unless the count is 0. |
| FileSize.ParseDecimalOfDecimal | npm-install-fetch-api.js:129 | Reading the formatted digits back gives the count. |
| FileSize.DecimalLength | npm-install-fetch-api.js:129 | A count has at most `k` digits exactly when it is below 10^k. |
| FileSize.TrailingDigitsStart | npm-install-fetch-api.js:130-131 | The `$`-anchored digit patterns can only start in the trailing digit run, which begins after a non-digit or at the start of the string. |
| FileSize.TrailingDigitsStartLeftmost | npm-install-fetch-api.js:130-131 | No earlier position has only digits after it. |
| FileSize.GroupMillions | npm-install-fetch-api.js:130 | The first replacement only inserts `.` characters, and it changes the string exactly when the string ends in a run of at least seven digits. |
| FileSize.GroupThousands | npm-install-fetch-api.js:131 | The second replacement only inserts `.` characters, and it changes the string exactly when the string ends in a run of at least four digits. |
| FileSize.GroupBothShort | npm-install-fetch-api.js:130-131 | Neither replacement changes a digit string of at most three digits. |
| FileSize.GroupBothOfThousands | npm-install-fetch-api.js:130-131 | A digit string of four to six digits is unchanged by the first replacement and comes out of both as its leading digits, a `.` and its last three digits. |
| FileSize.GroupBothOfMillions | npm-install-fetch-api.js:130-131 | A digit string of seven or more digits comes out of both replacements as its leading digits, a `.`, the next three digits, a `.` and its last three digits. |
| FileSize.WithoutDotsGrouped | npm-install-fetch-api.js:130-131 | Removing the dots from the grouped digit string gives the digits back, and at most two characters were added. |
| FileSize.FileSizeBelowThousand | npm-install-fetch-api.js:128-132 | Counts below 1000 print as plain digits. |
| FileSize.FileSizeThousands | npm-install-fetch-api.js:128-132 | Counts from 1000 to 999999 get one `.` before the last three digits. |
| FileSize.FileSizeMillions | npm-install-fetch-api.js:128-132 | Counts of a million or more get a `.` before the last six digits and one before the last three. The leading group keeps all remaining digits. |
| FileSize.FileSizeRoundTrip | npm-install-fetch-api.js:128-132 | Removing the dots gives back the decimal digits, which read as the count, and at most two characters were added. |
| FileSize.FileSize | npm-install-fetch-api.js:128-132 | The formatted count is the decimal digits with separators only inserted, at most two of them. |
| FileSize.FileSizeSevenDigits | npm-install-fetch-api.js:128-132 | 1234567 prints as `1.234.567`. |
| FileSize.FileSizeTenDigits | npm-install-fetch-api.js:128-132 | 1234567890 prints as `1234.567.890`. |
| Routing.LastSegment | npm-install-fetch-api.js:175 | The longest suffix without `/`: the text after the last `/`, or the whole path when it has none; a path ending in `/` gives the empty string. |
| Routing.TrimTrailingSlashes | npm-install-fetch-api.js:175 | The result is a prefix of the path that does not end in `/`, and every character removed is a `/`. |
| Routing.Basename | npm-install-fetch-api.js:175 | `path.basename` never contains a `/`. |
| Routing.BasenameAfterSlash | npm-install-fetch-api.js:175 | A non-empty segment without `/` after a `/`, or alone, is the basename. |
| Routing.BasenameOfJoin | npm-install-fetch-api.js:175 | The basename of `dir/segment` is `segment`. |
| Routing.BasenameIgnoresTrailingSlash | npm-install-fetch-api.js:175 | A trailing `/` does not change the basename: `p/` and `p` have the same basename. |
| Routing.BasenameOfDirectoryPath | npm-install-fetch-api.js:175 | The basename of `/<dir>/` is `<dir>` for a non-empty segment `<dir>` without `/`. |
| Routing.NormalSegments | npm-install-fetch-api.js:175 | `path.normalize` keeps no empty or `.` segment, and no `..` in an absolute path. |
| Routing.Normalize | npm-install-fetch-api.js:175 | `path.normalize` never gives the empty string. |
| Routing.PathJoin | npm-install-fetch-api.js:175 | `path.join` never gives the empty string. |
| Routing.DirPrefix | npm-install-fetch-api.js:175 | What `path.join` puts before a plain segment is empty or ends in `/`. |
| Routing.PathJoinPlain | npm-install-fetch-api.js:175 | Joining any directory with a plain segment gives the directory's prefix followed by the segment, whose basename is the segment. |
| Routing.DirPrefixOfCurrent | npm-install-fetch-api.js:175 | The output `.`, or an empty one, puts nothing before the segment. |
| Routing.DirPrefixOfPlainPath | npm-install-fetch-api.js:175 | A relative path of plain segments is followed by exactly one `/`. |
| Routing.DirPrefixOfTrailingSlash | npm-install-fetch-api.js:175 | A plain path with a trailing `/` is kept as it is, the `/` included. |
| Routing.NormalizeCurrent | npm-install-fetch-api.js:175 | `path.normalize(".")` is `.`. |
| Routing.UrlPathname | npm-install-fetch-api.js:174-175 | A URL's pathname always starts with `/` (so it is `/` when the URL has no path) and never holds a query or fragment. |
| Routing.Route | npm-install-fetch-api.js:170-188 | The output step fails exactly for a path that is neither file nor directory, or an existing file when extracting, with the source's error. It extracts exactly when `extract` is set. It keeps the output path except when a single file goes into a directory; then, for a URL whose basename is a plain segment, the path is the directory's `path.join` prefix followed by that basename. It creates a missing directory only when extracting, with mode 0o755. |
| Routing.RouteCases | npm-install-fetch-api.js:170-188 | Each of the five placements arises for exactly one combination of `extract` and the kind of existing path. |
| Routing.SingleFileIntoDirectory | npm-install-fetch-api.js:173-175 | Without `extract`, a single file sent to an existing directory, whatever the form of the output path, lands at the directory's `path.join` prefix followed by the URL's basename, and that basename is the basename of the new path. |
| Routing.IntoCurrentDirectory | npm-install-fetch-api.js:173-175 | With the output `.`, or an empty one, the file is written under the URL's basename alone. |
| Routing.IntoEmptyPrefix | npm-install-fetch-api.js:173-175 | An output whose `path.join` prefix is empty receives the file under the URL's basename alone. |
| Routing.IntoPlainDirectory | npm-install-fetch-api.js:173-175 | An output of plain segments, such as `out/dir`, gets one `/` and the URL's basename. |
| Routing.IntoDirectoryWithSlash | npm-install-fetch-api.js:173-175 | An output of plain segments ending in `/` gets the URL's basename right after it. |
| Routing.RootUrlIntoDefaultDirectory | npm-install-fetch-api.js:173-175 | `https://<host>/` into the default directory `.` has an empty basename, so the file is to be written at `.` itself; the file system's answer to that write is the `Fetch.Output` parameter. |
| Routing.EmptyBaseIntoCurrentDirectory | npm-install-fetch-api.js:173-175 | A URL with an empty basename sent to the directory `.` is to be written at `.`. |
| Routing.EmptyBaseIntoDirectory | npm-install-fetch-api.js:173-175 | A URL with an empty basename sent to any existing directory is to be written at the normalised output path itself, since `path.join(output, "")` normalises `output`. |
| Routing.RootUrlIntoPlainDirectory | npm-install-fetch-api.js:173-175 | `https://<host>/` sent to an existing directory named by one plain segment such as `out` is to be written at `out` itself. |
| Routing.HttpPathname | npm-install-fetch-api.js:174 | For `http://` or `https://`, a host, a path without `?` or `#`, and an optional query or fragment, the pathname is the path, or `/` when the path is empty. |
| Routing.DirectoryExample | npm-install-fetch-api.js:173-175 | Fetching `https://<host><dir>/<file>` into the directory `out` writes `out/<file>`. |
| Routing.UrlPathnameOfFile | npm-install-fetch-api.js:174 | The pathname of `https://<host><dir>/<file>` is `<dir>/<file>`. |
| Routing.UrlBasenameOfFile | npm-install-fetch-api.js:174-175 | The basename of that pathname is `<file>`. |
| Routing.UrlBasenameOfRoot | npm-install-fetch-api.js:174-175 | The pathname of `https://<host>/` is `/`, whose basename is empty. |
| Extraction.LastMatch | npm-install-fetch-api.js:196-205 | A decision exists only when some pattern matches the entry path. |
| Extraction.KeepByPatterns | npm-install-fetch-api.js:196-205 | When the last pattern matches, it decides. The entry's fate differs from the first pattern's negation only if some pattern matches. |
| Extraction.Keeps | npm-install-fetch-api.js:189-207 | No filter keeps every entry. A single pattern keeps an entry exactly when its match differs from its negation. For a list, the last matching pattern decides by its negation, and with no match the first pattern's negation is the answer. A function decides alone. |
| Extraction.LastMatchIs | npm-install-fetch-api.js:196-205 | The last matching pattern decides: a plain pattern keeps, a negated one drops. |
| Extraction.LastMatchNone | npm-install-fetch-api.js:196-205 | There is no decision when no pattern matches. |
| Extraction.KeepByPatternsMeaning | npm-install-fetch-api.js:196-205 | The list filter keeps an entry exactly as its last matching pattern says. With no match, it keeps the entry exactly when the first pattern is negated. |
| Extraction.FilterByPatterns | npm-install-fetch-api.js:194-206 | The filter loop, which overwrites `take` at every match, computes `KeepByPatterns`. |
| Extraction.ApplyFilter | npm-install-fetch-api.js:189-207 | Normalising the `filter` option (none, a string, a list or a function) and applying it gives the decision `Keeps`. |
| Extraction.NoFilterKeepsAll | npm-install-fetch-api.js:190-191 | Without a filter, every entry is kept. |
| Extraction.SinglePatternIsList | npm-install-fetch-api.js:192-193 | A single pattern string behaves as the one-element list. |
| Extraction.SinglePatternMeaning | npm-install-fetch-api.js:192-205 | A single pattern keeps exactly the entries its body matches, or exactly those it does not match when it is negated. |
| Extraction.IncludeThenExcludeExample | npm-install-fetch-api.js:196-205 | `["*.txt", "!ignore.txt"]` keeps exactly the entries that match `*.txt` but not `ignore.txt`. |
| Extraction.MapAllSingle | npm-install-fetch-api.js:216-218 | A one-pair list is a single `replace`. |
| Extraction.MapAllAppend | npm-install-fetch-api.js:216-218 | Applying a concatenated list means applying the first list, then the second. |
| Extraction.MapAllFirstPair | npm-install-fetch-api.js:216-218 | The first pair acts first, and the rest act on its result. |
| Extraction.MapByPairs | npm-install-fetch-api.js:213-220 | The map loop, which reassigns `path` once per pair, computes `MapAll`. |
| Extraction.MapAll | npm-install-fetch-api.js:213-220 | Reference definition of the map closure for a list: each pair's `replace` applied in turn, left to right; its properties are those of `MapAllSingle`, `MapAllAppend` and `MapAllFirstPair`. |
| Extraction.MappedPath | npm-install-fetch-api.js:208-221 | No map leaves the path unchanged. A single pair is one `replace`. A list applies its first pair first and the rest to that result. A function rewrites the path alone. |
| Extraction.ApplyMap | npm-install-fetch-api.js:208-221 | Normalising the `map` option (none, a pair, a list of pairs or a function) and applying it gives `MappedPath`. |
| Extraction.NoMapIsIdentity | npm-install-fetch-api.js:209-210 | Without a map, the path is unchanged. |
| Extraction.SinglePairMeaning | npm-install-fetch-api.js:211-218 | A single pair is the one-element list. It replaces the first literal occurrence of its search string (when the replacement holds no `$`). A path without an occurrence is unchanged. |
| Extraction.TwoPairsInOrder | npm-install-fetch-api.js:216-218 | The second pair rewrites the result of the first. |
| Extraction.TwoPairsExample | npm-install-fetch-api.js:216-218 | `[["src/", "lib/"], [".ts", ".js"]]` maps `src/index.ts` to `lib/index.js`. |
| JsString.IndexFrom | npm-install-fetch-api.js:217 | The search finds the leftmost occurrence at or after the start position, or reports that none exists. |
| JsString.Substitution | npm-install-fetch-api.js:217 | The inserted text is made only of characters of the replacement, the matched text and the text before and after the match. |
| JsString.Replace | npm-install-fetch-api.js:217 | An absent search string leaves the string unchanged; otherwise the text before the first occurrence and the text after it are kept. |
| JsString.SubstitutionLiteral | npm-install-fetch-api.js:217 | A replacement without `$` is inserted literally. |
| JsString.ReplaceAbsent | npm-install-fetch-api.js:217 | `replace` with an absent search string returns the string unchanged. |
| JsString.ReplaceFirstOccurrence | npm-install-fetch-api.js:217 | `replace` rewrites only the first occurrence. |
| JsString.Split | npm-install-fetch-cli.js:104 | `split` gives at least one part. |
| JsString.SplitShape | npm-install-fetch-cli.js:104 | `split` gives one more part than there are separators, and no part contains a separator. |
| JsString.JoinSplit | npm-install-fetch-cli.js:104 | Joining the parts of `split` with the separator gives the string back. |
| JsString.SplitJoin | npm-install-fetch-cli.js:104 | Splitting a join of separator-free parts gives the parts back. |
| Fetch.ProcessOne | npm-install-fetch-api.js:100-188 | One request: a usage error comes before anything else, a failed download before the output path is examined, a routing error before any write, and a rejected write or extraction ends the request with the file system's message. The request completes exactly when all four steps succeed, and then used the defaulted request, its input as URL, the shared proxy and the routed placement. |
| Fetch.FetchAll | npm-install-fetch-api.js:52-100 | A request list that is empty, or that has an empty filter or map list, is refused. Otherwise the requests run in order. Every completed request precedes the first failure, and no request after it runs. |
| Fetch.UsageErrorIgnoresEnvironment | npm-install-fetch-api.js:111-133 | A usage error is raised whatever the network or the file system would do. |
| Fetch.DownloadFailureIgnoresOutput | npm-install-fetch-api.js:133-170 | A failed download ends the request, with its message, before the output path is examined. |
| Fetch.OutputFailureEndsRequest | npm-install-fetch-api.js:176-188 | Once the placement is chosen, a rejected write, `mkdir` or extraction ends the request with the file system's own message, whatever the placement. |
| Fetch.FirstFailureStops | npm-install-fetch-api.js:100-117 | For any outcome of the shape `FetchAll` guarantees (`RanInOrder`), when request `k` is the first to fail, exactly `k` requests completed and the run reports request `k`'s error. |
| Fetch.AllSucceed | npm-install-fetch-api.js:100-117 | For any outcome of the shape `FetchAll` guarantees (`RanInOrder`), when every request succeeds, all of them complete in order and no error is reported. |
| Json.Property | npm-install-fetch-cli.js:117 | A property is found exactly for an object that has the key, and it is that key's value. |
| Json.StringProperty | npm-install-fetch-cli.js:145 | `typeof pkg[name] === "string"` holds exactly when the property exists and is a string, and the string returned is that property's own string. |
| Cli.ArgList | npm-install-fetch-cli.js:99-101 | One `-m` gives a one-element list, and several keep their order. |
| Cli.SplitMappings | npm-install-fetch-cli.js:102-105 | The push loop gives, in order, each `-m` argument split at every `:`. |
| Cli.SplitAll | npm-install-fetch-cli.js:102-105 | Splitting keeps one entry per `-m` argument. |
| Cli.BasicOptions | npm-install-fetch-cli.js:89-94 | `input` is always set. `arch`, `platform`, `name` and `extract` are present exactly when their values are truthy, and then hold those values. |
| Cli.ExtractionOptions | npm-install-fetch-cli.js:95-106 | `filter`, `strip`, `output` and `map` are present exactly when given and truthy, and absent when not given. `map` holds each argument split at every `:`, and earlier keys are untouched. |
| Cli.CommandLineOptions | npm-install-fetch-cli.js:88-106 | The command line's request holds only known keys: `input` always; `arch`, `platform`, `name` and `extract` exactly when truthy; `filter`, `strip`, `output` and `map` exactly when given and truthy, and never when not given; `map` holds each argument split at every `:`. |
| Cli.OptionValue | npm-install-fetch-cli.js:89-106 | Only known keys get a value. `input` always gets one. Every other option gets one only when that value is truthy in JavaScript. |
| Cli.CommandLineRequest | npm-install-fetch-cli.js:88-108 | There is a request exactly when there is one positional argument, and it is an object. |
| Cli.BasicHolds | npm-install-fetch-cli.js:89-94 | The facts `BasicOptions` states are `OptionValue` for its five keys. |
| Cli.ExtractionHolds | npm-install-fetch-cli.js:95-106 | The facts `ExtractionOptions` states are `OptionValue` for its four keys. |
| Cli.BasicKept | npm-install-fetch-cli.js:95-106 | Adding the extraction options leaves the basic ones as they were. |
| Cli.OptionsDetermined | npm-install-fetch-cli.js:88-106 | An option map that holds `OptionValue` for every known key and nothing else is `CommandLineOptions`. |
| Cli.CliRequest | npm-install-fetch-cli.js:88-108 | The request built option by option is `CommandLineRequest`: present exactly with one positional argument, and then an object holding `CommandLineOptions`. |
| Cli.MappingPair | npm-install-fetch-cli.js:104 | `from:to` without further colons gives `[from, to]`. |
| Cli.MappingEveryColon | npm-install-fetch-cli.js:104 | `a:b:c` gives three parts. |
| Cli.MappingParts | npm-install-fetch-cli.js:104 | Splitting loses nothing: the parts joined with `:` give the argument back, their number is the colon count plus one, and none holds a `:`. |
| Cli.Contribution | npm-install-fetch-cli.js:117-133 | An array source adds its elements, an object or `null` adds itself, and anything else adds nothing. |
| Cli.EffectivePackage | npm-install-fetch-cli.js:111-116 | No `package.json`, or the package's own, counts as `{}`; otherwise it is the file. |
| Cli.Sources | npm-install-fetch-cli.js:85-134 | The list has one entry for the command line's request when there is one, first, then the contributions of `package.json` and of the YAML document. |
| Cli.AssembleRequests | npm-install-fetch-cli.js:85-138 | The request list is `Sources`: the command line's request, then the `package.json` entry, then the YAML document. An empty list is refused with "no resources given". A `null` `package.json` fails when its `name` is read. |
| Cli.CliError.Message | npm-install-fetch-cli.js:115-138 | Reference definition of the command line's own error texts: "no resources given", and the TypeError of reading `name` from a `null` `package.json`. |
| Cli.OwnPackageIgnored | npm-install-fetch-cli.js:115-117 | The package's own `package.json` adds no request and provides no variables. |
| Cli.SourceOrder | npm-install-fetch-cli.js:85-134 | The command line's request comes first, then the `package.json` array in order, then the YAML array in order. |
| Cli.PrepareRequests | npm-install-fetch-cli.js:85-152 | A `null` `package.json` fails; otherwise an empty `Sources` list fails with "no resources given", and a non-empty one is returned with every request expanded by `ExpandValue`, element by element, from the effective `package.json`. |
| Cli.CommandLineInputExpanded | npm-install-fetch-cli.js:88-152 | With one positional argument the list is never empty, and its first request is the command line's, with the input expanded. |
| Cli.CommandLineThenConfig | npm-install-fetch-cli.js:85-134 | The command line's request and a one-element YAML array, without `package.json`, give a two-request list in that order. |
| Expansion.CloseFrom | npm-install-fetch-cli.js:143 | The lazy name ends at the first `}` that no line terminator precedes, and fails when a line terminator comes first. |
| Expansion.MatchAtStart | npm-install-fetch-cli.js:143 | `%\{(.+?)\}` matches at a position exactly when some closing brace qualifies, and the match ends at the nearest one. |
| Expansion.Substitute | npm-install-fetch-cli.js:144-147 | A string field of `package.json` replaces the placeholder; anything else keeps the matched text. |
| Expansion.Expand | npm-install-fetch-cli.js:141-152 | A string without `%` is unchanged. |
| Expansion.ExpandWithoutOpener | npm-install-fetch-cli.js:141-152 | A string without `%{` is unchanged. |
| Expansion.NoMatchStep | npm-install-fetch-cli.js:141-152 | Where no placeholder starts, the first character (a `%` included) is kept and the scan resumes one character later. |
| Expansion.ExpandWithoutMatch | npm-install-fetch-cli.js:141-152 | A string in which no placeholder starts anywhere is unchanged, `%` signs included. |
| Expansion.ExpandUnmatchedPrefix | npm-install-fetch-cli.js:141-152 | The first `k` characters, none of which starts a placeholder, pass through unchanged before the rest is expanded, as for a percent-encoded `a%20b`. |
| Expansion.ExpandWithoutStringFields | npm-install-fetch-cli.js:141-152 | Without string fields in `package.json`, every string is unchanged. |
| Expansion.ExpandKnownPlaceholder | npm-install-fetch-cli.js:143-147 | A known placeholder is replaced by the field's value, verbatim. Scanning resumes after the placeholder, so the value is never expanded again. |
| Expansion.ExpandUnknownPlaceholder | npm-install-fetch-cli.js:143-147 | An unknown placeholder is kept as written. |
| Expansion.ExpandPlainPrefix | npm-install-fetch-cli.js:143 | Text without `%` passes through unchanged. |
| Expansion.ExpandVersionInUrl | npm-install-fetch-cli.js:141-152 | `<prefix>%{version}<suffix>` becomes `<prefix><value><suffix>`. |
| Expansion.ExpandValue | npm-install-fetch-cli.js:141-152 | The traversal replaces each string by its expansion, expands every array element and every object field in place, keeps array lengths and object keys, and leaves all other leaves alone. |
| Expansion.ExpandValueWithoutStringFields | npm-install-fetch-cli.js:141-152 | Without string fields in `package.json`, the traversal changes nothing. |

## Left out

- Request schema validation (`ducky`): only the parts the datatypes do not
  already enforce are modelled, namely a non-empty request list and
  non-empty filter and map lists. The text of the schema error is not
  modelled, and neither is its verdict on a mapping of other than two
  strings, such as the three parts `-m a:b:c` gives.
- Conversion from the command line's JSON requests to API requests: it is
  the same schema check and is not part of this model. `Cli.PrepareRequests`
  ends with the JSON list handed to the API.
- Option parsing by `yargs`, `-h`, and the `-V` output: `Argv` is the parsed
  result. The configuration file name (`-c`) only chooses which file is
  read, so it is not a field; the file's parsed content is the parameter.
  Repeating an option other than `-f` and `-m` is not modelled. Neither is
  the `NaN` an unparsable `-s` would give.
- Extract: `strip` is forwarded to the archive library, which also walks the
  entries. That library is not part of this model. Only the filter and map
  callbacks it receives are modelled.
- The HTTP transfer, its headers (`User-Agent`) and the progress display
  (ANSI colours, glyph substitution, the percentage line) are output and
  I/O. A download is an outcome parameter. Its failure reason is the text
  after `download failed: `, including `invalid Content-Length` and the
  `null` of a non-200 reply.
- Reading and writing files, the `mkdir` call and `fs.stat` are parameters
  or results. `Routing.Stat` is what `fs.stat` reports, and
  `Routing.Placement` names the effect and its path. Whether `fs.writeFile`,
  `fs.mkdir` or the extraction then succeeds is the `Fetch.Output`
  parameter, whose rejection carries the file system's message (for example
  writing at the directory `.`, see `Routing.RootUrlIntoDefaultDirectory`).
  The number of files extracted and the closing display line are not
  modelled.
- Routing.UrlPathname: the URL parser is reduced to the text after the
  first `://` and the host, up to a query or fragment. An input that
  `new URL` rejects, percent-encoding, the removal of `.` and `..` path
  segments, backslashes and user information are not modelled. Neither are
  the removal of every tab and line break, the trimming of leading and
  trailing control characters and spaces, or the skipping of extra slashes
  after the scheme (`https:///file` has the host `file` and the pathname
  `/`, where this function gives `/file`).
- Routing.HttpPathname, Routing.UrlPathnameOfFile, Routing.UrlBasenameOfFile,
  Routing.DirectoryExample and the root-URL lemmas are stated only for a
  non-empty host and for host, directory and file names written in
  `Routing.UrlLiteral` characters, where the reduced parser and `new URL`
  agree (apart from `.` and `..` segments in the directory).
- Routing.PathJoin: `path.join` and `path.normalize` are modelled for POSIX
  paths only.
- JSON and YAML parsing: file contents arrive as parsed values. A YAML
  document that loads as `undefined` is modelled as no document. Numbers are
  integers. Object key order is not kept.
- Expansion.Substitute: property lookup on a `package.json` that is not an
  object (an array or string indexed by position) is not modelled.
- Glob matching (`minimatch`) is a parameter, as described above.
