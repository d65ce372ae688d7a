/**
  * The per-entry `filter` and `map` callbacks that the API hands to the
  * archive extractor. Glob matching is a parameter `matches(path, pattern)`
  * standing for `minimatch`, so the decisions below hold for any glob
  * semantics.
  */
module Extraction {
  import opened Base
  import opened JsString
  import opened Request

  /** `pattern[0] === "!"`: the pattern excludes what it matches. */
  predicate IsNegated(pattern: string) {
    |pattern| > 0 && pattern[0] == '!'
  }

  /** `pattern.substr(1)` for a negated pattern, the pattern itself otherwise. */
  function PatternBody(pattern: string): (body: string) {
    if IsNegated(pattern) then pattern[1..] else pattern
  }

  /** The keep decision of the last pattern in `patterns` that matches `path`, if any matches. */
  function LastMatch(patterns: seq<string>, path: string, matches: (string, string) -> bool): (decision: Option<bool>)
    ensures decision.Some? ==> exists k :: 0 <= k < |patterns| && matches(path, PatternBody(patterns[k]))
    decreases |patterns|
  {
    if |patterns| == 0 then None
    else
      var last := patterns[|patterns| - 1];
      if matches(path, PatternBody(last)) then Some(!IsNegated(last))
      else LastMatch(patterns[..|patterns| - 1], path, matches)
  }

  /**
    * The filter of a non-empty pattern list: the last matching pattern
    * decides (a negated one drops, a plain one keeps); when none matches, the
    * entry is kept exactly when the first pattern is negated.
    */
  function KeepByPatterns(patterns: seq<string>, path: string, matches: (string, string) -> bool): (keep: bool)
    requires |patterns| > 0
    ensures matches(path, PatternBody(patterns[|patterns| - 1])) ==> keep == !IsNegated(patterns[|patterns| - 1])
    ensures keep != IsNegated(patterns[0]) ==> exists k :: 0 <= k < |patterns| && matches(path, PatternBody(patterns[k]))
  {
    match LastMatch(patterns, path, matches)
    case Some(keep) => keep
    case None => IsNegated(patterns[0])
  }

  /** The decision is that of the pattern at index `k` when it matches and no later one does. */
  lemma {:induction false} LastMatchIs(patterns: seq<string>, path: string, matches: (string, string) -> bool, k: nat)
    requires k < |patterns| && matches(path, PatternBody(patterns[k]))
    requires forall j :: k < j < |patterns| ==> !matches(path, PatternBody(patterns[j]))
    ensures LastMatch(patterns, path, matches) == Some(!IsNegated(patterns[k]))
    decreases |patterns|
  {
    if k < |patterns| - 1 {
      var init := patterns[..|patterns| - 1];
      assert forall j :: k < j < |init| ==> init[j] == patterns[j];
      LastMatchIs(init, path, matches, k);
    }
  }

  /** No decision when no pattern matches. */
  lemma {:induction false} LastMatchNone(patterns: seq<string>, path: string, matches: (string, string) -> bool)
    requires forall j :: 0 <= j < |patterns| ==> !matches(path, PatternBody(patterns[j]))
    ensures LastMatch(patterns, path, matches) == None
    decreases |patterns|
  {
    if |patterns| > 0 {
      var init := patterns[..|patterns| - 1];
      assert forall j :: 0 <= j < |init| ==> init[j] == patterns[j];
      LastMatchNone(init, path, matches);
    }
  }

  /** The pattern at index `k` matches `path` and no later pattern does. */
  predicate LastMatchingAt(patterns: seq<string>, path: string, matches: (string, string) -> bool, k: int) {
    0 <= k < |patterns| && matches(path, PatternBody(patterns[k]))
    && forall j :: k < j < |patterns| ==> !matches(path, PatternBody(patterns[j]))
  }

  /**
    * The list filter stated pattern by pattern: the last matching pattern
    * decides by its own negation, and with no match the first pattern's
    * negation is the answer.
    */
  lemma KeepByPatternsMeaning(patterns: seq<string>, path: string, matches: (string, string) -> bool)
    requires |patterns| > 0
    ensures forall k :: LastMatchingAt(patterns, path, matches, k) ==>
      KeepByPatterns(patterns, path, matches) == !IsNegated(patterns[k])
    ensures (forall j :: 0 <= j < |patterns| ==> !matches(path, PatternBody(patterns[j])))
      ==> KeepByPatterns(patterns, path, matches) == IsNegated(patterns[0])
  {
    forall k | LastMatchingAt(patterns, path, matches, k)
      ensures KeepByPatterns(patterns, path, matches) == !IsNegated(patterns[k])
    {
      LastMatchIs(patterns, path, matches, k);
    }
    if forall j :: 0 <= j < |patterns| ==> !matches(path, PatternBody(patterns[j])) {
      LastMatchNone(patterns, path, matches);
    }
  }

  /**
    * The filter closure built for a pattern list: `take` starts as "the first
    * pattern is negated" and every matching pattern, in order, overwrites it.
    */
  method FilterByPatterns(patterns: seq<string>, path: string, matches: (string, string) -> bool)
    returns (take: bool)
    requires |patterns| > 0
    ensures take == KeepByPatterns(patterns, path, matches)
  {
    take := IsNegated(patterns[0]);
    var i := 0;
    while i < |patterns|
      invariant 0 <= i <= |patterns|
      invariant take == match LastMatch(patterns[..i], path, matches)
        case Some(keep) => keep
        case None => IsNegated(patterns[0])
    {
      var pattern := patterns[i];
      var negate := IsNegated(pattern);
      if negate {
        pattern := pattern[1..];
      }
      if matches(path, pattern) {
        take := !negate;
      }
      assert patterns[..i + 1][..i] == patterns[..i];
      i := i + 1;
    }
    assert patterns[..i] == patterns;
  }

  /**
    * The filter the API applies to an archive entry: none keeps everything,
    * a single string is a one-element list, and a function decides alone.
    */
  function Keeps(filter: Option<FilterSpec>, path: string, matches: (string, string) -> bool): (keep: bool)
    requires filter.Some? && filter.value.FilterPatterns? ==> |filter.value.patterns| > 0
    ensures filter.None? ==> keep
    ensures filter.Some? && filter.value.FilterPattern? ==> var pattern := filter.value.pattern;
      keep == (matches(path, PatternBody(pattern)) != IsNegated(pattern))
    ensures filter.Some? && filter.value.FilterPatterns? ==> var patterns := filter.value.patterns;
      (forall k :: LastMatchingAt(patterns, path, matches, k) ==> keep == !IsNegated(patterns[k]))
      && ((forall j :: 0 <= j < |patterns| ==> !matches(path, PatternBody(patterns[j]))) ==> keep == IsNegated(patterns[0]))
    ensures filter.Some? && filter.value.FilterFunction? ==> keep == filter.value.keep(path)
  {
    match filter
    case None => true
    case Some(FilterPattern(pattern)) => KeepByPatterns([pattern], path, matches)
    case Some(FilterPatterns(patterns)) =>
      KeepByPatternsMeaning(patterns, path, matches);
      KeepByPatterns(patterns, path, matches)
    case Some(FilterFunction(decide)) => decide(path)
  }

  /** The normalisation steps of the filter option, then the entry decision. */
  method ApplyFilter(filter: Option<FilterSpec>, path: string, matches: (string, string) -> bool)
    returns (keep: bool)
    requires filter.Some? && filter.value.FilterPatterns? ==> |filter.value.patterns| > 0
    ensures keep == Keeps(filter, path, matches)
  {
    match filter
    case None =>
      keep := true;
    case Some(FilterFunction(f)) =>
      keep := f(path);
    case Some(FilterPattern(pattern)) =>
      keep := FilterByPatterns([pattern], path, matches);
    case Some(FilterPatterns(patterns)) =>
      keep := FilterByPatterns(patterns, path, matches);
  }

  /** Without a filter every entry is kept. */
  lemma NoFilterKeepsAll(path: string, matches: (string, string) -> bool)
    ensures Keeps(None, path, matches)
  {
  }

  /** A single pattern string behaves exactly like the list holding only it. */
  lemma SinglePatternIsList(pattern: string, path: string, matches: (string, string) -> bool)
    ensures Keeps(Some(FilterPattern(pattern)), path, matches) == Keeps(Some(FilterPatterns([pattern])), path, matches)
  {
  }

  /**
    * With a single plain pattern an entry is kept exactly when it matches;
    * with a single negated pattern, exactly when it does not match the rest.
    */
  lemma SinglePatternMeaning(pattern: string, path: string, matches: (string, string) -> bool)
    ensures Keeps(Some(FilterPattern(pattern)), path, matches) ==
      (matches(path, PatternBody(pattern)) != IsNegated(pattern))
  {
  }

  /**
    * The list `["*.txt", "!ignore.txt"]`: an entry matching only the first
    * pattern is kept, one matching both is dropped, one matching neither is
    * dropped because the first pattern is not negated.
    */
  lemma IncludeThenExcludeExample(path: string, matches: (string, string) -> bool)
    ensures var patterns := ["*.txt", "!ignore.txt"];
      Keeps(Some(FilterPatterns(patterns)), path, matches) ==
        (matches(path, "*.txt") && !matches(path, "ignore.txt"))
  {
    var patterns := ["*.txt", "!ignore.txt"];
    assert PatternBody(patterns[0]) == "*.txt";
    assert patterns[1][1..] == "ignore.txt";
    assert PatternBody(patterns[1]) == "ignore.txt";
    assert patterns[..1] == ["*.txt"];
  }

  /** The path after the mappings `pairs` are applied left to right, each with `replace`. */
  function MapAll(pairs: seq<(string, string)>, path: string): (mapped: string)
    decreases |pairs|
  {
    if |pairs| == 0 then path
    else
      var last := pairs[|pairs| - 1];
      Replace(MapAll(pairs[..|pairs| - 1], path), last.0, last.1)
  }

  /** A one-element list is a single `replace`. */
  lemma MapAllSingle(pair: (string, string), path: string)
    ensures MapAll([pair], path) == Replace(path, pair.0, pair.1)
  {
    var pairs := [pair];
    assert pairs[..0] == [];
    assert MapAll(pairs[..0], path) == path;
    assert pairs[|pairs| - 1] == pair;
  }

  /** Applying a concatenation of lists is applying one list after the other. */
  lemma {:induction false} MapAllAppend(first: seq<(string, string)>, second: seq<(string, string)>, path: string)
    ensures MapAll(first + second, path) == MapAll(second, MapAll(first, path))
    decreases |second|
  {
    if |second| == 0 {
      assert first + second == first;
    } else {
      var all := first + second;
      var init := second[..|second| - 1];
      var last := second[|second| - 1];
      assert MapAll(all, path) == Replace(MapAll(first + init, path), last.0, last.1) by {
        assert all[..|all| - 1] == first + init;
        assert all[|all| - 1] == last;
      }
      MapAllAppend(first, init, path);
    }
  }

  /** The first pair acts first; the rest of the list acts on its result. */
  lemma MapAllFirstPair(pairs: seq<(string, string)>, path: string)
    requires |pairs| > 0
    ensures MapAll(pairs, path) == MapAll(pairs[1..], Replace(path, pairs[0].0, pairs[0].1))
  {
    assert pairs == [pairs[0]] + pairs[1..];
    MapAllAppend([pairs[0]], pairs[1..], path);
    MapAllSingle(pairs[0], path);
  }

  /**
    * The map closure built for a list of pairs: `path` is reassigned with
    * `path.replace(search, replacement)` once per pair, in order.
    */
  method MapByPairs(pairs: seq<(string, string)>, path: string) returns (mapped: string)
    ensures mapped == MapAll(pairs, path)
  {
    mapped := path;
    var i := 0;
    while i < |pairs|
      invariant 0 <= i <= |pairs|
      invariant mapped == MapAll(pairs[..i], path)
    {
      mapped := Replace(mapped, pairs[i].0, pairs[i].1);
      assert pairs[..i + 1][..i] == pairs[..i];
      i := i + 1;
    }
    assert pairs[..i] == pairs;
  }

  /** The path an archive entry is written under: no map is the identity, a single pair a one-element list. */
  function MappedPath(mapping: Option<MapSpec>, path: string): (mapped: string)
    ensures mapping.None? ==> mapped == path
    ensures mapping.Some? && mapping.value.MapPair? ==>
      mapped == Replace(path, mapping.value.search, mapping.value.replacement)
    ensures mapping.Some? && mapping.value.MapPairs? && |mapping.value.pairs| > 0 ==> var pairs := mapping.value.pairs;
      mapped == MapAll(pairs[1..], Replace(path, pairs[0].0, pairs[0].1))
    ensures mapping.Some? && mapping.value.MapFunction? ==> mapped == mapping.value.rewrite(path)
  {
    match mapping
    case None => path
    case Some(MapPair(search, replacement)) =>
      MapAllSingle((search, replacement), path);
      MapAll([(search, replacement)], path)
    case Some(MapPairs(pairs)) =>
      if |pairs| > 0 then
        MapAllFirstPair(pairs, path);
        MapAll(pairs, path)
      else MapAll(pairs, path)
    case Some(MapFunction(rewrite)) => rewrite(path)
  }

  /** The normalisation steps of the map option, then the rewriting of one entry path. */
  method ApplyMap(mapping: Option<MapSpec>, path: string) returns (mapped: string)
    ensures mapped == MappedPath(mapping, path)
  {
    match mapping
    case None =>
      mapped := path;
    case Some(MapFunction(rewrite)) =>
      mapped := rewrite(path);
    case Some(MapPair(search, replacement)) =>
      mapped := MapByPairs([(search, replacement)], path);
    case Some(MapPairs(pairs)) =>
      mapped := MapByPairs(pairs, path);
  }

  /** Without a map the path is unchanged. */
  lemma NoMapIsIdentity(path: string)
    ensures MappedPath(None, path) == path
  {
  }

  /** `search` occurs in `path` at `i` and nowhere before. */
  predicate FirstOccurrenceAt(path: string, search: string, i: nat) {
    OccursAt(path, search, i) && forall j: nat :: j < i ==> !OccursAt(path, search, j)
  }

  /**
    * A single pair is the one-element list, and replaces only the first
    * literal occurrence of its search string (when the replacement holds no
    * `$`), leaving a path without one unchanged.
    */
  lemma SinglePairMeaning(search: string, replacement: string, path: string)
    ensures MappedPath(Some(MapPair(search, replacement)), path) == MappedPath(Some(MapPairs([(search, replacement)])), path)
    ensures (forall j: nat :: !OccursAt(path, search, j)) ==> MappedPath(Some(MapPair(search, replacement)), path) == path
    ensures forall i: nat :: FirstOccurrenceAt(path, search, i) && '$' !in replacement ==> MappedPath(Some(MapPair(search, replacement)), path) == path[..i] + replacement + path[i + |search|..]
  {
    MapAllSingle((search, replacement), path);
    if forall j: nat :: !OccursAt(path, search, j) {
      ReplaceAbsent(path, search, replacement);
    }
    forall i: nat | FirstOccurrenceAt(path, search, i) && '$' !in replacement
      ensures MappedPath(Some(MapPair(search, replacement)), path) == path[..i] + replacement + path[i + |search|..]
    {
      ReplaceFirstOccurrence(path, search, replacement, i);
    }
  }

  /** Two pairs apply in list order: the second rewrites what the first produced. */
  lemma TwoPairsInOrder(first: (string, string), second: (string, string), path: string)
    ensures MapAll([first, second], path) == Replace(Replace(path, first.0, first.1), second.0, second.1)
  {
    var pairs := [first, second];
    assert pairs[..1] == [first];
    assert pairs[|pairs| - 1] == second;
    MapAllSingle(first, path);
  }

  /** The first pair of `TwoPairsExample`: `src/` at the very start becomes `lib/`. */
  lemma ReplaceSourcePrefix(path: string, rest: string)
    requires path == "src/" + rest
    ensures Replace(path, "src/", "lib/") == "lib/" + rest
  {
    assert OccursAt(path, "src/", 0);
    ReplaceFirstOccurrence(path, "src/", "lib/", 0);
  }

  /** The second pair of `TwoPairsExample`: the first `.ts` of `lib/index.ts` is its extension. */
  lemma ReplaceExtension(path: string)
    requires path == "lib/index.ts"
    ensures Replace(path, ".ts", ".js") == "lib/index.js"
  {
    assert OccursAt(path, ".ts", 9);
    forall j: nat | j < 9 ensures !OccursAt(path, ".ts", j) {
      assert path[j] != '.';
    }
    ReplaceFirstOccurrence(path, ".ts", ".js", 9);
    assert path[..9] == "lib/index";
    assert path[12..] == "";
  }

  /**
    * Pairs apply in list order: with `src/index.ts`, the pairs
    * `[["src/", "lib/"], [".ts", ".js"]]` give `lib/index.js`.
    */
  lemma TwoPairsExample(path: string)
    requires path == "src/index.ts"
    ensures MapAll([("src/", "lib/"), (".ts", ".js")], path) == "lib/index.js"
  {
    var step := Replace(path, "src/", "lib/");
    assert step == "lib/index.ts" by {
      assert path == "src/" + "index.ts";
      ReplaceSourcePrefix(path, "index.ts");
      assert "lib/" + "index.ts" == "lib/index.ts";
    }
    assert Replace(step, ".ts", ".js") == "lib/index.js" by {
      ReplaceExtension(step);
    }
    TwoPairsInOrder(("src/", "lib/"), (".ts", ".js"), path);
  }
}
