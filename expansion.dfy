/**
  * Variable expansion of the command line: every string in the assembled
  * requests has each `%{name}` replaced by the string field `name` of
  * `package.json`, through `replace(/%\{(.+?)\}/g, ...)` with a replacer
  * function (so `$` in a value is taken literally).
  */
module Expansion {
  import opened Base
  import opened JsString
  import opened Json

  /**
    * `/%\{(.+?)\}/` matches at the start of `s` with its closing brace at
    * `close`: a name of at least one character, none of them a line
    * terminator (what `.` excludes).
    */
  predicate MatchesAt(s: string, close: int) {
    3 <= close < |s| && s[0] == '%' && s[1] == '{' && s[close] == '}'
    && forall k :: 2 <= k < close ==> !IsLineTerminator(s[k])
  }

  /** The first `}` at or after `from` that no line terminator precedes. */
  function CloseFrom(s: string, from: nat): (r: Option<nat>)
    requires from <= |s|
    ensures r.Some? ==> from <= r.value < |s| && s[r.value] == '}'
    ensures r.Some? ==> forall k :: from <= k < r.value ==> s[k] != '}' && !IsLineTerminator(s[k])
    ensures r.None? ==> forall j :: from <= j < |s| && s[j] == '}' ==>
      exists k :: from <= k < j && IsLineTerminator(s[k])
    decreases |s| - from
  {
    if from == |s| then None
    else if s[from] == '}' then Some(from)
    else if IsLineTerminator(s[from]) then None
    else CloseFrom(s, from + 1)
  }

  /**
    * The lazy match at the start of `s`: it exists exactly when some closing
    * brace qualifies, and then it is the nearest one.
    */
  function MatchAtStart(s: string): (r: Option<nat>)
    ensures r.Some? ==> MatchesAt(s, r.value)
    ensures r.Some? ==> forall close :: MatchesAt(s, close) ==> r.value <= close
    ensures r.None? ==> forall close :: !MatchesAt(s, close)
  {
    if |s| >= 3 && s[0] == '%' && s[1] == '{' && !IsLineTerminator(s[2]) then CloseFrom(s, 3) else None
  }

  /** The replacer: the package field when it is a string, the matched text otherwise. */
  function Substitute(matched: string, name: string, pkg: Json): (r: string)
    ensures StringProperty(pkg, name).Some? ==> r == StringProperty(pkg, name).value
    ensures StringProperty(pkg, name).None? ==> r == matched
  {
    match StringProperty(pkg, name)
    case Some(value) => value
    case None => matched
  }

  /** `s` holds no `%`, read character by character. */
  predicate WithoutPercent(s: string)
    decreases |s|
  {
    |s| == 0 || (s[0] != '%' && WithoutPercent(s[1..]))
  }

  /** A string in which `%` does not occur is `WithoutPercent`. */
  lemma {:induction false} WithoutPercentOf(s: string)
    requires '%' !in s
    ensures WithoutPercent(s)
    decreases |s|
  {
    if |s| > 0 {
      assert s[0] in s;
      assert forall c :: c in s[1..] ==> c in s;
      WithoutPercentOf(s[1..]);
    }
  }

  /**
    * The global replacement: matches are found left to right, each search
    * resuming after the previous match, so a substituted value is never
    * scanned again.
    */
  function Expand(s: string, pkg: Json): (r: string)
    ensures WithoutPercent(s) ==> r == s
    decreases |s|
  {
    if |s| == 0 then ""
    else
      match MatchAtStart(s)
      case Some(close) => Substitute(s[..close + 1], s[2..close], pkg) + Expand(s[close + 1..], pkg)
      case None => [s[0]] + Expand(s[1..], pkg)
  }

  /** A string without `%{` comes back unchanged. */
  lemma {:induction false} ExpandWithoutOpener(s: string, pkg: Json)
    requires forall i :: 0 <= i < |s| - 1 ==> !(s[i] == '%' && s[i + 1] == '{')
    ensures Expand(s, pkg) == s
    decreases |s|
  {
    if |s| > 0 {
      assert MatchAtStart(s).None? by {
        if |s| >= 2 {
          assert !(s[0] == '%' && s[1] == '{');
        }
      }
      ExpandWithoutOpener(s[1..], pkg);
    }
  }

  /**
    * Where no placeholder starts, the first character is kept, whether or
    * not it is a `%`, and the search resumes one character later.
    */
  lemma NoMatchStep(s: string, pkg: Json)
    requires |s| > 0 && MatchAtStart(s).None?
    ensures Expand(s, pkg) == [s[0]] + Expand(s[1..], pkg)
  {
  }

  /** A string in which no placeholder starts anywhere comes back unchanged, `%` signs included. */
  lemma {:induction false} ExpandWithoutMatch(s: string, pkg: Json)
    requires forall i :: 0 <= i < |s| ==> MatchAtStart(s[i..]).None?
    ensures Expand(s, pkg) == s
    decreases |s|
  {
    if |s| > 0 {
      assert MatchAtStart(s[0..]).None?;
      assert s[0..] == s;
      NoMatchStep(s, pkg);
      forall i | 0 <= i < |s| - 1
        ensures MatchAtStart(s[1..][i..]).None?
      {
        assert s[1..][i..] == s[i + 1..];
      }
      ExpandWithoutMatch(s[1..], pkg);
    }
  }

  /**
    * The first `k` characters, none of which starts a placeholder, pass
    * through as they are, even when they hold a `%`, as in the
    * percent-encoded `a%20b`.
    */
  lemma {:induction false} ExpandUnmatchedPrefix(s: string, k: nat, pkg: Json)
    requires k <= |s|
    requires forall i :: 0 <= i < k ==> MatchAtStart(s[i..]).None?
    ensures Expand(s, pkg) == s[..k] + Expand(s[k..], pkg)
    decreases k
  {
    if k == 0 {
      assert s[..0] == [] && s[0..] == s;
    } else {
      ExpandUnmatchedPrefix(s, k - 1, pkg);
      var t := s[k - 1..];
      var e := Expand(s[k..], pkg);
      assert Expand(t, pkg) == [s[k - 1]] + e by {
        NoMatchStep(t, pkg);
        assert t[1..] == s[k..];
      }
      TakeOneMore(s, k, e);
    }
  }

  /** Moving one character from the rest to the prefix keeps the whole. */
  lemma TakeOneMore(s: string, k: nat, e: string)
    requires 0 < k <= |s|
    ensures s[..k - 1] + ([s[k - 1]] + e) == s[..k] + e
  {
    assert s[..k - 1] + [s[k - 1]] == s[..k];
  }

  /**
    * A string is its prefix followed by the rest. Kept as a lemma of its own
    * so that the proofs about `Expand` do not reason about slices beside
    * the unfoldings of `Expand`.
    */
  lemma Reassemble(s: string, i: nat)
    requires i <= |s|
    ensures s[..i] + s[i..] == s
  {
  }

  /** One step of the scan at a placeholder that names no string field. */
  lemma ExpandUnknownStep(s: string, close: nat, pkg: Json)
    requires MatchAtStart(s) == Some(close)
    requires StringProperty(pkg, s[2..close]).None?
    ensures Expand(s, pkg) == s[..close + 1] + Expand(s[close + 1..], pkg)
  {
    assert |s| > 0;
    assert Expand(s, pkg) == Substitute(s[..close + 1], s[2..close], pkg) + Expand(s[close + 1..], pkg);
    assert Substitute(s[..close + 1], s[2..close], pkg) == s[..close + 1];
  }

  /** Placeholders that name no string field stay as written, so without any string field nothing changes. */
  lemma {:induction false} ExpandWithoutStringFields(s: string, pkg: Json)
    requires forall name :: StringProperty(pkg, name).None?
    ensures Expand(s, pkg) == s
    decreases |s|
  {
    if |s| > 0 {
      var m := MatchAtStart(s);
      if m.Some? {
        var close := m.value;
        ExpandUnknownStep(s, close, pkg);
        ExpandWithoutStringFields(s[close + 1..], pkg);
        Reassemble(s, close + 1);
      } else {
        ExpandWithoutStringFields(s[1..], pkg);
      }
    }
  }

  /** A leading placeholder: `name` runs up to the first `}`. */
  lemma PlaceholderMatch(name: string, rest: string)
    requires name != [] && '}' !in name && forall c :: c in name ==> !IsLineTerminator(c)
    ensures var s := "%{" + name + "}" + rest;
      MatchAtStart(s) == Some(|name| + 2) && s[2..|name| + 2] == name
      && s[..|name| + 3] == "%{" + name + "}" && s[|name| + 3..] == rest
  {
    var s := "%{" + name + "}" + rest;
    var close := |name| + 2;
    assert s[2..close] == name;
    assert MatchesAt(s, close) by {
      forall k | 2 <= k < close ensures !IsLineTerminator(s[k]) {
        assert s[k] == name[k - 2];
      }
    }
    forall k | 2 <= k < close ensures s[k] == name[k - 2] && s[k] != '}' {
      assert name[k - 2] in name;
    }
    assert s[..close + 1] == "%{" + name + "}";
    assert s[close + 1..] == rest;
  }

  /**
    * A placeholder naming a string field is replaced by the field's value,
    * verbatim, and scanning resumes after the placeholder.
    */
  lemma ExpandKnownPlaceholder(name: string, value: string, rest: string, pkg: Json)
    requires name != [] && '}' !in name && forall c :: c in name ==> !IsLineTerminator(c)
    requires StringProperty(pkg, name) == Some(value)
    ensures Expand("%{" + name + "}" + rest, pkg) == value + Expand(rest, pkg)
  {
    PlaceholderMatch(name, rest);
  }

  /** A placeholder naming no string field is kept as written. */
  lemma ExpandUnknownPlaceholder(name: string, rest: string, pkg: Json)
    requires name != [] && '}' !in name && forall c :: c in name ==> !IsLineTerminator(c)
    requires StringProperty(pkg, name).None?
    ensures Expand("%{" + name + "}" + rest, pkg) == "%{" + name + "}" + Expand(rest, pkg)
  {
    PlaceholderMatch(name, rest);
  }

  /** Text without `%` passes through as it is. */
  lemma {:induction false} ExpandPlainPrefix(prefix: string, rest: string, pkg: Json)
    requires '%' !in prefix
    ensures Expand(prefix + rest, pkg) == prefix + Expand(rest, pkg)
    decreases |prefix|
  {
    if |prefix| > 0 {
      var s := prefix + rest;
      assert s[0] == prefix[0];
      assert MatchAtStart(s).None?;
      assert s[1..] == prefix[1..] + rest;
      ExpandPlainPrefix(prefix[1..], rest, pkg);
      assert prefix == [prefix[0]] + prefix[1..];
    } else {
      assert prefix + rest == rest;
    }
  }

  /**
    * The typical use, a version in a download URL: with `version` set to
    * `value` in `package.json`, `<prefix>%{version}<suffix>` becomes
    * `<prefix><value><suffix>` when neither side holds a `%`.
    */
  lemma ExpandVersionInUrl(prefix: string, name: string, value: string, suffix: string, pkg: Json)
    requires name == "version" && '%' !in prefix && '%' !in suffix
    requires StringProperty(pkg, name) == Some(value)
    ensures Expand(prefix + "%{" + name + "}" + suffix, pkg) == prefix + value + suffix
  {
    var placeholder := "%{" + name + "}" + suffix;
    assert prefix + "%{" + name + "}" + suffix == prefix + placeholder;
    assert Expand(prefix + placeholder, pkg) == prefix + Expand(placeholder, pkg) by {
      ExpandPlainPrefix(prefix, placeholder, pkg);
    }
    assert Expand(placeholder, pkg) == value + Expand(suffix, pkg) by {
      ExpandKnownPlaceholder(name, value, suffix, pkg);
    }
    assert Expand(suffix, pkg) == suffix by {
      WithoutPercentOf(suffix);
    }
  }

  /**
    * The traversal: every string anywhere in a value is expanded, and
    * everything else (array lengths, object keys, other leaves) is kept.
    */
  function ExpandValue(value: Json, pkg: Json): (r: Json)
    ensures value.JString? <==> r.JString?
    ensures value.JString? ==> r.s == Expand(value.s, pkg)
    ensures value.JArray? <==> r.JArray?
    ensures value.JArray? ==> |r.items| == |value.items|
    ensures value.JArray? ==> forall i :: 0 <= i < |value.items| ==> r.items[i] == ExpandValue(value.items[i], pkg)
    ensures value.JObject? <==> r.JObject?
    ensures value.JObject? ==> r.fields.Keys == value.fields.Keys
    ensures value.JObject? ==> forall key :: key in value.fields ==> r.fields[key] == ExpandValue(value.fields[key], pkg)
    ensures !value.JString? && !value.JArray? && !value.JObject? ==> r == value
  {
    match value
    case JString(s) => JString(Expand(s, pkg))
    case JArray(items) => JArray(seq(|items|, i requires 0 <= i < |items| => ExpandValue(items[i], pkg)))
    case JObject(fields) => JObject(map key | key in fields :: ExpandValue(fields[key], pkg))
    case _ => value
  }

  /** Without string fields in `package.json` the traversal changes nothing. */
  lemma {:induction false} ExpandValueWithoutStringFields(value: Json, pkg: Json)
    requires forall name :: StringProperty(pkg, name).None?
    ensures ExpandValue(value, pkg) == value
    decreases value
  {
    match value
    case JString(s) =>
      ExpandWithoutStringFields(s, pkg);
    case JArray(items) =>
      forall i | 0 <= i < |items| ensures ExpandValue(items[i], pkg) == items[i] {
        ExpandValueWithoutStringFields(items[i], pkg);
      }
    case JObject(fields) =>
      forall key | key in fields ensures ExpandValue(fields[key], pkg) == fields[key] {
        ExpandValueWithoutStringFields(fields[key], pkg);
      }
    case _ =>
  }
}
