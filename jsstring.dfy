/**
  * The pieces of JavaScript's string semantics that the fetch pipeline relies
  * on: `String.prototype.indexOf`, `String.prototype.replace` with a string
  * (not a regular expression) as search value, and `String.prototype.split`
  * on a one-character separator, together with their inverses and the facts
  * the other modules use.
  */
module JsString {
  import opened Base

  /** The characters that `.` in a JavaScript regular expression does not match. */
  predicate IsLineTerminator(c: char) {
    c == '\n' || c == '\r' || c == '\U{2028}' || c == '\U{2029}'
  }

  predicate StartsWith(s: string, prefix: string) {
    |prefix| <= |s| && s[..|prefix|] == prefix
  }

  /** `t` occurs in `s` starting at position `i`. */
  predicate OccursAt(s: string, t: string, i: nat) {
    i + |t| <= |s| && s[i..i + |t|] == t
  }

  /** The first occurrence of `t` in `s` at or after position `from`. */
  function IndexFrom(s: string, t: string, from: nat): (r: Option<nat>)
    ensures r.Some? ==> from <= r.value && OccursAt(s, t, r.value)
    ensures forall j: nat :: from <= j && (r.None? || j < r.value) ==> !OccursAt(s, t, j)
    decreases |s| - from
  {
    if |s| < from + |t| then None
    else if s[from..from + |t|] == t then Some(from)
    else IndexFrom(s, t, from + 1)
  }

  /** `s.indexOf(t)`, with `None` for -1. */
  function IndexOf(s: string, t: string): (r: Option<nat>)
    ensures r.Some? ==> OccursAt(s, t, r.value)
    ensures forall j: nat :: (r.None? || j < r.value) ==> !OccursAt(s, t, j)
  {
    IndexFrom(s, t, 0)
  }

  /**
    * The replacement text that `replace` inserts for a match of a string
    * search value (ECMAScript GetSubstitution with no capture groups):
    * `$$` stands for `$`, `$&` for the matched text, `` $` `` for the text
    * before the match and `$'` for the text after it; every other character,
    * `$1` and a lone `$` included, is copied literally.
    */
  function Substitution(replacement: string, matched: string, before: string, after: string): (r: string)
    ensures forall c :: c in r ==> c in replacement || c in matched || c in before || c in after
    decreases |replacement|
  {
    if |replacement| == 0 then ""
    else if replacement[0] == '$' && 2 <= |replacement| && replacement[1] in "$&`'" then
      var expansion :=
        if replacement[1] == '$' then "$"
        else if replacement[1] == '&' then matched
        else if replacement[1] == '`' then before
        else after;
      expansion + Substitution(replacement[2..], matched, before, after)
    else
      [replacement[0]] + Substitution(replacement[1..], matched, before, after)
  }

  /** A replacement text without `$` is inserted as it is. */
  lemma {:induction false} SubstitutionLiteral(replacement: string, matched: string, before: string, after: string)
    requires '$' !in replacement
    ensures Substitution(replacement, matched, before, after) == replacement
    decreases |replacement|
  {
    if |replacement| > 0 {
      assert '$' !in replacement[1..];
      SubstitutionLiteral(replacement[1..], matched, before, after);
    }
  }

  /**
    * `s.replace(search, replacement)`: only the first occurrence is replaced,
    * so the text before it and the text after it are kept.
    */
  function Replace(s: string, search: string, replacement: string): (r: string)
    ensures IndexOf(s, search).None? ==> r == s
    ensures IndexOf(s, search).Some? ==> var i := IndexOf(s, search).value;
      i + |search| <= |s| && |r| >= |s| - |search|
      && r[..i] == s[..i] && r[|r| - (|s| - i - |search|)..] == s[i + |search|..]
  {
    match IndexOf(s, search)
    case None => s
    case Some(i) =>
      s[..i] + Substitution(replacement, search, s[..i], s[i + |search|..]) + s[i + |search|..]
  }

  /** A search string that does not occur leaves the string unchanged. */
  lemma ReplaceAbsent(s: string, search: string, replacement: string)
    requires forall j: nat :: !OccursAt(s, search, j)
    ensures Replace(s, search, replacement) == s
  {
  }

  /**
    * With a `$`-free replacement, exactly the first occurrence of the search
    * string is exchanged for the replacement; everything before and after it,
    * later occurrences included, is kept.
    */
  lemma ReplaceFirstOccurrence(s: string, search: string, replacement: string, i: nat)
    requires OccursAt(s, search, i)
    requires forall j: nat :: j < i ==> !OccursAt(s, search, j)
    requires '$' !in replacement
    ensures Replace(s, search, replacement) == s[..i] + replacement + s[i + |search|..]
  {
    var r := IndexOf(s, search);
    assert r == Some(i);
    SubstitutionLiteral(replacement, search, s[..i], s[i + |search|..]);
  }

  /** `s.split(sep)` for a one-character separator: the pieces between separators. */
  function Split(s: string, separator: char): (parts: seq<string>)
    ensures |parts| >= 1
    decreases |s|
  {
    if |s| == 0 then [""]
    else
      var rest := Split(s[1..], separator);
      if s[0] == separator then [""] + rest
      else [[s[0]] + rest[0]] + rest[1..]
  }

  /** `parts.join(sep)`. */
  function Join(parts: seq<string>, separator: char): (joined: string)
    requires |parts| >= 1
    decreases |parts|
  {
    if |parts| == 1 then parts[0]
    else parts[0] + [separator] + Join(parts[1..], separator)
  }

  /** Splitting yields one more piece than there are separators, and no piece holds a separator. */
  lemma {:induction false} SplitShape(s: string, separator: char)
    ensures |Split(s, separator)| == multiset(s)[separator] + 1
    ensures forall p :: p in Split(s, separator) ==> separator !in p
    decreases |s|
  {
    if |s| > 0 {
      SplitShape(s[1..], separator);
      assert s == [s[0]] + s[1..];
      assert multiset(s) == multiset{s[0]} + multiset(s[1..]);
      var rest := Split(s[1..], separator);
      if s[0] != separator {
        assert separator !in rest[0];
        assert separator !in [s[0]] + rest[0];
        forall p | p in Split(s, separator) ensures separator !in p {
          if p != [s[0]] + rest[0] {
            assert p in rest[1..];
          }
        }
      }
    }
  }

  /** Joining the pieces with the separator gives back the string. */
  lemma {:induction false} JoinSplit(s: string, separator: char)
    ensures Join(Split(s, separator), separator) == s
    decreases |s|
  {
    if |s| > 0 {
      JoinSplit(s[1..], separator);
      var rest := Split(s[1..], separator);
      if s[0] == separator {
        assert ([""] + rest)[1..] == rest;
      } else {
        var parts := [[s[0]] + rest[0]] + rest[1..];
        if |rest| > 1 {
          assert parts[1..] == rest[1..];
          assert Join(rest, separator) == rest[0] + [separator] + Join(rest[1..], separator);
        }
      }
    }
  }

  /** A string without the separator splits into itself alone. */
  lemma {:induction false} SplitNoSeparator(s: string, separator: char)
    requires separator !in s
    ensures Split(s, separator) == [s]
    decreases |s|
  {
    if |s| > 0 {
      assert s[0] != separator && separator !in s[1..];
      SplitNoSeparator(s[1..], separator);
      assert [s[0]] + s[1..] == s;
    }
  }

  /** A separator after a separator-free prefix ends the first piece. */
  lemma {:induction false} SplitAfterPrefix(a: string, b: string, separator: char)
    requires separator !in a
    ensures Split(a + [separator] + b, separator) == [a] + Split(b, separator)
    decreases |a|
  {
    var s := a + [separator] + b;
    if |a| == 0 {
      assert s[1..] == b;
    } else {
      assert s[1..] == a[1..] + [separator] + b;
      assert separator !in a[1..];
      SplitAfterPrefix(a[1..], b, separator);
      assert [a[0]] + a[1..] == a;
    }
  }

  /** Splitting a join of separator-free pieces gives back the pieces. */
  lemma {:induction false} SplitJoin(parts: seq<string>, separator: char)
    requires |parts| >= 1
    requires forall p :: p in parts ==> separator !in p
    ensures Split(Join(parts, separator), separator) == parts
    decreases |parts|
  {
    if |parts| == 1 {
      SplitNoSeparator(parts[0], separator);
    } else {
      assert parts[0] in parts;
      forall p | p in parts[1..] ensures separator !in p {
        assert p in parts;
      }
      SplitJoin(parts[1..], separator);
      SplitAfterPrefix(parts[0], Join(parts[1..], separator), separator);
      assert [parts[0]] + parts[1..] == parts;
    }
  }
}
