/**
  * The choice of the HTTP proxy for the whole batch: the result of the
  * environment lookup (`getProxy()`) when it has one, otherwise the output of
  * `npm config get proxy` when that command succeeds and prints an http(s) URL.
  */
module Proxy {
  import opened Base
  import opened JsString

  /** The outcome of running `npm config get proxy`: a rejected promise, or its standard output. */
  datatype NpmOutcome = NpmFailed | NpmSucceeded(stdout: string)

  /** `.replace(/\r?\n$/, "")`: one line ending at the very end of the string is removed, `\r\n` as a whole. */
  function TrimLineEnding(s: string): (r: string)
    ensures |r| <= |s| && r == s[..|r|]
  {
    if 2 <= |s| && s[|s| - 2..] == "\r\n" then s[..|s| - 2]
    else if 1 <= |s| && s[|s| - 1] == '\n' then s[..|s| - 1]
    else s
  }

  /** `/^https?:\/\/.+/`: the scheme and `//`, then at least one character that `.` matches. */
  predicate LooksLikeHttpUrl(s: string)
    ensures LooksLikeHttpUrl(s) ==> |s| > 7 && s[..4] == "http" && !IsLineTerminator(s[7])
    ensures StartsWith(s, "https://") ==> (LooksLikeHttpUrl(s) <==> |s| > 8 && !IsLineTerminator(s[8]))
  {
    assert StartsWith(s, "http://") ==> s[..4] == s[..7][..4] && s[4] == ':';
    assert StartsWith(s, "https://") ==> s[..4] == s[..8][..4] && s[7] == '/' && s[4] == 's';
    (StartsWith(s, "http://") && |s| > 7 && !IsLineTerminator(s[7]))
    || (StartsWith(s, "https://") && |s| > 8 && !IsLineTerminator(s[8]))
  }

  /** The proxy all downloads of the batch use; `npm` is consulted only when `fromEnvironment` is `None`. */
  function ResolveProxy(fromEnvironment: Option<string>, npm: NpmOutcome): (proxy: Option<string>)
    ensures fromEnvironment.Some? ==> proxy == fromEnvironment
    ensures fromEnvironment.None? && npm.NpmFailed? ==> proxy.None?
    ensures fromEnvironment.None? && npm.NpmSucceeded? ==>
      (proxy.Some? <==> LooksLikeHttpUrl(TrimLineEnding(npm.stdout)))
      && (proxy.Some? ==> proxy.value == TrimLineEnding(npm.stdout))
  {
    if fromEnvironment.Some? then fromEnvironment
    else match npm
      case NpmFailed => None
      case NpmSucceeded(stdout) =>
        var trimmed := TrimLineEnding(stdout);
        if LooksLikeHttpUrl(trimmed) then Some(trimmed) else None
  }

  /** One `\r\n` or `\n` is taken off the end, and only one. */
  lemma TrimLineEndingRemovesOne(s: string)
    ensures TrimLineEnding(s + "\r\n") == s
    ensures s == [] || s[|s| - 1] != '\r' ==> TrimLineEnding(s + "\n") == s
    ensures TrimLineEnding(s + "\n\n") == s + "\n"
  {
    assert (s + "\r\n")[..|s|] == s;
    assert (s + "\n")[..|s|] == s;
    assert (s + "\n\n")[..|s| + 1] == s + "\n";
    if s != [] && s[|s| - 1] != '\r' {
      assert (s + "\n")[|s| - 1..] == [s[|s| - 1], '\n'];
    }
    if s != [] {
      assert (s + "\n\n")[|s| - 1..] == [s[|s| - 1], '\n', '\n'];
    }
  }

  /** Output that does not end in a newline is left as it is. */
  lemma TrimLineEndingNoNewline(s: string)
    requires s == [] || s[|s| - 1] != '\n'
    ensures TrimLineEnding(s) == s
  {
  }

  /**
    * Whatever the source of a proxy, one taken from npm is an http or https
    * URL with a non-empty remainder and never ends in the newline npm printed.
    */
  lemma NpmProxyIsHttpUrl(stdout: string)
    requires ResolveProxy(None, NpmSucceeded(stdout)).Some?
    ensures var p := ResolveProxy(None, NpmSucceeded(stdout)).value;
      (StartsWith(p, "http://") || StartsWith(p, "https://")) && |p| > 7
      && StartsWith(stdout, p)
  {
  }

  /** The environment's answer wins even when npm would name a different proxy. */
  lemma EnvironmentProxyWins(p: string, npm: NpmOutcome)
    ensures ResolveProxy(Some(p), npm) == Some(p)
  {
  }

  /** A single `\n` after text that does not end in `\r` is removed. */
  lemma TrimNewline(s: string)
    requires s == [] || s[|s| - 1] != '\r'
    ensures TrimLineEnding(s + "\n") == s
  {
    var t := s + "\n";
    assert t[..|s|] == s;
    if s != [] {
      assert t[|t| - 2..][0] == s[|s| - 1];
    }
  }

  /** A typical npm answer: the URL followed by one newline. */
  lemma NpmProxyExample()
    ensures ResolveProxy(None, NpmSucceeded("http://proxy:3128\n")) == Some("http://proxy:3128")
  {
    var u := "http://proxy:3128";
    assert TrimLineEnding("http://proxy:3128\n") == u by {
      assert u + "\n" == "http://proxy:3128\n";
      TrimNewline(u);
    }
    assert u[..7] == "http://";
  }

  /** npm prints `null` when no proxy is configured; that is no URL. */
  lemma NpmNullExample()
    ensures ResolveProxy(None, NpmSucceeded("null\n")) == None
  {
    assert TrimLineEnding("null\n") == "null" by {
      assert "null" + "\n" == "null\n";
      TrimNewline("null");
    }
  }

  /** A scheme with nothing after `//` is not accepted. */
  lemma NpmBareSchemeExample()
    ensures ResolveProxy(None, NpmSucceeded("http://\n")) == None
  {
    assert TrimLineEnding("http://\n") == "http://" by {
      assert "http://" + "\n" == "http://\n";
      TrimNewline("http://");
    }
  }
}
