/** The route guard (middleware.ts): public paths pass, every other path
    needs the `zetta_auth_active` cookie set to `"1"`. */
module Middleware {
  import opened Wrappers
  import opened Strings

  /** The answer: go on to the page, or redirect. */
  datatype Response = Next | Redirect(path: string)

  /** The public paths: three prefixes and one exact path. */
  predicate IsPublic(path: string) {
    StartsWith(path, "/sign-in") || StartsWith(path, "/_next") || StartsWith(path, "/api") || path == "/favicon.ico"
  }

  /** `middleware`: `cookie` is the value of `zetta_auth_active`, if set. */
  function Decide(path: string, cookie: Option<string>): (r: Response)
    ensures IsPublic(path) ==> r == Next
    ensures !IsPublic(path) ==> (r == Next <==> cookie == Some("1"))
    ensures r.Redirect? ==> r.path == "/sign-in"
  {
    if IsPublic(path) then Next
    else if cookie == Some("1") then Next
    else Redirect("/sign-in")
  }

  /** The public test is by prefix, so longer paths pass too; the favicon
      must match exactly. */
  lemma PrefixMatching()
    ensures Decide("/sign-inX", None) == Next
    ensures Decide("/apiX", None) == Next
    ensures Decide("/favicon.ico", None) == Next
    ensures Decide("/favicon.icoX", None) == Redirect("/sign-in")
  {
    assert "/sign-inX"[..|"/sign-in"|] == "/sign-in";
    assert "/apiX"[..|"/api"|] == "/api";
    assert "/favicon.icoX"[1] == 'f';
    assert "/favicon.icoX"[..|"/sign-in"|][1] != "/sign-in"[1];
    assert "/favicon.icoX"[..|"/_next"|][1] != "/_next"[1];
    assert "/favicon.icoX"[..|"/api"|][1] != "/api"[1];
  }

  /** Any cookie value other than exactly `"1"` is turned away from a
      protected page. */
  lemma CookieMustBeOne(path: string, v: string)
    requires !IsPublic(path) && v != "1"
    ensures Decide(path, Some(v)) == Redirect("/sign-in")
    ensures Decide(path, None) == Redirect("/sign-in")
  {
  }

  /** The `favicon.ico` alternative of the matcher's look-ahead: the `.` is
      a regular-expression wildcard, so any character may stand between
      `/favicon` and `ico`. */
  predicate FaviconPattern(path: string) {
    |path| >= 12 && path[..8] == "/favicon" && path[9..12] == "ico"
  }

  /** `config.matcher`: the middleware does not run for paths under
      `/_next/static`, `/_next/image` or matching `/favicon.ico` as a
      pattern. */
  predicate Matched(path: string) {
    !(StartsWith(path, "/_next/static") || StartsWith(path, "/_next/image") || FaviconPattern(path))
  }

  /** Every path starting with the literal `/favicon.ico` matches the
      pattern. */
  lemma FaviconLiteral(path: string)
    ensures StartsWith(path, "/favicon.ico") ==> FaviconPattern(path)
  {
    if StartsWith(path, "/favicon.ico") {
      assert path[..8] == "/favicon.ico"[..8];
      assert path[9..12] == "/favicon.ico"[9..12];
    }
  }

  /** The guard as deployed: unmatched paths pass without the middleware. */
  function Gate(path: string, cookie: Option<string>): (r: Response)
    ensures !Matched(path) ==> r == Next
    ensures Matched(path) ==> r == Decide(path, cookie)
  {
    if Matched(path) then Decide(path, cookie) else Next
  }

  /** Once the matcher is in front, a path that starts with `/favicon.ico`
      passes without the cookie, although `middleware` alone would
      redirect it. */
  lemma MatcherPassesFaviconPrefix()
    ensures Gate("/favicon.icoX", None) == Next
    ensures Decide("/favicon.icoX", None) != Next
  {
    assert "/favicon.icoX"[..|"/favicon.ico"|] == "/favicon.ico";
    FaviconLiteral("/favicon.icoX");
    PrefixMatching();
  }

  /** The wildcard lets `/faviconXico` through without the cookie too,
      although it is no public path. */
  lemma MatcherDotIsWildcard()
    ensures Gate("/faviconXico", None) == Next
    ensures !IsPublic("/faviconXico") && Decide("/faviconXico", None) == Redirect("/sign-in")
  {
    var p := "/faviconXico";
    assert p[..8] == "/favicon" && p[9..12] == "ico";
    assert !StartsWith(p, "/sign-in") by { assert p[..|"/sign-in"|] != "/sign-in" by { assert p[2] != "/sign-in"[2]; } }
    assert !StartsWith(p, "/_next") by { assert p[1] != "/_next"[1]; }
    assert !StartsWith(p, "/api") by { assert p[1] != "/api"[1]; }
  }

  /** The skipped `/_next/...` paths are all under `/_next`. */
  lemma NextPrefixes(path: string)
    ensures StartsWith(path, "/_next/static") ==> StartsWith(path, "/_next")
    ensures StartsWith(path, "/_next/image") ==> StartsWith(path, "/_next")
  {
    if StartsWith(path, "/_next/static") {
      assert path[..|"/_next"|] == "/_next/static"[..|"/_next"|];
    }
    if StartsWith(path, "/_next/image") {
      assert path[..|"/_next"|] == "/_next/image"[..|"/_next"|];
    }
  }

  /** The matcher only skips paths the middleware would let through anyway,
      or ones matching the favicon pattern: a protected page still needs the
      cookie. */
  lemma GateProtects(path: string, cookie: Option<string>)
    requires !IsPublic(path) && !FaviconPattern(path)
    ensures Gate(path, cookie) == Next <==> cookie == Some("1")
  {
    NextPrefixes(path);
  }
}
