/**
 * The page guard of src/middleware.ts: sign-in, heartbeat and framework paths always pass;
 * any other request without a session token is sent to the login page.
 */
module Middleware {
  import opened Text

  datatype Decision = Pass | RedirectTo(path: string)

  const LoginPath: string := "/login"

  /** The paths that pass with or without a session. */
  predicate Exempt(path: string) {
    || StartsWith(path, "/api/auth")
    || StartsWith(path, "/api/heartbeat")
    || StartsWith(path, "/_next")
    || Contains(path, "favicon.ico")
    || path == LoginPath
  }

  function Decide(path: string, hasToken: bool): (d: Decision)
    ensures d.RedirectTo? <==> !hasToken && !Exempt(path)
    ensures d.RedirectTo? ==> d.path == LoginPath
  {
    if Exempt(path) then Pass
    else if !hasToken then RedirectTo(LoginPath)
    else Pass
  }

  /** A session token always passes. */
  lemma TokenAlwaysPasses(path: string)
    ensures Decide(path, true) == Pass
  {
  }

  /** The login page is exempt, so a redirected request is not redirected again. */
  lemma RedirectIsFinal(path: string, hasToken: bool)
    requires Decide(path, hasToken).RedirectTo?
    ensures Decide(Decide(path, hasToken).path, hasToken) == Pass
  {
  }

  /** The monitoring endpoints jobs call are never redirected. */
  lemma HeartbeatPathsPass(suffix: string, hasToken: bool)
    ensures Decide("/api/heartbeat" + suffix, hasToken) == Pass
  {
    assert ("/api/heartbeat" + suffix)[..|"/api/heartbeat"|] == "/api/heartbeat";
  }

  /** Any path holding "favicon.ico" anywhere passes. */
  lemma FaviconPathsPass(before: string, after: string, hasToken: bool)
    ensures Decide(before + "favicon.ico" + after, hasToken) == Pass
  {
    var path := before + "favicon.ico" + after;
    assert StartsWith(path[|before|..], "favicon.ico") by {
      assert path[|before|..][..|"favicon.ico"|] == "favicon.ico";
    }
    ContainsAt(path, "favicon.ico");
  }
}
