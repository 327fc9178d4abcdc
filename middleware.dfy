/** The request gate in front of the pages: without a sign-in token, only the
    listed public pages can be reached; everything else is sent to the login page. */
module Middleware {
  import opened Common

  const LoginPath := "/loginSystem/login"

  /** The public pages, compared by exact equality with the request path. */
  const PublicPaths: seq<string> := [
    "/", LoginPath, "/loginSystem/signup", "../public", "/loginSystem/forgot-password",
    "/loginSystem/reset-password", "/how-it-works", "/loginSystem/verify-otp"]

  datatype Decision = Next | Redirect(target: string)

  predicate IsPublic(path: string)
  {
    path in PublicPaths
  }

  /** The gate for a request the gate runs on. */
  function Gate(hasToken: bool, path: string): (d: Decision)
    ensures d.Redirect? <==> !hasToken && !IsPublic(path)
    ensures d.Redirect? ==> d.target == LoginPath
  {
    if !hasToken && !IsPublic(path) then Redirect(LoginPath) else Next
  }

  /** The login page is public, so a redirected request is let through. */
  lemma RedirectTargetIsPublic(hasToken: bool, path: string)
    ensures Gate(hasToken, path).Redirect? ==> Gate(hasToken, Gate(hasToken, path).target) == Next
  {
    assert PublicPaths[1] == LoginPath;
  }

  /** Membership is exact: a listed page with a trailing slash or a sub-page is not public. */
  lemma NoPrefixMatching()
    ensures !IsPublic(LoginPath + "/")
    ensures !IsPublic("/how-it-works/details")
    ensures Gate(false, LoginPath + "/") == Redirect(LoginPath)
  {
    var slash := LoginPath + "/";
    assert |slash| == 19 && slash[13] == 'l';
    forall i | 0 <= i < |PublicPaths| ensures PublicPaths[i] != slash && PublicPaths[i] != "/how-it-works/details" {
      assert |PublicPaths[i]| != 19 || PublicPaths[i][13] != 'l';
      assert |PublicPaths[i]| != |"/how-it-works/details"|;
    }
  }

  // ---------------------------------------------------------------------------
  // Which paths the gate runs on

  /** The file extensions whose requests are left alone. */
  predicate HasImageSuffix(rest: string)
  {
    Contains(rest, ".jpg") || Contains(rest, ".jpeg") || Contains(rest, ".png")
    || Contains(rest, ".gif") || Contains(rest, ".webp")
  }

  /** `favicon.ico` as a pattern: its dot stands for any one character. */
  predicate FaviconPrefix(rest: string)
  {
    |rest| >= 11 && rest[..7] == "favicon" && rest[8..11] == "ico"
  }

  /** The matcher: a path starting with `/` whose remainder does not start
      with one of the excluded prefixes and holds no image extension. */
  predicate Matched(path: string)
  {
    |path| >= 1 && path[0] == '/' &&
    var rest := path[1..];
    && !IsPrefix("api", rest) && !IsPrefix("_next/static", rest) && !IsPrefix("_next/image", rest)
    && !FaviconPrefix(rest) && !IsPrefix("public", rest) && !IsPrefix("assets", rest)
    && !IsPrefix("images", rest) && !HasImageSuffix(rest)
  }

  /** What happens to a request: unmatched paths pass untouched, matched ones go through the gate. */
  function Handle(hasToken: bool, path: string): (d: Decision)
    ensures !Matched(path) ==> d == Next
    ensures Matched(path) ==> d == Gate(hasToken, path)
  {
    if Matched(path) then Gate(hasToken, path) else Next
  }

  /** The API routes are never gated here; they check the session themselves. */
  lemma ApiNotGated(hasToken: bool, path: string)
    requires IsPrefix("/api", path)
    ensures Handle(hasToken, path) == Next
  {
    assert path[1..][..3] == path[1..4] == "api";
  }

  /** A signed-in request is never redirected. */
  lemma TokenPasses(path: string)
    ensures Handle(true, path) == Next
  {
  }
}
