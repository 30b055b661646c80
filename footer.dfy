/** The footer, which the sign-in, sign-up and verification pages do without. */
module Footer {
  import opened Wrappers
  import opened JsStrings
  import opened Navbar

  const AuthPrefixes: seq<string> := ["/signin", "/signup", "/verify"]

  /** `isAuthPage` for an already defaulted path. */
  function IsAuthPath(path: string): (r: bool)
    ensures r <==> StartsWith(path, "/signin") || StartsWith(path, "/signup") || StartsWith(path, "/verify")
  {
    assert AuthPrefixes[0] == "/signin" && AuthPrefixes[1] == "/signup" && AuthPrefixes[2] == "/verify";
    exists k :: 0 <= k < |AuthPrefixes| && StartsWith(path, AuthPrefixes[k])
  }

  /** Whether the footer renders for the router's pathname. */
  function ShowsFooter(pathname: Option<string>): (r: bool)
    ensures var path := CurrentPath(pathname);
            r <==> !(StartsWith(path, "/signin") || StartsWith(path, "/signup") || StartsWith(path, "/verify"))
  {
    !IsAuthPath(CurrentPath(pathname))
  }

  /** Anything under an auth page is an auth page too. */
  lemma AuthPathExtends(path: string, suffix: string)
    requires IsAuthPath(path)
    ensures IsAuthPath(path + suffix)
  {
    var k :| 0 <= k < |AuthPrefixes| && StartsWith(path, AuthPrefixes[k]);
    assert (path + suffix)[..|AuthPrefixes[k]|] == path[..|AuthPrefixes[k]|];
  }
}
