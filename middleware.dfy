/** The route gate that runs before every page request: public and API paths
    pass, a visitor without a session token is sent to the login page, and a
    signed-in visitor on the login page is sent home. The cookie store is
    abstracted to the optional token value. */
module Middleware {
  import opened Values

  datatype Decision = Next | Redirect(target: string)

  predicate StartsWith(s: string, prefix: string) {
    |prefix| <= |s| && s[..|prefix|] == prefix
  }

  const LoginPath := "/login"
  const LoginRedirect := "/admin/login"
  const Home := "/"

  /** The gate as written. */
  function Decide(pathname: string, token: Option<string>): (d: Decision)
    ensures StartsWith(pathname, "/api") || StartsWith(pathname, "/public") ==> d == Next
    ensures !StartsWith(pathname, "/api") && !StartsWith(pathname, "/public") ==>
      (d == Redirect("/admin/login") <==> !TruthyString(token) && pathname != "/login")
    ensures !StartsWith(pathname, "/api") && !StartsWith(pathname, "/public") ==>
      (d == Redirect("/") <==> TruthyString(token) && pathname == "/login")
    ensures d.Redirect? ==> d.target == "/admin/login" || d.target == "/"
  {
    if StartsWith(pathname, "/api") || StartsWith(pathname, "/public") then Next
    else if !TruthyString(token) && pathname != LoginPath then Redirect(LoginRedirect)
    else if TruthyString(token) && pathname == LoginPath then Redirect(Home)
    else Next
  }

  /** Without a token the login page itself passes, and with one every path
      other than the login page passes. */
  lemma PassesThrough(pathname: string, token: Option<string>)
    requires (!TruthyString(token) && pathname == "/login") || (TruthyString(token) && pathname != "/login")
    ensures Decide(pathname, token) == Next
  {
  }

  /** The decision depends on the token only through its truthiness: an absent
      token and an empty one are treated alike. */
  lemma DependsOnlyOnTruthiness(pathname: string, t1: Option<string>, t2: Option<string>)
    requires TruthyString(t1) == TruthyString(t2)
    ensures Decide(pathname, t1) == Decide(pathname, t2)
  {
  }

  /** As written, the login redirect for a visitor without a token points at a
      path that is not the login page, so following it redirects again, to the
      same place, forever. */
  lemma LoginRedirectLoops(token: Option<string>)
    requires !TruthyString(token)
    ensures Decide("/admin/login", token) == Redirect("/admin/login")
    ensures forall p :: Decide(p, token) == Redirect("/admin/login") ==>
      Decide(Decide(p, token).target, token) == Decide(p, token)
  {
    assert !StartsWith("/admin/login", "/api") by {
      assert "/admin/login"[..4][2] != "/api"[2];
    }
    assert !StartsWith("/admin/login", "/public") by {
      assert "/admin/login"[..7][1] != "/public"[1];
    }
  }

  /** The gate as intended: the no-token redirect goes to the login page. */
  function DecideCorrected(pathname: string, token: Option<string>): (d: Decision)
    ensures d.Redirect? ==> d.target == "/login" || d.target == "/"
  {
    if StartsWith(pathname, "/api") || StartsWith(pathname, "/public") then Next
    else if !TruthyString(token) && pathname != LoginPath then Redirect(LoginPath)
    else if TruthyString(token) && pathname == LoginPath then Redirect(Home)
    else Next
  }

  /** With the corrected target every redirect lands on a page that passes:
      no visitor is redirected twice in a row. */
  lemma CorrectedRedirectSettles(pathname: string, token: Option<string>)
    ensures DecideCorrected(pathname, token).Redirect? ==>
      DecideCorrected(DecideCorrected(pathname, token).target, token) == Next
  {
    assert !StartsWith("/login", "/api") by {
      assert "/login"[..4][1] != "/api"[1];
    }
    assert !StartsWith("/login", "/public");
    assert !StartsWith("/", "/api") && !StartsWith("/", "/public");
  }

  /** The correction changes nothing but the no-token redirect target. */
  lemma CorrectedAgreesElsewhere(pathname: string, token: Option<string>)
    ensures Decide(pathname, token) != Redirect("/admin/login") ==>
      DecideCorrected(pathname, token) == Decide(pathname, token)
    ensures Decide(pathname, token) == Redirect("/admin/login") <==>
      DecideCorrected(pathname, token) == Redirect("/login")
  {
  }
}
