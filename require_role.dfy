/** The role gate (src/modules/shared/components/require-role.tsx): what it
    renders and when it redirects, from the authentication state. */
module RequireRole {
  import opened Wrappers
  import opened Auth

  /** What the gate renders. */
  datatype View = LoadingPlaceholder | Nothing | Children

  /** The render decision: the placeholder while loading, then the
      children for a user holding the role and nothing for anyone else. */
  function Render(isLoading: bool, hasRole: bool): (v: View)
    ensures isLoading ==> v == LoadingPlaceholder
    ensures v == Children <==> !isLoading && hasRole
    ensures v == Nothing <==> !isLoading && !hasRole
  {
    if isLoading then LoadingPlaceholder
    else if !hasRole then Nothing
    else Children
  }

  /** The effect's decision: redirect an authenticated user lacking the role
      once loading is over. */
  predicate Redirects(isLoading: bool, isAuthenticated: bool, hasRole: bool) {
    !isLoading && isAuthenticated && !hasRole
  }

  /** Where the redirect goes: `fallbackPath`, `"/dashboard"` when the prop
      is not given. */
  function RedirectTarget(fallbackPath: Option<string>): (p: string)
    ensures fallbackPath.None? ==> p == "/dashboard"
    ensures fallbackPath.Some? ==> p == fallbackPath.value
  {
    fallbackPath.GetOr("/dashboard")
  }

  /** Under the gate, for a given sign-in state: a redirect always comes with
      an empty render, children never come with one, and an admin is never
      redirected. */
  lemma GateDecisions(user: Option<User>, token: Option<string>, isLoading: bool, r: Role)
    ensures Redirects(isLoading, IsAuthenticated(user, token), HasRole(user, r)) ==>
      Render(isLoading, HasRole(user, r)) == Nothing
    ensures Render(isLoading, HasRole(user, r)) == Children ==>
      !Redirects(isLoading, IsAuthenticated(user, token), HasRole(user, r))
    ensures user.Some? && user.value.role == Admin ==>
      !Redirects(isLoading, IsAuthenticated(user, token), HasRole(user, r))
  {
  }

  /** A signed-in `BASIC` user at an `ADMIN` gate, once loading is over, sees
      nothing and is sent to the fallback; with no user nothing is shown and
      no redirect is made. */
  lemma BasicAtAdminGate(u: User, token: Option<string>)
    requires u.role == Basic && TruthyString(token)
    ensures Render(false, HasRole(Some(u), Admin)) == Nothing
    ensures Redirects(false, IsAuthenticated(Some(u), token), HasRole(Some(u), Admin))
    ensures Render(false, HasRole(None, Admin)) == Nothing
    ensures !Redirects(false, IsAuthenticated(None, token), HasRole(None, Admin))
  {
  }
}
