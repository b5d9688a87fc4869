/** The authentication context (src/modules/shared/contexts/auth-context.tsx
    and src/modules/shared/lib/auth-types.ts): the signed-in user and token,
    the role test and the events that change them. The requests to the
    back end are outcomes handed to the methods; `localStorage` and the
    `zetta_auth_active` cookie are not part of this model. */
module Auth {
  import opened Wrappers

  /** `Role`. */
  datatype Role = Admin | Basic

  /** `User`. */
  datatype User = User(id: string, email: string, name: Option<string>, image: Option<string>, role: Role)

  /** `hasRole`. */
  predicate HasRole(user: Option<User>, r: Role)
    ensures HasRole(user, r) <==> user.Some? && (user.value.role == r || user.value.role == Admin)
  {
    if user.None? then false
    else if user.value.role == Admin then true
    else user.value.role == r
  }

  /** The roles are nested: every signed-in user has `BASIC`, only an
      `ADMIN` has `ADMIN`, and nobody has a role without a user. */
  lemma RolesNested(user: Option<User>)
    ensures HasRole(user, Basic) <==> user.Some?
    ensures HasRole(user, Admin) <==> user.Some? && user.value.role == Admin
    ensures HasRole(user, Admin) ==> HasRole(user, Basic)
  {
  }

  /** `isAuthenticated`: a user and a non-empty token. */
  predicate IsAuthenticated(user: Option<User>, token: Option<string>)
    ensures IsAuthenticated(user, token) <==> user.Some? && token.Some? && token.value != ""
  {
    user.Some? && TruthyString(token)
  }

  /** The answer to the sign-in request: the token and user of an OK
      response, or the `error` field (if any) of a rejected one. */
  datatype LoginResponse = Accepted(token: string, user: User) | Rejected(bodyError: Option<string>)

  class AuthProvider {
    var user: Option<User>
    var token: Option<string>
    var isLoading: bool

    /** The initial state: nobody signed in, still loading. */
    constructor ()
      ensures user.None? && token.None? && isLoading
    {
      user, token, isLoading := None, None, true;
    }

    predicate Authenticated()
      reads this
    {
      IsAuthenticated(user, token)
    }

    /** The mount effect reads the stored token: with none (or an empty one)
        loading ends at once; otherwise the token is returned to be checked
        and loading goes on. */
    method Mount(stored: Option<string>) returns (check: Option<string>)
      modifies this`isLoading
      ensures check.Some? <==> TruthyString(stored)
      ensures check.Some? ==> check == stored && isLoading == old(isLoading)
      ensures check.None? ==> !isLoading
    {
      if TruthyString(stored) {
        check := stored;
      } else {
        check := None;
        isLoading := false;
      }
    }

    /** The check of the stored token `stored` has answered: an accepted
        token signs its user in, a rejected one leaves nobody signed in;
        loading ends either way. */
    method FinishMount(stored: string, res: Result<User>)
      modifies this
      ensures res.Ok? ==> token == Some(stored) && user == Some(res.value)
      ensures res.Err? ==> token == old(token) && user == old(user)
      ensures !isLoading
    {
      match res {
        case Ok(u) =>
          token := Some(stored);
          user := Some(u);
        case Err(_) =>
      }
      isLoading := false;
    }

    /** `loginWithGoogle`: an accepted sign-in sets the token and the user;
        a rejected one throws `thrown` and changes nothing. */
    method Login(res: LoginResponse) returns (thrown: Option<string>)
      modifies this`token, this`user
      ensures res.Accepted? ==> thrown.None? && token == Some(res.token) && user == Some(res.user)
      ensures res.Accepted? ==> (Authenticated() <==> res.token != "")
      ensures res.Rejected? ==> thrown == Some(OrText(res.bodyError, "Authentication failed"))
      ensures res.Rejected? ==> token == old(token) && user == old(user)
    {
      match res {
        case Accepted(t, u) =>
          token := Some(t);
          user := Some(u);
          thrown := None;
        case Rejected(e) =>
          thrown := Some(OrText(e, "Authentication failed"));
      }
    }

    /** `logout`: nobody is signed in afterwards, whatever the state was. */
    method Logout()
      modifies this`token, this`user
      ensures token.None? && user.None?
      ensures !Authenticated() && !HasRole(user, Basic) && !HasRole(user, Admin)
    {
      token := None;
      user := None;
    }
  }
}
