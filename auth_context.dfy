/**
 * The client-side identity of frontend/lib/AuthContext.tsx: the provider's
 * `user` and `isLoading` state, `login`, `logout`, the mount effect, and the
 * `useAuth` guard. The API call of each operation is a parameter giving its
 * result; the navigation to `/login` is returned.
 */
module AuthContext {
  import opened Wrappers
  import opened Json
  import Sessions
  import Schemas

  /** The message `useAuth` throws outside a provider. */
  const OutsideProvider: string := "useAuth must be used within an AuthProvider"

  /** Where `logout` navigates. */
  const LoginPath: string := "/login"

  /** The provider's state. */
  class AuthProvider {
    var user: Option<Sessions.User>
    var isLoading: bool

    /** Nobody signed in, still loading. */
    constructor ()
      ensures user == None && isLoading
    {
      user := None;
      isLoading := true;
    }

    /** The mount effect: loading ends without asking the server anything. */
    method Mount()
      modifies this`isLoading
      ensures !isLoading
    {
      isLoading := false;
    }

    /**
     * `login`: posts the credentials (`sent` is the body) and stores the
     * answer; a failed request reaches the caller and leaves `user` as it was.
     */
    method Login(username: string, password: string, reply: Result<Sessions.User, string>)
      returns (sent: Json, outcome: Outcome<string>)
      modifies this`user
      ensures sent == Schemas.LoginJson(Schemas.LoginRequest(username, password))
      ensures reply.Success? ==> user == Some(reply.value) && outcome == Pass
      ensures reply.Failure? ==> user == old(user) && outcome == Fail(reply.error)
    {
      sent := Schemas.LoginJson(Schemas.LoginRequest(username, password));
      if reply.Failure? {
        return sent, Fail(reply.error);
      }
      user := Some(reply.value);
      outcome := Pass;
    }

    /**
     * `logout`: the request's failure is caught, and either way the user is
     * cleared and the page navigates to the login route.
     */
    method Logout(requestOk: bool) returns (navigateTo: string)
      modifies this`user
      ensures user == None
      ensures navigateTo == LoginPath
    {
      user := None;
      navigateTo := LoginPath;
    }
  }

  /** `useAuth()`: the enclosing provider (None when there is none), or the error it throws. */
  function UseAuth(context: Option<AuthProvider>): (r: Result<AuthProvider, string>)
    ensures r.Success? <==> context.Some?
    ensures r.Success? ==> r.value == context.value
    ensures r.Failure? ==> r.error == OutsideProvider
  {
    match context
    case None => Failure(OutsideProvider)
    case Some(p) => Success(p)
  }
}
