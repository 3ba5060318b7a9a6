/**
 * The login page's submit handler: the two presence checks, in order, then the request and
 * what its success or failure leaves in the errors, the store and the browser's storage.
 */
module LoginPage {
  import opened Wrappers
  import opened AppContext
  import opened Session

  datatype Field = Email | Password

  const EmailRequired := "Email is required"
  const PasswordRequired := "Password is required"
  const DefaultFailure := "Invalid email or password"

  /** The body of the `/auth/login` request. */
  datatype Credentials = Credentials(email: string, password: string)

  class LoginForm {
    var email: string
    var password: string
    var rememberMe: bool
    var isLoading: bool
    var errors: map<Field, string>

    constructor ()
      ensures email == "" && password == "" && !rememberMe && !isLoading && errors == map[]
    {
      email := "";
      password := "";
      rememberMe := false;
      isLoading := false;
      errors := map[];
    }

    /**
     * `handleSubmit`. The errors are cleared first. An empty email records only the email error
     * and an empty password (with an email) only the password error; neither sends a request.
     * Otherwise `{ email, password }` is posted. On success the token is stored, the user is set
     * only when the context supplies `setUser`, the user record is kept only with "remember me",
     * and the page becomes 'home'. On failure both fields show the server's message or the
     * default one. The loading flag is down again after every outcome.
     */
    method HandleSubmit(store: AppState, storage: Storage, setUserSupplied: bool, outcome: AuthOutcome)
      returns (request: Option<Credentials>)
      modifies this`errors, this`isLoading, store`user, store`currentPage, storage`token, storage`rememberedUser
      ensures request.Some? <==> email != "" && password != ""
      ensures email == "" ==> errors == map[Email := EmailRequired]
      ensures email != "" && password == "" ==> errors == map[Password := PasswordRequired]
      ensures request.None? ==>
        isLoading == old(isLoading) && store.user == old(store.user) && store.currentPage == old(store.currentPage)
        && storage.token == old(storage.token) && storage.rememberedUser == old(storage.rememberedUser)
      ensures request.Some? ==> request.value == Credentials(email, password) && !isLoading
      ensures request.Some? && outcome.Authenticated? ==>
        errors == map[] && storage.token == Some(outcome.token) && store.currentPage == "home"
        && store.user == (if setUserSupplied then Some(AccountUser(outcome)) else old(store.user))
        && storage.rememberedUser == (if rememberMe then Some(AccountUser(outcome)) else old(storage.rememberedUser))
      ensures request.Some? && outcome.Failed? ==>
        var m := FailureMessage(outcome.message, DefaultFailure);
        errors == map[Email := m, Password := m]
        && store.user == old(store.user) && store.currentPage == old(store.currentPage)
        && storage.token == old(storage.token) && storage.rememberedUser == old(storage.rememberedUser)
    {
      errors := map[];
      if email == "" {
        errors := errors[Email := EmailRequired];
        return None;
      }
      if password == "" {
        errors := errors[Password := PasswordRequired];
        return None;
      }
      isLoading := true;
      request := Some(Credentials(email, password));
      match outcome {
        case Authenticated(_, _, _, token) =>
          storage.token := Some(token);
          if setUserSupplied {
            store.user := Some(AccountUser(outcome));
          }
          if rememberMe {
            storage.rememberedUser := Some(AccountUser(outcome));
          }
          store.SetCurrentPage("home");
        case Failed(message) =>
          var m := FailureMessage(message, DefaultFailure);
          errors := map[Email := m, Password := m];
      }
      isLoading := false;
    }
  }
}
