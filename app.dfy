/** The top-level page: the login/registration form, the token and username it
    keeps (mirrored in the browser's local storage) and the choice between the
    form and the chat view. The outcome of the REST call is an input. */
module AppState {
  import opened CredentialForm

  /** What the login or registration endpoint answered: a token and username
      (login), or a failure. A registration's answer carries no token; its
      fields are ignored. */
  datatype Reply = Succeeded(token: string, username: string) | Failed

  datatype Route = RegisterRoute | LoginRoute

  /** What a press of the submit button did: the schema rejected the form (and
      nothing was called), or one endpoint was called and answered. */
  datatype SubmitOutcome = Rejected(errors: seq<FieldError>) | Called(route: Route, succeeded: bool)

  /** What the page shows. */
  datatype View = LoginForm(registering: bool) | ChatView(token: string, username: string)

  const TokenKey: string := "token"
  const UsernameKey: string := "username"

  /** `localStorage.getItem(key) || ''`: a missing key and an empty value both give "". */
  function Stored(storage: map<string, string>, key: string): string {
    if key in storage then storage[key] else ""
  }

  /** The endpoint a submitted form goes to: decided by whether the username
      field is non-empty, not by the page's mode. */
  function RouteFor(form: Credentials): Route {
    if form.username != "" then RegisterRoute else LoginRoute
  }

  /** A form the schema accepts in registration mode always goes to the
      registration endpoint. */
  lemma AcceptedRegistrationRegisters(form: Credentials, isEmail: string -> bool)
    requires Validate(form, true, isEmail) == []
    ensures RouteFor(form) == RegisterRoute
  {
    SchemaAcceptsIff(form, true, isEmail);
  }

  /** In login mode the schema does not look at the username, so an accepted
      form with a non-empty username still goes to the registration endpoint. */
  lemma LoginModeRoutesOnData(form: Credentials, isEmail: string -> bool)
    requires form.email != "" && isEmail(form.email) && |form.password| >= 6
    ensures Validate(form, false, isEmail) == []
    ensures form.username != "" ==> RouteFor(form) == RegisterRoute
  {
    SchemaAcceptsIff(form, false, isEmail);
  }

  class App {
    var isRegistering: bool
    var token: string
    var username: string
    var storage: map<string, string>

    /** The in-memory token and username are what storage holds for them. */
    predicate Synced()
      reads this
    {
      token == Stored(storage, TokenKey) && username == Stored(storage, UsernameKey)
    }

    /** The chat view is shown exactly when the token is non-empty. */
    function CurrentView(): View
      reads this
    {
      if token == "" then LoginForm(isRegistering) else ChatView(token, username)
    }

    /** Page load: login mode, token and username read back from storage. */
    constructor (stored: map<string, string>)
      ensures storage == stored && !isRegistering
      ensures token == Stored(stored, TokenKey) && username == Stored(stored, UsernameKey)
      ensures Synced()
      ensures CurrentView().ChatView? <==> Stored(stored, TokenKey) != ""
    {
      isRegistering := false;
      storage := stored;
      token := Stored(stored, TokenKey);
      username := Stored(stored, UsernameKey);
    }

    /** The submit button: the schema (with the current mode as context) gates
        the call; a form with a username is registered, any other logs in; only
        a successful login changes the token and username, in memory and in
        storage. */
    method Submit(form: Credentials, isEmail: string -> bool, reply: Reply) returns (outcome: SubmitOutcome)
      modifies this
      ensures isRegistering == old(isRegistering)
      ensures Validate(form, old(isRegistering), isEmail) != [] ==>
        outcome == Rejected(Validate(form, old(isRegistering), isEmail))
      ensures Validate(form, old(isRegistering), isEmail) == [] ==>
        outcome == Called(RouteFor(form), reply.Succeeded?)
      ensures outcome == Called(LoginRoute, true) ==>
        && token == reply.token && username == reply.username
        && storage == old(storage)[TokenKey := reply.token][UsernameKey := reply.username]
      ensures outcome != Called(LoginRoute, true) ==>
        token == old(token) && username == old(username) && storage == old(storage)
      ensures old(Synced()) ==> Synced()
    {
      var errors := Validate(form, isRegistering, isEmail);
      if errors != [] {
        return Rejected(errors);
      }
      if form.username != "" {
        outcome := Called(RegisterRoute, reply.Succeeded?);
      } else {
        outcome := Called(LoginRoute, reply.Succeeded?);
        if reply.Succeeded? {
          token := reply.token;
          username := reply.username;
          storage := storage[TokenKey := reply.token][UsernameKey := reply.username];
        }
      }
    }

    /** Logout: token and username become "", both keys leave storage, and the
        login form is shown. */
    method Logout()
      modifies this
      ensures token == "" && username == "" && isRegistering == old(isRegistering)
      ensures storage == old(storage) - {TokenKey, UsernameKey}
      ensures Synced()
      ensures CurrentView() == LoginForm(isRegistering)
    {
      token := "";
      username := "";
      storage := storage - {TokenKey, UsernameKey};
    }

    /** The "Login" link: switch the form to login mode. */
    method NavigateToLogin()
      modifies this`isRegistering
      ensures !isRegistering
    {
      isRegistering := false;
    }

    /** The "Register" link: switch the form to registration mode. */
    method NavigateToRegister()
      modifies this`isRegistering
      ensures isRegistering
    {
      isRegistering := true;
    }
  }
}
