/** The login page's submit handler: after a simulated delay it accepts any non-empty email
    and password, stores a user record derived from the email and moves on to the chat page;
    otherwise it stores nothing and stays. */
module Login {
  import opened Types
  import opened Text

  const PlaceholderAvatar: string := "/placeholder.svg?height=40&width=40"
  const LoginRoute: string := "/login"
  const ChatRoute: string := "/chat"

  /** The email and password a submit captured for its delayed check. */
  datatype Credentials = Credentials(email: string, password: string)

  /** The user record stored on success: id "1", the email's part before the first `@` as the
      name (the whole email when it has none), the email verbatim, the placeholder avatar. */
  function StoredUser(email: string): (u: User)
    ensures u.id == "1" && u.email == email && u.avatar == PlaceholderAvatar
    ensures u.name <= email && '@' !in u.name
    ensures '@' in email ==> email[|u.name|] == '@'
    ensures '@' !in email ==> u.name == email
  {
    var name := BeforeFirst(email, '@');
    User("1", name, email, PlaceholderAvatar)
  }

  /** The decision `if (email && password)`: a record to store exactly when both are non-empty. */
  function Attempt(c: Credentials): (r: Option<User>)
    ensures r.Some? <==> c.email != "" && c.password != ""
    ensures r.Some? ==> r.value.id == "1" && r.value.email == c.email && r.value.name <= c.email
  {
    if c.email != "" && c.password != "" then Some(StoredUser(c.email)) else None
  }

  /** An accepted email with an `@` splits into the stored name, the `@`, and the rest. */
  lemma StoredNameSplitsEmail(email: string)
    requires '@' in email
    ensures email == StoredUser(email).name + "@" + email[|StoredUser(email).name| + 1..]
  {
    BeforeFirstSplits(email, '@');
  }

  class LoginPage {
    var email: string
    var password: string
    var isLoading: bool
    /** The browser storage entry "user". */
    var stored: Option<User>
    /** The route the page has navigated to. */
    var route: string

    /** The page as it first renders, over whatever the storage already holds. */
    constructor (storage: Option<User>)
      ensures email == "" && password == "" && !isLoading
      ensures stored == storage && route == LoginRoute
    {
      email := "";
      password := "";
      isLoading := false;
      stored := storage;
      route := LoginRoute;
    }

    method EditEmail(text: string)
      modifies this`email
      ensures email == text
    {
      email := text;
    }

    method EditPassword(text: string)
      modifies this`password
      ensures password == text
    {
      password := text;
    }

    /** `handleSubmit`: the spinner goes on and the current fields are captured for the check. */
    method Submit() returns (captured: Credentials)
      modifies this`isLoading
      ensures isLoading
      ensures captured == Credentials(email, password)
    {
      isLoading := true;
      captured := Credentials(email, password);
    }

    /** The delayed check firing: on success the record is stored and the page moves to the
        chat route; on failure neither storage nor route changes. The spinner goes off either way. */
    method Resolve(captured: Credentials)
      modifies this`isLoading, this`stored, this`route
      ensures !isLoading
      ensures Attempt(captured).Some? ==> stored == Attempt(captured) && route == ChatRoute
      ensures Attempt(captured).None? ==> stored == old(stored) && route == old(route)
    {
      var outcome := Attempt(captured);
      if outcome.Some? {
        stored := outcome;
        route := ChatRoute;
      }
      isLoading := false;
    }
  }

  /** A whole login: the spinner is on until the check fires, and the chat page is reached
      exactly when both fields were non-empty at submit time. */
  method SubmitAndResolve(page: LoginPage) returns (spinnerWhilePending: bool)
    modifies page
    ensures spinnerWhilePending && !page.isLoading
    ensures page.route == ChatRoute <==> (old(page.email) != "" && old(page.password) != "") || old(page.route) == ChatRoute
    ensures old(page.email) != "" && old(page.password) != "" ==> page.stored == Some(StoredUser(old(page.email)))
    ensures old(page.email) == "" || old(page.password) == "" ==> page.stored == old(page.stored)
  {
    var captured := page.Submit();
    spinnerWhilePending := page.isLoading;
    page.Resolve(captured);
  }
}
