/**
 * The identity-provider types of src/auth.rs: the session it issues, the
 * errors it reports, how such an error is answered over HTTP, and the mock
 * provider, which is the only provider the repository implements.
 */
module Auth {
  import opened Wrappers
  import opened Http

  /**
   * chrono's DateTime<Utc>. An instant is counted in whole seconds; MaxUtc
   * stands for DateTime::<Utc>::MAX_UTC, the last instant chrono can
   * represent, and is later than every other instant.
   */
  datatype DateTimeUtc = At(seconds: int) | MaxUtc

  /** `a` is not later than `b`. */
  predicate NotAfter(a: DateTimeUtc, b: DateTimeUtc) {
    match (a, b)
    case (_, MaxUtc) => true
    case (MaxUtc, At(_)) => false
    case (At(x), At(y)) => x <= y
  }

  /** A login session: its id and the instant it expires. */
  datatype Session = Session(sessionId: string, expires: DateTimeUtc)

  /** An sqlx::Error, carried but never inspected by the core. */
  datatype DbError = DbError(description: string)

  /** IDPError: what authentication and registration can fail with. */
  datatype IdpError =
    | AuthenticationFailed
    | UsernameTaken
    | AuthenticationError(dbError: DbError)
    | RegistrationError(dbError: DbError)
  {
    /** The Display text given by the error's thiserror attribute. */
    function Message(): (m: string)
      ensures AuthenticationFailed? ==> m == "Incorrect username or password"
      ensures UsernameTaken? ==> m == "Requested username is occupied"
      ensures AuthenticationError? ==> m == "Authentication error"
      ensures RegistrationError? ==> m == "Registration error"
    {
      match this
      case AuthenticationFailed => "Incorrect username or password"
      case UsernameTaken => "Requested username is occupied"
      case AuthenticationError(_) => "Authentication error"
      case RegistrationError(_) => "Registration error"
    }

    /**
     * The serde serialisation: externally tagged, so each variant becomes
     * its name as a JSON string; the DB error is skipped, which makes the
     * two wrapping variants serialise as unit variants.
     */
    function ToJson(): (j: Json)
      ensures j.JString?
    {
      match this
      case AuthenticationFailed => JString("AuthenticationFailed")
      case UsernameTaken => JString("UsernameTaken")
      case AuthenticationError(_) => JString("AuthenticationError")
      case RegistrationError(_) => JString("RegistrationError")
    }

    /** ToReply for IDPError: the serialised error, sent as 401 whatever the variant. */
    function IntoReply(): (r: Reply)
      ensures r.status == UNAUTHORIZED
      ensures r.body == ToJson()
    {
      Reply(UNAUTHORIZED, ToJson())
    }
  }

  /** Both errors are the same variant of IDPError, whatever DB errors they carry. */
  predicate SameVariant(a: IdpError, b: IdpError) {
    || (a.AuthenticationFailed? && b.AuthenticationFailed?)
    || (a.UsernameTaken? && b.UsernameTaken?)
    || (a.AuthenticationError? && b.AuthenticationError?)
    || (a.RegistrationError? && b.RegistrationError?)
  }

  /** Each variant has its own message, so the message tells the variant, and nothing more. */
  lemma MessageIdentifiesVariant(a: IdpError, b: IdpError)
    ensures a.Message() == b.Message() <==> SameVariant(a, b)
  {
  }

  /** The serialised error tells the variant and nothing more: the wrapped DB error is left out. */
  lemma JsonIdentifiesVariant(a: IdpError, b: IdpError)
    ensures a.ToJson() == b.ToJson() <==> SameVariant(a, b)
  {
  }

  /** The session every mock login returns. */
  const MOCK_SESSION_ID: string := "mock session id"

  /** MockIDPContext::authenticate: any login and password is accepted. */
  function MockAuthenticate(login: string, password: string): (r: Result<Session, IdpError>)
    ensures r.Ok?
    ensures r.value.sessionId == MOCK_SESSION_ID
    ensures forall t :: NotAfter(t, r.value.expires)
  {
    Ok(Session(MOCK_SESSION_ID, MaxUtc))
  }

  /** MockIDPContext::add_user: any registration succeeds. */
  function MockAddUser(login: string, password: string): (r: Result<(), IdpError>)
    ensures r.Ok?
  {
    Ok(())
  }

  /** The mock's answer depends on neither the login nor the password. */
  lemma MockIgnoresCredentials(login: string, password: string, login': string, password': string)
    ensures MockAuthenticate(login, password) == MockAuthenticate(login', password')
    ensures MockAddUser(login, password) == MockAddUser(login', password')
  {
  }
}
