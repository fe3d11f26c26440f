/** Credential selection of the Nexus raw data source: from the `username`,
    `password` and `basic_auth` settings to the token sent after `Basic ` in the
    `Authorization` header, or to one of the configuration errors. The empty
    token means that no header is sent. A password that starts with
    `gcp_secret!` names a secret whose payload is the real password; the secret
    store is an oracle here. */
module Credentials {
  import opened Common
  import Base64

  /** The marker that turns a password into a reference to a stored secret. */
  function SecretPrefix(): GoString
  {
    Str("gcp_secret!")
  }

  /** The secret store: a secret name to its payload, or to the store's error
      (a client that cannot be created or an access that fails). */
  type SecretStore = GoString -> Result<GoString, GoString>

  datatype CredentialError =
    | PasswordNotResolved(cause: GoString)   // "Failed to resolve password: ..."
    | ConflictingCredentials                 // basic_auth together with username/password
    | IncompleteCredentials                  // only one of username and password
    | InvalidBasicAuth                       // basic_auth is not base64

  /** The secret name a password refers to: the password with the first
      occurrence of the marker removed. */
  function SecretName(password: GoString): GoString
  {
    RemoveFirst(password, SecretPrefix())
  }

  /** `resolvePassword`. */
  function ResolvePassword(password: GoString, store: SecretStore): Result<GoString, GoString>
  {
    if HasPrefix(password, SecretPrefix()) then store(SecretName(password))
    else Success(password)
  }

  /** The text that is base64-encoded into a Basic token: `username:password`. */
  function BasicPair(username: GoString, password: GoString): (r: GoString)
    ensures |r| == |username| + 1 + |password|
    ensures r[..|username|] == username && r[|username|] == 58 && r[|username| + 1..] == password
  {
    username + [58] + password
  }

  /** The decision tree at the start of the data source's read. */
  function SelectToken(username: GoString, password: GoString, basicAuth: GoString, store: SecretStore)
    : Result<GoString, CredentialError>
  {
    if username != [] && password != [] then
      if basicAuth == [] then
        match ResolvePassword(password, store)
        case Failure(cause) => Failure(PasswordNotResolved(cause))
        case Success(resolved) => Success(Base64.Encode(BasicPair(username, resolved)))
      else Failure(ConflictingCredentials)
    else if username != [] || password != [] then Failure(IncompleteCredentials)
    else if basicAuth != [] then
      if Base64.IsValid(basicAuth) then Success(basicAuth) else Failure(InvalidBasicAuth)
    else Success([])
  }

  /** A password without the marker is used as it is; the store is not asked. */
  lemma PlainPasswordUnchanged(password: GoString, store: SecretStore)
    requires !HasPrefix(password, SecretPrefix())
    ensures ResolvePassword(password, store) == Success(password)
  {
  }

  /** With the marker, the store is asked for exactly the rest of the password,
      and its answer, payload or failure, is the result. */
  lemma MarkedPasswordLooksUpRest(password: GoString, store: SecretStore)
    requires HasPrefix(password, SecretPrefix())
    ensures SecretName(password) == password[|SecretPrefix()|..]
    ensures ResolvePassword(password, store) == store(password[|SecretPrefix()|..])
  {
    RemoveFirstOfPrefix(password, SecretPrefix());
  }

  /** `basic_auth` together with a username and a password is refused, whatever
      the values and whatever the store would answer. */
  lemma ConflictWins(username: GoString, password: GoString, basicAuth: GoString, store: SecretStore)
    requires username != [] && password != [] && basicAuth != []
    ensures SelectToken(username, password, basicAuth, store) == Failure(ConflictingCredentials)
  {
  }

  /** Exactly one of username and password is refused, whatever `basic_auth`
      holds. */
  lemma HalfPairRefused(username: GoString, password: GoString, basicAuth: GoString, store: SecretStore)
    requires (username == []) != (password == [])
    ensures SelectToken(username, password, basicAuth, store) == Failure(IncompleteCredentials)
  {
  }

  /** A username and a password alone give the base64 encoding of
      `username:resolved`, which decodes back to that pair. */
  lemma PairToken(username: GoString, password: GoString, store: SecretStore)
    requires username != [] && password != []
    ensures match ResolvePassword(password, store)
      case Failure(cause) => SelectToken(username, password, [], store) == Failure(PasswordNotResolved(cause))
      case Success(resolved) =>
        var token := Base64.Encode(BasicPair(username, resolved));
        && SelectToken(username, password, [], store) == Success(token)
        && Base64.Decode(token) == Some(BasicPair(username, resolved))
  {
    match ResolvePassword(password, store)
    case Failure(_) =>
    case Success(resolved) => Base64.DecodeEncode(BasicPair(username, resolved));
  }

  /** A `basic_auth` token alone is forwarded unchanged exactly when it decodes
      as base64, and refused otherwise. */
  lemma TokenOnly(basicAuth: GoString, store: SecretStore)
    requires basicAuth != []
    ensures SelectToken([], [], basicAuth, store) ==
      if Base64.IsValid(basicAuth) then Success(basicAuth) else Failure(InvalidBasicAuth)
  {
  }

  /** The token is empty, and no header is sent, exactly when no credential
      setting is given. */
  lemma EmptyTokenIffNoCredentials(username: GoString, password: GoString, basicAuth: GoString, store: SecretStore)
    ensures SelectToken(username, password, basicAuth, store) == Success([])
      <==> username == [] && password == [] && basicAuth == []
  {
    if username != [] && password != [] && basicAuth == [] {
      match ResolvePassword(password, store)
      case Failure(_) =>
      case Success(resolved) =>
        assert |Base64.Encode(BasicPair(username, resolved))| >= 4;
    }
  }

  /** Every accepted token is well-formed base64. */
  lemma TokenIsBase64(username: GoString, password: GoString, basicAuth: GoString, store: SecretStore)
    requires SelectToken(username, password, basicAuth, store).Success?
    ensures Base64.IsValid(SelectToken(username, password, basicAuth, store).value)
  {
    if username != [] && password != [] {
      Base64.EncodeIsValid(BasicPair(username, ResolvePassword(password, store).value));
    } else if basicAuth == [] {
      assert Base64.Decode([]) == Some([]);
    }
  }
}
