/**
 The authentication of a collection account.

 It reads the account, resolves the credentials, lets a fan-out try them against the server, and then
 hands them to the children. The result tells the caller whether to ask for a password, to discard
 one, or to report a failure that no password can fix.
 */
module Authentication {
  import opened Options

  datatype Scheme = OAuth2 | ApiToken | Password

  /** What the account says. `server` is absent if it does not name one that can be contacted. */
  datatype Account = Account(partsEnabled: bool, server: Option<string>, user: Option<string>, scheme: Scheme)

  datatype ClientError = Unauthorized | CredentialsWithheld | OtherError(status: int)

  datatype Failure =
    | NoAccount
    | BrokenAccount
    | CredentialsRequired
    | OAuth2Failure
    | SecretStore
    | ServiceGone
    | Client(error: ClientError)

  datatype Credentials = Anonymous | Bearer(token: string) | Basic(user: string, password: string)

  /** What the token service answers to an OAuth 2.0 account. */
  datatype TokenReply = Token(token: string) | NoConsent | StoreFailed | PeerGone

  datatype Result = Accepted | Required | Rejected | Unknown | Error

  // ---------------------------------------------------------------------------
  // The pure parts

  function ResultOf(failure: Failure): (r: Result) {
    match failure
    case CredentialsRequired | OAuth2Failure => Required
    case Client(CredentialsWithheld) => Unknown
    case Client(Unauthorized) => Rejected
    case _ => Error
  }

  function Reclassified(failure: Failure): (r: Failure) {
    if failure == Client(Unauthorized) then OAuth2Failure else failure
  }

  datatype Resolved = Ready(credentials: Credentials) | Failed(failure: Failure)

  function Resolve(account: Account, password: Option<string>, token: TokenReply): (r: Resolved) {
    match account.scheme
    case OAuth2 =>
      (match token
       case Token(text) => Ready(Bearer(text))
       case NoConsent => Failed(OAuth2Failure)
       case StoreFailed => Failed(SecretStore)
       case PeerGone => Failed(ServiceGone))
    case ApiToken => if password.None? then Failed(CredentialsRequired) else Ready(Bearer(password.value))
    case Password =>
      if account.user.None? then Ready(Anonymous)
      else if password.None? then Failed(CredentialsRequired)
      else Ready(Basic(account.user.value, password.value))
  }

  function LoginOf(account: Account, password: Option<string>, token: TokenReply): (r: Resolved) {
    if account.server.None? then Failed(BrokenAccount) else Resolve(account, password, token)
  }

  // ---------------------------------------------------------------------------
  // What the user can do about it

  /** The account is switched on and names a server. */
  predicate Reachable(account: Option<Account>) {
    account.Some? && account.value.partsEnabled && account.value.server.Some?
  }

  /** There is something to log in with: a token, a password, or no user to log in. */
  predicate Equipped(account: Account, password: Option<string>, token: TokenReply) {
    match account.scheme
    case OAuth2 => token.Token?
    case ApiToken => password.Some?
    case Password => account.user.Some? ==> password.Some?
  }

  /** The server refused a stored secret. A refresh token is none: a refused access token says nothing of it. */
  predicate SecretRefused(account: Option<Account>, password: Option<string>, token: TokenReply, fanOut: Option<ClientError>) {
    && Reachable(account) && !account.value.scheme.OAuth2?
    && Equipped(account.value, password, token) && fanOut == Some(Unauthorized)
  }

  /** A password or a consent can help: it is missing, or the server refused a new access token. */
  predicate PromptHelps(account: Option<Account>, password: Option<string>, token: TokenReply, fanOut: Option<ClientError>) {
    && Reachable(account)
    && if account.value.scheme.OAuth2? then token.NoConsent? || (token.Token? && fanOut == Some(Unauthorized))
       else !Equipped(account.value, password, token)
  }

  // ---------------------------------------------------------------------------
  // The operation

  /** The effects of one authentication: the error slot and the calls that it made. */
  class Effects {
    var error: Option<Failure>
    var errorWrites: nat
    var fanOuts: seq<Credentials>
    var pushes: nat

    constructor ()
      ensures error == None && errorWrites == 0 && fanOuts == [] && pushes == 0
    {
      error, errorWrites, fanOuts, pushes := None, 0, [], 0;
    }

    method SetError(failure: Failure)
      modifies this`error, this`errorWrites
      ensures error == Some(failure) && errorWrites == old(errorWrites) + 1
    {
      error, errorWrites := Some(failure), errorWrites + 1;
    }

    /** `fanOut` is what the fan-out answers if it runs. The error slot is written exactly once if the
        result is not acceptance, and else never. The fan-out runs at most once, with the resolved
        credentials, and the children get them exactly if it ran and succeeded. A stored secret is
        discarded exactly if the server refused it, and a prompt appears exactly if it can help. */
    method Authenticate(account: Option<Account>, password: Option<string>, token: TokenReply, fanOut: Option<ClientError>)
      returns (r: Result)
      requires error.None?
      modifies this
      ensures errorWrites == old(errorWrites) + (if r.Accepted? then 0 else 1)
      ensures error.Some? <==> !r.Accepted?
      ensures error.Some? ==> r == ResultOf(error.value)
      ensures |fanOuts| <= |old(fanOuts)| + 1 && old(fanOuts) <= fanOuts
      ensures fanOuts != old(fanOuts) <==> Reachable(account) && Equipped(account.value, password, token)
      ensures fanOuts != old(fanOuts) ==>
                fanOuts == old(fanOuts) + [LoginOf(account.value, password, token).credentials]
      ensures pushes == old(pushes) + (if fanOuts != old(fanOuts) && fanOut.None? then 1 else 0)
      ensures r.Accepted? <==>
                && account.Some?
                && (account.value.partsEnabled ==>
                      Reachable(account) && Equipped(account.value, password, token) && fanOut.None?)
      ensures r.Rejected? <==> SecretRefused(account, password, token, fanOut)
      ensures r.Required? <==> PromptHelps(account, password, token, fanOut)
      ensures r.Unknown? <==>
                Reachable(account) && Equipped(account.value, password, token) && fanOut == Some(CredentialsWithheld)
    {
      if account.None? {
        SetError(NoAccount);
        return Error;
      }
      if !account.value.partsEnabled {
        return Accepted;
      }
      var usesOAuth2 := account.value.scheme.OAuth2?;
      var login := LoginOf(account.value, password, token);
      if login.Failed? {
        SetError(login.failure);
        return ResultOf(login.failure);
      }
      fanOuts := fanOuts + [login.credentials];
      if fanOut.None? {
        pushes := pushes + 1;
        return Accepted;
      }
      var failure := Client(fanOut.value);
      if usesOAuth2 {
        failure := Reclassified(failure);
      }
      SetError(failure);
      return ResultOf(failure);
    }
  }
}
