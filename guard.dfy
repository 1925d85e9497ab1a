/**
 * The token guard of the API: it answers "who is the current user" for one
 * request. The user is resolved lazily from the request's bearer token and
 * then held; a credential login replaces it, and a logout pins the guard to
 * "nobody" so that the token is not consulted again.
 *
 * The collaborators (the request parser, the JWT tokenizer, the payload
 * validator, the payload factory and the user provider) are not part of this
 * model; each is a total function value, and each exception one of them
 * throws is an `AuthFailure`.
 */
module Guard {
  import opened Common

  /** An authenticatable user record: its identifier, its attributes and the
      remember token `setRememberToken` writes. */
  datatype User = User(id: Value, attributes: map<string, Value>, rememberToken: Option<string>)

  type Payload = map<string, Value>
  type Credentials = map<string, Value>

  /** An exception raised by a collaborator (a missing, malformed, expired or
      blacklisted token). */
  datatype AuthFailure = AuthFailure(message: string)

  /** The user provider. */
  datatype Provider = Provider(
    retrieveById: Value -> Option<User>,
    retrieveByToken: Payload -> Option<User>,
    retrieveByCredentials: Credentials -> Option<User>,
    validateCredentials: (User, Credentials) -> bool)

  /** The request parser, the tokenizer, the payload validator and the payload
      factory. `validatePayload` yields the exception it would throw, if any. */
  datatype TokenServices = TokenServices(
    getToken: Option<Request> -> Result<string, AuthFailure>,
    decode: string -> Result<Payload, AuthFailure>,
    validatePayload: Payload -> Option<AuthFailure>,
    createFromUser: User -> Payload,
    encode: Payload -> string)

  /** The guard's `$user` field: null before resolution, a user once one is
      known, `false` after a logout. */
  datatype Slot = Unresolved | Held(user: User) | LoggedOut

  /** The token pipeline of `user()`: parse the token out of the request,
      decode it, validate the payload, then ask the provider. */
  function TokenUser(t: TokenServices, p: Provider, request: Option<Request>): Result<Option<User>, AuthFailure> {
    match t.getToken(request)
    case Err(e) => Err(e)
    case Ok(token) =>
      match t.decode(token)
      case Err(e) => Err(e)
      case Ok(payload) =>
        match t.validatePayload(payload)
        case Some(e) => Err(e)
        case None => Ok(p.retrieveByToken(payload))
  }

  /** The pipeline yields a user exactly when every stage succeeds and the
      provider knows the payload. */
  lemma TokenUserFound(t: TokenServices, p: Provider, request: Option<Request>, u: User)
    ensures TokenUser(t, p, request) == Ok(Some(u)) <==>
      exists token: string, payload: Payload ::
        t.getToken(request) == Ok(token) && t.decode(token) == Ok(payload) &&
        t.validatePayload(payload) == None && p.retrieveByToken(payload) == Some(u)
  {
    if TokenUser(t, p, request) == Ok(Some(u)) {
      var token := t.getToken(request).value;
      var payload := t.decode(token).value;
      assert t.getToken(request) == Ok(token) && t.decode(token) == Ok(payload);
    }
  }

  /** A failure of the parser, the decoder or the validator is reported as is. */
  lemma TokenUserReportsFailure(t: TokenServices, p: Provider, request: Option<Request>)
    ensures t.getToken(request).Err? ==> TokenUser(t, p, request) == Err(t.getToken(request).error)
    ensures t.getToken(request).Ok? && t.decode(t.getToken(request).value).Err? ==>
      TokenUser(t, p, request) == Err(t.decode(t.getToken(request).value).error)
  {
  }

  /** `attempt`'s test: the provider finds a user for the credentials and
      the credentials validate against that user. */
  predicate Accepts(p: Provider, credentials: Credentials) {
    match p.retrieveByCredentials(credentials)
    case None => false
    case Some(u) => p.validateCredentials(u, credentials)
  }

  class Guard {
    var provider: Provider
    const tokens: TokenServices
    var request: Option<Request>
    var current: Slot
    var viaToken: bool
    /** How many times the request's token has been parsed. */
    ghost var tokenReads: nat

    constructor (tokens: TokenServices, provider: Provider)
      ensures this.tokens == tokens && this.provider == provider
      ensures request == None && current == Unresolved && !viaToken && tokenReads == 0
    {
      this.tokens := tokens;
      this.provider := provider;
      request := None;
      current := Unresolved;
      viaToken := false;
      tokenReads := 0;
    }

    /** `check()`: a user is held. */
    predicate Check(): (r: bool)
      reads this
      ensures r <==> current != Unresolved && current != LoggedOut
    {
      current.Held?
    }

    /** `guest()`: nobody is held, whether unresolved or logged out. */
    predicate Guest(): (r: bool)
      reads this
      ensures r <==> current == Unresolved || current == LoggedOut
    {
      !Check()
    }

    /** `viaRemember()`: the held user (or the last one) came from a token. */
    function ViaRemember(): (r: bool)
      reads this
      ensures r <==> viaToken
    {
      viaToken
    }

    /** `generateToken`: the encoded payload created from the user. */
    function GenerateToken(u: User): (t: string)
      ensures t == tokens.encode(tokens.createFromUser(u))
    {
      tokens.encode(tokens.createFromUser(u))
    }

    /** The user `login` holds: with a fresh remember token when asked. */
    function LoggedInAs(u: User, remember: bool): (r: User)
      ensures r.id == u.id && r.attributes == u.attributes
      ensures remember ==> r.rememberToken == Some(GenerateToken(u))
      ensures !remember ==> r == u
    {
      if remember then u.(rememberToken := Some(GenerateToken(u))) else u
    }

    /** `user()`. After a logout: null. A held user: returned, the token is
        not read. Otherwise the token pipeline runs; a user it yields is held
        and marked as coming from a token; nothing found leaves the guard
        unresolved, so the next call tries again. */
    method User() returns (r: Result<Option<User>, AuthFailure>)
      modifies this
      ensures provider == old(provider) && request == old(request)
      ensures old(current) == LoggedOut ==> r == Ok(None) && unchanged(this)
      ensures old(current).Held? ==> r == Ok(Some(old(current).user)) && unchanged(this)
      ensures old(current) == Unresolved ==>
        r == TokenUser(tokens, provider, request) && tokenReads == old(tokenReads) + 1 &&
        if r.Ok? && r.value.Some? then current == Held(r.value.value) && viaToken
        else current == Unresolved && viaToken == old(viaToken)
    {
      if current == LoggedOut {
        return Ok(None);
      }
      if current.Held? {
        return Ok(Some(current.user));
      }
      tokenReads := tokenReads + 1;
      r := TokenUser(tokens, provider, request);
      if r.Ok? && r.value.Some? {
        current := Held(r.value.value);
        viaToken := true;
      }
    }

    /** `attempt(credentials, remember, login)`: true exactly when the
        provider accepts the credentials; then, when `login` is set, the user
        is logged in. A rejected attempt changes nothing. */
    method Attempt(credentials: Credentials, remember: bool, login: bool) returns (ok: bool)
      modifies this
      ensures ok == Accepts(old(provider), credentials)
      ensures ok && login ==>
        current == Held(LoggedInAs(old(provider).retrieveByCredentials(credentials).value, remember)) &&
        viaToken == old(viaToken) && provider == old(provider) && request == old(request) &&
        tokenReads == old(tokenReads)
      ensures !(ok && login) ==> unchanged(this)
    {
      var found := provider.retrieveByCredentials(credentials);
      if found.Some? && provider.validateCredentials(found.value, credentials) {
        if login {
          Login(found.value, remember);
        }
        return true;
      }
      return false;
    }

    /** `once(credentials)`: an attempt that logs in without a remember token. */
    method Once(credentials: Credentials) returns (ok: bool)
      modifies this
      ensures ok == Accepts(old(provider), credentials)
      ensures ok ==>
        current == Held(old(provider).retrieveByCredentials(credentials).value) &&
        viaToken == old(viaToken) && provider == old(provider) && request == old(request) &&
        tokenReads == old(tokenReads)
      ensures !ok ==> unchanged(this)
    {
      ok := Attempt(credentials, false, true);
    }

    /** `login(user, remember)`: hold the user, with a fresh remember token
        when asked. */
    method Login(u: User, remember: bool)
      modifies this
      ensures current == Held(LoggedInAs(u, remember))
      ensures viaToken == old(viaToken) && provider == old(provider) && request == old(request)
      ensures tokenReads == old(tokenReads)
    {
      var held := u;
      if remember {
        held := u.(rememberToken := Some(GenerateToken(u)));
      }
      current := Held(held);
    }

    /** `loginUsingId(id, remember)`: log in the user the provider knows by
        that id and return it; an unknown id changes nothing. */
    method LoginUsingId(id: Value, remember: bool) returns (r: Option<User>)
      modifies this
      ensures old(provider).retrieveById(id).None? ==> r == None && unchanged(this)
      ensures old(provider).retrieveById(id).Some? ==>
        r == Some(LoggedInAs(old(provider).retrieveById(id).value, remember)) &&
        current == Held(r.value) && viaToken == old(viaToken) &&
        provider == old(provider) && request == old(request) && tokenReads == old(tokenReads)
    {
      var found := provider.retrieveById(id);
      if found.Some? {
        Login(found.value, remember);
        return Some(current.user);
      }
      return None;
    }

    /** `logout()`: pin the guard to nobody. The token flag is kept. */
    method Logout()
      modifies this
      ensures current == LoggedOut
      ensures viaToken == old(viaToken) && provider == old(provider) && request == old(request)
      ensures tokenReads == old(tokenReads)
    {
      current := LoggedOut;
    }

    method SetRequest(r: Request)
      modifies this
      ensures request == Some(r)
      ensures current == old(current) && viaToken == old(viaToken) && provider == old(provider)
      ensures tokenReads == old(tokenReads)
    {
      request := Some(r);
    }

    method SetProvider(p: Provider)
      modifies this
      ensures provider == p
      ensures current == old(current) && viaToken == old(viaToken) && request == old(request)
      ensures tokenReads == old(tokenReads)
    {
      provider := p;
    }
  }

  /** After a logout the guard answers "nobody" without reading the token,
      whatever the request carries. */
  method LogoutThenUser(g: Guard) returns (r: Result<Option<User>, AuthFailure>)
    modifies g
    ensures r == Ok(None) && g.Guest() && g.tokenReads == old(g.tokenReads)
  {
    g.Logout();
    r := g.User();
  }

  /** A rejected attempt leaves a guest a guest. */
  method RejectedAttemptKeepsGuest(g: Guard, credentials: Credentials) returns (ok: bool)
    requires g.Guest() && !Accepts(g.provider, credentials)
    modifies g
    ensures !ok && g.Guest()
  {
    ok := g.Attempt(credentials, true, true);
  }

  /** Once a user is resolved, asking again returns the same user and does
      not read the token a second time. */
  method ResolveTwice(g: Guard) returns (first: Result<Option<User>, AuthFailure>, second: Result<Option<User>, AuthFailure>)
    requires g.current == Unresolved
    modifies g
    ensures first.Ok? && first.value.Some? ==>
      second == first && g.tokenReads == old(g.tokenReads) + 1 && g.ViaRemember()
  {
    first := g.User();
    second := g.User();
  }
}
