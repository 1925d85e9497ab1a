/**
 * The user repository's single-use tokens, kept in the cache: a login token
 * maps to a user id, an email confirmation token to the new address. Token
 * strings come from a random generator, which is a parameter here.
 */
module UserRepository {
  import opened Common
  import opened CacheStore
  import opened Guard

  /** Minutes a login token lives. */
  const LoginTokenTtl: int := 1440
  /** Minutes an email confirmation token lives. */
  const ConfirmationTokenTtl: int := 1440

  function LoginKey(token: Value): string {
    "login_token_" + PhpToString(token)
  }

  function ConfirmationKey(token: Value): string {
    "email_confirmation_" + PhpToString(token)
  }

  /** The user behind a login token in the given cache: the id it maps to,
      found again in the store, when that id is truthy. */
  function LoginTokenUser(entries: map<string, Entry>, token: string, find: Value -> Option<User>): Option<User> {
    var id := Cached(entries, LoginKey(Str(token)));
    if PhpTruthy(id) then find(id) else None
  }

  /** The rejection `validateEmailConfirmationToken` raises. */
  const InvalidConfirmationToken := ValidationError("email_confirmed", "The email confirmation token is not valid.")

  /** A user record lookup that found no row. */
  datatype NotFound = NotFound

  class UserRepository {
    const cache: Cache
    /** The base repository's lookup by primary key. */
    const find: Value -> Option<User>

    constructor (cache: Cache, find: Value -> Option<User>)
      ensures this.cache == cache && this.find == find
    {
      this.cache := cache;
      this.find := find;
    }

    /** `findByLoginToken(token)`: the token is consumed whether or not it
        names a user. */
    method FindByLoginToken(token: string) returns (r: Option<User>)
      modifies cache
      ensures r == LoginTokenUser(old(cache.entries), token, find)
      ensures cache.entries == old(cache.entries) - {LoginKey(Str(token))}
    {
      var id := cache.Pull("login_token_" + token);
      if PhpTruthy(id) {
        return find(id);
      }
      return None;
    }

    /** `makeLoginToken(id)`: store the user's id under a fresh token for a
        day and return the token. An unknown id fails before anything is
        stored. */
    method MakeLoginToken(id: Value, token: string) returns (r: Result<string, NotFound>)
      modifies cache
      ensures find(id).None? ==> r == Err(NotFound) && cache.entries == old(cache.entries)
      ensures find(id).Some? ==>
        r == Ok(token) &&
        cache.entries == old(cache.entries)[LoginKey(Str(token)) := Entry(find(id).value.id, LoginTokenTtl)]
    {
      var u := find(id);
      if u.None? {
        return Err(NotFound);
      }
      cache.Put("login_token_" + token, u.value.id, LoginTokenTtl);
      return Ok(token);
    }

    /** `makeConfirmationToken(email)`: store the address under a fresh
        token for a day and return the token. */
    method MakeConfirmationToken(email: Value, token: string) returns (r: string)
      modifies cache
      ensures r == token
      ensures cache.entries == old(cache.entries)[ConfirmationKey(Str(token)) := Entry(email, ConfirmationTokenTtl)]
    {
      cache.Put("email_confirmation_" + token, email, ConfirmationTokenTtl);
      return token;
    }

    /** `validateEmailConfirmationToken(request)`: when the request sets
        `email_confirmed`, the `email-confirm-token` header must name a
        stored confirmation; that confirmation is consumed either way. */
    method ValidateEmailConfirmationToken(request: Request) returns (r: Option<ValidationError>)
      modifies cache
      ensures !PhpTruthy(Input(request, "email_confirmed")) ==> r == None && cache.entries == old(cache.entries)
      ensures PhpTruthy(Input(request, "email_confirmed")) ==>
        var key := ConfirmationKey(Header(request, "email-confirm-token"));
        cache.entries == old(cache.entries) - {key} &&
        (r == None <==> PhpTruthy(Cached(old(cache.entries), key))) &&
        (r != None ==> r == Some(InvalidConfirmationToken))
    {
      if PhpTruthy(Input(request, "email_confirmed")) {
        var token := Header(request, "email-confirm-token");
        var email := cache.Pull("email_confirmation_" + PhpToString(token));
        if !PhpTruthy(email) {
          return Some(InvalidConfirmationToken);
        }
      }
      return None;
    }
  }

  /** A login token works once: the first lookup finds the user it was made
      for, the second finds nothing. */
  method LoginTokenIsSingleUse(repo: UserRepository, id: Value, token: string)
    returns (made: Result<string, NotFound>, first: Option<User>, second: Option<User>)
    requires repo.find(id).Some? && PhpTruthy(repo.find(id).value.id)
    modifies repo.cache
    ensures made == Ok(token)
    ensures first == repo.find(repo.find(id).value.id) && second == None
  {
    made := repo.MakeLoginToken(id, token);
    first := repo.FindByLoginToken(token);
    second := repo.FindByLoginToken(token);
  }

  /** The login token flow in terms of the cache alone: a token made for a
      truthy id leads back to that id's user. */
  lemma LoginTokenLeadsBack(entries: map<string, Entry>, token: string, u: User, find: Value -> Option<User>)
    requires PhpTruthy(u.id)
    ensures LoginTokenUser(entries[LoginKey(Str(token)) := Entry(u.id, LoginTokenTtl)], token, find) == find(u.id)
  {
  }
}
