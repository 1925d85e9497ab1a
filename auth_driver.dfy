/**
 * The application's JWT configuration: the claims it adds to every token it
 * issues, and how it turns a decoded payload back into a user.
 */
module AuthDriver {
  import opened Common
  import opened Guard

  /** A claim generator. `Inherited` stands for one contributed by the base
      JWT driver, which is not part of this model. */
  datatype Generator = UserObject | AuthMethod | Issuer | Audience | Subject | Inherited(name: string)

  /** The generators the application contributes. */
  function OwnGenerators(): map<string, Generator> {
    map["_user" := UserObject, "method" := AuthMethod, "iss" := Issuer, "aud" := Audience, "sub" := Subject]
  }

  /** `array_merge(parent, own)` on string keys: every key of either side,
      the application's generator winning on a clash. */
  function PayloadGenerators(parent: map<string, Generator>): (r: map<string, Generator>)
    ensures r.Keys == parent.Keys + {"_user", "method", "iss", "aud", "sub"}
    ensures forall k :: k in OwnGenerators() ==> r[k] == OwnGenerators()[k]
    ensures forall k :: k in parent && k !in OwnGenerators() ==> r[k] == parent[k]
  {
    parent + OwnGenerators()
  }

  predicate OccursAt(s: string, pat: string, i: int) {
    0 <= i && i + |pat| <= |s| && s[i..i + |pat|] == pat
  }

  predicate Occurs(s: string, pat: string) {
    exists i :: 0 <= i <= |s| && OccursAt(s, pat, i)
  }

  /** `str_replace(pat, '', s)`: one left-to-right pass deleting every
      occurrence that does not overlap an earlier one. */
  function RemoveAll(s: string, pat: string): (r: string)
    requires |pat| > 0
    ensures |r| <= |s|
    decreases |s|
  {
    if |s| < |pat| then s
    else if s[..|pat|] == pat then RemoveAll(s[|pat|..], pat)
    else [s[0]] + RemoveAll(s[1..], pat)
  }

  /** A string without the pattern is left alone. */
  lemma {:induction false} RemoveAllAbsent(s: string, pat: string)
    requires |pat| > 0 && !Occurs(s, pat)
    ensures RemoveAll(s, pat) == s
    decreases |s|
  {
    if |s| >= |pat| {
      assert !OccursAt(s, pat, 0);
      assert s[0..|pat|] == s[..|pat|];
      forall i | OccursAt(s[1..], pat, i)
        ensures OccursAt(s, pat, i + 1)
      {
        assert s[1..][i..i + |pat|] == s[i + 1..i + 1 + |pat|];
      }
      RemoveAllAbsent(s[1..], pat);
    }
  }

  /** A leading occurrence is deleted. */
  lemma RemoveAllPrefix(pat: string, s: string)
    requires |pat| > 0
    ensures RemoveAll(pat + s, pat) == RemoveAll(s, pat)
  {
    assert (pat + s)[..|pat|] == pat;
    assert (pat + s)[|pat|..] == s;
  }

  /** Deletion is not repeated on what it leaves: "apapi.i." becomes "api.". */
  lemma RemoveAllSinglePass()
    ensures RemoveAll("apapi.i.", "api.") == "api."
  {
    var s := "apapi.i.";
    assert s[..4][2] != "api."[2];
    assert s[1..][..4][0] != "api."[0];
    assert s[2..][..4] == "api.";
    assert s[2..][4..] == "i.";
  }

  /** The audience for a host: the host with every "api." deleted. */
  function AudienceFor(host: string): (aud: string)
    ensures |aud| <= |host|
  {
    RemoveAll(host, "api.")
  }

  /** A host without "api." is its own audience. */
  lemma AudienceOfPlainHost(host: string)
    requires !Occurs(host, "api.")
    ensures AudienceFor(host) == host
  {
    RemoveAllAbsent(host, "api.");
  }

  lemma AudienceOfApiHost(rest: string)
    ensures AudienceFor("api." + rest) == AudienceFor(rest)
  {
    RemoveAllPrefix("api.", rest);
  }

  /** What a token is issued for: the request's host and the user, with the
      user's current authentication method (a string, or null). `userClaim`
      is how the `_user` claim serialises a user: the application's
      EloquentModelTransformer, which renames keys (`user_id` becomes
      `userId`) and is not part of this model. */
  datatype ClaimContext = ClaimContext(host: string, user: User, currentAuthMethod: Value, userClaim: User -> Value)

  /** The claim a generator yields. */
  function Claim(g: Generator, ctx: ClaimContext, inherited: string -> Value): (v: Value)
    ensures g == AuthMethod ==> v != Null && PhpTruthy(v)
    ensures g == AuthMethod && !PhpTruthy(ctx.currentAuthMethod) ==> v == Str("password")
    ensures g == AuthMethod && PhpTruthy(ctx.currentAuthMethod) ==> v == ctx.currentAuthMethod
    ensures g == Issuer ==> v == Str(ctx.host)
    ensures g == Audience ==> v == Str(AudienceFor(ctx.host))
    ensures g == Subject ==> v == ctx.user.id
    ensures g == UserObject ==> v == ctx.userClaim(ctx.user)
  {
    match g
    case UserObject => ctx.userClaim(ctx.user)
    case AuthMethod => if PhpTruthy(ctx.currentAuthMethod) then ctx.currentAuthMethod else Str("password")
    case Issuer => Str(ctx.host)
    case Audience => Str(AudienceFor(ctx.host))
    case Subject => ctx.user.id
    case Inherited(name) => inherited(name)
  }

  /** The payload a token is issued with: every generator evaluated. */
  function IssuedPayload(parent: map<string, Generator>, ctx: ClaimContext, inherited: string -> Value): (p: Payload)
    ensures p.Keys == PayloadGenerators(parent).Keys
    ensures p["_user"] == ctx.userClaim(ctx.user) && p["sub"] == ctx.user.id
    ensures p["iss"] == Str(ctx.host) && p["aud"] == Str(AudienceFor(ctx.host))
    ensures p["method"] == (if PhpTruthy(ctx.currentAuthMethod) then ctx.currentAuthMethod else Str("password"))
  {
    var gens := PayloadGenerators(parent);
    map k | k in gens :: Claim(gens[k], ctx, inherited)
  }

  /** The key/value pairs `foreach` walks: an object's fields; anything
      else contributes none. A list-valued `_user` is taken to contribute
      none as well, where PHP would walk it under the keys 0, 1, ...: the
      application's transformer yields an associative array keyed by
      attribute names, so a list is not what the claim carries. */
  function Fields(v: Value): map<string, Value> {
    if v.Obj? then v.fields else map[]
  }

  /** The string-valued entries. */
  function StringFields(m: map<string, Value>): (r: map<string, Value>)
    ensures r.Keys <= m.Keys
    ensures forall k :: k in m ==> (k in r <==> m[k].Str?)
    ensures forall k :: k in r ==> r[k] == m[k]
  {
    map k | k in m && m[k].Str? :: m[k]
  }

  /** The entries of `data` the `foreach` has already walked. */
  function Walked(data: map<string, Value>, todo: set<string>): map<string, Value> {
    map k | k in data && k !in todo :: data[k]
  }

  /** Copying one more entry: a string overwrites the attribute, anything
      else leaves the attributes as they were. */
  lemma CopyStep(base: map<string, Value>, data: map<string, Value>, todo: set<string>, k: string)
    requires k in todo && todo <= data.Keys
    ensures base + StringFields(Walked(data, todo - {k})) ==
      if data[k].Str? then (base + StringFields(Walked(data, todo)))[k := data[k]]
      else base + StringFields(Walked(data, todo))
  {
    assert Walked(data, todo - {k}) == Walked(data, todo)[k := data[k]];
  }

  /** The user the token-user provider yields: built from a truthy `_user`
      claim on a fresh model, else looked up by a truthy `sub`, else none. */
  function TokenUserOf(payload: Payload, blank: User, retrieveById: Value -> Option<User>): Option<User> {
    if PhpTruthy(Lookup(payload, "_user")) then
      Some(blank.(attributes := blank.attributes + StringFields(Fields(payload["_user"]))))
    else if PhpTruthy(Lookup(payload, "sub")) then retrieveById(payload["sub"])
    else None
  }

  /** The token-user closure: copies the string-valued entries of `_user`
      onto the fresh model one by one. */
  method ResolveTokenUser(payload: Payload, blank: User, retrieveById: Value -> Option<User>) returns (r: Option<User>)
    ensures r == TokenUserOf(payload, blank, retrieveById)
  {
    if PhpTruthy(Lookup(payload, "_user")) {
      var data := Fields(payload["_user"]);
      var attrs := blank.attributes;
      var todo := data.Keys;
      while todo != {}
        invariant todo <= data.Keys
        invariant attrs == blank.attributes + StringFields(Walked(data, todo))
        decreases todo
      {
        var k :| k in todo;
        CopyStep(blank.attributes, data, todo, k);
        if data[k].Str? {
          attrs := attrs[k := data[k]];
        }
        todo := todo - {k};
      }
      assert Walked(data, todo) == data;
      return Some(blank.(attributes := attrs));
    }
    if PhpTruthy(Lookup(payload, "sub")) {
      return retrieveById(payload["sub"]);
    }
    return None;
  }

  /** A token this driver issued resolves to a fresh model carrying the
      string-valued entries of the user as serialised, under the serialised
      keys; everything else on the model is as `createModel` made it. */
  lemma IssuedTokenNamesUser(parent: map<string, Generator>, ctx: ClaimContext, inherited: string -> Value,
                             blank: User, retrieveById: Value -> Option<User>)
    requires PhpTruthy(ctx.userClaim(ctx.user))
    ensures var r := TokenUserOf(IssuedPayload(parent, ctx, inherited), blank, retrieveById);
      var claim := Fields(ctx.userClaim(ctx.user));
      r.Some? && r.value == blank.(attributes := blank.attributes + StringFields(claim)) &&
      (forall k :: k in claim && claim[k].Str? ==> r.value.attributes[k] == claim[k]) &&
      (forall k :: k in r.value.attributes && k !in blank.attributes ==> k in claim && claim[k].Str?)
  {
    var p := IssuedPayload(parent, ctx, inherited);
    assert Lookup(p, "_user") == ctx.userClaim(ctx.user);
  }

  /** When the user serialises to a string-valued object, a token resolves
      to exactly those entries on a fresh model without attributes. */
  lemma StringObjectClaimRoundTrip(parent: map<string, Generator>, ctx: ClaimContext, inherited: string -> Value,
                                   blank: User, retrieveById: Value -> Option<User>, fields: map<string, Value>)
    requires ctx.userClaim(ctx.user) == Obj(fields) && |fields| > 0 && blank.attributes == map[]
    requires forall k :: k in fields ==> fields[k].Str?
    ensures TokenUserOf(IssuedPayload(parent, ctx, inherited), blank, retrieveById) ==
      Some(blank.(attributes := fields))
  {
    IssuedTokenNamesUser(parent, ctx, inherited, blank, retrieveById);
    StringFieldsOfStrings(fields);
    assert blank.attributes + fields == fields;
  }

  lemma StringFieldsOfStrings(m: map<string, Value>)
    requires forall k :: k in m ==> m[k].Str?
    ensures StringFields(m) == m
  {
  }

  /** A user whose serialisation is falsy (an empty array) leaves the
      `_user` claim falsy; the token then falls back to the subject. */
  lemma EmptyUserFallsBackToSubject(parent: map<string, Generator>, ctx: ClaimContext, inherited: string -> Value,
                                    blank: User, retrieveById: Value -> Option<User>)
    requires !PhpTruthy(ctx.userClaim(ctx.user)) && PhpTruthy(ctx.user.id)
    ensures TokenUserOf(IssuedPayload(parent, ctx, inherited), blank, retrieveById) == retrieveById(ctx.user.id)
  {
    var p := IssuedPayload(parent, ctx, inherited);
    assert Lookup(p, "_user") == ctx.userClaim(ctx.user);
    assert Lookup(p, "sub") == ctx.user.id;
  }
}
