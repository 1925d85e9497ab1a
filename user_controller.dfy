/**
 * The user controller: the rule table that says which user type may read,
 * list, update or delete users; the `putOne` rule that a user is never
 * replaced and always starts as a guest; and the `patchOne` flow by which a
 * change of email address is confirmed through a token held in the cache.
 *
 * The owner test (`User::userIsOwner`), the validation rule sets, the user
 * lookup and the random confirmation token are parameters; the mail job, the
 * profile and credential records of `patchOne` and the refreshed JWT are not
 * part of this model.
 */
module UserController {
  import opened Common
  import opened CacheStore
  import opened SpiraValidator
  import UserRepository

  datatype UserType = AdminUser | GuestUser

  datatype Ability = ReadAll | ReadOne | Update | Delete

  /** One `permit` call: a user type, the abilities it grants, and whether it
      carries the owner condition. */
  datatype Permit = Permit(role: UserType, abilities: set<Ability>, ownerOnly: bool)

  /** The two `permit` calls of `permissions()`. */
  const Permits: seq<Permit> := [
    Permit(AdminUser, {ReadAll, ReadOne, Update, Delete}, false),
    Permit(GuestUser, {ReadOne, Update}, true)]

  /** Some permit of the table grants the ability to the user type, and its
      owner condition, if any, holds. */
  predicate Permitted(role: UserType, a: Ability, isOwner: bool) {
    exists i :: 0 <= i < |Permits| && Permits[i].role == role && a in Permits[i].abilities &&
      (Permits[i].ownerOnly ==> isOwner)
  }

  /** An admin may do everything, owner or not. */
  lemma AdminPermitted(a: Ability, isOwner: bool)
    ensures Permitted(AdminUser, a, isOwner)
  {
    assert Permits[0].role == AdminUser && a in Permits[0].abilities;
  }

  /** A guest may read and update one user, and only when it is that user;
      in particular it may never list or delete users. */
  lemma GuestPermitted(a: Ability, isOwner: bool)
    ensures Permitted(GuestUser, a, isOwner) <==> (a == ReadOne || a == Update) && isOwner
    ensures !Permitted(GuestUser, ReadAll, isOwner) && !Permitted(GuestUser, Delete, isOwner)
  {
    if (a == ReadOne || a == Update) && isOwner {
      assert Permits[1].role == GuestUser && a in Permits[1].abilities;
    }
  }

  datatype Action = GetAll | GetOne | PatchOne | DeleteOne | OtherAction

  /** The `permission:` middleware registered for each action. */
  function Guarding(action: Action): Option<Ability> {
    match action
    case GetAll => Some(ReadAll)
    case GetOne => Some(ReadOne)
    case PatchOne => Some(Update)
    case DeleteOne => Some(Delete)
    case OtherAction => None
  }

  /** The controller lets the action through: unguarded, or its ability is
      permitted. */
  predicate MayRun(action: Action, role: UserType, isOwner: bool) {
    match Guarding(action)
    case None => true
    case Some(a) => Permitted(role, a, isOwner)
  }

  /** What each user type may do with the four guarded actions. */
  lemma GuardedActions(role: UserType, isOwner: bool)
    ensures role == AdminUser ==>
      MayRun(GetAll, role, isOwner) && MayRun(GetOne, role, isOwner) &&
      MayRun(PatchOne, role, isOwner) && MayRun(DeleteOne, role, isOwner)
    ensures role == GuestUser ==>
      !MayRun(GetAll, role, isOwner) && !MayRun(DeleteOne, role, isOwner) &&
      (MayRun(GetOne, role, isOwner) <==> isOwner) && (MayRun(PatchOne, role, isOwner) <==> isOwner)
  {
    forall a | true
      ensures Permitted(AdminUser, a, isOwner)
      ensures Permitted(GuestUser, a, isOwner) <==> (a == ReadOne || a == Update) && isOwner
    {
      AdminPermitted(a, isOwner);
      GuestPermitted(a, isOwner);
    }
  }

  /** The validation collaborators: each yields the first failure it finds.
      `user` is the full validation `putOne` applies; `userPatch` is the one
      `patchOne` applies, the same rules with the id-override rule for the
      patched id added and run in partial mode (a key the request leaves out
      is not required). */
  datatype Rules = Rules(
    user: map<string, Value> -> Option<ValidationError>,
    userPatch: map<string, Value> -> Option<ValidationError>,
    credential: Value -> Option<ValidationError>,
    profile: Value -> Option<ValidationError>)

  /** `$request->get(key, default)`. */
  function InputOr(r: Request, key: string, default: Value): Value {
    if key in r.input then r.input[key] else default
  }

  /** The rejection of an existing id. */
  const NoReplace := ValidationError("uuid", "Users are not permitted to be replaced.")

  datatype PutFailure = InvalidId | Failed(error: ValidationError)

  /** What `putOne` leaves behind: the user row it saved, the credential
      and profile it attached, and the exception it ended with. */
  datatype PutOutcome = PutOutcome(
    saved: Option<map<string, Value>>,
    credential: Option<Value>,
    profile: Option<Value>,
    failure: Option<PutFailure>)

  /** `putOne(id, request)`. The user row is saved before the credential is
      validated, so a bad credential leaves a user without one. */
  function PutOne(id: string, request: Request, known: string -> bool, rules: Rules): (r: PutOutcome)
    ensures r.failure.None? ==> r.saved.Some? && r.credential.Some?
    ensures !ValidateUuid(id) ==> r == PutOutcome(None, None, None, Some(InvalidId))
    ensures ValidateUuid(id) && known(id) ==> r == PutOutcome(None, None, None, Some(Failed(NoReplace)))
    ensures r.saved.Some? ==>
      ValidateUuid(id) && !known(id) &&
      r.saved.value.Keys == request.input.Keys + {"user_type"} &&
      r.saved.value["user_type"] == Str("guest") &&
      forall k :: k in request.input && k != "user_type" ==> r.saved.value[k] == request.input[k]
    ensures r.profile.Some? ==> PhpTruthy(r.profile.value) && r.profile.value == Lookup(request.input, "_user_profile")
  {
    var credential := InputOr(request, "_user_credential", List([]));
    var profile := InputOr(request, "_user_profile", List([]));
    var all := request.input["user_type" := Str("guest")];
    if !ValidateUuid(id) then PutOutcome(None, None, None, Some(InvalidId))
    else if known(id) then PutOutcome(None, None, None, Some(Failed(NoReplace)))
    else if rules.user(all).Some? then PutOutcome(None, None, None, Some(Failed(rules.user(all).value)))
    else if rules.credential(credential).Some? then
      PutOutcome(Some(all), None, None, Some(Failed(rules.credential(credential).value)))
    else if !PhpTruthy(profile) then PutOutcome(Some(all), Some(credential), None, None)
    else if rules.profile(profile).Some? then
      PutOutcome(Some(all), Some(credential), None, Some(Failed(rules.profile(profile).value)))
    else PutOutcome(Some(all), Some(credential), Some(profile), None)
  }

  /** Whatever `user_type` the client asks for, a created user is a guest. */
  lemma PutOneCreatesGuests(id: string, request: Request, userType: Value, known: string -> bool, rules: Rules)
    requires PutOne(id, request, known, rules).saved.Some?
    ensures PutOne(id, Request(request.input["user_type" := userType], request.headers), known, rules).saved ==
      PutOne(id, request, known, rules).saved
  {
    var other := Request(request.input["user_type" := userType], request.headers);
    assert other.input["user_type" := Str("guest")] == request.input["user_type" := Str("guest")];
    assert InputOr(other, "_user_credential", List([])) == InputOr(request, "_user_credential", List([]));
  }

  /** The reply of `patchOne`. */
  datatype PatchFailure = UserNotFound | Rejected(error: ValidationError)

  /** What `patchOne` leaves behind besides the cache: the confirmation mail
      it sends (address and token), the saved user row, and the exception it
      ended with. */
  datatype PatchOutcome = PatchOutcome(
    mail: Option<(Value, string)>,
    saved: Option<map<string, Value>>,
    failure: Option<PatchFailure>)

  /** The address change starts: a truthy requested address that differs
      from the stored one. */
  predicate StartsChange(model: map<string, Value>, request: Request) {
    PhpTruthy(Input(request, "email")) && Lookup(model, "email") != Input(request, "email")
  }

  /** The request after `patchOne`'s merge: `email_confirmed` nulled when a
      change starts. */
  function MergedInput(model: map<string, Value>, request: Request): map<string, Value> {
    if StartsChange(model, request) then request.input["email_confirmed" := Null] else request.input
  }

  /** The cache after the confirmation mail is prepared. */
  function EntriesAfterIssue(entries: map<string, Entry>, model: map<string, Value>, request: Request, token: string): map<string, Entry> {
    if StartsChange(model, request) then
      entries[UserRepository.ConfirmationKey(Str(token)) := Entry(Input(request, "email"), UserRepository.ConfirmationTokenTtl)]
    else entries
  }

  /** The key a confirmation header names. */
  function ConfirmKey(request: Request): string {
    "email_confirmation_" + PhpToString(Header(request, "email-confirm-token"))
  }

  /** The cache after `patchOne` on an existing user: the confirmation just
      issued is stored, and a confirmation the header names is consumed. */
  function PatchEntries(entries: map<string, Entry>, model: map<string, Value>, request: Request, token: string): map<string, Entry> {
    var issued := EntriesAfterIssue(entries, model, request, token);
    if PhpTruthy(Header(request, "email-confirm-token")) then issued - {ConfirmKey(request)} else issued
  }

  /** The outcome of `patchOne` on `model` (None: no such user). */
  function PatchResult(entries: map<string, Entry>, model: Option<map<string, Value>>, request: Request,
                       token: string, rules: Rules): PatchOutcome
  {
    if model.None? then PatchOutcome(None, None, Some(UserNotFound))
    else
      var m := model.value;
      var mail := if StartsChange(m, request) then Some((Input(request, "email"), token)) else None;
      var issued := EntriesAfterIssue(entries, m, request, token);
      var pulled := Cached(issued, ConfirmKey(request));
      if PhpTruthy(Header(request, "email-confirm-token")) && !PhpTruthy(pulled) then
        PatchOutcome(mail, None, Some(Rejected(UserRepository.InvalidConfirmationToken)))
      else
        var m' := if PhpTruthy(Header(request, "email-confirm-token")) then m["email" := pulled] else m;
        var rest := MergedInput(m, request) - {"email"};
        if rules.userPatch(rest).Some? then PatchOutcome(mail, None, Some(Rejected(rules.userPatch(rest).value)))
        else PatchOutcome(mail, Some(m' + rest), None)
  }

  /** `patchOne(id, request)` on the cache. */
  method Patch(cache: Cache, model: Option<map<string, Value>>, request: Request, token: string, rules: Rules)
    returns (r: PatchOutcome)
    modifies cache
    ensures r == PatchResult(old(cache.entries), model, request, token, rules)
    ensures model.Some? ==> cache.entries == PatchEntries(old(cache.entries), model.value, request, token)
    ensures model.None? ==> cache.entries == old(cache.entries)
  {
    if model.None? {
      return PatchOutcome(None, None, Some(UserNotFound));
    }
    var m := model.value;
    var input := request.input;
    var email := Input(request, "email");
    var mail: Option<(Value, string)> := None;
    if PhpTruthy(email) && Lookup(m, "email") != email {
      cache.Put("email_confirmation_" + token, email, UserRepository.ConfirmationTokenTtl);
      mail := Some((email, token));
      input := input["email_confirmed" := Null];
    }
    var header := Header(request, "email-confirm-token");
    if PhpTruthy(header) {
      var confirmed := cache.Pull("email_confirmation_" + PhpToString(header));
      if !PhpTruthy(confirmed) {
        return PatchOutcome(mail, None, Some(Rejected(UserRepository.InvalidConfirmationToken)));
      }
      m := m["email" := confirmed];
    }
    var rest := input - {"email"};
    if rules.userPatch(rest).Some? {
      return PatchOutcome(mail, None, Some(Rejected(rules.userPatch(rest).value)));
    }
    return PatchOutcome(mail, Some(m + rest), None);
  }

  /** A new, different address issues a confirmation token for it and nulls
      `email_confirmed`; the stored address stays as it was. */
  lemma NewEmailAwaitsConfirmation(entries: map<string, Entry>, m: map<string, Value>, request: Request,
                                   token: string, rules: Rules)
    requires StartsChange(m, request) && !PhpTruthy(Header(request, "email-confirm-token"))
    requires rules.userPatch(request.input["email_confirmed" := Null] - {"email"}).None?
    ensures var r := PatchResult(entries, Some(m), request, token, rules);
      r.mail == Some((Input(request, "email"), token)) && r.failure.None? && r.saved.Some? &&
      r.saved.value["email_confirmed"] == Null &&
      Lookup(r.saved.value, "email") == Lookup(m, "email")
    ensures PatchEntries(entries, m, request, token)[UserRepository.ConfirmationKey(Str(token))] ==
      Entry(Input(request, "email"), UserRepository.ConfirmationTokenTtl)
  {
    var rest := request.input["email_confirmed" := Null] - {"email"};
    assert "email" !in rest;
  }

  /** A confirmation header naming no stored address is refused, and
      nothing is saved. */
  lemma UnknownConfirmationRefused(entries: map<string, Entry>, m: map<string, Value>, request: Request,
                                   token: string, rules: Rules)
    requires PhpTruthy(Header(request, "email-confirm-token"))
    requires !PhpTruthy(Cached(EntriesAfterIssue(entries, m, request, token), ConfirmKey(request)))
    ensures PatchResult(entries, Some(m), request, token, rules).saved == None
    ensures PatchResult(entries, Some(m), request, token, rules).failure ==
      Some(Rejected(UserRepository.InvalidConfirmationToken))
  {
  }

  /** A confirmation header naming a stored address sets the user's address
      to it, and the confirmation cannot be used again. */
  lemma ConfirmationSetsEmail(entries: map<string, Entry>, m: map<string, Value>, request: Request,
                              token: string, rules: Rules)
    requires PhpTruthy(Header(request, "email-confirm-token"))
    requires PhpTruthy(Cached(EntriesAfterIssue(entries, m, request, token), ConfirmKey(request)))
    requires rules.userPatch(MergedInput(m, request) - {"email"}).None?
    ensures var r := PatchResult(entries, Some(m), request, token, rules);
      r.failure.None? && r.saved.Some? &&
      r.saved.value["email"] == Cached(EntriesAfterIssue(entries, m, request, token), ConfirmKey(request))
    ensures ConfirmKey(request) !in PatchEntries(entries, m, request, token)
  {
    assert "email" !in MergedInput(m, request) - {"email"};
  }

  /** The address a patch saves never comes from the request body: it is
      the stored one or a confirmed one from the cache. */
  lemma SavedEmailIsStoredOrConfirmed(entries: map<string, Entry>, m: map<string, Value>, request: Request,
                                      token: string, rules: Rules)
    requires PatchResult(entries, Some(m), request, token, rules).saved.Some?
    ensures var saved := PatchResult(entries, Some(m), request, token, rules).saved.value;
      Lookup(saved, "email") == Lookup(m, "email") ||
      Lookup(saved, "email") == Cached(EntriesAfterIssue(entries, m, request, token), ConfirmKey(request))
  {
    assert "email" !in MergedInput(m, request) - {"email"};
  }
}
