# Spira core, modelled in Dafny

Spira is a content platform: a Laravel API (PHP) holding users, roles,
articles and their comments, a Vanilla forum extension that serves the
article discussions, and an AngularJS front end (TypeScript) that edits
them. This project models the parts of it that carry logic of their own,
one Dafny module per source file, and proves what they promise.

- **Authentication.** `Guard` is the request guard as a class whose user
  slot is unresolved, held or logged out; the JWT parser, decoder,
  validator and user provider are parameters that may fail. `AuthDriver`
  rebuilds the token user from the `_user` or `sub` claim and generates the
  `iss`, `aud`, `sub`, `_user` and `method` claims (section 4.1 of RFC 7519).
  `Blacklist` keeps revoked token ids in a storage driver. `CacheStore`,
  `UserRepository` and `SpiraValidator` hold the single-use login and
  email-confirmation tokens in a cache consumed by `pull`.
- **Authorization.** `Permissions` is the role and permission table as a
  graph, with reachability proved by rank. `UserController` declares the
  admin and guest permits and guards its actions. `RoleController` lists the
  roles and marks the default ones.
- **Validation and errors.** `SpiraValidator.ValidateUuid` and
  `ForumDiscussion.IsValidUuid` are the two UUID checks (section 3 of
  RFC 4122). `ApiController` builds the positional error lists of
  `getIds` and `notFoundMany`, matches `putMany` entities to fetched models
  and computes the last-page offset. `BaseController` renders an exception
  as a JSON response.
- **Model layer.** `BaseModel` assigns relations and queues replaced models
  on a delete stack that `push` walks. `Article` keeps the permalink
  history. `ArticleComment` and `ArticleDiscussion` rename Vanilla's
  comment fields, and `AbstractParser` fills a social user's attributes.
- **Front end.** `Pagination` is the paginator as a class over
  Content-Range headers. `AbstractModel` hydrates models and filters their
  attributes. `ArticleModel` orders the meta tags by a template.
  `ArticleService` and `SectionableApiService` plan the requests a save
  sends. `UserModel` derives a user's display strings and predicates.
  `LocalizableInputDialog` edits a field's translations per region, and
  `RegionInterceptor` carries the region on API requests and responses.

`Common` holds what those modules share: `Option` and `Result`, a
dynamically typed `Value` for data crossing PHP and JavaScript, the two
languages' truthiness rules, and the string helpers (split, join, decimal
rendering and parsing) with their round trips.

Some behaviours of the code as it stands, which the model keeps:

- `ApiController.RepeatedIdFailsSilently`: an existing id sent twice to
  `deleteMany` fails the fetched-count check, and the error list it throws
  holds no error at all.
- `UserController.PutOne`: `putOne` saves the new user before it validates
  the credential, so a refused credential leaves the user row saved.
- `ArticleModel.DuplicateTemplateMetaDropped`: a second meta named like a
  template entry is neither reused nor kept among the leftovers.
- `Pagination.EmptyTotalIsNaN`: an empty total in a Content-Range header
  becomes NaN, not a string.
- `Pagination.Paginator.GetNext`: the index advances by the configured
  count, not by the count asked for.
- `BaseController.ZeroMessageReplaced`: an exception whose message is "0"
  is reported with the default message, since PHP treats "0" as false.

## Model

| member | source | states |
|---|---|---|
| Guard.TokenUserFound | api/src/Auth/Driver/Guard.php:122-125 | the token pipeline yields a user exactly when the parser, the decoder and the validator all succeed and the provider knows the payload |
| Guard.TokenUserReportsFailure | api/src/Auth/Driver/Guard.php:122-124 | an exception from the parser or the decoder is what `user()` raises |
| Guard.Guard.constructor | api/src/Auth/Driver/Guard.php:71-85 | a new guard holds its collaborators, no request, no user and no token flag |
| Guard.Guard.Check | api/src/Auth/Driver/Guard.php:92-95 | `check()` holds exactly when the guard is neither unresolved nor logged out, that is when a user is held |
| Guard.Guard.ViaRemember | api/src/Auth/Driver/Guard.php:241-244 | `viaRemember()` reads the token flag, which `User` sets when the token pipeline yields a user and which `Login` and `Logout` keep |
| Guard.Guard.GenerateToken | api/src/Auth/Driver/Guard.php:260-263 | the remember token is the tokenizer's encoding of the payload created from the user; `LoggedInAs` stores it |
| Guard.Guard.Guest | api/src/Auth/Driver/Guard.php:92-105 | `guest()` holds exactly when no user is held (unresolved or logged out), the negation of `check()` |
| Guard.Guard.LoggedInAs | api/src/Auth/Driver/Guard.php:211-217 | the user `login` holds keeps its id and attributes; with `remember` it carries the token generated from its payload, without it is the user unchanged |
| Guard.Guard.User | api/src/Auth/Driver/Guard.php:112-133 | after a logout null without reading the token; a held user returned without reading the token; otherwise the token pipeline's answer, a found user held with `viaToken` set, nothing found leaving the guard unresolved |
| Guard.Guard.Attempt | api/src/Auth/Driver/Guard.php:154-166 | true exactly when the provider retrieves a user for the credentials and validates them; then, with `login`, that user is held; a false attempt or one without `login` changes nothing |
| Guard.Guard.Once | api/src/Auth/Driver/Guard.php:141-144 | an attempt that logs in without a remember token: true exactly when the credentials are accepted, nothing changed otherwise |
| Guard.Guard.Login | api/src/Auth/Driver/Guard.php:211-217 | the user is held (with a fresh remember token when asked); the token flag, provider and request are untouched |
| Guard.Guard.LoginUsingId | api/src/Auth/Driver/Guard.php:226-234 | an unknown id returns null and changes nothing; a known one is logged in and returned |
| Guard.Guard.Logout | api/src/Auth/Driver/Guard.php:251-254 | the guard is pinned to "nobody"; the token flag is kept |
| Guard.Guard.SetRequest | api/src/Auth/Driver/Guard.php:326-331 | only the request changes |
| Guard.Guard.SetProvider | api/src/Auth/Driver/Guard.php:281-284 | only the provider changes |
| Guard.LogoutThenUser | api/src/Auth/Driver/Guard.php:114-116 | after `logout()`, `user()` is null, the guard is a guest and the token is not read |
| Guard.RejectedAttemptKeepsGuest | api/src/Auth/Driver/Guard.php:154-166 | a rejected attempt leaves a guest a guest |
| Guard.ResolveTwice | api/src/Auth/Driver/Guard.php:118-132 | once a token user is resolved, a second `user()` returns the same user without reading the token again, and `viaRemember()` is true |
| AuthDriver.PayloadGenerators | api/app/Providers/AuthDriverServiceProvider.php:25-31 | `array_merge`: every key of either side, the five application claims overriding same-named inherited ones, other inherited claims kept |
| AuthDriver.RemoveAllAbsent | api/app/Providers/AuthDriverServiceProvider.php:29 | deleting a pattern that does not occur leaves the string unchanged |
| AuthDriver.RemoveAllPrefix | api/app/Providers/AuthDriverServiceProvider.php:29 | a leading occurrence is deleted |
| AuthDriver.RemoveAllSinglePass | api/app/Providers/AuthDriverServiceProvider.php:29 | `str_replace` makes one pass: "apapi.i." becomes "api." |
| AuthDriver.AudienceOfPlainHost | api/app/Providers/AuthDriverServiceProvider.php:29 | a host without "api." is its own audience |
| AuthDriver.AudienceOfApiHost | api/app/Providers/AuthDriverServiceProvider.php:29 | a leading "api." is dropped from the audience |
| AuthDriver.IssuedPayload | api/app/Providers/AuthDriverServiceProvider.php:25-31 | an issued payload has exactly the generators' keys; `_user` is the user as the `_user` claim serialises it, `sub` its identifier, `iss` the host, `aud` the host without "api.", and `method` the user's current authentication method when truthy, otherwise "password" |
| AuthDriver.Claim | api/app/Providers/AuthDriverServiceProvider.php:26-30 | each own generator's claim: the authentication method is never null and falls back to "password"; the issuer is the host, the audience the host without "api.", the subject the user's identifier |
| AuthDriver.ResolveTokenUser | api/app/Providers/AuthDriverServiceProvider.php:36-54 | the provider closure's `foreach` yields the user `TokenUserOf` describes: a truthy `_user` gives a fresh model with only the string-valued entries copied, taking precedence over `sub`; else a truthy `sub` is looked up; else null |
| AuthDriver.IssuedTokenNamesUser | api/app/Providers/AuthDriverServiceProvider.php:26-51 | a token issued for a user whose serialisation is truthy resolves to the fresh model with the serialisation's string-valued entries added under the serialised keys, and with no other new attribute |
| AuthDriver.StringObjectClaimRoundTrip | api/app/Providers/AuthDriverServiceProvider.php:37-51 | when the user serialises to a non-empty object of strings, the token resolves to a fresh attribute-less model carrying exactly that object |
| AuthDriver.EmptyUserFallsBackToSubject | api/app/Providers/AuthDriverServiceProvider.php:37-51 | a user whose serialisation is falsy (an empty array) gives a falsy `_user`, so the token resolves through `sub` |
| Blacklist.AddCalls | api/tests/Auth/BlacklistTest.php:11-29 | `add` calls storage once with the key claim's value and the TTL, and not at all when the expiry has passed |
| Blacklist.CheckOutcome | api/tests/Auth/BlacklistTest.php:31-49 | refused with "Token has expired" exactly when the identifier is listed, false otherwise |
| Blacklist.Blacklist.constructor | api/tests/Auth/BlacklistTest.php:15 | a new blacklist has its key and expiry claim names and empty storage |
| Blacklist.Blacklist.Add | api/tests/Auth/BlacklistTest.php:11-29 | returns null; lists the identifier with its TTL unless the token expired, recording exactly the storage calls `AddCalls` gives |
| Blacklist.Blacklist.Check | api/tests/Auth/BlacklistTest.php:31-49 | one storage lookup of the identifier; the outcome `CheckOutcome` gives; storage unchanged |
| Blacklist.AddHundredSecondsAhead | api/tests/Auth/BlacklistTest.php:17-19 | the test's case: expiry 100 seconds ahead stores `my_key_value` for 110 seconds |
| Blacklist.RevokedTokenIsRefused | api/tests/Auth/BlacklistTest.php:41-49 | a token added while unexpired is refused by the next check |
| Blacklist.ExpiredRevocationIsNoOp | api/tests/Auth/BlacklistTest.php:22-29 | adding an expired token changes nothing a check can see |
| CacheStore.Cached | api/app/Repositories/UserRepository.php:66 | a missing key reads as null |
| CacheStore.Cache.constructor | api/app/Repositories/UserRepository.php:85 | a new cache is empty |
| CacheStore.Cache.Put | api/app/Repositories/UserRepository.php:85 | `put` stores the value under its key and touches no other key |
| CacheStore.Cache.Pull | api/app/Repositories/UserRepository.php:66 | `pull` returns the stored value (null when absent) and removes only that key |
| CacheStore.PutThenPullTwice | api/app/Repositories/UserRepository.php:64-71 | a value put then pulled comes back once; the second pull finds nothing |
| UserRepository.UserRepository.constructor | api/app/Repositories/UserRepository.php:40-45 | the repository keeps its cache and its lookup |
| UserRepository.UserRepository.FindByLoginToken | api/app/Repositories/UserRepository.php:64-71 | the user the token's truthy id names, else null; the token's entry is removed either way and only that entry |
| UserRepository.UserRepository.MakeLoginToken | api/app/Repositories/UserRepository.php:80-88 | stores `login_token_<t>` → the user's id for 1440 minutes and returns `t`; an unknown id fails and stores nothing |
| UserRepository.UserRepository.MakeConfirmationToken | api/app/Repositories/UserRepository.php:97-102 | stores `email_confirmation_<t>` → the address for 1440 minutes, touching no other key, and returns `t` |
| UserRepository.UserRepository.ValidateEmailConfirmationToken | api/app/Repositories/UserRepository.php:110-121 | a no-op without a truthy `email_confirmed`; otherwise the header's confirmation entry is consumed, and the call fails with the `email_confirmed` message exactly when that entry was missing or falsy |
| UserRepository.LoginTokenIsSingleUse | api/app/Repositories/UserRepository.php:64-88 | a login token made for a user finds that user once; the second lookup finds nothing |
| UserRepository.LoginTokenLeadsBack | api/app/Repositories/UserRepository.php:66-85 | in cache terms, a token stored with a truthy id leads back to that id's user |
| SpiraValidator.ShapeOfGroups | api/app/Services/SpiraValidator.php:14 | five groups of 8, 4, 4, 4 and 12 class characters joined by hyphens have the 36-character shape |
| SpiraValidator.GroupsOfShape | api/app/Services/SpiraValidator.php:14 | every string of that shape is such five groups joined by hyphens |
| SpiraValidator.SpiraUuidBraces | api/app/Services/SpiraValidator.php:14 | a leading `{` and a trailing `}` are each optional, independently; unbalanced braces are accepted |
| SpiraValidator.SpiraUuidForm | api/app/Services/SpiraValidator.php:14 | every accepted string has 36 to 38 characters and is the 36-character form between optional braces; nothing else is accepted |
| SpiraValidator.NilUuidShape | api/app/Services/SpiraValidator.php:14 | the all-zero id has the shape |
| SpiraValidator.SpiraUuidAcceptsTrailingNewline | api/app/Services/SpiraValidator.php:14 | the pattern as written (`$` without `D`) accepts the nil id followed by a line feed, which the anchored rule refuses |
| SpiraValidator.ValidateUuidAgrees | api/app/Services/SpiraValidator.php:12-15 | the corrected rule accepts 36 to 38 characters, only what the rule as written accepts, and everything it accepts apart from a trailing line feed |
| SpiraValidator.UpperCaseRefused | api/app/Services/SpiraValidator.php:14 | no accepted id contains an upper-case letter |
| SpiraValidator.EmailConfirmationTokenRule | api/app/Services/SpiraValidator.php:41-49 | true exactly when the cache holds a truthy `email_confirmation_<header token>`; that entry is consumed either way |
| ForumDiscussion.ForumUuidAcceptsTrailingNewline | forum/src/apiextended/controllers/class.apidiscussioncontroller.php:39 | the forum's pattern as written accepts the nil id followed by a line feed |
| ForumDiscussion.ForumUuidIsSpiraUuid | forum/src/apiextended/controllers/class.apidiscussioncontroller.php:37-39 | every id the forum accepts passes the API's `uuid` rule too |
| ForumDiscussion.FirstReplaced | forum/src/apiextended/controllers/class.apidiscussioncontroller.php:37 | replacing the first character by another of the class keeps the shape |
| ForumDiscussion.ForumStricterThanSpira | forum/src/apiextended/controllers/class.apidiscussioncontroller.php:37 | `z0000000-0000-0000-0000-000000000000` passes the API's rule and not the forum's |
| ForumDiscussion.IsValidUuid | forum/src/apiextended/controllers/class.apidiscussioncontroller.php:35-40 | the corrected check accepts exactly 8-4-4-4-12 groups of lower-case hex joined by hyphens (36 characters, accepted by the API too) and agrees with the check as written except on a trailing line feed |
| ForumDiscussion.NoGroupsWithoutShape | forum/src/apiextended/controllers/class.apidiscussioncontroller.php:37 | a string without the shape is no five hex groups joined by hyphens |
| ForumDiscussion.LookupId | forum/src/apiextended/controllers/class.apidiscussioncontroller.php:16 | the id looked up is the given one exactly when it is valid, else 0 |
| ForumDiscussion.GetByForeignId | forum/src/apiextended/controllers/class.apidiscussioncontroller.php:13-26 | a discussion already in the data is used as is; otherwise the one found by the (possibly zeroed) id; no discussion object means "not found"; the page is passed on |
| Permissions.RuleOf | api/config/permissions.php:52-90 | exactly `ReAssignNonAdmin`, `impersonateNonAdmin` and `manipulateWithOwn` carry a rule, and only permissions do |
| Permissions.ChildrenRankBelow | api/config/permissions.php:18-126 | every child ranks below its parent, so the children relation is acyclic |
| Permissions.ConsPath | api/config/permissions.php:18-126 | a passing item linked to the start of a passing path extends it |
| Permissions.ReachesHasPath | api/config/permissions.php:18-126 | reachability is witnessed by a chain of child links through items whose rules hold |
| Permissions.PathReaches | api/config/permissions.php:18-126 | the end of every such chain is reachable from its start |
| Permissions.ReachesMonotone | api/config/permissions.php:18-126 | more rules holding never takes access away |
| Permissions.ChildReaches | api/config/permissions.php:18-126 | a passing parent reaches what its children reach |
| Permissions.LeafReaches | api/config/permissions.php:21-44 | an item without children or rule grants only itself |
| Permissions.ManipulateWithOwnReaches | api/config/permissions.php:81-90 | `manipulateWithOwn` reaches getOne, patchOne and the roles list exactly when its ownership rule holds |
| Permissions.UserRoleReaches | api/config/permissions.php:116-121 | the user role reaches getOne, patchOne and the roles list only through `manipulateWithOwn`, exactly when its rule holds |
| Permissions.UserRoleCannotDeleteOrList | api/config/permissions.php:116-121 | the user role reaches neither deleteOne nor getAllPaginated, whatever the rules say |
| Permissions.ReAssignAllRolesReaches | api/config/permissions.php:45-51 | `ReAssignAllRoles` reaches putManyReplace with no rule |
| Permissions.ImpersonateAllUsersReaches | api/config/permissions.php:64-70 | `impersonateAllUsers` reaches `impersonateUser` with no rule |
| Permissions.ReAssignNonAdminReaches | api/config/permissions.php:52-59 | `ReAssignNonAdmin` reaches putManyReplace exactly when its rule holds |
| Permissions.ImpersonateNonAdminReaches | api/config/permissions.php:71-78 | `impersonateNonAdmin` reaches `impersonateUser` exactly when its rule holds |
| Permissions.AdminRoleReaches | api/config/permissions.php:102-115 | the admin role reaches exactly itself, its five direct actions, and what its three composite children reach |
| Permissions.AdminRoleReachesOnly | api/config/permissions.php:102-115 | nothing else is reachable from the admin role |
| Permissions.SomeChildReaches | api/config/permissions.php:18-126 | reaching another item goes through some child |
| Permissions.AdminChildren | api/config/permissions.php:105-114 | the admin role's children are the eight listed |
| Permissions.AdminGrants | api/config/permissions.php:102-115 | the admin role reaches the four user actions, the roles list and the user role outright; `impersonateUser` and putManyReplace exactly when their rules hold; never the super-admin role |
| Permissions.SuperAdminGrants | api/config/permissions.php:93-101 | the super-admin role reaches every user action, the roles list, impersonation and role reassignment whatever the rules say, through the rule-free `impersonateAllUsers` and `ReAssignAllRoles` |
| Permissions.TestRoleReaches | api/config/permissions.php:122-125 | `testrole` reaches nothing but itself |
| RoleController.RoleItems | api/app/Http/Controllers/RoleController.php:27 | only role-type items are listed, each of them, and nothing else |
| RoleController.HydrateRoles | api/app/Http/Controllers/RoleController.php:38-50 | one role per item in input order (none for empty input), keyed by the item's name, with its description, default exactly when the name is among the default role keys |
| RoleController.GetAllEntities | api/app/Http/Controllers/RoleController.php:25-31 | one role per role item, in order, with that item's name and description, every role item listed, each flagged default exactly when its key is a default role |
| UserController.AdminPermitted | api/app/Http/Controllers/UserController.php:86 | an admin is permitted readAll, readOne, update and delete, owner or not |
| UserController.GuestPermitted | api/app/Http/Controllers/UserController.php:84-87 | a guest is permitted exactly readOne and update, and only as the owner; never readAll or delete |
| UserController.GuardedActions | api/app/Http/Controllers/UserController.php:86-92 | with getAll, getOne, patchOne and deleteOne guarded by readAll, readOne, update and delete: an admin may run all four; a guest never getAll or deleteOne, and getOne and patchOne exactly as the owner |
| UserController.PutOne | api/app/Http/Controllers/UserController.php:102-139 | an invalid id is refused; an existing id is refused with "Users are not permitted to be replaced." before anything is saved; a saved user holds the request's fields with `user_type` forced to `guest` (fill taken as an unfiltered merge); success saves the user and its credential, the profile only when non-empty |
| UserController.PutOneCreatesGuests | api/app/Http/Controllers/UserController.php:111 | the `user_type` the client sends does not change the saved user |
| UserController.Patch | api/app/Http/Controllers/UserController.php:148-174 | `patchOne` on the cache: the outcome `PatchResult` gives, validating with the patch rule set; the cache gains the issued confirmation and loses the one the header names, and nothing else changes |
| UserController.NewEmailAwaitsConfirmation | api/app/Http/Controllers/UserController.php:154-159 | a new, different address is mailed a token stored under `email_confirmation_<token>`, `email_confirmed` is nulled and the stored address is not changed yet |
| UserController.UnknownConfirmationRefused | api/app/Http/Controllers/UserController.php:162-166 | a confirmation header naming no stored address is refused with the `email_confirmed` message and nothing is saved |
| UserController.ConfirmationSetsEmail | api/app/Http/Controllers/UserController.php:162-170 | a header naming a stored address sets the user's address to it, and the confirmation is consumed |
| UserController.SavedEmailIsStoredOrConfirmed | api/app/Http/Controllers/UserController.php:168-173 | the saved address is the stored one or a confirmed one from the cache, never the request body's |
| ApiController.ValidateId | api/app/Http/Controllers/ApiController.php:331-337 | no exception exactly when the id passes the `uuid` rule; otherwise an invalid-id exception naming that id |
| ApiController.UpperCaseIdRefused | api/app/Http/Controllers/ApiController.php:331-337 | under the application's `uuid` rule an id with an upper-case letter is a refused id |
| ApiController.ValidIds | api/app/Http/Controllers/ApiController.php:272-278 | no more ids are collected than there are entities |
| ApiController.ValidIdsMembers | api/app/Http/Controllers/ApiController.php:272-278 | a value is collected exactly when some entity carries it as a present, truthy and valid id |
| ApiController.IdErrorsAt | api/app/Http/Controllers/ApiController.php:272-288 | the error list has one entry per entity: the invalid-id exception where the id is refused, null elsewhere |
| ApiController.GetIds | api/app/Http/Controllers/ApiController.php:267-294 | when validating and some id is refused, the error list is thrown; otherwise (in particular whenever `validate` is false) the collected ids are returned, refused ones silently dropped |
| ApiController.NotFoundErrorsAt | api/app/Http/Controllers/ApiController.php:309-325 | one entry per id: null when the model was found, a not-found exception otherwise |
| ApiController.NotFoundMany | api/app/Http/Controllers/ApiController.php:309-325 | the list `notFoundMany` always throws is the per-id not-found list |
| ApiController.FetchedMembers | api/app/Http/Controllers/ApiController.php:180 | `findMany` fetches exactly the asked-for ids that are stored |
| ApiController.FetchedCount | api/app/Http/Controllers/ApiController.php:180-181 | no more models come back than ids were asked, and exactly as many when every id is stored and none repeats |
| ApiController.CountCheckPasses | api/app/Http/Controllers/ApiController.php:181-183 | the count check of `patchMany` passes exactly when every id is stored and none repeats; when it fails, the entry of each id is null exactly when that id is stored |
| ApiController.RepeatedIdFailsSilently | api/app/Http/Controllers/ApiController.php:229-231 | a stored id sent twice to `deleteMany` fails the count check with a list holding no error |
| ApiController.PutMany | api/app/Http/Controllers/ApiController.php:121-147 | one entry per entity, in request order: the fetched model of its id merged with every entity aimed at it, or a new model merged with this entity alone (fill taken as an unfiltered merge) |
| ApiController.FillAll | api/app/Http/Controllers/ApiController.php:132-142 | the loop fills each entity into its target in order, updating the fetched models in place; entities naming one id share that model, so every entry for it is the model with all their fills |
| ApiController.Targeted | api/app/Http/Controllers/ApiController.php:133-134 | an entity is filled into a fetched model exactly when it names a truthy id that was fetched, and then into that id's model |
| ApiController.UnnamedModelKept | api/app/Http/Controllers/ApiController.php:132-142 | a fetched model no entity names is saved as it was stored |
| ApiController.LastFillWins | api/app/Http/Controllers/ApiController.php:139 | in a shared model, an attribute holds the value of the last entity naming that model that sets it |
| ApiController.TwoFillsShareModel | api/app/Http/Controllers/ApiController.php:132-141 | two entities naming one stored model give two entries that are both that model, filled with the first entity and then the second |
| ApiController.PutTargetReuses | api/app/Http/Controllers/ApiController.php:133-138 | an entity lands on a stored model exactly when it names a truthy, valid, stored id, and then on that stored model |
| ApiController.NegativeLastPageOffset | api/app/Http/Controllers/ApiController.php:55 | as written, three rows with limit 10 put the last page at offset -7 |
| ApiController.LastPageOffset | api/app/Http/Controllers/ApiController.php:51-58 | corrected: the last page's offset lies in `[0, count]` and the page reaches the last row; it is `count - limit` whenever the rows fill a page; otherwise the requested offset |
| ApiController.LastPageOffsetAgrees | api/app/Http/Controllers/ApiController.php:55 | the corrected offset equals the written one exactly when the last page is not asked for or the rows fill a page |
| BaseController.TraceLines | api/app/Http/Controllers/BaseController.php:183 | the trace split on line feeds has at least one line, and joining the lines with line feeds gives the trace back |
| BaseController.StrList | api/app/Http/Controllers/BaseController.php:183 | the lines become a PHP list of the same length holding each line as a string |
| BaseController.RenderException | api/app/Http/Controllers/BaseController.php:170-201 | the body holds `message`, plus `debug` exactly in debug mode; the message is the exception's when PHP-truthy, "An error occurred" otherwise; the status is the HTTP exception's code, else 500; the debug record keeps the raw message |
| BaseController.ZeroMessageReplaced | api/app/Http/Controllers/BaseController.php:172-175 | the message "0" is falsy, so it is replaced by the default while the debug record keeps "0" |
| BaseController.DebugTraceRoundTrip | api/app/Http/Controllers/BaseController.php:177-198 | the debug record's trace is a list of strings that, joined with line feeds, is the exception's trace |
| BaseModel.PrepareValue | api/src/Repository/Model/BaseModel.php:78-97 | an empty value becomes null; a model or collection passes through; a non-empty array becomes a collection exactly when its first element is a model and throws otherwise; any other non-empty value throws |
| BaseModel.Truthy | api/src/Repository/Model/BaseModel.php:106 | `array_filter` keeps exactly the truthy elements and never adds any |
| BaseModel.QueuedBy | api/src/Repository/Model/BaseModel.php:102-107 | no previous value queues nothing; a previous model queues itself; a previous collection queues exactly its truthy members |
| BaseModel.Compatible | api/src/Repository/Model/BaseModel.php:155-174 | null is always compatible; a has-one or belongs-to relation refuses exactly a collection; any other relation refuses exactly a model |
| BaseModel.Model.constructor | api/src/Repository/Model/BaseModel.php:36-43 | a new model has no attributes, relations or queued deletions and is not marked deleted |
| BaseModel.Model.Set | api/src/Repository/Model/BaseModel.php:50-70 | a non-relation key is an attribute assignment; a value `prepareValue` refuses is ignored; an accepted one queues the previous related models (loading the relation when needed), then on a compatible value replaces the relation, and on an incompatible one throws leaving the previous value in place |
| BaseModel.Model.IsDeleted | api/src/Repository/Model/BaseModel.php:239-242 | `isDeleted()` reads the deleted mark, which only `MarkAsDeleted` sets and which makes `SaveOp` a deletion |
| BaseModel.Model.MarkAsDeleted | api/src/Repository/Model/BaseModel.php:247-250 | the model is marked deleted and nothing else changes |
| BaseModel.Model.SaveOp | api/src/Repository/Model/BaseModel.php:215-223 | `save` asks for a delete exactly when the model is marked deleted |
| BaseModel.Model.Save | api/src/Repository/Model/BaseModel.php:215-223 | one database operation is logged, a delete when marked deleted and a save otherwise, and its outcome is returned |
| BaseModel.SaveAfterMark | api/src/Repository/Model/BaseModel.php:215-250 | a model marked deleted and then saved is deleted |
| BaseModel.FirstFailedDelete | api/src/Repository/Model/BaseModel.php:121-125 | every deletion before the index succeeds and the one at it, if any, fails |
| BaseModel.Model.PushAsWritten | api/src/Repository/Model/BaseModel.php:115-146 | as written: a failed save stops at once; otherwise the queued models are deleted in order up to the first failure, the stack is emptied once any deletion has succeeded, and the result is true exactly when every deletion and every related push succeeded |
| BaseModel.WrittenWalkLosesQueued | api/src/Repository/Model/BaseModel.php:126 | as written, when the first of two queued deletions succeeds and the second fails, the stack ends empty; with the reset after the loop both stay queued |
| BaseModel.StackAfterWalk | api/src/Repository/Model/BaseModel.php:121-127 | corrected: the stack is emptied exactly when every queued deletion succeeded, and kept whole otherwise |
| BaseModel.Model.Push | api/src/Repository/Model/BaseModel.php:115-146 | corrected `push`: as `PushAsWritten`, but a failed deletion leaves the whole stack queued |
| BaseModel.NothingQueuedIsLost | api/src/Repository/Model/BaseModel.php:121-127 | with the corrected reset every queued model is either deleted or still queued |
| Article.Article.constructor | api/app/Models/Article.php:14-31 | an article holds the given attributes and permalink history |
| Article.Article.SetPermalink | api/app/Models/Article.php:47-57 | a truthy permalink becomes the attribute and is appended to the history; any other sets the attribute to null and leaves the history unchanged |
| Article.ChangePermalinkTwice | api/app/Models/Article.php:47-57 | two changes keep both permalinks in the history, in order, and the article answers to the second |
| Article.ClearPermalink | api/app/Models/Article.php:54-56 | clearing the permalink nulls the attribute and never removes a recorded permalink |
| ArticleComment.Target | api/app/Models/ArticleComment.php:220-221 | a key has a target exactly when the renaming table lists it, and the target is the one listed beside it |
| ArticleComment.RenamedFields | api/app/Models/ArticleComment.php:217-225 | for an injective table: each mapped field present lands under its target with its value; every attribute comes from a mapped field present; there is one attribute per such field |
| ArticleComment.RenameStep | api/app/Models/ArticleComment.php:219-223 | renaming one more field of the input adds its attribute when the table maps it and nothing otherwise |
| ArticleComment.Rename | api/app/Models/ArticleComment.php:217-225 | the `foreach`, walking the fields in any order, yields the renamed record |
| ArticleComment.CommentTableWellFormed | api/app/Models/ArticleComment.php:208-215 | the six-entry table is injective in both columns and its targets are the six attribute names |
| ArticleComment.Converted | api/app/Models/ArticleComment.php:206-226 | the output's keys are among the six targets; each mapped field present gives `output[target] = input[field]`; the output has one key per mapped field present; unmapped fields are dropped and an empty input gives an empty output |
| ArticleComment.VanillaCommentToEloquent | api/app/Models/ArticleComment.php:206-226 | the method's loop computes the converted comment |
| ArticleComment.EagerModel.constructor | api/app/Models/ArticleComment.php:185-192 | a model taking part in eager loading starts with its key and no loaded relations |
| ArticleComment.Match | api/app/Models/ArticleComment.php:185-197 | the same models come back; each whose key has results gets them under the relation, and every other is left unchanged |
| ArticleComment.InitRelation | api/app/Models/ArticleComment.php:145-152 | the same models come back, each with an empty collection under the relation and nothing else changed |
| ArticleDiscussion.DiscussionTableWellFormed | api/app/Models/ArticleDiscussion.php:111-115 | the three-entry table is injective in both columns |
| ArticleDiscussion.CopyMapped | api/app/Models/ArticleDiscussion.php:118-124 | the closure's loop, walking the original fields, gives the comment with every mapped field's value copied under its attribute name |
| ArticleDiscussion.PrepareComment | api/app/Models/ArticleDiscussion.php:117-125 | the closure yields the prepared comment |
| ArticleDiscussion.PreparedAll | api/app/Models/ArticleDiscussion.php:117-127 | preparing a list keeps the number of comments |
| ArticleDiscussion.PreparedAllAt | api/app/Models/ArticleDiscussion.php:117-127 | the i-th prepared comment is the i-th comment prepared, so order is kept |
| ArticleDiscussion.PrepareCommentsForHydrate | api/app/Models/ArticleDiscussion.php:109-128 | the `array_map` yields every comment prepared, in order |
| ArticleDiscussion.PreparedKeeps | api/app/Models/ArticleDiscussion.php:118-124 | every original key is kept, with its value unless it is one of the three attribute names; an attribute name is added only when its Vanilla field is present |
| ArticleDiscussion.PreparedCopies | api/app/Models/ArticleDiscussion.php:111-122 | each of CommentID, Body and DateInserted present is copied to article_comment_id, body and created_at |
| ArticleDiscussion.DiscussionRenamed | api/app/Models/ArticleDiscussion.php:111-122 | the copies are exactly one attribute per one of the three fields present, and none for an absent one |
| ArticleModel.GetIdentifier | app/src/common/models/article/articleModel.ts:71-75 | the permalink when it is truthy, the post id otherwise |
| ArticleModel.FindMeta | app/src/common/models/article/articleModel.ts:98 | no meta is found exactly when none carries the name; a found one is the first that does |
| ArticleModel.TemplateMetas | app/src/common/models/article/articleModel.ts:95-109 | one meta per template name, in template order: the article's first meta of that name, or a blank one |
| ArticleModel.LeftoversMembers | app/src/common/models/article/articleModel.ts:112-118 | no more leftovers than metas, and a meta is left over exactly when its name is outside the template |
| ArticleModel.HydrateMetaCollectionFromTemplate | app/src/common/models/article/articleModel.ts:93-124 | four template metas named name, description, keyword and canonical, in that order, each the article's own first meta of that name or a blank one with empty content, the post id and a new id; then the leftovers, in order |
| ArticleModel.DuplicateTemplateMetaDropped | app/src/common/models/article/articleModel.ts:98-114 | of two metas both named `name`, the first is taken over and the second is neither taken over nor left over |
| ArticleService.SaveArticlePlan | app/src/common/services/article/articleService.ts:77-94 | nothing to save (no public attributes of a new article, no public changes of an existing one) resolves true with no request; otherwise one request to `/articles/<articleId>`, PATCH with the changes when the article exists and PUT with every public attribute when it is new |
| ArticleService.SaveMethodFollowsExistence | app/src/common/services/article/articleService.ts:79-85 | a new article with public attributes is PUT whole; an existing one with public changes PATCHes exactly those |
| ArticleService.SaveArticleTagsPlan | app/src/common/services/article/articleService.ts:130-147 | skipped, resolving false, exactly for an existing article whose changes do not touch `_tags`; otherwise the tag list is PUT to `/articles/<articleId>/tags` |
| ArticleService.UsedMetasMembers | app/src/common/services/article/articleService.ts:165-167 | no more metas are kept than given; a meta is kept exactly when its content is not empty; a list whose metas all have content is kept whole |
| ArticleService.SaveArticleMetasPlan | app/src/common/services/article/articleService.ts:154-173 | skipped, resolving false, exactly for an existing article whose changes do not touch `_articleMetas`; otherwise the metas with content are PUT to `/articles/<articleId>/meta` |
| ArticleService.Article.constructor | app/src/common/services/article/articleService.ts:59-68 | an article starts with the given attributes and existence and no recorded changes |
| ArticleService.Article.Assign | app/src/common/services/article/articleService.ts:84 | an assignment updates the attribute and is recorded as a change |
| ArticleService.Article.SaveArticleWithRelated | app/src/common/services/article/articleService.ts:59-68 | the article is saved first, and its tags and metas only when that succeeded; the attributes never change; when every step succeeds the changes are reset and the article exists, otherwise both are left as they were |
| ArticleService.NothingToSaveAgain | app/src/common/services/article/articleService.ts:64-65 | after a save resets the changes and marks the article existing, each of the three steps is skipped without a request |
| ArticleService.SaveTwice | app/src/common/services/article/articleService.ts:59-68 | a successful save followed at once by another makes the second send nothing |
| ArticleService.NewArticleData | app/src/common/services/article/articleService.ts:31-39 | the data of a new article is exactly a new id, the author's id and the author |
| ArticleService.NewArticleHasAuthor | app/src/common/services/article/articleService.ts:31-39 | the hydrated new article carries the new id and the author's id, and its `_author` is the author built as a model |
| ArticleService.SaveComment | app/src/common/services/article/articleService.ts:102-109 | the comment keeps its fields, gains `createdAt` set to the current time, and is POSTed to `/articles/<articleId>/comments` |
| AbstractModel.JsGet | app/src/common/models/abstractModel.ts:118 | a property read gives the stored value, and undefined for an absent key |
| AbstractModel.Copied | app/src/common/models/abstractModel.ts:58-66 | the copied fields have the data's keys; a field the model casts holds the cast value and every other field its own value |
| AbstractModel.CopiedStep | app/src/common/models/abstractModel.ts:58-66 | copying one more field, in whatever order `_.transform` visits it, sets that field to its cast or plain value |
| AbstractModel.NestedValueCases | app/src/common/models/abstractModel.ts:113-132 | a hydrate function is given the whole data; a model class turns an array into an array of models of the same length, an object into one model, and anything else, a missing key or null into null |
| AbstractModel.ConstructAll | app/src/common/models/abstractModel.ts:120 | one model per element, in order, each built from that element |
| AbstractModel.NestedValues | app/src/common/models/abstractModel.ts:111-134 | one value per nested key, each the value that key's hydration gives |
| AbstractModel.NestedStep | app/src/common/models/abstractModel.ts:113-132 | hydrating one more nested key sets that key to its nested value |
| AbstractModel.NoNestedValues | app/src/common/models/abstractModel.ts:68-70 | a model without nested entities gets no nested values |
| AbstractModel.HydratedFields | app/src/common/models/abstractModel.ts:55-73 | data that is not an object or array assigns nothing; otherwise the model gains exactly the data's fields and the nested keys, each nested key holds its nested value, each other field its cast or plain value, and every other attribute is kept |
| AbstractModel.HydrateIdempotent | app/src/common/models/abstractModel.ts:55-73 | hydrating twice with the same data gives what hydrating once gives |
| AbstractModel.PublicAttributes | app/src/common/models/abstractModel.ts:153-169 | the result keeps values unchanged and drops keys only: never a "__" key, a "_" key unless asked for, and every other key is kept |
| AbstractModel.UnderscoredKeysOnRequest | app/src/common/models/abstractModel.ts:161-167 | a key with one leading underscore is included exactly when underscored keys are asked for |
| AbstractModel.DoubleUnderscoreNeverPublic | app/src/common/models/abstractModel.ts:157-159 | a "__" key is never included; every other key is included when underscored keys are asked for |
| AbstractModel.Model.constructor | app/src/common/models/abstractModel.ts:40-48 | a new model holds its class defaults hydrated with the data, and exists as asked |
| AbstractModel.Model.Hydrate | app/src/common/models/abstractModel.ts:55-73 | the attributes become the hydrated ones and existence is unchanged |
| AbstractModel.Model.CopyFields | app/src/common/models/abstractModel.ts:58-66 | the `_.transform` loop adds the copied fields over the attributes |
| AbstractModel.Model.HydrateNested | app/src/common/models/abstractModel.ts:111-134 | the `_.forIn` loop adds one nested value per nested key over the attributes |
| AbstractModel.Model.GetAttributes | app/src/common/models/abstractModel.ts:153-169 | the model's attributes filtered as `PublicAttributes` states: never a `__` key, a `_` key only on request, values unchanged |
| AbstractModel.Model.Exists | app/src/common/models/abstractModel.ts:175-177 | the existence flag, which `SetThenRead` shows reads back what `setExists` stored |
| AbstractModel.Model.SetExists | app/src/common/models/abstractModel.ts:183-185 | the flag is set and no attribute changes |
| AbstractModel.SetThenRead | app/src/common/models/abstractModel.ts:43-47 | `exists()` reads back what `setExists` stored, and the flag, not being enumerable, is no attribute |
| AbstractParser.Parse | api/app/Extensions/Socialite/Parsers/AbstractParser.php:70-80 | the parsed attributes have exactly the given names as keys; each holds its getter's result when the parser defines that getter, else the empty string |
| AbstractParser.Parser.constructor | api/app/Extensions/Socialite/Parsers/AbstractParser.php:30-35 | a new parser has parsed the user: exactly token, email, first_name and last_name, each through its getter or empty |
| AbstractParser.Parser.ToArray | api/app/Extensions/Socialite/Parsers/AbstractParser.php:87-90 | the parsed attributes, which `ParseSocialUser` shows are exactly the four social ones |
| AbstractParser.Parser.Get | api/app/Extensions/Socialite/Parsers/AbstractParser.php:98-103 | a parsed attribute's value, and null for any other name |
| AbstractParser.ParseSocialUser | api/app/Extensions/Socialite/Parsers/AbstractParser.php:22-103 | a parser defining all four getters yields exactly the four attributes, each its getter's result, and null for any other name |
| SectionableApiService.SavedIndices | app/src/common/z_mixins/sectionableApiService.ts:22-25 | the kept indices are increasing and each names a section that is new or has changes |
| SectionableApiService.SavedIndicesComplete | app/src/common/z_mixins/sectionableApiService.ts:23-25 | every section that is new or has changes is kept |
| SectionableApiService.SectionsBodyOrder | app/src/common/z_mixins/sectionableApiService.ts:22-29 | the body has one element per kept section, the j-th being the public attributes of the j-th kept section |
| SectionableApiService.SaveEntitySections | app/src/common/z_mixins/sectionableApiService.ts:10-35 | skipped, resolving false, exactly for an existing entity whose changes do not touch `_sections`; otherwise one PUT to `<endpoint>/sections` with the kept sections' attributes |
| SectionableApiService.NothingToSave | app/src/common/z_mixins/sectionableApiService.ts:23-25 | when no section is new or changed the body is empty |
| SectionableApiService.UnchangedSectionsNotSent | app/src/common/z_mixins/sectionableApiService.ts:14-31 | an existing entity whose `_sections` changed but whose sections all exist unchanged sends an empty list |
| SectionableApiService.DeleteSection | app/src/common/z_mixins/sectionableApiService.ts:38-43 | one bodiless remove request to `<endpoint>/sections/<sectionId>` |
| UserModel.FullNameSplits | app/src/common/models/user/userModel.ts:47-49 | the full name is first name, a space and last name; for a first name without a space, its first word is the first name |
| UserModel.MissingNamesShowUndefined | app/src/common/models/user/userModel.ts:47-49 | a user whose names were never set shows as "undefined undefined" |
| UserModel.Contains | app/src/common/models/user/userModel.ts:57 | `_.contains` holds exactly when some element equals the value |
| UserModel.IsAdmin | app/src/common/models/user/userModel.ts:55-58 | a user is an admin exactly when the token's role keys include the admin role key |
| UserModel.SomeProvider | app/src/common/models/user/userModel.ts:66 | `_.some` holds exactly when some login has that provider |
| UserModel.HasSocialLogin | app/src/common/models/user/userModel.ts:64-67 | the user has a social login with a provider exactly when one of `_socialLogins` names it |
| UserModel.AddedLoginFound | app/src/common/models/user/userModel.ts:64-67 | adding a login makes its provider found and leaves the answer for every other provider unchanged |
| UserModel.RoleSegments | app/src/common/models/user/userModel.ts:75-77 | one display segment per role, in role order |
| UserModel.SplitCommaSpace | app/src/common/models/user/userModel.ts:77 | splitting a ", "-joined list on "," gives the first part and then every later part after a space |
| UserModel.RolesDisplaySegments | app/src/common/models/user/userModel.ts:73-79 | the display read back at its commas has one part per role, in order: the first role's segment, then each later one after a space |
| Pagination.ParseInt | app/src/common/services/pagination/paginationService.ts:170 | `parseInt` is NaN exactly when no digit follows the optional sign |
| Pagination.ParseIntOfNat | app/src/common/services/pagination/paginationService.ts:175-176 | `parseInt` reads a decimal rendering back as the number |
| Pagination.IsNumericOfNat | app/src/common/services/pagination/paginationService.ts:169 | a decimal rendering is numeric |
| Pagination.ParseContentRangeHeader | app/src/common/services/pagination/paginationService.ts:155-180 | the header is refused, with the "Invalid range header" message naming it, exactly when it is not three parts on white space or '/' or its middle part is not two parts on '-'; otherwise the entity name is the first part and the count is `parseInt` of the third when that is numeric and the third as a string otherwise |
| Pagination.RangeHeaderRoundTrip | app/src/common/services/pagination/paginationService.ts:44-46 | the Range header for `from`..`to` starts with `entities=` and its two ends, split on '-', read back as `from` and `to` |
| Pagination.RangeEnds | app/src/common/services/pagination/paginationService.ts:162-176 | a range `<from>-<to>` of two numbers is two parts, read back as the two numbers |
| Pagination.HeaderParts | app/src/common/services/pagination/paginationService.ts:156 | `<name> <range>/<count>` splits into exactly those three parts |
| Pagination.ContentRangeParts | app/src/common/services/pagination/paginationService.ts:155-180 | a header `<name> <from>-<to>/<count>` parses to the name, the two numbers and the count, numeric when it is numeric and the string otherwise |
| Pagination.ContentRangeRoundTrip | app/src/common/services/pagination/paginationService.ts:155-180 | a header written from numbers in the layout of section 4.2 of RFC 7233 is read back exactly |
| Pagination.UnknownTotalKept | app/src/common/services/pagination/paginationService.ts:168-171 | an unknown total `*` is kept as the string `*` |
| Pagination.StarNotNumeric | app/src/common/services/pagination/paginationService.ts:169 | `Number('*')` is NaN |
| Pagination.EmptyTotalIsNaN | app/src/common/services/pagination/paginationService.ts:168-171 | an empty total passes the numeric test yet `parseInt` makes it NaN, and a NaN total limits no window |
| Pagination.MissingTotalRefused | app/src/common/services/pagination/paginationService.ts:158-160 | `entities 0-9`, lacking a total, is refused |
| Pagination.Window | app/src/common/services/pagination/paginationService.ts:60-74 | refused with "No more results found!" exactly when a truthy total is known and the index has reached it; otherwise the window from the index, `count` entities long, its end clamped to the last entity when the total is known |
| Pagination.WindowWithinTotal | app/src/common/services/pagination/paginationService.ts:62-69 | a request under a known total starts before it and ends at or before its last entity |
| Pagination.UnknownTotalWindow | app/src/common/services/pagination/paginationService.ts:66-74 | without a total, a window is the `count` entities from the index |
| Pagination.Paginator.constructor | app/src/common/services/pagination/paginationService.ts:16-28 | a new paginator is at index 0 with count 10, no total and a factory returning the data unchanged |
| Pagination.Paginator.SetModelFactory | app/src/common/services/pagination/paginationService.ts:136-139 | the factory is replaced and nothing else changes |
| Pagination.Paginator.SetCount | app/src/common/services/pagination/paginationService.ts:89-92 | the count is set and nothing else changes |
| Pagination.Paginator.GetCount | app/src/common/services/pagination/paginationService.ts:98-100 | the configured count, as `SetCount` leaves it and `GetNext` advances by |
| Pagination.Paginator.Reset | app/src/common/services/pagination/paginationService.ts:119-122 | the index is set and nothing else changes |
| Pagination.Paginator.GetResponse | app/src/common/services/pagination/paginationService.ts:60-74 | the window for the paginator's known total, refused or clamped as `Window` states |
| Pagination.Paginator.GetNext | app/src/common/services/pagination/paginationService.ts:107-114 | the window at the current index, of the given or configured count; the index advances by the configured count whatever was asked |
| Pagination.Paginator.GetRange | app/src/common/services/pagination/paginationService.ts:130-133 | without a known total, or with both ends inside it, exactly the range `first`..`last` is asked for |
| Pagination.Paginator.ProcessContentRangeHeader | app/src/common/services/pagination/paginationService.ts:141-153 | a missing or empty header changes nothing; a malformed one throws; a numeric count becomes the total and a string one leaves it |
| Pagination.Paginator.Receive | app/src/common/services/pagination/paginationService.ts:75-80 | a failed request rejects with "No more results found!"; a successful one resolves exactly when its Content-Range header is absent or parses, with every entity through the model factory in order, and the total becomes the header's numeric count or stays as it was |
| Pagination.ConsecutiveWindows | app/src/common/services/pagination/paginationService.ts:107-114 | two `getNext()` calls without a total ask for adjacent windows |
| LocalizableInputDialog.Localization.constructor | app/src/common/directives/localizableInput/dialog/localizableInputDialog.ts:57-64 | a localization holds the given owner id, owner type, translations and region |
| LocalizableInputDialog.Find | app/src/common/directives/localizableInput/dialog/localizableInputDialog.ts:33 | a found localization is for the region asked for |
| LocalizableInputDialog.FindFirst | app/src/common/directives/localizableInput/dialog/localizableInputDialog.ts:33 | nothing is found exactly when no localization is for the region; otherwise the first one for it is |
| LocalizableInputDialog.ValueFor | app/src/common/directives/localizableInput/dialog/localizableInputDialog.ts:32-40 | null when the region has no localization; otherwise the attribute's translation in the region's first localization |
| LocalizableInputDialog.KeyIndex | app/src/common/directives/localizableInput/dialog/localizableInputDialog.ts:26 | a key has a position exactly when the object has it, and that position holds it |
| LocalizableInputDialog.AssignEntries | app/src/common/directives/localizableInput/dialog/localizableInputDialog.ts:26 | assigning to an existing key replaces its entry in place; a new key is appended |
| LocalizableInputDialog.AssignKeys | app/src/common/directives/localizableInput/dialog/localizableInputDialog.ts:26 | assigning keeps the keys distinct and adds exactly the key assigned |
| LocalizableInputDialog.LocalizationMapEntries | app/src/common/directives/localizableInput/dialog/localizableInputDialog.ts:25-28 | the map has one entry per supported region code, each holding that region's translation, null when it has none |
| LocalizableInputDialog.ChosenMembers | app/src/common/directives/localizableInput/dialog/localizableInputDialog.ts:45-47 | exactly the entries with a non-empty translation are acted on |
| LocalizableInputDialog.AttributesAt | app/src/common/directives/localizableInput/dialog/localizableInputDialog.ts:52 | the snapshot of the localizations' translations holds each one's, by position |
| LocalizableInputDialog.SavedAt | app/src/common/directives/localizableInput/dialog/localizableInputDialog.ts:44-55 | after saving, the localization each region picks holds the region's last chosen translation under the attribute with its other translations kept, and every other localization is as before |
| LocalizableInputDialog.Dialog.constructor | app/src/common/directives/localizableInput/dialog/localizableInputDialog.ts:16-30 | the dialog opens with the map built over the supported regions |
| LocalizableInputDialog.Dialog.SaveLocalizations | app/src/common/directives/localizableInput/dialog/localizableInputDialog.ts:42-71 | one localization per non-empty translation, in the map's order: a region's existing localization, updated in place, or a new one holding only that translation with a new id, no owner type and that region; the stored translations change exactly as `SavedAt` states |
| LocalizableInputDialog.Dialog.SaveEntry | app/src/common/directives/localizableInput/dialog/localizableInputDialog.ts:45-66 | one non-empty translation lands in the region's existing localization, or in a new one created for it |
| RegionInterceptor.Interceptor.constructor | app/src/common/services/region/regionInterceptor.ts:12-13 | the interceptor starts with the injector and no region service fetched |
| RegionInterceptor.Injector.Get | app/src/common/services/region/regionInterceptor.ts:21 | the injector hands out its region service, and the lookup is counted |
| RegionInterceptor.RegionService.SetRegion | app/src/common/services/region/regionInterceptor.ts:60 | the region set becomes the current one |
| RegionInterceptor.Interceptor.GetRegionService | app/src/common/services/region/regionInterceptor.ts:19-24 | the injector's region service, looked up on the first call only and cached after it |
| RegionInterceptor.RequestHeaders | app/src/common/services/region/regionInterceptor.ts:33-41 | a request to the API while a region is current gets Accept-Region set to that region's code, every other header unchanged; any other request keeps its headers |
| RegionInterceptor.Interceptor.Request | app/src/common/services/region/regionInterceptor.ts:31-44 | the same configuration is returned, its headers as `RequestHeaders` states; the current region is untouched, and a request not to the API does not look the service up |
| RegionInterceptor.RegionAfter | app/src/common/services/region/regionInterceptor.ts:53-61 | a current region is kept; with none current, a non-empty Content-Region header sets the region looked up by that code; an empty or missing header changes nothing |
| RegionInterceptor.Interceptor.Response | app/src/common/services/region/regionInterceptor.ts:51-66 | the same response is returned, the current region becomes as `RegionAfter` states, and a response without the header does not look the service up |
| RegionInterceptor.RegionStaysSet | app/src/common/services/region/regionInterceptor.ts:59 | once a region is current, no sequence of responses changes it |
| RegionInterceptor.UnknownRegionsLeaveUnset | app/src/common/services/region/regionInterceptor.ts:55-61 | responses whose header is empty or names no known region leave the region unset |
| RegionInterceptor.TwoResponses | app/src/common/services/region/regionInterceptor.ts:51-66 | of two responses naming regions, only the first sets the region, and the service is looked up once |

## Left out

- JWT encoding, decoding and signing are foreign libraries: the parser, decoder, payload validator and claim factory are parameters of `Guard` and `AuthDriver` that may fail.
- AuthDriver.IssuedPayload, AuthDriver.IssuedTokenNamesUser and AuthDriver.EmptyUserFallsBackToSubject: the `_user` claim's serialisation of a user (the EloquentModelTransformer run in api/app/Extensions/JWTAuth/UserClaim.php:38-41, which renames keys such as `user_id` to `userId`) is the parameter `userClaim`, so these state the round trip in terms of the serialised keys and do not say which keys the transformer produces; UserClaim's `is_array` check of the serialised value is not modelled.
- The Rbac gate, its rule classes and `userIsOwner` are not part of this model: a permit's owner condition is a flag, and a rule-carrying node of the permission table is one whose `ruleName` is set.
- The Blacklist class is not part of this model: its behaviour is the one its unit test fixes, the clock is a parameter, and a missing or non-integer `exp` claim counts as 0.
- Cache expiry is not modelled: the cache is a map, and each entry records the minutes it was stored for.
- Random tokens, UUIDs (`ngRestAdapter.uuid`) and the clock are parameters, since they are nondeterministic.
- `makeConfirmationToken` is assumed to store the address under its token, as `UserRepository` writes it; the mail job `patchOne` dispatches is kept only as the address and token it is sent with.
- `patchOne`'s updates of the profile and credential records and its JWT refresh are not modelled; for both actions the repositories' database reads and writes are plumbing: an existing id is a predicate, and a save is the saved row.
- `ApiController`'s single-entity `getAll`, `getOne`, `postOne`, `putOne`, `patchOne` and `deleteOne` are plain repository calls with no logic of their own; `notFound` is assumed to fail, and the `uuid` rule is a parameter of the id checks.
- PHP's loose comparison between different types is not modelled: the email `!=` in `patchOne` and the `in_array` test of `RoleController.HydrateRoles` (api/app/Http/Controllers/RoleController.php:45) compare values exactly; role names and default keys are both strings there, so only numeric-looking strings could differ.
- ApiController.FillAll, ApiController.PutMany, UserController.PutOne and UserController.Patch: Eloquent's `fill` is taken as an unfiltered merge of the entity's attributes; the model's `$fillable`/`$guarded` filtering and the MassAssignmentException it can raise are not modelled, because those lists live in the model classes, which are not part of this model; in particular the saved user keeps `_user_credential` and `_user_profile` from the request.
- Guard's `basic`, `onceBasic` and `validate` only throw "Not implemented"; they are not modelled.
- Vanilla network calls (`getResults`, `getEager`, `createDiscussion`, `deleteDiscussion`, `setCommentAuthors`) are I/O. ArticleDiscussion's `match` and `initRelation` are the same code as ArticleComment's and are modelled once, as `ArticleComment.Match` and `ArticleComment.InitRelation`.
- `BaseModel`'s `preserveKeys` and the relation cache of `getRelationshipFromMethod` are Eloquent plumbing; which kind a relation is (has-one, belongs-to, other) is a parameter.
- Dates (`castDate`, `castMoment`, the `moment()` stamp in `saveComment`) come from a date library: the cast functions are parameters of `AbstractModel`, and the stamp is a parameter of `ArticleService.SaveComment`.
- `getChanged` is assumed to report the changed attributes without the underscored keys; change tracking itself is a map the model is given.
- Meta models are plain data in `ArticleModel`, and a `_metas` value that is not an array counts as empty.
- `$q.all` and promise concurrency in `articleService` are sequential request plans: each save step either resolves at once or sends its one request.
- `getArticle`, `getModel` (from the abstract API service), `getTagGroups` and `generateUUID` are not part of this model.
- lodash `words` and `capitalize` inside `rolesDisplay` are a parameter `display`, and the admin role key is a parameter of `UserModel.IsAdmin`.
- Getter names in `AbstractParser` are derived with camel case in PHP; the model takes the getter for each attribute as given.
- JavaScript's numeric test `Number()` is modelled for signed decimal literals (with fraction and exponent), `Infinity` and the empty string, and `parseInt` reads the leading decimal digits as JavaScript does; hexadecimal, binary and octal literals are not: "0x1A" is kept as a string where JavaScript reads 26.
- The paginator's HTTP exchange, the interceptor's 416 pass-through and `getPaginatorInstance` are I/O and wiring: a response is a value the paginator receives.
- RegionService is not part of this model beyond the current region, `getRegionByCode` as a function and `setRegion` assigning it.
- `cancelDialog` and `$mdDialog.hide` are UI; the view's edits of `localizationMap` happen between the constructor and `saveLocalizations` and can be any map.
- UserController.PutOne: checks the id with the corrected `uuid` rule, so an id followed by a line feed is refused as invalid where the rule as written lets it through to the existence check and the save (see Findings).
- ApiController.UuidRule: is the corrected `uuid` rule (see Findings); the controller's members take the rule as a parameter, and the rule as written also accepts an id followed by a line feed.
- ForumDiscussion.LookupId: uses the corrected `isValidUuid`, so an id followed by a line feed is looked up as 0 where the check as written looks it up as given (see Findings).
- ForumDiscussion.GetByForeignId: inherits that difference from `LookupId`.
- Blacklist.TtlFor and Blacklist.AddCalls: the rule that a token stays listed for its remaining lifetime plus 10 seconds, and that a token expiring at this very second is still listed, are assumed from the test's one case (100 seconds ahead gives 110); `Blacklist.AddHundredSecondsAhead` is that case.
- Floating point (`validateFloat`), the country dataset and ElasticSearch are outside the modelled core.

## Findings

| source | as written | input that shows it | evidently intended | confidence | as-written member | corrected member |
|---|---|---|---|---|---|---|
| api/app/Services/SpiraValidator.php:14 | the pattern ends in `$` without the `D` modifier, so `preg_match` also accepts the id followed by one line feed | "00000000-0000-0000-0000-000000000000\n" | the id ends at the end of the string | not executed | SpiraValidator.SpiraUuidAcceptsTrailingNewline | SpiraValidator.ValidateUuidAgrees |
| forum/src/apiextended/controllers/class.apidiscussioncontroller.php:39 | the same `$` anchor lets a trailing line feed through the forum's check | "00000000-0000-0000-0000-000000000000\n" | exactly 36 characters | not executed | ForumDiscussion.ForumUuidAcceptsTrailingNewline | ForumDiscussion.IsValidUuid |
| api/app/Http/Controllers/ApiController.php:55 | the last page starts at the row count minus the limit | 3 rows, limit 10: offset -7 | an offset of at least 0 | not executed | ApiController.NegativeLastPageOffset | ApiController.LastPageOffset |
| api/src/Repository/Model/BaseModel.php:126 | the delete stack is reset inside the loop, after each successful deletion | stack [a, b]: a is deleted, b fails; the stack ends empty and b is never deleted | reset the stack once every deletion succeeded | not executed | BaseModel.WrittenWalkLosesQueued | BaseModel.NothingQueuedIsLost |
