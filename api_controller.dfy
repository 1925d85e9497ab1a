/**
 * The generic REST controller every entity controller extends: how it picks
 * the ids out of a batch request, how it reports ids it cannot find, which
 * stored model each entity of a batch put lands on, the count check that
 * guards batch patches and deletes, and the offset of the last page.
 *
 * The repository is a map from id to stored attributes; the `notFound`
 * validation rule is taken to fail always, as the controller relies on.
 */
module ApiController {
  import opened Common
  import opened SpiraValidator

  const PaginatorDefaultLimit: int := 10
  const PaginatorMaxLimit: int := 50

  /** One entity of a batch request, or a stored model's attributes. */
  type Entity = map<string, Value>

  /** The `uuid` rule on a value, after PHP's string conversion, in its
      corrected form: the pattern as written also lets an id followed by a
      line feed through (`SpiraValidator.IsSpiraUuidAsWritten`). */
  predicate UuidRule(id: Value) {
    ValidateUuid(PhpToString(id))
  }

  /** The validator's `uuid` rule applied to an id. The controller is
      modelled for any rule; `UuidRule` is the application's, corrected. */
  predicate IdValid(id: Value, rule: Value -> bool) {
    rule(id)
  }

  datatype ApiError = InvalidIdError(id: Value) | NotFoundError

  /** `validateId(id)`: the exception it throws, if any. */
  function ValidateId(id: Value, rule: Value -> bool): (r: Option<ApiError>)
    ensures r.None? <==> IdValid(id, rule)
    ensures r.Some? ==> r.value == InvalidIdError(id)
  {
    if IdValid(id, rule) then None else Some(InvalidIdError(id))
  }

  /** `isset($e[$key]) && $e[$key]`. */
  predicate HasId(e: Entity, key: string) {
    PhpTruthy(Lookup(e, key))
  }

  /** The entity names an id the `uuid` rule refuses. */
  predicate BadId(e: Entity, key: string, rule: Value -> bool) {
    HasId(e, key) && !IdValid(Lookup(e, key), rule)
  }

  /** Some entity names an id the `uuid` rule refuses. */
  predicate SomeBadId(es: seq<Entity>, key: string, rule: Value -> bool) {
    exists i :: 0 <= i < |es| && BadId(es[i], key, rule)
  }

  /** Under the application's `uuid` rule, an id holding an upper-case
      letter is refused. */
  lemma UpperCaseIdRefused(e: Entity, key: string, s: string, i: nat)
    requires Lookup(e, key) == Str(s) && i < |s| && 'A' <= s[i] <= 'Z'
    ensures BadId(e, key, UuidRule)
  {
    assert s != "0" && s != "";
    if ValidateUuid(s) {
      UpperCaseRefused(s);
      assert false;
    }
  }

  /** The ids `getIds` collects: every present, truthy and valid id, in
      entity order. */
  function ValidIds(es: seq<Entity>, key: string, rule: Value -> bool): (ids: seq<Value>)
    ensures |ids| <= |es|
  {
    if |es| == 0 then []
    else
      var e := es[|es| - 1];
      ValidIds(es[..|es| - 1], key, rule) + (if HasId(e, key) && IdValid(Lookup(e, key), rule) then [Lookup(e, key)] else [])
  }

  /** The exception list `getIds` throws when validating. */
  function IdErrors(es: seq<Entity>, key: string, rule: Value -> bool): seq<Option<ApiError>> {
    if |es| == 0 then []
    else
      var e := es[|es| - 1];
      IdErrors(es[..|es| - 1], key, rule) + [if BadId(e, key, rule) then Some(InvalidIdError(Lookup(e, key))) else None]
  }

  /** The error list has one entry per entity: the exception for a refused
      id, null for a valid or absent one. */
  lemma {:induction false} IdErrorsAt(es: seq<Entity>, key: string, rule: Value -> bool)
    ensures |IdErrors(es, key, rule)| == |es|
    ensures forall i :: 0 <= i < |es| ==>
      IdErrors(es, key, rule)[i] == if BadId(es[i], key, rule) then Some(InvalidIdError(Lookup(es[i], key))) else None
  {
    if |es| > 0 {
      IdErrorsAt(es[..|es| - 1], key, rule);
    }
  }

  /** A value is collected exactly when some entity names it as a valid id. */
  lemma {:induction false} ValidIdsMembers(es: seq<Entity>, key: string, v: Value, rule: Value -> bool)
    ensures v in ValidIds(es, key, rule) <==>
      exists i :: 0 <= i < |es| && HasId(es[i], key) && IdValid(Lookup(es[i], key), rule) && Lookup(es[i], key) == v
  {
    if |es| > 0 {
      var init := es[..|es| - 1];
      var last := es[|es| - 1];
      var tail := if HasId(last, key) && IdValid(Lookup(last, key), rule) then [Lookup(last, key)] else [];
      assert ValidIds(es, key, rule) == ValidIds(init, key, rule) + tail;
      ValidIdsMembers(init, key, v, rule);
      assert forall i :: 0 <= i < |init| ==> es[i] == init[i];
    }
  }

  /** Taking one more entity extends what `getIds` has seen by that entity. */
  lemma GetIdsStep(es: seq<Entity>, key: string, i: nat, rule: Value -> bool)
    requires i < |es|
    ensures var e := es[i];
      ValidIds(es[..i + 1], key, rule) ==
        ValidIds(es[..i], key, rule) + (if HasId(e, key) && IdValid(Lookup(e, key), rule) then [Lookup(e, key)] else []) &&
      IdErrors(es[..i + 1], key, rule) ==
        IdErrors(es[..i], key, rule) + [if BadId(e, key, rule) then Some(InvalidIdError(Lookup(e, key))) else None] &&
      (SomeBadId(es[..i + 1], key, rule) <==> SomeBadId(es[..i], key, rule) || BadId(e, key, rule))
  {
    var prefix := es[..i + 1];
    assert prefix[..i] == es[..i];
    assert prefix[i] == es[i];
    assert forall j :: 0 <= j < i ==> prefix[j] == es[..i][j];
  }

  /** `getIds(entities, validate)`: the collected ids, or, when validating
      and some id is refused, the exception list. */
  method GetIds(es: seq<Entity>, key: string, validate: bool, rule: Value -> bool) returns (r: Result<seq<Value>, seq<Option<ApiError>>>)
    ensures validate && SomeBadId(es, key, rule) ==> r == Err(IdErrors(es, key, rule))
    ensures !(validate && SomeBadId(es, key, rule)) ==> r == Ok(ValidIds(es, key, rule))
  {
    var ids: seq<Value> := [];
    var errors: seq<Option<ApiError>> := [];
    var error := false;
    for i := 0 to |es|
      invariant ids == ValidIds(es[..i], key, rule)
      invariant validate ==> errors == IdErrors(es[..i], key, rule)
      invariant error <==> validate && SomeBadId(es[..i], key, rule)
    {
      var e := es[i];
      GetIdsStep(es, key, i, rule);
      if HasId(e, key) {
        var id := Lookup(e, key);
        var err := ValidateId(id, rule);
        if err.None? {
          ids := ids + [id];
          errors := errors + [None];
        } else if validate {
          error := true;
          errors := errors + [err];
        }
      } else {
        errors := errors + [None];
      }
    }
    assert es[..|es|] == es;
    if error {
      return Err(errors);
    }
    return Ok(ids);
  }

  /** The exception list `notFoundMany` throws: null for an id that was
      found, a not-found error otherwise. */
  function NotFoundErrors(ids: seq<Value>, found: set<Value>): seq<Option<ApiError>> {
    if |ids| == 0 then []
    else NotFoundErrors(ids[..|ids| - 1], found) + [if ids[|ids| - 1] in found then None else Some(NotFoundError)]
  }

  lemma {:induction false} NotFoundErrorsAt(ids: seq<Value>, found: set<Value>)
    ensures |NotFoundErrors(ids, found)| == |ids|
    ensures forall i :: 0 <= i < |ids| ==>
      NotFoundErrors(ids, found)[i] == if ids[i] in found then None else Some(NotFoundError)
  {
    if |ids| > 0 {
      NotFoundErrorsAt(ids[..|ids| - 1], found);
    }
  }

  /** `notFoundMany(ids, models)`: it always throws; the result is the
      exception list. */
  method NotFoundMany(ids: seq<Value>, found: set<Value>) returns (errors: seq<Option<ApiError>>)
    ensures errors == NotFoundErrors(ids, found)
  {
    errors := [];
    for i := 0 to |ids|
      invariant errors == NotFoundErrors(ids[..i], found)
    {
      assert ids[..i + 1][..i] == ids[..i];
      if ids[i] in found {
        errors := errors + [None];
      } else {
        errors := errors + [Some(NotFoundError)];
      }
    }
    assert ids[..|ids|] == ids;
  }

  /** The models `findMany(ids)` fetches: one per distinct stored id. */
  function Fetched(ids: seq<Value>, store: set<Value>): set<Value> {
    if |ids| == 0 then {}
    else Fetched(ids[..|ids| - 1], store) + (if ids[|ids| - 1] in store then {ids[|ids| - 1]} else {})
  }

  predicate Distinct(ids: seq<Value>) {
    forall i, j :: 0 <= i < j < |ids| ==> ids[i] != ids[j]
  }

  lemma {:induction false} FetchedMembers(ids: seq<Value>, store: set<Value>, v: Value)
    ensures v in Fetched(ids, store) <==> v in store && v in ids
  {
    if |ids| > 0 {
      var init := ids[..|ids| - 1];
      FetchedMembers(init, store, v);
      assert ids == init + [ids[|ids| - 1]];
    }
  }

  /** As many models come back as ids were asked for exactly when every id
      is stored and none is repeated. */
  lemma {:induction false} FetchedCount(ids: seq<Value>, store: set<Value>)
    ensures |Fetched(ids, store)| <= |ids|
    ensures |Fetched(ids, store)| == |ids| <==> (forall i :: 0 <= i < |ids| ==> ids[i] in store) && Distinct(ids)
  {
    if |ids| > 0 {
      var init := ids[..|ids| - 1];
      var x := ids[|ids| - 1];
      assert ids == init + [x];
      FetchedCount(init, store);
      FetchedMembers(init, store, x);
      if |Fetched(ids, store)| == |ids| {
        assert |Fetched(init, store)| == |init| && x in store && x !in init;
        forall i, j | 0 <= i < j < |ids|
          ensures ids[i] != ids[j]
        {
          if j == |ids| - 1 {
            assert ids[i] == init[i];
          } else {
            assert ids[i] == init[i] && ids[j] == init[j];
          }
        }
        forall i | 0 <= i < |ids|
          ensures ids[i] in store
        {
          if i < |init| {
            assert ids[i] == init[i];
          }
        }
      }
      if (forall i :: 0 <= i < |ids| ==> ids[i] in store) && Distinct(ids) {
        assert x in store;
        forall i | 0 <= i < |init|
          ensures init[i] in store && init[i] != x
        {
          assert init[i] == ids[i];
        }
        forall i, j | 0 <= i < j < |init|
          ensures init[i] != init[j]
        {
          assert init[i] == ids[i] && init[j] == ids[j];
        }
      }
    }
  }

  /** The check of `patchMany` and `deleteMany`: when fewer models come back
      than ids were sent, the not-found exception list. */
  function CountCheck(ids: seq<Value>, store: set<Value>): Option<seq<Option<ApiError>>> {
    var fetched := Fetched(ids, store);
    if |fetched| != |ids| then Some(NotFoundErrors(ids, fetched)) else None
  }

  /** The check passes exactly when every id is stored and none repeats;
      when it fails, every id that was not stored is reported. */
  lemma CountCheckPasses(ids: seq<Value>, store: set<Value>)
    ensures CountCheck(ids, store).None? <==> (forall i :: 0 <= i < |ids| ==> ids[i] in store) && Distinct(ids)
    ensures CountCheck(ids, store).Some? ==>
      |CountCheck(ids, store).value| == |ids| &&
      forall i :: 0 <= i < |ids| ==> (CountCheck(ids, store).value[i].None? <==> ids[i] in store)
  {
    FetchedCount(ids, store);
    var fetched := Fetched(ids, store);
    NotFoundErrorsAt(ids, fetched);
    forall i | 0 <= i < |ids|
      ensures ids[i] in fetched <==> ids[i] in store
    {
      FetchedMembers(ids, store, ids[i]);
    }
  }

  /** A stored id sent twice fails the check, yet no entry of the exception
      list reports an error. */
  lemma RepeatedIdFailsSilently(x: Value, store: set<Value>)
    requires x in store
    ensures CountCheck([x, x], store) == Some([None, None])
  {
    assert [x, x][..1] == [x];
    assert [x][..0] == [];
    assert Fetched([x], store) == {x};
    assert Fetched([x, x], store) == {x};
    assert NotFoundErrors([x], {x}) == [None];
    assert NotFoundErrors([x, x], {x}) == [None, None];
  }

  /** The models `putMany` fetched: the stored models of the collected ids. */
  function FindMany(ids: seq<Value>, store: map<Value, Entity>): map<Value, Entity> {
    map id | id in store && id in ids :: store[id]
  }

  /** The model an entity of a batch put is filled into: the fetched model
      with its id, or a new one. */
  function PutTarget(e: Entity, key: string, models: map<Value, Entity>, blank: Entity): Entity {
    var id := Lookup(e, key);
    if PhpTruthy(id) && id in models then models[id] else blank
  }

  /** `$id && $models->has($id)`: the fetched model an entity is filled
      into, if any. */
  function Targeted(e: Entity, key: string, models: map<Value, Entity>): (r: Option<Value>)
    ensures r.Some? ==> r.value in models && r.value == Lookup(e, key) && PhpTruthy(r.value)
    ensures r.None? <==> !PhpTruthy(Lookup(e, key)) || Lookup(e, key) !in models
  {
    var id := Lookup(e, key);
    if PhpTruthy(id) && id in models then Some(id) else None
  }

  /** The fetched models once the entities are filled into them, in order.
      A PHP object is a handle, so every entity naming the same id fills
      the one fetched model. */
  function FilledModels(es: seq<Entity>, key: string, models: map<Value, Entity>): (r: map<Value, Entity>)
    ensures r.Keys == models.Keys
  {
    if |es| == 0 then models
    else
      var m := FilledModels(es[..|es| - 1], key, models);
      var e := es[|es| - 1];
      match Targeted(e, key, models)
      case Some(id) => m[id := m[id] + e]
      case None => m
  }

  /** What the `i`th entry of `$putModels` holds once the loop is over: the
      fetched model with every fill it received, or a new model filled with
      this entity alone. */
  function PutResult(es: seq<Entity>, key: string, models: map<Value, Entity>, blank: Entity, i: nat): Entity
    requires i < |es|
  {
    match Targeted(es[i], key, models)
    case Some(id) => FilledModels(es, key, models)[id]
    case None => blank + es[i]
  }

  /** `putMany(request)`: one entry per entity, in request order, each the
      model the entity was filled into. */
  method PutMany(es: seq<Entity>, key: string, store: map<Value, Entity>, blank: Entity, rule: Value -> bool) returns (out: seq<Entity>)
    ensures |out| == |es|
    ensures forall i :: 0 <= i < |es| ==> out[i] == PutResult(es, key, FindMany(ValidIds(es, key, rule), store), blank, i)
  {
    var r := GetIds(es, key, false, rule);
    var ids := r.value;
    var models: map<Value, Entity> := map[];
    if |ids| > 0 {
      models := FindMany(ids, store);
    } else {
      FindManyNone(ids, store);
    }
    out := FillAll(es, key, models, blank);
  }

  lemma FindManyNone(ids: seq<Value>, store: map<Value, Entity>)
    requires |ids| == 0
    ensures FindMany(ids, store) == map[]
  {
  }

  /** The `foreach` of `putMany`. The first loop fills each entity into its
      target, the fetched models being updated in place; `targets` records
      which handle each entry of `$putModels` is. The second loop reads
      every entry through its handle, as `saveMany` then sees it. */
  method FillAll(es: seq<Entity>, key: string, models: map<Value, Entity>, blank: Entity) returns (out: seq<Entity>)
    ensures |out| == |es|
    ensures forall i :: 0 <= i < |es| ==> out[i] == PutResult(es, key, models, blank, i)
  {
    var fetched := models;
    var targets: seq<Option<Value>> := [];
    for i := 0 to |es|
      invariant fetched == FilledModels(es[..i], key, models)
      invariant |targets| == i
      invariant forall j :: 0 <= j < i ==> targets[j] == Targeted(es[j], key, models)
    {
      assert es[..i + 1][..i] == es[..i];
      var id := Lookup(es[i], key);
      if PhpTruthy(id) && id in fetched {
        fetched := fetched[id := fetched[id] + es[i]];
        targets := targets + [Some(id)];
      } else {
        targets := targets + [None];
      }
    }
    assert es[..|es|] == es;
    out := [];
    for i := 0 to |es|
      invariant |out| == i
      invariant forall j :: 0 <= j < i ==> out[j] == PutResult(es, key, models, blank, j)
    {
      if targets[i].Some? {
        out := out + [fetched[targets[i].value]];
      } else {
        out := out + [blank + es[i]];
      }
    }
  }

  /** A fetched model no entity names is saved as it was stored. */
  lemma {:induction false} UnnamedModelKept(es: seq<Entity>, key: string, models: map<Value, Entity>, id: Value)
    requires id in models
    requires forall j :: 0 <= j < |es| ==> Targeted(es[j], key, models) != Some(id)
    ensures FilledModels(es, key, models)[id] == models[id]
  {
    if |es| > 0 {
      UnnamedModelKept(es[..|es| - 1], key, models, id);
    }
  }

  /** In a fetched model, an attribute an entity sets holds that entity's
      value unless a later entity naming the same model sets it again. */
  lemma {:induction false} LastFillWins(es: seq<Entity>, key: string, models: map<Value, Entity>, i: nat, k: string)
    requires i < |es| && Targeted(es[i], key, models).Some? && k in es[i]
    requires forall j :: i < j < |es| && Targeted(es[j], key, models) == Targeted(es[i], key, models) ==> k !in es[j]
    ensures var m := FilledModels(es, key, models)[Targeted(es[i], key, models).value];
      k in m && m[k] == es[i][k]
  {
    var init := es[..|es| - 1];
    if i < |es| - 1 {
      assert init[i] == es[i];
      LastFillWins(init, key, models, i, k);
    }
  }

  /** Two entities naming one stored model: both entries are that model,
      filled with the first entity and then the second. */
  lemma TwoFillsShareModel(e1: Entity, e2: Entity, key: string, models: map<Value, Entity>, blank: Entity)
    requires Targeted(e1, key, models).Some? && Targeted(e2, key, models) == Targeted(e1, key, models)
    ensures var id := Targeted(e1, key, models).value;
      PutResult([e1, e2], key, models, blank, 0) == models[id] + e1 + e2 &&
      PutResult([e1, e2], key, models, blank, 1) == models[id] + e1 + e2
  {
    var id := Targeted(e1, key, models).value;
    assert [e1, e2][..1] == [e1];
    assert [e1][..0] == [];
    assert FilledModels([e1], key, models) == models[id := models[id] + e1];
    assert FilledModels([e1, e2], key, models)[id] == models[id] + e1 + e2;
  }

  /** An entity lands on a stored model exactly when it names a valid id
      that is stored; then the model is the stored one. */
  lemma PutTargetReuses(es: seq<Entity>, key: string, store: map<Value, Entity>, blank: Entity, i: int, rule: Value -> bool)
    requires 0 <= i < |es|
    ensures var id := Lookup(es[i], key);
      var models := FindMany(ValidIds(es, key, rule), store);
      (PhpTruthy(id) && id in models <==> HasId(es[i], key) && IdValid(id, rule) && id in store) &&
      (PhpTruthy(id) && id in models ==> PutTarget(es[i], key, models, blank) == store[id])
  {
    ValidIdsMembers(es, key, Lookup(es[i], key), rule);
  }

  /** The offset `getAllPaginated` reads from, as written: for the last
      page, the row count minus the limit. */
  function LastPageOffsetAsWritten(count: nat, limit: nat, isGetLast: bool, requested: int): int {
    if isGetLast then count - limit else requested
  }

  /** With fewer rows than the limit, the last page starts before row 0. */
  lemma NegativeLastPageOffset()
    ensures LastPageOffsetAsWritten(3, 10, true, 0) == -7
  {
  }

  /** The offset of the last page, kept at 0 or above. */
  function LastPageOffset(count: nat, limit: nat, isGetLast: bool, requested: int): (offset: int)
    ensures isGetLast ==> 0 <= offset <= count && count <= offset + limit
    ensures isGetLast && limit <= count ==> offset == count - limit
    ensures !isGetLast ==> offset == requested
  {
    if isGetLast then (if count < limit then 0 else count - limit) else requested
  }

  /** The corrected offset differs from the written one only on a last page
      shorter than the limit. */
  lemma LastPageOffsetAgrees(count: nat, limit: nat, isGetLast: bool, requested: int)
    ensures LastPageOffset(count, limit, isGetLast, requested) == LastPageOffsetAsWritten(count, limit, isGetLast, requested)
      <==> !isGetLast || limit <= count
  {
  }
}
