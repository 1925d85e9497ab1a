/**
 * The repository's base model: assigning a value to a relation property
 * queues the models it replaces for deletion, a model marked deleted is
 * deleted when it is saved, and `push` saves the model, deletes what was
 * queued and then pushes the related models.
 *
 * The database is a log of the operations the model asks for, each of which
 * succeeds or fails as a parameter says; related models are identified by a
 * number, and pushing one of them is a parameter as well.
 */
module BaseModel {
  import opened Common

  type ModelId = nat

  /** An element of a PHP array or collection: a model or another value. */
  datatype Elem = ModelElem(id: ModelId) | ValueElem(v: Value)

  /** A value assigned to a property: a plain value, a PHP array that may
      hold models, a single model, or a collection. */
  datatype Assigned =
    | Plain(v: Value)
    | ArrayOf(elems: seq<Elem>)
    | ModelOf(id: ModelId)
    | CollectionOf(elems: seq<Elem>)

  /** What a relation holds: nothing, one model, or a collection. */
  datatype RelValue = NoRelated | RelatedModel(id: ModelId) | RelatedCollection(elems: seq<Elem>)

  datatype RelationKind = HasOneKind | BelongsToKind | OtherKind

  datatype SetRelationError = SetRelationError(message: string)

  /** An operation the model asks the database for. */
  datatype DbOp = SaveSelf | DeleteSelf | DeleteQueued(e: Elem)

  /** PHP's `empty()`: objects are never empty. */
  predicate Empty(a: Assigned) {
    match a
    case Plain(v) => !PhpTruthy(v)
    case ArrayOf(elems) => |elems| == 0
    case ModelOf(_) => false
    case CollectionOf(_) => false
  }

  /** `prepareValue(value)`; None when it throws. */
  function PrepareValue(a: Assigned): (r: Option<RelValue>)
    ensures Empty(a) ==> r == Some(NoRelated)
    ensures a.ModelOf? ==> r == Some(RelatedModel(a.id))
    ensures a.CollectionOf? ==> r == Some(RelatedCollection(a.elems))
    ensures a.ArrayOf? && |a.elems| > 0 ==>
      (r.Some? <==> a.elems[0].ModelElem?) && (r.Some? ==> r.value == RelatedCollection(a.elems))
    ensures a.Plain? && PhpTruthy(a.v) ==> r.None?
  {
    if Empty(a) then Some(NoRelated)
    else match a
      case ModelOf(id) => Some(RelatedModel(id))
      case CollectionOf(elems) => Some(RelatedCollection(elems))
      case ArrayOf(elems) => if elems[0].ModelElem? then Some(RelatedCollection(elems)) else None
      case Plain(_) => None
  }

  predicate ElemTruthy(e: Elem) {
    e.ModelElem? || PhpTruthy(e.v)
  }

  /** `array_filter(elems)`. */
  function Truthy(elems: seq<Elem>): (r: seq<Elem>)
    ensures |r| <= |elems|
    ensures forall e :: e in r <==> e in elems && ElemTruthy(e)
  {
    if |elems| == 0 then []
    else (if ElemTruthy(elems[0]) then [elems[0]] else []) + Truthy(elems[1..])
  }

  /** What `addPreviousValueToDeleteStack` queues for the relation's
      previous value: its non-null members. */
  function QueuedBy(previous: RelValue): (q: seq<Elem>)
    ensures previous == NoRelated ==> q == []
    ensures previous.RelatedModel? ==> q == [ModelElem(previous.id)]
    ensures previous.RelatedCollection? ==> forall e :: e in q <==> e in previous.elems && ElemTruthy(e)
  {
    match previous
    case NoRelated => []
    case RelatedModel(id) => [ModelElem(id)]
    case RelatedCollection(elems) => Truthy(elems)
  }

  /** `isValueCompatibleWithRelation`: the exception, if any. */
  function Compatible(kind: RelationKind, v: RelValue): (r: Option<SetRelationError>)
    ensures v == NoRelated ==> r.None?
    ensures (kind == HasOneKind || kind == BelongsToKind) ==> (r.Some? <==> v.RelatedCollection?)
    ensures kind == OtherKind ==> (r.Some? <==> v.RelatedModel?)
  {
    match v
    case NoRelated => None
    case RelatedCollection(_) =>
      if kind == HasOneKind || kind == BelongsToKind then Some(SetRelationError("Can not set collection, model expected"))
      else None
    case RelatedModel(_) =>
      if kind == OtherKind then Some(SetRelationError("Can not set model, collection expected")) else None
  }

  /** Index of the first queued model whose deletion fails, or the stack's
      length. */
  function FirstFailedDelete(stack: seq<Elem>, outcome: DbOp -> bool): (k: nat)
    ensures k <= |stack|
    ensures forall j :: 0 <= j < k ==> outcome(DeleteQueued(stack[j]))
    ensures k < |stack| ==> !outcome(DeleteQueued(stack[k]))
  {
    if |stack| == 0 || !outcome(DeleteQueued(stack[0])) then 0
    else 1 + FirstFailedDelete(stack[1..], outcome)
  }

  function DeleteOps(stack: seq<Elem>): (ops: seq<DbOp>)
    ensures |ops| == |stack|
    ensures forall j :: 0 <= j < |stack| ==> ops[j] == DeleteQueued(stack[j])
  {
    seq(|stack|, j requires 0 <= j < |stack| => DeleteQueued(stack[j]))
  }

  /** The deletions a walk of the stack asks for: up to and including the
      first that fails. */
  function Attempted(stack: seq<Elem>, outcome: DbOp -> bool): seq<Elem> {
    var k := FirstFailedDelete(stack, outcome);
    if k < |stack| then stack[..k + 1] else stack
  }

  /** The delete stack after `push` as written: emptied after every
      successful deletion, inside the loop. */
  function StackAfterWalkAsWritten(stack: seq<Elem>, outcome: DbOp -> bool): seq<Elem> {
    if FirstFailedDelete(stack, outcome) == 0 then stack else []
  }

  /** The delete stack after `push`: emptied once the whole stack is
      deleted, kept whole otherwise. */
  function StackAfterWalk(stack: seq<Elem>, outcome: DbOp -> bool): (r: seq<Elem>)
    ensures FirstFailedDelete(stack, outcome) == |stack| ==> r == []
    ensures FirstFailedDelete(stack, outcome) < |stack| ==> r == stack
  {
    if FirstFailedDelete(stack, outcome) == |stack| then [] else stack
  }

  /** With the reset after the loop, no queued model is lost: each one was
      deleted or is still queued. */
  lemma NothingQueuedIsLost(stack: seq<Elem>, outcome: DbOp -> bool)
    ensures forall j :: 0 <= j < |stack| ==>
      (outcome(DeleteQueued(stack[j])) && stack[j] in Attempted(stack, outcome)) || stack[j] in StackAfterWalk(stack, outcome)
  {
    var k := FirstFailedDelete(stack, outcome);
    if k == |stack| {
      assert Attempted(stack, outcome) == stack;
    }
  }

  /** As written, a failed second deletion forgets it: the model was not
      deleted and is no longer queued. */
  lemma WrittenWalkLosesQueued(a: Elem, b: Elem, outcome: DbOp -> bool)
    requires a != b && outcome(DeleteQueued(a)) && !outcome(DeleteQueued(b))
    ensures StackAfterWalkAsWritten([a, b], outcome) == []
    ensures StackAfterWalk([a, b], outcome) == [a, b]
  {
    assert [a, b][1..] == [b];
    assert FirstFailedDelete([b], outcome) == 0;
  }

  /** Every model the related relations hold was pushed successfully. */
  predicate RelationsPushed(relations: map<string, RelValue>, pushRelated: ModelId -> bool) {
    forall key :: key in relations ==>
      match relations[key]
      case NoRelated => true
      case RelatedModel(id) => pushRelated(id)
      case RelatedCollection(elems) => forall e :: e in elems && e.ModelElem? ==> pushRelated(e.id)
  }

  class Model {
    var attributes: map<string, Assigned>
    var relations: map<string, RelValue>
    var deleteStack: seq<Elem>
    var isDeleted: bool
    /** The operations asked of the database so far. */
    var log: seq<DbOp>
    /** The relation methods the model declares, with their kind. */
    const relationKinds: map<string, RelationKind>

    constructor (relationKinds: map<string, RelationKind>)
      ensures this.relationKinds == relationKinds
      ensures attributes == map[] && relations == map[] && deleteStack == [] && !isDeleted && log == []
    {
      this.relationKinds := relationKinds;
      attributes := map[];
      relations := map[];
      deleteStack := [];
      isDeleted := false;
      log := [];
    }

    /** `__set(key, value)`. `loaded` is what the relation holds in the
        database, read when the relation has not been loaded yet. A value
        `prepareValue` refuses is ignored; an accepted one first queues the
        previous related models, then is checked, then replaces the
        relation. */
    method Set(key: string, value: Assigned, loaded: RelValue) returns (r: Option<SetRelationError>)
      modifies this
      ensures isDeleted == old(isDeleted) && log == old(log)
      ensures key !in relationKinds ==>
        r.None? && attributes == old(attributes)[key := value] &&
        relations == old(relations) && deleteStack == old(deleteStack)
      ensures key in relationKinds && PrepareValue(value).None? ==>
        r.None? && attributes == old(attributes) && relations == old(relations) && deleteStack == old(deleteStack)
      ensures key in relationKinds && PrepareValue(value).Some? ==>
        var previous := if key in old(relations) then old(relations)[key] else loaded;
        var v := PrepareValue(value).value;
        attributes == old(attributes) &&
        deleteStack == old(deleteStack) + QueuedBy(previous) &&
        r == Compatible(relationKinds[key], v) &&
        relations == old(relations)[key := if r.None? then v else previous]
    {
      if key !in relationKinds {
        attributes := attributes[key := value];
        return None;
      }
      var prepared := PrepareValue(value);
      if prepared.None? {
        return None;
      }
      if key !in relations {
        relations := relations[key := loaded];
      }
      var previous := relations[key];
      deleteStack := deleteStack + QueuedBy(previous);
      r := Compatible(relationKinds[key], prepared.value);
      if r.Some? {
        return r;
      }
      relations := relations[key := prepared.value];
    }

    predicate IsDeleted(): (r: bool)
      reads this
      ensures r <==> isDeleted
    {
      isDeleted
    }

    method MarkAsDeleted()
      modifies this
      ensures isDeleted
      ensures attributes == old(attributes) && relations == old(relations)
      ensures deleteStack == old(deleteStack) && log == old(log)
    {
      isDeleted := true;
    }

    /** The operation `save()` asks for: a delete once marked deleted. */
    function SaveOp(): (op: DbOp)
      reads this
      ensures op == DeleteSelf <==> isDeleted
    {
      if isDeleted then DeleteSelf else SaveSelf
    }

    /** `save()`. */
    method Save(outcome: DbOp -> bool) returns (ok: bool)
      modifies this
      ensures log == old(log) + [old(SaveOp())] && ok == outcome(old(SaveOp()))
      ensures attributes == old(attributes) && relations == old(relations)
      ensures deleteStack == old(deleteStack) && isDeleted == old(isDeleted)
    {
      var op := if isDeleted then DeleteSelf else SaveSelf;
      log := log + [op];
      ok := outcome(op);
    }

    /** `push()` as written: the stack is reset inside the deletion loop. */
    method PushAsWritten(outcome: DbOp -> bool, pushRelated: ModelId -> bool) returns (ok: bool)
      modifies this
      ensures attributes == old(attributes) && relations == old(relations) && isDeleted == old(isDeleted)
      ensures !outcome(old(SaveOp())) ==>
        !ok && log == old(log) + [old(SaveOp())] && deleteStack == old(deleteStack)
      ensures outcome(old(SaveOp())) ==>
        log == old(log) + [old(SaveOp())] + DeleteOps(Attempted(old(deleteStack), outcome)) &&
        deleteStack == StackAfterWalkAsWritten(old(deleteStack), outcome) &&
        ok == (FirstFailedDelete(old(deleteStack), outcome) == |old(deleteStack)| && RelationsPushed(relations, pushRelated))
    {
      ok := Save(outcome);
      if !ok {
        return;
      }
      var stack := deleteStack;
      var k := FirstFailedDelete(stack, outcome);
      var i := 0;
      while i < |stack|
        invariant 0 <= i <= k
        invariant log == old(log) + [old(SaveOp())] + DeleteOps(stack[..i])
        invariant deleteStack == if i == 0 then stack else []
        invariant attributes == old(attributes) && relations == old(relations) && isDeleted == old(isDeleted)
      {
        log := log + [DeleteQueued(stack[i])];
        assert DeleteOps(stack[..i + 1]) == DeleteOps(stack[..i]) + [DeleteQueued(stack[i])];
        if !outcome(DeleteQueued(stack[i])) {
          assert stack[..i + 1] == Attempted(stack, outcome);
          return false;
        }
        deleteStack := [];
        i := i + 1;
      }
      assert stack[..i] == Attempted(stack, outcome);
      ok := RelationsPushed(relations, pushRelated);
    }

    /** `push()` with the stack reset after the deletion loop: a failed
        deletion leaves the whole stack queued. */
    method Push(outcome: DbOp -> bool, pushRelated: ModelId -> bool) returns (ok: bool)
      modifies this
      ensures attributes == old(attributes) && relations == old(relations) && isDeleted == old(isDeleted)
      ensures !outcome(old(SaveOp())) ==>
        !ok && log == old(log) + [old(SaveOp())] && deleteStack == old(deleteStack)
      ensures outcome(old(SaveOp())) ==>
        log == old(log) + [old(SaveOp())] + DeleteOps(Attempted(old(deleteStack), outcome)) &&
        deleteStack == StackAfterWalk(old(deleteStack), outcome) &&
        ok == (FirstFailedDelete(old(deleteStack), outcome) == |old(deleteStack)| && RelationsPushed(relations, pushRelated))
    {
      ok := Save(outcome);
      if !ok {
        return;
      }
      var stack := deleteStack;
      var k := FirstFailedDelete(stack, outcome);
      var i := 0;
      while i < |stack|
        invariant 0 <= i <= k
        invariant log == old(log) + [old(SaveOp())] + DeleteOps(stack[..i])
        invariant deleteStack == stack
        invariant attributes == old(attributes) && relations == old(relations) && isDeleted == old(isDeleted)
      {
        log := log + [DeleteQueued(stack[i])];
        assert DeleteOps(stack[..i + 1]) == DeleteOps(stack[..i]) + [DeleteQueued(stack[i])];
        if !outcome(DeleteQueued(stack[i])) {
          assert stack[..i + 1] == Attempted(stack, outcome);
          return false;
        }
        i := i + 1;
      }
      assert stack[..i] == Attempted(stack, outcome);
      deleteStack := [];
      ok := RelationsPushed(relations, pushRelated);
    }
  }

  /** A model marked deleted is deleted, not saved, by `save()`. */
  method SaveAfterMark(m: Model, outcome: DbOp -> bool) returns (ok: bool)
    modifies m
    ensures m.log == old(m.log) + [DeleteSelf] && ok == outcome(DeleteSelf)
  {
    m.MarkAsDeleted();
    ok := m.Save(outcome);
  }
}
