/**
 * The base class of the front end's models. A model is built from the data
 * the API returns: every field is copied onto the model (through a cast for
 * the fields the model casts), nested entities are hydrated into models of
 * their own, and the model remembers whether it exists in the API. Its
 * attributes can be read back without the private, underscored ones.
 */
module AbstractModel {
  import opened Common

  /** A JavaScript property read: undefined when absent. */
  function JsGet(m: map<string, Value>, k: string): (v: Value)
    ensures k in m ==> v == m[k]
    ensures k !in m ==> v == Undefined
  {
    if k in m then m[k] else Undefined
  }

  /** `_.isObject(data)`: objects and arrays. */
  predicate IsObject(v: Value) {
    v.Obj? || v.List?
  }

  /** The own enumerable properties of an array: its indices. */
  function IndexFields(items: seq<Value>): map<string, Value> {
    if |items| == 0 then map[]
    else IndexFields(items[..|items| - 1])[NatToString(|items| - 1) := items[|items| - 1]]
  }

  /** The own enumerable properties of a value. */
  function Fields(v: Value): map<string, Value> {
    match v
    case Obj(fields) => fields
    case List(items) => IndexFields(items)
    case _ => map[]
  }

  /** The fields as the model stores them: cast when the model casts that
      field, as given otherwise. */
  function Copied(fields: map<string, Value>, castMap: map<string, Value -> Value>): (r: map<string, Value>)
    ensures r.Keys == fields.Keys
    ensures forall k :: k in fields && k in castMap ==> r[k] == castMap[k](fields[k])
    ensures forall k :: k in fields && k !in castMap ==> r[k] == fields[k]
  {
    map k | k in fields :: if k in castMap then castMap[k](fields[k]) else fields[k]
  }

  /** How a nested entity is hydrated: by a model class, whose construction
      from data is given, or by a hydrate function of the whole data. */
  datatype Nested =
    | ModelClass(construct: (Value, bool) -> Value)
    | HydrateFunction(hydrate: (Value, bool) -> Value)

  /** The value `hydrateNested` stores under a nested key. A model class
      makes an array into an array of models and an object into one model;
      anything else, a missing key or null gives null. */
  function NestedValue(key: string, nested: Nested, data: Value, exists_: bool): Value
  {
    match nested
    case HydrateFunction(f) => f(data, exists_)
    case ModelClass(construct) =>
      var fields := Fields(data);
      if key in fields && fields[key] != Null then
        match fields[key]
        case List(items) => List(ConstructAll(items, construct, exists_))
        case Obj(_) => construct(fields[key], exists_)
        case _ => Null
      else Null
  }

  /** A hydrate function sees the whole data; a model class makes an array
      into an array of models and an object into one model, and anything
      else, a missing key or null into null. */
  lemma NestedValueCases(key: string, nested: Nested, data: Value, exists_: bool)
    ensures var r := NestedValue(key, nested, data, exists_);
      nested.HydrateFunction? ==> r == nested.hydrate(data, exists_)
    ensures var r := NestedValue(key, nested, data, exists_);
      nested.ModelClass? && (key !in Fields(data) || !IsObject(Fields(data)[key])) ==> r == Null
    ensures var r := NestedValue(key, nested, data, exists_);
      nested.ModelClass? && key in Fields(data) && Fields(data)[key].List? ==>
        r.List? && |r.items| == |Fields(data)[key].items| &&
        forall i :: 0 <= i < |r.items| ==> r.items[i] == nested.construct(Fields(data)[key].items[i], exists_)
    ensures var r := NestedValue(key, nested, data, exists_);
      nested.ModelClass? && key in Fields(data) && Fields(data)[key].Obj? ==>
        r == nested.construct(Fields(data)[key], exists_)
  {
  }

  /** `_.map(items, data => new Model(data, exists))`. */
  function ConstructAll(items: seq<Value>, construct: (Value, bool) -> Value, exists_: bool): (r: seq<Value>)
    ensures |r| == |items|
    ensures forall i :: 0 <= i < |items| ==> r[i] == construct(items[i], exists_)
  {
    if |items| == 0 then [] else [construct(items[0], exists_)] + ConstructAll(items[1..], construct, exists_)
  }

  /** The restriction of `m` to the keys walked so far. */
  function Restrict<T>(m: map<string, T>, done: set<string>): map<string, T> {
    map k | k in m && k in done :: m[k]
  }

  /** One more field copied. */
  lemma CopiedStep(start: map<string, Value>, fields: map<string, Value>, done: set<string>, k: string,
                    castMap: map<string, Value -> Value>)
    requires k in fields
    ensures start + Copied(Restrict(fields, done + {k}), castMap) ==
      (start + Copied(Restrict(fields, done), castMap))[k := if k in castMap then castMap[k](fields[k]) else fields[k]]
  {
    var before := Restrict(fields, done);
    assert Restrict(fields, done + {k}) == before[k := fields[k]];
    CopiedUpdate(before, k, fields[k], castMap);
    AddUpdated(start, Copied(before, castMap), k, if k in castMap then castMap[k](fields[k]) else fields[k]);
  }

  lemma CopiedUpdate(m: map<string, Value>, k: string, v: Value, castMap: map<string, Value -> Value>)
    ensures Copied(m[k := v], castMap) == Copied(m, castMap)[k := if k in castMap then castMap[k](v) else v]
  {
    var a := Copied(m[k := v], castMap);
    var b := Copied(m, castMap)[k := if k in castMap then castMap[k](v) else v];
    assert a.Keys == b.Keys;
    forall key | key in a
      ensures a[key] == b[key]
    {
    }
  }

  /** One more nested key hydrated. */
  lemma NestedStep(start: map<string, Value>, nestedMap: map<string, Nested>, done: set<string>, k: string,
                    data: Value, exists_: bool)
    requires k in nestedMap
    ensures start + NestedValues(Restrict(nestedMap, done + {k}), data, exists_) ==
      (start + NestedValues(Restrict(nestedMap, done), data, exists_))[k := NestedValue(k, nestedMap[k], data, exists_)]
  {
    var before := Restrict(nestedMap, done);
    assert Restrict(nestedMap, done + {k}) == before[k := nestedMap[k]];
    NestedValuesUpdate(before, k, nestedMap[k], data, exists_);
    AddUpdated(start, NestedValues(before, data, exists_), k, NestedValue(k, nestedMap[k], data, exists_));
  }

  lemma AddUpdated(m: map<string, Value>, n: map<string, Value>, k: string, v: Value)
    ensures m + n[k := v] == (m + n)[k := v]
  {
  }

  lemma NestedValuesUpdate(m: map<string, Nested>, k: string, n: Nested, data: Value, exists_: bool)
    ensures NestedValues(m[k := n], data, exists_) == NestedValues(m, data, exists_)[k := NestedValue(k, n, data, exists_)]
  {
    var a := NestedValues(m[k := n], data, exists_);
    var b := NestedValues(m, data, exists_)[k := NestedValue(k, n, data, exists_)];
    assert a.Keys == b.Keys;
    forall key | key in a
      ensures a[key] == b[key]
    {
    }
  }

  /** The values `hydrateNested` stores, one per nested key. */
  function NestedValues(nestedMap: map<string, Nested>, data: Value, exists_: bool): (r: map<string, Value>)
    ensures r.Keys == nestedMap.Keys
    ensures forall k :: k in nestedMap ==> r[k] == NestedValue(k, nestedMap[k], data, exists_)
  {
    map k | k in nestedMap :: NestedValue(k, nestedMap[k], data, exists_)
  }

  /** A model without nested entities adds no nested values. */
  lemma NoNestedValues(nestedMap: map<string, Nested>, data: Value, exists_: bool, attributes: map<string, Value>)
    requires |nestedMap| == 0
    ensures attributes + NestedValues(nestedMap, data, exists_) == attributes
  {
    assert NestedValues(nestedMap, data, exists_) == map[];
  }

  /** The model's attributes after `hydrate(data, exists)`: an object or an
      array has its fields copied and then its nested entities hydrated;
      other data assigns nothing. */
  function Hydrated(attributes: map<string, Value>, castMap: map<string, Value -> Value>, nestedMap: map<string, Nested>,
                    data: Value, exists_: bool): map<string, Value>
  {
    if IsObject(data) then attributes + Copied(Fields(data), castMap) + NestedValues(nestedMap, data, exists_)
    else attributes
  }

  /** What hydration stores: for an object or an array, every field (cast
      when the model casts it) and every nested key, the nested value
      winning; every other attribute is kept; other data assigns nothing. */
  lemma HydratedFields(attributes: map<string, Value>, castMap: map<string, Value -> Value>,
                       nestedMap: map<string, Nested>, data: Value, exists_: bool)
    ensures !IsObject(data) ==> Hydrated(attributes, castMap, nestedMap, data, exists_) == attributes
    ensures IsObject(data) ==>
      Hydrated(attributes, castMap, nestedMap, data, exists_).Keys == attributes.Keys + Fields(data).Keys + nestedMap.Keys
    ensures IsObject(data) ==>
      forall k :: k in nestedMap ==>
        Hydrated(attributes, castMap, nestedMap, data, exists_)[k] == NestedValue(k, nestedMap[k], data, exists_)
    ensures IsObject(data) ==>
      forall k :: k in Fields(data) && k !in nestedMap ==>
        Hydrated(attributes, castMap, nestedMap, data, exists_)[k] ==
          if k in castMap then castMap[k](Fields(data)[k]) else Fields(data)[k]
    ensures forall k :: k in attributes && k !in Fields(data) && k !in nestedMap ==>
      Hydrated(attributes, castMap, nestedMap, data, exists_)[k] == attributes[k]
  {
  }

  /** Whether `getAttributes(includeUnderscoredKeys)` keeps a key. */
  predicate Public(key: string, includeUnderscoredKeys: bool) {
    !StartsWith(key, "__") && (includeUnderscoredKeys || !StartsWith(key, "_"))
  }

  /** The properties without those starting with "__", and by default
      without those starting with "_"; all others keep their values. */
  function PublicAttributes(attributes: map<string, Value>, includeUnderscoredKeys: bool): (r: map<string, Value>)
    ensures r.Keys <= attributes.Keys
    ensures forall k :: k in r ==> !StartsWith(k, "__") && r[k] == attributes[k]
    ensures !includeUnderscoredKeys ==> forall k :: k in r ==> !StartsWith(k, "_")
    ensures forall k :: k in attributes && Public(k, includeUnderscoredKeys) ==> k in r
  {
    map k | k in attributes && Public(k, includeUnderscoredKeys) :: attributes[k]
  }

  class Model {
    const castMap: map<string, Value -> Value>
    const nestedMap: map<string, Nested>
    /** The model's own enumerable properties. */
    var attributes: map<string, Value>
    /** `__exists`, which is not enumerable. */
    var existsFlag: bool

    /** A concrete model's constructor: the field defaults its class
        declares, then `hydrate(data, exists)`. (The base constructor's own
        hydration runs before the defaults and is overwritten by them and
        by the second hydration.) */
    constructor (defaults: map<string, Value>, castMap: map<string, Value -> Value>, nestedMap: map<string, Nested>,
                 data: Value, exists_: bool)
      ensures this.castMap == castMap && this.nestedMap == nestedMap
      ensures attributes == Hydrated(defaults, castMap, nestedMap, data, exists_)
      ensures existsFlag == exists_
    {
      this.castMap := castMap;
      this.nestedMap := nestedMap;
      attributes := defaults;
      existsFlag := exists_;
      new;
      Hydrate(data, exists_);
    }

    /** `hydrate(data, exists)`: `_.transform` copies the fields one by one,
        then `hydrateNested` runs when the model has nested entities. */
    method Hydrate(data: Value, exists_: bool)
      modifies this
      ensures attributes == Hydrated(old(attributes), castMap, nestedMap, data, exists_)
      ensures existsFlag == old(existsFlag)
    {
      if IsObject(data) {
        CopyFields(Fields(data));
        if |nestedMap| > 0 {
          HydrateNested(data, exists_);
        } else {
          NoNestedValues(nestedMap, data, exists_, attributes);
        }
      }
    }

    /** The `_.transform` callback applied to every field. */
    method CopyFields(fields: map<string, Value>)
      modifies this
      ensures attributes == old(attributes) + Copied(fields, castMap)
      ensures existsFlag == old(existsFlag)
    {
      var todo := fields.Keys;
      ghost var start := attributes;
      assert Restrict(fields, fields.Keys - todo) == map[];
      while todo != {}
        invariant todo <= fields.Keys
        invariant attributes == start + Copied(Restrict(fields, fields.Keys - todo), castMap)
        invariant existsFlag == old(existsFlag)
        decreases todo
      {
        var key :| key in todo;
        var value := fields[key];
        CopiedStep(start, fields, fields.Keys - todo, key, castMap);
        assert fields.Keys - (todo - {key}) == (fields.Keys - todo) + {key};
        if key in castMap {
          attributes := attributes[key := castMap[key](value)];
        } else {
          attributes := attributes[key := value];
        }
        todo := todo - {key};
      }
      assert Restrict(fields, fields.Keys - todo) == fields;
    }

    /** `hydrateNested(data, exists)`: every nested key gets its value. */
    method HydrateNested(data: Value, exists_: bool)
      modifies this
      ensures attributes == old(attributes) + NestedValues(nestedMap, data, exists_)
      ensures existsFlag == old(existsFlag)
    {
      var todo := nestedMap.Keys;
      ghost var start := attributes;
      assert Restrict(nestedMap, nestedMap.Keys - todo) == map[];
      while todo != {}
        invariant todo <= nestedMap.Keys
        invariant attributes == start + NestedValues(Restrict(nestedMap, nestedMap.Keys - todo), data, exists_)
        invariant existsFlag == old(existsFlag)
        decreases todo
      {
        var key :| key in todo;
        var nestedData := NestedValue(key, nestedMap[key], data, exists_);
        NestedStep(start, nestedMap, nestedMap.Keys - todo, key, data, exists_);
        assert nestedMap.Keys - (todo - {key}) == (nestedMap.Keys - todo) + {key};
        attributes := attributes[key := nestedData];
        todo := todo - {key};
      }
      assert Restrict(nestedMap, nestedMap.Keys - todo) == nestedMap;
    }

    /** `getAttributes(includeUnderscoredKeys)`. */
    function GetAttributes(includeUnderscoredKeys: bool): (r: map<string, Value>)
      reads this
      ensures r == PublicAttributes(attributes, includeUnderscoredKeys)
    {
      PublicAttributes(attributes, includeUnderscoredKeys)
    }

    /** `exists()`. */
    function Exists(): (b: bool)
      reads this
      ensures b == existsFlag
    {
      existsFlag
    }

    /** `setExists(exists)`. */
    method SetExists(exists_: bool)
      modifies this
      ensures existsFlag == exists_ && attributes == old(attributes)
    {
      existsFlag := exists_;
    }
  }

  /** A key with a single leading underscore is public only on request. */
  lemma UnderscoredKeysOnRequest(key: string)
    requires StartsWith(key, "_") && !StartsWith(key, "__")
    ensures Public(key, true) && !Public(key, false)
  {
  }

  /** "__" keys are never public; every other key is public on request. */
  lemma DoubleUnderscoreNeverPublic(key: string, withUnderscored: bool)
    ensures StartsWith(key, "__") ==> !Public(key, withUnderscored)
    ensures !StartsWith(key, "__") ==> Public(key, true)
  {
  }

  /** Setting the flag is what `exists()` then reads, and it is not an
      attribute. */
  method SetThenRead(m: Model, b: bool) returns (r: bool)
    modifies m
    ensures r == b && m.GetAttributes(true) == old(m.GetAttributes(true))
  {
    m.SetExists(b);
    r := m.Exists();
  }

  /** Hydrating twice with the same data gives what hydrating once does,
      when the casts and nested hydration do not depend on what was stored. */
  lemma HydrateIdempotent(attributes: map<string, Value>, castMap: map<string, Value -> Value>,
                          nestedMap: map<string, Nested>, data: Value, exists_: bool)
    ensures var once := Hydrated(attributes, castMap, nestedMap, data, exists_);
      Hydrated(once, castMap, nestedMap, data, exists_) == once
  {
  }
}
