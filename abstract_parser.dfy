/**
 * The base class of the Socialite user parsers: it turns a social network's
 * user into the four attributes the application needs (token, email, first
 * and last name), each read through a getter the concrete parser defines.
 */
module AbstractParser {
  import opened Common

  /** The attribute names the parser starts from. */
  const AttributeNames: seq<string> := ["token", "email", "first_name", "last_name"]

  /** An attribute's parsed value: its getter's result when the parser has
      that getter, else the empty string it was filled with. `getters` maps
      an attribute name to what its getter (`getTokenAttribute` for `token`,
      `getFirstNameAttribute` for `first_name`) returns, `None` when the
      parser has no such method. */
  function Filled(attribute: string, getters: string -> Option<Value>): Value {
    match getters(attribute)
    case Some(v) => v
    case None => Str("")
  }

  /** `parse()`: `array_fill_keys(names, '')`, then every key overwritten by
      its getter when that getter exists. */
  method Parse(names: seq<string>, getters: string -> Option<Value>) returns (attributes: map<string, Value>)
    ensures forall k :: k in attributes <==> k in names
    ensures forall k :: k in names ==> attributes[k] == Filled(k, getters)
  {
    attributes := map[];
    for i := 0 to |names|
      invariant forall k :: k in attributes <==> k in names[..i]
      invariant forall k :: k in attributes ==> attributes[k] == Str("")
    {
      attributes := attributes[names[i] := Str("")];
      assert names[..i + 1] == names[..i] + [names[i]];
    }
    assert names[..|names|] == names;
    for i := 0 to |names|
      invariant forall k :: k in attributes <==> k in names
      invariant forall k :: k in names[..i] ==> attributes[k] == Filled(k, getters)
      invariant forall k :: k in names && k !in names[..i] ==> attributes[k] == Str("")
    {
      var attribute := names[i];
      var result := getters(attribute);
      if result.Some? {
        attributes := attributes[attribute := result.value];
      }
      assert names[..i + 1] == names[..i] + [attribute];
    }
    assert names[..|names|] == names;
  }

  /** A parsed social user. */
  class Parser {
    const getters: string -> Option<Value>
    var attributes: map<string, Value>

    /** `__construct`: the user is parsed at once. */
    constructor (getters: string -> Option<Value>)
      ensures this.getters == getters
      ensures forall k :: k in attributes <==> k in AttributeNames
      ensures forall k :: k in AttributeNames ==> attributes[k] == Filled(k, getters)
    {
      var parsed := Parse(AttributeNames, getters);
      this.getters := getters;
      attributes := parsed;
    }

    /** `toArray()`: the parsed attributes. */
    function ToArray(): (r: map<string, Value>)
      reads this
      ensures r == attributes
    {
      attributes
    }

    /** `__get(key)`: a parsed attribute, or null for any other name. */
    function Get(key: string): (v: Value)
      reads this
      ensures key in attributes ==> v == attributes[key]
      ensures key !in attributes ==> v == Null
    {
      if key in attributes then attributes[key] else Null
    }
  }

  /** A parser whose every getter is defined yields the getters' results
      under the four names, and null for any other name. */
  method ParseSocialUser(getters: string -> Option<Value>, other: string) returns (p: Parser)
    requires other !in AttributeNames
    requires forall k :: k in AttributeNames ==> getters(k).Some?
    ensures p.ToArray().Keys == {"token", "email", "first_name", "last_name"}
    ensures forall k :: k in AttributeNames ==> p.Get(k) == getters(k).value
    ensures p.Get(other) == Null
  {
    p := new Parser(getters);
  }
}
