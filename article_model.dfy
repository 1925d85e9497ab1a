/**
 * The front end's article model: how an article is identified in URLs, and
 * how its meta tags are hydrated against the fixed template of four tags
 * every article shows (name, description, keyword, canonical).
 */
module ArticleModel {
  import opened Common
  import opened AbstractModel

  const ArticleMetaTemplate: seq<string> := ["name", "description", "keyword", "canonical"]

  /** `getIdentifier()`: `this.permalink || this.postId`. */
  function GetIdentifier(attributes: map<string, Value>): (id: Value)
    ensures JsTruthy(JsGet(attributes, "permalink")) ==> id == attributes["permalink"]
    ensures !JsTruthy(JsGet(attributes, "permalink")) ==> id == JsGet(attributes, "postId")
  {
    var permalink := JsGet(attributes, "permalink");
    if JsTruthy(permalink) then permalink else JsGet(attributes, "postId")
  }

  /** A meta model is represented by the data it is built from. */
  type Meta = map<string, Value>

  /** `meta.metaName`, undefined for anything that is not an object. */
  function MetaName(v: Value): Value {
    if v.Obj? then JsGet(v.fields, "metaName") else Undefined
  }

  /** `_.find(metas, {metaName: name})`: the first meta with that name. */
  function FindMeta(metas: seq<Value>, name: string): (r: Option<Meta>)
    ensures r.None? <==> forall i :: 0 <= i < |metas| ==> MetaName(metas[i]) != Str(name)
    ensures r.Some? ==>
      exists i :: 0 <= i < |metas| && MetaName(metas[i]) == Str(name) && metas[i] == Obj(r.value) &&
        forall j :: 0 <= j < i ==> MetaName(metas[j]) != Str(name)
  {
    if |metas| == 0 then None
    else if MetaName(metas[0]) == Str(name) then Some(metas[0].fields)
    else
      var r := FindMeta(metas[1..], name);
      if r.Some? then
        var i :| 0 <= i < |metas[1..]| && MetaName(metas[1..][i]) == Str(name) && metas[1..][i] == Obj(r.value) &&
          forall j :: 0 <= j < i ==> MetaName(metas[1..][j]) != Str(name);
        assert metas[i + 1] == metas[1..][i];
        assert forall j :: 0 <= j < i + 1 ==> MetaName(metas[j]) != Str(name) by {
          forall j | 0 <= j < i + 1
            ensures MetaName(metas[j]) != Str(name)
          {
            if j > 0 {
              assert metas[j] == metas[1..][j - 1];
            }
          }
        }
        r
      else r
  }

  /** The meta a template name gets when the article has none: empty
      content, owned by the article, with a newly generated id. */
  function BlankMeta(name: string, postId: Value, uuid: string): Meta {
    map["metaName" := Str(name), "metaContent" := Str(""), "metaableId" := postId, "metaId" := Str(uuid)]
  }

  /** The meta a template name stands for: the article's own meta of that
      name, or a blank one. */
  function MetaFor(metas: seq<Value>, name: string, postId: Value, uuids: string -> string): Meta {
    match FindMeta(metas, name)
    case Some(existing) => existing
    case None => BlankMeta(name, postId, uuids(name))
  }

  /** The template part: one meta per template name, in template order. */
  function TemplateMetas(names: seq<string>, metas: seq<Value>, postId: Value, uuids: string -> string): (r: seq<Meta>)
    ensures |r| == |names|
    ensures forall i :: 0 <= i < |names| ==> r[i] == MetaFor(metas, names[i], postId, uuids)
  {
    if |names| == 0 then []
    else [MetaFor(metas, names[0], postId, uuids)] + TemplateMetas(names[1..], metas, postId, uuids)
  }

  predicate IsTemplateName(name: Value) {
    name.Str? && name.s in ArticleMetaTemplate
  }

  /** The metas whose names the template does not list, in their order, as
      `_.reduce` collects them. */
  function Leftovers(metas: seq<Value>): seq<Meta> {
    if |metas| == 0 then []
    else Leftovers(metas[..|metas| - 1]) +
         (if IsTemplateName(MetaName(metas[|metas| - 1])) then [] else [Fields(metas[|metas| - 1])])
  }

  /** Exactly the metas outside the template are left over, each once for
      each time it occurs. */
  lemma {:induction false} LeftoversMembers(metas: seq<Value>)
    ensures |Leftovers(metas)| <= |metas|
    ensures forall x :: x in Leftovers(metas) <==>
      exists i :: 0 <= i < |metas| && !IsTemplateName(MetaName(metas[i])) && Fields(metas[i]) == x
  {
    if |metas| > 0 {
      var init := metas[..|metas| - 1];
      LeftoversMembers(init);
      forall x | (exists i :: 0 <= i < |metas| && !IsTemplateName(MetaName(metas[i])) && Fields(metas[i]) == x)
        ensures x in Leftovers(metas)
      {
        var i :| 0 <= i < |metas| && !IsTemplateName(MetaName(metas[i])) && Fields(metas[i]) == x;
        if i < |init| {
          assert init[i] == metas[i];
        }
      }
      forall x | x in Leftovers(metas)
        ensures exists i :: 0 <= i < |metas| && !IsTemplateName(MetaName(metas[i])) && Fields(metas[i]) == x
      {
        if x in Leftovers(init) {
          var i :| 0 <= i < |init| && !IsTemplateName(MetaName(init[i])) && Fields(init[i]) == x;
          assert metas[i] == init[i];
        } else {
          assert Fields(metas[|metas| - 1]) == x;
        }
      }
    }
  }

  /** `data._metas` when it is an array. */
  function MetasOf(data: Value): seq<Value> {
    var metas := JsGet(Fields(data), "_metas");
    if metas.List? then metas.items else []
  }

  /** `hydrateMetaCollectionFromTemplate(data, exists)`: the four template
      metas, taken over from the article's data or made blank, followed by
      the article's other metas. */
  function HydrateMetaCollectionFromTemplate(data: Value, uuids: string -> string): (r: seq<Meta>)
    ensures |r| == 4 + |Leftovers(MetasOf(data))|
    ensures r[4..] == Leftovers(MetasOf(data))
    ensures forall i :: 0 <= i < 4 ==> "metaName" in r[i] && r[i]["metaName"] == Str(ArticleMetaTemplate[i])
    ensures forall i :: 0 <= i < 4 ==>
      match FindMeta(MetasOf(data), ArticleMetaTemplate[i])
      case Some(existing) => r[i] == existing
      case None => r[i] == BlankMeta(ArticleMetaTemplate[i], JsGet(Fields(data), "postId"), uuids(ArticleMetaTemplate[i]))
  {
    var metas := MetasOf(data);
    var template := TemplateMetas(ArticleMetaTemplate, metas, JsGet(Fields(data), "postId"), uuids);
    forall i | 0 <= i < 4
      ensures "metaName" in template[i] && template[i]["metaName"] == Str(ArticleMetaTemplate[i])
    {
      var found := FindMeta(metas, ArticleMetaTemplate[i]);
      if found.Some? {
        var j :| 0 <= j < |metas| && MetaName(metas[j]) == Str(ArticleMetaTemplate[i]) && metas[j] == Obj(found.value) &&
          forall k :: 0 <= k < j ==> MetaName(metas[k]) != Str(ArticleMetaTemplate[i]);
      }
    }
    var r := template + Leftovers(metas);
    assert r[4..] == Leftovers(metas);
    r
  }

  /** A second meta named like a template tag is dropped: only the first
      one is taken over, and neither is left over. */
  lemma DuplicateTemplateMetaDropped(first: map<string, Value>, second: map<string, Value>, uuids: string -> string)
    requires JsGet(first, "metaName") == Str("name") && JsGet(second, "metaName") == Str("name")
    ensures var data := Obj(map["_metas" := List([Obj(first), Obj(second)])]);
      var r := HydrateMetaCollectionFromTemplate(data, uuids);
      |r| == 4 && r[0] == first
  {
    var metas := [Obj(first), Obj(second)];
    var data := Obj(map["_metas" := List(metas)]);
    assert MetasOf(data) == metas;
    assert IsTemplateName(MetaName(metas[0])) && IsTemplateName(MetaName(metas[1]));
    assert metas[..1] == [metas[0]];
    assert Leftovers(metas[..1]) == [] by {
      assert metas[..1][..0] == [];
    }
    assert Leftovers(metas) == [];
  }
}
