/**
 * The front end's article service, as the requests it plans. Saving an
 * article sends the article itself (all its public attributes when it is
 * new, only its changes when it exists), then its tags and its meta tags,
 * each skipped when nothing about it changed. The change-aware decorator's
 * record of changed properties is a field of the article.
 */
module ArticleService {
  import opened Common
  import opened AbstractModel

  /** `_.isEmpty(v)`: numbers and booleans count as empty too. */
  predicate JsIsEmpty(v: Value) {
    match v
    case Str(s) => s == ""
    case List(items) => |items| == 0
    case Obj(fields) => |fields| == 0
    case _ => true
  }

  /** `'/articles/' + article.articleId`. */
  function ArticleUrl(attributes: map<string, Value>): string {
    "/articles/" + JsToString(JsGet(attributes, "articleId"))
  }

  /** `saveArticle(article)`: PATCH the changes of an existing article, PUT
      all public attributes of a new one; nothing to save resolves true at
      once. */
  function SaveArticlePlan(attributes: map<string, Value>, exists_: bool, changes: map<string, Value>): (p: Planned)
    ensures var data := if exists_ then PublicAttributes(changes, false) else PublicAttributes(attributes, false);
      (|data| == 0 <==> p == Skipped(true)) &&
      (p.Sent? ==> p.request == HttpRequest(if exists_ then "patch" else "put", ArticleUrl(attributes), Obj(data)))
  {
    var saveData := if exists_ then PublicAttributes(changes, false) else PublicAttributes(attributes, false);
    if |saveData| == 0 then Skipped(true)
    else Sent(HttpRequest(if exists_ then "patch" else "put", ArticleUrl(attributes), Obj(saveData)))
  }

  /** `saveArticleTags(article)`: skipped (false) for an existing article
      whose changes do not touch `_tags`; otherwise the whole tag list is
      PUT. */
  function SaveArticleTagsPlan(attributes: map<string, Value>, exists_: bool, changes: map<string, Value>): (p: Planned)
    ensures p.Skipped? <==> exists_ && "_tags" !in changes
    ensures p.Skipped? ==> !p.resolved
    ensures p.Sent? ==> p.request == HttpRequest("put", ArticleUrl(attributes) + "/tags", JsGet(attributes, "_tags"))
  {
    if exists_ && "_tags" !in changes then Skipped(false)
    else Sent(HttpRequest("put", ArticleUrl(attributes) + "/tags", JsGet(attributes, "_tags")))
  }

  /** A meta tag is sent when its content is not empty. */
  predicate HasContent(meta: Value) {
    !JsIsEmpty(JsGet(Fields(meta), "metaContent"))
  }

  /** `_.filter(metas, meta => !_.isEmpty(meta.metaContent))`. */
  function UsedMetas(metas: seq<Value>): seq<Value> {
    if |metas| == 0 then []
    else UsedMetas(metas[..|metas| - 1]) + (if HasContent(metas[|metas| - 1]) then [metas[|metas| - 1]] else [])
  }

  /** The used metas are those with content, each as often as it occurs,
      and a list whose metas all have content is sent whole. */
  lemma {:induction false} UsedMetasMembers(metas: seq<Value>)
    ensures |UsedMetas(metas)| <= |metas|
    ensures forall m :: m in UsedMetas(metas) <==> m in metas && HasContent(m)
    ensures (forall i :: 0 <= i < |metas| ==> HasContent(metas[i])) ==> UsedMetas(metas) == metas
  {
    if |metas| > 0 {
      var init := metas[..|metas| - 1];
      UsedMetasMembers(init);
      assert metas == init + [metas[|metas| - 1]];
      assert forall m :: m in metas <==> m in init || m == metas[|metas| - 1];
    }
  }

  /** `saveArticleMetas(article)`: skipped (false) for an existing article
      whose changes do not touch `_articleMetas`; otherwise the metas with
      content are PUT. */
  function SaveArticleMetasPlan(attributes: map<string, Value>, exists_: bool, changes: map<string, Value>): (p: Planned)
    ensures p.Skipped? <==> exists_ && "_articleMetas" !in changes
    ensures p.Skipped? ==> !p.resolved
    ensures p.Sent? ==>
      p.request == HttpRequest("put", ArticleUrl(attributes) + "/meta", List(UsedMetas(Items(JsGet(attributes, "_articleMetas")))))
  {
    if exists_ && "_articleMetas" !in changes then Skipped(false)
    else Sent(HttpRequest("put", ArticleUrl(attributes) + "/meta", List(UsedMetas(Items(JsGet(attributes, "_articleMetas"))))))
  }

  /** A step succeeds when it was skipped or its request was answered. */
  predicate Succeeds(p: Planned, answered: HttpRequest -> bool) {
    p.Skipped? || answered(p.request)
  }

  /** An article the service saves: its own properties, whether it exists
      in the API, and the properties changed since the last save. */
  class Article {
    var attributes: map<string, Value>
    var existsFlag: bool
    var changes: map<string, Value>

    constructor (attributes: map<string, Value>, exists_: bool)
      ensures this.attributes == attributes && existsFlag == exists_ && changes == map[]
    {
      this.attributes := attributes;
      existsFlag := exists_;
      changes := map[];
    }

    /** An assignment the change-aware decorator records. */
    method Assign(key: string, value: Value)
      modifies this
      ensures attributes == old(attributes)[key := value] && changes == old(changes)[key := value]
      ensures existsFlag == old(existsFlag)
    {
      attributes := attributes[key := value];
      changes := changes[key := value];
    }

    /** `saveArticleWithRelated(article)`: the article is saved, then its
        tags and metas; when every step succeeds the changes are reset and
        the article exists. `answered` is the API's answer to each request. */
    method SaveArticleWithRelated(answered: HttpRequest -> bool) returns (steps: seq<Planned>, saved: bool)
      modifies this
      ensures var first := SaveArticlePlan(old(attributes), old(existsFlag), old(changes));
        var related := [SaveArticleTagsPlan(old(attributes), old(existsFlag), old(changes)),
                        SaveArticleMetasPlan(old(attributes), old(existsFlag), old(changes))];
        steps == [first] + (if Succeeds(first, answered) then related else []) &&
        saved == (Succeeds(first, answered) && Succeeds(related[0], answered) && Succeeds(related[1], answered))
      ensures attributes == old(attributes)
      ensures saved ==> existsFlag && changes == map[]
      ensures !saved ==> existsFlag == old(existsFlag) && changes == old(changes)
    {
      var first := SaveArticlePlan(attributes, existsFlag, changes);
      steps := [first];
      saved := false;
      if Succeeds(first, answered) {
        var tags := SaveArticleTagsPlan(attributes, existsFlag, changes);
        var metas := SaveArticleMetasPlan(attributes, existsFlag, changes);
        steps := steps + [tags, metas];
        if Succeeds(tags, answered) && Succeeds(metas, answered) {
          changes := map[];
          existsFlag := true;
          saved := true;
        }
      }
    }
  }

  /** Once saved, an article with no new changes is saved again without a
      single request. */
  lemma NothingToSaveAgain(attributes: map<string, Value>)
    ensures SaveArticlePlan(attributes, true, map[]) == Skipped(true)
    ensures SaveArticleTagsPlan(attributes, true, map[]) == Skipped(false)
    ensures SaveArticleMetasPlan(attributes, true, map[]) == Skipped(false)
  {
    assert PublicAttributes(map[], false) == map[];
  }

  /** A saved article that is saved again at once sends nothing more
      (`second` is empty when the first save did not succeed). */
  method SaveTwice(a: Article, answered: HttpRequest -> bool) returns (second: seq<Planned>)
    modifies a
    ensures second == [] || second == [Skipped(true), Skipped(false), Skipped(false)]
  {
    var first, saved := a.SaveArticleWithRelated(answered);
    if saved {
      NothingToSaveAgain(a.attributes);
      second, saved := a.SaveArticleWithRelated(answered);
    } else {
      second := [];
    }
  }

  /** A new article PUTs every public attribute; an existing one with
      changes PATCHes exactly its public changes. */
  lemma SaveMethodFollowsExistence(attributes: map<string, Value>, changes: map<string, Value>)
    ensures |PublicAttributes(attributes, false)| > 0 ==>
      SaveArticlePlan(attributes, false, changes) == Sent(HttpRequest("put", ArticleUrl(attributes), Obj(PublicAttributes(attributes, false))))
    ensures |PublicAttributes(changes, false)| > 0 ==>
      SaveArticlePlan(attributes, true, changes) == Sent(HttpRequest("patch", ArticleUrl(attributes), Obj(PublicAttributes(changes, false))))
  {
  }

  /** `newArticle(author)`: the data a new article is built from, with a
      newly generated id. */
  function NewArticleData(author: map<string, Value>, uuid: string): (data: map<string, Value>)
    ensures data.Keys == {"articleId", "authorId", "_author"}
    ensures data["articleId"] == Str(uuid) && data["authorId"] == JsGet(author, "userId") && data["_author"] == Obj(author)
  {
    map["articleId" := Str(uuid), "authorId" := JsGet(author, "userId"), "_author" := Obj(author)]
  }

  /** The new article carries the author's id, and its `_author` is the
      author hydrated as a model, when the article hydrates `_author` with a
      model class and neither casts nor nests the id fields. */
  lemma NewArticleHasAuthor(author: map<string, Value>, uuid: string, defaults: map<string, Value>,
                           castMap: map<string, Value -> Value>, nestedMap: map<string, Nested>)
    requires "authorId" !in castMap && "authorId" !in nestedMap && "articleId" !in castMap && "articleId" !in nestedMap
    requires "_author" in nestedMap && nestedMap["_author"].ModelClass?
    ensures var article := Hydrated(defaults, castMap, nestedMap, Obj(NewArticleData(author, uuid)), false);
      article["articleId"] == Str(uuid) && article["authorId"] == JsGet(author, "userId") &&
      article["_author"] == nestedMap["_author"].construct(Obj(author), false)
  {
    var data := Obj(NewArticleData(author, uuid));
    HydratedFields(defaults, castMap, nestedMap, data, false);
    NestedValueCases("_author", nestedMap["_author"], data, false);
  }

  /** `saveComment(article, comment)`: the comment is stamped with the
      current time (a parameter) and POSTed to the article's comments. */
  function SaveComment(articleAttributes: map<string, Value>, comment: map<string, Value>, now: Value): (r: (map<string, Value>, HttpRequest))
    ensures r.0.Keys == comment.Keys + {"createdAt"} && r.0["createdAt"] == now
    ensures forall k :: k in comment && k != "createdAt" ==> r.0[k] == comment[k]
    ensures r.1 == HttpRequest("post", ArticleUrl(articleAttributes) + "/comments", Obj(r.0))
  {
    var stamped := comment["createdAt" := now];
    (stamped, HttpRequest("post", ArticleUrl(articleAttributes) + "/comments", Obj(stamped)))
  }
}
