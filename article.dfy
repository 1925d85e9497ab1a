/**
 * An article's permalink: setting it records the new value as the current
 * permalink and keeps every permalink the article ever had, so that old
 * links still resolve.
 */
module Article {
  import opened Common

  /** An `ArticlePermalink` record. */
  datatype Permalink = Permalink(permalink: Value)

  class Article {
    var attributes: map<string, Value>
    /** The `permalinks` relation. */
    var permalinks: seq<Permalink>

    constructor (attributes: map<string, Value>, permalinks: seq<Permalink>)
      ensures this.attributes == attributes && this.permalinks == permalinks
    {
      this.attributes := attributes;
      this.permalinks := permalinks;
    }

    /** `setPermalinkAttribute(permalink)`: a truthy permalink becomes the
        attribute and is added to the history; any other sets the attribute
        to null and leaves the history alone. */
    method SetPermalink(permalink: Value)
      modifies this
      ensures PhpTruthy(permalink) ==>
        attributes == old(attributes)["permalink" := permalink] &&
        permalinks == old(permalinks) + [Permalink(permalink)]
      ensures !PhpTruthy(permalink) ==>
        attributes == old(attributes)["permalink" := Null] && permalinks == old(permalinks)
    {
      if PhpTruthy(permalink) {
        attributes := attributes["permalink" := permalink];
        permalinks := permalinks + [Permalink(permalink)];
      } else {
        attributes := attributes["permalink" := Null];
      }
    }
  }

  /** Changing the permalink twice keeps both in the history, the earlier
      ones first, and the article answers to the last. */
  method ChangePermalinkTwice(a: Article, first: string, second: string)
    requires first != "" && first != "0" && second != "" && second != "0"
    modifies a
    ensures a.permalinks == old(a.permalinks) + [Permalink(Str(first)), Permalink(Str(second))]
    ensures Lookup(a.attributes, "permalink") == Str(second)
  {
    a.SetPermalink(Str(first));
    a.SetPermalink(Str(second));
  }

  /** Clearing the permalink never removes a recorded one. */
  method ClearPermalink(a: Article)
    modifies a
    ensures a.permalinks == old(a.permalinks) && Lookup(a.attributes, "permalink") == Null
  {
    a.SetPermalink(Str(""));
  }
}
