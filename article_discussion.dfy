/**
 * An article's discussion thread in the Vanilla forum: the comments Vanilla
 * returns are prepared for hydration by adding the article comment's
 * attribute names beside Vanilla's own. Matching eagerly loaded results and
 * initialising the relation work as for a single comment (module
 * `ArticleComment`).
 */
module ArticleDiscussion {
  import opened Common
  import opened ArticleComment

  /** Vanilla's field names and the attribute each is copied to. */
  const DiscussionTable: Table := [
    ("CommentID", "article_comment_id"),
    ("Body", "body"),
    ("DateInserted", "created_at")]

  lemma DiscussionTableWellFormed()
    ensures WellFormed(DiscussionTable)
  {
  }

  /** A comment prepared for hydration: every Vanilla field kept, and the
      mapped ones copied under their attribute names. */
  function Prepared(comment: map<string, Value>): map<string, Value> {
    comment + Renamed(comment, DiscussionTable)
  }

  /** The `foreach` of the closure: it walks the original fields (PHP
      iterates over a copy) and writes each mapped one's value under its
      attribute name. */
  method CopyMapped(comment: map<string, Value>, table: Table) returns (r: map<string, Value>)
    requires WellFormed(table)
    ensures r == comment + Renamed(comment, table)
  {
    r := comment;
    ghost var copies: map<string, Value> := map[];
    var todo := comment.Keys;
    assert Restrict(comment, comment.Keys - todo) == map[];
    assert Renamed(map[], table) == map[] by {
      RenamedFields(map[], table);
    }
    while todo != {}
      invariant todo <= comment.Keys
      invariant copies == Renamed(Restrict(comment, comment.Keys - todo), table)
      invariant r == comment + copies
      decreases todo
    {
      var k :| k in todo;
      RenameStep(comment, table, todo, k);
      var t := Target(table, k);
      if t.Some? {
        AddThenUpdate(comment, copies, t.value, comment[k]);
        copies := copies[t.value := comment[k]];
        r := r[t.value := comment[k]];
      }
      todo := todo - {k};
    }
    assert Restrict(comment, comment.Keys - todo) == comment;
  }

  lemma AddThenUpdate(c: map<string, Value>, m: map<string, Value>, t: string, v: Value)
    ensures c + m[t := v] == (c + m)[t := v]
  {
  }

  /** The closure given to `array_map`. */
  method PrepareComment(comment: map<string, Value>) returns (r: map<string, Value>)
    ensures r == Prepared(comment)
  {
    DiscussionTableWellFormed();
    r := CopyMapped(comment, DiscussionTable);
  }

  /** Every comment prepared, in order. */
  function PreparedAll(comments: seq<map<string, Value>>): (r: seq<map<string, Value>>)
    ensures |r| == |comments|
  {
    if |comments| == 0 then [] else PreparedAll(comments[..|comments| - 1]) + [Prepared(comments[|comments| - 1])]
  }

  /** Preparing a list keeps its length and order: the i-th result is the
      i-th comment prepared. */
  lemma {:induction false} PreparedAllAt(comments: seq<map<string, Value>>)
    ensures forall i :: 0 <= i < |comments| ==> PreparedAll(comments)[i] == Prepared(comments[i])
  {
    if |comments| > 0 {
      PreparedAllAt(comments[..|comments| - 1]);
    }
  }

  /** `prepareCommentsForHydrate(comments)`: `array_map` of the closure. */
  method PrepareCommentsForHydrate(comments: seq<map<string, Value>>) returns (r: seq<map<string, Value>>)
    ensures r == PreparedAll(comments)
  {
    r := [];
    for i := 0 to |comments|
      invariant r == PreparedAll(comments[..i])
    {
      var c := PrepareComment(comments[i]);
      assert comments[..i + 1][..i] == comments[..i];
      r := r + [c];
    }
    assert comments[..|comments|] == comments;
  }

  /** What preparation keeps: every Vanilla field is kept, with its value
      unless it is one of the three attribute names; an attribute name is
      added only for a mapped field present. */
  lemma PreparedKeeps(comment: map<string, Value>)
    ensures comment.Keys <= Prepared(comment).Keys
    ensures forall t :: t in comment && t !in {"article_comment_id", "body", "created_at"} ==>
      Prepared(comment)[t] == comment[t]
    ensures forall t :: t in Prepared(comment) && t !in comment ==>
      (t == "article_comment_id" && "CommentID" in comment) ||
      (t == "body" && "Body" in comment) ||
      (t == "created_at" && "DateInserted" in comment)
  {
    DiscussionRenamed(comment);
    var r := Renamed(comment, DiscussionTable);
    assert r.Keys <= {"article_comment_id", "body", "created_at"};
    forall t | t in comment && t !in {"article_comment_id", "body", "created_at"}
      ensures Prepared(comment)[t] == comment[t]
    {
      assert t !in r;
    }
  }

  /** What preparation adds: each of CommentID, Body and DateInserted that
      is present is copied to article_comment_id, body and created_at. */
  lemma PreparedCopies(comment: map<string, Value>)
    ensures "CommentID" in comment ==>
      "article_comment_id" in Prepared(comment) && Prepared(comment)["article_comment_id"] == comment["CommentID"]
    ensures "Body" in comment ==>
      "body" in Prepared(comment) && Prepared(comment)["body"] == comment["Body"]
    ensures "DateInserted" in comment ==>
      "created_at" in Prepared(comment) && Prepared(comment)["created_at"] == comment["DateInserted"]
  {
    DiscussionRenamed(comment);
  }

  /** The three table entries, each contributing its attribute when its
      field is present. */
  lemma DiscussionRenamed(c: map<string, Value>)
    ensures Renamed(c, DiscussionTable) ==
      (if "CommentID" in c then map["article_comment_id" := c["CommentID"]] else map[]) +
      (if "Body" in c then map["body" := c["Body"]] else map[]) +
      (if "DateInserted" in c then map["created_at" := c["DateInserted"]] else map[])
  {
    var t := DiscussionTable;
    assert t[..0] == [] && t[..1] == [t[0]] && t[..2] == [t[0], t[1]];
    assert t[..2][..1] == t[..1] && t[..1][..0] == t[..0] && t[..3] == t;
    var part0 := if "CommentID" in c then map["article_comment_id" := c["CommentID"]] else map[];
    var part1 := if "Body" in c then map["body" := c["Body"]] else map[];
    assert Renamed(c, t[..1]) == part0;
    assert Renamed(c, t[..2]) == part0 + part1;
  }
}
