/**
 * Article comments live in the Vanilla forum. This module models how a
 * Vanilla comment is renamed into the article comment's attributes, and how
 * eagerly loaded comments are attached to their articles.
 */
module ArticleComment {
  import opened Common

  /** A renaming table as PHP writes it: an ordered list of source field
      and target attribute. */
  type Table = seq<(string, string)>

  /** No source and no target appears twice. */
  predicate WellFormed(table: Table) {
    forall i, j :: 0 <= i < j < |table| ==> table[i].0 != table[j].0 && table[i].1 != table[j].1
  }

  /** `$map[$key]` when `array_key_exists($key, $map)`. */
  function Target(table: Table, key: string): (r: Option<string>)
    ensures r.None? <==> forall i :: 0 <= i < |table| ==> table[i].0 != key
    ensures r.Some? ==> exists i :: 0 <= i < |table| && table[i] == (key, r.value)
  {
    if |table| == 0 then None
    else if table[|table| - 1].0 == key then Some(table[|table| - 1].1)
    else Target(table[..|table| - 1], key)
  }

  /** The fields of `data` the table maps, under their new names. */
  function Renamed(data: map<string, Value>, table: Table): map<string, Value> {
    if |table| == 0 then map[]
    else
      var (src, dst) := table[|table| - 1];
      Renamed(data, table[..|table| - 1]) + (if src in data then map[dst := data[src]] else map[])
  }

  /** The number of table entries whose source field is present. */
  function Present(data: map<string, Value>, table: Table): nat {
    if |table| == 0 then 0
    else Present(data, table[..|table| - 1]) + (if table[|table| - 1].0 in data then 1 else 0)
  }

  /** Every attribute comes from a mapped field present. */
  lemma {:induction false} RenamedFrom(data: map<string, Value>, table: Table)
    ensures forall t :: t in Renamed(data, table) ==> exists i :: 0 <= i < |table| && table[i].1 == t && table[i].0 in data
  {
    if |table| > 0 {
      var init := table[..|table| - 1];
      RenamedFrom(data, init);
      forall t | t in Renamed(data, table)
        ensures exists i :: 0 <= i < |table| && table[i].1 == t && table[i].0 in data
      {
        if t in Renamed(data, init) {
          var i :| 0 <= i < |init| && init[i].1 == t && init[i].0 in data;
          assert table[i] == init[i];
        } else {
          assert table[|table| - 1].1 == t;
        }
      }
    }
  }

  /** Each mapped field present lands under its target. */
  lemma {:induction false} RenamedHas(data: map<string, Value>, table: Table)
    requires WellFormed(table)
    ensures forall i :: 0 <= i < |table| && table[i].0 in data ==>
      table[i].1 in Renamed(data, table) && Renamed(data, table)[table[i].1] == data[table[i].0]
  {
    if |table| > 0 {
      var init := table[..|table| - 1];
      assert WellFormed(init);
      RenamedHas(data, init);
      forall i | 0 <= i < |table| && table[i].0 in data
        ensures table[i].1 in Renamed(data, table) && Renamed(data, table)[table[i].1] == data[table[i].0]
      {
        if i < |init| {
          assert table[i] == init[i];
          assert table[i].1 != table[|table| - 1].1;
        }
      }
    }
  }

  /** There is one attribute per mapped field present. */
  lemma {:induction false} RenamedSize(data: map<string, Value>, table: Table)
    requires WellFormed(table)
    ensures |Renamed(data, table)| == Present(data, table)
  {
    if |table| > 0 {
      var init := table[..|table| - 1];
      var (src, dst) := table[|table| - 1];
      assert WellFormed(init);
      RenamedSize(data, init);
      if src in data {
        forall i | 0 <= i < |init|
          ensures init[i].1 != dst
        {
          assert init[i] == table[i];
        }
        RenamedFrom(data, init);
        assert dst !in Renamed(data, init);
      }
    }
  }

  /** Each mapped field present lands under its target; every attribute
      comes from a mapped field present; there is one per such field. */
  lemma RenamedFields(data: map<string, Value>, table: Table)
    requires WellFormed(table)
    ensures forall i :: 0 <= i < |table| && table[i].0 in data ==>
      table[i].1 in Renamed(data, table) && Renamed(data, table)[table[i].1] == data[table[i].0]
    ensures forall t :: t in Renamed(data, table) ==> exists i :: 0 <= i < |table| && table[i].1 == t && table[i].0 in data
    ensures |Renamed(data, table)| == Present(data, table)
  {
    RenamedHas(data, table);
    RenamedFrom(data, table);
    RenamedSize(data, table);
  }

  /** A field the table does not map adds nothing. */
  lemma {:induction false} RenamedAddUnmapped(d: map<string, Value>, k: string, v: Value, table: Table)
    requires forall i :: 0 <= i < |table| ==> table[i].0 != k
    ensures Renamed(d[k := v], table) == Renamed(d, table)
  {
    if |table| > 0 {
      var init := table[..|table| - 1];
      assert forall i :: 0 <= i < |init| ==> init[i] == table[i];
      RenamedAddUnmapped(d, k, v, init);
    }
  }

  /** A field the table maps adds its attribute. */
  lemma {:induction false} RenamedAddMapped(d: map<string, Value>, k: string, v: Value, table: Table, j: nat)
    requires WellFormed(table) && k !in d
    requires j < |table| && table[j].0 == k
    ensures Renamed(d[k := v], table) == Renamed(d, table)[table[j].1 := v]
  {
    var init := table[..|table| - 1];
    var (src, dst) := table[|table| - 1];
    assert forall i :: 0 <= i < |init| ==> init[i] == table[i];
    if j == |table| - 1 {
      RenamedAddUnmapped(d, k, v, init);
    } else {
      assert WellFormed(init);
      RenamedAddMapped(d, k, v, init, j);
      assert src != k && table[j].1 != dst;
      UpdateThenAdd(Renamed(d, init), table[j].1, v, if src in d then map[dst := d[src]] else map[]);
    }
  }

  lemma UpdateThenAdd(m: map<string, Value>, t: string, v: Value, extra: map<string, Value>)
    requires t !in extra
    ensures m[t := v] + extra == (m + extra)[t := v]
  {
  }

  /** The fields of `data` already walked. */
  function Restrict(data: map<string, Value>, done: set<string>): map<string, Value> {
    map k | k in data && k in done :: data[k]
  }

  /** Renaming one more field: its attribute is added when the table maps it. */
  lemma RenameStep(data: map<string, Value>, table: Table, todo: set<string>, k: string)
    requires WellFormed(table) && todo <= data.Keys && k in todo
    ensures var done := data.Keys - todo;
      var before := Renamed(Restrict(data, done), table);
      Renamed(Restrict(data, data.Keys - (todo - {k})), table) ==
        match Target(table, k)
        case Some(t) => before[t := data[k]]
        case None => before
  {
    var done := data.Keys - todo;
    assert data.Keys - (todo - {k}) == done + {k};
    assert Restrict(data, done + {k}) == Restrict(data, done)[k := data[k]];
    match Target(table, k)
    case Some(t) =>
      var j :| 0 <= j < |table| && table[j] == (k, t);
      RenamedAddMapped(Restrict(data, done), k, data[k], table, j);
    case None =>
      RenamedAddUnmapped(Restrict(data, done), k, data[k], table);
  }

  /** The `foreach` that renames: one assignment per mapped field, in
      whatever order the fields come. */
  method Rename(data: map<string, Value>, table: Table) returns (r: map<string, Value>)
    requires WellFormed(table)
    ensures r == Renamed(data, table)
  {
    r := map[];
    var todo := data.Keys;
    assert Restrict(data, data.Keys - todo) == map[];
    assert Renamed(map[], table) == map[] by {
      RenamedFields(map[], table);
    }
    while todo != {}
      invariant todo <= data.Keys
      invariant r == Renamed(Restrict(data, data.Keys - todo), table)
      decreases todo
    {
      var k :| k in todo;
      RenameStep(data, table, todo, k);
      var t := Target(table, k);
      if t.Some? {
        r := r[t.value := data[k]];
      }
      todo := todo - {k};
    }
    assert Restrict(data, data.Keys - todo) == data;
  }

  /** Vanilla's field names and the attribute each becomes. */
  const CommentTable: Table := [
    ("CommentID", "article_comment_id"),
    ("Body", "body"),
    ("DateInserted", "created_at"),
    ("InsertName", "author_name"),
    ("InsertEmail", "author_email"),
    ("InsertPhoto", "author_photo")]

  const CommentTargets: set<string> :=
    {"article_comment_id", "body", "created_at", "author_name", "author_email", "author_photo"}

  lemma CommentTableWellFormed()
    ensures WellFormed(CommentTable)
    ensures forall i :: 0 <= i < |CommentTable| ==> CommentTable[i].1 in CommentTargets
  {
  }

  /** The renamed Vanilla comment: its attributes are among the six
      targets, each mapped field present lands under its target, and there
      is one attribute per mapped field present. Unmapped fields are dropped;
      an empty comment gives an empty record. */
  function Converted(data: map<string, Value>): (comment: map<string, Value>)
    ensures comment.Keys <= CommentTargets
    ensures forall i :: 0 <= i < |CommentTable| && CommentTable[i].0 in data ==>
      CommentTable[i].1 in comment && comment[CommentTable[i].1] == data[CommentTable[i].0]
    ensures |comment| == Present(data, CommentTable)
    ensures data == map[] ==> comment == map[]
  {
    CommentTableWellFormed();
    RenamedFields(data, CommentTable);
    Renamed(data, CommentTable)
  }

  /** `vanillaCommentToEloquent(data)`. */
  method VanillaCommentToEloquent(data: map<string, Value>) returns (comment: map<string, Value>)
    ensures comment == Converted(data)
  {
    CommentTableWellFormed();
    comment := Rename(data, CommentTable);
  }

  /** A model taking part in eager loading: its key and its loaded
      relations. A collection is a `List`. */
  class EagerModel {
    const key: Value
    var relations: map<string, Value>

    constructor (key: Value)
      ensures this.key == key && relations == map[]
    {
      this.key := key;
      relations := map[];
    }
  }

  /** The relations a model has after `match`. */
  function Matched(relations: map<string, Value>, key: Value, results: map<Value, Value>, relation: string): map<string, Value> {
    if key in results then relations[relation := results[key]] else relations
  }

  /** `match(models, results, relation)`: every model whose key has results
      gets them as the relation; the others are left alone. */
  method Match(models: seq<EagerModel>, results: map<Value, Value>, relation: string) returns (out: seq<EagerModel>)
    modifies set m | m in models
    ensures out == models
    ensures forall m :: m in models ==> m.relations == Matched(old(m.relations), m.key, results, relation)
  {
    for i := 0 to |models|
      invariant forall m :: m in models[..i] ==> m.relations == Matched(old(m.relations), m.key, results, relation)
      invariant forall m :: m in models && m !in models[..i] ==> m.relations == old(m.relations)
    {
      var m := models[i];
      if m.key in results {
        m.relations := m.relations[relation := results[m.key]];
      }
      assert models[..i + 1] == models[..i] + [m];
    }
    assert models[..|models|] == models;
    return models;
  }

  /** `initRelation(models, relation)`: every model gets an empty
      collection as the relation. */
  method InitRelation(models: seq<EagerModel>, relation: string) returns (out: seq<EagerModel>)
    modifies set m | m in models
    ensures out == models
    ensures forall m :: m in models ==> m.relations == old(m.relations)[relation := List([])]
  {
    for i := 0 to |models|
      invariant forall m :: m in models[..i] ==> m.relations == old(m.relations)[relation := List([])]
      invariant forall m :: m in models && m !in models[..i] ==> m.relations == old(m.relations)
    {
      var m := models[i];
      m.relations := m.relations[relation := List([])];
      assert models[..i + 1] == models[..i] + [m];
    }
    assert models[..|models|] == models;
    return models;
  }
}
