/**
 * The roles endpoint: every role item of the access configuration's
 * storage becomes a role entity keyed by its name, flagged when it is one of
 * the default roles.
 */
module RoleController {
  import opened Common
  import opened Permissions

  /** An item as the access storage hands it out. */
  datatype StoredItem = StoredItem(name: string, itemType: ItemType, description: Option<string>)

  /** The role entity: `key`, `description`, `is_default`. */
  datatype RoleEntity = RoleEntity(key: string, description: Option<string>, isDefault: bool)

  /** `getItems(TYPE_ROLE)`: the role items, in storage order. */
  function RoleItems(items: seq<StoredItem>): (r: seq<StoredItem>)
    ensures |r| <= |items|
    ensures forall i :: 0 <= i < |r| ==> r[i].itemType == Role && r[i] in items
    ensures forall x :: x in items && x.itemType == Role ==> x in r
  {
    if |items| == 0 then []
    else if items[0].itemType == Role then [items[0]] + RoleItems(items[1..])
    else RoleItems(items[1..])
  }

  /** `hydrateRoles(roles, defaults)`: one entity per item, in order, keyed
      by the item's name, carrying its description, default exactly when
      the name is among the default role keys. */
  method HydrateRoles(roles: seq<StoredItem>, defaults: seq<string>) returns (entities: seq<RoleEntity>)
    ensures |entities| == |roles|
    ensures forall i :: 0 <= i < |roles| ==>
      entities[i].key == roles[i].name && entities[i].description == roles[i].description &&
      (entities[i].isDefault <==> roles[i].name in defaults)
  {
    entities := [];
    for i := 0 to |roles|
      invariant |entities| == i
      invariant forall j :: 0 <= j < i ==>
        entities[j].key == roles[j].name && entities[j].description == roles[j].description &&
        (entities[j].isDefault <==> roles[j].name in defaults)
    {
      var role := roles[i];
      entities := entities + [RoleEntity(role.name, role.description, role.name in defaults)];
    }
  }

  /** `getAllEntities()`: the role items hydrated; permissions never show. */
  method GetAllEntities(items: seq<StoredItem>, defaults: seq<string>) returns (entities: seq<RoleEntity>)
    ensures |entities| == |RoleItems(items)|
    ensures forall i :: 0 <= i < |entities| ==>
      entities[i].key == RoleItems(items)[i].name && entities[i].description == RoleItems(items)[i].description &&
      (entities[i].isDefault <==> entities[i].key in defaults)
    ensures forall x :: x in items && x.itemType == Role ==> exists i :: 0 <= i < |entities| && entities[i].key == x.name
  {
    var roles := RoleItems(items);
    entities := HydrateRoles(roles, defaults);
    forall x | x in items && x.itemType == Role
      ensures exists i :: 0 <= i < |entities| && entities[i].key == x.name
    {
      var i :| 0 <= i < |roles| && roles[i] == x;
      assert entities[i].key == x.name;
    }
  }
}
