/**
 * Append-only interning table from names to dense ids (pearl/src/registry.rs).
 * A hash map from name to id and two vectors indexed by id, kept in lock-step.
 */
module Registries {
  import opened Options

  class Registry<T> {
    var idsByName: map<string, nat>
    var namesById: seq<string>
    var itemsById: seq<T>

    /** The lock-step invariant: the three collections describe the same
        registrations, and an id is the position of its name and item. */
    ghost predicate Valid()
      reads this
    {
      && |namesById| == |itemsById| == |idsByName|
      && (forall i :: 0 <= i < |namesById| ==> namesById[i] in idsByName && idsByName[namesById[i]] == i)
      && (forall name :: name in idsByName ==> idsByName[name] < |namesById| && namesById[idsByName[name]] == name)
    }

    /** An empty registry: no names and no items. */
    constructor ()
      ensures Valid()
      ensures idsByName == map[] && namesById == [] && itemsById == []
      ensures forall name :: GetItemId(name) == None
    {
      idsByName := map[];
      namesById := [];
      itemsById := [];
    }

    /** Registers `item` under a fresh `name`; the new id is the number of
        earlier registrations. A duplicate name makes the source panic. */
    method Register(name: string, item: T) returns (id: nat)
      requires Valid()
      requires name !in idsByName
      modifies this
      ensures Valid()
      ensures id == old(|namesById|)
      ensures namesById == old(namesById) + [name]
      ensures itemsById == old(itemsById) + [item]
      ensures idsByName == old(idsByName)[name := id]
      ensures GetItemId(name) == Some(id) && GetItem(id) == item
      ensures forall other :: other != name ==> GetItemId(other) == old(GetItemId(other))
    {
      id := |namesById|;
      idsByName := idsByName[name := id];
      namesById := namesById + [name];
      itemsById := itemsById + [item];
    }

    /** The item stored under `id`; the source panics on an id it never issued. */
    function GetItem(id: nat): (item: T)
      reads this
      requires id < |itemsById|
      ensures item in itemsById
      ensures item == itemsById[id]
    {
      itemsById[id]
    }

    /** The id of `name`, found through the hash map; it agrees with a search
        of the names in registration order, and is `None` for a name never registered. */
    function GetItemId(name: string): (r: Option<nat>)
      reads this
      requires Valid()
      ensures r.Some? <==> name in namesById
      ensures r.Some? ==> r.value < |namesById| && namesById[r.value] == name
    {
      if name in idsByName then Some(idsByName[name]) else None
    }
  }

  /** No two ids share a name, so every name resolves to exactly one id. */
  lemma NamesDistinct<T>(r: Registry<T>, i: nat, j: nat)
    requires r.Valid()
    requires i < |r.namesById| && j < |r.namesById|
    ensures r.namesById[i] == r.namesById[j] <==> i == j
  {
    if r.namesById[i] == r.namesById[j] {
      assert r.idsByName[r.namesById[i]] == i;
      assert r.idsByName[r.namesById[j]] == j;
    }
  }

  /** Looking up the name of an issued id gives that id back. */
  lemma IdNameRoundTrip<T>(r: Registry<T>, id: nat)
    requires r.Valid()
    requires id < |r.namesById|
    ensures r.GetItemId(r.namesById[id]) == Some(id)
  {
  }
}
