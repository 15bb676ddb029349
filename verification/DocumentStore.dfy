/** lunr.Store: from a document's reference to the sorted set of its tokens.  No stored set is ever
    updated again, so the store keeps the elements of each. */
module DocumentStores {
  import opened JsStrings
  import opened SortedSets

  class Store {
    var store: map<Str, seq<Str>>
    var length: int

    ghost predicate Valid()
      reads this
    {
      length == |store| && forall id :: id in store ==> Increasing(store[id])
    }

    constructor ()
      ensures Valid() && store == map[]
    {
      store, length := map[], 0;
    }

    method Set(id: Str, tokens: seq<Str>)
      requires Valid() && Increasing(tokens)
      modifies this
      ensures Valid() && store == old(store)[id := tokens]
    {
      var present := Has(id);
      if !present {
        length := length + 1;
      }
      store := store[id := tokens];
    }

    method Get(id: Str) returns (tokens: seq<Str>)
      requires Valid() && id in store
      ensures tokens == store[id] && Increasing(tokens)
    {
      tokens := store[id];
    }

    method Has(id: Str) returns (found: bool)
      ensures found <==> id in store
    {
      found := id in store;
    }

    method Remove(id: Str)
      requires Valid()
      modifies this
      ensures Valid() && store == old(store) - {id}
    {
      var present := Has(id);
      if !present {
        assert store - {id} == store;
        return;
      }
      assert store.Keys == (store - {id}).Keys + {id};
      store := store - {id};
      length := length - 1;
    }
  }
}
