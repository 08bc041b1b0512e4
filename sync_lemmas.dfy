/**
 * What `syncCartWithUser` promises: its decision table row by row, and on the
 * merge path the order of the writes and what the owned cart holds afterwards.
 */
module SyncLemmas {
  import opened Wrappers
  import opened Repository
  import opened MergeLoop
  import opened CartActions

  /** Signed out, nothing is read or written and the result is `null`. */
  lemma SyncSignedOut(s: Store, cartId: Option<Id>)
    requires Valid(s)
    ensures SyncCartWithUser(s, None, cartId) == Outcome([], s, None)
  {
  }

  /** Signed in without an id: the user's own cart as stored, or else a new empty cart for the user. */
  lemma SyncWithoutId(s: Store, u: Id, cartId: Option<Id>)
    requires Valid(s) && !Given(cartId)
    ensures var r := SyncCartWithUser(s, Some(u), cartId);
      if u in s.owners then r == Outcome([], s, Some(s.carts[s.owners[u]]))
      else r.writes == [NewCart(Some(u))] && r.result.value.items == [] && r.result.value.id !in s.carts
  {
    if u !in s.owners {
      assert SyncCartWithUser(s, Some(u), cartId) == Created(CreateCart(s, Some(u)));
      FreshIdIsNew(s);
    }
  }

  /** Signed in, with an id that names no cart, and no cart of the user's own: a new empty cart for the user. */
  lemma SyncNothingFound(s: Store, u: Id, cartId: Id)
    requires Valid(s) && cartId != "" && cartId !in s.carts && u !in s.owners
    ensures var r := SyncCartWithUser(s, Some(u), Some(cartId));
      && r.writes == [NewCart(Some(u))] && r.result.value.items == [] && r.result.value.id !in s.carts
      && u in r.store.owners && r.store.owners[u] == r.result.value.id
  {
    assert SyncCartWithUser(s, Some(u), Some(cartId)) == Created(CreateCart(s, Some(u)));
    FreshIdIsNew(s);
  }

  /** The id names the user's own cart: it is returned as stored and nothing is written. */
  lemma SyncAlreadyOwned(s: Store, u: Id, cartId: Id)
    requires Valid(s) && cartId != "" && u in s.owners && s.owners[u] == cartId
    ensures SyncCartWithUser(s, Some(u), Some(cartId)) == Outcome([], s, Some(s.carts[cartId]))
  {
  }

  /** The user owns no cart and the id names one: that cart, lines and all, now belongs to the user. */
  lemma SyncReowns(s: Store, u: Id, cartId: Id)
    requires Valid(s) && cartId != "" && cartId in s.carts && u !in s.owners
    ensures var r := SyncCartWithUser(s, Some(u), Some(cartId));
      && r.writes == [Connect(cartId, u)]
      && r.result == Some(s.carts[cartId].(owner := Some(u)))
      && r.result.value.items == s.carts[cartId].items
      && r.store.carts.Keys == s.carts.Keys
  {
    var anon := s.carts[cartId];
    assert SyncCartWithUser(s, Some(u), Some(cartId)) == Reown(s, u, anon);
    assert Reown(s, u, anon).store == Apply(s, Connect(cartId, u));
  }

  /** The user owns a cart and the id names no cart: the owned cart as stored, nothing written. */
  lemma SyncOwnedOnly(s: Store, u: Id, cartId: Id)
    requires Valid(s) && cartId != "" && cartId !in s.carts && u in s.owners
    ensures SyncCartWithUser(s, Some(u), Some(cartId)) == Outcome([], s, Some(s.carts[s.owners[u]]))
  {
  }

  /** The user owns a cart and the id names another one: the merge runs. */
  lemma SyncMerges(s: Store, u: Id, cartId: Id)
    requires Valid(s) && cartId != "" && cartId in s.carts && u in s.owners && s.owners[u] != cartId
    ensures MergeReady(s, u, s.carts[s.owners[u]], s.carts[cartId])
    ensures SyncCartWithUser(s, Some(u), Some(cartId)) == Merge(s, u, s.carts[s.owners[u]], s.carts[cartId])
  {
  }

  /**
   * Merge order: every line write comes before the deletion of the anonymous cart,
   * the deletion is the last write, and no write deletes the owned cart.
   */
  lemma MergeOrder(s: Store, u: Id, owned: Cart, anon: Cart)
    requires MergeReady(s, u, owned, anon)
    ensures var ws := Merge(s, u, owned, anon).writes;
      && |ws| == |anon.items| + 1 && ws[|ws| - 1] == DropCart(anon.id)
      && (forall i :: 0 <= i < |ws| - 1 ==> (ws[i].NewLine? || ws[i].SetQuantity?) && ws[i].cartId == owned.id)
      && (forall i :: 0 <= i < |ws| && ws[i].DropCart? ==> ws[i].cartId != owned.id)
  {
    var ws := Merge(s, u, owned, anon).writes;
    var mws := MergeWrites(owned, anon.items);
    assert ws == mws + [DropCart(anon.id)];
    forall i | 0 <= i < |ws| - 1 ensures ws[i] == mws[i] { }
  }

  /** The merge returns the owned cart as the loop leaves it, and the anonymous cart is gone. */
  lemma MergeReturnsMerged(s: Store, u: Id, owned: Cart, anon: Cart)
    requires MergeReady(s, u, owned, anon)
    ensures owned.id in Merged(s, owned, anon).carts
    ensures Merge(s, u, owned, anon).result == Some(Merged(s, owned, anon).carts[owned.id])
  {
    var mws := MergeWrites(owned, anon.items);
    var ws := mws + [DropCart(anon.id)];
    MergeWritesApply(s, owned, anon);
    MergedFrame(s, u, owned, anon);
    var mid := Merged(s, owned, anon);
    ApplyAllAppend(s, mws, [DropCart(anon.id)]);
    ApplyAllOne(mid, DropCart(anon.id));
    var end := Apply(mid, DropCart(anon.id));
    assert ApplyAll(s, ws) == end;
    assert end.carts[owned.id] == mid.carts[owned.id];
  }

  /**
   * Owned cart empty when read: it ends with one line per anonymous line, in order,
   * each with the same product id, title, price, image and quantity.
   */
  lemma MergeIntoEmpty(s: Store, u: Id, owned: Cart, anon: Cart)
    requires MergeReady(s, u, owned, anon) && owned.items == []
    ensures var r := Merge(s, u, owned, anon).result.value;
      Entries(r.items) == Entries(anon.items) && IdsDistinct(r.items)
  {
    MergeReturnsMerged(s, u, owned, anon);
    assert Merged(s, owned, anon).carts[owned.id].items == [] + Copied(anon.items, s.next);
    assert [] + Copied(anon.items, s.next) == Copied(anon.items, s.next);
    CopiedEntries(anon.items, s.next);
  }

  /**
   * Owned cart not empty when read: its first line takes its own quantity plus the
   * LAST anonymous quantity (each write overwrites the previous one), and every other
   * line is unchanged; with no anonymous lines nothing changes.
   */
  lemma MergeIntoFirstLine(s: Store, u: Id, owned: Cart, anon: Cart)
    requires MergeReady(s, u, owned, anon) && owned.items != []
    ensures var r := Merge(s, u, owned, anon).result.value;
      && |r.items| == |owned.items|
      && (anon.items == [] ==> r.items == owned.items)
      && (anon.items != [] ==>
            r.items == owned.items[0 := owned.items[0].(quantity := owned.items[0].quantity + anon.items[|anon.items| - 1].quantity)])
  {
    MergeReturnsMerged(s, u, owned, anon);
    StoredCartOk(s, owned);
    MergedFirstLine(s, owned, anon);
  }

  /** `Merged` for an owned cart with lines and distinct line ids, in terms of positions. */
  lemma MergedFirstLine(s: Store, owned: Cart, anon: Cart)
    requires InStore(s, owned) && owned.items != [] && IdsDistinct(owned.items)
    ensures var items := Merged(s, owned, anon).carts[owned.id].items;
      if anon.items == [] then items == owned.items
      else items == owned.items[0 := owned.items[0].(quantity := owned.items[0].quantity + anon.items[|anon.items| - 1].quantity)]
  {
    if anon.items != [] {
      var q := owned.items[0].quantity + anon.items[|anon.items| - 1].quantity;
      ApplySetAt(s, owned, 0, q);
      ApplyAllOne(s, SetQuantity(owned.id, owned.items[0].id, q));
    }
  }
}
