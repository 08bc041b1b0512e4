/**
 * What the client cart cache promises: the derived totals, the three ways `addItem`
 * can go, exactly which lines `removeItem` and `updateQuantity` touch, and that
 * `syncWithUser` always ends showing a stored server cart.
 */
module StoreLemmas {
  import opened Wrappers
  import opened Repository
  import opened CartActions
  import opened CartStore

  // Filtering and mapping by id.

  /** The filter works piece by piece, so the surviving lines keep their order. */
  lemma {:induction false} RemoveByIdAppend(a: seq<CartItem>, b: seq<CartItem>, id: Id)
    ensures RemoveById(a + b, id) == RemoveById(a, id) + RemoveById(b, id)
    decreases |a|
  {
    if a == [] {
      assert a + b == b;
    } else {
      var ab := a + b;
      assert ab[0] == a[0] && ab[1..] == a[1..] + b;
      RemoveByIdAppend(a[1..], b, id);
      var head := if a[0].id == id then [] else [a[0]];
      assert RemoveById(ab, id) == head + (RemoveById(a[1..], id) + RemoveById(b, id));
    }
  }

  /** Lines with other ids all survive. */
  lemma {:induction false} RemoveByIdAbsent(items: seq<CartItem>, id: Id)
    requires forall j :: 0 <= j < |items| ==> items[j].id != id
    ensures RemoveById(items, id) == items
    decreases |items|
  {
    if items != [] {
      RemoveByIdAbsent(items[1..], id);
      assert [items[0]] + items[1..] == items;
    }
  }

  /** With unique ids, dropping the id listed at `k` removes exactly position `k`. */
  lemma {:induction false} RemoveByIdAt(items: seq<CartItem>, k: nat)
    requires UniqueIds(items) && k < |items|
    ensures RemoveById(items, items[k].id) == items[..k] + items[k + 1..]
    decreases k
  {
    var id := items[k].id;
    var rest := items[1..];
    if k == 0 {
      assert forall j :: 0 <= j < |rest| ==> rest[j] == items[j + 1];
      RemoveByIdAbsent(rest, id);
    } else {
      assert rest[k - 1] == items[k];
      RemoveByIdAt(rest, k - 1);
      assert rest[..k - 1] == items[1..k] && rest[k..] == items[k + 1..];
      assert [items[0]] + items[1..k] == items[..k];
    }
  }

  /** With unique ids, the id listed at `k` is found at `k`. */
  lemma IndexOfListed(items: seq<CartItem>, k: nat)
    requires UniqueIds(items) && k < |items|
    ensures IndexOfId(items, items[k].id) == Some(k)
  {
  }

  /** With unique ids, setting the quantity of the id listed at `k` changes that line's quantity and nothing else. */
  lemma SetQuantityAt(items: seq<CartItem>, k: nat, q: int)
    requires UniqueIds(items) && k < |items|
    ensures SetQuantityById(items, items[k].id, q) == items[k := items[k].(quantity := q)]
  {
    var r := SetQuantityById(items, items[k].id, q);
    forall i | 0 <= i < |items|
      ensures r[i] == items[k := items[k].(quantity := q)][i]
    {
      assert i != k ==> items[i].id != items[k].id;
    }
  }

  // The derived totals.

  /** Both totals are sums: over a concatenation they add up. */
  lemma {:induction false} TotalsAppend(a: seq<CartItem>, b: seq<CartItem>)
    ensures TotalItems(a + b) == TotalItems(a) + TotalItems(b)
    ensures TotalPrice(a + b) == TotalPrice(a) + TotalPrice(b)
    decreases |b|
  {
    if b == [] {
      assert a + b == a;
    } else {
      var n := |b| - 1;
      assert (a + b)[..|a + b| - 1] == a + b[..n];
      assert (a + b)[|a + b| - 1] == b[n];
      TotalsAppend(a, b[..n]);
    }
  }

  /** A single line contributes its quantity, and its price times its quantity. */
  lemma TotalsOne(x: CartItem)
    ensures TotalItems([x]) == x.quantity && TotalPrice([x]) == x.price * x.quantity
  {
    assert [x][..0] == [];
  }

  /** Replacing one line changes each total by the difference between the two lines. */
  lemma TotalsUpdate(items: seq<CartItem>, k: nat, x: CartItem)
    requires k < |items|
    ensures TotalItems(items[k := x]) == TotalItems(items) - items[k].quantity + x.quantity
    ensures TotalPrice(items[k := x]) == TotalPrice(items) - items[k].price * items[k].quantity + x.price * x.quantity
  {
    assert items == items[..k] + [items[k]] + items[k + 1..];
    assert items[k := x] == items[..k] + [x] + items[k + 1..];
    TotalsAppend(items[..k] + [items[k]], items[k + 1..]);
    TotalsAppend(items[..k], [items[k]]);
    TotalsAppend(items[..k] + [x], items[k + 1..]);
    TotalsAppend(items[..k], [x]);
    TotalsOne(items[k]);
    TotalsOne(x);
  }

  // `addItem`.

  /**
   * Without a cart id, `addItem` first takes the cart `getOrCreateCart()` gives, keeps
   * its id (a real one), and then adds exactly as it would with that id held.
   */
  lemma AddItemObtainsCart(c: Client, s: Store, user: Option<Id>, item: CartItem)
    requires Repository.Valid(s) && !Given(c.cartId)
    ensures var got := GetOrCreateCart(s, user, None);
      && Given(Some(got.result.id))
      && AddItemStep(c, s, user, item) == AddToCartStep(c.(cartId := Some(got.result.id)), got.store, user, item)
  {
    GetOrCreateKeepsValid(s, user, None);
  }

  /**
   * An item whose id is already listed at `k` goes through `updateQuantity` with the
   * summed quantity; when it resolves, that line alone has the new quantity and nothing
   * is appended.
   */
  lemma AddListedId(c: Client, s: Store, user: Option<Id>, item: CartItem, k: nat)
    requires Indexed(s) && Given(c.cartId) && UniqueIds(c.items)
    requires k < |c.items| && c.items[k].id == item.id
    ensures var sum := c.items[k].quantity + item.quantity;
      var st := AddItemStep(c, s, user, item);
      && st == UpdateQuantityStep(c, s, user, item.id, sum)
      && (st.result.Ok? && sum > 0 ==> st.client.items == c.items[k := c.items[k].(quantity := sum)])
  {
    IndexOfListed(c.items, k);
    var sum := c.items[k].quantity + item.quantity;
    AddViaExisting(c, s, user, item, k);
    UpdateQuantityListed(c, s, user, k, sum);
  }

  /** With a cart id, an item `Existing` finds at `k` goes through `updateQuantity` for that line. */
  lemma AddViaExisting(c: Client, s: Store, user: Option<Id>, item: CartItem, k: nat)
    requires Indexed(s) && Given(c.cartId) && Existing(c.items, item) == Some(k)
    ensures AddItemStep(c, s, user, item) == UpdateQuantityStep(c, s, user, c.items[k].id, c.items[k].quantity + item.quantity)
  {
  }

  /**
   * An item whose id is not listed but whose title (ignoring case) and price match the
   * line at `k` goes through `updateQuantity` for that line; the new id is never listed.
   */
  lemma AddSameTitleAndPrice(c: Client, s: Store, user: Option<Id>, item: CartItem)
    requires Indexed(s) && Given(c.cartId) && UniqueIds(c.items)
    requires IndexOfId(c.items, item.id).None? && IndexOfTwin(c.items, item).Some?
    ensures var k := IndexOfTwin(c.items, item).value;
      var sum := c.items[k].quantity + item.quantity;
      var st := AddItemStep(c, s, user, item);
      && st == UpdateQuantityStep(c, s, user, c.items[k].id, sum)
      && (st.result.Ok? && sum > 0 ==> st.client.items == c.items[k := c.items[k].(quantity := sum)])
      && (forall i :: 0 <= i < |st.client.items| ==> st.client.items[i].id != item.id)
  {
    var k := IndexOfTwin(c.items, item).value;
    var sum := c.items[k].quantity + item.quantity;
    AddViaExisting(c, s, user, item, k);
    UpdateQuantityListed(c, s, user, k, sum);
    var st := UpdateQuantityStep(c, s, user, c.items[k].id, sum);
    var after := st.client.items;
    forall i | 0 <= i < |after|
      ensures after[i].id != item.id
    {
      if st.result.Err? {
        assert after[i] == c.items[i];
      } else if sum > 0 {
        assert after[i].id == c.items[i].id;
      } else {
        assert after[i] == if i < k then c.items[i] else c.items[i + 1];
      }
    }
  }

  /**
   * A new item is sent under its own id as the product id. Local lines change only if
   * the server returns a cart: then the item is appended once, the cart id is the
   * returned cart's, and each total grows by the item's share; a thrown error leaves
   * the fields as they were.
   */
  lemma AddNewItem(c: Client, s: Store, user: Option<Id>, item: CartItem)
    requires Indexed(s) && Given(c.cartId)
    requires IndexOfId(c.items, item.id).None? && IndexOfTwin(c.items, item).None?
    ensures var u := UpdateCartItem(s, user, c.cartId.value, item.id, ItemData(Some(item.title), Some(item.price), Some(item.image), Some(item.quantity)));
      var st := AddItemStep(c, s, user, item);
      && st.store == u.store
      && (u.result.Err? ==> st.client == c && st.result == Err(u.result.msg))
      && (u.result.Ok? ==>
            && st.result == Ok(())
            && st.client == c.(cartId := Some(u.result.value.id), items := c.items + [item])
            && TotalItems(st.client.items) == TotalItems(c.items) + item.quantity
            && TotalPrice(st.client.items) == TotalPrice(c.items) + item.price * item.quantity)
  {
    TotalsAppend(c.items, [item]);
    TotalsOne(item);
  }

  /** `addItem` never lists an id twice. */
  lemma AddItemNeverDuplicates(c: Client, s: Store, user: Option<Id>, item: CartItem)
    requires Indexed(s) && UniqueIds(c.items)
    ensures UniqueIds(AddItemStep(c, s, user, item).client.items)
  {
    AddItemKeepsUnique(c, s, user, item);
  }

  // `removeItem` and `updateQuantity`.

  /**
   * `removeItem`: nothing happens without a cart id. Otherwise quantity 0 goes to the
   * server under the given id, and once a cart comes back exactly the lines with that
   * id are gone (with unique ids: that one position), the rest in order.
   */
  lemma RemoveItemDrops(c: Client, s: Store, user: Option<Id>, id: Id)
    requires Indexed(s) && UniqueIds(c.items)
    ensures var st := RemoveItemStep(c, s, user, id);
      && (!Given(c.cartId) ==> st == Step(c, s, Ok(())))
      && (Given(c.cartId) ==>
            var u := UpdateCartItem(s, user, c.cartId.value, id, ItemData(None, None, None, Some(0)));
            && st.store == u.store
            && (u.result.Err? ==> st.client == c && st.result == Err(u.result.msg))
            && (u.result.Ok? ==>
                  && st.client.cartId == Some(u.result.value.id) && st.result == Ok(())
                  && (IndexOfId(c.items, id).None? ==> st.client.items == c.items)
                  && (IndexOfId(c.items, id).Some? ==>
                        var k := IndexOfId(c.items, id).value;
                        st.client.items == c.items[..k] + c.items[k + 1..])))
  {
    match IndexOfId(c.items, id)
    case None => RemoveByIdAbsent(c.items, id);
    case Some(k) => RemoveByIdAt(c.items, k);
  }

  /** `updateQuantity` leaves everything as it was without a cart id or with an id that is not listed. */
  lemma UpdateQuantityNoOp(c: Client, s: Store, user: Option<Id>, id: Id, quantity: int)
    requires Indexed(s) && (!Given(c.cartId) || IndexOfId(c.items, id).None?)
    ensures UpdateQuantityStep(c, s, user, id, quantity) == Step(c, s, Ok(()))
  {
  }

  /**
   * `updateQuantity` on a listed id: the line's title, price and image go to the server
   * with `max(0, quantity)`; once a cart comes back, a positive quantity is set on that
   * line alone, and otherwise that line alone is dropped.
   */
  lemma UpdateQuantityListed(c: Client, s: Store, user: Option<Id>, k: nat, quantity: int)
    requires Indexed(s) && Given(c.cartId) && UniqueIds(c.items) && k < |c.items|
    ensures var it := c.items[k];
      var u := UpdateCartItem(s, user, c.cartId.value, it.id, ItemData(Some(it.title), Some(it.price), Some(it.image), Some(Max0(quantity))));
      var st := UpdateQuantityStep(c, s, user, it.id, quantity);
      && st.store == u.store
      && (u.result.Err? ==> st.client == c && st.result == Err(u.result.msg))
      && (u.result.Ok? ==>
            && st.client.cartId == Some(u.result.value.id) && st.result == Ok(())
            && st.client.items == if quantity > 0 then c.items[k := it.(quantity := quantity)] else c.items[..k] + c.items[k + 1..])
  {
    var id := c.items[k].id;
    IndexOfListed(c.items, k);
    SetQuantityAt(c.items, k, quantity);
    RemoveByIdAt(c.items, k);
  }

  // `syncWithUser`.

  /**
   * On every path `syncWithUser` resolves, ends loaded with the view flag as it was,
   * and shows exactly a cart stored on the server: its id and its lines.
   */
  lemma SyncShowsStoredCart(c: Client, s: Store, user: Option<Id>, failed: bool)
    requires Repository.Valid(s)
    ensures var st := SyncWithUserStep(c, s, user, failed);
      && st.result == Ok(()) && st.client.isLoaded && st.client.isOpen == c.isOpen
      && st.client.cartId.Some? && st.client.cartId.value in st.store.carts
      && st.client.items == ToClientItems(st.store.carts[st.client.cartId.value].items)
      && UniqueIds(st.client.items)
  {
    SyncKeepsValid(c, s, user, failed);
  }

  /** Signed in and not failing, the cart shown is the user's own. */
  lemma SyncShowsOwnCart(c: Client, s: Store, u: Id)
    requires Repository.Valid(s)
    ensures var st := SyncWithUserStep(c, s, Some(u), false);
      && st.client.cartId.Some? && st.client.cartId.value in st.store.carts
      && st.store.carts[st.client.cartId.value].owner == Some(u)
  {
  }
}
