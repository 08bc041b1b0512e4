/**
 * Which id a client line carries. `addItem` sends the item's own id to the server as the
 * product id, and a freshly added item's id is the product's. `syncWithUser` and the
 * reloads, however, copy the server's lines as they are, so after a sync each client
 * line carries its database line id. `removeItem` and `updateQuantity` then send a line
 * id where the server looks for a product id: the server finds no line, so a removal
 * changes nothing on the server while the client drops the line, and a quantity change
 * adds a second line for the same product. Here: both effects, and the load as
 * evidently intended, keyed by product id, under which a removal after a sync removes
 * the same line on both sides.
 */
module ClientIds {
  import opened Wrappers
  import opened Text
  import opened Repository
  import opened CartActions
  import opened UpdateLemmas
  import opened CartStore
  import opened StoreLemmas

  /** Client lines from server lines keyed by their product id, as the rest of the client expects. */
  function ToClientItemsByProduct(lines: seq<LineItem>): (r: seq<CartItem>)
    ensures |r| == |lines|
    ensures forall i :: 0 <= i < |lines| ==> r[i].id == lines[i].productId && r[i].quantity == lines[i].quantity
  {
    seq(|lines|, i requires 0 <= i < |lines| =>
      CartItem(lines[i].productId, lines[i].title, lines[i].price, lines[i].quantity, lines[i].image))
  }

  /** Showing a server cart as evidently intended: the lines keyed by product id. */
  function LoadByProduct(c: Client, cart: Cart): (r: Client)
    ensures r.isOpen == c.isOpen && r.isLoaded && r.cartId == Some(cart.id)
    ensures |r.items| == |cart.items|
  {
    c.(cartId := Some(cart.id), items := ToClientItemsByProduct(cart.items), isLoaded := true)
  }

  /** Mapping lines to client lines commutes with cutting position `i` out. */
  lemma ToClientItemsWithout(lines: seq<LineItem>, i: nat)
    requires i < |lines|
    ensures var items := ToClientItems(lines);
      items[..i] + items[i + 1..] == ToClientItems(lines[..i] + lines[i + 1..])
    ensures var items := ToClientItemsByProduct(lines);
      items[..i] + items[i + 1..] == ToClientItemsByProduct(lines[..i] + lines[i + 1..])
  {
    var rest := lines[..i] + lines[i + 1..];
    assert forall j :: 0 <= j < |rest| ==> rest[j] == if j < i then lines[j] else lines[j + 1];
  }

  /** Distinct product ids make distinct client ids under the intended load. */
  lemma ByProductUnique(lines: seq<LineItem>)
    requires ProductsUnique(lines)
    ensures UniqueIds(ToClientItemsByProduct(lines))
  {
  }

  /** With one line per product, the product listed at `i` is found at `i`. */
  lemma IndexOfProductAt(lines: seq<LineItem>, i: nat)
    requires ProductsUnique(lines) && i < |lines|
    ensures IndexOfProduct(lines, lines[i].productId) == Some(i)
  {
  }

  /**
   * As written: after a sync has shown `cart`, removing its line `i` sends the line id
   * as the product id. When no line has that product id, the server is left exactly
   * as it was and the line is still stored, while the client no longer lists it.
   */
  lemma RemoveAfterSyncMisses(c0: Client, s: Store, cart: Cart, user: Option<Id>, i: nat)
    requires Resolves(s, cart, user, cart.id) && cart.id != "" && IdsDistinct(cart.items)
    requires i < |cart.items| && cart.items[i].id != ""
    requires IndexOfProduct(cart.items, cart.items[i].id).None?
    ensures var st := RemoveItemStep(Load(c0, cart), s, user, cart.items[i].id);
      && st.store == s && InStore(st.store, cart) && st.result == Ok(())
      && st.client.cartId == Some(cart.id)
      && st.client.items == ToClientItems(cart.items[..i] + cart.items[i + 1..])
      && |st.client.items| == |cart.items| - 1
  {
    var lineId := cart.items[i].id;
    var d := ItemData(None, None, None, Some(0));
    UpdateNoOp(s, cart, user, cart.id, lineId, d);
    ToClientItemsUnique(cart.items);
    RemoveByIdAt(ToClientItems(cart.items), i);
    ToClientItemsWithout(cart.items, i);
  }

  /**
   * As written: after a sync has shown `cart`, raising the quantity of its line `i`
   * sends the line id as the product id. The server finds no line for that "product"
   * and appends a new one for it, so the stored cart now holds the old line unchanged
   * and a second line with the same title and price.
   */
  lemma UpdateQuantityAfterSyncAppends(c0: Client, s: Store, cart: Cart, user: Option<Id>, i: nat, q: int)
    requires Resolves(s, cart, user, cart.id) && cart.id != "" && IdsDistinct(cart.items)
    requires i < |cart.items| && cart.items[i].id != "" && Stored(cart.items[i]) && q > 0
    requires IndexOfProduct(cart.items, cart.items[i].id).None?
    ensures var l := cart.items[i];
      var line := LineItem(Uuid(s.next), l.id, Trim(l.title), l.price, Trim(l.image), q);
      var st := UpdateQuantityStep(Load(c0, cart), s, user, l.id, q);
      && st.result == Ok(())
      && st.store == s.(carts := s.carts[cart.id := cart.(items := cart.items + [line])], next := s.next + 1)
  {
    var l := cart.items[i];
    var c := Load(c0, cart);
    ToClientItemsUnique(cart.items);
    var d := ItemData(Some(l.title), Some(l.price), Some(l.image), Some(q));
    assert c.items[i] == CartItem(l.id, l.title, l.price, l.quantity, l.image);
    UpdateQuantityListed(c, s, user, i, q);
    StoredTitleNotEmpty(l);
    UpdateAppends(s, cart, user, cart.id, l.id, d);
  }

  /** A stored line's title is not the empty string. */
  lemma StoredTitleNotEmpty(l: LineItem)
    requires Stored(l)
    ensures l.title != ""
  {
  }

  /**
   * As evidently intended: after a sync that keys client lines by product id, removing
   * line `i` removes that same line on the server and on the client, and the client
   * then lists exactly the stored cart's lines.
   */
  lemma RemoveAfterSyncFixed(c0: Client, s: Store, cart: Cart, user: Option<Id>, i: nat)
    requires Resolves(s, cart, user, cart.id) && cart.id != "" && IdsDistinct(cart.items) && ProductsUnique(cart.items)
    requires i < |cart.items| && cart.items[i].productId != ""
    ensures var after := cart.(items := cart.items[..i] + cart.items[i + 1..]);
      var st := RemoveItemStep(LoadByProduct(c0, cart), s, user, cart.items[i].productId);
      && st.store == s.(carts := s.carts[cart.id := after]) && st.result == Ok(())
      && st.client.cartId == Some(cart.id)
      && st.client.items == ToClientItemsByProduct(after.items)
  {
    var p := cart.items[i].productId;
    var d := ItemData(None, None, None, Some(0));
    IndexOfProductAt(cart.items, i);
    UpdateZeroDeletes(s, cart, user, cart.id, p, d);
    ByProductUnique(cart.items);
    RemoveByIdAt(ToClientItemsByProduct(cart.items), i);
    ToClientItemsWithout(cart.items, i);
  }
}
