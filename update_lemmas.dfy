/**
 * What `getOrCreateCart` and `updateCartItem` promise across calls: which cart a
 * call settles on, what one update does to that cart's lines, and that repeating
 * an update changes nothing more.
 */
module UpdateLemmas {
  import opened Wrappers
  import opened Text
  import opened Repository
  import opened CartActions

  /** The cart `getOrCreateCart(cartId)` finds without creating one, if any. */
  function Target(s: Store, user: Option<Id>, cartId: Option<Id>): Option<Id> {
    if !NoOwnedCart(s, user) then Some(s.owners[user.value])
    else if Given(cartId) && cartId.value in s.carts then cartId
    else None
  }

  /** `cart` is stored in a database whose lookups work, and `getOrCreateCart(cartId)` finds it. */
  ghost predicate Resolves(s: Store, cart: Cart, user: Option<Id>, cartId: Id) {
    Indexed(s) && InStore(s, cart) && Target(s, user, Some(cartId)) == Some(cart.id)
  }

  /** A cart that is found is returned as stored, and nothing is written. */
  lemma FoundIsReturned(s: Store, user: Option<Id>, cartId: Option<Id>)
    requires Indexed(s) && Target(s, user, cartId).Some?
    ensures GetOrCreateCart(s, user, cartId) == Outcome([], s, s.carts[Target(s, user, cartId).value])
  {
  }

  /**
   * After one call, the same call finds the cart the first one returned, unless it ran
   * signed out with an id that names no cart.
   */
  lemma GetOrCreateSettles(s: Store, user: Option<Id>, cartId: Option<Id>)
    requires Valid(s) && (user.Some? || Target(s, user, cartId).Some?)
    ensures var r := GetOrCreateCart(s, user, cartId);
      Target(r.store, user, cartId) == Some(r.result.id)
  {
    if Target(s, user, cartId).Some? {
      FoundIsReturned(s, user, cartId);
    } else {
      GetOrCreateNew(s, user, cartId);
    }
  }

  /** Which cart is found depends only on the owner index and on which carts exist. */
  lemma TargetKept(s: Store, s': Store, user: Option<Id>, cartId: Option<Id>)
    requires s'.owners == s.owners && s'.carts.Keys == s.carts.Keys
    ensures Target(s', user, cartId) == Target(s, user, cartId)
  {
  }

  /**
   * When `getOrCreateCart(cartId)` finds `cart` again after the write, `WriteLine`
   * returns that cart as it is after the write and issues nothing beyond the line write.
   */
  lemma WriteLineReturnsWritten(t: Store, cart: Cart, user: Option<Id>, cartId: Id, p: Id, d: ItemData)
    requires Resolves(t, cart, user, cartId) && LineWrites(cart, p, d).Ok?
    ensures var mid := ApplyAll(t, LineWrites(cart, p, d).value);
      && cart.id in mid.carts
      && WriteLine(t, cart, user, cartId, p, d) == Outcome(LineWrites(cart, p, d).value, mid, Ok(mid.carts[cart.id]))
  {
    var ws := LineWrites(cart, p, d).value;
    var mid := ApplyAll(t, ws);
    LineWritesFrame(t, cart, p, d);
    TargetKept(t, mid, user, Some(cartId));
    FoundIsReturned(mid, user, Some(cartId));
    var again := GetOrCreateCart(mid, user, Some(cartId));
    assert again == Outcome([], mid, mid.carts[cart.id]);
    assert WriteLine(t, cart, user, cartId, p, d) == Outcome(ws + again.writes, again.store, Ok(again.result));
    assert ws + [] == ws;
  }

  /** Past validation, with a cart to find, `updateCartItem` is `WriteLine` on that cart. */
  lemma UpdateFound(s: Store, cart: Cart, user: Option<Id>, cartId: Id, p: Id, d: ItemData)
    requires Resolves(s, cart, user, cartId) && p != "" && WellFormed(d)
    ensures UpdateCartItem(s, user, cartId, p, d) == WriteLine(s, cart, user, cartId, p, d)
  {
    var got := GetOrCreateCart(s, user, Some(cartId));
    FoundIsReturned(s, user, Some(cartId));
    assert got == Outcome([], s, cart);
    var w := WriteLine(s, cart, user, cartId, p, d);
    assert ValidateCartItemData(d).Ok?;
    assert UpdateCartItem(s, user, cartId, p, d) == Outcome(got.writes + w.writes, w.store, w.result);
    assert [] + w.writes == w.writes;
  }

  /** The lines of every cart `updateCartItem` returns hold each product at most once. */
  lemma UpdateNeverDuplicates(s: Store, user: Option<Id>, cartId: Id, p: Id, d: ItemData)
    requires Valid(s)
    ensures var r := UpdateCartItem(s, user, cartId, p, d);
      r.result.Ok? ==> ProductsUnique(r.result.value.items)
  {
    var r := UpdateCartItem(s, user, cartId, p, d);
    UpdateCartItemConsistent(s, user, cartId, p, d);
    if r.result.Ok? {
      assert LinesOk(r.store.carts[r.result.value.id].items, r.store.next);
    }
  }

  /** Past validation, with a cart to find and writes `ws` to issue that lead to `s'`: those writes, and the cart as it then is. */
  lemma UpdateFoundWrites(s: Store, cart: Cart, user: Option<Id>, cartId: Id, p: Id, d: ItemData, ws: seq<Write>, s': Store)
    requires Resolves(s, cart, user, cartId) && p != "" && WellFormed(d) && LineWrites(cart, p, d) == Ok(ws) && ApplyAll(s, ws) == s'
    ensures cart.id in s'.carts && UpdateCartItem(s, user, cartId, p, d) == Outcome(ws, s', Ok(s'.carts[cart.id]))
  {
    UpdateFound(s, cart, user, cartId, p, d);
    WriteLineReturnsWritten(s, cart, user, cartId, p, d);
  }

  /** Quantity 0 deletes the existing line for the product; nothing else in the database changes. */
  lemma UpdateZeroDeletes(s: Store, cart: Cart, user: Option<Id>, cartId: Id, p: Id, d: ItemData)
    requires Resolves(s, cart, user, cartId) && IdsDistinct(cart.items)
    requires p != "" && WellFormed(d) && d.quantity == Some(0) && IndexOfProduct(cart.items, p).Some?
    ensures var k := IndexOfProduct(cart.items, p).value;
      var after := cart.(items := cart.items[..k] + cart.items[k + 1..]);
      UpdateCartItem(s, user, cartId, p, d) ==
        Outcome([DropLine(cart.id, cart.items[k].id)], s.(carts := s.carts[cart.id := after]), Ok(after))
  {
    var k := IndexOfProduct(cart.items, p).value;
    var after := cart.(items := cart.items[..k] + cart.items[k + 1..]);
    var ws := [DropLine(cart.id, cart.items[k].id)];
    ApplyDropAt(s, cart, k);
    UpdateFoundWrites(s, cart, user, cartId, p, d, ws, s.(carts := s.carts[cart.id := after]));
  }

  /** A positive quantity replaces the quantity of the existing line and nothing else. */
  lemma UpdatePositiveSets(s: Store, cart: Cart, user: Option<Id>, cartId: Id, p: Id, d: ItemData)
    requires Resolves(s, cart, user, cartId) && IdsDistinct(cart.items)
    requires p != "" && WellFormed(d) && d.quantity.Some? && d.quantity.value > 0
    requires IndexOfProduct(cart.items, p).Some?
    ensures var k := IndexOfProduct(cart.items, p).value;
      var after := cart.(items := cart.items[k := cart.items[k].(quantity := d.quantity.value)]);
      UpdateCartItem(s, user, cartId, p, d) ==
        Outcome([SetQuantity(cart.id, cart.items[k].id, d.quantity.value)], s.(carts := s.carts[cart.id := after]), Ok(after))
  {
    var k := IndexOfProduct(cart.items, p).value;
    var after := cart.(items := cart.items[k := cart.items[k].(quantity := d.quantity.value)]);
    var ws := [SetQuantity(cart.id, cart.items[k].id, d.quantity.value)];
    ApplySetAt(s, cart, k, d.quantity.value);
    UpdateFoundWrites(s, cart, user, cartId, p, d, ws, s.(carts := s.carts[cart.id := after]));
  }

  /** No quantity, or quantity 0 with no line for the product: nothing is written and the cart comes back as it was. */
  lemma UpdateNoOp(s: Store, cart: Cart, user: Option<Id>, cartId: Id, p: Id, d: ItemData)
    requires Resolves(s, cart, user, cartId)
    requires p != "" && WellFormed(d)
    requires d.quantity.None? || (d.quantity == Some(0) && IndexOfProduct(cart.items, p).None?)
    ensures UpdateCartItem(s, user, cartId, p, d) == Outcome([], s, Ok(cart))
  {
    UpdateFound(s, cart, user, cartId, p, d);
    WriteLineReturnsWritten(s, cart, user, cartId, p, d);
  }

  /**
   * No line for the product yet: a positive quantity with a title and a non-zero price
   * appends exactly one line (title and image trimmed, under a fresh id).
   */
  lemma UpdateAppends(s: Store, cart: Cart, user: Option<Id>, cartId: Id, p: Id, d: ItemData)
    requires Resolves(s, cart, user, cartId)
    requires p != "" && WellFormed(d) && IndexOfProduct(cart.items, p).None?
    requires d.quantity.Some? && d.quantity.value > 0
    requires d.title.Some? && d.title.value != "" && d.price.Some? && d.price.value != 0
    ensures var line := LineItem(Uuid(s.next), p, Trim(d.title.value), d.price.value, ImageOf(d), d.quantity.value);
      var after := cart.(items := cart.items + [line]);
      UpdateCartItem(s, user, cartId, p, d) ==
        Outcome([NewLine(cart.id, p, line.title, line.price, line.image, line.quantity)],
                s.(carts := s.carts[cart.id := after], next := s.next + 1), Ok(after))
  {
    var line := LineItem(Uuid(s.next), p, Trim(d.title.value), d.price.value, ImageOf(d), d.quantity.value);
    var after := cart.(items := cart.items + [line]);
    var ws := [NewLine(cart.id, p, line.title, line.price, line.image, line.quantity)];
    ApplyAllOne(s, ws[0]);
    UpdateFoundWrites(s, cart, user, cartId, p, d, ws, s.(carts := s.carts[cart.id := after], next := s.next + 1));
  }

  /**
   * No line for the product yet, a positive quantity, and no title or a falsy price:
   * the update fails with the "Failed to update cart: " prefix. A cart that
   * `getOrCreateCart` had to create for it stays created.
   */
  lemma UpdateNeedsTitleAndPrice(s: Store, user: Option<Id>, cartId: Id, p: Id, d: ItemData)
    requires Indexed(s) && p != "" && WellFormed(d) && d.quantity.Some? && d.quantity.value > 0
    requires d.title.None? || d.title.value == "" || d.price.None? || d.price.value == 0
    requires IndexOfProduct(GetOrCreateCart(s, user, Some(cartId)).result.items, p).None?
    ensures var got := GetOrCreateCart(s, user, Some(cartId));
      UpdateCartItem(s, user, cartId, p, d) == Outcome(got.writes, got.store, Err(UpdateFailed + TitleAndPriceRequired))
  {
    var got := GetOrCreateCart(s, user, Some(cartId));
    assert got.writes + [] == got.writes;
  }

  /**
   * A winning product without a price gets the default price 0, so unless its cart
   * already holds a line for it, `addWinningItemToCart` always fails, with both
   * prefixes before the missing title-and-price error.
   */
  lemma WinningItemWithoutPrice(s: Store, user: Option<Id>, cartId: Id, product: Product, url: string)
    requires Indexed(s) && product.id.Some? && product.id.value != "" && product.image.Some?
    requires product.title.None? || product.title.value == "" || HasVisible(product.title.value)
    requires product.price.None? || product.price.value == 0
    requires IndexOfProduct(GetOrCreateCart(s, user, Some(cartId)).result.items, product.id.value).None?
    ensures var got := GetOrCreateCart(s, user, Some(cartId));
      AddWinningItemToCart(s, user, cartId, product, url) ==
        Outcome(got.writes, got.store, Err(AddFailed + UpdateFailed + TitleAndPriceRequired))
  {
    var d := WinningItem(product, url);
    assert HasVisible("Untitled Product");
    assert WellFormed(d);
    UpdateNeedsTitleAndPrice(s, user, cartId, product.id.value, d);
    assert AddFailed + (UpdateFailed + TitleAndPriceRequired) == AddFailed + UpdateFailed + TitleAndPriceRequired;
  }

  /**
   * Past validation, when the first `getOrCreateCart` settles on a cart, the update
   * is that resolution followed by the same update against the resolved database.
   */
  lemma UpdateAfterResolve(s: Store, user: Option<Id>, cartId: Id, p: Id, d: ItemData)
    requires Valid(s) && p != "" && WellFormed(d) && (user.Some? || Target(s, user, Some(cartId)).Some?)
    ensures var got := GetOrCreateCart(s, user, Some(cartId));
      && Valid(got.store) && Target(got.store, user, Some(cartId)) == Some(got.result.id)
      && var u := UpdateCartItem(got.store, user, cartId, p, d);
         UpdateCartItem(s, user, cartId, p, d) == Outcome(got.writes + u.writes, u.store, u.result)
  {
    var got := GetOrCreateCart(s, user, Some(cartId));
    GetOrCreateCartConsistent(s, user, Some(cartId));
    GetOrCreateSettles(s, user, Some(cartId));
    UpdateFound(got.store, got.result, user, cartId, p, d);
  }

  /** Applying the same update twice leaves the database as applying it once, and returns the same result. */
  lemma UpdateIdempotent(s: Store, user: Option<Id>, cartId: Id, p: Id, d: ItemData)
    requires Valid(s) && (user.Some? || Target(s, user, Some(cartId)).Some?)
    ensures var first := UpdateCartItem(s, user, cartId, p, d);
      && Valid(first.store)
      && var second := UpdateCartItem(first.store, user, cartId, p, d);
         second.store == first.store && second.result == first.result
  {
    UpdateCartItemConsistent(s, user, cartId, p, d);
    if p != "" && WellFormed(d) {
      var got := GetOrCreateCart(s, user, Some(cartId));
      UpdateAfterResolve(s, user, cartId, p, d);
      UpdateFoundIdempotent(got.store, got.result, user, cartId, p, d);
    }
  }

  /** `UpdateIdempotent` once the cart is resolved. */
  lemma UpdateFoundIdempotent(s: Store, cart: Cart, user: Option<Id>, cartId: Id, p: Id, d: ItemData)
    requires Valid(s) && InStore(s, cart) && Target(s, user, Some(cartId)) == Some(cart.id)
    requires p != "" && WellFormed(d)
    ensures var first := UpdateCartItem(s, user, cartId, p, d);
      && Valid(first.store)
      && var second := UpdateCartItem(first.store, user, cartId, p, d);
         second.store == first.store && second.result == first.result
  {
    UpdateCartItemConsistent(s, user, cartId, p, d);
    StoredCartOk(s, cart);
    var k := IndexOfProduct(cart.items, p);
    if d.quantity.None? || (d.quantity == Some(0) && k.None?) {
      UpdateNoOp(s, cart, user, cartId, p, d);
    } else if LineWrites(cart, p, d).Err? {
      UpdateFound(s, cart, user, cartId, p, d);
    } else if d.quantity == Some(0) {
      DeleteTwice(s, cart, user, cartId, p, d);
    } else if k.Some? {
      SetTwice(s, cart, user, cartId, p, d);
    } else {
      AppendTwice(s, cart, user, cartId, p, d);
    }
  }

  /** The second deletion finds no line for the product and writes nothing. */
  lemma DeleteTwice(s: Store, cart: Cart, user: Option<Id>, cartId: Id, p: Id, d: ItemData)
    requires Resolves(s, cart, user, cartId) && IdsDistinct(cart.items) && ProductsUnique(cart.items)
    requires p != "" && WellFormed(d) && d.quantity == Some(0) && IndexOfProduct(cart.items, p).Some?
    ensures var first := UpdateCartItem(s, user, cartId, p, d);
      var second := UpdateCartItem(first.store, user, cartId, p, d);
      second.store == first.store && second.result == first.result
  {
    var k := IndexOfProduct(cart.items, p).value;
    var after := cart.(items := cart.items[..k] + cart.items[k + 1..]);
    var s1 := s.(carts := s.carts[cart.id := after]);
    UpdateZeroDeletes(s, cart, user, cartId, p, d);
    TargetKept(s, s1, user, Some(cartId));
    assert forall j :: 0 <= j < |after.items| ==> after.items[j] == cart.items[if j < k then j else j + 1];
    UpdateNoOp(s1, after, user, cartId, p, d);
  }

  /** The second write of the same quantity finds the same line and leaves it as it is. */
  lemma SetTwice(s: Store, cart: Cart, user: Option<Id>, cartId: Id, p: Id, d: ItemData)
    requires Resolves(s, cart, user, cartId) && IdsDistinct(cart.items)
    requires p != "" && WellFormed(d) && d.quantity.Some? && d.quantity.value > 0
    requires IndexOfProduct(cart.items, p).Some?
    ensures var first := UpdateCartItem(s, user, cartId, p, d);
      var second := UpdateCartItem(first.store, user, cartId, p, d);
      second.store == first.store && second.result == first.result
  {
    var k := IndexOfProduct(cart.items, p).value;
    var q := d.quantity.value;
    var after := cart.(items := cart.items[k := cart.items[k].(quantity := q)]);
    var s1 := s.(carts := s.carts[cart.id := after]);
    UpdatePositiveSets(s, cart, user, cartId, p, d);
    TargetKept(s, s1, user, Some(cartId));
    SameProducts(cart.items, after.items, p, k);
    SetSameQuantity(s1, after, user, cartId, p, d, k);
  }

  /** Writing the quantity a line already has leaves the database and the cart as they are. */
  lemma SetSameQuantity(s: Store, cart: Cart, user: Option<Id>, cartId: Id, p: Id, d: ItemData, k: nat)
    requires Resolves(s, cart, user, cartId) && IdsDistinct(cart.items)
    requires p != "" && WellFormed(d) && d.quantity.Some? && d.quantity.value > 0
    requires IndexOfProduct(cart.items, p) == Some(k) && cart.items[k].quantity == d.quantity.value
    ensures var r := UpdateCartItem(s, user, cartId, p, d);
      r.store == s && r.result == Ok(cart)
  {
    UpdatePositiveSets(s, cart, user, cartId, p, d);
    assert cart.items[k := cart.items[k].(quantity := d.quantity.value)] == cart.items;
    assert s.carts[cart.id := cart] == s.carts;
  }

  /** The second call finds the appended line and writes the quantity it already has. */
  lemma AppendTwice(s: Store, cart: Cart, user: Option<Id>, cartId: Id, p: Id, d: ItemData)
    requires Resolves(s, cart, user, cartId) && IdsDistinct(cart.items)
    requires forall i :: 0 <= i < |cart.items| ==> |cart.items[i].id| <= s.next
    requires p != "" && WellFormed(d) && IndexOfProduct(cart.items, p).None?
    requires d.quantity.Some? && d.quantity.value > 0 && LineWrites(cart, p, d).Ok?
    ensures var first := UpdateCartItem(s, user, cartId, p, d);
      var second := UpdateCartItem(first.store, user, cartId, p, d);
      second.store == first.store && second.result == first.result
  {
    var q := d.quantity.value;
    var line := LineItem(Uuid(s.next), p, Trim(d.title.value), d.price.value, ImageOf(d), q);
    var after := cart.(items := cart.items + [line]);
    var s1 := s.(carts := s.carts[cart.id := after], next := s.next + 1);
    UpdateAppends(s, cart, user, cartId, p, d);
    TargetKept(s, s1, user, Some(cartId));
    var n := |cart.items|;
    SameProducts(cart.items + [line], after.items, p, n);
    AppendFreshId(cart.items, line, s.next);
    SetSameQuantity(s1, after, user, cartId, p, d, n);
  }

  /** Appending a line whose id is longer than every existing one keeps line ids distinct. */
  lemma AppendFreshId(items: seq<LineItem>, line: LineItem, next: nat)
    requires IdsDistinct(items) && |line.id| > next
    requires forall i :: 0 <= i < |items| ==> |items[i].id| <= next
    ensures IdsDistinct(items + [line])
  {
    var all := items + [line];
    forall i, j | 0 <= i < j < |all| ensures all[i].id != all[j].id {
      if j == |items| { assert |all[i].id| <= next; }
    }
  }

  /** Lines with the same product ids, position by position, and the first line for `p` at `k`: `IndexOfProduct` finds `k`. */
  lemma SameProducts(a: seq<LineItem>, b: seq<LineItem>, p: Id, k: nat)
    requires |a| == |b| && forall j :: 0 <= j < |a| ==> a[j].productId == b[j].productId
    requires k < |a| && a[k].productId == p && forall j :: 0 <= j < k ==> a[j].productId != p
    ensures IndexOfProduct(b, p) == Some(k)
  {
  }
}
