/**
 * The server cart actions as they run: a repository object whose tables (`carts`,
 * the owner index, the id counter) each write updates in place, and the actions as
 * methods issuing those writes one at a time. Every method is proved to leave the
 * tables, and to return, exactly what the corresponding function of `CartActions`
 * describes, so every lemma about those functions holds of the methods.
 */
module CartService {
  import opened Wrappers
  import opened Text
  import opened Repository
  import opened MergeLoop
  import opened CartActions

  class CartRepository {
    var carts: map<Id, Cart>
    var owners: map<Id, Id>
    var next: nat

    /** The tables as a value. */
    function State(): Store
      reads this
    {
      Store(carts, owners, next)
    }

    constructor ()
      ensures State() == EmptyStore
    {
      carts, owners, next := map[], map[], 0;
    }

    /** One database write (`cart.create`, `cartLineItem.create/update/delete`, `cart.update`, `cart.delete`). */
    method Issue(w: Write)
      modifies this
      ensures State() == Apply(old(State()), w)
    {
      match w
      case NewCart(owner) =>
        var id := Uuid(next);
        carts := carts[id := Cart(id, owner, [])];
        if owner.Some? {
          owners := owners[owner.value := id];
        }
        next := next + 1;
      case NewLine(c, p, t, pr, img, q) =>
        if c in carts {
          carts := carts[c := carts[c].(items := carts[c].items + [LineItem(Uuid(next), p, t, pr, img, q)])];
          next := next + 1;
        }
      case SetQuantity(c, l, q) =>
        if c in carts {
          carts := carts[c := carts[c].(items := WithQuantity(carts[c].items, l, q))];
        }
      case DropLine(c, l) =>
        if c in carts {
          carts := carts[c := carts[c].(items := WithoutLine(carts[c].items, l))];
        }
      case Connect(c, u) =>
        if c in carts {
          var cart := carts[c];
          if cart.owner.Some? {
            owners := owners - {cart.owner.value};
          }
          carts := carts[c := cart.(owner := Some(u))];
          owners := owners[u := c];
        }
      case DropCart(c) =>
        if c in carts {
          var cart := carts[c];
          carts := carts - {c};
          if cart.owner.Some? {
            owners := owners - {cart.owner.value};
          }
        }
    }

    /** `createCart`. */
    method CreateCart(user: Option<Id>) returns (cart: Cart)
      requires Indexed(State()) && NoOwnedCart(State(), user)
      modifies this
      ensures var r := CartActions.CreateCart(old(State()), user);
        State() == r.store && cart == r.result
    {
      Issue(NewCart(user));
      cart := carts[Uuid(next - 1)];
    }

    /** `getOrCreateCart(cartId)`. */
    method GetOrCreateCart(user: Option<Id>, cartId: Option<Id>) returns (cart: Cart)
      requires Indexed(State())
      modifies this
      ensures var r := CartActions.GetOrCreateCart(old(State()), user, cartId);
        State() == r.store && cart == r.result
    {
      if user.Some? && user.value in owners {
        cart := carts[owners[user.value]];
      } else if !Given(cartId) || cartId.value !in carts {
        cart := CreateCart(user);
      } else {
        cart := carts[cartId.value];
      }
    }

    /** `updateCartItem(cartId, sanityProductId, data)`; a thrown error is an `Err`. */
    method UpdateCartItem(user: Option<Id>, cartId: Id, p: Id, d: ItemData) returns (result: Result<Cart>)
      requires Indexed(State())
      modifies this
      ensures var r := CartActions.UpdateCartItem(old(State()), user, cartId, p, d);
        State() == r.store && result == r.result
    {
      ghost var s0 := State();
      if p == "" {
        return Err("Product ID is required");
      }
      var checked := ValidateCartItemData(d);
      if checked.Err? {
        return Err(checked.msg);
      }
      var cart := GetOrCreateCart(user, Some(cartId));
      ghost var got := CartActions.GetOrCreateCart(s0, user, Some(cartId));
      result := WriteLine(cart, user, cartId, p, d);
      assert CartActions.UpdateCartItem(s0, user, cartId, p, d) ==
        var w := CartActions.WriteLine(got.store, got.result, user, cartId, p, d);
        Outcome(got.writes + w.writes, w.store, w.result);
    }

    /** The `try` block of `updateCartItem` on the cart it resolved, then the reload through `getOrCreateCart(cartId)`. */
    method WriteLine(cart: Cart, user: Option<Id>, cartId: Id, p: Id, d: ItemData) returns (result: Result<Cart>)
      requires Indexed(State()) && InStore(State(), cart)
      modifies this
      ensures var r := CartActions.WriteLine(old(State()), cart, user, cartId, p, d);
        State() == r.store && result == r.result
    {
      ghost var t := State();
      match IndexOfProduct(cart.items, p) {
        case Some(k) =>
          if d.quantity == Some(0) {
            Issue(DropLine(cart.id, cart.items[k].id));
          } else if d.quantity.Some? && d.quantity.value > 0 {
            Issue(SetQuantity(cart.id, cart.items[k].id, d.quantity.value));
          }
        case None =>
          if d.quantity.Some? && d.quantity.value > 0 {
            if d.title.None? || d.title.value == "" || d.price.None? || d.price.value == 0 {
              return Err(UpdateFailed + TitleAndPriceRequired);
            }
            Issue(NewLine(cart.id, p, Trim(d.title.value), d.price.value, ImageOf(d), d.quantity.value));
          }
      }
      ghost var ws := LineWrites(cart, p, d).value;
      assert State() == ApplyAll(t, ws) by {
        if ws != [] {
          ApplyAllOne(t, ws[0]);
          assert ws == [ws[0]];
        }
      }
      LineWritesFrame(t, cart, p, d);
      var again := GetOrCreateCart(user, Some(cartId));
      result := Ok(again);
    }

    /** `addWinningItemToCart(cartId, product)`: the product's fields with their defaults, through `updateCartItem`. */
    method AddWinningItemToCart(user: Option<Id>, cartId: Id, product: Product, url: string) returns (result: Result<()>)
      requires Indexed(State())
      modifies this
      ensures var r := CartActions.AddWinningItemToCart(old(State()), user, cartId, product, url);
        State() == r.store && result == r.result
    {
      if product.id.None? || product.id.value == "" {
        return Err("Invalid product data");
      }
      if product.image.None? {
        return Err("Product image is required");
      }
      var updated := UpdateCartItem(user, cartId, product.id.value, WinningItem(product, url));
      match updated
      case Err(e) => result := Err(AddFailed + e);
      case Ok(_) => result := Ok(());
    }

    /**
     * `syncCartWithUser(cartId)`: the decision table, and on the merge path one write
     * per anonymous line (looked up with the callback as written), then the deletion of
     * the anonymous cart.
     */
    method SyncCartWithUser(user: Option<Id>, cartId: Option<Id>) returns (result: Option<Cart>)
      requires Valid(State())
      modifies this
      ensures var r := CartActions.SyncCartWithUser(old(State()), user, cartId);
        State() == r.store && result == r.result
    {
      ghost var s0 := State();
      if user.None? {
        return None;
      }
      var u := user.value;
      var owned := if u in owners then Some(carts[owners[u]]) else None;
      var anon := if Given(cartId) && cartId.value in carts then Some(carts[cartId.value]) else None;
      if !Given(cartId) && owned.Some? {
        return owned;
      }
      if !Given(cartId) || (anon.None? && owned.None?) {
        var created := CreateCart(user);
        return Some(created);
      }
      if owned.Some? && owned.value.id == cartId.value {
        return owned;
      }
      if owned.None? {
        Issue(Connect(cartId.value, u));
        return Some(carts[cartId.value]);
      }
      if anon.None? {
        return owned;
      }
      result := Merge(u, owned.value, anon.value);
    }

    /** The merge path of `syncCartWithUser`: the loop over the anonymous lines, the deletion, and the reload. */
    method Merge(u: Id, mine: Cart, theirs: Cart) returns (result: Option<Cart>)
      requires MergeReady(State(), u, mine, theirs)
      modifies this
      ensures var r := CartActions.Merge(old(State()), u, mine, theirs);
        State() == r.store && result == r.result
    {
      ghost var s0 := State();
      MergeLines(mine, theirs);
      ghost var looped := State();
      Issue(DropCart(theirs.id));
      ApplyAllAppend(s0, MergeWrites(mine, theirs.items), [DropCart(theirs.id)]);
      ApplyAllOne(looped, DropCart(theirs.id));
      MergeEnd(s0, u, mine, theirs);
      var merged := GetOrCreateCart(Some(u), Some(mine.id));
      result := Some(merged);
    }

    /**
     * The `for` loop of the merge: for each anonymous line, look up the owned cart's
     * lines as read before the loop with the callback as written, and add to the line
     * found or create a copy.
     */
    method MergeLines(mine: Cart, theirs: Cart)
      modifies this
      ensures State() == ApplyAll(old(State()), MergeWrites(mine, theirs.items))
    {
      ghost var s0 := State();
      for i := 0 to |theirs.items|
        invariant State() == ApplyAll(s0, MergeWrites(mine, theirs.items[..i]))
      {
        var item := theirs.items[i];
        ghost var before := State();
        var existing := FindFirst(mine.items, SelfMatch());
        match existing {
          case Some(e) =>
            Issue(SetQuantity(mine.id, e.id, e.quantity + item.quantity));
          case None =>
            Issue(NewLine(mine.id, item.productId, item.title, item.price, item.image, item.quantity));
        }
        MergeStep(s0, mine, theirs.items, i, before, State());
      }
      assert theirs.items[..|theirs.items|] == theirs.items;
    }
  }

  /** The merge loop's step: issuing the write for line `i` extends the writes issued so far by one. */
  lemma MergeStep(s0: Store, owned: Cart, items: seq<LineItem>, i: nat, before: Store, after: Store)
    requires i < |items| && before == ApplyAll(s0, MergeWrites(owned, items[..i]))
    requires after == Apply(before, MergeWrite(owned, items[i]))
    ensures after == ApplyAll(s0, MergeWrites(owned, items[..i + 1]))
  {
    assert MergeWrites(owned, items[..i + 1]) == MergeWrites(owned, items[..i]) + [MergeWrite(owned, items[i])];
    ApplyAllAppend(s0, MergeWrites(owned, items[..i]), [MergeWrite(owned, items[i])]);
    ApplyAllOne(before, MergeWrite(owned, items[i]));
  }

  /** `updateCartItem` keeps the database invariant. */
  lemma UpdateCartItemKeepsValid(s: Store, user: Option<Id>, cartId: Id, p: Id, d: ItemData)
    requires Indexed(s)
    ensures Valid(s) ==> Valid(CartActions.UpdateCartItem(s, user, cartId, p, d).store)
  {
    if Valid(s) {
      UpdateCartItemConsistent(s, user, cartId, p, d);
    }
  }
}
