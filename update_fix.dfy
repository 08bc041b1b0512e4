/**
 * `updateCartItem` ends by calling `getOrCreateCart(cartId)` again instead of returning
 * the cart it wrote to. Signed out, with an id that names no cart, the first call
 * creates a cart and writes the line into it, and the second call creates another,
 * empty cart, which is what the caller gets. Here: that input, and the update as
 * evidently intended, returning the cart it wrote to.
 */
module UpdateFix {
  import opened Wrappers
  import opened Text
  import opened Repository
  import opened CartActions
  import opened UpdateLemmas

  /** The line `updateCartItem` creates for `p` from `d` when the counter stands at `next`. */
  function NewLineOf(p: Id, d: ItemData, next: nat): LineItem
    requires d.title.Some? && d.price.Some? && d.quantity.Some?
  {
    LineItem(Uuid(next), p, Trim(d.title.value), d.price.value, ImageOf(d), d.quantity.value)
  }

  /**
   * As written, signed out with an unknown id: a cart is created, the line is written
   * into it, then a second cart is created, and that empty cart is what is returned.
   */
  lemma UpdateReturnsOtherCart(s: Store, cartId: Id, p: Id, d: ItemData)
    requires Indexed(s) && cartId != "" && cartId !in s.carts && cartId != Uuid(s.next)
    requires p != "" && WellFormed(d) && d.quantity.Some? && d.quantity.value > 0
    requires d.title.Some? && d.title.value != "" && d.price.Some? && d.price.value != 0
    ensures var l := NewLineOf(p, d, s.next + 1);
      var w := NewLine(Uuid(s.next), p, l.title, l.price, l.image, l.quantity);
      UpdateCartItem(s, None, cartId, p, d) ==
        Outcome([NewCart(None), w, NewCart(None)], Apply(Apply(Apply(s, NewCart(None)), w), NewCart(None)),
                Ok(Cart(Uuid(s.next + 2), None, [])))
  {
    SignedOutCreates(s, cartId);
    var t := Apply(s, NewCart(None));
    var c := Cart(Uuid(s.next), None, []);
    var w := NewLine(c.id, p, Trim(d.title.value), d.price.value, ImageOf(d), d.quantity.value);
    assert LineWrites(c, p, d) == Ok([w]);
    WriteLineCreatesAgain(t, c, cartId, p, d, w);
    assert [NewCart(None)] + [w, NewCart(None)] == [NewCart(None), w, NewCart(None)];
  }

  /**
   * So the update is not idempotent there: signed out, with an id handed out before and
   * since deleted, the same update run twice creates two more carts the second time
   * and returns a different cart each time.
   */
  lemma UpdateTwiceSignedOut(s: Store, cartId: Id, p: Id, d: ItemData)
    requires Indexed(s) && cartId != "" && cartId !in s.carts && |cartId| <= s.next
    requires p != "" && WellFormed(d) && d.quantity.Some? && d.quantity.value > 0
    requires d.title.Some? && d.title.value != "" && d.price.Some? && d.price.value != 0
    ensures var first := UpdateCartItem(s, None, cartId, p, d);
      var second := UpdateCartItem(first.store, None, cartId, p, d);
      && first.store.next == s.next + 3 && second.store.next == first.store.next + 3
      && first.result.Ok? && second.result.Ok? && second.result.value.id != first.result.value.id
      && second.store != first.store
  {
    var first := UpdateCartItem(s, None, cartId, p, d);
    AfterOtherCart(s, cartId, p, d);
    AfterOtherCart(first.store, cartId, p, d);
  }

  /** One such update: the counter moves by three, the id still names no cart, and the second new cart is returned. */
  lemma AfterOtherCart(s: Store, cartId: Id, p: Id, d: ItemData)
    requires Indexed(s) && cartId != "" && cartId !in s.carts && |cartId| <= s.next
    requires p != "" && WellFormed(d) && d.quantity.Some? && d.quantity.value > 0
    requires d.title.Some? && d.title.value != "" && d.price.Some? && d.price.value != 0
    ensures var first := UpdateCartItem(s, None, cartId, p, d);
      && first.store.next == s.next + 3 && cartId !in first.store.carts
      && first.result == Ok(Cart(Uuid(s.next + 2), None, []))
  {
    UpdateReturnsOtherCart(s, cartId, p, d);
    ThreeWrites(s, NewLineOf(p, d, s.next + 1));
  }

  /** The three writes of that update move the counter by three and add only ids longer than any before. */
  lemma ThreeWrites(s: Store, l: LineItem)
    requires l.id == Uuid(s.next + 1)
    ensures var end := Apply(Apply(Apply(s, NewCart(None)), NewLine(Uuid(s.next), l.productId, l.title, l.price, l.image, l.quantity)), NewCart(None));
      && end.next == s.next + 3
      && forall c :: c in end.carts ==> c in s.carts || |c| > s.next
  {
    var s1 := Apply(s, NewCart(None));
    var s2 := Apply(s1, NewLine(Uuid(s.next), l.productId, l.title, l.price, l.image, l.quantity));
    AppliedNewCart(s);
    AppliedNewLine(s1, Uuid(s.next), l);
    AppliedNewCart(s2);
  }

  /** Signed out, with an id that names no cart, `getOrCreateCart` creates an anonymous empty cart. */
  lemma SignedOutCreates(s: Store, cartId: Id)
    requires Indexed(s) && cartId != "" && cartId !in s.carts
    ensures GetOrCreateCart(s, None, Some(cartId)) == Outcome([NewCart(None)], Apply(s, NewCart(None)), Cart(Uuid(s.next), None, []))
  {
  }

  /**
   * After those three writes (`l` being the line written, under the id handed out
   * second) the first cart created holds the new line and the second, the one
   * returned, is empty.
   */
  lemma LineInFirstCart(s: Store, l: LineItem)
    requires l.id == Uuid(s.next + 1)
    ensures var end := Apply(Apply(Apply(s, NewCart(None)), NewLine(Uuid(s.next), l.productId, l.title, l.price, l.image, l.quantity)), NewCart(None));
      end.carts == s.carts[Uuid(s.next) := Cart(Uuid(s.next), None, [l])][Uuid(s.next + 2) := Cart(Uuid(s.next + 2), None, [])]
  {
    var c0 := Uuid(s.next);
    AppliedNewCart(s);
    var s1 := Apply(s, NewCart(None));
    AppliedNewLine(s1, c0, l);
    assert [] + [l] == [l];
    AppliedNewCart(Apply(s1, NewLine(c0, l.productId, l.title, l.price, l.image, l.quantity)));
  }

  /** An anonymous `cart.create`: an empty cart under the next id, and the counter moves on. */
  lemma AppliedNewCart(s: Store)
    ensures Apply(s, NewCart(None)) == Store(s.carts[Uuid(s.next) := Cart(Uuid(s.next), None, [])], s.owners, s.next + 1)
  {
  }

  /** A `cartLineItem.create` into a stored cart appends the line under the next id. */
  lemma AppliedNewLine(t: Store, c: Id, l: LineItem)
    requires c in t.carts && l.id == Uuid(t.next)
    ensures Apply(t, NewLine(c, l.productId, l.title, l.price, l.image, l.quantity)) ==
      Store(t.carts[c := t.carts[c].(items := t.carts[c].items + [l])], t.owners, t.next + 1)
  {
  }

  /** Signed out, after writing `w` into `c`, the reload with an id that names no cart creates another, empty cart. */
  lemma WriteLineCreatesAgain(t: Store, c: Cart, cartId: Id, p: Id, d: ItemData, w: Write)
    requires Indexed(t) && InStore(t, c) && LineWrites(c, p, d) == Ok([w]) && w.NewLine? && w.cartId == c.id
    requires cartId != "" && cartId !in t.carts
    ensures var mid := Apply(t, w);
      WriteLine(t, c, None, cartId, p, d) ==
        Outcome([w, NewCart(None)], Apply(mid, NewCart(None)), Ok(Cart(Uuid(mid.next), None, [])))
  {
    WriteLineReloads(t, c, cartId, p, d, w);
    SignedOutCreates(Apply(t, w), cartId);
    assert [w] + [NewCart(None)] == [w, NewCart(None)];
  }

  /** Signed out, writing the one line `w` and then reloading with an id that names no cart, before the reload is unfolded. */
  lemma WriteLineReloads(t: Store, c: Cart, cartId: Id, p: Id, d: ItemData, w: Write)
    requires Indexed(t) && InStore(t, c) && LineWrites(c, p, d) == Ok([w])
    requires cartId !in t.carts
    ensures var mid := Apply(t, w);
      && Indexed(mid) && cartId !in mid.carts
      && var again := GetOrCreateCart(mid, None, Some(cartId));
         WriteLine(t, c, None, cartId, p, d) == Outcome([w] + again.writes, again.store, Ok(again.result))
  {
    ApplyAllOne(t, w);
    LineWritesFrame(t, c, p, d);
  }

  /** `updateCartItem` as evidently intended: the same checks and writes, returning the cart the line was written to. */
  function UpdateCartItemFixed(s: Store, user: Option<Id>, cartId: Id, p: Id, d: ItemData): (r: Outcome<Result<Cart>>)
    requires Indexed(s)
    ensures Indexed(r.store) && (r.result.Ok? ==> InStore(r.store, r.result.value))
    ensures r.result.Ok? ==> r.result.value.id == GetOrCreateCart(s, user, Some(cartId)).result.id
  {
    if p == "" then Outcome([], s, Err("Product ID is required"))
    else if ValidateCartItemData(d).Err? then Outcome([], s, Err(ValidateCartItemData(d).msg))
    else
      var got := GetOrCreateCart(s, user, Some(cartId));
      match LineWrites(got.result, p, d)
      case Err(e) => Outcome(got.writes, got.store, Err(UpdateFailed + e))
      case Ok(ws) =>
        LineWritesFrame(got.store, got.result, p, d);
        var mid := ApplyAll(got.store, ws);
        Outcome(got.writes + ws, mid, Ok(mid.carts[got.result.id]))
  }

  /** Quantity writes and line deletions keep which product sits at which position before `k`. */
  lemma IndexAfterSet(items: seq<LineItem>, lineId: Id, q: int, p: Id)
    ensures IndexOfProduct(WithQuantity(items, lineId, q), p) == IndexOfProduct(items, p)
  {
    var r := WithQuantity(items, lineId, q);
    assert |r| == |items| && forall i :: 0 <= i < |r| ==> r[i].productId == items[i].productId;
    SameProductIds(items, r, p);
  }

  /** Two line lists with the same product ids, position by position, find a product at the same place. */
  lemma {:induction false} SameProductIds(a: seq<LineItem>, b: seq<LineItem>, p: Id)
    requires |a| == |b| && forall i :: 0 <= i < |a| ==> a[i].productId == b[i].productId
    ensures IndexOfProduct(a, p) == IndexOfProduct(b, p)
    decreases |a|
  {
    if a != [] {
      SameProductIds(a[1..], b[1..], p);
    }
  }

  /** A product absent from `items` is found at the end once a line for it is appended. */
  lemma IndexAfterAppend(items: seq<LineItem>, line: LineItem)
    requires IndexOfProduct(items, line.productId).None?
    ensures IndexOfProduct(items + [line], line.productId) == Some(|items|)
  {
    var all := items + [line];
    assert all[|items|] == line;
    assert forall j :: 0 <= j < |items| ==> all[j] == items[j];
  }

  /**
   * After a successful corrected update with a positive quantity, the returned cart
   * holds a line for the product with exactly that quantity.
   */
  lemma FixedHoldsTheLine(s: Store, user: Option<Id>, cartId: Id, p: Id, d: ItemData)
    requires Indexed(s) && d.quantity.Some? && d.quantity.value > 0
    ensures var r := UpdateCartItemFixed(s, user, cartId, p, d);
      r.result.Ok? ==>
        && IndexOfProduct(r.result.value.items, p).Some?
        && r.result.value.items[IndexOfProduct(r.result.value.items, p).value].quantity == d.quantity.value
  {
    var r := UpdateCartItemFixed(s, user, cartId, p, d);
    if r.result.Ok? {
      var got := GetOrCreateCart(s, user, Some(cartId));
      var cart := got.result;
      var ws := LineWrites(cart, p, d).value;
      var q := d.quantity.value;
      ApplyAllOne(got.store, ws[0]);
      assert ws == [ws[0]];
      match IndexOfProduct(cart.items, p)
      case Some(k) =>
        assert ws[0] == SetQuantity(cart.id, cart.items[k].id, q);
        IndexAfterSet(cart.items, cart.items[k].id, q, p);
      case None =>
        var line := LineItem(Uuid(got.store.next), p, Trim(d.title.value), d.price.value, ImageOf(d), q);
        assert r.result.value.items == cart.items + [line];
        IndexAfterAppend(cart.items, line);
    }
  }

  /**
   * Wherever the written cart is found again (a signed-in user, or an id that names a
   * cart), the corrected update and the update as written are the same.
   */
  lemma FixedAgreesWhenFound(s: Store, user: Option<Id>, cartId: Id, p: Id, d: ItemData)
    requires Valid(s) && (user.Some? || Target(s, user, Some(cartId)).Some?)
    ensures UpdateCartItemFixed(s, user, cartId, p, d) == UpdateCartItem(s, user, cartId, p, d)
  {
    if p != "" && WellFormed(d) {
      var got := GetOrCreateCart(s, user, Some(cartId));
      UpdateAfterResolve(s, user, cartId, p, d);
      FixedAgreesOnResolved(got.store, got.result, user, cartId, p, d);
      FixedAfterResolve(s, user, cartId, p, d, got);
    }
  }

  /** The corrected update, too, is its first resolution followed by the same update against the resolved database. */
  lemma FixedAfterResolve(s: Store, user: Option<Id>, cartId: Id, p: Id, d: ItemData, got: Outcome<Cart>)
    requires Indexed(s) && p != "" && WellFormed(d) && got == GetOrCreateCart(s, user, Some(cartId))
    requires Target(got.store, user, Some(cartId)) == Some(got.result.id)
    ensures var f := UpdateCartItemFixed(got.store, user, cartId, p, d);
      UpdateCartItemFixed(s, user, cartId, p, d) == Outcome(got.writes + f.writes, f.store, f.result)
  {
    FoundIsReturned(got.store, user, Some(cartId));
    assert GetOrCreateCart(got.store, user, Some(cartId)) == Outcome([], got.store, got.result);
    if LineWrites(got.result, p, d).Ok? {
      var ws := LineWrites(got.result, p, d).value;
      assert [] + ws == ws;
    } else {
      assert got.writes + [] == got.writes;
    }
  }

  /** `FixedAgreesWhenFound` once the cart is resolved. */
  lemma FixedAgreesOnResolved(s: Store, cart: Cart, user: Option<Id>, cartId: Id, p: Id, d: ItemData)
    requires Resolves(s, cart, user, cartId) && p != "" && WellFormed(d)
    ensures UpdateCartItemFixed(s, user, cartId, p, d) == UpdateCartItem(s, user, cartId, p, d)
  {
    FoundIsReturned(s, user, Some(cartId));
    UpdateFound(s, cart, user, cartId, p, d);
    assert GetOrCreateCart(s, user, Some(cartId)) == Outcome([], s, cart);
    if LineWrites(cart, p, d).Ok? {
      WriteLineReturnsWritten(s, cart, user, cartId, p, d);
      assert [] + LineWrites(cart, p, d).value == LineWrites(cart, p, d).value;
    }
  }
}
