/**
 * `createCheckoutSession(cartId)` up to the payment provider: the cart it resolves,
 * the two refusals, the lines that may be charged, their total, and the session it
 * asks for (one line per charged item, the metadata, and the shipping option). Money
 * is in whole cents throughout.
 */
module Checkout {
  import opened Wrappers
  import opened Text
  import opened Repository
  import opened CartActions

  /** Orders of at least this many cents ship free ($15). */
  const FreeShippingFrom: int := 1500

  /** The flat shipping fee below that, in cents ($5). */
  const StandardShipping: int := 500

  /** The user id written into the metadata when nobody is signed in. */
  const SignedOutUser: string := "_"

  /** One `line_items` entry: product name, images, unit amount and quantity. */
  datatype CheckoutLine = CheckoutLine(name: string, images: seq<string>, unitAmount: int, quantity: int)

  /** The one shipping option: its amount and its display name. */
  datatype ShippingOption = ShippingOption(amount: int, displayName: string)

  /** What the session is created with. */
  datatype SessionRequest = SessionRequest(lines: seq<CheckoutLine>, cartId: Id, userId: string, shipping: ShippingOption)

  /** The `validItems` test: a title that is not blank, a price of at least 0 and a quantity of at least 1. */
  predicate Chargeable(l: LineItem) {
    !IsBlank(l.title) && l.price >= 0 && l.quantity >= 1
  }

  /** `items.filter(keep)`: the lines `keep` accepts, in order. */
  function Filter(items: seq<LineItem>, keep: LineItem -> bool): (r: seq<LineItem>)
    ensures |r| <= |items|
  {
    if items == [] then []
    else (if keep(items[0]) then [items[0]] else []) + Filter(items[1..], keep)
  }

  /** `validItems`: the chargeable lines, in cart order. */
  function ValidItems(items: seq<LineItem>): seq<LineItem> {
    Filter(items, Chargeable)
  }

  /** `totalPrice`: price times quantity, summed from the left. */
  function Total(items: seq<LineItem>): int {
    if items == [] then 0 else Total(items[..|items| - 1]) + items[|items| - 1].price * items[|items| - 1].quantity
  }

  /** The shipping option for an order total. */
  function ShippingFor(total: int): ShippingOption {
    if total >= FreeShippingFrom then ShippingOption(0, "Free Shipping")
    else ShippingOption(StandardShipping, "Standard Shipping")
  }

  /** One checkout line per item: its title, its image if it has one, its price and its quantity. */
  function LineFor(l: LineItem): CheckoutLine {
    CheckoutLine(l.title, if l.image == "" then [] else [l.image], l.price, l.quantity)
  }

  function LinesFor(items: seq<LineItem>): (r: seq<CheckoutLine>)
    ensures |r| == |items|
  {
    seq(|items|, i requires 0 <= i < |items| => LineFor(items[i]))
  }

  /** `user?.id || "_"`. */
  function UserIdOf(user: Option<Id>): string {
    if user.Some? && user.value != "" then user.value else SignedOutUser
  }

  /** The session asked for once `valid` is known to be non-empty. */
  function RequestFor(valid: seq<LineItem>, cartId: Id, user: Option<Id>): SessionRequest {
    SessionRequest(LinesFor(valid), cartId, UserIdOf(user), ShippingFor(Total(valid)))
  }

  /**
   * `createCheckoutSession(cartId)`: resolve the cart (which may create one), refuse an
   * empty cart, keep the chargeable lines, refuse when none is left, and otherwise
   * describe the session.
   */
  function CreateCheckoutSession(s: Store, user: Option<Id>, cartId: Id): (r: Outcome<Result<SessionRequest>>)
    requires Indexed(s)
    ensures var got := GetOrCreateCart(s, user, Some(cartId));
      && r.writes == got.writes && r.store == got.store
      && (r.result.Ok? ==> r.result.value == RequestFor(ValidItems(got.result.items), cartId, user))
  {
    var got := GetOrCreateCart(s, user, Some(cartId));
    var items := got.result.items;
    if items == [] then Outcome(got.writes, got.store, Err("Cart is empty"))
    else
      var valid := ValidItems(items);
      if valid == [] then Outcome(got.writes, got.store, Err("No valid items in cart"))
      else Outcome(got.writes, got.store, Ok(RequestFor(valid, cartId, user)))
  }

  // The filter.

  /** The filter works piece by piece, so the order of the kept lines is the cart's. */
  lemma {:induction false} FilterAppend(a: seq<LineItem>, b: seq<LineItem>, keep: LineItem -> bool)
    ensures Filter(a + b, keep) == Filter(a, keep) + Filter(b, keep)
    decreases |a|
  {
    if a == [] {
      assert a + b == b;
    } else {
      var ab := a + b;
      assert ab[0] == a[0] && ab[1..] == a[1..] + b;
      FilterAppend(a[1..], b, keep);
      var head := if keep(a[0]) then [a[0]] else [];
      assert Filter(ab, keep) == head + (Filter(a[1..], keep) + Filter(b, keep));
    }
  }

  /** Exactly the accepted lines are kept: a line is in the result if and only if it is in the cart and accepted. */
  lemma {:induction false} FilterExactly(items: seq<LineItem>, keep: LineItem -> bool, l: LineItem)
    ensures l in Filter(items, keep) <==> l in items && keep(l)
    decreases |items|
  {
    if items != [] {
      FilterExactly(items[1..], keep, l);
      assert items == [items[0]] + items[1..];
    }
  }

  /** Every line kept is accepted. */
  lemma {:induction false} FilterKept(items: seq<LineItem>, keep: LineItem -> bool)
    ensures forall i :: 0 <= i < |Filter(items, keep)| ==> keep(Filter(items, keep)[i])
    decreases |items|
  {
    if items != [] {
      FilterKept(items[1..], keep);
    }
  }

  /** When every line is accepted nothing is dropped. */
  lemma {:induction false} FilterAll(items: seq<LineItem>, keep: LineItem -> bool)
    requires forall i :: 0 <= i < |items| ==> keep(items[i])
    ensures Filter(items, keep) == items
    decreases |items|
  {
    if items != [] {
      FilterAll(items[1..], keep);
      assert [items[0]] + items[1..] == items;
    }
  }

  /** Lines as the database stores them are always chargeable, so a stored cart loses nothing to the filter. */
  lemma StoredLinesChargeable(s: Store, cart: Cart)
    requires Repository.Valid(s) && InStore(s, cart)
    ensures ValidItems(cart.items) == cart.items
  {
    forall i | 0 <= i < |cart.items|
      ensures Chargeable(cart.items[i])
    {
      BlankIffInvisible(cart.items[i].title);
    }
    FilterAll(cart.items, Chargeable);
  }

  // The total and the shipping rule.

  /** The total over a concatenation is the sum of the totals. */
  lemma {:induction false} TotalAppend(a: seq<LineItem>, b: seq<LineItem>)
    ensures Total(a + b) == Total(a) + Total(b)
    decreases |b|
  {
    if b == [] {
      assert a + b == a;
    } else {
      var n := |b| - 1;
      assert (a + b)[..|a + b| - 1] == a + b[..n];
      assert (a + b)[|a + b| - 1] == b[n];
      TotalAppend(a, b[..n]);
    }
  }

  /** Lines with no negative price or quantity, chargeable lines among them, never total below zero. */
  lemma {:induction false} TotalNonNegative(items: seq<LineItem>)
    requires forall i :: 0 <= i < |items| ==> items[i].price >= 0 && items[i].quantity >= 0
    ensures Total(items) >= 0
    decreases |items|
  {
    if items != [] {
      var last := items[|items| - 1];
      TotalNonNegative(items[..|items| - 1]);
      assert last.price * last.quantity >= 0;
    }
  }

  /**
   * Shipping is free from $15 on and $5 below; it is free exactly when the displayName says
   * so, and a larger order never pays more shipping than a smaller one.
   */
  lemma ShippingRule(t: int, t': int)
    ensures ShippingFor(t).amount == (if t >= 1500 then 0 else 500)
    ensures ShippingFor(t).amount == 0 <==> ShippingFor(t).displayName == "Free Shipping"
    ensures t <= t' ==> ShippingFor(t').amount <= ShippingFor(t).amount
  {
  }

  // The session.

  /** An empty cart is refused with "Cart is empty", and the session is never asked for. */
  lemma CheckoutRefusesEmpty(s: Store, user: Option<Id>, cartId: Id)
    requires Indexed(s) && GetOrCreateCart(s, user, Some(cartId)).result.items == []
    ensures CreateCheckoutSession(s, user, cartId).result == Err("Cart is empty")
  {
  }

  /** A cart whose lines are all unchargeable is refused with "No valid items in cart". */
  lemma CheckoutRefusesUnchargeable(s: Store, user: Option<Id>, cartId: Id)
    requires Indexed(s)
    requires var items := GetOrCreateCart(s, user, Some(cartId)).result.items;
      items != [] && forall i :: 0 <= i < |items| ==> !Chargeable(items[i])
    ensures CreateCheckoutSession(s, user, cartId).result == Err("No valid items in cart")
  {
    var items := GetOrCreateCart(s, user, Some(cartId)).result.items;
    var valid := ValidItems(items);
    if valid != [] {
      FilterExactly(items, Chargeable, valid[0]);
    }
  }

  /**
   * A session has one line per chargeable cart line, in order, with the same title,
   * unit amount and quantity, and an image list holding the line's image if it has one;
   * shipping is charged on the total of those lines, which is never negative; the
   * metadata carries the cart id as given, and `"_"` for the user exactly when nobody
   * (or an empty id, or `"_"` itself) is signed in.
   */
  lemma SessionLines(valid: seq<LineItem>, cartId: Id, user: Option<Id>)
    requires forall i :: 0 <= i < |valid| ==> Chargeable(valid[i])
    ensures var q := RequestFor(valid, cartId, user);
      && |q.lines| == |valid|
      && (forall i :: 0 <= i < |valid| ==>
            && q.lines[i].name == valid[i].title
            && q.lines[i].unitAmount == valid[i].price
            && q.lines[i].quantity == valid[i].quantity
            && (q.lines[i].images == [] <==> valid[i].image == "")
            && (valid[i].image != "" ==> q.lines[i].images == [valid[i].image]))
      && q.shipping == ShippingFor(Total(valid)) && Total(valid) >= 0
      && q.cartId == cartId
      && (q.userId == "_" <==> user.None? || user.value == "" || user.value == "_")
  {
    TotalNonNegative(valid);
  }

  /** A session is asked for exactly when the resolved cart has a chargeable line. */
  lemma CheckoutAsksWhenChargeable(s: Store, user: Option<Id>, cartId: Id)
    requires Indexed(s)
    ensures var items := GetOrCreateCart(s, user, Some(cartId)).result.items;
      CreateCheckoutSession(s, user, cartId).result.Ok? <==> exists i :: 0 <= i < |items| && Chargeable(items[i])
  {
    var items := GetOrCreateCart(s, user, Some(cartId)).result.items;
    var valid := ValidItems(items);
    if valid != [] {
      FilterExactly(items, Chargeable, valid[0]);
      var i :| 0 <= i < |items| && items[i] == valid[0];
    }
    if i :| 0 <= i < |items| && Chargeable(items[i]) {
      FilterExactly(items, Chargeable, items[i]);
    }
  }

  /** From a consistent database, a cart with lines always reaches the session: "No valid items in cart" cannot happen. */
  lemma CheckoutOfStoredCart(s: Store, user: Option<Id>, cartId: Id)
    requires Repository.Valid(s)
    ensures var r := CreateCheckoutSession(s, user, cartId);
      var got := GetOrCreateCart(s, user, Some(cartId));
      && (got.result.items == [] <==> r.result == Err("Cart is empty"))
      && (r.result.Ok? <==> got.result.items != [])
      && (r.result.Ok? ==> |r.result.value.lines| == |got.result.items|)
  {
    var got := GetOrCreateCart(s, user, Some(cartId));
    GetOrCreateCartConsistent(s, user, Some(cartId));
    StoredLinesChargeable(got.store, got.result);
  }
}
