/**
 * The cart database as the server actions see it: carts keyed by id, each with
 * its line items, an index from a signed-in user to the one cart that user owns,
 * and the writes the actions issue against it (`cart.create`, `cart.update`,
 * `cart.delete`, `cartLineItem.create/update/delete`).
 */
module Repository {
  import opened Wrappers
  import opened Text

  type Id = string

  /**
   * The n-th generated identifier (a stand-in for `crypto.randomUUID()`).
   * Ids drawn from a counter that only grows never repeat, because the n-th one
   * is longer than every id handed out before it.
   */
  function Uuid(n: nat): (id: Id)
    ensures |id| == n + 1
  {
    seq(n + 1, _ => 'u')
  }

  /** A `CartLineItem` row. `productId` is the Sanity product reference (`sanityProductId`). */
  datatype LineItem = LineItem(id: Id, productId: Id, title: string, price: int, image: string, quantity: int)

  /** A `Cart` row together with its line items, in the order the database lists them. */
  datatype Cart = Cart(id: Id, owner: Option<Id>, items: seq<LineItem>)

  /** The whole database: carts by id, the owner index, and the id counter. */
  datatype Store = Store(carts: map<Id, Cart>, owners: map<Id, Id>, next: nat)

  const EmptyStore: Store := Store(map[], map[], 0)

  /** One database write, as the server actions issue them. */
  datatype Write =
    | NewCart(owner: Option<Id>)
    | NewLine(cartId: Id, productId: Id, title: string, price: int, image: string, quantity: int)
    | SetQuantity(cartId: Id, lineId: Id, quantity: int)
    | DropLine(cartId: Id, lineId: Id)
    | Connect(cartId: Id, userId: Id)
    | DropCart(cartId: Id)

  /** `items.find(item => item.sanityProductId === p)`, as the index of the first match. */
  function IndexOfProduct(items: seq<LineItem>, p: Id): (r: Option<nat>)
    ensures r.Some? ==> r.value < |items| && items[r.value].productId == p
    ensures r.Some? ==> forall j :: 0 <= j < r.value ==> items[j].productId != p
    ensures r.None? ==> forall j :: 0 <= j < |items| ==> items[j].productId != p
  {
    if items == [] then None
    else if items[0].productId == p then Some(0)
    else match IndexOfProduct(items[1..], p)
      case None => None
      case Some(k) => Some(k + 1)
  }

  /** The lines after `cartLineItem.update({ where: { id: lineId }, data: { quantity: q } })`. */
  function WithQuantity(items: seq<LineItem>, lineId: Id, q: int): (r: seq<LineItem>)
  {
    seq(|items|, i requires 0 <= i < |items| => if items[i].id == lineId then items[i].(quantity := q) else items[i])
  }

  /** Updating a line whose id occurs once changes that position's quantity and nothing else. */
  lemma WithQuantityAt(items: seq<LineItem>, k: nat, q: int)
    requires k < |items|
    requires forall i :: 0 <= i < |items| && i != k ==> items[i].id != items[k].id
    ensures WithQuantity(items, items[k].id, q) == items[k := items[k].(quantity := q)]
  {
  }

  /** Writing the quantity a line already has changes nothing. */
  lemma WithQuantitySame(items: seq<LineItem>, k: nat)
    requires k < |items|
    requires forall i :: 0 <= i < |items| && i != k ==> items[i].id != items[k].id
    ensures WithQuantity(items, items[k].id, items[k].quantity) == items
  {
    WithQuantityAt(items, k, items[k].quantity);
    assert items[k := items[k].(quantity := items[k].quantity)] == items;
  }

  /** The lines after `cartLineItem.delete({ where: { id: lineId } })`, the others kept in order. */
  function WithoutLine(items: seq<LineItem>, lineId: Id): (r: seq<LineItem>)
    ensures |r| <= |items|
  {
    if items == [] then []
    else (if items[0].id == lineId then [] else [items[0]]) + WithoutLine(items[1..], lineId)
  }

  /** Deleting a line whose id occurs once removes exactly that position. */
  lemma {:induction false} WithoutUniqueLine(items: seq<LineItem>, lineId: Id, k: nat)
    requires k < |items| && items[k].id == lineId
    requires forall i :: 0 <= i < |items| && i != k ==> items[i].id != lineId
    ensures WithoutLine(items, lineId) == items[..k] + items[k + 1..]
  {
    if k == 0 {
      WithoutAbsentLine(items[1..], lineId);
    } else {
      WithoutUniqueLine(items[1..], lineId, k - 1);
      assert items[1..][..k - 1] == items[1..k];
      assert items[1..][k..] == items[k + 1..];
      assert items[..k] == [items[0]] + items[1..k];
    }
  }

  /** Deleting an id that no line carries changes nothing. */
  lemma {:induction false} WithoutAbsentLine(items: seq<LineItem>, lineId: Id)
    requires forall i :: 0 <= i < |items| ==> items[i].id != lineId
    ensures WithoutLine(items, lineId) == items
  {
    if items != [] {
      WithoutAbsentLine(items[1..], lineId);
    }
  }

  /** The database after one write. A write aimed at a cart that does not exist changes nothing. */
  function Apply(s: Store, w: Write): Store
  {
    match w
    case NewCart(owner) =>
      var id := Uuid(s.next);
      Store(s.carts[id := Cart(id, owner, [])],
            if owner.Some? then s.owners[owner.value := id] else s.owners,
            s.next + 1)
    case NewLine(c, p, t, pr, img, q) =>
      if c !in s.carts then s
      else
        var line := LineItem(Uuid(s.next), p, t, pr, img, q);
        Store(s.carts[c := s.carts[c].(items := s.carts[c].items + [line])], s.owners, s.next + 1)
    case SetQuantity(c, l, q) =>
      if c !in s.carts then s
      else s.(carts := s.carts[c := s.carts[c].(items := WithQuantity(s.carts[c].items, l, q))])
    case DropLine(c, l) =>
      if c !in s.carts then s
      else s.(carts := s.carts[c := s.carts[c].(items := WithoutLine(s.carts[c].items, l))])
    case Connect(c, u) =>
      if c !in s.carts then s
      else
        var cart := s.carts[c];
        var released := if cart.owner.Some? then s.owners - {cart.owner.value} else s.owners;
        Store(s.carts[c := cart.(owner := Some(u))], released[u := c], s.next)
    case DropCart(c) =>
      if c !in s.carts then s
      else
        var cart := s.carts[c];
        Store(s.carts - {c}, if cart.owner.Some? then s.owners - {cart.owner.value} else s.owners, s.next)
  }

  /** The database after a sequence of writes, issued in order. */
  function ApplyAll(s: Store, ws: seq<Write>): Store
    decreases |ws|
  {
    if ws == [] then s else ApplyAll(Apply(s, ws[0]), ws[1..])
  }

  /** Issuing a single write. */
  lemma ApplyAllOne(s: Store, w: Write)
    ensures ApplyAll(s, [w]) == Apply(s, w)
  {
    assert [w][1..] == [];
  }

  /** Issuing `a` and then `b` is issuing `a + b`. */
  lemma {:induction false} ApplyAllAppend(s: Store, a: seq<Write>, b: seq<Write>)
    ensures ApplyAll(s, a + b) == ApplyAll(ApplyAll(s, a), b)
    decreases |a|
  {
    if a == [] {
      assert a + b == b;
    } else {
      assert (a + b)[0] == a[0];
      assert (a + b)[1..] == a[1..] + b;
      calc {
        ApplyAll(s, a + b);
        ApplyAll(Apply(s, a[0]), a[1..] + b);
        { ApplyAllAppend(Apply(s, a[0]), a[1..], b); }
        ApplyAll(ApplyAll(Apply(s, a[0]), a[1..]), b);
      }
    }
  }

  /** Lines with pairwise different product ids: at most one line per product. */
  predicate ProductsUnique(items: seq<LineItem>) {
    forall i, j :: 0 <= i < j < |items| ==> items[i].productId != items[j].productId
  }

  /** No two lines share a line id. */
  ghost predicate IdsDistinct(items: seq<LineItem>) {
    forall i, j :: 0 <= i < j < |items| ==> items[i].id != items[j].id
  }

  /** What a valid database guarantees of one stored cart: the lookups work, line ids are distinct and already handed out. */
  lemma StoredCartOk(s: Store, cart: Cart)
    requires Valid(s) && InStore(s, cart)
    ensures Indexed(s) && ProductsUnique(cart.items) && IdsDistinct(cart.items)
    ensures forall i :: 0 <= i < |cart.items| ==> |cart.items[i].id| <= s.next
  {
    assert LinesOk(cart.items, s.next);
  }

  /** Deleting the line at `k` of a stored cart with distinct line ids removes exactly that position. */
  lemma ApplyDropAt(s: Store, cart: Cart, k: nat)
    requires InStore(s, cart) && k < |cart.items| && IdsDistinct(cart.items)
    ensures ApplyAll(s, [DropLine(cart.id, cart.items[k].id)]) ==
            s.(carts := s.carts[cart.id := cart.(items := cart.items[..k] + cart.items[k + 1..])])
  {
    ApplyAllOne(s, DropLine(cart.id, cart.items[k].id));
    assert forall i :: 0 <= i < |cart.items| && i != k ==> cart.items[i].id != cart.items[k].id by {
      forall i | 0 <= i < |cart.items| && i != k ensures cart.items[i].id != cart.items[k].id {
        if i < k { assert cart.items[i].id != cart.items[k].id; } else { assert cart.items[k].id != cart.items[i].id; }
      }
    }
    WithoutUniqueLine(cart.items, cart.items[k].id, k);
  }

  /** Setting the quantity of the line at `k` of a stored cart with distinct line ids changes only that position. */
  lemma ApplySetAt(s: Store, cart: Cart, k: nat, q: int)
    requires InStore(s, cart) && k < |cart.items| && IdsDistinct(cart.items)
    ensures ApplyAll(s, [SetQuantity(cart.id, cart.items[k].id, q)]) ==
            s.(carts := s.carts[cart.id := cart.(items := cart.items[k := cart.items[k].(quantity := q)])])
  {
    ApplyAllOne(s, SetQuantity(cart.id, cart.items[k].id, q));
    assert forall i :: 0 <= i < |cart.items| && i != k ==> cart.items[i].id != cart.items[k].id by {
      forall i | 0 <= i < |cart.items| && i != k ensures cart.items[i].id != cart.items[k].id {
        if i < k { assert cart.items[i].id != cart.items[k].id; } else { assert cart.items[k].id != cart.items[i].id; }
      }
    }
    WithQuantityAt(cart.items, k, q);
  }

  /** The cart `cart` is stored in `s` as it is. */
  predicate InStore(s: Store, cart: Cart) {
    cart.id in s.carts && s.carts[cart.id] == cart
  }

  /**
   * The part of `Valid` the lookups need: every cart is stored under its own id,
   * and every entry of the owner index names a stored cart.
   */
  ghost predicate Indexed(s: Store) {
    && (forall c :: c in s.carts ==> s.carts[c].id == c)
    && (forall u :: u in s.owners ==> s.owners[u] in s.carts)
  }

  /** A line as every write path leaves it: positive quantity, a truthy price, a title that is not blank. */
  ghost predicate Stored(l: LineItem) {
    l.quantity >= 1 && l.price > 0 && HasVisible(l.title)
  }

  /** The lines of one cart: one line per product, distinct line ids, ids already handed out. */
  ghost predicate LinesOk(items: seq<LineItem>, next: nat) {
    && (forall i, j :: 0 <= i < j < |items| ==> items[i].productId != items[j].productId)
    && (forall i, j :: 0 <= i < j < |items| ==> items[i].id != items[j].id)
    && (forall i :: 0 <= i < |items| ==> |items[i].id| <= next && Stored(items[i]))
  }

  /**
   * The database invariant: each cart is stored under its own id, ids come from the
   * counter, lines are unique per product, and at most one cart has a given owner
   * (the owner index and the carts' owner fields agree).
   */
  ghost predicate Valid(s: Store) {
    && (forall c :: c in s.carts ==> s.carts[c].id == c && 0 < |c| <= s.next && LinesOk(s.carts[c].items, s.next))
    && (forall u :: u in s.owners ==> s.owners[u] in s.carts && s.carts[s.owners[u]].owner == Some(u))
    && (forall c :: c in s.carts && s.carts[c].owner.Some? ==>
          s.carts[c].owner.value in s.owners && s.owners[s.carts[c].owner.value] == c)
  }

  /** What a write needs in order to keep the invariant (the actions only issue such writes). */
  ghost predicate Allowed(s: Store, w: Write) {
    match w
    case NewCart(owner) => owner.Some? ==> owner.value !in s.owners
    case NewLine(c, p, t, pr, img, q) =>
      c in s.carts ==> IndexOfProduct(s.carts[c].items, p).None? && Stored(LineItem(Uuid(s.next), p, t, pr, img, q))
    case SetQuantity(_, _, q) => q >= 1
    case DropLine(_, _) => true
    case Connect(_, u) => u !in s.owners
    case DropCart(_) => true
  }

  /** Ids stored in a valid database are all shorter than the next generated one. */
  lemma FreshIdIsNew(s: Store)
    requires Valid(s)
    ensures Uuid(s.next) !in s.carts
  {
  }

  lemma {:induction false} LinesOkWider(items: seq<LineItem>, next: nat, next': nat)
    requires LinesOk(items, next) && next <= next'
    ensures LinesOk(items, next')
  {
  }

  lemma {:induction false} LinesOkAppend(items: seq<LineItem>, next: nat, line: LineItem)
    requires LinesOk(items, next)
    requires line.id == Uuid(next) && Stored(line)
    requires forall j :: 0 <= j < |items| ==> items[j].productId != line.productId
    ensures LinesOk(items + [line], next + 1)
  {
    var r := items + [line];
    forall i, j | 0 <= i < j < |r| ensures r[i].id != r[j].id {
      if j == |items| {
        assert |r[i].id| <= next;
      }
    }
  }

  lemma {:induction false} LinesOkWithQuantity(items: seq<LineItem>, next: nat, l: Id, q: int)
    requires LinesOk(items, next) && q >= 1
    ensures LinesOk(WithQuantity(items, l, q), next)
  {
    var r := WithQuantity(items, l, q);
    forall i | 0 <= i < |r|
      ensures r[i].id == items[i].id && r[i].productId == items[i].productId
      ensures r[i].title == items[i].title && r[i].price == items[i].price
      ensures r[i].quantity == items[i].quantity || r[i].quantity == q
    {
    }
    forall i | 0 <= i < |r| ensures |r[i].id| <= next && Stored(r[i]) {
      assert Stored(items[i]);
    }
  }

  lemma {:induction false} LinesOkRemoveAt(items: seq<LineItem>, next: nat, k: nat)
    requires LinesOk(items, next) && k < |items|
    ensures LinesOk(items[..k] + items[k + 1..], next)
  {
    var r := items[..k] + items[k + 1..];
    forall i | 0 <= i < |r| ensures r[i] == items[if i < k then i else i + 1] {
    }
  }

  lemma {:induction false} LinesOkWithout(items: seq<LineItem>, next: nat, l: Id)
    requires LinesOk(items, next)
    ensures LinesOk(WithoutLine(items, l), next)
  {
    if k: nat :| k < |items| && items[k].id == l {
      WithoutUniqueLine(items, l, k);
      LinesOkRemoveAt(items, next, k);
    } else {
      WithoutAbsentLine(items, l);
    }
  }

  /** Moving the counter forward keeps the invariant. */
  lemma ValidBump(s: Store, next': nat)
    requires Valid(s) && s.next <= next'
    ensures Valid(s.(next := next'))
  {
    forall c | c in s.carts ensures LinesOk(s.carts[c].items, next') {
      LinesOkWider(s.carts[c].items, s.next, next');
    }
  }

  /** Replacing the lines of one cart by lines that are themselves fine keeps the invariant. */
  lemma ValidReplaceLines(s: Store, c: Id, items: seq<LineItem>)
    requires Valid(s) && c in s.carts && LinesOk(items, s.next)
    ensures Valid(s.(carts := s.carts[c := s.carts[c].(items := items)]))
  {
    var s' := s.(carts := s.carts[c := s.carts[c].(items := items)]);
    forall d | d in s'.carts ensures s'.carts[d].owner == s.carts[d].owner {
    }
  }

  lemma ValidNewCart(s: Store, owner: Option<Id>)
    requires Valid(s) && (owner.Some? ==> owner.value !in s.owners)
    ensures Valid(Apply(s, NewCart(owner)))
  {
    FreshIdIsNew(s);
    var id := Uuid(s.next);
    var b := s.(next := s.next + 1);
    var s' := Apply(s, NewCart(owner));
    assert s' == b.(carts := b.carts[id := Cart(id, owner, [])],
                    owners := if owner.Some? then s.owners[owner.value := id] else s.owners);
    forall d | d in s'.carts ensures s'.carts[d].id == d && 0 < |d| <= s'.next && LinesOk(s'.carts[d].items, s'.next) {
      if d != id {
        LinesOkWider(s.carts[d].items, s.next, s'.next);
      }
    }
    forall v | v in s'.owners ensures s'.owners[v] in s'.carts && s'.carts[s'.owners[v]].owner == Some(v) {
      if owner.Some? && v == owner.value {
      } else {
        assert v in s.owners && s.owners[v] != id;
      }
    }
    forall d | d in s'.carts && s'.carts[d].owner.Some?
      ensures s'.carts[d].owner.value in s'.owners && s'.owners[s'.carts[d].owner.value] == d
    {
      if d != id {
        assert s.carts[d].owner.value in s.owners;
      }
    }
  }

  lemma ValidNewLine(s: Store, c: Id, p: Id, t: string, pr: int, img: string, q: int)
    requires Valid(s) && Allowed(s, NewLine(c, p, t, pr, img, q))
    ensures Valid(Apply(s, NewLine(c, p, t, pr, img, q)))
  {
    if c in s.carts {
      var line := LineItem(Uuid(s.next), p, t, pr, img, q);
      LinesOkAppend(s.carts[c].items, s.next, line);
      ValidBump(s, s.next + 1);
      var b := s.(next := s.next + 1);
      ValidReplaceLines(b, c, s.carts[c].items + [line]);
      assert Apply(s, NewLine(c, p, t, pr, img, q)) == b.(carts := b.carts[c := b.carts[c].(items := s.carts[c].items + [line])]);
    }
  }

  lemma ValidConnect(s: Store, c: Id, u: Id)
    requires Valid(s) && u !in s.owners
    ensures Valid(Apply(s, Connect(c, u)))
  {
    if c in s.carts {
      ConnectedValid(s, c, u);
      assert Apply(s, Connect(c, u)) == Connected(s, c, u);
    }
  }

  /** The database a `Connect(c, u)` write leaves when cart `c` is stored. */
  function Connected(s: Store, c: Id, u: Id): Store
    requires c in s.carts
  {
    var cart := s.carts[c];
    var released := if cart.owner.Some? then s.owners - {cart.owner.value} else s.owners;
    Store(s.carts[c := cart.(owner := Some(u))], released[u := c], s.next)
  }

  /** `ValidConnect` for a stored cart: each part of the invariant in turn. */
  lemma ConnectedValid(s: Store, c: Id, u: Id)
    requires Valid(s) && u !in s.owners && c in s.carts
    ensures Valid(Connected(s, c, u))
  {
    ConnectedOwners(s, c, u);
    ConnectedOwnedCarts(s, c, u);
  }

  lemma ConnectedOwners(s: Store, c: Id, u: Id)
    requires Valid(s) && u !in s.owners && c in s.carts
    ensures var s' := Connected(s, c, u);
      forall v :: v in s'.owners ==> s'.owners[v] in s'.carts && s'.carts[s'.owners[v]].owner == Some(v)
  {
    var s' := Connected(s, c, u);
    forall v | v in s'.owners ensures s'.owners[v] in s'.carts && s'.carts[s'.owners[v]].owner == Some(v) {
      if v != u {
        assert v in s.owners && s.owners[v] != c;
      }
    }
  }

  lemma ConnectedOwnedCarts(s: Store, c: Id, u: Id)
    requires Valid(s) && u !in s.owners && c in s.carts
    ensures var s' := Connected(s, c, u);
      forall d :: d in s'.carts && s'.carts[d].owner.Some? ==>
        s'.carts[d].owner.value in s'.owners && s'.owners[s'.carts[d].owner.value] == d
  {
    var s' := Connected(s, c, u);
    forall d | d in s'.carts && s'.carts[d].owner.Some?
      ensures s'.carts[d].owner.value in s'.owners && s'.owners[s'.carts[d].owner.value] == d
    {
      if d != c {
        var o := s.carts[d].owner.value;
        assert o in s.owners && s.owners[o] == d;
        assert o != u;
      }
    }
  }

  lemma ValidDropCart(s: Store, c: Id)
    requires Valid(s)
    ensures Valid(Apply(s, DropCart(c)))
  {
  }

  /** Every write the actions issue keeps the database invariant. */
  lemma ApplyValid(s: Store, w: Write)
    requires Valid(s) && Allowed(s, w)
    ensures Valid(Apply(s, w))
  {
    match w
    case NewCart(owner) => ValidNewCart(s, owner);
    case NewLine(c, p, t, pr, img, q) => ValidNewLine(s, c, p, t, pr, img, q);
    case SetQuantity(c, l, q) =>
      if c in s.carts {
        LinesOkWithQuantity(s.carts[c].items, s.next, l, q);
        ValidReplaceLines(s, c, WithQuantity(s.carts[c].items, l, q));
      }
    case DropLine(c, l) =>
      if c in s.carts {
        LinesOkWithout(s.carts[c].items, s.next, l);
        ValidReplaceLines(s, c, WithoutLine(s.carts[c].items, l));
      }
    case Connect(c, u) => ValidConnect(s, c, u);
    case DropCart(c) => ValidDropCart(s, c);
  }
}
