/**
 * The client cart cache (`useCartStore`): the lines the browser shows, the id of the
 * server cart they mirror, and two view flags. Each action that talks to the server is
 * a method of `CartStore` that calls the server's methods and then updates the
 * fields; it is proved to end in the state, and return the outcome, that the step
 * function of the same name describes. A thrown error is an `Err` outcome.
 */
module CartStore {
  import opened Wrappers
  import opened Text
  import opened Repository
  import opened CartActions
  import opened CartService

  /** A line as the client keeps it. `id` is what the client sends as the product id. */
  datatype CartItem = CartItem(id: Id, title: string, price: int, quantity: int, image: string)

  /** No two lines share an id. */
  predicate UniqueIds(items: seq<CartItem>) {
    forall i, j :: 0 <= i < j < |items| ==> items[i].id != items[j].id
  }

  /** `items.find(i => i.id === id)`, as a position. */
  function IndexOfId(items: seq<CartItem>, id: Id): (r: Option<nat>)
    ensures r.Some? ==> r.value < |items| && items[r.value].id == id
    ensures r.Some? ==> forall j :: 0 <= j < r.value ==> items[j].id != id
    ensures r.None? ==> forall j :: 0 <= j < |items| ==> items[j].id != id
  {
    if items == [] then None
    else if items[0].id == id then Some(0)
    else match IndexOfId(items[1..], id)
      case None => None
      case Some(k) => Some(k + 1)
  }

  /** The same product by the client's test: equal lower-cased titles and equal prices. */
  predicate SameProduct(a: CartItem, b: CartItem) {
    ToLower(a.title) == ToLower(b.title) && a.price == b.price
  }

  /** `items.find(i => same title ignoring case && same price)`, as a position. */
  function IndexOfTwin(items: seq<CartItem>, item: CartItem): (r: Option<nat>)
    ensures r.Some? ==> r.value < |items| && SameProduct(items[r.value], item)
    ensures r.Some? ==> forall j :: 0 <= j < r.value ==> !SameProduct(items[j], item)
    ensures r.None? ==> forall j :: 0 <= j < |items| ==> !SameProduct(items[j], item)
  {
    if items == [] then None
    else if SameProduct(items[0], item) then Some(0)
    else match IndexOfTwin(items[1..], item)
      case None => None
      case Some(k) => Some(k + 1)
  }

  /** `items.filter(i => i.id !== id)`. */
  function RemoveById(items: seq<CartItem>, id: Id): (r: seq<CartItem>)
    ensures |r| <= |items|
    ensures forall i :: 0 <= i < |r| ==> r[i].id != id && r[i] in items
  {
    if items == [] then []
    else (if items[0].id == id then [] else [items[0]]) + RemoveById(items[1..], id)
  }

  /** `items.map(i => i.id === id ? { ...i, quantity: q } : i)`. */
  function SetQuantityById(items: seq<CartItem>, id: Id, q: int): (r: seq<CartItem>)
    ensures |r| == |items|
    ensures forall i :: 0 <= i < |r| ==> r[i].id == items[i].id
  {
    seq(|items|, i requires 0 <= i < |items| => if items[i].id == id then items[i].(quantity := q) else items[i])
  }

  /** `items.map(i => i.id === id ? { ...i, quantity: i.quantity + n } : i)`. */
  function BumpById(items: seq<CartItem>, id: Id, n: int): (r: seq<CartItem>)
    ensures |r| == |items|
    ensures forall i :: 0 <= i < |r| ==> r[i].id == items[i].id
  {
    seq(|items|, i requires 0 <= i < |items| => if items[i].id == id then items[i].(quantity := items[i].quantity + n) else items[i])
  }

  /** The local update after a new item reached the server: incremented if its id is already listed, appended otherwise. */
  function Added(items: seq<CartItem>, item: CartItem): seq<CartItem> {
    if IndexOfId(items, item.id).Some? then BumpById(items, item.id, item.quantity)
    else items + [item]
  }

  /** A server cart's lines as the client stores them: the row spread as it is, so `id` is the line's own id. */
  function ToClientItems(lines: seq<LineItem>): (r: seq<CartItem>)
    ensures |r| == |lines|
  {
    seq(|lines|, i requires 0 <= i < |lines| =>
      CartItem(lines[i].id, lines[i].title, lines[i].price, lines[i].quantity, lines[i].image))
  }

  /** `getTotalItems`: the quantities summed from the left. */
  function TotalItems(items: seq<CartItem>): int {
    if items == [] then 0 else TotalItems(items[..|items| - 1]) + items[|items| - 1].quantity
  }

  /** `getTotalPrice`: price times quantity summed from the left. */
  function TotalPrice(items: seq<CartItem>): int {
    if items == [] then 0 else TotalPrice(items[..|items| - 1]) + items[|items| - 1].price * items[|items| - 1].quantity
  }

  /** `Math.max(0, q)`. */
  function Max0(q: int): (r: nat)
    ensures r == q || (q < 0 && r == 0)
  {
    if q < 0 then 0 else q
  }

  /** The store's fields as a value. */
  datatype Client = Client(items: seq<CartItem>, cartId: Option<Id>, isOpen: bool, isLoaded: bool)

  /** What `partialize` keeps in browser storage. */
  datatype Saved = Saved(items: seq<CartItem>, cartId: Option<Id>)

  /** One client action: the fields after it, the server database after it, and whether it resolved or threw. */
  datatype Step = Step(client: Client, store: Store, result: Result<()>)

  /** The fields after a server cart is loaded: its id and lines, and loaded. */
  function Load(c: Client, cart: Cart): (r: Client)
    ensures r.isOpen == c.isOpen && r.isLoaded && r.cartId == Some(cart.id)
  {
    c.(cartId := Some(cart.id), items := ToClientItems(cart.items), isLoaded := true)
  }

  /**
   * The server's answer to `updateCartItem`, applied: a thrown error leaves the fields
   * as they were; a returned cart sets the cart id to it and the lines to `items`.
   */
  function Answered(c: Client, u: Outcome<Result<Cart>>, items: seq<CartItem>): (st: Step)
    ensures st.store == u.store
    ensures u.result.Err? ==> st.client == c && st.result == Err(u.result.msg)
    ensures u.result.Ok? ==> st.client == c.(cartId := Some(u.result.value.id), items := items) && st.result == Ok(())
  {
    match u.result
    case Err(e) => Step(c, u.store, Err(e))
    case Ok(cart) => Step(c.(cartId := Some(cart.id), items := items), u.store, Ok(()))
  }

  /** `removeItem(id)`: nothing without a cart id; otherwise quantity 0 to the server, then the line is dropped locally. */
  function RemoveItemStep(c: Client, s: Store, user: Option<Id>, id: Id): Step
    requires Indexed(s)
  {
    if !Given(c.cartId) then Step(c, s, Ok(()))
    else
      Answered(c, UpdateCartItem(s, user, c.cartId.value, id, ItemData(None, None, None, Some(0))), RemoveById(c.items, id))
  }

  /**
   * `updateQuantity(id, quantity)`: nothing without a cart id or a line with that id;
   * otherwise the line's fields with `max(0, quantity)` to the server, then locally the
   * line's quantity set (positive) or the line dropped.
   */
  function UpdateQuantityStep(c: Client, s: Store, user: Option<Id>, id: Id, quantity: int): Step
    requires Indexed(s)
  {
    if !Given(c.cartId) then Step(c, s, Ok(()))
    else match IndexOfId(c.items, id)
      case None => Step(c, s, Ok(()))
      case Some(k) =>
        var it := c.items[k];
        var u := UpdateCartItem(s, user, c.cartId.value, id, ItemData(Some(it.title), Some(it.price), Some(it.image), Some(Max0(quantity))));
        Answered(c, u, if quantity > 0 then SetQuantityById(c.items, id, quantity) else RemoveById(c.items, id))
  }

  /** `addItem(item)`: without a cart id, first a cart from `getOrCreateCart()` whose id is kept; then the add proper. */
  function AddItemStep(c: Client, s: Store, user: Option<Id>, item: CartItem): Step
    requires Indexed(s)
  {
    if Given(c.cartId) then AddToCartStep(c, s, user, item)
    else
      var got := GetOrCreateCart(s, user, None);
      AddToCartStep(c.(cartId := Some(got.result.id)), got.store, user, item)
  }

  /** The listed item `addItem` hands to `updateQuantity`: the one with the same id, else the first with the same title and price. */
  function Existing(items: seq<CartItem>, item: CartItem): (r: Option<nat>)
    ensures r.Some? ==> r.value < |items|
    ensures IndexOfId(items, item.id).Some? ==> r == IndexOfId(items, item.id)
    ensures IndexOfId(items, item.id).None? ==> r == IndexOfTwin(items, item)
  {
    match IndexOfId(items, item.id)
    case Some(k) => Some(k)
    case None => IndexOfTwin(items, item)
  }

  /**
   * The `try` block of `addItem`: a listed item (by id, else by title and price) goes
   * through `updateQuantity` with the summed quantity; a new item goes to the server
   * under its own id as the product id, and is added locally once the server returns
   * a cart.
   */
  function AddToCartStep(c: Client, s: Store, user: Option<Id>, item: CartItem): Step
    requires Indexed(s) && c.cartId.Some?
  {
    match Existing(c.items, item)
    case Some(k) => UpdateQuantityStep(c, s, user, c.items[k].id, c.items[k].quantity + item.quantity)
    case None => AddNewStep(c, s, user, item)
  }

  /** A new item: to the server under its own id as the product id, then added locally once a cart comes back. */
  function AddNewStep(c: Client, s: Store, user: Option<Id>, item: CartItem): Step
    requires Indexed(s) && c.cartId.Some?
  {
    var u := UpdateCartItem(s, user, c.cartId.value, item.id, ItemData(Some(item.title), Some(item.price), Some(item.image), Some(item.quantity)));
    Answered(c, u, Added(c.items, item))
  }

  /**
   * `syncWithUser()`: the cart `syncCartWithUser` returns, or when it returns none (signed
   * out) the cart `getOrCreateCart` finds or creates for the id held; when the sync throws
   * (`failed`), the cart `getOrCreateCart` gives for that id. Every path loads the cart.
   */
  function SyncWithUserStep(c: Client, s: Store, user: Option<Id>, failed: bool): Step
    requires Valid(s)
  {
    var current := if Given(c.cartId) then c.cartId else None;
    if failed then
      var got := GetOrCreateCart(s, user, current);
      Step(Load(c, got.result), got.store, Ok(()))
    else
      var synced := SyncCartWithUser(s, user, current);
      match synced.result
      case Some(cart) => Step(Load(c, cart), synced.store, Ok(()))
      case None =>
        var got := GetOrCreateCart(synced.store, user, current);
        Step(Load(c, got.result), got.store, Ok(()))
  }

  /** The cart store: its four fields, and the server it calls. */
  class CartStore {
    var items: seq<CartItem>
    var cartId: Option<Id>
    var isOpen: bool
    var isLoaded: bool
    const server: CartRepository

    function Snapshot(): Client
      reads this
    {
      Client(items, cartId, isOpen, isLoaded)
    }

    /** `partialize`: only the lines and the cart id are written to browser storage. */
    function Persisted(): (r: Saved)
      reads this
      ensures r.items == items && r.cartId == cartId
    {
      Saved(items, cartId)
    }

    /** `getTotalItems`: the quantities of the lines held, added up; none for no lines, never negative while no quantity is. */
    function GetTotalItems(): (r: int)
      reads this
      ensures items == [] ==> r == 0
      ensures (forall i :: 0 <= i < |items| ==> items[i].quantity >= 0) ==> r >= 0
    {
      TotalsNonNegative(items);
      TotalItems(items)
    }

    /** `getTotalPrice`: price times quantity over the lines held, added up; never negative while no price or quantity is. */
    function GetTotalPrice(): (r: int)
      reads this
      ensures items == [] ==> r == 0
      ensures (forall i :: 0 <= i < |items| ==> items[i].quantity >= 0 && items[i].price >= 0) ==> r >= 0
    {
      TotalsNonNegative(items);
      TotalPrice(items)
    }

    /** The initial state: empty, closed, no cart, loaded only when not in a browser. */
    constructor (server: CartRepository, inBrowser: bool)
      ensures this.server == server
      ensures Snapshot() == Client([], None, false, !inBrowser)
    {
      this.server := server;
      items, cartId, isOpen, isLoaded := [], None, false, !inBrowser;
    }

    method AddItem(user: Option<Id>, item: CartItem) returns (r: Result<()>)
      requires Indexed(server.State())
      modifies this, server
      ensures var st := AddItemStep(old(Snapshot()), old(server.State()), user, item);
        Snapshot() == st.client && server.State() == st.store && r == st.result
    {
      if !Given(cartId) {
        var obtained := server.GetOrCreateCart(user, None);
        cartId := Some(obtained.id);
      }
      r := AddToCart(user, item);
    }

    /** The `try` block of `addItem`, once a cart id is held. */
    method AddToCart(user: Option<Id>, item: CartItem) returns (r: Result<()>)
      requires Indexed(server.State()) && cartId.Some?
      modifies this, server
      ensures var st := AddToCartStep(old(Snapshot()), old(server.State()), user, item);
        Snapshot() == st.client && server.State() == st.store && r == st.result
    {
      var existing := Existing(items, item);
      if existing.Some? {
        var listed := items[existing.value];
        r := UpdateQuantity(user, listed.id, listed.quantity + item.quantity);
      } else {
        r := AddNew(user, item);
      }
    }

    method AddNew(user: Option<Id>, item: CartItem) returns (r: Result<()>)
      requires Indexed(server.State()) && cartId.Some?
      modifies this, server
      ensures var st := AddNewStep(old(Snapshot()), old(server.State()), user, item);
        Snapshot() == st.client && server.State() == st.store && r == st.result
    {
      var updated := server.UpdateCartItem(user, cartId.value, item.id, ItemData(Some(item.title), Some(item.price), Some(item.image), Some(item.quantity)));
      match updated {
        case Err(e) =>
          r := Err(e);
        case Ok(cart) =>
          cartId := Some(cart.id);
          items := Added(items, item);
          r := Ok(());
      }
    }

    method RemoveItem(user: Option<Id>, id: Id) returns (r: Result<()>)
      requires Indexed(server.State())
      modifies this, server
      ensures var st := RemoveItemStep(old(Snapshot()), old(server.State()), user, id);
        Snapshot() == st.client && server.State() == st.store && r == st.result
    {
      if !Given(cartId) {
        return Ok(());
      }
      var updated := server.UpdateCartItem(user, cartId.value, id, ItemData(None, None, None, Some(0)));
      match updated {
        case Err(e) =>
          r := Err(e);
        case Ok(cart) =>
          cartId := Some(cart.id);
          items := RemoveById(items, id);
          r := Ok(());
      }
    }

    method UpdateQuantity(user: Option<Id>, id: Id, quantity: int) returns (r: Result<()>)
      requires Indexed(server.State())
      modifies this, server
      ensures var st := UpdateQuantityStep(old(Snapshot()), old(server.State()), user, id, quantity);
        Snapshot() == st.client && server.State() == st.store && r == st.result
    {
      if !Given(cartId) {
        return Ok(());
      }
      var found := IndexOfId(items, id);
      if found.None? {
        return Ok(());
      }
      var it := items[found.value];
      var updated := server.UpdateCartItem(user, cartId.value, id, ItemData(Some(it.title), Some(it.price), Some(it.image), Some(Max0(quantity))));
      match updated {
        case Err(e) =>
          r := Err(e);
        case Ok(cart) =>
          cartId := Some(cart.id);
          items := if quantity > 0 then SetQuantityById(items, id, quantity) else RemoveById(items, id);
          r := Ok(());
      }
    }

    /** `failed` stands for `syncCartWithUser` throwing before it wrote anything. */
    method SyncWithUser(user: Option<Id>, failed: bool) returns (r: Result<()>)
      requires Repository.Valid(server.State())
      modifies this, server
      ensures var st := SyncWithUserStep(old(Snapshot()), old(server.State()), user, failed);
        Snapshot() == st.client && server.State() == st.store && r == st.result
    {
      var current := if Given(cartId) then cartId else None;
      var cart: Cart;
      if failed {
        cart := server.GetOrCreateCart(user, current);
      } else {
        var synced := server.SyncCartWithUser(user, current);
        if synced.Some? {
          cart := synced.value;
        } else {
          cart := server.GetOrCreateCart(user, current);
        }
      }
      cartId, items, isLoaded := Some(cart.id), ToClientItems(cart.items), true;
      r := Ok(());
    }

    /** `clearCart`: the lines go, the cart id stays. */
    method ClearCart()
      modifies this
      ensures Snapshot() == old(Snapshot()).(items := [])
      ensures Persisted() == Saved([], old(cartId))
    {
      items := [];
    }

    method Open()
      modifies this
      ensures Snapshot() == old(Snapshot()).(isOpen := true)
      ensures Persisted() == old(Persisted())
    {
      isOpen := true;
    }

    method Close()
      modifies this
      ensures Snapshot() == old(Snapshot()).(isOpen := false)
      ensures Persisted() == old(Persisted())
    {
      isOpen := false;
    }

    method SetLoaded(loaded: bool)
      modifies this
      ensures Snapshot() == old(Snapshot()).(isLoaded := loaded)
      ensures Persisted() == old(Persisted())
    {
      isLoaded := loaded;
    }

    /** `setStore`: any of the four fields the caller passes, overwritten. */
    method SetStore(newItems: Option<seq<CartItem>>, newCartId: Option<Option<Id>>, newOpen: Option<bool>, newLoaded: Option<bool>)
      modifies this
      ensures items == (if newItems.Some? then newItems.value else old(items))
      ensures cartId == (if newCartId.Some? then newCartId.value else old(cartId))
      ensures isOpen == (if newOpen.Some? then newOpen.value else old(isOpen))
      ensures isLoaded == (if newLoaded.Some? then newLoaded.value else old(isLoaded))
    {
      if newItems.Some? { items := newItems.value; }
      if newCartId.Some? { cartId := newCartId.value; }
      if newOpen.Some? { isOpen := newOpen.value; }
      if newLoaded.Some? { isLoaded := newLoaded.value; }
    }
  }

  /** Lines with no negative quantity never count below zero items; with no negative price either, never cost below zero. */
  lemma {:induction false} TotalsNonNegative(items: seq<CartItem>)
    ensures (forall i :: 0 <= i < |items| ==> items[i].quantity >= 0) ==> TotalItems(items) >= 0
    ensures (forall i :: 0 <= i < |items| ==> items[i].quantity >= 0 && items[i].price >= 0) ==> TotalPrice(items) >= 0
    decreases |items|
  {
    if items != [] {
      var last := items[|items| - 1];
      TotalsNonNegative(items[..|items| - 1]);
      if last.quantity >= 0 && last.price >= 0 {
        assert last.price * last.quantity >= 0;
      }
    }
  }

  // The invariants across the server-facing actions: unique local ids, and a consistent database.

  /** Distinct line ids on the server give distinct ids on the client. */
  lemma ToClientItemsUnique(lines: seq<LineItem>)
    requires IdsDistinct(lines)
    ensures UniqueIds(ToClientItems(lines))
  {
  }

  /** Dropping an id keeps the remaining ids unique. */
  lemma {:induction false} RemoveByIdUnique(items: seq<CartItem>, id: Id)
    requires UniqueIds(items)
    ensures UniqueIds(RemoveById(items, id))
    decreases |items|
  {
    if items != [] {
      var rest := RemoveById(items[1..], id);
      RemoveByIdUnique(items[1..], id);
      assert forall i :: 0 <= i < |rest| ==> rest[i] in items[1..];
    }
  }

  /** `Added` never lists an id twice. */
  lemma AddedUnique(items: seq<CartItem>, item: CartItem)
    requires UniqueIds(items)
    ensures UniqueIds(Added(items, item))
  {
  }

  /** `getOrCreateCart` keeps the database consistent. */
  lemma GetOrCreateKeepsValid(s: Store, user: Option<Id>, cartId: Option<Id>)
    requires Repository.Valid(s)
    ensures Repository.Valid(GetOrCreateCart(s, user, cartId).store)
  {
    GetOrCreateCartConsistent(s, user, cartId);
  }

  lemma RemoveItemKeepsUnique(c: Client, s: Store, user: Option<Id>, id: Id)
    requires Indexed(s) && UniqueIds(c.items)
    ensures UniqueIds(RemoveItemStep(c, s, user, id).client.items)
  {
    RemoveByIdUnique(c.items, id);
  }

  lemma RemoveItemKeepsValid(c: Client, s: Store, user: Option<Id>, id: Id)
    requires Repository.Valid(s)
    ensures Repository.Valid(RemoveItemStep(c, s, user, id).store)
  {
    if Given(c.cartId) {
      UpdateCartItemKeepsValid(s, user, c.cartId.value, id, ItemData(None, None, None, Some(0)));
    }
  }

  lemma UpdateQuantityKeepsUnique(c: Client, s: Store, user: Option<Id>, id: Id, quantity: int)
    requires Indexed(s) && UniqueIds(c.items)
    ensures UniqueIds(UpdateQuantityStep(c, s, user, id, quantity).client.items)
  {
    RemoveByIdUnique(c.items, id);
  }

  lemma UpdateQuantityKeepsValid(c: Client, s: Store, user: Option<Id>, id: Id, quantity: int)
    requires Repository.Valid(s)
    ensures Repository.Valid(UpdateQuantityStep(c, s, user, id, quantity).store)
  {
    if Given(c.cartId) && IndexOfId(c.items, id).Some? {
      var it := c.items[IndexOfId(c.items, id).value];
      UpdateCartItemKeepsValid(s, user, c.cartId.value, id, ItemData(Some(it.title), Some(it.price), Some(it.image), Some(Max0(quantity))));
    }
  }

  lemma AddItemKeepsUnique(c: Client, s: Store, user: Option<Id>, item: CartItem)
    requires Indexed(s) && UniqueIds(c.items)
    ensures UniqueIds(AddItemStep(c, s, user, item).client.items)
  {
    if Given(c.cartId) {
      AddToCartKeepsUnique(c, s, user, item);
    } else {
      var got := GetOrCreateCart(s, user, None);
      AddToCartKeepsUnique(c.(cartId := Some(got.result.id)), got.store, user, item);
    }
  }

  lemma AddToCartKeepsUnique(c: Client, s: Store, user: Option<Id>, item: CartItem)
    requires Indexed(s) && UniqueIds(c.items) && c.cartId.Some?
    ensures UniqueIds(AddToCartStep(c, s, user, item).client.items)
  {
    match Existing(c.items, item)
    case Some(k) =>
      UpdateQuantityKeepsUnique(c, s, user, c.items[k].id, c.items[k].quantity + item.quantity);
    case None =>
      AddedUnique(c.items, item);
  }

  lemma AddItemKeepsValid(c: Client, s: Store, user: Option<Id>, item: CartItem)
    requires Repository.Valid(s)
    ensures Repository.Valid(AddItemStep(c, s, user, item).store)
  {
    if Given(c.cartId) {
      AddToCartKeepsValid(c, s, user, item);
    } else {
      GetOrCreateKeepsValid(s, user, None);
      var got := GetOrCreateCart(s, user, None);
      AddToCartKeepsValid(c.(cartId := Some(got.result.id)), got.store, user, item);
    }
  }

  lemma AddToCartKeepsValid(c: Client, s: Store, user: Option<Id>, item: CartItem)
    requires Repository.Valid(s) && c.cartId.Some?
    ensures Repository.Valid(AddToCartStep(c, s, user, item).store)
  {
    var st := AddToCartStore(c, s, user, item);
    if Existing(c.items, item).Some? {
      DelegatedKeepsValid(c, s, user, item, Existing(c.items, item).value, st);
    } else {
      UpdateCartItemKeepsValid(s, user, c.cartId.value, item.id, ItemData(Some(item.title), Some(item.price), Some(item.image), Some(item.quantity)));
    }
  }

  lemma DelegatedKeepsValid(c: Client, s: Store, user: Option<Id>, item: CartItem, k: nat, st: Store)
    requires Repository.Valid(s) && k < |c.items|
    requires st == UpdateQuantityStep(c, s, user, c.items[k].id, c.items[k].quantity + item.quantity).store
    ensures Repository.Valid(st)
  {
    UpdateQuantityKeepsValid(c, s, user, c.items[k].id, c.items[k].quantity + item.quantity);
  }

  /** Where `addItem`'s try block leaves the database: after `updateQuantity`, or after the one `updateCartItem`. */
  lemma AddToCartStore(c: Client, s: Store, user: Option<Id>, item: CartItem) returns (st: Store)
    requires Indexed(s) && c.cartId.Some?
    ensures st == AddToCartStep(c, s, user, item).store
    ensures Existing(c.items, item).Some? ==>
      var k := Existing(c.items, item).value;
      st == UpdateQuantityStep(c, s, user, c.items[k].id, c.items[k].quantity + item.quantity).store
    ensures Existing(c.items, item).None? ==>
      st == UpdateCartItem(s, user, c.cartId.value, item.id, ItemData(Some(item.title), Some(item.price), Some(item.image), Some(item.quantity))).store
  {
    st := AddToCartStep(c, s, user, item).store;
  }

  /** Every path of `syncWithUser` leaves a consistent database and unique local ids. */
  lemma SyncKeepsValid(c: Client, s: Store, user: Option<Id>, failed: bool)
    requires Repository.Valid(s)
    ensures var st := SyncWithUserStep(c, s, user, failed);
      Repository.Valid(st.store) && UniqueIds(st.client.items)
  {
    var current := if Given(c.cartId) then c.cartId else None;
    var st := SyncWithUserStep(c, s, user, failed);
    var cart: Cart;
    if failed || user.None? {
      GetOrCreateKeepsValid(s, user, current);
      cart := GetOrCreateCart(s, user, current).result;
    } else {
      SyncCartWithUserConsistent(s, user, current);
      cart := SyncCartWithUser(s, user, current).result.value;
    }
    StoredCartOk(st.store, cart);
    ToClientItemsUnique(cart.items);
  }
}
