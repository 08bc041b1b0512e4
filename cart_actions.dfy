/**
 * The server cart actions as functions of the database: each returns the writes it
 * issues, in order, the database afterwards and the value it returns (or the error
 * it throws). The signed-in user (Clerk's `currentUser`) is a parameter.
 *
 * Each action's contract says what it returns; its companion lemma `...Consistent`
 * says that the database afterwards is the one its writes produce, and is valid.
 */
module CartActions {
  import opened Wrappers
  import opened Text
  import opened Repository
  import opened MergeLoop

  /** What one server action did: its writes in order, the database afterwards, and its result. */
  datatype Outcome<T> = Outcome(writes: seq<Write>, store: Store, result: T)

  /** The database after an action is the one its writes produce, and it is valid. */
  ghost predicate Consistent<T>(s: Store, o: Outcome<T>) {
    o.store == ApplyAll(s, o.writes) && Valid(o.store)
  }

  /** `!!cartId`: an id was given and it is not the empty string. */
  predicate Given(cartId: Option<Id>) {
    cartId.Some? && cartId.value != ""
  }

  /** The signed-in user, if any, owns no cart yet. */
  predicate NoOwnedCart(s: Store, user: Option<Id>) {
    user.None? || user.value !in s.owners
  }

  /** `createCart`: a fresh, empty cart, linked to the signed-in user if there is one. */
  function CreateCart(s: Store, user: Option<Id>): (r: Outcome<Cart>)
    requires Indexed(s) && NoOwnedCart(s, user)
    ensures r.writes == [NewCart(user)] && Indexed(r.store)
    ensures r.result.owner == user && r.result.items == []
    ensures r.store.carts == s.carts[r.result.id := r.result] && r.store.next == s.next + 1
    ensures r.store.owners == if user.Some? then s.owners[user.value := r.result.id] else s.owners
  {
    var s' := Apply(s, NewCart(user));
    Outcome([NewCart(user)], s', s'.carts[Uuid(s.next)])
  }

  lemma CreateCartConsistent(s: Store, user: Option<Id>)
    requires Valid(s) && NoOwnedCart(s, user)
    ensures Consistent(s, CreateCart(s, user))
  {
    ApplyValid(s, NewCart(user));
    ApplyAllOne(s, NewCart(user));
  }

  /**
   * `getOrCreateCart(cartId)`: the signed-in user's own cart wins; otherwise the
   * cart the id names; otherwise a new cart.
   */
  function GetOrCreateCart(s: Store, user: Option<Id>, cartId: Option<Id>): (r: Outcome<Cart>)
    requires Indexed(s)
    ensures InStore(r.store, r.result) && Indexed(r.store)
  {
    if user.Some? && user.value in s.owners then Outcome([], s, s.carts[s.owners[user.value]])
    else if !Given(cartId) then CreateCart(s, user)
    else if cartId.value !in s.carts then CreateCart(s, user)
    else Outcome([], s, s.carts[cartId.value])
  }

  /** A signed-in user who owns a cart gets that cart, whatever id is passed, and nothing is written. */
  lemma GetOrCreateOwned(s: Store, user: Option<Id>, cartId: Option<Id>)
    requires Valid(s) && !NoOwnedCart(s, user)
    ensures var r := GetOrCreateCart(s, user, cartId);
      && r.writes == [] && r.store == s
      && r.result.id == s.owners[user.value] && r.result.owner == user
  {
  }

  /** Otherwise a given id that names a cart gets that cart as stored, and nothing is written. */
  lemma GetOrCreateFound(s: Store, user: Option<Id>, cartId: Option<Id>)
    requires Indexed(s) && NoOwnedCart(s, user) && Given(cartId) && cartId.value in s.carts
    ensures GetOrCreateCart(s, user, cartId) == Outcome([], s, s.carts[cartId.value])
  {
  }

  /**
   * Otherwise (no id, an empty id, or an id naming no cart) a fresh, empty cart is
   * created, owned by the signed-in user if there is one, and nothing else changes.
   */
  lemma GetOrCreateNew(s: Store, user: Option<Id>, cartId: Option<Id>)
    requires Valid(s) && NoOwnedCart(s, user) && !(Given(cartId) && cartId.value in s.carts)
    ensures var r := GetOrCreateCart(s, user, cartId);
      && r.writes == [NewCart(user)] && r.result.id !in s.carts && r.result.items == [] && r.result.owner == user
      && r.store.carts == s.carts[r.result.id := r.result]
      && r.store.owners == (if user.Some? then s.owners[user.value := r.result.id] else s.owners)
  {
    FreshIdIsNew(s);
  }

  lemma GetOrCreateCartConsistent(s: Store, user: Option<Id>, cartId: Option<Id>)
    requires Valid(s)
    ensures Consistent(s, GetOrCreateCart(s, user, cartId))
  {
    if NoOwnedCart(s, user) && !(Given(cartId) && cartId.value in s.carts) {
      CreateCartConsistent(s, user);
    }
  }

  /** The optional fields `updateCartItem` receives. */
  datatype ItemData = ItemData(title: Option<string>, price: Option<int>, image: Option<string>, quantity: Option<int>)

  /** Input that passes validation: no negative quantity or price, and a title, if given, with a visible character. */
  predicate WellFormed(d: ItemData) {
    && (d.quantity.Some? ==> d.quantity.value >= 0)
    && (d.price.Some? ==> d.price.value >= 0)
    && (d.title.Some? ==> HasVisible(d.title.value))
  }

  /** `validateCartItemData`: the checks run in order, and the first that fails names the error. */
  function ValidateCartItemData(d: ItemData): (r: Result<()>)
    ensures r.Ok? <==> WellFormed(d)
    ensures d.quantity.Some? && d.quantity.value < 0 ==> r == Err("Invalid quantity")
    ensures r == Err("Invalid price") <==>
      (d.quantity.Some? ==> d.quantity.value >= 0) && d.price.Some? && d.price.value < 0
    ensures r == Err("Title is required") <==>
      (d.quantity.Some? ==> d.quantity.value >= 0) && (d.price.Some? ==> d.price.value >= 0)
      && d.title.Some? && IsBlank(d.title.value)
  {
    var title := if d.title.Some? then d.title.value else "";
    BlankIffInvisible(title);
    if d.quantity.Some? && d.quantity.value < 0 then Err("Invalid quantity")
    else if d.price.Some? && d.price.value < 0 then Err("Invalid price")
    else if d.title.Some? && IsBlank(d.title.value) then Err("Title is required")
    else Ok(())
  }

  /** `data.image?.trim() || ''`. */
  function ImageOf(d: ItemData): string {
    if d.image.Some? then Trim(d.image.value) else ""
  }

  /** The prefix `updateCartItem` puts before an error thrown inside its `try` block. */
  const UpdateFailed := "Failed to update cart: "

  /** The error for a new line without a title or a price. */
  const TitleAndPriceRequired := "Title and price are required for new items"

  /**
   * The write `updateCartItem` issues against the cart it resolved, or the error
   * thrown inside its `try` block (before the "Failed to update cart: " prefix).
   */
  function LineWrites(cart: Cart, p: Id, d: ItemData): (r: Result<seq<Write>>)
    ensures r.Ok? ==> |r.value| <= 1
    ensures r.Err? ==> r.msg == TitleAndPriceRequired
    ensures r.Err? <==> IndexOfProduct(cart.items, p).None? && d.quantity.Some? && d.quantity.value > 0
                        && (d.title.None? || d.title.value == "" || d.price.None? || d.price.value == 0)
  {
    match IndexOfProduct(cart.items, p)
    case Some(k) =>
      var line := cart.items[k];
      if d.quantity == Some(0) then Ok([DropLine(cart.id, line.id)])
      else if d.quantity.Some? && d.quantity.value > 0 then Ok([SetQuantity(cart.id, line.id, d.quantity.value)])
      else Ok([])
    case None =>
      if d.quantity.Some? && d.quantity.value > 0 then
        if d.title.None? || d.title.value == "" || d.price.None? || d.price.value == 0 then
          Err(TitleAndPriceRequired)
        else
          Ok([NewLine(cart.id, p, Trim(d.title.value), d.price.value, ImageOf(d), d.quantity.value)])
      else Ok([])
  }

  /** The write `updateCartItem` issues touches only the lines of the cart it resolved. */
  lemma LineWritesFrame(st: Store, cart: Cart, p: Id, d: ItemData)
    requires InStore(st, cart) && LineWrites(cart, p, d).Ok?
    ensures var mid := ApplyAll(st, LineWrites(cart, p, d).value);
      && mid.owners == st.owners && mid.carts.Keys == st.carts.Keys
      && (forall c :: c in st.carts && c != cart.id ==> mid.carts[c] == st.carts[c])
      && mid.carts[cart.id].id == cart.id && mid.carts[cart.id].owner == cart.owner
  {
    var ws := LineWrites(cart, p, d).value;
    if ws != [] {
      ApplyAllOne(st, ws[0]);
      assert ws == [ws[0]];
    }
  }

  /** The write of `LineWrites` keeps the database invariant. */
  lemma LineWritesValid(s: Store, cart: Cart, p: Id, d: ItemData)
    requires Valid(s) && InStore(s, cart) && WellFormed(d) && LineWrites(cart, p, d).Ok?
    ensures Valid(ApplyAll(s, LineWrites(cart, p, d).value))
  {
    var ws := LineWrites(cart, p, d).value;
    if ws != [] {
      ApplyAllOne(s, ws[0]);
      assert ws == [ws[0]];
      if ws[0].NewLine? {
        var t := d.title.value;
        BlankIffInvisible(t);
        TrimKeepsBlankness(t);
        BlankIffInvisible(Trim(t));
      }
      ApplyValid(s, ws[0]);
    }
  }

  /**
   * `updateCartItem(cartId, sanityProductId, data)`: validate, resolve the cart with
   * `getOrCreateCart(cartId)`, then `WriteLine`.
   */
  function UpdateCartItem(s: Store, user: Option<Id>, cartId: Id, p: Id, d: ItemData): (r: Outcome<Result<Cart>>)
    requires Indexed(s)
    ensures Indexed(r.store) && (r.result.Ok? ==> InStore(r.store, r.result.value))
    ensures p == "" ==> r == Outcome([], s, Err("Product ID is required"))
    ensures p != "" && !WellFormed(d) ==> r == Outcome([], s, Err(ValidateCartItemData(d).msg))
  {
    if p == "" then Outcome([], s, Err("Product ID is required"))
    else if ValidateCartItemData(d).Err? then Outcome([], s, Err(ValidateCartItemData(d).msg))
    else
      var got := GetOrCreateCart(s, user, Some(cartId));
      var w := WriteLine(got.store, got.result, user, cartId, p, d);
      Outcome(got.writes + w.writes, w.store, w.result)
  }

  /**
   * The rest of `updateCartItem` once `cart` is resolved: at most one line write
   * (an error thrown here gets the "Failed to update cart: " prefix), then
   * `getOrCreateCart(cartId)` again.
   */
  function WriteLine(t: Store, cart: Cart, user: Option<Id>, cartId: Id, p: Id, d: ItemData): (r: Outcome<Result<Cart>>)
    requires Indexed(t) && InStore(t, cart)
    ensures Indexed(r.store) && (r.result.Ok? ==> InStore(r.store, r.result.value))
    ensures r.result.Err? <==> LineWrites(cart, p, d).Err?
    ensures r.result.Err? ==> r == Outcome([], t, Err(UpdateFailed + TitleAndPriceRequired))
  {
    match LineWrites(cart, p, d)
    case Err(e) => Outcome([], t, Err(UpdateFailed + e))
    case Ok(ws) =>
      LineWritesFrame(t, cart, p, d);
      var again := GetOrCreateCart(ApplyAll(t, ws), user, Some(cartId));
      Outcome(ws + again.writes, again.store, Ok(again.result))
  }

  lemma WriteLineConsistent(t: Store, cart: Cart, user: Option<Id>, cartId: Id, p: Id, d: ItemData)
    requires Valid(t) && InStore(t, cart) && WellFormed(d)
    ensures Consistent(t, WriteLine(t, cart, user, cartId, p, d))
  {
    if LineWrites(cart, p, d).Ok? {
      var ws := LineWrites(cart, p, d).value;
      LineWritesValid(t, cart, p, d);
      var mid := ApplyAll(t, ws);
      GetOrCreateCartConsistent(mid, user, Some(cartId));
      ApplyAllAppend(t, ws, GetOrCreateCart(mid, user, Some(cartId)).writes);
    }
  }

  lemma UpdateCartItemConsistent(s: Store, user: Option<Id>, cartId: Id, p: Id, d: ItemData)
    requires Valid(s)
    ensures Consistent(s, UpdateCartItem(s, user, cartId, p, d))
  {
    if p != "" && WellFormed(d) {
      var got := GetOrCreateCart(s, user, Some(cartId));
      GetOrCreateCartConsistent(s, user, Some(cartId));
      WriteLineConsistent(got.store, got.result, user, cartId, p, d);
      ApplyAllAppend(s, got.writes, WriteLine(got.store, got.result, user, cartId, p, d).writes);
    }
  }

  /** A Sanity product as `addWinningItemToCart` reads it; `image` stands for the image reference. */
  datatype Product = Product(id: Option<Id>, title: Option<string>, price: Option<int>, image: Option<string>)

  /** The item data `addWinningItemToCart` sends: defaults for a missing title or price, one unit. */
  function WinningItem(product: Product, url: string): (d: ItemData)
    ensures d.title == Some(if product.title.None? || product.title.value == "" then "Untitled Product" else product.title.value)
    ensures d.price == Some(if product.price.None? then 0 else product.price.value)
    ensures d.image == Some(url) && d.quantity == Some(1)
  {
    ItemData(Some(if product.title.Some? && product.title.value != "" then product.title.value else "Untitled Product"),
             Some(if product.price.Some? then product.price.value else 0),
             Some(url),
             Some(1))
  }

  /** The prefix `addWinningItemToCart` puts before an error from `updateCartItem`. */
  const AddFailed := "Failed to add item to cart: "

  /**
   * `addWinningItemToCart(cartId, product)`: reject a product without an id or an
   * image, then `updateCartItem` with one unit. `url` is what the Sanity image
   * builder returns for the product's image.
   */
  function AddWinningItemToCart(s: Store, user: Option<Id>, cartId: Id, product: Product, url: string): (r: Outcome<Result<()>>)
    requires Indexed(s)
    ensures product.id.None? || product.id.value == "" ==> r == Outcome([], s, Err("Invalid product data"))
    ensures product.id.Some? && product.id.value != "" && product.image.None? ==>
      r == Outcome([], s, Err("Product image is required"))
    ensures product.id.Some? && product.id.value != "" && product.image.Some? ==>
      var u := UpdateCartItem(s, user, cartId, product.id.value, WinningItem(product, url));
      && r.writes == u.writes && r.store == u.store
      && (r.result.Ok? <==> u.result.Ok?)
      && (u.result.Err? ==> r.result == Err(AddFailed + u.result.msg))
  {
    if product.id.None? || product.id.value == "" then Outcome([], s, Err("Invalid product data"))
    else if product.image.None? then Outcome([], s, Err("Product image is required"))
    else
      var u := UpdateCartItem(s, user, cartId, product.id.value, WinningItem(product, url));
      match u.result
      case Err(e) => Outcome(u.writes, u.store, Err(AddFailed + e))
      case Ok(_) => Outcome(u.writes, u.store, Ok(()))
  }

  /**
   * The merge path of `syncCartWithUser`: the loop's writes, then the anonymous
   * cart's deletion, then `getOrCreateCart(existingUserCart.id)`.
   */
  function Merge(s: Store, u: Id, owned: Cart, anon: Cart): (r: Outcome<Option<Cart>>)
    requires MergeReady(s, u, owned, anon)
    ensures r.writes == MergeWrites(owned, anon.items) + [DropCart(anon.id)]
    ensures r.result.Some? && InStore(r.store, r.result.value) && r.result.value.id == owned.id
    ensures r.result.value.owner == Some(u) && anon.id !in r.store.carts
  {
    var ws := MergeWrites(owned, anon.items) + [DropCart(anon.id)];
    MergeEnd(s, u, owned, anon);
    GetOrCreateOwned(ApplyAll(s, ws), Some(u), Some(owned.id));
    var again := GetOrCreateCart(ApplyAll(s, ws), Some(u), Some(owned.id));
    Outcome(ws, again.store, Some(again.result))
  }

  lemma MergeConsistent(s: Store, u: Id, owned: Cart, anon: Cart)
    requires MergeReady(s, u, owned, anon)
    ensures Consistent(s, Merge(s, u, owned, anon))
  {
    MergeEnd(s, u, owned, anon);
    GetOrCreateOwned(ApplyAll(s, MergeWrites(owned, anon.items) + [DropCart(anon.id)]), Some(u), Some(owned.id));
  }

  /**
   * `syncCartWithUser(cartId)`, run at sign-in, following its decision table in order;
   * the anonymous cart is looked up only when an id was given.
   */
  function SyncCartWithUser(s: Store, user: Option<Id>, cartId: Option<Id>): (r: Outcome<Option<Cart>>)
    requires Valid(s)
    ensures r.result.None? <==> user.None?
    ensures user.None? ==> r == Outcome([], s, None)
    ensures r.result.Some? ==> InStore(r.store, r.result.value) && r.result.value.owner == user
  {
    if user.None? then Outcome([], s, None)
    else
      var u := user.value;
      var owned := if u in s.owners then Some(s.carts[s.owners[u]]) else None;
      var anon := if Given(cartId) && cartId.value in s.carts then Some(s.carts[cartId.value]) else None;
      if !Given(cartId) && owned.Some? then Outcome([], s, owned)
      else if !Given(cartId) then Created(CreateCart(s, user))
      else if anon.None? && owned.None? then Created(CreateCart(s, user))
      else if owned.Some? && owned.value.id == cartId.value then Outcome([], s, owned)
      else if owned.None? then Reown(s, u, anon.value)
      else if anon.None? then Outcome([], s, owned)
      else Merge(s, u, owned.value, anon.value)
  }

  /** A created cart, as `syncCartWithUser` returns it. */
  function Created(o: Outcome<Cart>): (r: Outcome<Option<Cart>>)
    ensures r.writes == o.writes && r.store == o.store && r.result == Some(o.result)
  {
    Outcome(o.writes, o.store, Some(o.result))
  }

  /**
   * `cart.update` connecting the user: the anonymous cart, lines and all, now
   * belongs to the user.
   */
  function Reown(s: Store, u: Id, anon: Cart): (r: Outcome<Option<Cart>>)
    requires Valid(s) && u !in s.owners && InStore(s, anon)
    ensures r.writes == [Connect(anon.id, u)]
    ensures r.result == Some(anon.(owner := Some(u))) && InStore(r.store, r.result.value)
    ensures u in r.store.owners && r.store.owners[u] == anon.id
  {
    var s' := Apply(s, Connect(anon.id, u));
    Outcome([Connect(anon.id, u)], s', Some(s'.carts[anon.id]))
  }

  lemma ReownConsistent(s: Store, u: Id, anon: Cart)
    requires Valid(s) && u !in s.owners && InStore(s, anon)
    ensures Consistent(s, Reown(s, u, anon))
  {
    ApplyValid(s, Connect(anon.id, u));
    ApplyAllOne(s, Connect(anon.id, u));
  }

  lemma SyncCartWithUserConsistent(s: Store, user: Option<Id>, cartId: Option<Id>)
    requires Valid(s)
    ensures Consistent(s, SyncCartWithUser(s, user, cartId))
  {
    if user.Some? {
      var u := user.value;
      var anon := Given(cartId) && cartId.value in s.carts;
      if u !in s.owners && anon {
        assert SyncCartWithUser(s, user, cartId) == Reown(s, u, s.carts[cartId.value]);
        ReownConsistent(s, u, s.carts[cartId.value]);
      } else if u !in s.owners {
        assert SyncCartWithUser(s, user, cartId) == Created(CreateCart(s, user));
        CreateCartConsistent(s, user);
      } else if anon && cartId.value != s.owners[u] {
        assert SyncCartWithUser(s, user, cartId) == Merge(s, u, s.carts[s.owners[u]], s.carts[cartId.value]);
        MergeConsistent(s, u, s.carts[s.owners[u]], s.carts[cartId.value]);
      }
    }
  }
}
