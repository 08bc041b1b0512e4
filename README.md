# ByteDeal cart engine in Dafny

This project models the shopping cart of ByteDeal, a Next.js storefront, and proves what the cart promises. It has three parts.

- **Server cart actions** (`lib/actions/cart-actions.ts`). These are `createCart`, `getOrCreateCart`, `validateCartItemData`, `updateCartItem`, `syncCartWithUser` and `addWinningItemToCart`.
  - The database is a value `Store`: carts by id with their line items, an index from a user to the one cart that user owns, and a counter that stands for `crypto.randomUUID()`.
  - Each action is a function returning an `Outcome`: its writes in order, the database afterwards, and its result or thrown error (`Result.Err`).
  - The class `CartService.CartRepository` runs the same actions as methods that update its tables in place, one write at a time. Each method is proved to end exactly where its function says.
- **Client cart cache** (`stores/cart-store.ts`, the Zustand store `useCartStore`).
  - It is the class `CartStore.CartStore`, with the fields `items`, `cartId`, `isOpen` and `isLoaded`, and the server repository it calls.
  - Each action that talks to the server is a method. It is proved to end in the state, and return the outcome, given by a step function of the same name (`AddItemStep`, `RemoveItemStep`, …).
  - The lemmas in `StoreLemmas` and `ClientIds` are stated about those step functions.
- **Checkout** (`lib/actions/stripe-actons.ts`, `createCheckoutSession`). The model stops at the request handed to Stripe: the refusals, the chargeable lines, their total, the line items, the metadata and the shipping option.

Money is in whole cents throughout. The source keeps prices in dollars and sends `Math.round(price * 100)` to Stripe; here the price already is that amount. The $15 free-shipping threshold is therefore 1500 and the $5 fee is 500.

The signed-in user (Clerk's `currentUser()`) is a parameter `user: Option<Id>`. The Sanity image URL builder's output is a parameter `url`.

The model follows the code as written, including its defects. The corrected versions of the defects listed under "## Findings" sit beside it, each with the intended property proved.

## Model

| member | source | states |
|---|---|---|
| Text.Trim | lib/actions/cart-actions.ts:79 | `trim()` gives a slice of the string with no white space at either end, everything cut off being white space, and it is empty exactly when the string is all white space |
| Text.BlankIffInvisible | lib/actions/cart-actions.ts:79 | a string is blank after trimming exactly when it has no visible character |
| Text.TrimIdempotent | lib/actions/cart-actions.ts:128 | trimming a trimmed title changes nothing |
| Text.TrimKeepsBlankness | lib/actions/cart-actions.ts:128 | a trimmed title is blank exactly when the original was, so a title that passed validation is still non-blank when stored |
| Text.ToLower | stores/cart-store.ts:79 | `toLowerCase` maps each character, A-Z to a-z, and keeps the length |
| Repository.IndexOfProduct | lib/actions/cart-actions.ts:106-108 | `find` by product id returns the first line with that product, and none only when no line has it |
| Repository.WithQuantityAt | lib/actions/cart-actions.ts:118-124 | updating the quantity of a line whose id is unique changes that position's quantity and nothing else |
| Repository.WithoutUniqueLine | lib/actions/cart-actions.ts:113-117 | deleting a line whose id is unique removes exactly that position, the others kept in order |
| Repository.ApplyAllAppend | lib/actions/cart-actions.ts:217-250 | issuing writes `a` and then `b` is issuing `a + b` |
| Repository.ApplyValid | lib/actions/cart-actions.ts:12-23 | every write the actions issue, under its guard, keeps the database invariant (one owner per cart, one line per product, fresh ids) |
| Repository.FreshIdIsNew | lib/actions/cart-actions.ts:14 | a generated id never names an existing cart |
| CartActions.CreateCart | lib/actions/cart-actions.ts:9-26 | one `cart.create` write; the new cart is empty, owned by the signed-in user if any, and indexed under that user |
| CartActions.CreateCartConsistent | lib/actions/cart-actions.ts:9-26 | the database afterwards is the one the write produces, and it stays valid |
| CartActions.GetOrCreateCart | lib/actions/cart-actions.ts:28-64 | the cart returned is stored as returned, and the lookups keep working |
| CartActions.GetOrCreateOwned | lib/actions/cart-actions.ts:31-44 | a user who owns a cart gets it whatever id is passed, and nothing is written |
| CartActions.GetOrCreateFound | lib/actions/cart-actions.ts:50-63 | otherwise an id naming a cart gets that cart as stored, and nothing is written |
| CartActions.GetOrCreateNew | lib/actions/cart-actions.ts:46-48 | otherwise (no id, empty id, unknown id) one new empty cart, owned by the user if signed in, and nothing else changes |
| CartActions.GetOrCreateCartConsistent | lib/actions/cart-actions.ts:28-64 | the database afterwards is the one the writes produce, and it stays valid |
| CartActions.ValidateCartItemData | lib/actions/cart-actions.ts:66-82 | passes exactly on well-formed data; otherwise the first failing check, in source order, names the error |
| CartActions.LineWrites | lib/actions/cart-actions.ts:110-142 | at most one line write; fails exactly for a new line with positive quantity and no title or a falsy price |
| CartActions.LineWritesFrame | lib/actions/cart-actions.ts:110-142 | the line write touches only the lines of the resolved cart: no owner, other cart or cart set changes |
| CartActions.UpdateCartItem | lib/actions/cart-actions.ts:84-150 | an empty product id and invalid data are refused before anything is written; a returned cart is stored as returned |
| CartActions.WriteLine | lib/actions/cart-actions.ts:110-149 | fails exactly when the line write fails, with the "Failed to update cart: " prefix and nothing written by it |
| CartActions.UpdateCartItemConsistent | lib/actions/cart-actions.ts:84-150 | the database afterwards is the one the writes produce, and it stays valid |
| CartActions.WinningItem | lib/actions/cart-actions.ts:266-271 | the defaults: "Untitled Product" for a missing or empty title, price 0, the image URL, one unit |
| CartActions.AddWinningItemToCart | lib/actions/cart-actions.ts:256-276 | "Invalid product data" and "Product image is required" before anything is written; otherwise the update's writes, and its error prefixed with "Failed to add item to cart: " |
| CartActions.Merge | lib/actions/cart-actions.ts:217-253 | the loop's writes, then the anonymous cart's deletion; returns the owned cart, still the user's, and the anonymous cart is gone |
| CartActions.MergeConsistent | lib/actions/cart-actions.ts:217-253 | the merge leaves the database its writes produce, and valid |
| CartActions.SyncCartWithUser | lib/actions/cart-actions.ts:152-254 | `null` exactly when signed out, with nothing written; otherwise a stored cart owned by the user |
| CartActions.Reown | lib/actions/cart-actions.ts:194-211 | one `cart.update` connecting the user; the anonymous cart, lines and all, is now the user's and indexed under the user |
| CartActions.SyncCartWithUserConsistent | lib/actions/cart-actions.ts:152-254 | every path leaves the database its writes produce, and valid |
| MergeLoop.FindFirst | lib/actions/cart-actions.ts:218 | `find` returns a line the callback accepts, or none when it accepts no line; an accepted first line is the answer |
| MergeLoop.SelfMatchFindsFirst | lib/actions/cart-actions.ts:218 | the shadowed callback accepts every line, so the lookup lands on the owned cart's first line |
| MergeLoop.MergeWrite | lib/actions/cart-actions.ts:217-243 | the write for one anonymous line: a copy into an owned cart read as empty, else a quantity write to its first line |
| MergeLoop.MergeWrites | lib/actions/cart-actions.ts:217-244 | one write per anonymous line, in order |
| MergeLoop.RepeatedSetQuantity | lib/actions/cart-actions.ts:222-229 | repeated quantity writes to one line: the last one wins |
| MergeLoop.CopyLines | lib/actions/cart-actions.ts:232-242 | into an owned cart read as empty, the loop copies every anonymous line, in order, under fresh ids |
| MergeLoop.MergeIntoLines | lib/actions/cart-actions.ts:220-229 | into an owned cart read with lines, the loop only sets its first line to its own quantity plus the last anonymous quantity |
| MergeLoop.MergeEnd | lib/actions/cart-actions.ts:217-250 | after the loop and the deletion, the database is valid, the anonymous cart is gone, and the user still owns the owned cart |
| MergeLoop.MergedFrame | lib/actions/cart-actions.ts:217-244 | the loop keeps the owner index and the set of carts, and touches only the owned cart's lines |
| MergeLoop.MergedValid | lib/actions/cart-actions.ts:217-244 | the loop keeps the database invariant |
| SyncLemmas.SyncSignedOut | lib/actions/cart-actions.ts:155-157 | signed out: nothing written, `null` returned |
| SyncLemmas.SyncWithoutId | lib/actions/cart-actions.ts:177-184 | no id: the user's own cart as stored, or else a new empty cart for the user |
| SyncLemmas.SyncNothingFound | lib/actions/cart-actions.ts:186-188 | an id naming no cart and no cart of the user's own: a new empty cart, indexed under the user |
| SyncLemmas.SyncAlreadyOwned | lib/actions/cart-actions.ts:190-192 | the id names the user's own cart: returned as stored, nothing written |
| SyncLemmas.SyncReowns | lib/actions/cart-actions.ts:194-211 | no cart of the user's own: the named cart is connected to the user, lines kept, no cart created or deleted |
| SyncLemmas.SyncOwnedOnly | lib/actions/cart-actions.ts:213-215 | the id names no cart: the user's own cart as stored, nothing written |
| SyncLemmas.SyncMerges | lib/actions/cart-actions.ts:217-253 | both carts exist and differ: the merge runs |
| SyncLemmas.MergeOrder | lib/actions/cart-actions.ts:217-250 | one line write per anonymous line, all into the owned cart, then the deletion of the anonymous cart last; the owned cart is never deleted |
| SyncLemmas.MergeReturnsMerged | lib/actions/cart-actions.ts:253 | the merge returns the owned cart as the loop left it |
| SyncLemmas.MergeIntoEmpty | lib/actions/cart-actions.ts:230-242 | an owned cart read as empty ends with the anonymous lines' products, titles, prices, images and quantities, in order, under distinct ids |
| SyncLemmas.MergeIntoFirstLine | lib/actions/cart-actions.ts:218-229 | an owned cart read with lines ends with only its first line changed, to its quantity plus the last anonymous quantity |
| UpdateLemmas.FoundIsReturned | lib/actions/cart-actions.ts:41-63 | a cart that is found is returned as stored, and nothing is written |
| UpdateLemmas.GetOrCreateSettles | lib/actions/cart-actions.ts:28-64 | after one call the same call finds the cart the first returned, unless signed out with an unknown id |
| UpdateLemmas.UpdateFound | lib/actions/cart-actions.ts:101-149 | past validation, with a cart to find, the update is the line write on that cart |
| UpdateLemmas.UpdateZeroDeletes | lib/actions/cart-actions.ts:113-117 | quantity 0 deletes the product's line and changes nothing else; the cart comes back without it |
| UpdateLemmas.UpdatePositiveSets | lib/actions/cart-actions.ts:118-124 | a positive quantity replaces the quantity of the product's line and nothing else |
| UpdateLemmas.UpdateNoOp | lib/actions/cart-actions.ts:110-146 | no quantity, or 0 for a product with no line: nothing written and the cart comes back as it was |
| UpdateLemmas.UpdateAppends | lib/actions/cart-actions.ts:125-141 | a new product with positive quantity, a title and a non-zero price appends one line, title and image trimmed, under a fresh id |
| UpdateLemmas.UpdateNeedsTitleAndPrice | lib/actions/cart-actions.ts:127-129 | a new product without a title or with a falsy price fails with both the prefix and the message; a cart created for it stays created |
| UpdateLemmas.WinningItemWithoutPrice | lib/actions/cart-actions.ts:266-274 | a winning product without a price, not yet in its cart, always fails with both prefixes, whatever else it has |
| UpdateLemmas.UpdateNeverDuplicates | lib/actions/cart-actions.ts:106-141 | from a valid database every returned cart holds each product at most once |
| UpdateLemmas.UpdateAfterResolve | lib/actions/cart-actions.ts:101-149 | past validation, the update is its first cart resolution followed by the same update on the resolved database |
| UpdateLemmas.UpdateIdempotent | lib/actions/cart-actions.ts:84-150 | signed in, or with an id that names a cart: applying the same update twice leaves the database and the result as applying it once (the signed-out case with an id naming no cart is excluded; see `UpdateFix.UpdateTwiceSignedOut`) |
| UpdateLemmas.DeleteTwice | lib/actions/cart-actions.ts:113-117 | a second deletion finds no line and changes nothing |
| UpdateLemmas.SetTwice | lib/actions/cart-actions.ts:118-124 | a second write of the same quantity changes nothing |
| UpdateLemmas.AppendTwice | lib/actions/cart-actions.ts:125-141 | a second identical add finds the appended line and changes nothing |
| ProductMerge.MergeByProductSums | lib/actions/cart-actions.ts:221 | under the intended merge every product ends with the sum of both carts' quantities |
| ProductMerge.MergeByProductUnique | lib/actions/cart-actions.ts:217-243 | the intended merge keeps one line per product |
| ProductMerge.SelfMatchMisroutes | lib/actions/cart-actions.ts:218 | a concrete input on which the loop as written adds a quantity to the wrong product |
| UpdateFix.UpdateReturnsOtherCart | lib/actions/cart-actions.ts:149 | signed out with an unknown id, the line goes into one new cart and a second, empty cart is returned |
| UpdateFix.LineInFirstCart | lib/actions/cart-actions.ts:101-149 | in that case the first new cart holds the line and the returned one is empty |
| UpdateFix.UpdateTwiceSignedOut | lib/actions/cart-actions.ts:101-149 | signed out, with an id handed out before and since deleted, each run of the same update creates two new carts and a line (the id counter moves by three each time) and the two runs return different carts: the update is not idempotent there |
| UpdateFix.UpdateCartItemFixed | lib/actions/cart-actions.ts:84-150 | the update as intended returns the cart it resolved and wrote to, stored as returned |
| UpdateFix.FixedHoldsTheLine | lib/actions/cart-actions.ts:110-141 | after a successful corrected update with a positive quantity, the returned cart holds the product with exactly that quantity |
| UpdateFix.FixedAgreesWhenFound | lib/actions/cart-actions.ts:149 | wherever the cart is found again (signed in, or a known id) the corrected and the written update agree |
| CartService.CartRepository.Issue | lib/actions/cart-actions.ts:12-250 | one database write, in place, leaves the tables `Apply` describes |
| CartService.CartRepository.CreateCart | lib/actions/cart-actions.ts:9-26 | the tables and the cart returned are those of `CartActions.CreateCart` |
| CartService.CartRepository.GetOrCreateCart | lib/actions/cart-actions.ts:28-64 | the tables and the cart returned are those of `CartActions.GetOrCreateCart` |
| CartService.CartRepository.UpdateCartItem | lib/actions/cart-actions.ts:84-150 | the tables and the result are those of `CartActions.UpdateCartItem` |
| CartService.CartRepository.WriteLine | lib/actions/cart-actions.ts:106-149 | the tables and the result are those of `CartActions.WriteLine` |
| CartService.CartRepository.AddWinningItemToCart | lib/actions/cart-actions.ts:256-276 | the tables and the result are those of `CartActions.AddWinningItemToCart` |
| CartService.CartRepository.SyncCartWithUser | lib/actions/cart-actions.ts:152-254 | the tables and the result are those of `CartActions.SyncCartWithUser` |
| CartService.CartRepository.Merge | lib/actions/cart-actions.ts:217-253 | the tables and the result are those of `CartActions.Merge` |
| CartService.CartRepository.MergeLines | lib/actions/cart-actions.ts:217-244 | the loop, one write per anonymous line, leaves the tables the writes `MergeWrites` produce |
| CartService.UpdateCartItemKeepsValid | lib/actions/cart-actions.ts:84-150 | the update keeps the database invariant |
| CartStore.IndexOfId | stores/cart-store.ts:65 | `find` by id returns the first line with that id, and none only when no line has it |
| CartStore.IndexOfTwin | stores/cart-store.ts:77-81 | `find` by lower-cased title and price returns the first such line, and none only when there is none |
| CartStore.RemoveById | stores/cart-store.ts:139 | the filter keeps only lines with other ids, all taken from the list |
| CartStore.Existing | stores/cart-store.ts:64-89 | the listed item `addItem` delegates to: the one with the same id, else the title-and-price twin |
| CartStore.Answered | stores/cart-store.ts:99-118 | a thrown server error leaves the fields as they were; a returned cart sets the cart id to it and the lines |
| CartStore.Max0 | stores/cart-store.ts:163 | `Math.max(0, q)` |
| CartStore.Load | stores/cart-store.ts:195-201 | loading a server cart sets its id, marks loaded, and keeps the open flag |
| CartStore.TotalsNonNegative | stores/cart-store.ts:255-265 | with no negative quantity the item count is never negative; with no negative price either, nor is the total price |
| CartStore.CartStore.GetTotalItems | stores/cart-store.ts:255-258 | zero for no lines, never negative while no quantity is |
| CartStore.CartStore.GetTotalPrice | stores/cart-store.ts:259-265 | zero for no lines, never negative while no price or quantity is |
| CartStore.CartStore.Persisted | stores/cart-store.ts:270-273 | only the lines and the cart id are persisted |
| CartStore.CartStore.constructor | stores/cart-store.ts:41-44 | empty, closed, no cart id, loaded only outside a browser |
| CartStore.CartStore.AddItem | stores/cart-store.ts:48-123 | fields, server tables and outcome are those of `AddItemStep` |
| CartStore.CartStore.AddToCart | stores/cart-store.ts:63-122 | fields, server tables and outcome are those of `AddToCartStep` |
| CartStore.CartStore.AddNew | stores/cart-store.ts:91-118 | fields, server tables and outcome are those of `AddNewStep` |
| CartStore.CartStore.RemoveItem | stores/cart-store.ts:125-142 | fields, server tables and outcome are those of `RemoveItemStep` |
| CartStore.CartStore.UpdateQuantity | stores/cart-store.ts:144-185 | fields, server tables and outcome are those of `UpdateQuantityStep` |
| CartStore.CartStore.SyncWithUser | stores/cart-store.ts:187-238 | fields, server tables and outcome are those of `SyncWithUserStep` |
| CartStore.CartStore.ClearCart | stores/cart-store.ts:240-242 | the lines go, everything else stays; the persisted state is no lines and the same cart id |
| CartStore.CartStore.Open | stores/cart-store.ts:244-246 | only the open flag changes, to open; nothing persisted changes |
| CartStore.CartStore.Close | stores/cart-store.ts:247-249 | only the open flag changes, to closed; nothing persisted changes |
| CartStore.CartStore.SetLoaded | stores/cart-store.ts:251-253 | only the loaded flag changes; nothing persisted changes |
| CartStore.CartStore.SetStore | stores/cart-store.ts:46 | each field passed is overwritten, the others stay |
| CartStore.ToClientItemsUnique | stores/cart-store.ts:195-201 | a loaded server cart, whose line ids are distinct, gives distinct client ids |
| CartStore.RemoveByIdUnique | stores/cart-store.ts:139 | the removal filter keeps ids unique |
| CartStore.AddedUnique | stores/cart-store.ts:104-117 | the local add never lists an id twice |
| CartStore.RemoveItemKeepsValid | stores/cart-store.ts:125-142 | `removeItem` keeps the server database valid |
| CartStore.UpdateQuantityKeepsUnique | stores/cart-store.ts:144-185 | `updateQuantity` keeps client ids unique |
| CartStore.UpdateQuantityKeepsValid | stores/cart-store.ts:144-185 | `updateQuantity` keeps the server database valid |
| CartStore.AddItemKeepsValid | stores/cart-store.ts:48-123 | `addItem` keeps the server database valid |
| CartStore.SyncKeepsValid | stores/cart-store.ts:187-238 | every path of `syncWithUser` keeps the server database valid and client ids unique |
| StoreLemmas.RemoveByIdAt | stores/cart-store.ts:139 | with unique ids, removing the id at `k` removes exactly position `k`, the rest in order |
| StoreLemmas.SetQuantityAt | stores/cart-store.ts:174-176 | with unique ids, setting the quantity of the id at `k` changes that line's quantity only |
| StoreLemmas.TotalsAppend | stores/cart-store.ts:255-265 | both totals add up over a concatenation |
| StoreLemmas.TotalsUpdate | stores/cart-store.ts:255-265 | replacing one line changes each total by the difference between the two lines |
| StoreLemmas.AddItemObtainsCart | stores/cart-store.ts:52-61 | without a cart id, `addItem` keeps the id of the cart `getOrCreateCart()` gives, then adds as with that id held |
| StoreLemmas.AddListedId | stores/cart-store.ts:64-73 | an id already listed goes through `updateQuantity` with the summed quantity; that line alone changes |
| StoreLemmas.AddSameTitleAndPrice | stores/cart-store.ts:75-89 | a title-and-price twin goes through `updateQuantity` for the twin; the new id is never listed |
| StoreLemmas.AddNewItem | stores/cart-store.ts:91-118 | a new item goes to the server under its own id; once a cart returns, it is appended once and both totals grow by its share; an error leaves the fields |
| StoreLemmas.AddItemNeverDuplicates | stores/cart-store.ts:48-123 | `addItem` never lists an id twice |
| StoreLemmas.RemoveItemDrops | stores/cart-store.ts:125-142 | without a cart id nothing happens; otherwise quantity 0 goes to the server and, once a cart returns, exactly the line with that id is gone |
| StoreLemmas.UpdateQuantityNoOp | stores/cart-store.ts:144-156 | without a cart id or a listed id nothing changes |
| StoreLemmas.UpdateQuantityListed | stores/cart-store.ts:158-184 | the line's fields with `max(0, q)` go to the server; once a cart returns, that line alone is set (positive) or dropped |
| StoreLemmas.SyncShowsStoredCart | stores/cart-store.ts:187-238 | every path resolves, ends loaded with the open flag kept, and shows exactly a stored server cart |
| StoreLemmas.SyncShowsOwnCart | stores/cart-store.ts:191-202 | signed in and not failing, the cart shown is the user's own |
| ClientIds.RemoveAfterSyncMisses | stores/cart-store.ts:195-201 | after a sync, removing a line sends a line id as a product id: the server keeps the line while the client drops it |
| ClientIds.UpdateQuantityAfterSyncAppends | stores/cart-store.ts:159-164 | after a sync, changing a quantity appends a second line for the same product on the server |
| ClientIds.LoadByProduct | stores/cart-store.ts:195-201 | the intended load: the server cart's id and lines keyed by product id, one client line per server line |
| ClientIds.RemoveAfterSyncFixed | stores/cart-store.ts:125-142 | under the intended load, a removal removes the same line on the server and on the client |
| Checkout.Filter | lib/actions/stripe-actons.ts:19-33 | the filter keeps no more lines than it is given |
| Checkout.FilterExactly | lib/actions/stripe-actons.ts:19-33 | a line is kept exactly when it is in the cart and accepted |
| Checkout.FilterAppend | lib/actions/stripe-actons.ts:19-33 | the filter works piece by piece, so kept lines stay in cart order |
| Checkout.FilterKept | lib/actions/stripe-actons.ts:19-33 | every kept line is accepted |
| Checkout.StoredLinesChargeable | lib/actions/stripe-actons.ts:19-33 | lines as the database stores them are all chargeable, so a stored cart loses nothing to the filter |
| Checkout.TotalAppend | lib/actions/stripe-actons.ts:39-42 | the total over a concatenation is the sum of the totals |
| Checkout.TotalNonNegative | lib/actions/stripe-actons.ts:39-42 | lines with no negative price or quantity never total below zero |
| Checkout.ShippingRule | lib/actions/stripe-actons.ts:74-76 | free from $15, $5 below; free exactly when the display name says so; a larger order never pays more shipping |
| Checkout.CreateCheckoutSession | lib/actions/stripe-actons.ts:10-42 | resolves the cart like `getOrCreateCart(cartId)`, and a session asked for describes the chargeable lines |
| Checkout.CheckoutRefusesEmpty | lib/actions/stripe-actons.ts:14-16 | an empty cart is refused with "Cart is empty" |
| Checkout.CheckoutRefusesUnchargeable | lib/actions/stripe-actons.ts:35-37 | a cart with no chargeable line is refused with "No valid items in cart" |
| Checkout.SessionLines | lib/actions/stripe-actons.ts:46-76 | one session line per chargeable line, in order, with its title, amount, quantity and image; shipping on the total; the cart id; `"_"` exactly when nobody is signed in |
| Checkout.CheckoutAsksWhenChargeable | lib/actions/stripe-actons.ts:14-37 | a session is asked for exactly when the resolved cart has a chargeable line |
| Checkout.CheckoutOfStoredCart | lib/actions/stripe-actons.ts:12-56 | from a valid database, only the empty-cart refusal can happen, and the session has one line per cart line |

## Left out

- Prisma, Clerk, Sanity and Stripe are not modelled as services. The database is the value `Store`, the user is a parameter, the image URL is a parameter, and the checkout stops at the request it would send. The Stripe call itself, the `session.url` check (stripe-actons.ts:91-93) and the returned URL are not part of this model.
- `crypto.randomUUID()` is a counter; generated ids never repeat, which is what the code relies on.
- `revalidatePath`, `console.error` and `customer_email` have no effect on the cart and are left out. So do the constant session fields: payment method, mode, URLs, allowed countries and delivery estimate.
- Prices are whole cents, not floating-point dollars; `Math.round(price * 100)` is therefore the price itself.
- `toLowerCase` and `trim` are modelled for ASCII letters and the common white-space characters only.
- JavaScript's dynamic type checks in `validateCartItemData` and the checkout filter (`typeof … !== 'number'`) cannot fail on typed values and are left out.
- Database writes never fail in the model: `Repository.Apply` is total. In the source any Prisma error inside `updateCartItem`'s `try` is caught and rethrown as "Failed to update cart: …" (cart-actions.ts:143-146), and a cart `getOrCreateCart` created for it stays created; the model reaches that path only for the missing title-and-price error. Likewise the merge loop of `syncCartWithUser` issues its writes one by one with no transaction (cart-actions.ts:217-250), so a failing write would leave a partial merge and the anonymous cart undeleted; the model always applies every write.
- UpdateLemmas.UpdateIdempotent: holds only when the caller is signed in or the id names a cart. Signed out with an id that names no cart (a cart deleted after checkout, while the browser still holds its id), every call creates two new carts and returns the second, so repeating the update is not idempotent; `UpdateFix.UpdateTwiceSignedOut` proves that.
- Concurrency is left out: each server action and each client action runs to completion before the next starts.
- Zustand's persistence, hydration and `skipHydration` are left out beyond `partialize` (`CartStore.CartStore.Persisted`).
- `addItem`'s `!newCart` branch (cart-store.ts:55-58) cannot happen: `getOrCreateCart` always returns a cart.
- `updateCartItem`'s `!cart` branch (cart-actions.ts:102-104) cannot happen for the same reason.
- `syncWithUser` catching a thrown `syncCartWithUser` is the parameter `failed`. The sync is taken to throw before it has written anything.
- CartStore.CartStore.AddItem: like every client method, it requires only that the server's lookups work (`Indexed`). It does not restate that the database invariant is kept; that is proved separately in `CartStore.AddItemKeepsValid`, `RemoveItemKeepsValid`, `UpdateQuantityKeepsValid` and `SyncKeepsValid`.
- CartService.CartRepository.UpdateCartItem: does not restate that the database invariant is kept; that is `CartService.UpdateCartItemKeepsValid`.
- Signing in with no cart of one's own is sometimes described as copying the anonymous cart into a new owned cart and deleting it. The code connects the anonymous cart to the user instead (cart-actions.ts:194-211), and the model follows the code (`CartActions.Reown`, `SyncLemmas.SyncReowns`).

## Findings

| source | as written | input that shows it | evidently intended | confidence | as-written member | corrected member |
|---|---|---|---|---|---|---|
| lib/actions/cart-actions.ts:218 | the `find` callback's parameter `item` shadows the loop's `item`, so it compares a line's product id with itself and always picks the owned cart's first line | owned cart [p2 ×1, p1 ×1], anonymous cart [p1 ×2]: the owned cart ends [p2 ×3, p1 ×1] | each anonymous quantity added to the owned line for the same product: [p2 ×1, p1 ×3] | not executed | ProductMerge.SelfMatchMisroutes | ProductMerge.MergeByProductSums |
| lib/actions/cart-actions.ts:149 | `updateCartItem` returns a second `getOrCreateCart(cartId)` instead of the cart it wrote to | signed out, with an id that names no cart: the line goes into one new cart and a second, empty cart is returned | return the cart the line was written to | not executed | UpdateFix.UpdateReturnsOtherCart | UpdateFix.FixedHoldsTheLine |
| stores/cart-store.ts:195-201 | loading a server cart copies its rows, so client ids become line ids, while `removeItem` and `updateQuantity` send the client id as the product id (cart-store.ts:131, 159) | after a sync, remove a line whose line id is not also a product id: the server keeps it, the client drops it; change its quantity: the server appends a second line | key client lines by product id when loading | not executed | ClientIds.RemoveAfterSyncMisses | ClientIds.RemoveAfterSyncFixed |
