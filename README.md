# Shopping-cart provider, modelled in Dafny

This project models the cart logic of a React shopping-cart hook
(`src/hooks/useCart.tsx`). The provider holds an ordered list of cart lines.
Each line is a catalogue record (id, title, price, image) plus an integer
`amount`. Three operations change the list:

- `addProduct(id)` looks the id up and asks the stock endpoint how many units
  exist. It refuses when the current amount (0 if absent) plus one exceeds
  that figure. Otherwise it bumps the existing line, or it fetches the product
  and appends it with amount 1.
- `removeProduct(id)` looks up the id's position and reports an error when it
  is absent.
- `updateProductAmount(id, amount)` ignores a non-positive amount and refuses
  an amount above stock. It sets a present line's amount to `amount` and
  reports an error for an absent id.

Each operation works on a copy of the list, changes the copy and commits it.
A failure shows one of four messages and commits nothing.

Files:

- `cart_items.dfy` (module `CartItems`): lines, products, the lookup
  `FindIndex` (the source's `find`/`findIndex`) and the cart invariants
  (unique ids, positive amounts).
- `cart_ops.dfy` (module `CartOps`): each operation as a function from the
  cart before the call and the lookup answers to an outcome and the cart
  after it. It also holds the lemmas about one call and about any sequence
  of calls.
- `use_cart.dfy` (module `UseCart`): class `CartProvider`. Its field `cart` is
  the committed list. Its methods follow the source step by step (copy, look
  up, check, change the copy, commit). Each is proved to produce exactly the
  outcome and cart of the matching `CartOps` function.

The remote lookups are parameters. A stock figure or product record is
`Some(...)` when the request succeeded and `None` when it threw, since the
source catches every such exception. The toast messages are the `Outcome`
values `StockError`, `AddError`, `RemoveError` and `UpdateError`. `Ok` stands
for "no message". The non-id fields of a product are an uninterpreted type
parameter `P`.

**Removal does not remove.** `removeProduct` calls `updatedCart.slice(index, 1)`
and discards the result, then commits `updatedCart` unchanged. So a present
id gives no error and the cart keeps the same contents. The intended
behaviour is that the line is deleted and the cart gets one shorter. This
model follows the code: `Remove` returns the cart unchanged.
`RemoveKeepsTarget`, `RunNeverDropsIds` and `RunRemovesOnly` state the
consequences, and `UseCart.Scenarios` shows that removing the only line
leaves it in place. `RemoveIntended` is the deletion the code evidently
means, and `RemoveIntendedDeletes` proves it deletes exactly the line with
the id (see "## Findings"). The provider class keeps the code's behaviour.

**Appended lines carry the fetched record's id.** `addProduct` appends
`{...response.data, amount: 1}`, so the new line's id is whatever the product
endpoint returned. The model keeps this. Uniqueness of ids after an add is
therefore proved only when the fetched record's id is the one asked for
(`AddKeepsValid`, `RunKeepsValid`).

## Model

| member | source | states |
|---|---|---|
| `CartItems.FindIndex` | src/hooks/useCart.tsx:83 | the result is -1 exactly when no line has the id; otherwise it is the position of the first line with that id |
| `CartItems.FindIndexUnique` | src/hooks/useCart.tsx:52 | in a cart without duplicate ids, the lookup returns the one line that has the id |
| `CartItems.FindIndexIgnoresAmounts` | src/hooks/useCart.tsx:114 | changing a line's amount does not change where any id is found |
| `CartOps.Add` | src/hooks/useCart.tsx:49-78 | the outcome is Ok, StockError or AddError; a failure leaves the cart unchanged; a failed stock lookup gives AddError; on success the cart grows by one line exactly when the id was absent, and existing lines keep their ids |
| `CartOps.Remove` | src/hooks/useCart.tsx:80-94 | Ok exactly when the id is present, RemoveError exactly when it is absent; the committed cart equals the cart before the call |
| `CartOps.Update` | src/hooks/useCart.tsx:96-125 | the outcome is Ok, StockError or UpdateError; a non-positive amount gives Ok and leaves the cart unchanged; a failed stock lookup gives UpdateError; within stock the outcome is Ok exactly when the id is present; a failure leaves the cart unchanged; length, ids and product data of all lines are kept |
| `CartOps.AddPresent` | src/hooks/useCart.tsx:52-74 | in a cart with unique ids, adding a present id: a failed stock lookup gives AddError and no change; amount + 1 over stock gives StockError and no change; otherwise Ok, that line's amount is old + 1, and the length and all other lines are unchanged |
| `CartOps.AddAbsent` | src/hooks/useCart.tsx:54-74 | adding an absent id: a failed stock lookup gives AddError; stock below 1 gives StockError; a failed product lookup gives AddError (each with no change); otherwise Ok, the old lines are kept in order and the fetched record is appended with amount 1 |
| `CartOps.AddAbsentCreatesOneLine` | src/hooks/useCart.tsx:66-71 | when the fetched record has the requested id, exactly one line has that id after the add: the new last line, with amount 1 |
| `CartOps.AddWithinStock` | src/hooks/useCart.tsx:55-65 | in a cart with unique ids, after a successful add, the stock lookup succeeded and every line with the id has an amount no larger than the stock figure |
| `CartOps.AddKeepsValid` | src/hooks/useCart.tsx:64-74 | add keeps ids unique and amounts at least 1, provided the fetched record has the requested id |
| `CartOps.RemoveKeepsTarget` | src/hooks/useCart.tsx:83-87 | removing a present id reports Ok but the committed cart still contains the id and has the same length |
| `CartOps.RemoveIntended` | src/hooks/useCart.tsx:83-90 | intended removal: Ok exactly when the id is present, RemoveError exactly when it is absent with the cart unchanged; on success the cart is one line shorter |
| `CartOps.RemoveIntendedDeletes` | src/hooks/useCart.tsx:85-87 | with unique ids, intended removal of a present id commits the old cart without that line, in the same order; no line has the id afterwards; the invariants are kept |
| `CartOps.RemoveScenario` | src/hooks/useCart.tsx:86 | for the cart holding only line 2, removing id 2 as written leaves the line in place, while intended removal leaves the cart empty |
| `CartOps.UpdatePresent` | src/hooks/useCart.tsx:105-118 | in a cart with unique ids, updating a present id to a positive amount: a failed stock lookup gives UpdateError and no change; over stock gives StockError and no change; otherwise Ok, that line's amount is exactly `amount` (not added), and all other lines are unchanged |
| `CartOps.UpdateAbsent` | src/hooks/useCart.tsx:105-123 | updating an absent id to a positive amount never changes the cart: over stock gives StockError, anything else gives UpdateError |
| `CartOps.UpdateIdempotent` | src/hooks/useCart.tsx:116-118 | the amount is absolute: doing the same update twice has the same outcome and cart as doing it once |
| `CartOps.UpdateWithinStock` | src/hooks/useCart.tsx:105-118 | in a cart with unique ids, after a successful update to a positive amount, the stock lookup succeeded and every line with the id has exactly `amount`, which is no larger than the stock figure |
| `CartOps.UpdateKeepsValid` | src/hooks/useCart.tsx:101-118 | update keeps ids unique and amounts at least 1 |
| `CartOps.RunKeepsValid` | src/hooks/useCart.tsx:49-125 | after any sequence of calls, ids stay unique and amounts stay at least 1, provided every product lookup returns the record asked for |
| `CartOps.RunNeverDropsIds` | src/hooks/useCart.tsx:80-94 | an id in the cart is still in it after any sequence of calls |
| `CartOps.RunRemovesOnly` | src/hooks/useCart.tsx:85-87 | any sequence of remove calls leaves the cart exactly as it was |
| `UseCart.CartProvider.constructor` | src/hooks/useCart.tsx:25-33 | the initial cart is the stored cart, or empty when storage holds none |
| `UseCart.CartProvider.AddProduct` | src/hooks/useCart.tsx:49-78 | the returned outcome and committed cart are those of `Add`; a failure commits nothing; unique ids and positive amounts are kept when the fetched record has the requested id |
| `UseCart.CartProvider.RemoveProduct` | src/hooks/useCart.tsx:80-94 | the returned outcome and committed cart are those of `Remove`; the committed cart is the old one |
| `UseCart.CartProvider.UpdateProductAmount` | src/hooks/useCart.tsx:96-125 | the returned outcome and committed cart are those of `Update`; a failure commits nothing; unique ids and positive amounts are kept |

## Findings

| source | as written | input that shows it | evidently intended | confidence | as-written member | corrected member |
|---|---|---|---|---|---|---|
| src/hooks/useCart.tsx:86 | `updatedCart.slice(productInCart, 1)` returns a new list that is discarded, so the committed cart still holds the line | cart `[{id: 2, amount: 1}]`, `removeProduct(2)`: Ok is reported and the cart is still `[{id: 2, amount: 1}]` | the line is deleted (for example with `splice(productInCart, 1)`), so the cart is `[]` and one line shorter | high, not executed | `CartOps.RemoveKeepsTarget` | `CartOps.RemoveIntended` |

## Left out

- React plumbing: the context, the provider component, the `useRef`/`useEffect` tracking of the previous cart and `useCart` (lines 1-24, 34-47, 127-140). They only make the state available to components.
- Persistence: reading and writing the cart under `@RocketShoes:cart` in `localStorage`, with `JSON.parse`/`JSON.stringify`. Browser storage and serialisation are outside the model. The constructor takes the stored cart as an optional value. A malformed stored string, which would throw in `JSON.parse`, is not modelled.
- The HTTP requests to `/stock/{id}` and `/products/{id}`. Their answers are parameters. A stock response with no `amount` field is not modelled: in the source, comparing a number with `undefined` is false, so the stock check would pass.
- A product response without an `id` field. The appended line's id would then be `undefined`, which `Product` cannot represent: every fetched record has an integer id.
- The toast texts. Only which message is shown is modelled, as `Outcome`.
- Async interleaving. Each operation is modelled as one atomic step on the cart it started from. The lost update between overlapping calls is not modelled.
- Aliasing from the shallow copy. `[...cart]` copies the list but shares the line objects, so setting `amount` also changes the line in the previous state. The model works on values. It captures the committed cart, which is the same either way, but not the mutation of the old state object.
- Numbers: ids, amounts and stock figures are modelled as unbounded integers. JavaScript numbers (doubles, possibly fractional) are not modelled.
- The `catch` branch of `removeProduct` (line 91-92) cannot be reached by anything in the modelled code, so it does not appear.
