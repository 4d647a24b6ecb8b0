# Cart store of go-marketplace, in Dafny

This project models the cart hook of the go-marketplace mobile app (`src/hooks/cart.tsx`)
without its React wrapper. A `CartProvider` holds the ordered list of line items in the cart.
Each item has an id, a title, an image URL, a price and a quantity. The provider offers
`addToCart`, `increment` and `decrement`, and after each one it writes a snapshot of the list
to the storage key `@products`. At startup `loadProducts` reads that snapshot back.

- `products.dfy` (module `Products`) holds the line-item data. It defines the list each
  operation leaves behind as a pure function (`Incremented`, `Decremented`, `Added`, and
  `AddSnapshot` for what `addToCart` writes). Its lemmas state what the hook promises: only
  the target item changes, positions and order are kept, an absent id is a no-op, ids stay
  unique, quantities stay at least one, and increment followed by decrement restores the list.
- `cart.dfy` (module `CartHook`) holds the class `CartProvider`. It has the `products` state
  and a `stored` field for the storage key. Its methods follow the source step by step. The
  `find` callbacks change the matching item in place. `map` copies the list, `indexOf` finds
  the item again and `splice` removes it. Each method is proved to leave exactly the list the
  matching `Products` function gives and to write the snapshot the source writes. Two client
  methods replay a concrete session and a restart.

A quantity is `Count(n)` or `Missing`. `Missing` means the item has no `quantity` field, which
is how `addToCart` writes a new item to storage. The price is an opaque type, because the
cart stores it and never computes with it.

## Model

| member | source | states |
|---|---|---|
| `Products.FindIndex` | src/hooks/cart.tsx:95-97 | the result is the first position holding the id, and it is None exactly when no item has the id |
| `Products.IncrementedRaisesOnlyTarget` | src/hooks/cart.tsx:45-57 | with unique ids, increment on a present id keeps the length, raises that item's quantity by one, and leaves its other fields and every other item where and as they were |
| `Products.IncrementedAbsentIsNoOp` | src/hooks/cart.tsx:45-55 | increment on an absent id leaves the list unchanged |
| `Products.IncrementedKeepsInvariant` | src/hooks/cart.tsx:45-57 | increment keeps ids unique, keeps every quantity at least one, and keeps the stored-list invariant |
| `Products.DecrementedLowersInPlace` | src/hooks/cart.tsx:65-80 | decrement on an item with quantity above one lowers it by one in place and changes nothing else |
| `Products.DecrementedRemovesAtOne` | src/hooks/cart.tsx:65-87 | decrement on an item with quantity one removes it: earlier items keep their positions, later items move up by one in order, and the id is gone |
| `Products.DecrementedAbsentIsNoOp` | src/hooks/cart.tsx:65-85 | decrement on an absent id leaves the list unchanged |
| `Products.DecrementedKeepsInvariant` | src/hooks/cart.tsx:83-87 | decrement keeps ids unique and keeps every quantity at least one |
| `Products.IncrementThenDecrement` | src/hooks/cart.tsx:43-91 | in any state the hook holds (unique ids, quantities at least one or absent), increment followed by decrement of an id whose items carry a numeric quantity restores the list exactly |
| `Products.AddedAppendsNew` | src/hooks/cart.tsx:104 | addToCart of a new id appends the item with quantity one and leaves every earlier item unchanged |
| `Products.AddedExistingIncrements` | src/hooks/cart.tsx:95-101 | addToCart of a present id is increment: same length, and that item's quantity goes up by exactly one |
| `Products.AddedKeepsInvariant` | src/hooks/cart.tsx:93-109 | addToCart keeps ids unique and quantities at least one; the list and the snapshot keep the stored-list invariant |
| `Products.AddTwice` | src/hooks/cart.tsx:93-112 | on any list with unique ids, adding a new item twice is one add followed by one increment; the list grows by one and the item ends with quantity two |
| `Products.AddAll` | src/hooks/cart.tsx:93-112 | any series of addToCart calls on a list whose quantities are at least one keeps them at least one |
| `Products.AddAllDistinct` | src/hooks/cart.tsx:93-112 | adding items with distinct ids to an empty cart gives one line item per id, in the order added, each with quantity one |
| `Products.AddSnapshotLosesQuantity` | src/hooks/cart.tsx:104-109 | for a new id, the snapshot addToCart writes differs from the list it leaves in memory: the new item has no quantity, so the reloaded list breaks the quantity invariant |
| `Products.AddSnapshotOfExisting` | src/hooks/cart.tsx:99-101 | for a present id, addToCart writes and keeps the same list, `Incremented`, by delegating to increment (that increment writes its list is `CartHook.CartProvider.Increment`'s contract) |
| `CartHook.ReplaceMatches` | src/hooks/cart.tsx:49-55 | the copy made by map has the same length; items with the id are replaced by the found item and all others are kept |
| `CartHook.IndexOf` | src/hooks/cart.tsx:81 | the result is the first position holding the product, or -1 exactly when the product is undefined or absent |
| `CartHook.CartProvider.constructor` | src/hooks/cart.tsx:29 | the cart starts empty over the snapshot an earlier session left, with the invariant holding |
| `CartHook.CartProvider.LoadProducts` | src/hooks/cart.tsx:31-41 | a stored snapshot replaces the list; without one the list stays as it is (empty at startup); storage is untouched |
| `CartHook.CartProvider.Find` | src/hooks/cart.tsx:95-97 | the scan stops at the first item with the id, or reports none |
| `CartHook.CartProvider.Increment` | src/hooks/cart.tsx:43-61 | the new list is `Incremented` of the old one, the invariant is kept, and the written snapshot equals the new list |
| `CartHook.CartProvider.Decrement` | src/hooks/cart.tsx:63-91 | the new list is `Decremented` of the old one, the invariant is kept, and the written snapshot equals the new list |
| `CartHook.CartProvider.AddToCart` | src/hooks/cart.tsx:93-112 | the new list is `Added` of the old one; the written snapshot is `AddSnapshot`, which for a new id is the old list plus the item without quantity |
| `CartHook.CartProvider.AddToCartCorrected` | src/hooks/cart.tsx:104-109 | the same list as addToCart, but the written snapshot equals the new list, so a reload gives back the same cart |

## Left out

- React machinery: `createContext`, `useState`, `useCallback`, `useMemo`, `useEffect`, the provider's JSX and the `useCart` check that throws outside a provider. None of it is cart logic.
- AsyncStorage and JSON: the key `@products` is the `stored` field, holding a list of line items rather than JSON text. A failed read or write and a corrupt snapshot are not modelled.
- Asynchrony: each operation is one atomic step. The lost updates between rapid calls, caused by callbacks capturing a stale `products`, are not modelled. Neither is the difference between `setProducts(old => ...)` and the captured `products` in addToCart.
- Price is an opaque value, and quantities are unbounded integers. JavaScript float precision never matters for counts this small.
- Objects are values: the in-place mutation by `find` is modelled as an update of the list. `indexOf` compares by value, which gives the same position because ids are unique. Mutating the old state array is visible only in the snapshot increment writes, and that snapshot is modelled.
- CartHook.CartProvider.Increment: requires that the item with the id have a numeric quantity (`NumericAt`). On an item reloaded without a quantity, the source computes `NaN`, `find` fails, and `map` puts `undefined` into the list. The model's list cannot hold `undefined`.
- CartHook.CartProvider.Decrement: requires `NumericAt` for the same reason. On an item without a quantity the source leaves a `NaN` quantity that is never removed.
- CartHook.CartProvider.AddToCart: requires `NumericAt`, because a present id goes to increment.
- CartHook.CartProvider.AddToCartCorrected: requires `NumericAt`, for the same reason as AddToCart.
- CartHook.ReplaceMatches: requires that find returned an item whenever some item has the id. The source would otherwise put `undefined` into the copy.
- CartHook.CartProvider.constructor: requires that the snapshot left under the key have unique ids and quantities that are at least one or absent. Only this hook writes the key, and every write it makes while `NumericAt` holds for the targeted id keeps that invariant. An increment or decrement of an item reloaded without a quantity would make it `NaN` in the source, which storage keeps as `null`; that write is outside the model (see the `NumericAt` lines above).
- Duplicate ids never arise: the class invariant keeps ids unique. With duplicates the source would bump only the first match and then copy it over every other match. `ReplaceMatches` models that copy, but the class methods never meet the case.
- `Product.quantity` is a required field (src/hooks/cart.tsx:16), and `loadProducts` puts the stored list straight into the state (src/hooks/cart.tsx:36). But addToCart writes the new item without it (src/hooks/cart.tsx:108). The model follows the code and records the gap under Findings.

## Findings

| source | as written | input that shows it | evidently intended | confidence | as-written member | corrected member |
|---|---|---|---|---|---|---|
| src/hooks/cart.tsx:106-109 | addToCart of a new id writes `[...products, product]`, where `product` has no `quantity` field | empty cart, addToCart of item "a", restart: loadProducts gives item "a" with no quantity, not quantity 1 | write the list the state now holds, `[...products, { ...product, quantity: 1 }]`, so a reload restores the cart | high; not executed | `Products.AddSnapshotLosesQuantity` | `CartHook.CartProvider.AddToCartCorrected` |
