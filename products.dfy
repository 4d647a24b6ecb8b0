/** Line items of the cart and the pure meaning of the cart's three mutations.
    Each function here gives the list that an operation of the cart hook
    (src/hooks/cart.tsx) leaves behind; the lemmas state what the hook promises
    about that list. */
module Products {

  /** A product's price: a JavaScript number that the cart stores and never computes with. */
  type Price(==)

  datatype Option<T> = None | Some(value: T)

  /** The `quantity` field of a stored product: a number, or no field at all
      (what `{...product}` of an item without quantity leaves). */
  datatype Quantity = Count(n: int) | Missing

  datatype Product = Product(id: string, title: string, imageUrl: string, price: Price, quantity: Quantity)

  /** The argument of `addToCart`: a product without its quantity. */
  datatype NewProduct = NewProduct(id: string, title: string, imageUrl: string, price: Price)

  /** `{ ...product, quantity: n }` */
  function WithQuantity(item: NewProduct, n: int): Product {
    Product(item.id, item.title, item.imageUrl, item.price, Count(n))
  }

  /** `product` itself, as it is written to storage: no quantity field. */
  function Bare(item: NewProduct): Product {
    Product(item.id, item.title, item.imageUrl, item.price, Missing)
  }

  /** JavaScript truthiness of a quantity after `+= 1`: zero, `undefined` and `NaN` are falsy. */
  predicate Truthy(q: Quantity) {
    q.Count? && q.n != 0
  }

  /** `quantity < 1`; `undefined < 1` is false. */
  predicate BelowOne(q: Quantity) {
    q.Count? && q.n < 1
  }

  function Bumped(p: Product): Product
    requires p.quantity.Count?
  {
    p.(quantity := Count(p.quantity.n + 1))
  }

  function Dropped(p: Product): Product
    requires p.quantity.Count?
  {
    p.(quantity := Count(p.quantity.n - 1))
  }

  predicate Contains(ps: seq<Product>, id: string) {
    exists j :: 0 <= j < |ps| && ps[j].id == id
  }

  predicate UniqueIds(ps: seq<Product>) {
    forall a, b :: 0 <= a < b < |ps| ==> ps[a].id != ps[b].id
  }

  /** The cart's invariant on quantities: every line item holds at least one unit. */
  predicate AllPositive(ps: seq<Product>) {
    forall j :: 0 <= j < |ps| ==> ps[j].quantity.Count? && ps[j].quantity.n >= 1
  }

  /** A quantity the hook can hold: at least one, or absent after a reload. */
  predicate Settled(q: Quantity) {
    q.Missing? || q.n >= 1
  }

  /** What every list the hook holds or writes satisfies. */
  predicate Consistent(ps: seq<Product>) {
    UniqueIds(ps) && forall j :: 0 <= j < |ps| ==> Settled(ps[j].quantity)
  }

  /** The items with this id carry a number as quantity, so `+= 1` and `-= 1` stay numeric. */
  predicate NumericAt(ps: seq<Product>, id: string) {
    forall j :: 0 <= j < |ps| && ps[j].id == id ==> ps[j].quantity.Count?
  }

  /** Position of the first item with this id: what `find` stops at. */
  function FindIndex(ps: seq<Product>, id: string): (r: Option<nat>)
    ensures r.Some? ==> r.value < |ps| && ps[r.value].id == id
    ensures r.Some? ==> forall j :: 0 <= j < r.value ==> ps[j].id != id
    ensures r.None? <==> !Contains(ps, id)
  {
    if ps == [] then None
    else if ps[0].id == id then Some(0)
    else match FindIndex(ps[1..], id)
      case None => None
      case Some(k) => Some(k + 1)
  }

  /** The list after `increment(id)`: the found item has one more unit. */
  function Incremented(ps: seq<Product>, id: string): seq<Product>
    requires NumericAt(ps, id)
  {
    match FindIndex(ps, id)
    case None => ps
    case Some(i) => ps[i := Bumped(ps[i])]
  }

  /** The list after `decrement(id)`: the found item has one unit less, and is
      spliced out when that leaves it below one. */
  function Decremented(ps: seq<Product>, id: string): seq<Product>
    requires NumericAt(ps, id)
  {
    match FindIndex(ps, id)
    case None => ps
    case Some(i) =>
      if BelowOne(Dropped(ps[i]).quantity) then ps[..i] + ps[i + 1..]
      else ps[i := Dropped(ps[i])]
  }

  /** The list after `addToCart(item)`. */
  function Added(ps: seq<Product>, item: NewProduct): seq<Product>
    requires NumericAt(ps, item.id)
  {
    if Contains(ps, item.id) then Incremented(ps, item.id)
    else ps + [WithQuantity(item, 1)]
  }

  /** The snapshot `addToCart(item)` writes: on a new id, the old list and the
      item without a quantity field. */
  function AddSnapshot(ps: seq<Product>, item: NewProduct): seq<Product>
    requires NumericAt(ps, item.id)
  {
    if Contains(ps, item.id) then Incremented(ps, item.id)
    else ps + [Bare(item)]
  }

  /** The list after calling `addToCart` with each item in turn. */
  function AddAll(ps: seq<Product>, items: seq<NewProduct>): (r: seq<Product>)
    requires AllPositive(ps)
    ensures AllPositive(r)
    decreases |items|
  {
    if items == [] then ps
    else
      var before := AddAll(ps, items[..|items| - 1]);
      AddedKeepsInvariant(before, items[|items| - 1]);
      Added(before, items[|items| - 1])
  }

  predicate DistinctIds(items: seq<NewProduct>) {
    forall a, b :: 0 <= a < b < |items| ==> items[a].id != items[b].id
  }

  // ---------------------------------------------------------------------------
  // increment

  /** `increment(id)` on a present id raises that item's quantity by one and
      changes no other field, no other item and no position. */
  lemma IncrementedRaisesOnlyTarget(ps: seq<Product>, id: string, i: nat)
    requires NumericAt(ps, id) && UniqueIds(ps)
    requires i < |ps| && ps[i].id == id
    ensures |Incremented(ps, id)| == |ps|
    ensures Incremented(ps, id)[i].quantity == Count(ps[i].quantity.n + 1)
    ensures Incremented(ps, id)[i] == ps[i].(quantity := Incremented(ps, id)[i].quantity)
    ensures forall j :: 0 <= j < |ps| && j != i ==> Incremented(ps, id)[j] == ps[j]
  {
    assert FindIndex(ps, id) == Some(i);
  }

  /** `increment(id)` on an absent id: `find` yields `undefined` and `map` matches nothing. */
  lemma IncrementedAbsentIsNoOp(ps: seq<Product>, id: string)
    requires !Contains(ps, id)
    ensures Incremented(ps, id) == ps
  {
  }

  /** Changing an item's quantity does not move where `find` stops. */
  lemma {:induction false} FindIndexIgnoresQuantity(ps: seq<Product>, id: string, i: nat, q: Quantity)
    requires i < |ps|
    ensures FindIndex(ps[i := ps[i].(quantity := q)], id) == FindIndex(ps, id)
  {
    if ps != [] && ps[0].id != id && i > 0 {
      FindIndexIgnoresQuantity(ps[1..], id, i - 1, q);
      assert ps[i := ps[i].(quantity := q)][1..] == ps[1..][i - 1 := ps[i].(quantity := q)];
    }
  }

  lemma IncrementedKeepsInvariant(ps: seq<Product>, id: string)
    requires NumericAt(ps, id)
    ensures UniqueIds(ps) ==> UniqueIds(Incremented(ps, id))
    ensures AllPositive(ps) ==> AllPositive(Incremented(ps, id))
    ensures Consistent(ps) ==> Consistent(Incremented(ps, id))
    ensures NumericAt(Incremented(ps, id), id)
  {
  }

  // ---------------------------------------------------------------------------
  // decrement

  /** `decrement(id)` on an item with more than one unit lowers its quantity by
      one in place and changes nothing else. */
  lemma DecrementedLowersInPlace(ps: seq<Product>, id: string, i: nat)
    requires NumericAt(ps, id) && UniqueIds(ps)
    requires i < |ps| && ps[i].id == id && ps[i].quantity.n > 1
    ensures |Decremented(ps, id)| == |ps|
    ensures Decremented(ps, id)[i].quantity == Count(ps[i].quantity.n - 1)
    ensures Decremented(ps, id)[i] == ps[i].(quantity := Decremented(ps, id)[i].quantity)
    ensures forall j :: 0 <= j < |ps| && j != i ==> Decremented(ps, id)[j] == ps[j]
  {
    assert FindIndex(ps, id) == Some(i);
  }

  /** `decrement(id)` on an item with one unit removes it; the items before it
      stay where they were and the items after it move up by one, in order. */
  lemma DecrementedRemovesAtOne(ps: seq<Product>, id: string, i: nat)
    requires NumericAt(ps, id) && UniqueIds(ps)
    requires i < |ps| && ps[i].id == id && ps[i].quantity.n == 1
    ensures |Decremented(ps, id)| == |ps| - 1
    ensures forall j :: 0 <= j < i ==> Decremented(ps, id)[j] == ps[j]
    ensures forall j :: i <= j < |ps| - 1 ==> Decremented(ps, id)[j] == ps[j + 1]
    ensures !Contains(Decremented(ps, id), id)
  {
    assert FindIndex(ps, id) == Some(i);
    var r := Decremented(ps, id);
    assert r == ps[..i] + ps[i + 1..];
    forall j | 0 <= j < |r| ensures r[j].id != id {
      if j < i {
        assert r[j] == ps[j];
      } else {
        assert r[j] == ps[j + 1];
      }
    }
  }

  /** `decrement(id)` on an absent id: `indexOf(undefined)` is -1, so nothing is spliced. */
  lemma DecrementedAbsentIsNoOp(ps: seq<Product>, id: string)
    requires !Contains(ps, id)
    ensures Decremented(ps, id) == ps
  {
  }

  /** Splicing one item out of a list keeps what holds of every item and of every pair of items. */
  lemma SpliceKeeps(ps: seq<Product>, i: nat)
    requires i < |ps|
    ensures UniqueIds(ps) ==> UniqueIds(ps[..i] + ps[i + 1..])
    ensures AllPositive(ps) ==> AllPositive(ps[..i] + ps[i + 1..])
    ensures Consistent(ps) ==> Consistent(ps[..i] + ps[i + 1..])
  {
    var r := ps[..i] + ps[i + 1..];
    assert forall j :: 0 <= j < |r| ==> r[j] == ps[if j < i then j else j + 1];
  }

  lemma DecrementedKeepsInvariant(ps: seq<Product>, id: string)
    requires NumericAt(ps, id)
    ensures UniqueIds(ps) ==> UniqueIds(Decremented(ps, id))
    ensures AllPositive(ps) ==> AllPositive(Decremented(ps, id))
    ensures Consistent(ps) ==> Consistent(Decremented(ps, id))
  {
    match FindIndex(ps, id)
    case None =>
    case Some(i) =>
      if BelowOne(Dropped(ps[i]).quantity) {
        SpliceKeeps(ps, i);
      }
  }

  /** Incrementing and then decrementing an id restores the list, in every
      state the hook reaches, including items reloaded without a quantity. */
  lemma IncrementThenDecrement(ps: seq<Product>, id: string)
    requires Consistent(ps) && NumericAt(ps, id)
    ensures Decremented(Incremented(ps, id), id) == ps
  {
    match FindIndex(ps, id)
    case None =>
    case Some(i) =>
      FindIndexIgnoresQuantity(ps, id, i, Bumped(ps[i]).quantity);
      var up := ps[i := Bumped(ps[i])];
      assert Dropped(up[i]) == ps[i];
      assert up[i := ps[i]] == ps;
  }

  // ---------------------------------------------------------------------------
  // addToCart

  /** `addToCart` of a new id appends the item with quantity one and leaves
      every earlier item as it was. */
  lemma AddedAppendsNew(ps: seq<Product>, item: NewProduct)
    requires NumericAt(ps, item.id) && !Contains(ps, item.id)
    ensures |Added(ps, item)| == |ps| + 1
    ensures Added(ps, item)[..|ps|] == ps
    ensures Added(ps, item)[|ps|] == WithQuantity(item, 1)
  {
  }

  /** `addToCart` of an id already present keeps the length and raises that
      item's quantity by exactly one, as `increment` does. */
  lemma AddedExistingIncrements(ps: seq<Product>, item: NewProduct)
    requires NumericAt(ps, item.id) && UniqueIds(ps) && Contains(ps, item.id)
    ensures |Added(ps, item)| == |ps|
    ensures Added(ps, item) == Incremented(ps, item.id)
    ensures forall j :: 0 <= j < |ps| && ps[j].id == item.id ==>
              Added(ps, item)[j].quantity == Count(ps[j].quantity.n + 1)
  {
    forall j | 0 <= j < |ps| && ps[j].id == item.id
      ensures Added(ps, item)[j].quantity == Count(ps[j].quantity.n + 1)
    {
      IncrementedRaisesOnlyTarget(ps, item.id, j);
    }
  }

  lemma AddedKeepsInvariant(ps: seq<Product>, item: NewProduct)
    requires NumericAt(ps, item.id)
    ensures UniqueIds(ps) ==> UniqueIds(Added(ps, item))
    ensures AllPositive(ps) ==> AllPositive(Added(ps, item))
    ensures Consistent(ps) ==> Consistent(Added(ps, item))
    ensures Consistent(ps) ==> Consistent(AddSnapshot(ps, item))
  {
    IncrementedKeepsInvariant(ps, item.id);
  }

  /** Adding the same item twice is one `addToCart` followed by one
      `increment`: on a new id the item ends with two units and the list grew by one. */
  lemma AddTwice(ps: seq<Product>, item: NewProduct)
    requires UniqueIds(ps) && !Contains(ps, item.id)
    ensures NumericAt(Added(ps, item), item.id)
    ensures Added(Added(ps, item), item) == Incremented(Added(ps, item), item.id)
    ensures |Added(Added(ps, item), item)| == |ps| + 1
    ensures Added(Added(ps, item), item)[|ps|] == WithQuantity(item, 2)
  {
    var once := Added(ps, item);
    AddedKeepsInvariant(ps, item);
    assert once[|ps|].id == item.id;
    IncrementedRaisesOnlyTarget(once, item.id, |ps|);
  }

  /** Adding items with distinct ids to an empty cart gives one line item per
      id, in the order added, each with quantity one. */
  lemma {:induction false} AddAllDistinct(items: seq<NewProduct>)
    requires DistinctIds(items)
    ensures |AddAll([], items)| == |items|
    ensures forall k :: 0 <= k < |items| ==> AddAll([], items)[k] == WithQuantity(items[k], 1)
  {
    if items != [] {
      var init := items[..|items| - 1];
      var last := items[|items| - 1];
      assert DistinctIds(init);
      AddAllDistinct(init);
      var before := AddAll([], init);
      assert !Contains(before, last.id) by {
        forall j | 0 <= j < |before| ensures before[j].id != last.id {
          assert before[j] == WithQuantity(items[j], 1);
        }
      }
      assert AddAll([], items) == before + [WithQuantity(last, 1)];
    }
  }

  // ---------------------------------------------------------------------------
  // snapshots

  /** The snapshot `addToCart` writes for a new id is not the list it leaves in
      memory: its last item has no quantity, so reloading it breaks the
      invariant that every line item holds at least one unit. */
  lemma AddSnapshotLosesQuantity(ps: seq<Product>, item: NewProduct)
    requires NumericAt(ps, item.id) && !Contains(ps, item.id)
    ensures AddSnapshot(ps, item) != Added(ps, item)
    ensures AddSnapshot(ps, item)[|ps|].quantity == Missing
    ensures !AllPositive(AddSnapshot(ps, item))
  {
    assert AddSnapshot(ps, item)[|ps|] != Added(ps, item)[|ps|];
  }

  /** For an id already present `addToCart` goes to `increment`, so what it
      writes and what it leaves in memory are both `Incremented`; this holds by
      the two definitions. That `increment` writes its new list at all is the
      `stored == Some(products)` clause of `CartProvider.Increment`. */
  lemma AddSnapshotOfExisting(ps: seq<Product>, item: NewProduct)
    requires NumericAt(ps, item.id) && Contains(ps, item.id)
    ensures AddSnapshot(ps, item) == Added(ps, item)
  {
  }
}
