/** The cart hook of src/hooks/cart.tsx without its React wrapper: the state a
    `CartProvider` holds, the storage key it mirrors that state to, and the
    operations it hands to the components. */
module CartHook {
  import opened Products

  /** `productsList.map(productItem => productItem.id === id ? product : productItem)`:
      every item with this id is replaced by the item `find` returned. */
  method ReplaceMatches(items: seq<Product>, id: string, product: Option<Product>) returns (list: seq<Product>)
    requires product.Some? || !Contains(items, id)
    ensures |list| == |items|
    ensures forall j :: 0 <= j < |items| && items[j].id == id ==> list[j] == product.value
    ensures forall j :: 0 <= j < |items| && items[j].id != id ==> list[j] == items[j]
  {
    list := [];
    var k := 0;
    while k < |items|
      invariant 0 <= k <= |items| && |list| == k
      invariant forall j :: 0 <= j < k && items[j].id == id ==> list[j] == product.value
      invariant forall j :: 0 <= j < k && items[j].id != id ==> list[j] == items[j]
    {
      var entry := items[k];
      if entry.id == id {
        entry := product.value;
      }
      list := list + [entry];
      k := k + 1;
    }
  }

  /** `list.indexOf(product)`: the first position holding the product, or -1
      (always -1 for `undefined`, which the list never holds). */
  method IndexOf(list: seq<Product>, product: Option<Product>) returns (index: int)
    ensures -1 <= index < |list|
    ensures index == -1 <==> product.None? || product.value !in list
    ensures index >= 0 ==> list[index] == product.value
    ensures index >= 0 ==> forall j :: 0 <= j < index ==> list[j] != product.value
  {
    index := -1;
    if product.Some? {
      var k := 0;
      while k < |list| && list[k] != product.value
        invariant 0 <= k <= |list|
        invariant forall j :: 0 <= j < k ==> list[j] != product.value
      {
        k := k + 1;
      }
      if k < |list| {
        index := k;
      }
    }
  }

  class CartProvider {
    /** The cart's line items, in the order they were first added (the `products` state). */
    var products: seq<Product>
    /** What the storage key "@products" holds: nothing yet, or the last list written to it. */
    var stored: Option<seq<Product>>

    /** Ids are unique and every quantity is at least one or absent, in memory
        and in storage. */
    ghost predicate Valid()
      reads this
    {
      Consistent(products) && (stored.Some? ==> Consistent(stored.value))
    }

    /** `useState<Product[]>([])`: the cart starts empty, over whatever an
        earlier session of this hook left under the storage key. */
    constructor (previous: Option<seq<Product>>)
      requires previous.Some? ==> Consistent(previous.value)
      ensures Valid()
      ensures products == [] && stored == previous
    {
      products := [];
      stored := previous;
    }

    /** `loadProducts`: a snapshot under the key replaces the list; without
        one the list stays as it is (empty at startup). */
    method LoadProducts()
      requires Valid()
      modifies this
      ensures Valid()
      ensures stored == old(stored)
      ensures products == if stored.Some? then stored.value else old(products)
    {
      if stored.Some? {
        products := stored.value;
      }
    }

    /** `products.find(productItem => productItem.id === id)`, as a position. */
    method Find(id: string) returns (r: Option<nat>)
      ensures r == FindIndex(products, id)
    {
      var i := 0;
      while i < |products| && products[i].id != id
        invariant 0 <= i <= |products|
        invariant forall j :: 0 <= j < i ==> products[j].id != id
      {
        i := i + 1;
      }
      r := if i < |products| then Some(i) else None;
    }

    /** `increment(id)`. The `find` callback adds one to the quantity of the item
        it tests in place and stops when the new quantity is truthy; the copy made
        by `map` becomes the state, and the old array, whose item was bumped in
        place, is what gets written to storage. */
    method Increment(id: string)
      requires Valid() && NumericAt(products, id)
      modifies this
      ensures Valid()
      ensures products == Incremented(old(products), id)
      ensures stored == Some(products)
    {
      var items := products;
      var product: Option<Product> := None;
      ghost var at: nat := 0;
      var i := 0;
      while i < |items| && product.None?
        invariant 0 <= i <= |items| == |products|
        invariant product.None? ==> items == products && forall j :: 0 <= j < i ==> products[j].id != id
        invariant product.Some? ==> at < |products| && FindIndex(products, id) == Some(at)
        invariant product.Some? ==> items == products[at := Bumped(products[at])] && product.value == items[at]
      {
        if items[i].id == id {
          items := items[i := Bumped(items[i])];
          if Truthy(items[i].quantity) {
            product := Some(items[i]);
            at := i;
          }
        }
        i := i + 1;
      }
      var list := ReplaceMatches(items, id, product);
      assert list == items;
      IncrementedKeepsInvariant(products, id);
      products := list;
      stored := Some(items);
    }

    /** `decrement(id)`. The `find` callback takes one from the quantity of the
        first item with this id in place; the `map` copy is searched for that
        item with `indexOf`, which is spliced out when its quantity fell below
        one; the copy becomes the state and is written to storage. */
    method Decrement(id: string)
      requires Valid() && NumericAt(products, id)
      modifies this
      ensures Valid()
      ensures products == Decremented(old(products), id)
      ensures stored == Some(products)
    {
      var items := products;
      var product: Option<Product> := None;
      ghost var at: nat := 0;
      var i := 0;
      while i < |items| && product.None?
        invariant 0 <= i <= |items| == |products|
        invariant product.None? ==> items == products && forall j :: 0 <= j < i ==> products[j].id != id
        invariant product.Some? ==> at < |products| && FindIndex(products, id) == Some(at)
        invariant product.Some? ==> items == products[at := Dropped(products[at])] && product.value == items[at]
      {
        if items[i].id == id {
          items := items[i := Dropped(items[i])];
          product := Some(items[i]);
          at := i;
        }
        i := i + 1;
      }
      var list := ReplaceMatches(items, id, product);
      assert list == items;
      var index := IndexOf(list, product);
      assert product.Some? ==> index == at;
      if index > -1 && product.Some? && BelowOne(product.value.quantity) {
        assert list[..index] == products[..at];
        assert list[index + 1..] == products[at + 1..];
        list := list[..index] + list[index + 1..];
      }
      DecrementedKeepsInvariant(products, id);
      products := list;
      stored := Some(list);
    }

    /** `addToCart(item)` as written: an id already present goes to `increment`;
        a new id is appended with quantity one, but the snapshot written is the
        old list followed by `item` itself, which has no quantity field. */
    method AddToCart(item: NewProduct)
      requires Valid() && NumericAt(products, item.id)
      modifies this
      ensures Valid()
      ensures products == Added(old(products), item)
      ensures stored == Some(AddSnapshot(old(products), item))
    {
      var productAlreadyExists := Find(item.id);
      if productAlreadyExists.Some? {
        Increment(item.id);
        return;
      }
      AddedKeepsInvariant(products, item);
      var previous := products;
      products := previous + [WithQuantity(item, 1)];
      stored := Some(previous + [Bare(item)]);
    }

    /** `addToCart(item)` writing the list it leaves in memory, so that a reload
        gives back the same cart. */
    method AddToCartCorrected(item: NewProduct)
      requires Valid() && NumericAt(products, item.id)
      modifies this
      ensures Valid()
      ensures products == Added(old(products), item)
      ensures stored == Some(products)
    {
      var productAlreadyExists := Find(item.id);
      if productAlreadyExists.Some? {
        Increment(item.id);
        return;
      }
      AddedKeepsInvariant(products, item);
      products := products + [WithQuantity(item, 1)];
      stored := Some(products);
    }
  }

  /** Add a shoe, increment it, decrement it twice: the cart ends empty, and a
      restart reloads the empty list. */
  method ShoeScenario(price: Price) {
    var cart := new CartProvider(None);
    var shoe := NewProduct("a", "Shoe", "u", price);
    cart.AddToCart(shoe);
    assert cart.products == [WithQuantity(shoe, 1)];
    assert FindIndex(cart.products, "a") == Some(0);
    cart.Increment("a");
    assert cart.products == [WithQuantity(shoe, 2)];
    assert FindIndex(cart.products, "a") == Some(0);
    cart.Decrement("a");
    assert cart.products == [WithQuantity(shoe, 1)];
    assert FindIndex(cart.products, "a") == Some(0);
    cart.Decrement("a");
    assert cart.products == [];
    var restarted := new CartProvider(cart.stored);
    restarted.LoadProducts();
    assert restarted.products == [];
  }

  /** A restart right after adding a new item reloads that item without a
      quantity; with the corrected write it reloads the cart as it was. */
  method RestartAfterAdd(price: Price) {
    var shoe := NewProduct("a", "Shoe", "u", price);

    var cart := new CartProvider(None);
    cart.AddToCart(shoe);
    var restarted := new CartProvider(cart.stored);
    restarted.LoadProducts();
    assert restarted.products == [Bare(shoe)];
    assert restarted.products[0].quantity != cart.products[0].quantity;

    var fixedCart := new CartProvider(None);
    fixedCart.AddToCartCorrected(shoe);
    var fixedRestart := new CartProvider(fixedCart.stored);
    fixedRestart.LoadProducts();
    assert fixedRestart.products == fixedCart.products == [WithQuantity(shoe, 1)];
  }
}
