/**
 * The shopping cart (src/context/CartContext.tsx): a list of lines, at most
 * one per product id when built through its own operations, with add, remove,
 * set-quantity and clear, and the derived item count and total.
 */
module CartContext {
  import opened Wrappers
  import Text

  /** What the cart needs of a product. Prices are whole amounts (cents). */
  datatype Product = Product(id: string, name: string, price: int, imageUrl: string)

  datatype CartItem = CartItem(id: string, name: string, price: int, imageUrl: string, quantity: int)

  /** No two lines share a product id. */
  predicate UniqueIds(items: seq<CartItem>) {
    forall i, j :: 0 <= i < j < |items| ==> items[i].id != items[j].id
  }

  /** Some line has this id. */
  predicate HasId(items: seq<CartItem>, id: string) {
    exists i :: 0 <= i < |items| && items[i].id == id
  }

  /** `cartCount`: the sum of the quantities. */
  function Count(items: seq<CartItem>): int {
    if items == [] then 0 else Count(items[..|items| - 1]) + items[|items| - 1].quantity
  }

  /** What one line adds to the total. */
  function LineValue(x: CartItem): (r: int)
    ensures x.price >= 0 && x.quantity >= 0 ==> r >= 0
  {
    x.price * x.quantity
  }

  /** `cartTotal`: the sum of price times quantity over the lines. */
  function Total(items: seq<CartItem>): int {
    if items == [] then 0 else Total(items[..|items| - 1]) + LineValue(items[|items| - 1])
  }

  /** The count is never negative when no quantity is, and at least the number of lines when each line holds one. */
  lemma {:induction false} CountBounds(items: seq<CartItem>)
    ensures (forall i :: 0 <= i < |items| ==> items[i].quantity >= 0) ==> Count(items) >= 0
    ensures (forall i :: 0 <= i < |items| ==> items[i].quantity >= 1) ==> Count(items) >= |items|
    decreases |items|
  {
    if items != [] {
      CountBounds(items[..|items| - 1]);
    }
  }

  /** The total is never negative when no price or quantity is. */
  lemma {:induction false} TotalNonNegative(items: seq<CartItem>)
    ensures (forall i :: 0 <= i < |items| ==> items[i].price >= 0 && items[i].quantity >= 0) ==> Total(items) >= 0
    decreases |items|
  {
    if items != [] {
      TotalNonNegative(items[..|items| - 1]);
    }
  }

  /** The summed quantity of the lines with this id. */
  function QuantityOf(items: seq<CartItem>, id: string): int {
    if items == [] then 0
    else QuantityOf(items[..|items| - 1], id) + (if items[|items| - 1].id == id then items[|items| - 1].quantity else 0)
  }

  /** The summed price of the lines with this id (the line's price when there is exactly one). */
  function PriceOf(items: seq<CartItem>, id: string): int {
    if items == [] then 0
    else PriceOf(items[..|items| - 1], id) + (if items[|items| - 1].id == id then items[|items| - 1].price else 0)
  }

  /** The summed value of the lines with this id. */
  function ValueOf(items: seq<CartItem>, id: string): int {
    if items == [] then 0
    else
      var last := items[|items| - 1];
      ValueOf(items[..|items| - 1], id) + (if last.id == id then LineValue(last) else 0)
  }

  /** Every line with this id has `quantity` more; the others are as they were. */
  function Increased(items: seq<CartItem>, id: string, quantity: int): (r: seq<CartItem>)
    ensures |r| == |items|
    ensures forall i :: 0 <= i < |r| ==>
      r[i] == if items[i].id == id then items[i].(quantity := items[i].quantity + quantity) else items[i]
  {
    seq(|items|, i requires 0 <= i < |items| =>
      if items[i].id == id then items[i].(quantity := items[i].quantity + quantity) else items[i])
  }

  /**
   * `addToCart`: a product already in the cart gets `quantity` more; a new one
   * is appended as a line of its own.
   */
  function Added(items: seq<CartItem>, p: Product, quantity: int): (r: seq<CartItem>)
    ensures HasId(items, p.id) ==> |r| == |items| && r == Increased(items, p.id, quantity)
    ensures !HasId(items, p.id) ==> r == items + [CartItem(p.id, p.name, p.price, p.imageUrl, quantity)]
    ensures HasId(r, p.id)
  {
    assert !HasId(items, p.id) ==> (items + [CartItem(p.id, p.name, p.price, p.imageUrl, quantity)])[|items|].id == p.id;
    if HasId(items, p.id) then Increased(items, p.id, quantity)
    else items + [CartItem(p.id, p.name, p.price, p.imageUrl, quantity)]
  }

  /** `removeFromCart`: the lines with another id, in their order. */
  function Removed(items: seq<CartItem>, id: string): (r: seq<CartItem>)
    ensures |r| <= |items|
    ensures forall x :: x in r <==> x in items && x.id != id
  {
    if items == [] then []
    else Removed(items[..|items| - 1], id) + (if items[|items| - 1].id != id then [items[|items| - 1]] else [])
  }

  /** A single line survives removal exactly when it has another id. */
  lemma RemovedSingle(x: CartItem, id: string)
    ensures Removed([x], id) == if x.id != id then [x] else []
  {
    assert [x][..0] == [];
  }

  /** Removal works piece by piece, so the surviving lines keep their relative order. */
  lemma {:induction false} RemovedAppend(a: seq<CartItem>, b: seq<CartItem>, id: string)
    ensures Removed(a + b, id) == Removed(a, id) + Removed(b, id)
    decreases |b|
  {
    if b == [] {
      assert a + b == a;
    } else {
      var front, last := b[..|b| - 1], b[|b| - 1];
      assert (a + b)[..|a + b| - 1] == a + front;
      assert (a + b)[|a + b| - 1] == last;
      RemovedAppend(a, front, id);
      Text.AppendAssoc(Removed(a, id), Removed(front, id), if last.id != id then [last] else []);
    }
  }

  /** Every line with this id now has `quantity`; the others are as they were. */
  function WithQuantity(items: seq<CartItem>, id: string, quantity: int): (r: seq<CartItem>)
    ensures |r| == |items|
    ensures forall i :: 0 <= i < |r| ==>
      r[i] == if items[i].id == id then items[i].(quantity := quantity) else items[i]
  {
    seq(|items|, i requires 0 <= i < |items| => if items[i].id == id then items[i].(quantity := quantity) else items[i])
  }

  /** `updateQuantity`: a quantity below 1 is ignored. */
  function Updated(items: seq<CartItem>, id: string, quantity: int): (r: seq<CartItem>)
    ensures quantity < 1 ==> r == items
    ensures quantity >= 1 ==> r == WithQuantity(items, id, quantity)
    ensures |r| == |items|
  {
    if quantity < 1 then items else WithQuantity(items, id, quantity)
  }

  // ---------------------------------------------------------------------------
  // Count and total

  /** Multiplication distributes over addition: the step the total's inductions take for a raised quantity. */
  lemma Distribute(a: int, b: int, c: int)
    ensures a * (b + c) == a * b + a * c
  {
  }

  lemma LineValueIncreased(x: CartItem, quantity: int)
    ensures LineValue(x.(quantity := x.quantity + quantity)) == LineValue(x) + quantity * x.price
  {
    Distribute(x.price, x.quantity, quantity);
  }

  /** Raising every line with this id by `quantity` raises the count by `quantity` per such line. */
  lemma {:induction false} CountIncreased(items: seq<CartItem>, id: string, quantity: int)
    ensures Count(Increased(items, id, quantity)) == Count(items) + quantity * Occurrences(items, id)
    decreases |items|
  {
    if items != [] {
      var front, last := items[..|items| - 1], items[|items| - 1];
      var r := Increased(items, id, quantity);
      assert r[..|items| - 1] == Increased(front, id, quantity);
      CountIncreased(front, id, quantity);
      Distribute(quantity, Occurrences(front, id), if last.id == id then 1 else 0);
    }
  }

  /** ... and the total by `quantity` times each such line's price. */
  lemma {:induction false} TotalIncreased(items: seq<CartItem>, id: string, quantity: int)
    ensures Total(Increased(items, id, quantity)) == Total(items) + quantity * PriceOf(items, id)
    decreases |items|
  {
    if items != [] {
      var front, last := items[..|items| - 1], items[|items| - 1];
      var r := Increased(items, id, quantity);
      assert r[..|items| - 1] == Increased(front, id, quantity);
      TotalIncreased(front, id, quantity);
      LineValueIncreased(last, quantity);
      Distribute(quantity, PriceOf(front, id), if last.id == id then last.price else 0);
    }
  }

  /** The number of lines with this id. */
  function Occurrences(items: seq<CartItem>, id: string): nat {
    if items == [] then 0 else Occurrences(items[..|items| - 1], id) + (if items[|items| - 1].id == id then 1 else 0)
  }

  lemma {:induction false} OccurrencesUnique(items: seq<CartItem>, id: string)
    requires UniqueIds(items)
    ensures Occurrences(items, id) == (if HasId(items, id) then 1 else 0)
    ensures HasId(items, id) ==> exists i :: 0 <= i < |items| && items[i].id == id && PriceOf(items, id) == items[i].price
    decreases |items|
  {
    if items != [] {
      var front := items[..|items| - 1];
      OccurrencesUnique(front, id);
      if items[|items| - 1].id == id {
        assert !HasId(front, id);
        assert PriceOf(front, id) == 0 by { PriceOfAbsent(front, id); }
      } else if HasId(items, id) {
        var i :| 0 <= i < |items| && items[i].id == id;
        assert front[i].id == id;
      }
    }
  }

  lemma {:induction false} PriceOfAbsent(items: seq<CartItem>, id: string)
    requires !HasId(items, id)
    ensures PriceOf(items, id) == 0 && Occurrences(items, id) == 0 && QuantityOf(items, id) == 0 && ValueOf(items, id) == 0
    decreases |items|
  {
    if items != [] {
      var front := items[..|items| - 1];
      assert !HasId(front, id) by {
        forall i | 0 <= i < |front| ensures front[i].id != id { assert items[i] == front[i]; }
      }
      PriceOfAbsent(front, id);
    }
  }

  lemma CountAppend(items: seq<CartItem>, x: CartItem)
    ensures Count(items + [x]) == Count(items) + x.quantity
    ensures Total(items + [x]) == Total(items) + LineValue(x)
  {
    assert (items + [x])[..|items|] == items;
  }

  /**
   * Adding `quantity` of a product raises the item count by `quantity`, and the
   * total by `quantity` times the price of the line that holds it: the cart's
   * own line when the product is already there, the product's price otherwise.
   */
  lemma AddedCountAndTotal(items: seq<CartItem>, p: Product, quantity: int)
    requires UniqueIds(items)
    ensures Count(Added(items, p, quantity)) == Count(items) + quantity
    ensures HasId(items, p.id) ==>
      exists i :: 0 <= i < |items| && items[i].id == p.id
        && Total(Added(items, p, quantity)) == Total(items) + quantity * items[i].price
    ensures !HasId(items, p.id) ==> Total(Added(items, p, quantity)) == Total(items) + quantity * p.price
  {
    if HasId(items, p.id) {
      CountIncreased(items, p.id, quantity);
      TotalIncreased(items, p.id, quantity);
      OccurrencesUnique(items, p.id);
    } else {
      CountAppend(items, CartItem(p.id, p.name, p.price, p.imageUrl, quantity));
    }
  }

  /** Adding keeps the ids unique. */
  lemma AddedKeepsUnique(items: seq<CartItem>, p: Product, quantity: int)
    requires UniqueIds(items)
    ensures UniqueIds(Added(items, p, quantity))
  {
  }

  /** Removing a product takes exactly its quantity out of the count and its value out of the total. */
  lemma {:induction false} RemovedCountAndTotal(items: seq<CartItem>, id: string)
    ensures Count(Removed(items, id)) == Count(items) - QuantityOf(items, id)
    ensures Total(Removed(items, id)) == Total(items) - ValueOf(items, id)
    decreases |items|
  {
    if items != [] {
      var front, last := items[..|items| - 1], items[|items| - 1];
      RemovedCountAndTotal(front, id);
      if last.id != id {
        assert Removed(items, id) == Removed(front, id) + [last];
        CountAppend(Removed(front, id), last);
      } else {
        assert Removed(items, id) == Removed(front, id);
      }
    }
  }

  /** Removing keeps the other lines in their order: it is a subsequence that keeps ids unique. */
  lemma {:induction false} RemovedKeepsUnique(items: seq<CartItem>, id: string)
    requires UniqueIds(items)
    ensures UniqueIds(Removed(items, id))
    decreases |items|
  {
    if items != [] {
      var front, last := items[..|items| - 1], items[|items| - 1];
      assert UniqueIds(front);
      RemovedKeepsUnique(front, id);
      var r := Removed(items, id);
      if last.id != id {
        forall x | x in Removed(front, id) ensures x.id != last.id {
          var i :| 0 <= i < |front| && front[i] == x;
        }
      }
    }
  }

  /** Setting a valid quantity makes the count the other lines' count plus that quantity. */
  lemma {:induction false} WithQuantityCount(items: seq<CartItem>, id: string, quantity: int)
    ensures Count(WithQuantity(items, id, quantity)) == Count(items) - QuantityOf(items, id) + quantity * Occurrences(items, id)
    decreases |items|
  {
    if items != [] {
      var front, last := items[..|items| - 1], items[|items| - 1];
      var w := WithQuantity(items, id, quantity);
      assert w[..|items| - 1] == WithQuantity(front, id, quantity);
      assert Count(w) == Count(WithQuantity(front, id, quantity)) + (if last.id == id then quantity else last.quantity);
      WithQuantityCount(front, id, quantity);
      Distribute(quantity, Occurrences(front, id), if last.id == id then 1 else 0);
    }
  }

  /** Changing quantities never changes which products are in the cart, nor their order. */
  lemma UpdatedKeepsIds(items: seq<CartItem>, id: string, quantity: int)
    ensures forall i :: 0 <= i < |items| ==> Updated(items, id, quantity)[i].id == items[i].id
    ensures UniqueIds(items) ==> UniqueIds(Updated(items, id, quantity))
  {
  }

  // ---------------------------------------------------------------------------
  // The cart state

  /** The provider's state: the current list of lines. */
  class Cart {
    var items: seq<CartItem>

    /** A cart restored from what was saved, or an empty one when nothing was. */
    constructor(saved: Option<seq<CartItem>>)
      ensures items == (if saved.Some? then saved.value else [])
    {
      items := if saved.Some? then saved.value else [];
    }

    method AddToCart(product: Product, quantity: int := 1)
      modifies this
      ensures items == Added(old(items), product, quantity)
      ensures UniqueIds(old(items)) ==> UniqueIds(items) && CartCount() == old(CartCount()) + quantity
    {
      if UniqueIds(items) {
        AddedKeepsUnique(items, product, quantity);
        AddedCountAndTotal(items, product, quantity);
      }
      items := Added(items, product, quantity);
    }

    method RemoveFromCart(id: string)
      modifies this
      ensures items == Removed(old(items), id)
      ensures !HasId(items, id)
      ensures CartCount() == old(CartCount()) - QuantityOf(old(items), id)
    {
      RemovedCountAndTotal(items, id);
      items := Removed(items, id);
    }

    method UpdateQuantity(id: string, quantity: int)
      modifies this
      ensures items == Updated(old(items), id, quantity)
      ensures quantity < 1 ==> items == old(items)
    {
      if quantity < 1 {
        return;
      }
      items := WithQuantity(items, id, quantity);
    }

    method ClearCart()
      modifies this
      ensures items == [] && CartCount() == 0 && CartTotal() == 0
    {
      items := [];
    }

    function CartTotal(): (r: int)
      reads this
      ensures (forall i :: 0 <= i < |items| ==> items[i].price >= 0 && items[i].quantity >= 0) ==> r >= 0
    {
      TotalNonNegative(items);
      Total(items)
    }

    function CartCount(): (r: int)
      reads this
      ensures (forall i :: 0 <= i < |items| ==> items[i].quantity >= 1) ==> r >= |items|
    {
      CountBounds(items);
      Count(items)
    }
  }
}
