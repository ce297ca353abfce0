/**
 * The product page (src/pages/ProductDetail.tsx): the quantity stepper and
 * its clamps, adding the product to the cart, the stock label, and the
 * custom-box category that swaps the purchase controls for a WhatsApp link.
 */
module ProductDetail {
  import opened Wrappers
  import opened Text
  import CartContext

  /** The fields of a product row the page reads. */
  datatype ProductRecord = ProductRecord(
    id: string, name: string, price: int, imageUrl: string, stock: int, categoryId: string)

  /** The category whose products are personalised over WhatsApp instead of bought. */
  const CustomBoxCategory: string := "9f4b7524-1d17-4755-8563-094fbd870840"

  predicate IsCustomBox(p: ProductRecord) {
    p.categoryId == CustomBoxCategory
  }

  /** The stepper and the add button are shown only outside the custom-box category. */
  predicate ControlsShown(p: ProductRecord) {
    !IsCustomBox(p)
  }

  /** The stepper and the add button are disabled when there is no stock. */
  predicate ControlsEnabled(p: ProductRecord)
    ensures ControlsEnabled(p) ==> ControlsShown(p) && p.stock >= 1
  {
    ControlsShown(p) && p.stock > 0
  }

  /** What `addToCart` keeps of the product. */
  function AsCartProduct(p: ProductRecord): (r: CartContext.Product)
    ensures r.id == p.id && r.name == p.name && r.price == p.price && r.imageUrl == p.imageUrl
  {
    CartContext.Product(p.id, p.name, p.price, p.imageUrl)
  }

  /** The decrement button: one less, but never below one. */
  function Decremented(q: int): (r: int)
    ensures r >= 1
    ensures q > 1 ==> r == q - 1
    ensures q <= 1 ==> r == 1
  {
    if q - 1 < 1 then 1 else q - 1
  }

  /** The increment button: one more, but never above the stock. */
  function Incremented(q: int, stock: int): (r: int)
    ensures r <= stock && r <= q + 1
    ensures r == q + 1 || r == stock
  {
    if stock < q + 1 then stock else q + 1
  }

  /** A press of either stepper button. */
  datatype Press = Minus | Plus

  /** The quantity after a run of presses on enabled buttons. */
  function AfterPresses(q: int, stock: int, presses: seq<Press>): int
    decreases |presses|
  {
    if presses == [] then q
    else
      var next := if presses[0] == Minus then Decremented(q) else Incremented(q, stock);
      AfterPresses(next, stock, presses[1..])
  }

  /** With stock on hand, no run of presses takes the quantity out of the range 1..stock. */
  lemma {:induction false} PressesStayInRange(q: int, stock: int, presses: seq<Press>)
    requires 1 <= q <= stock
    ensures 1 <= AfterPresses(q, stock, presses) <= stock
    decreases |presses|
  {
    if presses != [] {
      var next := if presses[0] == Minus then Decremented(q) else Incremented(q, stock);
      PressesStayInRange(next, stock, presses[1..]);
    }
  }

  /** Pressing plus as often as there are units in stock reaches the stock, and no more. */
  lemma {:induction false} PlusReachesStock(q: int, stock: int, n: nat)
    requires 1 <= q <= stock && q + n >= stock
    ensures AfterPresses(q, stock, seq(n, _ => Plus)) == stock
    decreases n
  {
    if n > 0 {
      var presses := seq(n, _ => Plus);
      assert presses[1..] == seq(n - 1, _ => Plus);
      if q < stock {
        PlusReachesStock(q + 1, stock, n - 1);
      } else {
        PlusReachesStock(q, stock, n - 1);
      }
    }
  }

  /** The stock note next to the price: none for custom boxes. */
  function StockLabel(p: ProductRecord): (r: Option<string>)
    ensures r.None? <==> IsCustomBox(p)
    ensures r.Some? && p.stock > 0 ==> r.value == "En Stock (" + NatToString(p.stock) + " disponibles)"
    ensures r.Some? && p.stock <= 0 ==> r.value == "Agotado"
  {
    if IsCustomBox(p) then None
    else if p.stock > 0 then Some("En Stock (" + NatToString(p.stock) + " disponibles)")
    else Some("Agotado")
  }

  /** The category shown above the name, "Chocolate" when the product has none. */
  function CategoryLabel(categoryName: string): (r: string)
    ensures r != []
    ensures categoryName != [] ==> r == categoryName
  {
    if categoryName == [] then "Chocolate" else categoryName
  }

  const CustomBoxLinkHead: string := "https://wa.me/5493876856022?text=Hola! Me interesa personalizar la "
  const CustomBoxLinkTail: string := ". ¿Cómo podemos hacer?"

  /** The WhatsApp link a custom box offers instead of the cart: it names the product. */
  function CustomBoxLink(name: string): (r: string)
    ensures |r| == |CustomBoxLinkHead| + |name| + |CustomBoxLinkTail|
    ensures IsPrefix(CustomBoxLinkHead, r)
    ensures r[|CustomBoxLinkHead|..|CustomBoxLinkHead| + |name|] == name
  {
    CustomBoxLinkHead + name + CustomBoxLinkTail
  }

  /** The link names the product it was opened from: different products, different links. */
  lemma CustomBoxLinkInjective(a: string, b: string)
    requires a != b
    ensures CustomBoxLink(a) != CustomBoxLink(b)
  {
    if |a| == |b| {
      var h := |CustomBoxLinkHead|;
      assert CustomBoxLink(a)[h..h + |a|] == a;
      assert CustomBoxLink(b)[h..h + |b|] == b;
    }
  }

  /** Where a click on the add button leads. */
  datatype AddOutcome = RedirectToLogin | Added(alert: string) | NoEffect

  /** The page's state: the product it shows and the selected quantity. */
  class ProductPage {
    const product: ProductRecord
    var quantity: int

    /** Whatever the stock, the quantity is at least one; with stock on hand it is at most the stock. */
    predicate Valid()
      reads this
    {
      quantity >= 1 && (product.stock >= 1 ==> quantity <= product.stock)
    }

    /** The page opens with a quantity of one. */
    constructor(p: ProductRecord)
      ensures product == p && quantity == 1
      ensures Valid()
    {
      product := p;
      quantity := 1;
    }

    /** The minus button; a disabled or hidden button does nothing. */
    method ClickDecrement()
      requires Valid()
      modifies this
      ensures ControlsEnabled(product) ==> quantity == Decremented(old(quantity))
      ensures !ControlsEnabled(product) ==> quantity == old(quantity)
      ensures Valid()
    {
      if ControlsEnabled(product) {
        quantity := Decremented(quantity);
      }
    }

    /** The plus button; a disabled or hidden button does nothing. */
    method ClickIncrement()
      requires Valid()
      modifies this
      ensures ControlsEnabled(product) ==> quantity == Incremented(old(quantity), product.stock)
      ensures !ControlsEnabled(product) ==> quantity == old(quantity)
      ensures Valid()
    {
      if ControlsEnabled(product) {
        quantity := Incremented(quantity, product.stock);
      }
    }

    /**
     * `handleAddToCart`, behind the add button. Without a signed-in user it
     * leads to the login page and leaves the cart alone; otherwise the product
     * goes into the cart with exactly the selected quantity and an alert
     * confirms it.
     */
    method ClickAddToCart(cart: CartContext.Cart, signedIn: bool) returns (outcome: AddOutcome)
      modifies cart
      ensures !ControlsEnabled(product) ==> outcome == NoEffect && cart.items == old(cart.items)
      ensures ControlsEnabled(product) && !signedIn ==> outcome == RedirectToLogin && cart.items == old(cart.items)
      ensures ControlsEnabled(product) && signedIn ==>
        && outcome == Added("Producto agregado al carrito")
        && cart.items == CartContext.Added(old(cart.items), AsCartProduct(product), quantity)
      ensures ControlsEnabled(product) && signedIn && CartContext.UniqueIds(old(cart.items)) ==>
        cart.CartCount() == old(cart.CartCount()) + quantity
    {
      if !ControlsEnabled(product) {
        return NoEffect;
      }
      if !signedIn {
        return RedirectToLogin;
      }
      cart.AddToCart(AsCartProduct(product), quantity);
      outcome := Added("Producto agregado al carrito");
    }
  }
}
