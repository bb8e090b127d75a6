/**
 The cart resolver (ecommerce/utils/cart_utils.py): turns a cart and the
 product table into priced line items and a grand total.  Entries whose
 product is not in the table are skipped.
 */
module CartUtils {
  import opened Wrappers
  import opened Models
  import opened Cart

  /** One resolved line: the product, the cart quantity and price × quantity. */
  datatype CartItem = CartItem(id: ProductId, product: Product, quantity: int, itemTotal: Paise)

  /** The items an entry contributes: one if its product exists, none otherwise. */
  function ItemFor(e: Entry, catalog: Catalog): seq<CartItem>
  {
    if e.id in catalog then [CartItem(e.id, catalog[e.id], e.quantity, catalog[e.id].price * e.quantity)] else []
  }

  /** The resolved items of a cart, entry by entry in cart order. */
  function Resolve(c: seq<Entry>, catalog: Catalog): (items: seq<CartItem>)
    ensures |items| <= |c|
  {
    if |c| == 0 then [] else Resolve(c[..|c| - 1], catalog) + ItemFor(c[|c| - 1], catalog)
  }

  /** The sum of `item_total` over a list of items. */
  function ItemsTotal(items: seq<CartItem>): Paise
  {
    if |items| == 0 then 0 else ItemsTotal(items[..|items| - 1]) + items[|items| - 1].itemTotal
  }

  /** Σ price × quantity over exactly the entries whose product is in the catalog. */
  function CartTotal(c: seq<Entry>, catalog: Catalog): Paise
  {
    if |c| == 0 then 0
    else
      var e := c[|c| - 1];
      CartTotal(c[..|c| - 1], catalog) + (if e.id in catalog then catalog[e.id].price * e.quantity else 0)
  }

  lemma {:induction false} ItemsTotalAppend(a: seq<CartItem>, b: seq<CartItem>)
    ensures ItemsTotal(a + b) == ItemsTotal(a) + ItemsTotal(b)
    decreases |b|
  {
    if |b| == 0 {
      assert a + b == a;
    } else {
      assert (a + b)[..|a + b| - 1] == a + b[..|b| - 1];
      ItemsTotalAppend(a, b[..|b| - 1]);
    }
  }

  /** The grand total is the sum of the resolved items' `item_total`. */
  lemma {:induction false} ItemsTotalOfResolve(c: seq<Entry>, catalog: Catalog)
    ensures ItemsTotal(Resolve(c, catalog)) == CartTotal(c, catalog)
  {
    if |c| > 0 {
      ItemsTotalOfResolve(c[..|c| - 1], catalog);
      ItemsTotalAppend(Resolve(c[..|c| - 1], catalog), ItemFor(c[|c| - 1], catalog));
      var f := ItemFor(c[|c| - 1], catalog);
      if |f| == 1 {
        assert f[..0] == [];
      }
    }
  }

  /** Resolving a concatenation resolves each part in turn: items keep the order of their entries. */
  lemma {:induction false} ResolveAppend(a: seq<Entry>, b: seq<Entry>, catalog: Catalog)
    ensures Resolve(a + b, catalog) == Resolve(a, catalog) + Resolve(b, catalog)
    ensures CartTotal(a + b, catalog) == CartTotal(a, catalog) + CartTotal(b, catalog)
    decreases |b|
  {
    if |b| == 0 {
      assert a + b == a;
    } else {
      assert (a + b)[..|a + b| - 1] == a + b[..|b| - 1];
      ResolveAppend(a, b[..|b| - 1], catalog);
    }
  }

  /** An item priced from the catalog: its product exists and item_total = price × quantity. */
  predicate PricedFrom(it: CartItem, catalog: Catalog)
  {
    it.id in catalog && it.product == catalog[it.id] && it.itemTotal == it.product.price * it.quantity
  }

  /** Every resolved item is priced from the catalog and repeats the id and quantity of a cart entry. */
  lemma {:induction false} ResolvedItemsComeFromCart(c: seq<Entry>, catalog: Catalog)
    ensures forall j :: 0 <= j < |Resolve(c, catalog)| ==> PricedFrom(Resolve(c, catalog)[j], catalog)
    ensures forall j :: 0 <= j < |Resolve(c, catalog)| ==>
      Entry(Resolve(c, catalog)[j].id, Resolve(c, catalog)[j].quantity) in c
  {
    if |c| > 0 {
      var p := c[..|c| - 1];
      ResolvedItemsComeFromCart(p, catalog);
      assert c == p + [c[|c| - 1]];
    }
  }

  /** Every cart entry whose product exists yields an item with its id and quantity. */
  lemma {:induction false} PresentEntriesAreResolved(c: seq<Entry>, catalog: Catalog, i: nat)
    requires i < |c| && c[i].id in catalog
    ensures exists j :: 0 <= j < |Resolve(c, catalog)| &&
                        Resolve(c, catalog)[j].id == c[i].id && Resolve(c, catalog)[j].quantity == c[i].quantity
  {
    var p := c[..|c| - 1];
    var before := Resolve(p, catalog);
    if i < |p| {
      PresentEntriesAreResolved(p, catalog, i);
      var j :| 0 <= j < |before| && before[j].id == p[i].id && before[j].quantity == p[i].quantity;
      assert Resolve(c, catalog)[j] == before[j];
    } else {
      assert Resolve(c, catalog)[|before|].id == c[i].id;
    }
  }

  /** An entry whose product is absent yields no item and adds nothing: dropping it changes neither result. */
  lemma SkipsMissingProduct(c: CartDict, k: ProductId, catalog: Catalog)
    requires k !in catalog
    ensures Resolve(Delete(c, k), catalog) == Resolve(c, catalog)
    ensures CartTotal(Delete(c, k), catalog) == CartTotal(c, catalog)
  {
    var ix := IndexOf(c, k);
    if ix.Some? {
      var i := ix.value;
      var a, b, e := c[..i], c[i + 1..], c[i];
      assert Delete(c, k) == a + b;
      assert Resolve([e], catalog) == [] && CartTotal([e], catalog) == 0 by {
        assert [e][..0] == [];
      }
      var ae := a + [e];
      assert c == ae + b;
      ResolveAppend(ae, b, catalog);
      ResolveAppend(a, [e], catalog);
      assert Resolve(ae, catalog) == Resolve(a, catalog) && CartTotal(ae, catalog) == CartTotal(a, catalog);
      ResolveAppend(a, b, catalog);
    }
  }

  /**
   `get_cart_items_and_total(cart)`: look the cart's products up once, then
   walk the cart in order, appending an item and adding its total for each
   entry whose product was found.
   */
  method GetCartItemsAndTotal(cart: CartDict, catalog: Catalog) returns (items: seq<CartItem>, total: Paise)
    ensures items == Resolve(cart, catalog)
    ensures total == ItemsTotal(items) == CartTotal(cart, catalog)
    ensures |items| <= |cart|
    ensures |cart| == 0 ==> items == [] && total == 0
  {
    items := [];
    total := 0;
    // Product.objects.filter(pk__in=cart.keys()), keyed by primary key
    var productMap := map id | id in catalog && Has(cart, id) :: catalog[id];
    var i := 0;
    while i < |cart|
      invariant 0 <= i <= |cart|
      invariant items == Resolve(cart[..i], catalog)
      invariant total == CartTotal(cart[..i], catalog)
    {
      var e := cart[i];
      assert cart[..i + 1][..i] == cart[..i];
      if e.id !in productMap {
        assert e.id !in catalog;
        i := i + 1;
        continue;
      }
      var product := productMap[e.id];
      var itemTotal := product.price * e.quantity;
      items := items + [CartItem(e.id, product, e.quantity, itemTotal)];
      total := total + itemTotal;
      i := i + 1;
    }
    assert cart[..i] == cart;
    ItemsTotalOfResolve(cart, catalog);
  }
}
