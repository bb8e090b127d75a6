/**
 The cart endpoints of ecommerce/views.py: each reads the session's cart
 dict, changes it, stores it back and answers with a small JSON document
 (or a redirect).  The product table is passed in; `get_object_or_404`
 answers NotFound when the id is not in it.  A session value that is not a
 dict reaches `cart.get`, `cart.items()`, `in` or `len` in the handlers that
 do not check for it; the model answers ServerError there and changes nothing.
 */
module CartViews {
  import opened Wrappers
  import opened Models
  import opened Cart

  /** What a cart endpoint answers. */
  datatype Reply =
    | NotFound                      // get_object_or_404 raised Http404
    | ServerError                   // an unhandled exception on a non-dict session value
    | Added(productName: string, cartTotalItems: int)
    | RedirectToCart
    | QuantityChanged(quantity: int, itemTotal: Paise, cartTotalItems: int)
    | NotInCart                     // {"status": "error", "message": "Product not in cart"}

  /**
   `add_to_cart`: 404 for an unknown product before the cart is touched;
   otherwise cart[id] becomes its old value (0 if absent) + 1 and the reply
   carries the sum of all quantities.
   */
  method AddToCart(session: Session, catalog: Catalog, id: ProductId) returns (r: Reply)
    modifies session
    ensures id !in catalog ==> r == NotFound && session.cart == old(session.cart)
    ensures id in catalog && old(session.cart).NotADict? ==> r == ServerError && session.cart == old(session.cart)
    ensures id in catalog && !old(session.cart).NotADict? ==>
      var before := Read(old(session.cart));
      && session.cart == Dict(Put(before, id, Quantity(before, id) + 1))
      && r == Added(catalog[id].name, SumQuantities(before) + 1)
    ensures old(session.Valid()) ==> session.Valid()
  {
    if id !in catalog {
      return NotFound;
    }
    var product := catalog[id];
    if session.cart.NotADict? {
      return ServerError;
    }
    var cart := Read(session.cart);
    ghost var before := cart;
    cart := Put(cart, id, Quantity(cart, id) + 1);
    session.cart := Dict(cart);
    SumQuantitiesPut(before, id, Quantity(before, id) + 1);
    AddKeepsPositive(before, id);
    r := Added(product.name, SumQuantities(cart));
  }

  /** Incrementing a key keeps every quantity positive when they were. */
  lemma AddKeepsPositive(c: CartDict, id: ProductId)
    ensures QuantitiesPositive(c) ==> QuantitiesPositive(Put(c, id, Quantity(c, id) + 1))
  {
    var r := Put(c, id, Quantity(c, id) + 1);
    if QuantitiesPositive(c) {
      forall i | 0 <= i < |r| ensures r[i].quantity >= 1 {
      if r[i].id != id {
        assert Has(c, r[i].id) by { assert Has(r, r[i].id); }
        var j :| 0 <= j < |c| && c[j].id == r[i].id;
        assert Quantity(r, r[i].id) == r[i].quantity;
      }
    }
    }
  }

  /** `remove_from_cart`: delete the entry when present, otherwise leave the session alone. */
  method RemoveFromCart(session: Session, id: ProductId) returns (r: Reply)
    modifies session
    ensures old(session.cart).NotADict? ==> r == ServerError && session.cart == old(session.cart)
    ensures !old(session.cart).NotADict? ==> r == RedirectToCart
    ensures !old(session.cart).NotADict? && Has(Read(old(session.cart)), id) ==>
      session.cart == Dict(Delete(Read(old(session.cart)), id))
    ensures !Has(Read(old(session.cart)), id) ==> session.cart == old(session.cart)
    ensures old(session.Valid()) ==> session.Valid()
  {
    if session.cart.NotADict? {
      return ServerError;
    }
    var cart := Read(session.cart);
    if Has(cart, id) {
      cart := Delete(cart, id);
      session.cart := Dict(cart);
      DeleteKeepsPositive(Read(old(session.cart)), id);
    }
    r := RedirectToCart;
  }

  /** Deleting a key keeps every remaining quantity positive. */
  lemma DeleteKeepsPositive(c: CartDict, id: ProductId)
    ensures QuantitiesPositive(c) ==> QuantitiesPositive(Delete(c, id))
  {
    var r := Delete(c, id);
    if QuantitiesPositive(c) {
      forall i | 0 <= i < |r| ensures r[i].quantity >= 1 {
        assert Has(r, r[i].id);
        var j :| 0 <= j < |c| && c[j].id == r[i].id;
        assert Quantity(r, r[i].id) == r[i].quantity;
      }
    }
  }

  /** Removing the same product twice leaves the cart as removing it once. */
  lemma RemoveTwiceIsRemoveOnce(c: CartDict, id: ProductId)
    ensures !Has(Delete(c, id), id)
    ensures Delete(Delete(c, id), id) == Delete(c, id)
  {
    DeleteIdempotent(c, id);
  }

  /**
   `increase_quantity`: a non-dict session value is replaced by an empty dict;
   the incremented cart is stored before the product is looked up, so an
   unknown id stays in the cart even though the reply is NotFound.
   */
  method IncreaseQuantity(session: Session, catalog: Catalog, id: ProductId) returns (r: Reply)
    modifies session
    ensures var before := Read(old(session.cart));
      && session.cart == Dict(Put(before, id, Quantity(before, id) + 1))
      && (id !in catalog ==> r == NotFound)
      && (id in catalog ==> r == QuantityChanged(Quantity(before, id) + 1,
                                                 catalog[id].price * (Quantity(before, id) + 1),
                                                 SumQuantities(before) + 1))
    ensures old(session.Valid()) ==> session.Valid()
  {
    var cart := Read(session.cart);   // a non-dict value becomes {}
    cart := Put(cart, id, Quantity(cart, id) + 1);
    session.cart := Dict(cart);
    ghost var before := Read(old(session.cart));
    AddKeepsPositive(before, id);
    if id !in catalog {
      return NotFound;
    }
    var product := catalog[id];
    var quantity := Quantity(cart, id);
    SumQuantitiesPut(before, id, Quantity(before, id) + 1);
    r := QuantityChanged(quantity, product.price * quantity, SumQuantities(cart));
  }

  /**
   `decrease_quantity`: a quantity above 1 drops by one, a quantity of 1 (or
   less) removes the entry and answers quantity 0 with item total 0; an id
   not in the cart answers NotInCart and leaves the session as it was.
   */
  method DecreaseQuantity(session: Session, catalog: Catalog, id: ProductId) returns (r: Reply)
    modifies session
    ensures var before := Read(old(session.cart));
      && (!Has(before, id) ==> r == NotInCart && session.cart == old(session.cart))
      && (Has(before, id) && Quantity(before, id) > 1 ==>
            && session.cart == Dict(Put(before, id, Quantity(before, id) - 1))
            && (id !in catalog ==> r == NotFound)
            && (id in catalog ==> r == QuantityChanged(Quantity(before, id) - 1,
                                                       catalog[id].price * (Quantity(before, id) - 1),
                                                       SumQuantities(before) - 1)))
      && (Has(before, id) && Quantity(before, id) <= 1 ==>
            && session.cart == Dict(Delete(before, id))
            && r == QuantityChanged(0, 0, SumQuantities(before) - Quantity(before, id)))
    ensures old(session.Valid()) ==> session.Valid()
  {
    var cart := Read(session.cart);   // a non-dict value becomes {}
    ghost var before := cart;
    if !Has(cart, id) {
      return NotInCart;
    }
    if Quantity(cart, id) > 1 {
      cart := Put(cart, id, Quantity(cart, id) - 1);
      SumQuantitiesPut(before, id, Quantity(before, id) - 1);
      DecrementKeepsPositive(before, id);
    } else {
      cart := Delete(cart, id);
      SumQuantitiesDelete(before, id);
      DeleteKeepsPositive(before, id);
    }
    session.cart := Dict(cart);
    var quantity := Quantity(cart, id);
    var itemTotal: Paise;
    if quantity > 0 {
      if id !in catalog {
        return NotFound;
      }
      itemTotal := catalog[id].price * quantity;
    } else {
      itemTotal := 0;
    }
    r := QuantityChanged(quantity, itemTotal, SumQuantities(cart));
  }

  /** Decrementing a quantity above 1 keeps every quantity positive. */
  lemma DecrementKeepsPositive(c: CartDict, id: ProductId)
    requires Quantity(c, id) > 1
    ensures QuantitiesPositive(c) ==> QuantitiesPositive(Put(c, id, Quantity(c, id) - 1))
  {
    var r := Put(c, id, Quantity(c, id) - 1);
    if QuantitiesPositive(c) {
      forall i | 0 <= i < |r| ensures r[i].quantity >= 1 {
        assert Quantity(r, r[i].id) == r[i].quantity;
        if r[i].id != id {
          assert Has(c, r[i].id) by { assert Has(r, r[i].id); }
          var j :| 0 <= j < |c| && c[j].id == r[i].id;
        }
      }
    }
  }

  /** `cart_count`: the number of distinct products in the cart (not the number of units). */
  function CartCount(stored: Stored): (r: Option<nat>)
    ensures stored.NotADict? <==> r.None?
  {
    if stored.NotADict? then None else Some(|Read(stored)|)
  }

  /**
   For a cart with positive quantities the navigation count never exceeds
   add_to_cart's `cart_total_items`, and equals it exactly when every quantity is 1.
   */
  lemma CartCountVersusTotalItems(c: CartDict)
    requires QuantitiesPositive(c)
    ensures CartCount(Dict(c)).value <= SumQuantities(c)
    ensures CartCount(Dict(c)).value == SumQuantities(c) <==> forall i :: 0 <= i < |c| ==> c[i].quantity == 1
  {
    EntriesAtMostUnits(c);
  }
}
