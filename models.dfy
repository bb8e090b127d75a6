/**
 The shop's entities (ecommerce/models.py) as values, with the field constraints
 the model declares stated as predicates.  Decimal fields with two decimal places
 are held exactly as integers counting hundredths (paise).
 */
module Models {
  import opened Wrappers

  type ProductId = nat
  type UserId = nat
  type CategoryId = nat
  type OrderId = nat

  /** A `DecimalField(decimal_places=2)` value, counted in hundredths. */
  type Paise = int

  /** `max_digits=10, decimal_places=2`: at most 8 digits before the point. */
  const MaxDigits: nat := 10
  const DecimalPlaces: nat := 2

  function Pow10(n: nat): (r: nat)
    ensures r >= 1
  {
    if n == 0 then 1 else 10 * Pow10(n - 1)
  }

  /** A value in hundredths fits `DecimalField(max_digits=10, decimal_places=2)`. */
  predicate FitsDecimal(v: Paise)
  {
    var bound: int := Pow10(MaxDigits);
    -bound < v < bound
  }

  /** The largest magnitude such a field holds is 99999999.99, i.e. 10^8 units less one paisa. */
  lemma FitsDecimalBound(v: Paise)
    ensures FitsDecimal(v) <==> -10_000_000_000 < v < 10_000_000_000
    ensures FitsDecimal(v) <==> -v < Pow10(MaxDigits - DecimalPlaces) * 100 && v < Pow10(MaxDigits - DecimalPlaces) * 100
  {
    assert Pow10(MaxDigits) == 10_000_000_000;
    assert Pow10(MaxDigits - DecimalPlaces) == 100_000_000;
  }

  /** Category: a label (`choice`, unique, at most 100 characters). */
  datatype Category = Category(id: CategoryId, choice: string)

  predicate ValidCategories(cs: seq<Category>)
  {
    && (forall i :: 0 <= i < |cs| ==> |cs[i].choice| <= 100)
    && (forall i, j :: 0 <= i < j < |cs| ==> cs[i].choice != cs[j].choice && cs[i].id != cs[j].id)
  }

  /** `unique=True` on the label: two categories with the same label are the same row. */
  lemma CategoryLabelsUnique(cs: seq<Category>, i: nat, j: nat)
    requires ValidCategories(cs) && i < |cs| && j < |cs|
    requires cs[i].choice == cs[j].choice
    ensures i == j
  {
  }

  /** Product: name (<= 255), price, a free-text quantity label (<= 50), a photo URL, a category. */
  datatype Product = Product(name: string, price: Paise, quantityLabel: string, photo: string, category: CategoryId)

  predicate ValidProduct(p: Product)
  {
    |p.name| <= 255 && FitsDecimal(p.price) && |p.quantityLabel| <= 50
  }

  /** The product table, keyed by primary key. */
  type Catalog = map<ProductId, Product>

  /** Every stored product satisfies its column constraints. */
  predicate ValidCatalog(catalog: Catalog)
  {
    forall p :: p in catalog ==> ValidProduct(catalog[p])
  }

  /** `range(1, 6)` and friends. */
  function Range(lo: int, hi: int): (r: seq<int>)
    decreases hi - lo
  {
    if lo >= hi then [] else [lo] + Range(lo + 1, hi)
  }

  /** The rating choices `[(i, str(i)) for i in range(1, 6)]`, by value. */
  function RatingChoices(): seq<int>
  {
    Range(1, 6)
  }

  predicate ValidRating(r: int)
  {
    r in RatingChoices()
  }

  lemma {:induction false} RangeMembers(lo: int, hi: int, x: int)
    ensures x in Range(lo, hi) <==> lo <= x < hi
    decreases hi - lo
  {
    if lo < hi {
      RangeMembers(lo + 1, hi, x);
    }
  }

  /** A rating is one of the choices exactly when it lies in 1..5. */
  lemma RatingChoicesAreOneToFive(r: int)
    ensures ValidRating(r) <==> 1 <= r <= 5
    ensures |RatingChoices()| == 5
  {
    RangeMembers(1, 6, r);
  }

  /** Review: one per (product, user); `comment` may be empty. */
  datatype Review = Review(product: ProductId, user: UserId, rating: int, comment: string, createdAt: int)

  /** Saved: the pair (user, product), one row per pair. */
  type SavedPair = (UserId, ProductId)

  /** The order status choices. */
  datatype OrderStatus = Pending | Processing | Shipped | Delivered | Cancelled

  /** The stored value of a status choice. */
  function StatusCode(s: OrderStatus): (code: string)
    ensures 0 < |code| <= 20
  {
    match s
    case Pending => "pending"
    case Processing => "processing"
    case Shipped => "shipped"
    case Delivered => "delivered"
    case Cancelled => "cancelled"
  }

  /** The status a stored value denotes; None for a value outside the choices. */
  function ParseStatus(code: string): (r: Option<OrderStatus>)
    ensures r.Some? ==> StatusCode(r.value) == code
  {
    if code == "pending" then Some(Pending)
    else if code == "processing" then Some(Processing)
    else if code == "shipped" then Some(Shipped)
    else if code == "delivered" then Some(Delivered)
    else if code == "cancelled" then Some(Cancelled)
    else None
  }

  /** `default="pending"`. */
  const DefaultStatus: OrderStatus := Pending

  lemma StatusCodeRoundTrip(s: OrderStatus)
    ensures ParseStatus(StatusCode(s)) == Some(s)
    ensures StatusCode(DefaultStatus) == "pending"
  {
  }

  /** Order: owner, total, optional payment reference (<= 255), status. */
  datatype Order = Order(id: OrderId, user: UserId, totalAmount: Paise, paymentId: Option<string>, status: OrderStatus)

  /** OrderItem: order reference, product, quantity (`PositiveIntegerField`, so >= 0), price snapshot. */
  datatype OrderItem = OrderItem(order: OrderId, product: ProductId, quantity: int, price: Paise)

  /** The item's quantity fits its `PositiveIntegerField` and its price snapshot its decimal column. */
  predicate ValidOrderItem(it: OrderItem)
  {
    it.quantity >= 0 && FitsDecimal(it.price)
  }
}
