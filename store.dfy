/**
 The database tables the views read and write, as values held by one
 `Database` object: orders, order items, reviews and saved pairs.  The
 uniqueness constraints the models declare are part of the table types.
 */
module Store {
  import opened Wrappers
  import opened Models

  /** `unique_together = ("product", "user")` on Review. */
  predicate UniqueReviewKeys(t: seq<Review>)
  {
    forall i, j :: 0 <= i < j < |t| ==> t[i].product != t[j].product || t[i].user != t[j].user
  }

  /** The Review table: at most one row per (product, user). */
  type ReviewTable = t: seq<Review> | UniqueReviewKeys(t) witness []

  /** The row of `user`'s review of `product`, if any. */
  function FindReview(t: seq<Review>, product: ProductId, user: UserId): (r: Option<nat>)
    ensures r.Some? ==> r.value < |t| && t[r.value].product == product && t[r.value].user == user
    ensures r.None? ==> forall i :: 0 <= i < |t| ==> t[i].product != product || t[i].user != user
  {
    if |t| == 0 then None
    else if t[0].product == product && t[0].user == user then Some(0)
    else match FindReview(t[1..], product, user)
      case Some(i) => Some(i + 1)
      case None => None
  }

  /**
   `Review.objects.update_or_create(product=.., user=.., defaults={rating, comment})`:
   overwrite rating and comment of the existing row (its creation time stays),
   or add a new row created `now`.
   */
  function UpsertReview(t: ReviewTable, product: ProductId, user: UserId, rating: int, comment: string, now: int): (r: ReviewTable)
    ensures FindReview(t, product, user).Some? ==>
      var i := FindReview(t, product, user).value;
      |r| == |t| && r[i] == t[i].(rating := rating, comment := comment)
      && forall j :: 0 <= j < |t| && j != i ==> r[j] == t[j]
    ensures FindReview(t, product, user).None? ==> r == t + [Review(product, user, rating, comment, now)]
    ensures FindReview(r, product, user).Some?
    ensures r[FindReview(r, product, user).value].rating == rating
    ensures r[FindReview(r, product, user).value].comment == comment
  {
    match FindReview(t, product, user)
    case Some(i) =>
      var r := t[i := t[i].(rating := rating, comment := comment)];
      assert UniqueReviewKeys(r);
      assert r[i].product == product && r[i].user == user;
      r
    case None =>
      var r := t + [Review(product, user, rating, comment, now)];
      assert UniqueReviewKeys(r);
      assert r[|t|].product == product && r[|t|].user == user;
      r
  }

  /** The ratings of one product's reviews (`obj.reviews`), in table order. */
  function Ratings(t: seq<Review>, product: ProductId): seq<int>
  {
    if |t| == 0 then []
    else Ratings(t[..|t| - 1], product) + (if t[|t| - 1].product == product then [t[|t| - 1].rating] else [])
  }

  function SumInts(xs: seq<int>): int
  {
    if |xs| == 0 then 0 else SumInts(xs[..|xs| - 1]) + xs[|xs| - 1]
  }

  lemma {:induction false} SumIntsAppend(a: seq<int>, b: seq<int>)
    ensures SumInts(a + b) == SumInts(a) + SumInts(b)
    decreases |b|
  {
    if |b| == 0 {
      assert a + b == a;
    } else {
      assert (a + b)[..|a + b| - 1] == a + b[..|b| - 1];
      SumIntsAppend(a, b[..|b| - 1]);
    }
  }

  /** Replacing one row by a row for the same product keeps that product's review count and shifts its rating sum by the change of rating. */
  lemma {:induction false} RatingsReplace(t: seq<Review>, i: nat, x: Review, q: ProductId)
    requires i < |t| && x.product == t[i].product
    ensures |Ratings(t[i := x], q)| == |Ratings(t, q)|
    ensures SumInts(Ratings(t[i := x], q)) == SumInts(Ratings(t, q)) + (if q == x.product then x.rating - t[i].rating else 0)
  {
    var n := |t| - 1;
    var t' := t[i := x];
    assert t'[..n] == if i == n then t[..n] else t[..n][i := x];
    if i < n {
      RatingsReplace(t[..n], i, x, q);
      var tail := if t[n].product == q then [t[n].rating] else [];
      SumIntsAppend(Ratings(t'[..n], q), tail);
      SumIntsAppend(Ratings(t[..n], q), tail);
    } else {
      var tail := if t[n].product == q then [t[n].rating] else [];
      var tail' := if x.product == q then [x.rating] else [];
      SumIntsAppend(Ratings(t[..n], q), tail);
      SumIntsAppend(Ratings(t[..n], q), tail');
      assert [x.rating][..0] == [] && [t[n].rating][..0] == [];
    }
  }

  /**
   Resubmitting a review replaces it: the product's review count is unchanged
   and its rating sum moves by the change of rating; a first review adds one
   rating.  Other products' ratings are untouched.
   */
  lemma UpsertReviewRatings(t: ReviewTable, product: ProductId, user: UserId, rating: int, comment: string, now: int, q: ProductId)
    ensures var r := UpsertReview(t, product, user, rating, comment, now);
      match FindReview(t, product, user)
      case Some(i) =>
        && |Ratings(r, q)| == |Ratings(t, q)|
        && SumInts(Ratings(r, q)) == SumInts(Ratings(t, q)) + (if q == product then rating - t[i].rating else 0)
      case None =>
        Ratings(r, q) == Ratings(t, q) + (if q == product then [rating] else [])
  {
    var r := UpsertReview(t, product, user, rating, comment, now);
    match FindReview(t, product, user)
    case Some(i) =>
      RatingsReplace(t, i, t[i].(rating := rating, comment := comment), q);
    case None =>
      assert r[..|r| - 1] == t;
  }

  /** Ratings that the table keeps within the choices stay within them for every product. */
  lemma {:induction false} RatingsWithinChoices(t: seq<Review>, product: ProductId)
    requires forall i :: 0 <= i < |t| ==> 1 <= t[i].rating <= 5
    ensures forall v :: v in Ratings(t, product) ==> 1 <= v <= 5
  {
    if |t| > 0 {
      RatingsWithinChoices(t[..|t| - 1], product);
    }
  }

  /** `Saved.objects.get_or_create(...)` followed by `delete()` when it existed: the pair's membership flips. */
  function ToggleSaved(s: set<SavedPair>, user: UserId, product: ProductId): (r: set<SavedPair>)
    ensures (user, product) in r <==> (user, product) !in s
    ensures forall x :: x != (user, product) ==> (x in r <==> x in s)
  {
    if (user, product) in s then s - {(user, product)} else s + {(user, product)}
  }

  /** Toggling twice restores the saved set. */
  lemma ToggleSavedTwice(s: set<SavedPair>, user: UserId, product: ProductId)
    ensures ToggleSaved(ToggleSaved(s, user, product), user, product) == s
  {
  }

  /** Σ price × quantity over the items of one order. */
  function ItemsSum(items: seq<OrderItem>, order: OrderId): Paise
  {
    if |items| == 0 then 0
    else
      var it := items[|items| - 1];
      ItemsSum(items[..|items| - 1], order) + (if it.order == order then it.price * it.quantity else 0)
  }

  lemma {:induction false} ItemsSumAppend(a: seq<OrderItem>, b: seq<OrderItem>, order: OrderId)
    ensures ItemsSum(a + b, order) == ItemsSum(a, order) + ItemsSum(b, order)
    decreases |b|
  {
    if |b| == 0 {
      assert a + b == a;
    } else {
      assert (a + b)[..|a + b| - 1] == a + b[..|b| - 1];
      ItemsSumAppend(a, b[..|b| - 1], order);
    }
  }

  /** Every order's total is the sum of its items' price × quantity. */
  ghost predicate OrdersConsistent(orders: seq<Order>, items: seq<OrderItem>)
  {
    forall i :: 0 <= i < |orders| ==> orders[i].totalAmount == ItemsSum(items, orders[i].id)
  }

  /** The tables the views touch. */
  class Database {
    var orders: seq<Order>
    var orderItems: seq<OrderItem>
    var reviews: ReviewTable
    var saved: set<SavedPair>

    /**
     Order ids count up from 1, items refer to existing orders and satisfy
     their column constraints, stored ratings are among the choices.
     */
    ghost predicate Valid()
      reads this
    {
      && (forall i :: 0 <= i < |orders| ==> orders[i].id == i + 1)
      && (forall j :: 0 <= j < |orderItems| ==> 1 <= orderItems[j].order <= |orders|)
      && (forall j :: 0 <= j < |orderItems| ==> ValidOrderItem(orderItems[j]))
      && (forall i :: 0 <= i < |reviews| ==> ValidRating(reviews[i].rating))
    }

    /** The primary key the next order row receives. */
    function NextOrderId(): (id: OrderId)
      reads this
      ensures Valid() ==> forall i :: 0 <= i < |orders| ==> orders[i].id != id
    {
      |orders| + 1
    }

    constructor ()
      ensures Valid() && orders == [] && orderItems == [] && reviews == [] && saved == {}
    {
      orders := [];
      orderItems := [];
      reviews := [];
      saved := {};
    }
  }
}
