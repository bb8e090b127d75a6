/**
 The REST serializers' computed fields and the review rating validator:
 `avg_rating`, `review_count` and `is_saved` on a product, and
 `validate_rating` on review creation.
 */
module Serializers {
  import opened Wrappers
  import opened Models
  import opened Store

  const RatingMessage: string := "Rating must be between 1 and 5."

  /** `CreateReviewSerializer.validate_rating`: the value itself, or a validation error. */
  function ValidateRating(value: int): (r: Result<int, string>)
    ensures r.Ok? <==> ValidRating(value)
    ensures r.Ok? ==> r.value == value
    ensures r.Err? ==> r.error == RatingMessage
  {
    RatingChoicesAreOneToFive(value);
    if !(1 <= value <= 5) then Err(RatingMessage) else Ok(value)
  }

  /** A rational number num / den; the mean rating before rounding. */
  datatype Ratio = Ratio(num: int, den: nat)

  /**
   `get_avg_rating`: the mean of the product's ratings, or 0 when the
   aggregate is None (no reviews) or falsy.
   */
  function AvgRating(ratings: seq<int>): (r: Ratio)
    ensures r.den > 0
    ensures |ratings| == 0 ==> r == Ratio(0, 1)
    ensures |ratings| > 0 ==> r.num * |ratings| == SumInts(ratings) * r.den
  {
    if |ratings| == 0 || SumInts(ratings) == 0 then Ratio(0, 1)
    else Ratio(SumInts(ratings), |ratings|)
  }

  lemma {:induction false} SumWithinBounds(xs: seq<int>, lo: int, hi: int)
    requires forall v :: v in xs ==> lo <= v <= hi
    ensures lo * |xs| <= SumInts(xs) <= hi * |xs|
  {
    if |xs| > 0 {
      var init := xs[..|xs| - 1];
      var last := xs[|xs| - 1];
      assert forall v :: v in init ==> v in xs;
      assert last in xs;
      SumWithinBounds(init, lo, hi);
      assert SumInts(xs) == SumInts(init) + last;
      assert lo * |xs| == lo * |init| + lo;
      assert hi * |xs| == hi * |init| + hi;
    }
  }

  /** With every rating in 1..5, a reviewed product's average lies in [1, 5]. */
  lemma AvgRatingWithinChoices(t: seq<Review>, product: ProductId)
    requires forall i :: 0 <= i < |t| ==> ValidRating(t[i].rating)
    ensures var r := AvgRating(Ratings(t, product));
      if |Ratings(t, product)| == 0 then r == Ratio(0, 1)
      else r.den == |Ratings(t, product)| && r.den <= r.num <= 5 * r.den
  {
    forall i | 0 <= i < |t|
      ensures 1 <= t[i].rating <= 5
    {
      RatingChoicesAreOneToFive(t[i].rating);
    }
    var ratings := Ratings(t, product);
    RatingsWithinChoices(t, product);
    SumWithinBounds(ratings, 1, 5);
  }

  /** `get_review_count`: how many reviews the product has. */
  function ReviewCount(t: seq<Review>, product: ProductId): (n: nat)
    ensures n <= |t|
  {
    RatingsAtMostRows(t, product);
    |Ratings(t, product)|
  }

  lemma {:induction false} RatingsAtMostRows(t: seq<Review>, product: ProductId)
    ensures |Ratings(t, product)| <= |t|
  {
    if |t| > 0 {
      RatingsAtMostRows(t[..|t| - 1], product);
    }
  }

  /** The rows of the table that belong to `product`. */
  function RowsOf(t: seq<Review>, product: ProductId): set<nat>
  {
    set i: nat | i < |t| && t[i].product == product
  }

  /** The review count is the number of the product's rows in the table. */
  lemma {:induction false} ReviewCountCountsRows(t: seq<Review>, product: ProductId)
    ensures ReviewCount(t, product) == |RowsOf(t, product)|
  {
    if |t| == 0 {
      assert RowsOf(t, product) == {};
    } else {
      var init := t[..|t| - 1];
      ReviewCountCountsRows(init, product);
      RowsOfExtend(t, product);
      assert |t| - 1 !in RowsOf(init, product);
      assert |Ratings(t, product)| == |Ratings(init, product)| + (if t[|t| - 1].product == product then 1 else 0);
    }
  }

  lemma RowsOfExtend(t: seq<Review>, product: ProductId)
    requires |t| > 0
    ensures RowsOf(t, product) == RowsOf(t[..|t| - 1], product) + (if t[|t| - 1].product == product then {|t| - 1} else {})
  {
    var init := t[..|t| - 1];
    forall i: nat | i < |init|
      ensures i in RowsOf(t, product) <==> i in RowsOf(init, product)
    {
      assert t[i] == init[i];
    }
  }

  /** Who sent the request the serializer was given. */
  datatype Requester = Anonymous | Authenticated(user: UserId)

  /** `get_is_saved`: false without a request or for an anonymous user, else whether the pair is saved. */
  function IsSaved(request: Option<Requester>, saved: set<SavedPair>, product: ProductId): (r: bool)
    ensures request.None? ==> !r
    ensures request == Some(Anonymous) ==> !r
    ensures request.Some? && request.value.Authenticated? ==> (r <==> (request.value.user, product) in saved)
  {
    match request
    case Some(Authenticated(u)) => (u, product) in saved
    case _ => false
  }

  /** Toggling a pair flips `is_saved` for that user and product and no other. */
  lemma IsSavedAfterToggle(saved: set<SavedPair>, user: UserId, product: ProductId, u: UserId, p: ProductId)
    ensures var after := IsSaved(Some(Authenticated(u)), ToggleSaved(saved, user, product), p);
      if u == user && p == product then after == !IsSaved(Some(Authenticated(u)), saved, p)
      else after == IsSaved(Some(Authenticated(u)), saved, p)
  {
  }
}
