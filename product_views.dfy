/**
 The product endpoints of ecommerce/views.py that write: posting a review
 from the product page, toggling a saved item and removing one.  The user is
 `Some(id)` when authenticated and `None` for an anonymous visitor; the
 product table is passed in and `get_object_or_404` fails when the id is not
 in it.
 */
module ProductViews {
  import opened Wrappers
  import opened Models
  import opened Store
  import opened PythonInt
  import opened Serializers

  /**
   The rating check of `ProductDetailView.post`: `int(rating)` and a 1..5
   range test, where a missing field (`int(None)`, a TypeError), a string
   `int` rejects (ValueError) and an out-of-range number all fail.
   */
  function RatingCheck(raw: Option<string>): (r: Option<int>)
    ensures r.Some? ==> ValidRating(r.value)
    ensures r.Some? <==> raw.Some? && ParseInt(raw.value).Some? && 1 <= ParseInt(raw.value).value <= 5
    ensures r.Some? ==> r == ParseInt(raw.value)
  {
    match raw
    case None => None
    case Some(s) =>
      match ParseInt(s)
      case None => None
      case Some(v) =>
        RatingChoicesAreOneToFive(v);
        if v < 1 || v > 5 then None else Some(v)
  }

  /** A rating submitted as `str(n)` is accepted exactly when n is one of the choices. */
  lemma RatingCheckOfStr(n: int)
    ensures RatingCheck(Some(Str(n))) == (if 1 <= n <= 5 then Some(n) else None)
  {
    ParseIntOfStr(n);
  }

  /** The form check and the REST validator accept the same numbers. */
  lemma RatingCheckAgreesWithValidator(raw: string)
    requires ParseInt(raw).Some?
    ensures RatingCheck(Some(raw)).Some? <==> ValidateRating(ParseInt(raw).value).Ok?
  {
    RatingChoicesAreOneToFive(ParseInt(raw).value);
  }

  /** What posting a review answers. */
  datatype ReviewReply =
    | ReviewNotFound          // get_object raised Http404
    | LoginRedirect           // redirect to "login" with an error message
    | InvalidRatingRedirect   // back to the product page with "Rating must be between 1 and 5."
    | ReviewSubmitted         // back to the product page with a success message

  /** Ratings stay among the choices when a valid rating is upserted. */
  lemma UpsertKeepsValidRatings(t: ReviewTable, product: ProductId, user: UserId, rating: int, comment: string, now: int)
    requires forall i :: 0 <= i < |t| ==> ValidRating(t[i].rating)
    requires ValidRating(rating)
    ensures var r := UpsertReview(t, product, user, rating, comment, now);
      forall i :: 0 <= i < |r| ==> ValidRating(r[i].rating)
  {
    var r := UpsertReview(t, product, user, rating, comment, now);
    match FindReview(t, product, user)
    case Some(k) =>
      forall i | 0 <= i < |r|
        ensures ValidRating(r[i].rating)
      {
        if i != k {
          assert r[i] == t[i];
        }
      }
    case None =>
      forall i | 0 <= i < |r|
        ensures ValidRating(r[i].rating)
      {
        if i < |t| {
          assert r[i] == t[i];
        }
      }
  }

  /**
   `ProductDetailView.post`: 404 for an unknown product, then a login
   redirect for an anonymous visitor, then the rating check; a valid rating
   creates or overwrites the user's one review of the product, with the
   comment defaulting to "".
   */
  method PostReview(db: Database, catalog: Catalog, product: ProductId, user: Option<UserId>,
                    rating: Option<string>, comment: Option<string>, now: int) returns (r: ReviewReply)
    requires db.Valid()
    modifies db
    ensures db.Valid()
    ensures db.orders == old(db.orders) && db.orderItems == old(db.orderItems) && db.saved == old(db.saved)
    ensures product !in catalog ==> r == ReviewNotFound && db.reviews == old(db.reviews)
    ensures product in catalog && user.None? ==> r == LoginRedirect && db.reviews == old(db.reviews)
    ensures product in catalog && user.Some? && RatingCheck(rating).None? ==>
      r == InvalidRatingRedirect && db.reviews == old(db.reviews)
    ensures product in catalog && user.Some? && RatingCheck(rating).Some? ==>
      && r == ReviewSubmitted
      && db.reviews == UpsertReview(old(db.reviews), product, user.value, RatingCheck(rating).value,
                                    if comment.Some? then comment.value else "", now)
  {
    if product !in catalog {
      return ReviewNotFound;
    }
    if user.None? {
      return LoginRedirect;
    }
    var checked := RatingCheck(rating);
    if checked.None? {
      return InvalidRatingRedirect;
    }
    var text := if comment.Some? then comment.value else "";
    UpsertKeepsValidRatings(db.reviews, product, user.value, checked.value, text, now);
    db.reviews := UpsertReview(db.reviews, product, user.value, checked.value, text, now);
    r := ReviewSubmitted;
  }

  /** What the saved-item endpoints answer. */
  datatype SavedReply =
    | SavedAdded       // {"status": "added", ...}
    | SavedRemoved     // {"status": "removed", ...}
    | SaveError        // {"status": "error", ...} with HTTP 500: the handler caught an exception
    | ServerError      // an exception the handler does not catch

  /**
   `save_product`: every failure inside the handler, an unknown product
   (Http404) or an anonymous user included, is caught and answered as a
   JSON error; otherwise the (user, product) pair is toggled.
   */
  method SaveProduct(db: Database, catalog: Catalog, product: ProductId, user: Option<UserId>) returns (r: SavedReply)
    modifies db
    ensures db.orders == old(db.orders) && db.orderItems == old(db.orderItems) && db.reviews == old(db.reviews)
    ensures product !in catalog || user.None? ==> r == SaveError && db.saved == old(db.saved)
    ensures product in catalog && user.Some? ==>
      && db.saved == ToggleSaved(old(db.saved), user.value, product)
      && (r == SavedRemoved <==> (user.value, product) in old(db.saved))
      && (r == SavedAdded <==> (user.value, product) !in old(db.saved))
    ensures old(db.Valid()) ==> db.Valid()
  {
    if product !in catalog || user.None? {
      return SaveError;
    }
    var pair := (user.value, product);
    if pair in db.saved {
      r := SavedRemoved;
    } else {
      r := SavedAdded;
    }
    db.saved := ToggleSaved(db.saved, user.value, product);
  }

  /** The saved set without (user, product). */
  function Unsave(saved: set<SavedPair>, user: UserId, product: ProductId): (r: set<SavedPair>)
    ensures (user, product) !in r
    ensures forall x :: x != (user, product) ==> (x in r <==> x in saved)
  {
    saved - {(user, product)}
  }

  /** Removing a saved item twice is removing it once. */
  lemma UnsaveIdempotent(saved: set<SavedPair>, user: UserId, product: ProductId)
    ensures Unsave(Unsave(saved, user, product), user, product) == Unsave(saved, user, product)
  {
  }

  /** Removing a pair that saving added restores the set. */
  lemma UnsaveUndoesSave(saved: set<SavedPair>, user: UserId, product: ProductId)
    requires (user, product) !in saved
    ensures Unsave(ToggleSaved(saved, user, product), user, product) == saved
  {
  }

  /**
   `remove_saved`: the filter on an anonymous user raises and is not caught;
   otherwise the pair is deleted when present and the reply is "removed"
   whether or not it was, for any product id.
   */
  method RemoveSaved(db: Database, product: ProductId, user: Option<UserId>) returns (r: SavedReply)
    modifies db
    ensures db.orders == old(db.orders) && db.orderItems == old(db.orderItems) && db.reviews == old(db.reviews)
    ensures user.None? ==> r == ServerError && db.saved == old(db.saved)
    ensures user.Some? ==> r == SavedRemoved && db.saved == Unsave(old(db.saved), user.value, product)
    ensures old(db.Valid()) ==> db.Valid()
  {
    if user.None? {
      return ServerError;
    }
    db.saved := Unsave(db.saved, user.value, product);
    r := SavedRemoved;
  }
}
