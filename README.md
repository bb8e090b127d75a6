# myshop storefront core in Dafny

A model of the core of the myshop Django storefront: the session cart and
its resolution against the product table, the checkout gate and the payment
line items, order finalisation after payment, product reviews and their
aggregates, the saved-items wishlist, and the filename logic of the image
download script.

The modules follow the source files:

| module | models |
|---|---|
| `Models` (models.dfy) | the entities of `ecommerce/models.py` and their field constraints |
| `Cart` (cart.dfy) | the session cart dict (insertion-ordered, distinct keys) and the session store |
| `CartUtils` (cart_utils.dfy) | `get_cart_items_and_total` |
| `Store` (store.dfy) | the database tables the views write: orders, order items, reviews, saved pairs |
| `CartViews` (cart_views.dfy) | `add_to_cart`, `remove_from_cart`, `increase_quantity`, `decrease_quantity`, `cart_count` |
| `CheckoutViews` (checkout_views.dfy) | `create_checkout_session`, `payment_success` |
| `PythonInt` (python_int.dfy) | Python's `int()` on strings and `str()` on integers, as the rating check uses them |
| `ProductViews` (product_views.dfy) | `ProductDetailView.post`, `save_product`, `remove_saved` |
| `Serializers` (serializers.dfy) | `validate_rating`, `get_avg_rating`, `get_review_count`, `get_is_saved` |
| `ImageDownload` (image_download.dfy) | `download_image` in download_supabase_images.py |
| `Wrappers` (wrappers.dfy) | `Option` and `Result` |

Modelling choices:

- **Money.** Prices and totals are whole paise, so 30.00 rupees is 3000. A `DecimalField(max_digits=10, decimal_places=2)` holds exactly the paise amounts strictly between -10^10 and 10^10.
- **The cart.** The session cart is a sequence of `(product id, quantity)` entries with distinct ids, kept in insertion order as a Python dict keeps them. The handlers key it by `str(product_id)`, and the model keys it by the id itself.
- **The session value.** It is `Missing`, a `Dict`, or `NotADict` (some other value). Most handlers without an `isinstance` guard would raise on a non-dict value: the model answers `ServerError` and changes nothing. `increase_quantity` and `decrease_quantity` replace such a value by `{}`, as the source does. `payment_success` is the exception: a truthy non-dict value gets past `if not cart`, the Order row (total 0) is created, and only the item loop raises, so the reply is the "finalisation failed" message with that Order left in place.
- **Products.** The product table is a map passed to each operation. A missing key is where `get_object_or_404` raises.
- **Database and session.** The database is a `Database` object whose tables are fields. The session is a `Session` object with one `cart` field. The handlers that change them are methods with `modifies` clauses.
- **Users.** The requesting user is `Some(id)` when authenticated and `None` for an anonymous visitor.
- **Payment provider.** Its reply to the checkout request is an input.
- **Image download.** The HTTP exchange and the success of the file write are inputs. `str.isalnum` is a character predicate passed in.

## Model

| member | source | states |
|---|---|---|
| Models.FitsDecimalBound | ecommerce/models.py:23 | a 10-digit, 2-place decimal holds exactly the paise amounts strictly between -10^10 and 10^10 |
| Models.CategoryLabelsUnique | ecommerce/models.py:14-15 | with `unique=True` labels, two categories carrying the same label are the same row |
| Models.RangeMembers | ecommerce/models.py:57 | `range(lo, hi)` holds x exactly when lo <= x < hi |
| Models.RatingChoicesAreOneToFive | ecommerce/models.py:57 | the rating choices are exactly 1, 2, 3, 4, 5 |
| Models.StatusCode | ecommerce/models.py:73-83 | every status code fits the status column's max_length of 20 |
| Models.ParseStatus | ecommerce/models.py:73-79 | a code accepted as a status is that status's code |
| Models.StatusCodeRoundTrip | ecommerce/models.py:73-83 | parsing a status's code gives the status back, and the default status is "pending" |
| Cart.Quantity | ecommerce/views.py:166 | `cart.get(k, 0)`: 0 for an absent key, else the stored quantity |
| Cart.Put | ecommerce/views.py:166 | `cart[k] = v`: k now maps to v, every other key keeps its presence and quantity, an existing key keeps its position and a new key goes last |
| Cart.Delete | ecommerce/views.py:182 | `del cart[k]`: k is gone, other keys keep their quantities and order, and an absent key leaves the cart unchanged |
| Cart.DeleteIdempotent | ecommerce/views.py:182 | deleting a key twice is deleting it once |
| Cart.SumQuantitiesPut | ecommerce/views.py:166-171 | after `cart[k] = v` the quantity sum moves by v minus k's old quantity |
| Cart.SumQuantitiesDelete | ecommerce/views.py:228-243 | deleting a key lowers the quantity sum by its quantity |
| Cart.EntriesAtMostUnits | ecommerce/views.py:342-344 | with positive quantities the number of entries is at most the quantity sum, with equality exactly when every quantity is 1 |
| CartUtils.Resolve | ecommerce/utils/cart_utils.py:16-28 | at most one item per cart entry |
| CartUtils.ItemsTotalOfResolve | ecommerce/utils/cart_utils.py:21-29 | the total is the sum of the resolved items' totals |
| CartUtils.ResolveAppend | ecommerce/utils/cart_utils.py:16-29 | items and total of concatenated carts are the concatenation and the sum of the parts' |
| CartUtils.ResolvedItemsComeFromCart | ecommerce/utils/cart_utils.py:16-28 | every item is a cart entry whose product exists, priced at that product's price times the entry's quantity |
| CartUtils.PresentEntriesAreResolved | ecommerce/utils/cart_utils.py:16-22 | every entry whose product exists yields an item with its quantity and price × quantity |
| CartUtils.SkipsMissingProduct | ecommerce/utils/cart_utils.py:17-19 | an entry whose product is gone contributes nothing: removing it changes neither the items nor the total |
| CartUtils.GetCartItemsAndTotal | ecommerce/utils/cart_utils.py:6-31 | the loop returns the resolved items and their total, at most one item per entry, and nothing for an empty cart |
| CartViews.AddToCart | ecommerce/views.py:162-175 | 404 for an unknown product with the cart untouched; otherwise the product's quantity goes up by 1 (from 0 if absent) and the reply carries the name and the new quantity sum; positive quantities stay positive |
| CartViews.AddKeepsPositive | ecommerce/views.py:166 | adding one keeps every quantity positive |
| CartViews.RemoveFromCart | ecommerce/views.py:178-184 | the entry is deleted when present, the cart is untouched otherwise, and the reply is the redirect to the cart |
| CartViews.DeleteKeepsPositive | ecommerce/views.py:182 | deleting an entry keeps every quantity positive |
| CartViews.RemoveTwiceIsRemoveOnce | ecommerce/views.py:178-184 | removing twice leaves the same cart as removing once |
| CartViews.IncreaseQuantity | ecommerce/views.py:201-218 | the quantity goes up by 1 and is stored before the product lookup, so an unknown product answers 404 with the cart already changed; the reply carries quantity, price × quantity and the quantity sum |
| CartViews.DecreaseQuantity | ecommerce/views.py:221-246 | a quantity above 1 drops by 1 and one of 1 or less removes the entry, with quantity 0 and item total 0 in the reply; an absent id answers "Product not in cart" and changes nothing |
| CartViews.DecrementKeepsPositive | ecommerce/views.py:227-228 | decrementing a quantity above 1 keeps every quantity positive |
| CartViews.CartCount | ecommerce/views.py:342-344 | `len(cart)` counts entries, and fails exactly on a non-dict session value |
| CartViews.CartCountVersusTotalItems | ecommerce/views.py:342-344 | the cart count never exceeds the quantity sum the add endpoint reports, and equals it exactly when every quantity is 1 |
| CheckoutViews.UnitAmount | ecommerce/views.py:269 | `int(Decimal(price) * 100)` is exactly the price in paise |
| CheckoutViews.FirstMissing | ecommerce/views.py:260-261 | the first entry whose product lookup fails, every entry before it being found |
| CheckoutViews.FirstMissingAt | ecommerce/views.py:260-261 | a position with all entries before it found and its own missing is the first missing one |
| CheckoutViews.CheckoutLines | ecommerce/views.py:259-273 | one line per cart entry in cart order, in "inr", with the product's name, its price in paise and the entry's quantity |
| CheckoutViews.GateNeedsPricedEntry | ecommerce/views.py:254-275 | a cart that passes the 50-rupee minimum has an entry with an existing product, so the empty-lines branch is never taken |
| CheckoutViews.ChargeMatchesCartTotal | ecommerce/views.py:255-273 | read against the same product table, the amount sent for payment equals the resolved cart total |
| CheckoutViews.PriceChangeBetweenReads | ecommerce/views.py:255-273 | a price change between checkout and order finalisation makes the charged amount (60.00) and the recorded total (70.00) differ |
| CheckoutViews.CreateCheckoutSession | ecommerce/views.py:249-288 | login redirect, then the 50-rupee minimum on the resolved total, then 404 at the first unknown product, then the provider's redirect or the payment error, always with the lines for the whole cart; the cart is never changed |
| CheckoutViews.OrderItemsFor | ecommerce/views.py:308-314 | one order item per cart entry with the entry's product and quantity and the product's current price |
| CheckoutViews.OrderItemsSum | ecommerce/views.py:308-318 | the items created for an order add up to the resolved cart total, and add nothing to any other order |
| CheckoutViews.OrderItemsValid | ecommerce/models.py:93-97 | items made from a cart with positive quantities and a product table within its column constraints satisfy the OrderItem constraints: quantity >= 0 for the `PositiveIntegerField`, and a price that fits the decimal column |
| CheckoutViews.AppendOrderKeepsConsistency | ecommerce/views.py:302-319 | a new order whose total is the cart total, added with its items, keeps every order's total equal to the sum of its items |
| CheckoutViews.CreateOrderItems | ecommerce/views.py:308-314 | writes one order item per cart entry, in cart order, up to the first missing product; it reports whether every entry was written, and then the running total is the cart total |
| CheckoutViews.PaymentSuccess | ecommerce/views.py:295-322 | an empty cart redirects home; otherwise an Order (status "processing", total 0) is created first, then one item per entry until a lookup fails; on failure the Order and the items so far stay and the cart is kept; on success the total becomes the cart total and the cart is emptied; every stored item keeps the OrderItem column constraints |
| CheckoutViews.FailedFinalisationBreaksTotals | ecommerce/views.py:302-317 | after a failure past a non-zero entry, the leftover Order's total 0 disagrees with its items' sum |
| CheckoutViews.FailedFinalisationExample | ecommerce/views.py:302-317 | cart {"3": 2, "9": 1} with product 9 deleted leaves Order 1 at 0 with an item worth 60.00 |
| CheckoutViews.CollectOrderItems | ecommerce/views.py:308-314 | the same loop without writing: all the order items and the cart total when every product exists, and failure exactly when one is missing |
| CheckoutViews.PaymentSuccessAtomic | ecommerce/views.py:295-322 | the same callback writing the Order and its items all at once: a failure writes nothing, every order's total stays the sum of its items, and every stored item keeps the OrderItem column constraints |
| CheckoutViews.PurchaseScenario | ecommerce/views.py:249-322 | cart {"3": 2} at 30.00 gives one line of 2 × 3000 paise, Order 1 for 60.00 with one item (product 3, 2, 30.00), and an empty cart |
| Store.FindReview | ecommerce/views.py:64-67 | the row of a (product, user) review if there is one, and none otherwise |
| Store.UpsertReview | ecommerce/views.py:64-68 | overwrite the rating and comment of the user's existing review in place, keeping its creation time and every other row, or append a new review; either way the pair then has one review with the new rating and comment |
| Store.UpsertReviewRatings | ecommerce/views.py:64-68 | a resubmission keeps the product's review count and shifts its rating sum by the change; a first review adds one rating |
| Store.RatingsWithinChoices | ecommerce/models.py:57 | a product's ratings are all among the choices when the table's are |
| Store.ToggleSaved | ecommerce/views.py:359-363 | the pair's membership flips and every other pair is untouched |
| Store.ToggleSavedTwice | ecommerce/views.py:356-377 | saving twice restores the saved set |
| Store.Database.NextOrderId | ecommerce/views.py:302-307 | the next order's id is held by no existing order |
| PythonInt.ParseIntOfStr | ecommerce/views.py:58 | `int(str(n)) == n` for every integer n |
| PythonInt.ParseIntIgnoresPadding | ecommerce/views.py:58 | leading and trailing whitespace, each of any length and chosen independently (as in `" 3\n"`), does not change what `int()` reads |
| ProductViews.RatingCheck | ecommerce/views.py:55-63 | a rating is accepted exactly when the field is present, `int()` parses it and the number is in 1..5; the accepted value is one of the rating choices |
| ProductViews.RatingCheckOfStr | ecommerce/views.py:58-60 | a rating sent as `str(n)` is accepted exactly when 1 <= n <= 5, and then as n |
| ProductViews.RatingCheckAgreesWithValidator | ecommerce/views.py:58-60 | the form's check and the REST validator accept the same numbers |
| ProductViews.UpsertKeepsValidRatings | ecommerce/views.py:64-68 | upserting a valid rating keeps every stored rating among the choices |
| ProductViews.PostReview | ecommerce/views.py:50-70 | 404 first, then the login redirect, then the rating check, each leaving the tables unchanged; an accepted rating upserts the user's review with the comment ("" when absent), and stored ratings stay among the choices |
| ProductViews.SaveProduct | ecommerce/views.py:355-377 | an unknown product or an anonymous user is answered as a caught error; otherwise the pair is toggled, with "removed" exactly when it was saved and "added" exactly when it was not |
| ProductViews.Unsave | ecommerce/views.py:382-384 | the pair is absent afterwards and every other pair is untouched |
| ProductViews.UnsaveIdempotent | ecommerce/views.py:380-385 | removing a saved item twice is removing it once |
| ProductViews.UnsaveUndoesSave | ecommerce/views.py:356-385 | removing a pair that saving has just added restores the saved set |
| ProductViews.RemoveSaved | ecommerce/views.py:380-385 | an anonymous user makes the handler raise; otherwise the pair is absent afterwards and the reply is "removed" whether or not it was saved |
| Serializers.ValidateRating | ecommerce/serializers.py:68-71 | the value is returned unchanged exactly when it is a rating choice, and otherwise the error "Rating must be between 1 and 5." |
| Serializers.AvgRating | ecommerce/serializers.py:41-43 | 0 without reviews; otherwise a fraction with a positive denominator equal to the sum of the ratings divided by their number |
| Serializers.AvgRatingWithinChoices | ecommerce/serializers.py:41-43 | with ratings among the choices, a reviewed product's mean lies between 1 and 5 |
| Serializers.ReviewCount | ecommerce/serializers.py:45-46 | the review count never exceeds the size of the table |
| Serializers.ReviewCountCountsRows | ecommerce/serializers.py:45-46 | the review count is the number of the table's rows for the product |
| Serializers.IsSaved | ecommerce/serializers.py:48-52 | false without a request or for an anonymous user; for an authenticated user, whether the pair is saved |
| Serializers.IsSavedAfterToggle | ecommerce/serializers.py:48-52 | saving or unsaving flips `is_saved` for that user and product and for no other |
| ImageDownload.DropParams | download_supabase_images.py:26 | the result is a prefix of the path; a path without ';' is kept whole; otherwise the cut is at a ';' after the last '/', and the kept last segment holds no ';' |
| ImageDownload.PathOfPlainUrl | download_supabase_images.py:26 | the path of `http(s)://host/path?query` is `/path` |
| ImageDownload.Extension | download_supabase_images.py:27 | the extension is a suffix of the path: either empty, exactly when the last segment has no '.' after a non-'.' character, or from the last segment's last '.' when some non-'.' character precedes that dot in the segment |
| ImageDownload.ExtensionOfPlainName | download_supabase_images.py:27 | a last path segment without '.' has an empty extension |
| ImageDownload.ExtensionOfNamedFile | download_supabase_images.py:27 | a last segment `stem.ext` whose stem holds some character other than '.' (`a.b.png`, `.a.png`) has extension `.ext` |
| ImageDownload.ExtensionOfDotFile | download_supabase_images.py:27 | a last segment of dots and then `.ext`, a hidden file such as `.png`, has no extension |
| ImageDownload.ChosenExtension | download_supabase_images.py:27-29 | always one of .jpg, .jpeg, .png, .webp: the lower-cased extension when whitelisted, and ".jpg" otherwise |
| ImageDownload.SafeName | download_supabase_images.py:32 | length min(30, name length); every character is alphanumeric or one of "._-"; allowed characters are kept in place and all others become "_" |
| ImageDownload.SafeNameIdempotent | download_supabase_images.py:32 | sanitising a sanitised name changes nothing |
| ImageDownload.FilenameStaysInDirectory | download_supabase_images.py:32-34 | with '/' not alphanumeric and not in the product id, the filename holds no '/', so the file lands inside the image directory |
| ImageDownload.DownloadImage | download_supabase_images.py:16-48 | None for an empty or non-"http" URL, an exception, a status other than 200 or a content type without "image"; otherwise exactly id + "_" + safe name + extension |
| ImageDownload.SkippedUrlIgnoresFetch | download_supabase_images.py:17-18 | a URL that is not fetched yields None whatever the server would have answered |

## Left out

- HTTP plumbing is reduced to result constructors. That covers request parsing, `require_POST`, flash messages, templates, `JsonResponse` bodies, redirects and Django's session save mechanics.
- The other views are not part of this model: `index`, `ProductListView`, `ProductDetailView.get_context_data`, `quick_view_product`, `saved_items_view`, `order_history`, the authentication views and `view_cart` (which only renders `get_cart_items_and_total`). The `Customer` entity is not part of it either.
- Concurrency is not modelled: two requests of one visitor can interleave their read-modify-write of the session cart. Each handler is modelled as one atomic step.
- The payment provider's session creation (views.py:276-285) is an input, `ProviderReply`. Success and cancel URLs and the `303` code are not modelled.
- The empty-lines branch of `create_checkout_session` (views.py:274-275) is not modelled as a branch. `CheckoutViews.GateNeedsPricedEntry` proves it cannot be taken.
- `increase_quantity` and `decrease_quantity` send `float(item_total)`. The model reports the exact amount in paise.
- Column widths are not modelled: `max_length` on names, labels, URLs and `payment_id`, and the database's rejection of a total beyond 10 digits. `Models.FitsDecimal` states the bound, and the stored order items keep it (their prices come from the product table), but the order total is not checked against it.
- `created_at`, `saved_at` and the order's creation time are not modelled. A new review receives a `now` parameter as its creation time.
- A session value that is not a dict is modelled as making every handler without an `isinstance` guard raise. Some such values (a list, a string) would pass the `in` test of `remove_from_cart` or the `len` of `cart_count` without raising; this difference is not modelled.
- Cart keys are product ids. A session cart holding keys that are not numeric strings, or quantities that are not integers, cannot arise through these handlers and is not modelled. In `payment_success` such a key would make `get_object_or_404` raise and end in the generic error.
- Serializers.AvgRating: it returns the exact mean as a fraction. Python's `round(avg, 1)` on a float is not modelled.
- PythonInt.ParseInt: it accepts only ASCII digits and ASCII whitespace. Python's `int()` also accepts other Unicode decimal digits and Unicode whitespace, and it limits the number of digits it converts.
- ImageDownload.UrlPath: two checks of `urlsplit` are not modelled. One validates the contents of a bracketed IPv6 host; the other checks non-ASCII netlocs under NFKC normalisation. Lower-casing is ASCII-only, which decides the whitelist comparison exactly, since no other character lower-cases to one of its letters.
- ImageDownload.DownloadImage: the CSV loop, the request's timeout and headers, the file contents and the prints are not modelled. The outcome of the fetch and of the file write are inputs.
- CheckoutViews.PaymentSuccess and CheckoutViews.PaymentSuccessAtomic: they require a session cart with positive quantities, which every cart handler keeps, and a product table whose rows satisfy their column constraints. A stored quantity below 0 would make the database refuse the OrderItem; no handler can store one, so that path is not modelled.
- The order status transitions after "processing" are not driven by this code and are not modelled. The statuses and their codes are.

Behaviour of the code worth noting:

- The saved-items endpoint `save_product` is a toggle: a second call undoes the first.
- `payment_success` looks each product up with `get_object_or_404` rather than through `get_cart_items_and_total`, so a deleted product aborts finalisation; the cart view skips such a product.
- `save_product` catches the 404 of an unknown product and answers it as a JSON error with status 500.

## Findings

| source | as written | input that shows it | evidently intended | confidence | as-written member | corrected member |
|---|---|---|---|---|---|---|
| ecommerce/views.py:302-317 | the Order row is created with total 0 before the item loop. A product lookup that fails inside the loop is caught, but the Order and the items created so far stay, so the Order's total no longer equals the sum of its items | cart {"3": 2, "9": 1}, product 3 at 30.00, product 9 deleted after checkout: Order 1 stays at 0.00 with one item worth 60.00, and the cart is kept for a retry that creates Order 2 | the order and its items are written all or nothing, so every order's total is the sum of its items | medium, not executed | CheckoutViews.PaymentSuccess (with CheckoutViews.FailedFinalisationBreaksTotals and CheckoutViews.FailedFinalisationExample) | CheckoutViews.PaymentSuccessAtomic |
