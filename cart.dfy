/**
 The session cart.  The session stores under "cart" a Python dict from
 `str(product_id)` to an integer quantity; a dict keeps its keys in insertion
 order, assignment to a present key keeps its position, assignment to a new key
 appends it and `del` removes one entry and keeps the order of the others.
 The cart is therefore an ordered sequence of entries with distinct keys; keys
 are kept as the product id itself, since the handlers only ever write
 `str(product_id)` for an integer id.
 */
module Cart {
  import opened Wrappers
  import opened Models

  /** One dict item: key and quantity. */
  datatype Entry = Entry(id: ProductId, quantity: int)

  predicate DistinctKeys(c: seq<Entry>)
  {
    forall i, j :: 0 <= i < j < |c| ==> c[i].id != c[j].id
  }

  /** A cart dict: entries in insertion order, no key twice. */
  type CartDict = c: seq<Entry> | DistinctKeys(c) witness []

  /** `k in cart`. */
  predicate Has(c: seq<Entry>, k: ProductId)
  {
    exists i :: 0 <= i < |c| && c[i].id == k
  }

  /** The position of key `k`, if present. */
  function IndexOf(c: seq<Entry>, k: ProductId): (r: Option<nat>)
    ensures r.Some? ==> r.value < |c| && c[r.value].id == k
    ensures r.None? ==> !Has(c, k)
  {
    if |c| == 0 then None
    else if c[0].id == k then Some(0)
    else match IndexOf(c[1..], k)
      case Some(i) => Some(i + 1)
      case None => None
  }

  /** In a dict the position of a key is unique. */
  lemma IndexOfUnique(c: CartDict, k: ProductId, i: nat)
    requires i < |c| && c[i].id == k
    ensures IndexOf(c, k) == Some(i)
  {
  }

  /** `cart.get(k, 0)`. */
  function Quantity(c: CartDict, k: ProductId): (q: int)
    ensures !Has(c, k) ==> q == 0
    ensures forall i :: 0 <= i < |c| && c[i].id == k ==> q == c[i].quantity
  {
    match IndexOf(c, k)
    case Some(i) => c[i].quantity
    case None => 0
  }

  /** `cart[k] = v`: overwrite in place when present, append otherwise. */
  function Put(c: CartDict, k: ProductId, v: int): (r: CartDict)
    ensures Has(r, k) && Quantity(r, k) == v
    ensures forall k' :: k' != k ==> Has(r, k') == Has(c, k') && Quantity(r, k') == Quantity(c, k')
    ensures Has(c, k) ==> |r| == |c| && forall i :: 0 <= i < |c| ==> r[i].id == c[i].id
    ensures !Has(c, k) ==> r == c + [Entry(k, v)]
  {
    match IndexOf(c, k)
    case Some(i) =>
      var r := c[i := Entry(k, v)];
      assert DistinctKeys(r);
      assert forall k' :: Has(r, k') == Has(c, k') by {
        forall k' ensures Has(r, k') == Has(c, k') {
          if Has(c, k') {
            var j :| 0 <= j < |c| && c[j].id == k';
            assert r[j].id == k';
          }
          if Has(r, k') {
            var j :| 0 <= j < |r| && r[j].id == k';
            assert c[j].id == k';
          }
        }
      }
      r
    case None =>
      var r := c + [Entry(k, v)];
      assert DistinctKeys(r);
      assert r[|c|].id == k;
      assert forall k' :: k' != k ==> Has(r, k') == Has(c, k') by {
        forall k' | k' != k ensures Has(r, k') == Has(c, k') {
          if Has(c, k') {
            var j :| 0 <= j < |c| && c[j].id == k';
            assert r[j].id == k';
          }
        }
      }
      r
  }

  /** `del cart[k]` when present; the dict is unchanged otherwise. */
  function Delete(c: CartDict, k: ProductId): (r: CartDict)
    ensures !Has(r, k)
    ensures forall k' :: k' != k ==> Has(r, k') == Has(c, k') && Quantity(r, k') == Quantity(c, k')
    ensures !Has(c, k) ==> r == c
    ensures forall i :: 0 <= i < |c| && c[i].id == k ==> r == c[..i] + c[i + 1..]
  {
    match IndexOf(c, k)
    case Some(i) =>
      var r := c[..i] + c[i + 1..];
      assert forall j :: 0 <= j < |r| ==> r[j] == if j < i then c[j] else c[j + 1];
      assert DistinctKeys(r);
      assert forall k' :: Has(r, k') <==> Has(c, k') && k' != k by {
        forall k' ensures Has(r, k') <==> Has(c, k') && k' != k {
          if Has(c, k') && k' != k {
            var j :| 0 <= j < |c| && c[j].id == k';
            assert j != i;
            assert r[if j < i then j else j - 1].id == k';
          }
        }
      }
      r
    case None => c
  }

  /** Removing a key twice is removing it once. */
  lemma DeleteIdempotent(c: CartDict, k: ProductId)
    ensures Delete(Delete(c, k), k) == Delete(c, k)
  {
  }

  /** `sum(cart.values())`, accumulated front to back. */
  function SumQuantities(c: seq<Entry>): int
  {
    if |c| == 0 then 0 else SumQuantities(c[..|c| - 1]) + c[|c| - 1].quantity
  }

  lemma {:induction false} SumQuantitiesAppend(a: seq<Entry>, b: seq<Entry>)
    ensures SumQuantities(a + b) == SumQuantities(a) + SumQuantities(b)
    decreases |b|
  {
    if |b| == 0 {
      assert a + b == a;
    } else {
      assert (a + b)[..|a + b| - 1] == a + b[..|b| - 1];
      SumQuantitiesAppend(a, b[..|b| - 1]);
    }
  }

  lemma SumQuantitiesSplit(c: seq<Entry>, i: nat)
    requires i < |c|
    ensures SumQuantities(c) == SumQuantities(c[..i]) + c[i].quantity + SumQuantities(c[i + 1..])
  {
    assert c == c[..i] + [c[i]] + c[i + 1..];
    SumQuantitiesAppend(c[..i] + [c[i]], c[i + 1..]);
    SumQuantitiesAppend(c[..i], [c[i]]);
    assert [c[i]][..0] == [];
  }

  /** Setting a key changes the sum of quantities by the difference of its old and new value. */
  lemma SumQuantitiesPut(c: CartDict, k: ProductId, v: int)
    ensures SumQuantities(Put(c, k, v)) == SumQuantities(c) - Quantity(c, k) + v
  {
    match IndexOf(c, k)
    case Some(i) =>
      var r := Put(c, k, v);
      SumQuantitiesSplit(c, i);
      SumQuantitiesSplit(r, i);
      assert r[..i] == c[..i] && r[i + 1..] == c[i + 1..];
    case None =>
      SumQuantitiesAppend(c, [Entry(k, v)]);
      assert [Entry(k, v)][..0] == [];
  }

  /** Deleting a key removes its quantity from the sum. */
  lemma SumQuantitiesDelete(c: CartDict, k: ProductId)
    ensures SumQuantities(Delete(c, k)) == SumQuantities(c) - Quantity(c, k)
  {
    match IndexOf(c, k)
    case Some(i) =>
      SumQuantitiesSplit(c, i);
      SumQuantitiesAppend(c[..i], c[i + 1..]);
    case None =>
  }

  /** The cart's own invariant: every stored quantity is at least 1 (an entry is removed at 0). */
  predicate QuantitiesPositive(c: seq<Entry>)
  {
    forall i :: 0 <= i < |c| ==> c[i].quantity >= 1
  }

  /** With positive quantities, the number of entries never exceeds the number of units, and equals it exactly when every quantity is 1. */
  lemma {:induction false} EntriesAtMostUnits(c: seq<Entry>)
    requires QuantitiesPositive(c)
    ensures |c| <= SumQuantities(c)
    ensures |c| == SumQuantities(c) <==> forall i :: 0 <= i < |c| ==> c[i].quantity == 1
  {
    if |c| > 0 {
      var p := c[..|c| - 1];
      EntriesAtMostUnits(p);
      if |c| == SumQuantities(c) {
        forall i | 0 <= i < |c| ensures c[i].quantity == 1 {
          if i < |c| - 1 {
            assert p[i] == c[i];
          }
        }
      }
    }
  }

  /** What the session holds under "cart": nothing yet, a dict, or some other value. */
  datatype Stored = Missing | Dict(entries: CartDict) | NotADict(truthy: bool)

  /** `request.session.get("cart", {})` for a stored dict or nothing. */
  function Read(s: Stored): CartDict
  {
    if s.Dict? then s.entries else []
  }

  /** The session store of one visitor. */
  class Session {
    var cart: Stored

    /** The cart invariant the handlers keep: a stored dict has positive quantities. */
    ghost predicate Valid()
      reads this
    {
      cart.Dict? ==> QuantitiesPositive(cart.entries)
    }

    constructor (stored: Stored)
      ensures cart == stored
    {
      cart := stored;
    }
  }
}
