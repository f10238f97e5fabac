/** Values held by the shopping cart: catalogue records, cart lines, and the
    lookups and invariants over an ordered list of cart lines. */
module CartItems {

  /** The answer of a remote lookup: None when the request failed (network
      error, unknown product), Some otherwise. */
  datatype Option<+T> = None | Some(value: T)

  /** A catalogue record as the product endpoint returns it: its id and the
      rest of the record (title, price, image), which the cart never inspects. */
  datatype Product<P> = Product(id: int, details: P)

  /** A cart line: a catalogue record together with the quantity ordered. */
  datatype Item<P> = Item(id: int, amount: int, details: P)

  /** Some line of the cart carries this id. */
  predicate Contains<P>(items: seq<Item<P>>, id: int)
  {
    exists k :: 0 <= k < |items| && items[k].id == id
  }

  /** Position of the first line carrying `id`, or -1 when there is none
      (the array `findIndex` of the source; its `find` is the line at this
      position). */
  function FindIndex<P>(items: seq<Item<P>>, id: int): (r: int)
    ensures -1 <= r < |items|
    ensures r == -1 <==> !Contains(items, id)
    ensures 0 <= r ==> items[r].id == id
    ensures 0 <= r ==> forall k :: 0 <= k < r ==> items[k].id != id
  {
    if |items| == 0 then -1
    else if items[0].id == id then 0
    else
      var r := FindIndex(items[1..], id);
      assert forall k :: 1 <= k < |items| ==> items[k] == items[1..][k - 1];
      if r == -1 then -1 else r + 1
  }

  /** No two lines carry the same id. */
  predicate UniqueIds<P>(items: seq<Item<P>>)
  {
    forall i, j :: 0 <= i < j < |items| ==> items[i].id != items[j].id
  }

  /** Every line orders at least one unit. */
  predicate PositiveAmounts<P>(items: seq<Item<P>>)
  {
    forall k :: 0 <= k < |items| ==> 1 <= items[k].amount
  }

  /** The invariants the cart keeps across operations. */
  predicate Valid<P>(items: seq<Item<P>>)
  {
    UniqueIds(items) && PositiveAmounts(items)
  }

  /** In a cart without duplicate ids, the lookup finds the one line that
      carries the id. */
  lemma FindIndexUnique<P>(items: seq<Item<P>>, id: int, k: int)
    requires UniqueIds(items)
    requires 0 <= k < |items| && items[k].id == id
    ensures FindIndex(items, id) == k
  {
  }

  /** Changing the amount of a line never moves where an id is found: the
      lookup depends on the ids alone. */
  lemma {:induction false} FindIndexIgnoresAmounts<P>(items: seq<Item<P>>, i: int, n: int, id: int)
    requires 0 <= i < |items|
    ensures FindIndex(items[i := items[i].(amount := n)], id) == FindIndex(items, id)
  {
    if |items| > 0 && items[0].id != id && i > 0 {
      var tail := items[1..];
      assert items[i := items[i].(amount := n)][1..] == tail[i - 1 := tail[i - 1].(amount := n)];
      FindIndexIgnoresAmounts(tail, i - 1, n, id);
    }
  }
}
