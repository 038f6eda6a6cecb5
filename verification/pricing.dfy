/**
 * Order lines as the order form builds them and the order endpoint receives
 * them, and the arithmetic both sides apply to them. Amounts are integer
 * cents.
 */
module Pricing {
  import opened Wrappers

  /** One requested line: a product snapshot (name and unit price) and a quantity. */
  datatype ItemRequest = ItemRequest(
    productId: int,
    productName: string,
    quantity: int,
    unitPrice: int,
    notes: Option<string>)

  /** What the order endpoint accepts for a line: at least one unit, a price of at least 0. */
  predicate LineAccepted(it: ItemRequest) {
    it.quantity >= 1 && it.unitPrice >= 0
  }

  predicate AllAccepted(items: seq<ItemRequest>) {
    forall i :: 0 <= i < |items| ==> LineAccepted(items[i])
  }

  /** `quantity * unitPrice`. */
  function LineTotal(it: ItemRequest): (r: int)
    ensures LineAccepted(it) ==> r >= 0
    ensures LineAccepted(it) ==> r >= it.unitPrice
  {
    it.quantity * it.unitPrice
  }

  /**
   * `items.reduce((sum, item) => sum + item.quantity * item.unitPrice, 0)`:
   * a fold from the left, so the last line is added last. The sum of accepted
   * lines is never negative.
   */
  function Subtotal(items: seq<ItemRequest>): (r: int)
    ensures items == [] ==> r == 0
    ensures AllAccepted(items) ==> r >= 0
  {
    if items == [] then 0
    else
      var init := items[..|items| - 1];
      assert AllAccepted(items) ==> AllAccepted(init);
      Subtotal(init) + LineTotal(items[|items| - 1])
  }

  /** The subtotal of accepted lines is at least every single line total. */
  lemma {:induction false} SubtotalCoversLines(items: seq<ItemRequest>, k: int)
    requires AllAccepted(items) && 0 <= k < |items|
    ensures Subtotal(items) >= LineTotal(items[k])
  {
    var init := items[..|items| - 1];
    assert AllAccepted(init);
    if k < |items| - 1 {
      SubtotalCoversLines(init, k);
      assert init[k] == items[k];
    }
  }

  /** The same sum taken from the front: the fold's order does not matter. */
  function SumFromFront(items: seq<ItemRequest>): int {
    if items == [] then 0 else LineTotal(items[0]) + SumFromFront(items[1..])
  }

  lemma {:induction false} SubtotalConcat(a: seq<ItemRequest>, b: seq<ItemRequest>)
    ensures Subtotal(a + b) == Subtotal(a) + Subtotal(b)
    decreases |b|
  {
    if b == [] {
      assert a + b == a;
    } else {
      var init := b[..|b| - 1];
      assert (a + b)[..|a + b| - 1] == a + init;
      SubtotalConcat(a, init);
    }
  }

  lemma {:induction false} SubtotalIsSumFromFront(items: seq<ItemRequest>)
    ensures Subtotal(items) == SumFromFront(items)
  {
    if items != [] {
      SubtotalIsSumFromFront(items[1..]);
      SubtotalConcat([items[0]], items[1..]);
      assert [items[0]] + items[1..] == items;
      assert Subtotal([items[0]]) == LineTotal(items[0]) by {
        assert [items[0]][..0] == [];
      }
    }
  }

  /** Adding a line at the end adds exactly its line total. */
  lemma SubtotalAppend(items: seq<ItemRequest>, it: ItemRequest)
    ensures Subtotal(items + [it]) == Subtotal(items) + LineTotal(it)
  {
    assert (items + [it])[..|items|] == items;
  }

  /** Removing the line at index `k` subtracts exactly its line total. */
  lemma SubtotalRemove(items: seq<ItemRequest>, k: int)
    requires 0 <= k < |items|
    ensures Subtotal(items[..k] + items[k + 1..]) == Subtotal(items) - LineTotal(items[k])
  {
    var front, back := items[..k], items[k + 1..];
    assert items[..k + 1] == front + [items[k]];
    assert items == items[..k + 1] + back;
    SubtotalConcat(front + [items[k]], back);
    SubtotalAppend(front, items[k]);
    SubtotalConcat(front, back);
  }
}
