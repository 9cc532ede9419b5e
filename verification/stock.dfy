/** The best-effort stock reduction run after an order is paid: one step per line
    item, each guarded by a stock check, with failures of the product lookup or the
    save confined to their own item. */
module Stock {
  import opened OrderModel
  import opened ProductModel

  /** Two product maps that differ at most in `stock` values. */
  predicate SameButStock(a: Products, b: Products) {
    && a.Keys == b.Keys
    && forall id :: id in a ==> a[id].(stock := 0) == b[id].(stock := 0)
  }

  /** Every stored stock level is non-negative. */
  predicate StockNonNegative(ps: Products) {
    forall id :: id in ps ==> ps[id].stock >= 0
  }

  /** One line item: a product that exists and has at least `quantity` in stock
      loses `quantity`; otherwise nothing changes. */
  function ReduceOne(ps: Products, item: OrderItem): Products {
    var id := item.productId;
    if id in ps && ps[id].stock >= item.quantity then
      ps[id := ps[id].(stock := ps[id].stock - item.quantity)]
    else ps
  }

  /** The step changes at most the stock of the product the item names, and
      only when there is enough of it. */
  lemma ReduceOneFacts(ps: Products, item: OrderItem)
    ensures var r := ReduceOne(ps, item);
      && SameButStock(ps, r)
      && (forall id :: id in ps && id != item.productId ==> r[id] == ps[id])
      && (item.productId in ps && ps[item.productId].stock >= item.quantity ==>
            r[item.productId].stock == ps[item.productId].stock - item.quantity)
      && (!(item.productId in ps && ps[item.productId].stock >= item.quantity) ==> r == ps)
      && (forall id :: id in ps ==> r[id].stock == ps[id].stock || r[id].stock >= 0)
  {
  }

  /** The loop over all items. `faults` holds the positions whose lookup or save
      threw; such an item leaves the store as it was and the loop goes on. */
  function ReduceStock(ps: Products, items: seq<OrderItem>, faults: set<nat>): (r: Products)
    ensures SameButStock(ps, r)
    ensures forall id :: id in ps ==> r[id].stock == ps[id].stock || r[id].stock >= 0
    ensures forall id :: id in ps && !Names(items, faults, id) ==> r[id] == ps[id]
  {
    var r := Apply(ps, items, faults);
    assert Reduced(ps, items, faults, r) by { ApplyFacts(ps, items, faults); }
    r
  }

  /** The item steps in order, last item outermost. */
  function Apply(ps: Products, items: seq<OrderItem>, faults: set<nat>): Products
    decreases |items|
  {
    if items == [] then ps
    else
      var prev := Apply(ps, items[..|items| - 1], faults);
      if |items| - 1 in faults then prev else ReduceOne(prev, items[|items| - 1])
  }

  /** What the loop guarantees about its result `r`. */
  predicate Reduced(ps: Products, items: seq<OrderItem>, faults: set<nat>, r: Products) {
    && SameButStock(ps, r)
    && (forall id :: id in ps ==> r[id].stock == ps[id].stock || r[id].stock >= 0)
    && (forall id :: id in ps && !Names(items, faults, id) ==> r[id] == ps[id])
  }

  lemma {:induction false} ApplyFacts(ps: Products, items: seq<OrderItem>, faults: set<nat>)
    ensures Reduced(ps, items, faults, Apply(ps, items, faults))
    decreases |items|
  {
    if items != [] {
      var last := |items| - 1;
      ApplyFacts(ps, items[..last], faults);
      ReduceOneFacts(Apply(ps, items[..last], faults), items[last]);
      assert forall id :: Names(items[..last], faults, id) ==> Names(items, faults, id);
    }
  }

  /** Some item outside `faults` refers to product `id`. */
  predicate Names(items: seq<OrderItem>, faults: set<nat>, id: string) {
    exists i :: 0 <= i < |items| && i !in faults && items[i].productId == id
  }

  /** Stock that was non-negative everywhere stays non-negative everywhere. */
  lemma ReducePreservesNonNegative(ps: Products, items: seq<OrderItem>, faults: set<nat>)
    requires StockNonNegative(ps)
    ensures StockNonNegative(ReduceStock(ps, items, faults))
  {
    var r := ReduceStock(ps, items, faults);
    forall id | id in r
      ensures r[id].stock >= 0
    {
      assert id in ps;
    }
  }

  /** The item positions of `b` counted from the start of `a + b`. */
  function Shift(faults: set<nat>, k: nat): (s: set<nat>)
    ensures forall i: nat :: i in s <==> i + k in faults
  {
    set j | j in faults && j >= k :: (j - k) as nat
  }

  /** Processing `a + b` is processing `a`, then `b` on the result: an earlier
      item's failure or shortage never stops a later item. */
  lemma ReduceConcat(ps: Products, a: seq<OrderItem>, b: seq<OrderItem>, faults: set<nat>)
    ensures ReduceStock(ps, a + b, faults) == ReduceStock(ReduceStock(ps, a, faults), b, Shift(faults, |a|))
  {
    ApplyConcat(ps, a, b, faults);
  }

  lemma {:induction false} ApplyConcat(ps: Products, a: seq<OrderItem>, b: seq<OrderItem>, faults: set<nat>)
    ensures Apply(ps, a + b, faults) == Apply(Apply(ps, a, faults), b, Shift(faults, |a|))
    decreases |b|
  {
    if b == [] {
      assert a + b == a;
    } else {
      var last := |b| - 1;
      var ab := a + b;
      var mid := Apply(ps, a, faults);
      var sh := Shift(faults, |a|);
      assert ab[..|ab| - 1] == a + b[..last];
      assert ab[|ab| - 1] == b[last];
      ApplyConcat(ps, a, b[..last], faults);
      var prev := Apply(ps, ab[..|ab| - 1], faults);
      assert prev == Apply(mid, b[..last], sh);
      assert (|ab| - 1 in faults) == (last in sh);
    }
  }

  /** A failed item is the same as an item that is not there. */
  lemma FaultIsSkip(ps: Products, a: seq<OrderItem>, x: OrderItem, b: seq<OrderItem>, faults: set<nat>)
    requires |a| in faults
    ensures ReduceStock(ps, a + [x] + b, faults)
            == ReduceStock(ReduceStock(ps, a, faults), b, Shift(faults, |a| + 1))
  {
    ReduceConcat(ps, a + [x], b, faults);
    assert (a + [x])[..|a|] == a;
  }

  /** With no negative quantities, no stock level ever goes up. */
  lemma {:induction false} NeverIncreases(ps: Products, items: seq<OrderItem>, faults: set<nat>)
    requires forall i :: 0 <= i < |items| ==> items[i].quantity >= 0
    ensures forall id :: id in ps ==> ReduceStock(ps, items, faults)[id].stock <= ps[id].stock
    decreases |items|
  {
    if items != [] {
      NeverIncreases(ps, items[..|items| - 1], faults);
      ReduceOneFacts(Apply(ps, items[..|items| - 1], faults), items[|items| - 1]);
    }
  }

  /** The steps up to item `k` are those before it followed by item `k`'s own. */
  lemma ApplyStep(ps: Products, items: seq<OrderItem>, k: nat, faults: set<nat>)
    requires k < |items|
    ensures Apply(ps, items[..k + 1], faults)
            == if k in faults then Apply(ps, items[..k], faults)
               else ReduceOne(Apply(ps, items[..k], faults), items[k])
  {
    assert items[..k + 1][..k] == items[..k];
  }

  /** The controller's `for` loop with its `try`/`catch` per item. */
  method ReduceStockLoop(ps: Products, items: seq<OrderItem>, faults: set<nat>) returns (r: Products)
    ensures r == ReduceStock(ps, items, faults)
  {
    r := ps;
    var k := 0;
    while k < |items|
      invariant 0 <= k <= |items|
      invariant r == Apply(ps, items[..k], faults)
    {
      ApplyStep(ps, items, k, faults);
      if k !in faults {
        var id := items[k].productId;
        if id in r && r[id].stock >= items[k].quantity {
          r := r[id := r[id].(stock := r[id].stock - items[k].quantity)];
        }
      }
      k := k + 1;
    }
    assert items[..k] == items;
  }
}
