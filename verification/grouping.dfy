/** The `reduce` into an object keyed by a derived key that both analytics
    views perform: `salesByMonth` keyed by month and year
    (SalesAnalytics.js:38-68) and `priceDistribution` keyed by rounded price
    (PriceAnalytics.js:29-41). The object is a sequence of groups in key
    insertion order; an order whose key is `None` is skipped. */
module Grouping {
  import opened Common
  import opened Orders

  /** One entry of the accumulator object. `first` is the order that
      created the entry; the month view takes its timestamp from it. */
  datatype Group<K> = Group(key: K, revenue: int, units: int, orders: int, first: Order)

  function GroupRevenue<K>(g: Group<K>): int {
    g.revenue
  }

  function GroupUnits<K>(g: Group<K>): int {
    g.units
  }

  function GroupOrders<K>(g: Group<K>): int {
    g.orders
  }

  /** `acc[key]`: the position of the entry for `k`, if there is one. */
  function IndexOfKey<K(==)>(gs: seq<Group<K>>, k: K): (r: Option<nat>)
    ensures r.Some? ==> r.value < |gs| && gs[r.value].key == k
    ensures r.None? ==> forall i :: 0 <= i < |gs| ==> gs[i].key != k
    decreases |gs|
  {
    if |gs| == 0 then None
    else if gs[0].key == k then Some(0)
    else match IndexOfKey(gs[1..], k)
      case None => None
      case Some(i) => Some(i + 1)
  }

  /** One step of the fold: create the entry on first sight of its key,
      then add the order's revenue, quantity and one order to it. */
  function AddOrder<K(==)>(gs: seq<Group<K>>, k: K, o: Order): seq<Group<K>> {
    match IndexOfKey(gs, k)
    case Some(i) =>
      gs[i := gs[i].(revenue := gs[i].revenue + LineRevenue(o),
                     units := gs[i].units + o.quantity,
                     orders := gs[i].orders + 1)]
    case None => gs + [Group(k, LineRevenue(o), o.quantity, 1, o)]
  }

  function GroupBy<K(==)>(os: seq<Order>, keyOf: Order -> Option<K>): seq<Group<K>>
    decreases |os|
  {
    if |os| == 0 then []
    else
      var gs := GroupBy(os[..|os| - 1], keyOf);
      var o := os[|os| - 1];
      match keyOf(o)
      case None => gs
      case Some(k) => AddOrder(gs, k, o)
  }

  // `Members`, `Keyed` and `Unkeyed` are filters written out rather than
  // `Common.Filter`: they recurse from the back, as `GroupBy`'s fold does,
  // so each fold step lines up with one step of them.

  /** The orders whose key is `k`, in order: what the entry for `k` sums. */
  function Members<K(==)>(os: seq<Order>, keyOf: Order -> Option<K>, k: K): seq<Order>
    decreases |os|
  {
    if |os| == 0 then []
    else
      var o := os[|os| - 1];
      Members(os[..|os| - 1], keyOf, k) + (if keyOf(o) == Some(k) then [o] else [])
  }

  /** The orders that have a key at all. */
  function Keyed<K(==)>(os: seq<Order>, keyOf: Order -> Option<K>): seq<Order>
    decreases |os|
  {
    if |os| == 0 then []
    else
      var o := os[|os| - 1];
      Keyed(os[..|os| - 1], keyOf) + (if keyOf(o).Some? then [o] else [])
  }

  /** The orders the fold skips. */
  function Unkeyed<K(==)>(os: seq<Order>, keyOf: Order -> Option<K>): seq<Order>
    decreases |os|
  {
    if |os| == 0 then []
    else
      var o := os[|os| - 1];
      Unkeyed(os[..|os| - 1], keyOf) + (if keyOf(o).None? then [o] else [])
  }

  predicate KeysUnique<K(==)>(gs: seq<Group<K>>) {
    forall i, j :: 0 <= i < j < |gs| ==> gs[i].key != gs[j].key
  }

  /** Every entry was created by an order of `os` carrying its key. */
  ghost predicate CreatedBy<K(!new)>(gs: seq<Group<K>>, os: seq<Order>, keyOf: Order -> Option<K>) {
    forall i :: 0 <= i < |gs| ==> keyOf(gs[i].first) == Some(gs[i].key) && gs[i].first in os
  }

  /** The entry sums exactly the orders of `os` with its key. */
  ghost predicate EntrySums<K(!new)>(g: Group<K>, os: seq<Order>, keyOf: Order -> Option<K>) {
    && g.revenue == TotalRevenue(Members(os, keyOf, g.key))
    && g.units == TotalUnits(Members(os, keyOf, g.key))
    && g.orders == |Members(os, keyOf, g.key)|
  }

  ghost predicate AllSums<K(!new)>(gs: seq<Group<K>>, os: seq<Order>, keyOf: Order -> Option<K>) {
    forall i :: 0 <= i < |gs| ==> EntrySums(gs[i], os, keyOf)
  }

  /** A key has an entry exactly when some order of `os` carries it. */
  ghost predicate KeysPresent<K(!new)>(gs: seq<Group<K>>, os: seq<Order>, keyOf: Order -> Option<K>) {
    forall k :: IndexOfKey(gs, k).Some? <==> |Members(os, keyOf, k)| > 0
  }

  /** What the accumulator means after folding `os`: one entry per key that
      occurs, each summing exactly the orders with its key, and created by
      one of them. */
  ghost predicate Faithful<K(!new)>(gs: seq<Group<K>>, os: seq<Order>, keyOf: Order -> Option<K>) {
    && KeysUnique(gs)
    && CreatedBy(gs, os, keyOf)
    && AllSums(gs, os, keyOf)
    && KeysPresent(gs, os, keyOf)
  }

  lemma AppendSums(ms: seq<Order>, o: Order)
    ensures TotalRevenue(ms + [o]) == TotalRevenue(ms) + LineRevenue(o)
    ensures TotalUnits(ms + [o]) == TotalUnits(ms) + o.quantity
  {
    assert (ms + [o])[..|ms|] == ms;
  }

  /** Appending an order keyed `k` appends it to the members of `k` and
      leaves every other key's members alone. */
  lemma MembersAppend<K(!new)>(os: seq<Order>, keyOf: Order -> Option<K>, o: Order, k: K)
    requires keyOf(o) == Some(k)
    ensures Members(os + [o], keyOf, k) == Members(os, keyOf, k) + [o]
    ensures forall k' :: k' != k ==> Members(os + [o], keyOf, k') == Members(os, keyOf, k')
  {
    var os' := os + [o];
    assert os'[..|os'| - 1] == os;
    forall k' | k' != k
      ensures Members(os', keyOf, k') == Members(os, keyOf, k')
    {
      assert Members(os', keyOf, k') == Members(os, keyOf, k') + [];
    }
  }

  /** Replacing an entry by one with the same key finds the same keys. */
  lemma IndexAfterUpdate<K(!new)>(gs: seq<Group<K>>, i: nat, g: Group<K>)
    requires i < |gs| && g.key == gs[i].key
    ensures forall k' :: IndexOfKey(gs[i := g], k').Some? <==> IndexOfKey(gs, k').Some?
  {
    forall k'
      ensures IndexOfKey(gs[i := g], k').Some? <==> IndexOfKey(gs, k').Some?
    {
      if IndexOfKey(gs, k').Some? {
        var j := IndexOfKey(gs, k').value;
        assert gs[i := g][j].key == k';
      }
      if IndexOfKey(gs[i := g], k').Some? {
        var j := IndexOfKey(gs[i := g], k').value;
        assert gs[j].key == k';
      }
    }
  }

  /** Appending an entry finds the old keys and the new one. */
  lemma IndexAfterAppend<K(!new)>(gs: seq<Group<K>>, g: Group<K>)
    ensures forall k' :: IndexOfKey(gs + [g], k').Some? <==> (IndexOfKey(gs, k').Some? || k' == g.key)
  {
    forall k'
      ensures IndexOfKey(gs + [g], k').Some? <==> (IndexOfKey(gs, k').Some? || k' == g.key)
    {
      if IndexOfKey(gs, k').Some? {
        var j := IndexOfKey(gs, k').value;
        assert (gs + [g])[j].key == k';
      }
      if k' == g.key {
        assert (gs + [g])[|gs|].key == k';
      }
      if IndexOfKey(gs + [g], k').Some? && k' != g.key {
        var j := IndexOfKey(gs + [g], k').value;
        assert gs[j].key == k';
      }
    }
  }

  /** The step that adds to an existing entry keeps the accumulator faithful. */
  lemma AddOrderFaithfulHit<K(!new)>(gs: seq<Group<K>>, os: seq<Order>, keyOf: Order -> Option<K>, o: Order, k: K)
    requires Faithful(gs, os, keyOf)
    requires keyOf(o) == Some(k) && IndexOfKey(gs, k).Some?
    ensures Faithful(AddOrder(gs, k, o), os + [o], keyOf)
  {
    var i := IndexOfKey(gs, k).value;
    var g := AddOrder(gs, k, o)[i];
    var gs' := gs[i := g];
    assert AddOrder(gs, k, o) == gs';
    MembersAppend(os, keyOf, o, k);
    assert KeysUnique(gs') by {
      forall a, b | 0 <= a < b < |gs'|
        ensures gs'[a].key != gs'[b].key
      {
        assert gs[a].key != gs[b].key;
      }
    }
    assert CreatedBy(gs', os + [o], keyOf);
    assert AllSums(gs', os + [o], keyOf) by {
      forall j | 0 <= j < |gs'|
        ensures EntrySums(gs'[j], os + [o], keyOf)
      {
        if j == i {
          AppendSums(Members(os, keyOf, k), o);
        } else {
          assert gs[j].key != k;
        }
      }
    }
    IndexAfterUpdate(gs, i, g);
  }

  /** The step that creates an entry keeps the accumulator faithful. */
  lemma AddOrderFaithfulNew<K(!new)>(gs: seq<Group<K>>, os: seq<Order>, keyOf: Order -> Option<K>, o: Order, k: K)
    requires Faithful(gs, os, keyOf)
    requires keyOf(o) == Some(k) && IndexOfKey(gs, k).None?
    ensures Faithful(AddOrder(gs, k, o), os + [o], keyOf)
  {
    var g := Group(k, LineRevenue(o), o.quantity, 1, o);
    assert AddOrder(gs, k, o) == gs + [g];
    MembersAppend(os, keyOf, o, k);
    assert |Members(os, keyOf, k)| == 0;
    assert KeysUnique(gs + [g]);
    assert CreatedBy(gs + [g], os + [o], keyOf);
    assert AllSums(gs + [g], os + [o], keyOf) by {
      forall j | 0 <= j < |gs| + 1
        ensures EntrySums((gs + [g])[j], os + [o], keyOf)
      {
        if j == |gs| {
          assert Members(os, keyOf, k) == [];
          AppendSums([], o);
        } else {
          assert gs[j].key != k;
        }
      }
    }
    IndexAfterAppend(gs, g);
  }

  /** One fold step keeps the accumulator faithful. */
  lemma AddOrderFaithful<K(!new)>(gs: seq<Group<K>>, os: seq<Order>, keyOf: Order -> Option<K>, o: Order, k: K)
    requires Faithful(gs, os, keyOf)
    requires keyOf(o) == Some(k)
    ensures Faithful(AddOrder(gs, k, o), os + [o], keyOf)
  {
    if IndexOfKey(gs, k).Some? {
      AddOrderFaithfulHit(gs, os, keyOf, o, k);
    } else {
      AddOrderFaithfulNew(gs, os, keyOf, o, k);
    }
  }

  lemma {:induction false} SkipFaithful<K(!new)>(gs: seq<Group<K>>, os: seq<Order>,
                                                 keyOf: Order -> Option<K>, o: Order)
    requires Faithful(gs, os, keyOf)
    requires keyOf(o).None?
    ensures Faithful(gs, os + [o], keyOf)
  {
    var os' := os + [o];
    assert os'[..|os'| - 1] == os;
    forall k
      ensures Members(os', keyOf, k) == Members(os, keyOf, k)
    {
    }
  }

  /** The fold builds a faithful accumulator. */
  lemma {:induction false} GroupByFaithful<K(!new)>(os: seq<Order>, keyOf: Order -> Option<K>)
    ensures Faithful(GroupBy(os, keyOf), os, keyOf)
    decreases |os|
  {
    if |os| > 0 {
      var n := |os| - 1;
      assert os == os[..n] + [os[n]];
      GroupByFaithful(os[..n], keyOf);
      match keyOf(os[n])
      case None => SkipFaithful(GroupBy(os[..n], keyOf), os[..n], keyOf, os[n]);
      case Some(k) => AddOrderFaithful(GroupBy(os[..n], keyOf), os[..n], keyOf, os[n], k);
    }
  }

  /** An entry's orders are exactly the orders carrying its key, with
      their multiplicities: each order feeds the entry for its own key and
      no other. */
  lemma {:induction false} MembersExact<K(!new)>(os: seq<Order>, keyOf: Order -> Option<K>, k: K)
    ensures forall o :: multiset(Members(os, keyOf, k))[o] == if keyOf(o) == Some(k) then multiset(os)[o] else 0
    decreases |os|
  {
    if |os| > 0 {
      var n := |os| - 1;
      assert os == os[..n] + [os[n]];
      MembersExact(os[..n], keyOf, k);
    }
  }

  /** One fold step adds the order's revenue, quantity and one order to
      the accumulator's totals, whether it creates an entry or not. */
  lemma AddOrderSums<K(!new)>(gs: seq<Group<K>>, k: K, o: Order)
    ensures SumOf(AddOrder(gs, k, o), GroupRevenue) == SumOf(gs, GroupRevenue) + LineRevenue(o)
    ensures SumOf(AddOrder(gs, k, o), GroupUnits) == SumOf(gs, GroupUnits) + o.quantity
    ensures SumOf(AddOrder(gs, k, o), GroupOrders) == SumOf(gs, GroupOrders) + 1
  {
    match IndexOfKey(gs, k)
    case Some(i) =>
      var g := gs[i].(revenue := gs[i].revenue + LineRevenue(o),
                      units := gs[i].units + o.quantity,
                      orders := gs[i].orders + 1);
      SumOfUpdate(gs, i, g, GroupRevenue);
      SumOfUpdate(gs, i, g, GroupUnits);
      SumOfUpdate(gs, i, g, GroupOrders);
    case None =>
      var g := Group(k, LineRevenue(o), o.quantity, 1, o);
      assert (gs + [g])[..|gs|] == gs;
  }

  /** The last fold step, unfolded: a keyed order goes into the
      accumulator and onto the keyed orders, a skipped one into neither. */
  lemma LastStep<K(!new)>(os: seq<Order>, keyOf: Order -> Option<K>)
    requires |os| > 0
    ensures keyOf(os[|os| - 1]).None? ==>
              GroupBy(os, keyOf) == GroupBy(os[..|os| - 1], keyOf) &&
              Keyed(os, keyOf) == Keyed(os[..|os| - 1], keyOf)
    ensures keyOf(os[|os| - 1]).Some? ==>
              GroupBy(os, keyOf) ==
                AddOrder(GroupBy(os[..|os| - 1], keyOf), keyOf(os[|os| - 1]).value, os[|os| - 1]) &&
              Keyed(os, keyOf) == Keyed(os[..|os| - 1], keyOf) + [os[|os| - 1]]
  {
    var ks := Keyed(os[..|os| - 1], keyOf);
    assert ks + [] == ks;
  }

  /** Adding up the entries' revenue gives back the keyed orders' revenue. */
  lemma {:induction false} GroupByConservesRevenue<K(!new)>(os: seq<Order>, keyOf: Order -> Option<K>)
    ensures SumOf(GroupBy(os, keyOf), GroupRevenue) == TotalRevenue(Keyed(os, keyOf))
    decreases |os|
  {
    if |os| > 0 {
      var n := |os| - 1;
      var o := os[n];
      GroupByConservesRevenue(os[..n], keyOf);
      LastStep(os, keyOf);
      if keyOf(o).Some? {
        AppendSums(Keyed(os[..n], keyOf), o);
        AddOrderSums(GroupBy(os[..n], keyOf), keyOf(o).value, o);
      }
    }
  }

  /** Adding up the entries' units gives back the keyed orders' units. */
  lemma {:induction false} GroupByConservesUnits<K(!new)>(os: seq<Order>, keyOf: Order -> Option<K>)
    ensures SumOf(GroupBy(os, keyOf), GroupUnits) == TotalUnits(Keyed(os, keyOf))
    decreases |os|
  {
    if |os| > 0 {
      var n := |os| - 1;
      var o := os[n];
      GroupByConservesUnits(os[..n], keyOf);
      LastStep(os, keyOf);
      if keyOf(o).Some? {
        AppendSums(Keyed(os[..n], keyOf), o);
        AddOrderSums(GroupBy(os[..n], keyOf), keyOf(o).value, o);
      }
    }
  }

  /** Adding up the entries' order counts gives the number of keyed orders. */
  lemma {:induction false} GroupByConservesOrders<K(!new)>(os: seq<Order>, keyOf: Order -> Option<K>)
    ensures SumOf(GroupBy(os, keyOf), GroupOrders) == |Keyed(os, keyOf)|
    decreases |os|
  {
    if |os| > 0 {
      var n := |os| - 1;
      var o := os[n];
      GroupByConservesOrders(os[..n], keyOf);
      LastStep(os, keyOf);
      if keyOf(o).Some? {
        AddOrderSums(GroupBy(os[..n], keyOf), keyOf(o).value, o);
      }
    }
  }

  /** Adding up the entries gives back the sums over the keyed orders:
      nothing is lost or counted twice. */
  lemma GroupByConserves<K(!new)>(os: seq<Order>, keyOf: Order -> Option<K>)
    ensures SumOf(GroupBy(os, keyOf), GroupRevenue) == TotalRevenue(Keyed(os, keyOf))
    ensures SumOf(GroupBy(os, keyOf), GroupUnits) == TotalUnits(Keyed(os, keyOf))
    ensures SumOf(GroupBy(os, keyOf), GroupOrders) == |Keyed(os, keyOf)|
  {
    GroupByConservesRevenue(os, keyOf);
    GroupByConservesUnits(os, keyOf);
    GroupByConservesOrders(os, keyOf);
  }

  /** Every order is either keyed or skipped, so the top-line sums split
      into the two. */
  lemma {:induction false} KeyedSplit<K(!new)>(os: seq<Order>, keyOf: Order -> Option<K>)
    ensures TotalRevenue(os) == TotalRevenue(Keyed(os, keyOf)) + TotalRevenue(Unkeyed(os, keyOf))
    ensures TotalUnits(os) == TotalUnits(Keyed(os, keyOf)) + TotalUnits(Unkeyed(os, keyOf))
    ensures |os| == |Keyed(os, keyOf)| + |Unkeyed(os, keyOf)|
    decreases |os|
  {
    if |os| > 0 {
      var n := |os| - 1;
      var o := os[n];
      KeyedSplit(os[..n], keyOf);
      var ks, us := Keyed(os[..n], keyOf), Unkeyed(os[..n], keyOf);
      if keyOf(o).Some? {
        AppendSums(ks, o);
        assert Unkeyed(os, keyOf) == us;
      } else {
        AppendSums(us, o);
        assert Keyed(os, keyOf) == ks;
      }
    }
  }
}
