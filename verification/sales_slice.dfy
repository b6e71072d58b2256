/** The `sales` slice (src/store/slices/salesSlice.js): shop data fetched
    for the signed-in shop, the product/variant selection, and the two
    selectors the analytics views read. The network request behind
    `fetchShopData` is not modelled; its three outcomes are actions. */
module SalesSlice {
  import opened Common
  import opened Orders

  datatype SalesState = SalesState(
    products: seq<Product>,
    variants: seq<Variant>,
    orders: seq<Order>,
    selectedProduct: Option<Product>,
    selectedVariant: Option<Variant>,
    status: FetchStatus,
    error: Option<string>)

  const Initial := SalesState([], [], [], None, None, Idle, None)

  /** The body of a successful shop-data response; each array may be absent. */
  datatype ShopData = ShopData(
    products: Option<seq<Product>>,
    variants: Option<seq<Variant>>,
    orders: Option<seq<Order>>)

  /** `x || []` */
  function OrEmpty<T>(x: Option<seq<T>>): seq<T> {
    if x.Some? then x.value else []
  }

  /** The sales reducer's actions; `stamp` is today's `YYYY-MM-DD`, read
      from the clock when the fulfilled case runs. */
  datatype SalesAction =
    | SelectProductAction(product: Option<Product>)
    | SelectVariantAction(variant: Option<Variant>)
    | ClearSelectionAction
    | FetchPending
    | FetchFulfilled(data: ShopData, stamp: string)
    | FetchRejected(message: Option<string>)

  function SelectProduct(s: SalesState, p: Option<Product>): (r: SalesState)
    ensures r.selectedProduct == p && r.selectedVariant.None?
    ensures r.products == s.products && r.variants == s.variants && r.orders == s.orders
    ensures r.status == s.status && r.error == s.error
  {
    s.(selectedProduct := p, selectedVariant := None)
  }

  function SelectVariant(s: SalesState, v: Option<Variant>): (r: SalesState)
    ensures r.selectedVariant == v
    ensures r == s.(selectedVariant := r.selectedVariant)
  {
    s.(selectedVariant := v)
  }

  function ClearSelection(s: SalesState): (r: SalesState)
    ensures r.selectedProduct.None? && r.selectedVariant.None?
    ensures r == s.(selectedProduct := r.selectedProduct, selectedVariant := r.selectedVariant)
  {
    s.(selectedProduct := None, selectedVariant := None)
  }

  function Pending(s: SalesState): (r: SalesState)
    ensures r.status == Loading && r.error.None?
    ensures r == s.(status := r.status, error := r.error)
  {
    s.(status := Loading, error := None)
  }

  /** The date field is a non-empty string (truthy and of type string). */
  predicate HasTextDate(o: Order) {
    o.date.Some? && o.date.value != ""
  }

  /** An order whose date is not a non-empty string gets `stamp` instead. */
  function StampDate(o: Order, stamp: string): Order {
    if HasTextDate(o) then o else o.(date := Some(stamp))
  }

  function StampDates(os: seq<Order>, stamp: string): (r: seq<Order>)
    requires stamp != ""
    ensures |r| == |os|
    ensures forall i :: 0 <= i < |r| ==> HasTextDate(r[i])
    ensures forall i :: 0 <= i < |r| ==> HasTextDate(os[i]) ==> r[i] == os[i]
    ensures forall i :: 0 <= i < |r| ==> !HasTextDate(os[i]) ==> r[i].date == Some(stamp)
    ensures forall i :: 0 <= i < |r| ==> r[i] == os[i].(date := r[i].date)
  {
    seq(|os|, i requires 0 <= i < |os| => StampDate(os[i], stamp))
  }

  function Fulfilled(s: SalesState, data: ShopData, stamp: string): (r: SalesState)
    requires stamp != ""
    ensures r.status == Succeeded && r.error.None?
    ensures r.products == OrEmpty(data.products) && r.variants == OrEmpty(data.variants)
    ensures |r.orders| == |OrEmpty(data.orders)|
    ensures forall i :: 0 <= i < |r.orders| ==> HasTextDate(r.orders[i])
    ensures forall i :: 0 <= i < |r.orders| ==>
              HasTextDate(OrEmpty(data.orders)[i]) ==> r.orders[i] == OrEmpty(data.orders)[i]
    ensures forall i :: 0 <= i < |r.orders| ==>
              !HasTextDate(OrEmpty(data.orders)[i]) ==> r.orders[i].date == Some(stamp)
    ensures forall i :: 0 <= i < |r.orders| ==>
              r.orders[i] == OrEmpty(data.orders)[i].(date := r.orders[i].date)
    ensures r.selectedProduct == s.selectedProduct && r.selectedVariant == s.selectedVariant
  {
    s.(status := Succeeded,
       products := OrEmpty(data.products),
       variants := OrEmpty(data.variants),
       orders := StampDates(OrEmpty(data.orders), stamp),
       error := None)
  }

  function Rejected(s: SalesState, message: Option<string>): (r: SalesState)
    ensures r.status == Failed && r.error == message
    ensures r.products == s.products && r.variants == s.variants && r.orders == s.orders
    ensures r.selectedProduct == s.selectedProduct && r.selectedVariant == s.selectedVariant
  {
    s.(status := Failed, error := message)
  }

  /** A dispatchable action: the fulfilled case's stamp is a real date. */
  predicate Dispatchable(a: SalesAction) {
    a.FetchFulfilled? ==> a.stamp != ""
  }

  /** The slice's reducer: one action applied to the state. */
  function Reduce(s: SalesState, a: SalesAction): SalesState
    requires Dispatchable(a)
  {
    match a
    case SelectProductAction(p) => SelectProduct(s, p)
    case SelectVariantAction(v) => SelectVariant(s, v)
    case ClearSelectionAction => ClearSelection(s)
    case FetchPending => Pending(s)
    case FetchFulfilled(data, stamp) => Fulfilled(s, data, stamp)
    case FetchRejected(m) => Rejected(s, m)
  }

  /** What holds in every state the reducer can reach: an error is only
      ever recorded together with `failed`, and every stored order carries
      a date string. */
  predicate Consistent(s: SalesState) {
    && (s.error.Some? ==> s.status == Failed)
    && (forall i :: 0 <= i < |s.orders| ==> HasTextDate(s.orders[i]))
  }

  lemma InitialConsistent()
    ensures Consistent(Initial)
  {
  }

  /** Every action keeps the slice consistent. */
  lemma ReducePreservesConsistent(s: SalesState, a: SalesAction)
    requires Dispatchable(a)
    requires Consistent(s)
    ensures Consistent(Reduce(s, a))
  {
  }

  /** The state after a run of actions from the initial state. */
  function Run(actions: seq<SalesAction>): SalesState
    requires forall i :: 0 <= i < |actions| ==> Dispatchable(actions[i])
    decreases |actions|
  {
    if |actions| == 0 then Initial
    else Reduce(Run(actions[..|actions| - 1]), actions[|actions| - 1])
  }

  /** Every state reachable from the initial one is consistent. */
  lemma {:induction false} RunConsistent(actions: seq<SalesAction>)
    requires forall i :: 0 <= i < |actions| ==> Dispatchable(actions[i])
    ensures Consistent(Run(actions))
    decreases |actions|
  {
    if |actions| == 0 {
      InitialConsistent();
    } else {
      var n := |actions| - 1;
      RunConsistent(actions[..n]);
      ReducePreservesConsistent(Run(actions[..n]), actions[n]);
    }
  }

  /** `selectProductVariants`: the variants of the selected product, in
      their stored order; nothing without a selected product. */
  function ProductVariants(s: SalesState): (r: seq<Variant>)
    ensures s.selectedProduct.None? ==> r == []
    ensures IsSubseq(r, s.variants)
    ensures forall v :: multiset(r)[v] ==
              if s.selectedProduct.Some? && v.productId == s.selectedProduct.value.productId
              then multiset(s.variants)[v] else 0
  {
    if s.selectedProduct.None? then []
    else
      var pid := s.selectedProduct.value.productId;
      Filter(s.variants, (v: Variant) => v.productId == pid)
  }

  /** `productVariantIds`: the ids of the variants of product `pid`. */
  function VariantIdsOf(vs: seq<Variant>, pid: int): (r: seq<int>)
    ensures forall id :: id in r <==> exists v :: v in vs && v.productId == pid && v.variantId == id
    decreases |vs|
  {
    if |vs| == 0 then []
    else
      var rest := VariantIdsOf(vs[1..], pid);
      assert vs == [vs[0]] + vs[1..];
      if vs[0].productId == pid then [vs[0].variantId] + rest else rest
  }

  /** Which orders the current selection is about: a selected variant wins;
      otherwise the variants of the selected product; otherwise none. */
  ghost predicate Relevant(s: SalesState, o: Order) {
    if s.selectedVariant.Some? then o.variantId == s.selectedVariant.value.variantId
    else if s.selectedProduct.Some? then
      exists v :: v in s.variants && v.productId == s.selectedProduct.value.productId && v.variantId == o.variantId
    else false
  }

  /** The selection filter written twice in the source, once per selector. */
  function SelectionOrders(s: SalesState): (r: seq<Order>)
    ensures IsSubseq(r, s.orders)
    ensures forall o :: multiset(r)[o] == if Relevant(s, o) then multiset(s.orders)[o] else 0
  {
    if s.selectedVariant.Some? then
      var vid := s.selectedVariant.value.variantId;
      Filter(s.orders, (o: Order) => o.variantId == vid)
    else if s.selectedProduct.Some? then
      var ids := VariantIdsOf(s.variants, s.selectedProduct.value.productId);
      if |ids| > 0 then Filter(s.orders, (o: Order) => o.variantId in ids)
      else
        assert forall o: Order :: o.variantId !in ids;
        []
    else
      []
  }

  /** `selectSalesData`: exactly the orders the selection is about, in
      their stored order; nothing when nothing is selected. */
  function SalesData(s: SalesState): (r: seq<Order>)
    ensures s.selectedProduct.None? && s.selectedVariant.None? ==> r == []
    ensures IsSubseq(r, s.orders)
    ensures forall o :: multiset(r)[o] == if Relevant(s, o) then multiset(s.orders)[o] else 0
  {
    if |s.orders| == 0 then []
    else SelectionOrders(s)
  }
}
