/** The `auth` slice (src/store/slices/authSlice.js) as a state machine.
    The request behind `authenticateShop` and the localStorage writes are
    not modelled; the request's three outcomes are actions. */
module AuthSlice {
  import opened Common

  /** `{ id, name }` as the auth endpoint returns it. */
  datatype Shop = Shop(id: int, name: string)

  datatype AuthState = AuthState(
    shop: Option<Shop>,
    status: FetchStatus,
    error: Option<string>,
    isAuthenticated: bool)

  const Initial := AuthState(None, Idle, None, false)

  datatype AuthAction =
    | LogoutAction
    | ClearErrorAction
    | SetShopAction(shop: Shop)
    | AuthPending
    | AuthFulfilled(shop: Shop)
    | AuthRejected(message: Option<string>)

  /** `logout`: every field back to its initial value. */
  function Logout(s: AuthState): (r: AuthState)
    ensures r.shop.None? && !r.isAuthenticated && r.status == Idle && r.error.None?
  {
    s.(shop := None, isAuthenticated := false, status := Idle, error := None)
  }

  function ClearError(s: AuthState): (r: AuthState)
    ensures r.error.None?
    ensures r == s.(error := r.error)
  {
    s.(error := None)
  }

  /** `setShop`, dispatched with the shop restored from storage. */
  function SetShop(s: AuthState, shop: Shop): (r: AuthState)
    ensures r.shop == Some(shop) && r.isAuthenticated
    ensures r.status == s.status && r.error == s.error
  {
    s.(shop := Some(shop), isAuthenticated := true)
  }

  function Pending(s: AuthState): (r: AuthState)
    ensures r.status == Loading && r.error.None?
    ensures r.shop == s.shop && r.isAuthenticated == s.isAuthenticated
  {
    s.(status := Loading, error := None)
  }

  function Fulfilled(s: AuthState, shop: Shop): (r: AuthState)
    ensures r.status == Succeeded && r.shop == Some(shop) && r.isAuthenticated && r.error.None?
  {
    s.(status := Succeeded, shop := Some(shop), isAuthenticated := true, error := None)
  }

  /** The rejected case stores the error and drops authentication but
      leaves whatever shop was stored in place. */
  function Rejected(s: AuthState, message: Option<string>): (r: AuthState)
    ensures r.status == Failed && r.error == message && !r.isAuthenticated
    ensures r.shop == s.shop
  {
    s.(status := Failed, error := message, isAuthenticated := false)
  }

  function Reduce(s: AuthState, a: AuthAction): AuthState {
    match a
    case LogoutAction => Logout(s)
    case ClearErrorAction => ClearError(s)
    case SetShopAction(shop) => SetShop(s, shop)
    case AuthPending => Pending(s)
    case AuthFulfilled(shop) => Fulfilled(s, shop)
    case AuthRejected(m) => Rejected(s, m)
  }

  /** `logout` forgets everything: from any state it lands on the initial one. */
  lemma LogoutIsInitial(s: AuthState)
    ensures Logout(s) == Initial
  {
  }

  /** What holds in every reachable state: authenticated implies a stored
      shop, and an error is only ever recorded with `failed`. */
  predicate Consistent(s: AuthState) {
    && (s.isAuthenticated ==> s.shop.Some?)
    && (s.error.Some? ==> s.status == Failed)
  }

  lemma ReducePreservesConsistent(s: AuthState, a: AuthAction)
    requires Consistent(s)
    ensures Consistent(Reduce(s, a))
  {
  }

  /** The state after a run of actions from the initial state. */
  function Run(actions: seq<AuthAction>): AuthState
    decreases |actions|
  {
    if |actions| == 0 then Initial
    else Reduce(Run(actions[..|actions| - 1]), actions[|actions| - 1])
  }

  /** Every state reachable from the initial one is consistent. */
  lemma {:induction false} RunConsistent(actions: seq<AuthAction>)
    ensures Consistent(Run(actions))
    decreases |actions|
  {
    if |actions| > 0 {
      RunConsistent(actions[..|actions| - 1]);
      ReducePreservesConsistent(Run(actions[..|actions| - 1]), actions[|actions| - 1]);
    }
  }
}
