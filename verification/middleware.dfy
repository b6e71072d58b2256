/** The request middleware (src/middleware.js) guarding the shop-data
    endpoint: a path and the request's cookies decide whether the request
    goes on, is refused as unauthenticated (401) or is refused as aimed at
    another shop's data (403). `JSON.parse` of the cookie is the parameter
    `decode`. */
module Middleware {
  import opened Common

  /** `AUTH_STORAGE_KEY` from src/constants/index.js. */
  const AuthCookieName := "ecommerce_analytics_shop"

  /** What `JSON.parse(value)` yields, as far as the middleware looks at
      it: a parse error, or a value whose `id.toString()` is `id` (`None`
      when the value or its `id` is null or undefined, where reading it
      throws). */
  datatype CookieJson = Malformed | Parsed(id: Option<string>)

  datatype Decision = Pass | Reject(status: int, error: string)

  predicate StartsWith(s: string, prefix: string) {
    |prefix| <= |s| && s[..|prefix|] == prefix
  }

  predicate IsDigit(c: char) {
    '0' <= c <= '9'
  }

  const ShopPrefix := "/api/shop/"

  /** The regular expression `\/api\/shop\/(\d+)` matches at position `i`. */
  predicate MatchAt(path: string, i: int) {
    && 0 <= i && i + |ShopPrefix| < |path|
    && path[i..i + |ShopPrefix|] == ShopPrefix
    && IsDigit(path[i + |ShopPrefix|])
  }

  /** The longest run of digits starting at `j` (`\d+` is greedy). */
  function DigitRun(path: string, j: nat): (ds: string)
    requires j <= |path|
    ensures j + |ds| <= |path| && ds == path[j..j + |ds|]
    ensures forall k :: 0 <= k < |ds| ==> IsDigit(ds[k])
    ensures j + |ds| == |path| || !IsDigit(path[j + |ds|])
    decreases |path| - j
  {
    if j < |path| && IsDigit(path[j]) then [path[j]] + DigitRun(path, j + 1) else []
  }

  /** The leftmost match at or after `i`: its first capture group. */
  function FirstMatchFrom(path: string, i: nat): (r: Option<string>)
    requires i <= |path|
    ensures r.None? ==> forall k :: i <= k < |path| ==> !MatchAt(path, k)
    ensures r.Some? ==>
              exists k :: && i <= k < |path| && MatchAt(path, k)
                          && (forall k' :: i <= k' < k ==> !MatchAt(path, k'))
                          && r.value == DigitRun(path, k + |ShopPrefix|)
    decreases |path| - i
  {
    if i == |path| then None
    else if MatchAt(path, i) then Some(DigitRun(path, i + |ShopPrefix|))
    else FirstMatchFrom(path, i + 1)
  }

  /** `shopIdMatch[1]`, the digits after the first `/api/shop/` that is
      followed by a digit. */
  function ShopIdSegment(path: string): (r: Option<string>)
    ensures r.None? ==> forall k :: 0 <= k < |path| ==> !MatchAt(path, k)
    ensures r.Some? ==> |r.value| > 0 && forall c :: c in r.value ==> IsDigit(c)
  {
    FirstMatchFrom(path, 0)
  }

  /** `middleware(request)`. Paths outside `/api/shop` are not guarded. */
  function Decide(path: string, cookies: map<string, string>, decode: string -> CookieJson): (d: Decision)
    ensures !StartsWith(path, "/api/shop") ==> d == Pass
    ensures (StartsWith(path, "/api/shop") && (AuthCookieName !in cookies || cookies[AuthCookieName] == "")) ==>
              d == Reject(401, "Authentication required")
    ensures d.Reject? ==> d.status in {401, 403}
  {
    if !StartsWith(path, "/api/shop") then Pass
    else if AuthCookieName !in cookies || cookies[AuthCookieName] == "" then
      Reject(401, "Authentication required")
    else
      match decode(cookies[AuthCookieName])
      case Malformed => Reject(401, "Invalid authentication data")
      case Parsed(id) =>
        match ShopIdSegment(path)
        case None => Pass
        case Some(digits) =>
          match id
          case None => Reject(401, "Invalid authentication data")
          case Some(idText) =>
            if digits != idText then Reject(403, "Unauthorized access to shop data") else Pass
  }

  /** Exactly when a request goes on: it is not for `/api/shop`, or it has a
      non-empty cookie that parses and, if the path names a shop id, the
      cookie's id is that id. */
  lemma PassExactly(path: string, cookies: map<string, string>, decode: string -> CookieJson)
    ensures Decide(path, cookies, decode) == Pass <==>
      || !StartsWith(path, "/api/shop")
      || (&& AuthCookieName in cookies && cookies[AuthCookieName] != ""
          && decode(cookies[AuthCookieName]).Parsed?
          && (ShopIdSegment(path).None? || decode(cookies[AuthCookieName]).id == ShopIdSegment(path)))
  {
  }

  /** 403 is given exactly for a parsed cookie whose id differs from the
      shop id in a guarded path. */
  lemma ForbiddenExactly(path: string, cookies: map<string, string>, decode: string -> CookieJson)
    ensures Decide(path, cookies, decode).Reject? && Decide(path, cookies, decode).status == 403 <==>
      && StartsWith(path, "/api/shop")
      && AuthCookieName in cookies && cookies[AuthCookieName] != ""
      && decode(cookies[AuthCookieName]).Parsed?
      && decode(cookies[AuthCookieName]).id.Some?
      && ShopIdSegment(path).Some?
      && decode(cookies[AuthCookieName]).id.value != ShopIdSegment(path).value
  {
  }

  /** A cookie that does not parse is refused as unauthenticated on every
      guarded path. */
  lemma MalformedCookieIs401(path: string, cookies: map<string, string>, decode: string -> CookieJson)
    requires StartsWith(path, "/api/shop")
    requires AuthCookieName in cookies && cookies[AuthCookieName] != ""
    requires decode(cookies[AuthCookieName]).Malformed?
    ensures Decide(path, cookies, decode) == Reject(401, "Invalid authentication data")
  {
  }

  /** The shop-data route: `/api/shop/7/data` names shop `7`. */
  lemma DataRouteSegment()
    ensures ShopIdSegment("/api/shop/7/data") == Some("7")
  {
    var path := "/api/shop/7/data";
    assert path[0..10] == ShopPrefix;
    assert MatchAt(path, 0);
    assert DigitRun(path, 11) == [];
    assert DigitRun(path, 10) == "7";
    assert FirstMatchFrom(path, 0) == Some("7");
  }
}
