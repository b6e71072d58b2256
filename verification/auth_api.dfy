/** The sign-in endpoint (src/pages/api/auth.js): `POST /api/auth` with a
    shop name answers with the shop's id and name, or an error status.
    The SQLite database is abstract: whether the connection opened, and
    what `SELECT shop_id, shop_name FROM shop WHERE shop_name = ?` returns
    for a name. */
module AuthApi {
  import opened Common

  datatype ShopRow = ShopRow(shopId: int, shopName: string)

  /** The outcome of the lookup query for one name. */
  datatype Lookup = QueryFailed | NoRow | Row(row: ShopRow)

  datatype ShopInfo = ShopInfo(id: int, name: string)

  datatype Body = ErrorBody(error: string) | SuccessBody(success: bool, shop: ShopInfo)

  datatype Response = Response(status: int, body: Body)

  /** The characters `String.prototype.trim` removes: white space and line
      terminators. */
  predicate IsWhitespace(c: char) {
    c in {'\t', '\n', '\U{000B}', '\U{000C}', '\r', ' ', '\U{00A0}', '\U{1680}',
          '\U{2000}', '\U{2001}', '\U{2002}', '\U{2003}', '\U{2004}', '\U{2005}', '\U{2006}',
          '\U{2007}', '\U{2008}', '\U{2009}', '\U{200A}', '\U{2028}', '\U{2029}', '\U{202F}',
          '\U{205F}', '\U{3000}', '\U{FEFF}'}
  }

  function TrimStart(s: string): (r: string)
    ensures |r| <= |s| && r == s[|s| - |r|..]
    ensures forall i :: 0 <= i < |s| - |r| ==> IsWhitespace(s[i])
    ensures |r| > 0 ==> !IsWhitespace(r[0])
    decreases |s|
  {
    if |s| > 0 && IsWhitespace(s[0]) then TrimStart(s[1..]) else s
  }

  function TrimEnd(s: string): (r: string)
    ensures |r| <= |s| && r == s[..|r|]
    ensures forall i :: |r| <= i < |s| ==> IsWhitespace(s[i])
    ensures |r| > 0 ==> !IsWhitespace(r[|r| - 1])
    decreases |s|
  {
    if |s| > 0 && IsWhitespace(s[|s| - 1]) then TrimEnd(s[..|s| - 1]) else s
  }

  /** `s.trim()` */
  function Trim(s: string): string {
    TrimEnd(TrimStart(s))
  }

  /** A name is blank when trimming leaves nothing: exactly when every
      character is white space. */
  lemma BlankExactly(s: string)
    ensures Trim(s) == "" <==> forall i :: 0 <= i < |s| ==> IsWhitespace(s[i])
  {
    var t := TrimStart(s);
    if Trim(s) == "" {
      assert |t| == 0;
    }
  }

  /** `!shopName || shopName.trim() === ''` */
  predicate MissingName(shopName: Option<string>) {
    shopName.None? || shopName.value == "" || Trim(shopName.value) == ""
  }

  /** `handler(req, res)`: the status and JSON body of the response. */
  function Handle(verb: string, shopName: Option<string>, connected: bool,
                  lookup: string -> Lookup): (r: Response)
    ensures verb != "POST" ==> r == Response(405, ErrorBody("Method not allowed"))
    ensures verb == "POST" && MissingName(shopName) ==>
              r == Response(400, ErrorBody("Shop name is required"))
    ensures r.status == 200 <==>
              verb == "POST" && !MissingName(shopName) && connected && lookup(shopName.value).Row?
    ensures r.status == 200 ==>
              r.body == SuccessBody(true, ShopInfo(lookup(shopName.value).row.shopId,
                                                   lookup(shopName.value).row.shopName))
    ensures r.status in {200, 400, 404, 405, 500}
  {
    if verb != "POST" then Response(405, ErrorBody("Method not allowed"))
    else if MissingName(shopName) then Response(400, ErrorBody("Shop name is required"))
    else if !connected then Response(500, ErrorBody("Failed to connect to database"))
    else
      match lookup(shopName.value)
      case QueryFailed => Response(500, ErrorBody("Database query failed"))
      case NoRow => Response(404, ErrorBody("Shop not found"))
      case Row(row) => Response(200, SuccessBody(true, ShopInfo(row.shopId, row.shopName)))
  }

  /** 405 and 400 are decided before the database is touched: they come out
      the same whatever the database would have done. */
  lemma ValidationIgnoresDatabase(verb: string, shopName: Option<string>,
                                  c1: bool, l1: string -> Lookup, c2: bool, l2: string -> Lookup)
    requires verb != "POST" || MissingName(shopName)
    ensures Handle(verb, shopName, c1, l1) == Handle(verb, shopName, c2, l2)
  {
  }

  /** A database failure, at connection or at query, is a 500. */
  lemma DatabaseFailureIs500(shopName: Option<string>, connected: bool, lookup: string -> Lookup)
    requires !MissingName(shopName)
    requires !connected || lookup(shopName.value).QueryFailed?
    ensures Handle("POST", shopName, connected, lookup).status == 500
  {
  }

  /** No row for the name is a 404. */
  lemma NoRowIs404(shopName: Option<string>, lookup: string -> Lookup)
    requires !MissingName(shopName) && lookup(shopName.value).NoRow?
    ensures Handle("POST", shopName, true, lookup) == Response(404, ErrorBody("Shop not found"))
  {
  }

  /** The query over a table: the first row whose name equals `name`
      exactly, as SQLite's `=` on TEXT compares. */
  function FindByName(rows: seq<ShopRow>, name: string): (r: Lookup)
    ensures r.Row? ==> r.row in rows && r.row.shopName == name
    ensures r.NoRow? <==> forall i :: 0 <= i < |rows| ==> rows[i].shopName != name
    ensures !r.QueryFailed?
    decreases |rows|
  {
    if |rows| == 0 then NoRow
    else if rows[0].shopName == name then Row(rows[0])
    else FindByName(rows[1..], name)
  }

  /** The name is looked up untrimmed: a name with a trailing space passes
      the blank check and still misses the shop it names. */
  lemma UntrimmedNameMisses()
    ensures Handle("POST", Some("Fashion Store "), true,
                   name => FindByName([ShopRow(1, "Fashion Store")], name)).status == 404
    ensures Handle("POST", Some("Fashion Store"), true,
                   name => FindByName([ShopRow(1, "Fashion Store")], name)).status == 200
  {
    assert "Fashion Store " != "Fashion Store";
    assert TrimStart("Fashion Store ") == "Fashion Store ";
    assert TrimStart("Fashion Store") == "Fashion Store";
    assert Trim("Fashion Store ") != "";
    assert Trim("Fashion Store") != "";
  }
}
