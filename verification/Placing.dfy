/**
 order/place.go: the order request that `Place` and `PlaceAmount` build and send.
 Decimals are reals.
 */
module Placing {
  import opened Wrappers
  import opened Topics
  import opened Tokens
  import opened Requests

  datatype PlaceRequest = PlaceRequest(
    symbol: string,
    side: string,
    orderType: string,
    quantity: real,
    price: real,
    timeInForce: string,
    clientOrderId: string,
    confirmHighValue: bool)

  datatype AmountRequest = AmountRequest(
    symbol: string,
    side: string,
    amount: real,
    clientOrderId: string,
    confirmHighValue: bool)

  datatype Refusal =
    | BadAccount
    | BadSymbol
    | NoSide
    | NoType
    | BadQuantity
    | PriceRequired
    | PriceForbidden
    | BadAmount
    | BadKey

  const MAX_KEY := 36

  predicate KeyChar(c: char) {
    'A' <= c <= 'Z' || 'a' <= c <= 'z' || '0' <= c <= '9' || c == '-' || c == '_'
  }

  /** `validateKey`: no key, or one the server accepts. */
  predicate ValidKey(id: string) {
    id == "" || (|id| <= MAX_KEY && forall c :: c in id ==> KeyChar(c))
  }

  function Post(account: int, details: Details, id: string): Request {
    Request("POST", "/api/v1/orders", account, Some(Body(id, details)), id)
  }

  /** `Place` up to the call. */
  function Build(account: int, r: PlaceRequest): Result<Request, Refusal> {
    if account <= 0 then Err(BadAccount)
    else if !Symbol(r.symbol) then Err(BadSymbol)
    else if r.side == "" then Err(NoSide)
    else if r.orderType == "" then Err(NoType)
    else if r.quantity <= 0.0 then Err(BadQuantity)
    else if r.orderType == "LIMIT" && r.price <= 0.0 then Err(PriceRequired)
    else if r.orderType == "MARKET" && r.price != 0.0 then Err(PriceForbidden)
    else if !ValidKey(r.clientOrderId) then Err(BadKey)
    else
      var price := if r.price == 0.0 then None else Some(r.price);
      Ok(Post(account,
              Details(r.symbol, r.side, r.orderType, Some(r.quantity), None, price, r.timeInForce, r.confirmHighValue),
              r.clientOrderId))
  }

  /** `PlaceAmount` up to the call. */
  function BuildAmount(account: int, r: AmountRequest): Result<Request, Refusal> {
    if account <= 0 then Err(BadAccount)
    else if !Symbol(r.symbol) then Err(BadSymbol)
    else if r.side == "" then Err(NoSide)
    else if r.amount <= 0.0 then Err(BadAmount)
    else if !ValidKey(r.clientOrderId) then Err(BadKey)
    else
      Ok(Post(account,
              Details(r.symbol, r.side, "MARKET", None, Some(r.amount), None, "", r.confirmHighValue),
              r.clientOrderId))
  }

  /** The characters of a key, one by one. */
  lemma KeyCharsAre(c: char)
    ensures KeyChar(c) <==> c in "ABCDEFGHIJKLMNOPQRSTUVWXYZ" || c in "abcdefghijklmnopqrstuvwxyz" || c in "0123456789-_"
  {
  }

  /** At most 36 characters, all of them allowed; none at all means no key. */
  predicate Keyed(id: string) {
    |id| <= 36 && forall i :: 0 <= i < |id| ==> KeyChar(id[i])
  }

  /** What an order by quantity must be like: a limit order names a price, a market order none. */
  predicate Orderly(account: int, r: PlaceRequest) {
    && account > 0 && Symbol(r.symbol) && r.side != "" && r.orderType != ""
    && r.quantity > 0.0
    && (r.orderType == "LIMIT" ==> r.price > 0.0)
    && (r.orderType == "MARKET" ==> r.price == 0.0)
    && Keyed(r.clientOrderId)
  }

  /** A request is built for orderly input only, and it asks for what the caller asked for. */
  lemma BuiltAsAsked(account: int, r: PlaceRequest)
    ensures Build(account, r).Ok? <==> Orderly(account, r)
    ensures Orderly(account, r) ==>
              var q := Build(account, r).value;
              && q.verb == "POST" && q.path == "/api/v1/orders" && q.account == account
              && q.body.Some? && q.key == r.clientOrderId == q.body.value.clientOrderId
              && var d := q.body.value.details;
                 && d.symbol == r.symbol && d.side == r.side && d.orderType == r.orderType
                 && d.quantity == Some(r.quantity) && d.amount == None
                 && (r.price == 0.0 ==> d.price == None) && (r.price != 0.0 ==> d.price == Some(r.price))
                 && d.timeInForce == r.timeInForce && d.confirmHighValue == r.confirmHighValue
  {
    assert "LIMIT" != "MARKET";
  }

  predicate OrderlyAmount(account: int, r: AmountRequest) {
    account > 0 && Symbol(r.symbol) && r.side != "" && r.amount > 0.0 && Keyed(r.clientOrderId)
  }

  /** The same for an order by amount: always a market order, without quantity, price or time in force. */
  lemma BuiltAmountAsAsked(account: int, r: AmountRequest)
    ensures BuildAmount(account, r).Ok? <==> OrderlyAmount(account, r)
    ensures OrderlyAmount(account, r) ==>
              var q := BuildAmount(account, r).value;
              && q.verb == "POST" && q.path == "/api/v1/orders" && q.account == account
              && q.body.Some? && q.key == r.clientOrderId == q.body.value.clientOrderId
              && var d := q.body.value.details;
                 && d.symbol == r.symbol && d.side == r.side && d.orderType == "MARKET"
                 && d.amount == Some(r.amount) && d.quantity == None && d.price == None
                 && d.timeInForce == "" && d.confirmHighValue == r.confirmHighValue
  {
  }

  datatype PlaceError = Refused(why: Refusal) | Failed(failure: Failure)

  function Lift(answer: Result<Option<nat>, Failure>): Result<Option<nat>, PlaceError> {
    if answer.Ok? then Ok(answer.value) else Err(Failed(answer.error))
  }

  /** The call both make: the key goes into the body and into the retry rule. */
  method Submit(client: Client, built: Result<Request, Refusal>, xs: seq<Exchange>)
    returns (sends: seq<Sent>, result: Result<Option<nat>, PlaceError>)
    requires |xs| == 2 && (built.Ok? ==> built.value.verb == "POST")
    modifies client.tokens
    ensures built.Err? ==> sends == [] && result == Err(Refused(built.error))
    ensures built.Err? ==> client.tokens.Abs() == old(client.tokens.Abs())
    ensures built.Ok? ==>
              var out := Try(old(client.tokens.Abs()), built.value, false, xs);
              sends == out.sends && client.tokens.Abs() == out.cache && result == Lift(Unwrapped(out.result, true))
  {
    if built.Err? {
      return [], Err(Refused(built.error));
    }
    var answer;
    sends, answer := client.Do(built.value, true, xs);
    result := Lift(answer);
  }

  /** What both functions build can be sent without fear of a second order. */
  ghost predicate PlacesOnce(r: Request, id: string) {
    && r.verb == "POST" && r.key == id && r.body.Some? && r.body.value.clientOrderId == id
    && (CanRetry(r) <==> id != "")
    && (forall c: Cache, b: Book, xs: seq<Exchange> :: |xs| == 2 ==> AtMostOne(c, b, r, xs))
    && forall c: Cache, xs: seq<Exchange> :: |xs| == 2 ==> |Try(c, r, false, xs).sends| <= (if id == "" then 1 else 2)
  }

  lemma PostsOnce(account: int, details: Details, id: string)
    ensures PlacesOnce(Post(account, details, id), id)
  {
    var r := Post(account, details, id);
    AtMostOneOrder(r);
    forall c: Cache, xs: seq<Exchange> | |xs| == 2
      ensures |Try(c, r, false, xs).sends| <= (if id == "" then 1 else 2)
    {
      SentAtMostTwice(c, r, xs);
    }
  }

  /**
   One `Place` creates at most one order, whatever the server answers and whoever else
   uses the token cache: without a client order id it is sent once, with one at most
   twice and recognisably.
   */
  lemma PlaceOnce(account: int, r: PlaceRequest)
    requires Build(account, r).Ok?
    ensures PlacesOnce(Build(account, r).value, r.clientOrderId)
  {
    PostsOnce(account, Build(account, r).value.body.value.details, r.clientOrderId);
  }

  /** And so does one `PlaceAmount`. */
  lemma PlaceAmountOnce(account: int, r: AmountRequest)
    requires BuildAmount(account, r).Ok?
    ensures PlacesOnce(BuildAmount(account, r).value, r.clientOrderId)
  {
    PostsOnce(account, BuildAmount(account, r).value.body.value.details, r.clientOrderId);
  }
}
