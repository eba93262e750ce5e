/**
 internal/httpclient/client.go: one HTTP call with a token, repeated at most once when
 the server rejects the token. Other callers share the token cache; what they do
 between the call's own steps is part of the script, and so are the server's replies.
 */
module Requests {
  import opened Wrappers
  import opened Tokens

  /** The fields of an order besides its key. */
  datatype Details = Details(
    symbol: string,
    side: string,
    orderType: string,
    quantity: Option<real>,
    amount: Option<real>,
    price: Option<real>,
    timeInForce: string,
    confirmHighValue: bool)

  /** `clientOrderId` is the key the server recognises an order by, "" when there is none. */
  datatype Body = Body(clientOrderId: string, details: Details)

  datatype Request = Request(verb: string, path: string, account: int, body: Option<Body>, key: string)

  /** What the response body holds. */
  datatype Content = Empty | Garbled | NoResult | Mismatch | Value(v: nat)

  /** `Lost`: no response could be read, whether or not the server acted. */
  datatype Reply = Lost | Reply(status: int, code: string, content: Content)

  datatype Failure = NoToken | Transport | Api(status: int, code: string) | BadBody

  /**
   One round of `do`: what other callers do to the token cache before and after, the
   clock and the token endpoint, what orders others place meanwhile, whether the server
   executes the request, and its reply.
   */
  datatype Exchange = Exchange(
    before: seq<Op>,
    now: int,
    issuedAt: int,
    grant: Option<Grant>,
    others: set<(int, string)>,
    executes: bool,
    reply: Reply,
    after: seq<Op>)

  datatype Sent = Sent(token: string, request: Request)

  datatype Outcome = Outcome(sends: seq<Sent>, result: Result<Content, Failure>, cache: Cache)

  predicate IsTokenError(code: string) {
    code == "expired-token" || code == "invalid-token"
  }

  predicate CanRetry(r: Request) {
    r.verb == "GET" || r.key != ""
  }

  predicate TokenRejected(reply: Reply) {
    reply.Reply? && reply.status == 401 && IsTokenError(reply.code)
  }

  /** `do`. The first exchange is this round, the second one is for the retry. */
  function Try(c: Cache, r: Request, retried: bool, xs: seq<Exchange>): (out: Outcome)
    requires |xs| == (if retried then 1 else 2)
    ensures |out.sends| <= |xs|
    decreases |xs|
  {
    var x := xs[0];
    var c0 := Steps(c, x.before);
    var tok := Answer(c0, x.now, x.grant);
    var c1 := Step(c0, Get(x.now, x.issuedAt, x.grant));
    if tok == None then Outcome([], Err(NoToken), c1)
    else
      var sent := Sent(tok.value, r);
      var c2 := Steps(c1, x.after);
      match x.reply
      case Lost => Outcome([sent], Err(Transport), c2)
      case Reply(status, code, content) =>
        if 200 <= status < 300 then Outcome([sent], Ok(content), c2)
        else if TokenRejected(x.reply) then
          var c3 := Step(c2, Drop(tok.value));
          if !retried && CanRetry(r) then
            var rest := Try(c3, r, true, xs[1..]);
            rest.(sends := [sent] + rest.sends)
          else Outcome([sent], Err(Api(status, code)), c3)
        else Outcome([sent], Err(Api(status, code)), c2)
  }

  /** The tail of `Do`: what the caller gets when it asked for a result. */
  function Unwrapped(out: Result<Content, Failure>, wanted: bool): Result<Option<nat>, Failure> {
    match out
    case Err(e) => Err(e)
    case Ok(content) =>
      if !wanted then Ok(None)
      else if content.Value? then Ok(Some(content.v))
      else Err(BadBody)
  }

  class Client {
    const tokens: TokenSource

    constructor (tokens: TokenSource)
      ensures this.tokens == tokens
    {
      this.tokens := tokens;
    }

    method Attempt(r: Request, retried: bool, xs: seq<Exchange>)
      returns (sends: seq<Sent>, result: Result<Content, Failure>)
      requires |xs| == (if retried then 1 else 2)
      modifies tokens
      ensures Outcome(sends, result, tokens.Abs()) == Try(old(tokens.Abs()), r, retried, xs)
      decreases |xs|
    {
      var x := xs[0];
      tokens.Interfere(x.before);
      var tok := tokens.Token(x.now, x.issuedAt, x.grant);
      if tok == None {
        return [], Err(NoToken);
      }
      sends := [Sent(tok.value, r)];
      tokens.Interfere(x.after);
      if x.reply.Lost? {
        return sends, Err(Transport);
      }
      if 200 <= x.reply.status < 300 {
        return sends, Ok(x.reply.content);
      }
      if x.reply.status == 401 && IsTokenError(x.reply.code) {
        tokens.Invalidate(tok.value);
        if !retried && CanRetry(r) {
          var more, last := Attempt(r, true, xs[1..]);
          return sends + more, last;
        }
      }
      result := Err(Api(x.reply.status, x.reply.code));
    }

    method Do(r: Request, wanted: bool, xs: seq<Exchange>)
      returns (sends: seq<Sent>, result: Result<Option<nat>, Failure>)
      requires |xs| == 2
      modifies tokens
      ensures var q := if r.verb == "" then Request("GET", r.path, r.account, r.body, r.key) else r;
              var out := Try(old(tokens.Abs()), q, false, xs);
              sends == out.sends && result == Unwrapped(out.result, wanted) && tokens.Abs() == out.cache
    {
      var q := r;
      if q.verb == "" {
        q := q.(verb := "GET");
      }
      var content;
      sends, content := Attempt(q, false, xs);
      if content.Err? {
        return sends, Err(content.error);
      }
      if !wanted {
        return sends, Ok(None);
      }
      if content.value.Value? {
        return sends, Ok(Some(content.value.v));
      }
      result := Err(BadBody);
    }
  }

  // -------------------------------------------------------------- how often

  /** What is sent a second time is the same request: same payload, same key. Without a key a write is sent once. */
  lemma SentAtMostTwice(c: Cache, r: Request, xs: seq<Exchange>)
    requires |xs| == 2
    ensures var sends := Try(c, r, false, xs).sends;
            && |sends| <= (if CanRetry(r) then 2 else 1)
            && (forall i :: 0 <= i < |sends| ==> sends[i].request == r)
            && (|sends| == 2 ==> TokenRejected(xs[0].reply))
  {
  }

  /** The token a round gets from a cache. */
  function TokenOf(c: Cache, x: Exchange): Option<string> {
    Answer(Steps(c, x.before), x.now, x.grant)
  }

  /** The cache after a round whose token was rejected. */
  function AfterRejection(c: Cache, x: Exchange, tok: string): Cache {
    Step(Steps(Step(Steps(c, x.before), Get(x.now, x.issuedAt, x.grant)), x.after), Drop(tok))
  }

  /** What the caller is told about one reply. */
  function Told(reply: Reply): Result<Content, Failure> {
    if reply.Lost? then Err(Transport)
    else if 200 <= reply.status <= 299 then Ok(reply.content)
    else Err(Api(reply.status, reply.code))
  }

  /** The server rejects the token: status 401 with one of the two codes. */
  predicate Unauthorized(reply: Reply) {
    reply.Reply? && reply.status == 401 && (reply.code == "expired-token" || reply.code == "invalid-token")
  }

  /**
   When a call is repeated, and what it returns: it needs a token for each round; the
   first reply must reject the token, and the request must be a GET or carry a key. The
   result is that of the last reply.
   */
  lemma RepeatedExactly(c: Cache, r: Request, xs: seq<Exchange>)
    requires |xs| == 2
    ensures var out := Try(c, r, false, xs);
            var first := TokenOf(c, xs[0]);
            && (out.sends == [] <==> first == None)
            && (first == None ==> out.result == Err(NoToken))
            && (first.Some? ==>
                  && out.sends[0] == Sent(first.value, r)
                  && var again := Unauthorized(xs[0].reply) && (r.verb == "GET" || r.key != "");
                     var second := TokenOf(AfterRejection(c, xs[0], first.value), xs[1]);
                     && (|out.sends| == 2 <==> again && second.Some?)
                     && (!again ==> out.result == Told(xs[0].reply))
                     && (again && second == None ==> out.result == Err(NoToken))
                     && (again && second.Some? ==>
                           out.sends[1] == Sent(second.value, r) && out.result == Told(xs[1].reply)))
  {
    var first := TokenOf(c, xs[0]);
    if first.Some? && TokenRejected(xs[0].reply) && CanRetry(r) {
      RetriedOnce(AfterRejection(c, xs[0], first.value), r, xs[1]);
      assert xs[1..] == [xs[1]];
    }
  }

  lemma RetriedOnce(c: Cache, r: Request, x: Exchange)
    ensures var out := Try(c, r, true, [x]);
            var tok := TokenOf(c, x);
            if tok == None then out.sends == [] && out.result == Err(NoToken)
            else out.sends == [Sent(tok.value, r)] && out.result == Told(x.reply)
  {
  }

  /** What `Do` makes of that: a result is decoded only if it was asked for, and then there must be one. */
  lemma DoAnswers(out: Result<Content, Failure>, wanted: bool, v: nat)
    ensures Unwrapped(out, wanted) == Ok(Some(v)) <==> wanted && out == Ok(Value(v))
    ensures Unwrapped(out, wanted) == Ok(None) <==> !wanted && out.Ok?
    ensures out.Err? ==> Unwrapped(out, wanted) == Err(out.error)
  {
  }

  /** Every operation on the token cache during the call, the call's own included. */
  function Trace(tok: string, x: Exchange, y: Exchange): seq<Op> {
    Round(x) + [Drop(tok)] + Round(y)
  }

  function Round(x: Exchange): seq<Op> {
    x.before + [Get(x.now, x.issuedAt, x.grant)] + x.after
  }

  /** After one round from ledger l: its token is on record. */
  lemma RoundIssued(l: Ledger, x: Exchange)
    requires Balanced(l) && FreshOps(l, Round(x))
    requires Answer(Steps(l.cache, x.before), x.now, x.grant).Some?
    ensures var m := RecordAll(l, Round(x));
            && Balanced(m)
            && m.cache == Steps(Step(Steps(l.cache, x.before), Get(x.now, x.issuedAt, x.grant)), x.after)
            && Answer(Steps(l.cache, x.before), x.now, x.grant).value in m.issued
  {
    var get := [Get(x.now, x.issuedAt, x.grant)];
    Splits(l, x.before + get, x.after);
    Splits(l, x.before, get);
    RunBalanced(l, x.before);
    var m := RecordAll(l, x.before);
    RunBalanced(m, get);
    assert RecordAll(m, get) == Record(m, get[0]) by {
      assert get[1..] == [];
    }
    RunBalanced(Record(m, get[0]), x.after);
  }

  /** The answer of a later round is not a token that was given up before it. */
  lemma RoundAvoids(l: Ledger, x: Exchange, t: string)
    requires Balanced(l) && FreshOps(l, Round(x)) && t in l.issued && l.cache.token != t
    ensures Answer(Steps(l.cache, x.before), x.now, x.grant) != Some(t)
  {
    var get := [Get(x.now, x.issuedAt, x.grant)];
    Splits(l, x.before + get, x.after);
    Splits(l, x.before, get);
    RunBalanced(l, x.before);
    NeverAgain(l, t, x.before);
    assert t in RecordAll(l, x.before).issued;
  }

  /**
   The retry never uses the token that was just rejected, whatever other callers did
   to the cache in between, if the token endpoint issues fresh tokens.
   */
  lemma RetryUsesAnotherToken(l: Ledger, r: Request, xs: seq<Exchange>)
    requires |xs| == 2 && Balanced(l)
    requires var sends := Try(l.cache, r, false, xs).sends;
             |sends| == 2 && FreshOps(l, Trace(sends[0].token, xs[0], xs[1]))
    ensures var sends := Try(l.cache, r, false, xs).sends;
            sends[1].token != sends[0].token
  {
    var x, y := xs[0], xs[1];
    var t := Try(l.cache, r, false, xs).sends[0].token;
    var drop := [Drop(t)];
    Splits(l, Round(x) + drop, Round(y));
    Splits(l, Round(x), drop);
    assert Round(x) + drop + Round(y) == Trace(t, x, y);
    RoundIssued(l, x);
    var m := RecordAll(l, Round(x));
    assert RecordAll(m, drop) == Record(m, drop[0]) by {
      assert drop[1..] == [];
    }
    RunBalanced(m, drop);
    RoundAvoids(RecordAll(m, drop), y, t);
    assert xs[1..][0] == y;
  }

  lemma AnswersReal(c: Cache, now: int, reply: Option<Grant>)
    ensures Answer(c, now, reply) != Some("")
  {
  }

  /** A call that returns a token error leaves the cache without the token it last used, retried or not. */
  lemma RejectedTokenDropped(c: Cache, r: Request, retried: bool, xs: seq<Exchange>)
    requires |xs| == (if retried then 1 else 2)
    ensures var out := Try(c, r, retried, xs);
            out.result.Err? && out.result.error.Api? && out.result.error.status == 401 && IsTokenError(out.result.error.code)
            ==> out.sends != [] && out.cache.token != out.sends[|out.sends| - 1].token
    decreases |xs|
  {
    var x := xs[0];
    var c0 := Steps(c, x.before);
    AnswersReal(c0, x.now, x.grant);
    var tok := Answer(c0, x.now, x.grant);
    if tok.Some? && TokenRejected(x.reply) && !retried && CanRetry(r) {
      var c1 := Step(c0, Get(x.now, x.issuedAt, x.grant));
      RejectedTokenDropped(Step(Steps(c1, x.after), Drop(tok.value)), r, true, xs[1..]);
    }
  }

  // ---------------------------------------------------------- orders created

  /** The order endpoint: which (account, key) pairs it has seen, and how many orders this call made it create. */
  datatype Book = Book(seen: set<(int, string)>, mine: nat)

  /** Executing a request whose key it has seen creates nothing. A body without a key always creates an order. */
  function Execute(b: Book, r: Request, x: Exchange): Book {
    var seen := b.seen + x.others;
    if !x.executes || r.body == None then Book(seen, b.mine)
    else
      var id := r.body.value.clientOrderId;
      if id == "" then Book(seen, b.mine + 1)
      else if (r.account, id) in seen then Book(seen, b.mine)
      else Book(seen + {(r.account, id)}, b.mine + 1)
  }

  /** The server's side of a call that sent n requests. */
  function Served(b: Book, r: Request, n: nat, xs: seq<Exchange>): Book
    requires n <= |xs|
    decreases n
  {
    if n == 0 then b else Execute(Served(b, r, n - 1, xs), r, xs[n - 1])
  }

  /** The orders one call makes the server create. */
  function Created(c: Cache, b: Book, r: Request, xs: seq<Exchange>): int
    requires |xs| == 2
  {
    Served(b, r, |Try(c, r, false, xs).sends|, xs).mine - b.mine
  }

  /** A request that retries must not be able to create an order the server cannot recognise. */
  predicate Safe(r: Request) {
    r.body.Some? && CanRetry(r) ==> r.body.value.clientOrderId != ""
  }

  predicate AtMostOne(c: Cache, b: Book, r: Request, xs: seq<Exchange>)
    requires |xs| == 2
  {
    Created(c, b, r, xs) <= 1
  }

  lemma SafeCreatesOne(c: Cache, b: Book, r: Request, xs: seq<Exchange>)
    requires |xs| == 2 && Safe(r)
    ensures AtMostOne(c, b, r, xs)
  {
    SentAtMostTwice(c, r, xs);
    var n := |Try(c, r, false, xs).sends|;
    if n == 2 {
      assert Served(b, r, 2, xs) == Execute(Served(b, r, 1, xs), r, xs[1]);
      assert Served(b, r, 1, xs) == Execute(Served(b, r, 0, xs), r, xs[0]);
    } else if n == 1 {
      assert Served(b, r, 1, xs) == Execute(Served(b, r, 0, xs), r, xs[0]);
    }
  }

  /** A server that executes the request and yet rejects its token, twice. */
  const EAGER := Exchange([], 0, 0, Some(Grant("t", 1)), {}, true, Reply(401, "expired-token", Empty), [])

  lemma UnsafeCreatesTwo(b: Book, r: Request)
    requires !Safe(r)
    ensures Created(EMPTY, b, r, [EAGER, EAGER]) == 2
  {
    var xs := [EAGER, EAGER];
    var one := Try(EMPTY, r, true, [EAGER]);
    assert |one.sends| == 1 by {
      assert Steps(EMPTY, []) == EMPTY;
    }
    EagerDropped(r);
    assert xs[1..] == [EAGER];
    assert |Try(EMPTY, r, false, xs).sends| == 2;
    assert Served(b, r, 1, xs).mine == b.mine + 1 by {
      assert Served(b, r, 0, xs) == b;
    }
    assert Served(b, r, 2, xs).mine == b.mine + 2;
  }

  lemma EagerDropped(r: Request)
    requires CanRetry(r)
    ensures var xs := [EAGER, EAGER];
            Try(EMPTY, r, false, xs).sends == [Sent("t", r)] + Try(EMPTY, r, true, [EAGER]).sends
  {
    var xs := [EAGER, EAGER];
    assert xs[1..] == [EAGER];
    var c := Step(EMPTY, Get(0, 0, Some(Grant("t", 1))));
    assert c.token == "t";
    assert Steps(c, []) == c && Step(c, Drop("t")) == EMPTY;
  }

  /**
   Whatever the server, the other callers and the token cache do, a request creates at
   most one order exactly when it is never repeated or its body holds the key the
   server recognises it by.
   */
  lemma AtMostOneOrder(r: Request)
    ensures (forall c: Cache, b: Book, xs: seq<Exchange> :: |xs| == 2 ==> AtMostOne(c, b, r, xs)) <==> Safe(r)
  {
    if Safe(r) {
      forall c: Cache, b: Book, xs: seq<Exchange> | |xs| == 2
        ensures AtMostOne(c, b, r, xs)
      {
        SafeCreatesOne(c, b, r, xs);
      }
    } else {
      var b := Book({}, 0);
      UnsafeCreatesTwo(b, r);
      assert !AtMostOne(EMPTY, b, r, [EAGER, EAGER]);
    }
  }
}
