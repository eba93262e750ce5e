/**
 The user channels: `decodeFrame` and the event decoders (stream/frames.go),
 `dispatch` and the message side of `readLoop` (stream/stream.go); for the order
 channel over any number of connections. A frame's JSON is represented by what
 decoding it yields.
 */
module Orders {
  import opened Wrappers
  import opened Topics
  import opened Channels
  import opened Redialling

  /** The body of an order message; `details` stands for the order itself. */
  datatype OrderData = OrderData(event: string, orderId: string, details: nat)

  datatype OrderEvent = OrderEvent(event: string, account: int, orderId: string, details: nat)

  /** A trade or an orderbook; `details` stands for its values. */
  datatype QuoteEvent = QuoteEvent(market: string, symbol: string, details: nat)

  /** What the data is when read as an order, and when read as a complete trade or an orderbook. */
  datatype Data = NoData | Data(order: Option<OrderData>, quote: Option<nat>)

  /** `code` is None when the frame has no error object. */
  datatype Wire = Wire(typ: string, topic: string, data: Data, code: Option<string>)

  datatype Message = Binary | Garbled | Text(wire: Wire)

  datatype Frame =
    | Subscriptions
    | Event(topic: string, data: Data)
    | Problem(code: string)
    | Pong
    | Unknown

  /** `decodeFrame`: None is a decoding error, which is only reported. */
  function Decode(w: Wire): Option<Frame> {
    if w.typ == "subscriptions" then Some(Subscriptions)
    else if w.typ == "message" then
      if w.topic == "" || w.data.NoData? then None else Some(Event(w.topic, w.data))
    else if w.typ == "error" then
      Some(Problem(if w.code.Some? && w.code.value != "" then w.code.value else "unknown"))
    else if w.typ == "pong" then Some(Pong)
    else Some(Unknown)
  }

  function TopicKind(topic: string): string {
    var split := SplitTopic(topic);
    if split == None then "" else split.value.0
  }

  /** `orderEvent`: None is an error, which is only reported. */
  function ToOrder(topic: string, data: Data): Option<OrderEvent> {
    var split := SplitTopic(topic);
    if split == None || split.value.0 != "personal:order" then None
    else if data.NoData? || data.order == None then None
    else
      var seqNo := ParseInt64(split.value.1);
      var o := data.order.value;
      if seqNo == None then None
      else if o.event == "" || o.orderId == "" then None
      else Some(OrderEvent(o.event, seqNo.value, o.orderId, o.details))
  }

  /** `strings.ToUpper` on ASCII. */
  function Upper(s: string): string {
    seq(|s|, i requires 0 <= i < |s| => if 'a' <= s[i] <= 'z' then (s[i] as int - 32) as char else s[i])
  }

  /** `tradeEvent` and `orderbookEvent`, with `marketSymbol`. */
  function ToQuote(prefix: string, topic: string, data: Data): Option<QuoteEvent> {
    var split := SplitTopic(topic);
    if split == None || !(prefix + ":" <= split.value.0) then None
    else if data.NoData? || data.quote == None then None
    else Some(QuoteEvent(Upper(split.value.0[|prefix| + 1..]), split.value.1, data.quote.value))
  }

  /** The topic of an account's orders. */
  ghost predicate OrderTopic(topic: string, account: int) {
    exists code :: topic == FullKey("personal:order", code) && Codable(code) && ParseInt64(code) == Some(account)
  }

  /** A well-formed order frame for `ev`; everything else is no order. */
  ghost predicate Carries(m: Message, ev: OrderEvent) {
    && m.Text? && m.wire.typ == "message" && OrderTopic(m.wire.topic, ev.account)
    && m.wire.data.Data? && m.wire.data.order == Some(OrderData(ev.event, ev.orderId, ev.details))
    && ev.event != "" && ev.orderId != ""
  }

  /** The channel a topic belongs to. */
  datatype Kind = Trades | Orderbooks | PersonalOrders | Unhandled

  function KindOf(topic: string): Kind {
    var kind := TopicKind(topic);
    if kind == "trade:kr" || kind == "trade:us" then Trades
    else if kind == "orderbook:kr" || kind == "orderbook:us" then Orderbooks
    else if kind == "personal:order" then PersonalOrders
    else Unhandled
  }

  /** What one frame means to the reader. */
  datatype Reaction = Deliver(ev: OrderEvent) | Quote(kind: Kind, quote: QuoteEvent) | Announce | Pass

  function Quoted(kind: Kind, quote: Option<QuoteEvent>): Reaction {
    if quote == None then Pass else Quote(kind, quote.value)
  }

  function Route(topic: string, data: Data): Reaction {
    match KindOf(topic)
    case Trades => Quoted(Trades, ToQuote("trade", topic, data))
    case Orderbooks => Quoted(Orderbooks, ToQuote("orderbook", topic, data))
    case PersonalOrders =>
      var ev := ToOrder(topic, data);
      if ev == None then Pass else Deliver(ev.value)
    case Unhandled => Pass
  }

  function React(m: Message): Reaction {
    if !m.Text? || Decode(m.wire) == None then Pass
    else
      var f := Decode(m.wire).value;
      if f.Problem? && f.code == "server-shutdown" then Announce
      else if f.Event? then Route(f.topic, f.data)
      else Pass
  }

  /** The account an order topic names is what the split finds. */
  lemma OrderTopicSplits(topic: string, account: int)
    ensures OrderTopic(topic, account)
            <==> SplitTopic(topic).Some? && SplitTopic(topic).value.0 == "personal:order"
                 && ParseInt64(SplitTopic(topic).value.1) == Some(account)
  {
    if OrderTopic(topic, account) {
      var code :| topic == FullKey("personal:order", code) && Codable(code) && ParseInt64(code) == Some(account);
      SplitInverts("personal:order", code);
    }
    if SplitTopic(topic).Some? && SplitTopic(topic).value.0 == "personal:order" {
      SplitSound(topic);
      assert topic == FullKey("personal:order", SplitTopic(topic).value.1);
    }
  }

  lemma OrderRead(topic: string, data: Data, ev: OrderEvent)
    ensures TopicKind(topic) == "personal:order" && ToOrder(topic, data) == Some(ev)
            <==> OrderTopic(topic, ev.account) && data.Data?
                 && data.order == Some(OrderData(ev.event, ev.orderId, ev.details)) && ev.event != "" && ev.orderId != ""
  {
    OrderTopicSplits(topic, ev.account);
  }

  lemma DecodesEvents(w: Wire)
    ensures Decode(w).Some? && Decode(w).value.Event?
            <==> w.typ == "message" && w.topic != "" && w.data.Data?
    ensures Decode(w).Some? && Decode(w).value.Event? ==> Decode(w).value == Event(w.topic, w.data)
  {
    assert w.typ == "message" ==> |w.typ| == 7 && w.typ != "subscriptions";
  }

  lemma KindsApart(topic: string)
    ensures KindOf(topic) == PersonalOrders <==> TopicKind(topic) == "personal:order"
    ensures KindOf(topic) == Orderbooks <==> TopicKind(topic) == "orderbook:kr" || TopicKind(topic) == "orderbook:us"
  {
    var kind := TopicKind(topic);
    if kind == "personal:order" {
      assert |kind| == 14;
    } else if kind == "orderbook:kr" || kind == "orderbook:us" {
      assert |kind| == 12;
    }
  }

  lemma Reacts(w: Wire, r: Reaction)
    requires r.Deliver? || r.Quote?
    ensures React(Text(w)) == r
            <==> Decode(w).Some? && Decode(w).value.Event? && Route(w.topic, w.data) == r
  {
    DecodesEvents(w);
  }

  /** Exactly the well-formed order frames are delivered, with their own contents. */
  lemma DeliversExactly(m: Message, ev: OrderEvent)
    ensures React(m) == Deliver(ev) <==> Carries(m, ev)
  {
    if m.Text? {
      Reacts(m.wire, Deliver(ev));
      DecodesEvents(m.wire);
      KindsApart(m.wire.topic);
      OrderRead(m.wire.topic, m.wire.data, ev);
      if OrderTopic(m.wire.topic, ev.account) {
        assert |m.wire.topic| > 0;
      }
    }
  }

  /** The topic type of a market's trades or orderbooks. */
  predicate MarketTopic(kind: Kind, typ: string, market: string) {
    || (kind == Trades && ((typ == "trade:kr" && market == "KR") || (typ == "trade:us" && market == "US")))
    || (kind == Orderbooks && ((typ == "orderbook:kr" && market == "KR") || (typ == "orderbook:us" && market == "US")))
  }

  /** A message with a complete quote on the topic of its market and symbol. */
  ghost predicate CarriesQuote(m: Message, kind: Kind, ev: QuoteEvent) {
    && m.Text? && m.wire.typ == "message" && m.wire.data.Data? && m.wire.data.quote == Some(ev.details)
    && Codable(ev.symbol)
    && exists typ :: MarketTopic(kind, typ, ev.market) && m.wire.topic == FullKey(typ, ev.symbol)
  }

  lemma Markets()
    ensures Upper("trade:kr"[6..]) == "KR" && Upper("trade:us"[6..]) == "US"
    ensures Upper("orderbook:kr"[10..]) == "KR" && Upper("orderbook:us"[10..]) == "US"
  {
    assert Upper("kr") == "KR" && Upper("us") == "US";
    assert "trade:kr"[6..] == "kr" && "trade:us"[6..] == "us";
    assert "orderbook:kr"[10..] == "kr" && "orderbook:us"[10..] == "us";
  }

  /** A topic of a market is routed to its channel, with its market and symbol. */
  lemma MarketRead(topic: string, data: Data, kind: Kind, ev: QuoteEvent)
    requires kind == Trades || kind == Orderbooks
    ensures Route(topic, data) == Quote(kind, ev)
            <==> SplitTopic(topic).Some? && MarketTopic(kind, SplitTopic(topic).value.0, ev.market)
                 && ev.symbol == SplitTopic(topic).value.1 && data.Data? && data.quote == Some(ev.details)
  {
    Markets();
    KindsApart(topic);
  }

  lemma SymbolSplits(topic: string, kind: Kind, ev: QuoteEvent)
    ensures Codable(ev.symbol) && (exists typ :: MarketTopic(kind, typ, ev.market) && topic == FullKey(typ, ev.symbol))
            <==> SplitTopic(topic).Some? && MarketTopic(kind, SplitTopic(topic).value.0, ev.market)
                 && ev.symbol == SplitTopic(topic).value.1
  {
    if Codable(ev.symbol) && exists typ :: MarketTopic(kind, typ, ev.market) && topic == FullKey(typ, ev.symbol) {
      var typ :| MarketTopic(kind, typ, ev.market) && topic == FullKey(typ, ev.symbol);
      SplitInverts(typ, ev.symbol);
    }
    if SplitTopic(topic).Some? {
      SplitSound(topic);
    }
  }

  /** Exactly the complete quotes of the two known markets are pushed, each to its own channel. */
  lemma QuotesExactly(m: Message, kind: Kind, ev: QuoteEvent)
    requires kind == Trades || kind == Orderbooks
    ensures React(m) == Quote(kind, ev) <==> CarriesQuote(m, kind, ev)
  {
    if m.Text? {
      Reacts(m.wire, Quote(kind, ev));
      DecodesEvents(m.wire);
      MarketRead(m.wire.topic, m.wire.data, kind, ev);
      SymbolSplits(m.wire.topic, kind, ev);
      assert CarriesQuote(m, kind, ev) ==> |m.wire.topic| > 0;
    }
  }

  /** An error frame with this very code announces a shutdown; nothing else does. */
  lemma AnnouncesExactly(m: Message)
    ensures React(m) == Announce
            <==> m.Text? && m.wire.typ == "error" && m.wire.code == Some("server-shutdown")
  {
    if m.Text? {
      DecodesProblems(m.wire);
    }
  }

  lemma DecodesProblems(w: Wire)
    ensures Decode(w).Some? && Decode(w).value.Problem? <==> w.typ == "error"
    ensures w.typ == "error" ==>
              Decode(w).value == Problem(if w.code.Some? && w.code.value != "" then w.code.value else "unknown")
  {
    assert w.typ == "error" ==> |w.typ| == 5;
    assert |"unknown"| == 7 && |"server-shutdown"| == 15;
  }

  /** What the consumer of a quote channel takes before each of the three selects of a push. */
  datatype Pulls = Pulls(first: nat, second: nat, third: nat)

  /** A frame as received, and how many events the consumers take before and while it is handled. */
  datatype Received = Received(m: Message, takes: nat, pulls: Pulls)

  /** The same with what the frame means to the reader. */
  datatype Arrival = Arrival(r: Reaction, takes: nat, pulls: Pulls)

  function Arrivals(frames: seq<Received>): (script: seq<Arrival>)
    ensures |script| == |frames|
  {
    if frames == [] then []
    else
      var f := frames[|frames| - 1];
      Arrivals(frames[..|frames| - 1]) + [Arrival(React(f.m), f.takes, f.pulls)]
  }

  lemma {:induction false} ArrivalAt(frames: seq<Received>, k: nat)
    requires k < |frames|
    ensures Arrivals(frames)[k] == Arrival(React(frames[k].m), frames[k].takes, frames[k].pulls)
    decreases |frames|
  {
    if k < |frames| - 1 {
      ArrivalAt(frames[..|frames| - 1], k);
    }
  }

  function PushOf(quote: QuoteEvent, pulls: Pulls): Push<QuoteEvent> {
    Push(quote, pulls.first, pulls.second, pulls.third)
  }

  /** The quotes of one kind in a stretch of frames, as pushes. */
  function Pushes(script: seq<Arrival>, kind: Kind): seq<Push<QuoteEvent>> {
    if script == [] then []
    else
      var a := script[|script| - 1];
      Pushes(script[..|script| - 1], kind)
      + (if a.r.Quote? && a.r.kind == kind then [PushOf(a.r.quote, a.pulls)] else [])
  }

  /** A quote channel after one more frame. */
  lemma PushesGrow(q: Queue<QuoteEvent>, script: seq<Arrival>, k: nat, kind: Kind, a: Arrival)
    requires k < |script| && script[k] == a
    ensures PushAll(q, Pushes(script[..k + 1], kind)) ==
            var r := PushAll(q, Pushes(script[..k], kind));
            if a.r.Quote? && a.r.kind == kind then PushOne(r, PushOf(a.r.quote, a.pulls)) else r
  {
    assert script[..k + 1][..k] == script[..k];
    var ps := Pushes(script[..k], kind);
    if a.r.Quote? && a.r.kind == kind {
      assert (ps + [PushOf(a.r.quote, a.pulls)])[..|ps|] == ps;
    } else {
      assert ps + [] == ps;
    }
  }

  datatype Reading = Reading(q: Queue<OrderEvent>, handled: nat, why: Why)

  /** `readLoop` on one connection; reading fails when the script ends. */
  function ReadAll(q: Queue<OrderEvent>, script: seq<Arrival>, shutdown: bool): Reading
    decreases |script|
  {
    if script == [] then Reading(q, 0, if shutdown then ServerShutdown else ReadError)
    else
      var c := Consume(q, script[0].takes);
      var reaction := script[0].r;
      if reaction.Deliver? && Full(c) then Reading(c, 0, Backpressure)
      else
        var d := if reaction.Deliver? then Offer(c, reaction.ev) else c;
        var rest := ReadAll(d, script[1..], shutdown || reaction.Announce?);
        rest.(handled := rest.handled + 1)
  }

  /** What `dispatch` does to a lossy channel. */
  ghost predicate PushedTo(before: Queue<QuoteEvent>, after: Queue<QuoteEvent>, kind: Kind, r: Reaction, pulls: Pulls) {
    after == if r.Quote? && r.kind == kind then PushOne(before, PushOf(r.quote, pulls)) else before
  }

  /** `dispatch`: false only for an order event that finds the channel full. */
  method Dispatch(orders: Channel<OrderEvent>, trades: Channel<QuoteEvent>, books: Channel<QuoteEvent>,
                  topic: string, data: Data, pulls: Pulls) returns (ok: bool)
    requires trades != books
    modifies orders, trades, books
    ensures var r := Route(topic, data);
            && ok == !(r.Deliver? && Full(old(orders.Abs())))
            && orders.Abs() == (if r.Deliver? then Offer(old(orders.Abs()), r.ev) else old(orders.Abs()))
            && PushedTo(old(trades.Abs()), trades.Abs(), Trades, r, pulls)
            && PushedTo(old(books.Abs()), books.Abs(), Orderbooks, r, pulls)
  {
    ok := true;
    match KindOf(topic) {
      case Trades =>
        var ev := ToQuote("trade", topic, data);
        if ev.Some? {
          trades.PushLossy(PushOf(ev.value, pulls));
        }
      case Orderbooks =>
        var ev := ToQuote("orderbook", topic, data);
        if ev.Some? {
          books.PushLossy(PushOf(ev.value, pulls));
        }
      case PersonalOrders =>
        var ev := ToOrder(topic, data);
        if ev.Some? {
          ok := orders.TrySend(ev.value);
        }
      case Unhandled =>
    }
  }

  /** How one frame moves the reading on. */
  lemma ReadOne(q: Queue<OrderEvent>, script: seq<Arrival>, k: nat, shutdown: bool, a: Arrival)
    requires k < |script| && script[k] == a
    ensures var c := Consume(q, a.takes);
            ReadAll(q, script[k..], shutdown) ==
            if a.r.Deliver? && Full(c) then Reading(c, 0, Backpressure)
            else var rest := ReadAll(if a.r.Deliver? then Offer(c, a.r.ev) else c, script[k + 1..], shutdown || a.r.Announce?);
                 rest.(handled := rest.handled + 1)
  {
    assert script[k..][0] == a && script[k..][1..] == script[k + 1..];
  }

  /** One turn of `readLoop`: what it does with frame k. */
  method Handle(orders: Channel<OrderEvent>, trades: Channel<QuoteEvent>, books: Channel<QuoteEvent>,
                frames: seq<Received>, k: nat) returns (ok: bool, shutdown: bool)
    requires trades != books && k < |frames|
    modifies orders, trades, books
    ensures var a := Arrivals(frames)[k];
            var q := Consume(old(orders.Abs()), a.takes);
            && ok == !(a.r.Deliver? && Full(q)) && shutdown == a.r.Announce?
            && orders.Abs() == (if a.r.Deliver? then Offer(q, a.r.ev) else q)
            && PushedTo(old(trades.Abs()), trades.Abs(), Trades, a.r, a.pulls)
            && PushedTo(old(books.Abs()), books.Abs(), Orderbooks, a.r, a.pulls)
  {
    ArrivalAt(frames, k);
    ok, shutdown := true, false;
    var _ := orders.Receive(frames[k].takes);
    var m := frames[k].m;
    if m.Text? {
      var f := Decode(m.wire);
      if f.Some? {
        if f.value.Problem? && f.value.code == "server-shutdown" {
          shutdown := true;
        } else if f.value.Event? {
          ok := Dispatch(orders, trades, books, f.value.topic, f.value.data, frames[k].pulls);
        }
      }
    }
  }

  /** The message side of `readLoop`; `handled` counts the frames before the one that was dropped, if any. */
  method ReadLoop(orders: Channel<OrderEvent>, trades: Channel<QuoteEvent>, books: Channel<QuoteEvent>,
                  frames: seq<Received>) returns (handled: nat, why: Why)
    requires trades != books
    modifies orders, trades, books
    ensures Reading(orders.Abs(), handled, why) == ReadAll(old(orders.Abs()), Arrivals(frames), false)
    ensures handled <= |frames|
    ensures trades.Abs() == PushAll(old(trades.Abs()), Pushes(Arrivals(frames)[..handled], Trades))
    ensures books.Abs() == PushAll(old(books.Abs()), Pushes(Arrivals(frames)[..handled], Orderbooks))
  {
    var shutdown := false;
    ghost var script := Arrivals(frames);
    handled := 0;
    while handled < |frames|
      invariant handled <= |frames|
      invariant ReadAll(old(orders.Abs()), script, false)
                == var rest := ReadAll(orders.Abs(), script[handled..], shutdown); rest.(handled := rest.handled + handled)
      invariant trades.Abs() == PushAll(old(trades.Abs()), Pushes(script[..handled], Trades))
      invariant books.Abs() == PushAll(old(books.Abs()), Pushes(script[..handled], Orderbooks))
    {
      ghost var arrival := script[handled];
      ReadOne(orders.Abs(), script, handled, shutdown, arrival);
      PushesGrow(old(trades.Abs()), script, handled, Trades, arrival);
      PushesGrow(old(books.Abs()), script, handled, Orderbooks, arrival);
      var ok, announced := Handle(orders, trades, books, frames, handled);
      if !ok {
        return handled, Backpressure;
      }
      shutdown := shutdown || announced;
      handled := handled + 1;
    }
    why := if shutdown then ServerShutdown else ReadError;
  }

  // ------------------------------------------------------------- properties

  /** The order events a stretch of frames carries, in order. */
  function Events(script: seq<Arrival>): seq<OrderEvent> {
    if script == [] then []
    else
      var r := script[0].r;
      (if r.Deliver? then [r.ev] else []) + Events(script[1..])
  }

  predicate Announced(script: seq<Arrival>) {
    exists i :: 0 <= i < |script| && script[i].r.Announce?
  }

  /** What one connection did to the order channel. */
  ghost predicate GapFree(q: Queue<OrderEvent>, script: seq<Arrival>, r: Reading) {
    && Sane(r.q) && r.q.cap == q.cap && r.handled <= |script|
    && Kept(r.q) == Kept(q) + Events(script[..r.handled])
  }

  /** And why it ended. */
  ghost predicate Explained(script: seq<Arrival>, shutdown: bool, r: Reading) {
    && r.handled <= |script|
    && (r.why == Backpressure <==> r.handled < |script|)
    && (r.why == Backpressure ==> script[r.handled].r.Deliver? && Full(r.q))
    && (r.why == ServerShutdown <==> r.handled == |script| && (shutdown || Announced(script)))
  }

  lemma EventsOfMore(script: seq<Arrival>, n: nat)
    requires n < |script|
    ensures var r := script[0].r;
            Events(script[..n + 1]) == (if r.Deliver? then [r.ev] else []) + Events(script[1..][..n])
  {
    assert script[..n + 1][1..] == script[1..][..n];
  }

  /** What one frame that is not dropped does to the channel. */
  lemma OneFrame(q: Queue<OrderEvent>, a: Arrival)
    requires Sane(q)
    ensures var c, r := Consume(q, a.takes), a.r;
            r.Deliver? && !Full(c) ==> Kept(Offer(c, r.ev)) == Kept(q) + [r.ev]
    ensures Kept(Consume(q, a.takes)) == Kept(q)
  {
    ConsumeKeeps(q, a.takes);
    var c, r := Consume(q, a.takes), a.r;
    if r.Deliver? && !Full(c) {
      OfferAppends(c, r.ev);
    }
  }

  lemma OneMore(q: Queue<OrderEvent>, d: Queue<OrderEvent>, script: seq<Arrival>, rest: Reading)
    requires script != [] && d.cap == q.cap && GapFree(d, script[1..], rest)
    requires var r := script[0].r;
             Kept(d) == (if r.Deliver? then Kept(q) + [r.ev] else Kept(q))
    ensures GapFree(q, script, rest.(handled := rest.handled + 1))
  {
    EventsOfMore(script, rest.handled);
    var r := script[0].r;
    var more := Events(script[1..][..rest.handled]);
    if r.Deliver? {
      assert (Kept(q) + [r.ev]) + more == Kept(q) + ([r.ev] + more);
    } else {
      assert [] + more == more;
    }
  }

  /**
   On one connection the order channel gets exactly the well-formed order frames
   read, in order and without a gap, up to the first that finds it full.
   */
  lemma {:induction false} ReadGapFree(q: Queue<OrderEvent>, script: seq<Arrival>, shutdown: bool)
    requires Sane(q)
    ensures GapFree(q, script, ReadAll(q, script, shutdown))
    decreases |script|
  {
    if script == [] {
      assert Events(script[..0]) == [];
    } else {
      OneFrame(q, script[0]);
      var c := Consume(q, script[0].takes);
      var reaction := script[0].r;
      if reaction.Deliver? && Full(c) {
        assert Events(script[..0]) == [];
      } else {
        var d := if reaction.Deliver? then Offer(c, reaction.ev) else c;
        var rest := ReadAll(d, script[1..], shutdown || reaction.Announce?);
        ReadGapFree(d, script[1..], shutdown || reaction.Announce?);
        OneMore(q, d, script, rest);
      }
    }
  }

  lemma AnnouncedFirstOrLater(script: seq<Arrival>)
    requires script != []
    ensures Announced(script) <==> script[0].r.Announce? || Announced(script[1..])
  {
    if Announced(script[1..]) {
      var i :| 0 <= i < |script[1..]| && script[1..][i].r.Announce?;
      assert script[i + 1].r.Announce?;
    }
    if Announced(script) && !script[0].r.Announce? {
      var i :| 0 <= i < |script| && script[i].r.Announce?;
      assert script[1..][i - 1].r.Announce?;
    }
  }

  lemma ExplainMore(script: seq<Arrival>, shutdown: bool, rest: Reading)
    requires script != [] && Explained(script[1..], shutdown || script[0].r.Announce?, rest)
    ensures Explained(script, shutdown, rest.(handled := rest.handled + 1))
  {
    AnnouncedFirstOrLater(script);
    if rest.handled < |script[1..]| {
      assert script[1..][rest.handled] == script[rest.handled + 1];
    }
  }

  /**
   A connection ends with cause Backpressure exactly when it dropped an order event,
   which then found the channel full; with ServerShutdown exactly when it ended
   otherwise after such an announcement.
   */
  lemma {:induction false} ReadExplained(q: Queue<OrderEvent>, script: seq<Arrival>, shutdown: bool)
    ensures Explained(script, shutdown, ReadAll(q, script, shutdown))
    decreases |script|
  {
    if script != [] {
      var c := Consume(q, script[0].takes);
      var reaction := script[0].r;
      if !(reaction.Deliver? && Full(c)) {
        var d := if reaction.Deliver? then Offer(c, reaction.ev) else c;
        ReadExplained(d, script[1..], shutdown || reaction.Announce?);
        ExplainMore(script, shutdown, ReadAll(d, script[1..], shutdown || reaction.Announce?));
      }
    }
  }

  // -------------------------------------------------- over many connections

  datatype Connection = Connection(lived: nat, script: seq<Arrival>, dials: seq<Dial>)

  datatype Session = Session(s: State, q: Queue<OrderEvent>, readings: seq<Reading>)

  /** One connection: its frames are read, then `run` replaces it. */
  function ServeOnce(cfg: Config, x: Session, c: Connection): Session {
    var r := ReadAll(x.q, c.script, false);
    Session(LiveOnce(cfg, x.s, Life(c.lived, Some(r.why), c.dials)), r.q, x.readings + [r])
  }

  /** `run` with the order reader: one reading per connection that came up. */
  function Serve(cfg: Config, x: Session, conns: seq<Connection>): Session
    decreases |conns|
  {
    if !x.s.up || conns == [] then x else Serve(cfg, ServeOnce(cfg, x, conns[0]), conns[1..])
  }

  function Open(cap: nat): Session {
    Session(START, Queue(cap, [], []), [])
  }

  /** The events of the first n connections, each cut where its reader stopped. */
  function Delivered(conns: seq<Connection>, readings: seq<Reading>): seq<OrderEvent>
    requires |readings| <= |conns|
    requires forall k :: 0 <= k < |readings| ==> readings[k].handled <= |conns[k].script|
  {
    if readings == [] then []
    else
      var n := |readings| - 1;
      Delivered(conns, readings[..n]) + Events(conns[n].script[..readings[n].handled])
  }

  /** The channel holds and has delivered what the connections read so far were due. */
  ghost predicate Complete(cap: nat, x: Session, conns: seq<Connection>) {
    && Sane(x.q) && x.q.cap == cap
    && |x.readings| <= |conns|
    && (forall k :: 0 <= k < |x.readings| ==> Explained(conns[k].script, false, x.readings[k]))
    && Kept(x.q) == Delivered(conns, x.readings)
  }

  /** Each reconnection reports how the connection before it was read. */
  ghost predicate Reported(x: Session) {
    && |x.s.notices| <= |x.readings| <= |x.s.notices| + 1
    && (x.s.up ==> |x.readings| == |x.s.notices|)
    && forall k :: 0 <= k < |x.s.notices| ==> x.s.notices[k].cause == x.readings[k].why
  }

  ghost predicate Faithful(cap: nat, x: Session, conns: seq<Connection>) {
    Complete(cap, x, conns) && Reported(x)
  }

  lemma CompleteStep(cap: nat, x: Session, conns: seq<Connection>, s: State)
    requires Complete(cap, x, conns) && |x.readings| < |conns|
    ensures var r := ReadAll(x.q, conns[|x.readings|].script, false);
            Complete(cap, Session(s, r.q, x.readings + [r]), conns)
  {
    var c := conns[|x.readings|];
    var r := ReadAll(x.q, c.script, false);
    ReadGapFree(x.q, c.script, false);
    ReadExplained(x.q, c.script, false);
    var readings := x.readings + [r];
    assert readings[..|readings| - 1] == x.readings;
  }

  lemma ReportedStep(cfg: Config, x: Session, c: Connection, r: Reading)
    requires Reported(x) && x.s.up
    ensures Reported(Session(LiveOnce(cfg, x.s, Life(c.lived, Some(r.why), c.dials)), r.q, x.readings + [r]))
  {
    var life := Life(c.lived, Some(r.why), c.dials);
    OneNotice(cfg, x.s, life);
    var t := LiveOnce(cfg, x.s, life);
    if t.up {
      assert forall k :: 0 <= k < |x.s.notices| ==> t.notices[k] == t.notices[..|x.s.notices|][k];
    }
  }

  lemma ServeOnceFaithful(cfg: Config, cap: nat, x: Session, conns: seq<Connection>)
    requires Faithful(cap, x, conns) && x.s.up && |x.readings| < |conns|
    ensures var y := ServeOnce(cfg, x, conns[|x.readings|]);
            Faithful(cap, y, conns) && |y.readings| == |x.readings| + 1
  {
    var c := conns[|x.readings|];
    CompleteStep(cap, x, conns, ServeOnce(cfg, x, c).s);
    ReportedStep(cfg, x, c, ReadAll(x.q, c.script, false));
  }

  lemma ServeNext(cfg: Config, x: Session, conns: seq<Connection>, n: nat)
    requires x.s.up && n < |conns|
    ensures Serve(cfg, x, conns[n..]) == Serve(cfg, ServeOnce(cfg, x, conns[n]), conns[n + 1..])
  {
    assert conns[n..][0] == conns[n] && conns[n..][1..] == conns[n + 1..];
  }

  lemma {:induction false} ServeFaithful(cfg: Config, cap: nat, x: Session, conns: seq<Connection>)
    requires Faithful(cap, x, conns)
    ensures Faithful(cap, Serve(cfg, x, conns[|x.readings|..]), conns)
    decreases |conns| - |x.readings|
  {
    var n := |x.readings|;
    if x.s.up && n < |conns| {
      ServeNext(cfg, x, conns, n);
      ServeOnceFaithful(cfg, cap, x, conns);
      ServeFaithful(cfg, cap, ServeOnce(cfg, x, conns[n]), conns);
    }
  }

  /**
   Over any number of reconnections: what the consumer got and what still waits is,
   in order, every well-formed order frame read, except that each connection stops at
   its first frame that finds the channel full; and the reconnection after such a
   drop, and only that, carries Backpressure, however many dials failed before it.
   */
  lemma OrdersGapFree(cfg: Config, cap: nat, conns: seq<Connection>)
    ensures Faithful(cap, Serve(cfg, Open(cap), conns), conns)
  {
    assert conns[0..] == conns;
    ServeFaithful(cfg, cap, Open(cap), conns);
  }
}
