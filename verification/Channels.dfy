/**
 A buffered Go channel and `pushLossy` (stream/stream.go), first with one producer
 and any consumer, which may receive between any two selects of the producer, then
 with other producers between them as well.
 */
module Channels {
  import opened Wrappers

  /** `received` is everything consumers have taken so far, oldest first. */
  datatype Queue<T> = Queue(cap: nat, buffer: seq<T>, received: seq<T>)

  predicate Sane<T>(q: Queue<T>) {
    |q.buffer| <= q.cap
  }

  predicate Full<T>(q: Queue<T>) {
    |q.buffer| >= q.cap
  }

  function Consume<T>(q: Queue<T>, n: nat): Queue<T> {
    var k := Min(n, |q.buffer|);
    q.(buffer := q.buffer[k..], received := q.received + q.buffer[..k])
  }

  /** A send with a default branch. */
  function Offer<T>(q: Queue<T>, x: T): Queue<T> {
    if Full(q) then q else q.(buffer := q.buffer + [x])
  }

  /** A receive with a default branch whose value is thrown away. */
  function Discard<T>(q: Queue<T>): Queue<T> {
    if q.buffer == [] then q else q.(buffer := q.buffer[1..])
  }

  /** One push: what the consumer takes before each of the three selects. */
  datatype Push<T> = Push(x: T, first: nat, second: nat, third: nat)

  function PushOne<T>(q: Queue<T>, p: Push<T>): Queue<T> {
    var a := Consume(q, p.first);
    if !Full(a) then Offer(a, p.x)
    else Offer(Consume(Discard(Consume(a, p.second)), p.third), p.x)
  }

  function PushAll<T>(q: Queue<T>, ps: seq<Push<T>>): Queue<T>
    decreases |ps|
  {
    if ps == [] then q else PushOne(PushAll(q, ps[..|ps| - 1]), ps[|ps| - 1])
  }

  class Channel<T> {
    const cap: nat
    var buffer: seq<T>
    ghost var received: seq<T>

    constructor (cap: nat)
      ensures Abs() == Queue(cap, [], []) && this.cap == cap
    {
      this.cap := cap;
      buffer, received := [], [];
    }

    ghost function Abs(): Queue<T>
      reads this
    {
      Queue(cap, buffer, received)
    }

    /** Up to `n` receives by the consumer. */
    method Receive(n: nat) returns (xs: seq<T>)
      modifies this
      ensures Abs() == Consume(old(Abs()), n)
      ensures old(Abs()).received + xs == Abs().received
    {
      xs := [];
      while |xs| < n && buffer != []
        invariant |xs| <= n && |xs| <= |old(buffer)|
        invariant xs == old(buffer)[..|xs|] && buffer == old(buffer)[|xs|..]
        invariant received == old(received) + xs
        decreases |buffer|
      {
        xs, received := xs + [buffer[0]], received + [buffer[0]];
        buffer := buffer[1..];
      }
    }

    method TrySend(x: T) returns (sent: bool)
      modifies this
      ensures sent == !Full(old(Abs())) && Abs() == Offer(old(Abs()), x)
    {
      sent := |buffer| < cap;
      if sent {
        buffer := buffer + [x];
      }
    }

    method TryDiscard()
      modifies this
      ensures Abs() == Discard(old(Abs()))
    {
      if buffer != [] {
        buffer := buffer[1..];
      }
    }

    /** `pushLossy`: three selects, none of which blocks. */
    method PushLossy(p: Push<T>)
      modifies this
      ensures Abs() == PushOne(old(Abs()), p)
    {
      var _ := Receive(p.first);
      var sent := TrySend(p.x);
      if !sent {
        var _ := Receive(p.second);
        TryDiscard();
        var _ := Receive(p.third);
        var _ := TrySend(p.x);
      }
    }
  }

  // ------------------------------------------------------------- properties

  lemma {:induction false} StaysSane<T>(q: Queue<T>, ps: seq<Push<T>>)
    requires Sane(q)
    ensures Sane(PushAll(q, ps)) && PushAll(q, ps).cap == q.cap
    decreases |ps|
  {
    if ps != [] {
      StaysSane(q, ps[..|ps| - 1]);
    }
  }

  /** What has been delivered or can still be, oldest first. */
  function Kept<T>(q: Queue<T>): seq<T> {
    q.received + q.buffer
  }

  function Pushed<T>(ps: seq<Push<T>>): seq<T> {
    seq(|ps|, i requires 0 <= i < |ps| => ps[i].x)
  }

  /** `at` places the elements of `a` in `b`, in order. */
  ghost predicate Embeds<T>(a: seq<T>, b: seq<T>, at: seq<nat>) {
    && |at| == |a|
    && (forall i :: 0 <= i < |at| ==> at[i] < |b| && a[i] == b[at[i]])
    && forall i, j :: 0 <= i < j < |at| ==> at[i] < at[j]
  }

  function Without<T>(s: seq<T>, k: nat): seq<T>
    requires k < |s|
  {
    s[..k] + s[k + 1..]
  }

  lemma ConsumeKeeps<T>(q: Queue<T>, n: nat)
    ensures Kept(Consume(q, n)) == Kept(q)
    ensures |Consume(q, n).received| == |q.received| + Min(n, |q.buffer|)
  {
    var k := Min(n, |q.buffer|);
    assert q.buffer == q.buffer[..k] + q.buffer[k..];
    assert q.received + q.buffer == (q.received + q.buffer[..k]) + q.buffer[k..];
  }

  lemma DiscardLosesOldest<T>(q: Queue<T>)
    requires q.buffer != []
    ensures Kept(Discard(q)) == Without(Kept(q), |q.received|)
  {
  }

  lemma OfferAppends<T>(q: Queue<T>, x: T)
    requires !Full(q)
    ensures Kept(Offer(q, x)) == Kept(q) + [x] && Offer(q, x).buffer == q.buffer + [x]
  {
    assert q.received + (q.buffer + [x]) == (q.received + q.buffer) + [x];
  }

  /** How a push changes what is kept: it appends, and may lose the element at `gap`. */
  ghost predicate Appends<T>(q: Queue<T>, x: T, r: Queue<T>, lost: bool, gap: nat) {
    && r.buffer != []
    && (lost ==> Full(q) && |q.received| <= gap < |Kept(q)|)
    && Kept(r) == (if lost then Without(Kept(q), gap) else Kept(q)) + [x]
  }

  /** A push appends its event; it loses one only if the buffer was full, and then the oldest one not yet received. */
  lemma PushKeeps<T>(q: Queue<T>, p: Push<T>) returns (lost: bool)
    requires Sane(q) && q.cap >= 1
    ensures Appends(q, p.x, PushOne(q, p), lost, |q.received| + p.second)
  {
    var a := Consume(q, p.first);
    ConsumeKeeps(q, p.first);
    lost := false;
    if !Full(a) {
      OfferAppends(a, p.x);
    } else {
      assert a == q;
      var b := Consume(a, p.second);
      ConsumeKeeps(a, p.second);
      var c := Discard(b);
      if b.buffer != [] {
        lost := true;
        DiscardLosesOldest(b);
      }
      ConsumeKeeps(c, p.third);
      OfferAppends(Consume(c, p.third), p.x);
    }
  }

  lemma EmbedsMore<T>(a: seq<T>, b: seq<T>, at: seq<nat>, x: T)
    requires Embeds(a, b, at)
    ensures Embeds(a + [x], b + [x], at + [|b|])
  {
  }

  lemma EmbedsLess<T>(a: seq<T>, b: seq<T>, at: seq<nat>, k: nat)
    requires Embeds(a, b, at) && k < |a|
    ensures Embeds(Without(a, k), b, Without(at, k))
  {
  }

  lemma PushedGrows<T>(ps: seq<Push<T>>)
    requires ps != []
    ensures Pushed(ps) == Pushed(ps[..|ps| - 1]) + [ps[|ps| - 1].x]
  {
  }

  lemma EmbedsPush<T>(kept: seq<T>, pushed: seq<T>, at: seq<nat>, x: T, lost: bool, gap: nat) returns (more: seq<nat>)
    requires Embeds(kept, pushed, at) && (lost ==> gap < |kept|)
    ensures Embeds((if lost then Without(kept, gap) else kept) + [x], pushed + [x], more)
    ensures more != [] && more[|more| - 1] == |pushed|
  {
    if lost {
      EmbedsLess(kept, pushed, at, gap);
      EmbedsMore(Without(kept, gap), pushed, Without(at, gap), x);
      more := Without(at, gap) + [|pushed|];
    } else {
      EmbedsMore(kept, pushed, at, x);
      more := at + [|pushed|];
    }
  }

  /**
   With one producer, any consumer and room for at least one event: what is received
   and what is left in the buffer together are, in order, events that were pushed,
   and the newest push is always the last of them.
   */
  lemma {:induction false} LossyKeepsOrder<T>(cap: nat, ps: seq<Push<T>>) returns (at: seq<nat>)
    requires cap >= 1
    ensures var q := PushAll(Queue(cap, [], []), ps);
            && Embeds(Kept(q), Pushed(ps), at)
            && (ps != [] ==> at != [] && at[|at| - 1] == |ps| - 1)
    decreases |ps|
  {
    if ps == [] {
      at := [];
    } else {
      var init, p := ps[..|ps| - 1], ps[|ps| - 1];
      at := LossyKeepsOrder(cap, init);
      StaysSane(Queue(cap, [], []), init);
      PushedGrows(ps);
      at := EmbedsNext(PushAll(Queue(cap, [], []), init), p, Pushed(init), at);
    }
  }

  lemma EmbedsAppend<T>(q: Queue<T>, x: T, r: Queue<T>, lost: bool, gap: nat, pushed: seq<T>, at: seq<nat>)
    returns (more: seq<nat>)
    requires Appends(q, x, r, lost, gap) && Embeds(Kept(q), pushed, at)
    ensures Embeds(Kept(r), pushed + [x], more)
    ensures more != [] && more[|more| - 1] == |pushed|
  {
    more := EmbedsPush(Kept(q), pushed, at, x, lost, gap);
  }

  lemma EmbedsNext<T>(q: Queue<T>, p: Push<T>, pushed: seq<T>, at: seq<nat>) returns (more: seq<nat>)
    requires Sane(q) && q.cap >= 1 && Embeds(Kept(q), pushed, at)
    ensures Embeds(Kept(PushOne(q, p)), pushed + [p.x], more)
    ensures more != [] && more[|more| - 1] == |pushed|
  {
    var lost := PushKeeps(q, p);
    more := EmbedsAppend(q, p.x, PushOne(q, p), lost, |q.received| + p.second, pushed, at);
  }

  function Suffix<T>(s: seq<T>, n: nat): seq<T> {
    if |s| <= n then s else s[|s| - n..]
  }

  /** Without a consumer the buffer holds exactly the last `cap` pushes. */
  lemma {:induction false} LossyKeepsNewest<T>(cap: nat, ps: seq<Push<T>>)
    requires forall p :: p in ps ==> p.first == 0 && p.second == 0 && p.third == 0
    ensures PushAll(Queue(cap, [], []), ps) == Queue(cap, Suffix(Pushed(ps), cap), [])
    decreases |ps|
  {
    if ps == [] {
      assert Pushed(ps) == [];
    } else {
      var init, p := ps[..|ps| - 1], ps[|ps| - 1];
      assert p in ps;
      LossyKeepsNewest(cap, init);
      PushedGrows(ps);
      var q := PushAll(Queue(cap, [], []), init);
      assert q == Queue(cap, Suffix(Pushed(init), cap), []);
      assert Consume(q, 0) == q;
      if Full(q) {
        assert Consume(Discard(q), 0) == Discard(q);
      }
      assert PushOne(q, p).buffer == Suffix(Pushed(ps), cap);
    }
  }

  /** The newest push survives every run exactly when there is room for one event: `New` never allows less. */
  lemma RoomForNewest<T>(cap: nat, x: T)
    ensures (forall ps: seq<Push<T>> :: NewestKept(cap, ps, x)) <==> cap >= 1
  {
    if cap >= 1 {
      forall ps: seq<Push<T>>
        ensures NewestKept(cap, ps, x)
      {
        var at := LossyKeepsOrder(cap, ps + [Push(x, 0, 0, 0)]);
        var all := ps + [Push(x, 0, 0, 0)];
        assert Pushed(all)[|ps|] == x;
      }
    } else {
      LossyKeepsNewest(0, [Push(x, 0, 0, 0)]);
      assert [] + [Push(x, 0, 0, 0)] == [Push(x, 0, 0, 0)];
      assert !NewestKept(cap, [], x);
    }
  }

  ghost predicate NewestKept<T>(cap: nat, ps: seq<Push<T>>, x: T) {
    var kept := Kept(PushAll(Queue(cap, [], []), ps + [Push(x, 0, 0, 0)]));
    kept != [] && kept[|kept| - 1] == x
  }

  // --------------------------------------------------------- other producers

  /** What others can do between two selects: receive an event, discard one, or send one. */
  datatype Act<T> = Take | Toss | Put(y: T)

  function Acted<T>(q: Queue<T>, acts: seq<Act<T>>): Queue<T>
    decreases |acts|
  {
    if acts == [] then q
    else
      var a := acts[0];
      var r := match a case Take => Consume(q, 1) case Toss => Discard(q) case Put(y) => Offer(q, y);
      Acted(r, acts[1..])
  }

  /** The channel before the last select of a push that found it full. */
  function Contended<T>(q: Queue<T>, second: seq<Act<T>>, third: seq<Act<T>>): Queue<T> {
    Acted(Discard(Acted(q, second)), third)
  }

  predicate Quiet<T>(acts: seq<Act<T>>) {
    forall i :: 0 <= i < |acts| ==> !acts[i].Put?
  }

  lemma {:induction false} ActedSane<T>(q: Queue<T>, acts: seq<Act<T>>)
    requires Sane(q)
    ensures Sane(Acted(q, acts)) && Acted(q, acts).cap == q.cap
    decreases |acts|
  {
    if acts != [] {
      var a := acts[0];
      ActedSane(match a case Take => Consume(q, 1) case Toss => Discard(q) case Put(y) => Offer(q, y), acts[1..]);
    }
  }

  lemma {:induction false} QuietNeverFills<T>(q: Queue<T>, acts: seq<Act<T>>)
    requires !Full(q) && Quiet(acts)
    ensures !Full(Acted(q, acts))
    decreases |acts|
  {
    if acts != [] {
      var a := acts[0];
      assert !acts[0].Put?;
      QuietNeverFills(if a.Take? then Consume(q, 1) else Discard(q), acts[1..]);
    }
  }

  /**
   A push gives up its own event only to another producer: the last select finds room
   whatever happened before, unless someone sends between it and the discard.
   */
  lemma YieldsOnlyToSend<T>(q: Queue<T>, second: seq<Act<T>>, third: seq<Act<T>>)
    requires Sane(q) && q.cap >= 1 && Quiet(third)
    ensures !Full(Contended(q, second, third))
  {
    ActedSane(q, second);
    QuietNeverFills(Discard(Acted(q, second)), third);
  }

  /** With a second producer the newest event can be given up, for every capacity. */
  lemma NewestCanYield<T>(q: Queue<T>, x: T, y: T)
    requires Sane(q) && Full(q) && q.cap >= 1
    ensures Kept(Offer(Contended(q, [], [Put(y)]), x)) == Without(Kept(q), |q.received|) + [y]
  {
    var d := Discard(q);
    DiscardLosesOldest(q);
    OfferAppends(d, y);
    var acts := [Put(y)];
    assert acts[1..] == [];
    assert Acted(d, acts) == Offer(d, y);
    assert Full(Offer(d, y));
  }
}
