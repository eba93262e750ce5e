/**
 The state that stream/stream.go keeps under `s.mu`, together with the one-slot
 signal `declareCh`. Each critical section is a function on the value `Shared`;
 class `Stream` below carries them out in place and is proved equal to them.
 `W` is the waiter: an acknowledgement channel in the class, a plain name in the
 step machine of Protocol.dfy.
 */
module Declaring {
  import opened Wrappers
  import opened Mutations

  type Conn = nat

  /** A declaration id as it travels: "" , "d-n", or any other text a server may send. */
  datatype Id = NoId | Declared(n: nat) | Foreign(text: string)

  datatype Batch<W> = Batch(id: Id, waiters: seq<W>)

  datatype Shared<W> = Shared(
    pending: seq<W>,
    batches: seq<Batch<W>>,
    lastId: Id,
    lastAt: int,
    token: bool,
    conn: Option<Conn>)

  /** `minDeclareInterval`, in milliseconds. */
  const MIN_DECLARE_INTERVAL := 210

  function AllWaiters<W>(batches: seq<Batch<W>>): seq<W> {
    if batches == [] then []
    else AllWaiters(batches[..|batches| - 1]) + batches[|batches| - 1].waiters
  }

  function RegisterWaiter<W>(s: Shared<W>, w: W): Shared<W> {
    s.(pending := s.pending + [w], token := true)
  }

  function Drain<W>(s: Shared<W>): Shared<W> {
    s.(pending := [], token := false)
  }

  /** The empty declaration takes every batch along; nothing stays registered. */
  function CarryAll<W>(s: Shared<W>): Shared<W> {
    s.(batches := [])
  }

  function Carried<W>(s: Shared<W>, waiting: seq<W>): seq<W> {
    waiting + AllWaiters(s.batches)
  }

  /** Registration before the write: older batches are absorbed, the id becomes the last one. */
  function Announce<W>(s: Shared<W>, id: Id, waiting: seq<W>): Shared<W> {
    var carried := Carried(s, waiting);
    s.(lastId := id, batches := if carried == [] then [] else [Batch(id, carried)])
  }

  function RollBack<W>(s: Shared<W>, prev: Id): Shared<W> {
    s.(lastId := prev, batches := [])
  }

  function FailAll<W>(s: Shared<W>): Shared<W> {
    s.(pending := [], batches := [])
  }

  predicate Stale<W>(s: Shared<W>, id: Id) {
    id != NoId && s.lastId != NoId && id != s.lastId
  }

  /** The position of the first batch with this id, or the number of batches. */
  function FindBatch<W>(batches: seq<Batch<W>>, id: Id): (i: nat)
    ensures i <= |batches|
    ensures i < |batches| ==> batches[i].id == id
    ensures forall k :: 0 <= k < i ==> batches[k].id != id
  {
    if batches == [] || batches[0].id == id then 0 else 1 + FindBatch(batches[1..], id)
  }

  function TakeBatch<W>(s: Shared<W>, id: Id): Shared<W> {
    var i := FindBatch(s.batches, id);
    if id == NoId || i == |s.batches| then s
    else s.(batches := s.batches[..i] + s.batches[i + 1..])
  }

  function TakenBatch<W>(s: Shared<W>, id: Id): seq<W> {
    var i := FindBatch(s.batches, id);
    if id == NoId || i == |s.batches| then [] else s.batches[i].waiters
  }

  datatype AckResult = AckResult(rejected: seq<Key>, err: Option<string>)

  /** `chan ackResult` with one buffer slot. A send blocks unless the slot is empty. */
  class AckChan {
    var slot: Option<AckResult>

    constructor ()
      ensures slot == None
    {
      slot := None;
    }
  }

  predicate AllEmpty(chs: seq<AckChan>)
    reads chs
  {
    forall i :: 0 <= i < |chs| ==> chs[i].slot == None
  }

  predicate BatchesEmpty(batches: seq<Batch<AckChan>>)
    reads set b, ch | b in batches && ch in b.waiters :: ch
  {
    forall b, ch :: b in batches && ch in b.waiters ==> ch.slot == None
  }

  predicate AllHold(chs: seq<AckChan>, res: AckResult)
    reads chs
  {
    forall i :: 0 <= i < |chs| ==> chs[i].slot == Some(res)
  }

  predicate Distinct<T(==)>(xs: seq<T>) {
    forall i, j :: 0 <= i < j < |xs| ==> xs[i] != xs[j]
  }

  /**
   Sends `res` to each channel. No send blocks: the channels are distinct and
   empty, which is what waiter conservation (Protocol.dfy) provides.
   */
  method ResolveWaiters(chs: seq<AckChan>, res: AckResult)
    requires Distinct(chs) && AllEmpty(chs)
    modifies chs
    ensures AllHold(chs, res)
  {
    for i := 0 to |chs|
      invariant forall k :: 0 <= k < i ==> chs[k].slot == Some(res)
      invariant forall k :: i <= k < |chs| ==> chs[k].slot == None
    {
      assert chs[i].slot == None; // the send finds its slot free
      chs[i].slot := Some(res);
    }
  }

  /** The rejection a call reports: the first one in the ack that names one of its own keys. */
  method OwnRejection(keys: seq<Key>, rejected: seq<Key>) returns (hit: Option<Key>)
    ensures hit == None <==> forall k :: k in rejected ==> k !in keys
    ensures hit.Some? ==> exists i :: 0 <= i < |rejected| && rejected[i] == hit.value && FirstIn(keys, rejected, i)
  {
    for i := 0 to |rejected|
      invariant forall j :: 0 <= j < i ==> rejected[j] !in keys
    {
      if rejected[i] in keys {
        assert FirstIn(keys, rejected, i);
        return Some(rejected[i]);
      }
    }
    return None;
  }

  predicate FirstIn(keys: seq<Key>, rejected: seq<Key>, i: nat)
    requires i < |rejected|
  {
    rejected[i] in keys && forall j :: 0 <= j < i ==> rejected[j] !in keys
  }

  class Stream {
    var pendingWaiters: seq<AckChan>
    var waiterBatches: seq<Batch<AckChan>>
    var lastDeclareID: Id
    var lastDeclareAt: int
    var declareCh: bool // true: the slot holds a signal
    var conn: Option<Conn>

    /** `New`: a dialled connection, nothing declared, and no declaration ever sent. */
    constructor (c: Conn)
      ensures Abs() == Shared([], [], NoId, -MIN_DECLARE_INTERVAL, false, Some(c))
    {
      pendingWaiters, waiterBatches := [], [];
      lastDeclareID, lastDeclareAt := NoId, -MIN_DECLARE_INTERVAL;
      declareCh, conn := false, Some(c);
    }

    ghost function Abs(): Shared<AckChan>
      reads this
    {
      Shared(pendingWaiters, waiterBatches, lastDeclareID, lastDeclareAt, declareCh, conn)
    }

    method RequestDeclare()
      modifies this
      ensures Abs() == old(Abs()).(token := true)
    {
      if !declareCh {
        declareCh := true;
      }
    }

    method Register(ch: AckChan)
      modifies this
      ensures Abs() == RegisterWaiter(old(Abs()), ch)
    {
      pendingWaiters := pendingWaiters + [ch];
      if !declareCh {
        declareCh := true;
      }
    }

    method DrainPending() returns (waiting: seq<AckChan>)
      modifies this
      ensures waiting == old(Abs()).pending && Abs() == Drain(old(Abs()))
    {
      waiting := pendingWaiters;
      pendingWaiters := [];
      if declareCh {
        declareCh := false;
      }
    }

    /** `waiting` followed by every waiter still held by a batch. */
    method Collect(waiting: seq<AckChan>) returns (carried: seq<AckChan>)
      ensures carried == Carried(Abs(), waiting)
      ensures AllEmpty(waiting) && BatchesEmpty(waiterBatches) ==> AllEmpty(carried)
    {
      carried := waiting;
      for i := 0 to |waiterBatches|
        invariant carried == waiting + AllWaiters(waiterBatches[..i])
        invariant AllEmpty(waiting) && BatchesEmpty(waiterBatches) ==> AllEmpty(carried)
      {
        assert waiterBatches[..i + 1][..i] == waiterBatches[..i];
        carried := carried + waiterBatches[i].waiters;
      }
      assert waiterBatches[..|waiterBatches|] == waiterBatches;
    }

    method Absorb(waiting: seq<AckChan>) returns (carried: seq<AckChan>)
      modifies this
      ensures carried == Carried(old(Abs()), waiting)
      ensures Abs() == CarryAll(old(Abs()))
    {
      carried := Collect(waiting);
      waiterBatches := [];
    }

    method AnnounceBatch(id: Id, waiting: seq<AckChan>) returns (prev: Id)
      modifies this
      ensures prev == old(Abs()).lastId
      ensures Abs() == Announce(old(Abs()), id, waiting)
    {
      prev := lastDeclareID;
      lastDeclareID := id;
      var carried := Absorb(waiting);
      if |carried| > 0 {
        waiterBatches := waiterBatches + [Batch(id, carried)];
      }
    }

    method RollBackTo(prev: Id) returns (chs: seq<Batch<AckChan>>)
      modifies this
      ensures chs == old(Abs()).batches && Abs() == RollBack(old(Abs()), prev)
    {
      lastDeclareID := prev;
      chs := waiterBatches;
      waiterBatches := [];
    }

    method Take(id: Id) returns (w: seq<AckChan>)
      modifies this
      ensures w == TakenBatch(old(Abs()), id) && Abs() == TakeBatch(old(Abs()), id)
    {
      if id == NoId {
        return [];
      }
      var idx := 0;
      while idx < |waiterBatches| && waiterBatches[idx].id != id
        invariant idx <= |waiterBatches|
        invariant forall k :: 0 <= k < idx ==> waiterBatches[k].id != id
      {
        idx := idx + 1;
      }
      if idx == |waiterBatches| {
        return [];
      }
      w := waiterBatches[idx].waiters;
      waiterBatches := waiterBatches[..idx] + waiterBatches[idx + 1..];
    }

    method IsStale(id: Id) returns (stale: bool)
      ensures stale == Stale(Abs(), id)
    {
      stale := id != NoId && lastDeclareID != NoId && id != lastDeclareID;
    }

    method Stamp(now: int)
      modifies this
      ensures Abs() == old(Abs()).(lastAt := now)
    {
      lastDeclareAt := now;
    }

    /** Shared by `run` and `Close`: whoever swaps the connection out must close it. */
    method SwapConn() returns (c: Option<Conn>)
      modifies this
      ensures c == old(Abs()).conn && Abs() == old(Abs()).(conn := None)
    {
      c := conn;
      conn := None;
    }

    method InstallConn(next: Conn)
      modifies this
      ensures Abs() == old(Abs()).(conn := Some(next))
    {
      conn := Some(next);
    }

    /** Every waiter not yet answered gets `res`; no send blocks and nothing stays behind. */
    method FailAllWaiters(res: AckResult)
      requires Distinct(Carried(Abs(), pendingWaiters))
      requires AllEmpty(pendingWaiters) && BatchesEmpty(waiterBatches)
      modifies this, Carried(Abs(), pendingWaiters)
      ensures AllHold(old(Carried(Abs(), pendingWaiters)), res)
      ensures Abs() == FailAll(old(Abs()))
    {
      var all := Collect(pendingWaiters);
      pendingWaiters, waiterBatches := [], [];
      ResolveWaiters(all, res);
    }
  }
}
