/**
 An ack covers the call: whoever is released by the ack of a declaration, or by
 the write of an empty one, registered a mutation that the declaration's snapshot
 contains. Waiters carried over from earlier declarations are included.
 */
module Coverage {
  import opened Declaring
  import opened Protocol
  import opened Batches

  predicate RegisteredBy(h: History, ws: seq<Waiter>, version: nat) {
    forall w :: w in ws ==> w in h.reg && h.reg[w] <= version
  }

  /** Waiters registered by the time of declaration `id`'s snapshot. */
  predicate InSnapshot(h: History, id: Id, ws: seq<Waiter>) {
    ws != [] ==> id.Declared? && id.n in h.decls && RegisteredBy(h, ws, h.decls[id.n])
  }

  /** What a release for `cause` says about the waiters it answers. */
  predicate Justifies(h: History, cause: Cause, ws: seq<Waiter>) {
    match cause
    case Acked(id, _) => InSnapshot(h, id, ws)
    case Failed(id) => InSnapshot(h, id, ws)
    case Emptied(n) =>
      && InSnapshot(h, Declared(n), ws)
      && (ws != [] ==> h.decls[n] <= |h.log| && Body(h, n) == {})
    case _ => true
  }

  predicate PoolCovered(h: History, sh: Shared<Waiter>) {
    && (forall w :: w in h.limbo ==> h.limbo[w] <= |h.log|)
    && RegisteredBy(h, sh.pending, |h.log|)
    && (forall b :: b in sh.batches ==> InSnapshot(h, sh.lastId, b.waiters))
  }

  predicate LoopCovered(h: History, loop: Loop) {
    && RegisteredBy(h, loop.waiting, |h.log|)
    && (HasBody(loop.at) || WritesEmpty(loop.at) ==> InSnapshot(h, Declared(loop.n), loop.waiting))
    && (loop.at == Releasing ==> Justifies(h, loop.cause, loop.waiting))
  }

  predicate ReaderCovered(h: History, reader: Reader) {
    && (reader.at == Taking ==>
          reader.cause == Acked(reader.id, reader.rejected) || reader.cause == Failed(reader.id))
    && (reader.at == Answering ==> Justifies(h, reader.cause, reader.chs))
  }

  predicate PastCovered(h: History, released: seq<Release>) {
    forall r :: r in released ==> Justifies(h, r.cause, [r.w])
  }

  predicate Covered(c: Client) {
    && PoolCovered(c.hist, c.sh)
    && LoopCovered(c.hist, c.loop)
    && ReaderCovered(c.hist, c.reader)
    && PastCovered(c.hist, c.past.released)
  }

  // Later histories only add mutations, registrations and snapshots.

  predicate Extends(h: History, g: History) {
    && h.log <= g.log
    && (forall w :: w in h.reg ==> w in g.reg && g.reg[w] == h.reg[w])
    && (forall n :: n in h.decls ==> n in g.decls && g.decls[n] == h.decls[n])
  }

  lemma JustifiesExtends(h: History, g: History, cause: Cause, ws: seq<Waiter>)
    requires Extends(h, g) && Justifies(h, cause, ws)
    ensures Justifies(g, cause, ws)
  {
    if cause.Emptied? && ws != [] {
      BodyStable(h, g, cause.n);
    }
  }

  lemma LoopExtends(h: History, g: History, loop: Loop)
    requires Extends(h, g) && LoopCovered(h, loop)
    ensures LoopCovered(g, loop)
  {
    if loop.at == Releasing {
      JustifiesExtends(h, g, loop.cause, loop.waiting);
    }
  }

  lemma ReaderExtends(h: History, g: History, reader: Reader)
    requires Extends(h, g) && ReaderCovered(h, reader)
    ensures ReaderCovered(g, reader)
  {
    if reader.at == Answering {
      JustifiesExtends(h, g, reader.cause, reader.chs);
    }
  }

  lemma PastExtends(h: History, g: History, released: seq<Release>)
    requires Extends(h, g) && PastCovered(h, released)
    ensures PastCovered(g, released)
  {
    forall r | r in released
      ensures Justifies(g, r.cause, [r.w])
    {
      JustifiesExtends(h, g, r.cause, [r.w]);
    }
  }

  /** Answering the first of `ws` leaves the rest justified and adds a justified release. */
  lemma AnswerFirst(h: History, cause: Cause, ws: seq<Waiter>)
    requires Justifies(h, cause, ws) && ws != []
    ensures Justifies(h, cause, ws[1..]) && Justifies(h, cause, [ws[0]])
  {
  }

  lemma {:induction false} InAllWaiters(bs: seq<Batch<Waiter>>, w: Waiter)
    requires w in AllWaiters(bs)
    ensures exists b :: b in bs && w in b.waiters
  {
    var n := |bs| - 1;
    if w in AllWaiters(bs[..n]) {
      InAllWaiters(bs[..n], w);
    } else {
      assert w in bs[n].waiters;
    }
  }

  /** Absorbed batches are covered by the new declaration: its snapshot is the later one. */
  lemma CarriedCovered(c: Client)
    requires Ordered(c) && Covered(c) && c.loop.at == Prepared
    ensures InSnapshot(c.hist, Declared(c.loop.n), Carried(c.sh, c.loop.waiting))
    ensures RegisteredBy(c.hist, Carried(c.sh, c.loop.waiting), |c.hist.log|)
  {
    var h, n := c.hist, c.loop.n;
    forall w | w in Carried(c.sh, c.loop.waiting)
      ensures w in h.reg && h.reg[w] <= h.decls[n]
    {
      if w in AllWaiters(c.sh.batches) {
        InAllWaiters(c.sh.batches, w);
        var b :| b in c.sh.batches && w in b.waiters;
        assert InSnapshot(h, c.sh.lastId, b.waiters);
        assert c.sh.lastId.n <= n;
      }
    }
  }

  lemma ApiCovered(c: Client, a: ApiStep)
    requires Covered(c) && c.hist.limbo.Keys !! c.hist.reg.Keys && ApiEnabled(c, a)
    ensures Covered(ApiApply(c, a))
  {
    var g := ApiApply(c, a).hist;
    assert Extends(c.hist, g);
    LoopExtends(c.hist, g, c.loop);
    ReaderExtends(c.hist, g, c.reader);
    PastExtends(c.hist, g, c.past.released);
  }

  lemma GatherCovered(c: Client, s: GatherStep)
    requires Ordered(c) && Covered(c) && GatherEnabled(c, s)
    ensures Covered(GatherApply(c, s))
  {
    if s.Snapshot? {
      var g := GatherApply(c, s).hist;
      assert Extends(c.hist, g);
      ReaderExtends(c.hist, g, c.reader);
      PastExtends(c.hist, g, c.past.released);
    }
  }

  lemma SendCovered(c: Client, e: SendStep)
    requires Ordered(c) && BodyMatches(c) && Covered(c) && SendEnabled(c, e)
    ensures Covered(SendApply(c, e))
  {
    match e {
      case CarryEmpty => CarriedCovered(c);
      case AnnounceBody => CarriedCovered(c);
      case UndoWrite => AllBatchesRegistered(c);
      case ReleaseOne => AnswerFirst(c.hist, c.loop.cause, c.loop.waiting);
      case _ =>
    }
  }

  lemma ReadCovered(c: Client, r: ReadStep)
    requires OneBatch(c) && Ordered(c) && Covered(c) && ReadEnabled(c, r)
    ensures Covered(ReadApply(c, r))
  {
    match r {
      case RejectNext =>
        var g := ReadApply(c, r).hist;
        LoopExtends(c.hist, g, c.loop);
        PastExtends(c.hist, g, c.past.released);
      case TakeAnswers => TakesAllOrNothing(c, c.reader.id); FlatBatches(c);
      case AnswerOne => AnswerFirst(c.hist, c.reader.cause, c.reader.chs);
      case _ =>
    }
  }

  lemma RunCovered(c: Client, u: RunStep)
    requires Covered(c) && RunEnabled(c, u)
    ensures Covered(RunApply(c, u))
  {
  }

  lemma AllBatchesRegistered(c: Client)
    requires Ordered(c) && Covered(c)
    ensures RegisteredBy(c.hist, AllWaiters(c.sh.batches), |c.hist.log|)
  {
    forall w | w in AllWaiters(c.sh.batches)
      ensures w in c.hist.reg && c.hist.reg[w] <= |c.hist.log|
    {
      InAllWaiters(c.sh.batches, w);
    }
  }
}
