/**
 Batches and declaration numbers: there is never more than one batch, it hangs on
 the id declared last, and every waiter in it registered a mutation that the
 snapshot behind that id contains.
 */
module Batches {
  import opened Mutations
  import opened Declaring
  import opened Protocol
  import opened Conservation

  /** Points at which the round's id is the one declared last. */
  predicate Announced(at: LoopAt) {
    at == Writing || at == RollingBack || at == Stamping
  }

  predicate OneBatch(c: Client) {
    && |c.sh.batches| <= 1
    && (c.sh.batches != [] ==>
          var b := c.sh.batches[0];
          b.id == c.sh.lastId && b.id.Declared? && b.waiters != [])
    && (Announced(c.loop.at) ==> c.sh.lastId == Declared(c.loop.n))
  }

  lemma {:induction false} FlatBatches(c: Client)
    requires OneBatch(c)
    ensures AllWaiters(c.sh.batches) == if c.sh.batches == [] then [] else c.sh.batches[0].waiters
  {
    if c.sh.batches != [] {
      assert c.sh.batches == [c.sh.batches[0]];
      AllWaitersOne(c.sh.batches[0]);
    }
  }

  /** An ack for the id declared last takes every sent waiter; any other id takes none. */
  lemma TakesAllOrNothing(c: Client, id: Id)
    requires OneBatch(c)
    ensures TakenBatch(c.sh, id) == if id == c.sh.lastId then AllWaiters(c.sh.batches) else []
    ensures id == c.sh.lastId && id != NoId ==> TakeBatch(c.sh, id).batches == []
    ensures id != c.sh.lastId ==> TakeBatch(c.sh, id) == c.sh
  {
    FlatBatches(c);
  }

  lemma GatherOneBatch(c: Client, g: GatherStep)
    requires OneBatch(c) && GatherEnabled(c, g)
    ensures OneBatch(GatherApply(c, g))
  {
  }

  lemma SendOneBatch(c: Client, e: SendStep)
    requires OneBatch(c) && SendEnabled(c, e)
    ensures OneBatch(SendApply(c, e))
  {
  }

  lemma ReadOneBatch(c: Client, r: ReadStep)
    requires OneBatch(c) && ReadEnabled(c, r)
    ensures OneBatch(ReadApply(c, r))
  {
    if r.TakeAnswers? {
      TakesAllOrNothing(c, c.reader.id);
    }
  }

  lemma RunOneBatch(c: Client, u: RunStep)
    requires OneBatch(c) && RunEnabled(c, u)
    ensures OneBatch(RunApply(c, u))
  {
  }

  /** Points at which the loop carries the snapshot on which it will act. */
  predicate HasBody(at: LoopAt) {
    at == Connecting || at == Gauging || at == Sleeping || at == Prepared
  }

  predicate WritesEmpty(at: LoopAt) {
    at == EmptyWriting || at == EmptyStamping
  }

  /** Points at which the round's number has a snapshot. */
  predicate Numbered(at: LoopAt) {
    HasBody(at) || WritesEmpty(at) || Announced(at)
  }

  predicate KnownId(decls: map<nat, nat>, id: Id) {
    id == NoId || (id.Declared? && id.n in decls)
  }

  /** What declaration `n` declares. */
  function Body(h: History, n: nat): set<Key>
    requires n in h.decls && h.decls[n] <= |h.log|
  {
    Replay(h.log[..h.decls[n]])
  }

  /** Numbers up to `seqNo` with versions up to `len`; a later number has no earlier version. */
  predicate Versions(decls: map<nat, nat>, len: nat, seqNo: nat) {
    && (forall n :: n in decls ==> 1 <= n <= seqNo && decls[n] <= len)
    && (forall m, n :: m in decls && n in decls && m <= n ==> decls[m] <= decls[n])
  }

  lemma VersionsGrow(decls: map<nat, nat>, len: nat, seqNo: nat, len': nat, seqNo': nat)
    requires Versions(decls, len, seqNo) && len <= len' && seqNo <= seqNo'
    ensures Versions(decls, len', seqNo')
    ensures seqNo < seqNo' ==> seqNo' !in decls
  {
  }

  lemma VersionsSnapshot(decls: map<nat, nat>, len: nat, n: nat)
    requires Versions(decls, len, n) && 1 <= n && n !in decls
    ensures Versions(decls[n := len], len, n)
  {
  }

  predicate Ordered(c: Client) {
    var h := c.hist;
    && Versions(h.decls, |h.log|, c.seqNo)
    && KnownId(h.decls, c.sh.lastId)
    && (c.loop.at == Snapshotting ==> 1 <= c.loop.n == c.seqNo && c.loop.n !in h.decls)
    && (Numbered(c.loop.at) ==> c.loop.n == c.seqNo && c.loop.n in h.decls)
    && (HasBody(c.loop.at) || WritesEmpty(c.loop.at) ==> c.sh.lastId != Declared(c.loop.n))
    && (c.loop.at == Writing || c.loop.at == RollingBack ==>
          KnownId(h.decls, c.loop.prev) && c.loop.prev != Declared(c.loop.n))
  }

  /** The snapshot in the loop's hands is what its number declares. */
  predicate BodyMatches(c: Client) {
    Numbered(c.loop.at) && c.loop.n in c.hist.decls && c.hist.decls[c.loop.n] <= |c.hist.log| ==>
      Body(c.hist, c.loop.n) == if WritesEmpty(c.loop.at) then {} else c.loop.body
  }

  lemma GatherOrdered(c: Client, g: GatherStep)
    requires OneBatch(c) && Ordered(c) && GatherEnabled(c, g)
    ensures Ordered(GatherApply(c, g))
  {
    match g {
      case DrainAll => VersionsGrow(c.hist.decls, |c.hist.log|, c.seqNo, |c.hist.log|, c.seqNo + 1);
      case Snapshot => VersionsSnapshot(c.hist.decls, |c.hist.log|, c.loop.n);
      case _ =>
    }
  }

  /** The four steps that change the round's standing or the last id. */
  lemma RegisterOrdered(c: Client, e: SendStep)
    requires OneBatch(c) && Ordered(c) && SendEnabled(c, e)
    requires e.AnnounceBody? || e.WriteFailed? || e.UndoWrite? || e.Written?
    ensures Ordered(SendApply(c, e))
  {
  }

  lemma SendOrdered(c: Client, e: SendStep)
    requires OneBatch(c) && Ordered(c) && SendEnabled(c, e)
    ensures Ordered(SendApply(c, e))
  {
    if e.AnnounceBody? || e.WriteFailed? || e.UndoWrite? || e.Written? {
      RegisterOrdered(c, e);
    } else {
      var d := SendApply(c, e);
      assert d.sh.lastId == c.sh.lastId && d.hist == c.hist && d.seqNo == c.seqNo && d.loop.n == c.loop.n;
    }
  }

  /** Others may add mutations while a round is under way. */
  lemma OthersOrdered(c: Client, d: Client)
    requires Ordered(c) && d.loop == c.loop && d.seqNo == c.seqNo && d.sh.lastId == c.sh.lastId
    requires d.hist.decls == c.hist.decls && |c.hist.log| <= |d.hist.log|
    ensures Ordered(d)
  {
    VersionsGrow(c.hist.decls, |c.hist.log|, c.seqNo, |d.hist.log|, c.seqNo);
  }

  lemma ReadOrdered(c: Client, r: ReadStep)
    requires Ordered(c) && ReadEnabled(c, r)
    ensures Ordered(ReadApply(c, r))
  {
    OthersOrdered(c, ReadApply(c, r));
  }

  lemma RunOrdered(c: Client, u: RunStep)
    requires Ordered(c) && RunEnabled(c, u)
    ensures Ordered(RunApply(c, u))
  {
  }

  /** Later mutations do not change what an earlier version was. */
  lemma BodyStable(h: History, g: History, n: nat)
    requires n in h.decls && n in g.decls && h.decls[n] == g.decls[n] <= |h.log| && h.log <= g.log
    ensures Body(h, n) == Body(g, n)
  {
    assert h.log[..h.decls[n]] == g.log[..g.decls[n]];
  }

  lemma GatherBodyMatches(c: Client, g: GatherStep)
    requires Ordered(c) && BodyMatches(c) && GatherEnabled(c, g)
    ensures BodyMatches(GatherApply(c, g))
  {
    assert c.hist.log[..|c.hist.log|] == c.hist.log;
  }

  lemma SendBodyMatches(c: Client, e: SendStep)
    requires Ordered(c) && BodyMatches(c) && SendEnabled(c, e)
    ensures BodyMatches(SendApply(c, e))
  {
  }

  /** A round is untouched by everyone else, whatever they add to the log. */
  lemma OthersBodyMatches(c: Client, d: Client)
    requires Ordered(c) && BodyMatches(c)
    requires d.loop == c.loop && d.hist.decls == c.hist.decls && c.hist.log <= d.hist.log
    ensures BodyMatches(d)
  {
    if Numbered(c.loop.at) {
      BodyStable(c.hist, d.hist, c.loop.n);
    }
  }

  lemma ReadBodyMatches(c: Client, r: ReadStep)
    requires Ordered(c) && BodyMatches(c) && ReadEnabled(c, r)
    ensures BodyMatches(ReadApply(c, r))
  {
    OthersBodyMatches(c, ReadApply(c, r));
  }
}
