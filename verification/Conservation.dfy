/**
 Waiter conservation: every registered waiter is in exactly one place, so it is
 answered at most once and the one-slot send never blocks. The only step that
 loses waiters is the cancelled interval wait of the declare loop.
 */
module Conservation {
  import opened Declaring
  import opened Protocol

  /** How often `w` occurs in `ws`. */
  function Count(ws: seq<Waiter>, w: Waiter): nat {
    if ws == [] then 0 else (if ws[0] == w then 1 else 0) + Count(ws[1..], w)
  }

  lemma {:induction false} CountAppend(a: seq<Waiter>, b: seq<Waiter>, w: Waiter)
    ensures Count(a + b, w) == Count(a, w) + Count(b, w)
  {
    if a == [] {
      assert a + b == b;
    } else {
      assert (a + b)[1..] == a[1..] + b;
      CountAppend(a[1..], b, w);
    }
  }

  function Answers(rs: seq<Release>, w: Waiter): nat {
    if rs == [] then 0 else Answers(rs[..|rs| - 1], w) + (if rs[|rs| - 1].w == w then 1 else 0)
  }

  lemma AnswersAppend(rs: seq<Release>, r: Release, w: Waiter)
    ensures Answers(rs + [r], w) == Answers(rs, w) + (if r.w == w then 1 else 0)
  {
    assert (rs + [r])[..|rs|] == rs;
  }

  /** How often `w` is held by anyone. */
  function Held(c: Client, w: Waiter): nat {
    Count(c.sh.pending, w) + Count(AllWaiters(c.sh.batches), w) + Count(c.loop.waiting, w)
    + Count(c.reader.chs, w) + Count(c.run.chs, w)
  }

  /** A registered waiter is held, answered or dropped, exactly once; any other waiter never is. */
  predicate Accounted(c: Client, w: Waiter) {
    Held(c, w) + Answers(c.past.released, w) + Count(c.past.dropped, w) == if w in c.hist.reg then 1 else 0
  }

  ghost predicate Conserved(c: Client) {
    && (forall w :: Accounted(c, w))
    && c.hist.limbo.Keys !! c.hist.reg.Keys
  }

  /** Where the declare loop has waiters in its hands. */
  predicate HoldsWaiters(at: LoopAt) {
    match at
    case Snapshotting => true
    case Connecting => true
    case Gauging => true
    case Sleeping => true
    case Prepared => true
    case EmptyWriting => true
    case EmptyStamping => true
    case Releasing => true
    case _ => false
  }

  /** Hands are empty elsewhere, and outside `Serving` the three loops have ended. */
  predicate Tidy(c: Client) {
    && (!HoldsWaiters(c.loop.at) ==> c.loop.waiting == [])
    && (c.reader.at != Answering ==> c.reader.chs == [])
    && (c.run.at != Failing ==> c.run.chs == [])
    && (c.run.at != Serving ==> c.loop.at == Dead && c.reader.at == Gone && !c.ping)
  }

  lemma GatherTidy(c: Client, g: GatherStep)
    requires Tidy(c) && GatherEnabled(c, g)
    ensures Tidy(GatherApply(c, g))
  {
  }

  lemma SendTidy(c: Client, e: SendStep)
    requires Tidy(c) && SendEnabled(c, e)
    ensures Tidy(SendApply(c, e))
  {
  }

  lemma ReadTidy(c: Client, r: ReadStep)
    requires Tidy(c) && ReadEnabled(c, r)
    ensures Tidy(ReadApply(c, r))
  {
  }

  lemma RunTidy(c: Client, u: RunStep)
    requires Tidy(c) && RunEnabled(c, u)
    ensures Tidy(RunApply(c, u))
  {
  }

  lemma {:induction false} AllWaitersOne(b: Batch<Waiter>)
    ensures AllWaiters([b]) == b.waiters
  {
    assert [b][..0] == [];
  }

  lemma AnnouncedWaiters(s: Shared<Waiter>, id: Id, waiting: seq<Waiter>)
    ensures AllWaiters(Announce(s, id, waiting).batches) == Carried(s, waiting)
  {
    AllWaitersOne(Batch(id, Carried(s, waiting)));
  }

  /** Taking a batch out splits what the batches hold. */
  lemma {:induction false} TakenCount(bs: seq<Batch<Waiter>>, i: nat, w: Waiter)
    requires i < |bs|
    ensures Count(AllWaiters(bs), w) ==
            Count(AllWaiters(bs[..i] + bs[i + 1..]), w) + Count(bs[i].waiters, w)
  {
    var n := |bs| - 1;
    CountAppend(AllWaiters(bs[..n]), bs[n].waiters, w);
    var rest := bs[..i] + bs[i + 1..];
    if i == n {
      assert rest == bs[..n];
    } else {
      assert rest[..n - 1] == bs[..n][..i] + bs[..n][i + 1..];
      TakenCount(bs[..n], i, w);
      CountAppend(AllWaiters(rest[..n - 1]), bs[n].waiters, w);
    }
  }

  lemma TakeBatchCount(s: Shared<Waiter>, id: Id, w: Waiter)
    ensures Count(AllWaiters(s.batches), w) ==
            Count(AllWaiters(TakeBatch(s, id).batches), w) + Count(TakenBatch(s, id), w)
  {
    var i := FindBatch(s.batches, id);
    if i < |s.batches| {
      TakenCount(s.batches, i, w);
    }
  }

  lemma ApiAccounts(c: Client, a: ApiStep, w: Waiter)
    requires Accounted(c, w) && c.hist.limbo.Keys !! c.hist.reg.Keys && ApiEnabled(c, a)
    ensures Accounted(ApiApply(c, a), w)
  {
    if a.Registering? {
      CountAppend(c.sh.pending, [a.w], w);
    }
  }

  lemma GatherAccounts(c: Client, g: GatherStep, w: Waiter)
    requires Accounted(c, w) && Tidy(c) && GatherEnabled(c, g)
    ensures Accounted(GatherApply(c, g), w)
  {
    if g.Lose? {
      CountAppend(c.past.dropped, c.loop.waiting, w);
    }
  }

  lemma SendAccounts(c: Client, e: SendStep, w: Waiter)
    requires Accounted(c, w) && Tidy(c) && SendEnabled(c, e)
    ensures Accounted(SendApply(c, e), w)
  {
    match e {
      case CarryEmpty => CountAppend(c.loop.waiting, AllWaiters(c.sh.batches), w);
      case AnnounceBody =>
        AnnouncedWaiters(c.sh, Declared(c.loop.n), c.loop.waiting);
        CountAppend(c.loop.waiting, AllWaiters(c.sh.batches), w);
      case ReleaseOne => AnswersAppend(c.past.released, Release(c.loop.waiting[0], c.loop.cause), w);
      case _ =>
    }
  }

  lemma TakeAccounts(c: Client, w: Waiter)
    requires Accounted(c, w) && Tidy(c) && ReadEnabled(c, TakeAnswers)
    ensures Accounted(ReadApply(c, TakeAnswers), w)
  {
    TakeBatchCount(c.sh, c.reader.id, w);
  }

  lemma AnswerAccounts(c: Client, w: Waiter)
    requires Accounted(c, w) && ReadEnabled(c, AnswerOne)
    ensures Accounted(ReadApply(c, AnswerOne), w)
  {
    AnswersAppend(c.past.released, Release(c.reader.chs[0], c.reader.cause), w);
  }

  /** Nothing changes hands. */
  lemma SameHands(c: Client, d: Client, w: Waiter)
    requires Accounted(c, w) && d.sh == c.sh && d.loop == c.loop && d.run == c.run && d.past == c.past
    requires d.reader.chs == c.reader.chs && d.hist.reg == c.hist.reg
    ensures Accounted(d, w)
  {
  }

  lemma ReadAccounts(c: Client, r: ReadStep, w: Waiter)
    requires Accounted(c, w) && Tidy(c) && ReadEnabled(c, r)
    ensures Accounted(ReadApply(c, r), w)
  {
    if r.TakeAnswers? {
      TakeAccounts(c, w);
    } else if r.AnswerOne? {
      AnswerAccounts(c, w);
    } else {
      SameHands(c, ReadApply(c, r), w);
    }
  }

  lemma RunAccounts(c: Client, u: RunStep, w: Waiter)
    requires Accounted(c, w) && Tidy(c) && RunEnabled(c, u)
    ensures Accounted(RunApply(c, u), w)
  {
    match u {
      case JoinAndFail => CountAppend(c.sh.pending, AllWaiters(c.sh.batches), w);
      case FailOne => AnswersAppend(c.past.released, Release(c.run.chs[0], ConnectionLost), w);
      case _ =>
    }
  }

  lemma ApiConserves(c: Client, a: ApiStep)
    requires Conserved(c) && ApiEnabled(c, a)
    ensures Conserved(ApiApply(c, a))
  {
    forall w
      ensures Accounted(ApiApply(c, a), w)
    {
      ApiAccounts(c, a, w);
    }
  }

  lemma GatherConserves(c: Client, g: GatherStep)
    requires Conserved(c) && Tidy(c) && GatherEnabled(c, g)
    ensures Conserved(GatherApply(c, g))
  {
    forall w
      ensures Accounted(GatherApply(c, g), w)
    {
      GatherAccounts(c, g, w);
    }
  }

  lemma SendConserves(c: Client, e: SendStep)
    requires Conserved(c) && Tidy(c) && SendEnabled(c, e)
    ensures Conserved(SendApply(c, e))
  {
    forall w
      ensures Accounted(SendApply(c, e), w)
    {
      SendAccounts(c, e, w);
    }
  }

  lemma ReadConserves(c: Client, r: ReadStep)
    requires Conserved(c) && Tidy(c) && ReadEnabled(c, r)
    ensures Conserved(ReadApply(c, r))
  {
    forall w
      ensures Accounted(ReadApply(c, r), w)
    {
      ReadAccounts(c, r, w);
    }
  }

  lemma RunConserves(c: Client, u: RunStep)
    requires Conserved(c) && Tidy(c) && RunEnabled(c, u)
    ensures Conserved(RunApply(c, u))
  {
    forall w
      ensures Accounted(RunApply(c, u), w)
    {
      RunAccounts(c, u, w);
    }
  }

  lemma CloseConserves(c: Client, k: CloseStep)
    requires Conserved(c) && CloseEnabled(c, k)
    ensures Conserved(CloseApply(c, k))
  {
    forall w
      ensures Accounted(CloseApply(c, k), w)
    {
      assert Accounted(c, w);
    }
  }

  lemma MiscConserves(c: Client, x: MiscStep)
    requires Conserved(c) && MiscEnabled(c, x)
    ensures Conserved(MiscApply(c, x))
  {
    forall w
      ensures Accounted(MiscApply(c, x), w)
    {
      assert Accounted(c, w);
    }
  }
}
