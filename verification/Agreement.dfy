/**
 Quiescent agreement: when nothing is under way any more, the client's set and
 the set the server delivers are the same.
 */
module Agreement {
  import opened Mutations
  import opened Declaring
  import opened Protocol
  import opened Conservation
  import opened Batches
  import opened Ownership
  import opened Safety
  import opened Server

  /** The client's current set. */
  function Mine(s: System): set<Key> {
    Replay(s.c.hist.log)
  }

  /** The connection is down, or the declare loop is on its way out. */
  predicate Broken(c: Client) {
    || c.run.at != Serving
    || ConnDone(c)
    || c.loop.at == RollingBack
    || (c.loop.at == Releasing && c.loop.exits)
  }

  predicate BeforeSnapshot(at: LoopAt) {
    at == Coalescing || at == Absorbing || at == Draining || at == Snapshotting
  }

  predicate Throttled(outbox: seq<Frame>) {
    exists f :: f in outbox && f.RateLimited?
  }

  /** A new snapshot is certain to be taken if the run goes on. */
  predicate Pending(s: System) {
    || s.c.sh.token
    || s.c.hist.limbo != map[]
    || BeforeSnapshot(s.c.loop.at)
    || s.c.timers > 0
    || Broken(s.c)
    || Throttled(s.outbox)
  }

  /** The loop holds a snapshot it has not written yet. */
  predicate Unwrote(at: LoopAt) {
    HasBody(at) || at == EmptyWriting || at == Writing
  }

  function InHand(loop: Loop): set<Key> {
    if loop.at == EmptyWriting then {} else loop.body
  }

  /** `body` has all of the client's keys and beyond them only bad ones. */
  predicate Current(bad: iset<Key>, s: System, body: set<Key>) {
    && Mine(s) <= body
    && (forall k :: k in body && k !in Mine(s) ==> k in bad)
  }

  /** Every bad key the client still has is in `rejected`. */
  predicate Covers(bad: iset<Key>, s: System, rejected: seq<Key>) {
    forall k :: k in Mine(s) && k in bad ==> k in rejected
  }

  predicate CoveringAck(bad: iset<Key>, s: System, f: Frame) {
    f.Ack? && f.id == s.c.sh.lastId && Covers(bad, s, f.rejected)
  }

  /** The client's bad keys are gone, or an ack that removes them is on its way. */
  predicate BadHandled(bad: iset<Key>, s: System) {
    var rd := s.c.reader;
    || Covers(bad, s, [])
    || (exists f :: f in s.outbox && CoveringAck(bad, s, f))
    || (rd.at == Checking && rd.id == s.c.sh.lastId && Covers(bad, s, rd.rejected))
    || (rd.at == Rejecting && !rd.stale && rd.i <= |rd.rejected| && Covers(bad, s, rd.rejected[rd.i..]))
  }

  predicate Settled(bad: iset<Key>, s: System) {
    s.eff == Good(bad, Mine(s)) && BadHandled(bad, s)
  }

  predicate InFlight(bad: iset<Key>, s: System) {
    && s.inbox != []
    && var last := s.inbox[|s.inbox| - 1];
       Current(bad, s, last.body) && (last.body != {} ==> s.c.sh.lastId == Declared(last.n))
  }

  predicate Agreeing(bad: iset<Key>, s: System) {
    || Pending(s)
    || (Unwrote(s.c.loop.at) && Current(bad, s, InHand(s.c.loop)))
    || (!Unwrote(s.c.loop.at) && InFlight(bad, s))
    || (!Unwrote(s.c.loop.at) && s.inbox == [] && (s.refused || Settled(bad, s)))
  }

  /** Every ack on its way, or being applied, rejects bad keys only. */
  predicate Fair(bad: iset<Key>, s: System) {
    && (forall f, k :: f in s.outbox && f.Ack? && k in f.rejected ==> k in bad)
    && (s.c.reader.at == Checking || s.c.reader.at == Rejecting ==>
          forall k :: k in s.c.reader.rejected ==> k in bad)
  }

  ghost predicate SysInv(bad: iset<Key>, s: System) {
    Inv(s.c) && Fair(bad, s) && Agreeing(bad, s)
  }

  lemma ApiAgrees(bad: iset<Key>, s: System, a: ApiStep)
    requires ApiEnabled(s.c, a)
    ensures Pending(s.(c := ApiApply(s.c, a)))
  {
    if a.Mutating? {
      assert a.w in ApiApply(s.c, a).hist.limbo;
    }
  }

  lemma GatherAgrees(bad: iset<Key>, s: System, g: GatherStep)
    requires Placed(s.c) && Agreeing(bad, s) && GatherEnabled(s.c, g)
    ensures Agreeing(bad, s.(c := GatherApply(s.c, g)))
  {
  }

  /** A written declaration is the last one the server will process. */
  lemma WriteLands(bad: iset<Key>, s: System, d: Client, x: Decl)
    requires Current(bad, s, x.body) && (x.body != {} ==> s.c.sh.lastId == Declared(x.n))
    requires d.hist == s.c.hist && d.sh == s.c.sh
    ensures InFlight(bad, s.(c := d, inbox := s.inbox + [x]))
  {
  }

  /** Steps that neither mutate the set nor touch the socket leave the settlement alone. */
  lemma BadStays(bad: iset<Key>, s: System, d: Client)
    requires d.hist == s.c.hist && d.sh.lastId == s.c.sh.lastId && d.reader == s.c.reader
    ensures BadHandled(bad, s) ==> BadHandled(bad, s.(c := d))
    ensures InFlight(bad, s) ==> InFlight(bad, s.(c := d))
  {
    var t := s.(c := d);
    if exists f :: f in s.outbox && CoveringAck(bad, s, f) {
      var f :| f in s.outbox && CoveringAck(bad, s, f);
      assert CoveringAck(bad, t, f);
    }
  }

  lemma SendKeepsPending(s: System, e: SendStep)
    requires Pending(s) && SendEnabled(s.c, e)
    ensures Pending(NetApply(s, SendApply(s.c, e), Sending(e)))
  {
  }

  lemma WrittenAgrees(bad: iset<Key>, s: System, e: SendStep)
    requires OneBatch(s.c) && SendEnabled(s.c, e) && (e.Written? || e.EmptyWritten?)
    requires Current(bad, s, InHand(s.c.loop))
    ensures Agreeing(bad, NetApply(s, SendApply(s.c, e), Sending(e)))
  {
    WriteLands(bad, s, SendApply(s.c, e), Decl(s.c.loop.n, InHand(s.c.loop)));
  }

  /** A round that has its snapshot keeps it until the write. */
  lemma PreparingAgrees(bad: iset<Key>, s: System, e: SendStep)
    requires Agreeing(bad, s) && !Pending(s) && SendEnabled(s.c, e) && (e.CarryEmpty? || e.AnnounceBody?)
    ensures Agreeing(bad, s.(c := SendApply(s.c, e)))
  {
    var t := s.(c := SendApply(s.c, e));
    assert Current(bad, s, s.c.loop.body);
    assert Unwrote(t.c.loop.at) && Current(bad, t, InHand(t.c.loop));
  }

  /** A failed write ends the connection. */
  lemma UnwrittenPends(s: System, e: SendStep)
    requires SendEnabled(s.c, e) && (e.EmptyUnwritten? || e.WriteFailed? || e.UndoWrite?)
    ensures Pending(NetApply(s, SendApply(s.c, e), Sending(e)))
  {
  }

  /** After the write the loop only stamps and answers. */
  lemma FinishingAgrees(bad: iset<Key>, s: System, e: SendStep)
    requires Agreeing(bad, s) && !Pending(s) && SendEnabled(s.c, e)
    requires e.StampEmpty? || e.StampWrite? || e.ReleaseOne? || e.ReleaseDone?
    ensures Agreeing(bad, s.(c := SendApply(s.c, e)))
  {
    var d := SendApply(s.c, e);
    assert !Unwrote(s.c.loop.at) && !Unwrote(d.loop.at);
    BadStays(bad, s, d);
  }

  lemma SendAgrees(bad: iset<Key>, s: System, e: SendStep)
    requires OneBatch(s.c) && Agreeing(bad, s) && SendEnabled(s.c, e)
    ensures Agreeing(bad, NetApply(s, SendApply(s.c, e), Sending(e)))
  {
    if Pending(s) {
      SendKeepsPending(s, e);
    } else {
      match e {
        case CarryEmpty => PreparingAgrees(bad, s, e);
        case AnnounceBody => PreparingAgrees(bad, s, e);
        case EmptyWritten => WrittenAgrees(bad, s, e);
        case Written => WrittenAgrees(bad, s, e);
        case EmptyUnwritten(_) => UnwrittenPends(s, e);
        case WriteFailed(_) => UnwrittenPends(s, e);
        case UndoWrite => UnwrittenPends(s, e);
        case _ => FinishingAgrees(bad, s, e);
      }
    }
  }

  lemma AcceptSettles(bad: iset<Key>, s: System, rejected: seq<Key>)
    requires !Unwrote(s.c.loop.at) && InFlight(bad, s) && |s.inbox| == 1
    requires Rejects(bad, s.inbox[0].body, rejected)
    ensures Settled(bad, ServeApply(bad, s, Accept(rejected)))
  {
    var t := ServeApply(bad, s, Accept(rejected));
    if s.inbox[0].body != {} {
      var f := t.outbox[|s.outbox|];
      assert f in t.outbox && CoveringAck(bad, t, f);
    }
  }

  lemma AckStays(bad: iset<Key>, s: System, t: System)
    requires BadHandled(bad, s) && t.c == s.c && forall f :: f in s.outbox ==> f in t.outbox
    ensures BadHandled(bad, t)
  {
    if exists f :: f in s.outbox && CoveringAck(bad, s, f) {
      var f :| f in s.outbox && CoveringAck(bad, s, f);
      assert CoveringAck(bad, t, f);
    }
  }

  lemma PendingStays(s: System, t: System)
    requires Pending(s) && t.c == s.c && forall f :: f in s.outbox ==> f in t.outbox
    ensures Pending(t)
  {
  }

  /** Processing an earlier declaration leaves the last one in flight. */
  lemma EarlierServed(bad: iset<Key>, s: System, r: Reaction)
    requires InFlight(bad, s) && |s.inbox| > 1
    ensures InFlight(bad, ServeApply(bad, s, r))
  {
  }

  lemma ServeAgrees(bad: iset<Key>, s: System, r: Reaction)
    requires Agreeing(bad, s) && SysEnabled(bad, s, Serve(r))
    ensures Agreeing(bad, ServeApply(bad, s, r))
  {
    var t := ServeApply(bad, s, r);
    if Pending(s) {
      PendingStays(s, t);
    } else if r.Throttle? {
      assert t.outbox[|s.outbox|].RateLimited?;
    } else if !Unwrote(s.c.loop.at) {
      if |s.inbox| > 1 {
        EarlierServed(bad, s, r);
      } else if r.Accept? {
        AcceptSettles(bad, s, r.rejected);
      }
    }
  }

  lemma SpontaneousAgrees(bad: iset<Key>, s: System, f: Frame)
    requires Agreeing(bad, s)
    ensures Agreeing(bad, s.(outbox := s.outbox + [f]))
  {
    var t := s.(outbox := s.outbox + [f]);
    if Pending(s) {
      PendingStays(s, t);
    } else if BadHandled(bad, s) {
      AckStays(bad, s, t);
    }
  }

  /** Reading the head of the outbox hands a covering ack to the reader, or leaves it queued. */
  lemma ReceiveHandles(bad: iset<Key>, s: System, t: System)
    requires s.outbox != [] && BadHandled(bad, s) && ReadEnabled(s.c, Receive(s.outbox[0]))
    requires t.outbox == s.outbox[1..] && t.c == ReadApply(s.c, Receive(s.outbox[0]))
    ensures BadHandled(bad, t)
  {
    var head := s.outbox[0];
    assert s.outbox == [head] + t.outbox;
    if exists f :: f in s.outbox && CoveringAck(bad, s, f) {
      var f :| f in s.outbox && CoveringAck(bad, s, f);
      assert f == head || (f in t.outbox && CoveringAck(bad, t, f));
    }
  }

  lemma ReceiveKeepsPending(s: System, t: System)
    requires s.outbox != [] && Pending(s) && ReadEnabled(s.c, Receive(s.outbox[0]))
    requires t.outbox == s.outbox[1..] && t.c == ReadApply(s.c, Receive(s.outbox[0]))
    ensures Pending(t)
  {
    var head := s.outbox[0];
    assert s.outbox == [head] + t.outbox;
    if Throttled(s.outbox) && !head.RateLimited? {
      var f :| f in s.outbox && f.RateLimited?;
      assert f in t.outbox;
    }
  }

  lemma ReceiveAgrees(bad: iset<Key>, s: System)
    requires Agreeing(bad, s) && s.outbox != [] && ReadEnabled(s.c, Receive(s.outbox[0]))
    ensures Agreeing(bad, s.(c := ReadApply(s.c, Receive(s.outbox[0])), outbox := s.outbox[1..]))
  {
    var t := s.(c := ReadApply(s.c, Receive(s.outbox[0])), outbox := s.outbox[1..]);
    if Pending(s) {
      ReceiveKeepsPending(s, t);
    } else if BadHandled(bad, s) {
      ReceiveHandles(bad, s, t);
    }
  }

  /** Applying a rejection takes a bad key out of the client's set and leaves the good ones. */
  lemma RejectShrinks(bad: iset<Key>, s: System, t: System, k: Key)
    requires k in bad && t.c.hist.log == s.c.hist.log + [Reject(k)]
    ensures Mine(t) == Mine(s) - {k}
    ensures Good(bad, Mine(t)) == Good(bad, Mine(s))
    ensures forall body :: Current(bad, s, body) ==> Current(bad, t, body)
  {
    ReplayAppend(s.c.hist.log, Reject(k));
  }

  lemma RejectHandles(bad: iset<Key>, s: System, t: System)
    requires ReadEnabled(s.c, RejectNext) && t == s.(c := ReadApply(s.c, RejectNext))
    requires BadHandled(bad, s)
    requires Mine(t) == if s.c.reader.stale then Mine(s) else Mine(s) - {s.c.reader.rejected[s.c.reader.i]}
    ensures BadHandled(bad, t)
  {
    if exists f :: f in s.outbox && CoveringAck(bad, s, f) {
      var f :| f in s.outbox && CoveringAck(bad, s, f);
      assert CoveringAck(bad, t, f);
    }
  }

  lemma RejectAgrees(bad: iset<Key>, s: System)
    requires Fair(bad, s) && Agreeing(bad, s) && ReadEnabled(s.c, RejectNext)
    ensures Agreeing(bad, s.(c := ReadApply(s.c, RejectNext)))
  {
    var rd := s.c.reader;
    var t := s.(c := ReadApply(s.c, RejectNext));
    if Pending(s) {
      assert Pending(t);
    } else {
      if !rd.stale {
        RejectShrinks(bad, s, t, rd.rejected[rd.i]);
      }
      if BadHandled(bad, s) {
        RejectHandles(bad, s, t);
      }
    }
  }

  lemma CheckAgrees(bad: iset<Key>, s: System)
    requires Agreeing(bad, s) && ReadEnabled(s.c, CheckStale)
    ensures Agreeing(bad, s.(c := ReadApply(s.c, CheckStale)))
  {
    var t := s.(c := ReadApply(s.c, CheckStale));
    if Pending(s) {
      assert Pending(t);
    } else if BadHandled(bad, s) {
      assert s.c.reader.rejected[0..] == s.c.reader.rejected;
      if exists f :: f in s.outbox && CoveringAck(bad, s, f) {
        var f :| f in s.outbox && CoveringAck(bad, s, f);
        assert CoveringAck(bad, t, f);
      }
    }
  }

  /** A reader that has applied its rejections, or has no ack in work, covers nothing more. */
  lemma ReaderMovesOn(bad: iset<Key>, s: System, d: Client)
    requires BadHandled(bad, s) && d.hist == s.c.hist && d.sh.lastId == s.c.sh.lastId
    requires s.c.reader.at != Checking
    requires s.c.reader.at == Rejecting ==> s.c.reader.i >= |s.c.reader.rejected|
    ensures BadHandled(bad, s.(c := d))
  {
    if exists f :: f in s.outbox && CoveringAck(bad, s, f) {
      var f :| f in s.outbox && CoveringAck(bad, s, f);
      assert CoveringAck(bad, s.(c := d), f);
    }
  }

  lemma RestOfReadAgrees(bad: iset<Key>, s: System, r: ReadStep)
    requires Agreeing(bad, s) && ReadEnabled(s.c, r)
    requires r.ReadError? || r.RejectsDone? || r.TakeAnswers? || r.AnswerOne? || r.AnswerDone?
    ensures Agreeing(bad, s.(c := ReadApply(s.c, r)))
  {
    var d := ReadApply(s.c, r);
    assert d.hist == s.c.hist && d.sh.lastId == s.c.sh.lastId && d.sh.token == s.c.sh.token;
    assert d.loop == s.c.loop && d.timers == s.c.timers && d.run == s.c.run && d.close == s.c.close;
    if BadHandled(bad, s) {
      ReaderMovesOn(bad, s, d);
    }
  }

  lemma RunAgrees(bad: iset<Key>, s: System, u: RunStep)
    requires Tidy(s.c) && Agreeing(bad, s) && RunEnabled(s.c, u)
    ensures Pending(NetApply(s, RunApply(s.c, u), Running(u)))
  {
  }

  lemma CloseAgrees(bad: iset<Key>, s: System, k: CloseStep)
    requires Agreeing(bad, s) && CloseEnabled(s.c, k)
    ensures Agreeing(bad, s.(c := CloseApply(s.c, k)))
  {
    BadStays(bad, s, CloseApply(s.c, k));
  }

  lemma MiscAgrees(bad: iset<Key>, s: System, x: MiscStep)
    requires Agreeing(bad, s) && MiscEnabled(s.c, x)
    ensures Agreeing(bad, s.(c := MiscApply(s.c, x)))
  {
    BadStays(bad, s, MiscApply(s.c, x));
  }

  lemma ReadsAgree(bad: iset<Key>, s: System, r: ReadStep)
    requires Fair(bad, s) && Agreeing(bad, s) && SysEnabled(bad, s, OfClient(Reads(r)))
    ensures Agreeing(bad, NetApply(s, ReadApply(s.c, r), Reads(r)))
  {
    match r {
      case Receive(f) => ReceiveAgrees(bad, s);
      case CheckStale => CheckAgrees(bad, s);
      case RejectNext => RejectAgrees(bad, s);
      case _ => RestOfReadAgrees(bad, s, r);
    }
  }

  lemma ReadsFair(bad: iset<Key>, s: System, r: ReadStep)
    requires Fair(bad, s) && SysEnabled(bad, s, OfClient(Reads(r)))
    ensures Fair(bad, NetApply(s, ReadApply(s.c, r), Reads(r)))
  {
  }

  lemma ServeFair(bad: iset<Key>, s: System, r: Reaction)
    requires Fair(bad, s) && SysEnabled(bad, s, Serve(r))
    ensures Fair(bad, ServeApply(bad, s, r))
  {
  }

  /** Steps that keep the reader, and queue no frame, keep the acks fair. */
  lemma OthersFair(bad: iset<Key>, s: System, t: System)
    requires Fair(bad, s) && (t.outbox == s.outbox || t.outbox == [])
    requires t.c.reader == s.c.reader || t.c.reader == READING
    ensures Fair(bad, t)
  {
  }

  lemma ClientAgrees(bad: iset<Key>, s: System, step: Step)
    requires Tidy(s.c) && OneBatch(s.c) && Placed(s.c) && Fair(bad, s) && Agreeing(bad, s)
    requires SysEnabled(bad, s, OfClient(step))
    ensures Agreeing(bad, NetApply(s, Apply(s.c, step), step))
  {
    match step {
      case Api(a) => ApiAgrees(bad, s, a);
      case Gathering(g) => GatherAgrees(bad, s, g);
      case Sending(e) => SendAgrees(bad, s, e);
      case Reads(r) => ReadsAgree(bad, s, r);
      case Running(u) => RunAgrees(bad, s, u);
      case CloseCall(k) => CloseAgrees(bad, s, k);
      case Misc(x) => MiscAgrees(bad, s, x);
    }
  }

  lemma ClientFair(bad: iset<Key>, s: System, step: Step)
    requires Fair(bad, s) && SysEnabled(bad, s, OfClient(step))
    ensures Fair(bad, NetApply(s, Apply(s.c, step), step))
  {
    if step.Reads? {
      ReadsFair(bad, s, step.r);
    } else {
      OthersFair(bad, s, NetApply(s, Apply(s.c, step), step));
    }
  }

  lemma SysStepInv(bad: iset<Key>, s: System, t: SysStep)
    requires SysInv(bad, s) && SysEnabled(bad, s, t)
    ensures SysInv(bad, SysApply(bad, s, t))
  {
    match t {
      case OfClient(step) =>
        StepInv(s.c, step);
        ClientAgrees(bad, s, step);
        ClientFair(bad, s, step);
      case Serve(r) => ServeAgrees(bad, s, r); ServeFair(bad, s, r);
      case Spontaneous(f) => SpontaneousAgrees(bad, s, f);
    }
  }

  lemma {:induction false} SysRunsInv(bad: iset<Key>, s: System, steps: seq<SysStep>, t: System)
    requires SysInv(bad, s) && SysRuns(bad, s, steps, t)
    ensures SysInv(bad, t)
    decreases steps
  {
    if steps != [] {
      SysStepInv(bad, s, steps[0]);
      SysRunsInv(bad, SysApply(bad, s, steps[0]), steps[1..], t);
    }
  }

  lemma SysReachableInv(bad: iset<Key>, s: System)
    requires SysReachable(bad, s)
    ensures SysInv(bad, s)
  {
    var auto, steps :| SysRuns(bad, SysInit(auto), steps, s);
    InitInv(auto);
    SysRunsInv(bad, SysInit(auto), steps, s);
  }

  /**
   Nothing is under way: no call between its mutation and its registration, no
   signal, an idle declare loop, no rate-limit timer, a live connection, and every
   declaration and every ack or rate-limit frame processed.
   */
  predicate Quiescent(s: System) {
    && s.c.hist.limbo == map[]
    && !s.c.sh.token
    && s.c.loop.at == Idle
    && s.c.reader.at == Reading
    && s.c.timers == 0
    && s.c.run.at == Serving
    && !ConnDone(s.c)
    && s.inbox == []
    && (forall f :: f in s.outbox ==> !f.Ack? && !f.RateLimited?)
  }

  /**
   The client's set is what the server delivers, for every interleaving and any
   number of reconnects, unless the server refused the last declaration outright.
   */
  lemma QuiescentAgreement(bad: iset<Key>, s: System)
    requires SysReachable(bad, s) && Quiescent(s) && !s.refused
    ensures Replay(s.c.hist.log) == s.eff
    ensures forall k :: k in s.eff ==> k !in bad
  {
    SysReachableInv(bad, s);
    QuiescentSettled(bad, s);
  }

  lemma QuiescentSettled(bad: iset<Key>, s: System)
    requires Agreeing(bad, s) && Quiescent(s) && !s.refused
    ensures Mine(s) == s.eff && forall k :: k in s.eff ==> k !in bad
  {
  }
}
