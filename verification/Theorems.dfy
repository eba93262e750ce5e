/**
 What every run of the stream keeps, whatever the server, the network and the
 scheduler do.
 */
module Theorems {
  import opened Mutations
  import opened Declaring
  import opened Protocol
  import opened Conservation
  import opened Batches
  import opened Coverage
  import opened Pacing
  import opened Ownership
  import opened Safety

  // ------------------------------------------------------------- runs

  lemma {:induction false} RunsAppend(a: Client, steps: seq<Step>, b: Client, step: Step)
    requires Runs(a, steps, b) && Enabled(b, step)
    ensures Runs(a, steps + [step], Apply(b, step))
    decreases steps
  {
    if steps != [] {
      RunsAppend(Apply(a, steps[0]), steps[1..], b, step);
      assert (steps + [step])[1..] == steps[1..] + [step];
    }
  }

  // ------------------------------------------------------------- waiters

  /** No waiter is answered twice, and whoever holds a waiter may still send to it without blocking. */
  lemma AnsweredAtMostOnce(c: Client, w: Waiter)
    requires Reachable(c)
    ensures Answers(c.past.released, w) <= 1
    ensures Held(c, w) > 0 ==> Held(c, w) == 1 && Answers(c.past.released, w) == 0 && w in c.hist.reg
  {
    ReachableInv(c);
    assert Accounted(c, w);
  }

  /** The waiters in the declare loop's hands at each cancelled interval wait of a run. */
  function Lost(c: Client, steps: seq<Step>): seq<Waiter>
    decreases steps
  {
    if steps == [] || !Enabled(c, steps[0]) then []
    else (if steps[0] == Gathering(Lose) then c.loop.waiting else [])
         + Lost(Apply(c, steps[0]), steps[1..])
  }

  lemma SendDropsNobody(c: Client, e: SendStep)
    requires SendEnabled(c, e)
    ensures SendApply(c, e).past.dropped == c.past.dropped
  {
  }

  lemma ReadDropsNobody(c: Client, r: ReadStep)
    requires ReadEnabled(c, r)
    ensures ReadApply(c, r).past.dropped == c.past.dropped
  {
  }

  lemma DropsOnlyByLose(c: Client, step: Step)
    requires Enabled(c, step)
    ensures Apply(c, step).past.dropped ==
            c.past.dropped + if step == Gathering(Lose) then c.loop.waiting else []
  {
    match step {
      case Sending(e) => SendDropsNobody(c, e);
      case Reads(r) => ReadDropsNobody(c, r);
      case _ =>
    }
  }

  lemma {:induction false} DroppedIsLost(c: Client, steps: seq<Step>, d: Client)
    requires Runs(c, steps, d)
    ensures d.past.dropped == c.past.dropped + Lost(c, steps)
    decreases steps
  {
    if steps != [] {
      DropsOnlyByLose(c, steps[0]);
      DroppedIsLost(Apply(c, steps[0]), steps[1..], d);
    }
  }

  /**
   Conservation: after any run a registered waiter is held or answered, exactly
   once in all, if and only if no cancelled interval wait had it in hand.
   */
  lemma WaiterConservation(auto: bool, steps: seq<Step>, c: Client, w: Waiter)
    requires Runs(Init(auto), steps, c) && w in c.hist.reg
    ensures Held(c, w) + Answers(c.past.released, w) <= 1
    ensures Held(c, w) + Answers(c.past.released, w) == 1 <==> w !in Lost(Init(auto), steps)
  {
    InitInv(auto);
    RunsInv(Init(auto), steps, c);
    DroppedIsLost(Init(auto), steps, c);
    assert Accounted(c, w);
    CountIn(c.past.dropped, w);
  }

  lemma {:induction false} CountIn(ws: seq<Waiter>, w: Waiter)
    ensures Count(ws, w) > 0 <==> w in ws
  {
    if ws != [] {
      CountIn(ws[1..], w);
    }
  }

  lemma {:induction false} NothingLost(c: Client, steps: seq<Step>)
    requires Gathering(Lose) !in steps
    ensures Lost(c, steps) == []
    decreases steps
  {
    if steps != [] && Enabled(c, steps[0]) {
      NothingLost(Apply(c, steps[0]), steps[1..]);
    }
  }

  /** A run without that step loses nobody. */
  lemma NoWaiterLost(auto: bool, steps: seq<Step>, c: Client, w: Waiter)
    requires Runs(Init(auto), steps, c) && w in c.hist.reg && Gathering(Lose) !in steps
    ensures Held(c, w) + Answers(c.past.released, w) == 1
  {
    WaiterConservation(auto, steps, c, w);
    NothingLost(Init(auto), steps);
  }

  /** A lost waiter is never answered, by any continuation of the run. */
  lemma LostForever(auto: bool, steps: seq<Step>, c: Client, more: seq<Step>, d: Client, w: Waiter)
    requires Runs(Init(auto), steps, c) && Runs(c, more, d)
    requires w in Lost(Init(auto), steps)
    ensures Held(d, w) == 0 && Answers(d.past.released, w) == 0
  {
    InitInv(auto);
    RunsInv(Init(auto), steps, c);
    RunsInv(c, more, d);
    DroppedIsLost(Init(auto), steps, c);
    DroppedIsLost(c, more, d);
    CountIn(d.past.dropped, w);
    assert Accounted(d, w);
  }

  // ------------------------------------------------------------- batches and acks

  /**
   No orphan batch: there is at most one, and the ack of the id declared last
   takes every waiter that was sent and not yet answered.
   */
  lemma NoOrphanBatch(c: Client)
    requires Reachable(c)
    ensures |c.sh.batches| <= 1
    ensures c.sh.batches != [] ==> c.sh.batches[0].id == c.sh.lastId != NoId
    ensures TakenBatch(c.sh, c.sh.lastId) == AllWaiters(c.sh.batches)
    ensures TakeBatch(c.sh, c.sh.lastId).batches == []
    ensures forall id :: id != c.sh.lastId ==> TakenBatch(c.sh, id) == []
  {
    ReachableInv(c);
    forall id {
      TakesAllOrNothing(c, id);
    }
  }

  /** The number of the declaration whose ack, or whose empty write, released `r`. */
  predicate ReleasedBy(r: Release, n: nat) {
    match r.cause
    case Acked(id, _) => id == Declared(n)
    case Emptied(m) => m == n
    case _ => false
  }

  /**
   An ack covers the call: the released call's mutation is part of the declared
   snapshot, so a key the call put in and the snapshot lacks was taken out by a
   later mutation.
   */
  lemma AckCoversCall(c: Client, r: Release, n: nat, k: Key) returns (j: nat)
    requires Reachable(c) && r in c.past.released && ReleasedBy(r, n)
    ensures r.w in c.hist.reg && n in c.hist.decls
    ensures c.hist.reg[r.w] <= c.hist.decls[n] <= |c.hist.log|
    ensures k in Replay(c.hist.log[..c.hist.reg[r.w]]) && k !in Body(c.hist, n) ==>
              && c.hist.reg[r.w] <= j < c.hist.decls[n]
              && k in Replay(c.hist.log[..j]) && Removes(c.hist.log[j], k)
  {
    ReachableInv(c);
    assert Justifies(c.hist, r.cause, [r.w]);
    var v, d := c.hist.reg[r.w], c.hist.decls[n];
    if k in Replay(c.hist.log[..v]) && k !in Replay(c.hist.log[..d]) {
      j := MissingKeyWasRemoved(c.hist.log, v, d, k);
    } else {
      j := 0;
    }
  }

  /** Only a refusal naming a declaration reaches its waiters, and it covers them the same way. */
  lemma RefusalCoversCall(c: Client, r: Release)
    requires Reachable(c) && r in c.past.released && r.cause.Failed?
    ensures r.cause.id.Declared? && r.cause.id.n in c.hist.decls
    ensures r.w in c.hist.reg && c.hist.reg[r.w] <= c.hist.decls[r.cause.id.n]
  {
    ReachableInv(c);
    assert Justifies(c.hist, r.cause, [r.w]);
  }

  // ------------------------------------------------------------- wake-ups

  /** A waiting caller has a signal, a round that will drain it, or a teardown that will answer it. */
  lemma NoLostWakeUp(c: Client)
    requires Reachable(c) && c.sh.pending != []
    ensures c.sh.token || BeforeDrain(c.loop.at) || (c.loop.at == Dead && c.run.at == Serving)
  {
    ReachableInv(c);
  }

  /** Steps that ask for a declaration: a call, a rate-limit timer, a reconnection. */
  predicate Signals(step: Step) {
    || (step.Api? && step.api.Registering?)
    || (step.Misc? && (step.x.TimerFires? || step.x == OldTimer(true)))
    || step == Running(Signal)
  }

  lemma SendSignalsNot(c: Client, e: SendStep)
    requires SendEnabled(c, e)
    ensures SendApply(c, e).sh.token == c.sh.token
  {
  }

  lemma ReadSignalsNot(c: Client, r: ReadStep)
    requires ReadEnabled(c, r)
    ensures ReadApply(c, r).sh.token == c.sh.token
  {
  }

  lemma StaysUnsignalled(c: Client, step: Step)
    requires Enabled(c, step) && !Signals(step) && !c.sh.token
    ensures !Apply(c, step).sh.token
  {
    match step {
      case Sending(e) => SendSignalsNot(c, e);
      case Reads(r) => ReadSignalsNot(c, r);
      case _ =>
    }
  }

  lemma {:induction false} UnsignalledRun(c: Client, steps: seq<Step>, d: Client)
    requires Runs(c, steps, d) && !c.sh.token && forall s :: s in steps ==> !Signals(s)
    ensures !d.sh.token
    decreases steps
  {
    if steps != [] {
      StaysUnsignalled(c, steps[0]);
      UnsignalledRun(Apply(c, steps[0]), steps[1..], d);
    }
  }

  /**
   A round takes the signals of the calls it drains with it: until someone asks anew,
   no further round can start, so nothing is declared twice for the same calls.
   */
  lemma NoSpareRound(c: Client, steps: seq<Step>, d: Client, coalesce: bool)
    requires GatherEnabled(c, DrainAll)
    requires Runs(GatherApply(c, DrainAll), steps, d) && forall s :: s in steps ==> !Signals(s)
    ensures !GatherEnabled(d, TakeToken(coalesce))
  {
    UnsignalledRun(GatherApply(c, DrainAll), steps, d);
  }

  // ------------------------------------------------------------- pace

  lemma DeclarationRate(c: Client, start: nat, width: nat, i: nat, j: nat)
    requires Reachable(c) && i <= j < |c.past.writes|
    ensures c.past.writes[j] - c.past.writes[i] >= (j - i) * MIN_DECLARE_INTERVAL
    ensures start <= c.past.writes[i] && c.past.writes[j] <= start + width ==>
              j - i + 1 <= width / MIN_DECLARE_INTERVAL + 1
  {
    ReachableInv(c);
    SpacedApart(c.past.writes, i, j);
    if start <= c.past.writes[i] && c.past.writes[j] <= start + width {
      WindowBound(c.past.writes, start, width, i, j);
    }
  }

  /** The documented limit: no second has more than five declarations. */
  lemma FivePerSecond(c: Client, i: nat, j: nat)
    requires Reachable(c) && i <= j < |c.past.writes| && c.past.writes[j] <= c.past.writes[i] + 1000
    ensures j - i + 1 <= 5
    ensures c.past.writes[j] >= c.past.writes[i] + 210 * (j - i)
  {
    DeclarationRate(c, c.past.writes[i], 1000, i, j);
  }

  // ------------------------------------------------------------- stale acks

  /** Steps that leave `lastDeclareID` alone. */
  predicate KeepsLastId(step: Step) {
    step != Sending(AnnounceBody) && step != Sending(UndoWrite)
  }

  lemma SendKeepsLastId(c: Client, e: SendStep)
    requires SendEnabled(c, e) && !e.AnnounceBody? && !e.UndoWrite?
    ensures SendApply(c, e).sh.lastId == c.sh.lastId
  {
  }

  lemma ReadKeepsLastId(c: Client, r: ReadStep)
    requires ReadEnabled(c, r)
    ensures ReadApply(c, r).sh.lastId == c.sh.lastId
  {
  }

  lemma StepKeepsLastId(c: Client, step: Step)
    requires Enabled(c, step) && KeepsLastId(step)
    ensures Apply(c, step).sh.lastId == c.sh.lastId
  {
    match step {
      case Sending(e) => SendKeepsLastId(c, e);
      case Reads(r) => ReadKeepsLastId(c, r);
      case _ =>
    }
  }

  lemma {:induction false} RunKeepsLastId(c: Client, steps: seq<Step>, d: Client)
    requires Runs(c, steps, d) && forall s :: s in steps ==> KeepsLastId(s)
    ensures d.sh.lastId == c.sh.lastId
    decreases steps
  {
    if steps != [] {
      StepKeepsLastId(c, steps[0]);
      RunKeepsLastId(Apply(c, steps[0]), steps[1..], d);
    }
  }

  /**
   Stale acks stay stale: once declaration n is registered, an ack naming any
   other declaration fails the check, until a later registration or a rollback.
   An ack for n itself, or without an id, passes it.
   */
  lemma StaleStaysStale(c: Client, steps: seq<Step>, d: Client)
    requires SendEnabled(c, AnnounceBody)
    requires Runs(SendApply(c, AnnounceBody), steps, d) && forall s :: s in steps ==> KeepsLastId(s)
    requires ReadEnabled(d, CheckStale)
    ensures ReadApply(d, CheckStale).reader.stale
            <==> d.reader.id != NoId && d.reader.id != Declared(c.loop.n)
  {
    RunKeepsLastId(SendApply(c, AnnounceBody), steps, d);
  }

  /** A round that failed to write only answers its waiters and ends. */
  predicate Exiting(c: Client) {
    c.loop.at == Dead || (c.loop.at == Releasing && c.loop.exits)
  }

  lemma {:induction false} ExitingRun(c: Client, steps: seq<Step>, d: Client)
    requires Exiting(c) && Runs(c, steps, d) && Running(Signal) !in steps
    ensures Exiting(d)
    decreases steps
  {
    if steps != [] {
      StepExiting(c, steps[0]);
      ExitingRun(Apply(c, steps[0]), steps[1..], d);
    }
  }

  lemma StepExiting(c: Client, step: Step)
    requires Exiting(c) && Enabled(c, step) && step != Running(Signal)
    ensures Exiting(Apply(c, step))
  {
  }

  /** The rollback undoes its own registration only, and no declaration follows it on that connection. */
  lemma RollbackEndsConnection(c: Client, steps: seq<Step>, d: Client)
    requires Reachable(c) && SendEnabled(c, UndoWrite)
    requires Runs(SendApply(c, UndoWrite), steps, d) && Running(Signal) !in steps
    ensures c.sh.lastId == Declared(c.loop.n)
    ensures Exiting(d) && !SendEnabled(d, AnnounceBody) && !SendEnabled(d, CarryEmpty)
  {
    ReachableInv(c);
    ExitingRun(SendApply(c, UndoWrite), steps, d);
  }

  /** A declaration that is being written remembers the id before it. */
  predicate Remembers(c: Client, prev: Id) {
    c.loop.at == Writing || c.loop.at == RollingBack ==> c.loop.prev == prev
  }

  lemma SendRemembers(c: Client, e: SendStep, prev: Id)
    requires Remembers(c, prev) && SendEnabled(c, e) && !e.AnnounceBody?
    ensures Remembers(SendApply(c, e), prev)
  {
  }

  lemma GatherRemembers(c: Client, g: GatherStep, prev: Id)
    requires Remembers(c, prev) && GatherEnabled(c, g)
    ensures Remembers(GatherApply(c, g), prev)
  {
  }

  lemma StepRemembers(c: Client, step: Step, prev: Id)
    requires Remembers(c, prev) && Enabled(c, step) && KeepsLastId(step)
    ensures Remembers(Apply(c, step), prev)
  {
    match step {
      case Gathering(g) => GatherRemembers(c, g, prev);
      case Sending(e) => SendRemembers(c, e, prev);
      case Reads(r) => ReadKeepsRound(c, r);
      case _ =>
    }
  }

  lemma {:induction false} RunRemembers(c: Client, steps: seq<Step>, d: Client, prev: Id)
    requires Remembers(c, prev) && Runs(c, steps, d) && forall s :: s in steps ==> KeepsLastId(s)
    ensures Remembers(d, prev)
    decreases steps
  {
    if steps != [] {
      StepRemembers(c, steps[0], prev);
      RunRemembers(Apply(c, steps[0]), steps[1..], d, prev);
    }
  }

  /** A rollback puts back the id that was the last one before its own registration. */
  lemma RollbackRestores(c: Client, steps: seq<Step>, d: Client)
    requires SendEnabled(c, AnnounceBody)
    requires Runs(SendApply(c, AnnounceBody), steps, d) && forall s :: s in steps ==> KeepsLastId(s)
    requires SendEnabled(d, UndoWrite)
    ensures SendApply(d, UndoWrite).sh.lastId == c.sh.lastId
  {
    RunRemembers(SendApply(c, AnnounceBody), steps, d, c.sh.lastId);
  }

  /** Beyond number `n`: it is in use no more, or the next round has a larger one. */
  predicate Beyond(c: Client, n: nat) {
    n < c.seqNo || (n == c.seqNo && c.loop.at != Snapshotting && !HasBody(c.loop.at) && !WritesEmpty(c.loop.at))
  }

  lemma GatherBeyond(c: Client, g: GatherStep, n: nat)
    requires Beyond(c, n) && GatherEnabled(c, g)
    ensures Beyond(GatherApply(c, g), n)
  {
  }

  lemma SendBeyond(c: Client, e: SendStep, n: nat)
    requires Beyond(c, n) && SendEnabled(c, e)
    ensures Beyond(SendApply(c, e), n)
  {
  }

  lemma ReadKeepsRound(c: Client, r: ReadStep)
    requires ReadEnabled(c, r)
    ensures ReadApply(c, r).loop == c.loop && ReadApply(c, r).seqNo == c.seqNo
  {
  }

  lemma StepBeyond(c: Client, step: Step, n: nat)
    requires Beyond(c, n) && Enabled(c, step)
    ensures Beyond(Apply(c, step), n)
  {
    match step {
      case Gathering(g) => GatherBeyond(c, g, n);
      case Sending(e) => SendBeyond(c, e, n);
      case Reads(r) => ReadKeepsRound(c, r);
      case _ =>
    }
  }

  lemma {:induction false} RunBeyond(c: Client, steps: seq<Step>, d: Client, n: nat)
    requires Beyond(c, n) && Runs(c, steps, d)
    ensures Beyond(d, n)
    decreases steps
  {
    if steps != [] {
      StepBeyond(c, steps[0], n);
      RunBeyond(Apply(c, steps[0]), steps[1..], d, n);
    }
  }

  /** Declaration ids are never used again: a later registration has a larger number. */
  lemma IdsNeverReused(c: Client, steps: seq<Step>, d: Client)
    requires Reachable(c) && SendEnabled(c, AnnounceBody)
    requires Runs(SendApply(c, AnnounceBody), steps, d) && SendEnabled(d, AnnounceBody)
    ensures c.loop.n < d.loop.n
  {
    ReachableInv(c);
    SendInv(c, AnnounceBody);
    RunsInv(SendApply(c, AnnounceBody), steps, d);
    RunBeyond(SendApply(c, AnnounceBody), steps, d, c.loop.n);
  }

  // ------------------------------------------------------------- connections

  lemma AtMostOneOpenConnection(c: Client, a: Conn, b: Conn)
    requires Reachable(c) && a in c.net.open && b in c.net.open
    ensures a == b
  {
    ReachableInv(c);
  }

  lemma NothingOwned(c: Client)
    requires Sound(c) && c.run.at == Finished && (c.close.at == Open || c.close.at == Returned)
    ensures c.net.open == {}
  {
  }

  lemma ClosedOnce(net: Net, k: Conn) returns (i: nat)
    requires Ledger(net) && k <= net.dialled && k !in net.open
    ensures i < |net.closings| && net.closings[i].conn == k
    ensures forall j :: 0 <= j < |net.closings| && j != i ==> net.closings[j].conn != k
  {
    i :| 0 <= i < |net.closings| && net.closings[i].conn == k;
  }

  /** Closed once, by one of the two; and after both have returned nothing is open. */
  lemma ClosedExactlyOnce(c: Client, k: Conn) returns (i: nat)
    requires Reachable(c) && k <= c.net.dialled
    requires c.run.at == Finished && (c.close.at == Open || c.close.at == Returned)
    ensures c.net.open == {}
    ensures i < |c.net.closings| && c.net.closings[i].conn == k
    ensures forall j :: 0 <= j < |c.net.closings| && j != i ==> c.net.closings[j].conn != k
  {
    ReachableInv(c);
    NothingOwned(c);
    i := ClosedOnce(c.net, k);
  }

  lemma JoinedQuiet(c: Client, step: Step)
    requires Tidy(c) && c.run.at == Finished
    requires step.Gathering? || step.Sending? || step.Reads? || step.Running? || step == Misc(PingEnds)
    ensures !Enabled(c, step)
  {
  }

  /** After `closeChannels` no goroutine that sends on a user channel can take a step. */
  lemma NoSendAfterClose(c: Client, step: Step)
    requires Reachable(c) && c.run.at == Finished
    requires step.Gathering? || step.Sending? || step.Reads? || step.Running? || step == Misc(PingEnds)
    ensures !Enabled(c, step)
  {
    ReachableInv(c);
    JoinedQuiet(c, step);
  }

  /** `run` dials only while no connection is open: the old one is closed first. */
  lemma CloseBeforeDial(c: Client)
    requires Reachable(c) && RunEnabled(c, DialOk)
    ensures c.net.open == {}
  {
    ReachableInv(c);
  }

  /** How many connections `run` may still dial once the stream is cancelled, or without automatic reconnection. */
  function Remaining(c: Client): nat {
    if c.run.at == Dialling then 1 else 0
  }

  lemma SendDials(c: Client, e: SendStep)
    requires SendEnabled(c, e)
    ensures SendApply(c, e).net == c.net && SendApply(c, e).run == c.run
    ensures SendApply(c, e).auto == c.auto && SendApply(c, e).close == c.close
  {
  }

  lemma ReadDials(c: Client, r: ReadStep)
    requires ReadEnabled(c, r)
    ensures ReadApply(c, r).net == c.net && ReadApply(c, r).run == c.run
    ensures ReadApply(c, r).auto == c.auto && ReadApply(c, r).close == c.close
  {
  }

  lemma StepDials(c: Client, step: Step)
    requires Enabled(c, step) && (Cancelled(c) || !c.auto)
    ensures var d := Apply(c, step);
            && d.auto == c.auto && (Cancelled(c) ==> Cancelled(d))
            && d.net.dialled + Remaining(d) <= c.net.dialled + Remaining(c)
  {
    match step {
      case Sending(e) => SendDials(c, e);
      case Reads(r) => ReadDials(c, r);
      case _ =>
    }
  }

  lemma {:induction false} RunDials(c: Client, steps: seq<Step>, d: Client)
    requires Runs(c, steps, d) && (Cancelled(c) || !c.auto)
    ensures d.net.dialled + Remaining(d) <= c.net.dialled + Remaining(c)
    decreases steps
  {
    if steps != [] {
      StepDials(c, steps[0]);
      RunDials(Apply(c, steps[0]), steps[1..], d);
    }
  }

  /** Without automatic reconnection no connection is ever dialled again. */
  lemma NeverRedials(steps: seq<Step>, d: Client)
    requires Runs(Init(false), steps, d)
    ensures d.net.dialled == 0
  {
    RunDials(Init(false), steps, d);
  }

  /** After `Close` has cancelled the stream at most the dial under way succeeds, and no other is made. */
  lemma DialsEndWithClose(c: Client, steps: seq<Step>, d: Client)
    requires Cancelled(c) && Runs(c, steps, d)
    ensures d.net.dialled <= c.net.dialled + (if c.run.at == Dialling then 1 else 0)
  {
    RunDials(c, steps, d);
  }
}
