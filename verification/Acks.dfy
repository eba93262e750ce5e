/**
 What the read loop does with an ack or a refusal, followed over every run from the
 frame's arrival: which keys it takes out of the set, whom it leaves waiting, and
 that nobody is told what no frame said.
 */
module Acks {
  import opened Mutations
  import opened Declaring
  import opened Protocol
  import opened Batches
  import opened Safety
  import opened Theorems

  // ------------------------------------------------------------- rejections

  /** Steps other than the arrival of a frame. */
  predicate NoFrame(step: Step) {
    !(step.Reads? && step.r.Receive?)
  }

  /** And other than a call that changes the set. */
  predicate NoCall(step: Step) {
    NoFrame(step) && !(step.Api? && step.api.Mutating?)
  }

  function Rejections(keys: seq<Key>): seq<Mutation> {
    seq(|keys|, i requires 0 <= i < |keys| => Reject(keys[i]))
  }

  /** The keys a log rejects, in order. */
  function Rejected(log: seq<Mutation>): seq<Key> {
    if log == [] then []
    else
      var last := log[|log| - 1];
      Rejected(log[..|log| - 1]) + (if last.Reject? then [last.target] else [])
  }

  /** What a check passed or failed lets the reader do with the first n rejections. */
  function Due(stale: bool, keys: seq<Key>, n: nat): seq<Key>
    requires n <= |keys|
  {
    if stale then [] else keys[..n]
  }

  /** How far the reader is with the rejections of one ack. */
  function Progress(rd: Reader, keys: seq<Key>): nat {
    if rd.at == Rejecting && rd.i <= |keys| then rd.i else |keys|
  }

  /** The reader works on this ack, or has finished with it. */
  predicate Working(rd: Reader, stale: bool, keys: seq<Key>) {
    && rd.at != Checking
    && (rd.at == Rejecting ==> rd.rejected == keys && rd.stale == stale && rd.i <= |keys|)
  }

  predicate Applying(log: seq<Mutation>, stale: bool, keys: seq<Key>, d: Client) {
    Working(d.reader, stale, keys) && Rejected(d.hist.log) == Rejected(log) + Due(stale, keys, Progress(d.reader, keys))
  }

  predicate ApplyingAlone(log: seq<Mutation>, stale: bool, keys: seq<Key>, d: Client) {
    Working(d.reader, stale, keys) && d.hist.log == log + Rejections(Due(stale, keys, Progress(d.reader, keys)))
  }

  lemma RejectedAppend(log: seq<Mutation>, m: Mutation)
    ensures Rejected(log + [m]) == Rejected(log) + (if m.Reject? then [m.target] else [])
  {
    assert (log + [m])[..|log|] == log;
  }

  /** Everyone but the reader and the callers leaves the log alone, and the reader as it is or fresh. */
  lemma OthersKeepLog(c: Client, step: Step)
    requires Enabled(c, step) && !step.Reads? && !step.Api?
    ensures Apply(c, step).hist.log == c.hist.log
    ensures Apply(c, step).reader == c.reader || Apply(c, step).reader == READING
    ensures c.reader.at == Rejecting && step == Running(Signal) ==> c.run.at == Signalling
    ensures step != Running(Signal) ==> Apply(c, step).reader == c.reader
  {
    match step {
      case Gathering(g) => assert GatherApply(c, g).reader == c.reader && GatherApply(c, g).hist.log == c.hist.log;
      case Sending(e) => assert SendApply(c, e).reader == c.reader && SendApply(c, e).hist.log == c.hist.log;
      case _ =>
    }
  }

  lemma ReadWorks(c: Client, r: ReadStep, stale: bool, keys: seq<Key>)
    requires Working(c.reader, stale, keys) && ReadEnabled(c, r) && !r.Receive?
    ensures var d := ReadApply(c, r);
            && Working(d.reader, stale, keys)
            && (r.RejectNext? ==> Progress(c.reader, keys) < |keys| && Progress(d.reader, keys) == Progress(c.reader, keys) + 1)
            && (!r.RejectNext? ==> Progress(d.reader, keys) == Progress(c.reader, keys))
            && d.hist.log == c.hist.log + if r.RejectNext? && !stale then [Reject(keys[Progress(c.reader, keys)])] else []
  {
  }

  lemma DueNext(stale: bool, keys: seq<Key>, n: nat)
    requires n < |keys|
    ensures Due(stale, keys, n + 1) == Due(stale, keys, n) + if stale then [] else [keys[n]]
  {
  }

  lemma RejectionsNext(a: seq<Key>, k: Key)
    ensures Rejections(a + [k]) == Rejections(a) + [Reject(k)]
  {
  }

  lemma StepApplies(log: seq<Mutation>, stale: bool, keys: seq<Key>, c: Client, step: Step)
    requires Applying(log, stale, keys, c) && Tidied(c) && Enabled(c, step) && NoFrame(step)
    ensures Applying(log, stale, keys, Apply(c, step))
  {
    match step {
      case Reads(r) =>
        ReadWorks(c, r, stale, keys);
        if r.RejectNext? {
          var n := Progress(c.reader, keys);
          DueNext(stale, keys, n);
          RejectedAppend(c.hist.log, Reject(keys[n]));
        }
      case Api(a) =>
        if a.Mutating? {
          RejectedAppend(c.hist.log, a.m);
        }
      case _ => OthersKeepLog(c, step);
    }
  }

  /** The reader is gone before a new connection is signalled. */
  predicate Tidied(c: Client) {
    c.run.at == Signalling ==> c.reader.at == Gone
  }

  lemma StepAppliesAlone(log: seq<Mutation>, stale: bool, keys: seq<Key>, c: Client, step: Step)
    requires ApplyingAlone(log, stale, keys, c) && Tidied(c) && Enabled(c, step) && NoCall(step)
    ensures ApplyingAlone(log, stale, keys, Apply(c, step))
  {
    match step {
      case Reads(r) =>
        ReadWorks(c, r, stale, keys);
        if r.RejectNext? {
          var n := Progress(c.reader, keys);
          DueNext(stale, keys, n);
          if !stale {
            RejectionsNext(Due(stale, keys, n), keys[n]);
          }
        }
      case Api(a) =>
      case _ => OthersKeepLog(c, step);
    }
  }

  lemma InvTidied(c: Client)
    requires Inv(c)
    ensures Tidied(c)
  {
  }

  lemma {:induction false} RunApplies(log: seq<Mutation>, stale: bool, keys: seq<Key>, c: Client, steps: seq<Step>, d: Client)
    requires Inv(c) && Applying(log, stale, keys, c) && Runs(c, steps, d) && forall s :: s in steps ==> NoFrame(s)
    ensures Applying(log, stale, keys, d)
    decreases steps
  {
    if steps != [] {
      InvTidied(c);
      StepInv(c, steps[0]);
      StepApplies(log, stale, keys, c, steps[0]);
      RunApplies(log, stale, keys, Apply(c, steps[0]), steps[1..], d);
    }
  }

  lemma {:induction false} RunAppliesAlone(log: seq<Mutation>, stale: bool, keys: seq<Key>, c: Client, steps: seq<Step>, d: Client)
    requires Inv(c) && ApplyingAlone(log, stale, keys, c) && Runs(c, steps, d) && forall s :: s in steps ==> NoCall(s)
    ensures ApplyingAlone(log, stale, keys, d)
    decreases steps
  {
    if steps != [] {
      InvTidied(c);
      StepInv(c, steps[0]);
      StepAppliesAlone(log, stale, keys, c, steps[0]);
      RunAppliesAlone(log, stale, keys, Apply(c, steps[0]), steps[1..], d);
    }
  }

  /** The ack names another declaration than the last one. */
  predicate Outdated(c: Client) {
    c.reader.id != NoId && c.sh.lastId != NoId && c.reader.id != c.sh.lastId
  }

  lemma StartsApplying(c: Client)
    requires ReadEnabled(c, CheckStale)
    ensures var d := ReadApply(c, CheckStale);
            && Applying(c.hist.log, Outdated(c), c.reader.rejected, d)
            && ApplyingAlone(c.hist.log, Outdated(c), c.reader.rejected, d)
  {
    assert Due(Outdated(c), c.reader.rejected, 0) == [];
    assert Rejections([]) == [];
  }

  /**
   A stale ack takes no key out of the set: whatever else happens until the next
   frame, its rejections are not among the mutations. An ack that passes the check
   takes out each key it rejects, in order, whatever calls come in between.
   */
  lemma AckRejects(c: Client, steps: seq<Step>, d: Client)
    requires Reachable(c) && ReadEnabled(c, CheckStale)
    requires Runs(ReadApply(c, CheckStale), steps, d) && forall s :: s in steps ==> NoFrame(s)
    ensures Outdated(c) ==> Rejected(d.hist.log) == Rejected(c.hist.log)
    ensures !Outdated(c) && d.reader.at != Rejecting ==> Rejected(d.hist.log) == Rejected(c.hist.log) + c.reader.rejected
  {
    ReachableInv(c);
    ReadInv(c, CheckStale);
    var keys := c.reader.rejected;
    StartsApplying(c);
    RunApplies(c.hist.log, Outdated(c), keys, ReadApply(c, CheckStale), steps, d);
    assert keys[..|keys|] == keys;
  }

  /** When no call interferes, the log afterwards is the log before, followed by just those rejections. */
  lemma AckRejectsOnly(c: Client, steps: seq<Step>, d: Client)
    requires Reachable(c) && ReadEnabled(c, CheckStale)
    requires Runs(ReadApply(c, CheckStale), steps, d) && forall s :: s in steps ==> NoCall(s)
    ensures Outdated(c) ==> d.hist.log == c.hist.log
    ensures !Outdated(c) && d.reader.at != Rejecting ==> d.hist.log == c.hist.log + Rejections(c.reader.rejected)
  {
    ReachableInv(c);
    ReadInv(c, CheckStale);
    var keys := c.reader.rejected;
    StartsApplying(c);
    RunAppliesAlone(c.hist.log, Outdated(c), keys, ReadApply(c, CheckStale), steps, d);
    assert keys[..|keys|] == keys;
    assert c.hist.log + [] == c.hist.log;
  }

  // ---------------------------------------------------------- whom it answers

  /** A frame that settles declaration `id`: its ack, or an error frame that names it. */
  predicate Settles(f: Frame, id: Id) {
    (f.Ack? && f.id == id) || (f.Refused? && f.id == id)
  }

  /** The reader still has to take the batch of `id`, or none is left to take. */
  predicate Taken(c: Client, id: Id) {
    || ((c.reader.at == Checking || c.reader.at == Rejecting || c.reader.at == Taking) && c.reader.id == id)
    || TakenBatch(c.sh, id) == []
  }

  lemma SendTakes(c: Client, e: SendStep, n: nat)
    requires Taken(c, Declared(n)) && Beyond(c, n) && OneBatch(c) && SendEnabled(c, e)
    requires e.AnnounceBody? ==> c.loop.n == c.seqNo
    ensures Taken(SendApply(c, e), Declared(n))
  {
  }

  lemma ReadTakes(c: Client, r: ReadStep, n: nat)
    requires Taken(c, Declared(n)) && OneBatch(c) && ReadEnabled(c, r) && !r.Receive?
    ensures Taken(ReadApply(c, r), Declared(n))
  {
    if r.TakeAnswers? {
      TakesAllOrNothing(c, c.reader.id);
      TakesAllOrNothing(c, Declared(n));
    }
  }

  lemma SameBatchesTake(c: Client, d: Client, id: Id)
    requires Taken(c, id) && d.reader == c.reader && (d.sh.batches == c.sh.batches || d.sh.batches == [])
    ensures Taken(d, id)
  {
  }

  lemma RunStepTakes(c: Client, u: RunStep, id: Id)
    requires Taken(c, id) && Tidied(c) && RunEnabled(c, u)
    ensures Taken(RunApply(c, u), id)
  {
    if !u.Signal? {
      SameBatchesTake(c, RunApply(c, u), id);
    }
  }

  lemma InvNumbered(c: Client)
    requires Inv(c) && c.loop.at == Prepared
    ensures c.loop.n == c.seqNo
  {
  }

  lemma StepTakes(c: Client, step: Step, n: nat)
    requires OneBatch(c) && Tidied(c) && (c.loop.at == Prepared ==> c.loop.n == c.seqNo)
    requires Taken(c, Declared(n)) && Beyond(c, n) && Enabled(c, step) && NoFrame(step)
    ensures Taken(Apply(c, step), Declared(n))
  {
    match step {
      case Api(a) => SameBatchesTake(c, ApiApply(c, a), Declared(n));
      case Gathering(g) => SameBatchesTake(c, GatherApply(c, g), Declared(n));
      case Sending(e) => SendTakes(c, e, n);
      case Reads(r) => ReadTakes(c, r, n);
      case Running(u) => RunStepTakes(c, u, Declared(n));
      case CloseCall(k) => SameBatchesTake(c, CloseApply(c, k), Declared(n));
      case Misc(x) => SameBatchesTake(c, MiscApply(c, x), Declared(n));
    }
  }

  lemma {:induction false} RunTakes(c: Client, steps: seq<Step>, d: Client, n: nat)
    requires Inv(c) && Taken(c, Declared(n)) && Beyond(c, n)
    requires Runs(c, steps, d) && forall s :: s in steps ==> NoFrame(s)
    ensures Taken(d, Declared(n))
    decreases steps
  {
    if steps != [] {
      StepInv(c, steps[0]);
      InvTidied(c);
      if c.loop.at == Prepared {
        InvNumbered(c);
      }
      StepTakes(c, steps[0], n);
      StepBeyond(c, steps[0], n);
      RunTakes(Apply(c, steps[0]), steps[1..], d, n);
    }
  }

  lemma LastIdBeyond(c: Client, n: nat)
    requires Inv(c) && c.sh.lastId == Declared(n)
    ensures Beyond(c, n)
  {
  }

  /**
   Once the reader has dealt with the ack of the last declaration, or with an error
   frame that names it, nobody hangs on that id any more.
   */
  lemma NobodyLeftHanging(c: Client, f: Frame, n: nat, steps: seq<Step>, d: Client)
    requires Reachable(c) && ReadEnabled(c, Receive(f)) && Settles(f, Declared(n)) && c.sh.lastId == Declared(n)
    requires Runs(ReadApply(c, Receive(f)), steps, d) && forall s :: s in steps ==> NoFrame(s)
    requires d.reader.at == Reading || d.reader.at == Answering || d.reader.at == Gone
    ensures TakenBatch(d.sh, Declared(n)) == []
  {
    ReachableInv(c);
    ReadInv(c, Receive(f));
    LastIdBeyond(c, n);
    RunTakes(ReadApply(c, Receive(f)), steps, d, n);
  }

  // ----------------------------------------------------------- what it says

  /** The frame behind a cause, if there must have been one. */
  predicate Said(frames: set<Frame>, cause: Cause) {
    match cause
    case Acked(id, rejected) => Ack(id, rejected) in frames
    case Failed(id) => Refused(id) in frames
    case _ => true
  }

  /** Nobody has been, or is about to be, told what no frame said. */
  predicate Honest(frames: set<Frame>, c: Client) {
    && (c.reader.at == Checking || c.reader.at == Rejecting ==> Ack(c.reader.id, c.reader.rejected) in frames)
    && (c.reader.at == Taking || c.reader.at == Answering ==> Said(frames, c.reader.cause))
    && !c.loop.cause.Acked? && !c.loop.cause.Failed?
    && forall r :: r in c.past.released ==> Said(frames, r.cause)
  }

  function Heard(frames: set<Frame>, step: Step): set<Frame> {
    if NoFrame(step) then frames else frames + {step.r.f}
  }

  lemma ReadHonest(frames: set<Frame>, c: Client, r: ReadStep)
    requires Honest(frames, c) && ReadEnabled(c, r)
    ensures Honest(Heard(frames, Reads(r)), ReadApply(c, r))
  {
  }

  lemma SendHonest(frames: set<Frame>, c: Client, e: SendStep)
    requires Honest(frames, c) && SendEnabled(c, e)
    ensures Honest(frames, SendApply(c, e))
  {
  }

  lemma GatherHonest(frames: set<Frame>, c: Client, g: GatherStep)
    requires Honest(frames, c) && GatherEnabled(c, g)
    ensures Honest(frames, GatherApply(c, g))
  {
  }

  lemma RunStepHonest(frames: set<Frame>, c: Client, u: RunStep)
    requires Honest(frames, c) && RunEnabled(c, u)
    ensures Honest(frames, RunApply(c, u))
  {
  }

  lemma QuietHonest(frames: set<Frame>, c: Client, d: Client)
    requires Honest(frames, c) && d.reader == c.reader && d.loop == c.loop && d.past == c.past
    ensures Honest(frames, d)
  {
  }

  lemma StepHonest(frames: set<Frame>, c: Client, step: Step)
    requires Honest(frames, c) && Enabled(c, step)
    ensures Honest(Heard(frames, step), Apply(c, step))
  {
    match step {
      case Reads(r) => ReadHonest(frames, c, r);
      case Sending(e) => SendHonest(frames, c, e);
      case Gathering(g) => GatherHonest(frames, c, g);
      case Running(u) => RunStepHonest(frames, c, u);
      case Api(a) => QuietHonest(frames, c, ApiApply(c, a));
      case CloseCall(k) => QuietHonest(frames, c, CloseApply(c, k));
      case Misc(x) => QuietHonest(frames, c, MiscApply(c, x));
    }
  }

  /** The frames a run receives. */
  function Frames(steps: seq<Step>): set<Frame> {
    set s | s in steps && !NoFrame(s) :: s.r.f
  }

  lemma {:induction false} RunHonest(frames: set<Frame>, c: Client, steps: seq<Step>, d: Client)
    requires Honest(frames, c) && Runs(c, steps, d)
    ensures Honest(frames + Frames(steps), d)
    decreases steps
  {
    if steps == [] {
      assert frames + Frames(steps) == frames;
    } else {
      StepHonest(frames, c, steps[0]);
      RunHonest(Heard(frames, steps[0]), Apply(c, steps[0]), steps[1..], d);
      assert steps == [steps[0]] + steps[1..];
      assert frames + Frames(steps) == Heard(frames, steps[0]) + Frames(steps[1..]);
    }
  }

  /**
   Whoever is told that a declaration was acknowledged, or that it failed, is told so
   because exactly such a frame was read. A rate limit in particular fails nobody.
   */
  lemma ToldAsReceived(auto: bool, steps: seq<Step>, d: Client, r: Release)
    requires Runs(Init(auto), steps, d) && r in d.past.released
    ensures r.cause.Acked? ==> Reads(Receive(Ack(r.cause.id, r.cause.rejected))) in steps
    ensures r.cause.Failed? ==> Reads(Receive(Refused(r.cause.id))) in steps
  {
    RunHonest({}, Init(auto), steps, d);
    assert Said({} + Frames(steps), r.cause);
    if r.cause.Acked? {
      var s :| s in steps && !NoFrame(s) && s.r.f == Ack(r.cause.id, r.cause.rejected);
    } else if r.cause.Failed? {
      var s :| s in steps && !NoFrame(s) && s.r.f == Refused(r.cause.id);
    }
  }
}
