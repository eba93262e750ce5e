/**
 Two runs, step by step: one in which the cancelled interval wait loses a waiter,
 and one in which a refused declaration leaves client and server apart although
 nothing is under way. They show that the exclusions in the theorems are needed.
 */
module Examples {
  import opened Wrappers
  import opened Mutations
  import opened Declaring
  import opened Protocol
  import opened Server
  import opened Agreement
  import opened Theorems

  const KEY := "trade:kr:005930"
  const CALL := Add({KEY})

  /** Two runs in a row are a run. */
  lemma {:induction false} RunsConcat(a: Client, s: seq<Step>, b: Client, t: seq<Step>, c: Client)
    requires Runs(a, s, b) && Runs(b, t, c)
    ensures Runs(a, s + t, c)
    decreases s
  {
    if s == [] {
      assert s + t == t;
    } else {
      RunsConcat(Apply(a, s[0]), s[1..], b, t, c);
      assert (s + t)[1..] == s[1..] + t;
    }
  }

  /** A run one step longer. */
  lemma Then(a: Client, steps: seq<Step>, b: Client, step: Step) returns (more: seq<Step>, c: Client)
    requires Runs(a, steps, b) && Enabled(b, step)
    ensures more == steps + [step] && c == Apply(b, step) && Runs(a, more, c)
  {
    RunsAppend(a, steps, b, step);
    more, c := steps + [step], Apply(b, step);
  }

  /** Steps that do not touch the socket. */
  predicate OffSocket(steps: seq<Step>) {
    forall s :: s in steps ==> s.Api? || s.Gathering?
  }

  function AfterCall(c: Client, w: Waiter): Client {
    c.(sh := RegisterWaiter(c.sh, w),
       hist := c.hist.(log := c.hist.log + [CALL], reg := c.hist.reg[w := |c.hist.log| + 1]))
  }

  lemma CallRuns(c: Client, w: Waiter) returns (steps: seq<Step>)
    requires c.hist.limbo == map[] && w !in c.hist.reg
    ensures Runs(c, steps, AfterCall(c, w)) && OffSocket(steps)
  {
    var d: Client;
    steps, d := Then(c, [], c, Api(Mutating(w, CALL)));
    steps, d := Then(c, steps, d, Api(Registering(w)));
    assert d.hist.limbo == map[];
  }

  /** A round of the declare loop, up to the moment it has measured the interval. */
  function AfterRound(c: Client): Client {
    c.(sh := Drain(c.sh), seqNo := c.seqNo + 1,
       hist := c.hist.(decls := c.hist.decls[c.seqNo + 1 := |c.hist.log|]),
       loop := c.loop.(at := if Rested(c) then Prepared else Sleeping, n := c.seqNo + 1,
                       waiting := c.sh.pending, body := Replay(c.hist.log)))
  }

  /** The same round after its drain. */
  function AfterDrain(c: Client): Client {
    c.(sh := Drain(c.sh), seqNo := c.seqNo + 1,
       loop := c.loop.(at := Snapshotting, n := c.seqNo + 1, waiting := c.sh.pending))
  }

  lemma DrainRuns(c: Client) returns (steps: seq<Step>)
    requires c.loop.at == Idle && c.sh.token
    ensures Runs(c, steps, AfterDrain(c)) && OffSocket(steps)
  {
    var d: Client;
    steps, d := Then(c, [], c, Gathering(TakeToken(false)));
    steps, d := Then(c, steps, d, Gathering(DrainAll));
  }

  lemma MeasureRuns(c: Client, d: Client) returns (steps: seq<Step>)
    requires c.loop.at == Snapshotting && c.sh.conn != None
    requires d == c.(hist := c.hist.(decls := c.hist.decls[c.loop.n := |c.hist.log|]),
                     loop := c.loop.(at := if Rested(c) then Prepared else Sleeping, body := Replay(c.hist.log)))
    ensures Runs(c, steps, d) && OffSocket(steps)
  {
    var e: Client;
    steps, e := Then(c, [], c, Gathering(Snapshot));
    steps, e := Then(c, steps, e, Gathering(LookupConn));
    steps, e := Then(c, steps, e, Gathering(Gauge));
  }

  lemma RoundRuns(c: Client) returns (steps: seq<Step>)
    requires c.loop.at == Idle && c.sh.token && c.sh.conn != None
    ensures Runs(c, steps, AfterRound(c)) && OffSocket(steps)
  {
    steps := DrainRuns(c);
    var more := MeasureRuns(AfterDrain(c), AfterRound(c));
    RunsConcat(c, steps, AfterDrain(c), more, AfterRound(c));
    steps := steps + more;
  }

  /** The loop sends what it holds and rests; the waiters hang on the new id. */
  function AfterSent(c: Client): Client {
    c.(sh := Announce(c.sh, Declared(c.loop.n), c.loop.waiting).(lastAt := c.now),
       loop := c.loop.(at := Idle, waiting := [], prev := c.sh.lastId),
       past := c.past.(writes := c.past.writes + [c.now]))
  }

  lemma SentRuns(c: Client) returns (steps: seq<Step>)
    requires c.loop.at == Prepared && c.loop.body != {}
    ensures Runs(c, steps, AfterSent(c))
  {
    var d: Client;
    steps, d := Then(c, [], c, Sending(AnnounceBody));
    steps, d := Then(c, steps, d, Sending(Written));
    steps, d := Then(c, steps, d, Sending(StampWrite));
  }

  lemma CallIsDeclared(log: seq<Mutation>)
    ensures KEY in Replay(log + [CALL])
  {
    ReplayAppend(log, CALL);
  }

  /** A call and a round: the loop is about to act on the call's snapshot. */
  lemma CallAndRound(c: Client, w: Waiter) returns (steps: seq<Step>)
    requires c.hist.limbo == map[] && w !in c.hist.reg && c.loop.at == Idle && c.sh.conn != None
    ensures Runs(c, steps, AfterRound(AfterCall(c, w))) && OffSocket(steps)
  {
    var b := AfterCall(c, w);
    steps := CallRuns(c, w);
    var more := RoundRuns(b);
    RunsConcat(c, steps, b, more, AfterRound(b));
    steps := steps + more;
  }

  /** The client after its first call was declared. */
  function FirstSent(auto: bool): Client {
    AfterSent(AfterRound(AfterCall(Init(auto), 1)))
  }

  lemma FirstCallSent(auto: bool) returns (steps: seq<Step>)
    ensures Runs(Init(auto), steps, FirstSent(auto))
  {
    steps := CallAndRound(Init(auto), 1);
    var d := AfterRound(AfterCall(Init(auto), 1));
    CallIsDeclared([]);
    var more := SentRuns(d);
    RunsConcat(Init(auto), steps, d, more, AfterSent(d));
    steps := steps + more;
  }

  /** A first call, declared; then a second one, for which the loop has to keep the interval. */
  lemma SecondCallSleeps(auto: bool) returns (steps: seq<Step>, c: Client)
    ensures Runs(Init(auto), steps, c)
    ensures c.loop.at == Sleeping && c.loop.waiting == [2] && 2 in c.hist.reg
    ensures c.ping && c.close.at == Open
  {
    steps := FirstCallSent(auto);
    var e := FirstSent(auto);
    var more := CallAndRound(e, 2);
    c := AfterRound(AfterCall(e, 2));
    RunsConcat(Init(auto), steps, e, more, c);
    steps := steps + more;
  }

  /**
   Two calls in quick succession; the connection ends while the loop keeps the
   interval for the second. Its waiter is in nobody's hands and, by LostForever,
   never answered: that call returns only when its own context ends or the stream
   is closed.
   */
  lemma SecondCallIsLost(auto: bool) returns (steps: seq<Step>, c: Client)
    ensures Runs(Init(auto), steps, c)
    ensures 2 in c.hist.reg && 2 in Lost(Init(auto), steps)
    ensures c.close.at == Open
  {
    steps, c := SecondCallSleeps(auto);
    steps, c := Then(Init(auto), steps, c, Misc(PingEnds));
    steps, c := Then(Init(auto), steps, c, Gathering(Lose));
    DroppedIsLost(Init(auto), steps, c);
    assert 2 in c.past.dropped;
  }

  // ------------------------------------------------------------- a refused declaration

  /** A client run off the socket is a run of the whole system. */
  lemma {:induction false} Lift(bad: iset<Key>, s: System, steps: seq<Step>, d: Client) returns (lifted: seq<SysStep>)
    requires Runs(s.c, steps, d) && OffSocket(steps)
    ensures SysRuns(bad, s, lifted, s.(c := d))
    decreases steps
  {
    if steps == [] {
      lifted := [];
    } else {
      var t := s.(c := Apply(s.c, steps[0]));
      assert SysApply(bad, s, OfClient(steps[0])) == t;
      var rest := Lift(bad, t, steps[1..], d);
      lifted := [OfClient(steps[0])] + rest;
      assert lifted[1..] == rest;
    }
  }

  lemma {:induction false} SysThen(bad: iset<Key>, a: System, steps: seq<SysStep>, b: System, more: seq<SysStep>, c: System)
    requires SysRuns(bad, a, steps, b) && SysRuns(bad, b, more, c)
    ensures SysRuns(bad, a, steps + more, c)
    decreases steps
  {
    if steps == [] {
      assert steps + more == more;
    } else {
      SysThen(bad, SysApply(bad, a, steps[0]), steps[1..], b, more, c);
      assert (steps + more)[1..] == steps[1..] + more;
    }
  }

  lemma SysStepThen(bad: iset<Key>, a: System, steps: seq<SysStep>, b: System, t: SysStep)
    returns (more: seq<SysStep>, c: System)
    requires SysRuns(bad, a, steps, b) && SysEnabled(bad, b, t)
    ensures c == SysApply(bad, b, t) && SysRuns(bad, a, more, c)
  {
    c := SysApply(bad, b, t);
    assert [t][1..] == [];
    assert SysRuns(bad, b, [t], c);
    SysThen(bad, a, steps, b, [t], c);
    more := steps + [t];
  }

  /** The loop sends what it holds; the declaration reaches the server's queue. */
  lemma SysSent(bad: iset<Key>, s: System) returns (steps: seq<SysStep>)
    requires s.c.loop.at == Prepared && s.c.loop.body != {}
    ensures SysRuns(bad, s, steps, s.(c := AfterSent(s.c), inbox := s.inbox + [Decl(s.c.loop.n, s.c.loop.body)]))
  {
    var t: System;
    steps, t := SysStepThen(bad, s, [], s, OfClient(Sending(AnnounceBody)));
    steps, t := SysStepThen(bad, s, steps, t, OfClient(Sending(Written)));
    steps, t := SysStepThen(bad, s, steps, t, OfClient(Sending(StampWrite)));
  }

  /** A client run off the socket, then the sending of what the loop holds. */
  lemma RoundThenSent(bad: iset<Key>, s: System, steps: seq<Step>, d: Client) returns (run: seq<SysStep>)
    requires Runs(s.c, steps, d) && OffSocket(steps) && d.loop.at == Prepared && d.loop.body != {}
    ensures SysRuns(bad, s, run, s.(c := AfterSent(d), inbox := s.inbox + [Decl(d.loop.n, d.loop.body)]))
  {
    run := Lift(bad, s, steps, d);
    var b := s.(c := d);
    var more := SysSent(bad, b);
    SysThen(bad, s, run, b, more, b.(c := AfterSent(d), inbox := b.inbox + [Decl(d.loop.n, d.loop.body)]));
    run := run + more;
  }

  lemma FirstCallQueued(bad: iset<Key>, auto: bool) returns (run: seq<SysStep>, x: Decl)
    ensures SysRuns(bad, SysInit(auto), run, SysInit(auto).(c := FirstSent(auto), inbox := [x]))
  {
    var steps := CallAndRound(Init(auto), 1);
    var d := AfterRound(AfterCall(Init(auto), 1));
    CallIsDeclared([]);
    run := RoundThenSent(bad, SysInit(auto), steps, d);
    x := Decl(d.loop.n, d.loop.body);
    assert SysInit(auto).inbox + [x] == [x];
  }

  /** The server refuses the one queued declaration, and the client reads that. */
  lemma RefusedRuns(bad: iset<Key>, s: System) returns (steps: seq<SysStep>)
    requires |s.inbox| == 1 && s.outbox == [] && s.c.reader.at == Reading
    ensures SysRuns(bad, s, steps, s.(inbox := [], refused := true))
  {
    var t: System;
    steps, t := SysStepThen(bad, s, [], s, Serve(Refuse(NoId)));
    steps, t := SysStepThen(bad, s, steps, t, OfClient(Reads(Receive(Refused(NoId)))));
    assert t == s.(inbox := [], refused := true);
  }

  /** A call whose declaration the server refuses: at rest the client has the key, the server does not. */
  lemma RefusalLeavesThemApart(bad: iset<Key>, auto: bool) returns (s: System)
    ensures SysReachable(bad, s) && Quiescent(s) && s.refused
    ensures KEY in Mine(s) && s.eff == {}
  {
    var a := SysInit(auto);
    var run, x := FirstCallQueued(bad, auto);
    var b := a.(c := FirstSent(auto), inbox := [x]);
    var more := RefusedRuns(bad, b);
    s := b.(inbox := [], refused := true);
    SysThen(bad, a, run, b, more, s);
    CallIsDeclared([]);
  }
}
