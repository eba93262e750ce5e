/**
 What a returned `Subscribe` means. A call released by an ack was part of a
 declaration that the server accepted; each of its keys is either rejected, and
 then bad, or delivered by the server from that moment on, unless a later call or
 rejection had already taken it out again.
 */
module Truth {
  import opened Mutations
  import opened Declaring
  import opened Protocol
  import opened Batches
  import opened Coverage
  import opened Safety
  import opened Server

  predicate TrueBody(h: History, n: nat, body: set<Key>) {
    n in h.decls && h.decls[n] <= |h.log| && body == Body(h, n)
  }

  /** An ack that answers an accepted declaration with exactly its bad keys. */
  predicate TrueAck(bad: iset<Key>, h: History, acc: map<nat, set<Key>>, id: Id, rejected: seq<Key>) {
    && id.Declared? && id.n in acc && id.n in h.decls && h.decls[id.n] <= |h.log|
    && acc[id.n] == Good(bad, Body(h, id.n))
    && Rejects(bad, Body(h, id.n), rejected)
  }

  predicate TrueCause(bad: iset<Key>, h: History, acc: map<nat, set<Key>>, cause: Cause) {
    cause.Acked? ==> TrueAck(bad, h, acc, cause.id, cause.rejected)
  }

  predicate TrueReader(bad: iset<Key>, h: History, acc: map<nat, set<Key>>, rd: Reader) {
    && (rd.at == Checking || rd.at == Rejecting ==> TrueAck(bad, h, acc, rd.id, rd.rejected))
    && (rd.at == Taking || rd.at == Answering ==> TrueCause(bad, h, acc, rd.cause))
  }

  predicate TruePipes(bad: iset<Key>, h: History, acc: map<nat, set<Key>>, inbox: seq<Decl>, outbox: seq<Frame>) {
    && (forall x :: x in inbox ==> TrueBody(h, x.n, x.body))
    && (forall f :: f in outbox && f.Ack? ==> TrueAck(bad, h, acc, f.id, f.rejected))
    && (forall n :: n in acc ==> n in h.decls && h.decls[n] <= |h.log| && acc[n] == Good(bad, Body(h, n)))
  }

  predicate TruePast(bad: iset<Key>, h: History, acc: map<nat, set<Key>>, released: seq<Release>) {
    forall r :: r in released ==> TrueCause(bad, h, acc, r.cause)
  }

  predicate Truthful(bad: iset<Key>, s: System) {
    && TruePipes(bad, s.c.hist, s.accepted, s.inbox, s.outbox)
    && TrueReader(bad, s.c.hist, s.accepted, s.c.reader)
    && TruePast(bad, s.c.hist, s.accepted, s.c.past.released)
    && !s.c.loop.cause.Acked?
  }

  /** Later histories and further acceptances do not change what an ack meant. */
  predicate Later(h: History, acc: map<nat, set<Key>>, g: History, bcc: map<nat, set<Key>>) {
    Extends(h, g) && forall n :: n in acc ==> n in bcc && bcc[n] == acc[n]
  }

  lemma TrueAckLater(bad: iset<Key>, h: History, acc: map<nat, set<Key>>, g: History, bcc: map<nat, set<Key>>,
                     id: Id, rejected: seq<Key>)
    requires Later(h, acc, g, bcc) && TrueAck(bad, h, acc, id, rejected)
    ensures TrueAck(bad, g, bcc, id, rejected)
  {
    BodyStable(h, g, id.n);
  }

  lemma ReaderLater(bad: iset<Key>, h: History, acc: map<nat, set<Key>>, g: History, bcc: map<nat, set<Key>>, rd: Reader)
    requires Later(h, acc, g, bcc) && TrueReader(bad, h, acc, rd)
    ensures TrueReader(bad, g, bcc, rd)
  {
    if rd.at == Checking || rd.at == Rejecting {
      TrueAckLater(bad, h, acc, g, bcc, rd.id, rd.rejected);
    } else if (rd.at == Taking || rd.at == Answering) && rd.cause.Acked? {
      TrueAckLater(bad, h, acc, g, bcc, rd.cause.id, rd.cause.rejected);
    }
  }

  lemma PastLater(bad: iset<Key>, h: History, acc: map<nat, set<Key>>, g: History, bcc: map<nat, set<Key>>,
                  released: seq<Release>)
    requires Later(h, acc, g, bcc) && TruePast(bad, h, acc, released)
    ensures TruePast(bad, g, bcc, released)
  {
    forall r | r in released && r.cause.Acked?
      ensures TrueAck(bad, g, bcc, r.cause.id, r.cause.rejected)
    {
      TrueAckLater(bad, h, acc, g, bcc, r.cause.id, r.cause.rejected);
    }
  }

  lemma PipesLater(bad: iset<Key>, h: History, g: History, acc: map<nat, set<Key>>, inbox: seq<Decl>, outbox: seq<Frame>)
    requires Extends(h, g) && TruePipes(bad, h, acc, inbox, outbox)
    ensures TruePipes(bad, g, acc, inbox, outbox)
  {
    forall n | n in h.decls && h.decls[n] <= |h.log|
      ensures Body(g, n) == Body(h, n)
    {
      BodyStable(h, g, n);
    }
  }

  lemma ApiExtends(c: Client, a: ApiStep)
    requires c.hist.limbo.Keys !! c.hist.reg.Keys && ApiEnabled(c, a)
    ensures Extends(c.hist, ApiApply(c, a).hist)
  {
  }

  lemma GatherExtends(c: Client, g: GatherStep)
    requires Ordered(c) && GatherEnabled(c, g)
    ensures Extends(c.hist, GatherApply(c, g).hist)
  {
  }

  lemma ReadExtends(c: Client, r: ReadStep)
    requires ReadEnabled(c, r)
    ensures Extends(c.hist, ReadApply(c, r).hist)
  {
  }

  /** Steps that only let the history grow, drop pipes, or answer for another cause. */
  lemma TruthKept(bad: iset<Key>, s: System, t: System)
    requires Truthful(bad, s) && Extends(s.c.hist, t.c.hist) && t.accepted == s.accepted
    requires t.inbox == s.inbox || t.inbox == []
    requires t.outbox == s.outbox || t.outbox == []
    requires t.c.reader == s.c.reader || t.c.reader == READING
    requires t.c.past.released == s.c.past.released || (t.c.past.released != []
             && t.c.past.released[..|t.c.past.released| - 1] == s.c.past.released
             && !t.c.past.released[|t.c.past.released| - 1].cause.Acked?)
    requires !t.c.loop.cause.Acked?
    ensures Truthful(bad, t)
  {
    var h, g, acc := s.c.hist, t.c.hist, s.accepted;
    PipesLater(bad, h, g, acc, s.inbox, s.outbox);
    ReaderLater(bad, h, acc, g, acc, s.c.reader);
    PastLater(bad, h, acc, g, acc, s.c.past.released);
  }

  lemma SendTruthful(bad: iset<Key>, s: System, e: SendStep)
    requires Ordered(s.c) && BodyMatches(s.c) && Truthful(bad, s) && SendEnabled(s.c, e)
    ensures Truthful(bad, NetApply(s, SendApply(s.c, e), Sending(e)))
  {
    var d := SendApply(s.c, e);
    TruthKept(bad, s, s.(c := d));
  }

  lemma ReceiveTruthful(bad: iset<Key>, s: System)
    requires Truthful(bad, s) && s.outbox != [] && ReadEnabled(s.c, Receive(s.outbox[0]))
    ensures Truthful(bad, s.(c := ReadApply(s.c, Receive(s.outbox[0])), outbox := s.outbox[1..]))
  {
    assert s.outbox[0] in s.outbox;
    assert forall f :: f in s.outbox[1..] ==> f in s.outbox;
  }

  lemma RejectTruthful(bad: iset<Key>, s: System)
    requires Truthful(bad, s) && ReadEnabled(s.c, RejectNext)
    ensures Truthful(bad, s.(c := ReadApply(s.c, RejectNext)))
  {
    var g := ReadApply(s.c, RejectNext).hist;
    ReadExtends(s.c, RejectNext);
    PipesLater(bad, s.c.hist, g, s.accepted, s.inbox, s.outbox);
    ReaderLater(bad, s.c.hist, s.accepted, g, s.accepted, s.c.reader);
    PastLater(bad, s.c.hist, s.accepted, g, s.accepted, s.c.past.released);
  }

  lemma ReadTruthful(bad: iset<Key>, s: System, r: ReadStep)
    requires Truthful(bad, s) && SysEnabled(bad, s, OfClient(Reads(r)))
    ensures Truthful(bad, NetApply(s, ReadApply(s.c, r), Reads(r)))
  {
    match r {
      case Receive(f) => ReceiveTruthful(bad, s);
      case RejectNext => RejectTruthful(bad, s);
      case _ =>
    }
  }

  lemma RunTruthful(bad: iset<Key>, s: System, u: RunStep)
    requires Truthful(bad, s) && RunEnabled(s.c, u)
    ensures Truthful(bad, NetApply(s, RunApply(s.c, u), Running(u)))
  {
    TruthKept(bad, s, NetApply(s, RunApply(s.c, u), Running(u)));
  }

  lemma GatherTruthful(bad: iset<Key>, s: System, g: GatherStep)
    requires Ordered(s.c) && Truthful(bad, s) && GatherEnabled(s.c, g)
    ensures Truthful(bad, s.(c := GatherApply(s.c, g)))
  {
    GatherExtends(s.c, g);
    TruthKept(bad, s, s.(c := GatherApply(s.c, g)));
  }

  /** Steps of `Close`, of timers and of the ping loop concern no declaration. */
  lemma QuietTruthful(bad: iset<Key>, s: System, d: Client)
    requires Truthful(bad, s) && d.hist == s.c.hist && d.reader == s.c.reader && d.past == s.c.past && d.loop == s.c.loop
    ensures Truthful(bad, s.(c := d))
  {
    TruthKept(bad, s, s.(c := d));
  }

  lemma ApiTruthful(bad: iset<Key>, s: System, a: ApiStep)
    requires Ordered(s.c) && s.c.hist.limbo.Keys !! s.c.hist.reg.Keys && Truthful(bad, s) && ApiEnabled(s.c, a)
    ensures Truthful(bad, s.(c := ApiApply(s.c, a)))
  {
    ApiExtends(s.c, a);
    TruthKept(bad, s, s.(c := ApiApply(s.c, a)));
  }

  lemma ClientTruthful(bad: iset<Key>, s: System, step: Step)
    requires Ordered(s.c) && BodyMatches(s.c) && s.c.hist.limbo.Keys !! s.c.hist.reg.Keys
    requires Truthful(bad, s) && SysEnabled(bad, s, OfClient(step))
    ensures Truthful(bad, NetApply(s, Apply(s.c, step), step))
  {
    match step {
      case Api(a) => ApiTruthful(bad, s, a);
      case Gathering(g) => GatherTruthful(bad, s, g);
      case Sending(e) => SendTruthful(bad, s, e);
      case Reads(r) => ReadTruthful(bad, s, r);
      case Running(u) => RunTruthful(bad, s, u);
      case CloseCall(k) => QuietTruthful(bad, s, CloseApply(s.c, k));
      case Misc(x) => QuietTruthful(bad, s, MiscApply(s.c, x));
    }
  }

  lemma ServeTruthful(bad: iset<Key>, s: System, r: Reaction)
    requires Truthful(bad, s) && SysEnabled(bad, s, Serve(r))
    ensures Truthful(bad, ServeApply(bad, s, r))
  {
    var t := ServeApply(bad, s, r);
    assert s.inbox[0] in s.inbox;
    assert Later(s.c.hist, s.accepted, s.c.hist, t.accepted);
    ReaderLater(bad, s.c.hist, s.accepted, s.c.hist, t.accepted, s.c.reader);
    PastLater(bad, s.c.hist, s.accepted, s.c.hist, t.accepted, s.c.past.released);
  }

  lemma {:induction false} SysRunsTruthful(bad: iset<Key>, s: System, steps: seq<SysStep>, t: System)
    requires Inv(s.c) && Truthful(bad, s) && SysRuns(bad, s, steps, t)
    ensures Inv(t.c) && Truthful(bad, t)
    decreases steps
  {
    if steps != [] {
      match steps[0] {
        case OfClient(step) => StepInv(s.c, step); ClientTruthful(bad, s, step);
        case Serve(r) => ServeTruthful(bad, s, r);
        case Spontaneous(f) =>
      }
      SysRunsTruthful(bad, SysApply(bad, s, steps[0]), steps[1..], t);
    }
  }

  lemma SysReachableTruthful(bad: iset<Key>, s: System)
    requires SysReachable(bad, s)
    ensures Inv(s.c) && Truthful(bad, s)
  {
    var auto, steps :| SysRuns(bad, SysInit(auto), steps, s);
    InitInv(auto);
    SysRunsTruthful(bad, SysInit(auto), steps, s);
  }

  /** The theorem, for the release `r` of a call and a key `k` its own mutation left in the set. */
  lemma SubscribeTruth(bad: iset<Key>, s: System, r: Release, k: Key)
    requires SysReachable(bad, s) && r in s.c.past.released && r.cause.Acked?
    ensures r.cause.id.Declared? && r.cause.id.n in s.accepted && r.w in s.c.hist.reg
    ensures k in s.accepted[r.cause.id.n] ==> k !in bad && k !in r.cause.rejected
    ensures k in r.cause.rejected ==> k in bad
    ensures r.cause.id.n in s.c.hist.decls
    ensures s.c.hist.reg[r.w] <= s.c.hist.decls[r.cause.id.n] <= |s.c.hist.log|
    ensures k in Replay(s.c.hist.log[..s.c.hist.reg[r.w]]) ==>
              || k in s.accepted[r.cause.id.n]
              || k in r.cause.rejected
              || exists j :: s.c.hist.reg[r.w] <= j < s.c.hist.decls[r.cause.id.n] && Removes(s.c.hist.log[j], k)
  {
    SysReachableTruthful(bad, s);
    AckedTruth(bad, s, r, k);
  }

  lemma AckedTruth(bad: iset<Key>, s: System, r: Release, k: Key)
    requires Truthful(bad, s) && Covered(s.c) && r in s.c.past.released && r.cause.Acked?
    ensures r.cause.id.Declared? && r.cause.id.n in s.accepted && r.w in s.c.hist.reg
    ensures k in s.accepted[r.cause.id.n] ==> k !in bad && k !in r.cause.rejected
    ensures k in r.cause.rejected ==> k in bad
    ensures r.cause.id.n in s.c.hist.decls
    ensures s.c.hist.reg[r.w] <= s.c.hist.decls[r.cause.id.n] <= |s.c.hist.log|
    ensures k in Replay(s.c.hist.log[..s.c.hist.reg[r.w]]) ==>
              || k in s.accepted[r.cause.id.n]
              || k in r.cause.rejected
              || exists j :: s.c.hist.reg[r.w] <= j < s.c.hist.decls[r.cause.id.n] && Removes(s.c.hist.log[j], k)
  {
    var h, n := s.c.hist, r.cause.id.n;
    assert Justifies(h, r.cause, [r.w]);
    assert TrueAck(bad, h, s.accepted, r.cause.id, r.cause.rejected);
    if k in Replay(h.log[..h.reg[r.w]]) && k !in Body(h, n) {
      var j := MissingKeyWasRemoved(h.log, h.reg[r.w], h.decls[n], k);
      assert Removes(h.log[j], k);
    }
  }

  /**
   Calls that return nil: released by an ack that rejects none of their keys `ks`, or
   by the write of the empty declaration. `n` is the declaration's number.
   */
  predicate ReturnsNil(r: Release, n: nat, ks: set<Key>) {
    match r.cause
    case Acked(id, rejected) => id == Declared(n) && forall q :: q in rejected ==> q !in ks
    case Emptied(m) => m == n
    case _ => false
  }

  /**
   When a `Subscribe` or `Declare` of the keys `ks` returns nil, the server delivered
   each of them on accepting that declaration, except those a later mutation took out
   before its snapshot; if the declaration was empty, that is all of them.
   */
  lemma NilMeansSubscribed(bad: iset<Key>, s: System, r: Release, n: nat, ks: set<Key>, k: Key)
    requires SysReachable(bad, s) && r in s.c.past.released && r.w in s.c.hist.reg && ReturnsNil(r, n, ks)
    requires var v := s.c.hist.reg[r.w];
             1 <= v <= |s.c.hist.log| && (s.c.hist.log[v - 1] == Add(ks) || s.c.hist.log[v - 1] == Replace(ks))
    requires k in ks
    ensures n in s.c.hist.decls && s.c.hist.decls[n] <= |s.c.hist.log|
    ensures || (r.cause.Acked? && n in s.accepted && k in s.accepted[n] && k !in bad)
            || exists j :: s.c.hist.reg[r.w] <= j < s.c.hist.decls[n] && Removes(s.c.hist.log[j], k)
  {
    var log, v := s.c.hist.log, s.c.hist.reg[r.w];
    assert log[..v] == log[..v - 1] + [log[v - 1]];
    ReplayAppend(log[..v - 1], log[v - 1]);
    if r.cause.Acked? {
      SubscribeTruth(bad, s, r, k);
    } else {
      SysReachableTruthful(bad, s);
      EmptiedTruth(s.c, r, n, k);
    }
  }

  /** The snapshot behind the write of `[]` is empty, so whatever a released call put in was taken out. */
  lemma EmptiedTruth(c: Client, r: Release, n: nat, k: Key)
    requires Covered(c) && r in c.past.released && r.cause == Emptied(n) && r.w in c.hist.reg
    requires c.hist.reg[r.w] <= |c.hist.log| && k in Replay(c.hist.log[..c.hist.reg[r.w]])
    ensures n in c.hist.decls && c.hist.decls[n] <= |c.hist.log|
    ensures exists j :: c.hist.reg[r.w] <= j < c.hist.decls[n] && Removes(c.hist.log[j], k)
  {
    var h := c.hist;
    assert Justifies(h, r.cause, [r.w]);
    assert r.w in [r.w] && Body(h, n) == {};
    var j := MissingKeyWasRemoved(h.log, h.reg[r.w], h.decls[n], k);
    assert Removes(h.log[j], k);
  }
}
