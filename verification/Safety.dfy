/**
 The invariant of every reachable state, for every server and every schedule, and
 the safety theorems that follow from it.
 */
module Safety {
  import opened Protocol
  import opened Conservation
  import opened Batches
  import opened Coverage
  import opened Pacing
  import opened Ownership

  ghost predicate Inv(c: Client) {
    && Tidy(c)
    && Conserved(c)
    && OneBatch(c)
    && Ordered(c)
    && BodyMatches(c)
    && Covered(c)
    && Paced(c)
    && Awake(c)
    && Sound(c)
  }

  lemma InitInv(auto: bool)
    ensures Inv(Init(auto))
  {
    var c := Init(auto);
    assert c.net.open == Owned(c);
    assert Paced(c) && Awake(c) && Covered(c) && BodyMatches(c) && Ordered(c) && OneBatch(c) && Tidy(c);
    assert Conserved(c);
  }

  lemma ApiInv(c: Client, a: ApiStep)
    requires Inv(c) && ApiEnabled(c, a)
    ensures Inv(ApiApply(c, a))
  {
    var d := ApiApply(c, a);
    ApiConserves(c, a);
    VersionsGrow(c.hist.decls, |c.hist.log|, c.seqNo, |d.hist.log|, c.seqNo);
    OthersBodyMatches(c, d);
    ApiCovered(c, a);
  }

  lemma GatherInv(c: Client, g: GatherStep)
    requires Inv(c) && GatherEnabled(c, g)
    ensures Inv(GatherApply(c, g))
  {
    GatherConserves(c, g);
    GatherTidy(c, g);
    GatherOneBatch(c, g);
    GatherOrdered(c, g);
    GatherBodyMatches(c, g);
    GatherCovered(c, g);
    GatherPaced(c, g);
    GatherAwake(c, g);
    GatherSound(c, g);
  }

  lemma SendInv(c: Client, e: SendStep)
    requires Inv(c) && SendEnabled(c, e)
    ensures Inv(SendApply(c, e))
  {
    SendConserves(c, e);
    SendTidy(c, e);
    SendOneBatch(c, e);
    SendOrdered(c, e);
    SendBodyMatches(c, e);
    SendCovered(c, e);
    SendPaced(c, e);
    SendAwake(c, e);
    SendSound(c, e);
  }

  lemma ReadInv(c: Client, r: ReadStep)
    requires Inv(c) && ReadEnabled(c, r)
    ensures Inv(ReadApply(c, r))
  {
    ReadConserves(c, r);
    ReadTidy(c, r);
    ReadOneBatch(c, r);
    ReadOrdered(c, r);
    ReadBodyMatches(c, r);
    ReadPaced(c, r);
    ReadCovered(c, r);
    ReadAwake(c, r);
    ReadSound(c, r);
  }

  lemma RunInv(c: Client, u: RunStep)
    requires Inv(c) && RunEnabled(c, u)
    ensures Inv(RunApply(c, u))
  {
    RunConserves(c, u);
    RunTidy(c, u);
    RunOneBatch(c, u);
    RunOrdered(c, u);
    RunCovered(c, u);
    RunPaced(c, u);
    RunAwake(c, u);
    RunSound(c, u);
  }

  /** What concerns the declarations only, under steps that leave them alone. */
  lemma Bystander(c: Client, d: Client)
    requires Tidy(c) && OneBatch(c) && Ordered(c) && BodyMatches(c) && Covered(c)
    requires d.hist == c.hist && d.past == c.past && d.seqNo == c.seqNo && d.run == c.run
    requires d.loop == c.loop && d.reader == c.reader && (d.ping ==> c.ping)
    requires d.sh.pending == c.sh.pending && d.sh.batches == c.sh.batches && d.sh.lastId == c.sh.lastId
    ensures Tidy(d) && OneBatch(d) && Ordered(d) && BodyMatches(d) && Covered(d)
  {
  }

  lemma CloseInv(c: Client, k: CloseStep)
    requires Inv(c) && CloseEnabled(c, k)
    ensures Inv(CloseApply(c, k))
  {
    Bystander(c, CloseApply(c, k));
    CloseSound(c, k);
    CloseConserves(c, k);
  }

  lemma MiscInv(c: Client, x: MiscStep)
    requires Inv(c) && MiscEnabled(c, x)
    ensures Inv(MiscApply(c, x))
  {
    Bystander(c, MiscApply(c, x));
    MiscPaced(c, x);
    MiscAwake(c, x);
    MiscConserves(c, x);
  }

  lemma StepInv(c: Client, step: Step)
    requires Inv(c) && Enabled(c, step)
    ensures Inv(Apply(c, step))
  {
    match step {
      case Api(a) => ApiInv(c, a);
      case Gathering(g) => GatherInv(c, g);
      case Sending(e) => SendInv(c, e);
      case Reads(r) => ReadInv(c, r);
      case Running(u) => RunInv(c, u);
      case CloseCall(k) => CloseInv(c, k);
      case Misc(x) => MiscInv(c, x);
    }
  }

  lemma {:induction false} RunsInv(c: Client, steps: seq<Step>, d: Client)
    requires Inv(c) && Runs(c, steps, d)
    ensures Inv(d)
    decreases steps
  {
    if steps != [] {
      StepInv(c, steps[0]);
      RunsInv(Apply(c, steps[0]), steps[1..], d);
    }
  }

  lemma ReachableInv(c: Client)
    requires Reachable(c)
    ensures Inv(c)
  {
    var auto, steps :| Runs(Init(auto), steps, c);
    InitInv(auto);
    RunsInv(Init(auto), steps, c);
  }
}
