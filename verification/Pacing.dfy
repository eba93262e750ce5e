/**
 Timing and wake-ups of the declare loop: successful declaration writes are at
 least MIN_DECLARE_INTERVAL apart over the whole run, and a waiting caller always
 has a signal, a round in progress, or a teardown that will answer it.
 */
module Pacing {
  import opened Declaring
  import opened Protocol

  /** Each write comes at least the minimum interval after the one before. */
  predicate Spaced(writes: seq<nat>) {
    forall i :: 0 < i < |writes| ==> writes[i - 1] + MIN_DECLARE_INTERVAL <= writes[i]
  }

  /** Between a write and its stamp; everywhere else `lastDeclareAt` is no earlier than the last write. */
  predicate Unstamped(at: LoopAt) {
    at == EmptyStamping || at == Stamping
  }

  predicate MayWrite(at: LoopAt) {
    at == Prepared || at == EmptyWriting || at == Writing
  }

  predicate Paced(c: Client) {
    var ws := c.past.writes;
    && Spaced(ws)
    && c.sh.lastAt <= c.now
    && (ws != [] ==> ws[|ws| - 1] <= c.now)
    && (ws != [] && !Unstamped(c.loop.at) ==> ws[|ws| - 1] <= c.sh.lastAt)
    && (MayWrite(c.loop.at) ==> Rested(c))
  }

  lemma GatherPaced(c: Client, g: GatherStep)
    requires Paced(c) && GatherEnabled(c, g)
    ensures Paced(GatherApply(c, g))
  {
  }

  lemma SendPaced(c: Client, e: SendStep)
    requires Paced(c) && SendEnabled(c, e)
    ensures Paced(SendApply(c, e))
  {
  }

  lemma ReadPaced(c: Client, r: ReadStep)
    requires Paced(c) && ReadEnabled(c, r)
    ensures Paced(ReadApply(c, r))
  {
  }

  lemma RunPaced(c: Client, u: RunStep)
    requires Paced(c) && RunEnabled(c, u)
    requires c.run.at == Signalling ==> c.loop.at == Dead
    ensures Paced(RunApply(c, u))
  {
  }

  lemma MiscPaced(c: Client, x: MiscStep)
    requires Paced(c) && MiscEnabled(c, x)
    ensures Paced(MiscApply(c, x))
  {
  }

  /** Writes `i` and `j` are `j - i` intervals apart. */
  lemma {:induction false} SpacedApart(ws: seq<nat>, i: nat, j: nat)
    requires Spaced(ws) && i <= j < |ws|
    ensures ws[i] + (j - i) * MIN_DECLARE_INTERVAL <= ws[j]
    decreases j
  {
    if i < j {
      SpacedApart(ws, i, j - 1);
    }
  }

  /** Any window of `width` milliseconds holds at most width / 210 + 1 writes. */
  lemma WindowBound(ws: seq<nat>, start: nat, width: nat, i: nat, j: nat)
    requires Spaced(ws) && i <= j < |ws|
    requires start <= ws[i] && ws[j] <= start + width
    ensures j - i + 1 <= width / MIN_DECLARE_INTERVAL + 1
  {
    SpacedApart(ws, i, j);
  }

  /** The loop has taken a signal and not drained yet. */
  predicate BeforeDrain(at: LoopAt) {
    at == Coalescing || at == Absorbing || at == Draining
  }

  predicate Awake(c: Client) {
    c.sh.pending != [] ==>
      || c.sh.token
      || BeforeDrain(c.loop.at)
      || (c.loop.at == Dead && c.run.at == Serving)
  }

  lemma GatherAwake(c: Client, g: GatherStep)
    requires Awake(c) && GatherEnabled(c, g)
    requires c.run.at != Serving ==> c.loop.at == Dead
    ensures Awake(GatherApply(c, g))
  {
  }

  lemma SendAwake(c: Client, e: SendStep)
    requires Awake(c) && SendEnabled(c, e)
    ensures Awake(SendApply(c, e))
  {
  }

  lemma ReadAwake(c: Client, r: ReadStep)
    requires Awake(c) && ReadEnabled(c, r)
    ensures Awake(ReadApply(c, r))
  {
  }

  lemma RunAwake(c: Client, u: RunStep)
    requires Awake(c) && RunEnabled(c, u)
    ensures Awake(RunApply(c, u))
  {
  }

  lemma MiscAwake(c: Client, x: MiscStep)
    requires Awake(c) && MiscEnabled(c, x)
    ensures Awake(MiscApply(c, x))
  {
  }
}
