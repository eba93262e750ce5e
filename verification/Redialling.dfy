/**
 The connection lifecycle of `run` (stream/stream.go): how often it redials, how
 long it waits, and which cause a reconnection reports. The environment is a
 script: how long each connection lives and how each dial goes.
 */
module Redialling {
  import opened Wrappers
  import opened Int64
  import opened Reconnect

  datatype Why = ReadError | ServerShutdown | Backpressure

  /** One pass of the dial loop: its jitter, timer lag, duration and outcome. */
  datatype Dial = Dial(noise: Noise, lag: nat, cost: nat, ok: bool)

  /** One connection: how long it lived, the cause its reader left, and the dials that follow it. */
  datatype Life = Life(lived: nat, cause: Option<Why>, dials: seq<Dial>)

  /** A dial as made. `healthy`: the connection it replaces lived at least `min`. */
  datatype Redial = Redial(attempt: nat, at: nat, ok: bool, healthy: bool)

  datatype Notice = Notice(attempt: nat, cause: Why)

  datatype Config = Config(min: nat, max: nat)

  predicate ValidConfig(cfg: Config) {
    0 < cfg.min <= cfg.max <= MAX_INT64
  }

  /** What `New` makes of the backoff options: the rest of this module needs no more. */
  function Configured(min: int, max: int): (cfg: Config)
    requires min <= MAX_INT64 && max <= MAX_INT64
    ensures ValidConfig(cfg)
    ensures cfg.min == min || (min <= 0 && cfg.min == 1_000_000_000)
    ensures cfg.max == max || (max < cfg.min && cfg.max == cfg.min)
  {
    var low := if min <= 0 then SECOND else min;
    Config(low, if max < low then low else max)
  }

  predicate Jittery(lives: seq<Life>) {
    forall l, d :: l in lives && d in l.dials ==> Jitter(d.noise)
  }

  /** The variables of `run`; `up` says a connection is running. */
  datatype State = State(attempt: nat, now: nat, up: bool, log: seq<Redial>, notices: seq<Notice>)

  /** The first connection, dialled by `New`, heads the log. */
  const START := State(0, 0, true, [Redial(0, 0, true, false)], [])

  /** A timer set to a negative duration fires at once. */
  function Wait(cfg: Config, attempt: nat, noise: Noise): nat {
    var d := Delay(attempt, cfg.min, cfg.max, noise);
    if d < 0 then 0 else d
  }

  function CauseOf(life: Life): Why {
    if life.cause.Some? then life.cause.value else ReadError
  }

  function DialOnce(cfg: Config, s: State, d: Dial, healthy: bool): State {
    var attempt := s.attempt + 1;
    var at := s.now + Wait(cfg, attempt, d.noise) + d.lag;
    s.(attempt := attempt, now := at + d.cost, up := d.ok, log := s.log + [Redial(attempt, at, d.ok, healthy)])
  }

  /** Dials until one succeeds. */
  function DialAll(cfg: Config, s: State, dials: seq<Dial>, healthy: bool): State
    decreases |dials|
  {
    if s.up || dials == [] then s else DialAll(cfg, DialOnce(cfg, s, dials[0], healthy), dials[1..], healthy)
  }

  /** What `run` does after its dial loop. */
  function AfterLoop(cfg: Config, t: State, life: Life): State {
    if !t.up then t
    else
      t.(notices := t.notices + [Notice(t.attempt, CauseOf(life))],
         attempt := if life.lived >= cfg.min then 0 else t.attempt)
  }

  /** One turn of the outer loop. */
  function LiveOnce(cfg: Config, s: State, life: Life): State {
    var healthy := life.lived >= cfg.min;
    AfterLoop(cfg, DialAll(cfg, s.(now := s.now + life.lived, up := false), life.dials, healthy), life)
  }

  /** The run ends when the script leaves the dial loop without a connection. */
  function LiveAll(cfg: Config, s: State, lives: seq<Life>): State
    decreases |lives|
  {
    if !s.up || lives == [] then s else LiveAll(cfg, LiveOnce(cfg, s, lives[0]), lives[1..])
  }

  /** The dial loop of `run`: one more attempt until a dial succeeds. */
  method Redialled(cfg: Config, s: State, dials: seq<Dial>, healthy: bool) returns (t: State)
    requires ValidConfig(cfg) && forall d :: d in dials ==> Jitter(d.noise)
    ensures t == DialAll(cfg, s, dials, healthy)
  {
    var attempt: nat, now: nat, up, log := s.attempt, s.now, s.up, s.log;
    var k := 0;
    while !up && k < |dials|
      invariant k <= |dials|
      invariant DialAll(cfg, s, dials, healthy)
                == DialAll(cfg, State(attempt, now, up, log, s.notices), dials[k..], healthy)
      decreases |dials| - k
    {
      var d := dials[k];
      assert dials[k..][1..] == dials[k + 1..];
      attempt := attempt + 1;
      var delay := Backoff(attempt, cfg.min, cfg.max, d.noise);
      now := now + (if delay < 0 then 0 else delay) + d.lag;
      log := log + [Redial(attempt, now, d.ok, healthy)];
      now := now + d.cost;
      up := d.ok;
      k := k + 1;
    }
    t := State(attempt, now, up, log, s.notices);
  }

  /** `run`, as far as time, attempts and causes go. */
  method Run(cfg: Config, lives: seq<Life>) returns (s: State)
    requires ValidConfig(cfg) && Jittery(lives)
    ensures s == LiveAll(cfg, START, lives)
  {
    s := START;
    var cause := ReadError;
    var i := 0;
    while s.up && i < |lives|
      invariant i <= |lives| && (s.up ==> cause == ReadError)
      invariant LiveAll(cfg, START, lives) == LiveAll(cfg, s, lives[i..])
      decreases |lives| - i
    {
      var life := lives[i];
      assert life in lives && lives[i..][0] == life && lives[i..][1..] == lives[i + 1..];
      ghost var before := s;
      s := s.(now := s.now + life.lived, up := false);
      var healthy := life.lived >= cfg.min;
      if life.cause.Some? {
        cause := life.cause.value;
      }
      s := Redialled(cfg, s, life.dials, healthy);
      if s.up {
        s := s.(notices := s.notices + [Notice(s.attempt, cause)]);
        if healthy {
          s := s.(attempt := 0);
        }
        cause := ReadError;
      }
      assert s == LiveOnce(cfg, before, life);
      i := i + 1;
    }
  }

  // ---------------------------------------------------------------- the log

  /** `y` can be the dial after `x`. */
  predicate Linked(cfg: Config, x: Redial, y: Redial, noise: Noise) {
    && y.attempt == (if x.ok && x.healthy then 1 else x.attempt + 1)
    && (!x.ok ==> y.healthy == x.healthy)
    && y.at >= x.at + Wait(cfg, y.attempt, noise) + (if x.ok && y.healthy then cfg.min else 0)
  }

  ghost predicate Follows(cfg: Config, x: Redial, y: Redial) {
    exists noise :: Jitter(noise) && Linked(cfg, x, y, noise)
  }

  ghost predicate Chain(cfg: Config, log: seq<Redial>) {
    && log != [] && log[0] == START.log[0]
    && forall i {:trigger log[i]} :: 0 < i < |log| ==> Follows(cfg, log[i - 1], log[i])
  }

  // ------------------------------------------------- the log and the script

  /** Which dial of the script: the pass of the dial loop that follows a life. */
  datatype Spot = Spot(life: int, pass: nat)

  /** The dial that `New` made. */
  const BEFORE := Spot(-1, 0)

  predicate InScript(lives: seq<Life>, w: Spot) {
    0 <= w.life < |lives| && w.pass < |lives[w.life].dials|
  }

  function DialAt(lives: seq<Life>, w: Spot): Dial
    requires InScript(lives, w)
  {
    lives[w.life].dials[w.pass]
  }

  function CostOf(lives: seq<Life>, w: Spot): nat {
    if InScript(lives, w) then DialAt(lives, w).cost else 0
  }

  /** A timer does not wait for a negative duration. */
  function Positive(d: int): nat {
    if d > 0 then d else 0
  }

  /**
   Entry y is dial w of the script, made next after entry x, which is dial v: the next
   pass if x failed, and otherwise the first pass after the connection that x made has
   ended. Whether that connection was healthy, the script says.
   */
  predicate Dialled(cfg: Config, lives: seq<Life>, v: Spot, x: Redial, w: Spot, y: Redial) {
    && InScript(lives, w)
    && w == (if x.ok then Spot(v.life + 1, 0) else Spot(v.life, v.pass + 1))
    && y.ok == DialAt(lives, w).ok
    && y.healthy == (lives[w.life].lived >= cfg.min)
    && y.attempt == (if x.ok && x.healthy then 1 else x.attempt + 1)
    && y.at == x.at + CostOf(lives, v) + (if x.ok then lives[w.life].lived else 0)
               + Positive(Delay(y.attempt, cfg.min, cfg.max, DialAt(lives, w).noise)) + DialAt(lives, w).lag
  }

  /** Every entry of the log is accounted for by a dial of the script. */
  ghost predicate Traced(cfg: Config, lives: seq<Life>, log: seq<Redial>, spots: seq<Spot>) {
    && |log| == |spots| > 0 && log[0] == START.log[0] && spots[0] == BEFORE
    && forall i, j {:trigger log[i], log[j]} ::
         0 <= i < j < |log| && j == i + 1 ==> Dialled(cfg, lives, spots[i], log[i], spots[j], log[j])
  }

  /** The script has no dial after this entry. */
  predicate Last(lives: seq<Life>, w: Spot, y: Redial) {
    && -1 <= w.life < |lives|
    && if y.ok then w.life + 1 == |lives| || lives[w.life + 1].dials == []
       else 0 <= w.life && w.pass + 1 == |lives[w.life].dials|
  }

  lemma TracedMore(cfg: Config, lives: seq<Life>, log: seq<Redial>, spots: seq<Spot>, w: Spot, y: Redial)
    requires Traced(cfg, lives, log, spots) && Dialled(cfg, lives, spots[|log| - 1], log[|log| - 1], w, y)
    ensures Traced(cfg, lives, log + [y], spots + [w])
  {
    var more, at := log + [y], spots + [w];
    forall i, j {:trigger more[i], more[j]} | 0 <= i < j < |more| && j == i + 1
      ensures Dialled(cfg, lives, at[i], more[i], at[j], more[j])
    {
      if j < |log| {
        assert more[i] == log[i] && more[j] == log[j];
      }
    }
  }

  /** The variables of `run` in its dial loop after life n, before pass i. */
  predicate InLoop(cfg: Config, lives: seq<Life>, s: State, v: Spot, x: Redial, n: nat, i: nat)
    requires n < |lives|
  {
    if s.up then
      i > 0 && x.ok && v == Spot(n, i - 1) && s.now == x.at + CostOf(lives, v) && s.attempt == x.attempt
      && x.healthy == (lives[n].lived >= cfg.min)
    else if i == 0 then
      x.ok && v.life == n - 1 && s.now == x.at + CostOf(lives, v) + lives[n].lived
      && s.attempt == (if x.healthy then 0 else x.attempt)
    else
      !x.ok && v == Spot(n, i - 1) && s.now == x.at + CostOf(lives, v) && s.attempt == x.attempt
  }

  ghost predicate Dialling(cfg: Config, lives: seq<Life>, s: State, spots: seq<Spot>, n: nat, i: nat)
    requires n < |lives|
  {
    && Traced(cfg, lives, s.log, spots) && i <= |lives[n].dials|
    && InLoop(cfg, lives, s, spots[|spots| - 1], s.log[|s.log| - 1], n, i)
  }

  /** And between two connections, when n lives are over. */
  ghost predicate Between(cfg: Config, lives: seq<Life>, s: State, spots: seq<Spot>, n: nat) {
    && Traced(cfg, lives, s.log, spots) && n <= |lives|
    && var v, x := spots[|spots| - 1], s.log[|s.log| - 1];
       if s.up then x.ok && v.life == n - 1 && s.now == x.at + CostOf(lives, v)
                    && s.attempt == (if x.healthy then 0 else x.attempt)
       else Last(lives, v, x)
  }

  lemma DialOnceTraced(cfg: Config, lives: seq<Life>, s: State, spots: seq<Spot>, n: nat, i: nat)
    requires n < |lives| && i < |lives[n].dials| && !s.up && Dialling(cfg, lives, s, spots, n, i)
    ensures Dialling(cfg, lives, DialOnce(cfg, s, lives[n].dials[i], lives[n].lived >= cfg.min),
                     spots + [Spot(n, i)], n, i + 1)
  {
    var t := DialOnce(cfg, s, lives[n].dials[i], lives[n].lived >= cfg.min);
    TracedMore(cfg, lives, s.log, spots, Spot(n, i), t.log[|t.log| - 1]);
  }

  lemma {:induction false} DialAllTraced(cfg: Config, lives: seq<Life>, s: State, spots: seq<Spot>, n: nat, i: nat)
    returns (t: State, more: seq<Spot>, j: nat)
    requires n < |lives| && Dialling(cfg, lives, s, spots, n, i)
    ensures t == DialAll(cfg, s, lives[n].dials[i..], lives[n].lived >= cfg.min)
    ensures Dialling(cfg, lives, t, more, n, j) && (t.up || j == |lives[n].dials|)
    decreases |lives[n].dials| - i
  {
    var dials := lives[n].dials;
    if s.up || i == |dials| {
      t, more, j := s, spots, i;
    } else {
      DialOnceTraced(cfg, lives, s, spots, n, i);
      assert dials[i..][0] == dials[i] && dials[i..][1..] == dials[i + 1..];
      t, more, j := DialAllTraced(cfg, lives, DialOnce(cfg, s, dials[i], lives[n].lived >= cfg.min),
                                  spots + [Spot(n, i)], n, i + 1);
    }
  }

  lemma LoopEntered(cfg: Config, lives: seq<Life>, s: State, spots: seq<Spot>, n: nat)
    requires n < |lives| && s.up && Between(cfg, lives, s, spots, n)
    ensures Dialling(cfg, lives, s.(now := s.now + lives[n].lived, up := false), spots, n, 0)
  {
  }

  lemma LoopLeft(cfg: Config, lives: seq<Life>, t: State, spots: seq<Spot>, n: nat, j: nat)
    requires n < |lives| && Dialling(cfg, lives, t, spots, n, j) && (t.up || j == |lives[n].dials|)
    ensures Between(cfg, lives, AfterLoop(cfg, t, lives[n]), spots, n + 1)
  {
  }

  lemma WholeLoop(cfg: Config, s: State, life: Life)
    ensures LiveOnce(cfg, s, life) ==
            AfterLoop(cfg, DialAll(cfg, s.(now := s.now + life.lived, up := false), life.dials[0..], life.lived >= cfg.min), life)
  {
    assert life.dials[0..] == life.dials;
  }

  lemma LiveOnceTraced(cfg: Config, lives: seq<Life>, s: State, spots: seq<Spot>, n: nat)
    returns (t: State, more: seq<Spot>)
    requires n < |lives| && s.up && Between(cfg, lives, s, spots, n)
    ensures t == LiveOnce(cfg, s, lives[n]) && Between(cfg, lives, t, more, n + 1)
  {
    LoopEntered(cfg, lives, s, spots, n);
    var u: State, j: nat;
    u, more, j := DialAllTraced(cfg, lives, s.(now := s.now + lives[n].lived, up := false), spots, n, 0);
    LoopLeft(cfg, lives, u, more, n, j);
    WholeLoop(cfg, s, lives[n]);
    t := AfterLoop(cfg, u, lives[n]);
  }

  lemma LiveNext(cfg: Config, lives: seq<Life>, s: State, n: nat)
    requires s.up && n < |lives|
    ensures LiveAll(cfg, s, lives[n..]) == LiveAll(cfg, LiveOnce(cfg, s, lives[n]), lives[n + 1..])
  {
    assert lives[n..][0] == lives[n] && lives[n..][1..] == lives[n + 1..];
  }

  lemma LiveEnds(cfg: Config, lives: seq<Life>, s: State, spots: seq<Spot>, n: nat)
    requires Between(cfg, lives, s, spots, n) && (!s.up || n == |lives|)
    ensures LiveAll(cfg, s, lives[n..]) == s && Last(lives, spots[|spots| - 1], s.log[|s.log| - 1])
  {
  }

  lemma {:induction false} LiveAllTraced(cfg: Config, lives: seq<Life>, s: State, spots: seq<Spot>, n: nat)
    returns (t: State, more: seq<Spot>)
    requires Between(cfg, lives, s, spots, n)
    ensures t == LiveAll(cfg, s, lives[n..])
    ensures Traced(cfg, lives, t.log, more) && Last(lives, more[|more| - 1], t.log[|t.log| - 1])
    decreases |lives| - n
  {
    if !s.up || n == |lives| {
      LiveEnds(cfg, lives, s, spots, n);
      t, more := s, spots;
    } else {
      t, more := LiveOnceTraced(cfg, lives, s, spots, n);
      LiveNext(cfg, lives, s, n);
      t, more := LiveAllTraced(cfg, lives, t, more, n + 1);
    }
  }

  /**
   The log is what the script says, entry by entry: which dial each entry is, when it
   is made, with which attempt number, and whether it follows a healthy connection.
   Nothing is left out, and the log ends where the script has no further dial.
   */
  lemma LogMatchesScript(cfg: Config, lives: seq<Life>) returns (spots: seq<Spot>)
    ensures var log := LiveAll(cfg, START, lives).log;
            Traced(cfg, lives, log, spots) && Last(lives, spots[|spots| - 1], log[|log| - 1])
  {
    assert lives[0..] == lives;
    var t: State;
    t, spots := LiveAllTraced(cfg, lives, START, [BEFORE], 0);
  }

  lemma DialledFollows(cfg: Config, lives: seq<Life>, v: Spot, x: Redial, w: Spot, y: Redial)
    requires Jittery(lives) && Dialled(cfg, lives, v, x, w, y)
    requires !x.ok ==> x.healthy == (0 <= v.life < |lives| && lives[v.life].lived >= cfg.min)
    ensures Follows(cfg, x, y)
  {
    assert lives[w.life] in lives && DialAt(lives, w) in lives[w.life].dials;
    assert Linked(cfg, x, y, DialAt(lives, w).noise);
  }

  /** Every log of `run` is a chain of linked dials. */
  lemma LogLinked(cfg: Config, lives: seq<Life>)
    requires Jittery(lives)
    ensures Chain(cfg, LiveAll(cfg, START, lives).log)
  {
    var log := LiveAll(cfg, START, lives).log;
    var spots := LogMatchesScript(cfg, lives);
    forall i {:trigger log[i]} | 0 < i < |log|
      ensures Follows(cfg, log[i - 1], log[i])
    {
      if i > 1 {
        assert Dialled(cfg, lives, spots[i - 2], log[i - 2], spots[i - 1], log[i - 1]);
      }
      DialledFollows(cfg, lives, spots[i - 1], log[i - 1], spots[i], log[i]);
    }
  }

  /** The entry after a connection, by the life before that connection. */
  lemma StartsOver(cfg: Config, lives: seq<Life>, u: Spot, w: Redial, v: Spot, x: Redial, at: Spot, y: Redial)
    requires Dialled(cfg, lives, u, w, v, x) && Dialled(cfg, lives, v, x, at, y) && at.pass == 0
    ensures 0 <= v.life < |lives| && at.life == v.life + 1 && x.ok && x.attempt >= 1
    ensures y.attempt == if lives[v.life].lived >= cfg.min then 1 else x.attempt + 1
    ensures lives[v.life].lived >= cfg.min ==>
              y.at == x.at + CostOf(lives, v) + lives[at.life].lived + DialAt(lives, at).lag
  {
    assert x.ok;
  }

  /**
   The healthy rule: the first dial after the connection that follows life k is made at
   once, as attempt 1, exactly when life k lasted at least min; otherwise its number is
   one more than that of the dial before it. `at` is its place in the log.
   */
  lemma HealthyStartsOver(cfg: Config, lives: seq<Life>, spots: seq<Spot>, k: nat, at: nat)
    requires var log := LiveAll(cfg, START, lives).log;
             Traced(cfg, lives, log, spots) && 0 < at < |log| && spots[at] == Spot(k + 1, 0)
    ensures k + 1 < |lives| && InScript(lives, spots[at])
    ensures var log := LiveAll(cfg, START, lives).log;
            && (log[at].attempt == 1 <==> lives[k].lived >= cfg.min)
            && (lives[k].lived < cfg.min ==> log[at].attempt == log[at - 1].attempt + 1)
            && (lives[k].lived >= cfg.min ==>
                  log[at].at == log[at - 1].at + CostOf(lives, spots[at - 1]) + lives[k + 1].lived
                                + DialAt(lives, spots[at]).lag)
  {
    var log := LiveAll(cfg, START, lives).log;
    var i := at - 1;
    assert Dialled(cfg, lives, spots[i], log[i], spots[at], log[at]);
    assert at > 1;
    var h := at - 2;
    assert Dialled(cfg, lives, spots[h], log[h], spots[i], log[i]);
    StartsOver(cfg, lives, spots[h], log[h], spots[i], log[i], spots[at], log[at]);
  }

  // ---------------------------------------------------- the amortised bound

  /** The least wait of a dial that is not a first attempt. */
  function Pause(cfg: Config): nat {
    4 * cfg.min / 5
  }

  /** Attempts go up by one, and start over only after a dial that replaced a healthy connection. */
  lemma LinkCounts(cfg: Config, x: Redial, y: Redial)
    requires Follows(cfg, x, y)
    ensures y.attempt >= 1 && y.attempt == (if x.ok && x.healthy then 1 else x.attempt + 1)
    ensures !x.ok ==> y.healthy == x.healthy
    ensures y.at >= x.at
  {
  }

  /** The options leave the int64 range nowhere. */
  ghost predicate Tamed(cfg: Config) {
    ValidConfig(cfg) && Tame(cfg.min, cfg.max)
  }

  lemma LinkWaits(cfg: Config, x: Redial, y: Redial)
    requires Tamed(cfg) && Follows(cfg, x, y)
    ensures y.at >= x.at + (if y.attempt >= 2 then Pause(cfg) else 0) + (if x.ok && y.healthy then cfg.min else 0)
  {
    var noise :| Jitter(noise) && Linked(cfg, x, y, noise);
    if y.attempt >= 2 {
      TameDelay(y.attempt, cfg.min, cfg.max, noise);
    }
  }

  predicate NoneOk(log: seq<Redial>, i: nat, j: nat)
    requires i <= j <= |log|
  {
    forall k :: i <= k < j ==> !log[k].ok
  }

  lemma AttemptsPositive(cfg: Config, log: seq<Redial>, j: nat)
    requires Chain(cfg, log) && 0 < j < |log|
    ensures log[j].attempt >= 1
  {
    LinkCounts(cfg, log[j - 1], log[j]);
  }

  /** One more dial costs at most one more pause than time has passed. */
  lemma Distribute(q: nat, n: int)
    ensures q * (n + 1) == q * n + q
  {
  }

  /** From dial x to dial y time for `n` pauses of `q` has passed. */
  predicate Settled(q: nat, n: int, x: Redial, y: Redial) {
    q * n <= y.at - x.at
  }

  /** Time for one more pause if y waits, and for another if it replaces a healthy connection. */
  lemma Settle(q: nat, n: int, x: Redial, y: Redial, z: Redial)
    requires Settled(q, n, x, y) && z.at >= y.at
    ensures Settled(q, n, x, z) && Settled(q, n - 1, x, z)
    ensures z.at >= y.at + q ==> Settled(q, n + 1, x, z)
    ensures z.at >= y.at + 2 * q ==> Settled(q, n + 2, x, z)
  {
    Distribute(q, n - 1);
    Distribute(q, n);
    Distribute(q, n + 1);
  }

  /** One dial more; `unbroken`: no dial between w and x has succeeded. */
  lemma PaidStep(cfg: Config, w: Redial, x: Redial, y: Redial, n: int, unbroken: bool)
    requires Tamed(cfg) && Follows(cfg, x, y)
    requires x.attempt >= 1 || (unbroken && x.ok)
    requires var q := Pause(cfg);
             Settled(q, n - 1, w, x) && (unbroken || x.healthy ==> Settled(q, n, w, x))
    ensures var q := Pause(cfg);
            Settled(q, n, w, y) && ((unbroken && !x.ok) || y.healthy ==> Settled(q, n + 1, w, y))
  {
    var q := Pause(cfg);
    LinkCounts(cfg, x, y);
    LinkWaits(cfg, x, y);
    Settle(q, n - 1, w, x, y);
    if unbroken || x.healthy {
      Settle(q, n, w, x, y);
    }
  }

  /** What is paid for between dials i and j: a healthy connection inside the window pays for the next free dial. */
  ghost predicate PaidUp(q: nat, log: seq<Redial>, i: nat, j: nat)
    requires i <= j < |log|
  {
    && Settled(q, j - i - 1, log[i], log[j])
    && (NoneOk(log, i, j) || log[j].healthy ==> Settled(q, j - i, log[i], log[j]))
  }

  lemma ChainAt(cfg: Config, log: seq<Redial>, j: nat)
    requires Chain(cfg, log) && 0 < j < |log|
    ensures Follows(cfg, log[j - 1], log[j])
    ensures log[j - 1].attempt >= 1 || (j == 1 && log[0].ok)
  {
    if j > 1 {
      AttemptsPositive(cfg, log, j - 1);
    }
  }

  lemma PaidNext(cfg: Config, log: seq<Redial>, i: nat, j: nat)
    requires Tamed(cfg) && i < j < |log|
    requires Follows(cfg, log[j - 1], log[j]) && (log[j - 1].attempt >= 1 || (j == 1 && log[0].ok))
    requires PaidUp(Pause(cfg), log, i, j - 1)
    ensures PaidUp(Pause(cfg), log, i, j)
  {
    PaidStep(cfg, log[i], log[j - 1], log[j], j - i - 1, NoneOk(log, i, j - 1));
  }

  /** The induction behind `StormBound`: one pause at most is ever missing. */
  lemma {:induction false} Paid(cfg: Config, log: seq<Redial>, i: nat, j: nat)
    requires Tamed(cfg) && Chain(cfg, log) && i <= j < |log|
    ensures PaidUp(Pause(cfg), log, i, j)
    decreases j
  {
    if i == j {
      NothingOwed(Pause(cfg), log[i]);
    } else {
      Paid(cfg, log, i, j - 1);
      ChainAt(cfg, log, j);
      PaidNext(cfg, log, i, j);
    }
  }

  lemma NothingOwed(q: nat, x: Redial)
    ensures Settled(q, 0, x, x) && Settled(q, -1, x, x)
  {
    Distribute(q, -1);
  }

  /** Between dial i and dial j at least j-i-1 pauses of 4/5 min pass. The initial dial has index 0. */
  predicate Slow(cfg: Config, lives: seq<Life>, i: nat, j: nat)
    requires i <= j < |LiveAll(cfg, START, lives).log|
  {
    var log := LiveAll(cfg, START, lives).log;
    Pause(cfg) * (j - i - 1) <= log[j].at - log[i].at
  }

  lemma {:induction false} TimeAdvances(cfg: Config, log: seq<Redial>, i: nat, j: nat)
    requires Chain(cfg, log) && i <= j < |log|
    ensures log[i].at <= log[j].at
    decreases j
  {
    if i < j {
      TimeAdvances(cfg, log, i, j - 1);
      LinkCounts(cfg, log[j - 1], log[j]);
    }
  }

  /** Reconnect storms are bounded, whatever the connections and dials do; a pause of 1 ns truncates to nothing. */
  lemma StormBound(cfg: Config, lives: seq<Life>, i: nat, j: nat)
    requires Tamed(cfg) || cfg.min == 1
    requires Jittery(lives) && i <= j < |LiveAll(cfg, START, lives).log|
    ensures Slow(cfg, lives, i, j)
  {
    LogLinked(cfg, lives);
    if cfg.min == 1 {
      TimeAdvances(cfg, LiveAll(cfg, START, lives).log, i, j);
      assert Pause(cfg) == 0;
    } else {
      Paid(cfg, LiveAll(cfg, START, lives).log, i, j);
    }
  }

  // ------------------------------------------- exactly when the bound holds

  const CALM := Noise(1.0, MIN_INT64)
  const FAIL := Dial(CALM, 0, 0, false)
  const CONNECT := Dial(CALM, 0, 0, true)

  function Fails(n: nat): (dials: seq<Dial>)
    ensures forall d :: d in dials ==> d == FAIL
  {
    if n == 0 then [] else [FAIL] + Fails(n - 1)
  }

  /** After n failed dials the loop stands at attempt n. */
  lemma {:induction false} Failing(cfg: Config, s: State, n: nat, rest: seq<Dial>, healthy: bool) returns (t: State)
    requires !s.up && s.log != [] && s.log[|s.log| - 1].at <= s.now
    ensures DialAll(cfg, s, Fails(n) + rest, healthy) == DialAll(cfg, t, rest, healthy)
    ensures !t.up && t.attempt == s.attempt + n && t.notices == s.notices
    ensures t.log != [] && (if n > 0 then t.log[|t.log| - 1].at == t.now else t == s)
    decreases n
  {
    if n == 0 {
      t := s;
      assert Fails(0) + rest == rest;
    } else {
      var u := DialOnce(cfg, s, FAIL, healthy);
      assert (Fails(n) + rest)[0] == FAIL && (Fails(n) + rest)[1..] == Fails(n - 1) + rest;
      t := Failing(cfg, u, n - 1, rest, healthy);
    }
  }

  /**
   A run in which three dials start at the same moment: after enough failures an
   attempt does not wait, its connection replaces a healthy one, and the next attempt
   is a first one.
   */
  lemma Burst(cfg: Config) returns (lives: seq<Life>, i: nat)
    requires ValidConfig(cfg) && !Tamed(cfg)
    ensures Jittery(lives)
    ensures var log := LiveAll(cfg, START, lives).log;
            i + 2 < |log| && log[i + 2].at == log[i + 1].at == log[i].at && log[i + 1].attempt >= 2
  {
    var attempt, noise := Untamed(cfg.min, cfg.max);
    var n, last := attempt - 1, Dial(noise, 0, 0, true);
    var first := Life(cfg.min, None, Fails(n) + [last]);
    var second := Life(0, None, [CONNECT]);
    lives := [first, second];
    var s := START.(now := cfg.min, up := false);
    var t := Failing(cfg, s, n, [last], true);
    var u := DialOnce(cfg, t, last, true);
    i := |t.log| - 1;
    assert [last][1..] == [];
    assert DialAll(cfg, u, [], true) == u;
    assert DialAll(cfg, s, first.dials, true) == u;
    var v := LiveOnce(cfg, START, first);
    assert v == u.(notices := v.notices, attempt := 0);
    var w := LiveOnce(cfg, v, second);
    Sudden(cfg, v, second);
    assert LiveAll(cfg, v, [second]) == LiveAll(cfg, w, [second][1..]) == w;
    assert lives[1..] == [second];
    assert LiveAll(cfg, START, lives) == w;
    assert w.log[i] == t.log[i] && w.log[i + 1] == u.log[i + 1];
  }

  lemma Sudden(cfg: Config, v: State, life: Life)
    requires v.up && v.attempt == 0 && life == Life(0, None, [CONNECT])
    ensures LiveOnce(cfg, v, life).log == v.log + [Redial(1, v.now, true, 0 >= cfg.min)]
  {
    var s := v.(up := false);
    var t := DialOnce(cfg, s, CONNECT, 0 >= cfg.min);
    assert s == v.(now := v.now + life.lived, up := false);
    assert DialAll(cfg, t, life.dials[1..], 0 >= cfg.min) == t;
    assert DialAll(cfg, s, life.dials, 0 >= cfg.min) == t;
  }

  lemma BurstTooFast(cfg: Config) returns (lives: seq<Life>, i: nat)
    requires ValidConfig(cfg) && !Tamed(cfg) && cfg.min > 1
    ensures Jittery(lives) && i + 2 < |LiveAll(cfg, START, lives).log| && !Slow(cfg, lives, i, i + 2)
  {
    lives, i := Burst(cfg);
    assert Pause(cfg) >= 1;
    assert Pause(cfg) * 1 >= 1;
  }

  /** The bound holds for every run exactly when no duration leaves the int64 range, or a pause is nothing anyway. */
  lemma StormBoundExact(cfg: Config)
    requires ValidConfig(cfg)
    ensures (forall lives, i: nat, j: nat ::
               Jittery(lives) && i <= j < |LiveAll(cfg, START, lives).log| ==> Slow(cfg, lives, i, j))
            <==> Tamed(cfg) || cfg.min == 1
  {
    if Tamed(cfg) || cfg.min == 1 {
      forall lives, i: nat, j: nat | Jittery(lives) && i <= j < |LiveAll(cfg, START, lives).log|
        ensures Slow(cfg, lives, i, j)
      {
        StormBound(cfg, lives, i, j);
      }
    } else {
      var lives, i := BurstTooFast(cfg);
    }
  }

  // ------------------------------------------------------------- corollaries

  /** The bound as 4·min·(N-1) <= 5·T holds for every run exactly when, besides, min is a multiple of five nanoseconds. */
  lemma ExactBound(cfg: Config)
    requires ValidConfig(cfg)
    ensures (forall lives, i: nat, j: nat ::
               Jittery(lives) && i <= j < |LiveAll(cfg, START, lives).log| ==> Fast(cfg, lives, i, j))
            <==> Tamed(cfg) && cfg.min % 5 == 0
  {
    if !Tamed(cfg) {
      var lives, i := Burst(cfg);
      assert !Fast(cfg, lives, i, i + 2);
    } else if cfg.min % 5 == 0 {
      forall lives, i: nat, j: nat | Jittery(lives) && i <= j < |LiveAll(cfg, START, lives).log|
        ensures Fast(cfg, lives, i, j)
      {
        StormBound(cfg, lives, i, j);
        FiveTimes(cfg.min, j - i - 1);
      }
    } else {
      var lives := [Life(0, None, [Dial(SHORTEST, 0, 0, false), Dial(SHORTEST, 0, 0, true)])];
      ShortPause(cfg, lives);
      assert !Fast(cfg, lives, 0, 2);
    }
  }

  const SHORTEST := Noise(0.8, MIN_INT64)

  predicate Fast(cfg: Config, lives: seq<Life>, i: nat, j: nat)
    requires i <= j < |LiveAll(cfg, START, lives).log|
  {
    var log := LiveAll(cfg, START, lives).log;
    4 * cfg.min * (j - i - 1) <= 5 * (log[j].at - log[i].at)
  }

  lemma FiveTimes(min: nat, n: int)
    requires min % 5 == 0
    ensures 4 * min * n == 5 * (4 * min / 5 * n)
  {
    var q := 4 * min / 5;
    assert 4 * min == 5 * q;
    assert 5 * q * n == 5 * (q * n);
  }

  lemma FourFifths(min: nat)
    ensures (min as real * 0.8).Floor == 4 * min / 5
  {
    var f := (min as real * 0.8).Floor;
    assert f as real <= min as real * 0.8 < f as real + 1.0;
    assert (5 * f) as real <= (4 * min) as real < (5 * f + 5) as real;
  }

  /** A first attempt that fails and a second one with the least jitter. */
  lemma ShortPause(cfg: Config, lives: seq<Life>)
    requires ValidConfig(cfg) && cfg.min % 5 != 0
    requires lives == [Life(0, None, [Dial(SHORTEST, 0, 0, false), Dial(SHORTEST, 0, 0, true)])]
    ensures var log := LiveAll(cfg, START, lives).log;
            |log| == 3 && log[0].at == 0 && 5 * log[2].at < 4 * cfg.min
    ensures Jittery(lives)
  {
    FourFifths(cfg.min);
    var dials := lives[0].dials;
    var s := START.(up := false);
    var t := DialOnce(cfg, s, dials[0], false);
    var u := DialOnce(cfg, t, dials[1], false);
    assert Base(2, cfg.min, cfg.max) == cfg.min;
    assert DialAll(cfg, u, dials[1..][1..], false) == u;
    assert DialAll(cfg, t, dials[1..], false) == u;
    assert DialAll(cfg, s, dials, false) == u;
    assert LiveOnce(cfg, START, lives[0]).log == u.log;
    assert lives[1..] == [];
  }

  /** Dials that did not wait at all. */
  function Immediate(log: seq<Redial>): nat {
    if log == [] then 0
    else Immediate(log[..|log| - 1]) + (if log[|log| - 1].attempt == 1 then 1 else 0)
  }

  /** Connections made to replace one that had lived at least min. */
  function AfterHealthy(log: seq<Redial>): nat {
    if log == [] then 0
    else AfterHealthy(log[..|log| - 1]) + (if log[|log| - 1].ok && log[|log| - 1].healthy then 1 else 0)
  }

  lemma {:induction false} FreeDialsCharged(cfg: Config, log: seq<Redial>, n: nat)
    requires Chain(cfg, log) && 0 < n <= |log|
    ensures Immediate(log[..n]) <= 1 + AfterHealthy(log[..n - 1])
    decreases n
  {
    assert log[..n][..n - 1] == log[..n - 1];
    if n == 1 {
      assert log[..1] == [log[0]];
    } else {
      FreeDialsCharged(cfg, log, n - 1);
      LinkCounts(cfg, log[n - 2], log[n - 1]);
      assert log[..n - 1][..n - 2] == log[..n - 2];
      if n > 2 {
        AttemptsPositive(cfg, log, n - 2);
      } else {
        assert log[..1] == [log[0]];
        assert log[..0] == [];
      }
    }
  }

  lemma FirstAttempts(cfg: Config, log: seq<Redial>, j: nat)
    requires Chain(cfg, log) && 0 < j < |log|
    ensures log[j].attempt == 1 <==> j == 1 || (log[j - 1].ok && log[j - 1].healthy)
  {
    ChainAt(cfg, log, j);
    LinkCounts(cfg, log[j - 1], log[j]);
  }

  /**
   The first attempts beyond the first are charged to distinct connections that
   replaced one which had lived at least min: the count goes back to zero only after
   the next successful dial.
   */
  lemma FreeDials(cfg: Config, lives: seq<Life>, j: nat)
    requires Jittery(lives) && 0 < j < |LiveAll(cfg, START, lives).log|
    ensures var log := LiveAll(cfg, START, lives).log;
            && (log[j].attempt == 1 <==> j == 1 || (log[j - 1].ok && log[j - 1].healthy))
            && Immediate(log) <= 1 + AfterHealthy(log[..|log| - 1])
  {
    var log := LiveAll(cfg, START, lives).log;
    LogLinked(cfg, lives);
    FirstAttempts(cfg, log, j);
    FreeDialsCharged(cfg, log, |log|);
    assert log[..|log|] == log;
  }

  /** Dial j waits a pause unless it is a first attempt. */
  predicate Paused(cfg: Config, lives: seq<Life>, j: nat)
    requires 0 < j < |LiveAll(cfg, START, lives).log|
  {
    var log := LiveAll(cfg, START, lives).log;
    log[j].attempt == 1 || log[j].at >= log[j - 1].at + Pause(cfg)
  }

  /** Every other dial waits at least 4/5 min under the same condition as the bound. */
  lemma OthersPause(cfg: Config)
    requires ValidConfig(cfg)
    ensures (forall lives, j: nat :: Jittery(lives) && 0 < j < |LiveAll(cfg, START, lives).log| ==> Paused(cfg, lives, j))
            <==> Tamed(cfg) || cfg.min == 1
  {
    if Tamed(cfg) || cfg.min == 1 {
      forall lives, j: nat | Jittery(lives) && 0 < j < |LiveAll(cfg, START, lives).log|
        ensures Paused(cfg, lives, j)
      {
        var log := LiveAll(cfg, START, lives).log;
        LogLinked(cfg, lives);
        LinkCounts(cfg, log[j - 1], log[j]);
        if Tamed(cfg) {
          LinkWaits(cfg, log[j - 1], log[j]);
        }
      }
    } else {
      var lives, i := Burst(cfg);
      assert !Paused(cfg, lives, i + 1);
    }
  }

  // ------------------------------------------------------------------ causes

  lemma {:induction false} DialsKeepNotices(cfg: Config, s: State, dials: seq<Dial>, healthy: bool)
    ensures DialAll(cfg, s, dials, healthy).notices == s.notices
    decreases |dials|
  {
    if !s.up && dials != [] {
      DialsKeepNotices(cfg, DialOnce(cfg, s, dials[0], healthy), dials[1..], healthy);
    }
  }

  /** A connection adds one notice if it is replaced, with its own cause, and none otherwise. */
  lemma OneNotice(cfg: Config, s: State, life: Life)
    ensures var t := LiveOnce(cfg, s, life);
            if t.up then |t.notices| == |s.notices| + 1 && t.notices[..|s.notices|] == s.notices
                         && t.notices[|s.notices|].cause == CauseOf(life)
            else t.notices == s.notices
  {
    DialsKeepNotices(cfg, s.(now := s.now + life.lived, up := false), life.dials, life.lived >= cfg.min);
  }

  lemma {:induction false} CausesInOrder(cfg: Config, s: State, lives: seq<Life>)
    ensures var notices := LiveAll(cfg, s, lives).notices;
            && |s.notices| <= |notices| <= |s.notices| + |lives|
            && notices[..|s.notices|] == s.notices
            && forall k :: |s.notices| <= k < |notices| ==> notices[k].cause == CauseOf(lives[k - |s.notices|])
    decreases |lives|
  {
    if s.up && lives != [] {
      var life := lives[0];
      var t := LiveOnce(cfg, s, life);
      OneNotice(cfg, s, life);
      CausesInOrder(cfg, t, lives[1..]);
      var notices := LiveAll(cfg, t, lives[1..]).notices;
      if t.up {
        assert notices[|s.notices|] == notices[..|t.notices|][|s.notices|];
        assert notices[..|s.notices|] == notices[..|t.notices|][..|s.notices|];
      }
    }
  }

  /** The k-th reconnection reports why the k-th connection ended, however many dials failed in between. */
  lemma CauseSurvivesDials(cfg: Config, lives: seq<Life>)
    ensures var notices := LiveAll(cfg, START, lives).notices;
            && |notices| <= |lives|
            && forall k :: 0 <= k < |notices| ==>
                 notices[k].cause == if lives[k].cause.Some? then lives[k].cause.value else ReadError
  {
    CausesInOrder(cfg, START, lives);
  }

  // ---------------------------------------------------------------- attempts

  /** The attempt numbers of the dials that succeeded. */
  function Connected(log: seq<Redial>): seq<nat> {
    if log == [] then []
    else Connected(log[..|log| - 1]) + (if log[|log| - 1].ok then [log[|log| - 1].attempt] else [])
  }

  function Attempts(notices: seq<Notice>): seq<nat> {
    seq(|notices|, i requires 0 <= i < |notices| => notices[i].attempt)
  }

  lemma {:induction false} DialsConnectOnce(cfg: Config, s: State, dials: seq<Dial>, healthy: bool)
    ensures var t := DialAll(cfg, s, dials, healthy);
            Connected(t.log) == Connected(s.log) + (if t.up && !s.up then [t.attempt] else [])
    decreases |dials|
  {
    if !s.up && dials != [] {
      var t := DialOnce(cfg, s, dials[0], healthy);
      assert t.log[..|t.log| - 1] == s.log;
      DialsConnectOnce(cfg, t, dials[1..], healthy);
    }
  }

  lemma LifeNoticed(cfg: Config, s: State, life: Life)
    requires Connected(s.log) == [0] + Attempts(s.notices)
    ensures var t := LiveOnce(cfg, s, life); Connected(t.log) == [0] + Attempts(t.notices)
  {
    var d := s.(now := s.now + life.lived, up := false);
    DialsConnectOnce(cfg, d, life.dials, life.lived >= cfg.min);
    DialsKeepNotices(cfg, d, life.dials, life.lived >= cfg.min);
    var t := LiveOnce(cfg, s, life);
    if t.up {
      assert Attempts(t.notices) == Attempts(s.notices) + [t.notices[|s.notices|].attempt];
    }
  }

  lemma {:induction false} LivesNoticed(cfg: Config, s: State, lives: seq<Life>)
    requires Connected(s.log) == [0] + Attempts(s.notices)
    ensures var t := LiveAll(cfg, s, lives); Connected(t.log) == [0] + Attempts(t.notices)
    decreases |lives|
  {
    if s.up && lives != [] {
      LifeNoticed(cfg, s, lives[0]);
      LivesNoticed(cfg, LiveOnce(cfg, s, lives[0]), lives[1..]);
    }
  }

  /** Every successful redial is reported, once and in order, with the number of its attempt. */
  lemma NoticesMatchDials(cfg: Config, lives: seq<Life>)
    ensures var t := LiveAll(cfg, START, lives); Connected(t.log) == [0] + Attempts(t.notices)
  {
    assert START.log[..0] == [];
    assert Connected(START.log) == [0] + Attempts(START.notices);
    LivesNoticed(cfg, START, lives);
  }
}
