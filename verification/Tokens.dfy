/**
 The token cache of internal/auth/token.go. `Token` and `Invalidate` each hold the
 mutex from beginning to end, so any interleaving of callers is a sequence of these
 two operations. Issuing a token is an outcome supplied by the environment. Time is
 in nanoseconds.
 */
module Tokens {
  import opened Wrappers
  import opened Int64

  const REFRESH_MARGIN := 60 * SECOND

  /** "" stands for no token, as in the source. */
  datatype Cache = Cache(token: string, expiresAt: int)

  const EMPTY := Cache("", 0)

  /** What the token endpoint granted: a token and its lifetime in seconds. */
  datatype Grant = Grant(token: string, expiresIn: int)

  /** `issue` refuses an empty token and a lifetime that is not positive. */
  predicate Acceptable(g: Grant) {
    g.token != "" && 0 < g.expiresIn <= MAX_INT64
  }

  /** `issue`: what it makes of the endpoint's reply, if there is one. */
  function Issue(reply: Option<Grant>): Option<Grant> {
    if reply.Some? && Acceptable(reply.value) then reply else None
  }

  datatype Op =
    | Get(now: int, issuedAt: int, reply: Option<Grant>) // two clock reads, and the reply if one is asked for
    | Drop(stale: string)

  predicate Usable(c: Cache, now: int) {
    c.token != "" && now < c.expiresAt - REFRESH_MARGIN
  }

  /** `time.Duration(expiresIn) * time.Second` in 64 bits. */
  function Lifetime(expiresIn: int): int {
    Wrap(expiresIn * SECOND)
  }

  function Step(c: Cache, op: Op): Cache {
    match op
    case Get(now, issuedAt, reply) =>
      var grant := Issue(reply);
      if Usable(c, now) || grant == None then c
      else Cache(grant.value.token, issuedAt + Lifetime(grant.value.expiresIn))
    case Drop(stale) => if c.token == stale then EMPTY else c
  }

  /** What `Token` returns. */
  function Answer(c: Cache, now: int, reply: Option<Grant>): Option<string> {
    if Usable(c, now) then Some(c.token)
    else if Issue(reply) == None then None
    else Some(Issue(reply).value.token)
  }

  class TokenSource {
    var token: string
    var expiresAt: int

    constructor ()
      ensures Abs() == EMPTY
    {
      token, expiresAt := "", 0;
    }

    function Abs(): Cache
      reads this
    {
      Cache(token, expiresAt)
    }

    method Token(now: int, issuedAt: int, reply: Option<Grant>) returns (tok: Option<string>)
      modifies this
      ensures tok == Answer(old(Abs()), now, reply)
      ensures Abs() == Step(old(Abs()), Get(now, issuedAt, reply))
    {
      if token != "" && now < expiresAt - REFRESH_MARGIN {
        return Some(token);
      }
      var grant := Issue(reply);
      if grant == None {
        return None;
      }
      token := grant.value.token;
      expiresAt := issuedAt + Wrap(grant.value.expiresIn * SECOND);
      tok := Some(token);
    }

    method Invalidate(stale: string)
      modifies this
      ensures Abs() == Step(old(Abs()), Drop(stale))
    {
      if token == stale {
        token, expiresAt := "", 0;
      }
    }

    /** Other callers, one atomic operation after the other. */
    method Interfere(ops: seq<Op>)
      modifies this
      ensures Abs() == Steps(old(Abs()), ops)
    {
      for i := 0 to |ops|
        invariant Steps(old(Abs()), ops) == Steps(Abs(), ops[i..])
      {
        assert ops[i..][1..] == ops[i + 1..];
        match ops[i]
        case Get(now, issuedAt, reply) => var _ := Token(now, issuedAt, reply);
        case Drop(stale) => Invalidate(stale);
      }
    }
  }

  function Steps(c: Cache, ops: seq<Op>): Cache
    decreases |ops|
  {
    if ops == [] then c else Steps(Step(c, ops[0]), ops[1..])
  }

  // -------------------------------------------------------------- the ledger

  /**
   What a run did: the tokens issued, how many issues replaced a token the 60 s margin
   had refused, which tokens were invalidated while cached, and for how many seconds
   and until when the cached token was granted.
   */
  datatype Ledger =
    Ledger(cache: Cache, issued: seq<string>, refused: nat, cleared: set<string>, granted: int, expiry: int)

  function Record(l: Ledger, op: Op): Ledger {
    var c := l.cache;
    var next := Step(c, op);
    match op
    case Get(now, issuedAt, reply) =>
      var grant := Issue(reply);
      if Usable(c, now) || grant == None then l.(cache := next)
      else
        l.(cache := next, issued := l.issued + [grant.value.token],
           refused := if c.token == "" then l.refused else l.refused + 1,
           granted := grant.value.expiresIn, expiry := issuedAt + grant.value.expiresIn * SECOND)
    case Drop(stale) =>
      l.(cache := next, cleared := if stale != "" && c.token == stale then l.cleared + {stale} else l.cleared)
  }

  /** The token endpoint never hands out a token twice. */
  predicate FreshOp(l: Ledger, op: Op) {
    op.Get? && Issue(op.reply).Some? ==> op.reply.value.token !in l.issued
  }

  predicate FreshOps(l: Ledger, ops: seq<Op>)
    decreases |ops|
  {
    ops == [] || (FreshOp(l, ops[0]) && FreshOps(Record(l, ops[0]), ops[1..]))
  }

  function RecordAll(l: Ledger, ops: seq<Op>): Ledger
    decreases |ops|
  {
    if ops == [] then l else RecordAll(Record(l, ops[0]), ops[1..])
  }

  const BLANK := Ledger(EMPTY, [], 0, {}, 0, 0)

  /** Holds in every run. */
  predicate Balanced(l: Ledger) {
    && "" !in l.issued
    && (l.cache.token != "" ==> l.cache.token in l.issued && l.cache.token !in l.cleared)
    && (forall t :: t in l.cleared ==> t in l.issued)
    && (l.cache.token != "" ==> l.cache.expiresAt <= l.expiry)
    && (l.cache.token != "" && InInt64(l.granted * SECOND) ==> l.cache.expiresAt == l.expiry)
    && |l.issued| == (if l.cache.token == "" then 0 else 1) + l.refused + |l.cleared|
  }

  lemma WrapDown(x: int)
    requires x >= 0
    ensures Wrap(x) <= x
  {
  }

  lemma LifetimeAtMost(expiresIn: int)
    requires expiresIn > 0
    ensures Lifetime(expiresIn) <= expiresIn * SECOND
    ensures InInt64(expiresIn * SECOND) ==> Lifetime(expiresIn) == expiresIn * SECOND
  {
    WrapDown(expiresIn * SECOND);
  }

  lemma RecordBalanced(l: Ledger, op: Op)
    requires Balanced(l) && FreshOp(l, op)
    ensures Balanced(Record(l, op)) && Record(l, op).cache == Step(l.cache, op)
  {
    if op.Get? && Issue(op.reply).Some? {
      LifetimeAtMost(op.reply.value.expiresIn);
    }
  }

  lemma {:induction false} RunBalanced(l: Ledger, ops: seq<Op>)
    requires Balanced(l) && FreshOps(l, ops)
    ensures Balanced(RecordAll(l, ops)) && RecordAll(l, ops).cache == Steps(l.cache, ops)
    ensures l.cleared <= RecordAll(l, ops).cleared && l.refused <= RecordAll(l, ops).refused
    ensures l.issued <= RecordAll(l, ops).issued
    decreases |ops|
  {
    if ops != [] {
      RecordBalanced(l, ops[0]);
      RunBalanced(Record(l, ops[0]), ops[1..]);
    }
  }

  /**
   No stampede: over any interleaving, the tokens issued number the one cached now,
   plus the cached tokens the margin made us replace, plus the distinct tokens that
   were invalidated while cached.
   */
  lemma IssuesAccounted(ops: seq<Op>)
    requires FreshOps(BLANK, ops)
    ensures var l := RecordAll(BLANK, ops);
            && |l.issued| == (if l.cache.token == "" then 0 else 1) + l.refused + |l.cleared|
            && |l.issued| <= 1 + l.refused + |l.cleared|
            && l.cache == Steps(EMPTY, ops)
  {
    RunBalanced(BLANK, ops);
  }

  predicate OnlyDrops(t: string, ops: seq<Op>) {
    forall op :: op in ops && op.Drop? ==> op.stale == t
  }

  lemma {:induction false} ClearedOnly(l: Ledger, t: string, ops: seq<Op>)
    requires OnlyDrops(t, ops)
    ensures RecordAll(l, ops).cleared <= l.cleared + {t}
    decreases |ops|
  {
    if ops != [] {
      assert ops[0] in ops;
      ClearedOnly(Record(l, ops[0]), t, ops[1..]);
    }
  }

  lemma GrowsByOne(a: set<string>, b: set<string>, t: string)
    requires a <= b <= a + {t}
    ensures |b| <= |a| + 1
  {
    if t in b && t !in a {
      assert b == a + {t};
    } else {
      assert a == b;
    }
  }

  /**
   However many requests fail with the same cached token t at once, and whatever
   `Token` calls come between their invalidations, they cost at most one reissue
   beyond the ones the margin asks for.
   */
  lemma OneReissue(l: Ledger, t: string, ops: seq<Op>)
    requires Balanced(l) && FreshOps(l, ops) && l.cache.token == t && t != "" && OnlyDrops(t, ops)
    ensures var m := RecordAll(l, ops);
            |m.issued| - |l.issued| <= 1 + (m.refused - l.refused)
  {
    RunBalanced(l, ops);
    ClearedOnly(l, t, ops);
    GrowsByOne(l.cleared, RecordAll(l, ops).cleared, t);
  }

  /** A token issued for n seconds is answered from the cache until exactly 60 s before they are over. */
  lemma UsableUntilMargin(c: Cache, asked: int, issuedAt: int, g: Grant, now: int)
    requires !Usable(c, asked) && Acceptable(g) && InInt64(g.expiresIn * 1_000_000_000)
    ensures var d := Step(c, Get(asked, issuedAt, Some(g)));
            && d.token == g.token
            && (Usable(d, now) <==> now < issuedAt + (g.expiresIn - 60) * 1_000_000_000)
  {
    LifetimeAtMost(g.expiresIn);
  }

  /**
   In every run: the cached token is used exactly while more than 60 s of its granted
   lifetime are left, if that lifetime fits in an int64 of nanoseconds (292 years).
   */
  lemma UsedWhileGranted(ops: seq<Op>, now: int)
    requires FreshOps(BLANK, ops)
    ensures var l := RecordAll(BLANK, ops);
            l.cache.token != "" && InInt64(l.granted * 1_000_000_000)
            ==> (Usable(Steps(EMPTY, ops), now) <==> l.expiry - now > 60_000_000_000)
  {
    RunBalanced(BLANK, ops);
  }

  /** An answer from the cache is good for more than 60 s, by the lifetime the server granted. */
  lemma CachedAnswersLast(ops: seq<Op>, now: int)
    requires FreshOps(BLANK, ops) && Usable(Steps(EMPTY, ops), now)
    ensures RecordAll(BLANK, ops).expiry > now + REFRESH_MARGIN
    ensures Answer(Steps(EMPTY, ops), now, None) == Some(Steps(EMPTY, ops).token)
  {
    RunBalanced(BLANK, ops);
  }

  /** A token given up is never handed out again: what replaces it is another one. */
  lemma {:induction false} NeverAgain(l: Ledger, t: string, ops: seq<Op>)
    requires Balanced(l) && FreshOps(l, ops) && t in l.issued && l.cache.token != t
    ensures Steps(l.cache, ops).token != t
    decreases |ops|
  {
    if ops != [] {
      RecordBalanced(l, ops[0]);
      NeverAgain(Record(l, ops[0]), t, ops[1..]);
    }
  }

  /**
   A newer token survives every invalidation of an older one: it leaves the cache
   only when the margin refuses it or when it is itself reported as rejected.
   */
  lemma {:induction false} NewerSurvives(c: Cache, ops: seq<Op>)
    requires forall op :: op in ops ==> (if op.Get? then Usable(c, op.now) else op.stale != c.token)
    ensures Steps(c, ops) == c
    decreases |ops|
  {
    if ops != [] {
      assert ops[0] in ops;
      NewerSurvives(c, ops[1..]);
    }
  }

  /** Freshness and bookkeeping of a run split at any point. */
  lemma {:induction false} Splits(l: Ledger, a: seq<Op>, b: seq<Op>)
    ensures FreshOps(l, a + b) <==> FreshOps(l, a) && FreshOps(RecordAll(l, a), b)
    ensures RecordAll(l, a + b) == RecordAll(RecordAll(l, a), b)
    decreases |a|
  {
    if a == [] {
      assert a + b == b;
    } else {
      assert (a + b)[0] == a[0] && (a + b)[1..] == a[1..] + b;
      Splits(Record(l, a[0]), a[1..], b);
    }
  }
}
