/**
 The subscription set as the stream sees it: a plain set of full keys
 ("trade:us:AAPL"), changed by four kinds of mutation. The history of the set is
 a log, and the set at version `v` is what the first `v` mutations produce.
 (SubscriptionSet.dfy proves that the nested map of stream/subscription.go
 carries out exactly these mutations.)
 */
module Mutations {
  type Key = string

  datatype Mutation =
    | Add(added: set<Key>)
    | Remove(removed: set<Key>)
    | Replace(all: set<Key>)
    | Reject(target: Key)

  function Mutate(s: set<Key>, m: Mutation): set<Key> {
    match m
    case Add(ks) => s + ks
    case Remove(ks) => s - ks
    case Replace(ks) => ks
    case Reject(k) => s - {k}
  }

  function Replay(log: seq<Mutation>): set<Key> {
    if log == [] then {} else Mutate(Replay(log[..|log| - 1]), log[|log| - 1])
  }

  lemma ReplayAppend(log: seq<Mutation>, m: Mutation)
    ensures Replay(log + [m]) == Mutate(Replay(log), m)
  {
    assert (log + [m])[..|log|] == log;
  }

  /** The mutation that takes `k` out of the set when it is there. */
  predicate Removes(m: Mutation, k: Key) {
    match m
    case Add(_) => false
    case Remove(ks) => k in ks
    case Replace(ks) => k !in ks
    case Reject(t) => k == t
  }

  /**
   A key of version `v` that a later version `d` lacks was taken out by a
   mutation between the two, and no version is skipped: the index is exhibited.
   */
  lemma {:induction false} MissingKeyWasRemoved(log: seq<Mutation>, v: nat, d: nat, k: Key)
    returns (j: nat)
    requires v <= d <= |log|
    requires k in Replay(log[..v]) && k !in Replay(log[..d])
    ensures v <= j < d && k in Replay(log[..j]) && Removes(log[j], k)
    decreases d
  {
    var last := d - 1;
    assert log[..d][..last] == log[..last] && log[..d][last] == log[last];
    if k in Replay(log[..last]) {
      j := last;
    } else {
      j := MissingKeyWasRemoved(log, v, last, k);
    }
  }
}
