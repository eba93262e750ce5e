/**
 The declaration body (stream/subscription.go `snapshot`, `declaration`): types and
 codes in ascending order, so equal sets have equal bodies whatever their history,
 and the set can be read back from the body.
 */
module Declarations {
  import opened Topics
  import opened SubscriptionSets

  // ------------------------------------------------------------- order

  /** Byte order on strings, as `sort.Strings` uses it. */
  predicate Less(a: string, b: string) {
    if b == "" then false
    else if a == "" then true
    else a[0] < b[0] || (a[0] == b[0] && Less(a[1..], b[1..]))
  }

  lemma {:induction false} LessTotal(a: string, b: string)
    ensures a == b || Less(a, b) || Less(b, a)
    ensures !(Less(a, b) && Less(b, a))
    ensures !Less(a, a)
  {
    if a != "" && b != "" {
      LessTotal(a[1..], b[1..]);
      LessTotal(a[1..], a[1..]);
      assert a == [a[0]] + a[1..] && b == [b[0]] + b[1..];
    } else if a != "" {
      LessTotal(a[1..], a[1..]);
    }
  }

  lemma {:induction false} LessTransitive(a: string, b: string, c: string)
    requires Less(a, b) && Less(b, c)
    ensures Less(a, c)
  {
    if a != "" && a[0] == b[0] == c[0] {
      LessTransitive(a[1..], b[1..], c[1..]);
    }
  }

  /** At the first place where the two differ, a has ended or has the smaller character. */
  predicate DiffersAt(a: string, b: string, k: nat) {
    k <= |a| && k < |b| && a[..k] == b[..k] && (k == |a| || a[k] < b[k])
  }

  /** `Less` is the order of the first difference. */
  lemma {:induction false} LessMeans(a: string, b: string)
    ensures Less(a, b) <==> exists k: nat :: DiffersAt(a, b, k)
  {
    if a == "" || b == "" {
      assert Less(a, b) ==> DiffersAt(a, b, 0);
    } else if a[0] != b[0] {
      assert a[0] < b[0] ==> DiffersAt(a, b, 0);
      forall k: nat | DiffersAt(a, b, k)
        ensures a[0] < b[0]
      {
        if k > 0 {
          assert a[..k][0] == b[..k][0];
        }
      }
    } else {
      LessMeans(a[1..], b[1..]);
      if k: nat :| DiffersAt(a[1..], b[1..], k) {
        assert a[..k + 1] == [a[0]] + a[1..][..k] && b[..k + 1] == [b[0]] + b[1..][..k];
        assert DiffersAt(a, b, k + 1);
      }
      if k: nat :| DiffersAt(a, b, k) {
        assert a[1..][..k - 1] == a[..k][1..] && b[1..][..k - 1] == b[..k][1..];
        assert DiffersAt(a[1..], b[1..], k - 1);
      }
    }
  }

  predicate Ascending(xs: seq<string>) {
    forall i, j :: 0 <= i < j < |xs| ==> Less(xs[i], xs[j])
  }

  function Elements(xs: seq<string>): set<string> {
    set x | x in xs
  }

  /** An ascending list is determined by its elements. */
  lemma {:induction false} AscendingUnique(xs: seq<string>, ys: seq<string>)
    requires Ascending(xs) && Ascending(ys) && Elements(xs) == Elements(ys)
    ensures xs == ys
    decreases |xs|
  {
    SameEmptiness(xs, ys);
    if xs != [] {
      HeadIsLeast(xs, ys);
      HeadIsLeast(ys, xs);
      LessTotal(xs[0], ys[0]);
      TailElements(xs);
      TailElements(ys);
      AscendingUnique(xs[1..], ys[1..]);
      assert xs == [xs[0]] + xs[1..] && ys == [ys[0]] + ys[1..];
    }
  }

  lemma SameEmptiness(xs: seq<string>, ys: seq<string>)
    requires Elements(xs) == Elements(ys)
    ensures xs == [] <==> ys == []
  {
    assert xs != [] ==> xs[0] in Elements(xs);
    assert ys != [] ==> ys[0] in Elements(ys);
  }

  lemma HeadIsLeast(xs: seq<string>, ys: seq<string>)
    requires Ascending(ys) && xs != [] && ys != [] && Elements(xs) == Elements(ys)
    ensures xs[0] == ys[0] || Less(ys[0], xs[0])
  {
    assert xs[0] in Elements(ys);
    var i :| 0 <= i < |ys| && ys[i] == xs[0];
  }

  lemma TailElements(xs: seq<string>)
    requires Ascending(xs) && xs != []
    ensures Elements(xs[1..]) == Elements(xs) - {xs[0]}
  {
    LessTotal(xs[0], xs[0]);
    assert xs == [xs[0]] + xs[1..];
    forall x | x in xs[1..]
      ensures x != xs[0]
    {
      var i :| 0 <= i < |xs[1..]| && xs[1..][i] == x;
      assert Less(xs[0], xs[i + 1]);
    }
  }

  /** Stands for `sort.Strings` on distinct strings: inserting one element into a sorted list. */
  method InsertSorted(xs: seq<string>, x: string) returns (r: seq<string>)
    requires Ascending(xs) && x !in xs
    ensures Ascending(r) && Elements(r) == Elements(xs) + {x}
  {
    var i := 0;
    while i < |xs| && Less(xs[i], x)
      invariant i <= |xs|
      invariant forall k :: 0 <= k < i ==> Less(xs[k], x)
    {
      i := i + 1;
    }
    forall k | i <= k < |xs|
      ensures Less(x, xs[k])
    {
      LessTotal(xs[i], x);
      if i < k {
        LessTransitive(x, xs[i], xs[k]);
      }
    }
    r := xs[..i] + [x] + xs[i..];
    assert xs == xs[..i] + xs[i..];
  }

  /** `sortedKeys` and `sortedCodes`: the keys of a map, in whatever order it is walked, sorted. */
  method SortedElements(s: set<string>) returns (out: seq<string>)
    ensures Ascending(out) && Elements(out) == s
  {
    out := [];
    var rest := s;
    while rest != {}
      invariant rest <= s && Ascending(out) && Elements(out) == s - rest
      decreases rest
    {
      var k :| k in rest;
      assert k !in Elements(out);
      out := InsertSorted(out, k);
      rest := rest - {k};
    }
  }

  // ------------------------------------------------------------- the body

  function Types(entries: seq<Subscription>): seq<string> {
    seq(|entries|, i requires 0 <= i < |entries| => entries[i].typ)
  }

  /** Types ascending, each with its codes ascending and none without a code. */
  predicate Canonical(entries: seq<Subscription>) {
    && Ascending(Types(entries))
    && forall i :: 0 <= i < |entries| ==> Ascending(entries[i].codes) && entries[i].codes != []
  }

  /** The entries list exactly the nested map. */
  predicate Lists(entries: seq<Subscription>, m: Nested) {
    && Elements(Types(entries)) == m.Keys
    && forall i :: 0 <= i < |entries| ==> entries[i].typ in m && Elements(entries[i].codes) == m[entries[i].typ]
  }

  /** `snapshot`. */
  method Snapshot(m: TopicMap) returns (entries: seq<Subscription>)
    requires m.Valid() && SubscriptionSets.Tidy(m.model)
    ensures Canonical(entries) && Lists(entries, m.model)
  {
    var types := SortedElements(m.types.Keys);
    entries := [];
    for i := 0 to |types|
      invariant |entries| == i
      invariant forall k :: 0 <= k < i ==> entries[k].typ == types[k] && types[k] in m.model
      invariant forall k :: 0 <= k < i ==> Ascending(entries[k].codes)
      invariant forall k :: 0 <= k < i ==> Elements(entries[k].codes) == m.model[types[k]]
    {
      assert types[i] in Elements(types);
      var codes := SortedElements(m.types[types[i]].codes);
      entries := entries + [Subscription(types[i], codes)];
    }
    assert Types(entries) == types;
    forall k | 0 <= k < |entries|
      ensures entries[k].codes != []
    {
      SubscriptionsNonEmpty(m.model, entries[k]);
    }
  }

  lemma SubscriptionsNonEmpty(m: Nested, e: Subscription)
    requires SubscriptionSets.Tidy(m) && e.typ in m && Elements(e.codes) == m[e.typ]
    ensures e.codes != []
  {
    var c :| c in m[e.typ];
    assert c in Elements(e.codes);
  }

  datatype Element = IdElement(id: string) | TopicElement(sub: Subscription)

  function TopicElements(entries: seq<Subscription>): seq<Element> {
    seq(|entries|, i requires 0 <= i < |entries| => TopicElement(entries[i]))
  }

  /** The body for an id and a list of entries: `[]` carries no id. */
  function BodyOf(id: string, entries: seq<Subscription>): seq<Element> {
    if entries == [] then []
    else (if id == "" then [] else [IdElement(id)]) + TopicElements(entries)
  }

  /** The id comes first and once, behind it one element per entry, in order; `[]` has nothing. */
  predicate Carries(body: seq<Element>, id: string, entries: seq<Subscription>) {
    var k := if id == "" || entries == [] then 0 else 1;
    && |body| == |entries| + k
    && (k == 1 ==> body[0] == IdElement(id))
    && forall i :: 0 <= i < |entries| ==> body[k + i] == TopicElement(entries[i])
  }

  lemma BodyCarries(id: string, entries: seq<Subscription>)
    ensures Carries(BodyOf(id, entries), id, entries)
  {
  }

  lemma OneBodyOnly(a: seq<Element>, b: seq<Element>, id: string, entries: seq<Subscription>)
    requires Carries(a, id, entries) && Carries(b, id, entries)
    ensures a == b
  {
    var k := if id == "" || entries == [] then 0 else 1;
    forall i | 0 <= i < |a|
      ensures a[i] == b[i]
    {
      if i >= k {
        var e := i - k;
        assert a[k + e] == TopicElement(entries[e]) && b[k + e] == TopicElement(entries[e]);
      }
    }
  }

  /** The body for an id and a list of entries is this one and no other. */
  lemma BodyTells(id: string, entries: seq<Subscription>, body: seq<Element>)
    ensures body == BodyOf(id, entries) <==> Carries(body, id, entries)
  {
    BodyCarries(id, entries);
    if Carries(body, id, entries) {
      OneBodyOnly(body, BodyOf(id, entries), id, entries);
    }
  }

  lemma IdFirst(body: seq<Element>, id: string, entries: seq<Subscription>)
    requires Carries(body, id, entries) && id != "" && entries != []
    ensures body[0] == IdElement(id) && forall i :: 0 < i < |body| ==> body[i].TopicElement?
  {
    forall i | 0 < i < |body|
      ensures body[i].TopicElement?
    {
      assert body[1 + (i - 1)] == TopicElement(entries[i - 1]);
    }
  }

  lemma EqualBodiesEqualIds(id: string, a: seq<Subscription>, other: string, b: seq<Subscription>)
    requires BodyOf(id, a) == BodyOf(other, b)
    ensures a == b && (a != [] ==> id == other)
  {
    var body := BodyOf(id, a);
    BodyCarries(id, a);
    BodyCarries(other, b);
    if a != [] && b != [] {
      assert body[0] == (if id == "" then TopicElement(a[0]) else IdElement(id));
      assert body[0] == (if other == "" then TopicElement(b[0]) else IdElement(other));
      BodyInjective(id, a, b);
    }
  }

  /** `declaration`: `[]` exactly when the set is empty, otherwise the canonical listing behind its id. */
  method Declaration(m: TopicMap, id: string) returns (body: seq<Element>, ghost entries: seq<Subscription>)
    requires m.Valid() && SubscriptionSets.Tidy(m.model)
    ensures body == BodyOf(id, entries) && Canonical(entries) && Lists(entries, m.model)
    ensures body == [] <==> Keys(m.model) == {}
    ensures Carries(body, id, entries)
    ensures id != "" && Keys(m.model) != {} ==>
              && body != [] && body[0] == IdElement(id)
              && forall i :: 0 < i < |body| ==> body[i].TopicElement?
  {
    EmptyIffNoKeys(m.model);
    if |m.types| == 0 {
      entries := [];
      return [], [];
    }
    body := [];
    if id != "" {
      body := [IdElement(id)];
    }
    var listed := Snapshot(m);
    entries := listed;
    ListedEmpty(listed, m.model);
    body := body + TopicElements(listed);
    BodyCarries(id, listed);
    if id != "" {
      IdFirst(body, id, listed);
    }
  }

  lemma EmptyIffNoKeys(m: Nested)
    requires SubscriptionSets.Tidy(m)
    ensures m == map[] <==> Keys(m) == {}
  {
    if m != map[] {
      var t :| t in m;
      var c :| c in m[t];
      assert FullKey(t, c) in Keys(m);
    }
  }

  lemma ListedEmpty(entries: seq<Subscription>, m: Nested)
    requires Lists(entries, m)
    ensures entries == [] <==> m == map[]
  {
    if entries != [] {
      assert entries[0].typ in m;
    } else {
      assert m.Keys == {};
    }
  }

  // ------------------------------------------------------------- canonical and invertible

  lemma TypeListed(entries: seq<Subscription>, m: Nested, t: string) returns (i: nat)
    requires Lists(entries, m) && t in m
    ensures i < |entries| && entries[i].typ == t
  {
    assert t in Elements(Types(entries));
    i :| 0 <= i < |Types(entries)| && Types(entries)[i] == t;
  }

  /** A nested map has one canonical listing only. */
  lemma ListingUnique(a: seq<Subscription>, b: seq<Subscription>, m: Nested)
    requires Canonical(a) && Lists(a, m) && Canonical(b) && Lists(b, m)
    ensures a == b
  {
    AscendingUnique(Types(a), Types(b));
    assert |a| == |Types(a)| == |Types(b)| == |b|;
    forall i | 0 <= i < |a|
      ensures a[i] == b[i]
    {
      assert Types(a)[i] == Types(b)[i];
      AscendingUnique(a[i].codes, b[i].codes);
    }
  }

  /** Two tidy nested maps with the same full keys are the same map. */
  lemma KeysDetermine(m: Nested, n: Nested)
    requires SubscriptionSets.Tidy(m) && SubscriptionSets.Tidy(n) && Keys(m) == Keys(n)
    ensures m == n
  {
    KeysInclude(m, n);
    KeysInclude(n, m);
    assert forall t :: t in m ==> m[t] == n[t];
  }

  lemma KeysInclude(m: Nested, n: Nested)
    requires SubscriptionSets.Tidy(m) && SubscriptionSets.Tidy(n) && Keys(m) <= Keys(n)
    ensures forall t :: t in m ==> t in n && m[t] <= n[t]
  {
    forall t, c | t in m && c in m[t]
      ensures t in n && c in n[t]
    {
      assert FullKey(t, c) in Keys(m);
      KeyIn(n, t, c);
    }
  }

  /** Canonical: equal sets have equal bodies, whatever operations led to them. */
  lemma EqualSetsEqualBodies(m: Nested, n: Nested, a: seq<Subscription>, b: seq<Subscription>, id: string)
    requires SubscriptionSets.Tidy(m) && SubscriptionSets.Tidy(n)
    requires Canonical(a) && Lists(a, m) && Canonical(b) && Lists(b, n)
    ensures Keys(m) == Keys(n) <==> BodyOf(id, a) == BodyOf(id, b)
  {
    if Keys(m) == Keys(n) {
      KeysDetermine(m, n);
      ListingUnique(a, b, m);
    } else if BodyOf(id, a) == BodyOf(id, b) {
      BodyInjective(id, a, b);
      ReadBack(a, m);
      ReadBack(b, n);
    }
  }

  lemma BodyInjective(id: string, a: seq<Subscription>, b: seq<Subscription>)
    requires BodyOf(id, a) == BodyOf(id, b)
    ensures a == b
  {
    var k := if id == "" then 0 else 1;
    if a != [] && b != [] {
      assert BodyOf(id, a)[k..] == TopicElements(a) && BodyOf(id, b)[k..] == TopicElements(b);
      assert |a| == |TopicElements(a)| == |b|;
      forall i | 0 <= i < |a|
        ensures a[i] == b[i]
      {
        assert TopicElements(a)[i] == TopicElements(b)[i];
      }
    }
  }

  /** Invertible: the listing's full keys are exactly the set. */
  lemma ReadBack(entries: seq<Subscription>, m: Nested)
    requires SubscriptionSets.Tidy(m) && Lists(entries, m)
    ensures SubKeys(entries) == Keys(m)
  {
    forall k | k in Keys(m)
      ensures k in SubKeys(entries)
    {
      var t, c :| t in m && c in m[t] && k == FullKey(t, c);
      var i := TypeListed(entries, m, t);
      assert entries[i] in entries && c in Elements(entries[i].codes);
    }
    forall k | k in SubKeys(entries)
      ensures k in Keys(m)
    {
      var e, c :| e in entries && c in e.codes && k == FullKey(e.typ, c);
      var i :| 0 <= i < |entries| && entries[i] == e;
      assert c in Elements(entries[i].codes);
    }
  }

  /** `replace(snapshot()...)` is the identity. */
  lemma ReplaceSnapshotIsIdentity(entries: seq<Subscription>, m: Nested)
    requires SubscriptionSets.Tidy(m) && Checked(m) && Canonical(entries) && Lists(entries, m)
    ensures AllWellFormed(entries) && Merge(map[], entries) == m
  {
    forall e | e in entries
      ensures WellFormed(e)
    {
      var i :| 0 <= i < |entries| && entries[i] == e;
      forall c | c in e.codes
        ensures Accepts(e.typ, c)
      {
        assert c in Elements(entries[i].codes);
      }
    }
    MergeIsUnion(map[], entries);
    assert Keys(map[]) == {};
    ReadBack(entries, m);
    KeysDetermine(Merge(map[], entries), m);
  }
}
