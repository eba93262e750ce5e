/**
 stream/subscription.go: the nested map type -> code set, kept by reference as in
 the source, so that a clone and the live map are different objects. Every
 operation is proved equal to a function on the plain nested map, and those
 functions are proved to be the set operations of Mutations on full keys.
 */
module SubscriptionSets {
  import opened Wrappers
  import opened Mutations
  import opened Topics

  type Nested = map<string, set<string>>

  // ------------------------------------------------------------- on plain maps

  function CodesOf(codes: seq<string>): set<string> {
    set c | c in codes
  }

  function MergeOne(m: Nested, sub: Subscription): Nested {
    m[sub.typ := (if sub.typ in m then m[sub.typ] else {}) + CodesOf(sub.codes)]
  }

  function Merge(m: Nested, subs: seq<Subscription>): Nested {
    if subs == [] then m else MergeOne(Merge(m, subs[..|subs| - 1]), subs[|subs| - 1])
  }

  /** The codes go, and with its last code the type itself. */
  function DropCodes(m: Nested, typ: string, codes: set<string>): Nested {
    if typ !in m then m
    else if m[typ] - codes == {} then m - {typ}
    else m[typ := m[typ] - codes]
  }

  function RemoveAll(m: Nested, subs: seq<Subscription>): Nested {
    if subs == [] then m
    else DropCodes(RemoveAll(m, subs[..|subs| - 1]), subs[|subs| - 1].typ, CodesOf(subs[|subs| - 1].codes))
  }

  function RejectTarget(m: Nested, target: string): Nested {
    var split := SplitTopic(target);
    if split == None then m else DropCodes(m, split.value.0, {split.value.1})
  }

  /** The full keys of a nested map: the set the rest of the stream speaks about. */
  function Keys(m: Nested): set<Key> {
    set t, c | t in m && c in m[t] :: FullKey(t, c)
  }

  /** No empty code set, and every key splits back. */
  predicate Tidy(m: Nested) {
    forall t :: t in m ==> t != "" && m[t] != {} && forall c :: c in m[t] ==> Codable(c)
  }

  /** Every code passed the format check of its type. */
  predicate Checked(m: Nested) {
    forall t, c :: t in m && c in m[t] ==> Accepts(t, c)
  }

  lemma KeyIn(m: Nested, t: string, c: string)
    requires Tidy(m) && t != "" && Codable(c)
    ensures FullKey(t, c) in Keys(m) <==> t in m && c in m[t]
  {
    if FullKey(t, c) in Keys(m) {
      var u, d :| u in m && d in m[u] && FullKey(u, d) == FullKey(t, c);
      KeysDiffer(u, d, t, c);
    }
  }

  /** `add` is union. */
  lemma {:induction false} MergeIsUnion(m: Nested, subs: seq<Subscription>)
    requires Tidy(m) && AllWellFormed(subs)
    ensures Tidy(Merge(m, subs)) && Keys(Merge(m, subs)) == Mutate(Keys(m), Add(SubKeys(subs)))
  {
    if subs != [] {
      var front, last := subs[..|subs| - 1], subs[|subs| - 1];
      MergeIsUnion(m, front);
      assert WellFormed(last);
      WellFormedCodable(last);
      MergeOneIsUnion(Merge(m, front), last);
      assert subs == front + [last];
      assert SubKeys(subs) == SubKeys(front) + SubKeys([last]);
    }
  }

  lemma MergeTidy(m: Nested, subs: seq<Subscription>)
    requires Tidy(m) && AllWellFormed(subs)
    ensures Tidy(Merge(m, subs))
  {
    MergeIsUnion(m, subs);
  }

  lemma MergeOneIsUnion(m: Nested, sub: Subscription)
    requires Tidy(m) && WellFormed(sub)
    ensures Tidy(MergeOne(m, sub)) && Keys(MergeOne(m, sub)) == Keys(m) + SubKeys([sub])
  {
    WellFormedCodable(sub);
    var r := MergeOne(m, sub);
    assert sub.codes[0] in r[sub.typ];
    forall k | k in Keys(m) + SubKeys([sub])
      ensures k in Keys(r)
    {
      if k in Keys(m) {
        var t, c :| t in m && c in m[t] && k == FullKey(t, c);
        assert t in r && c in r[t];
      } else {
        var c :| c in sub.codes && k == FullKey(sub.typ, c);
        assert c in r[sub.typ];
      }
    }
    forall k | k in Keys(r)
      ensures k in Keys(m) + SubKeys([sub])
    {
      var t, c :| t in r && c in r[t] && k == FullKey(t, c);
      if t == sub.typ && c in sub.codes {
        assert sub in [sub];
      } else {
        assert t in m && c in m[t];
      }
    }
  }

  lemma DropIsDifference(m: Nested, typ: string, codes: set<string>)
    requires Tidy(m) && typ != "" && forall c :: c in codes ==> Codable(c)
    ensures Tidy(DropCodes(m, typ, codes))
    ensures Keys(DropCodes(m, typ, codes)) == Keys(m) - (set c | c in codes :: FullKey(typ, c))
  {
    var r := DropCodes(m, typ, codes);
    var gone := set c | c in codes :: FullKey(typ, c);
    forall k | k in Keys(m) && k !in gone
      ensures k in Keys(r)
    {
      var t, c :| t in m && c in m[t] && k == FullKey(t, c);
      if t == typ {
        assert c in m[typ] - codes;
      }
      assert t in r && c in r[t];
    }
    forall k | k in Keys(r)
      ensures k in Keys(m) && k !in gone
    {
      var t, c :| t in r && c in r[t] && k == FullKey(t, c);
      if k in gone {
        var d :| d in codes && k == FullKey(typ, d);
        KeysDiffer(t, c, typ, d);
      }
    }
  }

  /** `remove` is difference. */
  lemma {:induction false} RemoveIsDifference(m: Nested, subs: seq<Subscription>)
    requires Tidy(m) && AllWellFormed(subs)
    ensures Tidy(RemoveAll(m, subs)) && Keys(RemoveAll(m, subs)) == Mutate(Keys(m), Remove(SubKeys(subs)))
  {
    if subs != [] {
      var front, last := subs[..|subs| - 1], subs[|subs| - 1];
      RemoveIsDifference(m, front);
      assert WellFormed(last);
      WellFormedCodable(last);
      DropIsDifference(RemoveAll(m, front), last.typ, CodesOf(last.codes));
      assert subs == front + [last];
      assert SubKeys(subs) == SubKeys(front) + SubKeys([last]);
      assert SubKeys([last]) == set c | c in CodesOf(last.codes) :: FullKey(last.typ, c);
    }
  }

  /** `replace` is assignment. */
  lemma ReplaceIsAssignment(m: Nested, subs: seq<Subscription>)
    requires AllWellFormed(subs)
    ensures Tidy(Merge(map[], subs)) && Keys(Merge(map[], subs)) == Mutate(Keys(m), Replace(SubKeys(subs)))
  {
    MergeIsUnion(map[], subs);
    assert Keys(map[]) == {};
  }

  /** A target that does not split is no key of the set. */
  lemma UnsplitNotIn(m: Nested, target: string)
    requires Tidy(m) && SplitTopic(target) == None
    ensures target !in Keys(m)
  {
    if target in Keys(m) {
      var t, c :| t in m && c in m[t] && target == FullKey(t, c);
      SplitInverts(t, c);
    }
  }

  /** `reject` takes out exactly the named key, or nothing when the target is no key of the set. */
  lemma RejectIsDeletion(m: Nested, target: string)
    requires Tidy(m)
    ensures Tidy(RejectTarget(m, target)) && Keys(RejectTarget(m, target)) == Mutate(Keys(m), Reject(target))
  {
    var split := SplitTopic(target);
    if split == None {
      UnsplitNotIn(m, target);
    } else {
      SplitSound(target);
      DropIsDifference(m, split.value.0, {split.value.1});
      assert (set c | c in {split.value.1} :: FullKey(split.value.0, c)) == {FullKey(split.value.0, split.value.1)};
    }
  }

  // ------------------------------------------------------------- in place

  /** An inner `map[string]struct{}`. */
  class CodeSet {
    var codes: set<string>

    constructor ()
      ensures codes == {}
    {
      codes := {};
    }
  }

  /** An outer `map[string]map[string]struct{}`: a reference to references. */
  class TopicMap {
    var types: map<string, CodeSet>
    ghost var model: Nested // the nested map as a value
    ghost var Repr: set<object>

    ghost predicate Valid()
      reads this, Repr
      ensures Valid() ==> this in Repr
    {
      && this in Repr
      && model.Keys == types.Keys
      && (forall t :: t in types ==> types[t] in Repr && types[t].codes == model[t])
      && (forall t, u :: t in types && u in types && t != u ==> types[t] != types[u])
    }

    constructor ()
      ensures Valid() && fresh(Repr) && types == map[] && model == map[]
    {
      types, model, Repr := map[], map[], {this};
    }

    /** `dst[sub.Type]`, created when it is missing. */
    method Codes(typ: string) returns (codes: CodeSet)
      requires Valid()
      modifies this
      ensures Valid() && fresh(Repr - old(Repr))
      ensures typ in types && codes == types[typ]
      ensures model == old(model)[typ := if typ in old(model) then old(model)[typ] else {}]
    {
      if typ !in types {
        var made := new CodeSet();
        types := types[typ := made];
        model := model[typ := {}];
        Repr := Repr + {made};
      }
      codes := types[typ];
    }

    /** A code set of its own for `typ`, with the given codes. */
    method Adopt(typ: string, codes: set<string>)
      requires Valid() && typ !in types
      modifies this
      ensures Valid() && fresh(Repr - old(Repr)) && model == old(model)[typ := codes]
    {
      var c := new CodeSet();
      c.codes := codes;
      types := types[typ := c];
      model := model[typ := codes];
      Repr := Repr + {c};
    }

    /** The inner loops over a subscription's codes. */
    method Insert(typ: string, codes: seq<string>)
      requires Valid() && typ in types
      modifies Repr
      ensures Valid() && Repr == old(Repr) && types == old(types)
      ensures model == old(model)[typ := old(model)[typ] + CodesOf(codes)]
    {
      var inner := types[typ];
      ghost var base := model;
      for i := 0 to |codes|
        invariant Valid() && Repr == old(Repr) && types == old(types)
        invariant model == base[typ := model[typ]] && model[typ] == base[typ] + CodesOf(codes[..i])
      {
        inner.codes := inner.codes + {codes[i]};
        model := model[typ := model[typ] + {codes[i]}];
        assert CodesOf(codes[..i + 1]) == CodesOf(codes[..i]) + {codes[i]};
      }
      assert codes[..|codes|] == codes;
    }

    /** The inner loops that delete a subscription's codes. */
    method Strike(typ: string, codes: seq<string>)
      requires Valid() && typ in types
      modifies Repr
      ensures Valid() && Repr == old(Repr) && types == old(types)
      ensures model == old(model)[typ := old(model)[typ] - CodesOf(codes)]
    {
      var inner := types[typ];
      ghost var base := model;
      for i := 0 to |codes|
        invariant Valid() && Repr == old(Repr) && types == old(types)
        invariant model == base[typ := model[typ]] && model[typ] == base[typ] - CodesOf(codes[..i])
      {
        inner.codes := inner.codes - {codes[i]};
        model := model[typ := model[typ] - {codes[i]}];
        assert CodesOf(codes[..i + 1]) == CodesOf(codes[..i]) + {codes[i]};
      }
      assert codes[..|codes|] == codes;
    }

    /** The type goes with its last code. */
    method Delete(typ: string, codes: seq<string>)
      requires Valid()
      modifies Repr
      ensures Valid() && Repr == old(Repr)
      ensures model == DropCodes(old(model), typ, CodesOf(codes))
    {
      if typ !in types {
        return;
      }
      Strike(typ, codes);
      if types[typ].codes == {} {
        types := types - {typ};
        model := model - {typ};
      }
    }
  }

  /** `mergeInto`: each subscription's codes go into the code set of its type. */
  method MergeInto(dst: TopicMap, subs: seq<Subscription>)
    requires dst.Valid()
    modifies dst.Repr
    ensures dst.Valid() && fresh(dst.Repr - old(dst.Repr))
    ensures dst.model == Merge(old(dst.model), subs)
  {
    for i := 0 to |subs|
      invariant dst.Valid() && fresh(dst.Repr - old(dst.Repr))
      invariant dst.model == Merge(old(dst.model), subs[..i])
    {
      var codes := dst.Codes(subs[i].typ);
      dst.Insert(subs[i].typ, subs[i].codes);
      assert subs[..i + 1][..i] == subs[..i];
    }
    assert subs[..|subs|] == subs;
  }

  // ------------------------------------------------------------- counting

  function Restrict(m: Nested, types: set<string>): Nested {
    map t | t in m && t in types :: m[t]
  }

  lemma {:induction false} ImageSize(typ: string, codes: set<string>)
    requires typ != "" && forall c :: c in codes ==> Codable(c)
    ensures |KeysOf(typ, codes)| == |codes|
    decreases codes
  {
    if codes != {} {
      var x :| x in codes;
      ImageSize(typ, codes - {x});
      var rest := KeysOf(typ, codes - {x});
      if FullKey(typ, x) in rest {
        var d :| d in codes - {x} && FullKey(typ, d) == FullKey(typ, x);
        KeysDiffer(typ, d, typ, x);
      }
      assert KeysOf(typ, codes) == rest + {FullKey(typ, x)};
    }
  }

  /** The full keys of one type's codes. */
  function KeysOf(t: string, codes: set<string>): set<Key> {
    set c | c in codes :: FullKey(t, c)
  }

  lemma KeysOfMore(m: Nested, done: set<string>, t: string)
    requires t in m
    ensures Keys(Restrict(m, done + {t})) == Keys(Restrict(m, done)) + KeysOf(t, m[t])
  {
    var a, b := Restrict(m, done), Restrict(m, done + {t});
    forall k | k in Keys(a) + KeysOf(t, m[t])
      ensures k in Keys(b)
    {
      var u, c :| u in b && c in b[u] && k == FullKey(u, c);
    }
    forall k | k in Keys(b)
      ensures k in Keys(a) + KeysOf(t, m[t])
    {
      var u, c :| u in b && c in b[u] && k == FullKey(u, c);
      assert u == t || (u in a && c in a[u]);
    }
  }

  lemma KeysOfNew(m: Nested, done: set<string>, t: string)
    requires Tidy(m) && t in m && t !in done
    ensures Keys(Restrict(m, done)) !! KeysOf(t, m[t])
  {
    var a := Restrict(m, done);
    forall k | k in KeysOf(t, m[t])
      ensures k !in Keys(a)
    {
      var c :| c in m[t] && k == FullKey(t, c);
      KeyIn(a, t, c);
    }
  }

  lemma DisjointSizes<T>(a: set<T>, b: set<T>)
    requires a !! b
    ensures |a + b| == |a| + |b|
  {
  }

  /** Counting one more type adds the size of its code set. */
  lemma CountOneMore(m: Nested, done: set<string>, t: string)
    requires Tidy(m) && t in m && t !in done
    ensures |Keys(Restrict(m, done + {t}))| == |Keys(Restrict(m, done))| + |m[t]|
  {
    ImageSize(t, m[t]);
    KeysOfMore(m, done, t);
    KeysOfNew(m, done, t);
    DisjointSizes(Keys(Restrict(m, done)), KeysOf(t, m[t]));
  }

  /** `countTopics`: the total over the code sets is the number of full keys. */
  method CountTopics(m: TopicMap) returns (n: nat)
    requires m.Valid() && Tidy(m.model)
    ensures n == |Keys(m.model)|
  {
    n := 0;
    var rest := m.types.Keys;
    while rest != {}
      invariant rest <= m.types.Keys
      invariant n == |Keys(Restrict(m.model, m.types.Keys - rest))|
      decreases rest
    {
      var t :| t in rest;
      CountOneMore(m.model, m.types.Keys - rest, t);
      assert m.types.Keys - (rest - {t}) == (m.types.Keys - rest) + {t};
      n := n + |m.types[t].codes|;
      rest := rest - {t};
    }
    assert Restrict(m.model, m.types.Keys - rest) == m.model;
  }

  lemma RestrictMore(m: Nested, all: set<string>, rest: set<string>, t: string)
    requires t in m && t in rest && rest <= all
    ensures Restrict(m, all - (rest - {t})) == Restrict(m, all - rest)[t := m[t]]
  {
  }

  /** `cloneLocked`: a new map with new code sets; nothing of the live map is shared. */
  method Clone(m: TopicMap) returns (out: TopicMap)
    requires m.Valid()
    ensures fresh(out.Repr) && out.Valid() && out.model == m.model
  {
    out := new TopicMap();
    var rest := m.types.Keys;
    while rest != {}
      invariant rest <= m.types.Keys
      invariant out.Valid() && fresh(out.Repr)
      invariant out.model == Restrict(m.model, m.types.Keys - rest)
      decreases rest
    {
      var t :| t in rest;
      RestrictMore(m.model, m.types.Keys, rest, t);
      out.Adopt(t, m.types[t].codes);
      rest := rest - {t};
    }
  }

  method Merged(live: TopicMap, subs: seq<Subscription>) returns (next: TopicMap)
    requires live.Valid()
    ensures fresh(next.Repr) && next.Valid() && next.model == Merge(live.model, subs)
  {
    next := Clone(live);
    MergeInto(next, subs);
  }

  /** A map made from nothing but `subs`. */
  method Built(subs: seq<Subscription>) returns (next: TopicMap)
    ensures fresh(next.Repr) && next.Valid() && next.model == Merge(map[], subs)
  {
    next := new TopicMap();
    MergeInto(next, subs);
  }

  datatype SetError = BadFormat | TooMany(n: nat)

  method CheckFormat(subs: seq<Subscription>) returns (ok: bool)
    ensures ok <==> AllWellFormed(subs)
  {
    for i := 0 to |subs|
      invariant forall k :: 0 <= k < i ==> WellFormed(subs[k])
    {
      if !WellFormed(subs[i]) {
        return false;
      }
    }
    return true;
  }

  /** Why an update that would lead to `next` is refused, if it is. */
  function Refusal(subs: seq<Subscription>, next: Nested): Option<SetError> {
    if !AllWellFormed(subs) then Some(BadFormat)
    else if |Keys(next)| > MAX_TOPICS then Some(TooMany(|Keys(next)|))
    else None
  }

  class SubscriptionSet {
    var m: TopicMap

    ghost predicate Valid()
      reads this, m, m.Repr
    {
      this !in m.Repr && m.Valid() && Tidy(m.model) && |Keys(m.model)| <= MAX_TOPICS
    }

    constructor ()
      ensures Valid() && m.model == map[] && fresh(m.Repr)
    {
      m := new TopicMap();
      new;
      assert Keys(m.model) == {};
    }

    /** All of `subs`, or nothing at all: the live maps are not even in the frame. */
    method AddAll(subs: seq<Subscription>) returns (err: Option<SetError>)
      requires Valid()
      modifies this
      ensures Valid()
      ensures err == Refusal(subs, Merge(old(m.model), subs))
      ensures m.model == Perform(old(m.model), Adds(subs)) && (err != None ==> m == old(m))
    {
      var ok := CheckFormat(subs);
      if !ok {
        return Some(BadFormat);
      }
      MergeTidy(m.model, subs);
      var next := Merged(m, subs);
      var n := CountTopics(next);
      if n > MAX_TOPICS {
        return Some(TooMany(n));
      }
      m := next;
      return None;
    }

    /** The live code sets are changed in place; an emptied type disappears. */
    method RemoveSubs(subs: seq<Subscription>) returns (err: Option<SetError>)
      requires Valid()
      modifies m.Repr
      ensures Valid()
      ensures err == if AllWellFormed(subs) then None else Some(BadFormat)
      ensures m.model == Perform(old(m.model), Removes(subs))
    {
      var ok := CheckFormat(subs);
      if !ok {
        return Some(BadFormat);
      }
      ghost var was := m.model;
      for i := 0 to |subs|
        invariant this !in m.Repr && m.Valid() && m.Repr == old(m.Repr)
        invariant m.model == RemoveAll(was, subs[..i])
      {
        m.Delete(subs[i].typ, subs[i].codes);
        assert subs[..i + 1][..i] == subs[..i];
      }
      assert subs[..|subs|] == subs;
      RemoveShrinks(was, subs);
      return None;
    }

    method ReplaceAll(subs: seq<Subscription>) returns (err: Option<SetError>)
      requires Valid()
      modifies this
      ensures Valid()
      ensures err == Refusal(subs, Merge(map[], subs))
      ensures m.model == Perform(old(m.model), Replaces(subs)) && (err != None ==> m == old(m))
    {
      var ok := CheckFormat(subs);
      if !ok {
        return Some(BadFormat);
      }
      MergeTidy(map[], subs);
      var next := Built(subs);
      var n := CountTopics(next);
      if n > MAX_TOPICS {
        return Some(TooMany(n));
      }
      m := next;
      return None;
    }

    method RejectOne(target: string)
      requires Valid()
      modifies m.Repr
      ensures Valid() && m.model == Perform(old(m.model), Rejects(target))
    {
      var split := SplitTopic(target);
      if split == None {
        return;
      }
      RejectShrinks(m.model, target);
      m.Delete(split.value.0, [split.value.1]);
      assert CodesOf([split.value.1]) == {split.value.1};
    }
  }

  /** An update is refused exactly when an item is malformed or the set would exceed 100 keys. */
  lemma RefusedExactly(m: Nested, subs: seq<Subscription>)
    requires Tidy(m)
    ensures AllWellFormed(subs) ==>
              Refusal(subs, Merge(m, subs)) ==
              if |Keys(m) + SubKeys(subs)| > 100 then Some(TooMany(|Keys(m) + SubKeys(subs)|)) else None
    ensures !AllWellFormed(subs) ==> Refusal(subs, Merge(m, subs)) == Some(BadFormat)
  {
    if AllWellFormed(subs) {
      MergeIsUnion(m, subs);
    }
  }

  lemma RemoveShrinks(m: Nested, subs: seq<Subscription>)
    requires Tidy(m) && AllWellFormed(subs)
    ensures Tidy(RemoveAll(m, subs)) && |Keys(RemoveAll(m, subs))| <= |Keys(m)|
  {
    RemoveIsDifference(m, subs);
    Smaller(Keys(RemoveAll(m, subs)), Keys(m));
  }

  lemma RejectShrinks(m: Nested, target: string)
    requires Tidy(m)
    ensures Tidy(RejectTarget(m, target)) && |Keys(RejectTarget(m, target))| <= |Keys(m)|
  {
    RejectIsDeletion(m, target);
    Smaller(Keys(RejectTarget(m, target)), Keys(m));
  }

  lemma Smaller<T>(a: set<T>, b: set<T>)
    requires a <= b
    ensures |a| <= |b|
  {
    assert b == a + (b - a);
  }

  // ------------------------------------------------------------- any sequence of operations

  datatype Op =
    | Adds(subs: seq<Subscription>)
    | Removes(subs: seq<Subscription>)
    | Replaces(subs: seq<Subscription>)
    | Rejects(target: string)

  /** What the methods above leave behind. */
  function Perform(m: Nested, op: Op): Nested {
    match op
    case Adds(subs) => if Refusal(subs, Merge(m, subs)) == None then Merge(m, subs) else m
    case Removes(subs) => if AllWellFormed(subs) then RemoveAll(m, subs) else m
    case Replaces(subs) => if Refusal(subs, Merge(map[], subs)) == None then Merge(map[], subs) else m
    case Rejects(target) => RejectTarget(m, target)
  }

  /** The mutation an operation amounts to; a refused one amounts to none. */
  function Effect(m: Nested, op: Op): seq<Mutation> {
    match op
    case Adds(subs) => if Refusal(subs, Merge(m, subs)) == None then [Add(SubKeys(subs))] else []
    case Removes(subs) => if AllWellFormed(subs) then [Remove(SubKeys(subs))] else []
    case Replaces(subs) => if Refusal(subs, Merge(map[], subs)) == None then [Replace(SubKeys(subs))] else []
    case Rejects(target) => [Reject(target)]
  }

  function PerformAll(ops: seq<Op>): Nested {
    if ops == [] then map[] else Perform(PerformAll(ops[..|ops| - 1]), ops[|ops| - 1])
  }

  function Effects(ops: seq<Op>): seq<Mutation> {
    if ops == [] then []
    else Effects(ops[..|ops| - 1]) + Effect(PerformAll(ops[..|ops| - 1]), ops[|ops| - 1])
  }

  lemma {:induction false} MergeChecked(m: Nested, subs: seq<Subscription>)
    requires Checked(m) && AllWellFormed(subs)
    ensures Checked(Merge(m, subs))
  {
    if subs != [] {
      MergeChecked(m, subs[..|subs| - 1]);
      assert WellFormed(subs[|subs| - 1]);
    }
  }

  lemma {:induction false} RemoveChecked(m: Nested, subs: seq<Subscription>)
    requires Checked(m)
    ensures Checked(RemoveAll(m, subs))
  {
    if subs != [] {
      RemoveChecked(m, subs[..|subs| - 1]);
    }
  }

  /** No sequence of operations brings in a code that its type does not accept. */
  lemma {:induction false} AlwaysChecked(ops: seq<Op>)
    ensures Checked(PerformAll(ops))
  {
    if ops != [] {
      AlwaysChecked(ops[..|ops| - 1]);
      var m := PerformAll(ops[..|ops| - 1]);
      match ops[|ops| - 1] {
        case Adds(subs) => if AllWellFormed(subs) { MergeChecked(m, subs); }
        case Removes(subs) => RemoveChecked(m, subs);
        case Replaces(subs) => if AllWellFormed(subs) { MergeChecked(map[], subs); }
        case Rejects(target) =>
      }
    }
  }

  lemma PerformRefines(m: Nested, op: Op, log: seq<Mutation>)
    requires Tidy(m) && |Keys(m)| <= MAX_TOPICS && Keys(m) == Replay(log)
    ensures Tidy(Perform(m, op)) && |Keys(Perform(m, op))| <= MAX_TOPICS
    ensures Keys(Perform(m, op)) == Replay(log + Effect(m, op))
  {
    if Effect(m, op) == [] {
      assert log + [] == log;
    } else {
      ReplayAppend(log, Effect(m, op)[0]);
    }
    match op {
      case Adds(subs) => if AllWellFormed(subs) { MergeIsUnion(m, subs); }
      case Removes(subs) => if AllWellFormed(subs) { RemoveIsDifference(m, subs); RemoveShrinks(m, subs); }
      case Replaces(subs) => if AllWellFormed(subs) { ReplaceIsAssignment(m, subs); }
      case Rejects(target) => RejectIsDeletion(m, target); RejectShrinks(m, target);
    }
  }

  /** The nested map refines the plain set: after any operations it holds what replaying them gives. */
  lemma {:induction false} NestedRefinesSet(ops: seq<Op>)
    ensures Tidy(PerformAll(ops)) && |Keys(PerformAll(ops))| <= MAX_TOPICS
    ensures Keys(PerformAll(ops)) == Replay(Effects(ops))
  {
    if ops == [] {
      assert Keys(map[]) == {};
    } else {
      var front := ops[..|ops| - 1];
      NestedRefinesSet(front);
      PerformRefines(PerformAll(front), ops[|ops| - 1], Effects(front));
    }
  }
}
