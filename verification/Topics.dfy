/**
 Full keys and their codec (stream/subscription.go `splitTopic`, stream/stream.go
 `subKeys`), and the format check of a subscription.
 */
module Topics {
  import opened Wrappers
  import opened Int64
  import opened Mutations

  datatype Subscription = Subscription(typ: string, codes: seq<string>)

  const MAX_TOPICS := 100

  function FullKey(typ: string, code: string): Key {
    typ + ":" + code
  }

  /** The position of the last colon, or -1. */
  function LastColon(s: string): (i: int)
    ensures -1 <= i < |s|
    ensures i >= 0 ==> s[i] == ':'
    ensures forall k :: i < k < |s| ==> s[k] != ':'
  {
    if s == [] then -1
    else if s[|s| - 1] == ':' then |s| - 1
    else LastColon(s[..|s| - 1])
  }

  /** A type may contain colons itself, so the cut is at the last one. */
  function SplitTopic(topic: string): Option<(string, string)> {
    var i := LastColon(topic);
    if i <= 0 || i == |topic| - 1 then None else Some((topic[..i], topic[i + 1..]))
  }

  /** What a split returns is the pair whose full key was split. */
  lemma SplitSound(topic: string)
    requires SplitTopic(topic).Some?
    ensures var (typ, code) := SplitTopic(topic).value;
            topic == FullKey(typ, code) && typ != "" && code != "" && ':' !in code
  {
  }

  /** Splitting inverts the key of a pair exactly when both parts are non-empty and the code has no colon. */
  lemma SplitInverts(typ: string, code: string)
    ensures SplitTopic(FullKey(typ, code)) == Some((typ, code))
            <==> typ != "" && code != "" && ':' !in code
  {
    var topic := FullKey(typ, code);
    var i := LastColon(topic);
    assert topic[|typ|] == ':';
    if typ != "" && code != "" && ':' !in code {
      assert i == |typ| by {
        assert forall k :: |typ| < k < |topic| ==> topic[k] == code[k - |typ| - 1];
      }
      assert topic[..i] == typ && topic[i + 1..] == code;
    } else if SplitTopic(topic) == Some((typ, code)) {
      SplitSound(topic);
    }
  }

  /** A code that a key can carry. */
  predicate Codable(code: string) {
    code != "" && ':' !in code
  }

  lemma KeysDiffer(t: string, c: string, u: string, d: string)
    requires t != "" && u != "" && Codable(c) && Codable(d)
    ensures FullKey(t, c) == FullKey(u, d) ==> t == u && c == d
  {
    SplitInverts(t, c);
    SplitInverts(u, d);
  }

  // ------------------------------------------------------------- format check

  predicate SymbolChar(c: char) {
    'A' <= c <= 'Z' || 'a' <= c <= 'z' || '0' <= c <= '9' || c == '.' || c == '-'
  }

  predicate Symbol(s: string) {
    s != "" && forall c :: c in s ==> SymbolChar(c)
  }

  /** The characters of a symbol, one by one. */
  lemma SymbolCharsAre(c: char)
    ensures SymbolChar(c)
            <==> c in "ABCDEFGHIJKLMNOPQRSTUVWXYZ" || c in "abcdefghijklmnopqrstuvwxyz" || c in "0123456789.-"
  {
  }

  predicate Digits(s: string) {
    s != "" && forall i :: 0 <= i < |s| ==> '0' <= s[i] <= '9'
  }

  function Value(s: string): nat
    requires forall i :: 0 <= i < |s| ==> '0' <= s[i] <= '9'
  {
    if s == "" then 0 else 10 * Value(s[..|s| - 1]) + (s[|s| - 1] as nat - '0' as nat)
  }

  /** `strconv.ParseInt(s, 10, 64)`. */
  function ParseInt64(s: string): Option<int> {
    var signed := s != "" && (s[0] == '+' || s[0] == '-');
    var digits := if signed then s[1..] else s;
    if !Digits(digits) then None
    else
      var v: int := Value(digits);
      if signed && s[0] == '-' then (if v <= MAX_INT64 + 1 then Some(-v) else None)
      else if v <= MAX_INT64 then Some(v)
      else None
  }

  predicate PositiveInt64(s: string) {
    var parsed := ParseInt64(s);
    parsed.Some? && parsed.value > 0
  }

  predicate MarketType(typ: string) {
    typ == "trade:kr" || typ == "trade:us" || typ == "orderbook:kr" || typ == "orderbook:us"
  }

  /** A code its type accepts; no other type accepts any. */
  predicate Accepts(typ: string, code: string) {
    (MarketType(typ) && Symbol(code)) || (typ == "personal:order" && PositiveInt64(code))
  }

  predicate WellFormed(sub: Subscription) {
    sub.codes != [] && forall c :: c in sub.codes ==> Accepts(sub.typ, c)
  }

  /** Whatever passes the check has a full key that splits back. */
  lemma AcceptedCodable(typ: string, code: string)
    requires Accepts(typ, code)
    ensures typ != "" && Codable(code)
  {
    if typ == "personal:order" && code[0] == '+' {
      assert code == [code[0]] + code[1..];
    }
  }

  lemma WellFormedCodable(sub: Subscription)
    requires WellFormed(sub)
    ensures sub.typ != "" && forall c :: c in sub.codes ==> Codable(c)
  {
    assert Accepts(sub.typ, sub.codes[0]);
    forall c | c in sub.codes {
      AcceptedCodable(sub.typ, c);
    }
  }

  predicate AllWellFormed(subs: seq<Subscription>) {
    forall s :: s in subs ==> WellFormed(s)
  }

  /** The full keys a list of subscriptions stands for. */
  function SubKeys(subs: seq<Subscription>): set<Key> {
    set s, c | s in subs && c in s.codes :: FullKey(s.typ, c)
  }
}
