/**
 Declaration ids as text. The other modules compare values of `Id`; here those
 values are shown to stand for the strings that travel (stream/stream.go).
 */
module Ids {
  import opened Wrappers
  import opened Topics
  import opened Declaring

  /** `strconv.FormatInt(n, 10)` for n >= 0. */
  function Decimal(n: nat): (s: string)
    ensures Digits(s) && Value(s) == n
  {
    var last := [(n % 10 + '0' as nat) as char];
    if n < 10 then last
    else
      var s := Decimal(n / 10) + last;
      assert s[..|s| - 1] == Decimal(n / 10);
      s
  }

  function Render(id: Id): string {
    match id
    case NoId => ""
    case Declared(n) => "d-" + Decimal(n)
    case Foreign(text) => text
  }

  /** `Foreign` is for the texts that neither of the other two renders to. */
  ghost predicate Canonical(id: Id) {
    id.Foreign? ==> id.text != "" && forall n: nat :: id.text != Render(Declared(n))
  }

  /** Two ids are the same exactly when their texts are. */
  lemma SameIdSameText(a: Id, b: Id)
    requires Canonical(a) && Canonical(b)
    ensures a == b <==> Render(a) == Render(b)
  {
    if a.Declared? && b.Declared? && Render(a) == Render(b) {
      assert Render(a)[2..] == Decimal(a.n) && Render(b)[2..] == Decimal(b.n);
    } else if a.Declared? {
      assert |Render(a)| > 0;
    } else if b.Declared? {
      assert |Render(b)| > 0;
    }
  }

  /** Every text is the text of some id. */
  lemma EveryTextIsAnId(text: string) returns (id: Id)
    ensures Canonical(id) && Render(id) == text
  {
    if text == "" {
      id := NoId;
    } else if n: nat :| text == Render(Declared(n)) {
      id := Declared(n);
    } else {
      id := Foreign(text);
    }
  }

  lemma DigitsParse(s: string)
    requires Digits(s)
    ensures ParseInt64(s) == if Value(s) <= 0x7fff_ffff_ffff_ffff then Some(Value(s)) else None
  {
    assert '0' <= s[0] <= '9';
  }

  lemma NegativeParses(s: string)
    requires Digits(s)
    ensures var v: int := Value(s);
            ParseInt64(['-'] + s) == if v <= 0x8000_0000_0000_0000 then Some(-v) else None
  {
    assert (['-'] + s)[1..] == s;
  }

  /** What `FormatInt` writes, `ParseInt` reads back, within int64. */
  lemma DecimalParses(n: nat)
    ensures n <= 0x7fff_ffff_ffff_ffff <==> ParseInt64(Decimal(n)) == Some(n)
    ensures n > 0x7fff_ffff_ffff_ffff <==> ParseInt64(Decimal(n)) == None
  {
    DigitsParse(Decimal(n));
  }

  lemma AccountTopic(code: string)
    ensures Accepts("personal:order", code) <==> PositiveInt64(code)
  {
    assert |"personal:order"| == 14;
    assert !MarketType("personal:order");
  }

  /** So an account subscription is well formed exactly for a positive account number. */
  lemma AccountAccepted(n: nat)
    ensures Accepts("personal:order", Decimal(n)) <==> 0 < n <= 0x7fff_ffff_ffff_ffff
    ensures !Accepts("personal:order", ['-'] + Decimal(n))
  {
    AccountTopic(Decimal(n));
    AccountTopic(['-'] + Decimal(n));
    DigitsParse(Decimal(n));
    NegativeParses(Decimal(n));
  }
}
