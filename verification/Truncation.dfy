/**
 internal/strutil/strutil.go: collapse white space, then cut a text to at most n
 bytes without splitting a UTF-8 character (section 3 of RFC 3629).
 */
module Truncation {
  type Byte = b: int | 0 <= b < 256 witness 0

  type Bytes = seq<Byte>

  // ------------------------------------------------------------------ UTF-8

  predicate Tail(b: Byte) {
    0x80 <= b <= 0xBF
  }

  /** `utf8.RuneStart`: the top two bits are not 10. */
  predicate RuneStart(b: Byte) {
    b / 0x40 != 2
  }

  /** The second octet a three- or four-octet character may have after this first one. */
  predicate Second(first: Byte, b: Byte) {
    && Tail(b)
    && (first == 0xE0 ==> 0xA0 <= b) && (first == 0xED ==> b <= 0x9F)
    && (first == 0xF0 ==> 0x90 <= b) && (first == 0xF4 ==> b <= 0x8F)
  }

  /** The length of the UTF-8 character a text starts with; 0 if it starts with none. */
  function CharLen(s: Bytes): (k: nat)
    ensures k <= |s|
    ensures k > 0 ==> RuneStart(s[0]) && forall i :: 0 < i < k ==> Tail(s[i])
  {
    if s == [] then 0
    else if s[0] <= 0x7F then 1
    else if 0xC2 <= s[0] <= 0xDF && |s| >= 2 && Tail(s[1]) then 2
    else if 0xE0 <= s[0] <= 0xEF && |s| >= 3 && Second(s[0], s[1]) && Tail(s[2]) then 3
    else if 0xF0 <= s[0] <= 0xF4 && |s| >= 4 && Second(s[0], s[1]) && Tail(s[2]) && Tail(s[3]) then 4
    else 0
  }

  predicate Valid(s: Bytes)
    decreases |s|
  {
    s == [] || (CharLen(s) > 0 && Valid(s[CharLen(s)..]))
  }

  /** A character is recognised in every text that continues it. */
  lemma CharLenStable(s: Bytes, t: Bytes)
    requires CharLen(s) > 0 && s <= t
    ensures CharLen(t) == CharLen(s)
  {
  }

  lemma CharLenCut(s: Bytes, j: nat)
    requires CharLen(s) <= j <= |s|
    ensures CharLen(s) > 0 ==> CharLen(s[..j]) == CharLen(s)
  {
  }

  lemma {:induction false} ValidJoin(a: Bytes, b: Bytes)
    requires Valid(a) && Valid(b)
    ensures Valid(a + b)
    decreases |a|
  {
    if a == [] {
      assert a + b == b;
    } else {
      var k := CharLen(a);
      CharLenStable(a, a + b);
      assert (a + b)[k..] == a[k..] + b;
      ValidJoin(a[k..], b);
    }
  }

  /** A valid text can be cut before any octet that starts a character. */
  lemma {:induction false} ValidCut(s: Bytes, j: nat)
    requires Valid(s) && j <= |s| && (j == |s| || j == 0 || RuneStart(s[j]))
    ensures Valid(s[..j]) && Valid(s[j..])
    decreases |s|
  {
    if j == 0 {
      assert s[..0] == [] && s[0..] == s;
    } else {
      var k := CharLen(s);
      assert forall i :: 0 < i < k ==> Tail(s[i]);
      assert j >= k;
      ValidCut(s[k..], j - k);
      CharLenCut(s, j);
      assert s[..j][k..] == s[k..][..j - k];
      assert s[k..][j - k..] == s[j..];
    }
  }

  /** Where a valid text can be cut, a character starts. */
  lemma {:induction false} CutStarts(s: Bytes, j: nat)
    requires Valid(s) && j < |s| && Valid(s[..j])
    ensures RuneStart(s[j])
    decreases |s|
  {
    if j > 0 {
      var k := CharLen(s[..j]);
      CharLenStable(s[..j], s);
      assert s[..j][k..] == s[k..][..j - k];
      CutStarts(s[k..], j - k);
    }
  }

  // ------------------------------------------------------------ white space

  /** The length of the white space character (`unicode.IsSpace`) a text starts with; 0 if it starts with none. */
  function SpaceLen(s: Bytes): (k: nat)
    ensures k <= |s|
  {
    if s == [] then 0
    else if 0x09 <= s[0] <= 0x0D || s[0] == 0x20 then 1
    else if s[0] == 0xC2 then (if |s| >= 2 && (s[1] == 0x85 || s[1] == 0xA0) then 2 else 0)
    else if |s| < 3 then 0
    else if s[0] == 0xE1 then (if s[1] == 0x9A && s[2] == 0x80 then 3 else 0)
    else if s[0] == 0xE2 then
      if s[1] == 0x80 && (0x80 <= s[2] <= 0x8A || s[2] == 0xA8 || s[2] == 0xA9 || s[2] == 0xAF) then 3
      else if s[1] == 0x81 && s[2] == 0x9F then 3
      else 0
    else if s[0] == 0xE3 && s[1] == 0x80 && s[2] == 0x80 then 3
    else 0
  }

  /** The code point of the character a text starts with. */
  function Rune(s: Bytes): nat
    requires CharLen(s) > 0
  {
    var k, a := CharLen(s), s[0] as int;
    if k == 1 then a
    else if k == 2 then (a - 0xC0) * 0x40 + Low(s[1])
    else if k == 3 then (a - 0xE0) * 0x1000 + Low(s[1]) * 0x40 + Low(s[2])
    else (a - 0xF0) * 0x40000 + Low(s[1]) * 0x1000 + Low(s[2]) * 0x40 + Low(s[3])
  }

  /** The six bits a tail octet adds. */
  function Low(b: Byte): nat
    requires Tail(b)
  {
    b - 0x80
  }

  /** The code points with the Unicode property White_Space. */
  predicate IsSpace(r: nat) {
    || 0x09 <= r <= 0x0D || r == 0x20 || r == 0x85 || r == 0xA0 || r == 0x1680
    || 0x2000 <= r <= 0x200A || r == 0x2028 || r == 0x2029 || r == 0x202F || r == 0x205F || r == 0x3000
  }

  /** The octet patterns are those of exactly these code points. */
  lemma SpaceIsUnicode(s: Bytes)
    ensures SpaceLen(s) == if CharLen(s) > 0 && IsSpace(Rune(s)) then CharLen(s) else 0
  {
  }

  /** How far the text goes before its first white space. */
  function WordLen(s: Bytes): (k: nat)
    ensures k <= |s|
    ensures k < |s| ==> SpaceLen(s[k..]) > 0
  {
    if s == [] || SpaceLen(s) > 0 then 0
    else
      var k := WordLen(s[1..]);
      assert s[1..][k..] == s[k + 1..];
      k + 1
  }

  /** `strings.Fields`. */
  function Fields(s: Bytes): seq<Bytes>
    decreases |s|
  {
    if s == [] then []
    else if SpaceLen(s) > 0 then Fields(s[SpaceLen(s)..])
    else [s[..WordLen(s)]] + Fields(s[WordLen(s)..])
  }

  /** `strings.Join` with one blank. */
  function Join(words: seq<Bytes>): Bytes {
    if words == [] then []
    else if |words| == 1 then words[0]
    else words[0] + [0x20] + Join(words[1..])
  }

  function Collapse(s: Bytes): Bytes {
    Join(Fields(s))
  }

  /** Non-empty and without white space. */
  predicate Word(w: Bytes) {
    w != [] && WordLen(w) == |w|
  }

  /** What follows decides nothing unless it continues a character. */
  lemma SpaceLenLocal(x: Bytes, rest: Bytes)
    requires x != [] && (rest == [] || RuneStart(rest[0]))
    ensures SpaceLen(x + rest) == SpaceLen(x)
  {
    if rest == [] {
      assert x + rest == x;
    }
  }

  lemma SpaceStarts(s: Bytes)
    requires SpaceLen(s) > 0
    ensures RuneStart(s[0]) && CharLen(s) == SpaceLen(s)
  {
  }

  lemma {:induction false} WordLenLocal(x: Bytes, rest: Bytes)
    requires rest == [] || SpaceLen(rest) > 0
    ensures WordLen(x + rest) == WordLen(x)
    decreases |x|
  {
    if rest != [] {
      SpaceStarts(rest);
    }
    if x == [] {
      assert x + rest == rest;
    } else {
      SpaceLenLocal(x, rest);
      assert (x + rest)[1..] == x[1..] + rest;
      WordLenLocal(x[1..], rest);
    }
  }

  lemma {:induction false} FieldsAreWords(s: Bytes)
    ensures forall w :: w in Fields(s) ==> Word(w)
    decreases |s|
  {
    if s != [] {
      if SpaceLen(s) > 0 {
        FieldsAreWords(s[SpaceLen(s)..]);
      } else {
        var k := WordLen(s);
        FieldsAreWords(s[k..]);
        assert s == s[..k] + s[k..];
        WordLenLocal(s[..k], s[k..]);
      }
    }
  }

  lemma {:induction false} FieldsOfJoin(words: seq<Bytes>)
    requires forall w :: w in words ==> Word(w)
    ensures Fields(Join(words)) == words
    decreases |words|
  {
    if words != [] {
      var w, rest := words[0], words[1..];
      assert Word(w);
      FieldsOfJoin(rest);
      if rest == [] {
        assert Join(words) == w && w[..|w|] == w && w[|w|..] == [];
        FirstField(w, []);
      } else {
        var more := [0x20] + Join(rest);
        assert Join(words) == w + more;
        FirstField(w, more);
        assert more[1..] == Join(rest);
        assert Fields(more) == Fields(Join(rest));
      }
    }
  }

  lemma FirstField(w: Bytes, rest: Bytes)
    requires Word(w) && (rest == [] || SpaceLen(rest) > 0)
    ensures Fields(w + rest) == [w] + Fields(rest)
  {
    WordLenLocal(w, rest);
    if rest != [] {
      SpaceStarts(rest);
    }
    SpaceLenLocal(w, rest);
    assert (w + rest)[..|w|] == w && (w + rest)[|w|..] == rest;
  }

  /** Collapsing keeps the words and their order, so doing it twice changes nothing. */
  lemma CollapseKeepsWords(s: Bytes)
    ensures Fields(Collapse(s)) == Fields(s) && Collapse(Collapse(s)) == Collapse(s)
  {
    FieldsAreWords(s);
    FieldsOfJoin(Fields(s));
  }

  lemma {:induction false} WordHasNoSpace(w: Bytes, i: nat)
    requires WordLen(w) == |w| && i < |w|
    ensures SpaceLen(w[i..]) == 0
    decreases i
  {
    if i == 0 {
      assert w[0..] == w;
    } else {
      WordHasNoSpace(w[1..], i - 1);
      assert w[1..][i - 1..] == w[i..];
    }
  }

  lemma NotInWord(w: Bytes, tail: Bytes, i: nat)
    requires Word(w) && (tail == [] || tail[0] == 0x20) && i < |w|
    ensures SpaceLen((w + tail)[i..]) == 0
  {
    WordHasNoSpace(w, i);
    SpaceLenLocal(w[i..], tail);
    assert (w + tail)[i..] == w[i..] + tail;
  }

  /** The only white space of joined words is a blank between two of them. */
  lemma {:induction false} JoinedByBlanks(words: seq<Bytes>, i: nat)
    requires (forall w :: w in words ==> Word(w)) && i < |Join(words)|
    ensures SpaceLen(Join(words)[i..]) > 0 ==> Join(words)[i] == 0x20 && 0 < i < |Join(words)| - 1
    decreases |words|
  {
    var w, rest := words[0], words[1..];
    assert Word(w);
    var tail := if rest == [] then [] else [0x20] + Join(rest);
    assert Join(words) == w + tail;
    if i < |w| {
      NotInWord(w, tail, i);
    } else if i > |w| {
      JoinedByBlanks(rest, i - |w| - 1);
      assert Join(words)[i..] == Join(rest)[i - |w| - 1..];
    } else {
      assert rest != [] && Join(rest) != [] by {
        JoinNonEmpty(rest);
      }
    }
  }

  lemma JoinNonEmpty(words: seq<Bytes>)
    requires words != [] && forall w :: w in words ==> Word(w)
    ensures Join(words) != []
  {
    assert Word(words[0]);
  }

  /** All white space left in a collapsed text is single blanks, none of them at an end. */
  lemma CollapsedBlanks(s: Bytes, i: nat)
    requires i < |Collapse(s)| && SpaceLen(Collapse(s)[i..]) > 0
    ensures Collapse(s)[i] == 0x20 && 0 < i < |Collapse(s)| - 1
    ensures SpaceLen(Collapse(s)[i + 1..]) == 0
  {
    FieldsAreWords(s);
    JoinedByBlanks(Fields(s), i);
    BlanksApart(Fields(s), i);
  }

  lemma {:induction false} BlanksApart(words: seq<Bytes>, i: nat)
    requires (forall w :: w in words ==> Word(w)) && i + 1 < |Join(words)| && SpaceLen(Join(words)[i..]) > 0
    ensures SpaceLen(Join(words)[i + 1..]) == 0
    decreases |words|
  {
    var w, rest := words[0], words[1..];
    assert Word(w);
    var tail := if rest == [] then [] else [0x20] + Join(rest);
    assert Join(words) == w + tail;
    if i < |w| {
      NotInWord(w, tail, i);
    } else if i > |w| {
      assert Join(words)[i..] == Join(rest)[i - |w| - 1..];
      assert Join(words)[i + 1..] == Join(rest)[i - |w|..];
      BlanksApart(rest, i - |w| - 1);
    } else {
      assert Join(words)[i + 1..] == Join(rest);
      StartsWithWord(rest);
    }
  }

  lemma StartsWithWord(words: seq<Bytes>)
    requires words != [] && forall w :: w in words ==> Word(w)
    ensures Join(words) != [] && SpaceLen(Join(words)) == 0
  {
    var w, rest := words[0], words[1..];
    assert Word(w);
    var tail := if rest == [] then [] else [0x20] + Join(rest);
    assert Join(words) == w + tail;
    SpaceLenLocal(w, tail);
  }

  lemma {:induction false} FieldsValid(s: Bytes)
    requires Valid(s)
    ensures forall w :: w in Fields(s) ==> Valid(w)
    decreases |s|
  {
    if s != [] {
      if SpaceLen(s) > 0 {
        SpaceStarts(s);
        FieldsValid(s[SpaceLen(s)..]);
      } else {
        var k := WordLen(s);
        if k < |s| {
          SpaceStarts(s[k..]);
        }
        ValidCut(s, k);
        FieldsValid(s[k..]);
      }
    }
  }

  lemma {:induction false} JoinValid(words: seq<Bytes>)
    requires forall w :: w in words ==> Valid(w)
    ensures Valid(Join(words))
    decreases |words|
  {
    if |words| == 1 {
      assert Valid(words[0]);
    } else if |words| > 1 {
      JoinValid(words[1..]);
      assert Valid(words[0]);
      assert [0x20][1..] == [];
      ValidJoin(words[0], [0x20]);
      ValidJoin(words[0] + [0x20], Join(words[1..]));
    }
  }

  // ---------------------------------------------------------------- the cut

  /** Back to where a character starts. */
  function Cut(s: Bytes, n: nat): (k: nat)
    requires n < |s|
    ensures k <= n && (k == 0 || RuneStart(s[k]))
  {
    if n > 0 && !RuneStart(s[n]) then Cut(s, n - 1) else n
  }

  function Truncated(s: Bytes, n: nat): Bytes {
    var t := Collapse(s);
    if |t| <= n then t else t[..Cut(t, n)]
  }

  /** Nothing that starts a character lies between the cut and n. */
  lemma {:induction false} CutBelow(s: Bytes, n: nat)
    requires n < |s|
    ensures forall j :: Cut(s, n) < j <= n ==> !RuneStart(s[j])
    decreases n
  {
    if n > 0 && !RuneStart(s[n]) {
      CutBelow(s, n - 1);
    }
  }

  method Truncate(s: Bytes, n: nat) returns (r: Bytes)
    ensures r == Truncated(s, n)
  {
    var t := Join(Fields(s));
    if |t| <= n {
      return t;
    }
    var k: nat := n;
    while k > 0 && !RuneStart(t[k])
      invariant k <= n && Cut(t, n) == Cut(t, k)
    {
      k := k - 1;
    }
    r := t[..k];
  }

  /** `r` is the longest valid text of at most n bytes that `t` starts with. */
  ghost predicate LongestValidPrefix(r: Bytes, t: Bytes, n: nat) {
    && r <= t && |r| <= n && Valid(r)
    && forall j :: |r| < j <= n && j <= |t| ==> !Valid(t[..j])
  }

  /** On valid UTF-8 the result is the longest valid prefix of the collapsed text that fits. */
  lemma TruncatesToLongest(s: Bytes, n: nat)
    requires Valid(s)
    ensures LongestValidPrefix(Truncated(s, n), Collapse(s), n)
  {
    var t := Collapse(s);
    FieldsValid(s);
    JoinValid(Fields(s));
    if |t| > n {
      CutBelow(t, n);
      ValidCut(t, Cut(t, n));
      forall j | Cut(t, n) < j <= n
        ensures !Valid(t[..j])
      {
        if Valid(t[..j]) {
          CutStarts(t, j);
        }
      }
    }
  }

  /** On any bytes at all the result is a prefix of the collapsed text that fits, and the whole text if that fits. */
  lemma TruncatesToPrefix(s: Bytes, n: nat)
    ensures Truncated(s, n) <= Collapse(s) && |Truncated(s, n)| <= n
    ensures |Collapse(s)| <= n ==> Truncated(s, n) == Collapse(s)
    ensures forall j :: |Truncated(s, n)| < j <= n && j < |Collapse(s)| ==> !RuneStart(Collapse(s)[j])
  {
    var t := Collapse(s);
    if |t| > n {
      CutBelow(t, n);
    }
  }
}
