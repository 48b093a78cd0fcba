/** The string primitives the router relies on, stated over `seq<char>`:
    whitespace tests, ASCII lower-casing, first/last index of a character,
    and splitting/joining on a one-character separator (the behaviour of
    .NET's `String.Split(char[])` and `String.Join`). */
module Text {

  /** The characters .NET's `char.IsWhiteSpace` accepts. */
  predicate IsWhiteSpace(c: char) {
    || c == ' '
    || ('\t' <= c <= '\r')
    || c == '\U{85}' || c == '\U{A0}' || c == '\U{1680}'
    || ('\U{2000}' <= c <= '\U{200A}')
    || c == '\U{2028}' || c == '\U{2029}' || c == '\U{202F}' || c == '\U{205F}' || c == '\U{3000}'
  }

  /** `String.IsNullOrWhiteSpace` on a non-null string: empty, or whitespace only. */
  predicate IsBlank(s: string) {
    forall i :: 0 <= i < |s| ==> IsWhiteSpace(s[i])
  }

  predicate IsUpper(c: char) {
    'A' <= c <= 'Z'
  }

  /** ASCII lower-casing of one character. */
  function LowerChar(c: char): char {
    if IsUpper(c) then (c as int + 32) as char else c
  }

  /** ASCII lower-casing, the stand-in for `String.ToLower`. */
  function ToLower(s: string): (r: string)
    ensures |r| == |s|
    ensures forall i :: 0 <= i < |s| ==> r[i] == LowerChar(s[i])
  {
    seq(|s|, i requires 0 <= i < |s| => LowerChar(s[i]))
  }

  /** No ASCII upper-case letter occurs in `s`. */
  predicate IsLower(s: string) {
    forall i :: 0 <= i < |s| ==> !IsUpper(s[i])
  }

  lemma ToLowerIsLower(s: string)
    ensures IsLower(ToLower(s))
  {
  }

  lemma LowerIsFixedPoint(s: string)
    requires IsLower(s)
    ensures ToLower(s) == s
  {
  }

  /** Lower-casing neither creates nor removes a character that is not a letter. */
  lemma LowerKeepsNonLetter(s: string, c: char)
    requires !IsUpper(c) && !('a' <= c <= 'z')
    ensures c in ToLower(s) <==> c in s
  {
    if c in s {
      var i :| 0 <= i < |s| && s[i] == c;
      assert ToLower(s)[i] == c;
    }
    if c in ToLower(s) {
      var i :| 0 <= i < |s| && ToLower(s)[i] == c;
      assert s[i] == c;
    }
  }

  lemma LowerKeepsBlank(s: string)
    ensures IsBlank(ToLower(s)) <==> IsBlank(s)
  {
  }

  lemma ToLowerPrefix(s: string, n: nat)
    requires n <= |s|
    ensures ToLower(s[..n]) == ToLower(s)[..n]
  {
  }

  lemma ToLowerAppend(a: string, b: string)
    ensures ToLower(a + b) == ToLower(a) + ToLower(b)
  {
  }

  /** `String.IndexOf(char)`: the first position of `c`, or -1. */
  function IndexOf(s: string, c: char): (i: int)
    ensures -1 <= i < |s|
    ensures i == -1 <==> c !in s
    ensures 0 <= i ==> s[i] == c && c !in s[..i]
  {
    if |s| == 0 then -1
    else if s[0] == c then 0
    else
      var j := IndexOf(s[1..], c);
      assert s[1..][..if j < 0 then 0 else j] == s[1..1 + if j < 0 then 0 else j];
      if j == -1 then -1 else j + 1
  }

  /** The first position is unique: any position of `c` with no `c` before it is the one `IndexOf` finds. */
  lemma {:induction false} IndexOfUnique(s: string, c: char, k: nat)
    requires k < |s| && s[k] == c && c !in s[..k]
    ensures IndexOf(s, c) == k
  {
    if k > 0 {
      assert s[..k][0] == s[0];
      assert s[1..][..k - 1] == s[1..k];
      assert forall x :: x in s[1..k] ==> x in s[..k];
      IndexOfUnique(s[1..], c, k - 1);
    }
  }

  /** `String.LastIndexOf(char)`: the last position of `c`, or -1. */
  function LastIndexOf(s: string, c: char): (i: int)
    ensures -1 <= i < |s|
    ensures i == -1 <==> c !in s
    ensures 0 <= i ==> s[i] == c
    ensures forall k :: i < k < |s| ==> s[k] != c
  {
    if |s| == 0 then -1
    else if s[|s| - 1] == c then |s| - 1
    else LastIndexOf(s[..|s| - 1], c)
  }

  /** `String.Split(separator)`: every maximal run between separators,
      including empty ones; never an empty sequence. */
  function Split(s: string, d: char): (parts: seq<string>)
    ensures |parts| >= 1
    ensures forall i :: 0 <= i < |parts| ==> d !in parts[i]
    decreases |s|
  {
    var i := IndexOf(s, d);
    if i < 0 then [s] else [s[..i]] + Split(s[i + 1..], d)
  }

  /** `String.Join(separator, parts)`. */
  function Join(parts: seq<string>, d: char): string
  {
    if |parts| == 0 then ""
    else if |parts| == 1 then parts[0]
    else parts[0] + [d] + Join(parts[1..], d)
  }

  /** Joining the pieces of a split gives back the original text. */
  lemma {:induction false} JoinSplit(s: string, d: char)
    ensures Join(Split(s, d), d) == s
    decreases |s|
  {
    var i := IndexOf(s, d);
    if i >= 0 {
      var rest := Split(s[i + 1..], d);
      JoinSplit(s[i + 1..], d);
      assert ([s[..i]] + rest)[1..] == rest;
      assert s == s[..i] + [d] + s[i + 1..];
    }
  }

  /** Splitting a join of separator-free pieces gives back the pieces. */
  lemma {:induction false} SplitJoin(parts: seq<string>, d: char)
    requires |parts| >= 1
    requires forall i :: 0 <= i < |parts| ==> d !in parts[i]
    ensures Split(Join(parts, d), d) == parts
  {
    if |parts| > 1 {
      var tail := parts[1..];
      assert Join(parts, d) == parts[0] + [d] + Join(tail, d);
      SplitAfterFirst(parts[0], Join(tail, d), d);
      SplitJoin(tail, d);
      assert parts == [parts[0]] + tail;
    }
  }

  /** The first piece of a split is the text before the first separator. */
  lemma SplitHead(s: string, d: char)
    ensures d !in s ==> Split(s, d) == [s]
    ensures d in s ==>
              && Split(s, d)[0] == s[..IndexOf(s, d)]
              && Split(s, d)[1..] == Split(s[IndexOf(s, d) + 1..], d)
  {
  }

  /** Each separator in the text contributes exactly one extra piece. */
  lemma {:induction false} SplitCount(s: string, d: char)
    ensures |Split(s, d)| == multiset(s)[d] + 1
    decreases |s|
  {
    var i := IndexOf(s, d);
    if i >= 0 {
      var a, b := s[..i], s[i + 1..];
      assert s == a + [d] + b;
      assert |Split(s, d)| == 1 + |Split(b, d)|;
      SplitCount(b, d);
      assert multiset(a)[d] == 0;
      assert multiset(s) == multiset(a) + multiset([d]) + multiset(b);
    }
  }

  /** A separator between two texts splits between their pieces. */
  lemma {:induction false} SplitAround(a: string, b: string, d: char)
    ensures Split(a + [d] + b, d) == Split(a, d) + Split(b, d)
    decreases |a|
  {
    var i := IndexOf(a, d);
    if i < 0 {
      SplitAfterFirst(a, b, d);
    } else {
      var x, rest := a[..i], a[i + 1..];
      var t := rest + [d] + b;
      assert a == x + [d] + rest;
      assert a + [d] + b == x + [d] + t;
      SplitAfterFirst(x, t, d);
      SplitAfterFirst(x, rest, d);
      SplitAround(rest, b, d);
      AppendAssociates([x], Split(rest, d), Split(b, d));
    }
  }

  lemma AppendAssociates<T>(p: seq<T>, q: seq<T>, r: seq<T>)
    ensures p + (q + r) == (p + q) + r
  {
  }

  /** A text without the separator, the separator, and anything: the text is
      the first piece. */
  lemma SplitAfterFirst(a: string, b: string, d: char)
    requires d !in a
    ensures Split(a + [d] + b, d) == [a] + Split(b, d)
  {
    var s := a + [d] + b;
    assert s[..|a|] == a;
    IndexOfUnique(s, d, |a|);
    assert s[|a| + 1..] == b;
  }

  /** A sequence without repetitions has as many elements as its set. */
  lemma {:induction false} DistinctSize<T>(keys: seq<T>)
    requires forall i, j :: 0 <= i < j < |keys| ==> keys[i] != keys[j]
    ensures |set i | 0 <= i < |keys| :: keys[i]| == |keys|
    decreases |keys|
  {
    if |keys| > 0 {
      var n := |keys| - 1;
      var init := keys[..n];
      DistinctSize(init);
      var s := set i | 0 <= i < |keys| :: keys[i];
      var s0 := set i | 0 <= i < |init| :: init[i];
      assert s == s0 + {keys[n]} by {
        forall x | x in s ensures x in s0 + {keys[n]} {
          var i :| 0 <= i < |keys| && keys[i] == x;
          if i < n { assert init[i] == x; }
        }
        forall x | x in s0 ensures x in s {
          var i :| 0 <= i < |init| && init[i] == x;
          assert keys[i] == x;
        }
      }
      assert keys[n] !in s0 by {
        forall i | 0 <= i < |init| ensures init[i] != keys[n] {
          assert init[i] == keys[i];
        }
      }
    }
  }
}
