/** String helpers of Go's `strings` package, on ASCII text. */
module Text {

  predicate IsUpper(c: char) {
    'A' <= c <= 'Z'
  }

  /** `unicode.ToLower` restricted to ASCII letters. */
  function LowerChar(c: char): (l: char)
    ensures !IsUpper(l)
    ensures !IsUpper(c) ==> l == c
  {
    if IsUpper(c) then (c as int + 32) as char else c
  }

  predicate IsLowerLetter(c: char) {
    'a' <= c <= 'z'
  }

  /** `unicode.ToUpper` restricted to ASCII letters. */
  function UpperChar(c: char): (u: char)
    ensures !IsLowerLetter(u)
    ensures !IsLowerLetter(c) ==> u == c
  {
    if IsLowerLetter(c) then (c as int - 32) as char else c
  }

  /** `strings.ToLower` (ASCII): every upper-case letter lowered, nothing else touched. */
  function Lower(s: string): (r: string)
    ensures |r| == |s|
    ensures forall i :: 0 <= i < |s| ==> r[i] == LowerChar(s[i])
  {
    if s == [] then [] else [LowerChar(s[0])] + Lower(s[1..])
  }

  lemma LowerAppend(a: string, b: string)
    ensures Lower(a + b) == Lower(a) + Lower(b)
  {
    forall p | 0 <= p < |a + b| ensures Lower(a + b)[p] == (Lower(a) + Lower(b))[p] {
      if p < |a| {
        assert (a + b)[p] == a[p];
      } else {
        assert (a + b)[p] == b[p - |a|];
      }
    }
  }

  lemma LowerSlice(s: string, i: nat, j: nat)
    requires i <= j <= |s|
    ensures Lower(s[i..j]) == Lower(s)[i..j]
  {
    var l, t := Lower(s), s[i..j];
    forall p | 0 <= p < j - i ensures Lower(t)[p] == l[i..j][p] {
      assert Lower(t)[p] == LowerChar(t[p]) && t[p] == s[i + p];
      assert l[i..j][p] == l[i + p] == LowerChar(s[i + p]);
    }
  }

  lemma LowerIdempotent(s: string)
    ensures Lower(Lower(s)) == Lower(s)
  {
    forall p | 0 <= p < |s| ensures Lower(Lower(s))[p] == Lower(s)[p] {
      assert !IsUpper(Lower(s)[p]);
    }
  }

  /** `strings.Index(s, string(c))`: the first position of `c`, or -1. */
  function Index(s: string, c: char): (i: int)
    ensures -1 <= i < |s|
    ensures 0 <= i ==> s[i] == c
  {
    if s == [] then -1
    else if s[0] == c then 0
    else
      var j := Index(s[1..], c);
      if j < 0 then -1 else j + 1
  }

  /** No `c` comes before the position `Index` reports (anywhere, when it reports -1). */
  lemma {:induction false} IndexFirst(s: string, c: char, k: int)
    requires 0 <= k < |s| && (Index(s, c) < 0 || k < Index(s, c))
    ensures s[k] != c
  {
    if s[0] != c && k > 0 {
      IndexFirst(s[1..], c, k - 1);
    }
  }

  /** The first `c` is the one `Index` reports. */
  lemma {:induction false} IndexIs(s: string, c: char, p: int)
    requires 0 <= p < |s| && s[p] == c
    requires forall k :: 0 <= k < p ==> s[k] != c
    ensures Index(s, c) == p
  {
    if p > 0 {
      IndexIs(s[1..], c, p - 1);
    }
  }

  /** `Index` reports -1 exactly when `c` does not occur. */
  lemma {:induction false} IndexAbsent(s: string, c: char)
    requires forall k :: 0 <= k < |s| ==> s[k] != c
    ensures Index(s, c) == -1
  {
    if s != [] {
      IndexAbsent(s[1..], c);
    }
  }

  /** Two strings that hold `c` at exactly the same positions have the same `Index` of `c`. */
  lemma {:induction false} IndexSamePositions(a: string, b: string, c: char)
    requires |a| == |b|
    requires forall p :: 0 <= p < |a| ==> (a[p] == c <==> b[p] == c)
    ensures Index(a, c) == Index(b, c)
  {
    if a != [] && a[0] != c {
      IndexSamePositions(a[1..], b[1..], c);
    }
  }

  predicate PairAt(s: string, i: int, x: char, y: char) {
    0 <= i && i + 1 < |s| && s[i] == x && s[i + 1] == y
  }

  /** `strings.Index(s, [x, y])`: the first position of the two-character string, or -1. */
  function IndexPair(s: string, x: char, y: char): (i: int)
    ensures -1 <= i < |s|
    ensures 0 <= i ==> PairAt(s, i, x, y)
  {
    if |s| < 2 then -1
    else if s[0] == x && s[1] == y then 0
    else
      var j := IndexPair(s[1..], x, y);
      if j < 0 then -1 else j + 1
  }

  /** No occurrence of the pair comes before the one `IndexPair` reports. */
  lemma {:induction false} IndexPairFirst(s: string, x: char, y: char, k: int)
    requires 0 <= k && (IndexPair(s, x, y) < 0 || k < IndexPair(s, x, y))
    ensures !PairAt(s, k, x, y)
  {
    if |s| >= 2 && !(s[0] == x && s[1] == y) && k >= 1 {
      IndexPairFirst(s[1..], x, y, k - 1);
    }
  }

  /** The first occurrence is the one `IndexPair` reports. */
  lemma {:induction false} IndexPairIs(s: string, x: char, y: char, p: int)
    requires PairAt(s, p, x, y)
    requires forall k :: 0 <= k < p ==> !PairAt(s, k, x, y)
    ensures IndexPair(s, x, y) == p
  {
    if p > 0 {
      assert !PairAt(s, 0, x, y);
      forall k | 0 <= k < p - 1 ensures !PairAt(s[1..], k, x, y) {
        assert !PairAt(s, k + 1, x, y);
      }
      IndexPairIs(s[1..], x, y, p - 1);
    }
  }
}
