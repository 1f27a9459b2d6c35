/** Facts about integer products and floor quotients that the money proofs share. */
module FloorMath {

  function Min(a: int, b: int): int {
    if a <= b then a else b
  }

  /** The sum of a sequence of amounts. */
  function Sum(s: seq<int>): int {
    if s == [] then 0 else s[0] + Sum(s[1..])
  }

  lemma MulMono(a: int, b: int, c: int)
    requires a <= b && 0 <= c
    ensures a * c <= b * c
  {
  }

  lemma MulCancel(a: int, b: int, c: int)
    requires a * c <= b * c && 0 < c
    ensures a <= b
  {
    if b < a {
      MulMono(b + 1, a, c);
    }
  }

  lemma MulCancelStrict(a: int, b: int, c: int)
    requires a * c < b * c && 0 <= c
    ensures a < b
  {
    if b <= a {
      MulMono(b, a, c);
    }
  }

  lemma MulPos(a: int, b: int)
    requires 0 < a && 0 < b
    ensures 0 < a * b
  {
  }

  /** A floor quotient is the largest multiple that fits. */
  lemma FloorDiv(a: int, d: int)
    requires 0 < d
    ensures (a / d) * d <= a < (a / d) * d + d
  {
  }

  lemma FloorAtLeast(q: int, a: int, d: int)
    requires 0 < d && q * d <= a
    ensures q <= a / d
  {
    FloorDiv(a, d);
    MulCancelStrict(q, a / d + 1, d);
  }

  lemma FloorBelow(q: int, a: int, d: int)
    requires 0 < d && a < q * d
    ensures a / d < q
  {
    FloorDiv(a, d);
    MulCancelStrict(a / d, q, d);
  }

  lemma FloorMono(a: int, b: int, d: int)
    requires 0 < d && a <= b
    ensures a / d <= b / d
  {
    FloorDiv(a, d);
    FloorAtLeast(a / d, b, d);
  }

  lemma ExactQuotient(q: int, d: int, a: int)
    requires 0 < d && a == q * d
    ensures a / d == q
  {
    FloorAtLeast(q, a, d);
    assert (q + 1) * d == q * d + d;
    FloorBelow(q + 1, a, d);
  }

  lemma {:induction false} SumConcat(a: seq<int>, b: seq<int>)
    ensures Sum(a + b) == Sum(a) + Sum(b)
  {
    if a == [] {
      assert a + b == b;
    } else {
      assert (a + b)[1..] == a[1..] + b;
      SumConcat(a[1..], b);
    }
  }

  lemma {:induction false} SumSnoc(a: seq<int>, x: int)
    ensures Sum(a + [x]) == Sum(a) + x
  {
    SumConcat(a, [x]);
    assert Sum([x]) == x + Sum([]);
  }

  lemma {:induction false} SumNonNegative(a: seq<int>)
    requires forall i :: 0 <= i < |a| ==> 0 <= a[i]
    ensures 0 <= Sum(a)
    ensures forall i :: 0 <= i < |a| ==> a[i] <= Sum(a)
  {
    if a != [] {
      SumNonNegative(a[1..]);
      forall i | 0 <= i < |a|
        ensures a[i] <= Sum(a)
      {
        if i > 0 {
          assert a[i] == a[1..][i - 1];
        }
      }
    }
  }

  lemma SumWithout(b: seq<int>, j: nat)
    requires j < |b|
    ensures Sum(b) == b[j] + Sum(b[..j] + b[j + 1..])
  {
    var front, rest := b[..j], b[j..];
    assert b == front + rest;
    SumConcat(front, rest);
    assert rest[1..] == b[j + 1..];
    SumConcat(front, rest[1..]);
  }

  lemma WithoutOne(b: seq<int>, j: nat)
    requires j < |b|
    ensures multiset(b[..j] + b[j + 1..]) == multiset(b) - multiset{b[j]}
  {
    assert b == b[..j] + ([b[j]] + b[j + 1..]);
    assert multiset(b) == multiset(b[..j]) + (multiset{b[j]} + multiset(b[j + 1..]));
  }

  lemma RestIsPermutation(a: seq<int>, b: seq<int>, j: nat)
    requires a != [] && j < |b| && multiset(a) == multiset(b) && b[j] == a[0]
    ensures multiset(a[1..]) == multiset(b[..j] + b[j + 1..])
  {
    WithoutOne(a, 0);
    WithoutOne(b, j);
    assert a[..0] + a[1..] == a[1..];
  }

  /** Reordering amounts leaves their sum alone. */
  lemma {:induction false} SumOfPermutation(a: seq<int>, b: seq<int>)
    requires multiset(a) == multiset(b)
    ensures Sum(a) == Sum(b)
    decreases |a|
  {
    if a == [] {
      assert |multiset(b)| == 0;
    } else {
      assert a[0] in multiset(b);
      var j :| 0 <= j < |b| && b[j] == a[0];
      var rest := b[..j] + b[j + 1..];
      SumWithout(b, j);
      RestIsPermutation(a, b, j);
      SumOfPermutation(a[1..], rest);
    }
  }

  /** The amounts at the given positions. */
  function Pick(s: seq<int>, order: seq<nat>): (r: seq<int>)
    requires forall k :: 0 <= k < |order| ==> order[k] < |s|
    ensures |r| == |order|
  {
    seq(|order|, k requires 0 <= k < |order| => s[order[k]])
  }

  /** Distinct positions of non-negative amounts pick at most the whole sum. */
  lemma {:induction false} PickSum(s: seq<int>, order: seq<nat>)
    requires forall i :: 0 <= i < |s| ==> 0 <= s[i]
    requires forall k :: 0 <= k < |order| ==> order[k] < |s|
    requires forall j, k :: 0 <= j < k < |order| ==> order[j] != order[k]
    ensures Sum(Pick(s, order)) <= Sum(s)
    decreases |order|
  {
    if order == [] {
      SumNonNegative(s);
    } else {
      var i := order[0];
      var rest := s[i := 0];
      SumWithout(s, i);
      SumWithout(rest, i);
      assert rest[..i] + rest[i + 1..] == s[..i] + s[i + 1..];
      PickSum(rest, order[1..]);
      assert Pick(s, order)[1..] == Pick(rest, order[1..]);
    }
  }
}
