/** Dividing an amount at random but nearly evenly. */
module FundingSplit {
  import opened FloorMath

  const WEIGHT_MIN := 850
  const WEIGHT_MAX := 1150

  predicate Weights(ws: seq<int>) {
    ws != [] && forall i :: 0 <= i < |ws| ==> WEIGHT_MIN <= ws[i] <= WEIGHT_MAX
  }

  /** The parts exhaust the total, and each but the last is its weight's share rounded down. */
  predicate IsSplit(total: int, ws: seq<int>, out: seq<int>) {
    && |out| == |ws| > 0 && Sum(out) == total
    && forall i :: 0 <= i < |ws| - 1 ==> RoundedShare(total, ws, out, i)
  }

  predicate RoundedShare(total: int, ws: seq<int>, out: seq<int>, i: nat)
    requires i < |ws| && i < |out|
  {
    out[i] * Sum(ws) <= total * ws[i] < out[i] * Sum(ws) + Sum(ws)
  }

  lemma {:induction false} SumOfWeights(ws: seq<int>)
    requires forall i :: 0 <= i < |ws| ==> WEIGHT_MIN <= ws[i] <= WEIGHT_MAX
    ensures WEIGHT_MIN * |ws| <= Sum(ws) <= WEIGHT_MAX * |ws|
  {
    if ws != [] {
      SumOfWeights(ws[1..]);
    }
  }

  lemma SumUpTo(s: seq<int>, k: nat)
    requires k < |s|
    ensures Sum(s[..k + 1]) == Sum(s[..k]) + s[k]
  {
    assert s[..k + 1] == s[..k] + [s[k]];
    SumSnoc(s[..k], s[k]);
  }

  lemma AddShares(total: int, sum: int, a: int, w: int, part: int, weight: int, k: nat)
    requires a * sum <= total * w <= a * sum + k * sum
    requires k > 0 ==> total * w < a * sum + k * sum
    requires part * sum <= total * weight < part * sum + sum
    ensures (a + part) * sum <= total * (w + weight) < (a + part) * sum + (k + 1) * sum
  {
    assert (a + part) * sum == a * sum + part * sum;
    assert total * (w + weight) == total * w + total * weight;
    assert (k + 1) * sum == k * sum + sum;
  }

  /** The first k parts together are their weights' share, less under k units. */
  lemma {:induction false} FirstShares(total: int, ws: seq<int>, out: seq<int>, k: nat)
    requires Weights(ws) && |out| >= k && k <= |ws| && forall i :: 0 <= i < k ==> RoundedShare(total, ws, out, i)
    ensures Sum(out[..k]) * Sum(ws) <= total * Sum(ws[..k]) <= Sum(out[..k]) * Sum(ws) + k * Sum(ws)
    ensures k > 0 ==> total * Sum(ws[..k]) < Sum(out[..k]) * Sum(ws) + k * Sum(ws)
  {
    if k == 0 {
      assert out[..0] == [] && ws[..0] == [];
    } else {
      FirstShares(total, ws, out, k - 1);
      SumUpTo(ws, k - 1);
      SumUpTo(out, k - 1);
      assert RoundedShare(total, ws, out, k - 1);
      AddShares(total, Sum(ws), Sum(out[..k - 1]), Sum(ws[..k - 1]), out[k - 1], ws[k - 1], k - 1);
    }
  }

  /** The last part is its weight's share plus less than max(1, n - 1) units of dust. */
  lemma LastTakesDust(total: int, ws: seq<int>, out: seq<int>)
    requires Weights(ws) && IsSplit(total, ws, out)
    ensures var n := |ws|;
            total * ws[n - 1] <= out[n - 1] * Sum(ws) < total * ws[n - 1] + (if n == 1 then 1 else n - 1) * Sum(ws)
  {
    var n := |ws|;
    FirstShares(total, ws, out, n - 1);
    SumUpTo(ws, n - 1);
    SumUpTo(out, n - 1);
    assert ws[..n] == ws && out[..n] == out;
    SumOfWeights(ws);
    LastShare(total, Sum(ws), Sum(out[..n - 1]), Sum(ws[..n - 1]), out[n - 1], ws[n - 1], n - 1);
  }

  lemma LastShare(total: int, sum: int, a: int, w: int, last: int, weight: int, k: nat)
    requires a + last == total && w + weight == sum && 0 < sum
    requires a * sum <= total * w <= a * sum + k * sum
    requires k > 0 ==> total * w < a * sum + k * sum
    ensures total * weight <= last * sum
    ensures last * sum < total * weight + (if k == 0 then 1 else k) * sum
  {
    assert last * sum == total * sum - a * sum;
    assert total * weight == total * sum - total * w;
  }

  /** Every part is non-negative. */
  lemma PartsNonNegative(total: nat, ws: seq<int>, out: seq<int>, i: nat)
    requires Weights(ws) && IsSplit(total, ws, out) && i < |ws|
    ensures 0 <= out[i]
  {
    SumOfWeights(ws);
    if i == |ws| - 1 {
      LastTakesDust(total, ws, out);
    } else {
      assert RoundedShare(total, ws, out, i);
    }
    MulMono(0, total, ws[i]);
    assert 0 <= total * ws[i] < out[i] * Sum(ws) + Sum(ws);
    assert (out[i] + 1) * Sum(ws) == out[i] * Sum(ws) + Sum(ws);
    MulCancelStrict(0, out[i] + 1, Sum(ws));
  }

  lemma SharesSnoc(total: int, ws: seq<int>, parts: seq<int>, part: int)
    requires |parts| < |ws| && forall j :: 0 <= j < |parts| ==> RoundedShare(total, ws, parts, j)
    requires part * Sum(ws) <= total * ws[|parts|] < part * Sum(ws) + Sum(ws)
    ensures forall j :: 0 <= j < |parts| + 1 ==> RoundedShare(total, ws, parts + [part], j)
  {
    forall j | 0 <= j < |parts| + 1
      ensures RoundedShare(total, ws, parts + [part], j)
    {
      assert j < |parts| ==> RoundedShare(total, ws, parts, j);
    }
  }

  method RandomNearEvenSplit(total: nat, draws: seq<nat>) returns (ghost weights: seq<int>, out: seq<nat>)
    requires draws != [] && forall i :: 0 <= i < |draws| ==> draws[i] <= WEIGHT_MAX - WEIGHT_MIN
    ensures |weights| == |draws| && forall i :: 0 <= i < |draws| ==> weights[i] == WEIGHT_MIN + draws[i]
    ensures |out| == |draws| && IsSplit(total, weights, out)
  {
    var n := |draws|;
    var ws: seq<int>, sum := [], 0;
    for i := 0 to n
      invariant |ws| == i && forall j :: 0 <= j < i ==> ws[j] == WEIGHT_MIN + draws[j]
      invariant sum == Sum(ws)
    {
      SumSnoc(ws, WEIGHT_MIN + draws[i]);
      ws := ws + [WEIGHT_MIN + draws[i]];
      sum := sum + ws[i];
    }
    weights := ws;
    SumOfWeights(ws);
    var parts: seq<int>, rest: int := [], total;
    for i := 0 to n - 1
      invariant |parts| == i && rest == total - Sum(parts)
      invariant forall j :: 0 <= j < i ==> RoundedShare(total, ws, parts, j)
    {
      var part := total * ws[i] / sum;
      FloorDiv(total * ws[i], sum);
      SumSnoc(parts, part);
      SharesSnoc(total, ws, parts, part);
      parts := parts + [part];
      rest := rest - part;
    }
    SumSnoc(parts, rest);
    assert forall j :: 0 <= j < n - 1 && RoundedShare(total, ws, parts, j) ==>
        RoundedShare(total, ws, parts + [rest], j);
    parts := parts + [rest];
    forall i | 0 <= i < n
      ensures 0 <= parts[i]
    {
      PartsNonNegative(total, ws, parts, i);
    }
    out := parts;
  }

  /** No part but the last exceeds total * 1150 / (850 n). */
  lemma PartAtMost(total: nat, ws: seq<int>, out: seq<int>, i: nat)
    requires Weights(ws) && IsSplit(total, ws, out) && i < |ws| - 1
    ensures out[i] * (WEIGHT_MIN * |ws|) <= total * WEIGHT_MAX
  {
    SumOfWeights(ws);
    PartsNonNegative(total, ws, out, i);
    assert RoundedShare(total, ws, out, i);
    assert out[i] * (WEIGHT_MIN * |ws|) <= out[i] * Sum(ws) by {
      MulMono(WEIGHT_MIN * |ws|, Sum(ws), out[i]);
    }
    assert total * ws[i] <= total * WEIGHT_MAX by {
      MulMono(ws[i], WEIGHT_MAX, total);
    }
  }

  // ---------------------------------------------------------------------
  // How even "near-even" is
  // ---------------------------------------------------------------------

  /** Within one unit of the band 15% either side of the mean. */
  predicate NearMean(total: int, n: nat, part: int) {
    85 * total < 100 * n * (part + 1) && 100 * n * (part - 1) < 115 * total
  }

  /** Whether every split into n parts keeps every part near the mean. */
  ghost predicate AlwaysNearMean(n: nat) {
    forall total: nat, ws: seq<int>, out: seq<int>, i: nat ::
      |ws| == n && Weights(ws) && IsSplit(total, ws, out) && i < n ==> NearMean(total, n, out[i])
  }

  lemma {:induction false} SumScaled(ws: seq<int>, c: int)
    ensures Sum(seq(|ws|, i requires 0 <= i < |ws| => c * ws[i])) == c * Sum(ws)
  {
    var scaled := seq(|ws|, i requires 0 <= i < |ws| => c * ws[i]);
    if ws != [] {
      SumScaled(ws[1..], c);
      assert scaled[1..] == seq(|ws[1..]|, i requires 0 <= i < |ws[1..]| => c * ws[1..][i]);
      assert c * Sum(ws) == c * ws[0] + c * Sum(ws[1..]);
    }
  }

  lemma {:induction false} SumOfEqual(n: nat, c: int)
    ensures Sum(seq(n, _ => c)) == n * c
  {
    if n > 0 {
      SumOfEqual(n - 1, c);
      assert seq(n, _ => c)[1..] == seq(n - 1, _ => c);
      assert n * c == (n - 1) * c + c;
    }
  }

  /** One heavy weight among light ones takes more than 115% of the mean. */
  lemma HeavyPartStandsOut(n: nat) returns (total: nat, ws: seq<int>, out: seq<int>)
    requires 3 <= n
    ensures |ws| == n && Weights(ws) && IsSplit(total, ws, out) && !NearMean(total, n, out[0])
  {
    ws := [WEIGHT_MAX] + seq(n - 1, _ => WEIGHT_MIN);
    SumOfEqual(n - 1, WEIGHT_MIN);
    assert ws[1..] == seq(n - 1, _ => WEIGHT_MIN);
    var sum := Sum(ws);
    total := 100 * sum;
    out := seq(|ws|, i requires 0 <= i < |ws| => 100 * ws[i]);
    SumScaled(ws, 100);
    forall i | 0 <= i < n - 1
      ensures RoundedShare(total, ws, out, i)
    {
      assert 100 * ws[i] * sum == total * ws[i];
    }
  }

  lemma ShareAboveBand(total: nat, scale: nat, sum: nat, weight: int, part: int)
    requires 0 < sum && 0 < scale && 85 * sum <= scale * weight && total * weight < (part + 1) * sum
    ensures 85 * total < scale * (part + 1)
  {
    MulMono(85 * sum, scale * weight, total);
    MulMono(total * weight + 1, (part + 1) * sum, scale);
    assert (85 * total) * sum == (85 * sum) * total;
    assert (scale * weight) * total == (total * weight) * scale;
    assert (total * weight + 1) * scale == (total * weight) * scale + scale;
    assert ((part + 1) * sum) * scale == (scale * (part + 1)) * sum;
    MulCancelStrict(85 * total, scale * (part + 1), sum);
  }

  lemma ShareBelowBand(total: nat, scale: nat, sum: nat, weight: int, part: int)
    requires 0 < sum && 0 < scale && scale * weight <= 115 * sum && (part - 1) * sum < total * weight
    ensures scale * (part - 1) < 115 * total
  {
    MulMono(scale * weight, 115 * sum, total);
    MulMono((part - 1) * sum + 1, total * weight, scale);
    assert (115 * total) * sum == (115 * sum) * total;
    assert (scale * weight) * total == (total * weight) * scale;
    assert ((part - 1) * sum + 1) * scale == ((part - 1) * sum) * scale + scale;
    assert ((part - 1) * sum) * scale == (scale * (part - 1)) * sum;
    MulCancelStrict(scale * (part - 1), 115 * total, sum);
  }

  lemma ShareNearMean(total: nat, n: nat, sum: int, weight: int, part: int)
    requires 0 < sum && 0 < n && 85 * sum <= 100 * n * weight <= 115 * sum
    requires total * weight < part * sum + sum && part * sum < total * weight + sum
    ensures NearMean(total, n, part)
  {
    assert (part + 1) * sum == part * sum + sum && (part - 1) * sum == part * sum - sum;
    ShareAboveBand(total, 100 * n, sum, weight, part);
    ShareBelowBand(total, 100 * n, sum, weight, part);
  }

  lemma TwoPartsNearMean(total: nat, ws: seq<int>, out: seq<int>, i: nat)
    requires |ws| <= 2 && Weights(ws) && IsSplit(total, ws, out) && i < |ws|
    ensures NearMean(total, |ws|, out[i])
  {
    var n := |ws|;
    SumOfWeights(ws);
    assert Sum(ws) == if n == 1 then ws[0] else ws[0] + ws[1] by {
      assert Sum(ws[1..]) == if n == 1 then 0 else ws[1] + Sum(ws[2..]);
      assert n == 2 ==> ws[1..][1..] == [] && ws[2..] == [];
    }
    if i == n - 1 {
      LastTakesDust(total, ws, out);
    } else {
      assert RoundedShare(total, ws, out, i);
    }
    ShareNearMean(total, n, Sum(ws), ws[i], out[i]);
  }

  /** The parts of every split stay within 15% of the mean, up to one unit, exactly when
      there are at most two of them. */
  lemma NearMeanIffTwoParts(n: nat)
    requires 0 < n
    ensures AlwaysNearMean(n) <==> n <= 2
  {
    if n <= 2 {
      forall total: nat, ws: seq<int>, out: seq<int>, i: nat
        | |ws| == n && Weights(ws) && IsSplit(total, ws, out) && i < n
        ensures NearMean(total, n, out[i])
      {
        TwoPartsNearMean(total, ws, out, i);
      }
    } else {
      var total, ws, out := HeavyPartStandsOut(n);
      assert !NearMean(total, n, out[0]);
    }
  }
}
