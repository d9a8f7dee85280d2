/**
 * `IntentHandler.calculateSimilarity`: Levenshtein distance (insertions,
 * deletions and substitutions of one character, each costing 1) computed
 * with a dynamic-programming table, normalised by the longer length.
 */
module Levenshtein {

  function Max(x: nat, y: nat): nat {
    if x >= y then x else y
  }

  function Min(x: nat, y: nat): nat {
    if x <= y then x else y
  }

  function Min3(x: nat, y: nat, z: nat): nat {
    if x <= y && x <= z then x else if y <= z then y else z
  }

  /**
   * The edit distance between the prefixes `a[..i]` and `b[..j]`, by the
   * recurrence the table is filled with: an empty prefix costs the other's
   * length; equal last characters cost nothing; otherwise one edit plus the
   * cheapest of substitute, insert and delete.
   */
  function Distance(a: string, b: string, i: nat, j: nat): nat
    requires i <= |a| && j <= |b|
    decreases i + j
  {
    if i == 0 then j
    else if j == 0 then i
    else if a[i - 1] == b[j - 1] then Distance(a, b, i - 1, j - 1)
    else 1 + Min3(Distance(a, b, i - 1, j - 1), Distance(a, b, i, j - 1), Distance(a, b, i - 1, j))
  }

  /** The Levenshtein distance between `a` and `b`. */
  function EditDistance(a: string, b: string): nat {
    Distance(a, b, |a|, |b|)
  }

  /** The recurrence treats both strings alike, so the distance is symmetric. */
  lemma {:induction false} DistanceSymmetric(a: string, b: string, i: nat, j: nat)
    requires i <= |a| && j <= |b|
    decreases i + j
    ensures Distance(a, b, i, j) == Distance(b, a, j, i)
  {
    if i != 0 && j != 0 {
      DistanceSymmetric(a, b, i - 1, j - 1);
      if a[i - 1] != b[j - 1] {
        DistanceSymmetric(a, b, i, j - 1);
        DistanceSymmetric(a, b, i - 1, j);
        var x, y, z := Distance(a, b, i - 1, j - 1), Distance(a, b, i, j - 1), Distance(a, b, i - 1, j);
        assert Distance(a, b, i, j) == 1 + Min3(x, y, z);
        assert Distance(b, a, j, i) == 1 + Min3(x, z, y);
        Min3Swap(x, y, z);
      }
    }
  }

  /** `Min3` does not care about the order of its last two arguments. */
  lemma Min3Swap(x: nat, y: nat, z: nat)
    ensures Min3(x, y, z) == Min3(x, z, y)
  {
  }

  /** Substituting position by position and then inserting or deleting the rest never costs more than the longer length. */
  lemma {:induction false} DistanceAtMostLonger(a: string, b: string, i: nat, j: nat)
    requires i <= |a| && j <= |b|
    decreases i + j
    ensures Distance(a, b, i, j) <= Max(i, j)
  {
    if i != 0 && j != 0 {
      DistanceAtMostLonger(a, b, i - 1, j - 1);
    }
  }

  /** Every edit changes the length by at most one, so the distance is at least the difference of the lengths. */
  lemma {:induction false} DistanceAtLeastLengthGap(a: string, b: string, i: nat, j: nat)
    requires i <= |a| && j <= |b|
    decreases i + j
    ensures Distance(a, b, i, j) >= i - j && Distance(a, b, i, j) >= j - i
  {
    if i != 0 && j != 0 {
      DistanceAtLeastLengthGap(a, b, i - 1, j - 1);
      if a[i - 1] != b[j - 1] {
        DistanceAtLeastLengthGap(a, b, i, j - 1);
        DistanceAtLeastLengthGap(a, b, i - 1, j);
        var x, y, z := Distance(a, b, i - 1, j - 1), Distance(a, b, i, j - 1), Distance(a, b, i - 1, j);
        assert Distance(a, b, i, j) == 1 + Min3(x, y, z);
        Min3Bounds(x, y, z);
      }
    }
  }

  /** `Min3` is one of its arguments, so it is at least anything all three are at least. */
  lemma Min3Bounds(x: nat, y: nat, z: nat)
    ensures Min3(x, y, z) == x || Min3(x, y, z) == y || Min3(x, y, z) == z
  {
  }

  /** The distance is zero exactly when the two prefixes are equal. */
  lemma {:induction false} DistanceZeroIff(a: string, b: string, i: nat, j: nat)
    requires i <= |a| && j <= |b|
    decreases i + j
    ensures Distance(a, b, i, j) == 0 <==> a[..i] == b[..j]
  {
    if i != 0 && j != 0 {
      DistanceZeroIff(a, b, i - 1, j - 1);
      assert a[..i] == a[..i - 1] + [a[i - 1]];
      assert b[..j] == b[..j - 1] + [b[j - 1]];
      if a[..i] == b[..j] {
        assert a[i - 1] == a[..i][i - 1] == b[..j][j - 1] == b[j - 1];
        assert a[..i - 1] == a[..i][..i - 1] == b[..j][..j - 1] == b[..j - 1];
      }
    } else if i == 0 {
      assert j == 0 <==> b[..j] == [];
    } else {
      assert a[..i] != [] ;
    }
  }

  /**
   * `calculateSimilarity(a, b)`: one minus the edit distance over the longer
   * length. The code divides by zero when both strings are empty; every call
   * passes a nonempty alias or related term as `b`.
   */
  function Similarity(a: string, b: string): (r: real)
    requires |a| > 0 || |b| > 0
    ensures 0.0 <= r <= 1.0
    ensures r == 1.0 <==> a == b
  {
    var d := EditDistance(a, b);
    var m := Max(|a|, |b|);
    DistanceAtMostLonger(a, b, |a|, |b|);
    DistanceZeroIff(a, b, |a|, |b|);
    assert a[..|a|] == a && b[..|b|] == b;
    RatioBounds(d, m);
    1.0 - (d as real) / (m as real)
  }

  /** A count out of a positive total is a fraction in [0, 1] that is 0 only for a zero count. */
  lemma RatioBounds(d: nat, m: nat)
    requires d <= m && 0 < m
    ensures 0.0 <= (d as real) / (m as real) <= 1.0
    ensures (d as real) / (m as real) == 0.0 <==> d == 0
  {
    var q := (d as real) / (m as real);
    assert q * (m as real) == d as real;
  }

  /** Similarity does not depend on the order of its arguments. */
  lemma SimilaritySymmetric(a: string, b: string)
    requires |a| > 0 || |b| > 0
    ensures Similarity(a, b) == Similarity(b, a)
  {
    DistanceSymmetric(a, b, |a|, |b|);
    assert Max(|a|, |b|) == Max(|b|, |a|);
  }

  /**
   * Strings of different lengths are never more similar than the share of
   * the longer one the shorter covers: the similarity is at most one minus
   * the length difference over the longer length.
   */
  lemma SimilarityAtMostLengthGap(a: string, b: string)
    requires |a| > 0 || |b| > 0
    ensures Similarity(a, b) <= 1.0 - ((Max(|a|, |b|) - Min(|a|, |b|)) as real) / (Max(|a|, |b|) as real)
  {
    DistanceAtLeastLengthGap(a, b, |a|, |b|);
    SimilarityAtMost(a, b, Max(|a|, |b|) - Min(|a|, |b|));
  }

  /** A lower bound `d` on the distance bounds the similarity from above. */
  lemma SimilarityAtMost(a: string, b: string, d: nat)
    requires |a| > 0 || |b| > 0
    requires EditDistance(a, b) >= d
    ensures Similarity(a, b) <= 1.0 - (d as real) / (Max(|a|, |b|) as real)
  {
    DivMonotone(d as real, EditDistance(a, b) as real, Max(|a|, |b|) as real);
  }

  /** Dividing by a positive number keeps the order. */
  lemma DivMonotone(x: real, y: real, m: real)
    requires x <= y && 0.0 < m
    ensures x / m <= y / m
  {
    var inv := 1.0 / m;
    assert inv * m == 1.0;
    assert inv > 0.0;
    assert x / m == x * inv && y / m == y * inv;
    assert (y - x) * inv >= 0.0;
  }

  /**
   * The table the code fills: `dp[i, j]` is the distance between the
   * prefixes of length `i` and `j`; row and column 0 hold `i` and `j`.
   */
  method CalculateSimilarity(str1: string, str2: string) returns (r: real)
    requires |str1| > 0 || |str2| > 0
    ensures r == Similarity(str1, str2)
  {
    var m := |str1|;
    var n := |str2|;
    var dp := new nat[m + 1, n + 1];

    for i := 0 to m + 1
      invariant forall k :: 0 <= k < i ==> dp[k, 0] == k
    {
      dp[i, 0] := i;
    }
    for j := 0 to n + 1
      invariant forall k :: 0 <= k <= m ==> dp[k, 0] == k
      invariant forall l :: 0 <= l < j ==> dp[0, l] == l
    {
      dp[0, j] := j;
    }

    for i := 1 to m + 1
      invariant forall k, l {:trigger dp[k, l]} :: 0 <= k < i && 0 <= l <= n ==> dp[k, l] == Distance(str1, str2, k, l)
      invariant forall k :: i <= k <= m ==> dp[k, 0] == k
    {
      FillRow(dp, str1, str2, i - 1, i);
    }

    var maxLength := Max(m, n);
    r := 1.0 - (dp[m, n] as real) / (maxLength as real);
  }

  /** One pass of the inner loop: row `i` of the table, from row `p = i - 1` and `dp[i, 0]`. */
  method FillRow(dp: array2<nat>, str1: string, str2: string, p: nat, i: nat)
    requires dp.Length0 == |str1| + 1 && dp.Length1 == |str2| + 1
    requires i == p + 1 <= |str1|
    requires forall l {:trigger dp[p, l]} :: 0 <= l <= |str2| ==> dp[p, l] == Distance(str1, str2, p, l)
    requires dp[i, 0] == i
    modifies dp
    ensures forall l {:trigger dp[i, l]} :: 0 <= l <= |str2| ==> dp[i, l] == Distance(str1, str2, i, l)
    ensures forall k, l :: 0 <= k < dp.Length0 && 0 <= l < dp.Length1 && k != i ==> dp[k, l] == old(dp[k, l])
  {
    for j := 1 to |str2| + 1
      invariant forall l {:trigger dp[i, l]} :: 0 <= l < j ==> dp[i, l] == Distance(str1, str2, i, l)
      invariant forall l {:trigger dp[p, l]} :: 0 <= l <= |str2| ==> dp[p, l] == Distance(str1, str2, p, l)
      invariant forall k, l :: 0 <= k < dp.Length0 && 0 <= l < dp.Length1 && k != i ==> dp[k, l] == old(dp[k, l])
    {
      if str1[i - 1] == str2[j - 1] {
        dp[i, j] := dp[p, j - 1];
      } else {
        dp[i, j] := Min3(dp[p, j - 1] + 1, dp[i, j - 1] + 1, dp[p, j] + 1);
      }
    }
  }
}
