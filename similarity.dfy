/** The similarity scorer (pkg/similarity/levenshtein.go): the byte-wise
    Levenshtein distance computed by filling a (len1+1) x (len2+1) table,
    normalised to a score in [0, 1].

    The score is a real (exact) rather than a float64. */
module Similarity {
  import opened Wrappers
  import opened GoStrings

  function Min3(x: nat, y: nat, z: nat): (m: nat)
    ensures m <= x && m <= y && m <= z
    ensures m == x || m == y || m == z
  {
    if y < x && y <= z then y else if z < x && z < y then z else x
  }

  function Max(x: nat, y: nat): (m: nat)
    ensures m >= x && m >= y && (m == x || m == y)
  {
    if y > x then y else x
  }

  /** The recurrence the table follows: `Distance(a, b)` is the entry for the
      prefixes `a` and `b`. An empty prefix costs the other's length; equal
      last bytes cost nothing; otherwise one edit plus the cheapest of
      deleting, inserting or substituting the last byte. */
  function Distance(a: seq<byte>, b: seq<byte>): (d: nat)
    ensures d <= Max(|a|, |b|)
    decreases |a| + |b|
  {
    if |a| == 0 then |b|
    else if |b| == 0 then |a|
    else
      var a', b' := a[..|a| - 1], b[..|b| - 1];
      if a[|a| - 1] == b[|b| - 1] then Distance(a', b')
      else 1 + Min3(Distance(a', b), Distance(a, b'), Distance(a', b'))
  }

  /** The normalised score: one minus the distance over the longer length,
      and 1 for two empty strings, which are identical. */
  function Score(s1: seq<byte>, s2: seq<byte>): (score: real) {
    if |s1| == 0 && |s2| == 0 then 1.0
    else 1.0 - (Distance(s1, s2) as real) / (Max(|s1|, |s2|) as real)
  }

  /** The score as the Go code computes it, `None` standing for the float64
      NaN that `0 / 0` gives when both strings are empty. */
  function ScoreAsWritten(s1: seq<byte>, s2: seq<byte>): (score: Option<real>) {
    if |s1| == 0 && |s2| == 0 then None else Some(Score(s1, s2))
  }

  /** Two empty strings make the Go code divide zero by zero; the score
      meant for them is 1. Every other pair gets the same score either way. */
  lemma EmptyStringsScoreNaN(s1: seq<byte>, s2: seq<byte>)
    ensures ScoreAsWritten([], []).None? && Score([], []) == 1.0
    ensures |s1| > 0 || |s2| > 0 ==> ScoreAsWritten(s1, s2) == Some(Score(s1, s2))
  {
  }

  /** One interior cell of the table, in terms of three earlier cells. */
  lemma DistanceStep(s1: seq<byte>, s2: seq<byte>, i: nat, j: nat)
    requires 1 <= i <= |s1| && 1 <= j <= |s2|
    ensures Distance(s1[..i], s2[..j]) ==
      if s1[i - 1] == s2[j - 1] then Distance(s1[..i - 1], s2[..j - 1])
      else 1 + Min3(Distance(s1[..i - 1], s2[..j]), Distance(s1[..i], s2[..j - 1]),
                    Distance(s1[..i - 1], s2[..j - 1]))
  {
    assert s1[..i][..i - 1] == s1[..i - 1];
    assert s2[..j][..j - 1] == s2[..j - 1];
  }

  /** Cells `d[x][y]` for every row `x` and every column `y < cols` hold the
      distance of the prefixes of lengths `x` and `y`. */
  ghost predicate ColumnsFilled(d: array2<int>, s1: seq<byte>, s2: seq<byte>, cols: nat)
    requires d.Length0 == |s1| + 1 && d.Length1 == |s2| + 1 && cols <= |s2| + 1
    reads d
  {
    forall x, y | 0 <= x <= |s1| && 0 <= y < cols :: d[x, y] == Distance(s1[..x], s2[..y])
  }

  /** The inner loop of the table fill: column `j`, top to bottom. */
  method FillColumn(d: array2<int>, s1: seq<byte>, s2: seq<byte>, j: nat)
    requires d.Length0 == |s1| + 1 && d.Length1 == |s2| + 1 && 1 <= j <= |s2|
    requires ColumnsFilled(d, s1, s2, j)
    requires d[0, j] == j
    modifies d
    ensures ColumnsFilled(d, s1, s2, j + 1)
    ensures forall x, y | 0 <= x <= |s1| && 0 <= y <= |s2| && y != j :: d[x, y] == old(d[x, y])
  {
    for i := 1 to |s1| + 1
      invariant ColumnsFilled(d, s1, s2, j)
      invariant forall x | 0 <= x < i :: d[x, j] == Distance(s1[..x], s2[..j])
      invariant forall x, y | 0 <= x <= |s1| && 0 <= y <= |s2| && y != j :: d[x, y] == old(d[x, y])
    {
      DistanceStep(s1, s2, i, j);
      if s1[i - 1] == s2[j - 1] {
        d[i, j] := d[i - 1, j - 1];
      } else {
        var min := d[i - 1, j];
        if d[i, j - 1] < min {
          min := d[i, j - 1];
        }
        if d[i - 1, j - 1] < min {
          min := d[i - 1, j - 1];
        }
        d[i, j] := min + 1;
      }
    }
  }

  /** `LevenshteinDistance(s1, s2)`: fills the borders `d[i][0] = i` and
      `d[0][j] = j`, then the interior column by column, and returns
      `1 - d[len1][len2] / maxLen`; for two empty strings it returns 1
      rather than the NaN of `0 / 0`. */
  method LevenshteinDistance(s1: seq<byte>, s2: seq<byte>) returns (score: real)
    ensures score == Score(s1, s2)
  {
    var len1, len2 := |s1|, |s2|;
    var d := new int[len1 + 1, len2 + 1];
    for i := 0 to len1 + 1
      invariant forall x | 0 <= x < i :: d[x, 0] == x
    {
      d[i, 0] := i;
    }
    for j := 0 to len2 + 1
      invariant forall x | 0 <= x <= len1 :: d[x, 0] == x
      invariant forall y | 0 <= y < j :: d[0, y] == y
    {
      d[0, j] := j;
    }
    assert ColumnsFilled(d, s1, s2, 1);
    for j := 1 to len2 + 1
      invariant ColumnsFilled(d, s1, s2, j)
      invariant forall y | j <= y <= len2 :: d[0, y] == y
    {
      FillColumn(d, s1, s2, j);
    }
    var maxLen := len1;
    if len2 > len1 {
      maxLen := len2;
    }
    if maxLen == 0 {
      return 1.0;
    }
    assert s1[..len1] == s1 && s2[..len2] == s2;
    score := 1.0 - (d[len1, len2] as real) / (maxLen as real);
  }

  // ---------------------------------------------------------------------
  // Properties of the distance.

  /** The table's borders: a prefix against the empty string costs its length. */
  lemma DistanceToEmpty(s: seq<byte>)
    ensures Distance(s, []) == |s| && Distance([], s) == |s|
  {
  }

  /** The distance is at least the difference of the lengths and at most the
      longer length. */
  lemma {:induction false} DistanceBounds(a: seq<byte>, b: seq<byte>)
    ensures Distance(a, b) <= Max(|a|, |b|)
    ensures |a| - |b| <= Distance(a, b) && |b| - |a| <= Distance(a, b)
    decreases |a| + |b|
  {
    if |a| > 0 && |b| > 0 {
      var a', b' := a[..|a| - 1], b[..|b| - 1];
      DistanceBounds(a', b');
      if a[|a| - 1] != b[|b| - 1] {
        DistanceBounds(a', b);
        DistanceBounds(a, b');
      }
    }
  }

  /** The distance is zero exactly when the strings are equal. */
  lemma {:induction false} DistanceZeroIff(a: seq<byte>, b: seq<byte>)
    ensures Distance(a, b) == 0 <==> a == b
    decreases |a| + |b|
  {
    if |a| > 0 && |b| > 0 {
      var a', b' := a[..|a| - 1], b[..|b| - 1];
      DistanceZeroIff(a', b');
      assert a == a' + [a[|a| - 1]] && b == b' + [b[|b| - 1]];
      if a == b {
        assert a' == b';
      }
    }
  }

  /** The distance does not depend on the order of its arguments. */
  lemma {:induction false} DistanceSymmetric(a: seq<byte>, b: seq<byte>)
    ensures Distance(a, b) == Distance(b, a)
    decreases |a| + |b|
  {
    if |a| > 0 && |b| > 0 {
      var a', b' := a[..|a| - 1], b[..|b| - 1];
      DistanceSymmetric(a', b');
      if a[|a| - 1] != b[|b| - 1] {
        DistanceSymmetric(a', b);
        DistanceSymmetric(a, b');
      }
    }
  }

  /** A common suffix costs nothing. */
  lemma {:induction false} DistanceCommonSuffix(a: seq<byte>, b: seq<byte>, q: seq<byte>)
    ensures Distance(a + q, b + q) == Distance(a, b)
    decreases |q|
  {
    if |q| > 0 {
      var q' := q[..|q| - 1];
      assert (a + q)[..|a + q| - 1] == a + q';
      assert (b + q)[..|b + q| - 1] == b + q';
      DistanceCommonSuffix(a, b, q');
    } else {
      assert a + q == a && b + q == b;
    }
  }

  /** Changing one byte gives distance 1. */
  lemma SingleSubstitution(p: seq<byte>, x: byte, y: byte, q: seq<byte>)
    requires x != y
    ensures Distance(p + [x] + q, p + [y] + q) == 1
  {
    DistanceCommonSuffix(p + [x], p + [y], q);
    assert (p + [x])[..|p|] == p && (p + [y])[..|p|] == p;
    DistanceZeroIff(p, p);
    DistanceZeroIff(p + [x] + q, p + [y] + q);
    assert (p + [x] + q)[|p|] == x;
  }

  /** The number of positions at which two equally long strings differ. */
  function Mismatches(a: seq<byte>, b: seq<byte>): (n: nat)
    requires |a| == |b|
    ensures n <= |a|
    ensures n == 0 <==> a == b
  {
    if |a| == 0 then 0
    else Mismatches(a[..|a| - 1], b[..|b| - 1]) + if a[|a| - 1] == b[|b| - 1] then 0 else 1
  }

  /** Substituting every differing byte is one way to edit, so the distance
      of two equally long strings is at most their number of mismatches. */
  lemma {:induction false} DistanceAtMostMismatches(a: seq<byte>, b: seq<byte>)
    requires |a| == |b|
    ensures Distance(a, b) <= Mismatches(a, b)
    decreases |a|
  {
    if |a| > 0 {
      DistanceAtMostMismatches(a[..|a| - 1], b[..|b| - 1]);
    }
  }

  /** Strings that agree from position `n` on differ in at most `n` places. */
  lemma {:induction false} MismatchesBelow(a: seq<byte>, b: seq<byte>, n: nat)
    requires |a| == |b| && n <= |a|
    requires forall i | n <= i < |a| :: a[i] == b[i]
    ensures Mismatches(a, b) <= n
    decreases |a|
  {
    if |a| > n {
      MismatchesBelow(a[..|a| - 1], b[..|b| - 1], n);
    }
  }

  // ---------------------------------------------------------------------
  // Properties of the score.

  lemma QuotientAtMostOne(x: real, y: real)
    requires 0.0 <= x <= y && y > 0.0
    ensures 0.0 <= x / y <= 1.0
  {
  }

  /** The score lies in [0, 1]. */
  lemma ScoreInUnitInterval(s1: seq<byte>, s2: seq<byte>)
    ensures 0.0 <= Score(s1, s2) <= 1.0
  {
    if |s1| > 0 || |s2| > 0 {
      DistanceBounds(s1, s2);
      QuotientAtMostOne(Distance(s1, s2) as real, Max(|s1|, |s2|) as real);
    }
  }

  /** The score is 1 exactly for identical strings. */
  lemma ScoreOneIff(s1: seq<byte>, s2: seq<byte>)
    ensures Score(s1, s2) == 1.0 <==> s1 == s2
  {
    DistanceZeroIff(s1, s2);
  }

  lemma QuotientOfSelf(y: real)
    requires y > 0.0
    ensures y / y == 1.0
  {
  }

  /** A non-empty string scores 0 against the empty string, either way round. */
  lemma ScoreAgainstEmpty(s: seq<byte>)
    requires |s| > 0
    ensures Score(s, []) == 0.0 && Score([], s) == 0.0
  {
    QuotientOfSelf(|s| as real);
  }

  /** The score does not depend on the order of its arguments. */
  lemma ScoreSymmetric(s1: seq<byte>, s2: seq<byte>)
    ensures Score(s1, s2) == Score(s2, s1)
  {
    DistanceSymmetric(s1, s2);
  }

  /** "google.com" against "goggle.com": one substitution. */
  lemma SubstitutionDistanceExample()
    ensures Distance(FromLiteral("google.com"), FromLiteral("goggle.com")) == 1
  {
    var a, b := FromLiteral("google.com"), FromLiteral("goggle.com");
    var p, q := a[..2], a[3..];
    assert a == p + [a[2]] + q && b == p + [b[2]] + q && a[2] != b[2] by {
      assert a[2] as int == 'o' as int && b[2] as int == 'g' as int;
      assert forall i | 0 <= i < |a| && i != 2 :: a[i] == b[i];
    }
    SingleSubstitution(p, a[2], b[2], q);
  }

  /** ... and so a score of 0.9. */
  lemma SubstitutionExample()
    ensures Score(FromLiteral("google.com"), FromLiteral("goggle.com")) == 0.9
  {
    SubstitutionDistanceExample();
  }

  /** The score is strictly between 0 and 1 when the distance is strictly
      between 0 and the longer length. */
  lemma ScoreStrictlyBetween(s1: seq<byte>, s2: seq<byte>)
    requires 0 < Distance(s1, s2) < Max(|s1|, |s2|)
    ensures 0.0 < Score(s1, s2) < 1.0
  {
    QuotientBelowOne(Distance(s1, s2) as real, Max(|s1|, |s2|) as real);
  }

  lemma QuotientBelowOne(x: real, y: real)
    requires 0.0 < x < y
    ensures 0.0 < x / y < 1.0
  {
    var q := x / y;
    assert q * y == x;
    ProductSign(1.0 - q, y);
  }

  lemma ProductSign(a: real, b: real)
    requires b > 0.0 && a * b > 0.0
    ensures a > 0.0
  {
  }

  /** "google.com" against the integration test's target "g00gle.com" differ
      in two places (at most three), ... */
  lemma TypoDistanceExample()
    ensures 0 < Distance(FromLiteral("google.com"), FromLiteral("g00gle.com")) <= 3
  {
    var a, b := FromLiteral("google.com"), FromLiteral("g00gle.com");
    assert a != b by {
      assert a[1] as int == 'o' as int && b[1] as int == '0' as int;
    }
    assert Mismatches(a, b) <= 3 by {
      assert forall i | 3 <= i < |a| :: a[i] == b[i];
      MismatchesBelow(a, b, 3);
    }
    DistanceAtMostMismatches(a, b);
    DistanceZeroIff(a, b);
  }

  /** ... so the score lies strictly between 0 and 1. */
  lemma TypoTargetExample()
    ensures 0.0 < Score(FromLiteral("google.com"), FromLiteral("g00gle.com")) < 1.0
  {
    TypoDistanceExample();
    ScoreStrictlyBetween(FromLiteral("google.com"), FromLiteral("g00gle.com"));
  }
}
