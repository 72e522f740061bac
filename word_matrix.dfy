/**
  The word transition matrix (org.aksw.twig.automaton.data.WordMatrix) as its
  test exercises it: a map from predecessor word to a pair of a stored total
  and a map from successor word to count.  The chance of a successor is its
  count divided by the predecessor's total.

  The implementation file is not part of this model; contracts follow the
  behaviour the test asserts, plus two assumptions the test does not settle:
  a known predecessor's chance of a successor it never saw is 0, and a count
  that alterFrequency brings to 0 stays stored as an edge.  Java doubles are reals; where Java's division
  by a zero total would produce NaN or Infinity the model reports
  UndefinedChance instead.  A total of 0 arises when the deltas given to a
  predecessor add up to 0: a single delta of 0, or a negative delta that
  cancels earlier ones.  Rows with a zero total contribute no mappings, no
  kept edges and no chances to the statistics.
*/
module WordMatrices {
  import opened Wrappers
  import opened MapSums

  /** The `Pair<Long, Map<String, Long>>` stored per predecessor. */
  datatype Row = Row(total: int, counts: map<string, int>)

  type Matrix = map<string, Row>

  datatype MatrixError =
    | UnknownPredecessor  // getChance's IllegalArgumentException
    | UndefinedChance     // a zero total: Java's division gives NaN or Infinity

  function CountOf(row: Row, successor: string): int
  {
    if successor in row.counts then row.counts[successor] else 0
  }

  function Chance(row: Row, successor: string): real
    requires row.total != 0
  {
    CountOf(row, successor) as real / row.total as real
  }

  /** For every predecessor the stored total is the sum of its successor
      counts (the test's `reduce(0L, Long::sum)` check). */
  ghost predicate TotalsMatch(mat: Matrix)
  {
    forall p :: p in mat ==> mat[p].total == SumInt(mat[p].counts)
  }

  function RowOf(mat: Matrix, predecessor: string): Row
  {
    if predecessor in mat then mat[predecessor] else Row(0, map[])
  }

  /** `alterFrequency(predecessor, successor, delta)`: entries are created as
      needed and both the count and the total grow by `delta`. */
  function Altered(mat: Matrix, predecessor: string, successor: string, delta: int): (r: Matrix)
    ensures r.Keys == mat.Keys + {predecessor}
    ensures forall q :: q in mat && q != predecessor ==> r[q] == mat[q]
    ensures r[predecessor].counts.Keys == RowOf(mat, predecessor).counts.Keys + {successor}
  {
    var row := RowOf(mat, predecessor);
    mat[predecessor := Row(row.total + delta, row.counts[successor := CountOf(row, successor) + delta])]
  }

  /** alterFrequency adds `delta` to one count and to its predecessor's total,
      leaves every other count alone, and keeps totals equal to the sums. */
  lemma AlterPreservesTotals(mat: Matrix, predecessor: string, successor: string, delta: int)
    requires TotalsMatch(mat)
    ensures TotalsMatch(Altered(mat, predecessor, successor, delta))
    ensures CountOf(Altered(mat, predecessor, successor, delta)[predecessor], successor)
      == CountOf(RowOf(mat, predecessor), successor) + delta
    ensures forall t :: t != successor ==>
      CountOf(Altered(mat, predecessor, successor, delta)[predecessor], t) == CountOf(RowOf(mat, predecessor), t)
    ensures Altered(mat, predecessor, successor, delta)[predecessor].total == RowOf(mat, predecessor).total + delta
  {
    var row := RowOf(mat, predecessor);
    var r := Altered(mat, predecessor, successor, delta);
    assert row.total == SumInt(row.counts);
    SumIntUpdate(row.counts, successor, CountOf(row, successor) + delta);
    forall q | q in r ensures r[q].total == SumInt(r[q].counts) {
      if q != predecessor {
        assert r[q] == mat[q];
      }
    }
  }

  /** `getChance`: count / total; an unknown predecessor is an error, not 0. */
  function ChanceIn(mat: Matrix, predecessor: string, successor: string): (r: Result<real, MatrixError>)
    ensures predecessor !in mat <==> r == Failure(UnknownPredecessor)
    ensures (predecessor in mat && mat[predecessor].total == 0) <==> r == Failure(UndefinedChance)
    ensures r.Success? ==> r.value * mat[predecessor].total as real == CountOf(mat[predecessor], successor) as real
  {
    if predecessor !in mat then Failure(UnknownPredecessor)
    else if mat[predecessor].total == 0 then Failure(UndefinedChance)
    else Success(Chance(mat[predecessor], successor))
  }

  /** `getMappings`: each successor of the predecessor with its chance; empty
      for an unknown predecessor. */
  function MappingsOf(mat: Matrix, predecessor: string): (r: map<string, real>)
    ensures (predecessor !in mat || mat[predecessor].total == 0) ==> r == map[]
    ensures predecessor in mat && mat[predecessor].total != 0 ==> r.Keys == mat[predecessor].counts.Keys
    ensures forall s :: s in r ==> ChanceIn(mat, predecessor, s) == Success(r[s])
  {
    if predecessor !in mat || mat[predecessor].total == 0 then map[]
    else
      var row := mat[predecessor];
      map s | s in row.counts :: Chance(row, s)
  }

  /** The successors whose chance reaches the threshold; none when the
      chance is undefined. */
  function Kept(row: Row, threshold: real): (r: map<string, int>)
    ensures r.Keys <= row.counts.Keys
  {
    if row.total == 0 then map[]
    else map s | s in row.counts && Chance(row, s) >= threshold :: row.counts[s]
  }

  /** `truncateTo(threshold)`: edges whose chance is below the threshold are
      removed, totals are recomputed from the remaining counts, and
      predecessors left with no successor disappear. */
  ghost function Truncated(mat: Matrix, threshold: real): (r: Matrix)
    ensures TotalsMatch(r)
  {
    map p | p in mat && Kept(mat[p], threshold) != map[] :: Row(SumInt(Kept(mat[p], threshold)), Kept(mat[p], threshold))
  }

  /** Truncating one more predecessor extends the truncated matrix by its kept row. */
  lemma TruncatedExtend(done: Matrix, p: string, row: Row, threshold: real)
    requires p !in done
    ensures Truncated(done[p := row], threshold) ==
      if Kept(row, threshold) != map[] then Truncated(done, threshold)[p := Row(SumInt(Kept(row, threshold)), Kept(row, threshold))]
      else Truncated(done, threshold)
  {
  }

  /** Moving one predecessor from the pending keys to the done part of a
      truncation loop extends its result by that predecessor's kept row. */
  lemma TruncateStep(m: Matrix, rest: set<string>, p: string, threshold: real)
    requires p in rest && rest <= m.Keys
    ensures Truncated(m - (rest - {p}), threshold) ==
      if Kept(m[p], threshold) != map[] then Truncated(m - rest, threshold)[p := Row(SumInt(Kept(m[p], threshold)), Kept(m[p], threshold))]
      else Truncated(m - rest, threshold)
  {
    var done := m - rest;
    assert m - (rest - {p}) == done[p := m[p]];
    TruncatedExtend(done, p, m[p], threshold);
  }

  /** After truncation exactly the edges whose former chance reached the
      threshold remain, with their former counts. */
  lemma TruncateKeepsExactlyLikelyEdges(mat: Matrix, threshold: real, p: string, s: string)
    ensures (p in Truncated(mat, threshold) && s in Truncated(mat, threshold)[p].counts) <==>
      (p in mat && mat[p].total != 0 && s in mat[p].counts && Chance(mat[p], s) >= threshold)
    ensures p in Truncated(mat, threshold) && s in Truncated(mat, threshold)[p].counts ==>
      Truncated(mat, threshold)[p].counts[s] == mat[p].counts[s]
  {
    if p in mat && mat[p].total != 0 && s in mat[p].counts && Chance(mat[p], s) >= threshold {
      assert s in Kept(mat[p], threshold);
    }
  }

  /** Truncating above every stored chance removes every predecessor. */
  lemma TruncateAboveEveryChanceEmpties(mat: Matrix, threshold: real)
    requires forall p, s :: p in mat && mat[p].total != 0 && s in mat[p].counts ==> Chance(mat[p], s) < threshold
    ensures Truncated(mat, threshold) == map[]
  {
    forall p | p in mat ensures Kept(mat[p], threshold) == map[] {
      if mat[p].total != 0 {
        forall s | s in mat[p].counts ensures Chance(mat[p], s) < threshold { }
      }
    }
  }

  /** With positive counts, a predecessor with two or more successors gives
      each a chance below 1, so `truncateTo(1.0)` empties such a matrix. */
  lemma TruncateToOneEmptiesBranchingMatrix(mat: Matrix)
    requires TotalsMatch(mat)
    requires forall p, s :: p in mat && s in mat[p].counts ==> mat[p].counts[s] > 0
    requires forall p :: p in mat ==> |mat[p].counts| >= 2
    ensures Truncated(mat, 1.0) == map[]
  {
    forall p, s | p in mat && mat[p].total != 0 && s in mat[p].counts ensures Chance(mat[p], s) < 1.0 {
      var counts := mat[p].counts;
      var other := OtherKey(counts, s);
      SumIntAtLeastTwo(counts, s, other);
      var c := counts[s] as real;
      var t := mat[p].total as real;
      assert 0.0 < c < t;
      LessThanOne(c, t);
    }
    TruncateAboveEveryChanceEmpties(mat, 1.0);
  }

  /** The at-least-two-successors requirement above is needed: a predecessor
      whose only successor has chance 1 survives `truncateTo(1.0)`. */
  lemma TruncateToOneKeepsSingleSuccessor(p: string, s: string)
    ensures Truncated(map[p := Row(1, map[s := 1])], 1.0) == map[p := Row(1, map[s := 1])]
  {
    var row := Row(1, map[s := 1]);
    assert Chance(row, s) == 1.0;
    assert Kept(row, 1.0) == map[s := 1];
    SumIntUpdate(map[], s, 1);
  }

  lemma LessThanOne(c: real, t: real)
    requires 0.0 < c < t
    ensures c / t < 1.0
  {
    var q := c / t;
    assert q * t == c;
    if q >= 1.0 {
      assert false;
    }
  }

  lemma OtherKey(m: map<string, int>, k: string) returns (j: string)
    requires |m| >= 2 && k in m
    ensures j in m && j != k
  {
    assert |m.Keys - {k}| == |m| - 1;
    j :| j in m.Keys - {k};
  }

  /** Truncating to 0 leaves a matrix of non-negative counts and positive totals unchanged. */
  lemma TruncateToZeroKeepsMatrix(mat: Matrix)
    requires TotalsMatch(mat)
    requires forall p, s :: p in mat && s in mat[p].counts ==> mat[p].counts[s] >= 0
    requires forall p :: p in mat ==> mat[p].total > 0
    ensures Truncated(mat, 0.0) == mat
  {
    forall p | p in mat ensures Kept(mat[p], 0.0) == mat[p].counts && mat[p].counts != map[] {
      var row := mat[p];
      forall s | s in row.counts ensures Chance(row, s) >= 0.0 {
        NonNegativeRatio(row.counts[s] as real, row.total as real);
      }
    }
  }

  lemma NonNegativeRatio(c: real, t: real)
    requires 0.0 <= c && 0.0 < t
    ensures c / t >= 0.0
  {
  }

  // ---- Aggregate statistics over all stored chances ----

  function Identity(x: real): real { x }

  function One(x: real): real { 1.0 }

  function SquaredDeviation(mean: real): real -> real
  {
    x => (x - mean) * (x - mean)
  }

  /** The per-successor term `f(chance)` of a predecessor with this total. */
  function RowTerm(total: int, f: real -> real): (string, int) -> real
  {
    (s: string, c: int) => if total != 0 then f(c as real / total as real) else 0.0
  }

  /** Sum of `f` over the chances of one predecessor. */
  ghost function RowSum(row: Row, f: real -> real): real
  {
    MapFold(row.counts, RowTerm(row.total, f))
  }

  ghost function MatrixTerm(f: real -> real): (string, Row) -> real
  {
    (p: string, row: Row) => if row.total != 0 then RowSum(row, f) else 0.0
  }

  /** Sum of `f` over every stored chance of the matrix. */
  ghost function MatrixSum(mat: Matrix, f: real -> real): real
  {
    MapFold(mat, MatrixTerm(f))
  }

  /** The number of stored chances. */
  ghost function ChanceCount(mat: Matrix): real
  {
    MatrixSum(mat, One)
  }

  /** `getMeanChance`: population mean of all stored chances; None where Java
      divides 0 by 0. */
  ghost function MeanChance(mat: Matrix): Option<real>
  {
    if ChanceCount(mat) == 0.0 then None else Some(MatrixSum(mat, Identity) / ChanceCount(mat))
  }

  /** The square of `getChanceStdDeviation`: population variance of all stored chances. */
  ghost function ChanceVariance(mat: Matrix): Option<real>
  {
    match MeanChance(mat)
    case None => None
    case Some(mean) => Some(MatrixSum(mat, SquaredDeviation(mean)) / ChanceCount(mat))
  }

  ghost predicate AllChancesEqual(mat: Matrix, c: real)
  {
    forall p, s :: p in mat && mat[p].total != 0 && s in mat[p].counts ==> Chance(mat[p], s) == c
  }

  /** The chances of a predecessor whose total is the sum of its counts add up to 1. */
  lemma RowChancesSumToOne(row: Row)
    requires row.total != 0 && row.total == SumInt(row.counts)
    ensures RowSum(row, Identity) == 1.0
  {
    RowIdentitySum(row.counts, row.total);
    SelfRatio(SumInt(row.counts) as real, row.total as real);
  }

  lemma SelfRatio(s: real, t: real)
    requires t != 0.0 && s == t
    ensures s / t == 1.0
  {
  }

  lemma {:induction false} RowIdentitySum(counts: map<string, int>, total: int)
    requires total != 0
    ensures MapFold(counts, RowTerm(total, Identity)) == SumInt(counts) as real / total as real
    decreases |counts|
  {
    if counts != map[] {
      var k := SomeKey(counts);
      RowIdentitySum(counts - {k}, total);
      RowIdentityStep(counts, total, k);
    } else {
      assert SumInt(counts) == 0;
    }
  }

  lemma SomeKey<V>(m: map<string, V>) returns (k: string)
    requires m != map[]
    ensures k in m
  {
    k :| k in m;
  }

  /** One step of the induction in RowIdentitySum. */
  lemma RowIdentityStep(counts: map<string, int>, total: int, k: string)
    requires total != 0 && k in counts
    requires MapFold(counts - {k}, RowTerm(total, Identity)) == SumInt(counts - {k}) as real / total as real
    ensures MapFold(counts, RowTerm(total, Identity)) == SumInt(counts) as real / total as real
  {
    MapFoldRemove(counts, RowTerm(total, Identity), k);
    SumIntRemove(counts, k);
    var t := total as real;
    var a := counts[k] as real;
    var b := SumInt(counts - {k}) as real;
    assert RowTerm(total, Identity)(k, counts[k]) == a / t;
    assert SumInt(counts) as real == a + b;
    DivisionAdds(a, b, t);
  }

  lemma DivisionAdds(a: real, b: real, t: real)
    requires t != 0.0
    ensures a / t + b / t == (a + b) / t
  {
  }

  /** Each successor contributes one chance. */
  lemma RowCount(row: Row)
    requires row.total != 0
    ensures RowSum(row, One) == |row.counts| as real
  {
    MapFoldConstant(row.counts, RowTerm(row.total, One), 1.0);
    TimesIsProduct(|row.counts|, 1.0);
  }

  /** The number of chances a predecessor contributes. */
  function ChancesIn(p: string, row: Row): nat
  {
    if row.total != 0 then |row.counts| else 0
  }

  /** When every stored chance is `c`, summing `f` over them gives `f(c)` per chance. */
  lemma EqualChancesSum(mat: Matrix, c: real, f: real -> real)
    requires AllChancesEqual(mat, c)
    ensures MatrixSum(mat, f) == f(c) * ChanceCount(mat)
  {
    var total := EqualChancesCounted(mat, c, f);
    CountedProduct(MatrixSum(mat, f), ChanceCount(mat), total, f(c));
  }

  /** Both sums count the same number of chances. */
  lemma EqualChancesCounted(mat: Matrix, c: real, f: real -> real) returns (total: nat)
    requires AllChancesEqual(mat, c)
    ensures MatrixSum(mat, f) == Times(total, f(c)) && ChanceCount(mat) == total as real
  {
    EqualChancesTerms(mat, c, f);
    total := MapFoldCounted(mat, MatrixTerm(f), MatrixTerm(One), ChancesIn, f(c));
  }

  lemma CountedProduct(sum: real, count: real, total: nat, y: real)
    requires sum == Times(total, y) && count == total as real
    ensures sum == y * count
  {
    TimesIsProduct(total, y);
  }

  lemma EqualChancesTerms(mat: Matrix, c: real, f: real -> real)
    requires AllChancesEqual(mat, c)
    ensures forall p :: p in mat ==>
      MatrixTerm(f)(p, mat[p]) == Times(ChancesIn(p, mat[p]), f(c)) &&
      MatrixTerm(One)(p, mat[p]) == ChancesIn(p, mat[p]) as real
  {
    forall p | p in mat
      ensures MatrixTerm(f)(p, mat[p]) == Times(ChancesIn(p, mat[p]), f(c))
      ensures MatrixTerm(One)(p, mat[p]) == ChancesIn(p, mat[p]) as real
    {
      EqualChancesRow(mat, p, c, f);
    }
  }

  lemma EqualChancesRow(mat: Matrix, p: string, c: real, f: real -> real)
    requires AllChancesEqual(mat, c) && p in mat
    ensures MatrixTerm(f)(p, mat[p]) == Times(ChancesIn(p, mat[p]), f(c))
    ensures MatrixTerm(One)(p, mat[p]) == ChancesIn(p, mat[p]) as real
  {
    var row := mat[p];
    if row.total != 0 {
      forall s | s in row.counts ensures RowTerm(row.total, f)(s, row.counts[s]) == f(c) {
        assert Chance(row, s) == c;
      }
      MapFoldConstant(row.counts, RowTerm(row.total, f), f(c));
      RowCount(row);
    }
  }

  /** Equal chances have that chance as their mean and no deviation
      (the test's mean 0.5 and standard deviation 0). */
  lemma EqualChancesMeanAndVariance(mat: Matrix, c: real)
    requires AllChancesEqual(mat, c) && ChanceCount(mat) != 0.0
    ensures MeanChance(mat) == Some(c)
    ensures ChanceVariance(mat) == Some(0.0)
  {
    var n := ChanceCount(mat);
    EqualChancesSum(mat, c, Identity);
    assert MatrixSum(mat, Identity) == c * n;
    assert c * n / n == c;
    EqualChancesSum(mat, c, SquaredDeviation(c));
    assert SquaredDeviation(c)(c) == 0.0;
  }

  /** Since each predecessor's chances add up to 1, the mean chance is the
      number of predecessors over the number of stored chances. */
  lemma MeanChanceIsPredecessorsPerChance(mat: Matrix)
    requires TotalsMatch(mat)
    requires forall p :: p in mat ==> mat[p].total != 0
    requires mat != map[]
    ensures ChanceCount(mat) != 0.0 ==> MeanChance(mat) == Some(|mat| as real / ChanceCount(mat))
  {
    RowsSumToOne(mat);
    MapFoldConstant(mat, MatrixTerm(Identity), 1.0);
    TimesIsProduct(|mat|, 1.0);
  }

  lemma RowsSumToOne(mat: Matrix)
    requires TotalsMatch(mat)
    requires forall p :: p in mat ==> mat[p].total != 0
    ensures forall p :: p in mat ==> MatrixTerm(Identity)(p, mat[p]) == 1.0
  {
    forall p | p in mat ensures MatrixTerm(Identity)(p, mat[p]) == 1.0 {
      RowChancesSumToOne(mat[p]);
    }
  }

  // ---- The test's scenario ----

  /** `prepareMatrix` on a new matrix: alterFrequency(p, s1, 1) then
      alterFrequency(p, s2, 1); the test uses p = s1 = "a" and s2 = "b". */
  function Prepared(p: string, s1: string, s2: string): Matrix
  {
    Altered(Altered(map[], p, s1, 1), p, s2, 1)
  }

  /** `emptyTest`: a new matrix has no predecessor to ask about. */
  lemma EmptyMatrixHasNoChance(predecessor: string, successor: string)
    ensures ChanceIn(map[], predecessor, successor) == Failure(UnknownPredecessor)
    ensures MappingsOf(map[], predecessor) == map[]
  {
  }

  /** The prepared matrix holds one predecessor with two successors of count 1. */
  lemma PreparedMatrixContents(p: string, s1: string, s2: string)
    requires s1 != s2
    ensures Prepared(p, s1, s2) == map[p := Row(2, map[s1 := 1, s2 := 1])]
    ensures TotalsMatch(Prepared(p, s1, s2))
  {
    var first := Altered(map[], p, s1, 1);
    assert first == map[p := Row(1, map[s1 := 1])];
    assert map[s1 := 1][s2 := 1] == map[s1 := 1, s2 := 1];
    AlterPreservesTotals(map[], p, s1, 1);
    AlterPreservesTotals(first, p, s2, 1);
  }

  /** `assertMatrix`'s chance and mapping checks. */
  lemma PreparedMatrixChances(p: string, s1: string, s2: string)
    requires s1 != s2
    ensures ChanceIn(Prepared(p, s1, s2), p, s1) == Success(0.5)
    ensures ChanceIn(Prepared(p, s1, s2), p, s2) == Success(0.5)
    ensures MappingsOf(Prepared(p, s1, s2), p) == map[s1 := 0.5, s2 := 0.5]
  {
    PreparedMatrixContents(p, s1, s2);
    var m := MappingsOf(Prepared(p, s1, s2), p);
    assert m.Keys == {s1, s2};
  }

  /** `assertMatrix`'s mean 0.5 and standard deviation 0, and `truncateTest`. */
  lemma PreparedMatrixStatistics(p: string, s1: string, s2: string)
    requires s1 != s2
    ensures MeanChance(Prepared(p, s1, s2)) == Some(0.5)
    ensures ChanceVariance(Prepared(p, s1, s2)) == Some(0.0)
    ensures Truncated(Prepared(p, s1, s2), 1.0).Keys == {}
  {
    PreparedMatrixContents(p, s1, s2);
    TwoHalvesStatistics(p, s1, s2);
  }

  /** One predecessor whose two successors were each seen once. */
  function TwoHalves(p: string, s1: string, s2: string): Matrix
  {
    map[p := Row(2, map[s1 := 1, s2 := 1])]
  }

  lemma TwoHalvesStatistics(p: string, s1: string, s2: string)
    requires s1 != s2
    ensures MeanChance(TwoHalves(p, s1, s2)) == Some(0.5)
    ensures ChanceVariance(TwoHalves(p, s1, s2)) == Some(0.0)
    ensures Truncated(TwoHalves(p, s1, s2), 1.0).Keys == {}
  {
    var mat := TwoHalves(p, s1, s2);
    TwoHalvesAreEqual(p, s1, s2);
    TwoHalvesCount(p, s1, s2);
    EqualChancesMeanAndVariance(mat, 0.5);
    assert TotalsMatch(mat) by {
      SumIntUpdate(map[s1 := 1], s2, 1);
      SumIntUpdate(map[], s1, 1);
    }
    assert |mat[p].counts| >= 2 by {
      assert mat[p].counts.Keys == {s1, s2};
    }
    TruncateToOneEmptiesBranchingMatrix(mat);
  }

  lemma TwoHalvesAreEqual(p: string, s1: string, s2: string)
    requires s1 != s2
    ensures AllChancesEqual(TwoHalves(p, s1, s2), 0.5)
  {
  }

  lemma TwoHalvesCount(p: string, s1: string, s2: string)
    requires s1 != s2
    ensures ChanceCount(TwoHalves(p, s1, s2)) == 2.0
  {
    var mat := TwoHalves(p, s1, s2);
    var row := mat[p];
    MapFoldRemove(mat, MatrixTerm(One), p);
    assert mat - {p} == map[];
    RowCount(row);
    assert row.counts.Keys == {s1, s2};
  }

  class WordMatrix {
    var matrix: Matrix

    ghost predicate Valid()
      reads this
    {
      TotalsMatch(matrix)
    }

    constructor ()
      ensures Valid() && matrix == map[]
    {
      matrix := map[];
    }

    method AlterFrequency(predecessor: string, successor: string, delta: int)
      requires Valid()
      modifies this
      ensures Valid()
      ensures matrix == Altered(old(matrix), predecessor, successor, delta)
    {
      AlterPreservesTotals(matrix, predecessor, successor, delta);
      matrix := Altered(matrix, predecessor, successor, delta);
    }

    method GetChance(predecessor: string, successor: string) returns (r: Result<real, MatrixError>)
      ensures r == ChanceIn(matrix, predecessor, successor)
    {
      r := ChanceIn(matrix, predecessor, successor);
    }

    method GetMappings(predecessor: string) returns (r: map<string, real>)
      ensures r == MappingsOf(matrix, predecessor)
    {
      r := MappingsOf(matrix, predecessor);
    }

    method GetPredecessors() returns (r: set<string>)
      ensures r == matrix.Keys
    {
      r := matrix.Keys;
    }

    method TruncateTo(threshold: real)
      requires Valid()
      modifies this
      ensures Valid()
      ensures matrix == Truncated(old(matrix), threshold)
    {
      var m := matrix;
      var rest := m.Keys;
      var result: Matrix := map[];
      assert m - rest == map[];
      while rest != {}
        invariant rest <= m.Keys
        invariant result == Truncated(m - rest, threshold)
        decreases |rest|
      {
        var p :| p in rest;
        var kept := Kept(m[p], threshold);
        TruncateStep(m, rest, p, threshold);
        if kept != map[] {
          var total := SumValues(kept);
          result := result[p := Row(total, kept)];
        }
        rest := rest - {p};
      }
      assert m - {} == m;
      matrix := result;
    }

    /** Sum of `f` over every stored chance, by a loop over predecessors and successors. */
    method SumOverChances(f: real -> real) returns (sum: real)
      ensures sum == MatrixSum(matrix, f)
    {
      sum := 0.0;
      var rest := matrix;
      while rest != map[]
        invariant sum + MapFold(rest, MatrixTerm(f)) == MatrixSum(matrix, f)
        decreases |rest|
      {
        var p :| p in rest;
        MapFoldRemove(rest, MatrixTerm(f), p);
        var row := rest[p];
        if row.total != 0 {
          var rowSum := Fold(row.counts, RowTerm(row.total, f));
          sum := sum + rowSum;
        }
        rest := rest - {p};
      }
    }

    method GetMeanChance() returns (r: Option<real>)
      ensures r == MeanChance(matrix)
    {
      var n := SumOverChances(One);
      if n == 0.0 {
        return None;
      }
      var sum := SumOverChances(Identity);
      r := Some(sum / n);
    }

    /** `getChanceStdDeviation` before its final square root. */
    method GetChanceVariance() returns (r: Option<real>)
      ensures r == ChanceVariance(matrix)
    {
      var mean := GetMeanChance();
      if mean.None? {
        return None;
      }
      var n := SumOverChances(One);
      var sum := SumOverChances(SquaredDeviation(mean.value));
      r := Some(sum / n);
    }
  }
}
