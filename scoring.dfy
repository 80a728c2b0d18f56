/**
 * Offset-corrected mean squared error, and the loop that scores every chart column
 * of the joint table against the two reference columns at its end.
 */
module Scoring {
  import opened Common
  import opened Rounding

  /** Real multiplication, with the sign rules the squares below rely on. */
  function Product(a: real, b: real): (r: real)
    ensures a > 0.0 && b > 0.0 ==> r > 0.0
    ensures a < 0.0 && b < 0.0 ==> r > 0.0
    ensures a == 0.0 || b == 0.0 ==> r == 0.0
  {
    a * b
  }

  /** `x ** 2`: never negative, and zero only at zero. */
  function Sq(x: real): (r: real)
    ensures r >= 0.0
    ensures x == 0.0 <==> r == 0.0
  {
    Product(x, x)
  }

  /** The sum of `(t[i] - p[i] + d)^2`. */
  function SumSquares(t: seq<real>, p: seq<real>, d: real): (s: real)
    requires |t| == |p|
    ensures s >= 0.0
  {
    if t == [] then 0.0
    else Sq(t[0] - p[0] + d) + SumSquares(t[1..], p[1..], d)
  }

  /** Every value plus `c`. */
  function Shift(p: seq<real>, c: real): (r: seq<real>)
    ensures |r| == |p|
    ensures forall i :: 0 <= i < |p| ==> r[i] == p[i] + c
  {
    seq(|p|, i requires 0 <= i < |p| => p[i] + c)
  }

  /**
   * `calculate_mse(y_true, y_pred, distance)`: the mean of `(t[i] - p[i] + d)^2`.
   * Lists of different lengths raise; two empty lists divide by zero.
   */
  function CalculateMse(t: seq<real>, p: seq<real>, d: real): (r: Result<real>)
    ensures |t| != |p| ==> r == Err(LengthMismatch)
    ensures |t| == |p| == 0 ==> r == Err(DivisionByZero)
    ensures r.Ok? <==> |t| == |p| > 0
    ensures r.Ok? ==> r.value >= 0.0
  {
    if |t| != |p| then Err(LengthMismatch)
    else if |t| == 0 then Err(DivisionByZero)
    else Ok(SumSquares(t, p, d) / |t| as real)
  }

  lemma {:induction false} SumSquaresZero(t: seq<real>, p: seq<real>, d: real)
    requires |t| == |p|
    ensures SumSquares(t, p, d) == 0.0 <==> forall i :: 0 <= i < |t| ==> p[i] == t[i] + d
  {
    if t != [] {
      SumSquaresZero(t[1..], p[1..], d);
      var head := t[0] - p[0] + d;
      if forall i :: 0 <= i < |t| ==> p[i] == t[i] + d {
        assert forall i :: 0 <= i < |t| - 1 ==> p[1..][i] == t[1..][i] + d by {
          forall i | 0 <= i < |t| - 1 ensures p[1..][i] == t[1..][i] + d {
            assert p[i + 1] == t[i + 1] + d;
          }
        }
      }
      if SumSquares(t, p, d) == 0.0 {
        forall i | 0 <= i < |t| ensures p[i] == t[i] + d {
          if i > 0 {
            assert p[1..][i - 1] == t[1..][i - 1] + d;
          }
        }
      }
    }
  }

  /** The error is zero exactly when the prediction is the truth moved up by the offset. */
  lemma MseZeroIff(t: seq<real>, p: seq<real>, d: real)
    requires |t| == |p| > 0
    ensures CalculateMse(t, p, d) == Ok(0.0) <==> forall i :: 0 <= i < |t| ==> p[i] == t[i] + d
  {
    SumSquaresZero(t, p, d);
  }

  /** A series compared with itself at offset zero scores zero. */
  lemma MseSelfZero(r: seq<real>)
    requires |r| > 0
    ensures CalculateMse(r, r, 0.0) == Ok(0.0)
  {
    MseZeroIff(r, r, 0.0);
  }

  lemma {:induction false} SumSquaresShift(t: seq<real>, p: seq<real>, d: real, c: real)
    requires |t| == |p|
    ensures SumSquares(t, Shift(p, c), d + c) == SumSquares(t, p, d)
  {
    if t != [] {
      assert Shift(p, c)[1..] == Shift(p[1..], c);
      SumSquaresShift(t[1..], p[1..], d, c);
    }
  }

  /** Moving every predicted value and the offset by the same constant changes nothing. */
  lemma MseShiftInvariant(t: seq<real>, p: seq<real>, d: real, c: real)
    ensures CalculateMse(t, Shift(p, c), d + c) == CalculateMse(t, p, d)
  {
    if |t| == |p| {
      SumSquaresShift(t, p, d, c);
    }
  }

  /** The offset that makes the two endpoints meet, rounded to two decimals as the pipeline does. */
  function Distance(reference: seq<real>, candidate: seq<real>): real
    requires |reference| > 0 && |candidate| > 0
  {
    Round2(Last(candidate) - Last(reference))
  }

  /** A candidate's score against one reference: the rounded MSE at the rounded endpoint offset. */
  function Score(reference: seq<real>, candidate: seq<real>): (r: real)
    requires |reference| == |candidate| > 0
    ensures r >= 0.0
  {
    Round2(CalculateMse(reference, candidate, Distance(reference, candidate)).value)
  }

  /** A candidate identical to the reference scores zero. */
  lemma ScoreSelfZero(r: seq<real>)
    requires |r| > 0
    ensures Score(r, r) == 0.0
  {
    MseSelfZero(r);
  }

  /** Lifting a candidate by a multiple of 0.02 (such as 5.0) leaves its score unchanged:
      the rounded offset moves by exactly the same amount. */
  lemma ScoreShiftInvariant(reference: seq<real>, candidate: seq<real>, j: int)
    requires |reference| == |candidate| > 0
    ensures Score(reference, Shift(candidate, j as real / 50.0)) == Score(reference, candidate)
  {
    var c := j as real / 50.0;
    var d := Last(candidate) - Last(reference);
    assert Last(Shift(candidate, c)) - Last(reference) == d + c;
    Round2Shift(d, j);
    MseShiftInvariant(reference, candidate, Round2(d), c);
  }

  /** A candidate that is the reference lifted by a multiple of 0.02 scores zero. */
  lemma ScoreOfLiftedReference(reference: seq<real>, j: int)
    requires |reference| > 0
    ensures Score(reference, Shift(reference, j as real / 50.0)) == 0.0
  {
    ScoreShiftInvariant(reference, reference, j);
    ScoreSelfZero(reference);
  }

  /** The joint table: labelled columns, chart columns first and the two references last. */
  datatype Table = Table(labels: seq<string>, columns: seq<seq<real>>)

  /** What pandas guarantees of a frame: one label per column and a single row count. */
  predicate WellFormed(t: Table) {
    |t.labels| == |t.columns| &&
    forall i, j :: 0 <= i < |t.columns| && 0 <= j < |t.columns| ==> |t.columns[i]| == |t.columns[j]|
  }

  /** Number of chart columns, i.e. all but the last two. */
  function CandidateCount(t: Table): nat {
    if |t.columns| >= 2 then |t.columns| - 2 else 0
  }

  /** One row of the result table. */
  datatype ScoreRecord = ScoreRecord(name: string, bindingMax: real, kineticScore: real, steadyScore: real)

  /** The record for chart column `i`. */
  function RecordOf(t: Table, i: nat): (r: ScoreRecord)
    requires WellFormed(t) && i < CandidateCount(t) && |t.columns[i]| > 0
    ensures r.kineticScore >= 0.0 && r.steadyScore >= 0.0
  {
    var data := t.columns[i];
    var kinetic := t.columns[|t.columns| - 2];
    var steady := t.columns[|t.columns| - 1];
    ScoreRecord(t.labels[i], Last(data), Score(kinetic, data), Score(steady, data))
  }

  /** The record of column `k`, step by step as the scoring loop computes it. */
  lemma RecordOfSteps(t: Table, k: nat)
    requires WellFormed(t) && k < CandidateCount(t) && |t.columns[k]| > 0
    ensures var data, kinetic, steady := t.columns[k], t.columns[|t.columns| - 2], t.columns[|t.columns| - 1];
      RecordOf(t, k) == ScoreRecord(t.labels[k], Last(data),
        Round2(CalculateMse(kinetic, data, Round2(Last(data) - Last(kinetic))).value),
        Round2(CalculateMse(steady, data, Round2(Last(data) - Last(steady))).value))
  {
  }

  /**
   * The scoring loop of `process_pptx`: one record per column except the last two, in
   * column order. A table with rows of length zero fails on `[-1]` at the first column.
   */
  method ScoreColumns(t: Table) returns (res: Result<seq<ScoreRecord>>)
    requires WellFormed(t)
    ensures res.Err? <==> CandidateCount(t) > 0 && |t.columns[0]| == 0
    ensures res.Err? ==> res.error == IndexOutOfRange
    ensures res.Ok? ==>
      && |res.value| == CandidateCount(t)
      && forall i :: 0 <= i < |res.value| ==> |t.columns[i]| > 0 && res.value[i] == RecordOf(t, i)
  {
    var count := CandidateCount(t);
    var records: seq<ScoreRecord> := [];
    var k := 0;
    while k < count
      invariant 0 <= k <= count
      invariant |records| == k
      invariant k > 0 ==> |t.columns[0]| > 0
      invariant forall i :: 0 <= i < k ==> |t.columns[i]| > 0 && records[i] == RecordOf(t, i)
    {
      var data := t.columns[k];
      var kinetic := t.columns[|t.columns| - 2];
      var steady := t.columns[|t.columns| - 1];
      if |data| == 0 {
        return Err(IndexOutOfRange);
      }
      var kineticDistance := Round2(Last(data) - Last(kinetic));
      var kineticMse := Round2(CalculateMse(kinetic, data, kineticDistance).value);
      var steadyDistance := Round2(Last(data) - Last(steady));
      var steadyMse := Round2(CalculateMse(steady, data, steadyDistance).value);
      RecordOfSteps(t, k);
      records := records + [ScoreRecord(t.labels[k], Last(data), kineticMse, steadyMse)];
      k := k + 1;
    }
    return Ok(records);
  }
}
