/**
 * The AgileForce grade (`computeGrade` in src/app/agileforce/page.tsx): the
 * hit rate `hits / results.length` against the thresholds 0.8 and 0.6, or
 * 0.6 alone for the audited difficulty. The rate is a JavaScript division;
 * here it is the exact rational, and the comparisons are computed by
 * cross-multiplying in integers. With no results the rate is NaN and every
 * comparison with it is false.
 */
module AgileForceGrade {

  datatype Outcome = Hit | Miss

  /** `results.filter((r) => r === "hit").length`. */
  function Hits(results: seq<Outcome>): (h: nat)
    ensures h <= |results|
  {
    if results == [] then 0 else (if results[0] == Hit then 1 else 0) + Hits(results[1..])
  }

  /** The hit rate, defined where the result list is not empty. */
  function Rate(results: seq<Outcome>): real
    requires |results| > 0
  {
    Hits(results) as real / |results| as real
  }

  /** `h / t >= num / den` in exact arithmetic is `h * den >= num * t`. */
  lemma {:induction false} RateAtLeast(h: nat, t: nat, num: nat, den: nat)
    requires t > 0 && den > 0
    ensures h as real / t as real >= num as real / den as real <==> h * den >= num * t
  {
    var r := h as real / t as real;
    var q := num as real / den as real;
    assert r * t as real == h as real;
    assert q * den as real == num as real;
    var td := (t * den) as real;
    assert r * td == (h * den) as real by {
      calc {
        r * td;
        r * (t as real * den as real);
        (r * t as real) * den as real;
        h as real * den as real;
      }
    }
    assert q * td == (num * t) as real by {
      calc {
        q * td;
        q * (den as real * t as real);
        (q * den as real) * t as real;
        num as real * t as real;
      }
    }
    assert td > 0.0;
    MultiplyPreservesOrder(r, q, td);
  }

  lemma MultiplyPreservesOrder(r: real, q: real, c: real)
    requires c > 0.0
    ensures r >= q <==> r * c >= q * c
  {
    if r >= q {
      assert (r - q) * c >= 0.0;
    } else {
      assert (q - r) * c > 0.0;
    }
  }

  const AuditedId: string := "audited"

  /**
   * `computeGrade(results, difficultyId)`. With no results the rate is NaN,
   * no threshold is met, and the lowest grade of the difficulty is given.
   */
  function ComputeGrade(results: seq<Outcome>, difficultyId: string): (grade: string)
    ensures |results| == 0 ==>
              grade == (if difficultyId == AuditedId then "AUDITED — NON-COMPLIANT" else "FAILED (NOTED)")
    ensures |results| > 0 && difficultyId == AuditedId ==>
              (grade == "AUDITED — COMPLIANT" <==> Rate(results) >= 0.6)
    ensures |results| > 0 && difficultyId == AuditedId ==>
              (grade == "AUDITED — NON-COMPLIANT" <==> Rate(results) < 0.6)
    ensures |results| > 0 && difficultyId != AuditedId ==>
              (grade == "PASSED" <==> Rate(results) >= 0.8)
    ensures |results| > 0 && difficultyId != AuditedId ==>
              (grade == "FAILED" <==> 0.6 <= Rate(results) < 0.8)
    ensures |results| > 0 && difficultyId != AuditedId ==>
              (grade == "FAILED (NOTED)" <==> Rate(results) < 0.6)
  {
    var hits := Hits(results);
    var total := |results|;
    if total == 0 then
      if difficultyId == AuditedId then "AUDITED — NON-COMPLIANT" else "FAILED (NOTED)"
    else
      RateAtLeast(hits, total, 3, 5);
      RateAtLeast(hits, total, 4, 5);
      if difficultyId == AuditedId then
        if 5 * hits >= 3 * total then "AUDITED — COMPLIANT" else "AUDITED — NON-COMPLIANT"
      else if 5 * hits >= 4 * total then "PASSED"
      else if 5 * hits >= 3 * total then "FAILED"
      else "FAILED (NOTED)"
  }

  /** A place on the grade scale of each difficulty: 0 lowest. */
  function Rank(grade: string): nat
  {
    if grade == "PASSED" || grade == "AUDITED — COMPLIANT" then 2
    else if grade == "FAILED" then 1
    else 0
  }

  /** The number of hits in `results` with one result changed to a hit. */
  lemma {:induction false} HitsRaise(results: seq<Outcome>, k: nat)
    requires k < |results|
    ensures Hits(results[k := Hit]) == Hits(results) + (if results[k] == Hit then 0 else 1)
  {
    if k > 0 {
      assert results[k := Hit][1..] == results[1..][k - 1 := Hit];
      HitsRaise(results[1..], k - 1);
    } else {
      assert results[k := Hit][1..] == results[1..];
    }
  }

  /** Turning a miss into a hit never lowers the grade. */
  lemma GradeMonotone(results: seq<Outcome>, k: nat, difficultyId: string)
    requires k < |results|
    ensures Rank(ComputeGrade(results, difficultyId)) <= Rank(ComputeGrade(results[k := Hit], difficultyId))
  {
    HitsRaise(results, k);
    var t := |results|;
    RateAtLeast(Hits(results), t, 3, 5);
    RateAtLeast(Hits(results), t, 4, 5);
    RateAtLeast(Hits(results[k := Hit]), t, 3, 5);
    RateAtLeast(Hits(results[k := Hit]), t, 4, 5);
  }

  /** The number of hits of a run of hits, and of a run of misses. */
  lemma {:induction false} HitsUniform(results: seq<Outcome>)
    ensures (forall k :: 0 <= k < |results| ==> results[k] == Hit) ==> Hits(results) == |results|
    ensures (forall k :: 0 <= k < |results| ==> results[k] == Miss) ==> Hits(results) == 0
  {
    if results != [] {
      HitsUniform(results[1..]);
      assert forall k :: 0 <= k < |results[1..]| ==> results[1..][k] == results[k + 1];
    }
  }

  /** A clean run gets the top grade; a run of misses the bottom one. */
  lemma CleanRunGrades(results: seq<Outcome>, difficultyId: string)
    requires |results| > 0
    ensures (forall k :: 0 <= k < |results| ==> results[k] == Hit) ==>
              ComputeGrade(results, difficultyId) == (if difficultyId == AuditedId then "AUDITED — COMPLIANT" else "PASSED")
    ensures (forall k :: 0 <= k < |results| ==> results[k] == Miss) ==>
              ComputeGrade(results, difficultyId) == (if difficultyId == AuditedId then "AUDITED — NON-COMPLIANT" else "FAILED (NOTED)")
  {
    HitsUniform(results);
  }
}
