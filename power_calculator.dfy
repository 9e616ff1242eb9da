/** The computational core of the TeachMichigan power calculator: the
    design-effect rule for students clustered within teachers, the
    conversion from teachers to an effective per-arm student count that is
    handed to a power routine, and the conversion of a solved per-arm student
    count back to a total number of teachers.

    The noncentral-t power routine (statsmodels' `TTestIndPower.solve_power`
    and `tt_ind_solve_power`) is not modelled: it is a parameter of type
    `PowerRoutine`, and the model states exactly which question it is asked. */
module PowerCalculator {
  import opened Numeric

  /** Significance level passed to both routine calls. */
  const Alpha: real := 0.05
  /** Target power of the sample-size solve. */
  const TargetPower: real := 0.8
  /** Ratio of comparison-arm size to treatment-arm size: equal arms. */
  const EqualArms: real := 1.0
  /** Default number of students taught by one teacher. */
  const DefaultStudentsPerTeacher: int := 22

  /** The `alternative` argument of the power routine. */
  datatype Alternative = TwoSided | Larger | Smaller

  /** The arguments of `solve_power(effect_size, nobs1, ratio, alpha, alternative)`. */
  datatype PowerQuery = PowerQuery(effectSize: real, nobs1: real, ratio: real, alpha: real, alternative: Alternative)

  /** The arguments of `tt_ind_solve_power(effect_size, alpha, power, ratio, alternative)`,
      which solves for the per-arm observation count. */
  datatype SampleSizeQuery = SampleSizeQuery(effectSize: real, alpha: real, power: real, ratio: real, alternative: Alternative)

  /** The external power-analysis routine, injected as its two operations. */
  datatype PowerRoutine = PowerRoutine(solvePower: PowerQuery -> real, solveNobs1: SampleSizeQuery -> real)

  /** The arithmetic faults of the two calculations.  `ZeroDesignEffect` is
      the division by a design effect of zero (only reachable with fewer than
      one student per teacher); `ZeroOutcomeDenominator` is the division by
      `students_per_teacher * outcome_share` when that product is zero. */
  datatype Error = ZeroDesignEffect | ZeroOutcomeDenominator

  datatype Result<T> = Ok(value: T) | Err(error: Error)

  /** Effective student counts of the treatment and comparison arms. */
  datatype Arms = Arms(treatment: real, control: real)

  /** The design effect is applied only when clustering is on and the ICC is positive. */
  predicate Clustered(useClustering: bool, icc: real) {
    useClustering && icc > 0.0
  }

  /** The cluster design effect `1 + (m - 1) * icc` for `m` students per teacher. */
  function DesignEffect(studentsPerTeacher: int, useClustering: bool, icc: real): (deff: real)
    ensures !Clustered(useClustering, icc) ==> deff == 1.0
    ensures studentsPerTeacher >= 1 ==> deff >= 1.0
    ensures studentsPerTeacher >= 1 ==>
              (deff > 1.0 <==> Clustered(useClustering, icc) && studentsPerTeacher > 1)
    ensures studentsPerTeacher >= 1 && icc <= 1.0 ==> deff <= studentsPerTeacher as real
  {
    if Clustered(useClustering, icc) then
      var m := (studentsPerTeacher - 1) as real;
      MulMonotone(0.0, m, icc);
      MulMonotone(icc, 1.0, m);
      1.0 + m * icc
    else
      1.0
  }

  /** `int(n_teachers * outcome_share)`: the teachers of one arm whose
      students contribute outcomes. */
  function PerArmTeachers(nTeachers: int, outcomeShare: real): (t: int)
    ensures 0 <= nTeachers && 0.0 <= outcomeShare <= 1.0 ==> 0 <= t <= nTeachers
    ensures 0.0 <= nTeachers as real * outcomeShare ==>
              t as real <= nTeachers as real * outcomeShare < t as real + 1.0
  {
    var x := nTeachers as real * outcomeShare;
    ShareOfTeachersBounded(nTeachers, outcomeShare);
    Trunc(x)
  }

  /** A share in [0, 1] of a non-negative teacher count lies between zero and that count. */
  lemma ShareOfTeachersBounded(nTeachers: int, outcomeShare: real)
    ensures 0 <= nTeachers && 0.0 <= outcomeShare <= 1.0 ==>
              0.0 <= nTeachers as real * outcomeShare <= nTeachers as real
  {
    MulMonotone(outcomeShare, 1.0, nTeachers as real);
    MulMonotone(0.0, outcomeShare, nTeachers as real);
  }

  /** The effective student counts of both arms: each arm's teachers times
      the students per teacher, shrunk by the design effect when clustering
      applies.  The comparison arm is built from its own teacher count, which
      is the treatment arm's. */
  function EffectiveArms(nTeachers: int, outcomeShare: real, studentsPerTeacher: int,
                         useClustering: bool, icc: real): (r: Result<Arms>)
    ensures r.Err? <==> DesignEffect(studentsPerTeacher, useClustering, icc) == 0.0
    ensures r.Err? ==> r.error == ZeroDesignEffect
    ensures r.Ok? ==> r.value.treatment == r.value.control
    ensures r.Ok? ==> r.value.treatment * DesignEffect(studentsPerTeacher, useClustering, icc)
                      == (PerArmTeachers(nTeachers, outcomeShare) * studentsPerTeacher) as real
    ensures studentsPerTeacher >= 1 ==> r.Ok?
  {
    var nTreatment := PerArmTeachers(nTeachers, outcomeShare);
    var nControl := nTreatment;
    if Clustered(useClustering, icc) then
      var deff := DesignEffect(studentsPerTeacher, useClustering, icc);
      if deff == 0.0 then
        Err(ZeroDesignEffect)
      else
        Ok(Arms((nTreatment * studentsPerTeacher) as real / deff,
                (nControl * studentsPerTeacher) as real / deff))
    else
      Ok(Arms((nTreatment * studentsPerTeacher) as real, (nControl * studentsPerTeacher) as real))
  }

  /** The question `calculate_power` puts to the power routine. */
  function PowerQueryFor(nTeachers: int, outcomeShare: real, effectSize: real,
                         studentsPerTeacher: int, useClustering: bool, icc: real): (q: Result<PowerQuery>)
    ensures q.Ok? <==> EffectiveArms(nTeachers, outcomeShare, studentsPerTeacher, useClustering, icc).Ok?
    ensures q.Err? ==> q.error == ZeroDesignEffect
    ensures q.Ok? ==>
              var arms := EffectiveArms(nTeachers, outcomeShare, studentsPerTeacher, useClustering, icc).value;
              && q.value.nobs1 == arms.treatment == arms.control
              && q.value.effectSize == effectSize
              && q.value.ratio == 1.0
              && q.value.alpha == 0.05
              && q.value.alternative == TwoSided
  {
    match EffectiveArms(nTeachers, outcomeShare, studentsPerTeacher, useClustering, icc)
    case Err(e) => Err(e)
    case Ok(arms) => Ok(PowerQuery(effectSize, arms.treatment, EqualArms, Alpha, TwoSided))
  }

  /** `calculate_power`: the power the routine reports for the design. */
  function CalculatePower(routine: PowerRoutine, nTeachers: int, outcomeShare: real, effectSize: real,
                          studentsPerTeacher: int := DefaultStudentsPerTeacher,
                          useClustering: bool := false, icc: real := 0.0): (r: Result<real>)
    ensures r.Err? <==> DesignEffect(studentsPerTeacher, useClustering, icc) == 0.0
    ensures r.Ok? ==>
              r.value == routine.solvePower(PowerQueryFor(nTeachers, outcomeShare, effectSize,
                                                          studentsPerTeacher, useClustering, icc).value)
  {
    match PowerQueryFor(nTeachers, outcomeShare, effectSize, studentsPerTeacher, useClustering, icc)
    case Err(e) => Err(e)
    case Ok(q) => Ok(routine.solvePower(q))
  }

  /** The question `calculate_sample_size` puts to the solver. */
  function SampleSizeQueryFor(effectSize: real): (q: SampleSizeQuery)
    ensures q.effectSize == effectSize && q.alpha == 0.05 && q.power == 0.8
    ensures q.ratio == 1.0 && q.alternative == TwoSided
  {
    SampleSizeQuery(effectSize, Alpha, TargetPower, EqualArms, TwoSided)
  }

  /** The per-arm student count the solver reports as needed for 80% power. */
  function RequiredStudents(routine: PowerRoutine, effectSize: real): real {
    routine.solveNobs1(SampleSizeQueryFor(effectSize))
  }

  /** `students_per_teacher * outcome_share`: the outcome-contributing students of one teacher. */
  function OutcomeStudentsPerTeacher(studentsPerTeacher: int, outcomeShare: real): real {
    studentsPerTeacher as real * outcomeShare
  }

  /** `ceil(n * deff / (students_per_teacher * outcome_share))`: the least
      number of teachers per arm whose outcome-contributing students cover
      `n * deff` effective students. */
  function TeachersPerArm(n: real, deff: real, studentsPerTeacher: int, outcomeShare: real): (r: Result<int>)
    ensures r.Err? <==> OutcomeStudentsPerTeacher(studentsPerTeacher, outcomeShare) == 0.0
    ensures r.Err? ==> r.error == ZeroOutcomeDenominator
    ensures var d := OutcomeStudentsPerTeacher(studentsPerTeacher, outcomeShare);
            d > 0.0 ==> r.Ok? && n * deff <= r.value as real * d && (r.value - 1) as real * d < n * deff
  {
    var denominator := OutcomeStudentsPerTeacher(studentsPerTeacher, outcomeShare);
    if denominator == 0.0 then
      Err(ZeroOutcomeDenominator)
    else if denominator > 0.0 then
      CeilCovers(n * deff, denominator, Ceil(n * deff / denominator));
      Ok(Ceil(n * deff / denominator))
    else
      Ok(Ceil(n * deff / denominator))
  }

  /** `calculate_sample_size`: the total number of teachers over both equal
      arms needed for 80% power. */
  function CalculateSampleSize(routine: PowerRoutine, effectSize: real, outcomeShare: real,
                               studentsPerTeacher: int := DefaultStudentsPerTeacher,
                               useClustering: bool := false, icc: real := 0.0): (r: Result<int>)
    ensures r.Err? <==> OutcomeStudentsPerTeacher(studentsPerTeacher, outcomeShare) == 0.0
    ensures r.Err? ==> r.error == ZeroOutcomeDenominator
    ensures r.Ok? ==> r.value % 2 == 0
    ensures r.Ok? ==>
              r.value / 2 == TeachersPerArm(RequiredStudents(routine, effectSize),
                                            DesignEffect(studentsPerTeacher, useClustering, icc),
                                            studentsPerTeacher, outcomeShare).value
  {
    var deff := DesignEffect(studentsPerTeacher, useClustering, icc);
    var n := RequiredStudents(routine, effectSize);
    match TeachersPerArm(n, deff, studentsPerTeacher, outcomeShare)
    case Err(e) => Err(e)
    case Ok(totalTeachers) => Ok(totalTeachers * 2)
  }
}
