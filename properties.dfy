/** Properties of the power calculator's design-effect rule, of the
    effective student count handed to the power routine, and of the
    teacher count returned by the sample-size calculation. */
module PowerCalculatorProperties {
  import opened Numeric
  import opened PowerCalculator

  /** Students per arm before any design effect: per-arm teachers times students per teacher. */
  function NominalStudents(nTeachers: int, outcomeShare: real, studentsPerTeacher: int): real {
    (PerArmTeachers(nTeachers, outcomeShare) * studentsPerTeacher) as real
  }

  /** With at least one student per teacher the power path never faults, and
      the effective count is the nominal count divided by the design effect. */
  lemma EffectiveIsNominalOverDesignEffect(nTeachers: int, outcomeShare: real, studentsPerTeacher: int,
                                           useClustering: bool, icc: real)
    requires studentsPerTeacher >= 1
    ensures EffectiveArms(nTeachers, outcomeShare, studentsPerTeacher, useClustering, icc).Ok?
    ensures EffectiveArms(nTeachers, outcomeShare, studentsPerTeacher, useClustering, icc).value.treatment
            == NominalStudents(nTeachers, outcomeShare, studentsPerTeacher)
               / DesignEffect(studentsPerTeacher, useClustering, icc)
  {
  }

  // ----- The design effect -----

  /** A larger ICC never gives a smaller design effect. */
  lemma DesignEffectMonotoneInIcc(studentsPerTeacher: int, useClustering: bool, icc1: real, icc2: real)
    requires studentsPerTeacher >= 1 && icc1 <= icc2
    ensures DesignEffect(studentsPerTeacher, useClustering, icc1)
            <= DesignEffect(studentsPerTeacher, useClustering, icc2)
  {
    if Clustered(useClustering, icc1) {
      var m := (studentsPerTeacher - 1) as real;
      MulMonotone(icc1, icc2, m);
      assert m * icc1 <= m * icc2;
    }
  }

  /** With clustering on and more than one student per teacher, the design
      effect grows strictly with the ICC once the larger ICC is positive. */
  lemma DesignEffectStrictlyIncreasingInIcc(studentsPerTeacher: int, icc1: real, icc2: real)
    requires studentsPerTeacher > 1 && icc1 < icc2 && 0.0 < icc2
    ensures DesignEffect(studentsPerTeacher, true, icc1) < DesignEffect(studentsPerTeacher, true, icc2)
  {
    var m := (studentsPerTeacher - 1) as real;
    var x2 := m * icc2;
    assert DesignEffect(studentsPerTeacher, true, icc2) == 1.0 + x2;
    if 0.0 < icc1 {
      var x1 := m * icc1;
      MulStrictMonotone(icc1, icc2, m);
      assert x1 < x2;
      assert DesignEffect(studentsPerTeacher, true, icc1) == 1.0 + x1;
    } else {
      MulPositive(icc2, m);
      assert 0.0 < x2;
    }
  }

  // ----- The effective count handed to the power routine -----

  /** When the design effect does not apply, the effective count is exactly
      the nominal count and the ICC and the clustering flag are not read:
      both the effective arms and the reported power agree for any two such settings. */
  lemma UnclusteredIgnoresIcc(routine: PowerRoutine, nTeachers: int, outcomeShare: real, effectSize: real,
                              studentsPerTeacher: int, useClustering1: bool, icc1: real,
                              useClustering2: bool, icc2: real)
    requires !Clustered(useClustering1, icc1) && !Clustered(useClustering2, icc2)
    ensures var nominal := NominalStudents(nTeachers, outcomeShare, studentsPerTeacher);
            EffectiveArms(nTeachers, outcomeShare, studentsPerTeacher, useClustering1, icc1)
            == Ok(Arms(nominal, nominal))
    ensures CalculatePower(routine, nTeachers, outcomeShare, effectSize, studentsPerTeacher, useClustering1, icc1)
            == CalculatePower(routine, nTeachers, outcomeShare, effectSize, studentsPerTeacher, useClustering2, icc2)
  {
  }

  /** A non-negative design has a non-negative per-arm teacher count and nominal count. */
  lemma NominalNonNegative(nTeachers: int, outcomeShare: real, studentsPerTeacher: int)
    requires 0 <= nTeachers && 0.0 <= outcomeShare && studentsPerTeacher >= 1
    ensures 0 <= PerArmTeachers(nTeachers, outcomeShare)
    ensures 0.0 <= NominalStudents(nTeachers, outcomeShare, studentsPerTeacher)
  {
    MulNonNegative(nTeachers as real, outcomeShare);
    IntMulNonNegative(PerArmTeachers(nTeachers, outcomeShare), studentsPerTeacher);
  }

  /** For a non-negative design, the effective count lies between zero and the nominal count. */
  lemma EffectiveCountBounds(nTeachers: int, outcomeShare: real, studentsPerTeacher: int,
                             useClustering: bool, icc: real)
    requires 0 <= nTeachers && 0.0 <= outcomeShare && studentsPerTeacher >= 1
    ensures 0.0 <= EffectiveArms(nTeachers, outcomeShare, studentsPerTeacher, useClustering, icc).value.treatment
                <= NominalStudents(nTeachers, outcomeShare, studentsPerTeacher)
  {
    EffectiveIsNominalOverDesignEffect(nTeachers, outcomeShare, studentsPerTeacher, useClustering, icc);
    NominalNonNegative(nTeachers, outcomeShare, studentsPerTeacher);
    var nominal := NominalStudents(nTeachers, outcomeShare, studentsPerTeacher);
    var deff := DesignEffect(studentsPerTeacher, useClustering, icc);
    DivAntitone(nominal, 1.0, deff);
    DivMonotone(0.0, nominal, deff);
  }

  /** With an ICC of at most one, each contributing teacher still counts for
      at least one effective student. */
  lemma EffectiveCountAtLeastTeachers(nTeachers: int, outcomeShare: real, studentsPerTeacher: int,
                                      useClustering: bool, icc: real)
    requires 0 <= nTeachers && 0.0 <= outcomeShare && studentsPerTeacher >= 1 && icc <= 1.0
    ensures PerArmTeachers(nTeachers, outcomeShare) as real
            <= EffectiveArms(nTeachers, outcomeShare, studentsPerTeacher, useClustering, icc).value.treatment
  {
    EffectiveIsNominalOverDesignEffect(nTeachers, outcomeShare, studentsPerTeacher, useClustering, icc);
    NominalNonNegative(nTeachers, outcomeShare, studentsPerTeacher);
    NominalPerTeacher(nTeachers, outcomeShare, studentsPerTeacher);
    DivAntitone(NominalStudents(nTeachers, outcomeShare, studentsPerTeacher),
                DesignEffect(studentsPerTeacher, useClustering, icc), studentsPerTeacher as real);
  }

  /** The nominal count shared over the students per teacher is the per-arm teacher count. */
  lemma NominalPerTeacher(nTeachers: int, outcomeShare: real, studentsPerTeacher: int)
    requires studentsPerTeacher >= 1
    ensures NominalStudents(nTeachers, outcomeShare, studentsPerTeacher) / studentsPerTeacher as real
            == PerArmTeachers(nTeachers, outcomeShare) as real
  {
    CastMul(PerArmTeachers(nTeachers, outcomeShare), studentsPerTeacher);
  }

  /** A larger ICC never gives a larger effective count. */
  lemma EffectiveCountNonIncreasingInIcc(nTeachers: int, outcomeShare: real, studentsPerTeacher: int,
                                         useClustering: bool, icc1: real, icc2: real)
    requires 0 <= nTeachers && 0.0 <= outcomeShare && studentsPerTeacher >= 1 && icc1 <= icc2
    ensures EffectiveArms(nTeachers, outcomeShare, studentsPerTeacher, useClustering, icc2).value.treatment
            <= EffectiveArms(nTeachers, outcomeShare, studentsPerTeacher, useClustering, icc1).value.treatment
  {
    EffectiveIsNominalOverDesignEffect(nTeachers, outcomeShare, studentsPerTeacher, useClustering, icc1);
    EffectiveIsNominalOverDesignEffect(nTeachers, outcomeShare, studentsPerTeacher, useClustering, icc2);
    NominalNonNegative(nTeachers, outcomeShare, studentsPerTeacher);
    DesignEffectMonotoneInIcc(studentsPerTeacher, useClustering, icc1, icc2);
    DivAntitone(NominalStudents(nTeachers, outcomeShare, studentsPerTeacher),
                DesignEffect(studentsPerTeacher, useClustering, icc1),
                DesignEffect(studentsPerTeacher, useClustering, icc2));
  }

  /** More teachers never give a smaller effective count. */
  lemma EffectiveCountNonDecreasingInTeachers(nTeachers1: int, nTeachers2: int, outcomeShare: real,
                                              studentsPerTeacher: int, useClustering: bool, icc: real)
    requires nTeachers1 <= nTeachers2 && 0.0 <= outcomeShare && studentsPerTeacher >= 1
    ensures EffectiveArms(nTeachers1, outcomeShare, studentsPerTeacher, useClustering, icc).value.treatment
            <= EffectiveArms(nTeachers2, outcomeShare, studentsPerTeacher, useClustering, icc).value.treatment
  {
    MulMonotone(nTeachers1 as real, nTeachers2 as real, outcomeShare);
    NominalMonotone(nTeachers1, outcomeShare, nTeachers2, outcomeShare, studentsPerTeacher);
    EffectiveOrderedByNominal(nTeachers1, outcomeShare, nTeachers2, outcomeShare,
                              studentsPerTeacher, useClustering, icc);
  }

  /** A larger outcome share never gives a smaller effective count. */
  lemma EffectiveCountNonDecreasingInShare(nTeachers: int, outcomeShare1: real, outcomeShare2: real,
                                           studentsPerTeacher: int, useClustering: bool, icc: real)
    requires 0 <= nTeachers && outcomeShare1 <= outcomeShare2 && studentsPerTeacher >= 1
    ensures EffectiveArms(nTeachers, outcomeShare1, studentsPerTeacher, useClustering, icc).value.treatment
            <= EffectiveArms(nTeachers, outcomeShare2, studentsPerTeacher, useClustering, icc).value.treatment
  {
    MulMonotone(outcomeShare1, outcomeShare2, nTeachers as real);
    assert nTeachers as real * outcomeShare1 <= nTeachers as real * outcomeShare2;
    NominalMonotone(nTeachers, outcomeShare1, nTeachers, outcomeShare2, studentsPerTeacher);
    EffectiveOrderedByNominal(nTeachers, outcomeShare1, nTeachers, outcomeShare2,
                              studentsPerTeacher, useClustering, icc);
  }

  /** A design with no more outcome-contributing teachers has no larger nominal count. */
  lemma NominalMonotone(nTeachers1: int, outcomeShare1: real, nTeachers2: int, outcomeShare2: real,
                        studentsPerTeacher: int)
    requires nTeachers1 as real * outcomeShare1 <= nTeachers2 as real * outcomeShare2
    requires studentsPerTeacher >= 1
    ensures NominalStudents(nTeachers1, outcomeShare1, studentsPerTeacher)
            <= NominalStudents(nTeachers2, outcomeShare2, studentsPerTeacher)
  {
    var t1 := PerArmTeachers(nTeachers1, outcomeShare1);
    var t2 := PerArmTeachers(nTeachers2, outcomeShare2);
    TruncMonotone(nTeachers1 as real * outcomeShare1, nTeachers2 as real * outcomeShare2);
    assert t1 <= t2;
    CastMul(t1, studentsPerTeacher);
    CastMul(t2, studentsPerTeacher);
    MulMonotone(t1 as real, t2 as real, studentsPerTeacher as real);
  }

  /** Two designs with the same clustering settings keep the order of their nominal counts. */
  lemma EffectiveOrderedByNominal(nTeachers1: int, outcomeShare1: real, nTeachers2: int, outcomeShare2: real,
                                  studentsPerTeacher: int, useClustering: bool, icc: real)
    requires studentsPerTeacher >= 1
    requires NominalStudents(nTeachers1, outcomeShare1, studentsPerTeacher)
             <= NominalStudents(nTeachers2, outcomeShare2, studentsPerTeacher)
    ensures EffectiveArms(nTeachers1, outcomeShare1, studentsPerTeacher, useClustering, icc).value.treatment
            <= EffectiveArms(nTeachers2, outcomeShare2, studentsPerTeacher, useClustering, icc).value.treatment
  {
    EffectiveIsNominalOverDesignEffect(nTeachers1, outcomeShare1, studentsPerTeacher, useClustering, icc);
    EffectiveIsNominalOverDesignEffect(nTeachers2, outcomeShare2, studentsPerTeacher, useClustering, icc);
    DivMonotone(NominalStudents(nTeachers1, outcomeShare1, studentsPerTeacher),
                NominalStudents(nTeachers2, outcomeShare2, studentsPerTeacher),
                DesignEffect(studentsPerTeacher, useClustering, icc));
  }

  // ----- The sample-size calculation -----

  /** The teachers per arm that the total represents: the caller's `// 2`
      (Dafny's `/` by a positive divisor floors, as Python's `//` does). */
  function PerArmOfTotal(total: int): int {
    total / 2
  }

  /** The solver's per-arm student count inflated by the design effect. */
  function InflatedStudents(routine: PowerRoutine, effectSize: real, studentsPerTeacher: int,
                            useClustering: bool, icc: real): real {
    RequiredStudents(routine, effectSize) * DesignEffect(studentsPerTeacher, useClustering, icc)
  }

  /** With a positive share and at least one student per teacher, each
      teacher contributes a positive number of outcome students. */
  lemma OutcomeStudentsPositive(studentsPerTeacher: int, outcomeShare: real)
    requires 0.0 < outcomeShare && studentsPerTeacher >= 1
    ensures 0.0 < OutcomeStudentsPerTeacher(studentsPerTeacher, outcomeShare)
  {
    MulPositive(studentsPerTeacher as real, outcomeShare);
  }

  /** A larger outcome share gives each teacher no fewer outcome students. */
  lemma OutcomeStudentsMonotone(studentsPerTeacher: int, outcomeShare1: real, outcomeShare2: real)
    requires outcomeShare1 <= outcomeShare2 && studentsPerTeacher >= 1
    ensures OutcomeStudentsPerTeacher(studentsPerTeacher, outcomeShare1)
            <= OutcomeStudentsPerTeacher(studentsPerTeacher, outcomeShare2)
  {
    MulMonotone(outcomeShare1, outcomeShare2, studentsPerTeacher as real);
  }

  /** Away from a zero denominator, the per-arm teacher count is the ceiling of the quotient. */
  lemma TeachersPerArmIsCeiling(n: real, deff: real, studentsPerTeacher: int, outcomeShare: real)
    requires OutcomeStudentsPerTeacher(studentsPerTeacher, outcomeShare) != 0.0
    ensures TeachersPerArm(n, deff, studentsPerTeacher, outcomeShare)
            == Ok(Ceil(n * deff / OutcomeStudentsPerTeacher(studentsPerTeacher, outcomeShare)))
  {
  }

  /** Spreading a non-negative need over a larger outcome share never needs more teachers per arm. */
  lemma TeachersPerArmAntitoneInShare(n: real, deff: real, studentsPerTeacher: int,
                                      outcomeShare1: real, outcomeShare2: real)
    requires 0.0 < outcomeShare1 <= outcomeShare2 && studentsPerTeacher >= 1 && 0.0 <= n * deff
    ensures var t1 := TeachersPerArm(n, deff, studentsPerTeacher, outcomeShare1);
            var t2 := TeachersPerArm(n, deff, studentsPerTeacher, outcomeShare2);
            t1.Ok? && t2.Ok? && t2.value <= t1.value
  {
    OutcomeStudentsPositive(studentsPerTeacher, outcomeShare1);
    OutcomeStudentsMonotone(studentsPerTeacher, outcomeShare1, outcomeShare2);
    TeachersPerArmIsCeiling(n, deff, studentsPerTeacher, outcomeShare1);
    TeachersPerArmIsCeiling(n, deff, studentsPerTeacher, outcomeShare2);
    CeilOfQuotientAntitone(n * deff, OutcomeStudentsPerTeacher(studentsPerTeacher, outcomeShare1),
                           OutcomeStudentsPerTeacher(studentsPerTeacher, outcomeShare2));
  }

  /** A larger inflated need over the same positive denominator never needs fewer teachers per arm. */
  lemma TeachersPerArmMonotoneInNeed(n1: real, deff1: real, n2: real, deff2: real,
                                     studentsPerTeacher: int, outcomeShare: real)
    requires 0.0 < outcomeShare && studentsPerTeacher >= 1 && n1 * deff1 <= n2 * deff2
    ensures var t1 := TeachersPerArm(n1, deff1, studentsPerTeacher, outcomeShare);
            var t2 := TeachersPerArm(n2, deff2, studentsPerTeacher, outcomeShare);
            t1.Ok? && t2.Ok? && t1.value <= t2.value
  {
    OutcomeStudentsPositive(studentsPerTeacher, outcomeShare);
    TeachersPerArmIsCeiling(n1, deff1, studentsPerTeacher, outcomeShare);
    TeachersPerArmIsCeiling(n2, deff2, studentsPerTeacher, outcomeShare);
    CeilOfQuotientMonotone(n1 * deff1, n2 * deff2, OutcomeStudentsPerTeacher(studentsPerTeacher, outcomeShare));
  }

  /** Closed form of the total: twice the ceiling of the inflated student
      count over the outcome-contributing students per teacher. */
  lemma SampleSizeClosedForm(routine: PowerRoutine, effectSize: real, outcomeShare: real,
                             studentsPerTeacher: int, useClustering: bool, icc: real)
    requires OutcomeStudentsPerTeacher(studentsPerTeacher, outcomeShare) != 0.0
    ensures CalculateSampleSize(routine, effectSize, outcomeShare, studentsPerTeacher, useClustering, icc)
            == Ok(2 * Ceil(InflatedStudents(routine, effectSize, studentsPerTeacher, useClustering, icc)
                           / OutcomeStudentsPerTeacher(studentsPerTeacher, outcomeShare)))
  {
    TeachersPerArmIsCeiling(RequiredStudents(routine, effectSize),
                            DesignEffect(studentsPerTeacher, useClustering, icc),
                            studentsPerTeacher, outcomeShare);
  }

  /** Ceiling sufficiency and minimality: half the total is the least number
      of teachers per arm whose outcome-contributing students cover the
      solver's per-arm student count inflated by the design effect. */
  lemma SampleSizeCoversRequirement(routine: PowerRoutine, effectSize: real, outcomeShare: real,
                                    studentsPerTeacher: int, useClustering: bool, icc: real)
    requires 0.0 < outcomeShare && studentsPerTeacher >= 1
    ensures var r := CalculateSampleSize(routine, effectSize, outcomeShare, studentsPerTeacher, useClustering, icc);
            var need := InflatedStudents(routine, effectSize, studentsPerTeacher, useClustering, icc);
            var perTeacher := OutcomeStudentsPerTeacher(studentsPerTeacher, outcomeShare);
            && r.Ok?
            && need <= PerArmOfTotal(r.value) as real * perTeacher
            && (PerArmOfTotal(r.value) - 1) as real * perTeacher < need
  {
    OutcomeStudentsPositive(studentsPerTeacher, outcomeShare);
  }

  /** A non-negative solved count gives a non-negative total, and a positive
      one gives at least one teacher in each arm. */
  lemma SampleSizeNonNegative(routine: PowerRoutine, effectSize: real, outcomeShare: real,
                              studentsPerTeacher: int, useClustering: bool, icc: real)
    requires 0.0 < outcomeShare && studentsPerTeacher >= 1
    requires 0.0 <= RequiredStudents(routine, effectSize)
    ensures var r := CalculateSampleSize(routine, effectSize, outcomeShare, studentsPerTeacher, useClustering, icc);
            && r.Ok? && 0 <= r.value
            && (0.0 < RequiredStudents(routine, effectSize) ==> 2 <= r.value)
  {
    var need := InflatedStudents(routine, effectSize, studentsPerTeacher, useClustering, icc);
    OutcomeStudentsPositive(studentsPerTeacher, outcomeShare);
    SampleSizeClosedForm(routine, effectSize, outcomeShare, studentsPerTeacher, useClustering, icc);
    MulNonNegative(RequiredStudents(routine, effectSize), DesignEffect(studentsPerTeacher, useClustering, icc));
    DivMonotone(0.0, need, OutcomeStudentsPerTeacher(studentsPerTeacher, outcomeShare));
    if 0.0 < RequiredStudents(routine, effectSize) {
      MulPositive(RequiredStudents(routine, effectSize), DesignEffect(studentsPerTeacher, useClustering, icc));
      DivPositive(need, OutcomeStudentsPerTeacher(studentsPerTeacher, outcomeShare));
    }
  }

  /** With clustering on, a larger ICC never asks for fewer teachers. */
  lemma SampleSizeNonDecreasingInIcc(routine: PowerRoutine, effectSize: real, outcomeShare: real,
                                     studentsPerTeacher: int, useClustering: bool, icc1: real, icc2: real)
    requires 0.0 < outcomeShare && studentsPerTeacher >= 1 && icc1 <= icc2
    requires 0.0 <= RequiredStudents(routine, effectSize)
    ensures var r1 := CalculateSampleSize(routine, effectSize, outcomeShare, studentsPerTeacher, useClustering, icc1);
            var r2 := CalculateSampleSize(routine, effectSize, outcomeShare, studentsPerTeacher, useClustering, icc2);
            r1.Ok? && r2.Ok? && r1.value <= r2.value
  {
    var n := RequiredStudents(routine, effectSize);
    DesignEffectMonotoneInIcc(studentsPerTeacher, useClustering, icc1, icc2);
    MulMonotone(DesignEffect(studentsPerTeacher, useClustering, icc1),
                DesignEffect(studentsPerTeacher, useClustering, icc2), n);
    TeachersPerArmMonotoneInNeed(n, DesignEffect(studentsPerTeacher, useClustering, icc1),
                                 n, DesignEffect(studentsPerTeacher, useClustering, icc2),
                                 studentsPerTeacher, outcomeShare);
  }

  /** A larger outcome share never asks for more teachers. */
  lemma SampleSizeNonIncreasingInShare(routine: PowerRoutine, effectSize: real, outcomeShare1: real,
                                       outcomeShare2: real, studentsPerTeacher: int,
                                       useClustering: bool, icc: real)
    requires 0.0 < outcomeShare1 <= outcomeShare2 && studentsPerTeacher >= 1
    requires 0.0 <= RequiredStudents(routine, effectSize)
    ensures var r1 := CalculateSampleSize(routine, effectSize, outcomeShare1, studentsPerTeacher, useClustering, icc);
            var r2 := CalculateSampleSize(routine, effectSize, outcomeShare2, studentsPerTeacher, useClustering, icc);
            r1.Ok? && r2.Ok? && r2.value <= r1.value
  {
    MulNonNegative(RequiredStudents(routine, effectSize), DesignEffect(studentsPerTeacher, useClustering, icc));
    TeachersPerArmAntitoneInShare(RequiredStudents(routine, effectSize),
                                  DesignEffect(studentsPerTeacher, useClustering, icc),
                                  studentsPerTeacher, outcomeShare1, outcomeShare2);
  }

  /** The total follows the solver: a design whose solved per-arm student
      count is no larger asks for no more teachers.  Any monotonicity of the
      total in the effect size therefore rests on the solver's. */
  lemma SampleSizeFollowsRequiredStudents(routine1: PowerRoutine, effectSize1: real,
                                          routine2: PowerRoutine, effectSize2: real, outcomeShare: real,
                                          studentsPerTeacher: int, useClustering: bool, icc: real)
    requires 0.0 < outcomeShare && studentsPerTeacher >= 1
    requires RequiredStudents(routine1, effectSize1) <= RequiredStudents(routine2, effectSize2)
    ensures var r1 := CalculateSampleSize(routine1, effectSize1, outcomeShare, studentsPerTeacher, useClustering, icc);
            var r2 := CalculateSampleSize(routine2, effectSize2, outcomeShare, studentsPerTeacher, useClustering, icc);
            r1.Ok? && r2.Ok? && r1.value <= r2.value
  {
    var deff := DesignEffect(studentsPerTeacher, useClustering, icc);
    MulMonotone(RequiredStudents(routine1, effectSize1), RequiredStudents(routine2, effectSize2), deff);
    TeachersPerArmMonotoneInNeed(RequiredStudents(routine1, effectSize1), deff,
                                 RequiredStudents(routine2, effectSize2), deff,
                                 studentsPerTeacher, outcomeShare);
  }

  /** Over a positive denominator, the ceiling of a larger need is no smaller. */
  lemma CeilOfQuotientMonotone(need1: real, need2: real, perTeacher: real)
    requires need1 <= need2 && 0.0 < perTeacher
    ensures Ceil(need1 / perTeacher) <= Ceil(need2 / perTeacher)
  {
    DivMonotone(need1, need2, perTeacher);
    CeilMonotone(need1 / perTeacher, need2 / perTeacher);
  }

  /** Spreading a non-negative need over more students per teacher never needs more teachers. */
  lemma CeilOfQuotientAntitone(need: real, perTeacher1: real, perTeacher2: real)
    requires 0.0 <= need && 0.0 < perTeacher1 <= perTeacher2
    ensures Ceil(need / perTeacher2) <= Ceil(need / perTeacher1)
  {
    DivAntitone(need, perTeacher1, perTeacher2);
    CeilMonotone(need / perTeacher2, need / perTeacher1);
  }

  /** Feeding the fellows count back into the power calculation need not
      reproduce the solver's per-arm student count: with a solved count of
      200 students, half the teachers contributing outcomes and no clustering,
      the total is 38 teachers, so 19 fellows; but `int(19 * 0.5)` is 9
      teachers, 198 effective students, fewer than the 200 required. */
  lemma RoundTripCanFallShort(routine: PowerRoutine, effectSize: real)
    requires RequiredStudents(routine, effectSize) == 200.0
    ensures CalculateSampleSize(routine, effectSize, 0.5) == Ok(38)
    ensures PerArmOfTotal(38) == 19
    ensures EffectiveArms(19, 0.5, DefaultStudentsPerTeacher, false, 0.0) == Ok(Arms(198.0, 198.0))
    ensures 198.0 < RequiredStudents(routine, effectSize)
  {
    var q := 200.0 / 11.0;
    assert 18.0 < q < 19.0;
    assert Ceil(q) == 19;
    assert Trunc(9.5) == 9;
  }
}
