# TeachMichigan power calculator: a Dafny model of its computational core

The TeachMichigan power calculator estimates two things for a two-arm study.
Teachers (fellows) are assigned to treatment, but outcomes are measured on
their students. The calculator gives:

- the statistical power reached with a given number of fellows per arm (`calculate_power`);
- the total number of teachers, over both equal arms, needed for 80% power (`calculate_sample_size`).

Both functions apply a cluster design effect, `deff = 1 + (students_per_teacher - 1) * icc`.
It is used only when clustering is switched on and the ICC is positive.

This project models those two functions in three modules:

- `Numeric` (`numeric.dfy`) gives Python's `int()` on a float, truncation toward zero, as `Trunc`.
  It gives `int(np.ceil(x))` as `Ceil`. It also holds the facts about real multiplication and
  division that the proofs need.
- `PowerCalculator` (`power_calculator.dfy`) holds the design-effect rule (`DesignEffect`, applied
  when `Clustered`, the source's `use_clustering and icc > 0`) and the truncation to per-arm
  teachers. It builds the effective student count of each arm and the exact question put to the
  power routine (effect size, `nobs1`, `ratio = 1`, `alpha = 0.05`, two-sided). It also holds the
  solver's answer for the sample size (`RequiredStudents`, the `tt_ind_solve_power` call), the
  ceiling's denominator (`OutcomeStudentsPerTeacher`, `students_per_teacher * outcome_share`), the
  solved-count-to-teachers ceiling and the doubling for two arms. `CalculatePower` and
  `CalculateSampleSize` keep the source's defaults: 22 students per teacher, no clustering, ICC 0.
- `PowerCalculatorProperties` (`properties.dfy`) holds the relational guarantees: monotonicity,
  bounds, the ceiling's sufficiency and minimality, and the fact that the ICC is not read when
  clustering does not apply. It also holds a counterexample showing that sample size followed by
  power is not a round trip, in which `PerArmOfTotal` is the caller's `total // 2`
  (power_calculator.py:118).

The statsmodels routines (`TTestIndPower.solve_power` and `tt_ind_solve_power`) are a parameter.
`PowerRoutine` is a pair of total functions, one per operation. The model states which arguments
each routine receives and assumes nothing about what it returns.

Python's `ZeroDivisionError`, and numpy's infinity or NaN fed to `int()`, become `Err` results:

- `ZeroDesignEffect`: the power path divides by a design effect of zero. This needs fewer than one
  student per teacher.
- `ZeroOutcomeDenominator`: the sample-size path divides by `students_per_teacher * outcome_share`
  when that product is zero.

Share, ICC and effect size are Dafny `real`s. Teacher and student counts are `int`s.

Three behaviours of the code shape the model:

- The code truncates `n_teachers * outcome_share` to an integer (power_calculator.py:11), and the
  model does too (`PerArmTeachers`).
- A zero design effect makes the power path divide by zero at line 17, and the model returns
  `Err(ZeroDesignEffect)`.
- Sample size followed by power is not a round trip: the power reached with the returned total can
  fall below the target. `RoundTripCanFallShort` gives a concrete case where the fed-back effective
  count falls below the solver's count.

## Model

| member | source | states |
|---|---|---|
| `Numeric.Trunc` | power_calculator.py:11 | `int()` on a float rounds toward zero: for a non-negative argument the result is the greatest integer not above it; for a negative argument, the least integer not below it |
| `Numeric.Ceil` | power_calculator.py:41 | `int(np.ceil(x))` is the least integer not below `x`: `x <= r < x + 1` |
| `Numeric.TruncMonotone` | power_calculator.py:11 | truncation toward zero preserves order, for arguments of either sign |
| `Numeric.CeilCovers` | power_calculator.py:41 | over a positive divisor `d`, `t = ceil(x / d)` satisfies `x <= t * d` and `(t - 1) * d < x` |
| `PowerCalculator.DesignEffect` | power_calculator.py:14-16 | the design effect is exactly 1 unless clustering is on and the ICC is positive; with at least one student per teacher it is at least 1; it exceeds 1 exactly when clustering applies and a teacher has more than one student; with an ICC of at most 1 it is at most the number of students per teacher |
| `PowerCalculator.PerArmTeachers` | power_calculator.py:11 | the per-arm count `int(n_teachers * outcome_share)` lies in `[0, n_teachers]` for a share in `[0, 1]`, and is the largest integer not above the product whenever the product is non-negative |
| `PowerCalculator.EffectiveArms` | power_calculator.py:11-21 | a fault occurs exactly when the design effect is zero; the treatment and control effective counts are equal; effective count times design effect equals per-arm teachers times students per teacher, in both branches; with at least one student per teacher there is no fault |
| `PowerCalculator.PowerQueryFor` | power_calculator.py:23-30 | the power routine is asked with the given effect size, `nobs1` equal to both arms' effective count, `ratio = 1`, `alpha = 0.05` and a two-sided alternative; it fails exactly when the effective counts fail |
| `PowerCalculator.CalculatePower` | power_calculator.py:10-31 | the power is the routine's answer to that query, and the call fails exactly when the design effect is zero |
| `PowerCalculator.SampleSizeQueryFor` | power_calculator.py:40 | the solver is asked for `nobs1` at the given effect size with `alpha = 0.05`, `power = 0.8`, `ratio = 1` and a two-sided alternative |
| `PowerCalculator.TeachersPerArm` | power_calculator.py:41 | the teachers-per-arm conversion fails, with `ZeroOutcomeDenominator`, exactly when `students_per_teacher * outcome_share` is zero; over a positive denominator `d` the count `t` covers the need, `n * deff <= t * d`, and is the least that does, `(t - 1) * d < n * deff` |
| `PowerCalculator.CalculateSampleSize` | power_calculator.py:33-42 | the total fails exactly when `students_per_teacher * outcome_share` is zero; otherwise it is even, and halving it (the caller's `// 2`) gives back exactly the ceiling-derived teachers per arm |
| `PowerCalculatorProperties.EffectiveIsNominalOverDesignEffect` | power_calculator.py:16-21 | with at least one student per teacher, the effective count is the nominal count `n_treatment * students_per_teacher` divided by the design effect |
| `PowerCalculatorProperties.DesignEffectMonotoneInIcc` | power_calculator.py:14-16 | with at least one student per teacher, a larger ICC never gives a smaller design effect |
| `PowerCalculatorProperties.DesignEffectStrictlyIncreasingInIcc` | power_calculator.py:14-16 | with clustering on and more than one student per teacher, the design effect grows strictly with the ICC once the larger ICC is positive |
| `PowerCalculatorProperties.UnclusteredIgnoresIcc` | power_calculator.py:14-21 | when clustering is off or the ICC is not positive, the effective arms are exactly the nominal count, and the power does not depend on the ICC or the clustering flag |
| `PowerCalculatorProperties.NominalNonNegative` | power_calculator.py:11-12 | for non-negative teachers and share, the per-arm teacher count and the nominal student count are non-negative |
| `PowerCalculatorProperties.EffectiveCountBounds` | power_calculator.py:16-21 | for a non-negative design, the effective count lies between 0 and the unclustered count `n_treatment * students_per_teacher` |
| `PowerCalculatorProperties.EffectiveCountAtLeastTeachers` | power_calculator.py:16-17 | with an ICC of at most 1, the effective count is at least the number of per-arm teachers |
| `PowerCalculatorProperties.NominalPerTeacher` | power_calculator.py:20 | the nominal count divided by the students per teacher is the per-arm teacher count |
| `PowerCalculatorProperties.EffectiveCountNonIncreasingInIcc` | power_calculator.py:14-17 | a larger ICC never gives a larger effective count |
| `PowerCalculatorProperties.EffectiveCountNonDecreasingInTeachers` | power_calculator.py:11-21 | more fellows never give a smaller effective count |
| `PowerCalculatorProperties.EffectiveCountNonDecreasingInShare` | power_calculator.py:11-21 | a larger outcome share never gives a smaller effective count |
| `PowerCalculatorProperties.NominalMonotone` | power_calculator.py:11 | a design with a smaller teacher-times-share product has no larger nominal count |
| `PowerCalculatorProperties.EffectiveOrderedByNominal` | power_calculator.py:16-21 | under the same clustering settings, the effective counts keep the order of the nominal counts |
| `PowerCalculatorProperties.OutcomeStudentsPositive` | power_calculator.py:41 | with a positive share and at least one student per teacher, the ceiling's denominator is positive |
| `PowerCalculatorProperties.OutcomeStudentsMonotone` | power_calculator.py:41 | a larger share never gives a smaller denominator |
| `PowerCalculatorProperties.TeachersPerArmAntitoneInShare` | power_calculator.py:41 | for a non-negative need, a larger share never gives more teachers per arm |
| `PowerCalculatorProperties.TeachersPerArmMonotoneInNeed` | power_calculator.py:41 | a larger `n * deff` never gives fewer teachers per arm |
| `PowerCalculatorProperties.SampleSizeClosedForm` | power_calculator.py:33-42 | the total is `2 * ceil(n * deff / (students_per_teacher * outcome_share))`, where `n` is the solved count |
| `PowerCalculatorProperties.SampleSizeCoversRequirement` | power_calculator.py:36-41 | with a positive share, half the total is the least number of teachers per arm whose outcome students cover `n * deff` |
| `PowerCalculatorProperties.SampleSizeNonNegative` | power_calculator.py:40-42 | a non-negative solved count gives a non-negative total; a positive one gives at least 2 |
| `PowerCalculatorProperties.SampleSizeNonDecreasingInIcc` | power_calculator.py:34-41 | a larger ICC never asks for fewer teachers |
| `PowerCalculatorProperties.SampleSizeNonIncreasingInShare` | power_calculator.py:41 | a larger outcome share never asks for more teachers |
| `PowerCalculatorProperties.SampleSizeFollowsRequiredStudents` | power_calculator.py:40-41 | the total is monotone in the solver's count, so any monotonicity of the total in the effect size comes from the solver |
| `PowerCalculatorProperties.CeilOfQuotientMonotone` | power_calculator.py:41 | over a positive denominator, the ceiling of a larger need is no smaller |
| `PowerCalculatorProperties.CeilOfQuotientAntitone` | power_calculator.py:41 | a non-negative need spread over a larger positive denominator has no larger ceiling |
| `PowerCalculatorProperties.RoundTripCanFallShort` | power_calculator.py:11-21 | with a solved count of 200, share 0.5, 22 students per teacher and no clustering: the total is 38, so 19 fellows; fed back, these give 9 teachers per arm and 198 effective students, fewer than 200 |

## Left out

- The Streamlit page: configuration, text, radios, sliders, markdown and the coloured table (power_calculator.py:1-8, 44-100, 106-127). It is presentation and widget state. Its one effect on the core is to pass `icc = 0` when clustering is off, which `UnclusteredIgnoresIcc` shows makes no difference.
- The effect-size sweep over `np.arange(0.03, 0.25, 0.03)` and its `results` list (power_calculator.py:102-105). Each step is an independent call of `CalculatePower` with shared design parameters. The floating-point stepping is not modelled.
- The noncentral-t internals of `solve_power` and `tt_ind_solve_power`. They are the two arrow-typed fields of `PowerRoutine`. The model proves nothing about power values: not the range [0, 1], not monotonicity in effect size or sample size, and not convergence.
- `PowerCalculator.CalculateSampleSize`: cannot represent a solver answer that is NaN or infinite, on which `int(np.ceil(...))` raises at power_calculator.py:41; `solveNobs1` always returns a real, so that error path is not reachable in the model.
- `PowerCalculator.CalculatePower`: does not flag a solver that fails or returns an implausible value. The source neither checks nor reports one.
- IEEE floating-point rounding. Shares, ICCs, effect sizes and the effective counts are exact reals. So `int()` and `np.ceil` act on exact values, and a float product that lands just beside an integer may truncate or round up differently in the source.
- Python's distinction between an integer and a float effective count in the unclustered branch (power_calculator.py:20-21). Both are the same real number in the model.
- The exact exception the source raises on a zero denominator depends on whether the solver returns a Python or a numpy float: a `ZeroDivisionError`, or infinity or NaN followed by an error from `int()`. The model collapses these into one `Err(ZeroOutcomeDenominator)`.
