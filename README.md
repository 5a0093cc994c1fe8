# QKD-QAOA: the classical thrust optimisation, in Dafny

The repository pairs a simulated QAOA circuit with a classical constrained
minimiser that plans a spacecraft's thrust over `num_time_steps = 10` time
steps. This project models the classical half of `QAOA.py`:

- the dynamics step `spacecraft_dynamics`: velocity grows by the thrust,
  and fuel use is `fuel_consumption_rate` times the thrust;
- the objective callback `objective_function`: total fuel over a thrust
  sequence, accumulated in a loop;
- the equality-constraint callback `final_velocity_constraint`: final
  velocity minus `desired_final_velocity`, also computed in a loop;
- the configured constants and the `[0, 1]` box bounds on every thrust;
- the seed pick `counts.most_common(1)[0][0]`: an arg-max over the
  measurement histogram.

Layout:

- `sums.dfy` (module `Sums`): `Sum`, a left fold of `+` over a sequence,
  and its lemmas (concatenation, permutation, sign, the `[0, 1]` bound).
- `spacecraft.dfy` (module `Spacecraft`): the configuration record and
  constants, `Step`, and the recursive specification `Trajectory`. It holds
  the two loop methods `ObjectiveFunction` and `FinalVelocityConstraint`,
  which are proved equal to `Trajectory` and to the closed forms. It also
  holds the lemmas about the objective and the constraint.
- `seed.dfy` (module `Seed`): the histogram type and the `MostCommon`
  method.

The module-level globals of `QAOA.py` become a `Config` record passed to
every operation. `Configured` holds the program's values: initial velocity
0, target 10, rate 0.01. Floats are modelled as exact reals. The source only
adds and scales by a constant, so exact arithmetic states what it intends.

Two choices in `Seed` follow from how the histogram is built:

- `Seed.Histogram` is keyed by `nat` because the histogram is a `Counter`
  keyed by the measured bits folded into one integer. `most_common(1)`
  breaks ties by insertion order, so `MostCommon` promises only the arg-max
  property. Among tied outcomes it may return any one of them.
- On an empty histogram `most_common(1)[0]` raises `IndexError`; the model
  returns `None`.

## Model

| member | source | states |
|---|---|---|
| `Spacecraft.Step` | QAOA.py:16-20 | The new velocity exceeds the old by exactly the thrust (thrust is the acceleration). Fuel is rate × thrust. With a positive rate, fuel is negative exactly when the thrust is negative, so there is no clamping. |
| `Spacecraft.Trajectory` | QAOA.py:24-28 | Stepping through the sequence from the initial velocity with zero fuel gives velocity = initial + Σ thrust and fuel = rate × Σ thrust. |
| `Spacecraft.TotalFuel` | QAOA.py:23-29 | The objective value of a sequence is rate × Σ thrust, and 0 for the empty sequence. |
| `Spacecraft.VelocityResidual` | QAOA.py:32-36 | The constraint value of a sequence is initial + Σ thrust − target, and initial − target for the empty sequence. |
| `Spacecraft.WithinBounds` | QAOA.py:39-41 | A sequence within the bounds has one thrust per time step (10), each in [0, 1]. Its total thrust then lies between 0 and 10. |
| `Spacecraft.ObjectiveFunction` | QAOA.py:23-29 | The loop returns the total fuel of the specification fold, which equals rate × Σ thrust. Invariant: after i steps, (velocity, fuel) is the fold of the first i thrusts. |
| `Spacecraft.FinalVelocityConstraint` | QAOA.py:32-36 | The loop returns final velocity − target of the specification fold, which equals initial + Σ thrust − target. Invariant: after i steps, velocity is the fold of the first i thrusts. |
| `Spacecraft.ObjectiveNonNegative` | QAOA.py:13-29 | With rate ≥ 0 and every thrust ≥ 0, the objective is ≥ 0. The empty sequence costs 0. |
| `Spacecraft.ObjectiveAppend` | QAOA.py:26-28 | Appending thrust t raises the objective by exactly rate × t and the residual by t. With rate ≥ 0 and t ≥ 0, the objective never decreases. |
| `Spacecraft.ResidualOfZeroThrust` | QAOA.py:32-36 | With the configured constants, any all-zero thrust sequence has residual 0 + 0 − 10 = −10 and uses no fuel. |
| `Spacecraft.OrderIrrelevant` | QAOA.py:16-36 | Two sequences that are permutations of each other have the same objective and the same residual. |
| `Spacecraft.FeasibleOnlyAtFullThrust` | QAOA.py:39-42 | Take 10 thrusts, each within the bounds [0, 1]. The residual is ≤ 0. It is 0 exactly when every thrust is 1, so full thrust is the only point meeting the equality constraint, and that point uses 0.1 fuel. |
| `Seed.MostCommon` | QAOA.py:86 | On a non-empty histogram, returns an outcome present in it whose count is ≥ every other outcome's count. On an empty histogram, returns `None`, where the source's index fails. |
| `Sums.SumPermutation` | QAOA.py:26-28 | The sum accumulated over the loop does not depend on the order of the thrusts. |
| `Sums.SumOfUnitInterval` | QAOA.py:41 | Values in [0, 1] sum to at most their count. They reach that count exactly when all of them are 1. |

## Left out

- `QKD.py`: a separate entangled-pair demonstration. It shares no data with the optimiser and consists of circuit-library calls and a random basis choice.
- QAOA circuit construction (`QAOA.py:44-78`): its meaning lies entirely in the circuit library's gate and Pauli-sum semantics and in unbound symbolic parameters.
- Quantum sampling and histogram building (`QAOA.py:80-83`): this is a stochastic simulation inside a library. The histogram reaches the model only as a map from outcome to count.
- The constrained minimiser (`QAOA.py:87`): an opaque numerical library routine. Only its objective and constraint callbacks and its bounds are modelled. A consequence is not modelled either: the seed from line 86 is a single integer, while ten bounds are given, so the minimiser receives an initial guess of the wrong dimension. Whether the library accepts that is outside this model.
- `Seed.MostCommon`: does not fix which of several tied outcomes is returned, because the source's choice follows the counter's insertion order, which depends on the sampling.
- IEEE floating-point rounding: all quantities are exact reals.
- `time_duration` (`QAOA.py:10`): it is defined but never read.
- Printing of results (`QAOA.py:89-93`).
