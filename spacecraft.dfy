/** The classical half of the thrust optimisation: a linear spacecraft
    dynamics step, the objective (total fuel) and the equality constraint
    (final velocity minus its target) that the constrained minimiser is
    given as callbacks. Quantities are exact reals. */
module Spacecraft {
  import opened Sums

  /** The module-level settings the dynamics and the two callbacks read. */
  datatype Config = Config(initialVelocity: real, desiredFinalVelocity: real, fuelConsumptionRate: real)

  /** The values the program is configured with. */
  const Configured := Config(initialVelocity := 0.0, desiredFinalVelocity := 10.0, fuelConsumptionRate := 0.01)

  /** Number of discrete time steps, i.e. the length of a thrust sequence. */
  const NumTimeSteps: nat := 10

  /** Box bounds the minimiser places on every thrust. */
  const ThrustLowerBound: real := 0.0
  const ThrustUpperBound: real := 1.0

  /** Result of one dynamics step. */
  datatype StepResult = StepResult(newVelocity: real, fuelConsumed: real)

  /** The two locals the loops carry: velocity and fuel consumed so far. */
  datatype State = State(velocity: real, fuel: real)

  /** One time step: the thrust is the acceleration, and fuel use is the
      rate times the thrust, with no clamping of a negative thrust. */
  function Step(cfg: Config, velocity: real, thrust: real): (r: StepResult)
    ensures r.newVelocity - velocity == thrust
    ensures r.fuelConsumed == cfg.fuelConsumptionRate * thrust
    ensures cfg.fuelConsumptionRate > 0.0 ==> (r.fuelConsumed < 0.0 <==> thrust < 0.0)
  {
    var acceleration := thrust;
    StepResult(velocity + acceleration, cfg.fuelConsumptionRate * thrust)
  }

  /** The state after stepping through `thrusts` in order from the initial
      velocity with no fuel used; it has a closed form in the thrust sum. */
  function Trajectory(cfg: Config, thrusts: seq<real>): (r: State)
    ensures r.velocity == cfg.initialVelocity + Sum(thrusts)
    ensures r.fuel == cfg.fuelConsumptionRate * Sum(thrusts)
  {
    if thrusts == [] then State(cfg.initialVelocity, 0.0)
    else
      var prev := Trajectory(cfg, thrusts[..|thrusts| - 1]);
      var step := Step(cfg, prev.velocity, thrusts[|thrusts| - 1]);
      State(step.newVelocity, prev.fuel + step.fuelConsumed)
  }

  /** Objective value: total fuel consumed over the sequence. */
  function TotalFuel(cfg: Config, thrusts: seq<real>): (r: real)
    ensures r == cfg.fuelConsumptionRate * Sum(thrusts)
    ensures thrusts == [] ==> r == 0.0
  {
    Trajectory(cfg, thrusts).fuel
  }

  /** Equality-constraint residual: final velocity minus the target. */
  function VelocityResidual(cfg: Config, thrusts: seq<real>): (r: real)
    ensures r == cfg.initialVelocity + Sum(thrusts) - cfg.desiredFinalVelocity
    ensures thrusts == [] ==> r == cfg.initialVelocity - cfg.desiredFinalVelocity
  {
    Trajectory(cfg, thrusts).velocity - cfg.desiredFinalVelocity
  }

  /** The objective callback, stepping through the sequence in a loop. */
  method ObjectiveFunction(cfg: Config, thrusts: seq<real>) returns (totalFuel: real)
    ensures totalFuel == TotalFuel(cfg, thrusts)
    ensures totalFuel == cfg.fuelConsumptionRate * Sum(thrusts)
  {
    totalFuel := 0.0;
    var velocity := cfg.initialVelocity;
    for i := 0 to |thrusts|
      invariant State(velocity, totalFuel) == Trajectory(cfg, thrusts[..i])
    {
      assert thrusts[..i + 1][..i] == thrusts[..i];
      var step := Step(cfg, velocity, thrusts[i]);
      velocity := step.newVelocity;
      totalFuel := totalFuel + step.fuelConsumed;
    }
    assert thrusts[..|thrusts|] == thrusts;
  }

  /** The constraint callback, stepping through the sequence in a loop. */
  method FinalVelocityConstraint(cfg: Config, thrusts: seq<real>) returns (residual: real)
    ensures residual == VelocityResidual(cfg, thrusts)
    ensures residual == cfg.initialVelocity + Sum(thrusts) - cfg.desiredFinalVelocity
  {
    var velocity := cfg.initialVelocity;
    for i := 0 to |thrusts|
      invariant velocity == Trajectory(cfg, thrusts[..i]).velocity
    {
      assert thrusts[..i + 1][..i] == thrusts[..i];
      var step := Step(cfg, velocity, thrusts[i]);
      velocity := step.newVelocity;
    }
    assert thrusts[..|thrusts|] == thrusts;
    residual := velocity - cfg.desiredFinalVelocity;
  }

  /** No fuel is used by an empty plan, and with a non-negative rate no
      plan of non-negative thrusts has a negative objective. */
  lemma ObjectiveNonNegative(cfg: Config, thrusts: seq<real>)
    requires cfg.fuelConsumptionRate >= 0.0
    requires forall i :: 0 <= i < |thrusts| ==> 0.0 <= thrusts[i]
    ensures TotalFuel(cfg, thrusts) >= 0.0
    ensures thrusts == [] ==> TotalFuel(cfg, thrusts) == 0.0
  {
    SumNonNegative(thrusts);
  }

  /** Appending a thrust adds exactly rate * thrust to the objective and
      leaves the velocity raised by the thrust; with a non-negative rate and
      thrust the objective never decreases. */
  lemma ObjectiveAppend(cfg: Config, thrusts: seq<real>, thrust: real)
    ensures TotalFuel(cfg, thrusts + [thrust]) == TotalFuel(cfg, thrusts) + cfg.fuelConsumptionRate * thrust
    ensures VelocityResidual(cfg, thrusts + [thrust]) == VelocityResidual(cfg, thrusts) + thrust
    ensures cfg.fuelConsumptionRate >= 0.0 && thrust >= 0.0 ==>
              TotalFuel(cfg, thrusts + [thrust]) >= TotalFuel(cfg, thrusts)
  {
  }

  /** With the configured settings an all-zero plan misses the target
      velocity by exactly -10. */
  lemma ResidualOfZeroThrust(thrusts: seq<real>)
    requires forall i :: 0 <= i < |thrusts| ==> thrusts[i] == 0.0
    ensures VelocityResidual(Configured, thrusts) == -10.0
    ensures TotalFuel(Configured, thrusts) == 0.0
  {
    SumOfZeros(thrusts);
  }

  /** Objective and residual depend only on the multiset of thrusts. */
  lemma OrderIrrelevant(cfg: Config, thrusts: seq<real>, reordered: seq<real>)
    requires multiset(thrusts) == multiset(reordered)
    ensures TotalFuel(cfg, thrusts) == TotalFuel(cfg, reordered)
    ensures VelocityResidual(cfg, thrusts) == VelocityResidual(cfg, reordered)
  {
    SumPermutation(thrusts, reordered);
  }

  /** A thrust sequence the minimiser may consider: one thrust per time
      step, each within the box bounds. The total thrust of such a sequence
      lies between 0 and the number of time steps. */
  predicate WithinBounds(thrusts: seq<real>): (r: bool)
    ensures r ==> |thrusts| == NumTimeSteps && 0.0 <= Sum(thrusts) <= NumTimeSteps as real
  {
    if |thrusts| == NumTimeSteps &&
       forall i :: 0 <= i < |thrusts| ==> ThrustLowerBound <= thrusts[i] <= ThrustUpperBound
    then
      SumOfUnitInterval(thrusts);
      true
    else
      false
  }

  /** Full thrust at every time step. */
  const FullThrust: seq<real> := seq(NumTimeSteps, _ => 1.0)

  /** Under the configured bounds the target velocity can at best be met:
      the residual is never positive, it is zero exactly for full thrust at
      every step, and that one feasible plan uses 0.1 units of fuel. */
  lemma FeasibleOnlyAtFullThrust(thrusts: seq<real>)
    requires WithinBounds(thrusts)
    ensures VelocityResidual(Configured, thrusts) <= 0.0
    ensures VelocityResidual(Configured, thrusts) == 0.0 <==> thrusts == FullThrust
    ensures VelocityResidual(Configured, thrusts) == 0.0 ==> TotalFuel(Configured, thrusts) == 0.1
  {
    SumOfUnitInterval(thrusts);
    if thrusts == FullThrust {
      assert forall i :: 0 <= i < |thrusts| ==> thrusts[i] == 1.0;
    }
  }
}
