/**
 * The four parameter presets offered by the page (script.js:3-8) and what
 * their names promise about the arrangement of the isoclines.
 */
module Presets {
  import opened Competition
  import opened Integrator
  import opened Isoclines

  /** `presets.species1`: species 1 is the stronger competitor. */
  const Species1Wins: Params := Params(1.0, 1.0, 130.0, 90.0, 0.6, 1.4, 30.0, 30.0, 60.0, 0.05)

  /** `presets.species2`: species 2 is the stronger competitor. */
  const Species2Wins: Params := Params(1.0, 1.0, 90.0, 130.0, 1.4, 0.6, 30.0, 30.0, 60.0, 0.05)

  /** `presets.unstable`: strong mutual competition. */
  const Unstable: Params := Params(1.0, 1.0, 120.0, 120.0, 1.4, 1.4, 25.0, 25.0, 60.0, 0.05)

  /** `presets.stable`: weak mutual competition. */
  const Stable: Params := Params(1.0, 1.0, 120.0, 120.0, 0.7, 0.7, 25.0, 25.0, 60.0, 0.05)

  /** Every preset simulates 60 time units in steps of 0.05: 1201 samples. */
  lemma PresetsSampleCount()
    ensures StepCount(Species1Wins) == 1201 && StepCount(Species2Wins) == 1201
    ensures StepCount(Unstable) == 1201 && StepCount(Stable) == 1201
  {
    assert 60.0 / 0.05 == 1200.0;
    StepCountForOrdinaryStep(Species1Wins);
    StepCountForOrdinaryStep(Species2Wins);
    StepCountForOrdinaryStep(Unstable);
    StepCountForOrdinaryStep(Stable);
  }

  /**
   * In `species1`, species 1's isocline lies strictly above species 2's
   * over the whole range where it is non-negative: species 2 can only
   * decline where species 1 still grows.
   */
  lemma Species1WinsIsoclines(n1: real)
    requires 0.0 <= n1 <= Species1Wins.k1
    ensures Isocline1(Species1Wins, n1) > Isocline2(Species1Wins, n1)
  {
    var p := Species1Wins;
    assert Max(p.a12, Epsilon) == 0.6;
    assert Isocline1(p, n1) * 0.6 == 130.0 - n1;
  }

  /** In `species2`, species 2's isocline lies strictly above species 1's. */
  lemma Species2WinsIsoclines(n1: real)
    requires 0.0 <= n1
    ensures Isocline2(Species2Wins, n1) > Isocline1(Species2Wins, n1)
  {
    var p := Species2Wins;
    assert Max(p.a12, Epsilon) == 1.4;
    assert Isocline1(p, n1) * 1.4 == 90.0 - n1;
  }

  /**
   * In `stable` and `unstable` the isoclines cross inside the positive
   * quadrant at a coexistence equilibrium where neither species changes.
   */
  lemma CoexistenceEquilibria()
    ensures Derivatives(Stable, 1200.0 / 17.0, 1200.0 / 17.0) == Rates(0.0, 0.0)
    ensures Derivatives(Unstable, 50.0, 50.0) == Rates(0.0, 0.0)
  {
    Species1Rate(Stable, 1200.0 / 17.0, 1200.0 / 17.0);
    Species2Rate(Stable, 1200.0 / 17.0, 1200.0 / 17.0);
    Species1Rate(Unstable, 50.0, 50.0);
    Species2Rate(Unstable, 50.0, 50.0);
  }

  /**
   * In `stable` each isocline meets the other species' axis beyond the
   * other isocline (the crossing attracts); in `unstable` it is the other
   * way round (the crossing is a saddle).
   */
  lemma CoexistenceArrangement()
    ensures Isocline1(Stable, 0.0) > Isocline2(Stable, 0.0)
    ensures Isocline2(Stable, Stable.k1) > 0.0 && Isocline1(Stable, Stable.k1) == 0.0
    ensures Isocline1(Unstable, 0.0) < Isocline2(Unstable, 0.0)
    ensures Isocline2(Unstable, Unstable.k1) < 0.0 && Isocline1(Unstable, Unstable.k1) == 0.0
  {
    assert Max(Stable.a12, Epsilon) == 0.7;
    assert Max(Unstable.a12, Epsilon) == 1.4;
  }

  /**
   * The `species1` preset cut to a horizon of 1 with steps of 0.5: three
   * samples at times 0, 0.5 and 1, and after one step species 1 has grown
   * from 30 to 513/13 while species 2 has grown from 30 to 33.
   */
  lemma ShortSpecies1Run()
    ensures var p := Species1Wins.(tMax := 1.0, dt := 0.5);
            StepCount(p) == 3 && TimeStamp(p, 1) == 0.5 && TimeStamp(p, 2) == 1.0 &&
            Orbit(p, 0) == Populations(30.0, 30.0) &&
            Orbit(p, 1) == Populations(513.0 / 13.0, 33.0)
  {
    var p := Species1Wins.(tMax := 1.0, dt := 0.5);
    StepCountForOrdinaryStep(p);
    assert 1.0 / 0.5 == 2.0;
    assert Orbit(p, 1) == EulerStep(p, Initial(p));
  }
}
