/** The simulation's configuration constants. Energies, energy thresholds and
    energy rates are integers counted in tenths of an energy unit, so that the
    one-decimal values of the configuration are represented exactly. */
module Settings {

  /** Energy values are stored as this many units per energy point. */
  const ENERGY_SCALE := 10

  datatype Config = Config(
    maxPredators: int,
    maxPreys: int,
    grassGrowthRate: int,
    grassMax: int,
    grassDecreaseRate: int,
    droughtMinDuration: int,
    droughtMaxDuration: int,
    predatorHungerThreshold: int,
    preyHungerThreshold: int,
    predatorReproductionThreshold: int,
    preyReproductionThreshold: int,
    predatorInitialEnergy: int,
    preyInitialEnergy: int,
    predatorEnergyDecay: int,
    preyEnergyDecay: int,
    predatorEnergyGain: int,
    preyEnergyGain: int,
    predatorReproductionCost: int,
    preyReproductionCost: int)
  {
    /** The environment's rates and bounds make sense: grass grows and decays
        by non-negative amounts, and a drought duration can be drawn. */
    predicate EnvironmentOk() {
      grassGrowthRate >= 0 && grassDecreaseRate >= 0 && grassMax >= 0 &&
      droughtMinDuration <= droughtMaxDuration
    }

    /** A prey loses energy every tick and gains or spends non-negative amounts. */
    predicate PreyOk() {
      preyEnergyDecay > 0 && preyEnergyGain >= 0 && preyReproductionCost >= 0
    }

    /** A predator loses energy every tick and gains or spends non-negative amounts. */
    predicate PredatorOk() {
      predatorEnergyDecay > 0 && predatorEnergyGain >= 0 && predatorReproductionCost >= 0
    }
  }

  /** The values the configuration ships with. */
  function Defaults(): (c: Config)
    ensures c.EnvironmentOk() && c.PreyOk() && c.PredatorOk()
  {
    Config(
      maxPredators := 100,
      maxPreys := 200,
      grassGrowthRate := 2,
      grassMax := 500,
      grassDecreaseRate := 1,
      droughtMinDuration := 50,
      droughtMaxDuration := 150,
      predatorHungerThreshold := 75 * ENERGY_SCALE,
      preyHungerThreshold := 70 * ENERGY_SCALE,
      predatorReproductionThreshold := 120 * ENERGY_SCALE,
      preyReproductionThreshold := 100 * ENERGY_SCALE,
      predatorInitialEnergy := 1000,
      preyInitialEnergy := 950,
      predatorEnergyDecay := 5,
      preyEnergyDecay := 3,
      predatorEnergyGain := 460,
      preyEnergyGain := 400,
      predatorReproductionCost := 600,
      preyReproductionCost := 500)
  }
}
