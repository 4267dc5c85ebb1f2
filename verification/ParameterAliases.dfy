/** Calibration parameters that exist twice, as scalars and inside configuration sections, and the
    synchronization that keeps the two in step.  Values are canonical texts. */
module ParameterAliases {

  datatype Geometry = Geometry(width: string, height: string, contactRadius: string)
  datatype Production = Production(perFarmer: string, startingFood: string)
  datatype Conversion = Conversion(perUnit: string, recruitCost: string)
  datatype Coefficients = Coefficients(attack: string, defense: string, terrain: string, draw: string)

  // configuration sections; `rest` is what no scalar parameter duplicates
  datatype MapSection = MapSection(width: string, height: string, contactRadius: string, rest: string)
  datatype EconomySection = EconomySection(startingFood: string, perFarmer: string, perCitizen: string, credits: string, rest: string)
  datatype PopulationSection = PopulationSection(unitSize: string, recruitCost: string, rest: string)
  datatype CombatSection = CombatSection(attack: string, defense: string, terrain: string, draw: string, rest: string)
  datatype MemorySection = MemorySection(capacity: string, rest: string)
  datatype PhasesSection = PhasesSection(actionBudget: string, rest: string)

  datatype Vector = Vector(geometry: Geometry, mapSection: MapSection,
                           production: Production, consumption: string, credits: string, economy: EconomySection,
                           conversion: Conversion, population: PopulationSection,
                           coefficients: Coefficients, combat: CombatSection,
                           capacity: string, memory: MemorySection, budget: string, phases: PhasesSection,
                           others: map<string, string>)

  /** An operation gives one registered parameter a new value. */
  datatype Change =
    | SetGeometry(geometry: Geometry) | SetMap(mapSection: MapSection)
    | SetProduction(production: Production) | SetConsumption(text: string) | SetCredits(text: string) | SetEconomy(economy: EconomySection)
    | SetConversion(conversion: Conversion) | SetPopulation(population: PopulationSection)
    | SetCoefficients(coefficients: Coefficients) | SetCombat(combat: CombatSection)
    | SetCapacity(text: string) | SetMemory(memory: MemorySection)
    | SetBudget(text: string) | SetPhases(phases: PhasesSection)
    | SetOther(name: string, text: string) | Baseline

  /** The equations a parameter set is validated against. */
  predicate Aliased(v: Vector) {
    && v.mapSection.width == v.geometry.width && v.mapSection.height == v.geometry.height
    && v.mapSection.contactRadius == v.geometry.contactRadius
    && v.economy.startingFood == v.production.startingFood && v.economy.perFarmer == v.production.perFarmer
    && v.economy.perCitizen == v.consumption && v.economy.credits == v.credits
    && v.population.unitSize == v.conversion.perUnit && v.population.recruitCost == v.conversion.recruitCost
    && v.combat.attack == v.coefficients.attack && v.combat.defense == v.coefficients.defense
    && v.combat.terrain == v.coefficients.terrain && v.combat.draw == v.coefficients.draw
    && v.memory.capacity == v.capacity && v.phases.actionBudget == v.budget
  }

  /** The parameter alone, before synchronization. */
  function Assign(v: Vector, c: Change): Vector {
    match c
    case SetGeometry(x) => v.(geometry := x)
    case SetMap(x) => v.(mapSection := x)
    case SetProduction(x) => v.(production := x)
    case SetConsumption(x) => v.(consumption := x)
    case SetCredits(x) => v.(credits := x)
    case SetEconomy(x) => v.(economy := x)
    case SetConversion(x) => v.(conversion := x)
    case SetPopulation(x) => v.(population := x)
    case SetCoefficients(x) => v.(coefficients := x)
    case SetCombat(x) => v.(combat := x)
    case SetCapacity(x) => v.(capacity := x)
    case SetMemory(x) => v.(memory := x)
    case SetBudget(x) => v.(budget := x)
    case SetPhases(x) => v.(phases := x)
    case SetOther(name, x) => v.(others := v.others[name := x])
    case Baseline => v
  }

  /** Parameters that neither c sets nor duplicates of what c sets are as before. */
  predicate Untouched(v: Vector, w: Vector, c: Change) {
    && (!c.SetGeometry? && !c.SetMap? ==> w.geometry == v.geometry)
    && (!c.SetProduction? && !c.SetEconomy? ==> w.production == v.production)
    && (!c.SetConsumption? && !c.SetEconomy? ==> w.consumption == v.consumption)
    && (!c.SetCredits? && !c.SetEconomy? ==> w.credits == v.credits)
    && (!c.SetConversion? && !c.SetPopulation? ==> w.conversion == v.conversion)
    && (!c.SetCoefficients? && !c.SetCombat? ==> w.coefficients == v.coefficients)
    && (!c.SetCapacity? && !c.SetMemory? ==> w.capacity == v.capacity)
    && (!c.SetBudget? && !c.SetPhases? ==> w.budget == v.budget)
    && (!c.SetMap? ==> w.mapSection.rest == v.mapSection.rest) && (!c.SetEconomy? ==> w.economy.rest == v.economy.rest)
    && (!c.SetPopulation? ==> w.population.rest == v.population.rest) && (!c.SetCombat? ==> w.combat.rest == v.combat.rest)
    && (!c.SetMemory? ==> w.memory.rest == v.memory.rest) && (!c.SetPhases? ==> w.phases.rest == v.phases.rest)
    && (if c.SetOther? then w.others == v.others[c.name := c.text] else w.others == v.others)
  }

  /** Whether w holds what c set. */
  predicate Holds(w: Vector, c: Change) { Assign(w, c) == w }

  /** Applying an operation and synchronizing: all equations hold again, the new value is in place, and
      nothing outside its group moved. */
  method ApplyOperation(v: Vector, c: Change) returns (next: Vector)
    requires Aliased(v)
    ensures Aliased(next) && Holds(next, c) && Untouched(v, next, c)
  {
    next := Assign(v, c);
    if c.SetGeometry? {
      next := next.(mapSection := next.mapSection.(width := c.geometry.width, height := c.geometry.height, contactRadius := c.geometry.contactRadius));
    }
    if c.SetMap? {
      next := next.(geometry := Geometry(c.mapSection.width, c.mapSection.height, c.mapSection.contactRadius));
    }
    if c.SetProduction? || c.SetConsumption? || c.SetCredits? {
      next := next.(economy := next.economy.(startingFood := next.production.startingFood, perFarmer := next.production.perFarmer,
                                             perCitizen := next.consumption, credits := next.credits));
    }
    if c.SetEconomy? {
      next := next.(production := Production(c.economy.perFarmer, c.economy.startingFood));
      next := next.(consumption := c.economy.perCitizen, credits := c.economy.credits);
    }
    if c.SetConversion? {
      next := next.(population := next.population.(unitSize := c.conversion.perUnit, recruitCost := c.conversion.recruitCost));
    }
    if c.SetPopulation? {
      next := next.(conversion := Conversion(c.population.unitSize, c.population.recruitCost));
    }
    if c.SetCoefficients? {
      next := next.(combat := next.combat.(attack := c.coefficients.attack, defense := c.coefficients.defense,
                                           terrain := c.coefficients.terrain, draw := c.coefficients.draw));
    }
    if c.SetCombat? {
      next := next.(coefficients := Coefficients(c.combat.attack, c.combat.defense, c.combat.terrain, c.combat.draw));
    }
    if c.SetCapacity? { next := next.(memory := next.memory.(capacity := c.text)); }
    if c.SetMemory? { next := next.(capacity := c.memory.capacity); }
    if c.SetBudget? { next := next.(phases := next.phases.(actionBudget := c.text)); }
    if c.SetPhases? { next := next.(budget := c.phases.actionBudget); }
  }

  /** The three conditions leave only one result. */
  lemma {:induction false} SynchronizationDetermined(v: Vector, c: Change, w: Vector, x: Vector)
    requires Aliased(w) && Holds(w, c) && Untouched(v, w, c) && Aliased(x) && Holds(x, c) && Untouched(v, x, c)
    ensures w == x
  {
    assert w.mapSection == x.mapSection && w.economy == x.economy && w.population == x.population;
    assert w.combat == x.combat && w.memory == x.memory && w.phases == x.phases;
  }

  /** Every vector a search visits from an aliased start is aliased. */
  method Search(start: Vector, changes: seq<Change>) returns (visited: seq<Vector>)
    requires Aliased(start)
    ensures |visited| == |changes| + 1 && visited[0] == start
    ensures forall i :: 0 <= i < |visited| ==> Aliased(visited[i])
    ensures forall i :: 0 <= i < |changes| ==> Holds(visited[i + 1], changes[i]) && Untouched(visited[i], visited[i + 1], changes[i])
  {
    hide Aliased, Holds, Untouched;
    visited := [start];
    for i := 0 to |changes|
      invariant |visited| == i + 1 && visited[0] == start
      invariant forall k :: 0 <= k < |visited| ==> Aliased(visited[k])
      invariant forall k :: 0 <= k < i ==> Holds(visited[k + 1], changes[k]) && Untouched(visited[k], visited[k + 1], changes[k])
    {
      var next := ApplyOperation(visited[i], changes[i]);
      visited := visited + [next];
    }
  }
}
