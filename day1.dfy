/** Day 1: the fuel a module of a given mass needs, and the fuel that fuel
    needs in turn. */
module Day1 {

  /** `fuel_for_mass(mass)`: a third of the mass, rounded down, less two.
      Ruby's `Integer#/` rounds towards negative infinity, as Dafny's `/`
      does for a positive divisor. */
  function FuelForMass(mass: int): (fuel: int)
    ensures 3 * (fuel + 2) <= mass < 3 * (fuel + 3)
  {
    mass / 3 - 2
  }

  /** Fuel for a positive amount of fuel is less than that amount, which is
      why the loop of `fuel_for_mass_recursive` ends. */
  lemma FuelShrinks(x: int)
    requires x > 0
    ensures FuelForMass(x) < x
  {
  }

  /** The fuel that `extra` of fuel needs, then the fuel for that, and so on,
      summed up to the first amount that is not positive. */
  function ExtraFuel(extra: int): int
    decreases if extra > 0 then extra else 0
  {
    if extra <= 0 then 0 else extra + ExtraFuel(FuelForMass(extra))
  }

  /** `fuel_for_mass_recursive(mass)` */
  method FuelForMassRecursive(mass: int) returns (fuel: int)
    ensures fuel == FuelForMass(mass) + ExtraFuel(FuelForMass(FuelForMass(mass)))
  {
    fuel := FuelForMass(mass);
    var extra := FuelForMass(fuel);
    while extra > 0
      invariant fuel + ExtraFuel(extra) == FuelForMass(mass) + ExtraFuel(FuelForMass(FuelForMass(mass)))
      decreases extra
    {
      fuel := fuel + extra;
      extra := FuelForMass(extra);
    }
  }

  /** What the iteration adds is never negative, is nothing exactly when the
      first extra amount is not positive, and is at most half as much again
      as that amount. */
  lemma {:induction false} ExtraFuelBounds(extra: int)
    ensures ExtraFuel(extra) >= 0
    ensures ExtraFuel(extra) == 0 <==> extra <= 0
    ensures extra > 0 ==> extra <= ExtraFuel(extra) && 2 * ExtraFuel(extra) <= 3 * extra
    decreases if extra > 0 then extra else 0
  {
    if extra > 0 {
      ExtraFuelBounds(FuelForMass(extra));
    }
  }

  /** The recursive total is never below the plain fuel, and equals it
      when the fuel for the fuel is not positive. */
  lemma RecursiveAtLeastPlain(mass: int)
    ensures var total := FuelForMass(mass) + ExtraFuel(FuelForMass(FuelForMass(mass)));
      && total >= FuelForMass(mass)
      && (total == FuelForMass(mass) <==> FuelForMass(FuelForMass(mass)) <= 0)
  {
    ExtraFuelBounds(FuelForMass(FuelForMass(mass)));
  }
}
