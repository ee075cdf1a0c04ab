/**
 * One ant farm of the simulation (class AntFarm of main.cpp): a species name
 * and two integer counters, food and workers, both zero when the farm is built.
 * A tick lets every worker gather FoodPerWorker units of food; giving a
 * resource adds to the counter of that name, and names other than "food" and
 * "workers" are ignored.
 */
module Farms {

  /** Food gathered by one worker in one tick. */
  const FoodPerWorker: int := 10

  /** The value held by an AntFarm object. */
  datatype Farm = Farm(species: string, food: int, workers: int)

  /** A freshly built farm of the given species. */
  function NewFarm(species: string): Farm {
    Farm(species, 0, 0)
  }

  /** One tick of a farm. */
  function TickFarm(f: Farm): Farm {
    f.(food := f.food + FoodPerWorker * f.workers)
  }

  /** n ticks of a farm, one after the other. */
  function TickFarmN(f: Farm, n: nat): Farm {
    if n == 0 then f else TickFarm(TickFarmN(f, n - 1))
  }

  /** Adding amount of the named resource to a farm. */
  function GiveFarm(f: Farm, resource: string, amount: int): Farm {
    if resource == "food" then f.(food := f.food + amount)
    else if resource == "workers" then f.(workers := f.workers + amount)
    else f
  }

  /** A tick changes only the food counter, by ten per worker. */
  lemma TickFarmEffect(f: Farm)
    ensures TickFarm(f).species == f.species
    ensures TickFarm(f).workers == f.workers
    ensures TickFarm(f).food - f.food == 10 * f.workers
  {
  }

  /** n ticks add ten units of food per worker and per tick, and nothing else. */
  lemma {:induction false} TickFarmNClosedForm(f: Farm, n: nat)
    ensures TickFarmN(f, n) == Farm(f.species, f.food + FoodPerWorker * n * f.workers, f.workers)
  {
    if n > 0 {
      TickFarmNClosedForm(f, n - 1);
      assert FoodPerWorker * (n - 1) * f.workers + FoodPerWorker * f.workers
          == FoodPerWorker * n * f.workers;
    }
  }

  /** Ticking a ticks and then b ticks is ticking a + b ticks. */
  lemma {:induction false} TickFarmNAdditive(f: Farm, a: nat, b: nat)
    ensures TickFarmN(TickFarmN(f, a), b) == TickFarmN(f, a + b)
  {
    if b > 0 {
      TickFarmNAdditive(f, a, b - 1);
    }
  }

  /** "food" changes only food, "workers" changes only workers, any other name changes nothing. */
  lemma GiveFarmEffect(f: Farm, resource: string, amount: int)
    ensures GiveFarm(f, resource, amount).species == f.species
    ensures resource == "food" ==>
      GiveFarm(f, resource, amount).food == f.food + amount
      && GiveFarm(f, resource, amount).workers == f.workers
    ensures resource == "workers" ==>
      GiveFarm(f, resource, amount).workers == f.workers + amount
      && GiveFarm(f, resource, amount).food == f.food
    ensures resource != "food" && resource != "workers" ==> GiveFarm(f, resource, amount) == f
  {
  }

  /** Repeated gifts of one resource accumulate additively. */
  lemma GiveFarmAccumulates(f: Farm, resource: string, a: int, b: int)
    ensures GiveFarm(GiveFarm(f, resource, a), resource, b) == GiveFarm(f, resource, a + b)
  {
  }

  /** The order of two gifts does not matter. */
  lemma GiveFarmCommutes(f: Farm, r1: string, a: int, r2: string, b: int)
    ensures GiveFarm(GiveFarm(f, r1, a), r2, b) == GiveFarm(GiveFarm(f, r2, b), r1, a)
  {
  }

  /** A gift of amount is undone by a gift of -amount. */
  lemma GiveFarmInverse(f: Farm, resource: string, amount: int)
    ensures GiveFarm(GiveFarm(f, resource, amount), resource, -amount) == f
  {
  }

  /** An ant farm object whose counters are updated in place. */
  class AntFarm {
    const species: string
    var food: int
    var workers: int

    /** The farm's current value. */
    function Model(): Farm
      reads this
    {
      Farm(species, food, workers)
    }

    constructor (species: string)
      ensures Model() == NewFarm(species)
      ensures this.species == species && food == 0 && workers == 0
    {
      this.species := species;
      food := 0;
      workers := 0;
    }

    method Tick()
      modifies this
      ensures Model() == TickFarm(old(Model()))
      ensures food == old(food) + FoodPerWorker * old(workers) && workers == old(workers)
    {
      food := food + workers * FoodPerWorker;
    }

    method GiveResource(resource: string, amount: int)
      modifies this
      ensures Model() == GiveFarm(old(Model()), resource, amount)
    {
      if resource == "food" {
        food := food + amount;
      } else if resource == "workers" {
        workers := workers + amount;
      }
    }

    /** The values the summary reports; the farm is left as it is. */
    method DisplaySummary() returns (summary: Farm)
      ensures summary.species == species
      ensures summary.food == food && summary.workers == workers
    {
      summary := Farm(species, food, workers);
    }
  }
}
