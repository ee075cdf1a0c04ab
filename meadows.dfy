/**
 * The colony registry (class Meadow of main.cpp): a map from integer id to
 * ant farm and the id the next spawned colony gets, starting at 1. A spawn
 * stores a fresh farm under that id and increments it; a gift or a summary
 * looks its id up and does nothing to the state when it is absent; a tick
 * of n rounds ticks every farm once per round.
 *
 * Registry is the value of the registry and the functions over it are the
 * specification; the Meadow class updates its map and counter in place and
 * its methods are proved against those functions.
 */
module Meadows {
  import opened Options
  import opened Farms

  /** The value of the registry. */
  datatype Registry = Registry(colonies: map<int, Farm>, nextId: int)

  /** The registry invariant: the colonies are keyed exactly by 1 .. nextId - 1. */
  ghost predicate Wellformed(r: Registry) {
    IdsInvariant(r.colonies.Keys, r.nextId)
  }

  /** The ids in use are exactly 1 .. nextId - 1. */
  ghost predicate IdsInvariant(ids: set<int>, nextId: int) {
    nextId >= 1 && forall k :: k in ids <==> 1 <= k < nextId
  }

  /** The registry as it is created: no colonies, next id 1. */
  function Empty(): Registry {
    Registry(map[], 1)
  }

  /** A spawn: a new farm under nextId, and nextId incremented. The id handed out is r.nextId. */
  function Spawned(r: Registry, species: string): Registry {
    Registry(r.colonies[r.nextId := NewFarm(species)], r.nextId + 1)
  }

  /** A gift to colony id; an unknown id leaves the registry as it is. */
  function Given(r: Registry, id: int, resource: string, amount: int): Registry {
    if id in r.colonies then r.(colonies := r.colonies[id := GiveFarm(r.colonies[id], resource, amount)])
    else r
  }

  /** The farm a summary of colony id reports, if there is one. */
  function Lookup(r: Registry, id: int): Option<Farm> {
    if id in r.colonies then Some(r.colonies[id]) else None
  }

  /** One round: every farm ticks once. */
  function TickRound(m: map<int, Farm>): map<int, Farm> {
    map k | k in m :: TickFarm(m[k])
  }

  /** n rounds, one after the other. */
  function TickRounds(m: map<int, Farm>, n: nat): map<int, Farm> {
    if n == 0 then m else TickRound(TickRounds(m, n - 1))
  }

  /** A tick command of times rounds; a count of zero or less runs no round. */
  function Ticked(r: Registry, times: int): Registry {
    if times <= 0 then r else r.(colonies := TickRounds(r.colonies, times))
  }

  /** Ticking the one farm stored under k. */
  function TickKey(m: map<int, Farm>, k: int): map<int, Farm> {
    if k in m then m[k := TickFarm(m[k])] else m
  }

  /** Ticking the farms one at a time, in the order the keys are listed. */
  function TickInOrder(m: map<int, Farm>, order: seq<int>): map<int, Farm> {
    if order == [] then m
    else TickKey(TickInOrder(m, order[..|order| - 1]), order[|order| - 1])
  }

  /** A non-empty set of ids has a member. */
  lemma HasMember(s: set<int>)
    requires s != {}
    ensures exists k :: k in s
  {
    if forall k :: k !in s {
      assert false;
    }
  }

  predicate Distinct(s: seq<int>) {
    forall i, j :: 0 <= i < j < |s| ==> s[i] != s[j]
  }

  /** A new registry is wellformed. */
  lemma EmptyWellformed()
    ensures Wellformed(Empty())
    ensures Empty().colonies == map[] && Empty().nextId == 1
  {
  }

  /**
   * A spawn preserves the invariant, hands out the id nextId, which was not
   * in use, stores a farm with no food and no workers under it, and leaves
   * every existing colony as it was.
   */
  lemma SpawnedEffect(r: Registry, species: string)
    requires Wellformed(r)
    ensures r.nextId !in r.colonies
    ensures Wellformed(Spawned(r, species))
    ensures Spawned(r, species).nextId == r.nextId + 1
    ensures Spawned(r, species).colonies.Keys == r.colonies.Keys + {r.nextId}
    ensures Spawned(r, species).colonies[r.nextId] == Farm(species, 0, 0)
    ensures forall k :: k in r.colonies ==> Spawned(r, species).colonies[k] == r.colonies[k]
  {
  }

  /**
   * A gift keeps the keys and nextId; on an unknown id it changes nothing;
   * on a known id only that colony changes.
   */
  lemma GivenEffect(r: Registry, id: int, resource: string, amount: int)
    ensures Given(r, id, resource, amount).nextId == r.nextId
    ensures Given(r, id, resource, amount).colonies.Keys == r.colonies.Keys
    ensures Wellformed(r) ==> Wellformed(Given(r, id, resource, amount))
    ensures id !in r.colonies ==> Given(r, id, resource, amount) == r
    ensures id in r.colonies ==>
      Given(r, id, resource, amount).colonies[id] == GiveFarm(r.colonies[id], resource, amount)
    ensures forall k :: k in r.colonies && k != id ==> Given(r, id, resource, amount).colonies[k] == r.colonies[k]
  {
  }

  /** n rounds tick every farm n times and keep the keys. */
  lemma {:induction false} TickRoundsPointwise(m: map<int, Farm>, n: nat)
    ensures TickRounds(m, n).Keys == m.Keys
    ensures forall k :: k in m ==> TickRounds(m, n)[k] == TickFarmN(m[k], n)
  {
    if n > 0 {
      TickRoundsPointwise(m, n - 1);
    }
  }

  /**
   * A tick command of times rounds keeps the keys and nextId and the
   * workers of every colony, and adds ten units of food per worker and per
   * round; with times <= 0 it is a no-op.
   */
  lemma TickedClosedForm(r: Registry, times: int)
    ensures Ticked(r, times).nextId == r.nextId
    ensures Ticked(r, times).colonies.Keys == r.colonies.Keys
    ensures times <= 0 ==> Ticked(r, times) == r
    ensures times >= 0 ==> forall k :: k in r.colonies ==>
      Ticked(r, times).colonies[k] == Farm(r.colonies[k].species,
                                           r.colonies[k].food + FoodPerWorker * times * r.colonies[k].workers,
                                           r.colonies[k].workers)
  {
    if times > 0 {
      TickRoundsPointwise(r.colonies, times);
      forall k | k in r.colonies
        ensures Ticked(r, times).colonies[k] == Farm(r.colonies[k].species,
                                                     r.colonies[k].food + FoodPerWorker * times * r.colonies[k].workers,
                                                     r.colonies[k].workers)
      {
        TickFarmNClosedForm(r.colonies[k], times);
      }
    }
  }

  /** Two tick commands in a row add up their rounds. */
  lemma TickedTwice(r: Registry, a: nat, b: nat)
    ensures Ticked(Ticked(r, a), b) == Ticked(r, a + b)
  {
    TickRoundsPointwise(r.colonies, a);
    TickRoundsPointwise(r.colonies, a + b);
    TickRoundsPointwise(Ticked(r, a).colonies, b);
    forall k | k in r.colonies
      ensures Ticked(Ticked(r, a), b).colonies[k] == Ticked(r, a + b).colonies[k]
    {
      TickFarmNAdditive(r.colonies[k], a, b);
    }
  }

  /** Listing one more key ticks one more farm, and keeps the list distinct when the key is new. */
  lemma TickInOrderSnoc(m: map<int, Farm>, order: seq<int>, k: int)
    ensures TickInOrder(m, order + [k]) == TickKey(TickInOrder(m, order), k)
    ensures Distinct(order) && k !in order ==> Distinct(order + [k])
  {
    assert (order + [k])[..|order|] == order;
  }

  /**
   * Ticking farms one at a time along a list of distinct keys ticks exactly
   * the listed farms once and leaves the others alone.
   */
  lemma {:induction false} TickInOrderPointwise(m: map<int, Farm>, order: seq<int>)
    requires Distinct(order)
    ensures TickInOrder(m, order).Keys == m.Keys
    ensures forall k :: k in m ==>
      TickInOrder(m, order)[k] == if k in order then TickFarm(m[k]) else m[k]
  {
    if order != [] {
      var init := order[..|order| - 1];
      var last := order[|order| - 1];
      assert Distinct(init);
      TickInOrderPointwise(m, init);
      assert last !in init;
      forall k | k in m
        ensures (k in order) == (k in init || k == last)
      {
        assert order == init + [last];
      }
    }
  }

  /**
   * A round does not depend on the order the farms tick in: ticking them one
   * at a time along any list naming every key once is a round.
   */
  lemma TickInOrderIsRound(m: map<int, Farm>, order: seq<int>)
    requires Distinct(order)
    requires forall k :: k in order <==> k in m
    ensures TickInOrder(m, order) == TickRound(m)
  {
    TickInOrderPointwise(m, order);
    assert TickInOrder(m, order).Keys == TickRound(m).Keys;
    forall k | k in m
      ensures TickInOrder(m, order)[k] == TickRound(m)[k]
    {
      assert k in order;
    }
  }

  /** Two orders that both list every key once give the same result. */
  lemma TickOrderIrrelevant(m: map<int, Farm>, o1: seq<int>, o2: seq<int>)
    requires Distinct(o1) && Distinct(o2)
    requires forall k :: k in o1 <==> k in m
    requires forall k :: k in o2 <==> k in m
    ensures TickInOrder(m, o1) == TickInOrder(m, o2)
  {
    TickInOrderIsRound(m, o1);
    TickInOrderIsRound(m, o2);
  }

  /** The registry object: colonies and nextId are updated in place. */
  class Meadow {
    var colonies: map<int, AntFarm>
    var nextId: int

    /** The values of the farms, by id. */
    ghost function View(): (v: map<int, Farm>)
      reads this, colonies.Values
      ensures v.Keys == colonies.Keys
    {
      map k | k in colonies :: colonies[k].Model()
    }

    /** The value of the whole registry. */
    ghost function Model(): Registry
      reads this, colonies.Values
    {
      Registry(View(), nextId)
    }

    /** The registry invariant, and no farm object stored under two ids. */
    ghost predicate Valid()
      reads this
    {
      && IdsInvariant(colonies.Keys, nextId)
      && forall i, j :: i in colonies && j in colonies && i != j ==> colonies[i] != colonies[j]
    }

    constructor ()
      ensures Valid()
      ensures Model() == Empty()
    {
      colonies := map[];
      nextId := 1;
    }

    /** Stores a fresh farm under nextId and returns that id, incrementing nextId. */
    method SpawnColony(species: string) returns (id: int)
      requires Valid()
      modifies this
      ensures Valid()
      ensures id == old(nextId) && nextId == old(nextId) + 1
      ensures Model() == Spawned(old(Model()), species)
      ensures id in colonies && fresh(colonies[id])
      ensures forall k :: k in old(colonies) ==> k in colonies && colonies[k] == old(colonies[k])
    {
      assert nextId !in colonies by {
        assert nextId !in View();
      }
      var farm := new AntFarm(species);
      colonies := colonies[nextId := farm];
      id := nextId;
      nextId := nextId + 1;
      assert View() == old(View())[id := farm.Model()];
    }

    /** Gives amount of resource to colony colonyId; found tells whether it exists. */
    method GiveResource(colonyId: int, resource: string, amount: int) returns (found: bool)
      requires Valid()
      modifies colonies.Values
      ensures Valid()
      ensures colonies == old(colonies) && nextId == old(nextId)
      ensures found == (colonyId in colonies)
      ensures Model() == Given(old(Model()), colonyId, resource, amount)
    {
      found := colonyId in colonies;
      if found {
        var farm := colonies[colonyId];
        farm.GiveResource(resource, amount);
        assert forall k :: k in colonies && k != colonyId ==> colonies[k] != farm;
        assert View() == old(View())[colonyId := farm.Model()];
      }
    }

    /** Ticks every colony once per round, for times rounds. */
    method Tick(times: int)
      requires Valid()
      modifies colonies.Values
      ensures Valid()
      ensures colonies == old(colonies) && nextId == old(nextId)
      ensures Model() == Ticked(old(Model()), times)
    {
      ghost var start := View();
      var i := 0;
      while i < times
        invariant 0 <= i <= if times > 0 then times else 0
        invariant Valid()
        invariant View() == TickRounds(start, i)
      {
        TickEveryFarm();
        i := i + 1;
      }
      assert old(Model()) == Registry(start, nextId);
    }

    /**
     * One round of Tick: every farm ticks once, in an order the method does
     * not fix (main.cpp walks an unordered_map).
     */
    method TickEveryFarm()
      requires Valid()
      modifies colonies.Values
      ensures Valid()
      ensures colonies == old(colonies) && nextId == old(nextId)
      ensures View() == TickRound(old(View()))
    {
      ghost var before := View();
      var todo := colonies.Keys;
      ghost var order: seq<int> := [];
      while todo != {}
        invariant todo <= colonies.Keys
        invariant forall k :: k in order <==> k in colonies && k !in todo
        invariant Distinct(order)
        invariant Valid()
        invariant View() == TickInOrder(before, order)
        decreases todo
      {
        HasMember(todo);
        var k :| k in todo;
        var farm := colonies[k];
        ghost var prev := View();
        farm.Tick();
        forall j | j in colonies
          ensures colonies[j].Model() == if j == k then TickFarm(prev[k]) else prev[j]
        {
          assert j != k ==> colonies[j] != farm;
        }
        assert View() == TickKey(prev, k);
        TickInOrderSnoc(before, order, k);
        order := order + [k];
        todo := todo - {k};
      }
      TickInOrderIsRound(before, order);
    }

    /** The farm the summary of colonyId reports, or None for an unknown id; nothing changes. */
    method DisplaySummary(colonyId: int) returns (summary: Option<Farm>)
      requires Valid()
      ensures summary == Lookup(Model(), colonyId)
      ensures summary.Some? <==> colonyId in colonies
      ensures summary.Some? ==> summary.value == colonies[colonyId].Model()
    {
      if colonyId in colonies {
        var farm := colonies[colonyId].DisplaySummary();
        summary := Some(farm);
      } else {
        summary := None;
      }
    }
  }

  /** A valid registry object holds a wellformed registry value. */
  lemma ValidIsWellformed(m: Meadow)
    requires m.Valid()
    ensures Wellformed(m.Model())
    ensures m.Model().nextId == m.nextId
  {
  }
}
