# Ant farm simulation: registry, farms and command dispatch

This project models the core of a small text-command ant colony simulation
(`main.cpp`). It has three parts:

- **AntFarm** (`farms.dfy`, module `Farms`). A farm holds a species name and two
  integer counters, `food` and `workers`. Both start at 0. A tick adds ten food
  per worker. Giving `"food"` or `"workers"` adds the amount to that counter.
  Any other resource name is ignored.
- **Meadow** (`meadows.dfy`, module `Meadows`). This is the colony registry: a
  map from integer id to farm, and `nextId`, which starts at 1. A spawn stores a
  fresh farm under `nextId`, returns that id and increments it. A gift or a
  summary first looks up its id, and an unknown id leaves the state as it is.
  `tick(n)` ticks every farm once per round, for `n` rounds.
- **processCommand** (`commands.dfy`, module `Commands`, with `scanning.dfy`,
  module `Scanning`). It classifies a line by prefix, tested in the order
  `spawn`, `give`, `tick`, `summary`; anything else is an invalid command. The
  tick count is the number read after `tick`, or 1 when no number follows.

Each class comes with a value-level specification. For a farm that is the
`Farm` datatype with `NewFarm`, `TickFarm` and `GiveFarm`. For the registry it
is the `Registry` datatype with `Spawned`, `Given` and `Ticked`. For command
processing it is `Classify`, `Parse`, `Apply`, `Respond` and `Run`.

The classes `AntFarm` and `Meadow` update their fields in place, and each of
their methods is proved to move the abstract value (`Model()`) exactly as the
matching specification function says. The properties main.cpp promises are
proved as lemmas about those functions:

- the ids handed out run 1, 2, 3, … with no gap or repeat;
- the keys are always exactly `1 .. nextId - 1`;
- only the targeted counter of the targeted colony changes;
- `tick(n)` gives every colony `food + 10 * n * workers`;
- a round does not depend on the order the farms tick in.

`Options` only holds an `Option` datatype.

Behaviours of main.cpp that the model keeps as they are:

- A farm is two counters. There are no ants, rooms, resource maps or growth
  tables.
- A spawn accepts any species string; there is no "invalid ant kind" error.
- A negative tick count is a no-op, not an error: the `for` loop at
  main.cpp:77 simply does not run.
- A gift with an unknown resource name is still acknowledged
  ("Added … to … farm.", main.cpp:39), but it changes nothing.
- A gift's amount may be negative, so food and workers can go below zero
  (main.cpp:35, main.cpp:37). `GiveFarm` adds any `int`.
- The coordinates of a spawn are only printed.
- The tick branch of `processCommand` prints nothing of its own. Its reply is
  `NoReply`.

## Model

| member | source | states |
|---|---|---|
| Farms.AntFarm.constructor | main.cpp:21-26 | a new farm has the given species, food 0 and workers 0 |
| Farms.AntFarm.Tick | main.cpp:28-31 | food grows by 10 * workers; workers and species unchanged |
| Farms.AntFarm.GiveResource | main.cpp:33-40 | the farm's new value is GiveFarm of its old value |
| Farms.AntFarm.DisplaySummary | main.cpp:42-45 | reports the current species, food and workers; changes nothing |
| Farms.TickFarmEffect | main.cpp:28-31 | one tick changes only food, by ten per worker |
| Farms.TickFarmNClosedForm | main.cpp:28-31 | n ticks give food + 10 * n * workers and leave workers unchanged |
| Farms.TickFarmNAdditive | main.cpp:28-31 | a ticks then b ticks equal a + b ticks |
| Farms.GiveFarmEffect | main.cpp:33-38 | "food" changes only food by amount; "workers" changes only workers by amount; any other name changes nothing |
| Farms.GiveFarmAccumulates | main.cpp:33-38 | two gifts of one resource add up |
| Farms.GiveFarmCommutes | main.cpp:33-38 | the order of two gifts does not matter |
| Farms.GiveFarmInverse | main.cpp:33-38 | a gift of -amount undoes a gift of amount |
| Meadows.EmptyWellformed | main.cpp:50-54 | a new registry has no colonies, nextId 1, and satisfies the id invariant |
| Meadows.SpawnedEffect | main.cpp:62-66 | a spawn uses the unused id nextId, stores a farm with food 0 and workers 0, increments nextId, keeps the id invariant and leaves existing colonies unchanged |
| Meadows.GivenEffect | main.cpp:68-74 | a gift keeps the keys and nextId; an unknown id changes nothing; a known id changes only that colony |
| Meadows.TickRoundsPointwise | main.cpp:76-82 | n rounds tick every farm n times and keep the keys |
| Meadows.TickedClosedForm | main.cpp:76-82 | tick(n) with n <= 0 is a no-op; with n >= 0 every colony ends with food0 + 10 * n * workers0 and workers0; keys and nextId unchanged |
| Meadows.TickedTwice | main.cpp:76-82 | tick(a) then tick(b) equals tick(a + b) for a, b >= 0 |
| Meadows.TickInOrderSnoc | main.cpp:78-80 | ticking one more listed key ticks one more farm |
| Meadows.TickInOrderPointwise | main.cpp:78-80 | ticking along distinct keys ticks exactly the listed farms once |
| Meadows.TickInOrderIsRound | main.cpp:78-80 | ticking the farms one at a time in any order that lists each key once is one round |
| Meadows.TickOrderIrrelevant | main.cpp:78-80 | two such orders give the same result |
| Meadows.ValidIsWellformed | main.cpp:50-52 | a valid registry object's value has keys exactly 1 .. nextId - 1 |
| Meadows.Meadow.constructor | main.cpp:52-54 | the new registry is empty with nextId 1 |
| Meadows.Meadow.SpawnColony | main.cpp:62-66 | returns the old nextId, increments it, stores a fresh farm there and keeps every existing farm object under its id |
| Meadows.Meadow.GiveResource | main.cpp:68-74 | the registry value becomes Given(old value); reports whether the id was found; the map and nextId are unchanged |
| Meadows.Meadow.Tick | main.cpp:76-82 | the registry value becomes Ticked(old value, times) |
| Meadows.Meadow.TickEveryFarm | main.cpp:78-80 | one pass over the map, in an order the method leaves open, ticks every farm exactly once |
| Meadows.Meadow.DisplaySummary | main.cpp:84-90 | returns Lookup of the registry value: the farm for a known id and None for an unknown one; changes nothing |
| Scanning.SkipSpace | main.cpp:113 | the result is a suffix of the input; everything skipped is white space; the result does not start with white space |
| Scanning.LeadingDigits | main.cpp:113 | the length of the longest run of digits at the start of the input |
| Scanning.DecimalValueOfDigits | main.cpp:113 | reading back the decimal digits of n gives n |
| Scanning.LeadingDigitsOfConcat | main.cpp:113 | the digit run of digits + non-digit is the digits |
| Scanning.SkipSpaceOfConcat | main.cpp:113 | leading blanks before a non-blank are skipped |
| Scanning.ScanIntOfShow | main.cpp:113 | white space, the decimal rendering of n (with its sign) and a non-digit scan back as n |
| Scanning.ScanIntNeedsDigit | main.cpp:112-113 | without a digit after the blanks and optional sign, the conversion fails |
| Commands.ClassifyByPrefix | main.cpp:100-121 | each command tag is given exactly to the lines its keyword starts (both directions), and invalid exactly to lines no keyword starts |
| Commands.ClassifyKeyword | main.cpp:100-115 | a keyword followed by anything is classified by the keyword |
| Commands.TickCountOfLine | main.cpp:111-113 | the count of "tick" + tail is read from the tail, with default 1 |
| Commands.TickCountOfShow | main.cpp:111-114 | "tick", blanks and the rendering of n give a count of n |
| Commands.TickCountDefault | main.cpp:112-113 | when no number follows "tick", the count is 1 |
| Commands.BareTickRunsOnce | main.cpp:111-114 | the line "tick" parses as one round |
| Commands.ApplyEffect | main.cpp:97-122 | every command keeps the id invariant; only a spawn moves nextId, by one; no command removes a colony |
| Commands.RunWellformed | main.cpp:62-82 | after any session the keys are exactly 1 .. nextId - 1, nextId has not decreased and no colony is removed |
| Commands.SpawnedIdsConsecutive | main.cpp:62-66 | the spawns of a session return nextId, nextId + 1, … and nextId ends one past the last |
| Commands.SessionFromEmpty | main.cpp:52-66 | from a new registry the spawns return 1, 2, 3, …, and the colonies present are exactly those ids |
| Commands.GiveThenSummary | main.cpp:68-90 | a summary after a gift reports the gift |
| Commands.GiveUnknownResource | main.cpp:33-39 | a gift of an unknown resource is acknowledged and changes nothing |
| Commands.UnknownColony | main.cpp:68-90 | a gift or summary for an id never handed out reports it missing and changes nothing |
| Commands.DroneSession | main.cpp:62-82 | spawn, give 5 food, give 3 workers, tick 2: the colony has 65 food and 3 workers |
| Commands.ProcessCommand | main.cpp:97-122 | the registry value becomes Apply(old value, Parse(line)) and keeps keys exactly 1 .. nextId - 1; the reply is Respond(old value, Parse(line)) |
| Commands.SpawnCommand | main.cpp:100-105 | the spawn branch: a new colony and its id as the reply |
| Commands.GiveCommand | main.cpp:106-110 | the give branch: the gift and its acknowledgement, or "not found" |
| Commands.TickCommand | main.cpp:111-114 | the tick branch: the rounds of Ticked, with no reply of its own |
| Commands.SummaryCommand | main.cpp:115-118 | the summary branch: the colony's farm, or "not found"; nothing changes |

## Left out

- All printing (`cout`) and the `getline`/`exit` loop of `main` (main.cpp:124-135) are I/O. Replies are modelled as a `Reply` value, and a session as a sequence of commands (`Run`).
- The line "Tick for <species> farm: …" that every farm prints on every tick (main.cpp:29) is not modelled. A tick command's reply is `NoReply`, matching the tick branch of `processCommand`, which prints nothing itself.
- The spawn coordinates `x, y` are only printed (main.cpp:63), so `SpawnColony` does not take them.
- The `sscanf` calls for spawn, give and summary write into an unsized string buffer, a fixed `char[50]` and uninitialised ints (main.cpp:101-117), which is undefined behaviour. Their converted values are passed in as an `Arguments` record. The tick count is modelled from the line itself, because that conversion is well defined: its variable starts at 1.
- The lazy singleton `getInstance`/`instance` (main.cpp:51-60, main.cpp:94) is replaced by an explicitly constructed `Meadow` object.
- `shared_ptr` ownership and the abstract base `AntFarmBase` (main.cpp:11-17) are not modelled. The only concrete farm class is modelled directly, and the registry invariant states that no farm object sits under two ids.
- `<random>` is included but never used.
- C++ `int` overflow is not modelled. Counters, amounts, tick counts and ids are unbounded Dafny `int`s, so `workers * 10`, `food += amount` and a `%d` conversion of an out-of-range number do not wrap or saturate here.
- The order in which `unordered_map` walks its entries is not modelled. `TickEveryFarm` picks the keys in an unspecified order, and the lemmas show that the order does not affect the result.
