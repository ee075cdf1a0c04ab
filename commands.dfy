/**
 * The command processor (processCommand of main.cpp). A line is classified
 * by its prefix, tested in the order spawn, give, tick, summary; anything
 * else is an invalid command. The tick count is read from the line after
 * "tick" and defaults to 1 when no number follows. The arguments of spawn,
 * give and summary are taken as already converted values.
 *
 * Apply and Respond give the effect of one command on the registry and the
 * reply it produces; Run and SpawnedIds follow a whole session of commands.
 */
module Commands {
  import opened Options
  import opened Farms
  import opened Meadows
  import opened Scanning

  /** p is a prefix of s (main.cpp tests this as s.find(p) == 0). */
  predicate StartsWith(s: string, p: string) {
    |p| <= |s| && s[..|p|] == p
  }

  /** The command tag a line is classified as. */
  datatype Kind = SpawnKind | GiveKind | TickKind | SummaryKind | InvalidKind

  function Classify(line: string): Kind {
    if StartsWith(line, "spawn") then SpawnKind
    else if StartsWith(line, "give") then GiveKind
    else if StartsWith(line, "tick") then TickKind
    else if StartsWith(line, "summary") then SummaryKind
    else InvalidKind
  }

  /** The values the line's spawn, give or summary arguments convert to. */
  datatype Arguments = Arguments(species: string, colonyId: int, resource: string, amount: int)

  /** A classified command with its arguments. */
  datatype Command =
    | Spawn(species: string)
    | Give(colonyId: int, resource: string, amount: int)
    | Tick(times: int)
    | Summary(colonyId: int)
    | Invalid

  /** The tick count of a tick line: the number after "tick", or 1 when there is none. */
  function TickCount(line: string): int
    requires StartsWith(line, "tick")
  {
    match ScanInt(line[4..])
    case None => 1
    case Some(n) => n
  }

  function Parse(line: string, args: Arguments): Command {
    match Classify(line)
    case SpawnKind => Spawn(args.species)
    case GiveKind => Give(args.colonyId, args.resource, args.amount)
    case TickKind => Tick(TickCount(line))
    case SummaryKind => Summary(args.colonyId)
    case InvalidKind => Invalid
  }

  /** What processing a command reports. */
  datatype Reply =
    | ColonySpawned(id: int)
    | ResourceAdded(amount: int, resource: string, species: string)
    | ColonyNotFound(colonyId: int)
    | NoReply
    | ColonySummary(farm: Farm)
    | InvalidCommand

  /** The effect of one command on the registry. */
  function Apply(r: Registry, cmd: Command): Registry {
    match cmd
    case Spawn(species) => Spawned(r, species)
    case Give(id, resource, amount) => Given(r, id, resource, amount)
    case Tick(times) => Ticked(r, times)
    case Summary(_) => r
    case Invalid => r
  }

  /** The reply to one command, given the registry before it. */
  function Respond(r: Registry, cmd: Command): Reply {
    match cmd
    case Spawn(_) => ColonySpawned(r.nextId)
    case Give(id, resource, amount) =>
      if id in r.colonies then ResourceAdded(amount, resource, r.colonies[id].species) else ColonyNotFound(id)
    case Tick(_) => NoReply
    case Summary(id) =>
      (match Lookup(r, id)
       case Some(farm) => ColonySummary(farm)
       case None => ColonyNotFound(id))
    case Invalid => InvalidCommand
  }

  /** The registry after a session of commands. */
  function Run(r: Registry, cmds: seq<Command>): Registry
    decreases |cmds|
  {
    if cmds == [] then r else Run(Apply(r, cmds[0]), cmds[1..])
  }

  /** The ids the spawns of a session hand out, in order. */
  function SpawnedIds(r: Registry, cmds: seq<Command>): seq<int>
    decreases |cmds|
  {
    if cmds == [] then []
    else
      var ids := match Respond(r, cmds[0]) case ColonySpawned(id) => [id] case _ => [];
      ids + SpawnedIds(Apply(r, cmds[0]), cmds[1..])
  }

  /**
   * No two keywords can both start a line, so the order of the tests decides
   * nothing: each tag is given exactly to the lines its keyword starts.
   */
  lemma ClassifyByPrefix(line: string)
    ensures Classify(line) == SpawnKind <==> StartsWith(line, "spawn")
    ensures Classify(line) == GiveKind <==> StartsWith(line, "give")
    ensures Classify(line) == TickKind <==> StartsWith(line, "tick")
    ensures Classify(line) == SummaryKind <==> StartsWith(line, "summary")
    ensures Classify(line) == InvalidKind <==>
      !StartsWith(line, "spawn") && !StartsWith(line, "give")
      && !StartsWith(line, "tick") && !StartsWith(line, "summary")
  {
    if StartsWith(line, "spawn") {
      assert line[1] == "spawn"[1];
    }
    if StartsWith(line, "give") {
      assert line[0] == "give"[0];
    }
    if StartsWith(line, "tick") {
      assert line[0] == "tick"[0];
    }
    if StartsWith(line, "summary") {
      assert line[0] == "summary"[0] && line[1] == "summary"[1];
    }
  }

  /** A keyword followed by anything is classified by the keyword. */
  lemma ClassifyKeyword(rest: string)
    ensures Classify("spawn" + rest) == SpawnKind
    ensures Classify("give" + rest) == GiveKind
    ensures Classify("tick" + rest) == TickKind
    ensures Classify("summary" + rest) == SummaryKind
  {
    assert ("spawn" + rest)[..5] == "spawn";
    assert ("give" + rest)[..4] == "give";
    assert ("tick" + rest)[..4] == "tick";
    assert ("summary" + rest)[..7] == "summary";
    ClassifyByPrefix("give" + rest);
    ClassifyByPrefix("tick" + rest);
    ClassifyByPrefix("summary" + rest);
  }

  /** The count of "tick" + tail is read from tail alone. */
  lemma TickCountOfLine(tail: string)
    ensures StartsWith("tick" + tail, "tick")
    ensures TickCount("tick" + tail) == match ScanInt(tail) case None => 1 case Some(n) => n
  {
    assert ("tick" + tail)[..4] == "tick";
    assert ("tick" + tail)[4..] == tail;
  }

  /** "tick", white space and the rendering of n give a count of n. */
  lemma TickCountOfShow(blanks: string, n: int, rest: string)
    requires forall i :: 0 <= i < |blanks| ==> IsSpace(blanks[i])
    requires rest == [] || !IsDigit(rest[0])
    ensures StartsWith("tick" + (blanks + Show(n) + rest), "tick")
    ensures TickCount("tick" + (blanks + Show(n) + rest)) == n
  {
    TickCountOfLine(blanks + Show(n) + rest);
    ScanIntOfShow(blanks, n, rest);
  }

  /** When no number follows "tick", the count is 1. */
  lemma TickCountDefault(rest: string)
    requires ScanInt(rest) == None
    ensures StartsWith("tick" + rest, "tick")
    ensures TickCount("tick" + rest) == 1
  {
    TickCountOfLine(rest);
  }

  /** The bare line "tick" runs one round. */
  lemma BareTickRunsOnce(args: Arguments)
    ensures Parse("tick", args) == Tick(1)
  {
    assert "tick" + "" == "tick";
    assert SkipSpace("") == "";
    assert ScanDigits("") == None;
    TickCountDefault("");
    ClassifyKeyword("");
  }

  /**
   * One command keeps the registry invariant; only a spawn moves nextId, by
   * one; no command removes a colony.
   */
  lemma ApplyEffect(r: Registry, cmd: Command)
    requires Wellformed(r)
    ensures Wellformed(Apply(r, cmd))
    ensures Apply(r, cmd).nextId == if cmd.Spawn? then r.nextId + 1 else r.nextId
    ensures forall k :: k in r.colonies ==> k in Apply(r, cmd).colonies
  {
    match cmd
    case Spawn(species) => SpawnedEffect(r, species);
    case Give(id, resource, amount) => GivenEffect(r, id, resource, amount);
    case Tick(times) => TickedClosedForm(r, times);
    case Summary(_) =>
    case Invalid =>
  }

  /**
   * After any session the keys are still exactly 1 .. nextId - 1, nextId
   * has not decreased and no colony has been removed.
   */
  lemma {:induction false} RunWellformed(r: Registry, cmds: seq<Command>)
    requires Wellformed(r)
    decreases |cmds|
    ensures Wellformed(Run(r, cmds))
    ensures r.nextId <= Run(r, cmds).nextId
    ensures forall k :: k in r.colonies ==> k in Run(r, cmds).colonies
  {
    if cmds != [] {
      ApplyEffect(r, cmds[0]);
      RunWellformed(Apply(r, cmds[0]), cmds[1..]);
    }
  }

  /**
   * The spawns of a session hand out r.nextId, r.nextId + 1, ... with no gap
   * and no repeat, and nextId ends one past the last of them.
   */
  lemma {:induction false} SpawnedIdsConsecutive(r: Registry, cmds: seq<Command>)
    requires Wellformed(r)
    decreases |cmds|
    ensures Run(r, cmds).nextId == r.nextId + |SpawnedIds(r, cmds)|
    ensures forall i :: 0 <= i < |SpawnedIds(r, cmds)| ==> SpawnedIds(r, cmds)[i] == r.nextId + i
  {
    if cmds != [] {
      ApplyEffect(r, cmds[0]);
      SpawnedIdsConsecutive(Apply(r, cmds[0]), cmds[1..]);
    }
  }

  /**
   * From a new registry the spawns hand out 1, 2, 3, ..., and the colonies
   * present are exactly the ones handed out.
   */
  lemma SessionFromEmpty(cmds: seq<Command>)
    ensures forall i :: 0 <= i < |SpawnedIds(Empty(), cmds)| ==> SpawnedIds(Empty(), cmds)[i] == i + 1
    ensures forall k :: k in Run(Empty(), cmds).colonies <==> k in SpawnedIds(Empty(), cmds)
  {
    EmptyWellformed();
    SpawnedIdsConsecutive(Empty(), cmds);
    RunWellformed(Empty(), cmds);
    var ids := SpawnedIds(Empty(), cmds);
    forall k
      ensures k in Run(Empty(), cmds).colonies <==> k in ids
    {
      if 1 <= k < Run(Empty(), cmds).nextId {
        assert ids[k - 1] == k;
      }
    }
  }

  /** A gift followed by a summary of the same colony reports the gift. */
  lemma GiveThenSummary(r: Registry, id: int, resource: string, amount: int)
    requires id in r.colonies
    ensures Respond(Apply(r, Give(id, resource, amount)), Summary(id))
         == ColonySummary(GiveFarm(r.colonies[id], resource, amount))
  {
  }

  /** A gift of an unknown resource is acknowledged but changes nothing. */
  lemma GiveUnknownResource(r: Registry, id: int, resource: string, amount: int)
    requires id in r.colonies
    requires resource != "food" && resource != "workers"
    ensures Respond(r, Give(id, resource, amount)) == ResourceAdded(amount, resource, r.colonies[id].species)
    ensures Apply(r, Give(id, resource, amount)) == r
  {
    GiveFarmEffect(r.colonies[id], resource, amount);
  }

  /** A gift or a summary naming an id never handed out reports it missing and changes nothing. */
  lemma UnknownColony(r: Registry, id: int, resource: string, amount: int)
    requires Wellformed(r)
    requires id < 1 || id >= r.nextId
    ensures Respond(r, Give(id, resource, amount)) == ColonyNotFound(id)
    ensures Apply(r, Give(id, resource, amount)) == r
    ensures Respond(r, Summary(id)) == ColonyNotFound(id)
    ensures Apply(r, Summary(id)) == r
  {
  }

  /**
   * A small session: spawn a colony, give it 5 food and 3 workers, tick
   * twice; the colony then has 5 + 2 * 10 * 3 food and 3 workers.
   */
  lemma DroneSession()
    ensures SpawnedIds(Empty(), [Spawn("drone")]) == [1]
    ensures Run(Empty(), [Spawn("drone"), Give(1, "food", 5), Give(1, "workers", 3), Tick(2)]).colonies
         == map[1 := Farm("drone", 65, 3)]
  {
    var s1 := Spawned(Empty(), "drone");
    assert s1.colonies == map[1 := Farm("drone", 0, 0)];
    var s3 := Given(Given(s1, 1, "food", 5), 1, "workers", 3);
    assert s3.colonies == map[1 := Farm("drone", 5, 3)];
    TickedClosedForm(s3, 2);
    var s4 := Ticked(s3, 2);
    assert s4.colonies.Keys == {1};
    assert s4.colonies == map[1 := Farm("drone", 65, 3)];
    var cmds := [Spawn("drone"), Give(1, "food", 5), Give(1, "workers", 3), Tick(2)];
    assert Run(Empty(), cmds) == Run(s1, cmds[1..]);
    assert Run(Empty(), cmds) == Run(s3, cmds[3..]);
    assert Run(s3, cmds[3..]) == Run(s4, []);
  }

  /** Processes one line against the registry object. */
  method ProcessCommand(meadow: Meadow, line: string, args: Arguments) returns (reply: Reply)
    requires meadow.Valid()
    modifies meadow, meadow.colonies.Values
    ensures meadow.Valid() && Wellformed(meadow.Model())
    ensures meadow.Model() == Apply(old(meadow.Model()), Parse(line, args))
    ensures reply == Respond(old(meadow.Model()), Parse(line, args))
  {
    var kind := Classify(line);
    if kind == SpawnKind {
      assert Parse(line, args) == Spawn(args.species);
      reply := SpawnCommand(meadow, args.species);
    } else if kind == GiveKind {
      assert Parse(line, args) == Give(args.colonyId, args.resource, args.amount);
      reply := GiveCommand(meadow, args.colonyId, args.resource, args.amount);
    } else if kind == TickKind {
      var ticks := TickCount(line);
      assert Parse(line, args) == Tick(ticks);
      reply := TickCommand(meadow, ticks);
    } else if kind == SummaryKind {
      assert Parse(line, args) == Summary(args.colonyId);
      reply := SummaryCommand(meadow, args.colonyId);
    } else {
      assert Parse(line, args) == Invalid;
      reply := InvalidCommand;
    }
    ValidIsWellformed(meadow);
  }

  /** The spawn branch of ProcessCommand: a new colony, and the id it got. */
  method SpawnCommand(meadow: Meadow, species: string) returns (reply: Reply)
    requires meadow.Valid()
    modifies meadow
    ensures meadow.Valid()
    ensures meadow.Model() == Apply(old(meadow.Model()), Spawn(species))
    ensures reply == Respond(old(meadow.Model()), Spawn(species))
  {
    var id := meadow.SpawnColony(species);
    reply := ColonySpawned(id);
  }

  /** The give branch of ProcessCommand: the gift, and the acknowledgement naming the farm's species. */
  method GiveCommand(meadow: Meadow, colonyId: int, resource: string, amount: int) returns (reply: Reply)
    requires meadow.Valid()
    modifies meadow.colonies.Values
    ensures meadow.Valid()
    ensures meadow.Model() == Apply(old(meadow.Model()), Give(colonyId, resource, amount))
    ensures reply == Respond(old(meadow.Model()), Give(colonyId, resource, amount))
  {
    ghost var before := meadow.Model();
    var found := meadow.GiveResource(colonyId, resource, amount);
    if found {
      reply := ResourceAdded(amount, resource, meadow.colonies[colonyId].species);
      assert meadow.colonies[colonyId].species == meadow.View()[colonyId].species;
      GivenEffect(before, colonyId, resource, amount);
      GiveFarmEffect(before.colonies[colonyId], resource, amount);
    } else {
      reply := ColonyNotFound(colonyId);
    }
  }

  /** The tick branch of ProcessCommand: the rounds, with no reply of its own. */
  method TickCommand(meadow: Meadow, ticks: int) returns (reply: Reply)
    requires meadow.Valid()
    modifies meadow.colonies.Values
    ensures meadow.Valid()
    ensures meadow.Model() == Apply(old(meadow.Model()), Tick(ticks))
    ensures reply == Respond(old(meadow.Model()), Tick(ticks))
  {
    meadow.Tick(ticks);
    reply := NoReply;
  }

  /** The summary branch of ProcessCommand: the colony's farm, or "not found". */
  method SummaryCommand(meadow: Meadow, colonyId: int) returns (reply: Reply)
    requires meadow.Valid()
    ensures reply == Respond(meadow.Model(), Summary(colonyId))
  {
    var summary := meadow.DisplaySummary(colonyId);
    match summary
    case Some(farm) => reply := ColonySummary(farm);
    case None => reply := ColonyNotFound(colonyId);
  }
}
