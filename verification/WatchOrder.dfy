/** What overtaking leads to: whenever the newest record about a node is published ahead of an older one
    that says something else, there is a way for a subscriber to end up caught up and wrong. */
module WatchOrder {
  import opened Bytes
  import opened Enumeration
  import opened Registry
  import opened WatchStream
  import opened WatchClient
  import opened WatchRuns

  // ---------- The record that was overtaken ----------

  /** The last record about `id`. */
  lemma {:induction false} LatestAt(infos: seq<NodeInfo>, id: NodeId) returns (i: nat)
    requires Latest(infos, id) != None
    ensures i < |infos| && IdOf(infos[i]) == id && Latest(infos, id) == Some(infos[i].status)
  {
    if IdOf(infos[|infos| - 1]) == id {
      i := |infos| - 1;
    } else {
      i := LatestAt(infos[..|infos| - 1], id);
    }
  }

  /** A waiting record with no later one about its node says what the registry says. */
  lemma NewestIsCurrent(g: Gcs, j: nat)
    requires NodesInv(g) && StatusInv(g) && j < |g.unpublished|
    requires Latest(g.unpublished[j + 1..], IdOf(g.unpublished[j])) == None
    ensures IdOf(g.unpublished[j]) in g.nodes && g.nodes[IdOf(g.unpublished[j])].status == g.unpublished[j].status
  {
    var u, id := g.unpublished, IdOf(g.unpublished[j]);
    WaitingIsKnown(g, j);
    assert AllInfos(g) == Infos(Log(g)) + u[..j] + [u[j]] + u[j + 1..];
    LatestConcat(Infos(Log(g)) + u[..j] + [u[j]], u[j + 1..], id);
    LatestConcat(Infos(Log(g)) + u[..j], [u[j]], id);
    LatestOfOne(u[j], id);
  }

  /** Records about one node have one address. */
  lemma SameAddress(parse: Parser, g: Gcs, i: nat, j: nat)
    requires NodesInv(g) && i < |g.unpublished| && j < |g.unpublished|
    requires IdOf(g.unpublished[i]) == IdOf(g.unpublished[j])
    ensures Indexable(parse, g.unpublished[i]) <==> Indexable(parse, g.unpublished[j])
  {
    assert AllInfos(g)[|Log(g)| + i] == g.unpublished[i] && AllInfos(g)[|Log(g)| + j] == g.unpublished[j];
    assert InfoOk(g.nodes, g.unpublished[i]) && InfoOk(g.nodes, g.unpublished[j]);
  }

  /** If a step overtakes, it passes a record that says something else than the registry. */
  lemma PassedIsBehind(parse: Parser, g: Gcs, j: nat) returns (i: nat)
    requires NodesInv(g) && StatusInv(g) && Overtakes(g, Take(j)) && Indexable(parse, g.unpublished[j])
    ensures i < j && IdOf(g.unpublished[i]) == IdOf(g.unpublished[j]) && Indexable(parse, g.unpublished[i])
    ensures IdOf(g.unpublished[i]) in g.nodes && g.unpublished[i].status != g.nodes[IdOf(g.unpublished[i])].status
  {
    i := LatestAt(g.unpublished[..j], IdOf(g.unpublished[j]));
    NewestIsCurrent(g, j);
    SameAddress(parse, g, i, j);
  }

  // ---------- The older record can always come last ----------

  /** Publish everything that waits, the record at `i` last, to a client that listens. */
  lemma {:induction false} LeaveForLast(parse: Parser, w: World, i: nat) returns (steps: seq<WorldStep>)
    requires ProtocolInv(w) && Drained(w) && w.gcs.stage == Idle && i < |w.gcs.unpublished|
    requires Indexable(parse, w.gcs.unpublished[i])
    ensures var w' := RunOn(parse, w, steps);
            && CaughtUp(w') && w'.gcs.nodes == w.gcs.nodes
            && StatusOf(w'.client.index, IdOf(w.gcs.unpublished[i])) == Some(w.gcs.unpublished[i].status)
    decreases |w.gcs.unpublished|
  {
    var u := w.gcs.unpublished;
    if |u| == 1 {
      steps := PublishOne(parse, w, 0);
    } else {
      var k := if i == 0 then 1 else 0;
      var first := PublishOne(parse, w, k);
      var rest := LeaveForLast(parse, RunOn(parse, w, first), if i == 0 then 0 else i - 1);
      RunOnConcat(parse, w, first, rest);
      steps := first + rest;
    }
  }

  /** From any state reached in order, with a stream open: every step that overtakes can be continued so
      that the client catches up with everything published and shows the node in a status that is not the
      registry's. */
  lemma {:induction false} OvertakingGoesWrong(parse: Parser, steps: seq<WorldStep>, j: nat)
      returns (more: seq<WorldStep>)
    requires OrderedRun(parse, steps) && RunWorld(parse, steps).stream.Open?
    requires var g := RunWorld(parse, steps).gcs; Overtakes(g, Take(j)) && Indexable(parse, g.unpublished[j])
    ensures more != [] && more[0] == AtGcs(Take(j))
    ensures var w, id := RunWorld(parse, steps + more), IdOf(RunWorld(parse, steps).gcs.unpublished[j]);
            CaughtUp(w) && id in w.gcs.nodes && StatusOf(w.client.index, id) != Some(w.gcs.nodes[id].status)
  {
    var w := RunWorld(parse, steps);
    InvOverRuns(parse, steps);
    StatusOverRuns(parse, steps);
    var i := PassedIsBehind(parse, w.gcs, j);
    var take := PublishSteps(parse, w, j);
    var drain, rest := DrainThenLeave(parse, w, take, i, j);
    RunOnConcat(parse, w, take, drain);
    RunOnConcat(parse, w, take + drain, rest);
    more := take + drain + rest;
    GoOn(parse, steps, more);
  }

  lemma DrainThenLeave(parse: Parser, w: World, take: seq<WorldStep>, i: nat, j: nat)
    returns (drain: seq<WorldStep>, rest: seq<WorldStep>)
    requires ProtocolInv(w) && w.stream.Open? && w.gcs.stage == Idle && i < j < |w.gcs.unpublished|
    requires RunOn(parse, w, take) == w.(gcs := Published(w.gcs, j)) && Indexable(parse, w.gcs.unpublished[i])
    ensures var w' := RunOn(parse, RunOn(parse, RunOn(parse, w, take), drain), rest);
            && CaughtUp(w') && w'.gcs.nodes == w.gcs.nodes
            && StatusOf(w'.client.index, IdOf(w.gcs.unpublished[i])) == Some(w.gcs.unpublished[i].status)
  {
    ProtocolOn(parse, w, take);
    drain := DrainStream(parse, RunOn(parse, w, take));
    ProtocolOn(parse, RunOn(parse, w, take), drain);
    rest := LeaveForLast(parse, RunOn(parse, RunOn(parse, w, take), drain), i);
  }

  // ---------- And it does happen ----------

  const IDLE_STREAM := Open(0, 0, 0, [], 0, [], 0, [], false, [])

  lemma Extend(parse: Parser, steps: seq<WorldStep>, step: WorldStep, w: World) returns (longer: seq<WorldStep>)
    requires Next(parse, RunWorld(parse, steps), step) == w && OrderedRun(parse, steps) &&
            !(step.AtGcs? && step.g.Take?)
    ensures longer == steps + [step] && RunWorld(parse, longer) == w && OrderedRun(parse, longer)
  {
    longer := steps + [step];
    assert longer[..|longer| - 1] == steps && longer[|longer| - 1] == step;
    assert step.AtGcs? ==> !Overtakes(RunWorld(parse, steps).gcs, step.g);
  }

  /** A subscriber is attached; a node registers and is swept before either event is published. */
  lemma RegisterThenSweep(parse: Parser, id: NodeId, alive: NodeInfo) returns (steps: seq<WorldStep>)
    requires |id| == 16 && alive == NewNode(id, "h", 1, 0)
    ensures OrderedRun(parse, steps)
    ensures RunWorld(parse, steps) ==
            World(Gcs(map[id := alive.(status := Dead)], 0, [alive, alive.(status := Dead)], 1, Idle, [], []),
                  IDLE_STREAM, START.client)
  {
    var g1 := Gcs(map[id := alive], 1, [alive], 1, Idle, [], []);
    steps := Extend(parse, [], OpenStream, START.(stream := Subscribed(0, 0)));
    steps := Extend(parse, steps, AtServer(CatchUp([])), START.(stream := IDLE_STREAM));
    assert EMPTY.nodes[id := alive] == map[id := alive] && EMPTY.unpublished + [alive] == [alive];
    steps := Extend(parse, steps, AtGcs(Register(id, "h", 1, 0)), World(g1, IDLE_STREAM, START.client));
    assert StaleIds(g1.nodes, 1) == {id} && Enumerates([id], {id});
    assert Swept(g1.nodes, 1) == map[id := alive.(status := Dead)];
    assert [alive] + Select(Swept(g1.nodes, 1), [id]) == [alive, alive.(status := Dead)];
    steps := Extend(parse, steps, AtGcs(Sweep(1, [id])),
                    World(Gcs(map[id := alive.(status := Dead)], 0, [alive, alive.(status := Dead)],
                              1, Idle, [], []), IDLE_STREAM, START.client));
  }

  lemma SweepOvertakes(g: Gcs)
    requires g.stage == Idle && |g.unpublished| == 2 && IdOf(g.unpublished[0]) == IdOf(g.unpublished[1])
    requires g.unpublished[0].status != g.unpublished[1].status
    ensures Overtakes(g, Take(1))
  {
    var u := g.unpublished;
    assert u[..1] == [u[0]] && u[2..] == [];
    LatestOfOne(u[0], IdOf(u[0]));
  }

  /** `register` and `expire_stale` both publish after releasing the registry lock; when the sweeper
      overtakes a registration, a caught-up index shows alive a node that the registry knows to be dead. */
  lemma {:induction false} OvertakenPublishIsStale(parse: Parser) returns (steps: seq<WorldStep>, id: NodeId)
    requires parse("h", 1).Some?
    ensures var w := RunWorld(parse, steps);
            CaughtUp(w) && id in w.gcs.nodes && StatusOf(w.client.index, id) != Some(w.gcs.nodes[id].status)
  {
    id := seq(16, _ => 7 as byte);
    var before := RegisterThenSweep(parse, id, NewNode(id, "h", 1, 0));
    SweepOvertakes(RunWorld(parse, before).gcs);
    var more := OvertakingGoesWrong(parse, before, 1);
    steps := before + more;
  }
}
