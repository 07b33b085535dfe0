/** The GCS node registry: node records, the numbered event log and its bounded replay buffer.

    `Gcs` is the state shared by the gRPC handlers, the sweeper and every `WatchNodes` stream.
    A mutation changes `nodes` and leaves the changed record in `unpublished`; publishing it takes
    three separate actions (take a sequence number, push to the replay buffer, broadcast), between
    which subscribers may run. */
module Registry {
  import opened Bytes
  import opened Enumeration

  const REPLAY_BUFFER_CAPACITY := 1024

  type NodeId = seq<byte>

  datatype NodeStatus = Unspecified | Alive | Draining | Dead

  datatype NodeAddress = NodeAddress(host: string, port: nat, nodeId: NodeId)

  datatype NodeInfo = NodeInfo(
    address: Option<NodeAddress>,
    status: NodeStatus,
    registeredAt: nat,
    lastHeartbeat: nat)

  datatype Event = Event(sequence: nat, node: NodeInfo)

  /** Where the one `publish` call in progress has got to. */
  datatype Stage = Idle | Taken(event: Event) | Pushed(event: Event)

  datatype Gcs = Gcs(
    nodes: map<NodeId, NodeInfo>,
    nodesAlive: int,
    unpublished: seq<NodeInfo>,
    nextSequence: nat,
    stage: Stage,
    buffer: seq<Event>,
    channel: seq<Event>)

  datatype GcsStep =
    | Register(id: NodeId, host: string, port: nat, now: nat)
    | Drain(id: NodeId)
    | Heartbeat(id: NodeId, now: nat)
    | Sweep(deadline: nat, order: seq<NodeId>)
    | Take(which: nat)
    | Push
    | Send

  const EMPTY := Gcs(map[], 0, [], 1, Idle, [], [])

  // ---------- Specification functions, one per action ----------

  function NewNode(id: NodeId, host: string, port: nat, now: nat): NodeInfo {
    NodeInfo(Some(NodeAddress(host, port, id)), Alive, now, now)
  }

  predicate IsStale(n: NodeInfo, deadline: nat) {
    n.status == Alive && n.lastHeartbeat < deadline
  }

  function StaleIds(nodes: map<NodeId, NodeInfo>, deadline: nat): set<NodeId> {
    set id | id in nodes && IsStale(nodes[id], deadline)
  }

  function Swept(nodes: map<NodeId, NodeInfo>, deadline: nat): map<NodeId, NodeInfo> {
    map id | id in nodes :: if IsStale(nodes[id], deadline) then nodes[id].(status := Dead) else nodes[id]
  }

  function Select(nodes: map<NodeId, NodeInfo>, order: seq<NodeId>): (r: seq<NodeInfo>)
    requires forall id :: id in order ==> id in nodes
    ensures |r| == |order|
    ensures forall i :: 0 <= i < |order| ==> r[i] == nodes[order[i]]
  {
    seq(|order|, i requires 0 <= i < |order| => assert order[i] in order; nodes[order[i]])
  }

  function DoRegister(g: Gcs, id: NodeId, host: string, port: nat, now: nat): Gcs {
    var n := NewNode(id, host, port, now);
    g.(nodes := g.nodes[id := n], nodesAlive := g.nodesAlive + 1, unpublished := g.unpublished + [n])
  }

  function DoDrain(g: Gcs, id: NodeId): Gcs
    requires id in g.nodes
  {
    var n := g.nodes[id].(status := Draining);
    g.(nodes := g.nodes[id := n],
       nodesAlive := if g.nodes[id].status == Alive then g.nodesAlive - 1 else g.nodesAlive,
       unpublished := g.unpublished + [n])
  }

  function DoHeartbeat(g: Gcs, id: NodeId, now: nat): Gcs
    requires id in g.nodes
  {
    g.(nodes := g.nodes[id := g.nodes[id].(lastHeartbeat := now)])
  }

  function DoSweep(g: Gcs, deadline: nat, order: seq<NodeId>): Gcs
    requires Enumerates(order, StaleIds(g.nodes, deadline))
  {
    var nodes' := Swept(g.nodes, deadline);
    g.(nodes := nodes', nodesAlive := g.nodesAlive - |order|,
       unpublished := g.unpublished + Select(nodes', order))
  }

  function DoTake(g: Gcs, which: nat): Gcs
    requires which < |g.unpublished| && g.stage == Idle
  {
    g.(unpublished := g.unpublished[..which] + g.unpublished[which + 1..],
       nextSequence := g.nextSequence + 1,
       stage := Taken(Event(g.nextSequence, g.unpublished[which])))
  }

  /** The replay buffer after `event`: the oldest entry makes room when the buffer is full. */
  function PushBounded(buffer: seq<Event>, event: Event): seq<Event> {
    (if |buffer| == REPLAY_BUFFER_CAPACITY then buffer[1..] else buffer) + [event]
  }

  function DoPush(g: Gcs): Gcs
    requires g.stage.Taken?
  {
    g.(buffer := PushBounded(g.buffer, g.stage.event), stage := Pushed(g.stage.event))
  }

  function DoSend(g: Gcs): Gcs
    requires g.stage.Pushed?
  {
    g.(channel := g.channel + [g.stage.event], stage := Idle)
  }

  predicate Enabled(g: Gcs, step: GcsStep) {
    match step
    case Register(id, host, _, _) => host != "" && |id| == 16 && id !in g.nodes
    case Drain(id) => id in g.nodes
    case Heartbeat(id, _) => id in g.nodes
    case Sweep(deadline, order) => Enumerates(order, StaleIds(g.nodes, deadline))
    case Take(which) => which < |g.unpublished| && g.stage == Idle
    case Push => g.stage.Taken?
    case Send => g.stage.Pushed?
  }

  /** One action of the registry; an action that is not possible changes nothing. */
  function Step(g: Gcs, step: GcsStep): Gcs {
    if !Enabled(g, step) then g else
    match step
    case Register(id, host, port, now) => DoRegister(g, id, host, port, now)
    case Drain(id) => DoDrain(g, id)
    case Heartbeat(id, now) => DoHeartbeat(g, id, now)
    case Sweep(deadline, order) => DoSweep(g, deadline, order)
    case Take(which) => DoTake(g, which)
    case Push => DoPush(g)
    case Send => DoSend(g)
  }

  function Run(g: Gcs, steps: seq<GcsStep>): Gcs {
    if steps == [] then g else Step(Run(g, steps[..|steps| - 1]), steps[|steps| - 1])
  }

  // ---------- What the log and the buffer hold ----------

  /** Every event that has a sequence number, oldest first. */
  function Log(g: Gcs): seq<Event> {
    if g.stage == Idle then g.channel else g.channel + [g.stage.event]
  }

  /** Every event that has reached the replay buffer at some time. */
  function PushedLog(g: Gcs): seq<Event> {
    if g.stage.Pushed? then g.channel + [g.stage.event] else g.channel
  }

  function Suffix<T>(s: seq<T>, n: nat): seq<T> {
    if |s| <= n then s else s[|s| - n..]
  }

  predicate Numbered(log: seq<Event>) {
    forall i :: 0 <= i < |log| ==> log[i].sequence == i + 1
  }

  /** Sequence numbers are dense from 1, and the buffer is the newest stretch of the log. */
  ghost predicate LogInv(g: Gcs) {
    && Numbered(Log(g))
    && g.nextSequence == |Log(g)| + 1
    && g.buffer == Suffix(PushedLog(g), REPLAY_BUFFER_CAPACITY)
  }

  lemma LogInvStep(g: Gcs, step: GcsStep)
    requires LogInv(g)
    ensures LogInv(Step(g, step))
    ensures Log(g) <= Log(Step(g, step))
    ensures PushedLog(g) <= PushedLog(Step(g, step)) <= Log(Step(g, step))
    ensures g.channel <= Step(g, step).channel <= PushedLog(Step(g, step))
  {
    if Enabled(g, step) && step.Push? {
      assert PushedLog(Step(g, step)) == PushedLog(g) + [g.stage.event];
      NewestStretch(PushedLog(g), g.stage.event);
    }
  }

  /** Pushing onto the newest stretch of a log gives the newest stretch of the longer log. */
  lemma NewestStretch(log: seq<Event>, e: Event)
    ensures PushBounded(Suffix(log, REPLAY_BUFFER_CAPACITY), e) == Suffix(log + [e], REPLAY_BUFFER_CAPACITY)
  {
    var b := Suffix(log, REPLAY_BUFFER_CAPACITY);
    if |log| >= REPLAY_BUFFER_CAPACITY {
      var from := |log| - REPLAY_BUFFER_CAPACITY;
      assert b == log[from..] && b[1..] == log[from + 1..];
      assert log[from + 1..] + [e] == (log + [e])[from + 1..];
    } else {
      assert b == log && Suffix(log + [e], REPLAY_BUFFER_CAPACITY) == log + [e];
    }
  }

  // ---------- Records, their addresses and the latest event about each ----------

  function IdOf(n: NodeInfo): NodeId {
    if n.address.Some? then n.address.value.nodeId else []
  }

  function Infos(es: seq<Event>): (r: seq<NodeInfo>)
    ensures |r| == |es|
    ensures forall i :: 0 <= i < |es| ==> r[i] == es[i].node
  {
    seq(|es|, i requires 0 <= i < |es| => es[i].node)
  }

  /** Everything the registry has published or still has to publish, in order. */
  function AllInfos(g: Gcs): seq<NodeInfo> {
    Infos(Log(g)) + g.unpublished
  }

  /** The status carried by the last record about `id`. */
  function Latest(infos: seq<NodeInfo>, id: NodeId): Option<NodeStatus> {
    if infos == [] then None
    else if IdOf(infos[|infos| - 1]) == id then Some(infos[|infos| - 1].status)
    else Latest(infos[..|infos| - 1], id)
  }

  lemma {:induction false} LatestConcat(a: seq<NodeInfo>, b: seq<NodeInfo>, id: NodeId)
    ensures Latest(a + b, id) == if Latest(b, id).Some? then Latest(b, id) else Latest(a, id)
  {
    if b == [] {
      assert a + b == a;
    } else {
      LatestConcat(a, b[..|b| - 1], id);
      assert (a + b)[..|a + b| - 1] == a + b[..|b| - 1];
    }
  }

  /** With no two records about the same node, the latest is the only one. */
  lemma {:induction false} LatestUnique(infos: seq<NodeInfo>, k: nat)
    requires k < |infos|
    requires forall i, j :: 0 <= i < j < |infos| ==> IdOf(infos[i]) != IdOf(infos[j])
    ensures Latest(infos, IdOf(infos[k])) == Some(infos[k].status)
  {
    if k < |infos| - 1 {
      LatestUnique(infos[..|infos| - 1], k);
    }
  }

  lemma {:induction false} LatestNone(infos: seq<NodeInfo>, id: NodeId)
    requires forall i :: 0 <= i < |infos| ==> IdOf(infos[i]) != id
    ensures Latest(infos, id) == None
  {
    if infos == [] {
    } else {
      LatestNone(infos[..|infos| - 1], id);
    }
  }

  /** The newest record about its node is published ahead of an older one that says something else. */
  predicate Overtakes(g: Gcs, step: GcsStep) {
    step.Take? && Enabled(g, step) && PassesAt(g.unpublished, step.which)
  }

  predicate PassesAt(u: seq<NodeInfo>, w: nat)
    requires w < |u|
  {
    Passes(u[..w], u[w], u[w + 1..])
  }

  predicate Passes(a: seq<NodeInfo>, x: NodeInfo, b: seq<NodeInfo>) {
    Latest(b, IdOf(x)) == None && Latest(a, IdOf(x)) != None && Latest(a, IdOf(x)) != Some(x.status)
  }

  /** Exactly then does moving a record ahead of others change the latest record about its node. */
  lemma MovedAhead(a: seq<NodeInfo>, x: NodeInfo, b: seq<NodeInfo>, id: NodeId)
    ensures Latest([x] + a + b, id) == Latest(a + [x] + b, id) <==> !(id == IdOf(x) && Passes(a, x, b))
    ensures id == IdOf(x) ==> Latest([x] + a + b, id) != None && Latest(a + [x] + b, id) != None
    ensures Latest([x] + a + b, id) == None <==> Latest(a + [x] + b, id) == None
  {
    LatestConcat([x] + a, b, id);
    LatestConcat(a + [x], b, id);
    LatestConcat([x], a, id);
    LatestConcat(a, [x], id);
    LatestOfOne(x, id);
  }

  function Drop<T>(s: seq<T>, n: nat): seq<T> {
    if n <= |s| then s[n..] else []
  }

  lemma DropConcat<T>(a: seq<T>, b: seq<T>, n: nat)
    requires n <= |a|
    ensures Drop(a + b, n) == Drop(a, n) + b
  {
  }

  /** A record in the log describes a registered node, at the address it registered with; and a node
      once announced dead is not alive. */
  ghost predicate InfoOk(nodes: map<NodeId, NodeInfo>, n: NodeInfo) {
    && |IdOf(n)| == 16
    && IdOf(n) in nodes
    && nodes[IdOf(n)].address == n.address
    && (n.status == Dead ==> nodes[IdOf(n)].status != Alive)
  }

  ghost predicate NodesInv(g: Gcs) {
    && (forall id :: id in g.nodes ==> |id| == 16 && g.nodes[id].address.Some? && IdOf(g.nodes[id]) == id)
    && (forall n :: n in AllInfos(g) ==> InfoOk(g.nodes, n))
  }

  /** The registry's status of every node is the one in the last record about it, published or not. */
  ghost predicate StatusInv(g: Gcs) {
    forall id :: id in g.nodes ==> Latest(AllInfos(g), id) == Some(g.nodes[id].status)
  }

  /** No action forgets a node, moves its address, revives it, or takes it out of draining. */
  lemma NodesStep(g: Gcs, step: GcsStep)
    ensures forall id :: id in g.nodes ==>
      && id in Step(g, step).nodes
      && Step(g, step).nodes[id].address == g.nodes[id].address
      && (g.nodes[id].status != Alive ==> Step(g, step).nodes[id].status != Alive)
      && (g.nodes[id].status == Draining ==> Step(g, step).nodes[id].status == Draining)
  {
  }

  /** Every record to publish is an old one or the current record of its node. */
  lemma InfosOrigin(g: Gcs, step: GcsStep, n: NodeInfo)
    requires NodesInv(g) && n in AllInfos(Step(g, step))
    ensures n in AllInfos(g) || (IdOf(n) in Step(g, step).nodes && n == Step(g, step).nodes[IdOf(n)])
  {
    var g' := Step(g, step);
    if Enabled(g, step) {
      match step {
        case Sweep(d, order) =>
          if n !in AllInfos(g) {
            assert n in Select(g'.nodes, order);
            var i :| 0 <= i < |order| && n == Select(g'.nodes, order)[i];
            assert order[i] in order;
          }
        case Take(w) =>
          assert Infos(Log(g')) == Infos(Log(g)) + [g.unpublished[w]];
        case Push => assert AllInfos(g') == AllInfos(g);
        case Send => assert AllInfos(g') == AllInfos(g);
        case Drain(id) => assert IdOf(g.nodes[id]) == id;
        case _ =>
      }
    }
  }

  lemma NodesInvStep(g: Gcs, step: GcsStep)
    requires NodesInv(g)
    ensures NodesInv(Step(g, step))
  {
    var g' := Step(g, step);
    NodesStep(g, step);
    assert forall id :: id in g'.nodes ==> |id| == 16 && g'.nodes[id].address.Some? && IdOf(g'.nodes[id]) == id;
    forall n | n in AllInfos(g') ensures InfoOk(g'.nodes, n) {
      InfosOrigin(g, step, n);
    }
  }

  /** The records a mutation leaves to be published. */
  function Added(g: Gcs, step: GcsStep): seq<NodeInfo> {
    if !Enabled(g, step) then [] else
    match step
    case Register(id, host, port, now) => [NewNode(id, host, port, now)]
    case Drain(id) => [g.nodes[id].(status := Draining)]
    case Sweep(d, order) => Select(Swept(g.nodes, d), order)
    case _ => []
  }

  lemma AllInfosAfterTake(g: Gcs, w: nat)
    requires w < |g.unpublished| && g.stage == Idle
    ensures AllInfos(DoTake(g, w)) == Infos(Log(g)) + ([g.unpublished[w]] + g.unpublished[..w] + g.unpublished[w + 1..])
    ensures AllInfos(g) == Infos(Log(g)) + (g.unpublished[..w] + [g.unpublished[w]] + g.unpublished[w + 1..])
  {
    assert Infos(Log(DoTake(g, w))) == Infos(Log(g)) + [g.unpublished[w]];
    assert g.unpublished == g.unpublished[..w] + [g.unpublished[w]] + g.unpublished[w + 1..];
  }

  lemma AllInfosAppended(g: Gcs, step: GcsStep)
    requires !step.Take?
    ensures AllInfos(Step(g, step)) == AllInfos(g) + Added(g, step)
  {
  }

  lemma MovedAfter(l: seq<NodeInfo>, a: seq<NodeInfo>, x: NodeInfo, b: seq<NodeInfo>, n: nat, id: NodeId)
    requires n <= |l|
    ensures var before, after := Latest(Drop(l + (a + [x] + b), n), id), Latest(Drop(l + ([x] + a + b), n), id);
            && (after == before <==> !(id == IdOf(x) && Passes(a, x, b)))
            && (after == None <==> before == None)
  {
    MovedAhead(a, x, b, id);
    DropConcat(l, [x] + a + b, n);
    DropConcat(l, a + [x] + b, n);
    LatestConcat(Drop(l, n), [x] + a + b, id);
    LatestConcat(Drop(l, n), a + [x] + b, id);
  }

  lemma TakeAndLatest(g: Gcs, w: nat, n: nat, id: NodeId)
    requires w < |g.unpublished| && g.stage == Idle && n <= |Log(g)|
    ensures var before, after := Latest(Drop(AllInfos(g), n), id), Latest(Drop(AllInfos(DoTake(g, w)), n), id);
            && (after == before <==> !(id == IdOf(g.unpublished[w]) && PassesAt(g.unpublished, w)))
            && (after == None <==> before == None)
  {
    AllInfosAfterTake(g, w);
    MovedAfter(Infos(Log(g)), g.unpublished[..w], g.unpublished[w], g.unpublished[w + 1..], n, id);
  }

  lemma LatestAfterTake(g: Gcs, w: nat, n: nat, id: NodeId)
    requires Enabled(g, Take(w)) && n <= |Log(g)|
    ensures var before, after := Latest(Drop(AllInfos(g), n), id), Latest(Drop(AllInfos(DoTake(g, w)), n), id);
            (!Overtakes(g, Take(w)) ==> after == before) && (after == None <==> before == None)
  {
    TakeAndLatest(g, w, n, id);
    assert Overtakes(g, Take(w)) == PassesAt(g.unpublished, w);
  }

  /** From any point of the log on, a mutation appends its records; publishing changes the latest record
      about a node only by overtaking, and never whether there is one. */
  lemma LatestStep(g: Gcs, step: GcsStep, n: nat, id: NodeId)
    requires n <= |Log(g)|
    ensures var before := Latest(Drop(AllInfos(g), n) + Added(g, step), id);
            var after := Latest(Drop(AllInfos(Step(g, step)), n), id);
            && (!Overtakes(g, step) ==> after == before)
            && (after == None <==> before == None)
  {
    if !step.Take? {
      AllInfosAppended(g, step);
      DropConcat(AllInfos(g), Added(g, step), n);
    } else {
      assert Added(g, step) == [] && Drop(AllInfos(g), n) + [] == Drop(AllInfos(g), n);
      if Enabled(g, step) { LatestAfterTake(g, step.which, n, id); }
    }
  }

  /** A node's new status is the one in the record just added about it, or else its old status. */
  lemma StatusAfter(g: Gcs, step: GcsStep, id: NodeId)
    requires NodesInv(g) && id in Step(g, step).nodes
    ensures var s := Step(g, step).nodes[id].status;
            if Latest(Added(g, step), id).Some? then Latest(Added(g, step), id) == Some(s)
            else id in g.nodes && g.nodes[id].status == s
  {
    if Enabled(g, step) {
      match step {
        case Sweep(d, order) =>
          LatestOfSweep(g, d, order, id);
        case Register(rid, host, port, now) => LatestOfOne(NewNode(rid, host, port, now), id);
        case Drain(did) => LatestOfOne(g.nodes[did].(status := Draining), id);
        case _ =>
      }
    }
  }

  lemma LatestOfOne(n: NodeInfo, id: NodeId)
    ensures Latest([n], id) == if IdOf(n) == id then Some(n.status) else None
  {
  }

  lemma StatusKept(g: Gcs, step: GcsStep, id: NodeId)
    requires NodesInv(g) && StatusInv(g) && !Overtakes(g, step) && id in Step(g, step).nodes
    ensures Latest(AllInfos(Step(g, step)), id) == Some(Step(g, step).nodes[id].status)
  {
    DropNone(AllInfos(g));
    DropNone(AllInfos(Step(g, step)));
    LatestStep(g, step, 0, id);
    LatestConcat(AllInfos(g), Added(g, step), id);
    StatusAfter(g, step, id);
  }

  lemma DropNone<T>(s: seq<T>)
    ensures Drop(s, 0) == s
  {
  }

  lemma WaitingIsKnown(g: Gcs, w: nat)
    requires NodesInv(g) && w < |g.unpublished|
    ensures IdOf(g.unpublished[w]) in g.nodes
  {
    assert AllInfos(g)[|Log(g)| + w] == g.unpublished[w];
    assert InfoOk(g.nodes, g.unpublished[w]);
  }

  lemma StatusLost(g: Gcs, w: nat, id: NodeId)
    requires StatusInv(g) && Overtakes(g, Take(w)) && id == IdOf(g.unpublished[w]) && id in g.nodes
    ensures Latest(AllInfos(DoTake(g, w)), id) != Some(DoTake(g, w).nodes[id].status)
  {
    DropNone(AllInfos(g));
    DropNone(AllInfos(DoTake(g, w)));
    TakeAndLatest(g, w, 0, id);
  }

  /** An action keeps the newest record of every node, published or waiting, equal to the registry's
      status for it, exactly when it does not publish that record ahead of an older, different one. */
  lemma StatusInvStep(g: Gcs, step: GcsStep)
    requires NodesInv(g) && StatusInv(g)
    ensures StatusInv(Step(g, step)) <==> !Overtakes(g, step)
  {
    if Overtakes(g, step) {
      WaitingIsKnown(g, step.which);
      StatusLost(g, step.which, IdOf(g.unpublished[step.which]));
    } else {
      forall id | id in Step(g, step).nodes
        ensures Latest(AllInfos(Step(g, step)), id) == Some(Step(g, step).nodes[id].status)
      {
        StatusKept(g, step, id);
      }
    }
  }

  lemma LatestOfSweep(g: Gcs, d: nat, order: seq<NodeId>, id: NodeId)
    requires NodesInv(g) && Enumerates(order, StaleIds(g.nodes, d)) && id in g.nodes
    ensures Latest(Select(Swept(g.nodes, d), order), id) ==
            if IsStale(g.nodes[id], d) then Some(Dead) else None
  {
    var sel := Select(Swept(g.nodes, d), order);
    forall i | 0 <= i < |order| ensures IdOf(sel[i]) == order[i] { assert order[i] in order; }
    if IsStale(g.nodes[id], d) {
      assert id in StaleIds(g.nodes, d);
      var k :| 0 <= k < |order| && order[k] == id;
      LatestUnique(sel, k);
    } else {
      forall i | 0 <= i < |sel| ensures IdOf(sel[i]) != id { assert order[i] in order; }
      LatestNone(sel, id);
    }
  }

  // ---------- Liveness states over whole runs ----------

  function AliveIds(nodes: map<NodeId, NodeInfo>): set<NodeId> {
    set id | id in nodes && nodes[id].status == Alive
  }

  lemma AliveAfterSweep(nodes: map<NodeId, NodeInfo>, deadline: nat)
    ensures AliveIds(Swept(nodes, deadline)) == AliveIds(nodes) - StaleIds(nodes, deadline)
    ensures |AliveIds(Swept(nodes, deadline))| == |AliveIds(nodes)| - |StaleIds(nodes, deadline)|
  {
  }

  lemma AliveAfterUpdate(nodes: map<NodeId, NodeInfo>, id: NodeId, n: NodeInfo)
    ensures var was := if id in nodes && nodes[id].status == Alive then 1 else 0;
            |AliveIds(nodes[id := n])| == |AliveIds(nodes)| - was + if n.status == Alive then 1 else 0
  {
    var others := AliveIds(nodes) - {id};
    assert AliveIds(nodes[id := n]) == if n.status == Alive then others + {id} else others;
    assert AliveIds(nodes) == if id in nodes && nodes[id].status == Alive then others + {id} else others;
  }

  lemma GaugeStep(g: Gcs, step: GcsStep)
    requires g.nodesAlive == |AliveIds(g.nodes)|
    ensures Step(g, step).nodesAlive == |AliveIds(Step(g, step).nodes)|
  {
    if Enabled(g, step) {
      match step {
        case Register(id, host, port, now) => AliveAfterUpdate(g.nodes, id, NewNode(id, host, port, now));
        case Drain(id) => AliveAfterUpdate(g.nodes, id, g.nodes[id].(status := Draining));
        case Heartbeat(id, now) => AliveAfterUpdate(g.nodes, id, g.nodes[id].(lastHeartbeat := now));
        case Sweep(d, order) =>
          EnumerationLength(order, StaleIds(g.nodes, d));
          AliveAfterSweep(g.nodes, d);
        case _ =>
      }
    }
  }

  /** After every prefix of every run, `nodes_alive` counts the alive nodes; no node is forgotten,
      comes back to life, or leaves the draining state, from any earlier point `k` of the run on. */
  lemma {:induction false} LivenessOverRuns(steps: seq<GcsStep>, k: nat)
    requires k <= |steps|
    ensures var now, past := Run(EMPTY, steps), Run(EMPTY, steps[..k]);
            && now.nodesAlive == |AliveIds(now.nodes)|
            && forall id :: id in past.nodes ==>
                 && id in now.nodes
                 && (past.nodes[id].status != Alive ==> now.nodes[id].status != Alive)
                 && (past.nodes[id].status == Draining ==> now.nodes[id].status == Draining)
  {
    if steps == [] {
    } else {
      var init := steps[..|steps| - 1];
      if k == |steps| {
        assert steps[..k] == steps;
        LivenessOverRuns(init, |init|);
      } else {
        LivenessOverRuns(init, k);
        assert init[..k] == steps[..k];
      }
      GaugeStep(Run(EMPTY, init), steps[|steps| - 1]);
      NodesStep(Run(EMPTY, init), steps[|steps| - 1]);
    }
  }

  /** The time of the latest heartbeat of `id` in `steps`, or the one on record before them. */
  function LastBeat(before: nat, steps: seq<GcsStep>, id: NodeId): nat {
    if steps == [] then before
    else
      var last := steps[|steps| - 1];
      if last.Heartbeat? && last.id == id then last.now else LastBeat(before, steps[..|steps| - 1], id)
  }

  /** No sweep that took place had a deadline later than the latest heartbeat before it. */
  predicate Outlives(g: Gcs, before: nat, steps: seq<GcsStep>, id: NodeId) {
    steps == [] ||
    var init, last := steps[..|steps| - 1], steps[|steps| - 1];
    && Outlives(g, before, init, id)
    && (last.Sweep? && Enabled(Run(g, init), last) ==> last.deadline <= LastBeat(before, init, id))
  }

  /** From any state in which a node is alive: at the end of a run it is draining exactly when it was asked
      to drain, and otherwise dead exactly when some sweep's deadline was later than its latest heartbeat. */
  lemma {:induction false} AliveIffHeartbeatsInTime(g: Gcs, steps: seq<GcsStep>, id: NodeId)
    requires id in g.nodes && g.nodes[id].status == Alive
    ensures id in Run(g, steps).nodes
    ensures Run(g, steps).nodes[id].lastHeartbeat == LastBeat(g.nodes[id].lastHeartbeat, steps, id)
    ensures Run(g, steps).nodes[id].status ==
            if Drain(id) in steps then Draining
            else if Outlives(g, g.nodes[id].lastHeartbeat, steps, id) then Alive
            else Dead
  {
    if steps == [] {
    } else {
      var before, last := steps[..|steps| - 1], steps[|steps| - 1];
      assert steps == before + [last];
      AliveIffHeartbeatsInTime(g, before, id);
      BeatStep(Run(g, before), last, id);
    }
  }

  lemma BeatStep(g: Gcs, step: GcsStep, id: NodeId)
    requires id in g.nodes && g.nodes[id].status != Unspecified
    ensures id in Step(g, step).nodes
    ensures Step(g, step).nodes[id].lastHeartbeat ==
            if step.Heartbeat? && step.id == id then step.now else g.nodes[id].lastHeartbeat
    ensures Step(g, step).nodes[id].address == g.nodes[id].address
    ensures Step(g, step).nodes[id].registeredAt == g.nodes[id].registeredAt
    ensures Step(g, step).nodes[id].status ==
            if step == Drain(id) then Draining
            else if step.Sweep? && Enabled(g, step) && g.nodes[id].status == Alive &&
                    step.deadline > g.nodes[id].lastHeartbeat then Dead
            else g.nodes[id].status
  {
  }

  // ---------- A node from its registration on ----------

  /** A registration the handler accepts. */
  predicate Registers(step: GcsStep, id: NodeId) {
    step.Register? && step.id == id && step.host != "" && |id| == 16
  }

  /** Exactly the nodes that registered are known. */
  lemma {:induction false} KnownIffRegistered(steps: seq<GcsStep>, id: NodeId)
    ensures id in Run(EMPTY, steps).nodes <==> exists i :: 0 <= i < |steps| && Registers(steps[i], id)
  {
    if steps == [] {
    } else {
      var before, last := steps[..|steps| - 1], steps[|steps| - 1];
      KnownIffRegistered(before, id);
      KnownStep(Run(EMPTY, before), last, id);
      if id in Run(EMPTY, before).nodes {
        var i :| 0 <= i < |before| && Registers(before[i], id);
        assert Registers(steps[i], id);
      }
    }
  }

  lemma KnownStep(g: Gcs, step: GcsStep, id: NodeId)
    ensures id in Step(g, step).nodes <==> id in g.nodes || Registers(step, id)
  {
  }

  lemma {:induction false} RunConcat(g: Gcs, a: seq<GcsStep>, b: seq<GcsStep>)
    ensures Run(g, a + b) == Run(Run(g, a), b)
  {
    if b == [] {
      assert a + b == a;
    } else {
      RunConcat(g, a, b[..|b| - 1]);
      assert (a + b)[..|a + b| - 1] == a + b[..|b| - 1];
    }
  }

  lemma {:induction false} IdentityStays(g: Gcs, steps: seq<GcsStep>, id: NodeId)
    requires id in g.nodes && g.nodes[id].status != Unspecified
    ensures id in Run(g, steps).nodes && Run(g, steps).nodes[id].status != Unspecified
    ensures Run(g, steps).nodes[id].address == g.nodes[id].address
    ensures Run(g, steps).nodes[id].registeredAt == g.nodes[id].registeredAt
  {
    if steps == [] {
    } else {
      IdentityStays(g, steps[..|steps| - 1], id);
      BeatStep(Run(g, steps[..|steps| - 1]), steps[|steps| - 1], id);
    }
  }

  lemma JustRegistered(g: Gcs, reg: GcsStep, id: NodeId)
    requires Registers(reg, id) && id !in g.nodes
    ensures var g' := Step(g, reg);
            && id in g'.nodes && g'.nodes[id].status == Alive
            && g'.nodes[id].address == Some(NodeAddress(reg.host, reg.port, id))
            && g'.nodes[id].registeredAt == reg.now && g'.nodes[id].lastHeartbeat == reg.now
  {
  }

  /** In every run, a node whose first accepted registration is `reg` keeps that address and registration
      time; it is draining exactly when it was asked to drain since; and otherwise dead exactly when some
      later sweep's deadline exceeded the latest of its registration and its heartbeats. */
  lemma {:induction false} NodeSinceRegistration(before: seq<GcsStep>, reg: GcsStep, after: seq<GcsStep>, id: NodeId)
    requires Registers(reg, id) && forall i :: 0 <= i < |before| ==> !Registers(before[i], id)
    ensures var g := Run(EMPTY, before + [reg] + after);
            && id in g.nodes && g.nodes[id].address == Some(NodeAddress(reg.host, reg.port, id))
            && g.nodes[id].registeredAt == reg.now && g.nodes[id].lastHeartbeat == LastBeat(reg.now, after, id)
            && g.nodes[id].status ==
               if Drain(id) in after then Draining
               else if Outlives(Run(EMPTY, before + [reg]), reg.now, after, id) then Alive
               else Dead
  {
    KnownIffRegistered(before, id);
    var g := Run(EMPTY, before);
    RunConcat(EMPTY, before, [reg]);
    assert [reg][..0] == [] && Run(g, [reg]) == Step(g, reg);
    RunConcat(EMPTY, before + [reg], after);
    JustRegistered(g, reg, id);
    AliveIffHeartbeatsInTime(Step(g, reg), after, id);
    IdentityStays(Step(g, reg), after, id);
  }
}
