/** The raylet's `WatchNodes` subscription: resume by sequence number, feed the cached node index,
    report dead owners. Composed with the registry and the stream it converges to the registry. */
module WatchClient {
  import opened Bytes
  import opened Enumeration
  import opened Registry
  import opened WatchStream

  /** What the standard library's socket-address parser makes of a host and a port. */
  type Parser = (string, nat) -> Option<string>

  datatype NodeEntry = NodeEntry(status: NodeStatus, addr: string)

  type NodeIndex = map<NodeId, NodeEntry>

  datatype StatusTransition =
    | Inserted(status: NodeStatus)
    | Changed(from: NodeStatus, to: NodeStatus)
    | Unchanged
    | Skipped

  datatype Client = Client(lastSeen: nat, index: NodeIndex, reported: seq<NodeId>)

  // ---------- The node index ----------

  function ParseNodeAddress(parse: Parser, info: NodeInfo): Option<string> {
    if info.address.None? || info.address.value.port >= 0x1_0000 then None
    else parse(info.address.value.host, info.address.value.port)
  }

  /** `apply_event` indexes this record rather than skipping it. */
  predicate Indexable(parse: Parser, info: NodeInfo) {
    ParseNodeAddress(parse, info).Some? && |IdOf(info)| == 16
  }

  function ApplyEvent(parse: Parser, index: NodeIndex, info: NodeInfo): (NodeIndex, StatusTransition) {
    if !Indexable(parse, info) then (index, Skipped)
    else
      var id := IdOf(info);
      var index' := index[id := NodeEntry(info.status, ParseNodeAddress(parse, info).value)];
      (index',
       if id !in index then Inserted(info.status)
       else if index[id].status == info.status then Unchanged
       else Changed(index[id].status, info.status))
  }

  predicate ReportsDeath(t: StatusTransition) {
    t == Inserted(Dead) || (t.Changed? && t.to == Dead)
  }

  function Consume(parse: Parser, c: Client, e: Event): Client {
    var (index', t) := ApplyEvent(parse, c.index, e.node);
    Client(Max(c.lastSeen, e.sequence), index',
           if ReportsDeath(t) then c.reported + [IdOf(e.node)] else c.reported)
  }

  function StatusOf(index: NodeIndex, id: NodeId): Option<NodeStatus> {
    if id in index then Some(index[id].status) else None
  }

  /** A death is reported each time the index turns to it, and at no other time. */
  lemma ReportsEachDeath(parse: Parser, c: Client, e: Event)
    ensures var id := IdOf(e.node);
            var dies := Indexable(parse, e.node) && e.node.status == Dead && StatusOf(c.index, id) != Some(Dead);
            Consume(parse, c, e).reported == c.reported + if dies then [id] else []
  {
  }

  // ---------- Registry, stream and client together ----------

  datatype World = World(gcs: Gcs, stream: Stream, client: Client)

  datatype WorldStep =
    | AtGcs(g: GcsStep)
    | OpenStream
    | AtServer(s: StreamStep)   // CatchUp, YieldCatchup and YieldLive
    | Deliver                   // the client takes the next item off the wire
    | LoseStream                // transient error or clean end: the resume token is kept

  const START := World(EMPTY, Closed, Client(0, map[], []))

  function Next(parse: Parser, w: World, step: WorldStep): World {
    match step
    case AtGcs(g) => w.(gcs := Step(w.gcs, g))
    case OpenStream => w.(stream := StreamNext(w.gcs, w.stream, Subscribe(w.client.lastSeen)))
    case AtServer(s) =>
      if s.CatchUp? || s.YieldCatchup? || s.YieldLive? then w.(stream := StreamNext(w.gcs, w.stream, s)) else w
    case Deliver =>
      if !w.stream.Open? then w
      else if w.stream.wire != [] then
        w.(stream := StreamNext(w.gcs, w.stream, Receive), client := Consume(parse, w.client, w.stream.wire[0]))
      else if w.stream.failed then w.(stream := Closed, client := w.client.(lastSeen := 0))
      else w
    case LoseStream => w.(stream := Closed)
  }

  function RunWorld(parse: Parser, steps: seq<WorldStep>): World {
    if steps == [] then START
    else Next(parse, RunWorld(parse, steps[..|steps| - 1]), steps[|steps| - 1])
  }

  /** Throughout the run, no newest record about a node is published ahead of an older, different one. */
  predicate OrderedRun(parse: Parser, steps: seq<WorldStep>) {
    steps == [] ||
    var before, last := steps[..|steps| - 1], steps[|steps| - 1];
    OrderedRun(parse, before) && (last.AtGcs? ==> !Overtakes(RunWorld(parse, before).gcs, last.g))
  }

  // ---------- What the index will hold once everything to come has been applied ----------

  function FinalStatus(index: NodeIndex, future: seq<NodeInfo>, id: NodeId): Option<NodeStatus> {
    if Latest(future, id).Some? then Latest(future, id) else StatusOf(index, id)
  }

  /** Where the index is heading as to `id`, with `held` on its way and then the log from `n` on. If a
      record is still to come from there, it will be the latest of all. If not, what the index will
      hold is that already, or the status the registry showed in a snapshot. */
  predicate Heads(g: Gcs, index: NodeIndex, held: seq<NodeInfo>, n: nat, id: NodeId)
    requires id in g.nodes
  {
    Latest(Drop(AllInfos(g), n), id) == None ==>
      FinalStatus(index, held, id) == Latest(AllInfos(g), id) ||
      FinalStatus(index, held, id) == Some(g.nodes[id].status)
  }

  ghost predicate Covered(parse: Parser, g: Gcs, index: NodeIndex, held: seq<NodeInfo>, n: nat) {
    forall id :: id in g.nodes && Indexable(parse, g.nodes[id]) ==> Heads(g, index, held, n, id)
  }

  /** On its way on an open stream: items on the wire and the rest of the batch. */
  function Held(s: Stream): seq<NodeInfo>
    requires s.Open?
  {
    Infos(s.wire + s.catchup)
  }

  /** The resume token after what an open stream has delivered. */
  function ExpectedLastSeen(s: Stream): nat
    requires s.Open?
  {
    if s.token > 0 then Max(s.token, StartOf(s) + |s.delivered|)
    else if |s.delivered| <= |s.base| then 0
    else s.subscribedAt + |s.delivered| - |s.base|
  }

  /** The client's token is one the server handed out, and it matches what the stream delivered. */
  ghost predicate TokenInv(w: World) {
    && w.client.lastSeen <= |PushedLog(w.gcs)|
    && (w.stream.Subscribed? ==> w.stream.token == w.client.lastSeen <= w.stream.subscribedAt + 1)
    && (w.stream.Open? ==>
          && w.client.lastSeen == ExpectedLastSeen(w.stream)
          && w.stream.token <= StartOf(w.stream) + 1)
  }

  ghost predicate BaseInfosOk(w: World) {
    w.stream.Open? ==> forall e :: e in w.stream.base ==> InfoOk(w.gcs.nodes, e.node)
  }

  ghost predicate CoverInv(parse: Parser, w: World) {
    && Covered(parse, w.gcs, w.client.index, [], w.client.lastSeen)
    && (w.stream.Open? ==> Covered(parse, w.gcs, w.client.index, Held(w.stream), LiveTo(w.stream)))
  }

  /** Every node has been announced, or is about to be. */
  ghost predicate Announced(g: Gcs) {
    forall id :: id in g.nodes ==> Latest(AllInfos(g), id) != None
  }

  /** The index lists registered, indexable nodes at their addresses; the dead among them have been
      reported; and no
      node that is alive has ever been reported. */
  ghost predicate ReportInv(parse: Parser, w: World) {
    && (forall id :: id in w.client.index ==>
          && id in w.gcs.nodes && Indexable(parse, w.gcs.nodes[id])
          && Some(w.client.index[id].addr) == ParseNodeAddress(parse, w.gcs.nodes[id])
          && (w.client.index[id].status == Dead ==> id in w.client.reported))
    && (forall id :: id in w.client.reported ==> id in w.gcs.nodes && w.gcs.nodes[id].status != Alive)
  }

  /** What the protocol keeps whatever is published when: log, stream and token; */
  ghost predicate ProtocolInv(w: World) {
    LogInv(w.gcs) && StreamInv(w.gcs, w.stream) && TokenInv(w)
  }

  /** the records under way and those applied; */
  ghost predicate RecordsInv(parse: Parser, w: World) {
    NodesInv(w.gcs) && BaseInfosOk(w) && ReportInv(parse, w)
  }

  /** and where the index is heading. */
  ghost predicate HeadingInv(parse: Parser, w: World) {
    Announced(w.gcs) && CoverInv(parse, w)
  }

  // ---------- Registry actions ----------

  lemma LatestInParts(all: seq<NodeInfo>, n: nat, id: NodeId)
    requires n <= |all|
    ensures Latest(all, id) ==
            if Latest(Drop(all, n), id) != None then Latest(Drop(all, n), id) else Latest(all[..n], id)
  {
    assert all == all[..n] + Drop(all, n);
    LatestConcat(all[..n], Drop(all, n), id);
  }

  lemma LogPrefixStays(g: Gcs, step: GcsStep, n: nat)
    requires LogInv(g) && n <= |Log(g)|
    ensures n <= |Log(Step(g, step))| && AllInfos(Step(g, step))[..n] == AllInfos(g)[..n]
  {
    LogInvStep(g, step);
    var log, log' := Log(g), Log(Step(g, step));
    forall i | 0 <= i < n ensures AllInfos(Step(g, step))[i] == AllInfos(g)[i] { assert log[i] == log'[i]; }
  }

  /** If after an action nothing about `id` is to come from `n` on, the action was not about `id`. */
  lemma HeadsGcsStep(g: Gcs, step: GcsStep, index: NodeIndex, held: seq<NodeInfo>, n: nat, id: NodeId)
    requires LogInv(g) && NodesInv(g) && n <= |Log(g)| && id in Step(g, step).nodes
    requires id in g.nodes ==> Heads(g, index, held, n, id)
    ensures Heads(Step(g, step), index, held, n, id)
  {
    LatestStep(g, step, n, id);
    LatestConcat(Drop(AllInfos(g), n), Added(g, step), id);
    StatusAfter(g, step, id);
    LogPrefixStays(g, step, n);
    LatestInParts(AllInfos(g), n, id);
    LatestInParts(AllInfos(Step(g, step)), n, id);
  }

  lemma CoveredGcsStep(parse: Parser, g: Gcs, step: GcsStep, index: NodeIndex, held: seq<NodeInfo>, n: nat)
    requires LogInv(g) && NodesInv(g) && n <= |Log(g)| && Covered(parse, g, index, held, n)
    ensures Covered(parse, Step(g, step), index, held, n)
  {
    var g' := Step(g, step);
    NodesStep(g, step);
    forall id | id in g'.nodes && Indexable(parse, g'.nodes[id]) ensures Heads(g', index, held, n, id) {
      HeadsGcsStep(g, step, index, held, n, id);
    }
  }

  lemma AnnouncedStep(g: Gcs, step: GcsStep)
    requires NodesInv(g) && Announced(g)
    ensures Announced(Step(g, step))
  {
    forall id | id in Step(g, step).nodes ensures Latest(AllInfos(Step(g, step)), id) != None {
      DropNone(AllInfos(g));
      DropNone(AllInfos(Step(g, step)));
      LatestStep(g, step, 0, id);
      LatestConcat(AllInfos(g), Added(g, step), id);
      StatusAfter(g, step, id);
    }
  }

  lemma ProtocolGcsStep(w: World, step: GcsStep)
    requires ProtocolInv(w)
    ensures ProtocolInv(w.(gcs := Step(w.gcs, step)))
  {
    LogInvStep(w.gcs, step);
    StreamInvGcsStep(w.gcs, w.stream, step);
  }

  lemma RecordsGcsStep(parse: Parser, w: World, step: GcsStep)
    requires RecordsInv(parse, w)
    ensures RecordsInv(parse, w.(gcs := Step(w.gcs, step)))
  {
    NodesInvStep(w.gcs, step);
    NodesStep(w.gcs, step);
  }

  lemma HeadingGcsStep(parse: Parser, w: World, step: GcsStep)
    requires ProtocolInv(w) && NodesInv(w.gcs) && HeadingInv(parse, w)
    ensures HeadingInv(parse, w.(gcs := Step(w.gcs, step)))
  {
    AnnouncedStep(w.gcs, step);
    CoveredGcsStep(parse, w.gcs, step, w.client.index, [], w.client.lastSeen);
    if w.stream.Open? { CoveredGcsStep(parse, w.gcs, step, w.client.index, Held(w.stream), LiveTo(w.stream)); }
  }

  // ---------- Stream actions ----------

  lemma LatestAround(all: seq<NodeInfo>, k: nat, n: nat, id: NodeId)
    requires k <= n <= |all|
    ensures var before, held, rest := Latest(all[..k], id), Latest(all[k..n], id), Latest(Drop(all, n), id);
            && Latest(Drop(all, k), id) == (if rest != None then rest else held)
            && Latest(all, id) == (if rest != None then rest else if held != None then held else before)
  {
    LatestInParts(all, k, id);
    assert Drop(all, k) == all[k..n] + Drop(all, n);
    LatestConcat(all[k..n], Drop(all, n), id);
  }

  /** Whether a stretch of the log is on its way or still to come makes no difference. */
  lemma HeldIsToCome(parse: Parser, g: Gcs, index: NodeIndex, k: nat, n: nat)
    requires k <= n <= |AllInfos(g)|
    ensures Covered(parse, g, index, AllInfos(g)[k..n], n) <==> Covered(parse, g, index, [], k)
  {
    forall id | id in g.nodes ensures Heads(g, index, AllInfos(g)[k..n], n, id) <==> Heads(g, index, [], k, id) {
      LatestAround(AllInfos(g), k, n, id);
    }
  }

  /** Asking for more of the log than is needed does no harm. */
  lemma CoveredEarlier(parse: Parser, g: Gcs, index: NodeIndex, k: nat, k': nat)
    requires k' <= k <= |AllInfos(g)| && Covered(parse, g, index, [], k)
    ensures Covered(parse, g, index, [], k')
  {
    var all := AllInfos(g);
    forall id | id in g.nodes && Indexable(parse, g.nodes[id]) ensures Heads(g, index, [], k', id) {
      assert Drop(all, k') == all[k'..k] + Drop(all, k);
      LatestConcat(all[k'..k], Drop(all, k), id);
    }
  }

  lemma CoveredFromZero(parse: Parser, g: Gcs, index: NodeIndex)
    requires Announced(g)
    ensures Covered(parse, g, index, [], 0)
  {
    DropNone(AllInfos(g));
  }

  lemma SnapshotInfos(g: Gcs, order: seq<NodeId>, id: NodeId)
    requires NodesInv(g) && Enumerates(order, g.nodes.Keys) && id in g.nodes
    ensures Latest(Infos(SnapshotEvents(g, order)), id) == Some(g.nodes[id].status)
  {
    var snap := Infos(SnapshotEvents(g, order));
    forall i | 0 <= i < |order| ensures IdOf(snap[i]) == order[i] { assert order[i] in order; }
    var k :| 0 <= k < |order| && order[k] == id;
    LatestUnique(snap, k);
  }

  lemma CoveredBySnapshot(parse: Parser, g: Gcs, index: NodeIndex, order: seq<NodeId>, at: nat)
    requires NodesInv(g) && Enumerates(order, g.nodes.Keys)
    ensures Covered(parse, g, index, Infos(SnapshotEvents(g, order)), at)
  {
    forall id | id in g.nodes ensures Heads(g, index, Infos(SnapshotEvents(g, order)), at, id) {
      SnapshotInfos(g, order, id);
    }
  }

  lemma HeldIsLog(g: Gcs, s: Stream, p: nat)
    requires s.Open? && p <= LiveTo(s) <= |Log(g)| && s.wire + s.catchup == Log(g)[p..LiveTo(s)]
    ensures LiveTo(s) <= |AllInfos(g)| && Held(s) == AllInfos(g)[p..LiveTo(s)]
  {
    var items, all := s.wire + s.catchup, AllInfos(g);
    assert |Held(s)| == LiveTo(s) - p;
    forall i | 0 <= i < |items| ensures Held(s)[i] == all[p..LiveTo(s)][i] {
      assert items[i] == Log(g)[p + i];
      assert all[p + i] == Log(g)[p + i].node;
    }
  }

  lemma StretchRest(log: seq<Event>, from: nat, a: seq<Event>, b: seq<Event>)
    requires StretchOf(log, from, a + b)
    ensures from + |a + b| <= |log| && b == log[from + |a|..from + |a + b|]
  {
    assert b == (a + b)[|a|..];
  }

  lemma RestOfTwo(base: seq<Event>, tail: seq<Event>, a: seq<Event>, b: seq<Event>)
    requires a + b == base + tail && |a| >= |base|
    ensures |a| - |base| <= |tail| && b == tail[|a| - |base|..]
  {
    assert b == (a + b)[|a|..] && tail == (base + tail)[|base|..];
  }

  /** Past any snapshot records, what an open stream still holds is the log from `p` on. */
  lemma RestOfStream(log: seq<Event>, s: Stream, p: nat)
    requires s.Open? && s.subscribedAt <= s.cursor && s.subscribedAt <= s.pushedAtCatchup
    requires BaseOk(log, s) && CarriedOk(log, s)
    requires if s.token > 0 then p == StartOf(s) + |s.delivered|
             else |s.delivered| >= |s.base| && p == s.subscribedAt + |s.delivered| - |s.base|
    ensures p <= LiveTo(s) <= |log| && s.wire + s.catchup == log[p..LiveTo(s)]
  {
    var rest := s.wire + s.catchup;
    assert Carried(s) == s.delivered + rest;
    if s.token > 0 {
      CarriedIsContiguous(log, s);
      StretchRest(log, StartOf(s), s.delivered, rest);
    } else {
      assert LiveFrom(s) == s.subscribedAt;
      RestOfTwo(s.base, log[LiveFrom(s)..LiveTo(s)], s.delivered, rest);
      assert log[LiveFrom(s)..LiveTo(s)][p - LiveFrom(s)..] == log[p..LiveTo(s)];
    }
  }

  lemma ResumeCovered(parse: Parser, w: World, s': Stream)
    requires StreamInv(w.gcs, s') && s'.Open? && s'.delivered == []
    requires s'.token > 0 && StartOf(s') <= s'.token == w.client.lastSeen <= |Log(w.gcs)|
    requires Covered(parse, w.gcs, w.client.index, [], w.client.lastSeen)
    ensures Covered(parse, w.gcs, w.client.index, Held(s'), LiveTo(s'))
  {
    RestOfStream(Log(w.gcs), s', StartOf(s'));
    HeldIsLog(w.gcs, s', StartOf(s'));
    CoveredEarlier(parse, w.gcs, w.client.index, s'.token, StartOf(s'));
    HeldIsToCome(parse, w.gcs, w.client.index, StartOf(s'), LiveTo(s'));
  }

  lemma BaseInfosOfCatchUp(w: World, s': Stream, order: seq<NodeId>)
    requires NodesInv(w.gcs) && s'.Open? && BaseOk(Log(w.gcs), s')
    requires s'.token == 0 ==> Enumerates(order, w.gcs.nodes.Keys) && s'.base == SnapshotEvents(w.gcs, order)
    ensures BaseInfosOk(w.(stream := s'))
  {
  }

  lemma CatchUpKeepsCover(parse: Parser, w: World, s': Stream, order: seq<NodeId>)
    requires NodesInv(w.gcs) && StreamInv(w.gcs, s') && s'.Open? && s'.delivered == []
    requires s'.wire == [] && s'.catchup == s'.base
    requires StartOf(s') <= s'.token == w.client.lastSeen <= |Log(w.gcs)| || s'.token == 0
    requires s'.token == 0 ==> Enumerates(order, w.gcs.nodes.Keys) && s'.base == SnapshotEvents(w.gcs, order)
    requires Covered(parse, w.gcs, w.client.index, [], w.client.lastSeen)
    ensures Covered(parse, w.gcs, w.client.index, Held(s'), LiveTo(s'))
  {
    if s'.token == 0 {
      assert s'.wire + s'.catchup == s'.base;
      CoveredBySnapshot(parse, w.gcs, w.client.index, order, LiveTo(s'));
    } else {
      ResumeCovered(parse, w, s');
    }
  }

  lemma CatchUpKeepsProtocol(w: World, order: seq<NodeId>)
    requires ProtocolInv(w) && StreamEnabled(w.gcs, w.stream, CatchUp(order))
    ensures ProtocolInv(w.(stream := StreamNext(w.gcs, w.stream, CatchUp(order))))
  {
    StreamInvCatchUp(w.gcs, w.stream, order);
  }

  lemma CatchUpKeepsRest(parse: Parser, w: World, order: seq<NodeId>)
    requires ProtocolInv(w) && RecordsInv(parse, w) && StreamEnabled(w.gcs, w.stream, CatchUp(order))
    requires StreamInv(w.gcs, StreamNext(w.gcs, w.stream, CatchUp(order)))
    ensures var w' := w.(stream := StreamNext(w.gcs, w.stream, CatchUp(order)));
            RecordsInv(parse, w') && (HeadingInv(parse, w) ==> HeadingInv(parse, w'))
  {
    var s' := StreamNext(w.gcs, w.stream, CatchUp(order));
    if s'.Open? {
      BaseInfosOfCatchUp(w, s', order);
      if HeadingInv(parse, w) { CatchUpKeepsCover(parse, w, s', order); }
    }
  }

  lemma NextOfLog(all: seq<NodeInfo>, n: nat, id: NodeId)
    requires n < |all|
    ensures var x, rest := Latest([all[n]], id), Latest(Drop(all, n + 1), id);
            && Latest(Drop(all, n), id) == (if rest != None then rest else x)
            && (rest == None && x != None ==> Latest(all, id) == x)
  {
    LatestAround(all, n, n + 1, id);
    assert all[n..n + 1] == [all[n]];
  }

  /** A record that is the next to come may as well be on its way. */
  lemma LiveItemJoinsWire(parse: Parser, g: Gcs, index: NodeIndex, held: seq<NodeInfo>, n: nat)
    requires n < |AllInfos(g)| && Covered(parse, g, index, held, n)
    ensures Covered(parse, g, index, held + [AllInfos(g)[n]], n + 1)
  {
    var x := AllInfos(g)[n];
    forall id | id in g.nodes && Indexable(parse, g.nodes[id]) ensures Heads(g, index, held + [x], n + 1, id) {
      NextOfLog(AllInfos(g), n, id);
      LatestConcat(held, [x], id);
      assert Heads(g, index, held, n, id);
    }
  }

  lemma LiveItem(g: Gcs, s: Stream)
    requires LogInv(g) && s.Open? && s.cursor < |g.channel|
    ensures g.channel[s.cursor].sequence == s.cursor + 1
    ensures s.cursor < |AllInfos(g)| && g.channel[s.cursor].node == AllInfos(g)[s.cursor]
  {
    assert g.channel[s.cursor] == Log(g)[s.cursor];
  }

  lemma InfosSnoc(items: seq<Event>, e: Event)
    ensures Infos(items + [e]) == Infos(items) + [e.node]
  {
  }

  lemma YieldLiveCovers(parse: Parser, g: Gcs, index: NodeIndex, s: Stream)
    requires LogInv(g) && s.Open? && StreamEnabled(g, s, YieldLive) && Covered(parse, g, index, Held(s), LiveTo(s))
    ensures Covered(parse, g, index, Held(PullLive(g, s)), LiveTo(PullLive(g, s)))
  {
    var s' := PullLive(g, s);
    LiveItem(g, s);
    if s'.wire == s.wire {
      DroppedKeepsHeld(g, s);
    } else {
      JoinsHeld(g, s);
      var held, n := Held(s), s.cursor;
      assert Covered(parse, g, index, held, n);
      LiveItemJoinsWire(parse, g, index, held, n);
      assert Held(s') == held + [AllInfos(g)[n]] && LiveTo(s') == n + 1;
    }
  }

  /** A lag or a duplicate moves nothing onto the wire. */
  lemma DroppedKeepsHeld(g: Gcs, s: Stream)
    requires s.Open? && s.cursor < |g.channel| && g.channel[s.cursor].sequence == s.cursor + 1
    requires PullLive(g, s).wire == s.wire
    ensures Held(PullLive(g, s)) == Held(s) && LiveTo(PullLive(g, s)) == LiveTo(s)
  {
    assert |s.wire + [g.channel[s.cursor]]| == |s.wire| + 1;
  }

  lemma JoinsHeld(g: Gcs, s: Stream)
    requires s.Open? && s.catchup == [] && s.cursor < |g.channel| && g.channel[s.cursor].sequence == s.cursor + 1
    requires PullLive(g, s).wire != s.wire
    ensures Held(PullLive(g, s)) == Held(s) + [g.channel[s.cursor].node]
    ensures LiveTo(s) == s.cursor && LiveTo(PullLive(g, s)) == s.cursor + 1
  {
    var e := g.channel[s.cursor];
    InfosSnoc(s.wire, e);
    assert s.wire + s.catchup == s.wire && (s.wire + [e]) + s.catchup == s.wire + [e];
  }

  lemma YieldKeepsCover(parse: Parser, g: Gcs, index: NodeIndex, s: Stream, step: StreamStep)
    requires LogInv(g) && s.Open? && (step.YieldCatchup? || step.YieldLive?)
    requires Covered(parse, g, index, Held(s), LiveTo(s))
    ensures StreamNext(g, s, step).Open?
    ensures Covered(parse, g, index, Held(StreamNext(g, s, step)), LiveTo(StreamNext(g, s, step)))
  {
    if StreamEnabled(g, s, step) {
      if step.YieldCatchup? { MoveHead([], s.wire, s.catchup); } else { YieldLiveCovers(parse, g, index, s); }
    }
  }

  lemma YieldKeepsToken(w: World, step: StreamStep)
    requires TokenInv(w) && w.stream.Open? && (step.YieldCatchup? || step.YieldLive?)
    ensures TokenInv(w.(stream := StreamNext(w.gcs, w.stream, step)))
  {
  }

  lemma YieldKeepsProtocol(w: World, step: StreamStep)
    requires ProtocolInv(w) && w.stream.Open? && (step.YieldCatchup? || step.YieldLive?)
    ensures ProtocolInv(w.(stream := StreamNext(w.gcs, w.stream, step)))
  {
    StreamInvStep(w.gcs, w.stream, step);
    YieldKeepsToken(w, step);
  }

  lemma YieldKeepsRecords(parse: Parser, w: World, step: StreamStep)
    requires RecordsInv(parse, w) && w.stream.Open? && (step.YieldCatchup? || step.YieldLive?)
    ensures RecordsInv(parse, w.(stream := StreamNext(w.gcs, w.stream, step)))
  {
    assert StreamNext(w.gcs, w.stream, step).base == w.stream.base;
  }

  lemma YieldKeepsRest(parse: Parser, w: World, step: StreamStep)
    requires ProtocolInv(w) && RecordsInv(parse, w) && w.stream.Open? && (step.YieldCatchup? || step.YieldLive?)
    ensures var w' := w.(stream := StreamNext(w.gcs, w.stream, step));
            RecordsInv(parse, w') && (HeadingInv(parse, w) ==> HeadingInv(parse, w'))
  {
    YieldKeepsRecords(parse, w, step);
    if HeadingInv(parse, w) { YieldKeepsCover(parse, w.gcs, w.client.index, w.stream, step); }
  }

  // ---------- Deliveries ----------

  /** Applying the first record on its way leaves the outcome as it was. */
  lemma ApplyKeepsCover(parse: Parser, g: Gcs, index: NodeIndex, x: NodeInfo, held: seq<NodeInfo>, n: nat)
    requires InfoOk(g.nodes, x) && Covered(parse, g, index, [x] + held, n)
    ensures Covered(parse, g, ApplyEvent(parse, index, x).0, held, n)
  {
    var index' := ApplyEvent(parse, index, x).0;
    forall id | id in g.nodes && Indexable(parse, g.nodes[id]) ensures Heads(g, index', held, n, id) {
      LatestConcat([x], held, id);
      LatestOfOne(x, id);
      assert Heads(g, index, [x] + held, n, id);
    }
  }

  lemma FirstOnWire(s: Stream)
    requires s.Open? && s.wire != []
    ensures |s.delivered| < |Carried(s)| && Carried(s)[|s.delivered|] == s.wire[0]
  {
  }

  /** The next item is one of the batch or an event of the log. */
  lemma WireItemFrom(log: seq<Event>, s: Stream) returns (j: nat)
    requires s.Open? && s.wire != [] && CarriedOk(log, s)
    ensures s.wire[0] in s.base || (j < |log| && s.wire[0] == log[j])
  {
    var i := |s.delivered|;
    FirstOnWire(s);
    if i < |s.base| {
      j := 0;
      assert s.wire[0] == s.base[i];
    } else {
      j := LiveFrom(s) + (i - |s.base|);
      assert s.wire[0] == log[LiveFrom(s)..LiveTo(s)][i - |s.base|];
    }
  }

  lemma WireItemOk(w: World)
    requires NodesInv(w.gcs) && StreamInv(w.gcs, w.stream) && BaseInfosOk(w) && w.stream.Open? && w.stream.wire != []
    ensures InfoOk(w.gcs.nodes, w.stream.wire[0].node)
  {
    var j := WireItemFrom(Log(w.gcs), w.stream);
    if w.stream.wire[0] !in w.stream.base {
      assert AllInfos(w.gcs)[j] == w.stream.wire[0].node;
      assert w.stream.wire[0].node in AllInfos(w.gcs);
    }
  }

  lemma StretchAt(log: seq<Event>, from: nat, es: seq<Event>, i: nat)
    requires StretchOf(log, from, es) && i < |es|
    ensures from + i < |log| && es[i] == log[from + i]
  {
  }

  /** The sequence number of the next item, from its place in the stream. */
  lemma WireItemSequence(log: seq<Event>, s: Stream)
    requires Numbered(log) && s.Open? && s.wire != []
    requires s.subscribedAt <= s.cursor && s.subscribedAt <= s.pushedAtCatchup && BaseOk(log, s) && CarriedOk(log, s)
    ensures s.wire[0].sequence ==
            if s.token > 0 then StartOf(s) + |s.delivered| + 1
            else if |s.delivered| < |s.base| then 0
            else s.subscribedAt + |s.delivered| - |s.base| + 1
  {
    var i := |s.delivered|;
    FirstOnWire(s);
    if s.token > 0 {
      CarriedIsContiguous(log, s);
      StretchAt(log, StartOf(s), Carried(s), i);
    } else if i < |s.base| {
      assert s.wire[0] == s.base[i];
      assert s.wire[0] in s.base;
    } else {
      assert LiveFrom(s) == s.subscribedAt;
      assert s.wire[0] == log[LiveFrom(s)..LiveTo(s)][i - |s.base|];
      assert s.wire[0] == log[s.subscribedAt + (i - |s.base|)];
    }
  }

  /** Items are numbered events that reached the buffer, so the token stays within it. */
  lemma DeliverKeepsToken(parse: Parser, w: World)
    requires LogInv(w.gcs) && StreamInv(w.gcs, w.stream) && TokenInv(w) && w.stream.Open? && w.stream.wire != []
    ensures TokenInv(Next(parse, w, Deliver))
  {
    WireItemSequence(Log(w.gcs), w.stream);
    assert |Carried(w.stream)| > |w.stream.delivered|;
  }

  lemma TokenCovered(parse: Parser, g: Gcs, index: NodeIndex, s: Stream)
    requires Announced(g) && StreamInv(g, s) && s.Open? && s.delivered != [] && s.token <= StartOf(s) + 1
    requires Covered(parse, g, index, Held(s), LiveTo(s))
    ensures Covered(parse, g, index, [], ExpectedLastSeen(s))
  {
    var k := ExpectedLastSeen(s);
    if k == 0 {
      CoveredFromZero(parse, g, index);
    } else {
      RestOfStream(Log(g), s, k);
      HeldIsLog(g, s, k);
      HeldIsToCome(parse, g, index, k, LiveTo(s));
    }
  }

  lemma InfosOfFirst(items: seq<Event>)
    requires items != []
    ensures Infos(items) == [items[0].node] + Infos(items[1..])
  {
    forall i | 0 <= i < |items| ensures Infos(items)[i] == ([items[0].node] + Infos(items[1..]))[i] {
      if i > 0 { assert items[1..][i - 1] == items[i]; }
    }
  }

  lemma HeldAfterReceive(g: Gcs, s: Stream)
    requires s.Open? && s.wire != []
    ensures var s' := StreamNext(g, s, Receive);
            s'.Open? && Held(s) == [s.wire[0].node] + Held(s') && LiveTo(s') == LiveTo(s)
  {
    var items := s.wire + s.catchup;
    assert items[0] == s.wire[0] && items[1..] == s.wire[1..] + s.catchup;
    InfosOfFirst(items);
  }

  lemma DeliverKeepsCover(parse: Parser, w: World)
    requires NodesInv(w.gcs) && StreamInv(w.gcs, w.stream) && BaseInfosOk(w)
    requires w.stream.Open? && w.stream.wire != []
    requires Covered(parse, w.gcs, w.client.index, Held(w.stream), LiveTo(w.stream))
    ensures var s' := StreamNext(w.gcs, w.stream, Receive);
            Covered(parse, w.gcs, ApplyEvent(parse, w.client.index, w.stream.wire[0].node).0, Held(s'), LiveTo(s'))
  {
    var s' := StreamNext(w.gcs, w.stream, Receive);
    WireItemOk(w);
    HeldAfterReceive(w.gcs, w.stream);
    ApplyKeepsCover(parse, w.gcs, w.client.index, w.stream.wire[0].node, Held(s'), LiveTo(s'));
  }

  lemma ApplyKeepsReports(parse: Parser, w: World, e: Event)
    requires ReportInv(parse, w) && InfoOk(w.gcs.nodes, e.node)
    ensures ReportInv(parse, w.(client := Consume(parse, w.client, e)))
  {
  }

  lemma DeliverKeepsReports(parse: Parser, w: World)
    requires NodesInv(w.gcs) && StreamInv(w.gcs, w.stream) && BaseInfosOk(w) && ReportInv(parse, w)
    requires w.stream.Open? && w.stream.wire != []
    ensures ReportInv(parse, Next(parse, w, Deliver))
  {
    WireItemOk(w);
    ApplyKeepsReports(parse, w, w.stream.wire[0]);
  }

  lemma DeliverItemKeeps(parse: Parser, w: World, w': World)
    requires NodesInv(w.gcs) && Announced(w.gcs) && StreamInv(w.gcs, w.stream) && BaseInfosOk(w) && CoverInv(parse, w)
    requires w.stream.Open? && w.stream.wire != [] && w' == Next(parse, w, Deliver)
    requires StreamInv(w'.gcs, w'.stream) && TokenInv(w')
    ensures CoverInv(parse, w')
  {
    DeliverKeepsCover(parse, w);
    Delivered(parse, w);
    TokenFollows(parse, w');
  }

  lemma Delivered(parse: Parser, w: World)
    requires w.stream.Open? && w.stream.wire != []
    ensures var w' := Next(parse, w, Deliver);
            && w'.gcs == w.gcs && w'.stream == StreamNext(w.gcs, w.stream, Receive)
            && w'.stream.Open? && w'.stream.delivered != []
            && w'.client.index == ApplyEvent(parse, w.client.index, w.stream.wire[0].node).0
  {
  }

  lemma TokenFollows(parse: Parser, w: World)
    requires Announced(w.gcs) && StreamInv(w.gcs, w.stream) && TokenInv(w)
    requires w.stream.Open? && w.stream.delivered != []
    requires Covered(parse, w.gcs, w.client.index, Held(w.stream), LiveTo(w.stream))
    ensures CoverInv(parse, w)
  {
    TokenCovered(parse, w.gcs, w.client.index, w.stream);
  }

  lemma DeliverKeepsProtocol(parse: Parser, w: World)
    requires ProtocolInv(w)
    ensures ProtocolInv(Next(parse, w, Deliver))
  {
    if w.stream.Open? && w.stream.wire != [] {
      StreamInvStep(w.gcs, w.stream, Receive);
      DeliverKeepsToken(parse, w);
    }
  }

  lemma DeliverKeepsRecords(parse: Parser, w: World)
    requires StreamInv(w.gcs, w.stream) && RecordsInv(parse, w)
    ensures RecordsInv(parse, Next(parse, w, Deliver))
  {
    if w.stream.Open? && w.stream.wire != [] { DeliverKeepsReports(parse, w); }
  }

  lemma DeliverKeepsHeading(parse: Parser, w: World)
    requires ProtocolInv(w) && NodesInv(w.gcs) && BaseInfosOk(w) && HeadingInv(parse, w)
    requires ProtocolInv(Next(parse, w, Deliver))
    ensures HeadingInv(parse, Next(parse, w, Deliver))
  {
    if w.stream.Open? && w.stream.wire != [] {
      DeliverItemKeeps(parse, w, Next(parse, w, Deliver));
    } else {
      CoveredFromZero(parse, w.gcs, w.client.index);
    }
  }

  lemma ProtocolStep(parse: Parser, w: World, step: WorldStep)
    requires ProtocolInv(w)
    ensures ProtocolInv(Next(parse, w, step))
  {
    match step {
      case AtGcs(g) => ProtocolGcsStep(w, g);
      case AtServer(s) =>
        if s.CatchUp? && StreamEnabled(w.gcs, w.stream, s) { CatchUpKeepsProtocol(w, s.order); }
        else if w.stream.Open? && (s.YieldCatchup? || s.YieldLive?) { YieldKeepsProtocol(w, s); }
      case Deliver => DeliverKeepsProtocol(parse, w);
      case _ =>
    }
  }

  lemma RestStep(parse: Parser, w: World, step: WorldStep)
    requires ProtocolInv(w) && RecordsInv(parse, w) && HeadingInv(parse, w) && ProtocolInv(Next(parse, w, step))
    ensures RecordsInv(parse, Next(parse, w, step)) && HeadingInv(parse, Next(parse, w, step))
  {
    match step {
      case AtGcs(g) =>
        RecordsGcsStep(parse, w, g);
        HeadingGcsStep(parse, w, g);
      case AtServer(s) =>
        if s.CatchUp? && StreamEnabled(w.gcs, w.stream, s) { CatchUpKeepsRest(parse, w, s.order); }
        else if w.stream.Open? && (s.YieldCatchup? || s.YieldLive?) { YieldKeepsRest(parse, w, s); }
      case Deliver =>
        DeliverKeepsRecords(parse, w);
        DeliverKeepsHeading(parse, w);
      case _ =>
    }
  }

  lemma {:induction false} InvOverRuns(parse: Parser, steps: seq<WorldStep>)
    ensures var w := RunWorld(parse, steps); ProtocolInv(w) && RecordsInv(parse, w) && HeadingInv(parse, w)
  {
    if steps == [] {
    } else {
      InvOverRuns(parse, steps[..|steps| - 1]);
      ProtocolStep(parse, RunWorld(parse, steps[..|steps| - 1]), steps[|steps| - 1]);
      RestStep(parse, RunWorld(parse, steps[..|steps| - 1]), steps[|steps| - 1]);
    }
  }

  lemma {:induction false} StatusOverRuns(parse: Parser, steps: seq<WorldStep>)
    requires OrderedRun(parse, steps)
    ensures StatusInv(RunWorld(parse, steps).gcs)
  {
    if steps == [] {
    } else {
      var before, last := steps[..|steps| - 1], steps[|steps| - 1];
      StatusOverRuns(parse, before);
      InvOverRuns(parse, before);
      if last.AtGcs? { StatusInvStep(RunWorld(parse, before).gcs, last.g); }
    }
  }

  // ---------- Main results ----------

  /** Everything published has been broadcast, and the client has consumed all of it. */
  predicate CaughtUp(w: World) {
    && w.gcs.unpublished == [] && w.gcs.stage == Idle
    && w.stream.Open? && w.stream.wire == [] && w.stream.catchup == [] && !w.stream.failed
    && w.stream.cursor == |w.gcs.channel|
  }

  /** Over any run of registrations, drains, heartbeats, sweeps, disconnects, lag resets and resumes, in
      whatever order records are published: a client that has caught up lists exactly the registered nodes
      whose address parses, each at that address and with the registry's status or with that of the newest
      record published about it. */
  lemma {:induction false} IndexShowsNewest(parse: Parser, steps: seq<WorldStep>, id: NodeId)
    requires CaughtUp(RunWorld(parse, steps))
    ensures var w := RunWorld(parse, steps);
            if id in w.gcs.nodes && Indexable(parse, w.gcs.nodes[id])
            then StatusOf(w.client.index, id) == Some(w.gcs.nodes[id].status) ||
                 StatusOf(w.client.index, id) == Latest(Infos(w.gcs.channel), id)
            else StatusOf(w.client.index, id) == None
    ensures var w := RunWorld(parse, steps);
            id in w.client.index ==>
              id in w.gcs.nodes && w.gcs.nodes[id].address.Some? && w.gcs.nodes[id].address.value.port < 0x1_0000 &&
              parse(w.gcs.nodes[id].address.value.host, w.gcs.nodes[id].address.value.port) ==
                Some(w.client.index[id].addr)
  {
    InvOverRuns(parse, steps);
    var w := RunWorld(parse, steps);
    assert w.stream.wire + w.stream.catchup == [];
    assert AllInfos(w.gcs) == Infos(w.gcs.channel);
    if id in w.gcs.nodes && Indexable(parse, w.gcs.nodes[id]) {
      assert Heads(w.gcs, w.client.index, Held(w.stream), LiveTo(w.stream), id);
    }
  }

  /** So over any run in which no newest record about a node is published ahead of an older, different one,
      a client that has caught up caches exactly the registry's status of every node whose address parses,
      and nothing else. */
  lemma {:induction false} IndexConverges(parse: Parser, steps: seq<WorldStep>)
    requires OrderedRun(parse, steps) && CaughtUp(RunWorld(parse, steps))
    ensures var w := RunWorld(parse, steps);
            forall id :: StatusOf(w.client.index, id) ==
              if id in w.gcs.nodes && Indexable(parse, w.gcs.nodes[id]) then Some(w.gcs.nodes[id].status) else None
  {
    var w := RunWorld(parse, steps);
    StatusOverRuns(parse, steps);
    assert AllInfos(w.gcs) == Infos(w.gcs.channel);
    forall id ensures StatusOf(w.client.index, id) ==
              if id in w.gcs.nodes && Indexable(parse, w.gcs.nodes[id]) then Some(w.gcs.nodes[id].status) else None
    {
      IndexShowsNewest(parse, steps, id);
    }
  }

  /** Over any run at all, caught up or not: every node the index shows as dead has been reported, and no
      node that is alive ever was. */
  lemma {:induction false} DeathsAreReported(parse: Parser, steps: seq<WorldStep>, id: NodeId)
    ensures var w := RunWorld(parse, steps);
            && (StatusOf(w.client.index, id) == Some(Dead) ==> id in w.client.reported)
            && (id in w.client.reported ==> id in w.gcs.nodes && w.gcs.nodes[id].status != Alive)
  {
    InvOverRuns(parse, steps);
  }

  /** Over any run at all, a client's resume token is never above what the registry has handed out, and
      an open stream still holds exactly the events the token asks for, or one more before them. */
  lemma {:induction false} TokenIsHonest(parse: Parser, steps: seq<WorldStep>)
    ensures var w := RunWorld(parse, steps);
            && w.client.lastSeen <= |PushedLog(w.gcs)|
            && (w.stream.Open? && w.stream.token > 0 ==>
                w.stream.token - 1 <= StartOf(w.stream) <= w.stream.token <= w.client.lastSeen)
  {
    InvOverRuns(parse, steps);
  }

  // ---------- A resume rejected when the stream is opened ----------

  /** The client has seen an event, has no open stream, and the event after the one it saw last has been
      evicted from the replay buffer. */
  predicate Stuck(w: World) {
    && 0 < w.client.lastSeen && w.client.lastSeen + REPLAY_BUFFER_CAPACITY < |PushedLog(w.gcs)|
    && !w.stream.Open? && (w.stream.Subscribed? ==> w.stream.token == w.client.lastSeen)
  }

  lemma StuckStep(parse: Parser, w: World, step: WorldStep)
    requires LogInv(w.gcs) && Stuck(w)
    ensures var w' := Next(parse, w, step); LogInv(w'.gcs) && Stuck(w') && w'.client == w.client
  {
    BelowFloorIff(w.gcs, w.client.lastSeen);
    if step.AtGcs? { LogInvStep(w.gcs, step.g); }
  }

  /** The loop keeps a token that was rejected at open, and the floor never comes down: from then
      on, whatever happens, the client never gets a stream again and its index never changes. */
  lemma {:induction false} RejectedResumeIsForever(parse: Parser, before: seq<WorldStep>, after: seq<WorldStep>)
    requires Stuck(RunWorld(parse, before))
    ensures LogInv(RunWorld(parse, before + after).gcs) && Stuck(RunWorld(parse, before + after))
    ensures RunWorld(parse, before + after).client == RunWorld(parse, before).client
    decreases |after|
  {
    if after == [] {
      assert before + after == before;
      InvOverRuns(parse, before);
    } else {
      var init, step := after[..|after| - 1], after[|after| - 1];
      assert (before + after)[..|before + after| - 1] == before + init;
      RejectedResumeIsForever(parse, before, init);
      StuckStep(parse, RunWorld(parse, before + init), step);
    }
  }
}
