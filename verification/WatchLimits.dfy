/** The limits of resuming: an event received twice, a token rejected for ever, and exactly who can still
    catch up. */
module WatchLimits {
  import opened Bytes
  import opened Enumeration
  import opened Registry
  import opened WatchStream
  import opened WatchClient
  import opened WatchRuns

  lemma Extend(parse: Parser, steps: seq<WorldStep>, step: WorldStep, w: World) returns (longer: seq<WorldStep>)
    requires Next(parse, RunWorld(parse, steps), step) == w
    ensures longer == steps + [step] && RunWorld(parse, longer) == w
  {
    longer := steps + [step];
    assert longer[..|longer| - 1] == steps && longer[|longer| - 1] == step;
  }

  lemma Listening(parse: Parser, id: NodeId, n: NodeInfo) returns (steps: seq<WorldStep>)
    requires |id| == 16 && n == NewNode(id, "10.0.0.1", 1, 0)
    ensures var w := RunWorld(parse, steps);
            w.gcs == Gcs(map[id := n], 1, [n], 1, Idle, [], []) && Drained(w) && w.client == START.client
  {
    var a := START.(stream := Subscribed(0, 0));
    var b := START.(stream := Open(0, 0, 0, [], 0, [], 0, [], false, []));
    assert EMPTY.nodes[id := n] == map[id := n] && EMPTY.unpublished + [n] == [n];
    One(parse, b, AtGcs(Register(id, "10.0.0.1", 1, 0)));
    Prepend(parse, a, AtServer(CatchUp([])), [AtGcs(Register(id, "10.0.0.1", 1, 0))]);
    assert Next(parse, a, AtServer(CatchUp([]))) == b;
    steps := [OpenStream] + ([AtServer(CatchUp([]))] + [AtGcs(Register(id, "10.0.0.1", 1, 0))]);
    Prepend(parse, START, OpenStream, steps[1..]);
    RunWorldIsRunOn(parse, steps);
  }

  lemma PublishedFirst(id: NodeId, n: NodeInfo)
    requires n == NewNode(id, "10.0.0.1", 1, 0)
    ensures Published(Gcs(map[id := n], 1, [n], 1, Idle, [], []), 0) ==
            Gcs(map[id := n], 1, [], 2, Idle, [Event(1, n)], [Event(1, n)])
  {
  }

  lemma OneEventHeard(parse: Parser, id: NodeId, n: NodeInfo) returns (steps: seq<WorldStep>)
    requires |id| == 16 && n == NewNode(id, "10.0.0.1", 1, 0)
    ensures var w := RunWorld(parse, steps);
            && w.gcs == Gcs(map[id := n], 1, [], 2, Idle, [Event(1, n)], [Event(1, n)])
            && w.client.lastSeen == 1
  {
    var waiting := Listening(parse, id, n);
    InvOverRuns(parse, waiting);
    var w := RunWorld(parse, waiting);
    var publish := PublishOne(parse, w, 0);
    PublishedFirst(id, n);
    assert Consume(parse, w.client, Event(1, n)).lastSeen == 1;
    GoOn(parse, waiting, publish);
    steps := waiting + publish;
  }

  /** One node, registered and published; the client has consumed its event live and lost the stream. */
  lemma OneEventSeen(parse: Parser, id: NodeId, n: NodeInfo) returns (steps: seq<WorldStep>)
    requires |id| == 16 && n == NewNode(id, "10.0.0.1", 1, 0)
    ensures var w := RunWorld(parse, steps);
            && w.gcs == Gcs(map[id := n], 1, [], 2, Idle, [Event(1, n)], [Event(1, n)])
            && w.stream == Closed && w.client.lastSeen == 1
  {
    var seen := OneEventHeard(parse, id, n);
    steps := Extend(parse, seen, LoseStream, RunWorld(parse, seen).(stream := Closed));
  }

  // ---------- A token rejected for ever ----------

  /** The node is drained and its record published, `n` times over, while no stream is open. */
  lemma {:induction false} DrainAndPublish(parse: Parser, w: World, id: NodeId, n: nat) returns (steps: seq<WorldStep>)
    requires id in w.gcs.nodes && w.gcs.stage == Idle && w.gcs.unpublished == [] && w.stream == Closed
    ensures var w' := RunOn(parse, w, steps);
            && id in w'.gcs.nodes && w'.gcs.stage == Idle && w'.gcs.unpublished == [] && w'.stream == Closed
            && w'.client == w.client && |w'.gcs.channel| == |w.gcs.channel| + n
    decreases n
  {
    if n == 0 {
      steps := [];
    } else {
      var drained := Next(parse, w, AtGcs(Drain(id)));
      var publish := PublishSteps(parse, drained, 0);
      var rest := DrainAndPublish(parse, RunOn(parse, drained, publish), id, n - 1);
      RunOnConcat(parse, drained, publish, rest);
      Prepend(parse, w, AtGcs(Drain(id)), publish + rest);
      steps := [AtGcs(Drain(id))] + (publish + rest);
    }
  }

  /** A client that saw one event and then stayed away for as many as the replay buffer holds, and one
      more, has a token that every later attempt to open a stream rejects. */
  lemma {:induction false} StuckIsReached(parse: Parser) returns (steps: seq<WorldStep>)
    ensures Stuck(RunWorld(parse, steps))
  {
    var id: NodeId := seq(16, _ => 7 as byte);
    var seen := OneEventSeen(parse, id, NewNode(id, "10.0.0.1", 1, 0));
    var away := DrainAndPublish(parse, RunWorld(parse, seen), id, REPLAY_BUFFER_CAPACITY + 1);
    GoOn(parse, seen, away);
    steps := seen + away;
    InvOverRuns(parse, steps);
  }

  // ---------- A client that is not stuck can catch up ----------

  lemma Admitted(parse: Parser, w: World) returns (steps: seq<WorldStep>)
    requires ProtocolInv(w) && w.stream.Subscribed? && !BelowFloor(w.gcs.buffer, w.stream.token)
    ensures RunOn(parse, w, steps).stream.Open? && ProtocolInv(RunOn(parse, w, steps)) && OldestFirst(steps)
  {
    var order := Enumerate(w.gcs.nodes.Keys);
    var step := AtServer(CatchUp(order));
    One(parse, w, step);
    ProtocolStep(parse, w, step);
    steps := [step];
  }

  /** It gets a stream, unless it has one. */
  lemma GetStream(parse: Parser, w: World) returns (steps: seq<WorldStep>)
    requires ProtocolInv(w) && !Stuck(w)
    ensures RunOn(parse, w, steps).stream.Open? && ProtocolInv(RunOn(parse, w, steps)) && OldestFirst(steps)
  {
    BelowFloorIff(w.gcs, w.client.lastSeen);
    if w.stream.Open? {
      steps := [];
    } else if w.stream.Subscribed? {
      steps := Admitted(parse, w);
    } else {
      var w' := Next(parse, w, OpenStream);
      ProtocolStep(parse, w, OpenStream);
      assert w' == w.(stream := Subscribed(w.client.lastSeen, |w.gcs.channel|));
      var rest := Admitted(parse, w');
      Prepend(parse, w, OpenStream, rest);
      steps := [OpenStream] + rest;
    }
  }

  /** The record half published is pushed and broadcast. */
  lemma FinishPublish(parse: Parser, w: World) returns (steps: seq<WorldStep>)
    ensures var w' := RunOn(parse, w, steps); w'.gcs.stage == Idle && w'.stream == w.stream
    ensures OldestFirst(steps)
  {
    if w.gcs.stage.Taken? {
      steps := [AtGcs(Push)] + [AtGcs(Send)];
      Prepend(parse, w, AtGcs(Push), [AtGcs(Send)]);
      One(parse, Next(parse, w, AtGcs(Push)), AtGcs(Send));
    } else if w.gcs.stage.Pushed? {
      steps := [AtGcs(Send)];
      One(parse, w, AtGcs(Send));
    } else {
      steps := [];
    }
  }

  /** Everything that waits is published to the client, the oldest first. */
  lemma {:induction false} PublishWaiting(parse: Parser, w: World) returns (steps: seq<WorldStep>)
    requires ProtocolInv(w) && Drained(w) && w.gcs.stage == Idle
    ensures CaughtUp(RunOn(parse, w, steps)) && OldestFirst(steps)
    decreases |w.gcs.unpublished|
  {
    if w.gcs.unpublished == [] {
      steps := [];
    } else {
      var first := PublishOne(parse, w, 0);
      var rest := PublishWaiting(parse, RunOn(parse, w, first));
      RunOnConcat(parse, w, first, rest);
      steps := first + rest;
    }
  }

  lemma CatchUpFrom(parse: Parser, w: World) returns (steps: seq<WorldStep>)
    requires ProtocolInv(w) && !Stuck(w)
    ensures CaughtUp(RunOn(parse, w, steps)) && OldestFirst(steps)
  {
    var a := GetStream(parse, w);
    var w1 := RunOn(parse, w, a);
    var b := FinishPublish(parse, w1);
    var w2 := RunOn(parse, w1, b);
    ProtocolOn(parse, w1, b);
    var c := DrainStream(parse, w2);
    var w3 := RunOn(parse, w2, c);
    ProtocolOn(parse, w2, c);
    var d := PublishWaiting(parse, w3);
    RunOnConcat(parse, w2, c, d);
    RunOnConcat(parse, w1, b, c + d);
    RunOnConcat(parse, w, a, b + (c + d));
    steps := a + (b + (c + d));
  }

  ghost predicate IndexIsRight(parse: Parser, w: World) {
    forall id :: StatusOf(w.client.index, id) ==
      if id in w.gcs.nodes && Indexable(parse, w.gcs.nodes[id]) then Some(w.gcs.nodes[id].status) else None
  }

  /** From every reachable state, some continuation ends with the client caught up, unless it has seen an
      event, has no stream, and more events than the replay buffer holds were pushed since; and if events
      were published in order so far, one that ends with the index right. */
  lemma {:induction false} CatchesUpIff(parse: Parser, before: seq<WorldStep>)
    ensures var w := RunWorld(parse, before);
            (exists more :: CaughtUp(RunWorld(parse, before + more))) <==>
            w.stream.Open? || w.client.lastSeen == 0 ||
            |PushedLog(w.gcs)| <= w.client.lastSeen + REPLAY_BUFFER_CAPACITY
    ensures OrderedRun(parse, before) && !Stuck(RunWorld(parse, before)) ==>
            exists more :: var w := RunWorld(parse, before + more); CaughtUp(w) && IndexIsRight(parse, w)
  {
    InvOverRuns(parse, before);
    if Stuck(RunWorld(parse, before)) {
      forall more ensures !CaughtUp(RunWorld(parse, before + more)) { RejectedResumeIsForever(parse, before, more); }
    } else {
      var more := CatchUpFrom(parse, RunWorld(parse, before));
      GoOn(parse, before, more);
      assert CaughtUp(RunWorld(parse, before + more));
      if OrderedRun(parse, before) {
        OldestFirstIsOrdered(parse, before, more);
        IndexConverges(parse, before + more);
      }
    }
  }

  // ---------- An event received twice ----------

  /** The second event is in the replay buffer and not broadcast yet. */
  lemma SecondPushed(parse: Parser, id: NodeId, n: NodeInfo, e: Event, f: Event)
      returns (steps: seq<WorldStep>, c: Client)
    requires |id| == 16 && n == NewNode(id, "10.0.0.1", 1, 0) && e == Event(1, n) &&
            f == Event(2, n.(status := Draining))
    ensures RunWorld(parse, steps) == World(Gcs(map[id := f.node], 0, [], 3, Pushed(f), [e, f], [e]), Closed, c) &&
            c.lastSeen == 1
  {
    steps := OneEventSeen(parse, id, n);
    c := RunWorld(parse, steps).client;
    var g := RunWorld(parse, steps).gcs;
    assert g.nodes[id := f.node] == map[id := f.node] && [] + [f.node] == [f.node];
    g := g.(nodes := map[id := f.node], nodesAlive := 0, unpublished := [f.node]);
    steps := Extend(parse, steps, AtGcs(Drain(id)), World(g, Closed, c));
    assert [f.node][..0] + [f.node][1..] == [];
    g := g.(unpublished := [], nextSequence := 3, stage := Taken(f));
    steps := Extend(parse, steps, AtGcs(Take(0)), World(g, Closed, c));
    assert PushBounded([e], f) == [e, f];
    g := g.(buffer := [e, f], stage := Pushed(f));
    steps := Extend(parse, steps, AtGcs(Push), World(g, Closed, c));
  }

  lemma Buffered(e: Event, f: Event)
    requires e.sequence == 1 && f.sequence == 2
    ensures BufferedAfter([e, f], 1) == [f] && BufferedAfter([e, f], 2) == []
  {
    assert [e, f][..1] == [e] && [e][..0] == [];
    assert BufferedAfter([e], 1) == BufferedAfter([], 1) + [] && BufferedAfter([e], 2) == BufferedAfter([], 2) + [];
  }

  /** It is replayed to the client, which asks for everything after the first. */
  lemma SecondReplayed(parse: Parser, before: seq<WorldStep>, g: Gcs, c: Client, e: Event, f: Event)
      returns (steps: seq<WorldStep>)
    requires RunWorld(parse, before) == World(g, Closed, c) && c.lastSeen == 1 && e.sequence == 1 && f.sequence == 2
    requires g.stage == Pushed(f) && g.buffer == [e, f] && g.channel == [e]
    ensures RunWorld(parse, steps) == World(g, Open(1, 1, 2, [f], 2, [], 1, [], false, [f]), Consume(parse, c, f))
  {
    Buffered(e, f);
    var s := Open(1, 1, 2, [f], 2, [f], 1, [], false, []);
    steps := Extend(parse, before, OpenStream, World(g, Subscribed(1, 1), c));
    steps := Extend(parse, steps, AtServer(CatchUp([])), World(g, s, c));
    assert [f][1..] == [] && [] + [f] == [f];
    steps := Extend(parse, steps, AtServer(YieldCatchup), World(g, s.(catchup := [], wire := [f]), c));
    steps := Extend(parse, steps, Deliver, World(g, s.(catchup := [], delivered := [f]), Consume(parse, c, f)));
  }

  /** It comes back, asking for everything after the second, before the second is broadcast. */
  lemma ResumeAtSecond(parse: Parser, before: seq<WorldStep>, g: Gcs, s0: Stream, c: Client, e: Event, f: Event)
    returns (steps: seq<WorldStep>)
    requires RunWorld(parse, before) == World(g, s0, c) && c.lastSeen == 2 && e.sequence == 1 && f.sequence == 2
    requires g.stage == Pushed(f) && g.buffer == [e, f] && g.channel == [e]
    ensures RunWorld(parse, steps) == World(g, Open(2, 1, 2, [], 0, [], 1, [], false, []), c) && before <= steps
  {
    Buffered(e, f);
    steps := Extend(parse, before, LoseStream, World(g, Closed, c));
    steps := Extend(parse, steps, OpenStream, World(g, Subscribed(2, 1), c));
    steps := Extend(parse, steps, AtServer(CatchUp([])), World(g, Open(2, 1, 2, [], 0, [], 1, [], false, []), c));
  }

  /** Then it is broadcast. */
  lemma SecondAgain(parse: Parser, before: seq<WorldStep>, g: Gcs, s: Stream, c: Client, e: Event, f: Event)
    returns (steps: seq<WorldStep>)
    requires RunWorld(parse, before) == World(g, s, c) && s == Open(2, 1, 2, [], 0, [], 1, [], false, [])
    requires g.stage == Pushed(f) && g.channel == [e] && f.sequence == 2
    ensures RunWorld(parse, steps).stream == s.(cursor := 2, delivered := [f]) && before <= steps
  {
    var sent := g.(stage := Idle, channel := [e, f]);
    assert [e] + [f] == [e, f] && DoSend(g) == sent;
    steps := Extend(parse, before, AtGcs(Send), World(sent, s, c));
    BroadcastArrives(parse, World(sent, s, c), f);
    steps := Extend(parse, steps, AtServer(YieldLive), World(sent, s.(cursor := 2, wire := [f]), c));
    steps := Extend(parse, steps, Deliver, World(sent, s.(cursor := 2, delivered := [f]), Consume(parse, c, f)));
  }

  lemma BroadcastArrives(parse: Parser, w: World, f: Event)
    requires w.stream == Open(2, 1, 2, [], 0, [], 1, [], false, []) && |w.gcs.channel| == 2 && w.gcs.channel[1] == f
    requires f.sequence == 2
    ensures var w' := w.(stream := w.stream.(cursor := 2, wire := [f]));
            && Next(parse, w, AtServer(YieldLive)) == w'
            && Next(parse, w', Deliver) ==
               w.(stream := w.stream.(cursor := 2, delivered := [f]), client := Consume(parse, w.client, f))
  {
    assert [f][1..] == [] && [] + [f] == [f];
  }

  /** The raylet's own client can receive an event twice: replayed to it before it was broadcast, the
      event is the newest one it knows when it resumes, and it comes again with the broadcast. */
  lemma {:induction false} ReplayedBeforeBroadcastIsDuplicated(parse: Parser)
      returns (once: seq<WorldStep>, twice: seq<WorldStep>, f: Event)
    ensures once <= twice
    ensures var s := RunWorld(parse, once).stream; s.Open? && s.delivered == [f]
    ensures var s := RunWorld(parse, twice).stream; s.Open? && s.token == f.sequence && s.delivered == [f]
  {
    var id: NodeId := seq(16, _ => 7 as byte);
    var n := NewNode(id, "10.0.0.1", 1, 0);
    var e := Event(1, n);
    f := Event(2, n.(status := Draining));
    var pushed, c := SecondPushed(parse, id, n, e, f);
    var g := RunWorld(parse, pushed).gcs;
    once := SecondReplayed(parse, pushed, g, c, e, f);
    twice := ResumeAtSecond(parse, once, g, RunWorld(parse, once).stream, Consume(parse, c, f), e, f);
    twice := SecondAgain(parse, twice, g, RunWorld(parse, twice).stream, Consume(parse, c, f), e, f);
  }
}
