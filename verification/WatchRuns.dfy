/** Building runs of registry, stream and client: draining a stream, publishing a record to a client that
    listens. */
module WatchRuns {
  import opened Bytes
  import opened Enumeration
  import opened Registry
  import opened WatchStream
  import opened WatchClient

  function RunOn(parse: Parser, w: World, steps: seq<WorldStep>): World {
    if steps == [] then w else Next(parse, RunOn(parse, w, steps[..|steps| - 1]), steps[|steps| - 1])
  }

  lemma {:induction false} RunOnConcat(parse: Parser, w: World, a: seq<WorldStep>, b: seq<WorldStep>)
    ensures RunOn(parse, w, a + b) == RunOn(parse, RunOn(parse, w, a), b)
  {
    if b == [] {
      assert a + b == a;
    } else {
      RunOnConcat(parse, w, a, b[..|b| - 1]);
      assert (a + b)[..|a + b| - 1] == a + b[..|b| - 1];
    }
  }

  lemma {:induction false} RunWorldIsRunOn(parse: Parser, steps: seq<WorldStep>)
    ensures RunWorld(parse, steps) == RunOn(parse, START, steps)
  {
    if steps == [] {
    } else {
      RunWorldIsRunOn(parse, steps[..|steps| - 1]);
    }
  }

  /** A run and what follows it. */
  lemma GoOn(parse: Parser, steps: seq<WorldStep>, more: seq<WorldStep>)
    ensures RunWorld(parse, steps + more) == RunOn(parse, RunWorld(parse, steps), more)
  {
    RunWorldIsRunOn(parse, steps);
    RunWorldIsRunOn(parse, steps + more);
    RunOnConcat(parse, START, steps, more);
  }

  lemma One(parse: Parser, w: World, step: WorldStep)
    ensures RunOn(parse, w, [step]) == Next(parse, w, step)
  {
    assert [step][..0] == [];
  }

  lemma Prepend(parse: Parser, w: World, step: WorldStep, rest: seq<WorldStep>)
    ensures RunOn(parse, w, [step] + rest) == RunOn(parse, Next(parse, w, step), rest)
  {
    One(parse, w, step);
    RunOnConcat(parse, w, [step], rest);
  }

  lemma {:induction false} ProtocolOn(parse: Parser, w: World, steps: seq<WorldStep>)
    requires ProtocolInv(w)
    ensures ProtocolInv(RunOn(parse, w, steps))
  {
    if steps == [] {
    } else {
      ProtocolOn(parse, w, steps[..|steps| - 1]);
      ProtocolStep(parse, RunOn(parse, w, steps[..|steps| - 1]), steps[|steps| - 1]);
    }
  }

  /** Whatever the steps publish, they take the oldest record first. */
  predicate OldestFirst(steps: seq<WorldStep>) {
    forall i :: 0 <= i < |steps| && steps[i].AtGcs? && steps[i].g.Take? ==> steps[i].g.which == 0
  }

  /** That is in order. */
  lemma {:induction false} OldestFirstIsOrdered(parse: Parser, steps: seq<WorldStep>, more: seq<WorldStep>)
    requires OrderedRun(parse, steps) && OldestFirst(more)
    ensures OrderedRun(parse, steps + more)
  {
    if more == [] {
      assert steps + more == steps;
    } else {
      OldestFirstIsOrdered(parse, steps, more[..|more| - 1]);
      assert (steps + more)[..|steps + more| - 1] == steps + more[..|more| - 1];
    }
  }

  // ---------- Draining ----------

  /** Everything broadcast has been consumed. */
  predicate Drained(w: World) {
    && w.stream.Open? && w.stream.wire == [] && w.stream.catchup == [] && !w.stream.failed
    && w.stream.cursor == |w.gcs.channel|
  }

  lemma {:induction false} Enumerate(s: set<NodeId>) returns (order: seq<NodeId>)
    ensures Enumerates(order, s)
    decreases |s|
  {
    if s == {} {
      order := [];
    } else {
      var x :| x in s;
      var rest := Enumerate(s - {x});
      order := rest + [x];
    }
  }

  /** After a lag the client starts over with a snapshot. */
  lemma StartOver(parse: Parser, w: World) returns (steps: seq<WorldStep>)
    requires w.stream.Open? && w.stream.failed && w.stream.wire == []
    ensures var w' := RunOn(parse, w, steps);
            && w'.gcs == w.gcs && w'.stream.Open? && !w'.stream.failed && w'.stream.cursor == |w.gcs.channel|
    ensures OldestFirst(steps)
  {
    var order := Enumerate(w.gcs.nodes.Keys);
    var a := Next(parse, w, Deliver);
    var b := Next(parse, a, OpenStream);
    assert b.stream == Subscribed(0, |w.gcs.channel|);
    One(parse, b, AtServer(CatchUp(order)));
    Prepend(parse, a, OpenStream, [AtServer(CatchUp(order))]);
    steps := [Deliver] + ([OpenStream] + [AtServer(CatchUp(order))]);
    Prepend(parse, w, Deliver, [OpenStream] + [AtServer(CatchUp(order))]);
  }

  /** What is left to do, most significant first: live events, a failure to notice, items to move. */
  function LiveLeft(w: World): nat {
    if w.stream.Open? && w.stream.cursor <= |w.gcs.channel| then |w.gcs.channel| - w.stream.cursor else 0
  }

  function ItemsLeft(w: World): nat { if w.stream.Open? then 2 * |w.stream.catchup| + |w.stream.wire| else 0 }

  /** The next thing to do on an open stream that is not drained and not failed. */
  function Chore(s: Stream): WorldStep {
    if s.Open? && s.wire == [] && s.catchup != [] then AtServer(YieldCatchup)
    else if s.Open? && s.wire == [] && !s.failed then AtServer(YieldLive)
    else Deliver
  }

  lemma ChoreProgresses(parse: Parser, w: World)
    requires w.stream.Open? && w.stream.cursor <= |w.gcs.channel| && !Drained(w)
    requires !(w.stream.failed && w.stream.wire == [] && w.stream.catchup == [])
    ensures var w' := Next(parse, w, Chore(w.stream));
            && w'.gcs == w.gcs && w'.stream.Open?
            && (LiveLeft(w') < LiveLeft(w) || (LiveLeft(w') == LiveLeft(w) &&
                ((w'.stream.failed && !w.stream.failed) ||
                    (w'.stream.failed == w.stream.failed && ItemsLeft(w') < ItemsLeft(w)))))
  {
  }

  /** Any open stream can be drained without the registry doing anything. */
  lemma {:induction false} DrainStream(parse: Parser, w: World) returns (steps: seq<WorldStep>)
    requires ProtocolInv(w) && w.stream.Open?
    ensures Drained(RunOn(parse, w, steps)) && RunOn(parse, w, steps).gcs == w.gcs && OldestFirst(steps)
    decreases LiveLeft(w), if w.stream.failed then 0 else 1, ItemsLeft(w)
  {
    if Drained(w) {
      steps := [];
    } else if w.stream.failed && w.stream.wire == [] && w.stream.catchup == [] {
      var first := StartOver(parse, w);
      ProtocolOn(parse, w, first);
      var rest := DrainStream(parse, RunOn(parse, w, first));
      RunOnConcat(parse, w, first, rest);
      steps := first + rest;
    } else {
      ChoreProgresses(parse, w);
      ProtocolStep(parse, w, Chore(w.stream));
      var rest := DrainStream(parse, Next(parse, w, Chore(w.stream)));
      Prepend(parse, w, Chore(w.stream), rest);
      steps := [Chore(w.stream)] + rest;
    }
  }

  // ---------- Publishing to a client that listens ----------

  function Published(g: Gcs, k: nat): Gcs
    requires g.stage == Idle && k < |g.unpublished|
  {
    DoSend(DoPush(DoTake(g, k)))
  }

  lemma PublishSteps(parse: Parser, w: World, k: nat) returns (steps: seq<WorldStep>)
    requires w.gcs.stage == Idle && k < |w.gcs.unpublished|
    ensures RunOn(parse, w, steps) == w.(gcs := Published(w.gcs, k)) && steps != [] && steps[0] == AtGcs(Take(k))
    ensures k == 0 ==> OldestFirst(steps)
  {
    var a := w.(gcs := DoTake(w.gcs, k));
    var b := w.(gcs := DoPush(a.gcs));
    One(parse, b, AtGcs(Send));
    Prepend(parse, a, AtGcs(Push), [AtGcs(Send)]);
    Prepend(parse, w, AtGcs(Take(k)), [AtGcs(Push)] + [AtGcs(Send)]);
    steps := [AtGcs(Take(k))] + ([AtGcs(Push)] + [AtGcs(Send)]);
  }

  /** The one new event reaches the client. */
  lemma Listen(parse: Parser, w: World, e: Event) returns (steps: seq<WorldStep>)
    requires w.stream.Open? && w.stream.wire == [] && w.stream.catchup == [] && !w.stream.failed
    requires w.stream.cursor + 1 == |w.gcs.channel| && w.gcs.channel[w.stream.cursor] == e &&
            e.sequence > w.stream.highest
    ensures var w' := RunOn(parse, w, steps);
            Drained(w') && w'.gcs == w.gcs && w'.client == Consume(parse, w.client, e)
    ensures OldestFirst(steps)
  {
    var a := Next(parse, w, AtServer(YieldLive));
    assert a.stream == w.stream.(cursor := w.stream.cursor + 1, wire := [e]);
    One(parse, a, Deliver);
    Prepend(parse, w, AtServer(YieldLive), [Deliver]);
    steps := [AtServer(YieldLive)] + [Deliver];
  }

  /** One waiting record, any of them, is published and consumed. */
  lemma PublishOne(parse: Parser, w: World, k: nat) returns (steps: seq<WorldStep>)
    requires ProtocolInv(w) && Drained(w) && w.gcs.stage == Idle && k < |w.gcs.unpublished|
    ensures var w' := RunOn(parse, w, steps);
            && ProtocolInv(w') && Drained(w') && w'.gcs == Published(w.gcs, k)
            && w'.client == Consume(parse, w.client, Event(w.gcs.nextSequence, w.gcs.unpublished[k]))
    ensures k == 0 ==> OldestFirst(steps)
  {
    var first := PublishSteps(parse, w, k);
    var a := RunOn(parse, w, first);
    var second := Listen(parse, a, Event(w.gcs.nextSequence, w.gcs.unpublished[k]));
    RunOnConcat(parse, w, first, second);
    steps := first + second;
    ProtocolOn(parse, w, steps);
  }
}
