/** The registry's request handlers and the sweeper as they run: fields updated in place, each
    operation proved to do exactly what the actions of `Registry` say. */
module RegistryServer {
  import opened Bytes
  import opened Enumeration
  import opened Registry
  import WatchStream

  datatype RpcError = InvalidArgument | NotFound | OutOfRange

  datatype Reply<+T> = Ok(value: T) | Err(error: RpcError)

  /** Publish every record still waiting, oldest first. */
  function PublishAll(g: Gcs): (r: Gcs)
    requires g.stage == Idle
    ensures r.unpublished == [] && r.stage == Idle
    decreases |g.unpublished|
  {
    if g.unpublished == [] then g else PublishAll(DoSend(DoPush(DoTake(g, 0))))
  }

  /** Publishing everything is a run of the registry that takes the oldest record every time. */
  lemma {:induction false} PublishAllIsRun(g: Gcs) returns (steps: seq<GcsStep>)
    requires g.stage == Idle
    ensures PublishAll(g) == Run(g, steps)
    ensures forall i :: 0 <= i < |steps| && steps[i].Take? ==> steps[i].which == 0
    decreases |g.unpublished|
  {
    if g.unpublished == [] {
      steps := [];
    } else {
      var three := [Take(0), Push, Send];
      assert three[..2] == [Take(0), Push] && [Take(0), Push][..1] == [Take(0)] && [Take(0)][..0] == [];
      assert Run(g, [Take(0)]) == DoTake(g, 0);
      assert Run(g, [Take(0), Push]) == DoPush(DoTake(g, 0));
      assert Run(g, three) == DoSend(DoPush(DoTake(g, 0)));
      var rest := PublishAllIsRun(Run(g, three));
      RunConcat(g, three, rest);
      steps := three + rest;
    }
  }

  class NodeRegistry {
    var nodes: map<NodeId, NodeInfo>
    var nodesAlive: int
    var nextSequence: nat
    var replayBuffer: seq<Event>
    var channel: seq<Event>

    /** The registry between operations: nothing half published. */
    ghost function View(): Gcs
      reads this
    {
      Gcs(nodes, nodesAlive, [], nextSequence, Idle, replayBuffer, channel)
    }

    constructor ()
      ensures View() == EMPTY
    {
      nodes, nodesAlive, nextSequence, replayBuffer, channel := map[], 0, 1, [], [];
    }

    method Publish(node: NodeInfo)
      modifies this
      ensures View() == PublishAll(old(View()).(unpublished := [node]))
      ensures nodes == old(nodes) && channel == old(channel) + [Event(old(nextSequence), node)]
    {
      ghost var start := View().(unpublished := [node]);
      var event := Event(nextSequence, node);
      nextSequence := nextSequence + 1;
      if |replayBuffer| == REPLAY_BUFFER_CAPACITY {
        replayBuffer := replayBuffer[1..];
      }
      replayBuffer := replayBuffer + [event];
      channel := channel + [event];
      assert start.unpublished[..0] + start.unpublished[1..] == [];
      assert View() == DoSend(DoPush(DoTake(start, 0)));
    }

    method Register(id: NodeId, host: string, port: nat, now: nat) returns (r: Reply<NodeId>)
      requires |id| == 16 && id !in nodes
      modifies this
      ensures host == "" ==> r == Err(InvalidArgument) && View() == old(View())
      ensures host != "" ==> r == Ok(id) && View() == PublishAll(DoRegister(old(View()), id, host, port, now))
      ensures host != "" ==>
        && nodes == old(nodes)[id := NodeInfo(Some(NodeAddress(host, port, id)), Alive, now, now)]
        && channel == old(channel) + [Event(old(nextSequence), nodes[id])]
    {
      if host == "" {
        return Err(InvalidArgument);
      }
      ghost var was := View();
      var info := NewNode(id, host, port, now);
      nodes := nodes[id := info];
      nodesAlive := nodesAlive + 1;
      assert [] + [info] == [info];
      assert View().(unpublished := [info]) == DoRegister(was, id, host, port, now);
      Publish(info);
      r := Ok(id);
    }

    method Drain(id: NodeId) returns (r: Reply<()>)
      modifies this
      ensures |id| != 16 ==> r == Err(InvalidArgument) && View() == old(View())
      ensures |id| == 16 && id !in old(nodes) ==> r == Err(NotFound) && View() == old(View())
      ensures |id| == 16 && id in old(nodes) ==> r == Ok(()) && View() == PublishAll(DoDrain(old(View()), id))
      ensures |id| == 16 && id in old(nodes) ==>
        && nodes == old(nodes)[id := old(nodes)[id].(status := Draining)]
        && channel == old(channel) + [Event(old(nextSequence), nodes[id])]
    {
      if |id| != 16 {
        return Err(InvalidArgument);
      }
      if id !in nodes {
        return Err(NotFound);
      }
      ghost var was := View();
      var wasAlive := nodes[id].status == Alive;
      var info := nodes[id].(status := Draining);
      nodes := nodes[id := info];
      if wasAlive {
        nodesAlive := nodesAlive - 1;
      }
      assert [] + [info] == [info];
      assert View().(unpublished := [info]) == DoDrain(was, id);
      Publish(info);
      r := Ok(());
    }

    method Heartbeat(id: NodeId, now: nat) returns (r: Reply<()>)
      modifies this
      ensures |id| != 16 ==> r == Err(InvalidArgument) && View() == old(View())
      ensures |id| == 16 && id !in old(nodes) ==> r == Err(NotFound) && View() == old(View())
      ensures |id| == 16 && id in old(nodes) ==> r == Ok(()) && View() == DoHeartbeat(old(View()), id, now)
    {
      if |id| != 16 {
        return Err(InvalidArgument);
      }
      if id !in nodes {
        return Err(NotFound);
      }
      nodes := nodes[id := nodes[id].(lastHeartbeat := now)];
      r := Ok(());
    }

    /** The sweeper: flip stale nodes in one pass over the map, then publish them in that order. */
    method ExpireStale(deadline: nat) returns (flipped: nat, ghost order: seq<NodeId>)
      modifies this
      ensures Enumerates(order, StaleIds(old(nodes), deadline)) && flipped == |order|
      ensures View() == PublishAll(DoSweep(old(View()), deadline, order))
    {
      ghost var was := View();
      var flippedNodes: seq<NodeInfo>;
      flippedNodes, order := FlipStale(deadline);
      nodesAlive := nodesAlive - |flippedNodes|;
      flipped := |flippedNodes|;
      assert [] + flippedNodes == flippedNodes;
      assert View().(unpublished := flippedNodes) == DoSweep(was, deadline, order);
      PublishEach(flippedNodes);
    }

    method FlipStale(deadline: nat) returns (flippedNodes: seq<NodeInfo>, ghost order: seq<NodeId>)
      modifies this`nodes
      ensures nodes == Swept(old(nodes), deadline)
      ensures Enumerates(order, StaleIds(old(nodes), deadline))
      ensures (forall id :: id in order ==> id in nodes) && flippedNodes == Select(nodes, order)
    {
      var todo := nodes.Keys;
      flippedNodes, order := [], [];
      ghost var was := nodes;
      while todo != {}
        invariant Flipping(was, deadline, nodes, todo, order, flippedNodes)
        decreases |todo|
      {
        var id :| id in todo;
        var info := nodes[id];
        FlipOne(was, deadline, nodes, todo, order, flippedNodes, id);
        if info.status == Alive && info.lastHeartbeat < deadline {
          info := info.(status := Dead);
          nodes := nodes[id := info];
          flippedNodes := flippedNodes + [info];
          order := order + [id];
        }
        todo := todo - {id};
      }
      assert nodes == Swept(was, deadline) && StaleIds(was, deadline) - todo == StaleIds(was, deadline);
      forall i | 0 <= i < |order| ensures flippedNodes[i] == nodes[order[i]] {
        assert order[i] in order;
      }
    }

    method PublishEach(infos: seq<NodeInfo>)
      modifies this
      ensures View() == PublishAll(old(View()).(unpublished := infos))
    {
      var i := 0;
      ghost var goal := PublishAll(View().(unpublished := infos));
      assert infos[0..] == infos;
      while i < |infos|
        invariant 0 <= i <= |infos|
        invariant PublishAll(View().(unpublished := infos[i..])) == goal
      {
        ghost var v := View();
        Publish(infos[i]);
        PublishOneOf(v, infos[i..]);
        assert infos[i..][1..] == infos[i + 1..] && infos[i..][0] == infos[i];
        i := i + 1;
      }
      assert infos[i..] == [];
    }

    method BufferedAfter(after: nat) returns (r: seq<Event>)
      ensures r == WatchStream.BufferedAfter(replayBuffer, after)
    {
      r := [];
      var i := 0;
      while i < |replayBuffer|
        invariant 0 <= i <= |replayBuffer|
        invariant r == WatchStream.BufferedAfter(replayBuffer[..i], after)
      {
        assert replayBuffer[..i + 1][..i] == replayBuffer[..i];
        if replayBuffer[i].sequence > after {
          r := r + [replayBuffer[i]];
        }
        i := i + 1;
      }
      assert replayBuffer[..i] == replayBuffer;
    }

    method Snapshot() returns (events: seq<Event>, ghost order: seq<NodeId>)
      ensures |events| == |nodes.Keys| && (forall id :: id in nodes ==> Event(0, nodes[id]) in events)
      ensures Enumerates(order, nodes.Keys) && events == WatchStream.SnapshotEvents(View(), order)
    {
      var todo := nodes.Keys;
      events, order := [], [];
      while todo != {}
        invariant todo <= nodes.Keys && Enumerates(order, nodes.Keys - todo)
        invariant |events| == |order|
        invariant forall i :: 0 <= i < |order| ==> order[i] in nodes && events[i] == Event(0, nodes[order[i]])
        decreases |todo|
      {
        var id :| id in todo;
        AppendEnumeration(order, nodes.Keys - todo, id);
        assert nodes.Keys - todo + {id} == nodes.Keys - (todo - {id});
        todo := todo - {id};
        events := events + [Event(0, nodes[id])];
        order := order + [id];
      }
      assert nodes.Keys - todo == nodes.Keys;
      assert events == WatchStream.SnapshotEvents(View(), order);
      EnumerationLength(order, nodes.Keys);
      forall id | id in nodes ensures Event(0, nodes[id]) in events {
        var i :| 0 <= i < |order| && order[i] == id;
        assert events[i] == Event(0, nodes[id]);
      }
    }

    /** Open a stream: subscribe, then build the catch-up batch or reject the token. */
    method WatchNodes(lastSeen: nat) returns (r: Reply<WatchStream.Stream>, ghost order: seq<NodeId>)
      ensures var s := WatchStream.StreamNext(View(), WatchStream.Closed, WatchStream.Subscribe(lastSeen));
              && WatchStream.StreamEnabled(View(), s, WatchStream.CatchUp(order))
              && var s' := WatchStream.StreamNext(View(), s, WatchStream.CatchUp(order));
                 if s'.Closed? then r == Err(OutOfRange) else r == Ok(s')
      ensures r.Err? <==> WatchStream.BelowFloor(replayBuffer, lastSeen)
      ensures LogInv(View()) ==>
        (r == Err(OutOfRange) <==> 0 < lastSeen && lastSeen + REPLAY_BUFFER_CAPACITY < |channel|)
      ensures LogInv(View()) && 0 < lastSeen && r.Ok? ==>
        r.value.Open? && r.value.catchup == if lastSeen <= |channel| then channel[lastSeen..] else []
      ensures lastSeen == 0 ==>
        && r.Ok? && r.value.Open? && |r.value.catchup| == |nodes.Keys|
        && forall id :: id in nodes ==> Event(0, nodes[id]) in r.value.catchup
    {
      if LogInv(View()) {
        WatchStream.BelowFloorIff(View(), lastSeen);
        if 0 < lastSeen && !WatchStream.BelowFloor(replayBuffer, lastSeen) {
          WatchStream.CatchupReplays(View(), lastSeen);
        }
      }
      var at := |channel|;
      var batch: seq<Event>;
      order := [];
      if lastSeen == 0 {
        batch, order := Snapshot();
      } else if |replayBuffer| > 0 && lastSeen + 1 < replayBuffer[0].sequence {
        return Err(OutOfRange), order;
      } else {
        batch := BufferedAfter(lastSeen);
      }
      r := Ok(WatchStream.Open(lastSeen, at, at, batch, WatchStream.HighestSequence(batch), batch, at, [], false, []));
    }
  }

  /** The sweep part way: nodes outside `todo` are done, and the stale ones among them are listed. */
  ghost predicate Flipping(was: map<NodeId, NodeInfo>, deadline: nat, nodes: map<NodeId, NodeInfo>,
                           todo: set<NodeId>, order: seq<NodeId>, flipped: seq<NodeInfo>)
  {
    && todo <= nodes.Keys == was.Keys
    && (forall id :: id in todo ==> nodes[id] == was[id])
    && (forall id :: id in nodes && id !in todo ==> nodes[id] == Swept(was, deadline)[id])
    && Enumerates(order, StaleIds(was, deadline) - todo) && |flipped| == |order|
    && (forall i :: 0 <= i < |order| ==> order[i] in was && flipped[i] == was[order[i]].(status := Dead))
  }

  lemma FlipOne(was: map<NodeId, NodeInfo>, deadline: nat, nodes: map<NodeId, NodeInfo>,
                todo: set<NodeId>, order: seq<NodeId>, flipped: seq<NodeInfo>, id: NodeId)
    requires Flipping(was, deadline, nodes, todo, order, flipped) && id in todo
    ensures if IsStale(nodes[id], deadline)
            then var info := nodes[id].(status := Dead);
                 Flipping(was, deadline, nodes[id := info], todo - {id}, order + [id], flipped + [info])
            else Flipping(was, deadline, nodes, todo - {id}, order, flipped)
  {
  }

  lemma AppendEnumeration<T>(order: seq<T>, s: set<T>, x: T)
    requires Enumerates(order, s) && x !in s
    ensures Enumerates(order + [x], s + {x})
  {
  }

  lemma PublishOneOf(g: Gcs, infos: seq<NodeInfo>)
    requires g.stage == Idle && g.unpublished == [] && infos != []
    ensures PublishAll(g.(unpublished := infos)) ==
            PublishAll(PublishAll(g.(unpublished := [infos[0]])).(unpublished := infos[1..]))
  {
  }
}
