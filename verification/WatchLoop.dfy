/** The raylet's subscription loop as it runs: an index updated in place and a resume token carried
    from one stream to the next. What the network does to each attempt is an input. */
module WatchLoop {
  import opened Bytes
  import opened Registry
  import WatchStream
  import opened WatchClient

  /** How a stream ended, as the client sees it. */
  datatype End = Clean | OutOfRange | OtherError | Shutdown

  /** One turn of the outer loop: the subscribe call failed, or a stream delivered items and ended. */
  datatype Attempt = Refused(shutdown: bool) | Stream(items: seq<Event>, end: End, shutdown: bool)

  function ConsumeAll(parse: Parser, c: Client, items: seq<Event>): Client {
    if items == [] then c
    else Consume(parse, ConsumeAll(parse, c, items[..|items| - 1]), items[|items| - 1])
  }

  /** The loop stops at this attempt: shutdown during the stream, or during the sleep after it. */
  predicate Stops(a: Attempt) {
    (a.shutdown && (a.Refused? || a.end == OtherError)) || (a.Stream? && a.end == Shutdown)
  }

  function AfterAttempt(parse: Parser, c: Client, a: Attempt): Client {
    if a.Refused? then c
    else
      var c' := ConsumeAll(parse, c, a.items);
      if a.end == OutOfRange then c'.(lastSeen := 0) else c'
  }

  function AfterAttempts(parse: Parser, c: Client, attempts: seq<Attempt>): Client
    decreases |attempts|
  {
    if attempts == [] then c
    else if Stops(attempts[0]) then AfterAttempt(parse, c, attempts[0])
    else AfterAttempts(parse, AfterAttempt(parse, c, attempts[0]), attempts[1..])
  }

  /** Within a stream the token only moves forward, to the largest number seen. */
  lemma {:induction false} TokenIsLargestSeen(parse: Parser, c: Client, items: seq<Event>)
    ensures ConsumeAll(parse, c, items).lastSeen >= c.lastSeen
    ensures forall i :: 0 <= i < |items| ==> items[i].sequence <= ConsumeAll(parse, c, items).lastSeen
    ensures ConsumeAll(parse, c, items).lastSeen == c.lastSeen
            || exists i :: 0 <= i < |items| && items[i].sequence == ConsumeAll(parse, c, items).lastSeen
  {
    if items == [] {
    } else {
      TokenIsLargestSeen(parse, c, items[..|items| - 1]);
    }
  }

  // ---------- What the loop comes to ----------

  /** The items delivered before shutdown is noticed: in a stream, or in the sleep after a refusal or an
      error other than an expired token. */
  function DeliveredItems(attempts: seq<Attempt>): seq<Event>
    decreases |attempts|
  {
    if attempts == [] then []
    else
      match attempts[0]
      case Refused(shutdown) => if shutdown then [] else DeliveredItems(attempts[1..])
      case Stream(items, Shutdown, _) => items
      case Stream(items, OtherError, true) => items
      case Stream(items, _, _) => items + DeliveredItems(attempts[1..])
  }

  /** Index and reports depend on what was delivered, not on how it was numbered. */
  lemma {:induction false} ConsumeFrom(parse: Parser, c: Client, d: Client, items: seq<Event>)
    requires c.index == d.index && c.reported == d.reported
    ensures ConsumeAll(parse, c, items).index == ConsumeAll(parse, d, items).index
    ensures ConsumeAll(parse, c, items).reported == ConsumeAll(parse, d, items).reported
  {
    if items == [] {
    } else {
      ConsumeFrom(parse, c, d, items[..|items| - 1]);
    }
  }

  lemma {:induction false} ConsumeConcat(parse: Parser, c: Client, a: seq<Event>, b: seq<Event>)
    ensures ConsumeAll(parse, c, a + b) == ConsumeAll(parse, ConsumeAll(parse, c, a), b)
  {
    if b == [] {
      assert a + b == a;
    } else {
      ConsumeConcat(parse, c, a, b[..|b| - 1]);
      assert (a + b)[..|a + b| - 1] == a + b[..|b| - 1];
    }
  }

  /** However its streams end, the loop's index and reports are those of consuming, in order, everything
      delivered until it notices shutdown. */
  lemma {:induction false} LoopConsumesDelivered(parse: Parser, c: Client, attempts: seq<Attempt>)
    ensures var end, all := AfterAttempts(parse, c, attempts), ConsumeAll(parse, c, DeliveredItems(attempts));
            end.index == all.index && end.reported == all.reported
    decreases |attempts|
  {
    if attempts == [] {
    } else {
      var a, rest := attempts[0], attempts[1..];
      var c' := AfterAttempt(parse, c, a);
      LoopConsumesDelivered(parse, c', rest);
      if a.Stream? {
        ConsumeConcat(parse, c, a.items, DeliveredItems(rest));
        ConsumeFrom(parse, c', ConsumeAll(parse, c, a.items), DeliveredItems(rest));
      }
    }
  }

  /** After an attempt: a refusal keeps the token, an expired one is dropped, and otherwise it is the largest
      number seen. */
  lemma {:induction false} TokenAfterAttempt(parse: Parser, c: Client, a: Attempt)
    ensures var token := AfterAttempt(parse, c, a).lastSeen;
            match a
            case Refused(_) => token == c.lastSeen
            case Stream(_, OutOfRange, _) => token == 0
            case Stream(items, _, _) =>
              && token >= c.lastSeen && (forall i :: 0 <= i < |items| ==> items[i].sequence <= token)
              && (token == c.lastSeen || exists i :: 0 <= i < |items| && items[i].sequence == token)
  {
    if a.Stream? { TokenIsLargestSeen(parse, c, a.items); }
  }

  // ---------- The loop and the protocol ----------

  /** The attempts a run of registry, stream and client has finished: what each stream delivered, and
      whether it ended out of range or was lost; a subscription refused or lost before it opened. */
  function AttemptsOf(parse: Parser, steps: seq<WorldStep>): seq<Attempt> {
    if steps == [] then []
    else
      var before, last := steps[..|steps| - 1], steps[|steps| - 1];
      var w := RunWorld(parse, before);
      AttemptsOf(parse, before) + Finished(w, Next(parse, w, last).stream, last)
  }

  function Finished(w: World, s': WatchStream.Stream, last: WorldStep): seq<Attempt> {
    if w.stream.Closed? || !s'.Closed? then []
    else if w.stream.Subscribed? then [Refused(false)]
    else [Stream(w.stream.delivered, if last.Deliver? then OutOfRange else Clean, false)]
  }

  function InHand(w: World): seq<Event> { if w.stream.Open? then w.stream.delivered else [] }

  lemma {:induction false} AfterOneMore(parse: Parser, c: Client, attempts: seq<Attempt>, a: Attempt)
    requires forall i :: 0 <= i < |attempts| ==> !Stops(attempts[i])
    ensures AfterAttempts(parse, c, attempts + [a]) == AfterAttempt(parse, AfterAttempts(parse, c, attempts), a)
    decreases |attempts|
  {
    if attempts == [] {
      assert attempts + [a] == [a] && [a][1..] == [];
    } else {
      assert (attempts + [a])[1..] == attempts[1..] + [a];
      AfterOneMore(parse, AfterAttempt(parse, c, attempts[0]), attempts[1..], a);
    }
  }

  lemma ConsumeOneMore(parse: Parser, base: Client, items: seq<Event>, e: Event)
    ensures ConsumeAll(parse, base, items + [e]) == Consume(parse, ConsumeAll(parse, base, items), e)
  {
    var all := items + [e];
    assert all[..|all| - 1] == items && all[|all| - 1] == e;
  }

  /** An item is delivered. */
  lemma LoopDelivers(parse: Parser, w: World, base: Client)
    requires w.client == ConsumeAll(parse, base, InHand(w)) && w.stream.Open? && w.stream.wire != []
    ensures var w' := Next(parse, w, Deliver);
            w'.stream.Open? && w'.client == ConsumeAll(parse, base, InHand(w'))
  {
    ConsumeOneMore(parse, base, w.stream.delivered, w.stream.wire[0]);
  }

  /** A stream ends. */
  lemma LoopEnds(parse: Parser, w: World, step: WorldStep, base: Client)
    requires w.client == ConsumeAll(parse, base, InHand(w)) && !w.stream.Closed? && Next(parse, w, step).stream.Closed?
    ensures var w' := Next(parse, w, step);
            var done := Finished(w, w'.stream, step);
            |done| == 1 && !Stops(done[0]) && InHand(w') == [] && w'.client == AfterAttempt(parse, base, done[0])
  {
  }

  /** Anything else leaves client and deliveries alone. */
  lemma LoopIdles(parse: Parser, w: World, step: WorldStep)
    requires w.stream.Closed? || !Next(parse, w, step).stream.Closed?
    requires !(step.Deliver? && w.stream.Open? && w.stream.wire != [])
    ensures Next(parse, w, step).client == w.client && InHand(Next(parse, w, step)) == InHand(w)
  {
  }

  /** One step of the world, against the loop's bookkeeping. */
  lemma LoopStep(parse: Parser, w: World, step: WorldStep, base: Client)
    requires w.client == ConsumeAll(parse, base, InHand(w))
    ensures var w' := Next(parse, w, step);
            var done := Finished(w, w'.stream, step);
            if done == [] then w'.client == ConsumeAll(parse, base, InHand(w'))
            else |done| == 1 && !Stops(done[0]) && InHand(w') == [] && w'.client == AfterAttempt(parse, base, done[0])
  {
    if step.Deliver? && w.stream.Open? && w.stream.wire != [] {
      LoopDelivers(parse, w, base);
    } else if !w.stream.Closed? && Next(parse, w, step).stream.Closed? {
      LoopEnds(parse, w, step, base);
    } else {
      LoopIdles(parse, w, step);
    }
  }

  /** Every run of registry, stream and client is, as far as the client is concerned, the loop over the
      attempts it contains: their items are what the streams delivered, and the client at the end is
      the loop's, plus what the stream now open has delivered so far. */
  lemma {:induction false} LoopFollowsProtocol(parse: Parser, steps: seq<WorldStep>)
    ensures var w, attempts := RunWorld(parse, steps), AttemptsOf(parse, steps);
            && (forall i :: 0 <= i < |attempts| ==> !Stops(attempts[i]))
            && w.client == ConsumeAll(parse, AfterAttempts(parse, START.client, attempts), InHand(w))
  {
    if steps == [] {
    } else {
      var before, last := steps[..|steps| - 1], steps[|steps| - 1];
      LoopFollowsProtocol(parse, before);
      var w, attempts := RunWorld(parse, before), AttemptsOf(parse, before);
      LoopStep(parse, w, last, AfterAttempts(parse, START.client, attempts));
      var done := Finished(w, Next(parse, w, last).stream, last);
      if done == [] {
        assert attempts + done == attempts;
      } else {
        assert done == [done[0]];
        AfterOneMore(parse, START.client, attempts, done[0]);
      }
    }
  }

  class Subscriber {
    const parse: Parser
    var lastSeen: nat
    var index: NodeIndex
    var reported: seq<NodeId>

    ghost function View(): Client
      reads this
    {
      Client(lastSeen, index, reported)
    }

    constructor (parse: Parser)
      ensures this.parse == parse && View() == Client(0, map[], [])
    {
      this.parse := parse;
      lastSeen, index, reported := 0, map[], [];
    }

    method ApplyEvent(info: NodeInfo) returns (t: StatusTransition)
      modifies this`index
      ensures (index, t) == WatchClient.ApplyEvent(parse, old(index), info)
      ensures var addr, id := ParseNodeAddress(parse, info), IdOf(info);
              if addr.None? || |id| != 16 then t == Skipped && index == old(index)
              else
                && index == old(index)[id := NodeEntry(info.status, addr.value)]
                && (t == Inserted(info.status) <==> id !in old(index))
                && (t == Unchanged <==> id in old(index) && old(index)[id].status == info.status)
                && (t.Changed? <==> id in old(index) && old(index)[id].status != info.status)
                && (t.Changed? ==> t == Changed(old(index)[id].status, info.status))
    {
      var addr := ParseNodeAddress(parse, info);
      if addr.None? || |IdOf(info)| != 16 {
        return Skipped;
      }
      var id := IdOf(info);
      t := if id !in index then Inserted(info.status)
           else if index[id].status == info.status then Unchanged
           else Changed(index[id].status, info.status);
      index := index[id := NodeEntry(info.status, addr.value)];
    }

    method ConsumeStream(items: seq<Event>)
      modifies this
      ensures View() == ConsumeAll(parse, old(View()), items)
    {
      var i := 0;
      ghost var start := View();
      while i < |items|
        invariant 0 <= i <= |items| && View() == ConsumeAll(parse, start, items[..i])
      {
        var e := items[i];
        assert items[..i + 1][..i] == items[..i];
        if e.sequence > lastSeen {
          lastSeen := e.sequence;
        }
        var t := ApplyEvent(e.node);
        if ReportsDeath(t) {
          reported := reported + [IdOf(e.node)];
        }
        i := i + 1;
      }
      assert items[..i] == items;
    }

    method Run(attempts: seq<Attempt>)
      modifies this
      ensures View() == AfterAttempts(parse, old(View()), attempts)
    {
      var i := 0;
      ghost var goal := AfterAttempts(parse, View(), attempts);
      assert attempts[0..] == attempts;
      while i < |attempts|
        invariant 0 <= i <= |attempts| && AfterAttempts(parse, View(), attempts[i..]) == goal
      {
        var a := attempts[i];
        assert attempts[i..][0] == a && attempts[i..][1..] == attempts[i + 1..];
        i := i + 1;
        if a.Refused? {
          if a.shutdown {
            return;
          }
          continue;
        }
        ConsumeStream(a.items);
        match a.end {
          case Shutdown => return;
          case OutOfRange => lastSeen := 0;
          case OtherError => if a.shutdown { return; }
          case Clean =>
        }
      }
    }
  }
}
