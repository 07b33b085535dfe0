/** One `WatchNodes` stream on the server: subscribe to the broadcast, build the catch-up batch,
    then chain it with the filtered live tail. Registry actions may run between any two of these. */
module WatchStream {
  import opened Bytes
  import opened Enumeration
  import opened Registry

  const BROADCAST_CHANNEL_CAPACITY := 256

  /** `base` is the whole catch-up batch and `delivered` what the subscriber has received; both are
      history. `wire` holds events sent by the server and not yet received, and `failed` says that
      OUT_OF_RANGE follows them. */
  datatype Stream =
    | Closed
    | Subscribed(token: nat, subscribedAt: nat)
    | Open(token: nat, subscribedAt: nat, pushedAtCatchup: nat, base: seq<Event>, highest: nat,
           catchup: seq<Event>, cursor: nat, wire: seq<Event>, failed: bool, delivered: seq<Event>)

  datatype StreamStep =
    | Subscribe(token: nat)
    | CatchUp(order: seq<NodeId>)
    | YieldCatchup
    | YieldLive
    | Receive
    | Disconnect

  // ---------- Building the catch-up batch ----------

  function SnapshotEvents(g: Gcs, order: seq<NodeId>): seq<Event>
    requires Enumerates(order, g.nodes.Keys)
  {
    seq(|order|, i requires 0 <= i < |order| => assert order[i] in order; Event(0, g.nodes[order[i]]))
  }

  function BufferedAfter(buffer: seq<Event>, after: nat): seq<Event> {
    if buffer == [] then []
    else BufferedAfter(buffer[..|buffer| - 1], after)
         + if buffer[|buffer| - 1].sequence > after then [buffer[|buffer| - 1]] else []
  }

  /** The resume token is below the replay buffer's floor. */
  predicate BelowFloor(buffer: seq<Event>, token: nat) {
    token > 0 && |buffer| > 0 && token + 1 < buffer[0].sequence
  }

  function CatchupBatch(g: Gcs, token: nat, order: seq<NodeId>): seq<Event>
    requires token == 0 ==> Enumerates(order, g.nodes.Keys)
  {
    if token == 0 then SnapshotEvents(g, order) else BufferedAfter(g.buffer, token)
  }

  function HighestSequence(batch: seq<Event>): nat {
    if batch == [] then 0 else batch[|batch| - 1].sequence
  }

  predicate StreamEnabled(g: Gcs, s: Stream, step: StreamStep) {
    match step
    case Subscribe(_) => s.Closed?
    case CatchUp(order) => s.Subscribed? && (s.token == 0 ==> Enumerates(order, g.nodes.Keys))
    case YieldCatchup => s.Open? && s.catchup != []
    case YieldLive => s.Open? && s.catchup == [] && !s.failed && s.cursor < |g.channel|
    case Receive => s.Open? && s.wire != []
    case Disconnect => true
  }

  /** The next broadcast item: an event above the catch-up batch, a duplicate to drop, or a lag. */
  function PullLive(g: Gcs, s: Stream): Stream
    requires s.Open? && s.cursor < |g.channel|
  {
    if |g.channel| - s.cursor > BROADCAST_CHANNEL_CAPACITY then s.(failed := true)
    else
      var e := g.channel[s.cursor];
      if e.sequence > s.highest then s.(cursor := s.cursor + 1, wire := s.wire + [e])
      else s.(cursor := s.cursor + 1)
  }

  function StreamNext(g: Gcs, s: Stream, step: StreamStep): Stream {
    if !StreamEnabled(g, s, step) then s else
    match step
    case Subscribe(token) => Subscribed(token, |g.channel|)
    case CatchUp(order) =>
      if BelowFloor(g.buffer, s.token) then Closed
      else
        var batch := CatchupBatch(g, s.token, order);
        Open(s.token, s.subscribedAt, |PushedLog(g)|, batch, HighestSequence(batch),
             batch, s.subscribedAt, [], false, [])
    case YieldCatchup => s.(catchup := s.catchup[1..], wire := s.wire + [s.catchup[0]])
    case YieldLive => PullLive(g, s)
    case Receive => s.(wire := s.wire[1..], delivered := s.delivered + [s.wire[0]])
    case Disconnect => Closed
  }

  // ---------- What a stream carries ----------

  function Max(a: nat, b: nat): nat { if a < b then b else a }

  /** Log positions the live tail has covered so far: `[LiveFrom, LiveTo)`. */
  function LiveFrom(s: Stream): nat requires s.Open? { Max(s.subscribedAt, s.highest) }
  function LiveTo(s: Stream): nat requires s.Open? { Max(s.cursor, s.highest) }

  function Carried(s: Stream): seq<Event> requires s.Open? { s.delivered + s.wire + s.catchup }

  /** The first log position a resumed stream carries. */
  function StartOf(s: Stream): nat requires s.Open? {
    if s.token < s.pushedAtCatchup then s.token else s.subscribedAt
  }

  /** Counters of an open stream, against the log and how much of it is pushed and broadcast. */
  ghost predicate Bounded(pushed: nat, sent: nat, s: Stream)
    requires s.Open?
  {
    && s.subscribedAt <= s.cursor <= sent
    && s.subscribedAt <= s.pushedAtCatchup <= pushed
    && s.highest <= pushed
    && (s.catchup != [] ==> s.cursor == s.subscribedAt)
    && (s.failed ==> s.cursor < sent)
  }

  /** The catch-up batch: unnumbered snapshot records, or the replayed part of the log. */
  ghost predicate BaseOk(log: seq<Event>, s: Stream)
    requires s.Open?
  {
    if s.token == 0 then s.highest == 0 && forall e :: e in s.base ==> e.sequence == 0
    else if s.token < s.pushedAtCatchup
    then s.highest == s.pushedAtCatchup <= |log| && s.base == log[s.token..s.highest]
    else s.highest == 0 && s.base == []
  }

  /** Everything carried so far is the catch-up batch and then a stretch of the log. */
  ghost predicate CarriedOk(log: seq<Event>, s: Stream)
    requires s.Open?
  {
    LiveFrom(s) <= LiveTo(s) <= |log| && Carried(s) == s.base + log[LiveFrom(s)..LiveTo(s)]
  }

  ghost predicate StreamInv(g: Gcs, s: Stream) {
    && (s.Subscribed? ==> s.subscribedAt <= |g.channel|)
    && (s.Open? ==> Bounded(|PushedLog(g)|, |g.channel|, s) && BaseOk(Log(g), s) && CarriedOk(Log(g), s))
  }

  lemma {:induction false} BufferedAfterIsSlice(log: seq<Event>, lo: nat, after: nat)
    requires Numbered(log) && lo <= |log| && lo <= after
    ensures BufferedAfter(log[lo..], after) == if after <= |log| then log[after..] else []
  {
    if lo == |log| {
    } else {
      var init := log[..|log| - 1];
      BufferedAfterIsSlice(init, lo, after);
      assert log[lo..][..|log| - lo - 1] == init[lo..];
    }
  }

  /** A resume that passes the floor check replays exactly the events after the token. */
  lemma CatchupReplays(g: Gcs, token: nat)
    requires LogInv(g) && token > 0 && !BelowFloor(g.buffer, token)
    ensures BufferedAfter(g.buffer, token) ==
            if token <= |PushedLog(g)| then PushedLog(g)[token..] else []
  {
    var log := PushedLog(g);
    var lo := if |log| <= REPLAY_BUFFER_CAPACITY then 0 else |log| - REPLAY_BUFFER_CAPACITY;
    assert log <= Log(g);
    assert g.buffer == log[lo..];
    if |log| > 0 { assert g.buffer[0] == log[lo]; }
    BufferedAfterIsSlice(log, lo, token);
  }

  /** A token is below the floor exactly when the event after it has been pushed and evicted since. */
  lemma BelowFloorIff(g: Gcs, token: nat)
    requires LogInv(g)
    ensures BelowFloor(g.buffer, token) <==> 0 < token && token + REPLAY_BUFFER_CAPACITY < |PushedLog(g)|
  {
    var log := PushedLog(g);
    assert log <= Log(g);
    if |log| > REPLAY_BUFFER_CAPACITY {
      assert g.buffer[0] == log[|log| - REPLAY_BUFFER_CAPACITY];
    } else if |log| > 0 {
      assert g.buffer[0] == log[0];
    }
  }

  /** A stream is failed by lag, and by nothing else: when it comes to the next broadcast event and finds
      more of them unread than the channel holds. */
  lemma FailsIffLagged(g: Gcs, s: Stream, step: StreamStep)
    requires s.Open? && !s.failed && StreamNext(g, s, step).Open?
    ensures StreamNext(g, s, step).failed <==>
            step.YieldLive? && s.catchup == [] && |g.channel| > s.cursor + BROADCAST_CHANNEL_CAPACITY
  {
  }

  lemma FreshStreamOk(log: seq<Event>, s: Stream)
    requires s.Open? && s.delivered == [] && s.wire == [] && s.catchup == s.base && s.cursor == s.subscribedAt
    requires Max(s.cursor, s.highest) <= |log|
    ensures CarriedOk(log, s)
  {
  }

  lemma StreamInvCatchUp(g: Gcs, s: Stream, order: seq<NodeId>)
    requires LogInv(g) && StreamInv(g, s) && StreamEnabled(g, s, CatchUp(order))
    ensures StreamInv(g, StreamNext(g, s, CatchUp(order)))
  {
    if !BelowFloor(g.buffer, s.token) {
      var s' := StreamNext(g, s, CatchUp(order));
      var pushed, log := PushedLog(g), Log(g);
      if s.token > 0 {
        CatchupReplays(g, s.token);
        if s.token < |pushed| { assert log[..|pushed|] == pushed; }
      }
      FreshStreamOk(log, s');
    }
  }

  lemma CarriedGrows(log: seq<Event>, s: Stream, s': Stream)
    requires s.Open? && CarriedOk(log, s) && s.catchup == [] && s.cursor < |log| && s.highest <= s.cursor
    requires s' == s.(cursor := s.cursor + 1, wire := s.wire + [log[s.cursor]])
    ensures CarriedOk(log, s')
  {
    var e := log[s.cursor];
    assert Carried(s') == Carried(s) + [e];
    assert log[LiveFrom(s)..LiveTo(s')] == log[LiveFrom(s)..LiveTo(s)] + [e];
  }

  lemma StreamInvYieldLive(g: Gcs, s: Stream)
    requires LogInv(g) && StreamInv(g, s) && StreamEnabled(g, s, YieldLive)
    ensures StreamInv(g, PullLive(g, s))
  {
    var s', log := PullLive(g, s), Log(g);
    assert g.channel[s.cursor] == log[s.cursor];
    if s'.failed {
      assert Carried(s') == Carried(s);
    } else if log[s.cursor].sequence > s.highest {
      CarriedGrows(log, s, s');
    } else {
      assert Carried(s') == Carried(s) && LiveTo(s') == LiveTo(s);
    }
  }

  lemma MoveHead<T>(a: seq<T>, b: seq<T>, c: seq<T>)
    requires c != []
    ensures a + (b + [c[0]]) + c[1..] == a + b + c
    ensures (b + [c[0]]) + c[1..] == b + c
  {
  }

  lemma StreamInvStep(g: Gcs, s: Stream, step: StreamStep)
    requires LogInv(g) && StreamInv(g, s)
    ensures StreamInv(g, StreamNext(g, s, step))
  {
    if StreamEnabled(g, s, step) {
      match step {
        case CatchUp(order) => StreamInvCatchUp(g, s, order);
        case YieldLive => StreamInvYieldLive(g, s);
        case YieldCatchup => MoveHead(s.delivered, s.wire, s.catchup);
        case Receive => MoveHead([], s.delivered, s.wire);
        case _ =>
      }
    }
  }

  lemma StreamInvGcsStep(g: Gcs, s: Stream, step: GcsStep)
    requires LogInv(g) && StreamInv(g, s)
    ensures StreamInv(Step(g, step), s)
  {
    LogInvStep(g, step);
    if s.Open? {
      LongerLog(Log(g), Log(Step(g, step)), s);
    }
  }

  lemma LongerLog(log: seq<Event>, log': seq<Event>, s: Stream)
    requires s.Open? && log <= log' && BaseOk(log, s) && CarriedOk(log, s)
    ensures BaseOk(log', s) && CarriedOk(log', s)
  {
  }

  // ---------- Coming back ----------

  /** A subscriber may leave at any time and come back with any token: it gets a stream with that token
      exactly when the event after it has not been evicted, and nothing of the old stream is left. */
  lemma ComesBackIff(g: Gcs, s: Stream, token: nat, order: seq<NodeId>)
    requires LogInv(g) && Enumerates(order, g.nodes.Keys)
    ensures var back := StreamNext(g, StreamNext(g, StreamNext(g, s, Disconnect), Subscribe(token)), CatchUp(order));
            && (back.Open? <==> token == 0 || |PushedLog(g)| <= token + REPLAY_BUFFER_CAPACITY)
            && (back.Open? ==> back.token == token && back.subscribedAt == back.cursor == |g.channel| &&
                               back.wire == [] && back.delivered == [] && !back.failed)
  {
    BelowFloorIff(g, token);
  }

  // ---------- Any subscriber, any interleaving ----------

  datatype SubscriberStep = G(g: GcsStep) | S(s: StreamStep)

  function SubscriberNext(p: (Gcs, Stream), step: SubscriberStep): (Gcs, Stream) {
    match step
    case G(step) => (Step(p.0, step), p.1)
    case S(step) => (p.0, StreamNext(p.0, p.1, step))
  }

  function RunSubscriber(steps: seq<SubscriberStep>): (Gcs, Stream) {
    if steps == [] then (EMPTY, Closed)
    else SubscriberNext(RunSubscriber(steps[..|steps| - 1]), steps[|steps| - 1])
  }

  lemma {:induction false} SubscriberInv(steps: seq<SubscriberStep>)
    ensures var (g, s) := RunSubscriber(steps); LogInv(g) && StreamInv(g, s)
  {
    if steps == [] {
    } else {
      SubscriberInv(steps[..|steps| - 1]);
      var (g, s) := RunSubscriber(steps[..|steps| - 1]);
      match steps[|steps| - 1] {
        case G(step) => LogInvStep(g, step); StreamInvGcsStep(g, s, step);
        case S(step) => StreamInvStep(g, s, step);
      }
    }
  }

  /** `es` is the stretch of `log` that starts at position `from`. */
  ghost predicate StretchOf(log: seq<Event>, from: nat, es: seq<Event>) {
    from + |es| <= |log| && es == log[from..from + |es|]
  }

  lemma CarriedIsContiguous(log: seq<Event>, s: Stream)
    requires s.Open? && s.token > 0 && s.subscribedAt <= s.cursor && BaseOk(log, s) && CarriedOk(log, s)
    requires s.subscribedAt <= s.pushedAtCatchup
    ensures StretchOf(log, StartOf(s), Carried(s)) && StartOf(s) + |Carried(s)| == LiveTo(s)
  {
    if s.token < s.pushedAtCatchup {
      assert LiveFrom(s) == s.highest;
      Joined(log, s.token, s.highest, LiveTo(s));
    } else {
      assert LiveFrom(s) == s.subscribedAt;
      assert Carried(s) == log[LiveFrom(s)..LiveTo(s)];
    }
  }

  lemma Joined<T>(s: seq<T>, i: nat, j: nat, k: nat)
    requires i <= j <= k <= |s|
    ensures s[i..j] + s[j..k] == s[i..k]
  {
  }

  lemma StretchPrefix(log: seq<Event>, from: nat, a: seq<Event>, b: seq<Event>)
    requires Numbered(log) && StretchOf(log, from, a + b)
    ensures StretchOf(log, from, a)
    ensures forall i :: 0 <= i < |a| ==> a[i].sequence == from + i + 1
  {
    assert a == (a + b)[..|a|] == log[from..from + |a + b|][..|a|] == log[from..from + |a|];
  }

  /** Whatever the interleaving and whatever the token `k > 0`, a stream that opens delivers one
      gapless, duplicate-free stretch of the event log. The stretch begins right after the token
      exactly when a later event was already buffered at catch-up, or event `k` was the newest one
      already broadcast at subscribe time. */
  lemma {:induction false} ResumedStreamIsContiguous(steps: seq<SubscriberStep>, g: Gcs, s: Stream)
    requires RunSubscriber(steps) == (g, s) && s.Open? && s.token > 0
    ensures StretchOf(Log(g), StartOf(s), s.delivered)
    ensures forall i :: 0 <= i < |s.delivered| ==> s.delivered[i].sequence == StartOf(s) + i + 1
    ensures StartOf(s) == s.token <==> s.token < s.pushedAtCatchup || s.token == s.subscribedAt
  {
    SubscriberInv(steps);
    CarriedIsContiguous(Log(g), s);
    assert Carried(s) == s.delivered + (s.wire + s.catchup);
    StretchPrefix(Log(g), StartOf(s), s.delivered, s.wire + s.catchup);
  }
}
