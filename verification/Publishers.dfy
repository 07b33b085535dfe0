/** Publish calls that overlap: each takes its number, pushes to the replay buffer and broadcasts under
    different locks, so that two of them may push in the order opposite to their numbers. `Registry`
    lets one call finish before the next takes its number; here is what becomes of the log otherwise. */
module Publishers {
  import opened Bytes
  import opened Registry
  import opened WatchStream

  datatype Call = Waiting(event: Event) | Buffered(event: Event)

  /** `pushed` and `sent` are everything pushed and broadcast so far; the replay buffer is the newest
      stretch of the one, the channel is the other. */
  datatype State = State(next: nat, calls: map<nat, Call>, pushed: seq<Event>, sent: seq<Event>)

  datatype PublishStep = TakeNumber(c: nat, node: NodeInfo) | PushEvent(c: nat) | Broadcast(c: nat)

  const START := State(1, map[], [], [])

  function Next(s: State, step: PublishStep): State {
    match step
    case TakeNumber(c, node) =>
      if c in s.calls then s else s.(next := s.next + 1, calls := s.calls[c := Waiting(Event(s.next, node))])
    case PushEvent(c) =>
      if c !in s.calls || !s.calls[c].Waiting? then s
      else s.(calls := s.calls[c := Buffered(s.calls[c].event)], pushed := s.pushed + [s.calls[c].event])
    case Broadcast(c) =>
      if c !in s.calls || !s.calls[c].Buffered? then s
      else s.(calls := s.calls - {c}, sent := s.sent + [s.calls[c].event])
  }

  function RunAll(steps: seq<PublishStep>): State {
    if steps == [] then START else Next(RunAll(steps[..|steps| - 1]), steps[|steps| - 1])
  }

  // ---------- Every number is waiting or pushed ----------

  predicate Waits(s: State, c: nat, n: nat) {
    c in s.calls && s.calls[c].Waiting? && s.calls[c].event.sequence == n
  }

  ghost predicate IsWaiting(s: State, n: nat) { exists c :: Waits(s, c, n) }

  ghost predicate IsPushed(s: State, n: nat) { exists i :: 0 <= i < |s.pushed| && s.pushed[i].sequence == n }

  /** A number handed out waits with one call, or has been pushed; no other number is about. */
  ghost predicate Accounted(s: State, n: nat) {
    && s.next >= 1 && (IsWaiting(s, n) || IsPushed(s, n) ==> 1 <= n < s.next)
    && (1 <= n < s.next ==> (IsWaiting(s, n) <==> !IsPushed(s, n)))
    && (forall c, d :: Waits(s, c, n) && Waits(s, d, n) ==> c == d)
  }

  lemma TakeAccounted(s: State, c: nat, node: NodeInfo, n: nat)
    requires Accounted(s, n) && c !in s.calls
    ensures Accounted(Next(s, TakeNumber(c, node)), n)
  {
    var s' := Next(s, TakeNumber(c, node));
    assert Waits(s', c, s.next);
    forall d | d != c ensures Waits(s', d, n) <==> Waits(s, d, n) { }
  }

  lemma PushAccounted(s: State, c: nat, n: nat)
    requires Accounted(s, n) && c in s.calls && s.calls[c].Waiting?
    ensures Accounted(Next(s, PushEvent(c)), n)
  {
    var s', e := Next(s, PushEvent(c)), s.calls[c].event;
    assert Waits(s, c, e.sequence) && s'.pushed[|s.pushed|] == e;
    forall d ensures Waits(s', d, n) <==> Waits(s, d, n) && d != c { }
    if IsPushed(s, n) { var i :| 0 <= i < |s.pushed| && s.pushed[i].sequence == n; assert s'.pushed[i] == s.pushed[i]; }
  }

  lemma BroadcastAccounted(s: State, c: nat, n: nat)
    requires Accounted(s, n) && c in s.calls && s.calls[c].Buffered?
    ensures Accounted(Next(s, Broadcast(c)), n)
  {
    forall d ensures Waits(Next(s, Broadcast(c)), d, n) <==> Waits(s, d, n) { }
  }

  lemma {:induction false} AccountedOverRuns(steps: seq<PublishStep>, n: nat)
    ensures Accounted(RunAll(steps), n)
  {
    if steps == [] {
    } else {
      var s := RunAll(steps[..|steps| - 1]);
      AccountedOverRuns(steps[..|steps| - 1], n);
      match steps[|steps| - 1]
      case TakeNumber(c, node) => if c !in s.calls { TakeAccounted(s, c, node, n); }
      case PushEvent(c) => if c in s.calls && s.calls[c].Waiting? { PushAccounted(s, c, n); }
      case Broadcast(c) => if c in s.calls && s.calls[c].Buffered? { BroadcastAccounted(s, c, n); }
    }
  }

  // ---------- Exactly when the buffer is in the order of numbers ----------

  /** The step pushes an event while a call with a smaller number has yet to push. */
  ghost predicate PushesAhead(s: State, step: PublishStep) {
    && step.PushEvent? && step.c in s.calls && s.calls[step.c].Waiting?
    && exists n: nat :: IsWaiting(s, n) && n < s.calls[step.c].event.sequence
  }

  ghost predicate NeverAhead(steps: seq<PublishStep>) {
    steps == [] || (NeverAhead(steps[..|steps| - 1]) && !PushesAhead(RunAll(steps[..|steps| - 1]), steps[|steps| - 1]))
  }

  lemma NumberedStep(s: State, step: PublishStep)
    requires Numbered(s.pushed) && forall n :: Accounted(s, n)
    ensures Numbered(Next(s, step).pushed) <==> !PushesAhead(s, step)
  {
    if step.PushEvent? && step.c in s.calls && s.calls[step.c].Waiting? {
      PushedInOrder(s, step.c);
    }
  }

  lemma PushedInOrder(s: State, c: nat)
    requires Numbered(s.pushed) && c in s.calls && s.calls[c].Waiting? && forall n :: Accounted(s, n)
    ensures Numbered(Next(s, PushEvent(c)).pushed) <==> !PushesAhead(s, PushEvent(c))
  {
    var m, next := s.calls[c].event.sequence, |s.pushed| + 1;
    assert Waits(s, c, m) && Accounted(s, m) && Accounted(s, next);
    forall n | 1 <= n < next ensures IsPushed(s, n) { assert s.pushed[n - 1].sequence == n; }
    assert !IsPushed(s, next);
    var pushed' := Next(s, PushEvent(c)).pushed;
    assert pushed'[|s.pushed|].sequence == m;
    if PushesAhead(s, PushEvent(c)) {
      var n: nat :| IsWaiting(s, n) && n < m;
      assert Accounted(s, n);
    } else {
      assert IsWaiting(s, next) ==> next >= m;
    }
  }

  /** However publish calls overlap, what has been pushed is numbered 1, 2, 3, ... exactly when no call ever
      pushed while one with a smaller number had yet to. */
  lemma {:induction false} NumberedIff(steps: seq<PublishStep>)
    ensures Numbered(RunAll(steps).pushed) <==> NeverAhead(steps)
  {
    if steps == [] {
    } else {
      var before := steps[..|steps| - 1];
      NumberedIff(before);
      forall n ensures Accounted(RunAll(before), n) { AccountedOverRuns(before, n); }
      if Numbered(RunAll(before).pushed) {
        NumberedStep(RunAll(before), steps[|steps| - 1]);
      } else {
        PushedGrows(RunAll(before), steps[|steps| - 1]);
      }
    }
  }

  lemma PushedGrows(s: State, step: PublishStep)
    requires !Numbered(s.pushed)
    ensures !Numbered(Next(s, step).pushed)
  {
    var i :| 0 <= i < |s.pushed| && s.pushed[i].sequence != i + 1;
    assert Next(s, step).pushed[i] == s.pushed[i];
  }

  // ---------- An event that is pushed late ----------

  lemma {:induction false} ReplayIsAbove(buffer: seq<Event>, token: nat)
    ensures forall e :: e in BufferedAfter(buffer, token) ==> e.sequence > token
  {
    if buffer == [] {
    } else {
      ReplayIsAbove(buffer[..|buffer| - 1], token);
    }
  }

  lemma Grow(steps: seq<PublishStep>, step: PublishStep, s: State) returns (longer: seq<PublishStep>)
    requires Next(RunAll(steps), step) == s
    ensures longer == steps + [step] && RunAll(longer) == s
  {
    longer := steps + [step];
    assert longer[..|longer| - 1] == steps && longer[|longer| - 1] == step;
  }

  /** The second call to take a number has pushed and broadcast; the first has not. */
  lemma SecondFirst(e: Event, f: Event) returns (steps: seq<PublishStep>)
    requires e.sequence == 1 && f.sequence == 2
    ensures RunAll(steps) == State(3, map[0 := Waiting(e)], [f], [f])
  {
    var s := START.(next := 2, calls := map[0 := Waiting(e)]);
    steps := Grow([], TakeNumber(0, e.node), s);
    assert s.calls[1 := Waiting(f)] == map[0 := Waiting(e), 1 := Waiting(f)];
    s := s.(next := 3, calls := map[0 := Waiting(e), 1 := Waiting(f)]);
    steps := Grow(steps, TakeNumber(1, f.node), s);
    assert s.calls[1 := Buffered(f)] == map[0 := Waiting(e), 1 := Buffered(f)] && [] + [f] == [f];
    s := s.(calls := map[0 := Waiting(e), 1 := Buffered(f)], pushed := [f]);
    steps := Grow(steps, PushEvent(1), s);
    assert s.calls - {1} == map[0 := Waiting(e)];
    steps := Grow(steps, Broadcast(1), s.(calls := map[0 := Waiting(e)], sent := [f]));
  }

  /** Two calls overlap: the second to take a number pushes and broadcasts first. A subscriber that has
      received that event and lost its stream then never gets the other one by resuming, whatever is
      published afterwards, although it has been published. */
  lemma {:induction false} LateEventIsSkipped(a: NodeInfo, b: NodeInfo) returns (steps: seq<PublishStep>)
    ensures var s := RunAll(steps);
            && s.calls == map[] && s.pushed == [Event(2, b), Event(1, a)] && s.sent == s.pushed
            && forall more: seq<PublishStep>, token :: token >= 2 ==>
                 Event(1, a) !in BufferedAfter(Suffix(RunAll(steps + more).pushed, REPLAY_BUFFER_CAPACITY), token)
  {
    var e, f := Event(1, a), Event(2, b);
    steps := SecondFirst(e, f);
    var s := RunAll(steps);
    assert [f] + [e] == [f, e] && s.calls[0 := Buffered(e)] == map[0 := Buffered(e)];
    s := s.(calls := map[0 := Buffered(e)], pushed := [f, e]);
    steps := Grow(steps, PushEvent(0), s);
    assert s.calls - {0} == map[];
    steps := Grow(steps, Broadcast(0), s.(calls := map[], sent := [f, e]));
    forall more: seq<PublishStep>, token | token >= 2
      ensures e !in BufferedAfter(Suffix(RunAll(steps + more).pushed, REPLAY_BUFFER_CAPACITY), token)
    {
      ReplayIsAbove(Suffix(RunAll(steps + more).pushed, REPLAY_BUFFER_CAPACITY), token);
    }
  }
}
