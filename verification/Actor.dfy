/** An actor's subprocess as its driver manages it: calls in flight, completions read by the reader
    thread, crashes, restarts, termination. */
module Actor {
  import opened Bytes
  import opened Enumeration

  type Oid = seq<byte>

  /** What the driver and the subprocess have between them. `accepted` remembers the incarnation whose
      socket each call captured, `deliveries` the calls that reached a subprocess, `plasma` the
      results a subprocess has sealed and `reported` those whose completion frame was read. */
  datatype Actor = Actor(
    inFlight: set<Oid>, recording: Option<Oid>, recorded: set<Oid>, died: set<Oid>, lost: set<Oid>,
    accepted: map<Oid, nat>, sending: set<Oid>, deliveries: set<(Oid, nat)>, plasma: set<Oid>, reported: set<Oid>,
    incarnation: nat, up: bool, reading: bool, restartsUsed: nat, maxRestarts: int, dead: bool, terminated: bool)

  datatype Step =
    | Dispatch(oid: Oid)
    | Send(oid: Oid, ok: bool)
    | Execute(oid: Oid)
    | ReadCompletion(oid: Oid)
    | RecordSeal
    | Exit
    | SocketClosed(order: seq<Oid>, spawns: bool)
    | Terminate

  function Spawned(maxRestarts: int): Actor {
    Actor({}, None, {}, {}, {}, map[], {}, {}, {}, {}, 0, true, true, 0, maxRestarts, false, false)
  }

  function Elements(order: seq<Oid>): set<Oid> { set oid | oid in order }

  /** How many of `order` are sealed as died before the first whose result is already in plasma, where
      the seal raises and the handler gives up. */
  function SealedBefore(order: seq<Oid>, plasma: set<Oid>): (n: nat)
    ensures n <= |order|
    ensures forall i :: 0 <= i < n ==> order[i] !in plasma
    ensures n < |order| ==> order[n] in plasma
  {
    if order == [] || order[0] in plasma then 0 else 1 + SealedBefore(order[1..], plasma)
  }

  /** The reader thread on end-of-file, under the state lock. */
  function Closed(a: Actor, order: seq<Oid>, spawns: bool): Actor {
    if a.terminated then a.(reading := false)
    else
      var n := SealedBefore(order, a.plasma);
      var a := a.(inFlight := {}, died := a.died + Elements(order[..n]),
                  lost := a.lost + Elements(order[n..]), reading := false);
      if n < |order| then a
      else if a.restartsUsed >= a.maxRestarts then a.(dead := true)
      else if !spawns then a.(restartsUsed := a.restartsUsed + 1, dead := true)
      else a.(restartsUsed := a.restartsUsed + 1, incarnation := a.incarnation + 1, up := true, reading := true)
  }

  /** The live subprocess was sent this call and its socket still carries it. */
  predicate Reaches(a: Actor, oid: Oid) { a.up && (oid, a.incarnation) in a.deliveries }

  function Next(a: Actor, step: Step): Actor {
    match step
    case Dispatch(oid) =>
      if a.terminated || a.dead || oid in a.accepted then a
      else a.(inFlight := a.inFlight + {oid}, sending := a.sending + {oid},
              accepted := a.accepted[oid := a.incarnation])
    case Send(oid, ok) =>
      if oid !in a.sending || oid !in a.accepted then a
      else if ok && a.up && a.accepted[oid] == a.incarnation then
        a.(sending := a.sending - {oid}, deliveries := a.deliveries + {(oid, a.incarnation)})
      else a.(sending := a.sending - {oid})
    case Execute(oid) => if Reaches(a, oid) && oid !in a.plasma then a.(plasma := a.plasma + {oid}) else a
    case ReadCompletion(oid) =>
      if a.reading && a.recording.None? && (oid, a.incarnation) in a.deliveries && oid in a.plasma && oid !in a.reported
      then a.(inFlight := a.inFlight - {oid}, reported := a.reported + {oid}, recording := Some(oid))
      else a
    case RecordSeal =>
      if a.recording.Some? then a.(recorded := a.recorded + {a.recording.value}, recording := None) else a
    case Exit => a.(up := false)
    case SocketClosed(order, spawns) =>
      if a.reading && !a.up && a.recording.None? && Enumerates(order, a.inFlight) then Closed(a, order, spawns) else a
    case Terminate => a.(terminated := true)
  }

  function Run(maxRestarts: int, steps: seq<Step>): Actor {
    if steps == [] then Spawned(maxRestarts)
    else Next(Run(maxRestarts, steps[..|steps| - 1]), steps[|steps| - 1])
  }

  // ---------- Where each accepted call is ----------

  function InFlight(a: Actor, oid: Oid): nat { if oid in a.inFlight then 1 else 0 }
  function Recording(a: Actor, oid: Oid): nat { if a.recording == Some(oid) then 1 else 0 }
  function Recorded(a: Actor, oid: Oid): nat { if oid in a.recorded then 1 else 0 }
  function Died(a: Actor, oid: Oid): nat { if oid in a.died then 1 else 0 }
  function LostCount(a: Actor, oid: Oid): nat { if oid in a.lost then 1 else 0 }

  /** In how many of the five places `oid` is. */
  function Places(a: Actor, oid: Oid): nat {
    InFlight(a, oid) + Recording(a, oid) + Recorded(a, oid) + Died(a, oid) + LostCount(a, oid)
  }

  ghost predicate PlaceInv(a: Actor, oid: Oid) {
    && Places(a, oid) == (if oid in a.accepted then 1 else 0)
    && (oid in a.reported <==> a.recording == Some(oid) || oid in a.recorded)
    && (oid in a.sending ==> oid in a.accepted)
  }

  ghost predicate LifeInv(a: Actor, oid: Oid) {
    && (oid in a.accepted ==> a.accepted[oid] <= a.incarnation)
    && (forall n :: (oid, n) in a.deliveries ==> oid in a.accepted && n == a.accepted[oid])
    && (oid in a.plasma ==> oid in a.accepted && (oid, a.accepted[oid]) in a.deliveries)
    && (oid in a.died || oid in a.lost ==>
        oid in a.accepted && (a.accepted[oid] < a.incarnation || (!a.up && !a.reading)))
    && (oid in a.died ==> oid !in a.plasma)
    && (oid in a.reported ==> oid in a.plasma)
  }

  ghost predicate RestartInv(a: Actor) {
    && a.incarnation <= a.restartsUsed
    && (a.restartsUsed == 0 || a.restartsUsed <= a.maxRestarts)
    && (a.dead ==> !a.up && !a.reading)
    && (!a.reading ==> a.terminated || a.dead || a.lost != {})
  }

  lemma PlaceStep(a: Actor, step: Step, oid: Oid)
    requires PlaceInv(a, oid) && LifeInv(a, oid)
    ensures PlaceInv(Next(a, step), oid)
  {
    if step.SocketClosed? && Enumerates(step.order, a.inFlight) { ClosedPlaces(a, step.order, step.spawns, oid); }
  }

  /** The crash handler moves each call in flight to exactly one of the died and the lost. */
  lemma ClosedPlaces(a: Actor, order: seq<Oid>, spawns: bool, oid: Oid)
    requires PlaceInv(a, oid) && Enumerates(order, a.inFlight)
    ensures PlaceInv(Closed(a, order, spawns), oid)
  {
    SplitOnce(order, SealedBefore(order, a.plasma), oid);
  }

  lemma SplitOnce(order: seq<Oid>, n: nat, oid: Oid)
    requires n <= |order| && forall i, j :: 0 <= i < j < |order| ==> order[i] != order[j]
    ensures oid in order <==> oid in Elements(order[..n]) || oid in Elements(order[n..])
    ensures !(oid in Elements(order[..n]) && oid in Elements(order[n..]))
  {
  }

  lemma LifeStep(a: Actor, step: Step, oid: Oid)
    requires PlaceInv(a, oid) && LifeInv(a, oid)
    ensures LifeInv(Next(a, step), oid)
  {
    if step.SocketClosed? && a.reading && !a.up && Enumerates(step.order, a.inFlight) {
      ClosedLife(a, step.order, step.spawns, oid);
    }
  }

  lemma ClosedLife(a: Actor, order: seq<Oid>, spawns: bool, oid: Oid)
    requires PlaceInv(a, oid) && LifeInv(a, oid) && Enumerates(order, a.inFlight) && !a.up
    ensures LifeInv(Closed(a, order, spawns), oid)
  {
    var n := SealedBefore(order, a.plasma);
    SplitOnce(order, n, oid);
    if oid in Elements(order[..n]) { assert oid !in a.plasma; }
  }

  lemma RestartStep(a: Actor, step: Step)
    requires RestartInv(a)
    ensures RestartInv(Next(a, step))
  {
    if step.SocketClosed? {
      var n := SealedBefore(step.order, a.plasma);
      if n < |step.order| { assert step.order[n..][0] in Elements(step.order[n..]); }
    }
  }

  ghost predicate Inv(a: Actor, oid: Oid) { PlaceInv(a, oid) && LifeInv(a, oid) && RestartInv(a) }

  lemma InvStep(a: Actor, step: Step, oid: Oid)
    requires Inv(a, oid)
    ensures Inv(Next(a, step), oid) && Next(a, step).maxRestarts == a.maxRestarts
  {
    PlaceStep(a, step, oid);
    LifeStep(a, step, oid);
    RestartStep(a, step);
  }

  lemma {:induction false} InvOverRuns(maxRestarts: int, steps: seq<Step>, oid: Oid)
    ensures Inv(Run(maxRestarts, steps), oid) && Run(maxRestarts, steps).maxRestarts == maxRestarts
  {
    if steps == [] {
    } else {
      InvOverRuns(maxRestarts, steps[..|steps| - 1], oid);
      InvStep(Run(maxRestarts, steps[..|steps| - 1]), steps[|steps| - 1], oid);
    }
  }

  /** In every run, an accepted call is in exactly one place: in flight, being recorded, recorded,
      sealed as died, or lost by an interrupted crash handler; and nothing else is in any. It reaches
      at most one incarnation of the subprocess, the one it was accepted for. What is recorded was
      sealed by that subprocess, what died never is. Restarts stay within the budget. */
  lemma {:induction false} EveryCallAccountedFor(maxRestarts: int, steps: seq<Step>, oid: Oid)
    ensures var a := Run(maxRestarts, steps);
            && Places(a, oid) == (if oid in a.accepted then 1 else 0)
            && (forall m, n :: (oid, m) in a.deliveries && (oid, n) in a.deliveries ==> m == n)
            && (oid in a.recorded ==> oid in a.plasma)
            && (oid in a.died ==> oid !in a.plasma)
            && a.incarnation <= a.restartsUsed <= (if maxRestarts < 0 then 0 else maxRestarts)
  {
    InvOverRuns(maxRestarts, steps, oid);
  }

  predicate CanHandle(a: Actor, order: seq<Oid>) {
    a.reading && !a.up && a.recording.None? && !a.terminated && Enumerates(order, a.inFlight)
  }

  lemma CrashStep(a: Actor, order: seq<Oid>, spawns: bool)
    requires CanHandle(a, order) && a.inFlight !! a.lost && !a.dead
    ensures var b := Next(a, SocketClosed(order, spawns));
            && b.inFlight == {}
            && (b.lost != a.lost <==> a.inFlight * a.plasma != {})
            && (a.inFlight * a.plasma == {} ==>
                && b.died == a.died + a.inFlight
                && b.restartsUsed == a.restartsUsed + (if a.restartsUsed >= a.maxRestarts then 0 else 1)
                && b.dead == (a.restartsUsed >= a.maxRestarts || !spawns)
                && (!b.dead ==>
                    b.up && b.reading && b.restartsUsed == a.restartsUsed + 1 && b.incarnation == a.incarnation + 1))
            && (a.inFlight * a.plasma != {} ==> !b.up && !b.reading && !b.dead && b.restartsUsed == a.restartsUsed)
  {
    var n := SealedBefore(order, a.plasma);
    assert order[..|order|] == order;
    if n < |order| {
      assert order[n] in Elements(order) && order[n] in a.inFlight * a.plasma;
      assert order[n..][0] in Elements(order[n..]);
    } else {
      assert Elements(order[n..]) == {};
      forall oid | oid in a.inFlight ensures oid !in a.plasma { assert oid in Elements(order); }
    }
  }

  lemma Extend(maxRestarts: int, before: seq<Step>, step: Step)
    ensures Run(maxRestarts, before + [step]) == Next(Run(maxRestarts, before), step)
  {
  }

  /** In every run, a handled crash leaves nothing in flight. It loses calls exactly when some call in
      flight has its result in plasma already, and then leaves the actor neither up nor dead;
      otherwise all of them are sealed as died, and the actor is up again, one restart further, or
      dead. */
  lemma {:induction false} CrashHandled(maxRestarts: int, steps: seq<Step>, order: seq<Oid>, spawns: bool)
    requires CanHandle(Run(maxRestarts, steps), order)
    ensures var a, b := Run(maxRestarts, steps), Run(maxRestarts, steps + [SocketClosed(order, spawns)]);
            && b.inFlight == {}
            && (b.lost != a.lost <==> a.inFlight * a.plasma != {})
            && (a.inFlight * a.plasma == {} ==>
                && b.died == a.died + a.inFlight
                && b.restartsUsed == a.restartsUsed + (if a.restartsUsed >= maxRestarts then 0 else 1)
                && b.dead == (a.restartsUsed >= maxRestarts || !spawns)
                && (!b.dead ==>
                    b.up && b.reading && b.restartsUsed == a.restartsUsed + 1 && b.incarnation == a.incarnation + 1))
            && (a.inFlight * a.plasma != {} ==> !b.up && !b.reading && !b.dead && b.restartsUsed == a.restartsUsed)
  {
    var a := Run(maxRestarts, steps);
    forall oid ensures PlaceInv(a, oid) && a.maxRestarts == maxRestarts && !a.dead {
      InvOverRuns(maxRestarts, steps, oid);
    }
    assert a.inFlight !! a.lost by {
      forall oid | oid in a.inFlight ensures oid !in a.lost { assert PlaceInv(a, oid); }
    }
    InvOverRuns(maxRestarts, steps, []);
    CrashStep(a, order, spawns);
    Extend(maxRestarts, steps, SocketClosed(order, spawns));
  }

  lemma RefusesStep(a: Actor, step: Step)
    requires (a.dead && !a.up && !a.reading) || a.terminated
    ensures var b := Next(a, step); b.accepted == a.accepted && ((b.dead && !b.up && !b.reading) || b.terminated)
  {
  }

  /** Once dead or terminated, an actor accepts nothing, whatever happens next. */
  lemma {:induction false} DeadAcceptsNothing(maxRestarts: int, steps: seq<Step>, more: seq<Step>)
    requires Run(maxRestarts, steps).dead || Run(maxRestarts, steps).terminated
    ensures Run(maxRestarts, steps + more).accepted == Run(maxRestarts, steps).accepted
    ensures Run(maxRestarts, steps + more).dead || Run(maxRestarts, steps + more).terminated
  {
    if more == [] {
      assert steps + more == steps;
    } else {
      var before := more[..|more| - 1];
      DeadAcceptsNothing(maxRestarts, steps, before);
      InvOverRuns(maxRestarts, steps + before, []);
      RefusesStep(Run(maxRestarts, steps + before), more[|more| - 1]);
      assert steps + more == (steps + before) + [more[|more| - 1]];
      Extend(maxRestarts, steps + before, more[|more| - 1]);
    }
  }

  /** So `terminate` is final, whatever the actor was doing. */
  lemma {:induction false} TerminateIsFinal(maxRestarts: int, steps: seq<Step>, more: seq<Step>)
    ensures Run(maxRestarts, steps + [Terminate] + more).accepted == Run(maxRestarts, steps).accepted
  {
    Extend(maxRestarts, steps, Terminate);
    DeadAcceptsNothing(maxRestarts, steps + [Terminate], more);
  }

  // ---------- Which calls can still be recorded ----------

  /** The call is recorded, or about to be; or its reader is there, and the call has reached the live
      subprocess and been executed or can be, or is still to be sent to it. */
  predicate Recordable(a: Actor, oid: Oid) {
    || oid in a.recorded || a.recording == Some(oid)
    || (a.reading && (oid, a.incarnation) in a.deliveries && (oid in a.plasma || a.up))
    || (a.reading && a.up && oid in a.sending && oid in a.accepted && a.accepted[oid] == a.incarnation)
  }

  lemma ClosedUnrecordable(a: Actor, order: seq<Oid>, spawns: bool, oid: Oid)
    requires LifeInv(a, oid) && oid in a.accepted && !Recordable(a, oid) && a.reading && !a.up
    ensures !Recordable(Closed(a, order, spawns), oid)
  {
  }

  lemma UnrecordableStep(a: Actor, step: Step, oid: Oid)
    requires PlaceInv(a, oid) && LifeInv(a, oid) && oid in a.accepted && !Recordable(a, oid)
    ensures !Recordable(Next(a, step), oid) && oid in Next(a, step).accepted
  {
    if step.SocketClosed? && a.reading && !a.up { ClosedUnrecordable(a, step.order, step.spawns, oid); }
  }

  lemma {:induction false} UnrecordableForEver(maxRestarts: int, steps: seq<Step>, more: seq<Step>, oid: Oid)
    requires oid in Run(maxRestarts, steps).accepted && !Recordable(Run(maxRestarts, steps), oid)
    ensures var a := Run(maxRestarts, steps + more); oid in a.accepted && !Recordable(a, oid)
  {
    if more == [] {
      assert steps + more == steps;
    } else {
      var init, last := more[..|more| - 1], more[|more| - 1];
      UnrecordableForEver(maxRestarts, steps, init, oid);
      InvOverRuns(maxRestarts, steps + init, oid);
      UnrecordableStep(Run(maxRestarts, steps + init), last, oid);
      assert steps + more == (steps + init) + [last];
      Extend(maxRestarts, steps + init, last);
    }
  }

  /** The call's remaining steps; those not its turn change nothing. */
  lemma RecordableSends(a: Actor, oid: Oid)
    requires PlaceInv(a, oid) && LifeInv(a, oid) && oid in a.accepted && Recordable(a, oid)
    requires oid !in a.recorded && a.recording.None?
    ensures var b := Next(Next(a, Send(oid, true)), Execute(oid));
            && b.reading && b.recording.None? && (oid, b.incarnation) in b.deliveries && oid in b.plasma
            && oid !in b.reported
  {
  }

  lemma {:induction false} RecordableIsRecorded(maxRestarts: int, steps: seq<Step>, oid: Oid) returns (more: seq<Step>)
    requires oid in Run(maxRestarts, steps).accepted && Recordable(Run(maxRestarts, steps), oid)
    ensures oid in Run(maxRestarts, steps + more).recorded
  {
    var s0 := steps + [RecordSeal];
    Extend(maxRestarts, steps, RecordSeal);
    if oid in Run(maxRestarts, s0).recorded {
      more := [RecordSeal];
    } else {
      InvOverRuns(maxRestarts, s0, oid);
      var s1 := s0 + [Send(oid, true)];
      var s2 := s1 + [Execute(oid)];
      var s3 := s2 + [ReadCompletion(oid)];
      Extend(maxRestarts, s0, Send(oid, true));
      Extend(maxRestarts, s1, Execute(oid));
      RecordableSends(Run(maxRestarts, s0), oid);
      Extend(maxRestarts, s2, ReadCompletion(oid));
      Extend(maxRestarts, s3, RecordSeal);
      more := [RecordSeal, Send(oid, true), Execute(oid), ReadCompletion(oid), RecordSeal];
      assert steps + more == s3 + [RecordSeal];
    }
  }

  /** In every run, an accepted call has a continuation in which its result is recorded exactly when it is
      recorded already, or the driver still reads from the subprocess it was accepted for and that has
      executed the call, or is up and has been sent it or can be. */
  lemma {:induction false} RecordedIff(maxRestarts: int, steps: seq<Step>, oid: Oid)
    requires oid in Run(maxRestarts, steps).accepted
    ensures (exists more :: oid in Run(maxRestarts, steps + more).recorded) <==>
            Recordable(Run(maxRestarts, steps), oid)
  {
    if Recordable(Run(maxRestarts, steps), oid) {
      var more := RecordableIsRecorded(maxRestarts, steps, oid);
      assert oid in Run(maxRestarts, steps + more).recorded;
    } else {
      forall more ensures oid !in Run(maxRestarts, steps + more).recorded {
        UnrecordableForEver(maxRestarts, steps, more, oid);
      }
    }
  }

  /** What is still to be sent has not been delivered. */
  ghost predicate SendInv(a: Actor, oid: Oid) {
    oid in a.sending ==> oid in a.accepted && forall n :: (oid, n) !in a.deliveries
  }

  lemma SendStep(a: Actor, step: Step, oid: Oid)
    requires PlaceInv(a, oid) && LifeInv(a, oid) && SendInv(a, oid)
    ensures SendInv(Next(a, step), oid)
  {
  }

  lemma {:induction false} SendOverRuns(maxRestarts: int, steps: seq<Step>, oid: Oid)
    ensures SendInv(Run(maxRestarts, steps), oid)
  {
    if steps == [] {
    } else {
      SendOverRuns(maxRestarts, steps[..|steps| - 1], oid);
      InvOverRuns(maxRestarts, steps[..|steps| - 1], oid);
      SendStep(Run(maxRestarts, steps[..|steps| - 1]), steps[|steps| - 1], oid);
    }
  }

  /** A call whose frame could not be sent is never recorded, whatever happens next. */
  lemma {:induction false} FailedSendIsNeverRecorded(maxRestarts: int, steps: seq<Step>, oid: Oid, more: seq<Step>)
    requires oid in Run(maxRestarts, steps).sending
    ensures oid !in Run(maxRestarts, steps + [Send(oid, false)] + more).recorded
  {
    InvOverRuns(maxRestarts, steps, oid);
    SendOverRuns(maxRestarts, steps, oid);
    Extend(maxRestarts, steps, Send(oid, false));
    UnrecordableForEver(maxRestarts, steps + [Send(oid, false)], more, oid);
  }

  /** A socket that closes after `terminate` ends the reading and seals nothing. */
  lemma ClosedAfterTerminate(a: Actor, order: seq<Oid>, spawns: bool)
    requires a.terminated && a.reading && !a.up && a.recording.None? && Enumerates(order, a.inFlight)
    ensures Next(a, SocketClosed(order, spawns)) == a.(reading := false)
  {
  }

  // ---------- The interrupted crash handler ----------

  /** The subprocess exits after sealing a result and before its completion is read: the handler's own
      seal of that id raises, a second call in flight is lost with it, and the actor is left neither
      up nor dead. */
  lemma CrashAfterSealLosesCalls(x: Oid, y: Oid) returns (steps: seq<Step>)
    requires x != y
    ensures var a := Run(1, steps);
            a.inFlight == {} && a.died == {} && a.lost == {x, y} && !a.up && !a.reading && !a.dead &&
                a.restartsUsed == 0
  {
    steps := TwoCalls(x, y);
    var a := Run(1, steps);
    Extend(1, steps, Exit);
    var order := [x, y];
    assert Enumerates(order, {x, y}) by { assert order[0] == x && order[1] == y; }
    assert SealedBefore(order, {x}) == 0;
    assert order[..0] == [] && order[0..] == order;
    Extend(1, steps + [Exit], SocketClosed(order, true));
    steps := steps + [Exit] + [SocketClosed(order, true)];
  }

  lemma TwoCalls(x: Oid, y: Oid) returns (steps: seq<Step>)
    requires x != y
    ensures var a := Run(1, steps);
            && a.inFlight == {x, y} && a.plasma == {x} && a.died == {} && a.lost == {} && a.recording.None?
            && a.up && a.reading && !a.dead && !a.terminated && a.restartsUsed == 0
  {
    Extend(1, [], Dispatch(x));
    steps := [] + [Dispatch(x)];
    Extend(1, steps, Send(x, true));
    steps := steps + [Send(x, true)];
    Extend(1, steps, Execute(x));
    steps := steps + [Execute(x)];
    assert Run(1, steps).plasma == {x};
    Extend(1, steps, Dispatch(y));
    steps := steps + [Dispatch(y)];
    assert Run(1, steps).inFlight == {x, y};
  }

  /** Neither up, nor dead, nor terminated: no reader is left to notice anything. */
  predicate Abandoned(a: Actor) { !a.up && !a.reading }

  lemma AbandonedStep(a: Actor, step: Step, oid: Oid)
    requires Abandoned(a) && (oid in a.accepted ==> oid in a.inFlight)
    ensures Abandoned(Next(a, step)) && (oid in Next(a, step).accepted ==> oid in Next(a, step).inFlight)
  {
  }

  /** From then on every call the actor accepts stays in flight for ever. */
  lemma {:induction false} AbandonedHangs(maxRestarts: int, steps: seq<Step>, more: seq<Step>, oid: Oid)
    requires Abandoned(Run(maxRestarts, steps)) && oid !in Run(maxRestarts, steps).accepted
    ensures Abandoned(Run(maxRestarts, steps + more))
    ensures oid in Run(maxRestarts, steps + more).accepted ==> oid in Run(maxRestarts, steps + more).inFlight
  {
    if more == [] {
      assert steps + more == steps;
    } else {
      var before := more[..|more| - 1];
      AbandonedHangs(maxRestarts, steps, before, oid);
      AbandonedStep(Run(maxRestarts, steps + before), more[|more| - 1], oid);
      assert steps + more == (steps + before) + [more[|more| - 1]];
      Extend(maxRestarts, steps + before, more[|more| - 1]);
    }
  }

  // ---------- The driver's object ----------

  /** What is sealed under a result id. */
  datatype Sealed = Result | ActorDied

  ghost predicate StoreHolds(store: map<Oid, Sealed>, died: set<Oid>, plasma: set<Oid>) {
    && (forall oid :: oid in died <==> oid in store && store[oid] == ActorDied)
    && (forall oid :: oid in plasma <==> oid in store && store[oid] == Result)
  }

  /** One turn of the crash handler's loop. */
  lemma SealOne(store: map<Oid, Sealed>, died: set<Oid>, plasma: set<Oid>, order: seq<Oid>, i: nat)
    requires i < |order| && Enumerates(order, Elements(order)) && Elements(order) !! died
    requires StoreHolds(store, died + Elements(order[..i]), plasma)
    ensures order[i] in store <==> order[i] in plasma
    ensures order[i] !in store ==> StoreHolds(store[order[i] := ActorDied], died + Elements(order[..i + 1]), plasma)
  {
  }

  class ActorSubprocess {
    const maxRestarts: int
    var inFlight: set<Oid>
    var restartsUsed: nat
    var dead: bool
    var terminated: bool
    var socketSeq: nat
    var store: map<Oid, Sealed>     // the ids sealed in shared plasma

    constructor (maxRestarts: int)
      ensures this.maxRestarts == maxRestarts && Shows(Spawned(maxRestarts))
    {
      this.maxRestarts := maxRestarts;
      inFlight := {};
      restartsUsed := 0;
      dead := false;
      terminated := false;
      socketSeq := 0;
      store := map[];
    }

    /** The fields agree with the model's state. */
    ghost predicate Shows(a: Actor)
      reads this
    {
      && inFlight == a.inFlight && restartsUsed == a.restartsUsed && maxRestarts == a.maxRestarts
      && dead == a.dead && terminated == a.terminated && socketSeq == a.incarnation
      && StoreHolds(store, a.died, a.plasma)
    }

    method DispatchCall(oid: Oid, ghost a: Actor) returns (accepted: bool)
      requires Shows(a) && oid !in a.accepted
      modifies this`inFlight
      ensures Shows(Next(a, Dispatch(oid)))
      ensures accepted <==> oid in Next(a, Dispatch(oid)).accepted
      ensures accepted <==> !terminated && !dead
    {
      if terminated { return false; }
      if dead { return false; }
      inFlight := inFlight + {oid};
      return true;
    }

    /** Seals the in-flight ids one by one; false when one of them is sealed already. */
    method SealAllDied(order: seq<Oid>, ghost a: Actor) returns (ok: bool)
      requires Shows(a) && Enumerates(order, Elements(order)) && Elements(order) !! a.died
      modifies this`store
      ensures ok <==> SealedBefore(order, a.plasma) == |order|
      ensures Shows(a.(died := a.died + Elements(order[..SealedBefore(order, a.plasma)])))
    {
      var i := 0;
      while i < |order|
        invariant 0 <= i <= SealedBefore(order, a.plasma)
        invariant Shows(a.(died := a.died + Elements(order[..i])))
      {
        SealOne(store, a.died, a.plasma, order, i);
        if order[i] in store {
          StopsHere(order, i, a.plasma);
          return false;
        }
        GoesOn(order, i, a.plasma);
        store := store[order[i] := ActorDied];
        i := i + 1;
      }
      return true;
    }

    method OnSocketClosed(order: seq<Oid>, spawns: bool, ghost a: Actor)
      requires Shows(a) && Enumerates(order, a.inFlight) && a.inFlight !! a.died
      modifies this
      ensures Shows(Closed(a, order, spawns))
    {
      if terminated { return; }
      inFlight := {};
      var ok := SealAllDied(order, a.(inFlight := {}));
      if !ok { return; }
      if restartsUsed >= maxRestarts {
        dead := true;
        return;
      }
      restartsUsed := restartsUsed + 1;
      if spawns {
        socketSeq := socketSeq + 1;
      } else {
        dead := true;
      }
    }
  }

  lemma StopsHere(order: seq<Oid>, i: nat, plasma: set<Oid>)
    requires i < |order| && i <= SealedBefore(order, plasma) && order[i] in plasma
    ensures SealedBefore(order, plasma) == i
  {
  }

  lemma GoesOn(order: seq<Oid>, i: nat, plasma: set<Oid>)
    requires i < |order| && i <= SealedBefore(order, plasma) && order[i] !in plasma
    ensures i < SealedBefore(order, plasma)
  {
  }
}
