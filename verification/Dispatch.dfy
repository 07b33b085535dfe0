/** The dispatcher: submitters push jobs and notify, handler threads pop, park and wake, and
    shutdown sets a flag and wakes everyone. Lineage records decide who may submit again. */
module Dispatch {
  import opened Bytes
  import opened TaskManager

  /** A thread inside `submit`: holding a job, past the flag check, owing the notify, or done. A
      handler that requeued its job and has yet to notify is `Owing` too. */
  datatype Call = Holding(job: Job) | Checked(job: Job) | Owing | Over

  /** A handler thread: about to take the queue lock, asleep on the condition variable, notified but
      not yet holding the lock, with a job before or after sending it, told to stop, or gone. */
  datatype Handler = Ready | Parked | Woken | Building(job: Job) | Awaiting(job: Job) | Stopped | Gone

  /** `minted` is history: the attempts ever handed to `submit`, per task. */
  datatype State = State(
    queue: seq<Job>, calls: seq<Call>, handlers: seq<Handler>, shutdown: bool, notifiedAll: bool,
    records: Records, minted: map<TaskId, nat>)

  datatype Step =
    | SubmitTask(job: Job)
    | Resubmit(oid: OutputId)
    | CheckFlag(c: nat)
    | PushBack(c: nat)
    | Notify(c: nat, h: nat)
    | Connect
    | NextJob(h: nat)
    | FrameFails(h: nat)
    | SendOk(h: nat)
    | SendFails(h: nat)
    | Disconnect(h: nat)
    | Complete(h: nat, ingested: bool)
    | WakeSpuriously(h: nat)
    | SetFlag
    | NotifyAll

  const START := State([], [], [], false, false, map[], map[])

  // ---------- Counting ----------

  function One(b: bool): nat { if b then 1 else 0 }

  function CountIf<T>(s: seq<T>, f: T -> bool): nat {
    if s == [] then 0 else One(f(s[0])) + CountIf(s[1..], f)
  }

  lemma {:induction false} CountAppend<T>(s: seq<T>, x: T, f: T -> bool)
    ensures CountIf(s + [x], f) == CountIf(s, f) + One(f(x))
  {
    if s == [] {
      assert s + [x] == [x];
    } else {
      assert (s + [x])[1..] == s[1..] + [x];
      CountAppend(s[1..], x, f);
    }
  }

  lemma {:induction false} CountUpdate<T>(s: seq<T>, i: nat, x: T, f: T -> bool)
    requires i < |s|
    ensures CountIf(s[i := x], f) == CountIf(s, f) + One(f(x)) - One(f(s[i]))
  {
    if i == 0 {
      assert s[i := x][1..] == s[1..];
    } else {
      assert s[i := x][1..] == s[1..][i - 1 := x];
      CountUpdate(s[1..], i - 1, x, f);
    }
  }

  lemma {:induction false} CountPositive<T>(s: seq<T>, i: nat, f: T -> bool)
    requires i < |s| && f(s[i])
    ensures CountIf(s, f) > 0
  {
    if i > 0 { CountPositive(s[1..], i - 1, f); }
  }

  lemma {:induction false} CountZero<T>(s: seq<T>, f: T -> bool)
    requires forall i :: 0 <= i < |s| ==> !f(s[i])
    ensures CountIf(s, f) == 0
  {
    if s == [] {
    } else {
      forall i | 0 <= i < |s[1..]| ensures !f(s[1..][i]) { assert s[1..][i] == s[i + 1]; }
      CountZero(s[1..], f);
    }
  }

  predicate IsParked(h: Handler) { h.Parked? }
  predicate IsWoken(h: Handler) { h.Woken? }
  predicate IsStopped(h: Handler) { h.Stopped? }
  predicate Owes(c: Call) { c.Owing? }

  // ---------- Steps ----------

  function WakeAll(hs: seq<Handler>): (r: seq<Handler>)
    ensures |r| == |hs|
    ensures forall i :: 0 <= i < |hs| ==> r[i] == if hs[i].Parked? then Woken else hs[i]
  {
    seq(|hs|, i requires 0 <= i < |hs| => if hs[i].Parked? then Woken else hs[i])
  }

  function Mint(s: State, job: Job, records: Records): State {
    s.(calls := s.calls + [Holding(job)], records := records,
       minted := s.minted[job.task := 1 + if job.task in s.minted then s.minted[job.task] else 0])
  }

  /** What a handler gets from `next_job` once it holds the queue lock. */
  function TakeLock(s: State, h: nat): State
    requires h < |s.handlers|
  {
    if s.queue != [] then s.(queue := s.queue[1..], handlers := s.handlers[h := Building(s.queue[0])])
    else if s.shutdown then s.(handlers := s.handlers[h := Stopped])
    else s.(handlers := s.handlers[h := Parked])
  }

  /** `notify_one`: wakes a parked handler if there is one. */
  function DoNotify(s: State, c: nat, h: nat): State
    requires c < |s.calls|
  {
    if h < |s.handlers| && s.handlers[h].Parked? then
      s.(calls := s.calls[c := Over], handlers := s.handlers[h := Woken])
    else if CountIf(s.handlers, IsParked) == 0 then s.(calls := s.calls[c := Over])
    else s
  }

  function CallStep(s: State, step: Step, c: nat): State
    requires c < |s.calls|
  {
    var call := s.calls[c];
    match step
    case CheckFlag(_) =>
      if call.Holding? then s.(calls := s.calls[c := if s.shutdown then Over else Checked(call.job)]) else s
    case PushBack(_) =>
      if call.Checked? then s.(calls := s.calls[c := Owing], queue := s.queue + [call.job]) else s
    case Notify(_, h) => if call.Owing? then DoNotify(s, c, h) else s
    case _ => s
  }

  function HandlerStep(s: State, step: Step, h: nat): State
    requires h < |s.handlers|
  {
    var handler := s.handlers[h];
    match step
    case NextJob(_) => if handler.Ready? || handler.Woken? then TakeLock(s, h) else s
    case FrameFails(_) => if handler.Building? then s.(handlers := s.handlers[h := Ready]) else s
    case SendOk(_) => if handler.Building? then s.(handlers := s.handlers[h := Awaiting(handler.job)]) else s
    case SendFails(_) =>
      if handler.Building? then
        s.(handlers := s.handlers[h := Gone], calls := s.calls + [Owing], queue := [handler.job] + s.queue)
      else s
    case Disconnect(_) => if handler.Awaiting? then s.(handlers := s.handlers[h := Gone]) else s
    case Complete(_, ingested) =>
      if !handler.Awaiting? then s
      else s.(handlers := s.handlers[h := Ready],
              records := if ingested then MarkCompleted(s.records, handler.job.task) else s.records)
    case WakeSpuriously(_) => if handler.Parked? then s.(handlers := s.handlers[h := Woken]) else s
    case _ => s
  }

  function Next(s: State, step: Step): State {
    match step
    case SubmitTask(job) =>
      if job.task in s.minted || job.numReturns == 0 then s else Mint(s, job, Record(s.records, Outputs(job), job))
    case Resubmit(oid) =>
      if !CanResubmit(s.records, oid) then s
      else Mint(s, s.records[oid].job, SpendRetry(s.records, s.records[oid].job.task))
    case Connect => s.(handlers := s.handlers + [Ready])
    case SetFlag => s.(shutdown := true)
    case NotifyAll => if s.shutdown then s.(handlers := WakeAll(s.handlers), notifiedAll := true) else s
    case CheckFlag(c) => if c < |s.calls| then CallStep(s, step, c) else s
    case PushBack(c) => if c < |s.calls| then CallStep(s, step, c) else s
    case Notify(c, _) => if c < |s.calls| then CallStep(s, step, c) else s
    case _ => if step.h < |s.handlers| then HandlerStep(s, step, step.h) else s
  }

  function Run(steps: seq<Step>): State {
    if steps == [] then START else Next(Run(steps[..|steps| - 1]), steps[|steps| - 1])
  }

  // ---------- No lost wakeup ----------

  predicate WakeInv(s: State) {
    && (CountIf(s.handlers, IsParked) > 0 ==>
        |s.queue| <= CountIf(s.calls, Owes) + CountIf(s.handlers, IsWoken))
    && (s.notifiedAll ==> s.shutdown && CountIf(s.handlers, IsParked) == 0)
    && (CountIf(s.handlers, IsStopped) > 0 ==> s.shutdown)
  }

  lemma HandlerCounts(hs: seq<Handler>, h: nat, x: Handler)
    requires h < |hs|
    ensures CountIf(hs[h := x], IsParked) == CountIf(hs, IsParked) + One(x.Parked?) - One(hs[h].Parked?)
    ensures CountIf(hs[h := x], IsWoken) == CountIf(hs, IsWoken) + One(x.Woken?) - One(hs[h].Woken?)
    ensures CountIf(hs[h := x], IsStopped) == CountIf(hs, IsStopped) + One(x.Stopped?) - One(hs[h].Stopped?)
  {
    CountUpdate(hs, h, x, IsParked);
    CountUpdate(hs, h, x, IsWoken);
    CountUpdate(hs, h, x, IsStopped);
  }

  lemma WakeCallStep(s: State, step: Step, c: nat)
    requires WakeInv(s) && c < |s.calls|
    ensures WakeInv(CallStep(s, step, c))
  {
    match step
    case CheckFlag(_) =>
      CountUpdate(s.calls, c, Over, Owes);
      if s.calls[c].Holding? { CountUpdate(s.calls, c, Checked(s.calls[c].job), Owes); }
    case PushBack(_) => CountUpdate(s.calls, c, Owing, Owes);
    case Notify(_, h) =>
      CountUpdate(s.calls, c, Over, Owes);
      if h < |s.handlers| { HandlerCounts(s.handlers, h, Woken); }
    case _ =>
  }

  lemma WakeHandlerStep(s: State, step: Step, h: nat)
    requires WakeInv(s) && h < |s.handlers|
    ensures WakeInv(HandlerStep(s, step, h))
  {
    var h' := HandlerStep(s, step, h).handlers[h];
    HandlerCounts(s.handlers, h, h');
    CountAppend(s.calls, Owing, Owes);
  }

  lemma WakeMint(s: State, job: Job, records: Records)
    requires WakeInv(s)
    ensures WakeInv(Mint(s, job, records))
  {
    CountAppend(s.calls, Holding(job), Owes);
  }

  lemma WakeConnect(s: State)
    requires WakeInv(s)
    ensures WakeInv(s.(handlers := s.handlers + [Ready]))
  {
    CountAppend(s.handlers, Ready, IsParked);
    CountAppend(s.handlers, Ready, IsWoken);
    CountAppend(s.handlers, Ready, IsStopped);
  }

  lemma WakeInvStep(s: State, step: Step)
    requires WakeInv(s)
    ensures WakeInv(Next(s, step))
  {
    match step
    case SubmitTask(job) => WakeMint(s, job, Record(s.records, Outputs(job), job));
    case Resubmit(oid) =>
      if oid in s.records { WakeMint(s, s.records[oid].job, SpendRetry(s.records, s.records[oid].job.task)); }
    case Connect => WakeConnect(s);
    case SetFlag =>
    case NotifyAll => WakeAllCounts(s.handlers);
    case CheckFlag(c) => if c < |s.calls| { WakeCallStep(s, step, c); }
    case PushBack(c) => if c < |s.calls| { WakeCallStep(s, step, c); }
    case Notify(c, _) => if c < |s.calls| { WakeCallStep(s, step, c); }
    case _ => if step.h < |s.handlers| { WakeHandlerStep(s, step, step.h); }
  }

  lemma WakeAllCounts(hs: seq<Handler>)
    ensures CountIf(WakeAll(hs), IsParked) == 0
    ensures CountIf(WakeAll(hs), IsStopped) == CountIf(hs, IsStopped)
  {
    CountZero(WakeAll(hs), IsParked);
    WakeAllKeepsStopped(hs, WakeAll(hs));
  }

  lemma {:induction false} WakeAllKeepsStopped(hs: seq<Handler>, r: seq<Handler>)
    requires |r| == |hs| && forall i :: 0 <= i < |hs| ==> r[i].Stopped? == hs[i].Stopped?
    ensures CountIf(r, IsStopped) == CountIf(hs, IsStopped)
  {
    if hs == [] {
    } else {
      WakeAllKeepsStopped(hs[1..], r[1..]);
    }
  }

  /** In every run: while some handler sleeps, every queued job has a notify on its way or a woken
      handler coming for it; after shutdown's broadcast nobody sleeps; and a handler is told to stop
      only after the flag is set. */
  lemma {:induction false} NoLostWakeup(steps: seq<Step>)
    ensures WakeInv(Run(steps))
  {
    if steps == [] {
    } else {
      NoLostWakeup(steps[..|steps| - 1]);
      WakeInvStep(Run(steps[..|steps| - 1]), steps[|steps| - 1]);
    }
  }

  lemma CallNeverStops(s: State, step: Step, c: nat, h: nat)
    requires h < |s.handlers| && c < |s.calls| && !s.handlers[h].Stopped?
    ensures h < |CallStep(s, step, c).handlers| && !CallStep(s, step, c).handlers[h].Stopped?
  {
  }

  lemma HandlerStops(s: State, step: Step, i: nat, h: nat)
    requires h < |s.handlers| && i < |s.handlers| && !s.handlers[h].Stopped?
    ensures h < |HandlerStep(s, step, i).handlers|
    ensures HandlerStep(s, step, i).handlers[h].Stopped? <==>
            step.NextJob? && i == h && (s.handlers[h].Ready? || s.handlers[h].Woken?) && s.shutdown && s.queue == []
  {
  }

  /** A handler is told to stop only with the flag set and the queue empty at that moment. */
  lemma StopsOnlyWhenDrained(s: State, step: Step, h: nat)
    requires h < |s.handlers| && !s.handlers[h].Stopped?
    ensures h < |Next(s, step).handlers|
    ensures Next(s, step).handlers[h].Stopped? <==>
            step == NextJob(h) && (s.handlers[h].Ready? || s.handlers[h].Woken?) && s.shutdown && s.queue == []
  {
    match step
    case SubmitTask(_) =>
    case Resubmit(_) =>
    case Connect =>
    case SetFlag =>
    case NotifyAll =>
    case CheckFlag(c) => if c < |s.calls| { CallNeverStops(s, step, c, h); }
    case PushBack(c) => if c < |s.calls| { CallNeverStops(s, step, c, h); }
    case Notify(c, _) => if c < |s.calls| { CallNeverStops(s, step, c, h); }
    case _ => if step.h < |s.handlers| { HandlerStops(s, step, step.h, h); }
  }

  // ---------- What becomes of a handler ----------

  lemma CallWakes(s: State, step: Step, c: nat, h: nat)
    requires h < |s.handlers| && c < |s.calls|
    ensures h < |CallStep(s, step, c).handlers|
    ensures CallStep(s, step, c).handlers[h] ==
            if step.Notify? && step.h == h && s.calls[c].Owing? && s.handlers[h].Parked? then Woken else s.handlers[h]
  {
  }

  /** A handler goes for good exactly when it cannot send its job or loses the worker that has it. */
  lemma GoneIff(s: State, step: Step, h: nat)
    requires h < |s.handlers|
    ensures h < |Next(s, step).handlers|
    ensures Next(s, step).handlers[h].Gone? <==>
            || s.handlers[h].Gone?
            || (step == SendFails(h) && s.handlers[h].Building?) || (step == Disconnect(h) && s.handlers[h].Awaiting?)
  {
    if (step.CheckFlag? || step.PushBack? || step.Notify?) && step.c < |s.calls| { CallWakes(s, step, step.c, h); }
  }

  /** It asks for the next job again exactly when its frame could not be built or its worker has answered. */
  lemma ReadyAgainIff(s: State, step: Step, h: nat)
    requires h < |s.handlers| && !s.handlers[h].Ready?
    ensures h < |Next(s, step).handlers|
    ensures Next(s, step).handlers[h].Ready? <==>
            || (step == FrameFails(h) && s.handlers[h].Building?)
            || (step.Complete? && step.h == h && s.handlers[h].Awaiting?)
  {
    if (step.CheckFlag? || step.PushBack? || step.Notify?) && step.c < |s.calls| { CallWakes(s, step, step.c, h); }
  }

  /** And it wakes exactly when it is notified, when everyone is, or for no reason at all. */
  lemma WokenIff(s: State, step: Step, h: nat)
    requires h < |s.handlers| && s.handlers[h].Parked?
    ensures h < |Next(s, step).handlers|
    ensures Next(s, step).handlers[h].Woken? <==>
            || (step.Notify? && step.h == h && step.c < |s.calls| && s.calls[step.c].Owing?)
            || (step.NotifyAll? && s.shutdown) || step == WakeSpuriously(h)
    ensures !Next(s, step).handlers[h].Woken? ==> Next(s, step).handlers[h].Parked?
  {
    if (step.CheckFlag? || step.PushBack? || step.Notify?) && step.c < |s.calls| { CallWakes(s, step, step.c, h); }
  }

  lemma Extend(before: seq<Step>, step: Step)
    ensures Run(before + [step]) == Next(Run(before), step)
  {
    var all := before + [step];
    assert all[..|all| - 1] == before && all[|all| - 1] == step;
  }

  lemma RaceBegins(job: Job) returns (steps: seq<Step>)
    requires job.numReturns > 0
    ensures var s := Run(steps);
            s.queue == [] && s.calls == [Checked(job)] && s.handlers == [Ready] && !s.shutdown
  {
    Extend([], Connect);
    assert [] + [Connect] == [Connect] && START.handlers + [Ready] == [Ready];
    Extend([Connect], SubmitTask(job));
    assert START.calls + [Holding(job)] == [Holding(job)];
    steps := [Connect] + [SubmitTask(job)];
    Extend(steps, CheckFlag(0));
    assert [Holding(job)][0 := Checked(job)] == [Checked(job)];
    steps := steps + [CheckFlag(0)];
  }

  lemma RaceStops(job: Job) returns (steps: seq<Step>)
    requires job.numReturns > 0
    ensures var s := Run(steps);
            s.queue == [] && s.calls == [Checked(job)] && s.handlers == [Stopped] && s.notifiedAll
  {
    steps := RaceBegins(job);
    Extend(steps, SetFlag);
    steps := steps + [SetFlag];
    Extend(steps, NotifyAll);
    assert WakeAll([Ready]) == [Ready];
    steps := steps + [NotifyAll];
    Extend(steps, NextJob(0));
    assert [Ready][0 := Stopped] == [Stopped];
    steps := steps + [NextJob(0)];
  }

  /** Queued jobs are not always drained: a submitter that passed the flag check before shutdown may
      push after the only handler has stopped, and nobody is left to take the job. */
  lemma SubmitRacingShutdownIsStranded(job: Job) returns (steps: seq<Step>)
    requires job.numReturns > 0
    ensures var s := Run(steps);
            s.notifiedAll && s.queue == [job] && s.handlers == [Stopped] && s.calls == [Over]
  {
    steps := RaceStops(job);
    Extend(steps, PushBack(0));
    assert [Checked(job)][0 := Owing] == [Owing] && [] + [job] == [job];
    steps := steps + [PushBack(0)];
    Extend(steps, Notify(0, 0));
    CountZero([Stopped], IsParked);
    assert [Owing][0 := Over] == [Over];
    steps := steps + [Notify(0, 0)];
  }

  // ---------- Order and conservation of jobs ----------

  /** What a step appends to the queue, takes from its front, and puts back there. */
  function Appended(s: State, step: Step): seq<Job> {
    if step.PushBack? && step.c < |s.calls| && s.calls[step.c].Checked? then [s.calls[step.c].job] else []
  }

  function Taken(s: State, step: Step): seq<Job> {
    if step.NextJob? && step.h < |s.handlers| && (s.handlers[step.h].Ready? || s.handlers[step.h].Woken?) &&
        s.queue != []
    then [s.queue[0]] else []
  }

  function PutBack(s: State, step: Step): seq<Job> {
    if step.SendFails? && step.h < |s.handlers| && s.handlers[step.h].Building? then [s.handlers[step.h].job] else []
  }

  function AllAppended(steps: seq<Step>): seq<Job> {
    if steps == [] then []
    else AllAppended(steps[..|steps| - 1]) + Appended(Run(steps[..|steps| - 1]), steps[|steps| - 1])
  }

  function AllTaken(steps: seq<Step>): seq<Job> {
    if steps == [] then []
    else AllTaken(steps[..|steps| - 1]) + Taken(Run(steps[..|steps| - 1]), steps[|steps| - 1])
  }

  function AllPutBack(steps: seq<Step>): seq<Job> {
    if steps == [] then []
    else AllPutBack(steps[..|steps| - 1]) + PutBack(Run(steps[..|steps| - 1]), steps[|steps| - 1])
  }

  lemma CallQueue(s: State, step: Step, c: nat)
    requires c < |s.calls| && (step.PushBack? ==> step.c == c)
    ensures CallStep(s, step, c).queue == s.queue + Appended(s, step)
  {
  }

  lemma HandlerQueue(s: State, step: Step, h: nat)
    requires h < |s.handlers| && (step.NextJob? || step.SendFails? ==> step.h == h)
    ensures Taken(s, step) + HandlerStep(s, step, h).queue == PutBack(s, step) + s.queue
  {
    if step.NextJob? && s.queue != [] { assert [s.queue[0]] + s.queue[1..] == s.queue; }
  }

  lemma QueueStep(s: State, step: Step)
    ensures Taken(s, step) + Next(s, step).queue == PutBack(s, step) + s.queue + Appended(s, step)
  {
    match step
    case SubmitTask(_) =>
    case Resubmit(_) =>
    case Connect =>
    case SetFlag =>
    case NotifyAll =>
    case CheckFlag(c) => if c < |s.calls| { CallQueue(s, step, c); }
    case PushBack(c) => if c < |s.calls| { CallQueue(s, step, c); }
    case Notify(c, _) => if c < |s.calls| { CallQueue(s, step, c); }
    case _ => if step.h < |s.handlers| { HandlerQueue(s, step, step.h); }
  }

  lemma MultisetStep(taken: seq<Job>, put: seq<Job>, added: seq<Job>, q: seq<Job>, t: seq<Job>, p: seq<Job>,
      a: seq<Job>, q': seq<Job>)
    requires t + q' == p + q + a
    requires multiset(taken) + multiset(q) == multiset(added) + multiset(put)
    ensures multiset(taken + t) + multiset(q') == multiset(added + a) + multiset(put + p)
  {
    assert multiset(t) + multiset(q') == multiset(t + q');
    assert multiset(p + q + a) == multiset(p) + multiset(q) + multiset(a);
    calc {
      multiset(taken + t) + multiset(q');
      multiset(taken) + (multiset(t) + multiset(q'));
      (multiset(taken) + multiset(q)) + multiset(p) + multiset(a);
      multiset(added + a) + multiset(put + p);
    }
  }

  lemma OrderStep(taken: seq<Job>, added: seq<Job>, q: seq<Job>, t: seq<Job>, a: seq<Job>, q': seq<Job>)
    requires t + q' == q + a && taken + q == added
    ensures (taken + t) + q' == added + a
  {
    assert (taken + t) + q' == taken + (t + q') && taken + (q + a) == (taken + q) + a;
  }

  /** In every run no job is dropped from the queue or duplicated in it. */
  lemma {:induction false} JobsConserved(steps: seq<Step>)
    ensures multiset(AllTaken(steps)) + multiset(Run(steps).queue) ==
            multiset(AllAppended(steps)) + multiset(AllPutBack(steps))
  {
    if steps == [] {
    } else {
      var before, step := steps[..|steps| - 1], steps[|steps| - 1];
      var s := Run(before);
      JobsConserved(before);
      QueueStep(s, step);
      MultisetStep(AllTaken(before), AllPutBack(before), AllAppended(before), s.queue,
                   Taken(s, step), PutBack(s, step), Appended(s, step), Run(steps).queue);
    }
  }

  /** While no send has failed, jobs are taken in the order in which they were pushed. */
  lemma {:induction false} FirstInFirstOut(steps: seq<Step>)
    requires AllPutBack(steps) == []
    ensures AllTaken(steps) + Run(steps).queue == AllAppended(steps)
  {
    if steps == [] {
    } else {
      var before, step := steps[..|steps| - 1], steps[|steps| - 1];
      var s := Run(before);
      FirstInFirstOut(before);
      QueueStep(s, step);
      assert PutBack(s, step) + s.queue == s.queue;
      OrderStep(AllTaken(before), AllAppended(before), s.queue, Taken(s, step), Appended(s, step), Run(steps).queue);
    }
  }

  // ---------- Jobs left behind by a shutdown ----------

  /** The step tells a handler to stop. */
  predicate IsStop(s: State, step: Step) {
    && step.NextJob? && step.h < |s.handlers| && (s.handlers[step.h].Ready? || s.handlers[step.h].Woken?)
    && s.shutdown && s.queue == []
  }

  /** What has been pushed, put back and taken since a handler was last told to stop. */
  function PushedSinceStop(steps: seq<Step>): seq<Job> {
    if steps == [] then []
    else
      var before, last := steps[..|steps| - 1], steps[|steps| - 1];
      if IsStop(Run(before), last) then [] else PushedSinceStop(before) + Appended(Run(before), last)
  }

  function PutBackSinceStop(steps: seq<Step>): seq<Job> {
    if steps == [] then []
    else
      var before, last := steps[..|steps| - 1], steps[|steps| - 1];
      if IsStop(Run(before), last) then [] else PutBackSinceStop(before) + PutBack(Run(before), last)
  }

  function TakenSinceStop(steps: seq<Step>): seq<Job> {
    if steps == [] then []
    else
      var before, last := steps[..|steps| - 1], steps[|steps| - 1];
      if IsStop(Run(before), last) then [] else TakenSinceStop(before) + Taken(Run(before), last)
  }

  predicate AllStopped(s: State) { s.handlers != [] && forall h :: 0 <= h < |s.handlers| ==> s.handlers[h].Stopped? }

  lemma StoppedBefore(s: State, step: Step)
    requires AllStopped(Next(s, step)) && !IsStop(s, step)
    ensures AllStopped(s)
  {
    HandlersStay(s, step);
    forall h | 0 <= h < |s.handlers| ensures s.handlers[h].Stopped? {
      if !s.handlers[h].Stopped? { StopsOnlyWhenDrained(s, step, h); }
    }
  }

  lemma HandlersStay(s: State, step: Step)
    ensures |Next(s, step).handlers| == |s.handlers| + One(step.Connect?)
    ensures step.Connect? ==> Next(s, step).handlers[|s.handlers|] == Ready
  {
  }

  lemma LateStep(s: State, step: Step)
    requires AllStopped(Next(s, step))
    ensures IsStop(s, step) ==> Next(s, step).queue == []
    ensures !IsStop(s, step) ==> AllStopped(s) && Next(s, step).queue == s.queue + Appended(s, step)
  {
    if !IsStop(s, step) {
      StoppedBefore(s, step);
      QueueStep(s, step);
      NobodyTakes(s, step);
    }
  }

  lemma {:induction false} StrandedInOrder(steps: seq<Step>)
    requires AllStopped(Run(steps))
    ensures Run(steps).queue == PushedSinceStop(steps)
  {
    var before, last := steps[..|steps| - 1], steps[|steps| - 1];
    LateStep(Run(before), last);
    if !IsStop(Run(before), last) { StrandedInOrder(before); }
  }

  lemma StopEmpties(s: State, step: Step)
    requires IsStop(s, step)
    ensures Next(s, step).queue == []
  {
  }

  lemma {:induction false} BalanceSinceStop(steps: seq<Step>)
    requires CountIf(Run(steps).handlers, IsStopped) > 0
    ensures multiset(TakenSinceStop(steps)) + multiset(Run(steps).queue) ==
            multiset(PushedSinceStop(steps)) + multiset(PutBackSinceStop(steps))
  {
    var before, last := steps[..|steps| - 1], steps[|steps| - 1];
    var s := Run(before);
    if IsStop(s, last) {
      StopEmpties(s, last);
    } else {
      if CountIf(s.handlers, IsStopped) == 0 { StopsCounted(s, last); }
      BalanceSinceStop(before);
      QueueStep(s, last);
      MultisetStep(TakenSinceStop(before), PutBackSinceStop(before), PushedSinceStop(before), s.queue,
                   Taken(s, last), PutBack(s, last), Appended(s, last), Run(steps).queue);
    }
  }

  /** Whenever some handler has been told to stop, and however many workers were lost: what is queued is
      what was pushed or put back since the last stop and not taken since. If nobody but stopped handlers
      is left, it is what was pushed since, in that order. */
  lemma {:induction false} StrandedArePushedLate(steps: seq<Step>)
    requires exists h :: 0 <= h < |Run(steps).handlers| && Run(steps).handlers[h].Stopped?
    ensures multiset(TakenSinceStop(steps)) + multiset(Run(steps).queue) ==
            multiset(PushedSinceStop(steps)) + multiset(PutBackSinceStop(steps))
    ensures AllStopped(Run(steps)) ==> Run(steps).queue == PushedSinceStop(steps)
  {
    var h: nat :| h < |Run(steps).handlers| && Run(steps).handlers[h].Stopped?;
    CountPositive(Run(steps).handlers, h, IsStopped);
    BalanceSinceStop(steps);
    if AllStopped(Run(steps)) { StrandedInOrder(steps); }
  }

  lemma NobodyTakes(s: State, step: Step)
    requires AllStopped(s)
    ensures Taken(s, step) == [] && PutBack(s, step) == []
  {
  }

  /** No job waits beside a handler that has been told to stop. */
  predicate Settled(s: State) { CountIf(s.handlers, IsStopped) > 0 ==> s.queue == [] }

  predicate NoneChecked(s: State) { forall c :: 0 <= c < |s.calls| ==> !s.calls[c].Checked? }

  function RunOn(s: State, steps: seq<Step>): State {
    if steps == [] then s else Next(RunOn(s, steps[..|steps| - 1]), steps[|steps| - 1])
  }

  predicate NoSendFails(steps: seq<Step>) { forall i :: 0 <= i < |steps| ==> !steps[i].SendFails? }

  lemma QuietStep(s: State, step: Step)
    requires s.shutdown && NoneChecked(s) && !step.SendFails?
    ensures Next(s, step).shutdown && NoneChecked(Next(s, step))
  {
  }

  lemma StopsCounted(s: State, step: Step)
    requires CountIf(s.handlers, IsStopped) == 0 < CountIf(Next(s, step).handlers, IsStopped)
    ensures IsStop(s, step) && Next(s, step).queue == []
  {
    var h := SomeoneCounted(Next(s, step).handlers, IsStopped);
    HandlersStay(s, step);
    if h < |s.handlers| {
      if s.handlers[h].Stopped? { CountPositive(s.handlers, h, IsStopped); } else { StopsOnlyWhenDrained(s, step, h); }
    }
  }

  lemma {:induction false} SomeoneCounted<T>(s: seq<T>, f: T -> bool) returns (i: nat)
    requires CountIf(s, f) > 0
    ensures i < |s| && f(s[i])
  {
    if f(s[0]) {
      i := 0;
    } else {
      i := SomeoneCounted(s[1..], f);
      i := i + 1;
    }
  }

  lemma SettledStep(s: State, step: Step)
    requires s.shutdown && NoneChecked(s) && Settled(s) && !step.SendFails?
    ensures Settled(Next(s, step))
  {
    if CountIf(Next(s, step).handlers, IsStopped) > 0 {
      if CountIf(s.handlers, IsStopped) == 0 {
        StopsCounted(s, step);
      } else {
        QueueStep(s, step);
        assert PutBack(s, step) == [] && Appended(s, step) == [];
      }
    }
  }

  lemma {:induction false} QuietRun(s: State, more: seq<Step>)
    requires s.shutdown && NoneChecked(s) && Settled(s) && NoSendFails(more)
    ensures RunOn(s, more).shutdown && NoneChecked(RunOn(s, more)) && Settled(RunOn(s, more))
  {
    if more == [] {
    } else {
      QuietRun(s, more[..|more| - 1]);
      QuietStep(RunOn(s, more[..|more| - 1]), more[|more| - 1]);
      SettledStep(RunOn(s, more[..|more| - 1]), more[|more| - 1]);
    }
  }

  lemma Snoc(s: State, more: seq<Step>, step: Step)
    ensures RunOn(s, more + [step]) == Next(RunOn(s, more), step)
  {
    var all := more + [step];
    assert all[..|all| - 1] == more && all[|all| - 1] == step;
  }

  lemma {:induction false} Prepend(s: State, step: Step, rest: seq<Step>)
    ensures RunOn(s, [step] + rest) == RunOn(Next(s, step), rest)
    decreases |rest|
  {
    if rest == [] {
      Snoc(s, [], step);
      assert [step] + rest == [] + [step];
    } else {
      var init, last := rest[..|rest| - 1], rest[|rest| - 1];
      Prepend(s, step, init);
      Snoc(s, [step] + init, last);
      assert [step] + rest == ([step] + init) + [last];
    }
  }

  /** What a handler does next on its way to being told to stop, and how far it is from asking. */
  function TowardsStop(handler: Handler, h: nat): Step {
    match handler
    case Parked => NotifyAll
    case Building(_) => SendOk(h)
    case Awaiting(_) => Complete(h, false)
    case _ => NextJob(h)
  }

  function Distance(handler: Handler): nat {
    match handler
    case Building(_) => 3
    case Awaiting(_) => 2
    case Parked => 2
    case Stopped => 0
    case _ => 1
  }

  /** The others that hold a job they have not sent still do. */
  predicate BuildingStays(s: State, s': State, h: nat) {
    |s'.handlers| == |s.handlers| &&
    forall i :: 0 <= i < |s.handlers| && i != h && s.handlers[i].Building? ==> s'.handlers[i] == s.handlers[i]
  }

  lemma Closer(s: State, h: nat)
    requires s.shutdown && h < |s.handlers| && !s.handlers[h].Gone? && !s.handlers[h].Stopped?
    ensures var step := TowardsStop(s.handlers[h], h);
            var s' := Next(s, step);
            && !step.SendFails? && s'.shutdown && s'.calls == s.calls && |s'.handlers| == |s.handlers|
            && !s'.handlers[h].Gone? && BuildingStays(s, s', h)
            && (|s'.queue| < |s.queue| || (|s'.queue| == |s.queue| &&
                Distance(s'.handlers[h]) < Distance(s.handlers[h])))
  {
  }

  /** Left to itself after the flag is set, a live handler works off the queue and stops. */
  lemma {:induction false} DriveToStop(s: State, h: nat) returns (more: seq<Step>)
    requires s.shutdown && h < |s.handlers| && !s.handlers[h].Gone?
    ensures NoSendFails(more)
    ensures var s' := RunOn(s, more);
            s'.shutdown && s'.calls == s.calls && BuildingStays(s, s', h) && s'.handlers[h].Stopped?
    decreases |s.queue|, Distance(s.handlers[h])
  {
    if s.handlers[h].Stopped? {
      more := [];
    } else {
      var step := TowardsStop(s.handlers[h], h);
      Closer(s, h);
      var rest := DriveToStop(Next(s, step), h);
      Prepend(s, step, rest);
      more := [step] + rest;
    }
  }

  /** A submitter past its check strands its job beside any handler that is alive. */
  lemma CheckedStrands(s: State, c: nat, h: nat) returns (more: seq<Step>)
    requires s.shutdown && h < |s.handlers| && !s.handlers[h].Gone? && c < |s.calls| && s.calls[c].Checked?
    ensures NoSendFails(more) && !Settled(RunOn(s, more))
  {
    var drive := DriveToStop(s, h);
    CountPositive(RunOn(s, drive).handlers, h, IsStopped);
    Snoc(s, drive, PushBack(c));
    more := drive + [PushBack(c)];
  }

  /** With the flag set and some handler alive: no continuation without a failed send ever leaves a job
      beside a stopped handler exactly when no submitter is past its flag check now. */
  lemma {:induction false} NoSubmitterStrandsIff(s: State, h: nat)
    requires s.shutdown && Settled(s) && h < |s.handlers| && !s.handlers[h].Gone?
    ensures (forall more :: NoSendFails(more) ==> Settled(RunOn(s, more))) <==> NoneChecked(s)
  {
    if NoneChecked(s) {
      forall more | NoSendFails(more) ensures Settled(RunOn(s, more)) { QuietRun(s, more); }
    } else {
      var c :| 0 <= c < |s.calls| && s.calls[c].Checked?;
      var more := CheckedStrands(s, c, h);
      assert NoSendFails(more) && !Settled(RunOn(s, more));
    }
  }

  // ---------- With failed sends ----------

  /** After the flag: nobody is past the check, nothing is queued, and nobody has a job yet to send. */
  predicate Drained(s: State) {
    && s.shutdown && s.queue == [] && NoneChecked(s)
    && forall h :: 0 <= h < |s.handlers| ==> !s.handlers[h].Building?
  }

  lemma DrainedCall(s: State, step: Step, c: nat)
    requires Drained(s) && c < |s.calls|
    ensures Drained(CallStep(s, step, c))
  {
  }

  lemma DrainedHandler(s: State, step: Step, h: nat)
    requires Drained(s) && h < |s.handlers|
    ensures Drained(HandlerStep(s, step, h))
  {
  }

  lemma DrainedStep(s: State, step: Step)
    requires Drained(s)
    ensures Drained(Next(s, step))
  {
    match step
    case SubmitTask(_) =>
    case Resubmit(_) =>
    case Connect =>
    case SetFlag =>
    case NotifyAll =>
    case CheckFlag(c) => if c < |s.calls| { DrainedCall(s, step, c); }
    case PushBack(c) => if c < |s.calls| { DrainedCall(s, step, c); }
    case Notify(c, _) => if c < |s.calls| { DrainedCall(s, step, c); }
    case _ => if step.h < |s.handlers| { DrainedHandler(s, step, step.h); }
  }

  lemma {:induction false} DrainedRun(s: State, more: seq<Step>)
    requires Drained(s)
    ensures Drained(RunOn(s, more))
  {
    if more == [] {
    } else {
      DrainedRun(s, more[..|more| - 1]);
      DrainedStep(RunOn(s, more[..|more| - 1]), more[|more| - 1]);
    }
  }

  lemma SendFailsPutsBack(s: State, h: nat, k: nat)
    requires h < |s.handlers| && s.handlers[h].Building? && k < |s.handlers| && s.handlers[k].Stopped?
    ensures !Settled(Next(s, SendFails(h)))
  {
    CountPositive(Next(s, SendFails(h)).handlers, k, IsStopped);
  }

  /** One that has a job yet to send strands it by failing to, once another handler has stopped. */
  lemma BuildingStrands(s: State, h: nat) returns (more: seq<Step>)
    requires s.shutdown && h < |s.handlers| && s.handlers[h].Building?
    ensures !Settled(RunOn(s, more))
  {
    var s1, k := Next(s, Connect), |s.handlers|;
    var drive := DriveToStop(s1, k);
    var s2 := RunOn(s1, drive);
    assert s1.handlers[h].Building?;
    SendFailsPutsBack(s2, h, k);
    Snoc(s1, drive, SendFails(h));
    Prepend(s, Connect, drive + [SendFails(h)]);
    more := [Connect] + (drive + [SendFails(h)]);
  }

  /** A queued job is taken by a new handler, and stranded by that one. */
  lemma QueuedStrands(s: State) returns (more: seq<Step>)
    requires s.shutdown && s.queue != []
    ensures !Settled(RunOn(s, more))
  {
    var s1, k := Next(s, Connect), |s.handlers|;
    var rest := BuildingStrands(Next(s1, NextJob(k)), k);
    Prepend(s1, NextJob(k), rest);
    Prepend(s, Connect, [NextJob(k)] + rest);
    more := [Connect] + ([NextJob(k)] + rest);
  }

  lemma CheckedAlsoStrands(s: State, c: nat) returns (more: seq<Step>)
    requires s.shutdown && c < |s.calls| && s.calls[c].Checked?
    ensures !Settled(RunOn(s, more))
  {
    var rest := CheckedStrands(Next(s, Connect), c, |s.handlers|);
    Prepend(s, Connect, rest);
    more := [Connect] + rest;
  }

  /** Before the flag is set, a new submission can always get past the check. */
  lemma EarlyStrands(s: State, job: Job) returns (more: seq<Step>)
    requires !s.shutdown && job.task !in s.minted && job.numReturns > 0
    ensures !Settled(RunOn(s, more))
  {
    var c := |s.calls|;
    var s1 := Next(s, SubmitTask(job));
    var s2 := Next(s1, CheckFlag(c));
    var rest := CheckedAlsoStrands(Next(s2, SetFlag), c);
    Prepend(s2, SetFlag, rest);
    Prepend(s1, CheckFlag(c), [SetFlag] + rest);
    Prepend(s, SubmitTask(job), [CheckFlag(c)] + ([SetFlag] + rest));
    more := [SubmitTask(job)] + ([CheckFlag(c)] + ([SetFlag] + rest));
  }

  /** From any state: no continuation ever leaves a job beside a stopped handler exactly when the flag is
      set, no submitter is past its check, the queue is empty, and no handler has a job yet to send. */
  lemma {:induction false} NothingStrandedIff(s: State, job: Job)
    requires s.shutdown || (job.task !in s.minted && job.numReturns > 0)
    ensures (forall more :: Settled(RunOn(s, more))) <==> Drained(s)
  {
    if Drained(s) {
      forall more ensures Settled(RunOn(s, more)) { DrainedRun(s, more); }
    } else {
      var more;
      if !s.shutdown {
        more := EarlyStrands(s, job);
      } else if s.queue != [] {
        more := QueuedStrands(s);
      } else if !NoneChecked(s) {
        var c: nat :| c < |s.calls| && s.calls[c].Checked?;
        more := CheckedAlsoStrands(s, c);
      } else {
        var h: nat :| h < |s.handlers| && s.handlers[h].Building?;
        more := BuildingStrands(s, h);
      }
      assert !Settled(RunOn(s, more));
    }
  }

  // ---------- The queue itself ----------

  /** What a handler holding the queue lock is told: a job, to stop, or to wait. */
  datatype Turn = Take(job: Job) | Stop | Wait

  class WorkQueue {
    var queue: seq<Job>
    var shutdown: bool

    constructor ()
      ensures queue == [] && !shutdown
    {
      queue := [];
      shutdown := false;
    }

    ghost predicate Shows(s: State)
      reads this
    {
      queue == s.queue && shutdown == s.shutdown
    }

    /** A submission, uninterrupted: the flag check and the push of the call that holds the job. */
    method Submit(job: Job, ghost s: State, ghost c: nat) returns (accepted: bool)
      requires Shows(s) && c < |s.calls| && s.calls[c] == Holding(job)
      modifies this`queue
      ensures Shows(Next(Next(s, CheckFlag(c)), PushBack(c)))
      ensures Next(Next(s, CheckFlag(c)), PushBack(c)).calls == s.calls[c := if accepted then Owing else Over]
    {
      if shutdown { return false; }
      queue := queue + [job];
      return true;
    }

    /** One pass of the handler's wait loop, under the lock. */
    method Poll(ghost s: State, ghost h: nat) returns (turn: Turn)
      requires Shows(s) && h < |s.handlers|
      modifies this`queue
      ensures Shows(TakeLock(s, h))
      ensures TakeLock(s, h).handlers[h] ==
              match turn case Take(job) => Building(job) case Stop => Stopped case Wait => Parked
    {
      if queue != [] {
        turn := Take(queue[0]);
        queue := queue[1..];
        return;
      }
      if shutdown { return Stop; }
      return Wait;
    }

    /** A job whose frame could not be sent goes back to the front. */
    method Requeue(ghost s: State, ghost h: nat, job: Job)
      requires Shows(s) && h < |s.handlers| && s.handlers[h] == Building(job)
      modifies this`queue
      ensures Shows(Next(s, SendFails(h)))
    {
      queue := [job] + queue;
    }

    method BeginShutdown(ghost s: State)
      requires Shows(s)
      modifies this`shutdown
      ensures Shows(Next(s, SetFlag))
    {
      shutdown := true;
    }
  }
}
