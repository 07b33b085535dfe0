/** One outstanding attempt per task: wherever a job may be (with a submitter, queued, with a
    handler), the lineage records and the dispatcher together never let a second one exist. */
module Attempts {
  import opened Bytes
  import opened TaskManager
  import opened Dispatch

  function CallFor(t: TaskId): Call -> bool { (c: Call) => (c.Holding? || c.Checked?) && c.job.task == t }
  function JobFor(t: TaskId): Job -> bool { (j: Job) => j.task == t }
  function HandlerFor(t: TaskId): Handler -> bool { (h: Handler) => (h.Building? || h.Awaiting?) && h.job.task == t }

  /** The attempts at `t` that somebody still has in hand. */
  function Outstanding(s: State, t: TaskId): nat {
    CountIf(s.calls, CallFor(t)) + CountIf(s.queue, JobFor(t)) + CountIf(s.handlers, HandlerFor(t))
  }

  function First(t: TaskId): OutputId { OutputId(t, 0) }

  // ---------- Records ----------

  /** Every record is filed under its own task's outputs. */
  ghost predicate Keyed(m: Records) {
    forall oid :: oid in m ==> m[oid].job.task == oid.task
  }

  /** All outputs of `t` carry one and the same record, and the budget accounts for every attempt. */
  ghost predicate Lockstep(m: Records, minted: map<TaskId, nat>, t: TaskId) {
    && (First(t) in m <==> t in minted)
    && (First(t) in m ==>
        && m[First(t)].job.task == t && m[First(t)].job.numReturns > 0
        && minted[t] + m[First(t)].retriesRemaining == 1 + DEFAULT_MAX_RETRIES)
    && (forall oid :: oid in m && oid.task == t ==> First(t) in m && m[oid] == m[First(t)])
    && (forall oid :: First(t) in m && IsOutput(m[First(t)].job, oid) ==> oid in m)
  }

  lemma OutputsExactly(job: Job, oid: OutputId)
    ensures oid in Outputs(job) <==> IsOutput(job, oid)
  {
    if IsOutput(job, oid) { assert Outputs(job)[oid.index] == oid; }
  }

  /** Only a submission, a resubmission and an ingested completion touch the records. */
  lemma RecordsFrame(s: State, step: Step)
    requires !step.SubmitTask? && !step.Resubmit? && !step.Complete?
    ensures Next(s, step).records == s.records && Next(s, step).minted == s.minted
  {
    if (step.CheckFlag? || step.PushBack? || step.Notify?) && step.c < |s.calls| { CallRecordsFrame(s, step, step.c); }
    if step.NextJob? && step.h < |s.handlers| { TakeRecordsFrame(s, step.h); }
  }

  lemma TakeRecordsFrame(s: State, h: nat)
    requires h < |s.handlers|
    ensures TakeLock(s, h).records == s.records && TakeLock(s, h).minted == s.minted
  {
  }

  lemma CallRecordsFrame(s: State, step: Step, c: nat)
    requires c < |s.calls|
    ensures CallStep(s, step, c).records == s.records && CallStep(s, step, c).minted == s.minted
  {
  }

  lemma {:induction false} KeyedStep(s: State, step: Step)
    requires Keyed(s.records)
    ensures Keyed(Next(s, step).records)
  {
    match step
    case SubmitTask(job) =>
      forall oid ensures oid in Outputs(job) <==> IsOutput(job, oid) { OutputsExactly(job, oid); }
    case Resubmit(_) =>
    case Complete(_, _) =>
    case _ => RecordsFrame(s, step);
  }

  lemma LockstepSubmit(s: State, job: Job, t: TaskId)
    requires Keyed(s.records) && Lockstep(s.records, s.minted, t)
    ensures var s' := Next(s, SubmitTask(job)); Lockstep(s'.records, s'.minted, t)
  {
    forall oid ensures oid in Outputs(job) <==> IsOutput(job, oid) { OutputsExactly(job, oid); }
  }

  lemma LockstepResubmit(s: State, k: OutputId, t: TaskId)
    requires Keyed(s.records) && Lockstep(s.records, s.minted, t)
    ensures var s' := Next(s, Resubmit(k)); Lockstep(s'.records, s'.minted, t)
  {
  }

  lemma LockstepComplete(s: State, h: nat, ingested: bool, t: TaskId)
    requires Keyed(s.records) && Lockstep(s.records, s.minted, t) && h < |s.handlers|
    ensures var s' := HandlerStep(s, Complete(h, ingested), h); Lockstep(s'.records, s'.minted, t)
  {
  }

  lemma LockstepStep(s: State, step: Step, t: TaskId)
    requires Keyed(s.records) && Lockstep(s.records, s.minted, t)
    ensures Lockstep(Next(s, step).records, Next(s, step).minted, t)
  {
    match step
    case SubmitTask(job) => LockstepSubmit(s, job, t);
    case Resubmit(k) => LockstepResubmit(s, k, t);
    case Complete(h, ingested) => if h < |s.handlers| { LockstepComplete(s, h, ingested, t); }
    case _ => RecordsFrame(s, step);
  }

  // ---------- Counting attempts ----------

  ghost predicate Single(s: State, t: TaskId) {
    && Outstanding(s, t) <= 1
    && (First(t) !in s.records || s.records[First(t)].wasCompleted ==> Outstanding(s, t) == 0)
  }

  lemma MintAdds(s: State, job: Job, records: Records, t: TaskId)
    ensures Outstanding(Mint(s, job, records), t) == Outstanding(s, t) + One(job.task == t)
  {
    CountAppend(s.calls, Holding(job), CallFor(t));
  }

  lemma PushKeeps(s: State, c: nat, t: TaskId)
    requires c < |s.calls|
    ensures Outstanding(CallStep(s, PushBack(c), c), t) == Outstanding(s, t)
  {
    if s.calls[c].Checked? {
      CountUpdate(s.calls, c, Owing, CallFor(t));
      CountAppend(s.queue, s.calls[c].job, JobFor(t));
    }
  }

  lemma CheckDrops(s: State, c: nat, t: TaskId)
    requires c < |s.calls|
    ensures Outstanding(CallStep(s, CheckFlag(c), c), t) ==
            Outstanding(s, t) - One(s.calls[c].Holding? && s.shutdown && s.calls[c].job.task == t)
  {
    if s.calls[c].Holding? {
      CountUpdate(s.calls, c, if s.shutdown then Over else Checked(s.calls[c].job), CallFor(t));
    }
  }

  lemma HandlerSwap(s: State, h: nat, x: Handler, t: TaskId)
    requires h < |s.handlers|
    ensures Outstanding(s.(handlers := s.handlers[h := x]), t) ==
            Outstanding(s, t) + One(HandlerFor(t)(x)) - One(HandlerFor(t)(s.handlers[h]))
  {
    CountUpdate(s.handlers, h, x, HandlerFor(t));
  }

  lemma NotifyKeeps(s: State, c: nat, h: nat, t: TaskId)
    requires c < |s.calls|
    ensures Outstanding(CallStep(s, Notify(c, h), c), t) == Outstanding(s, t)
  {
    if s.calls[c].Owing? {
      CountUpdate(s.calls, c, Over, CallFor(t));
      if h < |s.handlers| && s.handlers[h].Parked? { HandlerSwap(s, h, Woken, t); }
    }
  }

  lemma TakeKeeps(s: State, h: nat, t: TaskId)
    requires h < |s.handlers| && (s.handlers[h].Ready? || s.handlers[h].Woken?)
    ensures Outstanding(TakeLock(s, h), t) == Outstanding(s, t)
  {
    CountUpdate(s.handlers, h, TakeLock(s, h).handlers[h], HandlerFor(t));
  }

  lemma RequeueKeeps(s: State, h: nat, t: TaskId)
    requires h < |s.handlers|
    ensures Outstanding(HandlerStep(s, SendFails(h), h), t) == Outstanding(s, t)
  {
    if s.handlers[h].Building? {
      CountUpdate(s.handlers, h, Gone, HandlerFor(t));
      CountAppend(s.calls, Owing, CallFor(t));
      assert ([s.handlers[h].job] + s.queue)[1..] == s.queue;
    }
  }

  /** The step hands an attempt at `t` to `submit`. */
  predicate Mints(s: State, step: Step, t: TaskId) {
    match step
    case SubmitTask(job) => job.task == t && job.task !in s.minted && job.numReturns > 0
    case Resubmit(oid) => CanResubmit(s.records, oid) && s.records[oid].job.task == t
    case _ => false
  }

  /** The step ends an attempt at `t` without completing it: a lost connection, a frame that cannot be
      built, a completion that cannot be ingested, a submission dropped after shutdown. */
  predicate Loses(s: State, step: Step, t: TaskId) {
    match step
    case Disconnect(h) => h < |s.handlers| && s.handlers[h].Awaiting? && s.handlers[h].job.task == t
    case FrameFails(h) => h < |s.handlers| && s.handlers[h].Building? && s.handlers[h].job.task == t
    case Complete(h, ingested) =>
      !ingested && h < |s.handlers| && s.handlers[h].Awaiting? && s.handlers[h].job.task == t
    case CheckFlag(c) => s.shutdown && c < |s.calls| && s.calls[c].Holding? && s.calls[c].job.task == t
    case _ => false
  }

  predicate Completes(s: State, step: Step, t: TaskId) {
    && step.Complete? && step.ingested && step.h < |s.handlers|
    && s.handlers[step.h].Awaiting? && s.handlers[step.h].job.task == t
  }

  predicate IsHandlerStep(step: Step) {
    || step.NextJob? || step.SendFails? || step.FrameFails? || step.SendOk? || step.Disconnect? || step.Complete?
    || step.WakeSpuriously?
  }

  lemma HandlerStepKeeps(s: State, step: Step, h: nat, t: TaskId)
    requires IsHandlerStep(step) && step.h == h < |s.handlers| && !step.NextJob? && !step.SendFails?
    ensures Outstanding(HandlerStep(s, step, h), t) ==
            Outstanding(s, t) - One(Loses(s, step, t) || Completes(s, step, t))
  {
    match step
    case FrameFails(_) => HandlerSwap(s, h, Ready, t);
    case SendOk(_) => if s.handlers[h].Building? { HandlerSwap(s, h, Awaiting(s.handlers[h].job), t); }
    case Disconnect(_) => HandlerSwap(s, h, Gone, t);
    case Complete(_, _) => HandlerSwap(s, h, Ready, t);
    case WakeSpuriously(_) => HandlerSwap(s, h, Woken, t);
  }

  lemma MintStepAdds(s: State, step: Step, t: TaskId)
    requires step.SubmitTask? || step.Resubmit?
    ensures Outstanding(Next(s, step), t) == Outstanding(s, t) + One(Mints(s, step, t))
  {
    match step
    case SubmitTask(job) => MintAdds(s, job, Record(s.records, Outputs(job), job), t);
    case Resubmit(oid) =>
      if CanResubmit(s.records, oid) {
        MintAdds(s, s.records[oid].job, SpendRetry(s.records, s.records[oid].job.task), t);
      }
  }

  /** How each step changes the number of outstanding attempts: only a submission adds one, and only a
      completion or a loss ends one. */
  lemma OutstandingAfter(s: State, step: Step, t: TaskId)
    ensures Outstanding(Next(s, step), t) ==
            Outstanding(s, t) + One(Mints(s, step, t)) - One(Loses(s, step, t) || Completes(s, step, t))
  {
    match step
    case SubmitTask(_) => MintStepAdds(s, step, t);
    case Resubmit(_) => MintStepAdds(s, step, t);
    case Connect => CountAppend(s.handlers, Ready, HandlerFor(t));
    case SetFlag =>
    case NotifyAll => SameHolders(s.handlers, WakeAll(s.handlers), t);
    case CheckFlag(c) => CallAfter(s, step, c, t);
    case PushBack(c) => CallAfter(s, step, c, t);
    case Notify(c, h) => CallAfter(s, step, c, t);
    case _ => HandlerAfter(s, step, step.h, t);
  }

  lemma CallAfter(s: State, step: Step, c: nat, t: TaskId)
    requires (step.CheckFlag? || step.PushBack? || step.Notify?) && step.c == c
    ensures Outstanding(Next(s, step), t) == Outstanding(s, t) - One(Loses(s, step, t))
  {
    if c < |s.calls| {
      match step
      case CheckFlag(_) => CheckDrops(s, c, t);
      case PushBack(_) => PushKeeps(s, c, t);
      case Notify(_, h) => NotifyKeeps(s, c, h, t);
    }
  }

  lemma HandlerAfter(s: State, step: Step, h: nat, t: TaskId)
    requires IsHandlerStep(step) && step.h == h
    ensures Outstanding(Next(s, step), t) == Outstanding(s, t) - One(Loses(s, step, t) || Completes(s, step, t))
  {
    if h < |s.handlers| {
      match step
      case NextJob(_) => if s.handlers[h].Ready? || s.handlers[h].Woken? { TakeKeeps(s, h, t); }
      case SendFails(_) => RequeueKeeps(s, h, t);
      case _ => HandlerStepKeeps(s, step, h, t);
    }
  }

  lemma {:induction false} SameHolders(hs: seq<Handler>, r: seq<Handler>, t: TaskId)
    requires |r| == |hs| && forall i :: 0 <= i < |hs| ==> HandlerFor(t)(r[i]) == HandlerFor(t)(hs[i])
    ensures CountIf(r, HandlerFor(t)) == CountIf(hs, HandlerFor(t))
  {
    if hs == [] {
    } else {
      SameHolders(hs[1..], r[1..], t);
    }
  }

  /** How each step changes what the first output's record says. */
  lemma RecordAfter(s: State, step: Step, t: TaskId)
    requires Keyed(s.records) && Lockstep(s.records, s.minted, t)
    ensures var m, m' := s.records, Next(s, step).records;
            && (First(t) in m' <==> First(t) in m || Mints(s, step, t))
            && (First(t) in m' ==> (m'[First(t)].wasCompleted <==>
                !Mints(s, step, t) && (m[First(t)].wasCompleted || Completes(s, step, t))))
  {
    match step
    case SubmitTask(job) => OutputsExactly(job, First(t));
    case Resubmit(k) =>
    case Complete(h, ingested) =>
    case _ => RecordsFrame(s, step);
  }

  /** An attempt is minted for a task without a record, or with one that says completed. */
  lemma MintsWhenNone(s: State, step: Step, t: TaskId)
    requires Keyed(s.records) && Lockstep(s.records, s.minted, t) && Mints(s, step, t)
    ensures First(t) !in s.records || s.records[First(t)].wasCompleted
  {
  }

  lemma SingleStep(s: State, step: Step, t: TaskId)
    requires Keyed(s.records) && Lockstep(s.records, s.minted, t) && Single(s, t)
    ensures Single(Next(s, step), t)
  {
    OutstandingAfter(s, step, t);
    RecordAfter(s, step, t);
    if Mints(s, step, t) { MintsWhenNone(s, step, t); }
  }

  // ---------- What is in flight is what was recorded ----------

  predicate Known(m: Records, job: Job) { First(job.task) in m && m[First(job.task)].job == job }

  predicate CallKnown(m: Records, c: Call) { c.Holding? || c.Checked? ==> Known(m, c.job) }
  predicate HandlerKnown(m: Records, h: Handler) { h.Building? || h.Awaiting? ==> Known(m, h.job) }

  ghost predicate AllKnown(s: State, m: Records) {
    && (forall c :: c in s.calls ==> CallKnown(m, c))
    && (forall j :: j in s.queue ==> Known(m, j))
    && (forall h :: h in s.handlers ==> HandlerKnown(m, h))
  }

  /** A record's job never changes: the outputs of a task that has one are not recorded again. */
  lemma KnownPersists(s: State, step: Step, job: Job)
    requires Known(s.records, job) && Lockstep(s.records, s.minted, job.task)
    ensures Known(Next(s, step).records, job)
  {
    match step
    case SubmitTask(j) => OutputsExactly(j, First(job.task));
    case Resubmit(_) =>
    case Complete(_, _) =>
    case _ => RecordsFrame(s, step);
  }

  lemma CallStepKnown(s: State, step: Step, c: nat, m: Records)
    requires c < |s.calls| && AllKnown(s, m)
    ensures AllKnown(CallStep(s, step, c), m)
  {
    assert CallKnown(m, s.calls[c]);
    match step
    case CheckFlag(_) =>
    case PushBack(_) =>
    case Notify(_, h) => if s.calls[c].Owing? { NotifyKnown(s, c, h, m); }
    case _ =>
  }

  lemma NotifyKnown(s: State, c: nat, h: nat, m: Records)
    requires c < |s.calls| && AllKnown(s, m)
    ensures AllKnown(DoNotify(s, c, h), m)
  {
  }

  lemma TakeLockKnown(s: State, h: nat, m: Records)
    requires h < |s.handlers| && AllKnown(s, m)
    ensures AllKnown(TakeLock(s, h), m)
  {
    assert s.queue != [] ==> Known(m, s.queue[0]);
  }

  lemma HandlerStepKnown(s: State, step: Step, h: nat, m: Records)
    requires h < |s.handlers| && AllKnown(s, m)
    ensures AllKnown(HandlerStep(s, step, h), m)
  {
    assert HandlerKnown(m, s.handlers[h]);
    TakeLockKnown(s, h, m);
  }

  /** With the next state's records, whatever was in flight is still known, and so is what is minted. */
  lemma StepKnown(s: State, step: Step)
    requires AllKnown(s, Next(s, step).records)
    requires step.Resubmit? && CanResubmit(s.records, step.oid) ==>
               Known(Next(s, step).records, s.records[step.oid].job)
    ensures AllKnown(Next(s, step), Next(s, step).records)
  {
    var m := Next(s, step).records;
    match step
    case SubmitTask(j) => OutputsExactly(j, First(j.task));
    case Resubmit(_) =>
    case Connect =>
    case SetFlag =>
    case NotifyAll => WakeAllKnown(s, m);
    case CheckFlag(c) => if c < |s.calls| { CallStepKnown(s, step, c, m); }
    case PushBack(c) => if c < |s.calls| { CallStepKnown(s, step, c, m); }
    case Notify(c, _) => if c < |s.calls| { CallStepKnown(s, step, c, m); }
    case _ => if step.h < |s.handlers| { HandlerStepKnown(s, step, step.h, m); }
  }

  lemma WakeAllKnown(s: State, m: Records)
    requires AllKnown(s, m)
    ensures forall h :: h in WakeAll(s.handlers) ==> HandlerKnown(m, h)
  {
  }

  // ---------- Whole runs ----------

  ghost predicate Inv(s: State) {
    && Keyed(s.records) && AllKnown(s, s.records)
    && forall t :: Lockstep(s.records, s.minted, t) && Single(s, t)
  }

  lemma KnownStep(s: State, step: Step)
    requires Inv(s)
    ensures AllKnown(Next(s, step), Next(s, step).records)
  {
    forall job | Known(s.records, job) ensures Known(Next(s, step).records, job) { KnownPersists(s, step, job); }
    if step.Resubmit? && step.oid in s.records {
      var job := s.records[step.oid].job;
      assert Lockstep(s.records, s.minted, job.task);
      assert Known(s.records, job);
    }
    StepKnown(s, step);
  }

  lemma InvStep(s: State, step: Step)
    requires Inv(s)
    ensures Inv(Next(s, step))
  {
    KeyedStep(s, step);
    KnownStep(s, step);
    forall t ensures Lockstep(Next(s, step).records, Next(s, step).minted, t) && Single(Next(s, step), t) {
      LockstepStep(s, step, t);
      SingleStep(s, step, t);
    }
  }

  lemma {:induction false} InvOverRuns(steps: seq<Step>)
    ensures Inv(Run(steps))
  {
    if steps == [] {
    } else {
      InvOverRuns(steps[..|steps| - 1]);
      InvStep(Run(steps[..|steps| - 1]), steps[|steps| - 1]);
    }
  }

  /** In every run, for every task: at most one attempt is outstanding, and none once its record says
      completed; it is handed to `submit` at most 1 + 3 times; all its outputs share one record; and
      an attempt is always the job first recorded. */
  lemma {:induction false} OneAttemptPerTask(steps: seq<Step>, t: TaskId)
    ensures var s := Run(steps);
            && Outstanding(s, t) <= 1
            && (forall oid :: oid in s.records && oid.task == t && s.records[oid].wasCompleted ==>
                Outstanding(s, t) == 0)
            && (t in s.minted ==> s.minted[t] <= 1 + DEFAULT_MAX_RETRIES)
            && (forall a, b :: a in s.records && b in s.records && a.task == t && b.task == t ==>
                 s.records[a] == s.records[b] && Status(s.records, a) == Status(s.records, b))
            && (forall h :: h in s.handlers && (h.Building? || h.Awaiting?) ==>
                First(h.job.task) in s.records && s.records[First(h.job.task)].job == h.job)
  {
    InvOverRuns(steps);
    assert Lockstep(Run(steps).records, Run(steps).minted, t) && Single(Run(steps), t);
  }

  // ---------- A lost attempt ----------

  /** Recorded, not completed, and nobody has the job any more. */
  predicate Lost(s: State, t: TaskId) {
    First(t) in s.records && !s.records[First(t)].wasCompleted && Outstanding(s, t) == 0
  }

  lemma LosesHasAttempt(s: State, step: Step, t: TaskId)
    requires Inv(s) && Loses(s, step, t)
    ensures First(t) in s.records && Outstanding(s, t) == 1
  {
    assert Single(s, t);
    if step.CheckFlag? {
      assert CallKnown(s.records, s.calls[step.c]);
      CountPositive(s.calls, step.c, CallFor(t));
    } else {
      assert HandlerKnown(s.records, s.handlers[step.h]);
      CountPositive(s.handlers, step.h, HandlerFor(t));
    }
  }

  lemma LostAfter(s: State, step: Step, t: TaskId)
    requires Inv(s)
    ensures Lost(Next(s, step), t) <==> Lost(s, t) || Loses(s, step, t)
  {
    assert Lockstep(s.records, s.minted, t) && Single(s, t);
    OutstandingAfter(s, step, t);
    RecordAfter(s, step, t);
    if Mints(s, step, t) { MintsWhenNone(s, step, t); }
    if Loses(s, step, t) { LosesHasAttempt(s, step, t); }
  }

  /** In every run, a step leaves a task lost exactly when the task was lost before or the step is one of
      four on its attempt: a worker disconnects mid-job, its frame cannot be built, its completion cannot
      be ingested, or its submitter finds the flag set. */
  lemma {:induction false} LostIff(steps: seq<Step>, step: Step, t: TaskId)
    ensures Lost(Run(steps + [step]), t) <==> Lost(Run(steps), t) || Loses(Run(steps), step, t)
  {
    InvOverRuns(steps);
    Extend(steps, step);
    LostAfter(Run(steps), step, t);
  }

  /** A worker that disconnects mid-job takes the only attempt with it. */
  lemma {:induction false} DisconnectLoses(steps: seq<Step>, h: nat)
    requires h < |Run(steps).handlers| && Run(steps).handlers[h].Awaiting?
    ensures Lost(Next(Run(steps), Disconnect(h)), Run(steps).handlers[h].job.task)
  {
    InvOverRuns(steps);
    LostAfter(Run(steps), Disconnect(h), Run(steps).handlers[h].job.task);
  }

  /** A lost task stays `NotYetCompleted` in every continuation, so it is never resubmitted and a
      `get` on any of its outputs waits for ever. */
  lemma {:induction false} LostIsForever(steps: seq<Step>, more: seq<Step>, t: TaskId)
    requires Lost(Run(steps), t)
    ensures Lost(Run(steps + more), t)
    ensures forall oid :: oid in Run(steps + more).records && oid.task == t ==>
              Status(Run(steps + more).records, oid) == NotYetCompleted
  {
    if more == [] {
      assert steps + more == steps;
    } else {
      var before := steps + more[..|more| - 1];
      LostIsForever(steps, more[..|more| - 1], t);
      assert steps + more == before + [more[|more| - 1]];
      Extend(before, more[|more| - 1]);
      InvOverRuns(before);
      LostAfter(Run(before), more[|more| - 1], t);
    }
    InvOverRuns(steps + more);
    assert Lockstep(Run(steps + more).records, Run(steps + more).minted, t);
  }

  // ---------- An attempt that is not lost can complete ----------

  predicate Completed(s: State, t: TaskId) { First(t) in s.records && s.records[First(t)].wasCompleted }

  /** A submitter has the attempt and has not checked the flag. */
  predicate HoldsAt(s: State, c: nat, t: TaskId) { c < |s.calls| && s.calls[c].Holding? && s.calls[c].job.task == t }

  ghost predicate StillHeld(s: State, t: TaskId) { exists c :: HoldsAt(s, c, t) }

  lemma AwaitingCompletes(s: State, h: nat)
    requires Inv(s) && h < |s.handlers| && s.handlers[h].Awaiting?
    ensures Completed(Next(s, Complete(h, true)), s.handlers[h].job.task)
  {
    assert HandlerKnown(s.records, s.handlers[h]);
  }

  ghost predicate CanComplete(s: State, t: TaskId) { exists more: seq<Step> :: Completed(RunOn(s, more), t) }

  lemma CompletesNow(s: State, t: TaskId)
    requires Completed(s, t)
    ensures CanComplete(s, t)
  {
    assert RunOn(s, []) == s;
    assert Completed(RunOn(s, []), t);
  }

  lemma CompletesAfter(s: State, step: Step, t: TaskId)
    requires CanComplete(Next(s, step), t)
    ensures CanComplete(s, t)
  {
    var rest: seq<Step> :| Completed(RunOn(Next(s, step), rest), t);
    Prepend(s, step, rest);
    assert Completed(RunOn(s, [step] + rest), t);
  }

  lemma AwaitingCanComplete(s: State, h: nat)
    requires Inv(s) && h < |s.handlers| && s.handlers[h].Awaiting?
    ensures CanComplete(s, s.handlers[h].job.task)
  {
    var t := s.handlers[h].job.task;
    AwaitingCompletes(s, h);
    CompletesNow(Next(s, Complete(h, true)), t);
    CompletesAfter(s, Complete(h, true), t);
  }

  lemma BuildingCanComplete(s: State, h: nat)
    requires Inv(s) && h < |s.handlers| && s.handlers[h].Building?
    ensures CanComplete(s, s.handlers[h].job.task)
  {
    InvStep(s, SendOk(h));
    AwaitingCanComplete(Next(s, SendOk(h)), h);
    CompletesAfter(s, SendOk(h), s.handlers[h].job.task);
  }

  /** A handler that is ready takes the front job, sends it, and sees it complete. */
  lemma TurnDoes(s: State, k: nat)
    requires k < |s.handlers| && s.handlers[k].Ready? && s.queue != []
    ensures var s1 := Next(s, NextJob(k));
            && s1.queue == s.queue[1..] && k < |s1.handlers| && s1.handlers[k] == Building(s.queue[0])
            && var s3 := Next(Next(s1, SendOk(k)), Complete(k, true));
               s3.queue == s.queue[1..] && k < |s3.handlers| && s3.handlers[k].Ready?
  {
  }

  lemma AfterTurn(s: State, k: nat, t: TaskId)
    requires CanComplete(Next(Next(Next(s, NextJob(k)), SendOk(k)), Complete(k, true)), t)
    ensures CanComplete(s, t)
  {
    CompletesAfter(Next(Next(s, NextJob(k)), SendOk(k)), Complete(k, true), t);
    CompletesAfter(Next(s, NextJob(k)), SendOk(k), t);
    CompletesAfter(s, NextJob(k), t);
  }

  lemma TurnKeeps(s: State, k: nat)
    requires Inv(s)
    ensures Inv(Next(Next(Next(s, NextJob(k)), SendOk(k)), Complete(k, true)))
  {
    InvStep(s, NextJob(k));
    InvStep(Next(s, NextJob(k)), SendOk(k));
    InvStep(Next(Next(s, NextJob(k)), SendOk(k)), Complete(k, true));
  }

  /** So it works its way to any job in the queue. */
  lemma {:induction false} ReadyReaches(s: State, i: nat, k: nat)
    requires Inv(s) && i < |s.queue| && k < |s.handlers| && s.handlers[k].Ready?
    ensures CanComplete(s, s.queue[i].task)
    decreases i
  {
    TurnDoes(s, k);
    if i == 0 {
      InvStep(s, NextJob(k));
      BuildingCanComplete(Next(s, NextJob(k)), k);
      CompletesAfter(s, NextJob(k), s.queue[0].task);
    } else {
      TurnKeeps(s, k);
      assert s.queue[1..][i - 1] == s.queue[i];
      ReadyReaches(Next(Next(Next(s, NextJob(k)), SendOk(k)), Complete(k, true)), i - 1, k);
      AfterTurn(s, k, s.queue[i].task);
    }
  }

  lemma QueuedCanComplete(s: State, i: nat)
    requires Inv(s) && i < |s.queue|
    ensures CanComplete(s, s.queue[i].task)
  {
    InvStep(s, Connect);
    ReadyReaches(Next(s, Connect), i, |s.handlers|);
    CompletesAfter(s, Connect, s.queue[i].task);
  }

  lemma CheckedCanComplete(s: State, c: nat)
    requires Inv(s) && c < |s.calls| && s.calls[c].Checked?
    ensures CanComplete(s, s.calls[c].job.task)
  {
    InvStep(s, PushBack(c));
    QueuedCanComplete(Next(s, PushBack(c)), |s.queue|);
    CompletesAfter(s, PushBack(c), s.calls[c].job.task);
  }

  lemma HeldCanComplete(s: State, c: nat)
    requires Inv(s) && !s.shutdown && c < |s.calls| && s.calls[c].Holding?
    ensures CanComplete(s, s.calls[c].job.task)
  {
    InvStep(s, CheckFlag(c));
    CheckedCanComplete(Next(s, CheckFlag(c)), c);
    CompletesAfter(s, CheckFlag(c), s.calls[c].job.task);
  }

  lemma OutstandingCanComplete(s: State, t: TaskId)
    requires Inv(s) && Outstanding(s, t) > 0 && !(s.shutdown && StillHeld(s, t))
    ensures CanComplete(s, t)
  {
    if CountIf(s.calls, CallFor(t)) > 0 {
      var c := SomeoneCounted(s.calls, CallFor(t));
      if s.calls[c].Checked? {
        CheckedCanComplete(s, c);
      } else {
        assert HoldsAt(s, c, t);
        HeldCanComplete(s, c);
      }
    } else if CountIf(s.queue, JobFor(t)) > 0 {
      var i := SomeoneCounted(s.queue, JobFor(t));
      QueuedCanComplete(s, i);
    } else {
      var h := SomeoneCounted(s.handlers, HandlerFor(t));
      if s.handlers[h].Building? { BuildingCanComplete(s, h); } else { AwaitingCanComplete(s, h); }
    }
  }

  /** Not completed, and nobody has the attempt, or only a submitter that will find the flag set. */
  ghost predicate Doomed(s: State, t: TaskId) {
    First(t) in s.records && !Completed(s, t) && (Outstanding(s, t) == 0 || (s.shutdown && StillHeld(s, t)))
  }

  lemma HeldIsOnly(s: State, t: TaskId, c: nat)
    requires Inv(s) && HoldsAt(s, c, t)
    ensures Outstanding(s, t) == 1 && CountIf(s.handlers, HandlerFor(t)) == 0
  {
    assert Single(s, t);
    CountPositive(s.calls, c, CallFor(t));
  }

  lemma HeldStays(s: State, step: Step, c: nat, t: TaskId)
    requires s.shutdown && HoldsAt(s, c, t) && step != CheckFlag(c)
    ensures Next(s, step).shutdown && HoldsAt(Next(s, step), c, t)
  {
  }

  lemma DoomedStep(s: State, step: Step, t: TaskId)
    requires Inv(s) && Doomed(s, t)
    ensures Doomed(Next(s, step), t)
  {
    if Outstanding(s, t) == 0 {
      LostAfter(s, step, t);
    } else {
      var c :| HoldsAt(s, c, t);
      HeldIsOnly(s, t, c);
      if step == CheckFlag(c) {
        LostAfter(s, step, t);
      } else {
        HeldStays(s, step, c, t);
        assert Lockstep(s.records, s.minted, t);
        RecordAfter(s, step, t);
        if Mints(s, step, t) { MintsWhenNone(s, step, t); }
        if Completes(s, step, t) { CountPositive(s.handlers, step.h, HandlerFor(t)); }
      }
    }
  }

  lemma {:induction false} DoomedForEver(s: State, more: seq<Step>, t: TaskId)
    requires Inv(s) && Doomed(s, t)
    ensures Inv(RunOn(s, more)) && Doomed(RunOn(s, more), t)
  {
    if more == [] {
    } else {
      DoomedForEver(s, more[..|more| - 1], t);
      InvStep(RunOn(s, more[..|more| - 1]), more[|more| - 1]);
      DoomedStep(RunOn(s, more[..|more| - 1]), more[|more| - 1], t);
    }
  }

  /** After every run, a recorded task has a continuation in which it is completed exactly when it is
      completed now, or its attempt is somewhere other than with a submitter that will find the flag set. */
  lemma {:induction false} CompletesIff(steps: seq<Step>, t: TaskId)
    requires First(t) in Run(steps).records
    ensures var s := Run(steps);
            CanComplete(s, t) <==>
            Completed(s, t) || (Outstanding(s, t) > 0 && !(s.shutdown && StillHeld(s, t)))
  {
    var s := Run(steps);
    InvOverRuns(steps);
    if Completed(s, t) {
      CompletesNow(s, t);
    } else if Outstanding(s, t) > 0 && !(s.shutdown && StillHeld(s, t)) {
      OutstandingCanComplete(s, t);
    } else {
      forall more ensures !Completed(RunOn(s, more), t) { DoomedForEver(s, more, t); }
    }
  }

  /** After every run, a recorded task is resubmitted when asked exactly if it is completed and has been
      submitted fewer than 1 + 3 times; there is then one attempt at it, and it counts as not completed. */
  lemma {:induction false} ResubmitsIff(steps: seq<Step>, t: TaskId)
    requires First(t) in Run(steps).records
    ensures var s, s' := Run(steps), Next(Run(steps), Resubmit(First(t)));
            && t in s.minted && t in s'.minted
            && (s'.minted[t] == s.minted[t] + 1 <==> Completed(s, t) && s.minted[t] < 4)
            && (s'.minted[t] == s.minted[t] + 1 ==> Outstanding(s', t) == 1 && !Completed(s', t))
            && (s'.minted[t] != s.minted[t] + 1 ==> s' == s)
  {
    var s := Run(steps);
    InvOverRuns(steps);
    assert Lockstep(s.records, s.minted, t) && Single(s, t);
    OutstandingAfter(s, Resubmit(First(t)), t);
    RecordAfter(s, Resubmit(First(t)), t);
  }
}
