/** Is a freed object gone? A free runs beside spills, resolves and Pulls that may already hold its bytes. */
module Frees {
  import opened Bytes
  import T = Tiers
  import opened Lifecycle
  import RC = RefCounter

  type ObjectId = T.ObjectId
  type Object = T.Object

  /** Nothing leads a new reader to the object. */
  predicate Unreachable(o: Owner, id: ObjectId) {
    id !in o.tiers.index && id !in o.tiers.plasma && id !in o.tiers.directory
  }

  /** A thread that can still put the object back: a spill that has read it or written its file, a read
      that has restored it or is about to read a file that is there. */
  predicate CanRestore(s: T.Store, proc: T.Proc) {
    || proc.SpillRead? || proc.SpillWritten?
    || ((proc.Resolving? || proc.Pulling?) && (proc.stage.Restored? || (proc.stage.AtFile? && proc.id in s.files)))
  }

  predicate ThreadHolds(o: Owner, p: nat, id: ObjectId) {
    p in o.tiers.procs && o.tiers.procs[p].id == id && CanRestore(o.tiers, o.tiers.procs[p])
  }

  /** So can a put that has sealed the object and not indexed it yet. */
  predicate PutHolds(o: Owner, c: nat, id: ObjectId) {
    c in o.calls && o.calls[c].PutSealed? && o.calls[c].id == id
  }

  ghost predicate SomeoneHolds(o: Owner, id: ObjectId) {
    (exists p :: ThreadHolds(o, p, id)) || (exists c :: PutHolds(o, c, id))
  }

  // ---------- Without a holder ----------

  /** What is gone stays gone: no effect but a holder's brings anything back. */
  predicate BringsBack(e: T.Effect, id: ObjectId) {
    (e.FirstSeal? || e.PutPlasma? || e.PutEntry? || e.PutFile? || e.List?) && e.id == id
  }

  lemma EffectLeaves(s: T.Store, e: T.Effect, id: ObjectId)
    requires !BringsBack(e, id)
    ensures var s' := T.Apply(s, e);
            && (id !in s.index ==> id !in s'.index) && (id !in s.plasma ==> id !in s'.plasma)
            && (id !in s.directory ==> id !in s'.directory) && (id !in s.files ==> id !in s'.files)
  {
  }

  lemma ContinueLeaves(s: T.Store, t: T.Step, proc: T.Proc, id: ObjectId)
    requires !t.PutIndex? && (proc.id == id ==> !CanRestore(s, proc))
    ensures var (e, proc') := T.Continue(s, t, proc);
            && !BringsBack(e, id)
            && (proc'.Some? && proc'.value.id == id && id !in s.directory ==> !CanRestore(s, proc'.value))
  {
  }

  lemma BeginLeaves(s: T.Store, t: T.Step, id: ObjectId)
    requires id in s.sealed && !t.Seal?
    ensures var (e, proc) := T.Begin(s, t);
            && !BringsBack(e, id)
            && (proc.Some? && proc.value.id == id && id !in s.plasma ==> !CanRestore(s, proc.value))
  {
  }

  lemma TierLeaves(o: Owner, t: T.Step, id: ObjectId)
    requires id in o.tiers.sealed && !(exists p :: ThreadHolds(o, p, id)) && !t.Seal? && !t.PutIndex?
    ensures !BringsBack(T.Act(o.tiers, t).0, id)
    ensures T.Act(o.tiers, t).1.Some? && T.Act(o.tiers, t).1.value.id == id && id !in o.tiers.plasma &&
            id !in o.tiers.directory ==>
              !CanRestore(o.tiers, T.Act(o.tiers, t).1.value)
  {
    if t.p in o.tiers.procs {
      assert !ThreadHolds(o, t.p, id);
      ContinueLeaves(o.tiers, t, o.tiers.procs[t.p], id);
    } else {
      BeginLeaves(o.tiers, t, id);
    }
  }

  lemma HoldersLeft(o: Owner, mid: T.Store, p: nat, proc: Option<T.Proc>, id: ObjectId)
    requires !(exists q :: ThreadHolds(o, q, id)) && (id !in o.tiers.files ==> id !in mid.files)
    requires proc.Some? && proc.value.id == id ==> !CanRestore(o.tiers, proc.value)
    ensures !(exists q :: ThreadHolds(o.(tiers := mid.(procs := T.SetProc(o.tiers.procs, p, proc))), q, id))
  {
    var o' := o.(tiers := mid.(procs := T.SetProc(o.tiers.procs, p, proc)));
    forall q ensures !ThreadHolds(o', q, id) { assert !ThreadHolds(o, q, id); }
  }

  /** The tiers after an effect that brings nothing of `id` back. */
  predicate Leaves(s: T.Store, s': T.Store, id: ObjectId) {
    && (id in s.sealed ==> id in s'.sealed)
    && (id !in s.index ==> id !in s'.index) && (id !in s.plasma ==> id !in s'.plasma)
    && (id !in s.directory ==> id !in s'.directory) && (id !in s.files ==> id !in s'.files)
  }

  lemma TierStepLeaves(o: Owner, t: T.Step, id: ObjectId)
    requires id in o.tiers.sealed && !SomeoneHolds(o, id) && !t.Seal? && !t.PutIndex?
    ensures Leaves(o.tiers, T.Next(o.tiers, t), id)
  {
    TierLeaves(o, t, id);
    EffectLeaves(o.tiers, T.Act(o.tiers, t).0, id);
  }

  lemma TierLeavesHolders(o: Owner, t: T.Step, id: ObjectId)
    requires id in o.tiers.sealed && !SomeoneHolds(o, id) && Unreachable(o, id) && !t.Seal? && !t.PutIndex?
    ensures !SomeoneHolds(o.(tiers := T.Next(o.tiers, t)), id)
  {
    TierLeaves(o, t, id);
    var (e, proc) := T.Act(o.tiers, t);
    EffectLeaves(o.tiers, e, id);
    HoldersLeft(o, T.Apply(o.tiers, e), t.p, proc, id);
    forall c ensures !PutHolds(o.(tiers := T.Next(o.tiers, t)), c, id) { assert !PutHolds(o, c, id); }
  }

  lemma GoBringsNothing(s: T.Store, call: Call, fails: bool, id: ObjectId)
    requires !(call.PutSealed? && call.id == id)
    ensures !BringsBack(GoEffect(s, call, fails), id) && !GoEffect(s, call, fails).FirstSeal?
  {
  }

  lemma EffectKeepsProcs(s: T.Store, e: T.Effect, id: ObjectId)
    requires !BringsBack(e, id)
    ensures T.Apply(s, e).procs == s.procs && Leaves(s, T.Apply(s, e), id)
  {
    EffectLeaves(s, e, id);
  }

  lemma GoLeaves(o: Owner, c: nat, fails: bool, id: ObjectId)
    requires c in o.calls && !PutHolds(o, c, id)
    ensures Leaves(o.tiers, Next(o, Go(c, fails)).tiers, id) && Next(o, Go(c, fails)).tiers.procs == o.tiers.procs
  {
    var e := GoEffect(o.tiers, o.calls[c], fails);
    GoBringsNothing(o.tiers, o.calls[c], fails, id);
    EffectKeepsProcs(o.tiers, e, id);
    assert Next(o, Go(c, fails)).tiers == o.tiers || Next(o, Go(c, fails)).tiers == T.Apply(o.tiers, e);
  }

  lemma StartLeaves(o: Owner, step: Step, id: ObjectId)
    requires id in o.tiers.sealed && !step.Tier? && !step.Go?
    ensures Next(o, step).tiers.procs == o.tiers.procs && Leaves(o.tiers, Next(o, step).tiers, id)
  {
  }

  lemma CallsLeave(o: Owner, step: Step, id: ObjectId)
    requires id in o.tiers.sealed && !SomeoneHolds(o, id) && !step.Tier?
    ensures Next(o, step).tiers.procs == o.tiers.procs && Leaves(o.tiers, Next(o, step).tiers, id)
  {
    if !step.Go? {
      StartLeaves(o, step, id);
    } else if step.c in o.calls {
      assert !PutHolds(o, step.c, id);
      GoLeaves(o, step.c, step.fails, id);
    }
  }

  lemma PutsLeft(o: Owner, step: Step, id: ObjectId, c: nat)
    requires id in o.tiers.sealed && !PutHolds(o, c, id)
    ensures !PutHolds(Next(o, step), c, id)
  {
  }

  lemma CallLeavesHolders(o: Owner, step: Step, id: ObjectId)
    requires id in o.tiers.sealed && !SomeoneHolds(o, id) && !step.Tier?
    ensures !SomeoneHolds(Next(o, step), id)
  {
    CallsLeave(o, step, id);
    forall p ensures !ThreadHolds(Next(o, step), p, id) { assert !ThreadHolds(o, p, id); }
    forall c ensures !PutHolds(Next(o, step), c, id) { PutsLeft(o, step, id, c); }
  }

  /** Without a holder, no step brings anything of the object back. */
  lemma StepLeaves(o: Owner, step: Step, id: ObjectId)
    requires id in o.tiers.sealed && !SomeoneHolds(o, id)
    ensures Leaves(o.tiers, Next(o, step).tiers, id)
  {
    if !step.Tier? {
      CallsLeave(o, step, id);
    } else if !step.t.Seal? && !step.t.PutIndex? {
      TierStepLeaves(o, step.t, id);
    }
  }

  lemma StaysGone(o: Owner, step: Step, id: ObjectId)
    requires id in o.tiers.sealed && Unreachable(o, id) && !SomeoneHolds(o, id)
    ensures var o' := Next(o, step);
            id in o'.tiers.sealed && Unreachable(o', id) && !SomeoneHolds(o', id) &&
                (id !in o.tiers.files ==> id !in o'.tiers.files)
  {
    StepLeaves(o, step, id);
    if !step.Tier? {
      CallLeavesHolders(o, step, id);
    } else if !step.t.Seal? && !step.t.PutIndex? {
      TierLeavesHolders(o, step.t, id);
    }
  }

  lemma {:induction false} GoneForGood(o: Owner, more: seq<Step>, id: ObjectId)
    requires id in o.tiers.sealed && Unreachable(o, id) && !SomeoneHolds(o, id)
    ensures var o' := RunFrom(o, more);
            id in o'.tiers.sealed && Unreachable(o', id) && !SomeoneHolds(o', id) &&
                (id !in o.tiers.files ==> id !in o'.tiers.files)
  {
    if more == [] {
    } else {
      GoneForGood(o, more[..|more| - 1], id);
      StaysGone(RunFrom(o, more[..|more| - 1]), more[|more| - 1], id);
    }
  }

  // ---------- With a holder ----------

  lemma Once(o: Owner, step: Step)
    ensures RunFrom(o, [step]) == Next(o, step)
  {
    assert [step][..0] == [];
  }

  lemma Twice(o: Owner, a: Step, b: Step)
    ensures RunFrom(o, [a, b]) == Next(Next(o, a), b)
  {
    assert [a, b][..1] == [a];
    Once(o, a);
  }

  lemma RecordBringsBack(o: Owner, p: nat)
    requires p in o.tiers.procs && o.tiers.procs[p].SpillWritten?
    ensures o.tiers.procs[p].id in Next(o, Tier(T.RecordSpill(p))).tiers.directory
  {
  }

  lemma WriteLeads(o: Owner, p: nat)
    requires p in o.tiers.procs && o.tiers.procs[p].SpillRead?
    ensures var o' := Next(o, Tier(T.WriteSpillFile(p)));
            p in o'.tiers.procs && o'.tiers.procs[p] == T.SpillWritten(o.tiers.procs[p].id, o.tiers.procs[p].obj)
  {
  }

  lemma ResealBringsBack(o: Owner, p: nat)
    requires p in o.tiers.procs && T.HasRestored(o.tiers.procs[p])
    ensures o.tiers.procs[p].id in Next(o, Tier(T.Reseal(p))).tiers.plasma
  {
  }

  lemma ReadLeads(o: Owner, p: nat)
    requires p in o.tiers.procs && T.Reads(o.tiers.procs[p], T.AtFile) && o.tiers.procs[p].id in o.tiers.files
    ensures var o' := Next(o, Tier(T.ReadSpillFile(p, true)));
            p in o'.tiers.procs && T.HasRestored(o'.tiers.procs[p]) && o'.tiers.procs[p].id == o.tiers.procs[p].id
  {
  }

  /** A holder's next one or two actions make the object reachable again. */
  lemma ThreadBringsBack(o: Owner, p: nat, id: ObjectId) returns (more: seq<Step>)
    requires ThreadHolds(o, p, id)
    ensures !Unreachable(RunFrom(o, more), id)
  {
    var proc := o.tiers.procs[p];
    if proc.SpillRead? {
      more := [Tier(T.WriteSpillFile(p)), Tier(T.RecordSpill(p))];
      WriteLeads(o, p);
      RecordBringsBack(Next(o, more[0]), p);
      Twice(o, more[0], more[1]);
    } else if proc.SpillWritten? {
      more := [Tier(T.RecordSpill(p))];
      RecordBringsBack(o, p);
      Once(o, more[0]);
    } else if proc.stage.Restored? {
      more := [Tier(T.Reseal(p))];
      ResealBringsBack(o, p);
      Once(o, more[0]);
    } else {
      more := [Tier(T.ReadSpillFile(p, true)), Tier(T.Reseal(p))];
      ReadLeads(o, p);
      ResealBringsBack(Next(o, more[0]), p);
      Twice(o, more[0], more[1]);
    }
  }

  lemma HolderBringsBack(o: Owner, id: ObjectId) returns (more: seq<Step>)
    requires SomeoneHolds(o, id)
    ensures !Unreachable(RunFrom(o, more), id)
  {
    if p :| ThreadHolds(o, p, id) {
      more := ThreadBringsBack(o, p, id);
    } else {
      var c :| PutHolds(o, c, id);
      more := [Go(c, false)];
      Once(o, Go(c, false));
    }
  }

  /** An object that was sealed and that no tier leads to any more stays that way in every continuation
      exactly when nobody holds it: no spill that has read it, no read that has restored it or is about
      to read its file, no put half done. Its file, once gone, then stays gone too. */
  lemma {:induction false} GoneForGoodIff(o: Owner, id: ObjectId)
    requires id in o.tiers.sealed && Unreachable(o, id)
    ensures (forall more: seq<Step> :: Unreachable(RunFrom(o, more), id)) <==> !SomeoneHolds(o, id)
    ensures !SomeoneHolds(o, id) && id !in o.tiers.files ==>
            forall more: seq<Step> :: id !in RunFrom(o, more).tiers.files
  {
    if SomeoneHolds(o, id) {
      var more := HolderBringsBack(o, id);
      assert !Unreachable(RunFrom(o, more), id);
    } else {
      forall more: seq<Step>
        ensures Unreachable(RunFrom(o, more), id) && (id !in o.tiers.files ==> id !in RunFrom(o, more).tiers.files)
      {
        GoneForGood(o, more, id);
      }
    }
  }

  // ---------- A whole free ----------

  /** What a free has achieved by each of its stages. */
  predicate Achieved(o: Owner, stage: FreeStage, id: ObjectId) {
    && (stage != DropIndex ==> id !in o.tiers.index)
    && (stage != DropIndex && stage != DropPlasma ==> id !in o.tiers.plasma)
    && (stage == DropFile ==> id !in o.tiers.directory)
  }

  /** A free of `id` is under way as call `c` and has achieved what its stage says, or nothing leads to the
      object any more. */
  predicate FreeingWell(o: Owner, c: nat, id: ObjectId) {
    || (c in o.calls && o.calls[c].Freeing? && o.calls[c].id == id && Achieved(o, o.calls[c].stage, id))
    || Unreachable(o, id)
  }

  lemma FreeGoes(o: Owner, c: nat, id: ObjectId)
    requires c in o.calls && o.calls[c].Freeing? && o.calls[c].id == id && Achieved(o, o.calls[c].stage, id)
    ensures FreeingWell(Next(o, Go(c, false)), c, id)
  {
  }

  lemma FreeingStep(o: Owner, step: Step, c: nat, id: ObjectId)
    requires FreeingWell(o, c, id) && id in o.tiers.sealed && !SomeoneHolds(o, id) && step != Go(c, true)
    ensures FreeingWell(Next(o, step), c, id) && id in Next(o, step).tiers.sealed
  {
    StepLeaves(o, step, id);
    if !Unreachable(o, id) {
      if step == Go(c, false) { FreeGoes(o, c, id); } else { CallWaits(o, step, c); }
    }
  }

  lemma CallWaits(o: Owner, step: Step, c: nat)
    requires c in o.calls && !(step.Go? && step.c == c)
    ensures c in Next(o, step).calls && Next(o, step).calls[c] == o.calls[c]
  {
  }

  /** Nobody holds the object in any state along the way. */
  ghost predicate NobodyHolds(o: Owner, steps: seq<Step>, id: ObjectId) {
    !SomeoneHolds(o, id) && (steps == [] || (NobodyHolds(o, steps[..|steps| - 1], id) &&
        !SomeoneHolds(RunFrom(o, steps), id)))
  }

  // ---------- The self-entry and the file of a free that is interleaved ----------

  /** The free has not reached the self-entry yet, or the self-entry is gone. */
  predicate DelistsSelf(o: Owner, c: nat, id: ObjectId) {
    || (c in o.calls && o.calls[c].Freeing? && o.calls[c].id == id && o.calls[c].stage != DropEntry &&
        o.calls[c].stage != DropFile)
    || o.self !in Holders(o.locations, id)
  }

  lemma SelfStaysOut(o: Owner, step: Step, id: ObjectId)
    requires NoPut(o, id) && o.self !in Holders(o.locations, id)
    ensures Next(o, step).self == o.self && o.self !in Holders(Next(o, step).locations, id)
  {
    if step.Go? && step.c in o.calls { assert !IsPut(o, step.c, id); }
  }

  lemma DelistsStep(o: Owner, step: Step, c: nat, id: ObjectId)
    requires NoPut(o, id) && DelistsSelf(o, c, id) && step != Go(c, true)
    ensures DelistsSelf(Next(o, step), c, id)
  {
    if o.self !in Holders(o.locations, id) {
      SelfStaysOut(o, step, id);
    } else if step != Go(c, false) {
      CallWaits(o, step, c);
    }
  }

  lemma {:induction false} DelistsOverRun(o: Owner, steps: seq<Step>, c: nat, id: ObjectId)
    requires NoPut(o, id) && DelistsSelf(o, c, id) && Go(c, true) !in steps
    ensures NoPut(RunFrom(o, steps), id) && DelistsSelf(RunFrom(o, steps), c, id) && RunFrom(o, steps).self == o.self
  {
    NoPutOverRuns(o, steps, id);
    if steps == [] {
    } else {
      DelistsOverRun(o, steps[..|steps| - 1], c, id);
      DelistsStep(RunFrom(o, steps[..|steps| - 1]), steps[|steps| - 1], c, id);
    }
  }

  lemma {:induction false} SelfNeverBack(o: Owner, more: seq<Step>, id: ObjectId)
    requires NoPut(o, id) && o.self !in Holders(o.locations, id)
    ensures RunFrom(o, more).self == o.self && o.self !in Holders(RunFrom(o, more).locations, id)
  {
    if more == [] {
    } else {
      SelfNeverBack(o, more[..|more| - 1], id);
      NoPutOverRuns(o, more[..|more| - 1], id);
      SelfStaysOut(RunFrom(o, more[..|more| - 1]), more[|more| - 1], id);
    }
  }

  predicate AtFile(o: Owner, c: nat, id: ObjectId) {
    c in o.calls && o.calls[c] == Freeing(id, DropFile)
  }

  /** The free found a spill entry when its turn came, and so has a file to remove. */
  ghost predicate FoundEntry(o: Owner, steps: seq<Step>, c: nat, id: ObjectId) {
    AtFile(RunFrom(o, steps), c, id) || (steps != [] && FoundEntry(o, steps[..|steps| - 1], c, id))
  }

  lemma FileStep(o: Owner, step: Step, c: nat, id: ObjectId)
    requires id in o.tiers.sealed && !SomeoneHolds(o, id) && step != Go(c, true)
    requires AtFile(o, c, id) || id !in o.tiers.files
    ensures AtFile(Next(o, step), c, id) || id !in Next(o, step).tiers.files
  {
    StepLeaves(o, step, id);
    if AtFile(o, c, id) && step != Go(c, false) { CallWaits(o, step, c); }
  }

  lemma {:induction false} FileOverRun(o: Owner, steps: seq<Step>, c: nat, id: ObjectId)
    requires id in o.tiers.sealed && NobodyHolds(o, steps, id) && Go(c, true) !in steps && FoundEntry(o, steps, c, id)
    ensures AtFile(RunFrom(o, steps), c, id) || id !in RunFrom(o, steps).tiers.files
  {
    if AtFile(RunFrom(o, steps), c, id) {
    } else {
      var before := steps[..|steps| - 1];
      FileOverRun(o, before, c, id);
      NobodyHoldsBefore(o, steps, id);
      SealedOverRun(o, before, id);
      FileStep(RunFrom(o, before), steps[|steps| - 1], c, id);
    }
  }

  lemma {:induction false} SealedOverRun(o: Owner, steps: seq<Step>, id: ObjectId)
    requires id in o.tiers.sealed
    ensures id in RunFrom(o, steps).tiers.sealed
  {
    if steps == [] {
    } else {
      SealedOverRun(o, steps[..|steps| - 1], id);
      SealedStays(RunFrom(o, steps[..|steps| - 1]), steps[|steps| - 1], id);
    }
  }

  lemma {:induction false} FreeingOverRun(o: Owner, steps: seq<Step>, c: nat, id: ObjectId)
    requires c in o.calls && o.calls[c] == Freeing(id, DropIndex) && id in o.tiers.sealed
    requires NobodyHolds(o, steps, id) && Go(c, true) !in steps
    ensures FreeingWell(RunFrom(o, steps), c, id) && id in RunFrom(o, steps).tiers.sealed
  {
    if steps == [] {
    } else {
      FreeingOverRun(o, steps[..|steps| - 1], c, id);
      NobodyHoldsBefore(o, steps, id);
      FreeingStep(RunFrom(o, steps[..|steps| - 1]), steps[|steps| - 1], c, id);
    }
  }

  /** A free that begins and ends, interleaved with anything at all, and whose plasma delete and file
      removal succeed: if nobody holds the object from its start to its end, nothing leads to it at the
      end, nor ever again. If it found a spill entry, the file is gone for good too; and if the object's
      put was over, so is the owner's entry for itself in the location directory. */
  lemma {:induction false} FreedIsGone(o: Owner, steps: seq<Step>, c: nat, id: ObjectId)
    requires c in o.calls && o.calls[c] == Freeing(id, DropIndex) && id in o.tiers.sealed
    requires NobodyHolds(o, steps, id) && Go(c, true) !in steps
    ensures FreeingWell(RunFrom(o, steps), c, id) && id in RunFrom(o, steps).tiers.sealed
    ensures c !in RunFrom(o, steps).calls ==>
            forall more: seq<Step> :: Unreachable(RunFrom(RunFrom(o, steps), more), id)
    ensures c !in RunFrom(o, steps).calls && FoundEntry(o, steps, c, id) ==>
            forall more: seq<Step> :: id !in RunFrom(RunFrom(o, steps), more).tiers.files
    ensures c !in RunFrom(o, steps).calls && NoPut(o, id) ==>
            forall more: seq<Step> :: o.self !in Holders(RunFrom(RunFrom(o, steps), more).locations, id)
  {
    var o' := RunFrom(o, steps);
    FreeingOverRun(o, steps, c, id);
    if c !in o'.calls {
      NobodyHoldsBefore(o, steps, id);
      if FoundEntry(o, steps, c, id) { FileOverRun(o, steps, c, id); }
      GoneForGoodIff(o', id);
      if NoPut(o, id) {
        DelistsOverRun(o, steps, c, id);
        forall more: seq<Step> ensures o.self !in Holders(RunFrom(o', more).locations, id) {
          SelfNeverBack(o', more, id);
        }
      }
    }
  }

  lemma NobodyHoldsBefore(o: Owner, steps: seq<Step>, id: ObjectId)
    requires NobodyHolds(o, steps, id)
    ensures !SomeoneHolds(RunFrom(o, steps), id)
    ensures steps != [] ==> !SomeoneHolds(RunFrom(o, steps[..|steps| - 1]), id)
  {
    if steps != [] && steps[..|steps| - 1] == [] { assert RunFrom(o, steps[..|steps| - 1]) == o; }
  }

  // ---------- A free on its own ----------

  function FreeAlone(o: Owner, c: nat, deleteFails: bool, removeFails: bool): Owner {
    FreeRest(Next(Next(o, Go(c, false)), Go(c, deleteFails)), c, removeFails)
  }

  function FreeRest(o: Owner, c: nat, removeFails: bool): Owner {
    Next(Next(Next(o, Go(c, false)), Go(c, false)), Go(c, removeFails))
  }

  lemma FreeFirst(o: Owner, c: nat, deleteFails: bool, id: ObjectId)
    requires c in o.calls && o.calls[c] == Freeing(id, DropIndex)
    ensures var o' := Next(Next(o, Go(c, false)), Go(c, deleteFails));
            && o'.refs == o.refs && o'.locations == o.locations && o'.self == o.self
            && o'.calls == (if deleteFails then o.calls - {c} else o.calls[c := Freeing(id, DropLocation)])
            && o'.tiers.index == o.tiers.index - {id}
            && o'.tiers == o.tiers.(index := o'.tiers.index,
                                    plasma := if deleteFails then o.tiers.plasma else o.tiers.plasma - {id})
  {
    assert (o.calls[c := Freeing(id, DropPlasma)]) - {c} == o.calls - {c};
  }

  lemma FreeLast(o: Owner, c: nat, removeFails: bool, id: ObjectId)
    requires c in o.calls && o.calls[c] == Freeing(id, DropLocation)
    ensures var o' := FreeRest(o, c, removeFails);
            && o'.refs == o.refs && o'.locations == Remove(o.locations, id, o.self) && o'.calls == o.calls - {c}
            && o'.tiers.index == o.tiers.index && o'.tiers.plasma == o.tiers.plasma
            && o'.tiers.directory == o.tiers.directory - {id} && o'.tiers.procs == o.tiers.procs
            && o'.tiers.files == if id in o.tiers.directory && !removeFails then o.tiers.files - {id} else o.tiers.files
  {
    var a := Next(o, Go(c, false));
    var b := Next(a, Go(c, false));
    assert a.calls == o.calls[c := Freeing(id, DropEntry)];
    if id in o.tiers.directory {
      assert b.calls == o.calls[c := Freeing(id, DropFile)];
      assert b.calls - {c} == o.calls - {c};
    } else {
      assert b.calls == o.calls - {c} && o.tiers.directory - {id} == o.tiers.directory;
    }
  }

  /** A free that nothing interrupts. When the plasma delete fails only the index entry goes. Otherwise
      the index entry, the plasma copy, the spill entry and the self-entry go; the file goes exactly when
      there was an entry for it and its removal succeeds, so the file of a purged entry is left behind. */
  lemma FreeAloneDoes(o: Owner, c: nat, deleteFails: bool, removeFails: bool, id: ObjectId)
    requires c in o.calls && o.calls[c] == Freeing(id, DropIndex) && (id in o.locations ==> o.locations[id] != {})
    ensures var o' := FreeAlone(o, c, deleteFails, removeFails);
            && o'.refs == o.refs && c !in o'.calls && o'.tiers.index == o.tiers.index - {id}
            && (deleteFails ==> o'.locations == o.locations && o'.tiers == o.tiers.(index := o'.tiers.index))
            && (!deleteFails ==>
                && Unreachable(o', id) && Holders(o'.locations, id) == Holders(o.locations, id) - {o.self}
                && o'.tiers.procs == o.tiers.procs
                && (id in o'.tiers.files <==> id in o.tiers.files && (removeFails || id !in o.tiers.directory)))
  {
    FreeFirst(o, c, deleteFails, id);
    var mid := Next(Next(o, Go(c, false)), Go(c, deleteFails));
    if deleteFails {
      assert FreeRest(mid, c, removeFails) == mid;
    } else {
      FreeLast(mid, c, removeFails, id);
      HoldersAfter(o.locations, id, o.self, id);
      assert (o.calls[c := Freeing(id, DropLocation)]) - {c} == o.calls - {c};
    }
  }

  // ---------- A spill that outlives the free ----------

  /** One object, put and not yet spilled. */
  function PutStore(id: ObjectId, obj: Object): T.Store {
    T.Store(map[id := obj], map[], {}, map[id := T.PlasmaIndex(obj.metadata, |obj.data|)], T.NONE, map[id := obj], {})
  }

  lemma Extend(self: NodeId, steps: seq<Step>, step: Step, o: Owner) returns (longer: seq<Step>)
    requires Next(Run(self, steps), step) == o
    ensures longer == steps + [step] && Run(self, longer) == o
  {
    longer := steps + [step];
    Snoc(self, steps, step);
  }

  lemma PutOne(self: NodeId, id: ObjectId, obj: Object) returns (steps: seq<Step>)
    ensures Run(self, steps) == Owner(self, PutStore(id, obj), map[id := RC.OwnerEntry(1, {}, 0)], map[id := {self}],
            map[], {id}, {})
  {
    var entry := T.PlasmaIndex(obj.metadata, |obj.data|);
    var s := T.EMPTY.(plasma := map[id := obj], sealed := map[id := obj]);
    assert T.EMPTY.plasma[id := obj] == map[id := obj] && T.EMPTY.index[id := entry] == map[id := entry];
    var o := Owner(self, s, map[], map[], map[0 := PutSealed(id, obj)], {}, {});
    steps := Extend(self, [], StartPut(0, id, obj), o);
    o := o.(tiers := PutStore(id, obj), calls := map[0 := PutIndexed(id)]);
    steps := Extend(self, steps, Go(0, false), o);
    o := o.(refs := map[id := RC.OwnerEntry(1, {}, 0)], calls := map[0 := PutCounted(id)]);
    steps := Extend(self, steps, Go(0, false), o);
    assert {} + {self} == {self} && Register(map[], id, self) == map[id := {self}];
    assert (map[0 := PutCounted(id)]) - {0} == map[];
    o := o.(locations := map[id := {self}], calls := map[], put := {id});
    steps := Extend(self, steps, Go(0, false), o);
  }

  /** The spill has read the object when the last local reference goes. */
  lemma ReadThenDrop(self: NodeId, id: ObjectId, obj: Object) returns (steps: seq<Step>)
    ensures Run(self, steps) ==
            Owner(self, PutStore(id, obj).(procs := T.NONE[1 := T.SpillRead(id, obj)]), map[], map[id := {self}],
                  map[0 := Freeing(id, DropIndex)], {id}, {id})
  {
    steps := PutOne(self, id, obj);
    var o := Run(self, steps).(tiers := PutStore(id, obj).(procs := T.NONE[1 := T.SpillRead(id, obj)]));
    steps := Extend(self, steps, Tier(T.StartSpill(1, id)), o);
    assert o.refs - {id} == map[] && o.calls[0 := Freeing(id, DropIndex)] == map[0 := Freeing(id, DropIndex)];
    o := o.(refs := map[], calls := map[0 := Freeing(id, DropIndex)], freed := {id});
    steps := Extend(self, steps, DecLocal(0, id), o);
  }

  lemma FreeInFull(self: NodeId, before: seq<Step>, id: ObjectId) returns (steps: seq<Step>)
    ensures Run(self, steps) == FreeAlone(Run(self, before), 0, false, false)
  {
    var o := Run(self, before);
    steps := Extend(self, before, Go(0, false), Next(o, Go(0, false)));
    o := Next(o, Go(0, false));
    steps := Extend(self, steps, Go(0, false), Next(o, Go(0, false)));
    o := Next(o, Go(0, false));
    steps := Extend(self, steps, Go(0, false), Next(o, Go(0, false)));
    o := Next(o, Go(0, false));
    steps := Extend(self, steps, Go(0, false), Next(o, Go(0, false)));
    o := Next(o, Go(0, false));
    steps := Extend(self, steps, Go(0, false), Next(o, Go(0, false)));
  }

  /** The last reference goes while a spill has the bytes in hand: the free completes without a failure
      and finds no spill entry, and the spill then writes a file and records an entry that no later
      free will ever remove. */
  lemma {:induction false} SpillOutlivesFree(self: NodeId, id: ObjectId, obj: Object)
    returns (freed: seq<Step>, steps: seq<Step>)
    ensures Unreachable(Run(self, freed), id) && Run(self, freed).calls == map[] && id !in Run(self, freed).tiers.files
    ensures freed <= steps
    ensures var o := Run(self, steps); id in o.freed && id !in o.refs && id in o.tiers.directory && id in o.tiers.files
  {
    var before := ReadThenDrop(self, id, obj);
    var o := Run(self, before);
    freed := FreeInFull(self, before, id);
    FreeAloneDoes(o, 0, false, false, id);
    FreedByThen(self, freed, before);
    SpillGoesOn(Run(self, freed), 1, id, obj);
    steps := Extend(self, freed, Tier(T.WriteSpillFile(1)), Next(Run(self, freed), Tier(T.WriteSpillFile(1))));
    steps := Extend(self, steps, Tier(T.RecordSpill(1)), Next(Run(self, steps), Tier(T.RecordSpill(1))));
  }

  lemma FreedByThen(self: NodeId, freed: seq<Step>, before: seq<Step>)
    requires Run(self, freed) == FreeAlone(Run(self, before), 0, false, false)
    requires Run(self, before).calls.Keys == {0} && Run(self, before).calls[0].Freeing? &&
            Run(self, before).calls[0].stage == DropIndex
    ensures Run(self, freed).calls == map[] && Run(self, freed).freed == Run(self, before).freed
  {
    var o := Run(self, before);
    FreeFirst(o, 0, false, o.calls[0].id);
    FreeLast(Next(Next(o, Go(0, false)), Go(0, false)), 0, false, o.calls[0].id);
  }

  lemma SpillGoesOn(o: Owner, p: nat, id: ObjectId, obj: Object)
    requires p in o.tiers.procs && o.tiers.procs[p] == T.SpillRead(id, obj)
    ensures var o' := Next(Next(o, Tier(T.WriteSpillFile(p))), Tier(T.RecordSpill(p)));
            && o'.freed == o.freed && o'.refs == o.refs && id in o'.tiers.directory && id in o'.tiers.files
  {
    WriteLeads(o, p);
    RecordBringsBack(Next(o, Tier(T.WriteSpillFile(p))), p);
  }
}
