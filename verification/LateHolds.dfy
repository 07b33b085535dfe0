/** Holds that a peer obtains while the object is being freed, or after: how long is there something to hold? */
module LateHolds {
  import opened Bytes
  import T = Tiers
  import opened Lifecycle
  import Frees
  import RC = RefCounter

  type ObjectId = T.ObjectId
  type Object = T.Object

  // ---------- Until a free drops the index entry ----------

  /** The step is the first action of a free of `id`. */
  predicate DropsIndex(o: Owner, step: Step, id: ObjectId) {
    step.Go? && step.c in o.calls && o.calls[step.c] == Freeing(id, DropIndex)
  }

  ghost predicate HasDroppedIndex(o: Owner, more: seq<Step>, id: ObjectId) {
    more != [] &&
    (HasDroppedIndex(o, more[..|more| - 1], id) || DropsIndex(RunFrom(o, more[..|more| - 1]), more[|more| - 1], id))
  }

  predicate HasCopy(s: T.Store, id: ObjectId) {
    && id in s.sealed
    && ((id in s.plasma && s.plasma[id] == s.sealed[id]) || (id in s.files && s.files[id] == s.sealed[id]))
  }

  /** A put that has written the index entry, finished or not. */
  predicate IsIndexed(o: Owner, c: nat, id: ObjectId) {
    c in o.calls && o.calls[c].id == id && (o.calls[c].PutIndexed? || o.calls[c].PutCounted?)
  }

  /** Frees of the object may be under way, but none has done anything yet. */
  ghost predicate Untouched(o: Owner, id: ObjectId) {
    && T.CopyInv(o.tiers, id) && (id in o.put ==> id in o.tiers.index)
    && (forall c :: IsIndexed(o, c, id) ==> id in o.tiers.index)
    && forall c :: c in o.calls && o.calls[c].id == id && o.calls[c].Freeing? ==> o.calls[c].stage == DropIndex
  }

  lemma GoKeeps(o: Owner, call: Call, fails: bool, id: ObjectId)
    requires T.BytesInv(o.tiers, id) && T.CopyInv(o.tiers, id)
    requires call.id == id ==> !call.Freeing? && CallTiersOk(o, call)
    ensures var s' := T.Apply(o.tiers, GoEffect(o.tiers, call, fails));
            && T.CopyInv(s', id) && (id in o.tiers.index || (call.PutSealed? && call.id == id) ==> id in s'.index)
  {
    EffectKeepsInv(o.tiers, GoEffect(o.tiers, call, fails), id);
  }

  lemma TiersUntouched(o: Owner, step: Step, id: ObjectId)
    requires Untouched(o, id) && TiersInv(o, id) && !DropsIndex(o, step, id)
    ensures var s := Next(o, step).tiers; T.CopyInv(s, id) && (id in o.tiers.index ==> id in s.index)
  {
    match step
    case Tier(t) =>
      T.CopyStep(o.tiers, t, id);
      if id in o.tiers.index { IndexStays(o.tiers, t, id); }
    case StartPut(c, k, obj) => if k !in o.tiers.sealed { EffectKeepsInv(o.tiers, T.FirstSeal(k, obj), id); }
    case Go(c, fails) => if c in o.calls { GoKeeps(o, o.calls[c], fails, id); }
    case _ =>
  }

  lemma IndexedStep(o: Owner, step: Step, c: nat, id: ObjectId)
    requires Untouched(o, id) && TiersInv(o, id) && !DropsIndex(o, step, id) && IsIndexed(Next(o, step), c, id)
    ensures id in Next(o, step).tiers.index
  {
    if IsIndexed(o, c, id) {
      TiersUntouched(o, step, id);
    } else {
      BecomesIndexed(o, step, c, id);
      GoKeeps(o, o.calls[c], step.fails, id);
    }
  }

  lemma BecomesIndexed(o: Owner, step: Step, c: nat, id: ObjectId)
    requires IsIndexed(Next(o, step), c, id) && !IsIndexed(o, c, id)
    ensures step.Go? && step.c == c && c in o.calls && o.calls[c].PutSealed? && o.calls[c].id == id
  {
  }

  lemma UntouchedStep(o: Owner, step: Step, id: ObjectId)
    requires Untouched(o, id) && TiersInv(o, id) && !DropsIndex(o, step, id)
    ensures Untouched(Next(o, step), id)
  {
    var o' := Next(o, step);
    TiersUntouched(o, step, id);
    if id in o'.put && id !in o.put {
      PutEnds(o, step, id);
      assert IsIndexed(o, step.c, id);
    }
    forall c | IsIndexed(o', c, id) ensures id in o'.tiers.index { IndexedStep(o, step, c, id); }
  }

  lemma {:induction false} UntouchedOverRuns(self: NodeId, steps: seq<Step>, id: ObjectId)
    requires !HasDroppedIndex(Start(self), steps, id)
    ensures Untouched(Run(self, steps), id)
  {
    if steps == [] {
    } else {
      UntouchedOverRuns(self, steps[..|steps| - 1], id);
      InvOverRuns(self, steps[..|steps| - 1], id);
      UntouchedStep(Run(self, steps[..|steps| - 1]), steps[|steps| - 1], id);
    }
  }

  lemma DropsIt(o: Owner, step: Step, id: ObjectId)
    requires DropsIndex(o, step, id)
    ensures id !in Next(o, step).tiers.index
  {
  }

  lemma TierIndexesNothing(s: T.Store, t: T.Step, id: ObjectId)
    requires id !in s.index && !t.PutIndex?
    ensures id !in T.Next(s, t).index
  {
    assert !T.Act(s, t).0.PutEntry?;
    EffectIndexes(s, T.Act(s, t).0, id);
  }

  lemma GoIndexesNothing(o: Owner, c: nat, fails: bool, id: ObjectId)
    requires id !in o.tiers.index && c in o.calls && !IsPut(o, c, id)
    ensures id !in Next(o, Go(c, fails)).tiers.index
  {
    var e := GoEffect(o.tiers, o.calls[c], fails);
    EntriesComeFromPuts(o.tiers, o.calls[c], fails);
    assert Next(o, Go(c, fails)).tiers == o.tiers || Next(o, Go(c, fails)).tiers == T.Apply(o.tiers, e);
    EffectIndexes(o.tiers, e, id);
  }

  lemma EntriesComeFromPuts(s: T.Store, call: Call, fails: bool)
    ensures var e := GoEffect(s, call, fails); e.PutEntry? ==> call.PutSealed? && e.id == call.id
  {
  }

  lemma EffectIndexes(s: T.Store, e: T.Effect, id: ObjectId)
    ensures id !in s.index && !(e.PutEntry? && e.id == id) ==> id !in T.Apply(s, e).index
  {
  }

  /** What is not in the index stays out of it. */
  lemma UnindexedStep(o: Owner, step: Step, id: ObjectId)
    requires NoPut(o, id) && id !in o.tiers.index
    ensures id !in Next(o, step).tiers.index
  {
    match step
    case Tier(t) => if !t.PutIndex? { TierIndexesNothing(o.tiers, t, id); }
    case Go(c, fails) => if c in o.calls { GoIndexesNothing(o, c, fails, id); }
    case _ =>
  }

  lemma {:induction false} NeverIndexedAgain(o: Owner, more: seq<Step>, id: ObjectId)
    requires NoPut(o, id) && HasDroppedIndex(o, more, id)
    ensures id !in RunFrom(o, more).tiers.index
  {
    var before, step := more[..|more| - 1], more[|more| - 1];
    NoPutOverRuns(o, before, id);
    if HasDroppedIndex(o, before, id) {
      NeverIndexedAgain(o, before, id);
      UnindexedStep(RunFrom(o, before), step, id);
    } else {
      DropsIt(RunFrom(o, before), step, id);
    }
  }

  lemma {:induction false} RunInParts(self: NodeId, steps: seq<Step>, more: seq<Step>)
    ensures Run(self, steps + more) == RunFrom(Run(self, steps), more)
  {
    if more == [] {
      assert steps + more == steps;
    } else {
      var init, last := more[..|more| - 1], more[|more| - 1];
      RunInParts(self, steps, init);
      Snoc(self, steps + init, last);
      assert steps + more == (steps + init) + [last];
    }
  }

  lemma DroppedSnoc(o: Owner, steps: seq<Step>, step: Step, id: ObjectId)
    ensures HasDroppedIndex(o, steps + [step], id) <==>
            HasDroppedIndex(o, steps, id) || DropsIndex(RunFrom(o, steps), step, id)
  {
    var all := steps + [step];
    assert all[..|all| - 1] == steps && all[|all| - 1] == step;
  }

  lemma {:induction false} DroppedInParts(self: NodeId, steps: seq<Step>, more: seq<Step>, id: ObjectId)
    ensures HasDroppedIndex(Start(self), steps + more, id) <==>
            HasDroppedIndex(Start(self), steps, id) || HasDroppedIndex(Run(self, steps), more, id)
  {
    if more == [] {
      assert steps + more == steps;
    } else {
      var init, last := more[..|more| - 1], more[|more| - 1];
      DroppedInParts(self, steps, init, id);
      assert more == init + [last];
      DroppedOneMore(self, steps, init, last, id);
    }
  }

  lemma DroppedOneMore(self: NodeId, steps: seq<Step>, init: seq<Step>, last: Step, id: ObjectId)
    requires HasDroppedIndex(Start(self), steps + init, id) <==>
             HasDroppedIndex(Start(self), steps, id) || HasDroppedIndex(Run(self, steps), init, id)
    ensures HasDroppedIndex(Start(self), steps + (init + [last]), id) <==>
            HasDroppedIndex(Start(self), steps, id) || HasDroppedIndex(Run(self, steps), init + [last], id)
  {
    assert steps + (init + [last]) == (steps + init) + [last];
    RunInParts(self, steps, init);
    DroppedSnoc(Start(self), steps + init, last, id);
    DroppedSnoc(Run(self, steps), init, last, id);
  }

  lemma KeptNow(s: T.Store, id: ObjectId)
    requires T.BytesInv(s, id) && T.CopyInv(s, id) && id in s.sealed
    ensures HasCopy(s, id) && (T.Readable(s, id) <==> id in s.plasma || id !in s.purged)
  {
  }

  /** From the end of a put that no free has interfered with, in every continuation, whoever pins the object
      by then and however many frees of it have begun: it is indexed and has an intact copy exactly as long
      as no free has dropped its index entry. Until then it is readable unless purged; from then on it is
      never indexed again. */
  lemma {:induction false} KeptUntilDropped(self: NodeId, steps: seq<Step>, more: seq<Step>, id: ObjectId)
    requires id in Run(self, steps).put && !HasDroppedIndex(Start(self), steps, id)
    ensures var o := Run(self, steps);
            var s := RunFrom(o, more).tiers;
            && (id in s.index && HasCopy(s, id) <==> !HasDroppedIndex(o, more, id))
            && (id in s.index <==> !HasDroppedIndex(o, more, id))
            && (!HasDroppedIndex(o, more, id) ==> (T.Readable(s, id) <==> id in s.plasma || id !in s.purged))
  {
    var o := Run(self, steps);
    PutOnceOverRuns(self, steps, id);
    NoPutOverRuns(o, more, id);
    RunInParts(self, steps, more);
    DroppedInParts(self, steps, more, id);
    if HasDroppedIndex(o, more, id) {
      NeverIndexedAgain(o, more, id);
    } else {
      UntouchedOverRuns(self, steps + more, id);
      InvOverRuns(self, steps + more, id);
      PutStays(o, more, id);
      KeptNow(RunFrom(o, more).tiers, id);
    }
  }

  lemma {:induction false} PutStays(o: Owner, more: seq<Step>, id: ObjectId)
    requires id in o.put
    ensures id in RunFrom(o, more).put
  {
    if more == [] {
    } else {
      PutStays(o, more[..|more| - 1], id);
    }
  }

  // ---------- A borrower of nothing ----------

  /** The peer's registration has reached the directory when the owner's last reference goes. */
  lemma RegisterThenDrop(self: NodeId, id: ObjectId, obj: Object, node: NodeId) returns (steps: seq<Step>)
    requires node != self
    ensures Run(self, steps) ==
            Owner(self, Frees.PutStore(id, obj), map[], map[id := {self, node}],
                  map[0 := Freeing(id, DropIndex), 1 := Registering(id, node)], {id}, {id})
  {
    steps := Frees.PutOne(self, id, obj);
    var o := Run(self, steps).(locations := map[id := {self, node}], calls := map[1 := Registering(id, node)]);
    assert {self} + {node} == {self, node};
    assert Register(map[id := {self}], id, node) == map[id := {self, node}];
    assert (map[])[1 := Registering(id, node)] == map[1 := Registering(id, node)];
    steps := Frees.Extend(self, steps, StartRegister(1, id, node), o);
    assert o.refs - {id} == map[];
    o := o.(refs := map[], calls := map[1 := Registering(id, node)][0 := Freeing(id, DropIndex)], freed := {id});
    steps := Frees.Extend(self, steps, DecLocal(0, id), o);
    assert o.calls == map[0 := Freeing(id, DropIndex), 1 := Registering(id, node)];
  }

  lemma FreedBeside(o: Owner, id: ObjectId, node: NodeId)
    requires o.calls == map[0 := Freeing(id, DropIndex), 1 := Registering(id, node)] && node != o.self
    requires o.refs == map[] && o.tiers.procs == map[] && o.locations == map[id := {o.self, node}]
    ensures var o' := Frees.FreeAlone(o, 0, false, false);
            && o'.calls == map[1 := Registering(id, node)] && o'.refs == map[] && o'.tiers.procs == map[]
            && Frees.Unreachable(o', id) && o'.put == o.put && Holders(o'.locations, id) == {node}
            && o'.tiers.sealed == o.tiers.sealed
  {
    Frees.FreeFirst(o, 0, false, id);
    var mid := Next(Next(o, Go(0, false)), Go(0, false));
    Frees.FreeLast(mid, 0, false, id);
    Frees.FreeAloneDoes(o, 0, false, false, id);
    Unchanged(o, 0);
    assert mid.calls == o.calls[0 := Freeing(id, DropLocation)];
    assert mid.calls - {0} == map[1 := Registering(id, node)];
    assert {o.self, node} - {o.self} == {node};
  }

  /** A free touches no history. */
  lemma Unchanged(o: Owner, c: nat)
    requires c in o.calls && o.calls[c].Freeing? && o.calls[c].stage == DropIndex
    ensures var o' := Frees.FreeAlone(o, c, false, false); o'.put == o.put && o'.tiers.sealed == o.tiers.sealed
  {
    var o2 := Next(Next(o, Go(c, false)), Go(c, false));
    GoUnchanged(o, c);
    GoUnchanged(Next(o, Go(c, false)), c);
    GoUnchanged(o2, c);
    GoUnchanged(Next(o2, Go(c, false)), c);
    GoUnchanged(Next(Next(o2, Go(c, false)), Go(c, false)), c);
  }

  lemma GoUnchanged(o: Owner, c: nat)
    requires c in o.calls ==> o.calls[c].Freeing?
    ensures var o' := Next(o, Go(c, false));
            o'.put == o.put && o'.tiers.sealed == o.tiers.sealed && (c in o'.calls ==> o'.calls[c].Freeing?)
  {
  }

  lemma RegisteredLate(o: Owner, id: ObjectId, node: NodeId)
    requires o.calls == map[1 := Registering(id, node)] && o.refs == map[] && o.tiers.procs == map[]
    ensures var o' := Next(o, Go(1, false));
            && o' == o.(calls := map[], refs := map[id := RC.OwnerEntry(0, {node}, 0)])
            && !Frees.SomeoneHolds(o', id)
  {
    assert {} + {node} == {node} && o.calls - {1} == map[];
    assert o.refs[id := RC.OwnerEntry(0, {node}, 0)] == map[id := RC.OwnerEntry(0, {node}, 0)];
  }

  /** A registration half done when the free completes without a failure: it ends with the peer listed and
      pinning an object that nothing leads to, then or ever after. */
  lemma {:induction false} BorrowerOfNothing(self: NodeId, id: ObjectId, obj: Object, node: NodeId)
    returns (steps: seq<Step>)
    requires node != self
    ensures var o := Run(self, steps);
            && id in o.put && o.calls == map[] && Holders(o.locations, id) == {node}
            && id in o.refs && o.refs[id].borrowers == {node}
            && forall more: seq<Step> :: Frees.Unreachable(RunFrom(o, more), id)
  {
    var before := RegisterThenDrop(self, id, obj, node);
    steps := Frees.FreeInFull(self, before, id);
    FreedBeside(Run(self, before), id, node);
    var o := Run(self, steps);
    RegisteredLate(o, id, node);
    steps := Frees.Extend(self, steps, Go(1, false), Next(o, Go(1, false)));
    Frees.GoneForGoodIff(Next(o, Go(1, false)), id);
  }
}
