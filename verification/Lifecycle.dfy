/** When an owned object is freed: the reference counter, the tiers and the location directory, with
    every call interleaved at its lock acquisitions with every other and with the spills, resolves and
    Pulls of `Tiers`. */
module Lifecycle {
  import opened Bytes
  import opened Tiers
  import RC = RefCounter

  type NodeId = seq<byte>

  /** Peers known to hold a replica; an object with no holders has no entry. */
  type Locations = map<ObjectId, set<NodeId>>

  /** What a free does next: the index, the plasma copy, the self-entry, the spill entry, the file. */
  datatype FreeStage = DropIndex | DropPlasma | DropLocation | DropEntry | DropFile

  /** A call in progress: a put that has sealed, indexed or counted its object; a peer's registration or
      removal that has updated the locations; a free. */
  datatype Call =
    | PutSealed(id: ObjectId, obj: Object)
    | PutIndexed(id: ObjectId)
    | PutCounted(id: ObjectId)
    | Registering(id: ObjectId, node: NodeId)
    | Dropping(id: ObjectId, node: NodeId)
    | Freeing(id: ObjectId, stage: FreeStage)

  /** `put` and `freed` are history: the ids whose put has finished, and those whose free has begun. */
  datatype Owner = Owner(
    self: NodeId, tiers: Store, refs: RC.Entries, locations: Locations, calls: map<nat, Call>,
    put: set<ObjectId>, freed: set<ObjectId>)

  datatype Step =
    | Tier(t: Tiers.Step)       // spills, resolves and Pulls
    | StartPut(c: nat, id: ObjectId, obj: Object)
    | IncLocal(id: ObjectId)
    | DecLocal(c: nat, id: ObjectId)
    | StartRegister(c: nat, id: ObjectId, node: NodeId)
    | StartDrop(c: nat, id: ObjectId, node: NodeId)
    | Go(c: nat, fails: bool)   // a call's next action; the plasma delete and the file removal may fail

  // ---------- The location directory ----------

  function Holders(l: Locations, id: ObjectId): set<NodeId> {
    if id in l then l[id] else {}
  }

  function Register(l: Locations, id: ObjectId, node: NodeId): Locations {
    l[id := Holders(l, id) + {node}]
  }

  function Remove(l: Locations, id: ObjectId, node: NodeId): Locations {
    if id !in l then l
    else if l[id] - {node} == {} then l - {id}
    else l[id := l[id] - {node}]
  }

  // ---------- Steps ----------

  function SetCall(calls: map<nat, Call>, c: nat, call: Option<Call>): map<nat, Call> {
    if call.Some? then calls[c := call.value] else calls - {c}
  }

  /** A release of a pin by call `c`; clearing the last pin starts a free. */
  function Release(o: Owner, c: nat, op: RC.Op): Owner {
    var (refs, last) := RC.Apply(o.refs, op);
    o.(refs := refs, calls := SetCall(o.calls, c, if last then Some(Freeing(op.id, DropIndex)) else None),
       freed := if last then o.freed + {op.id} else o.freed)
  }

  /** What a put's or a free's next action does to the tiers. */
  function GoEffect(s: Store, call: Call, fails: bool): Effect {
    match call
    case PutSealed(id, obj) => PutEntry(id, PlasmaIndex(obj.metadata, |obj.data|))
    case Freeing(id, DropIndex) => Unindex(id)
    case Freeing(id, DropPlasma) => if fails then Nothing else Evict(id)
    case Freeing(id, DropEntry) => if id in s.directory then Unlist(id) else Nothing
    case Freeing(id, DropFile) => if fails then Nothing else Unlink(id)
    case _ => Nothing
  }

  /** Where it goes from there; a failed plasma delete ends the free, and without a spill entry there is
      no file to remove. */
  function GoCall(s: Store, call: Call, fails: bool): Option<Call> {
    match call
    case PutSealed(id, _) => Some(PutIndexed(id))
    case PutIndexed(id) => Some(PutCounted(id))
    case Freeing(id, DropIndex) => Some(Freeing(id, DropPlasma))
    case Freeing(id, DropPlasma) => if fails then None else Some(Freeing(id, DropLocation))
    case Freeing(id, DropLocation) => Some(Freeing(id, DropEntry))
    case Freeing(id, DropEntry) => if id in s.directory then Some(Freeing(id, DropFile)) else None
    case _ => None
  }

  function GoRefs(refs: RC.Entries, call: Call): RC.Entries {
    match call
    case PutIndexed(id) => RC.Apply(refs, RC.AddOwned(id)).0
    case Registering(id, node) => RC.Apply(refs, RC.AddBorrower(id, node)).0
    case _ => refs
  }

  function GoLocations(l: Locations, self: NodeId, call: Call): Locations {
    match call
    case PutCounted(id) => Register(l, id, self)
    case Freeing(id, DropLocation) => Remove(l, id, self)
    case _ => l
  }

  function GoOn(o: Owner, c: nat, call: Call, fails: bool): Owner {
    if call.Dropping? then Release(o, c, RC.RemoveBorrower(call.id, call.node))
    else
      o.(tiers := Apply(o.tiers, GoEffect(o.tiers, call, fails)), refs := GoRefs(o.refs, call),
         locations := GoLocations(o.locations, o.self, call),
         calls := SetCall(o.calls, c, GoCall(o.tiers, call, fails)),
         put := if call.PutCounted? then o.put + {call.id} else o.put)
  }

  /** A call that has not begun cannot use a number in use; ids are fresh at `put`; and peers never name
      the owner's own node. */
  function Next(o: Owner, step: Step): Owner {
    match step
    case Tier(t) => if t.Seal? || t.PutIndex? then o else o.(tiers := Tiers.Next(o.tiers, t))
    case StartPut(c, id, obj) =>
      if c in o.calls || id in o.tiers.sealed then o
      else o.(tiers := Apply(o.tiers, FirstSeal(id, obj)), calls := o.calls[c := PutSealed(id, obj)])
    case IncLocal(id) => o.(refs := RC.Apply(o.refs, RC.IncLocal(id)).0)
    case DecLocal(c, id) => if c in o.calls then o else Release(o, c, RC.DecLocal(id))
    case StartRegister(c, id, node) =>
      if c in o.calls || node == o.self then o
      else o.(locations := Register(o.locations, id, node), calls := o.calls[c := Registering(id, node)])
    case StartDrop(c, id, node) =>
      if c in o.calls || node == o.self then o
      else o.(locations := Remove(o.locations, id, node), calls := o.calls[c := Dropping(id, node)])
    case Go(c, fails) => if c in o.calls then GoOn(o, c, o.calls[c], fails) else o
  }

  function Start(self: NodeId): Owner { Owner(self, EMPTY, map[], map[], map[], {}, {}) }

  function RunFrom(o: Owner, steps: seq<Step>): Owner {
    if steps == [] then o else Next(RunFrom(o, steps[..|steps| - 1]), steps[|steps| - 1])
  }

  function Run(self: NodeId, steps: seq<Step>): Owner { RunFrom(Start(self), steps) }

  // ---------- The tiers, object by object ----------

  /** The tiers' invariant without any thread taking a step. */
  lemma EffectKeepsInv(s: Store, e: Effect, id: ObjectId)
    requires BytesInv(s, id) && WritesSealed(s, e, id)
    ensures BytesInv(Apply(s, e), id)
    ensures CopyInv(s, id) && KeepsCopy(s, e, id) ==> CopyInv(Apply(s, e), id)
  {
    EffectFaithful(s, e, id);
    if CopyInv(s, id) && KeepsCopy(s, e, id) { EffectKept(s, e, id); }
  }

  predicate CallTiersOk(o: Owner, call: Call) {
    && (call.PutSealed? ==> IsSealed(o.tiers, call.id, call.obj))
    && (call.Freeing? ==> call.id in o.freed)
  }

  ghost predicate TiersInv(o: Owner, id: ObjectId) {
    && BytesInv(o.tiers, id) && (id !in o.freed ==> CopyInv(o.tiers, id))
    && forall c :: c in o.calls && o.calls[c].id == id ==> CallTiersOk(o, o.calls[c])
  }

  /** A put writes what it sealed, and only a free takes anything away. */
  lemma GoEffectOk(o: Owner, call: Call, fails: bool, id: ObjectId)
    requires call.id == id ==> CallTiersOk(o, call)
    ensures WritesSealed(o.tiers, GoEffect(o.tiers, call, fails), id)
    ensures id !in o.freed ==> KeepsCopy(o.tiers, GoEffect(o.tiers, call, fails), id)
    ensures Apply(o.tiers, GoEffect(o.tiers, call, fails)).sealed == o.tiers.sealed
  {
  }

  lemma GoKeepsTiers(o: Owner, c: nat, fails: bool, id: ObjectId)
    requires TiersInv(o, id) && c in o.calls
    ensures TiersInv(Next(o, Go(c, fails)), id)
  {
    var call := o.calls[c];
    GoEffectOk(o, call, fails, id);
    EffectKeepsInv(o.tiers, GoEffect(o.tiers, call, fails), id);
  }

  lemma TiersStep(o: Owner, step: Step, id: ObjectId)
    requires TiersInv(o, id)
    ensures TiersInv(Next(o, step), id)
  {
    match step
    case Tier(t) => TierKeepsTiers(o, t, id);
    case StartPut(c, k, obj) => if k !in o.tiers.sealed { EffectKeepsInv(o.tiers, FirstSeal(k, obj), id); }
    case Go(c, fails) => if c in o.calls { GoKeepsTiers(o, c, fails, id); }
    case _ =>
  }

  lemma TierKeepsTiers(o: Owner, t: Tiers.Step, id: ObjectId)
    requires TiersInv(o, id)
    ensures TiersInv(o.(tiers := Tiers.Next(o.tiers, t)), id)
  {
    BytesStep(o.tiers, t, id);
    ActFaithful(o.tiers, t, id);
    EffectFaithful(o.tiers, Act(o.tiers, t).0, id);
    if id !in o.freed { CopyStep(o.tiers, t, id); }
  }

  // ---------- Pins, index and self-entry ----------

  /** What the directory answers after each of its two updates; no entry is ever left empty. */
  lemma HoldersAfter(l: Locations, id: ObjectId, node: NodeId, k: ObjectId)
    requires k in l ==> l[k] != {}
    ensures Holders(Register(l, id, node), k) == Holders(l, k) + (if k == id then {node} else {})
    ensures Holders(Remove(l, id, node), k) == Holders(l, k) - (if k == id then {node} else {})
    ensures k in Register(l, id, node) ==> Register(l, id, node)[k] != {}
    ensures k in Remove(l, id, node) ==> Remove(l, id, node)[k] != {}
  {
  }

  predicate Tidy(o: Owner, id: ObjectId) {
    && (id in o.locations ==> o.locations[id] != {})
    && (id in o.refs ==> !RC.IsUnpinned(o.refs[id]) && o.refs[id].submitDeps == 0)
  }

  lemma ReleaseTidy(o: Owner, c: nat, op: RC.Op, id: ObjectId)
    requires Tidy(o, id) && RC.IsRelease(op)
    ensures Tidy(Release(o, c, op), id)
  {
  }

  lemma GoTidy(o: Owner, c: nat, call: Call, fails: bool, id: ObjectId)
    requires Tidy(o, id)
    ensures Tidy(GoOn(o, c, call, fails), id)
  {
    HoldersAfter(o.locations, call.id, o.self, id);
    if call.Dropping? { ReleaseTidy(o, c, RC.RemoveBorrower(call.id, call.node), id); }
  }

  lemma TidyStep(o: Owner, step: Step, id: ObjectId)
    requires Tidy(o, id)
    ensures Tidy(Next(o, step), id)
  {
    match step
    case DecLocal(c, k) => ReleaseTidy(o, c, RC.DecLocal(k), id);
    case StartRegister(_, k, node) => HoldersAfter(o.locations, k, node, id);
    case StartDrop(_, k, node) => HoldersAfter(o.locations, k, node, id);
    case Go(c, fails) => if c in o.calls { GoTidy(o, c, o.calls[c], fails, id); }
    case _ =>
  }

  /** How far a put has got, as long as nobody has freed the object. */
  predicate CallOwnsOk(o: Owner, call: Call) {
    match call
    case PutIndexed(id) => id in o.tiers.index
    case PutCounted(id) => id in o.tiers.index && id in o.refs
    case Freeing(_, _) => false
    case _ => true
  }

  /** A finished put has its index entry, a pin and its self-entry until a free begins. */
  ghost predicate OwnsInv(o: Owner, id: ObjectId) {
    id !in o.freed ==>
      && (id in o.put ==> id in o.tiers.index && id in o.refs && o.self in Holders(o.locations, id))
      && forall c :: c in o.calls && o.calls[c].id == id ==> CallOwnsOk(o, o.calls[c])
  }

  lemma ReleaseOwns(o: Owner, c: nat, op: RC.Op, id: ObjectId)
    requires OwnsInv(o, id)
    ensures OwnsInv(Release(o, c, op), id)
  {
  }

  /** A put goes forward, and nothing of an object that is not being freed is taken away. */
  lemma GoLeaves(o: Owner, c: nat, call: Call, fails: bool, id: ObjectId)
    requires Tidy(o, id) && !call.Dropping? && (call.id == id ==> CallOwnsOk(o, call))
    ensures var o' := GoOn(o, c, call, fails);
            && (id in o.tiers.index ==> id in o'.tiers.index) && (id in o.refs ==> id in o'.refs)
            && (o.self in Holders(o.locations, id) ==> o.self in Holders(o'.locations, id))
            && (call.id == id && GoCall(o.tiers, call, fails).Some? ==>
                CallOwnsOk(o', GoCall(o.tiers, call, fails).value))
            && (call == PutCounted(id) ==> o.self in Holders(o'.locations, id))
  {
    HoldersAfter(o.locations, call.id, o.self, id);
  }

  lemma GoOwns(o: Owner, c: nat, fails: bool, id: ObjectId)
    requires OwnsInv(o, id) && Tidy(o, id) && c in o.calls && !o.calls[c].Dropping?
    ensures OwnsInv(GoOn(o, c, o.calls[c], fails), id)
  {
    if id !in o.freed { GoLeaves(o, c, o.calls[c], fails, id); }
  }

  lemma TierOwns(o: Owner, t: Tiers.Step, id: ObjectId)
    requires OwnsInv(o, id)
    ensures OwnsInv(o.(tiers := Tiers.Next(o.tiers, t)), id)
  {
    if id in o.tiers.index { IndexStays(o.tiers, t, id); }
  }

  lemma IndexStays(s: Store, t: Tiers.Step, id: ObjectId)
    requires id in s.index
    ensures id in Tiers.Next(s, t).index
  {
  }

  lemma OwnsStep(o: Owner, step: Step, id: ObjectId)
    requires OwnsInv(o, id) && Tidy(o, id)
    ensures OwnsInv(Next(o, step), id)
  {
    match step
    case Tier(t) => TierOwns(o, t, id);
    case DecLocal(c, k) => ReleaseOwns(o, c, RC.DecLocal(k), id);
    case StartRegister(_, k, node) => HoldersAfter(o.locations, k, node, id);
    case StartDrop(_, k, node) => HoldersAfter(o.locations, k, node, id);
    case Go(c, fails) =>
      if c in o.calls {
        if o.calls[c].Dropping? { ReleaseOwns(o, c, RC.RemoveBorrower(o.calls[c].id, o.calls[c].node), id); }
        else { GoOwns(o, c, fails, id); }
      }
    case _ =>
  }

  ghost predicate Inv(o: Owner, id: ObjectId) { TiersInv(o, id) && Tidy(o, id) && OwnsInv(o, id) }

  lemma InvStep(o: Owner, step: Step, id: ObjectId)
    requires Inv(o, id)
    ensures Inv(Next(o, step), id) && Next(o, step).self == o.self
  {
    TiersStep(o, step, id);
    TidyStep(o, step, id);
    OwnsStep(o, step, id);
  }

  lemma {:induction false} InvOverRuns(self: NodeId, steps: seq<Step>, id: ObjectId)
    ensures Inv(Run(self, steps), id) && Run(self, steps).self == self
  {
    if steps == [] {
    } else {
      InvOverRuns(self, steps[..|steps| - 1], id);
      InvStep(Run(self, steps[..|steps| - 1]), steps[|steps| - 1], id);
    }
  }

  // ---------- An id is put once ----------

  predicate IsPut(o: Owner, c: nat, id: ObjectId) {
    c in o.calls && o.calls[c].id == id && (o.calls[c].PutSealed? || o.calls[c].PutIndexed? || o.calls[c].PutCounted?)
  }

  ghost predicate PutOnce(o: Owner, id: ObjectId) {
    && (id in o.put ==> id in o.tiers.sealed)
    && (forall c :: IsPut(o, c, id) ==> id in o.tiers.sealed && id !in o.put)
    && (forall c, d :: IsPut(o, c, id) && IsPut(o, d, id) ==> c == d)
  }

  lemma EffectSeals(s: Store, e: Effect, id: ObjectId)
    requires id in s.sealed
    ensures id in Apply(s, e).sealed
  {
  }

  lemma SealedStays(o: Owner, step: Step, id: ObjectId)
    requires id in o.tiers.sealed
    ensures id in Next(o, step).tiers.sealed
  {
    match step
    case Tier(t) => EffectSeals(o.tiers, Act(o.tiers, t).0, id);
    case Go(c, fails) => if c in o.calls { EffectSeals(o.tiers, GoEffect(o.tiers, o.calls[c], fails), id); }
    case _ =>
  }

  /** No step but the beginning of a put makes a call a put of `id`. */
  lemma PutsStep(o: Owner, step: Step, c: nat, id: ObjectId)
    requires IsPut(Next(o, step), c, id) && !IsPut(o, c, id)
    ensures step.StartPut? && step.c == c && step.id == id && id !in o.tiers.sealed
  {
  }

  /** A put ends exactly with its self-entry. */
  lemma PutEnds(o: Owner, step: Step, id: ObjectId)
    requires id in Next(o, step).put && id !in o.put
    ensures step.Go? && step.c in o.calls && o.calls[step.c] == PutCounted(id) && step.c !in Next(o, step).calls
  {
  }

  lemma PutOnceStep(o: Owner, step: Step, id: ObjectId)
    requires PutOnce(o, id)
    ensures PutOnce(Next(o, step), id)
  {
    var o' := Next(o, step);
    if id in o.tiers.sealed { SealedStays(o, step, id); }
    if id in o'.put && id !in o.put {
      PutEnds(o, step, id);
      assert IsPut(o, step.c, id);
    }
    forall c | IsPut(o', c, id) ensures id in o'.tiers.sealed && id !in o'.put {
      if !IsPut(o, c, id) { PutsStep(o, step, c, id); }
    }
    forall c, d | IsPut(o', c, id) && IsPut(o', d, id) ensures c == d {
      if !IsPut(o, c, id) { PutsStep(o, step, c, id); }
      if !IsPut(o, d, id) { PutsStep(o, step, d, id); }
    }
  }

  lemma {:induction false} PutOnceOverRuns(self: NodeId, steps: seq<Step>, id: ObjectId)
    ensures PutOnce(Run(self, steps), id)
  {
    if steps == [] {
    } else {
      PutOnceOverRuns(self, steps[..|steps| - 1], id);
      PutOnceStep(Run(self, steps[..|steps| - 1]), steps[|steps| - 1], id);
    }
  }

  ghost predicate NoPut(o: Owner, id: ObjectId) {
    id in o.tiers.sealed && forall c :: !IsPut(o, c, id)
  }

  lemma NoPutStep(o: Owner, step: Step, id: ObjectId)
    requires NoPut(o, id)
    ensures NoPut(Next(o, step), id)
  {
    SealedStays(o, step, id);
    forall c ensures !IsPut(Next(o, step), c, id) { if IsPut(Next(o, step), c, id) { PutsStep(o, step, c, id); } }
  }

  lemma {:induction false} NoPutOverRuns(o: Owner, more: seq<Step>, id: ObjectId)
    requires NoPut(o, id)
    ensures NoPut(RunFrom(o, more), id)
  {
    if more == [] {
    } else {
      NoPutOverRuns(o, more[..|more| - 1], id);
      NoPutStep(RunFrom(o, more[..|more| - 1]), more[|more| - 1], id);
    }
  }

  // ---------- The tiers, as they were ----------

  predicate NoSeals(ts: seq<Tiers.Step>) { forall i :: 0 <= i < |ts| ==> !ts[i].Seal? && !ts[i].PutIndex? }

  function AsTiers(ts: seq<Tiers.Step>): seq<Step> { seq(|ts|, i requires 0 <= i < |ts| => Tier(ts[i])) }

  /** Every run of spills, resolves and Pulls is possible beside whatever else the owner is doing, and
      touches nothing but the tiers. */
  lemma {:induction false} TiersRunInside(o: Owner, ts: seq<Tiers.Step>)
    requires NoSeals(ts)
    ensures RunFrom(o, AsTiers(ts)) == o.(tiers := Tiers.Run(o.tiers, ts))
  {
    if ts == [] {
    } else {
      TiersRunInside(o, ts[..|ts| - 1]);
      assert AsTiers(ts)[..|ts| - 1] == AsTiers(ts[..|ts| - 1]);
    }
  }

  // ---------- A put from beginning to end ----------

  /** The four actions of a put, back to back. */
  function PutAlone(o: Owner, c: nat, id: ObjectId, obj: Object): Owner {
    Next(Next(Next(Next(o, StartPut(c, id, obj)), Go(c, false)), Go(c, false)), Go(c, false))
  }

  lemma PutSeals(o: Owner, c: nat, id: ObjectId, obj: Object)
    requires c !in o.calls && id !in o.tiers.sealed
    ensures Next(Next(o, StartPut(c, id, obj)), Go(c, false)) ==
            o.(tiers := o.tiers.(plasma := o.tiers.plasma[id := obj], sealed := o.tiers.sealed[id := obj],
                                 index := o.tiers.index[id := PlasmaIndex(obj.metadata, |obj.data|)]),
               calls := o.calls[c := PutIndexed(id)])
  {
    var a := Next(o, StartPut(c, id, obj));
    assert a.calls[c := PutIndexed(id)] == o.calls[c := PutIndexed(id)];
  }

  lemma PutCounts(o: Owner, c: nat, id: ObjectId, rest: map<nat, Call>)
    requires c !in rest && o.calls == rest[c := PutIndexed(id)]
    ensures Next(Next(o, Go(c, false)), Go(c, false)) ==
            o.(refs := RC.Apply(o.refs, RC.AddOwned(id)).0, locations := Register(o.locations, id, o.self),
               calls := rest, put := o.put + {id})
  {
    var a := o.(refs := RC.Apply(o.refs, RC.AddOwned(id)).0, calls := rest[c := PutCounted(id)]);
    assert o.calls[c := PutCounted(id)] == rest[c := PutCounted(id)];
    assert Next(o, Go(c, false)) == a;
    assert a.calls - {c} == rest;
  }

  /** A put of a fresh id that nothing interrupts: the object is in plasma and indexed with its metadata and
      size, has one local reference more, is offered to peers, and nothing else has changed. */
  lemma PutAloneDoes(o: Owner, c: nat, id: ObjectId, obj: Object)
    requires c !in o.calls && id !in o.tiers.sealed
    ensures var o' := PutAlone(o, c, id, obj);
            && o'.tiers == o.tiers.(plasma := o.tiers.plasma[id := obj], sealed := o.tiers.sealed[id := obj],
                                    index := o.tiers.index[id := PlasmaIndex(obj.metadata, |obj.data|)])
            && id in o'.refs && o'.refs[id].localCount == RC.EntryOf(o.refs, id).localCount + 1
            && (forall k :: k != id ==> (k in o'.refs <==> k in o.refs) && (k in o.refs ==> o'.refs[k] == o.refs[k]))
            && (forall k :: Holders(o'.locations, k) == Holders(o.locations, k) + if k == id then {o.self} else {})
            && o'.calls == o.calls && o'.put == o.put + {id} && o'.freed == o.freed && o'.self == o.self
  {
    PutSeals(o, c, id, obj);
    PutCounts(Next(Next(o, StartPut(c, id, obj)), Go(c, false)), c, id, o.calls);
  }

  // ---------- The local count is what was taken and dropped ----------

  predicate CountsPut(o: Owner, step: Step, id: ObjectId) {
    step.Go? && step.c in o.calls && o.calls[step.c] == PutIndexed(id)
  }

  /** The owner's own references to `id`: one from its put and one per clone, less the drops. */
  function LocalHolds(self: NodeId, steps: seq<Step>, id: ObjectId): nat {
    if steps == [] then 0
    else
      var before, last := steps[..|steps| - 1], steps[|steps| - 1];
      var o, n := Run(self, before), LocalHolds(self, before, id);
      if CountsPut(o, last, id) || (last == IncLocal(id) && id in o.refs) then n + 1
      else if last.DecLocal? && last.id == id && last.c !in o.calls && n > 0 then n - 1
      else n
  }

  function LocalCount(o: Owner, id: ObjectId): nat { RC.EntryOf(o.refs, id).localCount }

  lemma GoLocalCount(o: Owner, c: nat, fails: bool, id: ObjectId)
    requires c in o.calls
    ensures LocalCount(Next(o, Go(c, fails)), id) ==
            LocalCount(o, id) + if o.calls[c] == PutIndexed(id) then 1 else 0
  {
  }

  lemma LocalCountStep(o: Owner, step: Step, id: ObjectId)
    requires Tidy(o, id)
    ensures LocalCount(Next(o, step), id) ==
            if CountsPut(o, step, id) || (step == IncLocal(id) && id in o.refs) then LocalCount(o, id) + 1
            else if step.DecLocal? && step.id == id && step.c !in o.calls && LocalCount(o, id) > 0
            then LocalCount(o, id) - 1
            else LocalCount(o, id)
  {
    match step
    case Go(c, fails) => if c in o.calls { GoLocalCount(o, c, fails, id); }
    case _ =>
  }

  lemma {:induction false} LocalHoldsCounted(self: NodeId, steps: seq<Step>, id: ObjectId)
    ensures LocalCount(Run(self, steps), id) == LocalHolds(self, steps, id)
  {
    if steps == [] {
    } else {
      var before := steps[..|steps| - 1];
      LocalHoldsCounted(self, before, id);
      InvOverRuns(self, before, id);
      LocalCountStep(Run(self, before), steps[|steps| - 1], id);
    }
  }

  // ---------- Kept until the last hold is given up ----------

  /** The step gives up the only thing that still pins `id`: the sole local reference when no peer
      borrows it, or the sole borrower when no local reference is left. */
  predicate GivesUpLastHold(o: Owner, step: Step, id: ObjectId) {
    && id in o.refs
    && match step
       case DecLocal(c, k) => c !in o.calls && k == id && o.refs[id].localCount == 1 && o.refs[id].borrowers == {}
       case Go(c, _) =>
         && c in o.calls && o.calls[c].Dropping? && o.calls[c].id == id
         && o.refs[id].localCount == 0 && o.refs[id].borrowers == {o.calls[c].node}
       case _ => false
  }

  lemma ReleaseFrees(o: Owner, c: nat, op: RC.Op, id: ObjectId)
    requires Tidy(o, id) && (op.DecLocal? || op.RemoveBorrower?) && id !in o.freed
    ensures id in Release(o, c, op).freed <==>
            op.id == id && id in o.refs &&
            if op.DecLocal? then o.refs[id].localCount == 1 && o.refs[id].borrowers == {}
            else o.refs[id].localCount == 0 && o.refs[id].borrowers == {op.worker}
  {
    if op.RemoveBorrower? && id in o.refs {
      var b := o.refs[id].borrowers;
      assert b == {op.worker} <==> b - {op.worker} == {} && b != {};
    }
  }

  lemma FreedStep(o: Owner, step: Step, id: ObjectId)
    requires Tidy(o, id) && id !in o.freed
    ensures id in Next(o, step).freed <==> GivesUpLastHold(o, step, id)
  {
    match step
    case DecLocal(c, k) => ReleaseFrees(o, c, RC.DecLocal(k), id);
    case Go(c, _) =>
      if c in o.calls && o.calls[c].Dropping? {
        ReleaseFrees(o, c, RC.RemoveBorrower(o.calls[c].id, o.calls[c].node), id);
      }
    case _ =>
  }

  lemma Snoc(self: NodeId, steps: seq<Step>, step: Step)
    ensures Run(self, steps + [step]) == Next(Run(self, steps), step)
  {
    var all := steps + [step];
    assert all[..|all| - 1] == steps && all[|all| - 1] == step;
  }

  lemma KeptNow(o: Owner, id: ObjectId)
    requires Inv(o, id) && id in o.put && id !in o.freed
    ensures id in o.tiers.index && id in o.tiers.sealed && id in o.refs && o.self in Holders(o.locations, id)
    ensures o.refs[id].localCount > 0 || o.refs[id].borrowers != {}
    ensures (id in o.tiers.plasma && o.tiers.plasma[id] == o.tiers.sealed[id]) ||
            (id in o.tiers.files && o.tiers.files[id] == o.tiers.sealed[id])
    ensures Readable(o.tiers, id) <==> id in o.tiers.plasma || id !in o.tiers.purged
  {
  }

  /** In every interleaving, from the end of its put until a step gives up the last hold, and whatever is
      spilled, read or freed meanwhile: an object is indexed, pinned and offered to peers, its local count
      is one for the put and one per clone less the drops, it has an intact
      copy, and is readable unless a failed read purged its only entry. A free of it begins exactly when
      a step gives up the last hold. */
  lemma {:induction false} KeptUntilLastHold(self: NodeId, steps: seq<Step>, step: Step, id: ObjectId)
    requires var o := Run(self, steps); id in o.put && id !in o.freed
    ensures var o := Run(self, steps);
            && id in o.tiers.index && id in o.tiers.sealed && id in o.refs && self in Holders(o.locations, id)
            && o.refs[id].localCount == LocalHolds(self, steps, id)
            && (o.refs[id].localCount > 0 || o.refs[id].borrowers != {})
            && ((id in o.tiers.plasma && o.tiers.plasma[id] == o.tiers.sealed[id]) ||
                (id in o.tiers.files && o.tiers.files[id] == o.tiers.sealed[id]))
            && (Readable(o.tiers, id) <==> id in o.tiers.plasma || id !in o.tiers.purged)
    ensures id in Run(self, steps + [step]).freed <==> GivesUpLastHold(Run(self, steps), step, id)
  {
    InvOverRuns(self, steps, id);
    LocalHoldsCounted(self, steps, id);
    KeptNow(Run(self, steps), id);
    FreedStep(Run(self, steps), step, id);
    Snoc(self, steps, step);
  }

  /** Frees or not, whatever a resolve or a Pull returns is what was first sealed under that id. */
  lemma {:induction false} ReadsAreFaithful(self: NodeId, steps: seq<Step>, p: nat)
    requires p in Run(self, steps).tiers.procs && Run(self, steps).tiers.procs[p].Returned?
    ensures var s := Run(self, steps).tiers;
            s.procs[p].id in s.sealed && s.procs[p].obj == s.sealed[s.procs[p].id]
  {
    InvOverRuns(self, steps, Run(self, steps).tiers.procs[p].id);
    assert ProcFaithful(Run(self, steps).tiers, Run(self, steps).tiers.procs[p]);
  }

  // ---------- The directory as the raylet keeps it ----------

  class ObjectDirectory {
    var inner: Locations

    constructor ()
      ensures inner == map[]
    {
      inner := map[];
    }

    ghost predicate Valid()
      reads this
    {
      forall id :: id in inner ==> inner[id] != {}
    }

    method RegisterHolder(id: ObjectId, node: NodeId)
      requires Valid()
      modifies this
      ensures Valid()
      ensures forall k :: Holders(inner, k) == old(Holders(inner, k)) + (if k == id then {node} else {})
    {
      forall k ensures Holders(Register(inner, id, node), k) == Holders(inner, k) + (if k == id then {node} else {}) {
        HoldersAfter(inner, id, node, k);
      }
      var holders := if id in inner then inner[id] else {};
      inner := inner[id := holders + {node}];
      assert node in inner[id];
    }

    method RemoveHolder(id: ObjectId, node: NodeId)
      requires Valid()
      modifies this
      ensures Valid()
      ensures forall k :: Holders(inner, k) == old(Holders(inner, k)) - (if k == id then {node} else {})
    {
      forall k ensures Holders(Remove(inner, id, node), k) == Holders(inner, k) - (if k == id then {node} else {}) {
        HoldersAfter(inner, id, node, k);
      }
      if id in inner {
        var holders := inner[id] - {node};
        if holders == {} {
          inner := inner - {id};
        } else {
          inner := inner[id := holders];
        }
      }
    }
  }
}
