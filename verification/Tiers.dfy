/** The tiered object store: plasma, spill files with their in-memory directory, and the owner's
    local index, as seen by concurrent seals, spills, local resolves and remote Pulls.

    Each thread moves through its operation one lock acquisition or one file access at a time, and
    may fail at any point. No frees here: `Lifecycle` adds them. */
module Tiers {
  import opened Bytes

  type ObjectId = seq<byte>

  datatype Object = Object(metadata: seq<byte>, data: seq<byte>)

  datatype PlasmaIndex = PlasmaIndex(metadata: seq<byte>, dataSize: nat)

  /** Where a read has got to: the plasma get, the spill-directory lookup, the file read, the removal of
      an entry whose file could not be read, the reseal. */
  datatype Stage = AtPlasma | AtDirectory | AtFile | Purging | Restored(obj: Object) | Resealed(obj: Object)

  datatype Proc =
    | Sealing(id: ObjectId, obj: Object)
    | SpillRead(id: ObjectId, obj: Object)
    | SpillWritten(id: ObjectId, obj: Object)
    | SpillStored(id: ObjectId)
    | Resolving(id: ObjectId, index: PlasmaIndex, stage: Stage)
    | Pulling(id: ObjectId, stage: Stage)
    | Returned(id: ObjectId, obj: Object)
    | NotFound(id: ObjectId)

  /** `sealed` is history: the bytes each id was first sealed with. `purged` holds the ids whose last
      directory change was a removal after a failed read. */
  datatype Store = Store(
    plasma: map<ObjectId, Object>,
    files: map<ObjectId, Object>,
    directory: set<ObjectId>,
    index: map<ObjectId, PlasmaIndex>,
    procs: map<nat, Proc>,
    sealed: map<ObjectId, Object>,
    purged: set<ObjectId>)

  datatype Step =
    | Seal(p: nat, id: ObjectId, obj: Object)
    | PutIndex(p: nat)
    | StartSpill(p: nat, id: ObjectId)
    | WriteSpillFile(p: nat)
    | RecordSpill(p: nat)
    | DeleteFromPlasma(p: nat)
    | StartResolve(p: nat, id: ObjectId)
    | StartPull(p: nat, id: ObjectId)
    | GetFromPlasma(p: nat)
    | LookUpSpill(p: nat)
    | ReadSpillFile(p: nat, intact: bool)
    | PurgeEntry(p: nat)
    | Reseal(p: nat)
    | Reopen(p: nat)
    | Fail(p: nat)

  /** What one action does to the shared tiers. */
  datatype Effect =
    | Nothing
    | FirstSeal(id: ObjectId, obj: Object)
    | PutPlasma(id: ObjectId, obj: Object)
    | PutEntry(id: ObjectId, entry: PlasmaIndex)
    | PutFile(id: ObjectId, obj: Object)
    | List(id: ObjectId)
    | Evict(id: ObjectId)
    | Purge(id: ObjectId)
    | Unindex(id: ObjectId)     // the last three belong to frees
    | Unlist(id: ObjectId)
    | Unlink(id: ObjectId)

  const EMPTY := Store(map[], map[], {}, map[], map[], map[], {})

  function Apply(s: Store, e: Effect): Store {
    match e
    case Nothing => s
    case FirstSeal(id, obj) => s.(plasma := s.plasma[id := obj], sealed := s.sealed[id := obj])
    case PutPlasma(id, obj) => s.(plasma := s.plasma[id := obj])
    case PutEntry(id, entry) => s.(index := s.index[id := entry])
    case PutFile(id, obj) => s.(files := s.files[id := obj])
    case List(id) => s.(directory := s.directory + {id}, purged := s.purged - {id})
    case Evict(id) => s.(plasma := s.plasma - {id})
    case Purge(id) => s.(directory := s.directory - {id}, purged := s.purged + {id})
    case Unindex(id) => s.(index := s.index - {id})
    case Unlist(id) => s.(directory := s.directory - {id}, purged := s.purged - {id})
    case Unlink(id) => s.(files := s.files - {id})
  }

  predicate Reads(proc: Proc, stage: Stage) {
    (proc.Resolving? || proc.Pulling?) && proc.stage == stage
  }

  predicate HasRestored(proc: Proc) {
    (proc.Resolving? || proc.Pulling?) && proc.stage.Restored?
  }

  /** What a read returns: a resolve pairs the bytes with the index's metadata. */
  function Result(proc: Proc, obj: Object): Proc
    requires proc.Resolving? || proc.Pulling?
  {
    if proc.Resolving? then Returned(proc.id, Object(proc.index.metadata, obj.data)) else Returned(proc.id, obj)
  }

  /** The first action of an operation, by a thread that is not in one. */
  function Begin(s: Store, step: Step): (Effect, Option<Proc>) {
    match step
    case Seal(_, id, obj) =>
      if id in s.sealed then (Nothing, None) else (FirstSeal(id, obj), Some(Sealing(id, obj)))
    case StartSpill(_, id) =>
      (Nothing, if id in s.plasma then Some(SpillRead(id, s.plasma[id])) else None)
    case StartResolve(_, id) =>
      (Nothing, if id in s.index then Some(Resolving(id, s.index[id], AtPlasma)) else None)
    case StartPull(_, id) => (Nothing, Some(Pulling(id, AtPlasma)))
    case _ => (Nothing, None)
  }

  /** The next action of a thread inside an operation; `None` when the operation is over. */
  function Continue(s: Store, step: Step, proc: Proc): (Effect, Option<Proc>) {
    match step
    case PutIndex(_) =>
      if !proc.Sealing? then (Nothing, Some(proc))
      else (PutEntry(proc.id, PlasmaIndex(proc.obj.metadata, |proc.obj.data|)), None)
    case WriteSpillFile(_) =>
      if !proc.SpillRead? then (Nothing, Some(proc))
      else (PutFile(proc.id, proc.obj), Some(SpillWritten(proc.id, proc.obj)))
    case RecordSpill(_) =>
      if !proc.SpillWritten? then (Nothing, Some(proc)) else (List(proc.id), Some(SpillStored(proc.id)))
    case DeleteFromPlasma(_) =>
      if !proc.SpillStored? then (Nothing, Some(proc)) else (Evict(proc.id), None)
    case GetFromPlasma(_) =>
      if !Reads(proc, AtPlasma) then (Nothing, Some(proc))
      else (Nothing, Some(if proc.id in s.plasma then Result(proc, s.plasma[proc.id]) else proc.(stage := AtDirectory)))
    case LookUpSpill(_) =>
      if !Reads(proc, AtDirectory) then (Nothing, Some(proc))
      else (Nothing, Some(if proc.id in s.directory then proc.(stage := AtFile) else NotFound(proc.id)))
    case ReadSpillFile(_, intact) =>
      if !Reads(proc, AtFile) then (Nothing, Some(proc))
      else if intact && proc.id in s.files then (Nothing, Some(proc.(stage := Restored(s.files[proc.id]))))
      else (Nothing, Some(proc.(stage := Purging)))
    case PurgeEntry(_) =>
      if !Reads(proc, Purging) then (Nothing, Some(proc)) else (Purge(proc.id), None)
    case Reseal(_) =>
      if !HasRestored(proc) then (Nothing, Some(proc))
      else (if proc.id in s.plasma then Nothing else PutPlasma(proc.id, proc.stage.obj),
            Some(if proc.Resolving? then Result(proc, proc.stage.obj) else proc.(stage := Resealed(proc.stage.obj))))
    case Reopen(_) =>
      if !(proc.Pulling? && proc.stage.Resealed?) then (Nothing, Some(proc))
      else (Nothing, Some(if proc.id in s.plasma then Returned(proc.id, s.plasma[proc.id]) else NotFound(proc.id)))
    case Fail(_) => (Nothing, if proc.Returned? || proc.NotFound? then Some(proc) else None)
    case _ => (Nothing, Some(proc))
  }

  function Act(s: Store, step: Step): (Effect, Option<Proc>) {
    if step.p in s.procs then Continue(s, step, s.procs[step.p]) else Begin(s, step)
  }

  function SetProc(procs: map<nat, Proc>, p: nat, proc: Option<Proc>): map<nat, Proc> {
    if proc.Some? then procs[p := proc.value] else procs - {p}
  }

  /** One action of one thread; an action that is not possible changes nothing. */
  function Next(s: Store, step: Step): Store {
    var (effect, proc) := Act(s, step);
    Apply(s, effect).(procs := SetProc(s.procs, step.p, proc))
  }

  function Run(s: Store, steps: seq<Step>): Store {
    if steps == [] then s else Next(Run(s, steps[..|steps| - 1]), steps[|steps| - 1])
  }

  /** Some interleaving of some threads leads here. */
  ghost predicate Reachable(s: Store) {
    exists steps :: Run(EMPTY, steps) == s
  }

  // ---------- The invariant, object by object ----------

  predicate Listed(s: Store, id: ObjectId) { id in s.directory || id in s.purged }

  /** Whatever copies there are agree with what was first sealed. */
  predicate Faithful(s: Store, id: ObjectId) {
    && (id in s.plasma ==> id in s.sealed && s.plasma[id] == s.sealed[id])
    && (id in s.files ==> id in s.sealed && s.files[id] == s.sealed[id])
    && (id in s.index ==> id in s.sealed && s.index[id] == PlasmaIndex(s.sealed[id].metadata, |s.sealed[id].data|))
  }

  /** There is a copy, and it can be found unless a failed read purged its entry. */
  predicate Kept(s: Store, id: ObjectId) {
    && (Listed(s, id) ==> id in s.files)
    && !(id in s.directory && id in s.purged)
    && (id in s.sealed ==> id in s.plasma || Listed(s, id))
  }

  predicate IsSealed(s: Store, id: ObjectId, obj: Object) { id in s.sealed && obj == s.sealed[id] }

  /** The bytes a thread holds, and the metadata it will answer with, are the sealed ones. */
  predicate ProcFaithful(s: Store, proc: Proc) {
    match proc
    case Sealing(id, obj) => IsSealed(s, id, obj)
    case SpillRead(id, obj) => IsSealed(s, id, obj)
    case SpillWritten(id, obj) => IsSealed(s, id, obj)
    case SpillStored(_) => true
    case Resolving(id, index, stage) =>
      && id in s.sealed && index.metadata == s.sealed[id].metadata
      && (stage.Restored? || stage.Resealed? ==> stage.obj == s.sealed[id])
    case Pulling(id, stage) => stage.Restored? || stage.Resealed? ==> IsSealed(s, id, stage.obj)
    case Returned(id, obj) => IsSealed(s, id, obj)
    case NotFound(_) => true
  }

  /** What a thread has been told about files and entries is still so. */
  predicate ProcPlaced(s: Store, proc: Proc) {
    match proc
    case SpillWritten(id, _) => id in s.files
    case SpillStored(id) => Listed(s, id)
    case Resolving(id, _, stage) => (stage != AtPlasma ==> Listed(s, id)) &&
        (stage.AtFile? || stage.Purging? ==> id in s.files)
    case Pulling(id, stage) => stage.AtFile? || stage.Purging? ==> id in s.files
    case _ => true
  }

  ghost predicate BytesInv(s: Store, id: ObjectId) {
    Faithful(s, id) && forall p :: p in s.procs && s.procs[p].id == id ==> ProcFaithful(s, s.procs[p])
  }

  ghost predicate CopyInv(s: Store, id: ObjectId) {
    Kept(s, id) && forall p :: p in s.procs && s.procs[p].id == id ==> ProcPlaced(s, s.procs[p])
  }

  /** Some reader could still get at the object: through plasma, or through the spill directory. */
  predicate Readable(s: Store, id: ObjectId) {
    id in s.plasma || id in s.directory
  }

  // ---------- The bytes stay right ----------

  /** An effect on `id` writes the sealed bytes, if it writes any. */
  predicate WritesSealed(s: Store, e: Effect, id: ObjectId) {
    match e
    case FirstSeal(k, _) => k == id ==> id !in s.sealed
    case PutPlasma(k, obj) => k == id ==> IsSealed(s, id, obj)
    case PutFile(k, obj) => k == id ==> IsSealed(s, id, obj)
    case PutEntry(k, entry) =>
      k == id ==> id in s.sealed && entry == PlasmaIndex(s.sealed[id].metadata, |s.sealed[id].data|)
    case _ => true
  }

  lemma EffectFaithful(s: Store, e: Effect, id: ObjectId)
    requires Faithful(s, id) && WritesSealed(s, e, id)
    ensures Faithful(Apply(s, e), id)
    ensures id in s.sealed ==> id in Apply(s, e).sealed && Apply(s, e).sealed[id] == s.sealed[id]
  {
  }

  lemma BeginFaithful(s: Store, step: Step, id: ObjectId)
    requires Faithful(s, id)
    ensures var (e, proc) := Begin(s, step);
            WritesSealed(s, e, id) && (proc.Some? && proc.value.id == id ==> ProcFaithful(Apply(s, e), proc.value))
  {
  }

  lemma ContinueFaithful(s: Store, step: Step, proc: Proc, id: ObjectId)
    requires Faithful(s, id) && (proc.id == id ==> ProcFaithful(s, proc))
    ensures var (e, proc') := Continue(s, step, proc);
            WritesSealed(s, e, id) && (proc'.Some? && proc'.value.id == id ==> ProcFaithful(Apply(s, e), proc'.value))
  {
  }

  /** A thread's update on top of an effect that loses nothing of what was sealed. */
  lemma ProcsFaithful(s: Store, mid: Store, p: nat, proc: Option<Proc>, id: ObjectId)
    requires forall q :: q in s.procs && s.procs[q].id == id ==> ProcFaithful(s, s.procs[q])
    requires id in s.sealed ==> id in mid.sealed && mid.sealed[id] == s.sealed[id]
    requires proc.Some? && proc.value.id == id ==> ProcFaithful(mid, proc.value)
    ensures var s' := mid.(procs := SetProc(s.procs, p, proc));
            forall q :: q in s'.procs && s'.procs[q].id == id ==> ProcFaithful(s', s'.procs[q])
  {
  }

  lemma ActFaithful(s: Store, step: Step, id: ObjectId)
    requires BytesInv(s, id)
    ensures var (e, proc) := Act(s, step);
            WritesSealed(s, e, id) && (proc.Some? && proc.value.id == id ==> ProcFaithful(Apply(s, e), proc.value))
  {
    if step.p in s.procs { ContinueFaithful(s, step, s.procs[step.p], id); } else { BeginFaithful(s, step, id); }
  }

  lemma BytesStep(s: Store, step: Step, id: ObjectId)
    requires BytesInv(s, id)
    ensures BytesInv(Next(s, step), id)
  {
    var (e, proc) := Act(s, step);
    ActFaithful(s, step, id);
    EffectFaithful(s, e, id);
    ProcsFaithful(s, Apply(s, e), step.p, proc, id);
  }

  // ---------- A copy is kept ----------

  /** An effect on `id` lists it only with its file in place, and evicts it only when listed. */
  predicate KeepsCopy(s: Store, e: Effect, id: ObjectId) {
    match e
    case List(k) => k == id ==> id in s.files
    case Evict(k) => k == id ==> Listed(s, id)
    case Purge(k) => k == id ==> id in s.files
    case Unlist(k) => k != id
    case Unlink(k) => k != id
    case _ => true
  }

  lemma EffectKept(s: Store, e: Effect, id: ObjectId)
    requires Kept(s, id) && KeepsCopy(s, e, id)
    ensures Kept(Apply(s, e), id)
    ensures (id in s.files ==> id in Apply(s, e).files) && (Listed(s, id) ==> Listed(Apply(s, e), id))
  {
  }

  lemma BeginKeeps(s: Store, step: Step, id: ObjectId)
    ensures var (e, proc) := Begin(s, step);
            KeepsCopy(s, e, id) && (proc.Some? ==> ProcPlaced(Apply(s, e), proc.value))
  {
  }

  lemma ContinueKeeps(s: Store, step: Step, proc: Proc, id: ObjectId)
    requires Kept(s, id) && (proc.id == id ==> ProcFaithful(s, proc) && ProcPlaced(s, proc))
    ensures var (e, proc') := Continue(s, step, proc);
            KeepsCopy(s, e, id) && (proc'.Some? && proc'.value.id == id ==> ProcPlaced(Apply(s, e), proc'.value))
  {
  }

  lemma ProcsPlaced(s: Store, mid: Store, p: nat, proc: Option<Proc>, id: ObjectId)
    requires forall q :: q in s.procs && s.procs[q].id == id ==> ProcPlaced(s, s.procs[q])
    requires (id in s.files ==> id in mid.files) && (Listed(s, id) ==> Listed(mid, id))
    requires proc.Some? && proc.value.id == id ==> ProcPlaced(mid, proc.value)
    ensures var s' := mid.(procs := SetProc(s.procs, p, proc));
            forall q :: q in s'.procs && s'.procs[q].id == id ==> ProcPlaced(s', s'.procs[q])
  {
  }

  lemma ActKeeps(s: Store, step: Step, id: ObjectId)
    requires BytesInv(s, id) && CopyInv(s, id)
    ensures var (e, proc) := Act(s, step);
            KeepsCopy(s, e, id) && (proc.Some? && proc.value.id == id ==> ProcPlaced(Apply(s, e), proc.value))
  {
    if step.p in s.procs { ContinueKeeps(s, step, s.procs[step.p], id); } else { BeginKeeps(s, step, id); }
  }

  lemma CopyStep(s: Store, step: Step, id: ObjectId)
    requires BytesInv(s, id) && CopyInv(s, id)
    ensures CopyInv(Next(s, step), id)
    ensures Listed(s, id) ==> Listed(Next(s, step), id)
  {
    var (e, proc) := Act(s, step);
    ActKeeps(s, step, id);
    EffectKept(s, e, id);
    ProcsPlaced(s, Apply(s, e), step.p, proc, id);
  }

  lemma {:induction false} InvOverRuns(steps: seq<Step>, id: ObjectId)
    ensures BytesInv(Run(EMPTY, steps), id) && CopyInv(Run(EMPTY, steps), id)
  {
    if steps == [] {
    } else {
      var s, step := Run(EMPTY, steps[..|steps| - 1]), steps[|steps| - 1];
      InvOverRuns(steps[..|steps| - 1], id);
      BytesStep(s, step, id);
      CopyStep(s, step, id);
    }
  }

  lemma ReachableInv(s: Store, id: ObjectId)
    requires Reachable(s)
    ensures BytesInv(s, id) && CopyInv(s, id)
  {
    var steps :| Run(EMPTY, steps) == s;
    InvOverRuns(steps, id);
  }

  // ---------- Main results ----------

  /** In every intermediate state of every interleaving, failed steps included: each indexed object
      has an intact copy in plasma or on disk; whatever a resolve or Pull has returned is exactly the
      bytes first sealed; and the object can be read, except when its last directory change was a
      purge after a failed read and plasma does not hold it either. */
  lemma StoreRefinesMap(s: Store, id: ObjectId)
    requires Reachable(s) && id in s.index
    ensures id in s.sealed
    ensures (id in s.plasma && s.plasma[id] == s.sealed[id]) || (id in s.files && s.files[id] == s.sealed[id])
    ensures forall p :: p in s.procs && s.procs[p].Returned? && s.procs[p].id == id ==> s.procs[p].obj == s.sealed[id]
    ensures Readable(s, id) <==> id in s.plasma || id !in s.purged
  {
    ReachableInv(s, id);
    forall p | p in s.procs && s.procs[p].Returned? && s.procs[p].id == id
      ensures s.procs[p].obj == s.sealed[id]
    {
      assert ProcFaithful(s, s.procs[p]);
    }
  }

  /** A resolve that missed plasma finds a spill entry, however other threads have moved the object
      since, unless the entry was purged: the local read path has no spurious "not found". */
  lemma ResolveFindsSpilled(s: Store, p: nat)
    requires Reachable(s) && p in s.procs && s.procs[p].Resolving? && s.procs[p].stage == AtDirectory
    ensures Next(s, LookUpSpill(p)).procs[p].NotFound? <==> s.procs[p].id in s.purged
  {
    ReachableInv(s, s.procs[p].id);
    assert ProcPlaced(s, s.procs[p]);
  }

  // ---------- When a Pull answers "not found" ----------

  /** No step of `steps` is thread `p`'s. */
  predicate Others(steps: seq<Step>, p: nat) { forall i :: 0 <= i < |steps| ==> steps[i].p != p }

  lemma {:induction false} ProcWaits(s: Store, steps: seq<Step>, p: nat)
    requires p in s.procs && Others(steps, p)
    ensures p in Run(s, steps).procs && Run(s, steps).procs[p] == s.procs[p]
  {
    if steps == [] {
    } else {
      ProcWaits(s, steps[..|steps| - 1], p);
    }
  }

  lemma {:induction false} ListedStays(s: Store, steps: seq<Step>, id: ObjectId)
    requires BytesInv(s, id) && CopyInv(s, id)
    ensures BytesInv(Run(s, steps), id) && CopyInv(Run(s, steps), id)
    ensures Listed(s, id) ==> Listed(Run(s, steps), id)
  {
    if steps == [] {
    } else {
      ListedStays(s, steps[..|steps| - 1], id);
      BytesStep(Run(s, steps[..|steps| - 1]), steps[|steps| - 1], id);
      CopyStep(Run(s, steps[..|steps| - 1]), steps[|steps| - 1], id);
    }
  }

  /** A Pull that misses plasma looks the object up some steps of other threads later. If the object was
      sealed when it missed, it answers "not found" exactly when the entry has been purged; if it was
      not, exactly when no entry is there, which may also mean that it was sealed since and is only in
      plasma. */
  lemma {:induction false} PullLookupMissesIff(s: Store, p: nat, id: ObjectId, steps: seq<Step>)
    requires Reachable(s) && p in s.procs && s.procs[p] == Pulling(id, AtPlasma) && id !in s.plasma && Others(steps, p)
    ensures var later := Run(Next(s, GetFromPlasma(p)), steps);
            var answer := Next(later, LookUpSpill(p));
            && p in answer.procs
            && (id in s.sealed ==> (answer.procs[p] == NotFound(id) <==> id in later.purged))
            && (answer.procs[p] == NotFound(id) <==> id !in later.directory)
            && (id !in later.directory && id in later.sealed ==> id in later.plasma || id in later.purged)
  {
    ReachableInv(s, id);
    var missed := Next(s, GetFromPlasma(p));
    BytesStep(s, GetFromPlasma(p), id);
    CopyStep(s, GetFromPlasma(p), id);
    ProcWaits(missed, steps, p);
    ListedStays(missed, steps, id);
  }

  predicate Evicts(s: Store, step: Step, id: ObjectId) { Act(s, step).0 == Evict(id) }

  predicate Puts(s: Store, step: Step, id: ObjectId) {
    (Act(s, step).0.PutPlasma? || Act(s, step).0.FirstSeal?) && Act(s, step).0.id == id
  }

  /** The last step that moved `id` in or out of plasma took it out. */
  predicate LastEvicted(s: Store, steps: seq<Step>, id: ObjectId) {
    steps != [] &&
    var before, last := Run(s, steps[..|steps| - 1]), steps[|steps| - 1];
    Evicts(before, last, id) || (!Puts(before, last, id) && LastEvicted(s, steps[..|steps| - 1], id))
  }

  lemma {:induction false} InPlasmaUnlessEvicted(s: Store, steps: seq<Step>, id: ObjectId)
    requires id in s.plasma
    ensures id !in Run(s, steps).plasma <==> LastEvicted(s, steps, id)
  {
    if steps == [] {
    } else {
      InPlasmaUnlessEvicted(s, steps[..|steps| - 1], id);
      PlasmaStep(Run(s, steps[..|steps| - 1]), steps[|steps| - 1], id);
    }
  }

  lemma EffectOnPlasma(s: Store, e: Effect, id: ObjectId)
    ensures id in Apply(s, e).plasma <==>
            e != Evict(id) && (((e.PutPlasma? || e.FirstSeal?) && e.id == id) || id in s.plasma)
  {
  }

  lemma PlasmaStep(s: Store, step: Step, id: ObjectId)
    ensures id in Next(s, step).plasma <==> !Evicts(s, step, id) && (Puts(s, step, id) || id in s.plasma)
  {
    EffectOnPlasma(s, Act(s, step).0, id);
  }

  /** A Pull that has restored the object reseals it and reopens it some steps of other threads later.
      It answers "not found" exactly when a spill has deleted the object from plasma in between and
      nobody has put it back since; otherwise it returns the bytes first sealed. */
  lemma {:induction false} PullReopenMissesIff(s: Store, p: nat, id: ObjectId, obj: Object, steps: seq<Step>)
    requires Reachable(s) && p in s.procs && s.procs[p] == Pulling(id, Restored(obj)) && Others(steps, p)
    ensures var resealed := Next(s, Reseal(p));
            var answer := Next(Run(resealed, steps), Reopen(p));
            && p in answer.procs && id in s.sealed
            && answer.procs[p] == if LastEvicted(resealed, steps, id) then NotFound(id) else Returned(id, s.sealed[id])
  {
    ReachableInv(s, id);
    var resealed := Next(s, Reseal(p));
    assert ProcFaithful(s, s.procs[p]);
    BytesStep(s, Reseal(p), id);
    ProcWaits(resealed, steps, p);
    InPlasmaUnlessEvicted(resealed, steps, id);
    SealedStays(resealed, steps, id);
  }

  lemma {:induction false} SealedStays(s: Store, steps: seq<Step>, id: ObjectId)
    requires BytesInv(s, id) && id in s.sealed
    ensures BytesInv(Run(s, steps), id) && id in Run(s, steps).sealed && Run(s, steps).sealed[id] == s.sealed[id]
  {
    if steps == [] {
    } else {
      var before, last := Run(s, steps[..|steps| - 1]), steps[|steps| - 1];
      SealedStays(s, steps[..|steps| - 1], id);
      BytesStep(before, last, id);
      ActFaithful(before, last, id);
      EffectFaithful(before, Act(before, last).0, id);
    }
  }

  // ---------- Two runs that show the limits ----------

  const NONE: map<nat, Proc> := map[]

  lemma ReachNext(s: Store, step: Step)
    requires Reachable(s)
    ensures Reachable(Next(s, step))
  {
    var steps :| Run(EMPTY, steps) == s;
    assert (steps + [step])[..|steps|] == steps;
    assert Run(EMPTY, steps + [step]) == Next(s, step);
  }

  /** A thread inside an operation takes its next action. */
  lemma Advance(s: Store, step: Step, proc: Proc, rest: map<nat, Proc>, e: Effect, proc': Option<Proc>)
    requires Reachable(s) && step.p !in rest && s.procs == rest[step.p := proc]
    requires Continue(s, step, proc) == (e, proc')
    ensures Reachable(Apply(s, e).(procs := SetProc(rest, step.p, proc')))
  {
    ReachNext(s, step);
    SetProcTwice(rest, step.p, proc, proc');
  }

  lemma SetProcTwice(rest: map<nat, Proc>, p: nat, proc: Proc, proc': Option<Proc>)
    ensures SetProc(rest[p := proc], p, proc') == SetProc(rest, p, proc')
  {
  }

  /** A thread begins an operation. */
  lemma Launch(s: Store, step: Step, e: Effect, proc: Proc)
    requires Reachable(s) && step.p !in s.procs && Begin(s, step) == (e, Some(proc))
    ensures Reachable(Apply(s, e).(procs := s.procs[step.p := proc]))
  {
    ReachNext(s, step);
  }

  /** One object, sealed, indexed and spilled out of plasma. */
  function SpilledStore(id: ObjectId, obj: Object): Store {
    Store(map[], map[id := obj], {id}, map[id := PlasmaIndex(obj.metadata, |obj.data|)], NONE, map[id := obj], {})
  }

  lemma SpillToFile(s: Store, id: ObjectId, obj: Object, p: nat)
    requires Reachable(s) && p !in s.procs && id in s.plasma && s.plasma[id] == obj
    ensures Reachable(Apply(s, PutFile(id, obj)).(procs := s.procs[p := SpillWritten(id, obj)]))
  {
    Launch(s, StartSpill(p, id), Nothing, SpillRead(id, obj));
    Advance(s.(procs := s.procs[p := SpillRead(id, obj)]), WriteSpillFile(p), SpillRead(id, obj), s.procs,
            PutFile(id, obj), Some(SpillWritten(id, obj)));
  }

  lemma EvictStored(s: Store, rest: map<nat, Proc>, id: ObjectId, p: nat)
    requires Reachable(s) && p !in rest && s.procs == rest[p := SpillStored(id)]
    ensures Reachable(Apply(s, Evict(id)).(procs := rest))
  {
    Advance(s, DeleteFromPlasma(p), SpillStored(id), rest, Evict(id), None);
    assert rest - {p} == rest;
  }

  lemma RecordAndEvict(s: Store, rest: map<nat, Proc>, id: ObjectId, obj: Object, p: nat)
    requires Reachable(s) && p !in rest && s.procs == rest[p := SpillWritten(id, obj)]
    ensures Reachable(Apply(Apply(s, List(id)), Evict(id)).(procs := rest))
  {
    var listed := Apply(s, List(id)).(procs := rest[p := SpillStored(id)]);
    Advance(s, RecordSpill(p), SpillWritten(id, obj), rest, List(id), Some(SpillStored(id)));
    assert Reachable(listed);
    EvictStored(listed, rest, id, p);
    assert Apply(listed, Evict(id)).(procs := rest) == Apply(Apply(s, List(id)), Evict(id)).(procs := rest);
  }

  /** Thread `p` spills the object out of plasma, whatever the other threads are at. */
  lemma SpillOut(s: Store, id: ObjectId, obj: Object, p: nat)
    requires Reachable(s) && p !in s.procs && s.plasma == map[id := obj] && s.purged == {}
    ensures Reachable(s.(plasma := map[], files := s.files[id := obj], directory := s.directory + {id}))
  {
    SpillToFile(s, id, obj, p);
    var t := Apply(s, PutFile(id, obj)).(procs := s.procs[p := SpillWritten(id, obj)]);
    RecordAndEvict(t, s.procs, id, obj, p);
    SpilledIs(s, t, id, obj);
  }

  lemma SpilledIs(s: Store, t: Store, id: ObjectId, obj: Object)
    requires s.plasma == map[id := obj] && s.purged == {} && t == Apply(s, PutFile(id, obj)).(procs := t.procs)
    ensures Apply(Apply(t, List(id)), Evict(id)).(procs := s.procs) ==
            s.(plasma := map[], files := s.files[id := obj], directory := s.directory + {id})
  {
    assert map[id := obj] - {id} == map[] && s.purged - {id} == {};
  }

  lemma SealAndSpill(id: ObjectId, obj: Object)
    ensures Reachable(SpilledStore(id, obj))
  {
    assert Run(EMPTY, []) == EMPTY;
    Launch(EMPTY, Seal(0, id, obj), FirstSeal(id, obj), Sealing(id, obj));
    var entry := PlasmaIndex(obj.metadata, |obj.data|);
    var t := EMPTY.(plasma := map[id := obj], sealed := map[id := obj], procs := NONE[0 := Sealing(id, obj)]);
    assert EMPTY.plasma[id := obj] == map[id := obj];
    Advance(t, PutIndex(0), Sealing(id, obj), NONE, PutEntry(id, entry), None);
    assert EMPTY.index[id := entry] == map[id := entry] && NONE - {0} == NONE;
    t := t.(index := map[id := entry], procs := NONE);
    SpillOut(t, id, obj, 0);
    assert t.files[id := obj] == map[id := obj] && t.directory + {id} == {id};
  }

  /** A resolve or a Pull of a spilled object, up to the point where it opens the file. */
  lemma ReadUpToFile(id: ObjectId, obj: Object, start: Step, proc: Proc)
    requires start.p == 0 && Begin(SpilledStore(id, obj), start) == (Nothing, Some(proc))
    requires (proc.Resolving? || proc.Pulling?) && proc.id == id && proc.stage == AtPlasma
    ensures Reachable(SpilledStore(id, obj).(procs := NONE[0 := proc.(stage := AtFile)]))
  {
    var s := SpilledStore(id, obj);
    SealAndSpill(id, obj);
    Launch(s, start, Nothing, proc);
    Advance(s.(procs := NONE[0 := proc]), GetFromPlasma(0), proc, NONE, Nothing, Some(proc.(stage := AtDirectory)));
    Advance(s.(procs := NONE[0 := proc.(stage := AtDirectory)]), LookUpSpill(0),
            proc.(stage := AtDirectory), NONE, Nothing, Some(proc.(stage := AtFile)));
  }

  lemma ResolveUpToPurge(id: ObjectId, obj: Object, proc: Proc)
    requires proc == Resolving(id, PlasmaIndex(obj.metadata, |obj.data|), Purging)
    ensures Reachable(SpilledStore(id, obj).(procs := NONE[0 := proc]))
  {
    var s, atFile := SpilledStore(id, obj), proc.(stage := AtFile);
    ReadUpToFile(id, obj, StartResolve(0, id), proc.(stage := AtPlasma));
    Advance(s.(procs := NONE[0 := atFile]), ReadSpillFile(0, false), atFile, NONE, Nothing, Some(proc));
  }

  /** One failed read of an intact spill file loses the object to every reader: `restore` reports any
      read error as corruption, and corruption drops the directory entry. */
  lemma FailedReadLosesObject(id: ObjectId, obj: Object) returns (s: Store)
    ensures Reachable(s) && id in s.index && s.files == map[id := obj] == s.sealed && !Readable(s, id)
  {
    var proc := Resolving(id, PlasmaIndex(obj.metadata, |obj.data|), Purging);
    ResolveUpToPurge(id, obj, proc);
    s := SpilledStore(id, obj).(procs := NONE[0 := proc]);
    Advance(s, PurgeEntry(0), proc, NONE, Purge(id), None);
    s := Apply(s, Purge(id)).(procs := SetProc(NONE, 0, None));
  }

  lemma PullUpToRestore(id: ObjectId, obj: Object)
    ensures Reachable(SpilledStore(id, obj).(procs := NONE[0 := Pulling(id, Restored(obj))]))
  {
    var s, atFile := SpilledStore(id, obj), Pulling(id, AtFile);
    ReadUpToFile(id, obj, StartPull(0, id), Pulling(id, AtPlasma));
    Advance(s.(procs := NONE[0 := atFile]), ReadSpillFile(0, true), atFile, NONE, Nothing,
        Some(Pulling(id, Restored(obj))));
  }

  lemma PullUpToReseal(id: ObjectId, obj: Object)
    ensures Reachable(SpilledStore(id, obj).(plasma := map[id := obj], procs := NONE[0 := Pulling(id, Resealed(obj))]))
  {
    var s, restored, resealed := SpilledStore(id, obj), Pulling(id, Restored(obj)), Pulling(id, Resealed(obj));
    PullUpToRestore(id, obj);
    Advance(s.(procs := NONE[0 := restored]), Reseal(0), restored, NONE, PutPlasma(id, obj), Some(resealed));
    assert s.plasma[id := obj] == map[id := obj];
  }

  /** A Pull can answer "not found" for an object that was readable all along: a second spill may take
      it out of plasma between the reseal and the reopen. */
  lemma PullMayMissReadable(id: ObjectId, obj: Object) returns (s: Store)
    ensures Reachable(s) && 0 in s.procs && s.procs[0] == NotFound(id) && Readable(s, id)
  {
    var resealed := Pulling(id, Resealed(obj));
    PullUpToReseal(id, obj);
    s := SpilledStore(id, obj).(plasma := map[id := obj], procs := NONE[0 := resealed]);
    SpillOut(s, id, obj, 1);
    s := s.(plasma := map[], files := s.files[id := obj], directory := s.directory + {id});
    Advance(s, Reopen(0), resealed, NONE, Nothing, Some(NotFound(id)));
    s := s.(procs := NONE[0 := NotFound(id)]);
  }
}
