/** Whole operations of one thread on the tiers, from any state the other threads may have left: what a
    put, a spill, a resolve and a Pull come to when nobody steps in between. */
module Alone {
  import opened Bytes
  import opened Tiers
  import C = CoreWorker

  // ---------- A read ----------

  /** A resolve or a Pull, from its first action to its last; actions that are not its turn change
      nothing. */
  function ReadAlone(s: Store, p: nat, start: Step, intact: bool): Store {
    Finish(Recover(Next(Next(s, start), GetFromPlasma(p)), p, intact), p)
  }

  function Recover(s: Store, p: nat, intact: bool): Store {
    Next(Next(Next(s, LookUpSpill(p)), ReadSpillFile(p, intact)), PurgeEntry(p))
  }

  function Finish(s: Store, p: nat): Store { Next(Next(s, Reseal(p)), Reopen(p)) }

  /** A reader that finds its object in plasma returns the bytes first sealed, whatever has happened since
      it began. */
  lemma HitReturnsSealed(s: Store, p: nat)
    requires Reachable(s) && p in s.procs && Reads(s.procs[p], AtPlasma) && s.procs[p].id in s.plasma
    ensures var id := s.procs[p].id;
            && id in s.sealed
            && Next(s, GetFromPlasma(p)) == s.(procs := s.procs[p := Returned(id, s.sealed[id])])
  {
    ReachableInv(s, s.procs[p].id);
    assert ProcFaithful(s, s.procs[p]);
  }

  /** One that has answered, or has failed, is left alone by what remains of a read. */
  lemma AnsweredStays(s: Store, p: nat, intact: bool)
    requires p in s.procs ==> s.procs[p].Returned? || s.procs[p].NotFound?
    ensures Recover(s, p, intact) == s && Finish(s, p) == s
  {
    NotItsTurn(s, p, LookUpSpill(p));
    NotItsTurn(s, p, ReadSpillFile(p, intact));
    NotItsTurn(s, p, PurgeEntry(p));
    NotItsTurn(s, p, Reseal(p));
    NotItsTurn(s, p, Reopen(p));
  }

  predicate LaterAction(step: Step) {
    step.LookUpSpill? || step.ReadSpillFile? || step.PurgeEntry? || step.Reseal? || step.Reopen?
  }

  lemma NotItsTurn(s: Store, p: nat, step: Step)
    requires LaterAction(step) && step.p == p && (p in s.procs ==> s.procs[p].Returned? || s.procs[p].NotFound?)
    ensures Next(s, step) == s
  {
    if p in s.procs { assert s.procs[p := s.procs[p]] == s.procs; } else { assert s.procs - {p} == s.procs; }
  }

  /** After a miss: the entry is not there; or its file can be read; or it cannot, and the entry goes. */
  lemma RecoverDoes(s: Store, p: nat, intact: bool)
    requires p in s.procs && Reads(s.procs[p], AtDirectory)
    requires s.procs[p].id in s.directory ==> s.procs[p].id in s.files
    ensures var id := s.procs[p].id;
            Recover(s, p, intact) ==
              if id !in s.directory then s.(procs := s.procs[p := NotFound(id)])
              else if intact then s.(procs := s.procs[p := s.procs[p].(stage := Restored(s.files[id]))])
              else s.(directory := s.directory - {id}, purged := s.purged + {id}, procs := s.procs - {p})
  {
    var proc := s.procs[p];
    if proc.id !in s.directory {
      var a := s.(procs := s.procs[p := NotFound(proc.id)]);
      assert Next(s, LookUpSpill(p)) == a;
      assert a.procs[p := a.procs[p]] == a.procs;
    } else {
      var a := s.(procs := s.procs[p := proc.(stage := AtFile)]);
      assert Next(s, LookUpSpill(p)) == a;
      RecoverFile(a, s, p, intact);
    }
  }

  lemma RecoverFile(a: Store, s: Store, p: nat, intact: bool)
    requires p in s.procs && Reads(s.procs[p], AtDirectory) && s.procs[p].id in s.files
    requires a == s.(procs := s.procs[p := s.procs[p].(stage := AtFile)])
    ensures var id := s.procs[p].id;
            Next(Next(a, ReadSpillFile(p, intact)), PurgeEntry(p)) ==
              if intact then s.(procs := s.procs[p := s.procs[p].(stage := Restored(s.files[id]))])
              else s.(directory := s.directory - {id}, purged := s.purged + {id}, procs := s.procs - {p})
  {
    var proc := s.procs[p];
    ReadFile(a, s, p, intact);
    if intact {
      var b := s.(procs := s.procs[p := proc.(stage := Restored(s.files[proc.id]))]);
      assert b.procs[p := b.procs[p]] == b.procs;
    } else {
      var b := s.(procs := s.procs[p := proc.(stage := Purging)]);
      assert b.procs - {p} == s.procs - {p};
    }
  }

  lemma ReadFile(a: Store, s: Store, p: nat, intact: bool)
    requires p in s.procs && Reads(s.procs[p], AtDirectory) && s.procs[p].id in s.files
    requires a == s.(procs := s.procs[p := s.procs[p].(stage := AtFile)])
    ensures Next(a, ReadSpillFile(p, intact)) ==
            s.(procs := s.procs[p := s.procs[p].(stage := if intact then Restored(s.files[s.procs[p].id])
                                                          else Purging)])
  {
    var proc := s.procs[p].(stage := if intact then Restored(s.files[s.procs[p].id]) else Purging);
    assert a.procs[p := proc] == s.procs[p := proc];
  }

  /** The restored bytes go back to plasma, and are the answer. */
  lemma FinishDoes(s: Store, p: nat)
    requires p in s.procs && HasRestored(s.procs[p]) && s.procs[p].id !in s.plasma
    ensures var proc := s.procs[p];
            Finish(s, p) == s.(plasma := s.plasma[proc.id := proc.stage.obj],
                               procs := s.procs[p := Result(proc, proc.stage.obj)])
  {
    var proc := s.procs[p];
    var a := Next(s, Reseal(p));
    if proc.Resolving? {
      assert a.procs[p := a.procs[p]] == a.procs;
    } else {
      var resealed := Pulling(proc.id, Resealed(proc.stage.obj));
      assert a == s.(plasma := s.plasma[proc.id := proc.stage.obj], procs := s.procs[p := resealed]);
      assert a.procs[p := Result(proc, proc.stage.obj)] == s.procs[p := Result(proc, proc.stage.obj)];
    }
  }

  /** How a thread begins to read `id`; a resolve needs an index entry. */
  predicate BeginsRead(s: Store, start: Step, p: nat, id: ObjectId) {
    (start == StartResolve(p, id) && id in s.index) || start == StartPull(p, id)
  }

  lemma BeginRead(s: Store, start: Step, p: nat, id: ObjectId)
    requires Reachable(s) && p !in s.procs && BeginsRead(s, start, p, id)
    ensures var s1 := Next(s, start);
            && Reachable(s1) && p in s1.procs && Reads(s1.procs[p], AtPlasma) && s1.procs[p].id == id
            && s1 == s.(procs := s.procs[p := s1.procs[p]])
  {
    ReachNext(s, start);
  }

  lemma MissDoes(s: Store, p: nat, id: ObjectId, was: map<nat, Proc>)
    requires p in s.procs && Reads(s.procs[p], AtPlasma) && s.procs[p].id == id && id !in s.plasma
    requires s.procs == was[p := s.procs[p]]
    ensures Next(s, GetFromPlasma(p)) == s.(procs := was[p := s.procs[p].(stage := AtDirectory)])
  {
  }

  /** What a reader that has restored its object answers is what was sealed. */
  lemma RestoredIsSealed(s: Store, p: nat, id: ObjectId, obj: Object)
    requires BytesInv(s, id) && p in s.procs && Reads(s.procs[p], Restored(obj)) && s.procs[p].id == id
    ensures id in s.sealed && obj == s.sealed[id] && Result(s.procs[p], obj) == Returned(id, s.sealed[id])
  {
    assert ProcFaithful(s, s.procs[p]);
  }

  /** The store after a read alone: nothing but the reader's answer if plasma has the object or no entry is
      there; the object back in plasma if its file can be read; the entry gone if it cannot. */
  function AfterRead(s: Store, p: nat, id: ObjectId, intact: bool): Store {
    if id in s.sealed && (id in s.plasma || (id in s.directory && intact)) then
      s.(plasma := s.plasma[id := s.sealed[id]], procs := s.procs[p := Returned(id, s.sealed[id])])
    else if id !in s.directory then s.(procs := s.procs[p := NotFound(id)])
    else s.(directory := s.directory - {id}, purged := s.purged + {id})
  }

  /** The reader `p` of `m` has missed plasma; otherwise `m` is `s`. */
  ghost predicate Missed(s: Store, m: Store, p: nat, id: ObjectId) {
    && Reachable(m) && p !in s.procs && p in m.procs && Reads(m.procs[p], AtDirectory) && m.procs[p].id == id
    && m == s.(procs := s.procs[p := m.procs[p]]) && id !in s.plasma
  }

  lemma MissedUnlisted(s: Store, m: Store, p: nat, id: ObjectId, intact: bool)
    requires Missed(s, m, p, id) && id !in s.directory
    ensures Finish(Recover(m, p, intact), p) == s.(procs := s.procs[p := NotFound(id)])
  {
    RecoverDoes(m, p, intact);
    assert m.procs[p := NotFound(id)] == s.procs[p := NotFound(id)];
    AnsweredStays(Recover(m, p, intact), p, intact);
  }

  lemma MissedUnreadable(s: Store, m: Store, p: nat, id: ObjectId)
    requires Missed(s, m, p, id) && id in s.directory && id in s.files
    ensures Finish(Recover(m, p, false), p) == s.(directory := s.directory - {id}, purged := s.purged + {id})
  {
    RecoverDoes(m, p, false);
    assert m.procs - {p} == s.procs;
    AnsweredStays(Recover(m, p, false), p, false);
  }

  lemma MissedRestored(s: Store, m: Store, p: nat, id: ObjectId)
    requires Missed(s, m, p, id) && id in s.directory && id in s.files
    ensures id in s.sealed
    ensures Finish(Recover(m, p, true), p) ==
            s.(plasma := s.plasma[id := s.sealed[id]], procs := s.procs[p := Returned(id, s.sealed[id])])
  {
    RecoverReachable(m, p, true);
    var r := MissedRecovers(s, m, p, id);
    RestoredRead(s, r, p, id);
  }

  lemma MissedRecovers(s: Store, m: Store, p: nat, id: ObjectId) returns (r: Store)
    requires Missed(s, m, p, id) && id in s.directory && id in s.files
    ensures r == Recover(m, p, true) && p in r.procs && r == s.(procs := s.procs[p := r.procs[p]])
    ensures Reads(r.procs[p], Restored(s.files[id])) && r.procs[p].id == id
  {
    var proc := m.procs[p].(stage := Restored(s.files[id]));
    r := s.(procs := s.procs[p := proc]);
    SetProcTwice(s.procs, p, m.procs[p], Some(proc));
    assert r == m.(procs := m.procs[p := proc]);
    RecoverDoes(m, p, true);
  }

  lemma RestoredRead(s: Store, r: Store, p: nat, id: ObjectId)
    requires id in s.files && id !in s.plasma && Reachable(r)
    requires p in r.procs && r == s.(procs := s.procs[p := r.procs[p]])
    requires Reads(r.procs[p], Restored(s.files[id])) && r.procs[p].id == id
    ensures id in s.sealed
    ensures Finish(r, p) ==
            s.(plasma := s.plasma[id := s.sealed[id]], procs := s.procs[p := Returned(id, s.sealed[id])])
  {
    ReachableInv(r, id);
    RestoredIsSealed(r, p, id, s.files[id]);
    FinishDoes(r, p);
    assert r.procs[p := Returned(id, s.sealed[id])] == s.procs[p := Returned(id, s.sealed[id])];
  }

  lemma RecoverReachable(s: Store, p: nat, intact: bool)
    requires Reachable(s)
    ensures Reachable(Recover(s, p, intact))
  {
    ReachNext(s, LookUpSpill(p));
    ReachNext(Next(s, LookUpSpill(p)), ReadSpillFile(p, intact));
    ReachNext(Next(Next(s, LookUpSpill(p)), ReadSpillFile(p, intact)), PurgeEntry(p));
  }

  lemma MissedRead(s: Store, m: Store, p: nat, id: ObjectId, intact: bool)
    requires Missed(s, m, p, id)
    ensures Finish(Recover(m, p, intact), p) == AfterRead(s, p, id, intact)
  {
    ListedHasFile(m, id);
    if id !in s.directory {
      MissedUnlisted(s, m, p, id, intact);
    } else if intact {
      MissedRestored(s, m, p, id);
    } else {
      MissedUnreadable(s, m, p, id);
    }
  }

  lemma ListedHasFile(s: Store, id: ObjectId)
    requires Reachable(s)
    ensures id in s.directory ==> id in s.files && id in s.sealed
    ensures id in s.plasma ==> id in s.sealed && s.plasma[id] == s.sealed[id]
    ensures id in s.files ==> id in s.sealed && s.files[id] == s.sealed[id]
  {
    ReachableInv(s, id);
  }

  lemma HitRead(s: Store, s1: Store, p: nat, id: ObjectId)
    requires Reachable(s1) && p in s1.procs && Reads(s1.procs[p], AtPlasma) && s1.procs[p].id == id
    requires s1 == s.(procs := s.procs[p := s1.procs[p]]) && id in s.plasma
    ensures id in s.sealed && s.plasma[id := s.sealed[id]] == s.plasma
    ensures Next(s1, GetFromPlasma(p)) == s.(procs := s.procs[p := Returned(id, s.sealed[id])])
  {
    ListedHasFile(s1, id);
    HitReturnsSealed(s1, p);
    assert s1.procs[p := Returned(id, s.sealed[id])] == s.procs[p := Returned(id, s.sealed[id])];
  }

  lemma ReadAloneIs(s: Store, p: nat, start: Step, id: ObjectId, intact: bool)
    requires Reachable(s) && p !in s.procs && BeginsRead(s, start, p, id)
    ensures ReadAlone(s, p, start, intact) == AfterRead(s, p, id, intact)
  {
    BeginRead(s, start, p, id);
    var s1 := Next(s, start);
    if id in s.plasma {
      HitRead(s, s1, p, id);
      AnsweredStays(s.(procs := s.procs[p := Returned(id, s.sealed[id])]), p, intact);
    } else {
      MissDoes(s1, p, id, s.procs);
      ReachNext(s1, GetFromPlasma(p));
      MissedRead(s, Next(s1, GetFromPlasma(p)), p, id, intact);
    }
  }

  /** From every reachable store, a resolve or Pull run alone returns the bytes first sealed exactly when
      plasma holds the object or its entry is there and its file can be read; it answers "not found" exactly
      when neither is there; and otherwise fails, and takes the entry with it. Nothing else changes. */
  lemma {:induction false} ReadAloneIff(s: Store, p: nat, start: Step, id: ObjectId, intact: bool)
    requires Reachable(s) && p !in s.procs && BeginsRead(s, start, p, id)
    ensures ReadAlone(s, p, start, intact) == AfterRead(s, p, id, intact)
    ensures var s' := ReadAlone(s, p, start, intact);
            && (p in s'.procs && s'.procs[p].Returned? <==> id in s.plasma || (id in s.directory && intact))
            && (p in s'.procs && s'.procs[p].Returned? ==> id in s.sealed && s'.procs[p] == Returned(id, s.sealed[id]))
            && (p in s'.procs && s'.procs[p].NotFound? <==> !Readable(s, id))
  {
    ListedHasFile(s, id);
    ReadAloneIs(s, p, start, id, intact);
  }

  // ---------- A put and a spill ----------

  function PutAlone(s: Store, p: nat, id: ObjectId, obj: Object): Store { Next(Next(s, Seal(p, id, obj)), PutIndex(p)) }

  lemma PutAloneDoes(s: Store, p: nat, id: ObjectId, obj: Object)
    requires p !in s.procs && id !in s.sealed
    ensures PutAlone(s, p, id, obj) ==
            s.(plasma := s.plasma[id := obj], sealed := s.sealed[id := obj],
               index := s.index[id := PlasmaIndex(obj.metadata, |obj.data|)])
  {
    var a := Next(s, Seal(p, id, obj));
    assert a.procs - {p} == s.procs;
  }

  function SpillAlone(s: Store, p: nat, id: ObjectId): Store {
    Next(Next(Next(Next(s, StartSpill(p, id)), WriteSpillFile(p)), RecordSpill(p)), DeleteFromPlasma(p))
  }

  /** A spill alone moves the object: file and entry are there and plasma's copy is not. Without a copy in
      plasma it changes nothing. */
  lemma SpillAloneDoes(s: Store, p: nat, id: ObjectId)
    requires p !in s.procs
    ensures SpillAlone(s, p, id) ==
            if id !in s.plasma then s
            else s.(files := s.files[id := s.plasma[id]], directory := s.directory + {id}, purged := s.purged - {id},
                    plasma := s.plasma - {id})
  {
    if id in s.plasma {
      SpillWrites(s, p, id);
      var b := s.(files := s.files[id := s.plasma[id]], procs := s.procs[p := SpillWritten(id, s.plasma[id])]);
      SpillRecords(b, p, id, s.procs);
    } else {
      NothingToSpill(s, p, id);
    }
  }

  lemma SpillWrites(s: Store, p: nat, id: ObjectId)
    requires p !in s.procs && id in s.plasma
    ensures Next(Next(s, StartSpill(p, id)), WriteSpillFile(p)) ==
            s.(files := s.files[id := s.plasma[id]], procs := s.procs[p := SpillWritten(id, s.plasma[id])])
  {
    var obj := s.plasma[id];
    var a := s.(procs := s.procs[p := SpillRead(id, obj)]);
    assert Next(s, StartSpill(p, id)) == a;
    assert a.procs[p := SpillWritten(id, obj)] == s.procs[p := SpillWritten(id, obj)];
  }

  lemma SpillRecords(s: Store, p: nat, id: ObjectId, rest: map<nat, Proc>)
    requires p !in rest && p in s.procs && s.procs[p].SpillWritten? && s.procs[p].id == id
    requires s.procs == rest[p := s.procs[p]]
    ensures Next(Next(s, RecordSpill(p)), DeleteFromPlasma(p)) ==
            s.(directory := s.directory + {id}, purged := s.purged - {id}, plasma := s.plasma - {id}, procs := rest)
  {
    var c := s.(directory := s.directory + {id}, purged := s.purged - {id}, procs := rest[p := SpillStored(id)]);
    assert s.procs[p := SpillStored(id)] == c.procs;
    assert Next(s, RecordSpill(p)) == c;
    assert c.procs - {p} == rest;
  }

  lemma NothingToSpill(s: Store, p: nat, id: ObjectId)
    requires p !in s.procs && id !in s.plasma
    ensures SpillAlone(s, p, id) == s
  {
    assert s.procs - {p} == s.procs;
    assert Next(s, StartSpill(p, id)) == s;
  }

  /** A thread whose operation fails is free again; what it has done so far stays done. */
  lemma FailEnds(s: Store, p: nat)
    requires p in s.procs && !s.procs[p].Returned? && !s.procs[p].NotFound?
    ensures Next(s, Fail(p)) == s.(procs := s.procs - {p})
  {
  }

  /** What a put stores is what every later resolve by a free thread returns, whatever the other threads
      have done in between, as long as plasma has the object or no failed read has purged it; otherwise the
      answer is "not found". */
  lemma {:induction false} PutThenReadIff(s: Store, p: nat, id: ObjectId, obj: Object, steps: seq<Step>, q: nat)
    requires Reachable(s) && p !in s.procs && id !in s.sealed
    requires var later := Run(PutAlone(s, p, id, obj), steps); q !in later.procs
    ensures var later := Run(PutAlone(s, p, id, obj), steps);
            var s' := ReadAlone(later, q, StartResolve(q, id), true);
            && q in s'.procs
            && s'.procs[q] == if id in later.plasma || id !in later.purged then Returned(id, obj) else NotFound(id)
  {
    PutAloneDoes(s, p, id, obj);
    var put := PutAlone(s, p, id, obj);
    ReachNext(s, Seal(p, id, obj));
    ReachNext(Next(s, Seal(p, id, obj)), PutIndex(p));
    ReachableInv(put, id);
    SealedStays(put, steps, id);
    var later := Run(put, steps);
    ReachRun(put, steps);
    IndexedStays(put, steps, id);
    StoreRefinesMap(later, id);
    ReadAloneIff(later, q, StartResolve(q, id), id, true);
  }

  lemma {:induction false} ReachRun(s: Store, steps: seq<Step>)
    requires Reachable(s)
    ensures Reachable(Run(s, steps))
  {
    if steps == [] {
    } else {
      ReachRun(s, steps[..|steps| - 1]);
      ReachNext(Run(s, steps[..|steps| - 1]), steps[|steps| - 1]);
    }
  }

  lemma IndexedStep(s: Store, step: Step, id: ObjectId)
    requires id in s.index
    ensures id in Next(s, step).index
  {
  }

  lemma {:induction false} IndexedStays(s: Store, steps: seq<Step>, id: ObjectId)
    requires id in s.index
    ensures id in Run(s, steps).index
  {
    if steps == [] {
    } else {
      IndexedStays(s, steps[..|steps| - 1], id);
      IndexedStep(Run(s, steps[..|steps| - 1]), steps[|steps| - 1], id);
    }
  }

  // ---------- The core worker's calls are these operations ----------

  /** The worker's uninterrupted spill is the machine's, as far as it gets; a failure at any step leaves what
      the steps before it did. */
  lemma SpillIsRun(s: Store, p: nat, id: ObjectId)
    requires p !in s.procs
    ensures C.AfterSpill(s, id, C.NoFault) ==
            (SpillAlone(s, p, id), if id in s.plasma then C.Spilled else C.NotInPlasma)
    ensures C.AfterSpill(s, id, C.GetFails) == (s, C.SpillError)
    ensures C.AfterSpill(s, id, C.StoreFails) == (s, if id in s.plasma then C.SpillError else C.NotInPlasma)
    ensures id in s.plasma ==>
            C.AfterSpill(s, id, C.DeleteFails) == (SpillAlone(s, p, id).(plasma := s.plasma), C.SpillError)
  {
    SpillAloneDoes(s, p, id);
  }

  /** And its uninterrupted read is the machine's, answer for answer. */
  lemma ReadIsRun(s: Store, p: nat, id: ObjectId, intact: bool)
    requires Reachable(s) && p !in s.procs
    ensures var (s', r) := C.AfterRead(s, id, intact);
            var run := ReadAlone(s, p, StartPull(p, id), intact);
            && s' == run.(procs := s.procs)
            && (r.Got? <==> p in run.procs && run.procs[p].Returned?) && (r.Got? ==> r.obj == run.procs[p].obj)
            && (r.Missing? <==> p in run.procs && run.procs[p].NotFound?)
  {
    ListedHasFile(s, id);
    ReadAloneIs(s, p, StartPull(p, id), id, intact);
    SameRead(s, p, id, intact);
  }

  lemma SameRead(s: Store, p: nat, id: ObjectId, intact: bool)
    requires id in s.directory ==> id in s.files && id in s.sealed
    requires id in s.plasma ==> id in s.sealed && s.plasma[id] == s.sealed[id]
    requires (id in s.files ==> id in s.sealed && s.files[id] == s.sealed[id]) && p !in s.procs
    ensures var (s', r) := C.AfterRead(s, id, intact);
            var run := AfterRead(s, p, id, intact);
            && s' == run.(procs := s.procs)
            && (r.Got? <==> p in run.procs && run.procs[p].Returned?) && (r.Got? ==> r.obj == run.procs[p].obj)
            && (r.Missing? <==> p in run.procs && run.procs[p].NotFound?)
  {
    if id in s.plasma { assert s.plasma[id := s.sealed[id]] == s.plasma; }
  }
}
