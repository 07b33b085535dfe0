/** The owner-side reference counter: local refs, borrowers and submit-deps per object, and the rule
    that an entry goes away, once, with its last pin. */
module RefCounter {
  import opened Bytes

  type ObjectId = seq<byte>
  type WorkerId = seq<byte>

  datatype OwnerEntry = OwnerEntry(localCount: nat, borrowers: set<WorkerId>, submitDeps: nat)

  type Entries = map<ObjectId, OwnerEntry>

  datatype Op =
    | AddOwned(id: ObjectId)
    | IncLocal(id: ObjectId)
    | DecLocal(id: ObjectId)
    | AddBorrower(id: ObjectId, worker: WorkerId)
    | RemoveBorrower(id: ObjectId, worker: WorkerId)
    | AddSubmitDep(id: ObjectId)
    | CompleteSubmitDep(id: ObjectId)

  const FRESH := OwnerEntry(0, {}, 0)

  predicate IsUnpinned(e: OwnerEntry) {
    e.localCount == 0 && e.borrowers == {} && e.submitDeps == 0
  }

  function EntryOf(es: Entries, id: ObjectId): OwnerEntry {
    if id in es then es[id] else FRESH
  }

  function SaturatingDec(n: nat): nat { if n == 0 then 0 else n - 1 }

  /** The entry after `op`, before the unpinned check. */
  function Touched(e: OwnerEntry, op: Op): OwnerEntry {
    match op
    case AddOwned(_) => e.(localCount := e.localCount + 1)
    case IncLocal(_) => e.(localCount := e.localCount + 1)
    case DecLocal(_) => e.(localCount := SaturatingDec(e.localCount))
    case AddBorrower(_, w) => e.(borrowers := e.borrowers + {w})
    case RemoveBorrower(_, w) => e.(borrowers := e.borrowers - {w})
    case AddSubmitDep(_) => e.(submitDeps := e.submitDeps + 1)
    case CompleteSubmitDep(_) => e.(submitDeps := SaturatingDec(e.submitDeps))
  }

  predicate Creates(op: Op) { op.AddOwned? || op.AddBorrower? || op.AddSubmitDep? }

  predicate IsRelease(op: Op) { op.DecLocal? || op.RemoveBorrower? || op.CompleteSubmitDep? }

  /** The table after `op`, and whether `op` cleared the last pin. */
  function Apply(es: Entries, op: Op): (Entries, bool) {
    if op.id !in es && !Creates(op) then (es, false)
    else
      var e := Touched(EntryOf(es, op.id), op);
      if IsRelease(op) && IsUnpinned(e) then (es - {op.id}, true) else (es[op.id := e], false)
  }

  function Run(es: Entries, ops: seq<Op>): Entries
    decreases |ops|
  {
    if ops == [] then es else Run(Apply(es, ops[0]).0, ops[1..])
  }

  /** What each operation of a run returns. */
  function Results(es: Entries, ops: seq<Op>): (r: seq<bool>)
    ensures |r| == |ops|
    decreases |ops|
  {
    if ops == [] then [] else [Apply(es, ops[0]).1] + Results(Apply(es, ops[0]).0, ops[1..])
  }

  // ---------- Presence and alternation ----------

  predicate AllPinned(es: Entries) {
    forall id :: id in es ==> !IsUnpinned(es[id])
  }

  /** In every run an entry exists only while pinned; releases of unknown ids change nothing. */
  lemma {:induction false} PresentIffPinned(ops: seq<Op>, es: Entries)
    requires AllPinned(es)
    ensures AllPinned(Run(es, ops))
    decreases |ops|
  {
    if ops == [] {
    } else {
      PresentIffPinned(ops[1..], Apply(es, ops[0]).0);
    }
  }

  /** How often `id` comes into existence in a run, and how often it is freed. */
  function Creations(es: Entries, ops: seq<Op>, id: ObjectId): nat
    decreases |ops|
  {
    if ops == [] then 0
    else (if id !in es && id in Apply(es, ops[0]).0 then 1 else 0) + Creations(Apply(es, ops[0]).0, ops[1..], id)
  }

  function Frees(es: Entries, ops: seq<Op>, id: ObjectId): nat
    decreases |ops|
  {
    if ops == [] then 0
    else (if ops[0].id == id && Apply(es, ops[0]).1 then 1 else 0) + Frees(Apply(es, ops[0]).0, ops[1..], id)
  }

  /** Frees of an id alternate with its creations, over every run. */
  lemma {:induction false} FreesAlternate(es: Entries, ops: seq<Op>, id: ObjectId)
    ensures Frees(es, ops, id) + (if id in Run(es, ops) then 1 else 0) ==
            Creations(es, ops, id) + (if id in es then 1 else 0)
    decreases |ops|
  {
    if ops == [] {
    } else {
      FreesAlternate(Apply(es, ops[0]).0, ops[1..], id);
    }
  }

  // ---------- The last release frees ----------

  /** Among the operations of `ops`, those on `id` release exactly the pins of `e`: as many
      decrements as local refs, one removal per borrower, one completion per submit-dep. */
  ghost predicate ReleasesExactly(ops: seq<Op>, id: ObjectId, e: OwnerEntry) {
    && (forall op :: op in ops && op.id == id ==> IsRelease(op))
    && multiset(ops)[DecLocal(id)] == e.localCount
    && multiset(ops)[CompleteSubmitDep(id)] == e.submitDeps
    && (forall w :: multiset(ops)[RemoveBorrower(id, w)] == if w in e.borrowers then 1 else 0)
  }

  predicate LastOn(ops: seq<Op>, i: nat, id: ObjectId)
    requires i < |ops|
  {
    ops[i].id == id && forall j :: i < j < |ops| ==> ops[j].id != id
  }

  lemma CountHead(ops: seq<Op>, op: Op)
    requires ops != []
    ensures multiset(ops)[op] == multiset(ops[1..])[op] + if ops[0] == op then 1 else 0
  {
    assert ops == [ops[0]] + ops[1..];
  }

  /** Releasing one pin leaves exactly the others to release. */
  lemma ReleaseOne(ops: seq<Op>, id: ObjectId, e: OwnerEntry)
    requires ops != [] && ReleasesExactly(ops, id, e)
    ensures ReleasesExactly(ops[1..], id, if ops[0].id == id then Touched(e, ops[0]) else e)
  {
    CountHead(ops, DecLocal(id));
    CountHead(ops, CompleteSubmitDep(id));
    forall w ensures multiset(ops)[RemoveBorrower(id, w)] ==
                     multiset(ops[1..])[RemoveBorrower(id, w)] + if ops[0] == RemoveBorrower(id, w) then 1 else 0 {
      CountHead(ops, RemoveBorrower(id, w));
    }
    assert ops[0] in ops && forall op :: op in ops[1..] ==> op in ops;
  }

  /** Nothing left to release means nothing pinned, and the other way round. */
  lemma NothingLeft(ops: seq<Op>, id: ObjectId, e: OwnerEntry)
    requires ReleasesExactly(ops, id, e)
    ensures IsUnpinned(e) <==> forall j :: 0 <= j < |ops| ==> ops[j].id != id
  {
  }

  /** The first operation clears the last pin: it is the last on `id`, and the entry never comes back. */
  lemma FreesNow(es: Entries, ops: seq<Op>, id: ObjectId)
    requires ops != [] && ops[0].id == id && Apply(es, ops[0]).1
    requires forall j :: 1 <= j < |ops| ==> ops[j].id != id
    ensures id !in Run(es, ops)
    ensures forall i :: 0 <= i < |ops| && ops[i].id == id ==> (Results(es, ops)[i] <==> LastOn(ops, i, id))
  {
    NeverComesBack(Apply(es, ops[0]).0, ops[1..], id);
  }

  /** It does not: whatever holds of the rest holds of the whole. */
  lemma FreesLater(es: Entries, ops: seq<Op>, id: ObjectId)
    requires ops != [] && !(ops[0].id == id && Apply(es, ops[0]).1)
    requires ops[0].id == id ==> exists j :: 1 <= j < |ops| && ops[j].id == id
    requires var es', rest := Apply(es, ops[0]).0, ops[1..];
             id !in Run(es', rest) &&
             forall i :: 0 <= i < |rest| && rest[i].id == id ==> (Results(es', rest)[i] <==> LastOn(rest, i, id))
    ensures id !in Run(es, ops)
    ensures forall i :: 0 <= i < |ops| && ops[i].id == id ==> (Results(es, ops)[i] <==> LastOn(ops, i, id))
  {
    LastOnTail(ops, id);
    forall i | 1 <= i < |ops| && ops[i].id == id ensures Results(es, ops)[i] <==> LastOn(ops, i, id) {
      assert ops[1..][i - 1] == ops[i];
    }
  }

  /** For an entry with L local refs, borrowers B and D submit-deps: in any order, and interleaved with
      any operations on other ids, exactly L decrements, one removal per borrower and D completions
      return true once, on the last of them, which removes the entry. */
  lemma {:induction false} FreedExactlyByLastRelease(es: Entries, ops: seq<Op>, id: ObjectId)
    requires id in es && !IsUnpinned(es[id]) && ReleasesExactly(ops, id, es[id])
    ensures id !in Run(es, ops)
    ensures forall i :: 0 <= i < |ops| && ops[i].id == id ==> (Results(es, ops)[i] <==> LastOn(ops, i, id))
    decreases |ops|
  {
    NothingLeft(ops, id, es[id]);
    ReleaseOne(ops, id, es[id]);
    var rest := ops[1..];
    if ops[0].id == id {
      assert ops[0] in ops;
      NothingLeft(rest, id, Touched(es[id], ops[0]));
      assert forall j :: 1 <= j < |ops| ==> ops[j] == rest[j - 1];
    }
    if ops[0].id == id && IsUnpinned(Touched(es[id], ops[0])) {
      FreesNow(es, ops, id);
    } else {
      FreedExactlyByLastRelease(Apply(es, ops[0]).0, rest, id);
      FreesLater(es, ops, id);
    }
  }

  lemma {:induction false} NeverComesBack(es: Entries, ops: seq<Op>, id: ObjectId)
    requires id !in es && forall j :: 0 <= j < |ops| ==> ops[j].id != id
    ensures id !in Run(es, ops)
    decreases |ops|
  {
    if ops == [] {
    } else {
      NeverComesBack(Apply(es, ops[0]).0, ops[1..], id);
    }
  }

  lemma LastOnTail(ops: seq<Op>, id: ObjectId)
    requires ops != []
    ensures forall i :: 1 <= i < |ops| ==> (LastOn(ops, i, id) <==> LastOn(ops[1..], i - 1, id))
    ensures (exists j :: 1 <= j < |ops| && ops[j].id == id) ==> !LastOn(ops, 0, id)
  {
  }

  // ---------- The counts are what was done ----------

  /** What holds `id` after `ops`, read off the operations alone. A clone counts only while something
      holds the id. */
  function LocalRefs(ops: seq<Op>, id: ObjectId): nat
    decreases |ops|, 0
  {
    if ops == [] then 0
    else
      var before, op := ops[..|ops| - 1], ops[|ops| - 1];
      var n := LocalRefs(before, id);
      if op == AddOwned(id) || (op == IncLocal(id) && Held(before, id)) then n + 1
      else if op == DecLocal(id) && n > 0 then n - 1
      else n
  }

  function BorrowersOf(ops: seq<Op>, id: ObjectId): set<WorkerId> {
    if ops == [] then {}
    else
      var before, op := ops[..|ops| - 1], ops[|ops| - 1];
      if op.AddBorrower? && op.id == id then BorrowersOf(before, id) + {op.worker}
      else if op.RemoveBorrower? && op.id == id then BorrowersOf(before, id) - {op.worker}
      else BorrowersOf(before, id)
  }

  function SubmitDeps(ops: seq<Op>, id: ObjectId): nat {
    if ops == [] then 0
    else
      var n, op := SubmitDeps(ops[..|ops| - 1], id), ops[|ops| - 1];
      if op == AddSubmitDep(id) then n + 1 else if op == CompleteSubmitDep(id) && n > 0 then n - 1 else n
  }

  predicate Held(ops: seq<Op>, id: ObjectId)
    decreases |ops|, 1
  {
    LocalRefs(ops, id) > 0 || BorrowersOf(ops, id) != {} || SubmitDeps(ops, id) > 0
  }

  lemma {:induction false} RunSnoc(es: Entries, ops: seq<Op>, op: Op)
    ensures Run(es, ops + [op]) == Apply(Run(es, ops), op).0
    decreases |ops|
  {
    if ops == [] {
      assert ops + [op] == [op] && [op][1..] == [];
    } else {
      assert (ops + [op])[0] == ops[0] && (ops + [op])[1..] == ops[1..] + [op];
      RunSnoc(Apply(es, ops[0]).0, ops[1..], op);
    }
  }

  /** What an operation adds to and takes from the three counts of an entry that is there while pinned. */
  lemma EntryAfter(es: Entries, op: Op, id: ObjectId)
    requires id in es <==> !IsUnpinned(EntryOf(es, id))
    ensures var e, e' := EntryOf(es, id), EntryOf(Apply(es, op).0, id);
            && (id in Apply(es, op).0 <==> !IsUnpinned(e'))
            && e'.localCount == (if op == AddOwned(id) || (op == IncLocal(id) && !IsUnpinned(e)) then e.localCount + 1
                                 else if op == DecLocal(id) && e.localCount > 0 then e.localCount - 1
                                 else e.localCount)
            && e'.borrowers == (if op.AddBorrower? && op.id == id then e.borrowers + {op.worker}
                                else if op.RemoveBorrower? && op.id == id then e.borrowers - {op.worker}
                                else e.borrowers)
            && e'.submitDeps == (if op == AddSubmitDep(id) then e.submitDeps + 1
                                 else if op == CompleteSubmitDep(id) && e.submitDeps > 0 then e.submitDeps - 1
                                 else e.submitDeps)
  {
  }

  lemma HoldsStep(es: Entries, before: seq<Op>, op: Op, id: ObjectId)
    requires id in es <==> Held(before, id)
    requires EntryOf(es, id) == OwnerEntry(LocalRefs(before, id), BorrowersOf(before, id), SubmitDeps(before, id))
    ensures var ops, es' := before + [op], Apply(es, op).0;
            && (id in es' <==> Held(ops, id))
            && EntryOf(es', id) == OwnerEntry(LocalRefs(ops, id), BorrowersOf(ops, id), SubmitDeps(ops, id))
  {
    EntryAfter(es, op, id);
    LocalSnoc(before, op, id);
    BorrowersSnoc(before, op, id);
    DepsSnoc(before, op, id);
  }

  lemma LocalSnoc(before: seq<Op>, op: Op, id: ObjectId)
    ensures LocalRefs(before + [op], id) ==
            if op == AddOwned(id) || (op == IncLocal(id) && Held(before, id)) then LocalRefs(before, id) + 1
            else if op == DecLocal(id) && LocalRefs(before, id) > 0 then LocalRefs(before, id) - 1
            else LocalRefs(before, id)
  {
    assert (before + [op])[..|before|] == before;
  }

  lemma BorrowersSnoc(before: seq<Op>, op: Op, id: ObjectId)
    ensures BorrowersOf(before + [op], id) ==
            if op.AddBorrower? && op.id == id then BorrowersOf(before, id) + {op.worker}
            else if op.RemoveBorrower? && op.id == id then BorrowersOf(before, id) - {op.worker}
            else BorrowersOf(before, id)
  {
    assert (before + [op])[..|before|] == before;
  }

  lemma DepsSnoc(before: seq<Op>, op: Op, id: ObjectId)
    ensures SubmitDeps(before + [op], id) ==
            if op == AddSubmitDep(id) then SubmitDeps(before, id) + 1
            else if op == CompleteSubmitDep(id) && SubmitDeps(before, id) > 0 then SubmitDeps(before, id) - 1
            else SubmitDeps(before, id)
  {
    assert (before + [op])[..|before|] == before;
  }

  /** Over every run from the start: an id has an entry exactly while something holds it, and the entry's
      counts are the balances of what was taken and released. */
  lemma {:induction false} CountsAreBalances(ops: seq<Op>, id: ObjectId)
    ensures id in Run(map[], ops) <==> Held(ops, id)
    ensures EntryOf(Run(map[], ops), id) == OwnerEntry(LocalRefs(ops, id), BorrowersOf(ops, id), SubmitDeps(ops, id))
    decreases |ops|
  {
    if ops == [] {
    } else {
      var before, op := ops[..|ops| - 1], ops[|ops| - 1];
      CountsAreBalances(before, id);
      RunSnoc(map[], before, op);
      HoldsStep(Run(map[], before), before, op, id);
      assert ops == before + [op];
    }
  }

  /** As long as nobody drops more than was taken or clones what is not held, the local count is plainly
      creations plus clones minus drops. */
  ghost predicate Balanced(ops: seq<Op>, id: ObjectId) {
    ops == [] ||
    (var before, op := ops[..|ops| - 1], ops[|ops| - 1];
     && Balanced(before, id) && (op == IncLocal(id) ==> Held(before, id))
     && multiset(ops)[DecLocal(id)] <= multiset(ops)[AddOwned(id)] + multiset(ops)[IncLocal(id)])
  }

  lemma {:induction false} PlainBalance(ops: seq<Op>, id: ObjectId)
    requires Balanced(ops, id)
    ensures LocalRefs(ops, id) + multiset(ops)[DecLocal(id)] ==
            multiset(ops)[AddOwned(id)] + multiset(ops)[IncLocal(id)]
  {
    if ops == [] {
    } else {
      PlainBalance(ops[..|ops| - 1], id);
      assert ops == ops[..|ops| - 1] + [ops[|ops| - 1]];
    }
  }

  /** `release` gives back what `take` took. */
  predicate Undoes(take: Op, release: Op) {
    && take.id == release.id
    && match take
       case AddOwned(_) => release.DecLocal?
       case IncLocal(_) => release.DecLocal?
       case AddBorrower(_, w) => release == RemoveBorrower(take.id, w)
       case AddSubmitDep(_) => release.CompleteSubmitDep?
       case _ => false
  }

  /** Taking and giving back leaves the table as it was. It frees exactly when there was no entry before,
      unless a clone found none to count. */
  lemma TakeThenRelease(es: Entries, take: Op, release: Op)
    requires AllPinned(es) && Undoes(take, release)
    requires take.AddBorrower? ==> take.worker !in EntryOf(es, take.id).borrowers
    ensures Apply(Apply(es, take).0, release) == (es, take.id !in es && !take.IncLocal?)
  {
    if take.AddBorrower? {
      var b := EntryOf(es, take.id).borrowers;
      assert b + {take.worker} - {take.worker} == b;
    }
    if take.id in es { assert es[take.id := es[take.id]] == es; }
    assert take.id !in es ==> es - {take.id} == es;
    var mid := Apply(es, take).0;
    assert take.id in es ==> mid[take.id := es[take.id]] == es;
    assert take.id !in es ==> mid - {take.id} == es;
  }

  // ---------- The counter as it runs ----------

  class Counter {
    var entries: Entries

    constructor ()
      ensures entries == map[]
    {
      entries := map[];
    }

    method AddOwned(id: ObjectId)
      modifies this
      ensures (entries, false) == Apply(old(entries), Op.AddOwned(id))
    {
      var e := if id in entries then entries[id] else FRESH;
      entries := entries[id := e.(localCount := e.localCount + 1)];
    }

    method IncLocal(id: ObjectId) returns (count: nat)
      modifies this
      ensures (entries, false) == Apply(old(entries), Op.IncLocal(id))
      ensures count == if id in entries then entries[id].localCount else 0
    {
      if id !in entries {
        return 0;
      }
      count := entries[id].localCount + 1;
      entries := entries[id := entries[id].(localCount := count)];
    }

    method DecLocal(id: ObjectId) returns (freed: bool)
      modifies this
      ensures (entries, freed) == Apply(old(entries), Op.DecLocal(id))
    {
      if id !in entries {
        return false;
      }
      var e := entries[id];
      freed := Settle(id, e.(localCount := if e.localCount == 0 then 0 else e.localCount - 1));
    }

    method AddBorrower(id: ObjectId, worker: WorkerId) returns (isNew: bool)
      modifies this
      ensures (entries, false) == Apply(old(entries), Op.AddBorrower(id, worker))
      ensures isNew <==> worker !in EntryOf(old(entries), id).borrowers
    {
      var e := if id in entries then entries[id] else FRESH;
      isNew := worker !in e.borrowers;
      entries := entries[id := e.(borrowers := e.borrowers + {worker})];
    }

    method RemoveBorrower(id: ObjectId, worker: WorkerId) returns (freed: bool)
      modifies this
      ensures (entries, freed) == Apply(old(entries), Op.RemoveBorrower(id, worker))
    {
      if id !in entries {
        return false;
      }
      var e := entries[id];
      freed := Settle(id, e.(borrowers := e.borrowers - {worker}));
    }

    method AddSubmitDep(id: ObjectId)
      modifies this
      ensures (entries, false) == Apply(old(entries), Op.AddSubmitDep(id))
    {
      var e := if id in entries then entries[id] else FRESH;
      entries := entries[id := e.(submitDeps := e.submitDeps + 1)];
    }

    method CompleteSubmitDep(id: ObjectId) returns (freed: bool)
      modifies this
      ensures (entries, freed) == Apply(old(entries), Op.CompleteSubmitDep(id))
    {
      if id !in entries {
        return false;
      }
      var e := entries[id];
      freed := Settle(id, e.(submitDeps := if e.submitDeps == 0 then 0 else e.submitDeps - 1));
    }

    /** Store the decremented entry, or drop it when nothing pins it any more. */
    method Settle(id: ObjectId, e: OwnerEntry) returns (freed: bool)
      modifies this
      ensures freed == IsUnpinned(e)
      ensures entries == if freed then old(entries) - {id} else old(entries)[id := e]
    {
      freed := e.localCount == 0 && e.borrowers == {} && e.submitDeps == 0;
      entries := if freed then entries - {id} else entries[id := e];
    }

    /** Take every tracked id; all later releases find nothing. */
    method DrainIds() returns (ids: set<ObjectId>)
      modifies this
      ensures ids == old(entries).Keys && entries == map[]
      ensures forall op :: IsRelease(op) ==> Apply(entries, op) == (map[], false)
    {
      ids := entries.Keys;
      entries := map[];
    }
  }
}
