/** `CoreWorker` on its own thread: seal, spill, resolve and the spill-on-pressure pass, as methods
    over the tiers. What I/O does to each call is an input (`Fault`). */
module CoreWorker {
  import opened Bytes
  import opened Tiers

  const U64_MAX := 0xFFFF_FFFF_FFFF_FFFF

  /** Which step of a spill goes wrong, if any. */
  datatype Fault = NoFault | GetFails | StoreFails | DeleteFails

  datatype SpillResult = Spilled | NotInPlasma | SpillError

  datatype StoredEntry = Inline(obj: Object) | Plasma(index: PlasmaIndex)

  datatype ReadResult = Got(obj: Object) | Missing | ReadError

  type Entry = (ObjectId, nat)

  // ---------- Whole operations, run without interruption ----------

  /** A spill: read, store, delete. `Spilled` moved the bytes; `NotInPlasma` had nothing to do. */
  function AfterSpill(s: Store, id: ObjectId, fault: Fault): (Store, SpillResult) {
    if fault == GetFails then (s, SpillError)
    else if id !in s.plasma then (s, NotInPlasma)
    else if fault == StoreFails then (s, SpillError)
    else
      var stored := Apply(Apply(s, PutFile(id, s.plasma[id])), List(id));
      if fault == DeleteFails then (stored, SpillError) else (Apply(stored, Evict(id)), Spilled)
  }

  /** A plasma read that falls back to the spill directory and reseals what it restores. */
  function AfterRead(s: Store, id: ObjectId, intact: bool): (Store, ReadResult) {
    if id in s.plasma then (s, Got(s.plasma[id]))
    else if id !in s.directory then (s, Missing)
    else if !intact || id !in s.files then (Apply(s, Purge(id)), ReadError)
    else (Apply(s, PutPlasma(id, s.files[id])), Got(s.files[id]))
  }

  /** Every whole spill, whatever goes wrong in it, keeps every object's bytes right and a copy of it. */
  lemma SpillKeepsStore(s: Store, k: ObjectId, fault: Fault, id: ObjectId)
    requires Faithful(s, id) && Kept(s, id)
    ensures Faithful(AfterSpill(s, k, fault).0, id) && Kept(AfterSpill(s, k, fault).0, id)
  {
  }

  /** So does every whole read; what it gets is what was first sealed; and it misses a sealed object
      exactly when a failed read has purged its entry and plasma has no copy. */
  lemma ReadReturnsSealed(s: Store, k: ObjectId, intact: bool, id: ObjectId)
    requires Faithful(s, id) && Kept(s, id)
    ensures Faithful(AfterRead(s, k, intact).0, id) && Kept(AfterRead(s, k, intact).0, id)
    ensures k == id && AfterRead(s, k, intact).1.Got? ==>
            id in s.sealed && AfterRead(s, k, intact).1.obj == s.sealed[id]
    ensures k == id && id in s.sealed ==> (AfterRead(s, k, intact).1.Missing? <==> id !in s.plasma && id in s.purged)
  {
  }

  /** Spilling and reading back returns the same bytes and leaves plasma as it was. */
  lemma SpillThenRead(s: Store, id: ObjectId)
    requires id in s.plasma
    ensures var (spilled, r) := AfterSpill(s, id, NoFault);
            && r == Spilled && id !in spilled.plasma
            && AfterRead(spilled, id, true).0.plasma == s.plasma
            && AfterRead(spilled, id, true).1 == Got(s.plasma[id])
  {
  }

  // ---------- Sizes ----------

  /** Total size of the listed entries, and of those among them whose id is in `ids`. */
  function Total(entries: seq<Entry>): nat {
    if entries == [] then 0 else Total(entries[..|entries| - 1]) + entries[|entries| - 1].1
  }

  function TotalOf(entries: seq<Entry>, ids: set<ObjectId>): nat {
    if entries == [] then 0
    else TotalOf(entries[..|entries| - 1], ids)
         + if entries[|entries| - 1].0 in ids then entries[|entries| - 1].1 else 0
  }

  lemma {:induction false} TotalSplit(entries: seq<Entry>, k: nat)
    requires k <= |entries|
    ensures Total(entries) == Total(entries[..k]) + Total(entries[k..])
  {
    if k == |entries| {
      assert entries[..k] == entries;
    } else {
      var init := entries[..|entries| - 1];
      TotalSplit(init, k);
      assert init[..k] == entries[..k] && entries[k..][..|entries| - k - 1] == init[k..];
    }
  }

  lemma {:induction false} TotalOfMonotone(entries: seq<Entry>, a: set<ObjectId>, b: set<ObjectId>)
    requires forall i :: 0 <= i < |entries| && entries[i].0 in a ==> entries[i].0 in b
    ensures TotalOf(entries, a) <= TotalOf(entries, b)
  {
    if entries == [] {
    } else {
      TotalOfMonotone(entries[..|entries| - 1], a, b);
    }
  }

  lemma {:induction false} TotalOfBounded(entries: seq<Entry>, k: nat, a: set<ObjectId>)
    requires k <= |entries|
    ensures TotalOf(entries, a) <= TotalOf(entries[..k], a) + Total(entries[k..])
  {
    if k == |entries| {
      assert entries[..k] == entries;
    } else {
      var init := entries[..|entries| - 1];
      TotalOfBounded(init, k, a);
      assert init[..k] == entries[..k] && entries[k..][..|entries| - k - 1] == init[k..];
    }
  }

  function SaturatingSub(a: nat, b: nat): nat { if a < b then 0 else a - b }

  /** Entries are attempted in order while the estimate is above the threshold; `failed` holds the
      ids attempted and not freed. The estimate before attempt `k`: */
  function Estimate(entries: seq<Entry>, k: nat, failed: set<ObjectId>): nat
    requires k <= |entries|
  {
    Total(entries[k..]) + TotalOf(entries[..k], failed)
  }

  class Worker {
    var plasma: map<ObjectId, Object>
    var files: map<ObjectId, Object>
    var directory: set<ObjectId>
    var index: map<ObjectId, StoredEntry>
    var hasRecoverer: bool
    var hasPlasma: bool

    ghost var sealed: map<ObjectId, Object>
    ghost var purged: set<ObjectId>

    /** The tiers as `Tiers` has them; the index is kept beside them. */
    ghost function View(): Store
      reads this
    {
      Store(plasma, files, directory, map[], NONE, sealed, purged)
    }

    method SpillToRecoverer(id: ObjectId, fault: Fault) returns (r: SpillResult)
      modifies this`plasma, this`files, this`directory, this`purged
      ensures Attempted(old(View()), View(), id, r)
      ensures !hasRecoverer || !hasPlasma ==> r == SpillError && View() == old(View())
      ensures hasRecoverer && hasPlasma ==> (View(), r) == AfterSpill(old(View()), id, fault)
    {
      if !hasRecoverer || !hasPlasma || fault == GetFails {
        return SpillError;
      }
      if id !in plasma {
        return NotInPlasma;
      }
      var obj := plasma[id];
      if fault == StoreFails {
        return SpillError;
      }
      files := files[id := obj];
      directory, purged := directory + {id}, purged - {id};
      if fault == DeleteFails {
        return SpillError;
      }
      plasma := plasma - {id};
      return Spilled;
    }

    /** Resolve an indexed object; a plasma miss goes through the recoverer and reseals. */
    method ResolveNow(id: ObjectId, intact: bool) returns (r: ReadResult)
      modifies this`plasma, this`directory, this`purged
      ensures id !in index ==> r == Missing && View() == old(View())
      ensures id in index && index[id].Inline? ==> r == Got(index[id].obj) && View() == old(View())
      ensures id in index && index[id].Plasma? && !hasPlasma ==> r == ReadError && View() == old(View())
      ensures id in index && index[id].Plasma? && hasPlasma ==>
        if hasRecoverer || id in old(plasma) then
          && View() == AfterRead(old(View()), id, intact).0
          && r == match AfterRead(old(View()), id, intact).1
                  case Got(obj) => Got(Object(index[id].index.metadata, obj.data))
                  case other => other
        else r == Missing && View() == old(View())
    {
      if id !in index {
        return Missing;
      }
      match index[id] {
        case Inline(obj) => return Got(obj);
        case Plasma(idx) =>
          if !hasPlasma {
            return ReadError;
          }
          if id in plasma {
            return Got(Object(idx.metadata, plasma[id].data));
          }
          if !hasRecoverer || id !in directory {
            return Missing;
          }
          if !intact || id !in files {
            directory, purged := directory - {id}, purged + {id};
            return ReadError;
          }
          var obj := files[id];
          plasma := plasma[id := obj];
          return Got(Object(idx.metadata, obj.data));
      }
    }

    /** Every plasma-resident entry of the index with its size, in some order. */
    method PlasmaEntries() returns (entries: seq<Entry>)
      ensures Lists(entries, index, index.Keys)
    {
      entries := [];
      var todo := index.Keys;
      while todo != {}
        invariant todo <= index.Keys && Lists(entries, index, index.Keys - todo)
        decreases |todo|
      {
        var id :| id in todo;
        ghost var before := entries;
        if index[id].Plasma? {
          entries := entries + [(id, index[id].index.dataSize)];
          assert entries[|entries| - 1].0 == id;
        }
        forall other | other in index.Keys - todo && index[other].Plasma? ensures Among(entries, |entries|, other) {
          var i :| 0 <= i < |before| && before[i].0 == other;
          assert entries[i].0 == other;
        }
        todo := todo - {id};
      }
      assert index.Keys - todo == index.Keys;
    }

    /** One pressure pass over a snapshot of the index. Nothing is attempted once the estimate is at
        or below the threshold; the subtraction is exact; and afterwards the indexed bytes still in
        plasma fit under the threshold, unless what failed to spill is alone larger than it. */
    method MaybeSpillForPressure(threshold: nat, faults: map<ObjectId, Fault>)
      returns (spilled: nat, estimate: nat, ghost entries: seq<Entry>, ghost attempted: nat,
          ghost failed: set<ObjectId>)
      modifies this`plasma, this`files, this`directory, this`purged
      ensures Lists(entries, index, index.Keys)
      ensures attempted <= |entries| && estimate == Estimate(entries, attempted, failed)
      ensures forall k :: 0 <= k < attempted ==> threshold != U64_MAX && Estimate(entries, k, failed) > threshold
      ensures threshold != U64_MAX && attempted < |entries| ==> estimate <= threshold
      ensures spilled == |old(plasma).Keys - plasma.Keys|
      ensures forall id :: id in failed ==> id in Blocked(faults) && Among(entries, attempted, id)
      ensures Moved(old(plasma), plasma, files, directory)
      ensures forall id :: id in old(plasma) && (id in failed || !Among(entries, attempted, id)) ==>
        id in plasma && plasma[id] == old(plasma)[id]
      ensures threshold != U64_MAX ==>
        TotalOf(entries, plasma.Keys) <= threshold || TotalOf(entries, plasma.Keys) <= TotalOf(entries, failed)
    {
      var list := PlasmaEntries();
      entries := list;
      var total := SumSizes(list);
      if threshold == U64_MAX {
        assert list[0..] == list;
        spilled, estimate, attempted, failed := 0, total, 0, {};
      } else {
        spilled, estimate, attempted, failed := SpillWhileOver(threshold, list, total, faults);
        PassEnd(list, old(plasma), plasma, attempted, failed, threshold);
      }
    }

    /** A spill, as far as the pass cares. */
    method SpillForPass(id: ObjectId, faults: map<ObjectId, Fault>, ghost blocked: iset<ObjectId>)
      returns (r: SpillResult)
      requires Blocked(faults) == blocked
      modifies this`plasma, this`files, this`directory, this`purged
      ensures Blocked(faults) == blocked
      ensures Attempted(old(View()), View(), id, r) && (r == SpillError ==> id in blocked)
    {
      r := SpillToRecoverer(id, if id in faults then faults[id] else NoFault);
    }

    /** One turn of the pass: spill the `k`-th entry and update the running estimate. */
    method Attempt(list: seq<Entry>, k: nat, faults: map<ObjectId, Fault>, current: nat, spilled: nat,
                   ghost was: map<ObjectId, Object>, ghost failed: set<ObjectId>, ghost threshold: nat,
                   ghost blocked: iset<ObjectId>)
      returns (current': nat, spilled': nat, ghost failed': set<ObjectId>)
      requires Blocked(faults) == blocked
      requires k < |list| && PassState(list, was, View(), k, failed, threshold, spilled, blocked)
      requires current == Estimate(list, k, failed) > threshold
      modifies this`plasma, this`files, this`directory, this`purged
      ensures Blocked(faults) == blocked
      ensures PassState(list, was, View(), k + 1, failed', threshold, spilled', blocked)
      ensures current' == Estimate(list, k + 1, failed')
    {
      var id, size := list[k].0, list[k].1;
      ghost var before := View();
      var r := SpillForPass(id, faults, blocked);
      ghost var after := View();
      AttemptStep(list, was, before, after, k, failed, threshold, spilled, blocked, r);
      failed' := if r == SpillError then failed + {id} else failed;
      current' := if r == SpillError then current else SaturatingSub(current, size);
      spilled' := if r == Spilled then spilled + 1 else spilled;
    }

    /** The ids whose spill cannot succeed now. */
    ghost function Blocked(faults: map<ObjectId, Fault>): iset<ObjectId>
      reads this
    {
      iset id | !hasRecoverer || !hasPlasma || (id in faults && faults[id] != NoFault)
    }

    method SpillWhileOver(threshold: nat, list: seq<Entry>, total: nat, faults: map<ObjectId, Fault>)
      returns (spilled: nat, current: nat, ghost i: nat, ghost failed: set<ObjectId>)
      requires total == Total(list) && forall j, k :: 0 <= j < k < |list| ==> list[j].0 != list[k].0
      modifies this`plasma, this`files, this`directory, this`purged
      ensures PassState(list, old(plasma), View(), i, failed, threshold, spilled, Blocked(faults))
      ensures current == Estimate(list, i, failed) && (i < |list| ==> current <= threshold)
    {
      ghost var was, blocked := plasma, Blocked(faults);
      current, spilled, failed := total, 0, {};
      var k := 0;
      PassBegins(list, View(), threshold, blocked);
      while k < |list| && current > threshold
        invariant Blocked(faults) == blocked
        invariant PassState(list, was, View(), k, failed, threshold, spilled, blocked)
        invariant current == Estimate(list, k, failed)
      {
        current, spilled, failed := Attempt(list, k, faults, current, spilled, was, failed, threshold, blocked);
        k := k + 1;
      }
      i := k;
    }
  }

  /** What has left plasma is in the spill directory, with its bytes. */
  ghost predicate Moved(was: map<ObjectId, Object>, now: map<ObjectId, Object>, files: map<ObjectId, Object>,
      directory: set<ObjectId>) {
    forall id :: id in was && id !in now ==> id in directory && id in files && files[id] == was[id]
  }

  /** One attempted spill, in the pass's bookkeeping. */
  lemma MovedStep(was: map<ObjectId, Object>, now: map<ObjectId, Object>, files: map<ObjectId, Object>,
      directory: set<ObjectId>,
                  files': map<ObjectId, Object>, directory': set<ObjectId>, id: ObjectId, r: SpillResult)
    requires Moved(was, now, files, directory) && (forall k :: k in now ==> k in was && now[k] == was[k])
    requires directory <= directory' && (forall k :: k in files && k !in now ==> k in files' && files'[k] == files[k])
    requires r == Spilled ==> id in now && id in directory' && id in files' && files'[id] == now[id]
    ensures var now' := if r == Spilled then now - {id} else now;
            && Moved(was, now', files', directory')
            && |was.Keys - now'.Keys| == |was.Keys - now.Keys| + (if r == Spilled then 1 else 0)
  {
  }

  predicate Among(entries: seq<Entry>, k: nat, id: ObjectId)
    requires k <= |entries|
  {
    exists j :: 0 <= j < k && entries[j].0 == id
  }

  /** `entries` lists the plasma-resident ids among `ids`, each once, with their sizes. */
  ghost predicate Lists(entries: seq<Entry>, index: map<ObjectId, StoredEntry>, ids: set<ObjectId>) {
    && ids <= index.Keys
    && (forall i :: 0 <= i < |entries| ==>
          entries[i].0 in ids && index[entries[i].0].Plasma? && entries[i].1 == index[entries[i].0].index.dataSize)
    && (forall id :: id in ids && index[id].Plasma? ==> Among(entries, |entries|, id))
    && (forall i, j :: 0 <= i < j < |entries| ==> entries[i].0 != entries[j].0)
  }

  /** A pass after `i` attempts: what was attempted is out of plasma or has failed, and nothing else
      has changed. */
  ghost predicate Passing(entries: seq<Entry>, was: map<ObjectId, Object>, now: map<ObjectId, Object>,
                          i: nat, failed: set<ObjectId>, threshold: nat)
  {
    && i <= |entries|
    && (forall j, k :: 0 <= j < k < |entries| ==> entries[j].0 != entries[k].0)
    && (forall k :: 0 <= k < i ==> Estimate(entries, k, failed) > threshold)
    && Removed(entries, was, now, i, failed)
  }

  ghost predicate Removed(entries: seq<Entry>, was: map<ObjectId, Object>, now: map<ObjectId, Object>,
                          i: nat, failed: set<ObjectId>)
    requires i <= |entries|
  {
    && (forall k :: 0 <= k < i && entries[k].0 in now ==> entries[k].0 in failed)
    && (forall id :: id in failed ==> (id in now <==> id in was) && Among(entries, i, id))
    && (forall id :: id in now ==> id in was && now[id] == was[id])
    && (forall id :: id in was && id !in now ==> Among(entries, i, id))
  }

  /** Everything a pass keeps: `Passing`, the count of what was moved, where it is, and that whatever
      failed was bound to. */
  ghost predicate PassState(entries: seq<Entry>, was: map<ObjectId, Object>, s: Store, i: nat, failed: set<ObjectId>,
                            threshold: nat, spilled: nat, blocked: iset<ObjectId>)
  {
    && Passing(entries, was, s.plasma, i, failed, threshold)
    && spilled == |was.Keys - s.plasma.Keys| && Moved(was, s.plasma, s.files, s.directory)
    && (forall id :: id in failed ==> id in blocked)
  }

  lemma PassBegins(entries: seq<Entry>, s: Store, threshold: nat, blocked: iset<ObjectId>)
    requires forall j, k :: 0 <= j < k < |entries| ==> entries[j].0 != entries[k].0
    ensures PassState(entries, s.plasma, s, 0, {}, threshold, 0, blocked)
    ensures Estimate(entries, 0, {}) == Total(entries)
  {
    assert entries[0..] == entries && entries[..0] == [] && s.plasma.Keys - s.plasma.Keys == {};
  }

  /** What every spill of `id` does to the tiers, whatever goes wrong. */
  ghost predicate Attempted(s: Store, s': Store, id: ObjectId, r: SpillResult) {
    && s'.plasma == (if r == Spilled then s.plasma - {id} else s.plasma)
    && (r == NotInPlasma ==> id !in s.plasma)
    && s.directory <= s'.directory
    && (forall k :: k in s.files && k !in s.plasma ==> k in s'.files && s'.files[k] == s.files[k])
    && (r == Spilled ==> id in s.plasma && id in s'.directory && id in s'.files && s'.files[id] == s.plasma[id])
  }

  lemma AttemptStep(entries: seq<Entry>, was: map<ObjectId, Object>, s: Store, s': Store, i: nat, failed: set<ObjectId>,
                    threshold: nat, spilled: nat, blocked: iset<ObjectId>, r: SpillResult)
    requires i < |entries| && PassState(entries, was, s, i, failed, threshold, spilled, blocked)
    requires Estimate(entries, i, failed) > threshold && Attempted(s, s', entries[i].0, r)
    requires r == SpillError ==> entries[i].0 in blocked
    ensures var id := entries[i].0;
            var failed' := if r == SpillError then failed + {id} else failed;
            && PassState(entries, was, s', i + 1, failed', threshold, if r == Spilled then spilled + 1 else spilled,
                blocked)
            && Estimate(entries, i, failed) >= entries[i].1
            && Estimate(entries, i + 1, failed') ==
               if r == SpillError then Estimate(entries, i, failed) else Estimate(entries, i, failed) - entries[i].1
  {
    PassStep(entries, was, s.plasma, i, failed, threshold, r);
    MovedStep(was, s.plasma, s.files, s.directory, s'.files, s'.directory, entries[i].0, r);
  }

  lemma AmongLonger(entries: seq<Entry>, i: nat, id: ObjectId)
    requires i < |entries|
    ensures Among(entries, i + 1, id) <==> Among(entries, i, id) || id == entries[i].0
  {
  }

  lemma PassStep(entries: seq<Entry>, was: map<ObjectId, Object>, now: map<ObjectId, Object>,
                 i: nat, failed: set<ObjectId>, threshold: nat, r: SpillResult)
    requires Passing(entries, was, now, i, failed, threshold) && i < |entries|
    requires Estimate(entries, i, failed) > threshold && (r == NotInPlasma ==> entries[i].0 !in now)
    ensures var id := entries[i].0;
            var failed' := if r == SpillError then failed + {id} else failed;
            && Passing(entries, was, if r == Spilled then now - {id} else now, i + 1, failed', threshold)
            && Estimate(entries, i, failed) >= entries[i].1
            && Estimate(entries, i + 1, failed') ==
               if r == SpillError then Estimate(entries, i, failed) else Estimate(entries, i, failed) - entries[i].1
  {
    var id := entries[i].0;
    var failed' := if r == SpillError then failed + {id} else failed;
    var now' := if r == Spilled then now - {id} else now;
    assert id !in failed;
    NextEstimate(entries, i, failed, id);
    forall k | 0 <= k <= i ensures Estimate(entries, k, failed') > threshold {
      EstimateIgnoresLater(entries, k, failed, failed', id);
    }
    RemovedStep(entries, was, now, i, failed, r);
  }

  lemma RemovedStep(entries: seq<Entry>, was: map<ObjectId, Object>, now: map<ObjectId, Object>,
                    i: nat, failed: set<ObjectId>, r: SpillResult)
    requires i < |entries| && Removed(entries, was, now, i, failed) && (r == NotInPlasma ==> entries[i].0 !in now)
    requires entries[i].0 !in failed && forall j :: 0 <= j < i ==> entries[j].0 != entries[i].0
    ensures var id := entries[i].0;
            Removed(entries, was, if r == Spilled then now - {id} else now, i + 1,
                    if r == SpillError then failed + {id} else failed)
  {
    var id := entries[i].0;
    forall x ensures Among(entries, i + 1, x) <==> Among(entries, i, x) || x == id {
      AmongLonger(entries, i, x);
    }
    NotGoneYet(entries, was, now, i, failed);
  }

  /** An entry not attempted yet is in plasma if it ever was. */
  lemma NotGoneYet(entries: seq<Entry>, was: map<ObjectId, Object>, now: map<ObjectId, Object>,
                   i: nat, failed: set<ObjectId>)
    requires i < |entries| && Removed(entries, was, now, i, failed)
    requires forall j :: 0 <= j < i ==> entries[j].0 != entries[i].0
    ensures entries[i].0 in was <==> entries[i].0 in now
  {
  }

  lemma PassEnd(entries: seq<Entry>, was: map<ObjectId, Object>, now: map<ObjectId, Object>,
                i: nat, failed: set<ObjectId>, threshold: nat)
    requires Passing(entries, was, now, i, failed, threshold)
    ensures TotalOf(entries, now.Keys) <= Estimate(entries, i, failed)
    ensures i == |entries| ==> Estimate(entries, i, failed) == TotalOf(entries, failed)
  {
    TotalOfMonotone(entries[..i], now.Keys, failed);
    TotalOfBounded(entries, i, now.Keys);
    assert i == |entries| ==> entries[..i] == entries && entries[i..] == [];
  }

  method SumSizes(entries: seq<Entry>) returns (sum: nat)
    ensures sum == Total(entries)
  {
    sum := 0;
    var i := 0;
    while i < |entries|
      invariant 0 <= i <= |entries| && sum == Total(entries[..i])
    {
      assert entries[..i + 1][..i] == entries[..i];
      sum := sum + entries[i].1;
      i := i + 1;
    }
    assert entries[..i] == entries;
  }

  /** The estimate after attempt `k`: unchanged if it failed, less the entry's size otherwise. */
  lemma NextEstimate(entries: seq<Entry>, k: nat, failed: set<ObjectId>, id: ObjectId)
    requires k < |entries| && id == entries[k].0 && id !in failed
    requires forall j :: 0 <= j < k ==> entries[j].0 != id
    ensures Estimate(entries, k + 1, failed + {id}) == Estimate(entries, k, failed)
    ensures Estimate(entries, k + 1, failed) == Estimate(entries, k, failed) - entries[k].1
    ensures Estimate(entries, k, failed) >= entries[k].1
  {
    assert entries[..k + 1][..k] == entries[..k];
    TotalSplit(entries[k..], 1);
    assert entries[k..][..1] == [entries[k]] && entries[k..][1..] == entries[k + 1..];
    var one: seq<Entry> := [entries[k]];
    assert one[..0] == [];
    TotalOfMonotone(entries[..k], failed + {id}, failed);
    TotalOfMonotone(entries[..k], failed, failed + {id});
  }

  lemma EstimateIgnoresLater(entries: seq<Entry>, k: nat, failed: set<ObjectId>, failed': set<ObjectId>, id: ObjectId)
    requires k <= |entries| && (failed' == failed || failed' == failed + {id})
    requires forall j :: 0 <= j < k ==> entries[j].0 != id
    ensures Estimate(entries, k, failed') == Estimate(entries, k, failed)
  {
    TotalOfMonotone(entries[..k], failed', failed);
    TotalOfMonotone(entries[..k], failed, failed');
  }
}
