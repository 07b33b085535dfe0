/** The plasma store: an object table over one shared byte arena that is written by object creators and
    read, without copying, by everyone who got a handle. A creation takes the table lock twice and the
    arena's twice in between, so several may be under way at once, even of the same id. */
module Plasma {
  import opened Bytes
  import opened Arena

  type ObjectId = seq<byte>

  datatype SlotInfo = SlotInfo(metadataOffset: nat, metadataSize: nat, dataOffset: nat, dataSize: nat)

  /** How far a creation has got: past the existence test, with space for the metadata, with space for
      both, in the table; then how far its creator has written it. Or out of memory. */
  datatype Progress = Begun | MetadataPlaced | Placed | Unwritten | MetadataWritten | Written | Failed

  /** A creation: its id, the bytes its creator passed, where they go. Slots are numbered in the order in
      which their creations began; they outlive the table entry. */
  datatype Slot = Slot(id: ObjectId, metadata: seq<byte>, data: seq<byte>, metadataOffset: nat, dataOffset: nat,
      progress: Progress)

  datatype Entry = Entry(slot: nat, info: SlotInfo, sealed: bool)

  datatype ReadHandle = ReadHandle(slot: nat, info: SlotInfo)

  datatype Plasma = Plasma(
    memory: seq<byte>, bump: nat, table: map<ObjectId, Entry>, slots: seq<Slot>, handles: seq<ReadHandle>)

  datatype Step =
    | BeginCreate(id: ObjectId, metadata: seq<byte>, data: seq<byte>)
    | PlaceMetadata(slot: nat)
    | PlaceData(slot: nat)
    | Insert(slot: nat)
    | WriteMetadata(slot: nat)
    | WriteData(slot: nat)
    | Seal(id: ObjectId)
    | Get(id: ObjectId)
    | Delete(id: ObjectId)

  // ---------- Memory ----------

  function Patch(memory: seq<byte>, offset: nat, bytes: seq<byte>): (r: seq<byte>)
    requires offset + |bytes| <= |memory|
    ensures |r| == |memory|
  {
    memory[..offset] + bytes + memory[offset + |bytes|..]
  }

  lemma PatchReads(memory: seq<byte>, offset: nat, bytes: seq<byte>, lo: nat, hi: nat)
    requires offset + |bytes| <= |memory| && lo <= hi <= |memory|
    ensures Patch(memory, offset, bytes)[offset..offset + |bytes|] == bytes
    ensures hi <= offset || offset + |bytes| <= lo ==> Patch(memory, offset, bytes)[lo..hi] == memory[lo..hi]
  {
  }

  /** Filling a slice of the mapping, as a write handle does. */
  method CopyInto(mapping: array<byte>, offset: nat, bytes: seq<byte>)
    requires offset + |bytes| <= mapping.Length
    modifies mapping
    ensures mapping[..] == Patch(old(mapping[..]), offset, bytes)
  {
    for i := 0 to |bytes|
      invariant forall k :: 0 <= k < mapping.Length ==>
        mapping[k] == if offset <= k < offset + i then bytes[k - offset] else old(mapping[k])
    {
      mapping[offset + i] := bytes[i];
    }
  }

  // ---------- Requests ----------

  function Start(capacity: nat): Plasma {
    Plasma(seq(capacity, i => 0), 0, map[], [], [])
  }

  function InfoOf(slot: Slot): SlotInfo {
    SlotInfo(slot.metadataOffset, |slot.metadata|, slot.dataOffset, |slot.data|)
  }

  function SetSlot(s: Plasma, k: nat, slot: Slot): Plasma
    requires k < |s.slots|
  {
    s.(slots := s.slots[k := slot])
  }

  /** The two allocations of a creation; when only the first fits, its space is gone all the same. */
  function DoPlaceMetadata(s: Plasma, k: nat, slot: Slot): Plasma
    requires k < |s.slots|
  {
    match Place(|s.memory|, s.bump, |slot.metadata|)
    case None => SetSlot(s, k, slot.(progress := Failed))
    case Some(offset) =>
      SetSlot(s, k, slot.(metadataOffset := offset, progress := MetadataPlaced)).(bump := offset + |slot.metadata|)
  }

  function DoPlaceData(s: Plasma, k: nat, slot: Slot): Plasma
    requires k < |s.slots|
  {
    match Place(|s.memory|, s.bump, |slot.data|)
    case None => SetSlot(s, k, slot.(progress := Failed))
    case Some(offset) => SetSlot(s, k, slot.(dataOffset := offset, progress := Placed)).(bump := offset + |slot.data|)
  }

  function DoInsert(s: Plasma, k: nat, slot: Slot): Plasma
    requires k < |s.slots|
  {
    SetSlot(s, k, slot.(progress := Unwritten)).(table := s.table[slot.id := Entry(k, InfoOf(slot), false)])
  }

  function DoWrite(s: Plasma, k: nat, offset: nat, bytes: seq<byte>, slot': Slot): Plasma
    requires k < |s.slots|
  {
    if offset + |bytes| > |s.memory| then s
    else SetSlot(s, k, slot').(memory := Patch(s.memory, offset, bytes))
  }

  function SlotStep(s: Plasma, step: Step, k: nat): Plasma
    requires k < |s.slots|
  {
    var slot := s.slots[k];
    match step
    case PlaceMetadata(_) => if slot.progress == Begun then DoPlaceMetadata(s, k, slot) else s
    case PlaceData(_) => if slot.progress == MetadataPlaced then DoPlaceData(s, k, slot) else s
    case Insert(_) => if slot.progress == Placed then DoInsert(s, k, slot) else s
    case WriteMetadata(_) =>
      if slot.progress != Unwritten then s
      else DoWrite(s, k, slot.metadataOffset, slot.metadata, slot.(progress := MetadataWritten))
    case WriteData(_) =>
      if slot.progress != MetadataWritten then s
      else DoWrite(s, k, slot.dataOffset, slot.data, slot.(progress := Written))
    case _ => s
  }

  function Next(s: Plasma, step: Step): Plasma {
    match step
    case BeginCreate(id, metadata, data) =>
      if id in s.table then s else s.(slots := s.slots + [Slot(id, metadata, data, 0, 0, Begun)])
    case Seal(id) =>
      if id in s.table && !s.table[id].sealed then s.(table := s.table[id := s.table[id].(sealed := true)]) else s
    case Get(id) =>
      if id in s.table && s.table[id].sealed
      then s.(handles := s.handles + [ReadHandle(s.table[id].slot, s.table[id].info)])
      else s
    case Delete(id) => s.(table := s.table - {id})
    case _ => if step.slot < |s.slots| then SlotStep(s, step, step.slot) else s
  }

  function Run(capacity: nat, steps: seq<Step>): Plasma {
    if steps == [] then Start(capacity) else Next(Run(capacity, steps[..|steps| - 1]), steps[|steps| - 1])
  }

  // ---------- What the arena guarantees ----------

  predicate HasMetadata(slot: Slot) { slot.progress != Begun && slot.progress != Failed }

  predicate HasData(slot: Slot) { HasMetadata(slot) && slot.progress != MetadataPlaced }

  predicate Inserted(slot: Slot) { HasData(slot) && slot.progress != Placed }

  function MetadataEnd(slot: Slot): nat { slot.metadataOffset + |slot.metadata| }
  function DataEnd(slot: Slot): nat { slot.dataOffset + |slot.data| }

  /** What a slot has been given lies below the bump mark, the metadata before the data. */
  predicate SlotOk(bump: nat, slot: Slot) {
    && (HasMetadata(slot) ==> MetadataEnd(slot) <= bump)
    && (HasData(slot) ==> MetadataEnd(slot) <= slot.dataOffset && DataEnd(slot) <= bump)
  }

  predicate Clear(from: nat, to: nat, from': nat, to': nat) { to <= from' || to' <= from }

  /** A stretch of memory overlaps nothing a slot has been given. */
  predicate ClearOf(from: nat, to: nat, slot: Slot) {
    && (HasMetadata(slot) ==> Clear(from, to, slot.metadataOffset, MetadataEnd(slot)))
    && (HasData(slot) ==> Clear(from, to, slot.dataOffset, DataEnd(slot)))
  }

  predicate Apart(a: Slot, b: Slot) {
    && (HasMetadata(a) ==> ClearOf(a.metadataOffset, MetadataEnd(a), b))
    && (HasData(a) ==> ClearOf(a.dataOffset, DataEnd(a), b))
  }

  /** Whatever a creator has written so far is still there. */
  predicate Intact(memory: seq<byte>, slot: Slot) {
    && (slot.progress == MetadataWritten || slot.progress == Written ==>
        MetadataEnd(slot) <= |memory| && memory[slot.metadataOffset..MetadataEnd(slot)] == slot.metadata)
    && (slot.progress == Written ==> DataEnd(slot) <= |memory| && memory[slot.dataOffset..DataEnd(slot)] == slot.data)
  }

  ghost predicate SlotsInv(s: Plasma) {
    && s.bump <= |s.memory|
    && (forall i :: 0 <= i < |s.slots| ==> SlotOk(s.bump, s.slots[i]))
    && (forall i, j :: 0 <= i < |s.slots| && 0 <= j < |s.slots| && i != j ==> Apart(s.slots[i], s.slots[j]))
    && (forall i :: 0 <= i < |s.slots| ==> Intact(s.memory, s.slots[i]))
  }

  ghost predicate RefsInv(s: Plasma) {
    && (forall id :: id in s.table ==> Refers(s, s.table[id].slot, s.table[id].info))
    && (forall h :: h in s.handles ==> Refers(s, h.slot, h.info))
  }

  predicate Refers(s: Plasma, k: nat, info: SlotInfo) {
    k < |s.slots| && Inserted(s.slots[k]) && info == InfoOf(s.slots[k])
  }

  /** A new stretch above the bump mark overlaps nothing. */
  lemma AboveIsClear(bump: nat, from: nat, to: nat, slot: Slot)
    requires SlotOk(bump, slot) && bump <= from
    ensures ClearOf(from, to, slot)
  {
  }

  lemma ApartSymmetric(a: Slot, b: Slot)
    requires Apart(a, b)
    ensures Apart(b, a)
  {
  }

  /** Replacing one slot by one that is apart from all others, with the memory it needs intact. */
  lemma ReplaceSlot(s: Plasma, k: nat, slot: Slot, bump: nat, memory: seq<byte>)
    requires SlotsInv(s) && k < |s.slots| && s.bump <= bump <= |memory| && SlotOk(bump, slot) && Intact(memory, slot)
    requires forall i :: 0 <= i < |s.slots| && i != k ==> Apart(slot, s.slots[i]) && Intact(memory, s.slots[i])
    ensures SlotsInv(s.(slots := s.slots[k := slot], bump := bump, memory := memory))
  {
    var s' := s.(slots := s.slots[k := slot], bump := bump, memory := memory);
    forall i, j | 0 <= i < |s.slots| && 0 <= j < |s.slots| && i != j ensures Apart(s'.slots[i], s'.slots[j]) {
      if j == k { ApartSymmetric(slot, s.slots[i]); } else if i != k { assert Apart(s.slots[i], s.slots[j]); }
    }
    forall i | 0 <= i < |s.slots| ensures SlotOk(bump, s'.slots[i]) {
      if i != k { assert SlotOk(s.bump, s.slots[i]); }
    }
  }

  lemma PlaceMetadataKeeps(s: Plasma, k: nat)
    requires SlotsInv(s) && k < |s.slots| && s.slots[k].progress == Begun
    ensures SlotsInv(DoPlaceMetadata(s, k, s.slots[k]))
  {
    var s' := DoPlaceMetadata(s, k, s.slots[k]);
    var slot := s'.slots[k];
    forall i | 0 <= i < |s.slots| && i != k ensures Apart(slot, s.slots[i]) && Intact(s.memory, s.slots[i]) {
      assert SlotOk(s.bump, s.slots[i]);
      AboveIsClear(s.bump, AlignUp(s.bump), MetadataEnd(slot), s.slots[i]);
    }
    ReplaceSlot(s, k, slot, s'.bump, s.memory);
  }

  lemma PlaceDataKeeps(s: Plasma, k: nat)
    requires SlotsInv(s) && k < |s.slots| && s.slots[k].progress == MetadataPlaced
    ensures SlotsInv(DoPlaceData(s, k, s.slots[k]))
  {
    var s' := DoPlaceData(s, k, s.slots[k]);
    var slot := s'.slots[k];
    assert SlotOk(s.bump, s.slots[k]);
    forall i | 0 <= i < |s.slots| && i != k ensures Apart(slot, s.slots[i]) && Intact(s.memory, s.slots[i]) {
      assert SlotOk(s.bump, s.slots[i]) && Apart(s.slots[k], s.slots[i]);
      AboveIsClear(s.bump, AlignUp(s.bump), DataEnd(slot), s.slots[i]);
    }
    ReplaceSlot(s, k, slot, s'.bump, s.memory);
  }

  lemma InsertKeeps(s: Plasma, k: nat)
    requires SlotsInv(s) && k < |s.slots| && s.slots[k].progress == Placed
    ensures SlotsInv(DoInsert(s, k, s.slots[k]))
  {
    var slot := s.slots[k].(progress := Unwritten);
    assert SlotOk(s.bump, s.slots[k]);
    forall i | 0 <= i < |s.slots| && i != k ensures Apart(slot, s.slots[i]) { assert Apart(s.slots[k], s.slots[i]); }
    ReplaceSlot(s, k, slot, s.bump, s.memory);
  }

  /** A write clear of a slot leaves what was written in it. */
  lemma WriteElsewhere(memory: seq<byte>, offset: nat, bytes: seq<byte>, slot: Slot)
    requires offset + |bytes| <= |memory| && Intact(memory, slot) && ClearOf(offset, offset + |bytes|, slot)
    ensures Intact(Patch(memory, offset, bytes), slot)
  {
    if slot.progress == MetadataWritten || slot.progress == Written {
      PatchReads(memory, offset, bytes, slot.metadataOffset, MetadataEnd(slot));
    }
    if slot.progress == Written { PatchReads(memory, offset, bytes, slot.dataOffset, DataEnd(slot)); }
  }

  lemma WriteMetadataKeeps(s: Plasma, k: nat)
    requires SlotsInv(s) && k < |s.slots| && s.slots[k].progress == Unwritten
    ensures SlotsInv(SlotStep(s, WriteMetadata(k), k))
  {
    var slot := s.slots[k];
    assert SlotOk(s.bump, slot);
    PatchReads(s.memory, slot.metadataOffset, slot.metadata, 0, 0);
    var memory := Patch(s.memory, slot.metadataOffset, slot.metadata);
    forall i | 0 <= i < |s.slots| && i != k
      ensures Apart(slot.(progress := MetadataWritten), s.slots[i]) && Intact(memory, s.slots[i])
    {
      assert Apart(slot, s.slots[i]);
      WriteElsewhere(s.memory, slot.metadataOffset, slot.metadata, s.slots[i]);
    }
    ReplaceSlot(s, k, slot.(progress := MetadataWritten), s.bump, memory);
  }

  lemma WriteDataKeeps(s: Plasma, k: nat)
    requires SlotsInv(s) && k < |s.slots| && s.slots[k].progress == MetadataWritten
    ensures SlotsInv(SlotStep(s, WriteData(k), k))
  {
    var slot := s.slots[k];
    assert SlotOk(s.bump, slot) && Intact(s.memory, slot);
    PatchReads(s.memory, slot.dataOffset, slot.data, slot.metadataOffset, MetadataEnd(slot));
    var memory := Patch(s.memory, slot.dataOffset, slot.data);
    forall i | 0 <= i < |s.slots| && i != k
      ensures Apart(slot.(progress := Written), s.slots[i]) && Intact(memory, s.slots[i])
    {
      assert Apart(slot, s.slots[i]);
      WriteElsewhere(s.memory, slot.dataOffset, slot.data, s.slots[i]);
    }
    ReplaceSlot(s, k, slot.(progress := Written), s.bump, memory);
  }

  lemma SlotsStep(s: Plasma, step: Step)
    requires SlotsInv(s)
    ensures SlotsInv(Next(s, step))
  {
    match step
    case BeginCreate(_, _, _) =>
    case PlaceMetadata(k) => if k < |s.slots| && s.slots[k].progress == Begun { PlaceMetadataKeeps(s, k); }
    case PlaceData(k) => if k < |s.slots| && s.slots[k].progress == MetadataPlaced { PlaceDataKeeps(s, k); }
    case Insert(k) => if k < |s.slots| && s.slots[k].progress == Placed { InsertKeeps(s, k); }
    case WriteMetadata(k) => if k < |s.slots| && s.slots[k].progress == Unwritten { WriteMetadataKeeps(s, k); }
    case WriteData(k) => if k < |s.slots| && s.slots[k].progress == MetadataWritten { WriteDataKeeps(s, k); }
    case _ =>
  }

  lemma RefersStep(s: Plasma, step: Step, k: nat, info: SlotInfo)
    requires Refers(s, k, info)
    ensures Refers(Next(s, step), k, info)
  {
  }

  lemma RefsStep(s: Plasma, step: Step)
    requires RefsInv(s)
    ensures RefsInv(Next(s, step))
  {
    var s' := Next(s, step);
    forall id | id in s'.table ensures Refers(s', s'.table[id].slot, s'.table[id].info) {
      if id in s.table && s'.table[id].slot == s.table[id].slot && s'.table[id].info == s.table[id].info {
        RefersStep(s, step, s.table[id].slot, s.table[id].info);
      }
    }
    forall h | h in s'.handles ensures Refers(s', h.slot, h.info) { RefersStep(s, step, h.slot, h.info); }
  }

  lemma {:induction false} InvOverRuns(capacity: nat, steps: seq<Step>)
    ensures SlotsInv(Run(capacity, steps)) && RefsInv(Run(capacity, steps))
  {
    if steps == [] {
    } else {
      InvOverRuns(capacity, steps[..|steps| - 1]);
      SlotsStep(Run(capacity, steps[..|steps| - 1]), steps[|steps| - 1]);
      RefsStep(Run(capacity, steps[..|steps| - 1]), steps[|steps| - 1]);
    }
  }

  // ---------- What a read handle shows ----------

  /** The slices a handle projects out of the mapping. */
  function Shown(s: Plasma, h: ReadHandle): Option<(seq<byte>, seq<byte>)> {
    if h.info.metadataOffset + h.info.metadataSize > |s.memory| ||
        h.info.dataOffset + h.info.dataSize > |s.memory| then None
    else Some((s.memory[h.info.metadataOffset..h.info.metadataOffset + h.info.metadataSize],
               s.memory[h.info.dataOffset..h.info.dataOffset + h.info.dataSize]))
  }

  /** Slot `k` is in both, created with the same bytes, and no less written in `b`. */
  predicate SlotKept(a: Plasma, b: Plasma, k: nat) {
    && k < |a.slots| <= |b.slots|
    && b.slots[k].metadata == a.slots[k].metadata && b.slots[k].data == a.slots[k].data
    && (Inserted(a.slots[k]) ==> Inserted(b.slots[k]) && InfoOf(b.slots[k]) == InfoOf(a.slots[k]))
    && (a.slots[k].progress == Written ==> b.slots[k].progress == Written)
  }

  lemma SlotKeptStep(s: Plasma, step: Step, k: nat)
    requires k < |s.slots|
    ensures SlotKept(s, Next(s, step), k) && s.handles <= Next(s, step).handles
  {
  }

  lemma Extend(capacity: nat, before: seq<Step>, step: Step)
    ensures Run(capacity, before + [step]) == Next(Run(capacity, before), step)
  {
  }

  lemma {:induction false} SlotKeptRun(capacity: nat, steps: seq<Step>, more: seq<Step>, k: nat)
    requires k < |Run(capacity, steps).slots|
    ensures SlotKept(Run(capacity, steps), Run(capacity, steps + more), k)
    ensures Run(capacity, steps).handles <= Run(capacity, steps + more).handles
  {
    if more == [] {
      assert steps + more == steps;
    } else {
      var before, last := more[..|more| - 1], more[|more| - 1];
      SlotKeptRun(capacity, steps, before, k);
      assert steps + more == (steps + before) + [last];
      Extend(capacity, steps + before, last);
      SlotKeptStep(Run(capacity, steps + before), last, k);
    }
  }

  lemma WrittenIsShown(s: Plasma, h: ReadHandle)
    requires SlotsInv(s) && h.slot < |s.slots| && h.info == InfoOf(s.slots[h.slot])
    requires s.slots[h.slot].progress == Written
    ensures Shown(s, h) == Some((s.slots[h.slot].metadata, s.slots[h.slot].data))
  {
  }

  /** In every run, a handle onto a written slot shows the bytes its creator passed, and goes on
      showing them whatever is deleted, created, written or sealed afterwards. */
  lemma {:induction false} HandleShowsCreatedBytes(capacity: nat, steps: seq<Step>, more: seq<Step>, h: ReadHandle)
    requires h in Run(capacity, steps).handles
    ensures var s := Run(capacity, steps);
            && h.slot < |s.slots|
            && (s.slots[h.slot].progress == Written ==>
                Shown(Run(capacity, steps + more), h) == Some((s.slots[h.slot].metadata, s.slots[h.slot].data)))
  {
    InvOverRuns(capacity, steps);
    InvOverRuns(capacity, steps + more);
    SlotKeptRun(capacity, steps, more, h.slot);
    if Run(capacity, steps).slots[h.slot].progress == Written { WrittenIsShown(Run(capacity, steps + more), h); }
  }

  // ---------- Sealing ----------

  /** A seal request finds the id's current slot written. */
  predicate SealsWritten(s: Plasma, step: Step) {
    step.Seal? && step.id in s.table && !s.table[step.id].sealed && s.table[step.id].slot < |s.slots| ==>
      s.slots[s.table[step.id].slot].progress == Written
  }

  predicate SealsWrittenAt(capacity: nat, steps: seq<Step>, n: nat)
    requires n < |steps|
  {
    SealsWritten(Run(capacity, steps[..n]), steps[n])
  }

  ghost predicate Disciplined(capacity: nat, steps: seq<Step>) {
    forall n :: 0 <= n < |steps| ==> SealsWrittenAt(capacity, steps, n)
  }

  predicate SealedIsWritten(s: Plasma) {
    forall id :: id in s.table && s.table[id].sealed && s.table[id].slot < |s.slots| ==>
      s.slots[s.table[id].slot].progress == Written
  }

  ghost predicate AlwaysWritten(capacity: nat, steps: seq<Step>) {
    forall n :: 0 <= n <= |steps| ==> SealedIsWritten(Run(capacity, steps[..n]))
  }

  lemma SealedStep(s: Plasma, step: Step)
    requires RefsInv(s) && SealedIsWritten(s)
    ensures SealedIsWritten(Next(s, step)) <==> SealsWritten(s, step)
  {
    if !SealsWritten(s, step) { assert Next(s, step).table[step.id].sealed; }
  }

  /** Throughout a run, everything that can be got is fully written exactly when every seal request
      in it finds the id's current slot written. */
  lemma {:induction false} SealedIsWrittenIff(capacity: nat, steps: seq<Step>)
    ensures AlwaysWritten(capacity, steps) <==> Disciplined(capacity, steps)
  {
    if steps == [] {
      assert steps[..0] == [];
    } else {
      var before, last := steps[..|steps| - 1], |steps| - 1;
      SealedIsWrittenIff(capacity, before);
      InvOverRuns(capacity, before);
      assert before[..|before|] == before;
      if SealedIsWritten(Run(capacity, before)) { SealedStep(Run(capacity, before), steps[last]); }
      DisciplineSplit(capacity, steps);
      WrittenSplit(capacity, steps);
    }
  }

  lemma DisciplineSplit(capacity: nat, steps: seq<Step>)
    requires steps != []
    ensures Disciplined(capacity, steps) <==>
            Disciplined(capacity, steps[..|steps| - 1]) && SealsWrittenAt(capacity, steps, |steps| - 1)
  {
    var before := steps[..|steps| - 1];
    forall n | 0 <= n < |before| ensures SealsWrittenAt(capacity, before, n) == SealsWrittenAt(capacity, steps, n) {
      assert before[..n] == steps[..n];
    }
  }

  lemma WrittenSplit(capacity: nat, steps: seq<Step>)
    requires steps != []
    ensures AlwaysWritten(capacity, steps) <==>
            AlwaysWritten(capacity, steps[..|steps| - 1]) && SealedIsWritten(Run(capacity, steps))
  {
    var before := steps[..|steps| - 1];
    assert steps[..|steps|] == steps;
    if AlwaysWritten(capacity, steps) {
      forall n | 0 <= n <= |before| ensures SealedIsWritten(Run(capacity, before[..n])) {
        PrefixOfPrefix(steps, |before|, n);
      }
    }
    if AlwaysWritten(capacity, before) && SealedIsWritten(Run(capacity, steps)) {
      forall n | 0 <= n <= |steps| ensures SealedIsWritten(Run(capacity, steps[..n])) {
        if n < |steps| { PrefixOfPrefix(steps, |before|, n); }
      }
    }
  }

  lemma PrefixOfPrefix(steps: seq<Step>, m: nat, n: nat)
    requires n <= m <= |steps|
    ensures steps[..m][..n] == steps[..n]
  {
  }

  lemma {:induction false} HandlesWritten(capacity: nat, steps: seq<Step>, h: ReadHandle)
    requires AlwaysWritten(capacity, steps) && h in Run(capacity, steps).handles
    ensures h.slot < |Run(capacity, steps).slots| && Run(capacity, steps).slots[h.slot].progress == Written
  {
    var before := steps[..|steps| - 1];
    WrittenSplit(capacity, steps);
    InvOverRuns(capacity, before);
    if h in Run(capacity, before).handles {
      HandlesWritten(capacity, before, h);
      SlotKeptStep(Run(capacity, before), steps[|steps| - 1], h.slot);
    } else {
      assert before[..|before|] == before;
      assert SealedIsWritten(Run(capacity, before));
    }
  }

  /** When every seal request finds the id's current slot written, every handle got shows the bytes
      passed to `create`, for the rest of the run. */
  lemma {:induction false} DisciplinedHandlesStable(capacity: nat, steps: seq<Step>, more: seq<Step>, h: ReadHandle)
    requires Disciplined(capacity, steps) && h in Run(capacity, steps).handles
    ensures var s := Run(capacity, steps);
            && h.slot < |s.slots|
            && Shown(Run(capacity, steps + more), h) == Some((s.slots[h.slot].metadata, s.slots[h.slot].data))
  {
    SealedIsWrittenIff(capacity, steps);
    HandlesWritten(capacity, steps, h);
    HandleShowsCreatedBytes(capacity, steps, more, h);
  }

  // ---------- What clients have to do ----------

  /** The creations whose creators have sealed them; `makers[n]` is the creation on whose behalf step `n`, if
      it is a seal, is made. */
  function SealedBy(steps: seq<Step>, makers: seq<nat>): set<nat>
    requires |makers| == |steps|
  {
    if steps == [] then {}
    else SealedBy(steps[..|steps| - 1], makers[..|makers| - 1]) +
         if steps[|steps| - 1].Seal? then {makers[|makers| - 1]} else {}
  }

  /** A creator seals once, its own id, after its own two writes; and a creation begins only when every
      earlier one of the same id has failed or been sealed by its own creator. */
  predicate Allowed(s: Plasma, sealed: set<nat>, step: Step, k: nat) {
    match step
    case Seal(id) => k < |s.slots| && s.slots[k].id == id && s.slots[k].progress == Written && k !in sealed
    case BeginCreate(id, _, _) =>
      id !in s.table ==> forall j :: 0 <= j < |s.slots| && s.slots[j].id == id ==> Finished(s, sealed, j)
    case _ => true
  }

  predicate Finished(s: Plasma, sealed: set<nat>, k: nat)
    requires k < |s.slots|
  {
    s.slots[k].progress == Failed || k in sealed
  }

  ghost predicate WellBehaved(capacity: nat, steps: seq<Step>, makers: seq<nat>)
    requires |makers| == |steps|
  {
    steps == [] ||
    (WellBehaved(capacity, steps[..|steps| - 1], makers[..|makers| - 1]) &&
     Allowed(Run(capacity, steps[..|steps| - 1]), SealedBy(steps[..|steps| - 1], makers[..|makers| - 1]),
             steps[|steps| - 1], makers[|makers| - 1]))
  }

  /** Of the creations of one id all but the last are finished, and those sealed are written. */
  ghost predicate OneAtATime(s: Plasma, sealed: set<nat>) {
    && (forall i, j :: 0 <= i < j < |s.slots| && s.slots[i].id == s.slots[j].id ==> Finished(s, sealed, i))
    && (forall k :: k in sealed ==> k < |s.slots| && s.slots[k].progress == Written)
    && (forall id :: id in s.table ==> s.table[id].slot < |s.slots| && s.slots[s.table[id].slot].id == id)
  }

  lemma SlotStays(s: Plasma, step: Step, k: nat)
    requires k < |s.slots|
    ensures k < |Next(s, step).slots| && Next(s, step).slots[k].id == s.slots[k].id
    ensures s.slots[k].progress == Failed ==> Next(s, step).slots[k].progress == Failed
    ensures s.slots[k].progress == Written ==> Next(s, step).slots[k].progress == Written
  {
  }

  lemma FinishedStays(s: Plasma, step: Step, sealed: set<nat>, sealed': set<nat>, i: nat, j: nat)
    requires OneAtATime(s, sealed) && sealed <= sealed' && (step.BeginCreate? ==> Allowed(s, sealed, step, 0))
    requires i < j < |Next(s, step).slots| && Next(s, step).slots[i].id == Next(s, step).slots[j].id
    ensures Finished(Next(s, step), sealed', i)
  {
    SlotStays(s, step, i);
    if j < |s.slots| { SlotStays(s, step, j); }
    assert Finished(s, sealed, i);
  }

  lemma TableStays(s: Plasma, step: Step, id: ObjectId)
    requires forall k :: k in s.table ==> s.table[k].slot < |s.slots| && s.slots[s.table[k].slot].id == k
    requires id in Next(s, step).table
    ensures var s' := Next(s, step); s'.table[id].slot < |s'.slots| && s'.slots[s'.table[id].slot].id == id
  {
    if id in s.table { SlotStays(s, step, s.table[id].slot); }
  }

  lemma OneAtATimeStep(s: Plasma, sealed: set<nat>, step: Step, k: nat)
    requires OneAtATime(s, sealed) && Allowed(s, sealed, step, k)
    ensures OneAtATime(Next(s, step), sealed + if step.Seal? then {k} else {})
  {
    var s', sealed' := Next(s, step), sealed + if step.Seal? then {k} else {};
    forall i, j | 0 <= i < j < |s'.slots| && s'.slots[i].id == s'.slots[j].id ensures Finished(s', sealed', i) {
      FinishedStays(s, step, sealed, sealed', i, j);
    }
    forall i | i in sealed' ensures i < |s'.slots| && s'.slots[i].progress == Written { SlotStays(s, step, i); }
    forall id | id in s'.table ensures s'.table[id].slot < |s'.slots| && s'.slots[s'.table[id].slot].id == id {
      TableStays(s, step, id);
    }
  }

  /** The slot the id now names is the creator's own, or one finished before and then written. */
  lemma AllowedSealsWritten(s: Plasma, sealed: set<nat>, step: Step, k: nat)
    requires RefsInv(s) && OneAtATime(s, sealed) && Allowed(s, sealed, step, k)
    ensures SealsWritten(s, step)
  {
    if step.Seal? && step.id in s.table {
      var t := s.table[step.id].slot;
      assert Refers(s, t, s.table[step.id].info);
      if t < k { assert Finished(s, sealed, t); }
    }
  }

  /** If each creator seals once, after its own two writes, and creations of one id do not overlap from
      their beginning to their seal, then every seal request finds the id's current slot written; so
      everything that can be got is fully written throughout. */
  lemma {:induction false} WellBehavedIsDisciplined(capacity: nat, steps: seq<Step>, makers: seq<nat>)
    requires |makers| == |steps| && WellBehaved(capacity, steps, makers)
    ensures OneAtATime(Run(capacity, steps), SealedBy(steps, makers))
    ensures Disciplined(capacity, steps) && AlwaysWritten(capacity, steps)
  {
    if steps == [] {
    } else {
      var before, last := steps[..|steps| - 1], steps[|steps| - 1];
      WellBehavedIsDisciplined(capacity, before, makers[..|makers| - 1]);
      InvOverRuns(capacity, before);
      AllowedSealsWritten(Run(capacity, before), SealedBy(before, makers[..|makers| - 1]), last, makers[|makers| - 1]);
      OneAtATimeStep(Run(capacity, before), SealedBy(before, makers[..|makers| - 1]), last, makers[|makers| - 1]);
      DisciplineSplit(capacity, steps);
    }
    SealedIsWrittenIff(capacity, steps);
  }

  // ---------- A seal that reaches another creator's slot ----------

  lemma Grow(steps: seq<Step>, step: Step, s: Plasma) returns (longer: seq<Step>)
    requires Next(Run(64, steps), step) == s
    ensures longer == steps + [step] && Run(64, longer) == s
  {
    longer := steps + [step];
    Extend(64, steps, step);
  }

  /** Two creations of the same id, both past the existence test. */
  lemma BothBegun(id: ObjectId, a: Slot, b: Slot) returns (steps: seq<Step>)
    requires a == Slot(id, [], [7], 0, 0, Begun) && b == Slot(id, [], [9], 0, 0, Begun)
    ensures Run(64, steps) == Start(64).(slots := [a, b])
  {
    assert [] + [a] == [a] && [a] + [b] == [a, b];
    steps := Grow([], BeginCreate(id, [], [7]), Start(64).(slots := [a]));
    steps := Grow(steps, BeginCreate(id, [], [9]), Start(64).(slots := [a, b]));
  }

  lemma FirstInserted(id: ObjectId, a: Slot, b: Slot) returns (steps: seq<Step>)
    requires a == Slot(id, [], [7], 0, 0, Unwritten) && b == Slot(id, [], [9], 0, 0, Begun)
    ensures Run(64, steps) ==
            Plasma(Start(64).memory, 1, map[id := Entry(0, SlotInfo(0, 0, 0, 1), false)], [a, b], [])
  {
    var s := Start(64);
    steps := BothBegun(id, a.(progress := Begun), b);
    s := s.(slots := [a.(progress := MetadataPlaced), b]);
    steps := Grow(steps, PlaceMetadata(0), s);
    s := s.(slots := [a.(progress := Placed), b], bump := 1);
    steps := Grow(steps, PlaceData(0), s);
    assert s.table[id := Entry(0, SlotInfo(0, 0, 0, 1), false)] == map[id := Entry(0, SlotInfo(0, 0, 0, 1), false)];
    s := s.(slots := [a, b], table := map[id := Entry(0, SlotInfo(0, 0, 0, 1), false)]);
    steps := Grow(steps, Insert(0), s);
  }

  /** The first creator has written its slot when the second's entry takes the place of its own. */
  lemma SecondInserted(id: ObjectId, a: Slot, b: Slot) returns (steps: seq<Step>)
    requires a == Slot(id, [], [7], 0, 0, Written) && b == Slot(id, [], [9], 16, 16, Unwritten)
    ensures Run(64, steps) == Plasma(Patch(Start(64).memory, 0, [7]), 17,
                                     map[id := Entry(1, SlotInfo(16, 0, 16, 1), false)], [a, b], [])
  {
    var b0 := b.(metadataOffset := 0, dataOffset := 0, progress := Begun);
    steps := FirstInserted(id, a.(progress := Unwritten), b0);
    var s := Run(64, steps);
    assert Patch(s.memory, 0, []) == s.memory;
    s := s.(slots := [a.(progress := MetadataWritten), b0]);
    steps := Grow(steps, WriteMetadata(0), s);
    s := s.(slots := [a, b0], memory := Patch(s.memory, 0, [7]));
    steps := Grow(steps, WriteData(0), s);
    steps := PlaceSecond(id, steps, s, a, b0, b);
  }

  lemma PlaceSecond(id: ObjectId, before: seq<Step>, s: Plasma, a: Slot, b0: Slot, b: Slot) returns (steps: seq<Step>)
    requires Run(64, before) == s && s.bump == 1 && |s.memory| == 64 && s.slots == [a, b0] && s.table.Keys == {id}
    requires b0 == Slot(id, [], [9], 0, 0, Begun) && b == Slot(id, [], [9], 16, 16, Unwritten)
    ensures Run(64, steps) == s.(bump := 17, slots := [a, b], table :=
            map[id := Entry(1, SlotInfo(16, 0, 16, 1), false)])
  {
    var b1 := b0.(metadataOffset := 16, progress := MetadataPlaced);
    var t := s.(bump := 16, slots := [a, b1]);
    steps := Grow(before, PlaceMetadata(1), t);
    t := t.(bump := 17, slots := [a, b.(progress := Placed)]);
    steps := Grow(steps, PlaceData(1), t);
    var table := map[id := Entry(1, SlotInfo(16, 0, 16, 1), false)];
    assert s.table[id := Entry(1, SlotInfo(16, 0, 16, 1), false)] == table;
    steps := Grow(steps, Insert(1), t.(slots := [a, b], table := table));
  }

  /** Sealing goes by id. Of two creations of the same id that overlap, the first to seal may seal the
      other's slot, and a reader then sees bytes nobody wrote there. */
  lemma ForeignSealExposesUnwritten(id: ObjectId) returns (steps: seq<Step>)
    ensures var s := Run(64, steps);
            && |s.handles| == 1 && s.handles[0].slot == 1 < |s.slots|
            && s.slots[1].data == [9] && Shown(s, s.handles[0]) == Some(([], [0]))
  {
    steps := SecondInserted(id, Slot(id, [], [7], 0, 0, Written), Slot(id, [], [9], 16, 16, Unwritten));
    var s := Run(64, steps);
    steps := Grow(steps, Seal(id), s.(table := s.table[id := s.table[id].(sealed := true)]));
    assert [] + [ReadHandle(1, SlotInfo(16, 0, 16, 1))] == [ReadHandle(1, SlotInfo(16, 0, 16, 1))];
    steps := Grow(steps, Get(id), Run(64, steps).(handles := [ReadHandle(1, SlotInfo(16, 0, 16, 1))]));
    StillZero(s.memory);
  }

  lemma StillZero(memory: seq<byte>)
    requires memory == Patch(Start(64).memory, 0, [7])
    ensures memory[16..16 + 0] == [] && memory[16..16 + 1] == [0]
  {
    assert memory[16] == 0;
  }

  // ---------- The table is its history ----------

  /** The step puts slot `step.slot`, a creation of `id`, into the table. */
  predicate Inserts(s: Plasma, step: Step, id: ObjectId) {
    && step.Insert? && step.slot < |s.slots|
    && s.slots[step.slot].progress == Placed && s.slots[step.slot].id == id
  }

  datatype Current = Nothing | Current(slot: nat, sealed: bool)

  /** What `id` stands for after a run: the creation inserted last, if it has not been deleted since, and
      whether it has been sealed since. */
  function CurrentOf(capacity: nat, steps: seq<Step>, id: ObjectId): Current {
    if steps == [] then Nothing
    else
      var before, last := steps[..|steps| - 1], steps[|steps| - 1];
      var now := CurrentOf(capacity, before, id);
      if Inserts(Run(capacity, before), last, id) then Current(last.slot, false)
      else if last == Delete(id) then Nothing
      else if last == Seal(id) && now.Current? then now.(sealed := true)
      else now
  }

  lemma TableStep(s: Plasma, step: Step, id: ObjectId)
    ensures id in Next(s, step).table <==> Inserts(s, step, id) || (step != Delete(id) && id in s.table)
    ensures id in Next(s, step).table ==>
            var e := Next(s, step).table[id];
            if Inserts(s, step, id) then e.slot == step.slot && !e.sealed
            else e.slot == s.table[id].slot && (e.sealed <==> s.table[id].sealed || step == Seal(id))
  {
  }

  lemma {:induction false} TableIsHistory(capacity: nat, steps: seq<Step>, id: ObjectId)
    ensures var s, now := Run(capacity, steps), CurrentOf(capacity, steps, id);
            && (id in s.table <==> now.Current?)
            && (id in s.table ==> s.table[id].slot == now.slot && s.table[id].sealed == now.sealed)
  {
    if steps == [] {
    } else {
      TableIsHistory(capacity, steps[..|steps| - 1], id);
      TableStep(Run(capacity, steps[..|steps| - 1]), steps[|steps| - 1], id);
    }
  }

  /** After every run: a get hands out the slot inserted last under the id exactly when it has been sealed
      and not deleted since; and a creation is let in exactly when none is there. */
  lemma {:induction false} GetAndCreateFollowHistory(capacity: nat, steps: seq<Step>, id: ObjectId, metadata: seq<byte>,
                                                     data: seq<byte>)
    ensures var s, now := Run(capacity, steps), CurrentOf(capacity, steps, id);
            var got, begun := Next(s, Get(id)), Next(s, BeginCreate(id, metadata, data));
            && (if now.Current? && now.sealed
                then |got.handles| == |s.handles| + 1 && got.handles[|s.handles|].slot == now.slot
                else got.handles == s.handles)
            && |begun.slots| == |s.slots| + if now.Current? then 0 else 1
  {
    TableIsHistory(capacity, steps, id);
  }

  /** No step of `more`, after `steps`, puts a creation of `id` into the table. */
  predicate NeverInserts(capacity: nat, steps: seq<Step>, more: seq<Step>, id: ObjectId) {
    more == [] ||
    (NeverInserts(capacity, steps, more[..|more| - 1], id) &&
     !Inserts(Run(capacity, steps + more[..|more| - 1]), more[|more| - 1], id))
  }

  lemma {:induction false} OneMore(capacity: nat, steps: seq<Step>, more: seq<Step>)
    requires more != []
    ensures Run(capacity, steps + more) == Next(Run(capacity, steps + more[..|more| - 1]), more[|more| - 1])
  {
    var all := steps + more;
    assert all[..|all| - 1] == steps + more[..|more| - 1] && all[|all| - 1] == more[|more| - 1];
  }

  lemma {:induction false} GoneUntilInserted(capacity: nat, steps: seq<Step>, more: seq<Step>, id: ObjectId)
    requires id !in Run(capacity, steps).table && NeverInserts(capacity, steps, more, id)
    ensures id !in Run(capacity, steps + more).table
  {
    if more == [] {
      assert steps + more == steps;
    } else {
      var init, last := more[..|more| - 1], more[|more| - 1];
      GoneUntilInserted(capacity, steps, init, id);
      TableStep(Run(capacity, steps + init), last, id);
      OneMore(capacity, steps, more);
    }
  }

  /** A deleted id stays gone until it is inserted again, so that gets find nothing and creations are let in;
      every other entry is untouched by the delete. */
  lemma {:induction false} DeletedUntilInserted(capacity: nat, steps: seq<Step>, id: ObjectId, more: seq<Step>)
    requires NeverInserts(capacity, steps + [Delete(id)], more, id)
    ensures Run(capacity, steps + [Delete(id)]).table == Run(capacity, steps).table - {id}
    ensures var s := Run(capacity, steps + [Delete(id)] + more);
            && id !in s.table && Next(s, Get(id)).handles == s.handles
            && forall metadata, data :: |Next(s, BeginCreate(id, metadata, data)).slots| == |s.slots| + 1
  {
    Extend(capacity, steps, Delete(id));
    GoneUntilInserted(capacity, steps + [Delete(id)], more, id);
  }

  // ---------- A creation from beginning to end ----------

  /** The four steps of a creation, back to back. */
  function CreateAlone(s: Plasma, id: ObjectId, metadata: seq<byte>, data: seq<byte>): Plasma {
    var k := |s.slots|;
    Next(Next(Next(Next(s, BeginCreate(id, metadata, data)), PlaceMetadata(k)), PlaceData(k)), Insert(k))
  }

  /** What they come to, as the table and the arena see it. */
  lemma CreationSteps(s: Plasma, id: ObjectId, metadata: seq<byte>, data: seq<byte>)
    requires id !in s.table
    ensures var s', bump := CreateAlone(s, id, metadata, data), Bump(|s.memory|, s.bump, |metadata|);
            var fits := Place(|s.memory|, s.bump, |metadata|).Some?;
            var fitsBoth := fits && Place(|s.memory|, bump, |data|).Some?;
            && s'.memory == s.memory
            && s'.bump == (if fits then Bump(|s.memory|, bump, |data|) else s.bump)
            && s'.table == if fitsBoth
                           then s.table[id := Entry(|s.slots|,
                               SlotInfo(AlignUp(s.bump), |metadata|, AlignUp(bump), |data|), false)]
                           else s.table
  {
  }

  lemma FillSlot(s: Plasma, k: nat)
    requires SlotsInv(s) && k < |s.slots| && s.slots[k].progress == Unwritten
    ensures var s' := Next(Next(s, WriteMetadata(k)), WriteData(k));
            s'.table == s.table && s'.slots == s.slots[k := s.slots[k].(progress := Written)] && s'.handles == s.handles
  {
    assert SlotOk(s.bump, s.slots[k]);
    var a := Next(s, WriteMetadata(k));
    assert a.slots == s.slots[k := s.slots[k].(progress := MetadataWritten)] && |a.memory| == |s.memory|;
  }

  lemma SealAndGet(s: Plasma, id: ObjectId)
    requires id in s.table && !s.table[id].sealed
    ensures var s' := Next(Next(s, Seal(id)), Get(id));
            s'.handles == s.handles + [ReadHandle(s.table[id].slot, s.table[id].info)] && s'.slots == s.slots
  {
  }

  /** From every reachable store: a creation of an id that is not there and for which there is room, run
      through to its seal, makes the next get show the bytes passed to it, then and ever after. */
  lemma {:induction false} CreatedIsGot(capacity: nat, steps: seq<Step>, id: ObjectId, metadata: seq<byte>,
                                        data: seq<byte>, more: seq<Step>)
    requires var s := Run(capacity, steps);
             && id !in s.table && Place(capacity, s.bump, |metadata|).Some?
             && Place(capacity, Bump(capacity, s.bump, |metadata|), |data|).Some?
    ensures var s, k := Run(capacity, steps), |Run(capacity, steps).slots|;
            var all := steps + [BeginCreate(id, metadata, data), PlaceMetadata(k), PlaceData(k), Insert(k)] +
                       [WriteMetadata(k), WriteData(k), Seal(id), Get(id)];
            && |Run(capacity, all).handles| == |s.handles| + 1
            && Shown(Run(capacity, all + more), Run(capacity, all).handles[|s.handles|]) == Some((metadata, data))
  {
    var s, k := Run(capacity, steps), |Run(capacity, steps).slots|;
    var create := [BeginCreate(id, metadata, data), PlaceMetadata(k), PlaceData(k), Insert(k)];
    var fill := [WriteMetadata(k), WriteData(k), Seal(id), Get(id)];
    MemoryStays(capacity, steps);
    FourSteps(capacity, steps, create);
    CreationSteps(s, id, metadata, data);
    CreationSlot(s, id, metadata, data);
    InvOverRuns(capacity, steps + create);
    FourSteps(capacity, steps + create, fill);
    FillSlot(Run(capacity, steps + create), k);
    SealAndGet(Next(Next(Run(capacity, steps + create), WriteMetadata(k)), WriteData(k)), id);
    var all := steps + create + fill;
    var h := Run(capacity, all).handles[|s.handles|];
    assert h in Run(capacity, all).handles;
    HandleShowsCreatedBytes(capacity, all, more, h);
  }

  lemma FourSteps(capacity: nat, steps: seq<Step>, four: seq<Step>)
    requires |four| == 4
    ensures Run(capacity, steps + four) ==
            Next(Next(Next(Next(Run(capacity, steps), four[0]), four[1]), four[2]), four[3])
  {
    Extend(capacity, steps, four[0]);
    Extend(capacity, steps + [four[0]], four[1]);
    Extend(capacity, steps + [four[0]] + [four[1]], four[2]);
    Extend(capacity, steps + [four[0]] + [four[1]] + [four[2]], four[3]);
    assert steps + four == steps + [four[0]] + [four[1]] + [four[2]] + [four[3]];
  }

  lemma {:induction false} MemoryStays(capacity: nat, steps: seq<Step>)
    ensures |Run(capacity, steps).memory| == capacity
  {
    if steps == [] {
    } else {
      MemoryStays(capacity, steps[..|steps| - 1]);
    }
  }

  lemma CreationSlot(s: Plasma, id: ObjectId, metadata: seq<byte>, data: seq<byte>)
    requires id !in s.table && Place(|s.memory|, s.bump, |metadata|).Some?
    requires Place(|s.memory|, Bump(|s.memory|, s.bump, |metadata|), |data|).Some?
    ensures var s', k := CreateAlone(s, id, metadata, data), |s.slots|;
            && |s'.slots| == k + 1 && s'.handles == s.handles
            && s'.slots[k].progress == Unwritten && s'.slots[k].metadata == metadata && s'.slots[k].data == data
  {
  }

  // ---------- The server ----------

  datatype ServerEntry = ServerEntry(info: SlotInfo, sealed: bool)

  datatype Response =
    | Created(info: SlotInfo) | Got(info: SlotInfo) | Ok
    | AlreadyExists | OutOfMemory | NotFound | NotSealed | AlreadySealed

  class Server {
    const arena: Arena
    var objects: map<ObjectId, ServerEntry>

    constructor (arena: Arena)
      ensures this.arena == arena && objects == map[]
    {
      this.arena := arena;
      objects := map[];
    }

    /** The server's table and arena agree with the model's state. */
    ghost predicate Shows(s: Plasma)
      reads this, arena
    {
      && arena.Valid() && arena.capacity as int == |s.memory| && arena.bump as int == s.bump
      && objects == map id | id in s.table :: ServerEntry(s.table[id].info, s.table[id].sealed)
    }

    /** A creation that nothing interrupts: the existence test, two allocations, the insertion. */
    method HandleCreate(id: ObjectId, metadataSize: u64, dataSize: u64,
                        ghost s: Plasma, ghost metadata: seq<byte>, ghost data: seq<byte>)
      returns (r: Response)
      requires Shows(s) && |metadata| == metadataSize as int && |data| == dataSize as int
      modifies this, arena
      ensures Shows(CreateAlone(s, id, metadata, data))
      ensures r.AlreadyExists? <==> id in s.table
      ensures r.Created? <==> id !in s.table && Place(|s.memory|, s.bump, |metadata|).Some? &&
                              Place(|s.memory|, Bump(|s.memory|, s.bump, |metadata|), |data|).Some?
      ensures r.Created? ==>
                CreateAlone(s, id, metadata, data).table == s.table[id := Entry(|s.slots|, r.info, false)]
      ensures r.Created? || r.AlreadyExists? || r.OutOfMemory?
    {
      if id in objects { return AlreadyExists; }
      CreationSteps(s, id, metadata, data);
      var metadataOffset := arena.Alloc(metadataSize);
      if metadataOffset.None? { return OutOfMemory; }
      var dataOffset := arena.Alloc(dataSize);
      if dataOffset.None? { return OutOfMemory; }
      var info := SlotInfo(metadataOffset.value as int, metadataSize as int, dataOffset.value as int, dataSize as int);
      objects := objects[id := ServerEntry(info, false)];
      return Created(info);
    }

    method HandleSeal(id: ObjectId, ghost s: Plasma) returns (r: Response)
      requires Shows(s)
      modifies this
      ensures Shows(Next(s, Seal(id)))
      ensures r == if id !in s.table then NotFound else if s.table[id].sealed then AlreadySealed else Ok
    {
      if id !in objects { return NotFound; }
      if objects[id].sealed { return AlreadySealed; }
      objects := objects[id := objects[id].(sealed := true)];
      return Ok;
    }

    method HandleGet(id: ObjectId, ghost s: Plasma) returns (r: Response)
      requires Shows(s)
      ensures r.Got? <==> id in s.table && s.table[id].sealed
      ensures r.Got? ==> Next(s, Get(id)).handles == s.handles + [ReadHandle(s.table[id].slot, r.info)]
      ensures r.NotFound? <==> id !in s.table
      ensures r.NotSealed? <==> id in s.table && !s.table[id].sealed
    {
      if id !in objects { return NotFound; }
      if !objects[id].sealed { return NotSealed; }
      return Got(objects[id].info);
    }

    method HandleDelete(id: ObjectId, ghost s: Plasma) returns (r: Response)
      requires Shows(s)
      modifies this
      ensures Shows(Next(s, Delete(id))) && r == Ok
      ensures objects == old(objects) - {id}
    {
      objects := objects - {id};
      return Ok;
    }
  }
}
