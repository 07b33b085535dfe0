/** Concurrent spills and restores over one directory, at the granularity of single writes and reads.
    A writer fills its own temporary file and renames it over the final name when it is complete. */
module SpillFiles {
  import opened Bytes
  import opened SpillFormat

  datatype Progress = Writing(written: nat) | Renamed | Abandoned

  /** One call of `spill`. The `k`-th call creates the `k`-th file of the directory, taking the `k`-th
      value of the temporary-name counter. */
  datatype Writer = Writer(id: Id, obj: Restored, progress: Progress)

  /** One call of `restore`: the file it opened and what it has read so far. */
  datatype Reader = Reader(id: Id, file: nat, got: seq<byte>)

  /** `files` holds contents; `names` says which file a name leads to, if any. */
  datatype Disk = Disk(files: seq<seq<byte>>, names: map<string, nat>, writers: seq<Writer>, readers: seq<Reader>)

  datatype Step =
    | StartSpill(id: Id, obj: Restored)
    | Write(w: nat, n: nat)
    | Rename(w: nat)
    | GiveUp(w: nat)
    | Remove(id: Id)
    | Open(id: Id)
    | Read(r: nat, n: nat)

  const EMPTY := Disk([], map[], [], [])

  /** Metadata too long for its length field is refused after the temporary file has been created. */
  function DoStart(d: Disk, id: Id, obj: Restored): Disk {
    var progress := if |obj.metadata| < METADATA_LIMIT then Writing(0) else Abandoned;
    d.(files := d.files + [[]], names := d.names[TempName(id, |d.writers|) := |d.files|],
       writers := d.writers + [Writer(id, obj, progress)])
  }

  function DoWrite(d: Disk, w: nat, n: nat): Disk
    requires w < |d.writers|
  {
    var writer := d.writers[w];
    if !writer.progress.Writing? || writer.progress.written + n > |Encode(writer.obj)| || w >= |d.files| then d
    else
      var written := writer.progress.written;
      d.(files := d.files[w := d.files[w] + Encode(writer.obj)[written..written + n]],
         writers := d.writers[w := writer.(progress := Writing(written + n))])
  }

  function DoRename(d: Disk, w: nat): Disk
    requires w < |d.writers|
  {
    var writer := d.writers[w];
    var temp := TempName(writer.id, w);
    if !writer.progress.Writing? || writer.progress.written != |Encode(writer.obj)| || temp !in d.names then d
    else d.(names := (d.names - {temp})[FinalName(writer.id) := d.names[temp]],
            writers := d.writers[w := writer.(progress := Renamed)])
  }

  function DoRead(d: Disk, r: nat, n: nat): Disk
    requires r < |d.readers|
  {
    var reader := d.readers[r];
    if reader.file >= |d.files| || |reader.got| + n > |d.files[reader.file]| then d
    else
      var piece := d.files[reader.file][|reader.got|..|reader.got| + n];
      d.(readers := d.readers[r := reader.(got := reader.got + piece)])
  }

  function Next(d: Disk, step: Step): Disk {
    match step
    case StartSpill(id, obj) => DoStart(d, id, obj)
    case Write(w, n) => if w < |d.writers| then DoWrite(d, w, n) else d
    case Rename(w) => if w < |d.writers| then DoRename(d, w) else d
    case GiveUp(w) =>
      if w < |d.writers| && d.writers[w].progress.Writing?
      then d.(writers := d.writers[w := d.writers[w].(progress := Abandoned)]) else d
    case Remove(id) => d.(names := d.names - {FinalName(id)})
    case Open(id) =>
      if FinalName(id) in d.names then d.(readers := d.readers + [Reader(id, d.names[FinalName(id)], [])]) else d
    case Read(r, n) => if r < |d.readers| then DoRead(d, r, n) else d
  }

  function Run(steps: seq<Step>): Disk {
    if steps == [] then EMPTY else Next(Run(steps[..|steps| - 1]), steps[|steps| - 1])
  }

  // ---------- Invariants ----------

  /** A writer's file holds what it has written, and its temporary name leads there until the rename. */
  ghost predicate WriterOk(d: Disk, w: nat) {
    && w < |d.writers| == |d.files|
    && var writer := d.writers[w];
       match writer.progress
       case Writing(written) =>
         && written <= |Encode(writer.obj)| && d.files[w] == Encode(writer.obj)[..written]
         && |writer.obj.metadata| < METADATA_LIMIT
         && TempName(writer.id, w) in d.names && d.names[TempName(writer.id, w)] == w
       case Renamed => d.files[w] == Encode(writer.obj) && |writer.obj.metadata| < METADATA_LIMIT
       case Abandoned => true
  }

  /** File `f` is the complete work of one spill of `id`. */
  ghost predicate Complete(d: Disk, id: Id, f: nat) {
    && f < |d.writers| == |d.files| && d.writers[f].id == id && d.writers[f].progress == Renamed
    && d.files[f] == Encode(d.writers[f].obj)
  }

  ghost predicate WritersInv(d: Disk) {
    && |d.writers| == |d.files|
    && (forall w :: 0 <= w < |d.writers| ==> WriterOk(d, w))
  }

  ghost predicate NamesInv(d: Disk) {
    forall id: Id :: FinalName(id) in d.names ==> Complete(d, id, d.names[FinalName(id)])
  }

  ghost predicate ReadersInv(d: Disk) {
    forall r :: r in d.readers ==> Complete(d, r.id, r.file) && r.got <= d.files[r.file]
  }

  lemma StartKeepsWriters(d: Disk, id: Id, obj: Restored)
    requires WritersInv(d)
    ensures WritersInv(DoStart(d, id, obj))
  {
    var d' := DoStart(d, id, obj);
    forall w | 0 <= w < |d'.writers| ensures WriterOk(d', w) {
      NamesDistinct(d'.writers[w].id, w, id, |d.writers|);
      if w < |d.writers| { assert WriterOk(d, w); }
    }
  }

  lemma WriteKeepsWriters(d: Disk, w: nat, n: nat)
    requires WritersInv(d) && w < |d.writers|
    ensures WritersInv(DoWrite(d, w, n))
  {
    var d' := DoWrite(d, w, n);
    assert WriterOk(d, w);
    forall v | 0 <= v < |d'.writers| ensures WriterOk(d', v) { assert WriterOk(d, v); }
  }

  lemma RenameKeepsWriters(d: Disk, w: nat)
    requires WritersInv(d) && w < |d.writers|
    ensures WritersInv(DoRename(d, w))
  {
    var d', writer := DoRename(d, w), d.writers[w];
    assert WriterOk(d, w);
    forall v | 0 <= v < |d'.writers| ensures WriterOk(d', v) {
      assert WriterOk(d, v);
      NamesDistinct(d.writers[v].id, v, writer.id, w);
    }
  }

  lemma WritersStep(d: Disk, step: Step)
    requires WritersInv(d)
    ensures WritersInv(Next(d, step))
  {
    match step
    case StartSpill(id, obj) => StartKeepsWriters(d, id, obj);
    case Write(w, n) => if w < |d.writers| { WriteKeepsWriters(d, w, n); }
    case Rename(w) => if w < |d.writers| { RenameKeepsWriters(d, w); }
    case GiveUp(w) =>
      forall v | 0 <= v < |d.writers| ensures WriterOk(Next(d, step), v) { assert WriterOk(d, v); }
    case Remove(id) =>
      forall v | 0 <= v < |d.writers| ensures WriterOk(Next(d, step), v) {
        assert WriterOk(d, v);
        NamesDistinct(d.writers[v].id, v, id, 0);
      }
    case _ =>
      forall v | 0 <= v < |d.writers| ensures WriterOk(Next(d, step), v) { assert WriterOk(d, v); }
  }

  /** What is complete stays as it is. */
  lemma CompleteStep(d: Disk, step: Step, id: Id, f: nat)
    requires Complete(d, id, f)
    ensures Complete(Next(d, step), id, f)
    ensures Next(d, step).files[f] == d.files[f] && Next(d, step).writers[f] == d.writers[f]
  {
  }

  lemma NamesStep(d: Disk, step: Step)
    requires WritersInv(d) && NamesInv(d)
    ensures NamesInv(Next(d, step))
  {
    var d' := Next(d, step);
    forall id: Id | FinalName(id) in d'.names ensures Complete(d', id, d'.names[FinalName(id)]) {
      NameStep(d, step, id);
    }
  }

  lemma NameStep(d: Disk, step: Step, id: Id)
    requires WritersInv(d) && FinalName(id) in Next(d, step).names
    requires FinalName(id) in d.names ==> Complete(d, id, d.names[FinalName(id)])
    ensures Complete(Next(d, step), id, Next(d, step).names[FinalName(id)])
  {
    if step.StartSpill? { NamesDistinct(step.id, |d.writers|, id, 0); }
    if step.Rename? && step.w < |d.writers| {
      NamesDistinct(d.writers[step.w].id, step.w, id, 0);
      assert WriterOk(d, step.w);
    }
    if FinalName(id) in d.names { CompleteStep(d, step, id, d.names[FinalName(id)]); }
  }

  lemma ReadersStep(d: Disk, step: Step)
    requires NamesInv(d) && ReadersInv(d)
    ensures ReadersInv(Next(d, step))
  {
    var d' := Next(d, step);
    forall r | r in d'.readers ensures Complete(d', r.id, r.file) && r.got <= d'.files[r.file] {
      if r in d.readers {
        CompleteStep(d, step, r.id, r.file);
      } else if step.Open? {
        CompleteStep(d, step, r.id, r.file);
      } else {
        assert step.Read?;
        assert d.readers[step.r] in d.readers;
        CompleteStep(d, step, r.id, r.file);
      }
    }
  }

  lemma {:induction false} InvOverRuns(steps: seq<Step>)
    ensures WritersInv(Run(steps)) && NamesInv(Run(steps)) && ReadersInv(Run(steps))
  {
    if steps == [] {
    } else {
      var d, last := Run(steps[..|steps| - 1]), steps[|steps| - 1];
      InvOverRuns(steps[..|steps| - 1]);
      WritersStep(d, last);
      NamesStep(d, last);
      ReadersStep(d, last);
    }
  }

  // ---------- What a reader may rely on ----------

  /** In every run, whatever file an object's final name leads to is the complete encoding of one
      spill of that object, and restores to exactly what that spill was given. */
  lemma {:induction false} FinalFileIsOneSpill(steps: seq<Step>, id: Id)
    requires FinalName(id) in Run(steps).names
    ensures var d := Run(steps);
            var f := d.names[FinalName(id)];
            && f < |d.writers| && f < |d.files| && d.writers[f].id == id && d.writers[f].progress == Renamed
            && d.files[f] == Encode(d.writers[f].obj)
            && (|d.writers[f].obj.data| < DATA_LIMIT ==> Decode(d.files[f]) == Ok(d.writers[f].obj))
  {
    InvOverRuns(steps);
    var d := Run(steps);
    var f := d.names[FinalName(id)];
    assert WriterOk(d, f);
    if |d.writers[f].obj.data| < DATA_LIMIT {
      DecodeInvertsEncode(d.writers[f].obj, []);
      assert d.files[f] + [] == d.files[f];
    }
  }

  /** The rename is where a spill takes effect: the name then leads to that spill's file. */
  lemma {:induction false} RenameTakesEffect(steps: seq<Step>, w: nat)
    requires w < |Run(steps).writers| && Run(steps).writers[w].progress == Writing(|Encode(Run(steps).writers[w].obj)|)
    ensures var d := Next(Run(steps), Rename(w));
            FinalName(Run(steps).writers[w].id) in d.names && d.names[FinalName(Run(steps).writers[w].id)] == w
  {
    InvOverRuns(steps);
    assert WriterOk(Run(steps), w);
  }

  lemma {:induction false} Extend(before: seq<Step>, step: Step)
    ensures Run(before + [step]) == Next(Run(before), step)
  {
    var all := before + [step];
    assert all[..|all| - 1] == before && all[|all| - 1] == step;
  }

  lemma {:induction false} OneMore(steps: seq<Step>, more: seq<Step>)
    requires more != []
    ensures Run(steps + more) == Next(Run(steps + more[..|more| - 1]), more[|more| - 1])
  {
    SplitLast(steps, more);
    Extend(steps + more[..|more| - 1], more[|more| - 1]);
  }

  lemma SplitLast<T>(a: seq<T>, b: seq<T>)
    requires b != []
    ensures a + b == (a + b[..|b| - 1]) + [b[|b| - 1]]
  {
  }

  /** File `f` is what `writer` wrote, all of it. */
  ghost predicate WrittenBy(d: Disk, f: nat, writer: Writer) {
    && f < |d.writers| && f < |d.files| && d.writers[f] == writer && writer.progress == Renamed
    && d.files[f] == Encode(writer.obj)
  }

  lemma WrittenByStep(d: Disk, step: Step, f: nat, writer: Writer)
    requires WrittenBy(d, f, writer)
    ensures WrittenBy(Next(d, step), f, writer)
  {
  }

  lemma {:induction false} WrittenForEver(steps: seq<Step>, more: seq<Step>, f: nat, writer: Writer)
    requires WrittenBy(Run(steps), f, writer)
    ensures WrittenBy(Run(steps + more), f, writer)
  {
    if more == [] {
      assert steps + more == steps;
    } else {
      var before, last := more[..|more| - 1], more[|more| - 1];
      WrittenForEver(steps, before, f, writer);
      WrittenByStep(Run(steps + before), last, f, writer);
      OneMore(steps, more);
    }
  }

  lemma PartlyRead(obj: Restored, got: seq<byte>)
    requires Encodable(obj) && got <= Encode(obj)
    ensures Decode(got) == if |got| == |Encode(obj)| then Ok(obj) else Corrupt
  {
    if |got| == |Encode(obj)| {
      assert got == Encode(obj) + [];
      DecodeInvertsEncode(obj, []);
    } else {
      assert got == Encode(obj)[..|got|];
      CutShortIsCorrupt(obj, |got|);
    }
  }

  lemma {:induction false} OpenedIsWritten(steps: seq<Step>, r: Reader)
    requires r in Run(steps).readers
    ensures r.file < |Run(steps).writers| && Run(steps).writers[r.file].id == r.id
    ensures WrittenBy(Run(steps), r.file, Run(steps).writers[r.file])
    ensures r.got <= Encode(Run(steps).writers[r.file].obj)
    ensures |Run(steps).writers[r.file].obj.metadata| < METADATA_LIMIT
  {
    InvOverRuns(steps);
    assert WriterOk(Run(steps), r.file);
  }

  /** A reader that has opened an object's file reads one spill's bytes to the end, whatever is
      renamed over or removed meanwhile: what it has so far decodes to that spill's object if it is
      all of it, and is reported corrupt if it is not. */
  lemma {:induction false} ReaderSeesOneSpill(steps: seq<Step>, more: seq<Step>, r: Reader) returns (writer: Writer)
    requires r in Run(steps).readers
    ensures writer in Run(steps).writers && writer.id == r.id
    ensures WrittenBy(Run(steps + more), r.file, writer)
    ensures |writer.obj.data| < DATA_LIMIT ==>
              Decode(r.got) == if |r.got| == |Encode(writer.obj)| then Ok(writer.obj) else Corrupt
  {
    OpenedIsWritten(steps, r);
    writer := Run(steps).writers[r.file];
    WrittenForEver(steps, more, r.file, writer);
    if |writer.obj.data| < DATA_LIMIT { PartlyRead(writer.obj, r.got); }
  }

  // ---------- Names and their history ----------

  /** The step renames a complete file of `id` into place. */
  predicate Publishes(d: Disk, step: Step, id: Id) {
    && step.Rename? && step.w < |d.writers| && d.writers[step.w].id == id
    && d.writers[step.w].progress == Writing(|Encode(d.writers[step.w].obj)|)
  }

  /** The spill of `id` renamed last, unless it has been removed since. */
  function CurrentFile(steps: seq<Step>, id: Id): Option<nat> {
    if steps == [] then None
    else
      var before, last := steps[..|steps| - 1], steps[|steps| - 1];
      if Publishes(Run(before), last, id) then Some(last.w)
      else if last == Remove(id) then None
      else CurrentFile(before, id)
  }

  lemma NameAfter(d: Disk, step: Step, id: Id)
    requires WritersInv(d)
    ensures var name, d' := FinalName(id), Next(d, step);
            && (name in d'.names <==> Publishes(d, step, id) || (step != Remove(id) && name in d.names))
            && (name in d'.names ==> d'.names[name] == if Publishes(d, step, id) then step.w else d.names[name])
  {
    if step.StartSpill? { NamesDistinct(step.id, |d.writers|, id, 0); }
    if step.Remove? { NamesDistinct(step.id, 0, id, 0); }
    if step.Rename? && step.w < |d.writers| {
      NamesDistinct(d.writers[step.w].id, step.w, id, 0);
      assert WriterOk(d, step.w);
    }
  }

  /** In every run a final name is there, and leads to the spill renamed last, exactly when that spill has
      not been removed since. */
  lemma {:induction false} NameIsLastRename(steps: seq<Step>, id: Id)
    ensures var d, f := Run(steps), CurrentFile(steps, id);
            (FinalName(id) in d.names <==> f.Some?) && (f.Some? ==> d.names[FinalName(id)] == f.value)
  {
    if steps == [] {
    } else {
      NameIsLastRename(steps[..|steps| - 1], id);
      InvOverRuns(steps[..|steps| - 1]);
      NameAfter(Run(steps[..|steps| - 1]), steps[|steps| - 1], id);
    }
  }

  // ---------- A spill and a restore from beginning to end ----------

  lemma StartDoes(d: Disk, id: Id, obj: Restored)
    requires |d.writers| == |d.files| && |obj.metadata| < METADATA_LIMIT
    ensures var w, d' := |d.writers|, Next(d, StartSpill(id, obj));
            && |d'.writers| == |d'.files| == w + 1 && d'.writers[w] == Writer(id, obj, Writing(0)) && d'.files[w] == []
            && d'.readers == d.readers
  {
  }

  lemma WriteDoes(d: Disk, w: nat, id: Id, obj: Restored)
    requires w < |d.writers| == |d.files| && d.writers[w] == Writer(id, obj, Writing(0))
    ensures var d' := Next(d, Write(w, |Encode(obj)|));
            && w < |d'.writers| && d'.writers[w] == Writer(id, obj, Writing(|Encode(obj)|)) && d'.readers == d.readers
  {
  }

  lemma RenameDoes(d: Disk, w: nat, id: Id, obj: Restored)
    requires WritersInv(d) && w < |d.writers| && d.writers[w] == Writer(id, obj, Writing(|Encode(obj)|))
    ensures var d' := Next(d, Rename(w));
            && FinalName(id) in d'.names && d'.names[FinalName(id)] == w && WrittenBy(d', w, Writer(id, obj, Renamed))
            && d'.readers == d.readers
  {
    assert WriterOk(d, w);
  }

  lemma OpenDoes(d: Disk, id: Id, f: nat)
    requires FinalName(id) in d.names && d.names[FinalName(id)] == f
    ensures var d' := Next(d, Open(id)); d'.readers == d.readers + [Reader(id, f, [])] && d'.files == d.files
  {
  }

  lemma ReadDoes(d: Disk, r: nat, id: Id, f: nat)
    requires r < |d.readers| && d.readers[r] == Reader(id, f, []) && f < |d.files|
    ensures var d' := Next(d, Read(r, |d.files[f]|)); r < |d'.readers| && d'.readers[r] == Reader(id, f, d.files[f])
  {
    assert [] + d.files[f][0..|d.files[f]|] == d.files[f];
  }

  /** After every run, a spill carried through to its rename puts its file under the final name. */
  lemma {:induction false} SpillTakesEffect(steps: seq<Step>, id: Id, obj: Restored)
    requires |obj.metadata| < METADATA_LIMIT
    ensures var w := |Run(steps).writers|;
            var d := Run(steps + [StartSpill(id, obj)] + [Write(w, |Encode(obj)|)] + [Rename(w)]);
            && FinalName(id) in d.names && d.names[FinalName(id)] == w && WrittenBy(d, w, Writer(id, obj, Renamed))
            && d.readers == Run(steps).readers
  {
    var w := |Run(steps).writers|;
    var s1 := steps + [StartSpill(id, obj)];
    var s2 := s1 + [Write(w, |Encode(obj)|)];
    InvOverRuns(steps);
    Extend(steps, StartSpill(id, obj));
    StartDoes(Run(steps), id, obj);
    Extend(s1, Write(w, |Encode(obj)|));
    WriteDoes(Run(s1), w, id, obj);
    InvOverRuns(s2);
    Extend(s2, Rename(w));
    RenameDoes(Run(s2), w, id, obj);
  }

  /** And a restore carried through gives back the object. */
  lemma {:induction false} SpillThenRestore(steps: seq<Step>, id: Id, obj: Restored)
    requires Encodable(obj)
    ensures var w, r := |Run(steps).writers|, |Run(steps).readers|;
            var spilled := steps + [StartSpill(id, obj)] + [Write(w, |Encode(obj)|)] + [Rename(w)];
            var d := Run(spilled + [Open(id)] + [Read(r, |Encode(obj)|)]);
            r < |d.readers| && Decode(d.readers[r].got) == Ok(obj)
  {
    var w, r := |Run(steps).writers|, |Run(steps).readers|;
    var spilled := steps + [StartSpill(id, obj)] + [Write(w, |Encode(obj)|)] + [Rename(w)];
    SpillTakesEffect(steps, id, obj);
    Extend(spilled, Open(id));
    OpenDoes(Run(spilled), id, w);
    Extend(spilled + [Open(id)], Read(r, |Encode(obj)|));
    ReadDoes(Run(spilled + [Open(id)]), r, id, w);
    PartlyRead(obj, Encode(obj));
  }

  lemma AbandonedStays(d: Disk, step: Step, w: nat, writer: Writer)
    requires w < |d.writers| && d.writers[w] == writer && writer.progress == Abandoned
    ensures w < |Next(d, step).writers| && Next(d, step).writers[w] == writer
  {
  }

  lemma {:induction false} AbandonedForEver(steps: seq<Step>, more: seq<Step>, w: nat, writer: Writer)
    requires w < |Run(steps).writers| && Run(steps).writers[w] == writer && writer.progress == Abandoned
    ensures w < |Run(steps + more).writers| && Run(steps + more).writers[w] == writer
  {
    if more == [] {
      assert steps + more == steps;
    } else {
      var init, last := more[..|more| - 1], more[|more| - 1];
      AbandonedForEver(steps, init, w, writer);
      AbandonedStays(Run(steps + init), last, w, writer);
      OneMore(steps, more);
    }
  }

  /** Metadata too long for its length field is never published. */
  lemma {:induction false} TooLongIsAbandoned(steps: seq<Step>, more: seq<Step>, id: Id, obj: Restored)
    requires |obj.metadata| >= METADATA_LIMIT
    ensures var w := |Run(steps).writers|;
            var d := Run(steps + [StartSpill(id, obj)] + more);
            w < |d.writers| && d.writers[w] == Writer(id, obj, Abandoned)
  {
    Extend(steps, StartSpill(id, obj));
    AbandonedForEver(steps + [StartSpill(id, obj)], more, |Run(steps).writers|, Writer(id, obj, Abandoned));
  }

  /** A spill that gives up never takes effect; */
  lemma {:induction false} GivenUpForEver(steps: seq<Step>, w: nat, more: seq<Step>)
    requires w < |Run(steps).writers| && Run(steps).writers[w].progress.Writing?
    ensures var d := Run(steps + [GiveUp(w)] + more);
            w < |d.writers| && d.writers[w] == Run(steps).writers[w].(progress := Abandoned)
  {
    Extend(steps, GiveUp(w));
    AbandonedForEver(steps + [GiveUp(w)], more, w, Run(steps).writers[w].(progress := Abandoned));
  }

  predicate NotRenamed(d: Disk, id: Id, w: nat) {
    w < |d.writers| && d.writers[w].id == id && d.writers[w].progress != Renamed
  }

  lemma TempNameStep(d: Disk, step: Step, id: Id, w: nat)
    requires WritersInv(d)
    requires TempName(id, w) in d.names <==> NotRenamed(d, id, w)
    ensures TempName(id, w) in Next(d, step).names <==> NotRenamed(Next(d, step), id, w)
  {
    match step
    case StartSpill(k, obj) => NamesDistinct(k, |d.writers|, id, w);
    case Remove(k) => NamesDistinct(id, w, k, 0);
    case Write(v, n) => if v < |d.writers| { TempNameWrite(d, v, n, id, w); }
    case Rename(v) => if v < |d.writers| { TempNameRename(d, v, id, w); }
    case _ =>
  }

  lemma TempNameWrite(d: Disk, v: nat, n: nat, id: Id, w: nat)
    requires v < |d.writers|
    ensures DoWrite(d, v, n).names == d.names && (NotRenamed(DoWrite(d, v, n), id, w) <==> NotRenamed(d, id, w))
  {
  }

  lemma TempNameRename(d: Disk, v: nat, id: Id, w: nat)
    requires WritersInv(d) && v < |d.writers| && (TempName(id, w) in d.names <==> NotRenamed(d, id, w))
    ensures TempName(id, w) in DoRename(d, v).names <==> NotRenamed(DoRename(d, v), id, w)
  {
    NamesDistinct(d.writers[v].id, v, id, w);
    NamesDistinct(id, w, d.writers[v].id, 0);
    assert WriterOk(d, v);
  }

  /** and its temporary file is left behind: in every run the temporary names are exactly those of the spills
      that have not been renamed. */
  lemma {:induction false} TempNamesIff(steps: seq<Step>, id: Id, w: nat)
    ensures TempName(id, w) in Run(steps).names <==> NotRenamed(Run(steps), id, w)
  {
    if steps == [] {
    } else {
      TempNamesIff(steps[..|steps| - 1], id, w);
      InvOverRuns(steps[..|steps| - 1]);
      TempNameStep(Run(steps[..|steps| - 1]), steps[|steps| - 1], id, w);
    }
  }
}
