/** The location directory and the reference counter each learn about a peer's copies from the same two
    calls, the directory first; when do they agree? */
module Borrowing {
  import opened Bytes
  import Tiers
  import opened Lifecycle
  import RC = RefCounter

  type ObjectId = Tiers.ObjectId

  datatype Kind = Registration | Removal

  function Borrowers(refs: RC.Entries, id: ObjectId): set<NodeId> { RC.EntryOf(refs, id).borrowers }

  predicate Listed(o: Owner, id: ObjectId, node: NodeId) { node in Holders(o.locations, id) }
  predicate Counted(o: Owner, id: ObjectId, node: NodeId) { node in Borrowers(o.refs, id) }

  predicate Concerns(call: Call, id: ObjectId, node: NodeId) {
    (call.Registering? || call.Dropping?) && call.id == id && call.node == node
  }

  function KindOf(call: Call): Kind {
    if call.Registering? then Registration else Removal
  }

  /** Call `c` has told the directory about `node` and not yet the counter. */
  predicate Between(o: Owner, c: nat, id: ObjectId, node: NodeId) {
    c in o.calls && Concerns(o.calls[c], id, node)
  }

  // ---------- The peer's calls, as they begin and as they end ----------

  /** The call about this peer and object that the step begins, if it begins one. */
  function Begins(o: Owner, step: Step, id: ObjectId, node: NodeId): Option<Kind> {
    match step
    case StartRegister(c, k, n) => if c !in o.calls && k == id && n == node then Some(Registration) else None
    case StartDrop(c, k, n) => if c !in o.calls && k == id && n == node then Some(Removal) else None
    case _ => None
  }

  /** The one that it ends. */
  function Ends(o: Owner, step: Step, id: ObjectId, node: NodeId): Option<Kind> {
    if step.Go? && Between(o, step.c, id, node) then Some(KindOf(o.calls[step.c])) else None
  }

  function LastBegun(self: NodeId, steps: seq<Step>, id: ObjectId, node: NodeId): Option<Kind> {
    if steps == [] then None
    else
      var now := Begins(Run(self, steps[..|steps| - 1]), steps[|steps| - 1], id, node);
      if now.Some? then now else LastBegun(self, steps[..|steps| - 1], id, node)
  }

  function LastEnded(self: NodeId, steps: seq<Step>, id: ObjectId, node: NodeId): Option<Kind> {
    if steps == [] then None
    else
      var now := Ends(Run(self, steps[..|steps| - 1]), steps[|steps| - 1], id, node);
      if now.Some? then now else LastEnded(self, steps[..|steps| - 1], id, node)
  }

  // ---------- One step ----------

  /** An operation on the counter that does not add or remove this borrower leaves it as it was. */
  lemma CountedFrame(refs: RC.Entries, op: RC.Op, id: ObjectId, node: NodeId)
    requires (op.AddBorrower? || op.RemoveBorrower?) && op.id == id ==> op.worker != node
    ensures node in Borrowers(RC.Apply(refs, op).0, id) <==> node in Borrowers(refs, id)
  {
  }

  lemma CountedAfter(refs: RC.Entries, id: ObjectId, node: NodeId)
    ensures node in Borrowers(RC.Apply(refs, RC.AddBorrower(id, node)).0, id)
    ensures node !in Borrowers(RC.Apply(refs, RC.RemoveBorrower(id, node)).0, id)
  {
  }

  lemma CountedGo(o: Owner, c: nat, fails: bool, id: ObjectId, node: NodeId)
    requires c in o.calls
    ensures Counted(Next(o, Go(c, fails)), id, node) <==>
            if Concerns(o.calls[c], id, node) then o.calls[c].Registering? else Counted(o, id, node)
  {
    if Concerns(o.calls[c], id, node) {
      CountedAfter(o.refs, id, node);
    } else {
      match o.calls[c]
      case Dropping(k, n) => CountedFrame(o.refs, RC.RemoveBorrower(k, n), id, node);
      case Registering(k, n) => CountedFrame(o.refs, RC.AddBorrower(k, n), id, node);
      case PutIndexed(k) => CountedFrame(o.refs, RC.AddOwned(k), id, node);
      case _ =>
    }
  }

  lemma CountedStep(o: Owner, step: Step, id: ObjectId, node: NodeId)
    ensures Counted(Next(o, step), id, node) <==>
            if Ends(o, step, id, node).Some? then Ends(o, step, id, node) == Some(Registration)
            else Counted(o, id, node)
  {
    match step
    case IncLocal(k) => CountedFrame(o.refs, RC.IncLocal(k), id, node);
    case DecLocal(_, k) => CountedFrame(o.refs, RC.DecLocal(k), id, node);
    case Go(c, fails) => if c in o.calls { CountedGo(o, c, fails, id, node); }
    case _ =>
  }

  lemma ListedStep(o: Owner, step: Step, id: ObjectId, node: NodeId)
    requires Tidy(o, id) && node != o.self
    ensures Listed(Next(o, step), id, node) <==>
            if Begins(o, step, id, node).Some? then Begins(o, step, id, node) == Some(Registration)
            else Listed(o, id, node)
  {
    match step
    case StartRegister(_, k, n) => HoldersAfter(o.locations, k, n, id);
    case StartDrop(_, k, n) => HoldersAfter(o.locations, k, n, id);
    case Go(c, _) => if c in o.calls { HoldersAfter(o.locations, o.calls[c].id, o.self, id); }
    case _ =>
  }

  // ---------- Exactly when they agree ----------

  lemma {:induction false} FollowLastCalls(self: NodeId, steps: seq<Step>, id: ObjectId, node: NodeId)
    requires node != self
    ensures Listed(Run(self, steps), id, node) <==> LastBegun(self, steps, id, node) == Some(Registration)
    ensures Counted(Run(self, steps), id, node) <==> LastEnded(self, steps, id, node) == Some(Registration)
  {
    if steps == [] {
    } else {
      var before := steps[..|steps| - 1];
      FollowLastCalls(self, before, id, node);
      InvOverRuns(self, before, id);
      ListedStep(Run(self, before), steps[|steps| - 1], id, node);
      CountedStep(Run(self, before), steps[|steps| - 1], id, node);
    }
  }

  /** In every interleaving: the directory lists a peer exactly when the peer's call that last began is a
      registration, and the counter counts it exactly when the one that last ended is. So the two agree
      exactly when those are of one kind, a peer that never called counting as removed. */
  lemma {:induction false} HoldersAreBorrowersIff(self: NodeId, steps: seq<Step>, id: ObjectId, node: NodeId)
    requires node != self
    ensures node in Holders(Run(self, steps).locations, id) <==> LastBegun(self, steps, id, node) == Some(Registration)
    ensures node in Borrowers(Run(self, steps).refs, id) <==> LastEnded(self, steps, id, node) == Some(Registration)
    ensures (node in Holders(Run(self, steps).locations, id) <==> node in Borrowers(Run(self, steps).refs, id)) <==>
            (LastBegun(self, steps, id, node) == Some(Registration) <==>
             LastEnded(self, steps, id, node) == Some(Registration))
  {
    FollowLastCalls(self, steps, id, node);
  }

  // ---------- A peer whose registrations and removals do not cross ----------

  /** A call begins while one of the other kind is between its two updates. */
  ghost predicate Crosses(o: Owner, step: Step, id: ObjectId, node: NodeId) {
    Begins(o, step, id, node).Some? &&
    exists c :: Between(o, c, id, node) && KindOf(o.calls[c]) != Begins(o, step, id, node).value
  }

  ghost predicate NoCrossing(self: NodeId, steps: seq<Step>, id: ObjectId, node: NodeId) {
    steps == [] ||
    (NoCrossing(self, steps[..|steps| - 1], id, node) &&
     !Crosses(Run(self, steps[..|steps| - 1]), steps[|steps| - 1], id, node))
  }

  ghost predicate InProgress(o: Owner, id: ObjectId, node: NodeId) {
    exists c :: Between(o, c, id, node)
  }

  /** All calls in progress are of the kind that began last; without any, it also ended last. */
  ghost predicate OneKind(o: Owner, begun: Option<Kind>, ended: Option<Kind>, id: ObjectId, node: NodeId) {
    && (forall c :: Between(o, c, id, node) ==> begun == Some(KindOf(o.calls[c])))
    && (!InProgress(o, id, node) ==> begun == ended)
  }

  /** The calls in progress before and after a step. */
  lemma BetweenStep(o: Owner, step: Step, c: nat, id: ObjectId, node: NodeId)
    requires node != o.self
    ensures var o' := Next(o, step);
            if Begins(o, step, id, node).Some? && step.c == c then
              Between(o', c, id, node) && Some(KindOf(o'.calls[c])) == Begins(o, step, id, node)
            else if Ends(o, step, id, node).Some? && step.c == c then !Between(o', c, id, node)
            else
              && (Between(o', c, id, node) <==> Between(o, c, id, node))
              && (Between(o, c, id, node) ==> o'.calls[c] == o.calls[c])
  {
  }

  lemma OneKindStep(o: Owner, step: Step, begun: Option<Kind>, ended: Option<Kind>, id: ObjectId, node: NodeId)
    requires node != o.self && OneKind(o, begun, ended, id, node) && !Crosses(o, step, id, node)
    ensures var b, e := Begins(o, step, id, node), Ends(o, step, id, node);
            OneKind(Next(o, step), if b.Some? then b else begun, if e.Some? then e else ended, id, node)
  {
    var o' := Next(o, step);
    var b, e := Begins(o, step, id, node), Ends(o, step, id, node);
    forall c | Between(o', c, id, node) ensures (if b.Some? then b else begun) == Some(KindOf(o'.calls[c])) {
      BetweenStep(o, step, c, id, node);
    }
    if !InProgress(o', id, node) {
      NoneLeft(o, step, id, node);
      if e.Some? { assert Between(o, step.c, id, node); }
    }
  }

  /** If nothing is in progress after a step, the step began nothing, and nothing but a call that it ended
      was in progress before. */
  lemma NoneLeft(o: Owner, step: Step, id: ObjectId, node: NodeId)
    requires node != o.self && !InProgress(Next(o, step), id, node)
    ensures Begins(o, step, id, node).None?
    ensures Ends(o, step, id, node).None? ==> !InProgress(o, id, node)
  {
    if Begins(o, step, id, node).Some? {
      BetweenStep(o, step, step.c, id, node);
      assert false;
    } else if Ends(o, step, id, node).None? {
      forall c ensures !Between(o, c, id, node) {
        BetweenStep(o, step, c, id, node);
        assert !Between(Next(o, step), c, id, node);
      }
    }
  }

  lemma {:induction false} OneKindOverRuns(self: NodeId, steps: seq<Step>, id: ObjectId, node: NodeId)
    requires node != self && NoCrossing(self, steps, id, node)
    ensures OneKind(Run(self, steps), LastBegun(self, steps, id, node), LastEnded(self, steps, id, node), id, node)
  {
    if steps == [] {
    } else {
      var before := steps[..|steps| - 1];
      OneKindOverRuns(self, before, id, node);
      InvOverRuns(self, before, id);
      OneKindStep(Run(self, before), steps[|steps| - 1], LastBegun(self, before, id, node),
                  LastEnded(self, before, id, node), id, node);
    }
  }

  /** So they agree whenever no call is in progress, in every interleaving in which a registration and a
      removal by the peer do not cross; calls of one kind may overlap as they like. */
  lemma {:induction false} HoldersAreBorrowers(self: NodeId, steps: seq<Step>, id: ObjectId, node: NodeId)
    requires node != self && NoCrossing(self, steps, id, node)
    requires !InProgress(Run(self, steps), id, node)
    ensures node in Holders(Run(self, steps).locations, id) <==> node in Borrowers(Run(self, steps).refs, id)
  {
    FollowLastCalls(self, steps, id, node);
    OneKindOverRuns(self, steps, id, node);
  }

  // ---------- The two ways to cross ----------

  lemma TwoMore(self: NodeId, steps: seq<Step>, a: Step, b: Step)
    ensures Run(self, steps + [a, b]) == Next(Next(Run(self, steps), a), b)
  {
    Snoc(self, steps, a);
    Snoc(self, steps + [a], b);
    assert steps + [a, b] == (steps + [a]) + [b];
  }

  lemma FourMore(self: NodeId, steps: seq<Step>, a: Step, b: Step, c: Step, d: Step)
    ensures Run(self, steps + [a, b, c, d]) == Next(Next(Next(Next(Run(self, steps), a), b), c), d)
  {
    TwoMore(self, steps, a, b);
    TwoMore(self, steps + [a, b], c, d);
    assert steps + [a, b, c, d] == (steps + [a, b]) + [c, d];
  }

  /** Two calls of the peer in progress, the first begun before the second: the directory believes the
      second. */
  lemma TwoBegin(o: Owner, first: Step, second: Step, id: ObjectId, node: NodeId)
    requires Tidy(o, id) && node != o.self && Begins(o, first, id, node).Some? && Begins(o, second, id, node).Some?
    requires first.c != second.c
    ensures var o' := Next(Next(o, first), second);
            && Tidy(o', id) && o'.self == o.self && o'.refs == o.refs
            && Between(o', first.c, id, node) && Some(KindOf(o'.calls[first.c])) == Begins(o, first, id, node)
            && Between(o', second.c, id, node) && Some(KindOf(o'.calls[second.c])) == Begins(o, second, id, node)
            && (Listed(o', id, node) <==> Begins(o, second, id, node) == Some(Registration))
  {
    var a := Next(o, first);
    TidyStep(o, first, id);
    TidyStep(a, second, id);
    BetweenStep(o, first, first.c, id, node);
    BetweenStep(a, second, first.c, id, node);
    BetweenStep(a, second, second.c, id, node);
    ListedStep(a, second, id, node);
  }

  /** They end one after the other: the counter believes the last. */
  lemma TwoEnd(o: Owner, c: nat, d: nat, id: ObjectId, node: NodeId)
    requires Tidy(o, id) && node != o.self && c != d && Between(o, c, id, node) && Between(o, d, id, node)
    ensures var o' := Next(Next(o, Go(c, false)), Go(d, false));
            && !Between(o', c, id, node) && !Between(o', d, id, node)
            && (Listed(o', id, node) <==> Listed(o, id, node))
            && (Counted(o', id, node) <==> o.calls[d].Registering?)
  {
    var a := Next(o, Go(c, false));
    TidyStep(o, Go(c, false), id);
    BetweenStep(o, Go(c, false), c, id, node);
    BetweenStep(o, Go(c, false), d, id, node);
    BetweenStep(a, Go(d, false), c, id, node);
    BetweenStep(a, Go(d, false), d, id, node);
    ListedStep(o, Go(c, false), id, node);
    ListedStep(a, Go(d, false), id, node);
    CountedStep(a, Go(d, false), id, node);
  }

  /** After every run: a removal that begins and ends inside a registration of the same peer leaves the
      peer pinning an object it is not listed for. */
  lemma RemovalInsideRegistration(self: NodeId, steps: seq<Step>, c: nat, d: nat, id: ObjectId, node: NodeId)
    requires node != self && c != d && c !in Run(self, steps).calls && d !in Run(self, steps).calls
    ensures var more := [StartRegister(c, id, node), StartDrop(d, id, node), Go(d, false), Go(c, false)];
            var o := Run(self, steps + more);
            && !Between(o, c, id, node) && !Between(o, d, id, node)
            && node !in Holders(o.locations, id) && node in Borrowers(o.refs, id)
  {
    var o := Run(self, steps);
    InvOverRuns(self, steps, id);
    TwoBegin(o, StartRegister(c, id, node), StartDrop(d, id, node), id, node);
    TwoEnd(Next(Next(o, StartRegister(c, id, node)), StartDrop(d, id, node)), d, c, id, node);
    FourMore(self, steps, StartRegister(c, id, node), StartDrop(d, id, node), Go(d, false), Go(c, false));
  }

  predicate NothingElsePins(refs: RC.Entries, id: ObjectId, node: NodeId) {
    RC.EntryOf(refs, id).localCount == 0 && Borrowers(refs, id) <= {node}
  }

  lemma EndFrees(o: Owner, c: nat, d: nat, id: ObjectId, node: NodeId)
    requires Tidy(o, id) && c != d && NothingElsePins(o.refs, id, node)
    requires c in o.calls && o.calls[c] == Registering(id, node) && d in o.calls && o.calls[d] == Dropping(id, node)
    ensures var o' := Next(Next(o, Go(c, false)), Go(d, false));
            d in o'.calls && o'.calls[d] == Freeing(id, DropIndex)
  {
    var a := Next(o, Go(c, false));
    assert a.refs[id].borrowers - {node} == {};
  }

  /** And a registration that begins and ends inside a removal leaves the peer listed and not counted. If
      nothing else pins the object, the removal goes on to free it under the peer that has just registered. */
  lemma RegistrationInsideRemoval(self: NodeId, steps: seq<Step>, c: nat, d: nat, id: ObjectId, node: NodeId)
    requires node != self && c != d && c !in Run(self, steps).calls && d !in Run(self, steps).calls
    ensures var more := [StartDrop(d, id, node), StartRegister(c, id, node), Go(c, false), Go(d, false)];
            var o := Run(self, steps + more);
            && !Between(o, c, id, node) && !Between(o, d, id, node)
            && node in Holders(o.locations, id) && node !in Borrowers(o.refs, id)
            && (NothingElsePins(Run(self, steps).refs, id, node) ==>
                d in o.calls && o.calls[d] == Freeing(id, DropIndex))
  {
    var o := Run(self, steps);
    InvOverRuns(self, steps, id);
    TwoBegin(o, StartDrop(d, id, node), StartRegister(c, id, node), id, node);
    var b := Next(Next(o, StartDrop(d, id, node)), StartRegister(c, id, node));
    TwoEnd(b, c, d, id, node);
    if NothingElsePins(o.refs, id, node) { EndFrees(b, c, d, id, node); }
    FourMore(self, steps, StartDrop(d, id, node), StartRegister(c, id, node), Go(c, false), Go(d, false));
  }
}
