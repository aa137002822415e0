/** Crashed, cancelled and repeated runs on one order end where one uninterrupted run ends. */
module Convergence {
  import opened Common
  import opened Sheets
  import opened Orders
  import opened Reservation
  import opened Conservation

  // ---------------------------------------------------------------- one movement per operation and SKU

  /** No operation moved the same SKU twice. */
  predicate MovedOnce(ledger: seq<Movement>) {
    forall i, j :: 0 <= i < j < |ledger| && ledger[i].op == ledger[j].op ==> ledger[i].sku != ledger[j].sku
  }

  lemma CommitMovesOnce(before: Sheet, after: Sheet, items: seq<Item>, dir: Direction, op: OpId)
    requires Committed(before, after, items, dir, op) && MovedOnce(before.ledger)
    ensures MovedOnce(after.ledger)
  {
    var w := Written(before.rows, items, dir, op);
    SkusDistinct(items);
    assert forall i :: 0 <= i < |w| ==> w[i].op == op && w[i].sku == Skus(items)[i];
  }

  lemma StepMovesOnce(s: World, e: Event)
    requires MovedOnce(s.sheet.ledger) && (Mutates(s, e) ==> Coherent(s.sheet))
    requires JobFits(s)
    ensures MovedOnce(Step(s, e).sheet.ledger)
  {
    if Mutates(s, e) {
      var job := s.job.value;
      var dir := if job.pc == Deducting then Deduct else Restore;
      var op := if dir == Deduct then ReserveOp(job.order) else ReleaseOp(job.order);
      var (after, result) := UpdateStock(s.sheet, job.items, dir, op, e.fault);
      UpdateStockCases(s.sheet, job.items, dir, op, e.fault, after, result);
      if Committed(s.sheet, after, job.items, dir, op) {
        CommitMovesOnce(s.sheet, after, job.items, dir, op);
      }
    } else if !(e.BeginCreate? && Step(s, e).ids != s.ids) {
      OtherStepIsQuiet(s, e);
    }
  }

  /** Over any run, each operation moves each SKU at most once: in particular a delete and a release
      of the same order, however often repeated, restore it at most once between them. */
  lemma {:induction false} RunMovesOnce(s: World, events: seq<Event>)
    requires Init(s) && CoherentRun(s, events)
    ensures MovedOnce(Run(s, events).sheet.ledger)
  {
    if events != [] {
      var n := |events| - 1;
      RunMovesOnce(s, events[..n]);
      RunKeepsInv(s, events[..n]);
      StepMovesOnce(Run(s, events[..n]), events[n]);
    }
  }

  // ---------------------------------------------------------------- what a run leaves behind

  /** The durable part of the state: no lock holder, no in-process copy, no history of deletes. */
  function Durable(s: World): World {
    s.(job := None, sheet := Sheet(s.sheet.rows, s.sheet.ledger, None), deleting := {})
  }

  /** The order's stock given back, if it holds any. */
  function WithRestored(s: World, id: OrderId): World
    requires id in s.orders
  {
    if Holds(s, id) then
      var items := s.orders[id].items;
      s.(sheet := Sheet(Moved(s.sheet.rows, items, Restore),
                        s.sheet.ledger + Written(s.sheet.rows, items, Restore, ReleaseOp(id)), None))
    else s
  }

  /** What deleting the order comes to from here. */
  function DeleteGoal(s: World, id: OrderId): World {
    if id in s.orders then Durable(DropOrder(WithRestored(s, id), id)) else Durable(s)
  }

  predicate Undoable(status: Inventory) {
    status == Reserved || status == ReleasePending || status == ReservationPending
  }

  /** What releasing the order comes to from here. */
  function ReleaseGoal(s: World, id: OrderId): World {
    if id in s.orders && Undoable(s.orders[id].inventory) && Releasable(s.orders[id].payment)
    then Durable(SettleRelease(WithRestored(s, id), id))
    else Durable(s)
  }

  function Goal(s: World, kind: JobKind, id: OrderId): World {
    if kind == Deleting then DeleteGoal(s, id) else ReleaseGoal(s, id)
  }

  /** Events of any number of runs of one kind on one order. */
  predicate AttemptEvent(e: Event, kind: JobKind, id: OrderId) {
    || e.Advance? || e.Abort? || e.Restart?
    || (kind == Deleting && e == BeginDelete(id))
    || (kind == Releasing && e == BeginRelease(id))
  }

  /** The lock is free or held by a run of this kind on this order. */
  predicate Ours(s: World, kind: JobKind, id: OrderId) {
    s.job.Some? ==> s.job.value.kind == kind && s.job.value.order == id
  }

  /** Two states that differ in nothing a goal depends on. */
  predicate SameButStatus(s: World, t: World, id: OrderId) {
    && id in s.orders && id in t.orders
    && t.orders == s.orders[id := t.orders[id]]
    && t.orders[id] == s.orders[id].(inventory := t.orders[id].inventory)
    && t.customers == s.customers && t.replays == s.replays && t.ids == s.ids && t.updated == s.updated
    && t.sheet.rows == s.sheet.rows && t.sheet.ledger == s.sheet.ledger
  }

  lemma StatusKeepsDeleteGoal(s: World, t: World, id: OrderId)
    requires SameButStatus(s, t, id)
    ensures DeleteGoal(t, id) == DeleteGoal(s, id)
  {
    hide Debit;
    assert t.orders - {id} == s.orders - {id};
  }

  lemma StatusKeepsReleaseGoal(s: World, t: World, id: OrderId)
    requires SameButStatus(s, t, id)
    requires Releasable(s.orders[id].payment)
    requires Undoable(s.orders[id].inventory) && Undoable(t.orders[id].inventory)
    ensures ReleaseGoal(t, id) == ReleaseGoal(s, id)
  {
    var settled := s.orders[id].(inventory := Released, payment := RejectPending(s.orders[id].payment));
    assert t.orders[id := settled] == s.orders[id := settled];
  }

  lemma StatusKeepsGoal(s: World, t: World, kind: JobKind, id: OrderId)
    requires SameButStatus(s, t, id) && kind != Creating
    requires t.orders[id].inventory == s.orders[id].inventory
          || (kind == Releasing ==>
               Releasable(s.orders[id].payment) && Undoable(s.orders[id].inventory) && Undoable(t.orders[id].inventory))
    ensures Goal(t, kind, id) == Goal(s, kind, id)
  {
    if kind == Deleting {
      StatusKeepsDeleteGoal(s, t, id);
    } else if t.orders[id].inventory == s.orders[id].inventory {
      assert t.orders == s.orders;
    } else {
      StatusKeepsReleaseGoal(s, t, id);
    }
  }

  /** `t` is `s` after its order's restore was committed. */
  predicate RestoredTo(s: World, t: World, id: OrderId) {
    && id in s.orders && Holds(s, id) && !Holds(t, id)
    && t.orders == s.orders && t.customers == s.customers && t.replays == s.replays && t.ids == s.ids
    && t.updated == s.updated
    && t.sheet.rows == Moved(s.sheet.rows, s.orders[id].items, Restore)
    && t.sheet.ledger == s.sheet.ledger + Written(s.sheet.rows, s.orders[id].items, Restore, ReleaseOp(id))
  }

  /** The restoring commit does what the goal still had to do. */
  lemma RestoreReachesGoal(s: World, t: World, kind: JobKind, id: OrderId)
    requires kind != Creating && RestoredTo(s, t, id)
    requires kind == Releasing ==> Undoable(s.orders[id].inventory) && Releasable(s.orders[id].payment)
    ensures Goal(t, kind, id) == Goal(s, kind, id)
  {
    var u := WithRestored(s, id);
    assert WithRestored(t, id) == t;
    if kind == Deleting {
      assert Durable(DropOrder(u, id)) == Durable(DropOrder(t, id));
    } else {
      assert Durable(SettleRelease(u, id)) == Durable(SettleRelease(t, id));
      assert Durable(u).sheet == Durable(t).sheet;
    }
  }

  /** While a release runs alone, its order stays unpaid. */
  predicate Unpaid(s: World, kind: JobKind, id: OrderId) {
    kind == Releasing && s.job.Some? && id in s.orders ==> Releasable(s.orders[id].payment)
  }

  lemma RestoreStepKeepsGoal(s: World, fault: Fault, kind: JobKind, id: OrderId)
    requires Inv(s) && s.job.Some? && Ours(s, kind, id) && s.job.value.pc == Restoring && Coherent(s.sheet)
    requires Unpaid(s, kind, id)
    ensures Goal(RestoreStep(s, fault), kind, id) == Goal(s, kind, id)
  {
    var job := s.job.value;
    var t := RestoreStep(s, fault);
    var (after, result) := UpdateStock(s.sheet, job.items, Restore, ReleaseOp(id), fault);
    UpdateStockCases(s.sheet, job.items, Restore, ReleaseOp(id), fault, after, result);
    assert Agrees(s, id);
    if Untouched(s.sheet, after) {
      StatusKeepsGoal(s, t, kind, id);
    } else {
      CommittedRecords(s.sheet, after, job.items, Restore, ReleaseOp(id));
      RestoreReachesGoal(s, t, kind, id);
    }
  }

  lemma ReadsKeepGoal(s: World, readable: bool, kind: JobKind, id: OrderId)
    requires JobFits(s) && s.job.Some? && Ours(s, kind, id)
    ensures s.job.value.pc == Checking ==> Goal(CheckStep(s, readable), kind, id) == Goal(s, kind, id)
    ensures s.job.value.pc == VerifyingRestore ==> Goal(VerifyRestoreStep(s, readable), kind, id) == Goal(s, kind, id)
  {
    hide Goal, OperationApplied;
    if s.job.value.pc == Checking {
      CheckIsQuiet(s, readable);
      StatusKeepsGoal(s, CheckStep(s, readable), kind, id);
    } else if s.job.value.pc == VerifyingRestore {
      VerifyRestoreIsQuiet(s, readable);
      StatusKeepsGoal(s, VerifyRestoreStep(s, readable), kind, id);
    }
  }

  lemma MarkReleaseKeepsGoal(s: World, kind: JobKind, id: OrderId)
    requires JobFits(s) && s.job.Some? && Ours(s, kind, id) && s.job.value.pc == MarkingRelease
    requires kind == Releasing ==> Releasable(s.orders[id].payment)
    ensures Goal(MarkReleaseStep(s), kind, id) == Goal(s, kind, id)
  {
    StatusKeepsGoal(s, MarkReleaseStep(s), kind, id);
  }

  lemma FinishReachesGoal(s: World, kind: JobKind, id: OrderId)
    requires JobFits(s) && s.job.Some? && Ours(s, kind, id) && s.job.value.pc == Finishing
    requires kind == Releasing ==> Releasable(s.orders[id].payment)
    ensures Goal(FinishStep(s), kind, id) == Goal(s, kind, id)
  {
  }

  lemma BeginKeepsGoal(s: World, kind: JobKind, id: OrderId)
    requires s.job.None? && id in s.orders
    requires (kind == Deleting || (kind == Releasing && Releasable(s.orders[id].payment)))
    ensures Goal(BeginUndo(s, kind, id), kind, id) == Goal(s, kind, id)
  {
    StatusKeepsGoal(s, BeginUndo(s, kind, id), kind, id);
  }

  lemma AdvanceKeepsGoal(s: World, fault: Fault, readable: bool, kind: JobKind, id: OrderId)
    requires kind != Creating
    requires Inv(s) && Ours(s, kind, id) && Unpaid(s, kind, id)
    requires Mutates(s, Advance(fault, readable)) ==> Coherent(s.sheet)
    ensures Goal(AdvanceStep(s, fault, readable), kind, id) == Goal(s, kind, id)
  {
    if s.job.Some? {
      match s.job.value.pc {
        case Restoring => RestoreStepKeepsGoal(s, fault, kind, id);
        case Checking => ReadsKeepGoal(s, readable, kind, id);
        case VerifyingRestore => ReadsKeepGoal(s, readable, kind, id);
        case MarkingRelease => MarkReleaseKeepsGoal(s, kind, id);
        case Finishing => FinishReachesGoal(s, kind, id);
        case _ =>
      }
    }
  }

  lemma AdvanceStaysOurs(s: World, fault: Fault, readable: bool, kind: JobKind, id: OrderId)
    requires kind != Creating
    requires JobFits(s) && Ours(s, kind, id) && Unpaid(s, kind, id)
    ensures Ours(AdvanceStep(s, fault, readable), kind, id) && Unpaid(AdvanceStep(s, fault, readable), kind, id)
  {
  }

  lemma DeleteStepKeepsGoal(s: World, id: OrderId)
    requires Ours(s, Deleting, id)
    ensures Goal(DeleteStep(s, id), Deleting, id) == Goal(s, Deleting, id) && Ours(DeleteStep(s, id), Deleting, id)
  {
    if s.job.None? && id in s.orders {
      var t := s.(deleting := s.deleting + {id});
      StatusKeepsGoal(s, t, Deleting, id);
      BeginKeepsGoal(t, Deleting, id);
    }
  }

  lemma ReleaseStepKeepsGoal(s: World, id: OrderId)
    requires Ours(s, Releasing, id) && Unpaid(s, Releasing, id)
    ensures Goal(ReleaseStep(s, id), Releasing, id) == Goal(s, Releasing, id)
    ensures Ours(ReleaseStep(s, id), Releasing, id) && Unpaid(ReleaseStep(s, id), Releasing, id)
  {
    if s.job.None? && id in s.orders && Releasable(s.orders[id].payment) {
      BeginKeepsGoal(s, Releasing, id);
    }
  }

  lemma EndKeepsGoal(s: World, e: Event, kind: JobKind, id: OrderId)
    requires kind != Creating && (e == Abort || e == Restart)
    ensures Goal(Step(s, e), kind, id) == Goal(s, kind, id)
  {
    if id in s.orders {
      hide Goal;
      StatusKeepsGoal(s, Step(s, e), kind, id);
    }
  }

  lemma AttemptKeepsGoal(s: World, e: Event, kind: JobKind, id: OrderId)
    requires kind != Creating
    requires Inv(s) && Ours(s, kind, id) && Unpaid(s, kind, id) && AttemptEvent(e, kind, id)
    requires Mutates(s, e) ==> Coherent(s.sheet)
    ensures Goal(Step(s, e), kind, id) == Goal(s, kind, id)
    ensures Ours(Step(s, e), kind, id) && Unpaid(Step(s, e), kind, id)
  {
    hide Goal, DeleteStep, ReleaseStep, AdvanceStep;
    match e {
      case BeginDelete(_) => DeleteStepKeepsGoal(s, id);
      case BeginRelease(_) => ReleaseStepKeepsGoal(s, id);
      case Advance(fault, readable) =>
        AdvanceKeepsGoal(s, fault, readable, kind, id);
        AdvanceStaysOurs(s, fault, readable, kind, id);
      case _ => EndKeepsGoal(s, e, kind, id);
    }
  }

  lemma {:induction false} AttemptsKeepGoal(s: World, events: seq<Event>, kind: JobKind, id: OrderId)
    requires kind != Creating
    requires Inv(s) && s.job.None? && CoherentRun(s, events)
    requires forall i :: 0 <= i < |events| ==> AttemptEvent(events[i], kind, id)
    ensures var t := Run(s, events);
      Inv(t) && Ours(t, kind, id) && Unpaid(t, kind, id) && Goal(t, kind, id) == Goal(s, kind, id)
  {
    if events != [] {
      var n := |events| - 1;
      AttemptsKeepGoal(s, events[..n], kind, id);
      AttemptKeepsGoal(Run(s, events[..n]), events[n], kind, id);
      StepKeepsInv(Run(s, events[..n]), events[n]);
    }
  }

  // Deletes and releases of one order together.

  /** Events of any number of deletes and releases of one order. */
  predicate UndoEvent(e: Event, id: OrderId) {
    e.Advance? || e.Abort? || e.Restart? || e == BeginDelete(id) || e == BeginRelease(id)
  }

  predicate UndoOnly(s: World, id: OrderId) {
    s.job.Some? ==> s.job.value.kind != Creating && s.job.value.order == id
  }

  /** The same state with its run taken for a delete. */
  function AsDelete(s: World): World {
    if s.job.Some? then s.(job := Some(s.job.value.(kind := Deleting))) else s
  }

  lemma AsDeleteKeepsInv(s: World, id: OrderId)
    requires Inv(s) && UndoOnly(s, id) && (s.job.Some? ==> s.job.value.pc != Finishing)
    ensures Inv(AsDelete(s)) && Ours(AsDelete(s), Deleting, id)
  {
    forall other | other in s.orders
      ensures Agrees(AsDelete(s), other)
    {
      assert Agrees(s, other);
    }
  }

  lemma SheetsCallAsDelete(s: World, fault: Fault, readable: bool)
    requires s.job.Some?
    ensures RestoreStep(AsDelete(s), fault) == AsDelete(RestoreStep(s, fault))
    ensures VerifyRestoreStep(AsDelete(s), readable) == AsDelete(VerifyRestoreStep(s, readable))
    ensures CheckStep(AsDelete(s), readable) == AsDelete(CheckStep(s, readable))
  {
    hide UpdateStock, OperationApplied;
  }

  lemma MarkReleaseAsDelete(s: World)
    requires s.job.Some?
    ensures MarkReleaseStep(AsDelete(s)) == AsDelete(MarkReleaseStep(s))
  {
  }

  lemma UndoStaysOnly(s: World, fault: Fault, readable: bool, id: OrderId)
    requires JobFits(s) && UndoOnly(s, id) && (s.job.Some? ==> s.job.value.pc != Finishing)
    ensures UndoOnly(AdvanceStep(s, fault, readable), id)
  {
    hide UpdateStock, OperationApplied;
  }

  lemma AsDeleteAdvances(s: World, fault: Fault, readable: bool, id: OrderId)
    requires JobFits(s) && UndoOnly(s, id) && (s.job.Some? ==> s.job.value.pc != Finishing)
    ensures AdvanceStep(AsDelete(s), fault, readable) == AsDelete(AdvanceStep(s, fault, readable))
  {
    if s.job.Some? {
      SheetsCallAsDelete(s, fault, readable);
      MarkReleaseAsDelete(s);
    }
    hide RestoreStep, VerifyRestoreStep, CheckStep, MarkReleaseStep;
  }

  /** A release settling the order changes nothing a delete leaves behind. */
  lemma SettleKeepsDeleteGoal(s: World, id: OrderId)
    requires Inv(s) && s.job.Some? && s.job.value.kind == Releasing && s.job.value.order == id
    requires s.job.value.pc == Finishing
    ensures DeleteGoal(FinishStep(s), id) == DeleteGoal(s, id) && FinishStep(s).job.None?
  {
    hide Debit;
    if id in s.orders && Releasable(s.orders[id].payment) {
      var t := FinishStep(s);
      assert !Holds(s, id);
      assert !Holds(t, id);
      assert t.orders - {id} == s.orders - {id};
      assert Durable(DropOrder(t, id)) == Durable(DropOrder(s, id));
    }
  }

  lemma UndoKeepsDeleteGoal(s: World, e: Event, id: OrderId)
    requires Inv(s) && UndoOnly(s, id) && UndoEvent(e, id) && (Mutates(s, e) ==> Coherent(s.sheet))
    ensures DeleteGoal(Step(s, e), id) == DeleteGoal(s, id) && UndoOnly(Step(s, e), id)
  {
    hide DeleteGoal, DeleteStep, ReleaseStep, AdvanceStep, Inv;
    match e {
      case BeginDelete(_) => BeginDeleteKeeps(s, id);
      case BeginRelease(_) => BeginReleaseKeeps(s, id);
      case Advance(fault, readable) => UndoAdvanceKeeps(s, fault, readable, id);
      case _ => EndKeepsDeleteGoal(s, e, id);
    }
  }

  lemma EndKeepsDeleteGoal(s: World, e: Event, id: OrderId)
    requires e == Abort || e == Restart
    ensures DeleteGoal(Step(s, e), id) == DeleteGoal(s, id) && Step(s, e).job.None?
  {
    EndKeepsGoal(s, e, Deleting, id);
  }

  lemma BeginDeleteKeeps(s: World, id: OrderId)
    requires UndoOnly(s, id)
    ensures DeleteGoal(DeleteStep(s, id), id) == DeleteGoal(s, id) && UndoOnly(DeleteStep(s, id), id)
  {
    if s.job.None? {
      DeleteStepKeepsGoal(s, id);
    }
  }

  lemma BeginReleaseKeeps(s: World, id: OrderId)
    requires UndoOnly(s, id)
    ensures DeleteGoal(ReleaseStep(s, id), id) == DeleteGoal(s, id) && UndoOnly(ReleaseStep(s, id), id)
  {
    if s.job.None? && id in s.orders {
      StatusKeepsDeleteGoal(s, ReleaseStep(s, id), id);
    }
  }

  lemma UndoAdvanceKeeps(s: World, fault: Fault, readable: bool, id: OrderId)
    requires Inv(s) && UndoOnly(s, id) && (Mutates(s, Advance(fault, readable)) ==> Coherent(s.sheet))
    ensures var t := AdvanceStep(s, fault, readable); DeleteGoal(t, id) == DeleteGoal(s, id) && UndoOnly(t, id)
  {
    hide DeleteGoal, FinishStep;
    if s.job.Some? && s.job.value.pc == Finishing {
      if s.job.value.kind == Deleting {
        FinishReachesDeleteGoal(s, id);
      } else {
        SettleKeepsDeleteGoal(s, id);
      }
    } else {
      AsDeleteAdvance(s, fault, readable, id);
    }
  }

  lemma FinishReachesDeleteGoal(s: World, id: OrderId)
    requires Inv(s) && s.job.Some? && Ours(s, Deleting, id) && s.job.value.pc == Finishing
    ensures DeleteGoal(FinishStep(s), id) == DeleteGoal(s, id) && FinishStep(s).job.None?
  {
    FinishReachesGoal(s, Deleting, id);
  }

  lemma AsDeleteAdvance(s: World, fault: Fault, readable: bool, id: OrderId)
    requires Inv(s) && UndoOnly(s, id) && (Mutates(s, Advance(fault, readable)) ==> Coherent(s.sheet))
    requires s.job.Some? ==> s.job.value.pc != Finishing
    ensures var t := AdvanceStep(s, fault, readable); DeleteGoal(t, id) == DeleteGoal(s, id) && UndoOnly(t, id)
  {
    AsDeleteKeepsInv(s, id);
    AsDeleteAdvances(s, fault, readable, id);
    UndoStaysOnly(s, fault, readable, id);
    SameGoalAsDelete(s, id);
    hide AdvanceStep, Inv, DeleteGoal;
    AdvanceKeepsGoal(AsDelete(s), fault, readable, Deleting, id);
    SameGoalAsDelete(AdvanceStep(s, fault, readable), id);
  }

  lemma SameGoalAsDelete(s: World, id: OrderId)
    ensures DeleteGoal(AsDelete(s), id) == DeleteGoal(s, id)
  {
    hide Debit;
  }

  lemma {:induction false} UndosKeepDeleteGoal(s: World, events: seq<Event>, id: OrderId)
    requires Inv(s) && s.job.None? && CoherentRun(s, events)
    requires forall i :: 0 <= i < |events| ==> UndoEvent(events[i], id)
    ensures var t := Run(s, events);
      Inv(t) && UndoOnly(t, id) && DeleteGoal(t, id) == DeleteGoal(s, id)
  {
    hide DeleteGoal, Inv, Step, UndoEvent;
    if events != [] {
      var n := |events| - 1;
      UndosKeepDeleteGoal(s, events[..n], id);
      UndoKeepsDeleteGoal(Run(s, events[..n]), events[n], id);
      StepKeepsInv(Run(s, events[..n]), events[n]);
    }
  }

  /** Crash convergence of deletes: any number of interrupted, failed or completed releases and
      interrupted or failed deletes of one order, followed by a delete that removes the row, leaves the
      stock, ledger, rows, customer totals and replay table that the order's own delete comes to. */
  lemma DeletesConverge(s: World, events: seq<Event>, id: OrderId)
    requires Inv(s) && s.job.None? && id in s.orders && CoherentRun(s, events)
    requires forall i :: 0 <= i < |events| ==> UndoEvent(events[i], id)
    requires id !in Run(s, events).orders
    ensures Durable(Run(s, events)) == DeleteGoal(s, id)
  {
    UndosKeepDeleteGoal(s, events, id);
  }

  /** Crash convergence of releases, in the same sense, among releases. */
  lemma ReleasesConverge(s: World, events: seq<Event>, id: OrderId)
    requires Inv(s) && s.job.None? && id in s.orders && CoherentRun(s, events)
    requires forall i :: 0 <= i < |events| ==> AttemptEvent(events[i], Releasing, id)
    requires id in Run(s, events).orders && Run(s, events).orders[id].inventory == Released
    ensures Durable(Run(s, events)) == ReleaseGoal(s, id)
  {
    AttemptsKeepGoal(s, events, Releasing, id);
  }
}
