/** An uninterrupted delete or release of a reachable order completes: a restore is never refused,
    and only a pending order with an unusable line is stuck. */
module Progress {
  import opened Common
  import opened Sheets
  import opened Orders
  import opened Reservation
  import opened Conservation
  import opened Convergence
  import Coherence

  /** The rows an operation recorded read back as the operation. */
  predicate ReadsBack(ledger: seq<Movement>, op: OpId, items: seq<Item>, dir: Direction) {
    Recorded(ledger, op) ==> Validate(OpRows(ledger, op), items, dir).Success?
  }

  /** Every requested SKU has its one row. */
  predicate OnSheet(rows: seq<Product>, items: seq<Item>) {
    && ValidItems(items) && !HasDuplicate(rows)
    && forall sku :: sku in Skus(items) ==> RowOf(rows, sku).Some?
  }

  predicate Replayable(s: World, id: OrderId) {
    id in s.orders ==>
      var items := s.orders[id].items;
      && ReadsBack(s.sheet.ledger, ReserveOp(id), items, Deduct)
      && ReadsBack(s.sheet.ledger, ReleaseOp(id), items, Restore)
      && (ReservedInLedger(s, id) ==> OnSheet(s.sheet.rows, items))
  }

  predicate AllReplayable(s: World) {
    forall id :: id in s.orders ==> Replayable(s, id)
  }

  predicate SameSkus(a: seq<Product>, b: seq<Product>) {
    |a| == |b| && forall i :: 0 <= i < |a| ==> a[i].sku == b[i].sku
  }

  lemma SameSkusOnSheet(a: seq<Product>, b: seq<Product>, items: seq<Item>)
    requires SameSkus(a, b) && OnSheet(a, items)
    ensures OnSheet(b, items)
  {
    forall sku | sku in Skus(items)
      ensures RowOf(b, sku).Some?
    {
      RowOfMoved(a, b, sku);
    }
  }

  lemma NotBlockedOnSheet(rows: seq<Product>, items: seq<Item>, dir: Direction)
    requires ValidItems(items) && Blocked(rows, items, dir).None?
    ensures OnSheet(rows, items)
  {
    NotBlockedMeans(rows, items, dir);
    forall sku | sku in Skus(items)
      ensures RowOf(rows, sku).Some?
    {
      assert Problem(rows, items, dir, sku).None?;
    }
  }

  /** A restore onto known rows is never refused. */
  lemma RestoreNotBlocked(rows: seq<Product>, items: seq<Item>)
    requires OnSheet(rows, items) && NonNegative(rows)
    ensures Blocked(rows, items, Restore).None?
  {
    NotBlockedMeans(rows, items, Restore);
    forall sku | sku in Skus(items)
      ensures Problem(rows, items, Restore, sku).None?
    {
      TotalPositive(items, sku);
    }
  }

  // ---------------------------------------------------------------- the invariant

  lemma QuietKeepsReplayable(s: World, t: World)
    requires AllReplayable(s) && Quiet(s, t)
    ensures AllReplayable(t)
  {
    forall id | id in t.orders
      ensures Replayable(t, id)
    {
      assert Replayable(s, id);
    }
  }

  lemma InsertKeepsReplayable(s: World, r: Request, newId: OrderId)
    requires Inv(s) && AllReplayable(s) && newId !in s.ids
    ensures AllReplayable(Insert(s, r, newId))
  {
    var t := Insert(s, r, newId);
    NewIdUnrecorded(s, newId);
    forall id | id in t.orders
      ensures Replayable(t, id)
    {
      assert id != newId ==> Replayable(s, id);
    }
  }

  lemma OtherReplayable(s: World, t: World, items: seq<Item>, dir: Direction, op: OpId, other: OrderId)
    requires Committed(s.sheet, t.sheet, items, dir, op) && t.orders == s.orders
    requires op.order != other && Replayable(s, other)
    ensures Replayable(t, other)
  {
    if other in s.orders {
      var w := Written(s.sheet.rows, items, dir, op);
      OtherOperationsKept(s.sheet, t.sheet, items, dir, op, ReserveOp(other));
      OtherOperationsKept(s.sheet, t.sheet, items, dir, op, ReleaseOp(other));
      OtherRecordsKept(s.sheet.ledger, w, op, ReserveOp(other));
      OtherRecordsKept(s.sheet.ledger, w, op, ReleaseOp(other));
      if ReservedInLedger(s, other) {
        SameSkusOnSheet(s.sheet.rows, t.sheet.rows, s.orders[other].items);
      }
    }
  }

  lemma OwnReplayable(s: World, t: World, dir: Direction, op: OpId, id: OrderId)
    requires id in s.orders && op == (if dir == Deduct then ReserveOp(id) else ReleaseOp(id))
    requires Committed(s.sheet, t.sheet, s.orders[id].items, dir, op) && t.orders == s.orders
    requires Replayable(s, id)
    ensures Replayable(t, id)
  {
    var items := s.orders[id].items;
    var twin := if dir == Deduct then ReleaseOp(id) else ReserveOp(id);
    WrittenRecords(s.sheet, items, dir, op, t.sheet.ledger);
    OtherOperationsKept(s.sheet, t.sheet, items, dir, op, twin);
    OtherRecordsKept(s.sheet.ledger, Written(s.sheet.rows, items, dir, op), op, twin);
    NotBlockedOnSheet(s.sheet.rows, items, dir);
    SameSkusOnSheet(s.sheet.rows, t.sheet.rows, items);
  }

  lemma MutationKeepsReplayable(s: World, fault: Fault, readable: bool)
    requires Inv(s) && AllReplayable(s) && Mutates(s, Advance(fault, readable)) && Coherent(s.sheet)
    ensures AllReplayable(AdvanceStep(s, fault, readable))
  {
    var t := AdvanceStep(s, fault, readable);
    var job := s.job.value;
    var dir := if job.pc == Deducting then Deduct else Restore;
    var op := if dir == Deduct then ReserveOp(job.order) else ReleaseOp(job.order);
    var (after, result) := UpdateStock(s.sheet, job.items, dir, op, fault);
    UpdateStockCases(s.sheet, job.items, dir, op, fault, after, result);
    if Untouched(s.sheet, after) {
      QuietKeepsReplayable(s, t);
    } else {
      forall id | id in t.orders
        ensures Replayable(t, id)
      {
        assert Replayable(s, id);
        if id == job.order {
          OwnReplayable(s, t, dir, op, id);
        } else {
          OtherReplayable(s, t, job.items, dir, op, id);
        }
      }
    }
  }

  lemma StepKeepsReplayable(s: World, e: Event)
    requires Inv(s) && AllReplayable(s) && (Mutates(s, e) ==> Coherent(s.sheet))
    ensures AllReplayable(Step(s, e))
  {
    if Mutates(s, e) {
      MutationKeepsReplayable(s, e.fault, e.readable);
    } else if e.BeginCreate? && Step(s, e).ids != s.ids {
      InsertKeepsReplayable(s, e.request, e.newId);
    } else {
      OtherStepIsQuiet(s, e);
      QuietKeepsReplayable(s, Step(s, e));
    }
  }

  /** In every reachable state the rows each surviving order recorded read back as its own request. */
  lemma {:induction false} RunKeepsReplayable(s: World, events: seq<Event>)
    requires Init(s) && CoherentRun(s, events)
    ensures AllReplayable(Run(s, events))
  {
    if events != [] {
      var n := |events| - 1;
      RunKeepsReplayable(s, events[..n]);
      RunKeepsInv(s, events[..n]);
      StepKeepsReplayable(Run(s, events[..n]), events[n]);
    }
  }

  // ---------------------------------------------------------------- uninterrupted runs

  const QUICK := Advance(NoFault, true)

  /** A run that nothing disturbs; steps after its end do nothing. */
  function Uninterrupted(begin: Event): seq<Event> {
    [begin, QUICK, QUICK, QUICK, QUICK]
  }

  /** A reachable state, as far as an uninterrupted run needs. */
  predicate Ready(s: World) {
    Inv(s) && AllReplayable(s) && NonNegative(s.sheet.rows) && Coherent(s.sheet)
  }

  lemma QuickKeepsReady(s: World, e: Event)
    requires Ready(s) && (e.Advance? ==> e == QUICK)
    ensures Ready(Step(s, e))
  {
    StepKeepsInv(s, e);
    StepKeepsReplayable(s, e);
    StepKeepsNonNegative(s, e);
    Coherence.CoherenceKept(s, e);
  }

  /** A restore that meets no fault succeeds. */
  lemma RestoreSucceeds(s: World)
    requires Ready(s) && s.job.Some? && s.job.value.pc == Restoring
    ensures RestoreStep(s, NoFault).job == Some(s.job.value.(pc := Finishing))
  {
    var job := s.job.value;
    assert Agrees(s, job.order) && Replayable(s, job.order);
    KnownRestore(s.sheet, job.items, ReleaseOp(job.order));
  }

  lemma KnownRestore(sh: StockSheet, items: seq<Item>, op: OpId)
    requires Coherent(sh) && OnSheet(sh.rows, items) && NonNegative(sh.rows)
    requires ReadsBack(sh.ledger, op, items, Restore)
    ensures UpdateStock(sh, items, Restore, op, NoFault).1.Success?
  {
    if !Recorded(sh.ledger, op) {
      RestoreNotBlocked(sh.rows, items);
    }
  }

  /** Where an undo stands: how many quick steps finish it. */
  predicate FinishesIn(s: World, kind: JobKind, id: OrderId, n: nat) {
    && s.job.Some? && s.job.value.kind == kind && s.job.value.order == id && kind != Creating
    && (kind == Releasing ==> id in s.orders && Releasable(s.orders[id].payment))
    && match s.job.value.pc
       case Finishing => n == 1
       case Restoring => n == 2
       case MarkingRelease => n == 3
       case Checking => n == (if ReservedInLedger(s, id) then 4 else 2)
       case _ => false
  }

  predicate Done(s: World, kind: JobKind, id: OrderId) {
    s.job.None? && (if kind == Deleting then id !in s.orders else id in s.orders && s.orders[id].inventory == Released)
  }

  lemma QuickRestore(s: World, kind: JobKind, id: OrderId)
    requires Ready(s) && FinishesIn(s, kind, id, 2) && s.job.value.pc == Restoring
    ensures FinishesIn(RestoreStep(s, NoFault), kind, id, 1)
  {
    RestoreSucceeds(s);
  }

  lemma QuickCheck(s: World, kind: JobKind, id: OrderId, n: nat)
    requires Ready(s) && FinishesIn(s, kind, id, n) && s.job.value.pc == Checking && ValidItems(s.job.value.items)
    ensures n > 1 && FinishesIn(CheckStep(s, true), kind, id, n - 1) && CheckStep(s, true).job.value.pc != Checking
  {
    assert Replayable(s, id);
  }

  lemma QuickMark(s: World, kind: JobKind, id: OrderId)
    requires JobFits(s) && FinishesIn(s, kind, id, 3) && s.job.value.pc == MarkingRelease
    ensures FinishesIn(MarkReleaseStep(s), kind, id, 2) && MarkReleaseStep(s).job.value.pc == Restoring
  {
  }

  lemma QuickFinish(s: World, kind: JobKind, id: OrderId)
    requires JobFits(s) && FinishesIn(s, kind, id, 1) && s.job.value.pc == Finishing
    ensures Done(FinishStep(s), kind, id)
  {
  }

  /** Each quick step brings an undo one step nearer its end. */
  lemma QuickStepApproaches(s: World, kind: JobKind, id: OrderId, n: nat)
    requires Ready(s) && FinishesIn(s, kind, id, n)
    requires s.job.value.pc == Checking ==> ValidItems(s.job.value.items)
    ensures var t := Step(s, QUICK);
      if n == 1 then Done(t, kind, id) else n > 1 && FinishesIn(t, kind, id, n - 1) && t.job.value.pc != Checking
  {
    match s.job.value.pc {
      case Restoring => QuickRestore(s, kind, id);
      case Checking => QuickCheck(s, kind, id, n);
      case MarkingRelease => QuickMark(s, kind, id);
      case Finishing => QuickFinish(s, kind, id);
      case _ =>
    }
  }

  lemma DoneStays(s: World, kind: JobKind, id: OrderId)
    requires Done(s, kind, id)
    ensures Step(s, QUICK) == s
  {
  }

  function QuickSteps(s: World, n: nat): World
    decreases n
  {
    if n == 0 then s else QuickSteps(Step(s, QUICK), n - 1)
  }

  /** An undo that stands `n` steps from its end is done after `n` or more quick steps. */
  lemma {:induction false} QuickRunFinishes(s: World, kind: JobKind, id: OrderId, n: nat, steps: nat)
    requires Ready(s) && FinishesIn(s, kind, id, n) && n <= steps
    requires s.job.value.pc == Checking ==> ValidItems(s.job.value.items)
    ensures Done(QuickSteps(s, steps), kind, id)
    decreases steps
  {
    hide Step, Ready;
    var t := Step(s, QUICK);
    QuickStepApproaches(s, kind, id, n);
    if n == 1 {
      DoneIsStable(t, kind, id, steps - 1);
    } else {
      QuickKeepsReady(s, QUICK);
      QuickRunFinishes(t, kind, id, n - 1, steps - 1);
    }
  }

  lemma {:induction false} DoneIsStable(s: World, kind: JobKind, id: OrderId, steps: nat)
    requires Done(s, kind, id)
    ensures QuickSteps(s, steps) == s
    decreases steps
  {
    if steps > 0 {
      DoneStays(s, kind, id);
      DoneIsStable(s, kind, id, steps - 1);
    }
  }

  lemma RunUninterrupted(s: World, begin: Event)
    ensures Run(s, Uninterrupted(begin)) == QuickSteps(Step(s, begin), 4)
  {
    var es := Uninterrupted(begin);
    assert es[..4][..3] == es[..3] && es[..3][..2] == es[..2] && es[..2][..1] == es[..1] && es[..1][..0] == [];
    var s1 := Step(s, begin);
    assert Run(s, es[..1]) == s1;
    assert Run(s, es[..2]) == Step(s1, QUICK);
    assert Run(s, es[..3]) == Step(Step(s1, QUICK), QUICK);
    assert Run(s, es[..4]) == Step(Step(Step(s1, QUICK), QUICK), QUICK);
    var s5 := Step(Step(Step(Step(s1, QUICK), QUICK), QUICK), QUICK);
    assert Run(s, es) == s5;
    assert QuickSteps(s5, 0) == s5;
    assert QuickSteps(s1, 4) == QuickSteps(Step(s1, QUICK), 3);
    assert QuickSteps(Step(s1, QUICK), 3) == QuickSteps(Step(Step(s1, QUICK), QUICK), 2);
    assert QuickSteps(Step(Step(s1, QUICK), QUICK), 2) == QuickSteps(Step(Step(Step(s1, QUICK), QUICK), QUICK), 1);
  }

  /** An order whose pending lines cannot be read as a request: the ledger lookup itself fails. */
  predicate Stuck(o: Order) {
    o.inventory == ReservationPending && !ValidItems(o.items)
  }

  /** The first transaction of an undo leaves at most four quick steps to go. */
  lemma BeginUndoStands(s: World, kind: JobKind, id: OrderId) returns (n: nat)
    requires Agrees(s, id) && id in s.orders && !Stuck(s.orders[id])
    requires kind == Deleting
        || (kind == Releasing && Releasable(s.orders[id].payment) && Undoable(s.orders[id].inventory))
    ensures var t := BeginUndo(s, kind, id);
      n <= 4 && FinishesIn(t, kind, id, n) && (t.job.value.pc == Checking ==> ValidItems(t.job.value.items))
  {
    match s.orders[id].inventory
    case Reserved => n := 2;
    case ReleasePending => n := 2;
    case ReservationPending => n := if ReservedInLedger(s, id) then 4 else 2;
    case _ => n := 1;
  }

  lemma UninterruptedDeleteCompletes(s: World, id: OrderId)
    requires Ready(s) && s.job.None? && id in s.orders && !Stuck(s.orders[id])
    ensures Done(Run(s, Uninterrupted(BeginDelete(id))), Deleting, id)
  {
    assert Agrees(s, id);
    var marked := s.(deleting := s.deleting + {id});
    assert Agrees(marked, id);
    var n := BeginUndoStands(marked, Deleting, id);
    QuickKeepsReady(s, BeginDelete(id));
    QuickRunFinishes(Step(s, BeginDelete(id)), Deleting, id, n, 4);
    RunUninterrupted(s, BeginDelete(id));
  }

  lemma ReleaseBegins(s: World, id: OrderId) returns (n: nat)
    requires Agrees(s, id) && s.job.None? && id in s.orders && !Stuck(s.orders[id])
    requires Releasable(s.orders[id].payment) && Undoable(s.orders[id].inventory)
    ensures var t := Step(s, BeginRelease(id));
      n <= 4 && FinishesIn(t, Releasing, id, n) && (t.job.value.pc == Checking ==> ValidItems(t.job.value.items))
  {
    n := BeginUndoStands(s, Releasing, id);
  }

  lemma UninterruptedReleaseCompletes(s: World, id: OrderId)
    requires Ready(s) && s.job.None? && id in s.orders && !Stuck(s.orders[id])
    requires Releasable(s.orders[id].payment) && Undoable(s.orders[id].inventory)
    ensures Done(Run(s, Uninterrupted(BeginRelease(id))), Releasing, id)
  {
    hide Step;
    assert Agrees(s, id);
    var n := ReleaseBegins(s, id);
    QuickKeepsReady(s, BeginRelease(id));
    QuickRunFinishes(Step(s, BeginRelease(id)), Releasing, id, n, 4);
    RunUninterrupted(s, BeginRelease(id));
  }

  // ---------------------------------------------------------------- stuck orders

  /** The only places a run on a stuck order ever stands. */
  predicate StuckPc(pc: Pc) {
    pc == Deducting || pc == VerifyingDeduct || pc == Checking
  }

  predicate StuckAt(s: World, id: OrderId) {
    && id in s.orders && Stuck(s.orders[id])
    && (s.job.Some? && s.job.value.order == id ==> StuckPc(s.job.value.pc) && s.job.value.items == s.orders[id].items)
  }

  predicate KeepsOther(s: World, t: World, id: OrderId) {
    id in s.orders ==> id in t.orders && t.orders[id] == s.orders[id] && (t.job.Some? ==> t.job.value.order != id)
  }

  lemma FinishKeepsOther(s: World, id: OrderId)
    requires s.job.Some? && s.job.value.order != id
    ensures KeepsOther(s, FinishStep(s), id)
  {
    hide Debit, KeepProof;
  }

  lemma TransactionsKeepOther(s: World, id: OrderId)
    requires s.job.Some? && s.job.value.order != id
    ensures KeepsOther(s, MarkFailedStep(s), id) && KeepsOther(s, ReserveStep(s), id)
    ensures KeepsOther(s, MarkReleaseStep(s), id)
  {
  }

  lemma SheetsCallsKeepOther(s: World, fault: Fault, readable: bool, id: OrderId)
    requires s.job.Some? && s.job.value.order != id
    ensures KeepsOther(s, DeductStep(s, fault), id) && KeepsOther(s, RestoreStep(s, fault), id)
    ensures KeepsOther(s, VerifyDeductStep(s, readable), id) && KeepsOther(s, VerifyRestoreStep(s, readable), id)
    ensures KeepsOther(s, CheckStep(s, readable), id)
  {
    hide UpdateStock, OperationApplied;
  }

  /** A lock holder changes no order but its own. */
  lemma OtherOrderKept(s: World, fault: Fault, readable: bool, id: OrderId)
    requires s.job.Some? && s.job.value.order != id
    ensures KeepsOther(s, AdvanceStep(s, fault, readable), id)
  {
    hide KeepsOther, DeductStep, RestoreStep, VerifyDeductStep, VerifyRestoreStep, CheckStep,
      MarkFailedStep, ReserveStep, MarkReleaseStep, FinishStep;
    FinishKeepsOther(s, id);
    TransactionsKeepOther(s, id);
    SheetsCallsKeepOther(s, fault, readable, id);
  }

  lemma StuckThroughAdvance(s: World, fault: Fault, readable: bool, id: OrderId)
    requires StuckAt(s, id)
    ensures StuckAt(AdvanceStep(s, fault, readable), id)
  {
    if s.job.Some? {
      if s.job.value.order != id {
        OtherOrderKept(s, fault, readable, id);
      } else {
        match s.job.value.pc
        case Deducting => assert StuckAt(DeductStep(s, fault), id);
        case VerifyingDeduct => assert StuckAt(VerifyDeductStep(s, readable), id);
        case Checking => assert StuckAt(CheckStep(s, readable), id);
      }
    }
  }

  lemma StuckThroughUndo(s: World, kind: JobKind, id: OrderId, other: OrderId)
    requires StuckAt(s, id) && s.job.None? && other in s.orders
    ensures StuckAt(BeginUndo(s, kind, other), id)
  {
  }

  lemma StuckThroughCreate(s: World, r: Request, existing: Option<OrderId>, newId: OrderId, id: OrderId)
    requires StuckAt(s, id) && id in s.ids
    ensures StuckAt(CreateStep(s, r, existing, newId), id)
  {
  }

  /** A stuck order stays pending whatever happens next: no create, delete, release, payment update,
      cancellation or restart moves it on. */
  lemma StuckStays(s: World, e: Event, id: OrderId)
    requires StuckAt(s, id) && id in s.ids
    ensures StuckAt(Step(s, e), id)
  {
    match e {
      case Advance(fault, readable) => StuckThroughAdvance(s, fault, readable, id);
      case Pay(other, status, proof) => if other in s.orders { ApplyPaySameSaga(s, other, status, proof); }
      case BeginCreate(r, existing, newId) => StuckThroughCreate(s, r, existing, newId, id);
      case BeginDelete(other) =>
        if s.job.None? && other in s.orders {
          StuckThroughUndo(s.(deleting := s.deleting + {other}), Deleting, id, other);
        }
      case BeginRelease(other) =>
        if s.job.None? && other in s.orders { StuckThroughUndo(s, Releasing, id, other); }
      case _ =>
    }
  }

  lemma {:induction false} StuckForever(s: World, events: seq<Event>, id: OrderId)
    requires IdsKnown(s) && StuckAt(s, id)
    ensures StuckAt(Run(s, events), id) && id in Run(s, events).ids
  {
    if events != [] {
      var n := |events| - 1;
      StuckForever(s, events[..n], id);
      StuckStays(Run(s, events[..n]), events[n], id);
      IdsGrow(Run(s, events[..n]), events[n], id);
    }
  }

  /** A create leaves its new order stuck exactly when its lines cannot be read as a request. */
  lemma InsertedStuckExactly(s: World, r: Request, id: OrderId)
    requires id !in s.orders && id in Step(s, BeginCreate(r, None, id)).orders
    ensures StuckAt(Step(s, BeginCreate(r, None, id)), id) <==> !ValidItems(r.items)
  {
    hide SearchAnswers, ActiveUnpaidCount, Acceptable, ValidItems;
  }

  /** One line for a catalog row that has a name and no SKU. */
  const UNNUMBERED := Coherence.ASK.(items := [Item("", 1, Some(100), "")])

  /** Such orders are reached: from the opening of the shop, this one stays whatever happens to it. */
  lemma StuckReached(events: seq<Event>)
    ensures Init(Coherence.Shop())
    ensures var s := Step(Coherence.Shop(), BeginCreate(UNNUMBERED, None, "o"));
      StuckAt(s, "o") && StuckAt(Run(s, events), "o")
  {
    Unnumbered();
    var shop := Coherence.Shop();
    Coherence.ActiveUnpaidBound(shop, "c");
    hide ValidItems;
    var s := Step(shop, BeginCreate(UNNUMBERED, None, "o"));
    assert s == Insert(shop, UNNUMBERED, "o");
    hide Step;
    StuckForever(s, events, "o");
  }

  lemma Unnumbered()
    ensures !ValidItems([Item("", 1, Some(100), "")])
  {
    var items := [Item("", 1, Some(100), "")];
    assert items[0].sku == "";
  }

  lemma IdsGrow(s: World, e: Event, id: OrderId)
    requires id in s.ids
    ensures id in Step(s, e).ids
  {
    hide AdvanceStep, Debit, Credit, Replayed, Repeats;
    if e.Advance? {
      AdvanceKeepsIds(s, e.fault, e.readable);
    }
  }

  lemma AdvanceKeepsIds(s: World, fault: Fault, readable: bool)
    ensures AdvanceStep(s, fault, readable).ids == s.ids
  {
    if s.job.Some? && CallsSheets(s.job.value.pc) {
      hide AdvanceStep;
      SheetsCallOnly(s, fault, readable);
    } else {
      hide Debit, KeepProof, DeductStep, RestoreStep, VerifyDeductStep, VerifyRestoreStep, CheckStep;
    }
  }

  /** For a reachable order, with the lock free and the copy coherent, an uninterrupted delete
      removes the row exactly when the order is not a pending one with an unusable line. */
  lemma DeleteCompletesExactly(s: World, id: OrderId)
    requires Ready(s) && s.job.None? && id in s.orders
    ensures id !in Run(s, Uninterrupted(BeginDelete(id))).orders <==> !Stuck(s.orders[id])
  {
    if Stuck(s.orders[id]) {
      StuckForever(s, Uninterrupted(BeginDelete(id)), id);
    } else {
      UninterruptedDeleteCompletes(s, id);
    }
  }

  lemma AttemptEventsOf(kind: JobKind, begin: Event, id: OrderId)
    requires (kind == Deleting && begin == BeginDelete(id)) || (kind == Releasing && begin == BeginRelease(id))
    ensures forall i :: 0 <= i < 5 ==>
        AttemptEvent(Uninterrupted(begin)[i], kind, id) && UndoEvent(Uninterrupted(begin)[i], id)
  {
  }

  lemma {:induction false} QuickRunCoherent(s: World, events: seq<Event>)
    requires Coherent(s.sheet) && forall i :: 0 <= i < |events| && events[i].Advance? ==> events[i] == QUICK
    ensures CoherentRun(s, events) && Coherent(Run(s, events).sheet)
  {
    if events != [] {
      var n := |events| - 1;
      QuickRunCoherent(s, events[..n]);
      Coherence.CoherenceKept(Run(s, events[..n]), events[n]);
    }
  }

  /** Crashed, cancelled and failed deletes and releases of an order, completed releases too, followed
      by a delete that completes leave exactly what one uninterrupted delete leaves. */
  lemma DeletesConvergeToOne(s: World, events: seq<Event>, id: OrderId)
    requires Ready(s) && s.job.None? && id in s.orders && CoherentRun(s, events)
    requires forall i :: 0 <= i < |events| ==> UndoEvent(events[i], id)
    requires id !in Run(s, events).orders
    ensures Durable(Run(s, events)) == Durable(Run(s, Uninterrupted(BeginDelete(id))))
  {
    hide Run, DeleteGoal, Durable;
    if Stuck(s.orders[id]) {
      StuckForever(s, events, id);
    }
    UninterruptedDeleteCompletes(s, id);
    AttemptEventsOf(Deleting, BeginDelete(id), id);
    QuickRunCoherent(s, Uninterrupted(BeginDelete(id)));
    DeletesConverge(s, events, id);
    DeletesConverge(s, Uninterrupted(BeginDelete(id)), id);
  }

  /** The same for releases among themselves. */
  lemma ReleasesConvergeToOne(s: World, events: seq<Event>, id: OrderId)
    requires Ready(s) && s.job.None? && id in s.orders && CoherentRun(s, events)
    requires Releasable(s.orders[id].payment) && Undoable(s.orders[id].inventory)
    requires forall i :: 0 <= i < |events| ==> AttemptEvent(events[i], Releasing, id)
    requires id in Run(s, events).orders && Run(s, events).orders[id].inventory == Released
    ensures Durable(Run(s, events)) == Durable(Run(s, Uninterrupted(BeginRelease(id))))
  {
    hide Run, ReleaseGoal, Durable;
    if Stuck(s.orders[id]) {
      StuckForever(s, events, id);
    }
    UninterruptedReleaseCompletes(s, id);
    AttemptEventsOf(Releasing, BeginRelease(id), id);
    QuickRunCoherent(s, Uninterrupted(BeginRelease(id)));
    ReleasesConverge(s, events, id);
    ReleasesConverge(s, Uninterrupted(BeginRelease(id)), id);
  }
}
