/** Stock over whole runs: what the sheet shows is what it began with, less what live orders hold. */
module Conservation {
  import opened Common
  import opened Sheets
  import opened Orders
  import opened Reservation

  /** An order holds stock while its reserve operation is in the ledger and its release is not. */
  predicate Holds(s: World, id: OrderId) {
    ReservedInLedger(s, id) && !ReleasedInLedger(s, id)
  }

  /** The quantity of a SKU one order holds; an order without a row holds nothing. */
  function Holding(s: World, sku: Sku, id: OrderId): int {
    if id in s.orders && Holds(s, id) then Total(s.orders[id].items, sku) else 0
  }

  function Held(s: World, sku: Sku): int {
    Sum(s.ids, id => Holding(s, sku, id))
  }

  /** Each sheet row shows its initial stock less what orders hold of its SKU. */
  predicate Conserved(s: World, initial: seq<Product>) {
    && |s.sheet.rows| == |initial|
    && forall i :: 0 <= i < |initial| ==>
         s.sheet.rows[i] == initial[i].(stock := initial[i].stock - Held(s, initial[i].sku))
  }

  lemma SameHoldings(s: World, t: World, sku: Sku)
    requires t.ids == s.ids
    requires forall id :: id in s.ids ==> Holding(t, sku, id) == Holding(s, sku, id)
    ensures Held(t, sku) == Held(s, sku)
  {
    SumCongruent(s.ids, id => Holding(s, sku, id), id => Holding(t, sku, id));
  }

  /** `t` moves no stock and keeps ledger and items of every surviving order; an order that lost its
      row held nothing. */
  predicate Quiet(s: World, t: World) {
    && t.sheet.rows == s.sheet.rows && t.sheet.ledger == s.sheet.ledger && t.ids == s.ids
    && t.orders.Keys <= s.orders.Keys
    && (forall id :: id in t.orders ==> t.orders[id].items == s.orders[id].items)
    && (forall id :: id in s.orders && id !in t.orders ==> !Holds(s, id))
  }

  lemma QuietKeepsConserved(s: World, t: World, initial: seq<Product>)
    requires Conserved(s, initial) && Quiet(s, t)
    ensures Conserved(t, initial)
  {
    forall i | 0 <= i < |initial|
      ensures Held(t, initial[i].sku) == Held(s, initial[i].sku)
    {
      SameHoldings(s, t, initial[i].sku);
    }
  }

  lemma InsertKeepsConserved(s: World, r: Request, newId: OrderId, initial: seq<Product>)
    requires Inv(s) && Conserved(s, initial) && newId !in s.ids
    ensures Conserved(Insert(s, r, newId), initial)
  {
    var t := Insert(s, r, newId);
    NewIdUnrecorded(s, newId);
    forall i | 0 <= i < |initial|
      ensures Held(t, initial[i].sku) == Held(s, initial[i].sku)
    {
      var sku := initial[i].sku;
      assert t.ids[..|s.ids|] == s.ids;
      assert Holding(t, sku, newId) == 0;
      SumCongruent(s.ids, id => Holding(s, sku, id), id => Holding(t, sku, id));
    }
  }

  lemma OtherHoldingsKept(s: World, t: World, dir: Direction, op: OpId, id: OrderId, sku: Sku, other: OrderId)
    requires id in s.orders && op == (if dir == Deduct then ReserveOp(id) else ReleaseOp(id))
    requires Committed(s.sheet, t.sheet, s.orders[id].items, dir, op)
    requires t.orders == s.orders && other != id
    ensures Holding(t, sku, other) == Holding(s, sku, other)
  {
    var w := Written(s.sheet.rows, s.orders[id].items, dir, op);
    OtherRecordsKept(s.sheet.ledger, w, op, ReserveOp(other));
    OtherRecordsKept(s.sheet.ledger, w, op, ReleaseOp(other));
  }

  lemma OwnHoldingMoves(s: World, t: World, dir: Direction, op: OpId, id: OrderId, sku: Sku)
    requires id in s.orders && op == (if dir == Deduct then ReserveOp(id) else ReleaseOp(id))
    requires Committed(s.sheet, t.sheet, s.orders[id].items, dir, op)
    requires t.orders == s.orders
    requires dir == Deduct ==> !ReleasedInLedger(s, id)
    requires dir == Restore ==> ReservedInLedger(s, id)
    ensures Holding(t, sku, id) == Holding(s, sku, id) - Sign(dir) * Total(s.orders[id].items, sku)
  {
    var w := Written(s.sheet.rows, s.orders[id].items, dir, op);
    CommittedRecords(s.sheet, t.sheet, s.orders[id].items, dir, op);
    OtherRecordsKept(s.sheet.ledger, w, op, if dir == Deduct then ReleaseOp(id) else ReserveOp(id));
  }

  /** A commit of one order's operation moves its holding by what the rows moved. */
  lemma CommitMovesHeld(s: World, t: World, dir: Direction, op: OpId, id: OrderId, sku: Sku)
    requires IdsKnown(s) && id in s.orders && op == (if dir == Deduct then ReserveOp(id) else ReleaseOp(id))
    requires Committed(s.sheet, t.sheet, s.orders[id].items, dir, op)
    requires t.ids == s.ids && t.orders == s.orders
    requires dir == Deduct ==> !ReleasedInLedger(s, id)
    requires dir == Restore ==> ReservedInLedger(s, id)
    ensures Held(t, sku) == Held(s, sku) - Sign(dir) * Total(s.orders[id].items, sku)
  {
    forall other | other in s.ids && other != id
      ensures Holding(t, sku, other) == Holding(s, sku, other)
    {
      OtherHoldingsKept(s, t, dir, op, id, sku, other);
    }
    OwnHoldingMoves(s, t, dir, op, id, sku);
    SumChange(s.ids, x => Holding(s, sku, x), x => Holding(t, sku, x), id);
  }

  lemma CommitKeepsConserved(s: World, t: World, dir: Direction, op: OpId, initial: seq<Product>)
    requires Inv(s) && s.job.Some? && Conserved(s, initial)
    requires op == (if dir == Deduct then ReserveOp(s.job.value.order) else ReleaseOp(s.job.value.order))
    requires Committed(s.sheet, t.sheet, s.job.value.items, dir, op)
    requires t.ids == s.ids && t.orders == s.orders
    requires dir == Deduct ==> !ReleasedInLedger(s, s.job.value.order)
    requires dir == Restore ==> ReservedInLedger(s, s.job.value.order)
    ensures Conserved(t, initial)
  {
    forall i | 0 <= i < |initial|
      ensures t.sheet.rows[i] == initial[i].(stock := initial[i].stock - Held(t, initial[i].sku))
    {
      CommitMovesHeld(s, t, dir, op, s.job.value.order, initial[i].sku);
    }
  }

  lemma MutationKeepsConserved(s: World, fault: Fault, readable: bool, initial: seq<Product>)
    requires Inv(s) && Conserved(s, initial) && Mutates(s, Advance(fault, readable)) && Coherent(s.sheet)
    ensures Conserved(AdvanceStep(s, fault, readable), initial)
  {
    var t := AdvanceStep(s, fault, readable);
    var job := s.job.value;
    var dir := if job.pc == Deducting then Deduct else Restore;
    var op := if dir == Deduct then ReserveOp(job.order) else ReleaseOp(job.order);
    var (after, result) := UpdateStock(s.sheet, job.items, dir, op, fault);
    UpdateStockCases(s.sheet, job.items, dir, op, fault, after, result);
    assert Agrees(s, job.order);
    if Untouched(s.sheet, after) {
      QuietKeepsConserved(s, t, initial);
    } else {
      CommitKeepsConserved(s, t, dir, op, initial);
    }
  }

  lemma FinishIsQuiet(s: World)
    requires JobFits(s) && s.job.Some? && s.job.value.pc == Finishing
    ensures Quiet(s, FinishStep(s))
  {
  }

  lemma VerifyDeductIsQuiet(s: World, readable: bool)
    requires s.job.Some?
    ensures Quiet(s, VerifyDeductStep(s, readable))
  {
    ReloadIsCoherent(s.sheet, ReserveOp(s.job.value.order), s.job.value.items, Deduct, readable);
  }

  lemma CheckIsQuiet(s: World, readable: bool)
    requires s.job.Some?
    ensures Quiet(s, CheckStep(s, readable))
  {
    ReloadIsCoherent(s.sheet, ReserveOp(s.job.value.order), s.job.value.items, Deduct, readable);
  }

  lemma VerifyRestoreIsQuiet(s: World, readable: bool)
    requires s.job.Some?
    ensures Quiet(s, VerifyRestoreStep(s, readable))
  {
    ReloadIsCoherent(s.sheet, ReleaseOp(s.job.value.order), s.job.value.items, Restore, readable);
  }

  lemma TransactionsAreQuiet(s: World)
    requires s.job.Some?
    ensures Quiet(s, MarkFailedStep(s)) && Quiet(s, ReserveStep(s)) && Quiet(s, MarkReleaseStep(s))
  {
  }

  lemma AdvanceIsQuiet(s: World, fault: Fault, readable: bool)
    requires JobFits(s) && !Mutates(s, Advance(fault, readable))
    ensures Quiet(s, AdvanceStep(s, fault, readable))
  {
    hide VerifyDeductStep, CheckStep, VerifyRestoreStep, FinishStep, MarkFailedStep, ReserveStep, MarkReleaseStep;
    if s.job.Some? {
      match s.job.value.pc {
        case VerifyingDeduct => VerifyDeductIsQuiet(s, readable);
        case Checking => CheckIsQuiet(s, readable);
        case VerifyingRestore => VerifyRestoreIsQuiet(s, readable);
        case Finishing => FinishIsQuiet(s);
        case _ => TransactionsAreQuiet(s);
      }
    }
  }

  lemma UndoIsQuiet(s: World, kind: JobKind, id: OrderId)
    requires id in s.orders
    ensures Quiet(s, BeginUndo(s, kind, id))
  {
  }

  lemma CreateIsQuiet(s: World, r: Request, existing: Option<OrderId>, newId: OrderId)
    requires CreateStep(s, r, existing, newId).ids == s.ids
    ensures Quiet(s, CreateStep(s, r, existing, newId))
  {
    assert |s.ids + [newId]| != |s.ids|;
  }

  /** A step that is neither a stock mutation nor the insertion of an order moves nothing. */
  lemma OtherStepIsQuiet(s: World, e: Event)
    requires JobFits(s) && !Mutates(s, e)
    requires e.BeginCreate? ==> Step(s, e).ids == s.ids
    ensures Quiet(s, Step(s, e))
  {
    match e {
      case Advance(fault, readable) => AdvanceIsQuiet(s, fault, readable);
      case Pay(id, status, proof) => if id in s.orders { ApplyPaySameSaga(s, id, status, proof); }
      case BeginCreate(request, existing, newId) => CreateIsQuiet(s, request, existing, newId);
      case BeginDelete(id) => if id in s.orders { UndoIsQuiet(s.(deleting := s.deleting + {id}), Deleting, id); }
      case BeginRelease(id) => if id in s.orders { UndoIsQuiet(s, Releasing, id); }
      case _ =>
    }
  }

  lemma StepKeepsConserved(s: World, e: Event, initial: seq<Product>)
    requires Inv(s) && Conserved(s, initial) && (Mutates(s, e) ==> Coherent(s.sheet))
    ensures Conserved(Step(s, e), initial)
  {
    if Mutates(s, e) {
      MutationKeepsConserved(s, e.fault, e.readable, initial);
    } else if e.BeginCreate? && Step(s, e).ids != s.ids {
      InsertKeepsConserved(s, e.request, e.newId, initial);
    } else {
      OtherStepIsQuiet(s, e);
      QuietKeepsConserved(s, Step(s, e), initial);
    }
  }

  lemma StepKeepsNonNegative(s: World, e: Event)
    requires Inv(s) && NonNegative(s.sheet.rows) && (Mutates(s, e) ==> Coherent(s.sheet))
    ensures NonNegative(Step(s, e).sheet.rows)
  {
    if Mutates(s, e) {
      var job := s.job.value;
      var dir := if job.pc == Deducting then Deduct else Restore;
      var op := if dir == Deduct then ReserveOp(job.order) else ReleaseOp(job.order);
      var (after, result) := UpdateStock(s.sheet, job.items, dir, op, e.fault);
      UpdateStockCases(s.sheet, job.items, dir, op, e.fault, after, result);
      if Committed(s.sheet, after, job.items, dir, op) {
        StockStaysNonNegative(s.sheet, after, job.items, dir, op);
      }
    } else if !(e.BeginCreate? && Step(s, e).ids != s.ids) {
      OtherStepIsQuiet(s, e);
    }
  }

  /** Stock conservation over whole runs: in every reachable state each sheet row shows its initial
      stock less the quantities of the orders whose reserve operation is recorded and whose release
      operation is not, and no stock is ever negative. */
  lemma {:induction false} RunConservesStock(s: World, events: seq<Event>)
    requires Init(s) && CoherentRun(s, events) && NonNegative(s.sheet.rows)
    ensures Conserved(Run(s, events), s.sheet.rows) && NonNegative(Run(s, events).sheet.rows)
  {
    if events == [] {
      forall i | 0 <= i < |s.sheet.rows|
        ensures Held(s, s.sheet.rows[i].sku) == 0
      {
        SumZero(s.ids, id => Holding(s, s.sheet.rows[i].sku, id));
      }
    } else {
      var n := |events| - 1;
      RunConservesStock(s, events[..n]);
      RunKeepsInv(s, events[..n]);
      StepKeepsConserved(Run(s, events[..n]), events[n], s.sheet.rows);
      StepKeepsNonNegative(Run(s, events[..n]), events[n]);
    }
  }

  /** The quantity of a SKU on orders that show as reserved. */
  function OnReserved(s: World, sku: Sku, id: OrderId): int {
    if id in s.orders && s.orders[id].inventory == Reserved then Total(s.orders[id].items, sku) else 0
  }

  /** Once no order is between two states, what is held is exactly what reserved orders ask for. */
  lemma SettledHoldings(s: World, sku: Sku)
    requires Inv(s)
    requires forall id :: id in s.orders ==>
      s.orders[id].inventory != ReservationPending && s.orders[id].inventory != ReleasePending
    ensures Held(s, sku) == Sum(s.ids, id => OnReserved(s, sku, id))
  {
    forall id | id in s.ids
      ensures Holding(s, sku, id) == OnReserved(s, sku, id)
    {
      assert Agrees(s, id);
    }
    SumCongruent(s.ids, id => Holding(s, sku, id), id => OnReserved(s, sku, id));
  }

  /** Whenever no order is between two states, the sheet plus the reserved orders give back the
      initial stock. */
  lemma SettledStock(s: World, events: seq<Event>, i: nat)
    requires Init(s) && CoherentRun(s, events) && NonNegative(s.sheet.rows) && i < |s.sheet.rows|
    requires forall id :: id in Run(s, events).orders ==>
      Run(s, events).orders[id].inventory != ReservationPending && Run(s, events).orders[id].inventory != ReleasePending
    ensures var t := Run(s, events);
      && |t.sheet.rows| == |s.sheet.rows|
      && t.sheet.rows[i].stock + Sum(t.ids, id => OnReserved(t, s.sheet.rows[i].sku, id)) == s.sheet.rows[i].stock
  {
    RunConservesStock(s, events);
    RunKeepsInv(s, events);
    SettledHoldings(Run(s, events), s.sheet.rows[i].sku);
  }
}
