/** What every run of the inventory saga keeps: order status and ledger agree, and stock is conserved. */
module Reservation {
  import opened Common
  import opened Sheets
  import opened Orders

  // ---------------------------------------------------------------- status and ledger

  predicate ReservedInLedger(s: World, id: OrderId) {
    Recorded(s.sheet.ledger, ReserveOp(id))
  }

  predicate ReleasedInLedger(s: World, id: OrderId) {
    Recorded(s.sheet.ledger, ReleaseOp(id))
  }

  /** What each inventory status says about the two operations of an order; `None` is an order
      without a row, deleted or never created. */
  predicate StatusFits(status: Option<Inventory>, reserved: bool, released: bool) {
    match status
    case None => reserved <==> released
    case Some(LegacyUnknown) => !reserved && !released
    case Some(ReservationPending) => !released
    case Some(Reserved) => reserved && !released
    case Some(ReservationFailed) => !reserved && !released
    case Some(ReleasePending) => reserved
    case Some(Released) => reserved <==> released
  }

  function StatusOf(s: World, id: OrderId): Option<Inventory> {
    if id in s.orders then Some(s.orders[id].inventory) else None
  }

  predicate Agrees(s: World, id: OrderId) {
    StatusFits(StatusOf(s, id), ReservedInLedger(s, id), ReleasedInLedger(s, id))
  }

  predicate AllAgree(s: World) {
    forall id :: id in s.ids ==> Agrees(s, id)
  }

  predicate IdsKnown(s: World) {
    && Distinct(s.ids)
    && (forall id :: id in s.orders ==> id in s.ids)
    && (forall i :: 0 <= i < |s.sheet.ledger| ==> s.sheet.ledger[i].op.order in s.ids)
  }

  /** Orders the program created carry at least one item. */
  predicate HasItems(s: World) {
    forall id :: id in s.orders && s.orders[id].inventory != LegacyUnknown ==> s.orders[id].items != []
  }

  /** Where the lock holder may stand, given its order's status and ledger entries. */
  predicate PcFits(kind: JobKind, pc: Pc, status: Inventory, reserved: bool, released: bool) {
    match pc
    case Deducting => kind == Creating && status == ReservationPending
    case VerifyingDeduct => kind == Creating && status == ReservationPending
    case MarkingFailed => kind == Creating && status == ReservationPending && !reserved
    case Reserving => kind == Creating && status == ReservationPending && reserved
    case Checking => kind != Creating && status == ReservationPending
    case MarkingRelease => kind != Creating && status == ReservationPending && reserved
    case Restoring => kind != Creating && status == ReleasePending
    case VerifyingRestore => kind != Creating && status == ReleasePending
    case Finishing =>
      && kind != Creating
      && (reserved <==> released)
      && (kind == Releasing ==> status == ReservationPending || status == ReleasePending)
  }

  predicate JobFits(s: World) {
    s.job.Some? ==>
      var job := s.job.value;
      && job.order in s.orders
      && job.items == s.orders[job.order].items
      && PcFits(job.kind, job.pc, s.orders[job.order].inventory, ReservedInLedger(s, job.order),
           ReleasedInLedger(s, job.order))
  }

  predicate Inv(s: World) {
    IdsKnown(s) && HasItems(s) && AllAgree(s) && JobFits(s)
  }

  /** A store before its first run: any customers, and only orders that predate reservations. */
  predicate Init(s: World) {
    && IdsKnown(s) && s.job.None? && s.sheet.ledger == [] && Coherent(s.sheet)
    && (forall id :: id in s.orders ==> s.orders[id].inventory == LegacyUnknown)
  }

  lemma InitInv(s: World)
    requires Init(s)
    ensures Inv(s)
  {
  }

  /** `t` shows the same orders, ids and ledger as `s`, as far as the saga is concerned. */
  predicate SameSaga(s: World, t: World) {
    && t.ids == s.ids
    && t.orders.Keys == s.orders.Keys
    && (forall id :: id in s.orders ==>
         t.orders[id].inventory == s.orders[id].inventory && t.orders[id].items == s.orders[id].items)
    && t.sheet.ledger == s.sheet.ledger
  }

  lemma SameSagaKeeps(s: World, t: World)
    requires Inv(s) && SameSaga(s, t)
    requires t.job == s.job || t.job.None?
    ensures Inv(t)
  {
    forall id | id in t.ids
      ensures Agrees(t, id)
    {
      assert Agrees(s, id);
    }
  }

  lemma SameSagaJob(s: World, t: World)
    requires Inv(s) && SameSaga(s, t) && s.job.Some? && t.job.Some?
    requires t.job.value.order == s.job.value.order && t.job.value.items == s.job.value.items
    requires PcFits(t.job.value.kind, t.job.value.pc, s.orders[s.job.value.order].inventory,
                    ReservedInLedger(s, s.job.value.order), ReleasedInLedger(s, s.job.value.order))
    ensures Inv(t)
  {
    SameSagaKeeps(s, t.(job := None));
  }

  /** One order changes status, fittingly. */
  lemma StatusChangeKeeps(s: World, t: World, id: OrderId)
    requires Inv(s) && id in s.orders && id in t.orders
    requires t.ids == s.ids && t.sheet.ledger == s.sheet.ledger
    requires t.orders == s.orders[id := t.orders[id]] && t.orders[id].items == s.orders[id].items
    requires s.orders[id].inventory != LegacyUnknown
    requires Agrees(t, id) && JobFits(t)
    ensures Inv(t)
  {
    forall other | other in t.ids
      ensures Agrees(t, other)
    {
      assert Agrees(s, other);
    }
  }

  /** The steps that call Sheets; the others are database transactions. */
  predicate CallsSheets(pc: Pc) {
    pc == Deducting || pc == VerifyingDeduct || pc == Checking || pc == Restoring || pc == VerifyingRestore
  }

  /** A Sheets call changes no row of the database. */
  lemma SheetsCallOnly(s: World, fault: Fault, readable: bool)
    requires s.job.Some? && CallsSheets(s.job.value.pc)
    ensures var t := AdvanceStep(s, fault, readable);
      && t == s.(sheet := t.sheet, job := t.job)
      && (t.job.Some? ==> t.job.value == s.job.value.(pc := t.job.value.pc))
  {
    hide UpdateStock, OperationApplied;
  }

  // ---------------------------------------------------------------- every step keeps the invariant

  lemma ApplyPaySameSaga(s: World, id: OrderId, status: Payment, proof: Option<Proof>)
    requires id in s.orders
    ensures SameSaga(s, ApplyPay(s, id, status, proof)) && ApplyPay(s, id, status, proof).job == s.job
  {
  }

  lemma PayKeepsInv(s: World, id: OrderId, status: Payment, proof: Option<Proof>)
    requires Inv(s)
    ensures Inv(PayStep(s, id, status, proof))
  {
    if PayAccepted(s, id, status, proof) {
      ApplyPaySameSaga(s, id, status, proof);
      SameSagaKeeps(s, ApplyPay(s, id, status, proof));
    }
  }

  lemma CustomersKeepInv(s: World, id: CustomerId)
    requires Inv(s)
    ensures Inv(AddCustomerStep(s, id)) && Inv(RemoveCustomerStep(s, id))
  {
    SameSagaKeeps(s, AddCustomerStep(s, id));
    SameSagaKeeps(s, RemoveCustomerStep(s, id));
  }

  lemma NewIdUnrecorded(s: World, id: OrderId)
    requires IdsKnown(s) && id !in s.ids
    ensures !ReservedInLedger(s, id) && !ReleasedInLedger(s, id)
  {
  }

  lemma InsertKeepsInv(s: World, r: Request, newId: OrderId)
    requires Inv(s) && s.job.None? && newId !in s.ids && Acceptable(r)
    ensures Inv(Insert(s, r, newId))
  {
    var t := Insert(s, r, newId);
    NewIdUnrecorded(s, newId);
    forall id | id in t.ids
      ensures Agrees(t, id)
    {
      assert id != newId ==> id in s.ids && Agrees(s, id);
    }
  }

  lemma CreateKeepsInv(s: World, r: Request, existing: Option<OrderId>, newId: OrderId)
    requires Inv(s)
    ensures Inv(CreateStep(s, r, existing, newId))
  {
    var t := CreateStep(s, r, existing, newId);
    if t != s {
      if existing.None? {
        InsertKeepsInv(s, r, newId);
      } else {
        SameSagaKeeps(s, t.(job := None));
      }
    }
  }

  lemma UndoKeepsInv(s: World, kind: JobKind, id: OrderId)
    requires Inv(s) && s.job.None? && id in s.orders && kind != Creating
    ensures Inv(BeginUndo(s, kind, id))
  {
    var t := BeginUndo(s, kind, id);
    assert Agrees(s, id);
    if s.orders[id].inventory == Reserved {
      StatusChangeKeeps(s, t, id);
    } else {
      SameSagaKeeps(s, t.(job := None));
    }
  }

  /** The ledger gains the rows of one operation of the lock holder's order. */
  lemma CommitKeepsInv(s: World, t: World, dir: Direction, op: OpId)
    requires Inv(s) && s.job.Some? && t.job.Some?
    requires op == (if dir == Deduct then ReserveOp(s.job.value.order) else ReleaseOp(s.job.value.order))
    requires Committed(s.sheet, t.sheet, s.job.value.items, dir, op)
    requires t.ids == s.ids && t.orders == s.orders
    requires t.job.value.order == s.job.value.order && t.job.value.items == s.job.value.items
    requires Agrees(t, s.job.value.order) && JobFits(t)
    ensures Inv(t)
  {
    var w := Written(s.sheet.rows, s.job.value.items, dir, op);
    forall id | id in t.ids
      ensures Agrees(t, id)
    {
      if id != s.job.value.order {
        OtherRecordsKept(s.sheet.ledger, w, op, ReserveOp(id));
        OtherRecordsKept(s.sheet.ledger, w, op, ReleaseOp(id));
        assert Agrees(s, id);
      }
    }
  }

  lemma OtherRecordsKept(ledger: seq<Movement>, w: seq<Movement>, op: OpId, other: OpId)
    requires forall i :: 0 <= i < |w| ==> w[i].op == op
    requires other != op
    ensures Recorded(ledger + w, other) <==> Recorded(ledger, other)
  {
    if i :| 0 <= i < |ledger| && ledger[i].op == other {
      assert (ledger + w)[i].op == other;
    }
  }

  lemma DeductKeepsInv(s: World, fault: Fault)
    requires Inv(s) && s.job.Some? && s.job.value.pc == Deducting && Coherent(s.sheet)
    ensures Inv(DeductStep(s, fault))
  {
    var t := DeductStep(s, fault);
    var job := s.job.value;
    var (after, result) := UpdateStock(s.sheet, job.items, Deduct, ReserveOp(job.order), fault);
    UpdateStockCases(s.sheet, job.items, Deduct, ReserveOp(job.order), fault, after, result);
    assert Agrees(s, job.order);
    if Untouched(s.sheet, after) {
      SameSagaJob(s, t);
    } else {
      CommittedRecords(s.sheet, after, job.items, Deduct, ReserveOp(job.order));
      OtherRecordsKept(s.sheet.ledger, Written(s.sheet.rows, job.items, Deduct, ReserveOp(job.order)),
                       ReserveOp(job.order), ReleaseOp(job.order));
      CommitKeepsInv(s, t, Deduct, ReserveOp(job.order));
    }
  }

  lemma CommittedRecords(before: Sheet, after: Sheet, items: seq<Item>, dir: Direction, op: OpId)
    requires Committed(before, after, items, dir, op)
    ensures Recorded(after.ledger, op)
    ensures forall i :: 0 <= i < |after.ledger| ==> after.ledger[i].op == op || after.ledger[i] in before.ledger
  {
    AppendRecords(before.ledger, Written(before.rows, items, dir, op), items, op);
  }

  lemma RestoreKeepsInv(s: World, fault: Fault)
    requires Inv(s) && s.job.Some? && s.job.value.pc == Restoring && Coherent(s.sheet)
    ensures Inv(RestoreStep(s, fault))
  {
    var t := RestoreStep(s, fault);
    var job := s.job.value;
    var (after, result) := UpdateStock(s.sheet, job.items, Restore, ReleaseOp(job.order), fault);
    UpdateStockCases(s.sheet, job.items, Restore, ReleaseOp(job.order), fault, after, result);
    assert Agrees(s, job.order);
    if Untouched(s.sheet, after) {
      SameSagaJob(s, t);
    } else {
      CommittedRecords(s.sheet, after, job.items, Restore, ReleaseOp(job.order));
      OtherRecordsKept(s.sheet.ledger, Written(s.sheet.rows, job.items, Restore, ReleaseOp(job.order)),
                       ReleaseOp(job.order), ReserveOp(job.order));
      CommitKeepsInv(s, t, Restore, ReleaseOp(job.order));
    }
  }

  lemma VerifyDeductKeepsInv(s: World, readable: bool)
    requires Inv(s) && s.job.Some? && s.job.value.pc == VerifyingDeduct
    ensures Inv(VerifyDeductStep(s, readable))
  {
    var job := s.job.value;
    assert Agrees(s, job.order);
    ReloadIsCoherent(s.sheet, ReserveOp(job.order), job.items, Deduct, readable);
    AfterVerify(s, VerifyDeductStep(s, readable));
  }

  lemma CheckKeepsInv(s: World, readable: bool)
    requires Inv(s) && s.job.Some? && s.job.value.pc == Checking
    ensures Inv(CheckStep(s, readable))
  {
    var job := s.job.value;
    assert Agrees(s, job.order);
    ReloadIsCoherent(s.sheet, ReserveOp(job.order), job.items, Deduct, readable);
    AfterVerify(s, CheckStep(s, readable));
  }

  lemma VerifyRestoreKeepsInv(s: World, readable: bool)
    requires Inv(s) && s.job.Some? && s.job.value.pc == VerifyingRestore
    ensures Inv(VerifyRestoreStep(s, readable))
  {
    var job := s.job.value;
    assert Agrees(s, job.order);
    ReloadIsCoherent(s.sheet, ReleaseOp(job.order), job.items, Restore, readable);
    AfterVerify(s, VerifyRestoreStep(s, readable));
  }

  lemma AfterVerify(s: World, t: World)
    requires Inv(s) && s.job.Some? && SameSaga(s, t)
    requires t.job.Some? ==>
      && t.job.value.order == s.job.value.order && t.job.value.items == s.job.value.items
      && PcFits(t.job.value.kind, t.job.value.pc, s.orders[s.job.value.order].inventory,
                ReservedInLedger(s, s.job.value.order), ReleasedInLedger(s, s.job.value.order))
    ensures Inv(t)
  {
    if t.job.Some? {
      SameSagaJob(s, t);
    } else {
      SameSagaKeeps(s, t);
    }
  }

  lemma TransactionsKeepInv(s: World)
    requires Inv(s) && s.job.Some?
    ensures s.job.value.pc == MarkingFailed ==> Inv(MarkFailedStep(s))
    ensures s.job.value.pc == Reserving ==> Inv(ReserveStep(s))
    ensures s.job.value.pc == MarkingRelease ==> Inv(MarkReleaseStep(s))
  {
    var id := s.job.value.order;
    assert Agrees(s, id);
    match s.job.value.pc {
      case MarkingFailed => StatusChangeKeeps(s, MarkFailedStep(s), id);
      case Reserving => StatusChangeKeeps(s, ReserveStep(s), id);
      case MarkingRelease => StatusChangeKeeps(s, MarkReleaseStep(s), id);
      case _ =>
    }
  }

  lemma FinishKeepsInv(s: World)
    requires Inv(s) && s.job.Some? && s.job.value.pc == Finishing
    ensures Inv(FinishStep(s))
  {
    var t := FinishStep(s);
    var id := s.job.value.order;
    assert Agrees(s, id);
    if s.job.value.kind == Deleting {
      forall other | other in t.ids
        ensures Agrees(t, other)
      {
        assert Agrees(s, other);
      }
    } else if Releasable(s.orders[id].payment) {
      StatusChangeKeeps(s, t, id);
    } else {
      SameSagaKeeps(s, t);
    }
  }

  lemma StepKeepsInv(s: World, e: Event)
    requires Inv(s) && (Mutates(s, e) ==> Coherent(s.sheet))
    ensures Inv(Step(s, e))
  {
    hide AdvanceStep, PayStep, CreateStep, BeginUndo, Inv;
    match e {
      case AddCustomer(id) => CustomersKeepInv(s, id);
      case RemoveCustomer(id) => CustomersKeepInv(s, id);
      case WriteTags(id, tags) => SameSagaKeeps(s, WriteTagsStep(s, id, tags));
      case Pay(id, status, proof) => PayKeepsInv(s, id, status, proof);
      case BeginCreate(request, existing, newId) => CreateKeepsInv(s, request, existing, newId);
      case BeginDelete(id) =>
        if s.job.None? && id in s.orders {
          var t := s.(deleting := s.deleting + {id});
          SameSagaKeeps(s, t);
          UndoKeepsInv(t, Deleting, id);
        }
      case BeginRelease(id) =>
        if s.job.None? && id in s.orders {
          UndoKeepsInv(s, Releasing, id);
        }
      case Advance(fault, readable) => AdvanceKeepsInv(s, fault, readable);
      case Abort => SameSagaKeeps(s, EndJob(s));
      case Restart => SameSagaKeeps(s, Step(s, e));
    }
  }

  lemma AdvanceKeepsInv(s: World, fault: Fault, readable: bool)
    requires Inv(s) && (Mutates(s, Advance(fault, readable)) ==> Coherent(s.sheet))
    ensures Inv(AdvanceStep(s, fault, readable))
  {
    if s.job.Some? {
      match s.job.value.pc {
        case Deducting => DeductKeepsInv(s, fault);
        case Restoring => RestoreKeepsInv(s, fault);
        case Finishing => FinishKeepsInv(s);
        case VerifyingDeduct => VerifyDeductKeepsInv(s, readable);
        case Checking => CheckKeepsInv(s, readable);
        case VerifyingRestore => VerifyRestoreKeepsInv(s, readable);
        case _ => TransactionsKeepInv(s);
      }
    }
  }

  /** In every state of every run, under any interleaving of creates, deletes, releases, payment
      updates, faults, cancellations and restarts, order status and ledger agree. */
  lemma {:induction false} RunKeepsInv(s: World, events: seq<Event>)
    requires Init(s) && CoherentRun(s, events)
    ensures Inv(Run(s, events))
  {
    if events == [] {
      InitInv(s);
    } else {
      var n := |events| - 1;
      RunKeepsInv(s, events[..n]);
      StepKeepsInv(Run(s, events[..n]), events[n]);
    }
  }
}
