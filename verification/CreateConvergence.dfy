/** Crash convergence of the locked section of `create_order` on one pending order. */
module CreateConvergence {
  import opened Common
  import opened Sheets
  import opened Orders
  import opened Reservation
  import opened Conservation
  import opened Convergence
  import opened Progress

  /** The order's stock deducted, unless it already was. */
  function WithReserved(s: World, id: OrderId): World
    requires id in s.orders
  {
    if ReservedInLedger(s, id) then s
    else
      var items := s.orders[id].items;
      s.(sheet := Sheet(Moved(s.sheet.rows, items, Deduct),
                        s.sheet.ledger + Written(s.sheet.rows, items, Deduct, ReserveOp(id)), None))
  }

  /** The pending order reserved. */
  function ReserveGoal(s: World, id: OrderId): World
    requires id in s.orders
  {
    Durable(SetInventory(WithReserved(s, id), id, Reserved))
  }

  /** The pending order refused: no stock and no ledger row moved. */
  function RefuseGoal(s: World, id: OrderId): World
    requires id in s.orders
  {
    Durable(s.(orders := s.orders[id := s.orders[id].(inventory := ReservationFailed,
                                                      payment := RejectPending(s.orders[id].payment))]))
  }

  /** The order's stock was already deducted, or the sheet lets it be deducted. */
  predicate CanReserve(s: World, id: OrderId)
    requires id in s.orders
  {
    ReservedInLedger(s, id) || Blocked(s.sheet.rows, s.orders[id].items, Deduct).None?
  }

  /** Everything that attempts to create one order can have done since `s`. */
  predicate Along(s: World, t: World, id: OrderId) {
    id in s.orders && id in t.orders &&
    match t.orders[id].inventory
    case ReservationPending =>
      && Durable(t) == (if ReservedInLedger(t, id) then Durable(WithReserved(s, id)) else Durable(s))
      && (ReservedInLedger(t, id) ==> CanReserve(s, id))
    case Reserved => Durable(t) == ReserveGoal(s, id) && CanReserve(s, id)
    case ReservationFailed => Durable(t) == RefuseGoal(s, id) && !ReservedInLedger(s, id)
    case _ => false
  }

  predicate CreateAttempt(e: Event, id: OrderId) {
    e.Advance? || e.Abort? || e.Restart? || (e.BeginCreate? && e.existing == Some(id))
  }

  lemma AlongStart(s: World, id: OrderId)
    requires id in s.orders && s.orders[id].inventory == ReservationPending
    ensures Along(s, s, id)
  {
  }

  /** A step that only moves the lock holder or the in-process copy. */
  lemma SameDurableStaysAlong(s: World, t: World, u: World, id: OrderId)
    requires Along(s, t, id) && Durable(u) == Durable(t)
    ensures Along(s, u, id)
  {
    assert u.orders == Durable(u).orders && u.sheet.ledger == Durable(u).sheet.ledger;
    assert t.orders == Durable(t).orders && t.sheet.ledger == Durable(t).sheet.ledger;
  }

  lemma DeductStaysAlong(s: World, t: World, fault: Fault, id: OrderId)
    requires Along(s, t, id) && Inv(t) && Ours(t, Creating, id) && t.job.Some? && t.job.value.pc == Deducting
    requires Coherent(t.sheet)
    ensures Along(s, DeductStep(t, fault), id)
  {
    var job := t.job.value;
    var (after, result) := UpdateStock(t.sheet, job.items, Deduct, ReserveOp(id), fault);
    UpdateStockCases(t.sheet, job.items, Deduct, ReserveOp(id), fault, after, result);
    var u := DeductStep(t, fault);
    hide UpdateStock, Inv;
    if Untouched(t.sheet, after) {
      SameDurableStaysAlong(s, t, u, id);
    } else {
      CommittedRecords(t.sheet, after, job.items, Deduct, ReserveOp(id));
      DeductedFrom(s, t, u, id);
    }
  }

  lemma DeductedFrom(s: World, t: World, u: World, id: OrderId)
    requires Along(s, t, id) && t.orders[id].inventory == ReservationPending && !ReservedInLedger(t, id)
    requires Committed(t.sheet, u.sheet, t.orders[id].items, Deduct, ReserveOp(id)) && ReservedInLedger(u, id)
    requires u == t.(sheet := u.sheet, job := u.job)
    ensures Along(s, u, id)
  {
    assert Durable(t) == Durable(s);
    assert Durable(t).orders == Durable(s).orders && Durable(t).sheet == Durable(s).sheet;
    assert !ReservedInLedger(s, id);
    assert Durable(WithReserved(s, id)) == Durable(WithReserved(t, id));
    assert Durable(u) == Durable(WithReserved(t, id));
  }

  lemma ReadStaysAlong(s: World, t: World, readable: bool, id: OrderId)
    requires Along(s, t, id) && Ours(t, Creating, id) && t.job.Some?
    ensures Along(s, VerifyDeductStep(t, readable), id)
  {
    var u := VerifyDeductStep(t, readable);
    assert Durable(u) == Durable(t) by {
      VerifyDeductIsQuiet(t, readable);
      assert u.sheet.rows == t.sheet.rows && u.sheet.ledger == t.sheet.ledger;
    }
    SameDurableStaysAlong(s, t, u, id);
  }

  lemma TransactionStaysAlong(s: World, t: World, id: OrderId)
    requires Along(s, t, id) && JobFits(t) && Ours(t, Creating, id) && t.job.Some?
    ensures t.job.value.pc == Reserving ==> Along(s, ReserveStep(t), id)
    ensures t.job.value.pc == MarkingFailed ==> Along(s, MarkFailedStep(t), id)
  {
    if t.job.value.pc == Reserving {
      var w := WithReserved(s, id);
      assert Durable(t) == Durable(w);
      assert t.orders == Durable(t).orders == Durable(w).orders == w.orders;
      assert Durable(SetInventory(t, id, Reserved)) == Durable(SetInventory(w, id, Reserved));
    } else if t.job.value.pc == MarkingFailed {
      assert Durable(t) == Durable(s);
      assert t.orders == Durable(t).orders == Durable(s).orders == s.orders;
      assert t.sheet.ledger == Durable(t).sheet.ledger == Durable(s).sheet.ledger == s.sheet.ledger;
    }
  }

  lemma AttemptStaysAlong(s: World, t: World, e: Event, id: OrderId)
    requires Along(s, t, id) && Inv(t) && Ours(t, Creating, id) && CreateAttempt(e, id)
    requires Mutates(t, e) ==> Coherent(t.sheet)
    ensures Along(s, Step(t, e), id) && Ours(Step(t, e), Creating, id)
  {
    match e {
      case BeginCreate(r, existing, newId) => BeginStaysAlong(s, t, r, newId, id);
      case Advance(fault, readable) => AdvanceStaysAlong(s, t, fault, readable, id);
      case Abort => SameDurableStaysAlong(s, t, Step(t, e), id);
      case Restart => SameDurableStaysAlong(s, t, Step(t, e), id);
    }
  }

  lemma BeginStaysAlong(s: World, t: World, r: Request, newId: OrderId, id: OrderId)
    requires Along(s, t, id) && Ours(t, Creating, id)
    ensures var u := CreateStep(t, r, Some(id), newId);
      Along(s, u, id) && Ours(u, Creating, id)
  {
    hide Along, Repeats;
    var u := CreateStep(t, r, Some(id), newId);
    assert Durable(u) == Durable(t);
    SameDurableStaysAlong(s, t, u, id);
  }

  lemma AdvanceStaysAlong(s: World, t: World, fault: Fault, readable: bool, id: OrderId)
    requires Along(s, t, id) && Inv(t) && Ours(t, Creating, id)
    requires Mutates(t, Advance(fault, readable)) ==> Coherent(t.sheet)
    ensures var u := AdvanceStep(t, fault, readable);
      Along(s, u, id) && Ours(u, Creating, id)
  {
    hide Along, UpdateStock, OperationApplied;
    if t.job.Some? {
      match t.job.value.pc {
        case Deducting => DeductStaysAlong(s, t, fault, id);
        case VerifyingDeduct => ReadStaysAlong(s, t, readable, id);
        case _ => TransactionStaysAlong(s, t, id);
      }
    }
  }

  lemma {:induction false} AttemptsStayAlong(s: World, events: seq<Event>, id: OrderId)
    requires Inv(s) && Ours(s, Creating, id) && id in s.orders && s.orders[id].inventory == ReservationPending
    requires CoherentRun(s, events)
    requires forall i :: 0 <= i < |events| ==> CreateAttempt(events[i], id)
    ensures var t := Run(s, events);
      Along(s, t, id) && Inv(t) && Ours(t, Creating, id)
  {
    hide Along, Inv, Step, Ours;
    if events == [] {
      AlongStart(s, id);
    } else {
      var n := |events| - 1;
      AttemptsStayAlong(s, events[..n], id);
      AttemptStaysAlong(s, Run(s, events[..n]), events[n], id);
      StepKeepsInv(Run(s, events[..n]), events[n]);
    }
  }

  /** Crash convergence of creates: whatever the attempts on one pending order went through, they leave
      it pending, reserved with its stock deducted once, or refused with no stock and no ledger row
      moved at all. */
  lemma CreatesConverge(s: World, events: seq<Event>, id: OrderId)
    requires Inv(s) && Ours(s, Creating, id) && id in s.orders && s.orders[id].inventory == ReservationPending
    requires CoherentRun(s, events)
    requires forall i :: 0 <= i < |events| ==> CreateAttempt(events[i], id)
    ensures var t := Run(s, events);
      && id in t.orders
      && (t.orders[id].inventory == ReservationPending || t.orders[id].inventory == Reserved
           || t.orders[id].inventory == ReservationFailed)
      && (t.orders[id].inventory == Reserved ==> Durable(t) == ReserveGoal(s, id))
      && (t.orders[id].inventory == ReservationFailed ==> Durable(t) == RefuseGoal(s, id) && !ReservedInLedger(s, id))
  {
    hide Run, ReserveGoal, RefuseGoal, WithReserved;
    AttemptsStayAlong(s, events, id);
  }

  // ---------------------------------------------------------------- the uninterrupted attempt

  predicate CreatingAt(s: World, id: OrderId, pc: Pc) {
    s.job.Some? && s.job.value.kind == Creating && s.job.value.order == id && s.job.value.pc == pc
  }

  lemma QuickDeduct(s: World, id: OrderId)
    requires Ready(s) && CreatingAt(s, id, Deducting) && ValidItems(s.job.value.items)
    ensures var t := DeductStep(s, NoFault);
      CreatingAt(t, id, if ReservedInLedger(s, id) || Blocked(s.sheet.rows, s.job.value.items, Deduct).None?
          then Reserving else VerifyingDeduct)
      && (!ReservedInLedger(s, id) && Blocked(s.sheet.rows, s.job.value.items, Deduct).Some? ==>
           !ReservedInLedger(t, id))
  {
    assert Replayable(s, id);
  }

  lemma QuickRefuse(s: World, id: OrderId)
    requires JobFits(s) && CreatingAt(s, id, VerifyingDeduct) && ValidItems(s.job.value.items)
    requires !ReservedInLedger(s, id)
    ensures var t := MarkFailedStep(VerifyDeductStep(s, true));
      t.job.None? && id in t.orders && t.orders[id].inventory == ReservationFailed
    ensures CreatingAt(VerifyDeductStep(s, true), id, MarkingFailed)
  {
  }

  /** An uninterrupted attempt on a pending order reserves it exactly when its stock was already
      deducted or the sheet lets it be deducted, and otherwise marks it failed. */
  lemma UninterruptedCreateCompletes(s: World, id: OrderId)
    requires Ready(s) && CreatingAt(s, id, Deducting) && ValidItems(s.job.value.items)
    ensures var t := QuickSteps(s, 4);
      && t.job.None? && id in t.orders
      && t.orders[id].inventory ==
           (if ReservedInLedger(s, id) || Blocked(s.sheet.rows, s.job.value.items, Deduct).None? then Reserved
               else ReservationFailed)
  {
    hide Ready, Blocked, DeductStep, VerifyDeductStep, MarkFailedStep, ReserveStep, QuickSteps, Replayable, Inv;
    QuickDeduct(s, id);
    QuickKeepsReady(s, QUICK);
    var s1 := Step(s, QUICK);
    assert s1 == DeductStep(s, NoFault);
    if ReservedInLedger(s, id) || Blocked(s.sheet.rows, s.job.value.items, Deduct).None? {
      QuickReserve(s1, id);
      QuickStepsTwo(s, s1, Step(s1, QUICK));
    } else {
      DeductKeepsItems(s);
      ReadyJob(s1);
      QuickRefuse(s1, id);
      QuickStepsThree(s, s1, Step(s1, QUICK), Step(Step(s1, QUICK), QUICK));
    }
  }

  lemma ReadyJob(s: World)
    requires Ready(s)
    ensures JobFits(s)
  {
  }

  lemma DeductKeepsItems(s: World)
    requires s.job.Some?
    ensures var t := DeductStep(s, NoFault); t.job.Some? && t.job.value.items == s.job.value.items
  {
  }

  lemma QuickReserve(s: World, id: OrderId)
    requires Ready(s) && CreatingAt(s, id, Reserving)
    ensures var t := Step(s, QUICK); t.job.None? && id in t.orders && t.orders[id].inventory == Reserved
  {
    hide AllReplayable, AllAgree, IdsKnown;
  }

  lemma QuickIdle(s: World, n: nat)
    requires s.job.None?
    ensures QuickSteps(s, n) == s
    decreases n
  {
    if n > 0 {
      assert Step(s, QUICK) == s;
      QuickIdle(s, n - 1);
    }
  }

  lemma QuickStepsTwo(s: World, s1: World, s2: World)
    requires s1 == Step(s, QUICK) && s2 == Step(s1, QUICK) && s2.job.None?
    ensures QuickSteps(s, 4) == s2
  {
    hide Step;
    QuickIdle(s2, 2);
    assert QuickSteps(s1, 3) == QuickSteps(s2, 2);
  }

  lemma QuickStepsThree(s: World, s1: World, s2: World, s3: World)
    requires s1 == Step(s, QUICK) && s2 == Step(s1, QUICK) && s3 == Step(s2, QUICK) && s3.job.None?
    ensures QuickSteps(s, 4) == s3
  {
    hide Step;
    QuickIdle(s3, 1);
    assert QuickSteps(s1, 3) == QuickSteps(s2, 2);
    assert QuickSteps(s2, 2) == QuickSteps(s3, 1);
  }

  // ---------------------------------------------------------------- many attempts against one

  lemma {:induction false} QuickStaysAlong(s: World, t: World, id: OrderId, n: nat)
    requires Along(s, t, id) && Ready(t) && Ours(t, Creating, id)
    ensures Along(s, QuickSteps(t, n), id)
    decreases n
  {
    if n > 0 {
      ReadyMeans(t);
      hide Along, Ready, Step, Ours;
      AttemptStaysAlong(s, t, QUICK, id);
      QuickKeepsReady(t, QUICK);
      QuickStaysAlong(s, Step(t, QUICK), id, n - 1);
    }
  }

  lemma ReadyMeans(s: World)
    requires Ready(s)
    ensures Inv(s) && Coherent(s.sheet)
  {
  }

  /** An attempt whose deduction fails before its commit, undisturbed from then on, refuses an order
      that holds no stock. */
  lemma RefusedAttempt(s: World, id: OrderId)
    requires Ready(s) && CreatingAt(s, id, Deducting) && ValidItems(s.job.value.items) && !ReservedInLedger(s, id)
    ensures var t := QuickSteps(Step(s, Advance(FailBeforeCommit, true)), 4);
      Along(s, t, id) && t.orders[id].inventory == ReservationFailed
  {
    var s1 := Step(s, Advance(FailBeforeCommit, true));
    FailedDeduction(s, id);
    AlongStart(s, id);
    AttemptStaysAlong(s, s, Advance(FailBeforeCommit, true), id);
    hide Along, Ready, Step, QuickSteps, ReservedInLedger, DeductStep, Ours, Blocked;
    QuickStaysAlong(s, s1, id, 4);
    ReadyJob(s1);
    QuickRefuse(s1, id);
    VerifyThenRefuse(s1, id);
    QuickStepsTwo(s1, Step(s1, QUICK), Step(Step(s1, QUICK), QUICK));
  }

  lemma VerifyThenRefuse(s: World, id: OrderId)
    requires CreatingAt(s, id, VerifyingDeduct) && CreatingAt(VerifyDeductStep(s, true), id, MarkingFailed)
    ensures Step(Step(s, QUICK), QUICK) == MarkFailedStep(VerifyDeductStep(s, true))
  {
    hide VerifyDeductStep, MarkFailedStep;
  }

  lemma FailedDeduction(s: World, id: OrderId)
    requires Ready(s) && CreatingAt(s, id, Deducting) && ValidItems(s.job.value.items) && !ReservedInLedger(s, id)
    ensures var t := Step(s, Advance(FailBeforeCommit, true));
      && Ready(t) && CreatingAt(t, id, VerifyingDeduct) && t.job.value.items == s.job.value.items
      && !ReservedInLedger(t, id) && Ours(t, Creating, id)
  {
    var e := Advance(FailBeforeCommit, true);
    assert Replayable(s, id);
    StepKeepsInv(s, e);
    StepKeepsReplayable(s, e);
    StepKeepsNonNegative(s, e);
    Coherence.CoherenceKept(s, e);
  }

  /** Attempts that end the order have not met an unusable line. */
  lemma EndedMeansUsable(s: World, events: seq<Event>, id: OrderId)
    requires Inv(s) && CreatingAt(s, id, Deducting) && id in Run(s, events).orders
    requires Run(s, events).orders[id].inventory != ReservationPending
    ensures ValidItems(s.job.value.items)
  {
    hide Run;
    if !ValidItems(s.job.value.items) {
      StuckForever(s, events, id);
    }
  }

  /** Interrupted, cancelled and failed attempts from a create's first transaction on, against one
      undisturbed attempt. If they end with the order reserved, they leave exactly what that one
      leaves. If they end with the order refused, they leave what an attempt leaves whose deduction
      failed once, before its commit; and that is what the undisturbed attempt leaves exactly when
      the sheet does not let the stock be deducted. */
  lemma CreatesConvergeToOne(s: World, begin: Event, events: seq<Event>, id: OrderId)
    requires Ready(s) && s.job.None? && begin.BeginCreate? && CreatingAt(Step(s, begin), id, Deducting)
    requires CoherentRun(Step(s, begin), events)
    requires forall i :: 0 <= i < |events| ==> CreateAttempt(events[i], id)
    ensures var first := Step(s, begin);
      var t, once := Run(first, events), Run(s, Uninterrupted(begin));
      && id in t.orders && id in first.orders
      && (t.orders[id].inventory == Reserved ==> Durable(t) == Durable(once))
      && (t.orders[id].inventory == ReservationFailed ==>
            && Durable(t) == Durable(Run(first, Uninterrupted(Advance(FailBeforeCommit, true))))
            && (Durable(t) == Durable(once) <==> Blocked(first.sheet.rows, first.orders[id].items, Deduct).Some?))
  {
    hide Run, QuickSteps, Step;
    QuickKeepsReady(s, begin);
    RunUninterrupted(s, begin);
    RunUninterrupted(Step(s, begin), Advance(FailBeforeCommit, true));
    AttemptsAgainstOne(Step(s, begin), events, id);
  }

  lemma AttemptsAgainstOne(s: World, events: seq<Event>, id: OrderId)
    requires Ready(s) && CreatingAt(s, id, Deducting) && CoherentRun(s, events)
    requires forall i :: 0 <= i < |events| ==> CreateAttempt(events[i], id)
    ensures var t, once := Run(s, events), QuickSteps(s, 4);
      && id in t.orders && id in s.orders
      && (t.orders[id].inventory == Reserved ==> Durable(t) == Durable(once))
      && (t.orders[id].inventory == ReservationFailed ==>
            && Durable(t) == Durable(QuickSteps(Step(s, Advance(FailBeforeCommit, true)), 4))
            && (Durable(t) == Durable(once) <==> Blocked(s.sheet.rows, s.orders[id].items, Deduct).Some?))
  {
    ReadyStands(s, id);
    AttemptsStayAlong(s, events, id);
    AlongStart(s, id);
    QuickStaysAlong(s, s, id, 4);
    var t, once := Run(s, events), QuickSteps(s, 4);
    hide Run, QuickSteps, Step, Ready, CoherentRun;
    if t.orders[id].inventory != ReservationPending {
      EndedMeansUsable(s, events, id);
      UninterruptedCreateCompletes(s, id);
      EndsCompared(s, t, once, id);
      if t.orders[id].inventory == ReservationFailed {
        RefusedAttempt(s, id);
      }
    }
  }

  lemma ReadyStands(s: World, id: OrderId)
    requires Ready(s) && CreatingAt(s, id, Deducting)
    ensures Inv(s) && Ours(s, Creating, id) && id in s.orders && s.orders[id].inventory == ReservationPending
    ensures s.job.value.items == s.orders[id].items
  {
  }

  /** Two ends of attempts from one state agree when they have the same status, and differ otherwise. */
  lemma EndsCompared(s: World, t: World, u: World, id: OrderId)
    requires Along(s, t, id) && Along(s, u, id)
    requires t.orders[id].inventory == Reserved || t.orders[id].inventory == ReservationFailed
    requires u.orders[id].inventory == (if CanReserve(s, id) then Reserved else ReservationFailed)
    ensures t.orders[id].inventory == Reserved ==> Durable(t) == Durable(u)
    ensures t.orders[id].inventory == ReservationFailed ==>
              && !ReservedInLedger(s, id)
              && (Durable(t) == Durable(u) <==> Blocked(s.sheet.rows, s.orders[id].items, Deduct).Some?)
  {
    assert t.orders == Durable(t).orders && u.orders == Durable(u).orders;
    assert t.sheet.ledger == Durable(t).sheet.ledger;
    hide Blocked;
  }
}
