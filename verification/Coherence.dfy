/** The in-process ledger copy: which steps keep it coherent, which runs stay coherent, and what
    goes wrong when a lost reply is followed by an unreadable ledger. */
module Coherence {
  import opened Common
  import opened Sheets
  import opened Orders
  import opened Reservation

  /** The step commits a mutation and reports failure. */
  predicate LosesReply(s: World, e: Event) {
    Mutates(s, e) && e.fault == FailAfterCommit && Step(s, e).sheet.ledger != s.sheet.ledger
  }

  lemma MutationCoherence(s: World, e: Event)
    requires Coherent(s.sheet) && Mutates(s, e)
    ensures Coherent(Step(s, e).sheet) <==> !LosesReply(s, e)
  {
    hide UpdateStock;
    var job := s.job.value;
    var dir := if job.pc == Deducting then Deduct else Restore;
    var op := if dir == Deduct then ReserveOp(job.order) else ReleaseOp(job.order);
    var (after, result) := UpdateStock(s.sheet, job.items, dir, op, e.fault);
    UpdateStockCases(s.sheet, job.items, dir, op, e.fault, after, result);
    if Committed(s.sheet, after, job.items, dir, op) {
      CommittedRecords(s.sheet, after, job.items, dir, op);
    }
  }

  /** From a coherent copy, a step ends coherent exactly when it does not lose a reply. */
  lemma CoherenceKept(s: World, e: Event)
    requires Coherent(s.sheet)
    ensures Coherent(Step(s, e).sheet) <==> !LosesReply(s, e)
  {
    hide UpdateStock, OperationApplied, Credit, Debit, KeepProof, Replayed, Repeats;
    if Mutates(s, e) {
      MutationCoherence(s, e);
    } else if e.Advance? && s.job.Some? {
      ReloadIsCoherent(s.sheet, ReserveOp(s.job.value.order), s.job.value.items, Deduct, e.readable);
      ReloadIsCoherent(s.sheet, ReleaseOp(s.job.value.order), s.job.value.items, Restore, e.readable);
    }
  }

  predicate Verifies(pc: Pc) {
    pc == VerifyingDeduct || pc == VerifyingRestore || pc == Checking
  }

  /** Whatever the copy shows, a restart or a readable verification makes it coherent. */
  lemma CoherenceRegained(s: World, e: Event)
    requires e == Restart
          || (e.Advance? && e.readable && s.job.Some? && Verifies(s.job.value.pc) && ValidItems(s.job.value.items))
    ensures Coherent(Step(s, e).sheet)
  {
    hide UpdateStock, Credit, Debit, KeepProof, Replayed;
  }

  /** Events that leave the lock holder where it is. */
  predicate Passive(e: Event) {
    !e.Advance? && !e.Abort? && !e.Restart?
  }

  /** After a reported failure that may have committed, the lock holder's next own event is a
      readable step or a restart. */
  predicate RepliesSettled(events: seq<Event>) {
    forall i, j :: 0 <= i < j < |events|
      && events[i].Advance? && events[i].fault == FailAfterCommit
      && (forall k :: i < k < j ==> Passive(events[k])) && !Passive(events[j])
      ==> events[j] == Restart || (events[j].Advance? && events[j].readable)
  }

  /** The lock holder's last own event was a failure that may have committed. */
  predicate Unanswered(events: seq<Event>) {
    exists i :: 0 <= i < |events| && events[i].Advance? && events[i].fault == FailAfterCommit
      && forall k :: i < k < |events| ==> Passive(events[k])
  }

  lemma UnansweredExtends(events: seq<Event>, e: Event)
    requires Unanswered(events) && Passive(e)
    ensures Unanswered(events + [e])
  {
    var i :| 0 <= i < |events| && events[i].Advance? && events[i].fault == FailAfterCommit
      && forall k :: i < k < |events| ==> Passive(events[k]);
    var es := events + [e];
    assert es[i] == events[i];
    forall k | i < k < |es|
      ensures Passive(es[k])
    {
      assert k < |events| ==> es[k] == events[k];
    }
  }

  lemma UnansweredSettles(events: seq<Event>, e: Event)
    requires Unanswered(events) && !Passive(e) && RepliesSettled(events + [e])
    ensures e == Restart || (e.Advance? && e.readable)
  {
    var i :| 0 <= i < |events| && events[i].Advance? && events[i].fault == FailAfterCommit
      && forall k :: i < k < |events| ==> Passive(events[k]);
    var es := events + [e];
    forall k | i < k < |events|
      ensures Passive(es[k])
    {
      assert es[k] == events[k];
    }
    assert es[i] == events[i] && es[|events|] == e;
  }

  lemma SettledPrefix(events: seq<Event>, n: nat)
    requires RepliesSettled(events) && n <= |events|
    ensures RepliesSettled(events[..n])
  {
    var es := events[..n];
    forall i, j | 0 <= i < j < n && es[i].Advance? && es[i].fault == FailAfterCommit
                  && (forall k :: i < k < j ==> Passive(es[k])) && !Passive(es[j])
      ensures es[j] == Restart || (es[j].Advance? && es[j].readable)
    {
      assert events[i] == es[i] && events[j] == es[j];
      assert forall k :: i < k < j ==> events[k] == es[k];
    }
  }

  /** The copy is behind only while the verification of the lost reply is still to come. */
  predicate AwaitsVerification(t: World) {
    && t.job.Some? && (t.job.value.pc == VerifyingDeduct || t.job.value.pc == VerifyingRestore)
    && ValidItems(t.job.value.items)
  }

  lemma PassiveKeepsJob(s: World, e: Event)
    requires s.job.Some? && Passive(e)
    ensures Step(s, e).job == s.job && Step(s, e).sheet == s.sheet
  {
  }

  lemma SettledStep(t: World, before: seq<Event>, e: Event)
    requires RepliesSettled(before + [e])
    requires Coherent(t.sheet) || (AwaitsVerification(t) && Unanswered(before))
    ensures Mutates(t, e) ==> Coherent(t.sheet)
    ensures Coherent(Step(t, e).sheet) || (AwaitsVerification(Step(t, e)) && Unanswered(before + [e]))
  {
    if Coherent(t.sheet) {
      CoherenceKept(t, e);
      if LosesReply(t, e) {
        LostReplyAwaits(t, e);
        assert (before + [e])[|before|] == e;
      }
    } else if Passive(e) {
      PassiveKeepsJob(t, e);
      UnansweredExtends(before, e);
    } else {
      UnansweredSettles(before, e);
      CoherenceRegained(t, e);
    }
  }

  /** A run in which every lost reply is followed by a readable verification or a restart starts
      every stock mutation coherent. */
  lemma {:induction false} SettledRunIsCoherent(s: World, events: seq<Event>)
    requires Coherent(s.sheet) && RepliesSettled(events)
    ensures CoherentRun(s, events)
    ensures var t := Run(s, events); Coherent(t.sheet) || (AwaitsVerification(t) && Unanswered(events))
  {
    hide Step;
    if events != [] {
      var n := |events| - 1;
      SettledPrefix(events, n);
      SettledRunIsCoherent(s, events[..n]);
      assert events == events[..n] + [events[n]];
      SettledStep(Run(s, events[..n]), events[..n], events[n]);
    }
  }

  lemma LostReplyAwaits(t: World, e: Event)
    requires Coherent(t.sheet) && LosesReply(t, e)
    ensures var u := Step(t, e);
      && u.job.Some? && (u.job.value.pc == VerifyingDeduct || u.job.value.pc == VerifyingRestore)
      && ValidItems(u.job.value.items)
  {
  }

  // ---------------------------------------------------------------- what moves stock

  /** A movement of usable, non-empty lines that nothing blocks changes the stock column. */
  lemma MovedDiffers(rows: seq<Product>, items: seq<Item>, dir: Direction)
    requires ValidItems(items) && items != [] && Blocked(rows, items, dir).None?
    ensures Moved(rows, items, dir) != rows
  {
    var sku := items[0].sku;
    FirstRequested(items);
    NotBlockedMeans(rows, items, dir);
    TotalPositive(items, sku);
    assert Problem(rows, items, dir, sku).None?;
    var i := RowOf(rows, sku).value;
    assert Moved(rows, items, dir)[i].stock != rows[i].stock;
  }

  lemma {:induction false} FirstRequested(items: seq<Item>)
    requires items != []
    ensures items[0].sku in Skus(items)
  {
    if |items| > 1 {
      FirstRequested(items[..|items| - 1]);
    }
  }

  lemma MovesStockExactly(sh: StockSheet, items: seq<Item>, dir: Direction, op: OpId, fault: Fault)
    ensures UpdateStock(sh, items, dir, op, fault).0.rows != sh.rows <==>
            ValidItems(items) && items != [] && !Recorded(sh.cache.GetOr(sh.ledger), op)
            && Blocked(sh.rows, items, dir).None? && (fault == NoFault || fault == FailAfterCommit)
  {
    hide Blocked, Recorded, Moved;
    if ValidItems(items) && Blocked(sh.rows, items, dir).None? {
      if items == [] {
        NothingMoved(sh.rows, dir);
      } else {
        MovedDiffers(sh.rows, items, dir);
      }
    }
  }

  lemma NothingMoved(rows: seq<Product>, dir: Direction)
    ensures Moved(rows, [], dir) == rows
  {
    assert forall i :: 0 <= i < |rows| ==> Total([], rows[i].sku) == 0;
  }

  /** Where the ledger rows of a mutation land: from the end of the copy on. What the ledger had there
      is lost, and everything else stays. */
  lemma RowsLandAtCopy(sh: StockSheet, items: seq<Item>, dir: Direction, op: OpId, fault: Fault, k: nat)
    requires UpdateStock(sh, items, dir, op, fault).0.rows != sh.rows
    ensures var after, at, n := UpdateStock(sh, items, dir, op, fault).0, |sh.cache.GetOr(sh.ledger)|, |Skus(items)|;
      && |after.ledger| == (if |sh.ledger| > at + n then |sh.ledger| else at + n)
      && (k < |after.ledger| ==>
            if at <= k < at + n
            then after.ledger[k].op == op && after.ledger[k].sku == Skus(items)[k - at] && after.ledger[k].kind == dir
            else k < |sh.ledger| && after.ledger[k] == sh.ledger[k])
  {
    hide *;
    var at := LedgerWritten(sh, items, dir, op, fault);
    OverwrittenAt(sh.ledger, at, Written(sh.rows, items, dir, op), k);
    if at <= k < at + |Skus(items)| {
      RowWritten(sh.rows, items, dir, op, k - at);
    }
  }

  lemma LedgerWritten(sh: StockSheet, items: seq<Item>, dir: Direction, op: OpId, fault: Fault) returns (at: nat)
    requires UpdateStock(sh, items, dir, op, fault).0.rows != sh.rows
    ensures at == |sh.cache.GetOr(sh.ledger)| && at <= |sh.ledger|
    ensures UpdateStock(sh, items, dir, op, fault).0.ledger
        == Overwrite(sh.ledger, at, Written(sh.rows, items, dir, op))
  {
    at := |sh.cache.GetOr(sh.ledger)|;
    hide Blocked, Recorded, Moved, Validate, Overwrite, Written, AfterMap;
  }

  lemma RowWritten(rows: seq<Product>, items: seq<Item>, dir: Direction, op: OpId, k: nat)
    requires k < |Skus(items)|
    ensures var w := Written(rows, items, dir, op)[k]; w.op == op && w.sku == Skus(items)[k] && w.kind == dir
  {
    hide Skus;
  }

  lemma OverwrittenAt(ledger: seq<Movement>, at: nat, w: seq<Movement>, k: nat)
    requires at <= |ledger|
    ensures var after := Overwrite(ledger, at, w);
      && |after| == (if |ledger| > at + |w| then |ledger| else at + |w|)
      && (at <= k < at + |w| ==> after[k] == w[k - at])
      && (k < at || at + |w| <= k < |ledger| ==> after[k] == ledger[k])
  {
  }

  /** The mutation the lock holder is about to call, by its operation and direction. */
  function CallOf(s: World): (OpId, Direction)
    requires s.job.Some?
  {
    if s.job.value.pc == Deducting then (ReserveOp(s.job.value.order), Deduct)
        else (ReleaseOp(s.job.value.order), Restore)
  }

  /** A step moves the stock of an operation that the durable ledger already holds exactly when the
      copy does not show the operation, nothing blocks the write, and the fault comes after the commit
      or not at all. */
  lemma SecondMovementExactly(s: World, e: Event)
    requires Mutates(s, e) && Recorded(s.sheet.ledger, CallOf(s).0)
    ensures Step(s, e).sheet.rows != s.sheet.rows <==>
            var items, (op, dir) := s.job.value.items, CallOf(s);
            && ValidItems(items) && items != [] && s.sheet.cache.Some? && !Recorded(s.sheet.cache.value, op)
            && Blocked(s.sheet.rows, items, dir).None? && (e.fault == NoFault || e.fault == FailAfterCommit)
  {
    MovesStockExactly(s.sheet, s.job.value.items, CallOf(s).1, CallOf(s).0, e.fault);
    hide UpdateStock, Recorded, Blocked;
  }

  // ---------------------------------------------------------------- without the hypothesis

  const SHIRT := Item("A", 3, Some(100), "")
  const NOWHERE := Delivery("", "", "", "", "", "", "", 0)
  const ASK := Request("c", [SHIRT], NOWHERE, 300, 300, 0)

  function Shop(): World {
    World(map[], map["c" := Customer(0, 0, [])], [],
          Sheet([Product("A", 10, true, Some(100))], [], None), None, [], {}, {})
  }

  /** How a call ends whose lost reply is not verified: the ledger cannot be read, or the call is
      cancelled while the reply is awaited, and the verification is skipped. */
  predicate Unverified(ending: Event) {
    ending == Advance(NoFault, false) || ending == Abort
  }

  /** A commit whose reply is lost, no verification, and a retry. */
  function UnluckyRun(ending: Event): seq<Event> {
    [BeginCreate(ASK, None, "o"), Advance(FailAfterCommit, false), ending,
     BeginCreate(ASK, Some("o"), ""), Advance(NoFault, true), Advance(NoFault, true)]
  }

  lemma ShirtRequest()
    ensures Skus([SHIRT]) == ["A"] && Total([SHIRT], "A") == 3 && ValidItems([SHIRT])
  {
    assert [SHIRT][..0] == [];
    assert Skus([SHIRT][..0]) == [];
    assert Total([SHIRT][..0], "A") == 0;
  }

  /** One deduction of three shirts from a sheet showing `stock`, seen through an empty copy. */
  lemma ShirtDeduction(sh: StockSheet, stock: int, fault: Fault)
    requires sh.rows == [Product("A", stock, true, Some(100))] && stock >= 3
    requires sh.cache.GetOr(sh.ledger) == [] && |sh.ledger| <= 1
    requires fault == NoFault || fault == FailAfterCommit
    ensures var row := Movement(ReserveOp("o"), Deduct, "A", 3, stock, stock - 3);
      var (after, result) := UpdateStock(sh, [SHIRT], Deduct, ReserveOp("o"), fault);
      && after == Sheet([Product("A", stock - 3, true, Some(100))], [row], Some(if fault == NoFault then [row] else []))
      && (result.Success? <==> fault == NoFault)
  {
    ShirtRequest();
    var items := [SHIRT];
    assert RowOf(sh.rows, "A") == Some(0);
    assert ExpectedPrice(items, "A") == Some(100);
    assert Problem(sh.rows, items, Deduct, "A").None?;
    assert Blocked(sh.rows, items, Deduct).None? by {
      NotBlockedMeans(sh.rows, items, Deduct);
    }
    assert Moved(sh.rows, items, Deduct) == [Product("A", stock - 3, true, Some(100))];
    var row := Movement(ReserveOp("o"), Deduct, "A", 3, stock, stock - 3);
    assert Written(sh.rows, items, Deduct, ReserveOp("o")) == [row];
    assert Overwrite(sh.ledger, 0, [row]) == [row];
    assert [] + [row] == [row];
  }

  function Stage(status: Inventory, stock: int, ledger: seq<Movement>, cache: Option<seq<Movement>>,
                 pc: Option<Pc>): World
    requires cache.Some? ==> |cache.value| <= |ledger|
  {
    World(map["o" := NewOrder(ASK).(inventory := status)], Shop().customers, [],
          Sheet([Product("A", stock, true, Some(100))], ledger, cache),
          if pc.Some? then Some(Job(Creating, "o", [SHIRT], pc.value)) else None, ["o"], {}, {})
  }

  const FIRST := Movement(ReserveOp("o"), Deduct, "A", 3, 10, 7)
  const SECOND := Movement(ReserveOp("o"), Deduct, "A", 3, 7, 4)

  lemma ActiveUnpaidBound(s: World, customer: CustomerId)
    ensures ActiveUnpaidCount(s, customer) <= |s.orders|
  {
    var active := set id | id in s.orders && ActiveUnpaid(s.orders[id], customer);
    assert active <= s.orders.Keys;
    assert s.orders.Keys == active + (s.orders.Keys - active);
  }

  lemma UnluckyStart()
    ensures Step(Shop(), BeginCreate(ASK, None, "o")) == Stage(ReservationPending, 10, [], None, Some(Deducting))
    ensures Step(Stage(ReservationPending, 10, [], None, Some(Deducting)), Advance(FailAfterCommit, false))
         == Stage(ReservationPending, 7, [FIRST], Some([]), Some(VerifyingDeduct))
  {
    hide UpdateStock;
    ActiveUnpaidBound(Shop(), "c");
    ShirtDeduction(Stage(ReservationPending, 10, [], None, Some(Deducting)).sheet, 10, FailAfterCommit);
  }

  lemma UnluckyMiddle(ending: Event)
    requires Unverified(ending)
    ensures Step(Stage(ReservationPending, 7, [FIRST], Some([]), Some(VerifyingDeduct)), ending)
         == Stage(ReservationPending, 7, [FIRST], Some([]), None)
    ensures Step(Stage(ReservationPending, 7, [FIRST], Some([]), None), BeginCreate(ASK, Some("o"), ""))
         == Stage(ReservationPending, 7, [FIRST], Some([]), Some(Deducting))
  {
    ShirtRequest();
    assert Repeats(Stage(ReservationPending, 7, [FIRST], Some([]), None).orders["o"], ASK);
  }

  lemma UnluckyRetry()
    ensures Step(Stage(ReservationPending, 7, [FIRST], Some([]), Some(Deducting)), Advance(NoFault, true))
         == Stage(ReservationPending, 4, [SECOND], Some([SECOND]), Some(Reserving))
  {
    hide UpdateStock;
    ShirtDeduction(Stage(ReservationPending, 7, [FIRST], Some([]), Some(Deducting)).sheet, 7, NoFault);
  }

  lemma UnluckyEnd()
    ensures Step(Stage(ReservationPending, 4, [SECOND], Some([SECOND]), Some(Reserving)), Advance(NoFault, true))
         == Stage(Reserved, 4, [SECOND], Some([SECOND]), None)
  {
  }

  /** The hypothesis is needed: without it one order deducts twice, its first ledger row is
      overwritten, and three units of stock belong to nobody. */
  lemma LostReplyDeductsTwice(ending: Event)
    requires Unverified(ending)
    ensures Init(Shop()) && !CoherentRun(Shop(), UnluckyRun(ending))
    ensures Run(Shop(), UnluckyRun(ending)) == Stage(Reserved, 4, [SECOND], Some([SECOND]), None)
  {
    UnluckyStart();
    UnluckyMiddle(ending);
    UnluckyRetry();
    UnluckyEnd();
    RunOfSix(Shop(), UnluckyRun(ending));
    PrefixCoherent(Shop(), UnluckyRun(ending), 5);
    var es := UnluckyRun(ending)[..5];
    assert es[..4] == UnluckyRun(ending)[..4] && es[4] == UnluckyRun(ending)[4];
    assert Mutates(Run(Shop(), es[..4]), es[4]);
  }

  lemma RunOfSix(s: World, es: seq<Event>)
    requires |es| == 6
    ensures Run(s, es) == Step(Step(Step(Step(Step(Step(s, es[0]), es[1]), es[2]), es[3]), es[4]), es[5])
    ensures Run(s, es[..4]) == Step(Step(Step(Step(s, es[0]), es[1]), es[2]), es[3])
  {
    assert es[..5][..4] == es[..4] && es[..4][..3] == es[..3] && es[..3][..2] == es[..2] && es[..2][..1] == es[..1]
        && es[..1][..0] == [];
    assert Run(s, es[..1]) == Step(s, es[0]);
    assert Run(s, es[..2]) == Step(Run(s, es[..1]), es[1]);
    assert Run(s, es[..3]) == Step(Run(s, es[..2]), es[2]);
    assert Run(s, es[..4]) == Step(Run(s, es[..3]), es[3]);
    assert Run(s, es[..5]) == Step(Run(s, es[..4]), es[4]);
  }

  /** A coherent run has coherent prefixes. */
  lemma {:induction false} PrefixCoherent(s: World, es: seq<Event>, n: nat)
    requires n <= |es|
    ensures CoherentRun(s, es) ==> CoherentRun(s, es[..n])
    decreases |es|
  {
    if n < |es| {
      assert es[..|es| - 1][..n] == es[..n];
      PrefixCoherent(s, es[..|es| - 1], n);
    } else {
      assert es[..n] == es;
    }
  }
}
