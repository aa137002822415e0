/** The order functions of store/app/crm/orders.py and store/app/crm/customers.py in the form they
    have there: rows changed in place, one transaction or Sheets call after another. What each call
    does to the whole state is a run of the machine in module Orders. */
module OrderService {
  import opened Common
  import opened Sheets
  import opened Orders
  import Payments
  import Reservation
  import Retries
  import SheetService
  import Tags

  /** Transactions of other coroutines; they need no inventory lock. */
  type Outside = e: Event | e.Pay? || e.AddCustomer? || e.RemoveCustomer? || e.WriteTags? witness AddCustomer("")

  datatype Ending = GoesOn | Cancelled | Dies

  /** One pause of the lock holder: the transactions of others that run first, whether the holder
      then goes on, and how its next Sheets call goes. */
  datatype Tick = Tick(others: seq<Outside>, ending: Ending, fault: Fault, readable: bool)

  /** The machine driven by a script of pauses until the job ends; a script that runs out is a
      cancellation. */
  function Drive(s: World, script: seq<Tick>): World
    decreases |script|
  {
    if s.job.None? then s
    else if script == [] then Step(s, Abort)
    else
      var t := Run(s, script[0].others);
      match script[0].ending
      case Cancelled => Step(t, Abort)
      case Dies => Step(t, Restart)
      case GoesOn => Drive(Step(t, Advance(script[0].fault, script[0].readable)), script[1..])
  }

  function DriveEvents(s: World, script: seq<Tick>): seq<Event>
    decreases |script|
  {
    if s.job.None? then []
    else if script == [] then [Abort]
    else
      var t := Run(s, script[0].others);
      match script[0].ending
      case Cancelled => script[0].others + [Abort]
      case Dies => script[0].others + [Restart]
      case GoesOn =>
        var e := Advance(script[0].fault, script[0].readable);
        script[0].others + [e] + DriveEvents(Step(t, e), script[1..])
  }

  lemma {:induction false} RunJoins(s: World, before: seq<Event>, after: seq<Event>)
    ensures Run(s, before + after) == Run(Run(s, before), after)
  {
    hide Step;
    if after == [] {
      assert before + after == before;
    } else {
      var n := |after| - 1;
      assert (before + after)[..|before| + n] == before + after[..n];
      RunJoins(s, before, after[..n]);
    }
  }

  lemma RunOne(s: World, e: Event)
    ensures Run(s, [e]) == Step(s, e)
  {
    assert [e][..0] == [];
  }

  /** Every call below is a run, so what all runs keep, all calls keep. */
  lemma {:induction false} DriveIsARun(s: World, script: seq<Tick>)
    ensures Drive(s, script) == Run(s, DriveEvents(s, script))
    decreases |script|
  {
    hide Step, Run;
    if s.job.None? {
      RunNothing(s);
    } else if script == [] {
      RunOne(s, Abort);
    } else {
      var others: seq<Event> := script[0].others;
      var t := Run(s, others);
      match script[0].ending
      case Cancelled =>
        RunJoins(s, others, [Abort]);
        RunOne(t, Abort);
      case Dies =>
        RunJoins(s, others, [Restart]);
        RunOne(t, Restart);
      case GoesOn =>
        var e := Advance(script[0].fault, script[0].readable);
        var rest := DriveEvents(Step(t, e), script[1..]);
        RunJoins(s, others + [e], rest);
        RunJoins(s, others, [e]);
        RunOne(t, e);
        DriveIsARun(Step(t, e), script[1..]);
    }
  }

  /** A call after a history is one longer history. */
  lemma CallExtends(start: World, history: seq<Event>, begin: Event, script: seq<Tick>)
    ensures var s := Run(start, history + [begin]);
      Drive(Step(Run(start, history), begin), script) == Run(start, history + [begin] + DriveEvents(s, script))
  {
    hide *;
    var s := Run(start, history + [begin]);
    RunJoins(start, history, [begin]);
    RunOne(Run(start, history), begin);
    DriveIsARun(s, script);
    RunJoins(start, history + [begin], DriveEvents(s, script));
  }

  /** After any history and any call, whatever faults it met and whatever the ledger copy showed,
      customer totals, flags and payment proofs are in order, and a paid order is outside
      reserved stock only once a delete has begun on it. */
  lemma CallsKeepTheBooks(start: World, history: seq<Event>, begin: Event, script: seq<Tick>)
    requires Payments.PayInit(start)
    ensures var t := Drive(Step(Run(start, history), begin), script); Payments.Books(t) && Payments.PaidInv(t)
  {
    hide *;
    CallExtends(start, history, begin, script);
    Payments.RunKeepsPayments(start, history + [begin] + DriveEvents(Run(start, history + [begin]), script));
  }

  /** With mutations that start coherent, order status and ledger agree after any history and any call. */
  lemma CallsKeepAgreement(start: World, history: seq<Event>, begin: Event, script: seq<Tick>)
    requires Reservation.Init(start)
    requires var s := Run(start, history + [begin]); CoherentRun(start, history + [begin] + DriveEvents(s, script))
    ensures Reservation.Inv(Drive(Step(Run(start, history), begin), script))
  {
    hide *;
    CallExtends(start, history, begin, script);
    Reservation.RunKeepsInv(start, history + [begin] + DriveEvents(Run(start, history + [begin]), script));
  }

  lemma RunNothing(s: World)
    ensures Run(s, []) == s
  {
  }

  lemma IdleDrive(s: World, script: seq<Tick>)
    requires s.job.None?
    ensures Drive(s, script) == s
  {
  }

  lemma RunMore(s: World, events: seq<Event>, k: nat)
    requires k < |events|
    ensures Run(s, events[..k + 1]) == Step(Run(s, events[..k]), events[k])
  {
    assert events[..k + 1][..k] == events[..k];
  }

  lemma {:induction false} OutsideKeepsJob(s: World, events: seq<Outside>)
    ensures Run(s, events).job == s.job && Run(s, events).sheet == s.sheet
  {
    if events != [] {
      OutsideKeepsJob(s, events[..|events| - 1]);
    }
  }

  /** The same rows in the same inventory states. */
  predicate SameRows(before: map<OrderId, Order>, after: map<OrderId, Order>) {
    before.Keys == after.Keys && forall id :: id in before ==> after[id].inventory == before[id].inventory
  }

  /** The row is still there if it was, in the state it had or in one of the two given. */
  predicate StandsAs(before: map<OrderId, Order>, after: map<OrderId, Order>, id: OrderId, next: Inventory) {
    && (id in before <==> id in after)
    && (id in before ==> after[id].inventory == before[id].inventory || after[id].inventory == next)
  }

  lemma {:induction false} OutsideKeepsRows(s: World, events: seq<Outside>)
    ensures SameRows(s.orders, Run(s, events).orders)
  {
    if events != [] {
      var n := |events| - 1;
      OutsideKeepsRows(s, events[..n]);
      OutsideKeepsRow(Run(s, events[..n]), events[n]);
    }
  }

  lemma OutsideKeepsRow(s: World, e: Outside)
    ensures SameRows(s.orders, Step(s, e).orders)
  {
    hide Credit, Debit, Replayed, SpendAmount;
  }

  /** The tier part of `sync_purchase_tier_tags`: drop what is no longer earned, then append what is. */
  method SyncTierTags(c: Customer) returns (synced: Customer)
    ensures synced == SyncTags(c)
  {
    var tags: seq<string> := [];
    for i := 0 to |c.tags|
      invariant tags == KeptTags(c.tags[..i], c)
    {
      var tag := c.tags[i];
      assert c.tags[..i + 1][..i] == c.tags[..i];
      if (tag != "repeat_buyer" && tag != "vip")
          || (tag == "repeat_buyer" && c.totalOrders >= REPEAT_BUYER_ORDERS)
          || (tag == "vip" && (c.totalOrders >= VIP_ORDERS || c.totalSpent >= VIP_SPENT_CENTS)) {
        tags := tags + [tag];
      }
    }
    assert c.tags[..|c.tags|] == c.tags;
    if c.totalOrders >= REPEAT_BUYER_ORDERS && "repeat_buyer" !in tags {
      tags := tags + ["repeat_buyer"];
    }
    if (c.totalOrders >= VIP_ORDERS || c.totalSpent >= VIP_SPENT_CENTS) && "vip" !in tags {
      tags := tags + ["vip"];
    }
    synced := c.(tags := tags);
  }

  /** `_dedupe_preserve_order`. */
  method Dedupe(tags: seq<string>) returns (result: seq<string>)
    ensures result == Tags.Deduped(tags)
    ensures Distinct(result) && forall tag :: tag in result <==> tag in tags
  {
    var seen: set<string> := {};
    result := [];
    for i := 0 to |tags|
      invariant result == Tags.Deduped(tags[..i]) && forall tag :: tag in seen <==> tag in result
    {
      assert tags[..i + 1][..i] == tags[..i];
      if tags[i] !in seen {
        seen := seen + {tags[i]};
        result := result + [tags[i]];
      }
    }
    assert tags[..|tags|] == tags;
    forall tag
      ensures tag in result <==> tag in tags
    {
      Tags.DedupedMeans(tags, tag);
    }
    Tags.DedupedMeans(tags, "");
  }

  lemma WrittenTwice(m: map<OrderId, Order>, id: OrderId, first: Order, second: Order)
    ensures m[id := first][id := second] == m[id := second]
  {
  }

  datatype PayOutcome = ReplayDetected | NotUpdated | Updated(totalsApplied: bool)

  datatype UndoOutcome = NotDone | Done(restored: bool) | Stopped | Failed(error: Error)

  datatype CreateOutcome = Returned(order: OrderId, createdNew: bool) | Refused | Unfinished | Unreserved(error: Error)

  class OrderStore {
    const sheet: SheetService.Spreadsheet
    var orders: map<OrderId, Order>
    var customers: map<CustomerId, Customer>
    var replays: seq<Replay>
    ghost var job: Option<Job>
    ghost var ids: seq<OrderId>
    ghost var deleting: set<OrderId>
    ghost var updated: set<OrderId>

    ghost predicate Valid()
      reads this, sheet
    {
      sheet.Valid()
    }

    /** The abstract value: the machine's state. */
    ghost function Now(): World
      reads this, sheet
      requires Valid()
    {
      World(orders, customers, replays, sheet.Snapshot(), job, ids, deleting, updated)
    }

    constructor (sheet: SheetService.Spreadsheet)
      requires sheet.Valid()
      ensures Valid() && this.sheet == sheet
      ensures Now() == World(map[], map[], [], sheet.Snapshot(), None, [], {}, {})
    {
      this.sheet := sheet;
      orders, customers, replays := map[], map[], [];
      job, ids, deleting, updated := None, [], {}, {};
    }

    // ---------------------------------------------------------------- customers and payments

    method ApplyPaidCustomerUpdates(id: CustomerId, amount: int)
      requires Valid()
      modifies this`customers
      ensures Valid() && customers == Credit(old(customers), id, amount)
    {
      if id in customers {
        var c := customers[id];
        var synced := SyncTierTags(c.(totalOrders := c.totalOrders + 1, totalSpent := c.totalSpent + amount));
        customers := customers[id := synced];
      }
    }

    method RevertPaidCustomerUpdates(id: CustomerId, amount: int)
      requires Valid()
      modifies this`customers
      ensures Valid() && customers == Debit(old(customers), id, amount)
    {
      if id in customers {
        var c := customers[id];
        var synced := SyncTierTags(c.(totalOrders := Max(c.totalOrders - 1, 0),
            totalSpent := Max(c.totalSpent - amount, 0)));
        customers := customers[id := synced];
      }
    }

    /** The writes of an accepted payment update. */
    method WritePayment(id: OrderId, status: Payment, proof: Option<Proof>) returns (applied: bool)
      requires Valid() && id in orders
      modifies this
      ensures Valid() && Now() == ApplyPay(old(Now()), id, status, proof)
      ensures id in orders && orders[id].payment == status && applied == orders[id].totalsApplied
    {
      hide Credit, Debit, SpendAmount;
      ghost var before := orders;
      var row := orders[id];
      if proof.Some? {
        orders := orders[id := row.(payment := status, proofHash := Some(proof.value.hash),
                                    referenceKey := Some(proof.value.reference))];
      } else {
        orders := orders[id := row.(payment := status)];
      }
      updated := updated + {id};
      applied := row.totalsApplied;
      if Paid(status) && !applied && row.customer.Some? {
        ApplyPaidCustomerUpdates(row.customer.value, SpendAmount(row));
        WrittenTwice(before, id, orders[id], orders[id].(totalsApplied := true));
        orders := orders[id := orders[id].(totalsApplied := true)];
        applied := true;
      } else if !Paid(status) && applied {
        if row.customer.Some? {
          RevertPaidCustomerUpdates(row.customer.value, SpendAmount(row));
        }
        WrittenTwice(before, id, orders[id], orders[id].(totalsApplied := false));
        orders := orders[id := orders[id].(totalsApplied := false)];
        applied := false;
      }
    }

    /** `update_order_payment_status`: one transaction. */
    method UpdateOrderPaymentStatus(id: OrderId, status: Payment, proof: Option<Proof>) returns (outcome: PayOutcome)
      requires Valid()
      modifies this
      ensures Valid() && Now() == PayStep(old(Now()), id, status, proof)
      ensures outcome.Updated? <==> PayAccepted(old(Now()), id, status, proof)
      ensures outcome.Updated? ==> orders[id].payment == status && outcome.totalsApplied == orders[id].totalsApplied
      ensures outcome.ReplayDetected? <==> proof.Some? && Replayed(old(Now()), id, proof.value)
      ensures !outcome.Updated? ==> Now() == old(Now())
    {
      hide ApplyPay, UsesProof;
      if proof.Some? {
        if (exists other :: other in orders && other != id
               && UsesProof(orders[other].proofHash, orders[other].referenceKey, proof.value))
           || (exists i ::
                0 <= i < |replays| && UsesProof(replays[i].proofHash, replays[i].referenceKey, proof.value)) {
          return ReplayDetected;
        }
      }
      if id !in orders {
        return NotUpdated;
      }
      var row := orders[id];
      if (status == ProofReceived || status == Confirmed) && row.inventory != Reserved
          && row.inventory != LegacyUnknown {
        return NotUpdated;
      }
      if proof.Some? && row.payment != Pending {
        return NotUpdated;
      }
      var applied := WritePayment(id, status, proof);
      outcome := Updated(applied);
    }

    method AddCustomerRow(id: CustomerId)
      requires Valid()
      modifies this`customers
      ensures Valid() && Now() == AddCustomerStep(old(Now()), id)
    {
      if id !in customers {
        customers := customers[id := Customer(0, 0, ["new_lead"])];
      }
    }

    method RemoveCustomerRow(id: CustomerId)
      requires Valid()
      modifies this`customers, this`orders
      ensures Valid() && Now() == RemoveCustomerStep(old(Now()), id)
    {
      customers := customers - {id};
      orders := map o | o in orders ::
          (if orders[o].customer == Some(id) then orders[o].(customer := None) else orders[o]);
    }

    method SetTags(id: CustomerId, tags: seq<string>)
      requires Valid()
      modifies this`customers
      ensures Valid() && Now() == WriteTagsStep(old(Now()), id, tags)
    {
      if id in customers {
        customers := customers[id := customers[id].(tags := tags)];
      }
    }

    /** `add_tags`: one transaction. */
    method AddTags(id: CustomerId, more: seq<string>)
      requires Valid()
      modifies this`customers
      ensures Valid() && (id !in old(customers) ==> Now() == old(Now()))
      ensures id in old(customers) ==>
        Now() == Step(old(Now()), WriteTags(id, Tags.Added(old(customers)[id].tags, more)))
    {
      if id in customers {
        var merged := Dedupe(customers[id].tags + more);
        SetTags(id, merged);
      }
    }

    /** `remove_tag`: one transaction. */
    method RemoveTag(id: CustomerId, target: string)
      requires Valid()
      modifies this`customers
      ensures Valid() && (id !in old(customers) ==> Now() == old(Now()))
      ensures id in old(customers) ==>
        Now() == Step(old(Now()), WriteTags(id, Tags.Removed(old(customers)[id].tags, target)))
    {
      if id in customers {
        var tags := customers[id].tags;
        var filtered: seq<string> := [];
        for i := 0 to |tags|
          invariant filtered == Tags.Without(tags[..i], target)
        {
          assert tags[..i + 1][..i] == tags[..i];
          if tags[i] != target {
            filtered := filtered + [tags[i]];
          }
        }
        assert tags[..|tags|] == tags;
        filtered := Dedupe(filtered);
        SetTags(id, filtered);
      }
    }

    // ---------------------------------------------------------------- pauses

    /** The lock holder waits; the answer says whether it goes on. */
    method Wait(script: seq<Tick>) returns (alive: bool)
      requires Valid() && job.Some?
      modifies this, sheet
      ensures Valid()
      ensures alive ==> script != [] && script[0].ending.GoesOn? && Now() == Run(old(Now()), script[0].others)
      ensures !alive ==> job.None? && Now() == Drive(old(Now()), script)
      ensures SameRows(old(orders), orders)
    {
      hide PayStep, AddCustomerStep, RemoveCustomerStep, WriteTagsStep;
      ghost var before := Now();
      if script == [] {
        job := None;
        return false;
      }
      var tick := script[0];
      for k := 0 to |tick.others|
        invariant Valid() && Now() == Run(before, tick.others[..k])
      {
        RunMore(before, tick.others, k);
        match tick.others[k]
        case Pay(id, status, proof) => var _ := UpdateOrderPaymentStatus(id, status, proof);
        case AddCustomer(id) => AddCustomerRow(id);
        case RemoveCustomer(id) => RemoveCustomerRow(id);
        case WriteTags(id, tags) => SetTags(id, tags);
      }
      assert tick.others[..|tick.others|] == tick.others;
      OutsideKeepsJob(before, tick.others);
      OutsideKeepsRows(before, tick.others);
      if tick.ending.Dies? {
        sheet.Forget();
        job := None;
        return false;
      }
      if tick.ending.Cancelled? {
        job := None;
        return false;
      }
      alive := true;
    }

    // ---------------------------------------------------------------- deleting and releasing

    /** Asks the ledger whether the pending reservation went through. */
    method ReadReservation(id: OrderId, items: seq<Item>, script: seq<Tick>)
        returns (halted: Option<UndoOutcome>, applied: bool, rest: seq<Tick>)
      requires Valid() && job.Some? && job.value.pc == Checking && job.value.order == id && job.value.items == items
      modifies this, sheet
      ensures Valid() && Drive(Now(), rest) == Drive(old(Now()), script)
      ensures halted.Some? ==> job.None? && !halted.value.Done?
      ensures halted.None? ==> job == Some(old(job).value.(pc := if applied then MarkingRelease else Finishing))
      ensures StandsAs(old(orders), orders, id, ReleasePending)
    {
      hide Run, Sheets.OperationApplied;
      applied, rest := false, script;
      var alive := Wait(script);
      if !alive {
        return Some(Stopped), false, script;
      }
      OutsideKeepsJob(old(Now()), script[0].others);
      var answer := sheet.OperationApplied(ReserveOp(id), items, Deduct, script[0].readable);
      rest := script[1..];
      if answer.Failure? {
        job := None;
        return Some(Failed(answer.error)), false, rest;
      }
      applied := answer.value;
      job := Some(job.value.(pc := if applied then MarkingRelease else Finishing));
      halted := None;
    }

    method MarkReleasePending(id: OrderId, script: seq<Tick>) returns (halted: Option<UndoOutcome>, rest: seq<Tick>)
      requires Valid() && job.Some? && job.value.pc == MarkingRelease && job.value.order == id
      modifies this, sheet
      ensures Valid() && Drive(Now(), rest) == Drive(old(Now()), script)
      ensures halted.Some? ==> job.None? && !halted.value.Done?
      ensures halted.None? ==> job == Some(old(job).value.(pc := Restoring))
      ensures StandsAs(old(orders), orders, id, ReleasePending)
    {
      hide Run, DeductStep, VerifyDeductStep, MarkFailedStep, ReserveStep, CheckStep, RestoreStep, VerifyRestoreStep,
          FinishStep;
      rest := script;
      var alive := Wait(script);
      if !alive {
        return Some(Stopped), script;
      }
      OutsideKeepsJob(old(Now()), script[0].others);
      if id in orders && orders[id].inventory == ReservationPending {
        orders := orders[id := orders[id].(inventory := ReleasePending)];
      }
      job := Some(job.value.(pc := Restoring));
      halted, rest := None, script[1..];
    }

    /** `_restore_order_inventory`: after a reported failure the ledger has the last word. */
    method RestoreOrderInventory(id: OrderId, items: seq<Item>, script: seq<Tick>)
        returns (halted: Option<UndoOutcome>, rest: seq<Tick>)
      requires Valid() && job.Some? && job.value.pc == Restoring && job.value.order == id && job.value.items == items
      modifies this, sheet
      ensures Valid() && Drive(Now(), rest) == Drive(old(Now()), script)
      ensures halted.Some? ==> job.None? && !halted.value.Done?
      ensures halted.None? ==> job == Some(old(job).value.(pc := Finishing))
      ensures StandsAs(old(orders), orders, id, ReleasePending)
    {
      hide Run, Sheets.UpdateStock, Sheets.OperationApplied;
      rest := script;
      var alive := Wait(script);
      if !alive {
        return Some(Stopped), script;
      }
      OutsideKeepsJob(old(Now()), script[0].others);
      var result := sheet.UpdateStock(items, Restore, ReleaseOp(id), script[0].fault);
      rest := script[1..];
      if result.Success? {
        job := Some(job.value.(pc := Finishing));
        return None, rest;
      }
      job := Some(job.value.(pc := VerifyingRestore));
      halted, rest := VerifyRestored(id, items, result.error, rest);
    }

    method VerifyRestored(id: OrderId, items: seq<Item>, mutationError: Error, script: seq<Tick>)
        returns (halted: Option<UndoOutcome>, rest: seq<Tick>)
      requires Valid() && job.Some? && job.value.pc == VerifyingRestore && job.value.order == id
      requires job.value.items == items
      modifies this, sheet
      ensures Valid() && Drive(Now(), rest) == Drive(old(Now()), script)
      ensures halted.Some? ==> job.None? && !halted.value.Done?
      ensures halted.None? ==> job == Some(old(job).value.(pc := Finishing))
      ensures StandsAs(old(orders), orders, id, ReleasePending)
    {
      hide Run, Sheets.OperationApplied, DeductStep, VerifyDeductStep, MarkFailedStep, ReserveStep, CheckStep,
          MarkReleaseStep, RestoreStep, FinishStep;
      rest := script;
      var alive := Wait(script);
      if !alive {
        return Some(Stopped), script;
      }
      OutsideKeepsJob(old(Now()), script[0].others);
      var applied := sheet.OperationApplied(ReleaseOp(id), items, Restore, script[0].readable);
      rest := script[1..];
      if applied == Success(true) {
        job := Some(job.value.(pc := Finishing));
        return None, rest;
      }
      job := None;
      halted := Some(Failed(mutationError));
    }

    /** The middle of `delete_order` and `_release_inventory_reservation`, which they share: settle a
        pending reservation by the ledger, then give the stock back if it was taken. */
    method ReturnStock(id: OrderId, items: seq<Item>, status: Inventory, taken: bool, script: seq<Tick>)
        returns (halted: Option<UndoOutcome>, restored: bool, rest: seq<Tick>)
      requires Valid() && job.Some? && job.value.order == id && job.value.items == items
      requires job.value.pc == if taken then Restoring else if status == ReservationPending then Checking else Finishing
      requires taken ==> status != ReservationPending
      modifies this, sheet
      ensures Valid() && Drive(Now(), rest) == Drive(old(Now()), script)
      ensures halted.Some? ==> job.None? && !halted.value.Done?
      ensures halted.None? ==> job == Some(old(job).value.(pc := Finishing))
      ensures StandsAs(old(orders), orders, id, ReleasePending)
      ensures halted.None? && status != ReservationPending ==> restored == taken
    {
      assert StandsAs(orders, orders, id, ReleasePending);
      hide *;
      halted, restored, rest := None, taken, script;
      if status == ReservationPending {
        halted, restored, rest := ReadReservation(id, items, rest);
        if halted.Some? {
          return;
        }
        if restored {
          halted, rest := MarkReleasePending(id, rest);
          if halted.Some? {
            return;
          }
        }
      }
      if restored {
        halted, rest := RestoreOrderInventory(id, items, rest);
      }
    }

    /** The writes of the last transaction of `delete_order`. */
    method DropRow(id: OrderId)
      requires Valid() && id in orders
      modifies this`orders, this`customers, this`replays
      ensures Valid() && Now() == DropOrder(old(Now()), id)
    {
      hide Debit, Conflicts;
      var row := orders[id];
      if row.totalsApplied && row.customer.Some? {
        RevertPaidCustomerUpdates(row.customer.value, SpendAmount(row));
      }
      if (Truthy(row.proofHash) || Truthy(row.referenceKey)) && !Conflicts(replays, row.proofHash, row.referenceKey) {
        replays := replays + [Replay(row.proofHash, row.referenceKey, id)];
      }
      orders := orders - {id};
    }

    /** `delete_order`. */
    method DeleteOrder(id: OrderId, script: seq<Tick>) returns (outcome: UndoOutcome)
      requires Valid() && job.None?
      modifies this, sheet
      ensures Valid() && job.None?
      ensures Now() == Drive(DeleteStep(old(Now()), id), script)
      ensures outcome.Done? <==> id in old(orders) && id !in orders
      ensures outcome.Done? && old(orders)[id].inventory != ReservationPending ==>
        (outcome.restored <==> old(orders)[id].inventory == Reserved || old(orders)[id].inventory == ReleasePending)
      ensures id !in old(orders) ==> outcome.NotDone? && Now() == old(Now())
    {
      hide Run, Drive, DropOrder;
      if id !in orders {
        IdleDrive(Now(), script);
        return NotDone;
      }
      deleting := deleting + {id};
      var items, status, restore := orders[id].items, orders[id].inventory, false;
      if status == Reserved {
        restore := true;
        orders := orders[id := orders[id].(inventory := ReleasePending)];
      } else if status == ReleasePending {
        restore := true;
      }
      job := Some(Job(Deleting, id, items, if restore then Restoring else if status == ReservationPending
          then Checking else Finishing));
      assert Now() == DeleteStep(old(Now()), id);
      hide *;
      var halted, restored, rest := ReturnStock(id, items, status, restore, script);
      if halted.Some? {
        IdleDrive(Now(), rest);
        return halted.value;
      }
      outcome := FinishDelete(id, restored, rest);
    }

    method FinishDelete(id: OrderId, restored: bool, script: seq<Tick>) returns (outcome: UndoOutcome)
      requires Valid() && job.Some? && job.value.pc == Finishing && job.value.order == id && job.value.kind == Deleting
      modifies this, sheet
      ensures Valid() && job.None?
      ensures Now() == Drive(old(Now()), script)
      ensures outcome.Done? <==> id in old(orders) && id !in orders
      ensures outcome.Done? ==> outcome.restored == restored
    {
      hide Run, DropOrder;
      var alive := Wait(script);
      if !alive {
        return Stopped;
      }
      OutsideKeepsJob(old(Now()), script[0].others);
      if id !in orders {
        job := None;
        return NotDone;
      }
      ghost var before := Now();
      DropRow(id);
      DropOrderDrops(before, id);
      job := None;
      outcome := Done(restored);
    }

    /** `_release_inventory_reservation`. */
    method ReleaseInventoryReservation(id: OrderId, script: seq<Tick>) returns (outcome: UndoOutcome)
      requires Valid() && job.None?
      modifies this, sheet
      ensures Valid() && job.None?
      ensures Now() == Drive(ReleaseStep(old(Now()), id), script)
      ensures outcome.Done? ==> id in orders && (orders[id].payment == Rejected || orders[id].payment == PaymentFailed)
      ensures outcome.Done? <==>
        id in old(orders) && old(orders)[id].inventory != Released && id in orders && orders[id].inventory == Released
      ensures outcome.Done? && old(orders)[id].inventory != ReservationPending ==> outcome.restored
      ensures id !in old(orders) || old(orders)[id].payment == ProofReceived || old(orders)[id].payment == Confirmed ==>
        outcome.NotDone? && Now() == old(Now())
    {
      hide Run, Drive;
      if id !in orders || !(orders[id].payment in {Pending, PaymentFailed, Rejected}) {
        IdleDrive(Now(), script);
        return NotDone;
      }
      var items, status, restore := orders[id].items, orders[id].inventory, false;
      if status == Reserved {
        restore := true;
        orders := orders[id := orders[id].(inventory := ReleasePending)];
      } else if status == ReleasePending {
        restore := true;
      } else if status != ReservationPending {
        IdleDrive(Now(), script);
        return NotDone;
      }
      job := Some(Job(Releasing, id, items, if restore then Restoring else Checking));
      assert Now() == ReleaseStep(old(Now()), id);
      hide *;
      var halted, restored, rest := ReturnStock(id, items, status, restore, script);
      if halted.Some? {
        IdleDrive(Now(), rest);
        return halted.value;
      }
      outcome := FinishRelease(id, restored, rest);
    }

    method FinishRelease(id: OrderId, restored: bool, script: seq<Tick>) returns (outcome: UndoOutcome)
      requires Valid() && job.Some? && job.value.pc == Finishing && job.value.order == id && job.value.kind == Releasing
      requires id in orders ==> orders[id].inventory != Released
      modifies this, sheet
      ensures Valid() && job.None?
      ensures Now() == Drive(old(Now()), script)
      ensures outcome.Done? ==> id in orders && (orders[id].payment == Rejected || orders[id].payment == PaymentFailed)
      ensures outcome.Done? <==> id in orders && orders[id].inventory == Released
      ensures outcome.Done? ==> outcome.restored == restored
    {
      hide Run, DeductStep, VerifyDeductStep, MarkFailedStep, ReserveStep, CheckStep, MarkReleaseStep, RestoreStep,
          VerifyRestoreStep;
      var alive := Wait(script);
      if !alive {
        return Stopped;
      }
      OutsideKeepsJob(old(Now()), script[0].others);
      if id !in orders || !(orders[id].payment in {Pending, PaymentFailed, Rejected}) {
        job := None;
        return NotDone;
      }
      orders := orders[id := orders[id].(inventory := Released,
                                         payment := if orders[id].payment == Pending then Rejected
                                             else orders[id].payment)];
      job := None;
      outcome := Done(restored);
    }

    // ---------------------------------------------------------------- creating

    /** The search for the newest repeated order. */
    method FindRepeated(r: Request) returns (found: Option<OrderId>)
      requires Valid()
      ensures SearchAnswers(Now(), r, found)
      ensures found.Some? ==> Retries.Reusable(Now(), r, found.value)
      ensures found.None? ==> forall id :: id in orders ==> !Retries.Reusable(Now(), r, id)
    {
      hide Repeats;
      var left := set id | id in orders && Repeats(orders[id], r);
      ghost var matches := left;
      found := None;
      while left != {}
        invariant found.None? ==> left == matches
        invariant found.Some? ==> found.value in orders && Repeats(orders[found.value], r)
        invariant left <= matches
        invariant found.Some? ==> forall id :: id in matches && id !in left ==>
            orders[id].createdAt <= orders[found.value].createdAt
        decreases |left|
      {
        var id :| id in left;
        left := left - {id};
        if found.None? || orders[found.value].createdAt < orders[id].createdAt {
          found := Some(id);
        }
      }
      assert forall id :: id in orders && Repeats(orders[id], r) ==> id in matches;
      Retries.SearchFindsExactly(Now(), r, found);
      hide Retries.Reusable;
    }

    /** The section of `create_order` under the lock. The new id is the database's choice. */
    method CreateOrder(r: Request, newId: OrderId, script: seq<Tick>)
        returns (outcome: CreateOutcome, ghost found: Option<OrderId>)
      requires Valid() && job.None? && newId !in ids && Acceptable(r)
      modifies this, sheet
      ensures Valid() && job.None?
      ensures SearchAnswers(old(Now()), r, found)
      ensures found.Some? ==> Retries.Reusable(old(Now()), r, found.value)
      ensures found.None? ==> forall id :: id in old(orders) ==> !Retries.Reusable(old(Now()), r, id)
      ensures Now() == Drive(CreateStep(old(Now()), r, found, newId), script)
      ensures outcome.Refused? <==>
        || r.customer !in old(customers)
        || (found.None? && |set id | id in old(orders) && Retries.TakesPlace(old(orders)[id], r.customer)| >= 3)
      ensures outcome.Refused? ==> Now() == old(Now())
      ensures !outcome.Refused? ==>
        (outcome.Returned? <==> found.GetOr(newId) in orders && orders[found.GetOr(newId)].inventory == Reserved)
      ensures outcome.Returned? ==> outcome.createdNew == found.None? && outcome.order == found.GetOr(newId)
    {
      hide Run, SearchAnswers, ActiveUnpaid, Retries.Reusable;
      var existing := FindRepeated(r);
      found := existing;
      Retries.SearchFindsExactly(Now(), r, found);
      if r.customer !in customers {
        return Refused, found;
      }
      var order := newId;
      if existing.Some? {
        FoundIsThere(Now(), r, existing.value);
        order := existing.value;
        if orders[order].inventory == Reserved {
          return Returned(order, false), found;
        }
      } else {
        TakesPlaceMeans(orders, r.customer);
        if |set id | id in orders && ActiveUnpaid(orders[id], r.customer)| >= MAX_ACTIVE_UNPAID_ORDERS {
          return Refused, found;
        }
        orders := orders[newId := NewOrder(r)];
        ids := ids + [newId];
      }
      job := Some(Job(Creating, order, r.items, Deducting));
      var halted, rest := DeductOrderInventory(order, r.items, script);
      if halted.Some? {
        return halted.value, found;
      }
      outcome := FinishCreate(order, existing.None?, rest);
    }

    /** `_deduct_order_inventory` and the handling of its failures. */
    method DeductOrderInventory(id: OrderId, items: seq<Item>, script: seq<Tick>)
        returns (halted: Option<CreateOutcome>, rest: seq<Tick>)
      requires Valid() && job == Some(Job(Creating, id, items, Deducting))
      modifies this, sheet
      ensures Valid() && Drive(Now(), rest) == Drive(old(Now()), script)
      ensures halted.Some? ==> job.None? && !halted.value.Returned? && !halted.value.Refused?
      ensures halted.None? ==> job == Some(Job(Creating, id, items, Reserving))
      ensures StandsAs(old(orders), orders, id, ReservationFailed)
    {
      hide Run, Sheets.UpdateStock;
      rest := script;
      var alive := Wait(script);
      if !alive {
        return Some(Unfinished), script;
      }
      OutsideKeepsJob(old(Now()), script[0].others);
      var result := sheet.UpdateStock(items, Deduct, ReserveOp(id), script[0].fault);
      rest := script[1..];
      if result.Success? {
        job := Some(job.value.(pc := Reserving));
        return None, rest;
      }
      job := Some(job.value.(pc := VerifyingDeduct));
      halted, rest := VerifyDeducted(id, items, result.error, rest);
    }

    method VerifyDeducted(id: OrderId, items: seq<Item>, mutationError: Error, script: seq<Tick>)
        returns (halted: Option<CreateOutcome>, rest: seq<Tick>)
      requires Valid() && job == Some(Job(Creating, id, items, VerifyingDeduct))
      modifies this, sheet
      ensures Valid() && Drive(Now(), rest) == Drive(old(Now()), script)
      ensures halted.Some? ==> job.None? && !halted.value.Returned? && !halted.value.Refused?
      ensures halted.None? ==> job == Some(Job(Creating, id, items, Reserving))
      ensures StandsAs(old(orders), orders, id, ReservationFailed)
    {
      hide Run, Sheets.OperationApplied;
      rest := script;
      var alive := Wait(script);
      if !alive {
        return Some(Unfinished), script;
      }
      OutsideKeepsJob(old(Now()), script[0].others);
      var applied := sheet.OperationApplied(ReserveOp(id), items, Deduct, script[0].readable);
      rest := script[1..];
      if applied.Failure? {
        job := None;
        return Some(Unfinished), rest;
      }
      if applied.value {
        job := Some(job.value.(pc := Reserving));
        return None, rest;
      }
      job := Some(job.value.(pc := MarkingFailed));
      halted, rest := MarkInventoryReservationFailed(id, mutationError, rest);
    }

    /** The writes of `_mark_inventory_reservation_failed`; the job ends with them. */
    method FailReservation(id: OrderId)
      requires Valid() && job.Some? && job.value.order == id
      modifies this
      ensures Valid() && Now() == MarkFailedStep(old(Now())) && job.None?
      ensures StandsAs(old(orders), orders, id, ReservationFailed)
    {
      if id in orders && orders[id].inventory == ReservationPending {
        orders := orders[id := orders[id].(inventory := ReservationFailed,
                                           payment := if orders[id].payment == Pending then Rejected
                                               else orders[id].payment)];
      }
      job := None;
    }

    method MarkInventoryReservationFailed(id: OrderId, error: Error, script: seq<Tick>)
        returns (halted: Option<CreateOutcome>, rest: seq<Tick>)
      requires Valid() && job.Some? && job.value.pc == MarkingFailed && job.value.order == id
      modifies this, sheet
      ensures Valid() && Drive(Now(), rest) == Drive(old(Now()), script)
      ensures halted.Some? && job.None? && !halted.value.Returned? && !halted.value.Refused?
      ensures StandsAs(old(orders), orders, id, ReservationFailed)
    {
      hide Run, DeductStep, VerifyDeductStep, MarkFailedStep, ReserveStep, CheckStep, MarkReleaseStep, RestoreStep,
          VerifyRestoreStep, FinishStep;
      rest := script;
      var alive := Wait(script);
      if !alive {
        return Some(Unfinished), script;
      }
      OutsideKeepsJob(old(Now()), script[0].others);
      FailReservation(id);
      halted, rest := Some(Unreserved(error)), script[1..];
    }

    /** The transaction of `create_order` that closes a reservation. */
    method FinishCreate(id: OrderId, createdNew: bool, script: seq<Tick>) returns (outcome: CreateOutcome)
      requires Valid() && job.Some? && job.value.pc == Reserving && job.value.order == id
      requires id in orders ==> orders[id].inventory != Reserved
      modifies this, sheet
      ensures Valid() && job.None?
      ensures Now() == Drive(old(Now()), script)
      ensures outcome.Returned? ==> outcome == Returned(id, createdNew)
      ensures outcome.Returned? <==> id in orders && orders[id].inventory == Reserved
      ensures !outcome.Refused?
    {
      hide Run, DeductStep, VerifyDeductStep, MarkFailedStep, CheckStep, MarkReleaseStep, RestoreStep,
          VerifyRestoreStep, FinishStep;
      var alive := Wait(script);
      if !alive {
        return Unfinished;
      }
      OutsideKeepsJob(old(Now()), script[0].others);
      job := None;
      if id !in orders {
        return Unfinished;
      }
      if orders[id].inventory == ReservationPending {
        orders := orders[id := orders[id].(inventory := Reserved)];
      } else if orders[id].inventory != Reserved {
        return Unfinished;
      }
      outcome := Returned(id, createdNew);
    }
  }

  lemma DropOrderDrops(s: World, id: OrderId)
    requires id in s.orders
    ensures id !in DropOrder(s, id).orders
  {
  }

  lemma TakesPlaceMeans(orders: map<OrderId, Order>, customer: CustomerId)
    ensures (set id | id in orders && ActiveUnpaid(orders[id], customer))
         == set id | id in orders && Retries.TakesPlace(orders[id], customer)
  {
  }

  lemma FoundIsThere(s: World, r: Request, found: OrderId)
    requires SearchAnswers(s, r, Some(found))
    ensures found in s.orders
    ensures (s.orders[found].inventory == ReservationPending || s.orders[found].inventory == Reserved)
  {
  }

  /** `_reserve_operation_id` and `_release_operation_id`. */
  function OperationText(op: OpId): string {
    match op
    case ReserveOp(order) => "order:" + order + ":reserve"
    case ReleaseOp(order) => "order:" + order + ":release"
  }

  /** No two operations share a ledger id, whatever the order ids contain. */
  lemma OperationTextsDiffer(a: OpId, b: OpId)
    requires OperationText(a) == OperationText(b)
    ensures a == b
  {
    var t := OperationText(a);
    assert a.ReserveOp? <==> t[|t| - 2] == 'v';
    assert b.ReserveOp? <==> t[|t| - 2] == 'v';
    assert a.order == t[6..|t| - 8] && b.order == t[6..|t| - 8];
  }
}
