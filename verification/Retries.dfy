/** What `create_order` promises about repeated requests: a retry reuses the open order, and a customer
    keeps few unpaid orders. */
module Retries {
  import opened Common
  import opened Sheets
  import opened Orders
  import opened Coherence
  import Reservation

  // ---------------------------------------------------------------- repeated requests

  /** Events that leave the order to its creation and to the customer's payment proof. */
  predicate LeavesAlone(e: Event, id: OrderId, customer: CustomerId) {
    match e
    case Pay(order, status, _) => order == id ==> status == Pending || status == ProofReceived
    case BeginDelete(order) => order != id
    case BeginRelease(order) => order != id
    case RemoveCustomer(c) => c != customer
    case _ => true
  }

  /** The order as its request made it, on its way to reserved or failed. */
  predicate Opened(s: World, id: OrderId, r: Request) {
    && id in s.orders && id in s.ids
    && var o := s.orders[id];
    && o.customer == Some(r.customer) && o.items == r.items && o.delivery == r.delivery && o.createdAt == r.now
    && (o.inventory == ReservationPending || o.inventory == Reserved || o.inventory == ReservationFailed)
    && (o.inventory != ReservationFailed ==> o.payment == Pending || o.payment == ProofReceived)
    && (s.job.Some? && s.job.value.order == id ==> s.job.value.kind == Creating && CreatingPc(s.job.value.pc))
  }

  predicate CreatingPc(pc: Pc) {
    pc == Deducting || pc == VerifyingDeduct || pc == MarkingFailed || pc == Reserving
  }

  /** A create never leaves its own steps. */
  lemma CreatingStays(s: World, fault: Fault, readable: bool)
    requires s.job.Some? && CreatingPc(s.job.value.pc)
    ensures var t := AdvanceStep(s, fault, readable); t.job.Some? ==> CreatingPc(t.job.value.pc)
  {
    hide UpdateStock, OperationApplied;
  }

  lemma TransactionKeepsOpened(s: World, id: OrderId, r: Request)
    requires Opened(s, id, r) && s.job.Some? && !Reservation.CallsSheets(s.job.value.pc)
    ensures Opened(AdvanceStep(s, NoFault, true), id, r)
  {
    hide UpdateStock, OperationApplied, Debit, KeepProof, SpendAmount, DeductStep, VerifyDeductStep, CheckStep,
      RestoreStep, VerifyRestoreStep;
  }

  lemma AdvanceKeepsOpened(s: World, fault: Fault, readable: bool, id: OrderId, r: Request)
    requires Opened(s, id, r)
    ensures Opened(AdvanceStep(s, fault, readable), id, r)
  {
    hide DeductStep, VerifyDeductStep, CheckStep, RestoreStep, VerifyRestoreStep, MarkFailedStep, ReserveStep,
      MarkReleaseStep, FinishStep;
    if s.job.Some? && Reservation.CallsSheets(s.job.value.pc) {
      Reservation.SheetsCallOnly(s, fault, readable);
      if s.job.value.order == id {
        CreatingStays(s, fault, readable);
      }
    } else if s.job.Some? {
      TransactionKeepsOpened(s, id, r);
    }
  }

  lemma StepKeepsOpened(s: World, e: Event, id: OrderId, r: Request)
    requires Opened(s, id, r) && LeavesAlone(e, id, r.customer)
    ensures Opened(Step(s, e), id, r)
  {
    hide AdvanceStep, Credit, Debit, Replayed, SearchAnswers, ActiveUnpaidCount, Acceptable, SpendAmount;
    if e.Advance? {
      AdvanceKeepsOpened(s, e.fault, e.readable, id, r);
    }
  }

  lemma {:induction false} RunKeepsOpened(s: World, events: seq<Event>, id: OrderId, r: Request)
    requires Opened(s, id, r) && forall i :: 0 <= i < |events| ==> LeavesAlone(events[i], id, r.customer)
    ensures Opened(Run(s, events), id, r)
  {
    hide Step, Opened, LeavesAlone;
    if events != [] {
      var n := |events| - 1;
      RunKeepsOpened(s, events[..n], id, r);
      StepKeepsOpened(Run(s, events[..n]), events[n], id, r);
    }
  }

  /** The order is for what the request asks, by whom and how, field by field. */
  predicate SameOrder(o: Order, r: Request) {
    && o.customer == Some(r.customer) && o.items == r.items
    && o.delivery.paymentMethod == r.delivery.paymentMethod
    && o.delivery.city == r.delivery.city && o.delivery.address == r.delivery.address
    && o.delivery.carrier == r.delivery.carrier && o.delivery.fulfillment == r.delivery.fulfillment
    && o.delivery.zone == r.delivery.zone && o.delivery.agency == r.delivery.agency
    && o.delivery.fee == r.delivery.fee
  }

  /** It is unpaid or waits for its proof, and its reservation is pending, or was created at most half
      an hour ago. */
  predicate StillOpen(o: Order, now: int) {
    && (o.payment == Pending || o.payment == ProofReceived)
    && (o.inventory == ReservationPending || (o.inventory == Reserved && now - o.createdAt <= 1800))
  }

  predicate Reusable(s: World, r: Request, id: OrderId) {
    id in s.orders && SameOrder(s.orders[id], r) && StillOpen(s.orders[id], r.now)
  }

  /** The search answers the newest open order for the same, field by field, and nothing exactly when
      there is none. */
  lemma SearchFindsExactly(s: World, r: Request, found: Option<OrderId>)
    ensures SearchAnswers(s, r, found) <==>
      if found.Some?
      then Reusable(s, r, found.value)
           && forall id :: id in s.orders && Reusable(s, r, id) ==>
                s.orders[id].createdAt <= s.orders[found.value].createdAt
      else forall id :: id in s.orders ==> !Reusable(s, r, id)
  {
    forall id | id in s.orders
      ensures Repeats(s.orders[id], r) <==> Reusable(s, r, id)
    {
      RepeatsMeans(s.orders[id], r);
    }
    hide Repeats, SameOrder, StillOpen;
  }

  lemma RepeatsMeans(o: Order, r: Request)
    ensures Repeats(o, r) <==> SameOrder(o, r) && StillOpen(o, r.now)
  {
    assert o.delivery == r.delivery <==>
      Delivery(o.delivery.paymentMethod, o.delivery.city, o.delivery.address, o.delivery.carrier,
          o.delivery.fulfillment,
               o.delivery.zone, o.delivery.agency, o.delivery.fee)
      == Delivery(r.delivery.paymentMethod, r.delivery.city, r.delivery.address, r.delivery.carrier,
                  r.delivery.fulfillment, r.delivery.zone, r.delivery.agency, r.delivery.fee);
  }

  /** An order that takes up one of a customer's three places. */
  predicate TakesPlace(o: Order, customer: CustomerId) {
    && o.customer == Some(customer) && (o.payment == Pending || o.payment == ProofReceived)
    && (o.inventory == ReservationPending || o.inventory == Reserved || o.inventory == LegacyUnknown)
  }

  /** A request that no open order matches in every field, of a customer with fewer than three places
      taken, inserts its own row: with all it asked for, unpaid, without a proof and pending. */
  lemma OtherRequestInserts(s: World, r: Request, newId: OrderId)
    requires s.job.None? && Acceptable(r) && r.customer in s.customers && newId !in s.ids
    requires forall id :: id in s.orders ==> !Reusable(s, r, id)
    requires |set id | id in s.orders && TakesPlace(s.orders[id], r.customer)| < 3
    ensures var t := Step(s, BeginCreate(r, None, newId));
      && t.ids == s.ids + [newId]
      && t.orders
           == s.orders[newId := Order(Some(r.customer), r.items, r.delivery, r.total, Some(r.merchandise), Pending,
                                             None, None, ReservationPending, false, r.now)]
      && t.job == Some(Job(Creating, newId, r.items, Deducting))
    ensures forall found: OrderId :: Step(s, BeginCreate(r, Some(found), newId)) == s
  {
    SearchFindsExactly(s, r, None);
    forall found: OrderId
      ensures !SearchAnswers(s, r, Some(found))
    {
      SearchFindsExactly(s, r, Some(found));
    }
    assert ActiveUnpaidCount(s, r.customer) == |set id | id in s.orders && TakesPlace(s.orders[id], r.customer)| by {
      assert (set id | id in s.orders && ActiveUnpaid(s.orders[id], r.customer))
          == set id | id in s.orders && TakesPlace(s.orders[id], r.customer);
    }
    hide SearchAnswers, Reusable, ActiveUnpaidCount, TakesPlace, Acceptable;
  }

  /** With three places taken, a request for anything new is refused. */
  lemma FourthRequestRefused(s: World, r: Request, existing: Option<OrderId>, newId: OrderId)
    requires forall id :: id in s.orders ==> !Reusable(s, r, id)
    requires |set id | id in s.orders && TakesPlace(s.orders[id], r.customer)| >= 3
    ensures Step(s, BeginCreate(r, existing, newId)) == s
  {
    SearchFindsExactly(s, r, existing);
    assert ActiveUnpaidCount(s, r.customer) == |set id | id in s.orders && TakesPlace(s.orders[id], r.customer)| by {
      assert (set id | id in s.orders && ActiveUnpaid(s.orders[id], r.customer))
          == set id | id in s.orders && TakesPlace(s.orders[id], r.customer);
    }
    hide SearchAnswers, Reusable, ActiveUnpaidCount, TakesPlace, Acceptable;
  }

  /** An order that answers the search keeps a new row out, whichever answer the search gives. */
  lemma FoundMeansNoNewRow(s: World, r: Request, id: OrderId, existing: Option<OrderId>, newId: OrderId)
    requires id in s.orders && Repeats(s.orders[id], r)
    ensures CreateStep(s, r, existing, newId).orders == s.orders && CreateStep(s, r, existing, newId).ids == s.ids
  {
    hide Repeats, Acceptable;
  }

  lemma InsertedIsOpened(s: World, r: Request, id: OrderId)
    requires id !in s.orders && id in Step(s, BeginCreate(r, None, id)).orders
    ensures Opened(Step(s, BeginCreate(r, None, id)), id, r)
  {
    hide SearchAnswers, ActiveUnpaidCount, Acceptable;
  }

  /** A pending reservation is found at any time, a reserved order for half an hour. */
  predicate StillFound(o: Order, now: int) {
    o.inventory == ReservationPending || (o.inventory == Reserved && now <= o.createdAt + DUPLICATE_WINDOW_SECONDS)
  }

  lemma OpenedRepeats(t: World, id: OrderId, r: Request, now: int)
    requires Opened(t, id, r)
    ensures StillFound(t.orders[id], now) <==> Repeats(t.orders[id], r.(now := now))
  {
  }

  /** A repeated request, whatever crashes, cancellations, payment proofs and other orders come in
      between, adds no second order while the first is pending, however late, or was reserved less
      than half an hour ago. */
  lemma RetryAddsNothing(s: World, r: Request, id: OrderId, events: seq<Event>, now: int,
                         existing: Option<OrderId>, newId: OrderId)
    requires id !in s.orders && id in Step(s, BeginCreate(r, None, id)).orders
    requires forall i :: 0 <= i < |events| ==> LeavesAlone(events[i], id, r.customer)
    ensures var t := Run(Step(s, BeginCreate(r, None, id)), events);
      && id in t.orders
      && (StillFound(t.orders[id], now) ==>
            var again := Step(t, BeginCreate(r.(now := now), existing, newId));
            again.orders == t.orders && again.ids == t.ids)
  {
    var begun := Step(s, BeginCreate(r, None, id));
    InsertedIsOpened(s, r, id);
    hide Run, Step;
    RunKeepsOpened(begun, events, id, r);
    var t := Run(begun, events);
    CreateIsStep(t, r.(now := now), existing, newId);
    hide CreateStep, Repeats;
    OpenedRepeats(t, id, r, now);
    if StillFound(t.orders[id], now) {
      FoundMeansNoNewRow(t, r.(now := now), id, existing, newId);
    }
  }

  // ---------------------------------------------------------------- the limit on unpaid orders

  function ActiveOrders(s: World, customer: CustomerId): set<OrderId> {
    set id | id in s.orders && ActiveUnpaid(s.orders[id], customer)
  }

  /** A payment update that takes an order back among the unpaid ones. */
  predicate Reopens(s: World, e: Event) {
    && e.Pay? && PayAccepted(s, e.order, e.status, e.proof)
    && (e.status == Pending || e.status == ProofReceived)
    && s.orders[e.order].payment != Pending && s.orders[e.order].payment != ProofReceived
  }

  /** The reopening that takes a customer past the limit: of one of the customer's own orders, whose
      stock is still held, when three others are active. */
  predicate Overflows(s: World, e: Event, customer: CustomerId) {
    && Reopens(s, e) && s.orders[e.order].customer == Some(customer)
    && (s.orders[e.order].inventory == ReservationPending || s.orders[e.order].inventory == Reserved
        || s.orders[e.order].inventory == LegacyUnknown)
    && |ActiveOrders(s, customer)| == MAX_ACTIVE_UNPAID_ORDERS
  }

  lemma FinishAddsNoActive(s: World, customer: CustomerId, id: OrderId)
    requires s.job.Some? && id in FinishStep(s).orders && ActiveUnpaid(FinishStep(s).orders[id], customer)
    ensures id in s.orders && ActiveUnpaid(s.orders[id], customer)
  {
    hide Debit, KeepProof, SpendAmount;
  }

  lemma AdvanceAddsNoActive(s: World, fault: Fault, readable: bool, customer: CustomerId, id: OrderId)
    requires var t := AdvanceStep(s, fault, readable); id in t.orders && ActiveUnpaid(t.orders[id], customer)
    ensures id in s.orders && ActiveUnpaid(s.orders[id], customer)
  {
    hide UpdateStock, OperationApplied, FinishStep;
    if s.job.Some? && s.job.value.pc == Finishing {
      FinishAddsNoActive(s, customer, id);
    }
  }

  /** Only an insertion, or a reopening, adds an active unpaid order. */
  lemma StepAddsNoActive(s: World, e: Event, customer: CustomerId, id: OrderId)
    requires !Reopens(s, e) && !e.BeginCreate?
    requires id in Step(s, e).orders && ActiveUnpaid(Step(s, e).orders[id], customer)
    ensures id in s.orders && ActiveUnpaid(s.orders[id], customer)
  {
    hide AdvanceStep, Credit, Debit, Replayed, SpendAmount;
    if e.Advance? {
      AdvanceAddsNoActive(s, e.fault, e.readable, customer, id);
    }
  }

  lemma CreateKeepsLimit(s: World, r: Request, existing: Option<OrderId>, newId: OrderId, customer: CustomerId)
    requires |ActiveOrders(s, customer)| <= MAX_ACTIVE_UNPAID_ORDERS
    ensures |ActiveOrders(CreateStep(s, r, existing, newId), customer)| <= MAX_ACTIVE_UNPAID_ORDERS
  {
    hide SearchAnswers, Acceptable;
    var t := CreateStep(s, r, existing, newId);
    if t.orders == s.orders {
      assert ActiveOrders(t, customer) == ActiveOrders(s, customer);
    } else if customer == r.customer {
      assert ActiveOrders(s, customer) == set id | id in s.orders && ActiveUnpaid(s.orders[id], r.customer);
      assert ActiveOrders(t, customer) <= ActiveOrders(s, customer) + {newId};
      SubsetSize(ActiveOrders(t, customer), ActiveOrders(s, customer) + {newId});
    } else {
      assert ActiveOrders(t, customer) <= ActiveOrders(s, customer);
      SubsetSize(ActiveOrders(t, customer), ActiveOrders(s, customer));
    }
  }

  lemma OtherStepsKeepLimit(s: World, e: Event, customer: CustomerId)
    requires !Reopens(s, e) && |ActiveOrders(s, customer)| <= MAX_ACTIVE_UNPAID_ORDERS
    ensures |ActiveOrders(Step(s, e), customer)| <= MAX_ACTIVE_UNPAID_ORDERS
  {
    hide Step, Reopens, ActiveUnpaid;
    if e.BeginCreate? {
      CreateKeepsLimit(s, e.request, e.existing, e.newId, customer);
      CreateIsStep(s, e.request, e.existing, e.newId);
    } else {
      forall id | id in ActiveOrders(Step(s, e), customer)
        ensures id in ActiveOrders(s, customer)
      {
        StepAddsNoActive(s, e, customer, id);
      }
      SubsetSize(ActiveOrders(Step(s, e), customer), ActiveOrders(s, customer));
    }
  }

  /** A payment update touches its own order only, and not its stock. */
  lemma PayOrders(s: World, id: OrderId, status: Payment, proof: Option<Proof>)
    requires PayAccepted(s, id, status, proof)
    ensures var t := Step(s, Pay(id, status, proof));
      && id in t.orders && t.orders == s.orders[id := t.orders[id]]
      && t.orders[id].customer == s.orders[id].customer && t.orders[id].inventory == s.orders[id].inventory
      && t.orders[id].payment == status
  {
    hide Credit, Debit, SpendAmount, Replayed;
  }

  lemma ReopeningActive(s: World, e: Event, customer: CustomerId)
    requires Reopens(s, e)
    ensures var held := s.orders[e.order].inventory;
      var counts := s.orders[e.order].customer == Some(customer)
                    && (held == ReservationPending || held == Reserved || held == LegacyUnknown);
      && e.order !in ActiveOrders(s, customer)
      && ActiveOrders(Step(s, e), customer) == ActiveOrders(s, customer) + (if counts then {e.order} else {})
  {
    PayOrders(s, e.order, e.status, e.proof);
    hide Step, Replayed;
  }

  /** From at most three active unpaid orders, a step takes the customer past three exactly when it
      reopens one of the customer's own orders, with its stock still held, while three are active. */
  lemma LimitPassedExactly(s: World, e: Event, customer: CustomerId)
    requires |ActiveOrders(s, customer)| <= MAX_ACTIVE_UNPAID_ORDERS
    ensures |ActiveOrders(Step(s, e), customer)| > MAX_ACTIVE_UNPAID_ORDERS <==> Overflows(s, e, customer)
  {
    if Reopens(s, e) {
      ReopeningActive(s, e, customer);
    } else {
      OtherStepsKeepLimit(s, e, customer);
    }
    hide Step, Reopens, ActiveOrders;
  }

  predicate WithinLimit(s: World, events: seq<Event>, customer: CustomerId) {
    forall k :: 0 <= k <= |events| ==> |ActiveOrders(Run(s, events[..k]), customer)| <= MAX_ACTIVE_UNPAID_ORDERS
  }

  predicate NeverOverflows(s: World, events: seq<Event>, customer: CustomerId) {
    forall k :: 0 <= k < |events| ==> !Overflows(Run(s, events[..k]), events[k], customer)
  }

  lemma RunNext(s: World, events: seq<Event>, k: nat)
    requires k < |events|
    ensures Run(s, events[..k + 1]) == Step(Run(s, events[..k]), events[k])
  {
    assert events[..k + 1][..k] == events[..k];
  }

  /** A run that starts within the limit stays within it throughout exactly when none of its steps is
      such a reopening. */
  lemma RunKeepsLimitExactly(s: World, events: seq<Event>, customer: CustomerId)
    requires |ActiveOrders(s, customer)| <= MAX_ACTIVE_UNPAID_ORDERS
    ensures WithinLimit(s, events, customer) <==> NeverOverflows(s, events, customer)
  {
    hide Step, Overflows, ActiveOrders;
    if WithinLimit(s, events, customer) {
      forall k | 0 <= k < |events|
        ensures !Overflows(Run(s, events[..k]), events[k], customer)
      {
        RunNext(s, events, k);
        assert |ActiveOrders(Run(s, events[..k]), customer)| <= MAX_ACTIVE_UNPAID_ORDERS;
        assert |ActiveOrders(Run(s, events[..k + 1]), customer)| <= MAX_ACTIVE_UNPAID_ORDERS;
        LimitPassedExactly(Run(s, events[..k]), events[k], customer);
      }
    }
    if NeverOverflows(s, events, customer) {
      forall k | 0 <= k <= |events|
        ensures |ActiveOrders(Run(s, events[..k]), customer)| <= MAX_ACTIVE_UNPAID_ORDERS
      {
        PrefixWithinLimit(s, events, customer, k);
      }
    }
  }

  lemma {:induction false} PrefixWithinLimit(s: World, events: seq<Event>, customer: CustomerId, k: nat)
    requires |ActiveOrders(s, customer)| <= MAX_ACTIVE_UNPAID_ORDERS && NeverOverflows(s, events, customer)
    requires k <= |events|
    ensures |ActiveOrders(Run(s, events[..k]), customer)| <= MAX_ACTIVE_UNPAID_ORDERS
  {
    hide Step, Overflows, ActiveOrders;
    if k > 0 {
      PrefixWithinLimit(s, events, customer, k - 1);
      RunNext(s, events, k - 1);
      LimitPassedExactly(Run(s, events[..k - 1]), events[k - 1], customer);
    } else {
      assert events[..0] == [];
    }
  }

  lemma CreateIsStep(s: World, r: Request, existing: Option<OrderId>, newId: OrderId)
    ensures Step(s, BeginCreate(r, existing, newId)) == CreateStep(s, r, existing, newId)
  {
  }

  // ---------------------------------------------------------------- four orders at once

  /** The k-th further request of the customer: the same shirt, delivered for another fee. */
  function Ask(k: int): Request {
    ASK.(delivery := NOWHERE.(fee := k))
  }

  /** The shop between two calls, with `active` the customer's unpaid orders; the first order is
      reserved, and no order asks for a fee of `k` or more. */
  predicate Between(s: World, ids: seq<OrderId>, k: int, active: set<OrderId>) {
    && s.ids == ids && s.job.None? && "c" in s.customers
    && (forall x :: x in s.orders ==> x in ids && s.orders[x].delivery.fee < k)
    && ActiveOrders(s, "c") == active
    && "o" in s.orders && s.orders["o"].inventory == Reserved && s.orders["o"].customer == Some("c")
  }

  /** One order reserved without a fault. */
  lemma FirstReserved(events: seq<Event>)
    requires events == [BeginCreate(ASK, None, "o"), Advance(NoFault, true), Advance(NoFault, true)]
    ensures Between(Run(Shop(), events), ["o"], 1, {"o"})
  {
    assert events[..0] == [] && events[..3] == events;
    RunNext(Shop(), events, 0);
    RunNext(Shop(), events, 1);
    RunNext(Shop(), events, 2);
    hide Run;
    UnluckyStart();
    var s1 := FirstDeducted();
    FirstSettles(s1);
  }

  lemma FirstDeducted() returns (t: World)
    ensures t == Stage(ReservationPending, 7, [FIRST], Some([FIRST]), Some(Reserving))
    ensures Step(Stage(ReservationPending, 10, [], None, Some(Deducting)), Advance(NoFault, true)) == t
  {
    var s := Stage(ReservationPending, 10, [], None, Some(Deducting));
    ShirtDeduction(s.sheet, 10, NoFault);
    hide UpdateStock;
    t := Step(s, Advance(NoFault, true));
  }

  lemma FirstSettles(s: World)
    requires s == Stage(ReservationPending, 7, [FIRST], Some([FIRST]), Some(Reserving))
    ensures Between(Step(s, Advance(NoFault, true)), ["o"], 1, {"o"})
  {
    hide UpdateStock;
  }

  /** An abandoned create leaves one more active order. */
  lemma OneMore(s: World, ids: seq<OrderId>, k: int, active: set<OrderId>, id: OrderId)
    requires Between(s, ids, k, active) && id !in ids && |active| < MAX_ACTIVE_UNPAID_ORDERS
    ensures Between(Step(Step(s, BeginCreate(Ask(k), None, id)), Abort), ids + [id], k + 1, active + {id})
  {
    assert (set x | x in s.orders && TakesPlace(s.orders[x], "c")) == ActiveOrders(s, "c");
    assert Acceptable(Ask(k));
    OtherRequestInserts(s, Ask(k), id);
    var t := Step(s, BeginCreate(Ask(k), None, id));
    hide Step, Reusable;
    InsertedBetween(s, t, ids, k, active, id);
  }

  lemma InsertedBetween(s: World, t: World, ids: seq<OrderId>, k: int, active: set<OrderId>, id: OrderId)
    requires Between(s, ids, k, active) && id !in ids
    requires t.ids == s.ids + [id] && t.orders == s.orders[id := NewOrder(Ask(k))] && "c" in t.customers
    ensures Between(Step(t, Abort), ids + [id], k + 1, active + {id})
  {
    assert ActiveOrders(t, "c") == active + {id};
  }

  /** Setting the first order to confirmed, or back to pending. */
  lemma FirstPaid(s: World, ids: seq<OrderId>, k: int, active: set<OrderId>, status: Payment)
    requires Between(s, ids, k, active) && (status == Confirmed || status == Pending)
    ensures Between(Step(s, Pay("o", status, None)), ids, k, active - {"o"} + (if status == Pending then {"o"} else {}))
  {
    PayKeepsCustomers(s, "o", status, "c");
    hide Credit, Debit, SpendAmount, Replayed;
  }

  lemma PayKeepsCustomers(s: World, id: OrderId, status: Payment, customer: CustomerId)
    requires customer in s.customers
    ensures customer in Step(s, Pay(id, status, None)).customers
  {
    hide SyncTags, SpendAmount;
  }

  lemma RunAppends(s: World, events: seq<Event>, e: Event)
    ensures Run(s, events + [e]) == Step(Run(s, events), e)
  {
    assert (events + [e])[..|events|] == events;
  }

  lemma RunOneMore(events: seq<Event>, ids: seq<OrderId>, k: int, active: set<OrderId>, id: OrderId)
      returns (more: seq<Event>)
    requires Between(Run(Shop(), events), ids, k, active) && id !in ids && |active| < MAX_ACTIVE_UNPAID_ORDERS
    ensures Between(Run(Shop(), more), ids + [id], k + 1, active + {id})
  {
    hide *;
    more := events + [BeginCreate(Ask(k), None, id)] + [Abort];
    RunAppends(Shop(), events, BeginCreate(Ask(k), None, id));
    RunAppends(Shop(), events + [BeginCreate(Ask(k), None, id)], Abort);
    OneMore(Run(Shop(), events), ids, k, active, id);
  }

  lemma ThreeMore(events: seq<Event>, ids: seq<OrderId>, p: OrderId, q: OrderId, r: OrderId) returns (more: seq<Event>)
    requires Between(Run(Shop(), events), ids, 1, {})
    requires p !in ids && q !in ids && r !in ids && p != q && p != r && q != r
    ensures Between(Run(Shop(), more), ids + [p] + [q] + [r], 4, {} + {p} + {q} + {r})
  {
    assert MAX_ACTIVE_UNPAID_ORDERS == 3;
    hide *;
    more := RunOneMore(events, ids, 1, {}, p);
    more := RunOneMore(more, ids + [p], 2, {} + {p}, q);
    more := RunOneMore(more, ids + [p] + [q], 3, {} + {p} + {q}, r);
  }

  lemma PaidThenFour(paid: seq<Event>, o: OrderId, p: OrderId, q: OrderId, r: OrderId) returns (events: seq<Event>)
    requires Between(Run(Shop(), paid), [o], 1, {}) && o == "o"
    requires p != o && q != o && r != o && p != q && p != r && q != r
    ensures ActiveOrders(Run(Shop(), events), "c") == {o, p, q, r}
  {
    hide *;
    events := ThreeMore(paid, [o], p, q, r);
    var ids, active := [o] + [p] + [q] + [r], {} + {p} + {q} + {r};
    RunAppends(Shop(), events, Pay("o", Pending, None));
    FirstPaid(Run(Shop(), events), ids, 4, active, Pending);
    events := events + [Pay("o", Pending, None)];
    BetweenShows(Run(Shop(), events), ids, 4, active - {o} + {o});
    assert active - {o} + {o} == {o, p, q, r};
  }

  /** From an empty shop: an order is paid, three more are opened, and the first is set back to
      pending. The customer then has four active unpaid orders. */
  lemma FourActiveOrders() returns (events: seq<Event>)
    ensures Reservation.Init(Shop()) && ActiveOrders(Run(Shop(), events), "c") == {"o", "p", "q", "r"}
    ensures |ActiveOrders(Run(Shop(), events), "c")| == 4
  {
    hide *;
    ShopOpens();
    events := [BeginCreate(ASK, None, "o"), Advance(NoFault, true), Advance(NoFault, true)];
    FirstReserved(events);
    RunAppends(Shop(), events, Pay("o", Confirmed, None));
    FirstPaid(Run(Shop(), events), ["o"], 1, {"o"}, Confirmed);
    assert {"o"} - {"o"} + {} == {};
    events := PaidThenFour(events + [Pay("o", Confirmed, None)], "o", "p", "q", "r");
  }

  lemma ShopOpens()
    ensures Reservation.Init(Shop())
  {
    hide Step;
  }

  lemma BetweenShows(s: World, ids: seq<OrderId>, k: int, active: set<OrderId>)
    requires Between(s, ids, k, active)
    ensures ActiveOrders(s, "c") == active
  {
  }
}
