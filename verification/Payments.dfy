/** Payment updates, derived customer totals and payment proofs, over the same runs as the saga. */
module Payments {
  import opened Common
  import opened Sheets
  import opened Orders
  import opened Reservation

  // ---------------------------------------------------------------- tier tags

  /** What earns the two tier tags: two orders, and three orders or 100.00 spent. */
  predicate Earned(tag: string, c: Customer) {
    || (tag == "repeat_buyer" && c.totalOrders >= 2)
    || (tag == "vip" && (c.totalOrders >= 3 || c.totalSpent >= 10000))
  }

  /** The two tier tags say what the totals say. */
  predicate TiersFit(c: Customer) {
    && ("repeat_buyer" in c.tags <==> Earned("repeat_buyer", c))
    && ("vip" in c.tags <==> Earned("vip", c))
  }

  lemma {:induction false} KeptTagIn(tags: seq<string>, c: Customer, tag: string)
    ensures tag in KeptTags(tags, c) <==> tag in tags && Wanted(tag, c)
  {
    hide Wanted;
    if tags != [] {
      var n := |tags| - 1;
      KeptTagIn(tags[..n], c, tag);
      assert tags == tags[..n] + [tags[n]];
    }
  }

  /** What a sync does to one tag. */
  lemma SyncTagIn(c: Customer, tag: string)
    ensures tag in SyncTags(c).tags <==>
      if tag == "repeat_buyer" then WantsRepeatBuyer(c.totalOrders)
      else if tag == "vip" then WantsVip(c.totalOrders, c.totalSpent)
      else tag in c.tags
  {
    hide WantsRepeatBuyer, WantsVip;
    KeptTagIn(c.tags, c, tag);
    KeptTagIn(c.tags, c, "vip");
    KeptTagIn(c.tags, c, "repeat_buyer");
  }

  /** After a sync the tier tags match the thresholds and every other tag is kept. */
  lemma SyncTagsFits(c: Customer)
    ensures TiersFit(SyncTags(c))
    ensures forall tag :: tag != "repeat_buyer" && tag != "vip" ==> (tag in SyncTags(c).tags <==> tag in c.tags)
  {
    hide SyncTags;
    forall tag
      ensures tag != "repeat_buyer" && tag != "vip" ==> (tag in SyncTags(c).tags <==> tag in c.tags)
    {
      SyncTagIn(c, tag);
    }
    SyncTagIn(c, "repeat_buyer");
    SyncTagIn(c, "vip");
    SyncKeepsTotals(c);
  }

  lemma SyncKeepsTotals(c: Customer)
    ensures SyncTags(c).totalOrders == c.totalOrders && SyncTags(c).totalSpent == c.totalSpent
  {
  }

  // ---------------------------------------------------------------- totals

  /** What an order counts with: its merchandise without delivery, or, for a row from before that
      column existed, its total. */
  function Merchandise(o: Order): int {
    match o.merchandise
    case Some(amount) => amount
    case None => o.total
  }

  function Counted(s: World, customer: CustomerId, id: OrderId): int {
    if id in s.orders && s.orders[id].customer == Some(customer) && s.orders[id].totalsApplied then 1 else 0
  }

  function Spent(s: World, customer: CustomerId, id: OrderId): int {
    if id in s.orders && s.orders[id].customer == Some(customer) && s.orders[id].totalsApplied
    then Merchandise(s.orders[id]) else 0
  }

  /** A customer's derived totals are the count and the sum of its counted orders. */
  predicate TotalsFit(s: World, customer: CustomerId) {
    customer in s.customers ==>
      && s.customers[customer].totalOrders == Sum(s.ids, id => Counted(s, customer, id))
      && s.customers[customer].totalSpent == Sum(s.ids, id => Spent(s, customer, id))
  }

  predicate AllTotalsFit(s: World) {
    forall customer :: customer in s.customers ==> TotalsFit(s, customer)
  }

  /** Orders name existing customers, and amounts are not negative. */
  predicate RowsSound(s: World) {
    && (forall id :: id in s.orders && s.orders[id].customer.Some? ==> s.orders[id].customer.value in s.customers)
    && (forall id :: id in s.orders ==> SpendAmount(s.orders[id]) >= 0)
  }

  /** Orders whose totals flag is known to follow their payment status. */
  predicate Tracked(s: World, id: OrderId) {
    id in s.orders && (id in s.updated || s.orders[id].inventory != LegacyUnknown) && s.orders[id].customer.Some?
  }

  predicate FlagsFit(s: World) {
    forall id :: id in s.orders && Tracked(s, id) ==> 
      (s.orders[id].totalsApplied <==> s.orders[id].payment == ProofReceived || s.orders[id].payment == Confirmed)
  }

  // ---------------------------------------------------------------- proofs and paid orders

  /** No hash and no reference key stands on two orders, or on an order and in the replay table. */
  predicate ProofsUnique(s: World) {
    && (forall a, b :: a in s.orders && b in s.orders && a != b ==>
         && (s.orders[a].proofHash.Some? ==> s.orders[a].proofHash != s.orders[b].proofHash)
         && (s.orders[a].referenceKey.Some? ==> s.orders[a].referenceKey != s.orders[b].referenceKey))
    && (forall a, i :: a in s.orders && 0 <= i < |s.replays| ==>
         && (s.orders[a].proofHash.Some? ==> s.orders[a].proofHash != s.replays[i].proofHash)
         && (s.orders[a].referenceKey.Some? ==> s.orders[a].referenceKey != s.replays[i].referenceKey))
  }

  /** A paid order stands outside reserved and legacy stock only once a delete has begun on it. */
  predicate PaidFits(s: World) {
    forall id :: id in s.orders && !IsUnpaid(s.orders[id].payment) ==>
      s.orders[id].inventory == Reserved || s.orders[id].inventory == LegacyUnknown || id in s.deleting
  }

  /** The cleanup job works on an unpaid order, and a delete is remembered. */
  predicate JobUnpaid(s: World) {
    s.job.Some? && s.job.value.order in s.orders ==>
      && (s.job.value.kind == Releasing ==> Releasable(s.orders[s.job.value.order].payment))
      && (s.job.value.kind == Deleting ==> s.job.value.order in s.deleting)
  }

  /** A store before its first run: only orders that predate reservations, totals and proofs in order.
      The sheet and its ledger may be anything. */
  predicate PayInit(s: World) {
    && RowsKnown(s) && s.job.None? && (forall id :: id in s.orders ==> s.orders[id].inventory == LegacyUnknown)
    && AllTotalsFit(s) && RowsSound(s) && ProofsUnique(s) && s.updated == {} && s.deleting == {}
  }

  // ---------------------------------------------------------------- rows and the lock holder

  predicate RowsKnown(s: World) {
    Distinct(s.ids) && forall id :: id in s.orders ==> id in s.ids
  }

  /** Where the lock holder may stand, given the status of its order; the ledger has no say in it. */
  predicate Stands(kind: JobKind, pc: Pc, status: Inventory) {
    match pc
    case Deducting => kind == Creating && status == ReservationPending
    case VerifyingDeduct => kind == Creating && status == ReservationPending
    case MarkingFailed => kind == Creating && status == ReservationPending
    case Reserving => kind == Creating && status == ReservationPending
    case Checking => kind != Creating && status == ReservationPending
    case MarkingRelease => kind != Creating && status == ReservationPending
    case Restoring => kind != Creating && status == ReleasePending
    case VerifyingRestore => kind != Creating && status == ReleasePending
    case Finishing =>
      kind == Deleting || (kind == Releasing && (status == ReservationPending || status == ReleasePending))
  }

  predicate JobStands(s: World) {
    s.job.Some? ==>
      var job := s.job.value;
      job.order in s.orders && Stands(job.kind, job.pc, s.orders[job.order].inventory)
  }

  /** What every run keeps of rows and lock holder, whatever the ledger copy shows. */
  predicate Orderly(s: World) {
    RowsKnown(s) && JobStands(s)
  }

  lemma PayKeepsOrderly(s: World, id: OrderId, status: Payment, proof: Option<Proof>)
    requires Orderly(s)
    ensures Orderly(PayStep(s, id, status, proof))
  {
    hide Credit, Debit, Replayed;
  }

  lemma CreateKeepsOrderly(s: World, r: Request, existing: Option<OrderId>, newId: OrderId)
    requires Orderly(s)
    ensures Orderly(CreateStep(s, r, existing, newId))
  {
    hide ActiveUnpaidCount, Acceptable;
  }

  lemma SheetsCallKeepsStand(s: World, fault: Fault, readable: bool)
    requires JobStands(s) && s.job.Some? && CallsSheets(s.job.value.pc)
    ensures JobStands(AdvanceStep(s, fault, readable))
  {
    hide UpdateStock, OperationApplied;
  }

  lemma TransactionKeepsOrderly(s: World, fault: Fault, readable: bool)
    requires Orderly(s) && s.job.Some? && !CallsSheets(s.job.value.pc)
    ensures Orderly(AdvanceStep(s, fault, readable))
  {
    hide Debit, KeepProof, DeductStep, VerifyDeductStep, CheckStep, RestoreStep, VerifyRestoreStep;
  }

  lemma StepKeepsOrderly(s: World, e: Event)
    requires Orderly(s)
    ensures Orderly(Step(s, e))
  {
    hide AdvanceStep, CreateStep, PayStep;
    match e {
      case Pay(id, status, proof) => PayKeepsOrderly(s, id, status, proof);
      case BeginCreate(r, existing, newId) => CreateKeepsOrderly(s, r, existing, newId);
      case Advance(fault, readable) => AdvanceKeepsOrderly(s, fault, readable);
      case _ =>
    }
  }

  lemma AdvanceKeepsOrderly(s: World, fault: Fault, readable: bool)
    requires Orderly(s)
    ensures Orderly(AdvanceStep(s, fault, readable))
  {
    if s.job.Some? && CallsSheets(s.job.value.pc) {
      SheetsCallKeepsStand(s, fault, readable);
      hide AdvanceStep, JobStands;
      SheetsCallOnly(s, fault, readable);
    } else if s.job.Some? {
      TransactionKeepsOrderly(s, fault, readable);
    }
  }

  lemma {:induction false} RunKeepsOrderly(s: World, events: seq<Event>)
    requires Orderly(s)
    ensures Orderly(Run(s, events))
  {
    if events != [] {
      var n := |events| - 1;
      RunKeepsOrderly(s, events[..n]);
      hide Orderly, Step;
      StepKeepsOrderly(Run(s, events[..n]), events[n]);
    }
  }

  // ---------------------------------------------------------------- what a step leaves alone

  /** The part of an order the totals depend on. */
  predicate SameTally(a: Order, b: Order) {
    a.customer == b.customer && a.totalsApplied == b.totalsApplied && SpendAmount(a) == SpendAmount(b)
  }

  lemma {:induction false} SameContributions(s: World, t: World, customer: CustomerId)
    requires t.ids == s.ids
    requires forall id :: id in s.ids ==>
        Counted(t, customer, id) == Counted(s, customer, id) && Spent(t, customer, id) == Spent(s, customer, id)
    ensures Sum(t.ids, id => Counted(t, customer, id)) == Sum(s.ids, id => Counted(s, customer, id))
    ensures Sum(t.ids, id => Spent(t, customer, id)) == Sum(s.ids, id => Spent(s, customer, id))
  {
    SumCongruent(s.ids, id => Counted(s, customer, id), id => Counted(t, customer, id));
    SumCongruent(s.ids, id => Spent(s, customer, id), id => Spent(t, customer, id));
  }

  /** One order's contribution to one customer changes. */
  lemma OneContribution(s: World, t: World, customer: CustomerId, at: OrderId)
    requires Distinct(s.ids) && t.ids == s.ids && at in s.ids
    requires forall id :: id in s.ids && id != at ==>
      Counted(t, customer, id) == Counted(s, customer, id) && Spent(t, customer, id) == Spent(s, customer, id)
    ensures Sum(t.ids, id => Counted(t, customer, id)) - Sum(s.ids, id => Counted(s, customer, id))
         == Counted(t, customer, at) - Counted(s, customer, at)
    ensures Sum(t.ids, id => Spent(t, customer, id)) - Sum(s.ids, id => Spent(s, customer, id))
         == Spent(t, customer, at) - Spent(s, customer, at)
  {
    SumChange(s.ids, id => Counted(s, customer, id), id => Counted(t, customer, id), at);
    SumChange(s.ids, id => Spent(s, customer, id), id => Spent(t, customer, id), at);
  }

  /** Any step that keeps every order's tally keeps every customer's totals. */
  lemma TallyKeepsTotals(s: World, t: World)
    requires AllTotalsFit(s) && t.ids == s.ids && t.customers == s.customers && t.orders.Keys == s.orders.Keys
    requires forall id :: id in s.orders ==> SameTally(s.orders[id], t.orders[id])
    ensures AllTotalsFit(t)
  {
    forall customer | customer in t.customers
      ensures TotalsFit(t, customer)
    {
      assert TotalsFit(s, customer);
      SameContributions(s, t, customer);
    }
  }

  // ---------------------------------------------------------------- clamps

  /** In every state whose totals fit, undoing a counted order never meets the zero clamps. */
  lemma ClampsNeverBite(s: World, id: OrderId, customer: CustomerId)
    requires AllTotalsFit(s) && RowsSound(s) && id in s.ids && id in s.orders
    requires s.orders[id].customer == Some(customer) && s.orders[id].totalsApplied
    ensures customer in s.customers
    ensures Max(s.customers[customer].totalOrders - 1, 0) == s.customers[customer].totalOrders - 1
    ensures Max(s.customers[customer].totalSpent - SpendAmount(s.orders[id]), 0)
        == s.customers[customer].totalSpent - SpendAmount(s.orders[id])
  {
    assert TotalsFit(s, customer);
    SumNonNegative(s.ids, x => Counted(s, customer, x), id);
    SumNonNegative(s.ids, x => Spent(s, customer, x), id);
  }

  /** Crediting or debiting one customer for one order keeps all totals. */
  lemma CreditKeepsTotals(s: World, t: World, id: OrderId, customer: CustomerId)
    requires AllTotalsFit(s) && RowsSound(s) && Distinct(s.ids) && id in s.ids && id in s.orders
    requires s.orders[id].customer == Some(customer) && !s.orders[id].totalsApplied
    requires t.ids == s.ids && id in t.orders && t.orders == s.orders[id := t.orders[id]]
    requires SameTally(t.orders[id], s.orders[id].(totalsApplied := true))
    requires t.customers == Credit(s.customers, customer, SpendAmount(s.orders[id]))
    ensures AllTotalsFit(t)
  {
    hide SyncTags;
    forall other | other in t.customers
      ensures TotalsFit(t, other)
    {
      assert TotalsFit(s, other);
      OneContribution(s, t, other, id);
      if other == customer {
        var c := s.customers[customer];
        SyncKeepsTotals(c.(totalOrders := c.totalOrders + 1, totalSpent := c.totalSpent + SpendAmount(s.orders[id])));
      }
    }
  }

  lemma DebitKeepsTotals(s: World, t: World, id: OrderId, customer: CustomerId)
    requires AllTotalsFit(s) && RowsSound(s) && Distinct(s.ids) && id in s.ids && id in s.orders
    requires s.orders[id].customer == Some(customer) && s.orders[id].totalsApplied
    requires t.ids == s.ids
    requires forall x :: x in s.ids && x != id ==>
        (x in t.orders <==> x in s.orders) && (x in s.orders ==> t.orders[x] == s.orders[x])
    requires id in t.orders ==> !t.orders[id].totalsApplied
    requires t.customers == Debit(s.customers, customer, SpendAmount(s.orders[id]))
    ensures AllTotalsFit(t)
  {
    hide SyncTags;
    ClampsNeverBite(s, id, customer);
    forall other | other in t.customers
      ensures TotalsFit(t, other)
    {
      assert TotalsFit(s, other);
      OneContribution(s, t, other, id);
      if other == customer {
        var c := s.customers[customer];
        SyncKeepsTotals(c.(totalOrders := c.totalOrders - 1, totalSpent := c.totalSpent - SpendAmount(s.orders[id])));
      }
    }
  }

  // ---------------------------------------------------------------- steps on totals

  lemma PayKeepsRowsSound(s: World, id: OrderId, status: Payment, proof: Option<Proof>)
    requires RowsSound(s) && id in s.orders
    ensures RowsSound(ApplyPay(s, id, status, proof))
  {
    hide SyncTags;
  }

  lemma PayKeepsTotals(s: World, id: OrderId, status: Payment, proof: Option<Proof>)
    requires AllTotalsFit(s) && RowsSound(s) && RowsKnown(s) && id in s.orders
    ensures AllTotalsFit(ApplyPay(s, id, status, proof)) && RowsSound(ApplyPay(s, id, status, proof))
  {
    hide Credit, Debit, AllTotalsFit;
    var t := ApplyPay(s, id, status, proof);
    PayKeepsRowsSound(s, id, status, proof);
    var o := s.orders[id];
    if Paid(status) && !o.totalsApplied && o.customer.Some? {
      CreditKeepsTotals(s, t, id, o.customer.value);
    } else if !Paid(status) && o.totalsApplied && o.customer.Some? {
      DebitKeepsTotals(s, t, id, o.customer.value);
    } else if o.customer.Some? {
      TallyKeepsTotals(s, t);
    } else {
      OwnerlessKeepsTotals(s, t, id);
    }
  }

  /** An order without a customer counts for nobody. */
  lemma OwnerlessKeepsTotals(s: World, t: World, id: OrderId)
    requires AllTotalsFit(s) && t.ids == s.ids && t.customers == s.customers && id in s.orders && id in t.orders
    requires t.orders == s.orders[id := t.orders[id]] && s.orders[id].customer.None? && t.orders[id].customer.None?
    ensures AllTotalsFit(t)
  {
    forall customer | customer in t.customers
      ensures TotalsFit(t, customer)
    {
      assert TotalsFit(s, customer);
      SameContributions(s, t, customer);
    }
  }

  lemma InsertKeepsTotals(s: World, r: Request, newId: OrderId)
    requires AllTotalsFit(s) && RowsSound(s) && RowsKnown(s) && newId !in s.ids && Acceptable(r)
    requires r.customer in s.customers
    ensures AllTotalsFit(Insert(s, r, newId)) && RowsSound(Insert(s, r, newId))
  {
    hide TotalsFit;
    forall customer | customer in s.customers
      ensures TotalsFit(Insert(s, r, newId), customer)
    {
      InsertKeepsOneTotal(s, r, newId, customer);
    }
  }

  /** A new order counts for nobody yet. */
  lemma InsertKeepsOneTotal(s: World, r: Request, newId: OrderId, customer: CustomerId)
    requires TotalsFit(s, customer) && RowsKnown(s) && newId !in s.ids && customer in s.customers
    ensures TotalsFit(Insert(s, r, newId), customer)
  {
    var t := Insert(s, r, newId);
    assert t.ids[..|s.ids|] == s.ids;
    SumCongruent(s.ids, id => Counted(s, customer, id), id => Counted(t, customer, id));
    SumCongruent(s.ids, id => Spent(s, customer, id), id => Spent(t, customer, id));
  }

  lemma DropKeepsTotals(s: World, id: OrderId)
    requires AllTotalsFit(s) && RowsSound(s) && RowsKnown(s) && id in s.orders
    ensures AllTotalsFit(DropOrder(s, id)) && RowsSound(DropOrder(s, id))
  {
    var t := DropOrder(s, id);
    var o := s.orders[id];
    if o.totalsApplied && o.customer.Some? {
      DebitKeepsTotals(s, t, id, o.customer.value);
    } else {
      forall customer | customer in t.customers
        ensures TotalsFit(t, customer)
      {
        assert TotalsFit(s, customer);
        SameContributions(s, t, customer);
      }
    }
  }

  lemma AddCustomerKeepsTotals(s: World, id: CustomerId)
    requires AllTotalsFit(s) && RowsSound(s)
    ensures AllTotalsFit(AddCustomerStep(s, id)) && RowsSound(AddCustomerStep(s, id))
  {
    var t := AddCustomerStep(s, id);
    forall customer | customer in t.customers
      ensures TotalsFit(t, customer)
    {
      if customer in s.customers {
        assert TotalsFit(s, customer);
      } else {
        SumZero(s.ids, x => Counted(t, id, x));
        SumZero(s.ids, x => Spent(t, id, x));
      }
      SameContributions(s, t, customer);
    }
  }

  lemma RemoveCustomerKeepsTotals(s: World, id: CustomerId)
    requires AllTotalsFit(s) && RowsSound(s)
    ensures AllTotalsFit(RemoveCustomerStep(s, id)) && RowsSound(RemoveCustomerStep(s, id))
  {
    var t := RemoveCustomerStep(s, id);
    forall customer | customer in t.customers
      ensures TotalsFit(t, customer)
    {
      assert TotalsFit(s, customer);
      SameContributions(s, t, customer);
    }
  }

  lemma TagsKeepTotals(s: World, id: CustomerId, tags: seq<string>)
    requires AllTotalsFit(s) && RowsSound(s)
    ensures AllTotalsFit(WriteTagsStep(s, id, tags)) && RowsSound(WriteTagsStep(s, id, tags))
  {
    var t := WriteTagsStep(s, id, tags);
    forall customer | customer in t.customers
      ensures TotalsFit(t, customer)
    {
      assert TotalsFit(s, customer);
      SameContributions(s, t, customer);
    }
  }

  // ---------------------------------------------------------------- steps on proofs

  lemma PayKeepsProofs(s: World, id: OrderId, status: Payment, proof: Option<Proof>)
    requires ProofsUnique(s) && PayAccepted(s, id, status, proof)
    ensures ProofsUnique(ApplyPay(s, id, status, proof))
  {
    hide Credit, Debit, ProofsUnique, Replayed;
    var t := ApplyPay(s, id, status, proof);
    if proof.Some? {
      NewProofKeeps(s, t, id, proof.value);
    } else {
      SameProofsKeep(s, t);
    }
  }

  /** Exactly when a payment update is accepted, and exactly what it writes on its order. */
  lemma PayAcceptedExactly(s: World, id: OrderId, status: Payment, proof: Option<Proof>)
    ensures PayAccepted(s, id, status, proof) <==>
      && id in s.orders
      && (status == ProofReceived || status == Confirmed ==>
           s.orders[id].inventory == Reserved || s.orders[id].inventory == LegacyUnknown)
      && (proof.Some? ==>
           && s.orders[id].payment == Pending
           && (forall x :: x in s.orders && x != id ==>
                s.orders[x].proofHash != Some(proof.value.hash)
                    && s.orders[x].referenceKey != Some(proof.value.reference))
           && (forall i :: 0 <= i < |s.replays| ==>
                s.replays[i].proofHash != Some(proof.value.hash)
                && s.replays[i].referenceKey != Some(proof.value.reference)))
    ensures PayAccepted(s, id, status, proof) ==>
      var o, t := s.orders[id], Step(s, Pay(id, status, proof));
      var paid := status == ProofReceived || status == Confirmed;
      t.updated == s.updated + {id} && id in t.orders && t.orders[id] ==
        o.(payment := status,
           proofHash := if proof.Some? then Some(proof.value.hash) else o.proofHash,
           referenceKey := if proof.Some? then Some(proof.value.reference) else o.referenceKey,
           totalsApplied := if paid then o.totalsApplied || o.customer.Some? else false)
    ensures !PayAccepted(s, id, status, proof) ==> Step(s, Pay(id, status, proof)) == s
  {
    hide Credit, Debit, SpendAmount;
  }

  /** A proof no other order and no replay entry carries can be stored. */
  lemma NewProofKeeps(s: World, t: World, id: OrderId, proof: Proof)
    requires ProofsUnique(s) && !Replayed(s, id, proof) && id in s.orders && id in t.orders
    requires t.replays == s.replays && t.orders == s.orders[id := t.orders[id]]
    requires t.orders[id].proofHash == Some(proof.hash) && t.orders[id].referenceKey == Some(proof.reference)
    ensures ProofsUnique(t)
  {
    forall a | a in t.orders
      ensures !Conflicts(t.replays, t.orders[a].proofHash, t.orders[a].referenceKey)
    {
      if a != id {
        assert !Conflicts(s.replays, s.orders[a].proofHash, s.orders[a].referenceKey);
      }
    }
    forall a, b | a in t.orders && b in t.orders && a != b
      ensures !SameKey(t.orders[a].proofHash, t.orders[b].proofHash)
      ensures !SameKey(t.orders[a].referenceKey, t.orders[b].referenceKey)
    {
      if a != id {
        assert !UsesProof(s.orders[a].proofHash, s.orders[a].referenceKey, proof);
      }
      if b != id {
        assert !UsesProof(s.orders[b].proofHash, s.orders[b].referenceKey, proof);
      }
    }
  }

  /** Deleting an order moves its proof into the replay table; the insert never meets a conflict. */
  lemma DropKeepsProofs(s: World, id: OrderId)
    requires ProofsUnique(s) && id in s.orders
    ensures ProofsUnique(DropOrder(s, id))
    ensures var o := s.orders[id];
      DropOrder(s, id).replays
        == if (o.proofHash.Some? && o.proofHash != Some("")) || (o.referenceKey.Some? && o.referenceKey != Some(""))
           then s.replays + [Replay(o.proofHash, o.referenceKey, id)] else s.replays
  {
    hide Debit;
    var t := DropOrder(s, id);
    forall a | a in t.orders
      ensures !Conflicts(t.replays, t.orders[a].proofHash, t.orders[a].referenceKey)
    {
      assert !Conflicts(s.replays, s.orders[a].proofHash, s.orders[a].referenceKey);
    }
  }

  /** Orders keep their proof columns. */
  lemma SameProofsKeep(s: World, t: World)
    requires ProofsUnique(s) && t.replays == s.replays && t.orders.Keys == s.orders.Keys
    requires forall id :: id in s.orders ==>
        t.orders[id].proofHash == s.orders[id].proofHash && t.orders[id].referenceKey == s.orders[id].referenceKey
    ensures ProofsUnique(t)
  {
    forall a | a in t.orders
      ensures !Conflicts(t.replays, t.orders[a].proofHash, t.orders[a].referenceKey)
    {
      assert !Conflicts(s.replays, s.orders[a].proofHash, s.orders[a].referenceKey);
    }
  }

  // ---------------------------------------------------------------- every step

  /** Nothing the payment invariants read changes, apart from the inventory column. */
  predicate PaymentsSame(s: World, t: World) {
    && t.ids == s.ids && t.customers == s.customers && t.replays == s.replays && t.updated == s.updated
    && t.orders.Keys == s.orders.Keys
    && forall id :: id in s.orders ==>
         && SameTally(s.orders[id], t.orders[id])
         && t.orders[id].proofHash == s.orders[id].proofHash && t.orders[id].referenceKey == s.orders[id].referenceKey
         && (Paid(t.orders[id].payment) <==> Paid(s.orders[id].payment))
         && (t.orders[id].inventory == LegacyUnknown <==> s.orders[id].inventory == LegacyUnknown)
  }

  predicate Books(s: World) {
    AllTotalsFit(s) && RowsSound(s) && FlagsFit(s) && ProofsUnique(s)
  }

  lemma SamePaymentsKeepBooks(s: World, t: World)
    requires Books(s) && PaymentsSame(s, t)
    ensures Books(t)
  {
    TallyKeepsTotals(s, t);
    SameProofsKeep(s, t);
  }

  /** A step that rewrites one order's inventory, and perhaps rejects its pending payment. */
  lemma OneOrderSamePayments(s: World, t: World, id: OrderId)
    requires id in s.orders && id in t.orders && t.orders == s.orders[id := t.orders[id]]
    requires t.ids == s.ids && t.customers == s.customers && t.replays == s.replays && t.updated == s.updated
    requires t.orders[id] == s.orders[id].(inventory := t.orders[id].inventory, payment := t.orders[id].payment)
    requires t.orders[id].payment == s.orders[id].payment || t.orders[id].payment == RejectPending(s.orders[id].payment)
    requires t.orders[id].inventory == LegacyUnknown <==> s.orders[id].inventory == LegacyUnknown
    ensures PaymentsSame(s, t)
  {
  }

  lemma TransactionSamePayments(s: World)
    requires Orderly(s) && s.job.Some?
    ensures s.job.value.pc == MarkingFailed ==> PaymentsSame(s, MarkFailedStep(s))
    ensures s.job.value.pc == Reserving ==> PaymentsSame(s, ReserveStep(s))
    ensures s.job.value.pc == MarkingRelease ==> PaymentsSame(s, MarkReleaseStep(s))
  {
    hide RowsKnown, PaymentsSame;
    match s.job.value.pc {
      case MarkingFailed => OneOrderSamePayments(s, MarkFailedStep(s), s.job.value.order);
      case Reserving => OneOrderSamePayments(s, ReserveStep(s), s.job.value.order);
      case MarkingRelease => OneOrderSamePayments(s, MarkReleaseStep(s), s.job.value.order);
      case _ =>
    }
  }

  lemma AdvanceSamePayments(s: World, fault: Fault, readable: bool)
    requires Orderly(s) && s.job.Some? && s.job.value.pc != Finishing
    ensures PaymentsSame(s, AdvanceStep(s, fault, readable))
  {
    hide Orderly;
    if CallsSheets(s.job.value.pc) {
      hide AdvanceStep;
      SheetsCallOnly(s, fault, readable);
    } else {
      hide PaymentsSame, MarkFailedStep, ReserveStep, MarkReleaseStep;
      TransactionSamePayments(s);
    }
  }

  lemma UndoSamePayments(s: World, kind: JobKind, id: OrderId)
    requires id in s.orders
    ensures PaymentsSame(s, BeginUndo(s, kind, id))
  {
    OneOrderSamePayments(s, BeginUndo(s, kind, id), id);
    hide PaymentsSame;
  }

  lemma SettleSamePayments(s: World)
    requires Orderly(s) && s.job.Some? && s.job.value.pc == Finishing && s.job.value.kind != Deleting
    ensures PaymentsSame(s, FinishStep(s))
  {
    hide RowsKnown, PaymentsSame;
    OneOrderSamePayments(s, FinishStep(s), s.job.value.order);
  }

  lemma PayKeepsBooks(s: World, id: OrderId, status: Payment, proof: Option<Proof>)
    requires Books(s) && RowsKnown(s) && PayAccepted(s, id, status, proof)
    ensures Books(ApplyPay(s, id, status, proof))
  {
    hide Credit, Debit, AllTotalsFit, ProofsUnique;
    PayKeepsTotals(s, id, status, proof);
    PayKeepsProofs(s, id, status, proof);
  }

  lemma InsertKeepsBooks(s: World, r: Request, newId: OrderId)
    requires Books(s) && RowsKnown(s) && newId !in s.ids && Acceptable(r) && r.customer in s.customers
    ensures Books(Insert(s, r, newId))
  {
    hide AllTotalsFit, ProofsUnique, RowsSound;
    InsertKeepsTotals(s, r, newId);
    InsertKeepsProofs(s, r, newId);
  }

  lemma InsertKeepsProofs(s: World, r: Request, newId: OrderId)
    requires ProofsUnique(s) && newId !in s.orders
    ensures ProofsUnique(Insert(s, r, newId))
  {
    var t := Insert(s, r, newId);
    forall a | a in t.orders
      ensures !Conflicts(t.replays, t.orders[a].proofHash, t.orders[a].referenceKey)
    {
      if a != newId {
        assert !Conflicts(s.replays, s.orders[a].proofHash, s.orders[a].referenceKey);
      }
    }
  }

  lemma DropKeepsBooks(s: World, id: OrderId)
    requires Books(s) && RowsKnown(s) && id in s.orders
    ensures Books(DropOrder(s, id))
  {
    hide AllTotalsFit, ProofsUnique, Debit;
    DropKeepsTotals(s, id);
    DropKeepsProofs(s, id);
  }

  lemma CustomersKeepBooks(s: World, id: CustomerId)
    requires Books(s)
    ensures Books(AddCustomerStep(s, id)) && Books(RemoveCustomerStep(s, id))
  {
    hide AllTotalsFit, ProofsUnique;
    AddCustomerKeepsTotals(s, id);
    RemoveCustomerKeepsTotals(s, id);
    SameProofsKeep(s, AddCustomerStep(s, id));
    SameProofsKeep(s, RemoveCustomerStep(s, id));
  }

  lemma TagsKeepBooks(s: World, id: CustomerId, tags: seq<string>)
    requires Books(s)
    ensures Books(WriteTagsStep(s, id, tags))
  {
    hide AllTotalsFit, ProofsUnique;
    TagsKeepTotals(s, id, tags);
    SameProofsKeep(s, WriteTagsStep(s, id, tags));
  }

  lemma FinishKeepsBooks(s: World)
    requires Books(s) && Orderly(s) && s.job.Some? && s.job.value.pc == Finishing
    ensures Books(FinishStep(s))
  {
    hide Books, DropOrder;
    var id := s.job.value.order;
    if s.job.value.kind == Deleting {
      DropKeepsBooks(s, id);
      SamePaymentsKeepBooks(DropOrder(s, id), FinishStep(s));
    } else {
      SettleSamePayments(s);
      SamePaymentsKeepBooks(s, FinishStep(s));
    }
  }

  lemma StepKeepsBooks(s: World, e: Event)
    requires Books(s) && Orderly(s)
    ensures Books(Step(s, e))
  {
    hide Books, Orderly, AdvanceStep, Insert, ApplyPay, AddCustomerStep, RemoveCustomerStep, WriteTagsStep, BeginUndo,
      Repeats;
    match e {
      case AddCustomer(id) => CustomersKeepBooks(s, id);
      case RemoveCustomer(id) => CustomersKeepBooks(s, id);
      case WriteTags(id, tags) => TagsKeepBooks(s, id, tags);
      case Pay(id, status, proof) => PayStepKeepsBooks(s, id, status, proof);
      case BeginCreate(r, existing, newId) => CreateKeepsBooks(s, r, existing, newId);
      case BeginDelete(id) => DeleteKeepsBooks(s, id);
      case BeginRelease(id) => ReleaseKeepsBooks(s, id);
      case Advance(fault, readable) => AdvanceKeepsBooks(s, fault, readable);
      case Abort => SamePaymentsKeepBooks(s, Step(s, e));
      case Restart => SamePaymentsKeepBooks(s, Step(s, e));
    }
  }

  lemma PayStepKeepsBooks(s: World, id: OrderId, status: Payment, proof: Option<Proof>)
    requires Books(s) && Orderly(s)
    ensures Books(PayStep(s, id, status, proof))
  {
    hide Books, ApplyPay;
    if PayAccepted(s, id, status, proof) {
      PayKeepsBooks(s, id, status, proof);
    }
  }

  lemma CreateKeepsBooks(s: World, r: Request, existing: Option<OrderId>, newId: OrderId)
    requires Books(s) && Orderly(s)
    ensures Books(CreateStep(s, r, existing, newId))
  {
    hide Books, Insert;
    var t := CreateStep(s, r, existing, newId);
    if t == s {
    } else if existing.None? {
      InsertKeepsBooks(s, r, newId);
    } else {
      SamePaymentsKeepBooks(s, t);
    }
  }

  lemma DeleteKeepsBooks(s: World, id: OrderId)
    requires Books(s)
    ensures Books(DeleteStep(s, id))
  {
    hide Books, BeginUndo;
    if s.job.None? && id in s.orders {
      var marked := s.(deleting := s.deleting + {id});
      SamePaymentsKeepBooks(s, marked);
      UndoSamePayments(marked, Deleting, id);
      SamePaymentsKeepBooks(marked, BeginUndo(marked, Deleting, id));
    }
  }

  lemma ReleaseKeepsBooks(s: World, id: OrderId)
    requires Books(s)
    ensures Books(ReleaseStep(s, id))
  {
    hide Books, BeginUndo;
    if s.job.None? && id in s.orders && Releasable(s.orders[id].payment) {
      UndoSamePayments(s, Releasing, id);
      SamePaymentsKeepBooks(s, BeginUndo(s, Releasing, id));
    }
  }

  lemma AdvanceKeepsBooks(s: World, fault: Fault, readable: bool)
    requires Books(s) && Orderly(s)
    ensures Books(AdvanceStep(s, fault, readable))
  {
    hide Books;
    if s.job.Some? {
      if s.job.value.pc == Finishing {
        FinishKeepsBooks(s);
      } else {
        AdvanceSamePayments(s, fault, readable);
        SamePaymentsKeepBooks(s, AdvanceStep(s, fault, readable));
      }
    }
  }

  // ---------------------------------------------------------------- paid orders

  predicate PaidInv(s: World) {
    PaidFits(s) && JobUnpaid(s)
  }

  lemma PayKeepsPaid(s: World, id: OrderId, status: Payment, proof: Option<Proof>)
    requires PaidInv(s) && Orderly(s)
    ensures PaidInv(PayStep(s, id, status, proof))
  {
    hide Credit, Debit, Replayed, RowsKnown;
  }

  lemma CreateKeepsPaid(s: World, r: Request, existing: Option<OrderId>, newId: OrderId)
    requires PaidInv(s)
    ensures PaidInv(CreateStep(s, r, existing, newId))
  {
    hide Repeats;
  }

  lemma UndoKeepsPaid(s: World, kind: JobKind, id: OrderId)
    requires PaidInv(s) && s.job.None? && id in s.orders
    requires if kind == Deleting then id in s.deleting else kind == Releasing && Releasable(s.orders[id].payment)
    ensures PaidInv(BeginUndo(s, kind, id))
  {
  }

  lemma TransactionKeepsPaid(s: World)
    requires PaidInv(s) && JobStands(s) && s.job.Some?
    ensures s.job.value.pc == MarkingFailed ==> PaidInv(MarkFailedStep(s))
    ensures s.job.value.pc == Reserving ==> PaidInv(ReserveStep(s))
    ensures s.job.value.pc == MarkingRelease ==> PaidInv(MarkReleaseStep(s))
  {
  }

  lemma FinishKeepsPaid(s: World)
    requires PaidInv(s) && s.job.Some?
    ensures PaidInv(FinishStep(s))
  {
    hide Debit, KeepProof;
  }

  lemma AdvanceKeepsPaid(s: World, fault: Fault, readable: bool)
    requires PaidInv(s) && Orderly(s)
    ensures PaidInv(AdvanceStep(s, fault, readable))
  {
    hide RowsKnown;
    if s.job.Some? {
      if CallsSheets(s.job.value.pc) {
        hide AdvanceStep;
        SheetsCallOnly(s, fault, readable);
      } else {
        hide MarkFailedStep, ReserveStep, MarkReleaseStep, FinishStep, JobStands, PaidInv;
        TransactionKeepsPaid(s);
        FinishKeepsPaid(s);
      }
    }
  }

  lemma StepKeepsPaid(s: World, e: Event)
    requires PaidInv(s) && Orderly(s)
    ensures PaidInv(Step(s, e))
  {
    hide Orderly, AdvanceStep, CreateStep, PayStep, BeginUndo;
    match e {
      case Pay(id, status, proof) => PayKeepsPaid(s, id, status, proof);
      case BeginCreate(r, existing, newId) => CreateKeepsPaid(s, r, existing, newId);
      case BeginDelete(id) =>
        if s.job.None? && id in s.orders { UndoKeepsPaid(s.(deleting := s.deleting + {id}), Deleting, id); }
      case BeginRelease(id) =>
        if s.job.None? && id in s.orders && Releasable(s.orders[id].payment) { UndoKeepsPaid(s, Releasing, id); }
      case Advance(fault, readable) => AdvanceKeepsPaid(s, fault, readable);
      case _ =>
    }
  }

  /** In every reachable state, whatever the ledger copy shows and whoever wrote tags, customer totals
      are those of the counted orders, the totals flag follows the payment status, no proof appears
      twice among orders and replay table, and a paid order is outside reserved stock only once a
      delete has begun on it. */
  lemma {:induction false} RunKeepsPayments(s: World, events: seq<Event>)
    requires PayInit(s)
    ensures Books(Run(s, events)) && PaidInv(Run(s, events))
  {
    hide Books, PaidInv, Step, Orderly, PayInit;
    InitBooks(s);
    if events != [] {
      var n := |events| - 1;
      RunKeepsPayments(s, events[..n]);
      RunKeepsOrderly(s, events[..n]);
      StepKeepsBooks(Run(s, events[..n]), events[n]);
      StepKeepsPaid(Run(s, events[..n]), events[n]);
    }
  }

  lemma InitBooks(s: World)
    requires PayInit(s)
    ensures Books(s) && PaidInv(s) && Orderly(s)
  {
  }

  predicate IsUnpaid(p: Payment) {
    p == Pending || p == PaymentFailed || p == Rejected
  }

  /** The cleanup job restores stock of unpaid orders only, and its final payment recheck never
      fails: the row is there and the order is still unpaid, and it ends released, and rejected if it was
      pending. */
  lemma CleanupNeverUndoesPaid(s: World, events: seq<Event>)
    requires PayInit(s)
    ensures var t := Run(s, events);
      t.job.Some? && t.job.value.kind == Releasing ==>
        && t.job.value.order in t.orders
        && IsUnpaid(t.orders[t.job.value.order].payment)
        && (t.job.value.pc == Finishing ==>
              FinishStep(t).orders[t.job.value.order].inventory == Released
              && (var p := FinishStep(t).orders[t.job.value.order].payment; p == Rejected || p == PaymentFailed))
  {
    hide Books, RowsKnown, Run;
    InitBooks(s);
    RunKeepsPayments(s, events);
    RunKeepsOrderly(s, events);
  }

  // ---------------------------------------------------------------- no payment after a release began

  /** The order is gone, or its release has begun and it is not newly paid. */
  predicate StaysUndone(t: World, id: OrderId, before: Payment) {
    && id in t.ids
    && (id in t.orders ==>
         && (t.orders[id].inventory == ReleasePending || t.orders[id].inventory == Released)
         && (IsUnpaid(t.orders[id].payment) || t.orders[id].payment == before))
  }

  lemma UndoneThroughFinish(s: World, id: OrderId, before: Payment)
    requires StaysUndone(s, id, before) && s.job.Some?
    ensures StaysUndone(FinishStep(s), id, before)
  {
    hide Debit, KeepProof;
  }

  lemma UndoneThroughTransactions(s: World, id: OrderId, before: Payment)
    requires StaysUndone(s, id, before) && s.job.Some?
    ensures StaysUndone(MarkFailedStep(s), id, before) && StaysUndone(ReserveStep(s), id, before)
    ensures StaysUndone(MarkReleaseStep(s), id, before)
  {
  }

  lemma UndoneThroughAdvance(s: World, fault: Fault, readable: bool, id: OrderId, before: Payment)
    requires StaysUndone(s, id, before)
    ensures StaysUndone(AdvanceStep(s, fault, readable), id, before)
  {
    if s.job.Some? {
      if CallsSheets(s.job.value.pc) {
        hide AdvanceStep;
        SheetsCallOnly(s, fault, readable);
      } else {
        hide StaysUndone, MarkFailedStep, ReserveStep, MarkReleaseStep, FinishStep;
        UndoneThroughTransactions(s, id, before);
        UndoneThroughFinish(s, id, before);
      }
    }
  }

  lemma UndoneThroughPay(s: World, other: OrderId, status: Payment, proof: Option<Proof>, id: OrderId, before: Payment)
    requires StaysUndone(s, id, before)
    ensures StaysUndone(PayStep(s, other, status, proof), id, before)
  {
    hide Credit, Debit, Replayed;
  }

  lemma UndoneThroughStep(s: World, e: Event, id: OrderId, before: Payment)
    requires StaysUndone(s, id, before)
    ensures StaysUndone(Step(s, e), id, before)
  {
    hide AdvanceStep, PayStep, Repeats;
    match e {
      case Pay(other, status, proof) => UndoneThroughPay(s, other, status, proof, id, before);
      case Advance(fault, readable) => UndoneThroughAdvance(s, fault, readable, id, before);
      case _ =>
    }
  }

  /** Once a release has begun on an order, no run of any events makes it enter a paid status, brings
      its stock status back, or brings its row back once deleted. */
  lemma {:induction false} NeverPaidAfterRelease(s: World, events: seq<Event>, id: OrderId)
    requires id in s.ids && id in s.orders
    requires (s.orders[id].inventory == ReleasePending || s.orders[id].inventory == Released)
    ensures StaysUndone(Run(s, events), id, s.orders[id].payment)
  {
    hide Step;
    if events != [] {
      var n := |events| - 1;
      NeverPaidAfterRelease(s, events[..n], id);
      UndoneThroughStep(Run(s, events[..n]), events[n], id, s.orders[id].payment);
    }
  }

  // ---------------------------------------------------------------- what customers have spent

  /** The merchandise amount of the request that created the order in the course of the run. */
  function AskedFor(s: World, events: seq<Event>, id: OrderId): Option<int> {
    if events == [] then None
    else
      var n := |events| - 1;
      var t := Run(s, events[..n]);
      if events[n].BeginCreate? && id !in t.ids && id in Step(t, events[n]).ids then Some(events[n].request.merchandise)
      else AskedFor(s, events[..n], id)
  }

  lemma TransactionKeepsMerchandise(s: World, id: OrderId)
    requires s.job.Some? && !CallsSheets(s.job.value.pc)
    ensures var t := AdvanceStep(s, NoFault, true); id in t.orders ==>
      id in s.orders && t.orders[id].merchandise == s.orders[id].merchandise
  {
    hide Debit, KeepProof, DeductStep, VerifyDeductStep, CheckStep, RestoreStep, VerifyRestoreStep;
  }

  lemma AdvanceKeepsMerchandise(s: World, fault: Fault, readable: bool, id: OrderId)
    ensures var t := AdvanceStep(s, fault, readable); id in t.orders ==>
      id in s.orders && t.orders[id].merchandise == s.orders[id].merchandise
    ensures AdvanceStep(s, fault, readable).ids == s.ids
  {
    if s.job.Some? && CallsSheets(s.job.value.pc) {
      hide AdvanceStep;
      SheetsCallOnly(s, fault, readable);
    } else if s.job.Some? {
      TransactionKeepsMerchandise(s, id);
      hide MarkFailedStep, ReserveStep, MarkReleaseStep, DeductStep, VerifyDeductStep, CheckStep, RestoreStep,
        VerifyRestoreStep, Debit, KeepProof;
    }
  }

  /** A step creates an order with the merchandise its request names, and never changes it later. */
  lemma StepKeepsMerchandise(s: World, e: Event, id: OrderId)
    requires RowsKnown(s) && id in Step(s, e).orders
    ensures id !in s.ids ==> e.BeginCreate? && Step(s, e).orders[id].merchandise == Some(e.request.merchandise)
    ensures id in s.ids ==> id in s.orders && Step(s, e).orders[id].merchandise == s.orders[id].merchandise
    ensures id in Step(s, e).ids
  {
    hide AdvanceStep, Credit, Debit, Replayed, SearchAnswers, ActiveUnpaidCount, Acceptable, SpendAmount;
    if e.Advance? {
      AdvanceKeepsMerchandise(s, e.fault, e.readable, id);
    }
  }

  lemma {:induction false} MerchandiseIsAsked(s: World, events: seq<Event>, id: OrderId)
    requires Orderly(s) && s.ids == [] && id in Run(s, events).orders
    ensures AskedFor(s, events, id) == Run(s, events).orders[id].merchandise && AskedFor(s, events, id).Some?
  {
    hide Step;
    if events != [] {
      var n := |events| - 1;
      var t := Run(s, events[..n]);
      RunKeepsOrderly(s, events[..n]);
      hide JobStands;
      StepKeepsMerchandise(t, events[n], id);
      if id in t.ids {
        MerchandiseIsAsked(s, events[..n], id);
      }
    }
  }

  /** What the order counts with for the customer, by the request that created it. */
  function SpentAsAsked(s: World, events: seq<Event>, customer: CustomerId, id: OrderId): int {
    var t := Run(s, events);
    if id in t.orders && t.orders[id].customer == Some(customer) && t.orders[id].totalsApplied
    then AskedFor(s, events, id).GetOr(0) else 0
  }

  /** In every run from a shop without orders, what a customer has spent is the sum of the merchandise
      amounts asked for by the requests of the counted orders, whatever their totals and delivery fees. */
  lemma SpentIsMerchandise(s: World, events: seq<Event>, customer: CustomerId)
    requires PayInit(s) && s.ids == [] && customer in Run(s, events).customers
    ensures var t := Run(s, events);
      t.customers[customer].totalSpent == Sum(t.ids, id => SpentAsAsked(s, events, customer, id))
  {
    hide Run, Orderly;
    InitBooks(s);
    RunKeepsPayments(s, events);
    var t := Run(s, events);
    assert TotalsFit(t, customer);
    forall id
      ensures SpentAsAsked(s, events, customer, id) == Spent(t, customer, id)
    {
      if id in t.orders {
        MerchandiseIsAsked(s, events, id);
      }
    }
    SumCongruent(t.ids, id => Spent(t, customer, id), id => SpentAsAsked(s, events, customer, id));
  }
}
