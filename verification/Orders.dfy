/** Orders, customers and the inventory reservation saga (store/app/crm/orders.py), as a machine
    whose steps are the database transactions and Sheets calls of the program. */
module Orders {
  import opened Common
  import opened Sheets

  type CustomerId = string

  datatype Payment = Pending | ProofReceived | Confirmed | PaymentFailed | Rejected

  datatype Inventory =
    | LegacyUnknown
    | ReservationPending
    | Reserved
    | ReservationFailed
    | ReleasePending
    | Released

  /** The order fields that only the search for a repeated order compares; NULL reads as "". */
  datatype Delivery = Delivery(paymentMethod: string, city: string, address: string, carrier: string,
                               fulfillment: string, zone: string, agency: string, fee: int)

  /** An order row. Amounts are integer cents and instants are seconds. */
  datatype Order = Order(
    customer: Option<CustomerId>,
    items: seq<Item>,
    delivery: Delivery,
    total: int,
    merchandise: Option<int>,
    payment: Payment,
    proofHash: Option<string>,
    referenceKey: Option<string>,
    inventory: Inventory,
    totalsApplied: bool,
    createdAt: int)

  datatype Customer = Customer(totalOrders: int, totalSpent: int, tags: seq<string>)

  datatype Proof = Proof(hash: string, reference: string)

  /** A proof kept after its order was deleted. */
  datatype Replay = Replay(proofHash: Option<string>, referenceKey: Option<string>, order: OrderId)

  /** What the holder of the inventory lock is running, and its next step. */
  datatype JobKind = Creating | Deleting | Releasing

  datatype Pc =
    | Deducting
    | VerifyingDeduct
    | MarkingFailed
    | Reserving
    | Checking
    | MarkingRelease
    | Restoring
    | VerifyingRestore
    | Finishing

  datatype Job = Job(kind: JobKind, order: OrderId, items: seq<Item>, pc: Pc)

  /** The whole system. `ids` lists every order id ever used; `deleting` the orders a delete has
      begun on; `updated` the orders whose payment status was set. These three only record history. */
  datatype World = World(
    orders: map<OrderId, Order>,
    customers: map<CustomerId, Customer>,
    replays: seq<Replay>,
    sheet: StockSheet,
    job: Option<Job>,
    ids: seq<OrderId>,
    deleting: set<OrderId>,
    updated: set<OrderId>)

  /** What a caller asks the locked section of `create_order` for, its items already normalised. */
  datatype Request = Request(customer: CustomerId, items: seq<Item>, delivery: Delivery,
                             total: int, merchandise: int, now: int)

  datatype Event =
    | AddCustomer(customer: CustomerId)
    | RemoveCustomer(customer: CustomerId)
    /** The assistant, the dashboard or the Telegram bot sets a customer's tags, the tier tags included. */
    | WriteTags(customer: CustomerId, tags: seq<string>)
    | Pay(order: OrderId, status: Payment, proof: Option<Proof>)
    | BeginCreate(request: Request, existing: Option<OrderId>, newId: OrderId)
    | BeginDelete(order: OrderId)
    | BeginRelease(order: OrderId)
    /** The lock holder's next step; `fault` and `readable` say how its Sheets call goes. */
    | Advance(fault: Fault, readable: bool)
    /** The lock holder is cancelled or fails; the process lives on. */
    | Abort
    /** The process dies: the lock is freed and the in-process ledger copy is gone. */
    | Restart

  const MAX_ACTIVE_UNPAID_ORDERS := 3
  const DUPLICATE_WINDOW_SECONDS := 1800
  const REPEAT_BUYER_ORDERS := 2
  const VIP_ORDERS := 3
  const VIP_SPENT_CENTS := 10000

  predicate Paid(p: Payment) {
    p == ProofReceived || p == Confirmed
  }

  predicate Releasable(p: Payment) {
    !Paid(p)
  }

  /** The inventory states in which an order may become paid. */
  predicate Payable(status: Inventory) {
    status == Reserved || status == LegacyUnknown
  }

  function SpendAmount(o: Order): int {
    o.merchandise.GetOr(o.total)
  }

  // ---------------------------------------------------------------- customer totals

  predicate WantsRepeatBuyer(totalOrders: int) {
    totalOrders >= REPEAT_BUYER_ORDERS
  }

  predicate WantsVip(totalOrders: int, totalSpent: int) {
    totalOrders >= VIP_ORDERS || totalSpent >= VIP_SPENT_CENTS
  }

  predicate Wanted(tag: string, c: Customer) {
    (tag == "repeat_buyer" ==> WantsRepeatBuyer(c.totalOrders))
    && (tag == "vip" ==> WantsVip(c.totalOrders, c.totalSpent))
  }

  /** The tags that stay: all but the tier tags no longer earned. */
  function KeptTags(tags: seq<string>, c: Customer): seq<string> {
    if tags == [] then []
    else
      var n := |tags| - 1;
      KeptTags(tags[..n], c) + (if Wanted(tags[n], c) then [tags[n]] else [])
  }

  function WithTag(tags: seq<string>, tag: string, wanted: bool): seq<string> {
    if wanted && tag !in tags then tags + [tag] else tags
  }

  /** `sync_purchase_tier_tags`. */
  function SyncTags(c: Customer): Customer {
    var kept := KeptTags(c.tags, c);
    var repeat := WithTag(kept, "repeat_buyer", WantsRepeatBuyer(c.totalOrders));
    c.(tags := WithTag(repeat, "vip", WantsVip(c.totalOrders, c.totalSpent)))
  }

  function Credit(customers: map<CustomerId, Customer>, id: CustomerId, amount: int): map<CustomerId, Customer> {
    if id !in customers then customers
    else
      var c := customers[id];
      customers[id := SyncTags(c.(totalOrders := c.totalOrders + 1, totalSpent := c.totalSpent + amount))]
  }

  function Debit(customers: map<CustomerId, Customer>, id: CustomerId, amount: int): map<CustomerId, Customer> {
    if id !in customers then customers
    else
      var c := customers[id];
      customers[id := SyncTags(c.(totalOrders := Max(c.totalOrders - 1, 0),
          totalSpent := Max(c.totalSpent - amount, 0)))]
  }

  // ---------------------------------------------------------------- payments

  predicate UsesProof(hash: Option<string>, key: Option<string>, proof: Proof) {
    hash == Some(proof.hash) || key == Some(proof.reference)
  }

  predicate Replayed(s: World, id: OrderId, proof: Proof) {
    || (exists other :: other in s.orders && other != id
          && UsesProof(s.orders[other].proofHash, s.orders[other].referenceKey, proof))
    || (exists i :: 0 <= i < |s.replays| && UsesProof(s.replays[i].proofHash, s.replays[i].referenceKey, proof))
  }

  /** Whether a payment update goes through rather than being refused. */
  predicate PayAccepted(s: World, id: OrderId, status: Payment, proof: Option<Proof>) {
    && !(proof.Some? && Replayed(s, id, proof.value))
    && id in s.orders
    && (Paid(status) ==> Payable(s.orders[id].inventory))
    && (proof.Some? ==> s.orders[id].payment == Pending)
  }

  /** `update_order_payment_status`: one transaction. */
  function ApplyPay(s: World, id: OrderId, status: Payment, proof: Option<Proof>): World
    requires id in s.orders
  {
    var before := s.orders[id];
    var marked :=
      if proof.Some?
      then before.(payment := status, proofHash := Some(proof.value.hash), referenceKey := Some(proof.value.reference))
      else before.(payment := status);
    var credit := Paid(status) && !before.totalsApplied && before.customer.Some?;
    var debit := !Paid(status) && before.totalsApplied;
    var customers :=
      if credit then Credit(s.customers, before.customer.value, SpendAmount(before))
      else if debit && before.customer.Some? then Debit(s.customers, before.customer.value, SpendAmount(before))
      else s.customers;
    s.(orders := s.orders[id := marked.(totalsApplied := (before.totalsApplied || credit) && !debit)],
       customers := customers,
       updated := s.updated + {id})
  }

  function PayStep(s: World, id: OrderId, status: Payment, proof: Option<Proof>): World {
    if PayAccepted(s, id, status, proof) then ApplyPay(s, id, status, proof) else s
  }

  // ---------------------------------------------------------------- creating

  /** The repeated-order search of `create_order`. */
  predicate Repeats(o: Order, r: Request) {
    && o.customer == Some(r.customer) && o.items == r.items && o.delivery == r.delivery
    && (o.payment == Pending || o.payment == ProofReceived)
    && (o.inventory == ReservationPending
        || (o.inventory == Reserved && o.createdAt >= r.now - DUPLICATE_WINDOW_SECONDS))
  }

  /** Whether the search may answer `found`: the newest repeated order, if there is one. */
  predicate SearchAnswers(s: World, r: Request, found: Option<OrderId>) {
    if found.Some? then
      && found.value in s.orders && Repeats(s.orders[found.value], r)
      && forall other :: other in s.orders && Repeats(s.orders[other], r) ==>
           s.orders[other].createdAt <= s.orders[found.value].createdAt
    else
      forall other :: other in s.orders ==> !Repeats(s.orders[other], r)
  }

  predicate ActiveUnpaid(o: Order, customer: CustomerId) {
    && o.customer == Some(customer)
    && (o.payment == Pending || o.payment == ProofReceived)
    && (o.inventory == ReservationPending || o.inventory == Reserved || o.inventory == LegacyUnknown)
  }

  function ActiveUnpaidCount(s: World, customer: CustomerId): nat {
    |set id | id in s.orders && ActiveUnpaid(s.orders[id], customer)|
  }

  function NewOrder(r: Request): Order {
    Order(Some(r.customer), r.items, r.delivery, r.total, Some(r.merchandise), Pending, None, None,
          ReservationPending, false, r.now)
  }

  /** A request the section before the lock lets through. */
  predicate Acceptable(r: Request) {
    r.items != [] && r.merchandise >= 0 && r.total >= 0
  }

  function Insert(s: World, r: Request, newId: OrderId): World {
    s.(orders := s.orders[newId := NewOrder(r)],
       ids := s.ids + [newId],
       job := Some(Job(Creating, newId, r.items, Deducting)))
  }

  /** The first transaction under the lock: find the repeated order or insert a new one. */
  function CreateStep(s: World, r: Request, existing: Option<OrderId>, newId: OrderId): World {
    if s.job.Some? || !Acceptable(r) || r.customer !in s.customers || !SearchAnswers(s, r, existing) then s
    else if existing.Some? then
      if s.orders[existing.value].inventory == Reserved then s
      else s.(job := Some(Job(Creating, existing.value, r.items, Deducting)))
    else if newId in s.ids || ActiveUnpaidCount(s, r.customer) >= MAX_ACTIVE_UNPAID_ORDERS then s
    else Insert(s, r, newId)
  }

  function SetInventory(s: World, id: OrderId, status: Inventory): World
    requires id in s.orders
  {
    s.(orders := s.orders[id := s.orders[id].(inventory := status)])
  }

  function RejectPending(p: Payment): Payment {
    if p == Pending then Rejected else p
  }

  function EndJob(s: World): World {
    s.(job := None)
  }

  function Goto(s: World, pc: Pc): World
    requires s.job.Some?
  {
    s.(job := Some(s.job.value.(pc := pc)))
  }

  function DeductStep(s: World, fault: Fault): World
    requires s.job.Some?
  {
    var job := s.job.value;
    var (sheet, result) := UpdateStock(s.sheet, job.items, Deduct, ReserveOp(job.order), fault);
    Goto(s.(sheet := sheet), if result.Success? then Reserving else VerifyingDeduct)
  }

  function VerifyDeductStep(s: World, readable: bool): World
    requires s.job.Some?
  {
    var job := s.job.value;
    var (sheet, applied) := OperationApplied(s.sheet, ReserveOp(job.order), job.items, Deduct, readable);
    var next := s.(sheet := sheet);
    if applied.Failure? then EndJob(next)
    else Goto(next, if applied.value then Reserving else MarkingFailed)
  }

  /** `_mark_inventory_reservation_failed`. */
  function MarkFailedStep(s: World): World
    requires s.job.Some?
  {
    var id := s.job.value.order;
    EndJob(
      if id in s.orders && s.orders[id].inventory == ReservationPending then
        s.(orders := s.orders[id := s.orders[id].(inventory := ReservationFailed,
                                                  payment := RejectPending(s.orders[id].payment))])
      else s)
  }

  function ReserveStep(s: World): World
    requires s.job.Some?
  {
    var id := s.job.value.order;
    EndJob(if id in s.orders && s.orders[id].inventory == ReservationPending then SetInventory(s, id, Reserved) else s)
  }

  // ---------------------------------------------------------------- deleting and releasing

  function StartJob(s: World, kind: JobKind, id: OrderId, pc: Pc): World
    requires id in s.orders
  {
    s.(job := Some(Job(kind, id, s.orders[id].items, pc)))
  }

  /** The first transaction of `delete_order` and `_release_inventory_reservation` once the row is
      accepted: where the run continues. */
  function BeginUndo(s: World, kind: JobKind, id: OrderId): World
    requires id in s.orders
  {
    match s.orders[id].inventory
    case Reserved => StartJob(SetInventory(s, id, ReleasePending), kind, id, Restoring)
    case ReleasePending => StartJob(s, kind, id, Restoring)
    case ReservationPending => StartJob(s, kind, id, Checking)
    case _ => if kind == Deleting then StartJob(s, kind, id, Finishing) else s
  }

  function DeleteStep(s: World, id: OrderId): World {
    if s.job.Some? || id !in s.orders then s
    else BeginUndo(s.(deleting := s.deleting + {id}), Deleting, id)
  }

  function ReleaseStep(s: World, id: OrderId): World {
    if s.job.Some? || id !in s.orders || !Releasable(s.orders[id].payment) then s
    else BeginUndo(s, Releasing, id)
  }

  function CheckStep(s: World, readable: bool): World
    requires s.job.Some?
  {
    var job := s.job.value;
    var (sheet, applied) := OperationApplied(s.sheet, ReserveOp(job.order), job.items, Deduct, readable);
    var next := s.(sheet := sheet);
    if applied.Failure? then EndJob(next)
    else Goto(next, if applied.value then MarkingRelease else Finishing)
  }

  function MarkReleaseStep(s: World): World
    requires s.job.Some?
  {
    var id := s.job.value.order;
    Goto(if id in s.orders && s.orders[id].inventory == ReservationPending then SetInventory(s, id, ReleasePending)
        else s,
         Restoring)
  }

  function RestoreStep(s: World, fault: Fault): World
    requires s.job.Some?
  {
    var job := s.job.value;
    var (sheet, result) := UpdateStock(s.sheet, job.items, Restore, ReleaseOp(job.order), fault);
    Goto(s.(sheet := sheet), if result.Success? then Finishing else VerifyingRestore)
  }

  function VerifyRestoreStep(s: World, readable: bool): World
    requires s.job.Some?
  {
    var job := s.job.value;
    var (sheet, applied) := OperationApplied(s.sheet, ReleaseOp(job.order), job.items, Restore, readable);
    var next := s.(sheet := sheet);
    if applied == Success(true) then Goto(next, Finishing) else EndJob(next)
  }

  predicate Truthy(text: Option<string>) {
    text.Some? && text.value != ""
  }

  predicate SameKey(a: Option<string>, b: Option<string>) {
    a.Some? && a == b
  }

  /** The unique columns of the replay table. */
  predicate Conflicts(replays: seq<Replay>, hash: Option<string>, key: Option<string>) {
    exists i :: 0 <= i < |replays| && (SameKey(replays[i].proofHash, hash) || SameKey(replays[i].referenceKey, key))
  }

  /** `INSERT ... ON CONFLICT DO NOTHING` of the deleted order's proof. */
  function KeepProof(replays: seq<Replay>, id: OrderId, o: Order): seq<Replay> {
    if (Truthy(o.proofHash) || Truthy(o.referenceKey)) && !Conflicts(replays, o.proofHash, o.referenceKey)
    then replays + [Replay(o.proofHash, o.referenceKey, id)]
    else replays
  }

  /** The last transaction of `delete_order`. */
  function DropOrder(s: World, id: OrderId): World
    requires id in s.orders
  {
    var o := s.orders[id];
    s.(customers := if o.totalsApplied && o.customer.Some? then Debit(s.customers, o.customer.value, SpendAmount(o))
        else s.customers,
       replays := KeepProof(s.replays, id, o),
       orders := s.orders - {id})
  }

  /** The last transaction of `_release_inventory_reservation`. */
  function SettleRelease(s: World, id: OrderId): World
    requires id in s.orders
  {
    s.(orders := s.orders[id := s.orders[id].(inventory := Released, payment := RejectPending(s.orders[id].payment))])
  }

  function FinishStep(s: World): World
    requires s.job.Some?
  {
    var id := s.job.value.order;
    EndJob(
      if id !in s.orders then s
      else if s.job.value.kind == Deleting then DropOrder(s, id)
      else if Releasable(s.orders[id].payment) then SettleRelease(s, id)
      else s)
  }

  function AdvanceStep(s: World, fault: Fault, readable: bool): World {
    if s.job.None? then s
    else
      match s.job.value.pc
      case Deducting => DeductStep(s, fault)
      case VerifyingDeduct => VerifyDeductStep(s, readable)
      case MarkingFailed => MarkFailedStep(s)
      case Reserving => ReserveStep(s)
      case Checking => CheckStep(s, readable)
      case MarkingRelease => MarkReleaseStep(s)
      case Restoring => RestoreStep(s, fault)
      case VerifyingRestore => VerifyRestoreStep(s, readable)
      case Finishing => FinishStep(s)
  }

  // ---------------------------------------------------------------- runs

  function AddCustomerStep(s: World, id: CustomerId): World {
    if id in s.customers then s else s.(customers := s.customers[id := Customer(0, 0, ["new_lead"])])
  }

  function WriteTagsStep(s: World, id: CustomerId, tags: seq<string>): World {
    if id in s.customers then s.(customers := s.customers[id := s.customers[id].(tags := tags)]) else s
  }

  /** Deleting a customer row sets the owner of its orders to NULL. */
  function RemoveCustomerStep(s: World, id: CustomerId): World {
    s.(customers := s.customers - {id},
       orders := map o | o in s.orders ::
         (if s.orders[o].customer == Some(id) then s.orders[o].(customer := None) else s.orders[o]))
  }

  function Step(s: World, e: Event): World {
    match e
    case AddCustomer(id) => AddCustomerStep(s, id)
    case RemoveCustomer(id) => RemoveCustomerStep(s, id)
    case WriteTags(id, tags) => WriteTagsStep(s, id, tags)
    case Pay(id, status, proof) => PayStep(s, id, status, proof)
    case BeginCreate(request, existing, newId) => CreateStep(s, request, existing, newId)
    case BeginDelete(id) => DeleteStep(s, id)
    case BeginRelease(id) => ReleaseStep(s, id)
    case Advance(fault, readable) => AdvanceStep(s, fault, readable)
    case Abort => EndJob(s)
    case Restart => EndJob(s.(sheet := s.sheet.(cache := None)))
  }

  /** The state after any list of events, which may interleave in any order. */
  function Run(s: World, events: seq<Event>): World {
    if events == [] then s
    else Step(Run(s, events[..|events| - 1]), events[|events| - 1])
  }

  /** The step changes stock through the in-process ledger copy. */
  predicate Mutates(s: World, e: Event) {
    e.Advance? && s.job.Some? && (s.job.value.pc == Deducting || s.job.value.pc == Restoring)
  }

  /** Every stock mutation of the run starts with a coherent ledger copy. */
  predicate CoherentRun(s: World, events: seq<Event>) {
    if events == [] then true
    else
      var n := |events| - 1;
      var t := Run(s, events[..n]);
      CoherentRun(s, events[..n]) && (Mutates(t, events[n]) ==> Coherent(t.sheet))
  }
}
