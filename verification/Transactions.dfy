/** What each transaction and each Sheets call of the order functions writes (store/app/crm/orders.py),
    column by column. */
module Transactions {
  import opened Common
  import opened Sheets
  import opened Orders

  /** The row of the order becomes this one; no other row, customer, proof or stock changes. */
  predicate OnlyRow(s: World, t: World, id: OrderId, row: Order) {
    t == s.(orders := s.orders[id := row], job := t.job)
  }

  /** A Sheets call touches sheet and job only. Closing a create makes a pending row reserved, or failed and,
      if it was pending payment, rejected; a release marks its row before it gives stock back. */
  lemma CallsWrite(s: World, fault: Fault, readable: bool)
    requires s.job.Some? && s.job.value.pc != Finishing
    ensures
      var (pc, id, t) := (s.job.value.pc, s.job.value.order, Step(s, Advance(fault, readable)));
      var pending := id in s.orders && s.orders[id].inventory == ReservationPending;
      var calls := pc in {Deducting, VerifyingDeduct, Checking, Restoring, VerifyingRestore};
      && (calls ==> t == s.(sheet := t.sheet, job := t.job))
      && (!calls && !pending ==> t == s.(job := t.job))
      && (pc == Reserving && pending ==> OnlyRow(s, t, id, s.orders[id].(inventory := Reserved)))
      && (pc == MarkingRelease && pending ==> OnlyRow(s, t, id, s.orders[id].(inventory := ReleasePending)))
      && (pc == MarkingFailed && pending ==>
            OnlyRow(s, t, id, s.orders[id].(inventory := ReservationFailed,
                                            payment := if s.orders[id].payment == Pending then Rejected
                                                       else s.orders[id].payment)))
      && (pc == MarkingFailed || pc == Reserving ==> t.job == None)
      && (pc == MarkingRelease ==> t.job == Some(s.job.value.(pc := Restoring)))
  {
    hide Sheets.UpdateStock, Sheets.OperationApplied;
  }

  /** The last transaction of a release: an order that is still unpaid is released and, if it was pending
      payment, rejected. */
  lemma ReleaseWrites(s: World, fault: Fault, readable: bool)
    requires s.job.Some? && s.job.value.pc == Finishing && s.job.value.kind != Deleting
    ensures
      var (id, t) := (s.job.value.order, Step(s, Advance(fault, readable)));
      && t.job == None
      && if id in s.orders && s.orders[id].payment in {Pending, PaymentFailed, Rejected}
         then OnlyRow(s, t, id, s.orders[id].(inventory := Released,
                                              payment := if s.orders[id].payment == Pending then Rejected
                                                         else s.orders[id].payment))
         else t == s.(job := None)
  {
  }

  /** The replay table has a row with this hash or this key. */
  predicate Kept(replays: seq<Replay>, hash: Option<string>, key: Option<string>) {
    exists i :: 0 <= i < |replays| &&
      ((hash.Some? && replays[i].proofHash == hash) || (key.Some? && replays[i].referenceKey == key))
  }

  /** The last transaction of a delete: the row goes, its proof is kept unless the replay table has it, and a
      counted order is taken off its customer's totals, which stay at or above zero. */
  lemma DeleteWrites(s: World, fault: Fault, readable: bool)
    requires s.job.Some? && s.job.value.pc == Finishing && s.job.value.kind == Deleting && s.job.value.order in s.orders
    ensures
      var (id, t) := (s.job.value.order, Step(s, Advance(fault, readable)));
      var o := s.orders[id];
      && t.orders == s.orders - {id} && t.job == None && t.sheet == s.sheet && t.ids == s.ids
      && t.replays == (if (o.proofHash !in {None, Some("")} || o.referenceKey !in {None, Some("")})
                          && !Kept(s.replays, o.proofHash, o.referenceKey)
                       then s.replays + [Replay(o.proofHash, o.referenceKey, id)] else s.replays)
      && t.customers.Keys == s.customers.Keys
      && forall c :: c in s.customers ==>
           if o.totalsApplied && o.customer == Some(c) then
             var spent := if o.merchandise.Some? then o.merchandise.value else o.total;
             && t.customers[c].totalOrders
                  == (if s.customers[c].totalOrders > 0 then s.customers[c].totalOrders - 1 else 0)
             && t.customers[c].totalSpent
                  == (if s.customers[c].totalSpent > spent then s.customers[c].totalSpent - spent else 0)
           else t.customers[c] == s.customers[c]
  {
    ConflictsMeans(s.replays, s.orders[s.job.value.order].proofHash, s.orders[s.job.value.order].referenceKey);
    hide Conflicts, KeptTags, WithTag;
  }

  lemma ConflictsMeans(replays: seq<Replay>, hash: Option<string>, key: Option<string>)
    ensures Conflicts(replays, hash, key) <==> Kept(replays, hash, key)
  {
  }

  /** The first transaction of a delete, or of a release of an unpaid order, under the free lock: stock that
      was taken is marked for its return; a pending order is looked up first; a row without stock is only
      deleted. */
  lemma UndoBegins(s: World, kind: JobKind, id: OrderId)
    requires s.job.None? && id in s.orders && (kind == Deleting || kind == Releasing)
    requires kind == Releasing ==> s.orders[id].payment in {Pending, PaymentFailed, Rejected}
    ensures
      var t := Step(s, if kind == Deleting then BeginDelete(id) else BeginRelease(id));
      var begun := if kind == Deleting then s.(deleting := s.deleting + {id}) else s;
      var job := pc => Some(Job(kind, id, s.orders[id].items, pc));
      match s.orders[id].inventory
      case Reserved => t == begun.(orders := s.orders[id := s.orders[id].(inventory := ReleasePending)],
                                   job := job(Restoring))
      case ReleasePending => t == begun.(job := job(Restoring))
      case ReservationPending => t == begun.(job := job(Checking))
      case _ => t == if kind == Deleting then begun.(job := job(Finishing)) else s
  {
  }

  /** Neither begins while the lock is held or without a row, and no release on an order that is paid for. */
  lemma UndoRefused(s: World, id: OrderId)
    ensures s.job.Some? || id !in s.orders ==> Step(s, BeginDelete(id)) == s && Step(s, BeginRelease(id)) == s
    ensures id in s.orders && s.orders[id].payment !in {Pending, PaymentFailed, Rejected} ==>
        Step(s, BeginRelease(id)) == s
  {
  }

  /** Customers come and go, and their tags are written, without a change of anything else; orders outlive
      their customer. */
  lemma CustomersChange(s: World, c: CustomerId, tags: seq<string>)
    ensures Step(s, AddCustomer(c))
         == if c in s.customers then s else s.(customers := s.customers[c := Customer(0, 0, ["new_lead"])])
    ensures c in s.customers ==>
      Step(s, WriteTags(c, tags)) == s.(customers := s.customers[c := s.customers[c].(tags := tags)])
    ensures c !in s.customers ==> Step(s, WriteTags(c, tags)) == s
    ensures
      var t := Step(s, RemoveCustomer(c));
      && t == s.(customers := t.customers, orders := t.orders)
      && t.customers.Keys == s.customers.Keys - {c} && t.orders.Keys == s.orders.Keys
      && (forall x :: x in t.customers ==> t.customers[x] == s.customers[x])
      && forall id :: id in s.orders ==>
           t.orders[id] == s.orders[id].(customer := if s.orders[id].customer == Some(c) then None
                                                      else s.orders[id].customer)
  {
  }

  /** A cancellation frees the lock; a crash also loses the ledger copy. */
  lemma Interrupted(s: World)
    ensures Step(s, Abort) == s.(job := None)
    ensures Step(s, Restart) == s.(job := None, sheet := s.sheet.(cache := None))
  {
  }
}
