/** Customer tags (store/app/crm/customers.py): who writes them, and when the two tier tags agree with
    the totals they are derived from. Tags are taken as already normalised. */
module Tags {
  import opened Common
  import opened Sheets
  import opened Orders
  import opened Payments
  import Coherence

  /** `_dedupe_preserve_order`. */
  function Deduped(tags: seq<string>): seq<string> {
    if tags == [] then []
    else
      var n := |tags| - 1;
      WithTag(Deduped(tags[..n]), tags[n], true)
  }

  lemma {:induction false} DedupedMeans(tags: seq<string>, tag: string)
    ensures tag in Deduped(tags) <==> tag in tags
    ensures Distinct(Deduped(tags))
  {
    if tags != [] {
      var n := |tags| - 1;
      DedupedMeans(tags[..n], tag);
      DedupedMeans(tags[..n], tags[n]);
      assert tags == tags[..n] + [tags[n]];
    }
  }

  function Without(tags: seq<string>, target: string): seq<string> {
    if tags == [] then []
    else
      var n := |tags| - 1;
      Without(tags[..n], target) + (if tags[n] != target then [tags[n]] else [])
  }

  lemma {:induction false} WithoutMeans(tags: seq<string>, target: string, tag: string)
    ensures tag in Without(tags, target) <==> tag in tags && tag != target
  {
    if tags != [] {
      var n := |tags| - 1;
      WithoutMeans(tags[..n], target, tag);
      assert tags == tags[..n] + [tags[n]];
    }
  }

  /** What `add_tags` and `remove_tag` store. */
  function Added(tags: seq<string>, more: seq<string>): seq<string> {
    Deduped(tags + more)
  }

  function Removed(tags: seq<string>, target: string): seq<string> {
    Deduped(Without(tags, target))
  }

  predicate IsTier(tag: string) {
    tag == "repeat_buyer" || tag == "vip"
  }

  /** From fitting tags, adding keeps them fitting exactly when it brings no tier tag that is not earned. */
  lemma AddKeepsTiersExactly(c: Customer, more: seq<string>)
    requires TiersFit(c)
    ensures TiersFit(c.(tags := Added(c.tags, more))) <==> forall tag :: tag in more && IsTier(tag) ==> Earned(tag, c)
  {
    DedupedMeans(c.tags + more, "repeat_buyer");
    DedupedMeans(c.tags + more, "vip");
    hide Deduped;
  }

  /** Removing keeps them fitting exactly when it takes no tier tag that is earned. */
  lemma RemoveKeepsTiersExactly(c: Customer, target: string)
    requires TiersFit(c)
    ensures TiersFit(c.(tags := Removed(c.tags, target))) <==> !Earned(target, c)
  {
    forall tag
      ensures tag in Removed(c.tags, target) <==> tag in c.tags && tag != target
    {
      DedupedMeans(Without(c.tags, target), tag);
      WithoutMeans(c.tags, target, tag);
    }
    hide Deduped, Without, Removed;
  }

  // ---------------------------------------------------------------- tier tags over runs

  predicate AllTiersFit(s: World) {
    forall id :: id in s.customers ==> TiersFit(s.customers[id])
  }

  /** A write of tags that contain a tier tag not earned, or miss one that is. */
  predicate Misfits(s: World, e: Event) {
    e.WriteTags? && e.customer in s.customers && !TiersFit(s.customers[e.customer].(tags := e.tags))
  }

  /** Nothing about the customer changes but perhaps the tags; or totals change and the tags fit them. */
  predicate Synced(before: map<CustomerId, Customer>, after: map<CustomerId, Customer>, id: CustomerId) {
    id in before && id in after ==>
      && (after[id] == before[id] || TiersFit(after[id]))
  }

  lemma CreditSyncs(customers: map<CustomerId, Customer>, id: CustomerId, amount: int, other: CustomerId)
    ensures Synced(customers, Credit(customers, id, amount), other)
    ensures other in Credit(customers, id, amount) <==> other in customers
  {
    if id in customers {
      var c := customers[id];
      SyncTagsFits(c.(totalOrders := c.totalOrders + 1, totalSpent := c.totalSpent + amount));
    }
    hide SyncTags, TiersFit;
  }

  lemma DebitSyncs(customers: map<CustomerId, Customer>, id: CustomerId, amount: int, other: CustomerId)
    ensures Synced(customers, Debit(customers, id, amount), other)
    ensures other in Debit(customers, id, amount) <==> other in customers
  {
    if id in customers {
      var c := customers[id];
      SyncTagsFits(c.(totalOrders := Max(c.totalOrders - 1, 0), totalSpent := Max(c.totalSpent - amount, 0)));
    }
    hide SyncTags, TiersFit;
  }

  lemma PaySyncs(s: World, id: OrderId, status: Payment, proof: Option<Proof>, other: CustomerId)
    ensures Synced(s.customers, PayStep(s, id, status, proof).customers, other)
    ensures other in PayStep(s, id, status, proof).customers <==> other in s.customers
  {
    if PayAccepted(s, id, status, proof) && s.orders[id].customer.Some? {
      CreditSyncs(s.customers, s.orders[id].customer.value, SpendAmount(s.orders[id]), other);
      DebitSyncs(s.customers, s.orders[id].customer.value, SpendAmount(s.orders[id]), other);
    }
    hide Credit, Debit, TiersFit, Replayed;
  }

  lemma FinishSyncs(s: World, other: CustomerId)
    requires s.job.Some?
    ensures Synced(s.customers, FinishStep(s).customers, other)
    ensures other in FinishStep(s).customers <==> other in s.customers
  {
    var id := s.job.value.order;
    if id in s.orders && s.orders[id].customer.Some? {
      DebitSyncs(s.customers, s.orders[id].customer.value, SpendAmount(s.orders[id]), other);
    }
    hide Debit, TiersFit, KeepProof;
  }

  lemma AdvanceSyncs(s: World, fault: Fault, readable: bool, other: CustomerId)
    ensures Synced(s.customers, AdvanceStep(s, fault, readable).customers, other)
    ensures other in AdvanceStep(s, fault, readable).customers <==> other in s.customers
  {
    hide UpdateStock, OperationApplied, FinishStep, TiersFit;
    if s.job.Some? {
      FinishSyncs(s, other);
    }
  }

  /** Whatever the tags were, a step that changes a customer's totals leaves the tier tags that the
      new totals earn; only a write of tags changes a customer otherwise. */
  lemma StepSyncs(s: World, e: Event, id: CustomerId)
    requires !e.WriteTags?
    ensures Synced(s.customers, Step(s, e).customers, id)
    ensures id in Step(s, e).customers && id !in s.customers ==> TiersFit(Step(s, e).customers[id])
  {
    hide AdvanceStep, PayStep, CreateStep, BeginUndo;
    match e {
      case Pay(order, status, proof) => PaySyncs(s, order, status, proof, id);
      case Advance(fault, readable) => AdvanceSyncs(s, fault, readable, id);
      case BeginCreate(r, existing, newId) => CreateKeepsCustomers(s, r, existing, newId);
      case BeginDelete(order) => UndoKeepsCustomers(s.(deleting := s.deleting + {order}), Deleting, order);
      case BeginRelease(order) => UndoKeepsCustomers(s, Releasing, order);
      case _ =>
    }
  }

  lemma CreateKeepsCustomers(s: World, r: Request, existing: Option<OrderId>, newId: OrderId)
    ensures CreateStep(s, r, existing, newId).customers == s.customers
  {
    hide SearchAnswers, ActiveUnpaidCount, Acceptable;
  }

  lemma UndoKeepsCustomers(s: World, kind: JobKind, id: OrderId)
    ensures id in s.orders ==> BeginUndo(s, kind, id).customers == s.customers
  {
  }

  /** From fitting tier tags, a step leaves them fitting exactly when it is not a write that misfits. */
  lemma TiersStepExactly(s: World, e: Event)
    requires AllTiersFit(s)
    ensures AllTiersFit(Step(s, e)) <==> !Misfits(s, e)
  {
    if e.WriteTags? {
      WriteTagsExactly(s, e);
    } else {
      hide Step, TiersFit;
      forall id | id in Step(s, e).customers
        ensures TiersFit(Step(s, e).customers[id])
      {
        StepSyncs(s, e, id);
      }
    }
  }

  lemma WriteTagsExactly(s: World, e: Event)
    requires AllTiersFit(s) && e.WriteTags?
    ensures AllTiersFit(Step(s, e)) <==> !Misfits(s, e)
  {
    hide TiersFit;
    if e.customer in s.customers {
      assert Step(s, e).customers[e.customer] == s.customers[e.customer].(tags := e.tags);
    }
  }

  predicate TiersThroughout(s: World, events: seq<Event>) {
    forall k :: 0 <= k <= |events| ==> AllTiersFit(Run(s, events[..k]))
  }

  predicate NoMisfit(s: World, events: seq<Event>) {
    forall k :: 0 <= k < |events| ==> !Misfits(Run(s, events[..k]), events[k])
  }

  lemma RunNext(s: World, events: seq<Event>, k: nat)
    requires k < |events|
    ensures Run(s, events[..k + 1]) == Step(Run(s, events[..k]), events[k])
  {
    assert events[..k + 1][..k] == events[..k];
  }

  /** The tier tags agree with the totals throughout a run exactly when no write of tags misfits: the
      payment code alone keeps them in step. */
  lemma TiersThroughoutExactly(s: World, events: seq<Event>)
    requires AllTiersFit(s)
    ensures TiersThroughout(s, events) <==> NoMisfit(s, events)
  {
    hide Step, Run, AllTiersFit, Misfits;
    if TiersThroughout(s, events) {
      forall k | 0 <= k < |events|
        ensures !Misfits(Run(s, events[..k]), events[k])
      {
        RunNext(s, events, k);
        assert AllTiersFit(Run(s, events[..k])) && AllTiersFit(Run(s, events[..k + 1]));
        TiersStepExactly(Run(s, events[..k]), events[k]);
      }
    }
    if NoMisfit(s, events) {
      forall k | 0 <= k <= |events|
        ensures AllTiersFit(Run(s, events[..k]))
      {
        PrefixFits(s, events, k);
      }
    }
  }

  lemma {:induction false} PrefixFits(s: World, events: seq<Event>, k: nat)
    requires AllTiersFit(s) && NoMisfit(s, events) && k <= |events|
    ensures AllTiersFit(Run(s, events[..k]))
  {
    hide Step, AllTiersFit, Misfits;
    if k > 0 {
      PrefixFits(s, events, k - 1);
      RunNext(s, events, k - 1);
      TiersStepExactly(Run(s, events[..k - 1]), events[k - 1]);
    } else {
      assert events[..0] == [];
    }
  }

  lemma ShopFits()
    ensures PayInit(Coherence.Shop()) && AllTiersFit(Coherence.Shop())
    ensures Coherence.Shop().customers == map["c" := Customer(0, 0, [])]
  {
    hide TotalsFit;
    assert Coherence.Shop().ids == [];
    forall customer | customer in Coherence.Shop().customers
      ensures TotalsFit(Coherence.Shop(), customer)
    {
      NobodyOrdered(Coherence.Shop(), customer);
    }
  }

  lemma NobodyOrdered(s: World, customer: CustomerId)
    requires s.ids == [] && customer in s.customers
    requires s.customers[customer].totalOrders == 0 && s.customers[customer].totalSpent == 0
    ensures TotalsFit(s, customer)
  {
  }

  lemma UnearnedVip()
    ensures !TiersFit(Customer(0, 0, []).(tags := Added([], ["vip"])))
  {
    AddKeepsTiersExactly(Customer(0, 0, []), ["vip"]);
    assert "vip" in ["vip"] && IsTier("vip") && !Earned("vip", Customer(0, 0, []));
    hide Added, Earned;
  }

  /** It does happen: a customer without orders can be tagged `vip`. */
  lemma VipWithoutOrders()
    ensures var s := Coherence.Shop();
      PayInit(s) && AllTiersFit(s) && !AllTiersFit(Step(s, WriteTags("c", Added([], ["vip"]))))
  {
    ShopFits();
    UnearnedVip();
    hide Coherence.Shop, Step, AllTiersFit, TiersFit, PayInit, Added;
    TiersStepExactly(Coherence.Shop(), WriteTags("c", Added([], ["vip"])));
  }
}
