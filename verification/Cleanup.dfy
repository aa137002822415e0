/** The job that releases expired reservations (`release_expired_inventory_reservations` in
    store/app/crm/orders.py): it takes the oldest rows each time, and orders that cannot be released
    stay among them. */
module Cleanup {
  import opened Common
  import opened Sheets
  import opened Orders
  import Coherence
  import Progress
  import Reservation
  import Retries

  const LIMIT := 20
  const TTL_SECONDS := 48 * 3600

  /** What one run of the job sees besides the orders: the time, and when each order was reserved. */
  datatype Glance = Glance(now: int, reservedAt: OrderId -> Option<int>)

  function Since(s: World, g: Glance, id: OrderId): int
    requires id in s.orders
  {
    g.reservedAt(id).GetOr(s.orders[id].createdAt)
  }

  /** An order is reserved after its creation, and a pending one has not been. */
  ghost predicate Dated(s: World, g: Glance) {
    forall id :: id in s.orders ==>
      && (s.orders[id].inventory == ReservationPending ==> g.reservedAt(id).None?)
      && (g.reservedAt(id).Some? ==> s.orders[id].createdAt <= g.reservedAt(id).value)
  }

  /** The WHERE clause of the job. */
  predicate Expired(s: World, g: Glance, id: OrderId)
    requires id in s.orders
  {
    var o := s.orders[id];
    && (o.inventory == Reserved || o.inventory == ReleasePending || o.inventory == ReservationPending)
    && (o.payment == PaymentFailed || o.payment == Rejected
        || (o.payment == Pending && Since(s, g, id) <= g.now - TTL_SECONDS))
  }

  function Candidates(s: World, g: Glance): set<OrderId> {
    set id | id in s.orders && Expired(s, g, id)
  }

  /** What the SELECT may answer: the oldest candidates, at most `LIMIT`. */
  ghost predicate Selects(s: World, g: Glance, chosen: seq<OrderId>) {
    && Distinct(chosen)
    && (forall id :: id in chosen ==> id in Candidates(s, g))
    && |chosen| == (if |Candidates(s, g)| < LIMIT then |Candidates(s, g)| else LIMIT)
    && (forall id, other :: id in chosen && other in Candidates(s, g) && other !in chosen ==>
          Since(s, g, id) <= Since(s, g, other))
  }

  lemma OlderTaken(s: World, g: Glance, chosen: seq<OrderId>, x: OrderId, id: OrderId)
    requires Selects(s, g, chosen) && x in s.orders && x in chosen && id in Candidates(s, g)
    requires Since(s, g, id) < Since(s, g, x)
    ensures id in chosen
  {
  }

  /** The candidates, with the hours written out: open orders whose payment failed or was rejected, and
      pending ones 48 hours after they were reserved or, if they never were, created. */
  lemma CandidateExactly(s: World, g: Glance, id: OrderId)
    ensures id in Candidates(s, g) <==>
      && id in s.orders
      && s.orders[id].inventory in {Reserved, ReleasePending, ReservationPending}
      && (|| s.orders[id].payment in {PaymentFailed, Rejected}
          || (s.orders[id].payment == Pending && g.reservedAt(id).Some? && g.now - g.reservedAt(id).value >= 172800)
          || (s.orders[id].payment == Pending && g.reservedAt(id).None? && g.now - s.orders[id].createdAt >= 172800))
  {
  }

  /** The candidates in `due` that are older than `x`. */
  function Older(s: World, g: Glance, due: set<OrderId>, x: OrderId): set<OrderId>
    requires x in s.orders && forall id :: id in due ==> id in s.orders
  {
    set id | id in due && Since(s, g, id) < Since(s, g, x)
  }

  lemma {:induction false} Oldest(s: World, g: Glance, due: set<OrderId>) returns (m: OrderId)
    requires due != {} && forall id :: id in due ==> id in s.orders
    ensures m in due && forall id :: id in due ==> Since(s, g, m) <= Since(s, g, id)
    decreases |due|
  {
    m :| m in due;
    var rest := due - {m};
    if rest != {} {
      var n := Oldest(s, g, rest);
      assert forall id :: id in due ==> id == m || id in rest;
      m := if Since(s, g, m) <= Since(s, g, n) then m else n;
    }
  }

  /** The oldest `k` of the orders, `x` among them whenever fewer than `k` are older. */
  lemma {:induction false} Oldests(s: World, g: Glance, due: set<OrderId>, k: nat, x: OrderId)
      returns (chosen: seq<OrderId>)
    requires k <= |due| && x in s.orders && forall id :: id in due ==> id in s.orders
    ensures Distinct(chosen) && |chosen| == k && forall id :: id in chosen ==> id in due
    ensures forall id, other :: id in chosen && other in due && other !in chosen ==>
        Since(s, g, id) <= Since(s, g, other)
    ensures x in due && |Older(s, g, due, x)| < k ==> x in chosen
    decreases k
  {
    hide Since;
    chosen := [];
    if k > 0 {
      var m := Oldest(s, g, due);
      if x in due && Since(s, g, x) <= Since(s, g, m) {
        m := x;
      }
      var rest := Oldests(s, g, due - {m}, k - 1, x);
      chosen := [m] + rest;
      if x in due && m != x {
        assert Older(s, g, due, x) == Older(s, g, due - {m}, x) + {m};
      }
    }
  }

  /** The job can take an order exactly when fewer than twenty candidates are older. */
  lemma TakenExactly(s: World, g: Glance, x: OrderId)
    requires x in Candidates(s, g)
    ensures (exists chosen :: Selects(s, g, chosen) && x in chosen) <==> |Older(s, g, Candidates(s, g), x)| < 20
  {
    hide Since, Expired;
    var due := Candidates(s, g);
    var older := Older(s, g, due, x);
    if |older| < 20 {
      SubsetSize(older + {x}, due);
      var chosen := Oldests(s, g, due, if |due| < 20 then |due| else 20, x);
      assert Selects(s, g, chosen);
    }
    if chosen :| Selects(s, g, chosen) && x in chosen {
      forall id | id in older
        ensures id in chosen
      {
        OlderTaken(s, g, chosen, x, id);
      }
      DistinctCardinality(chosen);
      SubsetSize(older + {x}, set id | id in chosen);
    }
  }

  // ---------------------------------------------------------------- orders that stay in the way

  /** An unpaid order that can never be released, created before `created` and expired by `due`. */
  predicate Blocks(s: World, id: OrderId, created: int, due: int) {
    && Progress.StuckAt(s, id) && !Paid(s.orders[id].payment)
    && s.orders[id].createdAt < created && s.orders[id].createdAt + TTL_SECONDS <= due
  }

  predicate AllBlock(s: World, ids: set<OrderId>, created: int, due: int) {
    forall id :: id in ids ==> Blocks(s, id, created, due)
  }

  lemma BlocksIsCandidate(s: World, g: Glance, id: OrderId, created: int)
    requires Dated(s, g) && Blocks(s, id, created, g.now)
    ensures id in Candidates(s, g) && Since(s, g, id) < created
  {
    assert g.reservedAt(id).None?;
  }

  /** Enough blocking orders fill every selection, so a later order is never in one. */
  lemma NotSelected(s: World, g: Glance, chosen: seq<OrderId>, ids: set<OrderId>, x: OrderId)
    requires Dated(s, g) && Selects(s, g, chosen) && x in s.orders
    requires |ids| >= LIMIT && AllBlock(s, ids, s.orders[x].createdAt, g.now)
    ensures x !in chosen
  {
    hide Blocks, Expired;
    if x in chosen {
      assert s.orders[x].createdAt <= Since(s, g, x);
      forall id | id in ids
        ensures id in chosen && id != x
      {
        BlocksIsCandidate(s, g, id, s.orders[x].createdAt);
        OlderTaken(s, g, chosen, x, id);
      }
      var taken := set id | id in chosen;
      DistinctCardinality(chosen);
      SubsetSize(ids + {x}, taken);
    }
  }

  // ---------------------------------------------------------------- over runs

  lemma TransactionKeepsCreated(s: World, id: OrderId)
    requires s.job.Some? && !Reservation.CallsSheets(s.job.value.pc)
    requires id in s.orders && id in AdvanceStep(s, NoFault, true).orders
    ensures AdvanceStep(s, NoFault, true).orders[id].createdAt == s.orders[id].createdAt
    ensures !Paid(s.orders[id].payment) ==> !Paid(AdvanceStep(s, NoFault, true).orders[id].payment)
  {
    hide Debit, KeepProof, DeductStep, VerifyDeductStep, CheckStep, RestoreStep, VerifyRestoreStep;
  }

  lemma AdvanceKeepsCreated(s: World, fault: Fault, readable: bool, id: OrderId)
    requires id in s.orders && id in AdvanceStep(s, fault, readable).orders
    ensures AdvanceStep(s, fault, readable).orders[id].createdAt == s.orders[id].createdAt
    ensures !Paid(s.orders[id].payment) ==> !Paid(AdvanceStep(s, fault, readable).orders[id].payment)
  {
    hide DeductStep, VerifyDeductStep, CheckStep, RestoreStep, VerifyRestoreStep, MarkFailedStep, ReserveStep,
      MarkReleaseStep, FinishStep;
    if s.job.Some? && Reservation.CallsSheets(s.job.value.pc) {
      Reservation.SheetsCallOnly(s, fault, readable);
    } else if s.job.Some? {
      TransactionKeepsCreated(s, id);
    }
  }

  /** Creation times stay, and a pending order cannot become paid. */
  lemma StepKeepsCreated(s: World, e: Event, id: OrderId)
    requires id in s.ids && id in s.orders && id in Step(s, e).orders
    ensures Step(s, e).orders[id].createdAt == s.orders[id].createdAt
    ensures !Paid(s.orders[id].payment) && s.orders[id].inventory == ReservationPending ==>
      !Paid(Step(s, e).orders[id].payment)
  {
    hide AdvanceStep, Credit, Debit, Replayed, SearchAnswers, ActiveUnpaidCount, Acceptable, SpendAmount;
    if e.Advance? {
      AdvanceKeepsCreated(s, e.fault, e.readable, id);
    }
  }

  lemma StepKeepsBlocks(s: World, e: Event, id: OrderId, created: int, due: int)
    requires id in s.ids && Blocks(s, id, created, due)
    ensures Blocks(Step(s, e), id, created, due) && id in Step(s, e).ids
  {
    Progress.StuckStays(s, e, id);
    Progress.IdsGrow(s, e, id);
    hide Step;
    StepKeepsCreated(s, e, id);
  }

  /** Not released, and no release of it under way. */
  predicate Unreleased(s: World, x: OrderId) {
    && x in s.ids
    && (x in s.orders ==> s.orders[x].inventory != Released)
    && (s.job.Some? && s.job.value.order == x ==>
          s.job.value.kind == Deleting || (s.job.value.kind == Creating && Retries.CreatingPc(s.job.value.pc)))
  }

  lemma TransactionKeepsUnreleased(s: World, x: OrderId)
    requires Unreleased(s, x) && s.job.Some? && !Reservation.CallsSheets(s.job.value.pc)
    ensures Unreleased(AdvanceStep(s, NoFault, true), x)
  {
    hide Debit, KeepProof, DeductStep, VerifyDeductStep, CheckStep, RestoreStep, VerifyRestoreStep;
  }

  lemma SheetsCallKeepsUnreleased(s: World, fault: Fault, readable: bool, x: OrderId)
    requires Unreleased(s, x) && s.job.Some? && Reservation.CallsSheets(s.job.value.pc)
    ensures Unreleased(AdvanceStep(s, fault, readable), x)
  {
    hide UpdateStock, OperationApplied;
  }

  lemma AdvanceKeepsUnreleased(s: World, fault: Fault, readable: bool, x: OrderId)
    requires Unreleased(s, x)
    ensures Unreleased(AdvanceStep(s, fault, readable), x)
  {
    hide DeductStep, VerifyDeductStep, CheckStep, RestoreStep, VerifyRestoreStep, MarkFailedStep, ReserveStep,
      MarkReleaseStep, FinishStep;
    if s.job.Some? {
      if Reservation.CallsSheets(s.job.value.pc) {
        SheetsCallKeepsUnreleased(s, fault, readable, x);
      } else {
        TransactionKeepsUnreleased(s, x);
      }
    }
  }

  /** Only a release of the order itself releases it. */
  lemma StepKeepsUnreleased(s: World, e: Event, x: OrderId)
    requires Unreleased(s, x) && e != BeginRelease(x)
    ensures Unreleased(Step(s, e), x)
  {
    hide AdvanceStep, Credit, Debit, Replayed, SearchAnswers, ActiveUnpaidCount, Acceptable, SpendAmount;
    if e.Advance? {
      AdvanceKeepsUnreleased(s, e.fault, e.readable, x);
    }
  }

  /** Where the release that begins as event `k` comes from: a selection the job made at an earlier
      event, or just now. */
  datatype Origin = Origin(at: nat, glance: Glance, chosen: seq<OrderId>)

  ghost predicate FromJob(s: World, events: seq<Event>, k: nat, from: Origin, due: int)
    requires k < |events|
  {
    events[k].BeginRelease? ==>
      && from.at <= k && from.glance.now >= due
      && var t := Run(s, events[..from.at]);
      && Dated(t, from.glance) && Selects(t, from.glance, from.chosen)
      && events[k].order in from.chosen
  }

  lemma {:induction false} BlockForever(s: World, events: seq<Event>, ids: set<OrderId>, created: int, due: int)
    requires Reservation.IdsKnown(s) && AllBlock(s, ids, created, due)
    ensures AllBlock(Run(s, events), ids, created, due)
    ensures forall id :: id in ids ==> id in Run(s, events).ids
  {
    hide Step, Blocks;
    if events != [] {
      var n := |events| - 1;
      BlockForever(s, events[..n], ids, created, due);
      forall id | id in ids
        ensures Blocks(Step(Run(s, events[..n]), events[n]), id, created, due)
        ensures id in Step(Run(s, events[..n]), events[n]).ids
      {
        StepKeepsBlocks(Run(s, events[..n]), events[n], id, created, due);
      }
    } else {
      forall id | id in ids
        ensures id in s.ids
      {
        BlocksIsKnown(s, id, created, due);
      }
    }
  }

  lemma BlocksIsKnown(s: World, id: OrderId, created: int, due: int)
    requires Reservation.IdsKnown(s) && Blocks(s, id, created, due)
    ensures id in s.ids
  {
  }

  lemma {:induction false} CreatedForever(s: World, events: seq<Event>, id: OrderId)
    requires id in s.ids && id in s.orders
    ensures var t := Run(s, events);
        id in t.ids && (id in t.orders ==> t.orders[id].createdAt == s.orders[id].createdAt)
  {
    hide Step;
    if events != [] {
      var n := |events| - 1;
      var t := Run(s, events[..n]);
      CreatedForever(s, events[..n], id);
      Progress.IdsGrow(t, events[n], id);
      if id in Step(t, events[n]).orders {
        NeverReturns(t, events[n], id);
        StepKeepsCreated(t, events[n], id);
      }
    }
  }

  /** A used id comes back for no other order. */
  lemma NeverReturns(s: World, e: Event, id: OrderId)
    requires id in s.ids && id in Step(s, e).orders
    ensures id in s.orders
  {
    hide AdvanceStep, Debit, Credit, Replayed, SearchAnswers, ActiveUnpaidCount, Acceptable;
    if e.Advance? {
      AdvanceNeverReturns(s, e.fault, e.readable, id);
    }
  }

  lemma AdvanceNeverReturns(s: World, fault: Fault, readable: bool, id: OrderId)
    requires id in AdvanceStep(s, fault, readable).orders
    ensures id in s.orders
  {
    hide Debit, KeepProof, UpdateStock, OperationApplied;
  }

  /** While twenty unpaid orders with an unusable line, all older and all expired by the job's first
      turn, are in the way, no run of any events in which the job alone releases orders releases the
      order behind them. */
  lemma {:induction false} StuckOrdersStarve(s: World, events: seq<Event>, origins: nat -> Origin,
                                             ids: set<OrderId>, due: int, x: OrderId)
    requires Reservation.IdsKnown(s) && x in s.orders && Unreleased(s, x)
    requires |ids| >= LIMIT && AllBlock(s, ids, s.orders[x].createdAt, due)
    requires forall k :: 0 <= k < |events| ==> FromJob(s, events, k, origins(k), due)
    ensures Unreleased(Run(s, events), x)
    ensures forall k :: 0 <= k < |events| ==> events[k] != BeginRelease(x)
  {
    hide Step, FromJob, AllBlock, Unreleased;
    if events != [] {
      var n := |events| - 1;
      forall k | 0 <= k < n
        ensures FromJob(s, events[..n], k, origins(k), due)
      {
        assert FromJob(s, events, k, origins(k), due);
        FromJobPrefix(s, events, n, k, origins(k), due);
      }
      StuckOrdersStarve(s, events[..n], origins, ids, due, x);
      assert FromJob(s, events, n, origins(n), due);
      NotReleasedNow(s, events, n, origins(n), ids, due, x);
      StepKeepsUnreleased(Run(s, events[..n]), events[n], x);
      assert forall k :: 0 <= k < n ==> events[..n][k] == events[k];
    }
  }

  lemma FromJobPrefix(s: World, events: seq<Event>, n: nat, k: nat, from: Origin, due: int)
    requires k < n <= |events| && FromJob(s, events, k, from, due)
    ensures FromJob(s, events[..n], k, from, due)
  {
    hide Run, Selects, Dated;
    if events[k].BeginRelease? {
      assert events[..n][..from.at] == events[..from.at];
    }
  }

  lemma NotReleasedNow(s: World, events: seq<Event>, k: nat, from: Origin, ids: set<OrderId>, due: int, x: OrderId)
    requires Reservation.IdsKnown(s) && x in s.orders && x in s.ids
    requires |ids| >= LIMIT && AllBlock(s, ids, s.orders[x].createdAt, due)
    requires k < |events| && FromJob(s, events, k, from, due)
    ensures events[k] != BeginRelease(x)
  {
    if events[k] == BeginRelease(x) {
      var t := Run(s, events[..from.at]);
      var created := s.orders[x].createdAt;
      BlockForever(s, events[..from.at], ids, created, due);
      CreatedForever(s, events[..from.at], x);
      ChosenIsOrder(t, from.glance, from.chosen, x);
      LaterBlocks(t, ids, created, due, from.glance.now);
      NotSelected(t, from.glance, from.chosen, ids, x);
      assert false;
    }
  }

  lemma ChosenIsOrder(s: World, g: Glance, chosen: seq<OrderId>, x: OrderId)
    requires Selects(s, g, chosen) && x in chosen
    ensures x in s.orders
  {
  }

  lemma LaterBlocks(s: World, ids: set<OrderId>, created: int, due: int, now: int)
    requires AllBlock(s, ids, created, due) && due <= now
    ensures AllBlock(s, ids, created, now)
  {
  }

  // ---------------------------------------------------------------- twenty stuck orders are reached

  function Name(k: nat): string {
    seq(k, _ => 'c')
  }

  lemma NamesDiffer(a: nat, b: nat)
    requires a != b
    ensures Name(a) != Name(b)
  {
    assert |Name(a)| != |Name(b)|;
  }

  function Names(n: nat): set<string> {
    set k: nat | k < n :: Name(k)
  }

  /** A shop with `m` customers and no orders. */
  function Market(m: nat): World {
    World(map[], map c | c in Names(m) :: Customer(0, 0, []), [], Sheet([], [], None), None, [], {}, {})
  }

  /** The k-th customer asks, at second k, for a catalog row that has no SKU. */
  function AskAt(k: nat): Request {
    Progress.UNNUMBERED.(customer := Name(k), now := k)
  }

  function Place(k: nat): Event {
    BeginCreate(AskAt(k), None, Name(k))
  }

  function PlaceAll(n: nat): seq<Event> {
    if n == 0 then [] else PlaceAll(n - 1) + [Place(n - 1)] + [Abort]
  }

  predicate Placed(s: World, m: nat, n: nat) {
    && s.job.None? && s.customers == Market(m).customers
    && s.orders == (map id | id in Names(n) :: NewOrder(AskAt(|id|)))
    && forall id :: id in s.ids ==> |id| < n
  }

  lemma NamesMean(n: nat)
    ensures |Name(n)| == n && Names(n + 1) == Names(n) + {Name(n)}
    ensures forall id :: id in Names(n) ==> |id| < n
  {
  }

  lemma PlaceInserts(s: World, m: nat, n: nat)
    requires Placed(s, m, n) && n < m
    ensures CreateStep(s, AskAt(n), None, Name(n)) == Insert(s, AskAt(n), Name(n))
  {
    NothingActive(s, m, n);
    NothingRepeats(s, m, n);
    NamesMean(n);
    assert Name(n) in Names(m);
    hide ActiveUnpaidCount, SearchAnswers, Name, Names, Insert;
  }

  lemma InsertedPlaced(s: World, m: nat, n: nat)
    requires Placed(s, m, n)
    ensures Placed(EndJob(Insert(s, AskAt(n), Name(n))), m, n + 1)
  {
    NamesMean(n);
    hide Name, Names, Market, NewOrder;
  }

  lemma PlaceOne(s: World, m: nat, n: nat)
    requires Placed(s, m, n) && n < m
    ensures Placed(EndJob(CreateStep(s, AskAt(n), None, Name(n))), m, n + 1)
  {
    hide *;
    PlaceInserts(s, m, n);
    InsertedPlaced(s, m, n);
  }

  lemma NothingActive(s: World, m: nat, n: nat)
    requires Placed(s, m, n)
    ensures ActiveUnpaidCount(s, Name(n)) == 0
  {
    forall id | id in s.orders
      ensures !ActiveUnpaid(s.orders[id], Name(n))
    {
      NamesDiffer(|id|, n);
    }
    assert (set id | id in s.orders && ActiveUnpaid(s.orders[id], Name(n))) == {};
  }

  lemma NothingRepeats(s: World, m: nat, n: nat)
    requires Placed(s, m, n)
    ensures SearchAnswers(s, AskAt(n), None)
  {
    forall id | id in s.orders
      ensures !Repeats(s.orders[id], AskAt(n))
    {
      NamesDiffer(|id|, n);
    }
  }

  lemma NonePlaced(m: nat)
    ensures Placed(Run(Market(m), PlaceAll(0)), m, 0)
  {
    assert Names(0) == {};
  }

  lemma PlaceAllNext(m: nat, n: nat)
    ensures Run(Market(m), PlaceAll(n + 1)) == EndJob(CreateStep(Run(Market(m), PlaceAll(n)), AskAt(n), None, Name(n)))
  {
    var before := PlaceAll(n);
    var s := Run(Market(m), before);
    assert PlaceAll(n + 1) == before + [Place(n)] + [Abort];
    hide Run, PlaceAll, Market, CreateStep;
    Retries.RunAppends(Market(m), before, Place(n));
    Retries.RunAppends(Market(m), before + [Place(n)], Abort);
    Retries.CreateIsStep(s, AskAt(n), None, Name(n));
    AbortEnds(CreateStep(s, AskAt(n), None, Name(n)));
    hide Step;
  }

  lemma AbortEnds(s: World)
    ensures Step(s, Abort) == EndJob(s)
  {
  }

  lemma {:induction false} AllPlaced(m: nat, n: nat)
    requires n <= m
    ensures Placed(Run(Market(m), PlaceAll(n)), m, n)
  {
    hide *;
    if n == 0 {
      NonePlaced(m);
    } else {
      AllPlaced(m, n - 1);
      PlaceAllNext(m, n - 1);
      PlaceOne(Run(Market(m), PlaceAll(n - 1)), m, n - 1);
    }
  }

  lemma {:induction false} NamesCount(n: nat)
    ensures |Names(n)| == n
  {
    if n > 0 {
      NamesCount(n - 1);
      assert Names(n) == Names(n - 1) + {Name(n - 1)};
      assert forall id :: id in Names(n - 1) ==> |id| < n - 1;
    }
  }

  lemma PlacedBlocks(s: World, m: nat, n: nat, id: OrderId)
    requires Placed(s, m, n) && id in Names(n)
    ensures Blocks(s, id, n, n + TTL_SECONDS)
  {
    Progress.Unnumbered();
    NamesMean(n);
    assert s.orders[id] == NewOrder(AskAt(|id|));
    hide ValidItems, Name, Names, Market;
  }

  lemma MarketOpens(m: nat)
    ensures Reservation.Init(Market(m))
  {
    hide Name;
  }

  /** From an empty shop a run reaches a state with twenty such orders in the way of every later one. */
  lemma TwentyStuck()
    ensures Reservation.Init(Market(LIMIT)) && |Names(LIMIT)| >= LIMIT
    ensures AllBlock(Run(Market(LIMIT), PlaceAll(LIMIT)), Names(LIMIT), LIMIT, LIMIT + TTL_SECONDS)
  {
    NamesCount(LIMIT);
    AllPlaced(LIMIT, LIMIT);
    MarketOpens(LIMIT);
    var s := Run(Market(LIMIT), PlaceAll(LIMIT));
    hide Run, Names, Market, Placed, Blocks, PlaceAll, Reservation.Init;
    forall id | id in Names(LIMIT)
      ensures Blocks(s, id, LIMIT, LIMIT + TTL_SECONDS)
    {
      PlacedBlocks(s, LIMIT, LIMIT, id);
    }
  }
}
