/** Further properties of the broadcast ledger, and why its timing hypothesis is needed. */
module BroadcastFacts {
  import opened Common
  import opened Broadcast

  // ---------------------------------------------------------------- requeueing

  predicate BecomesPending(s: Ledger, e: Event, to: Recipient) {
    && to in s.deliveries && s.deliveries[to].status != Pending
    && to in Step(s, e).deliveries && Step(s, e).deliveries[to].status == Pending
  }

  lemma RequeueCases(s: Ledger, e: Event, to: Recipient)
    requires BecomesPending(s, e, to) && !e.Retry?
    ensures var d := s.deliveries[to];
      || (e.RequeueStale? && Stale(d, s.now) && !d.marked)
      || (e.ResetFailures? && d.status == Failed && d.note == KnownSendFailure)
  {
    hide FinalStatus, WithStatus;
  }

  lemma NobodyHolds(s: Ledger, to: Recipient)
    requires ClaimsDated(s) && Timely(s) && to in s.deliveries && Stale(s.deliveries[to], s.now)
    ensures !Unmarked(s.workers, to)
  {
    forall i | 0 <= i < |s.workers|
      ensures !Claims(s.workers[i], to)
    {
    }
  }

  /** Without an operator only sends that never started, or that Meta refused for certain, are
      requeued; and nobody is then on the way to a send beyond what operators confirmed. */
  lemma AutomaticRequeueIsSafe(s: Ledger, events: seq<Event>, e: Event, to: Recipient)
    requires Init(s) && TimelyRun(s, events)
    requires var t := Run(s, events); BecomesPending(t, e, to) && !e.Retry? && (e.RequeueStale? ==> Timely(t))
    ensures var d := Run(s, events).deliveries[to];
      && ((d.status == Sending && !d.marked) || (d.status == Failed && d.note == KnownSendFailure))
      && d.reached <= d.retries
  {
    hide Step;
    AtMostOnce(s, events);
    var t := Run(s, events);
    RequeueCases(t, e, to);
    assert Covered(t, to);
    if e.RequeueStale? {
      NobodyHolds(t, to);
    }
  }

  /** A sent delivery stays sent. */
  lemma SentIsFinal(s: Ledger, e: Event, to: Recipient)
    requires to in s.deliveries && s.deliveries[to].status == Sent
    ensures to in Step(s, e).deliveries && Step(s, e).deliveries[to].status == Sent
  {
    hide FinalStatus, WithStatus;
  }

  lemma {:induction false} SentForever(s: Ledger, events: seq<Event>, to: Recipient)
    requires to in s.deliveries && s.deliveries[to].status == Sent
    ensures to in Run(s, events).deliveries && Run(s, events).deliveries[to].status == Sent
  {
    hide Step;
    if events != [] {
      SentForever(s, events[..|events| - 1], to);
      SentIsFinal(Run(s, events[..|events| - 1]), events[|events| - 1], to);
    }
  }

  // ---------------------------------------------------------------- the audience

  lemma StepKeepsAudience(s: Ledger, e: Event)
    requires s.seeded
    ensures Step(s, e).seeded && Step(s, e).deliveries.Keys == s.deliveries.Keys
  {
    hide FinalStatus, WithStatus;
    var t := Step(s, e);
    assert forall to :: to in t.deliveries <==> to in s.deliveries;
  }

  /** Once seeded, no run, with any number of resets and further seedings, changes the recipients. */
  lemma {:induction false} AudienceIsFixed(s: Ledger, events: seq<Event>)
    requires s.seeded
    ensures Run(s, events).seeded && Run(s, events).deliveries.Keys == s.deliveries.Keys
  {
    hide Step;
    if events != [] {
      AudienceIsFixed(s, events[..|events| - 1]);
      StepKeepsAudience(Run(s, events[..|events| - 1]), events[|events| - 1]);
    }
  }

  // ---------------------------------------------------------------- counts and the final status

  lemma PartsAddUp(a: set<Recipient>, b: set<Recipient>, c: set<Recipient>, d: set<Recipient>, e: set<Recipient>)
    requires a !! b && (a + b) !! c && (a + b + c) !! d && (a + b + c + d) !! e
    ensures |a + b + c + d + e| == |a| + |b| + |c| + |d| + |e|
  {
  }

  lemma StatusesPartition(s: Ledger)
    ensures var all := WithStatus(s, Pending) + WithStatus(s, Sending) + WithStatus(s, Sent) + WithStatus(s, Failed)
        + WithStatus(s, Unknown);
      all == s.deliveries.Keys
  {
    var all := WithStatus(s, Pending) + WithStatus(s, Sending) + WithStatus(s, Sent) + WithStatus(s, Failed)
        + WithStatus(s, Unknown);
    forall to | to in s.deliveries
      ensures to in all
    {
      assert to in WithStatus(s, s.deliveries[to].status);
    }
  }

  lemma StatusesDisjoint(s: Ledger, x: DeliveryStatus, y: DeliveryStatus)
    requires x != y
    ensures WithStatus(s, x) !! WithStatus(s, y)
  {
  }

  /** `_delivery_counts` counts every row once. */
  lemma CountsAddUp(s: Ledger)
    ensures |WithStatus(s, Pending)| + |WithStatus(s, Sending)| + |WithStatus(s, Sent)| + |WithStatus(s, Failed)|
            + |WithStatus(s, Unknown)| == |s.deliveries|
  {
    hide WithStatus;
    forall x, y | x != y
      ensures WithStatus(s, x) !! WithStatus(s, y)
    {
      StatusesDisjoint(s, x, y);
    }
    PartsAddUp(WithStatus(s, Pending), WithStatus(s, Sending), WithStatus(s, Sent), WithStatus(s, Failed),
        WithStatus(s, Unknown));
    StatusesPartition(s);
  }

  predicate Each(s: Ledger, statuses: set<DeliveryStatus>) {
    forall to :: to in s.deliveries ==> s.deliveries[to].status in statuses
  }

  /** The stored outcome, exactly: pending rows are no errors. */
  lemma FinalStatusMeans(s: Ledger)
    ensures FinalStatus(s) == Complete <==> Each(s, {Sent, Pending})
    ensures FinalStatus(s) == Broken <==> !Each(s, {Sent, Pending}) && Each(s, {Pending, Sending, Failed, Unknown})
    ensures FinalStatus(s) in {Complete, Partial, Broken}
  {
    EmptyMeans(s, Failed);
    EmptyMeans(s, Sending);
    EmptyMeans(s, Unknown);
    EmptyMeans(s, Sent);
    if FinalStatus(s) == Complete {
      assert Each(s, {Sent, Pending});
    }
    if |WithStatus(s, Sent)| == 0 {
      assert Each(s, {Pending, Sending, Failed, Unknown});
    }
  }

  lemma EmptyMeans(s: Ledger, status: DeliveryStatus)
    ensures |WithStatus(s, status)| == 0 <==> forall to :: to in s.deliveries ==> s.deliveries[to].status != status
  {
    if |WithStatus(s, status)| == 0 {
      forall to | to in s.deliveries
        ensures s.deliveries[to].status != status
      {
        assert to !in WithStatus(s, status);
      }
    } else if WithStatus(s, status) != {} {
      var to :| to in WithStatus(s, status);
    }
  }

  /** Steps that requeue nothing. */
  predicate Keeps(e: Event) {
    !e.RequeueStale? && !e.ResetFailures? && !e.Retry?
  }

  lemma KeepsNotPending(s: Ledger, e: Event, to: Recipient)
    requires s.seeded && Keeps(e) && to in Step(s, e).deliveries && Step(s, e).deliveries[to].status == Pending
    ensures to in s.deliveries && s.deliveries[to].status == Pending
  {
    StepKeepsAudience(s, e);
    if to in s.deliveries && s.deliveries[to].status != Pending {
      RequeueCases(s, e, to);
    }
  }

  /** Pending rows only go down while nothing is requeued: the measure of the send loop. */
  lemma PendingShrinks(s: Ledger, e: Event)
    requires s.seeded && Keeps(e)
    ensures WithStatus(Step(s, e), Pending) <= WithStatus(s, Pending)
  {
    forall to | to in WithStatus(Step(s, e), Pending)
      ensures to in WithStatus(s, Pending)
    {
      KeepsNotPending(s, e, to);
    }
  }

  /** Each claim, of an eligible recipient or not, takes one row off the pending ones. */
  lemma ClaimTakesOne(s: Ledger, w: nat, to: Recipient, eligible: bool)
    requires At(s, w) && s.workers[w] == Looping && to in s.deliveries && s.deliveries[to].status == Pending
    ensures WithStatus(Step(s, Claim(w, to, eligible)), Pending) == WithStatus(s, Pending) - {to}
  {
  }

  lemma {:induction false} RunKeepsNonePending(s: Ledger, events: seq<Event>)
    requires s.seeded && WithStatus(s, Pending) == {}
    requires forall i :: 0 <= i < |events| ==> Keeps(events[i])
    ensures Run(s, events).seeded && WithStatus(Run(s, events), Pending) == {}
  {
    hide Step, WithStatus;
    if events != [] {
      var n := |events| - 1;
      RunKeepsNonePending(s, events[..n]);
      StepKeepsAudience(Run(s, events[..n]), events[n]);
      PendingShrinks(Run(s, events[..n]), events[n]);
    }
  }

  /** A sender that found nothing left and then counts, with nothing requeued in between, stores
      `sent` exactly when every delivery is sent. */
  lemma CompleteMeansAllSent(s: Ledger, events: seq<Event>, w: nat)
    requires s.seeded && At(s, w) && Step(s, NoneLeft(w)) != s
    requires forall i :: 0 <= i < |events| ==> Keeps(events[i])
    ensures var t := Run(Step(s, NoneLeft(w)), events); FinalStatus(t) == Complete <==> Each(t, {Sent})
  {
    var t := Run(Step(s, NoneLeft(w)), events);
    NonePendingSeen(s, w);
    RunKeepsNonePending(Step(s, NoneLeft(w)), events);
    FinalStatusMeans(t);
    EmptyMeans(t, Pending);
    assert Each(t, {Sent, Pending}) <==> Each(t, {Sent});
  }

  lemma NonePendingSeen(s: Ledger, w: nat)
    requires At(s, w) && Step(s, NoneLeft(w)) != s
    ensures WithStatus(s, Pending) == {} && WithStatus(Step(s, NoneLeft(w)), Pending) == {}
    ensures Step(s, NoneLeft(w)).seeded == s.seeded
  {
  }

  // ---------------------------------------------------------------- when requeueing breaks the bound

  predicate TooOften(s: Ledger, to: Recipient) {
    to in s.deliveries && s.deliveries[to].reached > 1 + s.deliveries[to].retries
  }

  lemma {:induction false} CoveredStays(s: Ledger, events: seq<Event>, to: Recipient)
    requires Sound(s) && to in s.deliveries && Covered(s, to) && TimelyRun(s, events)
    ensures var t := Run(s, events); Sound(t) && to in t.deliveries && Covered(t, to)
  {
    hide Step, Sound, Covered, Timely;
    if events != [] {
      var n := |events| - 1;
      var t := Run(s, events[..n]);
      CoveredStays(s, events[..n], to);
      StepKeepsRows(t, events[n], to);
      StepCovered(t, events[n], to);
      StepKeepsSound(t, events[n]);
    }
  }

  lemma StepKeepsRows(s: Ledger, e: Event, to: Recipient)
    requires to in s.deliveries
    ensures to in Step(s, e).deliveries
  {
    hide FinalStatus, WithStatus;
  }

  /** Events among which nothing stale is requeued. */
  predicate NoRequeue(events: seq<Event>) {
    forall i :: 0 <= i < |events| ==> !events[i].RequeueStale?
  }

  lemma {:induction false} NoRequeueIsTimely(s: Ledger, events: seq<Event>)
    requires NoRequeue(events)
    ensures TimelyRun(s, events)
  {
    if events != [] {
      NoRequeueIsTimely(s, events[..|events| - 1]);
    }
  }

  lemma {:induction false} RunJoins(s: Ledger, before: seq<Event>, after: seq<Event>)
    ensures Run(s, before + after) == Run(Run(s, before), after)
  {
    hide Step;
    if after == [] {
      assert before + after == before;
    } else {
      var n := |after| - 1;
      assert (before + after)[..|before| + n] == before + after[..n];
      RunJoins(s, before, after[..n]);
    }
  }

  lemma RunAppends(s: Ledger, before: seq<Event>, e: Event)
    ensures Run(s, before + [e]) == Step(Run(s, before), e)
  {
    assert (before + [e])[..|before|] == before;
  }

  /** From `s` to `t` more was sent to the recipient and less is to come; the row is being sent. */
  predicate Sends(s: Ledger, t: Ledger, to: Recipient, reached: nat, load: int) {
    && to in s.deliveries && to in t.deliveries && t.deliveries[to].status == Sending
    && t.deliveries[to].reached == s.deliveries[to].reached + reached
    && t.deliveries[to].retries == s.deliveries[to].retries
    && TotalLoad(t.workers, to) == TotalLoad(s.workers, to) - load
  }

  lemma IdleSender(workers: seq<Worker>, x: Worker, to: Recipient)
    ensures TotalLoad(workers + [x], to) == TotalLoad(workers, to) + Load(x, to)
  {
    assert (workers + [x])[..|workers|] == workers;
  }

  /** A new sender takes the pending row and sends. */
  lemma SendAgain(s: Ledger, to: Recipient) returns (events: seq<Event>)
    requires to in s.deliveries && s.deliveries[to].status == Pending
    ensures NoRequeue(events) && Sends(s, Run(s, events), to, 1, 0)
  {
    hide FinalStatus, WithStatus, TotalLoad;
    var w := |s.workers|;
    events := [Event.ResetBroadcast] + [Start] + [Seed(w, {})] + [Claim(w, to, true)] + [Mark(w, Written)]
        + [Send(w, Accepted)];
    var begun := NewSender(s, to);
    var claimed := Step(begun, Claim(w, to, true));
    assert claimed.workers == s.workers + [Claimed(to, s.now)];
    var sent := Step(Step(claimed, Mark(w, Written)), Send(w, Accepted));
    assert sent.workers == s.workers + [Recording(to, Accepted)];
    IdleSender(s.workers, Recording(to, Accepted), to);
    hide Run, Step;
    RunSix(s, Event.ResetBroadcast, Start, Seed(w, {}), Claim(w, to, true), Mark(w, Written), Send(w, Accepted));
  }

  lemma NewSender(s: Ledger, to: Recipient) returns (t: Ledger)
    requires to in s.deliveries
    ensures t == Step(Step(Step(s, Event.ResetBroadcast), Start), Seed(|s.workers|, {}))
    ensures to in t.deliveries && t.deliveries[to] == s.deliveries[to] && t.workers == s.workers + [Looping]
    ensures t.now == s.now
  {
    hide FinalStatus, WithStatus;
    t := Step(Step(Step(s, Event.ResetBroadcast), Start), Seed(|s.workers|, {}));
  }

  lemma RunSix(s: Ledger, a: Event, b: Event, c: Event, d: Event, e: Event, f: Event)
    ensures Run(s, [a] + [b] + [c] + [d] + [e] + [f]) == Step(Step(Step(Step(Step(Step(s, a), b), c), d), e), f)
  {
    hide Step, Run;
    RunOne(s, a);
    RunAppends(s, [a], b);
    RunAppends(s, [a] + [b], c);
    RunAppends(s, [a] + [b] + [c], d);
    RunAppends(s, [a] + [b] + [c] + [d], e);
    RunAppends(s, [a] + [b] + [c] + [d] + [e], f);
  }

  lemma RunOne(s: Ledger, e: Event)
    ensures Run(s, [e]) == Step(s, e)
  {
    assert [e][..0] == [];
  }

  /** A sender on its way to a send makes it; a refusal not yet recorded lets another sender send. */
  lemma LoadSends(s: Ledger, to: Recipient, w: nat) returns (events: seq<Event>)
    requires to in s.deliveries && s.deliveries[to].status == Sending && At(s, w) && Load(s.workers[w], to) == 1
    ensures NoRequeue(events) && Sends(s, Run(s, events), to, 1, 1)
  {
    hide Run, TotalLoad, FinalStatus, WithStatus;
    if s.workers[w].Claimed? {
      events := [Mark(w, Written)] + [Send(w, Accepted)];
      RunOne(s, Mark(w, Written));
      RunAppends(s, [Mark(w, Written)], Send(w, Accepted));
      var t := Run(s, events);
      assert t.workers == s.workers[w := Recording(to, Accepted)];
      LoadMoves(s.workers, w, Recording(to, Accepted), to);
    } else if s.workers[w].Marked? {
      events := [Send(w, Accepted)];
      RunOne(s, Send(w, Accepted));
      LoadMoves(s.workers, w, Recording(to, Accepted), to);
    } else {
      events := RefusalSends(s, to, w);
    }
  }

  lemma RefusalSends(s: Ledger, to: Recipient, w: nat) returns (events: seq<Event>)
    requires to in s.deliveries && s.deliveries[to].status == Sending
    requires At(s, w) && s.workers[w] == Recording(to, KnownFailed)
    ensures NoRequeue(events) && Sends(s, Run(s, events), to, 1, 1)
  {
    hide TotalLoad, FinalStatus, WithStatus;
    var recorded := Step(s, Record(w, Written));
    var free := Step(recorded, Event.ResetFailures);
    assert free.workers == s.workers[w := Looping];
    LoadMoves(s.workers, w, Looping, to);
    var rest := SendAgain(free, to);
    hide Run, Step;
    RunOne(s, Record(w, Written));
    RunAppends(s, [Record(w, Written)], Event.ResetFailures);
    RunJoins(s, [Record(w, Written)] + [Event.ResetFailures], rest);
    events := [Record(w, Written)] + [Event.ResetFailures] + rest;
  }

  lemma {:induction false} SomeLoad(workers: seq<Worker>, to: Recipient) returns (w: nat)
    requires TotalLoad(workers, to) > 0
    ensures w < |workers| && Load(workers[w], to) == 1
  {
    hide Load;
    var n := |workers| - 1;
    LoadAtMostOne(workers[n], to);
    if Load(workers[n], to) == 1 {
      w := n;
    } else {
      w := SomeLoad(workers[..n], to);
    }
  }

  lemma LoadAtMostOne(w: Worker, to: Recipient)
    ensures Load(w, to) <= 1
  {
  }

  /** Everything the senders may still cause can come about. */
  lemma {:induction false} AllLoadSends(s: Ledger, to: Recipient) returns (events: seq<Event>)
    requires to in s.deliveries && s.deliveries[to].status == Sending
    ensures NoRequeue(events) && Sends(s, Run(s, events), to, TotalLoad(s.workers, to), TotalLoad(s.workers, to))
    decreases TotalLoad(s.workers, to)
  {
    hide Step, TotalLoad, Load;
    events := [];
    if TotalLoad(s.workers, to) > 0 {
      var w := SomeLoad(s.workers, to);
      var first := LoadSends(s, to, w);
      var rest := AllLoadSends(Run(s, first), to);
      RunJoins(s, first, rest);
      events := first + rest;
    }
  }

  predicate HeldStale(s: Ledger, to: Recipient)
    requires to in s.deliveries
  {
    && Stale(s.deliveries[to], s.now) && !s.deliveries[to].marked && Unmarked(s.workers, to)
    && s.deliveries[to].reached + TotalLoad(s.workers, to) == 1 + s.deliveries[to].retries
  }

  lemma RequeueUncovers(s: Ledger, to: Recipient)
    requires to in s.deliveries && Covered(s, to)
    ensures var t := Step(s, RequeueStale); to in t.deliveries && (!Covered(t, to) <==> HeldStale(s, to))
  {
    hide TotalLoad, FinalStatus, WithStatus, Unmarked;
  }

  lemma HeldStaleSends(s: Ledger, to: Recipient) returns (events: seq<Event>)
    requires to in s.deliveries && HeldStale(s, to)
    ensures NoRequeue(events) && TooOften(Run(Step(s, RequeueStale), events), to)
  {
    hide TotalLoad, Unmarked, Run, FinalStatus, WithStatus;
    var t := Step(s, RequeueStale);
    var first := SendAgain(t, to);
    var rest := AllLoadSends(Run(t, first), to);
    hide Step;
    RunJoins(t, first, rest);
    events := first + rest;
  }

  /** Requeueing lets a recipient be reached too often, with every later requeueing in time, exactly
      when the row is stale and unmarked, a live sender still holds it, and the sends made and to come
      are all that were allowed. */
  lemma RequeueBreaksExactly(s: Ledger, to: Recipient)
    requires Inv(s) && to in s.deliveries
    ensures (exists events ::
        TimelyRun(Step(s, RequeueStale), events) && TooOften(Run(Step(s, RequeueStale), events), to))
        <==> HeldStale(s, to)
  {
    var t := Step(s, RequeueStale);
    RequeueUncovers(s, to);
    StepKeepsSound(s, RequeueStale);
    if HeldStale(s, to) {
      var events := HeldStaleSends(s, to);
      NoRequeueIsTimely(t, events);
    } else {
      forall events | TimelyRun(t, events)
        ensures !TooOften(Run(t, events), to)
      {
        CoveredStays(t, events, to);
      }
    }
    hide Step, Run, TimelyRun, Sound;
  }

  // ---------------------------------------------------------------- the slow sender

  function NewBroadcast(): Ledger {
    Ledger(map[], false, Draft, 0, [], 0)
  }

  /** A sender stalls after its claim; its row is requeued and sent by another, and then it wakes up. */
  function SlowRun(): seq<Event> {
    [Start, Seed(0, {"ana"}), Claim(0, "ana", true), Elapse(301), RequeueStale, ResetBroadcast,
     Start, Seed(1, {}), Claim(1, "ana", true), Mark(1, Written), Send(1, Accepted),
     Mark(0, Written), Send(0, Accepted)]
  }

  lemma Next(s: Ledger, events: seq<Event>, k: nat)
    requires k < |events|
    ensures Run(s, events[..k + 1]) == Step(Run(s, events[..k]), events[k])
  {
    assert events[..k + 1][..k] == events[..k];
  }

  /** After k steps of the slow run. */
  function After(k: nat): Ledger
    requires k <= |SlowRun()|
  {
    Run(NewBroadcast(), SlowRun()[..k])
  }

  lemma AfterNext(k: nat)
    requires k < |SlowRun()|
    ensures After(k + 1) == Step(After(k), SlowRun()[k])
  {
    Next(NewBroadcast(), SlowRun(), k);
  }

  function OneRow(d: Delivery, status: BroadcastStatus, workers: seq<Worker>, now: int): Ledger {
    Ledger(map["ana" := d], true, status, 0, workers, now)
  }

  lemma SlowClaim()
    ensures After(4) == OneRow(Delivery(Sending, false, Some(0), NoNote, 1, 0, 0), Running, [Claimed("ana", 0)], 301)
  {
    hide After, WithStatus, FinalStatus;
    assert After(0) == NewBroadcast() by {
      RunNothing();
    }
    AfterNext(0);
    AfterNext(1);
    assert After(2).deliveries == map["ana" := NewDelivery()];
    SlowClaimed();
    AfterNext(3);
  }

  lemma SlowClaimed()
    requires After(2) == OneRow(NewDelivery(), Running, [Looping], 0)
    ensures After(3) == OneRow(Delivery(Sending, false, Some(0), NoNote, 1, 0, 0), Running, [Claimed("ana", 0)], 0)
  {
    hide After, WithStatus, FinalStatus;
    AfterNext(2);
  }

  lemma RunNothing()
    ensures After(0) == NewBroadcast()
  {
  }

  lemma SlowRequeue()
    ensures After(7) == OneRow(Delivery(Pending, false, None, RecoveredBeforeSend, 1, 0, 0), Running,
                               [Claimed("ana", 0), Fresh], 301)
  {
    hide After, FinalStatus;
    SlowClaim();
    AfterNext(4);
    assert After(5).deliveries == map["ana" := Delivery(Pending, false, None, RecoveredBeforeSend, 1, 0, 0)];
    AfterNext(5);
    assert WithStatus(After(5), Sent) == {};
    AfterNext(6);
  }

  lemma SlowSecond()
    ensures After(11) == OneRow(Delivery(Sending, true, Some(301), RecoveredBeforeSend, 2, 0, 1), Running,
                                [Claimed("ana", 0), Recording("ana", Accepted)], 301)
  {
    hide After, WithStatus, FinalStatus;
    SlowRequeue();
    AfterNext(7);
    AfterNext(8);
    AfterNext(9);
    AfterNext(10);
  }

  lemma SlowWakes()
    ensures After(13).deliveries == map["ana" := Delivery(Sending, true, Some(301), RecoveredBeforeSend, 2, 0, 2)]
  {
    hide After, WithStatus, FinalStatus;
    SlowSecond();
    AfterNext(11);
    AfterNext(12);
  }

  lemma SlowIsUntimely()
    ensures !TimelyRun(NewBroadcast(), SlowRun())
  {
    hide Step, Run, TimelyRun;
    SlowClaim();
    assert After(4).workers[0] == Claimed("ana", 0);
    Untimely(SlowRun(), 4);
  }

  /** The timing hypothesis cannot be dropped: with no retry confirmed, one recipient is reached twice. */
  lemma SlowSenderSendsTwice()
    ensures Init(NewBroadcast()) && !TimelyRun(NewBroadcast(), SlowRun())
    ensures var t := Run(NewBroadcast(), SlowRun());
      "ana" in t.deliveries && t.deliveries["ana"].reached == 2 && t.deliveries["ana"].retries == 0
  {
    hide Step, Run, TimelyRun;
    SlowWakes();
    SlowIsUntimely();
    assert SlowRun()[..13] == SlowRun();
  }

  lemma {:induction false} Untimely(events: seq<Event>, k: nat)
    requires k < |events| && events[k].RequeueStale? && !Timely(Run(NewBroadcast(), events[..k]))
    ensures !TimelyRun(NewBroadcast(), events)
  {
    hide Step, Timely;
    var n := |events| - 1;
    if k < n {
      assert events[..n][..k] == events[..k];
      Untimely(events[..n], k);
    }
  }
}
