/** The broadcast functions in the form they have in store/app/broadcast: a loop that claims, marks,
    sends and records, and endpoints that overwrite rows. The object's history says which run of the
    machine in module Broadcast its fields have gone through. */
module BroadcastService {
  import opened Common
  import opened Broadcast
  import opened BroadcastFacts
  import opened BroadcastRecords

  /** One pause of a sender: what others do meanwhile, who is no longer eligible, how the sender's own
      next statement or call goes, and how each claiming statement goes, by the row it picks. */
  datatype Turn = Turn(others: seq<Event>, ineligible: set<Recipient>, write: Write, verdict: Verdict,
                       claim: Option<Recipient> -> Write)

  /** What becomes of one claimed delivery, with the doings of others in between: it is marked, sent
      unless marking raised, and recorded, a second time as an exception when recording a success raised. */
  function DeliverEvents(w: nat, env: nat -> Turn, at: nat): seq<Event> {
    SendEvents(w, env, at) + RecordEvents(w, Outgoing(env, at), env, at)
  }

  function SendEvents(w: nat, env: nat -> Turn, at: nat): seq<Event> {
    env(at).others + [Mark(w, env(at).write)]
    + (if env(at).write == Written then env(at + 1).others + [Send(w, env(at + 1).verdict)] else [])
  }

  function RecordEvents(w: nat, verdict: Verdict, env: nat -> Turn, at: nat): seq<Event> {
    env(at + 2).others + [Record(w, env(at + 2).write)]
    + (if verdict == Accepted && env(at + 2).write != Written then env(at + 3).others + [Record(w, env(at + 3).write)]
        else [])
  }

  /** How sending ended: an exception of the mark counts like one of the call. */
  function Outgoing(env: nat -> Turn, at: nat): Verdict {
    if env(at).write == Written then env(at + 1).verdict else OtherFailed
  }

  predicate Own(e: Event, w: nat) {
    match e
    case Seed(v, _) => v == w
    case Claim(v, _, _) => v == w
    case NoneLeft(v) => v == w
    case Break(v) => v == w
    case Mark(v, _) => v == w
    case Send(v, _) => v == w
    case Record(v, _) => v == w
    case Count(v) => v == w
    case Close(v) => v == w
    case Fail(v) => v == w
    case Crash(v) => v == w
    case _ => false
  }

  /** Others requeue nothing and do not act for sender w. */
  predicate Harmless(events: seq<Event>, w: nat) {
    forall i :: 0 <= i < |events| ==> Keeps(events[i]) && !Own(events[i], w)
  }

  lemma HarmlessStep(s: Ledger, e: Event, w: nat)
    requires At(s, w) && !Own(e, w)
    ensures At(Step(s, e), w) && Step(s, e).workers[w] == s.workers[w]
  {
    hide FinalStatus, WithStatus;
  }

  lemma {:induction false} HarmlessRun(s: Ledger, events: seq<Event>, w: nat)
    requires s.seeded && At(s, w) && Harmless(events, w)
    ensures var t := Run(s, events);
      && t.seeded && t.deliveries.Keys == s.deliveries.Keys && At(t, w) && t.workers[w] == s.workers[w]
      && WithStatus(t, Pending) <= WithStatus(s, Pending)
  {
    hide Step, Keeps, Own, WithStatus;
    if events != [] {
      var n := |events| - 1;
      HarmlessRun(s, events[..n], w);
      var t := Run(s, events[..n]);
      StepKeepsAudience(t, events[n]);
      HarmlessStep(t, events[n], w);
      PendingShrinks(t, events[n]);
    }
  }

  /** The rows a recovery statement changes: claimed over five minutes ago, with or without a mark. */
  function StaleRows(s: Ledger, marked: bool): set<Recipient> {
    set r | r in s.deliveries && Stale(s.deliveries[r], s.now) && s.deliveries[r].marked == marked
  }

  lemma RequeueKeepsMarked(s: Ledger)
    ensures StaleRows(Step(s, RequeueStale), true) == StaleRows(s, true)
  {
  }

  datatype Outcome = NotClaimed | Crashed | Finished(final: BroadcastStatus, sent: nat)

  class BroadcastStore {
    var deliveries: map<Recipient, Delivery>
    var seeded: bool
    var status: BroadcastStatus
    var recipients: nat
    var workers: seq<Worker>
    var now: int
    ghost const start: Ledger
    ghost var history: seq<Event>

    function Now(): Ledger
      reads this
    {
      Ledger(deliveries, seeded, status, recipients, workers, now)
    }

    ghost predicate Valid()
      reads this
    {
      Init(start) && Now() == Run(start, history)
    }

    constructor (now: int, status: BroadcastStatus)
      ensures Valid() && Init(start) && history == []
    {
      deliveries, seeded, this.status, recipients, workers, this.now := map[], false, status, 0, [], now;
      start, history := Ledger(map[], false, status, 0, [], now), [];
    }

    /** Books the event the caller has just carried out. */
    ghost method Book(before: Ledger, e: Event)
      requires Init(start) && before == Run(start, history) && Now() == Step(before, e)
      modifies this`history
      ensures Valid() && history == old(history) + [e]
    {
      hide Step, Run;
      RunAppends(start, history, e);
      history := history + [e];
    }

    /** Other senders, the scheduler and the clock. */
    method Meanwhile(others: seq<Event>)
      requires Valid()
      modifies this
      ensures Valid() && Now() == Run(old(Now()), others) && history == old(history) + others
    {
      hide Step, Run;
      var t := Run(Now(), others);
      RunJoins(start, history, others);
      deliveries, seeded, status, recipients, workers, now := t.deliveries, t.seeded, t.status, t.recipients,
          t.workers, t.now;
      history := history + others;
    }

    // ---------------------------------------------------------------- endpoints

    method RequeueStaleClaims() returns (changed: nat)
      requires Valid()
      modifies this`deliveries, this`history
      ensures Valid() && history == old(history) + [RequeueStale] && Now() == Step(old(Now()), RequeueStale)
      ensures changed == |StaleRows(old(Now()), false)|
    {
      ghost var before := Now();
      var stale := StaleRows(Now(), false);
      deliveries := map r | r in deliveries ::
        (if r in stale then deliveries[r].(status := Pending, claimedAt := None, note := RecoveredBeforeSend)
            else deliveries[r]);
      Book(before, RequeueStale);
      changed := |stale|;
    }

    method QuarantineStaleClaims() returns (changed: nat)
      requires Valid()
      modifies this`deliveries, this`history
      ensures Valid() && history == old(history) + [QuarantineStale] && Now() == Step(old(Now()), QuarantineStale)
      ensures changed == |StaleRows(old(Now()), true)|
    {
      ghost var before := Now();
      var stale := StaleRows(Now(), true);
      deliveries := map r | r in deliveries ::
        (if r in stale then deliveries[r].(status := Unknown, note := StaleAttempt) else deliveries[r]);
      Book(before, QuarantineStale);
      changed := |stale|;
    }

    /** `recover_stale_broadcast_deliveries`: two bulk updates, and how many rows each changed. */
    method RecoverStale() returns (requeued: nat, unknown: nat)
      requires Valid()
      modifies this`deliveries, this`history
      ensures Valid() && history == old(history) + [RequeueStale, QuarantineStale]
      ensures Now() == Step(Step(old(Now()), RequeueStale), QuarantineStale)
      ensures requeued == |StaleRows(old(Now()), false)| && unknown == |StaleRows(old(Now()), true)|
    {
      hide Step, StaleRows;
      requeued := RequeueStaleClaims();
      RequeueKeepsMarked(old(Now()));
      unknown := QuarantineStaleClaims();
      assert old(history) + [RequeueStale] + [QuarantineStale] == old(history) + [RequeueStale, QuarantineStale];
    }

    /** `reset_broadcast_endpoint` on a broadcast that exists. */
    method ResetBroadcast()
      requires Valid()
      modifies this
      ensures Valid()
      ensures history == old(history) + [RequeueStale, QuarantineStale, Event.ResetFailures, Event.ResetBroadcast]
      ensures status == Draft && recipients == |WithStatus(Now(), Sent)|
      ensures deliveries.Keys == old(deliveries).Keys
      ensures forall r :: r in deliveries ==> ResetFrom(old(deliveries)[r], deliveries[r], now)
    {
      hide Step, Run, StaleRows, ResetFrom;
      var _, _ := RecoverStale();
      ghost var before := Now();
      deliveries := map r | r in deliveries ::
        (if deliveries[r].status == Failed && deliveries[r].note == KnownSendFailure
         then deliveries[r].(status := Pending, marked := false, note := NoNote) else deliveries[r]);
      FailuresReset(before, Now());
      Book(before, Event.ResetFailures);
      ghost var middle := Now();
      status, recipients := Draft, |set r | r in deliveries && deliveries[r].status == Sent|;
      BroadcastReset(middle, Now());
      Book(middle, Event.ResetBroadcast);
      RunFour(old(Now()), RequeueStale, QuarantineStale, Event.ResetFailures, Event.ResetBroadcast);
      ResetExactly(old(Now()));
      assert old(history) + [RequeueStale, QuarantineStale] + [Event.ResetFailures] + [Event.ResetBroadcast]
          == old(history) + [RequeueStale, QuarantineStale, Event.ResetFailures, Event.ResetBroadcast];
    }

    /** `retry_reconciled_delivery_endpoint`. */
    method RetryDelivery(to: Recipient) returns (retried: bool)
      requires Valid()
      modifies this
      ensures Valid() && Now() == Step(old(Now()), Retry(to))
      ensures retried <==> to in old(deliveries) && old(deliveries)[to].status == Unknown
      ensures !retried ==> Now() == old(Now())
      ensures retried ==>
        var row := old(deliveries)[to];
        deliveries == old(deliveries)[to := row.(status := Pending, claimedAt := None, marked := false,
                                                 note := ManualRetry, retries := row.retries + 1)]
    {
      ghost var before := Now();
      retried := to in deliveries && deliveries[to].status == Unknown;
      if retried {
        deliveries := deliveries[to := deliveries[to].(status := Pending, claimedAt := None, marked := false,
                                                       note := ManualRetry, retries := deliveries[to].retries + 1)];
      } else if to in deliveries {
        assert deliveries[to := deliveries[to]] == deliveries;
      }
      Book(before, Retry(to));
    }

    // ---------------------------------------------------------------- the send loop

    /** The status guard that lets one sender take a draft or scheduled broadcast. */
    method TakeBroadcast() returns (taken: bool, w: nat)
      requires Valid()
      modifies this`status, this`workers, this`history
      ensures Valid() && Now() == Step(old(Now()), Start) && history == old(history) + [Start]
      ensures w == |old(workers)|
      ensures taken <==> old(status) == Draft || old(status) == Scheduled
      ensures taken ==> |workers| == w + 1 && workers[w] == Fresh
    {
      ghost var before := Now();
      w := |workers|;
      taken := status == Draft || status == Scheduled;
      if taken {
        status, workers := Running, workers + [Fresh];
      }
      Book(before, Start);
    }

    /** `_seed_delivery_ledger`, one transaction: the audience is taken once. False when it raises. */
    method SeedDeliveryLedger(w: nat, audience: set<Recipient>, write: Write) returns (done: bool)
      requires Valid() && At(Now(), w) && workers[w] == Fresh
      modifies this`deliveries, this`seeded, this`workers, this`history
      ensures Valid() && done == (write == Written) && |workers| == |old(workers)|
      ensures write == NotWritten ==> Now() == old(Now()) && history == old(history)
      ensures write != NotWritten ==> history == old(history) + [Seed(w, audience)] && seeded && workers[w] == Looping
      ensures old(seeded) ==> deliveries == old(deliveries)
      ensures !old(seeded) && write != NotWritten ==>
        deliveries.Keys == old(deliveries).Keys + audience
        && forall r :: r in deliveries ==>
             deliveries[r] == if r in old(deliveries) then old(deliveries)[r]
                              else Delivery(Pending, false, None, NoNote, 0, 0, 0)
    {
      ghost var before := Now();
      if write != NotWritten {
        if !seeded {
          deliveries := map r | r in deliveries.Keys + audience ::
              (if r in deliveries then deliveries[r] else NewDelivery());
          seeded := true;
        }
        workers := workers[w := Looping];
        Book(before, Seed(w, audience));
      }
      done := write == Written;
    }

    /** The handler around the whole run: the broadcast is stored as failed. */
    method GiveUp(w: nat)
      requires Valid() && At(Now(), w)
      modifies this`status, this`workers, this`history
      ensures Valid() && history == old(history) + [Fail(w)] && |workers| == |old(workers)|
      ensures status == Broken && workers[w] == Gone
    {
      ghost var before := Now();
      status, workers := Broken, workers[w := Gone];
      Book(before, Fail(w));
    }

    /** One claiming statement, on the pending row it picked. */
    method ClaimOne(w: nat, to: Recipient, eligible: bool)
      requires Valid() && At(Now(), w) && workers[w] == Looping && to in deliveries && deliveries[to].status == Pending
      modifies this`deliveries, this`workers, this`history
      ensures Valid() && history == old(history) + [Claim(w, to, eligible)]
      ensures deliveries == old(deliveries)[to := ClaimRow(old(deliveries)[to], eligible, now)]
      ensures workers == if eligible then old(workers)[w := Claimed(to, now)] else old(workers)
      ensures WithStatus(Now(), Pending) == WithStatus(old(Now()), Pending) - {to}
    {
      hide Step, Run, WithStatus;
      ghost var before := Now();
      deliveries := deliveries[to := ClaimRow(deliveries[to], eligible, now)];
      if eligible {
        workers := workers[w := Claimed(to, now)];
      }
      Claiming(before, Now(), w, to, eligible);
      Book(before, Claim(w, to, eligible));
    }

    /** `_claim_next_delivery`: recipients who are no longer eligible are failed on the way. A statement
        may raise, before its commit or after it; the row it claimed is then left as it is. */
    method ClaimNextDelivery(w: nat, ineligible: set<Recipient>, write: Option<Recipient> -> Write)
        returns (claimed: Option<Recipient>, raised: bool)
      requires Valid() && seeded && At(Now(), w) && workers[w] == Looping
      modifies this`deliveries, this`workers, this`history
      ensures Valid() && seeded && |workers| == |old(workers)| && deliveries.Keys == old(deliveries).Keys
      ensures old(history) <= history
      ensures WithStatus(Now(), Pending) <= WithStatus(old(Now()), Pending)
      ensures claimed.Some? ==>
        var to := claimed.value;
        && to in deliveries && to in WithStatus(old(Now()), Pending) && to !in ineligible
        && workers[w] == Claimed(to, now)
        && WithStatus(Now(), Pending) < WithStatus(old(Now()), Pending)
        && deliveries[to] == old(deliveries)[to].(status := Sending, attempts := old(deliveries)[to].attempts + 1,
                                                  claimedAt := Some(now))
      ensures claimed.None? && !raised ==> workers[w] == Looping && WithStatus(Now(), Pending) == {}
      ensures raised ==> claimed.None?
      ensures forall r :: r in deliveries && claimed != Some(r) ==>
        deliveries[r] == old(deliveries)[r]
        || (old(deliveries)[r].status == Pending && r in ineligible
             && deliveries[r] == old(deliveries)[r].(status := Failed, note := Ineligible))
        || (old(deliveries)[r].status == Pending && raised && write(Some(r)) == WrittenUnreported
            && deliveries[r] == old(deliveries)[r].(status := Sending, attempts := old(deliveries)[r].attempts + 1,
                                                    claimedAt := Some(now)) && workers[w] == Claimed(r, now))
    {
      hide Step, Run;
      var pending := WithStatus(Now(), Pending);
      while pending != {}
        invariant Valid() && workers == old(workers) && seeded && deliveries.Keys == old(deliveries).Keys
        invariant old(history) <= history
        invariant pending == WithStatus(Now(), Pending) && pending <= WithStatus(old(Now()), Pending)
        invariant forall r :: r in deliveries ==>
          deliveries[r] == old(deliveries)[r]
          || (r in ineligible && old(deliveries)[r].status == Pending
               && deliveries[r] == ClaimRow(old(deliveries)[r], false, now))
        decreases pending
      {
        var to :| to in pending;
        if write(Some(to)) == NotWritten {
          return None, true;
        }
        ClaimOne(w, to, to !in ineligible);
        if to !in ineligible {
          return if write(Some(to)) == Written then Some(to) else None, write(Some(to)) != Written;
        }
        pending := pending - {to};
        if write(Some(to)) != Written {
          return None, true;
        }
      }
      claimed, raised := None, write(None) != Written;
    }

    /** The `outbound_started_at` update before the call to Meta. An exception is recorded like one of the call. */
    method MarkOutbound(w: nat, to: Recipient, write: Write)
      requires Valid() && At(Now(), w) && workers[w].Claimed? && workers[w].to == to && to in deliveries
      modifies this`deliveries, this`workers, this`history
      ensures Valid() && Now() == Step(old(Now()), Mark(w, write)) && history == old(history) + [Mark(w, write)]
      ensures |workers| == |old(workers)| && deliveries.Keys == old(deliveries).Keys
      ensures workers[w] == if write == Written then Marked(to) else Recording(to, OtherFailed)
      ensures deliveries[to].marked
          == (old(deliveries)[to].marked || (write != NotWritten && old(deliveries)[to].status == Sending))
    {
      ghost var before := Now();
      if write != NotWritten && deliveries[to].status == Sending {
        deliveries := deliveries[to := deliveries[to].(marked := true)];
      } else if write != NotWritten {
        assert deliveries[to := deliveries[to]] == deliveries;
      }
      workers := workers[w := if write == Written then Marked(to) else Recording(to, OtherFailed)];
      Book(before, Mark(w, write));
    }

    /** The call to Meta, whatever the row says by now. */
    method SendTemplate(w: nat, to: Recipient, verdict: Verdict)
      requires Valid() && At(Now(), w) && workers[w] == Marked(to) && to in deliveries
      modifies this`deliveries, this`workers, this`history
      ensures Valid() && Now() == Step(old(Now()), Send(w, verdict)) && history == old(history) + [Send(w, verdict)]
      ensures |workers| == |old(workers)| && deliveries.Keys == old(deliveries).Keys
      ensures workers[w] == Recording(to, verdict)
      ensures deliveries[to] == old(deliveries)[to].(reached := deliveries[to].reached)
      ensures deliveries[to].reached == old(deliveries)[to].reached + (if verdict == KnownFailed then 0 else 1)
    {
      ghost var before := Now();
      deliveries := deliveries[to := SendRow(deliveries[to], verdict)];
      workers := workers[w := Recording(to, verdict)];
      Book(before, Send(w, verdict));
    }

    /** The row the update leaves, if it matches. */
    static method RowAfter(row: Delivery, verdict: Verdict) returns (after: Delivery)
      ensures after == RecordRow(row, verdict)
      ensures if row.status == Sending then RecordedAs(row, after, verdict) else after == row
    {
      if row.status != Sending {
        return row;
      }
      after := if verdict == Accepted then row.(status := Sent)
               else row.(status := if verdict == UnknownFailed then Unknown else Failed,
                         note := if verdict == KnownFailed then KnownSendFailure
                                 else if verdict == UnknownFailed then UnknownSend else OtherException);
    }

    /** The update that records an outcome, on a row that is still being sent; false when it raises. */
    method RecordOutcome(w: nat, to: Recipient, verdict: Verdict, write: Write) returns (recorded: bool)
      requires Valid() && At(Now(), w) && workers[w] == Recording(to, verdict) && to in deliveries
      modifies this`deliveries, this`workers, this`history, this`status
      ensures Valid() && Now() == Step(old(Now()), Record(w, write)) && history == old(history) + [Record(w, write)]
      ensures |workers| == |old(workers)| && deliveries.Keys == old(deliveries).Keys
      ensures recorded == (write == Written)
      ensures workers[w] == if recorded then Looping else if verdict == Accepted then Recording(to, OtherFailed)
          else Gone
      ensures workers[w] == Gone ==> status == Broken
      ensures write == NotWritten || old(deliveries)[to].status != Sending ==> deliveries == old(deliveries)
      ensures write != NotWritten && old(deliveries)[to].status == Sending ==>
        RecordedAs(old(deliveries)[to], deliveries[to], verdict)
    {
      hide Step, Run, RecordRow, RecordedAs;
      ghost var before := Now();
      if write != NotWritten {
        var row := RowAfter(deliveries[to], verdict);
        assert row == deliveries[to] ==> deliveries[to := row] == deliveries;
        deliveries := deliveries[to := row];
      }
      recorded := write == Written;
      if recorded {
        workers := workers[w := Looping];
      } else if verdict == Accepted {
        workers := workers[w := Recording(to, OtherFailed)];
      } else {
        status, workers := Broken, workers[w := Gone];
      }
      Recorded(before, Now(), w, to, verdict, write);
      Book(before, Record(w, write));
    }

    /** `_delivery_counts`, one row after another. */
    method DeliveryCounts() returns (counts: map<DeliveryStatus, nat>)
      ensures counts.Keys == {Pending, Sending, Sent, Failed, Unknown}
      ensures forall x :: x in counts ==> counts[x] == |WithStatus(Now(), x)|
    {
      counts := map[Pending := 0, Sending := 0, Sent := 0, Failed := 0, Unknown := 0];
      var left := deliveries.Keys;
      StartTally(Now());
      hide Tallied, WithStatus;
      while left != {}
        invariant left <= deliveries.Keys && Tallied(Now(), counts, left)
        decreases |left|
      {
        var r :| r in left;
        var x := deliveries[r].status;
        TallyOne(Now(), counts, left, r);
        counts := counts[x := counts[x] + 1];
        left := left - {r};
      }
      AllTallied(Now(), counts);
    }

    /** Others go on while sender w waits. */
    method Wait(w: nat, others: seq<Event>)
      requires Valid() && seeded && At(Now(), w) && Harmless(others, w)
      modifies this
      ensures Valid() && seeded && At(Now(), w) && history == old(history) + others
      ensures Now() == Run(old(Now()), others)
      ensures deliveries.Keys == old(deliveries).Keys && workers[w] == old(workers[w])
      ensures WithStatus(Now(), Pending) <= WithStatus(old(Now()), Pending)
    {
      hide Step, Run, WithStatus, Keeps, Own, Harmless;
      HarmlessRun(Now(), others, w);
      Meanwhile(others);
    }

    /** Marking a claimed delivery, and the call to Meta when that went well. */
    method MarkAndSend(w: nat, to: Recipient, env: nat -> Turn, at: nat) returns (verdict: Verdict)
      requires Valid() && seeded && At(Now(), w) && workers[w].Claimed? && workers[w].to == to && to in deliveries
      requires forall k :: Harmless(env(k).others, w)
      modifies this
      ensures Valid() && seeded && At(Now(), w) && history == old(history) + SendEvents(w, env, at)
      ensures deliveries.Keys == old(deliveries).Keys && WithStatus(Now(), Pending) <= WithStatus(old(Now()), Pending)
      ensures verdict == Outgoing(env, at) && workers[w] == Recording(to, verdict)
    {
      hide Step, Run, WithStatus, Own, Harmless, DeliverEvents, RecordEvents, Keeps;
      Wait(w, env(at).others);
      ghost var before := Now();
      MarkOutbound(w, to, env(at).write);
      PendingShrinks(before, Mark(w, env(at).write));
      verdict := OtherFailed;
      if env(at).write == Written {
        Wait(w, env(at + 1).others);
        before := Now();
        verdict := env(at + 1).verdict;
        SendTemplate(w, to, verdict);
        PendingShrinks(before, Send(w, verdict));
      }
    }

    /** Recording how the call ended; a success that could not be recorded is recorded as an exception. */
    method RecordAll(w: nat, to: Recipient, verdict: Verdict, env: nat -> Turn, at: nat) returns (going: bool)
      requires Valid() && seeded && At(Now(), w) && workers[w] == Recording(to, verdict) && to in deliveries
      requires forall k :: Harmless(env(k).others, w)
      modifies this
      ensures Valid() && seeded && At(Now(), w) && history == old(history) + RecordEvents(w, verdict, env, at)
      ensures WithStatus(Now(), Pending) <= WithStatus(old(Now()), Pending)
      ensures going <==> env(at + 2).write == Written || (verdict == Accepted && env(at + 3).write == Written)
      ensures if going then workers[w] == Looping else workers[w] == Gone && status == Broken
    {
      hide Step, Run, WithStatus, Own, Harmless, RecordedAs, Keeps, Each;
      Wait(w, env(at + 2).others);
      ghost var before := Now();
      going := RecordOutcome(w, to, verdict, env(at + 2).write);
      PendingShrinks(before, Record(w, env(at + 2).write));
      if !going && verdict == Accepted {
        Wait(w, env(at + 3).others);
        before := Now();
        going := RecordOutcome(w, to, OtherFailed, env(at + 3).write);
        PendingShrinks(before, Record(w, env(at + 3).write));
      }
    }

    /** What one claimed delivery goes through; false when a failure could not be recorded. */
    method Deliver(w: nat, to: Recipient, env: nat -> Turn, at: nat) returns (going: bool)
      requires Valid() && seeded && At(Now(), w) && workers[w].Claimed? && workers[w].to == to && to in deliveries
      requires forall k :: Harmless(env(k).others, w)
      modifies this
      ensures Valid() && seeded && At(Now(), w) && history == old(history) + DeliverEvents(w, env, at)
      ensures WithStatus(Now(), Pending) <= WithStatus(old(Now()), Pending)
      ensures going <==> env(at + 2).write == Written || (Outgoing(env, at) == Accepted && env(at + 3).write == Written)
      ensures if going then workers[w] == Looping else workers[w] == Gone && status == Broken
    {
      hide Step, Run, WithStatus, Own, Harmless, SendEvents, RecordEvents, Outgoing;
      var verdict := MarkAndSend(w, to, env, at);
      going := RecordAll(w, to, verdict, env, at);
    }

    /** The `while True` loop: it ends because every claim takes a row off the pending ones and
        nothing puts one back. False when a claim raised or a failure could not be recorded. */
    method SendAll(w: nat, env: nat -> Turn) returns (going: bool, at: nat)
      requires Valid() && seeded && At(Now(), w) && workers[w] == Looping
      requires forall k :: Harmless(env(k).others, w)
      modifies this
      ensures Valid() && seeded && At(Now(), w) && old(history) <= history
      ensures going ==> workers[w] == Counting && WithStatus(Now(), Pending) == {}
      ensures !going ==> workers[w] == Gone && status == Broken
    {
      hide Step, Run, WithStatus, Own, Harmless, DeliverEvents, Outgoing, ClaimRow, Keeps;
      at := 0;
      while true
        invariant Valid() && seeded && At(Now(), w) && workers[w] == Looping && old(history) <= history
        decreases WithStatus(Now(), Pending)
      {
        Wait(w, env(at).others);
        var claimed, raised := ClaimNextDelivery(w, env(at).ineligible, env(at).claim);
        if raised {
          GiveUp(w);
          return false, at;
        }
        if claimed.None? {
          break;
        }
        going := Deliver(w, claimed.value, env, at + 1);
        if !going {
          return false, at;
        }
        at := at + 5;
      }
      ghost var before := Now();
      workers := workers[w := Counting];
      FindsNoneLeft(before, Now(), w);
      Book(before, NoneLeft(w));
      going := true;
    }

    /** `execute_broadcast`, while other senders and the clock go on but nothing is requeued. Any of its
        statements may raise, before its commit or after it. */
    method ExecuteBroadcast(audience: set<Recipient>, env: nat -> Turn) returns (outcome: Outcome)
      requires Valid()
      requires forall k :: Harmless(env(k).others, |workers|)
      modifies this
      ensures Valid() && old(history) <= history
      ensures outcome.NotClaimed? <==> old(status) != Draft && old(status) != Scheduled
      ensures outcome.NotClaimed? ==> Now() == old(Now())
      ensures !outcome.NotClaimed? ==> At(Now(), |old(workers)|) && workers[|old(workers)|] == Gone
      ensures outcome.Crashed? ==> status == Broken
      ensures outcome.Finished? ==> status == outcome.final && recipients == outcome.sent
      ensures outcome.Finished? && outcome.final != Complete ==>
        outcome.final == if outcome.sent > 0 then Partial else Broken
      ensures outcome.Finished? ==> WithStatus(Now(), Pending) == {}
      ensures outcome.Finished? && outcome.final == Complete ==> Each(Now(), {Sent})
      ensures outcome.Finished? && outcome.final == Complete ==>
        forall r :: r in deliveries ==> Called(start, history, r, Accepted)
    {
      hide Run, WithStatus, Own, Harmless, Each, FinalStatus, Called;
      var taken, w := TakeBroadcast();
      if !taken {
        return NotClaimed;
      }
      hide Step;
      HarmlessWorker(Now(), env(0).others, w);
      Meanwhile(env(0).others);
      var done := SeedDeliveryLedger(w, audience, env(0).write);
      if !done {
        GiveUp(w);
        return Crashed;
      }
      var going, at := SendAll(w, env);
      if !going {
        return Crashed;
      }
      Wait(w, env(at).others);
      outcome := StoreOutcome(w, env(at).write, env(at + 1).others, env(at + 1).write);
      if outcome.Finished? && outcome.final == Complete {
        SentMeansAccepted(start, history);
      }
    }

    /** The counts, and the outcome they come to. */
    method CountOutcome(w: nat) returns (final: BroadcastStatus, sent: nat)
      requires Valid() && seeded && At(Now(), w) && workers[w] == Counting && WithStatus(Now(), Pending) == {}
      modifies this`workers, this`history
      ensures Valid() && history == old(history) + [Count(w)] && |workers| == |old(workers)|
      ensures workers[w] == Closing(final, sent) && WithStatus(Now(), Pending) == {}
      ensures sent == |WithStatus(old(Now()), Sent)|
      ensures final != Complete ==> final == if sent > 0 then Partial else Broken
      ensures (final == Complete <==> Each(old(Now()), {Sent})) && (final == Complete <==> Each(Now(), {Sent}))
    {
      hide Step, Run, WithStatus, Each, FinalStatus;
      var counts := DeliveryCounts();
      var errors := counts[Failed] + counts[Sending] + counts[Unknown];
      sent := counts[Sent];
      final := if errors == 0 then Complete else if sent > 0 then Partial else Broken;
      ghost var before := Now();
      CountMeans(before);
      assert final == FinalStatus(before) by {
        FinalIs(before);
      }
      workers := workers[w := Closing(final, sent)];
      Counted(before, Now(), w);
      Book(before, Count(w));
    }

    /** The last update of a run that came to its end. */
    method Finish(w: nat, final: BroadcastStatus, sent: nat)
      requires Valid() && At(Now(), w) && workers[w] == Closing(final, sent)
      modifies this`status, this`recipients, this`workers, this`history
      ensures Valid() && history == old(history) + [Close(w)] && |workers| == |old(workers)|
      ensures workers[w] == Gone && status == final && recipients == sent
      ensures WithStatus(Now(), Pending) == WithStatus(old(Now()), Pending)
      ensures Each(Now(), {Sent}) == Each(old(Now()), {Sent})
    {
      hide Step, Run, WithStatus, Each;
      ghost var before := Now();
      status, recipients, workers := final, sent, workers[w := Gone];
      Closed(before, Now(), w);
      Book(before, Close(w));
    }

    /** Counting, and storing the outcome; a statement that raises, even after its commit, leaves the
        broadcast stored as failed. */
    method StoreOutcome(w: nat, counting: Write, others: seq<Event>, storing: Write) returns (outcome: Outcome)
      requires Valid() && seeded && At(Now(), w) && workers[w] == Counting && WithStatus(Now(), Pending) == {}
      requires Harmless(others, w)
      modifies this
      ensures Valid() && old(history) <= history && At(Now(), w) && workers[w] == Gone
      ensures if counting == Written && storing == Written then outcome.Finished? else outcome.Crashed?
      ensures outcome.Crashed? ==> status == Broken
      ensures outcome.Finished? ==>
          status == outcome.final && recipients == outcome.sent && WithStatus(Now(), Pending) == {}
      ensures outcome.Finished? ==> (outcome.final == Complete <==> Each(old(Now()), {Sent}))
      ensures outcome.Finished? ==> outcome.sent == |WithStatus(old(Now()), Sent)|
      ensures outcome.Finished? && outcome.final != Complete ==>
        outcome.final == if outcome.sent > 0 then Partial else Broken
      ensures outcome.Finished? && outcome.final == Complete ==> Each(Now(), {Sent})
    {
      hide Step, Run, WithStatus, Own, Harmless, Each, FinalStatus;
      if counting != Written {
        GiveUp(w);
        return Crashed;
      }
      var final, sent := CountOutcome(w);
      ghost var counted := Now();
      Wait(w, others);
      AllStaySent(counted, others);
      if storing != NotWritten {
        Finish(w, final, sent);
      }
      if storing != Written {
        GiveUp(w);
        return Crashed;
      }
      outcome := Finished(final, sent);
    }
  }

  lemma FinalIs(s: Ledger)
    ensures FinalStatus(s) ==
      if |WithStatus(s, Failed)| + |WithStatus(s, Sending)| + |WithStatus(s, Unknown)| == 0 then Complete
      else if |WithStatus(s, Sent)| > 0 then Partial else Broken
  {
  }

  lemma Counted(s: Ledger, t: Ledger, w: nat)
    requires At(s, w) && s.workers[w] == Counting
    requires t == s.(workers := s.workers[w := Closing(FinalStatus(s), |WithStatus(s, Sent)|)])
    ensures t == Step(s, Count(w))
    ensures WithStatus(t, Pending) == WithStatus(s, Pending) && Each(t, {Sent}) == Each(s, {Sent})
  {
    hide FinalStatus;
  }

  lemma Closed(s: Ledger, t: Ledger, w: nat)
    requires At(s, w) && s.workers[w].Closing?
    requires t == s.(status := s.workers[w].final, recipients := s.workers[w].sent, workers := s.workers[w := Gone])
    ensures t == Step(s, Close(w))
    ensures WithStatus(t, Pending) == WithStatus(s, Pending) && Each(t, {Sent}) == Each(s, {Sent})
  {
  }

  lemma Recorded(s: Ledger, t: Ledger, w: nat, to: Recipient, verdict: Verdict, write: Write)
    requires At(s, w) && s.workers[w] == Recording(to, verdict) && to in s.deliveries
    requires t.deliveries ==
      if write == NotWritten then s.deliveries else s.deliveries[to := RecordRow(s.deliveries[to], verdict)]
    requires
      var gone := write != Written && verdict != Accepted;
      var next := if write == Written then Looping else if gone then Gone else Recording(to, OtherFailed);
      t == s.(deliveries := t.deliveries, workers := s.workers[w := next], status := if gone then Broken else s.status)
    ensures t == Step(s, Record(w, write))
  {
    hide RecordRow;
  }

  lemma FailuresReset(s: Ledger, t: Ledger)
    requires t == s.(deliveries := map r | r in s.deliveries :: ResetRow(s.deliveries[r]))
    ensures t == Step(s, Event.ResetFailures)
  {
  }

  lemma BroadcastReset(s: Ledger, t: Ledger)
    requires t == s.(status := Draft, recipients := |WithStatus(s, Sent)|)
    ensures t == Step(s, Event.ResetBroadcast)
  {
  }

  lemma Claiming(s: Ledger, t: Ledger, w: nat, to: Recipient, eligible: bool)
    requires At(s, w) && s.workers[w] == Looping && to in s.deliveries && s.deliveries[to].status == Pending
    requires t == s.(deliveries := s.deliveries[to := ClaimRow(s.deliveries[to], eligible, s.now)],
                     workers := if eligible then s.workers[w := Claimed(to, s.now)] else s.workers)
    ensures t == Step(s, Claim(w, to, eligible))
    ensures WithStatus(t, Pending) == WithStatus(s, Pending) - {to}
  {
    ClaimTakesOne(s, w, to, eligible);
  }

  lemma CountOne(s: Ledger, left: set<Recipient>, r: Recipient, status: DeliveryStatus)
    requires r in left && r in s.deliveries
    ensures |WithStatus(s, status) - (left - {r})|
         == |WithStatus(s, status) - left| + (if s.deliveries[r].status == status then 1 else 0)
  {
    var before, after := WithStatus(s, status) - left, WithStatus(s, status) - (left - {r});
    if s.deliveries[r].status == status {
      assert after == before + {r};
    } else {
      assert after == before;
    }
  }

  /** The counts of the rows looked at so far. */
  ghost predicate Tallied(s: Ledger, counts: map<DeliveryStatus, nat>, left: set<Recipient>) {
    forall x :: x in counts && counts[x] == |WithStatus(s, x) - left|
  }

  lemma StartTally(s: Ledger)
    ensures Tallied(s, map[Pending := 0, Sending := 0, Sent := 0, Failed := 0, Unknown := 0], s.deliveries.Keys)
  {
    forall x
      ensures x in map[Pending := 0, Sending := 0, Sent := 0, Failed := 0, Unknown := 0]
      ensures WithStatus(s, x) - s.deliveries.Keys == {}
    {
      FiveStatuses(x);
    }
  }

  lemma FiveStatuses(x: DeliveryStatus)
    ensures x in {Pending, Sending, Sent, Failed, Unknown}
  {
    match x
    case Pending =>
    case Sending =>
    case Sent =>
    case Failed =>
    case Unknown =>
  }

  lemma TallyOne(s: Ledger, counts: map<DeliveryStatus, nat>, left: set<Recipient>, r: Recipient)
    requires Tallied(s, counts, left) && r in left && r in s.deliveries
    ensures s.deliveries[r].status in counts
    ensures var x := s.deliveries[r].status; Tallied(s, counts[x := counts[x] + 1], left - {r})
  {
    hide WithStatus;
    forall y
      ensures |WithStatus(s, y) - (left - {r})| == |WithStatus(s, y) - left|
          + (if s.deliveries[r].status == y then 1 else 0)
    {
      CountOne(s, left, r, y);
    }
  }

  lemma AllTallied(s: Ledger, counts: map<DeliveryStatus, nat>)
    requires Tallied(s, counts, {})
    ensures counts.Keys == {Pending, Sending, Sent, Failed, Unknown}
    ensures forall x :: x in counts ==> counts[x] == |WithStatus(s, x)|
  {
    hide WithStatus;
    forall x | x in counts
      ensures counts[x] == |WithStatus(s, x)|
      ensures x in {Pending, Sending, Sent, Failed, Unknown}
    {
      FiveStatuses(x);
      assert WithStatus(s, x) - {} == WithStatus(s, x);
    }
  }

  lemma {:induction false} HarmlessWorker(s: Ledger, events: seq<Event>, w: nat)
    requires At(s, w) && Harmless(events, w)
    ensures At(Run(s, events), w) && Run(s, events).workers[w] == s.workers[w]
  {
    hide Step, Keeps, Own;
    if events != [] {
      var n := |events| - 1;
      HarmlessWorker(s, events[..n], w);
      HarmlessStep(Run(s, events[..n]), events[n], w);
    }
  }

  lemma FindsNoneLeft(s: Ledger, t: Ledger, w: nat)
    requires At(s, w) && s.workers[w] == Looping && WithStatus(s, Pending) == {}
    requires t == s.(workers := s.workers[w := Counting])
    ensures t == Step(s, NoneLeft(w)) && WithStatus(t, Pending) == {}
  {
  }

  lemma CountMeans(s: Ledger)
    requires WithStatus(s, Pending) == {}
    ensures FinalStatus(s) == Complete <==> Each(s, {Sent})
  {
    FinalStatusMeans(s);
    EmptyMeans(s, Pending);
    assert Each(s, {Sent, Pending}) <==> Each(s, {Sent});
  }

  lemma AllStaySent(s: Ledger, events: seq<Event>)
    requires s.seeded
    ensures Each(s, {Sent}) ==> Each(Run(s, events), {Sent})
  {
    hide Step;
    if Each(s, {Sent}) {
      AudienceIsFixed(s, events);
      forall to | to in Run(s, events).deliveries
        ensures Run(s, events).deliveries[to].status == Sent
      {
        SentForever(s, events, to);
      }
    }
  }
}
