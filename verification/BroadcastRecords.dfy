/** What the rows of a broadcast say about the calls to Meta behind them. */
module BroadcastRecords {
  import opened Common
  import opened Broadcast
  import opened BroadcastFacts

  // ---------------------------------------------------------------- calls in a history

  /** The k-th event is a call to Meta for this recipient, made by a sender that marked the row first. */
  predicate CallAt(s: Ledger, events: seq<Event>, k: nat, to: Recipient)
    requires k < |events|
  {
    var t := Run(s, events[..k]);
    events[k].Send? && events[k].worker < |t.workers| && t.workers[events[k].worker] == Marked(to)
  }

  /** Some call for this recipient ended so. */
  predicate Called(s: Ledger, events: seq<Event>, to: Recipient, verdict: Verdict) {
    exists k :: 0 <= k < |events| && CallAt(s, events, k, to) && events[k].verdict == verdict
  }

  /** How many calls for this recipient Meta did not refuse for certain. */
  function Delivered(s: Ledger, events: seq<Event>, to: Recipient): nat {
    if events == [] then 0
    else
      var n := |events| - 1;
      Delivered(s, events[..n], to)
      + if CallAt(s, events, n, to) && events[n].verdict != KnownFailed then 1 else 0
  }

  /** How often an operator confirmed that an ambiguous delivery did not arrive. */
  function Confirmed(s: Ledger, events: seq<Event>, to: Recipient): nat {
    if events == [] then 0
    else
      var n := |events| - 1;
      var t := Run(s, events[..n]);
      Confirmed(s, events[..n], to)
      + if events[n] == Retry(to) && to in t.deliveries && t.deliveries[to].status == Unknown then 1 else 0
  }

  lemma CallStays(s: Ledger, events: seq<Event>, to: Recipient, verdict: Verdict)
    requires events != [] && Called(s, events[..|events| - 1], to, verdict)
    ensures Called(s, events, to, verdict)
  {
    hide Run;
    var earlier := events[..|events| - 1];
    var k :| 0 <= k < |earlier| && CallAt(s, earlier, k, to) && earlier[k].verdict == verdict;
    assert earlier[..k] == events[..k];
    assert CallAt(s, events, k, to);
  }

  // ---------------------------------------------------------------- a status is a verdict

  /** A row that is being sent, before and after a written record: sent when Meta accepted, unknown when
      the call ended ambiguous, failed otherwise, with a note of its own for a refusal that is certain. */
  predicate RecordedAs(before: Delivery, after: Delivery, verdict: Verdict) {
    && (after.status == Sent <==> verdict == Accepted)
    && (after.status == Unknown <==> verdict == UnknownFailed)
    && (after.status == Failed <==> verdict == KnownFailed || verdict == OtherFailed)
    && (verdict == Accepted ==> after.note == before.note)
    && (verdict == KnownFailed ==> after.note == KnownSendFailure)
    && (verdict == UnknownFailed ==> after.note == UnknownSend)
    && (verdict == OtherFailed ==> after.note == OtherException)
    && after == before.(status := after.status, note := after.note)
  }

  /** A record tells how the call ended, unless the row is no longer being sent. */
  lemma RecordedExactly(s: Ledger, w: nat, to: Recipient, verdict: Verdict, write: Write)
    requires At(s, w) && s.workers[w] == Recording(to, verdict) && to in s.deliveries
    ensures
      var t := Step(s, Record(w, write));
      if write == NotWritten || s.deliveries[to].status != Sending then t.deliveries == s.deliveries
      else
        && RecordedAs(s.deliveries[to], t.deliveries[to], verdict)
        && t.deliveries == s.deliveries[to := t.deliveries[to]]
  {
    assert s.deliveries[to := s.deliveries[to]] == s.deliveries;
  }

  /** The row was so before, or the step records this verdict. */
  predicate Came(s: Ledger, e: Event, to: Recipient, verdict: Verdict, before: bool) {
    before || (e.Record? && At(s, e.worker) && s.workers[e.worker] == Recording(to, verdict))
  }

  predicate RowCameBy(s: Ledger, e: Event, to: Recipient, d: Delivery) {
    var was := to in s.deliveries;
    && (d.status == Sent ==> Came(s, e, to, Accepted, was && s.deliveries[to].status == Sent))
    && (d.status == Failed && d.note == KnownSendFailure ==>
          Came(s, e, to, KnownFailed,
               was && s.deliveries[to].status == Failed && s.deliveries[to].note == KnownSendFailure))
    && (d.status == Unknown && d.note == UnknownSend ==>
          Came(s, e, to, UnknownFailed,
               was && s.deliveries[to].status == Unknown && s.deliveries[to].note == UnknownSend))
  }

  lemma RecordCame(s: Ledger, w: nat, write: Write, to: Recipient)
    requires to in RecordStep(s, w, write).deliveries
    ensures RowCameBy(s, Record(w, write), to, RecordStep(s, w, write).deliveries[to])
  {
  }

  lemma OthersCame(s: Ledger, e: Event, to: Recipient)
    requires !e.Record? && to in Step(s, e).deliveries
    ensures RowCameBy(s, e, to, Step(s, e).deliveries[to])
  {
    hide FinalStatus, WithStatus, RecordStep, RecordRow;
  }

  lemma RowCame(s: Ledger, e: Event, to: Recipient)
    requires to in Step(s, e).deliveries
    ensures RowCameBy(s, e, to, Step(s, e).deliveries[to])
  {
    if e.Record? {
      RecordCame(s, e.worker, e.write, to);
    } else {
      OthersCame(s, e, to);
      hide *;
    }
  }

  lemma VerdictCame(s: Ledger, e: Event, w: nat)
    requires At(Step(s, e), w) && Step(s, e).workers[w].Recording? && Step(s, e).workers[w].verdict != OtherFailed
    ensures At(s, w)
    ensures s.workers[w] == Step(s, e).workers[w]
            || (e == Send(w, Step(s, e).workers[w].verdict) && s.workers[w] == Marked(Step(s, e).workers[w].to))
  {
    hide FinalStatus, WithStatus;
  }

  predicate RowExplained(s: Ledger, events: seq<Event>, to: Recipient, d: Delivery) {
    && (d.status == Sent ==> Called(s, events, to, Accepted))
    && (d.status == Failed && d.note == KnownSendFailure ==> Called(s, events, to, KnownFailed))
    && (d.status == Unknown && d.note == UnknownSend ==> Called(s, events, to, UnknownFailed))
  }

  predicate WorkerExplained(s: Ledger, events: seq<Event>, w: Worker) {
    w.Recording? && w.verdict != OtherFailed ==> Called(s, events, w.to, w.verdict)
  }

  lemma RunLast(s: Ledger, events: seq<Event>)
    requires events != []
    ensures Run(s, events) == Step(Run(s, events[..|events| - 1]), events[|events| - 1])
  {
  }

  lemma WorkerStaysExplained(s: Ledger, events: seq<Event>, w: nat)
    requires events != [] && At(Run(s, events), w)
    requires var t := Run(s, events[..|events| - 1]);
      forall i :: 0 <= i < |t.workers| ==> WorkerExplained(s, events[..|events| - 1], t.workers[i])
    ensures WorkerExplained(s, events, Run(s, events).workers[w])
  {
    hide Step, Run, Called;
    var n := |events| - 1;
    RunLast(s, events);
    var x := Run(s, events).workers[w];
    if x.Recording? && x.verdict != OtherFailed {
      VerdictCame(Run(s, events[..n]), events[n], w);
      if Run(s, events[..n]).workers[w] == x {
        assert WorkerExplained(s, events[..n], x);
        CallStays(s, events, x.to, x.verdict);
      } else {
        CallMade(s, events, x.to, x.verdict);
      }
    }
  }

  lemma CallMade(s: Ledger, events: seq<Event>, to: Recipient, verdict: Verdict)
    requires events != [] && CallAt(s, events, |events| - 1, to) && events[|events| - 1].verdict == verdict
    ensures Called(s, events, to, verdict)
  {
  }

  lemma RowStaysExplained(s: Ledger, events: seq<Event>, to: Recipient)
    requires events != [] && to in Run(s, events).deliveries
    requires var t := Run(s, events[..|events| - 1]);
      && (to in t.deliveries ==> RowExplained(s, events[..|events| - 1], to, t.deliveries[to]))
      && forall i :: 0 <= i < |t.workers| ==> WorkerExplained(s, events[..|events| - 1], t.workers[i])
    ensures RowExplained(s, events, to, Run(s, events).deliveries[to])
  {
    hide Step, Called;
    var n := |events| - 1;
    RowCame(Run(s, events[..n]), events[n], to);
    forall verdict | Called(s, events[..n], to, verdict)
      ensures Called(s, events, to, verdict)
    {
      CallStays(s, events, to, verdict);
    }
  }

  lemma {:induction false} AllExplained(s: Ledger, events: seq<Event>)
    requires Init(s)
    ensures var t := Run(s, events);
      && (forall to :: to in t.deliveries ==> RowExplained(s, events, to, t.deliveries[to]))
      && forall i :: 0 <= i < |t.workers| ==> WorkerExplained(s, events, t.workers[i])
  {
    hide Step, RowExplained, WorkerExplained;
    if events != [] {
      AllExplained(s, events[..|events| - 1]);
      var t := Run(s, events);
      forall to | to in t.deliveries
        ensures RowExplained(s, events, to, t.deliveries[to])
      {
        RowStaysExplained(s, events, to);
      }
      forall i | 0 <= i < |t.workers|
        ensures WorkerExplained(s, events, t.workers[i])
      {
        WorkerStaysExplained(s, events, i);
      }
    }
  }

  /** In every run, timely or not: a delivery that is sent had a call that Meta accepted, one that failed
      for certain had a call that Meta refused, and an ambiguous one had a call that ended ambiguous. */
  lemma StatusMeansCall(s: Ledger, events: seq<Event>, to: Recipient)
    requires Init(s) && to in Run(s, events).deliveries
    ensures var d := Run(s, events).deliveries[to];
      && (d.status == Sent ==> Called(s, events, to, Accepted))
      && (d.status == Failed && d.note == KnownSendFailure ==> Called(s, events, to, KnownFailed))
      && (d.status == Unknown && d.note == UnknownSend ==> Called(s, events, to, UnknownFailed))
  {
    hide Run, Called;
    AllExplained(s, events);
    assert RowExplained(s, events, to, Run(s, events).deliveries[to]);
  }

  /** A sender that found nothing left and then counts, with nothing requeued in between, stores `sent`
      only when Meta accepted a call for every recipient. */
  lemma CompleteMeansAllAccepted(s: Ledger, before: seq<Event>, w: nat, after: seq<Event>)
    requires Init(s) && Run(s, before).seeded && At(Run(s, before), w)
    requires Step(Run(s, before), NoneLeft(w)) != Run(s, before)
    requires forall i :: 0 <= i < |after| ==> Keeps(after[i])
    requires FinalStatus(Run(s, before + [NoneLeft(w)] + after)) == Complete
    ensures forall to :: to in Run(s, before + [NoneLeft(w)] + after).deliveries ==>
              Called(s, before + [NoneLeft(w)] + after, to, Accepted)
  {
    hide Run, Step, FinalStatus, Called;
    var events := before + [NoneLeft(w)] + after;
    RunAppends(s, before, NoneLeft(w));
    RunJoins(s, before + [NoneLeft(w)], after);
    CompleteMeansAllSent(Run(s, before), after, w);
    forall to | to in Run(s, events).deliveries
      ensures Called(s, events, to, Accepted)
    {
      StatusMeansCall(s, events, to);
    }
  }

  lemma SentMeansAccepted(s: Ledger, events: seq<Event>)
    requires Init(s) && Each(Run(s, events), {Sent})
    ensures forall to :: to in Run(s, events).deliveries ==> Called(s, events, to, Accepted)
  {
    hide Run, Called;
    forall to | to in Run(s, events).deliveries
      ensures Called(s, events, to, Accepted)
    {
      StatusMeansCall(s, events, to);
    }
  }

  // ---------------------------------------------------------------- counting calls

  predicate CallsNow(s: Ledger, e: Event, to: Recipient) {
    e.Send? && e.worker < |s.workers| && s.workers[e.worker] == Marked(to)
  }

  lemma OtherStepsCountNothing(s: Ledger, e: Event, to: Recipient)
    requires !e.Send? && !e.Retry? && to in Step(s, e).deliveries
    ensures
      var d := Step(s, e).deliveries[to];
      if to in s.deliveries then d.reached == s.deliveries[to].reached && d.retries == s.deliveries[to].retries
      else d.reached == 0 && d.retries == 0
  {
    hide FinalStatus, WithStatus;
  }

  lemma StepCounts(s: Ledger, e: Event, to: Recipient)
    requires WorkersKnown(s) && to in Step(s, e).deliveries
    ensures
      var d := Step(s, e).deliveries[to];
      var was := if to in s.deliveries then (s.deliveries[to].reached, s.deliveries[to].retries) else (0, 0);
      && d.reached == was.0 + (if CallsNow(s, e, to) && e.verdict != KnownFailed then 1 else 0)
      && d.retries == was.1
          + (if e == Retry(to) && to in s.deliveries && s.deliveries[to].status == Unknown then 1 else 0)
  {
    if e.Send? || e.Retry? {
      hide FinalStatus, WithStatus, ClaimStep, MarkStep, RecordStep, SeedLedger;
    } else {
      OtherStepsCountNothing(s, e, to);
      hide *;
    }
  }

  lemma NothingCounted(s: Ledger, e: Event, to: Recipient)
    requires WorkersKnown(s) && to !in Step(s, e).deliveries
    ensures to !in s.deliveries && !CallsNow(s, e, to)
  {
    hide FinalStatus, WithStatus;
  }

  /** The counters of a row are what happened. */
  lemma {:induction false} CountersTell(s: Ledger, events: seq<Event>, to: Recipient)
    requires Init(s)
    ensures WorkersKnown(Run(s, events))
    ensures if to in Run(s, events).deliveries
            then var d := Run(s, events).deliveries[to];
              d.reached == Delivered(s, events, to) && d.retries == Confirmed(s, events, to)
            else Delivered(s, events, to) == 0 && Confirmed(s, events, to) == 0
  {
    hide Step, WorkersKnown;
    if events == [] {
      assert WorkersKnown(s) by {
        NobodyWorks(s);
      }
    } else {
      var n := |events| - 1;
      var t := Run(s, events[..n]);
      CountersTell(s, events[..n], to);
      StepKeepsKnown(t, events[n]);
      assert CallAt(s, events, n, to) == CallsNow(t, events[n], to);
      if to in Run(s, events).deliveries {
        StepCounts(t, events[n], to);
      } else {
        NothingCounted(t, events[n], to);
      }
    }
  }

  lemma NobodyWorks(s: Ledger)
    requires s.workers == []
    ensures WorkersKnown(s)
  {
  }

  /** No live sender is short of its mark more than 300 seconds after its claim, whenever stale claims
      are requeued. */
  predicate InTime(s: Ledger, events: seq<Event>) {
    forall k :: 0 <= k < |events| && events[k].RequeueStale? ==>
      var t := Run(s, events[..k]);
      forall i :: 0 <= i < |t.workers| && t.workers[i].Claimed? ==> t.now - t.workers[i].since <= 300
  }

  lemma {:induction false} InTimeIsTimely(s: Ledger, events: seq<Event>)
    requires InTime(s, events)
    ensures TimelyRun(s, events)
  {
    hide Step;
    if events != [] {
      var n := |events| - 1;
      forall k | 0 <= k < n && events[..n][k].RequeueStale?
        ensures events[..n][..k] == events[..k]
      {
      }
      assert InTime(s, events[..n]);
      InTimeIsTimely(s, events[..n]);
    }
  }

  /** At most once, in calls: when live senders mark in time, the calls to Meta for a recipient that
      were not refused for certain are at most one more than the retries an operator confirmed. */
  lemma AtMostOneCall(s: Ledger, events: seq<Event>, to: Recipient)
    requires Init(s) && InTime(s, events)
    ensures Delivered(s, events, to) <= 1 + Confirmed(s, events, to)
  {
    hide *;
    InTimeIsTimely(s, events);
    AtMostOnce(s, events);
    CountersTell(s, events, to);
  }

  // ---------------------------------------------------------------- recovery and reset

  lemma RecoveredExactly(s: Ledger, to: Recipient)
    requires to in s.deliveries
    ensures
      var t := Step(Step(s, RequeueStale), QuarantineStale);
      var d := s.deliveries[to];
      var late := d.status == Sending && d.claimedAt.Some? && s.now - d.claimedAt.value > 300;
      && t == s.(deliveries := t.deliveries) && t.deliveries.Keys == s.deliveries.Keys
      && t.deliveries[to] ==
           if late && d.marked then d.(status := Unknown, note := StaleAttempt)
           else if late then d.(status := Pending, claimedAt := None, note := RecoveredBeforeSend)
           else d
  {
    hide WithStatus, FinalStatus;
    var t := Step(s, RequeueStale);
    assert forall r :: r in t.deliveries <==> r in s.deliveries;
    assert forall r :: r in Step(t, QuarantineStale).deliveries <==> r in s.deliveries;
  }

  lemma FailuresResetExactly(s: Ledger, to: Recipient)
    requires to in s.deliveries
    ensures
      var t := Step(Step(s, ResetFailures), Event.ResetBroadcast);
      var d := s.deliveries[to];
      && t.deliveries.Keys == s.deliveries.Keys && t.status == Draft && t.workers == s.workers
      && t.deliveries[to] ==
           if d.status == Failed && d.note == KnownSendFailure
           then d.(status := Pending, marked := false, note := NoNote)
           else d
  {
    hide WithStatus, FinalStatus;
    var t := Step(s, ResetFailures);
    assert forall r :: r in t.deliveries <==> r in s.deliveries;
  }

  /** A row before and after the four statements of a reset: certain refusals go back to pending, and
      claims older than 300 seconds go back to pending or, with a mark, become ambiguous; nothing else
      changes. */
  predicate ResetFrom(before: Delivery, after: Delivery, now: int) {
    var late := before.status == Sending && before.claimedAt.Some? && now - before.claimedAt.value > 300;
    after ==
      if late && before.marked then before.(status := Unknown, note := StaleAttempt)
      else if late then before.(status := Pending, claimedAt := None, note := RecoveredBeforeSend)
      else if before.status == Failed && before.note == KnownSendFailure
      then before.(status := Pending, marked := false, note := NoNote)
      else before
  }

  lemma ResetOneExactly(s: Ledger, to: Recipient)
    requires to in s.deliveries
    ensures
      var t := Step(Step(Step(Step(s, RequeueStale), QuarantineStale), ResetFailures), Event.ResetBroadcast);
      to in t.deliveries && ResetFrom(s.deliveries[to], t.deliveries[to], s.now)
  {
    hide Step;
    RecoveredExactly(s, to);
    FailuresResetExactly(Step(Step(s, RequeueStale), QuarantineStale), to);
  }

  lemma ResetExactly(s: Ledger)
    ensures
      var t := Run(s, [RequeueStale] + [QuarantineStale] + [ResetFailures] + [Event.ResetBroadcast]);
      && t.deliveries.Keys == s.deliveries.Keys && t.status == Draft && t.workers == s.workers
      && forall to :: to in s.deliveries ==> ResetFrom(s.deliveries[to], t.deliveries[to], s.now)
  {
    hide ResetFrom, WithStatus, RequeueRow, QuarantineRow, ResetRow;
    var t := Step(Step(Step(Step(s, RequeueStale), QuarantineStale), ResetFailures), Event.ResetBroadcast);
    assert forall to :: to in t.deliveries <==> to in s.deliveries;
    RunFour(s, RequeueStale, QuarantineStale, ResetFailures, Event.ResetBroadcast);
    forall to | to in s.deliveries
      ensures ResetFrom(s.deliveries[to], t.deliveries[to], s.now)
    {
      ResetOneExactly(s, to);
    }
  }

  lemma RunFour(s: Ledger, a: Event, b: Event, c: Event, d: Event)
    ensures Run(s, [a] + [b] + [c] + [d]) == Step(Step(Step(Step(s, a), b), c), d)
  {
    hide Step, Run;
    RunOne(s, a);
    RunAppends(s, [a], b);
    RunAppends(s, [a] + [b], c);
    RunAppends(s, [a] + [b] + [c], d);
  }
}
