/** The delivery ledger of one broadcast (store/app/broadcast/sender.py and the reset and retry
    endpoints of store/app/broadcast/api.py), as a machine. Any number of senders run at once; each
    step is one SQL statement or one call to Meta. */
module Broadcast {
  import opened Common

  /** A delivery is known by its recipient: the ledger is unique on broadcast, channel and platform id. */
  type Recipient = string

  datatype DeliveryStatus = Pending | Sending | Sent | Failed | Unknown

  datatype Note =
    | NoNote
    | RecoveredBeforeSend
    | StaleAttempt
    | KnownSendFailure
    | UnknownSend
    | OtherException
    | Ineligible
    | ManualRetry

  /** A ledger row. `marked` says that `outbound_started_at` is set. The last two fields are history:
      retries an operator confirmed, and calls to Meta that may have reached the recipient. */
  datatype Delivery = Delivery(status: DeliveryStatus, marked: bool, claimedAt: Option<int>, note: Note,
                               attempts: nat, retries: nat, reached: nat)

  datatype BroadcastStatus = Draft | Scheduled | Running | Complete | Partial | Broken

  /** How a call to Meta ends: answered, refused for certain, ambiguous, or any other exception. */
  datatype Verdict = Accepted | KnownFailed | UnknownFailed | OtherFailed

  /** Where one sender stands in `execute_broadcast`. */
  datatype Worker =
    | Fresh
    | Looping
    | Claimed(to: Recipient, since: int)
    | Marked(to: Recipient)
    | Recording(to: Recipient, verdict: Verdict)
    | Counting
    | Closing(final: BroadcastStatus, sent: nat)
    | Gone

  datatype Ledger = Ledger(deliveries: map<Recipient, Delivery>, seeded: bool, status: BroadcastStatus,
                           recipients: nat, workers: seq<Worker>, now: int)

  /** How a ledger write of a sender goes. */
  datatype Write = Written | NotWritten | WrittenUnreported

  datatype Event =
    | Start
    | Seed(worker: nat, audience: set<Recipient>)
    | Claim(worker: nat, to: Recipient, eligible: bool)
    | NoneLeft(worker: nat)
    | Break(worker: nat)
    | Mark(worker: nat, write: Write)
    | Send(worker: nat, verdict: Verdict)
    | Record(worker: nat, write: Write)
    | Count(worker: nat)
    | Close(worker: nat)
    | Fail(worker: nat)
    | Crash(worker: nat)
    | RequeueStale
    | QuarantineStale
    | ResetFailures
    | ResetBroadcast
    | Retry(to: Recipient)
    | Elapse(seconds: nat)

  const STALE_SECONDS := 300

  function NewDelivery(): Delivery {
    Delivery(Pending, false, None, NoNote, 0, 0, 0)
  }

  predicate At(s: Ledger, w: nat) {
    w < |s.workers|
  }

  function Move(s: Ledger, w: nat, to: Worker): Ledger
    requires At(s, w)
  {
    s.(workers := s.workers[w := to])
  }

  // ---------------------------------------------------------------- what each statement writes

  /** `_seed_delivery_ledger`: the audience is taken once. */
  function SeedLedger(s: Ledger, audience: set<Recipient>): Ledger {
    if s.seeded then s
    else s.(seeded := true,
            deliveries := map r | r in s.deliveries.Keys + audience ::
              (if r in s.deliveries then s.deliveries[r] else NewDelivery()))
  }

  function ClaimRow(d: Delivery, eligible: bool, now: int): Delivery {
    if eligible then d.(status := Sending, attempts := d.attempts + 1, claimedAt := Some(now))
    else d.(status := Failed, note := Ineligible)
  }

  function MarkRow(d: Delivery): Delivery {
    if d.status == Sending then d.(marked := true) else d
  }

  /** The message may be with the recipient unless Meta refused it for certain. */
  function SendRow(d: Delivery, verdict: Verdict): Delivery {
    if verdict == KnownFailed then d else d.(reached := d.reached + 1)
  }

  function RecordRow(d: Delivery, verdict: Verdict): Delivery {
    if d.status != Sending then d
    else
      match verdict
      case Accepted => d.(status := Sent)
      case KnownFailed => d.(status := Failed, note := KnownSendFailure)
      case UnknownFailed => d.(status := Unknown, note := UnknownSend)
      case OtherFailed => d.(status := Failed, note := OtherException)
  }

  predicate Stale(d: Delivery, now: int) {
    d.status == Sending && d.claimedAt.Some? && d.claimedAt.value < now - STALE_SECONDS
  }

  function RequeueRow(d: Delivery, now: int): Delivery {
    if Stale(d, now) && !d.marked then d.(status := Pending, claimedAt := None, note := RecoveredBeforeSend) else d
  }

  function QuarantineRow(d: Delivery, now: int): Delivery {
    if Stale(d, now) && d.marked then d.(status := Unknown, note := StaleAttempt) else d
  }

  function ResetRow(d: Delivery): Delivery {
    if d.status == Failed && d.note == KnownSendFailure then d.(status := Pending, marked := false, note := NoNote)
        else d
  }

  function RetryRow(d: Delivery): Delivery {
    if d.status == Unknown
    then d.(status := Pending, claimedAt := None, marked := false, note := ManualRetry, retries := d.retries + 1)
    else d
  }

  function WithStatus(s: Ledger, status: DeliveryStatus): set<Recipient> {
    set r | r in s.deliveries && s.deliveries[r].status == status
  }

  /** The outcome `execute_broadcast` stores: errors are failed, sending and unknown deliveries. */
  function FinalStatus(s: Ledger): BroadcastStatus {
    if |WithStatus(s, Failed)| + |WithStatus(s, Sending)| + |WithStatus(s, Unknown)| == 0 then Complete
    else if |WithStatus(s, Sent)| > 0 then Partial
    else Broken
  }

  // ---------------------------------------------------------------- steps

  function SetRow(s: Ledger, to: Recipient, d: Delivery): Ledger {
    s.(deliveries := s.deliveries[to := d])
  }

  function ClaimStep(s: Ledger, w: nat, to: Recipient, eligible: bool): Ledger {
    if !(At(s, w) && s.workers[w] == Looping && to in s.deliveries && s.deliveries[to].status == Pending) then s
    else
      var t := SetRow(s, to, ClaimRow(s.deliveries[to], eligible, s.now));
      if eligible then Move(t, w, Claimed(to, s.now)) else t
  }

  function MarkStep(s: Ledger, w: nat, write: Write): Ledger {
    if !(At(s, w) && s.workers[w].Claimed? && s.workers[w].to in s.deliveries) then s
    else
      var to := s.workers[w].to;
      var t := if write == NotWritten then s else SetRow(s, to, MarkRow(s.deliveries[to]));
      Move(t, w, if write == Written then Marked(to) else Recording(to, OtherFailed))
  }

  function SendStep(s: Ledger, w: nat, verdict: Verdict): Ledger {
    if !(At(s, w) && s.workers[w].Marked? && s.workers[w].to in s.deliveries) then s
    else
      var to := s.workers[w].to;
      Move(SetRow(s, to, SendRow(s.deliveries[to], verdict)), w, Recording(to, verdict))
  }

  /** A failed record of a success is itself recorded as an exception; a failed record of a failure
      ends the run. */
  function RecordStep(s: Ledger, w: nat, write: Write): Ledger {
    if !(At(s, w) && s.workers[w].Recording? && s.workers[w].to in s.deliveries) then s
    else
      var (to, verdict) := (s.workers[w].to, s.workers[w].verdict);
      var t := if write == NotWritten then s else SetRow(s, to, RecordRow(s.deliveries[to], verdict));
      if write == Written then Move(t, w, Looping)
      else if verdict == Accepted then Move(t, w, Recording(to, OtherFailed))
      else Move(t.(status := Broken), w, Gone)
  }

  function Step(s: Ledger, e: Event): Ledger {
    match e
    case Start =>
      if s.status == Draft || s.status == Scheduled then s.(status := Running, workers := s.workers + [Fresh]) else s
    case Seed(w, audience) =>
      if At(s, w) && s.workers[w] == Fresh then Move(SeedLedger(s, audience), w, Looping) else s
    case Claim(w, to, eligible) => ClaimStep(s, w, to, eligible)
    case NoneLeft(w) =>
      if At(s, w) && s.workers[w] == Looping && WithStatus(s, Pending) == {} then Move(s, w, Counting) else s
    case Break(w) =>
      if At(s, w) && s.workers[w].Claimed? then Move(s, w, Recording(s.workers[w].to, OtherFailed)) else s
    case Mark(w, write) => MarkStep(s, w, write)
    case Send(w, verdict) => SendStep(s, w, verdict)
    case Record(w, write) => RecordStep(s, w, write)
    case Count(w) =>
      if At(s, w) && s.workers[w] == Counting
      then Move(s, w, Closing(FinalStatus(s), |WithStatus(s, Sent)|)) else s
    case Close(w) =>
      if At(s, w) && s.workers[w].Closing?
      then Move(s.(status := s.workers[w].final, recipients := s.workers[w].sent), w, Gone) else s
    case Fail(w) => if At(s, w) then Move(s.(status := Broken), w, Gone) else s
    case Crash(w) => if At(s, w) then Move(s, w, Gone) else s
    case RequeueStale => s.(deliveries := map r | r in s.deliveries :: RequeueRow(s.deliveries[r], s.now))
    case QuarantineStale => s.(deliveries := map r | r in s.deliveries :: QuarantineRow(s.deliveries[r], s.now))
    case ResetFailures => s.(deliveries := map r | r in s.deliveries :: ResetRow(s.deliveries[r]))
    case ResetBroadcast => s.(status := Draft, recipients := |WithStatus(s, Sent)|)
    case Retry(to) => if to in s.deliveries then SetRow(s, to, RetryRow(s.deliveries[to])) else s
    case Elapse(seconds) => s.(now := s.now + seconds)
  }

  function Run(s: Ledger, events: seq<Event>): Ledger {
    if events == [] then s else Step(Run(s, events[..|events| - 1]), events[|events| - 1])
  }

  predicate Init(s: Ledger) {
    s.deliveries == map[] && !s.seeded && s.workers == []
  }

  // ---------------------------------------------------------------- at most once

  /** No live sender is still short of its outbound mark five minutes after its claim. */
  predicate Timely(s: Ledger) {
    forall i :: 0 <= i < |s.workers| && s.workers[i].Claimed? ==> s.now <= s.workers[i].since + STALE_SECONDS
  }

  /** The timing hypothesis: it holds whenever stale claims are requeued. */
  predicate TimelyRun(s: Ledger, events: seq<Event>) {
    if events == [] then true
    else
      var n := |events| - 1;
      TimelyRun(s, events[..n]) && (events[n].RequeueStale? ==> Timely(Run(s, events[..n])))
  }

  /** How many more sends to `to` a sender may cause on its own. */
  function Load(w: Worker, to: Recipient): nat {
    match w
    case Claimed(r, _) => if r == to then 1 else 0
    case Marked(r) => if r == to then 1 else 0
    case Recording(r, verdict) => if r == to && verdict == KnownFailed then 1 else 0
    case _ => 0
  }

  function TotalLoad(workers: seq<Worker>, to: Recipient): nat {
    if workers == [] then 0
    else TotalLoad(workers[..|workers| - 1], to) + Load(workers[|workers| - 1], to)
  }

  predicate Claims(w: Worker, to: Recipient) {
    w.Claimed? && w.to == to
  }

  predicate Unmarked(workers: seq<Worker>, to: Recipient) {
    exists i :: 0 <= i < |workers| && Claims(workers[i], to)
  }

  /** How many more sends the row itself may cause without an operator. */
  function Open(s: Ledger, to: Recipient): nat
    requires to in s.deliveries
  {
    var d := s.deliveries[to];
    if d.status == Pending || (d.status == Failed && d.note == KnownSendFailure) then 1
    else if d.status == Sending && !d.marked && !Unmarked(s.workers, to) then 1
    else 0
  }

  /** Sends that may have reached the recipient, and those still to come, are covered by the first
      send and the operator's retries. */
  predicate Covered(s: Ledger, to: Recipient)
    requires to in s.deliveries
  {
    var d := s.deliveries[to];
    d.reached + TotalLoad(s.workers, to) + Open(s, to) <= 1 + d.retries
  }

  predicate AllCovered(s: Ledger) {
    forall to :: to in s.deliveries ==> Covered(s, to)
  }

  predicate ClaimOpen(s: Ledger, to: Recipient) {
    to in s.deliveries && s.deliveries[to].status == Sending && s.deliveries[to].claimedAt.Some?
  }

  /** A claimed row carries a claim time no older than that of any sender still holding a claim on it. */
  predicate ClaimsDated(s: Ledger) {
    && (forall i :: 0 <= i < |s.workers| && s.workers[i].Claimed? ==> s.workers[i].since <= s.now)
    && (forall to :: to in s.deliveries && s.deliveries[to].status == Sending ==> s.deliveries[to].claimedAt.Some?)
    && (forall i :: 0 <= i < |s.workers| && s.workers[i].Claimed? && ClaimOpen(s, s.workers[i].to) ==>
          s.workers[i].since <= s.deliveries[s.workers[i].to].claimedAt.value)
  }

  /** Senders work on rows of the ledger. */
  predicate WorkersKnown(s: Ledger) {
    forall i :: 0 <= i < |s.workers| && (s.workers[i].Claimed? || s.workers[i].Marked? || s.workers[i].Recording?) ==>
      s.workers[i].to in s.deliveries
  }

  predicate PendingUnmarked(s: Ledger) {
    forall to :: to in s.deliveries && s.deliveries[to].status == Pending ==> !s.deliveries[to].marked
  }

  /** What every step keeps, however late senders are. */
  predicate Sound(s: Ledger) {
    ClaimsDated(s) && WorkersKnown(s) && PendingUnmarked(s)
  }

  predicate Inv(s: Ledger) {
    AllCovered(s) && Sound(s)
  }

  lemma {:induction false} LoadMoves(workers: seq<Worker>, w: nat, x: Worker, to: Recipient)
    requires w < |workers|
    ensures TotalLoad(workers[w := x], to) == TotalLoad(workers, to) - Load(workers[w], to) + Load(x, to)
  {
    hide Load;
    var n := |workers| - 1;
    if w == n {
      assert workers[w := x][..n] == workers[..n];
    } else {
      assert workers[w := x][..n] == workers[..n][w := x];
      LoadMoves(workers[..n], w, x, to);
    }
  }

  /** Without a sender on it a recipient carries no load. */
  lemma {:induction false} NoLoad(workers: seq<Worker>, to: Recipient)
    requires forall i ::
        0 <= i < |workers| && (workers[i].Claimed? || workers[i].Marked? || workers[i].Recording?) ==>
            workers[i].to != to
    ensures TotalLoad(workers, to) == 0
  {
    if workers != [] {
      NoLoad(workers[..|workers| - 1], to);
    }
  }

  /** One sender moves on, and one row changes: other recipients are as covered as before. */
  lemma OthersCovered(s: Ledger, t: Ledger, w: nat, to: Recipient)
    requires At(s, w) && |t.workers| == |s.workers| && t.workers == s.workers[w := t.workers[w]]
    requires to in s.deliveries && to in t.deliveries && s.deliveries[to] == t.deliveries[to] && Covered(s, to)
    requires Load(t.workers[w], to) == Load(s.workers[w], to)
    requires Claims(t.workers[w], to) == Claims(s.workers[w], to)
    ensures Covered(t, to)
  {
    LoadMoves(s.workers, w, t.workers[w], to);
    SameUnmarked(s.workers, w, t.workers[w], to);
  }

  lemma SameUnmarked(workers: seq<Worker>, w: nat, x: Worker, to: Recipient)
    requires w < |workers| && Claims(x, to) == Claims(workers[w], to)
    ensures Unmarked(workers[w := x], to) == Unmarked(workers, to)
  {
    if Unmarked(workers, to) {
      var i :| 0 <= i < |workers| && Claims(workers[i], to);
      assert Claims(workers[w := x][i], to);
    }
    if Unmarked(workers[w := x], to) {
      var i :| 0 <= i < |workers| && Claims(workers[w := x][i], to);
      assert Claims(workers[i], to);
    }
  }

  /** A sender that gives up, or turns to other work, adds nothing. */
  lemma LeavingCovered(s: Ledger, t: Ledger, w: nat, to: Recipient)
    requires At(s, w) && At(t, w) && t.workers == s.workers[w := t.workers[w]] && t.deliveries == s.deliveries
    requires to in s.deliveries && Covered(s, to) && Load(t.workers[w], to) == 0
    ensures Covered(t, to)
  {
    LoadMoves(s.workers, w, t.workers[w], to);
    if !Claims(s.workers[w], to) {
      SameUnmarked(s.workers, w, t.workers[w], to);
    }
  }

  lemma ClaimCovered(s: Ledger, w: nat, r: Recipient, eligible: bool, to: Recipient)
    requires Sound(s) && to in s.deliveries && Covered(s, to)
    ensures to in ClaimStep(s, w, r, eligible).deliveries && Covered(ClaimStep(s, w, r, eligible), to)
  {
    var t := ClaimStep(s, w, r, eligible);
    if At(s, w) && s.workers[w] == Looping && r in s.deliveries && s.deliveries[r].status == Pending {
      if to == r {
        LoadMoves(s.workers, w, t.workers[w], to);
        if eligible {
          assert Claims(t.workers[w], to);
        } else {
          assert t.workers == s.workers;
        }
      } else {
        assert t.workers == s.workers[w := t.workers[w]];
        OthersCovered(s, t, w, to);
      }
    }
  }

  lemma MarkCovered(s: Ledger, w: nat, write: Write, to: Recipient)
    requires Sound(s) && to in s.deliveries && Covered(s, to)
    ensures to in MarkStep(s, w, write).deliveries && Covered(MarkStep(s, w, write), to)
  {
    var t := MarkStep(s, w, write);
    if At(s, w) && s.workers[w].Claimed? && s.workers[w].to in s.deliveries {
      LoadMoves(s.workers, w, t.workers[w], to);
      if to != s.workers[w].to {
        OthersCovered(s, t, w, to);
      }
    }
  }

  lemma SendCovered(s: Ledger, w: nat, verdict: Verdict, to: Recipient)
    requires Sound(s) && to in s.deliveries && Covered(s, to)
    ensures to in SendStep(s, w, verdict).deliveries && Covered(SendStep(s, w, verdict), to)
  {
    var t := SendStep(s, w, verdict);
    if At(s, w) && s.workers[w].Marked? && s.workers[w].to in s.deliveries {
      LoadMoves(s.workers, w, t.workers[w], to);
      SameUnmarked(s.workers, w, t.workers[w], to);
    }
  }

  lemma RecordCovered(s: Ledger, w: nat, write: Write, to: Recipient)
    requires Sound(s) && to in s.deliveries && Covered(s, to)
    ensures to in RecordStep(s, w, write).deliveries && Covered(RecordStep(s, w, write), to)
  {
    hide TotalLoad;
    var t := RecordStep(s, w, write);
    if At(s, w) && s.workers[w].Recording? && s.workers[w].to in s.deliveries {
      var r := s.workers[w].to;
      if to != r {
        OthersCovered(s, t, w, to);
      } else {
        LoadMoves(s.workers, w, t.workers[w], to);
        SameUnmarked(s.workers, w, t.workers[w], to);
        assert Covered(s, to);
      }
    }
  }

  lemma RowsCovered(s: Ledger, e: Event, to: Recipient)
    requires Sound(s) && to in s.deliveries && Covered(s, to)
    requires e.RequeueStale? || e.QuarantineStale? || e.ResetFailures? || e.Retry?
    requires e.RequeueStale? ==> Timely(s)
    ensures to in Step(s, e).deliveries && Covered(Step(s, e), to)
  {
    hide FinalStatus, TotalLoad;
  }

  lemma SeedCovered(s: Ledger, w: nat, audience: set<Recipient>, to: Recipient)
    requires Sound(s) && (to in s.deliveries ==> Covered(s, to))
    requires At(s, w) && s.workers[w] == Fresh && to in SeedLedger(s, audience).deliveries
    ensures Covered(Step(s, Seed(w, audience)), to)
  {
    var t := Step(s, Seed(w, audience));
    LoadMoves(s.workers, w, Looping, to);
    SameUnmarked(s.workers, w, Looping, to);
    if to !in s.deliveries {
      NoLoad(s.workers, to);
    }
  }

  lemma StartCovered(s: Ledger, to: Recipient)
    requires Sound(s) && to in s.deliveries && Covered(s, to)
    ensures Covered(Step(s, Start), to)
  {
    var ws := s.workers + [Fresh];
    assert ws[..|s.workers|] == s.workers;
    assert Load(Fresh, to) == 0;
    if Unmarked(ws, to) {
      var i :| 0 <= i < |ws| && Claims(ws[i], to);
      assert Claims(s.workers[i], to);
    }
    if Unmarked(s.workers, to) {
      var i :| 0 <= i < |s.workers| && Claims(s.workers[i], to);
      assert Claims(ws[i], to);
    }
  }

  predicate Leaves(e: Event) {
    e.NoneLeft? || e.Break? || e.Count? || e.Close? || e.Fail? || e.Crash?
  }

  lemma LeavesCovered(s: Ledger, e: Event, to: Recipient)
    requires Sound(s) && Leaves(e) && to in s.deliveries && Covered(s, to)
    ensures Step(s, e).deliveries == s.deliveries && Covered(Step(s, e), to)
  {
    var t := Step(s, e);
    if t.workers != s.workers {
      LeavingCovered(s, t, e.worker, to);
    }
  }

  /** A single step keeps the bound on sends to each recipient. */
  lemma StepCovered(s: Ledger, e: Event, to: Recipient)
    requires Sound(s) && (to in s.deliveries ==> Covered(s, to))
    requires (e.RequeueStale? ==> Timely(s)) && to in Step(s, e).deliveries
    ensures Covered(Step(s, e), to)
  {
    if Leaves(e) {
      LeavesCovered(s, e, to);
    } else {
      match e
      case Start => StartCovered(s, to);
      case Seed(w, audience) =>
        if At(s, w) && s.workers[w] == Fresh {
          SeedCovered(s, w, audience, to);
        }
      case Claim(w, r, eligible) => ClaimCovered(s, w, r, eligible, to);
      case Mark(w, write) => MarkCovered(s, w, write, to);
      case Send(w, verdict) => SendCovered(s, w, verdict, to);
      case Record(w, write) => RecordCovered(s, w, write, to);
      case ResetBroadcast =>
      case Elapse(_) =>
      case _ => RowsCovered(s, e, to);
    }
  }

  lemma StepKeepsKnown(s: Ledger, e: Event)
    requires WorkersKnown(s)
    ensures WorkersKnown(Step(s, e))
  {
    hide FinalStatus, WithStatus, ClaimRow, MarkRow, SendRow, RecordRow, RequeueRow, QuarantineRow, ResetRow, RetryRow;
  }

  /** A row keeps its claim time for as long as the claim lasts. */
  predicate KeepsClaim(before: Delivery, after: Delivery) {
    after.status == Sending ==> before.status == Sending && after.claimedAt == before.claimedAt
  }

  lemma RowsKeepDates(s: Ledger, t: Ledger)
    requires ClaimsDated(s) && t.now >= s.now
    requires forall to :: to in t.deliveries && to in s.deliveries ==> KeepsClaim(s.deliveries[to], t.deliveries[to])
    requires forall to :: to in t.deliveries && to !in s.deliveries ==> t.deliveries[to].status == Pending
    requires forall i :: 0 <= i < |t.workers| && t.workers[i].Claimed? ==>
        i < |s.workers| && t.workers[i] == s.workers[i]
    requires WorkersKnown(s)
    ensures ClaimsDated(t)
  {
    forall i | 0 <= i < |t.workers| && t.workers[i].Claimed? && ClaimOpen(t, t.workers[i].to)
      ensures t.workers[i].since <= t.deliveries[t.workers[i].to].claimedAt.value
    {
      var to := s.workers[i].to;
      assert KeepsClaim(s.deliveries[to], t.deliveries[to]);
      assert ClaimOpen(s, to);
    }
  }

  lemma StepKeepsRow(s: Ledger, e: Event, to: Recipient)
    requires !e.Claim? && to in Step(s, e).deliveries
    ensures to in s.deliveries ==> KeepsClaim(s.deliveries[to], Step(s, e).deliveries[to])
    ensures to !in s.deliveries ==> Step(s, e).deliveries[to].status == Pending
  {
    hide FinalStatus, WithStatus;
  }

  lemma StepKeepsClaimant(s: Ledger, e: Event, i: nat)
    requires !e.Claim? && i < |Step(s, e).workers| && Step(s, e).workers[i].Claimed?
    ensures i < |s.workers| && Step(s, e).workers[i] == s.workers[i]
  {
    hide FinalStatus, WithStatus, ClaimRow, MarkRow, SendRow, RecordRow, RequeueRow, QuarantineRow, ResetRow, RetryRow;
  }

  lemma ClaimKeepsDates(s: Ledger, w: nat, to: Recipient, eligible: bool)
    requires ClaimsDated(s) && WorkersKnown(s)
    ensures ClaimsDated(ClaimStep(s, w, to, eligible))
  {
    var t := ClaimStep(s, w, to, eligible);
    forall i | 0 <= i < |t.workers| && t.workers[i].Claimed? && ClaimOpen(t, t.workers[i].to)
      ensures t.workers[i].since <= t.deliveries[t.workers[i].to].claimedAt.value
    {
      if t.workers[i] == s.workers[i] && t.workers[i].to != to {
        assert ClaimOpen(s, s.workers[i].to);
      }
    }
  }

  lemma StepKeepsDates(s: Ledger, e: Event)
    requires ClaimsDated(s) && WorkersKnown(s)
    ensures ClaimsDated(Step(s, e))
  {
    var t := Step(s, e);
    if e.Claim? {
      ClaimKeepsDates(s, e.worker, e.to, e.eligible);
    } else {
      assert t.now >= s.now;
      hide *;
      forall to | to in t.deliveries
        ensures to in s.deliveries ==> KeepsClaim(s.deliveries[to], t.deliveries[to])
        ensures to !in s.deliveries ==> t.deliveries[to].status == Pending
      {
        StepKeepsRow(s, e, to);
      }
      forall i | 0 <= i < |t.workers| && t.workers[i].Claimed?
        ensures i < |s.workers| && t.workers[i] == s.workers[i]
      {
        StepKeepsClaimant(s, e, i);
      }
      RowsKeepDates(s, t);
    }
  }

  lemma StepKeepsUnmarked(s: Ledger, e: Event)
    requires PendingUnmarked(s)
    ensures PendingUnmarked(Step(s, e))
  {
  }

  lemma StepKeepsSound(s: Ledger, e: Event)
    requires Sound(s)
    ensures Sound(Step(s, e))
  {
    hide Step, ClaimsDated, WorkersKnown, PendingUnmarked;
    StepKeepsKnown(s, e);
    StepKeepsDates(s, e);
    StepKeepsUnmarked(s, e);
  }

  lemma StepKeepsInv(s: Ledger, e: Event)
    requires Inv(s) && (e.RequeueStale? ==> Timely(s))
    ensures Inv(Step(s, e))
  {
    hide Step, Covered, Sound;
    forall to | to in Step(s, e).deliveries
      ensures Covered(Step(s, e), to)
    {
      StepCovered(s, e, to);
    }
    StepKeepsSound(s, e);
  }

  /** At most once: in every run in which live senders mark within five minutes of their claim, no
      recipient is reached more often than once plus once per retry an operator confirmed. */
  lemma {:induction false} AtMostOnce(s: Ledger, events: seq<Event>)
    requires Init(s) && TimelyRun(s, events)
    ensures Inv(Run(s, events))
    ensures forall to :: to in Run(s, events).deliveries ==>
              Run(s, events).deliveries[to].reached <= 1 + Run(s, events).deliveries[to].retries
  {
    hide Step;
    if events != [] {
      var n := |events| - 1;
      AtMostOnce(s, events[..n]);
      StepKeepsInv(Run(s, events[..n]), events[n]);
    }
    var t := Run(s, events);
    forall to | to in t.deliveries
      ensures t.deliveries[to].reached <= 1 + t.deliveries[to].retries
    {
      assert Covered(t, to);
    }
  }
}
