/** Customer escalation and automatic resumption (store/app/crm/escalations.py), as a machine whose
    steps are the guarded updates of its writers. Instants are seconds. */
module Escalations {
  import opened Common

  type CustomerId = string

  datatype State = Active | Escalated | Blocked

  datatype Source = Automatic | Manual | External

  /** The columns of a customer that the writers read or set. An escalated row from before the
      source column existed has no source. */
  datatype Row = Row(state: State, source: Option<Source>, escalatedAt: Option<int>, expiresAt: Option<int>,
                     isBlocked: bool)

  type Rows = map<CustomerId, Row>

  const DEFAULT_MINUTES := 180
  const MIN_MINUTES := 5
  const MAX_MINUTES := 10080
  const BATCH_LIMIT := 10

  datatype Event =
    | Escalate(id: CustomerId, setting: Option<int>, now: int)
    | Pause(id: CustomerId, now: int)
    | MirrorPause(id: CustomerId, now: int)
    | MirrorActive(id: CustomerId)
    | Activate(id: CustomerId)
    | Block(id: CustomerId)
    | Expire(id: CustomerId, now: int, providerFails: bool)
    | ExpireBatch(limit: int, locked: set<CustomerId>, chosen: seq<CustomerId>, now: int, failing: set<CustomerId>)
    /** The admin endpoint writes `active` on a row it read as already active. */
    | WriteActive(id: CustomerId)

  // ---------------------------------------------------------------- the timeout

  /** `normalize_automatic_timeout_minutes`; a value `int()` refuses is None. */
  function NormalizeMinutes(value: Option<int>): (minutes: int)
    ensures minutes == 0 || 5 <= minutes <= 10080
    ensures value == Some(minutes) <==> value.Some? && (value.value == 0 || 5 <= value.value <= 10080)
    ensures value != Some(minutes) ==> minutes == 180
  {
    if value.Some? && (value.value == 0 || MIN_MINUTES <= value.value <= MAX_MINUTES) then value.value
        else DEFAULT_MINUTES
  }

  /** `automatic_expiration_from_settings`. */
  function Expiration(setting: Option<int>, now: int): Option<int> {
    var minutes := NormalizeMinutes(setting);
    if minutes == 0 then None else Some(now + 60 * minutes)
  }

  // ---------------------------------------------------------------- the writers

  predicate IsAutomatic(r: Row) {
    r.state == Escalated && r.source == Some(Automatic)
  }

  function ActiveRow(r: Row): Row {
    Row(Active, None, None, None, r.isBlocked)
  }

  function EscalateRow(r: Row, setting: Option<int>, now: int): Row {
    if !r.isBlocked && r.state != Blocked && (r.state != Escalated || r.source == Some(Automatic))
    then Row(Escalated, Some(Automatic), Some(now), Expiration(setting, now), r.isBlocked)
    else r
  }

  function PauseRow(r: Row, now: int): Row {
    Row(Escalated, Some(Manual), Some(now), None, r.isBlocked)
  }

  function MirrorPauseRow(r: Row, now: int): Row {
    if r.isBlocked || r.state == Blocked || IsAutomatic(r) then r
    else Row(Escalated, Some(External), Some(now), None, r.isBlocked)
  }

  function MirrorActiveRow(r: Row): Row {
    if !r.isBlocked && r.state != Blocked && (r.state != Escalated || r.source == Some(External)) then ActiveRow(r)
        else r
  }

  function BlockRow(r: Row): Row {
    Row(Blocked, None, None, None, r.isBlocked)
  }

  datatype Skip = IsBlocked | NotEscalated | NotAutomatic | NoExpiration | NotExpired

  /** `_quick_skip_reason`. */
  function QuickSkipReason(r: Row, now: int): Option<Skip> {
    if r.state == Blocked || r.isBlocked then Some(IsBlocked)
    else if r.state != Escalated then Some(NotEscalated)
    else if r.source != Some(Automatic) then Some(NotAutomatic)
    else if r.expiresAt.None? then Some(NoExpiration)
    else if r.expiresAt.value > now then Some(NotExpired)
    else None
  }

  /** The WHERE clause of the batch. */
  predicate Due(r: Row, now: int) {
    r.state == Escalated && r.source == Some(Automatic) && r.expiresAt.Some? && r.expiresAt.value <= now && !r.isBlocked
  }

  /** The guard of the update in `_reactivate_expired_locked`, given the values read before. */
  predicate StillDue(r: Row, now: int, expectedExpiry: Option<int>, expectedStart: Option<int>) {
    Due(r, now) && r.expiresAt == expectedExpiry && r.escalatedAt == expectedStart
  }

  function ExpireRow(r: Row, now: int, providerFails: bool): Row {
    if QuickSkipReason(r, now).Some? || providerFails then r
    else if StillDue(r, now, r.expiresAt, r.escalatedAt) then ActiveRow(r)
    else r
  }

  /** Under the row lock the pure check and both SQL guards agree, so the last one never fails. */
  lemma GuardsAgree(r: Row, now: int)
    ensures QuickSkipReason(r, now).None? <==> Due(r, now)
    ensures Due(r, now) <==> StillDue(r, now, r.expiresAt, r.escalatedAt)
    ensures ExpireRow(r, now, false) != r <==> Due(r, now)
  {
  }

  /** The first reason that applies. */
  lemma SkipReasons(r: Row, now: int)
    ensures var reason := QuickSkipReason(r, now);
      var open := r.state == Escalated && !r.isBlocked;
      && (reason == Some(IsBlocked) <==> r.isBlocked || r.state == Blocked)
      && (reason == Some(NotEscalated) <==> !r.isBlocked && r.state == Active)
      && (reason == Some(NotAutomatic) <==> open && r.source != Some(Automatic))
      && (reason == Some(NoExpiration) <==> open && r.source == Some(Automatic) && r.expiresAt.None?)
      && (reason == Some(NotExpired) <==>
            open && r.source == Some(Automatic) && r.expiresAt.Some? && now < r.expiresAt.value)
  {
  }

  // ---------------------------------------------------------------- the batch

  function ClampLimit(limit: int): (r: int)
    ensures 1 <= r <= 100
    ensures r == limit <==> 1 <= limit <= 100
    ensures (limit == 0 ==> r == 10) && (limit > 100 ==> r == 100) && (limit < 0 ==> r == 1)
  {
    var wanted := if limit == 0 then BATCH_LIMIT else limit;
    if wanted > 100 then 100 else if wanted < 1 then 1 else wanted
  }

  function DueRows(rows: Rows, now: int, locked: set<CustomerId>): set<CustomerId> {
    set id | id in rows && id !in locked && Due(rows[id], now)
  }

  predicate NoLater(rows: Rows, a: CustomerId, b: CustomerId) {
    && a in rows && rows[a].expiresAt.Some? && b in rows && rows[b].expiresAt.Some?
    && rows[a].expiresAt.value <= rows[b].expiresAt.value
  }

  /** What the batch's SELECT may answer: the earliest expired rows, at most `limit`, not locked by others. */
  predicate Selects(rows: Rows, now: int, limit: int, locked: set<CustomerId>, chosen: seq<CustomerId>) {
    && Distinct(chosen)
    && (forall id :: id in chosen ==> id in DueRows(rows, now, locked))
    && |chosen|
         == (if |DueRows(rows, now, locked)| < ClampLimit(limit) then |DueRows(rows, now, locked)|
             else ClampLimit(limit))
    && (forall id, other :: id in chosen && other in DueRows(rows, now, locked) && other !in chosen ==>
         NoLater(rows, id, other))
  }

  function ExpireChosen(rows: Rows, now: int, chosen: seq<CustomerId>, failing: set<CustomerId>): Rows {
    map id | id in rows :: (if id in chosen then ExpireRow(rows[id], now, id in failing) else rows[id])
  }

  // ---------------------------------------------------------------- runs

  function SetRow(rows: Rows, id: CustomerId, r: Row): Rows {
    rows[id := r]
  }

  function Step(rows: Rows, e: Event): Rows {
    match e
    case ExpireBatch(limit, locked, chosen, now, failing) =>
      if Selects(rows, now, limit, locked, chosen) then ExpireChosen(rows, now, chosen, failing) else rows
    case Escalate(id, setting, now) => if id in rows then SetRow(rows, id, EscalateRow(rows[id], setting, now))
        else rows
    case Pause(id, now) => if id in rows then SetRow(rows, id, PauseRow(rows[id], now)) else rows
    case MirrorPause(id, now) => if id in rows then SetRow(rows, id, MirrorPauseRow(rows[id], now)) else rows
    case MirrorActive(id) => if id in rows then SetRow(rows, id, MirrorActiveRow(rows[id])) else rows
    case Activate(id) => if id in rows then SetRow(rows, id, ActiveRow(rows[id])) else rows
    case Block(id) => if id in rows then SetRow(rows, id, BlockRow(rows[id])) else rows
    case Expire(id, now, fails) => if id in rows then SetRow(rows, id, ExpireRow(rows[id], now, fails)) else rows
    case WriteActive(id) => if id in rows then SetRow(rows, id, rows[id].(state := Active)) else rows
  }

  function Run(rows: Rows, events: seq<Event>): Rows {
    if events == [] then rows else Step(Run(rows, events[..|events| - 1]), events[|events| - 1])
  }

  /** The step acts on the customer. */
  predicate Touches(e: Event, id: CustomerId) {
    if e.ExpireBatch? then id in e.chosen else e.id == id
  }

  /** Steps an administrator takes. */
  predicate ByAdmin(e: Event) {
    e.Pause? || e.Activate? || e.Block? || e.WriteActive?
  }

  predicate Expires(e: Event) {
    e.Expire? || e.ExpireBatch?
  }

  function Clock(e: Event): int
    requires Expires(e)
  {
    e.now
  }

  // ---------------------------------------------------------------- how long an escalation lasts

  /** The instant at which an automatic escalation is to end: the setting's minutes from now on if they
      are 5 to 10080, never for 0, three hours from now on otherwise. */
  predicate RightExpiry(setting: Option<int>, now: int, expiry: Option<int>) {
    && (setting == Some(0) ==> expiry == None)
    && (setting.Some? && 5 <= setting.value <= 10080 ==> expiry == Some(now + 60 * setting.value))
    && (setting.None? || setting.value < 0 || 1 <= setting.value <= 4 || setting.value > 10080 ==>
          expiry == Some(now + 10800))
  }

  /** Rows the AI may escalate: no block, and no pause of anybody else. */
  predicate MayEscalate(r: Row) {
    !r.isBlocked && (r.state == Active || (r.state == Escalated && r.source == Some(Automatic)))
  }

  lemma EscalatesExactly(rows: Rows, id: CustomerId, setting: Option<int>, now: int)
    requires id in rows
    ensures
      var t := Step(rows, Escalate(id, setting, now));
      if MayEscalate(rows[id]) then
        && id in t && t == rows[id := Row(Escalated, Some(Automatic), Some(now), t[id].expiresAt, false)]
        && RightExpiry(setting, now, t[id].expiresAt)
      else t == rows
  {
    assert rows[id := rows[id]] == rows;
  }

  /** A step that resumes the customer: an expiry of this row at or after its time, alone or in a batch,
      whose provider agrees. */
  predicate Resumes(rows: Rows, e: Event, id: CustomerId, expiry: Option<int>) {
    && Expires(e) && Touches(e, id) && expiry.Some? && expiry.value <= e.now
    && (e.Expire? ==> !e.providerFails)
    && (e.ExpireBatch? ==> id !in e.failing && Selects(rows, e.now, e.limit, e.locked, e.chosen))
  }

  lemma EscalatedStep(rows: Rows, e: Event, id: CustomerId, start: int, expiry: Option<int>)
    requires id in rows && rows[id] == Row(Escalated, Some(Automatic), Some(start), expiry, false)
    requires Touches(e, id) ==> !ByAdmin(e) && !e.Escalate?
    ensures id in Step(rows, e)
    ensures Step(rows, e)[id] ==
      if Resumes(rows, e, id, expiry) then Row(Active, None, None, None, false) else rows[id]
  {
    if e.ExpireBatch? && Selects(rows, e.now, e.limit, e.locked, e.chosen) {
      BatchClears(rows, e, id);
      assert id in e.chosen ==> id in DueRows(rows, e.now, e.locked);
      hide Selects;
    } else {
      hide Selects;
    }
  }

  lemma ResumedStep(rows: Rows, e: Event, id: CustomerId)
    requires id in rows && !rows[id].isBlocked && !IsAutomatic(rows[id])
    requires Touches(e, id) ==> !ByAdmin(e) && !e.Escalate?
    ensures id in Step(rows, e) && !Step(rows, e)[id].isBlocked && !IsAutomatic(Step(rows, e)[id])
  {
    hide Selects;
  }

  predicate NeverResumed(s: Rows, events: seq<Event>, id: CustomerId, expiry: Option<int>) {
    forall i :: 0 <= i < |events| ==> !Resumes(Run(s, events[..i]), events[i], id, expiry)
  }

  lemma NothingResumed(s: Rows, id: CustomerId, expiry: Option<int>)
    ensures NeverResumed(s, [], id, expiry)
  {
  }

  lemma OneMoreResumed(s: Rows, events: seq<Event>, id: CustomerId, expiry: Option<int>)
    requires events != []
    ensures var n := |events| - 1;
      NeverResumed(s, events, id, expiry) <==>
      NeverResumed(s, events[..n], id, expiry) && !Resumes(Run(s, events[..n]), events[n], id, expiry)
  {
    hide Run, Resumes;
    var n := |events| - 1;
    assert forall i :: 0 <= i < n ==> events[..n][..i] == events[..i] && events[..n][i] == events[i];
    if NeverResumed(s, events, id, expiry) {
      forall i | 0 <= i < n
        ensures !Resumes(Run(s, events[..n][..i]), events[..n][i], id, expiry)
      {
        assert !Resumes(Run(s, events[..i]), events[i], id, expiry);
      }
    }
  }

  lemma {:induction false} LastsFrom(s: Rows, id: CustomerId, start: int, expiry: Option<int>, events: seq<Event>)
    requires id in s && s[id] == Row(Escalated, Some(Automatic), Some(start), expiry, false)
    requires forall i :: 0 <= i < |events| && Touches(events[i], id) ==> !ByAdmin(events[i]) && !events[i].Escalate?
    ensures
      var t := Run(s, events);
      && id in t && !t[id].isBlocked && (IsAutomatic(t[id]) ==> t[id] == s[id])
      && (IsAutomatic(t[id]) <==> NeverResumed(s, events, id, expiry))
  {
    hide Step, Touches, ByAdmin, NeverResumed, Resumes;
    if events == [] {
      NothingResumed(s, id, expiry);
    } else {
      var n := |events| - 1;
      var t := Run(s, events[..n]);
      LastsFrom(s, id, start, expiry, events[..n]);
      if IsAutomatic(t[id]) {
        EscalatedStep(t, events[n], id, start, expiry);
      } else {
        ResumedStep(t, events[n], id);
      }
      OneMoreResumed(s, events, id, expiry);
    }
  }

  /** An automatic escalation that nobody repeats and no administrator touches lasts, unchanged, exactly
      until a step resumes it, which none does before the instant its setting prescribes. */
  lemma LastsExactly(rows: Rows, id: CustomerId, setting: Option<int>, now: int, expiry: Option<int>,
                     events: seq<Event>)
    requires id in rows && MayEscalate(rows[id]) && RightExpiry(setting, now, expiry)
    requires forall i :: 0 <= i < |events| && Touches(events[i], id) ==> !ByAdmin(events[i]) && !events[i].Escalate?
    ensures
      var s := Step(rows, Escalate(id, setting, now));
      var t := Run(s, events);
      && id in t
      && (IsAutomatic(t[id]) ==> t[id] == Row(Escalated, Some(Automatic), Some(now), expiry, false))
      && (IsAutomatic(t[id]) <==> NeverResumed(s, events, id, expiry))
  {
    hide *;
    var s := Step(rows, Escalate(id, setting, now));
    EscalatesExactly(rows, id, setting, now);
    OneExpiry(setting, now, s[id].expiresAt, expiry);
    LastsFrom(s, id, now, expiry, events);
  }

  lemma OneExpiry(setting: Option<int>, now: int, a: Option<int>, b: Option<int>)
    requires RightExpiry(setting, now, a) && RightExpiry(setting, now, b)
    ensures a == b
  {
  }

  /** From that instant on, and not before, the row is among the due ones, for as long as the escalation lasts. */
  lemma DueFromThenOn(rows: Rows, id: CustomerId, setting: Option<int>, now: int, expiry: Option<int>,
                      events: seq<Event>, clock: int, locked: set<CustomerId>)
    requires id in rows && MayEscalate(rows[id]) && RightExpiry(setting, now, expiry)
    requires forall i :: 0 <= i < |events| && Touches(events[i], id) ==> !ByAdmin(events[i]) && !events[i].Escalate?
    requires NeverResumed(Step(rows, Escalate(id, setting, now)), events, id, expiry)
    ensures id in DueRows(Run(Step(rows, Escalate(id, setting, now)), events), clock, locked) <==>
            id !in locked && expiry.Some? && expiry.value <= clock
  {
    hide Step, Run, Touches, NeverResumed, RightExpiry;
    LastsExactly(rows, id, setting, now, expiry, events);
  }

  // ---------------------------------------------------------------- what each row keeps

  /** Escalation data only on escalated rows, and expiry data only on automatic ones, five minutes to a
      week after their start. */
  predicate RowFits(r: Row) {
    && (r.source.Some? || r.escalatedAt.Some? || r.expiresAt.Some? ==> r.state == Escalated)
    && (r.expiresAt.Some? ==>
          && r.source == Some(Automatic) && r.escalatedAt.Some?
          && 300 <= r.expiresAt.value - r.escalatedAt.value <= 604800)
  }

  predicate AllFit(rows: Rows) {
    forall id :: id in rows ==> RowFits(rows[id])
  }

  lemma StepKeepsRow(rows: Rows, e: Event, id: CustomerId)
    requires id in rows && RowFits(rows[id]) && !e.WriteActive?
    ensures id in Step(rows, e) && RowFits(Step(rows, e)[id])
  {
    hide Selects;
  }

  lemma {:induction false} RunKeepsRows(rows: Rows, events: seq<Event>)
    requires AllFit(rows) && forall i :: 0 <= i < |events| ==> !events[i].WriteActive?
    ensures Run(rows, events).Keys == rows.Keys && AllFit(Run(rows, events))
  {
    hide Step, RowFits;
    if events != [] {
      var n := |events| - 1;
      RunKeepsRows(rows, events[..n]);
      var t := Run(rows, events[..n]);
      StepKeepsKeys(t, events[n]);
      forall id | id in Step(t, events[n])
        ensures RowFits(Step(t, events[n])[id])
      {
        StepKeepsRow(t, events[n], id);
      }
    }
  }

  lemma StepKeepsKeys(rows: Rows, e: Event)
    ensures Step(rows, e).Keys == rows.Keys
  {
    hide Selects;
    assert forall id :: id in Step(rows, e) <==> id in rows;
  }

  /** The write on a row read earlier as active keeps the data consistent exactly when the row
      carries no escalation data by then. */
  lemma WriteActiveExactly(rows: Rows, id: CustomerId)
    requires id in rows && RowFits(rows[id])
    ensures RowFits(Step(rows, WriteActive(id))[id]) <==> rows[id].source.None? && rows[id].escalatedAt.None?
  {
  }

  /** It fails when the customer is escalated automatically between the read and the write. */
  lemma WriteActiveRace(rows: Rows, id: CustomerId, setting: Option<int>, now: int)
    requires id in rows && rows[id] == Row(Active, None, None, None, false)
    ensures var after := Step(Step(rows, Escalate(id, setting, now)), WriteActive(id));
      && id in after && after[id].state == Active && after[id].source == Some(Automatic)
      && after[id].escalatedAt == Some(now) && !RowFits(after[id])
  {
    assert !RowFits(Row(Active, Some(Automatic), Some(now), Expiration(setting, now), false));
  }

  // ---------------------------------------------------------------- who may end what

  /** An automatic escalation ends only through an administrator or through its own expiry, at or
      after its time. */
  lemma AutomaticEnds(rows: Rows, e: Event, id: CustomerId)
    requires id in rows && IsAutomatic(rows[id]) && !IsAutomatic(Step(rows, e)[id])
    requires id in Step(rows, e)
    ensures Touches(e, id)
    ensures ByAdmin(e) || (Expires(e) && rows[id].expiresAt.Some? && rows[id].expiresAt.value <= Clock(e))
  {
    hide Selects;
  }

  /** Over a run: if no administrator touched the customer and the automatic escalation is gone, then
      at some step it had expired. */
  lemma {:induction false} AutomaticEndsOnTime(rows: Rows, events: seq<Event>, id: CustomerId) returns (k: nat)
    requires id in rows && IsAutomatic(rows[id])
    requires id in Run(rows, events) && !IsAutomatic(Run(rows, events)[id])
    requires forall i :: 0 <= i < |events| && Touches(events[i], id) ==> !ByAdmin(events[i])
    ensures k < |events| && Expires(events[k]) && Touches(events[k], id)
    ensures var t := Run(rows, events[..k]);
      id in t && IsAutomatic(t[id]) && t[id].expiresAt.Some? && t[id].expiresAt.value <= Clock(events[k])
  {
    hide Step, Touches;
    var n := |events| - 1;
    var t := Run(rows, events[..n]);
    RunKeepsKeys(rows, events[..n]);
    if IsAutomatic(t[id]) {
      AutomaticEnds(t, events[n], id);
      k := n;
    } else {
      k := AutomaticEndsOnTime(rows, events[..n], id);
      assert events[..n][..k] == events[..k];
    }
  }

  lemma {:induction false} RunKeepsKeys(rows: Rows, events: seq<Event>)
    ensures Run(rows, events).Keys == rows.Keys
  {
    hide Step;
    if events != [] {
      RunKeepsKeys(rows, events[..|events| - 1]);
      StepKeepsKeys(Run(rows, events[..|events| - 1]), events[|events| - 1]);
    }
  }

  /** Automatic and expiry steps never alter a manual, external or sourceless pause. */
  lemma PausesUntouched(rows: Rows, e: Event, id: CustomerId)
    requires id in rows && rows[id].state == Escalated && rows[id].source != Some(Automatic)
    requires e.Escalate? || Expires(e)
    ensures id in Step(rows, e) && Step(rows, e)[id] == rows[id]
  {
    hide Selects;
  }

  /** A blocked customer, by state or by flag, changes only through an administrator. */
  lemma BlockedUntouched(rows: Rows, e: Event, id: CustomerId)
    requires id in rows && (rows[id].state == Blocked || rows[id].isBlocked)
    requires !(ByAdmin(e) && Touches(e, id))
    ensures id in Step(rows, e) && Step(rows, e)[id] == rows[id]
  {
    hide Selects;
  }

  lemma {:induction false} BlockedForever(rows: Rows, events: seq<Event>, id: CustomerId)
    requires id in rows && (rows[id].state == Blocked || rows[id].isBlocked)
    requires forall i :: 0 <= i < |events| ==> !(ByAdmin(events[i]) && Touches(events[i], id))
    ensures id in Run(rows, events) && Run(rows, events)[id] == rows[id]
  {
    hide Step, Touches;
    if events != [] {
      var n := |events| - 1;
      BlockedForever(rows, events[..n], id);
      BlockedUntouched(Run(rows, events[..n]), events[n], id);
    }
  }

  predicate IsManual(r: Row) {
    r.state == Escalated && r.source == Some(Manual)
  }

  predicate MirrorsPause(e: Event, id: CustomerId) {
    e.MirrorPause? && e.id == id
  }

  lemma ManualStep(rows: Rows, e: Event, id: CustomerId)
    requires id in rows && !rows[id].isBlocked && !(ByAdmin(e) && Touches(e, id))
    ensures id in Step(rows, e) && !Step(rows, e)[id].isBlocked
    ensures IsManual(rows[id]) && !MirrorsPause(e, id) ==> Step(rows, e)[id] == rows[id]
    ensures MirrorsPause(e, id) ==> !IsManual(Step(rows, e)[id])
    ensures !IsManual(rows[id]) ==> !IsManual(Step(rows, e)[id])
  {
    hide Selects;
  }

  /** While no administrator acts, a manual pause lasts exactly until the provider mirrors a pause of
      its own: the mirror replaces its source, and from then on the provider may lift it. */
  lemma {:induction false} ManualLastsExactly(rows: Rows, events: seq<Event>, id: CustomerId)
    requires id in rows && IsManual(rows[id]) && !rows[id].isBlocked
    requires forall i :: 0 <= i < |events| ==> !(ByAdmin(events[i]) && Touches(events[i], id))
    ensures id in Run(rows, events) && !Run(rows, events)[id].isBlocked
    ensures IsManual(Run(rows, events)[id]) <==> forall i :: 0 <= i < |events| ==> !MirrorsPause(events[i], id)
  {
    hide Step, Touches, IsManual, MirrorsPause;
    if events != [] {
      var n := |events| - 1;
      ManualLastsExactly(rows, events[..n], id);
      ManualStep(Run(rows, events[..n]), events[n], id);
      assert forall i :: 0 <= i < n ==> events[..n][i] == events[i];
    }
  }

  /** So `mark_external_active`, which alone clears no protected pause, clears one after a mirrored pause. */
  lemma MirrorLiftsManualPause(rows: Rows, id: CustomerId, now: int)
    requires id in rows && IsManual(rows[id]) && !rows[id].isBlocked
    ensures Step(rows, MirrorActive(id)) == rows
    ensures Step(Step(rows, MirrorPause(id, now)), MirrorActive(id))[id].state == Active
  {
    assert rows[id := rows[id]] == rows;
  }

  // ---------------------------------------------------------------- what the batch achieves

  /** The batch clears exactly the chosen rows whose provider agrees, all of them due. */
  lemma BatchClears(rows: Rows, e: Event, id: CustomerId)
    requires e.ExpireBatch? && Selects(rows, e.now, e.limit, e.locked, e.chosen) && id in rows
    ensures id in Step(rows, e) && Step(rows, e)[id] ==
      if id in e.chosen && id !in e.failing then Row(Active, None, None, None, false) else rows[id]
  {
    if id in e.chosen {
      assert id in DueRows(rows, e.now, e.locked);
      GuardsAgree(rows[id], e.now);
    }
  }

  /** With the providers agreeing, a batch takes as many rows off the due ones as its limit allows. */
  lemma BatchProgress(rows: Rows, e: Event)
    requires e.ExpireBatch? && Selects(rows, e.now, e.limit, e.locked, e.chosen) && e.failing == {}
    ensures DueRows(Step(rows, e), e.now, e.locked) == DueRows(rows, e.now, e.locked) - (set id | id in e.chosen)
    ensures |DueRows(Step(rows, e), e.now, e.locked)| == Max(|DueRows(rows, e.now, e.locked)| - ClampLimit(e.limit), 0)
  {
    var due, chosen := DueRows(rows, e.now, e.locked), set id | id in e.chosen;
    forall id | id in rows
      ensures id in DueRows(Step(rows, e), e.now, e.locked) <==> id in due - chosen
    {
      BatchClears(rows, e, id);
    }
    StepKeepsKeys(rows, e);
    assert DueRows(Step(rows, e), e.now, e.locked) == due - chosen;
    DistinctCardinality(e.chosen);
    assert chosen <= due;
    assert |due - chosen| == |due| - |chosen|;
  }

  /** A batch changes nothing exactly when every row it takes fails with its provider. */
  lemma BatchStandsExactly(rows: Rows, e: Event)
    requires e.ExpireBatch? && Selects(rows, e.now, e.limit, e.locked, e.chosen)
    ensures Step(rows, e) == rows <==> forall id :: id in e.chosen ==> id in e.failing
  {
    forall id | id in rows
      ensures Step(rows, e)[id] == rows[id] <==> id !in e.chosen || id in e.failing
    {
      BatchClears(rows, e, id);
      if id in e.chosen {
        assert id in DueRows(rows, e.now, e.locked);
      }
    }
    StepKeepsKeys(rows, e);
    assert forall id :: id in e.chosen ==> id in DueRows(rows, e.now, e.locked);
    hide Step, Selects;
    assert Step(rows, e) == rows <==> forall id :: id in rows ==> Step(rows, e)[id] == rows[id];
  }

  // ---------------------------------------------------------------- what failing providers hold back

  /** Automatic escalations that expire before the one of `x`. */
  predicate Precede(rows: Rows, first: set<CustomerId>, x: CustomerId) {
    && x in rows && rows[x].expiresAt.Some?
    && forall b :: b in first ==>
         b in rows && IsAutomatic(rows[b]) && !rows[b].isBlocked
         && rows[b].expiresAt.Some? && rows[b].expiresAt.value < rows[x].expiresAt.value
  }

  /** A batch for which enough of the earlier rows are expired, unlocked and failing with their
      provider to fill its limit; any other step that leaves these rows and `x` alone. */
  predicate HoldsBack(rows: Rows, e: Event, first: set<CustomerId>, x: CustomerId)
    requires Precede(rows, first, x)
  {
    if e.ExpireBatch? then
      var free := first - e.locked;
      && |free| >= ClampLimit(e.limit) && free <= e.failing
      && forall b :: b in free ==> rows[b].expiresAt.value <= e.now
    else !Touches(e, x) && forall b :: b in first ==> !Touches(e, b)
  }

  // Which rows a batch may take at all.

  function Earlier(rows: Rows, due: set<CustomerId>, x: CustomerId): set<CustomerId>
    requires AllExpire(rows, due + {x})
  {
    assert forall y :: y in due ==> y in due + {x};
    assert x in due + {x};
    set y | y in due && rows[y].expiresAt.value < rows[x].expiresAt.value
  }

  predicate AllExpire(rows: Rows, ids: set<CustomerId>) {
    forall y :: y in ids ==> y in rows && rows[y].expiresAt.Some?
  }

  lemma {:induction false} Earliest(rows: Rows, due: set<CustomerId>) returns (m: CustomerId)
    requires due != {} && AllExpire(rows, due)
    ensures m in due && forall y :: y in due ==> NoLater(rows, m, y)
    decreases |due|
  {
    var y :| y in due;
    var rest := due - {y};
    if rest == {} {
      m := y;
      assert due == {y};
    } else {
      m := Earliest(rows, rest);
      assert forall z :: z in due ==> z == y || z in rest;
      m := if NoLater(rows, y, m) then y else m;
    }
  }

  /** The earliest `k` of the rows, `x` among them whenever fewer than `k` expire before it. */
  lemma {:induction false} Earliests(rows: Rows, due: set<CustomerId>, k: nat, x: CustomerId)
      returns (chosen: seq<CustomerId>)
    requires k <= |due| && AllExpire(rows, due)
    ensures Distinct(chosen) && |chosen| == k && forall id :: id in chosen ==> id in due
    ensures forall id, other :: id in chosen && other in due && other !in chosen ==> NoLater(rows, id, other)
    ensures x in due && AllExpire(rows, due + {x}) && |Earlier(rows, due, x)| < k ==> x in chosen
    decreases k
  {
    chosen := [];
    if k > 0 {
      var m := Earliest(rows, due);
      if x in due && NoLater(rows, x, m) {
        m := x;
      }
      var rest := Earliests(rows, due - {m}, k - 1, x);
      chosen := [m] + rest;
      if x in due && m != x {
        assert due + {x} == due && due - {m} + {x} == due - {m};
        assert Earlier(rows, due, x) == Earlier(rows, due - {m}, x) + {m};
      }
    }
  }

  /** A batch can take a due row exactly when fewer due rows than its limit expire before it. */
  lemma TakenExactly(rows: Rows, now: int, limit: int, locked: set<CustomerId>, x: CustomerId)
    requires x in DueRows(rows, now, locked)
    ensures AllExpire(rows, DueRows(rows, now, locked) + {x})
    ensures (exists chosen :: Selects(rows, now, limit, locked, chosen) && x in chosen) <==>
            |Earlier(rows, DueRows(rows, now, locked), x)| < ClampLimit(limit)
  {
    var due := DueRows(rows, now, locked);
    assert due + {x} == due;
    var earlier := Earlier(rows, due, x);
    if |earlier| < ClampLimit(limit) {
      SubsetSize(earlier + {x}, due);
      var chosen := Earliests(rows, due, if |due| < ClampLimit(limit) then |due| else ClampLimit(limit), x);
      assert Selects(rows, now, limit, locked, chosen);
    }
    if chosen :| Selects(rows, now, limit, locked, chosen) && x in chosen {
      forall y | y in earlier
        ensures y in chosen
      {
        assert y !in chosen ==> NoLater(rows, x, y);
      }
      DistinctCardinality(chosen);
      SubsetSize(earlier + {x}, set id | id in chosen);
    }
  }

  predicate SameOn(a: Rows, b: Rows, ids: set<CustomerId>) {
    forall id :: id in ids ==> (id in a <==> id in b) && (id in a ==> a[id] == b[id])
  }

  /** The earlier rows fill the batch, so it cannot take `x`. */
  lemma NotTaken(rows: Rows, e: Event, first: set<CustomerId>, x: CustomerId)
    requires Precede(rows, first, x) && e.ExpireBatch? && HoldsBack(rows, e, first, x)
    requires Selects(rows, e.now, e.limit, e.locked, e.chosen)
    ensures x !in e.chosen
  {
    var free, taken := first - e.locked, set id | id in e.chosen;
    if x in e.chosen {
      assert x in DueRows(rows, e.now, e.locked);
      forall b | b in free
        ensures b in e.chosen
      {
        assert b in DueRows(rows, e.now, e.locked);
        assert b !in e.chosen ==> NoLater(rows, x, b);
      }
      DistinctCardinality(e.chosen);
      assert free + {x} <= taken && x !in free;
      SubsetSize(free + {x}, taken);
    }
  }

  lemma HeldBackStep(rows: Rows, e: Event, first: set<CustomerId>, x: CustomerId)
    requires Precede(rows, first, x) && HoldsBack(rows, e, first, x)
    ensures SameOn(Step(rows, e), rows, first + {x})
  {
    if e.ExpireBatch? && Selects(rows, e.now, e.limit, e.locked, e.chosen) {
      NotTaken(rows, e, first, x);
      StepKeepsKeys(rows, e);
      forall id | id in first + {x}
        ensures Step(rows, e)[id] == rows[id]
      {
        BatchClears(rows, e, id);
        assert id in e.chosen ==> id in DueRows(rows, e.now, e.locked);
      }
    }
    hide Selects;
  }

  lemma StillHeldBack(rows: Rows, t: Rows, e: Event, first: set<CustomerId>, x: CustomerId)
    requires Precede(rows, first, x) && SameOn(t, rows, first + {x})
    ensures Precede(t, first, x) && (HoldsBack(t, e, first, x) <==> HoldsBack(rows, e, first, x))
  {
    assert forall b :: b in first ==> b in first + {x};
    assert x in first + {x};
    hide Touches, IsAutomatic, ClampLimit;
  }

  /** The earliest rows are taken every time: while enough of them keep failing with their provider,
      no number of batches ever resumes the customer behind them. */
  lemma {:induction false} FailingHeadStarves(rows: Rows, events: seq<Event>, first: set<CustomerId>, x: CustomerId)
    requires Precede(rows, first, x) && forall i :: 0 <= i < |events| ==> HoldsBack(rows, events[i], first, x)
    ensures SameOn(Run(rows, events), rows, first + {x})
  {
    hide Step, Precede, HoldsBack;
    if events != [] {
      var n := |events| - 1;
      var t := Run(rows, events[..n]);
      FailingHeadStarves(rows, events[..n], first, x);
      StillHeldBack(rows, t, events[n], first, x);
      HeldBackStep(t, events[n], first, x);
    }
  }

  const HEAD := Row(Escalated, Some(Automatic), Some(0), Some(300), false)
  const BEHIND := Row(Escalated, Some(Automatic), Some(60), Some(360), false)

  /** The k-th of hourly batches of one row; the provider of the first customer fails. */
  function Hourly(k: int): Event {
    ExpireBatch(1, {}, ["a"], 3600 * (k + 1), {"a"})
  }

  /** Two customers, one row a batch: the second stays due, and escalated, however many batches run. */
  lemma AlwaysBehind(n: nat)
    ensures var rows := map["a" := HEAD, "b" := BEHIND];
      && AllFit(rows) && Run(rows, seq(n, k => Hourly(k))) == rows
      && forall k :: 0 <= k < n ==>
           Selects(rows, Hourly(k).now, 1, {}, Hourly(k).chosen) && "b" in DueRows(rows, Hourly(k).now, {})
  {
    var rows := map["a" := HEAD, "b" := BEHIND];
    var events := seq(n, k => Hourly(k));
    forall k | 0 <= k < n
      ensures Selects(rows, Hourly(k).now, 1, {}, Hourly(k).chosen) && "b" in DueRows(rows, Hourly(k).now, {})
    {
      assert DueRows(rows, Hourly(k).now, {}) == {"a", "b"};
    }
    assert Precede(rows, {"a"}, "b");
    forall k | 0 <= k < n
      ensures HoldsBack(rows, events[k], {"a"}, "b")
    {
      assert {"a"} - {} == {"a"};
    }
    FailingHeadStarves(rows, events, {"a"}, "b");
    RunKeepsKeys(rows, events);
    hide Run;
    assert "a" in {"a"} + {"b"} && "b" in {"a"} + {"b"};
    assert Run(rows, events) == rows;
  }
}
