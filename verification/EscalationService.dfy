/** The writers of store/app/crm/escalations.py as they are there: updates of customer rows in place,
    and the batch that resumes expired escalations. */
module EscalationService {
  import opened Common
  import opened Escalations

  datatype Outcome = Reactivated | Skipped(reason: Option<Skip>) | FailedAtProvider | NotFound

  datatype Summary = Summary(checked: nat, reactivated: nat, failed: nat, skipped: nat)

  class CustomerStore {
    var rows: Rows

    constructor (rows: Rows)
      ensures this.rows == rows
    {
      this.rows := rows;
    }

    /** `escalate_customer_automatically`. */
    method EscalateAutomatically(id: CustomerId, setting: Option<int>, now: int) returns (done: bool)
      modifies this
      ensures rows == Step(old(rows), Escalate(id, setting, now))
      ensures done <==> id in old(rows) && MayEscalate(old(rows)[id])
      ensures done ==>
        && id in rows && RightExpiry(setting, now, rows[id].expiresAt)
        && rows == old(rows)[id := Row(Escalated, Some(Automatic), Some(now), rows[id].expiresAt, false)]
      ensures !done ==> rows == old(rows)
    {
      done := id in rows && !rows[id].isBlocked && rows[id].state != Blocked
              && (rows[id].state != Escalated || rows[id].source == Some(Automatic));
      if done {
        var minutes := NormalizeMinutes(setting);
        rows := rows[id := Row(Escalated, Some(Automatic), Some(now),
                               if minutes == 0 then None else Some(now + 60 * minutes), rows[id].isBlocked)];
      } else {
        Unchanged(rows, id);
      }
    }

    /** `escalate_customer_manually`. */
    method EscalateManually(id: CustomerId, now: int) returns (done: bool)
      modifies this
      ensures rows == Step(old(rows), Pause(id, now))
      ensures done <==> id in old(rows)
      ensures rows == if done
          then old(rows)[id := Row(Escalated, Some(Manual), Some(now), None, old(rows)[id].isBlocked)]
                      else old(rows)
    {
      done := id in rows;
      if done {
        rows := rows[id := Row(Escalated, Some(Manual), Some(now), None, rows[id].isBlocked)];
      }
    }

    /** `mark_external_escalation`: the three CASEs leave an automatic escalation as it is. */
    method MarkExternalEscalation(id: CustomerId, now: int) returns (done: bool)
      modifies this
      ensures rows == Step(old(rows), MirrorPause(id, now))
      ensures done <==> id in old(rows) && !old(rows)[id].isBlocked && old(rows)[id].state != Blocked
      ensures rows ==
        if done && (old(rows)[id].state != Escalated || old(rows)[id].source != Some(Automatic))
        then old(rows)[id := Row(Escalated, Some(External), Some(now), None, false)]
        else old(rows)
    {
      done := id in rows && !rows[id].isBlocked && rows[id].state != Blocked;
      if done {
        var r := rows[id];
        var automatic := r.state == Escalated && r.source == Some(Automatic);
        rows := rows[id := Row(Escalated,
                               if automatic then r.source else Some(External),
                               if automatic then r.escalatedAt else Some(now),
                               if automatic then r.expiresAt else None,
                               r.isBlocked)];
      } else {
        Unchanged(rows, id);
      }
    }

    /** `mark_external_active`. */
    method MarkExternalActive(id: CustomerId) returns (done: bool)
      modifies this
      ensures rows == Step(old(rows), MirrorActive(id))
      ensures done <==>
        && id in old(rows) && !old(rows)[id].isBlocked && old(rows)[id].state != Blocked
        && (old(rows)[id].state == Escalated ==> old(rows)[id].source == Some(External))
      ensures rows == if done then old(rows)[id := Row(Active, None, None, None, false)] else old(rows)
    {
      done := id in rows && !rows[id].isBlocked && rows[id].state != Blocked
              && (rows[id].state != Escalated || rows[id].source == Some(External));
      if done {
        rows := rows[id := Row(Active, None, None, None, rows[id].isBlocked)];
      } else {
        Unchanged(rows, id);
      }
    }

    /** `mark_customer_active_for_admin`. */
    method MarkActiveForAdmin(id: CustomerId) returns (done: bool)
      modifies this
      ensures rows == Step(old(rows), Activate(id))
      ensures done <==> id in old(rows)
      ensures rows == if done then old(rows)[id := Row(Active, None, None, None, old(rows)[id].isBlocked)]
          else old(rows)
    {
      done := id in rows;
      if done {
        rows := rows[id := Row(Active, None, None, None, rows[id].isBlocked)];
      }
    }

    /** `mark_customer_blocked`. */
    method MarkBlocked(id: CustomerId) returns (done: bool)
      modifies this
      ensures rows == Step(old(rows), Block(id))
      ensures done <==> id in old(rows)
      ensures rows == if done then old(rows)[id := Row(Blocked, None, None, None, old(rows)[id].isBlocked)]
          else old(rows)
    {
      done := id in rows;
      if done {
        rows := rows[id := Row(Blocked, None, None, None, rows[id].isBlocked)];
      }
    }

    /** `_reactivate_expired_locked` on the row read under its lock. */
    method ReactivateLocked(id: CustomerId, read: Row, now: int, providerFails: bool) returns (outcome: Outcome)
      requires id in rows && rows[id] == read
      modifies this
      ensures rows == old(rows)[id := ExpireRow(read, now, providerFails)]
      ensures outcome.Reactivated? <==> Due(read, now) && !providerFails
      ensures outcome.FailedAtProvider? <==> Due(read, now) && providerFails
      ensures outcome.Skipped? ==> outcome.reason.Some? && outcome.reason == QuickSkipReason(read, now)
      ensures rows == if outcome.Reactivated? then old(rows)[id := Row(Active, None, None, None, false)] else old(rows)
      ensures !outcome.NotFound?
    {
      Unchanged(rows, id);
      var quick := QuickSkipReason(read, now);
      if quick.Some? {
        return Skipped(quick);
      }
      if providerFails {
        return FailedAtProvider;
      }
      var r := rows[id];
      if r.state == Escalated && r.source == Some(Automatic) && r.expiresAt.Some? && r.expiresAt.value <= now
          && r.expiresAt == read.expiresAt && r.escalatedAt == read.escalatedAt && !r.isBlocked {
        rows := rows[id := Row(Active, None, None, None, r.isBlocked)];
        return Reactivated;
      }
      outcome := Skipped(None);
    }

    /** `reactivate_if_expired`: `known` is the caller's copy of the row, if it has one. */
    method ReactivateIfExpired(id: CustomerId, known: Option<Row>, now: int, providerFails: bool)
        returns (outcome: Outcome)
      modifies this
      ensures outcome.Reactivated? ==>
        && id in old(rows) && Due(old(rows)[id], now) && !providerFails
        && rows == Step(old(rows), Expire(id, now, providerFails))
        && rows == old(rows)[id := Row(Active, None, None, None, false)]
      ensures !outcome.Reactivated? ==> rows == old(rows)
      ensures
        id in old(rows) && Due(old(rows)[id], now) && !providerFails && (known == None || known == Some(old(rows)[id]))
        ==> outcome.Reactivated?
    {
      if known.Some? {
        var quick := QuickSkipReason(known.value, now);
        if quick.Some? {
          return Skipped(quick);
        }
      }
      if id !in rows {
        return NotFound;
      }
      outcome := ReactivateLocked(id, rows[id], now, providerFails);
    }

    /** The SELECT of the batch, the earliest expiry first. */
    method SelectExpired(now: int, limit: int, locked: set<CustomerId>) returns (chosen: seq<CustomerId>)
      ensures Selects(rows, now, limit, locked, chosen)
    {
      hide Due;
      chosen := [];
      var due := DueRows(rows, now, locked);
      DueHasExpiry(rows, now, locked);
      var left := due;
      while |chosen| < ClampLimit(limit) && left != {}
        invariant Distinct(chosen) && left <= due && |chosen| <= ClampLimit(limit)
        invariant |left| == |due| - |chosen|
        invariant forall id :: id in due ==> (id in chosen <==> id !in left)
        invariant forall id :: id in chosen ==> id in due
        invariant forall id, other :: id in chosen && other in left ==> NoLater(rows, id, other)
        decreases |left|
      {
        var first := Earliest(left);
        chosen := chosen + [first];
        left := left - {first};
      }
    }

    method Earliest(ids: set<CustomerId>) returns (first: CustomerId)
      requires ids != {} && forall id :: id in ids ==> id in rows && rows[id].expiresAt.Some?
      ensures first in ids && forall id :: id in ids ==> NoLater(rows, first, id)
    {
      first :| first in ids;
      var left := ids - {first};
      while left != {}
        invariant first in ids && left <= ids
        invariant forall id :: id in ids && id !in left ==> NoLater(rows, first, id)
        decreases |left|
      {
        var id :| id in left;
        left := left - {id};
        if rows[id].expiresAt.value < rows[first].expiresAt.value {
          first := id;
        }
      }
    }

    /** `process_expired_automatic_escalations`. */
    method ProcessExpired(limit: int, now: int, locked: set<CustomerId>, failing: set<CustomerId>)
        returns (summary: Summary, chosen: seq<CustomerId>)
      modifies this
      ensures Selects(old(rows), now, limit, locked, chosen)
      ensures rows == Step(old(rows), ExpireBatch(limit, locked, chosen, now, failing))
      ensures rows.Keys == old(rows).Keys && forall id :: id in rows ==>
        rows[id] == if id in chosen && id !in failing then Row(Active, None, None, None, false) else old(rows)[id]
      ensures summary.checked == |chosen| && summary.skipped == 0
      ensures summary.failed == |set id | id in chosen && id in failing|
      ensures summary.reactivated == |set id | id in chosen && id !in failing|
    {
      chosen := SelectExpired(now, limit, locked);
      hide Selects;
      ChosenAreDue(rows, now, limit, locked, chosen);
      summary := Summary(|chosen|, 0, 0, 0);
      for k := 0 to |chosen|
        invariant rows == ExpireChosen(old(rows), now, chosen[..k], failing)
        invariant summary.checked == |chosen| && summary.skipped == 0
        invariant summary.failed == |set id | id in chosen[..k] && id in failing|
        invariant summary.reactivated == |set id | id in chosen[..k] && id !in failing|
      {
        var id := chosen[k];
        ExpireOneMore(old(rows), now, chosen, k, failing);
        CountOneMore(chosen, k, failing);
        var outcome := ReactivateLocked(id, rows[id], now, id in failing);
        summary := Summary(|chosen|,
                           summary.reactivated + (if outcome.Reactivated? then 1 else 0),
                           summary.failed + (if outcome.FailedAtProvider? then 1 else 0),
                           summary.skipped + (if outcome.Skipped? then 1 else 0));
      }
      assert chosen[..|chosen|] == chosen;
      ghost var batch := ExpireBatch(limit, locked, chosen, now, failing);
      StepKeepsKeys(old(rows), batch);
      forall id | id in rows
        ensures rows[id] == if id in chosen && id !in failing then Row(Active, None, None, None, false)
                            else old(rows)[id]
      {
        BatchClears(old(rows), batch, id);
      }
    }
  }

  lemma CountOneMore(chosen: seq<CustomerId>, k: nat, failing: set<CustomerId>)
    requires k < |chosen| && Distinct(chosen)
    ensures |set id | id in chosen[..k + 1] && id in failing|
         == |set id | id in chosen[..k] && id in failing| + (if chosen[k] in failing then 1 else 0)
    ensures |set id | id in chosen[..k + 1] && id !in failing|
         == |set id | id in chosen[..k] && id !in failing| + (if chosen[k] in failing then 0 else 1)
  {
    var (failed, fine) := (set id | id in chosen[..k] && id in failing, set id | id in chosen[..k] && id !in failing);
    assert chosen[k] !in chosen[..k];
    assert chosen[..k + 1] == chosen[..k] + [chosen[k]];
    if chosen[k] in failing {
      assert (set id | id in chosen[..k + 1] && id in failing) == failed + {chosen[k]};
      assert (set id | id in chosen[..k + 1] && id !in failing) == fine;
    } else {
      assert (set id | id in chosen[..k + 1] && id in failing) == failed;
      assert (set id | id in chosen[..k + 1] && id !in failing) == fine + {chosen[k]};
    }
  }

  lemma Unchanged(rows: Rows, id: CustomerId)
    ensures id in rows ==> rows[id := rows[id]] == rows
  {
  }

  lemma DueHasExpiry(rows: Rows, now: int, locked: set<CustomerId>)
    ensures forall id :: id in DueRows(rows, now, locked) ==> id in rows && rows[id].expiresAt.Some?
  {
  }

  lemma ChosenAreDue(rows: Rows, now: int, limit: int, locked: set<CustomerId>, chosen: seq<CustomerId>)
    requires Selects(rows, now, limit, locked, chosen)
    ensures Distinct(chosen)
    ensures forall i :: 0 <= i < |chosen| ==> chosen[i] in rows && Due(rows[chosen[i]], now)
    ensures ExpireChosen(rows, now, [], {}) == rows
  {
    forall i | 0 <= i < |chosen|
      ensures chosen[i] in rows && Due(rows[chosen[i]], now)
    {
      assert chosen[i] in DueRows(rows, now, locked);
    }
  }

  /** Rows of the batch are distinct, so each is still as the SELECT read it when its turn comes. */
  lemma ExpireOneMore(rows: Rows, now: int, chosen: seq<CustomerId>, k: nat, failing: set<CustomerId>)
    requires k < |chosen| && Distinct(chosen) && chosen[k] in rows
    ensures var before := ExpireChosen(rows, now, chosen[..k], failing);
      && chosen[k] in before && before[chosen[k]] == rows[chosen[k]]
      && ExpireChosen(rows, now, chosen[..k + 1], failing)
           == before[chosen[k] := ExpireRow(rows[chosen[k]], now, chosen[k] in failing)]
  {
    hide ExpireRow;
    assert chosen[k] !in chosen[..k];
    assert forall id :: id in chosen[..k + 1] <==> id in chosen[..k] || id == chosen[k];
  }
}
