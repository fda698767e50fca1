/**
 The billing service as the source runs it: tables that are updated row by row inside a
 transaction, and put back when the transaction throws. Every method is tied to the function
 that specifies its atomic step.
 */
module BillingService {
  import opened Results
  import opened BillingTables

  /** How a transaction's outcome shows: the specified rows, or the old rows and an error. */
  ghost predicate Answered(before: Tables, answer: Answer, after: Tables, error: Option<Error>) {
    match answer
    case Ok(t) => after == t && error == None
    case Err(e) => after == before && error == Some(e)
  }

  lemma {:induction false} WaterfallOfNothing(schedules: seq<Schedule>, now: Time)
    ensures Waterfall(schedules, 0, now) == Pour(schedules, 0)
  {
    if |schedules| > 0 {
      WaterfallOfNothing(schedules[1..], now);
    }
  }

  function Prefixed(done: seq<Schedule>, pour: Pour): Pour {
    match pour
    case Blocked => Blocked
    case Pour(schedules, left) => Pour(done + schedules, left)
  }

  /** What is settled so far, followed by the pour of the rest, is the whole pour. */
  ghost predicate Midway(rows: seq<Schedule>, amount: int, now: Time, done: seq<Schedule>, unallocated: int) {
    && |done| <= |rows|
    && Waterfall(rows, amount, now) == Prefixed(done, Waterfall(rows[|done|..], unallocated, now))
  }

  /** The loop's rows: what is settled, and the rest as it was. */
  ghost predicate Pouring(rows: seq<Schedule>, amount: int, now: Time, done: seq<Schedule>, unallocated: int, i: nat,
                          schedules: seq<Schedule>)
  {
    i <= |rows| && |done| == i && schedules == done + rows[i..] && Midway(rows, amount, now, done, unallocated)
  }

  lemma MidwayStep(rows: seq<Schedule>, amount: int, now: Time, done: seq<Schedule>, unallocated: int)
    requires Midway(rows, amount, now, done, unallocated) && |done| < |rows|
    ensures var row := rows[|done|];
      var taken := Taken(row, unallocated);
      if taken > 0 && !row.Lockable(now) then Waterfall(rows, amount, now) == Blocked
      else Midway(rows, amount, now, done + [if taken > 0 then Credit(row, taken) else row], unallocated - taken)
  {
    var rest := rows[|done|..];
    var taken := Taken(rest[0], unallocated);
    var head := if taken > 0 then Credit(rest[0], taken) else rest[0];
    assert rest[1..] == rows[|done + [head]|..];
    var tail := Waterfall(rest[1..], unallocated - taken, now);
    if tail.Pour? {
      assert done + ([head] + tail.schedules) == (done + [head]) + tail.schedules;
    }
  }

  lemma MidwayEnd(rows: seq<Schedule>, amount: int, now: Time, done: seq<Schedule>, unallocated: int)
    requires Midway(rows, amount, now, done, unallocated)
    requires |done| == |rows| || unallocated == 0
    ensures Waterfall(rows, amount, now) == Pour(done + rows[|done|..], unallocated)
  {
    if unallocated == 0 {
      WaterfallOfNothing(rows[|done|..], now);
    }
  }

  lemma PourStart(rows: seq<Schedule>, amount: int, now: Time)
    ensures Pouring(rows, amount, now, [], amount, 0, rows)
  {
    assert rows[0..] == rows;
    var pour := Waterfall(rows, amount, now);
    if pour.Pour? { assert [] + pour.schedules == pour.schedules; }
  }

  lemma PourEnd(rows: seq<Schedule>, amount: int, now: Time, done: seq<Schedule>, unallocated: int, i: nat,
                schedules: seq<Schedule>)
    requires Pouring(rows, amount, now, done, unallocated, i, schedules)
    requires i == |schedules| || unallocated == 0
    ensures Waterfall(rows, amount, now) == Pour(schedules, unallocated)
  {
    MidwayEnd(rows, amount, now, done, unallocated);
  }

  lemma Splice<T>(done: seq<T>, rows: seq<T>, i: nat, row: T)
    requires |done| == i < |rows|
    ensures (done + rows[i..])[i := row] == (done + [row]) + rows[i + 1..]
    ensures row == rows[i] ==> done + rows[i..] == (done + [row]) + rows[i + 1..]
  {
  }

  class BillingDatabase {
    var invoice: Invoice
    var schedules: seq<Schedule>
    var sessions: seq<Session>
    var allocations: seq<Allocation>
    var refunds: seq<Refund>
    var notes: seq<CreditNote>
    var events: seq<Event>
    var journal: seq<Entry>

    function View(): Tables
      reads this
    {
      Tables(invoice, schedules, sessions, allocations, refunds, notes, events, journal)
    }

    constructor (invoice: Invoice, schedules: seq<Schedule>)
      ensures View() == Tables(invoice, schedules, [], [], [], [], [], [])
    {
      this.invoice, this.schedules := invoice, schedules;
      sessions, allocations, refunds, notes, events, journal := [], [], [], [], [], [];
    }

    /** Undoes the writes of a transaction that throws. */
    method Rollback(saved: Tables)
      modifies this
      ensures View() == saved
    {
      invoice, schedules, sessions, allocations := saved.invoice, saved.schedules, saved.sessions, saved.allocations;
      refunds, notes, events, journal := saved.refunds, saved.notes, saved.events, saved.journal;
    }

    // ----- checkout lock -------------------------------------------------------------

    method AcquireCheckoutLock(i: nat, key: Key, now: Time) returns (count: nat)
      modifies this`schedules
      ensures count == (if AcquireLock(old(View()), i, key, now).Some? then 1 else 0)
      ensures View() == if count == 1 then AcquireLock(old(View()), i, key, now).value else old(View())
    {
      count := 0;
      if i < |schedules| {
        var row := schedules[i];
        if row.lock.Free? || row.lock.until <= now {
          schedules := schedules[i := row.(lock := Held(key, now + LEASE_MS))];
          count := 1;
        }
      }
    }

    method RetainCheckoutLock(i: nat, key: Key, until: Time) returns (count: nat)
      modifies this`schedules
      ensures count == (if RetainLock(old(View()), i, key, until).Some? then 1 else 0)
      ensures View() == if count == 1 then RetainLock(old(View()), i, key, until).value else old(View())
    {
      count := 0;
      if i < |schedules| {
        var row := schedules[i];
        if row.lock.Held? && row.lock.key == key {
          schedules := schedules[i := row.(lock := Held(key, until))];
          count := 1;
        }
      }
    }

    method ReleaseCheckoutLock(i: nat, key: Key)
      modifies this`schedules
      ensures View() == ReleaseLock(old(View()), i, key)
    {
      if i < |schedules| {
        var row := schedules[i];
        if row.lock.Held? && row.lock.key == key {
          schedules := schedules[i := row.(lock := Free)];
        }
      }
    }

    /** `created` is false when the idempotency key violates the unique constraint. */
    method CreateSession(session: Session) returns (created: bool)
      modifies this`sessions
      ensures created == InsertSession(old(View()), session).Some?
      ensures View() == if created then InsertSession(old(View()), session).value else old(View())
    {
      var i := 0;
      while i < |sessions|
        invariant 0 <= i <= |sessions| && sessions == old(sessions)
        invariant forall k :: 0 <= k < i ==> sessions[k].key != session.key
      {
        if sessions[i].key == session.key {
          assert sessions[i] in sessions;
          return false;
        }
        i := i + 1;
      }
      sessions := sessions + [session];
      created := true;
    }

    // ----- captured payments ---------------------------------------------------------

    method FinishPaymentEvent(event: Option<nat>) returns (error: Option<Error>)
      modifies this`events
      ensures Answered(old(View()), FinishEvent(old(View()), event), View(), error)
    {
      error := None;
      if event.Some? {
        if event.value < |events| {
          events := events[event.value := events[event.value].(status := Processed)];
        } else {
          error := Some(NotFound);
        }
      }
    }

    method ProcessSuccessfulPayment(sid: nat, event: Option<nat>, chart: bool) returns (error: Option<Error>)
      modifies this
      ensures Answered(old(View()), Capture(old(View()), sid, event, chart), View(), error)
    {
      var saved := View();
      if sid >= |sessions| || sessions[sid].schedule >= |schedules| {
        return Some(NotFound);
      }
      var session := sessions[sid];
      if Allocated(allocations, sid) {
        error := FinishPaymentEvent(event);
        return;
      }
      var schedule := schedules[session.schedule];
      var amount := session.amount;
      var remaining := schedule.amount - schedule.paid - schedule.credited;
      if amount > remaining {
        return Some(ExceedsRemaining);
      }
      var paid := invoice.paid + amount;
      var fullyPaid := paid + invoice.credited >= invoice.total;
      allocations := allocations + [Allocation(sid, session.schedule, amount)];
      sessions := sessions[sid := session.(status := Completed)];
      schedules := schedules[session.schedule := schedule.(
        paid := schedule.paid + amount,
        lock := Free,
        status := if schedule.paid + schedule.credited + amount >= schedule.amount
          then SchedulePaid else ScheduleOpen)];
      invoice := invoice.(paid := paid, status := if fullyPaid then Paid else PartiallyPaid);
      if !chart {
        Rollback(saved);
        return Some(ChartMissing);
      }
      journal := journal + [Entry(PaymentOf(sid), [Line(Cash, amount, 0), Line(Receivable, 0, amount)])];
      if amount > MAX_SAFE_INTEGER {
        Rollback(saved);
        return Some(AmountTooLarge);
      }
      error := FinishPaymentEvent(event);
      if error.Some? {
        Rollback(saved);
      }
    }

    /** The three writes made when a provider reports failure or expiry. */
    method FailPaymentSession(sid: nat, event: nat) returns (error: Option<Error>)
      modifies this
      ensures Answered(old(View()), FailSession(old(View()), sid, event), View(), error)
    {
      var saved := View();
      if sid >= |sessions| {
        return Some(NotFound);
      }
      var session := sessions[sid];
      if session.status.Pending? {
        sessions := sessions[sid := session.(status := Failed)];
      }
      ReleaseCheckoutLock(session.schedule, session.key);
      error := FinishPaymentEvent(Some(event));
      if error.Some? {
        Rollback(saved);
      }
    }

    method SweepExpiredSessions(now: Time)
      modifies this`sessions
      ensures View() == ExpireSessions(old(View()), now)
    {
      var i := 0;
      while i < |sessions|
        invariant 0 <= i <= |sessions| == |old(sessions)|
        invariant forall k :: 0 <= k < i ==> sessions[k] == ExpireSession(old(sessions)[k], now)
        invariant forall k :: i <= k < |sessions| ==> sessions[k] == old(sessions)[k]
      {
        if sessions[i].status.Pending? && sessions[i].expiresAt <= now {
          sessions := sessions[i := sessions[i].(status := Expired)];
        }
        i := i + 1;
      }
      assert sessions == ExpireSessions(old(View()), now).sessions;
    }

    // ----- refunds -------------------------------------------------------------------

    /** Sums what the session's refunds have reserved, row by row. */
    method AlreadyReserved(sid: nat) returns (sum: int)
      ensures sum == Reserved(refunds, sid)
    {
      sum := 0;
      var i := 0;
      while i < |refunds|
        invariant 0 <= i <= |refunds|
        invariant sum == Reserved(refunds[..i], sid)
      {
        if refunds[i].session == sid && !refunds[i].status.RefundFailed? {
          sum := sum + refunds[i].amount;
        }
        assert refunds[..i + 1][..i] == refunds[..i];
        i := i + 1;
      }
      assert refunds[..i] == refunds;
    }

    method RequestRefund(sid: nat, key: Key, amount: int, reason: string) returns (error: Option<Error>)
      modifies this`refunds
      ensures Answered(old(View()), ReserveRefund(old(View()), sid, key, amount, reason), View(), error)
    {
      if amount < 1 {
        return Some(InvalidAmount);
      }
      var replay := FindRefund(refunds, key, 0);
      if replay.Some? {
        var prior := refunds[replay.value];
        if prior.session != sid || prior.amount != amount || prior.reason != reason {
          return Some(KeyReused);
        }
        return None;
      }
      if sid >= |sessions| || !sessions[sid].status.Completed? {
        return Some(NotFound);
      }
      var alreadyReserved := AlreadyReserved(sid);
      if amount + alreadyReserved > sessions[sid].amount {
        return Some(RefundExceedsCapture);
      }
      refunds := refunds + [Refund(sid, key, amount, reason, RefundPending, None, false)];
      error := None;
    }

    method ApplyCompletedRefund(rid: nat, now: Time, chart: bool) returns (error: Option<Error>)
      modifies this
      ensures Answered(old(View()), ApplyRefund(old(View()), rid, now, chart), View(), error)
    {
      var saved := View();
      if rid >= |refunds| || !refunds[rid].status.RefundCompleted? {
        return None;
      }
      var refund := refunds[rid];
      if refund.session >= |sessions| || sessions[refund.session].schedule >= |schedules| {
        return Some(NotFound);
      }
      var i := sessions[refund.session].schedule;
      var schedule := schedules[i];
      if invoice.paid < refund.amount || schedule.paid < refund.amount {
        return Some(NegativePayment);
      }
      if refund.applied {
        return None;
      }
      refunds := refunds[rid := refund.(applied := true)];
      var paid := invoice.paid - refund.amount;
      var schedulePaid := schedule.paid - refund.amount;
      if !chart {
        Rollback(saved);
        return Some(ChartMissing);
      }
      schedules := schedules[i := schedule.(
        paid := schedulePaid,
        status := ScheduleStatusAfterRefund(schedule, schedulePaid))];
      invoice := invoice.(paid := paid, status := InvoiceStatusAfterRefund(invoice, paid, now));
      journal := journal
        + [Entry(RefundOf(rid), [Line(Receivable, refund.amount, 0), Line(Cash, 0, refund.amount)])];
      if refund.amount > MAX_SAFE_INTEGER {
        Rollback(saved);
        return Some(AmountTooLarge);
      }
      error := None;
    }

    // ----- credit notes --------------------------------------------------------------

    /** One turn of the loop: the guarded update of the schedule the pour has reached. */
    method CreditSchedule(i: nat, unallocated: nat, now: Time) returns (count: nat, applied: nat)
      requires i < |schedules| && unallocated > 0
      modifies this`schedules
      ensures applied == Taken(old(schedules)[i], unallocated)
      ensures count == if applied > 0 && !old(schedules)[i].Lockable(now) then 0 else 1
      ensures schedules == if count == 0 || applied == 0 then old(schedules)
                           else old(schedules)[i := Credit(old(schedules)[i], applied)]
    {
      var schedule := schedules[i];
      var outstanding := schedule.amount - schedule.paid - schedule.credited;
      if outstanding <= 0 {
        return 1, 0;
      }
      applied := if outstanding < unallocated then outstanding else unallocated;
      var settled := schedule.paid + schedule.credited + applied >= schedule.amount;
      if schedule.lock.Free? || schedule.lock.until <= now {
        schedules := schedules[i := schedule.(
          credited := schedule.credited + applied,
          status := if settled then SchedulePaid else ScheduleOpen)];
        count := 1;
      } else {
        count := 0;
      }
    }

    /** Pours `amount` down the schedules; `left` is what no schedule could take. */
    method PourCredit(amount: nat, now: Time) returns (blocked: bool, left: int)
      modifies this`schedules
      ensures blocked == Waterfall(old(schedules), amount, now).Blocked?
      ensures !blocked ==> Waterfall(old(schedules), amount, now) == Pour(schedules, left)
    {
      ghost var rows := schedules;
      ghost var done: seq<Schedule> := [];
      var unallocated: nat := amount;
      var i := 0;
      PourStart(rows, amount, now);
      while i < |schedules| && unallocated != 0
        invariant Pouring(rows, amount, now, done, unallocated, i, schedules)
      {
        var count, applied;
        count, applied, done := PourOne(i, unallocated, now, rows, amount, done);
        if count != 1 {
          return true, unallocated;
        }
        unallocated := unallocated - applied;
        i := i + 1;
      }
      PourEnd(rows, amount, now, done, unallocated, i, schedules);
      blocked, left := false, unallocated;
    }

    /** One turn of the credit loop. */
    method PourOne(i: nat, unallocated: nat, now: Time, ghost rows: seq<Schedule>, ghost amount: int, ghost done: seq<Schedule>)
      returns (count: nat, applied: nat, ghost done': seq<Schedule>)
      requires i < |rows| && unallocated > 0 && Pouring(rows, amount, now, done, unallocated, i, schedules)
      modifies this`schedules
      ensures count != 1 ==> Waterfall(rows, amount, now).Blocked?
      ensures count == 1 ==>
        applied <= unallocated && Pouring(rows, amount, now, done', unallocated - applied, i + 1, schedules)
    {
      MidwayStep(rows, amount, now, done, unallocated);
      count, applied := CreditSchedule(i, unallocated, now);
      done' := done;
      if count == 1 {
        Splice(done, rows, i, schedules[i]);
        done' := done + [schedules[i]];
      }
    }

    method IssueNote(key: Key, amount: int, reason: string, now: Time, chart: bool) returns (error: Option<Error>)
      modifies this
      ensures Answered(old(View()), IssueCreditNote(old(View()), key, amount, reason, now, chart), View(), error)
    {
      var saved := View();
      if amount < 1 {
        return Some(InvalidAmount);
      }
      var replay := FindNote(notes, key, 0);
      if replay.Some? {
        var prior := notes[replay.value];
        if prior.amount != amount || prior.reason != reason {
          return Some(KeyReused);
        }
        return None;
      }
      if invoice.status.Void? {
        return Some(NotFound);
      }
      if invoice.credited + amount > invoice.total {
        return Some(CreditExceedsTotal);
      }
      if !chart {
        return Some(ChartMissing);
      }
      var id := |notes|;
      notes := notes + [CreditNote(key, amount, reason)];
      var blocked, unallocated := PourCredit(amount, now);
      if blocked {
        Rollback(saved);
        return Some(ActiveCheckout);
      }
      if unallocated != 0 {
        Rollback(saved);
        return Some(CreditExceedsBalance);
      }
      var settled := invoice.paid + invoice.credited + amount >= invoice.total;
      invoice := invoice.(credited := invoice.credited + amount, status := if settled then Paid else PartiallyPaid);
      journal := journal + [Entry(CreditNoteOf(id), [Line(Adjustment, amount, 0), Line(Receivable, 0, amount)])];
      error := None;
    }
  }
}
