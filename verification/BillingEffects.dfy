/**
 What each billing transaction leaves behind, row by row: which rows change and to what, which
 stay, and exactly when it goes through. The sums and statuses over whole runs are elsewhere.
 */
module BillingEffects {
  import opened Basics
  import opened Results
  import opened BillingTables
  import opened BillingProtocol

  // ----- checkout lock ---------------------------------------------------------------

  /** A lock is granted exactly while nobody holds it, for two minutes, and touches that lock alone. */
  lemma LockGranted(t: Tables, i: nat, key: Key, now: Time)
    requires i < |t.schedules|
    ensures var lock := t.schedules[i].lock;
      AcquireLock(t, i, key, now).Some? <==> (lock.Held? ==> lock.until <= now)
    ensures AcquireLock(t, i, key, now).Some? ==>
      && var t' := AcquireLock(t, i, key, now).value;
      && OnlyRow(t.schedules, t'.schedules, i)
      && t'.schedules[i] == t.schedules[i].(lock := Held(key, now + 120_000))
      && t' == t.(schedules := t'.schedules)
  {
  }

  /** Only the key that holds the lock prolongs it, whoever's turn it is and however late. */
  lemma LockRetained(t: Tables, i: nat, key: Key, until: Time)
    requires i < |t.schedules|
    ensures RetainLock(t, i, key, until).Some? <==>
      exists held: Time :: t.schedules[i].lock == Held(key, held)
    ensures RetainLock(t, i, key, until).Some? ==>
      && var t' := RetainLock(t, i, key, until).value;
      && OnlyRow(t.schedules, t'.schedules, i)
      && t'.schedules[i] == t.schedules[i].(lock := Held(key, until))
      && t' == t.(schedules := t'.schedules)
  {
    var lock := t.schedules[i].lock;
    if lock.Held? && lock.key == key { assert lock == Held(key, lock.until); }
  }

  /** After a release the key holds nothing, and a lock of another key still stands. */
  lemma LockReleased(t: Tables, i: nat, key: Key)
    requires i < |t.schedules|
    ensures var t' := ReleaseLock(t, i, key);
      && OnlyRow(t.schedules, t'.schedules, i)
      && t'.schedules[i] == t.schedules[i].(lock := t'.schedules[i].lock)
      && t'.schedules[i].lock ==
           (if exists held: Time :: t.schedules[i].lock == Held(key, held) then Free else t.schedules[i].lock)
      && t' == t.(schedules := t'.schedules)
  {
    var lock := t.schedules[i].lock;
    if lock.Held? && lock.key == key { assert lock == Held(key, lock.until); }
  }

  /** Whoever is granted the lock becomes a creator with two minutes to go; nobody else does. */
  lemma AcquireStarts(sys: System, i: nat, key: Key)
    ensures var granted := AcquireLock(sys.t, i, key, sys.clock);
      Next(sys, Acquire(i, key)) == match granted
        case None => sys
        case Some(t') =>
          sys.(t := t', creators := sys.creators + [Creator(i, key, sys.clock + 120_000, Locked)])
  {
  }

  /** A pending session of the schedule whose time has not come. */
  predicate Payable(sys: System, s: nat, schedule: nat) {
    && s < |sys.t.sessions| && sys.t.sessions[s].schedule == schedule
    && sys.t.sessions[s].status == Pending && sys.clock < sys.t.sessions[s].expiresAt
  }

  /** A creator goes on exactly when no unexpired pending session is on its schedule. */
  lemma ClearedExact(sys: System, c: nat)
    requires c < |sys.creators| && sys.creators[c].phase.Priced?
    ensures var creator, sys' := sys.creators[c], Next(sys, CheckActive(c));
      && OnlyRow(sys.creators, sys'.creators, c)
      && if exists s: nat :: Payable(sys, s, creator.schedule)
         then sys'.creators[c].phase.Ended? && sys'.t == ReleaseLock(sys.t, creator.schedule, creator.key)
         else sys'.creators[c].phase == Cleared(creator.phase.amount) && sys'.t == sys.t
  {
    if s: nat :| Payable(sys, s, sys.creators[c].schedule) {
      assert sys.t.sessions[s] in sys.t.sessions;
    }
    if HasLiveSession(sys, sys.creators[c].schedule) {
      var s: nat :| s < |sys.t.sessions| && sys.t.sessions[s].schedule == sys.creators[c].schedule
        && ExpiresAfter(sys.t.sessions[s], sys.clock);
      assert Payable(sys, s, sys.creators[c].schedule);
    }
  }

  /** A creator with a pending session keeps the lock until that expires; one that lost the lock gives up. */
  lemma RetainedUntilExpiry(sys: System, c: nat, sid: nat)
    requires c < |sys.creators| && sid < |sys.t.sessions|
    requires sys.creators[c].phase in {Inserted(sid), Replayed(sid, true)}
    ensures var creator, sys' := sys.creators[c], Next(sys, Retain(c));
      && OnlyRow(sys.creators, sys'.creators, c) && sys'.creators[c].phase.Ended?
      && sys'.t == match RetainLock(sys.t, creator.schedule, creator.key, sys.t.sessions[sid].expiresAt)
           case Some(t') => t'
           case None => ReleaseLock(sys.t, creator.schedule, creator.key)
  {
  }

  /** A creator that gives up frees its lock; one that dies leaves it to run out. */
  lemma CreatorStops(sys: System, c: nat)
    requires c < |sys.creators| && !sys.creators[c].phase.Ended?
    ensures var creator, abandoned, crashed := sys.creators[c], Next(sys, Abandon(c)), Next(sys, Crash(c));
      && OnlyRow(sys.creators, abandoned.creators, c) && abandoned.creators[c].phase.Ended?
      && abandoned.t == ReleaseLock(sys.t, creator.schedule, creator.key)
      && OnlyRow(sys.creators, crashed.creators, c) && crashed.creators[c].phase.Ended? && crashed.t == sys.t
  {
  }

  /** A creator asks for the whole open balance of its schedule, and stops when there is none. */
  lemma PricedAtBalance(sys: System, c: nat)
    requires c < |sys.creators| && sys.creators[c].phase.Locked? && sys.creators[c].schedule < |sys.t.schedules|
    ensures var schedule := sys.t.schedules[sys.creators[c].schedule];
      var balance := schedule.amount - schedule.paid - schedule.credited;
      && OnlyRow(sys.creators, Next(sys, Price(c)).creators, c)
      && Next(sys, Price(c)).creators[c].phase ==
           (if !schedule.status.SchedulePaid? && 0 < balance <= 9_007_199_254_740_991 then Priced(balance) else Ended)
  {
  }

  /** The session a creator inserts is for its schedule, its price and its key, and is pending. */
  lemma InsertedAsPriced(sys: System, c: nat, expiresAt: Time)
    requires c < |sys.creators| && sys.creators[c].phase.Cleared?
    requires forall s :: 0 <= s < |sys.t.sessions| ==> sys.t.sessions[s].key != sys.creators[c].key
    ensures var creator := sys.creators[c];
      var sys' := Next(sys, Insert(c, expiresAt));
      && sys'.t.sessions == sys.t.sessions
           + [Session(creator.schedule, creator.phase.amount, creator.key, expiresAt, Pending)]
      && sys'.t == sys.t.(sessions := sys'.t.sessions)
      && OnlyRow(sys.creators, sys'.creators, c)
      && sys'.creators[c] == creator.(phase := Inserted(|sys.t.sessions|))
  {
  }

  /** A key that has a session replays the first session with that key. */
  lemma ReplayedByKey(sys: System, c: nat, expiresAt: Time, sid: nat)
    requires c < |sys.creators| && sys.creators[c].phase.Cleared?
    requires sid < |sys.t.sessions| && sys.t.sessions[sid].key == sys.creators[c].key
    requires forall s :: 0 <= s < sid ==> sys.t.sessions[s].key != sys.creators[c].key
    ensures var sys' := Next(sys, Insert(c, expiresAt));
      && sys'.t == sys.t
      && OnlyRow(sys.creators, sys'.creators, c)
      && sys'.creators[c].phase == Replayed(sid, sys.t.sessions[sid].status.Pending?)
  {
    assert SessionKeyUsed(sys.t.sessions, sys.creators[c].key) by { assert sys.t.sessions[sid] in sys.t.sessions; }
    var found := FindSession(sys.t.sessions, sys.creators[c].key, 0);
    assert found == Some(sid);
  }

  // ----- captured payments -----------------------------------------------------------

  /** A named event is processed and no other event changes. */
  ghost predicate EventProcessed(events: seq<Event>, events': seq<Event>, event: Option<nat>) {
    match event
    case None => events' == events
    case Some(e) => OnlyRow(events, events', e) && events'[e] == Event(events[e].session, Processed)
  }

  /** A journal with one new entry that moves `amount` from one account to another. */
  ghost predicate Posted(journal: seq<Entry>, journal': seq<Entry>, source: Source,
                         debit: Account, credit: Account, amount: int)
  {
    journal' == journal + [Entry(source, [Line(debit, amount, 0), Line(credit, 0, amount)])]
  }

  /** A success goes through exactly when it is a repetition, or fits its schedule and can be posted. */
  lemma CaptureGoesThrough(t: Tables, sid: nat, event: Option<nat>, chart: bool)
    requires sid < |t.sessions| && t.sessions[sid].schedule < |t.schedules|
    ensures Capture(t, sid, event, chart).Ok? <==>
      && (event.Some? ==> event.value < |t.events|)
      && ((exists a :: 0 <= a < |t.allocations| && t.allocations[a].session == sid)
          || (chart && t.sessions[sid].amount <= 9_007_199_254_740_991
              && var schedule := t.schedules[t.sessions[sid].schedule];
                 schedule.paid + schedule.credited + t.sessions[sid].amount <= schedule.amount))
  {
    if a :| 0 <= a < |t.allocations| && t.allocations[a].session == sid {
      assert t.allocations[a] in t.allocations;
    }
  }

  /** Why a first success is refused: it takes more than is owed, there is no chart to post to, or it is too large to report. */
  lemma CaptureRefused(t: Tables, sid: nat, event: Option<nat>, chart: bool)
    requires sid < |t.sessions| && t.sessions[sid].schedule < |t.schedules| && !Allocated(t.allocations, sid)
    ensures var amount, schedule := t.sessions[sid].amount, t.schedules[t.sessions[sid].schedule];
      var fits := amount <= schedule.amount - schedule.paid - schedule.credited;
      && (Capture(t, sid, event, chart) == Err(ExceedsRemaining) <==> !fits)
      && (Capture(t, sid, event, chart) == Err(ChartMissing) <==> fits && !chart)
      && (Capture(t, sid, event, chart) == Err(AmountTooLarge) <==> fits && chart && amount > 9_007_199_254_740_991)
  {
  }

  /** The first success of a session: its rows say so, its money is on its schedule, and nothing else moves. */
  lemma CaptureEffect(t: Tables, sid: nat, event: Option<nat>, chart: bool)
    requires Capture(t, sid, event, chart).Ok? && !Allocated(t.allocations, sid)
    ensures var t' := Capture(t, sid, event, chart).value;
      var session := t.sessions[sid];
      var i := session.schedule;
      && OnlyRow(t.sessions, t'.sessions, sid) && t'.sessions[sid] == session.(status := Completed)
      && OnlyRow(t.schedules, t'.schedules, i)
      && t'.schedules[i].paid == t.schedules[i].paid + session.amount
      && t'.schedules[i].credited == t.schedules[i].credited && t'.schedules[i].amount == t.schedules[i].amount
      && t'.schedules[i].lock.Free?
      && t'.invoice == t.invoice.(paid := t.invoice.paid + session.amount, status := t'.invoice.status)
      && t'.allocations == t.allocations + [Allocation(sid, i, session.amount)]
      && Posted(t.journal, t'.journal, PaymentOf(sid), Cash, Receivable, session.amount)
      && EventProcessed(t.events, t'.events, event)
      && t'.refunds == t.refunds && t'.notes == t.notes
    ensures var t' := Capture(t, sid, event, chart).value;
      var schedule := t'.schedules[t.sessions[sid].schedule];
      && (t'.invoice.status.Paid? <==> t'.invoice.paid + t'.invoice.credited >= t'.invoice.total)
      && (t'.invoice.status.PartiallyPaid? <==> !t'.invoice.status.Paid?)
      && (schedule.status.SchedulePaid? <==> schedule.paid + schedule.credited >= schedule.amount)
      && (schedule.status.ScheduleOpen? <==> !schedule.status.SchedulePaid?)
  {
  }

  /** A repeated success only finishes its event. */
  lemma CaptureReplayed(t: Tables, sid: nat, event: Option<nat>, chart: bool)
    requires Capture(t, sid, event, chart).Ok? && Allocated(t.allocations, sid)
    ensures var t' := Capture(t, sid, event, chart).value;
      EventProcessed(t.events, t'.events, event) && t' == t.(events := t'.events)
  {
  }

  /** A failure fails a pending session, frees the lock its key still holds, and moves no money. */
  lemma FailEffect(t: Tables, sid: nat, event: nat)
    requires sid < |t.sessions| && event < |t.events| && t.sessions[sid].schedule < |t.schedules|
    ensures FailSession(t, sid, event).Ok?
    ensures var t' := FailSession(t, sid, event).value;
      var i := t.sessions[sid].schedule;
      && OnlyRow(t.sessions, t'.sessions, sid)
      && t'.sessions[sid] == t.sessions[sid].(status := t'.sessions[sid].status)
      && t'.sessions[sid].status == (if t.sessions[sid].status.Pending? then Failed else t.sessions[sid].status)
      && t'.schedules == ReleaseLock(t, i, t.sessions[sid].key).schedules
      && EventProcessed(t.events, t'.events, Some(event))
      && t' == t.(sessions := t'.sessions, schedules := t'.schedules, events := t'.events)
  {
  }

  /** The sweep expires exactly the pending sessions whose time has come. */
  lemma SweepEffect(t: Tables, now: Time, s: nat)
    requires s < |t.sessions|
    ensures var t' := ExpireSessions(t, now);
      && |t'.sessions| == |t.sessions|
      && t' == t.(sessions := t'.sessions)
      && t'.sessions[s] == t.sessions[s].(status := t'.sessions[s].status)
      && (t'.sessions[s].status != t.sessions[s].status <==> t.sessions[s].status.Pending? && t.sessions[s].expiresAt <= now)
      && (t'.sessions[s].status != t.sessions[s].status ==> t'.sessions[s].status.Expired?)
  {
  }

  /** The sweep marks an invoice exactly when it is late and neither paid nor marked already. */
  lemma OverdueEffect(t: Tables, now: Time)
    ensures var t' := MarkOverdue(t, now);
      && t' == t.(invoice := t.invoice.(status := t'.invoice.status))
      && (t'.invoice.status != t.invoice.status <==>
           t.invoice.dueAt < now && t.invoice.status in {Issued, PartiallyPaid})
      && (t'.invoice.status != t.invoice.status ==> t'.invoice.status.Overdue?)
  {
  }

  /** One worker takes a new or failed event; it is processing until it is processed or failed again. */
  lemma EventClaimed(t: Tables, e: nat)
    requires e < |t.events|
    ensures ClaimEvent(t, e).Some? <==> t.events[e].status in {Received, EventFailed}
    ensures ClaimEvent(t, e).Some? ==>
      && var t' := ClaimEvent(t, e).value;
      && OnlyRow(t.events, t'.events, e)
      && t'.events[e] == Event(t.events[e].session, Processing)
      && t' == t.(events := t'.events)
      && ClaimEvent(t', e).None?
      && ClaimEvent(RejectEvent(t', e), e).Some?
  {
  }

  lemma EventRejected(t: Tables, e: nat)
    requires e < |t.events|
    ensures var t' := RejectEvent(t, e);
      && OnlyRow(t.events, t'.events, e)
      && t'.events[e] == Event(t.events[e].session, t'.events[e].status)
      && t'.events[e].status == (if t.events[e].status == Processing then EventFailed else t.events[e].status)
      && t' == t.(events := t'.events)
  {
  }

  // ----- refunds ---------------------------------------------------------------------

  /** A new request is reserved exactly when its session was captured and has the amount left unclaimed. */
  lemma ReserveEffect(t: Tables, sid: nat, key: Key, amount: int, reason: string)
    requires forall r :: 0 <= r < |t.refunds| ==> t.refunds[r].key != key
    ensures ReserveRefund(t, sid, key, amount, reason).Ok? <==>
      && amount > 0 && sid < |t.sessions| && t.sessions[sid].status.Completed?
      && Reserved(t.refunds, sid) + amount <= t.sessions[sid].amount
    ensures ReserveRefund(t, sid, key, amount, reason).Ok? ==>
      ReserveRefund(t, sid, key, amount, reason).value
      == t.(refunds := t.refunds + [Refund(sid, key, amount, reason, RefundPending, None, false)])
  {
  }

  /** Why a new request is refused: it is for nothing, for a payment that was not captured, or for more than is left of it. */
  lemma ReserveRefused(t: Tables, sid: nat, key: Key, amount: int, reason: string)
    requires forall r :: 0 <= r < |t.refunds| ==> t.refunds[r].key != key
    ensures var captured := sid < |t.sessions| && t.sessions[sid].status == Completed;
      && (ReserveRefund(t, sid, key, amount, reason) == Err(InvalidAmount) <==> amount < 1)
      && (ReserveRefund(t, sid, key, amount, reason) == Err(NotFound) <==> amount >= 1 && !captured)
      && (ReserveRefund(t, sid, key, amount, reason) == Err(RefundExceedsCapture) <==>
           amount >= 1 && captured && Reserved(t.refunds, sid) + amount > t.sessions[sid].amount)
  {
  }

  /** A key that was used answers the same request again and no other. */
  lemma ReserveReplayed(t: Tables, sid: nat, key: Key, amount: int, reason: string, r: nat)
    requires r < |t.refunds| && t.refunds[r].key == key && forall k :: 0 <= k < r ==> t.refunds[k].key != key
    requires amount > 0
    ensures ReserveRefund(t, sid, key, amount, reason) ==
      if (t.refunds[r].session, t.refunds[r].amount, t.refunds[r].reason) == (sid, amount, reason)
      then Ok(t) else Err(KeyReused)
  {
    assert FindRefund(t.refunds, key, 0) == Some(r);
  }

  /** What the provider answers: a completed refund is recorded as such, any other as pending, with its reference. */
  lemma RecordEffect(t: Tables, rid: nat, reference: string, completed: bool)
    requires rid < |t.refunds|
    ensures RecordRefund(t, rid, reference, completed).Ok?
    ensures var t' := RecordRefund(t, rid, reference, completed).value;
      && OnlyRow(t.refunds, t'.refunds, rid)
      && t'.refunds[rid] == t.refunds[rid].(reference := Some(reference), status := t'.refunds[rid].status)
      && (t'.refunds[rid].status.RefundCompleted? <==> completed)
      && (t'.refunds[rid].status.RefundPending? <==> !completed)
      && t' == t.(refunds := t'.refunds)
  {
  }

  /** A notification decides every refund but a completed one. */
  lemma ReportEffect(t: Tables, rid: nat, reference: string, completed: bool)
    requires rid < |t.refunds|
    ensures var t' := ReportRefund(t, rid, reference, completed);
      && OnlyRow(t.refunds, t'.refunds, rid)
      && (t.refunds[rid].status.RefundCompleted? ==> t'.refunds[rid] == t.refunds[rid])
      && (!t.refunds[rid].status.RefundCompleted? ==>
           && t'.refunds[rid] == t.refunds[rid].(reference := Some(reference), status := t'.refunds[rid].status)
           && (t'.refunds[rid].status.RefundCompleted? <==> completed)
           && (t'.refunds[rid].status.RefundFailed? <==> !completed))
      && t' == t.(refunds := t'.refunds)
  {
  }

  /** A reference is attached once and never replaced. */
  lemma AttachEffect(t: Tables, rid: nat, reference: string)
    requires rid < |t.refunds|
    ensures var t' := AttachReference(t, rid, reference);
      && OnlyRow(t.refunds, t'.refunds, rid)
      && t'.refunds[rid] == t.refunds[rid].(reference := t'.refunds[rid].reference)
      && t'.refunds[rid].reference
         == (if t.refunds[rid].reference == None then Some(reference) else t.refunds[rid].reference)
      && t' == t.(refunds := t'.refunds)
  {
  }

  /** A completed refund that its invoice and schedule still hold is applied exactly when it can be posted. */
  lemma SettleGoesThrough(t: Tables, rid: nat, now: Time, chart: bool)
    requires rid < |t.refunds| && t.refunds[rid].status.RefundCompleted? && !t.refunds[rid].applied
    requires t.refunds[rid].session < |t.sessions|
    requires t.sessions[t.refunds[rid].session].schedule < |t.schedules|
    ensures ApplyRefund(t, rid, now, chart).Ok? <==>
      && t.refunds[rid].amount <= t.invoice.paid
      && t.refunds[rid].amount <= t.schedules[t.sessions[t.refunds[rid].session].schedule].paid
      && chart && t.refunds[rid].amount <= 9_007_199_254_740_991
  {
  }

  /** Why it is refused: its money is no longer there, there is no chart to post to, or it is too large to report. */
  lemma SettleRefused(t: Tables, rid: nat, now: Time, chart: bool)
    requires rid < |t.refunds| && t.refunds[rid].status.RefundCompleted? && !t.refunds[rid].applied
    requires t.refunds[rid].session < |t.sessions|
    requires t.sessions[t.refunds[rid].session].schedule < |t.schedules|
    ensures var amount := t.refunds[rid].amount;
      var covered := amount <= t.invoice.paid && amount <= t.schedules[t.sessions[t.refunds[rid].session].schedule].paid;
      && (ApplyRefund(t, rid, now, chart) == Err(NegativePayment) <==> !covered)
      && (ApplyRefund(t, rid, now, chart) == Err(ChartMissing) <==> covered && !chart)
      && (ApplyRefund(t, rid, now, chart) == Err(AmountTooLarge) <==> covered && chart && amount > 9_007_199_254_740_991)
  {
  }

  /** A refund that is applied gives its amount back once; the statuses say what is left. */
  lemma SettleEffect(t: Tables, rid: nat, now: Time, chart: bool)
    requires rid < |t.refunds| && t.refunds[rid].status.RefundCompleted? && !t.refunds[rid].applied
    requires ApplyRefund(t, rid, now, chart).Ok?
    ensures var t' := ApplyRefund(t, rid, now, chart).value;
      var refund := t.refunds[rid];
      var i := t.sessions[refund.session].schedule;
      && OnlyRow(t.refunds, t'.refunds, rid) && t'.refunds[rid] == refund.(applied := true)
      && OnlyRow(t.schedules, t'.schedules, i)
      && t'.schedules[i]
         == t.schedules[i].(paid := t.schedules[i].paid - refund.amount, status := t'.schedules[i].status)
      && t'.invoice == t.invoice.(paid := t.invoice.paid - refund.amount, status := t'.invoice.status)
      && Posted(t.journal, t'.journal, RefundOf(rid), Receivable, Cash, refund.amount)
      && t' == t.(refunds := t'.refunds, schedules := t'.schedules, invoice := t'.invoice, journal := t'.journal)
    ensures var t' := ApplyRefund(t, rid, now, chart).value;
      var invoice := t'.invoice;
      && (invoice.status.Paid? <==> invoice.paid + invoice.credited >= invoice.total)
      && (!invoice.status.Paid? ==>
           && (invoice.status.PartiallyPaid? <==> invoice.paid > 0 || invoice.credited > 0)
           && (invoice.status.Overdue? <==> invoice.paid <= 0 && invoice.credited <= 0 && invoice.dueAt < now)
           && (invoice.status.Issued? <==> invoice.paid <= 0 && invoice.credited <= 0 && invoice.dueAt >= now))
    ensures var schedule := ApplyRefund(t, rid, now, chart).value.schedules[t.sessions[t.refunds[rid].session].schedule];
      && (schedule.status.SchedulePaid? <==> schedule.paid + schedule.credited >= schedule.amount)
      && (!schedule.status.SchedulePaid? ==>
           && (schedule.status.ScheduleOpen? <==> schedule.paid > 0 || schedule.credited > 0)
           && (schedule.status.Due? <==> schedule.paid <= 0 && schedule.credited <= 0))
  {
  }

  /** What is not completed, or applied already, changes nothing. */
  lemma SettleIdle(t: Tables, rid: nat, now: Time, chart: bool)
    requires rid < |t.refunds| ==> !t.refunds[rid].status.RefundCompleted? || t.refunds[rid].applied
    ensures Commit(t, ApplyRefund(t, rid, now, chart)) == t
  {
  }

  // ----- credit notes ----------------------------------------------------------------

  /** A new note is recorded with its amount on the invoice and in the journal; schedules only take credit. */
  lemma NoteEffect(t: Tables, key: Key, amount: int, reason: string, now: Time, chart: bool)
    requires forall n :: 0 <= n < |t.notes| ==> t.notes[n].key != key
    requires IssueCreditNote(t, key, amount, reason, now, chart).Ok?
    ensures var t' := IssueCreditNote(t, key, amount, reason, now, chart).value;
      && t'.notes == t.notes + [CreditNote(key, amount, reason)]
      && t'.invoice == t.invoice.(credited := t.invoice.credited + amount, status := t'.invoice.status)
      && (t'.invoice.status.Paid? <==> t'.invoice.paid + t'.invoice.credited >= t'.invoice.total)
      && (t'.invoice.status.PartiallyPaid? <==> !t'.invoice.status.Paid?)
      && Posted(t.journal, t'.journal, CreditNoteOf(|t.notes|), Adjustment, Receivable, amount)
      && t' == t.(notes := t'.notes, schedules := t'.schedules, invoice := t'.invoice, journal := t'.journal)
      && |t'.schedules| == |t.schedules|
      && forall i :: 0 <= i < |t.schedules| ==> CreditedOnly(t.schedules[i], t'.schedules[i])
  {
    WaterfallRows(t.schedules, amount, now);
  }

  /** Why a new note is refused before any schedule is looked at. */
  lemma NoteRefused(t: Tables, key: Key, amount: int, reason: string, now: Time, chart: bool)
    requires forall n :: 0 <= n < |t.notes| ==> t.notes[n].key != key
    ensures var answer := IssueCreditNote(t, key, amount, reason, now, chart);
      var open := amount >= 1 && t.invoice.status != Void;
      && (answer == Err(InvalidAmount) <==> amount < 1)
      && (answer == Err(NotFound) <==> amount >= 1 && t.invoice.status == Void)
      && (answer == Err(CreditExceedsTotal) <==> open && t.invoice.credited + amount > t.invoice.total)
      && (answer == Err(ChartMissing) <==> open && t.invoice.credited + amount <= t.invoice.total && !chart)
  {
  }

  /** A schedule that takes no credit is left alone; one that does says whether that settles it. */
  ghost predicate CreditedOnly(s: Schedule, s': Schedule) {
    && s.credited <= s'.credited
    && (s'.credited == s.credited ==> s' == s)
    && (s'.credited > s.credited ==>
         && s' == s.(credited := s'.credited, status := s'.status)
         && (s'.status.SchedulePaid? <==> s'.paid + s'.credited >= s'.amount)
         && (s'.status.ScheduleOpen? <==> !s'.status.SchedulePaid?))
  }

  lemma {:induction false} WaterfallRows(schedules: seq<Schedule>, unallocated: int, now: Time)
    requires unallocated >= 0 && Waterfall(schedules, unallocated, now).Pour?
    ensures var poured := Waterfall(schedules, unallocated, now).schedules;
      && |poured| == |schedules|
      && forall i :: 0 <= i < |schedules| ==> CreditedOnly(schedules[i], poured[i])
  {
    if |schedules| > 0 {
      WaterfallRows(schedules[1..], unallocated - Taken(schedules[0], unallocated), now);
      assert forall i :: 1 <= i < |schedules| ==> schedules[i] == schedules[1..][i - 1];
    }
  }

  /** A key that was used answers the same note again and no other. */
  lemma NoteReplayed(t: Tables, key: Key, amount: int, reason: string, now: Time, chart: bool, n: nat)
    requires n < |t.notes| && t.notes[n].key == key && forall k :: 0 <= k < n ==> t.notes[k].key != key
    requires amount > 0
    ensures IssueCreditNote(t, key, amount, reason, now, chart) ==
      if (t.notes[n].amount, t.notes[n].reason) == (amount, reason) then Ok(t) else Err(KeyReused)
  {
    assert FindNote(t.notes, key, 0) == Some(n);
  }
}
