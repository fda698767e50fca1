/**
 The rows that belong to one invoice, and what each transaction or guarded update of the
 billing service does to them. Rows are only ever appended, so a row's id is its position.
 A function here is the specification of one atomic step: it answers `Err` where the
 source throws, in which case the transaction rolls back and no row changes.
 */
module BillingTables {
  import opened Results
  import opened Sums

  type Time = int
  type Key = string

  const LEASE_MS := 120_000
  const MAX_SAFE_INTEGER := 9_007_199_254_740_991

  datatype Lock = Free | Held(key: Key, until: Time)

  datatype ScheduleStatus = Due | ScheduleOpen | SchedulePaid

  datatype Schedule = Schedule(amount: int, paid: int, credited: int, status: ScheduleStatus, lock: Lock) {
    function Remaining(): int { amount - paid - credited }

    /** The `where` guard shared by lock acquisition and credit notes. */
    predicate Lockable(now: Time) { lock.Free? || lock.until <= now }
  }

  datatype InvoiceStatus = Issued | PartiallyPaid | Paid | Overdue | Void

  datatype Invoice = Invoice(total: int, paid: int, credited: int, status: InvoiceStatus, dueAt: Time)

  datatype SessionStatus = Pending | Completed | Failed | Expired

  datatype Session = Session(schedule: nat, amount: int, key: Key, expiresAt: Time, status: SessionStatus)

  datatype Allocation = Allocation(session: nat, schedule: nat, amount: int)

  datatype RefundStatus = RefundPending | RefundCompleted | RefundFailed

  datatype Refund = Refund(session: nat, key: Key, amount: int, reason: string,
                           status: RefundStatus, reference: Option<string>, applied: bool)

  datatype CreditNote = CreditNote(key: Key, amount: int, reason: string)

  datatype EventStatus = Received | Processing | Processed | EventFailed

  datatype Event = Event(session: nat, status: EventStatus)

  datatype Account = Cash | Receivable | Adjustment

  datatype Line = Line(account: Account, debit: int, credit: int)

  datatype Source = PaymentOf(session: nat) | RefundOf(refund: nat) | CreditNoteOf(note: nat)

  datatype Entry = Entry(source: Source, lines: seq<Line>)

  datatype Tables = Tables(
    invoice: Invoice,
    schedules: seq<Schedule>,
    sessions: seq<Session>,
    allocations: seq<Allocation>,
    refunds: seq<Refund>,
    notes: seq<CreditNote>,
    events: seq<Event>,
    journal: seq<Entry>)

  datatype Error =
    | NotFound
    | InvalidAmount
    | AmountTooLarge
    | ExceedsRemaining
    | ChartMissing
    | RefundExceedsCapture
    | NegativePayment
    | KeyReused
    | CreditExceedsTotal
    | CreditExceedsBalance
    | ActiveCheckout

  type Answer = Result<Tables, Error>

  // ----- lookups ---------------------------------------------------------------------

  predicate Allocated(allocations: seq<Allocation>, session: nat) {
    exists a | a in allocations :: a.session == session
  }

  predicate SessionKeyUsed(sessions: seq<Session>, key: Key) {
    exists s | s in sessions :: s.key == key
  }

  /** The first row carrying an idempotency key, if any. */
  function FindRefund(refunds: seq<Refund>, key: Key, from: nat): (found: Option<nat>)
    requires from <= |refunds|
    ensures found.Some? ==> from <= found.value < |refunds| && refunds[found.value].key == key
    ensures found.Some? ==> forall i :: from <= i < found.value ==> refunds[i].key != key
    ensures found.None? ==> forall i :: from <= i < |refunds| ==> refunds[i].key != key
    decreases |refunds| - from
  {
    if from == |refunds| then None
    else if refunds[from].key == key then Some(from)
    else FindRefund(refunds, key, from + 1)
  }

  function FindNote(notes: seq<CreditNote>, key: Key, from: nat): (found: Option<nat>)
    requires from <= |notes|
    ensures found.Some? ==> from <= found.value < |notes| && notes[found.value].key == key
    ensures found.Some? ==> forall i :: from <= i < found.value ==> notes[i].key != key
    ensures found.None? ==> forall i :: from <= i < |notes| ==> notes[i].key != key
    decreases |notes| - from
  {
    if from == |notes| then None
    else if notes[from].key == key then Some(from)
    else FindNote(notes, key, from + 1)
  }

  /** What the refunds of a session that have not failed have already claimed of its capture. */
  function Reserved(refunds: seq<Refund>, session: nat): int {
    SumBy(refunds, ReservedWeight(session))
  }

  function ReservedWeight(session: nat): Refund -> int {
    (r: Refund) => if r.session == session && !r.status.RefundFailed? then r.amount else 0
  }

  function AmountWeight(): Schedule -> int { (s: Schedule) => s.amount }

  // ----- checkout lock ---------------------------------------------------------------

  function AcquireLock(t: Tables, i: nat, key: Key, now: Time): Option<Tables> {
    if i < |t.schedules| && t.schedules[i].Lockable(now)
    then Some(t.(schedules := t.schedules[i := t.schedules[i].(lock := Held(key, now + LEASE_MS))]))
    else None
  }

  predicate HoldsLock(t: Tables, i: nat, key: Key) {
    i < |t.schedules| && t.schedules[i].lock.Held? && t.schedules[i].lock.key == key
  }

  function RetainLock(t: Tables, i: nat, key: Key, until: Time): Option<Tables> {
    if HoldsLock(t, i, key)
    then Some(t.(schedules := t.schedules[i := t.schedules[i].(lock := Held(key, until))]))
    else None
  }

  function ReleaseLock(t: Tables, i: nat, key: Key): Tables {
    if HoldsLock(t, i, key)
    then t.(schedules := t.schedules[i := t.schedules[i].(lock := Free)])
    else t
  }

  /** Sessions are unique by idempotency key; a second insert violates the constraint. */
  function InsertSession(t: Tables, session: Session): Option<Tables> {
    if SessionKeyUsed(t.sessions, session.key) then None
    else Some(t.(sessions := t.sessions + [session]))
  }

  // ----- captured payments -----------------------------------------------------------

  /** `None` stands for an event id of the development mock, which has no event row. */
  function FinishEvent(t: Tables, event: Option<nat>): Answer {
    match event
    case None => Ok(t)
    case Some(e) =>
      if e < |t.events| then Ok(t.(events := t.events[e := t.events[e].(status := Processed)]))
      else Err(NotFound)
  }

  function PaidStatus(settled: bool): InvoiceStatus { if settled then Paid else PartiallyPaid }

  function Entries(source: Source, debit: Account, credit: Account, amount: int): Entry {
    Entry(source, [Line(debit, amount, 0), Line(credit, 0, amount)])
  }

  function Capture(t: Tables, sid: nat, event: Option<nat>, chart: bool): Answer {
    if sid >= |t.sessions| || t.sessions[sid].schedule >= |t.schedules| then Err(NotFound)
    else if Allocated(t.allocations, sid) then FinishEvent(t, event)
    else
      var session := t.sessions[sid];
      var schedule := t.schedules[session.schedule];
      if session.amount > schedule.Remaining() then Err(ExceedsRemaining)
      else if !chart then Err(ChartMissing)
      else if session.amount > MAX_SAFE_INTEGER then Err(AmountTooLarge)
      else
        var paid := t.invoice.paid + session.amount;
        FinishEvent(
          t.(allocations := t.allocations + [Allocation(sid, session.schedule, session.amount)],
          sessions := t.sessions[sid := session.(status := Completed)],
          schedules := t.schedules[session.schedule := schedule.(
            paid := schedule.paid + session.amount,
            lock := Free,
            status := if schedule.paid + schedule.credited + session.amount >= schedule.amount
              then SchedulePaid else ScheduleOpen)],
          invoice := t.invoice.(
            paid := paid,
            status := PaidStatus(paid + t.invoice.credited >= t.invoice.total)),
          journal := t.journal + [Entries(PaymentOf(sid), Cash, Receivable, session.amount)]),
          event)
  }

  /** The transaction run for a provider event that reports failure or expiry. */
  function FailSession(t: Tables, sid: nat, event: nat): Answer {
    if sid >= |t.sessions| then Err(NotFound)
    else
      var session := t.sessions[sid];
      var marked := if session.status.Pending?
        then t.(sessions := t.sessions[sid := session.(status := Failed)]) else t;
      FinishEvent(ReleaseLock(marked, session.schedule, session.key), Some(event))
  }

  function ExpireSession(s: Session, now: Time): Session {
    if s.status.Pending? && s.expiresAt <= now then s.(status := Expired) else s
  }

  function ExpireSessions(t: Tables, now: Time): Tables {
    t.(sessions := seq(|t.sessions|, i requires 0 <= i < |t.sessions| => ExpireSession(t.sessions[i], now)))
  }

  function MarkOverdue(t: Tables, now: Time): Tables {
    if (t.invoice.status.Issued? || t.invoice.status.PartiallyPaid?) && t.invoice.dueAt < now
    then t.(invoice := t.invoice.(status := Overdue)) else t
  }

  // ----- provider events -------------------------------------------------------------

  function ClaimEvent(t: Tables, e: nat): Option<Tables> {
    if e < |t.events| && (t.events[e].status.Received? || t.events[e].status.EventFailed?)
    then Some(t.(events := t.events[e := t.events[e].(status := Processing)]))
    else None
  }

  function RejectEvent(t: Tables, e: nat): Tables {
    if e < |t.events| && t.events[e].status.Processing?
    then t.(events := t.events[e := t.events[e].(status := EventFailed)])
    else t
  }

  // ----- refunds ---------------------------------------------------------------------

  predicate SameRefund(r: Refund, sid: nat, amount: int, reason: string) {
    r.session == sid && r.amount == amount && r.reason == reason
  }

  /** The serializable transaction that turns a refund request into a PENDING row. */
  function ReserveRefund(t: Tables, sid: nat, key: Key, amount: int, reason: string): Answer {
    var replay := FindRefund(t.refunds, key, 0);
    if amount < 1 then Err(InvalidAmount)
    else if replay.Some? then
      if SameRefund(t.refunds[replay.value], sid, amount, reason) then Ok(t) else Err(KeyReused)
    else if sid >= |t.sessions| || !t.sessions[sid].status.Completed? then Err(NotFound)
    else if amount + Reserved(t.refunds, sid) > t.sessions[sid].amount then Err(RefundExceedsCapture)
    else Ok(t.(refunds := t.refunds + [Refund(sid, key, amount, reason, RefundPending, None, false)]))
  }

  /** The write after the provider answered: it does not look at the stored status. */
  function RecordRefund(t: Tables, rid: nat, reference: string, completed: bool): Answer {
    if rid >= |t.refunds| then Err(NotFound)
    else Ok(t.(refunds := t.refunds[rid := t.refunds[rid].(
      reference := Some(reference),
      status := if completed then RefundCompleted else RefundPending)]))
  }

  /** A webhook reports success (`completed`) or failure; a COMPLETED row is left alone. */
  function ReportRefund(t: Tables, rid: nat, reference: string, completed: bool): Tables {
    if rid < |t.refunds| && !t.refunds[rid].status.RefundCompleted?
    then t.(refunds := t.refunds[rid := t.refunds[rid].(
      reference := Some(reference),
      status := if completed then RefundCompleted else RefundFailed)])
    else t
  }

  function AttachReference(t: Tables, rid: nat, reference: string): Tables {
    if rid < |t.refunds| && t.refunds[rid].reference.None?
    then t.(refunds := t.refunds[rid := t.refunds[rid].(reference := Some(reference))])
    else t
  }

  function InvoiceStatusAfterRefund(invoice: Invoice, paid: int, now: Time): InvoiceStatus {
    if paid + invoice.credited >= invoice.total then Paid
    else if paid > 0 || invoice.credited > 0 then PartiallyPaid
    else if invoice.dueAt < now then Overdue
    else Issued
  }

  function ScheduleStatusAfterRefund(schedule: Schedule, paid: int): ScheduleStatus {
    if paid + schedule.credited >= schedule.amount then SchedulePaid
    else if paid > 0 || schedule.credited > 0 then ScheduleOpen
    else Due
  }

  function ApplyRefund(t: Tables, rid: nat, now: Time, chart: bool): Answer {
    if rid >= |t.refunds| || !t.refunds[rid].status.RefundCompleted? then Ok(t)
    else if t.refunds[rid].session >= |t.sessions|
         || t.sessions[t.refunds[rid].session].schedule >= |t.schedules| then Err(NotFound)
    else
      var refund := t.refunds[rid];
      var i := t.sessions[refund.session].schedule;
      var schedule := t.schedules[i];
      if t.invoice.paid < refund.amount || schedule.paid < refund.amount then Err(NegativePayment)
      else if refund.applied then Ok(t)
      else if !chart then Err(ChartMissing)
      else if refund.amount > MAX_SAFE_INTEGER then Err(AmountTooLarge)
      else
        var paid := t.invoice.paid - refund.amount;
        var schedulePaid := schedule.paid - refund.amount;
        Ok(t.(refunds := t.refunds[rid := refund.(applied := true)],
           schedules := t.schedules[i := schedule.(
             paid := schedulePaid,
             status := ScheduleStatusAfterRefund(schedule, schedulePaid))],
           invoice := t.invoice.(
             paid := paid,
             status := InvoiceStatusAfterRefund(t.invoice, paid, now)),
           journal := t.journal + [Entries(RefundOf(rid), Receivable, Cash, refund.amount)]))
  }

  // ----- credit notes ----------------------------------------------------------------

  function Credit(schedule: Schedule, applied: int): Schedule {
    schedule.(
      credited := schedule.credited + applied,
      status := if schedule.paid + schedule.credited + applied >= schedule.amount
        then SchedulePaid else ScheduleOpen)
  }

  /** How much of `unallocated` a schedule takes when the waterfall reaches it. */
  function Taken(schedule: Schedule, unallocated: int): int {
    if unallocated == 0 || schedule.Remaining() <= 0 then 0
    else if schedule.Remaining() < unallocated then schedule.Remaining()
    else unallocated
  }

  datatype Pour = Pour(schedules: seq<Schedule>, left: int) | Blocked

  /** Pours a credit down the schedules in sequence; a held lock on the way blocks it. */
  function Waterfall(schedules: seq<Schedule>, unallocated: int, now: Time): Pour {
    if |schedules| == 0 then Pour([], unallocated)
    else
      var first := schedules[0];
      var taken := Taken(first, unallocated);
      if taken > 0 && !first.Lockable(now) then Blocked
      else
        var rest := Waterfall(schedules[1..], unallocated - taken, now);
        if rest.Blocked? then Blocked
        else Pour([if taken > 0 then Credit(first, taken) else first] + rest.schedules, rest.left)
  }

  predicate SameNote(n: CreditNote, amount: int, reason: string) {
    n.amount == amount && n.reason == reason
  }

  function IssueCreditNote(t: Tables, key: Key, amount: int, reason: string, now: Time, chart: bool): Answer {
    var replay := FindNote(t.notes, key, 0);
    if amount < 1 then Err(InvalidAmount)
    else if replay.Some? then
      if SameNote(t.notes[replay.value], amount, reason) then Ok(t) else Err(KeyReused)
    else if t.invoice.status.Void? then Err(NotFound)
    else if t.invoice.credited + amount > t.invoice.total then Err(CreditExceedsTotal)
    else if !chart then Err(ChartMissing)
    else
      var pour := Waterfall(t.schedules, amount, now);
      if pour.Blocked? then Err(ActiveCheckout)
      else if pour.left != 0 then Err(CreditExceedsBalance)
      else
        Ok(t.(notes := t.notes + [CreditNote(key, amount, reason)],
           schedules := pour.schedules,
           invoice := t.invoice.(
             credited := t.invoice.credited + amount,
             status := PaidStatus(t.invoice.paid + t.invoice.credited + amount >= t.invoice.total)),
           journal := t.journal + [Entries(CreditNoteOf(|t.notes|), Adjustment, Receivable, amount)]))
  }
}
