/**
 Every interleaving of the billing service's steps over one invoice: requests that create
 checkout sessions (split where the source awaits), provider webhooks, refunds, credit notes
 and the sweeper. A `Creator` is one in-flight call of createPaymentSession.
 */
module BillingProtocol {
  import opened Results
  import opened Sums
  import opened BillingTables

  datatype Phase =
    | Locked
    | Priced(amount: int)
    | Cleared(amount: int)
    | Inserted(session: nat)
    | Replayed(session: nat, pending: bool)
    | Ended

  datatype Creator = Creator(schedule: nat, key: Key, leaseEnd: Time, phase: Phase)

  datatype System = System(t: Tables, clock: Time, creators: seq<Creator>)

  datatype Step =
    | Tick(ms: nat)
    | Acquire(schedule: nat, key: Key)
    | Price(creator: nat)
    | CheckActive(creator: nat)
    | Insert(creator: nat, expiresAt: Time)
    | Retain(creator: nat)
    | Abandon(creator: nat)
    | Crash(creator: nat)
    | UpsertEvent(session: nat)
    | Claim(event: nat)
    | Finish(event: nat)
    | Reject(event: nat)
    | Succeed(session: nat, mark: Option<nat>, chart: bool)
    | Fail(session: nat, event: nat)
    | SweepSessions
    | SweepInvoice
    | RequestRefund(session: nat, key: Key, amount: int, reason: string)
    | AnswerRefund(refund: nat, reference: string, completed: bool)
    | NotifyRefund(refund: nat, reference: string, completed: bool)
    | NameRefund(refund: nat, reference: string)
    | Settle(refund: nat, chart: bool)
    | CreditInvoice(key: Key, amount: int, reason: string, chart: bool)

  /** An answer of `Err` is a rolled-back transaction. */
  function Commit(t: Tables, answer: Answer): Tables {
    match answer
    case Ok(t') => t'
    case Err(_) => t
  }

  function Either(t: Tables, answer: Option<Tables>): Tables {
    match answer
    case Some(t') => t'
    case None => t
  }

  predicate ExpiresAfter(s: Session, now: Time) { s.status.Pending? && now < s.expiresAt }

  /** The session a payer can still complete: unexpired and PENDING. */
  predicate Live(sys: System, sid: nat) {
    sid < |sys.t.sessions| && ExpiresAfter(sys.t.sessions[sid], sys.clock)
  }

  predicate HasLiveSession(sys: System, schedule: nat) {
    exists s | s in sys.t.sessions :: s.schedule == schedule && ExpiresAfter(s, sys.clock)
  }

  predicate Active(sys: System, c: nat) {
    c < |sys.creators| && !sys.creators[c].phase.Ended?
  }

  function SetPhase(sys: System, c: nat, phase: Phase): System
    requires c < |sys.creators|
  {
    sys.(creators := sys.creators[c := sys.creators[c].(phase := phase)])
  }

  /** The `finally` block of a creator that does not keep its lock. */
  function Drop(sys: System, c: nat): System
    requires c < |sys.creators|
  {
    var creator := sys.creators[c];
    SetPhase(sys.(t := ReleaseLock(sys.t, creator.schedule, creator.key)), c, Ended)
  }

  function StepAcquire(sys: System, i: nat, key: Key): System {
    match AcquireLock(sys.t, i, key, sys.clock)
    case None => sys
    case Some(t') =>
      sys.(t := t', creators := sys.creators + [Creator(i, key, sys.clock + LEASE_MS, Locked)])
  }

  function StepPrice(sys: System, c: nat): System {
    if Active(sys, c) && sys.creators[c].phase.Locked? then
      var i := sys.creators[c].schedule;
      if i >= |sys.t.schedules| || sys.t.schedules[i].status.SchedulePaid?
         || sys.t.schedules[i].Remaining() <= 0 || sys.t.schedules[i].Remaining() > MAX_SAFE_INTEGER
      then Drop(sys, c)
      else SetPhase(sys, c, Priced(sys.t.schedules[i].Remaining()))
    else sys
  }

  function StepCheckActive(sys: System, c: nat): System {
    if Active(sys, c) && sys.creators[c].phase.Priced? then
      if HasLiveSession(sys, sys.creators[c].schedule) then Drop(sys, c)
      else SetPhase(sys, c, Cleared(sys.creators[c].phase.amount))
    else sys
  }

  function FindSession(sessions: seq<Session>, key: Key, from: nat): (found: Option<nat>)
    requires from <= |sessions|
    ensures found.Some? ==> from <= found.value < |sessions| && sessions[found.value].key == key
    ensures found.Some? ==> forall i :: from <= i < found.value ==> sessions[i].key != key
    ensures found.None? ==> forall i :: from <= i < |sessions| ==> sessions[i].key != key
    decreases |sessions| - from
  {
    if from == |sessions| then None
    else if sessions[from].key == key then Some(from)
    else FindSession(sessions, key, from + 1)
  }

  function StepInsert(sys: System, c: nat, expiresAt: Time): System {
    if Active(sys, c) && sys.creators[c].phase.Cleared? then
      var creator := sys.creators[c];
      var row := Session(creator.schedule, creator.phase.amount, creator.key, expiresAt, Pending);
      match InsertSession(sys.t, row)
      case Some(t') => SetPhase(sys.(t := t'), c, Inserted(|sys.t.sessions|))
      case None =>
        match FindSession(sys.t.sessions, creator.key, 0)
        case None => Drop(sys, c)
        case Some(sid) => SetPhase(sys, c, Replayed(sid, sys.t.sessions[sid].status.Pending?))
    else sys
  }

  function StepRetain(sys: System, c: nat): System {
    if Active(sys, c) && (sys.creators[c].phase.Inserted?
                          || (sys.creators[c].phase.Replayed? && sys.creators[c].phase.pending))
    then
      var creator := sys.creators[c];
      if creator.phase.session >= |sys.t.sessions| then Drop(sys, c)
      else
        match RetainLock(sys.t, creator.schedule, creator.key, sys.t.sessions[creator.phase.session].expiresAt)
        case None => Drop(sys, c)
        case Some(t') => SetPhase(sys.(t := t'), c, Ended)
    else sys
  }

  function Next(sys: System, step: Step): System {
    match step
    case Tick(ms) => sys.(clock := sys.clock + ms)
    case Acquire(i, key) => StepAcquire(sys, i, key)
    case Price(c) => StepPrice(sys, c)
    case CheckActive(c) => StepCheckActive(sys, c)
    case Insert(c, expiresAt) => StepInsert(sys, c, expiresAt)
    case Retain(c) => StepRetain(sys, c)
    case Abandon(c) => if Active(sys, c) then Drop(sys, c) else sys
    case Crash(c) => if Active(sys, c) then SetPhase(sys, c, Ended) else sys
    case UpsertEvent(s) => sys.(t := sys.t.(events := sys.t.events + [Event(s, Received)]))
    case Claim(e) => sys.(t := Either(sys.t, ClaimEvent(sys.t, e)))
    case Finish(e) => sys.(t := Commit(sys.t, FinishEvent(sys.t, Some(e))))
    case Reject(e) => sys.(t := RejectEvent(sys.t, e))
    case Succeed(s, mark, chart) => sys.(t := Commit(sys.t, Capture(sys.t, s, mark, chart)))
    case Fail(s, e) => sys.(t := Commit(sys.t, FailSession(sys.t, s, e)))
    case SweepSessions => sys.(t := ExpireSessions(sys.t, sys.clock))
    case SweepInvoice => sys.(t := MarkOverdue(sys.t, sys.clock))
    case RequestRefund(s, key, amount, reason) =>
      sys.(t := Commit(sys.t, ReserveRefund(sys.t, s, key, amount, reason)))
    case AnswerRefund(r, reference, completed) =>
      sys.(t := Commit(sys.t, RecordRefund(sys.t, r, reference, completed)))
    case NotifyRefund(r, reference, completed) =>
      sys.(t := ReportRefund(sys.t, r, reference, completed))
    case NameRefund(r, reference) => sys.(t := AttachReference(sys.t, r, reference))
    case Settle(r, chart) => sys.(t := Commit(sys.t, ApplyRefund(sys.t, r, sys.clock, chart)))
    case CreditInvoice(key, amount, reason, chart) =>
      sys.(t := Commit(sys.t, IssueCreditNote(sys.t, key, amount, reason, sys.clock, chart)))
  }

  function Run(sys: System, steps: seq<Step>): System
    decreases |steps|
  {
    if |steps| == 0 then sys else Run(Next(sys, steps[0]), steps[1..])
  }

  lemma {:induction false} RunConcat(sys: System, first: seq<Step>, second: seq<Step>)
    ensures Run(sys, first + second) == Run(Run(sys, first), second)
    decreases |first|
  {
    if |first| == 0 {
      assert first + second == second;
    } else {
      assert (first + second)[1..] == first[1..] + second;
      RunConcat(Next(sys, first[0]), first[1..], second);
    }
  }

  /** An invoice as it is issued: unpaid, unlocked, its schedules summing to its total. */
  ghost predicate Opened(sys: System) {
    && sys.creators == []
    && sys.t.sessions == [] && sys.t.allocations == [] && sys.t.refunds == []
    && sys.t.notes == [] && sys.t.events == [] && sys.t.journal == []
    && sys.t.invoice.paid == 0 && sys.t.invoice.credited == 0 && sys.t.invoice.status.Issued?
    && sys.t.invoice.total == SumBy(sys.t.schedules, AmountWeight())
    && forall i :: 0 <= i < |sys.t.schedules| ==>
         var s := sys.t.schedules[i];
         s.amount >= 0 && s.paid == 0 && s.credited == 0 && s.status.Due? && s.lock.Free?
  }
}
