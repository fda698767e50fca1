/**
 Runs of the billing service that break a property once one of its assumptions is dropped.
 Each starts from a freshly issued invoice with one schedule of 100.
 */
module BillingCounterexamples {
  import opened Results
  import opened Sums
  import opened BillingTables
  import opened BillingProtocol
  import Lease = BillingLease
  import Once = BillingOnce
  import Refunds = BillingRefunds

  const HALF_HOUR := 1_800_000

  function Issue(): System {
    System(
      Tables(Invoice(100, 0, 0, Issued, 0), [Schedule(100, 0, 0, Due, Free)], [], [], [], [], [], []),
      0, [])
  }

  lemma IssueOpened()
    ensures Opened(Issue())
  {
    var rows := Issue().t.schedules;
    SumByAppend([], rows[0], AmountWeight());
    assert [] + [rows[0]] == rows;
  }

  lemma Run1(s: System, a: Step)
    ensures Run(s, [a]) == Next(s, a)
  {
    assert Run(Next(s, a), [a][1..]) == Next(s, a);
  }

  lemma Run2(s: System, a: Step, b: Step)
    ensures Run(s, [a, b]) == Next(Next(s, a), b)
  {
    assert [a, b][1..] == [b];
    Run1(Next(s, a), b);
  }

  lemma Run4(s: System, a: Step, b: Step, c: Step, d: Step)
    ensures Run(s, [a, b, c, d]) == Next(Next(Next(Next(s, a), b), c), d)
  {
    assert [a, b, c, d][1..] == [b, c, d];
    assert [b, c, d][1..] == [c, d];
    Run2(Next(Next(s, a), b), c, d);
  }

  // ----- a session is inserted -------------------------------------------------------

  function Inserting(): seq<Step> { [Acquire(0, "checkout"), Price(0), CheckActive(0), Insert(0, HALF_HOUR)] }

  function InsertedState(): System {
    Issue().(
      t := Issue().t.(
        schedules := [Schedule(100, 0, 0, Due, Held("checkout", LEASE_MS))],
        sessions := [Session(0, 100, "checkout", HALF_HOUR, Pending)]),
      creators := [Creator(0, "checkout", LEASE_MS, Inserted(0))])
  }

  lemma InsertingRun()
    ensures Run(Issue(), Inserting()) == InsertedState()
  {
    var s0 := Issue();
    var s1 := Next(s0, Acquire(0, "checkout"));
    assert s1.creators == [Creator(0, "checkout", LEASE_MS, Locked)];
    var s2 := Next(s1, Price(0));
    assert s2.creators == [Creator(0, "checkout", LEASE_MS, Priced(100))];
    var s3 := Next(s2, CheckActive(0));
    assert s3.creators == [Creator(0, "checkout", LEASE_MS, Cleared(100))];
    assert Next(s3, Insert(0, HALF_HOUR)) == InsertedState();
    Run4(s0, Acquire(0, "checkout"), Price(0), CheckActive(0), Insert(0, HALF_HOUR));
  }

  // ----- without the retain ----------------------------------------------------------

  /** The creator dies before it retains the lock, and a credit note arrives after the lease. */
  function LostRetain(): seq<Step> { [Crash(0), Tick(LEASE_MS), CreditInvoice("credit", 40, "late", true), Tick(0)] }

  function CreditedState(key: Key, amount: int, reason: string): System {
    System(
      InsertedState().t.(
        invoice := Invoice(100, 0, amount, PartiallyPaid, 0),
        schedules := [Schedule(100, 0, amount, ScheduleOpen, Held("checkout", LEASE_MS))],
        notes := [CreditNote(key, amount, reason)],
        journal := [Entries(CreditNoteOf(0), Adjustment, Receivable, amount)]),
      LEASE_MS, [Creator(0, "checkout", LEASE_MS, Ended)])
  }

  lemma PoursOnOne(schedule: Schedule, amount: int, now: Time)
    requires schedule.Lockable(now) && 0 < amount <= schedule.Remaining()
    ensures Waterfall([schedule], amount, now) == Pour([Credit(schedule, amount)], 0)
  {
    assert Waterfall([schedule][1..], 0, now) == Pour([], 0);
  }

  lemma NoteOnOne(t: Tables, schedule: Schedule, key: Key, amount: int, reason: string, now: Time)
    requires t.schedules == [schedule] && schedule.Lockable(now) && 0 < amount <= schedule.Remaining()
    requires t.notes == [] && !t.invoice.status.Void? && t.invoice.credited + amount <= t.invoice.total
    ensures IssueCreditNote(t, key, amount, reason, now, true) == Ok(
      t.(notes := [CreditNote(key, amount, reason)],
         schedules := [Credit(schedule, amount)],
         invoice := t.invoice.(
           credited := t.invoice.credited + amount,
           status := PaidStatus(t.invoice.paid + t.invoice.credited + amount >= t.invoice.total)),
         journal := t.journal + [Entries(CreditNoteOf(0), Adjustment, Receivable, amount)]))
  {
    PoursOnOne(schedule, amount, now);
    assert FindNote(t.notes, key, 0) == None;
    assert t.notes + [CreditNote(key, amount, reason)] == [CreditNote(key, amount, reason)];
  }

  lemma CreditOnOne(sys: System, schedule: Schedule, key: Key, amount: int, reason: string)
    requires sys.t.schedules == [schedule] && schedule.Lockable(sys.clock) && 0 < amount <= schedule.Remaining()
    requires sys.t.notes == [] && !sys.t.invoice.status.Void? && sys.t.invoice.credited + amount <= sys.t.invoice.total
    ensures Next(sys, CreditInvoice(key, amount, reason, true)) == sys.(t := sys.t.(
      notes := [CreditNote(key, amount, reason)],
      schedules := [Credit(schedule, amount)],
      invoice := sys.t.invoice.(
        credited := sys.t.invoice.credited + amount,
        status := PaidStatus(sys.t.invoice.paid + sys.t.invoice.credited + amount >= sys.t.invoice.total)),
      journal := sys.t.journal + [Entries(CreditNoteOf(0), Adjustment, Receivable, amount)]))
  {
    NoteOnOne(sys.t, schedule, key, amount, reason, sys.clock);
  }

  function CrashedState(): System {
    InsertedState().(clock := LEASE_MS, creators := [Creator(0, "checkout", LEASE_MS, Ended)])
  }

  lemma CreditAfterCrash(key: Key, amount: int, reason: string)
    requires 0 < amount < 100
    ensures Next(CrashedState(), CreditInvoice(key, amount, reason, true)) == CreditedState(key, amount, reason)
  {
    var t := CrashedState().t;
    CreditOnOne(CrashedState(), t.schedules[0], key, amount, reason);
    assert t.journal + [Entries(CreditNoteOf(0), Adjustment, Receivable, amount)]
        == [Entries(CreditNoteOf(0), Adjustment, Receivable, amount)];
  }

  /** The payment the customer then makes, well within the session's life, is refused. */
  lemma LostRetainBreaksCapture()
    ensures Opened(Issue())
    ensures var sys := Run(Issue(), Inserting() + LostRetain());
      Live(sys, 0) && Capture(sys.t, 0, None, true) == Err(ExceedsRemaining)
  {
    IssueOpened();
    InsertingRun();
    var crashed := InsertedState().(creators := [Creator(0, "checkout", LEASE_MS, Ended)]);
    assert Next(InsertedState(), Crash(0)) == crashed;
    assert Next(crashed, Tick(LEASE_MS)) == crashed.(clock := LEASE_MS);
    assert crashed.(clock := LEASE_MS) == CrashedState();
    CreditAfterCrash("credit", 40, "late");
    assert Next(CreditedState("credit", 40, "late"), Tick(0)) == CreditedState("credit", 40, "late");
    Run4(InsertedState(), Crash(0), Tick(LEASE_MS), CreditInvoice("credit", 40, "late", true), Tick(0));
    RunConcat(Issue(), Inserting(), LostRetain());
  }

  // ----- a creator that outlives its lease -------------------------------------------

  /** One creator is cleared to insert and sleeps past its lease; a second one takes the lock meanwhile. */
  function Sleeping(): seq<Step> { [Acquire(0, "first"), Price(0), CheckActive(0), Tick(LEASE_MS)] }

  function Overtaking(): seq<Step> { [Acquire(0, "second"), Price(1), CheckActive(1), Insert(1, HALF_HOUR)] }

  function SleeperState(phase: Phase, clock: Time): System {
    System(
      Issue().t.(schedules := [Schedule(100, 0, 0, Due, Held("first", LEASE_MS))]),
      clock, [Creator(0, "first", LEASE_MS, phase)])
  }

  function OvertakerState(phase: Phase, sessions: seq<Session>): System {
    System(
      Issue().t.(schedules := [Schedule(100, 0, 0, Due, Held("second", 2 * LEASE_MS))], sessions := sessions),
      LEASE_MS, [Creator(0, "first", LEASE_MS, Cleared(100)), Creator(0, "second", 2 * LEASE_MS, phase)])
  }

  lemma SleepingRun()
    ensures Run(Issue(), Sleeping()) == SleeperState(Cleared(100), LEASE_MS)
  {
    assert Next(Issue(), Acquire(0, "first")) == SleeperState(Locked, 0);
    assert Next(SleeperState(Locked, 0), Price(0)) == SleeperState(Priced(100), 0);
    assert Next(SleeperState(Priced(100), 0), CheckActive(0)) == SleeperState(Cleared(100), 0);
    Run4(Issue(), Acquire(0, "first"), Price(0), CheckActive(0), Tick(LEASE_MS));
  }

  const SECOND_ROW := Session(0, 100, "second", HALF_HOUR, Pending)
  const FIRST_ROW := Session(0, 100, "first", HALF_HOUR, Pending)

  lemma OvertakingRun()
    ensures Run(SleeperState(Cleared(100), LEASE_MS), Overtaking()) == OvertakerState(Inserted(0), [SECOND_ROW])
  {
    assert Next(SleeperState(Cleared(100), LEASE_MS), Acquire(0, "second")) == OvertakerState(Locked, []);
    assert Next(OvertakerState(Locked, []), Price(1)) == OvertakerState(Priced(100), []);
    assert Next(OvertakerState(Priced(100), []), CheckActive(1)) == OvertakerState(Cleared(100), []);
    assert Next(OvertakerState(Cleared(100), []), Insert(1, HALF_HOUR)) == OvertakerState(Inserted(0), [SECOND_ROW]);
    Run4(SleeperState(Cleared(100), LEASE_MS), Acquire(0, "second"), Price(1), CheckActive(1), Insert(1, HALF_HOUR));
  }

  lemma SleeperInserts()
    ensures Next(OvertakerState(Inserted(0), [SECOND_ROW]), Insert(0, HALF_HOUR)).t.sessions == [SECOND_ROW, FIRST_ROW]
    ensures Next(OvertakerState(Inserted(0), [SECOND_ROW]), Insert(0, HALF_HOUR)).clock == LEASE_MS
  {
    assert !SessionKeyUsed([SECOND_ROW], "first");
    assert [SECOND_ROW] + [FIRST_ROW] == [SECOND_ROW, FIRST_ROW];
  }

  /** When it wakes up it inserts its session beside the other: the buyer can pay 100 twice. */
  lemma OutlivedLeaseInsertsTwice()
    ensures Opened(Issue())
    ensures var sys := Run(Issue(), Sleeping() + Overtaking() + [Insert(0, HALF_HOUR)]);
      && Live(sys, 0) && Live(sys, 1) && sys.t.sessions == [SECOND_ROW, FIRST_ROW]
      && SECOND_ROW.schedule == FIRST_ROW.schedule
  {
    IssueOpened();
    SleepingRun();
    OvertakingRun();
    SleeperInserts();
    RunConcat(Issue(), Sleeping(), Overtaking());
    RunConcat(Issue(), Sleeping() + Overtaking(), [Insert(0, HALF_HOUR)]);
    Run1(OvertakerState(Inserted(0), [SECOND_ROW]), Insert(0, HALF_HOUR));
  }

  // ----- success reported for an expired session -------------------------------------

  /** The first session expires, a second one is created, and the first is then reported paid. */
  function SecondSession(): seq<Step> {
    [Retain(0), Tick(HALF_HOUR), Acquire(0, "again"), Price(1)]
  }

  function LateSuccess(): seq<Step> {
    [CheckActive(1), Insert(1, 2 * HALF_HOUR), Retain(1), Succeed(0, None, true)]
  }

  function RetainedState(): System {
    InsertedState().(
      t := InsertedState().t.(schedules := [Schedule(100, 0, 0, Due, Held("checkout", HALF_HOUR))]),
      creators := [Creator(0, "checkout", LEASE_MS, Ended)])
  }

  lemma RetainStep()
    ensures Next(InsertedState(), Retain(0)) == RetainedState()
  {
  }

  function AgainState(phase: Phase): System {
    System(
      RetainedState().t.(schedules := [Schedule(100, 0, 0, Due, Held("again", HALF_HOUR + LEASE_MS))]),
      HALF_HOUR,
      [Creator(0, "checkout", LEASE_MS, Ended), Creator(0, "again", HALF_HOUR + LEASE_MS, phase)])
  }

  lemma AgainSteps()
    ensures Next(RetainedState().(clock := HALF_HOUR), Acquire(0, "again")) == AgainState(Locked)
    ensures Next(AgainState(Locked), Price(1)) == AgainState(Priced(100))
    ensures Next(AgainState(Priced(100)), CheckActive(1)) == AgainState(Cleared(100))
  {
    var sys := AgainState(Priced(100));
    assert !HasLiveSession(sys, 0);
  }

  function TwoSessions(): seq<Session> {
    [Session(0, 100, "checkout", HALF_HOUR, Pending), Session(0, 100, "again", 2 * HALF_HOUR, Pending)]
  }

  function TwoState(until: Time, phase: Phase): System {
    var base := AgainState(phase);
    base.(t := base.t.(
            schedules := [Schedule(100, 0, 0, Due, Held("again", until))],
            sessions := TwoSessions()))
  }

  lemma TwoSteps()
    ensures Next(AgainState(Cleared(100)), Insert(1, 2 * HALF_HOUR)) == TwoState(HALF_HOUR + LEASE_MS, Inserted(1))
    ensures Next(TwoState(HALF_HOUR + LEASE_MS, Inserted(1)), Retain(1)) == TwoState(2 * HALF_HOUR, Ended)
  {
    assert !SessionKeyUsed(RetainedState().t.sessions, "again");
    assert RetainedState().t.sessions + [TwoSessions()[1]] == TwoSessions();
  }

  lemma LateCapture(sys: System)
    requires sys == Next(TwoState(2 * HALF_HOUR, Ended), Succeed(0, None, true))
    ensures Live(sys, 1) && Capture(sys.t, 1, None, true) == Err(ExceedsRemaining)
  {
    var t := TwoState(2 * HALF_HOUR, Ended).t;
    assert Capture(t, 0, None, true).Ok?;
    assert sys.t.schedules[0].paid == 100;
    assert sys.t.allocations == [Allocation(0, 0, 100)];
  }

  lemma LateSuccessBreaksCapture()
    ensures Opened(Issue())
    ensures var sys := Run(Issue(), Inserting() + SecondSession() + LateSuccess());
      Live(sys, 1) && Capture(sys.t, 1, None, true) == Err(ExceedsRemaining)
  {
    IssueOpened();
    InsertingRun();
    RetainStep();
    assert Next(RetainedState(), Tick(HALF_HOUR)) == RetainedState().(clock := HALF_HOUR);
    AgainSteps();
    TwoSteps();
    Run4(InsertedState(), Retain(0), Tick(HALF_HOUR), Acquire(0, "again"), Price(1));
    Run4(AgainState(Priced(100)), CheckActive(1), Insert(1, 2 * HALF_HOUR), Retain(1), Succeed(0, None, true));
    RunConcat(Issue(), Inserting(), SecondSession());
    RunConcat(Issue(), Inserting() + SecondSession(), LateSuccess());
    LateCapture(Next(TwoState(2 * HALF_HOUR, Ended), Succeed(0, None, true)));
  }

  // ----- refunds ---------------------------------------------------------------------

  function Paying(): seq<Step> { [Retain(0), Succeed(0, None, true)] }

  function PaidState(): System {
    InsertedState().(
      t := InsertedState().t.(
        invoice := Invoice(100, 100, 0, Paid, 0),
        schedules := [Schedule(100, 100, 0, SchedulePaid, Free)],
        sessions := [Session(0, 100, "checkout", HALF_HOUR, Completed)],
        allocations := [Allocation(0, 0, 100)],
        journal := [Entries(PaymentOf(0), Cash, Receivable, 100)]),
      creators := [Creator(0, "checkout", LEASE_MS, Ended)])
  }

  lemma PaidStep()
    ensures Next(RetainedState(), Succeed(0, None, true)) == PaidState()
  {
    var t := RetainedState().t;
    var t' := Capture(t, 0, None, true).value;
    assert t'.schedules == PaidState().t.schedules;
    assert t'.sessions == PaidState().t.sessions;
    assert t'.allocations == PaidState().t.allocations;
    assert t'.journal == PaidState().t.journal;
    assert t'.invoice == PaidState().t.invoice;
  }

  lemma PayingRun()
    ensures Run(Issue(), Inserting() + Paying()) == PaidState()
  {
    InsertingRun();
    RetainStep();
    PaidStep();
    Run2(InsertedState(), Retain(0), Succeed(0, None, true));
    RunConcat(Issue(), Inserting(), Paying());
  }

  function WithRefunds(refunds: seq<Refund>): System {
    PaidState().(t := PaidState().t.(refunds := refunds))
  }

  function FullRefund(): seq<Step> {
    [RequestRefund(0, "refund", 100, "returned"), AnswerRefund(0, "re_1", true), Settle(0, true), Tick(0)]
  }

  function RefundedInFull(): System {
    WithRefunds([Refund(0, "refund", 100, "returned", RefundCompleted, Some("re_1"), true)]).(
      t := WithRefunds([Refund(0, "refund", 100, "returned", RefundCompleted, Some("re_1"), true)]).t.(
        invoice := Invoice(100, 0, 0, Issued, 0),
        schedules := [Schedule(100, 0, 0, Due, Free)],
        journal := PaidState().t.journal + [Entries(RefundOf(0), Receivable, Cash, 100)]))
  }

  lemma FullRefundRequest()
    ensures Next(PaidState(), RequestRefund(0, "refund", 100, "returned"))
         == WithRefunds([Refund(0, "refund", 100, "returned", RefundPending, None, false)])
  {
    assert WithRefunds([]) == PaidState();
    assert [] + [Refund(0, "refund", 100, "returned", RefundPending, None, false)]
        == [Refund(0, "refund", 100, "returned", RefundPending, None, false)];
    assert Reserved([], 0) == 0;
  }

  lemma FullRefundAnswer()
    ensures Next(WithRefunds([Refund(0, "refund", 100, "returned", RefundPending, None, false)]), AnswerRefund(0, "re_1", true))
         == WithRefunds([Refund(0, "refund", 100, "returned", RefundCompleted, Some("re_1"), false)])
  {
  }

  lemma FullRefundSettles()
    ensures Next(WithRefunds([Refund(0, "refund", 100, "returned", RefundCompleted, Some("re_1"), false)]), Settle(0, true))
         == RefundedInFull()
  {
  }

  lemma FullRefundRun()
    ensures Run(PaidState(), FullRefund()) == RefundedInFull()
  {
    FullRefundRequest();
    FullRefundAnswer();
    FullRefundSettles();
    assert Next(RefundedInFull(), Tick(0)) == RefundedInFull();
    Run4(PaidState(), RequestRefund(0, "refund", 100, "returned"), AnswerRefund(0, "re_1", true), Settle(0, true), Tick(0));
  }

  /** A second notification of a full refund that was already applied is refused, not ignored. */
  lemma DuplicateRefundIsRefused()
    ensures Opened(Issue()) && Run(Issue(), Inserting() + Paying()) == PaidState()
    ensures var sys := Run(PaidState(), FullRefund());
      Once.IsApplied(sys.t, 0) && ApplyRefund(sys.t, 0, sys.clock, true) == Err(NegativePayment)
  {
    IssueOpened();
    PayingRun();
    FullRefundRun();
  }

  // ----- an applied refund that is reported pending, then failed ---------------------

  /**
   A second call under the key, in flight all along, writes the provider's earlier answer over the
   COMPLETED row; the failure reported next then frees the reservation of money that is gone.
   */
  function Undoing(): seq<Step> {
    [AnswerRefund(0, "re_1", false), NotifyRefund(0, "re_1", false),
     RequestRefund(0, "again", 100, "returned"), AnswerRefund(1, "re_2", true)]
  }

  function Undone(status: RefundStatus, others: seq<Refund>): System {
    RefundedInFull().(
      t := RefundedInFull().t.(refunds := [Refund(0, "refund", 100, "returned", status, Some("re_1"), true)] + others))
  }

  function Again(status: RefundStatus, reference: Option<string>): Refund {
    Refund(0, "again", 100, "returned", status, reference, false)
  }

  lemma UndoingWords()
    ensures Next(RefundedInFull(), Undoing()[0]) == Undone(RefundPending, [])
    ensures Next(Undone(RefundPending, []), Undoing()[1]) == Undone(RefundFailed, [])
  {
  }

  lemma UndoingRequest()
    ensures Next(Undone(RefundFailed, []), Undoing()[2]) == Undone(RefundFailed, [Again(RefundPending, None)])
  {
    var rows := Undone(RefundFailed, []).t.refunds;
    SumByZero(rows, ReservedWeight(0));
    assert FindRefund(rows, "again", 1) == None;
    assert FindRefund(rows, "again", 0) == None;
    assert rows + [Again(RefundPending, None)] == Undone(RefundFailed, [Again(RefundPending, None)]).t.refunds;
  }

  lemma UndoingAnswer()
    ensures Next(Undone(RefundFailed, [Again(RefundPending, None)]), Undoing()[3])
         == Undone(RefundFailed, [Again(RefundCompleted, Some("re_2"))])
  {
  }

  lemma UndoingRun()
    ensures Run(RefundedInFull(), Undoing()) == Undone(RefundFailed, [Again(RefundCompleted, Some("re_2"))])
    ensures Refunds.UnrevivedRun(RefundedInFull(), Undoing())
  {
    UndoingWords();
    UndoingRequest();
    UndoingAnswer();
    Run4(RefundedInFull(), Undoing()[0], Undoing()[1], Undoing()[2], Undoing()[3]);
    var s1, s2, s3 := Undone(RefundPending, []), Undone(RefundFailed, []), Undone(RefundFailed, [Again(RefundPending, None)]);
    assert Undoing()[1..][1..][1..][1..] == [];
    assert Refunds.UnrevivedRun(s3, Undoing()[1..][1..][1..]);
    assert Refunds.UnrevivedRun(s2, Undoing()[1..][1..]);
    assert Refunds.UnrevivedRun(s1, Undoing()[1..]);
  }

  lemma UndoneGuard()
    ensures var sys := Undone(RefundFailed, [Again(RefundCompleted, Some("re_2"))]);
      !Once.IsApplied(sys.t, 1) && ApplyRefund(sys.t, 1, sys.clock, true) == Err(NegativePayment)
  {
  }

  /** No refund is revived on the way, and still a second refund of the capture is accepted and cannot be applied. */
  lemma UndoneRefundOverdraws()
    ensures Opened(Issue()) && Run(Issue(), Inserting() + Paying()) == PaidState()
    ensures Run(PaidState(), FullRefund()) == RefundedInFull()
    ensures Refunds.UnrevivedRun(RefundedInFull(), Undoing())
    ensures var sys := Run(RefundedInFull(), Undoing());
      !Once.IsApplied(sys.t, 1) && ApplyRefund(sys.t, 1, sys.clock, true) == Err(NegativePayment)
  {
    IssueOpened();
    PayingRun();
    FullRefundRun();
    UndoingRun();
    UndoneGuard();
  }

  // ----- a failed refund that is reported as succeeded -------------------------------

  function Revival(): seq<Step> {
    [RequestRefund(0, "first", 80, "returned"), NotifyRefund(0, "re_1", false),
     RequestRefund(0, "second", 80, "returned"), AnswerRefund(1, "re_2", true)]
  }

  function Overdraft(): seq<Step> { [Settle(1, true), NotifyRefund(0, "re_1", true)] }

  function First(status: RefundStatus, reference: Option<string>): Refund {
    Refund(0, "first", 80, "returned", status, reference, false)
  }

  function Second(status: RefundStatus, reference: Option<string>, applied: bool): Refund {
    Refund(0, "second", 80, "returned", status, reference, applied)
  }

  lemma RevivalSteps()
    ensures Next(PaidState(), Revival()[0]) == WithRefunds([First(RefundPending, None)])
    ensures Next(WithRefunds([First(RefundPending, None)]), Revival()[1])
         == WithRefunds([First(RefundFailed, Some("re_1"))])
  {
    assert WithRefunds([]) == PaidState();
    assert [] + [First(RefundPending, None)] == [First(RefundPending, None)];
    assert Reserved([], 0) == 0;
  }

  lemma RevivalSteps2()
    ensures Next(WithRefunds([First(RefundFailed, Some("re_1"))]), Revival()[2])
         == WithRefunds([First(RefundFailed, Some("re_1")), Second(RefundPending, None, false)])
    ensures Next(WithRefunds([First(RefundFailed, Some("re_1")), Second(RefundPending, None, false)]), Revival()[3])
         == WithRefunds([First(RefundFailed, Some("re_1")), Second(RefundCompleted, Some("re_2"), false)])
  {
    var rows := [First(RefundFailed, Some("re_1"))];
    SumByZero(rows, ReservedWeight(0));
    assert FindRefund(rows, "second", 1) == None;
    assert FindRefund(rows, "second", 0) == None;
    assert rows + [Second(RefundPending, None, false)]
        == [First(RefundFailed, Some("re_1")), Second(RefundPending, None, false)];
  }

  function Overdrawn(first: Refund): System {
    WithRefunds([first, Second(RefundCompleted, Some("re_2"), true)]).(
      t := WithRefunds([first, Second(RefundCompleted, Some("re_2"), true)]).t.(
        invoice := Invoice(100, 20, 0, PartiallyPaid, 0),
        schedules := [Schedule(100, 20, 0, ScheduleOpen, Free)],
        journal := PaidState().t.journal + [Entries(RefundOf(1), Receivable, Cash, 80)]))
  }

  lemma OverdraftSteps()
    ensures Next(WithRefunds([First(RefundFailed, Some("re_1")), Second(RefundCompleted, Some("re_2"), false)]), Settle(1, true))
         == Overdrawn(First(RefundFailed, Some("re_1")))
    ensures Next(Overdrawn(First(RefundFailed, Some("re_1"))), NotifyRefund(0, "re_1", true))
         == Overdrawn(First(RefundCompleted, Some("re_1")))
  {
  }

  lemma BothReserved(rows: seq<Refund>)
    requires |rows| == 2 && rows[0].session == rows[1].session == 0
    requires !rows[0].status.RefundFailed? && !rows[1].status.RefundFailed?
    ensures Reserved(rows, 0) == rows[0].amount + rows[1].amount
  {
    assert rows == ([] + [rows[0]]) + [rows[1]];
    SumByAppend([], rows[0], ReservedWeight(0));
    SumByAppend([] + [rows[0]], rows[1], ReservedWeight(0));
  }

  /** A FAILED refund later reported as succeeded: the guard fires for money not yet returned. */
  lemma RevivalOverdraws()
    ensures Opened(Issue()) && Run(Issue(), Inserting() + Paying()) == PaidState()
    ensures var sys := Run(PaidState(), Revival() + Overdraft());
      && !Once.IsApplied(sys.t, 0) && Reserved(sys.t.refunds, 0) == 160
      && ApplyRefund(sys.t, 0, sys.clock, true) == Err(NegativePayment)
  {
    IssueOpened();
    PayingRun();
    RevivalSteps();
    RevivalSteps2();
    OverdraftSteps();
    Run4(PaidState(), Revival()[0], Revival()[1], Revival()[2], Revival()[3]);
    var mid := Run(PaidState(), Revival());
    Run2(mid, Settle(1, true), NotifyRefund(0, "re_1", true));
    RunConcat(PaidState(), Revival(), Overdraft());
    BothReserved(Overdrawn(First(RefundCompleted, Some("re_1"))).t.refunds);
  }
}
