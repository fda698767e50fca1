/**
 The general ledger refines the subledger: over every run, the invoice's totals are the sums
 of its schedules, each schedule stays within its amount, every journal entry balances, and
 the net postings of the three accounts are exactly what was paid and credited.
 */
module BillingLedger {
  import opened Results
  import opened Sums
  import opened BillingTables
  import opened BillingProtocol
  import Lease = BillingLease

  function PaidWeight(): Schedule -> int { (s: Schedule) => s.paid }

  function CreditedWeight(): Schedule -> int { (s: Schedule) => s.credited }

  function DebitWeight(): Line -> int { (l: Line) => l.debit }

  function CreditWeight(): Line -> int { (l: Line) => l.credit }

  function LineNet(account: Account): Line -> int {
    (l: Line) => if l.account == account then l.debit - l.credit else 0
  }

  function EntryNet(account: Account): Entry -> int {
    (e: Entry) => SumBy(e.lines, LineNet(account))
  }

  /** Debits minus credits posted to an account. */
  function Net(journal: seq<Entry>, account: Account): int { SumBy(journal, EntryNet(account)) }

  predicate Balanced(e: Entry) { SumBy(e.lines, DebitWeight()) == SumBy(e.lines, CreditWeight()) }

  ghost predicate Totals(t: Tables) {
    && t.invoice.total == SumBy(t.schedules, AmountWeight())
    && t.invoice.paid == SumBy(t.schedules, PaidWeight())
    && t.invoice.credited == SumBy(t.schedules, CreditedWeight())
  }

  predicate Within(s: Schedule) {
    0 <= s.paid && 0 <= s.credited && s.paid + s.credited <= s.amount
  }

  ghost predicate Bounded(t: Tables) {
    forall i :: 0 <= i < |t.schedules| ==> Within(t.schedules[i])
  }

  ghost predicate Books(t: Tables) {
    && (forall e :: 0 <= e < |t.journal| ==> Balanced(t.journal[e]))
    && Net(t.journal, Cash) == t.invoice.paid
    && Net(t.journal, Receivable) == -(t.invoice.paid + t.invoice.credited)
    && Net(t.journal, Adjustment) == t.invoice.credited
  }

  /** Amounts that later become postings are positive. */
  ghost predicate Positive(sys: System) {
    && (forall s :: 0 <= s < |sys.t.sessions| ==> sys.t.sessions[s].amount > 0)
    && (forall r :: 0 <= r < |sys.t.refunds| ==> sys.t.refunds[r].amount > 0)
    && (forall c :: 0 <= c < |sys.creators| && (sys.creators[c].phase.Priced? || sys.creators[c].phase.Cleared?)
          ==> sys.creators[c].phase.amount > 0)
  }

  ghost predicate LedgerInv(sys: System) {
    Totals(sys.t) && Bounded(sys.t) && Books(sys.t) && Positive(sys)
  }

  // ----- posting ---------------------------------------------------------------------

  lemma TwoLines(source: Source, debit: Account, credit: Account, amount: int, account: Account)
    ensures var e := Entries(source, debit, credit, amount);
      && Balanced(e)
      && EntryNet(account)(e) == (if account == debit then amount else 0) - (if account == credit then amount else 0)
  {
    var e := Entries(source, debit, credit, amount);
    var head := [e.lines[0]];
    assert e.lines == head + [e.lines[1]];
    assert head == [] + head;
    SumByAppend(head, e.lines[1], DebitWeight());
    SumByAppend(head, e.lines[1], CreditWeight());
    SumByAppend(head, e.lines[1], LineNet(account));
    SumByAppend([], e.lines[0], DebitWeight());
    SumByAppend([], e.lines[0], CreditWeight());
    SumByAppend([], e.lines[0], LineNet(account));
  }

  lemma PostNet(journal: seq<Entry>, source: Source, debit: Account, credit: Account, amount: int, account: Account)
    ensures Net(journal + [Entries(source, debit, credit, amount)], account)
         == Net(journal, account) + (if account == debit then amount else 0) - (if account == credit then amount else 0)
  {
    TwoLines(source, debit, credit, amount, account);
    SumByAppend(journal, Entries(source, debit, credit, amount), EntryNet(account));
  }

  /** Moving one invoice total together with the matching entry keeps the books. */
  lemma PostKeepsBooks(t: Tables, invoice: Invoice, entry: Entry, source: Source, debit: Account, credit: Account, amount: int)
    requires Books(t)
    requires entry == Entries(source, debit, credit, amount)
    requires
      || (debit == Cash && credit == Receivable
          && invoice.paid == t.invoice.paid + amount && invoice.credited == t.invoice.credited)
      || (debit == Receivable && credit == Cash
          && invoice.paid == t.invoice.paid - amount && invoice.credited == t.invoice.credited)
      || (debit == Adjustment && credit == Receivable
          && invoice.paid == t.invoice.paid && invoice.credited == t.invoice.credited + amount)
    ensures Books(t.(invoice := invoice, journal := t.journal + [entry]))
  {
    TwoLines(source, debit, credit, amount, Cash);
    PostNet(t.journal, source, debit, credit, amount, Cash);
    PostNet(t.journal, source, debit, credit, amount, Receivable);
    PostNet(t.journal, source, debit, credit, amount, Adjustment);
  }

  // ----- steps -----------------------------------------------------------------------

  ghost predicate MoneySame(t: Tables, t': Tables) {
    && t'.invoice.total == t.invoice.total
    && t'.invoice.paid == t.invoice.paid
    && t'.invoice.credited == t.invoice.credited
    && t'.journal == t.journal
    && |t'.schedules| == |t.schedules|
    && forall i :: 0 <= i < |t.schedules| ==>
         && t'.schedules[i].amount == t.schedules[i].amount
         && t'.schedules[i].paid == t.schedules[i].paid
         && t'.schedules[i].credited == t.schedules[i].credited
  }

  lemma MoneySameKeepsLedger(sys: System, sys': System)
    requires LedgerInv(sys) && MoneySame(sys.t, sys'.t) && Positive(sys')
    ensures LedgerInv(sys')
  {
    SumByPointwise(sys.t.schedules, AmountWeight(), sys'.t.schedules, AmountWeight());
    SumByPointwise(sys.t.schedules, PaidWeight(), sys'.t.schedules, PaidWeight());
    SumByPointwise(sys.t.schedules, CreditedWeight(), sys'.t.schedules, CreditedWeight());
  }

  /** A step of a creator moves no money; at most it appends a PENDING session. */
  ghost predicate CreatorFrame(sys: System, sys': System) {
    && MoneySame(sys.t, sys'.t)
    && sys'.t.allocations == sys.t.allocations && sys'.t.refunds == sys.t.refunds
    && sys'.t.notes == sys.t.notes && sys'.t.events == sys.t.events
    && sys'.t.invoice == sys.t.invoice
    && (sys'.t.sessions == sys.t.sessions
        || (|sys'.t.sessions| == |sys.t.sessions| + 1
            && sys'.t.sessions[..|sys.t.sessions|] == sys.t.sessions
            && sys'.t.sessions[|sys.t.sessions|].status.Pending?))
  }

  lemma DropFrame(sys: System, c: nat)
    requires c < |sys.creators|
    ensures CreatorFrame(sys, Drop(sys, c)) && (Positive(sys) ==> Positive(Drop(sys, c)))
  {
  }

  lemma InsertFrame(sys: System, c: nat, expiresAt: Time)
    requires Positive(sys)
    ensures CreatorFrame(sys, StepInsert(sys, c, expiresAt)) && Positive(StepInsert(sys, c, expiresAt))
  {
    if c < |sys.creators| { DropFrame(sys, c); }
  }

  lemma RetainFrame(sys: System, c: nat)
    requires Positive(sys)
    ensures CreatorFrame(sys, StepRetain(sys, c)) && Positive(StepRetain(sys, c))
  {
    if c < |sys.creators| { DropFrame(sys, c); }
  }

  lemma AcquireFrame(sys: System, i: nat, key: Key)
    requires Positive(sys)
    ensures CreatorFrame(sys, StepAcquire(sys, i, key)) && Positive(StepAcquire(sys, i, key))
  {
  }

  lemma PriceFrame(sys: System, c: nat)
    requires Positive(sys)
    ensures CreatorFrame(sys, StepPrice(sys, c)) && Positive(StepPrice(sys, c))
  {
    if c < |sys.creators| { DropFrame(sys, c); }
  }

  lemma CheckFrame(sys: System, c: nat)
    requires Positive(sys)
    ensures CreatorFrame(sys, StepCheckActive(sys, c)) && Positive(StepCheckActive(sys, c))
  {
    if c < |sys.creators| { DropFrame(sys, c); }
  }

  lemma CreatorStepFrame(sys: System, step: Step)
    requires Lease.CreatorStep(step) && Positive(sys)
    ensures CreatorFrame(sys, Next(sys, step)) && Positive(Next(sys, step))
  {
    match step
    case Acquire(i, key) => AcquireFrame(sys, i, key);
    case Price(c) => PriceFrame(sys, c);
    case CheckActive(c) => CheckFrame(sys, c);
    case Insert(c, expiresAt) => InsertFrame(sys, c, expiresAt);
    case Retain(c) => RetainFrame(sys, c);
    case Abandon(c) => if c < |sys.creators| { DropFrame(sys, c); }
    case Crash(c) =>
  }

  lemma UpdateOneSchedule(t: Tables, i: nat, s: Schedule)
    requires Totals(t) && i < |t.schedules| && s.amount == t.schedules[i].amount
    ensures var schedules := t.schedules[i := s];
      && SumBy(schedules, AmountWeight()) == t.invoice.total
      && SumBy(schedules, PaidWeight()) == t.invoice.paid - t.schedules[i].paid + s.paid
      && SumBy(schedules, CreditedWeight()) == t.invoice.credited - t.schedules[i].credited + s.credited
  {
    SumByUpdate(t.schedules, i, s, AmountWeight());
    SumByUpdate(t.schedules, i, s, PaidWeight());
    SumByUpdate(t.schedules, i, s, CreditedWeight());
  }

  lemma CaptureKeepsLedger(sys: System, sid: nat, mark: Option<nat>, chart: bool)
    requires LedgerInv(sys)
    ensures LedgerInv(Next(sys, Succeed(sid, mark, chart)))
  {
    var t := sys.t;
    var sys' := Next(sys, Succeed(sid, mark, chart));
    if Capture(t, sid, mark, chart).Ok? && !Allocated(t.allocations, sid) {
      var i := t.sessions[sid].schedule;
      UpdateOneSchedule(t, i, sys'.t.schedules[i]);
      PostKeepsBooks(t, sys'.t.invoice, sys'.t.journal[|t.journal|], PaymentOf(sid), Cash, Receivable, t.sessions[sid].amount);
    } else {
      MoneySameKeepsLedger(sys, sys');
    }
  }

  lemma SettleKeepsLedger(sys: System, rid: nat, chart: bool)
    requires LedgerInv(sys)
    ensures LedgerInv(Next(sys, Settle(rid, chart)))
  {
    var t := sys.t;
    var sys' := Next(sys, Settle(rid, chart));
    if sys'.t != t {
      var i := t.sessions[t.refunds[rid].session].schedule;
      UpdateOneSchedule(t, i, sys'.t.schedules[i]);
      PostKeepsBooks(t, sys'.t.invoice, sys'.t.journal[|t.journal|], RefundOf(rid), Receivable, Cash, t.refunds[rid].amount);
    }
  }

  lemma TakenWithin(first: Schedule, unallocated: int)
    requires Within(first) && unallocated >= 0
    ensures var taken := Taken(first, unallocated);
      var head := if taken > 0 then Credit(first, taken) else first;
      0 <= taken <= unallocated && Within(head) && head.credited == first.credited + taken
  {
  }

  /** A pour credits exactly what it does not leave over, and never over-credits a schedule. */
  lemma {:induction false} WaterfallConserves(schedules: seq<Schedule>, unallocated: int, now: Time)
    requires unallocated >= 0
    requires Waterfall(schedules, unallocated, now).Pour?
    requires forall i :: 0 <= i < |schedules| ==> Within(schedules[i])
    ensures var pour := Waterfall(schedules, unallocated, now);
      && 0 <= pour.left <= unallocated
      && SumBy(pour.schedules, CreditedWeight()) == SumBy(schedules, CreditedWeight()) + unallocated - pour.left
      && forall i :: 0 <= i < |pour.schedules| ==> Within(pour.schedules[i])
  {
    if |schedules| > 0 {
      var first := schedules[0];
      var taken := Taken(first, unallocated);
      var rest := Waterfall(schedules[1..], unallocated - taken, now);
      TakenWithin(first, unallocated);
      WaterfallConserves(schedules[1..], unallocated - taken, now);
      var head := if taken > 0 then Credit(first, taken) else first;
      assert schedules == [first] + schedules[1..];
      SumByCons(first, schedules[1..], CreditedWeight());
      SumByCons(head, rest.schedules, CreditedWeight());
    }
  }

  lemma CreditKeepsLedger(sys: System, key: Key, amount: int, reason: string, chart: bool)
    requires LedgerInv(sys)
    ensures LedgerInv(Next(sys, CreditInvoice(key, amount, reason, chart)))
  {
    var t := sys.t;
    var answer := IssueCreditNote(t, key, amount, reason, sys.clock, chart);
    if answer.Ok? && answer.value != t {
      NoteKeepsTotals(t, key, amount, reason, sys.clock, chart);
      PostKeepsBooks(
        t, answer.value.invoice, answer.value.journal[|t.journal|], CreditNoteOf(|t.notes|), Adjustment, Receivable, amount);
    }
  }

  lemma NoteKeepsTotals(t: Tables, key: Key, amount: int, reason: string, now: Time, chart: bool)
    requires Totals(t) && Bounded(t) && IssueCreditNote(t, key, amount, reason, now, chart).Ok?
    ensures Totals(IssueCreditNote(t, key, amount, reason, now, chart).value)
    ensures Bounded(IssueCreditNote(t, key, amount, reason, now, chart).value)
  {
    var t' := IssueCreditNote(t, key, amount, reason, now, chart).value;
    if t' != t {
      Lease.WaterfallFrame(t.schedules, amount, now);
      WaterfallConserves(t.schedules, amount, now);
      SumByPointwise(t.schedules, AmountWeight(), t'.schedules, AmountWeight());
      SumByPointwise(t.schedules, PaidWeight(), t'.schedules, PaidWeight());
    }
  }

  lemma RowFrameKeepsMoney(sys: System, sys': System)
    requires LedgerInv(sys) && Lease.RowFrame(sys, sys')
    ensures MoneySame(sys.t, sys'.t) && Positive(sys')
  {
  }

  lemma RowStepKeepsMoney(sys: System, step: Step)
    requires LedgerInv(sys) && Lease.RowStep(step)
    ensures MoneySame(sys.t, Next(sys, step).t) && Positive(Next(sys, step))
  {
    Lease.RowStepFrame(sys, step);
    RowFrameKeepsMoney(sys, Next(sys, step));
  }

  lemma FailKeepsMoney(sys: System, sid: nat, event: nat)
    requires LedgerInv(sys)
    ensures MoneySame(sys.t, Next(sys, Fail(sid, event)).t) && Positive(Next(sys, Fail(sid, event)))
  {
  }

  lemma CloseStepKeepsMoney(sys: System, step: Step)
    requires LedgerInv(sys) && (step.Tick? || step.Fail? || step.SweepSessions?)
    ensures MoneySame(sys.t, Next(sys, step).t) && Positive(Next(sys, step))
  {
    if step.Fail? { FailKeepsMoney(sys, step.session, step.event); }
  }

  lemma MoneyStepKeepsLedger(sys: System, step: Step)
    requires LedgerInv(sys) && (step.Succeed? || step.Settle? || step.CreditInvoice?)
    ensures LedgerInv(Next(sys, step))
  {
    match step
    case Succeed(s, mark, chart) => CaptureKeepsLedger(sys, s, mark, chart);
    case Settle(r, chart) => SettleKeepsLedger(sys, r, chart);
    case CreditInvoice(key, amount, reason, chart) => CreditKeepsLedger(sys, key, amount, reason, chart);
  }

  lemma NextKeepsLedger(sys: System, step: Step)
    requires LedgerInv(sys)
    ensures LedgerInv(Next(sys, step))
  {
    if Lease.CreatorStep(step) {
      CreatorStepFrame(sys, step);
      MoneySameKeepsLedger(sys, Next(sys, step));
    } else if Lease.RowStep(step) {
      RowStepKeepsMoney(sys, step);
      MoneySameKeepsLedger(sys, Next(sys, step));
    } else if step.Tick? || step.Fail? || step.SweepSessions? {
      CloseStepKeepsMoney(sys, step);
      MoneySameKeepsLedger(sys, Next(sys, step));
    } else {
      MoneyStepKeepsLedger(sys, step);
    }
  }

  lemma {:induction false} LedgerKept(sys: System, steps: seq<Step>)
    requires LedgerInv(sys)
    ensures LedgerInv(Run(sys, steps))
    decreases |steps|
  {
    if |steps| > 0 {
      NextKeepsLedger(sys, steps[0]);
      LedgerKept(Next(sys, steps[0]), steps[1..]);
    }
  }

  lemma OpenedLedger(start: System)
    requires Opened(start)
    ensures LedgerInv(start)
  {
    SumByZero(start.t.schedules, PaidWeight());
    SumByZero(start.t.schedules, CreditedWeight());
    assert Net([], Cash) == Net([], Receivable) == Net([], Adjustment) == 0;
  }

  function SettledWeight(): Schedule -> int { (s: Schedule) => s.paid + s.credited }

  function RemainingWeight(): Schedule -> int { (s: Schedule) => s.Remaining() }

  /** No more is ever paid and credited than the invoice's total. */
  lemma WithinTotal(t: Tables)
    requires Totals(t) && Bounded(t)
    ensures 0 <= t.invoice.paid && 0 <= t.invoice.credited && t.invoice.paid + t.invoice.credited <= t.invoice.total
  {
    SumByNonNegative(t.schedules, PaidWeight());
    SumByNonNegative(t.schedules, CreditedWeight());
    SumByAdd(t.schedules, PaidWeight(), CreditedWeight(), SettledWeight());
    SumByAdd(t.schedules, SettledWeight(), RemainingWeight(), AmountWeight());
    SumByNonNegative(t.schedules, RemainingWeight());
  }
}
