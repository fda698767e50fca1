/**
 Statuses follow balances: over every run, the status of the invoice and of each of its schedules
 is what its paid and credited amounts say, whichever transactions brought them about.
 */
module BillingStatus {
  import opened Results
  import opened BillingTables
  import opened BillingProtocol
  import Lease = BillingLease
  import Ledger = BillingLedger

  /** A schedule is due while nothing is settled, paid when everything is, and open in between. */
  predicate ScheduleAgrees(s: Schedule) {
    && (s.status.Due? <==> s.paid + s.credited == 0)
    && (s.status.SchedulePaid? <==> s.amount > 0 && s.paid + s.credited == s.amount)
  }

  /** An invoice is paid exactly when it is settled, partially paid only when something is, and overdue only late. */
  predicate InvoiceAgrees(invoice: Invoice, now: Time) {
    && (invoice.status.Paid? <==> invoice.total > 0 && invoice.paid + invoice.credited == invoice.total)
    && (invoice.status.Issued? ==> invoice.paid + invoice.credited == 0)
    && (invoice.status.PartiallyPaid? ==> invoice.paid + invoice.credited > 0)
    && (invoice.status.Overdue? ==> invoice.dueAt < now)
    && !invoice.status.Void?
  }

  ghost predicate SchedulesAgree(schedules: seq<Schedule>) {
    forall i :: 0 <= i < |schedules| ==> ScheduleAgrees(schedules[i])
  }

  ghost predicate StatusInv(sys: System) {
    Ledger.LedgerInv(sys) && SchedulesAgree(sys.t.schedules) && InvoiceAgrees(sys.t.invoice, sys.clock)
  }

  /** Locks aside, every schedule is as it was. */
  ghost predicate OnlyLocks(schedules: seq<Schedule>, schedules': seq<Schedule>) {
    && |schedules'| == |schedules|
    && forall i :: 0 <= i < |schedules| ==> schedules'[i] == schedules[i].(lock := schedules'[i].lock)
  }

  lemma CreatorKeepsStatus(sys: System, step: Step)
    requires Lease.CreatorStep(step)
    ensures OnlyLocks(sys.t.schedules, Next(sys, step).t.schedules)
    ensures Next(sys, step).t.invoice == sys.t.invoice && Next(sys, step).clock == sys.clock
  {
  }

  /** Steps on other rows leave both statuses alone, but for the sweep, which marks a late unsettled invoice. */
  lemma PlainKeepsStatus(sys: System, step: Step)
    requires !Lease.CreatorStep(step) && !step.Succeed? && !step.Settle? && !step.CreditInvoice?
    ensures OnlyLocks(sys.t.schedules, Next(sys, step).t.schedules)
    ensures sys.clock <= Next(sys, step).clock
    ensures Next(sys, step).t.invoice == sys.t.invoice
      || (&& step.SweepInvoice? && sys.t.invoice.dueAt < sys.clock
          && (sys.t.invoice.status.Issued? || sys.t.invoice.status.PartiallyPaid?)
          && Next(sys, step).t.invoice == sys.t.invoice.(status := Overdue))
  {
  }

  lemma CaptureKeepsStatus(sys: System, sid: nat, mark: Option<nat>, chart: bool)
    requires StatusInv(sys)
    ensures StatusInv(Next(sys, Succeed(sid, mark, chart)))
  {
    var sys' := Next(sys, Succeed(sid, mark, chart));
    Ledger.NextKeepsLedger(sys, Succeed(sid, mark, chart));
    Ledger.WithinTotal(sys.t);
    Ledger.WithinTotal(sys'.t);
  }

  lemma SettleKeepsStatus(sys: System, rid: nat, chart: bool)
    requires StatusInv(sys)
    ensures StatusInv(Next(sys, Settle(rid, chart)))
  {
    var sys' := Next(sys, Settle(rid, chart));
    Ledger.NextKeepsLedger(sys, Settle(rid, chart));
    Ledger.WithinTotal(sys.t);
    Ledger.WithinTotal(sys'.t);
  }

  lemma {:induction false} WaterfallKeepsStatus(schedules: seq<Schedule>, unallocated: int, now: Time)
    requires unallocated >= 0 && SchedulesAgree(schedules)
    requires forall i :: 0 <= i < |schedules| ==> Ledger.Within(schedules[i])
    requires Waterfall(schedules, unallocated, now).Pour?
    ensures SchedulesAgree(Waterfall(schedules, unallocated, now).schedules)
  {
    if |schedules| > 0 {
      WaterfallKeepsStatus(schedules[1..], unallocated - Taken(schedules[0], unallocated), now);
    }
  }

  lemma CreditKeepsStatus(sys: System, key: Key, amount: int, reason: string, chart: bool)
    requires StatusInv(sys)
    ensures StatusInv(Next(sys, CreditInvoice(key, amount, reason, chart)))
  {
    var sys' := Next(sys, CreditInvoice(key, amount, reason, chart));
    Ledger.NextKeepsLedger(sys, CreditInvoice(key, amount, reason, chart));
    Ledger.WithinTotal(sys.t);
    Ledger.WithinTotal(sys'.t);
    if sys'.t != sys.t { WaterfallKeepsStatus(sys.t.schedules, amount, sys.clock); }
  }

  lemma LocksKeepStatus(schedules: seq<Schedule>, schedules': seq<Schedule>)
    requires OnlyLocks(schedules, schedules') && SchedulesAgree(schedules)
    ensures SchedulesAgree(schedules')
  {
  }

  lemma QuietKeepsStatus(sys: System, step: Step)
    requires StatusInv(sys) && !step.Succeed? && !step.Settle? && !step.CreditInvoice?
    ensures StatusInv(Next(sys, step))
  {
    Ledger.NextKeepsLedger(sys, step);
    if Lease.CreatorStep(step) {
      CreatorKeepsStatus(sys, step);
    } else {
      PlainKeepsStatus(sys, step);
    }
    LocksKeepStatus(sys.t.schedules, Next(sys, step).t.schedules);
  }

  lemma NextKeepsStatus(sys: System, step: Step)
    requires StatusInv(sys)
    ensures StatusInv(Next(sys, step))
  {
    if step.Succeed? {
      CaptureKeepsStatus(sys, step.session, step.mark, step.chart);
    } else if step.Settle? {
      SettleKeepsStatus(sys, step.refund, step.chart);
    } else if step.CreditInvoice? {
      CreditKeepsStatus(sys, step.key, step.amount, step.reason, step.chart);
    } else {
      QuietKeepsStatus(sys, step);
    }
  }

  lemma {:induction false} StatusKept(sys: System, steps: seq<Step>)
    requires StatusInv(sys)
    ensures StatusInv(Run(sys, steps))
    decreases |steps|
  {
    if |steps| > 0 {
      NextKeepsStatus(sys, steps[0]);
      StatusKept(Next(sys, steps[0]), steps[1..]);
    }
  }

  // ----- over every run --------------------------------------------------------------

  /** The invoice is PAID exactly when it is settled, and so is each schedule that has something to pay. */
  lemma StatusFollowsBalance(start: System, steps: seq<Step>)
    requires Opened(start)
    ensures var sys := Run(start, steps);
      InvoiceAgrees(sys.t.invoice, sys.clock) && SchedulesAgree(sys.t.schedules)
  {
    Ledger.OpenedLedger(start);
    Ledger.WithinTotal(start.t);
    StatusKept(start, steps);
  }
}
