/**
 What billing promises over every run of creators, webhooks, refunds, credit notes and sweeps
 on an invoice that was opened unpaid with schedules that sum to its total.
 */
module BillingTheorems {
  import opened Results
  import opened Sums
  import opened BillingTables
  import opened BillingProtocol
  import Lease = BillingLease
  import Ledger = BillingLedger
  import Once = BillingOnce
  import Refunds = BillingRefunds

  // ----- checkout lock ---------------------------------------------------------------

  /**
   The lock's invariant holds throughout a run if and only if every step is harmless; a run in
   which creators keep their lock in time and successes are in time is.
   */
  lemma LeaseHoldsExact(start: System, steps: seq<Step>)
    requires Opened(start)
    ensures Lease.LeaseThroughout(start, steps) <==> Lease.HarmlessRun(start, steps)
    ensures Lease.TimelyRun(start, steps) ==> Lease.HarmlessRun(start, steps)
  {
    Lease.LeaseThroughoutExact(start, steps);
    if Lease.TimelyRun(start, steps) { Lease.TimelyIsHarmless(start, steps); }
  }

  lemma LeaseHolds(start: System, steps: seq<Step>)
    requires Opened(start) && Lease.HarmlessRun(start, steps)
    ensures Lease.LeaseInv(Run(start, steps))
  {
    Lease.LeaseKept(start, steps);
  }

  /** At any time a schedule has at most one session that a payer can still complete. */
  lemma AtMostOneLiveSession(start: System, steps: seq<Step>, a: nat, b: nat)
    requires Opened(start) && Lease.HarmlessRun(start, steps)
    requires var sys := Run(start, steps);
      Live(sys, a) && Live(sys, b) && sys.t.sessions[a].schedule == sys.t.sessions[b].schedule
    ensures a == b
  {
    LeaseHolds(start, steps);
    Lease.OneLiveSession(Run(start, steps), a, b);
  }

  /** The guard that sends a captured payment to reconciliation never fires for a live session. */
  lemma CaptureAlwaysFits(start: System, steps: seq<Step>, sid: nat, mark: Option<nat>, chart: bool)
    requires Opened(start) && Lease.HarmlessRun(start, steps)
    requires Live(Run(start, steps), sid)
    ensures Capture(Run(start, steps).t, sid, mark, chart) != Err(ExceedsRemaining)
  {
    LeaseHolds(start, steps);
  }

  /** No credit note touches the schedule of a live session: it is refused instead. */
  lemma CreditSparesLiveSession(start: System, steps: seq<Step>, sid: nat, amount: int)
    requires Opened(start) && Lease.HarmlessRun(start, steps) && amount >= 0
    requires Live(Run(start, steps), sid)
    ensures var sys := Run(start, steps);
      var i := sys.t.sessions[sid].schedule;
      var pour := Waterfall(sys.t.schedules, amount, sys.clock);
      pour.Pour? ==> i < |pour.schedules| && i < |sys.t.schedules| && pour.schedules[i] == sys.t.schedules[i]
  {
    var sys := Run(start, steps);
    LeaseHolds(start, steps);
    Lease.HeldUntilLater(sys, sys.t.sessions[sid].schedule);
    if Waterfall(sys.t.schedules, amount, sys.clock).Pour? {
      Lease.WaterfallFrame(sys.t.schedules, amount, sys.clock);
    }
  }

  // ----- ledger and events: for all runs, late and failed steps included --------------

  /** The invoice's totals are its schedules', and the journal agrees with both. */
  lemma LedgerRefinesSubledger(start: System, steps: seq<Step>)
    requires Opened(start)
    ensures var t := Run(start, steps).t;
      Ledger.Totals(t) && Ledger.Bounded(t) && Ledger.Books(t)
  {
    Ledger.OpenedLedger(start);
    Ledger.LedgerKept(start, steps);
  }

  /** Completed, allocated and posted are the same thing, each exactly once. */
  lemma ExactlyOnce(start: System, steps: seq<Step>)
    requires Opened(start)
    ensures var t := Run(start, steps).t;
      && Once.OneAllocation(t) && Once.OnePosting(t)
      && forall a :: 0 <= a < |t.allocations| ==>
           t.allocations[a].session < |t.sessions|
           && t.allocations[a].amount == t.sessions[t.allocations[a].session].amount
  {
    Once.OpenedOnce(start);
    Once.OnceKept(start, steps);
  }

  /** What a schedule shows as paid is what its sessions captured less what was refunded. */
  lemma PaidIsCapturedLessRefunded(start: System, steps: seq<Step>)
    requires Opened(start)
    ensures Once.PaidIsCaptured(Run(start, steps).t)
  {
    Once.OpenedOnce(start);
    Once.OnceKept(start, steps);
  }

  /** COMPLETED, PROCESSED and applied are never left, whatever happens next. */
  lemma {:induction false} NeverLeft(start: System, before: seq<Step>, later: seq<Step>)
    requires Opened(start)
    ensures Once.Absorbed(Run(start, before).t, Run(start, before + later).t)
    decreases |later|
  {
    if |later| == 0 {
      assert before + later == before;
    } else {
      var init, last := later[..|later| - 1], later[|later| - 1];
      NeverLeft(start, before, init);
      assert before + later == (before + init) + [last];
      RunConcat(start, before + init, [last]);
      var sys := Run(start, before + init);
      assert Run(sys, [last]) == Next(sys, last);
      Ledger.OpenedLedger(start);
      Ledger.LedgerKept(start, before + init);
      Once.NextAbsorbs(sys, last);
    }
  }

  // ----- refunds ---------------------------------------------------------------------

  lemma OpenedRefunds(start: System)
    requires Opened(start)
    ensures Refunds.Sane(start) && Refunds.WithinCapture(start.t) && Refunds.ClaimsFit(start.t)
    ensures Refunds.AppliedStands(start.t)
  {
    Once.OpenedOnce(start);
  }

  /** While FAILED refunds stay FAILED, those of a session that have not failed never exceed its capture. */
  lemma RefundsWithinCapture(start: System, steps: seq<Step>, sid: nat)
    requires Opened(start) && Refunds.UnrevivedRun(start, steps)
    requires Once.IsCompleted(Run(start, steps).t, sid)
    ensures Reserved(Run(start, steps).t.refunds, sid) <= Run(start, steps).t.sessions[sid].amount
  {
    OpenedRefunds(start);
    Refunds.ReservedKept(start, steps);
  }

  /** After any run within bounds, the next step keeps them unless it revives a refund whose money is reserved. */
  lemma RevivalExact(start: System, steps: seq<Step>, step: Step)
    requires Opened(start) && Refunds.WithinCapture(Run(start, steps).t)
    ensures Refunds.WithinCapture(Next(Run(start, steps), step).t) <==> Refunds.Backed(Run(start, steps).t, step)
  {
    OpenedRefunds(start);
    Refunds.SaneKept(start, steps);
    Refunds.ReservedStepExact(Run(start, steps), step);
  }

  /** What is applied or may still be fits in its capture throughout a run exactly when each new claim had room. */
  lemma ClaimsFitExact(start: System, steps: seq<Step>)
    requires Opened(start)
    ensures Refunds.ClaimsFitThroughout(start, steps) <==> Refunds.RoomyRun(start, steps)
    ensures Refunds.FaithfulRun(start, steps) ==> Refunds.RoomyRun(start, steps)
  {
    OpenedRefunds(start);
    Refunds.ClaimsThroughoutExact(start, steps);
    if Refunds.FaithfulRun(start, steps) { Refunds.FaithfulFits(start, steps); }
  }

  lemma {:induction false} FitsAtTheEnd(sys: System, steps: seq<Step>)
    requires Refunds.ClaimsFitThroughout(sys, steps)
    ensures Refunds.ClaimsFit(Run(sys, steps).t)
    decreases |steps|
  {
    if |steps| > 0 { FitsAtTheEnd(Next(sys, steps[0]), steps[1..]); }
  }

  /**
   The negative-payment guard, exactly: it fires for a refund that is already applied and
   whose amount the schedule no longer holds, and for no other.
   */
  lemma NegativeGuardExact(start: System, steps: seq<Step>, rid: nat, chart: bool)
    requires Opened(start) && Refunds.ClaimsFit(Run(start, steps).t)
    ensures var sys := Run(start, steps);
      ApplyRefund(sys.t, rid, sys.clock, chart) == Err(NegativePayment)
      <==>
      && Once.IsApplied(sys.t, rid) && sys.t.refunds[rid].status.RefundCompleted?
      && sys.t.refunds[rid].session < |sys.t.sessions|
      && sys.t.sessions[sys.t.refunds[rid].session].schedule < |sys.t.schedules|
      && sys.t.schedules[sys.t.sessions[sys.t.refunds[rid].session].schedule].paid < sys.t.refunds[rid].amount
  {
    OpenedRefunds(start);
    Refunds.SaneKept(start, steps);
    var sys := Run(start, steps);
    if rid < |sys.t.refunds| && sys.t.refunds[rid].status.RefundCompleted? {
      var sid := sys.t.refunds[rid].session;
      assert Once.IsCompleted(sys.t, sid);
      if sys.t.sessions[sid].schedule < |sys.t.schedules| {
        Refunds.ScheduleCoversSession(sys, sid);
        Refunds.AppliedWithinClaims(sys.t, sid);
      }
    }
  }

  /** When each new claim had room, a refund that is completed but not applied can always be applied. */
  lemma SettlingNeverOverdraws(start: System, steps: seq<Step>, rid: nat, chart: bool)
    requires Opened(start) && Refunds.RoomyRun(start, steps)
    requires !Once.IsApplied(Run(start, steps).t, rid)
    ensures ApplyRefund(Run(start, steps).t, rid, Run(start, steps).clock, chart) != Err(NegativePayment)
  {
    ClaimsFitExact(start, steps);
    FitsAtTheEnd(start, steps);
    NegativeGuardExact(start, steps, rid, chart);
  }
}
