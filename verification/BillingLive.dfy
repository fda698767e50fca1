/**
 What the checkout lock is there for, over any run at all: exactly which steps put a second live
 session on a schedule, and exactly which ones leave a live session more than its schedule owes.
 */
module BillingLive {
  import opened Results
  import opened Sums
  import opened BillingTables
  import opened BillingProtocol
  import opened BillingWaterfall
  import Lease = BillingLease
  import Ledger = BillingLedger

  // ----- where live sessions come from -----------------------------------------------

  /** An insert under a fresh key of a session that can still be paid. */
  predicate InsertsLive(sys: System, step: Step) {
    && step.Insert? && Active(sys, step.creator) && sys.creators[step.creator].phase.Cleared?
    && !SessionKeyUsed(sys.t.sessions, sys.creators[step.creator].key)
    && sys.clock < step.expiresAt
  }

  lemma InsertedRow(sys: System, step: Step)
    requires InsertsLive(sys, step)
    ensures var creator := sys.creators[step.creator];
      Next(sys, step).t == sys.t.(sessions :=
        sys.t.sessions + [Session(creator.schedule, creator.phase.amount, creator.key, step.expiresAt, Pending)])
    ensures Next(sys, step).clock == sys.clock
  {
  }

  ghost predicate Carried(sys: System, sys': System, s: nat) {
    && Live(sys, s) && s < |sys'.t.sessions|
    && sys'.t.sessions[s].schedule == sys.t.sessions[s].schedule
    && sys'.t.sessions[s].amount == sys.t.sessions[s].amount
  }

  lemma InsertLive(sys: System, step: Step, s: nat)
    requires step.Insert? && Live(Next(sys, step), s)
    ensures if s < |sys.t.sessions| then Carried(sys, Next(sys, step), s)
            else InsertsLive(sys, step) && s == |sys.t.sessions|
  {
  }

  lemma CreatorLive(sys: System, step: Step, s: nat)
    requires Lease.CreatorStep(step) && !step.Insert? && Live(Next(sys, step), s)
    ensures Carried(sys, Next(sys, step), s)
  {
  }

  lemma MoneyLive(sys: System, step: Step, s: nat)
    requires step.Tick? || step.Settle? || step.CreditInvoice?
    requires Live(Next(sys, step), s)
    ensures Carried(sys, Next(sys, step), s)
  {
  }

  lemma ClosingLive(sys: System, step: Step, s: nat)
    requires step.Succeed? || step.Fail? || step.SweepSessions?
    requires Live(Next(sys, step), s)
    ensures Carried(sys, Next(sys, step), s)
  {
  }

  /** A live session was live before, with the same schedule and amount, or is the row just inserted. */
  lemma LiveNext(sys: System, step: Step, s: nat)
    requires Live(Next(sys, step), s)
    ensures if s < |sys.t.sessions| then Carried(sys, Next(sys, step), s)
            else InsertsLive(sys, step) && s == |sys.t.sessions|
  {
    if step.Insert? {
      InsertLive(sys, step, s);
    } else if Lease.CreatorStep(step) {
      CreatorLive(sys, step, s);
    } else if Lease.RowStep(step) {
      Lease.RowStepFrame(sys, step);
    } else if step.Tick? || step.Settle? || step.CreditInvoice? {
      MoneyLive(sys, step, s);
    } else {
      ClosingLive(sys, step, s);
    }
  }

  // ----- a second live session -------------------------------------------------------

  ghost predicate OneLive(sys: System) {
    forall a: nat, b: nat ::
      Live(sys, a) && Live(sys, b) && sys.t.sessions[a].schedule == sys.t.sessions[b].schedule ==> a == b
  }

  predicate InsertsBeside(sys: System, step: Step) {
    InsertsLive(sys, step) && HasLiveSession(sys, sys.creators[step.creator].schedule)
  }

  lemma LiveSessionAt(sys: System, i: nat) returns (s: nat)
    requires HasLiveSession(sys, i)
    ensures Live(sys, s) && sys.t.sessions[s].schedule == i
  {
    var row :| row in sys.t.sessions && row.schedule == i && ExpiresAfter(row, sys.clock);
    s :| 0 <= s < |sys.t.sessions| && sys.t.sessions[s] == row;
  }

  lemma BesideBreaks(sys: System, step: Step)
    requires InsertsBeside(sys, step)
    ensures !OneLive(Next(sys, step))
  {
    InsertedRow(sys, step);
    var s := LiveSessionAt(sys, sys.creators[step.creator].schedule);
    assert Live(Next(sys, step), s) && Live(Next(sys, step), |sys.t.sessions|);
  }

  lemma AloneKeeps(sys: System, step: Step, a: nat, b: nat)
    requires OneLive(sys) && !InsertsBeside(sys, step) && Live(Next(sys, step), a) && Live(Next(sys, step), b)
    requires Next(sys, step).t.sessions[a].schedule == Next(sys, step).t.sessions[b].schedule
    ensures a == b
  {
    LiveNext(sys, step, a);
    LiveNext(sys, step, b);
    if InsertsLive(sys, step) {
      InsertedRow(sys, step);
      if Live(sys, a) { assert sys.t.sessions[a] in sys.t.sessions; }
      if Live(sys, b) { assert sys.t.sessions[b] in sys.t.sessions; }
    }
  }

  /** A step gives a schedule its second live session if and only if it inserts one beside another. */
  lemma OneLiveExact(sys: System, step: Step)
    requires OneLive(sys)
    ensures OneLive(Next(sys, step)) <==> !InsertsBeside(sys, step)
  {
    if InsertsBeside(sys, step) {
      BesideBreaks(sys, step);
    } else {
      forall a: nat, b: nat | Live(Next(sys, step), a) && Live(Next(sys, step), b)
        && Next(sys, step).t.sessions[a].schedule == Next(sys, step).t.sessions[b].schedule
        ensures a == b
      {
        AloneKeeps(sys, step, a, b);
      }
    }
  }

  // ----- a capture that no longer fits -----------------------------------------------

  /** Every live session's amount is still owed on its schedule. */
  ghost predicate Fits(sys: System) {
    forall s: nat :: Live(sys, s) && sys.t.sessions[s].schedule < |sys.t.schedules| ==>
      sys.t.sessions[s].amount <= sys.t.schedules[sys.t.sessions[s].schedule].Remaining()
  }

  /** What a step takes from the balance of schedule `i`. */
  function Takes(sys: System, step: Step, i: nat): int
    requires i < |sys.t.schedules|
  {
    match step
    case Succeed(s, mark, chart) =>
      if Capture(sys.t, s, mark, chart).Ok? && !Allocated(sys.t.allocations, s) && sys.t.sessions[s].schedule == i
      then sys.t.sessions[s].amount else 0
    case CreditInvoice(key, amount, reason, chart) =>
      if IssueCreditNote(sys.t, key, amount, reason, sys.clock, chart).Ok? && FindNote(sys.t.notes, key, 0).None?
      then Share(sys.t.schedules, amount, i) else 0
    case _ => 0
  }

  /** The step takes money from a schedule that a live session, other than the one captured, counts on. */
  predicate Pinches(sys: System, step: Step, s: nat) {
    && Live(sys, s) && !(step.Succeed? && step.session == s) && sys.t.sessions[s].schedule < |sys.t.schedules|
    && var i := sys.t.sessions[s].schedule;
       sys.t.sessions[s].amount > sys.t.schedules[i].Remaining() - Takes(sys, step, i)
  }

  /** An insert at a price that is no longer owed, or money taken that another live session counts on. */
  ghost predicate Squeezes(sys: System, step: Step) {
    || (InsertsLive(sys, step) && sys.creators[step.creator].schedule < |sys.t.schedules|
        && sys.creators[step.creator].phase.amount > sys.t.schedules[sys.creators[step.creator].schedule].Remaining())
    || exists s: nat :: Pinches(sys, step, s)
  }

  lemma CreditTakes(sys: System, step: Step, i: nat)
    requires Ledger.LedgerInv(sys) && step.CreditInvoice? && i < |sys.t.schedules|
    ensures |Next(sys, step).t.schedules| == |sys.t.schedules|
    ensures Next(sys, step).t.schedules[i].Remaining() == sys.t.schedules[i].Remaining() - Takes(sys, step, i)
  {
    if Next(sys, step).t != sys.t {
      WaterfallCredits(sys.t.schedules, step.amount, sys.clock);
    }
  }

  lemma CaptureTakes(sys: System, step: Step, i: nat)
    requires step.Succeed? && i < |sys.t.schedules|
    ensures |Next(sys, step).t.schedules| == |sys.t.schedules|
    ensures Next(sys, step).t.schedules[i].Remaining() == sys.t.schedules[i].Remaining() - Takes(sys, step, i)
  {
  }

  /** No other step takes from a schedule; a refund gives back. */
  lemma OthersTakeNothing(sys: System, step: Step, i: nat)
    requires Ledger.LedgerInv(sys) && !step.Succeed? && !step.CreditInvoice? && i < |sys.t.schedules|
    ensures |Next(sys, step).t.schedules| == |sys.t.schedules|
    ensures Next(sys, step).t.schedules[i].Remaining() >= sys.t.schedules[i].Remaining()
  {
    if Lease.CreatorStep(step) {
      Ledger.CreatorStepFrame(sys, step);
    } else if Lease.RowStep(step) {
      Lease.RowStepFrame(sys, step);
    } else if !step.Settle? {
      Ledger.CloseStepKeepsMoney(sys, step);
    }
  }

  lemma BalanceNext(sys: System, step: Step, i: nat)
    requires Ledger.LedgerInv(sys) && i < |sys.t.schedules|
    ensures |Next(sys, step).t.schedules| == |sys.t.schedules|
    ensures Next(sys, step).t.schedules[i].Remaining() >= sys.t.schedules[i].Remaining() - Takes(sys, step, i)
    ensures step.Succeed? || step.CreditInvoice? ==>
      Next(sys, step).t.schedules[i].Remaining() == sys.t.schedules[i].Remaining() - Takes(sys, step, i)
  {
    if step.Succeed? {
      CaptureTakes(sys, step, i);
    } else if step.CreditInvoice? {
      CreditTakes(sys, step, i);
    } else {
      OthersTakeNothing(sys, step, i);
    }
  }

  lemma SameSchedules(sys: System, step: Step)
    requires Ledger.LedgerInv(sys)
    ensures |Next(sys, step).t.schedules| == |sys.t.schedules|
  {
    if |sys.t.schedules| > 0 {
      BalanceNext(sys, step, 0);
    } else {
      NoSchedules(sys, step);
    }
  }

  lemma NoSchedules(sys: System, step: Step)
    requires Ledger.Positive(sys) && |sys.t.schedules| == 0
    ensures |Next(sys, step).t.schedules| == 0
  {
    if Lease.CreatorStep(step) {
      Ledger.CreatorStepFrame(sys, step);
    } else if Lease.RowStep(step) {
      Lease.RowStepFrame(sys, step);
    }
  }

  lemma UnsqueezedFits(sys: System, step: Step, s: nat)
    requires Ledger.LedgerInv(sys) && Fits(sys) && !Squeezes(sys, step) && Live(Next(sys, step), s)
    requires Next(sys, step).t.sessions[s].schedule < |Next(sys, step).t.schedules|
    ensures Next(sys, step).t.sessions[s].amount
         <= Next(sys, step).t.schedules[Next(sys, step).t.sessions[s].schedule].Remaining()
  {
    var sys' := Next(sys, step);
    SameSchedules(sys, step);
    LiveNext(sys, step, s);
    BalanceNext(sys, step, sys'.t.sessions[s].schedule);
    if s < |sys.t.sessions| {
      assert !Pinches(sys, step, s);
      if step.Succeed? && step.session == s { CapturedNotLive(sys, step); }
    } else {
      InsertedRow(sys, step);
    }
  }

  /** A session that is still live after its own success was refused. */
  lemma CapturedNotLive(sys: System, step: Step)
    requires step.Succeed? && Live(Next(sys, step), step.session)
    ensures Next(sys, step).t.schedules == sys.t.schedules
  {
  }

  lemma SqueezedBreaks(sys: System, step: Step)
    requires Ledger.LedgerInv(sys) && Fits(sys) && Squeezes(sys, step)
    ensures !Fits(Next(sys, step))
  {
    var sys' := Next(sys, step);
    if s: nat :| Pinches(sys, step, s) {
      BalanceNext(sys, step, sys.t.sessions[s].schedule);
      TakingLeavesLive(sys, step, s);
    } else {
      InsertedRow(sys, step);
      assert Live(sys', |sys.t.sessions|);
    }
  }

  lemma TakingLeavesLive(sys: System, step: Step, s: nat)
    requires Live(sys, s) && !(step.Succeed? && step.session == s) && (step.Succeed? || step.CreditInvoice?)
    ensures Live(Next(sys, step), s) && Next(sys, step).t.sessions[s] == sys.t.sessions[s]
  {
  }

  /** A step leaves some live session's amount unaffordable if and only if it squeezes one. */
  lemma FitsExact(sys: System, step: Step)
    requires Ledger.LedgerInv(sys) && Fits(sys)
    ensures Fits(Next(sys, step)) <==> !Squeezes(sys, step)
  {
    if Squeezes(sys, step) {
      SqueezedBreaks(sys, step);
    } else {
      var sys' := Next(sys, step);
      forall s: nat | Live(sys', s) && sys'.t.sessions[s].schedule < |sys'.t.schedules|
        ensures sys'.t.sessions[s].amount <= sys'.t.schedules[sys'.t.sessions[s].schedule].Remaining()
      {
        UnsqueezedFits(sys, step, s);
      }
    }
  }

  // ----- over runs -------------------------------------------------------------------

  ghost predicate OneLiveThroughout(sys: System, steps: seq<Step>)
    decreases |steps|
  {
    OneLive(sys) && (|steps| > 0 ==> OneLiveThroughout(Next(sys, steps[0]), steps[1..]))
  }

  predicate NeverBeside(sys: System, steps: seq<Step>)
    decreases |steps|
  {
    |steps| > 0 ==> !InsertsBeside(sys, steps[0]) && NeverBeside(Next(sys, steps[0]), steps[1..])
  }

  lemma {:induction false} OneLiveKept(sys: System, steps: seq<Step>)
    requires OneLive(sys)
    ensures OneLiveThroughout(sys, steps) <==> NeverBeside(sys, steps)
    decreases |steps|
  {
    if |steps| > 0 {
      OneLiveExact(sys, steps[0]);
      if !InsertsBeside(sys, steps[0]) {
        OneLiveKept(Next(sys, steps[0]), steps[1..]);
      } else {
        assert !OneLiveThroughout(Next(sys, steps[0]), steps[1..]);
      }
    }
  }

  /** With no assumption on a run: no schedule ever has two live sessions exactly when none is inserted beside another. */
  lemma OneLiveSessionExact(start: System, steps: seq<Step>)
    requires Opened(start)
    ensures OneLiveThroughout(start, steps) <==> NeverBeside(start, steps)
  {
    OneLiveKept(start, steps);
  }

  ghost predicate FitsThroughout(sys: System, steps: seq<Step>)
    decreases |steps|
  {
    Fits(sys) && (|steps| > 0 ==> FitsThroughout(Next(sys, steps[0]), steps[1..]))
  }

  ghost predicate NeverSqueezed(sys: System, steps: seq<Step>)
    decreases |steps|
  {
    |steps| > 0 ==> !Squeezes(sys, steps[0]) && NeverSqueezed(Next(sys, steps[0]), steps[1..])
  }

  lemma {:induction false} FitsKept(sys: System, steps: seq<Step>)
    requires Ledger.LedgerInv(sys) && Fits(sys)
    ensures FitsThroughout(sys, steps) <==> NeverSqueezed(sys, steps)
    decreases |steps|
  {
    if |steps| > 0 {
      FitsExact(sys, steps[0]);
      Ledger.NextKeepsLedger(sys, steps[0]);
      if !Squeezes(sys, steps[0]) {
        FitsKept(Next(sys, steps[0]), steps[1..]);
      } else {
        assert !FitsThroughout(Next(sys, steps[0]), steps[1..]);
      }
    }
  }

  /** With no assumption on a run: every live session can be captured at any time exactly when no step squeezes one. */
  lemma CaptureFitsExact(start: System, steps: seq<Step>)
    requires Opened(start)
    ensures FitsThroughout(start, steps) <==> NeverSqueezed(start, steps)
  {
    Ledger.OpenedLedger(start);
    FitsKept(start, steps);
  }

  /** What fitting means: the guard on the remaining balance lets the session's capture through. */
  lemma FitsIsCapturable(sys: System, s: nat, mark: Option<nat>, chart: bool)
    requires Live(sys, s) && sys.t.sessions[s].schedule < |sys.t.schedules| && !Allocated(sys.t.allocations, s)
    ensures Capture(sys.t, s, mark, chart) == Err(ExceedsRemaining)
       <==> sys.t.sessions[s].amount > sys.t.schedules[sys.t.sessions[s].schedule].Remaining()
  {
  }
}
