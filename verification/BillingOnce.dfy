/**
 Exactly-once effect: however events are duplicated, reordered, retried or late, a session
 is COMPLETED exactly when it has one allocation and one posting, a refund is posted once
 exactly when it is applied, and what a schedule shows as paid is precisely its captures
 less its applied refunds.
 */
module BillingOnce {
  import opened Results
  import opened Sums
  import opened BillingTables
  import opened BillingProtocol
  import Lease = BillingLease
  import Ledger = BillingLedger

  function AllocationOf(sid: nat): Allocation -> int {
    (a: Allocation) => if a.session == sid then 1 else 0
  }

  function PostingOf(source: Source): Entry -> int {
    (e: Entry) => if e.source == source then 1 else 0
  }

  function Postings(t: Tables, source: Source): int { SumBy(t.journal, PostingOf(source)) }

  predicate IsCompleted(t: Tables, sid: nat) { sid < |t.sessions| && t.sessions[sid].status.Completed? }

  predicate IsApplied(t: Tables, rid: nat) { rid < |t.refunds| && t.refunds[rid].applied }

  function AppliedWeight(sid: nat): Refund -> int {
    (r: Refund) => if r.session == sid && r.applied then r.amount else 0
  }

  function AppliedOf(t: Tables, sid: nat): int { SumBy(t.refunds, AppliedWeight(sid)) }

  /** What session `k` contributes to the paid amount of schedule `i`. */
  function Contribution(t: Tables, i: nat, k: nat): int {
    if k < |t.sessions| && t.sessions[k].schedule == i then
      (if t.sessions[k].status.Completed? then t.sessions[k].amount else 0) - AppliedOf(t, k)
    else 0
  }

  function ContributionTo(t: Tables, i: nat): nat -> int { (k: nat) => Contribution(t, i, k) }

  function Captured(t: Tables, i: nat): int { SumTo(|t.sessions|, ContributionTo(t, i)) }

  ghost predicate Rows(t: Tables) {
    && (forall r :: 0 <= r < |t.refunds| ==> IsCompleted(t, t.refunds[r].session))
    && (forall a :: 0 <= a < |t.allocations| ==>
         IsCompleted(t, t.allocations[a].session)
         && t.allocations[a].amount == t.sessions[t.allocations[a].session].amount
         && t.allocations[a].schedule == t.sessions[t.allocations[a].session].schedule)
  }

  ghost predicate OneAllocation(t: Tables) {
    forall sid: nat :: SumBy(t.allocations, AllocationOf(sid)) == if IsCompleted(t, sid) then 1 else 0
  }

  ghost predicate OnePosting(t: Tables) {
    && (forall sid: nat :: Postings(t, PaymentOf(sid)) == if IsCompleted(t, sid) then 1 else 0)
    && (forall rid: nat :: Postings(t, RefundOf(rid)) == if IsApplied(t, rid) then 1 else 0)
    && (forall n: nat :: Postings(t, CreditNoteOf(n)) == if n < |t.notes| then 1 else 0)
  }

  ghost predicate PaidIsCaptured(t: Tables) {
    forall i: nat :: i < |t.schedules| ==> t.schedules[i].paid == Captured(t, i)
  }

  ghost predicate OnceInv(t: Tables) {
    Rows(t) && OneAllocation(t) && OnePosting(t) && PaidIsCaptured(t)
  }

  lemma {:induction false} AllocatedCounted(allocations: seq<Allocation>, sid: nat)
    ensures 0 <= SumBy(allocations, AllocationOf(sid))
    ensures Allocated(allocations, sid) <==> SumBy(allocations, AllocationOf(sid)) > 0
  {
    if |allocations| > 0 {
      var init, last := allocations[..|allocations| - 1], allocations[|allocations| - 1];
      AllocatedCounted(init, sid);
      assert allocations == init + [last];
    }
  }

  lemma AllocatedIffCompleted(t: Tables, sid: nat)
    requires OneAllocation(t)
    ensures Allocated(t.allocations, sid) <==> IsCompleted(t, sid)
  {
    AllocatedCounted(t.allocations, sid);
  }

  // ----- what a step may change ------------------------------------------------------

  /** Nothing this module counts has changed: only pending work was added or closed. */
  ghost predicate CountsSame(t: Tables, t': Tables) {
    && t'.allocations == t.allocations
    && t'.journal == t.journal
    && t'.notes == t.notes
    && |t.sessions| <= |t'.sessions|
    && (forall s :: 0 <= s < |t.sessions| ==>
         && t'.sessions[s].schedule == t.sessions[s].schedule
         && t'.sessions[s].amount == t.sessions[s].amount
         && t'.sessions[s].status.Completed? == t.sessions[s].status.Completed?)
    && (forall s :: |t.sessions| <= s < |t'.sessions| ==> !t'.sessions[s].status.Completed?)
    && |t.refunds| <= |t'.refunds|
    && (forall r :: 0 <= r < |t.refunds| ==>
         && t'.refunds[r].session == t.refunds[r].session
         && t'.refunds[r].amount == t.refunds[r].amount
         && t'.refunds[r].applied == t.refunds[r].applied)
    && (forall r :: |t.refunds| <= r < |t'.refunds| ==>
         !t'.refunds[r].applied && IsCompleted(t', t'.refunds[r].session))
    && |t'.schedules| == |t.schedules|
    && (forall i :: 0 <= i < |t.schedules| ==> t'.schedules[i].paid == t.schedules[i].paid)
  }

  lemma AppliedSame(refunds: seq<Refund>, refunds': seq<Refund>, sid: nat)
    requires |refunds| <= |refunds'|
    requires forall r :: 0 <= r < |refunds| ==>
      && refunds'[r].session == refunds[r].session
      && refunds'[r].amount == refunds[r].amount
      && refunds'[r].applied == refunds[r].applied
    requires forall r :: |refunds| <= r < |refunds'| ==> !refunds'[r].applied
    ensures SumBy(refunds', AppliedWeight(sid)) == SumBy(refunds, AppliedWeight(sid))
  {
    var n := |refunds|;
    assert refunds' == refunds'[..n] + refunds'[n..];
    SumByConcat(refunds'[..n], refunds'[n..], AppliedWeight(sid));
    SumByZero(refunds'[n..], AppliedWeight(sid));
    SumByPointwise(refunds, AppliedWeight(sid), refunds'[..n], AppliedWeight(sid));
  }

  /** A session without refunds has nothing applied against it. */
  lemma NothingApplied(t: Tables, sid: nat)
    requires forall r :: 0 <= r < |t.refunds| ==> t.refunds[r].session != sid
    ensures AppliedOf(t, sid) == 0
  {
    SumByZero(t.refunds, AppliedWeight(sid));
  }

  lemma {:induction false} SumToPadded(m: nat, n: nat, f: nat -> int, g: nat -> int)
    requires m <= n
    requires forall k: nat :: k < m ==> f(k) == g(k)
    requires forall k: nat :: m <= k < n ==> g(k) == 0
    ensures SumTo(n, g) == SumTo(m, f)
    decreases n
  {
    if n == m {
      SumToEqual(m, f, g);
    } else {
      SumToPadded(m, n - 1, f, g);
    }
  }

  lemma CapturedSame(t: Tables, t': Tables, i: nat)
    requires CountsSame(t, t') && Rows(t)
    ensures Captured(t', i) == Captured(t, i)
  {
    forall k: nat | k < |t.sessions| ensures Contribution(t', i, k) == Contribution(t, i, k) {
      AppliedSame(t.refunds, t'.refunds, k);
    }
    forall k: nat | |t.sessions| <= k < |t'.sessions| ensures Contribution(t', i, k) == 0 {
      AppliedSame(t.refunds, t'.refunds, k);
      NothingApplied(t, k);
    }
    SumToPadded(|t.sessions|, |t'.sessions|, ContributionTo(t, i), ContributionTo(t', i));
  }

  lemma CountsSameKeepsOnce(t: Tables, t': Tables)
    requires OnceInv(t) && CountsSame(t, t')
    ensures OnceInv(t')
  {
    forall sid: nat ensures IsCompleted(t', sid) == IsCompleted(t, sid) {}
    forall rid: nat ensures IsApplied(t', rid) == IsApplied(t, rid) {}
    forall i: nat | i < |t'.schedules| ensures t'.schedules[i].paid == Captured(t', i) {
      CapturedSame(t, t', i);
    }
  }

  // ----- the three steps that move money ---------------------------------------------

  lemma CaptureKeepsCounts(t: Tables, sid: nat, mark: Option<nat>, chart: bool)
    requires OnceInv(t) && !Allocated(t.allocations, sid)
    requires Capture(t, sid, mark, chart).Ok?
    ensures var t' := Capture(t, sid, mark, chart).value;
      Rows(t') && OneAllocation(t') && OnePosting(t')
  {
    AllocatedIffCompleted(t, sid);
    CaptureAllocates(t, sid, mark, chart);
    CapturePosts(t, sid, mark, chart);
    CaptureKeepsRows(t, sid, mark, chart);
  }

  lemma CaptureKeepsRows(t: Tables, sid: nat, mark: Option<nat>, chart: bool)
    requires Rows(t) && !Allocated(t.allocations, sid) && Capture(t, sid, mark, chart).Ok?
    ensures Rows(Capture(t, sid, mark, chart).value)
  {
  }

  lemma CaptureCompletes(t: Tables, sid: nat, mark: Option<nat>, chart: bool, k: nat)
    requires Capture(t, sid, mark, chart).Ok? && !Allocated(t.allocations, sid)
    ensures IsCompleted(Capture(t, sid, mark, chart).value, k) == (IsCompleted(t, k) || k == sid)
  {
  }

  lemma CaptureAllocates(t: Tables, sid: nat, mark: Option<nat>, chart: bool)
    requires OneAllocation(t) && !Allocated(t.allocations, sid) && !IsCompleted(t, sid)
    requires Capture(t, sid, mark, chart).Ok?
    ensures OneAllocation(Capture(t, sid, mark, chart).value)
  {
    var t' := Capture(t, sid, mark, chart).value;
    forall k: nat ensures SumBy(t'.allocations, AllocationOf(k)) == if IsCompleted(t', k) then 1 else 0 {
      CaptureCompletes(t, sid, mark, chart, k);
      SumByAppend(t.allocations, t'.allocations[|t.allocations|], AllocationOf(k));
    }
  }

  lemma CapturePosts(t: Tables, sid: nat, mark: Option<nat>, chart: bool)
    requires OnePosting(t) && !Allocated(t.allocations, sid) && !IsCompleted(t, sid)
    requires Capture(t, sid, mark, chart).Ok?
    ensures OnePosting(Capture(t, sid, mark, chart).value)
  {
    var t' := Capture(t, sid, mark, chart).value;
    forall source: Source
      ensures Postings(t', source) == Postings(t, source) + if source == PaymentOf(sid) then 1 else 0
    {
      SumByAppend(t.journal, t'.journal[|t.journal|], PostingOf(source));
    }
    forall k: nat ensures IsCompleted(t', k) == (IsCompleted(t, k) || k == sid) { CaptureCompletes(t, sid, mark, chart, k); }
  }

  lemma CaptureKeepsCaptured(t: Tables, sid: nat, mark: Option<nat>, chart: bool)
    requires OnceInv(t) && !Allocated(t.allocations, sid)
    requires Capture(t, sid, mark, chart).Ok?
    ensures PaidIsCaptured(Capture(t, sid, mark, chart).value)
  {
    var t' := Capture(t, sid, mark, chart).value;
    var i := t.sessions[sid].schedule;
    AllocatedIffCompleted(t, sid);
    forall j: nat | j < |t'.schedules| ensures t'.schedules[j].paid == Captured(t', j) {
      forall k: nat | k < |t.sessions| && k != sid ensures Contribution(t', j, k) == Contribution(t, j, k) {}
      if j == i {
        SumToChange(|t.sessions|, ContributionTo(t, j), ContributionTo(t', j), sid, t.sessions[sid].amount);
      } else {
        SumToEqual(|t.sessions|, ContributionTo(t, j), ContributionTo(t', j));
      }
    }
  }

  lemma SettleKeepsOnce(t: Tables, rid: nat, now: Time, chart: bool)
    requires OnceInv(t)
    requires ApplyRefund(t, rid, now, chart).Ok? && ApplyRefund(t, rid, now, chart).value != t
    ensures OnceInv(ApplyRefund(t, rid, now, chart).value)
  {
    var t' := ApplyRefund(t, rid, now, chart).value;
    var sid := t.refunds[rid].session;
    var i := t.sessions[sid].schedule;
    forall k: nat ensures IsCompleted(t', k) == IsCompleted(t, k) {}
    forall r: nat ensures IsApplied(t', r) == (IsApplied(t, r) || r == rid) {}
    forall source: Source
      ensures Postings(t', source) == Postings(t, source) + if source == RefundOf(rid) then 1 else 0
    {
      SumByAppend(t.journal, t'.journal[|t.journal|], PostingOf(source));
    }
    forall k: nat ensures AppliedOf(t', k) == AppliedOf(t, k) + if k == sid then t.refunds[rid].amount else 0 {
      SumByUpdate(t.refunds, rid, t'.refunds[rid], AppliedWeight(k));
    }
    forall j: nat | j < |t'.schedules| ensures t'.schedules[j].paid == Captured(t', j) {
      if j == i {
        SumToChange(|t.sessions|, ContributionTo(t, j), ContributionTo(t', j), sid, -t.refunds[rid].amount);
      } else {
        SumToEqual(|t.sessions|, ContributionTo(t, j), ContributionTo(t', j));
      }
    }
  }

  lemma CreditKeepsOnce(t: Tables, key: Key, amount: int, reason: string, now: Time, chart: bool)
    requires OnceInv(t)
    requires IssueCreditNote(t, key, amount, reason, now, chart).Ok?
    requires IssueCreditNote(t, key, amount, reason, now, chart).value != t
    ensures OnceInv(IssueCreditNote(t, key, amount, reason, now, chart).value)
  {
    var t' := IssueCreditNote(t, key, amount, reason, now, chart).value;
    Lease.WaterfallFrame(t.schedules, amount, now);
    forall source: Source
      ensures Postings(t', source) == Postings(t, source) + if source == CreditNoteOf(|t.notes|) then 1 else 0
    {
      SumByAppend(t.journal, t'.journal[|t.journal|], PostingOf(source));
    }
    forall i: nat | i < |t'.schedules| ensures t'.schedules[i].paid == Captured(t', i) {
      SumToEqual(|t.sessions|, ContributionTo(t, i), ContributionTo(t', i));
    }
  }

  lemma RowStepCounts(sys: System, step: Step)
    requires Lease.RowStep(step) && OnceInv(sys.t)
    ensures CountsSame(sys.t, Next(sys, step).t)
  {
    if step.RequestRefund? {
      RequestCounts(sys, step);
    } else if step.AnswerRefund? || step.NotifyRefund? || step.NameRefund? {
      WordCounts(sys, step);
    } else {
      EventCounts(sys, step);
    }
  }

  lemma RequestCounts(sys: System, step: Step)
    requires step.RequestRefund? && OnceInv(sys.t)
    ensures CountsSame(sys.t, Next(sys, step).t)
  {
  }

  lemma WordCounts(sys: System, step: Step)
    requires step.AnswerRefund? || step.NotifyRefund? || step.NameRefund?
    ensures CountsSame(sys.t, Next(sys, step).t)
  {
  }

  lemma EventCounts(sys: System, step: Step)
    requires step.UpsertEvent? || step.Claim? || step.Finish? || step.Reject? || step.SweepInvoice?
    ensures CountsSame(sys.t, Next(sys, step).t)
  {
  }

  lemma CreatorKeepsOnce(sys: System, step: Step)
    requires Lease.CreatorStep(step) && OnceInv(sys.t) && Ledger.Positive(sys)
    ensures OnceInv(Next(sys, step).t)
  {
    Ledger.CreatorStepFrame(sys, step);
    var t, t' := sys.t, Next(sys, step).t;
    assert forall s :: 0 <= s < |t.sessions| ==> t'.sessions[s] == t'.sessions[..|t.sessions|][s];
    CountsSameKeepsOnce(t, t');
  }

  lemma SucceedKeepsOnce(sys: System, sid: nat, mark: Option<nat>, chart: bool)
    requires OnceInv(sys.t)
    ensures OnceInv(Next(sys, Succeed(sid, mark, chart)).t)
  {
    var t := sys.t;
    if Capture(t, sid, mark, chart).Ok? {
      if Allocated(t.allocations, sid) {
        CountsSameKeepsOnce(t, Capture(t, sid, mark, chart).value);
      } else {
        CaptureKeepsCounts(t, sid, mark, chart);
        CaptureKeepsCaptured(t, sid, mark, chart);
      }
    }
  }

  lemma FailCountsSame(t: Tables, sid: nat, event: nat)
    requires FailSession(t, sid, event).Ok?
    ensures CountsSame(t, FailSession(t, sid, event).value)
  {
  }

  lemma FailKeepsOnce(sys: System, sid: nat, event: nat)
    requires OnceInv(sys.t)
    ensures OnceInv(Next(sys, Fail(sid, event)).t)
  {
    if FailSession(sys.t, sid, event).Ok? {
      FailCountsSame(sys.t, sid, event);
      CountsSameKeepsOnce(sys.t, FailSession(sys.t, sid, event).value);
    }
  }

  lemma NextKeepsOnce(sys: System, step: Step)
    requires OnceInv(sys.t) && Ledger.Positive(sys)
    ensures OnceInv(Next(sys, step).t)
  {
    if Lease.CreatorStep(step) {
      CreatorKeepsOnce(sys, step);
    } else if Lease.RowStep(step) {
      RowStepCounts(sys, step);
      CountsSameKeepsOnce(sys.t, Next(sys, step).t);
    } else {
      match step
      case Tick(ms) =>
      case Succeed(s, mark, chart) => SucceedKeepsOnce(sys, s, mark, chart);
      case Fail(s, e) => FailKeepsOnce(sys, s, e);
      case SweepSessions => CountsSameKeepsOnce(sys.t, ExpireSessions(sys.t, sys.clock));
      case Settle(r, chart) =>
        if Next(sys, step).t != sys.t { SettleKeepsOnce(sys.t, r, sys.clock, chart); }
      case CreditInvoice(key, amount, reason, chart) =>
        if Next(sys, step).t != sys.t { CreditKeepsOnce(sys.t, key, amount, reason, sys.clock, chart); }
    }
  }

  lemma {:induction false} OnceKept(sys: System, steps: seq<Step>)
    requires OnceInv(sys.t) && Ledger.LedgerInv(sys)
    ensures OnceInv(Run(sys, steps).t)
    decreases |steps|
  {
    if |steps| > 0 {
      NextKeepsOnce(sys, steps[0]);
      Ledger.NextKeepsLedger(sys, steps[0]);
      OnceKept(Next(sys, steps[0]), steps[1..]);
    }
  }

  lemma OpenedOnce(start: System)
    requires Opened(start)
    ensures OnceInv(start.t) && Ledger.LedgerInv(start)
  {
    Ledger.OpenedLedger(start);
  }

  // ----- what is absorbing -----------------------------------------------------------

  /** COMPLETED, PROCESSED and applied are never left, whatever happens next. */
  ghost predicate Absorbed(t: Tables, t': Tables) {
    && (forall sid: nat :: IsCompleted(t, sid) ==>
         IsCompleted(t', sid) && t'.sessions[sid].amount == t.sessions[sid].amount)
    && (forall e :: 0 <= e < |t.events| && t.events[e].status.Processed? ==>
         e < |t'.events| && t'.events[e].status.Processed?)
    && (forall rid: nat :: IsApplied(t, rid) ==>
         IsApplied(t', rid) && t'.refunds[rid].amount == t.refunds[rid].amount)
  }

  lemma CreatorAbsorbs(sys: System, step: Step)
    requires Lease.CreatorStep(step) && Ledger.Positive(sys)
    ensures Absorbed(sys.t, Next(sys, step).t)
  {
    Ledger.CreatorStepFrame(sys, step);
    var t, t' := sys.t, Next(sys, step).t;
    assert forall s :: 0 <= s < |t.sessions| ==> t'.sessions[s] == t'.sessions[..|t.sessions|][s];
  }

  /** Events leave PROCESSED in no step. */
  lemma RowKeepsProcessed(sys: System, step: Step, e: nat)
    requires Lease.RowStep(step) && e < |sys.t.events| && sys.t.events[e].status.Processed?
    ensures e < |Next(sys, step).t.events| && Next(sys, step).t.events[e].status.Processed?
  {
  }

  lemma RowAbsorbs(sys: System, step: Step)
    requires Lease.RowStep(step)
    ensures Absorbed(sys.t, Next(sys, step).t)
  {
    Lease.RowStepFrame(sys, step);
    var t' := Next(sys, step).t;
    forall e | 0 <= e < |sys.t.events| && sys.t.events[e].status.Processed?
      ensures e < |t'.events| && t'.events[e].status.Processed?
    {
      RowKeepsProcessed(sys, step, e);
    }
  }

  lemma SucceedAbsorbs(sys: System, sid: nat, mark: Option<nat>, chart: bool)
    ensures Absorbed(sys.t, Next(sys, Succeed(sid, mark, chart)).t)
  {
  }

  lemma FailAbsorbs(sys: System, sid: nat, event: nat)
    ensures Absorbed(sys.t, Next(sys, Fail(sid, event)).t)
  {
  }

  lemma MoneyAbsorbs(sys: System, step: Step)
    requires step.Settle? || step.CreditInvoice?
    ensures Absorbed(sys.t, Next(sys, step).t)
  {
  }

  lemma NextAbsorbs(sys: System, step: Step)
    requires Ledger.Positive(sys)
    ensures Absorbed(sys.t, Next(sys, step).t)
  {
    if Lease.CreatorStep(step) {
      CreatorAbsorbs(sys, step);
    } else if Lease.RowStep(step) {
      RowAbsorbs(sys, step);
    } else if step.Succeed? {
      SucceedAbsorbs(sys, step.session, step.mark, step.chart);
    } else if step.Fail? {
      FailAbsorbs(sys, step.session, step.event);
    } else if step.Settle? || step.CreditInvoice? {
      MoneyAbsorbs(sys, step);
    }
  }
}
