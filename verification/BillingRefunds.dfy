/**
 Refund bounds. What a request reserves is checked against the refunds that have not failed.
 Money leaves with a refund that is applied, which a provider's word may take out of COMPLETED
 again, so what has to fit in a capture is more: every refund that is applied or has not failed.
 For both sums this module says exactly which steps keep them within the capture.
 */
module BillingRefunds {
  import opened Results
  import opened Sums
  import opened BillingTables
  import opened BillingProtocol
  import Lease = BillingLease
  import Ledger = BillingLedger
  import Once = BillingOnce

  /** A refund claims its amount once it is applied, and before that until it fails. */
  function ClaimWeight(sid: nat): Refund -> int {
    (r: Refund) => if r.session == sid && (r.applied || !r.status.RefundFailed?) then r.amount else 0
  }

  function Claims(refunds: seq<Refund>, sid: nat): int { SumBy(refunds, ClaimWeight(sid)) }

  ghost predicate WithinCapture(t: Tables) {
    forall sid: nat :: Once.IsCompleted(t, sid) ==> Reserved(t.refunds, sid) <= t.sessions[sid].amount
  }

  ghost predicate ClaimsFit(t: Tables) {
    forall sid: nat :: Once.IsCompleted(t, sid) ==> Claims(t.refunds, sid) <= t.sessions[sid].amount
  }

  /** What holds over every run. */
  ghost predicate Sane(sys: System) { Ledger.LedgerInv(sys) && Once.OnceInv(sys.t) }

  // ----- steps that make a claim -----------------------------------------------------

  predicate IsFailed(t: Tables, rid: nat) { rid < |t.refunds| && t.refunds[rid].status.RefundFailed? }

  /** A provider answer or notification that takes a FAILED refund out of FAILED. */
  predicate Revives(t: Tables, step: Step) {
    match step
    case AnswerRefund(r, _, _) => IsFailed(t, r)
    case NotifyRefund(r, _, completed) => IsFailed(t, r) && completed
    case _ => false
  }

  /** A notification of failure that reaches a refund which is applied but no longer COMPLETED. */
  predicate Undoes(t: Tables, step: Step) {
    match step
    case NotifyRefund(r, _, completed) =>
      Once.IsApplied(t, r) && !t.refunds[r].status.RefundCompleted? && !completed
    case _ => false
  }

  datatype Claimed = Claimed(session: nat, amount: int)

  /** A request that gets a row of its own, or a revival of a refund that is not applied. */
  function NewClaim(t: Tables, step: Step): Option<Claimed> {
    match step
    case RequestRefund(s, key, amount, reason) =>
      if ReserveRefund(t, s, key, amount, reason).Ok? && FindRefund(t.refunds, key, 0).None?
      then Some(Claimed(s, amount)) else None
    case AnswerRefund(r, _, _) =>
      if Revives(t, step) && !t.refunds[r].applied then Some(Claimed(t.refunds[r].session, t.refunds[r].amount)) else None
    case NotifyRefund(r, _, _) =>
      if Revives(t, step) && !t.refunds[r].applied then Some(Claimed(t.refunds[r].session, t.refunds[r].amount)) else None
    case _ => None
  }

  /** The session's capture has room for the claim that the step makes, if it makes one. */
  predicate Roomy(t: Tables, step: Step) {
    var claim := NewClaim(t, step);
    claim.Some? && claim.value.session < |t.sessions| ==>
      claim.value.amount + Claims(t.refunds, claim.value.session) <= t.sessions[claim.value.session].amount
  }

  /** A revival fits beside what is reserved. */
  predicate Backed(t: Tables, step: Step) {
    Revives(t, step) && t.refunds[step.refund].session < |t.sessions| ==>
      var r := t.refunds[step.refund];
      r.amount + Reserved(t.refunds, r.session) <= t.sessions[r.session].amount
  }

  // ----- what a step adds to a sum over the refunds ----------------------------------

  predicate Touches(step: Step) {
    step.AnswerRefund? || step.NotifyRefund? || step.NameRefund? || step.Settle?
  }

  function Added(sys: System, step: Step, weight: Refund -> int): int {
    var rows, rows' := sys.t.refunds, Next(sys, step).t.refunds;
    if step.RequestRefund? && |rows'| > |rows| then weight(rows'[|rows|])
    else if Touches(step) && step.refund < |rows| <= |rows'| then weight(rows'[step.refund]) - weight(rows[step.refund])
    else 0
  }

  lemma QuietRefunds(sys: System, step: Step)
    requires Ledger.Positive(sys)
    requires !Touches(step) && !step.RequestRefund?
    ensures Next(sys, step).t.refunds == sys.t.refunds
  {
    if Lease.CreatorStep(step) {
      Ledger.CreatorStepFrame(sys, step);
    }
  }

  /** A step on a refund replaces its row and leaves session and amount alone. */
  lemma TouchedRow(sys: System, step: Step)
    requires Touches(step)
    ensures var rows, rows' := sys.t.refunds, Next(sys, step).t.refunds;
      if step.refund < |rows| then
        |rows'| == |rows| && rows' == rows[step.refund := rows'[step.refund]]
        && rows'[step.refund].session == rows[step.refund].session
        && rows'[step.refund].amount == rows[step.refund].amount
      else rows' == rows
  {
  }

  lemma RequestedRow(sys: System, step: Step)
    requires step.RequestRefund?
    ensures var rows, rows' := sys.t.refunds, Next(sys, step).t.refunds;
      if NewClaim(sys.t, step).Some?
      then rows' == rows + [Refund(step.session, step.key, step.amount, step.reason, RefundPending, None, false)]
      else rows' == rows
  {
  }

  lemma AddedToSum(sys: System, step: Step, weight: Refund -> int)
    requires Ledger.Positive(sys)
    ensures SumBy(Next(sys, step).t.refunds, weight) == SumBy(sys.t.refunds, weight) + Added(sys, step, weight)
  {
    var rows, rows' := sys.t.refunds, Next(sys, step).t.refunds;
    if step.RequestRefund? {
      RequestedRow(sys, step);
      if |rows'| > |rows| { SumByAppend(rows, rows'[|rows|], weight); }
    } else if Touches(step) {
      TouchedRow(sys, step);
      if step.refund < |rows| { SumByUpdate(rows, step.refund, rows'[step.refund], weight); }
    } else {
      QuietRefunds(sys, step);
    }
  }

  lemma ClaimAdded(sys: System, step: Step, sid: nat)
    requires Ledger.Positive(sys)
    ensures var claim := NewClaim(sys.t, step);
      if claim.Some? && claim.value.session == sid then Added(sys, step, ClaimWeight(sid)) == claim.value.amount
      else Added(sys, step, ClaimWeight(sid)) <= 0
  {
    if step.RequestRefund? { RequestedRow(sys, step); }
  }

  lemma ReservedAdded(sys: System, step: Step, sid: nat)
    requires Ledger.Positive(sys) && !step.RequestRefund?
    ensures if Revives(sys.t, step) && sys.t.refunds[step.refund].session == sid
      then Added(sys, step, ReservedWeight(sid)) == sys.t.refunds[step.refund].amount
      else Added(sys, step, ReservedWeight(sid)) <= 0
  {
  }

  // ----- what a step completes -------------------------------------------------------

  /** A completed session keeps its amount, and one that this step completes has no refunds yet. */
  lemma CompletedNext(sys: System, step: Step, sid: nat)
    requires Sane(sys) && Once.IsCompleted(Next(sys, step).t, sid)
    ensures var t, t' := sys.t, Next(sys, step).t;
      if Once.IsCompleted(t, sid) then t'.sessions[sid].amount == t.sessions[sid].amount
      else t'.sessions[sid].amount > 0 && t'.refunds == t.refunds && forall r :: 0 <= r < |t.refunds| ==> t.refunds[r].session != sid
  {
    Ledger.NextKeepsLedger(sys, step);
    if Once.IsCompleted(sys.t, sid) {
      Once.NextAbsorbs(sys, step);
    } else {
      if !step.Succeed? { OnlyCaptureCompletes(sys, step, sid); }
      QuietRefunds(sys, step);
    }
  }

  lemma OnlyCaptureCompletes(sys: System, step: Step, sid: nat)
    requires Ledger.Positive(sys) && !step.Succeed?
    ensures Once.IsCompleted(Next(sys, step).t, sid) == Once.IsCompleted(sys.t, sid)
  {
    var t, t' := sys.t, Next(sys, step).t;
    if Lease.CreatorStep(step) {
      Ledger.CreatorStepFrame(sys, step);
      assert forall s :: 0 <= s < |t.sessions| ==> t'.sessions[s] == t'.sessions[..|t.sessions|][s];
    } else if Lease.RowStep(step) {
      Lease.RowStepFrame(sys, step);
    }
  }

  lemma CompletedStays(sys: System, step: Step, sid: nat)
    requires Ledger.Positive(sys) && Once.IsCompleted(sys.t, sid)
    ensures Once.IsCompleted(Next(sys, step).t, sid)
    ensures Next(sys, step).t.sessions[sid].amount == sys.t.sessions[sid].amount
  {
    Once.NextAbsorbs(sys, step);
  }

  // ----- exactly the steps that keep the sums within the capture ---------------------

  lemma RoomyKeeps(sys: System, step: Step, sid: nat)
    requires Sane(sys) && ClaimsFit(sys.t) && Roomy(sys.t, step)
    requires Once.IsCompleted(Next(sys, step).t, sid)
    ensures Claims(Next(sys, step).t.refunds, sid) <= Next(sys, step).t.sessions[sid].amount
  {
    CompletedNext(sys, step, sid);
    if Once.IsCompleted(sys.t, sid) {
      AddedToSum(sys, step, ClaimWeight(sid));
      ClaimAdded(sys, step, sid);
    } else {
      SumByZero(sys.t.refunds, ClaimWeight(sid));
    }
  }

  lemma ClaimIsOnCompleted(sys: System, step: Step)
    requires Sane(sys) && NewClaim(sys.t, step).Some?
    ensures Once.IsCompleted(sys.t, NewClaim(sys.t, step).value.session)
  {
  }

  lemma CrowdedBreaks(sys: System, step: Step)
    requires Sane(sys) && !Roomy(sys.t, step)
    ensures !ClaimsFit(Next(sys, step).t)
  {
    var sid := NewClaim(sys.t, step).value.session;
    ClaimIsOnCompleted(sys, step);
    CompletedStays(sys, step, sid);
    AddedToSum(sys, step, ClaimWeight(sid));
    ClaimAdded(sys, step, sid);
  }

  /** A step keeps the claims on every capture within it if and only if it has room for its own. */
  lemma ClaimsStepExact(sys: System, step: Step)
    requires Sane(sys) && ClaimsFit(sys.t)
    ensures ClaimsFit(Next(sys, step).t) <==> Roomy(sys.t, step)
  {
    if Roomy(sys.t, step) {
      forall sid: nat | Once.IsCompleted(Next(sys, step).t, sid)
        ensures Claims(Next(sys, step).t.refunds, sid) <= Next(sys, step).t.sessions[sid].amount
      {
        RoomyKeeps(sys, step, sid);
      }
    } else {
      CrowdedBreaks(sys, step);
    }
  }

  /** A request is checked against what is reserved before it gets its row. */
  lemma RequestIsChecked(t: Tables, step: Step)
    requires step.RequestRefund? && NewClaim(t, step).Some?
    ensures step.session < |t.sessions| && step.amount + Reserved(t.refunds, step.session) <= t.sessions[step.session].amount
  {
  }

  lemma RequestAdded(sys: System, step: Step, sid: nat)
    requires step.RequestRefund?
    ensures Added(sys, step, ReservedWeight(sid))
         == if NewClaim(sys.t, step).Some? && step.session == sid then step.amount else 0
  {
    RequestedRow(sys, step);
  }

  lemma RequestReserves(sys: System, step: Step, sid: nat)
    requires step.RequestRefund? && WithinCapture(sys.t) && Ledger.Positive(sys) && Once.IsCompleted(sys.t, sid)
    ensures Reserved(Next(sys, step).t.refunds, sid) <= sys.t.sessions[sid].amount
  {
    AddedToSum(sys, step, ReservedWeight(sid));
    RequestAdded(sys, step, sid);
    if NewClaim(sys.t, step).Some? { RequestIsChecked(sys.t, step); }
  }

  lemma BackedKeeps(sys: System, step: Step, sid: nat)
    requires Sane(sys) && WithinCapture(sys.t) && Backed(sys.t, step)
    requires Once.IsCompleted(Next(sys, step).t, sid)
    ensures Reserved(Next(sys, step).t.refunds, sid) <= Next(sys, step).t.sessions[sid].amount
  {
    CompletedNext(sys, step, sid);
    if !Once.IsCompleted(sys.t, sid) {
      SumByZero(sys.t.refunds, ReservedWeight(sid));
    } else if step.RequestRefund? {
      RequestReserves(sys, step, sid);
    } else {
      AddedToSum(sys, step, ReservedWeight(sid));
      ReservedAdded(sys, step, sid);
    }
  }

  lemma UnbackedBreaks(sys: System, step: Step)
    requires Sane(sys) && !Backed(sys.t, step)
    ensures !WithinCapture(Next(sys, step).t)
  {
    var sid := sys.t.refunds[step.refund].session;
    assert Once.IsCompleted(sys.t, sid);
    CompletedStays(sys, step, sid);
    AddedToSum(sys, step, ReservedWeight(sid));
    ReservedAdded(sys, step, sid);
  }

  /** Reservations stay within every capture unless a revival finds its money reserved by others. */
  lemma ReservedStepExact(sys: System, step: Step)
    requires Sane(sys) && WithinCapture(sys.t)
    ensures WithinCapture(Next(sys, step).t) <==> Backed(sys.t, step)
  {
    if Backed(sys.t, step) {
      forall sid: nat | Once.IsCompleted(Next(sys, step).t, sid)
        ensures Reserved(Next(sys, step).t.refunds, sid) <= Next(sys, step).t.sessions[sid].amount
      {
        BackedKeeps(sys, step, sid);
      }
    } else {
      UnbackedBreaks(sys, step);
    }
  }

  // ----- runs ------------------------------------------------------------------------

  lemma NextKeepsSane(sys: System, step: Step)
    requires Sane(sys)
    ensures Sane(Next(sys, step))
  {
    Ledger.NextKeepsLedger(sys, step);
    Once.NextKeepsOnce(sys, step);
  }

  lemma {:induction false} SaneKept(sys: System, steps: seq<Step>)
    requires Sane(sys)
    ensures Sane(Run(sys, steps))
    decreases |steps|
  {
    if |steps| > 0 {
      NextKeepsSane(sys, steps[0]);
      SaneKept(Next(sys, steps[0]), steps[1..]);
    }
  }

  /** FAILED refunds stay FAILED. */
  predicate UnrevivedRun(sys: System, steps: seq<Step>)
    decreases |steps|
  {
    |steps| > 0 ==> !Revives(sys.t, steps[0]) && UnrevivedRun(Next(sys, steps[0]), steps[1..])
  }

  lemma {:induction false} ReservedKept(sys: System, steps: seq<Step>)
    requires Sane(sys) && WithinCapture(sys.t) && UnrevivedRun(sys, steps)
    ensures WithinCapture(Run(sys, steps).t)
    decreases |steps|
  {
    if |steps| > 0 {
      ReservedStepExact(sys, steps[0]);
      NextKeepsSane(sys, steps[0]);
      ReservedKept(Next(sys, steps[0]), steps[1..]);
    }
  }

  predicate RoomyRun(sys: System, steps: seq<Step>)
    decreases |steps|
  {
    |steps| > 0 ==> Roomy(sys.t, steps[0]) && RoomyRun(Next(sys, steps[0]), steps[1..])
  }

  /** The claims fit now and after every step. */
  ghost predicate ClaimsFitThroughout(sys: System, steps: seq<Step>)
    decreases |steps|
  {
    ClaimsFit(sys.t) && (|steps| > 0 ==> ClaimsFitThroughout(Next(sys, steps[0]), steps[1..]))
  }

  lemma {:induction false} ClaimsThroughoutExact(sys: System, steps: seq<Step>)
    requires Sane(sys) && ClaimsFit(sys.t)
    ensures ClaimsFitThroughout(sys, steps) <==> RoomyRun(sys, steps)
    decreases |steps|
  {
    if |steps| > 0 {
      var sys' := Next(sys, steps[0]);
      ClaimsStepExact(sys, steps[0]);
      NextKeepsSane(sys, steps[0]);
      if ClaimsFit(sys'.t) {
        ClaimsThroughoutExact(sys', steps[1..]);
      } else {
        assert !ClaimsFitThroughout(sys', steps[1..]);
      }
    }
  }

  // ----- runs in which failed refunds stay failed and applied ones stay applied ------

  ghost predicate AppliedStands(t: Tables) {
    forall r :: 0 <= r < |t.refunds| && t.refunds[r].applied ==> !t.refunds[r].status.RefundFailed?
  }

  predicate FaithfulRun(sys: System, steps: seq<Step>)
    decreases |steps|
  {
    |steps| > 0 ==>
      !Revives(sys.t, steps[0]) && !Undoes(sys.t, steps[0]) && FaithfulRun(Next(sys, steps[0]), steps[1..])
  }

  lemma NextKeepsStanding(sys: System, step: Step)
    requires Ledger.Positive(sys) && AppliedStands(sys.t) && !Undoes(sys.t, step)
    ensures AppliedStands(Next(sys, step).t)
  {
    if step.RequestRefund? {
      RequestedRow(sys, step);
    } else if Touches(step) {
      TouchedRow(sys, step);
    } else {
      QuietRefunds(sys, step);
    }
  }

  /** Then nothing is claimed beyond what is reserved. */
  lemma StandingClaims(t: Tables)
    requires AppliedStands(t) && WithinCapture(t)
    ensures ClaimsFit(t)
  {
    forall sid: nat ensures Claims(t.refunds, sid) == Reserved(t.refunds, sid) {
      SumByPointwise(t.refunds, ClaimWeight(sid), t.refunds, ReservedWeight(sid));
    }
  }

  lemma {:induction false} FaithfulFits(sys: System, steps: seq<Step>)
    requires Sane(sys) && WithinCapture(sys.t) && AppliedStands(sys.t) && FaithfulRun(sys, steps)
    ensures ClaimsFitThroughout(sys, steps)
    decreases |steps|
  {
    StandingClaims(sys.t);
    if |steps| > 0 {
      ReservedStepExact(sys, steps[0]);
      NextKeepsStanding(sys, steps[0]);
      NextKeepsSane(sys, steps[0]);
      FaithfulFits(Next(sys, steps[0]), steps[1..]);
    }
  }

  // ----- what is left of a capture ---------------------------------------------------

  function Unsettled(sid: nat): Refund -> int {
    (r: Refund) => ClaimWeight(sid)(r) - Once.AppliedWeight(sid)(r)
  }

  /** What is applied of a session, plus one more refund still to apply, was all claimed. */
  lemma AppliedWithinClaims(t: Tables, sid: nat)
    requires forall r :: 0 <= r < |t.refunds| ==> t.refunds[r].amount > 0
    ensures Once.AppliedOf(t, sid) <= Claims(t.refunds, sid)
    ensures forall r :: (0 <= r < |t.refunds| && t.refunds[r].session == sid
                         && !t.refunds[r].applied && !t.refunds[r].status.RefundFailed?)
                        ==> Once.AppliedOf(t, sid) + t.refunds[r].amount <= Claims(t.refunds, sid)
  {
    SumByAdd(t.refunds, Once.AppliedWeight(sid), Unsettled(sid), ClaimWeight(sid));
    SumByNonNegative(t.refunds, Unsettled(sid));
    forall r | 0 <= r < |t.refunds| ensures Unsettled(sid)(t.refunds[r]) <= SumBy(t.refunds, Unsettled(sid)) {
      SumByMember(t.refunds, Unsettled(sid), r);
    }
  }

  /** Every session leaves a non-negative share in its schedule, so the schedule covers each of them. */
  lemma ScheduleCoversSession(sys: System, sid: nat)
    requires Sane(sys) && ClaimsFit(sys.t) && Once.IsCompleted(sys.t, sid)
    requires sys.t.sessions[sid].schedule < |sys.t.schedules|
    ensures sys.t.sessions[sid].amount - Once.AppliedOf(sys.t, sid)
         <= sys.t.schedules[sys.t.sessions[sid].schedule].paid <= sys.t.invoice.paid
  {
    var t := sys.t;
    var i := t.sessions[sid].schedule;
    forall k: nat | k < |t.sessions| ensures 0 <= Once.ContributionTo(t, i)(k) {
      AppliedWithinClaims(t, k);
      if !Once.IsCompleted(t, k) { Once.NothingApplied(t, k); }
    }
    SumToMember(|t.sessions|, Once.ContributionTo(t, i), sid);
    SumByMember(t.schedules, Ledger.PaidWeight(), i);
  }
}
