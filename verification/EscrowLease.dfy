/** The release workers' one-minute lock, and what it is worth while workers keep to it. */
module EscrowLease {
  import opened Basics
  import opened Escrow
  import opened Results

  /** The attempt holds the lock of its release. */
  predicate Active(m: Market, w: int) {
    0 <= w < |m.attempts| && !m.attempts[w].Finished? && m.clock <= m.attempts[w].lockedUntil
  }

  ghost predicate LockInv(m: Market) {
    && (forall w :: Active(m, w) ==>
         && m.attempts[w].offer in m.releases
         && m.releases[m.attempts[w].offer].status.Processing?
         && m.releases[m.attempts[w].offer].lockedUntil == Some(m.attempts[w].lockedUntil))
    && (forall v, w :: Active(m, v) && Active(m, w) && m.attempts[v].offer == m.attempts[w].offer ==> v == w)
  }

  predicate Marks(m: Market, step: Step) {
    step.MarkRelease? && step.w < |m.attempts| && m.attempts[step.w].Told?
  }

  /** A worker that still acts does so before its lock runs out. */
  predicate Timely(m: Market, step: Step) { Marks(m, step) ==> m.clock <= m.attempts[step.w].lockedUntil }

  predicate TimelyRun(m: Market, steps: seq<Step>)
    decreases |steps|
  {
    |steps| == 0 || (Timely(m, steps[0]) && TimelyRun(Next(m, steps[0]), steps[1..]))
  }

  /** A worker that marks a release does so while no other one holds its lock. */
  ghost predicate Harmless(m: Market, step: Step) {
    Marks(m, step) ==>
      forall v :: Active(m, v) && v != step.w ==> m.attempts[v].offer != m.attempts[step.w].offer
  }

  ghost predicate HarmlessRun(m: Market, steps: seq<Step>)
    decreases |steps|
  {
    |steps| == 0 || (Harmless(m, steps[0]) && HarmlessRun(Next(m, steps[0]), steps[1..]))
  }

  lemma TimelyIsHarmless(m: Market, step: Step)
    requires LockInv(m) && Timely(m, step)
    ensures Harmless(m, step)
  {
    if Marks(m, step) { assert Active(m, step.w as int); }
  }

  /** What other steps do to releases: they add rows, and leave the workers alone. */
  lemma LockKeptAside(m: Market, m': Market)
    requires LockInv(m) && m'.attempts == m.attempts && m'.clock >= m.clock
    requires forall o :: o in m.releases ==> o in m'.releases && m'.releases[o] == m.releases[o]
    ensures LockInv(m')
  {
    forall w | Active(m', w)
      ensures
        && m'.attempts[w].offer in m'.releases
        && m'.releases[m'.attempts[w].offer].status.Processing?
        && m'.releases[m'.attempts[w].offer].lockedUntil == Some(m'.attempts[w].lockedUntil)
    {
      assert Active(m, w);
    }
    forall v, w | Active(m', v) && Active(m', w) && m'.attempts[v].offer == m'.attempts[w].offer ensures v == w {
      assert Active(m, v) && Active(m, w);
    }
  }

  lemma RequestRows(m: Market, r: nat, step: Step)
    requires MarketInv(m) && r < |m.requests|
    ensures var m' := RequestNext(m, r, step);
      m'.attempts == m.attempts && m'.clock == m.clock && ReleasesKept(m, m')
  {
    if step.Commit? {
      if m.requests[r].phase.Holding? { CommitFrame(m, r, m.requests[r].phase.hold, step.outcome); }
    } else {
      PhaseFrame(m, r, step);
    }
  }

  /** Every step but a worker's only adds release rows. */
  lemma OthersKeepRows(m: Market, step: Step)
    requires MarketInv(m) && !step.ClaimRelease? && !step.ProviderAnswers? && !step.MarkRelease?
    ensures Next(m, step).attempts == m.attempts && Next(m, step).clock >= m.clock && ReleasesKept(m, Next(m, step))
  {
    match step
    case AcceptOffer(o, seller) => if MayAccept(m, o, seller) { AcceptKeeps(m, o, seller); }
    case ExpireOffers(batch) => ExpireAllKeeps(m, batch);
    case Tick(_) =>
    case Ask(_) =>
    case Hold(r, _) => if r < |m.requests| { RequestRows(m, r, step); }
    case HoldFails(r) => if r < |m.requests| { RequestRows(m, r, step); }
    case Commit(r, _) => if r < |m.requests| { RequestRows(m, r, step); }
    case FindReplay(r, _) => if r < |m.requests| { RequestRows(m, r, step); }
    case FindOwner(r, _) => if r < |m.requests| { RequestRows(m, r, step); }
    case Compensate(r, _) => if r < |m.requests| { RequestRows(m, r, step); }
  }

  /** A release can only be claimed when no active attempt holds it. */
  lemma ClaimKeepsLock(m: Market, o: nat, now: Time, seen: nat)
    requires LockInv(m)
    ensures LockInv(Next(m, ClaimRelease(o, now, seen)))
  {
    if o in m.releases && now <= m.clock && Claimable(m.releases[o], now) {
      var m' := Next(m, ClaimRelease(o, now, seen));
      forall w | Active(m', w) && w < |m.attempts| ensures Active(m, w) && m.attempts[w].offer != o {}
      assert m'.attempts[|m.attempts|] == Calling(o, m.clock + LOCK_MS, seen);
    }
  }

  lemma AnswerKeepsLock(m: Market, w: nat, ok: bool)
    requires LockInv(m)
    ensures LockInv(Next(m, ProviderAnswers(w, ok)))
  {
    var m' := Next(m, ProviderAnswers(w, ok));
    forall v | Active(m', v)
      ensures Active(m, v) && m'.attempts[v].offer == m.attempts[v].offer
      ensures m'.attempts[v].lockedUntil == m.attempts[v].lockedUntil
    {}
  }

  lemma MarkKeepsLock(m: Market, w: nat, writeFails: bool)
    requires LockInv(m) && Harmless(m, MarkRelease(w, writeFails))
    ensures LockInv(Next(m, MarkRelease(w, writeFails)))
  {
    var m' := Next(m, MarkRelease(w, writeFails));
    if w < |m.attempts| && m.attempts[w].Told? {
      forall v | Active(m', v)
        ensures Active(m, v) && m'.attempts[v] == m.attempts[v]
        ensures m.attempts[w].offer in m.releases ==> m.attempts[v].offer != m.attempts[w].offer
      {
        assert Active(m, v);
      }
    }
  }

  lemma NextKeepsLock(m: Market, step: Step)
    requires MarketInv(m) && LockInv(m) && Harmless(m, step)
    ensures LockInv(Next(m, step))
  {
    match step
    case ClaimRelease(o, now, seen) => ClaimKeepsLock(m, o, now, seen);
    case ProviderAnswers(w, ok) => AnswerKeepsLock(m, w, ok);
    case MarkRelease(w, writeFails) => MarkKeepsLock(m, w, writeFails);
    case _ =>
      OthersKeepRows(m, step);
      LockKeptAside(m, Next(m, step));
  }

  lemma LateMarkBreaks(m: Market, w: nat, writeFails: bool)
    requires MarketInv(m) && LockInv(m) && !Harmless(m, MarkRelease(w, writeFails))
    ensures !LockInv(Next(m, MarkRelease(w, writeFails)))
  {
    var m' := Next(m, MarkRelease(w, writeFails));
    var v :| Active(m, v) && v != w && m.attempts[v].offer == m.attempts[w].offer;
    assert Active(m', v) && !m'.releases[m.attempts[v].offer].status.Processing?;
  }

  /** A step breaks the workers' lock if and only if it marks a release that another worker holds. */
  lemma LockStepExact(m: Market, step: Step)
    requires MarketInv(m) && LockInv(m)
    ensures LockInv(Next(m, step)) <==> Harmless(m, step)
  {
    if Harmless(m, step) {
      NextKeepsLock(m, step);
    } else {
      LateMarkBreaks(m, step.w, step.writeFails);
    }
  }

  lemma {:induction false} LockKept(m: Market, steps: seq<Step>)
    requires MarketInv(m) && LockInv(m) && HarmlessRun(m, steps)
    ensures LockInv(Run(m, steps)) && MarketInv(Run(m, steps))
    decreases |steps|
  {
    if |steps| > 0 {
      NextKeeps(m, steps[0]);
      NextKeepsLock(m, steps[0]);
      LockKept(Next(m, steps[0]), steps[1..]);
    }
  }

  lemma {:induction false} TimelyRunIsHarmless(m: Market, steps: seq<Step>)
    requires MarketInv(m) && LockInv(m) && TimelyRun(m, steps)
    ensures HarmlessRun(m, steps)
    decreases |steps|
  {
    if |steps| > 0 {
      TimelyIsHarmless(m, steps[0]);
      NextKeeps(m, steps[0]);
      NextKeepsLock(m, steps[0]);
      TimelyRunIsHarmless(Next(m, steps[0]), steps[1..]);
    }
  }

  // ----- a finished release ----------------------------------------------------------

  ghost predicate Done(m: Market, o: nat) { o in m.releases && m.releases[o].status.Released? }

  /** A worker that was refused, or whose RELEASED write fails, marks the offer's release for retry. */
  predicate MarksForRetry(m: Market, step: Step, o: nat) {
    && Marks(m, step) && m.attempts[step.w].offer == o
    && !(m.attempts[step.w].ok && !step.writeFails)
  }

  lemma MarkLeavesExact(m: Market, step: Step, o: nat)
    requires Done(m, o) && step.MarkRelease?
    ensures Done(Next(m, step), o) <==> !MarksForRetry(m, step, o)
  {
  }

  /** A finished release is not claimable, and an answer writes no row. */
  lemma ClaimsLeaveDone(m: Market, step: Step, o: nat)
    requires Done(m, o) && (step.ClaimRelease? || step.ProviderAnswers?)
    ensures Done(Next(m, step), o)
  {
  }

  /** A RELEASED row is left if and only if a worker marks it for retry. */
  lemma ReleasedLeftExact(m: Market, step: Step, o: nat)
    requires MarketInv(m) && Done(m, o)
    ensures Done(Next(m, step), o) <==> !MarksForRetry(m, step, o)
  {
    if step.MarkRelease? {
      MarkLeavesExact(m, step, o);
    } else if step.ClaimRelease? || step.ProviderAnswers? {
      ClaimsLeaveDone(m, step, o);
    } else {
      OthersKeepRows(m, step);
    }
  }

  /** A worker within its lock holds the row, which is then not finished. */
  lemma TimelyNeverRetriesDone(m: Market, step: Step, o: nat)
    requires LockInv(m) && Timely(m, step) && Done(m, o)
    ensures !MarksForRetry(m, step, o)
  {
    if Marks(m, step) { assert Active(m, step.w as int); }
  }

  ghost predicate DoneThroughout(m: Market, steps: seq<Step>, o: nat)
    decreases |steps|
  {
    Done(m, o) && (|steps| > 0 ==> DoneThroughout(Next(m, steps[0]), steps[1..], o))
  }

  predicate NeverRetried(m: Market, steps: seq<Step>, o: nat)
    decreases |steps|
  {
    |steps| > 0 ==> !MarksForRetry(m, steps[0], o) && NeverRetried(Next(m, steps[0]), steps[1..], o)
  }

  lemma {:induction false} DoneThroughoutExact(m: Market, steps: seq<Step>, o: nat)
    requires MarketInv(m) && Done(m, o)
    ensures DoneThroughout(m, steps, o) <==> NeverRetried(m, steps, o)
    decreases |steps|
  {
    if |steps| > 0 {
      ReleasedLeftExact(m, steps[0], o);
      NextKeeps(m, steps[0]);
      if !MarksForRetry(m, steps[0], o) {
        DoneThroughoutExact(Next(m, steps[0]), steps[1..], o);
      } else {
        assert !DoneThroughout(Next(m, steps[0]), steps[1..], o);
      }
    }
  }

  lemma {:induction false} TimelyKeepsDone(m: Market, steps: seq<Step>, o: nat)
    requires MarketInv(m) && LockInv(m) && TimelyRun(m, steps) && Done(m, o)
    ensures NeverRetried(m, steps, o) && Done(Run(m, steps), o)
    decreases |steps|
  {
    if |steps| > 0 {
      TimelyNeverRetriesDone(m, steps[0], o);
      ReleasedLeftExact(m, steps[0], o);
      TimelyIsHarmless(m, steps[0]);
      NextKeeps(m, steps[0]);
      NextKeepsLock(m, steps[0]);
      TimelyKeepsDone(Next(m, steps[0]), steps[1..], o);
    }
  }

  // ----- main results ----------------------------------------------------------------

  /** At most one worker at a time acts on a release, unless one marks a release that another holds. */
  lemma OneWorkerAtATime(start: Market, steps: seq<Step>, v: nat, w: nat)
    requires Opened(start) && HarmlessRun(start, steps)
    ensures var m := Run(start, steps);
      Active(m, v) && Active(m, w) && m.attempts[v].offer == m.attempts[w].offer ==> v == w
  {
    LockKept(start, steps);
  }

  /** Workers that finish within their lock are such a run. */
  lemma TimelyWorkersAreHarmless(start: Market, steps: seq<Step>)
    requires Opened(start) && TimelyRun(start, steps)
    ensures HarmlessRun(start, steps)
  {
    TimelyRunIsHarmless(start, steps);
  }

  /** Once released, always released, while workers finish within their lock. */
  lemma ReleasedIsFinal(start: Market, before: seq<Step>, after: seq<Step>, o: nat)
    requires Opened(start) && TimelyRun(start, before) && TimelyRun(Run(start, before), after)
    ensures Done(Run(start, before), o) ==> Done(Run(Run(start, before), after), o)
  {
    TimelyRunIsHarmless(start, before);
    LockKept(start, before);
    if Done(Run(start, before), o) { TimelyKeepsDone(Run(start, before), after, o); }
  }

  /** After any run at all, a RELEASED row stays so exactly as long as no worker marks it for retry. */
  lemma ReleasedStaysExact(start: Market, before: seq<Step>, after: seq<Step>, o: nat)
    requires Opened(start) && Done(Run(start, before), o)
    ensures DoneThroughout(Run(start, before), after, o) <==> NeverRetried(Run(start, before), after, o)
  {
    InvKept(start, before);
    DoneThroughoutExact(Run(start, before), after, o);
  }

  lemma {:induction false} PowerGrows(n: nat, k: nat)
    requires n <= k
    ensures Power2(n) <= Power2(k)
    decreases k
  {
    if n < k {
      PowerGrows(n, k - 1);
    }
  }

  /** Retries back off from two seconds to about seventeen minutes; the hour's cap is never reached. */
  lemma RetryDelayBounds(attempts: nat)
    ensures 2_000 <= RetryDelay(attempts) <= 1_024_000
    ensures RetryDelay(attempts) <= RetryDelay(attempts + 1)
    ensures RetryDelay(attempts) == Power2(Min(attempts + 1, 10)) * 1_000
  {
    assert Power2(1) == 2 && Power2(2) == 4 && Power2(4) == 16 && Power2(6) == 64 && Power2(8) == 256 && Power2(10) == 1_024;
    PowerGrows(1, Min(attempts + 1, 10));
    PowerGrows(Min(attempts + 1, 10), 10);
    PowerGrows(Min(attempts + 1, 10), Min(attempts + 2, 10));
  }
}
