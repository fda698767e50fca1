/**
 The checkout lease. If creators finish within their lease and success is reported only
 for sessions that can still be paid, a schedule never has two live sessions, nothing
 shrinks the balance under a live session, and a captured amount always fits.
 */
module BillingLease {
  import opened Results
  import opened Sums
  import opened BillingTables
  import opened BillingProtocol

  function LockOf(sys: System, i: nat): Lock
    requires i < |sys.t.schedules|
  {
    sys.t.schedules[i].lock
  }

  /** A creator that may still insert a session under its key. */
  predicate Potent(sys: System, c: nat) {
    && c < |sys.creators|
    && (sys.creators[c].phase.Locked? || sys.creators[c].phase.Priced? || sys.creators[c].phase.Cleared?)
    && !SessionKeyUsed(sys.t.sessions, sys.creators[c].key)
  }

  ghost predicate Shaped(sys: System) {
    && (forall c :: 0 <= c < |sys.creators| ==> sys.creators[c].schedule < |sys.t.schedules|)
    && (forall s :: 0 <= s < |sys.t.sessions| ==> sys.t.sessions[s].schedule < |sys.t.schedules|)
    && (forall r :: 0 <= r < |sys.t.refunds| ==> sys.t.refunds[r].amount > 0)
  }

  ghost predicate KeysUnique(sessions: seq<Session>) {
    forall a, b :: 0 <= a < b < |sessions| ==> sessions[a].key != sessions[b].key
  }

  ghost predicate LeasesCurrent(sys: System) {
    forall c: nat :: Active(sys, c) ==> sys.clock < sys.creators[c].leaseEnd
  }

  /** The lock a live session keeps: its own expiry, or the lease of the creator about to retain it. */
  ghost predicate Covered(sys: System, sid: nat)
    requires sid < |sys.t.sessions| && sys.t.sessions[sid].schedule < |sys.t.schedules|
  {
    var lock := LockOf(sys, sys.t.sessions[sid].schedule);
    && lock.Held?
    && lock.key == sys.t.sessions[sid].key
    && (lock.until == sys.t.sessions[sid].expiresAt
        || exists c: nat :: Active(sys, c) && sys.creators[c].phase == Inserted(sid)
                            && sys.creators[c].leaseEnd == lock.until)
  }

  ghost predicate LiveCovered(sys: System)
    requires Shaped(sys)
  {
    forall s: nat :: Live(sys, s) ==> Covered(sys, s)
  }

  ghost predicate PotentHold(sys: System)
    requires Shaped(sys)
  {
    forall c: nat :: Potent(sys, c) ==>
      LockOf(sys, sys.creators[c].schedule) == Held(sys.creators[c].key, sys.creators[c].leaseEnd)
  }

  ghost predicate PotentAlone(sys: System) {
    forall a: nat, b: nat :: Potent(sys, a) && Potent(sys, b) && a != b ==>
      sys.creators[a].schedule != sys.creators[b].schedule
  }

  ghost predicate LiveOwned(sys: System) {
    forall s: nat, c: nat :: Live(sys, s) && Active(sys, c)
      && sys.creators[c].schedule == sys.t.sessions[s].schedule
      && sys.creators[c].key == sys.t.sessions[s].key
      ==> sys.creators[c].phase == Inserted(s)
  }

  ghost predicate Affordable(sys: System)
    requires Shaped(sys)
  {
    && (forall s: nat :: Live(sys, s) ==>
         sys.t.sessions[s].amount <= sys.t.schedules[sys.t.sessions[s].schedule].Remaining())
    && (forall c: nat :: Potent(sys, c) && !sys.creators[c].phase.Locked? ==>
         sys.creators[c].phase.amount <= sys.t.schedules[sys.creators[c].schedule].Remaining())
  }

  /** A creator past its insert points at a session that carries its key. */
  ghost predicate Pointed(sys: System) {
    forall c: nat :: Active(sys, c) ==>
      match sys.creators[c].phase
      case Inserted(s) =>
        s < |sys.t.sessions| && sys.t.sessions[s].key == sys.creators[c].key
        && sys.t.sessions[s].schedule == sys.creators[c].schedule
      case Replayed(s, _) =>
        s < |sys.t.sessions| && sys.t.sessions[s].key == sys.creators[c].key
      case _ => true
  }

  ghost predicate LeaseInv(sys: System) {
    && Shaped(sys)
    && Pointed(sys)
    && KeysUnique(sys.t.sessions)
    && LeasesCurrent(sys)
    && LiveCovered(sys)
    && PotentHold(sys)
    && PotentAlone(sys)
    && LiveOwned(sys)
    && Affordable(sys)
  }

  // ----- the steps that keep it ------------------------------------------------------

  /** No live session on the schedule, and no creator who may still insert one. */
  ghost predicate Idle(sys: System, i: nat) {
    && (forall s: nat :: Live(sys, s) ==> sys.t.sessions[s].schedule != i)
    && (forall c: nat :: Potent(sys, c) ==> sys.creators[c].schedule != i)
  }

  /** The session's lock lasts without creator `c`: it runs to the session's expiry, or another creator is to retain it. */
  ghost predicate LastsWithout(sys: System, sid: nat, c: nat) {
    && sid < |sys.t.sessions| && sys.t.sessions[sid].schedule < |sys.t.schedules|
    && var lock := LockOf(sys, sys.t.sessions[sid].schedule);
       lock.Held? && (lock.until == sys.t.sessions[sid].expiresAt
         || exists k: nat :: k != c && Active(sys, k) && sys.creators[k].phase == Inserted(sid)
                             && sys.creators[k].leaseEnd == lock.until)
  }

  /**
   A creator must not outlive its lease, give up the lock of the live session it inserted, or die
   while that lock depends on it; a success must be for a live session, refused, or for a
   schedule that nobody else is about to use.
   */
  ghost predicate Harmless(sys: System, step: Step) {
    match step
    case Tick(ms) => forall c: nat :: Active(sys, c) ==> sys.clock + ms < sys.creators[c].leaseEnd
    case Abandon(c) => Active(sys, c) && sys.creators[c].phase.Inserted? ==> !Live(sys, sys.creators[c].phase.session)
    case Crash(c) =>
      Active(sys, c) && sys.creators[c].phase.Inserted? && Live(sys, sys.creators[c].phase.session) ==>
        LastsWithout(sys, sys.creators[c].phase.session, c)
    case Succeed(s, mark, chart) =>
      || Live(sys, s) || Allocated(sys.t.allocations, s) || Capture(sys.t, s, mark, chart).Err?
      || Idle(sys, sys.t.sessions[s].schedule)
    case _ => true
  }

  ghost predicate HarmlessRun(sys: System, steps: seq<Step>)
    decreases |steps|
  {
    |steps| > 0 ==> Harmless(sys, steps[0]) && HarmlessRun(Next(sys, steps[0]), steps[1..])
  }

  /**
   The plain assumption: no creator outlives its lease, a creator that inserted a session goes
   on to retain it, and success is reported for a live session (or repeated for an allocated one).
   */
  ghost predicate Timely(sys: System, step: Step) {
    match step
    case Tick(ms) => forall c: nat :: Active(sys, c) ==> sys.clock + ms < sys.creators[c].leaseEnd
    case Abandon(c) => Active(sys, c) && sys.creators[c].phase.Inserted? ==> !Live(sys, sys.creators[c].phase.session)
    case Crash(c) => Active(sys, c) && sys.creators[c].phase.Inserted? ==> !Live(sys, sys.creators[c].phase.session)
    case Succeed(s, _, _) => Live(sys, s) || Allocated(sys.t.allocations, s) || s >= |sys.t.sessions|
    case _ => true
  }

  ghost predicate TimelyRun(sys: System, steps: seq<Step>)
    decreases |steps|
  {
    |steps| > 0 ==> Timely(sys, steps[0]) && TimelyRun(Next(sys, steps[0]), steps[1..])
  }

  lemma {:induction false} TimelyIsHarmless(sys: System, steps: seq<Step>)
    requires TimelyRun(sys, steps)
    ensures HarmlessRun(sys, steps)
    decreases |steps|
  {
    if |steps| > 0 { TimelyIsHarmless(Next(sys, steps[0]), steps[1..]); }
  }

  // ----- consequences of the invariant ----------------------------------------------

  lemma OneLiveSession(sys: System, a: nat, b: nat)
    requires LeaseInv(sys) && Live(sys, a) && Live(sys, b)
    requires sys.t.sessions[a].schedule == sys.t.sessions[b].schedule
    ensures a == b
  {
    assert Covered(sys, a) && Covered(sys, b);
  }

  lemma LiveExcludesPotent(sys: System, s: nat, c: nat)
    requires LeaseInv(sys) && Live(sys, s) && Potent(sys, c)
    ensures sys.creators[c].schedule != sys.t.sessions[s].schedule
  {
    assert Covered(sys, s);
    assert sys.t.sessions[s] in sys.t.sessions;
  }

  lemma HeldUntilLater(sys: System, i: nat)
    requires LeaseInv(sys) && i < |sys.t.schedules|
    requires (exists s: nat :: Live(sys, s) && sys.t.sessions[s].schedule == i)
          || (exists c: nat :: Potent(sys, c) && sys.creators[c].schedule == i)
    ensures !sys.t.schedules[i].Lockable(sys.clock)
  {
    if s: nat :| Live(sys, s) && sys.t.sessions[s].schedule == i {
      assert Covered(sys, s);
    } else {
      var c: nat :| Potent(sys, c) && sys.creators[c].schedule == i;
      assert Active(sys, c);
    }
  }

  // ----- steps that leave locks and sessions alone -----------------------------------

  /** Balances may only shrink on schedules whose lock is free or has lapsed. */
  lemma FrameKeepsLease(sys: System, t': Tables)
    requires LeaseInv(sys)
    requires t'.sessions == sys.t.sessions
    requires |t'.schedules| == |sys.t.schedules|
    requires forall i :: 0 <= i < |t'.schedules| ==> t'.schedules[i].lock == sys.t.schedules[i].lock
    requires forall i :: 0 <= i < |t'.schedules| ==>
      sys.t.schedules[i].Lockable(sys.clock) || t'.schedules[i].Remaining() >= sys.t.schedules[i].Remaining()
    requires forall r :: 0 <= r < |t'.refunds| ==> t'.refunds[r].amount > 0
    ensures LeaseInv(sys.(t := t'))
  {
    var sys' := sys.(t := t');
    assert forall s: nat :: Live(sys', s) == Live(sys, s);
    assert forall c: nat :: Potent(sys', c) == Potent(sys, c);
    assert forall c: nat :: Active(sys', c) == Active(sys, c);
    forall s: nat | Live(sys', s)
      ensures Covered(sys', s)
      ensures t'.sessions[s].amount <= t'.schedules[t'.sessions[s].schedule].Remaining()
    {
      assert Covered(sys, s);
      HeldUntilLater(sys, sys.t.sessions[s].schedule);
    }
    forall c: nat | Potent(sys', c)
      ensures !sys.creators[c].phase.Locked? ==>
        sys.creators[c].phase.amount <= t'.schedules[sys.creators[c].schedule].Remaining()
    {
      HeldUntilLater(sys, sys.creators[c].schedule);
    }
  }

  // ----- steps of a creator ----------------------------------------------------------

  lemma AcquiredElsewhere(sys: System, i: nat, key: Key, s: nat)
    requires LeaseInv(sys) && AcquireLock(sys.t, i, key, sys.clock).Some? && Live(sys, s)
    ensures sys.t.sessions[s].schedule != i && Covered(StepAcquire(sys, i, key), s)
  {
    var sys' := StepAcquire(sys, i, key);
    assert Covered(sys, s);
    HeldUntilLater(sys, sys.t.sessions[s].schedule);
    if c: nat :| Active(sys, c) && sys.creators[c].phase == Inserted(s)
                 && sys.creators[c].leaseEnd == LockOf(sys, sys.t.sessions[s].schedule).until {
      assert Active(sys', c);
    }
  }

  lemma AcquireKeepsLease(sys: System, i: nat, key: Key)
    requires LeaseInv(sys)
    ensures LeaseInv(StepAcquire(sys, i, key))
  {
    if AcquireLock(sys.t, i, key, sys.clock).Some? {
      var sys' := StepAcquire(sys, i, key);
      var n := |sys.creators|;
      forall s: nat | Live(sys', s) ensures Covered(sys', s) && sys.t.sessions[s].schedule != i {
        AcquiredElsewhere(sys, i, key, s);
      }
      forall c: nat | Potent(sys', c) && c != n ensures Potent(sys, c) && sys.creators[c].schedule != i {
        HeldUntilLater(sys, sys.creators[c].schedule);
      }
    }
  }

  lemma AdvanceKeepsLease(sys: System, c: nat, phase: Phase)
    requires LeaseInv(sys) && Active(sys, c)
    requires sys.creators[c].phase.Locked? || sys.creators[c].phase.Priced?
    requires phase.Priced? || phase.Cleared?
    requires Potent(sys, c) ==> phase.amount <= sys.t.schedules[sys.creators[c].schedule].Remaining()
    ensures LeaseInv(SetPhase(sys, c, phase))
  {
    var sys' := SetPhase(sys, c, phase);
    forall k: nat ensures Potent(sys', k) == Potent(sys, k) && Active(sys', k) == Active(sys, k) {}
    forall s: nat | Live(sys', s) ensures Covered(sys', s) {
      assert Live(sys, s) && Covered(sys, s);
      if k: nat :| Active(sys, k) && sys.creators[k].phase == Inserted(s)
                   && sys.creators[k].leaseEnd == LockOf(sys, sys.t.sessions[s].schedule).until {
        assert Active(sys', k);
      }
    }
  }

  /** A creator may stop, unless it still has to retain the lock of the live session it inserted. */
  lemma EndKeepsLease(sys: System, c: nat)
    requires LeaseInv(sys) && Active(sys, c)
    requires sys.creators[c].phase.Inserted? && Live(sys, sys.creators[c].phase.session) ==>
      LastsWithout(sys, sys.creators[c].phase.session, c)
    ensures LeaseInv(SetPhase(sys, c, Ended))
  {
    var sys' := SetPhase(sys, c, Ended);
    forall k: nat ensures Potent(sys', k) ==> Potent(sys, k)
                  ensures Active(sys', k) == (Active(sys, k) && k != c) {}
    forall s: nat | Live(sys', s) ensures Covered(sys', s) {
      assert Live(sys, s) && Covered(sys, s);
      if k: nat :| Active(sys, k) && sys.creators[k].phase == Inserted(s)
                   && sys.creators[k].leaseEnd == LockOf(sys, sys.t.sessions[s].schedule).until {
        if k != c { assert Active(sys', k); }
      }
      if s < |sys.t.sessions| && sys.creators[c].phase == Inserted(s) {
        if j: nat :| j != c && Active(sys, j) && sys.creators[j].phase == Inserted(s)
                     && sys.creators[j].leaseEnd == LockOf(sys, sys.t.sessions[s].schedule).until {
          assert Active(sys', j);
        }
      }
    }
  }

  lemma ReplayKeepsLease(sys: System, c: nat, sid: nat, pending: bool)
    requires LeaseInv(sys) && Active(sys, c) && sys.creators[c].phase.Cleared?
    requires sid < |sys.t.sessions| && sys.t.sessions[sid].key == sys.creators[c].key
    ensures LeaseInv(SetPhase(sys, c, Replayed(sid, pending)))
  {
    var sys' := SetPhase(sys, c, Replayed(sid, pending));
    assert sys.t.sessions[sid] in sys.t.sessions;
    forall k: nat ensures Potent(sys', k) ==> Potent(sys, k)
                  ensures Active(sys', k) == Active(sys, k) {}
    forall s: nat | Live(sys', s) ensures Covered(sys', s) {
      assert Live(sys, s) && Covered(sys, s);
      if k: nat :| Active(sys, k) && sys.creators[k].phase == Inserted(s)
                   && sys.creators[k].leaseEnd == LockOf(sys, sys.t.sessions[s].schedule).until {
        assert Active(sys', k);
      }
    }
    forall s: nat, k: nat | Live(sys', s) && Active(sys', k)
      && sys'.creators[k].schedule == sys'.t.sessions[s].schedule
      && sys'.creators[k].key == sys'.t.sessions[s].key
      ensures sys'.creators[k].phase == Inserted(s)
    {
      assert Live(sys, s) && Active(sys, k);
    }
  }

  /** Clearing or moving a lock nobody relies on is harmless. */
  lemma RelockKeepsLease(sys: System, i: nat, lock: Lock)
    requires LeaseInv(sys) && i < |sys.t.schedules|
    requires forall s: nat :: Live(sys, s) ==> sys.t.sessions[s].schedule != i
    requires forall c: nat :: Potent(sys, c) ==> sys.creators[c].schedule != i
    ensures LeaseInv(sys.(t := sys.t.(schedules := sys.t.schedules[i := sys.t.schedules[i].(lock := lock)])))
  {
    var sys' := sys.(t := sys.t.(schedules := sys.t.schedules[i := sys.t.schedules[i].(lock := lock)]));
    forall k: nat ensures Potent(sys', k) == Potent(sys, k) && Active(sys', k) == Active(sys, k)
                       && Live(sys', k) == Live(sys, k) {}
    forall s: nat | Live(sys', s) ensures Covered(sys', s) {
      assert Live(sys, s) && Covered(sys, s);
    }
  }

  lemma ReleaseKeepsLease(sys: System, i: nat, key: Key)
    requires LeaseInv(sys) && i < |sys.t.schedules|
    requires forall s: nat :: Live(sys, s) && sys.t.sessions[s].schedule == i ==> sys.t.sessions[s].key != key
    requires forall c: nat :: Potent(sys, c) && sys.creators[c].schedule == i ==> sys.creators[c].key != key
    ensures LeaseInv(sys.(t := ReleaseLock(sys.t, i, key)))
  {
    if HoldsLock(sys.t, i, key) {
      forall s: nat | Live(sys, s) ensures sys.t.sessions[s].schedule != i {
        assert Covered(sys, s);
      }
      RelockKeepsLease(sys, i, Free);
    }
  }

  /** The `finally` block only ever clears the creator's own lock. */
  lemma DropKeepsLease(sys: System, c: nat)
    requires LeaseInv(sys) && Active(sys, c)
    requires sys.creators[c].phase.Inserted? ==> !Live(sys, sys.creators[c].phase.session)
    ensures LeaseInv(Drop(sys, c))
  {
    var creator := sys.creators[c];
    if Potent(sys, c) {
      var ended := SetPhase(sys, c, Ended);
      EndKeepsLease(sys, c);
      forall k: nat ensures Live(ended, k) == Live(sys, k)
                    ensures Potent(ended, k) ==> Potent(sys, k) && k != c {}
      forall s: nat | Live(ended, s) && sys.t.sessions[s].schedule == creator.schedule ensures false {
        LiveExcludesPotent(sys, s, c);
      }
      ReleaseKeepsLease(ended, creator.schedule, creator.key);
    } else {
      forall s: nat | Live(sys, s) && sys.t.sessions[s].schedule == creator.schedule
        ensures sys.t.sessions[s].key != creator.key {}
      forall k: nat | Potent(sys, k) && sys.creators[k].schedule == creator.schedule
        ensures sys.creators[k].key != creator.key {}
      ReleaseKeepsLease(sys, creator.schedule, creator.key);
      EndKeepsLease(sys.(t := ReleaseLock(sys.t, creator.schedule, creator.key)), c);
    }
  }

  lemma InsertKeepsLease(sys: System, c: nat, expiresAt: Time)
    requires LeaseInv(sys)
    ensures LeaseInv(StepInsert(sys, c, expiresAt))
  {
    if Active(sys, c) && sys.creators[c].phase.Cleared? {
      var creator := sys.creators[c];
      if SessionKeyUsed(sys.t.sessions, creator.key) {
        var found := FindSession(sys.t.sessions, creator.key, 0);
        assert found.Some?;
        ReplayKeepsLease(sys, c, found.value, sys.t.sessions[found.value].status.Pending?);
      } else {
        InsertFreshKeepsLease(sys, c, expiresAt);
      }
    }
  }

  lemma FreshKeyUnique(sessions: seq<Session>, row: Session)
    requires KeysUnique(sessions) && !SessionKeyUsed(sessions, row.key)
    ensures KeysUnique(sessions + [row])
  {
    assert forall a :: 0 <= a < |sessions| ==> sessions[a] in sessions;
  }

  lemma StillCovered(sys: System, c: nat, expiresAt: Time, s: nat)
    requires LeaseInv(sys) && Active(sys, c) && sys.creators[c].phase.Cleared?
    requires !SessionKeyUsed(sys.t.sessions, sys.creators[c].key)
    requires Live(sys, s) && sys.t.sessions[s].schedule != sys.creators[c].schedule
    ensures var sys' := StepInsert(sys, c, expiresAt);
      s < |sys'.t.sessions| && sys'.t.sessions[s].schedule < |sys'.t.schedules| && Covered(sys', s)
  {
    var sys' := StepInsert(sys, c, expiresAt);
    assert Covered(sys, s);
    if k: nat :| Active(sys, k) && sys.creators[k].phase == Inserted(s)
                 && sys.creators[k].leaseEnd == LockOf(sys, sys.t.sessions[s].schedule).until {
      assert Active(sys', k) && sys'.creators[k] == sys.creators[k];
    }
  }

  lemma InsertFreshKeepsLease(sys: System, c: nat, expiresAt: Time)
    requires LeaseInv(sys) && Active(sys, c) && sys.creators[c].phase.Cleared?
    requires !SessionKeyUsed(sys.t.sessions, sys.creators[c].key)
    ensures LeaseInv(StepInsert(sys, c, expiresAt))
  {
    var sys' := StepInsert(sys, c, expiresAt);
    var creator := sys.creators[c];
    var n := |sys.t.sessions|;
    assert Potent(sys, c);
    assert sys'.t.sessions[n] in sys'.t.sessions;
    assert forall s :: s in sys.t.sessions ==> s in sys'.t.sessions;
    forall k: nat ensures Active(sys', k) == Active(sys, k)
                  ensures Potent(sys', k) ==> Potent(sys, k) && k != c && sys.creators[k].schedule != creator.schedule {}
    forall s: nat | Live(sys', s) && s != n ensures Live(sys, s) && sys.t.sessions[s].schedule != creator.schedule {
      LiveExcludesPotent(sys, s, c);
    }
    FreshKeyUnique(sys.t.sessions, sys'.t.sessions[n]);
    forall s: nat | Live(sys', s) ensures Covered(sys', s) {
      if s == n {
        assert Active(sys', c);
      } else {
        StillCovered(sys, c, expiresAt, s);
      }
    }
    forall k: nat | Active(sys', k) && k != c && sys.creators[k].schedule == creator.schedule
                    && sys.creators[k].key == creator.key
      ensures false {}
  }

  lemma RetainKeepsLease(sys: System, c: nat)
    requires LeaseInv(sys)
    ensures LeaseInv(StepRetain(sys, c))
  {
    if Active(sys, c) && (sys.creators[c].phase.Inserted? || (sys.creators[c].phase.Replayed? && sys.creators[c].phase.pending)) {
      var creator := sys.creators[c];
      var i := creator.schedule;
      var sid := creator.phase.session;
      var until := sys.t.sessions[sid].expiresAt;
      assert sys.t.sessions[sid] in sys.t.sessions;
      if !HoldsLock(sys.t, i, creator.key) {
        DropKeepsLease(sys, c);
      } else {
        RelockForSession(sys, i, sid);
        EndKeepsLease(sys.(t := RetainLock(sys.t, i, creator.key, until).value), c);
      }
    }
  }

  /** Moving a lock held under a session's key to that session's expiry. */
  lemma RelockForSession(sys: System, i: nat, sid: nat)
    requires LeaseInv(sys) && sid < |sys.t.sessions|
    requires HoldsLock(sys.t, i, sys.t.sessions[sid].key)
    ensures LeaseInv(sys.(t := RetainLock(sys.t, i, sys.t.sessions[sid].key, sys.t.sessions[sid].expiresAt).value))
  {
    var key := sys.t.sessions[sid].key;
    var sys' := sys.(t := RetainLock(sys.t, i, key, sys.t.sessions[sid].expiresAt).value);
    assert sys.t.sessions[sid] in sys.t.sessions;
    forall k: nat ensures Potent(sys', k) == Potent(sys, k) && Active(sys', k) == Active(sys, k)
                       && Live(sys', k) == Live(sys, k) {}
    forall k: nat | Potent(sys, k) ensures sys.creators[k].schedule != i {}
    forall s: nat | Live(sys', s) ensures Covered(sys', s) {
      assert Live(sys, s) && Covered(sys, s);
      if sys.t.sessions[s].schedule == i {
        assert s == sid;
      }
    }
  }

  lemma TickKeepsLease(sys: System, ms: nat)
    requires LeaseInv(sys) && Harmless(sys, Tick(ms))
    ensures LeaseInv(Next(sys, Tick(ms)))
  {
    var sys' := Next(sys, Tick(ms));
    forall k: nat ensures Potent(sys', k) == Potent(sys, k) && Active(sys', k) == Active(sys, k)
                       && (Live(sys', k) ==> Live(sys, k)) {}
    forall s: nat | Live(sys', s) ensures Covered(sys', s) {
      assert Live(sys, s) && Covered(sys, s);
    }
  }

  // ----- steps of webhooks and the sweeper -------------------------------------------

  /** Sessions may leave PENDING at any time: that only weakens what has to be covered. */
  lemma SettlingKeepsLease(sys: System, sessions: seq<Session>)
    requires LeaseInv(sys) && |sessions| == |sys.t.sessions|
    requires forall s :: 0 <= s < |sessions| ==>
      sessions[s] == sys.t.sessions[s].(status := sessions[s].status)
    requires forall s :: 0 <= s < |sessions| && sessions[s].status.Pending? ==> sys.t.sessions[s].status.Pending?
    ensures LeaseInv(sys.(t := sys.t.(sessions := sessions)))
  {
    var sys' := sys.(t := sys.t.(sessions := sessions));
    forall key ensures SessionKeyUsed(sessions, key) == SessionKeyUsed(sys.t.sessions, key) {
      SameKeysUsed(sys.t.sessions, sessions, key);
    }
    forall k: nat ensures Potent(sys', k) == Potent(sys, k) && Active(sys', k) == Active(sys, k)
                       && (Live(sys', k) ==> Live(sys, k)) {}
    forall s: nat | Live(sys', s) ensures Covered(sys', s) {
      assert Live(sys, s) && Covered(sys, s);
    }
  }

  /** A capture frees the lock of its schedule, once its session no longer counts as live. */
  lemma CaptureFreesLock(sys: System, sid: nat, mark: Option<nat>, chart: bool)
    requires LeaseInv(sys) && !Allocated(sys.t.allocations, sid) && Capture(sys.t, sid, mark, chart).Ok?
    requires Idle(
      sys.(t := sys.t.(sessions := sys.t.sessions[sid := sys.t.sessions[sid].(status := Completed)])),
      sys.t.sessions[sid].schedule)
    ensures LeaseInv(Next(sys, Succeed(sid, mark, chart)))
  {
    var t := sys.t;
    var i := t.sessions[sid].schedule;
    var done := t.sessions[sid := t.sessions[sid].(status := Completed)];
    var mid := sys.(t := t.(sessions := done));
    SettlingKeepsLease(sys, done);
    RelockKeepsLease(mid, i, Free);
    FrameKeepsLease(mid.(t := mid.t.(schedules := t.schedules[i := t.schedules[i].(lock := Free)])),
      Capture(t, sid, mark, chart).value);
  }

  /** Completing a session leaves the other live sessions and the creators that may insert as they were. */
  lemma CompletingFrame(sys: System, sid: nat)
    requires sid < |sys.t.sessions|
    ensures var mid := sys.(t := sys.t.(sessions := sys.t.sessions[sid := sys.t.sessions[sid].(status := Completed)]));
      && (forall s: nat :: Live(mid, s) <==> Live(sys, s) && s != sid)
      && (forall c: nat :: Potent(mid, c) <==> Potent(sys, c))
  {
    var sessions := sys.t.sessions;
    var done := sessions[sid := sessions[sid].(status := Completed)];
    forall key ensures SessionKeyUsed(done, key) == SessionKeyUsed(sessions, key) {
      SameKeysUsed(sessions, done, key);
    }
  }

  lemma SameKeysUsed(sessions: seq<Session>, sessions': seq<Session>, key: Key)
    requires |sessions| == |sessions'|
    requires forall s :: 0 <= s < |sessions| ==> sessions'[s].key == sessions[s].key
    ensures SessionKeyUsed(sessions', key) == SessionKeyUsed(sessions, key)
  {
    if k :| 0 <= k < |sessions| && sessions[k].key == key {
      assert sessions[k] in sessions && sessions'[k] in sessions';
    }
  }

  lemma CaptureKeepsLease(sys: System, sid: nat, mark: Option<nat>, chart: bool)
    requires LeaseInv(sys) && Harmless(sys, Succeed(sid, mark, chart))
    ensures LeaseInv(Next(sys, Succeed(sid, mark, chart)))
  {
    var answer := Capture(sys.t, sid, mark, chart);
    if answer.Ok? {
      if Allocated(sys.t.allocations, sid) {
        FrameKeepsLease(sys, answer.value);
      } else {
        CompletingFrame(sys, sid);
        if Live(sys, sid) {
          forall s: nat | Live(sys, s) && s != sid ensures sys.t.sessions[s].schedule != sys.t.sessions[sid].schedule {
            if sys.t.sessions[s].schedule == sys.t.sessions[sid].schedule { OneLiveSession(sys, s, sid); }
          }
          forall c: nat | Potent(sys, c) ensures sys.creators[c].schedule != sys.t.sessions[sid].schedule {
            LiveExcludesPotent(sys, sid, c);
          }
        }
        CaptureFreesLock(sys, sid, mark, chart);
      }
    }
  }

  lemma SettledReleases(sys: System, sid: nat)
    requires LeaseInv(sys) && sid < |sys.t.sessions| && !sys.t.sessions[sid].status.Pending?
    ensures LeaseInv(sys.(t := ReleaseLock(sys.t, sys.t.sessions[sid].schedule, sys.t.sessions[sid].key)))
  {
    assert sys.t.sessions[sid] in sys.t.sessions;
    ReleaseKeepsLease(sys, sys.t.sessions[sid].schedule, sys.t.sessions[sid].key);
  }

  lemma FailKeepsLease(sys: System, sid: nat, event: nat)
    requires LeaseInv(sys)
    ensures LeaseInv(Next(sys, Fail(sid, event)))
  {
    if FailSession(sys.t, sid, event).Ok? {
      var session := sys.t.sessions[sid];
      var sessions := if session.status.Pending?
        then sys.t.sessions[sid := session.(status := Failed)] else sys.t.sessions;
      var mid := sys.(t := sys.t.(sessions := sessions));
      SettlingKeepsLease(sys, sessions);
      SettledReleases(mid, sid);
      FrameKeepsLease(mid.(t := ReleaseLock(mid.t, session.schedule, session.key)), FailSession(sys.t, sid, event).value);
    }
  }

  /** A pour keeps every lock and only lowers the balance of schedules whose lock is free. */
  lemma {:induction false} WaterfallFrame(schedules: seq<Schedule>, unallocated: int, now: Time)
    requires unallocated >= 0
    requires Waterfall(schedules, unallocated, now).Pour?
    ensures var poured := Waterfall(schedules, unallocated, now).schedules;
      && |poured| == |schedules|
      && forall i :: 0 <= i < |poured| ==>
           && poured[i].lock == schedules[i].lock
           && poured[i].paid == schedules[i].paid
           && poured[i].amount == schedules[i].amount
           && (schedules[i].Lockable(now) || poured[i] == schedules[i])
  {
    if |schedules| > 0 {
      var taken := Taken(schedules[0], unallocated);
      WaterfallFrame(schedules[1..], unallocated - taken, now);
      assert forall i :: 1 <= i < |schedules| ==> schedules[i] == schedules[1..][i - 1];
    }
  }

  lemma CreditKeepsLease(sys: System, key: Key, amount: int, reason: string, chart: bool)
    requires LeaseInv(sys)
    ensures LeaseInv(Next(sys, CreditInvoice(key, amount, reason, chart)))
  {
    var answer := IssueCreditNote(sys.t, key, amount, reason, sys.clock, chart);
    if answer.Ok? && answer.value != sys.t {
      WaterfallFrame(sys.t.schedules, amount, sys.clock);
      FrameKeepsLease(sys, answer.value);
    }
  }

  predicate CreatorStep(step: Step) {
    step.Acquire? || step.Price? || step.CheckActive? || step.Insert? || step.Retain? || step.Abandon? || step.Crash?
  }

  lemma PriceKeepsLease(sys: System, c: nat)
    requires LeaseInv(sys)
    ensures LeaseInv(StepPrice(sys, c))
  {
    if Active(sys, c) && sys.creators[c].phase.Locked? {
      if StepPrice(sys, c) == Drop(sys, c) {
        DropKeepsLease(sys, c);
      } else {
        AdvanceKeepsLease(sys, c, Priced(sys.t.schedules[sys.creators[c].schedule].Remaining()));
      }
    }
  }

  lemma CheckActiveKeepsLease(sys: System, c: nat)
    requires LeaseInv(sys)
    ensures LeaseInv(StepCheckActive(sys, c))
  {
    if Active(sys, c) && sys.creators[c].phase.Priced? {
      if HasLiveSession(sys, sys.creators[c].schedule) {
        DropKeepsLease(sys, c);
      } else {
        AdvanceKeepsLease(sys, c, Cleared(sys.creators[c].phase.amount));
      }
    }
  }

  lemma CreatorKeepsLease(sys: System, step: Step)
    requires LeaseInv(sys) && Harmless(sys, step) && CreatorStep(step)
    ensures LeaseInv(Next(sys, step))
  {
    match step
    case Acquire(i, key) => AcquireKeepsLease(sys, i, key);
    case Price(c) => PriceKeepsLease(sys, c);
    case CheckActive(c) => CheckActiveKeepsLease(sys, c);
    case Insert(c, expiresAt) => InsertKeepsLease(sys, c, expiresAt);
    case Retain(c) => RetainKeepsLease(sys, c);
    case Abandon(c) => if Active(sys, c) { DropKeepsLease(sys, c); }
    case Crash(c) => if Active(sys, c) { EndKeepsLease(sys, c); }
  }

  lemma SettleKeepsLease(sys: System, rid: nat, chart: bool)
    requires LeaseInv(sys)
    ensures LeaseInv(Next(sys, Settle(rid, chart)))
  {
    FrameKeepsLease(sys, Next(sys, Settle(rid, chart)).t);
  }

  predicate RowStep(step: Step) {
    step.UpsertEvent? || step.Claim? || step.Finish? || step.Reject? || step.SweepInvoice?
    || step.RequestRefund? || step.AnswerRefund? || step.NotifyRefund? || step.NameRefund?
  }

  /** Steps on event, refund and invoice rows leave every schedule and session as it was. */
  ghost predicate RowFrame(sys: System, sys': System) {
    && sys'.clock == sys.clock && sys'.creators == sys.creators
    && sys'.t.schedules == sys.t.schedules && sys'.t.sessions == sys.t.sessions
    && sys'.t.allocations == sys.t.allocations && sys'.t.journal == sys.t.journal
    && sys'.t.notes == sys.t.notes
    && sys'.t.invoice == sys.t.invoice.(status := sys'.t.invoice.status)
    && |sys.t.refunds| <= |sys'.t.refunds| <= |sys.t.refunds| + 1
    && (forall r :: 0 <= r < |sys.t.refunds| ==>
         && sys'.t.refunds[r].amount == sys.t.refunds[r].amount
         && sys'.t.refunds[r].session == sys.t.refunds[r].session
         && sys'.t.refunds[r].applied == sys.t.refunds[r].applied)
    && (|sys'.t.refunds| > |sys.t.refunds| ==> sys'.t.refunds[|sys.t.refunds|].amount > 0)
  }

  lemma RowStepFrame(sys: System, step: Step)
    requires RowStep(step)
    ensures RowFrame(sys, Next(sys, step))
  {
  }

  lemma NextKeepsLease(sys: System, step: Step)
    requires LeaseInv(sys) && Harmless(sys, step)
    ensures LeaseInv(Next(sys, step))
  {
    if CreatorStep(step) {
      CreatorKeepsLease(sys, step);
    } else if RowStep(step) {
      RowStepFrame(sys, step);
      FrameKeepsLease(sys, Next(sys, step).t);
    } else {
      match step
      case Tick(ms) => TickKeepsLease(sys, ms);
      case Succeed(s, mark, chart) => CaptureKeepsLease(sys, s, mark, chart);
      case Fail(s, e) => FailKeepsLease(sys, s, e);
      case SweepSessions => SettlingKeepsLease(sys, ExpireSessions(sys.t, sys.clock).sessions);
      case Settle(r, chart) => SettleKeepsLease(sys, r, chart);
      case CreditInvoice(key, amount, reason, chart) => CreditKeepsLease(sys, key, amount, reason, chart);
    }
  }

  // ----- every other step breaks it --------------------------------------------------

  lemma UncoveredBreaks(sys: System, s: nat)
    requires Live(sys, s) && sys.t.sessions[s].schedule < |sys.t.schedules|
    requires LockOf(sys, sys.t.sessions[s].schedule).Free?
    ensures !LeaseInv(sys)
  {
    assert !Covered(sys, s);
  }

  lemma UnheldBreaks(sys: System, c: nat)
    requires Potent(sys, c) && sys.creators[c].schedule < |sys.t.schedules|
    requires LockOf(sys, sys.creators[c].schedule).Free?
    ensures !LeaseInv(sys)
  {
  }

  lemma LateCaptureBreaks(sys: System, sid: nat, mark: Option<nat>, chart: bool)
    requires LeaseInv(sys) && !Harmless(sys, Succeed(sid, mark, chart))
    ensures !LeaseInv(Next(sys, Succeed(sid, mark, chart)))
  {
    var sys' := Next(sys, Succeed(sid, mark, chart));
    var i := sys.t.sessions[sid].schedule;
    var mid := sys.(t := sys.t.(sessions := sys.t.sessions[sid := sys.t.sessions[sid].(status := Completed)]));
    CompletingFrame(sys, sid);
    assert sys'.t.sessions == mid.t.sessions && LockOf(sys', i).Free?;
    if s: nat :| Live(sys, s) && sys.t.sessions[s].schedule == i {
      assert Live(mid, s) && Live(sys', s);
      UncoveredBreaks(sys', s);
    } else {
      var c: nat :| Potent(sys, c) && sys.creators[c].schedule == i;
      assert Potent(mid, c) && Potent(sys', c);
      UnheldBreaks(sys', c);
    }
  }

  lemma AbandonedBreaks(sys: System, c: nat)
    requires LeaseInv(sys) && !Harmless(sys, Abandon(c))
    ensures !LeaseInv(Next(sys, Abandon(c)))
  {
    var s := sys.creators[c].phase.session;
    assert Covered(sys, s);
    assert Live(Next(sys, Abandon(c)), s);
    UncoveredBreaks(Next(sys, Abandon(c)), s);
  }

  lemma OrphanedBreaks(sys: System, c: nat)
    requires LeaseInv(sys) && !Harmless(sys, Crash(c))
    ensures !LeaseInv(Next(sys, Crash(c)))
  {
    var sys' := Next(sys, Crash(c));
    var s := sys.creators[c].phase.session;
    assert Live(sys', s);
    forall k: nat ensures Active(sys', k) ==> k != c && Active(sys, k) && sys.creators[k] == sys'.creators[k] {}
    assert !Covered(sys', s);
  }

  lemma OutlivedBreaks(sys: System, ms: nat)
    requires !Harmless(sys, Tick(ms))
    ensures !LeaseInv(Next(sys, Tick(ms)))
  {
    var c: nat :| Active(sys, c) && sys.creators[c].leaseEnd <= sys.clock + ms;
    assert Active(Next(sys, Tick(ms)), c);
  }

  /** A step keeps the invariant of the checkout lock if and only if it is harmless. */
  lemma LeaseStepExact(sys: System, step: Step)
    requires LeaseInv(sys)
    ensures LeaseInv(Next(sys, step)) <==> Harmless(sys, step)
  {
    if Harmless(sys, step) {
      NextKeepsLease(sys, step);
    } else {
      match step
      case Tick(ms) => OutlivedBreaks(sys, ms);
      case Abandon(c) => AbandonedBreaks(sys, c);
      case Crash(c) => OrphanedBreaks(sys, c);
      case Succeed(s, mark, chart) => LateCaptureBreaks(sys, s, mark, chart);
    }
  }

  ghost predicate LeaseThroughout(sys: System, steps: seq<Step>)
    decreases |steps|
  {
    LeaseInv(sys) && (|steps| > 0 ==> LeaseThroughout(Next(sys, steps[0]), steps[1..]))
  }

  lemma {:induction false} LeaseThroughoutExact(sys: System, steps: seq<Step>)
    requires LeaseInv(sys)
    ensures LeaseThroughout(sys, steps) <==> HarmlessRun(sys, steps)
    decreases |steps|
  {
    if |steps| > 0 {
      var sys' := Next(sys, steps[0]);
      LeaseStepExact(sys, steps[0]);
      if LeaseInv(sys') {
        LeaseThroughoutExact(sys', steps[1..]);
      } else {
        assert !LeaseThroughout(sys', steps[1..]);
      }
    }
  }

  lemma {:induction false} LeaseKept(sys: System, steps: seq<Step>)
    requires LeaseInv(sys) && HarmlessRun(sys, steps)
    ensures LeaseInv(Run(sys, steps))
    decreases |steps|
  {
    if |steps| > 0 {
      NextKeepsLease(sys, steps[0]);
      LeaseKept(Next(sys, steps[0]), steps[1..]);
    }
  }
}
