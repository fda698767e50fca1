/**
 What rotation promises over every run: linear families, the end that reuse puts to them, and
 how far a family can still grow once its session is closed.
 */
module TokenFamilies {
  import opened RefreshTokens
  import opened Results

  // ----- main results ----------------------------------------------------------------

  /**
   In every reachable state a family is one line of successors with at most one usable token,
   and that token's hash is the one its session remembers.
   */
  lemma FamilyIsLinear(start: System, steps: seq<Step>, family: nat, a: nat, b: nat)
    requires Empty(start)
    ensures Linear(Run(start, steps).t.tokens, family)
    ensures var t := Run(start, steps).t;
      Usable(t, a) && Usable(t, b) && t.tokens[a].family == t.tokens[b].family ==> a == b
    ensures var t := Run(start, steps).t;
      Usable(t, a) ==> t.tokens[a].session < |t.sessions| && t.sessions[t.tokens[a].session].hash == t.tokens[a].hash
  {
    EmptyInv(start);
    InvKept(start, steps);
    OneUsable(Run(start, steps), a, b);
  }

  lemma OneUsable(sys: System, a: nat, b: nat)
    requires Inv(sys)
    ensures Usable(sys.t, a) && Usable(sys.t, b) && sys.t.tokens[a].family == sys.t.tokens[b].family ==> a == b
    ensures Usable(sys.t, a) ==>
      sys.t.tokens[a].session < |sys.t.sessions| && sys.t.sessions[sys.t.tokens[a].session].hash == sys.t.tokens[a].hash
  {
    if Usable(sys.t, a) { UsableIsNewest(sys.t, a); }
    if Usable(sys.t, b) { UsableIsNewest(sys.t, b); }
  }

  /** A family whose tokens are all revoked, together with its session. */
  ghost predicate Dead(t: Tables, family: nat) {
    && family < |t.sessions| && t.sessions[family].revokedAt.Some?
    && forall k :: 0 <= k < |t.tokens| && t.tokens[k].family == family ==> t.tokens[k].revokedAt.Some?
  }

  function OutcomeOf(sys: System, r: nat): Option<Outcome> {
    if r < |sys.rotations| && !sys.rotations[r].committed then
      match CommitRotation(sys.t, sys.rotations[r])
      case None => None
      case Some(answer) => Some(answer.1)
    else None
  }

  lemma ReuseKills(sys: System, r: nat)
    requires Inv(sys) && OutcomeOf(sys, r) == Some(Reused)
    ensures Dead(StepCommit(sys, r).t, sys.rotations[r].token.family)
  {
  }

  lemma DeadNeverRotates(sys: System, r: nat)
    requires Inv(sys) && r < |sys.rotations| && Dead(sys.t, sys.rotations[r].token.family)
    ensures OutcomeOf(sys, r) != Some(Rotated)
  {
  }

  lemma CommitKeepsDead(sys: System, r: nat, family: nat)
    requires Inv(sys) && Dead(sys.t, family)
    ensures Dead(StepCommit(sys, r).t, family)
    ensures Chain(StepCommit(sys, r).t.tokens, family) == Chain(sys.t.tokens, family)
  {
    if OutcomeOf(sys, r) == Some(Rotated) {
      assert sys.rotations[r].token.family != family;
      ReplaceChain(sys.t, sys.rotations[r], family);
      RotationKeepsDead(sys.t, sys.rotations[r], family);
    } else {
      ChainSame(StepCommit(sys, r).t.tokens, sys.t.tokens, family);
    }
  }

  lemma RotationKeepsDead(t: Tables, r: Rotation, family: nat)
    requires Claims(t, r) && r.token.family != family && Dead(t, family)
    requires r.token.family == t.tokens[r.id].family && r.token.session == r.token.family
    ensures Dead(Replace(t, r), family)
  {
  }

  lemma NextKeepsDead(sys: System, step: Step, family: nat)
    requires Inv(sys) && Dead(sys.t, family)
    ensures Dead(Next(sys, step).t, family)
    ensures Chain(Next(sys, step).t.tokens, family) == Chain(sys.t.tokens, family)
  {
    match step
    case Commit(r) => CommitKeepsDead(sys, r, family);
    case SignIn(user, hash, expiresAt) => SignInKeepsDead(sys, user, hash, expiresAt, family);
    case Tick(ms) =>
    case Read(hash, replacement, expiresAt, active) =>
    case _ =>
      RevocationsOnlyRevoke(sys, step);
      ChainSame(Next(sys, step).t.tokens, sys.t.tokens, family);
      RevokingKeepsDead(sys.t, Next(sys, step).t, family);
  }

  lemma SignInKeepsDead(sys: System, user: nat, hash: Hash, expiresAt: Time, family: nat)
    requires Inv(sys) && Dead(sys.t, family)
    ensures Dead(Next(sys, SignIn(user, hash, expiresAt)).t, family)
    ensures Chain(Next(sys, SignIn(user, hash, expiresAt)).t.tokens, family) == Chain(sys.t.tokens, family)
  {
    if !HashUsed(sys.t.tokens, hash) {
      ChainAppend(sys.t.tokens, Next(sys, SignIn(user, hash, expiresAt)).t.tokens[|sys.t.tokens|], family);
    }
  }

  lemma RevokingKeepsDead(t: Tables, t': Tables, family: nat)
    requires OnlyRevokes(t, t') && Dead(t, family)
    ensures Dead(t', family)
  {
  }

  lemma {:induction false} DeadKept(sys: System, steps: seq<Step>, family: nat)
    requires Inv(sys) && Dead(sys.t, family)
    ensures Dead(Run(sys, steps).t, family)
    ensures Chain(Run(sys, steps).t.tokens, family) == Chain(sys.t.tokens, family)
    decreases |steps|
  {
    if |steps| > 0 {
      NextKeepsDead(sys, steps[0], family);
      NextKeeps(sys, steps[0]);
      DeadKept(Next(sys, steps[0]), steps[1..], family);
    }
  }

  /**
   Presenting a consumed token ends its family and session for good: whatever runs afterwards,
   rotations already in flight included, no token is ever added to the family.
   */
  lemma ReuseEndsFamily(start: System, steps: seq<Step>, r: nat, later: seq<Step>)
    requires Empty(start)
    requires var sys := Run(start, steps);
      r < |sys.rotations| && !sys.rotations[r].committed && sys.rotations[r].token.consumedAt.Some?
    ensures var sys := Run(start, steps);
      var family := sys.rotations[r].token.family;
      var after := Run(Next(sys, Commit(r)), later);
      Dead(after.t, family) && Chain(after.t.tokens, family) == Chain(sys.t.tokens, family)
  {
    EmptyInv(start);
    InvKept(start, steps);
    var sys := Run(start, steps);
    var family := sys.rotations[r].token.family;
    ReuseKills(sys, r);
    ChainSame(StepCommit(sys, r).t.tokens, sys.t.tokens, family);
    NextKeeps(sys, Commit(r));
    DeadKept(Next(sys, Commit(r)), later, family);
  }

  // ----- after revocation or expiry --------------------------------------------------

  predicate Closed(sys: System, s: nat) {
    s < |sys.t.sessions| && (sys.t.sessions[s].revokedAt.Some? || sys.t.sessions[s].expiresAt <= sys.clock)
  }

  /** A rotation of the session that read it in time, has yet to commit, and would then succeed. */
  predicate Able(sys: System, r: nat, s: nat) {
    && r < |sys.rotations| && !sys.rotations[r].committed && Presentable(sys.rotations[r])
    && sys.rotations[r].token.session == s && Claims(sys.t, sys.rotations[r])
    && !HashUsed(sys.t.tokens, sys.rotations[r].replacement)
  }

  ghost predicate InFlight(sys: System, s: nat) { exists r: nat :: Able(sys, r, s) }

  ghost function Budget(sys: System, s: nat): nat {
    |Chain(sys.t.tokens, s)| + if InFlight(sys, s) then 1 else 0
  }

  /** The rotation that spends the budget leaves no other rotation able to spend it again. */
  lemma RotationSpends(sys: System, r: nat)
    requires Inv(sys) && OutcomeOf(sys, r) == Some(Rotated)
    ensures var s := sys.rotations[r].token.session;
      InFlight(sys, s) && !InFlight(StepCommit(sys, r), s)
      && |Chain(StepCommit(sys, r).t.tokens, s)| == |Chain(sys.t.tokens, s)| + 1
  {
    var rot := sys.rotations[r];
    var s := rot.token.session;
    assert Linear(sys.t.tokens, s);
    ReplaceKeepsLinear(sys.t, rot, s);
    assert Able(sys, r, s);
    NoneAble(sys, r);
  }

  lemma OnlyReplacementUsable(t: Tables, r: Rotation, id: nat)
    requires Shaped(t) && Claims(t, r) && Linear(t.tokens, r.token.family)
    requires r.token.family == t.tokens[r.id].family
    requires Usable(Replace(t, r), id) && Replace(t, r).tokens[id].family == r.token.family
    ensures id == |t.tokens|
  {
    ReplaceKeepsLinear(t, r, r.token.family);
    UsableIsNewest(Replace(t, r), id);
  }

  /** After a rotation only the replacement is usable, and no rotation has read that. */
  lemma NoneAble(sys: System, r: nat)
    requires Inv(sys) && OutcomeOf(sys, r) == Some(Rotated)
    ensures !InFlight(StepCommit(sys, r), sys.rotations[r].token.session)
  {
    var s := sys.rotations[r].token.session;
    var sys' := StepCommit(sys, r);
    assert Linear(sys.t.tokens, s);
    forall q: nat ensures !Able(sys', q, s) {
      if Able(sys', q, s) {
        assert sys'.rotations[q].id < |sys.t.tokens|;
        OnlyReplacementUsable(sys.t, sys.rotations[r], sys'.rotations[q].id);
      }
    }
  }

  /** Hashes are never freed. */
  lemma HashStaysUsed(tokens: seq<Token>, tokens': seq<Token>, hash: Hash)
    requires |tokens| <= |tokens'|
    requires forall i :: 0 <= i < |tokens| ==> tokens'[i].hash == tokens[i].hash
    requires HashUsed(tokens, hash)
    ensures HashUsed(tokens', hash)
  {
    var i :| 0 <= i < |tokens| && tokens[i].hash == hash;
    assert tokens'[i] in tokens';
  }

  ghost predicate HashesKept(t: Tables, t': Tables) {
    |t.tokens| <= |t'.tokens| && forall i :: 0 <= i < |t.tokens| ==> t'.tokens[i].hash == t.tokens[i].hash
  }

  /** Rows that only lose claims enable no rotation that was not able before. */
  lemma FewerAble(sys: System, sys': System, s: nat)
    requires |sys'.rotations| == |sys.rotations| && HashesKept(sys.t, sys'.t)
    requires forall r :: 0 <= r < |sys.rotations| && !sys'.rotations[r].committed ==>
      sys'.rotations[r] == sys.rotations[r]
    requires forall r :: 0 <= r < |sys.rotations| && Claims(sys'.t, sys.rotations[r]) ==> Claims(sys.t, sys.rotations[r])
    ensures InFlight(sys', s) ==> InFlight(sys, s)
  {
    if q: nat :| Able(sys', q, s) {
      if HashUsed(sys.t.tokens, sys.rotations[q].replacement) {
        HashStaysUsed(sys.t.tokens, sys'.t.tokens, sys.rotations[q].replacement);
      }
      assert Able(sys, q, s);
    }
  }

  lemma OtherCommitWithinBudget(sys: System, r: nat, s: nat)
    requires Inv(sys)
    requires OutcomeOf(sys, r) == Some(Rotated) ==> sys.rotations[r].token.session != s
    ensures Budget(StepCommit(sys, r), s) <= Budget(sys, s)
  {
    var sys' := StepCommit(sys, r);
    if OutcomeOf(sys, r) == Some(Rotated) {
      ReplaceChain(sys.t, sys.rotations[r], s);
    } else {
      ChainSame(sys'.t.tokens, sys.t.tokens, s);
    }
    OtherCommitEnablesNone(sys, r, s);
  }

  lemma CommitKeepsHashes(sys: System, r: nat)
    requires Inv(sys)
    ensures HashesKept(sys.t, StepCommit(sys, r).t)
  {
  }

  lemma CommitFreesNone(sys: System, r: nat, k: Rotation)
    requires Inv(sys) && k.id < |sys.t.tokens| && Claims(StepCommit(sys, r).t, k)
    ensures Claims(sys.t, k)
  {
  }

  lemma OtherCommitEnablesNone(sys: System, r: nat, s: nat)
    requires Inv(sys)
    ensures InFlight(StepCommit(sys, r), s) ==> InFlight(sys, s)
  {
    var sys' := StepCommit(sys, r);
    CommitKeepsHashes(sys, r);
    forall q | 0 <= q < |sys.rotations| && Claims(sys'.t, sys.rotations[q]) ensures Claims(sys.t, sys.rotations[q]) {
      CommitFreesNone(sys, r, sys.rotations[q]);
    }
    FewerAble(sys, sys', s);
  }

  lemma CommitWithinBudget(sys: System, r: nat, s: nat)
    requires Inv(sys)
    ensures Budget(StepCommit(sys, r), s) <= Budget(sys, s)
  {
    if OutcomeOf(sys, r) == Some(Rotated) && sys.rotations[r].token.session == s {
      RotationSpends(sys, r);
    } else {
      OtherCommitWithinBudget(sys, r, s);
    }
  }

  lemma SignInWithinBudget(sys: System, user: nat, hash: Hash, expiresAt: Time, s: nat)
    requires Inv(sys) && Closed(sys, s)
    ensures Budget(Next(sys, SignIn(user, hash, expiresAt)), s) <= Budget(sys, s)
  {
    var sys' := Next(sys, SignIn(user, hash, expiresAt));
    if !HashUsed(sys.t.tokens, hash) {
      ChainAppend(sys.t.tokens, sys'.t.tokens[|sys.t.tokens|], s);
    }
    FewerAble(sys, sys', s);
  }

  /** A closed session fails the checks of every rotation that reads it from now on. */
  lemma ReadWithinBudget(sys: System, step: Step, s: nat)
    requires Inv(sys) && Closed(sys, s) && step.Read?
    ensures Budget(Next(sys, step), s) <= Budget(sys, s)
  {
    var sys' := Next(sys, step);
    if q: nat :| Able(sys', q, s) {
      assert q < |sys.rotations| ==> Able(sys, q, s);
    }
  }

  lemma RevocationWithinBudget(sys: System, step: Step, s: nat)
    requires Inv(sys) && (step.RevokeSession? || step.RevokeTokens? || step.RevokeAll?)
    ensures Budget(Next(sys, step), s) <= Budget(sys, s)
  {
    RevocationsOnlyRevoke(sys, step);
    ChainSame(Next(sys, step).t.tokens, sys.t.tokens, s);
    FewerAble(sys, Next(sys, step), s);
  }

  lemma QuietWithinBudget(sys: System, step: Step, s: nat)
    requires Inv(sys) && Closed(sys, s) && !step.Commit?
    ensures Budget(Next(sys, step), s) <= Budget(sys, s)
  {
    match step
    case SignIn(user, hash, expiresAt) => SignInWithinBudget(sys, user, hash, expiresAt, s);
    case Tick(ms) => FewerAble(sys, Next(sys, step), s);
    case Read(_, _, _, _) => ReadWithinBudget(sys, step, s);
    case _ => RevocationWithinBudget(sys, step, s);
  }

  lemma NextKeepsClosed(sys: System, step: Step, s: nat)
    requires Closed(sys, s)
    ensures Closed(Next(sys, step), s)
  {
  }

  lemma {:induction false} ClosedKept(sys: System, steps: seq<Step>, s: nat)
    requires Inv(sys) && Closed(sys, s)
    ensures Closed(Run(sys, steps), s)
    ensures Budget(Run(sys, steps), s) <= Budget(sys, s)
    decreases |steps|
  {
    if |steps| > 0 {
      if steps[0].Commit? {
        CommitWithinBudget(sys, steps[0].rotation, s);
      } else {
        QuietWithinBudget(sys, steps[0], s);
      }
      NextKeepsClosed(sys, steps[0], s);
      NextKeeps(sys, steps[0]);
      ClosedKept(Next(sys, steps[0]), steps[1..], s);
    }
  }

  ghost predicate Grows(sys: System, s: nat) {
    exists later: seq<Step> :: |Chain(Run(sys, later).t.tokens, s)| > |Chain(sys.t.tokens, s)|
  }

  lemma RunOne(sys: System, step: Step)
    ensures Run(sys, [step]) == Next(sys, step)
  {
    assert Run(Next(sys, step), [step][1..]) == Next(sys, step);
  }

  lemma AbleRotates(sys: System, r: nat, s: nat)
    requires Able(sys, r, s)
    ensures OutcomeOf(sys, r) == Some(Rotated)
  {
  }

  lemma AbleGrows(sys: System, r: nat, s: nat)
    requires Inv(sys) && Able(sys, r, s)
    ensures |Chain(Run(sys, [Commit(r)]).t.tokens, s)| == |Chain(sys.t.tokens, s)| + 1
  {
    AbleRotates(sys, r, s);
    RotationSpends(sys, r);
    RunOne(sys, Commit(r));
  }

  /**
   Once a session is revoked or past its original expiry, some continuation still rotates its
   token if and only if a rotation had read it in time and can still claim it under a fresh hash.
   */
  lemma ClosedGrowthExact(sys: System, s: nat)
    requires Inv(sys) && Closed(sys, s)
    ensures Grows(sys, s) <==> InFlight(sys, s)
  {
    if later: seq<Step> :| |Chain(Run(sys, later).t.tokens, s)| > |Chain(sys.t.tokens, s)| {
      ClosedKept(sys, later, s);
    }
    if r: nat :| Able(sys, r, s) { AbleGrows(sys, r, s); }
  }

  /** Over every run: after closing, the family gets one more token in that case, and none otherwise. */
  lemma ClosedSessionStopsRotating(start: System, before: seq<Step>, later: seq<Step>, s: nat)
    requires Empty(start) && Closed(Run(start, before), s)
    ensures var sys := Run(start, before);
      && (Grows(sys, s) <==> InFlight(sys, s))
      && |Chain(Run(sys, later).t.tokens, s)| <= |Chain(sys.t.tokens, s)| + if InFlight(sys, s) then 1 else 0
  {
    EmptyInv(start);
    InvKept(start, before);
    ClosedGrowthExact(Run(start, before), s);
    ClosedKept(Run(start, before), later, s);
  }

  // ----- what a request with a session's access token is told ------------------------

  /** Whatever happens and however late, nobody is told again that the session is active. */
  ghost predicate NeverActiveAgain(sys: System, s: nat) {
    forall later: seq<Step>, user: nat ::
      !SessionActive(Run(sys, later).t, s, user, true, Run(sys, later).clock)
  }

  /** Revocation and expiry are for good, and nothing else ends a session. */
  lemma ClosedExact(sys: System, s: nat)
    requires Inv(sys) && s < |sys.t.sessions|
    ensures Closed(sys, s) <==> NeverActiveAgain(sys, s)
  {
    if Closed(sys, s) {
      forall later: seq<Step>, user: nat
        ensures !SessionActive(Run(sys, later).t, s, user, true, Run(sys, later).clock)
      {
        ClosedKept(sys, later, s);
      }
    } else {
      assert Run(sys, []) == sys;
      assert SessionActive(Run(sys, []).t, s, sys.t.sessions[s].user, true, Run(sys, []).clock);
    }
  }

  /** Presenting a consumed token ends the session for every later request too. */
  lemma ReuseEndsSession(start: System, steps: seq<Step>, r: nat)
    requires Empty(start)
    requires var sys := Run(start, steps);
      r < |sys.rotations| && !sys.rotations[r].committed && sys.rotations[r].token.consumedAt.Some?
    ensures var sys := Run(start, steps);
      NeverActiveAgain(Next(sys, Commit(r)), sys.rotations[r].token.session)
  {
    EmptyInv(start);
    InvKept(start, steps);
    var sys := Run(start, steps);
    ReuseKills(sys, r);
    NextKeeps(sys, Commit(r));
    ClosedExact(Next(sys, Commit(r)), sys.rotations[r].token.session);
  }

  /** That does happen: read, revoke, then commit. */
  lemma RevocationRace(start: System)
    requires Empty(start) && start.clock == 0
    ensures var sys := Run(start, [SignIn(7, "a", 100), Read("a", "b", 100, true), RevokeSession(0, 7)]);
      Closed(sys, 0) && OutcomeOf(sys, 0) == Some(Rotated) && Grows(sys, 0)
  {
    var steps := [SignIn(7, "a", 100), Read("a", "b", 100, true), RevokeSession(0, 7)];
    var s1 := Next(start, steps[0]);
    assert s1.t.tokens == [Token(0, 0, "a", 100, None, None, None)];
    var s2 := Next(s1, steps[1]);
    assert s2.rotations == [Rotation(0, s1.t.tokens[0], s1.t.sessions[0], true, 0, "b", 100, false)];
    var s3 := Next(s2, steps[2]);
    assert steps[1..][1..] == [steps[2]];
    assert Run(start, steps) == Run(s1, steps[1..]) == Run(s2, steps[1..][1..]) == Run(s3, []);
    assert Able(s3, 0, 0);
    EmptyInv(start);
    InvKept(start, steps);
    ClosedGrowthExact(s3, 0);
  }
}
