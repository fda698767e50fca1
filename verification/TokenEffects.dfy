/**
 What signing in, rotating and revoking leave in the tables, row by row, and which rotation ends
 how. Whose token is whose, and for how long, never changes.
 */
module TokenEffects {
  import opened Basics
  import opened RefreshTokens
  import opened Results
  import TokenFamilies

  /** The token that was presented could be exchanged when it was read. */
  predicate Good(r: Rotation) {
    && r.token.consumedAt == None && r.token.revokedAt == None && r.now < r.token.expiresAt
    && r.session.revokedAt == None && r.now < r.session.expiresAt && r.active
  }

  /** The four ends of a rotation: reuse of a token used before or meanwhile, refusal, roll-back, success. */
  lemma RotationEnds(t: Tables, r: Rotation)
    requires r.id < |t.tokens|
    ensures var untouched := t.tokens[r.id].consumedAt == None && t.tokens[r.id].revokedAt == None;
      var taken := exists k :: 0 <= k < |t.tokens| && t.tokens[k].hash == r.replacement;
      var answer := CommitRotation(t, r);
      && (answer.Some? && answer.value.1 == Reused <==> r.token.consumedAt != None || (Good(r) && !untouched))
      && (answer.Some? && answer.value.1 == Invalid <==> r.token.consumedAt == None && !Good(r))
      && (answer == None <==> Good(r) && untouched && taken)
      && (answer.Some? && answer.value.1 == Rotated <==> Good(r) && untouched && !taken)
  {
    assert HashUsed(t.tokens, r.replacement) <==> exists k :: 0 <= k < |t.tokens| && t.tokens[k].hash == r.replacement by {
      if k :| 0 <= k < |t.tokens| && t.tokens[k].hash == r.replacement { assert t.tokens[k] in t.tokens; }
    }
  }

  /**
   A rotation that succeeds consumes the presented token and names its successor, which is of the
   same session and family, with the hash and expiry that were asked for; the session takes over the
   new hash and keeps its own expiry. No other row changes.
   */
  lemma RotationEffect(start: System, steps: seq<Step>, sys: System, r: nat)
    requires Empty(start) && sys == Run(start, steps)
    requires r < |sys.rotations| && TokenFamilies.OutcomeOf(sys, r) == Some(Rotated)
    ensures var rotation := sys.rotations[r];
      var t, t' := sys.t, Next(sys, Commit(r)).t;
      && rotation.id < |t.tokens| && t.tokens[rotation.id].session < |t.sessions|
      && var was := t.tokens[rotation.id];
      && |t'.tokens| == |t.tokens| + 1 && OnlyRow(t.tokens, t'.tokens[..|t.tokens|], rotation.id)
      && t'.tokens[rotation.id] == was.(consumedAt := Some(rotation.now), replacedBy := Some(|t.tokens|))
      && t'.tokens[|t.tokens|]
         == Token(was.session, was.family, rotation.replacement, rotation.expiresAt, None, None, None)
      && OnlyRow(t.sessions, t'.sessions, was.session)
      && t'.sessions[was.session] == t.sessions[was.session].(hash := rotation.replacement)
  {
    EmptyInv(start);
    InvKept(start, steps);
  }

  /** The time of the first revocation stays. */
  function RevokedBy(revokedAt: Option<Time>, now: Time): Option<Time> { if revokedAt == None then Some(now) else revokedAt }

  /** Reuse revokes the session and every token of the family, and nothing else. */
  lemma ReuseEffect(start: System, steps: seq<Step>, sys: System, r: nat, k: nat, s: nat)
    requires Empty(start) && sys == Run(start, steps)
    requires r < |sys.rotations| && TokenFamilies.OutcomeOf(sys, r) == Some(Reused)
    requires k < |sys.t.tokens| && s < |sys.t.sessions|
    ensures var rotation := sys.rotations[r];
      var t, t' := sys.t, Next(sys, Commit(r)).t;
      && |t'.tokens| == |t.tokens| && |t'.sessions| == |t.sessions|
      && t'.tokens[k] == t.tokens[k].(revokedAt :=
           if t.tokens[k].family == rotation.token.family then RevokedBy(t.tokens[k].revokedAt, rotation.now)
           else t.tokens[k].revokedAt)
      && t'.sessions[s] == t.sessions[s].(revokedAt :=
           if s == rotation.token.session then RevokedBy(t.sessions[s].revokedAt, rotation.now) else t.sessions[s].revokedAt)
  {
    EmptyInv(start);
    InvKept(start, steps);
  }

  /** Any other end leaves both tables as they are. */
  lemma NothingRotated(sys: System, r: nat)
    requires r < |sys.rotations| && TokenFamilies.OutcomeOf(sys, r) !in {Some(Rotated), Some(Reused)}
    ensures Next(sys, Commit(r)).t == sys.t
  {
  }

  /** Signing in under a new hash opens a session with its first token. */
  lemma SignInEffect(t: Tables, user: nat, hash: Hash, expiresAt: Time)
    requires forall k :: 0 <= k < |t.tokens| ==> t.tokens[k].hash != hash
    ensures CreateSession(t, user, hash, expiresAt).Some?
    ensures var t' := CreateSession(t, user, hash, expiresAt).value;
      && t'.sessions == t.sessions + [Session(user, hash, expiresAt, None)]
      && t'.tokens == t.tokens + [Token(|t.sessions|, |t.sessions|, hash, expiresAt, None, None, None)]
  {
    assert !HashUsed(t.tokens, hash);
  }

  /** A rotation takes what it presents as it is now: the token with that hash, and its session. */
  lemma ReadEffect(sys: System, hash: Hash, replacement: Hash, expiresAt: Time, active: bool, id: nat)
    requires Inv(sys) && id < |sys.t.tokens| && sys.t.tokens[id].hash == hash
    ensures Next(sys, Read(hash, replacement, expiresAt, active)) == sys.(rotations := sys.rotations
      + [Rotation(id, sys.t.tokens[id], sys.t.sessions[sys.t.tokens[id].session], active, sys.clock,
                  replacement, expiresAt, false)])
  {
    var found := FindToken(sys.t.tokens, hash, 0);
    assert found.Some? && found.value == id;
  }

  /** Owners close their active sessions; that leaves the tokens to a second write, which revokes those of the session. */
  lemma RevocationEffect(sys: System, s: nat, user: nat, k: nat)
    requires s < |sys.t.sessions| && k < |sys.t.tokens|
    ensures var session := sys.t.sessions[s];
      var sys' := Next(sys, RevokeSession(s, user));
      && OnlyRow(sys.t.sessions, sys'.t.sessions, s)
      && sys'.t.sessions[s] == session.(revokedAt :=
           if session.user == user && session.revokedAt == None then Some(sys.clock) else session.revokedAt)
      && sys' == sys.(t := sys.t.(sessions := sys'.t.sessions))
    ensures sys.t.sessions[s].revokedAt != None ==>
      var token := sys.t.tokens[k];
      var sys' := Next(sys, RevokeTokens(s));
      && |sys'.t.tokens| == |sys.t.tokens| && sys' == sys.(t := sys.t.(tokens := sys'.t.tokens))
      && sys'.t.tokens[k] == token.(revokedAt :=
           if token.session == s then RevokedBy(token.revokedAt, sys.clock) else token.revokedAt)
  {
  }

  /** Revoking all of a user's sessions marks just these and their tokens. */
  lemma RevokeAllEffect(sys: System, ids: set<nat>, user: nat, s: nat, k: nat)
    requires s < |sys.t.sessions| && k < |sys.t.tokens|
    requires forall id :: id in ids ==> id < |sys.t.sessions| && sys.t.sessions[id].user == user
    ensures var session, token := sys.t.sessions[s], sys.t.tokens[k];
      var sys' := Next(sys, RevokeAll(ids, user));
      && |sys'.t.sessions| == |sys.t.sessions| && |sys'.t.tokens| == |sys.t.tokens| && sys' == sys.(t := sys'.t)
      && sys'.t.sessions[s] == session.(revokedAt := if s in ids then Some(sys.clock) else session.revokedAt)
      && sys'.t.tokens[k] == token.(revokedAt :=
           if token.session in ids then RevokedBy(token.revokedAt, sys.clock) else token.revokedAt)
  {
  }

  // ----- what never changes ----------------------------------------------------------

  /** Rows stay whose they are and as long as they are, and what was closed stays closed. */
  ghost predicate RowsStay(t: Tables, t': Tables) {
    && |t.sessions| <= |t'.sessions| && |t.tokens| <= |t'.tokens|
    && (forall s :: 0 <= s < |t.sessions| ==>
         && t'.sessions[s].user == t.sessions[s].user && t'.sessions[s].expiresAt == t.sessions[s].expiresAt
         && (t.sessions[s].revokedAt.Some? ==> t'.sessions[s].revokedAt.Some?))
    && forall k :: 0 <= k < |t.tokens| ==>
         var was, now := t.tokens[k], t'.tokens[k];
         && now == was.(consumedAt := now.consumedAt, revokedAt := now.revokedAt, replacedBy := now.replacedBy)
         && (was.consumedAt.Some? ==> now.consumedAt.Some?) && (was.revokedAt.Some? ==> now.revokedAt.Some?)
  }

  lemma CommitKeepsRows(sys: System, r: nat)
    ensures RowsStay(sys.t, StepCommit(sys, r).t)
  {
  }

  lemma NextKeepsRows(sys: System, step: Step)
    ensures RowsStay(sys.t, Next(sys, step).t)
  {
    if step.Commit? { CommitKeepsRows(sys, step.rotation); }
  }

  /**
   Over every run: a session keeps its user and expiry, a token its session, family, hash and expiry;
   and neither a revocation nor a consumption is ever taken back.
   */
  lemma {:induction false} RowsKept(sys: System, steps: seq<Step>)
    ensures RowsStay(sys.t, Run(sys, steps).t)
    decreases |steps|
  {
    if |steps| > 0 {
      NextKeepsRows(sys, steps[0]);
      RowsKept(Next(sys, steps[0]), steps[1..]);
    }
  }
}
