/** The session and refresh-token tables as the repository updates them. */
module AuthRepository {
  import opened Results
  import opened RefreshTokens

  /** A rotation whose reads and writes are not interleaved with anything else. */
  function Rotate(t: Tables, hash: Hash, replacement: Hash, expiresAt: Time, active: bool, now: Time)
    : Option<(Tables, Outcome)>
  {
    match ReadRotation(t, hash, replacement, expiresAt, active, now)
    case None => Some((t, Invalid))
    case Some(r) => CommitRotation(t, r)
  }

  /** Uninterleaved, exactly the consumed tokens are reported as reused, and nothing else changes hands. */
  lemma RotateDecides(t: Tables, id: nat, replacement: Hash, expiresAt: Time, active: bool, now: Time)
    requires Shaped(t) && id < |t.tokens| && !HashUsed(t.tokens, replacement)
    ensures var answer := Rotate(t, t.tokens[id].hash, replacement, expiresAt, active, now);
      var k := t.tokens[id];
      && answer.Some?
      && (answer.value.1.Reused? <==> k.consumedAt.Some?)
      && (answer.value.1.Rotated? <==>
           k.consumedAt.None? && k.revokedAt.None? && now < k.expiresAt
           && t.sessions[k.session].revokedAt.None? && now < t.sessions[k.session].expiresAt && active)
      && (answer.value.1.Invalid? ==> answer.value.0 == t)
  {
    var found := FindToken(t.tokens, t.tokens[id].hash, 0);
    assert found == Some(id);
  }

  class AuthDatabase {
    var sessions: seq<Session>
    var tokens: seq<Token>

    function View(): Tables
      reads this
    {
      Tables(sessions, tokens)
    }

    constructor ()
      ensures View() == Tables([], [])
    {
      sessions, tokens := [], [];
    }

    method SignIn(user: nat, hash: Hash, expiresAt: Time) returns (created: bool)
      modifies this
      ensures created == CreateSession(old(View()), user, hash, expiresAt).Some?
      ensures View() == if created then CreateSession(old(View()), user, hash, expiresAt).value else old(View())
    {
      var saved := sessions;
      var id := |sessions|;
      sessions := sessions + [Session(user, hash, expiresAt, None)];
      if HashUsed(tokens, hash) {
        sessions := saved;
        return false;
      }
      tokens := tokens + [Token(id, id, hash, expiresAt, None, None, None)];
      created := true;
    }

    /** The two guarded updates of reuse detection. */
    method EndTokenFamily(family: nat, s: nat, now: Time)
      modifies this
      ensures View() == EndFamily(old(View()), family, s, now)
    {
      var i := 0;
      while i < |tokens|
        invariant 0 <= i <= |tokens| == |old(tokens)| && sessions == old(sessions)
        invariant forall k :: 0 <= k < i ==>
          tokens[k] == if old(tokens)[k].family == family then RevokeToken(old(tokens)[k], now) else old(tokens)[k]
        invariant forall k :: i <= k < |tokens| ==> tokens[k] == old(tokens)[k]
      {
        if tokens[i].family == family && tokens[i].revokedAt.None? {
          tokens := tokens[i := tokens[i].(revokedAt := Some(now))];
        }
        i := i + 1;
      }
      assert tokens == RevokeFamily(old(tokens), family, now);
      if s < |sessions| && sessions[s].revokedAt.None? {
        sessions := sessions[s := sessions[s].(revokedAt := Some(now))];
      }
    }

    /** `None` is a rolled-back transaction. */
    method RotateRefreshToken(hash: Hash, replacement: Hash, expiresAt: Time, active: bool, now: Time)
      returns (outcome: Option<Outcome>)
      modifies this
      ensures match Rotate(old(View()), hash, replacement, expiresAt, active, now)
        case None => outcome == None && View() == old(View())
        case Some(answer) => outcome == Some(answer.1) && View() == answer.0
    {
      var id := FindToken(tokens, hash, 0);
      if id.None? || tokens[id.value].session >= |sessions| {
        return Some(Invalid);
      }
      var token := tokens[id.value];
      var session := sessions[token.session];
      if token.consumedAt.Some? {
        EndTokenFamily(token.family, token.session, now);
        return Some(Reused);
      }
      if token.revokedAt.Some? || token.expiresAt <= now || session.revokedAt.Some?
         || session.expiresAt <= now || !active {
        return Some(Invalid);
      }
      var saved := tokens;
      var next := |tokens|;
      tokens := tokens[id.value := token.(consumedAt := Some(now), replacedBy := Some(next))];
      if HashUsed(saved, replacement) {
        tokens := saved;
        return None;
      }
      tokens := tokens + [Token(token.session, token.family, replacement, expiresAt, None, None, None)];
      sessions := sessions[token.session := session.(hash := replacement)];
      outcome := Some(Rotated);
    }

    /** The statement that closes the session; the tokens are revoked by a second one. */
    method RevokeSession(s: nat, user: nat, now: Time) returns (revoked: bool)
      modifies this`sessions
      ensures revoked == OwnedActive(old(View()), s, user)
      ensures sessions == if revoked then CloseSession(old(sessions), s, now) else old(sessions)
    {
      revoked := s < |sessions| && sessions[s].user == user && sessions[s].revokedAt.None?;
      if revoked {
        sessions := sessions[s := sessions[s].(revokedAt := Some(now))];
      }
    }

    method RevokeTokensOf(ids: set<nat>, now: Time)
      modifies this`tokens
      ensures tokens == RevokeSessionTokens(old(tokens), ids, now)
    {
      var i := 0;
      while i < |tokens|
        invariant 0 <= i <= |tokens| == |old(tokens)|
        invariant forall k :: 0 <= k < i ==>
          tokens[k] == if old(tokens)[k].session in ids then RevokeToken(old(tokens)[k], now) else old(tokens)[k]
        invariant forall k :: i <= k < |tokens| ==> tokens[k] == old(tokens)[k]
      {
        if tokens[i].session in ids && tokens[i].revokedAt.None? {
          tokens := tokens[i := tokens[i].(revokedAt := Some(now))];
        }
        i := i + 1;
      }
    }

    /** The answer that `TokenFamilies.ClosedExact` is about. */
    method IsSessionActive(s: nat, user: nat, active: bool, now: Time) returns (yes: bool)
      ensures yes <==> SessionActive(View(), s, user, active, now)
    {
      yes := s < |sessions| && sessions[s].user == user && sessions[s].revokedAt.None?
             && now < sessions[s].expiresAt && active;
    }
  }
}
