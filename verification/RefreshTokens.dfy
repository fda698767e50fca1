/**
 Refresh-token rotation with reuse detection. A rotation reads a token and its session, and
 only later commits its writes, so another rotation or a revocation may run in between.
 Rows are appended and never deleted: a row's id is its position.
 */
module RefreshTokens {
  import opened Results

  type Time = int
  type Hash = string

  datatype Session = Session(user: nat, hash: Hash, expiresAt: Time, revokedAt: Option<Time>)

  datatype Token = Token(
    session: nat, family: nat, hash: Hash, expiresAt: Time,
    consumedAt: Option<Time>, revokedAt: Option<Time>, replacedBy: Option<nat>)

  datatype Tables = Tables(sessions: seq<Session>, tokens: seq<Token>)

  /** What a rotation read: the token, its session and whether the user is active. */
  datatype Rotation = Rotation(
    id: nat, token: Token, session: Session, active: bool, now: Time,
    replacement: Hash, expiresAt: Time, committed: bool)

  datatype Outcome = Rotated | Reused | Invalid

  datatype System = System(t: Tables, clock: Time, rotations: seq<Rotation>)

  datatype Step =
    | Tick(ms: nat)
    | SignIn(user: nat, hash: Hash, expiresAt: Time)
    | Read(hash: Hash, replacement: Hash, expiresAt: Time, active: bool)
    | Commit(rotation: nat)
    | RevokeSession(session: nat, user: nat)
    | RevokeTokens(session: nat)
    | RevokeAll(sessions: set<nat>, user: nat)

  // ----- tables ----------------------------------------------------------------------

  predicate HashUsed(tokens: seq<Token>, hash: Hash) { exists k | k in tokens :: k.hash == hash }

  function FindToken(tokens: seq<Token>, hash: Hash, from: nat): (found: Option<nat>)
    requires from <= |tokens|
    ensures found.Some? ==> from <= found.value < |tokens| && tokens[found.value].hash == hash
    ensures found.None? ==> forall i :: from <= i < |tokens| ==> tokens[i].hash != hash
    decreases |tokens| - from
  {
    if from == |tokens| then None
    else if tokens[from].hash == hash then Some(from)
    else FindToken(tokens, hash, from + 1)
  }

  /** `None` is a violation of the unique token hash, which rolls the sign-in back. */
  function CreateSession(t: Tables, user: nat, hash: Hash, expiresAt: Time): Option<Tables> {
    if HashUsed(t.tokens, hash) then None
    else
      var s := |t.sessions|;
      Some(Tables(t.sessions + [Session(user, hash, expiresAt, None)],
                  t.tokens + [Token(s, s, hash, expiresAt, None, None, None)]))
  }

  function RevokeToken(k: Token, now: Time): Token {
    if k.revokedAt.None? then k.(revokedAt := Some(now)) else k
  }

  function RevokeFamily(tokens: seq<Token>, family: nat, now: Time): seq<Token> {
    seq(|tokens|, i requires 0 <= i < |tokens| =>
      if tokens[i].family == family then RevokeToken(tokens[i], now) else tokens[i])
  }

  function RevokeSessionTokens(tokens: seq<Token>, sessions: set<nat>, now: Time): seq<Token> {
    seq(|tokens|, i requires 0 <= i < |tokens| =>
      if tokens[i].session in sessions then RevokeToken(tokens[i], now) else tokens[i])
  }

  function CloseSession(sessions: seq<Session>, s: nat, now: Time): seq<Session> {
    if s < |sessions| && sessions[s].revokedAt.None?
    then sessions[s := sessions[s].(revokedAt := Some(now))] else sessions
  }

  /** The writes of reuse detection: the whole family and its session. */
  function EndFamily(t: Tables, family: nat, s: nat, now: Time): Tables {
    Tables(CloseSession(t.sessions, s, now), RevokeFamily(t.tokens, family, now))
  }

  /** What the reads alone decide: the token can still be presented. */
  predicate Presentable(r: Rotation) {
    && r.token.consumedAt.None? && r.token.revokedAt.None? && r.token.expiresAt > r.now
    && r.session.revokedAt.None? && r.session.expiresAt > r.now && r.active
  }

  predicate Claims(t: Tables, r: Rotation) {
    r.id < |t.tokens| && t.tokens[r.id].consumedAt.None? && t.tokens[r.id].revokedAt.None?
  }

  function Replace(t: Tables, r: Rotation): Tables
    requires Claims(t, r)
  {
    var next := |t.tokens|;
    var tokens := t.tokens[r.id := t.tokens[r.id].(consumedAt := Some(r.now), replacedBy := Some(next))];
    Tables(
      if r.token.session < |t.sessions|
      then t.sessions[r.token.session := t.sessions[r.token.session].(hash := r.replacement)] else t.sessions,
      tokens + [Token(r.token.session, r.token.family, r.replacement, r.expiresAt, None, None, None)])
  }

  /** `None` is a rolled-back transaction: the replacement's hash is already taken. */
  function CommitRotation(t: Tables, r: Rotation): Option<(Tables, Outcome)> {
    if r.token.consumedAt.Some? then Some((EndFamily(t, r.token.family, r.token.session, r.now), Reused))
    else if !Presentable(r) then Some((t, Invalid))
    else if !Claims(t, r) then Some((EndFamily(t, r.token.family, r.token.session, r.now), Reused))
    else if HashUsed(t.tokens, r.replacement) then None
    else Some((Replace(t, r), Rotated))
  }

  function ReadRotation(t: Tables, hash: Hash, replacement: Hash, expiresAt: Time, active: bool, now: Time): Option<Rotation> {
    match FindToken(t.tokens, hash, 0)
    case None => None
    case Some(id) =>
      if t.tokens[id].session < |t.sessions|
      then Some(Rotation(id, t.tokens[id], t.sessions[t.tokens[id].session], active, now, replacement, expiresAt, false))
      else None
  }

  predicate OwnedActive(t: Tables, s: nat, user: nat) {
    s < |t.sessions| && t.sessions[s].user == user && t.sessions[s].revokedAt.None?
  }

  /** What a request that carries a session's access token is checked for. */
  predicate SessionActive(t: Tables, s: nat, user: nat, active: bool, now: Time) {
    OwnedActive(t, s, user) && now < t.sessions[s].expiresAt && active
  }

  function RevokeAllSessions(t: Tables, ids: set<nat>, user: nat, now: Time): Tables {
    Tables(
      seq(|t.sessions|, i requires 0 <= i < |t.sessions| =>
        if i in ids && t.sessions[i].user == user then t.sessions[i].(revokedAt := Some(now)) else t.sessions[i]),
      RevokeSessionTokens(t.tokens, ids, now))
  }

  // ----- steps -----------------------------------------------------------------------

  function StepCommit(sys: System, r: nat): System {
    if r < |sys.rotations| && !sys.rotations[r].committed then
      var done := sys.(rotations := sys.rotations[r := sys.rotations[r].(committed := true)]);
      match CommitRotation(sys.t, sys.rotations[r])
      case None => done
      case Some(answer) => done.(t := answer.0)
    else sys
  }

  function Next(sys: System, step: Step): System {
    match step
    case Tick(ms) => sys.(clock := sys.clock + ms)
    case SignIn(user, hash, expiresAt) =>
      (match CreateSession(sys.t, user, hash, expiresAt)
       case None => sys
       case Some(t) => sys.(t := t))
    case Read(hash, replacement, expiresAt, active) =>
      (match ReadRotation(sys.t, hash, replacement, expiresAt, active, sys.clock)
       case None => sys
       case Some(r) => sys.(rotations := sys.rotations + [r]))
    case Commit(r) => StepCommit(sys, r)
    case RevokeSession(s, user) =>
      if OwnedActive(sys.t, s, user)
      then sys.(t := sys.t.(sessions := CloseSession(sys.t.sessions, s, sys.clock))) else sys
    case RevokeTokens(s) =>
      if s < |sys.t.sessions| && sys.t.sessions[s].revokedAt.Some?
      then sys.(t := sys.t.(tokens := RevokeSessionTokens(sys.t.tokens, {s}, sys.clock))) else sys
    case RevokeAll(ids, user) =>
      if forall s | s in ids :: s < |sys.t.sessions| && sys.t.sessions[s].user == user
      then sys.(t := RevokeAllSessions(sys.t, ids, user, sys.clock)) else sys
  }

  function Run(sys: System, steps: seq<Step>): System
    decreases |steps|
  {
    if |steps| == 0 then sys else Run(Next(sys, steps[0]), steps[1..])
  }

  predicate Empty(sys: System) { sys.t == Tables([], []) && sys.rotations == [] }

  // ----- families --------------------------------------------------------------------

  /** The tokens of a family, oldest first. */
  function Chain(tokens: seq<Token>, family: nat): seq<nat> {
    if |tokens| == 0 then []
    else
      var n := |tokens| - 1;
      Chain(tokens[..n], family) + if tokens[n].family == family then [n] else []
  }

  /** Exactly the family's tokens, in order of insertion. */
  ghost predicate Members(tokens: seq<Token>, family: nat, c: seq<nat>) {
    && (forall i :: 0 <= i < |c| ==> c[i] < |tokens| && tokens[c[i]].family == family)
    && (forall i, j :: 0 <= i < j < |c| ==> c[i] < c[j])
    && (forall id: nat :: id < |tokens| && tokens[id].family == family ==> id in c)
  }

  lemma MembersGrow(tokens: seq<Token>, k: Token, family: nat, c: seq<nat>)
    requires Members(tokens, family, c)
    ensures Members(tokens + [k], family, c + if k.family == family then [|tokens|] else [])
  {
  }

  lemma {:induction false} ChainMembers(tokens: seq<Token>, family: nat)
    ensures Members(tokens, family, Chain(tokens, family))
  {
    if |tokens| > 0 {
      var n := |tokens| - 1;
      ChainMembers(tokens[..n], family);
      MembersGrow(tokens[..n], tokens[n], family, Chain(tokens[..n], family));
      assert tokens[..n] + [tokens[n]] == tokens;
    }
  }

  lemma {:induction false} ChainSame(a: seq<Token>, b: seq<Token>, family: nat)
    requires |a| == |b|
    requires forall i :: 0 <= i < |a| ==> a[i].family == b[i].family
    ensures Chain(a, family) == Chain(b, family)
  {
    if |a| > 0 {
      ChainSame(a[..|a| - 1], b[..|b| - 1], family);
    }
  }

  lemma ChainAppend(tokens: seq<Token>, k: Token, family: nat)
    ensures Chain(tokens + [k], family)
         == Chain(tokens, family) + if k.family == family then [|tokens|] else []
  {
    assert (tokens + [k])[..|tokens|] == tokens;
  }

  /** One line of successors: all but the newest are consumed and name the next one. */
  ghost predicate Line(tokens: seq<Token>, c: seq<nat>) {
    && (forall i :: 0 <= i < |c| ==> c[i] < |tokens|)
    && (forall i :: 0 <= i < |c| - 1 ==>
         tokens[c[i]].consumedAt.Some? && tokens[c[i]].replacedBy == Some(c[i + 1]))
    && (|c| > 0 ==> tokens[c[|c| - 1]].consumedAt.None? && tokens[c[|c| - 1]].replacedBy.None?)
  }

  ghost predicate Linear(tokens: seq<Token>, family: nat) { Line(tokens, Chain(tokens, family)) }

  /** A line stays one as long as its own tokens keep their consumption and successor. */
  lemma LineFrame(tokens: seq<Token>, tokens': seq<Token>, c: seq<nat>)
    requires Line(tokens, c) && |tokens| <= |tokens'|
    requires forall i :: 0 <= i < |c| && c[i] < |tokens| ==>
      tokens'[c[i]].consumedAt == tokens[c[i]].consumedAt && tokens'[c[i]].replacedBy == tokens[c[i]].replacedBy
    ensures Line(tokens', c)
  {
  }

  ghost predicate Shaped(t: Tables) {
    && (forall k :: 0 <= k < |t.tokens| ==>
         t.tokens[k].session < |t.sessions| && t.tokens[k].family == t.tokens[k].session)
    && (forall i, j :: 0 <= i < j < |t.tokens| ==> t.tokens[i].hash != t.tokens[j].hash)
  }

  /** The session remembers the hash of the newest token of its family. */
  ghost predicate Remembered(t: Tables) {
    forall s: nat :: s < |t.sessions| ==>
      var c := Chain(t.tokens, s);
      |c| > 0 && c[|c| - 1] < |t.tokens| && t.tokens[c[|c| - 1]].hash == t.sessions[s].hash
  }

  /** What an uncommitted rotation read is an earlier state of the same row. */
  ghost predicate Snapshots(sys: System) {
    forall r :: 0 <= r < |sys.rotations| ==>
      var rot := sys.rotations[r];
      && rot.id < |sys.t.tokens|
      && rot.now <= sys.clock
      && rot.token.session == sys.t.tokens[rot.id].session < |sys.t.sessions|
      && rot.token.family == sys.t.tokens[rot.id].family
      && rot.session.expiresAt == sys.t.sessions[rot.token.session].expiresAt
      && (rot.token.consumedAt.Some? ==> sys.t.tokens[rot.id].consumedAt.Some?)
  }

  ghost predicate Inv(sys: System) {
    && Shaped(sys.t)
    && (forall f: nat :: Linear(sys.t.tokens, f))
    && Remembered(sys.t)
    && Snapshots(sys)
  }

  // ----- every step keeps it ---------------------------------------------------------

  /** A token that could still be exchanged. */
  predicate Usable(t: Tables, id: nat) {
    id < |t.tokens| && t.tokens[id].consumedAt.None? && t.tokens[id].revokedAt.None?
  }

  /** Writes that only revoke change no chain, no consumption and no hash. */
  ghost predicate OnlyRevokes(t: Tables, t': Tables) {
    && |t'.sessions| == |t.sessions| && |t'.tokens| == |t.tokens|
    && (forall k :: 0 <= k < |t.tokens| ==>
         t'.tokens[k] == t.tokens[k].(revokedAt := t'.tokens[k].revokedAt)
         && (t.tokens[k].revokedAt.Some? ==> t'.tokens[k].revokedAt.Some?))
    && (forall s :: 0 <= s < |t.sessions| ==>
         t'.sessions[s] == t.sessions[s].(revokedAt := t'.sessions[s].revokedAt)
         && (t.sessions[s].revokedAt.Some? ==> t'.sessions[s].revokedAt.Some?))
  }

  lemma RevokingKeeps(sys: System, t': Tables)
    requires Inv(sys) && OnlyRevokes(sys.t, t')
    ensures Inv(sys.(t := t'))
  {
    forall f: nat ensures Chain(t'.tokens, f) == Chain(sys.t.tokens, f) && Linear(t'.tokens, f) {
      ChainSame(t'.tokens, sys.t.tokens, f);
      assert Linear(sys.t.tokens, f);
      LineFrame(sys.t.tokens, t'.tokens, Chain(sys.t.tokens, f));
    }
  }

  function Claimed(t: Tables, r: Rotation): seq<Token>
    requires Claims(t, r)
  {
    t.tokens[r.id := t.tokens[r.id].(consumedAt := Some(r.now), replacedBy := Some(|t.tokens|))]
  }

  lemma ReplaceChain(t: Tables, r: Rotation, f: nat)
    requires Claims(t, r)
    ensures Chain(Replace(t, r).tokens, f) == Chain(t.tokens, f) + if f == r.token.family then [|t.tokens|] else []
  {
    ChainSame(t.tokens, Claimed(t, r), f);
    ChainAppend(Claimed(t, r), Replace(t, r).tokens[|t.tokens|], f);
  }

  lemma UsableIsNewest(t: Tables, id: nat)
    requires Usable(t, id) && Linear(t.tokens, t.tokens[id].family)
    ensures var c := Chain(t.tokens, t.tokens[id].family);
      |c| > 0 && c[|c| - 1] == id
  {
    ChainMembers(t.tokens, t.tokens[id].family);
  }

  lemma OtherLineStays(t: Tables, r: Rotation, f: nat)
    requires Claims(t, r) && Linear(t.tokens, f) && f != t.tokens[r.id].family
    ensures Line(Replace(t, r).tokens, Chain(t.tokens, f))
  {
    ChainMembers(t.tokens, f);
    LineFrame(t.tokens, Replace(t, r).tokens, Chain(t.tokens, f));
  }

  lemma ReplaceKeepsLinear(t: Tables, r: Rotation, f: nat)
    requires Shaped(t) && Claims(t, r) && Linear(t.tokens, f)
    requires r.token.family == t.tokens[r.id].family
    ensures Linear(Replace(t, r).tokens, f)
    ensures Chain(Replace(t, r).tokens, f) == Chain(t.tokens, f) + if f == r.token.family then [|t.tokens|] else []
    ensures f == r.token.family ==>
      |Chain(t.tokens, f)| > 0 && Chain(t.tokens, f)[|Chain(t.tokens, f)| - 1] == r.id
  {
    ReplaceChain(t, r, f);
    if f == r.token.family {
      UsableIsNewest(t, r.id);
      ChainMembers(t.tokens, f);
      ClaimExtendsLine(t, r);
    } else {
      OtherLineStays(t, r, f);
    }
  }

  lemma ClaimExtendsLine(t: Tables, r: Rotation)
    requires Claims(t, r) && r.token.family == t.tokens[r.id].family && Linear(t.tokens, r.token.family)
    requires var c := Chain(t.tokens, r.token.family);
      |c| > 0 && c[|c| - 1] == r.id && forall i, j :: 0 <= i < j < |c| ==> c[i] < c[j]
    requires Chain(Replace(t, r).tokens, r.token.family) == Chain(t.tokens, r.token.family) + [|t.tokens|]
    ensures Linear(Replace(t, r).tokens, r.token.family)
  {
    var c := Chain(t.tokens, r.token.family);
    var tokens' := Replace(t, r).tokens;
    forall i | 0 <= i < |c| - 1 ensures tokens'[c[i]] == t.tokens[c[i]] { assert c[i] < c[|c| - 1]; }
  }

  lemma HashFresh(tokens: seq<Token>, hash: Hash)
    requires !HashUsed(tokens, hash)
    ensures forall i :: 0 <= i < |tokens| ==> tokens[i].hash != hash
  {
    forall i | 0 <= i < |tokens| ensures tokens[i].hash != hash { assert tokens[i] in tokens; }
  }

  lemma MarkCommittedKeeps(sys: System, r: nat)
    requires Inv(sys) && r < |sys.rotations|
    ensures Inv(sys.(rotations := sys.rotations[r := sys.rotations[r].(committed := true)]))
  {
  }

  lemma EndFamilyRevokes(t: Tables, family: nat, s: nat, now: Time)
    ensures OnlyRevokes(t, EndFamily(t, family, s, now))
  {
  }

  lemma CommitKeeps(sys: System, r: nat)
    requires Inv(sys)
    ensures Inv(StepCommit(sys, r))
  {
    if r < |sys.rotations| && !sys.rotations[r].committed {
      var rot := sys.rotations[r];
      var done := sys.(rotations := sys.rotations[r := rot.(committed := true)]);
      MarkCommittedKeeps(sys, r);
      var answer := CommitRotation(sys.t, rot);
      if answer.Some? && answer.value.1.Rotated? {
        RotatedKeeps(done, rot);
      } else if answer.Some? {
        EndFamilyRevokes(sys.t, rot.token.family, rot.token.session, rot.now);
        RevokingKeeps(done, answer.value.0);
      }
    }
  }

  lemma RotatedRemembers(t: Tables, rot: Rotation)
    requires Shaped(t) && Remembered(t) && Claims(t, rot)
    requires rot.token.session == t.tokens[rot.id].session && rot.token.family == t.tokens[rot.id].family
    requires forall f: nat ::
      Chain(Replace(t, rot).tokens, f) == Chain(t.tokens, f) + if f == rot.token.family then [|t.tokens|] else []
    ensures Remembered(Replace(t, rot))
  {
    var t' := Replace(t, rot);
    forall s: nat | s < |t'.sessions|
      ensures var c := Chain(t'.tokens, s);
        |c| > 0 && c[|c| - 1] < |t'.tokens| && t'.tokens[c[|c| - 1]].hash == t'.sessions[s].hash
    {
      assert Chain(t'.tokens, s) == Chain(t.tokens, s) + if s == rot.token.family then [|t.tokens|] else [];
    }
  }

  lemma RotatedShaped(t: Tables, rot: Rotation)
    requires Shaped(t) && Claims(t, rot) && !HashUsed(t.tokens, rot.replacement)
    requires rot.token.session == t.tokens[rot.id].session && rot.token.family == t.tokens[rot.id].family
    ensures Shaped(Replace(t, rot))
  {
    HashFresh(t.tokens, rot.replacement);
  }

  lemma RotatedKeeps(sys: System, rot: Rotation)
    requires Inv(sys) && Claims(sys.t, rot) && !HashUsed(sys.t.tokens, rot.replacement)
    requires rot.token.session == sys.t.tokens[rot.id].session
    requires rot.token.family == sys.t.tokens[rot.id].family
    ensures Inv(sys.(t := Replace(sys.t, rot)))
  {
    var t, t' := sys.t, Replace(sys.t, rot);
    forall f: nat
      ensures Linear(t'.tokens, f)
      ensures Chain(t'.tokens, f) == Chain(t.tokens, f) + if f == rot.token.family then [|t.tokens|] else []
    {
      assert Linear(t.tokens, f);
      ReplaceKeepsLinear(t, rot, f);
    }
    RotatedShaped(t, rot);
    RotatedRemembers(t, rot);
  }

  lemma {:induction false} NoTokensNoChain(tokens: seq<Token>, f: nat)
    requires forall k :: 0 <= k < |tokens| ==> tokens[k].family != f
    ensures Chain(tokens, f) == []
  {
    if |tokens| > 0 { NoTokensNoChain(tokens[..|tokens| - 1], f); }
  }

  lemma FirstTokenLinear(tokens: seq<Token>, k: Token, f: nat)
    requires Linear(tokens, f) && k.consumedAt.None? && k.replacedBy.None?
    requires k.family == f ==> Chain(tokens, f) == []
    ensures Linear(tokens + [k], f)
    ensures Chain(tokens + [k], f) == Chain(tokens, f) + if k.family == f then [|tokens|] else []
  {
    ChainAppend(tokens, k, f);
  }

  lemma SignInKeepsLines(sys: System, hash: Hash, expiresAt: Time, f: nat)
    requires Inv(sys)
    ensures var s := |sys.t.sessions|;
      var tokens := sys.t.tokens + [Token(s, s, hash, expiresAt, None, None, None)];
      && Linear(tokens, f)
      && Chain(tokens, f) == Chain(sys.t.tokens, f) + if s == f then [|sys.t.tokens|] else []
  {
    var s := |sys.t.sessions|;
    NoTokensNoChain(sys.t.tokens, s);
    assert Linear(sys.t.tokens, f);
    FirstTokenLinear(sys.t.tokens, Token(s, s, hash, expiresAt, None, None, None), f);
  }

  lemma SignInShaped(t: Tables, user: nat, hash: Hash, expiresAt: Time)
    requires Shaped(t) && CreateSession(t, user, hash, expiresAt).Some?
    ensures Shaped(CreateSession(t, user, hash, expiresAt).value)
  {
    HashFresh(t.tokens, hash);
  }

  lemma SignInKeeps(sys: System, user: nat, hash: Hash, expiresAt: Time)
    requires Inv(sys) && !HashUsed(sys.t.tokens, hash)
    ensures Inv(Next(sys, SignIn(user, hash, expiresAt)))
  {
    var t, t' := sys.t, Next(sys, SignIn(user, hash, expiresAt)).t;
    SignInShaped(t, user, hash, expiresAt);
    forall f: nat
      ensures Linear(t'.tokens, f)
      ensures Chain(t'.tokens, f) == Chain(t.tokens, f) + if |t.sessions| == f then [|t.tokens|] else []
    {
      SignInKeepsLines(sys, hash, expiresAt, f);
    }
  }

  lemma ReadKeeps(sys: System, hash: Hash, replacement: Hash, expiresAt: Time, active: bool)
    requires Inv(sys)
    ensures Inv(Next(sys, Read(hash, replacement, expiresAt, active)))
  {
  }

  lemma RevocationsOnlyRevoke(sys: System, step: Step)
    requires step.RevokeSession? || step.RevokeTokens? || step.RevokeAll?
    ensures OnlyRevokes(sys.t, Next(sys, step).t)
    ensures Next(sys, step) == sys.(t := Next(sys, step).t)
  {
  }

  lemma NextKeeps(sys: System, step: Step)
    requires Inv(sys)
    ensures Inv(Next(sys, step))
  {
    match step
    case SignIn(user, hash, expiresAt) =>
      if !HashUsed(sys.t.tokens, hash) { SignInKeeps(sys, user, hash, expiresAt); }
    case Commit(r) => CommitKeeps(sys, r);
    case Tick(ms) => assert Snapshots(Next(sys, step));
    case Read(hash, replacement, expiresAt, active) => ReadKeeps(sys, hash, replacement, expiresAt, active);
    case _ =>
      RevocationsOnlyRevoke(sys, step);
      RevokingKeeps(sys, Next(sys, step).t);
  }

  lemma {:induction false} InvKept(sys: System, steps: seq<Step>)
    requires Inv(sys)
    ensures Inv(Run(sys, steps))
    decreases |steps|
  {
    if |steps| > 0 {
      NextKeeps(sys, steps[0]);
      InvKept(Next(sys, steps[0]), steps[1..]);
    }
  }

  lemma EmptyInv(start: System)
    requires Empty(start)
    ensures Inv(start)
  {
  }
}
