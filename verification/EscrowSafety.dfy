/** What the escrow protocol promises over whole runs, and where a promise needs an assumption. */
module EscrowSafety {
  import opened Escrow
  import opened Results

  lemma OpenedInv(m: Market)
    requires Opened(m)
    ensures MarketInv(m)
  {
  }

  // ----- main results: rows ----------------------------------------------------------

  /** An offer has a release row exactly when it is countered, rejected or expired; never while open or accepted. */
  lemma ReleaseRowExact(start: Market, steps: seq<Step>, o: nat)
    requires Opened(start)
    ensures var m := Run(start, steps);
      o in m.releases <==> o < |m.offers| && Settled(m.offers[o].status)
  {
    OpenedInv(start);
    InvKept(start, steps);
  }

  /** However sellers race, a listing sells once. */
  lemma OneAcceptedPerListing(start: Market, steps: seq<Step>, o: nat, k: nat)
    requires Opened(start)
    ensures var m := Run(start, steps);
      (&& o < |m.offers| && m.offers[o].status.Accepted?
       && k < |m.offers| && m.offers[k].status.Accepted?
       && m.offers[o].listing == m.offers[k].listing) ==> o == k
  {
    OpenedInv(start);
    InvKept(start, steps);
  }

  /** Every hold a finished request obtained is on an offer or released, unless a lookup or its own release failed. */
  lemma HoldsNeverLost(start: Market, steps: seq<Step>, r: nat)
    requires Opened(start)
    ensures var m := Run(start, steps);
      r < |m.requests| && m.requests[r].phase.Ended? && m.requests[r].phase.held.Some? && !m.requests[r].phase.lost ==>
        HoldTaken(m.offers, m.requests[r].phase.held.value) || m.requests[r].phase.held.value in m.acknowledged
  {
    OpenedInv(start);
    InvKept(start, steps);
  }

  ghost predicate Kept(m: Market, phase: Phase) {
    phase.Ended? && phase.held.Some? ==> HoldTaken(m.offers, phase.held.value) || phase.held.value in m.acknowledged
  }

  /** The hold of every finished request is on an offer or released. */
  ghost predicate AllKept(m: Market) {
    forall r :: 0 <= r < |m.requests| ==> Kept(m, m.requests[r].phase)
  }

  predicate Stray(m: Market, hold: nat) { !HoldTaken(m.offers, hold) && hold !in m.acknowledged }

  /** A lookup or the compensating release fails for a hold that is neither on an offer nor released. */
  predicate Drops(m: Market, step: Step) {
    match step
    case FindReplay(r, fails) =>
      fails && r < |m.requests| && m.requests[r].phase.Refused? && Stray(m, m.requests[r].phase.hold)
    case FindOwner(r, fails) =>
      fails && r < |m.requests| && m.requests[r].phase.NoReplay? && Stray(m, m.requests[r].phase.hold)
    case Compensate(r, ok) =>
      !ok && r < |m.requests| && m.requests[r].phase.Compensating? && Stray(m, m.requests[r].phase.hold)
    case _ => false
  }

  lemma HoldStaysTaken(m: Market, m': Market, hold: nat)
    requires OffersKept(m, m') && HoldTaken(m.offers, hold)
    ensures HoldTaken(m'.offers, hold)
  {
    var o :| 0 <= o < |m.offers| && m.offers[o].hold == hold;
    assert m'.offers[o].hold == hold;
  }

  /** What was kept stays kept: offers are never removed and acknowledgements never taken back. */
  lemma KeptGrows(m: Market, m': Market, phase: Phase)
    requires OffersKept(m, m') && m.acknowledged <= m'.acknowledged && Kept(m, phase)
    ensures Kept(m', phase)
  {
    if phase.Ended? && phase.held.Some? && HoldTaken(m.offers, phase.held.value) {
      HoldStaysTaken(m, m', phase.held.value);
    }
  }

  /** The request of a step ends with its hold kept, or the step drops it. */
  lemma EndsKeptExact(m: Market, r: nat, step: Step)
    requires MarketInv(m) && r < |m.requests| && OfRequest(step) && step.r == r && Kept(m, m.requests[r].phase)
    ensures Kept(RequestNext(m, r, step), RequestNext(m, r, step).requests[r].phase) <==> !Drops(m, step)
  {
    var q := m.requests[r];
    match step
    case Commit(_, _) =>
      if q.phase.Holding? && InsertOffer(m, q, q.phase.hold).Some? { InsertKeeps(m, q, q.phase.hold); }
    case FindReplay(_, _) =>
      if q.phase.Refused? && ReplayHolds(m.offers, q.key, q.phase.hold) { ReplayIsTaken(m.offers, q.key, q.phase.hold); }
    case _ =>
  }

  lemma OtherRequestsSame(m: Market, r: nat, step: Step)
    requires MarketInv(m) && r < |m.requests|
    ensures var m' := RequestNext(m, r, step);
      && |m'.requests| == |m.requests| && m.acknowledged <= m'.acknowledged
      && forall q :: 0 <= q < |m.requests| && q != r ==> m'.requests[q] == m.requests[q]
  {
    if step.Commit? {
      if m.requests[r].phase.Holding? { CommitFrame(m, r, m.requests[r].phase.hold, step.outcome); }
    } else {
      PhaseFrame(m, r, step);
    }
  }

  lemma RequestStepKeptExact(m: Market, step: Step)
    requires MarketInv(m) && AllKept(m) && OfRequest(step) && step.r < |m.requests|
    ensures AllKept(RequestNext(m, step.r, step)) <==> !Drops(m, step)
  {
    var m' := RequestNext(m, step.r, step);
    RequestKeeps(m, step.r, step);
    OtherRequestsSame(m, step.r, step);
    assert Kept(m, m.requests[step.r].phase);
    EndsKeptExact(m, step.r, step);
    forall q | 0 <= q < |m.requests| && q != step.r ensures Kept(m', m'.requests[q].phase) {
      KeptGrows(m, m', m.requests[q].phase);
    }
  }

  lemma OtherStepKeeps(m: Market, step: Step)
    requires MarketInv(m) && AllKept(m) && !OfRequest(step)
    ensures AllKept(Next(m, step))
  {
    var m' := Next(m, step);
    NextKeeps(m, step);
    OthersKeepRequests(m, step);
    forall r | 0 <= r < |m'.requests| ensures Kept(m', m'.requests[r].phase) {
      if r < |m.requests| { KeptGrows(m, m', m.requests[r].phase); }
    }
  }

  lemma OthersKeepRequests(m: Market, step: Step)
    requires MarketInv(m) && !OfRequest(step)
    ensures var m' := Next(m, step);
      && m.acknowledged <= m'.acknowledged && |m.requests| <= |m'.requests|
      && (forall r :: 0 <= r < |m.requests| ==> m'.requests[r] == m.requests[r])
      && (forall r :: |m.requests| <= r < |m'.requests| ==> m'.requests[r].phase.Ready?)
  {
    if step.ExpireOffers? { ExpireAllKeeps(m, step.batch); }
  }

  /** A step leaves a finished request's hold neither on an offer nor released if and only if it drops it. */
  lemma KeptStepExact(m: Market, step: Step)
    requires MarketInv(m) && AllKept(m)
    ensures AllKept(Next(m, step)) <==> !Drops(m, step)
  {
    if OfRequest(step) {
      if step.r < |m.requests| { RequestStepKeptExact(m, step); }
    } else {
      OtherStepKeeps(m, step);
    }
  }

  ghost predicate KeptThroughout(m: Market, steps: seq<Step>)
    decreases |steps|
  {
    AllKept(m) && (|steps| > 0 ==> KeptThroughout(Next(m, steps[0]), steps[1..]))
  }

  predicate NeverDrops(m: Market, steps: seq<Step>)
    decreases |steps|
  {
    |steps| > 0 ==> !Drops(m, steps[0]) && NeverDrops(Next(m, steps[0]), steps[1..])
  }

  lemma {:induction false} KeptThroughoutExact(m: Market, steps: seq<Step>)
    requires MarketInv(m) && AllKept(m)
    ensures KeptThroughout(m, steps) <==> NeverDrops(m, steps)
    decreases |steps|
  {
    if |steps| > 0 {
      KeptStepExact(m, steps[0]);
      NextKeeps(m, steps[0]);
      if !Drops(m, steps[0]) {
        KeptThroughoutExact(Next(m, steps[0]), steps[1..]);
      } else {
        assert !KeptThroughout(Next(m, steps[0]), steps[1..]);
      }
    }
  }

  /** Over every run: no finished request's hold is ever lost exactly when no failing lookup or release drops one. */
  lemma HoldsKeptExact(start: Market, steps: seq<Step>)
    requires Opened(start)
    ensures KeptThroughout(start, steps) <==> NeverDrops(start, steps)
  {
    OpenedInv(start);
    KeptThroughoutExact(start, steps);
  }

  /** A release is marked RELEASED only after the provider acknowledged it, even with slow workers. */
  lemma ReleasedWasAcknowledged(start: Market, steps: seq<Step>, o: nat)
    requires Opened(start)
    ensures var m := Run(start, steps);
      o in m.releases && m.releases[o].status.Released? ==> o < |m.offers| && m.offers[o].hold in m.acknowledged
  {
    OpenedInv(start);
    InvKept(start, steps);
  }

  lemma {:induction false} RunConcat(m: Market, a: seq<Step>, b: seq<Step>)
    ensures Run(m, a + b) == Run(Run(m, a), b)
    decreases |a|
  {
    if |a| == 0 {
      assert a + b == b;
    } else {
      assert (a + b)[0] == a[0] && (a + b)[1..] == a[1..] + b;
      RunConcat(Next(m, a[0]), a[1..], b);
    }
  }

  /** An offer that left OPEN stays as it is, whatever happens later. */
  lemma ClosedOfferIsFinal(start: Market, before: seq<Step>, after: seq<Step>, o: nat)
    requires Opened(start)
    ensures var m := Run(start, before);
      o < |m.offers| && !m.offers[o].status.Open? ==>
        o < |Run(start, before + after).offers| && Run(start, before + after).offers[o] == m.offers[o]
  {
    OpenedInv(start);
    InvKept(start, before);
    RunConcat(start, before, after);
    InvKept(Run(start, before), after);
  }

  // ----- a released hold is not in use -----------------------------------------------

  predicate Live(status: OfferStatus) { status.Open? || status.Accepted? }

  /** No hold that the provider has let go still pays for an offer. */
  ghost predicate SafeHolds(m: Market) {
    forall o :: 0 <= o < |m.offers| && Live(m.offers[o].status) ==> m.offers[o].hold !in m.acknowledged
  }

  predicate InFlight(phase: Phase) {
    phase.Holding? || phase.Refused? || phase.NoReplay? || phase.Compensating?
  }

  ghost predicate HeldBy(m: Market, r: int, hold: nat) {
    && 0 <= r < |m.requests|
    && var phase := m.requests[r].phase;
       (InFlight(phase) && phase.hold == hold) || (phase.Ended? && phase.held == Some(hold))
  }

  /** The provider has given out this reference before. */
  ghost predicate Used(m: Market, hold: nat) {
    HoldTaken(m.offers, hold) || hold in m.acknowledged || exists r :: HeldBy(m, r, hold)
  }

  /** A provider that answers every call with a new reference. */
  ghost predicate FreshStep(m: Market, step: Step) { step.Hold? ==> !Used(m, step.hold) }

  ghost predicate FreshRun(m: Market, steps: seq<Step>)
    decreases |steps|
  {
    |steps| == 0 || (FreshStep(m, steps[0]) && FreshRun(Next(m, steps[0]), steps[1..]))
  }

  /**
   A hold in flight is neither on an offer nor let go, except that a commit whose client saw an error
   may have put it on the offer under the request's own key.
   */
  ghost predicate Loose(m: Market, r: int) {
    && 0 <= r < |m.requests|
    && var q := m.requests[r];
       InFlight(q.phase) && !Stray(m, q.phase.hold) ==>
         q.phase.Refused? && ReplayHolds(m.offers, q.key, q.phase.hold)
  }

  /** A hold in flight belongs to one request and to nothing else. */
  ghost predicate FlightInv(m: Market) {
    && (forall r :: 0 <= r < |m.requests| ==> Loose(m, r))
    && (forall r, q :: 0 <= r < q < |m.requests| && InFlight(m.requests[r].phase) && InFlight(m.requests[q].phase) ==>
         m.requests[r].phase.hold != m.requests[q].phase.hold)
  }

  /** The steps that let go of a hold in use, or put a hold in use that was let go. */
  ghost predicate Unsafe(m: Market, step: Step) {
    match step
    case Compensate(r, ok) =>
      && ok && r < |m.requests| && m.requests[r].phase.Compensating?
      && exists o :: 0 <= o < |m.offers| && Live(m.offers[o].status) && m.offers[o].hold == m.requests[r].phase.hold
    case Commit(r, outcome) =>
      && !outcome.RolledBack? && r < |m.requests| && m.requests[r].phase.Holding?
      && InsertOffer(m, m.requests[r], m.requests[r].phase.hold).Some?
      && m.requests[r].phase.hold in m.acknowledged
    case _ => false
  }

  lemma ClosingIsSafe(m: Market, m': Market)
    requires SafeHolds(m) && OffersKept(m, m') && |m'.offers| == |m.offers| && m'.acknowledged == m.acknowledged
    requires forall o :: 0 <= o < |m.offers| && Live(m'.offers[o].status) ==> Live(m.offers[o].status)
    ensures SafeHolds(m')
  {
  }

  lemma WorkerIsSafe(m: Market, w: nat, ok: bool)
    requires MarketInv(m) && SafeHolds(m)
    ensures SafeHolds(Next(m, ProviderAnswers(w, ok)))
  {
    if w < |m.attempts| && m.attempts[w].Calling? && m.attempts[w].offer < |m.offers| {
      var settled := m.attempts[w].offer;
      assert settled in m.releases;
      forall o | 0 <= o < |m.offers| && Live(m.offers[o].status) ensures m.offers[o].hold != m.offers[settled].hold {
        if o < settled {} else if settled < o {}
      }
    }
  }

  lemma InsertExact(m: Market, r: nat, outcome: Outcome)
    requires MarketInv(m) && SafeHolds(m) && r < |m.requests| && m.requests[r].phase.Holding? && !outcome.RolledBack?
    ensures SafeHolds(Next(m, Commit(r, outcome))) <==> !Unsafe(m, Commit(r, outcome))
  {
    var q := m.requests[r];
    var inserted := InsertOffer(m, q, q.phase.hold);
    if inserted.Some? {
      var m' := Next(m, Commit(r, outcome));
      assert m'.offers[|m.offers|].hold == q.phase.hold && Live(m'.offers[|m.offers|].status);
      forall o | 0 <= o < |m.offers| && Live(m'.offers[o].status) ensures m'.offers[o].hold !in m'.acknowledged {
        assert Live(m.offers[o].status) && m'.offers[o].hold == m.offers[o].hold;
      }
    }
  }

  /**
   Exactly which steps break safety: a compensating release of a hold that is in use by then, and
   the commit of an offer whose hold was already let go. Every other step keeps it.
   */
  lemma UnsafeStepExact(m: Market, step: Step)
    requires MarketInv(m) && SafeHolds(m)
    ensures SafeHolds(Next(m, step)) <==> !Unsafe(m, step)
  {
    match step
    case Commit(r, outcome) =>
      if r < |m.requests| && m.requests[r].phase.Holding? && !outcome.RolledBack? { InsertExact(m, r, outcome); }
    case AcceptOffer(o, seller) => if MayAccept(m, o, seller) { AcceptIsSafe(m, o, seller); }
    case ExpireOffers(batch) => ExpireIsSafe(m, batch);
    case ProviderAnswers(w, ok) => WorkerIsSafe(m, w, ok);
    case _ =>
  }

  lemma AcceptIsSafe(m: Market, o: nat, seller: nat)
    requires MarketInv(m) && SafeHolds(m) && MayAccept(m, o, seller)
    ensures SafeHolds(Accept(m, o))
  {
    AcceptKeeps(m, o, seller);
    ClosingIsSafe(m, Accept(m, o));
  }

  lemma {:induction false} ExpireIsSafe(m: Market, batch: seq<nat>)
    requires MarketInv(m) && SafeHolds(m)
    ensures SafeHolds(ExpireAll(m, batch))
  {
    ExpireAllKeeps(m, batch);
    ClosingIsSafe(m, ExpireAll(m, batch));
  }

  // ----- a fresh provider never takes an unsafe step ---------------------------------

  lemma FlightMeansSafe(m: Market, step: Step)
    requires FlightInv(m)
    ensures !Unsafe(m, step)
  {
    if step.Compensate? && step.r < |m.requests| {
      assert Loose(m, step.r as int);
      forall o | 0 <= o < |m.offers| && m.requests[step.r].phase.Compensating?
        ensures m.offers[o].hold != m.requests[step.r].phase.hold
      {}
    }
    if step.Commit? && step.r < |m.requests| {
      assert Loose(m, step.r as int);
    }
  }

  ghost predicate SameHolds(m: Market, m': Market) {
    && m'.requests == m.requests && |m'.offers| == |m.offers|
    && forall o :: 0 <= o < |m.offers| ==> m'.offers[o].hold == m.offers[o].hold && m'.offers[o].key == m.offers[o].key
  }

  lemma HoldsAlike(m: Market, m': Market, hold: nat)
    requires SameHolds(m, m')
    ensures HoldTaken(m'.offers, hold) ==> HoldTaken(m.offers, hold)
  {
    if HoldTaken(m'.offers, hold) {
      var o :| 0 <= o < |m'.offers| && m'.offers[o].hold == hold;
      assert m.offers[o].hold == hold;
    }
  }

  /** An offer keeps its key and its hold. */
  lemma ReplayStays(offers: seq<Offer>, offers': seq<Offer>, key: string, hold: nat)
    requires |offers| <= |offers'|
    requires forall o :: 0 <= o < |offers| ==> offers'[o].hold == offers[o].hold && offers'[o].key == offers[o].key
    requires ReplayHolds(offers, key, hold)
    ensures ReplayHolds(offers', key, hold)
  {
    var o :| 0 <= o < |offers| && offers[o].key == key && offers[o].hold == hold;
    assert offers'[o].key == key && offers'[o].hold == hold;
  }

  /** Steps that touch neither requests nor the set of holds, but may acknowledge a hold on an offer. */
  lemma FlightKeptAside(m: Market, m': Market)
    requires FlightInv(m) && SameHolds(m, m')
    requires forall hold :: hold in m'.acknowledged && hold !in m.acknowledged ==> HoldTaken(m.offers, hold)
    ensures FlightInv(m')
  {
    forall r | 0 <= r < |m'.requests| ensures Loose(m', r) {
      assert Loose(m, r);
      var q := m.requests[r];
      if InFlight(q.phase) && !Stray(m', q.phase.hold) {
        HoldsAlike(m, m', q.phase.hold);
        ReplayStays(m.offers, m'.offers, q.key, q.phase.hold);
      }
    }
  }

  /** A request that ends, or goes on with the same hold while that is nowhere else. */
  lemma FlightKeptByMove(m: Market, r: nat, phase: Phase)
    requires FlightInv(m) && r < |m.requests|
    requires InFlight(phase) ==>
      InFlight(m.requests[r].phase) && phase.hold == m.requests[r].phase.hold && Stray(m, phase.hold)
    ensures FlightInv(Move(m, r, phase))
  {
    var m' := Move(m, r, phase);
    forall q | 0 <= q < |m'.requests| ensures Loose(m', q) {
      assert Loose(m, q);
    }
  }

  lemma FlightKeptByHold(m: Market, r: nat, hold: nat)
    requires FlightInv(m) && r < |m.requests| && !Used(m, hold)
    ensures FlightInv(Move(m, r, Holding(hold)))
  {
    var m' := Move(m, r, Holding(hold));
    forall q | 0 <= q < |m'.requests| ensures Loose(m', q) {
      assert Loose(m, q);
    }
    forall q | 0 <= q < |m.requests| && InFlight(m.requests[q].phase) ensures m.requests[q].phase.hold != hold {
      assert HeldBy(m, q, m.requests[q].phase.hold);
    }
  }

  /** When a request's hold goes onto an offer or back to the provider, no other request has it. */
  lemma FlightKeptByEnd(m: Market, m': Market, r: nat, hold: nat)
    requires FlightInv(m) && r < |m.requests| && InFlight(m.requests[r].phase) && m.requests[r].phase.hold == hold
    requires |m'.requests| == |m.requests| && m'.requests == m.requests[r := m'.requests[r]]
    requires m'.requests[r].phase.Ended?
      || (m'.requests[r].phase == Refused(hold) && ReplayHolds(m'.offers, m'.requests[r].key, hold))
    requires OffersKept(m, m')
    requires forall h :: h in m'.acknowledged ==> h in m.acknowledged || h == hold
    requires forall h: nat :: HoldTaken(m'.offers, h) ==> HoldTaken(m.offers, h) || h == hold
    ensures FlightInv(m')
  {
    forall q | 0 <= q < |m'.requests| ensures Loose(m', q) {
      assert Loose(m, q);
      var other := m.requests[q];
      if q != r && InFlight(other.phase) && !Stray(m', other.phase.hold) {
        assert other.phase.hold != hold by { if q < r {} else {} }
        ReplayStays(m.offers, m'.offers, other.key, other.phase.hold);
      }
    }
    forall q, p | 0 <= q < p < |m'.requests| && InFlight(m'.requests[q].phase) && InFlight(m'.requests[p].phase)
      ensures m'.requests[q].phase.hold != m'.requests[p].phase.hold
    {
      assert InFlight(m.requests[q].phase) && m.requests[q].phase.hold == m'.requests[q].phase.hold;
      assert InFlight(m.requests[p].phase) && m.requests[p].phase.hold == m'.requests[p].phase.hold;
    }
  }

  lemma CommitHolds(m: Market, q: Request, hold: nat, h: nat)
    requires InsertOffer(m, q, hold).Some? && HoldTaken(InsertOffer(m, q, hold).value.offers, h)
    ensures HoldTaken(m.offers, h) || h == hold
  {
    var m' := InsertOffer(m, q, hold).value;
    var o :| 0 <= o < |m'.offers| && m'.offers[o].hold == h;
    if o < |m.offers| {
      assert m.offers[o].hold == h;
    }
  }

  lemma InsertedReplays(m: Market, q: Request, hold: nat)
    requires InsertOffer(m, q, hold).Some?
    ensures ReplayHolds(InsertOffer(m, q, hold).value.offers, q.key, hold)
  {
    var offers := InsertOffer(m, q, hold).value.offers;
    assert offers[|m.offers|].key == q.key && offers[|m.offers|].hold == hold;
  }

  lemma CommitKeepsFlight(m: Market, r: nat, outcome: Outcome)
    requires MarketInv(m) && FlightInv(m) && r < |m.requests| && m.requests[r].phase.Holding?
    ensures FlightInv(RequestNext(m, r, Commit(r, outcome)))
  {
    var q := m.requests[r];
    var m' := RequestNext(m, r, Commit(r, outcome));
    if outcome.RolledBack? || InsertOffer(m, q, q.phase.hold).None? {
      assert Loose(m, r as int);
      FlightKeptByMove(m, r, Refused(q.phase.hold));
    } else {
      InsertKeeps(m, q, q.phase.hold);
      InsertedReplays(m, q, q.phase.hold);
      forall h: nat | HoldTaken(m'.offers, h) ensures HoldTaken(m.offers, h) || h == q.phase.hold {
        CommitHolds(m, q, q.phase.hold, h);
      }
      FlightKeptByEnd(m, m', r, q.phase.hold);
    }
  }

  lemma ReplayKeepsFlight(m: Market, r: nat, fails: bool)
    requires FlightInv(m) && r < |m.requests| && m.requests[r].phase.Refused?
    ensures FlightInv(RequestNext(m, r, FindReplay(r, fails)))
  {
    var q := m.requests[r];
    assert Loose(m, r as int);
    if ReplayHolds(m.offers, q.key, q.phase.hold) {
      var o :| 0 <= o < |m.offers| && m.offers[o].key == q.key && m.offers[o].hold == q.phase.hold;
      assert KeyTaken(m.offers, q.key);
    }
    FlightKeptByMove(m, r, RequestNext(m, r, FindReplay(r, fails)).requests[r].phase);
  }

  lemma RequestKeepsFlight(m: Market, r: nat, step: Step)
    requires MarketInv(m) && FlightInv(m) && r < |m.requests| && FreshStep(m, step)
    ensures FlightInv(RequestNext(m, r, step))
  {
    var q := m.requests[r];
    var m' := RequestNext(m, r, step);
    assert Loose(m, r as int);
    match step
    case Hold(_, hold) => if q.phase.Ready? { FlightKeptByHold(m, r, hold); }
    case Commit(_, outcome) => if q.phase.Holding? { CommitKeepsFlight(m, r, outcome); }
    case FindReplay(_, fails) => if q.phase.Refused? { ReplayKeepsFlight(m, r, fails); }
    case FindOwner(_, _) => if q.phase.NoReplay? { FlightKeptByMove(m, r, m'.requests[r].phase); }
    case Compensate(_, ok) => if q.phase.Compensating? { FlightKeptByEnd(m, m', r, q.phase.hold); }
    case HoldFails(_) => if q.phase.Ready? { FlightKeptByMove(m, r, m'.requests[r].phase); }
    case _ =>
  }

  lemma AskKeepsFlight(m: Market, q: Request)
    requires FlightInv(m)
    ensures FlightInv(m.(requests := m.requests + [q.(phase := Ready)]))
  {
    var m' := m.(requests := m.requests + [q.(phase := Ready)]);
    forall r | 0 <= r < |m'.requests| ensures Loose(m', r) {
      if r < |m.requests| { assert Loose(m, r); }
    }
  }

  lemma RequestStepKeepsFlight(m: Market, step: Step)
    requires MarketInv(m) && FlightInv(m) && FreshStep(m, step) && OfRequest(step)
    ensures FlightInv(Next(m, step))
  {
    if step.r < |m.requests| {
      RequestKeepsFlight(m, step.r, step);
    }
  }

  lemma OtherStepKeepsFlight(m: Market, step: Step)
    requires MarketInv(m) && FlightInv(m) && !OfRequest(step) && !step.Ask?
    ensures FlightInv(Next(m, step))
  {
    if step.ExpireOffers? { ExpireAllKeeps(m, step.batch); }
    FlightKeptAside(m, Next(m, step));
  }

  lemma NextKeepsFlight(m: Market, step: Step)
    requires MarketInv(m) && FlightInv(m) && FreshStep(m, step)
    ensures FlightInv(Next(m, step))
  {
    if OfRequest(step) {
      RequestStepKeepsFlight(m, step);
    } else if step.Ask? {
      if MayOffer(m, step.request) { AskKeepsFlight(m, step.request); }
    } else {
      OtherStepKeepsFlight(m, step);
    }
  }

  lemma {:induction false} SafetyKept(m: Market, steps: seq<Step>)
    requires MarketInv(m) && FlightInv(m) && SafeHolds(m) && FreshRun(m, steps)
    ensures SafeHolds(Run(m, steps))
    decreases |steps|
  {
    if |steps| > 0 {
      FlightMeansSafe(m, steps[0]);
      UnsafeStepExact(m, steps[0]);
      NextKeeps(m, steps[0]);
      NextKeepsFlight(m, steps[0]);
      SafetyKept(Next(m, steps[0]), steps[1..]);
    }
  }

  /** With a provider that never answers twice with one reference, no live offer's hold is ever released. */
  lemma LiveHoldsStay(start: Market, steps: seq<Step>, o: nat)
    requires Opened(start) && FreshRun(start, steps)
    ensures var m := Run(start, steps);
      o < |m.offers| && Live(m.offers[o].status) ==> m.offers[o].hold !in m.acknowledged
  {
    OpenedInv(start);
    SafetyKept(start, steps);
  }
}
