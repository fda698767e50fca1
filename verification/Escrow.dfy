/**
 Offers between private parties, paid into escrow. Making an offer takes several statements with
 the payment provider in between; accepting and expiring offers queue the release of holds, which
 several workers process. Steps of different requests and workers interleave freely.
 */
module Escrow {
  import opened Basics
  import opened Results

  type Time = int

  const LOCK_MS := 60_000

  datatype OfferStatus = Open | Countered | Rejected | Expired | Accepted

  /** `hold` is the provider's reference of the held payment. */
  datatype Offer = Offer(listing: nat, buyer: nat, parent: Option<nat>, amount: nat, key: string, hold: nat,
                         expiresAt: Time, status: OfferStatus)

  datatype Listing = Listing(seller: nat, active: bool, expiresAt: Time)

  datatype ReleaseStatus = Queued | Processing | Retrying | Released

  datatype Release = Release(status: ReleaseStatus, attempts: nat, availableAt: Time, lockedUntil: Option<Time>,
                             createdAt: Time)

  /**
   Where a request to make an offer stands; `lost` marks one that gave up its hold, because a lookup
   or the compensating release failed.
   */
  datatype Phase =
    | Ready
    | Holding(hold: nat)
    | Refused(hold: nat)
    | NoReplay(hold: nat)
    | Compensating(hold: nat)
    | Ended(held: Option<nat>, lost: bool)

  datatype Request = Request(listing: nat, buyer: nat, parent: Option<nat>, amount: nat, key: string, expiresAt: Time,
                             phase: Phase)

  /** One worker's attempt at a release. */
  datatype Attempt =
    | Calling(offer: nat, lockedUntil: Time, seen: nat)
    | Told(offer: nat, lockedUntil: Time, seen: nat, ok: bool)
    | Finished

  datatype Market = Market(
    clock: Time,
    listings: seq<Listing>,
    offers: seq<Offer>,
    releases: map<nat, Release>,
    sales: map<nat, nat>,
    requests: seq<Request>,
    attempts: seq<Attempt>,
    acknowledged: set<nat>)

  predicate Settled(status: OfferStatus) { status.Countered? || status.Rejected? || status.Expired? }

  // ----- making an offer -------------------------------------------------------------

  predicate KeyTaken(offers: seq<Offer>, key: string) { exists o :: 0 <= o < |offers| && offers[o].key == key }

  predicate HoldTaken(offers: seq<Offer>, hold: nat) { exists o :: 0 <= o < |offers| && offers[o].hold == hold }

  /** The checks before the provider is called. */
  predicate MayOffer(m: Market, q: Request) {
    && !KeyTaken(m.offers, q.key)
    && q.listing < |m.listings| && m.listings[q.listing].active && m.listings[q.listing].expiresAt > m.clock
    && m.listings[q.listing].seller != q.buyer
    && (q.parent.Some? ==>
         && q.parent.value < |m.offers|
         && var parent := m.offers[q.parent.value];
            parent.listing == q.listing && parent.buyer == q.buyer && parent.status.Open?)
  }

  function QueueRelease(m: Market, o: nat): Market {
    m.(releases := m.releases[o := Release(Queued, 0, m.clock, None, m.clock)])
  }

  function SetStatus(m: Market, o: nat, status: OfferStatus): Market
    requires o < |m.offers|
  {
    m.(offers := m.offers[o := m.offers[o].(status := status)])
  }

  /** The transaction: counter the parent, if there is one, and insert the offer under its two unique keys. */
  function InsertOffer(m: Market, q: Request, hold: nat): Option<Market> {
    if q.parent.Some? && (q.parent.value >= |m.offers| || !m.offers[q.parent.value].status.Open? || q.parent.value in m.releases)
    then None
    else if KeyTaken(m.offers, q.key) || HoldTaken(m.offers, hold) then None
    else
      var m' := if q.parent.Some? then QueueRelease(SetStatus(m, q.parent.value, Countered), q.parent.value) else m;
      Some(m'.(offers := m'.offers
        + [Offer(q.listing, q.buyer, q.parent, q.amount, q.key, hold, q.expiresAt, Open)]))
  }

  /** Does the offer stored under the key carry this hold? */
  predicate ReplayHolds(offers: seq<Offer>, key: string, hold: nat) {
    exists o :: 0 <= o < |offers| && offers[o].key == key && offers[o].hold == hold
  }

  // ----- accepting and expiring ------------------------------------------------------

  predicate MayAccept(m: Market, o: nat, seller: nat) {
    && o < |m.offers| && m.offers[o].status.Open?
    && m.offers[o].listing < |m.listings| && m.listings[m.offers[o].listing].seller == seller
    && m.offers[o].expiresAt > m.clock
    && m.offers[o].listing !in m.sales
  }

  predicate Loses(m: Market, o: nat, k: nat)
    requires o < |m.offers|
  {
    k < |m.offers| && k != o && m.offers[k].listing == m.offers[o].listing && m.offers[k].status.Open?
  }

  /** Accept one offer, reject the listing's other open ones and queue their releases, record the sale. */
  function Accept(m: Market, o: nat): Market
    requires o < |m.offers|
  {
    m.(offers := seq(|m.offers|, k requires 0 <= k < |m.offers| =>
         if k == o then m.offers[k].(status := Accepted)
         else if Loses(m, o, k) then m.offers[k].(status := Rejected)
         else m.offers[k]),
       releases := m.releases
         + map k: nat | k < |m.offers| && Loses(m, o, k) && k !in m.releases :: Release(Queued, 0, m.clock, None, m.clock),
       sales := m.sales[m.offers[o].listing := o])
  }

  function ExpireOne(m: Market, o: nat): Market {
    if o < |m.offers| && m.offers[o].status.Open? && m.offers[o].expiresAt <= m.clock
    then QueueRelease(SetStatus(m, o, Expired), o)
    else m
  }

  function ExpireAll(m: Market, batch: seq<nat>): Market {
    if |batch| == 0 then m else ExpireOne(ExpireAll(m, batch[..|batch| - 1]), batch[|batch| - 1])
  }

  // ----- releasing -------------------------------------------------------------------

  predicate Claimable(r: Release, now: Time) {
    && r.availableAt <= now
    && (r.status.Queued? || r.status.Retrying? || (r.status.Processing? && r.lockedUntil.Some? && r.lockedUntil.value < now))
  }

  function Min(a: nat, b: nat): nat { if a <= b then a else b }

  function RetryDelay(attempts: nat): nat { Min(3_600, Power2(Min(attempts + 1, 10))) * 1_000 }

  function ClaimOf(r: Release, clock: Time): Release {
    r.(status := Processing, attempts := r.attempts + 1, lockedUntil := Some(clock + LOCK_MS))
  }

  /** A RELEASED write that fails is handled like a refusal: the row is marked for retry. */
  function MarkOf(r: Release, ok: bool, seen: nat, clock: Time): Release {
    if ok then r.(status := Released, lockedUntil := None)
    else r.(status := Retrying, availableAt := clock + RetryDelay(seen), lockedUntil := None)
  }

  // ----- steps -----------------------------------------------------------------------

  /** How the transaction of an offer ends: the last is a commit whose client sees an error. */
  datatype Outcome = Committed | RolledBack | CommittedUnseen

  datatype Step =
    | Tick(elapsed: nat)
    | Ask(request: Request)
    | Hold(r: nat, hold: nat)
    | HoldFails(r: nat)
    | Commit(r: nat, outcome: Outcome)
    | FindReplay(r: nat, fails: bool)
    | FindOwner(r: nat, fails: bool)
    | Compensate(r: nat, ok: bool)
    | AcceptOffer(o: nat, seller: nat)
    | ExpireOffers(batch: seq<nat>)
    | ClaimRelease(o: nat, now: Time, seen: nat)
    | ProviderAnswers(w: nat, ok: bool)
    | MarkRelease(w: nat, writeFails: bool)

  predicate In(m: Market, r: nat, hold: nat, phase: Phase) { r < |m.requests| && m.requests[r].phase == phase }

  function Move(m: Market, r: nat, phase: Phase): Market
    requires r < |m.requests|
  {
    m.(requests := m.requests[r := m.requests[r].(phase := phase)])
  }

  function CommitNext(m: Market, r: nat, hold: nat, outcome: Outcome): Market
    requires r < |m.requests|
  {
    var inserted := InsertOffer(m, m.requests[r], hold);
    if outcome.RolledBack? || inserted.None? then Move(m, r, Refused(hold))
    else Move(inserted.value, r, if outcome.CommittedUnseen? then Refused(hold) else Ended(Some(hold), false))
  }

  function RequestNext(m: Market, r: nat, step: Step): Market
    requires r < |m.requests|
  {
    var q := m.requests[r];
    match step
    case Hold(_, hold) => if q.phase.Ready? then Move(m, r, Holding(hold)) else m
    case HoldFails(_) => if q.phase.Ready? then Move(m, r, Ended(None, false)) else m
    case Commit(_, outcome) => if q.phase.Holding? then CommitNext(m, r, q.phase.hold, outcome) else m
    case FindReplay(_, fails) =>
      if !q.phase.Refused? then m
      else if fails then Move(m, r, Ended(Some(q.phase.hold), true))
      else if !KeyTaken(m.offers, q.key) then Move(m, r, NoReplay(q.phase.hold))
      else if ReplayHolds(m.offers, q.key, q.phase.hold) then Move(m, r, Ended(Some(q.phase.hold), false))
      else Move(m, r, Compensating(q.phase.hold))
    case FindOwner(_, fails) =>
      if !q.phase.NoReplay? then m
      else if fails then Move(m, r, Ended(Some(q.phase.hold), true))
      else if HoldTaken(m.offers, q.phase.hold) then Move(m, r, Ended(Some(q.phase.hold), false))
      else Move(m, r, Compensating(q.phase.hold))
    case Compensate(_, ok) =>
      if !q.phase.Compensating? then m
      else if ok then Move(m.(acknowledged := m.acknowledged + {q.phase.hold}), r, Ended(Some(q.phase.hold), false))
      else Move(m, r, Ended(Some(q.phase.hold), true))
    case _ => m
  }

  function Next(m: Market, step: Step): Market {
    match step
    case Tick(elapsed) => m.(clock := m.clock + elapsed)
    case Ask(q) => if MayOffer(m, q) then m.(requests := m.requests + [q.(phase := Ready)]) else m
    case Hold(r, _) => if r < |m.requests| then RequestNext(m, r, step) else m
    case HoldFails(r) => if r < |m.requests| then RequestNext(m, r, step) else m
    case Commit(r, _) => if r < |m.requests| then RequestNext(m, r, step) else m
    case FindReplay(r, _) => if r < |m.requests| then RequestNext(m, r, step) else m
    case FindOwner(r, _) => if r < |m.requests| then RequestNext(m, r, step) else m
    case Compensate(r, _) => if r < |m.requests| then RequestNext(m, r, step) else m
    case AcceptOffer(o, seller) => if MayAccept(m, o, seller) then Accept(m, o) else m
    case ExpireOffers(batch) => ExpireAll(m, batch)
    case ClaimRelease(o, now, seen) =>
      if o in m.releases && now <= m.clock && Claimable(m.releases[o], now)
      then m.(releases := m.releases[o := ClaimOf(m.releases[o], m.clock)],
              attempts := m.attempts + [Calling(o, m.clock + LOCK_MS, seen)])
      else m
    case ProviderAnswers(w, ok) =>
      if w < |m.attempts| && m.attempts[w].Calling? && m.attempts[w].offer < |m.offers| then
        var at := m.attempts[w];
        m.(attempts := m.attempts[w := Told(at.offer, at.lockedUntil, at.seen, ok)],
           acknowledged := if ok then m.acknowledged + {m.offers[at.offer].hold} else m.acknowledged)
      else m
    case MarkRelease(w, writeFails) =>
      if w < |m.attempts| && m.attempts[w].Told? && m.attempts[w].offer in m.releases then
        var at := m.attempts[w];
        m.(attempts := m.attempts[w := Finished],
           releases := m.releases[at.offer := MarkOf(m.releases[at.offer], at.ok && !writeFails, at.seen, m.clock)])
      else m
  }

  function Run(m: Market, steps: seq<Step>): Market
    decreases |steps|
  {
    if |steps| == 0 then m else Run(Next(m, steps[0]), steps[1..])
  }

  predicate Opened(m: Market) {
    && m.offers == [] && m.releases == map[] && m.sales == map[] && m.requests == [] && m.attempts == []
    && m.acknowledged == {}
  }

  // ----- what every run keeps --------------------------------------------------------

  /** Release rows are exactly for settled offers, sales exactly for accepted ones. */
  ghost predicate RowsInv(m: Market) {
    && (forall o: nat :: o in m.releases <==> o < |m.offers| && Settled(m.offers[o].status))
    && (forall o :: 0 <= o < |m.offers| ==>
         (m.offers[o].status.Accepted? <==> m.offers[o].listing in m.sales && m.sales[m.offers[o].listing] == o))
    && (forall l :: l in m.sales ==> m.sales[l] < |m.offers|)
  }

  ghost predicate UniqueInv(m: Market) {
    forall o, k :: 0 <= o < k < |m.offers| ==>
      m.offers[o].key != m.offers[k].key && m.offers[o].hold != m.offers[k].hold
  }

  /** A hold that a request obtained is on an offer, was released, or was given up. */
  ghost predicate HoldsInv(m: Market) {
    forall r :: 0 <= r < |m.requests| && m.requests[r].phase.Ended? && m.requests[r].phase.held.Some? ==>
      || HoldTaken(m.offers, m.requests[r].phase.held.value)
      || m.requests[r].phase.held.value in m.acknowledged
      || m.requests[r].phase.lost
  }

  ghost predicate ToldInv(m: Market) {
    && (forall w :: 0 <= w < |m.attempts| && m.attempts[w].Told? && m.attempts[w].ok ==>
         m.attempts[w].offer < |m.offers| && m.offers[m.attempts[w].offer].hold in m.acknowledged)
    && (forall o :: o in m.releases && m.releases[o].status.Released? ==>
         o < |m.offers| && m.offers[o].hold in m.acknowledged)
    && (forall w :: 0 <= w < |m.attempts| && !m.attempts[w].Finished? ==> m.attempts[w].offer in m.releases)
  }

  ghost predicate MarketInv(m: Market) { RowsInv(m) && UniqueInv(m) && HoldsInv(m) && ToldInv(m) }

  /** Offers only change by leaving OPEN, and are never removed. */
  ghost predicate OffersKept(m: Market, m': Market) {
    && |m.offers| <= |m'.offers|
    && forall o :: 0 <= o < |m.offers| ==>
         && m'.offers[o].(status := m.offers[o].status) == m.offers[o]
         && (m.offers[o].status.Open? || m'.offers[o].status == m.offers[o].status)
  }

  ghost predicate ReleasesKept(m: Market, m': Market) {
    forall o :: o in m.releases ==> o in m'.releases && m'.releases[o] == m.releases[o]
  }

  lemma ExpireOneKeepsRows(m: Market, o: nat)
    requires RowsInv(m)
    ensures RowsInv(ExpireOne(m, o)) && ReleasesKept(m, ExpireOne(m, o))
  {
  }

  lemma ExpireOneKeeps(m: Market, o: nat)
    requires RowsInv(m) && UniqueInv(m)
    ensures var m' := ExpireOne(m, o);
      && RowsInv(m') && UniqueInv(m') && OffersKept(m, m') && ReleasesKept(m, m')
      && |m'.offers| == |m.offers|
      && (forall k :: k in m'.releases && k !in m.releases ==> m'.releases[k].status.Queued?)
      && m' == m.(offers := m'.offers, releases := m'.releases)
  {
    ExpireOneKeepsRows(m, o);
  }

  lemma {:induction false} ExpireAllKeeps(m: Market, batch: seq<nat>)
    requires RowsInv(m) && UniqueInv(m)
    ensures var m' := ExpireAll(m, batch);
      && RowsInv(m') && UniqueInv(m') && OffersKept(m, m') && ReleasesKept(m, m')
      && |m'.offers| == |m.offers|
      && (forall k :: k in m'.releases && k !in m.releases ==> m'.releases[k].status.Queued?)
      && m' == m.(offers := m'.offers, releases := m'.releases)
  {
    if |batch| > 0 {
      ExpireAllKeeps(m, batch[..|batch| - 1]);
      ExpireOneKeeps(ExpireAll(m, batch[..|batch| - 1]), batch[|batch| - 1]);
    }
  }

  lemma AcceptKeepsOffers(m: Market, o: nat, seller: nat)
    requires UniqueInv(m) && MayAccept(m, o, seller)
    ensures UniqueInv(Accept(m, o)) && OffersKept(m, Accept(m, o)) && |Accept(m, o).offers| == |m.offers|
  {
  }

  lemma AcceptKeepsRows(m: Market, o: nat, seller: nat)
    requires RowsInv(m) && MayAccept(m, o, seller)
    ensures RowsInv(Accept(m, o))
  {
    var m' := Accept(m, o);
    forall k: nat ensures k in m'.releases <==> k < |m'.offers| && Settled(m'.offers[k].status) {
      assert k in m.releases <==> k < |m.offers| && Settled(m.offers[k].status);
    }
  }

  lemma AcceptKeeps(m: Market, o: nat, seller: nat)
    requires RowsInv(m) && UniqueInv(m) && MayAccept(m, o, seller)
    ensures var m' := Accept(m, o);
      && RowsInv(m') && UniqueInv(m') && OffersKept(m, m') && ReleasesKept(m, m')
      && |m'.offers| == |m.offers|
      && (forall k :: k in m'.releases && k !in m.releases ==> m'.releases[k].status.Queued?)
  {
    AcceptKeepsOffers(m, o, seller);
    AcceptKeepsRows(m, o, seller);
  }

  lemma InsertKeepsRows(m: Market, q: Request, hold: nat)
    requires RowsInv(m) && InsertOffer(m, q, hold).Some?
    ensures RowsInv(InsertOffer(m, q, hold).value)
  {
  }

  lemma InsertKeepsUnique(m: Market, q: Request, hold: nat)
    requires UniqueInv(m) && InsertOffer(m, q, hold).Some?
    ensures UniqueInv(InsertOffer(m, q, hold).value)
  {
  }

  lemma InsertKeeps(m: Market, q: Request, hold: nat)
    requires RowsInv(m) && UniqueInv(m) && InsertOffer(m, q, hold).Some?
    ensures var m' := InsertOffer(m, q, hold).value;
      && RowsInv(m') && UniqueInv(m') && OffersKept(m, m') && ReleasesKept(m, m') && HoldTaken(m'.offers, hold)
      && (forall k :: k in m'.releases && k !in m.releases ==> m'.releases[k].status.Queued?)
      && m' == m.(offers := m'.offers, releases := m'.releases)
  {
    var m' := InsertOffer(m, q, hold).value;
    assert m'.offers[|m.offers|].hold == hold;
    InsertKeepsRows(m, q, hold);
    InsertKeepsUnique(m, q, hold);
  }

  /** Books that only gained rows keep every promise about holds. */
  lemma BooksKept(m: Market, m': Market)
    requires HoldsInv(m) && ToldInv(m) && OffersKept(m, m') && ReleasesKept(m, m')
    requires m'.requests == m.requests && m'.attempts == m.attempts && m'.acknowledged == m.acknowledged
    requires forall k :: k in m'.releases && k !in m.releases ==> m'.releases[k].status.Queued?
    ensures HoldsInv(m') && ToldInv(m')
  {
    forall hold: nat | HoldTaken(m.offers, hold) ensures HoldTaken(m'.offers, hold) {
      var o :| 0 <= o < |m.offers| && m.offers[o].hold == hold;
      assert m'.offers[o].hold == hold;
    }
  }

  ghost predicate Justified(m: Market, phase: Phase) {
    phase.Ended? && phase.held.Some? ==>
      HoldTaken(m.offers, phase.held.value) || phase.held.value in m.acknowledged || phase.lost
  }

  lemma MoveKeeps(m: Market, r: nat, phase: Phase)
    requires MarketInv(m) && r < |m.requests| && Justified(m, phase)
    ensures MarketInv(Move(m, r, phase))
  {
  }

  lemma AcknowledgeKeeps(m: Market, hold: nat)
    requires MarketInv(m)
    ensures MarketInv(m.(acknowledged := m.acknowledged + {hold}))
  {
  }

  lemma ReplayIsTaken(offers: seq<Offer>, key: string, hold: nat)
    requires ReplayHolds(offers, key, hold)
    ensures HoldTaken(offers, hold)
  {
    var o :| 0 <= o < |offers| && offers[o].key == key && offers[o].hold == hold;
    assert offers[o].hold == hold;
  }

  lemma CommitKeeps(m: Market, r: nat, hold: nat, outcome: Outcome)
    requires MarketInv(m) && r < |m.requests|
    ensures MarketInv(CommitNext(m, r, hold, outcome)) && OffersKept(m, CommitNext(m, r, hold, outcome))
  {
    var inserted := InsertOffer(m, m.requests[r], hold);
    if outcome.RolledBack? || inserted.None? {
      MoveKeeps(m, r, Refused(hold));
    } else {
      InsertKeeps(m, m.requests[r], hold);
      BooksKept(m, inserted.value);
      MoveKeeps(inserted.value, r, if outcome.CommittedUnseen? then Refused(hold) else Ended(Some(hold), false));
    }
  }

  lemma CompensateKeeps(m: Market, r: nat, ok: bool)
    requires MarketInv(m) && r < |m.requests| && m.requests[r].phase.Compensating?
    ensures MarketInv(RequestNext(m, r, Compensate(r, ok)))
  {
    var hold := m.requests[r].phase.hold;
    if ok {
      AcknowledgeKeeps(m, hold);
      MoveKeeps(m.(acknowledged := m.acknowledged + {hold}), r, Ended(Some(hold), false));
    } else {
      MoveKeeps(m, r, Ended(Some(hold), true));
    }
  }

  /** What the transaction of an offer leaves alone. */
  lemma CommitFrame(m: Market, r: nat, hold: nat, outcome: Outcome)
    requires RowsInv(m) && UniqueInv(m) && r < |m.requests|
    ensures var m' := CommitNext(m, r, hold, outcome);
      && OffersKept(m, m') && ReleasesKept(m, m')
      && m' == m.(offers := m'.offers, releases := m'.releases, requests := m.requests[r := m'.requests[r]])
  {
    if InsertOffer(m, m.requests[r], hold).Some? { InsertKeeps(m, m.requests[r], hold); }
  }

  /** A request's other steps write no row but its own, and may acknowledge its hold. */
  lemma PhaseFrame(m: Market, r: nat, step: Step)
    requires r < |m.requests| && !step.Commit?
    ensures var m' := RequestNext(m, r, step);
      && m.acknowledged <= m'.acknowledged
      && |m'.requests| == |m.requests|
      && m' == m.(requests := m.requests[r := m'.requests[r]], acknowledged := m'.acknowledged)
  {
  }

  lemma FindReplayKeeps(m: Market, r: nat, fails: bool)
    requires MarketInv(m) && r < |m.requests|
    ensures var m' := RequestNext(m, r, FindReplay(r, fails));
      MarketInv(m') && m'.offers == m.offers
  {
    var q := m.requests[r];
    if q.phase.Refused? {
      var hold := q.phase.hold;
      if fails {
        MoveKeeps(m, r, Ended(Some(hold), true));
      } else if !KeyTaken(m.offers, q.key) {
        MoveKeeps(m, r, NoReplay(hold));
      } else if ReplayHolds(m.offers, q.key, hold) {
        ReplayIsTaken(m.offers, q.key, hold);
        MoveKeeps(m, r, Ended(Some(hold), false));
      } else {
        MoveKeeps(m, r, Compensating(hold));
      }
    }
  }

  lemma FindOwnerKeeps(m: Market, r: nat, fails: bool)
    requires MarketInv(m) && r < |m.requests|
    ensures var m' := RequestNext(m, r, FindOwner(r, fails));
      MarketInv(m') && m'.offers == m.offers
  {
    if m.requests[r].phase.NoReplay? {
      MoveKeeps(m, r, RequestNext(m, r, FindOwner(r, fails)).requests[r].phase);
    }
  }

  lemma HoldKeeps(m: Market, r: nat, step: Step)
    requires MarketInv(m) && r < |m.requests| && (step.Hold? || step.HoldFails?)
    ensures MarketInv(RequestNext(m, r, step)) && RequestNext(m, r, step).offers == m.offers
  {
    match step
    case Hold(_, hold) => MoveKeeps(m, r, Holding(hold));
    case HoldFails(_) => MoveKeeps(m, r, Ended(None, false));
  }

  lemma PhaseStepKeeps(m: Market, r: nat, step: Step)
    requires MarketInv(m) && r < |m.requests| && !step.Commit?
    ensures MarketInv(RequestNext(m, r, step))
  {
    match step
    case Hold(_, _) => HoldKeeps(m, r, step);
    case HoldFails(_) => HoldKeeps(m, r, step);
    case FindReplay(_, fails) => FindReplayKeeps(m, r, fails);
    case FindOwner(_, fails) => FindOwnerKeeps(m, r, fails);
    case Compensate(_, ok) => if m.requests[r].phase.Compensating? { CompensateKeeps(m, r, ok); }
    case _ =>
  }

  lemma RequestKeeps(m: Market, r: nat, step: Step)
    requires MarketInv(m) && r < |m.requests|
    ensures MarketInv(RequestNext(m, r, step)) && OffersKept(m, RequestNext(m, r, step))
  {
    if step.Commit? {
      if m.requests[r].phase.Holding? { CommitKeeps(m, r, m.requests[r].phase.hold, step.outcome); }
    } else {
      PhaseStepKeeps(m, r, step);
      PhaseFrame(m, r, step);
    }
  }

  lemma RowKeeps(m: Market, o: nat, row: Release)
    requires MarketInv(m) && o in m.releases
    requires row.status.Released? ==> o < |m.offers| && m.offers[o].hold in m.acknowledged
    ensures MarketInv(m.(releases := m.releases[o := row]))
  {
  }

  ghost predicate AttemptFits(m: Market, at: Attempt) {
    && (at.Told? && at.ok ==> at.offer < |m.offers| && m.offers[at.offer].hold in m.acknowledged)
    && (!at.Finished? ==> at.offer in m.releases)
  }

  lemma AttemptsKeep(m: Market, attempts: seq<Attempt>)
    requires MarketInv(m) && forall w :: 0 <= w < |attempts| ==> AttemptFits(m, attempts[w])
    ensures MarketInv(m.(attempts := attempts))
  {
    var m' := m.(attempts := attempts);
    assert forall w :: 0 <= w < |attempts| ==> AttemptFits(m', attempts[w]);
  }

  lemma AttemptsFit(m: Market)
    requires ToldInv(m)
    ensures forall w :: 0 <= w < |m.attempts| ==> AttemptFits(m, m.attempts[w])
  {
  }

  lemma NewAttemptKeeps(m: Market, at: Attempt)
    requires MarketInv(m) && AttemptFits(m, at)
    ensures MarketInv(m.(attempts := m.attempts + [at]))
  {
    AttemptsFit(m);
    AttemptsKeep(m, m.attempts + [at]);
  }

  lemma ClaimedRowKeeps(m: Market, o: nat, seen: nat)
    requires MarketInv(m) && o in m.releases
    ensures var m1 := m.(releases := m.releases[o := ClaimOf(m.releases[o], m.clock)]);
      MarketInv(m1) && AttemptFits(m1, Calling(o, m.clock + LOCK_MS, seen))
  {
    RowKeeps(m, o, ClaimOf(m.releases[o], m.clock));
  }

  lemma ClaimNext(m: Market, o: nat, now: Time, seen: nat)
    requires o in m.releases && now <= m.clock && Claimable(m.releases[o], now)
    ensures var m1 := m.(releases := m.releases[o := ClaimOf(m.releases[o], m.clock)]);
      Next(m, ClaimRelease(o, now, seen)) == m1.(attempts := m1.attempts + [Calling(o, m.clock + LOCK_MS, seen)])
  {
  }

  lemma ClaimKeeps(m: Market, o: nat, now: Time, seen: nat)
    requires MarketInv(m)
    ensures MarketInv(Next(m, ClaimRelease(o, now, seen)))
  {
    if o in m.releases && now <= m.clock && Claimable(m.releases[o], now) {
      var m1 := m.(releases := m.releases[o := ClaimOf(m.releases[o], m.clock)]);
      ClaimNext(m, o, now, seen);
      ClaimedRowKeeps(m, o, seen);
      NewAttemptKeeps(m1, Calling(o, m.clock + LOCK_MS, seen));
    }
  }

  lemma AnswerKeeps(m: Market, w: nat, ok: bool)
    requires MarketInv(m)
    ensures MarketInv(Next(m, ProviderAnswers(w, ok)))
  {
    if w < |m.attempts| && m.attempts[w].Calling? && m.attempts[w].offer < |m.offers| {
      var at := m.attempts[w];
      var m1 := if ok then m.(acknowledged := m.acknowledged + {m.offers[at.offer].hold}) else m;
      if ok { AcknowledgeKeeps(m, m.offers[at.offer].hold); }
      AttemptsFit(m1);
      AttemptsKeep(m1, m.attempts[w := Told(at.offer, at.lockedUntil, at.seen, ok)]);
    }
  }

  lemma MarkKeeps(m: Market, w: nat, writeFails: bool)
    requires MarketInv(m)
    ensures MarketInv(Next(m, MarkRelease(w, writeFails)))
  {
    if w < |m.attempts| && m.attempts[w].Told? && m.attempts[w].offer in m.releases {
      var at := m.attempts[w];
      var row := MarkOf(m.releases[at.offer], at.ok && !writeFails, at.seen, m.clock);
      AttemptsFit(m);
      assert row.status.Released? ==> at.ok;
      RowKeeps(m, at.offer, row);
      var m1 := m.(releases := m.releases[at.offer := row]);
      AttemptsFit(m1);
      AttemptsKeep(m1, m.attempts[w := Finished]);
    }
  }

  predicate OfRequest(step: Step) {
    step.Hold? || step.HoldFails? || step.Commit? || step.FindReplay? || step.FindOwner? || step.Compensate?
  }

  lemma RequestStepKeeps(m: Market, step: Step)
    requires MarketInv(m) && OfRequest(step)
    ensures MarketInv(Next(m, step)) && OffersKept(m, Next(m, step))
  {
    if step.r < |m.requests| {
      RequestKeeps(m, step.r, step);
    }
  }

  lemma AcceptStepKeeps(m: Market, o: nat, seller: nat)
    requires MarketInv(m) && MayAccept(m, o, seller)
    ensures MarketInv(Accept(m, o)) && OffersKept(m, Accept(m, o))
  {
    AcceptKeeps(m, o, seller);
    BooksKept(m, Accept(m, o));
  }

  lemma ExpireStepKeeps(m: Market, batch: seq<nat>)
    requires MarketInv(m)
    ensures MarketInv(ExpireAll(m, batch)) && OffersKept(m, ExpireAll(m, batch))
  {
    ExpireAllKeeps(m, batch);
    BooksKept(m, ExpireAll(m, batch));
  }

  lemma SellerStepKeeps(m: Market, step: Step)
    requires MarketInv(m) && (step.AcceptOffer? || step.ExpireOffers?)
    ensures MarketInv(Next(m, step)) && OffersKept(m, Next(m, step))
  {
    match step
    case AcceptOffer(o, seller) => if MayAccept(m, o, seller) { AcceptStepKeeps(m, o, seller); }
    case ExpireOffers(batch) => ExpireStepKeeps(m, batch);
  }

  lemma WorkerStepKeeps(m: Market, step: Step)
    requires MarketInv(m) && (step.ClaimRelease? || step.ProviderAnswers? || step.MarkRelease?)
    ensures MarketInv(Next(m, step)) && Next(m, step).offers == m.offers
  {
    match step
    case ClaimRelease(o, now, seen) => ClaimKeeps(m, o, now, seen);
    case ProviderAnswers(w, ok) => AnswerKeeps(m, w, ok);
    case MarkRelease(w, writeFails) => MarkKeeps(m, w, writeFails);
  }

  lemma QuietStepKeeps(m: Market, step: Step)
    requires MarketInv(m) && (step.Tick? || step.Ask?)
    ensures MarketInv(Next(m, step)) && Next(m, step).offers == m.offers
  {
  }

  lemma NextKeeps(m: Market, step: Step)
    requires MarketInv(m)
    ensures MarketInv(Next(m, step)) && OffersKept(m, Next(m, step))
  {
    if OfRequest(step) {
      RequestStepKeeps(m, step);
    } else if step.AcceptOffer? || step.ExpireOffers? {
      SellerStepKeeps(m, step);
    } else if step.Tick? || step.Ask? {
      QuietStepKeeps(m, step);
    } else {
      WorkerStepKeeps(m, step);
    }
  }

  lemma {:induction false} InvKept(m: Market, steps: seq<Step>)
    requires MarketInv(m)
    ensures MarketInv(Run(m, steps)) && OffersKept(m, Run(m, steps))
    decreases |steps|
  {
    if |steps| > 0 {
      NextKeeps(m, steps[0]);
      InvKept(Next(m, steps[0]), steps[1..]);
    }
  }
}
