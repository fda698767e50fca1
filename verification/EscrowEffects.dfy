/**
 What making and accepting an offer do to every offer and release of the market, when they go
 through, and which offers can be there at all.
 */
module EscrowEffects {
  import opened Basics
  import opened Escrow
  import opened EscrowSafety
  import opened Results

  /** The row of an offer's release is the same before and after, or missing both times. */
  predicate SameRelease(m: Market, m': Market, k: nat) {
    (k in m'.releases <==> k in m.releases) && (k in m.releases ==> m'.releases[k] == m.releases[k])
  }

  /** The offer has its new status and a release that has just been queued. */
  predicate Closed(m: Market, m': Market, k: nat, status: OfferStatus)
    requires k < |m.offers|
  {
    && k < |m'.offers| && m'.offers[k] == m.offers[k].(status := status)
    && k in m'.releases && m'.releases[k] == Release(Queued, 0, m.clock, None, m.clock)
  }

  // ----- accepting -------------------------------------------------------------------

  /** An offer can be accepted by the seller of its listing, while it is open and unexpired and the listing unsold. */
  predicate Acceptable(m: Market, o: nat, seller: nat) {
    && o < |m.offers| && m.offers[o].status == Open && m.clock < m.offers[o].expiresAt
    && m.offers[o].listing < |m.listings| && m.listings[m.offers[o].listing].seller == seller
    && m.offers[o].listing !in m.sales
  }

  /**
   From any reachable market, an acceptance that goes through accepts `o`, rejects every other open
   offer of the same listing and queues its release, leaves all other offers and releases as they
   were, and records the sale; one that does not go through changes nothing.
   */
  lemma AcceptanceSettlesListing(start: Market, steps: seq<Step>, m: Market, o: nat, seller: nat, k: nat)
    requires Opened(start) && m == Run(start, steps) && k < |m.offers|
    ensures var m' := Next(m, AcceptOffer(o, seller));
      if !Acceptable(m, o, seller) then m' == m
      else
        && |m'.offers| == |m.offers|
        && (if k == o then m'.offers[k] == m.offers[k].(status := Accepted) && k !in m'.releases
            else if m.offers[k].listing == m.offers[o].listing && m.offers[k].status == Open then Closed(m, m', k, Rejected)
            else m'.offers[k] == m.offers[k] && SameRelease(m, m', k))
        && m'.sales == m.sales[m.offers[o].listing := o]
        && m' == m.(offers := m'.offers, releases := m'.releases, sales := m'.sales)
  {
    OpenedInv(start);
    InvKept(start, steps);
    if Acceptable(m, o, seller) { assert k in m.releases <==> Settled(m.offers[k].status); }
  }

  /** So afterwards the listing has no open offer left. */
  lemma NothingLeftOpen(start: Market, steps: seq<Step>, m: Market, o: nat, seller: nat, k: nat)
    requires Opened(start) && m == Run(start, steps) && Acceptable(m, o, seller) && k < |m.offers|
    requires m.offers[k].listing == m.offers[o].listing
    ensures var m' := Next(m, AcceptOffer(o, seller));
      && k < |m'.offers| && !m'.offers[k].status.Open?
      && (k in m'.releases <==> k != o && !m'.offers[k].status.Accepted?)
  {
    AcceptanceSettlesListing(start, steps, m, o, seller, k);
    OpenedInv(start);
    InvKept(start, steps);
    assert k in m.releases <==> k < |m.offers| && Settled(m.offers[k].status);
  }

  // ----- making an offer -------------------------------------------------------------

  /**
   A request goes on to the provider exactly under a new key, for an active listing of somebody else
   that has not run out, and in reply to nothing or to the buyer's own open offer on it.
   */
  lemma AskGoesThrough(m: Market, q: Request)
    ensures var goes :=
        && (forall o :: 0 <= o < |m.offers| ==> m.offers[o].key != q.key)
        && q.listing < |m.listings|
        && var listing := m.listings[q.listing];
        && listing.active && m.clock < listing.expiresAt && listing.seller != q.buyer
        && (q.parent != None ==>
             && q.parent.value < |m.offers|
             && var parent := m.offers[q.parent.value];
                parent.status == Open && parent.listing == q.listing && parent.buyer == q.buyer);
      Next(m, Ask(q)) == if goes then m.(requests := m.requests + [q.(phase := Ready)]) else m
  {
  }

  /** The transaction writes the offer unless it rolls back or may not; only a client that saw it commit is done. */
  lemma CommitEffect(m: Market, r: nat, outcome: Outcome)
    requires r < |m.requests| && m.requests[r].phase.Holding?
    ensures var q := m.requests[r];
      var inserted := InsertOffer(m, q, q.phase.hold);
      var written := inserted.Some? && outcome in {Committed, CommittedUnseen};
      var m' := Next(m, Commit(r, outcome));
      && OnlyRow(m.requests, m'.requests, r)
      && m'.(requests := m.requests) == (if written then inserted.value else m)
      && m'.requests[r].phase
         == (if written && outcome == Committed then Ended(Some(q.phase.hold), false) else Refused(q.phase.hold))
  {
  }

  /** An offer is written exactly when its parent is still open and its key and hold are new. */
  lemma InsertGoesThrough(start: Market, steps: seq<Step>, m: Market, q: Request, hold: nat)
    requires Opened(start) && m == Run(start, steps)
    ensures InsertOffer(m, q, hold).Some? <==>
      && (q.parent.Some? ==> q.parent.value < |m.offers| && m.offers[q.parent.value].status == Open)
      && forall k :: 0 <= k < |m.offers| ==> m.offers[k].key != q.key && m.offers[k].hold != hold
  {
    OpenedInv(start);
    InvKept(start, steps);
  }

  /** It is added as asked, open and on its hold; its parent is countered and released, other rows stay. */
  lemma InsertEffect(m: Market, q: Request, hold: nat, k: nat)
    requires InsertOffer(m, q, hold).Some? && k < |m.offers|
    ensures var m' := InsertOffer(m, q, hold).value;
      && |m'.offers| == |m.offers| + 1
      && m'.offers[|m.offers|] == Offer(q.listing, q.buyer, q.parent, q.amount, q.key, hold, q.expiresAt, Open)
      && (if q.parent == Some(k) then Closed(m, m', k, Countered) else m'.offers[k] == m.offers[k] && SameRelease(m, m', k))
      && m' == m.(offers := m'.offers, releases := m'.releases)
  {
  }

  // ----- which offers there are ------------------------------------------------------

  /** Asked for an existing listing, not by its seller, and in reply to an offer of the same buyer on it. */
  ghost predicate Sound(m: Market, listing: nat, buyer: nat, parent: Option<nat>) {
    && listing < |m.listings| && m.listings[listing].seller != buyer
    && (parent.Some? ==>
         && parent.value < |m.offers|
         && m.offers[parent.value].listing == listing && m.offers[parent.value].buyer == buyer)
  }

  ghost predicate ChainInv(m: Market) {
    && (forall r :: 0 <= r < |m.requests| ==>
         Sound(m, m.requests[r].listing, m.requests[r].buyer, m.requests[r].parent))
    && forall o :: 0 <= o < |m.offers| ==>
         && Sound(m, m.offers[o].listing, m.offers[o].buyer, m.offers[o].parent)
         && (m.offers[o].parent.Some? ==>
              m.offers[o].parent.value < o && m.offers[m.offers[o].parent.value].status.Countered?)
  }

  /** Requests that are asked by the same parties and offers that only change by closing stay sound. */
  lemma ChainKept(m: Market, m': Market)
    requires ChainInv(m) && OffersKept(m, m') && |m'.offers| == |m.offers| && m'.listings == m.listings
    requires |m'.requests| == |m.requests|
    requires forall r :: 0 <= r < |m.requests| ==> m'.requests[r].(phase := m.requests[r].phase) == m.requests[r]
    ensures ChainInv(m')
  {
    forall r | 0 <= r < |m'.requests| ensures Sound(m', m'.requests[r].listing, m'.requests[r].buyer, m'.requests[r].parent) {
      assert Sound(m, m.requests[r].listing, m.requests[r].buyer, m.requests[r].parent);
    }
    forall o | 0 <= o < |m'.offers| ensures Sound(m', m'.offers[o].listing, m'.offers[o].buyer, m'.offers[o].parent) {
      assert Sound(m, m.offers[o].listing, m.offers[o].buyer, m.offers[o].parent);
    }
  }

  lemma InsertKeepsChain(m: Market, r: nat, hold: nat)
    requires MarketInv(m) && ChainInv(m) && r < |m.requests| && InsertOffer(m, m.requests[r], hold).Some?
    ensures ChainInv(InsertOffer(m, m.requests[r], hold).value)
  {
    var q := m.requests[r];
    var m' := InsertOffer(m, q, hold).value;
    InsertKeeps(m, q, hold);
    forall s | 0 <= s < |m'.requests| ensures Sound(m', m'.requests[s].listing, m'.requests[s].buyer, m'.requests[s].parent) {
      assert Sound(m, m.requests[s].listing, m.requests[s].buyer, m.requests[s].parent);
    }
    forall o | 0 <= o < |m'.offers|
      ensures Sound(m', m'.offers[o].listing, m'.offers[o].buyer, m'.offers[o].parent)
      ensures m'.offers[o].parent.Some? ==>
        m'.offers[o].parent.value < o && m'.offers[m'.offers[o].parent.value].status.Countered?
    {
      if o < |m.offers| {
        assert Sound(m, m.offers[o].listing, m.offers[o].buyer, m.offers[o].parent);
      } else {
        assert Sound(m, q.listing, q.buyer, q.parent);
      }
    }
  }

  lemma MoveKeepsChain(m: Market, r: nat, phase: Phase)
    requires ChainInv(m) && r < |m.requests|
    ensures ChainInv(Move(m, r, phase))
  {
    ChainKept(m, Move(m, r, phase));
  }

  lemma CommitKeepsChain(m: Market, r: nat, hold: nat, outcome: Outcome)
    requires MarketInv(m) && ChainInv(m) && r < |m.requests|
    ensures ChainInv(CommitNext(m, r, hold, outcome))
  {
    var inserted := InsertOffer(m, m.requests[r], hold);
    if outcome.RolledBack? || inserted.None? {
      MoveKeepsChain(m, r, Refused(hold));
    } else {
      InsertKeepsChain(m, r, hold);
      MoveKeepsChain(inserted.value, r, if outcome.CommittedUnseen? then Refused(hold) else Ended(Some(hold), false));
    }
  }

  /** A request's other steps change its phase and no offer. */
  lemma PhaseOnly(m: Market, r: nat, step: Step)
    requires r < |m.requests| && !step.Commit?
    ensures var m' := RequestNext(m, r, step);
      && m'.offers == m.offers && m'.listings == m.listings && |m'.requests| == |m.requests|
      && forall s :: 0 <= s < |m.requests| ==> m'.requests[s] == m.requests[s].(phase := m'.requests[s].phase)
  {
  }

  lemma RequestKeepsChain(m: Market, step: Step)
    requires MarketInv(m) && ChainInv(m) && OfRequest(step) && step.r < |m.requests|
    ensures ChainInv(Next(m, step))
  {
    var r := step.r;
    if step.Commit? {
      if m.requests[r].phase.Holding? { CommitKeepsChain(m, r, m.requests[r].phase.hold, step.outcome); }
    } else {
      PhaseOnly(m, r, step);
      ChainKept(m, RequestNext(m, r, step));
    }
  }

  lemma NextKeepsChain(m: Market, step: Step)
    requires MarketInv(m) && ChainInv(m)
    ensures ChainInv(Next(m, step))
  {
    if OfRequest(step) {
      if step.r < |m.requests| { RequestKeepsChain(m, step); }
    } else if step.Ask? {
      AskKeepsChain(m, step.request);
    } else {
      NextKeeps(m, step);
      if step.ExpireOffers? { ExpireAllKeeps(m, step.batch); }
      ChainKept(m, Next(m, step));
    }
  }

  lemma AskKeepsChain(m: Market, q: Request)
    requires ChainInv(m)
    ensures ChainInv(Next(m, Ask(q)))
  {
    var m' := Next(m, Ask(q));
    forall r | 0 <= r < |m'.requests| ensures Sound(m', m'.requests[r].listing, m'.requests[r].buyer, m'.requests[r].parent) {
      if r < |m.requests| { assert Sound(m, m.requests[r].listing, m.requests[r].buyer, m.requests[r].parent); }
    }
    forall o | 0 <= o < |m'.offers| ensures Sound(m', m'.offers[o].listing, m'.offers[o].buyer, m'.offers[o].parent) {
      assert Sound(m, m.offers[o].listing, m.offers[o].buyer, m.offers[o].parent);
    }
  }

  lemma {:induction false} ChainHolds(m: Market, steps: seq<Step>)
    requires MarketInv(m) && ChainInv(m)
    ensures ChainInv(Run(m, steps))
    decreases |steps|
  {
    if |steps| > 0 {
      NextKeeps(m, steps[0]);
      NextKeepsChain(m, steps[0]);
      ChainHolds(Next(m, steps[0]), steps[1..]);
    }
  }

  /**
   However requests interleave: nobody offers on their own listing, and a counter-offer follows an
   earlier offer of the same buyer on the same listing, which is countered.
   */
  lemma OffersAreSound(start: Market, steps: seq<Step>, m: Market, o: nat)
    requires Opened(start) && m == Run(start, steps) && o < |m.offers|
    ensures m.offers[o].listing < |m.listings| && m.listings[m.offers[o].listing].seller != m.offers[o].buyer
    ensures m.offers[o].parent.Some? ==>
      && m.offers[o].parent.value < o
      && var parent := m.offers[m.offers[o].parent.value];
         parent.listing == m.offers[o].listing && parent.buyer == m.offers[o].buyer && parent.status == Countered
  {
    OpenedInv(start);
    ChainHolds(start, steps);
    assert Sound(m, m.offers[o].listing, m.offers[o].buyer, m.offers[o].parent);
  }

  // ----- retries ---------------------------------------------------------------------

  /** The wait after a failed release starts at two seconds and doubles nine times. */
  lemma RetryDelayDoubles(attempts: nat)
    ensures RetryDelay(0) == 2_000
    ensures RetryDelay(attempts + 1) == if attempts < 9 then 2 * RetryDelay(attempts) else 1_024_000
  {
    assert Power2(1) == 2 && Power2(2) == 4 && Power2(3) == 8 && Power2(4) == 16 && Power2(5) == 32;
    assert Power2(6) == 64 && Power2(7) == 128 && Power2(8) == 256 && Power2(9) == 512 && Power2(10) == 1_024;
  }

  /** A claim locks the row for a minute and counts; the answer releases it, or schedules it anew. */
  lemma ClaimAndMark(m: Market, o: nat, now: Time, seen: nat, ok: bool)
    requires o in m.releases && o < |m.offers| && now <= m.clock && Claimable(m.releases[o], now)
    ensures var row := m.releases[o];
      var claimed := Next(m, ClaimRelease(o, now, seen));
      && claimed.releases == m.releases[o :=
           Release(Processing, row.attempts + 1, row.availableAt, Some(m.clock + 60_000), row.createdAt)]
      && claimed.attempts == m.attempts + [Calling(o, m.clock + 60_000, seen)]
      && claimed == m.(releases := claimed.releases, attempts := claimed.attempts)
    ensures var w, row := |m.attempts|, m.releases[o];
      var told := Next(Next(m, ClaimRelease(o, now, seen)), ProviderAnswers(w, ok));
      && Next(told, MarkRelease(w, false)).releases == m.releases[o :=
           if ok then Release(Released, row.attempts + 1, row.availableAt, None, row.createdAt)
           else Release(Retrying, row.attempts + 1, m.clock + RetryDelay(seen), None, row.createdAt)]
      && told.acknowledged == (if ok then m.acknowledged + {m.offers[o].hold} else m.acknowledged)
  {
  }
}
