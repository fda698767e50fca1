/** The marketplace repository's transactions and its release worker, over its own tables. */
module EscrowRepository {
  import opened Basics
  import opened Escrow
  import opened Queries
  import opened Results

  /** One turn of the release worker: claim, call the provider, mark. */
  function ProcessOne(m: Market, o: nat, seen: nat, now: Time, ok: bool): Market {
    if o !in m.releases || o >= |m.offers| || !Claimable(m.releases[o], now) then m
    else
      m.(releases := m.releases[o := MarkOf(ClaimOf(m.releases[o], m.clock), ok, seen, m.clock)],
         acknowledged := if ok then m.acknowledged + {m.offers[o].hold} else m.acknowledged)
  }

  /** `seen` are the rows that were fetched, `acks` the offers whose release the provider acknowledges. */
  function ProcessAll(m: Market, batch: seq<nat>, seen: map<nat, Release>, now: Time, acks: set<nat>): Market
    requires forall k :: 0 <= k < |batch| ==> batch[k] in seen
  {
    if |batch| == 0 then m
    else
      var n := |batch| - 1;
      ProcessOne(ProcessAll(m, batch[..n], seen, now, acks), batch[n], seen[batch[n]].attempts, now, batch[n] in acks)
  }

  /** A turn of the loop is a run of the protocol's steps for one attempt. */
  lemma ProcessOneIsRun(m: Market, o: nat, seen: nat, now: Time, ok: bool)
    requires o in m.releases && o < |m.offers| && Claimable(m.releases[o], now) && now <= m.clock
    ensures var w := |m.attempts|;
      var m' := Run(m, [ClaimRelease(o, now, seen), ProviderAnswers(w, ok), MarkRelease(w, false)]);
      m'.(attempts := m.attempts) == ProcessOne(m, o, seen, now, ok)
  {
    var w := |m.attempts|;
    var steps := [ClaimRelease(o, now, seen), ProviderAnswers(w, ok), MarkRelease(w, false)];
    var m1 := Next(m, steps[0]);
    assert m1.attempts[w] == Calling(o, m.clock + LOCK_MS, seen);
    var m2 := Next(m1, steps[1]);
    assert m2.attempts[w] == Told(o, m.clock + LOCK_MS, seen, ok);
    assert steps[1..][0] == steps[1] && steps[1..][1..] == steps[2..] && steps[2..][0] == steps[2] && steps[2..][1..] == [];
    assert Run(m2, steps[2..]) == Next(m2, steps[2]);
    assert Run(m1, steps[1..]) == Next(m2, steps[2]);
  }

  /** Left alone, a batch releases what the provider acknowledges and schedules the rest for retry. */
  lemma {:induction false} UndisturbedBatch(m: Market, batch: seq<nat>, now: Time, acks: set<nat>, o: nat)
    requires Distinct(batch) && o in m.releases
    requires forall k :: 0 <= k < |batch| ==>
      batch[k] in m.releases && batch[k] < |m.offers| && Claimable(m.releases[batch[k]], now)
    ensures var m' := ProcessAll(m, batch, m.releases, now, acks);
      && m'.releases.Keys == m.releases.Keys && m'.offers == m.offers && m'.clock == m.clock
      && m'.releases[o] == (
           var row := m.releases[o];
           if o !in batch then row
           else if o in acks then Release(Released, row.attempts + 1, row.availableAt, None, row.createdAt)
           else Release(Retrying, row.attempts + 1, m.clock + RetryDelay(row.attempts), None, row.createdAt))
  {
    if |batch| > 0 {
      var n := |batch| - 1;
      assert batch == batch[..n] + [batch[n]];
      UndisturbedBatch(m, batch[..n], now, acks, o);
      UndisturbedBatch(m, batch[..n], now, acks, batch[n]);
    }
  }

  /** Turns of a batch leave the rows of its later turns alone. */
  lemma LaterTurnsUntouched(m: Market, batch: seq<nat>, i: nat, now: Time, acks: set<nat>)
    requires Distinct(batch) && i < |batch|
    requires forall k :: 0 <= k < |batch| ==>
      batch[k] in m.releases && batch[k] < |m.offers| && Claimable(m.releases[batch[k]], now)
    ensures var m' := ProcessAll(m, batch[..i], m.releases, now, acks);
      && batch[i] in m'.releases && m'.releases[batch[i]] == m.releases[batch[i]]
      && |m'.offers| == |m.offers|
    ensures var m' := ProcessAll(m, batch[..i], m.releases, now, acks);
      ProcessAll(m, batch[..i + 1], m.releases, now, acks)
        == ProcessOne(m', batch[i], m.releases[batch[i]].attempts, now, batch[i] in acks)
  {
    UndisturbedBatch(m, batch[..i], now, acks, batch[i]);
    assert batch[..i + 1][..i] == batch[..i];
  }

  // ----- what is fetched -------------------------------------------------------------

  /** Open offers that have expired, by their expiry. */
  function ExpiryKeys(m: Market): seq<Option<int>> {
    seq(|m.offers|, o requires 0 <= o < |m.offers| =>
      if m.offers[o].status.Open? && m.offers[o].expiresAt <= m.clock then Some(m.offers[o].expiresAt) else None)
  }

  function ExpiredOffers(m: Market, limit: nat): seq<nat> { First(ExpiryKeys(m), limit) }

  /** Releases that may be claimed, by their creation. */
  function ReleaseKeys(m: Market, now: Time): seq<Option<int>> {
    seq(|m.offers|, o requires 0 <= o < |m.offers| =>
      if o in m.releases && Claimable(m.releases[o], now) then Some(m.releases[o].createdAt) else None)
  }

  function DueReleases(m: Market, now: Time, limit: nat): (batch: seq<nat>)
    ensures Distinct(batch)
    ensures forall k :: 0 <= k < |batch| ==>
      batch[k] in m.releases && batch[k] < |m.offers| && Claimable(m.releases[batch[k]], now)
  {
    First(ReleaseKeys(m, now), limit)
  }

  /** The worker turns the oldest releases first: one that may be claimed is left only to a full batch of older ones. */
  lemma DueExact(m: Market, now: Time, limit: nat, o: nat)
    requires o < |m.offers| && o in m.releases && Claimable(m.releases[o], now)
    ensures var batch := DueReleases(m, now, limit);
      o in batch || (|batch| == limit
        && forall k :: k in batch ==> k in m.releases && m.releases[k].createdAt <= m.releases[o].createdAt)
  {
    var keys, batch := ReleaseKeys(m, now), DueReleases(m, now, limit);
    assert Matches(keys, o as int);
    forall k | k in batch
      ensures k in m.releases && (o !in batch ==> m.releases[k].createdAt <= m.releases[o].createdAt)
    {
      var i :| 0 <= i < |batch| && batch[i] == k;
      assert Matches(keys, batch[i]);
    }
  }

  /** Nothing that expired is passed over, except for the limit, and nothing else expires. */
  lemma {:induction false} ExpireAllExact(m: Market, batch: seq<nat>, o: nat)
    requires o < |m.offers|
    ensures var m' := ExpireAll(m, batch);
      var expires := o in batch && m.offers[o].status.Open? && m.offers[o].expiresAt <= m.clock;
      && |m'.offers| == |m.offers| && m'.clock == m.clock
      && m'.offers[o] == (if expires then m.offers[o].(status := Expired) else m.offers[o])
      && (expires ==> o in m'.releases && m'.releases[o] == Release(Queued, 0, m.clock, None, m.clock))
      && (!expires ==> (o in m'.releases <==> o in m.releases) && (o in m.releases ==> m'.releases[o] == m.releases[o]))
  {
    if |batch| > 0 {
      var n := |batch| - 1;
      assert batch == batch[..n] + [batch[n]];
      ExpireAllExact(m, batch[..n], o);
    }
  }

  /** The sweep expires the offers that are due, the earliest first, and all of them below its limit. */
  lemma SweepExact(m: Market, limit: nat, o: nat)
    requires o < |m.offers| && m.offers[o].status.Open? && m.offers[o].expiresAt <= m.clock
    ensures var m' := ExpireAll(m, ExpiredOffers(m, limit));
      && |m'.offers| == |m.offers|
      && (m'.offers[o].status.Open? ==>
           |ExpiredOffers(m, limit)| == limit
           && forall k :: k in ExpiredOffers(m, limit) ==> k < |m.offers| && m.offers[k].expiresAt <= m.offers[o].expiresAt)
  {
    var keys, batch := ExpiryKeys(m), ExpiredOffers(m, limit);
    ExpireAllExact(m, batch, o);
    assert Matches(keys, o as int);
    forall k | k in batch ensures k < |m.offers| && (o !in batch ==> m.offers[k].expiresAt <= m.offers[o].expiresAt) {
      var i :| 0 <= i < |batch| && batch[i] == k;
      assert Matches(keys, batch[i]);
    }
  }

  /** The first `k` offers have been looked at while accepting `o`. */
  ghost predicate Midway(m: Market, o: nat, k: nat, offers: seq<Offer>, releases: map<nat, Release>)
    requires o < |m.offers|
  {
    && |offers| == |m.offers| && k <= |offers|
    && (forall i :: 0 <= i < |offers| ==>
         offers[i] ==
           if i == o then m.offers[i].(status := Accepted)
           else if i < k && Loses(m, o, i) then m.offers[i].(status := Rejected)
           else m.offers[i])
    && (forall i: nat :: i in releases <==> i in m.releases || (i < k && Loses(m, o, i)))
    && (forall i: nat :: i in releases ==>
         releases[i] == if i in m.releases then m.releases[i] else Release(Queued, 0, m.clock, None, m.clock))
  }

  /** Looking at one more offer: it is rejected and its release queued if it loses. */
  lemma MidwayNext(m: Market, o: nat, k: nat, offers: seq<Offer>, releases: map<nat, Release>,
                   offers': seq<Offer>, releases': map<nat, Release>)
    requires o < |m.offers| && k < |offers| && Midway(m, o, k, offers, releases)
    requires if Loses(m, o, k)
      then offers' == offers[k := offers[k].(status := Rejected)]
           && releases' == if k in releases then releases else releases[k := Release(Queued, 0, m.clock, None, m.clock)]
      else offers' == offers && releases' == releases
    ensures Midway(m, o, k + 1, offers', releases')
  {
  }

  lemma MidwayEnd(m: Market, o: nat, offers: seq<Offer>, releases: map<nat, Release>)
    requires o < |m.offers| && Midway(m, o, |m.offers|, offers, releases)
    ensures offers == Accept(m, o).offers && releases == Accept(m, o).releases
  {
    var after := Accept(m, o).releases;
    assert forall i: nat :: i in after <==> i in releases;
    assert forall i: nat :: i in after ==> after[i] == releases[i];
  }

  class Repository {
    const listings: seq<Listing>
    var offers: seq<Offer>
    var releases: map<nat, Release>
    var sales: map<nat, nat>
    var acknowledged: set<nat>

    function View(clock: Time): Market
      reads this
    {
      Market(clock, listings, offers, releases, sales, [], [], acknowledged)
    }

    constructor (listings: seq<Listing>)
      ensures forall clock :: View(clock) == Market(clock, listings, [], map[], map[], [], [], {})
    {
      this.listings, offers, releases, sales, acknowledged := listings, [], map[], map[], {};
    }

    /** The transaction of making an offer; false when it throws. */
    method Insert(q: Request, hold: nat, clock: Time) returns (inserted: bool)
      modifies this`offers, this`releases
      ensures inserted <==> InsertOffer(old(View(clock)), q, hold).Some?
      ensures View(clock) == if inserted then InsertOffer(old(View(clock)), q, hold).value else old(View(clock))
    {
      var savedOffers, savedReleases := offers, releases;
      if q.parent.Some? {
        var parent := q.parent.value;
        if parent >= |offers| || !offers[parent].status.Open? || parent in releases {
          return false;
        }
        offers := offers[parent := offers[parent].(status := Countered)];
        releases := releases[parent := Release(Queued, 0, clock, None, clock)];
      }
      assert KeyTaken(offers, q.key) <==> KeyTaken(savedOffers, q.key) by { SameKeys(savedOffers, offers, q.key, hold); }
      assert HoldTaken(offers, hold) <==> HoldTaken(savedOffers, hold) by { SameKeys(savedOffers, offers, q.key, hold); }
      if KeyTaken(offers, q.key) || HoldTaken(offers, hold) {
        offers, releases := savedOffers, savedReleases;
        return false;
      }
      offers := offers + [Offer(q.listing, q.buyer, q.parent, q.amount, q.key, hold, q.expiresAt, Open)];
      inserted := true;
    }

    static lemma SameKeys(before: seq<Offer>, after: seq<Offer>, key: string, hold: nat)
      requires |before| == |after|
      requires forall o :: 0 <= o < |before| ==> after[o].key == before[o].key && after[o].hold == before[o].hold
      ensures KeyTaken(after, key) <==> KeyTaken(before, key)
      ensures HoldTaken(after, hold) <==> HoldTaken(before, hold)
    {
      if KeyTaken(before, key) {
        var o :| 0 <= o < |before| && before[o].key == key;
        assert after[o].key == key;
      }
      if HoldTaken(before, hold) {
        var o :| 0 <= o < |before| && before[o].hold == hold;
        assert after[o].hold == hold;
      }
    }

    /** Accepts one offer and rejects the listing's other open ones, queueing their releases. */
    method AcceptOne(o: nat, seller: nat, clock: Time) returns (accepted: bool)
      modifies this
      ensures accepted <==> MayAccept(old(View(clock)), o, seller)
      ensures View(clock) == if accepted then Accept(old(View(clock)), o) else old(View(clock))
    {
      if o >= |offers| || !offers[o].status.Open? || offers[o].listing >= |listings|
        || listings[offers[o].listing].seller != seller || offers[o].expiresAt <= clock || offers[o].listing in sales
      {
        return false;
      }
      ghost var before := View(clock);
      var listing := offers[o].listing;
      offers := offers[o := offers[o].(status := Accepted)];
      var k := 0;
      while k < |offers|
        invariant 0 <= k <= |offers| && Midway(before, o, k, offers, releases)
        invariant sales == before.sales && acknowledged == before.acknowledged
      {
        ghost var offersBefore, releasesBefore := offers, releases;
        if k != o && offers[k].listing == listing && offers[k].status.Open? {
          offers := offers[k := offers[k].(status := Rejected)];
          if k !in releases {
            releases := releases[k := Release(Queued, 0, clock, None, clock)];
          }
        }
        MidwayNext(before, o, k, offersBefore, releasesBefore, offers, releases);
        k := k + 1;
      }
      sales := sales[listing := o];
      MidwayEnd(before, o, offers, releases);
      accepted := true;
    }

    /** Expires the offers that are due, within the limit, and queues their releases. */
    method QueueExpired(limit: nat, clock: Time)
      modifies this`offers, this`releases
      ensures View(clock) == ExpireAll(old(View(clock)), ExpiredOffers(old(View(clock)), limit))
    {
      var batch := ExpiredOffers(View(clock), limit);
      var i := 0;
      while i < |batch|
        invariant 0 <= i <= |batch|
        invariant View(clock) == ExpireAll(old(View(clock)), batch[..i])
      {
        assert batch[..i + 1][..i] == batch[..i];
        var o := batch[i];
        if o < |offers| && offers[o].status.Open? && offers[o].expiresAt <= clock {
          offers := offers[o := offers[o].(status := Expired)];
          releases := releases[o := Release(Queued, 0, clock, None, clock)];
        }
        i := i + 1;
      }
      assert batch[..i] == batch;
    }

    /** One turn of the loop; true when the row could be claimed. */
    method ReleaseOne(o: nat, seen: nat, now: Time, clock: Time, ok: bool) returns (claimed: bool)
      requires o in releases && o < |offers|
      modifies this`releases, this`acknowledged
      ensures claimed <==> Claimable(old(releases)[o], now)
      ensures View(clock) == ProcessOne(old(View(clock)), o, seen, now, ok)
    {
      var row := releases[o];
      if !Claimable(row, now) {
        return false;
      }
      releases := releases[o := row.(
        status := Processing, attempts := row.attempts + 1, lockedUntil := Some(clock + LOCK_MS))];
      if ok {
        acknowledged := acknowledged + {offers[o].hold};
        releases := releases[o := releases[o].(status := Released, lockedUntil := None)];
      } else {
        releases := releases[o := releases[o].(
          status := Retrying, availableAt := clock + RetryDelay(seen), lockedUntil := None)];
      }
      claimed := true;
    }

    /** The worker's loop over the releases that are due; counts the ones it claimed, which left alone are all. */
    method ReleaseDue(limit: nat, now: Time, clock: Time, acks: set<nat>) returns (processed: nat)
      modifies this`releases, this`acknowledged
      ensures var m := old(View(clock));
        var batch := DueReleases(m, now, limit);
        processed == |batch| && View(clock) == ProcessAll(m, batch, m.releases, now, acks)
    {
      ghost var before := View(clock);
      var batch := DueReleases(View(clock), now, limit);
      var candidates := releases;
      processed := 0;
      var i := 0;
      while i < |batch|
        invariant 0 <= i == processed <= |batch|
        invariant View(clock) == ProcessAll(before, batch[..i], candidates, now, acks)
      {
        LaterTurnsUntouched(before, batch, i, now, acks);
        var claimed := ReleaseOne(batch[i], candidates[batch[i]].attempts, now, clock, batch[i] in acks);
        if claimed {
          processed := processed + 1;
        }
        i := i + 1;
      }
      assert batch[..i] == batch;
    }

    /** Expires offers first, then processes the releases that are due, which may include the ones just queued. */
    method ProcessPaymentReleases(limit: nat, swept: Time, now: Time, clock: Time, acks: set<nat>) returns (processed: nat)
      modifies this`offers, this`releases, this`acknowledged
      ensures var expired := ExpireAll(old(View(swept)), ExpiredOffers(old(View(swept)), limit));
        var m := expired.(clock := clock);
        var batch := DueReleases(m, now, limit);
        processed == |batch| && View(clock) == ProcessAll(m, batch, m.releases, now, acks)
    {
      QueueExpired(limit, swept);
      processed := ReleaseDue(limit, now, clock, acks);
    }
  }
}
