/**
 Two concurrent requests under one idempotency key, and a provider that answers both with the same
 reference: the request that loses releases the hold that the other's open offer relies on. And one
 request whose lookup fails after its transaction did: its hold is neither used nor released.
 */
module EscrowCounterexample {
  import opened Escrow
  import opened EscrowSafety
  import opened Results

  const ASKED := Request(0, 7, None, 500, "key-1234", 100, Ready)

  const OFFER := Offer(0, 7, None, 500, "key-1234", 1, 100, Open)

  function MarketWith(offers: seq<Offer>, requests: seq<Request>, acknowledged: set<nat>): Market {
    Market(0, [Listing(3, true, 100)], offers, map[], map[], requests, [], acknowledged)
  }

  function At(phase: Phase): Request { ASKED.(phase := phase) }

  const BOTH_HOLD: seq<Step> := [Ask(ASKED), Ask(ASKED), Hold(0, 1), Hold(1, 1)]

  const FIRST_FAILS: seq<Step> := [Commit(0, RolledBack), FindReplay(0, false), FindOwner(0, false)]

  const SECOND_COMMITS: seq<Step> := [Commit(1, Committed), Compensate(0, true)]

  lemma Run2(m: Market, a: Step, b: Step)
    ensures Run(m, [a, b]) == Next(Next(m, a), b)
  {
    assert [a, b][1..] == [b] && [b][1..] == [];
    assert Run(m, [a, b]) == Run(Next(m, a), [b]);
    assert Run(Next(m, a), [b]) == Run(Next(Next(m, a), b), []);
  }

  lemma Run3(m: Market, a: Step, b: Step, c: Step)
    ensures Run(m, [a, b, c]) == Next(Next(Next(m, a), b), c)
  {
    assert [a, b, c][1..] == [b, c];
    assert Run(m, [a, b, c]) == Run(Next(m, a), [b, c]);
    Run2(Next(m, a), b, c);
  }

  lemma Run4(m: Market, a: Step, b: Step, c: Step, d: Step)
    ensures Run(m, [a, b, c, d]) == Next(Next(Next(Next(m, a), b), c), d)
  {
    assert [a, b, c, d][1..] == [b, c, d];
    assert Run(m, [a, b, c, d]) == Run(Next(m, a), [b, c, d]);
    Run3(Next(m, a), b, c, d);
  }

  lemma BothHold()
    ensures Run(MarketWith([], [], {}), BOTH_HOLD) == MarketWith([], [At(Holding(1)), At(Holding(1))], {})
  {
    var m0 := MarketWith([], [], {});
    var m1, m2 := MarketWith([], [ASKED], {}), MarketWith([], [ASKED, ASKED], {});
    assert Next(m0, Ask(ASKED)) == m1;
    assert Next(m1, Ask(ASKED)) == m2;
    var m3 := MarketWith([], [At(Holding(1)), ASKED], {});
    assert Next(m2, Hold(0, 1)) == m3;
    assert Next(m3, Hold(1, 1)) == MarketWith([], [At(Holding(1)), At(Holding(1))], {});
    Run4(m0, Ask(ASKED), Ask(ASKED), Hold(0, 1), Hold(1, 1));
  }

  lemma FirstFails()
    ensures Run(MarketWith([], [At(Holding(1)), At(Holding(1))], {}), FIRST_FAILS)
      == MarketWith([], [At(Compensating(1)), At(Holding(1))], {})
  {
    var m0 := MarketWith([], [At(Holding(1)), At(Holding(1))], {});
    var m1 := MarketWith([], [At(Refused(1)), At(Holding(1))], {});
    var m2 := MarketWith([], [At(NoReplay(1)), At(Holding(1))], {});
    assert Next(m0, Commit(0, RolledBack)) == m1;
    assert Next(m1, FindReplay(0, false)) == m2;
    assert Next(m2, FindOwner(0, false)) == MarketWith([], [At(Compensating(1)), At(Holding(1))], {});
    Run3(m0, Commit(0, RolledBack), FindReplay(0, false), FindOwner(0, false));
  }

  lemma SecondCommits()
    ensures Run(MarketWith([], [At(Compensating(1)), At(Holding(1))], {}), SECOND_COMMITS)
      == MarketWith([OFFER], [At(Ended(Some(1), false)), At(Ended(Some(1), false))], {1})
  {
    var m0 := MarketWith([], [At(Compensating(1)), At(Holding(1))], {});
    var m1 := MarketWith([OFFER], [At(Compensating(1)), At(Ended(Some(1), false))], {});
    assert m0.offers + [OFFER] == [OFFER];
    assert InsertOffer(m0, At(Holding(1)), 1) == Some(MarketWith([OFFER], m0.requests, {}));
    assert Next(m0, Commit(1, Committed)) == m1;
    assert {} + {1 as nat} == {1};
    assert Next(m1, Compensate(0, true))
      == MarketWith([OFFER], [At(Ended(Some(1), false)), At(Ended(Some(1), false))], {1});
    Run2(m0, Commit(1, Committed), Compensate(0, true));
  }

  /** An open offer is left whose payment is no longer held. */
  lemma SharedReferenceLosesHold()
    ensures var start := MarketWith([], [], {});
      var m := Run(start, BOTH_HOLD + FIRST_FAILS + SECOND_COMMITS);
      && Opened(start) && !FreshRun(start, BOTH_HOLD)
      && |m.offers| == 1 && m.offers[0].status.Open? && m.offers[0].hold in m.acknowledged
      && !SafeHolds(m)
  {
    var start := MarketWith([], [], {});
    BothHold();
    FirstFails();
    SecondCommits();
    RunConcat(start, BOTH_HOLD + FIRST_FAILS, SECOND_COMMITS);
    RunConcat(start, BOTH_HOLD, FIRST_FAILS);
    var m := Run(start, BOTH_HOLD + FIRST_FAILS + SECOND_COMMITS);
    assert m.offers[0] == OFFER && Live(OFFER.status);
    NotFresh();
  }

  lemma NotFresh()
    ensures !FreshRun(MarketWith([], [], {}), BOTH_HOLD)
  {
    var m0, m1 := MarketWith([], [], {}), MarketWith([], [ASKED], {});
    var m2, m3 := MarketWith([], [ASKED, ASKED], {}), MarketWith([], [At(Holding(1)), ASKED], {});
    assert Next(m0, BOTH_HOLD[0]) == m1 && Next(m1, BOTH_HOLD[1]) == m2 && Next(m2, BOTH_HOLD[2]) == m3;
    assert HeldBy(m3, 0, 1);
    assert !FreshStep(m3, BOTH_HOLD[3]);
    assert BOTH_HOLD[1..][1..] == BOTH_HOLD[2..] && BOTH_HOLD[2..][1..] == BOTH_HOLD[3..];
    assert !FreshRun(m3, BOTH_HOLD[3..]);
    assert !FreshRun(m2, BOTH_HOLD[2..]);
    assert !FreshRun(m1, BOTH_HOLD[1..]);
  }

  // ----- a lookup that fails ---------------------------------------------------------

  const LOOKUP_FAILS: seq<Step> := [Ask(ASKED), Hold(0, 1), Commit(0, RolledBack), FindReplay(0, true)]

  /** The database fails during the transaction and the lookup after it: the payment stays held for nothing. */
  lemma LookupLosesHold()
    ensures var start := MarketWith([], [], {});
      var m := Run(start, LOOKUP_FAILS);
      && Opened(start) && m == MarketWith([], [At(Ended(Some(1), true))], {})
      && !AllKept(m)
  {
    var m0, m1 := MarketWith([], [], {}), MarketWith([], [ASKED], {});
    var m2, m3 := MarketWith([], [At(Holding(1))], {}), MarketWith([], [At(Refused(1))], {});
    var m4 := MarketWith([], [At(Ended(Some(1), true))], {});
    assert Next(m0, Ask(ASKED)) == m1 && Next(m1, Hold(0, 1)) == m2;
    assert Next(m2, Commit(0, RolledBack)) == m3 && Next(m3, FindReplay(0, true)) == m4;
    Run4(m0, Ask(ASKED), Hold(0, 1), Commit(0, RolledBack), FindReplay(0, true));
    assert !Kept(m4, m4.requests[0].phase);
  }
}
