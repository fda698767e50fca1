/** What each freight operation leaves behind, and exactly when it goes through. */
module FreightEffects {
  import opened Basics
  import opened Freight
  import opened FreightAcceptance
  import opened Results

  // ----- accepting -------------------------------------------------------------------

  /** A quote is accepted exactly while it is published, valid and the first, with credit if it is on net terms. */
  lemma AcceptGoesThrough(start: Case, steps: seq<Step>, c: Case, q: nat, creditAllowed: bool)
    requires Started(start) && c == Run(start, steps)
    ensures Read(c, Accept(q, creditAllowed)).Some? <==>
      && q < |c.quotes| && c.quotes[q].status == Published && c.clock < c.quotes[q].validUntil && c.booking == None
      && (c.quotes[q].policy.NetTerms? ==> creditAllowed)
  {
    RunBills(start, steps);
    if q < |c.quotes| { assert Complete(c.business, c.quotes[q]); }
  }

  /** An acceptance that goes through books its quote as agreed, from now on, and closes the request. */
  lemma AcceptEffect(start: Case, steps: seq<Step>, c: Case, q: nat, creditAllowed: bool)
    requires Started(start) && c == Run(start, steps) && Read(c, Accept(q, creditAllowed)).Some?
    ensures var c' := Act(c, Accept(q, creditAllowed));
      && c'.booking.Some? && c'.booking.value.quote == q
      && AsAgreed(c.business, c.quotes[q], c'.booking.value, c.clock)
      && OnlyRow(c.quotes, c'.quotes, q) && c'.quotes[q] == c.quotes[q].(status := Accepted)
      && c' == c.(status := Taken, quotes := c'.quotes, booking := c'.booking)
  {
    RunBills(start, steps);
    AcceptedAsAgreed(c.business, c.quotes[q], q, if c.business then c.quotes[q].policy else Prepay, c.clock);
  }

  // ----- quotes ----------------------------------------------------------------------

  /** Revisions count the quotes, one by one; a revision that is still being written is at most the next. */
  ghost predicate Numbered(c: Case) {
    && (forall q :: 0 <= q < |c.quotes| ==> c.quotes[q].revision == q + 1)
    && forall k :: 0 <= k < |c.calls| && c.calls[k].Quoting? ==> 1 <= c.calls[k].quote.revision <= |c.quotes| + 1
  }

  lemma {:induction false} LatestNumbered(quotes: seq<Quote>)
    requires forall q :: 0 <= q < |quotes| ==> quotes[q].revision == q + 1
    ensures LatestRevision(quotes) == |quotes|
  {
    if |quotes| > 0 { LatestNumbered(quotes[..|quotes| - 1]); }
  }

  lemma WriteKeepsNumbered(c: Case, call: Call)
    requires Numbered(c) && (call.Quoting? ==> 1 <= call.quote.revision <= |c.quotes| + 1)
    ensures Numbered(Write(c, call))
  {
    if call.Quoting? && call.quote.revision <= |c.quotes| {
      assert c.quotes[call.quote.revision - 1].revision == call.quote.revision;
    }
  }

  lemma NextKeepsNumbered(c: Case, step: Step)
    requires Numbered(c)
    ensures Numbered(Next(c, step))
  {
    LatestNumbered(c.quotes);
    if step.Commit? && step.call < |c.calls| {
      WriteKeepsNumbered(c.(calls := c.calls[..step.call] + c.calls[step.call + 1..]), c.calls[step.call]);
    }
  }

  lemma {:induction false} NumberedKept(c: Case, steps: seq<Step>)
    requires Numbered(c)
    ensures Numbered(Run(c, steps))
    decreases |steps|
  {
    if |steps| > 0 {
      NextKeepsNumbered(c, steps[0]);
      NumberedKept(Next(c, steps[0]), steps[1..]);
    }
  }

  /** However operations interleave, a request's quotes are its revisions 1, 2, 3 and so on. */
  lemma RevisionsInOrder(start: Case, steps: seq<Step>, q: nat)
    requires Started(start) && q < |Run(start, steps).quotes|
    ensures Run(start, steps).quotes[q].revision == q + 1
  {
    NumberedKept(start, steps);
  }

  lemma QuoteGoesThrough(c: Case, total: nat, policy: Policy, percent: Option<nat>, days: nat, validUntil: Time)
    ensures Read(c, CreateQuote(total, policy, percent, days, validUntil)).Some? <==>
      && c.status in {Submitted, UnderReview, Quoted}
      && (percent.Some? ==> 1 <= percent.value <= 99)
      && (policy == Deposit ==> percent.Some?) && (policy == NetTerms ==> c.business)
  {
  }

  /** A new quote is the next revision, a draft with the terms that were asked; drafts and offers before it are superseded. */
  lemma QuoteEffect(start: Case, steps: seq<Step>, c: Case,
                    total: nat, policy: Policy, percent: Option<nat>, days: nat, validUntil: Time, q: nat)
    requires Started(start) && c == Run(start, steps)
    requires Read(c, CreateQuote(total, policy, percent, days, validUntil)).Some?
    ensures var c' := Act(c, CreateQuote(total, policy, percent, days, validUntil));
      && |c'.quotes| == |c.quotes| + 1 && c' == c.(quotes := c'.quotes)
      && c'.quotes[|c.quotes|] == Quote(|c.quotes| + 1, total, policy, percent, days, validUntil, Draft)
      && (q < |c.quotes| ==>
           && c'.quotes[q] == c.quotes[q].(status := c'.quotes[q].status)
           && c'.quotes[q].status == if c.quotes[q].status in {Draft, Published} then Superseded else c.quotes[q].status)
  {
    NumberedKept(start, steps);
    LatestNumbered(c.quotes);
    LatestIsLatest(c.quotes);
  }

  /** A draft that is still valid is published, and its request quoted. */
  lemma PublishEffect(c: Case, q: nat)
    ensures var goes := q < |c.quotes| && c.quotes[q].status == Draft && c.clock < c.quotes[q].validUntil;
      var c' := Act(c, Publish(q));
      if !goes then c' == c
      else
        && OnlyRow(c.quotes, c'.quotes, q) && c'.quotes[q] == c.quotes[q].(status := Published)
        && c' == c.(quotes := c'.quotes, status := Quoted)
  {
  }

  /** A published quote is declined, whether or not it is still valid, and nothing else changes. */
  lemma DeclineEffect(c: Case, q: nat)
    ensures var goes := q < |c.quotes| && c.quotes[q].status == Published;
      var c' := Act(c, Decline(q));
      if !goes then c' == c
      else
        && OnlyRow(c.quotes, c'.quotes, q) && c'.quotes[q] == c.quotes[q].(status := Declined)
        && c' == c.(quotes := c'.quotes)
  {
  }

  /** The request alone: it is submitted, estimated and cancelled from the states that allow it. */
  lemma RequestEffect(c: Case)
    ensures Act(c, Submit) == if c.status == Drafted then c.(status := Submitted) else c
    ensures Act(c, Estimate) == if c.status == Submitted then c.(status := UnderReview) else c
    ensures Act(c, Cancel)
      == if c.status in {Drafted, Submitted, UnderReview, Quoted} then c.(status := Cancelled) else c
  {
  }
}
