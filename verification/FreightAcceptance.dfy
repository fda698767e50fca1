/** One quote, one booking: what uninterrupted operations promise, and exactly where interruption breaks it. */
module FreightAcceptance {
  import opened Freight
  import opened Results
  import opened Sums

  // ----- schedules -------------------------------------------------------------------

  function Amount(s: Schedule): int { s.amount }

  /** The least whole amount that reaches the percentage. */
  predicate ReachesPercent(deposit: int, total: nat, percent: nat) {
    100 * (deposit - 1) < total * percent <= 100 * deposit
  }

  lemma DepositFits(total: nat, percent: nat)
    requires percent <= 100
    ensures 0 <= DepositOf(total, percent) <= total
    ensures ReachesPercent(DepositOf(total, percent), total, percent)
  {
    assert 0 <= total * percent <= total * 100;
  }

  lemma SumOfOne(row: Schedule)
    ensures SumBy([row], Amount) == row.amount
  {
    SumByAppend([], row, Amount);
    assert [] + [row] == [row];
  }

  lemma SumOfTwo(first: Schedule, second: Schedule)
    ensures SumBy([first, second], Amount) == first.amount + second.amount
  {
    SumOfOne(first);
    SumByAppend([first], second, Amount);
    assert [first] + [second] == [first, second];
  }

  /**
   The schedules are non-negative and add up to the quote's total; the deposit is the least whole
   amount that reaches its percentage, and the balance falls due at least a day later.
   */
  lemma SchedulesAddUp(quote: Quote, policy: Policy, now: Time)
    requires ValidPercent(quote)
    ensures var rows := PaymentSchedules(quote, policy, now);
      && SumBy(rows, Amount) == quote.total
      && (forall k :: 0 <= k < |rows| ==> rows[k].amount >= 0 && rows[k].sequence == k + 1 && rows[k].dueAt >= now)
      && (policy.Deposit? && quote.depositPercent.Some? ==>
           ReachesPercent(rows[0].amount, quote.total, quote.depositPercent.value) && rows[1].dueAt >= rows[0].dueAt + DAY_MS)
  {
    var rows := PaymentSchedules(quote, policy, now);
    if policy.Deposit? {
      DepositFits(quote.total, if quote.depositPercent.Some? then quote.depositPercent.value else 100);
      SumOfTwo(rows[0], rows[1]);
    } else {
      SumOfOne(rows[0]);
    }
  }

  // ----- uninterrupted operations ----------------------------------------------------

  lemma {:induction false} LatestIsLatest(quotes: seq<Quote>)
    ensures !RevisionTaken(quotes, LatestRevision(quotes) + 1)
    ensures forall q :: 0 <= q < |quotes| ==> quotes[q].revision <= LatestRevision(quotes)
  {
    if |quotes| > 0 {
      LatestIsLatest(quotes[..|quotes| - 1]);
      forall q | 0 <= q < |quotes| ensures quotes[q].revision <= LatestRevision(quotes) {
        if q < |quotes| - 1 { assert quotes[q] == quotes[..|quotes| - 1][q]; }
      }
    }
  }

  lemma ActKeeps(c: Case, input: Input)
    requires SerialInv(c)
    ensures SerialInv(Act(c, input))
    ensures c.booking.Some? ==> Act(c, input).booking == c.booking
  {
    var c' := Act(c, input);
    match input
    case Publish(q) =>
      if Read(c, input).Some? {
        assert IsOpen(c, q as int);
        assert forall p :: IsOpen(c', p) ==> IsOpen(c, p);
        assert forall p :: IsAccepted(c', p) <==> IsAccepted(c, p);
      }
    case Accept(q, _) =>
      if Read(c, input).Some? {
        assert IsOpen(c, q as int);
        forall p ensures !IsOpen(c', p) && (IsAccepted(c', p) <==> p == q) {
          assert IsOpen(c, p) ==> p == q;
          assert !IsAccepted(c, p);
        }
      }
    case Decline(q) =>
      assert forall p :: IsOpen(c', p) ==> IsOpen(c, p);
      assert forall p :: IsAccepted(c', p) <==> IsAccepted(c, p);
    case CreateQuote(_, _, _, _, _) =>
      assert forall p :: IsAccepted(c', p) <==> IsAccepted(c, p);
    case _ =>
      assert forall p :: IsAccepted(c', p) <==> IsAccepted(c, p);
      assert forall p :: IsOpen(c', p) <==> IsOpen(c, p);
  }

  // ----- every operation, interrupted or not -----------------------------------------

  /** Quotes are only added, and change nothing but their status. */
  ghost predicate QuotesKept(c: Case, c': Case) {
    && |c.quotes| <= |c'.quotes|
    && forall q :: 0 <= q < |c.quotes| ==> c'.quotes[q] == c.quotes[q].(status := c'.quotes[q].status)
  }

  lemma WriteKeepsQuotes(c: Case, call: Call)
    requires Grounded(c, call)
    ensures QuotesKept(c, Write(c, call))
  {
  }

  /** The rows and the confirmation that an acceptance writes are those its quote agreed to. */
  lemma AcceptedAsAgreed(business: bool, quote: Quote, q: nat, policy: Policy, at: Time)
    requires Complete(business, quote) && policy == if business then quote.policy else Prepay
    ensures AsAgreed(business, quote, Booking(q, policy.NetTerms?, PaymentSchedules(quote, policy, at)), at)
  {
    if policy.Deposit? { DepositFits(quote.total, quote.depositPercent.value); }
  }

  lemma AgreedStays(c: Case, c': Case, booking: Booking)
    requires Agreed(c, booking) && QuotesKept(c, c') && c'.business == c.business && c.clock <= c'.clock
    ensures Agreed(c', booking)
  {
    var at: Time :| at <= c.clock && at < c.quotes[booking.quote].validUntil
      && AsAgreed(c.business, c.quotes[booking.quote], booking, at);
    assert AsAgreed(c'.business, c'.quotes[booking.quote], booking, at);
  }

  lemma HonestStays(c: Case, c': Case, call: Call)
    requires Grounded(c, call) && Honest(c, call)
    requires QuotesKept(c, c') && c'.business == c.business && c.clock <= c'.clock
    ensures Grounded(c', call) && Honest(c', call)
  {
  }

  lemma AcceptingBills(c: Case, q: nat, policy: Policy, at: Time)
    requires Billed(c) && Honest(c, Accepting(q, policy, at)) && c.booking.None?
    ensures Agreed(Write(c, Accepting(q, policy, at)), Write(c, Accepting(q, policy, at)).booking.value)
  {
    var c' := Write(c, Accepting(q, policy, at));
    AcceptedAsAgreed(c.business, c.quotes[q], q, policy, at);
    assert AsAgreed(c'.business, c'.quotes[q], c'.booking.value, at);
  }

  lemma WriteBills(c: Case, call: Call)
    requires Billed(c) && Grounded(c, call) && Honest(c, call)
    ensures Billed(Write(c, call))
  {
    var c' := Write(c, call);
    WriteKeepsQuotes(c, call);
    forall k | 0 <= k < |c'.calls| ensures Grounded(c', c'.calls[k]) && Honest(c', c'.calls[k]) {
      HonestStays(c, c', c.calls[k]);
    }
    if c.booking.Some? {
      AgreedStays(c, c', c.booking.value);
    } else if c'.booking.Some? {
      AcceptingBills(c, call.q, call.policy, call.at);
    }
  }

  lemma ReadIsGrounded(c: Case, input: Input)
    requires Read(c, input).Some?
    ensures Grounded(c, Read(c, input).value) && Honest(c, Read(c, input).value)
  {
  }

  /** Time may pass and calls may be dropped. */
  lemma BillsAside(c: Case, c': Case)
    requires Billed(c) && c.clock <= c'.clock && c' == c.(clock := c'.clock, calls := c'.calls)
    requires forall k :: 0 <= k < |c'.calls| ==> c'.calls[k] in c.calls
    ensures Billed(c')
    ensures forall k :: 0 <= k < |c.calls| ==> Grounded(c', c.calls[k]) && Honest(c', c.calls[k])
  {
    forall k | 0 <= k < |c.calls| ensures Grounded(c', c.calls[k]) && Honest(c', c.calls[k]) {
      HonestStays(c, c', c.calls[k]);
    }
    if c.booking.Some? { AgreedStays(c, c', c.booking.value); }
  }

  lemma BeginBills(c: Case, input: Input)
    requires Billed(c) && Read(c, input).Some?
    ensures Billed(c.(calls := c.calls + [Read(c, input).value]))
  {
    var c' := c.(calls := c.calls + [Read(c, input).value]);
    ReadIsGrounded(c, input);
    forall k | 0 <= k < |c'.calls| ensures Grounded(c', c'.calls[k]) && Honest(c', c'.calls[k]) {
      HonestStays(c, c', c'.calls[k]);
    }
    if c.booking.Some? { AgreedStays(c, c', c.booking.value); }
  }

  lemma NextBills(c: Case, step: Step)
    requires Billed(c)
    ensures Billed(Next(c, step))
  {
    match step
    case Pass(elapsed) => BillsAside(c, c.(clock := c.clock + elapsed));
    case Begin(input) => if Read(c, input).Some? { BeginBills(c, input); }
    case Commit(k) =>
      if k < |c.calls| {
        BillsAside(c, c.(calls := c.calls[..k] + c.calls[k + 1..]));
        WriteBills(c.(calls := c.calls[..k] + c.calls[k + 1..]), c.calls[k]);
      }
  }

  lemma {:induction false} RunBills(c: Case, steps: seq<Step>)
    requires Billed(c)
    ensures Billed(Run(c, steps))
    decreases |steps|
  {
    if |steps| > 0 {
      NextBills(c, steps[0]);
      RunBills(Next(c, steps[0]), steps[1..]);
    }
  }

  lemma AgreedAddsUp(business: bool, quote: Quote, booking: Booking, at: Time)
    requires Complete(business, quote) && AsAgreed(business, quote, booking, at)
    ensures SumBy(booking.schedules, Amount) == quote.total
    ensures forall k :: 0 <= k < |booking.schedules| ==> booking.schedules[k].amount >= 0
  {
    if business && quote.policy.Deposit? {
      SumOfTwo(booking.schedules[0], booking.schedules[1]);
      assert booking.schedules == [booking.schedules[0], booking.schedules[1]];
      DepositUnique(quote.total, quote.depositPercent.value, booking.schedules[0].amount);
    } else {
      SumOfOne(booking.schedules[0]);
      assert booking.schedules == [booking.schedules[0]];
    }
  }

  lemma DepositUnique(total: nat, percent: nat, deposit: int)
    requires percent <= 100 && ReachesPercent(deposit, total, percent)
    ensures deposit == DepositOf(total, percent) && 0 <= deposit <= total
  {
    DepositFits(total, percent);
  }

  /** However operations interleave, a booking's schedules are non-negative and add up to its quote's total. */
  lemma BookingAddsUp(start: Case, steps: seq<Step>)
    requires Started(start) && Run(start, steps).booking.Some?
    ensures var c := Run(start, steps);
      && c.booking.value.quote < |c.quotes|
      && SumBy(c.booking.value.schedules, Amount) == c.quotes[c.booking.value.quote].total
      && forall k :: 0 <= k < |c.booking.value.schedules| ==> c.booking.value.schedules[k].amount >= 0
  {
    RunBills(start, steps);
    var c := Run(start, steps);
    var booking := c.booking.value;
    var at: Time :| at <= c.clock && AsAgreed(c.business, c.quotes[booking.quote], booking, at);
    AgreedAddsUp(c.business, c.quotes[booking.quote], booking, at);
  }

  /**
   However operations interleave, a booking is what its quote agreed to, from a moment at which that
   was still valid: confirmed exactly for a business account on net terms, in two rows exactly for one
   on a deposit, and otherwise due in full at acceptance.
   */
  lemma BookedAsAgreed(start: Case, steps: seq<Step>)
    requires Started(start) && Run(start, steps).booking.Some?
    ensures var c := Run(start, steps);
      && Agreed(c, c.booking.value)
      && var quote := c.quotes[c.booking.value.quote];
      && (c.booking.value.confirmed <==> quote.policy.NetTerms?)
      && (|c.booking.value.schedules| == 2 <==> c.business && quote.policy.Deposit?)
      && (|c.booking.value.schedules| == 1 <==> !c.business || !quote.policy.Deposit?)
  {
    RunBills(start, steps);
  }

  lemma TurnIsRun(c: Case, turn: Turn)
    requires c.calls == []
    ensures Run(c, Unrolled([turn])) == Take(c, turn) && Take(c, turn).calls == []
  {
    assert [turn][1..] == [];
    match turn
    case Wait(elapsed) => assert Unrolled([turn]) == [Pass(elapsed)] && [Pass(elapsed)][1..] == [];
    case Do(input) =>
      var steps := [Begin(input), Commit(0)];
      assert Unrolled([turn]) == steps && steps[1..] == [Commit(0)] && [Commit(0)][1..] == [];
      var c1 := Next(c, Begin(input));
      assert Run(c, steps) == Run(c1, [Commit(0)]) == Next(c1, Commit(0));
      if Read(c, input).Some? {
        assert c1.calls[..0] + c1.calls[1..] == [];
      }
  }

  lemma {:induction false} RunConcat(c: Case, first: seq<Step>, second: seq<Step>)
    ensures Run(c, first + second) == Run(Run(c, first), second)
    decreases |first|
  {
    if |first| == 0 {
      assert first + second == second;
    } else {
      assert (first + second)[1..] == first[1..] + second;
      RunConcat(Next(c, first[0]), first[1..], second);
    }
  }

  /** A run of uninterrupted operations is one of the runs. */
  lemma {:induction false} SerialIsRun(c: Case, turns: seq<Turn>)
    requires c.calls == []
    ensures Run(c, Unrolled(turns)) == Serial(c, turns) && Serial(c, turns).calls == []
    decreases |turns|
  {
    if |turns| > 0 {
      TurnIsRun(c, turns[0]);
      assert [turns[0]][1..] == [];
      assert Unrolled(turns) == Unrolled([turns[0]]) + Unrolled(turns[1..]);
      RunConcat(c, Unrolled([turns[0]]), Unrolled(turns[1..]));
      SerialIsRun(Take(c, turns[0]), turns[1..]);
    }
  }

  // ----- single acceptance -----------------------------------------------------------

  lemma TakeKeeps(c: Case, turn: Turn)
    requires SerialInv(c)
    ensures SerialInv(Take(c, turn))
    ensures c.booking.Some? ==> Take(c, turn).booking == c.booking
  {
    match turn
    case Wait(_) =>
      var c' := Take(c, turn);
      assert forall p :: (IsAccepted(c', p) <==> IsAccepted(c, p)) && (IsOpen(c', p) <==> IsOpen(c, p));
    case Do(input) => ActKeeps(c, input);
  }

  lemma {:induction false} SerialKeeps(c: Case, turns: seq<Turn>)
    requires SerialInv(c)
    ensures SerialInv(Serial(c, turns))
    ensures c.booking.Some? ==> Serial(c, turns).booking == c.booking
    decreases |turns|
  {
    if |turns| > 0 {
      TakeKeeps(c, turns[0]);
      SerialKeeps(Take(c, turns[0]), turns[1..]);
    }
  }

  /**
   Over every run of uninterrupted operations there is at most one open and one accepted quote; a
   booking exists exactly when a quote is accepted and exactly when the request is, and for good;
   and its schedules add up to the quote that was accepted.
   */
  lemma SingleAcceptance(start: Case, before: seq<Turn>, after: seq<Turn>)
    requires Started(start)
    ensures var c := Serial(start, before);
      && Sound(c)
      && (c.booking.Some? ==>
           && IsAccepted(c, c.booking.value.quote as int)
           && SumBy(c.booking.value.schedules, Amount) == c.quotes[c.booking.value.quote].total
           && Serial(c, after).booking == c.booking && Serial(c, after).status.Taken?)
  {
    SerialKeeps(start, before);
    var c := Serial(start, before);
    SerialKeeps(c, after);
    if c.booking.Some? {
      SerialIsRun(start, before);
      BookingAddsUp(start, Unrolled(before));
    }
  }

  // ----- a cancelled request ---------------------------------------------------------

  /** A draft that can still be published, or a published quote that can still be accepted. */
  predicate CanReopen(c: Case, q: int) {
    && IsOpen(c, q) && c.quotes[q].validUntil > c.clock
    && (c.quotes[q].status.Draft? || c.booking.None?)
  }

  /** A call in flight whose write moves the request on, or leaves a draft that can be published. */
  predicate Reopens(c: Case, call: Call) {
    match call
    case Submitting => true
    case Estimating => true
    case Publishing(_) => true
    case Quoting(quote) => !RevisionTaken(c.quotes, quote.revision) && quote.validUntil > c.clock
    case Accepting(_, _, _) => c.booking.None?
    case Declining(_) => false
    case Cancelling => false
  }

  /** No quote and no call in flight can take the request any further. */
  ghost predicate Idle(c: Case) {
    && (forall q :: !CanReopen(c, q))
    && (forall k :: 0 <= k < |c.calls| ==> !Reopens(c, c.calls[k]))
  }

  ghost predicate StaysCancelled(c: Case) { forall after: seq<Step> :: Run(c, after).status.Cancelled? }

  lemma IdleWrite(c: Case, call: Call)
    requires c.status.Cancelled? && Idle(c) && Grounded(c, call) && !Reopens(c, call)
    ensures Write(c, call).status.Cancelled? && Idle(Write(c, call))
  {
    var c' := Write(c, call);
    forall q ensures !CanReopen(c', q) {
      assert !CanReopen(c, q);
    }
    forall k | 0 <= k < |c.calls| ensures !Reopens(c', c.calls[k]) {
      assert !Reopens(c, c.calls[k]);
      if c.calls[k].Quoting? && RevisionTaken(c.quotes, c.calls[k].quote.revision) {
        RevisionStays(c, call, c.calls[k].quote.revision);
      }
    }
  }

  lemma RevisionStays(c: Case, call: Call, revision: nat)
    requires Grounded(c, call) && RevisionTaken(c.quotes, revision)
    ensures RevisionTaken(Write(c, call).quotes, revision)
  {
    var q :| 0 <= q < |c.quotes| && c.quotes[q].revision == revision;
    WriteKeepsQuotes(c, call);
    assert Write(c, call).quotes[q].revision == revision;
  }

  lemma IdleCommit(c: Case, k: nat)
    requires c.status.Cancelled? && Idle(c) && k < |c.calls| && Grounded(c, c.calls[k])
    ensures Next(c, Commit(k)).status.Cancelled? && Idle(Next(c, Commit(k)))
  {
    var c1 := c.(calls := c.calls[..k] + c.calls[k + 1..]);
    assert forall q :: CanReopen(c1, q) ==> CanReopen(c, q);
    IdleWrite(c1, c.calls[k]);
  }

  lemma IdleNext(c: Case, step: Step)
    requires c.status.Cancelled? && Idle(c) && Billed(c)
    ensures Next(c, step).status.Cancelled? && Idle(Next(c, step))
  {
    match step
    case Pass(_) => assert forall q :: CanReopen(Next(c, step), q) ==> CanReopen(c, q);
    case Begin(input) =>
      if input.Publish? { assert !CanReopen(c, input.q as int); }
      if input.Accept? { assert !CanReopen(c, input.q as int); }
      assert forall q :: CanReopen(Next(c, step), q) ==> CanReopen(c, q);
    case Commit(k) =>
      if k < |c.calls| {
        IdleCommit(c, k);
      }
  }

  lemma {:induction false} IdleStays(c: Case, steps: seq<Step>)
    requires c.status.Cancelled? && Idle(c) && Billed(c)
    ensures Run(c, steps).status.Cancelled?
    decreases |steps|
  {
    if |steps| > 0 {
      IdleNext(c, steps[0]);
      NextBills(c, steps[0]);
      IdleStays(Next(c, steps[0]), steps[1..]);
    }
  }

  lemma RunOne(c: Case, step: Step)
    ensures Run(c, [step]) == Next(c, step)
  {
    assert Run(Next(c, step), [step][1..]) == Next(c, step);
  }

  lemma RunTwo(c: Case, first: Step, second: Step)
    ensures Run(c, [first, second]) == Next(Next(c, first), second)
  {
    assert [first, second] == [first] + [second];
    RunConcat(c, [first], [second]);
    RunOne(c, first);
    RunOne(Next(c, first), second);
  }

  /** Publishing an open draft, or accepting a published quote, takes the request out of CANCELLED. */
  lemma QuoteReopens(c: Case, q: nat)
    requires CanReopen(c, q as int)
    ensures !StaysCancelled(c)
  {
    var input := if c.quotes[q].status.Draft? then Publish(q) else Accept(q, true);
    var c1 := Next(c, Begin(input));
    RunTwo(c, Begin(input), Commit(|c.calls|));
    assert c1.calls[|c.calls|] == Read(c, input).value;
    assert !Run(c, [Begin(input), Commit(|c.calls|)]).status.Cancelled?;
  }

  lemma CallReopens(c: Case, k: nat)
    requires k < |c.calls| && Reopens(c, c.calls[k]) && Grounded(c, c.calls[k])
    ensures !StaysCancelled(c)
  {
    var c1 := Next(c, Commit(k));
    RunOne(c, Commit(k));
    if c.calls[k].Quoting? {
      assert CanReopen(c1, |c.quotes|);
      QuoteReopens(c1, |c.quotes|);
      var after: seq<Step> :| !Run(c1, after).status.Cancelled?;
      RunConcat(c, [Commit(k)], after);
      assert !Run(c, [Commit(k)] + after).status.Cancelled?;
    } else {
      assert !Run(c, [Commit(k)]).status.Cancelled?;
    }
  }

  /**
   Cancelling is not final: publishing and accepting never look at the request, and no write repeats
   the check that it was based on. Over every run, a cancelled request stays cancelled whatever
   follows exactly when no quote and no call in flight can take it any further.
   */
  lemma CancelledFinalExact(start: Case, before: seq<Step>)
    requires Started(start) && Run(start, before).status.Cancelled?
    ensures StaysCancelled(Run(start, before)) <==> Idle(Run(start, before))
  {
    RunBills(start, before);
    var c := Run(start, before);
    if Idle(c) {
      forall after: seq<Step> ensures Run(c, after).status.Cancelled? { IdleStays(c, after); }
    } else if q :| CanReopen(c, q) {
      QuoteReopens(c, q);
    } else {
      var k :| 0 <= k < |c.calls| && Reopens(c, c.calls[k]);
      CallReopens(c, k);
    }
  }

  // ----- a cancelled request, uninterrupted ------------------------------------------

  /** With nothing in flight: it stays cancelled exactly when no quote that is still valid was left open. */
  lemma CancelledSerialExact(start: Case, before: seq<Turn>)
    requires Started(start) && Serial(start, before).status.Cancelled?
    ensures var c := Serial(start, before);
      StaysCancelled(c) <==> forall q :: IsOpen(c, q) ==> c.quotes[q].validUntil <= c.clock
  {
    SerialIsRun(start, before);
    SerialKeeps(start, before);
    CancelledFinalExact(start, Unrolled(before));
    var c := Serial(start, before);
    assert forall q :: IsOpen(c, q) && c.quotes[q].validUntil > c.clock <==> CanReopen(c, q);
  }

  // ----- interrupted operations ------------------------------------------------------

  /** A quote is accepted only by the booking, however operations interleave. */
  ghost predicate AcceptedIsBooked(c: Case) {
    forall q :: IsAccepted(c, q) ==> c.booking.Some? && c.booking.value.quote == q
  }

  ghost predicate DraftsPending(c: Case) {
    forall k :: 0 <= k < |c.calls| && c.calls[k].Quoting? ==> c.calls[k].quote.status.Draft?
  }

  lemma NextKeepsBooked(c: Case, step: Step)
    requires AcceptedIsBooked(c) && DraftsPending(c)
    ensures AcceptedIsBooked(Next(c, step)) && DraftsPending(Next(c, step))
    ensures c.booking.Some? ==> Next(c, step).booking == c.booking
  {
    var c' := Next(c, step);
    forall q | IsAccepted(c', q) ensures c'.booking.Some? && c'.booking.value.quote == q {
      assert IsAccepted(c, q) || c'.booking != c.booking;
    }
  }

  lemma {:induction false} BookedKept(c: Case, steps: seq<Step>)
    requires AcceptedIsBooked(c) && DraftsPending(c)
    ensures AcceptedIsBooked(Run(c, steps)) && DraftsPending(Run(c, steps))
    ensures c.booking.Some? ==> Run(c, steps).booking == c.booking
    decreases |steps|
  {
    if |steps| > 0 {
      NextKeepsBooked(c, steps[0]);
      BookedKept(Next(c, steps[0]), steps[1..]);
    }
  }

  /** Even with every read and write interleaved, two quotes are never both accepted and a booking is never replaced. */
  lemma NeverTwoAccepted(start: Case, before: seq<Step>, after: seq<Step>, p: int, q: int)
    requires Started(start)
    ensures var c := Run(start, before);
      && (IsAccepted(c, p) && IsAccepted(c, q) ==> p == q)
      && (c.booking.Some? ==> Run(c, after).booking == c.booking)
  {
    BookedKept(start, before);
    BookedKept(Run(start, before), after);
  }

  /** What a write should have checked again. */
  ghost predicate Harmless(c: Case, call: Call) {
    match call
    case Submitting => !c.status.Taken?
    case Estimating => !c.status.Taken?
    case Cancelling => !c.status.Taken?
    case Quoting(_) => true
    case Publishing(q) => !c.status.Taken? && forall p :: IsOpen(c, p) ==> p == q
    case Declining(q) => !IsAccepted(c, q)
    case Accepting(_, _, _) => true
  }

  lemma AcceptingIsSound(c: Case, q: nat, policy: Policy, at: Time)
    requires Sound(c) && q < |c.quotes|
    ensures Sound(Write(c, Accepting(q, policy, at)))
  {
    if c.booking.None? {
      var c' := Write(c, Accepting(q, policy, at));
      forall p ensures (IsAccepted(c', p) <==> p == q) && (IsOpen(c', p) ==> IsOpen(c, p)) {
        assert !IsAccepted(c, p);
      }
    }
  }

  lemma PublishingExact(c: Case, q: nat)
    requires Sound(c) && q < |c.quotes|
    ensures Sound(Write(c, Publishing(q))) <==> Harmless(c, Publishing(q))
  {
    var c' := Write(c, Publishing(q));
    assert IsOpen(c', q as int);
    if c.status.Taken? {
      assert c'.booking.Some? && !c'.status.Taken?;
    } else {
      assert !IsAccepted(c, q as int);
      assert forall p :: IsAccepted(c', p) <==> IsAccepted(c, p);
      assert forall p :: IsOpen(c', p) <==> p == q || IsOpen(c, p);
    }
  }

  lemma DecliningExact(c: Case, q: nat)
    requires Sound(c) && q < |c.quotes|
    ensures Sound(Write(c, Declining(q))) <==> Harmless(c, Declining(q))
  {
    var c' := Write(c, Declining(q));
    assert !IsAccepted(c', q as int);
    assert forall p :: p != q ==> (IsAccepted(c', p) <==> IsAccepted(c, p));
    assert forall p :: IsOpen(c', p) ==> IsOpen(c, p);
  }

  /**
   Exactly when a write made on an older read leaves the case sound: creating a quote and accepting
   one always do; the others do if and only if their condition still holds when they write.
   */
  lemma WriteExact(c: Case, call: Call)
    requires Sound(c) && Grounded(c, call)
    ensures Sound(Write(c, call)) <==> Harmless(c, call)
  {
    var c' := Write(c, call);
    match call
    case Publishing(q) => PublishingExact(c, q);
    case Declining(q) => DecliningExact(c, q);
    case Accepting(q, policy, at) => AcceptingIsSound(c, q, policy, at);
    case Quoting(_) =>
      assert forall p :: IsAccepted(c', p) <==> IsAccepted(c, p);
    case _ =>
      assert forall p :: (IsAccepted(c', p) <==> IsAccepted(c, p)) && (IsOpen(c', p) <==> IsOpen(c, p));
  }

  /** A step is harmless unless it commits a write whose condition no longer holds. */
  ghost predicate HarmlessStep(c: Case, step: Step) {
    step.Commit? && step.call < |c.calls| ==> Harmless(c, c.calls[step.call])
  }

  lemma SoundStepExact(c: Case, step: Step)
    requires Sound(c) && Billed(c)
    ensures Sound(Next(c, step)) <==> HarmlessStep(c, step)
  {
    match step
    case Commit(k) =>
      if k < |c.calls| {
        var c1 := c.(calls := c.calls[..k] + c.calls[k + 1..]);
        assert forall p :: (IsAccepted(c1, p) <==> IsAccepted(c, p)) && (IsOpen(c1, p) <==> IsOpen(c, p));
        WriteExact(c1, c.calls[k]);
      }
    case _ =>
      assert forall p :: (IsAccepted(Next(c, step), p) <==> IsAccepted(c, p)) && (IsOpen(Next(c, step), p) <==> IsOpen(c, p));
  }

  ghost predicate SoundThroughout(c: Case, steps: seq<Step>)
    decreases |steps|
  {
    Sound(c) && (|steps| > 0 ==> SoundThroughout(Next(c, steps[0]), steps[1..]))
  }

  ghost predicate HarmlessRun(c: Case, steps: seq<Step>)
    decreases |steps|
  {
    |steps| > 0 ==> HarmlessStep(c, steps[0]) && HarmlessRun(Next(c, steps[0]), steps[1..])
  }

  lemma {:induction false} SoundKept(c: Case, steps: seq<Step>)
    requires Sound(c) && Billed(c)
    ensures SoundThroughout(c, steps) <==> HarmlessRun(c, steps)
    decreases |steps|
  {
    if |steps| > 0 {
      var c' := Next(c, steps[0]);
      SoundStepExact(c, steps[0]);
      NextBills(c, steps[0]);
      if Sound(c') {
        SoundKept(c', steps[1..]);
      } else {
        assert !SoundThroughout(c', steps[1..]);
      }
    }
  }

  /** Over every run: one open quote, and a booking exactly with acceptance, hold throughout exactly when every write is harmless. */
  lemma SoundExact(start: Case, steps: seq<Step>)
    requires Started(start)
    ensures SoundThroughout(start, steps) <==> HarmlessRun(start, steps)
  {
    SoundKept(start, steps);
  }
}
