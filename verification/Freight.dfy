/**
 A freight request, its quote revisions and its booking. Each operation reads first and writes in a
 later transaction; the writes do not repeat the checks made on what was read.
 */
module Freight {
  import opened Results

  type Time = int

  const DAY_MS := 86_400_000

  datatype RequestStatus = Drafted | Submitted | UnderReview | Quoted | Taken | Refused | Lapsed | Cancelled

  predicate Terminal(s: RequestStatus) { s.Taken? || s.Refused? || s.Lapsed? || s.Cancelled? }

  datatype QuoteStatus = Draft | Published | Superseded | Declined | Accepted

  datatype Policy = Prepay | Deposit | NetTerms

  datatype Quote = Quote(revision: nat, total: nat, policy: Policy, depositPercent: Option<nat>, termsDays: nat,
                         validUntil: Time, status: QuoteStatus)

  datatype ScheduleKind = DepositDue | BalanceDue | NetBalanceDue | FullDue

  datatype Schedule = Schedule(kind: ScheduleKind, amount: int, dueAt: Time, sequence: nat)

  datatype Booking = Booking(quote: nat, confirmed: bool, schedules: seq<Schedule>)

  /** What an operation has read and is about to write. */
  datatype Call =
    | Submitting
    | Estimating
    | Quoting(quote: Quote)
    | Publishing(q: nat)
    | Declining(q: nat)
    | Accepting(q: nat, policy: Policy, at: Time)
    | Cancelling

  /** `booking` is at most one row: its request column is unique. */
  datatype Case = Case(clock: Time, business: bool, status: RequestStatus, quotes: seq<Quote>, booking: Option<Booking>,
                       calls: seq<Call>)

  // ----- payment schedules -----------------------------------------------------------

  function Later(a: nat, b: nat): nat { if a >= b then a else b }

  /** The percentage of a total, rounded up. */
  function DepositOf(total: nat, percent: nat): int { (total * percent + 99) / 100 }

  function PaymentSchedules(quote: Quote, policy: Policy, now: Time): seq<Schedule> {
    match policy
    case Deposit =>
      var percent := if quote.depositPercent.Some? then quote.depositPercent.value else 100;
      var deposit := DepositOf(quote.total, percent);
      [Schedule(DepositDue, deposit, now, 1),
       Schedule(BalanceDue, quote.total - deposit, now + Later(1, quote.termsDays) * DAY_MS, 2)]
    case NetTerms => [Schedule(NetBalanceDue, quote.total, now + quote.termsDays * DAY_MS, 1)]
    case Prepay => [Schedule(FullDue, quote.total, now, 1)]
  }

  // ----- reads -----------------------------------------------------------------------

  datatype Input =
    | Submit
    | Estimate
    | CreateQuote(total: nat, policy: Policy, depositPercent: Option<nat>, termsDays: nat, validUntil: Time)
    | Publish(q: nat)
    | Decline(q: nat)
    | Accept(q: nat, creditAllowed: bool)
    | Cancel

  predicate Quotable(s: RequestStatus) { s.Submitted? || s.UnderReview? || s.Quoted? }

  function LatestRevision(quotes: seq<Quote>): nat {
    if |quotes| == 0 then 0
    else
      var earlier := LatestRevision(quotes[..|quotes| - 1]);
      if quotes[|quotes| - 1].revision > earlier then quotes[|quotes| - 1].revision else earlier
  }

  /** The call that an operation goes on with, unless what it reads makes it fail. */
  function Read(c: Case, input: Input): Option<Call> {
    match input
    case Submit => if c.status.Drafted? then Some(Submitting) else None
    case Estimate => if c.status.Submitted? then Some(Estimating) else None
    case CreateQuote(total, policy, percent, days, validUntil) =>
      if !Quotable(c.status) || (policy.Deposit? && percent.None?) || (percent.Some? && !(1 <= percent.value <= 99))
        || (policy.NetTerms? && !c.business)
      then None
      else Some(Quoting(Quote(LatestRevision(c.quotes) + 1, total, policy, percent, days, validUntil, Draft)))
    case Publish(q) =>
      if q < |c.quotes| && c.quotes[q].status.Draft? && c.quotes[q].validUntil > c.clock then Some(Publishing(q)) else None
    case Decline(q) => if q < |c.quotes| && c.quotes[q].status.Published? then Some(Declining(q)) else None
    case Accept(q, creditAllowed) =>
      if q >= |c.quotes| || !c.quotes[q].status.Published? || c.quotes[q].validUntil <= c.clock || c.booking.Some? then None
      else
        var policy := if c.business then c.quotes[q].policy else Prepay;
        if policy.NetTerms? && !creditAllowed then None else Some(Accepting(q, policy, c.clock))
    case Cancel => if Terminal(c.status) then None else Some(Cancelling)
  }

  // ----- writes ----------------------------------------------------------------------

  predicate OpenQuote(quote: Quote) { quote.status.Draft? || quote.status.Published? }

  function Supersede(quote: Quote): Quote { if OpenQuote(quote) then quote.(status := Superseded) else quote }

  function SupersedeAll(quotes: seq<Quote>): seq<Quote> {
    seq(|quotes|, q requires 0 <= q < |quotes| => Supersede(quotes[q]))
  }

  function Mark(quotes: seq<Quote>, q: nat, status: QuoteStatus): seq<Quote> {
    if q < |quotes| then quotes[q := quotes[q].(status := status)] else quotes
  }

  predicate RevisionTaken(quotes: seq<Quote>, revision: nat) {
    exists q :: 0 <= q < |quotes| && quotes[q].revision == revision
  }

  /** A write that hits a unique key throws and changes nothing. */
  function Write(c: Case, call: Call): Case {
    match call
    case Submitting => c.(status := Submitted)
    case Estimating => c.(status := UnderReview)
    case Quoting(quote) =>
      if RevisionTaken(c.quotes, quote.revision) then c else c.(quotes := SupersedeAll(c.quotes) + [quote])
    case Publishing(q) => c.(quotes := Mark(c.quotes, q, Published), status := Quoted)
    case Declining(q) => c.(quotes := Mark(c.quotes, q, Declined))
    case Accepting(q, policy, at) =>
      if c.booking.Some? || q >= |c.quotes| then c
      else c.(quotes := Mark(c.quotes, q, Accepted), status := Taken,
              booking := Some(Booking(q, policy.NetTerms?, PaymentSchedules(c.quotes[q], policy, at))))
    case Cancelling => c.(status := Cancelled)
  }

  // ----- runs ------------------------------------------------------------------------

  datatype Step = Pass(elapsed: nat) | Begin(input: Input) | Commit(call: nat)

  function Next(c: Case, step: Step): Case {
    match step
    case Pass(elapsed) => c.(clock := c.clock + elapsed)
    case Begin(input) =>
      if Read(c, input).Some? then c.(calls := c.calls + [Read(c, input).value]) else c
    case Commit(k) =>
      if k >= |c.calls| then c else Write(c.(calls := c.calls[..k] + c.calls[k + 1..]), c.calls[k])
  }

  function Run(c: Case, steps: seq<Step>): Case
    decreases |steps|
  {
    if |steps| == 0 then c else Run(Next(c, steps[0]), steps[1..])
  }

  /** An operation that nothing interrupts. */
  function Act(c: Case, input: Input): Case {
    if Read(c, input).Some? then Write(c, Read(c, input).value) else c
  }

  datatype Turn = Wait(elapsed: nat) | Do(input: Input)

  function Take(c: Case, turn: Turn): Case {
    match turn
    case Wait(elapsed) => c.(clock := c.clock + elapsed)
    case Do(input) => Act(c, input)
  }

  function Serial(c: Case, turns: seq<Turn>): Case
    decreases |turns|
  {
    if |turns| == 0 then c else Serial(Take(c, turns[0]), turns[1..])
  }

  /** The steps of uninterrupted operations: each writes right after it has read. */
  function Unrolled(turns: seq<Turn>): seq<Step> {
    if |turns| == 0 then []
    else
      (match turns[0]
       case Wait(elapsed) => [Pass(elapsed)]
       case Do(input) => [Begin(input), Commit(0)]) + Unrolled(turns[1..])
  }

  predicate Started(c: Case) { c.status.Drafted? && c.quotes == [] && c.booking.None? && c.calls == [] }

  // ----- what is promised ------------------------------------------------------------

  predicate IsOpen(c: Case, q: int) { 0 <= q < |c.quotes| && OpenQuote(c.quotes[q]) }

  predicate IsAccepted(c: Case, q: int) { 0 <= q < |c.quotes| && c.quotes[q].status.Accepted? }

  ghost predicate OneOpen(c: Case) { forall p, q :: IsOpen(c, p) && IsOpen(c, q) ==> p == q }

  ghost predicate BookedIsAccepted(c: Case) {
    && (forall q :: IsAccepted(c, q) <==> c.booking.Some? && c.booking.value.quote == q)
    && (c.booking.Some? <==> c.status.Taken?)
  }

  /** At most one open quote; a booking, an accepted quote and an accepted request, or none of them. */
  ghost predicate Sound(c: Case) { OneOpen(c) && BookedIsAccepted(c) }

  /** Without interruption, nothing is left open once a quote is accepted. */
  ghost predicate SerialInv(c: Case) {
    && Sound(c)
    && (c.status.Taken? ==> forall q :: !IsOpen(c, q))
    && c.calls == []
  }

  predicate ValidPercent(quote: Quote) { quote.depositPercent.Some? ==> 1 <= quote.depositPercent.value <= 99 }

  /** What a call relies on stays true of what it has read: quotes are never removed. */
  predicate Grounded(c: Case, call: Call) {
    match call
    case Quoting(quote) => quote.status.Draft? && ValidPercent(quote)
    case Publishing(q) => q < |c.quotes|
    case Declining(q) => q < |c.quotes|
    case Accepting(q, _, _) => q < |c.quotes|
    case _ => true
  }

  /** A deposit quote has its percentage, and credit is for business accounts alone. */
  predicate Complete(business: bool, quote: Quote) {
    && ValidPercent(quote) && (quote.policy.Deposit? ==> quote.depositPercent.Some?)
    && (quote.policy.NetTerms? ==> business)
  }

  /** What was read when a quote was created or accepted: the quote was valid, and its policy is the business account's. */
  predicate Honest(c: Case, call: Call) {
    match call
    case Quoting(quote) => Complete(c.business, quote)
    case Accepting(q, policy, at) =>
      && q < |c.quotes| && at <= c.clock && at < c.quotes[q].validUntil
      && policy == if c.business then c.quotes[q].policy else Prepay
    case _ => true
  }

  /**
   What an accepted quote commits the parties to. A business account on net terms is confirmed at
   once and owes the whole total its terms later; one on a deposit owes the deposit at acceptance and
   the balance its terms later, but at least a day; everybody else owes the whole total at acceptance.
   */
  predicate AsAgreed(business: bool, quote: Quote, booking: Booking, at: Time) {
    if business && quote.policy.NetTerms? then
      booking.confirmed
      && booking.schedules == [Schedule(NetBalanceDue, quote.total, at + quote.termsDays * 86_400_000, 1)]
    else if business && quote.policy.Deposit? then
      && !booking.confirmed && |booking.schedules| == 2 && quote.depositPercent.Some?
      && var deposit := booking.schedules[0].amount;
      && 100 * (deposit - 1) < quote.total * quote.depositPercent.value <= 100 * deposit
      && booking.schedules[0] == Schedule(DepositDue, deposit, at, 1)
      && booking.schedules[1] == Schedule(
           BalanceDue, quote.total - deposit, at + (if quote.termsDays > 1 then quote.termsDays else 1) * 86_400_000, 2)
    else
      !booking.confirmed && booking.schedules == [Schedule(FullDue, quote.total, at, 1)]
  }

  /** The booking is as its quote says, from some moment at which that was still valid. */
  ghost predicate Agreed(c: Case, booking: Booking) {
    && booking.quote < |c.quotes|
    && exists at: Time ::
         at <= c.clock && at < c.quotes[booking.quote].validUntil
         && AsAgreed(c.business, c.quotes[booking.quote], booking, at)
  }

  ghost predicate Billed(c: Case) {
    && (forall q :: 0 <= q < |c.quotes| ==> Complete(c.business, c.quotes[q]))
    && (forall k :: 0 <= k < |c.calls| ==> Grounded(c, c.calls[k]) && Honest(c, c.calls[k]))
    && (c.booking.Some? ==> Agreed(c, c.booking.value))
  }
}
