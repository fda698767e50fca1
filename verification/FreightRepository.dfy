/** The freight repository's operations on one request, each run without interruption. */
module FreightRepository {
  import opened Freight
  import opened FreightAcceptance
  import opened Results

  class Repository {
    const business: bool
    var status: RequestStatus
    var quotes: seq<Quote>
    var booking: Option<Booking>

    function View(clock: Time): Case
      reads this
    {
      Case(clock, business, status, quotes, booking, [])
    }

    constructor (business: bool)
      ensures forall clock :: Started(View(clock))
    {
      this.business, status, quotes, booking := business, Drafted, [], None;
    }

    method Latest() returns (latest: nat)
      ensures latest == LatestRevision(quotes)
    {
      latest := 0;
      var q := 0;
      while q < |quotes|
        invariant 0 <= q <= |quotes| && latest == LatestRevision(quotes[..q])
      {
        assert quotes[..q + 1][..q] == quotes[..q];
        if quotes[q].revision > latest {
          latest := quotes[q].revision;
        }
        q := q + 1;
      }
      assert quotes[..q] == quotes;
    }

    method SupersedeOpen()
      modifies this`quotes
      ensures quotes == SupersedeAll(old(quotes))
    {
      var q := 0;
      while q < |quotes|
        invariant 0 <= q <= |quotes| == |old(quotes)|
        invariant forall k :: 0 <= k < |quotes| ==> quotes[k] == if k < q then Supersede(old(quotes)[k]) else old(quotes)[k]
      {
        if quotes[q].status.Draft? || quotes[q].status.Published? {
          quotes := quotes[q := quotes[q].(status := Superseded)];
        }
        q := q + 1;
      }
    }

    method CreateNewQuote(total: nat, policy: Policy, depositPercent: Option<nat>, termsDays: nat, validUntil: Time,
                          clock: Time)
      returns (done: bool)
      modifies this`quotes
      ensures var input := CreateQuote(total, policy, depositPercent, termsDays, validUntil);
        done == Read(old(View(clock)), input).Some? && View(clock) == Act(old(View(clock)), input)
    {
      if !Quotable(status) || (policy.Deposit? && depositPercent.None?)
        || (depositPercent.Some? && !(1 <= depositPercent.value <= 99)) || (policy.NetTerms? && !business)
      {
        return false;
      }
      var latest := Latest();
      LatestIsLatest(quotes);
      SupersedeOpen();
      quotes := quotes + [Quote(latest + 1, total, policy, depositPercent, termsDays, validUntil, Draft)];
      done := true;
    }

    method PublishQuote(q: nat, clock: Time) returns (done: bool)
      modifies this`quotes, this`status
      ensures done == Read(old(View(clock)), Publish(q)).Some? && View(clock) == Act(old(View(clock)), Publish(q))
    {
      if q >= |quotes| || !quotes[q].status.Draft? || quotes[q].validUntil <= clock {
        return false;
      }
      quotes := quotes[q := quotes[q].(status := Published)];
      status := Quoted;
      done := true;
    }

    method DeclineQuote(q: nat, clock: Time) returns (done: bool)
      modifies this`quotes
      ensures done == Read(old(View(clock)), Decline(q)).Some? && View(clock) == Act(old(View(clock)), Decline(q))
    {
      if q >= |quotes| || !quotes[q].status.Published? {
        return false;
      }
      quotes := quotes[q := quotes[q].(status := Declined)];
      done := true;
    }

    method AcceptQuote(q: nat, creditAllowed: bool, clock: Time) returns (done: bool)
      modifies this
      ensures done == Read(old(View(clock)), Accept(q, creditAllowed)).Some?
      ensures View(clock) == Act(old(View(clock)), Accept(q, creditAllowed))
    {
      if q >= |quotes| || !quotes[q].status.Published? || quotes[q].validUntil <= clock || booking.Some? {
        return false;
      }
      var policy := quotes[q].policy;
      if !business {
        policy := Prepay;
      }
      if policy.NetTerms? && !creditAllowed {
        return false;
      }
      booking := Some(Booking(q, policy.NetTerms?, PaymentSchedules(quotes[q], policy, clock)));
      quotes := quotes[q := quotes[q].(status := Accepted)];
      status := Taken;
      done := true;
    }

    method CancelRequest(clock: Time) returns (done: bool)
      modifies this`status
      ensures done == Read(old(View(clock)), Cancel).Some? && View(clock) == Act(old(View(clock)), Cancel)
    {
      if Terminal(status) {
        return false;
      }
      status := Cancelled;
      done := true;
    }
  }
}
