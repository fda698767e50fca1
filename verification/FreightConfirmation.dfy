/**
 When a booking is confirmed: acceptance confirms it on net terms, and otherwise the capture of its
 first schedule does, in the same transaction. No refund or credit note takes that back.
 */
module FreightConfirmation {
  import opened Results
  import opened Freight
  import opened FreightBilling
  import Acceptance = FreightAcceptance
  import Tables = BillingTables
  import Protocol = BillingProtocol
  import Ledger = BillingLedger
  import Once = BillingOnce

  /** The booking's invoice with what runs on it, and whether the booking is confirmed. */
  datatype Deal = Deal(sys: Protocol.System, confirmed: bool)

  /** A success that captures: the first one of its session, which goes through. */
  predicate Captures(sys: Protocol.System, step: Protocol.Step) {
    && step.Succeed? && Tables.Capture(sys.t, step.session, step.mark, step.chart).Ok?
    && !Tables.Allocated(sys.t.allocations, step.session)
  }

  function Pay(d: Deal, step: Protocol.Step): Deal {
    Deal(Protocol.Next(d.sys, step),
         d.confirmed || (Captures(d.sys, step) && d.sys.t.sessions[step.session].schedule == 0))
  }

  function PayAll(d: Deal, steps: seq<Protocol.Step>): Deal
    decreases |steps|
  {
    if |steps| == 0 then d else PayAll(Pay(d, steps[0]), steps[1..])
  }

  /** A captured session of the first schedule. */
  predicate PaysFirst(t: Tables.Tables, s: nat) { Once.IsCompleted(t, s) && t.sessions[s].schedule == 0 }

  ghost predicate FirstPaid(t: Tables.Tables) { exists s: nat :: PaysFirst(t, s) }

  lemma CreatorCompletesNone(sys: Protocol.System, step: Protocol.Step, s: nat)
    requires Ledger.Positive(sys) && Ledger.Lease.CreatorStep(step)
    ensures PaysFirst(Protocol.Next(sys, step).t, s) <==> PaysFirst(sys.t, s)
  {
    Ledger.CreatorStepFrame(sys, step);
    var sessions := Protocol.Next(sys, step).t.sessions;
    if s < |sys.t.sessions| && sessions != sys.t.sessions { assert sessions[..|sys.t.sessions|][s] == sys.t.sessions[s]; }
  }

  /** Completed sessions stay, on their schedule; others become so by being captured, and that is all. */
  lemma CompletedByCapture(sys: Protocol.System, step: Protocol.Step, s: nat)
    requires Ledger.Positive(sys)
    ensures PaysFirst(Protocol.Next(sys, step).t, s)
      <==> PaysFirst(sys.t, s) || (Captures(sys, step) && step.session == s && sys.t.sessions[s].schedule == 0)
  {
    if Ledger.Lease.CreatorStep(step) {
      CreatorCompletesNone(sys, step, s);
    } else if Ledger.Lease.RowStep(step) {
      Ledger.Lease.RowStepFrame(sys, step);
    } else if step.Succeed? {
      CaptureCompletes(sys, step, s);
    }
  }

  lemma CaptureCompletes(sys: Protocol.System, step: Protocol.Step, s: nat)
    requires step.Succeed?
    ensures PaysFirst(Protocol.Next(sys, step).t, s)
      <==> PaysFirst(sys.t, s) || (Captures(sys, step) && step.session == s && sys.t.sessions[s].schedule == 0)
  {
  }

  lemma PayFollows(d: Deal, step: Protocol.Step, prepared: bool)
    requires Ledger.Positive(d.sys) && (d.confirmed <==> prepared || FirstPaid(d.sys.t))
    ensures Pay(d, step).confirmed <==> prepared || FirstPaid(Pay(d, step).sys.t)
  {
    var d' := Pay(d, step);
    if FirstPaid(d.sys.t) {
      var s: nat :| PaysFirst(d.sys.t, s);
      CompletedByCapture(d.sys, step, s);
      assert PaysFirst(d'.sys.t, s);
    }
    if FirstPaid(d'.sys.t) {
      var s: nat :| PaysFirst(d'.sys.t, s);
      CompletedByCapture(d.sys, step, s);
      assert PaysFirst(d.sys.t, s) ==> FirstPaid(d.sys.t);
    }
    if Captures(d.sys, step) && d.sys.t.sessions[step.session].schedule == 0 {
      CompletedByCapture(d.sys, step, step.session);
      assert PaysFirst(d'.sys.t, step.session);
    }
  }

  lemma {:induction false} PayAllFollows(d: Deal, steps: seq<Protocol.Step>, prepared: bool)
    requires Ledger.LedgerInv(d.sys) && (d.confirmed <==> prepared || FirstPaid(d.sys.t))
    ensures PayAll(d, steps).sys == Protocol.Run(d.sys, steps)
    ensures PayAll(d, steps).confirmed <==> prepared || FirstPaid(Protocol.Run(d.sys, steps).t)
    decreases |steps|
  {
    if |steps| > 0 {
      PayFollows(d, steps[0], prepared);
      Ledger.NextKeepsLedger(d.sys, steps[0]);
      PayAllFollows(Pay(d, steps[0]), steps[1..], prepared);
    }
  }

  /**
   However a booking came about, and however its invoice is then paid, refunded and credited: it is
   confirmed exactly when its quote is on net terms or a payment of its first schedule was captured.
   */
  lemma BookingConfirmedExact(start: Case, operations: seq<Step>, c: Case, now: Time, steps: seq<Protocol.Step>)
    requires Started(start) && c == Run(start, operations) && c.booking.Some? && c.booking.value.quote < |c.quotes|
    ensures var quote := c.quotes[c.booking.value.quote];
      var issued := IssuedInvoice(quote, c.booking.value, now);
      var deal := PayAll(Deal(issued, c.booking.value.confirmed), steps);
      && deal.sys == Protocol.Run(issued, steps)
      && (deal.confirmed <==> quote.policy.NetTerms? || FirstPaid(deal.sys.t))
  {
    Acceptance.BookedAsAgreed(start, operations);
    BookingOpensInvoice(start, operations, now);
    var quote := c.quotes[c.booking.value.quote];
    var issued := IssuedInvoice(quote, c.booking.value, now);
    Ledger.OpenedLedger(issued);
    PayAllFollows(Deal(issued, c.booking.value.confirmed), steps, quote.policy.NetTerms?);
  }
}
