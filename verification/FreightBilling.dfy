/**
 From a booking to its invoice: the transaction that accepts a quote also issues the invoice, and the
 schedules it creates are a start state of the billing model. So what billing promises over every
 run holds for every booking that any run of freight operations makes.
 */
module FreightBilling {
  import opened Results
  import opened Sums
  import opened Freight
  import Acceptance = FreightAcceptance
  import Tables = BillingTables
  import Protocol = BillingProtocol
  import Ledger = BillingLedger

  /** The payment schedules as rows of the invoice, in their sequence. */
  function InvoiceRows(schedules: seq<Schedule>): seq<Tables.Schedule> {
    seq(|schedules|, k requires 0 <= k < |schedules| =>
      Tables.Schedule(schedules[k].amount, 0, 0, Tables.Due, Tables.Free))
  }

  /** The invoice as it is issued with a booking: the quote's total, nothing paid or credited. */
  function IssuedInvoice(quote: Quote, booking: Booking, now: Time): Protocol.System {
    Protocol.System(
      Tables.Tables(
        Tables.Invoice(quote.total, 0, 0, Tables.Issued, now + quote.termsDays * DAY_MS),
        InvoiceRows(booking.schedules), [], [], [], [], [], []),
      now, [])
  }

  lemma RowsKeepSum(schedules: seq<Schedule>)
    ensures SumBy(InvoiceRows(schedules), Tables.AmountWeight()) == SumBy(schedules, Acceptance.Amount)
  {
    SumByPointwise(InvoiceRows(schedules), Tables.AmountWeight(), schedules, Acceptance.Amount);
  }

  /** However requests, quotes and acceptances interleave, the booking's invoice is one that billing can start from. */
  lemma BookingOpensInvoice(start: Case, operations: seq<Step>, now: Time)
    requires Started(start) && Run(start, operations).booking.Some?
    ensures var c := Run(start, operations);
      && c.booking.value.quote < |c.quotes|
      && Protocol.Opened(IssuedInvoice(c.quotes[c.booking.value.quote], c.booking.value, now))
  {
    Acceptance.BookingAddsUp(start, operations);
    RowsKeepSum(Run(start, operations).booking.value.schedules);
  }

  /** The invoice is for the quote's total, due its terms later, with one unpaid row for each of the booking's. */
  lemma InvoiceFollowsBooking(quote: Quote, booking: Booking, now: Time, k: nat)
    requires k < |booking.schedules|
    ensures var t := IssuedInvoice(quote, booking, now).t;
      && t.invoice.total == quote.total && t.invoice.dueAt == now + quote.termsDays * 86_400_000
      && t.invoice.status.Issued? && |t.schedules| == |booking.schedules|
      && t.schedules[k] == Tables.Schedule(booking.schedules[k].amount, 0, 0, Tables.Due, Tables.Free)
  {
  }

  /**
   However a booking came about and however its invoice is paid, refunded and credited, what was
   paid and credited never exceeds the accepted quote, and the journal agrees with it.
   */
  lemma BookingNeverOvercharged(start: Case, operations: seq<Step>, now: Time, steps: seq<Protocol.Step>)
    requires Started(start) && Run(start, operations).booking.Some?
    ensures var c := Run(start, operations);
      && c.booking.value.quote < |c.quotes|
      && var quote := c.quotes[c.booking.value.quote];
         var t := Protocol.Run(IssuedInvoice(quote, c.booking.value, now), steps).t;
         && t.invoice.total == quote.total
         && 0 <= t.invoice.paid && 0 <= t.invoice.credited && t.invoice.paid + t.invoice.credited <= quote.total
         && Ledger.Books(t)
  {
    BookingOpensInvoice(start, operations, now);
    var c := Run(start, operations);
    var issued := IssuedInvoice(c.quotes[c.booking.value.quote], c.booking.value, now);
    Ledger.OpenedLedger(issued);
    Ledger.LedgerKept(issued, steps);
    TotalKept(issued, steps);
    Ledger.WithinTotal(Protocol.Run(issued, steps).t);
  }

  lemma {:induction false} TotalKept(sys: Protocol.System, steps: seq<Protocol.Step>)
    requires Ledger.LedgerInv(sys)
    ensures Protocol.Run(sys, steps).t.invoice.total == sys.t.invoice.total
    decreases |steps|
  {
    if |steps| > 0 {
      StepKeepsTotal(sys, steps[0]);
      Ledger.NextKeepsLedger(sys, steps[0]);
      TotalKept(Protocol.Next(sys, steps[0]), steps[1..]);
    }
  }

  lemma StepKeepsTotal(sys: Protocol.System, step: Protocol.Step)
    requires Ledger.LedgerInv(sys)
    ensures Protocol.Next(sys, step).t.invoice.total == sys.t.invoice.total
  {
    if Ledger.Lease.CreatorStep(step) {
      Ledger.CreatorStepFrame(sys, step);
    } else if Ledger.Lease.RowStep(step) {
      Ledger.RowStepKeepsMoney(sys, step);
    }
  }
}
