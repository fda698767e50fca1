/**
 What a credit note does to the schedules of an invoice, in closed form: schedule `i` takes
 the part of the amount left over by the schedules before it, up to its own balance.
 */
module BillingWaterfall {
  import opened Results
  import opened Sums
  import opened BillingTables
  import opened BillingProtocol
  import Lease = BillingLease
  import Ledger = BillingLedger
  import Status = BillingStatus

  /** Unpaid balance of the schedules before `i`. */
  function Before(schedules: seq<Schedule>, i: nat): int
    requires i <= |schedules|
  {
    SumBy(schedules[..i], Ledger.RemainingWeight())
  }

  function Clamp(x: int, high: int): int { if x < 0 then 0 else if x > high then high else x }

  /** The share of `amount` that falls on schedule `i`. */
  function Share(schedules: seq<Schedule>, amount: int, i: nat): int
    requires i < |schedules|
  {
    Clamp(amount - Before(schedules, i), schedules[i].Remaining())
  }

  ghost predicate AllWithin(schedules: seq<Schedule>) {
    forall i :: 0 <= i < |schedules| ==> Ledger.Within(schedules[i])
  }

  lemma BeforeTail(schedules: seq<Schedule>, i: nat)
    requires 0 < i <= |schedules|
    ensures Before(schedules, i) == schedules[0].Remaining() + Before(schedules[1..], i - 1)
  {
    assert schedules[..i] == [schedules[0]] + schedules[1..][..i - 1];
    SumByConcat([schedules[0]], schedules[1..][..i - 1], Ledger.RemainingWeight());
    assert [schedules[0]][..0] == [];
    assert SumBy([schedules[0]], Ledger.RemainingWeight()) == schedules[0].Remaining();
  }

  lemma BeforeNonNegative(schedules: seq<Schedule>, i: nat)
    requires AllWithin(schedules) && i <= |schedules|
    ensures 0 <= Before(schedules, i)
  {
    SumByNonNegative(schedules[..i], Ledger.RemainingWeight());
  }

  lemma ShareTail(schedules: seq<Schedule>, amount: int, i: nat)
    requires AllWithin(schedules) && amount >= 0 && 0 < i < |schedules|
    ensures Share(schedules, amount, i) == Share(schedules[1..], amount - Taken(schedules[0], amount), i - 1)
  {
    BeforeTail(schedules, i);
    assert AllWithin(schedules[1..]);
    BeforeNonNegative(schedules[1..], i - 1);
  }

  lemma ShareHead(schedules: seq<Schedule>, amount: int)
    requires AllWithin(schedules) && amount >= 0 && |schedules| > 0
    ensures Share(schedules, amount, 0) == Taken(schedules[0], amount)
  {
    assert schedules[..0] == [];
  }

  lemma TailShares(schedules: seq<Schedule>, amount: int)
    requires AllWithin(schedules) && amount >= 0 && |schedules| > 0
    ensures var taken := Taken(schedules[0], amount);
      && AllWithin(schedules[1..]) && 0 <= taken <= amount
      && Share(schedules, amount, 0) == taken
      && forall i :: 0 < i < |schedules| ==>
           Share(schedules, amount, i) == Share(schedules[1..], amount - taken, i - 1)
  {
    ShareHead(schedules, amount);
    forall i | 0 < i < |schedules|
      ensures Share(schedules, amount, i) == Share(schedules[1..], amount - Taken(schedules[0], amount), i - 1)
    {
      ShareTail(schedules, amount, i);
    }
  }

  ghost predicate LockedShare(schedules: seq<Schedule>, amount: int, now: Time) {
    exists i :: 0 <= i < |schedules| && Share(schedules, amount, i) > 0 && !schedules[i].Lockable(now)
  }

  lemma LockedShareTail(schedules: seq<Schedule>, amount: int, now: Time)
    requires AllWithin(schedules) && amount >= 0 && |schedules| > 0
    ensures var taken := Taken(schedules[0], amount);
      LockedShare(schedules, amount, now)
      <==> (taken > 0 && !schedules[0].Lockable(now)) || LockedShare(schedules[1..], amount - taken, now)
  {
    var taken := Taken(schedules[0], amount);
    var tail := schedules[1..];
    TailShares(schedules, amount);
    if LockedShare(tail, amount - taken, now) {
      var i :| 0 <= i < |tail| && Share(tail, amount - taken, i) > 0 && !tail[i].Lockable(now);
      assert Share(schedules, amount, i + 1) > 0 && !schedules[i + 1].Lockable(now);
    }
    if i :| 0 < i < |schedules| && Share(schedules, amount, i) > 0 && !schedules[i].Lockable(now) {
      assert Share(tail, amount - taken, i - 1) > 0 && !tail[i - 1].Lockable(now);
    }
  }

  /** The loop is blocked exactly when some schedule with a share of the credit is locked. */
  lemma {:induction false} WaterfallBlocked(schedules: seq<Schedule>, amount: int, now: Time)
    requires AllWithin(schedules) && amount >= 0
    ensures Waterfall(schedules, amount, now).Blocked? <==> LockedShare(schedules, amount, now)
  {
    if |schedules| > 0 {
      TailShares(schedules, amount);
      LockedShareTail(schedules, amount, now);
      WaterfallBlocked(schedules[1..], amount - Taken(schedules[0], amount), now);
    }
  }

  /** What the loop cannot place is what exceeds the unpaid balance of all schedules. */
  lemma {:induction false} WaterfallLeft(schedules: seq<Schedule>, amount: int, now: Time)
    requires AllWithin(schedules) && amount >= 0
    requires Waterfall(schedules, amount, now).Pour?
    ensures Waterfall(schedules, amount, now).left == Clamp(amount - Before(schedules, |schedules|), amount)
  {
    if |schedules| > 0 {
      var tail := schedules[1..];
      TailShares(schedules, amount);
      WaterfallLeft(tail, amount - Taken(schedules[0], amount), now);
      BeforeTail(schedules, |schedules|);
      BeforeNonNegative(tail, |tail|);
    }
  }

  /** Every schedule is credited its share, and a schedule without a share is left alone. */
  lemma {:induction false} WaterfallCredits(schedules: seq<Schedule>, amount: int, now: Time)
    requires AllWithin(schedules) && amount >= 0
    requires Waterfall(schedules, amount, now).Pour?
    ensures var poured := Waterfall(schedules, amount, now).schedules;
      && |poured| == |schedules|
      && forall i :: 0 <= i < |schedules| ==>
           poured[i] == if Share(schedules, amount, i) == 0 then schedules[i]
                        else Credit(schedules[i], Share(schedules, amount, i))
  {
    if |schedules| > 0 {
      var taken := Taken(schedules[0], amount);
      var tail := schedules[1..];
      TailShares(schedules, amount);
      WaterfallCredits(tail, amount - taken, now);
      var poured := Waterfall(schedules, amount, now).schedules;
      forall i | 0 < i < |schedules|
        ensures poured[i] == if Share(schedules, amount, i) == 0 then schedules[i]
                             else Credit(schedules[i], Share(schedules, amount, i))
      {
        assert Share(schedules, amount, i) == Share(tail, amount - taken, i - 1);
      }
    }
  }

  lemma BeforeStep(schedules: seq<Schedule>, i: nat, j: nat)
    requires AllWithin(schedules) && i < j <= |schedules|
    ensures Before(schedules, i) + schedules[i].Remaining() <= Before(schedules, j)
  {
    assert schedules[..i + 1] == schedules[..i] + [schedules[i]];
    SumByAppend(schedules[..i], schedules[i], Ledger.RemainingWeight());
    assert schedules[..j] == schedules[..i + 1] + schedules[i + 1..j];
    SumByConcat(schedules[..i + 1], schedules[i + 1..j], Ledger.RemainingWeight());
    SumByNonNegative(schedules[i + 1..j], Ledger.RemainingWeight());
  }

  /** Everything before a touched schedule is settled, and everything after an unfilled one untouched. */
  lemma SettledInSequence(schedules: seq<Schedule>, amount: int, now: Time, i: nat, j: nat)
    requires AllWithin(schedules) && amount >= 0 && i < j < |schedules|
    requires Waterfall(schedules, amount, now).Pour?
    ensures var poured := Waterfall(schedules, amount, now).schedules;
      && |poured| == |schedules|
      && (poured[j] != schedules[j] ==> poured[i].Remaining() == 0)
      && (poured[i].Remaining() > 0 ==> poured[j] == schedules[j])
  {
    WaterfallCredits(schedules, amount, now);
    BeforeStep(schedules, i, j);
  }

  lemma {:induction false} RemainingTotal(schedules: seq<Schedule>)
    ensures SumBy(schedules, Ledger.RemainingWeight())
         == SumBy(schedules, AmountWeight()) - SumBy(schedules, Ledger.PaidWeight()) - SumBy(schedules, Ledger.CreditedWeight())
  {
    if |schedules| > 0 {
      RemainingTotal(schedules[..|schedules| - 1]);
    }
  }

  lemma NoteExact(t: Tables, key: Key, amount: int, reason: string, now: Time)
    requires Ledger.Totals(t) && Ledger.Bounded(t) && FindNote(t.notes, key, 0).None? && !t.invoice.status.Void?
    requires forall i :: 0 <= i < |t.schedules| ==> t.schedules[i].Lockable(now)
    ensures IssueCreditNote(t, key, amount, reason, now, true).Ok?
      <==> 1 <= amount <= t.invoice.total - t.invoice.paid - t.invoice.credited
  {
    RemainingTotal(t.schedules);
    SumByNonNegative(t.schedules, Ledger.PaidWeight());
    assert t.schedules[..|t.schedules|] == t.schedules;
    if amount >= 1 {
      WaterfallBlocked(t.schedules, amount, now);
      if Waterfall(t.schedules, amount, now).Pour? { WaterfallLeft(t.schedules, amount, now); }
    }
  }

  /**
   In every reachable state, absent held locks, a fresh credit note is accepted exactly when
   its amount is positive and at most what the invoice still owes.
   */
  lemma CreditNoteExact(start: System, steps: seq<Step>, sys: System, key: Key, amount: int, reason: string)
    requires Opened(start) && sys == Run(start, steps)
    requires forall n :: 0 <= n < |sys.t.notes| ==> sys.t.notes[n].key != key
    requires forall i :: 0 <= i < |sys.t.schedules| ==> sys.t.schedules[i].Lockable(sys.clock)
    ensures IssueCreditNote(sys.t, key, amount, reason, sys.clock, true).Ok?
      <==> 1 <= amount <= sys.t.invoice.total - sys.t.invoice.paid - sys.t.invoice.credited
  {
    Ledger.OpenedLedger(start);
    Ledger.LedgerKept(start, steps);
    Status.StatusFollowsBalance(start, steps);
    NoteExact(sys.t, key, amount, reason, sys.clock);
  }
}
