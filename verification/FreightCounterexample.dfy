/** A publication of a draft that was replaced meanwhile, and two ways out of CANCELLED. */
module FreightCounterexample {
  import opened Freight
  import opened FreightAcceptance
  import opened Results

  const OFFERED := Quote(1, 100, Prepay, None, 0, 50, Draft)
  const REVISED := Quote(2, 100, Prepay, None, 0, 50, Draft)

  const OFFER := Begin(CreateQuote(100, Prepay, None, 0, 50))

  const RACE: seq<Step> :=
    [Begin(Submit), Commit(0), OFFER, Commit(0), Begin(Publish(0)), OFFER, Commit(1), Commit(0)]

  function Stage(status: RequestStatus, quotes: seq<Quote>, calls: seq<Call>): Case {
    Case(0, false, status, quotes, None, calls)
  }

  lemma {:induction false} RunLonger(c: Case, steps: seq<Step>, i: nat)
    requires i < |steps|
    ensures Run(c, steps[..i + 1]) == Next(Run(c, steps[..i]), steps[i])
    decreases i
  {
    if i == 0 {
      assert steps[..1][1..] == [];
    } else {
      assert steps[..i + 1][1..] == steps[1..][..i] && steps[..i][1..] == steps[1..][..i - 1];
      RunLonger(Next(c, steps[0]), steps[1..], i - 1);
    }
  }

  lemma Quoting1()
    ensures Run(Stage(Drafted, [], []), RACE[..4]) == Stage(Submitted, [OFFERED], [])
  {
    var c := Stage(Drafted, [], []);
    RunLonger(c, RACE, 0);
    RunLonger(c, RACE, 1);
    RunLonger(c, RACE, 2);
    RunLonger(c, RACE, 3);
    assert Run(c, RACE[..1]) == Stage(Drafted, [], [Submitting]);
    assert [Submitting][..0] + [Submitting][1..] == [];
    assert Run(c, RACE[..2]) == Stage(Submitted, [], []);
    assert Run(c, RACE[..3]) == Stage(Submitted, [], [Quoting(OFFERED)]);
    assert [Quoting(OFFERED)][..0] + [Quoting(OFFERED)][1..] == [];
    assert SupersedeAll([]) + [OFFERED] == [OFFERED];
  }

  lemma BothCalls()
    ensures Run(Stage(Drafted, [], []), RACE[..6]) == Stage(Submitted, [OFFERED], [Publishing(0), Quoting(REVISED)])
  {
    var c := Stage(Drafted, [], []);
    Quoting1();
    RunLonger(c, RACE, 4);
    RunLonger(c, RACE, 5);
    assert Run(c, RACE[..5]) == Stage(Submitted, [OFFERED], [Publishing(0)]);
    assert [OFFERED][..0] == [];
    assert LatestRevision([OFFERED]) == 1;
  }

  lemma PublishOvertaken()
    ensures var c := Run(Stage(Drafted, [], []), RACE);
      && Started(Stage(Drafted, [], []))
      && c.quotes == [OFFERED.(status := Published), REVISED] && !OneOpen(c)
  {
    var c := Stage(Drafted, [], []);
    BothCalls();
    RunLonger(c, RACE, 6);
    RunLonger(c, RACE, 7);
    var superseded := OFFERED.(status := Superseded);
    assert [Publishing(0), Quoting(REVISED)][..1] + [Publishing(0), Quoting(REVISED)][2..] == [Publishing(0)];
    assert SupersedeAll([OFFERED]) + [REVISED] == [superseded, REVISED];
    assert Run(c, RACE[..7]) == Stage(Submitted, [superseded, REVISED], [Publishing(0)]);
    assert [Publishing(0)][..0] + [Publishing(0)][1..] == [];
    assert RACE[..8] == RACE;
    assert IsOpen(Run(c, RACE), 0) && IsOpen(Run(c, RACE), 1);
  }

  // ----- publishing for a cancelled request ------------------------------------------

  const CANCELLED: seq<Turn> := [Do(Submit), Do(CreateQuote(100, Prepay, None, 0, 50)), Do(Cancel)]

  lemma {:induction false} SerialLonger(c: Case, turns: seq<Turn>, turn: Turn)
    ensures Serial(c, turns + [turn]) == Take(Serial(c, turns), turn)
    decreases |turns|
  {
    if |turns| == 0 {
      assert (turns + [turn])[1..] == [];
    } else {
      assert (turns + [turn])[1..] == turns[1..] + [turn];
      SerialLonger(Take(c, turns[0]), turns[1..], turn);
    }
  }

  lemma CancelledRun()
    ensures Serial(Stage(Drafted, [], []), CANCELLED) == Stage(Cancelled, [OFFERED], [])
  {
    var c := Stage(Drafted, [], []);
    assert CANCELLED == [] + [CANCELLED[0]] + [CANCELLED[1]] + [CANCELLED[2]];
    SerialLonger(c, [], CANCELLED[0]);
    SerialLonger(c, [] + [CANCELLED[0]], CANCELLED[1]);
    SerialLonger(c, [] + [CANCELLED[0]] + [CANCELLED[1]], CANCELLED[2]);
    assert SupersedeAll([]) + [OFFERED] == [OFFERED];
    assert Take(Stage(Submitted, [], []), CANCELLED[1]) == Stage(Submitted, [OFFERED], []);
  }

  /** The draft that was left open is published, and the cancelled request is quoted again. */
  lemma CancelledRequestReopens()
    ensures var start := Stage(Drafted, [], []);
      && Started(start)
      && Serial(start, CANCELLED).status.Cancelled?
      && Serial(start, CANCELLED + [Do(Publish(0))]).status.Quoted?
      && !StaysCancelled(Serial(start, CANCELLED))
  {
    var start := Stage(Drafted, [], []);
    CancelledRun();
    SerialLonger(start, CANCELLED, Do(Publish(0)));
    assert CanReopen(Serial(start, CANCELLED), 0);
    QuoteReopens(Serial(start, CANCELLED), 0);
  }

  // ----- a submission that was under way ---------------------------------------------

  const OVERTAKEN: seq<Step> := [Begin(Submit), Begin(Cancel), Commit(1)]

  lemma OvertakenRun()
    ensures Run(Stage(Drafted, [], []), OVERTAKEN) == Stage(Cancelled, [], [Submitting])
  {
    var c0 := Stage(Drafted, [], []);
    var c1, c2 := Stage(Drafted, [], [Submitting]), Stage(Drafted, [], [Submitting, Cancelling]);
    assert Next(c0, Begin(Submit)) == c1 && Next(c1, Begin(Cancel)) == c2;
    assert [Submitting, Cancelling][..1] + [Submitting, Cancelling][2..] == [Submitting];
    assert Next(c2, Commit(1)) == Stage(Cancelled, [], [Submitting]);
    assert OVERTAKEN == [Begin(Submit), Begin(Cancel)] + [Commit(1)];
    RunTwo(c0, Begin(Submit), Begin(Cancel));
    RunConcat(c0, [Begin(Submit), Begin(Cancel)], [Commit(1)]);
    RunOne(c2, Commit(1));
  }

  /** A request cancelled while its submission is in flight is submitted after all, without any quote. */
  lemma SubmissionUndoesCancel()
    ensures var start := Stage(Drafted, [], []);
      && Started(start)
      && Run(start, OVERTAKEN) == Stage(Cancelled, [], [Submitting])
      && Run(start, OVERTAKEN + [Commit(0)]).status.Submitted?
      && !StaysCancelled(Run(start, OVERTAKEN))
  {
    var cancelled := Stage(Cancelled, [], [Submitting]);
    OvertakenRun();
    RunConcat(Stage(Drafted, [], []), OVERTAKEN, [Commit(0)]);
    RunOne(cancelled, Commit(0));
    CallReopens(cancelled, 0);
  }
}
