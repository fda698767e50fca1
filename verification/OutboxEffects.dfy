/** What the writes of a publisher leave in the outbox, and how long a failed event waits. */
module OutboxEffects {
  import opened Basics
  import opened Outbox
  import opened Results

  /** After its first failure an event waits ten seconds; the wait doubles with each further one, up to an hour. */
  lemma BackoffDoubles(attempts: nat)
    requires attempts >= 1
    ensures Backoff(1) == 10_000
    ensures Backoff(attempts + 1) == if 2 * Backoff(attempts) < 3_600_000 then 2 * Backoff(attempts) else 3_600_000
  {
    assert Power2(1) == 2 * Power2(0) == 2;
    assert Power2(attempts + 1) == 2 * Power2(attempts);
  }

  /** A new event may be claimed at once. */
  lemma EmitEffect(sys: System)
    ensures Next(sys, Emit) == sys.(rows := sys.rows + [Event(Pending, 0, sys.clock)])
    ensures Eligible(Next(sys, Emit).rows[|sys.rows|], sys.clock)
  {
  }

  /** A publisher fetches what is due and not yet published, as it is. */
  lemma PollEffect(sys: System, id: nat, age: nat)
    requires id < |sys.rows|
    ensures var due := sys.rows[id].status != Published && sys.rows[id].availableAt <= sys.clock - age;
      Next(sys, Poll(id, age)) == if !due then sys
        else sys.(attempts := sys.attempts + [Attempt(sys.clock - age, id, sys.rows[id], Read)])
  {
  }

  /** A claim commits exactly on a row that is as it was read; it counts the attempt and holds the row for a minute. */
  lemma ClaimEffect(sys: System, a: nat)
    requires Inv(sys) && At(sys, a, Read)
    ensures var at := sys.attempts[a];
      var sys' := Next(sys, Claim(a));
      && OnlyRow(sys.attempts, sys'.attempts, a) && sys'.queue == sys.queue && sys'.clock == sys.clock
      && if sys.rows[at.id] == at.seen && at.seen.availableAt <= at.now then
           && OnlyRow(sys.rows, sys'.rows, at.id)
           && sys'.rows[at.id] == Event(Processing, at.seen.attempts + 1, sys.clock + 60_000)
           && sys'.attempts[a] == at.(stage := Claimed) && sys'.log == sys.log + [ClaimedAt(at.id, sys.clock)]
         else sys'.rows == sys.rows && sys'.attempts[a] == at.(stage := Done) && sys'.log == sys.log
  {
    if Commits(sys, a) { CommitsUnchanged(sys, a); }
  }

  /** Handing over queues the event under its id; only a row that is still being processed is then published. */
  lemma PublishEffect(sys: System, a: nat)
    requires At(sys, a, Claimed)
    ensures var id, queued := sys.attempts[a].id, Next(sys, Enqueue(a));
      && queued.queue == sys.queue + {id} && queued.rows == sys.rows && queued.log == sys.log
      && var done := Next(queued, MarkPublished(a));
      && OnlyRow(sys.rows, done.rows, id)
      && done.rows[id] == (if sys.rows[id].status == Processing then sys.rows[id].(status := Published) else sys.rows[id])
      && done.queue == queued.queue && done.attempts[a].stage == Done
  {
  }

  /** A failure schedules the event anew, later for every attempt, unless it is no longer being processed. */
  lemma FailEffect(sys: System, a: nat)
    requires At(sys, a, Claimed) || At(sys, a, Queued)
    ensures var at, sys' := sys.attempts[a], Next(sys, MarkFailed(a));
      && OnlyRow(sys.rows, sys'.rows, at.id)
      && sys'.rows[at.id] == (if sys.rows[at.id].status == Processing
           then Event(Failed, sys.rows[at.id].attempts, sys.clock + Backoff(at.seen.attempts + 1)) else sys.rows[at.id])
      && sys'.queue == sys.queue && sys'.attempts[a].stage == Done
  {
  }
}
