/**
 The transactional outbox: any number of publishers poll the same table, claim rows with a
 guarded update, hand them to a queue keyed by event id and record the outcome. They may
 crash between any two of these writes.
 */
module Outbox {
  import opened Basics
  import opened Results

  type Time = int

  const CLAIM_MS := 60_000
  const BATCH := 20
  const MAX_BACKOFF_MS := 3_600_000
  const MIN_BACKOFF_MS := 10_000

  datatype Status = Pending | Processing | Failed | Published

  datatype Event = Event(status: Status, attempts: nat, availableAt: Time)

  datatype Stage = Read | Claimed | Queued | Done

  /** A publisher's work on one row it fetched: what it saw, and when its batch started. */
  datatype Attempt = Attempt(now: Time, id: nat, seen: Event, stage: Stage)

  datatype Write = ClaimedAt(id: nat, at: Time) | FailedAt(id: nat, at: Time) | PublishedAt(id: nat, at: Time)

  datatype System = System(rows: seq<Event>, queue: set<nat>, clock: Time, attempts: seq<Attempt>, log: seq<Write>)

  datatype Step =
    | Tick(ms: nat)
    | Emit
    | Poll(id: nat, age: nat)
    | Claim(attempt: nat)
    | Enqueue(attempt: nat)
    | MarkPublished(attempt: nat)
    | MarkFailed(attempt: nat)
    | Crash(attempt: nat)

  /** Backoff after the given number of attempts, in milliseconds. */
  function Backoff(attempts: nat): nat {
    (if Power2(attempts) * 5 < 3_600 then Power2(attempts) * 5 else 3_600) * 1_000
  }

  predicate Eligible(e: Event, now: Time) { !e.status.Published? && e.availableAt <= now }

  /** The `where` clause of the claim. */
  predicate Claimable(e: Event, seen: Event, now: Time) { e.status == seen.status && e.availableAt <= now }

  function ClaimRow(e: Event, clock: Time): Event {
    Event(Processing, e.attempts + 1, clock + CLAIM_MS)
  }

  function PublishRow(e: Event): Event { if e.status.Processing? then e.(status := Published) else e }

  function FailRow(e: Event, seen: Event, clock: Time): Event {
    if e.status.Processing? then e.(status := Failed, availableAt := clock + Backoff(seen.attempts + 1)) else e
  }

  predicate At(sys: System, a: nat, stage: Stage) {
    a < |sys.attempts| && sys.attempts[a].stage == stage && sys.attempts[a].id < |sys.rows|
  }

  function SetStage(sys: System, a: nat, stage: Stage): System
    requires a < |sys.attempts|
  {
    sys.(attempts := sys.attempts[a := sys.attempts[a].(stage := stage)])
  }

  function WriteRow(sys: System, id: nat, e: Event, write: Write): System
    requires id < |sys.rows|
  {
    if e == sys.rows[id] then sys else sys.(rows := sys.rows[id := e], log := sys.log + [write])
  }

  /** Whether the claim of attempt `a` commits. */
  predicate Commits(sys: System, a: nat) {
    At(sys, a, Read) && Claimable(sys.rows[sys.attempts[a].id], sys.attempts[a].seen, sys.attempts[a].now)
  }

  function StepClaim(sys: System, a: nat): System {
    if !At(sys, a, Read) then sys
    else if !Commits(sys, a) then SetStage(sys, a, Done)
    else
      var id := sys.attempts[a].id;
      SetStage(sys.(rows := sys.rows[id := ClaimRow(sys.rows[id], sys.clock)],
               log := sys.log + [ClaimedAt(id, sys.clock)]), a, Claimed)
  }

  function Next(sys: System, step: Step): System {
    match step
    case Tick(ms) => sys.(clock := sys.clock + ms)
    case Emit => sys.(rows := sys.rows + [Event(Pending, 0, sys.clock)])
    case Poll(id, age) =>
      if id < |sys.rows| && Eligible(sys.rows[id], sys.clock - age)
      then sys.(attempts := sys.attempts + [Attempt(sys.clock - age, id, sys.rows[id], Read)])
      else sys
    case Claim(a) => StepClaim(sys, a)
    case Enqueue(a) =>
      if At(sys, a, Claimed) then SetStage(sys.(queue := sys.queue + {sys.attempts[a].id}), a, Queued) else sys
    case MarkPublished(a) =>
      if At(sys, a, Queued) then
        var id := sys.attempts[a].id;
        SetStage(WriteRow(sys, id, PublishRow(sys.rows[id]), PublishedAt(id, sys.clock)), a, Done)
      else sys
    case MarkFailed(a) =>
      if At(sys, a, Claimed) || At(sys, a, Queued) then
        var id := sys.attempts[a].id;
        SetStage(WriteRow(sys, id, FailRow(sys.rows[id], sys.attempts[a].seen, sys.clock), FailedAt(id, sys.clock)), a, Done)
      else sys
    case Crash(a) => if a < |sys.attempts| then SetStage(sys, a, Done) else sys
  }

  function Run(sys: System, steps: seq<Step>): System
    decreases |steps|
  {
    if |steps| == 0 then sys else Run(Next(sys, steps[0]), steps[1..])
  }

  predicate Empty(sys: System) {
    sys.rows == [] && sys.queue == {} && sys.attempts == [] && sys.log == []
  }

  // ----- invariant -------------------------------------------------------------------

  /** What an attempt saw is still there, or a later write moved the row out of its reach. */
  ghost predicate Fenced(sys: System) {
    forall a :: 0 <= a < |sys.attempts| ==>
      var at := sys.attempts[a];
      && at.id < |sys.rows|
      && at.now <= sys.clock
      && !at.seen.status.Published?
      && (sys.rows[at.id] == at.seen || sys.rows[at.id].availableAt > at.now || sys.rows[at.id].status.Published?)
  }

  ghost predicate Delivered(sys: System) {
    && (forall a :: 0 <= a < |sys.attempts| && sys.attempts[a].stage.Queued? ==> sys.attempts[a].id in sys.queue)
    && (forall id :: 0 <= id < |sys.rows| && sys.rows[id].status.Published? ==> id in sys.queue)
  }

  ghost predicate Soon(sys: System) {
    forall id :: 0 <= id < |sys.rows| ==> sys.rows[id].availableAt <= sys.clock + MAX_BACKOFF_MS
  }

  predicate FailedAfter(log: seq<Write>, i: nat, id: nat) {
    exists k :: i < k < |log| && log[k].FailedAt? && log[k].id == id
  }

  predicate FailedBetween(log: seq<Write>, i: nat, j: nat, id: nat) {
    exists k :: i < k < j < |log| && log[k].FailedAt? && log[k].id == id
  }

  ghost predicate Logged(sys: System) {
    && (forall i :: 0 <= i < |sys.log| ==> sys.log[i].id < |sys.rows| && sys.log[i].at <= sys.clock)
    && (forall i :: 0 <= i < |sys.log| && sys.log[i].ClaimedAt? && !FailedAfter(sys.log, i, sys.log[i].id) ==>
         sys.rows[sys.log[i].id].availableAt >= sys.log[i].at + CLAIM_MS)
    && (forall i :: 0 <= i < |sys.log| && sys.log[i].FailedAt? ==>
         sys.rows[sys.log[i].id].availableAt >= sys.log[i].at + MIN_BACKOFF_MS)
  }

  ghost predicate Spaced(log: seq<Write>) {
    && (forall i, j :: 0 <= i < j < |log| && log[i].ClaimedAt? && log[j].ClaimedAt? && log[i].id == log[j].id
         && !FailedBetween(log, i, j, log[i].id)
         ==> log[i].at + CLAIM_MS <= log[j].at)
    && (forall i, j :: 0 <= i < j < |log| && log[i].FailedAt? && log[j].ClaimedAt? && log[i].id == log[j].id
         ==> log[i].at + MIN_BACKOFF_MS <= log[j].at)
  }

  ghost predicate Inv(sys: System) {
    Fenced(sys) && Delivered(sys) && Soon(sys) && Logged(sys) && Spaced(sys.log)
  }

  lemma {:induction false} BackoffBounds(attempts: nat)
    requires attempts >= 1
    ensures MIN_BACKOFF_MS <= Backoff(attempts) <= MAX_BACKOFF_MS
  {
    if attempts == 1 {
      assert Power2(1) == 2 * Power2(0) == 2;
    } else {
      BackoffBounds(attempts - 1);
      assert Power2(attempts) == 2 * Power2(attempts - 1);
      assert Power2(attempts - 1) >= 2;
    }
  }

  /** A claim that commits finds the row exactly as it was read. */
  lemma CommitsUnchanged(sys: System, a: nat)
    requires Inv(sys) && Commits(sys, a)
    ensures sys.rows[sys.attempts[a].id] == sys.attempts[a].seen
  {
  }

  // ----- every step keeps it ---------------------------------------------------------

  /** A write that pushes a row's availability past the clock keeps every reader fenced off. */
  lemma FencedAfterWrite(sys: System, id: nat, e: Event)
    requires Fenced(sys) && id < |sys.rows|
    requires e == sys.rows[id] || e.availableAt > sys.clock || e.status.Published?
    ensures Fenced(sys.(rows := sys.rows[id := e]))
  {
  }

  lemma LogGrows(log: seq<Write>, w: Write)
    ensures forall i, id :: 0 <= i < |log| ==>
      (FailedAfter(log + [w], i, id) <==> FailedAfter(log, i, id) || (w.FailedAt? && w.id == id))
    ensures forall i, j, id :: 0 <= i < j < |log| ==>
      (FailedBetween(log + [w], i, j, id) <==> FailedBetween(log, i, j, id))
    ensures forall i, id :: 0 <= i < |log| ==>
      (FailedBetween(log + [w], i, |log|, id) <==> FailedAfter(log, i, id))
  {
    var log' := log + [w];
    forall i, id | 0 <= i < |log|
      ensures FailedAfter(log', i, id) <==> FailedAfter(log, i, id) || (w.FailedAt? && w.id == id)
    {
      if FailedAfter(log, i, id) {
        var k :| i < k < |log| && log[k].FailedAt? && log[k].id == id;
        assert log'[k] == log[k];
      }
      if w.FailedAt? && w.id == id { assert log'[|log|] == w; }
    }
    forall i, j, id | 0 <= i < j < |log| ensures FailedBetween(log', i, j, id) <==> FailedBetween(log, i, j, id) {
      if FailedBetween(log, i, j, id) {
        var k :| i < k < j < |log| && log[k].FailedAt? && log[k].id == id;
        assert log'[k] == log[k];
      }
    }
    forall i, id | 0 <= i < |log| ensures FailedBetween(log', i, |log|, id) <==> FailedAfter(log, i, id) {
      if FailedAfter(log, i, id) {
        var k :| i < k < |log| && log[k].FailedAt? && log[k].id == id;
        assert log'[k] == log[k];
      }
    }
  }

  lemma ClaimKeepsLogged(sys: System, a: nat)
    requires Inv(sys) && Commits(sys, a)
    ensures Logged(StepClaim(sys, a))
  {
    LogGrows(sys.log, ClaimedAt(sys.attempts[a].id, sys.clock));
  }

  lemma ClaimKeepsSpaced(sys: System, a: nat)
    requires Inv(sys) && Commits(sys, a)
    ensures Spaced(StepClaim(sys, a).log)
  {
    LogGrows(sys.log, ClaimedAt(sys.attempts[a].id, sys.clock));
  }

  lemma ClaimKeeps(sys: System, a: nat)
    requires Inv(sys)
    ensures Inv(StepClaim(sys, a))
  {
    if Commits(sys, a) {
      var id := sys.attempts[a].id;
      FencedAfterWrite(sys, id, ClaimRow(sys.rows[id], sys.clock));
      ClaimKeepsLogged(sys, a);
      ClaimKeepsSpaced(sys, a);
    }
  }

  lemma PublishKeepsSpaced(sys: System, id: nat)
    requires Spaced(sys.log)
    ensures Spaced(sys.log + [PublishedAt(id, sys.clock)])
  {
    LogGrows(sys.log, PublishedAt(id, sys.clock));
  }

  lemma PublishKeepsLogged(sys: System, id: nat)
    requires Logged(sys) && id < |sys.rows|
    ensures Logged(WriteRow(sys, id, PublishRow(sys.rows[id]), PublishedAt(id, sys.clock)))
  {
    LogGrows(sys.log, PublishedAt(id, sys.clock));
  }

  lemma PublishDelivers(sys: System, a: nat)
    requires Delivered(sys) && Soon(sys) && At(sys, a, Queued)
    ensures Delivered(Next(sys, MarkPublished(a))) && Soon(Next(sys, MarkPublished(a)))
  {
  }

  lemma PublishKeeps(sys: System, a: nat)
    requires Inv(sys) && At(sys, a, Queued)
    ensures Inv(Next(sys, MarkPublished(a)))
  {
    var id := sys.attempts[a].id;
    FencedAfterWrite(sys, id, PublishRow(sys.rows[id]));
    PublishKeepsLogged(sys, id);
    PublishKeepsSpaced(sys, id);
    PublishDelivers(sys, a);
  }

  lemma FailKeepsSpaced(sys: System, id: nat)
    requires Spaced(sys.log)
    ensures Spaced(sys.log + [FailedAt(id, sys.clock)])
  {
    LogGrows(sys.log, FailedAt(id, sys.clock));
  }

  lemma FailKeepsLogged(sys: System, id: nat, seen: Event)
    requires Logged(sys) && id < |sys.rows| && sys.rows[id].status.Processing?
    ensures Logged(WriteRow(sys, id, FailRow(sys.rows[id], seen, sys.clock), FailedAt(id, sys.clock)))
  {
    LogGrows(sys.log, FailedAt(id, sys.clock));
    BackoffBounds(seen.attempts + 1);
  }

  lemma FailDelivers(sys: System, a: nat)
    requires Delivered(sys) && Soon(sys) && (At(sys, a, Claimed) || At(sys, a, Queued))
    ensures Delivered(Next(sys, MarkFailed(a))) && Soon(Next(sys, MarkFailed(a)))
  {
    BackoffBounds(sys.attempts[a].seen.attempts + 1);
  }

  lemma FailKeepsFenced(sys: System, a: nat)
    requires Fenced(sys) && (At(sys, a, Claimed) || At(sys, a, Queued))
    ensures Fenced(Next(sys, MarkFailed(a)))
  {
    var id, seen := sys.attempts[a].id, sys.attempts[a].seen;
    BackoffBounds(seen.attempts + 1);
    FencedAfterWrite(sys, id, FailRow(sys.rows[id], seen, sys.clock));
  }

  lemma FailKeeps(sys: System, a: nat)
    requires Inv(sys) && (At(sys, a, Claimed) || At(sys, a, Queued))
    ensures Inv(Next(sys, MarkFailed(a)))
  {
    var id := sys.attempts[a].id;
    var seen := sys.attempts[a].seen;
    FailKeepsFenced(sys, a);
    if sys.rows[id].status.Processing? {
      FailKeepsLogged(sys, id, seen);
      FailKeepsSpaced(sys, id);
    }
    FailDelivers(sys, a);
  }

  lemma EmitKeeps(sys: System)
    requires Inv(sys)
    ensures Inv(Next(sys, Emit))
  {
    assert forall i :: 0 <= i < |sys.log| ==> Next(sys, Emit).rows[sys.log[i].id] == sys.rows[sys.log[i].id];
  }

  lemma AttemptStepKeeps(sys: System, step: Step)
    requires Inv(sys) && (step.Poll? || step.Enqueue? || step.Crash?)
    ensures Inv(Next(sys, step))
  {
  }

  lemma NextKeeps(sys: System, step: Step)
    requires Inv(sys)
    ensures Inv(Next(sys, step))
  {
    match step
    case Claim(a) => ClaimKeeps(sys, a);
    case MarkPublished(a) => if At(sys, a, Queued) { PublishKeeps(sys, a); }
    case MarkFailed(a) => if At(sys, a, Claimed) || At(sys, a, Queued) { FailKeeps(sys, a); }
    case Emit => EmitKeeps(sys);
    case Tick(_) =>
    case _ => AttemptStepKeeps(sys, step);
  }

  lemma {:induction false} InvKept(sys: System, steps: seq<Step>)
    requires Inv(sys)
    ensures Inv(Run(sys, steps))
    decreases |steps|
  {
    if |steps| > 0 {
      NextKeeps(sys, steps[0]);
      InvKept(Next(sys, steps[0]), steps[1..]);
    }
  }

  // ----- main results ----------------------------------------------------------------

  /** Optimism pays: with any number of publishers, a claim commits only on an unchanged row. */
  lemma ClaimSeesTheRowItRead(start: System, steps: seq<Step>, a: nat)
    requires Empty(start) && Commits(Run(start, steps), a)
    ensures var sys := Run(start, steps);
      sys.rows[sys.attempts[a].id] == sys.attempts[a].seen
  {
    InvKept(start, steps);
  }

  /** Two claims of an event are a minute apart unless a failure was recorded between them. */
  lemma ClaimsAreSpaced(start: System, steps: seq<Step>, i: nat, j: nat)
    requires Empty(start)
    requires var log := Run(start, steps).log;
      i < j < |log| && log[i].ClaimedAt? && log[j].ClaimedAt? && log[i].id == log[j].id
      && !FailedBetween(log, i, j, log[i].id)
    ensures Run(start, steps).log[i].at + CLAIM_MS <= Run(start, steps).log[j].at
  {
    InvKept(start, steps);
  }

  /** After a recorded failure the next claim waits out at least the smallest backoff. */
  lemma RetriesBackOff(start: System, steps: seq<Step>, i: nat, j: nat)
    requires Empty(start)
    requires var log := Run(start, steps).log;
      i < j < |log| && log[i].FailedAt? && log[j].ClaimedAt? && log[i].id == log[j].id
    ensures Run(start, steps).log[i].at + MIN_BACKOFF_MS <= Run(start, steps).log[j].at
  {
    InvKept(start, steps);
  }

  /** A published event is in the queue under its own id. */
  lemma PublishedIsQueued(start: System, steps: seq<Step>, id: nat)
    requires Empty(start)
    requires id < |Run(start, steps).rows| && Run(start, steps).rows[id].status.Published?
    ensures id in Run(start, steps).queue
  {
    InvKept(start, steps);
  }

  lemma NextKeepsPublished(sys: System, step: Step, id: nat)
    requires Inv(sys) && id < |sys.rows| && sys.rows[id].status.Published?
    ensures id < |Next(sys, step).rows| && Next(sys, step).rows[id] == sys.rows[id]
  {
  }

  /** PUBLISHED is never left, and nothing else about the row changes after it. */
  lemma {:induction false} PublishedIsFinal(sys: System, steps: seq<Step>, id: nat)
    requires Inv(sys) && id < |sys.rows| && sys.rows[id].status.Published?
    ensures id < |Run(sys, steps).rows| && Run(sys, steps).rows[id] == sys.rows[id]
    decreases |steps|
  {
    if |steps| > 0 {
      NextKeepsPublished(sys, steps[0], id);
      NextKeeps(sys, steps[0]);
      PublishedIsFinal(Next(sys, steps[0]), steps[1..], id);
    }
  }

  /**
   Whatever publishers did and however many crashed, an hour later every unpublished event
   can be read and claimed.
   */
  lemma ClaimableWithinAnHour(start: System, steps: seq<Step>, id: nat, ms: nat)
    requires Empty(start) && ms >= MAX_BACKOFF_MS
    requires id < |Run(start, steps).rows| && !Run(start, steps).rows[id].status.Published?
    ensures var sys := Next(Next(Run(start, steps), Tick(ms)), Poll(id, 0));
      |sys.attempts| == |Run(start, steps).attempts| + 1 && Commits(sys, |sys.attempts| - 1)
  {
    InvKept(start, steps);
  }
}
