/** One publisher's batch, run step by step against the table and the queue. */
module OutboxPublisher {
  import opened Results
  import opened Outbox

  datatype Store = Store(rows: seq<Event>, queue: set<nat>)

  /** The body of the loop for one fetched row; `accepted` is the queue's answer. */
  function Deliver(s: Store, id: nat, seen: Event, now: Time, clock: Time, accepted: bool): Store {
    if id >= |s.rows| || !Claimable(s.rows[id], seen, now) then s
    else
      var claimed := ClaimRow(s.rows[id], clock);
      if accepted then Store(s.rows[id := PublishRow(claimed)], s.queue + {id})
      else s.(rows := s.rows[id := FailRow(claimed, seen, clock)])
  }

  function DeliverAll(s: Store, batch: seq<nat>, seen: seq<Event>, now: Time, clock: Time, accepted: set<nat>): Store
    requires forall k :: 0 <= k < |batch| ==> batch[k] < |seen|
    decreases |batch|
  {
    if |batch| == 0 then s
    else
      var n := |batch| - 1;
      Deliver(DeliverAll(s, batch[..n], seen, now, clock, accepted), batch[n], seen[batch[n]], now, clock, batch[n] in accepted)
  }

  /** The turn of the loop is a run of the protocol's steps for that attempt. */
  lemma DeliverIsRun(sys: System, a: nat, accepted: bool)
    requires At(sys, a, Read)
    ensures var at := sys.attempts[a];
      var steps := [Claim(a)] + if accepted then [Enqueue(a), MarkPublished(a)] else [MarkFailed(a)];
      var sys' := Run(sys, steps);
      Store(sys'.rows, sys'.queue)
      == Deliver(Store(sys.rows, sys.queue), at.id, at.seen, at.now, sys.clock, accepted)
  {
    var s1 := Next(sys, Claim(a));
    if accepted {
      var steps := [Claim(a), Enqueue(a), MarkPublished(a)];
      assert [Claim(a)] + [Enqueue(a), MarkPublished(a)] == steps;
      assert steps[1..] == [Enqueue(a), MarkPublished(a)];
      assert steps[1..][1..] == [MarkPublished(a)];
      var s2 := Next(s1, Enqueue(a));
      assert Run(sys, steps) == Run(s1, steps[1..]) == Run(s2, steps[1..][1..]) == Next(s2, MarkPublished(a));
    } else {
      var steps := [Claim(a), MarkFailed(a)];
      assert [Claim(a)] + [MarkFailed(a)] == steps;
      assert steps[1..] == [MarkFailed(a)];
      assert Run(sys, steps) == Run(s1, steps[1..]) == Next(s1, MarkFailed(a));
    }
  }

  ghost predicate Increasing(batch: seq<nat>) {
    forall i, j :: 0 <= i < j < |batch| ==> batch[i] < batch[j]
  }

  /** What an undisturbed batch makes of an event. */
  function Settled(e: Event, clock: Time, accepted: bool): Event {
    if accepted then Event(Published, e.attempts + 1, clock + CLAIM_MS)
    else Event(Failed, e.attempts + 1, clock + Backoff(e.attempts + 1))
  }

  ghost predicate SettledSoFar(s: Store, s': Store, batch: seq<nat>, clock: Time, accepted: set<nat>, id: nat) {
    && |s'.rows| == |s.rows| && id < |s.rows|
    && s'.rows[id] == (if id in batch then Settled(s.rows[id], clock, id in accepted) else s.rows[id])
    && (id in s'.queue <==> id in s.queue || (id in batch && id in accepted))
  }

  lemma OneMoreSettled(s: Store, mid: Store, earlier: seq<nat>, next: nat, now: Time, clock: Time, accepted: set<nat>, id: nat)
    requires SettledSoFar(s, mid, earlier, clock, accepted, id)
    requires next < |s.rows| && next !in earlier && mid.rows[next] == s.rows[next] && Eligible(s.rows[next], now)
    ensures SettledSoFar(
      s, Deliver(mid, next, s.rows[next], now, clock, next in accepted), earlier + [next], clock, accepted, id)
  {
    assert id in earlier + [next] <==> id in earlier || id == next;
  }

  /** Left alone, a batch publishes what the queue accepted and schedules the rest for retry. */
  lemma {:induction false} UndisturbedBatch(
    s: Store, batch: seq<nat>, now: Time, clock: Time, accepted: set<nat>, id: nat)
    requires Increasing(batch) && now <= clock
    requires forall k :: 0 <= k < |batch| ==> batch[k] < |s.rows| && Eligible(s.rows[batch[k]], now)
    requires id < |s.rows|
    ensures SettledSoFar(s, DeliverAll(s, batch, s.rows, now, clock, accepted), batch, clock, accepted, id)
    decreases |batch|
  {
    if |batch| > 0 {
      var n := |batch| - 1;
      UndisturbedBatch(s, batch[..n], now, clock, accepted, id);
      UndisturbedBatch(s, batch[..n], now, clock, accepted, batch[n]);
      assert batch[n] !in batch[..n] && batch == batch[..n] + [batch[n]];
      OneMoreSettled(s, DeliverAll(s, batch[..n], s.rows, now, clock, accepted), batch[..n], batch[n], now, clock, accepted, id);
    }
  }

  class Publisher {
    var rows: seq<Event>
    var queue: set<nat>

    function View(): Store
      reads this
    {
      Store(rows, queue)
    }

    /** The first eligible rows in order of creation, at most a batch of them. */
    method Fetch(now: Time) returns (batch: seq<nat>)
      ensures Increasing(batch) && |batch| <= BATCH
      ensures forall k :: 0 <= k < |batch| ==> batch[k] < |rows| && Eligible(rows[batch[k]], now)
      ensures forall id :: 0 <= id < |rows| && Eligible(rows[id], now) && id !in batch ==>
        |batch| == BATCH && batch[BATCH - 1] < id
    {
      batch := [];
      var i := 0;
      while i < |rows| && |batch| < BATCH
        invariant 0 <= i <= |rows| && |batch| <= BATCH && Increasing(batch)
        invariant forall k :: 0 <= k < |batch| ==> batch[k] < i && Eligible(rows[batch[k]], now)
        invariant forall id :: 0 <= id < i && Eligible(rows[id], now) ==> id in batch
      {
        if !rows[i].status.Published? && rows[i].availableAt <= now {
          batch := batch + [i];
        }
        i := i + 1;
      }
    }

    /** One turn of the loop: claim, hand to the queue, record the answer. */
    method DeliverOne(id: nat, event: Event, now: Time, clock: Time, accepted: bool)
      requires id < |rows|
      modifies this
      ensures View() == Deliver(old(View()), id, event, now, clock, accepted)
    {
      if rows[id].status == event.status && rows[id].availableAt <= now {
        rows := rows[id := Event(Processing, rows[id].attempts + 1, clock + CLAIM_MS)];
        if accepted {
          queue := queue + {id};
          rows := rows[id := rows[id].(status := Published)];
        } else {
          rows := rows[id := rows[id].(status := Failed, availableAt := clock + Backoff(event.attempts + 1))];
        }
      }
    }

    method PublishBatch(now: Time, clock: Time, accepted: set<nat>) returns (batch: seq<nat>)
      modifies this
      ensures forall k :: 0 <= k < |batch| ==> batch[k] < |old(rows)| && Eligible(old(rows)[batch[k]], now)
      ensures View() == DeliverAll(old(View()), batch, old(rows), now, clock, accepted)
    {
      batch := Fetch(now);
      var events := rows;
      var i := 0;
      while i < |batch|
        invariant 0 <= i <= |batch| && |rows| == |events|
        invariant View() == DeliverAll(old(View()), batch[..i], events, now, clock, accepted)
      {
        assert batch[..i + 1][..i] == batch[..i];
        DeliverOne(batch[i], events[batch[i]], now, clock, batch[i] in accepted);
        i := i + 1;
      }
      assert batch[..i] == batch;
    }
  }
}
