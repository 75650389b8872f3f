/**
 * The time engine: the planner decides, once per cycle, which active agents
 * wake in the coming hour and writes their wake instants into the delay store
 * (a Redis sorted set keyed by agent id); the ticker moves due entries from
 * that store to the wake-up queue of the broker.
 *
 * Randomness (`random.random`, `random.randint`) and the clock are parameters.
 * Agent ids stand for the UUIDs as numbers: Redis orders members with equal
 * scores by their text, and canonical UUID text compares like the UUID's value.
 */
module Scheduler {
  import opened Wrappers
  import opened Seqs

  type AgentId = nat

  /** Name of the sorted set that holds the pending wake-ups. */
  const ScheduleKey: string := "scheduler:queue"
  /** The single queue every wake-up message is published to. */
  const WakeQueue: string := "tasks.agent_wakeup"
  const FallbackProbability: real := 0.1
  const HoursPerDay: nat := 24
  /** `random.randint(0, 3600)` includes both ends. */
  const MaxJitter: int := 3600
  /** At most this many due members are fetched per tick. */
  const TickBatch: nat := 50

  /** The part of a user row the planner reads. `None` schedule is SQL NULL. */
  datatype Agent = Agent(id: AgentId, isActive: bool, activitySchedule: Option<seq<real>>)

  datatype WakeMessage = WakeMessage(
    queue: string, agentId: AgentId, action: string, timestamp: real, reason: string)

  // ---------------------------------------------------------------------------
  // The per-agent decision
  // ---------------------------------------------------------------------------

  /** A schedule is used only when present and exactly 24 entries long. */
  predicate WellFormedSchedule(schedule: Option<seq<real>>)
  {
    schedule.Some? && |schedule.value| == HoursPerDay
  }

  /** The probability of waking during `hour`. */
  function HourProbability(schedule: Option<seq<real>>, hour: nat): (p: real)
    requires hour < HoursPerDay
    ensures WellFormedSchedule(schedule) ==> p == schedule.value[hour]
    ensures !WellFormedSchedule(schedule) ==> p == FallbackProbability
  {
    if !WellFormedSchedule(schedule) then FallbackProbability else schedule.value[hour]
  }

  /**
   * The wake instant chosen for one agent, or `None` when its roll fails:
   * the roll succeeds when the draw is below the hour's probability, and the
   * agent then wakes `jitter` seconds after `now`.
   */
  function Decide(agent: Agent, hour: nat, now: real, draw: real, jitter: int): (wake: Option<real>)
    requires hour < HoursPerDay
    requires 0 <= jitter <= MaxJitter
    ensures wake.Some? <==> draw < HourProbability(agent.activitySchedule, hour)
    ensures wake.Some? ==> now <= wake.value <= now + MaxJitter as real
  {
    if draw < HourProbability(agent.activitySchedule, hour) then Some(now + jitter as real) else None
  }

  /** A probability of 0.0 never wins a roll with a draw in [0, 1). */
  lemma ZeroProbabilityNeverWakes(agent: Agent, hour: nat, now: real, draw: real, jitter: int)
    requires hour < HoursPerDay && 0 <= jitter <= MaxJitter
    requires WellFormedSchedule(agent.activitySchedule) && agent.activitySchedule.value[hour] == 0.0
    requires 0.0 <= draw < 1.0
    ensures Decide(agent, hour, now, draw, jitter) == None
  {
  }

  /** A probability of 1.0 or more always wins a roll with a draw in [0, 1). */
  lemma CertainProbabilityAlwaysWakes(agent: Agent, hour: nat, now: real, draw: real, jitter: int)
    requires hour < HoursPerDay && 0 <= jitter <= MaxJitter
    requires WellFormedSchedule(agent.activitySchedule) && agent.activitySchedule.value[hour] >= 1.0
    requires 0.0 <= draw < 1.0
    ensures Decide(agent, hour, now, draw, jitter) == Some(now + jitter as real)
  {
  }

  /** A missing or malformed schedule wakes exactly on draws below 0.1. */
  lemma MalformedScheduleUsesFallback(agent: Agent, hour: nat, now: real, draw: real, jitter: int)
    requires hour < HoursPerDay && 0 <= jitter <= MaxJitter
    requires !WellFormedSchedule(agent.activitySchedule)
    ensures Decide(agent, hour, now, draw, jitter).Some? <==> draw < 0.1
  {
  }

  // ---------------------------------------------------------------------------
  // The sorted set as a map from member to score
  // ---------------------------------------------------------------------------

  /** ZADD of one member: the member's score is replaced, never duplicated. */
  function ZAdd(store: map<AgentId, real>, id: AgentId, score: real): (r: map<AgentId, real>)
    ensures id in r && r[id] == score
    ensures r.Keys == store.Keys + {id}
    ensures forall other :: other in store && other != id ==> r[other] == store[other]
    ensures |r| == if id in store then |store| else |store| + 1
  {
    store[id := score]
  }

  // ---------------------------------------------------------------------------
  // One planning cycle, as a function of its inputs
  // ---------------------------------------------------------------------------

  /** The inputs of one planning cycle: one draw and one jitter per user row. */
  predicate PlanInputs(agents: seq<Agent>, hour: nat, draws: seq<real>, jitters: seq<int>)
  {
    && hour < HoursPerDay
    && |draws| == |agents| && |jitters| == |agents|
    && forall i :: 0 <= i < |jitters| ==> 0 <= jitters[i] <= MaxJitter
  }

  /** Whether the `i`-th user row is written into the store by the cycle. */
  predicate Rolled(agents: seq<Agent>, hour: nat, now: real, draws: seq<real>, jitters: seq<int>, i: nat)
    requires PlanInputs(agents, hour, draws, jitters) && i < |agents|
  {
    agents[i].isActive && Decide(agents[i], hour, now, draws[i], jitters[i]).Some?
  }

  /** The entries the first `n` user rows add to the pipeline, later ones overwriting earlier ones. */
  function Planned(agents: seq<Agent>, hour: nat, now: real, draws: seq<real>, jitters: seq<int>, n: nat): map<AgentId, real>
    requires PlanInputs(agents, hour, draws, jitters) && n <= |agents|
  {
    if n == 0 then map[]
    else
      var earlier := Planned(agents, hour, now, draws, jitters, n - 1);
      if Rolled(agents, hour, now, draws, jitters, n - 1)
      then ZAdd(earlier, agents[n - 1].id, now + jitters[n - 1] as real)
      else earlier
  }

  /** The value of `scheduled_count` after the first `n` user rows. */
  function ScheduledCount(agents: seq<Agent>, hour: nat, now: real, draws: seq<real>, jitters: seq<int>, n: nat): (count: nat)
    requires PlanInputs(agents, hour, draws, jitters) && n <= |agents|
    ensures count == 0 <==> forall i :: 0 <= i < n ==> !Rolled(agents, hour, now, draws, jitters, i)
  {
    if n == 0 then 0
    else ScheduledCount(agents, hour, now, draws, jitters, n - 1)
         + (if Rolled(agents, hour, now, draws, jitters, n - 1) then 1 else 0)
  }

  /** The number of active rows among the first `n`. */
  function ActiveCount(agents: seq<Agent>, n: nat): nat
    requires n <= |agents|
  {
    if n == 0 then 0 else ActiveCount(agents, n - 1) + (if agents[n - 1].isActive then 1 else 0)
  }

  /** An agent gets an entry exactly when one of its rows is active and wins its roll. */
  lemma {:induction false} PlannedKeys(agents: seq<Agent>, hour: nat, now: real, draws: seq<real>, jitters: seq<int>, n: nat, id: AgentId)
    requires PlanInputs(agents, hour, draws, jitters) && n <= |agents|
    ensures id in Planned(agents, hour, now, draws, jitters, n) <==>
            exists i :: 0 <= i < n && agents[i].id == id && Rolled(agents, hour, now, draws, jitters, i)
  {
    if n > 0 {
      PlannedKeys(agents, hour, now, draws, jitters, n - 1, id);
    }
  }

  /** Every planned wake instant lies within the hour after `now`, ends included. */
  lemma {:induction false} PlannedWithinHour(agents: seq<Agent>, hour: nat, now: real, draws: seq<real>, jitters: seq<int>, n: nat)
    requires PlanInputs(agents, hour, draws, jitters) && n <= |agents|
    ensures forall id :: id in Planned(agents, hour, now, draws, jitters, n) ==>
              now <= Planned(agents, hour, now, draws, jitters, n)[id] <= now + MaxJitter as real
  {
    if n > 0 {
      PlannedWithinHour(agents, hour, now, draws, jitters, n - 1);
    }
  }

  /** The count of successful rolls never exceeds the number of active agents. */
  lemma {:induction false} ScheduledAtMostActive(agents: seq<Agent>, hour: nat, now: real, draws: seq<real>, jitters: seq<int>, n: nat)
    requires PlanInputs(agents, hour, draws, jitters) && n <= |agents|
    ensures ScheduledCount(agents, hour, now, draws, jitters, n) <= ActiveCount(agents, n) <= n
  {
    if n > 0 {
      ScheduledAtMostActive(agents, hour, now, draws, jitters, n - 1);
    }
  }

  /** Later rows overwrite the entry of an earlier row with the same id: never more entries than successful rolls. */
  lemma {:induction false} PlannedSizeAtMostCount(agents: seq<Agent>, hour: nat, now: real, draws: seq<real>, jitters: seq<int>, n: nat)
    requires PlanInputs(agents, hour, draws, jitters) && n <= |agents|
    ensures |Planned(agents, hour, now, draws, jitters, n)| <= ScheduledCount(agents, hour, now, draws, jitters, n)
  {
    if n > 0 {
      PlannedSizeAtMostCount(agents, hour, now, draws, jitters, n - 1);
    }
  }

  /** With distinct agent ids (the table's primary key), one entry per successful roll. */
  lemma {:induction false} PlannedSizeIsCount(agents: seq<Agent>, hour: nat, now: real, draws: seq<real>, jitters: seq<int>, n: nat)
    requires PlanInputs(agents, hour, draws, jitters) && n <= |agents|
    requires forall i, j :: 0 <= i < j < |agents| ==> agents[i].id != agents[j].id
    ensures |Planned(agents, hour, now, draws, jitters, n)| == ScheduledCount(agents, hour, now, draws, jitters, n)
  {
    if n > 0 {
      PlannedSizeIsCount(agents, hour, now, draws, jitters, n - 1);
      if Rolled(agents, hour, now, draws, jitters, n - 1) {
        PlannedKeys(agents, hour, now, draws, jitters, n - 1, agents[n - 1].id);
      }
    }
  }

  // ---------------------------------------------------------------------------
  // The ticker's fetch, as a specification
  // ---------------------------------------------------------------------------

  /** Members whose score lies in [0, now]: `ZRANGEBYSCORE min=0 max=now`. */
  function DueSet(store: map<AgentId, real>, now: real): set<AgentId>
  {
    set id | id in store && 0.0 <= store[id] <= now
  }

  /** Sorted-set order: by score, equal scores by member. */
  predicate Precedes(store: map<AgentId, real>, a: AgentId, b: AgentId)
    requires a in store && b in store
  {
    store[a] < store[b] || (store[a] == store[b] && a < b)
  }

  /**
   * `batch` is what `ZRANGEBYSCORE key 0 now LIMIT 0 50` returns: due members
   * in sorted-set order, as many as the cap allows, and no due member left
   * out comes before one taken.
   */
  predicate IsDueBatch(store: map<AgentId, real>, now: real, batch: seq<AgentId>)
    ensures IsDueBatch(store, now, batch) ==> |batch| <= TickBatch && Elements(batch) <= DueSet(store, now)
    ensures IsDueBatch(store, now, batch) ==> (batch == [] <==> DueSet(store, now) == {})
  {
    && |batch| == Min(TickBatch, |DueSet(store, now)|)
    && (forall i :: 0 <= i < |batch| ==> batch[i] in DueSet(store, now))
    && (forall i, j :: 0 <= i < j < |batch| ==> Precedes(store, batch[i], batch[j]))
    && (forall i, id :: 0 <= i < |batch| && id in DueSet(store, now) && id !in batch ==> Precedes(store, batch[i], id))
  }

  /** What ZREM of the fetched members leaves. */
  function AfterTick(store: map<AgentId, real>, batch: seq<AgentId>): (rest: map<AgentId, real>)
    ensures forall id :: id in rest <==> id in store && id !in batch
    ensures forall id :: id in rest ==> rest[id] == store[id]
  {
    store - Elements(batch)
  }

  lemma DueBatchDistinct(store: map<AgentId, real>, now: real, batch: seq<AgentId>)
    requires IsDueBatch(store, now, batch)
    ensures Distinct(batch)
  {
  }

  /**
   * Removal takes out exactly the fetched members: every other member keeps its
   * score, including those not yet due and those beyond the cap.
   */
  lemma TickRemovesExactlyFetched(store: map<AgentId, real>, now: real, batch: seq<AgentId>)
    requires IsDueBatch(store, now, batch)
    ensures AfterTick(store, batch).Keys == store.Keys - Elements(batch)
    ensures |AfterTick(store, batch)| == |store| - |batch|
    ensures forall id :: id in store && store[id] > now ==> id in AfterTick(store, batch)
    ensures forall id :: id in AfterTick(store, batch) ==> AfterTick(store, batch)[id] == store[id]
  {
    DueBatchDistinct(store, now, batch);
    DistinctCard(batch);
    assert Elements(batch) <= store.Keys;
    assert AfterTick(store, batch).Keys == store.Keys - Elements(batch);
  }

  /** A backlog of at most 50 due members is drained in one tick. */
  lemma SmallBacklogDrained(store: map<AgentId, real>, now: real, batch: seq<AgentId>)
    requires IsDueBatch(store, now, batch)
    requires |DueSet(store, now)| <= TickBatch
    ensures Elements(batch) == DueSet(store, now)
    ensures DueSet(AfterTick(store, batch), now) == {}
  {
    DueBatchDistinct(store, now, batch);
    DistinctCard(batch);
    SubsetCardEq(Elements(batch), DueSet(store, now));
  }

  /** The fetch is fully determined: two batches meeting the specification are equal. */
  lemma DueBatchUnique(store: map<AgentId, real>, now: real, b1: seq<AgentId>, b2: seq<AgentId>)
    requires IsDueBatch(store, now, b1) && IsDueBatch(store, now, b2)
    ensures b1 == b2
  {
    SamePrefix(store, now, b1, b2, |b1|);
    assert b1 == b1[..|b1|] && b2 == b2[..|b2|];
  }

  lemma {:induction false} SamePrefix(store: map<AgentId, real>, now: real, b1: seq<AgentId>, b2: seq<AgentId>, k: nat)
    requires IsDueBatch(store, now, b1) && IsDueBatch(store, now, b2)
    requires k <= |b1|
    ensures forall j :: 0 <= j < k ==> b1[j] == b2[j]
  {
    if k > 0 {
      SamePrefix(store, now, b1, b2, k - 1);
      var i := k - 1;
      if b1[i] != b2[i] {
        // Each batch's member at position i would have to come before the other's.
        DueBatchDistinct(store, now, b1);
        DueBatchDistinct(store, now, b2);
        assert b1[..i] == b2[..i];
        assert b2[i] !in b1[..i] && b1[i] !in b2[..i];
        DueBeforeUntaken(store, now, b1, b2[i], i);
        DueBeforeUntaken(store, now, b2, b1[i], i);
        assert false;
      }
    }
  }

  /**
   * The member at position `k` of a due batch comes before every due member
   * that is neither it nor one of the members before it.
   */
  lemma DueBeforeUntaken(store: map<AgentId, real>, now: real, batch: seq<AgentId>, x: AgentId, k: nat)
    requires IsDueBatch(store, now, batch) && k < |batch|
    requires x in DueSet(store, now) && x != batch[k] && x !in batch[..k]
    ensures Precedes(store, batch[k], x)
  {
    if x in batch {
      var j :| 0 <= j < |batch| && batch[j] == x;
    }
  }

  // ---------------------------------------------------------------------------
  // The engine: the delay store and the broker's wake-up queue
  // ---------------------------------------------------------------------------

  /** The message published for one due agent. */
  function Wake(id: AgentId, now: real): (m: WakeMessage)
    ensures m.queue == WakeQueue && m.agentId == id && m.timestamp == now
  {
    WakeMessage(WakeQueue, id, "WAKE_UP", now, "scheduled_activity")
  }

  /** The messages for `ids`, one each, in order. */
  function WakeMessages(ids: seq<AgentId>, now: real): (ms: seq<WakeMessage>)
    ensures |ms| == |ids|
    ensures forall i :: 0 <= i < |ids| ==> ms[i] == Wake(ids[i], now)
  {
    if ids == [] then [] else WakeMessages(ids[..|ids| - 1], now) + [Wake(ids[|ids| - 1], now)]
  }

  class TimeEngine {
    /** The sorted set named `ScheduleKey`: member to score (wake instant in seconds). */
    var schedule: map<AgentId, real>
    /** Every message handed to the broker, in publication order. */
    var published: seq<WakeMessage>

    constructor ()
      ensures schedule == map[] && published == []
    {
      schedule := map[];
      published := [];
    }

    /**
     * One planning cycle over the user table: inactive rows are skipped (the
     * query selects active users only), each active row rolls its draw
     * against the hour's probability, and the winners' ZADDs are queued in a
     * pipeline that is executed once at the end. `execFails` says whether
     * that EXEC raises; the pipeline's writes are then all discarded.
     */
    method Plan(agents: seq<Agent>, hour: nat, now: real, draws: seq<real>, jitters: seq<int>, execFails: bool)
      returns (scheduledCount: nat)
      requires PlanInputs(agents, hour, draws, jitters)
      modifies this
      ensures schedule == if execFails then old(schedule) else old(schedule) + Planned(agents, hour, now, draws, jitters, |agents|)
      ensures scheduledCount == ScheduledCount(agents, hour, now, draws, jitters, |agents|)
      ensures published == old(published)
    {
      var pipeline: map<AgentId, real> := map[];
      scheduledCount := 0;
      for i := 0 to |agents|
        invariant pipeline == Planned(agents, hour, now, draws, jitters, i)
        invariant scheduledCount == ScheduledCount(agents, hour, now, draws, jitters, i)
      {
        var agent := agents[i];
        if agent.isActive {
          var prob := HourProbability(agent.activitySchedule, hour);
          if draws[i] < prob {
            var wakeTime := now + jitters[i] as real;
            pipeline := pipeline[agent.id := wakeTime];
            scheduledCount := scheduledCount + 1;
          }
        }
      }
      if !execFails {
        schedule := schedule + pipeline;
      }
    }

    /** The fetch of one tick: at most 50 due members, lowest score first. */
    method FetchDue(now: real) returns (batch: seq<AgentId>)
      ensures IsDueBatch(schedule, now, batch)
    {
      var due := DueSet(schedule, now);
      var remaining := due;
      batch := [];
      while |batch| < TickBatch && remaining != {}
        invariant remaining <= due
        invariant |batch| + |remaining| == |due|
        invariant |batch| <= TickBatch
        invariant forall i :: 0 <= i < |batch| ==> batch[i] in due && batch[i] !in remaining
        invariant forall id :: id in due && id !in remaining ==> id in batch
        invariant forall i, j :: 0 <= i < j < |batch| ==> Precedes(schedule, batch[i], batch[j])
        invariant forall i, id :: 0 <= i < |batch| && id in remaining ==> Precedes(schedule, batch[i], id)
        decreases remaining
      {
        var next := Lowest(remaining);
        batch := batch + [next];
        remaining := remaining - {next};
      }
    }

    /** The member of `candidates` that comes first in sorted-set order. */
    method Lowest(candidates: set<AgentId>) returns (x: AgentId)
      requires candidates != {} && candidates <= schedule.Keys
      ensures x in candidates
      ensures forall y :: y in candidates && y != x ==> Precedes(schedule, x, y)
    {
      x :| x in candidates;
      var rest := candidates - {x};
      while rest != {}
        invariant rest <= candidates && x in candidates && x !in rest
        invariant forall y :: y in candidates && y !in rest && y != x ==> Precedes(schedule, x, y)
        decreases rest
      {
        var y :| y in rest;
        if Precedes(schedule, y, x) {
          x := y;
        }
        rest := rest - {y};
      }
    }

    /**
     * One tick at instant `now`. `failAt` is the position of the first
     * publish that raises, if any: the messages before it stay published,
     * the exception ends the tick and nothing is removed. When every publish
     * succeeds, the ZREM of exactly the fetched members follows; `zremFails`
     * says whether it raises, in which case the whole batch stays in the set
     * and is fetched again by the next tick.
     */
    method Tick(now: real, failAt: Option<nat>, zremFails: bool) returns (fetched: seq<AgentId>, ok: bool)
      modifies this
      ensures IsDueBatch(old(schedule), now, fetched)
      ensures ok <==> !(failAt.Some? && failAt.value < |fetched|) && !(zremFails && fetched != [])
      ensures !(failAt.Some? && failAt.value < |fetched|) ==> published == old(published) + WakeMessages(fetched, now)
      ensures failAt.Some? && failAt.value < |fetched| ==> published == old(published) + WakeMessages(fetched[..failAt.value], now)
      ensures schedule == if ok then AfterTick(old(schedule), fetched) else old(schedule)
    {
      fetched := FetchDue(now);
      ok := true;
      if |fetched| > 0 {
        var sent := 0;
        while sent < |fetched|
          invariant 0 <= sent <= |fetched|
          invariant published == old(published) + WakeMessages(fetched[..sent], now)
          invariant failAt.Some? ==> sent <= failAt.value
          invariant schedule == old(schedule)
          invariant ok
        {
          if failAt == Some(sent) {
            ok := false;
            break;
          }
          var payload := WakeMessage(WakeQueue, fetched[sent], "WAKE_UP", now, "scheduled_activity");
          published := published + [payload];
          assert fetched[..sent + 1] == fetched[..sent] + [fetched[sent]];
          sent := sent + 1;
        }
        if ok {
          assert fetched[..sent] == fetched;
          if zremFails {
            ok := false;
          } else {
            schedule := schedule - Elements(fetched);
          }
        }
      } else {
        assert schedule == AfterTick(schedule, fetched);
      }
    }
  }
}
