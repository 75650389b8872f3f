# qoneqt_agent core in Dafny

This project models the parts of the qoneqt agent platform that decide when autonomous agent accounts wake, and what they do with candidates once awake:

- **Time engine** (`scheduler.dfy`, module `Scheduler`).
  - One planning cycle rolls each active agent's hourly probability against a draw. The winners' wake instants (now plus 0–3600 s of jitter) go into the `scheduler:queue` sorted set.
  - One ticker iteration fetches at most 50 due members in score order and publishes one `WAKE_UP` message per member to `tasks.agent_wakeup`. It removes exactly those members, and only when every publish and the removal itself succeed; otherwise the set is left as it was.
  - The class `TimeEngine` holds the sorted set as a map from agent id to score, plus the sequence of published messages.
- **Ranking engine** (`ranking.dfy`, module `Ranking`).
  - The match score is the weighted sum 0.5·similarity + 0.3·social proof + 0.2·recency, rounded to 4 decimals.
  - Similarity is clamped, recency decays hyperbolically and social proof is log-saturated.
- **Recommendation funnel after retrieval** (`recsys.dfy`, module `RecSys`). This covers:
  - the three-way location cascade and the `ILIKE '%…%'` filters the query carries;
  - the pool of 3×limit;
  - scoring each hit with its own distance and follower count;
  - the stable sort by descending score and truncation to `limit`.
- **Decision schema** (`decision.dfy`, module `DecisionSchema`). This is `AgentDecision` and the validation of a parsed JSON document into it, including the `check_score` validator.
- **Brain output handling** (`brain.dfy`, module `AgentBrain`). This is the brace-span recovery of `_clean_and_parse_json` and the fail-closed result of `decide_on_candidate`.
- **Energy ledger** (`energy.dfy`, module `CostGovernor`). `check_energy` and `deduct_energy` act on a key → integer store. `DECRBY`'s signed 64-bit range errors are modelled.

The support modules are `wrappers.dfy` (`Option`, `Result`) and `seqs.dfy` (distinctness and cardinality facts).

Randomness, the clock, `json.loads`, `math.log10`, the database rows and the follower counts are parameters:

- draws and jitters are sequences, one entry per user row;
- `now` and the hour are numbers;
- `loads` is a function `string -> Option<Json>`;
- `log10` is a function constrained by `Ranking.IsLog10`;
- hits and follower counts are sequences.

Agent and user ids are natural numbers: Redis orders members with equal scores by their text, and canonical UUID text compares like the UUID's value.

Some behaviours of the code worth stating plainly:

- the jitter is drawn from [0, 3600], both ends included;
- a probability of 0.0 has no special rule; it simply never wins a roll;
- there are no tiers or priority lanes: every wake message goes to `tasks.agent_wakeup`;
- `check_energy` seeds no balance (an absent key reads as 0), and check and deduct are two separate, non-atomic calls;
- `_clean_and_parse_json` does no markdown-fence extraction and no trailing-comma repair: it tries a direct parse, then the brace span.

## Model

| member | source | states |
|---|---|---|
| Scheduler.HourProbability | app/modules/scheduler/time_engine.py:87-90 | The hour's probability is `activity_schedule[hour]` when the schedule is present with exactly 24 entries, and 0.1 otherwise |
| Scheduler.Decide | app/modules/scheduler/time_engine.py:93-97 | An agent wakes iff the draw is below the hour's probability, and its wake instant then lies in [now, now + 3600] |
| Scheduler.ZeroProbabilityNeverWakes | app/modules/scheduler/time_engine.py:90-93 | A probability of 0.0 never wins a roll with a draw in [0, 1) |
| Scheduler.CertainProbabilityAlwaysWakes | app/modules/scheduler/time_engine.py:90-97 | A probability of 1.0 or more always wins with a draw in [0, 1); the agent then wakes `jitter` seconds after now |
| Scheduler.MalformedScheduleUsesFallback | app/modules/scheduler/time_engine.py:87-88 | A missing or malformed schedule wakes exactly on draws below 0.1 |
| Scheduler.ZAdd | app/modules/scheduler/time_engine.py:101 | ZADD sets the member's score, never duplicates a member and leaves every other member's score unchanged; the set grows by one only for a new member |
| Scheduler.PlannedKeys | app/modules/scheduler/time_engine.py:76-102 | After a cycle, an agent has an entry iff one of its rows is active and won its roll |
| Scheduler.PlannedWithinHour | app/modules/scheduler/time_engine.py:96-101 | Every instant a cycle writes lies in [now, now + 3600] |
| Scheduler.ScheduledCount | app/modules/scheduler/time_engine.py:80-102 | `scheduled_count` ends at 0 iff no row is active and wins its roll |
| Scheduler.PlannedSizeAtMostCount | app/modules/scheduler/time_engine.py:84-102 | A later row overwrites an earlier entry with the same id, so a cycle writes at most `scheduled_count` members |
| Scheduler.ScheduledAtMostActive | app/modules/scheduler/time_engine.py:76-102 | `scheduled_count` never exceeds the number of active agents, which never exceeds the number of rows |
| Scheduler.PlannedSizeIsCount | app/modules/scheduler/time_engine.py:101-102 | With distinct agent ids, a cycle writes exactly `scheduled_count` distinct members |
| Scheduler.IsDueBatch | app/modules/scheduler/time_engine.py:126-132 | A batch meeting the ZRANGEBYSCORE specification holds at most 50 members, all due, and is empty iff nothing is due |
| Scheduler.AfterTick | app/modules/scheduler/time_engine.py:152-154 | ZREM of the batch keeps exactly the members not fetched, each with its old score |
| Scheduler.DueBatchDistinct | app/modules/scheduler/time_engine.py:126-132 | A fetched batch holds no member twice |
| Scheduler.TickRemovesExactlyFetched | app/modules/scheduler/time_engine.py:152-154 | Removal takes out exactly the fetched members: the size drops by the batch size, members not yet due remain, and every remaining member keeps its score |
| Scheduler.SmallBacklogDrained | app/modules/scheduler/time_engine.py:126-154 | When at most 50 members are due, the batch is exactly the due set and nothing due remains after removal |
| Scheduler.DueBatchUnique | app/modules/scheduler/time_engine.py:126-132 | The fetch is determined: two batches meeting the ZRANGEBYSCORE specification are equal |
| Scheduler.DueBeforeUntaken | app/modules/scheduler/time_engine.py:126-132 | The member at each position of a fetched batch comes, in sorted-set order, before every due member not fetched ahead of it |
| Scheduler.Wake | app/modules/scheduler/time_engine.py:139-150 | The message for an agent goes to `tasks.agent_wakeup` and carries the agent's id and the tick's timestamp |
| Scheduler.WakeMessages | app/modules/scheduler/time_engine.py:138-150 | One message per fetched agent, in fetch order |
| Scheduler.TimeEngine.constructor | app/modules/scheduler/time_engine.py:20 | An engine starts with an empty sorted set and nothing published |
| Scheduler.TimeEngine.Plan | app/modules/scheduler/time_engine.py:80-105 | One planning cycle merges the pipeline's entries into the sorted set, over the old scores of re-added agents, unless the pipeline's EXEC raises, in which case the set is unchanged; it returns the number of successful rolls and publishes nothing |
| Scheduler.TimeEngine.FetchDue | app/modules/scheduler/time_engine.py:126-132 | The fetch returns min(50, number due) members with score in [0, now], in (score, member) order, and no due member left out comes before one taken |
| Scheduler.TimeEngine.Lowest | app/modules/scheduler/time_engine.py:126-132 | The member of a candidate set that comes first in sorted-set order |
| Scheduler.TimeEngine.Tick | app/modules/scheduler/time_engine.py:122-161 | A tick fetches the due batch and publishes one message per member in order. If a publish raises, the earlier messages stay published and nothing is removed. If every publish succeeds, all messages are published and ZREM removes exactly the batch; if that ZREM raises, the whole batch stays in the set. An empty batch publishes and removes nothing |
| Ranking.Similarity | app/modules/recsys/ranking.py:22-23 | Similarity lies in [0, 1]: it is 1 at distance ≤ 0, 0 at distance ≥ 1, and 1 − distance in between |
| Ranking.Recency | app/modules/recsys/ranking.py:27-32 | Recency lies in (0, 1]: it is exactly 0.5 for unknown activity and 1 for zero or negative days |
| Ranking.Round4 | app/modules/recsys/ranking.py:49 | `round(x, 4)` is a multiple of 1/10000 within 0.00005 of the value |
| Ranking.RoundHalfEven | app/modules/recsys/ranking.py:49 | The chosen integer is within 0.5 of the value, and an exact half goes to the even neighbour |
| Ranking.Social | app/modules/recsys/ranking.py:38-39 | Social proof is the smaller of 1 and log10(followers + 1) / 4 |
| Ranking.RawScore | app/modules/recsys/ranking.py:22-47 | The unrounded weighted sum is 0.3 times social proof plus a positive part of at most 0.7 from similarity and recency |
| Ranking.CalculateScore | app/modules/recsys/ranking.py:22-49 | `calculate_score` returns a multiple of 1/10000 within 0.00005 of the weighted sum |
| Ranking.SocialBounds | app/modules/recsys/ranking.py:38-39 | Social proof lies in [0, 1]: it is 0 with no followers and 1 from 9999 followers on |
| Ranking.SocialMonotone | app/modules/recsys/ranking.py:38-39 | More followers never lower social proof |
| Ranking.RecencyAntitone | app/modules/recsys/ranking.py:27-30 | More days inactive never raise recency |
| Ranking.Round4Monotone | app/modules/recsys/ranking.py:49 | Rounding never reverses the order of two values |
| Ranking.RoundHalfEvenMonotone | app/modules/recsys/ranking.py:49 | Rounding to an integer never reverses the order of two values |
| Ranking.Round4UnitInterval | app/modules/recsys/ranking.py:49 | Rounding keeps a value of [0, 1] in [0, 1] |
| Ranking.ScoreBounds | app/modules/recsys/ranking.py:22-49 | The final score lies in [0, 1] |
| Ranking.ScoreAntitoneInDistance | app/modules/recsys/ranking.py:22-49 | A larger distance never raises the score |
| Ranking.ScoreMonotoneInFans | app/modules/recsys/ranking.py:38-49 | More followers never lower the score |
| Ranking.ScoreAntitoneInDays | app/modules/recsys/ranking.py:27-49 | More days inactive never raise the score |
| Ranking.IdenticalVectorContributesHalf | app/modules/recsys/ranking.py:22-47 | At distance 0 similarity contributes exactly 0.5 |
| Ranking.WorkedExample | app/modules/recsys/ranking.py:22-49 | Distance 0.15, active today and 999 followers score exactly 0.85 |
| RecSys.ResolveLocation | app/modules/recsys/service.py:44-58 | The location cascade: a truthy explicit filter wins; otherwise the initiator's truthy location is used when smart location is on; otherwise there is no location filter |
| RecSys.BuildQuery | app/modules/recsys/service.py:44-84 | The query excludes the initiator and carries a location filter iff the cascade yields one: a truthy explicit filter always wins, and only without one does smart location use the initiator's own. It carries a role filter iff the role filter is a non-empty string, and a pool of 3×limit |
| RecSys.Like | app/modules/recsys/service.py:75-79 | A lone `%` matches every text; a pattern without wildcards matches only texts of its own length |
| RecSys.LikeIsSubstring | app/modules/recsys/service.py:75-79 | For a filter without `%`, `_` or `\`, the pattern `'%filter%'` matches a text iff the filter occurs in it up to case |
| RecSys.ILike | app/modules/recsys/service.py:75-79 | For a filter without `%`, `_` or `\`, `ILIKE '%filter%'` holds iff the filter occurs in the column up to case |
| RecSys.Admits | app/modules/recsys/service.py:68-79 | An admitted row is not the initiator and is active; a NULL location or role never passes a filter on it; for filters without wildcards a row is admitted iff its columns contain the filters up to case |
| RecSys.ImplicitLocationScopesCandidates | app/modules/recsys/service.py:52-75 | Without an explicit filter, with smart location on and an own location, every admitted candidate's location contains the initiator's. Admitted candidates are never the initiator and are active |
| RecSys.ExplicitLocationWins | app/modules/recsys/service.py:47-75 | With an explicit location, every admitted candidate's location contains that filter, whatever the initiator's location |
| RecSys.GlobalFallbackIgnoresLocation | app/modules/recsys/service.py:56-75 | Without an explicit filter or a usable own location, a candidate's location plays no part in admission |
| RecSys.ScoreHit | app/modules/recsys/service.py:102-124 | A hit's entry carries its own id and the score of its own distance, days inactive and follower count |
| RecSys.RankingOrderIsPermutation | app/modules/recsys/service.py:127 | A ranking order lists every position of the scored list exactly once |
| RecSys.RankingOrderUnique | app/modules/recsys/service.py:127 | A stable sort by descending score has exactly one outcome |
| RecSys.AheadOfUnplaced | app/modules/recsys/service.py:127 | The entry at each index of a ranking order is ahead of every position not placed before it |
| RecSys.TiesKeepDistanceOrder | app/modules/recsys/service.py:83-127 | Among equal scores, the ranking keeps ascending distance order |
| RecSys.InsertKeepsRanking | app/modules/recsys/service.py:127 | Inserting the next position after every entry scoring at least as high keeps the order sorted by descending score with ties in original order |
| RecSys.StableSortDescending | app/modules/recsys/service.py:127 | The sort yields a permutation of positions in descending score, ties in original order |
| RecSys.ScoredPool | app/modules/recsys/service.py:100-124 | The scored list has one entry per hit, the i-th scored with hit i's distance and `fan_counts[i]` |
| RecSys.GetRecommendations | app/modules/recsys/service.py:38-129 | A missing initiator gives an empty list. Otherwise the query follows the cascade, excludes the initiator and asks for a pool of 3×limit, and the result is the first min(limit, number of hits) entries of the stably sorted scored list, in non-increasing score order |
| DecisionSchema.DecisionFromLabel | app/modules/agent_brain/schemas.py:8-11 | A decision is accepted iff it is exactly ACCEPT, REJECT or HOLD |
| DecisionSchema.LabelRoundTrip | app/modules/agent_brain/schemas.py:8 | Each decision reads back from its own label |
| DecisionSchema.CheckScore | app/modules/agent_brain/schemas.py:25-29 | A confidence is accepted iff 0.0 ≤ v ≤ 1.0, both ends inclusive, and is returned unchanged; otherwise validation fails |
| DecisionSchema.GeneratedMessage | app/modules/agent_brain/schemas.py:20-23 | The optional message validates iff it is absent, null or a string; a string is carried over as is, absent and null become None |
| DecisionSchema.Validate | app/modules/agent_brain/schemas.py:8-29 | A document validates iff it is an object with a valid decision, a numeric confidence in [0, 1] and a string reasoning, and `generated_message` is absent, null or a string. The fields are carried over, a string message included, and an absent or null message becomes None |
| DecisionSchema.ValidateToJson | app/modules/agent_brain/schemas.py:8-29 | Every decision with a confidence in [0, 1] validates back from its JSON form unchanged |
| AgentBrain.Find | app/modules/agent_brain/service.py:84 | `find` returns the first index of the character, or −1 exactly when it is absent |
| AgentBrain.RFind | app/modules/agent_brain/service.py:85 | `rfind` returns the last index of the character, or −1 exactly when it is absent |
| AgentBrain.FindAt | app/modules/agent_brain/service.py:84 | A first occurrence is the index `find` reports |
| AgentBrain.RFindAt | app/modules/agent_brain/service.py:85 | A last occurrence is the index `rfind` reports |
| AgentBrain.PySlice | app/modules/agent_brain/service.py:87 | Python slicing with clamped bounds: empty when reversed or when the start lies at or past the end of the string |
| AgentBrain.BraceSpan | app/modules/agent_brain/service.py:84-87 | When a `{` comes before the last `}`, the span runs from the first `{` to the last `}`, starting with `{` and ending with `}`; otherwise it is empty |
| AgentBrain.CleanAndParseJson | app/modules/agent_brain/service.py:79-88 | A directly parsable reply is returned unchanged. The "no JSON" error arises iff the reply does not parse and has no `{`. Otherwise the brace span is parsed, or the decode error propagates |
| AgentBrain.ChatterAroundObjectIsStripped | app/modules/agent_brain/service.py:83-87 | Chatter before the object without `{` and after it without `}` is stripped: the object itself is parsed |
| AgentBrain.UnclosedBraceIsDecodeError | app/modules/agent_brain/service.py:85-87 | A reply with `{` but no `}` fails with a decode error, never the "no JSON" error, since `end` is 0 and not −1 |
| AgentBrain.DecideOnCandidate | app/modules/agent_brain/service.py:32-73 | A decision is returned iff the prompt is built, the call answers, extraction succeeds and validation succeeds. Every failure yields None, and a returned confidence lies in [0, 1] |
| CostGovernor.EnergyKey | app/core/redis.py:23-32 | A user's balance lives under `user:energy:` followed by the user id |
| CostGovernor.Balance | app/core/redis.py:22-24 | The balance read is 0 when the key is absent and otherwise the stored value, which fits 64 bits whenever the store's values do |
| CostGovernor.EnergyKeyInjective | app/core/redis.py:23-32 | Different users never share an energy key |
| CostGovernor.Deducted | app/core/redis.py:32 | DECRBY succeeds iff the amount and the result fit in a signed 64-bit integer (the amount not −2^63). It then lowers the user's balance by exactly the amount, and touches no other key |
| CostGovernor.DeductIsolated | app/core/redis.py:23-32 | A deduction leaves every other user's balance unchanged |
| CostGovernor.DeductionCanGoNegative | app/core/redis.py:26-32 | Nothing guards a deduction: an amount above the balance leaves it negative |
| CostGovernor.CheckThenDeductRace | app/core/redis.py:18-32 | Two callers whose checks both see enough for one charge, but not two, drive the balance negative by both deducting |
| CostGovernor.EnergyLedger.constructor | app/core/redis.py:4 | A ledger starts empty |
| CostGovernor.EnergyLedger.CheckEnergy | app/core/redis.py:18-24 | `check_energy` returns the stored balance, and 0 when the key is absent |
| CostGovernor.EnergyLedger.DeductEnergy | app/core/redis.py:26-32 | `deduct_energy` applies DECRBY: on success the store becomes the deducted store; on an error reply it is unchanged |

## Left out

- The asyncio daemon loops, the sleeps, `asyncio.gather` and the error back-off of the planner and ticker loops are not modelled; `TimeEngine.Plan` is one cycle and `TimeEngine.Tick` one iteration.
- Scheduler.TimeEngine.Tick: the failures modelled are a raising publish and a raising ZREM (`failAt`, `zremFails`); the fetch itself is assumed to succeed. After a raising ZREM the next tick fetches and publishes the same members again, so those agents get duplicate wake-ups.
- Scheduler.TimeEngine.Plan: the failure modelled is a raising EXEC (`execFails`), which discards every ZADD of the cycle; the user query is assumed to succeed.
- Scheduler.TimeEngine.Tick: a tick is one atomic step, so no interleaving with a planner cycle is modelled. In the code the ZREM (app/modules/scheduler/time_engine.py:154) runs only after the publish awaits (lines 147-150). A planner cycle that re-adds a fetched agent in that window (lines 101-105) loses the new wake-up, because ZREM removes by member whatever the score. `Scheduler.TickRemovesExactlyFetched` holds only for a tick that nothing interleaves.
- `random.random`, `random.randint`, `datetime.now`, `time.time` and `datetime.utcnow` are parameters. The draws, jitters, `now`, the hour and the days of inactivity are given by the caller.
- The database (SQLAlchemy sessions, the pgvector cosine distance, ordering by distance, LIMIT) is not modelled. `RecSys.GetRecommendations` takes the returned rows as `hits` and returns the query it would send (`RecSys.Admits` states its WHERE clause).
- The sentence-transformer embedding, RabbitMQ, the Ollama HTTP call and the prompt template are not modelled. `AgentBrain.DecideOnCandidate` takes whether the prompt was built and the reply content (None when the call failed) as inputs.
- AgentBrain.DecideOnCandidate: as written, building the prompt always fails. The template's literal schema braces (app/modules/agent_brain/prompts.py:12-17) make `str.format` at prompts.py:57 raise `KeyError`, so `promptBuilt` is false in every run and `decide_on_candidate` always returns None (service.py:70-73). The model keeps the input so that the later stages are stated for a template that formats.
- `json.loads` is the parameter `loads`. Pydantic's lax coercions are not modelled: numeric strings and booleans are accepted as `float`, and pydantic v1 also coerces numbers (booleans included) to `str`. Objects, arrays and null are rejected for every required field, as in the model.
- The follower counts are an input sequence parallel to the hits. As written, `RedisClient` (app/core/redis.py:4-32) defines no `get_follower_counts`, so the call at app/modules/recsys/service.py:96 raises `AttributeError` whenever the query returns rows; the model states what the funnel computes once some lookup supplies the counts.
- RecSys.GetRecommendations: the `User` class (app/modules/identity/models.py:10-44) has no `location` or `role` column. As written, `initiator.location` (app/modules/recsys/service.py:52) raises `AttributeError` when there is no explicit location filter and smart location is on. `User.location` (line 75) raises whenever a location filter resolves, and `User.role` (line 79) whenever a role filter is given. Reading `candidate.location` and `candidate.role` (lines 114-115) raises whenever there are hits. The model gives every row both columns and states what the cascade, the filters and the result entries compute on a schema that has them.
- IEEE floating point is not modelled: scores, distances and timestamps are reals, and `log10` is any function satisfying `Ranking.IsLog10`.
- Ranking.Round4: `round(x, 4)` is modelled as exact round-half-to-even at 4 decimals over reals; binary floating-point representation of the halves is not captured.
- Ranking.Recency: the whole days of inactivity (`timedelta.days`) are an input rather than derived from `updated_at`.
- RecSys.StableSortDescending: the in-place `list.sort` is modelled as computing the sorted order of positions; aliasing of the list is not captured.
- RecSys.ILike: case folding is ASCII only; PostgreSQL's locale-dependent folding of other characters is not modelled.
- RecSys.ScoreHit: the `_debug.recency` field holds the days of inactivity instead of the text of `updated_at`.
- Follower counts are natural numbers; a negative count, which would make `math.log10` raise, is not modelled.
- `check_energy` on a stored value that is not an integer (which would raise in `int(...)`) is not modelled: the store holds integers only.
- RecSys.GetRecommendations: `limit` is a natural number; a negative limit, for which PostgreSQL rejects `LIMIT` with a negative pool size, is not modelled.
- Scheduler.HourProbability: schedule entries are reals; a NULL element of `activity_schedule`, which makes `random.random() < None` raise and discards the whole cycle's pipeline, is not modelled.
- Ranking.CalculateScore: the distance is a real; a NULL `interest_vector`, whose distance is None and makes `1.0 - None` raise at app/modules/recsys/ranking.py:22, is not modelled.
- The worker, the watcher, the API router, security, configuration and the scripts are outside this model.

