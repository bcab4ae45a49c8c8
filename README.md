# platziverse Agent service — a verified model

This project models the Agent service of the `platziverse-db` package, the persistence layer of a
fleet-telemetry platform. The service keeps one row per monitored agent (`id`, `uuid`, `name`,
`username`, `hostname`, `pid`, `connected`). It answers five read queries and offers one
find-or-create upsert, `createOrUpdate`, keyed on the agent's `uuid`.

The service source is not part of this model. Its behaviour is fixed by the test suite
`platziverse-db/tests/agent-tests.js`. That suite stubs the ORM model (`findById`, `findOne`,
`findAll`, `update`, `create`, `hasMany`) and asserts three things for each service operation: which
store call it makes, with which `where` shape, and how often, plus the value it returns. The model
has two layers:

- **The agents table** (`AgentStore.AgentTable`). This class stands for the ORM model. It holds the
  rows, the next surrogate id, and a ghost log of every call made on it, with the call's arguments.
  "Called once, with `{where: {uuid}}`" then reads as an exact statement about how the log grows.
  `create` and `update` enforce the schema's `uuid UNIQUE` constraint by returning
  `DuplicateUuid` instead of writing.
- **The Agent service** (`AgentService.Service`). Its methods call the table exactly as the test
  expects. `CreateOrUpdate` is proved against `Upsert`, a reference definition on table values.
  Lemmas about `Upsert` prove the rest: the invariant is kept, a read after the write finds the
  record, agents with other uuids are untouched, the call is idempotent, and repeated upserts on one
  uuid converge to one row.

`Agents` holds the record and the queries as pure functions (`Select` for `findAll`, `FindOne`,
`FindById`). `Db.Setup` wires the Agent–Metric association. `Scenarios` replays each test case as
a client method whose assertions follow from the contracts alone.

Deliberate choices:
- `findByUsername` filters on `connected = true` as well as on the username. This follows the
  `where` shape `{username, connected: true}` that `agent-tests.js:31` expects.
- `createOrUpdate` takes complete attribute records, which is what every call in
  `agent-tests.js:159-182` passes. Updating only some fields is not modelled.

## Model

| member | source | states |
|---|---|---|
| Agents.Select | platziverse-db/tests/agent-tests.js:70-74 | `findAll` with a `where`: an agent is in the result exactly when it is stored and matches the shape; the result is never longer than the table |
| Agents.FindOne | platziverse-db/tests/agent-tests.js:66-68 | `findOne`: a found record is stored and matches the `where`; nothing is found exactly when no stored agent matches |
| Agents.FindById | platziverse-db/tests/agent-tests.js:62-64 | `findById`: a found record is stored and has that id; nothing is found exactly when no stored agent has that id |
| Agents.SelectEverything | platziverse-db/tests/agent-tests.js:124-132 | an unfiltered `findAll()` returns every stored agent, in order |
| Agents.SelectUsernameWithinConnected | platziverse-db/tests/agent-tests.js:30-35 | the username query's result is the connected query's result narrowed to that username, so disconnected agents with the username are excluded |
| Agents.SelectKeepsUniqueIds | platziverse-db/tests/agent-tests.js:142-143 | with distinct ids in the table, a filtered result repeats no id, and its length equals the number of distinct stored agents that match |
| Agents.SelectCountsMatching | platziverse-db/tests/agent-tests.js:142 | with distinct ids in the table, a filtered result is exactly as long as the set of distinct stored agents that match, which is the count half of "same amount and same agents" |
| Agents.SelectByUuidAtMostOne | platziverse-db/tests/agent-tests.js:25-29 | under the unique constraint, the `{where: {uuid}}` shape matches at most one row |
| Agents.FindOneByUuid | platziverse-db/tests/agent-tests.js:113-121 | under the unique constraint, `findOne` by uuid returns the stored agent with that uuid |
| Agents.FindByIdUnique | platziverse-db/tests/agent-tests.js:102-110 | with distinct ids, `findById(a.id)` returns the stored agent `a` |
| AgentStore.Replace | platziverse-db/tests/agent-tests.js:58-60 | `update(attrs, {where})` on the rows: same length, every id kept, matching rows take `attrs`, the other rows are unchanged |
| AgentStore.ReplaceUnchanged | platziverse-db/tests/agent-tests.js:159-166 | an update writing values the matching rows already hold leaves the rows as they are |
| AgentStore.AgentTable.constructor | platziverse-db/tests/agent-tests.js:44-83 | a model holding the given well-formed rows, with an empty call history |
| AgentStore.AgentTable.FindById | platziverse-db/tests/agent-tests.js:62-64 | returns the lookup by id and logs one `findById(id)` call; the rows do not change |
| AgentStore.AgentTable.FindOne | platziverse-db/tests/agent-tests.js:66-68 | returns the first match and logs one `findOne({where})` call; the rows do not change |
| AgentStore.AgentTable.FindAll | platziverse-db/tests/agent-tests.js:70-74 | returns the filtered rows and logs one `findAll` call with its `where`; the rows do not change |
| AgentStore.AgentTable.Update | platziverse-db/tests/agent-tests.js:58-60 | overwrites the matching rows and returns how many there were, or fails without writing when uuids would clash; logs one `update(attrs, {where})` call; the invariant and next id are kept |
| AgentStore.AgentTable.Create | platziverse-db/tests/agent-tests.js:52-56 | appends `attrs` under the next id and returns that row, or fails without writing when the uuid is taken; logs one `create(attrs)` call |
| AgentStore.AgentTable.HasMany | platziverse-db/tests/agent-tests.js:47-50 | logs one `hasMany(target)` call |
| AgentService.Upsert | platziverse-db/tests/agent-tests.js:159-182 | the returned record carries exactly `attrs`; old rows keep their place, id and uuid; a known uuid keeps its id and the table size, an unknown one is appended under the next id |
| AgentService.UpsertKeepsWellFormed | platziverse-db/tests/agent-tests.js:159-182 | after an upsert, uuids and ids are still unique and every id lies below the next id |
| AgentService.UpsertReadAfterWrite | platziverse-db/tests/agent-tests.js:159-166 | after an upsert, `findOne` by the uuid returns the returned record |
| AgentService.UpsertLeavesOthers | platziverse-db/tests/agent-tests.js:159-182 | an agent with another uuid is stored after the upsert exactly when it was stored before |
| AgentService.UpsertIdempotent | platziverse-db/tests/agent-tests.js:159-166 | a second upsert with the same attributes yields the same table and the same record |
| AgentService.UpsertAllConverges | platziverse-db/tests/agent-tests.js:159-182 | after any non-empty run of upserts on one uuid: the table is well formed, exactly one row has that uuid, and it holds the last attributes applied |
| AgentService.Service.constructor | platziverse-db/tests/agent-tests.js:76-82 | the service is built on the given Agent model |
| AgentService.Service.FindById | platziverse-db/tests/agent-tests.js:102-110 | one `findById` call, with that id; returns the record with that id |
| AgentService.Service.FindByUuid | platziverse-db/tests/agent-tests.js:113-121 | one `findOne` call, with `{where: {uuid}}`; returns the record with that uuid |
| AgentService.Service.FindAll | platziverse-db/tests/agent-tests.js:124-132 | one unfiltered `findAll` call; returns every stored agent |
| AgentService.Service.FindConnected | platziverse-db/tests/agent-tests.js:135-144 | one `findAll` call, with `{where: {connected: true}}`; returns exactly the connected agents |
| AgentService.Service.FindByUsername | platziverse-db/tests/agent-tests.js:147-156 | one `findAll` call, with `{where: {username, connected: true}}`; returns exactly the connected agents with that username |
| AgentService.Service.CreateOrUpdate | platziverse-db/tests/agent-tests.js:159-182 | new state and result equal `Upsert`'s; a known uuid logs `findOne`, `update` keyed on the uuid, then `findOne`; an unknown uuid logs `findOne` by uuid, then `create(attrs)` |
| Db.MetricTable.constructor | platziverse-db/tests/agent-tests.js:13-15 | a Metric model with no calls recorded |
| Db.MetricTable.BelongsTo | platziverse-db/tests/agent-tests.js:13-15 | logs one `belongsTo(owner)` call |
| Db.Setup | platziverse-db/tests/agent-tests.js:94-99 | Agent `hasMany(Metric)` and Metric `belongsTo(Agent)` are each called once, with the other model; returns a service over the Agent model |
| Scenarios.SetUp | platziverse-db/tests/agent-tests.js:44-83 | a fresh table holding the stand-in fixtures, with setup's `hasMany` call as its only logged call |

## Left out

- Metric service (`Metric.create`, `findByAgentUuid`, `findByTypeAgentUuid`): its source is not part of this model and the example driver asserts no outcome for these calls. Only the Metric model's `belongsTo` declaration is modelled.
- Bootstrap's store configuration, connection, driver selection and logging: foreign I/O. `Db.Setup` receives the two models directly.
- Asynchrony, promises, `toJSON` and the test doubles' own mechanics: results are plain values. The `sinon` call history becomes the ghost `calls` log, and a sandbox reset becomes a fresh log.
- Concurrency: the table is a single sequential store, so the race between two concurrent upserts is not modelled.
- `ValidationError` for a missing `uuid`: the suite never exercises it. `uuid` is a required field of `AgentAttrs`.
- `StoreError` for connection loss or I/O failure: foreign I/O. The only store failure modelled is the unique-uuid violation.
- AgentService.Service.CreateOrUpdate: it takes complete attribute records. A partial update that leaves absent fields in place is not modelled, because the suite only passes complete records.
- A `update` result that reports no row as changed: in the model an update keyed on a uuid that was just found always succeeds, so no separate path returns the first lookup's record.
- The contents of `fixtures/agent.js` are not part of this model. `Scenarios` uses stand-in rows that share the uuid `yyy-yyy-yyy`, the id 1 and the username `platzi` with the test.
- The MQTT server and the example driver: event plumbing and console output with no logic to state.
