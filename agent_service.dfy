/**
 * The Agent service built on the Agent model: five read operations, each a
 * single store call, and `createOrUpdate`, a find-or-create upsert keyed on
 * the agent's uuid.
 */
module AgentService {
  import opened Wrappers
  import opened Agents
  import opened AgentStore

  /**
   * The outcome `createOrUpdate(attrs)` must produce, stated on the table's
   * value: an agent with `attrs.uuid` is overwritten in place under its own
   * id; otherwise a new row is appended under the next id.
   */
  function Upsert(t: Table, attrs: AgentAttrs): (r: (Table, Agent))
    ensures AttrsOf(r.1) == attrs
    ensures |t.rows| <= |r.0.rows|
    ensures forall i :: 0 <= i < |t.rows| ==>
              r.0.rows[i].id == t.rows[i].id && r.0.rows[i].uuid == t.rows[i].uuid
    ensures FindOne(t.rows, ByUuid(attrs.uuid)).Some? ==>
              r.0.nextId == t.nextId && |r.0.rows| == |t.rows|
              && r.1.id == FindOne(t.rows, ByUuid(attrs.uuid)).value.id
    ensures FindOne(t.rows, ByUuid(attrs.uuid)).None? ==>
              r.0.nextId == t.nextId + 1 && r.0.rows == t.rows + [r.1] && r.1.id == t.nextId
  {
    match FindOne(t.rows, ByUuid(attrs.uuid))
    case Some(existing) =>
      (Table(Replace(t.rows, ByUuid(attrs.uuid), attrs), t.nextId), WithId(existing.id, attrs))
    case None =>
      var a := WithId(t.nextId, attrs);
      (Table(t.rows + [a], t.nextId + 1), a)
  }

  /** An upsert keeps the table's invariant: uuids and ids stay unique. */
  lemma UpsertKeepsWellFormed(t: Table, attrs: AgentAttrs)
    requires WellFormed(t)
    ensures WellFormed(Upsert(t, attrs).0)
  {
  }

  /** Read-after-write: afterwards `findByUuid(attrs.uuid)` returns the returned record. */
  lemma UpsertReadAfterWrite(t: Table, attrs: AgentAttrs)
    requires WellFormed(t)
    ensures FindOne(Upsert(t, attrs).0.rows, ByUuid(attrs.uuid)) == Some(Upsert(t, attrs).1)
  {
    var (r, a) := Upsert(t, attrs);
    UpsertKeepsWellFormed(t, attrs);
    match FindOne(t.rows, ByUuid(attrs.uuid))
    case Some(existing) =>
      var i :| 0 <= i < |t.rows| && t.rows[i] == existing;
      assert r.rows[i] == a;
      FindOneByUuid(r.rows, a);
    case None =>
      assert r.rows[|t.rows|] == a;
      FindOneByUuid(r.rows, a);
  }

  /** Agents with another uuid are neither changed, removed nor added. */
  lemma UpsertLeavesOthers(t: Table, attrs: AgentAttrs)
    ensures forall a: Agent :: a.uuid != attrs.uuid ==> (a in t.rows <==> a in Upsert(t, attrs).0.rows)
  {
  }

  /** Calling `createOrUpdate` twice with the same attributes changes nothing the second time. */
  lemma UpsertIdempotent(t: Table, attrs: AgentAttrs)
    requires WellFormed(t)
    ensures Upsert(Upsert(t, attrs).0, attrs) == Upsert(t, attrs)
  {
    var (r, a) := Upsert(t, attrs);
    UpsertKeepsWellFormed(t, attrs);
    UpsertReadAfterWrite(t, attrs);
    var j :| 0 <= j < |r.rows| && r.rows[j] == a;
    forall i | 0 <= i < |r.rows| && Matches(r.rows[i], ByUuid(attrs.uuid))
      ensures AttrsOf(r.rows[i]) == attrs
    {
      assert i == j;
    }
    ReplaceUnchanged(r.rows, ByUuid(attrs.uuid), attrs);
    assert WithId(a.id, attrs) == a;
  }

  /** The table after a sequence of `createOrUpdate` calls, applied in order. */
  function UpsertAll(t: Table, batch: seq<AgentAttrs>): Table
    decreases |batch|
  {
    if batch == [] then t else UpsertAll(Upsert(t, batch[0]).0, batch[1..])
  }

  /**
   * Convergence: after any non-empty sequence of upserts sharing one uuid,
   * exactly one row carries that uuid and it holds the last attributes applied.
   */
  lemma {:induction false} UpsertAllConverges(t: Table, batch: seq<AgentAttrs>, u: string)
    requires WellFormed(t) && |batch| > 0
    requires forall k :: 0 <= k < |batch| ==> batch[k].uuid == u
    decreases |batch|
    ensures WellFormed(UpsertAll(t, batch))
    ensures |Select(UpsertAll(t, batch).rows, ByUuid(u))| == 1
    ensures AttrsOf(Select(UpsertAll(t, batch).rows, ByUuid(u))[0]) == batch[|batch| - 1]
  {
    var next := Upsert(t, batch[0]).0;
    var rest := batch[1..];
    assert UpsertAll(t, batch) == UpsertAll(next, rest);
    if rest == [] {
      UpsertKeepsWellFormed(t, batch[0]);
      UpsertReadAfterWrite(t, batch[0]);
      SelectByUuidAtMostOne(next.rows, u);
    } else {
      assert rest[|rest| - 1] == batch[|batch| - 1];
      assert forall k :: 0 <= k < |rest| ==> rest[k] == batch[k + 1];
      UpsertKeepsWellFormed(t, batch[0]);
      UpsertAllConverges(next, rest, u);
    }
  }

  /** The Agent service: `db.Agent`, holding the Agent model it was set up with. */
  class Service {
    const model: AgentTable

    constructor (model: AgentTable)
      ensures this.model == model
    {
      this.model := model;
    }

    /** `findById(id)`: one `findById` call with `id`. */
    method FindById(id: nat) returns (r: Option<Agent>)
      modifies model`calls
      ensures r == Agents.FindById(model.rows, id)
      ensures model.calls == old(model.calls) + [FindByIdCall(id)]
    {
      r := model.FindById(id);
    }

    /** `findByUuid(uuid)`: one `findOne({where: {uuid}})` call. */
    method FindByUuid(uuid: string) returns (r: Option<Agent>)
      modifies model`calls
      ensures r == FindOne(model.rows, ByUuid(uuid))
      ensures model.calls == old(model.calls) + [FindOneCall(ByUuid(uuid))]
    {
      r := model.FindOne(ByUuid(uuid));
    }

    /** `findAll()`: one unfiltered `findAll()` call, returning every agent. */
    method FindAll() returns (r: seq<Agent>)
      modifies model`calls
      ensures r == model.rows
      ensures model.calls == old(model.calls) + [FindAllCall(Everything)]
    {
      r := model.FindAll(Everything);
      SelectEverything(model.rows);
    }

    /** `findConnected()`: one `findAll({where: {connected: true}})` call. */
    method FindConnected() returns (r: seq<Agent>)
      modifies model`calls
      ensures r == Select(model.rows, ByConnected(true))
      ensures forall a :: a in r <==> a in model.rows && a.connected
      ensures model.calls == old(model.calls) + [FindAllCall(ByConnected(true))]
    {
      r := model.FindAll(ByConnected(true));
    }

    /** `findByUsername(username)`: one `findAll({where: {username, connected: true}})` call. */
    method FindByUsername(username: string) returns (r: seq<Agent>)
      modifies model`calls
      ensures r == Select(model.rows, ByUsernameConnected(username, true))
      ensures forall a :: a in r <==> a in model.rows && a.username == username && a.connected
      ensures model.calls == old(model.calls) + [FindAllCall(ByUsernameConnected(username, true))]
    {
      r := model.FindAll(ByUsernameConnected(username, true));
    }

    /**
     * `createOrUpdate(attrs)`: `findOne` by uuid; when found, `update` keyed
     * on that uuid and a second `findOne` that re-reads the row; otherwise
     * `create` with exactly `attrs`.
     */
    method CreateOrUpdate(attrs: AgentAttrs) returns (agent: Agent)
      requires model.Valid()
      modifies model
      ensures model.Valid()
      ensures (model.State(), agent) == Upsert(old(model.State()), attrs)
      ensures old(FindOne(model.rows, ByUuid(attrs.uuid))).Some? ==>
                model.calls == old(model.calls) + [FindOneCall(ByUuid(attrs.uuid))]
                  + [UpdateCall(attrs, ByUuid(attrs.uuid))] + [FindOneCall(ByUuid(attrs.uuid))]
      ensures old(FindOne(model.rows, ByUuid(attrs.uuid))).None? ==>
                model.calls == old(model.calls) + [FindOneCall(ByUuid(attrs.uuid))]
                  + [CreateCall(attrs)]
    {
      ghost var t := model.State();
      ghost var expected := Upsert(t, attrs);
      UpsertKeepsWellFormed(t, attrs);
      UpsertReadAfterWrite(t, attrs);
      var cond := ByUuid(attrs.uuid);
      var existing := model.FindOne(cond);
      if existing.Some? {
        assert expected.0 == Table(Replace(t.rows, cond, attrs), t.nextId);
        var updated := model.Update(attrs, cond);
        assert updated.Ok? && model.State() == expected.0;
        var again := model.FindOne(cond);
        agent := again.value;
      } else {
        var created := model.Create(attrs);
        assert created.Ok? && created.value == expected.1;
        agent := created.value;
      }
    }
  }
}
