/**
 * Clients of the model that replay the Agent test suite: each method sets
 * up a fresh table as the test's `beforeEach` does and proves, from the
 * contracts alone, what the corresponding test asserts about the store
 * calls made and the value returned. The rows stand in for the agent
 * fixtures, which are not part of this model; only the uuid
 * "yyy-yyy-yyy", the id 1 and the username "platzi" come from the test.
 */
module Scenarios {
  import opened Wrappers
  import opened Agents
  import opened AgentStore
  import opened Db

  function Single(): Agent
  {
    Agent(1, "yyy-yyy-yyy", "fixture", "platzi", "test-host", 0, true)
  }

  function Fixtures(): seq<Agent>
  {
    [ Single(),
      Agent(2, "vvv-vvv-vvv", "fixture", "platzi", "test-host", 0, false),
      Agent(3, "xxx-xxx-xxx", "fixture", "test", "test-host", 0, true) ]
  }

  function NewAgent(): AgentAttrs
  {
    AgentAttrs("123-123-123", "test", "test", "test", 0, false)
  }

  /** `beforeEach`: the fixture table, wired by setup. */
  method SetUp() returns (table: AgentTable, db: Database)
    ensures fresh(table) && fresh(db.agent) && db.agent.model == table
    ensures table.Valid() && table.State() == Table(Fixtures(), 4)
    ensures table.calls == [HasManyCall(MetricModel)]
  {
    table := new AgentTable(Fixtures(), 4);
    var metric := new MetricTable();
    db := Setup(table, metric);
    assert metric.calls == [BelongsToCall(AgentModel)];
  }

  method FindByIdScenario()
  {
    var table, db := SetUp();
    var agent := db.agent.FindById(1);
    assert table.calls == [HasManyCall(MetricModel), FindByIdCall(1)];
    assert agent == Some(Single());
  }

  method FindByUuidScenario()
  {
    var table, db := SetUp();
    var agent := db.agent.FindByUuid("yyy-yyy-yyy");
    assert table.calls == [HasManyCall(MetricModel), FindOneCall(ByUuid("yyy-yyy-yyy"))];
    FindOneByUuid(table.rows, Single());
    assert agent == Some(Single());
  }

  method FindAllScenario()
  {
    var table, db := SetUp();
    var agents := db.agent.FindAll();
    assert table.calls == [HasManyCall(MetricModel), FindAllCall(Everything)];
    assert agents == Fixtures();
  }

  method FindConnectedScenario()
  {
    var table, db := SetUp();
    var agents := db.agent.FindConnected();
    assert table.calls == [HasManyCall(MetricModel), FindAllCall(ByConnected(true))];
    assert agents == [Fixtures()[0], Fixtures()[2]];
  }

  method FindByUsernameScenario()
  {
    var table, db := SetUp();
    var agents := db.agent.FindByUsername("platzi");
    assert table.calls == [HasManyCall(MetricModel), FindAllCall(ByUsernameConnected("platzi", true))];
    assert agents == [Single()];
  }

  method CreateOrUpdateExistingScenario()
  {
    var table, db := SetUp();
    var attrs := AttrsOf(Single());
    assert FindOne(table.rows, ByUuid(attrs.uuid)) == Some(Single());
    var agent := db.agent.CreateOrUpdate(attrs);
    assert table.calls == [HasManyCall(MetricModel), FindOneCall(ByUuid("yyy-yyy-yyy")),
                           UpdateCall(attrs, ByUuid("yyy-yyy-yyy")), FindOneCall(ByUuid("yyy-yyy-yyy"))];
    assert agent == Single();
    assert |table.rows| == 3;
  }

  method CreateOrUpdateNewScenario()
  {
    var table, db := SetUp();
    assert FindOne(table.rows, ByUuid("123-123-123")).None? by {
      assert forall i :: 0 <= i < |Fixtures()| ==> Fixtures()[i].uuid != "123-123-123";
    }
    var agent := db.agent.CreateOrUpdate(NewAgent());
    assert table.calls == [HasManyCall(MetricModel), FindOneCall(ByUuid("123-123-123")),
                           CreateCall(NewAgent())];
    assert AttrsOf(agent) == NewAgent() && agent.id == 4;
  }
}
