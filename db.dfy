/**
 * Setup of the database layer: wires the one-to-many association between
 * the Agent and Metric models and hands back the Agent service built on
 * the Agent model.
 */
module Db {
  import opened AgentStore
  import AgentService

  /** One call on the Metric model; of that model only its association is modelled. */
  datatype MetricCall = BelongsToCall(owner: ModelName)

  /** The Metric model, reduced to the `belongsTo` declaration it receives at setup. */
  class MetricTable {
    ghost var calls: seq<MetricCall>

    constructor ()
      ensures calls == []
    {
      calls := [];
    }

    /** `belongsTo(owner)` */
    method BelongsTo(owner: ModelName)
      modifies this`calls
      ensures calls == old(calls) + [BelongsToCall(owner)]
    {
      calls := calls + [BelongsToCall(owner)];
    }
  }

  /** What setup returns: `db.Agent`. */
  datatype Database = Database(agent: AgentService.Service)

  /**
   * Setup: Agent `hasMany` Metric and Metric `belongsTo` Agent, each
   * declared exactly once and with the other model; then the Agent service
   * over the Agent model. The table's rows are not touched.
   */
  method Setup(agentModel: AgentTable, metricModel: MetricTable) returns (db: Database)
    modifies agentModel`calls, metricModel`calls
    ensures fresh(db.agent) && db.agent.model == agentModel
    ensures agentModel.calls == old(agentModel.calls) + [HasManyCall(MetricModel)]
    ensures metricModel.calls == old(metricModel.calls) + [BelongsToCall(AgentModel)]
  {
    agentModel.HasMany(MetricModel);
    metricModel.BelongsTo(AgentModel);
    var agent := new AgentService.Service(agentModel);
    db := Database(agent);
  }
}
