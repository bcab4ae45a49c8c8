/**
 * The in-memory agents table that stands for the ORM model the Agent
 * service is built on: its rows, the next surrogate identity it will
 * assign, and a ghost log of every call made on it, so that "called once,
 * with these arguments" can be stated about the service.
 */
module AgentStore {
  import opened Wrappers
  import opened Agents

  /** The abstract state of the table. */
  datatype Table = Table(rows: seq<Agent>, nextId: nat)

  /** The table's invariant: unique uuids, unique ids, and every id already handed out. */
  predicate WellFormed(t: Table)
  {
    UniqueUuids(t.rows) && UniqueIds(t.rows)
    && forall i :: 0 <= i < |t.rows| ==> t.rows[i].id < t.nextId
  }

  /** A write the store refuses because it would break `uuid UNIQUE`. */
  datatype StoreError = DuplicateUuid(uuid: string)

  /** The two models wired together at setup. */
  datatype ModelName = AgentModel | MetricModel

  /** One call on the Agent model, with its arguments. */
  datatype StoreCall =
    | FindByIdCall(id: nat)
    | FindOneCall(where: Where)
    | FindAllCall(where: Where)
    | UpdateCall(attrs: AgentAttrs, where: Where)
    | CreateCall(attrs: AgentAttrs)
    | HasManyCall(target: ModelName)

  /** `update(attrs, {where: w})` on the rows: every matching row takes `attrs` and keeps its id. */
  function Replace(rows: seq<Agent>, w: Where, attrs: AgentAttrs): (r: seq<Agent>)
    ensures |r| == |rows|
    ensures forall i :: 0 <= i < |rows| ==> r[i].id == rows[i].id
    ensures forall i :: 0 <= i < |rows| && Matches(rows[i], w) ==> AttrsOf(r[i]) == attrs
    ensures forall i :: 0 <= i < |rows| && !Matches(rows[i], w) ==> r[i] == rows[i]
  {
    if rows == [] then []
    else
      var head := if Matches(rows[0], w) then WithId(rows[0].id, attrs) else rows[0];
      [head] + Replace(rows[1..], w, attrs)
  }

  /** Re-applying values a row already holds leaves the table as it is. */
  lemma ReplaceUnchanged(rows: seq<Agent>, w: Where, attrs: AgentAttrs)
    requires forall i :: 0 <= i < |rows| && Matches(rows[i], w) ==> AttrsOf(rows[i]) == attrs
    ensures Replace(rows, w, attrs) == rows
  {
  }

  class AgentTable {
    var rows: seq<Agent>
    var nextId: nat
    /** Every call made on this model, oldest first. */
    ghost var calls: seq<StoreCall>

    function State(): Table
      reads this
    {
      Table(rows, nextId)
    }

    ghost predicate Valid()
      reads this
    {
      WellFormed(State())
    }

    /** A table holding `rows`, with an empty call history. */
    constructor (rows: seq<Agent>, nextId: nat)
      requires WellFormed(Table(rows, nextId))
      ensures Valid() && this.rows == rows && this.nextId == nextId && calls == []
    {
      this.rows := rows;
      this.nextId := nextId;
      calls := [];
    }

    /** `findById(id)` */
    method FindById(id: nat) returns (r: Option<Agent>)
      modifies this`calls
      ensures r == Agents.FindById(rows, id)
      ensures calls == old(calls) + [FindByIdCall(id)]
    {
      r := Agents.FindById(rows, id);
      calls := calls + [FindByIdCall(id)];
    }

    /** `findOne({where: w})` */
    method FindOne(w: Where) returns (r: Option<Agent>)
      modifies this`calls
      ensures r == Agents.FindOne(rows, w)
      ensures calls == old(calls) + [FindOneCall(w)]
    {
      r := Agents.FindOne(rows, w);
      calls := calls + [FindOneCall(w)];
    }

    /** `findAll()` when `w` is `Everything`, `findAll({where: w})` otherwise. */
    method FindAll(w: Where) returns (r: seq<Agent>)
      modifies this`calls
      ensures r == Select(rows, w)
      ensures calls == old(calls) + [FindAllCall(w)]
    {
      r := Select(rows, w);
      calls := calls + [FindAllCall(w)];
    }

    /**
     * `update(attrs, {where: w})`: overwrites every matching row and
     * returns how many rows it touched, or refuses the whole write when it
     * would give two rows the same uuid.
     */
    method Update(attrs: AgentAttrs, w: Where) returns (r: Result<nat, StoreError>)
      requires Valid()
      modifies this
      ensures Valid() && nextId == old(nextId)
      ensures calls == old(calls) + [UpdateCall(attrs, w)]
      ensures r.Err? <==> !UniqueUuids(Replace(old(rows), w, attrs))
      ensures r.Ok? ==> rows == Replace(old(rows), w, attrs) && r.value == |Select(old(rows), w)|
      ensures r.Err? ==> rows == old(rows)
    {
      var updated := Replace(rows, w, attrs);
      if UniqueUuids(updated) {
        r := Ok(|Select(rows, w)|);
        rows := updated;
      } else {
        r := Err(DuplicateUuid(attrs.uuid));
      }
      calls := calls + [UpdateCall(attrs, w)];
    }

    /**
     * `create(attrs)`: appends a row under the next surrogate identity and
     * returns it, or refuses when an agent with that uuid already exists.
     */
    method Create(attrs: AgentAttrs) returns (r: Result<Agent, StoreError>)
      requires Valid()
      modifies this
      ensures Valid()
      ensures calls == old(calls) + [CreateCall(attrs)]
      ensures r.Err? <==> Agents.FindOne(old(rows), ByUuid(attrs.uuid)).Some?
      ensures r.Ok? ==> r.value == WithId(old(nextId), attrs)
                        && rows == old(rows) + [r.value] && nextId == old(nextId) + 1
      ensures r.Err? ==> rows == old(rows) && nextId == old(nextId)
    {
      if Agents.FindOne(rows, ByUuid(attrs.uuid)).Some? {
        r := Err(DuplicateUuid(attrs.uuid));
      } else {
        var a := WithId(nextId, attrs);
        rows := rows + [a];
        nextId := nextId + 1;
        r := Ok(a);
      }
      calls := calls + [CreateCall(attrs)];
    }

    /** `hasMany(target)`: declares the association; only the call itself is recorded. */
    method HasMany(target: ModelName)
      modifies this`calls
      ensures calls == old(calls) + [HasManyCall(target)]
    {
      calls := calls + [HasManyCall(target)];
    }
  }
}
