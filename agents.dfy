/**
 * The Agent record of the agents table and the queries the Agent service
 * issues against it: lookup by surrogate id, lookup by a `where` shape
 * (`findOne`) and filtering by a `where` shape (`findAll`).
 */
module Agents {
  import opened Wrappers

  /** One row of the agents table; `id` is the surrogate identity assigned by the store. */
  datatype Agent = Agent(id: nat, uuid: string, name: string, username: string,
                         hostname: string, pid: int, connected: bool)

  /** What a caller hands to `create` / `update`: every column except the store-assigned `id`. */
  datatype AgentAttrs = AgentAttrs(uuid: string, name: string, username: string,
                                   hostname: string, pid: int, connected: bool)

  function AttrsOf(a: Agent): AgentAttrs
  {
    AgentAttrs(a.uuid, a.name, a.username, a.hostname, a.pid, a.connected)
  }

  /** The row the store materialises from `attrs` under the surrogate identity `id`. */
  function WithId(id: nat, attrs: AgentAttrs): (a: Agent)
    ensures a.id == id && AttrsOf(a) == attrs
  {
    Agent(id, attrs.uuid, attrs.name, attrs.username, attrs.hostname, attrs.pid, attrs.connected)
  }

  /**
   * The `where` shapes the service passes to the store: none at all
   * (`findAll()`), `{uuid}`, `{connected}` and `{username, connected}`.
   */
  datatype Where =
    | Everything
    | ByUuid(uuid: string)
    | ByConnected(connected: bool)
    | ByUsernameConnected(username: string, connected: bool)

  predicate Matches(a: Agent, w: Where)
  {
    match w
    case Everything => true
    case ByUuid(u) => a.uuid == u
    case ByConnected(c) => a.connected == c
    case ByUsernameConnected(u, c) => a.username == u && a.connected == c
  }

  /** `findAll({where: w})`: the rows matching `w`, in table order. */
  function Select(rows: seq<Agent>, w: Where): (r: seq<Agent>)
    ensures |r| <= |rows|
    ensures forall a :: a in r <==> a in rows && Matches(a, w)
  {
    if rows == [] then []
    else if Matches(rows[0], w) then [rows[0]] + Select(rows[1..], w)
    else Select(rows[1..], w)
  }

  /** `findOne({where: w})`: the first row matching `w`, if there is one. */
  function FindOne(rows: seq<Agent>, w: Where): (r: Option<Agent>)
    ensures r.Some? ==> r.value in rows && Matches(r.value, w)
    ensures r.None? <==> forall i :: 0 <= i < |rows| ==> !Matches(rows[i], w)
  {
    var found := Select(rows, w);
    if found == [] then None else Some(found[0])
  }

  /** `findById(id)`: the first row whose surrogate identity is `id`, if there is one. */
  function FindById(rows: seq<Agent>, id: nat): (r: Option<Agent>)
    ensures r.Some? ==> r.value in rows && r.value.id == id
    ensures r.None? <==> forall i :: 0 <= i < |rows| ==> rows[i].id != id
  {
    if rows == [] then None
    else if rows[0].id == id then Some(rows[0])
    else FindById(rows[1..], id)
  }

  /** The table's `uuid UNIQUE` constraint. */
  predicate UniqueUuids(rows: seq<Agent>)
  {
    forall i, j :: 0 <= i < j < |rows| ==> rows[i].uuid != rows[j].uuid
  }

  /** Surrogate identities are never shared between rows. */
  predicate UniqueIds(rows: seq<Agent>)
  {
    forall i, j :: 0 <= i < j < |rows| ==> rows[i].id != rows[j].id
  }

  /** An unfiltered `findAll()` returns every stored agent, in order. */
  lemma {:induction false} SelectEverything(rows: seq<Agent>)
    ensures Select(rows, Everything) == rows
  {
    if rows != [] {
      SelectEverything(rows[1..]);
      assert rows == [rows[0]] + rows[1..];
    }
  }

  /**
   * The username query is the connected query narrowed further:
   * `findByUsername` results are exactly those `findConnected` results
   * that carry the username, in the same order.
   */
  lemma {:induction false} SelectUsernameWithinConnected(rows: seq<Agent>, u: string, c: bool)
    ensures Select(rows, ByUsernameConnected(u, c))
         == Select(Select(rows, ByConnected(c)), ByUsernameConnected(u, c))
  {
    if rows != [] {
      SelectUsernameWithinConnected(rows[1..], u, c);
      if rows[0].connected == c {
        var rest := Select(rows[1..], ByConnected(c));
        assert ([rows[0]] + rest)[1..] == rest;
      }
    }
  }

  /** The distinct stored agents that match `w`. */
  function MatchingAgents(rows: seq<Agent>, w: Where): set<Agent>
  {
    set a | a in rows && Matches(a, w)
  }

  /** Dropping the first row keeps ids distinct, and that row does not recur. */
  lemma TailUniqueIds(rows: seq<Agent>)
    requires rows != [] && UniqueIds(rows)
    ensures UniqueIds(rows[1..]) && rows[0] !in rows[1..]
  {
    var tail := rows[1..];
    forall i, j | 0 <= i < j < |tail| ensures tail[i].id != tail[j].id {
      assert tail[i] == rows[i + 1] && tail[j] == rows[j + 1];
    }
    forall i | 0 <= i < |tail| ensures tail[i] != rows[0] {
      assert tail[i] == rows[i + 1];
    }
  }

  /** The matching agents of a table are those of its tail plus, if it matches, its first row. */
  lemma MatchingAgentsUnfold(rows: seq<Agent>, w: Where)
    requires rows != []
    ensures MatchingAgents(rows, w)
         == MatchingAgents(rows[1..], w) + (if Matches(rows[0], w) then {rows[0]} else {})
  {
    assert rows == [rows[0]] + rows[1..];
  }

  /** With distinct ids, a filtered result is as long as the set of distinct matching agents. */
  lemma {:induction false} SelectCountsMatching(rows: seq<Agent>, w: Where)
    requires UniqueIds(rows)
    ensures |Select(rows, w)| == |MatchingAgents(rows, w)|
  {
    if rows != [] {
      TailUniqueIds(rows);
      SelectCountsMatching(rows[1..], w);
      MatchingAgentsUnfold(rows, w);
      assert rows[0] !in MatchingAgents(rows[1..], w);
    }
  }

  /**
   * A filtered result never repeats an agent, so its length is the number
   * of distinct stored agents that match: same count and same contents.
   */
  lemma {:induction false} SelectKeepsUniqueIds(rows: seq<Agent>, w: Where)
    requires UniqueIds(rows)
    ensures UniqueIds(Select(rows, w))
    ensures |Select(rows, w)| == |MatchingAgents(rows, w)|
  {
    SelectCountsMatching(rows, w);
    if rows != [] {
      var tail := rows[1..];
      TailUniqueIds(rows);
      SelectKeepsUniqueIds(tail, w);
      if Matches(rows[0], w) {
        var rest := Select(tail, w);
        forall k | 0 <= k < |rest| ensures rest[k].id != rows[0].id {
          assert rest[k] in tail;
          var i :| 0 <= i < |tail| && tail[i] == rest[k];
          assert rows[i + 1] == rest[k];
        }
      }
    }
  }

  /** Under the unique constraint `findOne({where: {uuid}})` can match at most one row. */
  lemma {:induction false} SelectByUuidAtMostOne(rows: seq<Agent>, u: string)
    requires UniqueUuids(rows)
    ensures |Select(rows, ByUuid(u))| <= 1
  {
    if rows != [] {
      assert UniqueUuids(rows[1..]) by {
        forall i, j | 0 <= i < j < |rows[1..]| ensures rows[1..][i].uuid != rows[1..][j].uuid {
          assert rows[1..][i] == rows[i + 1] && rows[1..][j] == rows[j + 1];
        }
      }
      SelectByUuidAtMostOne(rows[1..], u);
      if rows[0].uuid == u {
        forall i | 0 <= i < |rows[1..]| ensures !Matches(rows[1..][i], ByUuid(u)) {
          assert rows[1..][i] == rows[i + 1];
        }
        assert FindOne(rows[1..], ByUuid(u)).None?;
      }
    }
  }

  /** Under the unique constraint the row found by uuid is THE row with that uuid. */
  lemma FindOneByUuid(rows: seq<Agent>, a: Agent)
    requires UniqueUuids(rows) && a in rows
    ensures FindOne(rows, ByUuid(a.uuid)) == Some(a)
  {
  }

  /** With distinct surrogate identities, `findById(a.id)` returns `a` itself. */
  lemma FindByIdUnique(rows: seq<Agent>, a: Agent)
    requires UniqueIds(rows) && a in rows
    ensures FindById(rows, a.id) == Some(a)
  {
  }
}
