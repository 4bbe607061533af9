/** The marketplace service state: the agent registry (a dictionary from
    agent id to agent, which remembers insertion order) and the execution
    ledger (a dictionary from agent id to that agent's history), with the
    request handlers that read and change them. */
module Marketplace {
  import opened Types
  import Access
  import Search
  import Ledger

  predicate Distinct(s: seq<string>) {
    forall i, j :: 0 <= i < j < |s| ==> s[i] != s[j]
  }

  /** `s` with `x` taken out, the rest in the same order: what popping a key
      does to a dictionary's iteration order. */
  function Without(s: seq<string>, x: string): (r: seq<string>)
    ensures forall y :: y in r <==> y in s && y != x
    ensures Distinct(s) ==> Distinct(r)
    ensures x !in s ==> r == s
  {
    if s == [] then []
    else
      var rest := Without(s[1..], x);
      assert s == [s[0]] + s[1..];
      assert forall y :: y in s ==> y == s[0] || y in s[1..];
      assert Distinct(s) ==> Distinct(s[1..]) && s[0] !in rest by {
        if Distinct(s) {
          forall i, j | 0 <= i < j < |s[1..]| ensures s[1..][i] != s[1..][j] {
            assert s[1..][i] == s[i + 1] && s[1..][j] == s[j + 1];
          }
        }
      }
      (if s[0] == x then [] else [s[0]]) + rest
  }

  /** Popping a key keeps every other key where it was: the keys before it,
      then the keys after it. */
  lemma {:induction false} WithoutSplice(ys: seq<string>, x: string, zs: seq<string>)
    requires x !in ys && x !in zs
    ensures Without(ys + [x] + zs, x) == ys + zs
  {
    var s := ys + [x] + zs;
    if ys == [] {
      assert s[0] == x && s[1..] == zs;
      assert Without(s, x) == Without(zs, x);
    } else {
      assert s[0] == ys[0] != x && s[1..] == ys[1..] + [x] + zs;
      WithoutSplice(ys[1..], x, zs);
      assert Without(s, x) == [ys[0]] + (ys[1..] + zs);
      assert ys + zs == [ys[0]] + (ys[1..] + zs);
    }
  }

  /** The agents stored under `ids`, in the order of `ids`. */
  function Project(reg: map<string, Agent>, ids: seq<string>): (agents: seq<Agent>)
    requires forall k :: k in ids ==> k in reg
    ensures |agents| == |ids|
  {
    seq(|ids|, i requires 0 <= i < |ids| => reg[ids[i]])
  }

  /** Removing `x` from both the map and the id sequence removes exactly its
      position from the projection. */
  lemma ProjectPop(reg: map<string, Agent>, ys: seq<string>, x: string, zs: seq<string>)
    requires forall k :: k in ys + [x] + zs ==> k in reg
    requires x !in ys && x !in zs
    ensures forall k :: k in ys + zs ==> k in reg - {x}
    ensures Project(reg - {x}, ys + zs) ==
      Project(reg, ys + [x] + zs)[..|ys|] + Project(reg, ys + [x] + zs)[|ys| + 1..]
  {
  }

  /** Popping `x` from a registry and from its distinct iteration order
      removes exactly the position `i` that `x` held, from the order and from
      the listing. */
  lemma PopOrder(reg: map<string, Agent>, ids: seq<string>, x: string) returns (i: nat)
    requires Distinct(ids) && x in ids
    requires forall k :: k in ids ==> k in reg
    ensures i < |ids| && ids[i] == x
    ensures Without(ids, x) == ids[..i] + ids[i + 1..]
    ensures forall k :: k in Without(ids, x) ==> k in reg - {x}
    ensures Project(reg - {x}, Without(ids, x)) == Project(reg, ids)[..i] + Project(reg, ids)[i + 1..]
  {
    i :| 0 <= i < |ids| && ids[i] == x;
    var ys, zs := ids[..i], ids[i + 1..];
    assert ids == ys + [x] + zs;
    assert x !in ys && x !in zs by {
      forall j | 0 <= j < |ids| && j != i ensures ids[j] != x {
      }
    }
    WithoutSplice(ys, x, zs);
    ProjectPop(reg, ys, x, zs);
  }

  class Service {
    /** The API-key table, fixed when the service starts. */
    const apiKeys: map<string, Principal>
    /** `agent_registry`: agent id to agent. */
    var registry: map<string, Agent>
    /** The registry's iteration order: ids in order of registration. */
    var order: seq<string>
    /** `agent_executions`: agent id to that agent's history. */
    var executions: map<string, seq<Execution>>
    /** Every id handed out so far, for agents and for executions. */
    ghost var issued: set<string>

    ghost predicate Valid()
      reads this
    {
      && Distinct(order)
      && (forall k :: k in order <==> k in registry)
      && (forall k :: k in registry ==>
            && registry[k].id == k
            && registry[k].status == ActiveStatus
            && Access.ValidateAuthType(registry[k].reg.authType).Success?)
      && registry.Keys <= issued
      && executions.Keys <= issued
      && Ledger.WellFiled(executions, issued)
    }

    constructor (keys: map<string, Principal>)
      ensures Valid()
      ensures apiKeys == keys && registry == map[] && order == [] && executions == map[]
      ensures issued == {}
    {
      apiKeys := keys;
      registry := map[];
      order := [];
      executions := map[];
      issued := {};
    }

    /** The principal behind an optional `X-API-Key` header. */
    function Caller(apiKey: Option<string>): Result<Principal> {
      Access.ResolvePrincipal(apiKeys, apiKey)
    }

    /** The registered agents in registration order. */
    function Listed(): seq<Agent>
      reads this
      requires Valid()
    {
      Project(registry, order)
    }

    /** Every registered agent is listed once, and nothing else is. */
    lemma ListedIsRegistry()
      requires Valid()
      ensures forall a :: a in Listed() <==> a in registry.Values
      ensures Search.DistinctIds(Listed())
    {
      var l := Listed();
      forall a | a in registry.Values ensures a in l {
        var k :| k in registry && registry[k] == a;
        var i :| 0 <= i < |order| && order[i] == k;
        assert l[i] == a;
      }
    }

    /** `GET /agents/{id}`: the stored agent, or NotFound. */
    function GetAgent(id: string): (r: Result<Agent>)
      reads this
      requires Valid()
      ensures r.Success? <==> id in registry
      ensures r.Success? ==> r.value == registry[id] && r.value.id == id
      ensures r.Failure? ==> r.error == NotFound
    {
      if id in registry then Success(registry[id]) else Failure(NotFound)
    }

    /** `GET /agents`: the agents that pass every given criterion, scanned in
        registration order, with their count. */
    method ListAgents(search: Search.SearchParams) returns (agents: seq<Agent>, count: nat)
      requires Valid()
      ensures agents == Search.Select(Listed(), search)
      ensures forall a :: a in agents <==> a in registry.Values && Search.Matches(a, search)
      ensures Search.DistinctIds(agents)
      ensures count == |agents|
    {
      agents := [];
      var i := 0;
      while i < |order|
        invariant 0 <= i <= |order|
        invariant agents == Search.Select(Listed()[..i], search)
      {
        var agent := registry[order[i]];
        i := i + 1;
        assert Listed()[..i][..i - 1] == Listed()[..i - 1];
        if !Search.CapabilityCriterion(agent, search) {
          continue;
        }
        if !Search.TagCriterion(agent, search) {
          continue;
        }
        if !Search.AuthorCriterion(agent, search) {
          continue;
        }
        if !Search.PricingCriterion(agent, search) {
          continue;
        }
        if !Search.QueryCriterion(agent, search) {
          continue;
        }
        agents := agents + [agent];
      }
      assert Listed()[..i] == Listed();
      count := |agents|;
      ListedIsRegistry();
      Search.SelectMembers(Listed(), search);
      Search.SelectDistinct(Listed(), search);
    }

    /** `GET /agents/{id}/executions`: the agent's history as the caller may
        see it, in submission order. The agent must be registered now. */
    function ListExecutions(apiKey: Option<string>, agentId: string): (r: Result<seq<Execution>>)
      reads this
      requires Valid()
      ensures Caller(apiKey).Failure? ==> r == Failure(Unauthorized)
      ensures Caller(apiKey).Success? ==> (r.Success? <==> agentId in registry)
      ensures Caller(apiKey).Success? && agentId !in registry ==> r == Failure(NotFound)
      ensures r.Success? ==>
        var p := Caller(apiKey).value;
        && r.value == Ledger.VisibleTo(Ledger.RunsOf(executions, agentId), p)
        && (Access.IsAdmin(p) ==> r.value == Ledger.RunsOf(executions, agentId))
        && (forall e :: e in r.value <==> e in Ledger.RunsOf(executions, agentId) && Access.MayView(p, e))
    {
      match Caller(apiKey)
      case Failure(err) => Failure(err)
      case Success(p) =>
        if agentId !in registry then Failure(NotFound)
        else
          var runs := Ledger.RunsOf(executions, agentId);
          Ledger.VisibleToSpec(runs, p);
          Success(Ledger.VisibleTo(runs, p))
    }

    /** `GET /agents/{id}/executions/{execution_id}`: the first record of the
        agent's history with that id, if the caller may see it. */
    function GetExecution(apiKey: Option<string>, agentId: string, executionId: string): (r: Result<Execution>)
      reads this
      requires Valid()
      ensures Caller(apiKey).Failure? ==> r == Failure(Unauthorized)
      ensures Caller(apiKey).Success? && agentId !in registry ==> r == Failure(NotFound)
      ensures Caller(apiKey).Success? && agentId in registry ==>
        var runs, p := Ledger.RunsOf(executions, agentId), Caller(apiKey).value;
        && (r == Failure(NotFound) <==> forall e :: e in runs ==> e.id != executionId)
        && (r == Failure(Forbidden) <==>
              exists k :: Ledger.FirstWithId(runs, executionId, k) && !Access.MayView(p, runs[k]))
        && (r.Success? <==>
              exists k :: Ledger.FirstWithId(runs, executionId, k) && Access.MayView(p, runs[k]) && r == Success(runs[k]))
        && (r.Success? ==> r.value.agentId == agentId)
    {
      match Caller(apiKey)
      case Failure(err) => Failure(err)
      case Success(p) =>
        if agentId !in registry then Failure(NotFound)
        else
          match Ledger.FindById(Ledger.RunsOf(executions, agentId), executionId)
          case None => Failure(NotFound)
          case Some(e) => if !Access.MayView(p, e) then Failure(Forbidden) else Success(e)
    }

    /** `POST /agents`: stores the registration under a fresh id, stamped with
        its creation time, its registrant and the `active` status. `newId`
        stands for the `uuid4()` the handler draws, so it has not been issued
        before. */
    method Register(apiKey: Option<string>, desc: Registration, newId: string, now: string)
      returns (r: Result<Agent>)
      requires Valid() && newId !in issued
      modifies this
      ensures Valid()
      ensures Caller(apiKey).Failure? ==> r == Failure(Unauthorized)
      ensures Caller(apiKey).Success? && Access.ValidateAuthType(desc.authType).Failure? ==> r == Failure(Invalid)
      ensures r.Success? <==> Caller(apiKey).Success? && Access.ValidateAuthType(desc.authType).Success?
      ensures r.Failure? ==> unchanged(this)
      ensures r.Success? ==>
        && r.value == Agent(newId, desc, now, Caller(apiKey).value.userId, ActiveStatus, None)
        && newId !in old(registry) && newId !in old(executions)
        && registry == old(registry)[newId := r.value]
        && order == old(order) + [newId]
        && Listed() == old(Listed()) + [r.value]
        && executions == old(executions)
        && issued == old(issued) + {newId}
        && GetAgent(newId) == Success(r.value)
    {
      var who := Caller(apiKey);
      if who.Failure? {
        return Failure(Unauthorized);
      }
      var valid := Access.ValidateAuthType(desc.authType);
      if valid.Failure? {
        return Failure(Invalid);
      }
      var agent := Agent(newId, desc, now, who.value.userId, ActiveStatus, None);
      registry := registry[newId := agent];
      order := order + [newId];
      issued := issued + {newId};
      r := Success(agent);
    }

    /** `PUT /agents/{id}`: overwrites every registration field of an agent,
        keeps its id, creation stamp, registrant and status, and stamps the
        update time. Only an admin or the registrant may do it. */
    method Update(apiKey: Option<string>, agentId: string, desc: Registration, now: string)
      returns (r: Result<Agent>)
      requires Valid()
      modifies this
      ensures Valid()
      ensures Caller(apiKey).Failure? ==> r == Failure(Unauthorized)
      ensures Caller(apiKey).Success? && Access.ValidateAuthType(desc.authType).Failure? ==> r == Failure(Invalid)
      ensures Caller(apiKey).Success? && Access.ValidateAuthType(desc.authType).Success? ==>
        && (agentId !in old(registry) ==> r == Failure(NotFound))
        && (agentId in old(registry) && !Access.MayUpdate(Caller(apiKey).value, old(registry)[agentId]) ==>
              r == Failure(Forbidden))
        && (agentId in old(registry) && Access.MayUpdate(Caller(apiKey).value, old(registry)[agentId]) ==>
              r.Success?)
      ensures r.Failure? ==> unchanged(this)
      ensures r.Success? ==>
        var was := old(registry)[agentId];
        && agentId in old(registry)
        && r.value.reg == desc && r.value.updatedAt == Some(now)
        && r.value.id == was.id == agentId && r.value.createdAt == was.createdAt
        && r.value.createdBy == was.createdBy && r.value.status == was.status
        && registry == old(registry)[agentId := r.value]
        && registry.Keys == old(registry).Keys
        && order == old(order)
        && (forall i :: 0 <= i < |order| ==>
              Listed()[i] == if order[i] == agentId then r.value else old(Listed())[i])
        && executions == old(executions)
        && issued == old(issued)
        && GetAgent(agentId) == Success(r.value)
    {
      var who := Caller(apiKey);
      if who.Failure? {
        return Failure(Unauthorized);
      }
      var valid := Access.ValidateAuthType(desc.authType);
      if valid.Failure? {
        return Failure(Invalid);
      }
      if agentId !in registry {
        return Failure(NotFound);
      }
      var existing := registry[agentId];
      if !Access.MayUpdate(who.value, existing) {
        return Failure(Forbidden);
      }
      var updated := existing.(reg := desc, updatedAt := Some(now));
      registry := registry[agentId := updated];
      r := Success(updated);
    }

    /** `DELETE /agents/{id}`: an admin removes an agent from the registry.
        The role is checked before the id. The agent's history stays in the
        ledger, but no read of the ledger can reach it any more. */
    method Delete(apiKey: Option<string>, agentId: string) returns (r: Result<Agent>)
      requires Valid()
      modifies this
      ensures Valid()
      ensures Caller(apiKey).Failure? ==> r == Failure(Unauthorized)
      ensures Caller(apiKey).Success? && !Access.IsAdmin(Caller(apiKey).value) ==> r == Failure(Forbidden)
      ensures Caller(apiKey).Success? && Access.IsAdmin(Caller(apiKey).value) ==>
        (if agentId in old(registry) then r.Success? else r == Failure(NotFound))
      ensures r.Failure? ==> unchanged(this)
      ensures r.Success? ==>
        && agentId in old(registry)
        && r.value == old(registry)[agentId]
        && registry == old(registry) - {agentId}
        && order == Without(old(order), agentId)
        && (exists i :: 0 <= i < |old(order)| && old(order)[i] == agentId
              && order == old(order)[..i] + old(order)[i + 1..]
              && Listed() == old(Listed())[..i] + old(Listed())[i + 1..])
        && (forall a :: a in Listed() <==> a in old(Listed()) && a.id != agentId)
        && executions == old(executions)
        && issued == old(issued)
        && GetAgent(agentId) == Failure(NotFound)
        && (forall key :: ListExecutions(key, agentId).Failure?)
        && (forall key, x :: GetExecution(key, agentId, x).Failure?)
    {
      var who := Caller(apiKey);
      if who.Failure? {
        return Failure(Unauthorized);
      }
      if !Access.IsAdmin(who.value) {
        return Failure(Forbidden);
      }
      if agentId !in registry {
        return Failure(NotFound);
      }
      r := Success(registry[agentId]);
      Pop(agentId);
    }

    /** `agent_registry.pop(agent_id)`: the key leaves the map and its place
        in the iteration order; every other key keeps its place. */
    method Pop(agentId: string)
      requires Valid() && agentId in registry
      modifies this
      ensures Valid()
      ensures registry == old(registry) - {agentId}
      ensures order == Without(old(order), agentId)
      ensures exists i :: 0 <= i < |old(order)| && old(order)[i] == agentId
                          && order == old(order)[..i] + old(order)[i + 1..]
                          && Listed() == old(Listed())[..i] + old(Listed())[i + 1..]
      ensures forall a :: a in Listed() <==> a in old(Listed()) && a.id != agentId
      ensures executions == old(executions) && issued == old(issued)
    {
      ghost var before := Listed();
      ListedIsRegistry();
      ghost var i := PopOrder(registry, order, agentId);
      registry := registry - {agentId};
      order := Without(order, agentId);
      ListedIsRegistry();
      forall a ensures a in Listed() <==> a in before && a.id != agentId {
      }
    }

    /** `agent_executions[agent_id].append(record)`, creating the agent's
        history first when this is its first record. */
    method Append(record: Execution)
      requires Valid() && record.agentId in registry && record.id !in issued
      requires record.status == CompletedStatus
      modifies this
      ensures Valid()
      ensures executions == old(executions)[record.agentId := Ledger.RunsOf(old(executions), record.agentId) + [record]]
      ensures registry == old(registry) && order == old(order) && issued == old(issued) + {record.id}
      ensures forall x :: x in Ledger.RunsOf(old(executions), record.agentId) ==> x.id != record.id
    {
      var runs := Ledger.RunsOf(executions, record.agentId);
      assert forall x :: x in runs ==> x.id in issued;
      Ledger.AppendWellFiled(executions, issued, record);
      executions := executions[record.agentId := runs + [record]];
      issued := issued + {record.id};
    }

    /** `POST /agents/{id}/execute`: appends one completed record to the
        agent's history (creating the history if needed) and returns it.
        `newId` stands for the handler's `uuid4()`, `createdAt` and
        `completedAt` for its two clock reads, and `renderedInput` for the
        text form of the input the simulated result echoes. */
    method Execute(apiKey: Option<string>, agentId: string, input: JsonObject, parameters: Option<JsonObject>,
                   newId: string, createdAt: string, completedAt: string, renderedInput: string)
      returns (r: Result<Execution>)
      requires Valid() && newId !in issued
      modifies this
      ensures Valid()
      ensures Caller(apiKey).Failure? ==> r == Failure(Unauthorized)
      ensures Caller(apiKey).Success? ==> (r.Success? <==> agentId in old(registry))
      ensures Caller(apiKey).Success? && agentId !in old(registry) ==> r == Failure(NotFound)
      ensures r.Failure? ==> unchanged(this)
      ensures r.Success? ==>
        && r.value == Execution(newId, agentId, Caller(apiKey).value.userId, input, parameters,
                                CompletedStatus, createdAt, completedAt,
                                Ledger.SimulatedResult(old(registry)[agentId].reg.name, renderedInput))
        && executions == old(executions)[agentId := Ledger.RunsOf(old(executions), agentId) + [r.value]]
        && registry == old(registry) && order == old(order)
        && issued == old(issued) + {newId}
        && GetExecution(apiKey, agentId, newId) == Success(r.value)
        && ListExecutions(apiKey, agentId) == Success(old(ListExecutions(apiKey, agentId)).value + [r.value])
    {
      var who := Caller(apiKey);
      if who.Failure? {
        return Failure(Unauthorized);
      }
      if agentId !in registry {
        return Failure(NotFound);
      }
      var agent := registry[agentId];
      var record := Execution(newId, agentId, who.value.userId, input, parameters,
                              CompletedStatus, createdAt, completedAt,
                              Ledger.SimulatedResult(agent.reg.name, renderedInput));
      var runs := Ledger.RunsOf(executions, agentId);
      ghost var seen := ListExecutions(apiKey, agentId);
      assert seen == Success(Ledger.VisibleTo(runs, who.value));
      Append(record);
      r := Success(record);
      ReadBack(apiKey, runs, record);
    }

    /** A record at the end of its agent's history, with an id no earlier
        record carries, is read back by its submitter: the lookup finds it,
        and it closes the submitter's listing. */
    lemma ReadBack(apiKey: Option<string>, runs: seq<Execution>, record: Execution)
      requires Valid() && Caller(apiKey).Success? && record.agentId in registry
      requires record.userId == Caller(apiKey).value.userId
      requires Ledger.RunsOf(executions, record.agentId) == runs + [record]
      requires forall x :: x in runs ==> x.id != record.id
      ensures GetExecution(apiKey, record.agentId, record.id) == Success(record)
      ensures ListExecutions(apiKey, record.agentId) ==
        Success(Ledger.VisibleTo(runs, Caller(apiKey).value) + [record])
    {
    }
  }
}
