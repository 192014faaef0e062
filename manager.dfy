/**
 The top-level manager of index.js (class `fifos`): the domain map, the global
 agent directory of shared, mutable agent records, and the handlers that move
 agents between states and pick which fifo calls a freed agent.
 */
module FifosManager {
  import opened Wrappers
  import opened FifoSelection
  import opened AgentDirectory

  /** The debounce after an agent's last call when none is configured (ms). */
  const DefaultAgentLag: int := 30000

  /** `_agentlag`: the configured `options.agentlag` when it is truthy (a
      non-zero number), otherwise 30000; so a configured 0 keeps 30000. */
  function AgentLag(configured: Option<int>): (lag: int)
    ensures lag != 0
    ensures configured.Some? && configured.value != 0 ==> lag == configured.value
    ensures configured.None? || configured.value == 0 ==> lag == DefaultAgentLag
  {
    if configured.Some? && configured.value != 0 then configured.value else DefaultAgentLag
  }

  /** An agent record `{ uri, fifos, state }`, shared by reference between
      the directory, the fifos it belongs to and a pending rest timer. */
  class Agent {
    const uri: string
    var fifos: seq<Fifo>
    var state: AgentState

    constructor (uri: string)
      ensures this.uri == uri && fifos == [] && state == Available
    {
      this.uri := uri;
      fifos := [];
      state := Available;
    }

    function View(): AgentView
      reads this
    {
      AgentView(uri, fifos, state)
    }
  }

  /** A domain object made by `domain.create()`; only its identity matters
      here, its fifos live in lib/domain.js. */
  class Domain {
    constructor ()
    {
    }
  }

  /** `options` of `addagent`. */
  datatype AgentOptions = AgentOptions(name: string, domain: string, agent: Option<string>)

  /** `options` of `addagents`. */
  datatype AgentsOptions = AgentsOptions(name: string, domain: string, agents: seq<string>)

  /** `reginfo` of a registration event; only `auth.uri` is read. */
  datatype RegInfo = RegInfo(authUri: string)

  /** A `setTimeout` scheduled by `_onentitymightbefree`: the agent record its
      callback captured and the delay it was given. */
  datatype RestTimer = RestTimer(agent: Agent, delay: int)

  /** After `_getdomain(name)`: `name` is a key, and the map is either as it
      was or has that one key added. */
  ghost predicate GotDomain(before: map<string, Domain>, after: map<string, Domain>, name: string)
  {
    && name in after
    && (name in before ==> after == before)
    && (name !in before ==> after == before[name := after[name]])
  }

  class Fifos {
    var domains: map<string, Domain>
    var allAgents: map<string, Agent>
    const agentLag: int

    /** Every record is filed under its own URI, so distinct keys hold
        distinct records. */
    ghost predicate Valid()
      reads this
    {
      forall k :: k in allAgents ==> allAgents[k].uri == k
    }

    /** The directory as a value. */
    ghost function Directory(): Directory
      reads this, allAgents.Values
    {
      map k | k in allAgents :: allAgents[k].View()
    }

    constructor (agentlag: Option<int>)
      ensures Valid()
      ensures domains == map[] && allAgents == map[]
      ensures agentLag == AgentLag(agentlag)
    {
      domains := map[];
      allAgents := map[];
      agentLag := AgentLag(agentlag);
    }

    /** `fifos.create`: a manager with empty directories. */
    static method Create(agentlag: Option<int>) returns (manager: Fifos)
      ensures fresh(manager) && manager.Valid()
      ensures manager.domains == map[] && manager.allAgents == map[]
      ensures manager.agentLag == AgentLag(agentlag)
    {
      manager := new Fifos(agentlag);
    }

    /** `_getdomain`: get-or-insert on the domain map. */
    method GetDomain(name: string) returns (d: Domain)
      modifies this
      ensures allAgents == old(allAgents)
      ensures GotDomain(old(domains), domains, name) && d == domains[name]
      ensures name in old(domains) ==> d == old(domains)[name]
      ensures name !in old(domains) ==> fresh(d)
    {
      if name in domains {
        return domains[name];
      }
      d := new Domain();
      domains := domains[name := d];
    }

    /** `addagent`. `bindOk` is what the domain's own `addagent` reports. */
    method AddAgent(options: AgentOptions, bindOk: bool)
      requires Valid()
      modifies this
      ensures Valid()
      ensures Directory() == AfterAddAgent(old(Directory()), options.agent, bindOk)
      ensures !Truthy(options.agent) ==> domains == old(domains) && allAgents == old(allAgents)
      ensures Truthy(options.agent) ==> GotDomain(old(domains), domains, options.domain)
      ensures Truthy(options.agent) && options.domain !in old(domains) ==> fresh(domains[options.domain])
      ensures !JoinsDirectory(old(Directory()), options.agent, bindOk) ==> allAgents == old(allAgents)
      ensures forall k :: k in old(allAgents) ==> k in allAgents && allAgents[k] == old(allAgents)[k]
      ensures JoinsDirectory(old(Directory()), options.agent, bindOk) ==>
                var uri := options.agent.value;
                uri in allAgents && fresh(allAgents[uri]) && allAgents == old(allAgents)[uri := allAgents[uri]]
    {
      if !Truthy(options.agent) {
        return;
      }
      var uri := options.agent.value;
      var d := GetDomain(options.domain);
      assert Directory() == old(Directory());
      if uri in allAgents {
        // the bind's outcome is ignored for a known agent
      } else {
        ghost var before := Directory();
        var ouragent := new Agent(uri);
        allAgents := allAgents[uri := ouragent];
        if bindOk {
          assert Directory() == before[uri := NewAgent(uri)] by {
            assert Directory().Keys == before.Keys + {uri};
          }
        } else {
          // the domain refused: roll the new record back out
          allAgents := allAgents - {uri};
          assert allAgents == old(allAgents);
          assert Directory() == before;
        }
      }
    }

    /** `addagents`: `binds[i]` is the domain's answer to the i-th bind. */
    method AddAgents(options: AgentsOptions, binds: seq<bool>)
      requires Valid()
      requires |binds| == |options.agents|
      modifies this
      ensures Valid()
      ensures Directory() == AfterAddAgents(old(Directory()), options.agents, binds)
      ensures forall k :: k in old(allAgents) ==> k in allAgents && allAgents[k] == old(allAgents)[k]
      ensures GotDomain(old(domains), domains, options.domain)
      ensures options.domain !in old(domains) ==> fresh(domains[options.domain])
    {
      var d := GetDomain(options.domain);
      var i := 0;
      while i < |options.agents|
        invariant 0 <= i <= |options.agents|
        invariant Valid()
        invariant Directory() == AfterAddAgents(old(Directory()), options.agents[..i], binds[..i])
        invariant forall k :: k in old(allAgents) ==> k in allAgents && allAgents[k] == old(allAgents)[k]
        invariant GotDomain(old(domains), domains, options.domain)
        invariant options.domain !in old(domains) ==> fresh(domains[options.domain])
      {
        AddAgentsStep(old(Directory()), options.agents, binds, i);
        AddAgent(AgentOptions(options.name, options.domain, Some(options.agents[i])), binds[i]);
        i := i + 1;
      }
      assert options.agents[..i] == options.agents;
      assert binds[..i] == binds;
    }

    /** `_onentitybusy`, on the already resolved `call.entity`. */
    method OnEntityBusy(entity: Option<Entity>)
      requires Valid()
      modifies allAgents.Values
      ensures allAgents == old(allAgents)
      ensures Directory() == AfterBusy(old(Directory()), entity)
    {
      if entity.Some? && entity.value.ccc > 0 {
        if entity.value.uri in allAgents {
          allAgents[entity.value.uri].state := Busy;
        }
      }
    }

    /** `_onentitymightbefree`, on the already resolved `call.entity`; the
        timer it schedules is returned, to be fired by `FireRestTimer`. */
    method OnEntityMightBeFree(entity: Option<Entity>) returns (timer: Option<RestTimer>)
      requires Valid()
      modifies allAgents.Values
      ensures allAgents == old(allAgents)
      ensures Directory() == AfterMightBeFree(old(Directory()), entity)
      ensures timer.Some? <==> StartsRest(old(Directory()), entity)
      ensures timer.Some? ==> timer.value == RestTimer(allAgents[entity.value.uri], agentLag)
    {
      timer := None;
      if entity.Some? && entity.value.ccc == 0 {
        if entity.value.uri in allAgents {
          var agent := allAgents[entity.value.uri];
          if agent.state == Busy {
            agent.state := Resting;
            timer := Some(RestTimer(agent, agentLag));
          }
        }
      }
    }

    /** The rest timer's callback: the captured agent becomes available and
        selection runs. `None` is the case the source does not survive: with
        no fifo, `orderedfifos[0]` is undefined and the call throws. */
    method FireRestTimer(agent: Agent) returns (chosen: Option<Fifo>)
      requires Valid()
      modifies agent
      ensures agent.state == Available && agent.fifos == old(agent.fifos)
      ensures agent.uri in allAgents && allAgents[agent.uri] == agent ==>
                Directory() == AfterRestTimer(old(Directory()), agent.uri)
      ensures chosen.None? <==> agent.fifos == []
      ensures chosen.Some? ==> chosen.value == agent.fifos[OldestIndex(agent.fifos)]
    {
      agent.state := Available;
      chosen := CallAgents(agent);
    }

    /** `_callagents`: sorts a copy of the agent's fifos oldest first and
        returns the head, the fifo asked to call the agent. */
    method CallAgents(agent: Agent) returns (chosen: Option<Fifo>)
      ensures chosen.None? <==> agent.fifos == []
      ensures chosen.Some? ==> chosen.value in agent.fifos
      ensures chosen.Some? ==> forall f :: f in agent.fifos ==> f.age <= chosen.value.age
      ensures chosen.Some? ==> chosen.value == agent.fifos[OldestIndex(agent.fifos)]
    {
      var orderedfifos := SortByAge(agent.fifos);
      if |orderedfifos| == 0 {
        chosen := None;
      } else {
        SortByAgeHead(agent.fifos);
        chosen := Some(orderedfifos[0]);
      }
    }

    /** `_onentitymightbeavailable`: looks the URI up and changes nothing. */
    method OnEntityMightBeAvailable(reginfo: RegInfo) returns (known: bool)
      ensures known <==> reginfo.authUri in allAgents
    {
      known := reginfo.authUri in allAgents;
    }

    /** `_onentitymightbeunavailable`: looks the URI up and changes nothing. */
    method OnEntityMightBeUnavailable(reginfo: RegInfo) returns (known: bool)
      ensures known <==> reginfo.authUri in allAgents
    {
      known := reginfo.authUri in allAgents;
    }
  }
}
