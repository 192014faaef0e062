/**
 The global agent directory (index.js, `_allagents`) seen as a value: a map
 from agent URI to a snapshot of that agent's record. Each handler of the
 manager is specified here by a function from the directory before to the
 directory after; the class `Fifos` in manager.dfy is proved to follow them.
 */
module AgentDirectory {
  import opened Wrappers
  import opened FifoSelection

  /** The four values `agent.state` takes; no other is ever stored. */
  datatype AgentState = Busy | Ringing | Resting | Available

  /** A call's resolved identity: who it is and how many calls it has. */
  datatype Entity = Entity(uri: string, ccc: int)

  /** The contents of one agent record `{ uri, fifos, state }`. */
  datatype AgentView = AgentView(uri: string, fifos: seq<Fifo>, state: AgentState)

  type Directory = map<string, AgentView>

  /** The record `addagent` creates for a URI it has not seen. */
  function NewAgent(uri: string): (v: AgentView)
  {
    AgentView(uri, [], Available)
  }

  /** `options.agent` is truthy: present and not the empty string. */
  predicate Truthy(agent: Option<string>)
  {
    agent.Some? && agent.value != ""
  }

  /** `entity && entity.ccc > 0`: a call says its entity is on a call. */
  predicate BusySignal(entity: Option<Entity>)
  {
    entity.Some? && entity.value.ccc > 0
  }

  /** `entity && 0 === entity.ccc`: a call says its entity has no call left. */
  predicate FreeSignal(entity: Option<Entity>)
  {
    entity.Some? && entity.value.ccc == 0
  }

  /** `_onentitybusy`: a busy signal for a known agent makes it busy,
      whatever state it was in; nothing else changes. */
  function AfterBusy(dir: Directory, entity: Option<Entity>): (r: Directory)
    ensures r.Keys == dir.Keys
    ensures BusySignal(entity) && entity.value.uri in dir ==>
              r[entity.value.uri] == dir[entity.value.uri].(state := Busy)
    ensures forall k :: k in dir && !(BusySignal(entity) && k == entity.value.uri) ==> r[k] == dir[k]
  {
    if BusySignal(entity) && entity.value.uri in dir then
      dir[entity.value.uri := dir[entity.value.uri].(state := Busy)]
    else dir
  }

  /** `_onentitymightbefree` starts a rest: a free signal for a known agent
      that is busy. */
  predicate StartsRest(dir: Directory, entity: Option<Entity>)
  {
    FreeSignal(entity) && entity.value.uri in dir && dir[entity.value.uri].state == Busy
  }

  /** `_onentitymightbefree`: the one edge busy -> resting, taken only when a
      rest starts; every other record, and every other state, is kept. */
  function AfterMightBeFree(dir: Directory, entity: Option<Entity>): (r: Directory)
    ensures r.Keys == dir.Keys
    ensures StartsRest(dir, entity) ==>
              r[entity.value.uri] == dir[entity.value.uri].(state := Resting)
    ensures forall k :: k in dir && r[k] != dir[k] ==>
              StartsRest(dir, entity) && k == entity.value.uri &&
              dir[k].state == Busy && r[k].state == Resting
  {
    if StartsRest(dir, entity) then
      dir[entity.value.uri := dir[entity.value.uri].(state := Resting)]
    else dir
  }

  /** The rest timer's continuation: the agent becomes available from
      whatever state it is in by then; no other record changes. */
  function AfterRestTimer(dir: Directory, uri: string): (r: Directory)
    ensures r.Keys == dir.Keys
    ensures uri in dir ==> r[uri].state == Available && r[uri].uri == dir[uri].uri
                           && r[uri].fifos == dir[uri].fifos
    ensures forall k :: k in dir && k != uri ==> r[k] == dir[k]
  {
    if uri in dir then dir[uri := dir[uri].(state := Available)] else dir
  }

  /** `addagent` adds a record: a truthy URI not yet known whose bind the
      domain accepted. */
  predicate JoinsDirectory(dir: Directory, agent: Option<string>, bindOk: bool)
  {
    Truthy(agent) && agent.value !in dir && bindOk
  }

  /** `addagent` on the directory: a known record is never replaced, a new
      one is fresh and available, and a refused bind is rolled back. */
  function AfterAddAgent(dir: Directory, agent: Option<string>, bindOk: bool): (r: Directory)
    ensures forall k :: k in dir ==> k in r && r[k] == dir[k]
    ensures r.Keys - dir.Keys == if JoinsDirectory(dir, agent, bindOk) then {agent.value} else {}
    ensures forall k :: k in r && k !in dir ==> r[k] == NewAgent(k)
  {
    if JoinsDirectory(dir, agent, bindOk) then dir[agent.value := NewAgent(agent.value)]
    else dir
  }

  /** `addagents`: `addagent` once per listed URI, in list order, the i-th
      with the i-th bind outcome. */
  function AfterAddAgents(dir: Directory, agents: seq<string>, binds: seq<bool>): (r: Directory)
    requires |binds| == |agents|
    ensures r.Keys <= dir.Keys + (set a | a in agents && a != "")
  {
    if agents == [] then dir
    else
      var n := |agents| - 1;
      assert agents == agents[..n] + [agents[n]];
      AfterAddAgent(AfterAddAgents(dir, agents[..n], binds[..n]), Some(agents[n]), binds[n])
  }

  /** One more step of the `addagents` loop is one more `addagent`. */
  lemma AddAgentsStep(dir: Directory, agents: seq<string>, binds: seq<bool>, i: nat)
    requires |binds| == |agents| && i < |agents|
    ensures AfterAddAgents(dir, agents[..i + 1], binds[..i + 1])
         == AfterAddAgent(AfterAddAgents(dir, agents[..i], binds[..i]), Some(agents[i]), binds[i])
  {
    assert agents[..i + 1][..i] == agents[..i];
    assert binds[..i + 1][..i] == binds[..i];
  }

  /** `addagents` never replaces or removes a record that was there. */
  lemma {:induction false} AddAgentsKeepsKnown(dir: Directory, agents: seq<string>, binds: seq<bool>)
    requires |binds| == |agents|
    ensures forall k :: k in dir ==> k in AfterAddAgents(dir, agents, binds)
                                     && AfterAddAgents(dir, agents, binds)[k] == dir[k]
  {
    if agents != [] {
      var n := |agents| - 1;
      AddAgentsKeepsKnown(dir, agents[..n], binds[..n]);
    }
  }

  /** Every record `addagents` adds is for a listed, non-empty URI, and is a
      fresh available record with no fifos. */
  lemma {:induction false} AddAgentsAddsOnlyListed(dir: Directory, agents: seq<string>, binds: seq<bool>)
    requires |binds| == |agents|
    ensures forall k :: k in AfterAddAgents(dir, agents, binds) && k !in dir ==>
              k in agents && k != "" && AfterAddAgents(dir, agents, binds)[k] == NewAgent(k)
  {
    if agents != [] {
      var n := |agents| - 1;
      AddAgentsAddsOnlyListed(dir, agents[..n], binds[..n]);
      forall k | k in AfterAddAgents(dir, agents, binds) && k !in dir
        ensures k in agents && k != ""
      {
        if k !in AfterAddAgents(dir, agents[..n], binds[..n]) {
          assert k == agents[n];
        } else {
          assert k in agents[..n];
        }
      }
    }
  }

  /** Rollback, over a whole list: a URI that was not known and whose every
      bind was refused is not in the directory afterwards. */
  lemma {:induction false} AddAgentsRollsBackRefused(dir: Directory, agents: seq<string>, binds: seq<bool>, uri: string)
    requires |binds| == |agents|
    requires uri !in dir
    requires forall i :: 0 <= i < |agents| && agents[i] == uri ==> !binds[i]
    ensures uri !in AfterAddAgents(dir, agents, binds)
  {
    if agents != [] {
      var n := |agents| - 1;
      AddAgentsRollsBackRefused(dir, agents[..n], binds[..n], uri);
    }
  }

  /** A non-empty listed URI with an accepted bind is in the directory
      afterwards, whatever the other binds did. */
  lemma {:induction false} AddAgentsAdmitsAccepted(dir: Directory, agents: seq<string>, binds: seq<bool>, i: nat)
    requires |binds| == |agents|
    requires i < |agents| && binds[i] && agents[i] != ""
    ensures agents[i] in AfterAddAgents(dir, agents, binds)
  {
    var n := |agents| - 1;
    if i < n {
      AddAgentsAdmitsAccepted(dir, agents[..n], binds[..n], i);
    }
  }

  /** When every bind is accepted, the directory afterwards holds exactly the
      URIs it held and every non-empty listed URI. */
  lemma {:induction false} AddAgentsAllAccepted(dir: Directory, agents: seq<string>, binds: seq<bool>)
    requires |binds| == |agents|
    requires forall i :: 0 <= i < |binds| ==> binds[i]
    ensures AfterAddAgents(dir, agents, binds).Keys == dir.Keys + (set a | a in agents && a != "")
  {
    if agents != [] {
      var n := |agents| - 1;
      AddAgentsAllAccepted(dir, agents[..n], binds[..n]);
      assert agents == agents[..n] + [agents[n]];
    }
  }

  /** busy, then the call ends: resting, and after the lag available. */
  lemma RestCycle(dir: Directory, uri: string)
    requires uri in dir && dir[uri].state == Busy
    ensures AfterMightBeFree(dir, Some(Entity(uri, 0)))[uri].state == Resting
    ensures AfterRestTimer(AfterMightBeFree(dir, Some(Entity(uri, 0))), uri)[uri] ==
              dir[uri].(state := Available)
  {
  }

  /** The timer does not look at the state when it fires: an agent that took
      a new call while resting is made available while still on that call. */
  lemma StaleRestTimer(dir: Directory, uri: string, ccc: int)
    requires uri in dir && dir[uri].state == Busy && ccc > 0
    ensures AfterBusy(AfterMightBeFree(dir, Some(Entity(uri, 0))), Some(Entity(uri, ccc)))[uri].state == Busy
    ensures AfterRestTimer(AfterBusy(AfterMightBeFree(dir, Some(Entity(uri, 0))), Some(Entity(uri, ccc))), uri)[uri].state
              == Available
  {
  }
}
