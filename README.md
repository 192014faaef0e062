# Agent directory and dispatch selection of babble-drachtio-fifo

This project models, in Dafny, the top-level manager of an automatic call
distribution module (`index.js`, class `fifos`). The manager owns two
in-memory directories: the map of routing domains, created lazily by name, and
the single global map of agent records `{ uri, fifos, state }` keyed by URI.
It binds agents to queues (`addagent`, `addagents`), moves agents into the
states `busy`, `resting` and `available` as call events arrive (it never sets
the fourth state, `ringing`, itself; `_onentitybusy` only leaves it), and
when a freed agent's debounce timer fires it picks, among the fifos the agent
serves, the one whose oldest call has waited longest.

Files and modules:

- `wrappers.dfy`, module `Wrappers`: `Option`, standing for JavaScript's
  `undefined`.
- `selection.dfy`, module `FifoSelection`: a fifo as seen from an agent
  (identity and `age`), the stable oldest-first sort used by `_callagents`,
  and the reference definition `OldestIndex` of the winning fifo.
- `directory.dfy`, module `AgentDirectory`: the agent directory as a value and
  one function per handler giving the directory afterwards; lemmas about
  `addagents` and about the rest cycle.
- `manager.dfy`, module `FifosManager`: the imperative model. Class `Agent` is
  the shared, mutable agent record; class `Domain` stands for the object
  `domain.create()` returns; class `Fifos` holds `domains`, `allAgents` and
  `agentLag`, and each of its methods is proved to change the directory
  exactly as the matching function of `AgentDirectory` says.

Collaborators that are not part of this model are abstracted:
lib/domain.js is not part of this model, and the boolean the domain's own
`addagent` returns is a parameter (`bindOk`, or `binds[i]` for `addagents`);
a fifo's `age` is an integer in the `Fifo` value; the awaited `call.entity`
is passed already resolved, as `Option<Entity>` with `uri` and `ccc`; the
`setTimeout` callback of `_onentitymightbefree` is the method
`FireRestTimer`, called with the agent the timer captured, and
`OnEntityMightBeFree` returns that timer (agent and delay) instead of
scheduling it.

Behaviour of the code that the model keeps as written:

- The rest-timer callback sets `available` without looking at the current
  state (`index.js:87-90`); lemma `StaleRestTimer` shows that an agent busy
  again on a new call is made available when the old timer fires.
- `_onentitybusy` sets `busy` from every state, `ringing` and `resting`
  included (`index.js:111-118`).
- `_callagents` takes no account of empty queues, priorities or reachability:
  it sorts by `age` alone and takes the head (`index.js:66-72`).

## Model

| member | source | states |
|---|---|---|
| FifoSelection.OldestIndex | index.js:66-72 | the winning fifo is one of the agent's fifos, no fifo is older, and every fifo before it in set order is strictly younger (the tie-break of a stable sort) |
| FifoSelection.SortByAge | index.js:67-70 | the sorted copy has the length of the agent's fifo set and exactly its fifos, with multiplicity |
| FifoSelection.SortByAgeIsOldestFirst | index.js:69-70 | the sorted copy is oldest first: ages never increase along it |
| FifoSelection.SortByAgeHead | index.js:70-71 | the head of the sorted copy, the fifo that is asked to call the agent, is the reference winner `OldestIndex` |
| AgentDirectory.AfterBusy | index.js:111-118 | a busy signal (entity present, `ccc > 0`) for a known URI makes that record `busy` from any state, keeping its uri and fifos; no key is added or removed and every other record is unchanged |
| AgentDirectory.AfterMightBeFree | index.js:79-94 | the only change is busy to resting, and only for a free signal (entity present, `ccc == 0`) naming a known agent that is busy; keys and all other records are unchanged |
| AgentDirectory.AfterRestTimer | index.js:87-90 | the captured agent becomes `available` whatever its state, keeping uri and fifos; all other records and the keys are unchanged |
| AgentDirectory.AfterAddAgent | index.js:163-187 | no known record is replaced or removed; a key is added exactly when the URI is truthy, unknown and the bind succeeded; an added record is `available` with no fifos and its own URI; a refused bind leaves the directory as it was |
| AgentDirectory.AfterAddAgents | index.js:147-153 | the loop adds keys only for non-empty URIs of the list |
| AgentDirectory.AddAgentsKeepsKnown | index.js:143-154 | after `addagents` every record that existed is still there and unchanged |
| AgentDirectory.AddAgentsAddsOnlyListed | index.js:143-154 | every record `addagents` adds is for a non-empty URI of the list and is a fresh available record with no fifos |
| AgentDirectory.AddAgentsRollsBackRefused | index.js:147-185 | a URI not known before whose every bind in the list was refused is absent afterwards |
| AgentDirectory.AddAgentsAdmitsAccepted | index.js:147-185 | a non-empty listed URI whose bind at some position was accepted is in the directory afterwards, whatever the other binds; with `AddAgentsAddsOnlyListed` and `AddAgentsRollsBackRefused`, a new key appears exactly when it is non-empty and listed with an accepted bind |
| AgentDirectory.AddAgentsAllAccepted | index.js:143-154 | when every bind succeeds, the keys afterwards are the old keys plus every non-empty listed URI |
| AgentDirectory.RestCycle | index.js:79-90 | a busy agent whose call ends with `ccc == 0` is resting, and once the timer fires is available with its record otherwise unchanged |
| AgentDirectory.StaleRestTimer | index.js:79-118 | busy, call ends, new call arrives, old timer fires: the agent is busy after the new call and available after the timer, although it is still on that call |
| FifosManager.AgentLag | index.js:59-60 | the lag is the configured value when that is non-zero, otherwise 30000 (so 0 keeps 30000), and is never 0 |
| FifosManager.Agent.constructor | index.js:174-178 | a new record has the given URI, no fifos and state `available` |
| FifosManager.Fifos.constructor | index.js:41-60 | both directories start empty, every record is filed under its own URI, and the lag is `AgentLag` of the configured value |
| FifosManager.Fifos.Create | index.js:209-211 | returns a fresh manager in the same initial state as the constructor |
| FifosManager.Fifos.GetDomain | index.js:195-204 | afterwards the name is a key; if it was already one, the map is unchanged and the existing domain is returned; otherwise exactly that key is added, bound to a fresh domain, which is returned; the agent directory is untouched |
| FifosManager.Fifos.AddAgent | index.js:163-187 | the directory changes as `AfterAddAgent`; a falsy agent touches neither map; otherwise the domain is got-or-inserted; a known agent keeps its record object and the key set; a new bound agent is added as a fresh record with every other key keeping its object; a refused new agent leaves `allAgents` exactly as before |
| FifosManager.Fifos.AddAgents | index.js:143-154 | the directory changes as `addagent` applied to each listed URI in list order with the same name and domain; every record object already filed stays filed under its key; the domain is got-or-inserted |
| FifosManager.Fifos.OnEntityBusy | index.js:111-118 | the map of records is unchanged and the directory changes as `AfterBusy` |
| FifosManager.Fifos.OnEntityMightBeFree | index.js:79-94 | the directory changes as `AfterMightBeFree`; a timer is scheduled exactly when a rest starts, capturing that agent's record, with delay `agentLag` |
| FifosManager.Fifos.FireRestTimer | index.js:87-90 | the captured agent is `available` with its fifos unchanged, the directory changes as `AfterRestTimer`, and the fifo chosen is the oldest one (none exactly when the agent has no fifo) |
| FifosManager.Fifos.CallAgents | index.js:66-72 | with no fifo there is no choice; otherwise the chosen fifo is one of the agent's, at least as old as every other, and the first such in set order |
| FifosManager.Fifos.OnEntityMightBeAvailable | index.js:96-99 | only looks the registration URI up in the directory and changes nothing |
| FifosManager.Fifos.OnEntityMightBeUnavailable | index.js:101-104 | only looks the registration URI up in the directory and changes nothing |

## Left out

- Constructor event wiring (`index.js:20-36`): the `assert` on `options.srf`, the event emitter and its five subscriptions are I/O plumbing. As written this part cannot run: the assertion is inverted and `this.options` is never set (only `this._options`), so `this.options.em` throws. The model's constructor keeps only the two empty maps and the lag.
- `queue` (`index.js:131-134`): it only delegates to the domain's promise-returning `queue`, which lives in lib/domain.js.
- `d.agents(options)` in `addagents` (`index.js:145`): a call into lib/domain.js with no effect on the manager's own state.
- The domain's `addagent` and a fifo's `_callagents`: foreign code. The bind is an oracle boolean and never changes `agent.fifos` in the model; `CallAgents` returns the fifo that would be asked to call instead of calling it.
- `async`/`await` on `call.entity` and the `setTimeout` scheduling: the entity is a resolved input and the timer an explicit later call, so interleavings between events are not modelled.
- The uncaught `TypeError` when a timer fires for an agent with no fifos (`orderedfifos[0]` is undefined): modelled as the result `None`, after the state has already become available, as in the source.
- FifosManager.Fifos.CallAgents: `Array.from` and the in-place `sort` work on a local copy that nobody else sees; the model sorts a copy as a value (`SortByAge`, a stable insertion sort, matching a stable platform sort) rather than in an array.
- FifosManager.Fifos.AddAgents: states that every added record has the contents of a new agent, but not that it is a fresh object; `AddAgent` states freshness for each call it makes.
- JavaScript truthiness is modelled only for the types the code is given: an agent URI is falsy when absent or empty, `agentlag` when absent or 0; `NaN`, `null`, `false` and non-string values are not modelled.
- The `callcount` field mentioned in the record's comment (`index.js:49`) is never set by the code and is not modelled.
- A JavaScript `Set` of fifos is a sequence here; its elements being distinct is not needed by any property and is not stated.
