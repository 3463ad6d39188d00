# The circle of life: a verified model of the ecosystem simulation's core

The simulation runs one coordinator process (the environment manager), one
process per prey and per predator, and an observer on the terminal. Agents
connect to the coordinator over a socket and report JOIN, FEED, REPRODUCE
and DEATH as newline-terminated JSON lines. The coordinator keeps the shared
population, grass and drought counters. It spawns a new agent process for each
REPRODUCE it honours and runs a tick loop that serves the observer's command
queue, grows or dries the grass and starts and ends droughts. Each agent loses
energy on every tick, switches between hunting and resting with a hysteresis
band, feeds from a shared counter (grass for a prey, the prey count for a
predator), may reproduce, and reports its death. The observer shows a health
verdict for each status snapshot, applies a stop rule, maps keyboard lines to
quitting or to a drought signal, and queues SHUTDOWN when it stops.

The project is in ten modules.

- **Text** (`text.dfy`) holds `str.strip`, `str.lower` and `split('\n', 1)` on ASCII. It also holds the framing of received chunks into lines.
- **Settings** (`settings.dfy`) holds the configuration. Energies are integers in tenths of a point.
- **Protocol** (`protocol.dfy`) holds the decoded messages, the commands and the status snapshot.
- **Shared** (`shared.dfy`) holds the shared-memory block as a class.
- **EnvModel** (`envmodel.dfy`) holds the coordinator's transitions as functions on a value, and their properties.
- **Environment** (`environment.dfy`) holds class `EnvironmentManager`. Every method is proved to move its abstract state as the matching EnvModel function does.
- **Life** (`life.dfy`) holds an agent's life as functions on a value, and their properties. It covers connection, update, feeding, reproduction, the life loop and the whole life cycle.
- **PreyAgent** and **PredatorAgent** (`prey.dfy`, `predator.dfy`) hold the two agent classes, each proved to follow module Life.
- **Display** (`display.dfy`) holds the observer's decisions as functions, its invariant, and class `DisplayManager` proved to follow them.

Every lock-guarded block is modelled as one atomic step. Randomness is a parameter of the operation that draws it:

- the id suffix `random.randint(0, 999)`;
- the drought roll and the drought duration;
- each agent's capture and reproduction rolls, indexed by the pass of its loop;
- the outcome of each connection attempt.

The socket traffic is modelled too:

- A connection's received data is a sequence of chunks, where an empty chunk means end of stream.
- `json.loads` is a parameter `parse`.
- The messages an agent writes are the agent's `outbox`.

On the observer's side:

- The commands it queues are `cmdQueue`.
- The process ids it signals are `signals`.
- The status lines it shows are `printed`.
- Each pass of its main loop receives a `Round`: the reply that arrived, if any, and the keyboard line that was waiting, if any.

Some behaviour of the coordinator that the model keeps:

- A non-blank line that `json.loads` rejects ends the connection. The exception leaves the reading loop, and the connection is closed (env_process.py:72-80). `HandleClient` stops right after that line.
- MODIFY_PARAMS changes nothing. The configuration object has no `update_parameter`, so the call raises and the queue handler only logs the error (env_process.py:159-170).
- The drought signal takes effect at once. The SIGUSR1 handler calls `trigger_drought` directly (env_process.py:172-174).
- GET_HERBE, GET_PREY and GET_PREDATOR have no handler in the coordinator (env_process.py:143-166). The model queues them as `Unsupported` commands and executes them as no-ops.
- GET_STATUS reports the shared drought flag, not the coordinator's own boolean (env_process.py:155).

## Model

| member | source | states |
|---|---|---|
| Text.Strip | env_process.py:74 | the stripped line is empty exactly when every character is whitespace; otherwise it starts after the leading whitespace, starts and ends with a non-whitespace character, and only whitespace follows it, so the leading whitespace, the result and the trailing whitespace make up the whole line |
| Text.Lower | display_process2.py:45 | lower-casing keeps the length, leaves no capital letter, keeps every other character and turns each capital into its own small letter |
| Text.LowerSingleLetter | display_process2.py:45-48 | only a letter and its capital lower-case to that single letter |
| Text.SplitFirst | env_process.py:73 | the buffer is the text before its first newline, the newline, then the rest; the text before holds no newline and the rest is shorter than the buffer |
| Text.FramingIsUnique | env_process.py:71-73 | the newline-free lines and the newline-free tail that a text frames into are determined by the text |
| Text.ReceivedPrefix | env_process.py:66-71 | what is received after some chunks is a prefix of what is received after all of them |
| Text.ReceivedStops | env_process.py:67-69 | nothing is received after the end-of-stream chunk |
| Settings.Defaults | config.py:15-52 | the shipped configuration has non-negative grass rates, a drawable drought duration and species whose energy decays and whose gains and costs are non-negative |
| Shared.SharedMemory.constructor | main.py:33-40 | the counters start at zero with the initial grass, no drought and no process id |
| EnvModel.SpawnIdDecodes | env_process.py:114 | a spawned id gives back its tick and its suffix |
| EnvModel.SpawnIdsOfDistinctTicksDiffer | env_process.py:123 | ids spawned on different ticks never collide |
| EnvModel.Dispatch | env_process.py:86-137 | JOIN adds one to the named species; DEATH takes one from it without going below zero and is always counted; a REPRODUCE under the species cap adds exactly one spawn request with the current tick's id and one birth; FEED and unknown messages change nothing; non-negative counters stay non-negative |
| EnvModel.DeathUndoesJoin | env_process.py:91-106 | a DEATH after a JOIN of the same species restores non-negative counters |
| EnvModel.DeliverEffects | env_process.py:62-137 | the messages of one connection keep counters non-negative, count every DEATH, pair every birth with one spawn request appended after the earlier ones, and change nothing else |
| EnvModel.DeliverSpawnsOnCurrentTick | env_process.py:112-130 | every agent spawned by messages dispatched within one tick gets an id in that tick's block of 1000 |
| EnvModel.Execute | env_process.py:143-166 | GET_STATUS appends the current snapshot, SHUTDOWN clears running, every other command changes nothing |
| EnvModel.DrainQueue | env_process.py:139-170 | the queue ends empty; running survives exactly when no SHUTDOWN was queued; one identical snapshot is replied per GET_STATUS |
| EnvModel.GrowGrass | env_process.py:176-187 | outside a drought the grass grows by the rate or reaches the cap; during one it decays by the rate or reaches zero; grass within [0, cap] stays there; nothing else changes |
| EnvModel.TriggerDrought | env_process.py:201-207 | a drought starts, the shared flag is 1 and the end tick lies the drawn duration ahead, within the configured range |
| EnvModel.EndDrought | env_process.py:210-214 | the drought and the shared flag are cleared and nothing else changes |
| EnvModel.CheckDrought | env_process.py:190-214 | an active drought ends exactly on a check at or after its end tick, which stays as it was; an inactive one starts exactly when the roll succeeds and then lasts the drawn duration; the shared flag follows every change |
| EnvModel.Tick | env_process.py:231-244 | one tick counts, then drains the queue, so every snapshot replied carries the new tick and the grass before it grows; the grass then becomes what update_grass makes of it; the populations and statistics are kept, the grass stays in bounds and decays strictly during a drought; the drought ends on the tick that reaches its end tick, a drought the roll starts ends the drawn duration after the new tick, and the shared flag is written exactly when the drought starts or ends |
| EnvModel.RunKeeps | env_process.py:216-244 | the tick loop stops for good once running is false, counts one tick per iteration, leaves populations, births, deaths and spawns alone, keeps grass within [0, cap], and keeps the shared drought flag equal to the drought state |
| EnvModel.DroughtLastsUntilEndTick | env_process.py:172-244 | without a SHUTDOWN and without a drought signal, a drought stays on with the same end tick, and the grass never grows, until the end tick is reached |
| EnvModel.Decoded | env_process.py:72-75 | blank lines are skipped and, when every line decodes, each non-blank line yields one message |
| EnvModel.DecodedInOrder | env_process.py:72-77 | when every line decodes, the messages are those of the non-blank lines in order; when only the last line fails, the messages are those of the lines before it |
| EnvModel.Deliver | env_process.py:72-75 | the decoded messages of one connection are dispatched one after the other, in the order they arrived (its effects are stated by DeliverEffects) |
| EnvModel.Snapshot | env_process.py:146-157 | the reply to GET_STATUS carries the population counts, the grass, the tick, the statistics and the shared drought flag |
| EnvModel.Arrived | env_process.py:172-174 | before an iteration the new commands are queued behind the old ones, and a drought signal's handler starts or restarts a drought that ends the drawn duration after the current tick; nothing else changes |
| EnvModel.Run | env_process.py:231-244 | the tick loop: while running, each iteration takes the commands and the drought signal that arrived and runs one tick (its effects are stated by RunKeeps and DroughtLastsUntilEndTick) |
| Environment.EnvironmentManager.constructor | env_process.py:19-35 | the manager starts running, with no drought, tick 0 and zero statistics |
| Environment.EnvironmentManager.ProcessMessage | env_process.py:86-137 | the message moves the abstract state as Dispatch does |
| Environment.EnvironmentManager.HandleClient | env_process.py:62-84 | the framed lines and the buffer left are exactly the text of the chunks read; the decoded messages are dispatched in order; a connection stops only at end of stream, when the manager stops, or right after the first line that fails to decode |
| Environment.EnvironmentManager.ReceiveChunk | env_process.py:67-75 | one chunk is appended to the buffer and its complete lines are framed and dispatched |
| Environment.EnvironmentManager.ExtractLines | env_process.py:72-75 | complete lines are taken off the buffer until none is left or one fails to decode, keeping the framed text unchanged |
| Environment.EnvironmentManager.TakeLine | env_process.py:73-75 | the text before the first newline is split off and handled |
| Environment.EnvironmentManager.HandleLine | env_process.py:74-75 | a non-blank line that decodes is dispatched; a non-blank line that does not decode ends the connection; a blank one changes nothing |
| Environment.EnvironmentManager.HandleMessageQueue | env_process.py:139-170 | the queue is drained as DrainQueue says |
| Environment.EnvironmentManager.UpdateGrass | env_process.py:176-187 | the grass moves as GrowGrass says |
| Environment.EnvironmentManager.TriggerDrought | env_process.py:201-207 | the drought starts as TriggerDrought says |
| Environment.EnvironmentManager.EndDrought | env_process.py:210-214 | the drought ends as EndDrought says |
| Environment.EnvironmentManager.CheckDrought | env_process.py:190-199 | the drought is checked as CheckDrought says |
| Environment.EnvironmentManager.Step | env_process.py:231-241 | one iteration of the tick loop moves the state as Tick does |
| Environment.EnvironmentManager.Arrive | env_process.py:172-174 | the arrivals between two iterations move the state as Arrived says |
| Environment.EnvironmentManager.Run | env_process.py:216-244 | the shared process id is published and the tick loop runs as Run does |
| Life.PreySpecies | config.py:15-30 | a prey reports itself as prey and eats grass; valid prey settings give a valid species |
| Life.PredatorSpecies | config.py:15-30 | a predator reports itself as predator and eats prey; valid predator settings give a valid species |
| Life.NextMode | prey_process.py:57-66 | below the hunger threshold the agent hunts, more than 20 points above it the agent rests, in between it keeps its mode |
| Life.NextModeIdempotent | prey_process.py:57-66 | updating the mode twice on the same energy is updating it once |
| Life.SwitchesSpanBand | prey_process.py:59-65 | turning active at one energy and passive at another takes a gain of more than the hysteresis band |
| Life.Emit | prey_process.py:48-55 | a message is appended to the outbox only over a connected socket, and nothing else changes |
| Life.Fed | prey_process.py:68-85 | feeding happens exactly when the agent hunts, the counter is positive and the capture roll succeeds; it then takes exactly one unit, adds the gain and reports FEED; the counter never goes below zero |
| Life.Reproduced | prey_process.py:87-101 | reproduction happens exactly when energy is above the threshold and the roll succeeds; it then subtracts the cost and reports REPRODUCE; otherwise nothing changes |
| Life.IterationSteps | prey_process.py:110-126 | a pass sets the mode from the decayed energy, eats at most one unit, keeps the counter non-negative, sends only FEED and REPRODUCE, and leaves the agent alive exactly when its energy is positive |
| Life.IterationProgresses | prey_process.py:110-126 | each pass either eats a unit or burns at least a decay's worth of energy without eating |
| Life.Iteration | prey_process.py:110-126 | one pass: decay, mode update, feeding, reproduction, then death when the energy is used up (its effects are stated by IterationSteps and IterationProgresses) |
| Life.Lived | prey_process.py:110-129 | the loop of live: it runs passes while the agent is alive, has energy and the shutdown flag reads clear (a prey has no flag) |
| Life.Passes | predator_process.py:105-124 | the index of the check at which the loop of live stops |
| Life.LivedStops | prey_process.py:110-126 | a loop that finds the agent dead or the flag set runs no pass; every pass runs with the flag read clear; a loop entered with positive energy and not stopped by the flag ends with the agent dead and its energy used up |
| Life.LivedSends | prey_process.py:110-126 | while alive an agent sends only FEED and REPRODUCE and keeps its socket |
| Life.LivedEats | predator_process.py:66-83 | a life never drives the counter it eats from below zero and only ever takes from it |
| Life.AttemptsFrom | prey_process.py:28-46 | connection attempts stop at the first success and never exceed five |
| Life.AttemptsStopAtFirstSuccess | prey_process.py:28-46 | between one and five attempts are made; all but the last fail; the connection is made exactly when one of the five allowed attempts succeeds |
| Life.Connected | prey_process.py:26-46 | a successful connection sends JOIN; a failed one sends nothing |
| Life.LifeCycle | prey_process.py:103-141 | the whole life: connect, or return when every attempt fails; run the loop; send DEATH and close the socket |
| Life.LifeCycleMessages | predator_process.py:100-136 | an agent that cannot connect sends nothing; one that connects sends JOIN first, DEATH last and only FEED and REPRODUCE in between; no pass starts after a check that found the shutdown flag set; unless the flag stops it, it dies with no energy left; a predator that finds the flag set at the first check sends just JOIN and DEATH; the counter it eats from stays non-negative |
| PreyAgent.Prey.constructor | prey_process.py:13-21 | a new prey has the initial energy, rests and is alive |
| PreyAgent.Prey.Send | prey_process.py:48-55 | the outbox grows as Emit says |
| PreyAgent.Prey.ConnectToEnv | prey_process.py:26-46 | the result and the attempt count are those of the model, and the state moves as Connected says |
| PreyAgent.Prey.UpdateState | prey_process.py:57-66 | the mode moves as NextMode says |
| PreyAgent.Prey.TryToFeed | prey_process.py:68-85 | the grass count, energy and outbox move as Fed says, and the result says whether it fed |
| PreyAgent.Prey.TryToReproduce | prey_process.py:87-101 | energy and outbox move as Reproduced says, and the result says whether it reproduced |
| PreyAgent.Prey.LiveIteration | prey_process.py:110-126 | one pass of the loop moves the state as Iteration does |
| PreyAgent.Prey.Live | prey_process.py:103-141 | the whole life moves the state as LifeCycle does |
| PredatorAgent.Predator.constructor | predator_process.py:13-21 | a new predator has the initial energy, rests and is alive |
| PredatorAgent.Predator.Send | predator_process.py:48-55 | the outbox grows as Emit says |
| PredatorAgent.Predator.ConnectToEnv | predator_process.py:26-46 | the result and the attempt count are those of the model, and the state moves as Connected says |
| PredatorAgent.Predator.UpdateState | predator_process.py:57-64 | the mode moves as NextMode says |
| PredatorAgent.Predator.TryToFeed | predator_process.py:66-83 | the prey count, energy and outbox move as Fed says, and the result says whether it fed |
| PredatorAgent.Predator.TryToReproduce | predator_process.py:85-98 | energy and outbox move as Reproduced says, and the result says whether it reproduced |
| PredatorAgent.Predator.LiveIteration | predator_process.py:105-121 | one pass of the loop moves the state as Iteration does |
| PredatorAgent.Predator.Live | predator_process.py:100-136 | the whole life moves the state as LifeCycle does, with the shared shutdown flag as the halt |
| Display.Classify | display_process2.py:113-120 | predator extinction exactly when there are no predators; prey extinction exactly when there are predators but no prey; critical exactly when both live and number under ten; stable otherwise |
| Display.StopRequested | display_process2.py:131-134 | the stop rule of print_status_line: both species gone, or tick at least 800 with a stable verdict |
| Display.StopRule | display_process2.py:131-134 | a stop is requested exactly when both species are gone, or from tick 800 on while both live and number at least ten |
| Display.OneSpeciesLeftRunsOn | display_process2.py:131-134 | with exactly one species gone, no stop is requested at any tick |
| Display.InputAction | display_process2.py:44-50 | the keyboard line is stripped and lower-cased; "q" quits, "s" asks for a drought |
| Display.InputActionCases | display_process2.py:44-50 | up to surrounding whitespace, only q or Q quits, only s or S asks for a drought, and every other line does nothing |
| Display.Input | display_process2.py:43-50 | no waiting line does nothing; a waiting line asks for a drought signal or quits as InputAction says |
| Display.Shown | display_process2.py:111-134 | the status line is shown with its verdict, then the observer stops when the stop rule holds |
| Display.Step | display_process2.py:82-102 | a pass of the main loop asks for a status, shows the reply if one came, then handles the keyboard |
| Display.MainLoop | display_process2.py:81-109 | the main loop runs while the observer runs and the user does not quit; its finally clause stops the simulation |
| Display.Stopped | display_process2.py:32-40 | a running observer queues one SHUTDOWN and stops; a stopped one changes nothing |
| Display.Drought | display_process2.py:53-56 | a signal is recorded only for a positive process id, and nothing else changes |
| Display.StopOnce | display_process2.py:32-40 | stopping keeps the observer's invariant, leaves exactly one SHUTDOWN queued, and stopping again changes nothing |
| Display.ShownKeeps | display_process2.py:111-134 | showing a status keeps the invariant and queues at most the SHUTDOWN of the stop rule |
| Display.InputKeeps | display_process2.py:43-59 | handling the keyboard keeps the invariant and queues nothing |
| Display.StepKeeps | display_process2.py:82-102 | a pass of the main loop queues one GET_STATUS, then at most one SHUTDOWN, and keeps the invariant |
| Display.MainLoopStopsOnce | display_process2.py:81-109 | the main loop always ends stopped with exactly one SHUTDOWN, last, in front of which the earlier commands are kept |
| Display.RunStopsOnce | display_process2.py:62-109 | a fresh run queues the three seeding commands first and ends with exactly one SHUTDOWN, queued last |
| Display.DisplayManager.constructor | display_process2.py:14-19 | a new observer runs with nothing queued, signalled or shown, and satisfies the invariant |
| Display.DisplayManager.StopSimulation | display_process2.py:32-40 | the state moves as Stopped says |
| Display.DisplayManager.TriggerDrought | display_process2.py:53-59 | the state moves as Drought says |
| Display.DisplayManager.HandleInput | display_process2.py:43-50 | the result is whether the line quits, and the state moves as the keyboard handling says |
| Display.DisplayManager.PrintStatusLine | display_process2.py:111-134 | the status line is recorded with its verdict, then the stop rule applies |
| Display.DisplayManager.RunMainLoop | display_process2.py:62-109 | after seeding the counts, the loop moves the state as MainLoop says |

## Left out

- Sockets, threads and the accept loop (env_process.py:37-60) are left out: they are I/O and concurrency. The data a connection receives is a parameter. Closing a client and removing it from the client list carry no state the model keeps.
- A connection's reading loop runs as one step, with no iteration of the tick loop and no SHUTDOWN in between (environment.dfy `HandleClient`). In the program an agent's connection stays open for its whole life (prey_process.py:34, 133-141) while `run` advances `tick_count` on another thread (env_process.py:231-232). So one connection's REPRODUCE messages get ids from many ticks (env_process.py:114, 123), and a SHUTDOWN during a connection ends its reading loop at the next `recv` (env_process.py:66). The model states the id of a spawn only for the messages dispatched within one tick (EnvModel.DeliverSpawnsOnCurrentTick).
- Drought signals reach the tick loop only between two of its iterations (EnvModel.Arrived). In the program the SIGUSR1 handler can run between any two steps of an iteration.
- Processes, `mp.Value`, `mp.Lock`, `time.sleep` and OS signals are left out. Each `with population_lock:` block is one atomic step. The SIGUSR1 handler is a direct call to `TriggerDrought`. Spawning a process is a `Spawn` record. `mp.Value('i', …)` holds 32-bit integers, and their wrap-around is not modelled.
- The processes share no concurrent interleaving in the model. An agent's life loop ends in the model because nothing else adds to the counter it eats from while it runs. With other processes feeding that counter, the loop need not end.
- `json.loads` and `json.dumps` are left out. Messages are already decoded, and `parse` stands for decoding a line. Message fields other than `type`, `entity` and `target` (such as `id`) are not kept.
- The outcomes of `random` are parameters. The probabilities themselves (0.4, 0.7, 0.3 and the drought probability) are not modelled.
- Float energies are integers in tenths, and float rounding is not modelled. The predator's values (100, 0.5, 46, 60) are exact binary floats. The prey's PREY_ENERGY_DECAY of 0.3 is not, so in Python a comparison on the prey's energy (prey_process.py:57-66, 124) can come out differently from the model's exact arithmetic and move a mode switch or the death by one pass. `int()` truncation of fractional grass rates is out; grass rates are integers.
- The bytes a connection receives are decoded as UTF-8 chunk by chunk (env_process.py:67). A multi-byte character split across two chunks would raise and close the connection. The model's chunks are already text, so that case is not modelled; the agents send ASCII JSON, where it cannot occur.
- Unicode whitespace and case folding are out: `strip` and `lower` are modelled on ASCII only.
- `send_message` failing on an open socket is not modelled: a connected agent's message always reaches its outbox.
- The predator's `shared_mem['shutdown']` lookup is modelled as a field of the shared block. The block built at main.py:33-40 has no such key, so that lookup would raise.
- The observer starts the coordinator with three arguments (display_process2.py:24), while `env_process` takes four (env_process.py:256). The model takes the coordinator's process id as a parameter and does not model starting it or joining processes (display_process2.py:21-29, 37-39).
- The integers the observer reads with `input()` for the seeding commands are not kept. The coordinator ignores those commands, and a line that is not a number raising out of `int()` is not modelled.
- The terminal output (banners, error messages, the exact status-line format) and the wait for a reply with its time-out are left out. A pass of the main loop receives the reply that arrived, or none.
- display_process.py, main.py, test.py and config.py's constructor are orchestration and UI outside this model.
- Display.DisplayManager.RunMainLoop: a run that never ends is not modelled. A finite sequence of rounds stands for the passes until a keyboard interrupt, after which the `finally` clause stops the simulation.
- Life.LifeCycleMessages, Life.Lived, Life.Passes, PreyAgent.Prey.Live and PredatorAgent.Predator.Live: they require a valid species (`sp.Ok()`, or `config.PreyOk()` / `config.PredatorOk()` for the classes). That means a positive decay and non-negative gain and cost, so that the loop terminates in the model; the source demands nothing of its configuration. The shipped configuration meets this (Settings.Defaults).
