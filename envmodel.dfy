/** The coordinator's state transitions as functions on values: one per
    lock-guarded block or method of the environment manager. The class in
    module Environment is proved to follow them, and the lemmas here state
    what they guarantee. */
module EnvModel {
  import opened Text
  import opened Settings
  import opened Protocol

  /** Everything the coordinator reads or writes: the shared counters and
      drought flag, its own fields, the spawn requests it has issued, its
      command queue and the snapshots it has put on the reply queue. */
  datatype Env = Env(
    predators: int,
    preys: int,
    grass: int,
    droughtFlag: int,
    running: bool,
    droughtActive: bool,
    tick: int,
    droughtEndTick: int,
    births: int,
    deaths: int,
    spawns: seq<Spawn>,
    queue: seq<Command>,
    replies: seq<Status>)

  /** A spawned id is the tick count times ID_SPAN plus a random suffix below ID_SPAN. */
  const ID_SPAN := 1000

  predicate IsSuffix(n: int) {
    0 <= n < ID_SPAN
  }

  function SpawnId(tick: int, suffix: int): int {
    tick * ID_SPAN + suffix
  }

  /** The tick and the suffix can be read back from a spawned id. */
  lemma SpawnIdDecodes(tick: int, suffix: int)
    requires IsSuffix(suffix)
    ensures SpawnId(tick, suffix) / ID_SPAN == tick
    ensures SpawnId(tick, suffix) % ID_SPAN == suffix
  {
    var id := SpawnId(tick, suffix);
    var q, m := id / ID_SPAN, id % ID_SPAN;
    assert id == q * ID_SPAN + m && 0 <= m < ID_SPAN;
    assert (q - tick) * ID_SPAN == suffix - m;
  }

  /** Ids spawned on different ticks never collide. */
  lemma SpawnIdsOfDistinctTicksDiffer(t1: int, s1: int, t2: int, s2: int)
    requires IsSuffix(s1) && IsSuffix(s2) && t1 != t2
    ensures SpawnId(t1, s1) != SpawnId(t2, s2)
  {
    SpawnIdDecodes(t1, s1);
    SpawnIdDecodes(t2, s2);
  }

  /** Python's max(0, n). */
  function Floor0(n: int): int {
    if n < 0 then 0 else n
  }

  /** A REPRODUCE for this entity is honoured: it names a species whose count
      is strictly below that species' cap. Extinction is not checked. */
  predicate MayReproduce(e: Env, entity: Entity, cfg: Config) {
    (entity == PredatorEntity && e.predators < cfg.maxPredators) ||
    (entity == PreyEntity && e.preys < cfg.maxPreys)
  }

  function Born(e: Env, entity: Entity, suffix: int): Env {
    e.(spawns := e.spawns + [Spawn(entity, SpawnId(e.tick, suffix))], births := e.births + 1)
  }

  /** process_message on one decoded message; `suffix` is the value drawn by
      random.randint(0, 999) when a new agent is spawned. */
  function Dispatch(e: Env, m: Msg, cfg: Config, suffix: int): (r: Env)
    requires IsSuffix(suffix)
    // JOIN adds one to the named species and to nothing else
    ensures m.Join? ==> r.predators == e.predators + (if m.entity == PredatorEntity then 1 else 0)
    ensures m.Join? ==> r.preys == e.preys + (if m.entity == PreyEntity then 1 else 0)
    // DEATH takes one from the named species, never below zero
    ensures m.Death? ==> r.predators == (if m.entity == PredatorEntity then Floor0(e.predators - 1) else e.predators)
    ensures m.Death? ==> r.preys == (if m.entity == PreyEntity then Floor0(e.preys - 1) else e.preys)
    ensures e.predators >= 0 ==> r.predators >= 0
    ensures e.preys >= 0 ==> r.preys >= 0
    // every DEATH is counted, whatever its entity
    ensures r.deaths == e.deaths + (if m.Death? then 1 else 0)
    // no other message touches the population counters
    ensures !m.Join? && !m.Death? ==> r.predators == e.predators && r.preys == e.preys
    // an honoured REPRODUCE issues exactly one spawn request and one birth
    ensures m.Reproduce? && MayReproduce(e, m.entity, cfg) ==>
      r.births == e.births + 1 && r.spawns == e.spawns + [Spawn(m.entity, SpawnId(e.tick, suffix))]
    ensures !(m.Reproduce? && MayReproduce(e, m.entity, cfg)) ==> r.births == e.births && r.spawns == e.spawns
    // FEED and unknown messages change nothing at all
    ensures m.Feed? || m.Other? ==> r == e
    // nothing outside the counters and statistics changes
    ensures r.(predators := e.predators, preys := e.preys, births := e.births, deaths := e.deaths, spawns := e.spawns) == e
  {
    match m
    case Join(entity) =>
      if entity == PredatorEntity then e.(predators := e.predators + 1)
      else if entity == PreyEntity then e.(preys := e.preys + 1)
      else e
    case Death(entity) =>
      var counted :=
        if entity == PredatorEntity then e.(predators := Floor0(e.predators - 1))
        else if entity == PreyEntity then e.(preys := Floor0(e.preys - 1))
        else e;
      counted.(deaths := e.deaths + 1)
    case Reproduce(entity) =>
      if entity == PredatorEntity && e.predators < cfg.maxPredators then Born(e, PredatorEntity, suffix)
      else if entity == PreyEntity && e.preys < cfg.maxPreys then Born(e, PreyEntity, suffix)
      else e
    case Feed(_, _) => e
    case Other => e
  }

  /** A DEATH undoes a JOIN of the same species on non-negative counters. */
  lemma DeathUndoesJoin(e: Env, entity: Entity, cfg: Config)
    requires e.predators >= 0 && e.preys >= 0
    ensures Dispatch(Dispatch(e, Join(entity), cfg, 0), Death(entity), cfg, 0).predators == e.predators
    ensures Dispatch(Dispatch(e, Join(entity), cfg, 0), Death(entity), cfg, 0).preys == e.preys
  {
  }

  /** Number of DEATH messages in msgs. */
  function DeathCount(msgs: seq<Msg>): nat {
    if msgs == [] then 0 else DeathCount(msgs[..|msgs| - 1]) + (if msgs[|msgs| - 1].Death? then 1 else 0)
  }

  predicate SuffixesOk(suffix: nat -> int, n: nat) {
    forall k :: 0 <= k < n ==> IsSuffix(suffix(k))
  }

  /** The messages of one connection dispatched in order; the k-th message
      draws suffix(k). */
  function Deliver(e: Env, msgs: seq<Msg>, cfg: Config, suffix: nat -> int): (r: Env)
    requires SuffixesOk(suffix, |msgs|)
    decreases |msgs|
  {
    if msgs == [] then e
    else
      var n := |msgs| - 1;
      Dispatch(Deliver(e, msgs[..n], cfg, suffix), msgs[n], cfg, suffix(n))
  }

  /** What one connection's messages do to the coordinator: non-negative
      counters stay non-negative, every DEATH is counted, every birth comes
      with exactly one spawn request appended after the earlier ones, and
      nothing outside the counters and statistics changes. */
  lemma {:induction false} DeliverEffects(e: Env, msgs: seq<Msg>, cfg: Config, suffix: nat -> int)
    requires SuffixesOk(suffix, |msgs|)
    ensures var r := Deliver(e, msgs, cfg, suffix);
      (e.predators >= 0 && e.preys >= 0 ==> r.predators >= 0 && r.preys >= 0) &&
      r.deaths == e.deaths + DeathCount(msgs) &&
      r.births >= e.births && r.births - e.births == |r.spawns| - |e.spawns| &&
      |r.spawns| >= |e.spawns| && r.spawns[..|e.spawns|] == e.spawns &&
      r.(predators := e.predators, preys := e.preys, births := e.births, deaths := e.deaths, spawns := e.spawns) == e
    decreases |msgs|
  {
    if msgs != [] {
      var n := |msgs| - 1;
      DeliverEffects(e, msgs[..n], cfg, suffix);
      var mid := Deliver(e, msgs[..n], cfg, suffix);
      var r := Deliver(e, msgs, cfg, suffix);
      assert r.spawns[..|mid.spawns|] == mid.spawns;
      assert r.spawns[..|e.spawns|] == mid.spawns[..|e.spawns|];
    }
  }

  /** Every agent spawned by messages dispatched within one tick carries an
      id of that tick: the tick times ID_SPAN plus a suffix below ID_SPAN. */
  lemma {:induction false} DeliverSpawnsOnCurrentTick(e: Env, msgs: seq<Msg>, cfg: Config, suffix: nat -> int)
    requires SuffixesOk(suffix, |msgs|)
    ensures forall j :: |e.spawns| <= j < |Deliver(e, msgs, cfg, suffix).spawns| ==>
      e.tick * ID_SPAN <= Deliver(e, msgs, cfg, suffix).spawns[j].id < e.tick * ID_SPAN + ID_SPAN
    decreases |msgs|
  {
    if msgs != [] {
      var n := |msgs| - 1;
      var mid := Deliver(e, msgs[..n], cfg, suffix);
      DeliverSpawnsOnCurrentTick(e, msgs[..n], cfg, suffix);
      DeliverEffects(e, msgs[..n], cfg, suffix);
      assert mid.tick == e.tick;
    }
  }

  /** The status snapshot GET_STATUS reports. Its drought field is the shared
      flag, not the coordinator's own boolean. */
  function Snapshot(e: Env): Status {
    Status(e.predators, e.preys, e.grass, e.tick, e.births, e.deaths, e.droughtFlag != 0)
  }

  /** One command taken off the queue. MODIFY_PARAMS changes nothing: the
      configuration object has no update_parameter method, so the call raises
      and the queue handler only logs the error. */
  function Execute(e: Env, c: Command): (r: Env)
    ensures r.replies == e.replies + (if c.GetStatus? then [Snapshot(e)] else [])
    ensures r.running == (e.running && !c.Shutdown?)
    ensures Snapshot(r) == Snapshot(e)
    ensures r.(replies := e.replies, running := e.running) == e
  {
    match c
    case GetStatus => e.(replies := e.replies + [Snapshot(e)])
    case Shutdown => e.(running := false)
    case ModifyParams(_, _) => e
    case Unsupported(_) => e
  }

  /** Number of GET_STATUS commands in q. */
  function StatusRequests(q: seq<Command>): nat {
    if q == [] then 0 else (if q[0].GetStatus? then 1 else 0) + StatusRequests(q[1..])
  }

  function Repeat<T>(x: T, n: nat): (s: seq<T>)
    ensures |s| == n && forall i :: 0 <= i < n ==> s[i] == x
  {
    seq(n, _ => x)
  }

  /** handle_message_queue: take commands off the front of the queue until it
      is empty. */
  function DrainQueue(e: Env): (r: Env)
    ensures r.queue == []
    ensures r.running == (e.running && Shutdown !in e.queue)
    // every snapshot taken during one drain is the same
    ensures r.replies == e.replies + Repeat(Snapshot(e), StatusRequests(e.queue))
    ensures r.(queue := e.queue, running := e.running, replies := e.replies) == e
    decreases |e.queue|
  {
    if e.queue == [] then e
    else
      var next := Execute(e.(queue := e.queue[1..]), e.queue[0]);
      var r := DrainQueue(next);
      assert Snapshot(next) == Snapshot(e);
      assert Repeat(Snapshot(e), StatusRequests(e.queue)) ==
        (if e.queue[0].GetStatus? then [Snapshot(e)] else []) + Repeat(Snapshot(e), StatusRequests(e.queue[1..]));
      r
  }

  function Min(a: int, b: int): int {
    if a < b then a else b
  }

  function Max(a: int, b: int): int {
    if a > b then a else b
  }

  /** update_grass: grow toward the cap outside a drought, decay toward zero
      during one. */
  function GrowGrass(e: Env, cfg: Config): (r: Env)
    ensures !e.droughtActive ==> r.grass <= cfg.grassMax && r.grass <= e.grass + cfg.grassGrowthRate
    ensures !e.droughtActive ==> r.grass == cfg.grassMax || r.grass == e.grass + cfg.grassGrowthRate
    ensures e.droughtActive ==> r.grass >= 0 && r.grass >= e.grass - cfg.grassDecreaseRate
    ensures e.droughtActive ==> r.grass == 0 || r.grass == e.grass - cfg.grassDecreaseRate
    ensures cfg.EnvironmentOk() && 0 <= e.grass <= cfg.grassMax ==> 0 <= r.grass <= cfg.grassMax
    ensures r == e.(grass := r.grass)
  {
    if !e.droughtActive then e.(grass := Min(e.grass + cfg.grassGrowthRate, cfg.grassMax))
    else e.(grass := Max(e.grass - cfg.grassDecreaseRate, 0))
  }

  predicate DurationOk(cfg: Config, duration: int) {
    cfg.droughtMinDuration <= duration <= cfg.droughtMaxDuration
  }

  /** trigger_drought, with `duration` the value random.randint drew in the
      configured range. A drought already under way is restarted. */
  function TriggerDrought(e: Env, cfg: Config, duration: int): (r: Env)
    requires DurationOk(cfg, duration)
    ensures r.droughtActive && r.droughtFlag == 1
    ensures e.tick + cfg.droughtMinDuration <= r.droughtEndTick <= e.tick + cfg.droughtMaxDuration
    ensures r.droughtEndTick - e.tick == duration
    ensures r.(droughtActive := e.droughtActive, droughtFlag := e.droughtFlag, droughtEndTick := e.droughtEndTick) == e
  {
    e.(droughtActive := true, droughtFlag := 1, droughtEndTick := e.tick + duration)
  }

  /** end_drought. */
  function EndDrought(e: Env): (r: Env)
    ensures !r.droughtActive && r.droughtFlag == 0
    ensures r.(droughtActive := e.droughtActive, droughtFlag := e.droughtFlag) == e
  {
    e.(droughtActive := false, droughtFlag := 0)
  }

  /** check_drought, with `roll` the outcome of the per-tick probability draw
      and `duration` the value a triggered drought would draw. */
  function CheckDrought(e: Env, cfg: Config, roll: bool, duration: int): (r: Env)
    requires DurationOk(cfg, duration)
    // an active drought ends on the first check at or after its end tick, never before
    ensures e.droughtActive ==> (r.droughtActive <==> e.tick < e.droughtEndTick)
    // an inactive drought starts exactly when the roll succeeds
    ensures !e.droughtActive ==> (r.droughtActive <==> roll)
    ensures !e.droughtActive && r.droughtActive ==>
      e.tick + cfg.droughtMinDuration <= r.droughtEndTick <= e.tick + cfg.droughtMaxDuration
    // a drought that starts lasts the drawn duration
    ensures !e.droughtActive && roll ==> r.droughtEndTick == e.tick + duration
    ensures r.droughtActive != e.droughtActive ==> r.droughtFlag == (if r.droughtActive then 1 else 0)
    ensures r.droughtActive == e.droughtActive ==> r == e
    // ending a drought leaves its end tick alone
    ensures e.droughtActive ==> r.droughtEndTick == e.droughtEndTick
    ensures r.(droughtActive := e.droughtActive, droughtFlag := e.droughtFlag, droughtEndTick := e.droughtEndTick) == e
  {
    if !e.droughtActive then
      if roll then TriggerDrought(e, cfg, duration) else e
    else if e.tick >= e.droughtEndTick then EndDrought(e)
    else e
  }

  /** What reaches the tick loop before one of its iterations, and the
      random draws of that iteration: the commands the observer put on the
      queue since the previous iteration; `signal`, Some(d) when a drought
      signal arrived meanwhile and its handler drew the duration d; the
      drought roll; and the duration a drought started by the roll would get. */
  datatype TickInput = TickInput(arrivals: seq<Command>, signal: Option<int>, roll: bool, duration: int)

  predicate InputOk(cfg: Config, t: TickInput) {
    DurationOk(cfg, t.duration) && (t.signal.Some? ==> DurationOk(cfg, t.signal.value))
  }

  predicate InputsOk(cfg: Config, inputs: seq<TickInput>) {
    forall i :: 0 <= i < |inputs| ==> InputOk(cfg, inputs[i])
  }

  /** The state at the start of an iteration: the new commands are queued
      and a drought signal that arrived runs its handler, handle_signal,
      which starts a drought, or restarts one under way. */
  function Arrived(e: Env, cfg: Config, t: TickInput): (r: Env)
    requires InputOk(cfg, t)
    ensures r.queue == e.queue + t.arrivals
    ensures t.signal.None? ==> r == e.(queue := r.queue)
    ensures t.signal.Some? ==> r.droughtActive && r.droughtFlag == 1 && r.droughtEndTick == e.tick + t.signal.value
    ensures r.(queue := e.queue, droughtActive := e.droughtActive, droughtFlag := e.droughtFlag,
               droughtEndTick := e.droughtEndTick) == e
  {
    var queued := e.(queue := e.queue + t.arrivals);
    if t.signal.Some? then TriggerDrought(queued, cfg, t.signal.value) else queued
  }

  /** One iteration of the tick loop: count the tick, drain the command queue,
      update the grass, then evaluate the drought. */
  function Tick(e: Env, cfg: Config, roll: bool, duration: int): (r: Env)
    requires DurationOk(cfg, duration)
    ensures r.tick == e.tick + 1
    ensures r.queue == []
    ensures r.running == (e.running && Shutdown !in e.queue)
    // the snapshots replied carry the tick just counted and the grass before it grows
    ensures r.replies == e.replies + Repeat(Snapshot(e.(tick := e.tick + 1)), StatusRequests(e.queue))
    ensures r.predators == e.predators && r.preys == e.preys
    ensures r.births == e.births && r.deaths == e.deaths && r.spawns == e.spawns
    ensures cfg.EnvironmentOk() && 0 <= e.grass <= cfg.grassMax ==> 0 <= r.grass <= cfg.grassMax
    // during a drought the grass strictly decays until it reaches zero
    ensures e.droughtActive && cfg.grassDecreaseRate > 0 ==> r.grass < e.grass || r.grass == 0
    ensures e.droughtActive ==> r.grass >= 0
    ensures e.droughtActive && cfg.grassDecreaseRate >= 0 && e.grass >= 0 ==> r.grass <= e.grass
    // outside one it grows by the growth rate or reaches the cap
    ensures !e.droughtActive ==> r.grass == e.grass + cfg.grassGrowthRate || r.grass == cfg.grassMax
    // the drought ends on the tick that reaches its end tick
    ensures e.droughtActive ==> (r.droughtActive <==> e.tick + 1 < e.droughtEndTick)
    ensures e.droughtActive ==> r.droughtEndTick == e.droughtEndTick
    ensures !e.droughtActive ==> (r.droughtActive <==> roll)
    ensures !e.droughtActive && roll ==> r.droughtEndTick == e.tick + 1 + duration
    // the grass is updated once, on the drought state the tick started with
    ensures r.grass == GrowGrass(e, cfg).grass
    // the shared flag is written exactly when the drought starts or ends
    ensures r.droughtFlag == (if r.droughtActive != e.droughtActive then (if r.droughtActive then 1 else 0) else e.droughtFlag)
  {
    CheckDrought(GrowGrass(DrainQueue(e.(tick := e.tick + 1)), cfg), cfg, roll, duration)
  }

  /** The tick loop, run while `running` holds, for at most |inputs| iterations. */
  function Run(e: Env, cfg: Config, inputs: seq<TickInput>): (r: Env)
    requires InputsOk(cfg, inputs)
    decreases |inputs|
  {
    if inputs == [] || !e.running then e
    else
      var t := inputs[0];
      Run(Tick(Arrived(e, cfg, t), cfg, t.roll, t.duration), cfg, inputs[1..])
  }

  /** The shared drought flag says whether the coordinator has a drought on. */
  predicate FlagFollows(e: Env) {
    e.droughtFlag == (if e.droughtActive then 1 else 0)
  }

  /** The tick loop stops for good once `running` is false, counts one tick
      per iteration, leaves the populations and statistics to the message
      dispatcher, keeps the grass within its bounds, and keeps the shared
      drought flag in step with the drought state. */
  lemma {:induction false} RunKeeps(e: Env, cfg: Config, inputs: seq<TickInput>)
    requires InputsOk(cfg, inputs)
    ensures !e.running ==> Run(e, cfg, inputs) == e
    ensures e.tick <= Run(e, cfg, inputs).tick <= e.tick + |inputs|
    ensures Run(e, cfg, inputs).running ==> Run(e, cfg, inputs).tick == e.tick + |inputs|
    ensures Run(e, cfg, inputs).predators == e.predators && Run(e, cfg, inputs).preys == e.preys
    ensures Run(e, cfg, inputs).births == e.births && Run(e, cfg, inputs).deaths == e.deaths
    ensures Run(e, cfg, inputs).spawns == e.spawns
    ensures cfg.EnvironmentOk() && 0 <= e.grass <= cfg.grassMax ==>
      0 <= Run(e, cfg, inputs).grass <= cfg.grassMax
    // the shared flag keeps following the coordinator's drought state
    ensures FlagFollows(e) ==> FlagFollows(Run(e, cfg, inputs))
    decreases |inputs|
  {
    if inputs != [] && e.running {
      var t := inputs[0];
      var next := Tick(Arrived(e, cfg, t), cfg, t.roll, t.duration);
      RunKeeps(next, cfg, inputs[1..]);
    }
  }

  /** The tick loop from iteration i on: one more iteration, then the rest. */
  lemma RunFrom(e: Env, cfg: Config, inputs: seq<TickInput>, i: nat)
    requires InputsOk(cfg, inputs) && i < |inputs| && e.running
    ensures InputsOk(cfg, inputs[i..]) && InputsOk(cfg, inputs[i + 1..])
    ensures Run(e, cfg, inputs[i..]) ==
      Run(Tick(Arrived(e, cfg, inputs[i]), cfg, inputs[i].roll, inputs[i].duration), cfg, inputs[i + 1..])
  {
    assert inputs[i..][1..] == inputs[i + 1..];
    assert forall j :: i <= j < |inputs| ==> inputs[i..][j - i] == inputs[j];
  }

  /** No SHUTDOWN is queued and no drought signal arrives. */
  predicate Undisturbed(e: Env, inputs: seq<TickInput>) {
    Shutdown !in e.queue &&
    forall i :: 0 <= i < |inputs| ==> Shutdown !in inputs[i].arrivals && inputs[i].signal.None?
  }

  /** A drought lasts until its end tick: while the tick loop runs without a
      SHUTDOWN or a drought signal and the end tick has not been reached, every iteration keeps the
      drought on, leaves its end tick alone, and lets the grass only decay. */
  lemma {:induction false} DroughtLastsUntilEndTick(e: Env, cfg: Config, inputs: seq<TickInput>)
    requires InputsOk(cfg, inputs)
    requires cfg.grassDecreaseRate >= 0
    requires e.running && e.droughtActive && Undisturbed(e, inputs)
    requires e.grass >= 0
    requires e.tick + |inputs| < e.droughtEndTick
    ensures Run(e, cfg, inputs).running
    ensures Run(e, cfg, inputs).droughtActive
    ensures Run(e, cfg, inputs).droughtEndTick == e.droughtEndTick
    ensures Run(e, cfg, inputs).tick == e.tick + |inputs|
    ensures Run(e, cfg, inputs).grass <= e.grass
    decreases |inputs|
  {
    if inputs != [] {
      var t := inputs[0];
      var e1 := Arrived(e, cfg, t);
      assert Shutdown !in e1.queue by {
        assert Shutdown !in t.arrivals;
      }
      var next := Tick(e1, cfg, t.roll, t.duration);
      assert Undisturbed(next, inputs[1..]) by {
        forall i | 0 <= i < |inputs[1..]| ensures Shutdown !in inputs[1..][i].arrivals && inputs[1..][i].signal.None? {
          assert inputs[1..][i] == inputs[i + 1];
        }
      }
      assert InputsOk(cfg, inputs[1..]) by {
        forall i | 0 <= i < |inputs[1..]| ensures InputOk(cfg, inputs[1..][i]) {
          assert inputs[1..][i] == inputs[i + 1];
        }
      }
      DroughtLastsUntilEndTick(next, cfg, inputs[1..]);
    }
  }

  /** The messages the non-blank lines decode to, in order, up to the first
      non-blank line that fails to decode; `parse` stands for json.loads. */
  function Decoded(lines: seq<string>, parse: string -> Option<Msg>): (msgs: seq<Msg>)
    ensures |msgs| <= |lines|
    // every blank line is skipped and every other line yields one message
    ensures AllDecode(lines, parse) ==> |msgs| == NonBlank(lines)
    decreases |lines|
  {
    if lines == [] then []
    else
      var init, last := lines[..|lines| - 1], lines[|lines| - 1];
      AllDecodeSnoc(init, last, parse);
      var prefix := Decoded(init, parse);
      if !AllDecode(init, parse) || IsBlank(last) || parse(last).None? then prefix
      else prefix + [parse(last).value]
  }

  /** The reference reading of a connection's lines: front to back, each
      non-blank line that decodes gives its message. */
  function LineMessages(lines: seq<string>, parse: string -> Option<Msg>): seq<Msg>
    decreases |lines|
  {
    if lines == [] then [] else OneLine(lines[0], parse) + LineMessages(lines[1..], parse)
  }

  /** The message of one line, if it is non-blank and decodes. */
  function OneLine(line: string, parse: string -> Option<Msg>): seq<Msg> {
    if !IsBlank(line) && parse(line).Some? then [parse(line).value] else []
  }

  lemma {:induction false} LineMessagesSnoc(lines: seq<string>, line: string, parse: string -> Option<Msg>)
    ensures LineMessages(lines + [line], parse) == LineMessages(lines, parse) + OneLine(line, parse)
    decreases |lines|
  {
    if lines == [] {
      assert [line][1..] == [];
    } else {
      var head, rest := OneLine(lines[0], parse), LineMessages(lines[1..], parse);
      assert (lines + [line])[0] == lines[0];
      assert (lines + [line])[1..] == lines[1..] + [line];
      LineMessagesSnoc(lines[1..], line, parse);
      assert LineMessages(lines + [line], parse) == head + (rest + OneLine(line, parse));
      assert head + (rest + OneLine(line, parse)) == (head + rest) + OneLine(line, parse);
    }
  }

  /** The messages dispatched are the parses of the non-blank lines, in
      order; a connection cut short by a line that does not decode delivers
      the messages of the lines before that one and nothing for it. */
  lemma {:induction false} DecodedInOrder(lines: seq<string>, parse: string -> Option<Msg>)
    ensures AllDecode(lines, parse) ==> Decoded(lines, parse) == LineMessages(lines, parse)
    ensures StopsAtLast(lines, parse) ==> Decoded(lines, parse) == Decoded(lines[..|lines| - 1], parse)
    decreases |lines|
  {
    if lines != [] {
      var init, last := lines[..|lines| - 1], lines[|lines| - 1];
      assert lines == init + [last];
      AllDecodeSnoc(init, last, parse);
      if AllDecode(lines, parse) {
        DecodedInOrder(init, parse);
        LineMessagesSnoc(init, last, parse);
      }
    }
  }

  /** Every non-blank line decodes. */
  predicate AllDecode(lines: seq<string>, parse: string -> Option<Msg>) {
    forall i :: 0 <= i < |lines| && !IsBlank(lines[i]) ==> parse(lines[i]).Some?
  }

  /** Every line decodes but the last, which is non-blank and does not. */
  predicate StopsAtLast(lines: seq<string>, parse: string -> Option<Msg>) {
    lines != [] && AllDecode(lines[..|lines| - 1], parse) &&
    !IsBlank(lines[|lines| - 1]) && parse(lines[|lines| - 1]).None?
  }

  /** Number of non-blank lines. */
  function NonBlank(lines: seq<string>): nat {
    if lines == [] then 0 else NonBlank(lines[..|lines| - 1]) + (if IsBlank(lines[|lines| - 1]) then 0 else 1)
  }

  lemma AllDecodeSnoc(lines: seq<string>, line: string, parse: string -> Option<Msg>)
    ensures AllDecode(lines + [line], parse) <==>
      AllDecode(lines, parse) && (IsBlank(line) || parse(line).Some?)
  {
    var s := lines + [line];
    assert forall i :: 0 <= i < |lines| ==> s[i] == lines[i];
    assert s[|lines|] == line;
  }

  /** Decoding one more line, when all earlier ones decoded. */
  lemma DecodedSnoc(lines: seq<string>, line: string, parse: string -> Option<Msg>)
    requires AllDecode(lines, parse)
    ensures Decoded(lines + [line], parse) ==
      Decoded(lines, parse) + (if !IsBlank(line) && parse(line).Some? then [parse(line).value] else [])
  {
    assert (lines + [line])[..|lines|] == lines;
  }

  /** Delivering one more message. */
  lemma DeliverSnoc(e: Env, msgs: seq<Msg>, m: Msg, cfg: Config, suffix: nat -> int)
    requires SuffixesOk(suffix, |msgs| + 1)
    ensures Deliver(e, msgs + [m], cfg, suffix) == Dispatch(Deliver(e, msgs, cfg, suffix), m, cfg, suffix(|msgs|))
  {
    assert (msgs + [m])[..|msgs|] == msgs;
  }
}
