/** The life cycle the prey and predator processes share, as functions on a
    value that holds an agent's own fields together with the shared counter
    it feeds on (the grass count for a prey, the prey count for a predator).
    The two agent classes are proved to move their state as these functions
    say; the properties of a life are proved here. */
module Life {
  import opened Settings
  import opened Protocol

  /** An agent turns passive only once its energy is this far above its
      hunger threshold (20 energy points). */
  const HYSTERESIS_BAND := 20 * ENERGY_SCALE

  /** connect_to_env tries this many times. */
  const MAX_RETRIES := 5

  datatype Mode = Active | Passive

  /** What distinguishes the two species: the entity tag and feeding target
      of their messages, and their energy parameters. */
  datatype Species = Species(
    entity: Entity,
    target: Target,
    hunger: int,
    reproductionThreshold: int,
    initialEnergy: int,
    decay: int,
    gain: int,
    cost: int)
  {
    /** Energy decays on every tick; feeding and reproducing move it by
        non-negative amounts. */
    predicate Ok() {
      decay > 0 && gain >= 0 && cost >= 0
    }
  }

  function PreySpecies(cfg: Config): (sp: Species)
    ensures sp.entity == PreyEntity && sp.target == GrassTarget
    ensures cfg.PreyOk() ==> sp.Ok()
  {
    Species(PreyEntity, GrassTarget, cfg.preyHungerThreshold, cfg.preyReproductionThreshold,
            cfg.preyInitialEnergy, cfg.preyEnergyDecay, cfg.preyEnergyGain, cfg.preyReproductionCost)
  }

  function PredatorSpecies(cfg: Config): (sp: Species)
    ensures sp.entity == PredatorEntity && sp.target == PreyTarget
    ensures cfg.PredatorOk() ==> sp.Ok()
  {
    Species(PredatorEntity, PreyTarget, cfg.predatorHungerThreshold, cfg.predatorReproductionThreshold,
            cfg.predatorInitialEnergy, cfg.predatorEnergyDecay, cfg.predatorEnergyGain,
            cfg.predatorReproductionCost)
  }

  /** An agent's fields, whether its socket is connected, the messages it has
      written to the socket, and the shared counter it feeds on. */
  datatype Agent = Agent(
    energy: int,
    mode: Mode,
    alive: bool,
    connected: bool,
    outbox: seq<Msg>,
    food: int)

  /** update_state: below the hunger threshold the agent hunts, more than
      HYSTERESIS_BAND above it the agent rests, and in between it keeps its mode. */
  function NextMode(energy: int, mode: Mode, hunger: int): (r: Mode)
    ensures energy < hunger ==> r == Active
    ensures energy > hunger + HYSTERESIS_BAND ==> r == Passive
    ensures hunger <= energy <= hunger + HYSTERESIS_BAND ==> r == mode
  {
    if energy < hunger then Active
    else if energy > hunger + HYSTERESIS_BAND then Passive
    else mode
  }

  /** Updating the mode twice on the same energy gives what updating once gives. */
  lemma NextModeIdempotent(energy: int, mode: Mode, hunger: int)
    ensures NextMode(energy, NextMode(energy, mode, hunger), hunger) == NextMode(energy, mode, hunger)
  {
  }

  /** An agent that turned active at one energy and turned passive again at
      another has gained more than the hysteresis band in between, so the
      mode cannot flap on small changes of energy. */
  lemma SwitchesSpanBand(e1: int, e2: int, hunger: int)
    requires NextMode(e1, Passive, hunger) == Active
    requires NextMode(e2, Active, hunger) == Passive
    ensures e2 - e1 > HYSTERESIS_BAND
  {
  }

  /** send_message: a message reaches the coordinator only over a connected socket. */
  function Emit(a: Agent, m: Msg): (r: Agent)
    ensures r.outbox == a.outbox + (if a.connected then [m] else [])
    ensures r.(outbox := a.outbox) == a
  {
    if a.connected then a.(outbox := a.outbox + [m]) else a
  }

  /** The test try_to_feed makes: the agent hunts, there is something to eat
      and, for a predator, the capture roll succeeds. */
  predicate CanFeed(a: Agent, captured: bool) {
    a.mode == Active && a.food > 0 && captured
  }

  /** try_to_feed, one atomic step under the population lock. */
  function Fed(a: Agent, sp: Species, captured: bool): (r: Agent)
    ensures CanFeed(a, captured) ==>
      r.food == a.food - 1 && r.energy == a.energy + sp.gain &&
      r.outbox == a.outbox + (if a.connected then [Feed(sp.entity, sp.target)] else [])
    ensures !CanFeed(a, captured) ==> r == a
    ensures a.food >= 0 ==> r.food >= 0
    ensures r.mode == a.mode && r.alive == a.alive && r.connected == a.connected
  {
    if CanFeed(a, captured) then
      Emit(a.(food := a.food - 1, energy := a.energy + sp.gain), Feed(sp.entity, sp.target))
    else a
  }

  /** The test try_to_reproduce makes: energy strictly above the threshold
      and a successful roll. */
  predicate CanReproduce(a: Agent, sp: Species, roll: bool) {
    a.energy > sp.reproductionThreshold && roll
  }

  /** try_to_reproduce. */
  function Reproduced(a: Agent, sp: Species, roll: bool): (r: Agent)
    ensures CanReproduce(a, sp, roll) ==>
      r.energy == a.energy - sp.cost &&
      r.outbox == a.outbox + (if a.connected then [Reproduce(sp.entity)] else [])
    ensures !CanReproduce(a, sp, roll) ==> r == a
    ensures r.food == a.food && r.mode == a.mode && r.alive == a.alive && r.connected == a.connected
  {
    if CanReproduce(a, sp, roll) then
      Emit(a.(energy := a.energy - sp.cost), Reproduce(sp.entity))
    else a
  }

  /** The messages an agent sends while it lives: feeding and reproduction reports. */
  predicate LifeMessage(sp: Species, m: Msg) {
    m == Feed(sp.entity, sp.target) || m == Reproduce(sp.entity)
  }

  /** `before` is followed in `after` only by messages an agent sends while it lives. */
  predicate ExtendsWithLifeMessages(sp: Species, before: seq<Msg>, after: seq<Msg>) {
    |before| <= |after| && after[..|before|] == before &&
    forall i :: |before| <= i < |after| ==> LifeMessage(sp, after[i])
  }

  lemma ExtendsTransitive(sp: Species, s1: seq<Msg>, s2: seq<Msg>, s3: seq<Msg>)
    requires ExtendsWithLifeMessages(sp, s1, s2) && ExtendsWithLifeMessages(sp, s2, s3)
    ensures ExtendsWithLifeMessages(sp, s1, s3)
  {
    assert s3[..|s1|] == s3[..|s2|][..|s1|];
  }

  /** One pass of the body of live's loop: energy decays, the mode is updated
      on the decayed energy, the agent tries to feed and then to reproduce,
      and it dies when its energy is no longer positive. */
  function Iteration(a: Agent, sp: Species, captured: bool, roll: bool): Agent {
    Starved(Reproduced(Fed(Decayed(a, sp), sp, captured), sp, roll))
  }

  /** The start of a pass: energy decays and the mode follows the decayed energy. */
  function Decayed(a: Agent, sp: Species): Agent {
    var e := a.energy - sp.decay;
    a.(energy := e, mode := NextMode(e, a.mode, sp.hunger))
  }

  /** The end of a pass: an agent whose energy is used up dies. */
  function Starved(a: Agent): Agent {
    if a.energy <= 0 then a.(alive := false) else a
  }

  /** A pass of the loop decides the mode on the decayed energy, eats at
      most one unit and never drives the counter below zero, sends only
      feeding and reproduction reports, and leaves the agent alive exactly
      when its energy is still positive. */
  lemma IterationSteps(a: Agent, sp: Species, captured: bool, roll: bool)
    ensures Iteration(a, sp, captured, roll).mode == NextMode(a.energy - sp.decay, a.mode, sp.hunger)
    ensures Iteration(a, sp, captured, roll).alive == (a.alive && Iteration(a, sp, captured, roll).energy > 0)
    ensures Iteration(a, sp, captured, roll).connected == a.connected
    ensures a.food - 1 <= Iteration(a, sp, captured, roll).food <= a.food
    ensures a.food >= 0 ==> Iteration(a, sp, captured, roll).food >= 0
    ensures ExtendsWithLifeMessages(sp, a.outbox, Iteration(a, sp, captured, roll).outbox)
  {
    var r := Iteration(a, sp, captured, roll);
    assert r.outbox[..|a.outbox|] == a.outbox;
  }

  /** The units left for the agent to eat. */
  function Stock(a: Agent): nat {
    if a.food < 0 then 0 else a.food
  }

  /** Every pass of the loop either eats a unit or burns at least one
      decay's worth of energy without eating, so the loop ends when nothing
      else feeds the counter the agent eats from. */
  lemma {:induction false} IterationProgresses(a: Agent, sp: Species, captured: bool, roll: bool)
    requires sp.Ok()
    ensures Stock(Iteration(a, sp, captured, roll)) <= Stock(a)
    ensures Stock(Iteration(a, sp, captured, roll)) == Stock(a) ==>
      Iteration(a, sp, captured, roll).energy <= a.energy - sp.decay
  {
    var moded := Decayed(a, sp);
    var fed := Fed(moded, sp, captured);
    if !CanFeed(moded, captured) {
      assert fed == moded;
    }
  }

  /** The loop of live from pass k on; the k-th pass draws capture(k) and
      repro(k). halt(k) is the shared shutdown flag as the loop condition
      reads it before the k-th pass: a predator's loop starts no pass while
      it is set (a prey's loop has no such flag, see PreyAgent.NoHalt). */
  function Lived(a: Agent, sp: Species, capture: nat -> bool, repro: nat -> bool, halt: nat -> bool, k: nat): (r: Agent)
    requires sp.Ok()
    decreases Stock(a), a.energy
  {
    if !a.alive || a.energy <= 0 || halt(k) then a
    else
      IterationProgresses(a, sp, capture(k), repro(k));
      Lived(Iteration(a, sp, capture(k), repro(k)), sp, capture, repro, halt, k + 1)
  }

  /** The index of the check at which the loop of live, entered at pass k,
      stops: the passes it runs are k up to, excluding, this index. */
  function Passes(a: Agent, sp: Species, capture: nat -> bool, repro: nat -> bool, halt: nat -> bool, k: nat): nat
    requires sp.Ok()
    decreases Stock(a), a.energy
  {
    if !a.alive || a.energy <= 0 || halt(k) then k
    else
      IterationProgresses(a, sp, capture(k), repro(k));
      Passes(Iteration(a, sp, capture(k), repro(k)), sp, capture, repro, halt, k + 1)
  }

  /** The loop of live runs a pass only while the shutdown flag reads clear,
      and stops at the first check that finds the agent dead, out of energy
      or the flag set. A dead or stopped agent does not enter the loop at
      all; a living agent that has energy and is not stopped by the flag
      ends dead with no energy left. */
  lemma {:induction false} LivedStops(a: Agent, sp: Species, capture: nat -> bool, repro: nat -> bool, halt: nat -> bool, k: nat)
    requires sp.Ok()
    ensures halt(k) || !a.alive ==>
      Lived(a, sp, capture, repro, halt, k) == a && Passes(a, sp, capture, repro, halt, k) == k
    ensures k <= Passes(a, sp, capture, repro, halt, k)
    ensures forall j :: k <= j < Passes(a, sp, capture, repro, halt, k) ==> !halt(j)
    ensures a.alive && a.energy > 0 && !halt(Passes(a, sp, capture, repro, halt, k)) ==>
      !Lived(a, sp, capture, repro, halt, k).alive && Lived(a, sp, capture, repro, halt, k).energy <= 0
    decreases Stock(a), a.energy
  {
    if a.alive && a.energy > 0 && !halt(k) {
      var next := Iteration(a, sp, capture(k), repro(k));
      IterationSteps(a, sp, capture(k), repro(k));
      IterationProgresses(a, sp, capture(k), repro(k));
      LivedStops(next, sp, capture, repro, halt, k + 1);
    }
  }

  /** While it lives an agent sends only feeding and reproduction reports,
      and its socket stays as it was. */
  lemma {:induction false} LivedSends(a: Agent, sp: Species, capture: nat -> bool, repro: nat -> bool, halt: nat -> bool, k: nat)
    requires sp.Ok()
    ensures ExtendsWithLifeMessages(sp, a.outbox, Lived(a, sp, capture, repro, halt, k).outbox)
    ensures Lived(a, sp, capture, repro, halt, k).connected == a.connected
    decreases Stock(a), a.energy
  {
    if a.alive && a.energy > 0 && !halt(k) {
      var next := Iteration(a, sp, capture(k), repro(k));
      IterationSteps(a, sp, capture(k), repro(k));
      IterationProgresses(a, sp, capture(k), repro(k));
      LivedSends(next, sp, capture, repro, halt, k + 1);
      ExtendsTransitive(sp, a.outbox, next.outbox, Lived(next, sp, capture, repro, halt, k + 1).outbox);
    }
  }

  /** Feeding never drives the counter an agent eats from below zero, and
      a life only ever takes from it. */
  lemma {:induction false} LivedEats(a: Agent, sp: Species, capture: nat -> bool, repro: nat -> bool, halt: nat -> bool, k: nat)
    requires sp.Ok()
    requires a.food >= 0
    ensures 0 <= Lived(a, sp, capture, repro, halt, k).food <= a.food
    decreases Stock(a), a.energy
  {
    if a.alive && a.energy > 0 && !halt(k) {
      var next := Iteration(a, sp, capture(k), repro(k));
      IterationSteps(a, sp, capture(k), repro(k));
      IterationProgresses(a, sp, capture(k), repro(k));
      LivedEats(next, sp, capture, repro, halt, k + 1);
    }
  }

  /** The number of connection attempts connect_to_env makes from attempt k
      on, with canConnect(k) saying whether the k-th attempt succeeds. */
  function AttemptsFrom(canConnect: nat -> bool, k: nat): (n: nat)
    requires k < MAX_RETRIES
    ensures k < n <= MAX_RETRIES
    ensures canConnect(n - 1) || n == MAX_RETRIES
    ensures forall j :: k <= j < n - 1 ==> !canConnect(j)
    decreases MAX_RETRIES - k
  {
    if canConnect(k) || k == MAX_RETRIES - 1 then k + 1 else AttemptsFrom(canConnect, k + 1)
  }

  /** Some attempt among the first MAX_RETRIES succeeds. */
  predicate Connects(canConnect: nat -> bool) {
    exists k :: 0 <= k < MAX_RETRIES && canConnect(k)
  }

  /** connect_to_env stops at the first successful attempt and never tries
      more than MAX_RETRIES times; it succeeds exactly when some allowed
      attempt does. */
  lemma AttemptsStopAtFirstSuccess(canConnect: nat -> bool)
    ensures 1 <= AttemptsFrom(canConnect, 0) <= MAX_RETRIES
    ensures forall j :: 0 <= j < AttemptsFrom(canConnect, 0) - 1 ==> !canConnect(j)
    ensures Connects(canConnect) <==> canConnect(AttemptsFrom(canConnect, 0) - 1)
  {
  }

  /** connect_to_env on a freshly built agent: a successful attempt connects
      the socket and sends JOIN; otherwise nothing is sent. */
  function Connected(a: Agent, sp: Species, canConnect: nat -> bool): (r: Agent)
    ensures Connects(canConnect) ==> r == a.(connected := true, outbox := a.outbox + [Join(sp.entity)])
    ensures !Connects(canConnect) ==> r == a
  {
    if Connects(canConnect) then Emit(a.(connected := true), Join(sp.entity)) else a
  }

  /** live: connect, run the loop, send DEATH and close the socket. */
  function LifeCycle(a: Agent, sp: Species, canConnect: nat -> bool, capture: nat -> bool,
                     repro: nat -> bool, halt: nat -> bool): (r: Agent)
    requires sp.Ok()
  {
    if !Connects(canConnect) then a
    else
      var lived := Lived(Connected(a, sp, canConnect), sp, capture, repro, halt, 0);
      Emit(lived, Death(sp.entity)).(connected := false)
  }

  /** The messages of a whole life. An agent that cannot connect sends
      nothing. One that connects sends JOIN first and DEATH last, and only
      feeding and reproduction reports in between, so exactly one JOIN and
      one DEATH. Its loop runs passes 0 up to, excluding, the index of its
      last check, and every one of them started with the shutdown flag
      clear, so no pass starts once the flag has been read set; unless the
      flag stops it, it ends dead with no energy left. A predator that finds
      the flag set at the first check sends just JOIN and DEATH. The counter
      it eats from never goes below zero. */
  lemma LifeCycleMessages(a: Agent, sp: Species, canConnect: nat -> bool, capture: nat -> bool,
                          repro: nat -> bool, halt: nat -> bool)
    requires sp.Ok()
    requires !a.connected
    ensures !Connects(canConnect) ==> LifeCycle(a, sp, canConnect, capture, repro, halt) == a
    ensures Connects(canConnect) ==>
      var out := LifeCycle(a, sp, canConnect, capture, repro, halt).outbox;
      |out| >= |a.outbox| + 2 && out[..|a.outbox|] == a.outbox &&
      out[|a.outbox|] == Join(sp.entity) && out[|out| - 1] == Death(sp.entity) &&
      forall i :: |a.outbox| < i < |out| - 1 ==> LifeMessage(sp, out[i])
    ensures Connects(canConnect) ==>
      forall j :: 0 <= j < Passes(Connected(a, sp, canConnect), sp, capture, repro, halt, 0) ==> !halt(j)
    ensures (Connects(canConnect) && a.alive && a.energy > 0 &&
             !halt(Passes(Connected(a, sp, canConnect), sp, capture, repro, halt, 0))) ==>
      !LifeCycle(a, sp, canConnect, capture, repro, halt).alive &&
      LifeCycle(a, sp, canConnect, capture, repro, halt).energy <= 0
    ensures Connects(canConnect) && halt(0) ==>
      LifeCycle(a, sp, canConnect, capture, repro, halt) ==
        a.(outbox := a.outbox + [Join(sp.entity), Death(sp.entity)])
    ensures a.food >= 0 ==> 0 <= LifeCycle(a, sp, canConnect, capture, repro, halt).food <= a.food
  {
    if Connects(canConnect) {
      var joined := Connected(a, sp, canConnect);
      LivedStops(joined, sp, capture, repro, halt, 0);
      LivedSends(joined, sp, capture, repro, halt, 0);
      if a.food >= 0 {
        LivedEats(joined, sp, capture, repro, halt, 0);
      }
      var lived := Lived(joined, sp, capture, repro, halt, 0);
      var out := LifeCycle(a, sp, canConnect, capture, repro, halt).outbox;
      assert out == lived.outbox + [Death(sp.entity)];
      assert lived.outbox[..|joined.outbox|] == joined.outbox;
      assert out[..|a.outbox|] == a.outbox;
      forall i | |a.outbox| < i < |out| - 1
        ensures LifeMessage(sp, out[i])
      {
        assert out[i] == lived.outbox[i];
      }
    }
  }
}
