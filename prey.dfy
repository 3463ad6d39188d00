/** A prey process's object. Its abstract state is its own fields together
    with the shared grass count, and every method is proved to move that
    state as the matching function of module Life does. */
module PreyAgent {
  import opened Settings
  import opened Protocol
  import opened Shared
  import opened Life

  /** A prey has no capture roll: feeding depends on its mode and the grass alone. */
  function NoRoll(k: nat): bool {
    true
  }

  /** A prey's loop has no shutdown flag: no check of it ever stops the loop. */
  function NoHalt(k: nat): bool {
    false
  }

  class Prey {
    const id: int
    const shared: SharedMemory
    const config: Config
    var energy: int
    var state: Mode
    var alive: bool
    /** The socket has connected to the coordinator and is still open. */
    var connected: bool
    /** The messages written to the socket, oldest first. */
    var outbox: seq<Msg>

    function Abstract(): Agent
      reads this, shared
    {
      Agent(energy, state, alive, connected, outbox, shared.grassCount)
    }

    function Kind(): Species {
      PreySpecies(config)
    }

    /** A new prey has the configured initial energy, rests and is alive. */
    constructor (id: int, shared: SharedMemory, config: Config)
      ensures this.id == id && this.shared == shared && this.config == config
      ensures energy == config.preyInitialEnergy && state == Passive && alive
      ensures !connected && outbox == []
    {
      this.id, this.shared, this.config := id, shared, config;
      energy, state, alive := config.preyInitialEnergy, Passive, true;
      connected, outbox := false, [];
    }

    /** send_message: the message is written only over a connected socket. */
    method Send(m: Msg)
      modifies this`outbox
      ensures Abstract() == Emit(old(Abstract()), m)
    {
      if connected {
        outbox := outbox + [m];
      }
    }

    /** connect_to_env, with canConnect(k) saying whether attempt k succeeds. */
    method ConnectToEnv(canConnect: nat -> bool) returns (ok: bool, attempts: nat)
      modifies this`connected, this`outbox
      ensures ok == Connects(canConnect)
      ensures attempts == AttemptsFrom(canConnect, 0)
      ensures Abstract() == Connected(old(Abstract()), Kind(), canConnect)
    {
      AttemptsStopAtFirstSuccess(canConnect);
      attempts := 0;
      for attempt := 0 to MAX_RETRIES
        invariant attempts == attempt
        invariant forall j :: 0 <= j < attempt ==> !canConnect(j)
        invariant Abstract() == old(Abstract())
      {
        attempts := attempt + 1;
        if canConnect(attempt) {
          connected := true;
          Send(Join(PreyEntity));
          return true, attempts;
        }
        if attempt == MAX_RETRIES - 1 {
          return false, attempts;
        }
      }
      return false, attempts;
    }

    /** update_state. */
    method UpdateState()
      modifies this`state
      ensures Abstract() == old(Abstract()).(mode := NextMode(old(energy), old(state), config.preyHungerThreshold))
    {
      if energy < config.preyHungerThreshold {
        if state != Active {
          state := Active;
        }
      } else if energy > config.preyHungerThreshold + HYSTERESIS_BAND {
        if state != Passive {
          state := Passive;
        }
      }
    }

    /** try_to_feed: an active prey eats one unit of grass when there is any. */
    method TryToFeed() returns (fed: bool)
      modifies this`energy, this`outbox, shared`grassCount
      ensures fed == CanFeed(old(Abstract()), true)
      ensures Abstract() == Fed(old(Abstract()), Kind(), true)
    {
      if state == Active {
        if shared.grassCount > 0 {
          shared.grassCount := shared.grassCount - 1;
          energy := energy + config.preyEnergyGain;
          Send(Feed(PreyEntity, GrassTarget));
          return true;
        }
      }
      return false;
    }

    /** try_to_reproduce, with `roll` the outcome of the 40% draw. */
    method TryToReproduce(roll: bool) returns (reproduced: bool)
      modifies this`energy, this`outbox
      ensures reproduced == CanReproduce(old(Abstract()), Kind(), roll)
      ensures Abstract() == Reproduced(old(Abstract()), Kind(), roll)
    {
      if energy > config.preyReproductionThreshold {
        if roll {
          energy := energy - config.preyReproductionCost;
          Send(Reproduce(PreyEntity));
          return true;
        }
      }
      return false;
    }

    /** One pass of the body of live's loop, with `roll` the pass's
        reproduction roll: the prey dies when its energy is used up. */
    method LiveIteration(roll: bool)
      modifies this`energy, this`state, this`alive, this`outbox, shared`grassCount
      ensures Abstract() == Iteration(old(Abstract()), Kind(), true, roll)
    {
      ghost var start := Abstract();
      energy := energy - config.preyEnergyDecay;
      UpdateState();
      ghost var moded := Abstract();
      assert moded == Decayed(start, Kind());
      var _ := TryToFeed();
      var _ := TryToReproduce(roll);
      ghost var grown := Abstract();
      assert grown == Reproduced(Fed(moded, Kind(), true), Kind(), roll);
      if energy <= 0 {
        alive := false;
      }
      assert Abstract() == Starved(grown);
    }

    /** live: repro(k) is the reproduction roll of the k-th pass of the loop. */
    method Live(canConnect: nat -> bool, repro: nat -> bool)
      requires config.PreyOk()
      modifies this, shared`grassCount
      ensures Abstract() == LifeCycle(old(Abstract()), Kind(), canConnect, NoRoll, repro, NoHalt)
    {
      var ok, _ := ConnectToEnv(canConnect);
      if !ok {
        return;
      }
      ghost var joined := Abstract();
      var k := 0;
      while alive && energy > 0
        invariant Lived(Abstract(), Kind(), NoRoll, repro, NoHalt, k) == Lived(joined, Kind(), NoRoll, repro, NoHalt, 0)
        decreases Stock(Abstract()), energy
      {
        IterationProgresses(Abstract(), Kind(), NoRoll(k), repro(k));
        LiveIteration(repro(k));
        k := k + 1;
        if !alive {
          break;
        }
      }
      Send(Death(PreyEntity));
      connected := false;
    }
  }
}
