/** A predator process's object. Its abstract state is its own fields
    together with the shared prey count, and every method is proved to move
    that state as the matching function of module Life does. */
module PredatorAgent {
  import opened Settings
  import opened Protocol
  import opened Shared
  import opened Life

  class Predator {
    const id: int
    const shared: SharedMemory
    const config: Config
    var energy: int
    var state: Mode
    var alive: bool
    /** The socket has connected to the coordinator and is still open. */
    var connected: bool
    /** The messages written to the socket, oldest first. */
    var outbox: seq<Msg>

    function Abstract(): Agent
      reads this, shared
    {
      Agent(energy, state, alive, connected, outbox, shared.preyCount)
    }

    function Kind(): Species {
      PredatorSpecies(config)
    }

    /** A new predator has the configured initial energy, rests and is alive. */
    constructor (id: int, shared: SharedMemory, config: Config)
      ensures this.id == id && this.shared == shared && this.config == config
      ensures energy == config.predatorInitialEnergy && state == Passive && alive
      ensures !connected && outbox == []
    {
      this.id, this.shared, this.config := id, shared, config;
      energy, state, alive := config.predatorInitialEnergy, Passive, true;
      connected, outbox := false, [];
    }

    /** send_message: the message is written only over a connected socket. */
    method Send(m: Msg)
      modifies this`outbox
      ensures Abstract() == Emit(old(Abstract()), m)
    {
      if connected {
        outbox := outbox + [m];
      }
    }

    /** connect_to_env, with canConnect(k) saying whether attempt k succeeds. */
    method ConnectToEnv(canConnect: nat -> bool) returns (ok: bool, attempts: nat)
      modifies this`connected, this`outbox
      ensures ok == Connects(canConnect)
      ensures attempts == AttemptsFrom(canConnect, 0)
      ensures Abstract() == Connected(old(Abstract()), Kind(), canConnect)
    {
      AttemptsStopAtFirstSuccess(canConnect);
      attempts := 0;
      for attempt := 0 to MAX_RETRIES
        invariant attempts == attempt
        invariant forall j :: 0 <= j < attempt ==> !canConnect(j)
        invariant Abstract() == old(Abstract())
      {
        attempts := attempt + 1;
        if canConnect(attempt) {
          connected := true;
          Send(Join(PredatorEntity));
          return true, attempts;
        }
        if attempt == MAX_RETRIES - 1 {
          return false, attempts;
        }
      }
      return false, attempts;
    }

    /** update_state. */
    method UpdateState()
      modifies this`state
      ensures Abstract() == old(Abstract()).(mode := NextMode(old(energy), old(state), config.predatorHungerThreshold))
    {
      if energy < config.predatorHungerThreshold {
        if state != Active {
          state := Active;
        }
      } else if energy > config.predatorHungerThreshold + HYSTERESIS_BAND {
        if state != Passive {
          state := Passive;
        }
      }
    }

    /** try_to_feed: an active predator that finds a prey and wins the 70%
        capture roll `captured` takes the prey off the shared count itself. */
    method TryToFeed(captured: bool) returns (fed: bool)
      modifies this`energy, this`outbox, shared`preyCount
      ensures fed == CanFeed(old(Abstract()), captured)
      ensures Abstract() == Fed(old(Abstract()), Kind(), captured)
    {
      if state == Active {
        if shared.preyCount > 0 {
          if captured {
            shared.preyCount := shared.preyCount - 1;
            energy := energy + config.predatorEnergyGain;
            Send(Feed(PredatorEntity, PreyTarget));
            return true;
          }
        }
      }
      return false;
    }

    /** try_to_reproduce, with `roll` the outcome of the 30% draw. */
    method TryToReproduce(roll: bool) returns (reproduced: bool)
      modifies this`energy, this`outbox
      ensures reproduced == CanReproduce(old(Abstract()), Kind(), roll)
      ensures Abstract() == Reproduced(old(Abstract()), Kind(), roll)
    {
      if energy > config.predatorReproductionThreshold {
        if roll {
          energy := energy - config.predatorReproductionCost;
          Send(Reproduce(PredatorEntity));
          return true;
        }
      }
      return false;
    }

    /** One pass of the body of live's loop, with the pass's capture and
        reproduction rolls: the predator dies when its energy is used up. */
    method LiveIteration(captured: bool, roll: bool)
      modifies this`energy, this`state, this`alive, this`outbox, shared`preyCount
      ensures Abstract() == Iteration(old(Abstract()), Kind(), captured, roll)
    {
      ghost var start := Abstract();
      energy := energy - config.predatorEnergyDecay;
      UpdateState();
      ghost var moded := Abstract();
      assert moded == Decayed(start, Kind());
      var _ := TryToFeed(captured);
      var _ := TryToReproduce(roll);
      ghost var grown := Abstract();
      assert grown == Reproduced(Fed(moded, Kind(), captured), Kind(), roll);
      if energy <= 0 {
        alive := false;
      }
      assert Abstract() == Starved(grown);
    }

    /** live: capture(k) and repro(k) are the rolls of the k-th pass of the
        loop, and halt(k) is the value the shared shutdown flag has, as set
        by another process, when the loop condition reads it before the k-th
        pass; each assignment to shared.shutdown stands for that write. */
    method Live(canConnect: nat -> bool, capture: nat -> bool, repro: nat -> bool, halt: nat -> bool)
      requires config.PredatorOk()
      modifies this, shared`preyCount, shared`shutdown
      ensures Abstract() == LifeCycle(old(Abstract()), Kind(), canConnect, capture, repro, halt)
    {
      var ok, _ := ConnectToEnv(canConnect);
      if !ok {
        return;
      }
      ghost var joined := Abstract();
      var k := 0;
      shared.shutdown := halt(k);
      while alive && energy > 0 && !shared.shutdown
        invariant shared.shutdown == halt(k)
        invariant Lived(Abstract(), Kind(), capture, repro, halt, k) == Lived(joined, Kind(), capture, repro, halt, 0)
        decreases Stock(Abstract()), energy
      {
        IterationProgresses(Abstract(), Kind(), capture(k), repro(k));
        LiveIteration(capture(k), repro(k));
        k := k + 1;
        if !alive {
          break;
        }
        shared.shutdown := halt(k);
      }
      Send(Death(PredatorEntity));
      connected := false;
    }
  }
}
