/** The environment manager: the coordinator process's object. Every method
    is proved to move the object's abstract state exactly as the matching
    function of module EnvModel does. */
module Environment {
  import opened Text
  import opened Settings
  import opened Protocol
  import opened Shared
  import opened EnvModel

  class EnvironmentManager {
    const shared: SharedMemory
    const config: Config
    /** The observer's command queue, front first. */
    var cmdQueue: seq<Command>
    /** The status snapshots put on the reply queue, oldest first. */
    var dataQueue: seq<Status>
    var running: bool
    var droughtActive: bool
    var tickCount: int
    var droughtEndTick: int
    var totalBirths: int
    var totalDeaths: int
    /** The agent processes started on REPRODUCE, oldest first. */
    var spawned: seq<Spawn>

    function Abstract(): Env
      reads this, shared
    {
      Env(shared.predatorCount, shared.preyCount, shared.grassCount, shared.droughtActive,
          running, droughtActive, tickCount, droughtEndTick, totalBirths, totalDeaths,
          spawned, cmdQueue, dataQueue)
    }

    constructor (shared: SharedMemory, commands: seq<Command>, config: Config)
      ensures this.shared == shared && this.config == config
      ensures cmdQueue == commands && dataQueue == [] && spawned == []
      ensures running && !droughtActive && tickCount == 0 && droughtEndTick == 0
      ensures totalBirths == 0 && totalDeaths == 0
    {
      this.shared, this.config := shared, config;
      cmdQueue, dataQueue, spawned := commands, [], [];
      running, droughtActive := true, false;
      tickCount, droughtEndTick := 0, 0;
      totalBirths, totalDeaths := 0, 0;
    }

    /** process_message; each branch is one atomic step under the population
        lock. `suffix` is the value random.randint(0, 999) draws for a spawned id. */
    method ProcessMessage(m: Msg, suffix: int)
      requires IsSuffix(suffix)
      modifies this`spawned, this`totalBirths, this`totalDeaths, shared`predatorCount, shared`preyCount
      ensures Abstract() == Dispatch(old(Abstract()), m, config, suffix)
    {
      match m
      case Join(entity) =>
        if entity == PredatorEntity {
          shared.predatorCount := shared.predatorCount + 1;
        } else if entity == PreyEntity {
          shared.preyCount := shared.preyCount + 1;
        }
      case Death(entity) =>
        if entity == PredatorEntity {
          shared.predatorCount := Floor0(shared.predatorCount - 1);
        } else if entity == PreyEntity {
          shared.preyCount := Floor0(shared.preyCount - 1);
        }
        totalDeaths := totalDeaths + 1;
      case Reproduce(entity) =>
        if entity == PredatorEntity && shared.predatorCount < config.maxPredators {
          var newId := tickCount * 1000 + suffix;
          spawned := spawned + [Spawn(PredatorEntity, newId)];
          totalBirths := totalBirths + 1;
        } else if entity == PreyEntity && shared.preyCount < config.maxPreys {
          var newId := tickCount * 1000 + suffix;
          spawned := spawned + [Spawn(PreyEntity, newId)];
          totalBirths := totalBirths + 1;
        }
      case Feed(_, _) =>
      case Other =>
    }

    /** The reading loop of handle_client over the chunks one connection
        delivers (an empty chunk is end of stream). `parse` stands for
        json.loads; a line it rejects raises out of the loop and closes the
        connection. The chunks are read with no iteration of the tick loop in
        between, so the tick count and `running` stay as they are. The ghost
        results are the lines taken out of the buffer, what is left in it,
        and the number of chunks read. */
    method HandleClient(chunks: seq<string>, parse: string -> Option<Msg>, suffix: nat -> int)
      returns (ghost lines: seq<string>, ghost rest: string, ghost used: nat)
      requires forall k: nat :: IsSuffix(suffix(k))
      modifies this`spawned, this`totalBirths, this`totalDeaths, shared`predatorCount, shared`preyCount
      ensures Abstract() == Deliver(old(Abstract()), Decoded(lines, parse), config, suffix)
      ensures forall j :: 0 <= j < |lines| ==> '\n' !in lines[j]
      // the lines and the rest of the buffer are exactly the text of the chunks read
      ensures used <= |chunks| && Unlines(lines) + rest == Received(chunks[..used])
      ensures !running ==> lines == [] && rest == ""
      // a connection that is not cut short frames everything it received
      ensures AllDecode(lines, parse) ==> '\n' !in rest
      ensures AllDecode(lines, parse) && running ==> Unlines(lines) + rest == Received(chunks)
      // otherwise it stops right after the first line that does not decode
      ensures !AllDecode(lines, parse) ==> StopsAtLast(lines, parse)
    {
      ghost var start := Abstract();
      lines := [];
      var buffer := "";
      var dispatched := 0;
      var i := 0;
      var ok := true;
      while running && ok && i < |chunks|
        invariant 0 <= i <= |chunks|
        invariant !running ==> lines == [] && buffer == ""
        invariant forall j :: 0 <= j < i ==> chunks[j] != ""
        invariant forall j :: 0 <= j < |lines| ==> '\n' !in lines[j]
        invariant Unlines(lines) + buffer == Received(chunks[..i])
        invariant ok ==> '\n' !in buffer
        invariant ok <==> AllDecode(lines, parse)
        invariant ok ==> dispatched == |Decoded(lines, parse)|
        invariant !ok ==> StopsAtLast(lines, parse)
        invariant Abstract() == Deliver(start, Decoded(lines, parse), config, suffix)
      {
        var data := chunks[i];
        if data == "" {
          break;
        }
        buffer, dispatched, ok, lines := ReceiveChunk(chunks, i, buffer, parse, suffix, dispatched, start, lines);
        i := i + 1;
      }
      if running && ok {
        ReceivedStops(chunks, i);
      }
      rest, used := buffer, i;
    }

    /** One pass of handle_client's reading loop: the i-th chunk, which is
        not the end of stream, is appended to the buffer and the complete
        lines are taken out of it. */
    method ReceiveChunk(chunks: seq<string>, i: nat, buffer: string, parse: string -> Option<Msg>,
                        suffix: nat -> int, dispatched: nat, ghost start: Env, ghost lines: seq<string>)
      returns (rest: string, count: nat, ok: bool, ghost framed: seq<string>)
      requires i < |chunks| && forall j :: 0 <= j <= i ==> chunks[j] != ""
      requires forall k: nat :: IsSuffix(suffix(k))
      requires forall j :: 0 <= j < |lines| ==> '\n' !in lines[j]
      requires Unlines(lines) + buffer == Received(chunks[..i])
      requires AllDecode(lines, parse) && dispatched == |Decoded(lines, parse)|
      requires Abstract() == Deliver(start, Decoded(lines, parse), config, suffix)
      modifies this`spawned, this`totalBirths, this`totalDeaths, shared`predatorCount, shared`preyCount
      ensures forall j :: 0 <= j < |framed| ==> '\n' !in framed[j]
      ensures Unlines(framed) + rest == Received(chunks[..i + 1])
      ensures ok ==> '\n' !in rest
      ensures ok <==> AllDecode(framed, parse)
      ensures ok ==> count == |Decoded(framed, parse)|
      ensures !ok ==> StopsAtLast(framed, parse)
      ensures Abstract() == Deliver(start, Decoded(framed, parse), config, suffix)
    {
      var data := chunks[i];
      rest, count, ok, framed := ExtractLines(buffer + data, parse, suffix, dispatched, start, lines);
      ChunkFramed(chunks, i, lines, buffer, framed, rest);
    }

    /** The inner loop of handle_client: while the buffer holds a newline,
        split off the text before it and handle that line. `lines` are the
        lines the connection framed earlier and `dispatched` the number of
        messages they gave, which were dispatched starting from `start`;
        `framed` extends `lines` with the lines this loop takes out, and
        `count` is the new number of messages. */
    method ExtractLines(buffer: string, parse: string -> Option<Msg>, suffix: nat -> int, dispatched: nat,
                        ghost start: Env, ghost lines: seq<string>)
      returns (rest: string, count: nat, ok: bool, ghost framed: seq<string>)
      requires forall k: nat :: IsSuffix(suffix(k))
      requires forall j :: 0 <= j < |lines| ==> '\n' !in lines[j]
      requires AllDecode(lines, parse) && dispatched == |Decoded(lines, parse)|
      requires Abstract() == Deliver(start, Decoded(lines, parse), config, suffix)
      modifies this`spawned, this`totalBirths, this`totalDeaths, shared`predatorCount, shared`preyCount
      ensures Unlines(framed) + rest == Unlines(lines) + buffer
      ensures forall j :: 0 <= j < |framed| ==> '\n' !in framed[j]
      ensures Abstract() == Deliver(start, Decoded(framed, parse), config, suffix)
      ensures ok <==> AllDecode(framed, parse)
      ensures ok ==> '\n' !in rest && count == |Decoded(framed, parse)|
      ensures !ok ==> StopsAtLast(framed, parse)
    {
      rest, count, ok, framed := buffer, dispatched, true, lines;
      while ok && '\n' in rest
        invariant Unlines(framed) + rest == Unlines(lines) + buffer
        invariant forall j :: 0 <= j < |framed| ==> '\n' !in framed[j]
        invariant ok <==> AllDecode(framed, parse)
        invariant ok ==> count == |Decoded(framed, parse)|
        invariant !ok ==> StopsAtLast(framed, parse)
        invariant Abstract() == Deliver(start, Decoded(framed, parse), config, suffix)
        decreases |rest|
      {
        rest, count, ok, framed := TakeLine(rest, parse, suffix, count, start, framed);
      }
    }

    /** One turn of the inner loop: the text before the first newline is
        split off the buffer and handled. */
    method TakeLine(buffer: string, parse: string -> Option<Msg>, suffix: nat -> int, dispatched: nat,
                    ghost start: Env, ghost lines: seq<string>)
      returns (rest: string, count: nat, ok: bool, ghost framed: seq<string>)
      requires '\n' in buffer
      requires forall k: nat :: IsSuffix(suffix(k))
      requires forall j :: 0 <= j < |lines| ==> '\n' !in lines[j]
      requires AllDecode(lines, parse) && dispatched == |Decoded(lines, parse)|
      requires Abstract() == Deliver(start, Decoded(lines, parse), config, suffix)
      modifies this`spawned, this`totalBirths, this`totalDeaths, shared`predatorCount, shared`preyCount
      ensures |rest| < |buffer|
      ensures Unlines(framed) + rest == Unlines(lines) + buffer
      ensures forall j :: 0 <= j < |framed| ==> '\n' !in framed[j]
      ensures ok <==> AllDecode(framed, parse)
      ensures ok ==> count == |Decoded(framed, parse)|
      ensures !ok ==> StopsAtLast(framed, parse)
      ensures Abstract() == Deliver(start, Decoded(framed, parse), config, suffix)
    {
      var parts := SplitFirst(buffer);
      var line := parts.0;
      FrameStep(lines, buffer);
      AllDecodeSnoc(lines, line, parse);
      DecodedSnoc(lines, line, parse);
      if !IsBlank(line) && parse(line).Some? {
        DeliverSnoc(start, Decoded(lines, parse), parse(line).value, config, suffix);
      }
      rest := parts.1;
      framed := lines + [line];
      assert framed[..|framed| - 1] == lines;
      var handled;
      handled, ok := HandleLine(line, parse, suffix(dispatched));
      count := if handled then dispatched + 1 else dispatched;
    }

    /** One line taken out of the buffer: a non-blank line is decoded and
        dispatched. `handled` says a message was dispatched; `ok` is false
        when the line does not decode, which ends the connection. */
    method HandleLine(line: string, parse: string -> Option<Msg>, suffix: int)
      returns (handled: bool, ok: bool)
      requires IsSuffix(suffix)
      modifies this`spawned, this`totalBirths, this`totalDeaths, shared`predatorCount, shared`preyCount
      ensures handled <==> !IsBlank(line) && parse(line).Some?
      ensures ok <==> IsBlank(line) || parse(line).Some?
      ensures Abstract() == if handled then Dispatch(old(Abstract()), parse(line).value, config, suffix) else old(Abstract())
    {
      handled, ok := false, true;
      if Strip(line) != [] {
        var decoded := parse(line);
        if decoded.None? {
          ok := false;
          return;
        }
        ProcessMessage(decoded.value, suffix);
        handled := true;
      }
    }

    /** handle_message_queue: the queue is drained front first until empty. */
    method HandleMessageQueue()
      modifies this
      ensures Abstract() == DrainQueue(old(Abstract()))
    {
      while |cmdQueue| > 0
        invariant DrainQueue(Abstract()) == DrainQueue(old(Abstract()))
        decreases |cmdQueue|
      {
        var cmd := cmdQueue[0];
        cmdQueue := cmdQueue[1..];
        match cmd
        case GetStatus =>
          var status := Status(shared.predatorCount, shared.preyCount, shared.grassCount,
                               tickCount, totalBirths, totalDeaths, shared.droughtActive != 0);
          dataQueue := dataQueue + [status];
        case ModifyParams(_, _) =>
          // the configuration has no update_parameter: the call raises and is logged
        case Shutdown =>
          running := false;
        case Unsupported(_) =>
      }
    }

    /** update_grass, one atomic step under the lock. */
    method UpdateGrass()
      modifies shared`grassCount
      ensures Abstract() == GrowGrass(old(Abstract()), config)
    {
      if !droughtActive {
        var current := shared.grassCount;
        var newValue := Min(current + config.grassGrowthRate, config.grassMax);
        shared.grassCount := newValue;
      } else {
        var current := shared.grassCount;
        var newValue := Max(current - config.grassDecreaseRate, 0);
        shared.grassCount := newValue;
      }
    }

    /** trigger_drought, also what the SIGUSR1 handler calls; `duration` is
        the value random.randint draws in the configured range. */
    method TriggerDrought(duration: int)
      requires DurationOk(config, duration)
      modifies this, shared`droughtActive
      ensures Abstract() == EnvModel.TriggerDrought(old(Abstract()), config, duration)
    {
      droughtActive := true;
      shared.droughtActive := 1;
      droughtEndTick := tickCount + duration;
    }

    /** end_drought. */
    method EndDrought()
      modifies this, shared`droughtActive
      ensures Abstract() == EnvModel.EndDrought(old(Abstract()))
    {
      droughtActive := false;
      shared.droughtActive := 0;
    }

    /** check_drought; `roll` is whether random.random() fell below the drought probability. */
    method CheckDrought(roll: bool, duration: int)
      requires DurationOk(config, duration)
      modifies this, shared`droughtActive
      ensures Abstract() == EnvModel.CheckDrought(old(Abstract()), config, roll, duration)
    {
      if !droughtActive {
        if roll {
          TriggerDrought(duration);
        }
      } else {
        if tickCount >= droughtEndTick {
          EndDrought();
        }
      }
    }

    /** The body of the tick loop in run. */
    method Step(roll: bool, duration: int)
      requires DurationOk(config, duration)
      modifies this, shared`grassCount, shared`droughtActive
      ensures Abstract() == Tick(old(Abstract()), config, roll, duration)
    {
      tickCount := tickCount + 1;
      HandleMessageQueue();
      UpdateGrass();
      CheckDrought(roll, duration);
    }

    /** What reaches the tick loop between two iterations: the observer's
        new commands, and a drought signal, whose handler handle_signal calls
        trigger_drought at once. */
    method Arrive(t: TickInput)
      requires InputOk(config, t)
      modifies this, shared`droughtActive
      ensures Abstract() == Arrived(old(Abstract()), config, t)
    {
      cmdQueue := cmdQueue + t.arrivals;
      if t.signal.Some? {
        TriggerDrought(t.signal.value);
      }
    }

    /** run's tick loop, for at most |inputs| iterations; before each one the
        commands the observer queued meanwhile are appended to the queue, and
        a drought signal that arrived meanwhile runs handle_signal. */
    method Run(pid: int, inputs: seq<TickInput>)
      requires InputsOk(config, inputs)
      modifies this, shared`grassCount, shared`droughtActive, shared`envPid
      ensures shared.envPid == pid
      ensures Abstract() == EnvModel.Run(old(Abstract()), config, inputs)
    {
      shared.envPid := pid;
      var i := 0;
      while running && i < |inputs|
        invariant 0 <= i <= |inputs|
        invariant shared.envPid == pid
        invariant InputsOk(config, inputs[i..])
        invariant EnvModel.Run(Abstract(), config, inputs[i..]) == EnvModel.Run(old(Abstract()), config, inputs)
      {
        RunFrom(Abstract(), config, inputs, i);
        var t := inputs[i];
        Arrive(t);
        Step(t.roll, t.duration);
        i := i + 1;
      }
      assert !running || inputs[i..] == [];
    }
  }
}
