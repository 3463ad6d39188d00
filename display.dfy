/** The observer: it polls the coordinator for a status snapshot, shows a
    status line with a health verdict, stops the simulation when the
    populations are gone or have stayed stable long enough, and turns
    keyboard lines into commands. The decisions are functions over a View
    of the observer's state; class DisplayManager moves that state as they
    say. */
module Display {
  import opened Protocol
  import opened Text

  /** The health verdict of a status line. */
  datatype Health = Stable | PredatorExtinction | PreyExtinction | Critical

  /** The population below which a living ecosystem is critical. */
  const CRITICAL_POPULATION := 10
  /** The tick from which a stable ecosystem ends the run. */
  const STABLE_STOP_TICK := 800

  /** The verdict print_status_line shows: the tests run in a fixed order,
      so a predator extinction hides a simultaneous prey extinction. */
  function Classify(predators: int, preys: int): (h: Health)
    ensures h == PredatorExtinction <==> predators == 0
    ensures h == PreyExtinction <==> predators != 0 && preys == 0
    ensures h == Critical <==> predators != 0 && preys != 0 && predators + preys < CRITICAL_POPULATION
    ensures h == Stable <==> predators != 0 && preys != 0 && predators + preys >= CRITICAL_POPULATION
  {
    if predators == 0 then PredatorExtinction
    else if preys == 0 then PreyExtinction
    else if predators + preys < CRITICAL_POPULATION then Critical
    else Stable
  }

  /** The stop rule of print_status_line. */
  predicate StopRequested(s: Status) {
    (s.predators == 0 && s.preys == 0) || (s.tick >= STABLE_STOP_TICK && Classify(s.predators, s.preys) == Stable)
  }

  /** For counts that cannot be negative, a stop is requested exactly when
      both species are gone, or when from tick 800 on both species live and
      number at least ten together. */
  lemma StopRule(s: Status)
    requires s.predators >= 0 && s.preys >= 0
    ensures StopRequested(s) <==>
      (s.predators == 0 && s.preys == 0) ||
      (s.tick >= STABLE_STOP_TICK && s.predators >= 1 && s.preys >= 1 && s.predators + s.preys >= CRITICAL_POPULATION)
  {
  }

  /** When only one species has died out the observer keeps running,
      whatever the tick. */
  lemma OneSpeciesLeftRunsOn(s: Status)
    requires (s.predators == 0) != (s.preys == 0)
    ensures !StopRequested(s)
  {
  }

  /** What a keyboard line asks for. */
  datatype Action = Quit | RequestDrought | NoAction

  /** handle_input on a line read from the terminal: the line is stripped
      and lower-cased, then "q" quits and "s" asks for a drought. */
  function InputAction(line: string): Action {
    var key := Lower(Strip(line));
    if key == "q" then Quit
    else if key == "s" then RequestDrought
    else NoAction
  }

  /** Up to surrounding whitespace, only "q" and "Q" quit and only "s" and
      "S" ask for a drought; every other line does nothing. */
  lemma InputActionCases(line: string)
    ensures InputAction(line) == Quit <==> Strip(line) == "q" || Strip(line) == "Q"
    ensures InputAction(line) == RequestDrought <==> Strip(line) == "s" || Strip(line) == "S"
    ensures InputAction(line) == NoAction <==>
      Strip(line) !in {"q", "Q", "s", "S"}
  {
    LowerSingleLetter(Strip(line), 'q');
    LowerSingleLetter(Strip(line), 's');
  }

  /** A status line as shown on the terminal. */
  datatype StatusLine = StatusLine(tick: int, predators: int, preys: int, grass: int, drought: bool, health: Health)

  /** The observer's state: whether it runs, the commands it has put on the
      coordinator's queue, the process ids it has sent the drought signal
      to, and the status lines it has shown. */
  datatype View = View(running: bool, cmdQueue: seq<Command>, signals: seq<int>, printed: seq<StatusLine>)

  /** stop_simulation: a running observer queues one SHUTDOWN and stops; a
      stopped one does nothing. */
  function Stopped(v: View): (r: View)
    ensures !r.running
    ensures r.cmdQueue == v.cmdQueue + (if v.running then [Shutdown] else [])
    ensures r.signals == v.signals && r.printed == v.printed
  {
    if v.running then v.(running := false, cmdQueue := v.cmdQueue + [Shutdown]) else v
  }

  /** trigger_drought: the signal goes out only to a positive process id. */
  function Drought(v: View, envPid: int): (r: View)
    ensures r.signals == v.signals + (if envPid > 0 then [envPid] else [])
    ensures r.(signals := v.signals) == v
  {
    if envPid > 0 then v.(signals := v.signals + [envPid]) else v
  }

  /** handle_input; `line` is None when no line is waiting on the terminal. */
  function Input(v: View, envPid: int, line: Option<string>): (View, Action) {
    if line.None? then (v, NoAction)
    else
      var act := InputAction(line.value);
      (if act == RequestDrought then Drought(v, envPid) else v, act)
  }

  /** print_status_line: the line is shown, then the stop rule applies. */
  function Shown(v: View, s: Status): View {
    var line := StatusLine(s.tick, s.predators, s.preys, s.grass, s.droughtActive, Classify(s.predators, s.preys));
    var w := v.(printed := v.printed + [line]);
    if StopRequested(s) then Stopped(w) else w
  }

  /** One pass of the main loop: the observer asks for a status, shows the
      reply if one came (`status`, None when the wait timed out), then reads
      the keyboard (`line`). */
  datatype Round = Round(status: Option<Status>, line: Option<string>)

  function Step(v: View, envPid: int, r: Round): (View, Action) {
    var asked := v.(cmdQueue := v.cmdQueue + [GetStatus]);
    var shown := if r.status.Some? then Shown(asked, r.status.value) else asked;
    Input(shown, envPid, r.line)
  }

  /** run_main_loop from an observer state on: it runs while the observer
      runs, until the user quits, and its `finally` clause stops the
      simulation. Running out of rounds stands for the keyboard interrupt. */
  function MainLoop(v: View, envPid: int, rounds: seq<Round>): View
    decreases |rounds|
  {
    if !v.running || rounds == [] then Stopped(v)
    else
      var (w, act) := Step(v, envPid, rounds[0]);
      if act == Quit then Stopped(w) else MainLoop(w, envPid, rounds[1..])
  }

  /** The commands that seed the initial counts: the coordinator has no
      handler for any of them. */
  function Seeded(v: View): View {
    v.(cmdQueue := v.cmdQueue + [Unsupported("GET_HERBE"), Unsupported("GET_PREY"), Unsupported("GET_PREDATOR")])
  }

  /** Number of SHUTDOWN commands in q. */
  function Shutdowns(q: seq<Command>): nat {
    if q == [] then 0 else Shutdowns(q[..|q| - 1]) + (if q[|q| - 1].Shutdown? then 1 else 0)
  }

  lemma ShutdownsSnoc(q: seq<Command>, c: Command)
    ensures Shutdowns(q + [c]) == Shutdowns(q) + (if c.Shutdown? then 1 else 0)
  {
    assert (q + [c])[..|q|] == q;
  }

  /** The observer's invariant: while it runs no SHUTDOWN has been queued;
      once stopped exactly one has, and it is the last command. Every signal
      went to a positive process id and every status line carries the
      verdict of its own counts. */
  predicate Valid(v: View) {
    (v.running ==> Shutdowns(v.cmdQueue) == 0) &&
    (!v.running ==> v.cmdQueue != [] && v.cmdQueue[|v.cmdQueue| - 1] == Shutdown && Shutdowns(v.cmdQueue) == 1) &&
    (forall i :: 0 <= i < |v.signals| ==> v.signals[i] > 0) &&
    (forall i :: 0 <= i < |v.printed| ==> v.printed[i].health == Classify(v.printed[i].predators, v.printed[i].preys))
  }

  /** stop_simulation keeps the invariant, so it queues exactly one SHUTDOWN
      however often it is called, and calling it again changes nothing. */
  lemma StopOnce(v: View)
    requires Valid(v)
    ensures Valid(Stopped(v))
    ensures Shutdowns(Stopped(v).cmdQueue) == 1
    ensures Stopped(Stopped(v)) == Stopped(v)
  {
    if v.running {
      var q := v.cmdQueue + [Shutdown];
      assert q[..|q| - 1] == v.cmdQueue;
    }
  }

  /** Showing a status line keeps the invariant; the only command it may
      queue is the SHUTDOWN of the stop rule. */
  lemma ShownKeeps(v: View, s: Status)
    requires Valid(v)
    ensures Valid(Shown(v, s))
    ensures Shown(v, s).cmdQueue == v.cmdQueue + (if v.running && StopRequested(s) then [Shutdown] else [])
  {
    var w := v.(printed := v.printed + [StatusLine(s.tick, s.predators, s.preys, s.grass, s.droughtActive, Classify(s.predators, s.preys))]);
    assert Valid(w);
    StopOnce(w);
  }

  /** Reading the keyboard keeps the invariant and queues nothing. */
  lemma InputKeeps(v: View, envPid: int, line: Option<string>)
    requires Valid(v)
    ensures Valid(Input(v, envPid, line).0)
    ensures Input(v, envPid, line).0.cmdQueue == v.cmdQueue
    ensures Input(v, envPid, line).0.running == v.running
  {
  }

  /** A pass of the main loop queues one GET_STATUS, then at most the
      SHUTDOWN that stops the observer, and keeps the invariant. */
  lemma StepKeeps(v: View, envPid: int, r: Round)
    requires Valid(v) && v.running
    ensures Valid(Step(v, envPid, r).0)
    ensures Step(v, envPid, r).0.cmdQueue ==
      v.cmdQueue + [GetStatus] + (if Step(v, envPid, r).0.running then [] else [Shutdown])
  {
    var asked := v.(cmdQueue := v.cmdQueue + [GetStatus]);
    assert asked.cmdQueue[..|asked.cmdQueue| - 1] == v.cmdQueue;
    assert Valid(asked);
    var shown := if r.status.Some? then Shown(asked, r.status.value) else asked;
    if r.status.Some? {
      ShownKeeps(asked, r.status.value);
    }
    InputKeeps(shown, envPid, r.line);
  }

  /** The main loop always ends with the simulation stopped and exactly one
      SHUTDOWN, the last command queued; the commands queued before it are
      kept in front. */
  lemma {:induction false} MainLoopStopsOnce(v: View, envPid: int, rounds: seq<Round>)
    requires Valid(v)
    ensures Valid(MainLoop(v, envPid, rounds))
    ensures !MainLoop(v, envPid, rounds).running
    ensures Shutdowns(MainLoop(v, envPid, rounds).cmdQueue) == 1
    ensures v.running ==>
      |v.cmdQueue| < |MainLoop(v, envPid, rounds).cmdQueue| &&
      MainLoop(v, envPid, rounds).cmdQueue[..|v.cmdQueue|] == v.cmdQueue
    decreases |rounds|
  {
    if !v.running || rounds == [] {
      StopOnce(v);
      if v.running {
        assert Stopped(v).cmdQueue[..|v.cmdQueue|] == v.cmdQueue;
      }
    } else {
      var (w, act) := Step(v, envPid, rounds[0]);
      StepKeeps(v, envPid, rounds[0]);
      assert w.cmdQueue[..|v.cmdQueue|] == v.cmdQueue by {
        assert w.cmdQueue[..|v.cmdQueue|] == w.cmdQueue[..|v.cmdQueue| + 1][..|v.cmdQueue|];
      }
      if act == Quit {
        StopOnce(w);
        assert Stopped(w).cmdQueue[..|v.cmdQueue|] == w.cmdQueue[..|v.cmdQueue|];
      } else {
        MainLoopStopsOnce(w, envPid, rounds[1..]);
        var r := MainLoop(w, envPid, rounds[1..]);
        if w.running {
          assert r.cmdQueue[..|v.cmdQueue|] == r.cmdQueue[..|w.cmdQueue|][..|v.cmdQueue|];
        } else {
          assert r == Stopped(w) == w;
        }
      }
    }
  }

  /** A fresh observer that seeds the counts and runs its main loop ends
      stopped, with the three seeding commands first and exactly one
      SHUTDOWN, queued last. */
  lemma RunStopsOnce(envPid: int, rounds: seq<Round>)
    ensures !MainLoop(Seeded(View(true, [], [], [])), envPid, rounds).running
    ensures var q := MainLoop(Seeded(View(true, [], [], [])), envPid, rounds).cmdQueue;
      3 < |q| && q[..3] == [Unsupported("GET_HERBE"), Unsupported("GET_PREY"), Unsupported("GET_PREDATOR")] &&
      q[|q| - 1] == Shutdown && Shutdowns(q) == 1
  {
    var seeded := Seeded(View(true, [], [], []));
    ShutdownsSnoc([], Unsupported("GET_HERBE"));
    ShutdownsSnoc([Unsupported("GET_HERBE")], Unsupported("GET_PREY"));
    ShutdownsSnoc([Unsupported("GET_HERBE"), Unsupported("GET_PREY")], Unsupported("GET_PREDATOR"));
    MainLoopStopsOnce(seeded, envPid, rounds);
  }

  /** A pass of the main loop from round i on, unfolded once. */
  lemma MainLoopFrom(v: View, envPid: int, rounds: seq<Round>, i: nat)
    requires i < |rounds| && v.running
    ensures MainLoop(v, envPid, rounds[i..]) ==
      (if Step(v, envPid, rounds[i]).1 == Quit then Stopped(Step(v, envPid, rounds[i]).0)
       else MainLoop(Step(v, envPid, rounds[i]).0, envPid, rounds[i + 1..]))
  {
    assert rounds[i..][0] == rounds[i];
    assert rounds[i..][1..] == rounds[i + 1..];
  }

  class DisplayManager {
    var running: bool
    /** The coordinator's command queue, as far as this observer fills it. */
    var cmdQueue: seq<Command>
    /** The process ids SIGUSR1 was sent to, oldest first. */
    var signals: seq<int>
    /** The status lines shown on the terminal, oldest first. */
    var printed: seq<StatusLine>

    function Abstract(): View
      reads this
    {
      View(running, cmdQueue, signals, printed)
    }

    /** A new observer runs and has queued and shown nothing. */
    constructor ()
      ensures Abstract() == View(true, [], [], [])
      ensures Valid(Abstract())
    {
      running, cmdQueue, signals, printed := true, [], [], [];
    }

    /** stop_simulation. */
    method StopSimulation()
      modifies this`running, this`cmdQueue
      ensures Abstract() == Stopped(old(Abstract()))
    {
      if !running {
        return;
      }
      cmdQueue := cmdQueue + [Shutdown];
      running := false;
    }

    /** trigger_drought. */
    method TriggerDrought(envPid: int)
      modifies this`signals
      ensures Abstract() == Drought(old(Abstract()), envPid)
    {
      if envPid > 0 {
        signals := signals + [envPid];
      }
    }

    /** handle_input: `quit` is what returning "QUIT" means. */
    method HandleInput(envPid: int, line: Option<string>) returns (quit: bool)
      modifies this`signals
      ensures quit == (Input(old(Abstract()), envPid, line).1 == Quit)
      ensures Abstract() == Input(old(Abstract()), envPid, line).0
    {
      if line.Some? {
        var key := Lower(Strip(line.value));
        if key == "q" {
          return true;
        } else if key == "s" {
          TriggerDrought(envPid);
        }
      }
      return false;
    }

    /** print_status_line. */
    method PrintStatusLine(status: Status)
      modifies this`printed, this`running, this`cmdQueue
      ensures Abstract() == Shown(old(Abstract()), status)
    {
      var health := Classify(status.predators, status.preys);
      printed := printed + [StatusLine(status.tick, status.predators, status.preys, status.grass, status.droughtActive, health)];
      if status.predators == 0 && status.preys == 0 {
        StopSimulation();
      } else if status.tick >= STABLE_STOP_TICK && health == Stable {
        StopSimulation();
      }
    }

    /** run_main_loop after the coordinator has been started with process id
        envPid; rounds[k] is what the k-th pass of the loop receives. */
    method RunMainLoop(envPid: int, rounds: seq<Round>)
      modifies this
      ensures Abstract() == MainLoop(Seeded(old(Abstract())), envPid, rounds)
    {
      cmdQueue := cmdQueue + [Unsupported("GET_HERBE"), Unsupported("GET_PREY"), Unsupported("GET_PREDATOR")];
      ghost var seeded := Abstract();
      var i := 0;
      while running && i < |rounds|
        invariant i <= |rounds|
        invariant MainLoop(Abstract(), envPid, rounds[i..]) == MainLoop(seeded, envPid, rounds)
        decreases |rounds| - i
      {
        MainLoopFrom(Abstract(), envPid, rounds, i);
        ghost var before := Abstract();
        cmdQueue := cmdQueue + [GetStatus];
        var round := rounds[i];
        if round.status.Some? {
          PrintStatusLine(round.status.value);
        }
        var quit := HandleInput(envPid, round.line);
        assert Abstract() == Step(before, envPid, round).0;
        if quit {
          break;
        }
        i := i + 1;
      }
      StopSimulation();
    }
  }
}
