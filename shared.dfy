/** The shared-memory block that every process holds a handle to: the
    population and grass counters, the drought flag, the coordinator's process
    id and the shutdown flag the predators poll. Each lock-guarded access to it
    is modelled as one atomic step of the method that performs it. */
module Shared {

  class SharedMemory {
    var predatorCount: int
    var preyCount: int
    var grassCount: int
    /** 1 while a drought is on, 0 otherwise. */
    var droughtActive: int
    var envPid: int
    var shutdown: bool

    constructor (initialGrass: int)
      ensures predatorCount == 0 && preyCount == 0 && grassCount == initialGrass
      ensures droughtActive == 0 && envPid == 0 && !shutdown
    {
      predatorCount, preyCount, grassCount := 0, 0, initialGrass;
      droughtActive, envPid, shutdown := 0, 0, false;
    }
  }
}
