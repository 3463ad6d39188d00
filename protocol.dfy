/** The values exchanged between the processes: the messages an agent sends to
    the coordinator over its connection, the commands the observer puts in the
    coordinator's command queue, and the status snapshots it gets back. */
module Protocol {

  datatype Option<T> = None | Some(value: T)

  /** The `entity` field of a message: one of the two species, or anything else. */
  datatype Entity = PredatorEntity | PreyEntity | UnknownEntity

  /** The `target` field of a FEED message: what the agent ate. */
  datatype Target = GrassTarget | PreyTarget | UnknownTarget

  /** An agent message after JSON decoding. `Other` is every decoded value
      whose `type` is none of the four below (missing, unknown, or a value
      that is not an object at all). */
  datatype Msg =
    | Join(entity: Entity)
    | Death(entity: Entity)
    | Reproduce(entity: Entity)
    | Feed(entity: Entity, target: Target)
    | Other

  /** A command on the coordinator's command queue. `Unsupported` stands for
      every other command type, such as those the observer sends to seed the
      initial counts. */
  datatype Command =
    | GetStatus
    | ModifyParams(param: string, value: int)
    | Shutdown
    | Unsupported(name: string)

  /** The reply to GET_STATUS. */
  datatype Status = Status(
    predators: int,
    preys: int,
    grass: int,
    tick: int,
    births: int,
    deaths: int,
    droughtActive: bool)

  /** A request to start a new agent process, with its id. */
  datatype Spawn = Spawn(entity: Entity, id: int)
}
