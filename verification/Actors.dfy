/** How actors are identified, and how long a silent one still counts as heard of. */
module Actors {
  datatype ActorKey = ActorKey(project: string, name: string, id: string)

  /** An actor where it is only ever compared with others. */
  type ActorId = nat

  /** Milliseconds after which a lifecycle report no longer tells anything. */
  const STALE_AFTER: nat := 35_000
}
