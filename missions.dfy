/**
 The records of the space-mission store: the stored `SpaceMission`, the
 `SpaceMissionPayload` that create and update calls carry, and the single
 `Error` kind every failing operation returns.
 */
module Missions {

  /** Largest value of a Rust `u64`. */
  const U64_MAX: int := 0xFFFF_FFFF_FFFF_FFFF

  /** Rust's `u64`: ids, timestamps in nanoseconds and counts. */
  type U64 = x: int | 0 <= x <= U64_MAX

  /** One day in nanoseconds (`1 * 24 * 60 * 60 * 1_000_000_000`). */
  const NANOS_PER_DAY: U64 := 86_400_000_000_000

  /** A stored mission; `id` is also its key in the table. */
  datatype Mission = Mission(
    id: U64,
    missionName: string,
    destination: string,
    launchDate: U64,
    estimatedArrivalDate: U64,
    description: string)

  /** The payload of create and update calls: a mission without its id. */
  datatype Payload = Payload(
    missionName: string,
    destination: string,
    launchDate: U64,
    estimatedArrivalDate: U64,
    description: string)

  /** What a `NotFound` message reports: the id that is absent, or that
      the mission has already arrived. */
  datatype Reason = MissingId(id: U64) | AlreadyArrived

  /** The source's only error variant, `Error::NotFound`. */
  datatype Error = NotFound(reason: Reason)

  datatype Option<T> = None | Some(value: T)

  datatype Result<T> = Ok(value: T) | Err(error: Error)
}
