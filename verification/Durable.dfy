/** How a durable write by temporary file and rename may end. */
module Durable {
  /** `Doubtful`: the file was replaced, but syncing its directory reported an error. `Died`: the process
      was cut off, before or after the replacement. */
  datatype Io = Done | Failed | Doubtful | Died
}
