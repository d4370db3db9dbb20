/** Instants and durations. A `datetime` is modelled as a whole number of seconds (UTC); the clock
    itself (`datetime.utcnow()`) is a parameter of every operation that reads it. */
module Clock {

  /** A UTC instant, in seconds. */
  type Time = int

  const Minute: int := 60
  const Hour: int := 3600
  const Day: int := 86400
}
