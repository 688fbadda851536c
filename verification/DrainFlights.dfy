/**
 * The per-instance single-flight of write-triggered drains
 * (apps/jobs/src/lib/drain-flights.ts).
 */
module DrainFlights {
  import opened Options

  const MAX_COALESCED_RERUNS := 5
  const MAX_FLIGHT_WORK_MS := 150_000
  const MAX_FLIGHT_AGE_MS := 6 * 60_000

  class DrainFlight {
    var rerun: bool
    const startedAt: nat

    constructor (startedAt: nat)
      ensures !rerun && this.startedAt == startedAt
    {
      this.startedAt, rerun := startedAt, false;
    }
  }

  /** Too old to be behind a request that still lives. */
  predicate Expired(startedAt: nat, now: nat) { now - startedAt > MAX_FLIGHT_AGE_MS }

  /** What a turn of the follow-up loop decides. */
  datatype Turn = RunAgain | Stop(capped: bool)

  function TurnOf(rerun: bool, passes: nat, startedAt: nat, now: nat): Turn {
    if !rerun then Stop(false)
    else if passes >= MAX_COALESCED_RERUNS || now - startedAt >= MAX_FLIGHT_WORK_MS then Stop(true)
    else RunAgain
  }

  class Flights {
    var flights: map<string, DrainFlight>

    constructor ()
      ensures flights == map[]
    {
      flights := map[];
    }

    /** True when an open flight takes the wake-up in; an expired one is dropped. */
    method Coalesce(name: string, now: nat) returns (taken: bool)
      modifies this, flights.Values
      ensures taken == (name in old(flights) && !Expired(old(flights)[name].startedAt, now))
      ensures flights == if taken || name !in old(flights) then old(flights) else old(flights) - {name}
      ensures forall f: DrainFlight :: f in old(flights.Values) ==>
                f.rerun == (old(f.rerun) || (taken && f == flights[name]))
    {
      if name !in flights { return false; }
      var flight := flights[name];
      if now - flight.startedAt > MAX_FLIGHT_AGE_MS {
        flights := flights - {name};
        return false;
      }
      assert flight in flights.Values;
      flight.rerun := true;
      return true;
    }

    method Begin(name: string, now: nat) returns (flight: DrainFlight)
      modifies this
      ensures fresh(flight) && !flight.rerun && flight.startedAt == now
      ensures flights == old(flights)[name := flight]
    {
      flight := new DrainFlight(now);
      flights := flights[name := flight];
    }

    /** Closes this flight and no other. */
    method End(name: string, flight: DrainFlight)
      modifies this
      ensures flights ==
              if name in old(flights) && old(flights)[name] == flight then old(flights) - {name} else old(flights)
    {
      if name in flights && flights[name] == flight { flights := flights - {name}; }
    }

    predicate IsOpen(name: string)
      reads this
    {
      name in flights
    }

    /** One turn of `drainReruns` after `passes` follow-ups: on `RunAgain` the mark is taken. */
    method NextTurn(flight: DrainFlight, passes: nat, now: nat) returns (turn: Turn)
      modifies flight
      ensures turn == TurnOf(old(flight.rerun), passes, flight.startedAt, now)
      ensures flight.rerun == (old(flight.rerun) && !turn.RunAgain?)
    {
      if !flight.rerun { return Stop(false); }
      if passes >= MAX_COALESCED_RERUNS || now - flight.startedAt >= MAX_FLIGHT_WORK_MS { return Stop(true); }
      flight.rerun := false;
      turn := RunAgain;
    }
  }
}
