/**
 * The host of a Supervisor: its clocks, which never go back, and everything that can go wrong outside the Supervisor.
 * The counters change only here, so that a contract can say that the host did something.
 */
module Hosts {
  import opened Policies
  import opened Tls

  /** What the operating system says about a process. */
  datatype Inspection = Unknown | Exited | Running

  class Host {
    var now: Time
    var instant: int
    /** How often an operation has failed, credentials were found to have ended, or the child was not running. */
    var faults: nat
    /** How often a time limit was found to have passed. */
    var timeouts: nat
    /** How often the operating system has said that the child runs. */
    var sightings: nat
    /** How often a probe has reached the router that it was meant for. */
    var answers: nat

    constructor (now: Time, instant: int)
      ensures this.now == now && this.instant == instant
    {
      this.now, this.instant := now, instant;
      faults, timeouts, sightings, answers := 0, 0, 0, 0;
    }

    /** Whatever has gone wrong so far. */
    function Troubles(): nat
      reads this
    {
      faults + timeouts
    }

    /** What every operation keeps. */
    twostate predicate Later()
      reads this
    {
      && old(now) <= now
      && old(instant) <= instant
      && old(faults) <= faults
      && old(timeouts) <= timeouts
      && old(sightings) <= sightings
      && old(answers) <= answers
    }

    /** Lets some time pass on both clocks. */
    method Pass(duration: nat)
      modifies this`now, this`instant
      ensures Later() && instant >= old(instant) + duration
    {
      var elapsed: nat, drift: nat := *, *;
      now, instant := now + elapsed, instant + duration + drift;
    }

    /** Reads the wall clock, at some later moment than the last reading. */
    method Utc() returns (t: Time)
      modifies this`now, this`instant
      ensures Later() && t == now
    {
      Pass(0);
      t := now;
    }

    method Instant() returns (t: int)
      modifies this`now, this`instant
      ensures Later() && t == instant
    {
      Pass(0);
      t := instant;
    }

    /** An operation of the disk, of a process or of a library, which works or fails. */
    method Works() returns (ok: bool)
      modifies this`now, this`instant, this`faults
      ensures Later() && faults == old(faults) + if ok then 0 else 1
    {
      Pass(0);
      ok := *;
      faults := faults + if ok then 0 else 1;
    }

    /** Credential files that cannot be used. */
    method Refuse()
      modifies this`faults
      ensures faults == old(faults) + 1
    {
      faults := faults + 1;
    }

    /** Whether credentials are current now. */
    method Finds(material: DataTls) returns (current: bool)
      modifies this`now, this`instant, this`faults
      ensures Later() && (current <==> material.IsCurrent(now)) && faults == old(faults) + if current then 0 else 1
    {
      Pass(0);
      current := material.IsCurrent(now);
      faults := faults + if current then 0 else 1;
    }

    /** Whether a deadline has passed. */
    method Passed(deadline: int) returns (late: bool)
      modifies this`now, this`instant, this`timeouts
      ensures Later() && (late <==> instant >= deadline) && timeouts == old(timeouts) + if late then 1 else 0
    {
      Pass(0);
      late := instant >= deadline;
      timeouts := timeouts + if late then 1 else 0;
    }

    /** The time that is left until `end`, or nothing once it has passed. */
    method Left(end: Time) returns (left: int)
      modifies this`now, this`instant, this`timeouts
      ensures Later() && left == end - now && timeouts == old(timeouts) + if left < 0 then 1 else 0
    {
      Pass(0);
      left := end - now;
      timeouts := timeouts + if left < 0 then 1 else 0;
    }

    /** Asks the operating system about the child. */
    method Inspect() returns (r: Inspection)
      modifies this`now, this`instant, this`faults, this`sightings
      ensures Later()
      ensures faults == old(faults) + if r == Running then 0 else 1
      ensures sightings == old(sightings) + if r == Running then 1 else 0
    {
      Pass(0);
      r := *;
      faults := faults + if r == Running then 0 else 1;
      sightings := sightings + if r == Running then 1 else 0;
    }

    /** One outcome of `Inspect`: after `delay`, the operating system says that the child runs. */
    method RunsAfter(delay: nat)
      modifies this`now, this`instant, this`sightings
      ensures now == old(now) + delay && instant == old(instant) + delay && sightings == old(sightings) + 1
    {
      now, instant, sightings := now + delay, instant + delay, sightings + 1;
    }

    /** Connects to the router; nobody may answer, or another router may. */
    method Probe() returns (connects: bool)
      modifies this`now, this`instant, this`answers
      ensures Later() && answers == old(answers) + if connects then 1 else 0
    {
      Pass(0);
      connects := *;
      answers := answers + if connects then 1 else 0;
    }
  }
}
