/**
 * The Router Supervisor: one actor that owns the policy file, the policy in memory, the supervised Zenoh
 * process, its credentials and the published status.
 */
module Supervisor {
  import opened Common
  import opened Policies
  import opened RouterConfigs
  import opened Tls
  import opened Storage
  import opened Hosts
  import opened History

  // Durations are in nanoseconds, as times are.
  const START_TIMEOUT: nat := 10_000_000_000
  const TLS_CHECK_INTERVAL: nat := 1_000_000_000
  const PROBE_PAUSE: nat := 100_000_000
  const CREDENTIAL_TIMEOUT: nat := 500_000_000
  const MAX_POLICY_BYTES: nat := 2 * 1024 * 1024

  type Verdict = Result<(), RouterError>

  /**
   * What an observation makes of the credentials of a running child: they have ended, the files cannot be read or not
   * in time, the files hold others, or nothing has changed.
   */
  datatype Credentials = Unchanged | Ended(at: Time) | Unreadable | TimedOut | Rotated {
    predicate Usable() {
      Unchanged? || Rotated?
    }
  }

  /**
   * What an observation saw: when it looked at the policy and whether that had lapsed, what the operating system said
   * of the child, what became of its credentials, and what the credential files held.
   */
  datatype Sight = Sight(
    seen: Time,
    lapsed: bool,
    asked: Option<Inspection>,
    found: Option<Credentials>,
    read: Option<DataTls>)
  {
    /** Nobody could be asked about the child. */
    predicate Blind() {
      asked == Some(Unknown)
    }

    /** The child has to end. */
    predicate Ends() {
      lapsed || asked == Some(Exited) || (found.Some? && !found.value.Unchanged?)
    }
  }

  /**
   * Why a child did not live through an update of the same authority: during the write, at an observation, or after
   * it.
   */
  datatype Ending = Stayed | LapsedInWrite(at: Time) | SeenEnding(sight: Sight) | LapsedAfter(at: Time)

  /**
   * What was seen between two times does end a child with these credentials, where `policy` or its successor `next` was
   * in memory, and where something on the host has failed or not.
   */
  predicate Justified(ending: Ending, policy: VerifiedPolicy, next: VerifiedPolicy, material: DataTls,
                      from: Time, to: Time, failed: bool)
  {
    match ending
    case Stayed => true
    case LapsedInWrite(at) => from <= at <= to && (!policy.IsCurrent(at) || !material.IsCurrent(at))
    case SeenEnding(sight) =>
      && from <= sight.seen <= to
      && sight.Ends()
      && (sight.lapsed ==> !policy.IsCurrent(sight.seen) || !next.IsCurrent(sight.seen))
      && (sight.asked == Some(Exited) ==> failed)
      && (sight.found.Some? && !sight.found.value.Usable() ==> failed)
      && (sight.found.Some? && sight.found.value.Ended? ==>
            from <= sight.found.value.at <= to && !material.IsCurrent(sight.found.value.at))
      && (sight.found == Some(Rotated) ==> sight.read.Some? && !material.Matches(sight.read.value))
    case LapsedAfter(at) => from <= at <= to && !policy.IsCurrent(at)
  }

  /** How a policy came to be acknowledged: it was in force already, or it was put in force. */
  datatype Route = Repeated | Updated

  class RouterSupervisor {
    const checks: Checks
    const policyFile: AtomicFile<VerifiedPolicy>
    const host: Host
    /** The file the child reads at its start. */
    var routerJson: Option<ChildConfig>
    var policy: Option<VerifiedPolicy>
    var child: Option<Child>
    var tls: Option<DataTls>
    var nextTlsCheck: int
    var status: RouterStatus
    /** How many processes were started, and how often the machine has lost power. */
    var spawned: nat
    var losses: nat
    var log: seq<Snapshot>

    /** A Supervisor over an empty state directory. */
    constructor (checks: Checks, now: Time, instant: int)
      ensures this.checks == checks && fresh(policyFile) && fresh(host)
      ensures Rests() && log == [] && child.None? && policy.None? && !status.ready
    {
      this.checks := checks;
      policyFile := new AtomicFile<VerifiedPolicy>();
      host := new Host(now, instant);
      routerJson, policy, child, tls := None, None, None, None;
      status := RouterStatus(None, None, None, false);
      nextTlsCheck, spawned, losses, log := 0, 0, 0, [];
    }

    // ----- what every method keeps -----

    function Now(event: Event): Snapshot
      requires policyFile.Valid()
      reads this, policyFile
    {
      Snapshot(losses, spawned, policyFile.Visible(), policyFile.Durable(), policy, child, status, event)
    }

    /** What holds at every point inside a step, and just before a change is recorded. */
    ghost predicate Nearly()
      reads this, policyFile
    {
      && policyFile.Valid()
      && Sound(checks, Now(Quiet))
      && Legal(checks, log)
      && FollowsAll(log, Now(Quiet))
      && (policyFile.Pending().Some? ==> policyFile.Pending() == policy)
      && (if child.Some? then tls == Some(child.value.config.tls) else tls.None?)
    }

    /** The history ends with the present state. */
    ghost predicate UpToDate()
      requires policyFile.Valid()
      reads this, policyFile
    {
      log != [] && log[|log| - 1].(event := Quiet) == Now(Quiet)
    }

    /** What holds at every point inside a step. */
    ghost predicate Safe()
      reads this, policyFile
    {
      Nearly() && UpToDate()
    }

    /** The policy in memory is on disk, both visibly and durably. */
    ghost predicate DiskHolds()
      requires policyFile.Valid()
      reads this, policyFile
    {
      policy.Some? && policyFile.Visible() == policy && policyFile.Durable() == policy
    }

    /** The authority of the running child has ended. */
    ghost predicate Lapsed()
      requires policy.Some? && tls.Some?
      reads this, host
    {
      policy.value.Policy().expiresAt <= host.now || tls.value.ExpiresAt() <= host.now
    }

    /** What holds between steps: no child lives without a reason. */
    ghost predicate Valid()
      reads this, policyFile, host
    {
      && Safe()
      && policyFile.Pending() == None
      && (status.ready ==> child.Some? && DiskHolds())
      && (child.Some? && !status.ready ==> Lapsed())
    }

    /** Appends the present state to the history. */
    method Record(event: Event)
      requires Nearly() && Sound(checks, Now(event)) && Continues(log, Now(event))
      modifies this`log
      ensures Safe() && log == old(log) + [Now(event)]
    {
      LegalExtends(checks, log, Now(event));
      log := log + [Now(event)];
    }

    // ----- what can go wrong -----

    /** Something on the host has gone wrong. */
    twostate predicate Failed()
      reads host
    {
      old(host.Troubles()) < host.Troubles()
    }

    /** Something on the host has gone wrong, or the policy was not current all the time. */
    twostate predicate Troubled(v: VerifiedPolicy)
      reads host
    {
      Failed() || !v.IsCurrent(old(host.now)) || !v.IsCurrent(host.now)
    }

    // ----- the process -----

    method NotReady()
      requires Safe()
      modifies this`status, this`log
      ensures Safe() && old(log) <= log
      ensures status == old(status).(ready := false)
    {
      status := status.(ready := false);
      Record(Quiet);
    }

    /** The child is always gone afterwards, even when stopping it reports an error. */
    method Stop() returns (r: Verdict)
      requires Safe() && !status.ready
      modifies this`tls, this`child, this`log, host
      ensures Safe() && old(log) <= log
      ensures child.None? && tls.None?
      ensures host.Later()
      ensures old(child).None? ==> r.Ok?
      ensures (r.Err? ==> Failed()) && host.timeouts == old(host.timeouts)
    {
      var hadChild := child.Some?;
      tls, child := None, None;
      Record(Quiet);
      if !hadChild {
        return Ok(());
      }
      var inspection := host.Inspect();
      if inspection == Unknown {
        return Err(Io);
      } else if inspection == Exited {
        return Ok(());
      }
      var stops := host.Works();
      var error: RouterError := *;
      return if stops then Ok(()) else Err(error);
    }

    // ----- storage -----

    /** One system call of the write of the policy in memory. */
    method StepWrite() returns (outcome: Outcome)
      requires Safe() && policyFile.Pending().Some?
      modifies this`log, policyFile, host
      ensures Safe() && old(log) <= log
      ensures outcome == Outcome.Running ==> policyFile.Pending().Some?
      ensures outcome == Outcome.Running ==> policyFile.Remaining() < old(policyFile.Remaining())
      ensures outcome != Outcome.Running ==> policyFile.Pending() == None
      ensures outcome == Succeeded ==> DiskHolds()
      ensures host.Later() && (outcome == Outcome.Failed <==> Failed())
    {
      outcome := policyFile.Step(host);
      Record(Quiet);
    }

    /** Runs the write of the policy in memory to its end. */
    method Persist(v: VerifiedPolicy) returns (ok: bool)
      requires Safe() && policy == Some(v) && policyFile.Pending() == None
      modifies this`log, policyFile, host
      ensures Safe() && old(log) <= log && policyFile.Pending() == None
      ensures ok ==> DiskHolds()
      ensures host.Later() && (!ok <==> Failed())
    {
      policyFile.Begin(v);
      var outcome := Outcome.Running;
      while outcome == Outcome.Running
        invariant Safe() && old(log) <= log
        invariant outcome == Outcome.Running <==> policyFile.Pending().Some?
        invariant outcome == Succeeded ==> DiskHolds()
        invariant host.Later() && (outcome == Outcome.Failed <==> Failed())
        decreases policyFile.Remaining()
      {
        outcome := StepWrite();
      }
      ok := outcome == Succeeded;
    }

    /** Replaces `router.json`; after an error the old or the new document may be in place. */
    method WriteRouterJson(config: ChildConfig) returns (ok: bool)
      modifies this`routerJson, host
      ensures ok ==> routerJson == Some(config)
      ensures host.Later() && (!ok <==> Failed())
    {
      var replaced := host.Works();
      if replaced {
        routerJson := Some(config);
      }
      var synced := host.Works();
      ok := replaced && synced;
    }

    /** Reads the credential files, which anyone may have replaced. */
    method LoadTls() returns (r: Result<DataTls, RouterError>)
      modifies host
      ensures host.Later() && (r.Err? <==> Failed())
      ensures r.Ok? ==> r.value.router.notBefore <= host.now && r.value.probe.notBefore <= host.now
      ensures r.Ok? ==> old(host.now) < r.value.router.expiresAt && old(host.now) < r.value.probe.expiresAt
    {
      var readable := host.Works();
      if !readable {
        return Err(Io);
      }
      var router: Files, probe: Files := *, *;
      var first := host.Utc();
      var second := host.Utc();
      r := LoadDataTls(router, probe, first, second);
      if r.Err? {
        host.Refuse();
      }
    }

    // ----- activation -----

    /** Waits until a real connection proves that the child serves, or until the deadline. */
    method WaitReady(deadline: int) returns (r: Verdict, ghost began: int, ghost at: Time)
      modifies host
      ensures host.Later()
      // Success means a probe that began before the deadline, with current credentials, and that was answered.
      ensures r.Ok? ==> child.Some? && tls.Some?
      ensures r.Ok? ==> old(host.instant) <= began < deadline && old(host.answers) < host.answers
      ensures r.Ok? ==> old(host.now) <= at <= host.now && tls.value.IsCurrent(at)
      // An error means a failure or a passed deadline, and that every answer there was came with a failure.
      ensures r.Err? && child.Some? && tls.Some? ==> Failed()
      ensures r.Err? ==> host.answers - old(host.answers) <= host.faults - old(host.faults)
      ensures old(host.timeouts) < host.timeouts ==> host.instant >= deadline
    {
      began, at := host.instant, host.now;
      while true
        invariant host.Later() && host.timeouts == old(host.timeouts)
        invariant host.answers - old(host.answers) <= host.faults - old(host.faults)
        decreases deadline - host.instant
      {
        var late := host.Passed(deadline);
        began := host.instant;
        if late || child.None? {
          return Err(RouterError.NotReady), began, at;
        }
        var inspection := host.Inspect();
        if inspection == Unknown {
          return Err(Io), began, at;
        } else if inspection == Exited {
          return Err(RouterError.NotReady), began, at;
        }
        if tls.None? {
          return Err(Unavailable), began, at;
        }
        var current := host.Finds(tls.value);
        at := host.now;
        if !current {
          return Err(RouterError.NotReady), began, at;
        }
        var works := host.Works();
        if !works {
          return Err(RouterError.NotReady), began, at;
        }
        var connects := host.Probe();
        if connects {
          inspection := host.Inspect();
          if inspection == Unknown {
            return Err(Io), began, at;
          } else if inspection == Inspection.Running {
            return Ok(()), began, at;
          }
        }
        host.Pass(PROBE_PAUSE);
      }
    }

    /** When the authority of a child of this policy with these credentials ends. */
    function End(v: VerifiedPolicy, material: DataTls): (t: Time)
      ensures t <= v.Policy().expiresAt && t <= material.ExpiresAt()
      ensures t == v.Policy().expiresAt || t == material.ExpiresAt()
    {
      if v.Policy().expiresAt < material.ExpiresAt() then v.Policy().expiresAt else material.ExpiresAt()
    }

    /** How long to wait for a child whose authority ends at `end`. */
    method Deadline(end: Time) returns (deadline: Option<int>)
      modifies host
      ensures host.Later()
      ensures deadline.None? ==> end < host.now
      ensures host.timeouts == old(host.timeouts) + if deadline.None? then 1 else 0
      ensures deadline.Some? ==>
                || deadline.value - old(host.instant) >= START_TIMEOUT
                || deadline.value - old(host.instant) >= end - host.now
    {
      var left := host.Left(end);
      if left < 0 {
        return None;
      }
      var instant := host.Instant();
      return Some(instant + if START_TIMEOUT < left then START_TIMEOUT else left);
    }

    ghost predicate Renders(v: VerifiedPolicy) {
      checks.render(v.Policy()).Ok?
    }

    /** A policy that may replace the one in memory. */
    ghost predicate Admissible(v: VerifiedPolicy)
      reads this
    {
      && checks.Trusts(v)
      && (policy.Some? ==> NoOlder(policy.value.Policy(), v.Policy()))
    }

    /** Publishes a policy that the disk holds. */
    method Publish(v: VerifiedPolicy)
      requires Safe() && policy == Some(v) && DiskHolds()
      modifies this`status, this`log
      ensures Safe() && old(log) <= log
      ensures Publishes(status, v.Policy()) && status.ready == old(status).ready
    {
      status := RouterStatus(Some(v.Policy().generation), Some(v.Digest()), Some(v.Policy().expiresAt), status.ready);
      Record(Quiet);
    }

    /** Takes a process that was started on the configuration file as the child. */
    method Adopt(v: VerifiedPolicy, material: DataTls)
      requires Safe() && policy == Some(v) && DiskHolds() && child.None? && !status.ready
      requires routerJson.Some? && routerJson.value.tls == material
      requires checks.render(v.Policy()) == Ok(routerJson.value.document)
      modifies this`child, this`tls, this`spawned, this`log
      ensures Safe() && log == old(log) + [Now(Spawned(v.Policy()))]
      ensures child == Some(Child(old(spawned), routerJson.value)) && tls == Some(material)
      ensures spawned == old(spawned) + 1
    {
      child, tls := Some(Child(spawned, routerJson.value)), Some(material);
      spawned := spawned + 1;
      Record(Spawned(v.Policy()));
    }

    /** Starts a process on the configuration file. */
    method Spawn(v: VerifiedPolicy, material: DataTls) returns (ok: bool)
      requires Safe() && policy == Some(v) && DiskHolds() && child.None? && !status.ready
      requires routerJson.Some? && routerJson.value.tls == material
      requires checks.render(v.Policy()) == Ok(routerJson.value.document)
      modifies this`child, this`tls, this`spawned, this`nextTlsCheck, this`log, host
      ensures Safe() && old(log) <= log
      ensures host.Later()
      ensures ok <==> !Failed()
      ensures ok ==> child.Some? && tls == Some(material) && spawned == old(spawned) + 1
      ensures !ok ==> child.None? && spawned == old(spawned)
      ensures if ok then nextTlsCheck >= old(host.instant) + TLS_CHECK_INTERVAL else nextTlsCheck == old(nextTlsCheck)
    {
      var starts := host.Works();
      if !starts {
        return false;
      }
      Adopt(v, material);
      PostponeTlsCheck();
      return true;
    }

    /** Declares a child ready that has answered, if policy and credentials are still current. */
    method Declare(v: VerifiedPolicy) returns (r: Verdict, ghost checked: Time)
      requires Safe() && policy == Some(v) && child.Some? && !status.ready && Publishes(status, v.Policy())
      requires v.Policy().notBefore <= host.now
      requires tls.value.router.notBefore <= host.now && tls.value.probe.notBefore <= host.now
      modifies this`status, this`log, host
      ensures Safe() && old(log) <= log
      ensures host.Later() && host.timeouts == old(host.timeouts)
      ensures status == old(status).(ready := r.Ok?)
      ensures r.Ok? ==> old(host.now) <= checked <= host.now && v.IsCurrent(checked) && tls.value.IsCurrent(checked)
      ensures r.Err? ==> Lapsed() && Troubled(v)
    {
      var now := host.Utc();
      checked := now;
      if RequireCurrent(v, now).Err? {
        return Err(NotCurrent), checked;
      }
      var current := host.Finds(tls.value);
      if !current {
        return Err(RouterError.NotReady), checked;
      }
      status := status.(ready := true);
      Record(Quiet);
      r := Ok(());
    }

    /**
     * Waits for the child and declares it ready; a child that cannot be declared ready is stopped or lapsed. `served`
     * is when the probe that succeeded began, and `checked` when the policy was found current after it.
     */
    method BecomeReady(v: VerifiedPolicy) returns (r: Verdict, ghost served: Time, ghost checked: Time)
      requires Safe() && policy == Some(v) && DiskHolds() && child.Some?
      requires !status.ready && Publishes(status, v.Policy())
      requires v.Policy().notBefore <= host.now
      requires tls.value.router.notBefore <= host.now && tls.value.probe.notBefore <= host.now
      modifies this`child, this`tls, this`status, this`log, host
      ensures Safe() && old(log) <= log
      ensures host.Later()
      ensures child.Some? ==> child == old(child)
      ensures Publishes(status, v.Policy())
      ensures r.Ok? ==> child.Some? && status.ready && old(host.answers) < host.answers
      // Readiness follows a probe, and policy and credentials were still current after it.
      ensures r.Ok? ==> old(host.now) <= served <= checked <= host.now
      ensures r.Ok? ==> v.IsCurrent(checked) && tls.value.IsCurrent(served) && tls.value.IsCurrent(checked)
      ensures r.Err? ==> !status.ready && (child.Some? ==> Lapsed()) && Troubled(v)
      // A limit counts as passed only after the time for a start, or after as much time as was left to the authority.
      ensures old(host.timeouts) < host.timeouts ==>
                || host.instant - old(host.instant) >= START_TIMEOUT
                || host.instant - old(host.instant) >= End(v, old(tls).value) - host.now
    {
      served, checked := host.now, host.now;
      var deadline := Deadline(End(v, tls.value));
      if deadline.None? {
        return Err(NotCurrent), served, checked;
      }
      ghost var began;
      r, began, served := WaitReady(deadline.value);
      if r.Err? {
        NotReady();
        var stopped := Stop();
        return if stopped.Err? then stopped else r, served, checked;
      }
      r, checked := Declare(v);
    }

    /** A policy enters memory while no child runs. */
    method Enter(v: VerifiedPolicy)
      requires Safe() && policyFile.Pending() == None && Admissible(v) && child.None? && !status.ready
      modifies this`policy, this`log
      ensures Safe() && policy == Some(v) && log == old(log) + [Now(Quiet)]
    {
      policy := Some(v);
      Record(Quiet);
    }

    /** The first half of an activation: the old child ends, the generation is raised, and the disk follows. */
    method Install(v: VerifiedPolicy) returns (r: Verdict)
      requires Safe() && policyFile.Pending() == None && Admissible(v)
      modifies this`policy, this`child, this`tls, this`status, this`log, policyFile, host
      ensures Safe() && policyFile.Pending() == None && old(log) <= log
      ensures host.Later()
      ensures child.None? && !status.ready
      ensures policy in {old(policy), Some(v)}
      ensures r.Ok? ==> policy == Some(v) && DiskHolds() && Publishes(status, v.Policy())
      ensures r.Err? ==> Failed()
    {
      NotReady();
      // Whatever the old child served has ended when the new policy enters memory.
      r := Stop();
      if r.Err? {
        return r;
      }
      Enter(v);
      var ok := Persist(v);
      if !ok {
        return Err(Io);
      }
      Publish(v);
    }

    /** The credentials of the moment, and the file from which the child reads them with its document. */
    method Prepare(document: Document) returns (r: Result<DataTls, RouterError>)
      modifies this`routerJson, host
      ensures host.Later() && (r.Err? <==> Failed())
      ensures r.Ok? ==> routerJson == Some(ChildConfig(document, r.value))
      ensures r.Ok? ==> r.value.router.notBefore <= host.now && r.value.probe.notBefore <= host.now
      ensures r.Ok? ==> old(host.now) < r.value.router.expiresAt && old(host.now) < r.value.probe.expiresAt
    {
      r := LoadTls();
      if r.Err? {
        return;
      }
      var accepted := host.Works();
      if !accepted {
        return Err(RouterError.NotReady);
      }
      var ok := WriteRouterJson(ChildConfig(document, r.value));
      if !ok {
        r := Err(Io);
      }
    }

    /** Starts a child on the prepared file and waits until it is ready. */
    method Ignite(v: VerifiedPolicy, material: DataTls) returns (r: Verdict, ghost served: Time, ghost checked: Time)
      requires Safe() && policy == Some(v) && DiskHolds() && child.None?
      requires !status.ready && Publishes(status, v.Policy())
      requires routerJson.Some? && routerJson.value.tls == material
      requires checks.render(v.Policy()) == Ok(routerJson.value.document)
      requires v.Policy().notBefore <= host.now
      requires material.router.notBefore <= host.now && material.probe.notBefore <= host.now
      modifies this`child, this`tls, this`status, this`spawned, this`nextTlsCheck, this`log, host
      ensures Safe() && old(log) <= log
      ensures host.Later()
      ensures Publishes(status, v.Policy()) && spawned >= old(spawned)
      ensures nextTlsCheck == old(nextTlsCheck) || nextTlsCheck >= old(host.instant) + TLS_CHECK_INTERVAL
      ensures child.Some? ==> spawned > old(spawned) && tls == Some(material)
      ensures r.Ok? ==> child.Some? && status.ready && old(host.answers) < host.answers
      ensures r.Ok? ==> old(host.now) <= served <= checked <= host.now
      ensures r.Ok? ==> v.IsCurrent(checked) && tls.value.IsCurrent(served) && tls.value.IsCurrent(checked)
      ensures r.Err? ==> !status.ready && (child.Some? ==> Lapsed()) && Troubled(v)
    {
      served, checked := host.now, host.now;
      var ok := Spawn(v, material);
      if !ok {
        return Err(Io), served, checked;
      }
      r, served, checked := BecomeReady(v);
    }

    /** The second half of an activation: a new child starts with the credentials of the moment. */
    method Launch(v: VerifiedPolicy, document: Document)
      returns (r: Verdict, ghost served: Time, ghost checked: Time)
      requires Safe() && policy == Some(v) && DiskHolds() && child.None?
      requires !status.ready && Publishes(status, v.Policy())
      requires checks.render(v.Policy()) == Ok(document)
      modifies this`child, this`tls, this`status, this`spawned, this`nextTlsCheck, this`routerJson, this`log, host
      ensures Safe() && old(log) <= log
      ensures host.Later()
      ensures Publishes(status, v.Policy()) && spawned >= old(spawned)
      ensures nextTlsCheck == old(nextTlsCheck) || nextTlsCheck >= old(host.instant) + TLS_CHECK_INTERVAL
      ensures r.Ok? ==> child.Some? && status.ready && old(host.answers) < host.answers
      ensures r.Ok? ==> old(host.now) <= served <= checked <= host.now
      ensures r.Ok? ==> v.IsCurrent(checked) && tls.value.IsCurrent(served) && tls.value.IsCurrent(checked)
      ensures r.Err? ==> !status.ready && (child.Some? ==> Lapsed()) && Troubled(v)
      ensures child.Some? ==> spawned > old(spawned)
      ensures child.Some? ==> old(host.now) < v.Policy().expiresAt && old(host.now) < tls.value.ExpiresAt()
    {
      served, checked := host.now, host.now;
      var material := Prepare(document);
      if material.Err? {
        return Err(material.error), served, checked;
      }
      var now := host.Utc();
      if RequireCurrent(v, now).Err? {
        return Err(NotCurrent), served, checked;
      }
      r, served, checked := Ignite(v, material.value);
    }

    /**
     * Makes a policy the one that a child enforces. `served` is when the probe that succeeded began, and `checked` when
     * the policy was found current after it.
     */
    method Activate(v: VerifiedPolicy) returns (r: Verdict, ghost served: Time, ghost checked: Time)
      requires Safe() && policyFile.Pending() == None && Admissible(v)
      modifies this, policyFile, host
      ensures Safe() && policyFile.Pending() == None && old(log) <= log
      ensures host.Later()
      ensures policy in {old(policy), Some(v)} && old(spawned) <= spawned
      ensures nextTlsCheck == old(nextTlsCheck) || nextTlsCheck >= old(host.instant) + TLS_CHECK_INTERVAL
      // Without a configuration to run, nothing happens.
      ensures !Renders(v) ==> r.Err? && unchanged(this) && unchanged(policyFile)
      // Success means enforcement.
      ensures r.Ok? ==> policy == Some(v) && DiskHolds() && child.Some? && status.ready && Publishes(status, v.Policy())
      ensures r.Err? && Renders(v) ==> !status.ready && (child.Some? ==> Lapsed())
      // And only trouble prevents it.
      ensures r.Err? && Renders(v) ==> Troubled(v)
      // The new child had answered a probe, and policy and credentials were still current after it.
      ensures r.Ok? ==> old(host.now) <= served <= checked <= host.now && old(host.answers) < host.answers
      ensures r.Ok? ==> v.IsCurrent(checked) && tls.value.IsCurrent(served) && tls.value.IsCurrent(checked)
      // A child that runs afterwards is new, and its authority outlives the start of the step.
      ensures Renders(v) && child.Some? ==>
                spawned > old(spawned) && policy == Some(v) && DiskHolds() && Publishes(status, v.Policy())
      ensures Renders(v) && child.Some? ==> old(host.now) < v.Policy().expiresAt
      ensures Renders(v) && child.Some? ==> old(host.now) < tls.value.ExpiresAt()
    {
      served, checked := host.now, host.now;
      var document := checks.render(v.Policy());
      if document.Err? {
        return Err(document.error), served, checked;
      }
      r := Install(v);
      if r.Ok? {
        r, served, checked := Launch(v, document.value);
      }
    }

    // ----- observation -----

    /** The authority of the running child ends after `t`. */
    ghost predicate Outlives(t: Time)
      requires policy.Some? && tls.Some?
      reads this
    {
      && t < policy.value.Policy().expiresAt
      && t < tls.value.router.expiresAt
      && t < tls.value.probe.expiresAt
    }

    /**
     * Activates the policy in memory once more; the caller survives a failure. `current` is when it was found
     * current.
     */
    method Reactivate() returns (ghost current: Time)
      requires Valid() && policy.Some?
      requires child.Some? ==> Renders(policy.value)
      modifies this, policyFile, host
      ensures Valid() && policy == old(policy) && old(log) <= log
      ensures host.Later()
      ensures old(spawned) <= spawned
      ensures child.Some? ==> spawned > old(spawned) && Outlives(old(host.now))
      ensures child.Some? ==> Publishes(status, policy.value.Policy())
      ensures spawned == old(spawned) ==> child.None? && !status.ready
      ensures old(host.now) <= current <= host.now && (status.ready ==> policy.value.IsCurrent(current))
      ensures Renders(policy.value) && !Troubled(policy.value) ==> status.ready
      ensures nextTlsCheck == old(nextTlsCheck) || nextTlsCheck >= old(host.instant) + TLS_CHECK_INTERVAL
    {
      var r;
      ghost var served;
      r, served, current := Activate(policy.value);
      if r.Err? {
        current := host.now;
        NotReady();
      }
    }

    /** Withdraws readiness and ends the child. */
    method Retire() returns (r: Verdict)
      requires Safe() && policyFile.Pending() == None
      modifies this`tls, this`child, this`status, this`log, host
      ensures Valid() && old(log) <= log && child.None? && status == old(status).(ready := false)
      ensures host.Later() && (r.Err? ==> Failed())
    {
      NotReady();
      r := Stop();
    }

    /** Forgets a child that has exited on its own. */
    method Bury()
      requires Valid()
      modifies this`tls, this`child, this`status, this`log
      ensures Valid() && old(log) <= log && child.None? && status == old(status).(ready := false)
    {
      child, tls, status := None, None, status.(ready := false);
      Record(Quiet);
    }

    /**
     * The end of an actor that leaves its loop by an error: the process is killed with it, and nobody touches the
     * status again.
     */
    method Abandon()
      requires Valid()
      modifies this`child, this`tls, this`log
      ensures policyFile.Valid() && Legal(checks, log) && log == old(log) + [Now(Abandoned)]
      ensures child.None?
    {
      child, tls := None, None;
      LegalExtends(checks, log, Now(Abandoned));
      log := log + [Now(Abandoned)];
    }

    method PostponeTlsCheck()
      modifies this`nextTlsCheck, host`now, host`instant
      ensures host.Later()
      ensures nextTlsCheck == host.instant + TLS_CHECK_INTERVAL
    {
      var instant := host.Instant();
      nextTlsCheck := instant + TLS_CHECK_INTERVAL;
    }

    /** The state after a step that started no child. */
    twostate predicate OnlyEnded()
      reads this
    {
      && (status.ready ==> status == old(status))
      && (child.Some? ==> child == old(child))
    }

    /**
     * Looks at the clock, the child and the credentials, and ends or renews the child as they demand. `current` is when
     * the policy of a ready child was last found current.
     */
    method Observe() returns (r: Verdict, ghost sight: Sight, ghost current: Time)
      requires Valid()
      modifies this, policyFile, host
      ensures Valid() && policy == old(policy) && old(log) <= log
      ensures host.Later()
      ensures old(spawned) <= spawned
      ensures old(host.now) <= sight.seen <= host.now
      ensures sight.lapsed <==> policy.Some? && !policy.value.IsCurrent(sight.seen)
      // Bounded authority.
      ensures r.Ok? && child.Some? ==> Outlives(old(host.now))
      ensures old(host.now) <= current <= host.now
      ensures r.Ok? && status.ready ==> policy.value.IsCurrent(current)
      // A child is kept, with its status, exactly when nothing was seen that ends it.
      ensures r.Ok? && old(child).Some? ==> (child.Some? && spawned == old(spawned) <==> !sight.Ends())
      ensures child.Some? && spawned == old(spawned) ==> child == old(child) && status == old(status)
      ensures sight.asked == Some(Exited) ==> child.None? && !status.ready
      // A status changes its facts only when a new child starts.
      ensures spawned == old(spawned) ==> OnlyEnded()
      ensures spawned > old(spawned) && status.ready ==> Publishes(status, policy.value.Policy())
      // An error ends the child, except that a child nobody could ask about is left alone.
      ensures sight.Blind() <==> r.Err? && child.Some?
      ensures sight.Blind() ==> spawned == old(spawned)
      // A child is kept beyond the time of the next check only with the credentials that the files hold.
      ensures r.Ok? && child.Some? && spawned == old(spawned) && old(host.instant) >= old(nextTlsCheck) ==>
                sight.read.Some?
      ensures r.Ok? && child.Some? && spawned == old(spawned) && sight.read.Some? ==>
                tls.value.Matches(sight.read.value)
      ensures sight.found == Some(Rotated) ==>
                old(tls).Some? && sight.read.Some? && !old(tls).value.Matches(sight.read.value)
      // Credentials are unusable when they have ended, or when a read that was due has failed or taken too long.
      ensures sight.found.Some? && sight.found.value.Ended? ==>
                && old(tls).Some? && old(host.now) <= sight.found.value.at <= host.now
                && !old(tls).value.IsCurrent(sight.found.value.at)
      ensures sight.found == Some(TimedOut) ==> host.instant >= old(host.instant) + CREDENTIAL_TIMEOUT
      ensures sight.found == Some(Unreadable) || sight.found == Some(TimedOut) ==> host.instant >= old(nextTlsCheck)
      // Nothing but a failure ends the child, or keeps a policy without one that it could have.
      ensures r.Err? || sight.asked == Some(Exited) || (sight.found.Some? && !sight.found.value.Usable()) ==> Failed()
      ensures policy.Some? && Renders(policy.value) && !Troubled(policy.value)
              && (old(child).Some? || old(host.instant) >= old(nextTlsCheck)) ==>
                status.ready
      // A child that is kept was seen running.
      ensures r.Ok? && old(child).Some? && child.Some? && spawned == old(spawned) ==>
                old(host.sightings) < host.sightings
      // Before the time of a check no child is started.
      ensures host.instant < old(nextTlsCheck) ==> spawned == old(spawned) && sight.read.None?
    {
      sight, current := Sight(host.now, false, None, None, None), host.now;
      if policy.Some? {
        var now := host.Utc();
        sight, current := sight.(seen := now, lapsed := !policy.value.IsCurrent(now)), now;
        if RequireCurrent(policy.value, now).Err? {
          r := Retire();
          return;
        }
      }
      if child.None? {
        current := Revive();
        r := Ok(());
      } else {
        r, sight, current := Examine(current);
      }
    }

    /**
     * The part of an observation for a running child, whose policy was found current: what the operating system says of
     * it, and what became of its credentials.
     */
    method Examine(ghost seen: Time) returns (r: Verdict, ghost sight: Sight, ghost current: Time)
      requires Valid() && child.Some? && seen <= host.now && policy.value.IsCurrent(seen)
      modifies this, policyFile, host
      ensures Valid() && policy == old(policy) && old(log) <= log
      ensures host.Later()
      ensures old(spawned) <= spawned
      ensures sight.seen == seen && !sight.lapsed
      ensures r.Ok? && child.Some? ==> Outlives(seen)
      ensures seen <= current <= host.now && (r.Ok? && status.ready ==> policy.value.IsCurrent(current))
      ensures r.Ok? ==> (child.Some? && spawned == old(spawned) <==> !sight.Ends())
      ensures child.Some? && spawned == old(spawned) ==> child == old(child) && status == old(status)
      ensures sight.asked == Some(Exited) ==> child.None? && !status.ready
      ensures spawned == old(spawned) ==> OnlyEnded()
      ensures spawned > old(spawned) && status.ready ==> Publishes(status, policy.value.Policy())
      ensures sight.Blind() <==> r.Err? && child.Some?
      ensures sight.Blind() ==> spawned == old(spawned)
      ensures r.Ok? && child.Some? && spawned == old(spawned) && old(host.instant) >= old(nextTlsCheck) ==>
                sight.read.Some?
      ensures r.Ok? && child.Some? && spawned == old(spawned) && sight.read.Some? ==>
                tls.value.Matches(sight.read.value)
      ensures sight.found == Some(Rotated) ==> sight.read.Some? && !old(tls).value.Matches(sight.read.value)
      ensures sight.found.Some? && sight.found.value.Ended? ==>
                old(host.now) <= sight.found.value.at <= host.now && !old(tls).value.IsCurrent(sight.found.value.at)
      ensures sight.found == Some(TimedOut) ==> host.instant >= old(host.instant) + CREDENTIAL_TIMEOUT
      ensures sight.found == Some(Unreadable) || sight.found == Some(TimedOut) ==> host.instant >= old(nextTlsCheck)
      ensures r.Err? || sight.asked == Some(Exited) || (sight.found.Some? && !sight.found.value.Usable()) ==> Failed()
      ensures !Failed() && policy.value.IsCurrent(host.now) ==> status.ready
      ensures r.Ok? && child.Some? && spawned == old(spawned) ==> old(host.sightings) < host.sightings
      ensures host.instant < old(nextTlsCheck) ==> spawned == old(spawned) && sight.read.None?
    {
      current := seen;
      var inspection := host.Inspect();
      sight := Sight(seen, false, Some(inspection), None, None);
      if inspection == Unknown {
        return Err(Io), sight, current;
      } else if inspection == Exited {
        Bury();
        return Ok(()), sight, current;
      }
      ghost var found, read;
      r, found, read, current := Attend(seen);
      sight := sight.(found := Some(found), read := read);
    }

    /** The part of an observation for a child that runs: its credentials decide whether it goes on. */
    method Attend(ghost seen: Time)
      returns (r: Verdict, ghost found: Credentials, ghost read: Option<DataTls>, ghost current: Time)
      requires Valid() && child.Some? && seen <= host.now && policy.value.IsCurrent(seen)
      modifies this, policyFile, host
      ensures Valid() && policy == old(policy) && old(log) <= log
      ensures host.Later()
      ensures old(spawned) <= spawned
      ensures r.Ok? && child.Some? ==> Outlives(seen)
      ensures seen <= current <= host.now && (r.Ok? && status.ready ==> policy.value.IsCurrent(current))
      ensures child.Some? && spawned == old(spawned) <==> found.Unchanged?
      ensures found.Unchanged? ==> child == old(child) && status == old(status)
      ensures r.Err? ==> child.None?
      ensures spawned == old(spawned) ==> OnlyEnded()
      ensures spawned > old(spawned) && status.ready ==> Publishes(status, policy.value.Policy())
      ensures found.Unchanged? && old(host.instant) >= old(nextTlsCheck) ==> read.Some?
      ensures found.Unchanged? && read.Some? ==> tls.value.Matches(read.value)
      ensures found.Rotated? ==> read.Some? && !old(tls).value.Matches(read.value)
      ensures found.Ended? ==> old(host.now) <= found.at <= host.now && !old(tls).value.IsCurrent(found.at)
      ensures found.TimedOut? ==> host.instant >= old(host.instant) + CREDENTIAL_TIMEOUT
      ensures found.Unreadable? || found.TimedOut? ==> host.instant >= old(nextTlsCheck)
      ensures r.Err? || !found.Usable() ==> Failed()
      ensures !Failed() && policy.value.IsCurrent(host.now) ==> status.ready
      ensures host.instant < old(nextTlsCheck) ==> spawned == old(spawned) && read.None?
    {
      current := seen;
      var credentials;
      credentials, read := CheckCredentials();
      found := credentials;
      if !credentials.Usable() {
        r := Retire();
        return;
      }
      if credentials.Rotated? {
        current := Reactivate();
      }
      r := Ok(());
    }

    /** The part of an observation for a Supervisor without a child: it tries again once a second. */
    method Revive() returns (ghost current: Time)
      requires Valid() && child.None?
      modifies this, policyFile, host
      ensures Valid() && policy == old(policy) && old(log) <= log
      ensures host.Later()
      ensures old(spawned) <= spawned
      ensures child.Some? ==> spawned > old(spawned) && Outlives(old(host.now))
      ensures old(host.now) <= current <= host.now && (status.ready ==> policy.value.IsCurrent(current))
      ensures spawned == old(spawned) ==> OnlyEnded()
      ensures spawned > old(spawned) && status.ready ==> Publishes(status, policy.value.Policy())
      // A current policy is tried again when it is time, and only trouble prevents readiness.
      ensures policy.Some? && Renders(policy.value) && !Troubled(policy.value)
              && old(host.instant) >= old(nextTlsCheck) ==>
                status.ready
      // Attempts are at least the interval apart.
      ensures host.instant < old(nextTlsCheck) ==> log == old(log) && spawned == old(spawned)
      ensures log != old(log) ==> nextTlsCheck >= old(nextTlsCheck) + TLS_CHECK_INTERVAL
    {
      current := host.now;
      var instant := host.Instant();
      if instant >= nextTlsCheck && policy.Some? {
        var now := host.Utc();
        if RequireCurrent(policy.value, now).Ok? {
          PostponeTlsCheck();
          current := Reactivate();
        }
      }
    }

    /** Checks the loaded credentials against the clock, and once a second against the files. */
    method CheckCredentials() returns (r: Credentials, ghost read: Option<DataTls>)
      requires tls.Some?
      modifies this`nextTlsCheck, host
      ensures r == Rotated ==> read.Some? && !tls.value.Matches(read.value)
      ensures r == Unchanged && read.Some? ==> tls.value.Matches(read.value)
      ensures r == Unchanged && old(host.instant) >= old(nextTlsCheck) ==> read.Some?
      ensures host.instant < old(nextTlsCheck) ==> read.None?
      // Only credentials that have ended and reads that have failed or taken too long are no longer usable.
      ensures !r.Usable() <==> Failed()
      ensures r.Ended? ==> old(host.now) <= r.at <= host.now && !tls.value.IsCurrent(r.at)
      ensures tls.value.ExpiresAt() <= old(host.now) ==> r.Ended?
      ensures r == TimedOut ==> host.instant >= old(host.instant) + CREDENTIAL_TIMEOUT
      ensures r.Unreadable? || r.TimedOut? ==> host.instant >= old(nextTlsCheck)
      ensures read.Some? ==> nextTlsCheck >= old(nextTlsCheck) + TLS_CHECK_INTERVAL
      ensures host.Later()
      ensures r.Usable() ==> old(host.now) < tls.value.router.expiresAt
      ensures r.Usable() ==> old(host.now) < tls.value.probe.expiresAt
    {
      var current := host.Finds(tls.value);
      if !current {
        return Credentials.Ended(host.now), None;
      }
      var instant := host.Instant();
      if instant < nextTlsCheck {
        return Unchanged, None;
      }
      PostponeTlsCheck();
      var inTime := host.Works();
      if !inTime {
        host.Pass(CREDENTIAL_TIMEOUT);
        return TimedOut, None;
      }
      var material := LoadTls();
      if material.Err? {
        return Unreadable, None;
      }
      return if tls.value.Matches(material.value) then Unchanged else Rotated, Some(material.value);
    }

    /** The ending is a good reason for what the step did to a child of `policy` when it put `next` in force. */
    twostate predicate Explains(ending: Ending, next: VerifiedPolicy)
      requires old(policy.Some? && tls.Some?)
      reads this, host
    {
      Justified(ending, old(policy.value), next, old(tls.value), old(host.now), host.now, Failed())
    }

    // ----- refresh -----

    /**
     * One tick while the new generation is being written: however long that takes, a child whose own authority has
     * ended is stopped. `noticed` is when that was found.
     */
    method RefreshTick(previous: VerifiedPolicy) returns (r: Verdict, ghost noticed: Time)
      requires Safe() && (status.ready <==> child.Some?)
      modifies this`tls, this`child, this`status, this`log, host
      ensures Safe() && old(log) <= log && (status.ready <==> child.Some?)
      ensures host.Later()
      ensures child.Some? ==> child == old(child) && status == old(status)
      ensures r.Err? ==> child.None? && Failed()
      // A policy or a credential that has ended when the tick begins ends the child.
      ensures previous.Policy().expiresAt <= old(host.now) ==> child.None?
      ensures old(tls).Some? && old(tls).value.ExpiresAt() <= old(host.now) ==> child.None?
      // And nothing else does.
      ensures old(host.now) <= noticed <= host.now
      ensures old(child).Some? && child.None? ==> !previous.IsCurrent(noticed) || !old(tls).value.IsCurrent(noticed)
    {
      var now := host.Utc();
      noticed := now;
      var lapsed := RequireCurrent(previous, now).Err?;
      if !lapsed && tls.Some? {
        now := host.Utc();
        noticed := now;
        lapsed := !tls.value.IsCurrent(now);
      }
      if !lapsed {
        return Ok(()), noticed;
      }
      NotReady();
      r := Stop();
    }

    /**
     * A tick of a write in which a child that is gone had lapsed at `lapse`. `ticked` is when the tick began, and a
     * failure to stop the child is kept.
     */
    method Watch(previous: VerifiedPolicy, failure: Verdict, ghost lapse: Time, ghost material: DataTls)
      returns (stopFailure: Verdict, ghost ticked: Time, ghost noticed: Time)
      requires Safe() && (status.ready <==> child.Some?) && (failure.Err? ==> child.None?) && lapse <= host.now
      requires child.Some? ==> tls == Some(material)
      requires child.None? ==> !previous.IsCurrent(lapse) || !material.IsCurrent(lapse)
      modifies this`tls, this`child, this`status, this`log, host
      ensures Safe() && old(log) <= log && (status.ready <==> child.Some?)
      ensures host.Later()
      ensures child.Some? ==> child == old(child) && status == old(status)
      ensures stopFailure.Err? ==> child.None? && (failure.Err? || Failed())
      ensures ticked == old(host.now) && lapse <= noticed <= host.now
      ensures child.Some? ==> ticked < previous.Policy().expiresAt && ticked < material.ExpiresAt()
      ensures child.None? ==> !previous.IsCurrent(noticed) || !material.IsCurrent(noticed)
    {
      ticked, noticed := host.now, lapse;
      ghost var lived := child.Some?;
      ghost var found;
      stopFailure, found := RefreshTick(previous);
      if lived {
        noticed := found;
      }
      if stopFailure.Ok? {
        stopFailure := failure;
      }
    }

    /** Some of the system calls of a write, or all of them. */
    method WriteAhead() returns (outcome: Outcome)
      requires Safe() && policyFile.Pending().Some?
      modifies this`log, policyFile, host
      ensures Safe() && old(log) <= log
      ensures outcome == Outcome.Running <==> policyFile.Pending().Some?
      ensures outcome == Succeeded ==> DiskHolds()
      ensures host.Later() && (outcome == Outcome.Failed <==> Failed())
    {
      outcome := Outcome.Running;
      var calls: nat := *;
      while outcome == Outcome.Running && calls > 0
        invariant Safe() && old(log) <= log
        invariant outcome == Outcome.Running <==> policyFile.Pending().Some?
        invariant outcome == Succeeded ==> DiskHolds()
        invariant host.Later() && (outcome == Outcome.Failed <==> Failed())
        decreases calls
      {
        calls := calls - 1;
        outcome := StepWrite();
      }
    }

    /**
     * The write of a refresh, interleaved with any number of ticks. The first tick may come late, even after the last
     * system call, but it comes before anyone asks for the outcome.
     * `ticked` is when the last tick began, and `noticed` when a tick found that the child had lapsed.
     */
    method RefreshWrite(previous: VerifiedPolicy)
      returns (ok: bool, stopFailure: Verdict, ghost ticked: Time, ghost noticed: Time)
      requires Safe() && policyFile.Pending().Some? && status.ready && child.Some?
      modifies this`tls, this`child, this`status, this`log, policyFile, host
      ensures Safe() && policyFile.Pending() == None && old(log) <= log
      ensures status.ready <==> child.Some?
      ensures host.Later()
      ensures child.Some? ==> child == old(child) && status == old(status)
      ensures stopFailure.Err? ==> child.None? && Failed()
      ensures if ok then DiskHolds() else Failed()
      // A child that is left had not lapsed when the last tick began, and one that is gone had.
      ensures old(host.now) <= ticked <= host.now && old(host.now) <= noticed <= host.now
      ensures child.Some? ==> ticked < previous.Policy().expiresAt && ticked < tls.value.ExpiresAt()
      ensures child.None? ==> !previous.IsCurrent(noticed) || !old(tls).value.IsCurrent(noticed)
    {
      var written := WriteAhead();
      stopFailure, ticked, noticed := Watch(previous, Ok(()), host.now, old(tls).value);
      ok, stopFailure, ticked, noticed := Await(previous, written, stopFailure, ticked, noticed, old(tls).value);
    }

    /** The rest of the write, after the first tick: it began at `tick`, and the child may have lapsed at `lapse`. */
    method Await(previous: VerifiedPolicy, written: Outcome, failure: Verdict,
                 ghost tick: Time, ghost lapse: Time, ghost material: DataTls)
      returns (ok: bool, stopFailure: Verdict, ghost ticked: Time, ghost noticed: Time)
      requires Safe() && (status.ready <==> child.Some?) && (failure.Err? ==> child.None?)
      requires written == Outcome.Running <==> policyFile.Pending().Some?
      requires written == Succeeded ==> DiskHolds()
      requires tick <= host.now && lapse <= host.now
      requires child.Some? ==> tls == Some(material)
      requires child.Some? ==> tick < previous.Policy().expiresAt && tick < material.ExpiresAt()
      requires child.None? ==> !previous.IsCurrent(lapse) || !material.IsCurrent(lapse)
      modifies this`tls, this`child, this`status, this`log, policyFile, host
      ensures Safe() && policyFile.Pending() == None && old(log) <= log
      ensures host.Later() && (status.ready <==> child.Some?)
      ensures child.Some? ==> child == old(child) && status == old(status)
      ensures stopFailure.Err? ==> child.None? && (failure.Err? || Failed())
      ensures if ok then DiskHolds() else written == Outcome.Failed || Failed()
      ensures tick <= ticked <= host.now && lapse <= noticed <= host.now
      ensures child.Some? ==> ticked < previous.Policy().expiresAt && ticked < material.ExpiresAt()
      ensures child.None? ==> !previous.IsCurrent(noticed) || !material.IsCurrent(noticed)
    {
      stopFailure, ticked, noticed := failure, tick, lapse;
      var outcome := written;
      var ticks: nat := *;
      while outcome == Outcome.Running
        invariant Safe() && old(log) <= log && (status.ready <==> child.Some?)
        invariant outcome == Outcome.Running <==> policyFile.Pending().Some?
        invariant outcome == Succeeded ==> DiskHolds()
        invariant host.Later() && (outcome == Outcome.Failed ==> written == Outcome.Failed || Failed())
        invariant tick <= ticked <= host.now && lapse <= noticed <= host.now
        invariant child.Some? ==> ticked < previous.Policy().expiresAt && ticked < material.ExpiresAt()
        invariant child.None? ==> !previous.IsCurrent(noticed) || !material.IsCurrent(noticed)
        invariant child.Some? ==> tls == Some(material) && child == old(child) && status == old(status)
        invariant stopFailure.Err? ==> child.None? && (failure.Err? || Failed())
        decreases policyFile.Remaining(), ticks
      {
        var now: bool := *;
        if now && ticks > 0 {
          ticks := ticks - 1;
          stopFailure, ticked, noticed := Watch(previous, stopFailure, noticed, material);
        } else {
          outcome := StepWrite();
        }
      }
      ok := outcome == Succeeded;
    }

    /** Raises the generation in memory before the write, because a write can fail after its rename. */
    method Raise(v: VerifiedPolicy)
      requires AuthorityDecides(checks)
      requires Safe() && policy.Some? && policyFile.Pending() == None && Admissible(v)
      requires HasSameAuthority(v.Policy(), policy.value.Policy())
      modifies this`policy, this`log, policyFile
      ensures Safe() && old(log) <= log && policy == Some(v) && policyFile.Pending() == Some(v)
    {
      if child.Some? {
        assert checks.render(policy.value.Policy()) == checks.render(v.Policy());
      }
      policy := Some(v);
      Record(Quiet);
      policyFile.Begin(v);
    }

    /** The first half of a refresh: the new generation reaches memory and disk, or the child ends. */
    method Replace(v: VerifiedPolicy) returns (r: Verdict, ghost ticked: Time, ghost noticed: Time)
      requires AuthorityDecides(checks)
      requires Valid() && status.ready && Admissible(v) && HasSameAuthority(v.Policy(), policy.value.Policy())
      modifies this`policy, this`tls, this`child, this`status, this`log, policyFile, host
      ensures Valid() && old(log) <= log && policy == Some(v)
      ensures host.Later()
      ensures status.ready <==> child.Some?
      ensures child.Some? ==> child == old(child) && status == old(status) && r.Ok?
      ensures if r.Ok? then DiskHolds() else Failed()
      ensures old(host.now) <= ticked <= host.now
      ensures child.Some? ==> ticked < old(policy).value.Policy().expiresAt && ticked < tls.value.ExpiresAt()
      ensures r.Ok? && child.None? ==> Explains(LapsedInWrite(noticed), v)
    {
      var previous := policy.value;
      Raise(v);
      var ok, stopFailure;
      ok, stopFailure, ticked, noticed := RefreshWrite(previous);
      if stopFailure.Err? {
        return stopFailure, ticked, noticed;
      }
      if !ok {
        r := Retire();
        return if r.Err? then r else Err(Io), ticked, noticed;
      }
      r := Ok(());
    }

    /** The last step of a refresh that kept its child: the new policy is published exactly if it is still current. */
    method Conclude(v: VerifiedPolicy) returns (r: Verdict)
      requires Valid() && policy == Some(v) && status.ready
      modifies this`status, this`log, host
      ensures Valid() && old(log) <= log && status.ready
      ensures host.Later()
      ensures r.Ok? <==> v.IsCurrent(host.now)
      ensures r.Ok? ==> Publishes(status, v.Policy())
      ensures r.Err? ==> status == old(status) && log == old(log)
      ensures v.Policy().expiresAt <= old(host.now) ==> r.Err?
    {
      var now := host.Utc();
      r := RequireCurrent(v, now);
      if r.Ok? {
        Publish(v);
      }
    }

    /** An activation keeps what holds between steps. */
    method ActivateStep(v: VerifiedPolicy) returns (r: Verdict, ghost served: Time, ghost checked: Time)
      requires Valid() && Admissible(v)
      modifies this, policyFile, host
      ensures Valid() && old(log) <= log && policy in {old(policy), Some(v)} && old(spawned) <= spawned
      ensures host.Later()
      ensures r.Ok? ==> policy == Some(v) && status.ready && Publishes(status, v.Policy()) && spawned > old(spawned)
      ensures r.Ok? ==> old(host.now) <= served <= checked <= host.now
      ensures r.Ok? ==> v.IsCurrent(checked) && tls.value.IsCurrent(served) && tls.value.IsCurrent(checked)
      ensures r.Err? && Renders(v) ==> Troubled(v)
      ensures child.Some? && spawned == old(spawned) ==> child == old(child)
    {
      r, served, checked := Activate(v);
    }

    /** The end of a refresh whose child was observed: the new policy is published for it, or activated. */
    method Finish(v: VerifiedPolicy, previous: VerifiedPolicy)
      returns (r: Verdict, ghost checked: Time, ghost current: Time)
      requires Valid() && policy == Some(v)
      modifies this, policyFile, host
      ensures Valid() && old(log) <= log && policy == Some(v) && old(spawned) <= spawned
      ensures host.Later() && old(host.now) <= checked <= host.now
      ensures r.Ok? ==> status.ready && Publishes(status, v.Policy())
      ensures r.Ok? ==> old(host.now) <= current <= host.now && v.IsCurrent(current)
      ensures r.Err? && Renders(v) ==> Troubled(v)
      ensures child.Some? && spawned == old(spawned) ==> child == old(child)
      ensures r.Ok? && spawned == old(spawned) ==>
                child.Some? && current == host.now && checked < previous.Policy().expiresAt
      ensures r.Ok? && spawned > old(spawned) ==> !old(status.ready) || !previous.IsCurrent(checked)
    {
      var now := host.Utc();
      checked := now;
      if RequireCurrent(previous, now).Err? || !status.ready {
        ghost var served;
        r, served, current := ActivateStep(v);
      } else {
        r := Conclude(v);
        current := host.now;
      }
    }

    /**
     * The second half of a refresh: the child is observed, and the new policy is published for it or activated.
     * `checked` is when the replaced policy was last looked at, and `current` when the new one was found current.
     */
    method Settle(v: VerifiedPolicy, previous: VerifiedPolicy)
      returns (r: Verdict, ghost sight: Sight, ghost checked: Time, ghost current: Time)
      requires AuthorityDecides(checks)
      requires Valid() && policy == Some(v)
      modifies this, policyFile, host
      ensures Valid() && old(log) <= log && policy == Some(v) && old(spawned) <= spawned
      ensures host.Later()
      ensures r.Ok? ==> status.ready && Publishes(status, v.Policy())
      ensures r.Ok? ==> old(host.now) <= current <= host.now && v.IsCurrent(current)
      ensures child.Some? && spawned == old(spawned) ==> child == old(child)
      ensures r.Err? && Renders(v) ==> Troubled(v)
      ensures r.Ok? && spawned == old(spawned) ==> old(host.sightings) < host.sightings
      // A kept child's own policy had not ended, and the new one is current now.
      ensures old(host.now) <= checked <= host.now
      ensures r.Ok? && spawned == old(spawned) ==>
                && child.Some?
                && current == host.now
                && checked < previous.Policy().expiresAt
                && old(host.now) < tls.value.ExpiresAt()
      // A new child is started only for a reason.
      ensures r.Ok? && old(status.ready) && spawned > old(spawned) ==> sight.Ends() || !previous.IsCurrent(checked)
      ensures sight.Ends() && old(tls).Some? ==>
                Justified(SeenEnding(sight), previous, v, old(tls).value, old(host.now), host.now, Failed())
      ensures sight.Blind() ==> r.Err? && child.Some? && status == old(status) && spawned == old(spawned)
    {
      checked := host.now;
      r, sight, current := Observe();
      if r.Err? {
        return;
      }
      r, checked, current := Finish(v, previous);
    }

    /**
     * Replaces a policy by one of the same authority without ending the child. `ticked` is when the last tick of the
     * write began, `written` when the write had ended, `checked` when the replaced policy was last looked at, `current`
     * when the new one was found current, and `ending` why the child did not stay. A child can also go on although the
     * operating system could not be asked about it, and then the refresh is `blind`.
     */
    method Refresh(v: VerifiedPolicy)
      returns (r: Verdict, ghost ticked: Time, ghost written: Time, ghost checked: Time, ghost current: Time,
               ghost blind: bool, ghost ending: Ending)
      requires AuthorityDecides(checks)
      requires Valid() && status.ready && Admissible(v) && HasSameAuthority(v.Policy(), policy.value.Policy())
      modifies this, policyFile, host
      ensures Valid() && old(log) <= log && policy == Some(v) && old(spawned) <= spawned
      ensures host.Later()
      ensures r.Ok? ==> status.ready && Publishes(status, v.Policy())
      ensures r.Ok? ==> old(host.now) <= current <= host.now && v.IsCurrent(current)
      ensures r.Err? && Renders(v) ==> Troubled(v)
      ensures r.Ok? && spawned == old(spawned) ==> old(host.sightings) < host.sightings
      // Whatever the outcome, a child that survives had not lapsed when the last tick of the write began.
      ensures old(host.now) <= ticked <= written <= host.now
      ensures child.Some? && spawned == old(spawned) ==>
                && child == old(child)
                && ticked < old(policy).value.Policy().expiresAt
                && ticked < tls.value.ExpiresAt()
      // After success, its own authority had not ended when the new generation was safe.
      ensures r.Ok? && spawned == old(spawned) ==>
                && current == host.now
                && written <= checked <= host.now
                && checked < old(policy).value.Policy().expiresAt
                && written < tls.value.ExpiresAt()
      // The child stays unless there is a reason to start another.
      ensures r.Ok? && spawned > old(spawned) ==> !ending.Stayed?
      ensures Explains(ending, v)
      // A child that nobody could ask about goes on, under a status that names the replaced policy.
      ensures blind ==> r.Err? && child.Some? && status == old(status) && spawned == old(spawned)
      ensures blind && old(policy).value.Policy().generation < v.Policy().generation ==> Lagging()
    {
      var previous := policy.value;
      PublishedLags(v);
      blind, checked, current, ending := false, host.now, host.now, Stayed;
      ghost var noticed;
      r, ticked, noticed := Replace(v);
      written := host.now;
      if r.Ok? {
        ghost var kept := child.Some?;
        ghost var sight;
        r, sight, checked, current := Settle(v, previous);
        blind := sight.Blind();
        ending :=
          if !kept then LapsedInWrite(noticed)
          else if sight.Ends() then SeenEnding(sight)
          else if !previous.IsCurrent(checked) then LapsedAfter(checked) else Stayed;
      }
    }

    lemma PublishedLags(v: VerifiedPolicy)
      requires Safe() && policy.Some?
      ensures policy.value.Policy().generation < v.Policy().generation ==> !Publishes(status, v.Policy())
    {
      if policy.value.Policy().generation < v.Policy().generation {
        PublishedIsNoNewer(checks, Now(Quiet), v.Policy());
      }
    }

    // ----- application -----

    /** What an acknowledgement of a policy promises: it is on disk, and a ready child enforces it. */
    ghost predicate Enforced(p: Policy)
      requires policyFile.Valid()
      reads this, policyFile
    {
      && DiskHolds()
      && policy.value.Policy() == p
      && status.ready
      && child.Some?
      && Enforces(checks, child.value, p)
    }

    /** A ready child runs under a policy newer than the one its status names. */
    ghost predicate Lagging()
      reads this
    {
      status.ready && policy.Some? && !Publishes(status, policy.value.Policy())
    }

    method Acknowledge(p: Policy) returns (reply: RouterStatus)
      requires Valid() && status.ready && policy.Some? && policy.value.Policy() == p
      modifies this`log
      ensures Valid() && Enforced(p) && reply == status
      ensures log == old(log) + [Now(Acknowledged(p))]
    {
      Record(Acknowledged(p));
      reply := status;
    }

    /** The update of a Supervisor that was just observed. */
    method RefreshOrActivate(v: VerifiedPolicy) returns (r: Verdict, ghost current: Time, ghost ending: Ending)
      requires AuthorityDecides(checks)
      requires Valid() && Admissible(v)
      modifies this, policyFile, host
      ensures Valid() && old(log) <= log && policy in {old(policy), Some(v)} && old(spawned) <= spawned
      ensures host.Later()
      ensures r.Ok? ==> policy == Some(v) && status.ready && Publishes(status, v.Policy())
      ensures r.Ok? ==> old(host.now) <= current <= host.now && v.IsCurrent(current)
      ensures r.Ok? && !old(status.ready) ==> spawned > old(spawned)
      ensures r.Ok? && spawned == old(spawned) ==> current == host.now && old(host.sightings) < host.sightings
      ensures r.Err? && Renders(v) ==> Troubled(v)
      ensures old(status.ready) ==> Explains(ending, v)
      ensures r.Ok? && old(status.ready) && HasSameAuthority(v.Policy(), old(policy).value.Policy()) ==>
                spawned == old(spawned) || !ending.Stayed?
    {
      ending := Stayed;
      if status.ready && policy.Some? && HasSameAuthority(v.Policy(), policy.value.Policy()) {
        ghost var ticked, written, checked, blind;
        r, ticked, written, checked, current, blind, ending := Refresh(v);
      } else {
        ghost var served;
        r, served, current := ActivateStep(v);
      }
    }

    /** The update of a Supervisor that does not already enforce the policy. */
    method Update(v: VerifiedPolicy) returns (r: Verdict, ghost current: Time, ghost ending: Ending)
      requires AuthorityDecides(checks)
      requires Valid() && Admissible(v)
      modifies this, policyFile, host
      ensures Valid() && old(log) <= log && policy in {old(policy), Some(v)} && old(spawned) <= spawned
      ensures host.Later()
      ensures r.Ok? ==> policy == Some(v) && status.ready && Publishes(status, v.Policy())
      ensures r.Ok? ==> old(host.now) <= current <= host.now && v.IsCurrent(current)
      ensures r.Ok? && !old(status.ready) ==> spawned > old(spawned)
      ensures r.Ok? && spawned == old(spawned) ==> current == host.now
      // Only trouble prevents success, and a child that was kept was seen running before the write and after it.
      ensures r.Err? && Renders(v) ==> Troubled(v)
      ensures r.Ok? && spawned == old(spawned) ==> old(host.sightings) + 2 <= host.sightings
      // A ready child of the same authority stays unless there is a reason to start another.
      ensures old(status.ready) ==> Explains(ending, v)
      ensures r.Ok? && old(status.ready) && HasSameAuthority(v.Policy(), old(policy).value.Policy()) ==>
                spawned == old(spawned) || !ending.Stayed?
    {
      ghost var sight;
      r, sight, current := Observe();
      ending := if sight.Ends() then SeenEnding(sight) else Stayed;
      if r.Err? {
        return;
      }
      ghost var reason;
      r, current, reason := RefreshOrActivate(v);
      ending := if sight.Ends() then ending else reason;
    }

    /** An update, acknowledged when it succeeds. */
    method Enforce(v: VerifiedPolicy)
      returns (r: Result<RouterStatus, RouterError>, ghost current: Time, ghost ending: Ending)
      requires AuthorityDecides(checks)
      requires Valid() && Admissible(v)
      modifies this, policyFile, host
      ensures Valid() && old(log) <= log && policy in {old(policy), Some(v)} && old(spawned) <= spawned
      ensures host.Later()
      ensures r.Ok? ==> Enforced(v.Policy()) && r.value == status && Publishes(status, v.Policy())
      ensures r.Ok? ==> |log| > |old(log)| && log[|log| - 1].event == Acknowledged(v.Policy())
      ensures r.Ok? ==> old(host.now) <= current <= host.now && v.IsCurrent(current)
      ensures r.Ok? && !old(status.ready) ==> spawned > old(spawned)
      ensures r.Ok? && spawned == old(spawned) ==> current == host.now
      ensures r.Err? && Renders(v) ==> Troubled(v)
      ensures r.Ok? && spawned == old(spawned) ==> old(host.sightings) + 2 <= host.sightings
      ensures old(status.ready) ==> Explains(ending, v)
      ensures r.Ok? && old(status.ready) && HasSameAuthority(v.Policy(), old(policy).value.Policy()) ==>
                spawned == old(spawned) || !ending.Stayed?
    {
      var updated;
      updated, current, ending := Update(v);
      if updated.Err? {
        return Err(updated.error), current, ending;
      }
      var reply := Acknowledge(v.Policy());
      r := Ok(reply);
    }

    /**
     * A policy that is in force already is acknowledged again, unless the observation for it ends its child; then the
     * update goes on.
     */
    method Repeat(v: VerifiedPolicy)
      returns (r: Option<Result<RouterStatus, RouterError>>, ghost current: Time, ghost ending: Ending)
      requires Valid() && status.ready && policy.value.Policy() == v.Policy()
      modifies this, policyFile, host
      ensures Valid() && old(log) <= log && policy == old(policy) && old(spawned) <= spawned
      ensures host.Later()
      ensures Explains(ending, v)
      ensures r.Some? && r.value.Err? ==> Failed()
      ensures r.None? ==> !status.ready && !ending.Stayed?
      ensures r.Some? && r.value.Ok? ==>
                && Enforced(v.Policy()) && r.value.value == status
                && |log| > |old(log)| && log[|log| - 1].event == Acknowledged(v.Policy())
                && old(host.now) <= current <= host.now && v.IsCurrent(current)
                && (Publishes(status, v.Policy()) <==> !(old(Lagging()) && spawned == old(spawned)))
                && (if spawned == old(spawned) then old(host.sightings) < host.sightings else !ending.Stayed?)
    {
      var observed;
      ghost var sight;
      observed, sight, current := Observe();
      ending := if sight.Ends() then SeenEnding(sight) else Stayed;
      if observed.Err? {
        return Some(Err(observed.error)), current, ending;
      }
      if !status.ready {
        return None, current, ending;
      }
      var reply := Acknowledge(v.Policy());
      r := Some(Ok(reply));
    }

    /** A policy that is in force already is acknowledged again, or put in force again. */
    method RepeatOrEnforce(v: VerifiedPolicy)
      returns (r: Result<RouterStatus, RouterError>, ghost route: Route, ghost current: Time, ghost ending: Ending)
      requires AuthorityDecides(checks)
      requires Valid() && Admissible(v) && status.ready && policy.value.Policy() == v.Policy()
      modifies this, policyFile, host
      ensures Valid() && old(log) <= log && policy in {old(policy), Some(v)} && old(spawned) <= spawned
      ensures host.Later()
      ensures r.Ok? ==> Enforced(v.Policy()) && r.value == status
      ensures r.Ok? ==> |log| > |old(log)| && log[|log| - 1].event == Acknowledged(v.Policy())
      ensures r.Ok? ==> old(host.now) <= current <= host.now && v.IsCurrent(current)
      ensures r.Ok? ==> (Publishes(status, v.Policy()) <==> !(old(Lagging()) && spawned == old(spawned)))
      ensures r.Ok? && spawned == old(spawned) ==> route.Repeated? && old(host.sightings) < host.sightings
      ensures r.Ok? && spawned > old(spawned) ==> !ending.Stayed?
      ensures r.Err? && Renders(v) ==> Troubled(v)
      ensures Explains(ending, v)
    {
      route := Repeated;
      var repeated;
      repeated, current, ending := Repeat(v);
      if repeated.Some? {
        return repeated.value, route, current, ending;
      }
      ghost var reason;
      route := Updated;
      r, current, reason := Enforce(v);
    }

    /**
     * A run of `Repeat` in which the operating system takes `delay` to say that the child runs, and no check of the
     * credentials is due. However long the policy had left, a delay as long makes the acknowledgement late.
     */
    method RepeatSlowly(v: VerifiedPolicy, delay: nat) returns (reply: RouterStatus, ghost current: Time)
      requires Valid() && status.ready && policy.value.Policy() == v.Policy() && v.IsCurrent(host.now)
      requires host.instant + delay < nextTlsCheck
      requires tls.value.IsCurrent(host.now) && tls.value.IsCurrent(host.now + delay)
      modifies this`log, host
      ensures Valid() && Enforced(v.Policy()) && reply == status
      ensures log == old(log) + [Now(Acknowledged(v.Policy()))]
      ensures current == old(host.now) && v.IsCurrent(current) && host.now == current + delay
      ensures v.IsCurrent(host.now) <==> delay < v.Policy().expiresAt - current
    {
      // The observation looks at the policy,
      current := host.now;
      assert RequireCurrent(policy.value, host.now).Ok?;
      // asks about the child,
      host.RunsAfter(delay);
      // and looks at the credentials.
      assert tls.value.IsCurrent(host.now) && host.instant < nextTlsCheck;
      reply := Acknowledge(v.Policy());
    }

    /** Whether a verified policy may be put in force now, and whether it raises the generation. */
    method Screen(v: VerifiedPolicy) returns (r: Result<bool, RouterError>)
      modifies host
      ensures host.Later()
      ensures r.Ok? ==> v.IsCurrent(host.now) && (policy.Some? ==> NoOlder(policy.value.Policy(), v.Policy()))
      ensures r.Ok? && !r.value ==> policy.Some? && policy.value.Policy() == v.Policy()
      ensures r.Ok? && policy.Some? ==> (r.value <==> policy.value.Policy().generation < v.Policy().generation)
      ensures r.Err? ==> !v.IsCurrent(host.now) || (policy.Some? && !NoOlder(policy.value.Policy(), v.Policy()))
    {
      var now := host.Utc();
      if RequireCurrent(v, now).Err? {
        return Err(NotCurrent);
      }
      return if policy.Some? then Advances(v, policy.value) else Ok(true);
    }

    /** Puts an admissible policy in force, or acknowledges it again where it is in force already. */
    method Proceed(v: VerifiedPolicy, advances: bool)
      returns (r: Result<RouterStatus, RouterError>, ghost route: Route, ghost current: Time, ghost ending: Ending)
      requires AuthorityDecides(checks)
      requires Valid() && Admissible(v)
      requires advances <==> policy.None? || policy.value.Policy().generation < v.Policy().generation
      modifies this, policyFile, host
      ensures Valid() && old(log) <= log
      ensures host.Later()
      ensures policy in {old(policy), Some(v)}
      ensures r.Ok? ==> Enforced(v.Policy()) && r.value == status
      ensures r.Ok? ==> |log| > |old(log)| && log[|log| - 1].event == Acknowledged(v.Policy())
      ensures r.Ok? ==> old(host.now) <= current <= host.now && v.IsCurrent(current)
      ensures r.Ok? && route.Updated? && spawned == old(spawned) ==> current == host.now
      ensures r.Ok? && spawned == old(spawned) ==>
                old(host.sightings) + (if route.Updated? then 2 else 1) <= host.sightings
      ensures r.Ok? ==> (Publishes(r.value, v.Policy()) <==>
                         !(old(Lagging()) && old(policy).value.Policy() == v.Policy() && spawned == old(spawned)))
      ensures r.Err? && Renders(v) ==> Troubled(v)
      ensures old(status.ready) ==> Explains(ending, v)
      ensures r.Ok? && old(status.ready) && HasSameAuthority(v.Policy(), old(policy).value.Policy()) ==>
                spawned == old(spawned) || !ending.Stayed?
    {
      if !advances && status.ready {
        r, route, current, ending := RepeatOrEnforce(v);
      } else {
        route := Updated;
        r, current, ending := Enforce(v);
      }
    }

    /**
     * Applies a signed policy. An acknowledgement means enforcement; it carries the facts of the applied policy
     * unless the Supervisor was lagging behind that very policy and no new child was started. `current` is when the
     * policy was last found current before the acknowledgement.
     */
    method Apply(signed: SignedPolicy)
      returns (r: Result<RouterStatus, RouterError>, ghost route: Route, ghost current: Time, ghost ending: Ending)
      requires AuthorityDecides(checks)
      requires Valid()
      modifies this, policyFile, host
      ensures Valid() && old(log) <= log
      ensures host.Later()
      ensures policy in {old(policy), Some(VerifiedPolicy(signed))}
      // Acknowledgement means enforcement.
      ensures r.Ok? ==> Enforced(signed.policy) && r.value == status
      ensures r.Ok? ==> |log| > |old(log)| && log[|log| - 1].event == Acknowledged(signed.policy)
      // The policy was current during the step; after a refresh that kept its child, it is current now.
      ensures r.Ok? ==> old(host.now) <= current <= host.now && VerifiedPolicy(signed).IsCurrent(current)
      ensures r.Ok? && route.Updated? && spawned == old(spawned) ==> current == host.now
      // So the acknowledgement is in time exactly when the rest of the step took less than the life that was left.
      ensures r.Ok? ==>
                (VerifiedPolicy(signed).IsCurrent(host.now) <==> host.now - current < signed.policy.expiresAt - current)
      // A child that was kept was seen running, and twice if its policy was replaced.
      ensures r.Ok? && spawned == old(spawned) ==>
                old(host.sightings) + (if route.Updated? then 2 else 1) <= host.sightings
      // It is exact except for a lagging repetition.
      ensures r.Ok? ==> (Publishes(r.value, signed.policy) <==>
                         !(old(Lagging()) && old(policy).value.Policy() == signed.policy && spawned == old(spawned)))
      // A ready child of the same authority stays unless there is a reason to start another.
      ensures old(status.ready) ==> Explains(ending, VerifiedPolicy(signed))
      ensures r.Ok? && old(status.ready) && HasSameAuthority(signed.policy, old(policy).value.Policy()) ==>
                spawned == old(spawned) || !ending.Stayed?
      // Only trouble keeps a verified policy that is no older and renders from being acknowledged.
      ensures r.Err? ==>
                || checks.rejects(signed).Some?
                || (old(policy).Some? && !NoOlder(old(policy).value.Policy(), signed.policy))
                || !Renders(VerifiedPolicy(signed))
                || Troubled(VerifiedPolicy(signed))
      // What cannot be verified, goes back in generation or has expired changes nothing.
      ensures checks.rejects(signed).Some? || signed.policy.expiresAt <= old(host.now)
              || (old(policy).Some? && !NoOlder(old(policy).value.Policy(), signed.policy)) ==>
                r.Err? && unchanged(this) && unchanged(policyFile)
    {
      route, current, ending := Updated, host.now, Stayed;
      var rejection := checks.rejects(signed);
      if rejection.Some? {
        return Err(rejection.value), route, current, ending;
      }
      var screened := Screen(VerifiedPolicy(signed));
      if screened.Err? {
        return Err(screened.error), route, current, ending;
      }
      r, route, current, ending := Proceed(VerifiedPolicy(signed), screened.value);
    }

    /** What the handle tells a client, at any point of any step and after the actor has ended. */
    method Report() returns (reply: RouterStatus)
      modifies host
      ensures host.Later()
      ensures reply == Reported(status, host.now)
    {
      reply := status;
      var now := host.Utc();
      reply := reply.(ready := reply.ready && reply.expiresAt.Some? && now < reply.expiresAt.value);
    }

    // ----- lives -----

    /** Reads the stored policy at the start of a process, and verifies it again. */
    method Load() returns (r: Result<Option<VerifiedPolicy>, RouterError>, ghost unreadable: bool)
      requires policyFile.Valid()
      ensures r.Ok? ==> r.value == policyFile.Visible()
      // What a Supervisor stored is read back unless the disk fails or the file is over the size limit.
      ensures r.Ok? <==>
              && !unreadable
              && TrustedOption(checks, policyFile.Visible())
              && (policyFile.Visible().Some? ==> checks.size(policyFile.Visible().value.signed) <= MAX_POLICY_BYTES)
    {
      var faulty: bool := *;
      unreadable := faulty;
      if faulty {
        return Err(Io), unreadable;
      }
      var stored := policyFile.Visible();
      if stored.None? {
        return Ok(None), unreadable;
      }
      if checks.size(stored.value.signed) > MAX_POLICY_BYTES {
        return Err(InvalidPolicy), unreadable;
      }
      var rejection := checks.rejects(stored.value.signed);
      if rejection.Some? {
        return Err(rejection.value), unreadable;
      }
      return Ok(stored), unreadable;
    }

    /** What holds while no process runs: the directory and the history. */
    ghost predicate Rests()
      reads this, policyFile
    {
      && policyFile.Valid()
      && policyFile.Pending() == None
      && TrustedOption(checks, policyFile.Visible()) && TrustedOption(checks, policyFile.Durable())
      && NoOlderOption(policyFile.Durable(), policyFile.Visible())
      && Legal(checks, log)
      && FollowsAll(log, Now(Quiet))
      && (if log == [] then spawned == 0 else spawned == log[|log| - 1].spawned && Resumes(log[|log| - 1], Now(Quiet)))
    }

    /** A process image that has just loaded `stored` and has no child. */
    method Initialize(stored: Option<VerifiedPolicy>)
      requires Rests() && stored == policyFile.Visible()
      modifies this
      ensures Valid() && policy == stored && child.None? && log == old(log) + [Now(Booted)]
    {
      policy, child, tls, nextTlsCheck := stored, None, None, host.instant;
      status := if stored.None? then RouterStatus(None, None, None, false)
                else RouterStatus(
                    Some(stored.value.Policy().generation),
                    Some(stored.value.Digest()),
                    Some(stored.value.Policy().expiresAt),
                    false);
      Record(Booted);
    }

    /** The construction of a Supervisor in a new process; it fails where the stored policy cannot be read back. */
    method Boot() returns (started: bool, ghost unreadable: bool)
      requires Rests()
      modifies this
      ensures started ==> Valid() && child.None? && policy == policyFile.Visible() && log == old(log) + [Now(Booted)]
      ensures !started ==> Rests() && log == old(log)
      ensures started <==>
              && checks.usable
              && !unreadable
              && (policyFile.Visible().Some? ==> checks.size(policyFile.Visible().value.signed) <= MAX_POLICY_BYTES)
    {
      unreadable := false;
      if !checks.usable {
        return false, unreadable;
      }
      var stored;
      stored, unreadable := Load();
      started := stored.Ok?;
      if started {
        Initialize(stored.value);
      }
    }

    /** The start of `run`: a stored policy is activated only while it is current. */
    method Start()
      requires Valid() && child.None?
      modifies this, policyFile, host
      ensures Valid() && old(log) <= log && policy == old(policy)
      ensures policy.Some? && Renders(policy.value) && !Troubled(policy.value) ==> status.ready
      ensures child.Some? ==> policy.Some? && Outlives(old(host.now)) && Publishes(status, policy.value.Policy())
    {
      if policy.Some? {
        var now := host.Utc();
        if RequireCurrent(policy.value, now).Ok? {
          ghost var current := Reactivate();
        }
      }
    }

    /**
     * The process dies at the point that snapshot `k` records, with or without the machine losing power. What the step
     * did after that point never happened.
     */
    method Die(k: nat, powerLost: bool)
      requires policyFile.Valid() && Legal(checks, log) && k < |log|
      modifies this, policyFile
      ensures Rests() && child.None? && log == old(log)[..k + 1]
      ensures policyFile.Durable() == log[k].durable
      ensures policyFile.Visible() == if powerLost then log[k].durable else log[k].visible
    {
      LegalPrefix(checks, log, k);
      var last := log[k];
      log := log[..k + 1];
      child, tls := None, None;
      losses, spawned := last.losses + (if powerLost then 1 else 0), last.spawned;
      policyFile.Crash(last.visible, last.durable, powerLost);
      assert Sound(checks, last);
    }

    /** The machine loses power while no process runs. */
    method LosePower()
      requires Rests()
      modifies this, policyFile
      ensures Rests() && log == old(log) && policyFile.Visible() == policyFile.Durable() == old(policyFile.Durable())
    {
      losses := losses + 1;
      policyFile.Crash(policyFile.Visible(), policyFile.Durable(), true);
    }
  }

  datatype Command = Tick | Submit(signed: SignedPolicy) | Shutdown

  /** Whether the process survives a step, or dies at one of the points of that step. */
  datatype Fate = Survives | Dies(point: nat, powerLost: bool)

  datatype Turn = Turn(command: Command, fate: Fate)

  /** No process runs, a process has read its directory and not yet started its loop, or the loop runs. */
  datatype Phase = Down | Booting | Up

  /**
   * One step of the actor's loop; a policy that was acknowledged is returned. An actor that ends leaves a ready status
   * exactly when a tick ended it because nobody could be asked about its child.
   */
  method TakeTurn(s: RouterSupervisor, command: Command) returns (ended: bool, reply: Option<Policy>, ghost blind: bool)
    requires AuthorityDecides(s.checks)
    requires s.Valid()
    modifies s, s.policyFile, s.host
    ensures !ended ==> s.Valid()
    ensures s.policyFile.Valid() && Legal(s.checks, s.log) && old(s.log) <= s.log
    ensures reply.Some? ==> |old(s.log)| < |s.log| && s.log[|s.log| - 1].event == Acknowledged(reply.value)
    ensures ended ==> s.child.None? && reply.None?
    ensures blind ==> command.Tick? && ended
    ensures ended ==> (s.status.ready <==> blind && old(s.status.ready))
    ensures s.UpToDate()
    // Only trouble ends an actor that was not told to stop, or keeps a good policy from being acknowledged.
    ensures ended && !command.Shutdown? ==> s.Failed()
    ensures command.Submit? && reply.None? ==>
              || s.checks.rejects(command.signed).Some?
              || (old(s.policy).Some? && !NoOlder(old(s.policy).value.Policy(), command.signed.policy))
              || !s.Renders(VerifiedPolicy(command.signed))
              || s.Troubled(VerifiedPolicy(command.signed))
  {
    ended, reply, blind := false, None, false;
    match command {
      case Tick =>
        var r;
        ghost var sight, current;
        r, sight, current := s.Observe();
        blind := sight.Blind();
        if r.Err? {
          s.Abandon();
          ended := true;
        }
      case Submit(signed) =>
        var r;
        ghost var route, current, ending;
        r, route, current, ending := s.Apply(signed);
        if r.Ok? {
          reply := Some(signed.policy);
        }
      case Shutdown =>
        var _ := s.Retire();
        ended := true;
    }
  }

  lemma CutKeeps<T>(before: seq<T>, after: seq<T>, k: nat)
    requires before <= after && |before| <= k + 1 <= |after|
    ensures before <= after[..k + 1]
  {
  }

  /** The snapshot of a step at which the process dies: one of the points after the step began. */
  function PointOfDeath(fate: Fate, before: nat, after: nat): (k: nat)
    requires 0 < before <= after
    ensures before <= k + 1 <= after
  {
    if fate.Dies? && before - 1 + fate.point < after - 1 then before - 1 + fate.point else after - 1
  }

  /** What holds of a Supervisor in each phase of its life. */
  ghost predicate Lives(s: RouterSupervisor, phase: Phase)
    reads s, s.policyFile, s.host
  {
    match phase
    case Down => s.Rests()
    case Booting => s.Valid() && s.child.None? && s.log != []
    case Up => s.Valid() && s.log != []
  }

  /** While no process runs, one is started, which can fail, or the machine loses power. */
  method Wake(s: RouterSupervisor, fate: Fate) returns (phase: Phase)
    requires Lives(s, Down)
    modifies s, s.policyFile
    ensures Lives(s, phase) && old(s.log) <= s.log
  {
    phase := Down;
    if fate.Dies? {
      if fate.powerLost {
        s.LosePower();
      }
    } else {
      var started, _ := s.Boot();
      if started {
        phase := Booting;
      }
    }
  }

  /** The activation of the stored policy at the start of the loop, in which the process can die like in any step. */
  method Rise(s: RouterSupervisor, fate: Fate) returns (phase: Phase)
    requires Lives(s, Booting)
    modifies s, s.policyFile, s.host
    ensures Lives(s, phase) && old(s.log) <= s.log
  {
    ghost var log := s.log;
    var before := |s.log|;
    s.Start();
    phase := Up;
    if fate.Dies? {
      var k := PointOfDeath(fate, before, |s.log|);
      CutKeeps(log, s.log, k);
      s.Die(k, fate.powerLost);
      phase := Down;
    }
  }

  /** A step and its fate: what happened before the step stays, and a step that is cut short acknowledges nothing. */
  method Survive(s: RouterSupervisor, turn: Turn) returns (phase: Phase, reply: Option<Policy>)
    requires AuthorityDecides(s.checks)
    requires Lives(s, Up)
    modifies s, s.policyFile, s.host
    ensures Lives(s, phase) && old(s.log) <= s.log
    ensures reply.Some? ==> |old(s.log)| < |s.log| && s.log[|s.log| - 1].event == Acknowledged(reply.value)
  {
    ghost var log := s.log;
    var before := |s.log|;
    var ended;
    ghost var blind;
    ended, reply, blind := TakeTurn(s, turn.command);
    phase := Up;
    if ended || turn.fate.Dies? {
      var k := PointOfDeath(turn.fate, before, |s.log|);
      CutKeeps(log, s.log, k);
      s.Die(k, turn.fate.Dies? && turn.fate.powerLost);
      phase, reply := Down, None;
    }
  }

  /** One turn of a life, in any phase. */
  method Turns(s: RouterSupervisor, phase: Phase, turn: Turn) returns (next: Phase, reply: Option<Policy>)
    requires AuthorityDecides(s.checks)
    requires Lives(s, phase)
    modifies s, s.policyFile, s.host
    ensures Lives(s, next) && old(s.log) <= s.log
    ensures reply.Some? ==> |old(s.log)| < |s.log| && s.log[|s.log| - 1].event == Acknowledged(reply.value)
  {
    reply := None;
    match phase {
      case Down => next := Wake(s, turn.fate);
      case Booting => next := Rise(s, turn.fate);
      case Up => next, reply := Survive(s, turn);
    }
  }

  /**
   * Any life of a Supervisor on one state directory: starts that fail and are tried again, ticks, submitted policies,
   * orderly shutdowns, and crashes at any point of any step and of any start, in any order, with every outcome of the
   * disk, the process and the clock. The history leaves out no point and no start of a process, and the policies
   * acknowledged to clients never go back.
   */
  method Live(checks: Checks, turns: seq<Turn>, now: Time, instant: int)
    returns (log: seq<Snapshot>, acknowledged: seq<Policy>, children: nat, ghost at: seq<nat>)
    requires AuthorityDecides(checks)
    ensures Legal(checks, log) && Starts(log) == children
    ensures Witnessed(log, acknowledged, at)
    ensures forall i, j :: 0 <= i < j < |acknowledged| ==> NoOlder(acknowledged[i], acknowledged[j])
  {
    var s := new RouterSupervisor(checks, now, instant);
    var phase;
    phase, acknowledged, at := LiveOn(s, turns);
    log, children := s.log, s.spawned;
    if log != [] {
      StartsAreCounted(checks, log);
    }
    AcknowledgementsInOrder(checks, log, acknowledged, at);
  }

  /** One turn, with the acknowledgements so far. */
  method Go(s: RouterSupervisor, phase: Phase, turn: Turn, acknowledged: seq<Policy>, ghost at: seq<nat>)
    returns (next: Phase, acknowledged': seq<Policy>, ghost at': seq<nat>)
    requires AuthorityDecides(s.checks)
    requires Lives(s, phase) && Witnessed(s.log, acknowledged, at)
    modifies s, s.policyFile, s.host
    ensures Lives(s, next) && old(s.log) <= s.log && Witnessed(s.log, acknowledged', at')
  {
    ghost var before := s.log;
    var reply;
    next, reply := Turns(s, phase, turn);
    WitnessedStays(before, s.log, acknowledged, at, reply);
    acknowledged', at' := acknowledged, at;
    if reply.Some? {
      acknowledged', at' := acknowledged + [reply.value], at + [|s.log| - 1];
    }
  }

  /** A life that begins on a directory where no process runs. */
  method LiveOn(s: RouterSupervisor, turns: seq<Turn>)
    returns (phase: Phase, acknowledged: seq<Policy>, ghost at: seq<nat>)
    requires AuthorityDecides(s.checks)
    requires Lives(s, Down)
    modifies s, s.policyFile, s.host
    ensures Lives(s, phase) && old(s.log) <= s.log && Witnessed(s.log, acknowledged, at)
  {
    acknowledged, at, phase := [], [], Down;
    for i := 0 to |turns|
      invariant Lives(s, phase) && old(s.log) <= s.log
      invariant Witnessed(s.log, acknowledged, at)
    {
      phase, acknowledged, at := Go(s, phase, turns[i], acknowledged, at);
    }
  }

  /** The same for a Supervisor that verifies signatures and renders documents as the source does. */
  method LiveWith(setup: Setup, turns: seq<Turn>, now: Time, instant: int)
    returns (log: seq<Snapshot>, acknowledged: seq<Policy>, children: nat, ghost at: seq<nat>)
    ensures Legal(ChecksOf(setup), log) && Starts(log) == children
    ensures Witnessed(log, acknowledged, at)
    ensures forall i, j :: 0 <= i < j < |acknowledged| ==> NoOlder(acknowledged[i], acknowledged[j])
  {
    log, acknowledged, children, at := Live(ChecksOf(setup), turns, now, instant);
  }

  /** Every acknowledged policy has its place in the history, in order. */
  ghost predicate Witnessed(log: seq<Snapshot>, acknowledged: seq<Policy>, at: seq<nat>) {
    && |at| == |acknowledged|
    && (forall i :: 0 <= i < |at| ==> at[i] < |log| && log[at[i]].event == Acknowledged(acknowledged[i]))
    && (forall i, j :: 0 <= i < j < |at| ==> at[i] < at[j])
  }

  lemma WitnessedStays(before: seq<Snapshot>, after: seq<Snapshot>, acknowledged: seq<Policy>, at: seq<nat>,
                       reply: Option<Policy>)
    requires Witnessed(before, acknowledged, at) && before <= after
    requires reply.Some? ==> |before| < |after| && after[|after| - 1].event == Acknowledged(reply.value)
    ensures Witnessed(after, acknowledged, at)
    ensures reply.Some? ==> Witnessed(after, acknowledged + [reply.value], at + [|after| - 1])
  {
  }

  lemma AcknowledgementsInOrder(checks: Checks, log: seq<Snapshot>, acknowledged: seq<Policy>, at: seq<nat>)
    requires Legal(checks, log) && Witnessed(log, acknowledged, at)
    ensures forall i, j :: 0 <= i < j < |acknowledged| ==> NoOlder(acknowledged[i], acknowledged[j])
  {
    forall i, j | 0 <= i < j < |acknowledged|
      ensures NoOlder(acknowledged[i], acknowledged[j])
    {
      NoRollback(checks, log, at[i], at[j]);
    }
  }
}
