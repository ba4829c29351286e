/**
 * The history of a Router Supervisor: one snapshot for every point at which its disk, its memory, its child or
 * its published status has changed, across crashes and restarts.
 */
module History {
  import opened Common
  import opened Policies
  import opened Acl
  import opened RouterConfigs
  import AclTheorems

  datatype RouterStatus = RouterStatus(
    generation: Option<nat>,
    digest: Option<Digest>,
    expiresAt: Option<Time>,
    ready: bool)

  /** The supervised process, numbered by its start, with the configuration it was started with. */
  datatype Child = Child(serial: nat, config: ChildConfig)

  /** What the Supervisor is started with; `size` is the length of the stored policy file. */
  datatype Setup = Setup(
    key: VerifyingKey,
    fleetId: string,
    config: RouterConfig,
    accepts: Document -> bool,
    size: SignedPolicy -> nat)

  /** What a Supervisor demands of its setup before it reads its directory. */
  predicate Usable(setup: Setup) {
    ValidConfig(setup.config) && !setup.key.weak && LiteralName(setup.fleetId)
  }

  /** The checks of the source in their order. */
  method Admit(setup: Setup) returns (r: Result<(), RouterError>)
    ensures r.Ok? <==> Usable(setup)
    ensures r.Err? && ValidConfig(setup.config) && setup.key.weak ==> r.error == InvalidSignature
    ensures r.Err? && !(ValidConfig(setup.config) && setup.key.weak) ==> r.error == InvalidPolicy
  {
    var valid := CheckConfig(setup.config);
    if !valid {
      return Err(InvalidPolicy);
    }
    if setup.key.weak {
      return Err(InvalidSignature);
    }
    if !LiteralName(setup.fleetId) {
      return Err(InvalidPolicy);
    }
    return Ok(());
  }

  /** What the protocol uses of its setup: whether it is usable, and how to verify and render a policy. */
  datatype Checks = Checks(
    usable: bool,
    rejects: SignedPolicy -> Option<RouterError>,
    render: Policy -> Result<Document, RouterError>,
    size: SignedPolicy -> nat)
  {
    predicate Trusts(v: VerifiedPolicy) {
      rejects(v.signed).None?
    }
  }

  function ChecksOf(setup: Setup): (c: Checks)
    ensures AuthorityDecides(c) && c.usable == Usable(setup)
    ensures forall v :: c.Trusts(v) <==> Verified(v, setup.key, setup.fleetId)
  {
    var c := Checks(
               Usable(setup),
               s => Rejection(s, setup.key, setup.fleetId),
               p => Render(setup.config, setup.accepts, p),
               setup.size);
    assert AuthorityDecides(c) by {
      forall p, q | HasSameAuthority(p, q)
        ensures c.render(p) == c.render(q)
      {
        SameAuthorityRendersAlike(setup.config, setup.accepts, p, q);
      }
    }
    c
  }

  /** Refresh refines activate: policies of the same authority are rendered alike. */
  ghost predicate AuthorityDecides(c: Checks) {
    forall p, q :: HasSameAuthority(p, q) ==> c.render(p) == c.render(q)
  }

  /** `Abandoned` is the end of an actor that did not withdraw its status first. */
  datatype Event = Quiet | Booted | Abandoned | Spawned(policy: Policy) | Acknowledged(policy: Policy)

  /** `losses` counts how often the machine has lost power, and `spawned` how many processes were started. */
  datatype Snapshot = Snapshot(
    losses: nat,
    spawned: nat,
    visible: Option<VerifiedPolicy>,
    durable: Option<VerifiedPolicy>,
    memory: Option<VerifiedPolicy>,
    child: Option<Child>,
    status: RouterStatus,
    event: Event)

  predicate Publishes(status: RouterStatus, p: Policy) {
    && status.generation == Some(p.generation)
    && status.digest == Some(Sha256(p))
    && status.expiresAt == Some(p.expiresAt)
  }

  /** A status publishes the facts of one policy, or of none. */
  predicate Coherent(status: RouterStatus) {
    if status.digest.None? then status.generation.None? && status.expiresAt.None?
    else Publishes(status, status.digest.value.of)
  }

  /** The child runs with the access control lists of this policy. */
  predicate Enforces(checks: Checks, child: Child, p: Policy) {
    checks.render(p) == Ok(child.config.document)
  }

  predicate TrustedOption(checks: Checks, v: Option<VerifiedPolicy>) {
    v.Some? ==> checks.Trusts(v.value)
  }

  predicate NoOlderOption(earlier: Option<VerifiedPolicy>, later: Option<VerifiedPolicy>) {
    earlier.Some? ==> later.Some? && NoOlder(earlier.value.Policy(), later.value.Policy())
  }

  predicate Acts(event: Event) {
    event.Spawned? || event.Acknowledged?
  }

  /**
   * What holds at every point: the generation of the disk is at most that of memory, the published generation is
   * at most that of the disk, a child enforces the policy in memory, and a ready status means a child and names its
   * authority. Only an actor that was abandoned can leave a ready status without a child.
   */
  predicate Sound(checks: Checks, s: Snapshot) {
    && TrustedOption(checks, s.visible)
    && TrustedOption(checks, s.durable)
    && TrustedOption(checks, s.memory)
    && NoOlderOption(s.durable, s.visible)
    && NoOlderOption(s.visible, s.memory)
    && Coherent(s.status)
    && (s.status.digest.Some? ==> s.visible.Some? && NoOlder(s.status.digest.value.of, s.visible.value.Policy()))
    && (s.child.Some? ==> s.memory.Some? && Enforces(checks, s.child.value, s.memory.value.Policy()))
    && (s.status.ready ==>
          && (if s.event.Abandoned? then s.child.None? else s.child.Some?)
          && s.memory.Some? && s.status.digest.Some?
          && HasSameAuthority(s.status.digest.value.of, s.memory.value.Policy()))
    && (Acts(s.event) ==>
          s.child.Some? && s.memory == s.durable && s.durable.Some? && s.durable.value.Policy() == s.event.policy)
    && (s.event.Acknowledged? ==> s.status.ready)
  }

  /** What is durable never goes back; what a reader sees goes back only with a loss of power. */
  predicate Follows(earlier: Snapshot, later: Snapshot) {
    && earlier.losses <= later.losses
    && NoOlderOption(earlier.durable, later.durable)
    && (earlier.losses == later.losses ==> NoOlderOption(earlier.visible, later.visible))
  }

  /** The directory that a new process finds is the one that the last process left, or what was durable of it. */
  predicate Resumes(a: Snapshot, b: Snapshot) {
    && b.durable == a.durable
    && a.losses <= b.losses
    && b.visible == (if b.losses == a.losses then a.visible else a.durable)
  }

  /** One system call of a write: what is in memory can become visible, and what is visible durable. */
  predicate OneCall(a: Snapshot, b: Snapshot) {
    && (b.visible == a.visible || b.visible == a.memory)
    && (b.durable == a.durable || b.durable == a.visible || b.durable == b.visible)
  }

  /**
   * From one point to the next, one of directory, memory, child and status changes; an exited child takes readiness
   * with it.
   */
  predicate OneChange(a: Snapshot, b: Snapshot) {
    var directory := a.visible == b.visible && a.durable == b.durable;
    || (directory && a.memory == b.memory && a.child == b.child)
    || (directory && a.memory == b.memory && a.status == b.status)
    || (directory && a.child == b.child && a.status == b.status)
    || (a.memory == b.memory && a.child == b.child && a.status == b.status && OneCall(a, b))
    || (directory && a.memory == b.memory && b.child.None? && b.status == a.status.(ready := false))
  }

  /** A child appears only where its start is recorded, under the next serial number, and is replaced by no other. */
  predicate ChildChange(a: Snapshot, b: Snapshot) {
    && b.spawned == a.spawned + (if b.event.Spawned? then 1 else 0)
    && (if b.event.Spawned? then a.child.None? && b.child.Some? && b.child.value.serial == a.spawned
        else b.child.None? || b.child == a.child)
  }

  predicate Adjacent(a: Snapshot, b: Snapshot) {
    && ChildChange(a, b)
    && (if b.event.Booted? then Resumes(a, b) && b.memory == b.visible && b.child.None? && !b.status.ready
        else b.losses == a.losses && OneChange(a, b))
    && (b.event.Acknowledged? ==> b == a.(event := b.event))
  }

  /** What can be recorded after a history; the first thing is a start. */
  predicate Continues(log: seq<Snapshot>, s: Snapshot) {
    if log == [] then s.event.Booted? && s.child.None? && s.spawned == 0 else Adjacent(log[|log| - 1], s)
  }

  predicate Linked(log: seq<Snapshot>, i: nat)
    requires i < |log|
  {
    Continues(log[..i], log[i])
  }

  /**
   * A history: every point is sound, nothing that is stored goes back, and no point is left out between two others.
   */
  predicate Legal(checks: Checks, log: seq<Snapshot>) {
    && (forall i :: 0 <= i < |log| ==> Sound(checks, log[i]))
    && (forall i, j :: 0 <= i < j < |log| ==> Follows(log[i], log[j]))
    && (forall i :: 0 <= i < |log| ==> Linked(log, i))
  }

  predicate FollowsAll(log: seq<Snapshot>, s: Snapshot) {
    forall i :: 0 <= i < |log| ==> Follows(log[i], s)
  }

  lemma LegalExtends(checks: Checks, log: seq<Snapshot>, s: Snapshot)
    requires Legal(checks, log) && Sound(checks, s) && FollowsAll(log, s) && Continues(log, s)
    ensures Legal(checks, log + [s]) && FollowsAll(log + [s], s)
  {
    var longer := log + [s];
    forall i | 0 <= i < |longer|
      ensures Linked(longer, i)
    {
      assert longer[..i] == log[..i];
      if i < |log| {
        assert Linked(log, i);
      } else {
        assert log[..i] == log;
      }
    }
  }

  /** A published policy is never newer than the one in memory. */
  lemma PublishedIsNoNewer(checks: Checks, s: Snapshot, p: Policy)
    requires Sound(checks, s) && s.memory.Some? && s.memory.value.Policy().generation < p.generation
    ensures !Publishes(s.status, p)
  {
  }

  lemma LegalPrefix(checks: Checks, log: seq<Snapshot>, k: nat)
    requires Legal(checks, log) && k < |log|
    ensures Legal(checks, log[..k + 1]) && FollowsAll(log[..k + 1], log[k])
  {
    var shorter := log[..k + 1];
    forall i | 0 <= i < |shorter|
      ensures Linked(shorter, i)
    {
      assert shorter[..i] == log[..i];
      assert Linked(log, i);
    }
  }

  // ----- starts -----

  /** The number of recorded starts. */
  function Starts(log: seq<Snapshot>): nat {
    if log == [] then 0 else Starts(log[..|log| - 1]) + if log[|log| - 1].event.Spawned? then 1 else 0
  }

  /** Every start of a process is recorded, once. */
  lemma {:induction false} StartsAreCounted(checks: Checks, log: seq<Snapshot>)
    requires Legal(checks, log) && log != []
    ensures log[|log| - 1].spawned == Starts(log)
    decreases |log|
  {
    var n := |log| - 1;
    assert Linked(log, n);
    if n > 0 {
      LegalPrefix(checks, log, n - 1);
      StartsAreCounted(checks, log[..n]);
    }
  }

  /** Every child has its start in the history, for a policy of the same document, and lives without a gap since. */
  lemma {:induction false} ChildWasStarted(checks: Checks, log: seq<Snapshot>, i: nat) returns (j: nat)
    requires Legal(checks, log) && i < |log| && log[i].child.Some?
    ensures j <= i && log[j].event.Spawned? && forall k :: j <= k <= i ==> log[k].child == log[i].child
    ensures Enforces(checks, log[i].child.value, log[j].event.policy)
    decreases i
  {
    assert Linked(log, i);
    if log[i].event.Spawned? {
      j := i;
      assert Sound(checks, log[i]);
    } else {
      j := ChildWasStarted(checks, log, i - 1);
    }
  }

  /**
   * No rollback: along a history, the policies that a child was started for and the policies that were
   * acknowledged never go back in generation, and one generation never stands for two policies.
   */
  lemma NoRollback(checks: Checks, log: seq<Snapshot>, i: nat, j: nat)
    requires Legal(checks, log) && i < j < |log| && Acts(log[i].event) && Acts(log[j].event)
    ensures log[i].event.policy.generation <= log[j].event.policy.generation
    ensures log[i].event.policy.generation == log[j].event.policy.generation ==>
              Sha256(log[i].event.policy) == Sha256(log[j].event.policy)
  {
    assert Sound(checks, log[i]) && Sound(checks, log[j]);
  }

  /**
   * The stored policy: what is durable never goes back in generation, and what a reader of the directory sees goes
   * back only when the machine loses power; published is at most visible, and visible at most what is in memory.
   */
  lemma StoredNeverGoesBack(checks: Checks, log: seq<Snapshot>, i: nat, j: nat)
    requires Legal(checks, log) && i < j < |log|
    ensures log[i].durable.Some? ==>
      log[j].durable.Some? && log[i].durable.value.Policy().generation <= log[j].durable.value.Policy().generation
    ensures log[i].visible.Some? && log[i].losses == log[j].losses ==>
      log[j].visible.Some? && log[i].visible.value.Policy().generation <= log[j].visible.value.Policy().generation
    ensures log[i].status.generation.Some? ==>
      && log[i].visible.Some? && log[i].memory.Some?
      && log[i].status.generation.value <= log[i].visible.value.Policy().generation
      && log[i].visible.value.Policy().generation <= log[i].memory.value.Policy().generation
  {
    assert Sound(checks, log[i]) && Follows(log[i], log[j]);
  }

  /** While one child runs, the authority in memory does not change. */
  lemma ExclusiveAuthority(setup: Setup, log: seq<Snapshot>, i: nat, j: nat)
    requires Legal(ChecksOf(setup), log) && i < |log| && j < |log|
    requires log[i].child.Some? && log[j].child == log[i].child
    ensures HasSameAuthority(log[i].memory.value.Policy(), log[j].memory.value.Policy())
  {
    var checks := ChecksOf(setup);
    var x, y := log[i].memory.value, log[j].memory.value;
    assert Sound(checks, log[i]) && Sound(checks, log[j]);
    assert checks.Trusts(x) && checks.Trusts(y);
    DocumentDeterminesAuthority(setup.config, setup.accepts, x.Policy(), y.Policy());
  }

  /** What the handle tells a client at some time: readiness ends with the published expiry. */
  function Reported(status: RouterStatus, now: Time): RouterStatus {
    status.(ready := status.ready && status.expiresAt.Some? && now < status.expiresAt.value)
  }

  /**
   * At every point of a history, between steps or inside one, a ready status has a child exactly when the actor was not
   * abandoned, and the lists of that child allow exactly what the published policy grants.
   */
  lemma ReadyMeansEnforced(setup: Setup, log: seq<Snapshot>, i: nat, q: Request)
    requires Legal(ChecksOf(setup), log) && i < |log| && log[i].status.ready
    ensures log[i].child.Some? <==> !log[i].event.Abandoned?
    ensures log[i].status.digest.Some?
    ensures log[i].child.Some? ==>
      var lists := log[i].child.value.config.document.accessControl;
      (Allows(lists, q) <==> q.protocol == "tls" && Granted(log[i].status.digest.value.of, q))
  {
    var checks := ChecksOf(setup);
    assert Sound(checks, log[i]);
    assert checks.Trusts(log[i].memory.value);
    var memory, published := log[i].memory.value.Policy(), log[i].status.digest.value.of;
    AclTheorems.AclMeansPolicy(memory, q);
    SameAuthoritySameGrants(memory, published, q);
  }

  /**
   * A report taken at any point of a history: whoever reads `ready` reads of a policy that has not expired and that a
   * child enforces, unless the actor was abandoned; and then no child is left.
   */
  lemma ReportIsTrue(setup: Setup, log: seq<Snapshot>, i: nat, now: Time, q: Request)
    requires Legal(ChecksOf(setup), log) && i < |log| && Reported(log[i].status, now).ready
    ensures log[i].status.digest.Some? && now < log[i].status.digest.value.of.expiresAt
    ensures log[i].child.None? <==> log[i].event.Abandoned?
    ensures log[i].child.Some? ==>
      var lists := log[i].child.value.config.document.accessControl;
      (Allows(lists, q) <==> q.protocol == "tls" && Granted(log[i].status.digest.value.of, q))
  {
    ReadyMeansEnforced(setup, log, i, q);
  }

  lemma SameAuthoritySameGrants(p: Policy, q: Policy, request: Request)
    requires HasSameAuthority(p, q)
    ensures Granted(p, request) == Granted(q, request)
  {
    assert Home(p, request.commonName) == Home(q, request.commonName);
  }

  /** Whatever is in memory and has not expired at `t` was issued less than five minutes before `t`. */
  lemma AuthorityIsRecent(setup: Setup, s: Snapshot, t: Time)
    requires Sound(ChecksOf(setup), s) && s.memory.Some? && t < s.memory.value.Policy().expiresAt
    ensures t < s.memory.value.Policy().issuedAt + FIVE_MINUTES
  {
    assert ChecksOf(setup).Trusts(s.memory.value);
  }
}
