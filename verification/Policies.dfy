/** Signed Router policies: their static limits, their authority, and the order of generations. */
module Policies {
  import opened Common
  import opened Text

  /** The errors of the Router crate, without their messages. */
  datatype RouterError =
    | InvalidPolicy
    | InvalidSignature
    | NotCurrent
    | GenerationConflict
    | NotReady
    | Unavailable
    | Io
    | Json

  /** Nanoseconds since the Unix epoch. */
  type Time = int

  const FIVE_MINUTES: int := 300_000_000_000
  const MAX_GENERATION: nat := 9_007_199_254_740_991
  const MAX_PEERS: nat := 64
  const MAX_AGENTS: nat := 10_000

  datatype AgentAdmission = AgentAdmission(commonName: string, namespace: string)

  datatype Policy = Policy(
    version: nat,
    fleetId: string,
    generation: nat,
    issuedAt: Time,
    notBefore: Time,
    expiresAt: Time,
    namespacePrefix: string,
    trustedPeers: seq<string>,
    agents: seq<AgentAdmission>)

  datatype SignedPolicy = SignedPolicy(policy: Policy, signature: string)

  /** SHA-256 of the canonical policy bytes, as a free constructor: distinct policies have distinct digests. */
  datatype Digest = Sha256(of: Policy)

  /** A signature check that the source leaves to its Ed25519 library. */
  datatype VerifyingKey = VerifyingKey(weak: bool, accepts: (Policy, string) -> bool)

  datatype VerifiedPolicy = VerifiedPolicy(signed: SignedPolicy) {
    function Policy(): Policy { signed.policy }

    function Digest(): Digest { Sha256(signed.policy) }

    predicate IsCurrent(now: Time) {
      signed.policy.notBefore <= now < signed.policy.expiresAt
    }
  }

  // ----- names -----

  predicate Alphanumeric(c: char) {
    '0' <= c <= '9' || 'a' <= c <= 'z' || 'A' <= c <= 'Z'
  }

  predicate LiteralName(value: string) {
    && 0 < |value| <= 128
    && forall i :: 0 <= i < |value| ==> Alphanumeric(value[i]) || value[i] in "-_."
  }

  predicate LiteralNamespace(value: string) {
    && |value| <= 256
    && forall i :: 0 <= i < |Split(value, '/')| ==>
         var segment := Split(value, '/')[i];
         segment != "" && segment != "." && segment != ".." && LiteralName(segment)
  }

  const AGENT_PREFIX := "agt_"

  predicate AgentName(value: string) {
    && AGENT_PREFIX <= value
    && |value| == 28
    && forall i :: 4 <= i < 28 ==> '0' <= value[i] <= '9' || 'a' <= value[i] <= 'f'
  }

  // ----- validation -----

  predicate Distinct<T(==)>(xs: seq<T>) {
    forall i, j :: 0 <= i < j < |xs| ==> xs[i] != xs[j]
  }

  function Names(agents: seq<AgentAdmission>): (names: seq<string>)
    ensures |names| == |agents|
    ensures forall i :: 0 <= i < |agents| ==> names[i] == agents[i].commonName
  {
    seq(|agents|, i requires 0 <= i < |agents| => agents[i].commonName)
  }

  predicate LegalTimes(p: Policy) {
    p.issuedAt <= p.notBefore < p.expiresAt <= p.issuedAt + FIVE_MINUTES
  }

  predicate LegalAgent(p: Policy, agent: AgentAdmission) {
    AgentName(agent.commonName) && agent.namespace == p.namespacePrefix + "/" + agent.commonName
  }

  predicate LegalPeer(peer: string) {
    LiteralName(peer) && !(AGENT_PREFIX <= peer)
  }

  predicate LegalSubjects(p: Policy) {
    && (forall i :: 0 <= i < |p.trustedPeers| ==> LegalPeer(p.trustedPeers[i]))
    && (forall i :: 0 <= i < |p.agents| ==> LegalAgent(p, p.agents[i]))
    && Distinct(p.trustedPeers + Names(p.agents))
  }

  /** The contract of a policy document: what docs/router_policy.md promises of each field. */
  predicate WellFormed(p: Policy) {
    && p.version == 1
    && 1 <= p.generation <= MAX_GENERATION
    && LiteralName(p.fleetId)
    && LegalTimes(p)
    && LiteralNamespace(p.namespacePrefix)
    && 1 <= |p.trustedPeers| <= MAX_PEERS
    && |p.agents| <= MAX_AGENTS
    && LegalSubjects(p)
  }

  /**
   * The loop the source runs first over the peers and then over the Agents: every item must be legal and
   * its name must be new to the set of names, which the loop extends.
   */
  method InsertAll<T>(items: seq<T>, legal: T -> bool, name: T -> string, seen: set<string>)
    returns (ok: bool, subjects: set<string>)
    ensures ok <==>
            && (forall i :: 0 <= i < |items| ==> legal(items[i]) && name(items[i]) !in seen)
            && (forall i, j :: 0 <= i < j < |items| ==> name(items[i]) != name(items[j]))
    ensures ok ==> subjects == seen + set i | 0 <= i < |items| :: name(items[i])
  {
    subjects := seen;
    for i := 0 to |items|
      invariant subjects == seen + set j | 0 <= j < i :: name(items[j])
      invariant forall j :: 0 <= j < i ==> legal(items[j]) && name(items[j]) !in seen
      invariant forall j, k :: 0 <= j < k < i ==> name(items[j]) != name(items[k])
    {
      if !legal(items[i]) || name(items[i]) in subjects {
        return false, subjects;
      }
      subjects := subjects + {name(items[i])};
    }
    return true, subjects;
  }

  lemma DistinctGlue<T>(xs: seq<T>, ys: seq<T>)
    ensures Distinct(xs + ys) <==>
            && Distinct(xs)
            && Distinct(ys)
            && forall i, j :: 0 <= i < |xs| && 0 <= j < |ys| ==> xs[i] != ys[j]
  {
    var zs := xs + ys;
    assert forall i :: 0 <= i < |xs| ==> zs[i] == xs[i];
    assert forall j :: 0 <= j < |ys| ==> zs[|xs| + j] == ys[j];
  }

  method ValidateSubjects(p: Policy) returns (valid: bool)
    ensures valid <==> LegalSubjects(p)
  {
    var subjects;
    valid, subjects := InsertAll(p.trustedPeers, LegalPeer, (peer: string) => peer, {});
    ghost var peers, names := p.trustedPeers, Names(p.agents);
    DistinctGlue(peers, names);
    if valid {
      valid, subjects :=
        InsertAll(p.agents, (a: AgentAdmission) => LegalAgent(p, a), (a: AgentAdmission) => a.commonName, subjects);
      assert valid <==>
             && (forall j :: 0 <= j < |names| ==> LegalAgent(p, p.agents[j]) && names[j] !in peers)
             && Distinct(names);
    }
  }

  method Validate(p: Policy) returns (valid: bool)
    ensures valid <==> WellFormed(p)
  {
    if p.version != 1 || !(1 <= p.generation <= MAX_GENERATION) || !LiteralName(p.fleetId) {
      return false;
    }
    var lifetime := p.expiresAt - p.issuedAt;
    if p.issuedAt > p.notBefore || p.notBefore >= p.expiresAt || lifetime <= 0 || lifetime > FIVE_MINUTES {
      return false;
    }
    if !LiteralNamespace(p.namespacePrefix) {
      return false;
    }
    if p.trustedPeers == [] || |p.trustedPeers| > MAX_PEERS || |p.agents| > MAX_AGENTS {
      return false;
    }
    valid := ValidateSubjects(p);
  }

  /** What a successful verification establishes about a policy. */
  predicate Verified(v: VerifiedPolicy, key: VerifyingKey, fleetId: string) {
    && WellFormed(v.Policy())
    && !key.weak
    && v.Policy().fleetId == fleetId
    && key.accepts(v.Policy(), v.signed.signature)
  }

  /** Why a signed policy is refused, if it is. */
  function Rejection(signed: SignedPolicy, key: VerifyingKey, fleetId: string): (r: Option<RouterError>)
    ensures r.None? <==> Verified(VerifiedPolicy(signed), key, fleetId)
  {
    if !WellFormed(signed.policy) then Some(InvalidPolicy)
    else if Verified(VerifiedPolicy(signed), key, fleetId) then None
    else Some(InvalidSignature)
  }

  method Verify(signed: SignedPolicy, key: VerifyingKey, fleetId: string)
    returns (r: Result<VerifiedPolicy, RouterError>)
    ensures r == match Rejection(signed, key, fleetId)
                 case None => Ok(VerifiedPolicy(signed))
                 case Some(error) => Err(error)
  {
    var valid := Validate(signed.policy);
    if !valid {
      return Err(InvalidPolicy);
    }
    if key.weak || signed.policy.fleetId != fleetId {
      return Err(InvalidSignature);
    }
    if !key.accepts(signed.policy, signed.signature) {
      return Err(InvalidSignature);
    }
    return Ok(VerifiedPolicy(signed));
  }

  // ----- generations -----

  function RequireCurrent(v: VerifiedPolicy, now: Time): (r: Result<(), RouterError>)
    ensures r.Ok? <==> v.IsCurrent(now)
  {
    if v.Policy().notBefore > now || v.Policy().expiresAt <= now then Err(NotCurrent) else Ok(())
  }

  /** Whether `v` raises the generation of `previous`; an error when it neither raises nor repeats it. */
  function Advances(v: VerifiedPolicy, previous: VerifiedPolicy): (r: Result<bool, RouterError>)
    ensures r.Ok? <==> NoOlder(previous.Policy(), v.Policy())
    ensures r.Ok? ==> (r.value <==> previous.Policy().generation < v.Policy().generation)
    ensures r.Ok? && !r.value ==> v.Policy() == previous.Policy()
    ensures r.Err? ==> r.error == GenerationConflict
  {
    if v.Policy().generation > previous.Policy().generation then Ok(true)
    else if v.Policy().generation == previous.Policy().generation && v.Digest() == previous.Digest() then Ok(false)
    else Err(GenerationConflict)
  }

  /** The rollback order: a later policy has a higher generation, or the same generation and the same digest. */
  predicate NoOlder(earlier: Policy, later: Policy) {
    || earlier.generation < later.generation
    || (earlier.generation == later.generation && Sha256(earlier) == Sha256(later))
  }

  /** The fields that decide who may do what. */
  predicate HasSameAuthority(p: Policy, q: Policy) {
    && p.version == q.version
    && p.fleetId == q.fleetId
    && p.namespacePrefix == q.namespacePrefix
    && p.trustedPeers == q.trustedPeers
    && p.agents == q.agents
  }
}
