/** A policy that the Supervisor would store and could not read back: it is well formed and over the size limit. */
module Oversized {
  import opened Decimal
  import opened Policies
  import opened Text
  import Supervisor

  function Letters(n: nat): (s: string)
    ensures |s| == n && forall i :: 0 <= i < n ==> s[i] == 'a'
  {
    seq(n, i => 'a')
  }

  /** Twenty-four decimal digits are twenty-four hexadecimal digits. */
  function NumberedName(i: nat, width: nat): string {
    AGENT_PREFIX + Padded(i, width)
  }

  function Admissions(prefix: string, n: nat, width: nat): (agents: seq<AgentAdmission>)
    ensures |agents| == n
    ensures forall i :: 0 <= i < n ==>
      agents[i] == AgentAdmission(NumberedName(i, width), prefix + "/" + NumberedName(i, width))
  {
    seq(n, i requires 0 <= i < n => AgentAdmission(NumberedName(i, width), prefix + "/" + NumberedName(i, width)))
  }

  /** A part of what the stored document spells out. */
  function NamespaceLength(agents: seq<AgentAdmission>): nat {
    if agents == [] then 0 else |agents[0].namespace| + NamespaceLength(agents[1..])
  }

  lemma {:induction false} NamespacesAdd(agents: seq<AgentAdmission>, length: nat)
    requires forall i :: 0 <= i < |agents| ==> |agents[i].namespace| == length
    ensures NamespaceLength(agents) == |agents| * length
    decreases |agents|
  {
    if agents != [] {
      NamespacesAdd(agents[1..], length);
    }
  }

  lemma {:induction false} PaddedDigits(n: nat, width: nat)
    ensures Digits(Padded(n, width))
    decreases width
  {
    if width > 0 {
      PaddedDigits(n / 10, width - 1);
    }
  }

  lemma {:induction false} TenIsLarge(width: nat)
    requires width >= 5
    ensures Ten(width) >= 100000
    decreases width
  {
    if width == 5 {
      assert Ten(2) == 100;
    } else {
      TenIsLarge(width - 1);
    }
  }

  lemma NumberedIsAgent(i: nat, width: nat)
    requires width == 24
    ensures AgentName(NumberedName(i, width))
  {
    PaddedDigits(i, width);
  }

  lemma NumberedDistinct(i: nat, j: nat, width: nat)
    requires i < j < 100000 && width >= 5
    ensures NumberedName(i, width) != NumberedName(j, width)
  {
    TenIsLarge(width);
    if NumberedName(i, width) == NumberedName(j, width) {
      assert Padded(i, width) == NumberedName(i, width)[4..] == Padded(j, width);
      PaddedInjective(i, j, width);
    }
  }

  predicate Segment(s: string) {
    LiteralName(s) && Alphanumeric(s[0]) && '/' !in s
  }

  lemma LettersAreSegment(n: nat)
    requires 0 < n <= 128
    ensures Segment(Letters(n))
  {
  }

  lemma TwoSegments(a: string, b: string)
    requires Segment(a) && Segment(b) && |a| + |b| < 256
    ensures LiteralNamespace(a + "/" + b)
  {
    SplitHead(a, b, '/');
    SplitWhole(b, '/');
    assert Split(a + "/" + b, '/') == [a, b];
  }

  /** Every Agent that a policy may admit, under one prefix. */
  function LargestPolicy(fleetId: string, issuedAt: Time, prefix: string, width: nat): Policy {
    var agents := Admissions(prefix, MAX_AGENTS, width);
    Policy(1, fleetId, 1, issuedAt, issuedAt, issuedAt + FIVE_MINUTES, prefix, [PEER], agents)
  }

  const PEER := "peer"

  lemma PeerIsLegal()
    ensures LegalPeer(PEER)
  {
    assert PEER[0] != AGENT_PREFIX[0];
  }

  lemma LargestSubjects(p: Policy, width: nat)
    requires width == 24 && p.trustedPeers == [PEER] && p.agents == Admissions(p.namespacePrefix, MAX_AGENTS, width)
    ensures LegalSubjects(p)
  {
    var names := Names(p.agents);
    PeerIsLegal();
    forall i | 0 <= i < |p.agents|
      ensures LegalAgent(p, p.agents[i])
    {
      NumberedIsAgent(i, width);
    }
    forall i, j | 0 <= i < j < |names|
      ensures names[i] != names[j]
    {
      NumberedDistinct(i, j, width);
    }
    forall i | 0 <= i < |names|
      ensures names[i] != PEER
    {
      NumberedIsAgent(i, width);
      assert |names[i]| == 28;
    }
    DistinctGlue(p.trustedPeers, names);
  }

  /**
   * Whatever a stored policy file spells out besides its namespaces, some well-formed policy of every fleet has a file
   * over the limit of the reader.
   */
  lemma OversizedPolicyExists(fleetId: string, issuedAt: Time, size: SignedPolicy -> nat) returns (p: Policy)
    requires LiteralName(fleetId)
    requires forall s :: size(s) >= NamespaceLength(s.policy.agents)
    ensures WellFormed(p) && p.fleetId == fleetId
    ensures forall signature :: size(SignedPolicy(p, signature)) > Supervisor.MAX_POLICY_BYTES
  {
    var width, long, short := 24, 128, 127;
    var prefix := Letters(long) + "/" + Letters(short);
    p := LargestPolicy(fleetId, issuedAt, prefix, width);
    LettersAreSegment(long);
    LettersAreSegment(short);
    TwoSegments(Letters(long), Letters(short));
    LargestSubjects(p, width);
    forall i | 0 <= i < |p.agents|
      ensures |p.agents[i].namespace| == 285
    {
      NumberedIsAgent(i, width);
    }
    NamespacesAdd(p.agents, 285);
  }
}
