/** The main results about the generated access control lists. */
module AclTheorems {
  import opened Policies
  import opened KeyExpressions
  import opened Acl
  import opened AclMeaning

  lemma NameBelongsToAgent(p: Policy, name: string) returns (a: AgentAdmission)
    requires name in Names(p.agents)
    ensures a in p.agents && a.commonName == name
  {
    var i :| 0 <= i < |p.agents| && Names(p.agents)[i] == name;
    a := p.agents[i];
  }

  lemma AgentMatchedMeaning(p: Policy, q: Request)
    requires WellFormed(p)
    ensures AgentMatched(p, DEFINITIONS, q) <==>
            q.commonName in Names(p.agents) && AgentRulesGrant(p, q.commonName, q.message, q.flow, q.key)
  {
    var home := Home(p, q.commonName);
    if AgentMatched(p, DEFINITIONS, q) {
      var a, d :| a in p.agents && d in DEFINITIONS && a.commonName == q.commonName && RuleMatches(AgentRule(a, d), q);
      LegalAgents(p, a);
      DefinitionsAreClean(d);
      AgentRuleMeaning(p, a, d, q);
      MatchesMeanTable(d, q.message, q.flow, Chunks(q.key)[|home|..]);
    }
    if q.commonName in Names(p.agents) && AgentRulesGrant(p, q.commonName, q.message, q.flow, q.key) {
      var a := NameBelongsToAgent(p, q.commonName);
      var d := TableIsMatched(q.message, q.flow, Chunks(q.key)[|home|..]);
      DefinitionsAreClean(d);
      AgentRuleMeaning(p, a, d, q);
    }
  }

  /** The generated lists allow exactly what the policy grants, over TLS only. */
  lemma AclMeansPolicy(p: Policy, q: Request)
    requires WellFormed(p)
    ensures Allows(AccessControlOf(p), q) <==> q.protocol == "tls" && Granted(p, q)
  {
    ListsAllow(p, DEFINITIONS, q);
    TrustedRuleMeaning(p, q);
    AgentMatchedMeaning(p, q);
  }

  /** Nobody is both a trusted peer and an Agent. */
  lemma PeersAreNotAgents(p: Policy, name: string)
    requires WellFormed(p) && name in Names(p.agents)
    ensures name !in p.trustedPeers
  {
    var a := NameBelongsToAgent(p, name);
    LegalAgents(p, a);
    forall i | 0 <= i < |p.trustedPeers|
      ensures p.trustedPeers[i] != name
    {
      assert LegalPeer(p.trustedPeers[i]);
    }
  }

  /** The permissions of two distinct Agents share no key, whatever the messages and flows. */
  lemma AgentIsolation(p: Policy, i: nat, j: nat, a: Request, b: Request)
    requires WellFormed(p) && i < |p.agents| && j < |p.agents| && i != j
    requires a.commonName == p.agents[i].commonName && b.commonName == p.agents[j].commonName
    requires Allows(AccessControlOf(p), a) && Allows(AccessControlOf(p), b)
    ensures a.key != b.key
  {
    AclMeansPolicy(p, a);
    AclMeansPolicy(p, b);
    var names := Names(p.agents);
    assert names[i] == a.commonName && names[j] == b.commonName;
    PeersAreNotAgents(p, a.commonName);
    PeersAreNotAgents(p, b.commonName);
    DistinctGlue(p.trustedPeers, names);
    assert a.commonName != b.commonName;
    var n := |Chunks(p.namespacePrefix)|;
    assert Home(p, a.commonName)[n] == a.commonName && Home(p, b.commonName)[n] == b.commonName;
  }

  /** A request for a wild key expression is allowed only if every key it covers is allowed. */
  lemma WildRequestStaysInside(p: Policy, q: Request, key: string)
    requires WellFormed(p) && Allows(AccessControlOf(p), q)
    requires Includes(Chunks(q.key), Chunks(key))
    ensures Allows(AccessControlOf(p), q.(key := key))
  {
    var narrow := q.(key := key);
    ListsAllow(p, DEFINITIONS, q);
    ListsAllow(p, DEFINITIONS, narrow);
    if AgentMatched(p, DEFINITIONS, q) {
      var a, d :| a in p.agents && d in DEFINITIONS && a.commonName == q.commonName && RuleMatches(AgentRule(a, d), q);
      RuleNarrows(AgentRule(a, d), q, key);
    } else {
      RuleNarrows(TrustedRule(p), q, key);
    }
  }

  lemma RuleNarrows(r: Rule, q: Request, key: string)
    requires RuleMatches(r, q) && Includes(Chunks(q.key), Chunks(key))
    ensures RuleMatches(r, q.(key := key))
  {
    var k :| k in r.keyExprs && Includes(Chunks(k), Chunks(q.key));
    IncludesTransitive(Chunks(k), Chunks(q.key), Chunks(key));
  }

  /** So no key at all is reachable by two distinct Agents, even through wild requests. */
  lemma WildIsolation(p: Policy, i: nat, j: nat, a: Request, b: Request, key: string)
    requires WellFormed(p) && i < |p.agents| && j < |p.agents| && i != j
    requires a.commonName == p.agents[i].commonName && b.commonName == p.agents[j].commonName
    requires Allows(AccessControlOf(p), a) && Allows(AccessControlOf(p), b)
    ensures !(Includes(Chunks(a.key), Chunks(key)) && Includes(Chunks(b.key), Chunks(key)))
  {
    if Includes(Chunks(a.key), Chunks(key)) && Includes(Chunks(b.key), Chunks(key)) {
      WildRequestStaysInside(p, a, key);
      WildRequestStaysInside(p, b, key);
      AgentIsolation(p, i, j, a.(key := key), b.(key := key));
    }
  }

  // ----- ids -----

  lemma AgentOfName(p: Policy, a: AgentAdmission, b: AgentAdmission)
    requires WellFormed(p) && a in p.agents && b in p.agents && a.commonName == b.commonName
    ensures a == b
  {
    LegalAgents(p, a);
    LegalAgents(p, b);
  }

  lemma SuffixOfDefinition(c: Definition, d: Definition)
    requires c in DEFINITIONS && d in DEFINITIONS && c.suffix == d.suffix
    ensures c == d
  {
  }

  /** Every id stands for one rule, so references by id are unambiguous. */
  lemma RuleIdsAreUnique(p: Policy, r: Rule, s: Rule)
    requires WellFormed(p) && r in AccessControlOf(p).rules && s in AccessControlOf(p).rules && r.id == s.id
    ensures r == s
  {
    AgentRuleOrigin(p.agents, DEFINITIONS, r);
    AgentRuleOrigin(p.agents, DEFINITIONS, s);
    if r != TrustedRule(p) {
      var a, c :| a in p.agents && c in DEFINITIONS && r == AgentRule(a, c);
      RuleIdHead(p, a, c);
      assert s != TrustedRule(p);
      var b, d :| b in p.agents && d in DEFINITIONS && s == AgentRule(b, d);
      LegalAgents(p, a);
      LegalAgents(p, b);
      RuleIdInjective(a.commonName, c.suffix, b.commonName, d.suffix);
      AgentOfName(p, a, b);
      SuffixOfDefinition(c, d);
    } else if s != TrustedRule(p) {
      var b, d :| b in p.agents && d in DEFINITIONS && s == AgentRule(b, d);
      RuleIdHead(p, b, d);
      assert false;
    }
  }

  lemma SubjectIdsAreUnique(p: Policy, s: Subject, t: Subject)
    requires WellFormed(p) && s in AccessControlOf(p).subjects && t in AccessControlOf(p).subjects && s.id == t.id
    ensures s == t
  {
    SubjectOrigin(p, s);
    SubjectOrigin(p, t);
    forall a | a in p.agents
      ensures a.commonName != "" && a.commonName[0] == 'a'
    {
      LegalAgents(p, a);
    }
  }

  // ----- authority -----

  lemma KeyDeterminesPrefix(a: string, b: string)
    requires a + "/" + "**" == b + "/" + "**"
    ensures a == b
  {
    assert (a + "/" + "**")[..|a|] == a;
    assert (b + "/" + "**")[..|b|] == b;
    assert |a| == |b|;
  }

  /** For policies of one fleet, having the same authority is having the same generated lists. */
  lemma SameAuthorityIffSameLists(p: Policy, q: Policy)
    requires WellFormed(p) && WellFormed(q) && p.fleetId == q.fleetId
    ensures HasSameAuthority(p, q) <==> AccessControlOf(p) == AccessControlOf(q)
  {
    var x, y := AccessControlOf(p), AccessControlOf(q);
    if x == y {
      assert x.rules[0] == TrustedRule(p) && y.rules[0] == TrustedRule(q);
      assert TrustedRule(p).keyExprs[0] == TrustedRule(q).keyExprs[0];
      KeyDeterminesPrefix(p.namespacePrefix, q.namespacePrefix);
      assert x.subjects[0].certCommonNames == y.subjects[0].certCommonNames;
      assert |x.subjects| == |y.subjects|;
      forall i | 0 <= i < |p.agents|
        ensures p.agents[i] == q.agents[i]
      {
        assert x.subjects[i + 1] == AgentSubject(p.agents[i]) && y.subjects[i + 1] == AgentSubject(q.agents[i]);
        LegalAgents(p, p.agents[i]);
        LegalAgents(q, q.agents[i]);
      }
    }
  }
}
