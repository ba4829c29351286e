/** The generated lists mean the policy, keep Agents apart, and determine the authority they came from. */
module AclMeaning {
  import opened Text
  import opened Policies
  import opened KeyExpressions
  import opened Acl

  // ----- names and ids -----

  lemma LiteralNameChunk(name: string)
    requires LiteralName(name)
    ensures Chunks(name) == [name] && !Wild(name)
  {
    assert '/' !in name;
    SplitWhole(name, '/');
    assert Alphanumeric(name[0]) || name[0] in "-_.";
  }

  lemma AgentNameIsLiteral(name: string)
    requires AgentName(name)
    ensures LiteralName(name)
    ensures name[0] == 'a'
  {
    assert name[..4] == AGENT_PREFIX;
    forall i | 0 <= i < |name|
      ensures Alphanumeric(name[i]) || name[i] in "-_."
    {
      if i < 4 {
        assert name[i] == AGENT_PREFIX[i];
      }
    }
    assert name[0] == AGENT_PREFIX[0];
  }

  lemma PrefixIsLiteral(p: Policy)
    requires WellFormed(p)
    ensures Literal(Chunks(p.namespacePrefix))
  {
    forall i | 0 <= i < |Chunks(p.namespacePrefix)|
      ensures !Wild(Chunks(p.namespacePrefix)[i])
    {
      LiteralNameChunk(Split(p.namespacePrefix, '/')[i]);
    }
  }

  /** Agent names have one length, so a rule id determines the name and the suffix it was made of. */
  lemma RuleIdInjective(m: string, s: string, n: string, t: string)
    requires AgentName(m) && AgentName(n) && RuleId(m, s) == RuleId(n, t)
    ensures m == n && s == t
  {
    assert RuleId(m, s)[..28] == m && RuleId(m, s)[29..] == s;
    assert RuleId(n, t)[..28] == n && RuleId(n, t)[29..] == t;
  }

  // ----- resolving ids -----

  lemma {:induction false} AgentRuleOrigin(agents: seq<AgentAdmission>, definitions: seq<Definition>, r: Rule)
    ensures r in AllAgentRules(agents, definitions) <==>
            exists a, d :: a in agents && d in definitions && r == AgentRule(a, d)
    decreases |agents|
  {
    if agents != [] {
      var init, last := agents[..|agents| - 1], agents[|agents| - 1];
      AgentRuleOrigin(init, definitions, r);
      assert agents == init + [last];
      if r in AgentRules(last, definitions) {
        var i :| 0 <= i < |definitions| && AgentRules(last, definitions)[i] == r;
        assert definitions[i] in definitions && r == AgentRule(last, definitions[i]);
      }
      if d :| d in definitions && r == AgentRule(last, d) {
        var i :| 0 <= i < |definitions| && definitions[i] == d;
        assert AgentRules(last, definitions)[i] == r;
      }
    }
  }

  /** Some rule of the Agent named by the request matches it. */
  ghost predicate AgentMatched(p: Policy, definitions: seq<Definition>, q: Request) {
    exists a, d :: a in p.agents && d in definitions && a.commonName == q.commonName && RuleMatches(AgentRule(a, d), q)
  }

  lemma LegalAgents(p: Policy, a: AgentAdmission)
    requires WellFormed(p) && a in p.agents
    ensures LegalAgent(p, a) && a.commonName in Names(p.agents)
    ensures LiteralName(a.commonName) && a.commonName[0] == 'a'
  {
    var i :| 0 <= i < |p.agents| && p.agents[i] == a;
    assert Names(p.agents)[i] == a.commonName;
    AgentNameIsLiteral(a.commonName);
  }

  lemma RuleIdHead(p: Policy, a: AgentAdmission, d: Definition)
    requires WellFormed(p) && a in p.agents
    ensures AgentRule(a, d).id != "" && AgentRule(a, d).id[0] == 'a'
  {
    LegalAgents(p, a);
  }

  lemma SubjectOrigin(p: Policy, s: Subject)
    requires WellFormed(p) && s in [TrustedSubject(p)] + AgentSubjects(p.agents)
    ensures s == TrustedSubject(p) || exists a :: a in p.agents && s == AgentSubject(a)
  {
    if s != TrustedSubject(p) {
      var i :| 0 <= i < |p.agents| && AgentSubjects(p.agents)[i] == s;
      assert p.agents[i] in p.agents;
    }
  }

  /** What an applicable binding of the generated lists comes from. */
  lemma MatchedComesFromPolicy(p: Policy, definitions: seq<Definition>, q: Request, b: Binding, s: Subject, r: Rule)
    requires WellFormed(p)
    requires
      var acl := Lists(p, definitions);
      b in acl.policies && s in acl.subjects && r in acl.rules && Applies(b, s, r, q)
    ensures q.protocol == "tls"
    ensures (q.commonName in p.trustedPeers && RuleMatches(TrustedRule(p), q)) || AgentMatched(p, definitions, q)
    ensures r.permission == Allow
  {
    SubjectOrigin(p, s);
    AgentRuleOrigin(p.agents, definitions, r);
    if b == TRUSTED_BINDING {
      assert s.id == TRUSTED_SUBJECT && r.id == TRUSTED_RULE;
      if s != TrustedSubject(p) {
        var a :| a in p.agents && s == AgentSubject(a);
        LegalAgents(p, a);
        assert false;
      }
      if r != TrustedRule(p) {
        var a, d :| a in p.agents && d in definitions && r == AgentRule(a, d);
        RuleIdHead(p, a, d);
        assert false;
      }
    } else {
      var i :| 0 <= i < |p.agents| && b == AgentBindings(p.agents, definitions)[i];
      AgentBindingMatched(p, definitions, q, i, s, r);
    }
  }

  lemma AgentBindingMatched(p: Policy, definitions: seq<Definition>, q: Request, i: nat, s: Subject, r: Rule)
    requires WellFormed(p) && i < |p.agents|
    requires s == TrustedSubject(p) || exists a :: a in p.agents && s == AgentSubject(a)
    requires r == TrustedRule(p) || exists a, d :: a in p.agents && d in definitions && r == AgentRule(a, d)
    requires Applies(AgentBinding(p.agents[i], definitions), s, r, q)
    ensures q.protocol == "tls" && AgentMatched(p, definitions, q) && r.permission == Allow
  {
    var owner := p.agents[i];
    LegalAgents(p, owner);
    assert s.id == owner.commonName;
    assert s != TrustedSubject(p);
    var ids := RuleIds(owner.commonName, definitions);
    var k :| 0 <= k < |ids| && ids[k] == r.id;
    assert r.id[0] == owner.commonName[0];
    assert r != TrustedRule(p);
    var a, d :| a in p.agents && d in definitions && r == AgentRule(a, d);
    LegalAgents(p, a);
    RuleIdInjective(a.commonName, d.suffix, owner.commonName, definitions[k].suffix);
  }

  /** The other direction: what the policy grants, some binding of the generated lists allows. */
  lemma PeerIsMatched(p: Policy, definitions: seq<Definition>, q: Request)
    requires q.protocol == "tls" && q.commonName in p.trustedPeers && RuleMatches(TrustedRule(p), q)
    ensures Matched(Lists(p, definitions), Allow, q)
  {
    var acl := Lists(p, definitions);
    assert acl.policies[0] == TRUSTED_BINDING && acl.subjects[0] == TrustedSubject(p) && acl.rules[0] == TrustedRule(p);
    assert Applies(TRUSTED_BINDING, TrustedSubject(p), TrustedRule(p), q);
  }

  lemma AgentApplies(definitions: seq<Definition>, q: Request, a: AgentAdmission, d: Definition)
    requires q.protocol == "tls" && a.commonName == q.commonName && d in definitions && RuleMatches(AgentRule(a, d), q)
    ensures Applies(AgentBinding(a, definitions), AgentSubject(a), AgentRule(a, d), q)
  {
    var k :| 0 <= k < |definitions| && definitions[k] == d;
    assert RuleIds(a.commonName, definitions)[k] == AgentRule(a, d).id;
  }

  lemma AgentListed(p: Policy, definitions: seq<Definition>, a: AgentAdmission, d: Definition)
    requires a in p.agents && d in definitions
    ensures AgentBinding(a, definitions) in Lists(p, definitions).policies
    ensures AgentSubject(a) in Lists(p, definitions).subjects
    ensures AgentRule(a, d) in Lists(p, definitions).rules
  {
    var i :| 0 <= i < |p.agents| && p.agents[i] == a;
    assert Lists(p, definitions).policies[i + 1] == AgentBinding(a, definitions);
    assert Lists(p, definitions).subjects[i + 1] == AgentSubject(a);
    AgentRuleOrigin(p.agents, definitions, AgentRule(a, d));
  }

  lemma MatchedBy(acl: AccessControl, q: Request, b: Binding, s: Subject, r: Rule)
    requires b in acl.policies && s in acl.subjects && r in acl.rules && r.permission == Allow && Applies(b, s, r, q)
    ensures Matched(acl, Allow, q)
  {
  }

  lemma AgentIsMatched(p: Policy, definitions: seq<Definition>, q: Request)
    requires q.protocol == "tls" && AgentMatched(p, definitions, q)
    ensures Matched(Lists(p, definitions), Allow, q)
  {
    var a, d :| a in p.agents && d in definitions && a.commonName == q.commonName && RuleMatches(AgentRule(a, d), q);
    AgentListed(p, definitions, a, d);
    AgentApplies(definitions, q, a, d);
    MatchedBy(Lists(p, definitions), q, AgentBinding(a, definitions), AgentSubject(a), AgentRule(a, d));
  }

  lemma ListsAllow(p: Policy, definitions: seq<Definition>, q: Request)
    requires WellFormed(p)
    ensures Allows(Lists(p, definitions), q) <==>
            && q.protocol == "tls"
            && ((q.commonName in p.trustedPeers && RuleMatches(TrustedRule(p), q)) || AgentMatched(p, definitions, q))
  {
    var acl := Lists(p, definitions);
    forall b, s, r | b in acl.policies && s in acl.subjects && r in acl.rules && Applies(b, s, r, q)
      ensures q.protocol == "tls" && r.permission == Allow
      ensures (q.commonName in p.trustedPeers && RuleMatches(TrustedRule(p), q)) || AgentMatched(p, definitions, q)
    {
      MatchedComesFromPolicy(p, definitions, q, b, s, r);
    }
    if q.protocol == "tls"
       && ((q.commonName in p.trustedPeers && RuleMatches(TrustedRule(p), q)) || AgentMatched(p, definitions, q))
    {
      if AgentMatched(p, definitions, q) {
        AgentIsMatched(p, definitions, q);
      } else {
        PeerIsMatched(p, definitions, q);
      }
    }
  }

  // ----- keys -----

  lemma EveryMessage(m: Message)
    ensures m in [Put, Delete, DeclareSubscriber, Query, Reply, DeclareQueryable, LivelinessToken, LivelinessQuery,
                  DeclareLivelinessSubscriber]
  {
    match m case _ =>
  }

  lemma EveryFlow(f: Flow)
    ensures f in [Ingress, Egress]
  {
    match f case _ =>
  }

  lemma TrustedRuleMeaning(p: Policy, q: Request)
    requires WellFormed(p)
    ensures RuleMatches(TrustedRule(p), q) <==> Chunks(p.namespacePrefix) <= Chunks(q.key)
  {
    var k := p.namespacePrefix + "/" + "**";
    SplitGlue(p.namespacePrefix, "**", '/');
    SplitWhole("**", '/');
    PrefixIsLiteral(p);
    IncludesBelow(Chunks(p.namespacePrefix), Chunks(q.key));
    assert TrustedRule(p).keyExprs == [k];
    assert Chunks(k) == Chunks(p.namespacePrefix) + ["**"];
    EveryMessage(q.message);
    EveryFlow(q.flow);
    assert TrustedRule(p).flows == [Ingress, Egress];
    if Includes(Chunks(k), Chunks(q.key)) {
      assert k in TrustedRule(p).keyExprs;
    }
  }

  ghost predicate PathMatches(d: Definition, path: seq<string>) {
    exists k :: k in d.paths && Includes(k, path)
  }

  ghost predicate DefinitionMatches(d: Definition, message: Message, flow: Flow, path: seq<string>) {
    message in d.messages && flow in d.flows && PathMatches(d, path)
  }

  predicate Clean(path: Path) {
    forall i :: 0 <= i < |path| ==> '/' !in path[i]
  }

  lemma AgentKeyMeaning(p: Policy, a: AgentAdmission, path: Path, key: string)
    requires WellFormed(p) && a in p.agents && Clean(path)
    ensures
      var home := Home(p, a.commonName);
      Includes(Chunks(a.namespace + "/" + Join(path, '/')), Chunks(key)) <==>
      home <= Chunks(key) && Includes(path, Chunks(key)[|home|..])
  {
    LegalAgents(p, a);
    LiteralNameChunk(a.commonName);
    PrefixIsLiteral(p);
    SplitGlue(p.namespacePrefix, a.commonName, '/');
    SplitGlue(a.namespace, Join(path, '/'), '/');
    SplitOfJoin(path, '/');
    IncludesLiteralHead(Home(p, a.commonName), path, Chunks(key));
  }

  predicate CleanDefinition(d: Definition) {
    forall i :: 0 <= i < |d.paths| ==> Clean(d.paths[i])
  }

  lemma AgentRuleMeaning(p: Policy, a: AgentAdmission, d: Definition, q: Request)
    requires WellFormed(p) && a in p.agents && CleanDefinition(d)
    ensures
      var home := Home(p, a.commonName);
      RuleMatches(AgentRule(a, d), q) <==>
      home <= Chunks(q.key) && DefinitionMatches(d, q.message, q.flow, Chunks(q.key)[|home|..])
  {
    var home := Home(p, a.commonName);
    var keys := Below(a.namespace, d.paths);
    if RuleMatches(AgentRule(a, d), q) {
      var k :| k in keys && Includes(Chunks(k), Chunks(q.key));
      var i :| 0 <= i < |keys| && keys[i] == k;
      AgentKeyMeaning(p, a, d.paths[i], q.key);
      assert d.paths[i] in d.paths;
    }
    if home <= Chunks(q.key) && DefinitionMatches(d, q.message, q.flow, Chunks(q.key)[|home|..]) {
      var path :| path in d.paths && Includes(path, Chunks(q.key)[|home|..]);
      var i :| 0 <= i < |d.paths| && d.paths[i] == path;
      AgentKeyMeaning(p, a, path, q.key);
      assert keys[i] in keys;
    }
  }

  // ----- the six definitions -----

  lemma DefinitionsAreClean(d: Definition)
    requires d in DEFINITIONS
    ensures CleanDefinition(d)
  {
    assert Clean(PRESENCE) && Clean(STATUS) && Clean(LIVE) && Clean(HISTORY) && Clean(COMMIT);
    assert Clean(RESULTS) && Clean(EVENTS) && Clean(ERRORS);
  }

  lemma PublicationPaths(path: seq<string>)
    ensures PathMatches(PUBLICATIONS, path) <==>
            || path == PRESENCE
            || path == STATUS
            || (|path| == 2 && path[0] in ["results", "events", "errors"] && path[1] != "**")
  {
    IncludesExactly(PRESENCE, path);
    IncludesExactly(STATUS, path);
    IncludesOneMore(["results"], path);
    IncludesOneMore(["events"], path);
    IncludesOneMore(["errors"], path);
    assert RESULTS == ["results"] + ["*"] && EVENTS == ["events"] + ["*"] && ERRORS == ["errors"] + ["*"];
    var paths := PUBLICATIONS.paths;
    assert paths[0] in paths && paths[1] in paths && paths[2] in paths && paths[3] in paths && paths[4] in paths;
  }

  lemma LivePaths(d: Definition, path: seq<string>)
    requires d.paths == [LIVE]
    ensures PathMatches(d, path) <==> ["commands", "live"] <= path
  {
    IncludesBelow(["commands", "live"], path);
    assert LIVE == ["commands", "live"] + ["**"];
    assert d.paths[0] in d.paths;
  }

  lemma CommitPaths(d: Definition, path: seq<string>)
    requires d.paths == [HISTORY, COMMIT]
    ensures PathMatches(d, path) <==> path == HISTORY || path == COMMIT
  {
    IncludesExactly(HISTORY, path);
    IncludesExactly(COMMIT, path);
    assert d.paths[0] in d.paths && d.paths[1] in d.paths;
  }

  lemma PresencePaths(path: seq<string>)
    ensures PathMatches(PRESENCES, path) <==> path == PRESENCE
  {
    IncludesExactly(PRESENCE, path);
    assert PRESENCES.paths[0] in PRESENCES.paths;
  }

  lemma IngressTable(message: Message, path: seq<string>)
    ensures AgentMay(message, Ingress, path) <==>
            || DefinitionMatches(PUBLICATIONS, message, Ingress, path)
            || DefinitionMatches(PRESENCES, message, Ingress, path)
            || DefinitionMatches(SUBSCRIPTIONS, message, Ingress, path)
            || DefinitionMatches(QUERIES, message, Ingress, path)
  {
    PublicationPaths(path);
    PresencePaths(path);
    LivePaths(SUBSCRIPTIONS, path);
    CommitPaths(QUERIES, path);
  }

  lemma EgressTable(message: Message, path: seq<string>)
    ensures AgentMay(message, Egress, path) <==>
            || DefinitionMatches(DELIVERIES, message, Egress, path)
            || DefinitionMatches(REPLIES, message, Egress, path)
  {
    LivePaths(DELIVERIES, path);
    CommitPaths(REPLIES, path);
  }

  lemma FlowOfDefinition(d: Definition, message: Message, flow: Flow, path: seq<string>)
    requires DefinitionMatches(d, message, flow, path)
    ensures d.flows == [Ingress] ==> flow == Ingress
    ensures d.flows == [Egress] ==> flow == Egress
  {
  }

  lemma MatchesMeanTable(d: Definition, message: Message, flow: Flow, path: seq<string>)
    requires d in DEFINITIONS && DefinitionMatches(d, message, flow, path)
    ensures AgentMay(message, flow, path)
  {
    FlowOfDefinition(d, message, flow, path);
    IngressTable(message, path);
    EgressTable(message, path);
  }

  lemma TableIsMatched(message: Message, flow: Flow, path: seq<string>) returns (d: Definition)
    requires AgentMay(message, flow, path)
    ensures d in DEFINITIONS && DefinitionMatches(d, message, flow, path)
  {
    IngressTable(message, path);
    EgressTable(message, path);
    if flow == Ingress {
      d := if DefinitionMatches(PUBLICATIONS, message, Ingress, path) then DEFINITIONS[0]
           else if DefinitionMatches(PRESENCES, message, Ingress, path) then DEFINITIONS[1]
           else if DefinitionMatches(SUBSCRIPTIONS, message, Ingress, path) then DEFINITIONS[2]
           else DEFINITIONS[4];
    } else {
      d := if DefinitionMatches(DELIVERIES, message, Egress, path) then DEFINITIONS[3] else DEFINITIONS[5];
    }
  }
}
