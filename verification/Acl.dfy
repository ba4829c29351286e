/**
 * The compiler from a policy to Zenoh access control lists, an evaluator for those lists, and the proof that
 * the lists mean the policy.
 */
module Acl {
  import opened Text
  import opened Policies
  import opened KeyExpressions

  // ----- the lists and their evaluator -----

  datatype Message =
    | Put
    | Delete
    | DeclareSubscriber
    | Query
    | Reply
    | DeclareQueryable
    | LivelinessToken
    | LivelinessQuery
    | DeclareLivelinessSubscriber

  datatype Flow = Ingress | Egress

  datatype Permission = Allow | Deny

  datatype Rule = Rule(id: string, messages: seq<Message>, flows: seq<Flow>, permission: Permission,
                       keyExprs: seq<string>)

  datatype Subject = Subject(id: string, linkProtocols: seq<string>, certCommonNames: seq<string>)

  datatype Binding = Binding(id: string, rules: seq<string>, subjects: seq<string>)

  datatype AccessControl = AccessControl(
    enabled: bool,
    defaultPermission: Permission,
    rules: seq<Rule>,
    subjects: seq<Subject>,
    policies: seq<Binding>)

  datatype Request = Request(commonName: string, protocol: string, message: Message, flow: Flow, key: string)

  function Chunks(key: string): (chunks: seq<string>)
    ensures chunks != []
  {
    Split(key, '/')
  }

  predicate RuleMatches(r: Rule, q: Request) {
    && q.message in r.messages
    && q.flow in r.flows
    && exists k :: k in r.keyExprs && Includes(Chunks(k), Chunks(q.key))
  }

  predicate SubjectMatches(s: Subject, q: Request) {
    q.protocol in s.linkProtocols && q.commonName in s.certCommonNames
  }

  /** A binding ties rules to subjects by their string ids. */
  predicate Applies(b: Binding, s: Subject, r: Rule, q: Request) {
    s.id in b.subjects && r.id in b.rules && SubjectMatches(s, q) && RuleMatches(r, q)
  }

  ghost predicate Matched(acl: AccessControl, permission: Permission, q: Request) {
    exists b, s, r ::
      b in acl.policies && s in acl.subjects && r in acl.rules && r.permission == permission && Applies(b, s, r, q)
  }

  /** A denial wins over an allowance; without either, the default decides. */
  ghost predicate Allows(acl: AccessControl, q: Request) {
    || !acl.enabled
    || (!Matched(acl, Deny, q) && (Matched(acl, Allow, q) || acl.defaultPermission == Allow))
  }

  // ----- what the policy says -----

  /** The data-plane permissions of an Agent, over the chunks below its own namespace. */
  predicate AgentMay(message: Message, flow: Flow, path: seq<string>) {
    match flow
    case Ingress =>
      || (message == Put &&
          (|| path == ["presence", "agent"]
           || path == ["status", "latest"]
           || (|path| == 2 && path[0] in ["results", "events", "errors"] && path[1] != "**")))
      || (message == LivelinessToken && path == ["presence", "agent"])
      || (message == DeclareSubscriber && ["commands", "live"] <= path)
      || (message == Query && (path == ["commands", "history"] || path == ["state", "commit"]))
    case Egress =>
      || (message == Put && ["commands", "live"] <= path)
      || (message in [Reply, DeclareQueryable] && (path == ["commands", "history"] || path == ["state", "commit"]))
  }

  /** The chunks of an Agent's own namespace. */
  function Home(p: Policy, name: string): seq<string> {
    Chunks(p.namespacePrefix) + [name]
  }

  predicate PeerGranted(p: Policy, q: Request) {
    q.commonName in p.trustedPeers && Chunks(p.namespacePrefix) <= Chunks(q.key)
  }

  /** The permissions that the rules of the Agent named `name` carry, whoever asks. */
  predicate AgentRulesGrant(p: Policy, name: string, message: Message, flow: Flow, key: string) {
    Home(p, name) <= Chunks(key) && AgentMay(message, flow, Chunks(key)[|Home(p, name)|..])
  }

  predicate Granted(p: Policy, q: Request) {
    || PeerGranted(p, q)
    || (q.commonName in Names(p.agents) && AgentRulesGrant(p, q.commonName, q.message, q.flow, q.key))
  }

  // ----- the compiler -----

  /** A path below an Agent's namespace, as its list of chunks. */
  type Path = chunks: seq<string> | chunks != [] witness [""]

  datatype Definition = Definition(suffix: string, messages: seq<Message>, flows: seq<Flow>, paths: seq<Path>)

  const PRESENCE: Path := ["presence", "agent"]
  const STATUS: Path := ["status", "latest"]
  const RESULTS: Path := ["results", "*"]
  const EVENTS: Path := ["events", "*"]
  const ERRORS: Path := ["errors", "*"]
  const LIVE: Path := ["commands", "live", "**"]
  const HISTORY: Path := ["commands", "history"]
  const COMMIT: Path := ["state", "commit"]

  const PUBLICATIONS := Definition("publications", [Put], [Ingress], [PRESENCE, STATUS, RESULTS, EVENTS, ERRORS])
  const PRESENCES := Definition("presence", [LivelinessToken], [Ingress], [PRESENCE])
  const SUBSCRIPTIONS := Definition("subscription", [DeclareSubscriber], [Ingress], [LIVE])
  const DELIVERIES := Definition("delivery", [Put], [Egress], [LIVE])
  const QUERIES := Definition("query", [Query], [Ingress], [HISTORY, COMMIT])
  const REPLIES := Definition("reply", [Reply, DeclareQueryable], [Egress], [HISTORY, COMMIT])

  const DEFINITIONS := [PUBLICATIONS, PRESENCES, SUBSCRIPTIONS, DELIVERIES, QUERIES, REPLIES]

  const TRUSTED_RULE := "trusted-authority"
  const TRUSTED_SUBJECT := "trusted-peers"

  function NewRule(id: string, messages: seq<Message>, flows: seq<Flow>, keyExprs: seq<string>): Rule {
    Rule(id, messages, flows, Allow, keyExprs)
  }

  function TrustedRule(p: Policy): Rule {
    NewRule(
      TRUSTED_RULE,
      [Put, Delete, DeclareSubscriber, Query, Reply, DeclareQueryable, LivelinessToken, LivelinessQuery,
       DeclareLivelinessSubscriber],
      [Ingress, Egress],
      [p.namespacePrefix + "/" + "**"])
  }

  function RuleId(name: string, suffix: string): string {
    name + "-" + suffix
  }

  function Below(namespace: string, paths: seq<Path>): (keys: seq<string>)
    ensures |keys| == |paths|
    ensures forall i :: 0 <= i < |paths| ==> keys[i] == namespace + "/" + Join(paths[i], '/')
  {
    seq(|paths|, i requires 0 <= i < |paths| => namespace + "/" + Join(paths[i], '/'))
  }

  function AgentRule(agent: AgentAdmission, d: Definition): Rule {
    NewRule(RuleId(agent.commonName, d.suffix), d.messages, d.flows, Below(agent.namespace, d.paths))
  }

  function AgentRules(agent: AgentAdmission, definitions: seq<Definition>): (rules: seq<Rule>)
    ensures |rules| == |definitions|
    ensures forall i :: 0 <= i < |rules| ==> rules[i] == AgentRule(agent, definitions[i])
  {
    seq(|definitions|, i requires 0 <= i < |definitions| => AgentRule(agent, definitions[i]))
  }

  function RuleIds(name: string, definitions: seq<Definition>): (ids: seq<string>)
    ensures |ids| == |definitions|
    ensures forall i :: 0 <= i < |ids| ==> ids[i] == RuleId(name, definitions[i].suffix)
  {
    seq(|definitions|, i requires 0 <= i < |definitions| => RuleId(name, definitions[i].suffix))
  }

  function AgentSubject(agent: AgentAdmission): Subject {
    Subject(agent.commonName, ["tls"], [agent.commonName])
  }

  function AgentBinding(agent: AgentAdmission, definitions: seq<Definition>): Binding {
    Binding(agent.commonName, RuleIds(agent.commonName, definitions), [agent.commonName])
  }

  function AllAgentRules(agents: seq<AgentAdmission>, definitions: seq<Definition>): seq<Rule> {
    if agents == [] then []
    else AllAgentRules(agents[..|agents| - 1], definitions) + AgentRules(agents[|agents| - 1], definitions)
  }

  function AgentSubjects(agents: seq<AgentAdmission>): (subjects: seq<Subject>)
    ensures |subjects| == |agents|
    ensures forall i :: 0 <= i < |agents| ==> subjects[i] == AgentSubject(agents[i])
  {
    seq(|agents|, i requires 0 <= i < |agents| => AgentSubject(agents[i]))
  }

  function AgentBindings(agents: seq<AgentAdmission>, definitions: seq<Definition>): (bindings: seq<Binding>)
    ensures |bindings| == |agents|
    ensures forall i :: 0 <= i < |agents| ==> bindings[i] == AgentBinding(agents[i], definitions)
  {
    seq(|agents|, i requires 0 <= i < |agents| => AgentBinding(agents[i], definitions))
  }

  function TrustedSubject(p: Policy): Subject {
    Subject(TRUSTED_SUBJECT, ["tls"], p.trustedPeers)
  }

  const TRUSTED_BINDING := Binding(TRUSTED_RULE, [TRUSTED_RULE], [TRUSTED_SUBJECT])

  function Lists(p: Policy, definitions: seq<Definition>): AccessControl {
    AccessControl(
      true,
      Deny,
      [TrustedRule(p)] + AllAgentRules(p.agents, definitions),
      [TrustedSubject(p)] + AgentSubjects(p.agents),
      [TRUSTED_BINDING] + AgentBindings(p.agents, definitions))
  }

  function AccessControlOf(p: Policy): AccessControl {
    Lists(p, DEFINITIONS)
  }

  lemma AllAgentRulesStep(agents: seq<AgentAdmission>, definitions: seq<Definition>, i: nat)
    requires i < |agents|
    ensures AllAgentRules(agents[..i + 1], definitions) ==
            AllAgentRules(agents[..i], definitions) + AgentRules(agents[i], definitions)
  {
    assert agents[..i + 1][..i] == agents[..i];
  }

  /** The inner loop of the source: one rule and one id for every definition. */
  method CompileAgent(agent: AgentAdmission, definitions: seq<Definition>, before: seq<Rule>)
    returns (rules: seq<Rule>, agentRules: seq<string>)
    ensures rules == before + AgentRules(agent, definitions)
    ensures agentRules == RuleIds(agent.commonName, definitions)
  {
    rules, agentRules := before, [];
    for d := 0 to |definitions|
      invariant agentRules == RuleIds(agent.commonName, definitions[..d])
      invariant rules == before + AgentRules(agent, definitions[..d])
    {
      var definition := definitions[d];
      var id := RuleId(agent.commonName, definition.suffix);
      agentRules := agentRules + [id];
      rules := rules + [NewRule(id, definition.messages, definition.flows, Below(agent.namespace, definition.paths))];
    }
    assert definitions[..|definitions|] == definitions;
  }

  /** The outer loop of the source, which pushes onto three lists. */
  method CompileLists(p: Policy, definitions: seq<Definition>) returns (acl: AccessControl)
    ensures acl == Lists(p, definitions)
  {
    var rules := [TrustedRule(p)];
    var subjects := [TrustedSubject(p)];
    var policies := [TRUSTED_BINDING];
    for i := 0 to |p.agents|
      invariant rules == [TrustedRule(p)] + AllAgentRules(p.agents[..i], definitions)
      invariant subjects == [TrustedSubject(p)] + AgentSubjects(p.agents[..i])
      invariant policies == [TRUSTED_BINDING] + AgentBindings(p.agents[..i], definitions)
    {
      var agent := p.agents[i];
      var agentRules;
      rules, agentRules := CompileAgent(agent, definitions, rules);
      subjects := subjects + [AgentSubject(agent)];
      policies := policies + [Binding(agent.commonName, agentRules, [agent.commonName])];
      AllAgentRulesStep(p.agents, definitions, i);
    }
    assert p.agents[..|p.agents|] == p.agents;
    return AccessControl(true, Deny, rules, subjects, policies);
  }
}
