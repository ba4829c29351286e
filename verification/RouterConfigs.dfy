/** The configuration document that the Supervisor renders for its Zenoh child. */
module RouterConfigs {
  import opened Common
  import opened Policies
  import opened Acl
  import opened AclTheorems
  import opened Tls

  datatype RouterConfig = RouterConfig(
    id: string,
    listenEndpoint: string,
    probeEndpoint: string,
    peerEndpoints: seq<string>,
    rootCaFile: string,
    certificateFile: string,
    privateKeyFile: string,
    probeCertificateFile: string,
    probePrivateKeyFile: string)

  predicate HexDigit(c: char) {
    '0' <= c <= '9' || 'a' <= c <= 'f' || 'A' <= c <= 'F'
  }

  predicate LegalEndpoint(endpoint: string) {
    && "tls/" <= endpoint
    && |endpoint| <= 512
    && forall i :: 0 <= i < |endpoint| ==> endpoint[i] !in "#?\n\r"
  }

  predicate ValidConfig(c: RouterConfig) {
    && |c.id| == 32
    && (forall i :: 0 <= i < |c.id| ==> HexDigit(c.id[i]))
    && (exists i :: 0 <= i < |c.id| && c.id[i] != '0')
    && LegalEndpoint(c.listenEndpoint)
    && LegalEndpoint(c.probeEndpoint)
    && forall i :: 0 <= i < |c.peerEndpoints| ==> LegalEndpoint(c.peerEndpoints[i])
  }

  /** The read-only check of the source: the identity first, then every endpoint in turn. */
  method CheckConfig(c: RouterConfig) returns (ok: bool)
    ensures ok <==> ValidConfig(c)
  {
    if |c.id| != 32 || forall i :: 0 <= i < |c.id| ==> c.id[i] == '0' {
      return false;
    }
    if exists i :: 0 <= i < |c.id| && !HexDigit(c.id[i]) {
      return false;
    }
    var endpoints := [c.listenEndpoint, c.probeEndpoint] + c.peerEndpoints;
    for i := 0 to |endpoints|
      invariant forall j :: 0 <= j < i ==> LegalEndpoint(endpoints[j])
    {
      if !LegalEndpoint(endpoints[i]) {
        assert i >= 2 ==> endpoints[i] == c.peerEndpoints[i - 2];
        return false;
      }
    }
    assert endpoints[0] == c.listenEndpoint && endpoints[1] == c.probeEndpoint;
    assert forall j :: 0 <= j < |c.peerEndpoints| ==> endpoints[j + 2] == c.peerEndpoints[j];
    return true;
  }

  /** The fields of the JSON document that vary; the rest of it is constant. */
  datatype Document = Document(
    id: string,
    listenEndpoint: string,
    connectEndpoints: seq<string>,
    rootCaFile: string,
    certificateFile: string,
    privateKeyFile: string,
    accessControl: AccessControl)

  function Unchecked(c: RouterConfig, p: Policy): Document {
    Document(c.id, c.listenEndpoint, c.peerEndpoints, c.rootCaFile, c.certificateFile, c.privateKeyFile,
             AccessControlOf(p))
  }

  /** `accepts` is the verdict of Zenoh's own configuration parser. */
  function Render(c: RouterConfig, accepts: Document -> bool, p: Policy): (r: Result<Document, RouterError>)
    ensures r.Ok? ==> r.value.accessControl == AccessControlOf(p)
  {
    if ValidConfig(c) && accepts(Unchecked(c, p)) then Ok(Unchecked(c, p)) else Err(InvalidPolicy)
  }

  /**
   * What a document promises: it carries the lists of its policy, and the Router listens and connects only by TLS, at
   * endpoints without overrides.
   */
  lemma RenderedIsConfined(c: RouterConfig, accepts: Document -> bool, p: Policy, q: Request)
    requires WellFormed(p) && Render(c, accepts, p).Ok?
    ensures
      var d := Render(c, accepts, p).value;
      && (Allows(d.accessControl, q) <==> q.protocol == "tls" && Granted(p, q))
      && LegalEndpoint(d.listenEndpoint)
      && forall i :: 0 <= i < |d.connectEndpoints| ==> LegalEndpoint(d.connectEndpoints[i])
  {
    AclMeansPolicy(p, q);
  }

  /** Refresh refines activate: keeping the child enforces what a new child would be started with. */
  lemma SameAuthorityRendersAlike(c: RouterConfig, accepts: Document -> bool, p: Policy, q: Policy)
    requires HasSameAuthority(p, q)
    ensures Render(c, accepts, p) == Render(c, accepts, q)
  {
    assert TrustedRule(p) == TrustedRule(q) && TrustedSubject(p) == TrustedSubject(q);
    assert AccessControlOf(p) == AccessControlOf(q);
  }

  /** What the child reads from `router.json`: the document with its credentials in line. */
  datatype ChildConfig = ChildConfig(document: Document, tls: DataTls)

  /** A document that renders for two policies of one fleet carries the authority of both. */
  lemma DocumentDeterminesAuthority(c: RouterConfig, accepts: Document -> bool, p: Policy, q: Policy)
    requires WellFormed(p) && WellFormed(q) && p.fleetId == q.fleetId
    requires Render(c, accepts, p).Ok?
    ensures Render(c, accepts, p) == Render(c, accepts, q) <==> HasSameAuthority(p, q)
  {
    SameAuthorityIffSameLists(p, q);
  }
}
