/** TLS credentials of the Router: their digest input and the intersection of their validity periods. */
module Tls {
  import opened Common
  import opened Framing
  import opened Policies

  const MAX_FILE_SIZE: nat := 256 * 1024
  const MIN_UTC: Time := -8_334_601_228_800_000_000_000
  const MAX_UTC: Time := 8_210_266_876_799_999_999_999

  /** One certificate of a chain, as the X.509 parser reports it. */
  datatype Certificate = Certificate(start: Time, end: Time, trailing: bool)

  /** The three credential files, and what the PEM parser makes of the certificate file. */
  datatype Files = Files(rootCa: Bytes, certificate: Bytes, privateKey: Bytes, chain: Result<seq<Certificate>, ()>)

  /** SHA-256 of the framed files, as a free constructor. */
  datatype TlsDigest = FilesDigest(input: Bytes)

  datatype TlsMaterial = TlsMaterial(
    rootCa: Bytes,
    certificate: Bytes,
    privateKey: Bytes,
    digest: TlsDigest,
    notBefore: Time,
    expiresAt: Time)
  {
    predicate IsCurrent(now: Time) {
      notBefore <= now < expiresAt
    }
  }

  function FileList(files: Files): seq<Bytes> {
    [files.rootCa, files.certificate, files.privateKey]
  }

  predicate LegalSize(bytes: Bytes) {
    0 < |bytes| <= MAX_FILE_SIZE
  }

  predicate LegalFiles(files: Files) {
    LegalSize(files.rootCa) && LegalSize(files.certificate) && LegalSize(files.privateKey)
  }

  /** Whether the calendar library can represent a time. */
  predicate Representable(t: Time) {
    MIN_UTC <= t <= MAX_UTC
  }

  predicate LegalCertificate(c: Certificate) {
    !c.trailing && Representable(c.start) && Representable(c.end)
  }

  predicate LegalChain(chain: seq<Certificate>) {
    && chain != []
    && forall i :: 0 <= i < |chain| ==> LegalCertificate(chain[i])
  }

  predicate ChainCurrent(chain: seq<Certificate>, now: Time) {
    forall i :: 0 <= i < |chain| ==> chain[i].start <= now < chain[i].end
  }

  predicate Loadable(files: Files, now: Time) {
    LegalFiles(files) && files.chain.Ok? && LegalChain(files.chain.value) && ChainCurrent(files.chain.value, now)
  }

  lemma FilesAreFramable(files: Files)
    requires LegalFiles(files)
    ensures AllFramable(FileList(files))
  {
  }

  function DigestInput(files: Files): Bytes
    requires LegalFiles(files)
  {
    FilesAreFramable(files);
    Frames(FileList(files))
  }

  lemma {:induction false} FramesAppend(fields: seq<Bytes>, field: Bytes)
    requires AllFramable(fields) && Framable(field)
    ensures AllFramable(fields + [field])
    ensures Frames(fields + [field]) == Frames(fields) + Frame(field)
    decreases |fields|
  {
    if fields == [] {
      assert fields + [field] == [field] && Frames([field]) == Frame(field) + Frames([]);
    } else {
      FramesAppend(fields[1..], field);
      assert (fields + [field])[1..] == fields[1..] + [field];
    }
  }

  /** The hashing loop of the source, which rejects an empty or oversized file on the way. */
  method HashFiles(files: Files) returns (r: Result<Bytes, RouterError>)
    ensures r.Ok? <==> LegalFiles(files)
    ensures r.Ok? ==> r.value == DigestInput(files)
    ensures r.Err? ==> r.error == NotReady
  {
    var list := FileList(files);
    var input: Bytes := [];
    for i := 0 to |list|
      invariant forall j :: 0 <= j < i ==> LegalSize(list[j])
      invariant AllFramable(list[..i]) && input == Frames(list[..i])
    {
      if list[i] == [] || |list[i]| > MAX_FILE_SIZE {
        return Err(NotReady);
      }
      FramesAppend(list[..i], list[i]);
      assert list[..i + 1] == list[..i] + [list[i]];
      input := input + Frame(list[i]);
    }
    assert list[..|list|] == list;
    assert LegalSize(list[0]) && LegalSize(list[1]) && LegalSize(list[2]);
    return Ok(input);
  }

  /**
   * The loop over the chain, which narrows one validity period; a period that is never wider than any certificate's.
   */
  method IntersectValidity(chain: seq<Certificate>) returns (r: Result<(Time, Time), RouterError>)
    ensures r.Ok? <==> LegalChain(chain)
    ensures r.Ok? ==> forall t :: r.value.0 <= t < r.value.1 <==> ChainCurrent(chain, t)
  {
    var notBefore, expiresAt := MIN_UTC, MAX_UTC;
    if chain == [] {
      return Err(NotReady);
    }
    for i := 0 to |chain|
      invariant forall j :: 0 <= j < i ==> LegalCertificate(chain[j])
      invariant notBefore == MIN_UTC || exists j :: 0 <= j < i && notBefore == chain[j].start
      invariant expiresAt == MAX_UTC || exists j :: 0 <= j < i && expiresAt == chain[j].end
      invariant forall j :: 0 <= j < i ==> chain[j].start <= notBefore && expiresAt <= chain[j].end
    {
      var certificate := chain[i];
      if certificate.trailing {
        return Err(NotReady);
      }
      if !Representable(certificate.start) || !Representable(certificate.end) {
        return Err(Io);
      }
      if notBefore < certificate.start {
        notBefore := certificate.start;
      }
      if certificate.end < expiresAt {
        expiresAt := certificate.end;
      }
    }
    assert chain[0].start <= notBefore && expiresAt <= chain[0].end;
    return Ok((notBefore, expiresAt));
  }

  method LoadMaterial(files: Files, now: Time) returns (r: Result<TlsMaterial, RouterError>)
    ensures r.Ok? <==> Loadable(files, now)
    ensures r.Ok? ==> r.value.digest == FilesDigest(DigestInput(files))
    ensures r.Ok? ==> r.value.rootCa == files.rootCa
    ensures r.Ok? ==> r.value.certificate == files.certificate && r.value.privateKey == files.privateKey
    ensures r.Ok? ==> forall t :: r.value.IsCurrent(t) <==> ChainCurrent(files.chain.value, t)
  {
    var input := HashFiles(files);
    if input.Err? {
      return Err(input.error);
    }
    if files.chain.Err? {
      return Err(Io);
    }
    var validity := IntersectValidity(files.chain.value);
    if validity.Err? {
      return Err(validity.error);
    }
    var digest, period := FilesDigest(input.value), validity.value;
    var material := TlsMaterial(files.rootCa, files.certificate, files.privateKey, digest, period.0, period.1);
    if !material.IsCurrent(now) {
      return Err(NotReady);
    }
    return Ok(material);
  }

  /** Equal digests mean equal credential files: the framing is injective. */
  lemma DigestDeterminesFiles(a: Files, b: Files)
    requires LegalFiles(a) && LegalFiles(b)
    ensures DigestInput(a) == DigestInput(b) <==> FileList(a) == FileList(b)
  {
    FilesAreFramable(a);
    FilesAreFramable(b);
    if DigestInput(a) == DigestInput(b) {
      assert Frames(FileList(a)) + [] == Frames(FileList(b)) + [];
      FramesParseUniquely(FileList(a), FileList(b), [], []);
    }
  }

  // ----- the pair the Supervisor monitors -----

  datatype DataTls = DataTls(router: TlsMaterial, probe: TlsMaterial) {
    predicate Matches(other: DataTls) {
      router.digest == other.router.digest && probe.digest == other.probe.digest
    }

    predicate IsCurrent(now: Time) {
      router.IsCurrent(now) && probe.IsCurrent(now)
    }

    function ExpiresAt(): (t: Time)
      ensures t <= router.expiresAt && t <= probe.expiresAt && t in {router.expiresAt, probe.expiresAt}
    {
      if router.expiresAt < probe.expiresAt then router.expiresAt else probe.expiresAt
    }
  }

  /** Reads both credential sets; the trust anchor is read twice and must not have changed in between. */
  method LoadDataTls(router: Files, probe: Files, first: Time, second: Time) returns (r: Result<DataTls, RouterError>)
    requires first <= second
    ensures r.Ok? <==> Loadable(router, first) && Loadable(probe, second) && router.rootCa == probe.rootCa
    ensures r.Ok? ==> r.value.router.IsCurrent(first) && r.value.probe.IsCurrent(second)
    ensures r.Ok? ==> r.value.router.digest == FilesDigest(DigestInput(router))
    ensures r.Ok? ==> r.value.probe.digest == FilesDigest(DigestInput(probe))
    ensures r.Ok? ==> forall t :: r.value.IsCurrent(t) <==>
                                  ChainCurrent(router.chain.value, t) && ChainCurrent(probe.chain.value, t)
  {
    var a := LoadMaterial(router, first);
    if a.Err? {
      return Err(a.error);
    }
    var b := LoadMaterial(probe, second);
    if b.Err? {
      return Err(b.error);
    }
    if a.value.rootCa != b.value.rootCa {
      return Err(NotReady);
    }
    return Ok(DataTls(a.value, b.value));
  }
}
