/** The fingerprint of one Device Work request: which requests share it. */
module Fingerprint {
  import opened Common
  import opened Decimal
  import opened Text
  import opened Utf8
  import F = Framing

  // ----- deadlines -----

  /** A time in UTC, to the microsecond. */
  datatype Utc = Utc(year: nat, month: nat, day: nat, hour: nat, minute: nat, second: nat, micro: nat)

  predicate Legal(t: Utc) {
    && 1 <= t.year <= 9999 && 1 <= t.month <= 12 && 1 <= t.day <= 31
    && t.hour < 24 && t.minute < 60 && t.second < 60 && t.micro < 1000000
  }

  /** Everything after the year. */
  function Tail(t: Utc): (s: string)
    ensures |s| == 23
  {
    "-" + Padded(t.month, 2) + ("-" + Padded(t.day, 2)) + ("T" + Padded(t.hour, 2)) + (":" + Padded(t.minute, 2))
    + (":" + Padded(t.second, 2)) + ("." + Padded(t.micro, 6) + "Z")
  }

  /** The text of a deadline; some platforms pad the year to four digits and some do not. */
  function DeadlineText(padYear: bool, t: Utc): string {
    (if padYear then Padded(t.year, 4) else Nat(t.year)) + Tail(t)
  }

  lemma CancelTail(a: string, b: string, s: string, t: string)
    requires a + s == b + t && |s| == |t|
    ensures a == b && s == t
  {
    assert |a| == |b|;
    assert a == (a + s)[..|a|] && b == (b + t)[..|b|];
    assert s == (a + s)[|a|..] && t == (b + t)[|b|..];
  }

  lemma Tens()
    ensures Ten(2) == 100 && Ten(4) == 10000 && Ten(6) == 1000000
  {
    assert Ten(3) == 1000 && Ten(5) == 100000;
  }

  /** One part of a deadline, with the mark before it, is read back from its fixed place. */
  lemma PartInjective(mark: string, m: nat, n: nat)
    requires m < 100 && n < 100 && mark + Padded(m, 2) == mark + Padded(n, 2)
    ensures m == n
  {
    Tens();
    CancelTail(mark, mark, Padded(m, 2), Padded(n, 2));
    PaddedInjective(m, n, 2);
  }

  lemma MicroInjective(m: nat, n: nat)
    requires m < 1000000 && n < 1000000 && "." + Padded(m, 6) + "Z" == "." + Padded(n, 6) + "Z"
    ensures m == n
  {
    Tens();
    CancelTail("." + Padded(m, 6), "." + Padded(n, 6), "Z", "Z");
    CancelTail(".", ".", Padded(m, 6), Padded(n, 6));
    PaddedInjective(m, n, 6);
  }

  lemma ClockInjective(s: Utc, t: Utc, a: string, b: string)
    requires Legal(s) && Legal(t) && |a| == |b|
    requires
      a + (":" + Padded(s.minute, 2)) + (":" + Padded(s.second, 2)) + ("." + Padded(s.micro, 6) + "Z") ==
      b + (":" + Padded(t.minute, 2)) + (":" + Padded(t.second, 2)) + ("." + Padded(t.micro, 6) + "Z")
    ensures a == b && s.minute == t.minute && s.second == t.second && s.micro == t.micro
  {
    var a1, b1 := a + (":" + Padded(s.minute, 2)), b + (":" + Padded(t.minute, 2));
    var a2, b2 := a1 + (":" + Padded(s.second, 2)), b1 + (":" + Padded(t.second, 2));
    CancelTail(a2, b2, "." + Padded(s.micro, 6) + "Z", "." + Padded(t.micro, 6) + "Z");
    CancelTail(a1, b1, ":" + Padded(s.second, 2), ":" + Padded(t.second, 2));
    CancelTail(a, b, ":" + Padded(s.minute, 2), ":" + Padded(t.minute, 2));
    MicroInjective(s.micro, t.micro);
    PartInjective(":", s.second, t.second);
    PartInjective(":", s.minute, t.minute);
  }

  lemma TailInjective(s: Utc, t: Utc)
    requires Legal(s) && Legal(t) && Tail(s) == Tail(t)
    ensures s.month == t.month && s.day == t.day && s.hour == t.hour
    ensures s.minute == t.minute && s.second == t.second && s.micro == t.micro
  {
    var a0, b0 := "-" + Padded(s.month, 2), "-" + Padded(t.month, 2);
    var a1, b1 := a0 + ("-" + Padded(s.day, 2)), b0 + ("-" + Padded(t.day, 2));
    var a2, b2 := a1 + ("T" + Padded(s.hour, 2)), b1 + ("T" + Padded(t.hour, 2));
    ClockInjective(s, t, a2, b2);
    CancelTail(a1, b1, "T" + Padded(s.hour, 2), "T" + Padded(t.hour, 2));
    CancelTail(a0, b0, "-" + Padded(s.day, 2), "-" + Padded(t.day, 2));
    PartInjective("T", s.hour, t.hour);
    PartInjective("-", s.day, t.day);
    PartInjective("-", s.month, t.month);
  }

  /** Two deadlines have the same text exactly when they are the same moment. */
  lemma DeadlineInjective(padYear: bool, s: Utc, t: Utc)
    requires Legal(s) && Legal(t)
    ensures DeadlineText(padYear, s) == DeadlineText(padYear, t) <==> s == t
  {
    if DeadlineText(padYear, s) == DeadlineText(padYear, t) {
      var a := if padYear then Padded(s.year, 4) else Nat(s.year);
      var b := if padYear then Padded(t.year, 4) else Nat(t.year);
      CancelTail(a, b, Tail(s), Tail(t));
      TailInjective(s, t);
      YearInjective(padYear, s.year, t.year);
    }
  }

  lemma YearInjective(padYear: bool, m: nat, n: nat)
    requires m <= 9999 && n <= 9999 && (if padYear then Padded(m, 4) == Padded(n, 4) else Nat(m) == Nat(n))
    ensures m == n
  {
    Tens();
    if padYear {
      PaddedInjective(m, n, 4);
    } else {
      NatValue(m);
      NatValue(n);
    }
  }

  // ----- requests -----

  /** A request as it is given; `expiresAt` is nothing for a time without a time zone. */
  datatype Work<O> = Work(
    contractMajor: int,
    operation: string,
    deviceId: string,
    mediaType: string,
    document: Bytes,
    options: O,
    expiresAt: Option<Utc>)

  /** What the platform does: stripping and lower-casing text, canonical JSON, and the width of a year. */
  datatype Platform<!O> = Platform(normalize: string -> string, canonicalize: O -> Bytes, padYear: bool)

  /** The seven stable fields of a request. */
  datatype Stable = Stable(
    contractMajor: nat,
    operation: string,
    deviceId: string,
    mediaType: string,
    document: Bytes,
    options: Bytes,
    expiresAt: Utc)

  const OPERATIONS: set<string> := {"receipt_image", "report_pdf", "label_document"}
  const MAX_MAJOR := 4294967295

  predicate MediaChar(c: char) {
    'a' <= c <= 'z' || '0' <= c <= '9' || c in "!#$&^_.+-"
  }

  predicate Token(s: string) {
    s != "" && forall i :: 0 <= i < |s| ==> MediaChar(s[i])
  }

  predicate MediaType(s: string) {
    var parts := Split(s, '/');
    |parts| == 2 && Token(parts[0]) && Token(parts[1])
  }

  /** The stable fields of a request that passes every check. */
  function StableOf<O>(p: Platform<O>, w: Work<O>): Option<Stable> {
    var media := p.normalize(w.mediaType);
    if !(0 <= w.contractMajor <= MAX_MAJOR) || w.operation !in OPERATIONS || w.deviceId == "" || !MediaType(media)
       || w.expiresAt.None? || !Legal(w.expiresAt.value)
    then None
    else
      var options := p.canonicalize(w.options);
      Some(Stable(w.contractMajor, w.operation, w.deviceId, media, w.document, options, w.expiresAt.value))
  }

  predicate LegalStable(s: Stable) {
    s.contractMajor <= MAX_MAJOR && Legal(s.expiresAt)
  }

  lemma MajorFits(n: nat)
    ensures n <= MAX_MAJOR ==> n < F.Power(4)
  {
    assert F.Power(2) == 65536;
  }

  function Fields(padYear: bool, s: Stable): seq<Bytes>
    requires LegalStable(s)
  {
    MajorFits(s.contractMajor);
    [F.BigEndian(s.contractMajor, 4), Encode(s.operation), Encode(s.deviceId), Encode(s.mediaType),
     s.document, s.options, Encode(DeadlineText(padYear, s.expiresAt))]
  }

  /** The name `inari-device-work-fingerprint`, a zero byte and the version of the format. */
  const FORMAT: Bytes := [
    105, 110, 97, 114, 105, 45, 100, 101, 118, 105, 99, 101, 45, 119, 111, 114,
    107, 45, 102, 105, 110, 103, 101, 114, 112, 114, 105, 110, 116, 0, 1]

  /** The bytes that are hashed, or nothing where a check fails. */
  function Representation<O>(p: Platform<O>, w: Work<O>): Option<Bytes> {
    match StableOf(p, w)
    case None => None
    case Some(s) => if F.AllFramable(Fields(p.padYear, s)) then Some(FORMAT + F.Frames(Fields(p.padYear, s))) else None
  }

  // ----- what a fingerprint identifies -----

  lemma SameFields(padYear: bool, s: Stable, t: Stable)
    requires LegalStable(s) && LegalStable(t) && Fields(padYear, s) == Fields(padYear, t)
    ensures s == t
  {
    var a, b := Fields(padYear, s), Fields(padYear, t);
    assert a[0] == b[0] && a[1] == b[1] && a[2] == b[2] && a[3] == b[3] && a[4] == b[4] && a[5] == b[5] && a[6] == b[6];
    MajorFits(s.contractMajor);
    MajorFits(t.contractMajor);
    F.BigEndianInjective(s.contractMajor, t.contractMajor, 4);
    EncodeInjective(s.operation, t.operation);
    EncodeInjective(s.deviceId, t.deviceId);
    EncodeInjective(s.mediaType, t.mediaType);
    EncodeInjective(DeadlineText(padYear, s.expiresAt), DeadlineText(padYear, t.expiresAt));
    DeadlineInjective(padYear, s.expiresAt, t.expiresAt);
  }

  lemma FramesDetermine(xs: seq<Bytes>, ys: seq<Bytes>, more: Bytes)
    requires F.AllFramable(xs) && F.AllFramable(ys) && |xs| == |ys|
    requires FORMAT + F.Frames(xs) + more == FORMAT + F.Frames(ys)
    ensures xs == ys && more == []
  {
    var head := FORMAT;
    Associative(head, F.Frames(xs), more);
    assert (head + (F.Frames(xs) + more))[|head|..] == F.Frames(xs) + more;
    assert (head + F.Frames(ys))[|head|..] == F.Frames(ys) + [];
    F.FramesParseUniquely(xs, ys, more, []);
  }

  /** Two requests have the same representation exactly when all seven stable fields are equal. */
  lemma RepresentationIdentifiesWork<O>(p: Platform<O>, v: Work<O>, w: Work<O>)
    requires Representation(p, v).Some? && Representation(p, w).Some?
    ensures Representation(p, v) == Representation(p, w) <==> StableOf(p, v) == StableOf(p, w)
  {
    if Representation(p, v) == Representation(p, w) {
      assert Representation(p, v).value + [] == Representation(p, v).value;
      NoProperPrefix(p, v, w, []);
    }
  }

  /** No representation is a proper prefix of another. */
  lemma NoProperPrefix<O>(p: Platform<O>, v: Work<O>, w: Work<O>, more: Bytes)
    requires Representation(p, v).Some? && Representation(p, w).Some?
    requires Representation(p, v).value + more == Representation(p, w).value
    ensures more == [] && StableOf(p, v) == StableOf(p, w)
  {
    var s, t := StableOf(p, v).value, StableOf(p, w).value;
    FramesDetermine(Fields(p.padYear, s), Fields(p.padYear, t), more);
    SameFields(p.padYear, s, t);
  }
}
