/** Versions of Windows packages: semantic versions mapped to four numbers that Windows can order. */
module Msix {
  import opened Common
  import opened Ordering

  // ----- semantic versions -----

  datatype Identifier = Number(n: nat) | Word(text: string)

  /** A parsed version without its build metadata, which has no precedence. */
  datatype Version = Version(major: nat, minor: nat, patch: nat, prerelease: seq<Identifier>)

  /** Section 11 of SemVer 2.0.0: numbers compare as numbers, words as text, and numbers come before words. */
  predicate IdentifierPrecedes(a: Identifier, b: Identifier) {
    match (a, b)
    case (Number(m), Number(n)) => m < n
    case (Number(_), Word(_)) => true
    case (Word(_), Number(_)) => false
    case (Word(s), Word(t)) => Less(s, t)
  }

  /** Identifiers compare from left to right, and a longer sequence follows a shorter one that begins it. */
  predicate TailPrecedes(a: seq<Identifier>, b: seq<Identifier>)
    decreases |a|
  {
    if a == [] then b != []
    else b != [] && (IdentifierPrecedes(a[0], b[0]) || (a[0] == b[0] && TailPrecedes(a[1..], b[1..])))
  }

  /** A version without a prerelease follows every prerelease of it. */
  predicate PrereleasePrecedes(a: seq<Identifier>, b: seq<Identifier>) {
    if a == [] then false else b == [] || TailPrecedes(a, b)
  }

  predicate Precedes(v: Version, w: Version) {
    || v.major < w.major
    || (v.major == w.major && v.minor < w.minor)
    || (v.major == w.major && v.minor == w.minor && v.patch < w.patch)
    || (v.major == w.major && v.minor == w.minor && v.patch == w.patch
        && PrereleasePrecedes(v.prerelease, w.prerelease))
  }

  // ----- package versions -----

  const MAX_PART := 65535
  const STABLE_REVISION := 65535
  const MAX_SEQUENCE := 999

  datatype Package = Package(major: nat, minor: nat, patch: nat, revision: nat)

  predicate Before(p: Package, q: Package) {
    || p.major < q.major
    || (p.major == q.major && p.minor < q.minor)
    || (p.major == q.major && p.minor == q.minor && p.patch < q.patch)
    || (p.major == q.major && p.minor == q.minor && p.patch == q.patch && p.revision < q.revision)
  }

  const ALPHA := "alpha"
  const BETA := "beta"
  const RC := "rc"

  /** The offset of a channel that the table itself holds. */
  function Offset(channel: string): Option<nat> {
    if channel == ALPHA then Some(1000)
    else if channel == BETA then Some(2000)
    else if channel == RC then Some(3000)
    else None
  }

  /** Names that every JavaScript object answers to with the `in` operator, although no table holds them. */
  const INHERITED: set<string> := {
    "constructor", "toString", "toLocaleString", "valueOf", "hasOwnProperty", "isPrototypeOf", "propertyIsEnumerable"}

  /** A package version, an error, or text that is no version because an inherited function was added to a number. */
  datatype Outcome = Mapped(package: Package) | Garbled | Refused

  /** The number of the sequence; `parse` converts a word to a number, where JavaScript does. */
  function Sequence(parse: string -> Option<int>, prerelease: seq<Identifier>): Option<nat>
    requires prerelease != []
  {
    var n: Option<int> :=
      if |prerelease| == 1 then Some(0)
      else match prerelease[1] case Number(n) => Some(n) case Word(text) => parse(text);
    if n.Some? && 0 <= n.value <= MAX_SEQUENCE then Some(n.value) else None
  }

  function ToMsix(parse: string -> Option<int>, v: Version): Outcome {
    if v.major > MAX_PART || v.minor > MAX_PART || v.patch > MAX_PART then Refused
    else if v.prerelease == [] then Mapped(Package(v.major, v.minor, v.patch, STABLE_REVISION))
    else if v.prerelease[0].Number? then Refused
    else
      var channel := v.prerelease[0].text;
      if Offset(channel).None? && channel !in INHERITED then Refused
      else
        match Sequence(parse, v.prerelease)
        case None => Refused
        case Some(n) =>
          if Offset(channel).None? then Garbled
          else Mapped(Package(v.major, v.minor, v.patch, Offset(channel).value + n))
  }

  /**
   * Exactly stable versions and prereleases of the three channels with a legal sequence are mapped; a mapped version
   * has four parts that Windows accepts. The result is garbled exactly for an inherited name with a legal sequence.
   */
  lemma MappedIsPackage(parse: string -> Option<int>, v: Version)
    ensures ToMsix(parse, v).Mapped? <==>
      && v.major <= MAX_PART && v.minor <= MAX_PART && v.patch <= MAX_PART
      && (v.prerelease == [] ||
          (v.prerelease[0].Word? && v.prerelease[0].text in {ALPHA, BETA, RC} && Sequence(parse, v.prerelease).Some?))
    ensures ToMsix(parse, v).Mapped? ==>
      var p := ToMsix(parse, v).package;
      p.major <= MAX_PART && p.minor <= MAX_PART && p.patch <= MAX_PART && 1000 <= p.revision <= MAX_PART
    ensures ToMsix(parse, v).Garbled? <==>
      && v.major <= MAX_PART && v.minor <= MAX_PART && v.patch <= MAX_PART
      && v.prerelease != [] && v.prerelease[0].Word? && v.prerelease[0].text in INHERITED
      && Sequence(parse, v.prerelease).Some?
  {
    if v.prerelease != [] && v.prerelease[0].Word? && v.prerelease[0].text in INHERITED {
      InheritedIsNoChannel(v.prerelease[0].text);
    }
  }

  lemma InheritedIsNoChannel(name: string)
    requires name in INHERITED
    ensures Offset(name).None?
  {
    assert |name| > 5;
  }

  // ----- order -----

  /** The form `channel.N`, or no prerelease at all. */
  predicate Plain(v: Version) {
    v.prerelease == [] || (|v.prerelease| == 2 && v.prerelease[0].Word? && v.prerelease[1].Number?)
  }

  lemma ChannelOrder()
    ensures Less(ALPHA, BETA) && Less(BETA, RC) && Less(ALPHA, RC)
    ensures !Less(BETA, ALPHA) && !Less(RC, BETA) && !Less(RC, ALPHA)
    ensures !Less(ALPHA, ALPHA) && !Less(BETA, BETA) && !Less(RC, RC)
  {
    LessIsTotal(ALPHA, BETA);
    LessIsTotal(BETA, RC);
    LessIsTotal(ALPHA, RC);
  }

  /** Two prereleases of the form `channel.N` compare by channel and then by number. */
  lemma TailOrder(a: seq<Identifier>, b: seq<Identifier>)
    requires |a| == 2 && a[0].Word? && a[1].Number? && |b| == 2 && b[0].Word? && b[1].Number?
    ensures TailPrecedes(a, b) <==> Less(a[0].text, b[0].text) || (a[0].text == b[0].text && a[1].n < b[1].n)
  {
    assert a[1..] == [a[1]] && b[1..] == [b[1]];
    assert !TailPrecedes([], []);
    assert [a[1]][1..] == [] && [b[1]][1..] == [];
  }

  lemma RevisionOrder(a: seq<Identifier>, b: seq<Identifier>)
    requires |a| == 2 && a[0].Word? && a[1].Number? && |b| == 2 && b[0].Word? && b[1].Number?
    requires Offset(a[0].text).Some? && Offset(b[0].text).Some? && a[1].n <= MAX_SEQUENCE && b[1].n <= MAX_SEQUENCE
    ensures TailPrecedes(a, b) <==> Offset(a[0].text).value + a[1].n < Offset(b[0].text).value + b[1].n
  {
    ChannelOrder();
    TailOrder(a, b);
  }

  /** On versions without a prerelease or with one of the form `channel.N`, the map is an embedding of the orders. */
  lemma OrderIsEmbedded(parse: string -> Option<int>, v: Version, w: Version)
    requires Plain(v) && Plain(w) && ToMsix(parse, v).Mapped? && ToMsix(parse, w).Mapped?
    ensures Precedes(v, w) <==> Before(ToMsix(parse, v).package, ToMsix(parse, w).package)
    ensures v == w <==> ToMsix(parse, v) == ToMsix(parse, w)
  {
    var a, b := v.prerelease, w.prerelease;
    if a != [] && b != [] {
      RevisionOrder(a, b);
      RevisionOrder(b, a);
      if a[0] == b[0] && a[1] == b[1] {
        assert a == [a[0], a[1]] && b == [b[0], b[1]];
      }
    }
  }

  /**
   * The plain version that a mapped version stands for: its missing sequence is zero, and its longer tail is dropped.
   */
  function PlainForm(parse: string -> Option<int>, v: Version): Version
    requires ToMsix(parse, v).Mapped?
  {
    if v.prerelease == [] then v
    else v.(prerelease := [v.prerelease[0], Number(Sequence(parse, v.prerelease).value)])
  }

  /**
   * What Windows orders is exactly the plain form: two mapped versions are ordered as their plain forms are, and get
   * the same package version exactly when those are equal.
   */
  lemma PlainFormDecides(parse: string -> Option<int>, v: Version, w: Version)
    requires ToMsix(parse, v).Mapped? && ToMsix(parse, w).Mapped?
    ensures
      var p, q := PlainForm(parse, v), PlainForm(parse, w);
      && (Precedes(p, q) <==> Before(ToMsix(parse, v).package, ToMsix(parse, w).package))
      && (p == q <==> ToMsix(parse, v) == ToMsix(parse, w))
  {
    SameMapping(parse, v);
    SameMapping(parse, w);
    OrderIsEmbedded(parse, PlainForm(parse, v), PlainForm(parse, w));
  }

  lemma SameMapping(parse: string -> Option<int>, v: Version)
    requires ToMsix(parse, v).Mapped?
    ensures Plain(PlainForm(parse, v)) && ToMsix(parse, PlainForm(parse, v)) == ToMsix(parse, v)
  {
  }

  /**
   * Outside the plain forms the order is lost: `alpha` precedes `alpha.0`, and both map to the same package version.
   */
  lemma BareChannelIsNotOrdered(parse: string -> Option<int>)
    ensures
      var v, w := Version(1, 0, 0, [Word(ALPHA)]), Version(1, 0, 0, [Word(ALPHA), Number(0)]);
      Precedes(v, w) && ToMsix(parse, v) == ToMsix(parse, w) == Mapped(Package(1, 0, 0, 1000))
  {
    var a, b := [Word(ALPHA)], [Word(ALPHA), Number(0)];
    assert a[1..] == [] && b[1..] == [Number(0)];
    assert TailPrecedes(a[1..], b[1..]);
    assert TailPrecedes(a, b);
    assert Sequence(parse, a) == Some(0) && Sequence(parse, b) == Some(0);
  }

  /** The version `1.0.0-constructor.0` passes the test of channels, and what comes out is no version. */
  lemma InheritedNameIsGarbled(parse: string -> Option<int>)
    ensures ToMsix(parse, Version(1, 0, 0, [Word("constructor"), Number(0)])) == Garbled
  {
    var tail := [Word("constructor"), Number(0)];
    assert "constructor" in INHERITED;
    InheritedIsNoChannel("constructor");
    assert Sequence(parse, tail) == Some(0);
  }
}
