/** The version of a release candidate. */
module Candidates {
  import opened Common
  import opened Decimal
  import opened Text
  import opened Msix

  const MARK := "-alpha."

  /** Three numerals with dots between them. */
  predicate Triple(base: string) {
    var parts := Split(base, '.');
    |parts| == 3 && forall i :: 0 <= i < 3 ==> parts[i] != "" && Digits(parts[i])
  }

  /** The base and the numeral of a version `x.y.z-alpha.N`. */
  function MatchAlpha(version: string): (r: Option<(string, string)>)
    ensures r.Some? ==> version == r.value.0 + MARK + r.value.1 && Triple(r.value.0)
    ensures r.Some? ==> r.value.1 != "" && Digits(r.value.1)
  {
    var i := IndexOf(version, '-');
    var base, rest := version[..i], version[i..];
    if Triple(base) && MARK <= rest && |rest| > |MARK| && Digits(rest[|MARK|..]) then
      CutMark(version, i);
      Some((base, rest[|MARK|..]))
    else None
  }

  lemma CutMark(version: string, i: nat)
    requires i <= |version| && MARK <= version[i..]
    ensures version == version[..i] + MARK + version[i..][|MARK|..]
  {
    Cut(version, i);
    PrefixCut(MARK, version[i..]);
    Associative(version[..i], MARK, version[i..][|MARK|..]);
  }

  lemma {:induction false} NoDash(base: string, parts: seq<string>)
    requires parts != [] && (forall i :: 0 <= i < |parts| ==> Digits(parts[i])) && base == Join(parts, '.')
    ensures '-' !in base
    decreases |parts|
  {
    if |parts| > 1 {
      NoDash(Join(parts[1..], '.'), parts[1..]);
    }
  }

  /** Every version of that form is matched. */
  lemma AlphaIsMatched(base: string, digits: string)
    requires Triple(base) && digits != "" && Digits(digits)
    ensures MatchAlpha(base + MARK + digits) == Some((base, digits))
  {
    var version := base + MARK + digits;
    JoinOfSplit(base, '.');
    NoDash(base, Split(base, '.'));
    IndexOfFirst(version, '-', |base|);
    assert version[..|base|] == base && version[|base|..] == MARK + digits;
    assert (MARK + digits)[|MARK|..] == digits;
  }

  function CandidateVersion(version: Option<string>, sequence: string): Result<Option<string>, ()> {
    if sequence == "" || !Digits(sequence) || DecimalValue(sequence) > MAX_SEQUENCE then Err(())
    else if version.None? || MatchAlpha(version.value).None? then Ok(version)
    else
      var (base, digits) := MatchAlpha(version.value).value;
      if DecimalValue(sequence) < DecimalValue(digits) then Err(())
      else Ok(Some(base + MARK + Nat(DecimalValue(sequence))))
  }

  /** A numeral as semantic versions allow it. */
  predicate Numeral(digits: string) {
    digits != "" && Digits(digits) && digits == Nat(DecimalValue(digits))
  }

  function Alpha(numbers: (nat, nat, nat), n: nat): Version {
    Version(numbers.0, numbers.1, numbers.2, [Word(ALPHA), Number(n)])
  }

  /**
   * What the parser of semantic versions does with `x.y.z-alpha.N`, where `core` reads the three numbers. Nothing is
   * said of sequences that no package version can hold; the parser refuses some of them and keeps others as words.
   */
  ghost predicate ReadsAlpha(semver: string -> Option<Version>, core: string -> Option<(nat, nat, nat)>) {
    forall base, digits :: Triple(base) && digits != "" && Digits(digits) && DecimalValue(digits) <= MAX_SEQUENCE ==>
      semver(base + MARK + digits) ==
      if core(base).Some? && Numeral(digits) then Some(Alpha(core(base).value, DecimalValue(digits))) else None
  }

  lemma NatIsNumeral(n: nat)
    ensures Numeral(Nat(n)) && DecimalValue(Nat(n)) == n
  {
    NatValue(n);
  }

  /** A candidate keeps its base and never lowers the package version. */
  lemma CandidateNeverLowers(semver: string -> Option<Version>, core: string -> Option<(nat, nat, nat)>,
                             parse: string -> Option<int>,
                             version: string, sequence: string, candidate: string, v: Version)
    requires ReadsAlpha(semver, core) && CandidateVersion(Some(version), sequence) == Ok(Some(candidate))
    requires semver(version) == Some(v) && ToMsix(parse, v).Mapped?
    ensures semver(candidate).Some?
    ensures
      var w := semver(candidate).value;
      && ToMsix(parse, w).Mapped? && !Before(ToMsix(parse, w).package, ToMsix(parse, v).package)
      && w.major == v.major && w.minor == v.minor && w.patch == v.patch
      && (if MatchAlpha(version).None? then w == v else
          sequence != "" && Digits(sequence) && w.prerelease == [Word(ALPHA), Number(DecimalValue(sequence))])
  {
    if MatchAlpha(version).Some? {
      var (base, digits) := MatchAlpha(version).value;
      MatchedNeverLowers(semver, core, parse, base, digits, DecimalValue(sequence), v);
    }
  }

  lemma ReadAlpha(semver: string -> Option<Version>, core: string -> Option<(nat, nat, nat)>, base: string,
                  digits: string)
    requires ReadsAlpha(semver, core)
    requires Triple(base) && digits != "" && Digits(digits) && DecimalValue(digits) <= MAX_SEQUENCE
    ensures semver(base + MARK + digits) ==
      if core(base).Some? && Numeral(digits) then Some(Alpha(core(base).value, DecimalValue(digits))) else None
  {
  }

  lemma MatchedNeverLowers(semver: string -> Option<Version>, core: string -> Option<(nat, nat, nat)>,
                           parse: string -> Option<int>, base: string, digits: string, n: nat, v: Version)
    requires ReadsAlpha(semver, core) && Triple(base) && digits != "" && Digits(digits)
    requires DecimalValue(digits) <= n <= MAX_SEQUENCE
    requires semver(base + MARK + digits) == Some(v) && ToMsix(parse, v).Mapped?
    ensures core(base).Some? && semver(base + MARK + Nat(n)) == Some(Alpha(core(base).value, n))
    ensures v == Alpha(core(base).value, DecimalValue(digits))
    ensures ToMsix(parse, Alpha(core(base).value, n)).Mapped?
    ensures !Before(ToMsix(parse, Alpha(core(base).value, n)).package, ToMsix(parse, v).package)
  {
    NatIsNumeral(n);
    ReadAlpha(semver, core, base, digits);
    ReadAlpha(semver, core, base, Nat(n));
  }
}
