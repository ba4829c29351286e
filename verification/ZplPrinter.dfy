/** Printing a label design as a report, and reading it back: which designs reports can express. */
module ZplPrinter {
  import opened Common
  import opened Decimal
  import opened Text
  import opened ZplEscape
  import opened ZplFields
  import opened ZplTokens
  import opened ZplLexer
  import opened ZplMachine
  import R = ZplReports
  import G = ZplGrammar
  import M = ZplTheorems
  import T = ZplTemplate

  // ----- numbers -----

  /** A numeral is read as its number, exactly within the bounds and up to four digits. */
  lemma IntegerOfNat(n: nat, minimum: nat, maximum: nat)
    ensures Integer(Nat(n), minimum, maximum) == if minimum <= n <= maximum && n < 10000 then Some(n) else None
  {
    NatValue(n);
    NatLength(n);
  }

  // ----- arguments -----

  /** Argument text that reads as it is written: no prefix, no blank, and no separator. */
  predicate Plain(s: string) {
    forall i :: 0 <= i < |s| ==> s[i] != '^' && s[i] != '~' && !Space(s[i])
  }

  predicate Argument(s: string) {
    Plain(s) && ',' !in s
  }

  predicate Arguments(parts: seq<string>) {
    parts != [] && forall i :: 0 <= i < |parts| ==> Argument(parts[i])
  }

  lemma NatIsArgument(n: nat)
    ensures Argument(Nat(n))
  {
    NatValue(n);
    forall i | 0 <= i < |Nat(n)|
      ensures Nat(n)[i] != '^' && Nat(n)[i] != '~' && !Space(Nat(n)[i]) && Nat(n)[i] != ','
    {
      assert '0' <= Nat(n)[i] <= '9';
    }
  }

  lemma {:induction false} JoinIsPlain(parts: seq<string>)
    requires Arguments(parts)
    ensures Plain(Join(parts, ','))
    decreases |parts|
  {
    if |parts| > 1 {
      JoinIsPlain(parts[1..]);
    }
  }

  lemma TrimLeftPlain(s: string)
    requires Plain(s)
    ensures TrimLeft(s) == s
  {
    if s != "" {
      assert !Space(s[0]);
    }
  }

  lemma KnownName(name: Name)
    requires !name.Other?
    ensures |Code(name)| == 2 && CommandChar(Code(name)[0]) && CommandChar(Code(name)[1])
    ensures NameOf(Code(name)) == name && Code(name) != FIELD_DATA
  {
  }

  lemma CommandParts(code: string, raw: string)
    requires |code| == 2
    ensures
      var s := "^" + code + raw;
      |s| >= 3 && s[0] == '^' && s[1] == code[0] && s[2] == code[1] && s[1..3] == code && s[3..] == raw
  {
  }

  lemma PlainRaw(raw: string)
    requires Plain(raw)
    ensures TrimRight(Before(raw)) == raw && TrimLeft(raw) == raw && LegalArguments(raw)
  {
    IndexOfFirst(raw, '^', |raw|);
    assert raw[..|raw|] == raw;
    TrimIs(raw, |raw|);
    TrimLeftPlain(raw);
  }

  /** The text of a command with plain arguments reads as that command. */
  lemma LexCommand(name: Name, raw: string)
    requires !name.Other? && Plain(raw)
    ensures Lex(Command(name, raw).Text()) == Some(Command(name, raw))
  {
    KnownName(name);
    CommandParts(Code(name), raw);
    PlainRaw(raw);
  }

  lemma SplitArguments(parts: seq<string>)
    requires Arguments(parts)
    ensures Split(TrimLeft(Join(parts, ',')), ',') == parts
  {
    JoinIsPlain(parts);
    TrimLeftPlain(Join(parts, ','));
    SplitOfJoin(parts, ',');
  }

  // ----- designs -----

  /** The values a field can take from commands, with everything its kind does not use left at zero. */
  predicate Canonical(c: Contract, f: Field) {
    && f.hexMode && f.origin.Some? && f.kind.Some?
    && f.origin.value.x < c.layout.widthDots && f.origin.value.y < c.layout.heightDots
    && match f.kind.value
       case TextKind =>
         && 1 <= f.height <= c.layout.heightDots && 1 <= f.width <= c.layout.widthDots
         && f.moduleDots == f.columns == f.rows == 0
       case Code128 =>
         && 1 <= f.height <= c.layout.heightDots && 1 <= f.moduleDots <= 10
         && f.width == f.columns == f.rows == 0
       case DataMatrix =>
         && 1 <= f.moduleDots <= 10 && f.columns == f.rows && f.columns in CODEWORDS
         && f.height == f.width == 0
  }

  ghost predicate Design(c: Contract, placed: seq<Placed>) {
    && 1 <= |placed| <= c.layout.maxFields
    && forall i :: 0 <= i < |placed| ==> Canonical(c, placed[i].field) && Fitting(c, placed[i])
  }

  function OriginToken(f: Field): Token
    requires f.origin.Some?
  {
    var at := f.origin.value;
    Command(if at.baseline then FT else FO, Join([Nat(at.x), Nat(at.y)], ','))
  }

  function DefaultsToken(f: Field): Token {
    Command(BY, Join([Nat(f.moduleDots)], ','))
  }

  function FormatArguments(f: Field): seq<string>
    requires f.kind.Some?
  {
    match f.kind.value
    case TextKind => ["N", Nat(f.height), Nat(f.width)]
    case Code128 => ["N", Nat(f.height), "N", "N", "N"]
    case DataMatrix => ["N", Nat(f.moduleDots), "200", Nat(f.columns), Nat(f.rows), "6", "\\"]
  }

  function FormatToken(f: Field): Token
    requires f.kind.Some?
  {
    var name := match f.kind.value case TextKind => A0 case Code128 => BC case DataMatrix => BX;
    Command(name, Join(FormatArguments(f), ','))
  }

  /** The commands of one field: origin, barcode defaults where they matter, format, escape and data. */
  function FieldTokens(p: Placed): seq<Token>
    requires p.field.origin.Some? && p.field.kind.Some?
  {
    var data := [Command(FH, "_")] + [Data(p.source)];
    var format := [FormatToken(p.field)] + data;
    [OriginToken(p.field)] + (if p.field.kind == Some(Code128) then [DefaultsToken(p.field)] + format else format)
  }

  predicate Complete(placed: seq<Placed>) {
    forall i :: 0 <= i < |placed| ==> placed[i].field.origin.Some? && placed[i].field.kind.Some?
  }

  function DesignTokens(placed: seq<Placed>): seq<Token>
    requires Complete(placed)
  {
    if placed == [] then [Command(XZ, "")] else FieldTokens(placed[0]) + DesignTokens(placed[1..])
  }

  function LabelOf(placed: seq<Placed>): seq<Token>
    requires Complete(placed)
  {
    [Command(XA, "")] + ([Command(CI, "28")] + DesignTokens(placed))
  }

  // ----- the printed tokens are read back -----

  predicate Readable(t: Token) {
    match t
    case Blank(_) => false
    case Command(name, raw) => !name.Other? && Plain(raw)
    case Data(source) => '^' !in source
  }

  predicate AllReadable(ts: seq<Token>) {
    forall i :: 0 <= i < |ts| ==> Readable(ts[i])
  }

  lemma ReadToken(c: Contract, t: Token)
    requires Readable(t)
    ensures Tokens(Zpl(c), t.Text()) == Some([t])
  {
    if t.Command? {
      LexCommand(t.name, t.raw);
    } else {
      T.LexData(t.source);
    }
    T.TokenAlone(Zpl(c), t);
  }

  lemma {:induction false} ReadTokens(c: Contract, ts: seq<Token>)
    requires AllReadable(ts)
    ensures Tokens(Zpl(c), Texts(Zpl(c), ts)) == Some(ts)
    decreases |ts|
  {
    if ts != [] {
      var g := Zpl(c);
      LexerIsLawful(c);
      ReadToken(c, ts[0]);
      ReadTokens(c, ts[1..]);
      R.TokensGlue(g, ts[0].Text(), [ts[0]], Texts(g, ts[1..]), ts[1..]);
      Uncons(ts);
    }
  }

  lemma CommandIsReadable(name: Name, parts: seq<string>)
    requires !name.Other? && Arguments(parts)
    ensures Readable(Command(name, Join(parts, ',')))
  {
    JoinIsPlain(parts);
  }

  lemma FormatIsReadable(f: Field)
    requires f.kind.Some?
    ensures Arguments(FormatArguments(f)) && Readable(FormatToken(f))
  {
    NatIsArgument(f.height);
    NatIsArgument(f.width);
    NatIsArgument(f.moduleDots);
    NatIsArgument(f.columns);
    NatIsArgument(f.rows);
    JoinIsPlain(FormatArguments(f));
  }

  lemma FieldIsReadable(p: Placed)
    requires p.field.origin.Some? && p.field.kind.Some? && '^' !in p.source
    ensures AllReadable(FieldTokens(p))
  {
    FormatIsReadable(p.field);
    NatIsArgument(p.field.moduleDots);
    NatIsArgument(p.field.origin.value.x);
    NatIsArgument(p.field.origin.value.y);
    CommandIsReadable(BY, [Nat(p.field.moduleDots)]);
    var at := p.field.origin.value;
    CommandIsReadable(if at.baseline then FT else FO, [Nat(at.x), Nat(at.y)]);
  }

  lemma {:induction false} DesignIsReadable(placed: seq<Placed>)
    requires Complete(placed) && forall i :: 0 <= i < |placed| ==> '^' !in placed[i].source
    ensures AllReadable(DesignTokens(placed))
    decreases |placed|
  {
    if placed != [] {
      FieldIsReadable(placed[0]);
      DesignIsReadable(placed[1..]);
    }
  }

  // ----- the printed tokens are accepted -----

  /** Between fields: `^CI28` was given, and no field is begun. */
  predicate Ready(l: OpenLabel) {
    l.utf8 && l.field == EMPTY_FIELD
  }

  lemma OriginIsSet(c: Contract, l: OpenLabel, f: Field)
    requires LegalLayout(c.layout) && l.field.origin.None? && Canonical(c, f)
    ensures SetOrigin(c, l, f.origin.value.baseline, TrimLeft(OriginToken(f).raw)) ==
            Some(l.(field := l.field.(origin := f.origin)))
  {
    var at := f.origin.value;
    NatIsArgument(at.x);
    NatIsArgument(at.y);
    SplitArguments([Nat(at.x), Nat(at.y)]);
    IntegerOfNat(at.x, 0, c.layout.widthDots - 1);
    IntegerOfNat(at.y, 0, c.layout.heightDots - 1);
  }

  lemma RunOrigin(c: Contract, l: OpenLabel, f: Field, ts: seq<Token>) returns (m: OpenLabel)
    requires LegalLayout(c.layout) && l.utf8 && l.field.origin.None? && Canonical(c, f)
    ensures Run(Zpl(c), [OriginToken(f)] + ts, Inside(l)) == Run(Zpl(c), ts, Inside(m))
    ensures m.utf8 && m.placed == l.placed && m.moduleDots == l.moduleDots && m.field == l.field.(origin := f.origin)
  {
    OriginIsSet(c, l, f);
    m := Extend(l.(field := l.field.(origin := f.origin)), OriginToken(f).Text());
    R.RunHead(Zpl(c), OriginToken(f), ts, Inside(l), Inside(m));
  }

  lemma RunDefaults(c: Contract, l: OpenLabel, f: Field, ts: seq<Token>) returns (m: OpenLabel)
    requires l.utf8 && !l.field.hexMode && 1 <= f.moduleDots <= 10
    ensures Run(Zpl(c), [DefaultsToken(f)] + ts, Inside(l)) == Run(Zpl(c), ts, Inside(m))
    ensures m.utf8 && m.placed == l.placed && m.moduleDots == f.moduleDots && m.field == l.field
  {
    var parts := [Nat(f.moduleDots)];
    NatIsArgument(f.moduleDots);
    SplitArguments(parts);
    IntegerOfNat(f.moduleDots, 1, 10);
    m := Extend(SetBarcodeDefaults(c, l, Join(parts, ',')).value, DefaultsToken(f).Text());
    R.RunHead(Zpl(c), DefaultsToken(f), ts, Inside(l), Inside(m));
  }

  lemma TextIsSet(c: Contract, field: Field, f: Field)
    requires LegalLayout(c.layout) && Canonical(c, f) && f.kind == Some(TextKind)
    requires field == EMPTY_FIELD.(origin := f.origin)
    ensures SetText(field, FormatArguments(f), c.layout) == Some(f.(hexMode := false))
  {
    IntegerOfNat(f.height, 1, c.layout.heightDots);
    IntegerOfNat(f.width, 1, c.layout.widthDots);
  }

  lemma Code128IsSet(c: Contract, field: Field, f: Field)
    requires LegalLayout(c.layout) && Canonical(c, f) && f.kind == Some(Code128)
    requires field == EMPTY_FIELD.(origin := f.origin)
    ensures SetCode128(field, FormatArguments(f), f.moduleDots, c.layout) == Some(f.(hexMode := false))
  {
    IntegerOfNat(f.height, 1, c.layout.heightDots);
  }

  lemma DataMatrixIsSet(c: Contract, field: Field, f: Field)
    requires Canonical(c, f) && f.kind == Some(DataMatrix) && field == EMPTY_FIELD.(origin := f.origin)
    ensures SetDataMatrix(field, FormatArguments(f)) == Some(f.(hexMode := false))
  {
    SymbolSizes(f.columns);
    IntegerOfNat(f.moduleDots, 1, 10);
    IntegerOfNat(f.columns, 10, 144);
  }

  lemma SymbolSizes(columns: nat)
    requires columns in CODEWORDS
    ensures 10 <= columns <= 144
  {
  }

  lemma FormatIsSet(c: Contract, field: Field, f: Field, moduleDots: nat)
    requires LegalLayout(c.layout) && Canonical(c, f) && field == EMPTY_FIELD.(origin := f.origin)
    requires f.kind == Some(Code128) ==> moduleDots == f.moduleDots
    ensures
      var arguments := TrimLeft(FormatToken(f).raw);
      SetFormat(field, f.kind.value, arguments, moduleDots, c.layout) == Some(f.(hexMode := false))
  {
    FormatIsReadable(f);
    SplitArguments(FormatArguments(f));
    match f.kind.value {
      case TextKind => TextIsSet(c, field, f);
      case Code128 => Code128IsSet(c, field, f);
      case DataMatrix => DataMatrixIsSet(c, field, f);
    }
  }

  lemma RunFormat(c: Contract, l: OpenLabel, f: Field, ts: seq<Token>) returns (m: OpenLabel)
    requires LegalLayout(c.layout) && l.utf8 && Canonical(c, f) && l.field == EMPTY_FIELD.(origin := f.origin)
    requires f.kind == Some(Code128) ==> l.moduleDots == f.moduleDots
    ensures Run(Zpl(c), [FormatToken(f)] + ts, Inside(l)) == Run(Zpl(c), ts, Inside(m))
    ensures m.utf8 && m.placed == l.placed && m.field == f.(hexMode := false)
  {
    FormatIsSet(c, l.field, f, l.moduleDots);
    m := Extend(l.(field := f.(hexMode := false)), FormatToken(f).Text());
    R.RunHead(Zpl(c), FormatToken(f), ts, Inside(l), Inside(m));
  }

  lemma RunData(c: Contract, l: OpenLabel, p: Placed, ts: seq<Token>) returns (m: OpenLabel)
    requires l.utf8 && Canonical(c, p.field) && l.field == p.field.(hexMode := false)
    requires |l.placed| < c.layout.maxFields && Validate(c, p.field, p.source).Some?
    ensures Run(Zpl(c), [Command(FH, "_")] + ([Data(p.source)] + ts), Inside(l)) == Run(Zpl(c), ts, Inside(m))
    ensures Ready(m) && m.placed == l.placed + [p]
  {
    var g, escape, data := Zpl(c), Command(FH, "_"), Data(p.source);
    assert FollowedByData([data] + ts);
    var n := Extend(l.(field := p.field), escape.Text());
    R.RunHead(g, escape, [data] + ts, Inside(l), Inside(n));
    m := Extend(Place(c, n, p.source).value, data.Text());
    R.RunHead(g, data, ts, Inside(n), Inside(m));
  }

  lemma FieldTokensThen(p: Placed, ts: seq<Token>)
    requires p.field.origin.Some? && p.field.kind.Some?
    ensures
      var format := [FormatToken(p.field)] + ([Command(FH, "_")] + ([Data(p.source)] + ts));
      FieldTokens(p) + ts ==
      [OriginToken(p.field)] + (if p.field.kind == Some(Code128) then [DefaultsToken(p.field)] + format else format)
  {
  }

  lemma RunField(c: Contract, l: OpenLabel, p: Placed, ts: seq<Token>) returns (m: OpenLabel)
    requires LegalLayout(c.layout) && Ready(l) && Canonical(c, p.field) && |l.placed| < c.layout.maxFields
    requires Validate(c, p.field, p.source).Some?
    ensures Run(Zpl(c), FieldTokens(p) + ts, Inside(l)) == Run(Zpl(c), ts, Inside(m))
    ensures Ready(m) && m.placed == l.placed + [p]
  {
    var data := [Command(FH, "_")] + ([Data(p.source)] + ts);
    var format := [FormatToken(p.field)] + data;
    FieldTokensThen(p, ts);
    if p.field.kind == Some(Code128) {
      var a := RunOrigin(c, l, p.field, [DefaultsToken(p.field)] + format);
      var b := RunDefaults(c, a, p.field, format);
      var d := RunFormat(c, b, p.field, data);
      m := RunData(c, d, p, ts);
    } else {
      var a := RunOrigin(c, l, p.field, format);
      var d := RunFormat(c, a, p.field, data);
      m := RunData(c, d, p, ts);
    }
  }

  lemma RunClose(c: Contract, l: OpenLabel)
    requires Ready(l) && l.placed != []
    ensures Run(Zpl(c), [Command(XZ, "")], Inside(l)) == Some([Envelope(l.text + "^XZ", l.placed)])
  {
    var g, t := Zpl(c), Command(XZ, "");
    var e := Envelope(l.text + t.Text(), l.placed);
    assert t.Text() == "^XZ";
    R.RunCons(g, t, [], Inside(l), Step(Outside, [e]), []);
    assert [t] + [] == [t] && [e] + [] == [e];
  }

  lemma {:induction false} RunDesign(c: Contract, l: OpenLabel, placed: seq<Placed>) returns (text: string)
    requires LegalLayout(c.layout) && Ready(l) && (l.placed != [] || placed != [])
    requires |l.placed| + |placed| <= c.layout.maxFields
    requires Complete(placed)
    requires forall i :: 0 <= i < |placed| ==>
      Canonical(c, placed[i].field) && Validate(c, placed[i].field, placed[i].source).Some?
    ensures Run(Zpl(c), DesignTokens(placed), Inside(l)) == Some([Envelope(text, l.placed + placed)])
    decreases |placed|
  {
    if placed == [] {
      RunClose(c, l);
      text := l.text + "^XZ";
      assert l.placed + [] == l.placed;
    } else {
      var m := RunField(c, l, placed[0], DesignTokens(placed[1..]));
      text := RunDesign(c, m, placed[1..]);
      Uncons(placed);
      Associative(l.placed, [placed[0]], placed[1..]);
    }
  }

  lemma RunStart(c: Contract, ts: seq<Token>) returns (m: OpenLabel)
    ensures Run(Zpl(c), [Command(XA, "")] + ([Command(CI, "28")] + ts), Outside) == Run(Zpl(c), ts, Inside(m))
    ensures Ready(m) && m.placed == []
  {
    var g, open, encoding := Zpl(c), Command(XA, ""), Command(CI, "28");
    var l := Opened(open.Text());
    m := Extend(l.(utf8 := true), encoding.Text());
    TrimLeftPlain("28");
    R.RunHead(g, open, [encoding] + ts, Outside, Inside(l));
    R.RunHead(g, encoding, ts, Inside(l), Inside(m));
  }

  lemma RunLabel(c: Contract, placed: seq<Placed>) returns (text: string)
    requires LegalLayout(c.layout) && 1 <= |placed| <= c.layout.maxFields
    requires Complete(placed)
    requires forall i :: 0 <= i < |placed| ==>
      Canonical(c, placed[i].field) && Validate(c, placed[i].field, placed[i].source).Some?
    ensures Run(Zpl(c), LabelOf(placed), Outside) == Some([Envelope(text, placed)])
  {
    var m := RunStart(c, DesignTokens(placed));
    text := RunDesign(c, m, placed);
    assert [] + placed == placed;
  }

  lemma FitsIsPlain(c: Contract, p: Placed)
    requires Fitting(c, p)
    ensures Validate(c, p.field, p.source).Some? && '^' !in p.source
  {
    var text :| Fits(c, p, text);
    ValidMeansFits(c, p, text);
    EscapeFieldIsText(c.control, text, p.field.kind == Some(DataMatrix));
    EscapedIsPlain(Prepared(text, p.field.kind == Some(DataMatrix)));
  }

  /** Every design that fits can be printed: its report is accepted and holds exactly the fields of the design. */
  lemma DesignRoundTrip(c: Contract, placed: seq<Placed>) returns (source: string, e: Envelope)
    requires LegalLayout(c.layout) && Design(c, placed)
    ensures Complete(placed) && source == Texts(Zpl(c), LabelOf(placed))
    ensures Labels(c, source) == Some([e]) && e == Envelope(source, placed)
  {
    forall i | 0 <= i < |placed|
      ensures Validate(c, placed[i].field, placed[i].source).Some? && '^' !in placed[i].source
    {
      FitsIsPlain(c, placed[i]);
    }
    source := Texts(Zpl(c), LabelOf(placed));
    LabelIsReadable(placed);
    ReadTokens(c, LabelOf(placed));
    var text := RunLabel(c, placed);
    e := Envelope(text, placed);
    WholeSource(c, placed, e);
  }

  lemma {:induction false} DesignEnds(placed: seq<Placed>)
    requires Complete(placed)
    ensures DesignTokens(placed) != [] && DesignTokens(placed)[|DesignTokens(placed)| - 1] == Command(XZ, "")
    decreases |placed|
  {
    if placed != [] {
      DesignEnds(placed[1..]);
    }
  }

  lemma NoGaps(before: string, text: string, after: string)
    requires AllSpace(before) && AllSpace(after)
    requires
      var s := before + (text + after);
      |s| >= 6 && s[..3] == "^XA" && s[|s| - 3..] == "^XZ"
    ensures before == "" && after == ""
  {
    var s := before + (text + after);
    assert s[0] == s[..3][0] && s[|s| - 1] == s[|s| - 3..][2];
  }

  /** The printed label is the whole of its report. */
  lemma WholeSource(c: Contract, placed: seq<Placed>, e: Envelope)
    requires Complete(placed) && Labels(c, Texts(Zpl(c), LabelOf(placed))) == Some([e])
    ensures e.text == Texts(Zpl(c), LabelOf(placed))
  {
    var ts := LabelOf(placed);
    DesignEnds(placed);
    assert ts[|ts| - 1] == DesignTokens(placed)[|DesignTokens(placed)| - 1];
    M.Ends(c, ts);
    var gaps := M.ReportIsPartitioned(c, Texts(Zpl(c), ts), [e]);
    var texts := R.LabelTexts([e]);
    assert texts[1..] == [] && R.Interleave(gaps, texts) == gaps[0] + (e.text + gaps[1]);
    NoGaps(gaps[0], e.text, gaps[1]);
    assert "" + (e.text + "") == e.text;
  }

  lemma LabelIsReadable(placed: seq<Placed>)
    requires Complete(placed) && forall i :: 0 <= i < |placed| ==> '^' !in placed[i].source
    ensures AllReadable(LabelOf(placed))
  {
    DesignIsReadable(placed);
  }

  // ----- every accepted field is canonical -----

  /** A field under construction, after any number of its commands. */
  predicate Partial(c: Contract, f: Field) {
    && (f.origin.Some? ==> f.origin.value.x < c.layout.widthDots && f.origin.value.y < c.layout.heightDots)
    && (f.kind.None? ==> f.height == f.width == f.moduleDots == f.columns == f.rows == 0)
    && (f.kind.Some? ==> Canonical(c, f.(hexMode := true, origin := Some(Origin(false, 0, 0)))))
  }

  predicate Sound(c: Contract, l: OpenLabel) {
    && l.moduleDots <= 10 && Partial(c, l.field)
    && forall i :: 0 <= i < |l.placed| ==> Canonical(c, l.placed[i].field)
  }

  predicate SoundLabels(c: Contract, es: seq<Envelope>) {
    forall k :: 0 <= k < |es| ==> forall i :: 0 <= i < |es[k].placed| ==> Canonical(c, es[k].placed[i].field)
  }

  lemma ExecuteKeepsSound(c: Contract, l: OpenLabel, name: Name, arguments: string, ahead: bool, m: OpenLabel)
    requires LegalLayout(c.layout) && Sound(c, l) && Execute(c, l, name, arguments, ahead) == Some(m)
    ensures Sound(c, m)
  {
  }

  lemma PlaceKeepsSound(c: Contract, l: OpenLabel, source: string, m: OpenLabel)
    requires LegalLayout(c.layout) && Sound(c, l) && Place(c, l, source) == Some(m)
    ensures Sound(c, m)
  {
  }

  lemma AdvanceKeepsSound(c: Contract, mode: Mode, t: Token, ahead: bool, step: Step)
    requires LegalLayout(c.layout) && (mode.Inside? ==> Sound(c, mode.draft))
    requires Advance(c, mode, t, ahead) == Some(step)
    ensures (step.mode.Inside? ==> Sound(c, step.mode.draft)) && SoundLabels(c, step.closed)
  {
    if mode.Inside? {
      if t.Data? {
        PlaceKeepsSound(c, mode.draft, t.source, Place(c, mode.draft, t.source).value);
      } else if t.Command? && !Delimits(t) {
        var next := Execute(c, mode.draft, t.name, t.Arguments(), ahead).value;
        ExecuteKeepsSound(c, mode.draft, t.name, t.Arguments(), ahead, next);
      }
    }
  }

  lemma {:induction false} RunKeepsSound(c: Contract, ts: seq<Token>, mode: Mode, es: seq<Envelope>)
    requires LegalLayout(c.layout) && (mode.Inside? ==> Sound(c, mode.draft)) && Run(Zpl(c), ts, mode) == Some(es)
    ensures SoundLabels(c, es)
    decreases |ts|
  {
    if ts != [] {
      var t, tail, step, rest := R.RunUncons(Zpl(c), ts, mode, es);
      AdvanceKeepsSound(c, mode, t, FollowedByData(tail), step);
      RunKeepsSound(c, tail, step.mode, rest);
    }
  }

  /** Every label of every accepted report is a design. */
  lemma LabelIsDesign(c: Contract, source: string, es: seq<Envelope>, k: nat)
    requires LegalLayout(c.layout) && Labels(c, source) == Some(es) && k < |es|
    ensures Design(c, es[k].placed)
  {
    RunKeepsSound(c, Tokens(Zpl(c), source).value, Outside, es);
    G.FieldsFit(c, source, es, k);
  }
}
