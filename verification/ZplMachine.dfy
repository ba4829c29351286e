/** The state machine over the tokens of a report: which sequences of commands make labels. */
module ZplMachine {
  import opened Common
  import opened Text
  import opened ZplFields
  import opened ZplTokens
  import opened ZplLexer

  function Opened(text: string): OpenLabel {
    OpenLabel(text, false, 0, EMPTY_FIELD, [])
  }

  // ----- the effect of one command on an open label; its text is extended by the caller -----

  function SetOrigin(c: Contract, l: OpenLabel, baseline: bool, arguments: string): Option<OpenLabel> {
    var values := Split(arguments, ',');
    if l.field.origin.Some? || |values| != 2 || c.layout.widthDots == 0 || c.layout.heightDots == 0 then None
    else
      var x, y := Integer(values[0], 0, c.layout.widthDots - 1), Integer(values[1], 0, c.layout.heightDots - 1);
      if x.None? || y.None? then None
      else Some(l.(field := l.field.(origin := Some(Origin(baseline, x.value, y.value)))))
  }

  function SetBarcodeDefaults(c: Contract, l: OpenLabel, arguments: string): Option<OpenLabel> {
    var values := Split(arguments, ',');
    if l.field.hexMode || |values| > 3 then None
    else
      var moduleDots := Integer(values[0], 1, 10);
      if moduleDots.None? then None
      else if |values| > 1 && !c.ratio(values[1]) then None
      else if |values| > 2 && Integer(values[2], 1, c.layout.heightDots).None? then None
      else Some(l.(moduleDots := moduleDots.value))
  }

  function SetKind(c: Contract, l: OpenLabel, kind: Kind, arguments: string): Option<OpenLabel> {
    match SetFormat(l.field, kind, arguments, l.moduleDots, c.layout)
    case None => None
    case Some(field) => Some(l.(field := field))
  }

  /** The commands that stay inside a label; `beforeData` says that field data follows immediately. */
  function Execute(c: Contract, l: OpenLabel, name: Name, arguments: string, beforeData: bool): Option<OpenLabel> {
    match name
    case CI =>
      if l.utf8 || l.placed != [] || l.field != EMPTY_FIELD || arguments != "28" then None else Some(l.(utf8 := true))
    case FO => if l.utf8 then SetOrigin(c, l, false, arguments) else None
    case FT => if l.utf8 then SetOrigin(c, l, true, arguments) else None
    case BY => if l.utf8 then SetBarcodeDefaults(c, l, arguments) else None
    case A0 => if l.utf8 then SetKind(c, l, TextKind, arguments) else None
    case BC => if l.utf8 then SetKind(c, l, Code128, arguments) else None
    case BX => if l.utf8 then SetKind(c, l, DataMatrix, arguments) else None
    case FH =>
      if !l.utf8 || l.field.kind.None? || l.field.origin.None? || l.field.hexMode || arguments != "_" || !beforeData
      then None else Some(l.(field := l.field.(hexMode := true)))
    case _ => None
  }

  function Place(c: Contract, l: OpenLabel, source: string): Option<OpenLabel> {
    if Validate(c, l.field, source).None? || |l.placed| + 1 > c.layout.maxFields then None
    else Some(l.(field := EMPTY_FIELD, placed := l.placed + [Placed(l.field, source)]))
  }

  function Extend(l: OpenLabel, text: string): OpenLabel {
    l.(text := l.text + text)
  }

  /** One token. */
  function Advance(c: Contract, mode: Mode, t: Token, beforeData: bool): Option<Step> {
    match t
    case Blank(_) => Some(Step(if mode.Outside? then Outside else Inside(Extend(mode.draft, t.Text())), []))
    case Data(source) =>
      if mode.Outside? then None
      else
        (match Place(c, mode.draft, source)
         case None => None
         case Some(l) => Some(Step(Inside(Extend(l, t.Text())), [])))
    case Command(name, _) =>
      var arguments := t.Arguments();
      if name == XA then
        if mode.Inside? || arguments != "" then None else Some(Step(Inside(Opened(t.Text())), []))
      else if mode.Outside? then None
      else if name == XZ then
        var l := mode.draft;
        if arguments != "" || !l.utf8 || l.placed == [] || l.field != EMPTY_FIELD then None
        else Some(Step(Outside, [Envelope(l.text + t.Text(), l.placed)]))
      else
        match Execute(c, mode.draft, name, arguments, beforeData)
        case None => None
        case Some(l) => Some(Step(Inside(Extend(l, t.Text())), []))
  }

  /** A command without arguments. */
  predicate Bare(t: Token) {
    t.Command? && t.Arguments() == ""
  }

  /** The language of reports for one contract. */
  function Zpl(c: Contract): Language {
    Language(Lex, (t: Token) => t.Text(), (mode, t, ahead) => Advance(c, mode, t, ahead), Bare)
  }

  /** The labels of a report, before the caps on its size. */
  function Labels(c: Contract, source: string): Option<seq<Envelope>> {
    Report(Zpl(c), source)
  }

  // ----- the laws -----

  lemma AdvanceInside(c: Contract, l: OpenLabel, t: Token, ahead: bool)
    requires Advance(c, Inside(l), t, ahead).Some?
    ensures InsideStep(Zpl(c), l, t, Advance(c, Inside(l), t, ahead).value)
  {
  }

  lemma AdvanceOutside(c: Contract, t: Token, ahead: bool)
    requires Advance(c, Outside, t, ahead).Some?
    ensures OutsideStep(Zpl(c), t, Advance(c, Outside, t, ahead).value)
  {
  }

  /** Looking further ahead never changes a step that was possible without it. */
  lemma AdvanceAhead(c: Contract, mode: Mode, t: Token)
    requires Advance(c, mode, t, false).Some? || Delimits(t)
    ensures Advance(c, mode, t, true) == Advance(c, mode, t, false)
  {
  }

  lemma LexerIsLawful(c: Contract)
    ensures ReadsBlanks(Zpl(c)) && IgnoresMore(Zpl(c)) && IgnoresLess(Zpl(c)) && ReadsTrimmed(Zpl(c))
  {
    var g := Zpl(c);
    forall s, more | g.read(s).Some? && Clean(more)
      ensures g.read(s + more) == g.read(s)
    {
      LexExtend(s, more);
    }
    forall s, more | g.read(s + more).Some? && |g.text(g.read(s + more).value)| <= |s|
      ensures g.read(s) == g.read(s + more)
    {
      LexTruncate(s + more, |s|);
      assert (s + more)[..|s|] == s;
    }
    forall s | g.read(s).Some? && g.read(s).value.Command? && g.bare(g.read(s).value)
      ensures g.read(s).value.raw == ""
    {
      LexTrimmed(s);
    }
  }

  lemma MachineIsLawful(c: Contract)
    ensures StepsInside(Zpl(c)) && StepsOutside(Zpl(c)) && LooksAhead(Zpl(c))
  {
    var g := Zpl(c);
    forall l, t, ahead | g.step(Inside(l), t, ahead).Some?
      ensures InsideStep(g, l, t, g.step(Inside(l), t, ahead).value)
    {
      AdvanceInside(c, l, t, ahead);
    }
    forall t, ahead | g.step(Outside, t, ahead).Some?
      ensures OutsideStep(g, t, g.step(Outside, t, ahead).value)
    {
      AdvanceOutside(c, t, ahead);
    }
    forall m, t | g.step(m, t, false).Some? || Delimits(t)
      ensures g.step(m, t, true) == g.step(m, t, false)
    {
      AdvanceAhead(c, m, t);
    }
  }

  /** The lexer and the machine keep the laws that every result about reports rests on. */
  lemma ZplIsLawful(c: Contract)
    ensures Lawful(Zpl(c))
  {
    LexerIsLawful(c);
    MachineIsLawful(c);
  }
}
