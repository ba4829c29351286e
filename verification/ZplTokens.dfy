/**
 * Reports as sequences of tokens, read by a lexer and run by a state machine. The results that need only a few
 * laws of the two are proved for every lexer and machine that keep those laws.
 */
module ZplTokens {
  import opened Common
  import opened Text
  import opened ZplFields

  predicate Space(c: char) {
    c == ' ' || c == '\r' || c == '\n' || c == '\t'
  }

  predicate AllSpace(s: string) {
    forall i :: 0 <= i < |s| ==> Space(s[i])
  }

  function TrimLeft(s: string): string {
    if s == "" || !Space(s[0]) then s else TrimLeft(s[1..])
  }

  datatype Name = XA | XZ | CI | FO | FT | BY | A0 | BC | BX | FH | Other(code: string)

  function Code(name: Name): string {
    match name
    case XA => "XA"
    case XZ => "XZ"
    case CI => "CI"
    case FO => "FO"
    case FT => "FT"
    case BY => "BY"
    case A0 => "A0"
    case BC => "BC"
    case BX => "BX"
    case FH => "FH"
    case Other(code) => code
  }

  /** A blank, a command with the text up to its last significant character, or field data. */
  datatype Token = Blank(c: char) | Command(name: Name, raw: string) | Data(source: string) {
    function Text(): (text: string)
      ensures text != ""
    {
      match this
      case Blank(c) => [c]
      case Command(name, raw) => "^" + Code(name) + raw
      case Data(source) => "^FD" + source + "^FS"
    }

    function Arguments(): string
      requires Command?
    {
      TrimLeft(raw)
    }
  }

  predicate IsCommand(t: Token, name: Name) {
    t.Command? && t.name == name
  }

  // ----- languages -----

  /** A label under construction: its text so far and the fields placed on it. */
  datatype OpenLabel = OpenLabel(text: string, utf8: bool, moduleDots: nat, field: Field, placed: seq<Placed>)

  datatype Mode = Outside | Inside(draft: OpenLabel)

  /** A finished label. */
  datatype Envelope = Envelope(text: string, placed: seq<Placed>)

  datatype Step = Step(mode: Mode, closed: seq<Envelope>)

  /**
   * A lexer and a machine. `read` reads the token at the front of a text, `text` is the text of a token, and `step` is
   * the effect of one token; its flag says that the next significant token is field data.
   */
  datatype Language = Language(
    read: string -> Option<Token>,
    text: Token -> string,
    step: (Mode, Token, bool) -> Option<Step>,
    bare: Token -> bool)

  function Texts(g: Language, ts: seq<Token>): string {
    if ts == [] then "" else g.text(ts[0]) + Texts(g, ts[1..])
  }

  function Tokens(g: Language, s: string): Option<seq<Token>>
    decreases |s|
  {
    if s == "" then Some([])
    else
      match g.read(s)
      case None => None
      case Some(t) =>
        if g.text(t) == "" || !(g.text(t) <= s) then None
        else
          match Tokens(g, s[|g.text(t)|..])
          case None => None
          case Some(rest) => Some([t] + rest)
  }

  predicate FollowedByData(ts: seq<Token>) {
    ts != [] && (ts[0].Data? || (ts[0].Blank? && FollowedByData(ts[1..])))
  }

  /** The labels of a whole sequence of tokens, which must end outside a label. */
  function Run(g: Language, ts: seq<Token>, mode: Mode): Option<seq<Envelope>>
    decreases |ts|
  {
    if ts == [] then if mode.Outside? then Some([]) else None
    else
      match g.step(mode, ts[0], FollowedByData(ts[1..]))
      case None => None
      case Some(step) =>
        match Run(g, ts[1..], step.mode)
        case None => None
        case Some(rest) => Some(step.closed + rest)
  }

  /** The labels of a report. */
  function Report(g: Language, source: string): Option<seq<Envelope>> {
    match Tokens(g, source)
    case None => None
    case Some(ts) => Run(g, ts, Outside)
  }

  // ----- laws of the lexer -----

  /** Only blanks stand before the first command prefix. */
  predicate Clean(s: string) {
    AllSpace(s[..IndexOf(s, '^')])
  }

  predicate ReadsBlank(g: Language, s: string, t: Token)
    requires s != ""
  {
    if Space(s[0]) then t == Blank(s[0]) && g.text(t) == [s[0]] else s[0] == '^' && !t.Blank?
  }

  /** A blank is a token of its own, and every other token begins with the command prefix. */
  ghost predicate ReadsBlanks(g: Language) {
    forall s :: g.read(s).Some? ==> s != "" && ReadsBlank(g, s, g.read(s).value)
  }

  /** A token does not depend on what follows it, beyond the next command prefix. */
  ghost predicate IgnoresMore(g: Language) {
    forall s, more :: g.read(s).Some? && Clean(more) ==> g.read(s + more) == g.read(s)
  }

  ghost predicate IgnoresLess(g: Language) {
    forall s, more ::
      g.read(s + more).Some? && |g.text(g.read(s + more).value)| <= |s| ==> g.read(s) == g.read(s + more)
  }

  /** Opening and closing commands without arguments are read without trailing blanks. */
  ghost predicate ReadsTrimmed(g: Language) {
    forall s :: g.read(s).Some? && g.read(s).value.Command? && g.bare(g.read(s).value) ==> g.read(s).value.raw == ""
  }

  // ----- laws of the machine -----

  predicate Delimits(t: Token) {
    IsCommand(t, XA) || IsCommand(t, XZ)
  }

  /** Inside a label a step closes it with its text complete, or goes on with the token's text added. */
  predicate InsideStep(g: Language, l: OpenLabel, t: Token, step: Step) {
    if IsCommand(t, XZ) then
      g.bare(t) && step.mode.Outside? && step.closed == [Envelope(l.text + g.text(t), l.placed)]
    else
      !IsCommand(t, XA) && step.mode.Inside? && step.closed == [] && step.mode.draft.text == l.text + g.text(t)
  }

  /** Outside a label, blanks change nothing, and only a bare opening command is possible. */
  predicate OutsideStep(g: Language, t: Token, step: Step) {
    if t.Blank? then step == Step(Outside, [])
    else IsCommand(t, XA) && g.bare(t) && step.mode.Inside? && step.closed == [] && step.mode.draft.text == g.text(t)
  }

  ghost predicate StepsInside(g: Language) {
    forall l, t, ahead :: g.step(Inside(l), t, ahead).Some? ==> InsideStep(g, l, t, g.step(Inside(l), t, ahead).value)
  }

  ghost predicate StepsOutside(g: Language) {
    && (forall t, ahead :: g.step(Outside, t, ahead).Some? ==> OutsideStep(g, t, g.step(Outside, t, ahead).value))
    && (forall t: Token, ahead :: t.Blank? ==> g.step(Outside, t, ahead).Some?)
  }

  /** Data further ahead never stops a step, and does not matter to a step that opens or closes a label. */
  ghost predicate LooksAhead(g: Language) {
    forall m, t :: g.step(m, t, false).Some? || Delimits(t) ==> g.step(m, t, true) == g.step(m, t, false)
  }

  ghost predicate Lawful(g: Language) {
    && ReadsBlanks(g) && IgnoresMore(g) && IgnoresLess(g) && ReadsTrimmed(g)
    && StepsInside(g) && StepsOutside(g) && LooksAhead(g)
  }
}
