/** The splitter of reports: one pass over the text with an offset, proved to compute the labels of the report. */
module ZplSplit {
  import opened Common
  import opened Text
  import opened Utf8
  import opened ZplEscape
  import opened ZplFields
  import opened ZplTokens
  import opened ZplLexer
  import opened ZplMachine
  import R = ZplReports

  const MAX_CONTENT := 2 * 1024 * 1024
  const MAX_COMMANDS := 500 * 1024

  // ----- what is to be computed -----

  function Commands(ts: seq<Token>): nat {
    if ts == [] then 0 else (if ts[0].Blank? then 0 else 1) + Commands(ts[1..])
  }

  /** The number of commands and the labels of what lies ahead. */
  datatype Tally = Tally(commands: nat, labels: seq<Envelope>)

  function TallyOf(g: Language, ts: seq<Token>, mode: Mode): Option<Tally> {
    match Run(g, ts, mode)
    case None => None
    case Some(es) => Some(Tally(Commands(ts), es))
  }

  function Outlook(g: Language, source: string, mode: Mode): Option<Tally> {
    match Tokens(g, source)
    case None => None
    case Some(ts) => TallyOf(g, ts, mode)
  }

  function Contents(es: seq<Envelope>): (contents: seq<Bytes>)
    ensures |contents| == |es|
    ensures forall i :: 0 <= i < |es| ==> contents[i] == Encode(es[i].text)
  {
    seq(|es|, i requires 0 <= i < |es| => Encode(es[i].text))
  }

  /** The caps on what a report may hold. */
  function Judge(outlook: Option<Tally>, maxLabels: nat): Option<seq<Envelope>> {
    match outlook
    case None => None
    case Some(tally) =>
      if tally.commands > MAX_COMMANDS || !(1 <= |tally.labels| <= maxLabels) then None else Some(tally.labels)
  }

  /** The labels of a report, or nothing where any check fails. */
  function Accepted(c: Contract, content: Bytes, maxLabels: nat): Option<seq<Envelope>> {
    if !(0 < |content| <= MAX_CONTENT) || !(1 <= maxLabels <= 500) || Decode(content).None? then None
    else Judge(Outlook(Zpl(c), Decode(content).value, Outside), maxLabels)
  }

  // ----- one token at a time -----

  function Add(commands: nat, labels: seq<Envelope>, rest: Option<Tally>): Option<Tally> {
    match rest
    case None => None
    case Some(tally) => Some(Tally(commands + tally.commands, labels + tally.labels))
  }

  lemma AddTwice(a: nat, es: seq<Envelope>, b: nat, fs: seq<Envelope>, rest: Option<Tally>)
    ensures Add(a, es, Add(b, fs, rest)) == Add(a + b, es + fs, rest)
  {
    if rest.Some? {
      Associative(es, fs, rest.value.labels);
    }
  }

  lemma CommandsHead(t: Token, ts: seq<Token>)
    ensures Commands([t] + ts) == (if t.Blank? then 0 else 1) + Commands(ts)
  {
    assert ([t] + ts)[1..] == ts;
  }

  lemma TallyHead(g: Language, t: Token, ts: seq<Token>, mode: Mode)
    ensures TallyOf(g, [t] + ts, mode) ==
      match g.step(mode, t, FollowedByData(ts))
      case None => None
      case Some(step) => Add(if t.Blank? then 0 else 1, step.closed, TallyOf(g, ts, step.mode))
  {
    CommandsHead(t, ts);
    R.RunStep(g, t, ts, mode);
  }

  /** What one token contributes, when what follows it is well formed. */
  lemma OutlookToken(g: Language, t: Token, rest: string, mode: Mode)
    requires g.text(t) != "" && g.read(g.text(t) + rest) == Some(t)
    ensures Outlook(g, g.text(t) + rest, mode) ==
      match Tokens(g, rest)
      case None => None
      case Some(us) =>
        match g.step(mode, t, FollowedByData(us))
        case None => None
        case Some(step) => Add(if t.Blank? then 0 else 1, step.closed, Outlook(g, rest, step.mode))
  {
    R.TokensHead(g, g.text(t) + rest, t, rest);
    if Tokens(g, rest).Some? {
      TallyHead(g, t, Tokens(g, rest).value, mode);
    }
  }

  /** Blanks only lengthen the text of the label they stand in. */
  function Skip(mode: Mode, blanks: string): Mode {
    if mode.Outside? then Outside else Inside(Extend(mode.draft, blanks))
  }

  lemma SkipTwice(mode: Mode, a: string, b: string)
    ensures Skip(Skip(mode, a), b) == Skip(mode, a + b)
  {
    if mode.Inside? {
      Associative(mode.draft.text, a, b);
    }
  }

  lemma OutlookBlank(c: Contract, b: char, rest: string, mode: Mode)
    requires Space(b)
    ensures Outlook(Zpl(c), [b] + rest, mode) == Outlook(Zpl(c), rest, Skip(mode, [b]))
  {
    var g, t := Zpl(c), Blank(b);
    assert g.text(t) == [b] && ([b] + rest)[0] == b;
    OutlookToken(g, t, rest, mode);
    assert Advance(c, mode, t, true) == Advance(c, mode, t, false) == Some(Step(Skip(mode, [b]), []));
    if Outlook(g, rest, Skip(mode, [b])).Some? {
      var tally := Outlook(g, rest, Skip(mode, [b])).value;
      assert [] + tally.labels == tally.labels;
    }
  }

  lemma {:induction false} OutlookBlanks(c: Contract, blanks: string, rest: string, mode: Mode)
    requires AllSpace(blanks)
    ensures Outlook(Zpl(c), blanks + rest, mode) == Outlook(Zpl(c), rest, Skip(mode, blanks))
    decreases |blanks|
  {
    if blanks == "" {
      assert "" + rest == rest;
      assert mode.Inside? ==> mode.draft.text + "" == mode.draft.text;
    } else {
      Uncons(blanks);
      Associative([blanks[0]], blanks[1..], rest);
      OutlookBlank(c, blanks[0], blanks[1..] + rest, mode);
      OutlookBlanks(c, blanks[1..], rest, Skip(mode, [blanks[0]]));
      SkipTwice(mode, [blanks[0]], blanks[1..]);
    }
  }

  // ----- looking ahead in the text -----

  predicate StartsData(s: string) {
    |s| >= 3 && s[0] == '^' && s[1] == 'F' && s[2] == 'D'
  }

  /** A text at a command prefix, or at its end. */
  predicate AtCommand(s: string) {
    s == "" || s[0] == '^'
  }

  lemma DataAhead(c: Contract, s: string, ts: seq<Token>)
    requires AtCommand(s) && Tokens(Zpl(c), s) == Some(ts)
    ensures FollowedByData(ts) <==> StartsData(s)
  {
    if s != "" {
      var t, rest, us := R.TokensUncons(Zpl(c), s, ts);
      assert ts[0] == t;
      LexKind(s, t);
    }
  }

  lemma LexKind(s: string, t: Token)
    requires s != "" && s[0] == '^' && Lex(s) == Some(t)
    ensures !t.Blank? && (t.Data? <==> StartsData(s))
  {
    assert s[1..3] == [s[1], s[2]];
    assert FIELD_DATA == ['F', 'D'];
  }

  lemma {:induction false} BlanksAhead(g: Language, blanks: string, s: string, ts: seq<Token>) returns (us: seq<Token>)
    requires ReadsBlanks(g) && AllSpace(blanks) && Tokens(g, blanks + s) == Some(ts)
    ensures Tokens(g, s) == Some(us) && FollowedByData(ts) == FollowedByData(us)
    decreases |blanks|
  {
    if blanks == "" {
      assert blanks + s == s;
      us := ts;
    } else {
      var t, rest, tail := R.TokensUncons(g, blanks + s, ts);
      assert ReadsBlank(g, blanks + s, t);
      BlankOff(blanks, s, rest);
      us := BlanksAhead(g, blanks[1..], s, tail);
      assert ts[0] == t && ts[1..] == tail;
    }
  }

  lemma BlankOff(blanks: string, s: string, rest: string)
    requires blanks != "" && blanks + s == [blanks[0]] + rest
    ensures rest == blanks[1..] + s
  {
    assert rest == ([blanks[0]] + rest)[1..] == (blanks + s)[1..];
  }

  lemma DataBehind(c: Contract, blanks: string, s: string, ts: seq<Token>)
    requires AllSpace(blanks) && AtCommand(s) && Tokens(Zpl(c), blanks + s) == Some(ts)
    ensures FollowedByData(ts) <==> StartsData(s)
  {
    LexerIsLawful(c);
    var us := BlanksAhead(Zpl(c), blanks, s, ts);
    DataAhead(c, s, us);
  }

  /** A command with the blanks after it, up to the next command or the end. */
  lemma OutlookCommand(c: Contract, t: Token, blanks: string, rest: string, mode: Mode)
    requires t.Command? && AllSpace(blanks) && AtCommand(rest) && Lex(t.Text() + (blanks + rest)) == Some(t)
    ensures Outlook(Zpl(c), t.Text() + (blanks + rest), mode) ==
      match Advance(c, mode, t, StartsData(rest))
      case None => None
      case Some(step) => Add(1, step.closed, Outlook(Zpl(c), rest, Skip(step.mode, blanks)))
  {
    var g := Zpl(c);
    OutlookToken(g, t, blanks + rest, mode);
    if Tokens(g, blanks + rest).Some? {
      DataBehind(c, blanks, rest, Tokens(g, blanks + rest).value);
    }
    var step := Advance(c, mode, t, StartsData(rest));
    if step.Some? {
      OutlookBlanks(c, blanks, rest, step.value.mode);
    }
  }

  /** Field data, whatever follows it. */
  lemma OutlookData(c: Contract, source: string, rest: string, mode: Mode)
    requires Lex(Data(source).Text() + rest) == Some(Data(source))
    ensures Outlook(Zpl(c), Data(source).Text() + rest, mode) ==
      match Advance(c, mode, Data(source), false)
      case None => None
      case Some(step) => Add(1, step.closed, Outlook(Zpl(c), rest, step.mode))
  {
    OutlookToken(Zpl(c), Data(source), rest, mode);
    assert Advance(c, mode, Data(source), true) == Advance(c, mode, Data(source), false);
  }

  /** Nothing is accepted where no token can be read. */
  lemma OutlookNothing(c: Contract, s: string, mode: Mode)
    requires s != "" && Lex(s).None?
    ensures Outlook(Zpl(c), s, mode).None?
  {
  }

  // ----- the outlook, known by its laws -----

  /** What is ahead of a text and a state of the machine. */
  type Forecast = (string, Mode) -> Option<Tally>

  /** The effect of one token, as the machine gives it. */
  type Stepper = (Mode, Token, bool) -> Option<Step>

  ghost predicate StepsAs(c: Contract, step: Stepper) {
    forall mode, t, ahead :: step(mode, t, ahead) == Advance(c, mode, t, ahead)
  }

  /** The outlook after one token that closes `closed`. */
  function After(step: Option<Step>, blanks: string, o: Forecast, rest: string): Option<Tally> {
    match step
    case None => None
    case Some(step) => Add(1, step.closed, o(rest, Skip(step.mode, blanks)))
  }

  ghost predicate SkipsBlanks(o: Forecast) {
    forall b, rest, mode :: Space(b) ==> o([b] + rest, mode) == o(rest, Skip(mode, [b]))
  }

  ghost predicate TakesData(step: Stepper, o: Forecast) {
    forall source, rest, mode :: Lex(Data(source).Text() + rest) == Some(Data(source)) ==>
      o(Data(source).Text() + rest, mode) == After(step(mode, Data(source), false), "", o, rest)
  }

  ghost predicate TakesCommands(step: Stepper, o: Forecast) {
    forall t: Token, blanks, rest, mode ::
      t.Command? && AllSpace(blanks) && AtCommand(rest) && Lex(t.Text() + (blanks + rest)) == Some(t) ==>
      o(t.Text() + (blanks + rest), mode) == After(step(mode, t, StartsData(rest)), blanks, o, rest)
  }

  ghost predicate StopsWhereLexerStops(o: Forecast) {
    forall s, mode :: s != "" && Lex(s).None? ==> o(s, mode).None?
  }

  ghost predicate CountsCommands(o: Forecast) {
    forall s, mode :: s != "" && s[0] == '^' && o(s, mode).Some? ==> o(s, mode).value.commands >= 1
  }

  ghost predicate EndsOutside(o: Forecast) {
    forall mode :: o("", mode) == if mode.Outside? then Some(Tally(0, [])) else None
  }

  function Ahead(c: Contract): Forecast {
    (s, mode) => Outlook(Zpl(c), s, mode)
  }

  lemma SkipNothing(mode: Mode)
    ensures Skip(mode, "") == mode
  {
    if mode.Inside? {
      assert mode.draft.text + "" == mode.draft.text;
    }
  }

  lemma AheadTakesTokens(c: Contract)
    ensures SkipsBlanks(Ahead(c)) && TakesData(Zpl(c).step, Ahead(c)) && TakesCommands(Zpl(c).step, Ahead(c))
  {
    var o, step := Ahead(c), Zpl(c).step;
    forall b, rest, mode | Space(b)
      ensures o([b] + rest, mode) == o(rest, Skip(mode, [b]))
    {
      OutlookBlank(c, b, rest, mode);
    }
    forall source, rest, mode | Lex(Data(source).Text() + rest) == Some(Data(source))
      ensures o(Data(source).Text() + rest, mode) == After(step(mode, Data(source), false), "", o, rest)
    {
      OutlookData(c, source, rest, mode);
      var next := step(mode, Data(source), false);
      if next.Some? {
        SkipNothing(next.value.mode);
      }
    }
    forall t: Token, blanks, rest, mode |
      t.Command? && AllSpace(blanks) && AtCommand(rest) && Lex(t.Text() + (blanks + rest)) == Some(t)
      ensures o(t.Text() + (blanks + rest), mode) == After(step(mode, t, StartsData(rest)), blanks, o, rest)
    {
      OutlookCommand(c, t, blanks, rest, mode);
    }
  }

  lemma OutlookCounts(c: Contract, s: string, mode: Mode)
    requires s != "" && s[0] == '^' && Outlook(Zpl(c), s, mode).Some?
    ensures Outlook(Zpl(c), s, mode).value.commands >= 1
  {
    var ts := Tokens(Zpl(c), s).value;
    var t, rest, us := R.TokensUncons(Zpl(c), s, ts);
    LexKind(s, t);
    CommandsHead(t, us);
  }

  lemma AheadStops(c: Contract)
    ensures StopsWhereLexerStops(Ahead(c)) && CountsCommands(Ahead(c)) && EndsOutside(Ahead(c))
  {
    var o := Ahead(c);
    forall s, mode | s != "" && Lex(s).None?
      ensures o(s, mode).None?
    {
      OutlookNothing(c, s, mode);
    }
    forall s, mode | s != "" && s[0] == '^' && o(s, mode).Some?
      ensures o(s, mode).value.commands >= 1
    {
      OutlookCounts(c, s, mode);
    }
  }

  // ----- the checks of one field and one command -----

  /** The check of a complete field. */
  method CheckField(c: Contract, field: Field, source: string) returns (ok: bool)
    ensures ok <==> Validate(c, field, source).Some?
  {
    if field.origin.None? || field.kind.None? || !field.hexMode {
      return false;
    }
    var kind, origin := field.kind.value, field.origin.value;
    var decoded := DecodeField(c.control, source, kind == DataMatrix);
    if decoded.Err? {
      return false;
    }
    var text := decoded.value;
    var bytes := |Encode(text)|;
    if text == "" || bytes > ByteLimit(kind, c.layout) {
      return false;
    }
    var width, height := field.width, field.height;
    match kind {
      case TextKind =>
        width := width * |text|;
      case Code128 =>
        if !CodeSetB(text) {
          return false;
        }
        width := (11 * (|text| + 2) + 13 + 20) * field.moduleDots;
      case DataMatrix =>
        width := (field.columns + 2) * field.moduleDots;
        height := (field.rows + 2) * field.moduleDots;
        var overhead := if bytes <= 249 then 2 else 3;
        if field.columns !in CODEWORDS || bytes + overhead > CODEWORDS[field.columns] {
          return false;
        }
    }
    var top := if origin.baseline then origin.y - height else origin.y;
    return !(top < 0 || origin.x + width > c.layout.widthDots || top + height > c.layout.heightDots);
  }

  /** The commands that stay inside a label, on the variables of the splitter. */
  method Interpret(c: Contract, name: Name, arguments: string, dataNext: bool, utf8: bool, moduleDots: nat,
                   field: Field, fields: nat, ghost l: OpenLabel)
    returns (r: Option<(bool, nat, Field)>)
    requires l.utf8 == utf8 && l.moduleDots == moduleDots && l.field == field && |l.placed| == fields
    ensures Execute(c, l, name, arguments, dataNext) ==
      match r case None => None case Some((u, m, f)) => Some(l.(utf8 := u, moduleDots := m, field := f))
  {
    if name == CI {
      if utf8 || fields != 0 || field != EMPTY_FIELD || arguments != "28" {
        return None;
      }
      return Some((true, moduleDots, field));
    } else if !utf8 {
      return None;
    } else if name == FO || name == FT {
      var values := Split(arguments, ',');
      if field.origin.Some? || |values| != 2 || c.layout.widthDots == 0 || c.layout.heightDots == 0 {
        return None;
      }
      var x, y := Integer(values[0], 0, c.layout.widthDots - 1), Integer(values[1], 0, c.layout.heightDots - 1);
      if x.None? || y.None? {
        return None;
      }
      return Some((utf8, moduleDots, field.(origin := Some(Origin(name == FT, x.value, y.value)))));
    } else if name == BY {
      var values := Split(arguments, ',');
      if field.hexMode || |values| > 3 {
        return None;
      }
      var size := Integer(values[0], 1, 10);
      if size.None? || (|values| > 1 && !c.ratio(values[1])) {
        return None;
      }
      if |values| > 2 && Integer(values[2], 1, c.layout.heightDots).None? {
        return None;
      }
      return Some((utf8, size.value, field));
    } else if name == A0 || name == BC || name == BX {
      var kind := if name == A0 then TextKind else if name == BC then Code128 else DataMatrix;
      var formatted := SetFormat(field, kind, arguments, moduleDots, c.layout);
      if formatted.None? {
        return None;
      }
      return Some((utf8, moduleDots, formatted.value));
    } else if name == FH {
      if field.kind.None? || field.origin.None? || field.hexMode || arguments != "_" || !dataNext {
        return None;
      }
      return Some((utf8, moduleDots, field.(hexMode := true)));
    } else {
      return None;
    }
  }

  // ----- the pass over the text -----

  /** The variables of the splitter. */
  datatype Scan = Scan(
    offset: nat,
    start: Option<nat>,
    field: Field,
    fields: nat,
    utf8: bool,
    moduleDots: nat,
    commands: nat,
    labels: seq<Bytes>)

  /** The state of the machine that the variables stand for, given the fields placed on the open label. */
  ghost function ModeOf(source: string, s: Scan, placed: seq<Placed>): Mode
    requires s.offset <= |source| && (s.start.Some? ==> s.start.value <= s.offset)
  {
    if s.start.None? then Outside
    else Inside(OpenLabel(source[s.start.value..s.offset], s.utf8, s.moduleDots, s.field, placed))
  }

  /** What is left of the text decides the rest of the answer. */
  ghost predicate Good(o: Forecast, source: string, maxLabels: nat, s: Scan, placed: seq<Placed>, done: seq<Envelope>) {
    && s.offset <= |source| && (s.start.Some? ==> s.start.value <= s.offset)
    && s.fields == |placed|
    && s.labels == Contents(done) && |done| <= maxLabels && s.commands <= MAX_COMMANDS
    && o(source, Outside) == Add(s.commands, done, o(source[s.offset..], ModeOf(source, s, placed)))
  }

  ghost predicate Rejected(o: Forecast, source: string, maxLabels: nat) {
    Judge(o(source, Outside), maxLabels).None?
  }

  lemma NothingLeft(o: Forecast, source: string, maxLabels: nat, s: Scan, placed: seq<Placed>, done: seq<Envelope>)
    requires Good(o, source, maxLabels, s, placed, done) && o(source[s.offset..], ModeOf(source, s, placed)).None?
    ensures Rejected(o, source, maxLabels)
  {
  }

  lemma TooManyCommands(o: Forecast, source: string, maxLabels: nat, s: Scan, placed: seq<Placed>, done: seq<Envelope>)
    requires CountsCommands(o) && Good(o, source, maxLabels, s, placed, done) && s.commands == MAX_COMMANDS
    requires s.offset < |source| && source[s.offset] == '^'
    ensures Rejected(o, source, maxLabels)
  {
    var rest, mode := source[s.offset..], ModeOf(source, s, placed);
    assert rest[0] == '^';
    if o(rest, mode).Some? {
      assert o(rest, mode).value.commands >= 1;
    }
  }

  lemma JoinSlices(source: string, a: nat, b: nat, c: nat)
    requires a <= b <= c <= |source|
    ensures source[a..b] + source[b..c] == source[a..c]
  {
  }

  method TakeBlank(ghost o: Forecast, source: string, maxLabels: nat, s: Scan, ghost placed: seq<Placed>,
                   ghost done: seq<Envelope>)
    returns (r: Scan)
    requires SkipsBlanks(o)
    requires Good(o, source, maxLabels, s, placed, done) && s.offset < |source| && Space(source[s.offset])
    ensures Good(o, source, maxLabels, r, placed, done) && r.offset > s.offset
  {
    r := s.(offset := s.offset + 1);
    ghost var b := source[s.offset];
    assert source[s.offset..] == [b] + source[r.offset..];
    assert source[s.offset..r.offset] == [b];
    if s.start.Some? {
      JoinSlices(source, s.start.value, s.offset, r.offset);
    }
  }

  /** One more command was read: what is left still decides the rest of the answer. */
  lemma OneMore(o: Forecast, source: string, maxLabels: nat, s: Scan, placed: seq<Placed>, done: seq<Envelope>,
                next: Scan, placed': seq<Placed>, closed: seq<Envelope>)
    requires Good(o, source, maxLabels, s, placed, done) && s.commands < MAX_COMMANDS && next.commands == s.commands + 1
    requires next.offset <= |source| && (next.start.Some? ==> next.start.value <= next.offset)
    requires next.fields == |placed'|
    requires next.labels == Contents(done + closed) && |done + closed| <= maxLabels
    requires o(source[s.offset..], ModeOf(source, s, placed)) ==
      Add(1, closed, o(source[next.offset..], ModeOf(source, next, placed')))
    ensures Good(o, source, maxLabels, next, placed', done + closed)
  {
    AddTwice(s.commands, done, 1, closed, o(source[next.offset..], ModeOf(source, next, placed')));
  }

  // ----- field data -----

  predicate DataStarts(source: string, offset: nat) {
    offset < |source| && StartsCommand(source[offset..]) && source[offset..][1..3] == FIELD_DATA
  }

  lemma DataAt(source: string, offset: nat, i: nat)
    requires DataStarts(source, offset) && FindSeparator(source[offset + 3..]) == Some(i)
    ensures offset + 6 + i <= |source|
    ensures
      var t := Data(source[offset + 3..][..i]);
      && source[offset..] == t.Text() + source[offset + 6 + i..]
      && source[offset..offset + 6 + i] == t.Text()
      && Lex(source[offset..]) == Some(t)
  {
    var s, body := source[offset..], source[offset + 3..];
    assert s[3..] == body;
    LexText(s);
    var t := Data(body[..i]);
    assert |t.Text()| == i + 6;
    PrefixCut(t.Text(), s);
    assert s[i + 6..] == source[offset + 6 + i..];
    assert s[..i + 6] == source[offset..offset + 6 + i];
  }

  /** The text between `^FD` and the first `^FS`, and the offset after it. */
  method ReadData(source: string, offset: nat) returns (found: bool, data: string, next: nat)
    requires DataStarts(source, offset)
    ensures !found ==> Lex(source[offset..]).None?
    ensures found ==> offset < next <= |source| && source[offset..next] == Data(data).Text()
    ensures found ==> source[offset..] == Data(data).Text() + source[next..]
    ensures found ==> Lex(source[offset..]) == Some(Data(data))
  {
    var end := FindSeparator(source[offset + 3..]);
    if end.None? {
      assert source[offset..][3..] == source[offset + 3..];
      return false, "", offset;
    }
    DataAt(source, offset, end.value);
    return true, source[offset + 3..][..end.value], offset + 6 + end.value;
  }

  lemma DataOutlook(step: Stepper, o: Forecast, rest: string, data: string, later: string, mode: Mode)
    requires TakesData(step, o) && rest == Data(data).Text() + later && Lex(rest) == Some(Data(data))
    ensures o(rest, mode) == After(step(mode, Data(data), false), "", o, later)
  {
  }

  lemma NoOutlook(o: Forecast, rest: string, mode: Mode)
    requires StopsWhereLexerStops(o) && rest != "" && Lex(rest).None?
    ensures o(rest, mode).None?
  {
  }

  lemma DataTaken(c: Contract, source: string, s: Scan, placed: seq<Placed>, data: string, next: Scan)
    requires s.offset <= next.offset <= |source| && s.start.Some? && s.start.value <= s.offset && s.fields == |placed|
    requires source[s.offset..next.offset] == Data(data).Text()
    requires next == s.(offset := next.offset, field := EMPTY_FIELD, fields := s.fields + 1, commands := s.commands + 1)
    requires Validate(c, s.field, data).Some? && s.fields + 1 <= c.layout.maxFields
    ensures Advance(c, ModeOf(source, s, placed), Data(data), false) ==
      Some(Step(ModeOf(source, next, placed + [Placed(s.field, data)]), []))
  {
    JoinSlices(source, s.start.value, s.offset, next.offset);
  }

  lemma DataRefused(c: Contract, mode: Mode, data: string)
    requires mode.Inside? ==> Validate(c, mode.draft.field, data).None? || |mode.draft.placed| + 1 > c.layout.maxFields
    ensures Advance(c, mode, Data(data), false).None?
  {
  }

  /** Field data closes no label: only the present field and the count of fields change. */
  method PlaceData(c: Contract, source: string, s: Scan, data: string, next: nat, ghost placed: seq<Placed>)
    returns (r: Option<Scan>)
    requires s.offset <= next <= |source| && (s.start.Some? ==> s.start.value <= s.offset) && s.fields == |placed|
    requires source[s.offset..next] == Data(data).Text()
    ensures r.None? ==> Advance(c, ModeOf(source, s, placed), Data(data), false).None?
    ensures r.Some? ==>
      && r.value == s.(offset := next, field := EMPTY_FIELD, fields := s.fields + 1, commands := s.commands + 1)
      && s.start.Some?
      && Advance(c, ModeOf(source, s, placed), Data(data), false) ==
           Some(Step(ModeOf(source, r.value, placed + [Placed(s.field, data)]), []))
  {
    if s.start.None? {
      return None;
    }
    var ok := CheckField(c, s.field, data);
    if !ok || s.fields + 1 > c.layout.maxFields {
      DataRefused(c, ModeOf(source, s, placed), data);
      return None;
    }
    var taken := s.(offset := next, field := EMPTY_FIELD, fields := s.fields + 1, commands := s.commands + 1);
    DataTaken(c, source, s, placed, data, taken);
    return Some(taken);
  }

  method TakeData(c: Contract, ghost step: Stepper, ghost o: Forecast, source: string, maxLabels: nat, s: Scan,
                  ghost placed: seq<Placed>, ghost done: seq<Envelope>)
    returns (r: Option<Scan>, ghost placed': seq<Placed>)
    requires StepsAs(c, step) && TakesData(step, o) && StopsWhereLexerStops(o)
    requires Good(o, source, maxLabels, s, placed, done) && s.commands < MAX_COMMANDS && DataStarts(source, s.offset)
    ensures r.None? ==> Rejected(o, source, maxLabels)
    ensures r.Some? ==> Good(o, source, maxLabels, r.value, placed', done) && r.value.offset > s.offset
  {
    placed' := placed;
    ghost var mode := ModeOf(source, s, placed);
    var found, data, next := ReadData(source, s.offset);
    if !found {
      NoOutlook(o, source[s.offset..], mode);
      NothingLeft(o, source, maxLabels, s, placed, done);
      return None, placed;
    }
    DataOutlook(step, o, source[s.offset..], data, source[next..], mode);
    r := PlaceData(c, source, s, data, next, placed);
    assert step(mode, Data(data), false) == Advance(c, mode, Data(data), false);
    if r.None? {
      NothingLeft(o, source, maxLabels, s, placed, done);
    } else {
      placed' := placed + [Placed(s.field, data)];
      SkipNothing(ModeOf(source, r.value, placed'));
      assert done + [] == done;
      OneMore(o, source, maxLabels, s, placed, done, r.value, placed', []);
    }
  }

  // ----- commands -----

  predicate CommandStarts(source: string, offset: nat) {
    offset < |source| && StartsCommand(source[offset..]) && source[offset..][1..3] != FIELD_DATA
  }

  /** The text of a command, cut into its name, its arguments and the blanks after it. */
  lemma CommandAt(s: string, raw: string, before: string)
    requires StartsCommand(s) && s[1..3] != FIELD_DATA && before == Before(s[3..]) && raw == TrimRight(before)
    ensures raw <= before && AllSpace(before[|raw|..]) && AtCommand(s[3 + |before|..])
    ensures s == Command(NameOf(s[1..3]), raw).Text() + (before[|raw|..] + s[3 + |before|..])
  {
    var rest := s[3 + |before|..];
    CodeOfName(s[1..3]);
    SplitCommand(s);
    assert s[3..] == before + rest;
    PrefixCut(raw, before);
    Associative(raw, before[|raw|..], rest);
    Associative("^" + s[1..3], raw, before[|raw|..] + rest);
  }

  lemma Slices(source: string, offset: nat, a: string, b: string, end: nat)
    requires offset <= end <= |source| && source[offset..] == a + (b + source[end..])
    ensures source[offset..end] == a + b
  {
    Associative(a, b, source[end..]);
    assert |a + b| == end - offset;
    assert source[offset..end] == source[offset..][..end - offset];
  }

  /** The command at the offset, its arguments without blanks around them, and the offset of the next command. */
  method ReadCommand(source: string, offset: nat)
    returns (ok: bool, t: Token, arguments: string, end: nat, ghost blanks: string)
    requires CommandStarts(source, offset)
    ensures !ok ==> Lex(source[offset..]).None?
    ensures ok ==> Lex(source[offset..]) == Some(t) && t.Command? && arguments == t.Arguments()
    ensures ok ==> offset < end <= |source| && AtCommand(source[end..]) && AllSpace(blanks)
    ensures ok ==> source[offset..] == t.Text() + (blanks + source[end..]) && source[offset..end] == t.Text() + blanks
  {
    var s := source[offset..];
    var before := Before(s[3..]);
    var raw := TrimRight(before);
    end := offset + 3 + |before|;
    arguments := TrimLeft(raw);
    t := Command(NameOf(s[1..3]), raw);
    blanks := before[|raw|..];
    ok := LegalArguments(arguments);
    CommandAt(s, raw, before);
    assert s[3 + |before|..] == source[end..];
    Slices(source, offset, t.Text(), blanks, end);
  }

  lemma CommandOutlook(step: Stepper, o: Forecast, rest: string, t: Token, blanks: string, later: string, mode: Mode)
    requires TakesCommands(step, o) && t.Command? && AllSpace(blanks) && AtCommand(later)
    requires rest == t.Text() + (blanks + later) && Lex(rest) == Some(t)
    ensures o(rest, mode) == After(step(mode, t, StartsData(later)), blanks, o, later)
  {
  }

  /** The new variables, the fields placed on the open label and the labels closed are what the machine does. */
  ghost predicate Obeys(c: Contract, source: string, s: Scan, placed: seq<Placed>, t: Token, blanks: string,
                        ahead: bool, next: Scan, placed': seq<Placed>, closed: seq<Envelope>)
    requires s.offset <= |source| && (s.start.Some? ==> s.start.value <= s.offset)
  {
    && next.offset <= |source| && (next.start.Some? ==> next.start.value <= next.offset)
    && next.fields == |placed'| && next.commands == s.commands + 1 && next.labels == s.labels + Contents(closed)
    && var step := Advance(c, ModeOf(source, s, placed), t, ahead);
       step.Some? && step.value.closed == closed && Skip(step.value.mode, blanks) == ModeOf(source, next, placed')
  }

  method Open(c: Contract, source: string, s: Scan, t: Token, arguments: string, end: nat, ahead: bool,
              ghost placed: seq<Placed>, ghost blanks: string) returns (r: Option<Scan>)
    requires s.offset <= end <= |source| && (s.start.Some? ==> s.start.value <= s.offset) && s.fields == |placed|
    requires IsCommand(t, XA) && arguments == t.Arguments() && source[s.offset..end] == t.Text() + blanks
    ensures r.None? ==> Advance(c, ModeOf(source, s, placed), t, ahead).None?
    ensures r.Some? ==> r.value.offset == end && Obeys(c, source, s, placed, t, blanks, ahead, r.value, [], [])
  {
    if s.start.Some? || arguments != "" {
      return None;
    }
    assert s.labels + Contents([]) == s.labels;
    return Some(Scan(end, Some(s.offset), EMPTY_FIELD, 0, false, 0, s.commands + 1, s.labels));
  }

  /** The text of the label that ends at the offset. */
  lemma ClosedText(source: string, start: nat, offset: nat, end: nat, t: Token, blanks: string)
    requires start <= offset <= end <= |source| && source[offset..end] == t.Text() + blanks && t == Command(XZ, "")
    ensures offset + 3 <= |source| && source[start..offset + 3] == source[start..offset] + t.Text()
  {
    assert t.Text() == "^XZ";
    assert source[offset..end][..3] == source[offset..offset + 3];
    JoinSlices(source, start, offset, offset + 3);
  }

  method Close(c: Contract, source: string, s: Scan, t: Token, arguments: string, end: nat, ahead: bool,
               ghost placed: seq<Placed>, ghost blanks: string) returns (r: Option<Scan>, ghost closed: seq<Envelope>)
    requires s.offset <= end <= |source| && (s.start.Some? ==> s.start.value <= s.offset) && s.fields == |placed|
    requires IsCommand(t, XZ) && arguments == t.Arguments() && source[s.offset..end] == t.Text() + blanks
    requires arguments == "" ==> t.raw == ""
    requires s.start.Some?
    ensures r.None? ==> Advance(c, ModeOf(source, s, placed), t, ahead).None?
    ensures r.Some? ==> r.value.offset == end && |closed| == 1
    ensures r.Some? ==> Obeys(c, source, s, placed, t, blanks, ahead, r.value, placed, closed)
  {
    closed := [];
    if arguments != "" || !s.utf8 || s.fields == 0 || s.field != EMPTY_FIELD {
      return None, closed;
    }
    ClosedText(source, s.start.value, s.offset, end, t, blanks);
    var content := source[s.start.value..s.offset + 3];
    closed := [Envelope(content, placed)];
    assert Contents(closed) == [Encode(content)];
    var labels := s.labels + [Encode(content)];
    return Some(s.(offset := end, start := None, commands := s.commands + 1, labels := labels)), closed;
  }

  lemma Interpreted(c: Contract, source: string, s: Scan, t: Token, end: nat, ahead: bool, placed: seq<Placed>,
                    blanks: string, utf8: bool, moduleDots: nat, field: Field)
    requires s.offset <= end <= |source| && s.start.Some? && s.start.value <= s.offset && s.fields == |placed|
    requires t.Command? && !Delimits(t) && source[s.offset..end] == t.Text() + blanks
    requires
      var l := ModeOf(source, s, placed).draft;
      Execute(c, l, t.name, t.Arguments(), ahead) == Some(l.(utf8 := utf8, moduleDots := moduleDots, field := field))
    ensures
      var next := s.(offset := end, utf8 := utf8, moduleDots := moduleDots, field := field, commands := s.commands + 1);
      Obeys(c, source, s, placed, t, blanks, ahead, next, placed, [])
  {
    JoinSlices(source, s.start.value, s.offset, end);
    Associative(source[s.start.value..s.offset], t.Text(), blanks);
    assert s.labels + Contents([]) == s.labels;
  }

  method Change(c: Contract, source: string, s: Scan, t: Token, arguments: string, end: nat, ahead: bool,
                ghost placed: seq<Placed>, ghost blanks: string) returns (r: Option<Scan>)
    requires s.offset <= end <= |source| && s.start.Some? && s.start.value <= s.offset && s.fields == |placed|
    requires t.Command? && !Delimits(t) && arguments == t.Arguments() && source[s.offset..end] == t.Text() + blanks
    ensures r.None? ==> Advance(c, ModeOf(source, s, placed), t, ahead).None?
    ensures r.Some? ==> r.value.offset == end && Obeys(c, source, s, placed, t, blanks, ahead, r.value, placed, [])
  {
    ghost var l := ModeOf(source, s, placed).draft;
    var changed := Interpret(c, t.name, arguments, ahead, s.utf8, s.moduleDots, s.field, s.fields, l);
    if changed.None? {
      return None;
    }
    var (utf8, moduleDots, field) := changed.value;
    Interpreted(c, source, s, t, end, ahead, placed, blanks, utf8, moduleDots, field);
    return Some(s.(offset := end, utf8 := utf8, moduleDots := moduleDots, field := field, commands := s.commands + 1));
  }

  lemma TooManyLabels(o: Forecast, source: string, maxLabels: nat, s: Scan, placed: seq<Placed>, done: seq<Envelope>,
                      closed: seq<Envelope>, rest: Option<Tally>)
    requires Good(o, source, maxLabels, s, placed, done) && |done| + |closed| > maxLabels
    requires o(source[s.offset..], ModeOf(source, s, placed)) == Add(1, closed, rest)
    ensures Rejected(o, source, maxLabels)
  {
  }

  lemma ContentsGlue(es: seq<Envelope>, fs: seq<Envelope>)
    ensures Contents(es + fs) == Contents(es) + Contents(fs)
  {
  }

  /** What a command did to the variables is what it does to the outlook. */
  lemma Obeyed(c: Contract, step: Stepper, o: Forecast, source: string, s: Scan, placed: seq<Placed>, t: Token,
               blanks: string, next: Scan, placed': seq<Placed>, closed: seq<Envelope>)
    requires s.offset <= |source| && (s.start.Some? ==> s.start.value <= s.offset) && next.offset <= |source|
    requires StepsAs(c, step)
    requires Obeys(c, source, s, placed, t, blanks, StartsData(source[next.offset..]), next, placed', closed)
    requires o(source[s.offset..], ModeOf(source, s, placed)) ==
      After(step(ModeOf(source, s, placed), t, StartsData(source[next.offset..])), blanks, o, source[next.offset..])
    ensures o(source[s.offset..], ModeOf(source, s, placed)) ==
      Add(1, closed, o(source[next.offset..], ModeOf(source, next, placed')))
  {
  }

  /** The branches of the splitter after a command was read. */
  method Obey(c: Contract, source: string, s: Scan, t: Token, arguments: string, end: nat, ahead: bool,
              ghost placed: seq<Placed>, ghost blanks: string)
    returns (r: Option<Scan>, ghost placed': seq<Placed>, ghost closed: seq<Envelope>)
    requires s.offset <= end <= |source| && (s.start.Some? ==> s.start.value <= s.offset) && s.fields == |placed|
    requires t.Command? && arguments == t.Arguments() && source[s.offset..end] == t.Text() + blanks
    requires arguments == "" ==> t.raw == ""
    ensures r.None? ==> Advance(c, ModeOf(source, s, placed), t, ahead).None?
    ensures r.Some? ==> r.value.offset == end && Obeys(c, source, s, placed, t, blanks, ahead, r.value, placed', closed)
  {
    placed', closed := placed, [];
    if t.name == XA {
      r := Open(c, source, s, t, arguments, end, ahead, placed, blanks);
      placed' := [];
    } else if s.start.None? {
      r := None;
    } else if t.name == XZ {
      r, closed := Close(c, source, s, t, arguments, end, ahead, placed, blanks);
    } else {
      r := Change(c, source, s, t, arguments, end, ahead, placed, blanks);
    }
  }

  method TakeCommand(c: Contract, ghost step: Stepper, ghost o: Forecast, source: string, maxLabels: nat, s: Scan,
                     ghost placed: seq<Placed>, ghost done: seq<Envelope>)
    returns (r: Option<Scan>, ghost placed': seq<Placed>, ghost done': seq<Envelope>)
    requires StepsAs(c, step) && TakesCommands(step, o) && StopsWhereLexerStops(o)
    requires Good(o, source, maxLabels, s, placed, done) && s.commands < MAX_COMMANDS && CommandStarts(source, s.offset)
    ensures r.None? ==> Rejected(o, source, maxLabels)
    ensures r.Some? ==> Good(o, source, maxLabels, r.value, placed', done') && r.value.offset > s.offset
  {
    done' := done;
    placed' := placed;
    ghost var mode, rest := ModeOf(source, s, placed), source[s.offset..];
    var ok, t, arguments, end, blanks := ReadCommand(source, s.offset);
    if !ok {
      NoOutlook(o, rest, mode);
      NothingLeft(o, source, maxLabels, s, placed, done);
      return None, placed, done;
    }
    CommandOutlook(step, o, rest, t, blanks, source[end..], mode);
    RawOfBare(rest, t);
    var ahead := StartsData(source[end..]);
    ghost var closed;
    r, placed', closed := Obey(c, source, s, t, arguments, end, ahead, placed, blanks);
    if r.None? {
      Refused(c, step, mode, t, ahead);
      NothingLeft(o, source, maxLabels, s, placed, done);
      return;
    }
    Obeyed(c, step, o, source, s, placed, t, blanks, r.value, placed', closed);
    ContentsGlue(done, closed);
    if |r.value.labels| > maxLabels {
      TooManyLabels(o, source, maxLabels, s, placed, done, closed, o(source[end..], ModeOf(source, r.value, placed')));
      return None, placed, done;
    }
    OneMore(o, source, maxLabels, s, placed, done, r.value, placed', closed);
    done' := done + closed;
  }

  lemma RawOfBare(s: string, t: Token)
    requires Lex(s) == Some(t) && t.Command?
    ensures t.Arguments() == "" ==> t.raw == ""
  {
    if t.Arguments() == "" {
      LexTrimmed(s);
    }
  }

  lemma Refused(c: Contract, step: Stepper, mode: Mode, t: Token, ahead: bool)
    requires StepsAs(c, step) && Advance(c, mode, t, ahead).None?
    ensures step(mode, t, ahead).None?
  {
  }

  // ----- the loop -----

  lemma Finished(o: Forecast, source: string, maxLabels: nat, s: Scan, placed: seq<Placed>, done: seq<Envelope>)
    requires EndsOutside(o) && Good(o, source, maxLabels, s, placed, done) && s.offset == |source|
    ensures Judge(o(source, Outside), maxLabels) == if s.start.Some? || done == [] then None else Some(done)
  {
    assert source[s.offset..] == "";
    assert done + [] == done;
  }

  lemma NoCommand(o: Forecast, source: string, maxLabels: nat, s: Scan, placed: seq<Placed>, done: seq<Envelope>)
    requires StopsWhereLexerStops(o) && Good(o, source, maxLabels, s, placed, done)
    requires s.offset < |source| && !Space(source[s.offset]) && !StartsCommand(source[s.offset..])
    ensures Rejected(o, source, maxLabels)
  {
    assert Lex(source[s.offset..]).None?;
    NothingLeft(o, source, maxLabels, s, placed, done);
  }

  lemma Started(o: Forecast, source: string, maxLabels: nat)
    ensures Good(o, source, maxLabels, Scan(0, None, EMPTY_FIELD, 0, false, 0, 0, []), [], [])
  {
    assert source[0..] == source && Contents([]) == [];
    if o(source, Outside).Some? {
      assert [] + o(source, Outside).value.labels == o(source, Outside).value.labels;
    }
  }

  /** The pass over the text: it accepts exactly what the outlook and the caps allow, and returns those labels. */
  method SplitSource(c: Contract, ghost step: Stepper, ghost o: Forecast, source: string, maxLabels: nat)
    returns (r: Option<seq<Bytes>>)
    requires StepsAs(c, step) && SkipsBlanks(o) && TakesData(step, o) && TakesCommands(step, o)
    requires StopsWhereLexerStops(o) && CountsCommands(o) && EndsOutside(o)
    ensures r == match Judge(o(source, Outside), maxLabels) case None => None case Some(es) => Some(Contents(es))
  {
    var s := Scan(0, None, EMPTY_FIELD, 0, false, 0, 0, []);
    ghost var placed: seq<Placed>, done: seq<Envelope> := [], [];
    Started(o, source, maxLabels);
    while s.offset < |source|
      invariant Good(o, source, maxLabels, s, placed, done)
      decreases |source| - s.offset
    {
      if Space(source[s.offset]) {
        s := TakeBlank(o, source, maxLabels, s, placed, done);
      } else if !StartsCommand(source[s.offset..]) {
        NoCommand(o, source, maxLabels, s, placed, done);
        return None;
      } else if s.commands + 1 > MAX_COMMANDS {
        assert source[s.offset..][0] == source[s.offset];
        TooManyCommands(o, source, maxLabels, s, placed, done);
        return None;
      } else {
        var next;
        if source[s.offset..][1..3] == FIELD_DATA {
          next, placed := TakeData(c, step, o, source, maxLabels, s, placed, done);
        } else {
          next, placed, done := TakeCommand(c, step, o, source, maxLabels, s, placed, done);
        }
        if next.None? {
          return None;
        }
        s := next.value;
      }
    }
    Finished(o, source, maxLabels, s, placed, done);
    if s.start.Some? || s.labels == [] {
      return None;
    }
    return Some(s.labels);
  }

  /** The splitter of the source, with its checks of size and encoding. */
  method SplitLabels(content: Bytes, c: Contract, maxLabels: nat) returns (r: Result<seq<Bytes>, ()>)
    ensures r == match Accepted(c, content, maxLabels) case None => Err(()) case Some(es) => Ok(Contents(es))
  {
    if !(0 < |content| <= MAX_CONTENT) || !(1 <= maxLabels <= 500) {
      return Err(());
    }
    var source := Decode(content);
    if source.None? {
      return Err(());
    }
    AheadTakesTokens(c);
    AheadStops(c);
    var labels := SplitSource(c, Zpl(c).step, Ahead(c), source.value, maxLabels);
    if labels.None? {
      return Err(());
    }
    return Ok(labels.value);
  }
}
