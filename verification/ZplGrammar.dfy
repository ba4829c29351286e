/** The grammar of an accepted label, and the fields it places. */
module ZplGrammar {
  import opened Common
  import opened ZplFields
  import opened ZplTokens
  import opened ZplMachine
  import R = ZplReports

  // ----- fields -----

  predicate GoodFields(c: Contract, placed: seq<Placed>) {
    && |placed| <= c.layout.maxFields
    && forall i :: 0 <= i < |placed| ==> Validate(c, placed[i].field, placed[i].source).Some?
  }

  predicate GoodLabels(c: Contract, es: seq<Envelope>) {
    forall i :: 0 <= i < |es| ==> es[i].placed != [] && GoodFields(c, es[i].placed)
  }

  predicate GoodMode(c: Contract, mode: Mode) {
    mode.Inside? ==> GoodFields(c, mode.draft.placed)
  }

  lemma AdvanceKeepsFields(c: Contract, mode: Mode, t: Token, ahead: bool, step: Step)
    requires Advance(c, mode, t, ahead) == Some(step) && GoodMode(c, mode)
    ensures GoodMode(c, step.mode) && GoodLabels(c, step.closed)
  {
  }

  lemma {:induction false} RunKeepsFields(c: Contract, ts: seq<Token>, mode: Mode, es: seq<Envelope>)
    requires Run(Zpl(c), ts, mode) == Some(es) && GoodMode(c, mode)
    ensures GoodLabels(c, es)
    decreases |ts|
  {
    if ts != [] {
      var t, tail, step, rest := R.RunUncons(Zpl(c), ts, mode, es);
      AdvanceKeepsFields(c, mode, t, FollowedByData(tail), step);
      RunKeepsFields(c, tail, step.mode, rest);
    }
  }

  lemma ValidIsFitting(c: Contract, p: Placed)
    requires Validate(c, p.field, p.source).Some?
    ensures Fitting(c, p)
  {
    ValidMeansFits(c, p, Validate(c, p.field, p.source).value);
  }

  /** Every label has between one field and the limit, and every field of every label fits. */
  lemma FieldsFit(c: Contract, source: string, es: seq<Envelope>, k: nat)
    requires Labels(c, source) == Some(es) && k < |es|
    ensures 1 <= |es[k].placed| <= c.layout.maxFields
    ensures forall n :: 0 <= n < |es[k].placed| ==> Fitting(c, es[k].placed[n])
  {
    RunKeepsFields(c, Tokens(Zpl(c), source).value, Outside, es);
    assert es[k].placed != [] && GoodFields(c, es[k].placed);
    forall n | 0 <= n < |es[k].placed|
      ensures Fitting(c, es[k].placed[n])
    {
      ValidIsFitting(c, es[k].placed[n]);
    }
  }

  // ----- grammar -----

  function Significant(ts: seq<Token>): seq<Token> {
    if ts == [] then []
    else if ts[0].Blank? then Significant(ts[1..])
    else [ts[0]] + Significant(ts[1..])
  }

  predicate IsOrigin(t: Token) {
    t.Command? && (t.name == FO || t.name == FT)
  }

  predicate IsFormat(t: Token) {
    t.Command? && (t.name == A0 || t.name == BC || t.name == BX)
  }

  /**
   * What may follow `^CI28`: barcode defaults anywhere outside an escape, and for each field one origin and one
   * format in either order, then `^FH_` and at once its data. `origin` and `format` say what the present field has.
   */
  predicate Body(ts: seq<Token>, origin: bool, format: bool)
    decreases |ts|
  {
    && ts != []
    && if IsCommand(ts[0], XZ) then |ts| == 1 && !origin && !format
       else if IsCommand(ts[0], BY) then Body(ts[1..], origin, format)
       else if IsOrigin(ts[0]) then !origin && Body(ts[1..], true, format)
       else if IsFormat(ts[0]) then !format && Body(ts[1..], origin, true)
       else
         && IsCommand(ts[0], FH) && ts[0].Arguments() == "_" && origin && format
         && |ts| >= 2 && ts[1].Data? && Body(ts[2..], false, false)
  }

  predicate LabelGrammar(ts: seq<Token>) {
    && |ts| >= 2
    && ts[0] == Command(XA, "")
    && IsCommand(ts[1], CI) && ts[1].Arguments() == "28"
    && Body(ts[2..], false, false)
  }

  lemma SignificantHead(t: Token, ts: seq<Token>)
    ensures Significant([t] + ts) == if t.Blank? then Significant(ts) else [t] + Significant(ts)
  {
    assert ([t] + ts)[1..] == ts;
  }

  /** What one significant command inside a label does to the shape of the present field. */
  lemma ExecuteShape(c: Contract, l: OpenLabel, name: Name, arguments: string, ahead: bool)
    requires l.utf8 && !l.field.hexMode && Execute(c, l, name, arguments, ahead).Some?
    ensures
      var m := Execute(c, l, name, arguments, ahead).value;
      && m.utf8
      && match name
         case BY => m.field == l.field
         case FO => l.field.origin.None? && m.field.origin.Some? && m.field.kind == l.field.kind && !m.field.hexMode
         case FT => l.field.origin.None? && m.field.origin.Some? && m.field.kind == l.field.kind && !m.field.hexMode
         case A0 => l.field.kind.None? && m.field.kind.Some? && m.field.origin == l.field.origin && !m.field.hexMode
         case BC => l.field.kind.None? && m.field.kind.Some? && m.field.origin == l.field.origin && !m.field.hexMode
         case BX => l.field.kind.None? && m.field.kind.Some? && m.field.origin == l.field.origin && !m.field.hexMode
         case FH => l.field.kind.Some? && l.field.origin.Some? && m.field.hexMode && arguments == "_" && ahead
         case _ => false
  {
  }

  /** What is owed to the grammar from a state inside a label that has its `^CI28`. */
  predicate Owed(l: OpenLabel, s: seq<Token>) {
    if l.field.hexMode then s != [] && s[0].Data? && Body(s[1..], false, false)
    else Body(s, l.field.origin.Some?, l.field.kind.Some?)
  }

  lemma OwedBlank(c: Contract, l: OpenLabel, t: Token, tail: seq<Token>, ahead: bool, step: Step)
    requires t.Blank? && Advance(c, Inside(l), t, ahead) == Some(step)
    ensures step.mode.Inside? && step.mode.draft.field == l.field && step.mode.draft.utf8 == l.utf8
    ensures step.closed == []
    ensures Owed(step.mode.draft, Significant(tail)) ==> Owed(l, Significant([t] + tail))
  {
    SignificantHead(t, tail);
  }

  lemma OwedData(c: Contract, l: OpenLabel, t: Token, tail: seq<Token>, ahead: bool, step: Step)
    requires t.Data? && Advance(c, Inside(l), t, ahead) == Some(step)
    ensures step.mode.Inside? && step.mode.draft.field == EMPTY_FIELD && step.mode.draft.utf8 == l.utf8
    ensures step.closed == []
    ensures Owed(step.mode.draft, Significant(tail)) ==> Owed(l, Significant([t] + tail))
  {
    SignificantHead(t, tail);
    assert ([t] + Significant(tail))[1..] == Significant(tail);
  }

  lemma OwedCommand(c: Contract, l: OpenLabel, t: Token, tail: seq<Token>, ahead: bool, step: Step)
    requires t.Command? && !Delimits(t) && l.utf8 && !l.field.hexMode && Advance(c, Inside(l), t, ahead) == Some(step)
    ensures step.mode.Inside? && step.mode.draft.utf8 && step.closed == []
    ensures step.mode.draft.field.hexMode ==> ahead
    ensures Owed(step.mode.draft, Significant(tail)) ==> Owed(l, Significant([t] + tail))
  {
    SignificantHead(t, tail);
    var s := [t] + Significant(tail);
    ExecuteShape(c, l, t.name, t.Arguments(), ahead);
    assert s[1..] == Significant(tail);
    if t.name == FH && |s| >= 2 {
      assert s[2..] == Significant(tail)[1..];
    }
  }

  lemma NotEscaped(ts: seq<Token>, tail: seq<Token>, t: Token)
    requires FollowedByData(ts) && ts == [t] + tail
    ensures !t.Command? && (t.Blank? ==> FollowedByData(tail))
  {
    assert ts[1..] == tail;
  }

  lemma ClosingTail(g: Language, t: Token, tail: seq<Token>)
    requires R.Closing(g, [t] + tail)
    ensures if IsCommand(t, XZ) then tail == [] else !Delimits(t) && R.Closing(g, tail)
  {
    assert ([t] + tail)[1..] == tail;
  }

  /** From a label that has its `^CI28`, an accepted run up to the closing command follows the grammar. */
  lemma {:induction false} RunFollowsBody(c: Contract, ts: seq<Token>, l: OpenLabel, es: seq<Envelope>)
    requires R.Closing(Zpl(c), ts) && l.utf8 && Run(Zpl(c), ts, Inside(l)) == Some(es)
    requires l.field.hexMode ==> FollowedByData(ts)
    ensures Owed(l, Significant(ts))
    decreases |ts|
  {
    var t, tail, step, rest := R.RunUncons(Zpl(c), ts, Inside(l), es);
    var ahead := FollowedByData(tail);
    ClosingTail(Zpl(c), t, tail);
    if l.field.hexMode {
      NotEscaped(ts, tail, t);
    }
    if t.Blank? {
      OwedBlank(c, l, t, tail, ahead, step);
      RunFollowsBody(c, tail, step.mode.draft, rest);
    } else if t.Data? {
      OwedData(c, l, t, tail, ahead, step);
      RunFollowsBody(c, tail, step.mode.draft, rest);
    } else if IsCommand(t, XZ) {
      OwedClose(c, l, t, ahead, step);
    } else {
      OwedCommand(c, l, t, tail, ahead, step);
      RunFollowsBody(c, tail, step.mode.draft, rest);
    }
  }

  lemma OwedClose(c: Contract, l: OpenLabel, t: Token, ahead: bool, step: Step)
    requires IsCommand(t, XZ) && Advance(c, Inside(l), t, ahead) == Some(step)
    ensures Owed(l, Significant([t] + []))
  {
    SignificantHead(t, []);
  }

  /** Before `^CI28`, only blanks may stand in a label. */
  lemma {:induction false} RunStartsWithEncoding(c: Contract, ts: seq<Token>, l: OpenLabel, es: seq<Envelope>)
    requires R.Closing(Zpl(c), ts) && !l.utf8 && l.field == EMPTY_FIELD && Run(Zpl(c), ts, Inside(l)) == Some(es)
    ensures
      var s := Significant(ts);
      |s| >= 1 && IsCommand(s[0], CI) && s[0].Arguments() == "28" && Body(s[1..], false, false)
    decreases |ts|
  {
    var t, tail, step, rest := R.RunUncons(Zpl(c), ts, Inside(l), es);
    var ahead := FollowedByData(tail);
    ClosingTail(Zpl(c), t, tail);
    if t.Blank? {
      OwedBlank(c, l, t, tail, ahead, step);
      SignificantHead(t, tail);
      RunStartsWithEncoding(c, tail, step.mode.draft, rest);
    } else {
      EncodingFirst(c, l, t, ahead, step);
      RunFollowsBody(c, tail, step.mode.draft, rest);
      SignificantHead(t, tail);
      assert ([t] + Significant(tail))[1..] == Significant(tail);
    }
  }

  lemma EncodingFirst(c: Contract, l: OpenLabel, t: Token, ahead: bool, step: Step)
    requires !t.Blank? && !l.utf8 && l.field == EMPTY_FIELD && Advance(c, Inside(l), t, ahead) == Some(step)
    ensures IsCommand(t, CI) && t.Arguments() == "28"
    ensures step.mode.Inside? && step.mode.draft.utf8 && step.mode.draft.field == EMPTY_FIELD
  {
  }

  /** Every returned label follows the grammar: one leading `^CI28`, and each field complete before its data. */
  lemma LabelFollowsGrammar(c: Contract, source: string, es: seq<Envelope>, k: nat) returns (ts: seq<Token>)
    requires Labels(c, source) == Some(es) && k < |es|
    ensures Tokens(Zpl(c), es[k].text) == Some(ts) && LabelGrammar(Significant(ts))
  {
    ZplIsLawful(c);
    var before, after;
    before, ts, after := R.LabelAt(Zpl(c), source, es, k);
    R.LabelShape(Zpl(c), es[k].text, ts, es[k]);
    LabelBody(c, ts, es[k]);
  }

  lemma LabelBody(c: Contract, ts: seq<Token>, e: Envelope)
    requires R.IsLabel(Zpl(c), ts, e) && ts[0] == Command(XA, "")
    ensures LabelGrammar(Significant(ts))
  {
    var t, tail, step, rest := R.RunUncons(Zpl(c), ts, Outside, [e]);
    assert tail == ts[1..];
    AdvanceOutside(c, t, FollowedByData(tail));
    Fresh(c, t, FollowedByData(tail), step);
    RunStartsWithEncoding(c, tail, step.mode.draft, rest);
    SignificantHead(t, tail);
    var s := [t] + Significant(tail);
    assert s[2..] == Significant(tail)[1..];
  }

  lemma Fresh(c: Contract, t: Token, ahead: bool, step: Step)
    requires t == Command(XA, "") && Advance(c, Outside, t, ahead) == Some(step)
    ensures step.mode.Inside? && !step.mode.draft.utf8
    ensures step.mode.draft.field == EMPTY_FIELD && step.mode.draft.placed == []
  {
  }
}
