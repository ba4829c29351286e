/** A report template: what the value of one field can change. */
module ZplTemplate {
  import opened Common
  import opened Text
  import opened ZplEscape
  import opened ZplFields
  import opened ZplTokens
  import opened ZplLexer
  import opened ZplMachine
  import R = ZplReports

  function FieldText(source: string): string {
    "^FD" + source + "^FS"
  }

  /** Field data without a command prefix is read up to its own separator. */
  lemma LexData(source: string)
    requires '^' !in source
    ensures Lex(FieldText(source)) == Some(Data(source))
  {
    var s := FieldText(source);
    var body := source + "^FS";
    assert s[3..] == body && s[1..3] == FIELD_DATA;
    assert SeparatorAt(body, |source|);
    forall j: nat | j < |source|
      ensures !SeparatorAt(body, j)
    {
      assert body[j] == source[j];
    }
    FirstSeparator(body, |source|);
    assert body[..|source|] == source;
  }

  lemma TokenAlone(g: Language, t: Token)
    requires g.read(g.text(t)) == Some(t) && g.text(t) != ""
    ensures Tokens(g, g.text(t)) == Some([t])
  {
    assert g.text(t) == g.text(t) + "";
    R.TokensHead(g, g.text(t), t, "");
    assert [t] + [] == [t];
  }

  lemma TemplateTokens(c: Contract, before: string, ts: seq<Token>, source: string, after: string, us: seq<Token>)
    requires '^' !in source && Tokens(Zpl(c), before) == Some(ts) && Tokens(Zpl(c), after) == Some(us)
    ensures Tokens(Zpl(c), before + (FieldText(source) + after)) == Some(ts + ([Data(source)] + us))
  {
    var g := Zpl(c);
    LexerIsLawful(c);
    LexData(source);
    TokenAlone(g, Data(source));
    R.TokensGlue(g, FieldText(source), [Data(source)], after, us);
    R.TokensGlue(g, before, ts, FieldText(source) + after, [Data(source)] + us);
  }

  // ----- the machine does not see the values of placed fields -----

  predicate Alike(l: OpenLabel, m: OpenLabel) {
    l.utf8 == m.utf8 && l.moduleDots == m.moduleDots && l.field == m.field && |l.placed| == |m.placed|
  }

  lemma ExecuteAlike(c: Contract, l: OpenLabel, m: OpenLabel, name: Name, arguments: string, ahead: bool)
    requires Alike(l, m)
    ensures
      var p, q := Execute(c, l, name, arguments, ahead), Execute(c, m, name, arguments, ahead);
      && (p.Some? <==> q.Some?)
      && (p.Some? ==> Alike(p.value, q.value) && p.value.placed == l.placed && q.value.placed == m.placed)
  {
  }

  lemma PlaceAlike(c: Contract, l: OpenLabel, m: OpenLabel, source: string)
    requires Alike(l, m)
    ensures
      var p, q := Place(c, l, source), Place(c, m, source);
      && (p.Some? <==> q.Some?)
      && (p.Some? ==>
            && Alike(p.value, q.value)
            && p.value.placed == l.placed + [Placed(l.field, source)]
            && q.value.placed == m.placed + [Placed(l.field, source)])
  {
  }

  lemma AdvanceAlike(c: Contract, l: OpenLabel, m: OpenLabel, t: Token, ahead: bool, step: Step)
    returns (other: Step, more: seq<Placed>)
    requires Alike(l, m) && Advance(c, Inside(l), t, ahead) == Some(step)
    ensures Advance(c, Inside(m), t, ahead) == Some(other)
    ensures
      if step.mode.Outside? then
        && other.mode.Outside? && |step.closed| == |other.closed| == 1
        && step.closed[0].placed == l.placed && other.closed[0].placed == m.placed
      else
        && other.mode.Inside? && step.closed == other.closed == [] && Alike(step.mode.draft, other.mode.draft)
        && step.mode.draft.placed == l.placed + more && other.mode.draft.placed == m.placed + more
  {
    more := if t.Data? then [Placed(l.field, t.source)] else [];
    assert l.placed + [] == l.placed && m.placed + [] == m.placed;
    if t.Data? {
      PlaceAlike(c, l, m, t.source);
    } else if t.Command? {
      ExecuteAlike(c, l, m, t.name, t.Arguments(), ahead);
    }
    other := Advance(c, Inside(m), t, ahead).value;
  }

  /** From two states that are alike, the run is the same, but for the fields that were placed before. */
  lemma {:induction false} RunAlike(c: Contract, ts: seq<Token>, l: OpenLabel, m: OpenLabel, es: seq<Envelope>)
    returns (fs: seq<Envelope>, more: seq<Placed>)
    requires Alike(l, m) && Run(Zpl(c), ts, Inside(l)) == Some(es)
    ensures Run(Zpl(c), ts, Inside(m)) == Some(fs)
    ensures |es| == |fs| >= 1 && es[1..] == fs[1..]
    ensures es[0].placed == l.placed + more && fs[0].placed == m.placed + more
    decreases |ts|
  {
    var g := Zpl(c);
    var t, tail, step, rest := R.RunUncons(g, ts, Inside(l), es);
    var other, added := AdvanceAlike(c, l, m, t, FollowedByData(tail), step);
    if step.mode.Outside? {
      R.RunCons(g, t, tail, Inside(m), other, rest);
      fs, more := other.closed + rest, [];
      assert l.placed + [] == l.placed && m.placed + [] == m.placed;
    } else {
      var later, after := RunAlike(c, tail, step.mode.draft, other.mode.draft, rest);
      R.RunCons(g, t, tail, Inside(m), other, later);
      fs, more := later, added + after;
      assert [] + later == later && [] + rest == rest;
      Associative(l.placed, added, after);
      Associative(m.placed, added, after);
    }
  }

  /** The labels `fs` are the labels `es` but for the source of field `n` of label `k`. */
  predicate Differ(es: seq<Envelope>, fs: seq<Envelope>, k: nat, n: nat, source: string) {
    && |es| == |fs| && k < |es| && n < |es[k].placed|
    && (forall i :: 0 <= i < |es| && i != k ==> fs[i] == es[i])
    && fs[k].placed == es[k].placed[n := Placed(es[k].placed[n].field, source)]
  }

  lemma {:induction false} SameFollow(ts: seq<Token>, us: seq<Token>, vs: seq<Token>)
    requires FollowedByData(us) == FollowedByData(vs)
    ensures FollowedByData(ts + us) == FollowedByData(ts + vs)
    decreases |ts|
  {
    if ts == [] {
      assert ts + us == us && ts + vs == vs;
    } else {
      SameFollow(ts[1..], us, vs);
      assert (ts + us)[1..] == ts[1..] + us;
      assert (ts + vs)[1..] == ts[1..] + vs;
    }
  }

  /**
   * What the run becomes when the source of field `n` of label `k` is another one: it is accepted exactly when the
   * field allows that source, and nothing else changes.
   */
  ghost predicate Swapped(allows: Field -> bool, run: Option<seq<Envelope>>, es: seq<Envelope>, k: nat, n: nat,
                          x: string, y: string) {
    && k < |es| && n < |es[k].placed| && es[k].placed[n].source == x
    && (run.Some? <==> allows(es[k].placed[n].field))
    && (run.Some? ==> Differ(es, run.value, k, n, y))
  }

  /** Two states alike but for the source of the field placed last. */
  lemma SwapTail(c: Contract, us: seq<Token>, l: OpenLabel, m: OpenLabel, es: seq<Envelope>, done: seq<Placed>,
                 field: Field, x: string, y: string)
    returns (fs: seq<Envelope>)
    requires Alike(l, m) && l.placed == done + [Placed(field, x)] && m.placed == done + [Placed(field, y)]
    requires Run(Zpl(c), us, Inside(l)) == Some(es)
    ensures Run(Zpl(c), us, Inside(m)) == Some(fs) && Differ(es, fs, 0, |done|, y)
    ensures es[0].placed[|done|] == Placed(field, x)
  {
    var more;
    fs, more := RunAlike(c, us, l, m, es);
    Beside(done, Placed(field, x), Placed(field, y), more);
    Heads(es, fs);
  }

  lemma DataStep(c: Contract, mode: Mode, source: string, ahead: bool, step: Step)
    requires Advance(c, mode, Data(source), ahead) == Some(step)
    ensures mode.Inside? && |mode.draft.placed| < c.layout.maxFields && Validate(c, mode.draft.field, source).Some?
    ensures step.closed == [] && step.mode.Inside?
    ensures
      var l, m := mode.draft, step.mode.draft;
      && m.utf8 == l.utf8 && m.moduleDots == l.moduleDots && m.field == EMPTY_FIELD
      && m.placed == l.placed + [Placed(l.field, source)]
  {
  }

  lemma DataStepIff(c: Contract, mode: Mode, source: string, ahead: bool)
    requires mode.Inside? && |mode.draft.placed| < c.layout.maxFields
    ensures Advance(c, mode, Data(source), ahead).Some? <==> Validate(c, mode.draft.field, source).Some?
  {
  }

  function Allows(c: Contract, source: string): Field -> bool {
    (field: Field) => Validate(c, field, source).Some?
  }

  lemma SwapHere(c: Contract, x: string, y: string, us: seq<Token>, mode: Mode, es: seq<Envelope>) returns (n: nat)
    requires Run(Zpl(c), [Data(x)] + us, mode) == Some(es)
    ensures Swapped(Allows(c, y), Run(Zpl(c), [Data(y)] + us, mode), es, 0, n, x, y)
  {
    var g, ahead := Zpl(c), FollowedByData(us);
    var step, rest := R.RunFirst(g, Data(x), us, mode, es);
    DataStep(c, mode, x, ahead, step);
    DataStepIff(c, mode, y, ahead);
    assert [] + rest == rest;
    var l := mode.draft;
    n := |l.placed|;
    if Validate(c, l.field, y).Some? {
      var other := Advance(c, mode, Data(y), ahead).value;
      DataStep(c, mode, y, ahead, other);
      var fs := SwapTail(c, us, step.mode.draft, other.mode.draft, rest, l.placed, l.field, x, y);
      R.RunCons(g, Data(y), us, mode, other, fs);
      assert [] + fs == fs;
    } else {
      var fs := SwapTail(c, us, step.mode.draft, step.mode.draft, rest, l.placed, l.field, x, x);
      assert ([Data(y)] + us)[1..] == us;
    }
  }

  lemma Beside(done: seq<Placed>, p: Placed, q: Placed, more: seq<Placed>)
    ensures
      var xs, ys := done + [p] + more, done + [q] + more;
      xs[|done|] == p && ys == xs[|done| := q]
  {
  }

  lemma Heads(es: seq<Envelope>, fs: seq<Envelope>)
    requires |es| == |fs| >= 1 && es[1..] == fs[1..]
    ensures forall i :: 0 <= i < |es| && i != 0 ==> fs[i] == es[i]
  {
    forall i | 0 <= i < |es| && i != 0
      ensures fs[i] == es[i]
    {
      assert es[i] == es[1..][i - 1] && fs[i] == fs[1..][i - 1];
    }
  }

  lemma ShiftDiffer(done: seq<Envelope>, es: seq<Envelope>, fs: seq<Envelope>, k: nat, n: nat, source: string)
    requires Differ(es, fs, k, n, source)
    ensures Differ(done + es, done + fs, |done| + k, n, source)
  {
  }

  function Later(closed: seq<Envelope>, run: Option<seq<Envelope>>): Option<seq<Envelope>> {
    match run
    case None => None
    case Some(es) => Some(closed + es)
  }

  lemma LaterTwice(a: seq<Envelope>, b: seq<Envelope>, run: Option<seq<Envelope>>)
    ensures Later(a, Later(b, run)) == Later(a + b, run)
  {
    if run.Some? {
      Associative(a, b, run.value);
    }
  }

  /** The state in which a run reaches a place, whatever field data stands there. */
  lemma {:induction false} RunReaches(g: Language, ts: seq<Token>, us: seq<Token>, vs: seq<Token>, mode: Mode,
                                      es: seq<Envelope>)
    returns (closed: seq<Envelope>, at: Mode, rest: seq<Envelope>)
    requires FollowedByData(us) == FollowedByData(vs) && Run(g, ts + us, mode) == Some(es)
    ensures es == closed + rest && Run(g, us, at) == Some(rest)
    ensures Run(g, ts + vs, mode) == Later(closed, Run(g, vs, at))
    decreases |ts|
  {
    if ts == [] {
      assert [] + us == us && [] + vs == vs;
      closed, at, rest := [], mode, es;
      assert [] + es == es;
      LaterNothing(Run(g, vs, at));
    } else {
      var t, tail := ts[0], ts[1..];
      Uncons(ts);
      Associative([t], tail, us);
      Associative([t], tail, vs);
      SameFollow(tail, us, vs);
      var step, later := R.RunFirst(g, t, tail + us, mode, es);
      var inner;
      inner, at, rest := RunReaches(g, tail, us, vs, step.mode, later);
      R.RunStep(g, t, tail + vs, mode);
      closed := step.closed + inner;
      Associative(step.closed, inner, rest);
      LaterTwice(step.closed, inner, Run(g, vs, at));
    }
  }

  lemma LaterNothing(run: Option<seq<Envelope>>)
    ensures Later([], run) == run
  {
    if run.Some? {
      assert [] + run.value == run.value;
    }
  }

  // ----- another source in one field -----

  lemma SwapLater(allows: Field -> bool, closed: seq<Envelope>, run: Option<seq<Envelope>>, es: seq<Envelope>,
                  k: nat, n: nat, x: string, y: string)
    requires Swapped(allows, run, es, k, n, x, y)
    ensures Swapped(allows, Later(closed, run), closed + es, |closed| + k, n, x, y)
  {
    if run.Some? {
      ShiftDiffer(closed, es, run.value, k, n, y);
    }
  }

  lemma RunSwap(c: Contract, ts: seq<Token>, x: string, y: string, us: seq<Token>, es: seq<Envelope>)
    returns (k: nat, n: nat)
    requires Run(Zpl(c), ts + ([Data(x)] + us), Outside) == Some(es)
    ensures Swapped(Allows(c, y), Run(Zpl(c), ts + ([Data(y)] + us), Outside), es, k, n, x, y)
  {
    var closed, at, rest := RunReaches(Zpl(c), ts, [Data(x)] + us, [Data(y)] + us, Outside, es);
    n := SwapHere(c, x, y, us, at, rest);
    k := |closed|;
    SwapLater(Allows(c, y), closed, Run(Zpl(c), [Data(y)] + us, at), rest, 0, n, x, y);
  }

  /**
   * The value of a field can change nothing but that field. In a template that is well formed before and after the
   * field, another value is accepted exactly when it fits the same field, and then every other field and every other
   * label stays as it was.
   */
  lemma ValueStaysInField(c: Contract, before: string, x: string, y: string, after: string, es: seq<Envelope>)
    returns (k: nat, n: nat)
    requires '^' !in x && '^' !in y
    requires Tokens(Zpl(c), before).Some? && Tokens(Zpl(c), after).Some?
    requires Labels(c, before + (FieldText(x) + after)) == Some(es)
    ensures Swapped(Allows(c, y), Labels(c, before + (FieldText(y) + after)), es, k, n, x, y)
  {
    var ts, us := Tokens(Zpl(c), before).value, Tokens(Zpl(c), after).value;
    TemplateTokens(c, before, ts, x, after, us);
    TemplateTokens(c, before, ts, y, after, us);
    k, n := RunSwap(c, ts, x, y, us, es);
  }

  /** Whatever text is escaped, it stays in its field, and it is the text that field then holds. */
  lemma EscapedValueStaysInField(c: Contract, before: string, x: string, value: string, matrix: bool, after: string,
                                 es: seq<Envelope>)
    returns (k: nat, n: nat)
    requires '^' !in x && Printable(c.control, value)
    requires Tokens(Zpl(c), before).Some? && Tokens(Zpl(c), after).Some?
    requires Labels(c, before + (FieldText(x) + after)) == Some(es)
    ensures EscapeField(c.control, value, matrix).Ok?
    ensures k < |es| && n < |es[k].placed|
    ensures
      var y := EscapeField(c.control, value, matrix).value;
      var field := es[k].placed[n].field;
      && Swapped(Allows(c, y), Labels(c, before + (FieldText(y) + after)), es, k, n, x, y)
      && (field.kind.Some? && (field.kind.value == DataMatrix) == matrix ==>
            (Labels(c, before + (FieldText(y) + after)).Some? <==> Fits(c, Placed(field, y), value)))
  {
    EscapeFieldIsText(c.control, value, matrix);
    EscapedIsPlain(Prepared(value, matrix));
    var y := EscapeField(c.control, value, matrix).value;
    k, n := ValueStaysInField(c, before, x, y, after, es);
    FitsItsText(c, es[k].placed[n].field, value, matrix);
  }

  lemma FitsItsText(c: Contract, field: Field, value: string, matrix: bool)
    requires EscapeField(c.control, value, matrix).Ok?
    ensures field.kind.Some? && (field.kind.value == DataMatrix) == matrix ==>
      (Validate(c, field, EscapeField(c.control, value, matrix).value).Some?
       <==> Fits(c, Placed(field, EscapeField(c.control, value, matrix).value), value))
  {
    var y := EscapeField(c.control, value, matrix).value;
    EscapeIsBijection(c.control, value, y, matrix);
    ValidMeansFits(c, Placed(field, y), value);
  }
}
