/** How the labels of a report lie in its tokens and its text, for every lawful language. */
module ZplReports {
  import opened Common
  import opened Text
  import opened ZplTokens

  // ----- texts -----

  lemma TextsHead(g: Language, t: Token, ts: seq<Token>)
    ensures Texts(g, [t] + ts) == g.text(t) + Texts(g, ts)
  {
    assert ([t] + ts)[1..] == ts;
  }

  lemma {:induction false} TextsGlue(g: Language, ts: seq<Token>, us: seq<Token>)
    ensures Texts(g, ts + us) == Texts(g, ts) + Texts(g, us)
    decreases |ts|
  {
    if ts == [] {
      assert ts + us == us;
    } else {
      TextsGlue(g, ts[1..], us);
      Uncons(ts);
      TextsHead(g, ts[0], ts[1..] + us);
      Associative([ts[0]], ts[1..], us);
      Associative(g.text(ts[0]), Texts(g, ts[1..]), Texts(g, us));
    }
  }

  // ----- sequences of tokens -----

  lemma TokensHead(g: Language, s: string, t: Token, rest: string)
    requires g.text(t) != "" && g.read(s) == Some(t) && s == g.text(t) + rest
    ensures Tokens(g, s) == match Tokens(g, rest) case None => None case Some(ts) => Some([t] + ts)
  {
    assert s[|g.text(t)|..] == rest;
  }

  /** The first token of a text and the text after it. */
  lemma TokensUncons(g: Language, s: string, ts: seq<Token>) returns (t: Token, rest: string, us: seq<Token>)
    requires s != "" && Tokens(g, s) == Some(ts)
    ensures ts == [t] + us && g.read(s) == Some(t) && g.text(t) != ""
    ensures s == g.text(t) + rest && Tokens(g, rest) == Some(us)
  {
    t := g.read(s).value;
    rest := s[|g.text(t)|..];
    us := Tokens(g, rest).value;
    PrefixCut(g.text(t), s);
  }

  lemma {:induction false} TokensText(g: Language, s: string, ts: seq<Token>)
    requires Tokens(g, s) == Some(ts)
    ensures Texts(g, ts) == s
    decreases |s|
  {
    if s != "" {
      var t, rest, us := TokensUncons(g, s, ts);
      TokensText(g, rest, us);
      TextsHead(g, t, us);
    }
  }

  lemma CleanBlank(c: char, rest: string)
    requires Space(c) && Clean(rest)
    ensures Clean([c] + rest)
  {
    var s := [c] + rest;
    assert s[1..] == rest;
    assert IndexOf(s, '^') == 1 + IndexOf(rest, '^');
    assert s[..IndexOf(s, '^')] == [c] + rest[..IndexOf(rest, '^')];
  }

  lemma {:induction false} TokensClean(g: Language, s: string, ts: seq<Token>)
    requires ReadsBlanks(g) && Tokens(g, s) == Some(ts)
    ensures Clean(s)
    decreases |s|
  {
    if s != "" {
      var t, rest, us := TokensUncons(g, s, ts);
      assert ReadsBlank(g, s, t);
      if Space(s[0]) {
        TokensClean(g, rest, us);
        CleanBlank(s[0], rest);
      }
    }
  }

  /** Two texts that lex apart lex together, to the same tokens. */
  lemma {:induction false} TokensGlue(g: Language, a: string, ts: seq<Token>, b: string, us: seq<Token>)
    requires ReadsBlanks(g) && IgnoresMore(g) && Tokens(g, a) == Some(ts) && Tokens(g, b) == Some(us)
    ensures Tokens(g, a + b) == Some(ts + us)
    decreases |a|
  {
    if a == "" {
      assert a + b == b && [] + us == us;
    } else {
      var t, rest, tail := TokensUncons(g, a, ts);
      TokensGlue(g, rest, tail, b, us);
      TokensClean(g, b, us);
      Associative(g.text(t), rest, b);
      TokensHead(g, a + b, t, rest + b);
      Associative([t], tail, us);
    }
  }

  lemma SplitHead(t: Token, tail: seq<Token>, ts: seq<Token>, us: seq<Token>)
    requires ts != [] && [t] + tail == ts + us
    ensures t == ts[0] && tail == ts[1..] + us
  {
    assert ([t] + tail)[0] == ts[0];
    assert tail == ([t] + tail)[1..] == (ts + us)[1..];
  }

  /** The tokens of a report split where its text splits. */
  lemma {:induction false} TokensSplit(g: Language, s: string, ts: seq<Token>, us: seq<Token>)
    requires IgnoresLess(g) && Tokens(g, s) == Some(ts + us)
    ensures Tokens(g, Texts(g, ts)) == Some(ts) && Tokens(g, Texts(g, us)) == Some(us)
    ensures s == Texts(g, ts) + Texts(g, us)
    decreases |ts|
  {
    TokensText(g, s, ts + us);
    TextsGlue(g, ts, us);
    if ts == [] {
      assert ts + us == us;
    } else {
      var t, rest, tail := TokensUncons(g, s, ts + us);
      SplitHead(t, tail, ts, us);
      TokensSplit(g, rest, ts[1..], us);
      Uncons(ts);
      assert g.read(Texts(g, ts) + Texts(g, us)) == Some(t);
      TokensHead(g, Texts(g, ts), t, Texts(g, ts[1..]));
    }
  }

  // ----- runs -----

  /** A run that begins with a step that closes no label. */
  lemma RunHead(g: Language, t: Token, ts: seq<Token>, mode: Mode, next: Mode)
    requires g.step(mode, t, FollowedByData(ts)) == Some(Step(next, []))
    ensures Run(g, [t] + ts, mode) == Run(g, ts, next)
  {
    assert ([t] + ts)[1..] == ts;
    if Run(g, ts, next).Some? {
      assert [] + Run(g, ts, next).value == Run(g, ts, next).value;
    }
  }

  /** The first step of a run and the rest of it. */
  lemma RunUncons(g: Language, ts: seq<Token>, mode: Mode, es: seq<Envelope>)
    returns (t: Token, tail: seq<Token>, step: Step, rest: seq<Envelope>)
    requires ts != [] && Run(g, ts, mode) == Some(es)
    ensures ts == [t] + tail && es == step.closed + rest
    ensures g.step(mode, t, FollowedByData(tail)) == Some(step) && Run(g, tail, step.mode) == Some(rest)
  {
    t, tail := ts[0], ts[1..];
    step := g.step(mode, t, FollowedByData(tail)).value;
    rest := Run(g, tail, step.mode).value;
    Uncons(ts);
  }

  /** A run that begins with a given token. */
  lemma RunStep(g: Language, t: Token, ts: seq<Token>, mode: Mode)
    ensures Run(g, [t] + ts, mode) ==
      match g.step(mode, t, FollowedByData(ts))
      case None => None
      case Some(step) =>
        match Run(g, ts, step.mode)
        case None => None
        case Some(es) => Some(step.closed + es)
  {
    assert ([t] + ts)[1..] == ts;
  }

  lemma RunFirst(g: Language, t: Token, tail: seq<Token>, mode: Mode, es: seq<Envelope>)
    returns (step: Step, rest: seq<Envelope>)
    requires Run(g, [t] + tail, mode) == Some(es)
    ensures es == step.closed + rest
    ensures g.step(mode, t, FollowedByData(tail)) == Some(step) && Run(g, tail, step.mode) == Some(rest)
  {
    assert ([t] + tail)[1..] == tail;
    step := g.step(mode, t, FollowedByData(tail)).value;
    rest := Run(g, tail, step.mode).value;
  }

  lemma RunCons(g: Language, t: Token, ts: seq<Token>, mode: Mode, step: Step, es: seq<Envelope>)
    requires g.step(mode, t, FollowedByData(ts)) == Some(step) && Run(g, ts, step.mode) == Some(es)
    ensures Run(g, [t] + ts, mode) == Some(step.closed + es)
  {
    assert ([t] + ts)[1..] == ts;
  }

  lemma {:induction false} FollowedGlue(ts: seq<Token>, us: seq<Token>)
    requires FollowedByData(ts)
    ensures FollowedByData(ts + us)
    decreases |ts|
  {
    if !ts[0].Data? {
      FollowedGlue(ts[1..], us);
      assert (ts + us)[1..] == ts[1..] + us;
    }
  }

  /** Two accepted sequences of tokens are accepted together, and nothing of the first is left in the second. */
  lemma {:induction false} RunGlue(g: Language, ts: seq<Token>, us: seq<Token>, mode: Mode, es: seq<Envelope>,
                                   fs: seq<Envelope>)
    requires LooksAhead(g) && Run(g, ts, mode) == Some(es) && Run(g, us, Outside) == Some(fs)
    ensures Run(g, ts + us, mode) == Some(es + fs)
    decreases |ts|
  {
    if ts == [] {
      assert ts + us == us && [] + fs == fs;
    } else {
      var t, tail, step, rest := RunUncons(g, ts, mode, es);
      RunGlue(g, tail, us, step.mode, rest, fs);
      if FollowedByData(tail) {
        FollowedGlue(tail, us);
      }
      RunCons(g, t, tail + us, mode, step, rest + fs);
      Associative([t], tail, us);
      Associative(step.closed, rest, fs);
    }
  }

  // ----- one label -----

  /** The last token alone closes a label, and no token opens one. */
  predicate Closing(g: Language, ts: seq<Token>) {
    && ts != []
    && if |ts| == 1 then IsCommand(ts[0], XZ) && g.bare(ts[0]) else !Delimits(ts[0]) && Closing(g, ts[1..])
  }

  lemma ClosingHead(g: Language, t: Token, ts: seq<Token>)
    requires !Delimits(t) && Closing(g, ts)
    ensures Closing(g, [t] + ts)
  {
    assert ([t] + ts)[1..] == ts;
  }

  /** What stands after the end of a label is not seen from inside it. */
  lemma {:induction false} SameFollow(g: Language, ts: seq<Token>, us: seq<Token>)
    requires Closing(g, ts)
    ensures FollowedByData(ts + us) == FollowedByData(ts)
    decreases |ts|
  {
    if |ts| > 1 {
      SameFollow(g, ts[1..], us);
      assert (ts + us)[1..] == ts[1..] + us;
    }
  }

  lemma TextsOne(g: Language, t: Token)
    ensures Texts(g, [t]) == g.text(t)
  {
    assert [t] == [t] + [];
    TextsHead(g, t, []);
    assert g.text(t) + "" == g.text(t);
  }

  lemma CloseHere(g: Language, t: Token, ts: seq<Token>, l: OpenLabel, step: Step, rest: seq<Envelope>)
    requires StepsInside(g) && LooksAhead(g) && IsCommand(t, XZ)
    requires g.step(Inside(l), t, FollowedByData(ts)) == Some(step) && Run(g, ts, step.mode) == Some(rest)
    ensures step.mode == Outside && step.closed == [Envelope(l.text + Texts(g, [t]), l.placed)] && Closing(g, [t])
    ensures Run(g, [t], Inside(l)) == Some(step.closed)
  {
    assert InsideStep(g, l, t, step);
    TextsOne(g, t);
    assert g.step(Inside(l), t, FollowedByData([])) == Some(step);
    RunCons(g, t, [], Inside(l), step, []);
    assert [t] + [] == [t] && step.closed + [] == step.closed;
  }

  /** From inside a label, the run closes it at some token and then goes on outside. */
  lemma {:induction false} CloseLabel(g: Language, ts: seq<Token>, l: OpenLabel, es: seq<Envelope>)
    returns (body: seq<Token>, after: seq<Token>, e: Envelope, rest: seq<Envelope>)
    requires StepsInside(g) && LooksAhead(g) && Run(g, ts, Inside(l)) == Some(es)
    ensures ts == body + after && es == [e] + rest && Closing(g, body) && e.text == l.text + Texts(g, body)
    ensures Run(g, body, Inside(l)) == Some([e]) && Run(g, after, Outside) == Some(rest)
    decreases |ts|
  {
    var t, tail, step, later := RunUncons(g, ts, Inside(l), es);
    assert InsideStep(g, l, t, step);
    if IsCommand(t, XZ) {
      CloseHere(g, t, tail, l, step, later);
      body, after, e, rest := [t], tail, step.closed[0], later;
    } else {
      assert [] + later == later;
      body, after, e, rest := CloseLabel(g, tail, step.mode.draft, es);
      SameFollow(g, body, after);
      RunHead(g, t, body, Inside(l), step.mode);
      ClosingHead(g, t, body);
      TextsHead(g, t, body);
      Associative(l.text, g.text(t), Texts(g, body));
      Associative([t], body, after);
      body := [t] + body;
    }
  }

  predicate AllBlank(ts: seq<Token>) {
    forall i :: 0 <= i < |ts| ==> ts[i].Blank?
  }

  /** The tokens of one label: it is opened by the first, closed by the last, and accepted alone. */
  ghost predicate IsLabel(g: Language, ts: seq<Token>, e: Envelope) {
    && |ts| >= 2
    && IsCommand(ts[0], XA) && g.bare(ts[0])
    && Closing(g, ts[1..])
    && e.text == Texts(g, ts)
    && Run(g, ts, Outside) == Some([e])
  }

  lemma LabelAtStart(g: Language, t: Token, tail: seq<Token>, es: seq<Envelope>)
    returns (ts: seq<Token>, after: seq<Token>, e: Envelope, rest: seq<Envelope>)
    requires StepsInside(g) && StepsOutside(g) && LooksAhead(g)
    requires !t.Blank? && Run(g, [t] + tail, Outside) == Some(es)
    ensures [t] + tail == ts + after && es == [e] + rest && IsLabel(g, ts, e) && Run(g, after, Outside) == Some(rest)
  {
    var step := g.step(Outside, t, FollowedByData(tail)).value;
    assert ([t] + tail)[1..] == tail;
    assert OutsideStep(g, t, step);
    RunHead(g, t, tail, Outside, step.mode);
    var body;
    body, after, e, rest := CloseLabel(g, tail, step.mode.draft, es);
    SameFollow(g, body, after);
    RunHead(g, t, body, Outside, step.mode);
    TextsHead(g, t, body);
    Associative([t], body, after);
    ts := [t] + body;
    assert ts[1..] == body;
  }

  lemma BlankHead(g: Language, t: Token, ts: seq<Token>)
    requires StepsOutside(g) && t.Blank?
    ensures Run(g, [t] + ts, Outside) == Run(g, ts, Outside)
  {
    var step := g.step(Outside, t, FollowedByData(ts)).value;
    assert OutsideStep(g, t, step);
    RunHead(g, t, ts, Outside, Outside);
  }

  /** A report is blank, or it is blanks, one label, and a report again. */
  lemma {:induction false} FirstLabel(g: Language, ts: seq<Token>, es: seq<Envelope>)
    returns (before: seq<Token>, first: seq<Token>, after: seq<Token>, e: Envelope, rest: seq<Envelope>)
    requires StepsInside(g) && StepsOutside(g) && LooksAhead(g)
    requires Run(g, ts, Outside) == Some(es)
    ensures AllBlank(before) && (if es == [] then ts == before else
      && ts == before + (first + after) && es == [e] + rest
      && IsLabel(g, first, e) && Run(g, after, Outside) == Some(rest))
    decreases |ts|
  {
    if ts == [] {
      before, first, after, rest := [], [], [], [];
      e := Envelope("", []);
    } else if ts[0].Blank? {
      Uncons(ts);
      BlankHead(g, ts[0], ts[1..]);
      before, first, after, e, rest := FirstLabel(g, ts[1..], es);
      Associative([ts[0]], before, first + after);
      before := [ts[0]] + before;
    } else {
      Uncons(ts);
      before := [];
      first, after, e, rest := LabelAtStart(g, ts[0], ts[1..], es);
      assert [] + (first + after) == first + after;
    }
  }

  // ----- reports -----

  /** A report that has a label: the label alone, and the report without it. */
  lemma PeelLabel(g: Language, source: string, ts: seq<Token>, es: seq<Envelope>)
    returns (before: seq<Token>, first: seq<Token>, after: seq<Token>, e: Envelope, rest: seq<Envelope>)
    requires Lawful(g) && Tokens(g, source) == Some(ts) && Run(g, ts, Outside) == Some(es) && es != []
    ensures ts == before + (first + after) && es == [e] + rest && IsLabel(g, first, e) && AllBlank(before)
    ensures source == Texts(g, before) + (e.text + Texts(g, after))
    ensures Tokens(g, Texts(g, before)) == Some(before)
    ensures Tokens(g, e.text) == Some(first)
    ensures Tokens(g, Texts(g, after)) == Some(after) && Run(g, after, Outside) == Some(rest)
  {
    before, first, after, e, rest := FirstLabel(g, ts, es);
    TokensSplit(g, source, before, first + after);
    TokensSplit(g, Texts(g, first + after), first, after);
  }

  lemma ReportsCompose(g: Language, a: string, b: string, es: seq<Envelope>, fs: seq<Envelope>)
    requires Lawful(g) && Report(g, a) == Some(es) && Report(g, b) == Some(fs)
    ensures Report(g, a + b) == Some(es + fs)
  {
    var ts, us := Tokens(g, a).value, Tokens(g, b).value;
    TokensGlue(g, a, ts, b, us);
    RunGlue(g, ts, us, Outside, es, fs);
  }

  // ----- exact partition -----

  /** Gaps and labels in turn, with a gap at either end. */
  function Interleave(gaps: seq<string>, labels: seq<string>): string
    requires |gaps| == |labels| + 1
    decreases |labels|
  {
    if labels == [] then gaps[0] else gaps[0] + (labels[0] + Interleave(gaps[1..], labels[1..]))
  }

  predicate AllGaps(gaps: seq<string>) {
    forall i :: 0 <= i < |gaps| ==> AllSpace(gaps[i])
  }

  function LabelTexts(es: seq<Envelope>): (texts: seq<string>)
    ensures |texts| == |es|
    ensures forall i :: 0 <= i < |es| ==> texts[i] == es[i].text
  {
    seq(|es|, i requires 0 <= i < |es| => es[i].text)
  }

  lemma InterleaveHead(gap: string, tail: seq<string>, e: Envelope, es: seq<Envelope>)
    requires |tail| == |es| + 1
    ensures Interleave([gap] + tail, LabelTexts([e] + es)) == gap + (e.text + Interleave(tail, LabelTexts(es)))
  {
    var texts := LabelTexts([e] + es);
    assert texts[0] == e.text && texts[1..] == LabelTexts(es);
    assert ([gap] + tail)[0] == gap && ([gap] + tail)[1..] == tail;
  }

  lemma {:induction false} BlankTexts(g: Language, s: string, ts: seq<Token>)
    requires ReadsBlanks(g) && Tokens(g, s) == Some(ts) && AllBlank(ts)
    ensures AllSpace(s)
    decreases |s|
  {
    if s != "" {
      var t, rest, us := TokensUncons(g, s, ts);
      assert ReadsBlank(g, s, t);
      assert ts[0] == t;
      forall i | 0 <= i < |us|
        ensures us[i].Blank?
      {
        assert ts[i + 1].Blank?;
      }
      BlankTexts(g, rest, us);
    }
  }

  lemma PeelText(g: Language, source: string, ts: seq<Token>, es: seq<Envelope>)
    returns (gap: string, later: string, front: seq<Token>, after: seq<Token>, e: Envelope, rest: seq<Envelope>)
    requires Lawful(g) && Tokens(g, source) == Some(ts) && Run(g, ts, Outside) == Some(es) && es != []
    ensures es == [e] + rest && source == gap + (e.text + later) && AllSpace(gap) && ts == front + after
    ensures Tokens(g, later) == Some(after) && Run(g, after, Outside) == Some(rest)
  {
    var before, first;
    before, first, after, e, rest := PeelLabel(g, source, ts, es);
    gap, later, front := Texts(g, before), Texts(g, after), before + first;
    Associative(before, first, after);
    BlankTexts(g, gap, before);
  }

  lemma AllGapsHead(gap: string, tail: seq<string>)
    requires AllSpace(gap) && AllGaps(tail)
    ensures AllGaps([gap] + tail)
  {
  }

  lemma {:induction false} ReportIsPartitioned(g: Language, source: string, ts: seq<Token>, es: seq<Envelope>)
    returns (gaps: seq<string>)
    requires Lawful(g) && Tokens(g, source) == Some(ts) && Run(g, ts, Outside) == Some(es)
    ensures |gaps| == |es| + 1 && AllGaps(gaps) && source == Interleave(gaps, LabelTexts(es))
    decreases |es|
  {
    if es == [] {
      gaps := [source];
      var before, _, _, _, _ := FirstLabel(g, ts, es);
      BlankTexts(g, source, ts);
    } else {
      var gap, later, front, after, e, rest := PeelText(g, source, ts, es);
      var tail := ReportIsPartitioned(g, later, after, rest);
      gaps := [gap] + tail;
      AllGapsHead(gap, tail);
      InterleaveHead(gap, tail, e, rest);
    }
  }

  // ----- the shape of a label -----

  lemma {:induction false} ReadBare(g: Language, s: string, ts: seq<Token>, k: nat)
    requires ReadsTrimmed(g) && Tokens(g, s) == Some(ts) && k < |ts| && ts[k].Command? && g.bare(ts[k])
    ensures ts[k].raw == ""
    decreases k
  {
    var t, rest, us := TokensUncons(g, s, ts);
    if k > 0 {
      ReadBare(g, rest, us, k - 1);
    }
  }

  /** The tokens of a label: opened by the first, closed by the last, with no such command between them. */
  predicate LabelTokens(ts: seq<Token>) {
    && |ts| >= 2 && ts[0] == Command(XA, "") && ts[|ts| - 1] == Command(XZ, "")
    && forall i :: 0 < i < |ts| - 1 ==> !Delimits(ts[i])
  }

  lemma {:induction false} ClosingShape(g: Language, ts: seq<Token>)
    requires Closing(g, ts)
    ensures IsCommand(ts[|ts| - 1], XZ) && g.bare(ts[|ts| - 1])
    ensures forall i :: 0 <= i < |ts| - 1 ==> !Delimits(ts[i])
    decreases |ts|
  {
    if |ts| > 1 {
      ClosingShape(g, ts[1..]);
    }
  }

  lemma LabelShape(g: Language, s: string, ts: seq<Token>, e: Envelope)
    requires ReadsTrimmed(g) && Tokens(g, s) == Some(ts) && IsLabel(g, ts, e)
    ensures LabelTokens(ts)
  {
    ClosingShape(g, ts[1..]);
    assert ts[|ts| - 1] == ts[1..][|ts| - 2];
    ReadBare(g, s, ts, 0);
    ReadBare(g, s, ts, |ts| - 1);
    forall i | 0 < i < |ts| - 1
      ensures !Delimits(ts[i])
    {
      assert ts[i] == ts[1..][i - 1];
    }
  }

  lemma DropHead(e: Envelope, rest: seq<Envelope>, k: nat)
    requires 0 < k <= |rest| + 1
    ensures ([e] + rest)[k..] == rest[k - 1..]
  {
  }

  /** The report that begins at a given label, and the tokens before it. */
  lemma {:induction false} SkipLabels(g: Language, source: string, ts: seq<Token>, es: seq<Envelope>, k: nat)
    returns (skipped: seq<Token>, later: string, us: seq<Token>)
    requires Lawful(g) && Tokens(g, source) == Some(ts) && Run(g, ts, Outside) == Some(es) && k < |es|
    ensures ts == skipped + us && Tokens(g, later) == Some(us) && Run(g, us, Outside) == Some(es[k..])
    decreases k
  {
    if k == 0 {
      skipped, later, us := [], source, ts;
      assert es[0..] == es && [] + ts == ts;
    } else {
      var _, after, front, tail, e, rest := PeelText(g, source, ts, es);
      skipped, later, us := SkipLabels(g, after, tail, rest, k - 1);
      DropHead(e, rest, k);
      Associative(front, skipped, us);
      skipped := front + skipped;
    }
  }

  /** Every label of a report, with its tokens and those before and after it. */
  lemma LabelAt(g: Language, source: string, es: seq<Envelope>, k: nat)
    returns (before: seq<Token>, ts: seq<Token>, after: seq<Token>)
    requires Lawful(g) && Report(g, source) == Some(es) && k < |es|
    ensures Tokens(g, source) == Some(before + (ts + after))
    ensures Tokens(g, es[k].text) == Some(ts) && IsLabel(g, ts, es[k])
  {
    var skipped, later, us := SkipLabels(g, source, Tokens(g, source).value, es, k);
    var blanks, e, rest;
    blanks, ts, after, e, rest := PeelLabel(g, later, us, es[k..]);
    assert es[k] == es[k..][0] == e;
    before := skipped + blanks;
    Associative(skipped, blanks, ts + after);
  }
}
