/** What holds of every accepted report as bytes, with the caps on its size. */
module ZplContent {
  import opened Common
  import opened Text
  import opened Utf8
  import opened ZplFields
  import opened ZplTokens
  import opened ZplMachine
  import opened ZplSplit
  import R = ZplReports
  import T = ZplTheorems

  /** The labels of accepted bytes are the labels of their text. */
  lemma AcceptedLabels(c: Contract, content: Bytes, maxLabels: nat, es: seq<Envelope>) returns (source: string)
    requires Accepted(c, content, maxLabels) == Some(es)
    ensures Decode(content) == Some(source) && content == Encode(source) && Labels(c, source) == Some(es)
  {
    source := Decode(content).value;
    EncodeOfDecode(content, source);
  }

  // ----- partition -----

  /** The labels returned, with only blanks between, before and after them, are the whole content, byte for byte. */
  lemma ContentIsPartitioned(c: Contract, content: Bytes, maxLabels: nat, es: seq<Envelope>) returns (gaps: seq<string>)
    requires Accepted(c, content, maxLabels) == Some(es)
    ensures 1 <= |es| <= maxLabels && |gaps| == |es| + 1 && R.AllGaps(gaps)
    ensures content == Encode(R.Interleave(gaps, R.LabelTexts(es)))
  {
    var source := AcceptedLabels(c, content, maxLabels, es);
    gaps := T.ReportIsPartitioned(c, source, es);
  }

  // ----- splitting again -----

  lemma {:induction false} CommandsGlue(ts: seq<Token>, us: seq<Token>)
    ensures Commands(ts + us) == Commands(ts) + Commands(us)
    decreases |ts|
  {
    if ts == [] {
      assert ts + us == us;
    } else {
      CommandsGlue(ts[1..], us);
      Uncons(ts);
      Associative([ts[0]], ts[1..], us);
      CommandsHead(ts[0], ts[1..] + us);
    }
  }

  /** A part of a text is no longer in bytes than the text. */
  lemma PartIsShorter(a: string, b: string, c: string)
    ensures |Encode(b)| <= |Encode(a + (b + c))|
  {
    EncodeGlue(a, b + c);
    EncodeGlue(b, c);
  }

  lemma NonEmpty(s: string)
    requires s != ""
    ensures Encode(s) != []
  {
  }

  lemma LabelIsSmaller(c: Contract, source: string, es: seq<Envelope>, k: nat) returns (ts: seq<Token>)
    requires Labels(c, source) == Some(es) && k < |es|
    ensures Tokens(Zpl(c), es[k].text) == Some(ts) && Run(Zpl(c), ts, Outside) == Some([es[k]])
    ensures Commands(ts) <= Commands(Tokens(Zpl(c), source).value)
    ensures 0 < |Encode(es[k].text)| <= |Encode(source)|
  {
    var g := Zpl(c);
    ZplIsLawful(c);
    var before, after;
    before, ts, after := R.LabelAt(g, source, es, k);
    CommandsGlue(before, ts + after);
    CommandsGlue(ts, after);
    R.TokensSplit(g, source, before, ts + after);
    R.TextsGlue(g, ts, after);
    PartIsShorter(Texts(g, before), es[k].text, Texts(g, after));
    R.TokensText(g, es[k].text, ts);
    NonEmpty(es[k].text);
  }

  /** Every label that the splitter returns splits, on its own, into itself. */
  lemma SplitsIntoItself(c: Contract, content: Bytes, maxLabels: nat, es: seq<Envelope>, k: nat, m: nat)
    requires Accepted(c, content, maxLabels) == Some(es) && k < |es| && 1 <= m <= 500
    ensures Accepted(c, Contents(es)[k], m) == Some([es[k]])
  {
    var source := AcceptedLabels(c, content, maxLabels, es);
    var ts := LabelIsSmaller(c, source, es, k);
    DecodeOfEncode(es[k].text);
  }

  // ----- composition -----

  function CommandsIn(c: Contract, content: Bytes): nat {
    match Decode(content)
    case None => 0
    case Some(source) => match Tokens(Zpl(c), source) case None => 0 case Some(ts) => Commands(ts)
  }

  /**
   * Two accepted reports are accepted together, with the labels of both in order, exactly when together they stay
   * within the caps.
   */
  lemma ContentsCompose(c: Contract, a: Bytes, b: Bytes, m: nat, n: nat, maxLabels: nat, es: seq<Envelope>,
                        fs: seq<Envelope>)
    requires Accepted(c, a, m) == Some(es) && Accepted(c, b, n) == Some(fs)
    ensures Accepted(c, a + b, maxLabels) ==
      if |a| + |b| <= MAX_CONTENT && |es| + |fs| <= maxLabels <= 500
         && CommandsIn(c, a) + CommandsIn(c, b) <= MAX_COMMANDS
      then Some(es + fs) else None
  {
    var g := Zpl(c);
    var s := AcceptedLabels(c, a, m, es);
    var t := AcceptedLabels(c, b, n, fs);
    DecodeGlue(a, b);
    T.ReportsCompose(c, s, t, es, fs);
    LexerIsLawful(c);
    R.TokensGlue(g, s, Tokens(g, s).value, t, Tokens(g, t).value);
    CommandsGlue(Tokens(g, s).value, Tokens(g, t).value);
  }
}
