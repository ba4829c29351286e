/** What holds of every accepted report. */
module ZplTheorems {
  import opened Common
  import opened ZplFields
  import opened ZplTokens
  import opened ZplMachine
  import R = ZplReports

  /** Every returned label is a report of its own, with that one label. */
  lemma LabelStandsAlone(c: Contract, source: string, es: seq<Envelope>, k: nat)
    requires Labels(c, source) == Some(es) && k < |es|
    ensures Labels(c, es[k].text) == Some([es[k]])
  {
    ZplIsLawful(c);
    var before, ts, after := R.LabelAt(Zpl(c), source, es, k);
  }

  /** Nothing that one label sets is left for the next: reports compose. */
  lemma ReportsCompose(c: Contract, a: string, b: string, es: seq<Envelope>, fs: seq<Envelope>)
    requires Labels(c, a) == Some(es) && Labels(c, b) == Some(fs)
    ensures Labels(c, a + b) == Some(es + fs)
  {
    ZplIsLawful(c);
    R.ReportsCompose(Zpl(c), a, b, es, fs);
  }

  /** The labels, with only blanks between, before and after them, are the whole report. */
  lemma ReportIsPartitioned(c: Contract, source: string, es: seq<Envelope>) returns (gaps: seq<string>)
    requires Labels(c, source) == Some(es)
    ensures |gaps| == |es| + 1 && R.AllGaps(gaps) && source == R.Interleave(gaps, R.LabelTexts(es))
  {
    ZplIsLawful(c);
    gaps := R.ReportIsPartitioned(Zpl(c), source, Tokens(Zpl(c), source).value, es);
  }

  lemma TextsAround(g: Language, first: Token, middle: seq<Token>, last: Token)
    ensures Texts(g, [first] + (middle + [last])) == g.text(first) + (Texts(g, middle) + g.text(last))
  {
    R.TextsHead(g, first, middle + [last]);
    R.TextsGlue(g, middle, [last]);
    R.TextsOne(g, last);
  }

  lemma Ends(c: Contract, ts: seq<Token>)
    requires |ts| >= 2 && ts[0] == Command(XA, "") && ts[|ts| - 1] == Command(XZ, "")
    ensures
      var s := Texts(Zpl(c), ts);
      |s| >= 6 && s[..3] == "^XA" && s[|s| - 3..] == "^XZ"
  {
    var g, n := Zpl(c), |ts| - 1;
    var middle := ts[1..n];
    assert ts == [ts[0]] + (middle + [ts[n]]);
    TextsAround(g, ts[0], middle, ts[n]);
    EndsOf(Texts(g, middle));
  }

  lemma EndsOf(middle: string)
    ensures
      var s := "^XA" + (middle + "^XZ");
      |s| >= 6 && s[..3] == "^XA" && s[|s| - 3..] == "^XZ"
  {
  }

  /** A label begins with `^XA` and ends with `^XZ`, and no other token of it opens or closes a label. */
  lemma LabelShape(c: Contract, source: string, es: seq<Envelope>, k: nat) returns (ts: seq<Token>)
    requires Labels(c, source) == Some(es) && k < |es|
    ensures Tokens(Zpl(c), es[k].text) == Some(ts) && R.LabelTokens(ts)
    ensures |es[k].text| >= 6 && es[k].text[..3] == "^XA" && es[k].text[|es[k].text| - 3..] == "^XZ"
  {
    ZplIsLawful(c);
    var before, after;
    before, ts, after := R.LabelAt(Zpl(c), source, es, k);
    R.LabelShape(Zpl(c), es[k].text, ts, es[k]);
    R.TokensText(Zpl(c), es[k].text, ts);
    Ends(c, ts);
  }
}
