/**
 * The lexical structure of a ZPL report, independent of what its commands mean: blanks, commands with their
 * arguments, and field data, which runs to the first field separator.
 */
module ZplLexer {
  import opened Common
  import opened Text
  import opened ZplTokens

  /** The length that remains of `s[..n]` without its trailing blanks. */
  function TrimmedLength(s: string, n: nat): (k: nat)
    requires n <= |s|
    ensures k <= n
    ensures forall i :: k <= i < n ==> Space(s[i])
    ensures k > 0 ==> !Space(s[k - 1])
  {
    if n == 0 || !Space(s[n - 1]) then n else TrimmedLength(s, n - 1)
  }

  function TrimRight(s: string): string {
    s[..TrimmedLength(s, |s|)]
  }

  predicate CommandChar(c: char) {
    'A' <= c <= 'Z' || '0' <= c <= '9'
  }

  function NameOf(code: string): Name {
    if code == "XA" then XA
    else if code == "XZ" then XZ
    else if code == "CI" then CI
    else if code == "FO" then FO
    else if code == "FT" then FT
    else if code == "BY" then BY
    else if code == "A0" then A0
    else if code == "BC" then BC
    else if code == "BX" then BX
    else if code == "FH" then FH
    else Other(code)
  }

  lemma CodeOfName(code: string)
    ensures Code(NameOf(code)) == code
  {
  }

  const FIELD_DATA := "FD"

  predicate SeparatorAt(s: string, i: nat) {
    i + 3 <= |s| && s[i] == '^' && s[i + 1] == 'F' && s[i + 2] == 'S'
  }

  /** The first position at which a field separator stands. */
  function FindSeparator(s: string): (r: Option<nat>)
    ensures r.Some? ==> SeparatorAt(s, r.value)
    ensures forall i: nat :: i < (if r.Some? then r.value else |s|) ==> !SeparatorAt(s, i)
  {
    if |s| < 3 then None
    else if SeparatorAt(s, 0) then Some(0)
    else
      var r := FindSeparator(s[1..]);
      assert forall i: nat :: 0 < i && SeparatorAt(s, i) ==> SeparatorAt(s[1..], i - 1);
      if r.None? then None else Some(r.value + 1)
  }

  predicate LegalArguments(arguments: string) {
    forall i :: 0 <= i < |arguments| ==> arguments[i] != '~' && !Space(arguments[i])
  }

  predicate StartsCommand(s: string) {
    |s| >= 3 && s[0] == '^' && CommandChar(s[1]) && CommandChar(s[2])
  }

  /** The text before the next command prefix, or all of it. */
  function Before(body: string): string {
    body[..IndexOf(body, '^')]
  }

  /** The token at the front of a text. */
  function Lex(s: string): Option<Token> {
    if s == "" then None
    else if Space(s[0]) then Some(Blank(s[0]))
    else if !StartsCommand(s) then None
    else if s[1..3] == FIELD_DATA then
      match FindSeparator(s[3..])
      case None => None
      case Some(i) => Some(Data(s[3..][..i]))
    else
      var raw := TrimRight(Before(s[3..]));
      if LegalArguments(TrimLeft(raw)) then Some(Command(NameOf(s[1..3]), raw)) else None
  }

  lemma SplitCommand(s: string)
    requires StartsCommand(s)
    ensures s == ("^" + s[1..3]) + s[3..]
  {
  }

  lemma SplitData(body: string, i: nat)
    requires SeparatorAt(body, i)
    ensures body[..i] + "^FS" <= body
  {
    assert body[i..i + 3] == "^FS";
    assert body[..i + 3] == body[..i] + body[i..i + 3];
  }

  lemma PrefixGlue(head: string, a: string, b: string)
    requires a <= b
    ensures head + a <= head + b
  {
  }

  /** Lexing loses nothing: a token's text is the text it was read from. */
  lemma LexText(s: string)
    requires s != "" && Lex(s).Some?
    ensures Lex(s).value.Text() <= s && Lex(s).value.Text() != ""
  {
    match Lex(s).value {
      case Blank(c) =>
      case Command(name, raw) =>
        CodeOfName(s[1..3]);
        SplitCommand(s);
        PrefixGlue("^" + s[1..3], raw, s[3..]);
      case Data(source) =>
        SplitCommand(s);
        SplitData(s[3..], |source|);
        PrefixGlue("^FD", source + "^FS", s[3..]);
        assert "^" + s[1..3] == "^FD";
        assert "^FD" + source + "^FS" == "^FD" + (source + "^FS");
    }
  }

  // ----- trimming and searching -----

  /** Trimming is determined by where the last significant character is. */
  lemma TrimIs(s: string, n: nat)
    requires n <= |s| && (n > 0 ==> !Space(s[n - 1]))
    requires forall i :: n <= i < |s| ==> Space(s[i])
    ensures TrimRight(s) == s[..n]
  {
    var k := TrimmedLength(s, |s|);
    assert k == n;
  }

  lemma TrimRightGlue(a: string, b: string)
    requires AllSpace(b)
    ensures TrimRight(a + b) == TrimRight(a)
  {
    var n := TrimmedLength(a, |a|);
    TrimIs(a + b, n);
    TakeInside(a, b, n);
  }

  lemma IndexOfGlue(a: string, b: string, c: char)
    ensures IndexOf(a + b, c) == if IndexOf(a, c) < |a| then IndexOf(a, c) else |a| + IndexOf(b, c)
  {
    var i := IndexOf(a, c);
    IndexOfFirst(a + b, c, if i < |a| then i else |a| + IndexOf(b, c));
  }

  lemma FirstSeparator(s: string, i: nat)
    requires SeparatorAt(s, i) && forall j: nat :: j < i ==> !SeparatorAt(s, j)
    ensures FindSeparator(s) == Some(i)
  {
    assert i < |s|;
  }

  lemma SeparatorGlue(a: string, b: string)
    requires FindSeparator(a).Some?
    ensures FindSeparator(a + b) == FindSeparator(a)
  {
    var i := FindSeparator(a).value;
    forall j: nat | j < i
      ensures !SeparatorAt(a + b, j)
    {
      assert !SeparatorAt(a, j);
    }
    FirstSeparator(a + b, i);
  }

  lemma SeparatorTake(s: string, i: nat, n: nat)
    requires FindSeparator(s) == Some(i) && i + 3 <= n <= |s|
    ensures FindSeparator(s[..n]) == Some(i)
  {
    forall j: nat | j < i
      ensures !SeparatorAt(s[..n], j)
    {
      assert !SeparatorAt(s, j);
    }
    FirstSeparator(s[..n], i);
  }

  // ----- one token -----

  lemma BeforeGlue(body: string, more: string)
    requires Clean(more)
    ensures TrimRight(Before(body + more)) == TrimRight(Before(body))
  {
    var i := IndexOf(body, '^');
    IndexOfGlue(body, more, '^');
    if i < |body| {
      TakeInside(body, more, i);
    } else {
      var k := IndexOf(more, '^');
      TakeBeyond(body, more, k);
      TrimRightGlue(body, more[..k]);
    }
  }

  /** A token stays the same when clean text follows. */
  lemma LexExtend(s: string, more: string)
    requires s != "" && Lex(s).Some? && Clean(more)
    ensures Lex(s + more) == Lex(s)
  {
    if !Space(s[0]) {
      assert (s + more)[1..3] == s[1..3];
      assert (s + more)[3..] == s[3..] + more;
      if s[1..3] == FIELD_DATA {
        SeparatorGlue(s[3..], more);
        var i := FindSeparator(s[3..]).value;
        assert (s[3..] + more)[..i] == s[3..][..i];
      } else {
        BeforeGlue(s[3..], more);
      }
    }
  }

  lemma BeforeTake(body: string, k: nat)
    requires k <= |body|
    ensures Before(body[..k]) == if k <= |Before(body)| then Before(body)[..k] else Before(body)
  {
    var i := IndexOf(body, '^');
    IndexOfFirst(body[..k], '^', if k <= i then k else i);
  }

  lemma TrimTake(s: string, m: nat)
    requires |TrimRight(s)| <= m <= |s|
    ensures TrimRight(s[..m]) == TrimRight(s)
  {
    TrimIs(s[..m], |TrimRight(s)|);
  }

  lemma DataTruncate(s: string, n: nat)
    requires StartsCommand(s) && s[1..3] == FIELD_DATA && FindSeparator(s[3..]).Some?
    requires FindSeparator(s[3..]).value + 6 <= n <= |s|
    ensures Lex(s[..n]) == Lex(s)
  {
    var i := FindSeparator(s[3..]).value;
    var body := s[..n][3..];
    assert s[..n][1..3] == s[1..3] && body == s[3..][..n - 3];
    SeparatorTake(s[3..], i, n - 3);
    assert body[..i] == s[3..][..i];
  }

  lemma RawTake(body: string, m: nat)
    requires |TrimRight(Before(body))| <= m <= |body|
    ensures TrimRight(Before(body[..m])) == TrimRight(Before(body))
  {
    BeforeTake(body, m);
    if m <= |Before(body)| {
      TrimTake(Before(body), m);
    }
  }

  lemma CommandTruncate(s: string, n: nat)
    requires StartsCommand(s) && s[1..3] != FIELD_DATA
    requires |TrimRight(Before(s[3..]))| + 3 <= n <= |s|
    ensures Lex(s[..n]) == Lex(s)
  {
    assert s[..n][1..3] == s[1..3] && s[..n][3..] == s[3..][..n - 3];
    RawTake(s[3..], n - 3);
  }

  /** A token stays the same when text after it is cut off. */
  lemma LexTruncate(s: string, n: nat)
    requires s != "" && Lex(s).Some? && |Lex(s).value.Text()| <= n <= |s|
    ensures n > 0 && Lex(s[..n]) == Lex(s)
  {
    match Lex(s).value {
      case Blank(_) =>
      case Data(_) =>
        DataTruncate(s, n);
      case Command(_, _) =>
        CodeOfName(s[1..3]);
        CommandTruncate(s, n);
    }
  }

  lemma {:induction false} TrimLeftLast(s: string)
    requires s != "" && !Space(s[|s| - 1])
    ensures TrimLeft(s) != ""
    decreases |s|
  {
    if Space(s[0]) {
      TrimLeftLast(s[1..]);
    }
  }

  /** A command without arguments is read without trailing blanks. */
  lemma LexTrimmed(s: string)
    requires Lex(s).Some? && Lex(s).value.Command? && Lex(s).value.Arguments() == ""
    ensures Lex(s).value.raw == ""
  {
    var raw := Lex(s).value.raw;
    if raw != "" {
      TrimLeftLast(raw);
    }
  }
}
