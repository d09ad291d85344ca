/**
 A POSIX shell's reading of a command line (POSIX.1-2017, Shell Command Language, sections 2.2.1, 2.2.2 and 2.3), and
 single quoting. The shell here is deliberately strict: of expansions it knows one plain command substitution and
 double-quoted parameters, of operators `&&` and `>`; any other unquoted special character makes it give up, and so does
 NUL anywhere.
 */
module PosixShell {
  import opened Tables

  // ---- quoting ----

  /** Every `'` becomes `'\''`. */
  function Escaped(s: string): (r: string) {
    if s == "" then "" else (if s[0] == '\'' then "'\\''" else [s[0]]) + Escaped(s[1..])
  }

  function Quoted(s: string): (r: string) { "'" + Escaped(s) + "'" }

  // ---- the shell's tokens ----

  /** `Dynamic` is a word with an expansion in it, as it is written. */
  datatype Token = Word(text: string) | Dynamic(source: string) | AndIf | Redirect | Newline
  datatype Mode = Blank | InWord(acc: string) | InQuotes(acc: string) | AfterBackslash(acc: string) | AfterAmp
                | AfterDollar(acc: string) | InSubstitution(acc: string) | InDouble(acc: string)
                | InDynamic(acc: string)
  datatype Scan = Scan(tokens: seq<Token>, mode: Mode)
  const BEGIN := Scan([], Blank)

  /** Unquoted characters that stand for themselves wherever they appear in a word. */
  predicate Ordinary(c: char) {
    'a' <= c <= 'z' || 'A' <= c <= 'Z' || '0' <= c <= '9' || c in "_=-./"
  }

  function Read(s: Scan, c: char): (r: Option<Scan>) {
    if c == '\0' then None
    else match s.mode
      case InQuotes(acc) => Some(s.(mode := if c == '\'' then InWord(acc) else InQuotes(acc + [c])))
      case AfterBackslash(acc) => if c == '\n' then None else Some(s.(mode := InWord(acc + [c])))
      case AfterAmp => if c == '&' then Some(Scan(s.tokens + [AndIf], Blank)) else None
      case Blank =>
        if c == ' ' || c == '\t' then Some(s)
        else if c == '\n' then Some(s.(tokens := s.tokens + [Newline]))
        else if c == '&' then Some(s.(mode := AfterAmp))
        else if c == '\'' then Some(s.(mode := InQuotes("")))
        else if c == '\\' then Some(s.(mode := AfterBackslash("")))
        else if c == '>' then Some(s.(tokens := s.tokens + [Redirect]))
        else if c == '"' then Some(s.(mode := InDouble("\"")))
        else if Ordinary(c) then Some(s.(mode := InWord([c])))
        else None
      case InWord(acc) =>
        if c == ' ' || c == '\t' then Some(Scan(s.tokens + [Word(acc)], Blank))
        else if c == '\n' then Some(Scan(s.tokens + [Word(acc), Newline], Blank))
        else if c == '&' then Some(Scan(s.tokens + [Word(acc)], AfterAmp))
        else if c == '\'' then Some(s.(mode := InQuotes(acc)))
        else if c == '\\' then Some(s.(mode := AfterBackslash(acc)))
        else if c == '$' then Some(s.(mode := AfterDollar(acc + [c])))
        else if Ordinary(c) then Some(s.(mode := InWord(acc + [c])))
        else None
      case AfterDollar(acc) => if c == '(' then Some(s.(mode := InSubstitution(acc + [c]))) else None
      case InSubstitution(acc) =>
        if c == ')' then Some(s.(mode := InDynamic(acc + [c])))
        else if Ordinary(c) then Some(s.(mode := InSubstitution(acc + [c])))
        else None
      case InDouble(acc) =>
        if c == '"' then Some(s.(mode := InDynamic(acc + [c])))
        else if c == '$' || Ordinary(c) then Some(s.(mode := InDouble(acc + [c])))
        else None
      case InDynamic(acc) => if c == ' ' then Some(Scan(s.tokens + [Dynamic(acc)], Blank)) else None
  }

  function ReadAll(s: Scan, text: string): (r: Option<Scan>)
    decreases |text|
  {
    if text == "" then Some(s)
    else
      var next := Read(s, text[0]);
      if next.None? then None else ReadAll(next.value, text[1..])
  }

  /** The tokens of a whole text; none when it ends inside quotes, after a backslash or half an operator. */
  function Tokens(text: string): (r: Option<seq<Token>>) {
    var s := ReadAll(BEGIN, text);
    if s.None? then None else Closed(s.value)
  }

  function Closed(s: Scan): (r: Option<seq<Token>>) {
    match s.mode
    case Blank => Some(s.tokens)
    case InWord(acc) => Some(s.tokens + [Word(acc)])
    case _ => None
  }

  lemma {:induction false} ReadInTwo(s: Scan, a: string, b: string)
    ensures ReadAll(s, a + b) == if ReadAll(s, a).None? then None else ReadAll(ReadAll(s, a).value, b)
    decreases |a|
  {
    hide Read;
    if a == "" {
      assert a + b == b;
    } else {
      assert (a + b)[0] == a[0] && (a + b)[1..] == a[1..] + b;
      if Read(s, a[0]).Some? { ReadInTwo(Read(s, a[0]).value, a[1..], b); }
    }
  }

  predicate Clean(s: string) { '\0' !in s }

  lemma ReadOne(s: Scan, c: char)
    ensures ReadAll(s, [c]) == Read(s, c)
  {
    hide Read;
    var rest := [c][1..];
    assert rest == "";
  }

  /** Inside quotes, escaped text is read back as the text itself, and refused exactly when it holds a NUL. */
  lemma {:induction false} ReadEscaped(s: Scan, acc: string, text: string)
    requires s.mode == InQuotes(acc)
    ensures ReadAll(s, Escaped(text)) == if Clean(text) then Some(s.(mode := InQuotes(acc + text))) else None
    decreases |text|
  {
    if text == "" {
      assert acc + text == acc;
    } else {
      var first, rest := if text[0] == '\'' then "'\\''" else [text[0]], text[1..];
      assert text == [text[0]] + rest;
      ReadInTwo(s, first, Escaped(rest));
      if text[0] == '\'' { ReadQuote(s, acc); } else { ReadOne(s, text[0]); }
      if text[0] != '\0' {
        ReadEscaped(s.(mode := InQuotes(acc + [text[0]])), acc + [text[0]], rest);
        assert acc + [text[0]] + rest == acc + text;
      }
    }
  }

  lemma ReadQuote(s: Scan, acc: string)
    requires s.mode == InQuotes(acc)
    ensures ReadAll(s, "'\\''") == Some(s.(mode := InQuotes(acc + ['\''])))
  {
    var s1, s2, s3 := s.(mode := InWord(acc)), s.(mode := AfterBackslash(acc)), s.(mode := InWord(acc + ['\'']));
    assert Read(s, '\'') == Some(s1) && Read(s1, '\\') == Some(s2) && Read(s2, '\'') == Some(s3);
    assert Read(s3, '\'') == Some(s.(mode := InQuotes(acc + ['\''])));
    hide Read;
    var t := "'\\''";
    assert t[0] == '\'' && t[1..] == "\\''" && t[1..][0] == '\\' && t[1..][1..] == "''" && t[1..][1..][1..] == "'";
    ReadOne(s3, '\'');
    assert ReadAll(s2, "''") == ReadAll(s3, "'");
    assert ReadAll(s1, "\\''") == ReadAll(s2, "''");
  }

  /** The word being read when a quotation opens. */
  function WordSoFar(m: Mode): (acc: string) { if m.InWord? then m.acc else "" }

  /** A quoted text read in or between words extends the word by exactly that text. */
  lemma ReadQuoted(s: Scan, text: string)
    requires s.mode.Blank? || s.mode.InWord?
    ensures ReadAll(s, Quoted(text)) == if Clean(text) then Some(s.(mode := InWord(WordSoFar(s.mode) + text))) else None
  {
    var acc := WordSoFar(s.mode);
    var inside := s.(mode := InQuotes(acc));
    assert Quoted(text) == "'" + (Escaped(text) + "'");
    ReadInTwo(s, "'", Escaped(text) + "'");
    ReadOne(s, '\'');
    ReadInTwo(inside, Escaped(text), "'");
    ReadEscaped(inside, acc, text);
    ReadOne(s.(mode := InQuotes(acc + text)), '\'');
  }

  lemma {:induction false} ReadPlain(s: Scan, text: string)
    requires s.mode.InWord? && forall c | c in text :: Ordinary(c)
    ensures ReadAll(s, text) == Some(s.(mode := InWord(s.mode.acc + text)))
    decreases |text|
  {
    if text == "" {
      assert s.mode.acc + text == s.mode.acc;
    } else {
      assert text[0] in text && Read(s, text[0]) == Some(s.(mode := InWord(s.mode.acc + [text[0]])));
      hide Ordinary, Read;
      ReadPlain(s.(mode := InWord(s.mode.acc + [text[0]])), text[1..]);
      assert s.mode.acc + [text[0]] + text[1..] == s.mode.acc + text;
    }
  }

  lemma ReadPlainWord(s: Scan, text: string)
    requires s.mode.Blank? && text != "" && forall c | c in text :: Ordinary(c)
    ensures ReadAll(s, text) == Some(s.(mode := InWord(text)))
  {
    assert text[0] in text && Read(s, text[0]) == Some(s.(mode := InWord([text[0]])));
    hide Ordinary, Read;
    ReadPlain(s.(mode := InWord([text[0]])), text[1..]);
    assert [text[0]] + text[1..] == text;
  }

  lemma ReadSpace(s: Scan)
    requires s.mode.InWord?
    ensures ReadAll(s, " ") == Some(Scan(s.tokens + [Word(s.mode.acc)], Blank))
  {
    ReadOne(s, ' ');
  }

  /** Reading `text` leads from `s` to `r`. */
  predicate Reads(s: Scan, text: string, r: Scan) { ReadAll(s, text) == Some(r) }

  lemma Then(s: Scan, a: string, b: string, r: Scan, t: Scan)
    requires Reads(s, a, r) && Reads(r, b, t)
    ensures Reads(s, a + b, t)
  {
    hide ReadAll;
    ReadInTwo(s, a, b);
  }

  lemma ReadChar(s: Scan, c: char, r: Scan)
    requires Read(s, c) == Some(r)
    ensures Reads(s, [c], r)
  {
    hide Read;
    ReadOne(s, c);
  }
}
