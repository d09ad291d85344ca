/** The command line sent to the remote shell, and what that shell makes of it. */
module ShellQuoting {
  import opened Tables
  import opened PosixShell
  import opened ArgumentFilter

  // ---- the command line ----

  function Join(parts: seq<string>, sep: string): (r: string) {
    if parts == [] then "" else if |parts| == 1 then parts[0] else parts[0] + sep + Join(parts[1..], sep)
  }

  function QuotedAll(args: seq<string>): (r: seq<string>)
    ensures |r| == |args| && forall i | 0 <= i < |args| :: r[i] == Quoted(args[i])
  {
    if args == [] then [] else [Quoted(args[0])] + QuotedAll(args[1..])
  }

  predicate StartsWith(s: string, prefix: string) { prefix <= s }

  /** Local home directories do not exist on the remote machine. */
  predicate UsesCwd(cwd: Option<string>) {
    cwd.Some? && cwd.value != "" && !StartsWith(cwd.value, "/Users/") && !StartsWith(cwd.value, "/home/")
  }

  function Invocation(args: seq<string>): (r: string) { "claude " + Join(QuotedAll(args), " ") }

  /** An environment variable forwarded through a sourced file. */
  datatype Variable = Variable(key: string, value: string)

  function ExportLines(vars: seq<Variable>): (r: seq<string>)
    ensures |r| == |vars|
  {
    if vars == [] then [] else ["export " + vars[0].key + "=" + Quoted(vars[0].value)] + ExportLines(vars[1..])
  }

  /** The lines are joined by a backslash and the letter n, not by a newline. */
  function EnvFile(vars: seq<Variable>): (r: string) { Join(ExportLines(vars), "\\n") }

  /** The two forwarded tokens, where they are set and not empty. */
  function Forwarded(oauth: string, apiKey: string): (vars: seq<Variable>) {
    (if oauth != "" then [Variable("CLAUDE_CODE_OAUTH_TOKEN", oauth)] else [])
    + (if apiKey != "" then [Variable("ANTHROPIC_API_KEY", apiKey)] else [])
  }

  const NEW_FILE := "_e=$(mktemp)"
  const FILE_REF := "\"$_e\""

  function BeforeText(): (r: string) { NEW_FILE + " && " + "printf " + "'%s\\n'" + " " }

  function AfterText(): (r: string) {
    " > " + (FILE_REF + " && ") + "chmod " + "600 " + (FILE_REF + " && ") + ". " + (FILE_REF + " && ")
    + "rm " + "-f " + (FILE_REF + " && ")
  }

  /** The file is written, protected, sourced and removed before the program runs. */
  function EnvSetup(vars: seq<Variable>): (r: string) {
    if vars == [] then "" else BeforeText() + Quoted(EnvFile(vars)) + AfterText()
  }

  function CdPrefix(cwd: Option<string>): (r: string) {
    if UsesCwd(cwd) then "cd " + Quoted(cwd.value) + " && " else ""
  }

  function RemoteCommand(cwd: Option<string>, vars: seq<Variable>, args: seq<string>): (r: string) {
    CdPrefix(cwd) + (EnvSetup(vars) + Invocation(Filtered(args)))
  }

  // ---- the remote command ----

  function Words(args: seq<string>): (r: seq<Token>)
    ensures |r| == |args| && forall i | 0 <= i < |args| :: r[i] == Word(args[i])
  {
    if args == [] then [] else [Word(args[0])] + Words(args[1..])
  }

  predicate AllClean(args: seq<string>) { forall x | x in args :: Clean(x) }

  /** The state after some words, the last still open. */
  function After(tokens: seq<Token>, args: seq<string>): (r: Scan) {
    if args == [] then Scan(tokens, Blank)
    else Scan(tokens + Words(args[..|args| - 1]), InWord(args[|args| - 1]))
  }

  lemma AfterMore(tokens: seq<Token>, args: seq<string>)
    requires |args| > 1
    ensures After(tokens + [Word(args[0])], args[1..]) == After(tokens, args)
  {
    var rest := args[1..];
    assert rest[..|rest| - 1] == args[1..|args| - 1];
    assert args[..|args| - 1] == [args[0]] + rest[..|rest| - 1];
    assert Words(args[..|args| - 1]) == [Word(args[0])] + Words(rest[..|rest| - 1]);
  }

  lemma {:induction false} ReadQuotedAll(tokens: seq<Token>, args: seq<string>)
    ensures ReadAll(Scan(tokens, Blank), Join(QuotedAll(args), " ")) 
            == if AllClean(args) then Some(After(tokens, args)) else None
    decreases |args|
  {
    hide Read, Quoted, Clean;
    var s := Scan(tokens, Blank);
    if args != [] {
      var first, rest := args[0], args[1..];
      assert args == [first] + rest;
      assert AllClean(args) <==> Clean(first) && AllClean(rest);
      ReadQuoted(s, first);
      assert "" + first == first;
      var inFirst := Scan(tokens, InWord(first));
      if rest == [] {
        assert QuotedAll(args) == [Quoted(first)];
        assert AllClean(rest) && After(tokens, args) == inFirst by { assert tokens + [] == tokens; }
      } else {
        assert QuotedAll(args)[1..] == QuotedAll(rest);
        var tail := Join(QuotedAll(rest), " ");
        assert Join(QuotedAll(args), " ") == Quoted(first) + (" " + tail);
        ReadInTwo(s, Quoted(first), " " + tail);
        ReadInTwo(inFirst, " ", tail);
        ReadSpace(inFirst);
        ReadQuotedAll(tokens + [Word(first)], rest);
        AfterMore(tokens, args);
      }
    }
  }

  /** Wherever it stands, the invocation reads as `claude` and exactly its arguments, or is refused for a NUL. */
  lemma ReadInvocation(tokens: seq<Token>, args: seq<string>)
    ensures ReadAll(Scan(tokens, Blank), Invocation(args))
            == if AllClean(args) then Some(After(tokens + [Word("claude")], args)) else None
  {
    var s := Scan(tokens, Blank);
    var tail := Join(QuotedAll(args), " ");
    assert Invocation(args) == "claude" + (" " + tail);
    ReadPlainWord(s, "claude");
    hide Read, Ordinary;
    ReadInTwo(s, "claude", " " + tail);
    ReadInTwo(Scan(tokens, InWord("claude")), " ", tail);
    ReadSpace(Scan(tokens, InWord("claude")));
    ReadQuotedAll(tokens + [Word("claude")], args);
  }

  lemma ReadChangeDirectory(cwd: string)
    ensures ReadAll(BEGIN, "cd " + Quoted(cwd) + " && ")
            == if Clean(cwd) then Some(Scan([Word("cd"), Word(cwd), AndIf], Blank)) else None
  {
    ReadPlainWord(BEGIN, "cd");
    hide Read, Ordinary, Quoted, Clean;
    var s1, s2, s3 := Scan([], InWord("cd")), Scan([Word("cd")], Blank), Scan([Word("cd")], InWord(cwd));
    assert s1.tokens + [Word("cd")] == s2.tokens && s3.tokens + [Word(cwd), AndIf] == [Word("cd"), Word(cwd), AndIf];
    assert "cd " == "cd" + " ";
    ReadInTwo(BEGIN, "cd", " ");
    ReadSpace(s1);
    assert ReadAll(BEGIN, "cd ") == Some(s2);
    ReadInTwo(BEGIN, "cd ", Quoted(cwd));
    ReadQuoted(s2, cwd);
    assert "" + cwd == cwd;
    ReadInTwo(BEGIN, "cd " + Quoted(cwd), " && ");
    ReadAndIf(s3);
  }

  lemma ReadAndIf(s: Scan)
    requires s.mode.InWord?
    ensures ReadAll(s, " && ") == Some(Scan(s.tokens + [Word(s.mode.acc), AndIf], Blank))
  {
    var s1 := Scan(s.tokens + [Word(s.mode.acc)], Blank);
    var s2, s3 := s1.(mode := AfterAmp), Scan(s1.tokens + [AndIf], Blank);
    assert Read(s, ' ') == Some(s1) && Read(s1, '&') == Some(s2) && Read(s2, '&') == Some(s3) &&
        Read(s3, ' ') == Some(s3);
    hide Read;
    var t := " && ";
    assert t[1..] == "&& " && t[1..][1..] == "& " && t[1..][1..][1..] == " ";
    ReadOne(s3, ' ');
    assert ReadAll(s2, "& ") == ReadAll(s3, " ");
    assert ReadAll(s1, "&& ") == ReadAll(s2, "& ");
    assert s3.tokens == s.tokens + [Word(s.mode.acc), AndIf];
  }

  function ChangeDirectory(cwd: Option<string>): (r: seq<Token>) {
    if UsesCwd(cwd) then [Word("cd"), Word(cwd.value), AndIf] else []
  }

  lemma {:induction false} TokensOfAfter(tokens: seq<Token>, args: seq<string>)
    ensures Closed(After(tokens, args)) == Some(tokens + Words(args))
  {
    hide Words;
    if args == [] {
      NoWords();
      assert tokens + Words(args) == tokens;
    } else {
      WordsOfLast(args);
      assert tokens + Words(args[..|args| - 1]) + [Word(args[|args| - 1])] == tokens + Words(args);
    }
  }

  lemma NoWords()
    ensures Words([]) == []
  {
  }

  lemma {:induction false} WordsOfLast(args: seq<string>)
    requires args != []
    ensures Words(args) == Words(args[..|args| - 1]) + [Word(args[|args| - 1])]
  {
    hide Words;
    var init, last := args[..|args| - 1], args[|args| - 1];
    assert forall i | 0 <= i < |init| :: init[i] == args[i];
    assert Words(args) == Words(init) + [Word(last)];
  }

  // ---- the environment file ----

  predicate IsName(key: string) { key != "" && forall c | c in key :: Ordinary(c) }

  ghost predicate Forwardable(vars: seq<Variable>) {
    forall i | 0 <= i < |vars| :: IsName(vars[i].key) && Clean(vars[i].value)
  }

  /** The first quoting: `printf` is given the file's text as one word, whatever it holds. */
  lemma FileIsOneWord(file: string)
    ensures Tokens(Quoted(file)) == if Clean(file) then Some([Word(file)]) else None
  {
    hide Quoted;
    ReadQuoted(BEGIN, file);
    assert "" + file == file && [] + [Word(file)] == [Word(file)];
  }

  /** What sourcing the file assigns: every variable but the last has `nexport` appended to its value. */
  function Assigned(vars: seq<Variable>): (r: seq<Token>)
    ensures |r| == |vars|
  {
    if vars == [] then []
    else
      var word := vars[0].key + "=" + vars[0].value;
      [Word(if |vars| > 1 then word + "nexport" else word)] + Assigned(vars[1..])
  }

  function Intended(vars: seq<Variable>): (r: seq<Token>)
    ensures |r| == |vars|
  {
    if vars == [] then [] else [Word(vars[0].key + "=" + vars[0].value)] + Intended(vars[1..])
  }

  function Assignment(v: Variable): (r: string) { v.key + "=" + Quoted(v.value) }

  lemma ReadAssignment(s: Scan, v: Variable)
    requires s.mode.Blank? && IsName(v.key) && Clean(v.value)
    ensures ReadAll(s, Assignment(v)) == Some(s.(mode := InWord(v.key + "=" + v.value)))
  {
    hide Read, Quoted, Clean;
    assert Ordinary('=');
    ReadPlainWord(s, v.key + "=");
    ReadInTwo(s, v.key + "=", Quoted(v.value));
    ReadQuoted(s.(mode := InWord(v.key + "=")), v.value);
  }

  lemma ReadExport(s: Scan)
    requires s.mode.Blank?
    ensures ReadAll(s, "export ") == Some(s.(tokens := s.tokens + [Word("export")]))
  {
    ReadPlainWord(s, "export");
    hide Read, Ordinary;
    assert "export" + " " == "export ";
    ReadInTwo(s, "export", " ");
    ReadSpace(s.(mode := InWord("export")));
  }

  /** A backslash and an n inside a word add the n to it. */
  lemma ReadBackslashN(s: Scan)
    requires s.mode.InWord?
    ensures ReadAll(s, "\\n") == Some(s.(mode := InWord(s.mode.acc + ['n'])))
  {
    var s1 := s.(mode := AfterBackslash(s.mode.acc));
    assert Read(s, '\\') == Some(s1) && Read(s1, 'n') == Some(s.(mode := InWord(s.mode.acc + ['n'])));
    hide Read;
    assert "\\n" == ['\\'] + ['n'];
    ReadInTwo(s, ['\\'], ['n']);
    ReadOne(s, '\\');
    ReadOne(s1, 'n');
  }

  /** So the next line's `export` is glued to the value before it. */
  lemma ReadGluedExport(s: Scan)
    requires s.mode.InWord?
    ensures ReadAll(s, "\\nexport ") == Some(Scan(s.tokens + [Word(s.mode.acc + "nexport")], Blank))
  {
    var s2 := s.(mode := InWord(s.mode.acc + ['n']));
    ReadBackslashN(s);
    ReadPlain(s2, "export");
    hide Read, Ordinary;
    assert s.mode.acc + ['n'] + "export" == s.mode.acc + "nexport";
    assert "\\nexport " == "\\n" + "export" + " ";
    ReadInTwo(s, "\\n", "export");
    ReadInTwo(s, "\\n" + "export", " ");
    ReadSpace(s.(mode := InWord(s.mode.acc + "nexport")));
  }

  /** The file after its first `export `. */
  function Rest(vars: seq<Variable>): (r: string)
    requires vars != []
  {
    Assignment(vars[0]) + if |vars| == 1 then "" else "\\nexport " + Rest(vars[1..])
  }

  lemma {:induction false} FileShape(vars: seq<Variable>)
    requires vars != []
    ensures EnvFile(vars) == "export " + Rest(vars)
    decreases |vars|
  {
    hide Quoted;
    var lines := ExportLines(vars);
    assert lines[0] == "export " + Assignment(vars[0]);
    if |vars| > 1 {
      FileShape(vars[1..]);
      assert lines[1..] == ExportLines(vars[1..]);
      assert EnvFile(vars) == lines[0] + "\\n" + EnvFile(vars[1..]);
      assert "\\n" + ("export " + Rest(vars[1..])) == "\\nexport " + Rest(vars[1..]);
    }
  }

  lemma {:induction false} AssignedShape(vars: seq<Variable>, tokens: seq<Token>)
    requires vars != []
    ensures var word := vars[0].key + "=" + vars[0].value;
      if |vars| == 1 then tokens + Assigned(vars) == tokens + [Word(word)]
      else tokens + [Word(word + "nexport")] + Assigned(vars[1..]) == tokens + Assigned(vars)
  {
    if |vars| == 1 { assert Assigned(vars[1..]) == []; }
  }

  lemma {:induction false} ReadRest(s: Scan, vars: seq<Variable>)
    requires s.mode.Blank? && vars != [] && Forwardable(vars)
    ensures var r := ReadAll(s, Rest(vars));
      r.Some? && r.value.mode.InWord? && r.value.tokens + [Word(r.value.mode.acc)] == s.tokens + Assigned(vars)
    decreases |vars|
  {
    hide Read, ReadAll, Quoted, Assignment, IsName, Clean, Assigned;
    var v, word := vars[0], vars[0].key + "=" + vars[0].value;
    AssignedShape(vars, s.tokens);
    ReadAssignment(s, v);
    if |vars| == 1 {
      assert Rest(vars) == Assignment(v);
    } else {
      var tail := Rest(vars[1..]);
      var s1, s2 := s.(mode := InWord(word)), Scan(s.tokens + [Word(word + "nexport")], Blank);
      ReadInTwo(s, Assignment(v), "\\nexport " + tail);
      ReadInTwo(s1, "\\nexport ", tail);
      ReadGluedExport(s1);
      ReadRest(s2, vars[1..]);
    }
  }

  /** Sourcing the file runs one `export` with one assignment per variable, for all names and NUL-free values. */
  lemma SourcedFile(vars: seq<Variable>)
    requires vars != [] && Forwardable(vars)
    ensures Tokens(EnvFile(vars) + "\n") == Some([Word("export")] + Assigned(vars) + [Newline])
  {
    hide Read, Forwardable;
    FileShape(vars);
    ReadExport(BEGIN);
    var s := Scan([Word("export")], Blank);
    assert [] + [Word("export")] == [Word("export")];
    ReadRest(s, vars);
    var r := ReadAll(s, Rest(vars)).value;
    assert EnvFile(vars) + "\n" == "export " + (Rest(vars) + "\n");
    ReadInTwo(BEGIN, "export ", Rest(vars) + "\n");
    ReadInTwo(s, Rest(vars), "\n");
    ReadNewline(r);
  }

  lemma ReadNewline(s: Scan)
    requires s.mode.InWord?
    ensures ReadAll(s, "\n") == Some(Scan((s.tokens + [Word(s.mode.acc)]) + [Newline], Blank))
  {
    ReadOne(s, '\n');
    assert s.tokens + [Word(s.mode.acc), Newline] == (s.tokens + [Word(s.mode.acc)]) + [Newline];
  }

  lemma {:induction false} SourcedValuesIffOne(vars: seq<Variable>)
    requires vars != [] && Forwardable(vars)
    ensures Tokens(EnvFile(vars) + "\n") == Some([Word("export")] + Intended(vars) + [Newline]) <==> |vars| == 1
  {
    SourcedFile(vars);
    hide Forwardable, Tokens, EnvFile;
    var got, want := [Word("export")] + Assigned(vars) + [Newline], [Word("export")] + Intended(vars) + [Newline];
    var word := vars[0].key + "=" + vars[0].value;
    assert word + "" == word;
    assert |word + "nexport"| != |word|;
    assert got[1] == Assigned(vars)[0] && want[1] == Word(word);
    if |vars| == 1 {
      assert vars[1..] == [];
      assert got == want;
    }
  }

  // ---- the whole command ----

  /** A plain word and the blank after it. */
  lemma ReadWord(tokens: seq<Token>, text: string)
    requires text != "" && forall c | c in text :: Ordinary(c)
    ensures Reads(Scan(tokens, Blank), text + " ", Scan(tokens + [Word(text)], Blank))
  {
    ReadPlainWord(Scan(tokens, Blank), text);
    ReadSpace(Scan(tokens, InWord(text)));
    Then(Scan(tokens, Blank), text, " ", Scan(tokens, InWord(text)), Scan(tokens + [Word(text)], Blank));
  }

  lemma ReadDynamicAndIf(tokens: seq<Token>, acc: string)
    ensures Reads(Scan(tokens, InDynamic(acc)), " && ", Scan(tokens + [Dynamic(acc), AndIf], Blank))
  {
    var s0, s1 := Scan(tokens, InDynamic(acc)), Scan(tokens + [Dynamic(acc)], Blank);
    var s2, s3 := s1.(mode := AfterAmp), Scan(s1.tokens + [AndIf], Blank);
    assert Read(s0, ' ') == Some(s1) && Read(s1, '&') == Some(s2) && Read(s2, '&') == Some(s3) &&
        Read(s3, ' ') == Some(s3);
    hide Read;
    ReadChar(s0, ' ', s1);
    ReadChar(s1, '&', s2);
    ReadChar(s2, '&', s3);
    ReadChar(s3, ' ', s3);
    Then(s0, " ", "&", s1, s2);
    Then(s0, " &", "&", s2, s3);
    Then(s0, " &&", " ", s3, s3);
    assert s3.tokens == tokens + [Dynamic(acc), AndIf];
  }

  /** The reference to the file, and the `&&` after it. */
  lemma ReadFileRef(tokens: seq<Token>)
    ensures Reads(Scan(tokens, Blank), FILE_REF + " && ", Scan(tokens + [Dynamic(FILE_REF), AndIf], Blank))
  {
    var s := Scan(tokens, Blank);
    var a, b := s.(mode := InDouble("\"")), s.(mode := InDouble("\"$"));
    var c, d := s.(mode := InDouble("\"$_")), s.(mode := InDouble("\"$_e"));
    var e := s.(mode := InDynamic(FILE_REF));
    assert "\"" + ['$'] == "\"$" && "\"$" + ['_'] == "\"$_" && "\"$_" + ['e'] == "\"$_e" && "\"$_e" + ['"'] == FILE_REF;
    ReadChar(s, '"', a);
    ReadChar(a, '$', b);
    ReadChar(b, '_', c);
    ReadChar(c, 'e', d);
    ReadChar(d, '"', e);
    hide Read;
    Then(s, "\"", "$", a, b);
    Then(s, "\"$", "_", b, c);
    Then(s, "\"$_", "e", c, d);
    Then(s, "\"$_e", "\"", d, e);
    ReadDynamicAndIf(tokens, FILE_REF);
    Then(s, FILE_REF, " && ", e, Scan(tokens + [Dynamic(FILE_REF), AndIf], Blank));
  }

  lemma {:induction false} ReadSubstituted(s: Scan, text: string)
    requires s.mode.InSubstitution? && forall c | c in text :: Ordinary(c)
    ensures Reads(s, text, s.(mode := InSubstitution(s.mode.acc + text)))
    decreases |text|
  {
    if text == "" {
      assert s.mode.acc + text == s.mode.acc;
    } else {
      var next := s.(mode := InSubstitution(s.mode.acc + [text[0]]));
      assert text[0] in text && Read(s, text[0]) == Some(next);
      hide Ordinary, Read;
      ReadSubstituted(next, text[1..]);
      assert s.mode.acc + [text[0]] + text[1..] == s.mode.acc + text;
    }
  }

  lemma ReadNewFile(tokens: seq<Token>)
    ensures Reads(Scan(tokens, Blank), NEW_FILE + " && ", Scan(tokens + [Dynamic(NEW_FILE), AndIf], Blank))
  {
    var s := Scan(tokens, Blank);
    var a, b := s.(mode := InWord("_e=")), s.(mode := AfterDollar("_e=$"));
    var c, d := s.(mode := InSubstitution("_e=$(")), s.(mode := InSubstitution("_e=$(mktemp"));
    var e := s.(mode := InDynamic(NEW_FILE));
    assert "_e=" + ['$'] == "_e=$" && "_e=$" + ['('] == "_e=$(" && "_e=$(" + "mktemp" == "_e=$(mktemp";
    assert "_e=$(mktemp" + [')'] == NEW_FILE;
    ReadPlainWord(s, "_e=");
    ReadChar(a, '$', b);
    ReadChar(b, '(', c);
    ReadSubstituted(c, "mktemp");
    ReadChar(d, ')', e);
    hide Read, Ordinary;
    Then(s, "_e=", "$", a, b);
    Then(s, "_e=$", "(", b, c);
    Then(s, "_e=$(", "mktemp", c, d);
    Then(s, "_e=$(mktemp", ")", d, e);
    ReadDynamicAndIf(tokens, NEW_FILE);
    Then(s, NEW_FILE, " && ", e, Scan(tokens + [Dynamic(NEW_FILE), AndIf], Blank));
  }

  function BeforeFile(): (r: seq<Token>) { [Dynamic(NEW_FILE), AndIf, Word("printf"), Word("%s\\n")] }

  function AfterFile(): (r: seq<Token>) {
    [Redirect, Dynamic(FILE_REF), AndIf, Word("chmod"), Word("600"), Dynamic(FILE_REF), AndIf,
     Word("."), Dynamic(FILE_REF), AndIf, Word("rm"), Word("-f"), Dynamic(FILE_REF), AndIf]
  }

  /** What the setup text makes the shell do: write the file's text to a new file, source it and remove it. */
  function SetupTokens(file: string): (r: seq<Token>) { BeforeFile() + [Word(file)] + AfterFile() }

  lemma ReadBeforeFile(tokens: seq<Token>)
    ensures Reads(Scan(tokens, Blank), BeforeText(), Scan(tokens + BeforeFile(), Blank))
  {
    var s := Scan(tokens, Blank);
    var t1 := tokens + [Dynamic(NEW_FILE), AndIf];
    var t2 := t1 + [Word("printf")];
    ReadNewFile(tokens);
    ReadPrintf(t1);
    ReadFormat(t2);
    hide Reads;
    Then(s, NEW_FILE + " && ", "printf ", Scan(t1, Blank), Scan(t2, Blank));
    Then(s, NEW_FILE + " && " + "printf ", "'%s\\n'", Scan(t2, Blank), Scan(t2, InWord("%s\\n")));
    Then(s, NEW_FILE + " && " + "printf " + "'%s\\n'", " ", Scan(t2, InWord("%s\\n")),
         Scan(t2 + [Word("%s\\n")], Blank));
    assert t2 + [Word("%s\\n")] == tokens + BeforeFile();
  }

  lemma ReadPrintf(tokens: seq<Token>)
    ensures Reads(Scan(tokens, Blank), "printf ", Scan(tokens + [Word("printf")], Blank))
  {
    ReadWord(tokens, "printf");
    assert "printf" + " " == "printf ";
  }

  lemma ReadFormat(tokens: seq<Token>)
    ensures Reads(Scan(tokens, Blank), "'%s\\n'", Scan(tokens, InWord("%s\\n")))
    ensures Reads(Scan(tokens, InWord("%s\\n")), " ", Scan(tokens + [Word("%s\\n")], Blank))
  {
    ReadQuoted(Scan(tokens, Blank), "%s\\n");
    PlainEscape();
    assert "" + "%s\\n" == "%s\\n";
    ReadSpace(Scan(tokens, InWord("%s\\n")));
  }

  lemma PlainEscape()
    ensures Quoted("%s\\n") == "'%s\\n'" && Clean("%s\\n")
  {
    var t := "%s\\n";
    assert t[1..] == "s\\n" && t[1..][1..] == "\\n" && t[1..][1..][1..] == "n" && t[1..][1..][1..][1..] == "";
    assert Escaped("n") == "n" && Escaped("\\n") == "\\n" && Escaped("s\\n") == "s\\n" && Escaped(t) == t;
  }

  /** Plain words of the setup, with their blanks. */
  lemma ReadSetupWords(tokens: seq<Token>)
    ensures Reads(Scan(tokens, Blank), "chmod ", Scan(tokens + [Word("chmod")], Blank))
    ensures Reads(Scan(tokens, Blank), "600 ", Scan(tokens + [Word("600")], Blank))
    ensures Reads(Scan(tokens, Blank), ". ", Scan(tokens + [Word(".")], Blank))
    ensures Reads(Scan(tokens, Blank), "rm ", Scan(tokens + [Word("rm")], Blank))
    ensures Reads(Scan(tokens, Blank), "-f ", Scan(tokens + [Word("-f")], Blank))
  {
    ReadWord(tokens, "chmod");
    ReadWord(tokens, "600");
    ReadWord(tokens, ".");
    ReadWord(tokens, "rm");
    ReadWord(tokens, "-f");
    assert "chmod" + " " == "chmod " && "600" + " " == "600 " && "." + " " == ". " && "rm" + " " == "rm " &&
        "-f" + " " == "-f ";
  }

  lemma ReadRedirect(tokens: seq<Token>, file: string)
    ensures Reads(Scan(tokens, InWord(file)), " > ", Scan(tokens + [Word(file)] + [Redirect], Blank))
  {
    var s, t0 := Scan(tokens, InWord(file)), tokens + [Word(file)];
    ReadSpace(s);
    ReadChar(Scan(t0, Blank), '>', Scan(t0 + [Redirect], Blank));
    ReadChar(Scan(t0 + [Redirect], Blank), ' ', Scan(t0 + [Redirect], Blank));
    Then(s, " ", ">", Scan(t0, Blank), Scan(t0 + [Redirect], Blank));
    assert " " + ">" == " >" && " >" + " " == " > ";
    Then(s, " >", " ", Scan(t0 + [Redirect], Blank), Scan(t0 + [Redirect], Blank));
  }

  lemma ReadAfterFile(tokens: seq<Token>, file: string)
    ensures Reads(Scan(tokens, InWord(file)), AfterText(), Scan(tokens + [Word(file)] + AfterFile(), Blank))
  {
    var s, t0, ref := Scan(tokens, InWord(file)), tokens + [Word(file)], FILE_REF + " && ";
    var t1 := t0 + [Redirect];
    var t2 := t1 + [Dynamic(FILE_REF), AndIf];
    var t3 := t2 + [Word("chmod")];
    var t4 := t3 + [Word("600")];
    var t5 := t4 + [Dynamic(FILE_REF), AndIf];
    var t6 := t5 + [Word(".")];
    var t7 := t6 + [Dynamic(FILE_REF), AndIf];
    var t8 := t7 + [Word("rm")];
    var t9 := t8 + [Word("-f")];
    var t10 := t9 + [Dynamic(FILE_REF), AndIf];
    hide Reads;
    ReadRedirect(tokens, file);
    ReadFileRef(t1);
    Then(s, " > ", ref, Scan(t1, Blank), Scan(t2, Blank));
    ReadSetupWords(t2);
    Then(s, " > " + ref, "chmod ", Scan(t2, Blank), Scan(t3, Blank));
    ReadSetupWords(t3);
    var x := " > " + ref + "chmod ";
    Then(s, x, "600 ", Scan(t3, Blank), Scan(t4, Blank));
    ReadFileRef(t4);
    Then(s, x + "600 ", ref, Scan(t4, Blank), Scan(t5, Blank));
    ReadSetupWords(t5);
    var y := x + "600 " + ref;
    Then(s, y, ". ", Scan(t5, Blank), Scan(t6, Blank));
    ReadFileRef(t6);
    Then(s, y + ". ", ref, Scan(t6, Blank), Scan(t7, Blank));
    ReadSetupWords(t7);
    var z := y + ". " + ref;
    Then(s, z, "rm ", Scan(t7, Blank), Scan(t8, Blank));
    ReadSetupWords(t8);
    Then(s, z + "rm ", "-f ", Scan(t8, Blank), Scan(t9, Blank));
    ReadFileRef(t9);
    Then(s, z + "rm " + "-f ", ref, Scan(t9, Blank), Scan(t10, Blank));
    assert t10 == t0 + AfterFile();
  }

  /** The setup text is read as those commands, the file's text one word among them. */
  lemma ReadSetup(tokens: seq<Token>, vars: seq<Variable>)
    requires vars != []
    ensures ReadAll(Scan(tokens, Blank), EnvSetup(vars))
            == if Clean(EnvFile(vars)) then Some(Scan(tokens + SetupTokens(EnvFile(vars)), Blank)) else None
  {
    var file, s := EnvFile(vars), Scan(tokens, Blank);
    var mid := Scan(tokens + BeforeFile(), Blank);
    ReadBeforeFile(tokens);
    hide Quoted, Clean, EnvFile, BeforeText, AfterText, BeforeFile, AfterFile, Read;
    ReadQuoted(mid, file);
    assert "" + file == file;
    ReadAfterFile(tokens + BeforeFile(), file);
    ReadInTwo(s, BeforeText(), Quoted(file));
    ReadInTwo(s, BeforeText() + Quoted(file), AfterText());
    assert tokens + BeforeFile() + [Word(file)] + AfterFile() == tokens + SetupTokens(file);
  }

  function Setup(vars: seq<Variable>): (r: seq<Token>) {
    if vars == [] then [] else SetupTokens(EnvFile(vars))
  }

  predicate AllReadable(cwd: Option<string>, vars: seq<Variable>, args: seq<string>) {
    (UsesCwd(cwd) ==> Clean(cwd.value)) && (vars != [] ==> Clean(EnvFile(vars))) && AllClean(Filtered(args))
  }

  /** The shell undoes the quoting: for every directory, forwarded variables and arguments it reads the directory
      change, the setup with the file's text as one word, and exactly the filtered arguments; a NUL is the only thing
      that stops it. */
  lemma ShellUndoesQuoting(cwd: Option<string>, vars: seq<Variable>, args: seq<string>)
    ensures Tokens(RemoteCommand(cwd, vars, args))
            == if AllReadable(cwd, vars, args)
               then Some(ChangeDirectory(cwd) + Setup(vars) + [Word("claude")] + Words(Filtered(args)))
               else None
  {
    hide Quoted, AllClean, Clean, Filtered, Invocation, StartsWith, After, EnvFile, SetupTokens, EnvSetup, Read;
    var kept, cd := Filtered(args), ChangeDirectory(cwd);
    var t1 := cd + Setup(vars);
    ReadInvocation(t1, kept);
    TokensOfAfter(t1 + [Word("claude")], kept);
    var rest := EnvSetup(vars) + Invocation(kept);
    ReadRestOfCommand(cd, vars, kept);
    ReadInTwo(BEGIN, CdPrefix(cwd), rest);
    if UsesCwd(cwd) { ReadChangeDirectory(cwd.value); }
  }

  lemma ReadRestOfCommand(tokens: seq<Token>, vars: seq<Variable>, kept: seq<string>)
    ensures ReadAll(Scan(tokens, Blank), EnvSetup(vars) + Invocation(kept))
            == if (vars != [] ==> Clean(EnvFile(vars))) && AllClean(kept)
               then Some(After(tokens + Setup(vars) + [Word("claude")], kept))
               else None
  {
    hide Quoted, AllClean, Clean, Invocation, After, EnvFile, SetupTokens, Read;
    ReadInvocation(tokens + Setup(vars), kept);
    ReadInTwo(Scan(tokens, Blank), EnvSetup(vars), Invocation(kept));
    if vars == [] {
      assert tokens + Setup(vars) == tokens;
    } else {
      ReadSetup(tokens, vars);
    }
  }

  // ---- what arrives ----

  lemma {:induction false} EscapedIsClean(text: string)
    requires Clean(text)
    ensures Clean(Escaped(text))
    decreases |text|
  {
    if text != "" {
      assert text == [text[0]] + text[1..];
      EscapedIsClean(text[1..]);
      assert Clean("'\\''");
    }
  }

  lemma NamesAreClean(key: string)
    requires IsName(key)
    ensures Clean(key)
  {
    assert !Ordinary('\0');
  }

  lemma {:induction false} FileIsClean(vars: seq<Variable>)
    requires Forwardable(vars)
    ensures Clean(EnvFile(vars))
    decreases |vars|
  {
    if vars != [] {
      var v, lines := vars[0], ExportLines(vars);
      NamesAreClean(v.key);
      EscapedIsClean(v.value);
      assert Clean("export ") && Clean("=") && Clean("'") && Clean("\\n");
      assert Clean(lines[0]);
      if |vars| > 1 {
        FileIsClean(vars[1..]);
        assert lines[1..] == ExportLines(vars[1..]);
      }
    }
  }

  /** Through both quotings: the shell hands `printf` one word, and sourcing the file `printf` writes assigns every
      variable its own value if and only if there is only one. */
  lemma ValuesArriveIffOne(vars: seq<Variable>)
    requires vars != [] && Forwardable(vars)
    ensures exists w ::
              && Tokens(Quoted(EnvFile(vars))) == Some([Word(w)])
              && (Tokens(w + "\n") == Some([Word("export")] + Intended(vars) + [Newline]) <==> |vars| == 1)
  {
    hide Forwardable, Tokens, EnvFile, Quoted, Intended;
    FileIsClean(vars);
    FileIsOneWord(EnvFile(vars));
    SourcedValuesIffOne(vars);
  }

  lemma ForwardedIsForwardable(oauth: string, apiKey: string)
    requires Clean(oauth) && Clean(apiKey)
    ensures Forwardable(Forwarded(oauth, apiKey))
  {
    assert IsName("CLAUDE_CODE_OAUTH_TOKEN") && IsName("ANTHROPIC_API_KEY");
    hide IsName;
  }

  /** So with the tokens set to any NUL-free values, the command is read in full, and sourcing the file it writes
      exports the intended values if and only if not both tokens are set. */
  lemma TokensArriveIffOne(oauth: string, apiKey: string, cwd: Option<string>, args: seq<string>)
    requires Clean(oauth) && Clean(apiKey) && (oauth != "" || apiKey != "")
    requires (UsesCwd(cwd) ==> Clean(cwd.value)) && AllClean(Filtered(args))
    ensures var vars := Forwarded(oauth, apiKey);
      && Tokens(RemoteCommand(cwd, vars, args))
         == Some(ChangeDirectory(cwd) + SetupTokens(EnvFile(vars)) + [Word("claude")] + Words(Filtered(args)))
      && (Tokens(EnvFile(vars) + "\n") == Some([Word("export")] + Intended(vars) + [Newline])
          <==> oauth == "" || apiKey == "")
  {
    hide Forwardable, Tokens, EnvFile, RemoteCommand, SetupTokens, Intended, UsesCwd, AllClean, Clean;
    var vars := Forwarded(oauth, apiKey);
    ForwardedIsForwardable(oauth, apiKey);
    FileIsClean(vars);
    ShellUndoesQuoting(cwd, vars, args);
    SourcedValuesIffOne(vars);
  }
}
