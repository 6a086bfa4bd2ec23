/** Quoting for the shell, and the scripts run in a virtual machine (internal/backends/orbstack/cloud_init.go,
    internal/backends/orbstack/vm_client.go). */
module ShellQuoting {
  import opened Wrappers
  import opened Strings
  import opened Paths

  // ---------------------------------------------------------------- quoting

  /** strings.ReplaceAll of each single quote by a quote that closes, one in double quotes, and one that opens again. */
  function Escaped(value: string): string {
    if value == "" then ""
    else (if value[0] == '\'' then "'\"'\"'" else [value[0]]) + Escaped(value[1..])
  }

  function ShQuote(value: string): string {
    if value == "" then "''" else "'" + Escaped(value) + "'"
  }

  // ---------------------------------------------------------------- the shell's words

  /** A part of a word: a character, the value of a variable, or the output of the commands in $( ). An unquoted equals
      sign is kept apart from a quoted one. A word that starts with To is the target of the redirection >, and a command
      of a name and a Body defines a function. */
  datatype Unit =
    | Lit(c: char)
    | Var(name: string)
    | Equals
    | To
    | Output(commands: seq<seq<seq<Unit>>>)
    | Body(commands: seq<seq<seq<Unit>>>)

  type Word = seq<Unit>

  /** The last five follow a dollar sign, a greater-than sign, and in a function definition its ( , ) , { and }. */
  datatype Mode =
    | Bare
    | Single
    | Double
    | Name(name: string)
    | Dollar
    | Redirect
    | Opened
    | Header
    | Brace
    | Unbrace

  /** Where the text being read stands: in no brackets, in the $( ) of a word of a command, or in the { } of a function. */
  datatype Frame =
    | Top
    | Substitution(begun: Word, words: seq<Word>, commands: seq<seq<Word>>, outer: Frame)
    | Definition(name: Word, commands: seq<seq<Word>>, outer: Frame)

  /** A shell reading its input: the word it is in, the command's words so far, the commands before it, and the frame.
      Stuck stands for everything that this model of the shell does not read. */
  datatype Reader =
    | Reader(mode: Mode, word: Option<Word>, words: seq<Word>, commands: seq<seq<Word>>, frame: Frame)
    | Stuck

  const START := Reader(Bare, None, [], [], Top)

  predicate IsAlphanumeric(c: char) {
    'a' <= c <= 'z' || 'A' <= c <= 'Z' || '0' <= c <= '9' || c == '_'
  }

  /** Characters that stand for themselves outside quotes. */
  predicate Inert(c: char) {
    IsAlphanumeric(c) || c == '/' || c == '-' || c == '.'
  }

  function Lits(s: string): Word {
    seq(|s|, i requires 0 <= i < |s| => Lit(s[i]))
  }

  function Begun(r: Reader): Word
    requires r.Reader?
  {
    if r.word.Some? then r.word.value else []
  }

  function EndWord(r: Reader): Reader
    requires r.Reader?
  {
    if r.word.Some? then r.(word := None, words := r.words + [r.word.value]) else r
  }

  function EndCommand(r: Reader): Reader
    requires r.Reader?
  {
    if r.words == [] then r else r.(words := [], commands := r.commands + [r.words])
  }

  predicate Blank(c: char) {
    c == ' ' || c == '\t'
  }

  /** The characters that mean something outside quotes: assignment (section 2.9.1 of POSIX.1-2017 XCU), command
      substitution (2.6.3), lists (2.9.3), function definition (2.9.5) and redirection (2.7.2). */
  function ReadSpecial(r: Reader, c: char): Reader
    requires r.Reader?
  {
    if c == '=' && r.word.Some? then r.(word := Some(r.word.value + [Equals]))
    else if c == '$' then r.(mode := Dollar, word := Some(Begun(r)))
    else if c == ')' && r.frame.Substitution? then
      var commands := EndCommand(EndWord(r)).commands;
      Reader(Bare, Some(r.frame.begun + [Output(commands)]), r.frame.words, r.frame.commands, r.frame.outer)
    else if c == ';' && EndWord(r).words != [] then EndCommand(EndWord(r))
    else if c == '>' && r.word.None? then r.(mode := Redirect)
    else if c == '(' && r.word.Some? && r.words == [] then r.(mode := Opened)
    else if c == '}' && r.frame.Definition? && EndWord(r).words == [] && r.commands != [] then r.(mode := Unbrace)
    else Stuck
  }

  /** Word recognition with quoting, sections 2.2.2, 2.2.3 and 2.3 of POSIX.1-2017 XCU. In single quotes every character
      but the quote is literal; in double quotes every one but the quote, the dollar sign, the backquote and the
      backslash. */
  function Read(r: Reader, c: char): Reader {
    if r.Stuck? then Stuck
    else match r.mode
      case Bare =>
        if Blank(c) then EndWord(r)
        else if c == '\n' then EndCommand(EndWord(r))
        else if c == '\'' then r.(mode := Single, word := Some(Begun(r)))
        else if c == '"' then r.(mode := Double, word := Some(Begun(r)))
        else if Inert(c) then r.(word := Some(Begun(r) + [Lit(c)]))
        else ReadSpecial(r, c)
      case Single =>
        if c == '\'' then r.(mode := Bare)
        else if c == '\0' then Stuck
        else r.(word := Some(Begun(r) + [Lit(c)]))
      case Double =>
        if c == '"' then r.(mode := Bare)
        else if c == '$' then r.(mode := Name(""))
        else if c == '`' || c == '\\' || c == '\0' then Stuck
        else r.(word := Some(Begun(r) + [Lit(c)]))
      case Name(name) =>
        if IsAlphanumeric(c) then r.(mode := Name(name + [c]))
        else if c == '"' && name != "" then r.(mode := Bare, word := Some(Begun(r) + [Var(name)]))
        else Stuck
      case Dollar =>
        if c == '(' then Reader(Bare, None, [], [], Substitution(Begun(r), r.words, r.commands, r.frame)) else Stuck
      case Redirect =>
        if Blank(c) then r
        else if c == '"' then r.(mode := Double, word := Some([To]))
        else if c == '\'' then r.(mode := Single, word := Some([To]))
        else if Inert(c) then r.(mode := Bare, word := Some([To, Lit(c)]))
        else Stuck
      case Opened => if c == ')' then r.(mode := Header) else Stuck
      case Header => if Blank(c) then r else if c == '{' then r.(mode := Brace) else Stuck
      case Brace =>
        if Blank(c) || c == '\n' then Reader(Bare, None, [], [], Definition(Begun(r), r.commands, r.frame)) else Stuck
      case Unbrace =>
        if c == '\n' && r.frame.Definition? then
          Reader(Bare, None, [], r.frame.commands + [[r.frame.name, [Body(r.commands)]]], r.frame.outer)
        else Stuck
  }

  function Scan(s: string, r: Reader): Reader {
    if s == "" then r else Scan(s[1..], Read(r, s[0]))
  }

  /** The commands of a script, each a list of words; a quote or bracket left open at the end is an error. */
  function Parse(s: string): Option<seq<seq<Word>>> {
    var r := Scan(s, START);
    if r.Stuck? || !r.mode.Bare? || !r.frame.Top? then None else Some(EndCommand(EndWord(r)).commands)
  }

  lemma {:induction false} ScanConcat(a: string, b: string, r: Reader)
    ensures Scan(a + b, r) == Scan(b, Scan(a, r))
  {
    if a == "" {
      assert a + b == b;
    } else {
      assert (a + b)[1..] == a[1..] + b;
      ScanConcat(a[1..], b, Read(r, a[0]));
    }
  }

  // ---------------------------------------------------------------- quoting is undone

  predicate InMode(r: Reader, mode: Mode) {
    r.Reader? && r.mode == mode && (mode != Bare ==> r.word.Some?)
  }

  function With(r: Reader, more: Word): Reader
    requires r.Reader?
  {
    r.(word := Some(Begun(r) + more))
  }

  lemma WithWith(r: Reader, a: Word, b: Word)
    requires r.Reader?
    ensures With(With(r, a), b) == With(r, a + b)
  {
    assert Begun(r) + a + b == Begun(r) + (a + b);
  }

  lemma ScanEscapedQuote(r: Reader)
    requires InMode(r, Single)
    ensures Scan("'\"'\"'", r) == With(r, [Lit('\'')])
  {
    var s := "'\"'\"'";
    var r1 := r.(mode := Bare);
    var r2 := r1.(mode := Double);
    var r3 := With(r2, [Lit('\'')]);
    assert Scan(s, r) == Scan(s[1..], r1);
    assert s[1..][1..] == s[2..] && Scan(s[1..], r1) == Scan(s[2..], r2);
    assert s[2..][1..] == s[3..] && Scan(s[2..], r2) == Scan(s[3..], r3);
    assert s[3..][1..] == s[4..] && Scan(s[3..], r3) == Scan(s[4..], r3.(mode := Bare));
    assert s[4..][1..] == "" && Scan(s[4..], r3.(mode := Bare)) == Scan("", r3.(mode := Single));
  }

  lemma ScanOne(c: char, r: Reader)
    ensures Scan([c], r) == Read(r, c)
  {
    assert [c][1..] == "";
  }

  lemma {:induction false} ScanEscaped(value: string, r: Reader)
    requires InMode(r, Single) && '\0' !in value
    ensures Scan(Escaped(value), r) == With(r, Lits(value))
  {
    if value == "" {
      assert Begun(r) + Lits(value) == Begun(r);
    } else {
      var first := if value[0] == '\'' then "'\"'\"'" else [value[0]];
      if value[0] == '\'' {
        ScanEscapedQuote(r);
      } else {
        ScanOne(value[0], r);
      }
      var next := With(r, [Lit(value[0])]);
      ScanConcat(first, Escaped(value[1..]), r);
      ScanEscaped(value[1..], next);
      WithWith(r, [Lit(value[0])], Lits(value[1..]));
      assert [Lit(value[0])] + Lits(value[1..]) == Lits(value);
    }
  }

  /** Wherever a quoted value stands outside other quotes, the shell reads it back as exactly that value, within one
      word; and a word it is, if the value is empty too. */
  lemma QuotingIsUndone(value: string, r: Reader)
    requires InMode(r, Bare) && '\0' !in value
    ensures Scan(ShQuote(value), r) == With(r, Lits(value))
  {
    var open := r.(mode := Single, word := Some(Begun(r)));
    ScanOne('\'', r);
    ScanConcat("'", Escaped(value), r);
    ScanEscaped(value, open);
    ScanConcat("'" + Escaped(value), "'", r);
    ScanOne('\'', With(open, Lits(value)));
    assert ShQuote(value) == "'" + Escaped(value) + "'";
  }

  lemma FinishCommand(r: Reader, word: Word)
    requires r.Reader? && r.mode.Bare? && r.word.None? && r.commands == []
    ensures EndCommand(EndWord(r.(word := Some(word)))).commands == [r.words + [word]]
  {
  }

  /** A quoted value alone is one command of one word. */
  lemma QuotedIsOneWord(value: string)
    requires '\0' !in value
    ensures Parse(ShQuote(value)) == Some([[Lits(value)]])
  {
    QuotingIsUndone(value, START);
    assert [] + Lits(value) == Lits(value);
    FinishCommand(START, Lits(value));
    assert START.words + [Lits(value)] == [Lits(value)];
  }

  /** Quoting maps different values to different text. */
  lemma QuotingIsInjective(v: string, w: string)
    requires '\0' !in v && '\0' !in w && ShQuote(v) == ShQuote(w)
    ensures v == w
  {
    QuotedIsOneWord(v);
    QuotedIsOneWord(w);
    assert Lits(v) == Lits(w);
    assert |v| == |Lits(v)| == |w|;
    forall i | 0 <= i < |v| ensures v[i] == w[i] {
      assert Lits(v)[i] == Lits(w)[i];
    }
  }

  // ---------------------------------------------------------------- scripts

  /** How a script writes one word. */
  datatype Arg = Plain(text: string) | Quoted(value: string) | Variable(name: string)

  predicate GoodArg(arg: Arg) {
    match arg
    case Plain(text) => text != "" && forall i :: 0 <= i < |text| ==> Inert(text[i])
    case Quoted(value) => '\0' !in value
    case Variable(name) => name != "" && forall i :: 0 <= i < |name| ==> IsAlphanumeric(name[i])
  }

  function Text(arg: Arg): string {
    match arg
    case Plain(text) => text
    case Quoted(value) => ShQuote(value)
    case Variable(name) => "\"$" + name + "\""
  }

  function Meaning(arg: Arg): Word {
    match arg
    case Plain(text) => Lits(text)
    case Quoted(value) => Lits(value)
    case Variable(name) => [Var(name)]
  }

  lemma {:induction false} ScanInert(text: string, r: Reader)
    requires InMode(r, Bare) && text != "" && forall i :: 0 <= i < |text| ==> Inert(text[i])
    ensures Scan(text, r) == With(r, Lits(text))
  {
    var next := With(r, [Lit(text[0])]);
    if |text| == 1 {
      ScanOne(text[0], r);
      assert text == [text[0]] && Lits(text) == [Lit(text[0])];
    } else {
      ScanInert(text[1..], next);
      WithWith(r, [Lit(text[0])], Lits(text[1..]));
      assert [Lit(text[0])] + Lits(text[1..]) == Lits(text);
    }
  }

  lemma {:induction false} ScanName(name: string, r: Reader, read: string)
    requires InMode(r, Name(read)) && forall i :: 0 <= i < |name| ==> IsAlphanumeric(name[i])
    ensures Scan(name, r) == r.(mode := Name(read + name))
  {
    if name == "" {
      assert read + name == read;
    } else {
      ScanName(name[1..], Read(r, name[0]), read + [name[0]]);
      assert read + [name[0]] + name[1..] == read + name;
    }
  }

  lemma ScanVariable(name: string, r: Reader)
    requires InMode(r, Bare) && GoodArg(Variable(name))
    ensures Scan("\"$" + name + "\"", r) == With(r, [Var(name)])
  {
    ScanVariableName("\"$", name, r);
    ScanConcat("\"$" + name, ['"'], r);
    ScanOne('"', r.(mode := Name(name), word := Some(Begun(r))));
  }

  lemma ScanVariableName(front: string, name: string, r: Reader)
    requires InMode(r, Bare) && GoodArg(Variable(name)) && front == "\"$"
    ensures Scan(front + name, r) == r.(mode := Name(name), word := Some(Begun(r)))
  {
    ScanDollar(r, front);
    ScanConcat(front, name, r);
    ScanName(name, r.(mode := Name(""), word := Some(Begun(r))), "");
    assert "" + name == name;
  }

  lemma ScanDollar(r: Reader, text: string)
    requires InMode(r, Bare) && text == "\"$"
    ensures Scan(text, r) == r.(mode := Name(""), word := Some(Begun(r)))
  {
    assert text[1..] == "$";
    ScanOne('$', r.(mode := Double, word := Some(Begun(r))));
  }

  lemma ScanArg(arg: Arg, r: Reader)
    requires InMode(r, Bare) && GoodArg(arg)
    ensures Scan(Text(arg), r) == With(r, Meaning(arg))
  {
    match arg
    case Plain(text) => ScanInert(text, r);
    case Quoted(value) => QuotingIsUndone(value, r);
    case Variable(name) => ScanVariable(name, r);
  }

  function Line(args: seq<Arg>): string {
    if args == [] then "\n"
    else if |args| == 1 then Text(args[0]) + "\n" else Text(args[0]) + " " + Line(args[1..])
  }

  function Meanings(args: seq<Arg>): seq<Word> {
    seq(|args|, i requires 0 <= i < |args| => Meaning(args[i]))
  }

  predicate GoodLine(args: seq<Arg>) {
    args != [] && forall i :: 0 <= i < |args| ==> GoodArg(args[i])
  }

  lemma ScanWord(arg: Arg, end: char, r: Reader)
    requires r.Reader? && r.mode.Bare? && r.word.None? && GoodArg(arg) && (end == ' ' || end == '\n')
    ensures var r' := r.(words := r.words + [Meaning(arg)]);
            Scan(Text(arg) + [end], r) == if end == ' ' then r' else EndCommand(r')
  {
    ScanArg(arg, r);
    ScanConcat(Text(arg), [end], r);
    ScanOne(end, With(r, Meaning(arg)));
    assert [] + Meaning(arg) == Meaning(arg);
  }

  lemma {:induction false} ScanLine(args: seq<Arg>, r: Reader)
    requires r.Reader? && r.mode.Bare? && r.word.None? && GoodLine(args)
    ensures Scan(Line(args), r) == r.(words := [], commands := r.commands + [r.words + Meanings(args)])
    decreases |args|
  {
    if |args| == 1 {
      ScanWord(args[0], '\n', r);
      assert Meanings(args) == [Meaning(args[0])];
    } else {
      var next := r.(words := r.words + [Meaning(args[0])]);
      ScanWord(args[0], ' ', r);
      ScanConcat(Text(args[0]) + " ", Line(args[1..]), r);
      ScanLine(args[1..], next);
      assert r.words + Meanings(args) == next.words + Meanings(args[1..]);
    }
  }

  // ---------------------------------------------------------------- the scripts of the virtual machine client

  /** cleanVMPath: an absolute path, cleaned. */
  function CleanVmPath(vmPath: string): Option<string> {
    var trimmed := TrimSpace(vmPath);
    if trimmed == "" then None
    else Some(Clean("/" + (if trimmed[0] == '/' then trimmed[1..] else trimmed)))
  }

  function OctalDigit(n: nat): char
    requires n < 8
  {
    '0' + n as char
  }

  /** The permission bits as %04o prints them. */
  function Octal(mode: nat): string {
    var perm := mode % 512;
    ['0', OctalDigit(perm / 64), OctalDigit(perm / 8 % 8), OctalDigit(perm % 8)]
  }

  function MkdirScript(path: string, mode: nat): string {
    "set -eu\n"
    + ("sudo mkdir -p -- " + ShQuote(path) + "\n"
    + ("sudo chmod " + Octal(mode) + " -- " + ShQuote(path) + "\n"))
  }

  function RemoveScript(path: string): string {
    "set -eu\n"
    + ("sudo rm -rf -- " + ShQuote(path) + "\n")
  }

  const TEMPLATE := "/tmp/e2b-local.XXXXXX"

  /** The commands before the path is used. */
  function StageCommands(): seq<seq<Word>> {
    [Literal(["set", "-eu"]),
     [Lits("tmp") + [Equals, Output([Literal(["mktemp", TEMPLATE])])]],
     [Lits("cleanup"), [Body([Literal(["rm", "-f"]) + [[Var("tmp")]]])]],
     Literal(["trap", "cleanup", "EXIT"]),
     [Lits("cat"), [To, Var("tmp")]]]
  }

  /** Standard input goes to a temporary file that is removed when the script exits. */
  function StageScript(): string {
    "set -eu\n"
    + ("tmp=$(mktemp " + TEMPLATE + ")\n"
    + ("cleanup() { rm -f " + ("\"$tmp\"" + "; }\n")
    + ("trap cleanup EXIT\n"
    + "cat > \"$tmp\"\n")))
  }

  /** The lines after the one that fills the temporary file. */
  function InstallScript(path: string, mode: nat): string {
    "sudo mkdir -p -- " + ShQuote(Dir(path)) + "\n"
    + ("sudo install -m " + Octal(mode) + " \"$tmp\" " + ShQuote(path) + "\n")
  }

  function SymlinkScript(oldname: string, newname: string): string {
    "set -eu\n"
    + ("sudo mkdir -p -- " + ShQuote(Dir(newname)) + "\n"
    + ("sudo rm -rf -- " + ShQuote(newname) + "\n"
    + ("sudo ln -s -- " + ShQuote(oldname) + " " + ShQuote(newname) + "\n")))
  }

  /** What is sent over SSH to run a script. */
  function SshCommand(script: string): string {
    "/bin/sh -lc " + ShQuote(script)
  }

  // ---------------------------------------------------------------- what the shells run

  function Literal(words: seq<string>): seq<Word> {
    seq(|words|, i requires 0 <= i < |words| => Lits(words[i]))
  }

  /** The login shell is handed the script as its one argument, and reads these commands in it. */
  ghost predicate Runs(script: string, commands: seq<seq<Word>>) {
    && Parse(SshCommand(script)) == Some([Literal(["/bin/sh", "-lc", script])])
    && Parse(script) == Some(commands)
  }

  lemma {:induction false} EscapedHasNoNul(value: string)
    requires '\0' !in value
    ensures '\0' !in Escaped(value)
  {
    if value != "" {
      EscapedHasNoNul(value[1..]);
    }
  }

  lemma {:induction false} LineHasNoNul(args: seq<Arg>)
    requires GoodLine(args)
    ensures '\0' !in Line(args)
    decreases |args|
  {
    if args[0].Quoted? {
      EscapedHasNoNul(args[0].value);
    }
    assert '\0' !in Text(args[0]);
    if |args| > 1 {
      LineHasNoNul(args[1..]);
    }
  }

  lemma ScanTwoWords(a: string, b: string, text: string)
    requires GoodArg(Plain(a)) && GoodArg(Plain(b)) && text == a + " " + (b + " ")
    ensures Scan(text, START) == Reader(Bare, None, [Lits(a), Lits(b)], [], Top)
  {
    ScanWord(Plain(a), ' ', START);
    var r := Reader(Bare, None, [Lits(a)], [], Top);
    assert START.words + [Lits(a)] == [Lits(a)];
    ScanWord(Plain(b), ' ', r);
    ScanConcat(a + " ", b + " ", START);
  }

  lemma HandsOver(prefix: string, script: string)
    requires '\0' !in script && prefix == "/bin/sh -lc "
    ensures Parse(prefix + ShQuote(script)) == Some([[Lits("/bin/sh"), Lits("-lc"), Lits(script)]])
  {
    var r := Reader(Bare, None, [Lits("/bin/sh"), Lits("-lc")], [], Top);
    assert prefix == "/bin/sh" + " " + ("-lc" + " ");
    ScanTwoWords("/bin/sh", "-lc", prefix);
    ScanConcat(prefix, ShQuote(script), START);
    QuotingIsUndone(script, r);
    assert Begun(r) + Lits(script) == Lits(script);
    FinishCommand(r, Lits(script));
    assert r.words + [Lits(script)] == [Lits("/bin/sh"), Lits("-lc"), Lits(script)];
  }

  /** A script goes through the outer quoting as it is. */
  lemma SshHandsOver(script: string)
    requires '\0' !in script
    ensures Parse(SshCommand(script)) == Some([Literal(["/bin/sh", "-lc", script])])
  {
    HandsOver("/bin/sh -lc ", script);
    assert Literal(["/bin/sh", "-lc", script]) == [Lits("/bin/sh"), Lits("-lc"), Lits(script)];
  }

  lemma LineCons(arg: Arg, args: seq<Arg>)
    requires args != []
    ensures Line([arg] + args) == Text(arg) + " " + Line(args)
  {
    assert ([arg] + args)[1..] == args;
  }

  lemma LineOf2(a: Arg, b: Arg)
    ensures Line([a, b]) == Text(a) + " " + (Text(b) + "\n")
  {
    assert [a, b] == [a] + [b];
    LineCons(a, [b]);
  }

  lemma LineOf5(a: Arg, b: Arg, c: Arg, d: Arg, e: Arg)
    ensures Line([a, b, c, d, e]) == Text(a) + " " + (Text(b) + " " + (Text(c) + " " + (Text(d) + " " + (Text(e) + "\n"))))
  {
    LineOf2(d, e);
    assert [c, d, e] == [c] + [d, e] && [b, c, d, e] == [b] + [c, d, e] && [a, b, c, d, e] == [a] + [b, c, d, e];
    LineCons(c, [d, e]);
    LineCons(b, [c, d, e]);
    LineCons(a, [b, c, d, e]);
  }

  lemma LineOf6(a: Arg, b: Arg, c: Arg, d: Arg, e: Arg, f: Arg)
    ensures Line([a, b, c, d, e, f]) ==
              Text(a) + " " + (Text(b) + " " + (Text(c) + " " + (Text(d) + " " + (Text(e) + " " + (Text(f) + "\n")))))
  {
    LineOf5(b, c, d, e, f);
    assert [a, b, c, d, e, f] == [a] + [b, c, d, e, f];
    LineCons(a, [b, c, d, e, f]);
  }

  /** Text that follows fixed words, with the words run together. */
  lemma Fixed4(a: string, b: string, c: string, d: string, rest: string)
    ensures a + " " + (b + " " + (c + " " + (d + " " + rest))) == a + " " + b + " " + c + " " + d + " " + rest
  {
    var abc := a + " " + b + " " + c + " ";
    assert c + " " + (d + " " + rest) == c + " " + d + " " + rest;
    assert a + " " + (b + " " + (c + " " + d + " " + rest)) == abc + d + " " + rest;
  }

  /** The set -eu that most scripts start with, and commands under sudo. */
  const SET := [Plain("set"), Plain("-eu")]

  function Sudo(command: string, option: string, third: Arg, last: Arg): seq<Arg> {
    [Plain("sudo"), Plain(command), Plain(option), third, last]
  }

  lemma SetLine()
    ensures Says(SET, "set -eu\n", Literal(["set", "-eu"]))
  {
    LineOf2(Plain("set"), Plain("-eu"));
  }

  /** The line's text, and what the shell makes of it. */
  ghost predicate Says(args: seq<Arg>, text: string, words: seq<Word>) {
    GoodLine(args) && Line(args) == text && Meanings(args) == words
  }

  /** A line of four fixed words and a path; `prefix` is the text of the words. */
  lemma PathLine(command: string, option: string, third: string, path: string, prefix: string)
    requires prefix == "sudo" + " " + command + " " + option + " " + third + " " && '\0' !in path
    requires GoodArg(Plain(command)) && GoodArg(Plain(option)) && GoodArg(Plain(third))
    ensures Says(Sudo(command, option, Plain(third), Quoted(path)), prefix + ShQuote(path) + "\n",
                 Literal(["sudo", command, option, third, path]))
  {
    LineOf5(Plain("sudo"), Plain(command), Plain(option), Plain(third), Quoted(path));
    var rest := ShQuote(path) + "\n";
    Fixed4("sudo", command, option, third, rest);
    assert prefix + rest == prefix + ShQuote(path) + "\n";
  }

  lemma MkdirLine(path: string)
    requires '\0' !in path
    ensures Says(Sudo("mkdir", "-p", Plain("--"), Quoted(path)), "sudo mkdir -p -- " + ShQuote(path) + "\n",
                 Literal(["sudo", "mkdir", "-p", "--", path]))
  {
    PathLine("mkdir", "-p", "--", path, "sudo mkdir -p -- ");
  }

  lemma RemoveLine(path: string)
    requires '\0' !in path
    ensures Says(Sudo("rm", "-rf", Plain("--"), Quoted(path)), "sudo rm -rf -- " + ShQuote(path) + "\n",
                 Literal(["sudo", "rm", "-rf", "--", path]))
  {
    PathLine("rm", "-rf", "--", path, "sudo rm -rf -- ");
  }

  lemma ChmodLine(mode: string, path: string)
    requires '\0' !in path && GoodArg(Plain(mode))
    ensures Says(Sudo("chmod", mode, Plain("--"), Quoted(path)), "sudo chmod " + mode + " -- " + ShQuote(path) + "\n",
                 Literal(["sudo", "chmod", mode, "--", path]))
  {
    var prefix := "sudo chmod " + mode + " -- ";
    assert prefix == "sudo" + " " + "chmod" + " " + mode + " " + "--" + " ";
    PathLine("chmod", mode, "--", path, prefix);
  }

  /** sudo install -m <mode> "$tmp" <path> */
  function InstallArgs(mode: string, path: string): seq<Arg> {
    [Plain("sudo"), Plain("install"), Plain("-m"), Plain(mode), Variable("tmp"), Quoted(path)]
  }

  lemma InstallLine(mode: string, path: string)
    requires '\0' !in path && GoodArg(Plain(mode))
    ensures Says(InstallArgs(mode, path), "sudo install -m " + mode + " \"$tmp\" " + ShQuote(path) + "\n",
                 Literal(["sudo", "install", "-m", mode]) + [[Var("tmp")], Lits(path)])
  {
    InstallText(mode, path, "sudo install -m ", " \"$tmp\" ");
    InstallWords(mode, path);
  }

  lemma InstallWords(mode: string, path: string)
    requires '\0' !in path && GoodArg(Plain(mode))
    ensures GoodLine(InstallArgs(mode, path))
    ensures Meanings(InstallArgs(mode, path)) == Literal(["sudo", "install", "-m", mode]) + [[Var("tmp")], Lits(path)]
  {
    var words := Literal(["sudo", "install", "-m", mode]);
    assert words == [Lits("sudo"), Lits("install"), Lits("-m"), Lits(mode)];
    assert words + [[Var("tmp")], Lits(path)] ==
           [Lits("sudo"), Lits("install"), Lits("-m"), Lits(mode), [Var("tmp")], Lits(path)];
  }

  lemma InstallText(mode: string, path: string, prefix: string, tmp: string)
    requires prefix == "sudo" + " " + "install" + " " + "-m" + " " && tmp == " " + Text(Variable("tmp")) + " "
    ensures Line(InstallArgs(mode, path)) == prefix + mode + tmp + ShQuote(path) + "\n"
  {
    LineOf6(Plain("sudo"), Plain("install"), Plain("-m"), Plain(mode), Variable("tmp"), Quoted(path));
    var quoted, rest, front := Text(Variable("tmp")), ShQuote(path) + "\n", prefix + mode;
    Fixed4("sudo", "install", "-m", mode, quoted + " " + rest);
    Regroup(front, " ", quoted, " ", rest);
    Regroup(front, tmp, ShQuote(path), "", "\n");
  }

  lemma Regroup(a: string, b: string, c: string, d: string, e: string)
    ensures a + b + (c + d + e) == a + (b + c + d) + e
    ensures d == "" ==> a + b + (c + e) == a + b + c + e
  {
  }

  /** sudo ln -s -- <oldname> <newname> */
  function LinkArgs(oldname: string, newname: string): seq<Arg> {
    [Plain("sudo"), Plain("ln"), Plain("-s"), Plain("--"), Quoted(oldname), Quoted(newname)]
  }

  lemma LinkLine(oldname: string, newname: string)
    requires '\0' !in oldname && '\0' !in newname
    ensures Says(LinkArgs(oldname, newname), "sudo ln -s -- " + ShQuote(oldname) + " " + ShQuote(newname) + "\n",
                 Literal(["sudo", "ln", "-s", "--", oldname, newname]))
  {
    LinkText(oldname, newname, "sudo ln -s -- ");
    LinkWords(oldname, newname);
  }

  lemma LinkWords(oldname: string, newname: string)
    requires '\0' !in oldname && '\0' !in newname
    ensures GoodLine(LinkArgs(oldname, newname))
    ensures Meanings(LinkArgs(oldname, newname)) == Literal(["sudo", "ln", "-s", "--", oldname, newname])
  {
  }

  lemma LinkText(oldname: string, newname: string, prefix: string)
    requires prefix == "sudo" + " " + "ln" + " " + "-s" + " " + "--" + " "
    ensures Line(LinkArgs(oldname, newname)) == prefix + ShQuote(oldname) + " " + ShQuote(newname) + "\n"
  {
    LineOf6(Plain("sudo"), Plain("ln"), Plain("-s"), Plain("--"), Quoted(oldname), Quoted(newname));
    var old_, rest := ShQuote(oldname), ShQuote(newname) + "\n";
    Fixed4("sudo", "ln", "-s", "--", old_ + " " + rest);
    Regroup(prefix, "", old_, " ", rest);
    Regroup(prefix + old_, " ", ShQuote(newname), "", "\n");
    assert prefix + "" == prefix && "" + old_ + " " == old_ + " ";
    assert prefix + (old_ + " ") == prefix + old_ + " ";
  }

  // ---------------------------------------------------------------- scripts with more than words

  predicate AtLine(r: Reader) {
    r.Reader? && r.mode.Bare? && r.word.None? && r.words == []
  }

  /** Wherever a line starts, the text reads as these commands. */
  ghost predicate Reads(text: string, commands: seq<seq<Word>>) {
    '\0' !in text && forall r :: AtLine(r) ==> Scan(text, r) == r.(commands := r.commands + commands)
  }

  lemma ReadsInTurn(a: string, first: seq<seq<Word>>, b: string, second: seq<seq<Word>>)
    requires Reads(a, first) && Reads(b, second)
    ensures Reads(a + b, first + second)
  {
    forall r | AtLine(r) ensures Scan(a + b, r) == r.(commands := r.commands + (first + second)) {
      ScanConcat(a, b, r);
      Associate(r.commands, first, second);
    }
  }

  lemma ReadsRuns(text: string, commands: seq<seq<Word>>)
    requires Reads(text, commands)
    ensures Runs(text, commands)
  {
    var r := Scan(text, START);
    assert AtLine(START) && [] + commands == commands;
    assert r == START.(commands := commands);
    assert EndWord(r) == r && EndCommand(r) == r;
    SshHandsOver(text);
  }

  lemma LineReads(args: seq<Arg>)
    requires GoodLine(args)
    ensures Reads(Line(args), [Meanings(args)])
  {
    LineHasNoNul(args);
    forall r | AtLine(r) ensures Scan(Line(args), r) == r.(commands := r.commands + [Meanings(args)]) {
      ScanLine(args, r);
      assert r.words + Meanings(args) == Meanings(args);
    }
  }

  lemma TwoLines(a: seq<Arg>, b: seq<Arg>)
    requires GoodLine(a) && GoodLine(b)
    ensures Reads(Line(a) + Line(b), [Meanings(a), Meanings(b)])
  {
    LineReads(a);
    LineReads(b);
    ReadsInTurn(Line(a), [Meanings(a)], Line(b), [Meanings(b)]);
    assert [Meanings(a)] + [Meanings(b)] == [Meanings(a), Meanings(b)];
  }

  lemma ThreeLines(a: seq<Arg>, b: seq<Arg>, c: seq<Arg>)
    requires GoodLine(a) && GoodLine(b) && GoodLine(c)
    ensures Reads(Line(a) + (Line(b) + Line(c)), [Meanings(a), Meanings(b), Meanings(c)])
  {
    LineReads(a);
    TwoLines(b, c);
    ReadsInTurn(Line(a), [Meanings(a)], Line(b) + Line(c), [Meanings(b), Meanings(c)]);
    assert [Meanings(a)] + [Meanings(b), Meanings(c)] == [Meanings(a), Meanings(b), Meanings(c)];
  }

  lemma FourLines(a: seq<Arg>, b: seq<Arg>, c: seq<Arg>, d: seq<Arg>)
    requires GoodLine(a) && GoodLine(b) && GoodLine(c) && GoodLine(d)
    ensures Reads(Line(a) + (Line(b) + (Line(c) + Line(d))), [Meanings(a), Meanings(b), Meanings(c), Meanings(d)])
  {
    LineReads(a);
    ThreeLines(b, c, d);
    ReadsInTurn(Line(a), [Meanings(a)], Line(b) + (Line(c) + Line(d)), [Meanings(b), Meanings(c), Meanings(d)]);
    assert [Meanings(a)] + [Meanings(b), Meanings(c), Meanings(d)] ==
           [Meanings(a), Meanings(b), Meanings(c), Meanings(d)];
  }

  lemma Associate<T>(a: seq<T>, b: seq<T>, c: seq<T>)
    ensures a + (b + c) == a + b + c
  {
  }

  predicate AllInert(text: string) {
    text != "" && forall i :: 0 <= i < |text| ==> Inert(text[i])
  }

  /** name=$(command argument) */
  lemma AssignmentReads(name: string, command: string, argument: string)
    requires AllInert(name) && AllInert(command) && AllInert(argument)
    ensures Reads(name + ("=$(" + (command + " " + (argument + ")\n"))),
                  [[Lits(name) + [Equals, Output([[Lits(command), Lits(argument)]])]]])
  {
    var rest := command + " " + (argument + ")\n");
    forall r | AtLine(r)
      ensures Scan(name + ("=$(" + rest), r) ==
                r.(commands := r.commands + [[Lits(name) + [Equals, Output([[Lits(command), Lits(argument)]])]]])
    {
      ScanInert(name, r);
      ScanConcat(name, "=$(" + rest, r);
      assert [] + Lits(name) == Lits(name);
      ScanSubstitution(Lits(name), command, argument, With(r, Lits(name)));
    }
  }

  /** A command's first word and its blank, and then whatever follows. */
  lemma ScanFirstWord(word: string, rest: string, r: Reader)
    requires AllInert(word) && AtLine(r)
    ensures Scan(word + " " + rest, r) == Scan(rest, r.(words := [Lits(word)]))
  {
    ScanWord(Plain(word), ' ', r);
    ScanConcat(word + " ", rest, r);
    assert [] + [Lits(word)] == [Lits(word)];
  }

  lemma ScanSecondWord(word: string, rest: string, r: Reader)
    requires AllInert(word) && r.Reader? && r.mode.Bare? && r.word.None? && |r.words| == 1
    ensures Scan(word + " " + rest, r) == Scan(rest, r.(words := [r.words[0], Lits(word)]))
  {
    ScanWord(Plain(word), ' ', r);
    ScanConcat(word + " ", rest, r);
    assert r.words + [Lits(word)] == [r.words[0], Lits(word)];
  }

  lemma ScanSubstitution(begun: Word, command: string, argument: string, r: Reader)
    requires AllInert(command) && AllInert(argument)
    requires r.Reader? && r.mode.Bare? && r.word == Some(begun) && r.words == []
    ensures Scan("=$(" + (command + " " + (argument + ")\n")), r) ==
              r.(word := None, commands := r.commands + [[begun + [Equals, Output([[Lits(command), Lits(argument)]])]]])
  {
    var inner := Reader(Bare, None, [], [], Substitution(begun + [Equals], [], r.commands, r.frame));
    ScanOpen(r, "=$(");
    ScanConcat("=$(", command + " " + (argument + ")\n"), r);
    ScanFirstWord(command, argument + ")\n", inner);
    ScanArgument(argument, inner.(words := [Lits(command)]), ")\n");
    assert begun + [Equals] + [Output([[Lits(command), Lits(argument)]])]
           == begun + [Equals, Output([[Lits(command), Lits(argument)]])];
  }

  /** The last word in $( ), and the end of the line. */
  lemma ScanArgument(argument: string, r: Reader, end: string)
    requires AllInert(argument) && r.Reader? && r.mode.Bare? && r.word.None? && |r.words| == 1 && r.commands == []
    requires r.frame.Substitution? && r.frame.words == [] && end == ")\n"
    ensures var word := r.frame.begun + [Output([[r.words[0], Lits(argument)]])];
            Scan(argument + end, r) == Reader(Bare, None, [], r.frame.commands + [[word]], r.frame.outer)
  {
    ScanInert(argument, r);
    assert [] + Lits(argument) == Lits(argument);
    ScanConcat(argument, end, r);
    ScanClose(With(r, Lits(argument)), end);
    assert r.words + [Lits(argument)] == [r.words[0], Lits(argument)];
    assert [] + [[r.words[0], Lits(argument)]] == [[r.words[0], Lits(argument)]];
    Prepend(r.frame.begun + [Output([[r.words[0], Lits(argument)]])]);
  }

  lemma Prepend(word: Word)
    ensures [] + [word] == [word]
  {
  }

  lemma ScanOpen(r: Reader, text: string)
    requires r.Reader? && r.mode.Bare? && r.word.Some? && text == "=$("
    ensures Scan(text, r) == Reader(Bare, None, [], [], Substitution(Begun(r) + [Equals], r.words, r.commands, r.frame))
  {
    var r1 := r.(word := Some(Begun(r) + [Equals]));
    assert text[1..] == "$(" && "$("[1..] == "(";
    assert Scan(text, r) == Scan("$(", r1) == Scan("(", r1.(mode := Dollar));
    ScanOne('(', r1.(mode := Dollar));
  }

  lemma ScanClose(r: Reader, text: string)
    requires r.Reader? && r.mode.Bare? && r.word.Some? && text == ")\n" && r.frame.Substitution?
    ensures var word := r.frame.begun + [Output(r.commands + [r.words + [r.word.value]])];
            Scan(text, r) == Reader(Bare, None, [], r.frame.commands + [r.frame.words + [word]], r.frame.outer)
  {
    assert text[1..] == "\n";
    ScanOne('\n', Read(r, ')'));
  }

  /** name() { command option "$variable"; } */
  lemma FunctionReads(name: string, command: string, option: string, variable: string)
    requires AllInert(name) && AllInert(command) && AllInert(option) && GoodArg(Variable(variable))
    ensures Reads(name + ("() { " + (command + " " + (option + " " + (Text(Variable(variable)) + "; }\n")))),
                  [[Lits(name), [Body([[Lits(command), Lits(option), [Var(variable)]]])]]])
  {
    var body := command + " " + (option + " " + (Text(Variable(variable)) + "; }\n"));
    forall r | AtLine(r)
      ensures Scan(name + ("() { " + body), r) ==
                r.(commands := r.commands + [[Lits(name), [Body([[Lits(command), Lits(option), [Var(variable)]]])]]])
    {
      ScanInert(name, r);
      ScanConcat(name, "() { " + body, r);
      assert [] + Lits(name) == Lits(name);
      ScanHeader(With(r, Lits(name)), "() { ");
      ScanConcat("() { ", body, With(r, Lits(name)));
      var inner := Reader(Bare, None, [], [], Definition(Lits(name), r.commands, r.frame));
      ScanBody(inner, command, option, variable);
    }
  }

  lemma ScanHeader(r: Reader, text: string)
    requires r.Reader? && r.mode.Bare? && r.word.Some? && r.words == [] && text == "() { "
    ensures Scan(text, r) == Reader(Bare, None, [], [], Definition(Begun(r), r.commands, r.frame))
  {
    assert text[1..] == ") { " && ") { "[1..] == " { " && " { "[1..] == "{ " && "{ "[1..] == " ";
    assert Scan(text, r) == Scan(") { ", r.(mode := Opened)) == Scan(" { ", r.(mode := Header))
        == Scan("{ ", r.(mode := Header)) == Scan(" ", r.(mode := Brace));
    ScanOne(' ', r.(mode := Brace));
  }

  lemma ScanBody(r: Reader, command: string, option: string, variable: string)
    requires AllInert(command) && AllInert(option) && GoodArg(Variable(variable))
    requires AtLine(r) && r.commands == [] && r.frame.Definition?
    ensures Scan(command + " " + (option + " " + (Text(Variable(variable)) + "; }\n")), r) ==
              Reader(Bare, None, [], r.frame.commands
                     + [[r.frame.name, [Body([[Lits(command), Lits(option), [Var(variable)]]])]]], r.frame.outer)
  {
    var last := Text(Variable(variable)) + "; }\n";
    ScanFirstWord(command, option + " " + last, r);
    ScanSecondWord(option, last, r.(words := [Lits(command)]));
    ScanLast(variable, r.(words := [Lits(command), Lits(option)]), "; }\n");
  }

  lemma ScanLast(variable: string, r: Reader, end: string)
    requires GoodArg(Variable(variable)) && r.Reader? && r.mode.Bare? && r.word.None? && |r.words| == 2
    requires r.commands == [] && r.frame.Definition? && end == "; }\n"
    ensures var body := [[r.words[0], r.words[1], [Var(variable)]]];
            Scan(Text(Variable(variable)) + end, r) ==
              Reader(Bare, None, [], r.frame.commands + [[r.frame.name, [Body(body)]]], r.frame.outer)
  {
    ScanVariable(variable, r);
    ScanConcat(Text(Variable(variable)), end, r);
    assert [] + [Var(variable)] == [Var(variable)];
    ScanEnd(With(r, [Var(variable)]), end);
    assert r.words + [[Var(variable)]] == [r.words[0], r.words[1], [Var(variable)]];
    assert [] + [[r.words[0], r.words[1], [Var(variable)]]] == [[r.words[0], r.words[1], [Var(variable)]]];
  }

  lemma ScanEnd(r: Reader, text: string)
    requires r.Reader? && r.mode.Bare? && r.word.Some? && text == "; }\n" && r.frame.Definition?
    ensures var body := r.commands + [r.words + [r.word.value]];
            Scan(text, r) == Reader(Bare, None, [], r.frame.commands + [[r.frame.name, [Body(body)]]], r.frame.outer)
  {
    var r1 := EndCommand(EndWord(r));
    assert text[1..] == " }\n" && " }\n"[1..] == "}\n" && "}\n"[1..] == "\n";
    assert Scan(text, r) == Scan(" }\n", r1) == Scan("}\n", r1) == Scan("\n", r1.(mode := Unbrace));
    ScanOne('\n', r1.(mode := Unbrace));
  }

  /** command > "$variable" */
  lemma RedirectionReads(command: string, variable: string)
    requires AllInert(command) && GoodArg(Variable(variable))
    ensures Reads(command + " " + ("> " + (Text(Variable(variable)) + "\n")), [[Lits(command), [To, Var(variable)]]])
  {
    var target := Text(Variable(variable)) + "\n";
    forall r | AtLine(r)
      ensures Scan(command + " " + ("> " + target), r) ==
                r.(commands := r.commands + [[Lits(command), [To, Var(variable)]]])
    {
      ScanWord(Plain(command), ' ', r);
      ScanConcat(command + " ", "> " + target, r);
      var next := r.(words := [Lits(command)]);
      assert [] + [Lits(command)] == [Lits(command)];
      ScanGreater(next, "> ");
      ScanConcat("> ", target, next);
      ScanTarget(next.(mode := Redirect), variable);
      ScanConcat(Text(Variable(variable)), "\n", next.(mode := Redirect));
      ScanOne('\n', next.(word := Some([To, Var(variable)])));
      assert [Lits(command)] + [[To, Var(variable)]] == [Lits(command), [To, Var(variable)]];
    }
  }

  lemma ScanGreater(r: Reader, text: string)
    requires r.Reader? && r.mode.Bare? && r.word.None? && text == "> "
    ensures Scan(text, r) == r.(mode := Redirect)
  {
    assert text[1..] == " ";
    ScanOne(' ', r.(mode := Redirect));
  }

  lemma SameAfter(c: char, rest: string, text: string, r: Reader, other: Reader)
    requires Read(r, c) == Read(other, c) && text == [c] + rest
    ensures Scan(text, r) == Scan(text, other)
  {
    assert text[0] == c && text[1..] == rest;
  }

  lemma ScanTarget(r: Reader, variable: string)
    requires r.Reader? && r.mode.Redirect? && GoodArg(Variable(variable))
    ensures Scan(Text(Variable(variable)), r) == r.(mode := Bare, word := Some([To, Var(variable)]))
  {
    var bare := r.(mode := Bare, word := Some([To]));
    ScanVariable(variable, bare);
    assert [To] + [Var(variable)] == [To, Var(variable)];
    SameAfter('"', "$" + variable + "\"", Text(Variable(variable)), r, bare);
  }

  lemma AssignmentLine()
    ensures Reads("tmp=$(mktemp " + TEMPLATE + ")\n",
                  [[Lits("tmp") + [Equals, Output([Literal(["mktemp", TEMPLATE])])]]])
  {
    TemplateIsInert(TEMPLATE);
    AssignmentOf("tmp", "mktemp", TEMPLATE, "tmp=$(mktemp ");
  }

  lemma TemplateIsInert(template: string)
    requires template == TEMPLATE
    ensures AllInert(template)
  {
  }

  lemma AssignmentOf(name: string, command: string, argument: string, front: string)
    requires AllInert(name) && AllInert(command) && AllInert(argument)
    requires front == name + "=$(" + command + " "
    ensures Reads(front + argument + ")\n", [[Lits(name) + [Equals, Output([Literal([command, argument])])]]])
  {
    AssignmentReads(name, command, argument);
    assert name + ("=$(" + (command + " " + (argument + ")\n"))) == front + argument + ")\n";
    assert Literal([command, argument]) == [Lits(command), Lits(argument)];
  }

  lemma CleanupLine()
    ensures Reads("cleanup() { rm -f " + ("\"$tmp\"" + "; }\n"),
                  [[Lits("cleanup"), [Body([Literal(["rm", "-f"]) + [[Var("tmp")]]])]]])
  {
    FunctionOf("cleanup", "rm", "-f", "tmp", "cleanup() { rm -f ", "\"$tmp\"");
  }

  lemma FunctionOf(name: string, command: string, option: string, variable: string, front: string, quoted: string)
    requires AllInert(name) && AllInert(command) && AllInert(option) && GoodArg(Variable(variable))
    requires front == name + "() { " + command + " " + option + " " && quoted == Text(Variable(variable))
    ensures Reads(front + (quoted + "; }\n"), [[Lits(name), [Body([Literal([command, option]) + [[Var(variable)]]])]]])
  {
    FunctionReads(name, command, option, variable);
    FunctionText(name, "() { ", command, option, quoted + "; }\n");
    assert Literal([command, option]) + [[Var(variable)]] == [Lits(command), Lits(option), [Var(variable)]];
  }

  lemma FunctionText(name: string, open: string, command: string, option: string, rest: string)
    ensures name + (open + (command + " " + (option + " " + rest))) ==
            name + open + command + " " + option + " " + rest
  {
    assert command + " " + (option + " " + rest) == command + " " + option + " " + rest;
  }

  lemma TrapLine()
    ensures Reads("trap cleanup EXIT\n", [Literal(["trap", "cleanup", "EXIT"])])
  {
    WordsLine("trap", "cleanup", "EXIT", "trap cleanup EXIT\n");
  }

  lemma WordsLine(a: string, b: string, c: string, text: string)
    requires AllInert(a) && AllInert(b) && AllInert(c) && text == a + " " + b + " " + c + "\n"
    ensures Reads(text, [Literal([a, b, c])])
  {
    var args := [Plain(a), Plain(b), Plain(c)];
    LineReads(args);
    LineOf2(Plain(b), Plain(c));
    assert args == [Plain(a)] + [Plain(b), Plain(c)];
    LineCons(Plain(a), [Plain(b), Plain(c)]);
    assert a + " " + (b + " " + (c + "\n")) == text;
    assert Meanings(args) == Literal([a, b, c]);
  }

  lemma CatLine()
    ensures Reads("cat > \"$tmp\"\n", [[Lits("cat"), [To, Var("tmp")]]])
  {
    RedirectionReads("cat", "tmp");
    assert "cat" + " " + ("> " + (Text(Variable("tmp")) + "\n")) == "cat > \"$tmp\"\n";
  }

  lemma StageReads()
    ensures Reads(StageScript(), StageCommands())
  {
    SetLine();
    LineReads(SET);
    AssignmentLine();
    CleanupLine();
    TrapLine();
    CatLine();
    var c := StageCommands();
    InTurn5("set -eu\n", "tmp=$(mktemp " + TEMPLATE + ")\n", "cleanup() { rm -f " + ("\"$tmp\"" + "; }\n"),
            "trap cleanup EXIT\n", "cat > \"$tmp\"\n", c[0], c[1], c[2], c[3], c[4]);
    assert c == [c[0], c[1], c[2], c[3], c[4]];
  }

  lemma InTurn5(a: string, b: string, c: string, d: string, e: string,
      va: seq<Word>, vb: seq<Word>, vc: seq<Word>, vd: seq<Word>, ve: seq<Word>)
    requires Reads(a, [va]) && Reads(b, [vb]) && Reads(c, [vc]) && Reads(d, [vd]) && Reads(e, [ve])
    ensures Reads(a + (b + (c + (d + e))), [va, vb, vc, vd, ve])
  {
    ReadsInTurn(d, [vd], e, [ve]);
    ReadsInTurn(c, [vc], d + e, [vd] + [ve]);
    ReadsInTurn(b, [vb], c + (d + e), [vc] + ([vd] + [ve]));
    ReadsInTurn(a, [va], b + (c + (d + e)), [vb] + ([vc] + ([vd] + [ve])));
    assert [va] + ([vb] + ([vc] + ([vd] + [ve]))) == [va, vb, vc, vd, ve];
  }

  lemma OctalIsInert(mode: nat)
    ensures GoodArg(Plain(Octal(mode)))
  {
  }

  /** The value of a character as an octal digit. */
  function OctalValue(c: char): int {
    c as int - '0' as int
  }

  /** A mode is printed as a zero and three octal digits, which read as its permission bits. */
  lemma OctalReads(mode: nat)
    ensures var octal := Octal(mode);
            && |octal| == 4 && octal[0] == '0' && (forall i :: 0 <= i < 4 ==> '0' <= octal[i] <= '7')
            && OctalValue(octal[1]) * 64 + OctalValue(octal[2]) * 8 + OctalValue(octal[3]) == mode % 512
  {
  }

  lemma DefaultModes()
    ensures Octal(DIRECTORY_MODE) == "0755" && Octal(FILE_MODE) == "0644"
  {
  }

  // ---------------------------------------------------------------- paths in the machine

  /** A client's path, between white space, names the place to which its elements lead from the root. */
  ghost predicate Names(vmPath: string, parts: seq<string>) {
    && AllProper(parts)
    && exists elements ::
         && elements != [] && (forall i :: 0 <= i < |elements| ==> '/' !in elements[i])
         && TrimSpace(vmPath) != "" && TrimSpace(vmPath) == Join(elements, '/') && IsWalk(elements, parts)
  }

  function Absolute(parts: seq<string>): string {
    "/" + Join(parts, '/')
  }

  function Parent(parts: seq<string>): seq<string> {
    if parts == [] then [] else parts[..|parts| - 1]
  }

  /** A path names one place. */
  lemma NamesOne(vmPath: string, a: seq<string>, b: seq<string>)
    requires Names(vmPath, a) && Names(vmPath, b)
    ensures a == b
  {
    var v :| && v != [] && (forall i :: 0 <= i < |v| ==> '/' !in v[i])
             && TrimSpace(vmPath) == Join(v, '/') && IsWalk(v, a);
    var w :| && w != [] && (forall i :: 0 <= i < |w| ==> '/' !in w[i])
             && TrimSpace(vmPath) == Join(w, '/') && IsWalk(w, b);
    SplitJoin(v, '/');
    SplitJoin(w, '/');
    WalkIsOne(v, a, b);
  }

  /** The elements of the text that is cleaned, and of the trimmed path. */
  lemma RootedElements(trimmed: string)
    requires trimmed != ""
    ensures var raw := "/" + (if trimmed[0] == '/' then trimmed[1..] else trimmed);
            Resolve(Split(raw, '/'), [], true) == Resolve(Split(trimmed, '/'), [], true)
  {
    if trimmed[0] == '/' {
      assert "/" + trimmed[1..] == trimmed;
    } else {
      assert "/" + trimmed == [] + ['/'] + trimmed;
      SplitConcat([], trimmed, '/');
      assert Split([], '/') == [""];
      ResolveAround(Split(trimmed, '/'));
    }
  }

  /** What becomes of a client's path: it is refused exactly if there is nothing in it but white space, and else becomes the
      absolute path of the place that it names. */
  lemma VmPathIsTheWalk(vmPath: string) returns (parts: seq<string>)
    ensures CleanVmPath(vmPath).None? <==> forall i :: 0 <= i < |vmPath| ==> IsSpace(vmPath[i])
    ensures CleanVmPath(vmPath).Some? ==> Names(vmPath, parts) && CleanVmPath(vmPath).value == Absolute(parts)
  {
    var i, j := TrimSpaceCuts(vmPath);
    var trimmed := TrimSpace(vmPath);
    parts := [];
    if trimmed != "" {
      var elements := Split(trimmed, '/');
      parts := Resolve(elements, [], true);
      RootedElements(trimmed);
      ResolveWalks(elements);
      JoinSplit(trimmed, '/');
    }
  }

  /** A clean absolute path, not ending in white space, is taken as it is. */
  lemma CleanPathsStay(parts: seq<string>)
    requires AllProper(parts) && Trimmed(Absolute(parts))
    ensures CleanVmPath(Absolute(parts)) == Some(Absolute(parts))
  {
    TrimmedStays(Absolute(parts));
    CleanOfProper(parts);
  }

  lemma {:induction false} AbsoluteHasNoNul(vmPath: string, parts: seq<string>)
    requires '\0' !in vmPath && Names(vmPath, parts)
    ensures CleanVmPath(vmPath) == Some(Absolute(parts)) && Dir(Absolute(parts)) == Absolute(Parent(parts))
    ensures '\0' !in Absolute(parts) && '\0' !in Absolute(Parent(parts))
    ensures Absolute(parts) == "/" <==> parts == []
  {
    var named := VmPathIsTheWalk(vmPath);
    var i, j := TrimSpaceCuts(vmPath);
    NamesOne(vmPath, parts, named);
    TrimAddsNothing(vmPath, '\0');
    var trimmed := TrimSpace(vmPath);
    CleanAddsNothing("/" + (if trimmed[0] == '/' then trimmed[1..] else trimmed), '\0');
    DirOfRooted(parts);
    DirAddsNothing(Absolute(parts), '\0');
    if parts != [] {
      JoinStarts(parts);
    }
  }

  lemma PathOf(vmPath: string, parts: seq<string>) returns (path: string, parent: string)
    requires '\0' !in vmPath && Names(vmPath, parts)
    ensures path == Absolute(parts) && parent == Absolute(Parent(parts))
    ensures CleanVmPath(vmPath) == Some(path) && Dir(path) == parent && '\0' !in path && '\0' !in parent
    ensures path == "/" <==> parts == []
  {
    AbsoluteHasNoNul(vmPath, parts);
    path, parent := Absolute(parts), Absolute(Parent(parts));
  }

  // ---------------------------------------------------------------- main results

  const DIRECTORY_MODE: nat := 7 * 64 + 5 * 8 + 5
  const FILE_MODE: nat := 6 * 64 + 4 * 8 + 4

  /** The client's operations: the script each one runs, if it accepts its arguments. */
  function MkdirAll(vmPath: string, mode: nat): Option<string> {
    var path := CleanVmPath(vmPath);
    if path.None? then None else Some(MkdirScript(path.value, if mode == 0 then DIRECTORY_MODE else mode))
  }

  function RemoveAll(vmPath: string): Option<string> {
    var path := CleanVmPath(vmPath);
    if path.None? || path.value == "/" then None else Some(RemoveScript(path.value))
  }

  function WriteFile(vmPath: string, mode: nat): Option<string> {
    var path := CleanVmPath(vmPath);
    if path.None? then None
    else Some(StageScript() + InstallScript(path.value, if mode == 0 then FILE_MODE else mode))
  }

  function Symlink(oldname: string, vmPath: string): Option<string> {
    var target, path := TrimSpace(oldname), CleanVmPath(vmPath);
    if target == "" || path.None? || path.value == "/" then None else Some(SymlinkScript(target, path.value))
  }

  /** A blank path is refused by all of them. */
  lemma BlankIsRefused(vmPath: string, oldname: string, mode: nat)
    requires forall i :: 0 <= i < |vmPath| ==> IsSpace(vmPath[i])
    ensures MkdirAll(vmPath, mode).None? && RemoveAll(vmPath).None? && WriteFile(vmPath, mode).None?
    ensures Symlink(oldname, vmPath).None?
  {
    var parts := VmPathIsTheWalk(vmPath);
  }

  lemma MkdirReads(path: string, mode: nat)
    requires '\0' !in path
    ensures Runs(MkdirScript(path, mode),
                 [Literal(["set", "-eu"]),
                  Literal(["sudo", "mkdir", "-p", "--", path]),
                  Literal(["sudo", "chmod", Octal(mode), "--", path])])
  {
    OctalIsInert(mode);
    MkdirLine(path);
    ChmodLine(Octal(mode), path);
    SetLine();
    ThreeLines(SET, Sudo("mkdir", "-p", Plain("--"), Quoted(path)), Sudo("chmod", Octal(mode), Plain("--"), Quoted(path)));
    ReadsRuns(MkdirScript(path, mode),
              [Literal(["set", "-eu"]),
               Literal(["sudo", "mkdir", "-p", "--", path]),
               Literal(["sudo", "chmod", Octal(mode), "--", path])]);
  }

  lemma MkdirAllRuns(vmPath: string, mode: nat, parts: seq<string>)
    requires '\0' !in vmPath && Names(vmPath, parts)
    ensures MkdirAll(vmPath, mode).Some?
    ensures Runs(MkdirAll(vmPath, mode).value,
                 [Literal(["set", "-eu"]),
                  Literal(["sudo", "mkdir", "-p", "--", Absolute(parts)]),
                  Literal(["sudo", "chmod", if mode == 0 then "0755" else Octal(mode), "--", Absolute(parts)])])
  {
    var path, parent := PathOf(vmPath, parts);
    MkdirAllReads(vmPath, mode, path);
  }

  lemma MkdirAllReads(vmPath: string, mode: nat, path: string)
    requires CleanVmPath(vmPath) == Some(path) && '\0' !in path
    ensures MkdirAll(vmPath, mode).Some?
    ensures Runs(MkdirAll(vmPath, mode).value,
                 [Literal(["set", "-eu"]),
                  Literal(["sudo", "mkdir", "-p", "--", path]),
                  Literal(["sudo", "chmod", if mode == 0 then "0755" else Octal(mode), "--", path])])
  {
    DefaultModes();
    MkdirReads(path, if mode == 0 then DIRECTORY_MODE else mode);
  }

  lemma RemoveReads(path: string)
    requires '\0' !in path
    ensures Runs(RemoveScript(path), [Literal(["set", "-eu"]), Literal(["sudo", "rm", "-rf", "--", path])])
  {
    RemoveLine(path);
    SetLine();
    TwoLines(SET, Sudo("rm", "-rf", Plain("--"), Quoted(path)));
    ReadsRuns(RemoveScript(path), [Literal(["set", "-eu"]), Literal(["sudo", "rm", "-rf", "--", path])]);
  }

  /** What is removed is below the root, and never the root itself. */
  lemma RemoveAllRuns(vmPath: string, parts: seq<string>)
    requires '\0' !in vmPath && Names(vmPath, parts)
    ensures RemoveAll(vmPath).Some? <==> parts != []
    ensures parts != [] ==>
              Runs(RemoveAll(vmPath).value,
                   [Literal(["set", "-eu"]), Literal(["sudo", "rm", "-rf", "--", Absolute(parts)])])
  {
    var path, parent := PathOf(vmPath, parts);
    RemoveAllReads(vmPath, path);
  }

  lemma RemoveAllReads(vmPath: string, path: string)
    requires CleanVmPath(vmPath) == Some(path) && '\0' !in path
    ensures RemoveAll(vmPath).Some? <==> path != "/"
    ensures path != "/" ==>
              Runs(RemoveAll(vmPath).value, [Literal(["set", "-eu"]), Literal(["sudo", "rm", "-rf", "--", path])])
  {
    RemoveReads(path);
  }

  lemma InstallReads(path: string, parent: string, mode: nat)
    requires '\0' !in path && '\0' !in parent && Dir(path) == parent
    ensures Runs(StageScript() + InstallScript(path, mode),
                 StageCommands()
                 + [Literal(["sudo", "mkdir", "-p", "--", parent]),
                    Literal(["sudo", "install", "-m", Octal(mode)]) + [[Var("tmp")], Lits(path)]])
  {
    OctalIsInert(mode);
    MkdirLine(parent);
    InstallLine(Octal(mode), path);
    StageReads();
    TwoLines(Sudo("mkdir", "-p", Plain("--"), Quoted(parent)), InstallArgs(Octal(mode), path));
    var install := [Literal(["sudo", "mkdir", "-p", "--", parent]),
                    Literal(["sudo", "install", "-m", Octal(mode)]) + [[Var("tmp")], Lits(path)]];
    ReadsInTurn(StageScript(), StageCommands(), InstallScript(path, mode), install);
    ReadsRuns(StageScript() + InstallScript(path, mode), StageCommands() + install);
  }

  /** The whole script: standard input is staged, and then installed as the path. */
  lemma WriteFileRuns(vmPath: string, mode: nat, parts: seq<string>)
    requires '\0' !in vmPath && Names(vmPath, parts)
    ensures WriteFile(vmPath, mode).Some?
    ensures Runs(WriteFile(vmPath, mode).value,
                 [Literal(["set", "-eu"]),
                  [Lits("tmp") + [Equals, Output([Literal(["mktemp", "/tmp/e2b-local.XXXXXX"])])]],
                  [Lits("cleanup"), [Body([Literal(["rm", "-f"]) + [[Var("tmp")]]])]],
                  Literal(["trap", "cleanup", "EXIT"]),
                  [Lits("cat"), [To, Var("tmp")]]]
                 + [Literal(["sudo", "mkdir", "-p", "--", Absolute(Parent(parts))]),
                    Literal(["sudo", "install", "-m", if mode == 0 then "0644" else Octal(mode)])
                    + [[Var("tmp")], Lits(Absolute(parts))]])
  {
    var path, parent := PathOf(vmPath, parts);
    StageCommandsAre();
    WriteFileReads(vmPath, mode, path, parent);
  }

  lemma StageCommandsAre()
    ensures StageCommands() ==
              [Literal(["set", "-eu"]),
               [Lits("tmp") + [Equals, Output([Literal(["mktemp", "/tmp/e2b-local.XXXXXX"])])]],
               [Lits("cleanup"), [Body([Literal(["rm", "-f"]) + [[Var("tmp")]]])]],
               Literal(["trap", "cleanup", "EXIT"]),
               [Lits("cat"), [To, Var("tmp")]]]
  {
  }

  lemma WriteFileReads(vmPath: string, mode: nat, path: string, parent: string)
    requires CleanVmPath(vmPath) == Some(path) && Dir(path) == parent && '\0' !in path && '\0' !in parent
    ensures WriteFile(vmPath, mode).Some?
    ensures Runs(WriteFile(vmPath, mode).value,
                 StageCommands()
                 + [Literal(["sudo", "mkdir", "-p", "--", parent]),
                    Literal(["sudo", "install", "-m", if mode == 0 then "0644" else Octal(mode)])
                    + [[Var("tmp")], Lits(path)]])
  {
    DefaultModes();
    InstallReads(path, parent, if mode == 0 then FILE_MODE else mode);
  }

  lemma SymlinkRuns(oldname: string, vmPath: string, parts: seq<string>)
    requires '\0' !in oldname && '\0' !in vmPath && Names(vmPath, parts)
    ensures Symlink(oldname, vmPath).Some? <==> parts != [] && TrimSpace(oldname) != ""
    ensures Symlink(oldname, vmPath).Some? ==>
              Runs(Symlink(oldname, vmPath).value,
                   [Literal(["set", "-eu"]),
                    Literal(["sudo", "mkdir", "-p", "--", Absolute(Parent(parts))]),
                    Literal(["sudo", "rm", "-rf", "--", Absolute(parts)]),
                    Literal(["sudo", "ln", "-s", "--", TrimSpace(oldname), Absolute(parts)])])
  {
    var path, parent := PathOf(vmPath, parts);
    SymlinkIs(oldname, vmPath, path);
    TrimAddsNothing(oldname, '\0');
    SymlinkReads(TrimSpace(oldname), path, parent);
  }

  lemma SymlinkIs(oldname: string, vmPath: string, path: string)
    requires CleanVmPath(vmPath) == Some(path)
    ensures Symlink(oldname, vmPath).Some? <==> path != "/" && TrimSpace(oldname) != ""
    ensures Symlink(oldname, vmPath).Some? ==> Symlink(oldname, vmPath).value == SymlinkScript(TrimSpace(oldname), path)
  {
  }

  lemma SymlinkReads(target: string, path: string, parent: string)
    requires '\0' !in target && '\0' !in path && '\0' !in parent && Dir(path) == parent
    ensures Runs(SymlinkScript(target, path),
                 [Literal(["set", "-eu"]),
                  Literal(["sudo", "mkdir", "-p", "--", parent]),
                  Literal(["sudo", "rm", "-rf", "--", path]),
                  Literal(["sudo", "ln", "-s", "--", target, path])])
  {
    MkdirLine(parent);
    RemoveLine(path);
    LinkLine(target, path);
    SetLine();
    FourLines(SET, Sudo("mkdir", "-p", Plain("--"), Quoted(parent)), Sudo("rm", "-rf", Plain("--"), Quoted(path)),
              LinkArgs(target, path));
    ReadsRuns(SymlinkScript(target, path),
              [Literal(["set", "-eu"]),
               Literal(["sudo", "mkdir", "-p", "--", parent]),
               Literal(["sudo", "rm", "-rf", "--", path]),
               Literal(["sudo", "ln", "-s", "--", target, path])]);
  }
}
