/** The grammar of the shell in user/sh.c: the parser as functions on what is left of the input, the printed form of
    command trees, and the round trip between the two. */
module ShellSpec {
  const MAXARGS := 10
  const NUL := '\0'

  predicate White(c: char) { c == ' ' || c == '\t' || c == '\r' || c == '\n' || c == '\U{0B}' }
  predicate Symbol(c: char) { c == '<' || c == '|' || c == '>' || c == '&' || c == ';' || c == '(' || c == ')' }
  predicate WordChar(c: char) { !White(c) && !Symbol(c) }

  /** A token in the input: where it starts and ends, and its characters. */
  datatype Tok = Tok(q: nat, eq: nat, word: string)

  datatype Mode = Input | Output | Append

  datatype Cmd =
    | Exec(args: seq<Tok>)
    | Redir(cmd: Cmd, file: Tok, mode: Mode)
    | Pipe(left: Cmd, right: Cmd)
    | List(left: Cmd, right: Cmd)
    | Back(cmd: Cmd)

  /** What a parsing function makes of the input, and what it leaves; the shell's panic ends it. */
  datatype Result = Ok(cmd: Cmd, rest: string) | Panic

  // ----------------------------------------------------------------- tokens

  function Skip(s: string): (r: string)
    ensures |r| <= |s| && (r != "" ==> !White(r[0]))
    ensures s != "" && !White(s[0]) ==> r == s
  {
    if s != "" && White(s[0]) then Skip(s[1..]) else s
  }

  function WordLength(s: string): (n: nat)
    ensures n <= |s| && (n < |s| ==> !WordChar(s[n])) && forall i :: 0 <= i < n ==> WordChar(s[i])
  {
    if s != "" && WordChar(s[0]) then 1 + WordLength(s[1..]) else 0
  }

  /** gettoken, on input without leading white space: the kind of the token, NUL at the end of the input, '+' for
      >> and 'a' for a word, and its length. */
  function Kind(s: string): char {
    if s == "" then NUL
    else if |s| > 1 && s[0] == '>' && s[1] == '>' then '+'
    else if Symbol(s[0]) then s[0]
    else 'a'
  }

  function Length(s: string): (n: nat)
    ensures n <= |s| && (s != "" && !White(s[0]) ==> n > 0)
  {
    if s == "" then 0
    else if |s| > 1 && s[0] == '>' && s[1] == '>' then 2
    else if Symbol(s[0]) then 1
    else WordLength(s)
  }

  /** What gettoken leaves. */
  function After(s: string): (r: string)
    ensures |r| <= |s| && (s != "" && !White(s[0]) ==> |r| < |s|) && Clean(r)
  {
    Skip(s[Length(s)..])
  }

  /** Without leading white space. */
  predicate Clean(s: string) { s != "" ==> !White(s[0]) }

  /** The token at the start of s, which ends where the input of length n ends. */
  function TokAt(s: string, n: nat): Tok
    requires |s| <= n
  {
    Tok(n - |s|, n - |s| + Length(s), s[..Length(s)])
  }

  /** The sets of characters that the parser peeks for. */
  datatype Set = Redirect | Stop | Open | Close | Bar | Amp | Semi

  predicate Among(c: char, toks: Set) {
    match toks
    case Redirect => c == '<' || c == '>'
    case Stop => c == '|' || c == ')' || c == '&' || c == ';'
    case Open => c == '('
    case Close => c == ')'
    case Bar => c == '|'
    case Amp => c == '&'
    case Semi => c == ';'
  }

  predicate Peek(s: string, toks: Set) {
    s != "" && Among(s[0], toks)
  }

  // ----------------------------------------------------------------- parser

  datatype Redirs = Redirs(list: seq<(Tok, Mode)>, rest: string) | RedirPanic

  function ModeOf(kind: char): Mode {
    if kind == '<' then Input else if kind == '>' then Output else Append
  }

  /** parseredirs: the redirections at the start of s. */
  function ParseRedirs(s: string, n: nat): (r: Redirs)
    requires |s| <= n && Clean(s)
    ensures r.Redirs? ==> |r.rest| <= |s| && Clean(r.rest)
    decreases |s|
  {
    if !Peek(s, Redirect) then Redirs([], s)
    else
      var t := After(s);
      if Kind(t) != 'a' then RedirPanic
      else
        match ParseRedirs(After(t), n)
        case RedirPanic => RedirPanic
        case Redirs(l, rest) => Redirs([(TokAt(t, n), ModeOf(Kind(s)))] + l, rest)
  }

  /** Each redirection goes around what is there. */
  function Wrap(c: Cmd, l: seq<(Tok, Mode)>): Cmd
    decreases |l|
  {
    if l == [] then c else Wrap(Redir(c, l[0].0, l[0].1), l[1..])
  }

  datatype Words = Words(args: seq<Tok>, list: seq<(Tok, Mode)>, rest: string) | WordPanic

  /** The loop of parseexec, with k arguments so far. */
  function ParseWords(s: string, n: nat, k: nat): (r: Words)
    requires |s| <= n && Clean(s)
    ensures r.Words? ==> |r.rest| <= |s| && Clean(r.rest)
    decreases |s|
  {
    if Peek(s, Stop) || s == "" then Words([], [], s)
    else if Kind(s) != 'a' || k + 1 >= MAXARGS then WordPanic
    else
      match ParseRedirs(After(s), n)
      case RedirPanic => WordPanic
      case Redirs(l, rest) =>
        match ParseWords(rest, n, k + 1)
        case WordPanic => WordPanic
        case Words(args, l2, rest2) => Words([TokAt(s, n)] + args, l + l2, rest2)
  }

  function ParseExec(s: string, n: nat): (r: Result)
    requires |s| <= n && Clean(s)
    ensures r.Ok? ==> |r.rest| <= |s| && Clean(r.rest)
    decreases |s|, 0
  {
    if Peek(s, Open) then ParseBlock(s, n)
    else
      match ParseRedirs(s, n)
      case RedirPanic => Panic
      case Redirs(l, rest) =>
        match ParseWords(rest, n, 0)
        case WordPanic => Panic
        case Words(args, l2, rest2) => Ok(Wrap(Exec(args), l + l2), rest2)
  }

  function ParseBlock(s: string, n: nat): (r: Result)
    requires |s| <= n && Clean(s) && Peek(s, Open)
    ensures r.Ok? ==> |r.rest| <= |s| && Clean(r.rest)
    decreases |s|, 0, 0
  {
    match ParseLine(After(s), n)
    case Panic => Panic
    case Ok(c, rest) =>
      if !Peek(rest, Close) then Panic
      else
        match ParseRedirs(After(rest), n)
        case RedirPanic => Panic
        case Redirs(l, rest2) => Ok(Wrap(c, l), rest2)
  }

  function ParsePipe(s: string, n: nat): (r: Result)
    requires |s| <= n && Clean(s)
    ensures r.Ok? ==> |r.rest| <= |s| && Clean(r.rest)
    decreases |s|, 1
  {
    match ParseExec(s, n)
    case Panic => Panic
    case Ok(c, rest) =>
      if !Peek(rest, Bar) then Ok(c, rest)
      else
        match ParsePipe(After(rest), n)
        case Panic => Panic
        case Ok(c2, rest2) => Ok(Pipe(c, c2), rest2)
  }

  /** The loop of parseline over '&'. */
  function Backs(c: Cmd, s: string): (r: (Cmd, string))
    requires Clean(s)
    ensures |r.1| <= |s| && Clean(r.1)
    decreases |s|
  {
    if Peek(s, Amp) then Backs(Back(c), After(s)) else (c, s)
  }

  /** The first half of parseline. */
  function ParseBack(s: string, n: nat): (r: Result)
    requires |s| <= n && Clean(s)
    ensures r.Ok? ==> |r.rest| <= |s| && Clean(r.rest)
    decreases |s|, 2
  {
    match ParsePipe(s, n)
    case Panic => Panic
    case Ok(c, rest) => var (c1, rest1) := Backs(c, rest); Ok(c1, rest1)
  }

  function ParseLine(s: string, n: nat): (r: Result)
    requires |s| <= n && Clean(s)
    ensures r.Ok? ==> |r.rest| <= |s| && Clean(r.rest)
    decreases |s|, 3
  {
    match ParseBack(s, n)
    case Panic => Panic
    case Ok(c, rest) =>
      if !Peek(rest, Semi) then Ok(c, rest)
      else
        match ParseLine(After(rest), n)
        case Panic => Panic
        case Ok(c2, rest2) => Ok(List(c, c2), rest2)
  }

  /** parsecmd, without nulterminate: all of the input must be used. */
  function Parse(s: string): (r: Result)
    ensures r.Ok? ==> r.rest == ""
  {
    match ParseLine(Skip(s), |s|)
    case Panic => Panic
    case Ok(c, rest) => if rest == "" then Ok(c, rest) else Panic
  }

  // ------------------------------------------------------------ command trees

  /** A command as a user thinks of it. */
  datatype Tree =
    | TExec(args: seq<string>)
    | TRedir(cmd: Tree, file: string, mode: Mode)
    | TPipe(left: Tree, right: Tree)
    | TList(left: Tree, right: Tree)
    | TBack(cmd: Tree)

  function Strings(args: seq<Tok>): (r: seq<string>)
    ensures |r| == |args|
  {
    if args == [] then [] else [args[0].word] + Strings(args[1..])
  }

  /** The tree that a parsed command stands for. */
  function Erase(c: Cmd): Tree {
    match c
    case Exec(args) => TExec(Strings(args))
    case Redir(d, file, mode) => TRedir(Erase(d), file.word, mode)
    case Pipe(l, r) => TPipe(Erase(l), Erase(r))
    case List(l, r) => TList(Erase(l), Erase(r))
    case Back(d) => TBack(Erase(d))
  }

  predicate IsWord(w: string) { w != "" && forall i :: 0 <= i < |w| ==> WordChar(w[i]) }

  /** Words for words, and no more arguments than fit. */
  predicate Proper(t: Tree) {
    match t
    case TExec(args) => |args| < MAXARGS && forall i :: 0 <= i < |args| ==> IsWord(args[i])
    case TRedir(d, file, _) => Proper(d) && IsWord(file)
    case TPipe(l, r) => Proper(l) && Proper(r)
    case TList(l, r) => Proper(l) && Proper(r)
    case TBack(d) => Proper(d)
  }

  // --------------------------------------------------------------- printing

  /** How far the functions below go down before they come to the level of t: a list is printed at level 0, a
      background command at 1, a pipeline at 2 and anything else at 3. */
  function Rank(level: nat, t: Tree): nat
    requires level < 4
  {
    var own := if t.TList? then 0 else if t.TBack? then 1 else if t.TPipe? then 2 else 3;
    if level <= own then own - level else own + 4 - level
  }

  function PrintArgs(args: seq<string>): string {
    if args == [] then "" else args[0] + " " + PrintArgs(args[1..])
  }

  function PrintMode(mode: Mode): string {
    match mode case Input => "< " case Output => "> " case Append => ">> "
  }

  function PrintLine(t: Tree): string
    decreases t, Rank(0, t)
  {
    if t.TList? then PrintBack(t.left) + "; " + PrintLine(t.right) else PrintBack(t)
  }

  function PrintBack(t: Tree): string
    decreases t, Rank(1, t)
  {
    if t.TBack? then PrintBack(t.cmd) + "& " else PrintPipe(t)
  }

  function PrintPipe(t: Tree): string
    decreases t, Rank(2, t)
  {
    if t.TPipe? then PrintPart(t.left) + "| " + PrintPipe(t.right) else PrintPart(t)
  }

  /** A command as part of a pipeline: anything but a simple command with its redirections is in parentheses. */
  function PrintPart(t: Tree): string
    decreases t, Rank(3, t)
  {
    if t.TExec? then PrintArgs(t.args)
    else if t.TRedir? then PrintPart(t.cmd) + PrintMode(t.mode) + t.file + " "
    else "( " + PrintLine(t) + ") "
  }

  // ----------------------------------------------- parts and their redirections

  function Base(t: Tree): Tree {
    if t.TRedir? then Base(t.cmd) else t
  }

  function Around(t: Tree): seq<(string, Mode)> {
    if t.TRedir? then Around(t.cmd) + [(t.file, t.mode)] else []
  }

  function TWrap(t: Tree, l: seq<(string, Mode)>): Tree
    decreases |l|
  {
    if l == [] then t else TWrap(TRedir(t, l[0].0, l[0].1), l[1..])
  }

  function PrintRedirs(l: seq<(string, Mode)>): string {
    if l == [] then "" else PrintMode(l[0].1) + l[0].0 + " " + PrintRedirs(l[1..])
  }

  predicate ProperRedirs(l: seq<(string, Mode)>) { forall i :: 0 <= i < |l| ==> IsWord(l[i].0) }

  lemma {:induction false} TWrapMore(t: Tree, l: seq<(string, Mode)>, file: string, mode: Mode)
    ensures TWrap(t, l + [(file, mode)]) == TRedir(TWrap(t, l), file, mode)
    decreases |l|
  {
    if l == [] {
      assert [] + [(file, mode)] == [(file, mode)];
    } else {
      assert (l + [(file, mode)])[1..] == l[1..] + [(file, mode)];
      TWrapMore(TRedir(t, l[0].0, l[0].1), l[1..], file, mode);
    }
  }

  lemma {:induction false} PrintRedirsMore(l: seq<(string, Mode)>, file: string, mode: Mode)
    ensures PrintRedirs(l + [(file, mode)]) == PrintRedirs(l) + PrintMode(mode) + file + " "
  {
    if l == [] {
      assert [] + [(file, mode)] == [(file, mode)];
    } else {
      assert (l + [(file, mode)])[1..] == l[1..] + [(file, mode)];
      PrintRedirsMore(l[1..], file, mode);
    }
  }

  lemma {:induction false} PartSplits(t: Tree)
    requires Proper(t)
    ensures TWrap(Base(t), Around(t)) == t && !Base(t).TRedir? && Proper(Base(t)) && ProperRedirs(Around(t))
    ensures PrintPart(t) == PrintPart(Base(t)) + PrintRedirs(Around(t))
  {
    if t.TRedir? {
      PartSplits(t.cmd);
      TWrapMore(Base(t), Around(t.cmd), t.file, t.mode);
      PrintRedirsMore(Around(t.cmd), t.file, t.mode);
    } else {
      assert PrintPart(t) + "" == PrintPart(t);
    }
  }

  // --------------------------------------------------------- reading tokens back

  lemma AfterWord(w: string, rest: string, n: nat)
    requires IsWord(w) && Clean(rest) && |w| + 1 + |rest| <= n
    ensures var s := w + " " + rest;
            && Clean(s) && s != "" && Kind(s) == 'a' && Length(s) == |w| && After(s) == rest && TokAt(s, n).word == w
            && !Symbol(s[0])
  {
    var s := w + " " + rest;
    assert s[0] == w[0];
    var k := WordLength(s);
    assert s[|w|] == ' ';
    assert forall i :: 0 <= i < |w| ==> s[i] == w[i];
    assert k == |w|;
    assert s[|w|..] == [' '] + rest;
    assert ([' '] + rest)[1..] == rest;
    assert s[..|w|] == w;
  }

  lemma AfterSymbol(c: char, rest: string)
    requires Symbol(c) && Clean(rest)
    ensures var s := [c] + " " + rest;
            Clean(s) && s != "" && s[0] == c && Kind(s) == c && After(s) == rest
  {
    var s := [c] + " " + rest;
    assert s[1] == ' ';
    assert s[1..] == [' '] + rest;
    assert ([' '] + rest)[1..] == rest;
  }

  lemma AfterAppend(rest: string)
    requires Clean(rest)
    ensures var s := ">> " + rest;
            Clean(s) && s[0] == '>' && Kind(s) == '+' && After(s) == rest
  {
    var s := ">> " + rest;
    assert s[0] == '>' && s[1] == '>';
    assert s[2..] == [' '] + rest;
    assert ([' '] + rest)[1..] == rest;
  }

  lemma AfterMode(mode: Mode, rest: string)
    requires Clean(rest)
    ensures var s := PrintMode(mode) + rest;
            Clean(s) && Peek(s, Redirect) && ModeOf(Kind(s)) == mode && After(s) == rest
  {
    hide Skip, WordLength, Length, After, Kind, White, WordChar;
    var s := PrintMode(mode) + rest;
    if mode.Append? {
      AfterAppend(rest);
    } else {
      var c := if mode.Input? then '<' else '>';
      AfterSymbol(c, rest);
      assert PrintMode(mode) == [c] + " ";
    }
  }

  function EraseList(l: seq<(Tok, Mode)>): seq<(string, Mode)> {
    if l == [] then [] else [(l[0].0.word, l[0].1)] + EraseList(l[1..])
  }

  lemma {:induction false} RedirsBack(l: seq<(string, Mode)>, tail: string, n: nat)
    requires ProperRedirs(l) && Clean(tail) && !Peek(tail, Redirect) && |PrintRedirs(l) + tail| <= n
    ensures Clean(PrintRedirs(l) + tail) && (l != [] ==> Peek(PrintRedirs(l) + tail, Redirect))
    ensures var r := ParseRedirs(PrintRedirs(l) + tail, n);
            r.Redirs? && EraseList(r.list) == l && r.rest == tail
  {
    hide Skip, WordLength, Length, After, Kind, White, Symbol, TokAt, ModeOf, PrintMode, WordChar;
    var s := PrintRedirs(l) + tail;
    if l == [] {
      assert s == tail;
    } else {
      var rest := PrintRedirs(l[1..]) + tail;
      RedirsBack(l[1..], tail, n);
      AfterWord(l[0].0, rest, n);
      var t := l[0].0 + " " + rest;
      AfterMode(l[0].1, t);
      assert s == PrintMode(l[0].1) + t;
      var r := ParseRedirs(rest, n);
      assert ParseRedirs(s, n) == Redirs([(TokAt(t, n), ModeOf(Kind(s)))] + r.list, r.rest);
      assert ([(TokAt(t, n), ModeOf(Kind(s)))] + r.list)[1..] == r.list;
    }
  }

  /** What may follow a part of a pipeline. */
  predicate Stops(tail: string, ends: string) { tail == "" || (tail[0] in ends && !White(tail[0])) }

  /** A parsing function has read t and left `tail`. */
  predicate Reads(r: Result, t: Tree, tail: string) {
    r.Ok? && Erase(r.cmd) == t && r.rest == tail
  }

  lemma {:induction false} WordsBack(args: seq<string>, l: seq<(string, Mode)>, tail: string, n: nat, k: nat)
    requires args != [] && (forall i :: 0 <= i < |args| ==> IsWord(args[i])) && k + |args| < MAXARGS && ProperRedirs(l)
             && Stops(tail, "|)&;")
    requires |PrintArgs(args) + PrintRedirs(l) + tail| <= n
    ensures var s := PrintArgs(args) + PrintRedirs(l) + tail;
            Clean(s) && s != "" && !Symbol(s[0])
    ensures var r := ParseWords(PrintArgs(args) + PrintRedirs(l) + tail, n, k);
            r.Words? && Strings(r.args) == args && EraseList(r.list) == l && r.rest == tail
    decreases |args|
  {
    hide Skip, WordLength, Length, After, Kind, White, TokAt, ModeOf, PrintMode, WordChar, ParseRedirs, PrintRedirs,
        IsWord;
    var rest := PrintArgs(args[1..]) + PrintRedirs(l) + tail;
    var s := args[0] + " " + rest;
    assert s == PrintArgs(args) + PrintRedirs(l) + tail;
    if |args| == 1 {
      assert rest == PrintRedirs(l) + tail;
      RedirsBack(l, tail, n);
      AfterWord(args[0], rest, n);
      var r := ParseRedirs(rest, n);
      assert ParseWords(tail, n, k + 1) == Words([], [], tail);
      assert ParseWords(s, n, k) == Words([TokAt(s, n)] + [], r.list + [], tail);
      assert r.list + [] == r.list && Strings([TokAt(s, n)] + []) == args;
    } else {
      WordsBack(args[1..], l, tail, n, k + 1);
      AfterWord(args[0], rest, n);
      NoRedirs(rest, n);
      var r := ParseWords(rest, n, k + 1);
      assert ParseWords(s, n, k) == Words([TokAt(s, n)] + r.args, [] + r.list, tail);
      assert [] + r.list == r.list && ([TokAt(s, n)] + r.args)[1..] == r.args;
    }
  }

  lemma NoRedirs(s: string, n: nat)
    requires Clean(s) && |s| <= n && !Peek(s, Redirect)
    ensures ParseRedirs(s, n) == Redirs([], s)
  {
  }

  lemma {:induction false} EraseWrap(c: Cmd, l: seq<(Tok, Mode)>)
    ensures Erase(Wrap(c, l)) == TWrap(Erase(c), EraseList(l))
    decreases |l|
  {
    if l != [] {
      EraseWrap(Redir(c, l[0].0, l[0].1), l[1..]);
    }
  }

  lemma {:induction false} EraseConcat(a: seq<(Tok, Mode)>, b: seq<(Tok, Mode)>)
    ensures EraseList(a + b) == EraseList(a) + EraseList(b)
  {
    if a == [] {
      assert a + b == b;
    } else {
      assert (a + b)[1..] == a[1..] + b;
      EraseConcat(a[1..], b);
    }
  }

  // ------------------------------------------------------------- the round trip

  function Size(t: Tree): nat {
    match t
    case TExec(_) => 1
    case TRedir(d, _, _) => 1 + Size(d)
    case TPipe(l, r) => 1 + Size(l) + Size(r)
    case TList(l, r) => 1 + Size(l) + Size(r)
    case TBack(d) => 1 + Size(d)
  }

  lemma BaseSize(t: Tree)
    ensures Size(Base(t)) <= Size(t) && (t.TRedir? ==> Size(Base(t)) < Size(t))
  {
  }

  /** A simple command, with redirections before its words and after them. */
  lemma SimpleBack(first: seq<(string, Mode)>, args: seq<string>, l: seq<(string, Mode)>, tail: string, n: nat)
    requires Proper(TExec(args)) && ProperRedirs(first) && ProperRedirs(l) && Stops(tail, "|)&;")
             && (args == [] ==> first == [])
    requires |PrintRedirs(first) + (PrintArgs(args) + PrintRedirs(l) + tail)| <= n
    ensures var s := PrintRedirs(first) + (PrintArgs(args) + PrintRedirs(l) + tail);
            Clean(s) && Reads(ParseExec(s, n), TWrap(TExec(args), first + l), tail)
  {
    hide Skip, WordLength, Length, After, Kind, White, TokAt, ModeOf, PrintMode, WordChar, ParseRedirs, PrintRedirs,
        IsWord, TWrap, Wrap, PrintArgs;
    NoneToPrint();
    var rest := PrintArgs(args) + PrintRedirs(l) + tail;
    var s := PrintRedirs(first) + rest;
    if args == [] {
      assert s == PrintRedirs(l) + tail;
      assert first + l == l;
      RedirsBack(l, tail, n);
      var r := ParseRedirs(s, n);
      assert ParseWords(tail, n, 0) == Words([], [], tail);
      assert r.list + [] == r.list;
      assert s == "" || s[0] != '(' by { assert l == [] ==> s == tail; }
      assert ParseExec(s, n) == Ok(Wrap(Exec([]), r.list), tail);
      EraseWrap(Exec([]), r.list);
    } else {
      WordsBack(args, l, tail, n, 0);
      RedirsBack(first, rest, n);
      assert s[0] != '(' by { assert first == [] ==> s == rest; }
      var q, r := ParseRedirs(s, n), ParseWords(rest, n, 0);
      assert ParseExec(s, n) == Ok(Wrap(Exec(r.args), q.list + r.list), tail);
      EraseWrap(Exec(r.args), q.list + r.list);
      EraseConcat(q.list, r.list);
    }
  }

  lemma NoneToPrint()
    ensures PrintRedirs([]) == "" && PrintArgs([]) == ""
  {
  }

  function Amps(k: nat): string {
    if k == 0 then "" else "& " + Amps(k - 1)
  }

  function TBacks(t: Tree, k: nat): Tree
    decreases k
  {
    if k == 0 then t else TBacks(TBack(t), k - 1)
  }

  lemma NotWhite(tail: string)
    requires Stops(tail, ");")
    ensures Clean(tail) && Stops(tail, ")&;")
  {
  }

  lemma AfterAmp(rest: string)
    requires Clean(rest)
    ensures var s := "& " + rest;
            Clean(s) && Peek(s, Amp) && After(s) == rest && Stops(s, ")&;")
  {
    hide Skip, WordLength, Length, After, Kind;
    AfterSymbol('&', rest);
    assert "& " + rest == ['&'] + " " + rest;
  }

  lemma {:induction false} AmpsBack(c: Cmd, k: nat, tail: string)
    requires Stops(tail, ");")
    ensures Clean(Amps(k) + tail) && Stops(Amps(k) + tail, ")&;")
    ensures var r := Backs(c, Amps(k) + tail); Erase(r.0) == TBacks(Erase(c), k) && r.1 == tail
    decreases k
  {
    hide Skip, WordLength, Length, After, Kind, White, Symbol;
    if k == 0 {
      assert Amps(0) + tail == tail;
      assert !Peek(tail, Amp);
      NotWhite(tail);
    } else {
      var rest := Amps(k - 1) + tail;
      AmpsBack(Back(c), k - 1, tail);
      AfterAmp(rest);
      assert Amps(k) + tail == "& " + rest;
    }
  }

  lemma {:induction false} PartBack(t: Tree, tail: string, n: nat)
    requires Proper(t) && Stops(tail, "|)&;") && |PrintPart(t) + tail| <= n
    ensures Clean(PrintPart(t) + tail) && Reads(ParseExec(PrintPart(t) + tail, n), t, tail)
    decreases Size(t), Rank(3, t), 0
  {
    hide Skip, WordLength, Length, After, Kind, White, TokAt, ModeOf, PrintMode, WordChar, ParseRedirs, PrintRedirs,
        IsWord, TWrap, Wrap, ParseLine, PrintLine, ParseWords;
    var b, l := Base(t), Around(t);
    PartSplits(t);
    BaseSize(t);
    var s := PrintPart(t) + tail;
    if b.TExec? {
      NoneToPrint();
      assert s == PrintRedirs([]) + (PrintArgs(b.args) + PrintRedirs(l) + tail);
      assert [] + l == l;
      SimpleBack([], b.args, l, tail, n);
    } else {
      BlockBack(b, l, tail, n);
      assert s == "( " + PrintLine(b) + ") " + PrintRedirs(l) + tail;
    }
  }

  lemma {:induction false} BlockBack(b: Tree, l: seq<(string, Mode)>, tail: string, n: nat)
    requires Proper(b) && !b.TExec? && !b.TRedir? && ProperRedirs(l) && Stops(tail, "|)&;")
    requires |"( " + PrintLine(b) + ") " + PrintRedirs(l) + tail| <= n
    ensures var s := "( " + PrintLine(b) + ") " + PrintRedirs(l) + tail;
            Clean(s) && Reads(ParseExec(s, n), TWrap(b, l), tail)
    decreases Size(b), Rank(0, b), 1
  {
    hide Skip, WordLength, Length, After, Kind, White, TokAt, ModeOf, PrintMode, WordChar, ParseRedirs, PrintRedirs,
        IsWord, TWrap, Wrap, ParseLine, PrintLine, ParseWords;
    var s := "( " + PrintLine(b) + ") " + PrintRedirs(l) + tail;
    var rest := PrintRedirs(l) + tail;
    RedirsBack(l, tail, n);
    AfterSymbol(')', rest);
    var mid := [')'] + " " + rest;
    LineBack(b, mid, n);
    AfterSymbol('(', PrintLine(b) + mid);
    assert s == ['('] + " " + (PrintLine(b) + mid);
    var r, q := ParseLine(PrintLine(b) + mid, n), ParseRedirs(rest, n);
    assert ParseBlock(s, n) == Ok(Wrap(r.cmd, q.list), tail);
    EraseWrap(r.cmd, q.list);
  }

  lemma {:induction false} PipeBack(t: Tree, tail: string, n: nat)
    requires Proper(t) && Stops(tail, ")&;") && |PrintPipe(t) + tail| <= n
    ensures Clean(PrintPipe(t) + tail) && Reads(ParsePipe(PrintPipe(t) + tail, n), t, tail)
    decreases Size(t), Rank(2, t), 0
  {
    hide Skip, WordLength, Length, After, Kind, White, PrintPart, ParseExec;
    var s := PrintPipe(t) + tail;
    if t.TPipe? {
      var rest := PrintPipe(t.right) + tail;
      PipeBack(t.right, tail, n);
      AfterSymbol('|', rest);
      var mid := ['|'] + " " + rest;
      assert s == PrintPart(t.left) + mid;
      PartBack(t.left, mid, n);
    } else {
      PartBack(t, tail, n);
    }
  }

  lemma {:induction false} BackBack(t: Tree, k: nat, tail: string, n: nat)
    requires Proper(t) && Stops(tail, ");") && |PrintBack(t) + Amps(k) + tail| <= n
    ensures var s := PrintBack(t) + Amps(k) + tail;
            Clean(s) && Reads(ParseBack(s, n), TBacks(t, k), tail)
    decreases Size(t), Rank(1, t), 0
  {
    hide Skip, WordLength, Length, After, Kind, White, PrintPipe, ParsePipe, Backs;
    var s := PrintBack(t) + Amps(k) + tail;
    if t.TBack? {
      assert s == PrintBack(t.cmd) + Amps(k + 1) + tail;
      BackBack(t.cmd, k + 1, tail, n);
    } else {
      AmpsBack(Exec([]), k, tail);
      assert s == PrintPipe(t) + (Amps(k) + tail);
      PipeBack(t, Amps(k) + tail, n);
      var r := ParsePipe(s, n);
      AmpsBack(r.cmd, k, tail);
    }
  }

  lemma {:induction false} LineBack(t: Tree, tail: string, n: nat)
    requires Proper(t) && Stops(tail, ")") && |PrintLine(t) + tail| <= n
    ensures Clean(PrintLine(t) + tail) && Reads(ParseLine(PrintLine(t) + tail, n), t, tail)
    decreases Size(t), Rank(0, t), 0
  {
    hide Skip, WordLength, Length, After, Kind, White, PrintBack, ParseBack;
    var s := PrintLine(t) + tail;
    if t.TList? {
      var rest := PrintLine(t.right) + tail;
      LineBack(t.right, tail, n);
      AfterSymbol(';', rest);
      var mid := [';'] + " " + rest;
      assert s == PrintBack(t.left) + Amps(0) + mid;
      BackBack(t.left, 0, mid, n);
    } else {
      assert s == PrintBack(t) + Amps(0) + tail;
      BackBack(t, 0, tail, n);
    }
  }

  /** Parsing the printed form of a command tree gives back the tree. */
  lemma {:induction false} RoundTrip(t: Tree)
    requires Proper(t)
    ensures var r := Parse(PrintLine(t)); r.Ok? && Erase(r.cmd) == t
  {
    hide ParseLine, PrintLine;
    var s := PrintLine(t);
    assert s + "" == s;
    LineBack(t, "", |s|);
    SkipClean(s);
  }

  lemma SkipClean(s: string)
    requires Clean(s)
    ensures Skip(s) == s
  {
  }
}
