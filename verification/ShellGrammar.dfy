/** The grammar of the shell without a parser: the tokens of a line, the ways in which tokens make up a command, and
    what the command is. The parser of user/sh.c accepts exactly the lines that the grammar derives, and gives the
    command that it gives them. */
module ShellGrammar {
  import opened ShellSpec

  // ----------------------------------------------------------------- tokens

  /** A symbol, of the kind that gettoken gives it, or a word. */
  datatype Lexeme = Symb(kind: char) | Name(tok: Tok)

  function First(s: string, n: nat): Lexeme
    requires s != "" && |s| <= n
  {
    if Kind(s) == 'a' then Name(TokAt(s, n)) else Symb(Kind(s))
  }

  /** The tokens of the last |s| characters of a line of length n. */
  function Lex(s: string, n: nat): seq<Lexeme>
    requires Clean(s) && |s| <= n
    decreases |s|
  {
    if s == "" then [] else [First(s, n)] + Lex(After(s), n)
  }

  predicate Starts(ts: seq<Lexeme>, toks: Set) {
    ts != [] && ts[0].Symb? && (Among(ts[0].kind, toks) || (toks.Redirect? && ts[0].kind == '+'))
  }

  lemma LexNext(s: string, n: nat)
    requires Clean(s) && |s| <= n && s != ""
    ensures Lex(s, n) != [] && Lex(s, n)[0] == First(s, n) && Lex(s, n)[1..] == Lex(After(s), n)
  {
    hide After, First;
  }

  /** Looking at one character is looking at one token. */
  lemma PeekIs(s: string, n: nat, toks: Set)
    requires Clean(s) && |s| <= n
    ensures Peek(s, toks) <==> Starts(Lex(s, n), toks)
  {
    hide After, TokAt;
  }

  // ---------------------------------------------------------------- grammar

  type Redirection = (Tok, Mode)

  /** An argument with the redirections that follow it. */
  datatype Arg = Arg(tok: Tok, after: seq<Redirection>)

  /** How a command is written. */
  datatype Form =
    | Simple(first: seq<Redirection>, words: seq<Arg>)
    | Block(line: Form, after: seq<Redirection>)
    | Piped(left: Form, right: Form)
    | Listed(left: Form, right: Form)
    | Behind(cmd: Form)

  /** Which forms may stand where. */
  predicate IsPart(f: Form)
    decreases f, 0
  {
    match f
    case Simple(_, words) => |words| < MAXARGS
    case Block(line, _) => IsLine(line)
    case _ => false
  }

  predicate IsPipe(f: Form)
    decreases f, 1
  {
    if f.Piped? then IsPart(f.left) && IsPipe(f.right) else IsPart(f)
  }

  predicate IsBack(f: Form)
    decreases f, 2
  {
    if f.Behind? then IsBack(f.cmd) else IsPipe(f)
  }

  predicate IsLine(f: Form)
    decreases f, 3
  {
    if f.Listed? then IsBack(f.left) && IsLine(f.right) else IsBack(f)
  }

  function ModeKind(mode: Mode): char {
    match mode case Input => '<' case Output => '>' case Append => '+'
  }

  function RedirTokens(l: seq<Redirection>): seq<Lexeme> {
    if l == [] then [] else [Symb(ModeKind(l[0].1)), Name(l[0].0)] + RedirTokens(l[1..])
  }

  function ArgTokens(words: seq<Arg>): seq<Lexeme> {
    if words == [] then [] else [Name(words[0].tok)] + RedirTokens(words[0].after) + ArgTokens(words[1..])
  }

  function Tokens(f: Form): seq<Lexeme> {
    match f
    case Simple(first, words) => RedirTokens(first) + ArgTokens(words)
    case Block(line, after) => [Symb('(')] + Tokens(line) + [Symb(')')] + RedirTokens(after)
    case Piped(l, r) => Tokens(l) + [Symb('|')] + Tokens(r)
    case Listed(l, r) => Tokens(l) + [Symb(';')] + Tokens(r)
    case Behind(c) => Tokens(c) + [Symb('&')]
  }

  function Names(words: seq<Arg>): seq<Tok> {
    if words == [] then [] else [words[0].tok] + Names(words[1..])
  }

  function Between(words: seq<Arg>): seq<Redirection> {
    if words == [] then [] else words[0].after + Between(words[1..])
  }

  /** What is meant: redirections apply in the order in which they are written, wherever they stand. */
  function Meaning(f: Form): Cmd {
    match f
    case Simple(first, words) => Wrap(Exec(Names(words)), first + Between(words))
    case Block(line, after) => Wrap(Meaning(line), after)
    case Piped(l, r) => Pipe(Meaning(l), Meaning(r))
    case Listed(l, r) => List(Meaning(l), Meaning(r))
    case Behind(c) => Back(Meaning(c))
  }

  // --------------------------------------------- what the grammar derives is read

  lemma {:induction false} RedirsRead(l: seq<Redirection>, s: string, n: nat, tail: seq<Lexeme>)
    requires Clean(s) && |s| <= n && Lex(s, n) == RedirTokens(l) + tail && !Starts(tail, Redirect)
    ensures var r := ParseRedirs(s, n); r.Redirs? && r.list == l && Lex(r.rest, n) == tail
    decreases |l|
  {
    hide After, TokAt, Kind, Lex;
    PeekIs(s, n, Redirect);
    if l == [] {
      assert RedirTokens(l) + tail == tail;
    } else {
      var rest := RedirTokens(l[1..]) + tail;
      assert RedirTokens(l) + tail == [Symb(ModeKind(l[0].1)), Name(l[0].0)] + rest;
      LexNext(s, n);
      var t := After(s);
      assert Lex(t, n) == [Name(l[0].0)] + rest;
      LexSome(t, n);
      LexNext(t, n);
      assert Lex(After(t), n) == rest;
      RedirsRead(l[1..], After(t), n, tail);
      assert [l[0]] + l[1..] == l;
    }
  }

  lemma LexSome(s: string, n: nat)
    requires Clean(s) && |s| <= n
    ensures s == "" <==> Lex(s, n) == []
  {
  }

  lemma {:induction false} ArgsRead(words: seq<Arg>, s: string, n: nat, k: nat, tail: seq<Lexeme>)
    requires Clean(s) && |s| <= n && Lex(s, n) == ArgTokens(words) + tail && k + |words| < MAXARGS
    requires tail == [] || Starts(tail, Stop)
    ensures var r := ParseWords(s, n, k);
            r.Words? && r.args == Names(words) && r.list == Between(words) && Lex(r.rest, n) == tail
    decreases |words|
  {
    hide After, TokAt, Kind, Lex, ParseRedirs;
    PeekIs(s, n, Stop);
    LexSome(s, n);
    if words == [] {
      assert ArgTokens(words) + tail == tail;
    } else {
      var rest := ArgTokens(words[1..]) + tail;
      assert ArgTokens(words) + tail == [Name(words[0].tok)] + (RedirTokens(words[0].after) + rest);
      LexNext(s, n);
      RedirsRead(words[0].after, After(s), n, rest);
      var r := ParseRedirs(After(s), n);
      ArgsRead(words[1..], r.rest, n, k + 1, tail);
    }
  }

  /** What may follow a part of a pipeline, a pipeline and so on. */
  predicate PartEnds(tail: seq<Lexeme>) { tail == [] || Starts(tail, Stop) }
  predicate PipeEnds(tail: seq<Lexeme>) { PartEnds(tail) && !Starts(tail, Bar) }
  predicate BackEnds(tail: seq<Lexeme>) { PipeEnds(tail) && !Starts(tail, Amp) }
  predicate LineEnds(tail: seq<Lexeme>) { BackEnds(tail) && !Starts(tail, Semi) }

  /** A parsing function has read the command c and left the tokens `tail`. */
  predicate Gives(r: Result, c: Cmd, n: nat, tail: seq<Lexeme>)
    requires r.Ok? ==> Clean(r.rest) && |r.rest| <= n
  {
    r.Ok? && r.cmd == c && Lex(r.rest, n) == tail
  }

  /** A simple command, with redirections anywhere. */
  lemma SimpleRead(first: seq<Redirection>, words: seq<Arg>, s: string, n: nat, tail: seq<Lexeme>)
    requires Clean(s) && |s| <= n && Lex(s, n) == Tokens(Simple(first, words)) + tail && |words| < MAXARGS
    requires PartEnds(tail)
    ensures Gives(ParseExec(s, n), Meaning(Simple(first, words)), n, tail)
  {
    hide After, TokAt, Kind, Lex, ParseRedirs, ParseWords, RedirTokens, ArgTokens;
    var rest := ArgTokens(words) + tail;
    assert Tokens(Simple(first, words)) + tail == RedirTokens(first) + rest;
    ArgsStart(words, tail);
    RedirsStart(first, rest);
    PeekIs(s, n, Open);
    RedirsRead(first, s, n, rest);
    var r := ParseRedirs(s, n);
    ArgsRead(words, r.rest, n, 0, tail);
  }

  lemma ArgsStart(words: seq<Arg>, tail: seq<Lexeme>)
    requires PartEnds(tail)
    ensures !Starts(ArgTokens(words) + tail, Redirect) && !Starts(ArgTokens(words) + tail, Open)
  {
    if words == [] {
      assert ArgTokens(words) + tail == tail;
      assert tail != [] ==> Among(tail[0].kind, Stop);
    }
  }

  lemma RedirsStart(l: seq<Redirection>, rest: seq<Lexeme>)
    requires !Starts(rest, Open)
    ensures !Starts(RedirTokens(l) + rest, Open)
  {
    if l == [] { assert RedirTokens(l) + rest == rest; }
  }

  lemma {:induction false} PartRead(f: Form, s: string, n: nat, tail: seq<Lexeme>)
    requires IsPart(f) && Clean(s) && |s| <= n && Lex(s, n) == Tokens(f) + tail && PartEnds(tail)
    ensures Gives(ParseExec(s, n), Meaning(f), n, tail)
    decreases f, 0
  {
    hide After, TokAt, Kind, Lex, ParseRedirs, ParseWords, ParseLine, Wrap;
    if f.Simple? {
      SimpleRead(f.first, f.words, s, n, tail);
    } else {
      var rest := RedirTokens(f.after) + tail;
      var mid := [Symb(')')] + rest;
      assert Tokens(f) + tail == [Symb('(')] + (Tokens(f.line) + mid);
      PeekIs(s, n, Open);
      LexSome(s, n);
      LexNext(s, n);
      LineRead(f.line, After(s), n, mid);
      var r := ParseLine(After(s), n);
      PeekIs(r.rest, n, Close);
      LexSome(r.rest, n);
      LexNext(r.rest, n);
      RedirsRead(f.after, After(r.rest), n, tail);
    }
  }

  lemma {:induction false} PipeRead(f: Form, s: string, n: nat, tail: seq<Lexeme>)
    requires IsPipe(f) && Clean(s) && |s| <= n && Lex(s, n) == Tokens(f) + tail && PipeEnds(tail)
    ensures Gives(ParsePipe(s, n), Meaning(f), n, tail)
    decreases f, 1
  {
    hide After, TokAt, Kind, Lex, ParseExec;
    if f.Piped? {
      var mid := [Symb('|')] + (Tokens(f.right) + tail);
      assert Tokens(f) + tail == Tokens(f.left) + mid;
      PartRead(f.left, s, n, mid);
      var r := ParseExec(s, n);
      PeekIs(r.rest, n, Bar);
      LexSome(r.rest, n);
      LexNext(r.rest, n);
      PipeRead(f.right, After(r.rest), n, tail);
    } else {
      PartRead(f, s, n, tail);
      PeekIs(ParseExec(s, n).rest, n, Bar);
    }
  }

  function Amps(k: nat): seq<Lexeme> {
    if k == 0 then [] else [Symb('&')] + Amps(k - 1)
  }

  function Backed(c: Cmd, k: nat): Cmd
    decreases k
  {
    if k == 0 then c else Backed(Back(c), k - 1)
  }

  lemma {:induction false} AmpsRead(c: Cmd, k: nat, s: string, n: nat, tail: seq<Lexeme>)
    requires Clean(s) && |s| <= n && Lex(s, n) == Amps(k) + tail && !Starts(tail, Amp)
    ensures var r := Backs(c, s); r.0 == Backed(c, k) && Lex(r.1, n) == tail
    decreases k
  {
    hide After, TokAt, Kind, Lex;
    PeekIs(s, n, Amp);
    if k == 0 {
      assert Amps(k) + tail == tail;
    } else {
      assert Amps(k) + tail == [Symb('&')] + (Amps(k - 1) + tail);
      LexSome(s, n);
      LexNext(s, n);
      AmpsRead(Back(c), k - 1, After(s), n, tail);
    }
  }

  lemma {:induction false} BackRead(f: Form, k: nat, s: string, n: nat, tail: seq<Lexeme>)
    requires IsBack(f) && Clean(s) && |s| <= n && Lex(s, n) == Tokens(f) + Amps(k) + tail && BackEnds(tail)
    ensures Gives(ParseBack(s, n), Backed(Meaning(f), k), n, tail)
    decreases f, 2
  {
    hide After, TokAt, Kind, Lex, ParsePipe, Backs;
    if f.Behind? {
      assert Tokens(f) + Amps(k) + tail == Tokens(f.cmd) + Amps(k + 1) + tail;
      BackRead(f.cmd, k + 1, s, n, tail);
    } else {
      assert Tokens(f) + Amps(k) + tail == Tokens(f) + (Amps(k) + tail);
      assert k == 0 ==> Amps(k) + tail == tail;
      PipeRead(f, s, n, Amps(k) + tail);
      var r := ParsePipe(s, n);
      AmpsRead(r.cmd, k, r.rest, n, tail);
    }
  }

  lemma {:induction false} LineRead(f: Form, s: string, n: nat, tail: seq<Lexeme>)
    requires IsLine(f) && Clean(s) && |s| <= n && Lex(s, n) == Tokens(f) + tail && LineEnds(tail)
    ensures Gives(ParseLine(s, n), Meaning(f), n, tail)
    decreases f, 3
  {
    hide After, TokAt, Kind, Lex, ParseBack;
    if f.Listed? {
      var mid := [Symb(';')] + (Tokens(f.right) + tail);
      assert Tokens(f) + tail == Tokens(f.left) + Amps(0) + mid;
      BackRead(f.left, 0, s, n, mid);
      var r := ParseBack(s, n);
      PeekIs(r.rest, n, Semi);
      LexSome(r.rest, n);
      LexNext(r.rest, n);
      LineRead(f.right, After(r.rest), n, tail);
    } else {
      assert Tokens(f) + tail == Tokens(f) + Amps(0) + tail;
      BackRead(f, 0, s, n, tail);
      PeekIs(ParseBack(s, n).rest, n, Semi);
    }
  }

  // --------------------------------------------- what is read the grammar derives

  lemma {:induction false} RedirsFound(s: string, n: nat)
    requires Clean(s) && |s| <= n && ParseRedirs(s, n).Redirs?
    ensures var r := ParseRedirs(s, n);
            Lex(s, n) == RedirTokens(r.list) + Lex(r.rest, n) && !Peek(r.rest, Redirect)
    decreases |s|
  {
    hide After, TokAt, Kind, Lex;
    var r := ParseRedirs(s, n);
    if Peek(s, Redirect) {
      var t := After(s);
      PeekIs(s, n, Redirect);
      LexSome(s, n);
      LexNext(s, n);
      NamedHere(t, n);
      RedirsFound(After(t), n);
      var q := ParseRedirs(After(t), n);
      assert Symb(Kind(s)) == Symb(ModeKind(ModeOf(Kind(s)))) by { ModeBack(s, n); }
      assert r.list[1..] == q.list;
      assert Lex(s, n) == [Symb(Kind(s)), Name(TokAt(t, n))] + Lex(After(t), n);
      assert RedirTokens(r.list) + Lex(r.rest, n) ==
             [Symb(Kind(s)), Name(TokAt(t, n))] + (RedirTokens(q.list) + Lex(q.rest, n));
    } else {
      assert RedirTokens([]) + Lex(s, n) == Lex(s, n);
    }
  }

  lemma NamedHere(t: string, n: nat)
    requires Clean(t) && |t| <= n && Kind(t) == 'a'
    ensures t != "" && Lex(t, n) == [Name(TokAt(t, n))] + Lex(After(t), n)
  {
    hide After, TokAt;
  }

  lemma ModeBack(s: string, n: nat)
    requires Peek(s, Redirect)
    ensures ModeKind(ModeOf(Kind(s))) == Kind(s) && Kind(s) != 'a'
  {
  }

  lemma {:induction false} ArgsFound(s: string, n: nat, k: nat) returns (words: seq<Arg>)
    requires Clean(s) && |s| <= n && ParseWords(s, n, k).Words? && k < MAXARGS
    ensures var r := ParseWords(s, n, k);
            && Lex(s, n) == ArgTokens(words) + Lex(r.rest, n) && k + |words| < MAXARGS
            && r.args == Names(words) && r.list == Between(words)
    decreases |s|
  {
    hide After, TokAt, Kind, Lex, ParseRedirs;
    if Peek(s, Stop) || s == "" {
      words := [];
      assert ArgTokens(words) + Lex(s, n) == Lex(s, n);
    } else {
      NamedHere(s, n);
      RedirsFound(After(s), n);
      var q := ParseRedirs(After(s), n);
      var more := ArgsFound(q.rest, n, k + 1);
      words := [Arg(TokAt(s, n), q.list)] + more;
      var r := ParseWords(s, n, k);
      ArgsCons(TokAt(s, n), q.list, more, Lex(r.rest, n));
    }
  }

  lemma ArgsCons(tok: Tok, l: seq<Redirection>, more: seq<Arg>, rest: seq<Lexeme>)
    ensures var words := [Arg(tok, l)] + more;
            && ArgTokens(words) + rest == [Name(tok)] + (RedirTokens(l) + (ArgTokens(more) + rest))
            && Names(words) == [tok] + Names(more) && Between(words) == l + Between(more)
  {
    hide RedirTokens;
    var words := [Arg(tok, l)] + more;
    assert words[1..] == more;
    assert ArgTokens(words) == [Name(tok)] + RedirTokens(l) + ArgTokens(more);
  }

  lemma {:induction false} PartFound(s: string, n: nat) returns (f: Form)
    requires Clean(s) && |s| <= n && ParseExec(s, n).Ok?
    ensures var r := ParseExec(s, n);
            IsPart(f) && Lex(s, n) == Tokens(f) + Lex(r.rest, n) && r.cmd == Meaning(f)
    decreases |s|, 0
  {
    hide After, TokAt, Kind, Lex, ParseRedirs, ParseWords, ParseLine, Wrap;
    var r := ParseExec(s, n);
    if Peek(s, Open) {
      OpenHere(s, n);
      var line := LineFound(After(s), n);
      var q := ParseLine(After(s), n);
      CloseHere(q.rest, n);
      RedirsFound(After(q.rest), n);
      var l := ParseRedirs(After(q.rest), n).list;
      f := Block(line, l);
      assert Lex(s, n) == [Symb('(')] + (Tokens(line) + ([Symb(')')] + (RedirTokens(l) + Lex(r.rest, n))));
      assert Tokens(f) + Lex(r.rest, n) ==
             [Symb('(')] + (Tokens(line) + ([Symb(')')] + (RedirTokens(l) + Lex(r.rest, n))));
    } else {
      RedirsFound(s, n);
      var q := ParseRedirs(s, n);
      var words := ArgsFound(q.rest, n, 0);
      f := Simple(q.list, words);
      assert Tokens(f) + Lex(r.rest, n) == RedirTokens(q.list) + (ArgTokens(words) + Lex(r.rest, n));
    }
  }

  lemma OpenHere(s: string, n: nat)
    requires Clean(s) && |s| <= n && Peek(s, Open)
    ensures Lex(s, n) == [Symb('(')] + Lex(After(s), n) && |After(s)| < |s|
  {
    hide TokAt;
  }

  lemma CloseHere(s: string, n: nat)
    requires Clean(s) && |s| <= n && Peek(s, Close)
    ensures Lex(s, n) == [Symb(')')] + Lex(After(s), n) && |After(s)| < |s|
  {
    hide TokAt;
  }

  /** The other symbols that are looked for one at a time. */
  lemma SymbolHere(s: string, n: nat, toks: Set, c: char)
    requires Clean(s) && |s| <= n && Peek(s, toks)
    requires (toks.Bar? && c == '|') || (toks.Amp? && c == '&') || (toks.Semi? && c == ';')
    ensures Lex(s, n) == [Symb(c)] + Lex(After(s), n) && |After(s)| < |s|
  {
    hide TokAt;
  }

  lemma {:induction false} PipeFound(s: string, n: nat) returns (f: Form)
    requires Clean(s) && |s| <= n && ParsePipe(s, n).Ok?
    ensures var r := ParsePipe(s, n);
            IsPipe(f) && Lex(s, n) == Tokens(f) + Lex(r.rest, n) && r.cmd == Meaning(f)
    decreases |s|, 1
  {
    hide After, TokAt, Kind, Lex, ParseExec;
    var part := PartFound(s, n);
    var q, r := ParseExec(s, n), ParsePipe(s, n);
    if Peek(q.rest, Bar) {
      SymbolHere(q.rest, n, Bar, '|');
      var more := PipeFound(After(q.rest), n);
      f := Piped(part, more);
      assert Tokens(f) + Lex(r.rest, n) == Tokens(part) + ([Symb('|')] + (Tokens(more) + Lex(r.rest, n)));
    } else {
      f := part;
    }
  }

  lemma {:induction false} BacksFound(f: Form, s: string, n: nat) returns (g: Form)
    requires Clean(s) && |s| <= n && IsBack(f)
    ensures var r := Backs(Meaning(f), s);
            IsBack(g) && Tokens(f) + Lex(s, n) == Tokens(g) + Lex(r.1, n) && r.0 == Meaning(g)
    decreases |s|
  {
    hide After, TokAt, Kind, Lex;
    if Peek(s, Amp) {
      SymbolHere(s, n, Amp, '&');
      assert Tokens(f) + Lex(s, n) == Tokens(Behind(f)) + Lex(After(s), n);
      g := BacksFound(Behind(f), After(s), n);
    } else {
      g := f;
    }
  }

  lemma {:induction false} BackFound(s: string, n: nat) returns (f: Form)
    requires Clean(s) && |s| <= n && ParseBack(s, n).Ok?
    ensures var r := ParseBack(s, n);
            IsBack(f) && Lex(s, n) == Tokens(f) + Lex(r.rest, n) && r.cmd == Meaning(f)
    decreases |s|, 2
  {
    hide After, TokAt, Kind, Lex, ParsePipe, Backs;
    var pipe := PipeFound(s, n);
    f := BacksFound(pipe, ParsePipe(s, n).rest, n);
  }

  lemma BackIsLine(f: Form)
    requires IsBack(f)
    ensures IsLine(f)
  {
    assert f.Listed? ==> !IsPipe(f);
  }

  lemma {:induction false} LineFound(s: string, n: nat) returns (f: Form)
    requires Clean(s) && |s| <= n && ParseLine(s, n).Ok?
    ensures var r := ParseLine(s, n);
            IsLine(f) && Lex(s, n) == Tokens(f) + Lex(r.rest, n) && r.cmd == Meaning(f)
    decreases |s|, 3
  {
    hide After, TokAt, Kind, Lex, ParseBack;
    var back := BackFound(s, n);
    var q, r := ParseBack(s, n), ParseLine(s, n);
    if Peek(q.rest, Semi) {
      SymbolHere(q.rest, n, Semi, ';');
      var more := LineFound(After(q.rest), n);
      f := Listed(back, more);
      assert Tokens(f) + Lex(r.rest, n) == Tokens(back) + ([Symb(';')] + (Tokens(more) + Lex(r.rest, n)));
    } else {
      f := back;
      BackIsLine(f);
    }
  }

  // ------------------------------------------------------------ the whole line

  /** Form f derives the line. */
  predicate Derives(f: Form, text: string) {
    IsLine(f) && Lex(Skip(text), |text|) == Tokens(f)
  }

  /** A line that the grammar derives is accepted, as the command that it is given there. */
  lemma DerivedIsParsed(f: Form, text: string)
    requires Derives(f, text)
    ensures Parse(text) == Ok(Meaning(f), "")
  {
    hide ParseLine, Lex;
    var s := Skip(text);
    assert Tokens(f) + [] == Tokens(f);
    LineRead(f, s, |text|, []);
    LexSome(ParseLine(s, |text|).rest, |text|);
  }

  /** The parser accepts a line if and only if the grammar derives it. */
  lemma {:induction false} ParsedExactly(text: string)
    ensures Parse(text).Ok? <==> exists f :: Derives(f, text)
    ensures forall f :: Derives(f, text) ==> Parse(text) == Ok(Meaning(f), "")
  {
    hide ParseLine, Lex, Tokens, IsLine;
    forall f | Derives(f, text) ensures Parse(text) == Ok(Meaning(f), "") {
      DerivedIsParsed(f, text);
    }
    if Parse(text).Ok? {
      var s := Skip(text);
      var f := LineFound(s, |text|);
      LexSome("", |text|);
      assert Tokens(f) + [] == Tokens(f);
      assert Derives(f, text);
    }
  }

  /** No line means two things. */
  lemma Unambiguous(f: Form, g: Form, text: string)
    requires Derives(f, text) && Derives(g, text)
    ensures Meaning(f) == Meaning(g)
  {
    hide Derives, Meaning, Parse;
    DerivedIsParsed(f, text);
    DerivedIsParsed(g, text);
  }
}
