/** The recursive-descent parser of user/sh.c, with its cursor into the input buffer, and nulterminate, which cuts the
    tokens out of the buffer by overwriting the characters after them. */
module ShellCode {
  import opened ShellSpec
  import ShellGrammar

  // ------------------------------------------------------------------ tokens

  /** A maximal run of word characters of the text. */
  ghost predicate TokOk(text: string, t: Tok) {
    && t.q < t.eq <= |text| && t.word == text[t.q..t.eq]
    && (forall k :: t.q <= k < t.eq ==> WordChar(text[k]))
    && (t.eq < |text| ==> !WordChar(text[t.eq]))
  }

  ghost predicate ArgsOk(text: string, args: seq<Tok>) { forall i {:trigger args[i]} ::
        0 <= i < |args| ==> TokOk(text, args[i]) }

  ghost predicate ListOk(text: string, l: seq<(Tok, Mode)>) { forall i {:trigger l[i]} ::
        0 <= i < |l| ==> TokOk(text, l[i].0) }

  /** All argument and file tokens of a command are such runs, and its arguments fit. */
  ghost predicate CmdOk(text: string, c: Cmd) {
    match c
    case Exec(args) => ArgsOk(text, args) && |args| < MAXARGS
    case Redir(d, file, _) => CmdOk(text, d) && TokOk(text, file)
    case Pipe(l, r) => CmdOk(text, l) && CmdOk(text, r)
    case List(l, r) => CmdOk(text, l) && CmdOk(text, r)
    case Back(d) => CmdOk(text, d)
  }

  /** s is what is left of the text. */
  ghost predicate Left(text: string, s: string) { |s| <= |text| && text[|text| - |s|..] == s }

  lemma WordTok(text: string, s: string)
    requires Left(text, s) && Kind(s) == 'a' && Clean(s)
    ensures TokOk(text, TokAt(s, |text|))
  {
    var p := |text| - |s|;
    assert forall k :: 0 <= k < |s| ==> s[k] == text[p + k];
    var t := TokAt(s, |text|);
    assert s[..Length(s)] == text[t.q..t.eq];
    forall k | t.q <= k < t.eq ensures WordChar(text[k]) {
      assert text[k] == s[k - p];
    }
  }

  lemma LeftAfter(text: string, s: string)
    requires Left(text, s)
    ensures Left(text, After(s))
  {
    var m := Length(s);
    assert s[m..] == text[|text| - |s| + m..];
    LeftSkip(text, s[m..]);
  }

  lemma LeftSkip(text: string, s: string)
    requires Left(text, s)
    ensures Left(text, Skip(s))
  {
    var r := Skip(s);
    assert s[|s| - |r|..] == text[|text| - |s|..][|s| - |r|..];
  }

  // -------------------------------------------------- the parser finds such tokens

  lemma {:induction false} RedirsOk(text: string, s: string)
    requires Left(text, s) && Clean(s) && |s| <= |text|
    ensures var r := ParseRedirs(s, |text|); r.Redirs? ==> ListOk(text, r.list) && Left(text, r.rest)
    decreases |s|
  {
    hide TokOk, Left, After, Kind, TokAt;
    var r := ParseRedirs(s, |text|);
    if Peek(s, Redirect) && r.Redirs? {
      var t := After(s);
      LeftAfter(text, s);
      LeftAfter(text, t);
      WordTok(text, t);
      RedirsOk(text, After(t));
    }
  }

  lemma {:induction false} WordsOk(text: string, s: string, k: nat)
    requires Left(text, s) && Clean(s) && |s| <= |text| && k < MAXARGS
    ensures var r := ParseWords(s, |text|, k);
            r.Words? ==> k + |r.args| < MAXARGS && ArgsOk(text, r.args) && ListOk(text, r.list) && Left(text, r.rest)
    decreases |s|
  {
    hide TokOk, Left, After, Kind, TokAt, ParseRedirs;
    var r := ParseWords(s, |text|, k);
    if !Peek(s, Stop) && s != "" && r.Words? {
      LeftAfter(text, s);
      WordTok(text, s);
      RedirsOk(text, After(s));
      WordsOk(text, ParseRedirs(After(s), |text|).rest, k + 1);
    }
  }

  lemma {:induction false} WrapOk(text: string, c: Cmd, l: seq<(Tok, Mode)>)
    requires CmdOk(text, c) && ListOk(text, l)
    ensures CmdOk(text, Wrap(c, l))
    decreases |l|
  {
    hide TokOk;
    if l != [] {
      WrapOk(text, Redir(c, l[0].0, l[0].1), l[1..]);
    }
  }

  lemma {:induction false} ExecOk(text: string, s: string)
    requires Left(text, s) && Clean(s) && |s| <= |text|
    ensures var r := ParseExec(s, |text|); r.Ok? ==> CmdOk(text, r.cmd) && Left(text, r.rest)
    decreases |s|, 0
  {
    hide TokOk, Left, After, Kind, TokAt, ParseRedirs, ParseWords, Wrap;
    var n := |text|;
    var r := ParseExec(s, n);
    if r.Ok? {
      if Peek(s, Open) {
        BlockOk(text, s);
      } else {
        RedirsOk(text, s);
        var q := ParseRedirs(s, n);
        WordsOk(text, q.rest, 0);
        var w := ParseWords(q.rest, n, 0);
        WrapOk(text, Exec(w.args), q.list + w.list);
      }
    }
  }

  lemma {:induction false} BlockOk(text: string, s: string)
    requires Left(text, s) && Clean(s) && Peek(s, Open) && |s| <= |text|
    ensures var r := ParseBlock(s, |text|); r.Ok? ==> CmdOk(text, r.cmd) && Left(text, r.rest)
    decreases |s|, 0, 0
  {
    hide TokOk, Left, After, Kind, TokAt, ParseRedirs, ParseWords, Wrap, ParseLine;
    var n := |text|;
    var r := ParseBlock(s, n);
    if r.Ok? {
      LeftAfter(text, s);
      LineOk(text, After(s));
      var p := ParseLine(After(s), n);
      LeftAfter(text, p.rest);
      RedirsOk(text, After(p.rest));
      WrapOk(text, p.cmd, ParseRedirs(After(p.rest), n).list);
    }
  }

  lemma {:induction false} PipeOk(text: string, s: string)
    requires Left(text, s) && Clean(s) && |s| <= |text|
    ensures var r := ParsePipe(s, |text|); r.Ok? ==> CmdOk(text, r.cmd) && Left(text, r.rest)
    decreases |s|, 1
  {
    hide TokOk, Left, After, Kind, ParseExec;
    var r := ParsePipe(s, |text|);
    if r.Ok? {
      ExecOk(text, s);
      var p := ParseExec(s, |text|);
      if Peek(p.rest, Bar) {
        LeftAfter(text, p.rest);
        PipeOk(text, After(p.rest));
      }
    }
  }

  lemma {:induction false} BacksOk(text: string, c: Cmd, s: string)
    requires Left(text, s) && Clean(s) && CmdOk(text, c)
    ensures var r := Backs(c, s); CmdOk(text, r.0) && Left(text, r.1)
    decreases |s|
  {
    hide TokOk, Left, After, Kind;
    if Peek(s, Amp) {
      LeftAfter(text, s);
      BacksOk(text, Back(c), After(s));
    }
  }

  lemma {:induction false} LineOk(text: string, s: string)
    requires Left(text, s) && Clean(s) && |s| <= |text|
    ensures var r := ParseLine(s, |text|); r.Ok? ==> CmdOk(text, r.cmd) && Left(text, r.rest)
    decreases |s|, 3
  {
    hide TokOk, Left, After, Kind, ParsePipe, Backs;
    var r := ParseLine(s, |text|);
    if r.Ok? {
      var b := ParseBack(s, |text|);
      assert b.Ok?;
      PipeOk(text, s);
      var p := ParsePipe(s, |text|);
      BacksOk(text, p.cmd, p.rest);
      if Peek(b.rest, Semi) {
        LeftAfter(text, b.rest);
        LineOk(text, After(b.rest));
      }
    }
  }

  /** Every argument and file token of a parsed command is a maximal run of word characters of the input. */
  lemma ParsedOk(text: string)
    ensures var r := Parse(text); r.Ok? ==> CmdOk(text, r.cmd)
  {
    hide TokOk, ParseLine, CmdOk;
    assert Left(text, text);
    LeftSkip(text, text);
    LineOk(text, Skip(text));
  }

  lemma {:induction false} WordsProper(text: string, args: seq<Tok>)
    requires ArgsOk(text, args)
    ensures forall i :: 0 <= i < |args| ==> IsWord(Strings(args)[i])
  {
    if args != [] {
      assert TokOk(text, args[0]);
      WordsProper(text, args[1..]);
    }
  }

  lemma {:induction false} TreeProper(text: string, c: Cmd)
    requires CmdOk(text, c)
    ensures Proper(Erase(c))
  {
    hide IsWord;
    match c
    case Exec(args) => WordsProper(text, args);
    case Redir(d, file, _) => TreeProper(text, d); IsRun(text, file);
    case Pipe(l, r) => TreeProper(text, l); TreeProper(text, r);
    case List(l, r) => TreeProper(text, l); TreeProper(text, r);
    case Back(d) => TreeProper(text, d);
  }

  lemma IsRun(text: string, t: Tok)
    requires TokOk(text, t)
    ensures IsWord(t.word)
  {
  }

  /** The converse of the round trip: every tree that comes out of the parser is one that can be printed, and its
      printed form parses back to it. */
  lemma {:induction false} Canonical(text: string)
    requires Parse(text).Ok?
    ensures var t := Erase(Parse(text).cmd); Proper(t) && Parse(PrintLine(t)).Ok? && Erase(Parse(PrintLine(t)).cmd) == t
  {
    hide Parse, Proper, PrintLine, Erase;
    ParsedOk(text);
    TreeProper(text, Parse(text).cmd);
    RoundTrip(Erase(Parse(text).cmd));
  }

  // ------------------------------------------------------------- nulterminate

  function ArgEnds(args: seq<Tok>): set<nat> {
    if args == [] then {} else ArgEnds(args[..|args| - 1]) + {args[|args| - 1].eq}
  }

  /** The places just after the tokens of a command. */
  function Ends(c: Cmd): set<nat> {
    match c
    case Exec(args) => ArgEnds(args)
    case Redir(d, file, _) => Ends(d) + {file.eq}
    case Pipe(l, r) => Ends(l) + Ends(r)
    case List(l, r) => Ends(l) + Ends(r)
    case Back(d) => Ends(d)
  }

  /** As a C string, the token reads as its word. */
  ghost predicate TokReads(b: seq<char>, t: Tok) {
    t.q <= t.eq < |b| && b[t.q..t.eq] == t.word && NUL !in t.word && b[t.eq] == NUL
  }

  ghost predicate CmdReads(b: seq<char>, c: Cmd) {
    match c
    case Exec(args) => forall i {:trigger args[i]} :: 0 <= i < |args| ==> TokReads(b, args[i])
    case Redir(d, file, _) => CmdReads(b, d) && TokReads(b, file)
    case Pipe(l, r) => CmdReads(b, l) && CmdReads(b, r)
    case List(l, r) => CmdReads(b, l) && CmdReads(b, r)
    case Back(d) => CmdReads(b, d)
  }

  /** The buffer with the given places overwritten by NUL. */
  ghost predicate Cut(was: seq<char>, b: seq<char>, ends: set<nat>) {
    |b| == |was| && forall k {:trigger b[k]} :: 0 <= k < |was| ==> b[k] == if k in ends then NUL else was[k]
  }

  /** The buffer holds the text and, after it, a NUL. */
  ghost predicate Holds(was: seq<char>, text: string) {
    NUL !in text && |text| < |was| && was[|text|] == NUL && text == was[..|text|]
  }

  /** No token is damaged by the NUL after another one. */
  ghost predicate Between(text: string, ends: set<nat>) {
    forall k {:trigger k in ends} :: k in ends && k < |text| ==> !WordChar(text[k])
  }

  lemma OneReads(text: string, was: seq<char>, b: seq<char>, ends: set<nat>, t: Tok)
    requires Holds(was, text) && Cut(was, b, ends) && Between(text, ends) && TokOk(text, t) && t.eq in ends
    ensures TokReads(b, t)
  {
    forall k | t.q <= k < t.eq ensures b[k] == text[k] {
    }
    assert b[t.q..t.eq] == text[t.q..t.eq];
  }

  lemma {:induction false} ArgEndsHas(args: seq<Tok>, i: nat)
    requires i < |args|
    ensures args[i].eq in ArgEnds(args)
    decreases |args|
  {
    if i < |args| - 1 {
      ArgEndsHas(args[..|args| - 1], i);
    }
  }

  /** After the cuts, every argument and file name of the command reads as the word that was parsed. */
  lemma {:induction false} AllRead(text: string, was: seq<char>, b: seq<char>, ends: set<nat>, c: Cmd)
    requires Holds(was, text) && Cut(was, b, ends) && Between(text, ends) && CmdOk(text, c) && Ends(c) <= ends
    ensures CmdReads(b, c)
  {
    hide Cut, Between, TokOk, TokReads, Holds;
    match c
    case Exec(args) =>
      forall i {:trigger args[i]} | 0 <= i < |args| ensures TokReads(b, args[i]) {
        ArgEndsHas(args, i);
        OneReads(text, was, b, ends, args[i]);
      }
    case Redir(d, file, _) =>
      AllRead(text, was, b, ends, d);
      OneReads(text, was, b, ends, file);
    case Pipe(l, r) => AllRead(text, was, b, ends, l); AllRead(text, was, b, ends, r);
    case List(l, r) => AllRead(text, was, b, ends, l); AllRead(text, was, b, ends, r);
    case Back(d) => AllRead(text, was, b, ends, d);
  }

  lemma {:induction false} ArgEndsBetween(text: string, args: seq<Tok>)
    requires ArgsOk(text, args)
    ensures Between(text, ArgEnds(args)) && forall k :: k in ArgEnds(args) ==> k <= |text|
  {
    if args != [] {
      ArgEndsBetween(text, args[..|args| - 1]);
      var t := args[|args| - 1];
      assert TokOk(text, t);
    }
  }

  lemma {:induction false} EndsBetween(text: string, c: Cmd)
    requires CmdOk(text, c)
    ensures Between(text, Ends(c)) && forall k :: k in Ends(c) ==> k <= |text|
  {
    match c
    case Exec(args) => ArgEndsBetween(text, args);
    case Redir(d, file, _) => EndsBetween(text, d);
    case Pipe(l, r) => EndsBetween(text, l); EndsBetween(text, r);
    case List(l, r) => EndsBetween(text, l); EndsBetween(text, r);
    case Back(d) => EndsBetween(text, d);
  }

  ghost predicate Within(ends: set<nat>, n: nat) { forall k {:trigger k in ends} :: k in ends ==> k < n }

  lemma WithinPart(a: set<nat>, b: set<nat>, n: nat)
    requires a <= b && Within(b, n)
    ensures Within(a, n)
  {
  }

  /** nulterminate. */
  method Nulterminate(buf: array<char>, c: Cmd, ghost was: seq<char>, ghost done: set<nat>)
    requires Cut(was, buf[..], done) && Within(Ends(c), buf.Length)
    modifies buf
    ensures Cut(was, buf[..], done + Ends(c))
    decreases c
  {
    match c
    case Exec(args) =>
      var i := 0;
      assert args[..0] == [];
      while i < |args|
        invariant 0 <= i <= |args| && Cut(was, buf[..], done + ArgEnds(args[..i]))
      {
        assert args[..i + 1][..i] == args[..i];
        ArgEndsHas(args, i);
        buf[args[i].eq] := NUL;
        i := i + 1;
      }
      assert args[..|args|] == args;
    case Redir(d, file, _) =>
      WithinPart(Ends(d), Ends(c), buf.Length);
      Nulterminate(buf, d, was, done);
      buf[file.eq] := NUL;
    case Pipe(l, r) =>
      WithinPart(Ends(l), Ends(c), buf.Length);
      WithinPart(Ends(r), Ends(c), buf.Length);
      Nulterminate(buf, l, was, done);
      Nulterminate(buf, r, was, done + Ends(l));
    case List(l, r) =>
      WithinPart(Ends(l), Ends(c), buf.Length);
      WithinPart(Ends(r), Ends(c), buf.Length);
      Nulterminate(buf, l, was, done);
      Nulterminate(buf, r, was, done + Ends(l));
    case Back(d) =>
      WithinPart(Ends(d), Ends(c), buf.Length);
      Nulterminate(buf, d, was, done);
  }

  // ----------------------------------------------------------------- the cursor

  /** What is left of the text at p. */
  function From(text: string, p: nat): (s: string)
    requires p <= |text|
    ensures |s| == |text| - p
  {
    text[p..]
  }

  lemma FromStep(text: string, p: nat)
    requires p < |text|
    ensures From(text, p) != "" && From(text, p)[0] == text[p] && From(text, p)[1..] == From(text, p + 1)
  {
  }

  lemma SkipStep(text: string, p: nat)
    requires p <= |text|
    ensures Skip(From(text, p)) == if p < |text| && White(text[p]) then Skip(From(text, p + 1)) else From(text, p)
  {
    hide From;
    if p < |text| {
      FromStep(text, p);
    }
  }

  lemma WordStep(text: string, p: nat)
    requires p <= |text|
    ensures WordLength(From(text, p)) == if p < |text|
            && WordChar(text[p]) then 1 + WordLength(From(text, p + 1)) else 0
  {
    hide From;
    if p < |text| {
      FromStep(text, p);
    }
  }

  /** What gettoken finds at p, which is not white space. */
  lemma TokenAt(text: string, p: nat)
    requires p <= |text| && (p < |text| ==> !White(text[p]))
    ensures var s := From(text, p);
            var twice := p + 1 < |text| && text[p] == '>' && text[p + 1] == '>';
            && (p == |text| ==> Kind(s) == NUL && Length(s) == 0)
            && (twice ==> Kind(s) == '+' && Length(s) == 2)
            && (p < |text| && Symbol(text[p]) && !twice ==> Kind(s) == text[p] && Length(s) == 1)
            && (p < |text| && !Symbol(text[p]) ==> Kind(s) == 'a' && Length(s) == WordLength(s))
  {
    hide From, WordLength;
    var s := From(text, p);
    if p < |text| {
      FromStep(text, p);
      if p + 1 < |text| {
        FromStep(text, p + 1);
        assert s[1] == s[1..][0];
      }
    }
  }

  lemma TokenEnd(text: string, q: nat, eq: nat)
    requires q <= eq <= |text| && eq == q + Length(From(text, q))
    ensures After(From(text, q)) == Skip(From(text, eq)) && TokAt(From(text, q), |text|) == Tok(q, eq, text[q..eq])
  {
    hide Length, Skip;
    assert From(text, q)[eq - q..] == From(text, eq);
    assert From(text, q)[..eq - q] == text[q..eq];
  }

  /** A list of redirections is `l` followed by what is still to come. */
  ghost predicate Continues(all: Redirs, l: seq<(Tok, Mode)>, now: Redirs) {
    if now.RedirPanic? then all.RedirPanic? else all == Redirs(l + now.list, now.rest)
  }

  lemma ContinuesMore(all: Redirs, l: seq<(Tok, Mode)>, x: (Tok, Mode), now: Redirs)
    requires Continues(all, l, Prepend(x, now))
    ensures Continues(all, l + [x], now)
  {
    if now.Redirs? {
      assert l + ([x] + now.list) == (l + [x]) + now.list;
    }
  }

  lemma ContinuesStart(all: Redirs)
    ensures Continues(all, [], all)
  {
    if all.Redirs? {
      assert [] + all.list == all.list;
    }
  }

  lemma ContinuesEnd(all: Redirs, l: seq<(Tok, Mode)>, s: string)
    requires Continues(all, l, Redirs([], s))
    ensures all == Redirs(l, s)
  {
    assert l + [] == l;
  }

  function Prepend(x: (Tok, Mode), r: Redirs): Redirs {
    if r.RedirPanic? then r else Redirs([x] + r.list, r.rest)
  }

  /** One redirection: t is what is left after its symbol, and u what is left after its file. */
  lemma RedirStep(s: string, n: nat, t: string, u: string)
    requires Clean(s) && Peek(s, Redirect) && |s| <= n && t == After(s) && u == After(t)
    requires |t| < |s| && |u| <= |t| && Clean(t) && Clean(u)
    ensures ParseRedirs(s, n) == if Kind(t) != 'a' then RedirPanic
              else Prepend((TokAt(t, n), ModeOf(Kind(s))), ParseRedirs(u, n))
  {
    hide After, Kind, TokAt, ModeOf, Peek, Clean;
  }

  function Join(x: Tok, l: seq<(Tok, Mode)>, w: Words): Words {
    if w.WordPanic? then w else Words([x] + w.args, l + w.list, w.rest)
  }

  /** The arguments and redirections are those so far followed by what is still to come. */
  ghost predicate Goes(all: Words, args: seq<Tok>, l: seq<(Tok, Mode)>, now: Words) {
    if now.WordPanic? then all.WordPanic? else all == Words(args + now.args, l + now.list, now.rest)
  }

  lemma GoesOn(all: Words, args: seq<Tok>, l: seq<(Tok, Mode)>, x: Tok, m: seq<(Tok, Mode)>, now: Words)
    requires Goes(all, args, l, Join(x, m, now))
    ensures Goes(all, args + [x], l + m, now)
  {
    if now.Words? {
      assert args + ([x] + now.args) == (args + [x]) + now.args;
      assert l + (m + now.list) == (l + m) + now.list;
    }
  }

  lemma GoesStart(all: Words)
    ensures Goes(all, [], [], all)
  {
    if all.Words? {
      assert [] + all.args == all.args && [] + all.list == all.list;
    }
  }

  lemma GoesEnd(all: Words, args: seq<Tok>, l: seq<(Tok, Mode)>, s: string)
    requires Goes(all, args, l, Words([], [], s))
    ensures all == Words(args, l, s)
  {
    assert args + [] == args && l + [] == l;
  }

  /** One argument: r are the redirections after it. */
  lemma WordsStep(s: string, n: nat, k: nat, r: Redirs)
    requires Clean(s) && |s| <= n && !Peek(s, Stop) && s != "" && r == ParseRedirs(After(s), n)
    ensures ParseWords(s, n, k) == if Kind(s) != 'a' || k + 1 >= MAXARGS || r.RedirPanic? then WordPanic
                                   else Join(TokAt(s, n), r.list, ParseWords(r.rest, n, k + 1))
  {
    hide After, Kind, TokAt, Peek, Clean, ParseRedirs;
  }

  lemma WordsDone(s: string, n: nat, k: nat)
    requires Clean(s) && |s| <= n && (Peek(s, Stop) || s == "")
    ensures ParseWords(s, n, k) == Words([], [], s)
  {
    hide Peek, Clean;
  }

  /** What a parsing method returns and leaves is what the grammar says. */
  ghost predicate Agrees(r: Result, ok: bool, c: Cmd, rest: string) {
    if ok then r == Ok(c, rest) else r.Panic?
  }

  class Parser {
    const buf: array<char>
    const es: nat
    var ps: nat
    ghost const text: string

    ghost predicate Valid()
      reads this, buf
    {
      ps <= es == |text| < buf.Length && buf[es] == NUL && NUL !in text && forall k {:trigger buf[k]} ::
          0 <= k < es ==> buf[k] == text[k]
    }

    constructor (buf: array<char>, es: nat)
      requires es < buf.Length && buf[es] == NUL && NUL !in buf[..es]
      ensures this.buf == buf && this.es == es && text == buf[..es] && ps == 0 && Valid()
    {
      this.buf, this.es, ps := buf, es, 0;
      text := buf[..es];
    }

    method SkipWhite()
      requires Valid()
      modifies this`ps
      ensures Valid() && From(text, ps) == Skip(From(text, old(ps))) && old(ps) <= ps && (ps < es ==> !White(text[ps]))
    {
      hide Skip, White, From;
      while ps < es && White(buf[ps])
        invariant Valid() && old(ps) <= ps && Skip(From(text, ps)) == Skip(From(text, old(ps)))
      {
        SkipStep(text, ps);
        ps := ps + 1;
      }
      SkipStep(text, ps);
    }

    /** peek. */
    method PeekFor(toks: Set) returns (r: bool)
      requires Valid()
      modifies this`ps
      ensures Valid() && From(text, ps) == Skip(From(text, old(ps))) && (r <==> Peek(From(text, ps), toks))
              && old(ps) <= ps
    {
      hide Skip, White, From;
      SkipWhite();
      r := Among(buf[ps], toks);
      if ps < es {
        FromStep(text, ps);
      }
    }

    /** gettoken. */
    method GetToken() returns (ret: char, tok: Tok)
      requires Valid()
      modifies this`ps
      ensures Valid() && old(ps) <= ps
      ensures var s := Skip(From(text, old(ps)));
              ret == Kind(s) && tok == TokAt(s, es) && From(text, ps) == After(s)
    {
      hide Skip, White, Kind, Length, After, From, TokAt;
      SkipWhite();
      var q := ps;
      ret := ScanToken();
      var eq := ps;
      TokenEnd(text, q, eq);
      tok := Tok(q, eq, buf[q..eq]);
      assert tok.word == text[q..eq];
      SkipWhite();
    }

    /** The switch of gettoken. */
    method ScanToken() returns (ret: char)
      requires Valid() && (ps < es ==> !White(text[ps]))
      modifies this`ps
      ensures Valid() && old(ps) <= ps
      ensures var s := From(text, old(ps));
              ret == Kind(s) && ps == old(ps) + Length(s)
    {
      hide White, Symbol, Kind, Length, WordLength, From;
      TokenAt(text, ps);
      if buf[ps] == NUL {
        assert ps == es;
        ret := NUL;
      } else if buf[ps] == '>' && buf[ps + 1] == '>' {
        assert ps + 1 < es;
        ret := '+';
        ps := ps + 2;
      } else if Symbol(buf[ps]) {
        ret := buf[ps];
        ps := ps + 1;
      } else {
        ret := 'a';
        ScanWord();
      }
    }

    /** The loop of gettoken over the characters of a word. */
    method ScanWord()
      requires Valid()
      modifies this`ps
      ensures Valid() && ps == old(ps) + WordLength(From(text, old(ps)))
    {
      hide WordLength, From;
      WordStep(text, ps);
      while ps < es && !White(buf[ps]) && !Symbol(buf[ps])
        invariant Valid() && old(ps) <= ps
                  && WordLength(From(text, old(ps))) == (ps - old(ps)) + WordLength(From(text, ps))
      {
        WordStep(text, ps);
        ps := ps + 1;
      }
      WordStep(text, ps);
    }

    method OneRedir() returns (ok: bool, x: (Tok, Mode))
      requires Valid() && Clean(From(text, ps))
      modifies this`ps
      ensures Valid() && old(ps) <= ps
      ensures var s := From(text, old(ps));
              var t := After(s);
              (ok <==> Kind(t) == 'a') && x == (TokAt(t, es), ModeOf(Kind(s))) && From(text, ps) == After(t)
    {
      hide Skip, Kind, Length, After, ModeOf, ParseRedirs, From, TokAt, Clean;
      ghost var s := From(text, ps);
      SkipClean(s);
      var kind, op := GetToken();
      ghost var t := From(text, ps);
      AfterClean(s);
      SkipClean(t);
      var what, file := GetToken();
      ok, x := what == 'a', (file, ModeOf(kind));
    }

    /** parseredirs: the redirections, to be put around a command in this order. */
    method Redirections() returns (ok: bool, l: seq<(Tok, Mode)>)
      requires Valid()
      modifies this`ps
      ensures Valid() && old(ps) <= ps
      ensures var r := ParseRedirs(Skip(From(text, old(ps))), es);
              (ok <==> r.Redirs?) && (ok ==> l == r.list && From(text, ps) == r.rest)
    {
      hide Skip, Kind, Length, After, ModeOf, ParseRedirs, From, TokAt, Continues, Clean, Prepend, Among;
      SkipIsClean(From(text, ps));
      ghost var all := ParseRedirs(Skip(From(text, ps)), es);
      l := [];
      var more := PeekFor(Redirect);
      ContinuesStart(all);
      while more
        invariant Valid() && old(ps) <= ps && Clean(From(text, ps)) && (more <==> Peek(From(text, ps), Redirect))
                  && Continues(all, l, ParseRedirs(From(text, ps), es))
        decreases es - ps
      {
        ghost var s := From(text, ps);
        AfterClean(s);
        AfterClean(After(s));
        RedirStep(s, es, After(s), After(After(s)));
        var good, x := OneRedir();
        if !good {
          NoMore(all, l);
          return false, l;
        }
        more := PeekFor(Redirect);
        SkipClean(After(After(s)));
        ContinuesMore(all, l, x, ParseRedirs(From(text, ps), es));
        l := l + [x];
      }
      NoRedirs(From(text, ps), es);
      ContinuesEnd(all, l, From(text, ps));
      ok := true;
    }

    /** The loop of parseexec. */
    method Arguments() returns (ok: bool, args: seq<Tok>, l: seq<(Tok, Mode)>)
      requires Valid() && Clean(From(text, ps))
      modifies this`ps
      ensures Valid() && old(ps) <= ps
      ensures var r := ParseWords(From(text, old(ps)), es, 0);
              (ok <==> r.Words?) && (ok ==> args == r.args && l == r.list && From(text, ps) == r.rest)
    {
      hide Skip, Kind, Length, After, ParseRedirs, ParseWords, From, TokAt, Goes, Clean, Join, Among;
      ghost var all := ParseWords(From(text, ps), es, 0);
      args, l := [], [];
      GoesStart(all);
      SkipClean(From(text, ps));
      var stop := PeekFor(Stop);
      while !stop
        invariant Valid() && old(ps) <= ps && Clean(From(text, ps)) && (stop <==> Peek(From(text, ps), Stop))
        invariant Goes(all, args, l, ParseWords(From(text, ps), es, |args|))
        decreases es - ps
      {
        ghost var s := From(text, ps);
        SkipClean(s);
        AfterClean(s);
        KindEnd(text, ps);
        var kind, tok := GetToken();
        if kind == NUL {
          break;
        }
        ghost var r := ParseRedirs(After(s), es);
        WordsStep(s, es, |args|, r);
        if kind != 'a' || |args| + 1 >= MAXARGS {
          GoesNowhere(all, args, l);
          return false, args, l;
        }
        SkipClean(After(s));
        var good, m := Redirections();
        if !good {
          GoesNowhere(all, args, l);
          return false, args, l;
        }
        SkipClean(From(text, ps));
        GoesOn(all, args, l, tok, m, ParseWords(From(text, ps), es, |args| + 1));
        args, l := args + [tok], l + m;
        stop := PeekFor(Stop);
      }
      WordsDone(From(text, ps), es, |args|);
      GoesEnd(all, args, l, From(text, ps));
      ok := true;
    }

    /** parseexec. */
    method ExecCommand() returns (ok: bool, c: Cmd)
      requires Valid()
      modifies this`ps
      ensures Valid() && old(ps) <= ps && Agrees(ParseExec(Skip(From(text, old(ps))), es), ok, c, From(text, ps))
      decreases es - ps, 1
    {
      hide Skip, From, ParseRedirs, ParseWords, Clean, Among, ParseBlock, Wrap;
      ghost var s := Skip(From(text, ps));
      SkipIsClean(From(text, ps));
      SkipClean(s);
      c := Exec([]);
      var block := PeekFor(Open);
      if block {
        ok, c := Block();
        return;
      }
      var l;
      ok, l := Redirections();
      if ok {
        var args, l2;
        ok, args, l2 := Arguments();
        c := Wrap(Exec(args), l + l2);
      }
    }

    /** parseblock. */
    method Block() returns (ok: bool, c: Cmd)
      requires Valid() && Clean(From(text, ps)) && Peek(From(text, ps), Open)
      modifies this`ps
      ensures Valid() && old(ps) <= ps && Agrees(ParseBlock(From(text, old(ps)), es), ok, c, From(text, ps))
      decreases es - ps, 0
    {
      hide Skip, From, After, Length, Kind, TokAt, ParseRedirs, ParseLine, Clean, Among, Wrap;
      ghost var s := From(text, ps);
      SkipClean(s);
      AfterClean(s);
      var tok, paren := GetToken();
      SkipClean(After(s));
      ok, c := LineCommand();
      if ok {
        ghost var t := From(text, ps);
        SkipClean(t);
        ok := PeekFor(Close);
        if ok {
          tok, paren := GetToken();
          AfterClean(t);
          SkipClean(After(t));
          var l;
          ok, l := Redirections();
          c := Wrap(c, l);
        }
      }
    }

    /** parsepipe. */
    method PipeCommand() returns (ok: bool, c: Cmd)
      requires Valid()
      modifies this`ps
      ensures Valid() && old(ps) <= ps && Agrees(ParsePipe(Skip(From(text, old(ps))), es), ok, c, From(text, ps))
      decreases es - ps, 2
    {
      hide Skip, From, After, Length, Kind, TokAt, ParseExec, Clean, Among;
      SkipIsClean(From(text, ps));
      ok, c := ExecCommand();
      if ok {
        ghost var t := From(text, ps);
        SkipClean(t);
        var more := PeekFor(Bar);
        if more {
          var tok, bar := GetToken();
          AfterClean(t);
          SkipClean(After(t));
          var right;
          ok, right := PipeCommand();
          c := Pipe(c, right);
        }
      }
    }

    /** The loop of parseline. */
    method Ampersands(first: Cmd) returns (c: Cmd)
      requires Valid() && Clean(From(text, ps))
      modifies this`ps
      ensures Valid() && old(ps) <= ps && (c, From(text, ps)) == Backs(first, From(text, old(ps)))
    {
      hide Skip, From, After, Length, Kind, TokAt, Clean, Among;
      c := first;
      SkipClean(From(text, ps));
      var more := PeekFor(Amp);
      while more
        invariant Valid() && old(ps) <= ps && Clean(From(text, ps)) && (more <==> Peek(From(text, ps), Amp))
        invariant Backs(c, From(text, ps)) == Backs(first, From(text, old(ps)))
        decreases es - ps
      {
        ghost var s := From(text, ps);
        SkipClean(s);
        AfterClean(s);
        SkipClean(After(s));
        var tok, amp := GetToken();
        c := Back(c);
        more := PeekFor(Amp);
      }
    }

    /** parseline. */
    method LineCommand() returns (ok: bool, c: Cmd)
      requires Valid()
      modifies this`ps
      ensures Valid() && old(ps) <= ps && Agrees(ParseLine(Skip(From(text, old(ps))), es), ok, c, From(text, ps))
      decreases es - ps, 3
    {
      hide Skip, From, After, Length, Kind, TokAt, ParsePipe, Clean, Among, Backs;
      SkipIsClean(From(text, ps));
      ok, c := PipeCommand();
      if ok {
        c := Ampersands(c);
        ghost var t := From(text, ps);
        SkipClean(t);
        var more := PeekFor(Semi);
        if more {
          var tok, semi := GetToken();
          AfterClean(t);
          SkipClean(After(t));
          var right;
          ok, right := LineCommand();
          c := List(c, right);
        }
      }
    }
  }

  /** A buffer, read as a C string. */
  function CString(b: seq<char>): string {
    if b == [] || b[0] == NUL then "" else [b[0]] + CString(b[1..])
  }

  lemma {:induction false} CStringIs(b: seq<char>, n: nat)
    requires n < |b| && b[n] == NUL && NUL !in b[..n]
    ensures CString(b) == b[..n]
  {
    if n > 0 {
      assert b[..n][0] == b[0] && b[1..][..n - 1] == b[..n][1..];
      CStringIs(b[1..], n - 1);
      assert b[..n] == [b[0]] + b[1..][..n - 1];
    }
  }

  method Strlen(buf: array<char>) returns (n: nat)
    requires NUL in buf[..]
    ensures n < buf.Length && buf[n] == NUL && NUL !in buf[..n]
  {
    n := 0;
    while buf[n] != NUL
      invariant n < buf.Length && NUL !in buf[..n] && NUL in buf[n..]
      decreases buf.Length - n
    {
      assert buf[n..] == [buf[n]] + buf[n + 1..];
      n := n + 1;
    }
  }

  /** parsecmd: a command, exactly when the line is in the grammar; then the buffer has been cut so that the argument
      and file pointers into it are C strings for the words of the command, and nothing else has been overwritten. */
  method ParseCmd(buf: array<char>) returns (ok: bool, c: Cmd)
    requires NUL in buf[..]
    modifies buf
    ensures var r := Parse(CString(old(buf[..])));
            (ok <==> r.Ok?) && (ok ==> c == r.cmd && CmdReads(buf[..], c) && Cut(old(buf[..]), buf[..], Ends(c)))
    ensures !ok ==> buf[..] == old(buf[..])
    ensures ok <==> exists f :: ShellGrammar.Derives(f, CString(old(buf[..])))
    ensures forall f :: ShellGrammar.Derives(f, CString(old(buf[..]))) ==> c == ShellGrammar.Meaning(f)
  {
    hide ParseLine, Skip, CmdReads, Cut, Ends, CmdOk, ShellGrammar.Derives, ShellGrammar.Meaning;
    ShellGrammar.ParsedExactly(CString(buf[..]));
    ghost var was := buf[..];
    var es := Strlen(buf);
    CStringIs(was, es);
    var p := new Parser(buf, es);
    ghost var text := p.text;
    assert text == was[..es] && From(text, 0) == text;
    ok, c := p.LineCommand();
    if ok {
      SkipClean(From(text, p.ps));
      p.SkipWhite();
      ok := p.ps == es;
      if ok {
        ParsedOk(text);
        EndsBetween(text, c);
        NothingCut(was);
        Nulterminate(buf, c, was, {});
        assert {} + Ends(c) == Ends(c);
        AllRead(text, was, buf[..], Ends(c), c);
      }
    }
  }

  lemma NothingCut(was: seq<char>)
    ensures Cut(was, was, {})
  {
  }

  lemma GoesNowhere(all: Words, args: seq<Tok>, l: seq<(Tok, Mode)>)
    requires Goes(all, args, l, WordPanic)
    ensures all.WordPanic?
  {
  }

  lemma KindEnd(text: string, p: nat)
    requires p <= |text| && NUL !in text
    ensures Kind(From(text, p)) == NUL <==> From(text, p) == ""
  {
    if p < |text| {
      FromStep(text, p);
    }
  }

  lemma AfterClean(s: string)
    ensures Clean(After(s)) && |After(s)| <= |s| && (Clean(s) && s != "" ==> |After(s)| < |s|)
  {
  }

  lemma SkipIsClean(s: string)
    ensures Clean(Skip(s))
  {
  }

  lemma NoMore(all: Redirs, l: seq<(Tok, Mode)>)
    requires Continues(all, l, RedirPanic)
    ensures all.RedirPanic?
  {
  }
}
