/** The regular-expression matcher and the line loop of user/grep.c. Strings are sequences of characters without
    the terminating NUL. */
module Grep {
  const NUL := '\0'
  const BUF := 1024   // sizeof(buf)

  // -------------------------------------------------------------- semantics

  /** One element of a pattern; '.' stands for any character. */
  datatype Item = One(c: char) | Star(c: char)

  predicate Fits(c: char, x: char) { c == '.' || c == x }

  ghost predicate AllFit(c: char, w: string) { forall i :: 0 <= i < |w| ==> Fits(c, w[i]) }

  /** The strings that one element describes. */
  ghost predicate Describes(it: Item, w: string) {
    match it
    case One(c) => |w| == 1 && Fits(c, w[0])
    case Star(c) => AllFit(c, w)
  }

  /** The strings that a sequence of elements describes: concatenations. */
  ghost predicate InLanguage(items: seq<Item>, w: string) {
    if items == [] then w == []
    else exists j :: 0 <= j <= |w| && Describes(items[0], w[..j]) && InLanguage(items[1..], w[j..])
  }

  /** The elements of a pattern after any leading '^', and whether it ends in '$'. A character followed by '*' is
      starred, whatever it is; '$' is special only at the end, and '^' and a leading '*' not at all. */
  function Items(re: string): seq<Item> {
    if re == "" || re == "$" then []
    else if |re| > 1 && re[1] == '*' then [Star(re[0])] + Items(re[2..])
    else [One(re[0])] + Items(re[1..])
  }

  predicate AtEnd(re: string) {
    if re == "" then false
    else if re == "$" then true
    else if |re| > 1 && re[1] == '*' then AtEnd(re[2..])
    else AtEnd(re[1..])
  }

  /** The pattern describes a prefix of the text, the whole of it if it ends in '$'. */
  ghost predicate Prefix(items: seq<Item>, end: bool, text: string) {
    exists k :: 0 <= k <= |text| && (end ==> k == |text|) && InLanguage(items, text[..k])
  }

  /** The pattern describes a piece of the text, at the beginning if it starts with '^'. */
  ghost predicate Occurs(re: string, text: string) {
    if |re| > 0 && re[0] == '^' then Prefix(Items(re[1..]), AtEnd(re[1..]), text)
    else exists i :: 0 <= i <= |text| && Prefix(Items(re), AtEnd(re), text[i..])
  }

  // ------------------------------------------------------- facts about Prefix

  lemma PrefixNone(end: bool, text: string)
    ensures Prefix([], end, text) <==> (end ==> text == "")
  {
    if end ==> text == "" {
      assert InLanguage([], text[..0]);
    }
  }

  lemma PrefixOne(c: char, items: seq<Item>, end: bool, text: string)
    ensures Prefix([One(c)] + items, end, text) <==> text != "" && Fits(c, text[0]) && Prefix(items, end, text[1..])
  {
    var all := [One(c)] + items;
    assert all[1..] == items;
    if Prefix(all, end, text) {
      var k :| 0 <= k <= |text| && (end ==> k == |text|) && InLanguage(all, text[..k]);
      var w := text[..k];
      var j :| 0 <= j <= |w| && Describes(all[0], w[..j]) && InLanguage(all[1..], w[j..]);
      assert w[1..] == text[1..][..k - 1];
    }
    if text != "" && Fits(c, text[0]) && Prefix(items, end, text[1..]) {
      var k :| 0 <= k <= |text[1..]| && (end ==> k == |text[1..]|) && InLanguage(items, text[1..][..k]);
      var w := text[..k + 1];
      assert w[1..] == text[1..][..k];
      assert Describes(all[0], w[..1]) && InLanguage(all[1..], w[1..]);
    }
  }

  /** What a star can take, and what is left of the text then. */
  ghost predicate TakesSome(c: char, items: seq<Item>, end: bool, text: string) {
    exists j :: 0 <= j <= |text| && AllFit(c, text[..j]) && Prefix(items, end, text[j..])
  }

  lemma PrefixStar(c: char, items: seq<Item>, end: bool, text: string)
    ensures Prefix([Star(c)] + items, end, text) <==> TakesSome(c, items, end, text)
  {
    var all := [Star(c)] + items;
    assert all[1..] == items;
    if Prefix(all, end, text) {
      var k :| 0 <= k <= |text| && (end ==> k == |text|) && InLanguage(all, text[..k]);
      var w := text[..k];
      var j :| 0 <= j <= |w| && Describes(all[0], w[..j]) && InLanguage(all[1..], w[j..]);
      assert w[..j] == text[..j] && w[j..] == text[j..][..k - j];
      assert Prefix(items, end, text[j..]);
    }
    if TakesSome(c, items, end, text) {
      var j :| 0 <= j <= |text| && AllFit(c, text[..j]) && Prefix(items, end, text[j..]);
      var k :| 0 <= k <= |text[j..]| && (end ==> k == |text[j..]|) && InLanguage(items, text[j..][..k]);
      var w := text[..j + k];
      assert w[..j] == text[..j] && w[j..] == text[j..][..k];
      assert Describes(all[0], w[..j]) && InLanguage(all[1..], w[j..]);
    }
  }

  // ------------------------------------------------------------ the matcher

  /** matchhere. */
  method MatchHere(re: string, text: string) returns (r: bool)
    ensures r <==> Prefix(Items(re), AtEnd(re), text)
    decreases |re|, 0
  {
    hide Prefix, TakesSome;
    if |re| == 0 {
      PrefixNone(false, text);
      return true;
    }
    if |re| > 1 && re[1] == '*' {
      PrefixStar(re[0], Items(re[2..]), AtEnd(re[2..]), text);
      r := MatchStar(re[0], re[2..], text);
      return;
    }
    if re[0] == '$' && |re| == 1 {
      assert re == "$";
      PrefixNone(true, text);
      return text == "";
    }
    assert re != "$";
    PrefixOne(re[0], Items(re[1..]), AtEnd(re[1..]), text);
    if |text| > 0 && (re[0] == '.' || re[0] == text[0]) {
      r := MatchHere(re[1..], text[1..]);
      return;
    }
    r := false;
  }

  /** matchstar. */
  method MatchStar(c: char, re: string, text: string) returns (r: bool)
    ensures r <==> TakesSome(c, Items(re), AtEnd(re), text)
    decreases |re|, 1
  {
    hide Prefix, Items, AtEnd;
    var i := 0;
    while true
      invariant 0 <= i <= |text| && AllFit(c, text[..i])
      invariant forall j :: 0 <= j < i ==> !Prefix(Items(re), AtEnd(re), text[j..])
      decreases |text| - i
    {
      var here := MatchHere(re, text[i..]);
      if here {
        return true;
      }
      if !(i < |text| && (text[i] == c || c == '.')) {
        forall j | 0 <= j <= |text| && AllFit(c, text[..j]) ensures j <= i {
          assert i < j ==> Fits(c, text[..j][i]);
        }
        return false;
      }
      assert text[..i + 1] == text[..i] + [text[i]];
      i := i + 1;
    }
  }

  /** match: 1 exactly when the pattern describes a piece of the text. */
  method Match(re: string, text: string) returns (r: bool)
    ensures r <==> Occurs(re, text)
  {
    hide Prefix, Items, AtEnd;
    if |re| > 0 && re[0] == '^' {
      r := MatchHere(re[1..], text);
      return;
    }
    var i := 0;
    while true
      invariant 0 <= i <= |text|
      invariant forall j :: 0 <= j < i ==> !Prefix(Items(re), AtEnd(re), text[j..])
      decreases |text| - i
    {
      var here := MatchHere(re, text[i..]);
      if here {
        return true;
      }
      if i == |text| {
        return false;
      }
      i := i + 1;
    }
  }

  // --------------------------------------------------------------- the lines

  /** The place of the first newline, if there is one before any NUL. */
  function Newline(s: string): (j: int)
    ensures -1 <= j < |s|
    ensures j != -1 ==> s[j] == '\n' && forall k :: 0 <= k < j ==> s[k] != '\n' && s[k] != NUL
  {
    if s == "" || s[0] == NUL then -1
    else if s[0] == '\n' then 0
    else var j := Newline(s[1..]); if j == -1 then -1 else j + 1
  }

  /** What grep writes: the matching lines, each with its newline, up to the first line that is not ended, holds a
      NUL, or does not fit in the buffer with its newline. */
  ghost function Selected(re: string, input: string): string {
    var j := Newline(input);
    if j == -1 || j + 1 >= BUF then ""
    else (if Occurs(re, input[..j]) then input[..j + 1] else "") + Selected(re, input[j + 1..])
  }

  /** What a line contributes. */
  ghost function Kept(re: string, s: string, j: nat): string
    requires j < |s|
  {
    if Occurs(re, s[..j]) then s[..j + 1] else ""
  }

  lemma SelectedStep(re: string, input: string, j: nat)
    requires Newline(input) == j && j + 1 < BUF
    ensures Selected(re, input) == Kept(re, input, j) + Selected(re, input[j + 1..])
  {
    hide Occurs, Newline;
  }

  /** A newline found in the part that has been read is the first one of all. */
  lemma {:induction false} NewlineStays(s: string, more: string)
    ensures Newline(s) != -1 ==> Newline(s + more) == Newline(s)
  {
    if s != "" {
      NewlineStays(s[1..], more);
      assert (s + more)[1..] == s[1..] + more;
    }
  }

  /** If there is none in a full buffer, the line is too long or broken by a NUL. */
  lemma {:induction false} NewlineBeyond(s: string, more: string)
    requires Newline(s) == -1
    ensures Newline(s + more) == -1 || Newline(s + more) >= |s|
  {
    if s != "" {
      assert (s + more)[1..] == s[1..] + more;
      if s[0] != NUL && s[0] != '\n' {
        NewlineBeyond(s[1..], more);
      }
    }
  }

  /** strchr(p, '\n') on the NUL-terminated buffer: the index, -1 if there is none. */
  method Strchr(buf: array<char>, p: nat, m: nat) returns (q: int)
    requires p <= m < buf.Length && buf[m] == NUL
    ensures q == if Newline(buf[p..m]) == -1 then -1 else p + Newline(buf[p..m])
  {
    var i := p;
    while true
      invariant p <= i <= m
      invariant Newline(buf[p..m]) == if Newline(buf[i..m]) == -1 then -1 else Newline(buf[i..m]) + (i - p)
      decreases m - i
    {
      if buf[i] == '\n' {
        assert i < m;
        return i;
      }
      if buf[i] == NUL {
        return -1;
      }
      assert buf[i..m][1..] == buf[i + 1..m];
      i := i + 1;
    }
  }

  /** One trip of that loop: the line from p to the newline at q. */
  method Line(re: string, buf: array<char>, p: nat, q: nat) returns (written: string)
    requires p <= q < buf.Length && buf[q] == '\n'
    modifies buf
    ensures written == if Occurs(re, old(buf[p..q])) then old(buf[p..q + 1]) else ""
    ensures forall k :: 0 <= k < buf.Length && k != q ==> buf[k] == old(buf[k])
  {
    hide Occurs;
    buf[q] := NUL;
    assert buf[p..q] == old(buf[p..q]);
    var hit := Match(re, buf[p..q]);
    written := "";
    if hit {
      buf[q] := '\n';
      written := buf[p..q + 1];
      assert written == old(buf[p..q + 1]);
    }
  }

  /** With `out` written, what the rest calls for is what the whole input calls for. */
  ghost predicate Pending(re: string, input: string, out: string, rest: string) {
    Selected(re, input) == out + Selected(re, rest)
  }

  lemma PendingStart(re: string, input: string)
    ensures Pending(re, input, "", input)
  {
    hide Selected;
    assert "" + Selected(re, input) == Selected(re, input);
  }

  lemma PendingMore(re: string, input: string, out: string, rest: string, written: string, rest': string)
    requires Pending(re, input, out, rest) && Pending(re, rest, written, rest')
    ensures Pending(re, input, out + written, rest')
  {
    hide Selected;
    assert out + (written + Selected(re, rest')) == (out + written) + Selected(re, rest');
  }

  lemma PendingEnd(re: string, input: string, out: string, rest: string)
    requires Pending(re, input, out, rest)
    ensures out <= Selected(re, input) && (Selected(re, rest) == "" ==> out == Selected(re, input))
  {
    hide Selected;
    assert out + "" == out;
  }

  /** The loop over the lines in the buffer; p is where the unfinished line starts, `rest` what is still to be
      read. */
  method Lines(re: string, buf: array<char>, m: nat, ghost rest: string) returns (p: nat, out: string)
    requires m < buf.Length <= BUF && buf[m] == NUL
    modifies buf
    ensures p <= m && Newline(buf[p..m]) == -1
    ensures Pending(re, old(buf[..m]) + rest, out, buf[p..m] + rest)
  {
    hide Occurs, Newline, Pending;
    p, out := 0, "";
    ghost var s := buf[..m];
    ghost var all := s + rest;
    PendingStart(re, all);
    assert s == buf[0..m];
    var q := Strchr(buf, p, m);
    while q != -1
      invariant p <= m && buf[m] == NUL && buf[p..m] == s && Pending(re, all, out, s + rest)
      invariant q == if Newline(s) == -1 then -1 else p + Newline(s)
      decreases m - p
    {
      ghost var j := Newline(s);
      OneLine(re, s, rest);
      Split(buf[..], p, m, j);
      var written := Line(re, buf, p, q);
      PendingMore(re, all, out, s + rest, written, s[j + 1..] + rest);
      out := out + written;
      Tail(s, buf[..], p, m, j);
      s := s[j + 1..];
      p := q + 1;
      q := Strchr(buf, p, m);
    }
  }

  lemma Split(b: seq<char>, p: nat, m: nat, j: nat)
    requires p <= m <= |b| && j < m - p
    ensures b[p..m][j] == b[p + j] && b[p..p + j] == b[p..m][..j] && b[p..p + j + 1] == b[p..m][..j + 1]
  {
  }

  lemma Tail(s: seq<char>, b: seq<char>, p: nat, m: nat, j: nat)
    requires p <= m <= |b| && |s| == m - p && j < |s| && forall k {:trigger b[k]} :: p + j < k < m ==> b[k] == s[k - p]
    ensures b[p + j + 1..m] == s[j + 1..]
  {
  }

  /** The first line of what has been read so far, whatever follows. */
  lemma OneLine(re: string, s: string, more: string)
    requires Newline(s) != -1 && |s| < BUF
    ensures var j := Newline(s);
            Pending(re, s + more, if Occurs(re, s[..j]) then s[..j + 1] else "", s[j + 1..] + more)
  {
    hide Occurs, Newline, Selected;
    NewlineStays(s, more);
    var j := Newline(s);
    SelectedStep(re, s + more, j);
    assert (s + more)[..j] == s[..j] && (s + more)[..j + 1] == s[..j + 1] && (s + more)[j + 1..] == s[j + 1..] + more;
  }

  /** Nothing is written for a line that the buffer cannot hold, or that does not end. */
  lemma NoLine(re: string, s: string, more: string)
    requires Newline(s) == -1 && (more == "" || |s| + 1 >= BUF)
    ensures Selected(re, s + more) == ""
  {
    hide Occurs, Newline;
    NewlineBeyond(s, more);
    assert s + "" == s;
  }

  /** grep, on a file with the given contents that read delivers in pieces of any size, and of which the first `good`
      bytes can be read; `whole` is false if a read has failed. */
  method Grep(re: string, input: string, good: nat) returns (out: string, whole: bool)
    ensures out <= Selected(re, input) && (whole ==> out == Selected(re, input)) && (|input| <= good ==> whole)
  {
    hide Occurs, Newline, Pending;
    var buf := new char[BUF];
    var m, off := 0, 0;
    out, whole := "", true;
    NoNewline();
    PendingStart(re, input);
    assert buf[..0] + input[0..] == input && buf[..0] == "";
    while true
      invariant 0 <= m < BUF && 0 <= off <= |input| && Newline(buf[..m]) == -1
      invariant Pending(re, input, out, buf[..m] + input[off..])
      decreases |input| - off
    {
      var room := BUF - m - 1;
      var n := 0;
      if 0 < room && off < |input| {
        if good <= off {
          n := -1;
        } else {
          n :| 0 < n <= room && off + n <= |input| && off + n <= good;
        }
      }
      if n <= 0 {
        PendingEnd(re, input, out, buf[..m] + input[off..]);
        if n == 0 {
          NoLine(re, buf[..m], input[off..]);
        } else {
          whole := false;
        }
        return;
      }
      ghost var was := buf[..m];
      Fill(buf, m, input[off..off + n]);
      assert was + input[off..] == buf[..m + n] + input[off + n..];
      m, off := m + n, off + n;
      var p, written := Lines(re, buf, m, input[off..]);
      PendingMore(re, input, out, was + input[off - n..], written, buf[p..m] + input[off..]);
      out := out + written;
      Memmove(buf, p, m);
      m := m - p;
    }
  }

  /** read(fd, buf+m, ...) and the NUL after what it delivers. */
  method Fill(buf: array<char>, m: nat, piece: string)
    requires m + |piece| < buf.Length
    modifies buf
    ensures buf[..m + |piece|] == old(buf[..m]) + piece && buf[m + |piece|] == NUL
  {
    ghost var was := buf[..m];
    forall k | 0 <= k < |piece| { buf[m + k] := piece[k]; }
    assert buf[..m] == was;
    assert buf[m..m + |piece|] == piece;
    buf[m + |piece|] := NUL;
    assert buf[..m + |piece|] == was + piece;
  }

  /** memmove(buf, buf+p, m-p) */
  method Memmove(buf: array<char>, p: nat, m: nat)
    requires p <= m <= buf.Length
    modifies buf
    ensures buf[..m - p] == old(buf[p..m])
  {
    forall k | 0 <= k < m - p { buf[k] := buf[p + k]; }
  }

  lemma NoNewline()
    ensures Newline("") == -1
  {
  }

  // ------------------------------------------------------- ordinary text files

  function FirstOf(s: string, c: char): (j: int)
    ensures -1 <= j < |s| && (j == -1 ==> c !in s) && (j != -1 ==> s[j] == c && forall k :: 0 <= k < j ==> s[k] != c)
  {
    if s == "" then -1 else if s[0] == c then 0 else var j := FirstOf(s[1..], c); if j == -1 then -1 else j + 1
  }

  /** The matching newline-terminated lines, in order. */
  ghost function MatchingLines(re: string, s: string): string {
    var j := FirstOf(s, '\n');
    if j == -1 then ""
    else (if Occurs(re, s[..j]) then s[..j + 1] else "") + MatchingLines(re, s[j + 1..])
  }

  /** A line starts at i and has its newline at j. */
  ghost predicate IsLine(s: string, i: int, j: int) {
    0 <= i <= j < |s| && (i == 0 || s[i - 1] == '\n') && s[j] == '\n' && forall k :: i <= k < j ==> s[k] != '\n'
  }

  /** No NUL, and no line that is longer than 1023 characters with its newline. */
  ghost predicate Ordinary(s: string) {
    NUL !in s && forall i, j {:trigger IsLine(s, i, j)} :: IsLine(s, i, j) ==> j + 1 - i < BUF
  }

  lemma OrdinaryTail(s: string, j: nat)
    requires Ordinary(s) && j < |s| && s[j] == '\n'
    ensures Ordinary(s[j + 1..])
  {
    var t := s[j + 1..];
    forall a, b {:trigger IsLine(t, a, b)} | IsLine(t, a, b) ensures b + 1 - a < BUF {
      forall k | a + j + 1 <= k < b + j + 1 ensures s[k] != '\n' {
        assert s[k] == t[k - (j + 1)];
      }
      assert IsLine(s, a + j + 1, b + j + 1);
    }
  }

  lemma {:induction false} NewlineIsFirst(s: string)
    requires NUL !in s
    ensures Newline(s) == FirstOf(s, '\n')
  {
    if s != "" {
      NewlineIsFirst(s[1..]);
    }
  }

  /** On an ordinary text file grep writes exactly the matching lines. */
  lemma {:induction false} OrdinaryText(re: string, s: string)
    requires Ordinary(s)
    ensures Selected(re, s) == MatchingLines(re, s)
    decreases |s|
  {
    hide Occurs;
    NewlineIsFirst(s);
    var j := Newline(s);
    if j != -1 {
      assert IsLine(s, 0, j);
      OrdinaryTail(s, j);
      OrdinaryText(re, s[j + 1..]);
    }
  }

  // ------------------------------------------------------------- all other files

  /** The start of the first line that is not ended, holds a NUL, or does not fit in the buffer with its newline. */
  function StopAt(s: string): (k: nat)
    ensures k <= |s|
  {
    var j := Newline(s);
    if j == -1 || j + 1 >= BUF then 0 else j + 1 + StopAt(s[j + 1..])
  }

  lemma FirstLine(re: string, s: string, j: nat)
    requires Newline(s) == j && j + 1 < BUF
    ensures Selected(re, s) == Kept(re, s, j) + Selected(re, s[j + 1..]) && StopAt(s) == j + 1 + StopAt(s[j + 1..])
    ensures MatchingLines(re, s) == Kept(re, s, j) + MatchingLines(re, s[j + 1..])
  {
    hide Occurs, Newline, FirstOf, Selected;
    SelectedStep(re, s, j);
    FirstIs(s, j);
  }

  lemma Stopped(re: string, s: string)
    requires Newline(s) == -1 || Newline(s) + 1 >= BUF
    ensures Selected(re, s) == "" && StopAt(s) == 0
  {
    hide Newline;
  }

  /** On any input grep writes the matching lines up to that place, and none from there on. */
  lemma {:induction false} CutOff(re: string, s: string)
    ensures MatchingLines(re, s) == Selected(re, s) + MatchingLines(re, s[StopAt(s)..])
    decreases |s|
  {
    hide Occurs, Newline, Selected, MatchingLines, StopAt, Kept;
    var j := Newline(s);
    if j == -1 || j + 1 >= BUF {
      Stopped(re, s);
      assert s[0..] == s;
    } else {
      var t := s[j + 1..];
      CutOff(re, t);
      FirstLine(re, s, j);
      assert s[StopAt(s)..] == t[StopAt(t)..];
    }
  }

  /** So it writes all matching lines if and only if no line from there on matches. */
  lemma {:induction false} AllLines(re: string, s: string)
    ensures Selected(re, s) == MatchingLines(re, s) <==> MatchingLines(re, s[StopAt(s)..]) == ""
  {
    CutOff(re, s);
    var rest := MatchingLines(re, s[StopAt(s)..]);
    assert |MatchingLines(re, s)| == |Selected(re, s)| + |rest|;
    assert Selected(re, s) + "" == Selected(re, s);
  }

  lemma {:induction false} FirstIs(s: string, j: nat)
    requires j < |s| && s[j] == '\n' && forall k :: 0 <= k < j ==> s[k] != '\n'
    ensures FirstOf(s, '\n') == j
  {
    var f := FirstOf(s, '\n');
    assert s[j] in s;
  }

  lemma NoFirst()
    ensures FirstOf("", '\n') == -1
  {
  }

  lemma {:induction false} LongLine(s: string, j: nat)
    requires j < |s| && forall k :: 0 <= k < j ==> s[k] != '\n'
    ensures Newline(s) == -1 || Newline(s) >= j
  {
    var f := Newline(s);
  }

  /** A line w that does not fit hides a matching line m after it. */
  lemma {:induction false} LongLineHides(re: string, w: string, m: string)
    requires BUF <= |w| + 1 && '\n' !in w && '\n' !in m && Occurs(re, m)
    ensures var s := w + "\n" + m + "\n";
            && Selected(re, s) == "" && StopAt(s) == 0
            && MatchingLines(re, s) == (if Occurs(re, w) then w + "\n" else "") + m + "\n"
  {
    hide Occurs, Newline, FirstOf;
    var t := m + "\n";
    var s := w + "\n" + t;
    assert w + "\n" + m + "\n" == s;
    LongLine(s, |w|);
    FirstIs(s, |w|);
    assert s[..|w|] == w && s[..|w| + 1] == w + "\n" && s[|w| + 1..] == t;
    FirstIs(t, |m|);
    assert t[..|m|] == m && t[..|m| + 1] == t && t[|m| + 1..] == "";
    NoFirst();
    assert MatchingLines(re, t) == t;
  }

  /** For one: 1023 characters and a newline, and then a line that is the pattern. */
  lemma DroppedLine()
    ensures var s := seq(1023, _ => 'x') + "\n" + "a" + "\n"; Selected("a", s) == "" && MatchingLines("a", s) != ""
  {
    var w := seq(1023, _ => 'x');
    PrefixNone(false, "");
    PrefixOne('a', [], false, "a");
    assert Items("a") == [One('a')] + [];
    assert "a"[0..] == "a";
    assert Occurs("a", "a");
    LongLineHides("a", w, "a");
  }
}
