/** The functions of kernel/log.c over a raw disk and a cache of block contents. The object
    carries, as ghost state, the run of the LogMachine it has made so far; every bwrite and
    every critical section below is one step of that run, so what is proved there of every
    reachable state, crashes included, holds at every point inside these functions. */
module LogCode {
  import opened LogDisk
  import opened LogMachine
  import opened Params

  /** The steps of one commit of n blocks, and of one recovery of n blocks. */
  function CommitScript(n: nat): seq<Action> {
    Repeat(CopyToLog, n) + [WriteHead] + Repeat(InstallOne, n) + [ClearHead]
  }

  function RecoveryScript(n: nat): seq<Action> {
    [ReadHead] + Repeat(InstallOne, n) + [ClearHead]
  }

  function Repeat(a: Action, n: nat): (r: seq<Action>)
    ensures |r| == n && forall i :: 0 <= i < n ==> r[i] == a
    ensures n > 0 ==> r == Repeat(a, n - 1) + [a]
  {
    seq(n, _ => a)
  }

  /** A raw disk and cache that hold the machine's contents. The header block, kept in the
      clear in the machine, is encoded on the raw disk. */
  ghost predicate Mirrors(s: State, disk: Disk, cache: map<int, Block>) {
    && Fits(s.start, disk) && |s.disk| == |disk|
    && (forall b :: 0 <= b < |disk| && b != s.start ==> s.disk[b] == disk[b])
    && HeadOk(disk[s.start]) && DecodeHead(disk[s.start]) == s.head
    && s.cache == cache - {s.start}
    && (s.start in cache ==> cache[s.start] == disk[s.start])
  }

  /** The in-memory log structure is untouched. */
  ghost predicate SameStruct(s: State, t: State) {
    t.start == s.start && t.lh == s.lh && t.outstanding == s.outstanding && t.committing == s.committing
  }

  /** bread on raw contents. */
  function Fetch(disk: Disk, cache: map<int, Block>, b: int): Block
    requires 0 <= b < |disk|
  {
    if b in cache then cache[b] else disk[b]
  }

  // What each step needs to know of the state it is taken in.

  lemma CopyFacts(s: State)
    requires Inv(s) && s.phase.WriteLog? && s.phase.tail < |s.lh|
    ensures s.start + LOGBLOCKS < |s.disk| && |s.lh| <= LOGBLOCKS && Home(s.start, |s.disk|, s.lh[s.phase.tail])
    ensures Enabled(s, CopyToLog) && |Read(s, s.lh[s.phase.tail])| == WORDS
  {
  }

  lemma InstallFacts(s: State)
    requires Inv(s) && (s.phase.Installing? || s.phase.RecInstall?) && s.phase.tail < |s.lh|
    ensures s.start + LOGBLOCKS < |s.disk| && |s.lh| <= LOGBLOCKS && Home(s.start, |s.disk|, s.lh[s.phase.tail])
    ensures Enabled(s, InstallOne) && |Read(s, s.start + s.phase.tail + 1)| == WORDS
  {
  }

  lemma PinFacts(s: State)
    requires Inv(s)
    ensures Recovering(s) || s.lh == [] ==> s.pinned == {}
  {
    if Recovering(s) || s.lh == [] {
      assert forall b :: b in s.pinned ==> b in s.lh;
    }
  }

  lemma EndFacts(s: State, p: nat)
    requires Inv(s) && p < |s.procs| && s.procs[p].InOp?
    ensures !s.committing && s.phase.Idle? && s.outstanding >= 1 && Enabled(s, LogMachine.EndOp(p))
  {
    CountZero(s.procs);
  }

  lemma HeadFacts(s: State)
    requires Inv(s)
    ensures s.start + LOGBLOCKS < |s.disk| && |s.lh| <= LOGBLOCKS
  {
  }

  lemma DoneFacts(s: State)
    requires Inv(s) && (s.phase.Idle? || s.phase.Finishing?) && s.lh == []
    ensures s.head == [] && SameHome(s.start, s.disk, s.saved) && SameHome(s.start, s.disk, s.logical)
  {
    PinFacts(s);
  }

  lemma MirrorSize(s: State, disk: Disk, cache: map<int, Block>)
    requires Mirrors(s, disk, cache)
    ensures |disk| == |s.disk|
  {
  }

  lemma MirrorHome(s: State, disk: Disk, cache: map<int, Block>, want: Disk)
    requires Mirrors(s, disk, cache) && SameHome(s.start, s.disk, want)
    ensures SameHome(s.start, disk, want) && HeadOk(disk[s.start]) && DecodeHead(disk[s.start]) == s.head
  {
  }

  // Each step done on the raw contents mirrors the machine's step.

  lemma MirrorCopy(s: State, disk: Disk, cache: map<int, Block>)
    requires Mirrors(s, disk, cache) && Enabled(s, CopyToLog) && Home(s.start, |s.disk|, s.lh[s.phase.tail])
    requires |Read(s, s.lh[s.phase.tail])| == WORDS
    ensures SameStruct(s, Do(s, CopyToLog)) && Do(s, CopyToLog).pinned == s.pinned
    ensures var to := s.start + s.phase.tail + 1;
            var from := s.lh[s.phase.tail];
            var c := cache[to := Fetch(disk, cache, to)];
            var data := Fetch(disk, c, from);
            Mirrors(Do(s, CopyToLog), disk[to := data], c[from := data][to := data])
  {
    var to := s.start + s.phase.tail + 1;
    var from := s.lh[s.phase.tail];
    var c := cache[to := Fetch(disk, cache, to)];
    var data := Fetch(disk, c, from);
    assert data == Read(s, from);
    assert Do(s, CopyToLog).cache == c[from := data][to := data] - {s.start};
  }

  lemma MirrorInstall(s: State, disk: Disk, cache: map<int, Block>)
    requires Mirrors(s, disk, cache) && Enabled(s, InstallOne) && Home(s.start, |s.disk|, s.lh[s.phase.tail])
    requires |Read(s, s.start + s.phase.tail + 1)| == WORDS
    ensures SameStruct(s, Do(s, InstallOne)) && Do(s, InstallOne).pinned == s.pinned - {s.lh[s.phase.tail]}
    ensures var from := s.start + s.phase.tail + 1;
            var to := s.lh[s.phase.tail];
            var data := Fetch(disk, cache, from);
            var c := cache[from := data];
            Mirrors(Do(s, InstallOne), disk[to := data], c[to := Fetch(disk, c, to)][to := data])
  {
    var from := s.start + s.phase.tail + 1;
    var to := s.lh[s.phase.tail];
    var data := Fetch(disk, cache, from);
    var c := cache[from := data];
    assert data == Read(s, from);
    assert Do(s, InstallOne).cache == c[to := Fetch(disk, c, to)][to := data] - {s.start};
  }

  /** Writing a header list over the old header block. */
  lemma MirrorHead(s: State, t: State, disk: Disk, cache: map<int, Block>)
    requires Mirrors(s, disk, cache) && |t.head| <= LOGBLOCKS
    requires t.start == s.start && t.disk == s.disk && t.cache == s.cache
    ensures var head := EncodeHead(Fetch(disk, cache, s.start), t.head);
            Mirrors(t, disk[s.start := head], cache[s.start := head])
  {
    var head := EncodeHead(Fetch(disk, cache, s.start), t.head);
    assert cache[s.start := head] - {s.start} == cache - {s.start};
  }

  lemma MirrorSame(s: State, t: State, disk: Disk, cache: map<int, Block>)
    requires Mirrors(s, disk, cache)
    requires t.start == s.start && t.disk == s.disk && t.cache == s.cache && t.head == s.head
    ensures Mirrors(t, disk, cache)
  {
  }

  lemma MirrorLogWrite(s: State, p: nat, b: nat, data: Block, disk: Disk, cache: map<int, Block>)
    requires Mirrors(s, disk, cache) && Inv(s) && Enabled(s, LogMachine.LogWrite(p, b, data))
    ensures var t := Do(s, LogMachine.LogWrite(p, b, data));
            && Mirrors(t, disk, cache[b := data])
            && t.start == s.start && t.outstanding == s.outstanding && t.committing == s.committing
            && t.logical == s.logical[b := data] && b in t.pinned
            && (b in s.lh ==> t.lh == s.lh && t.pinned == s.pinned)
            && (b !in s.lh ==> t.lh == s.lh + [b] && t.pinned == s.pinned + {b})
  {
    assert cache[b := data] - {s.start} == (cache - {s.start})[b := data];
    KeepInv(s, LogMachine.LogWrite(p, b, data));
    CountZero(s.procs);
  }

  lemma Recoverable(s: State, disk: Disk, cache: map<int, Block>)
    requires Mirrors(s, disk, cache) && Inv(s)
    ensures GoodHead(s.start, disk) && SameHome(s.start, Recovered(s.start, disk), s.saved)
  {
    RecoveredIsSaved(s);
    RecoveryReadsTheList(s.start, Image(s), disk);
  }

  lemma ScriptIs(was: seq<Action>, now: seq<Action>, n: nat)
    requires now == was + Repeat(CopyToLog, n) + [WriteHead] + Repeat(InstallOne, n) + [ClearHead]
    ensures now == was + CommitScript(n)
  {
  }

  ghost function Boot(start: nat, disk: Disk, nproc: nat): State
    requires GoodHead(start, disk)
  {
    var base := Recovered(start, disk);
    State(start, DecodeHead(disk[start]), disk, map[], [], {}, 0, false, seq(nproc, _ => Outside), RecHead,
          base, [], 0, base, base)
  }

  lemma BootInit(start: nat, disk: Disk, nproc: nat)
    requires GoodHead(start, disk) && Distinct(DecodeHead(disk[start]))
    ensures var s := Boot(start, disk, nproc);
            Init(s) && Inv(s) && Mirrors(s, disk, map[]) && Legal(s, []) && After(s, []) == s
  {
    var s := Boot(start, disk, nproc);
    assert EncodeHead(disk[start], DecodeHead(disk[start])) == disk[start];
    assert Image(s) == disk;
    InitInv(s);
  }

  class Log {
    const start: nat
    const block: array<int>   // log.lh.block
    var n: int                // log.lh.n
    var outstanding: int
    var committing: bool
    var disk: Disk
    var cache: map<int, Block>
    var pinned: set<int>      // the buffers on which bpin is in force

    ghost const s0: State     // the state at boot
    ghost var acts: seq<Action>
    ghost var s: State        // the state those steps lead to

    ghost predicate SameLog()
      reads this, block
    {
      && block.Length == LOGBLOCKS && 0 <= n <= LOGBLOCKS
      && s.start == start && s.lh == block[..n] && s.pinned == pinned
      && s.outstanding == outstanding && s.committing == committing
    }

    ghost predicate Run()
      reads this
    {
      Init(s0) && Legal(s0, acts) && After(s0, acts) == s && Inv(s)
    }

    ghost predicate Valid()
      reads this, block
    {
      Run() && SameLog() && Mirrors(s, disk, cache)
    }

    ghost method Take(a: Action)
      requires Run() && Enabled(s, a)
      modifies this`s, this`acts
      ensures Run() && s == Do(old(s), a) && acts == old(acts) + [a]
    {
      assert (acts + [a])[..|acts|] == acts;
      KeepInv(s, a);
      s := Do(s, a);
      acts := acts + [a];
    }

    method Bread(b: int) returns (data: Block)
      requires 0 <= b < |disk|
      modifies this`cache
      ensures data == Fetch(disk, old(cache), b)
      ensures cache == old(cache)[b := data]
    {
      if b !in cache {
        cache := cache[b := disk[b]];
      }
      data := cache[b];
    }

    method Bwrite(b: int, data: Block)
      requires 0 <= b < |disk|
      modifies this`disk, this`cache
      ensures disk == old(disk)[b := data] && cache == old(cache)[b := data]
    {
      disk := disk[b := data];
      cache := cache[b := data];
    }

    // -------------------------------------------------------------- commit

    /** One trip of the loop in write_log. */
    method CopyToLogBlock(tail: nat)
      requires Valid() && s.phase == WriteLog(tail) && tail < n && Enabled(s, CopyToLog)
      modifies this`disk, this`cache, this`s, this`acts
      ensures Valid() && s == Do(old(s), CopyToLog) && acts == old(acts) + [CopyToLog]
    {
      hide Legal, After, Init, Inv, Mirrors, Do;
      CopyFacts(s);
      MirrorSize(s, disk, cache);
      MirrorCopy(s, disk, cache);
      var to := Bread(start + tail + 1);
      var from := Bread(block[tail]);
      Bwrite(start + tail + 1, from);
      Take(CopyToLog);
    }

    /** write_log: copies every logged block from the cache to its log block. */
    method WriteLogBlocks()
      requires Valid() && s.phase == WriteLog(0)
      modifies this`disk, this`cache, this`s, this`acts
      ensures Valid() && s.phase == WriteLog(n) && acts == old(acts) + Repeat(CopyToLog, n)
      ensures s.lh == old(s).lh && s.logical == old(s).logical && s.saved == old(s).saved
    {
      hide Legal, After, Init, Inv;
      for tail := 0 to n
        invariant Valid() && s.phase == WriteLog(tail) && acts == old(acts) + Repeat(CopyToLog, tail)
        invariant s.lh == old(s).lh && s.logical == old(s).logical && s.saved == old(s).saved
      {
        CopyFacts(s);
        CopyToLogBlock(tail);
      }
    }

    /** The part of write_head that fills the header buffer. */
    method FormatHead(was: Block) returns (head: Block)
      requires block.Length == LOGBLOCKS && 0 <= n <= LOGBLOCKS && |was| == WORDS
      ensures head == EncodeHead(was, block[..n])
    {
      head := was[0 := n];
      for i := 0 to n
        invariant head == [n] + block[..i] + was[1 + i..]
      {
        head := head[1 + i := block[i]];
      }
    }

    /** write_head: one bwrite of the header block. */
    method WriteHeader()
      requires block.Length == LOGBLOCKS && 0 <= n <= LOGBLOCKS && start < |disk|
               && |Fetch(disk, cache, start)| == WORDS
      modifies this`disk, this`cache
      ensures var head := EncodeHead(Fetch(old(disk), old(cache), start), block[..n]);
              disk == old(disk)[start := head] && cache == old(cache)[start := head]
    {
      var buf := Bread(start);
      var head := FormatHead(buf);
      Bwrite(start, head);
    }

    /** One trip of the loop in install_trans. */
    method InstallBlock(tail: nat, recovering: bool)
      requires Valid() && s.phase == (if recovering then RecInstall(tail) else Installing(tail)) && tail < n
      requires Enabled(s, InstallOne)
      modifies this`disk, this`cache, this`pinned, this`s, this`acts
      ensures Valid() && s == Do(old(s), InstallOne) && acts == old(acts) + [InstallOne]
    {
      hide Legal, After, Init, Inv, Mirrors, Do;
      InstallFacts(s);
      MirrorSize(s, disk, cache);
      MirrorInstall(s, disk, cache);
      PinFacts(s);
      var lbuf := Bread(start + tail + 1);
      var dbuf := Bread(block[tail]);
      Bwrite(block[tail], lbuf);
      if !recovering {
        pinned := pinned - {block[tail]};
      }
      Take(InstallOne);
    }

    /** install_trans: copies every log block to its home. */
    method InstallTrans(recovering: bool)
      requires Valid() && s.phase == (if recovering then RecInstall(0) else Installing(0))
      modifies this`disk, this`cache, this`pinned, this`s, this`acts
      ensures Valid() && s.phase == (if recovering then RecInstall(n) else Installing(n))
      ensures acts == old(acts) + Repeat(InstallOne, n)
      ensures SameStruct(old(s), s) && s.logical == old(s).logical && s.saved == old(s).saved
    {
      hide Legal, After, Init, Inv, Mirrors;
      for tail := 0 to n
        invariant Valid() && s.phase == (if recovering then RecInstall(tail) else Installing(tail))
        invariant acts == old(acts) + Repeat(InstallOne, tail)
        invariant SameStruct(old(s), s) && s.logical == old(s).logical && s.saved == old(s).saved
      {
        InstallFacts(s);
        InstallBlock(tail, recovering);
      }
    }

    /** commit, as end_op calls it. The header write is the commit point; afterwards the
        home blocks hold everything the operations have written and the log is empty. */
    method Commit()
      requires Valid() && s.phase == if n > 0 then WriteLog(0) else Finishing
      modifies this`n, this`disk, this`cache, this`pinned, this`s, this`acts
      ensures Valid() && s.phase == Finishing && n == 0
      ensures acts == old(acts) + if old(n) > 0 then CommitScript(old(n)) else []
      ensures s.logical == old(s).logical && s.outstanding == old(s).outstanding
      ensures SameHome(start, disk, s.logical) && DecodeHead(disk[start]) == []
    {
      hide Legal, After, Init, Inv, Mirrors, CommitScript;
      if n > 0 {
        WriteLogBlocks();
        CommitHeader();
        InstallTrans(false);
        EraseHeader();
        ScriptIs(old(acts), acts, old(n));
      }
      DoneFacts(s);
      MirrorHome(s, disk, cache, s.logical);
    }

    /** The first write_head of commit. */
    method CommitHeader()
      requires Valid() && s.phase == WriteLog(n)
      modifies this`disk, this`cache, this`s, this`acts
      ensures Valid() && s.phase == Installing(0) && acts == old(acts) + [WriteHead]
      ensures SameStruct(old(s), s) && s.logical == old(s).logical && s.saved == s.logical
    {
      hide Legal, After, Init, Inv;
      HeadFacts(s);
      MirrorHead(s, Do(s, WriteHead), disk, cache);
      WriteHeader();
      Take(WriteHead);
    }

    /** `log.lh.n = 0; write_head()`, at the end of commit and of recover_from_log. */
    method EraseHeader()
      requires Valid() && (s.phase == Installing(n) || s.phase == RecInstall(n))
      modifies this`n, this`disk, this`cache, this`s, this`acts
      ensures Valid() && n == 0 && acts == old(acts) + [ClearHead]
      ensures s.phase == if old(s).phase.Installing? then Finishing else Idle
      ensures s.logical == old(s).logical && s.saved == old(s).saved && s.outstanding == old(s).outstanding
    {
      hide Legal, After, Init, Inv;
      HeadFacts(s);
      MirrorHead(s, Do(s, ClearHead), disk, cache);
      n := 0;
      WriteHeader();
      Take(ClearHead);
    }

    // ------------------------------------------------------------ recovery

    /** read_head. */
    method ReadHeader()
      requires Valid() && s.phase == RecHead
      modifies this`n, block, this`cache, this`s, this`acts
      ensures Valid() && s.phase == RecInstall(0) && acts == old(acts) + [ReadHead]
      ensures s.saved == old(s).saved && block[..n] == DecodeHead(disk[start]) && disk == old(disk)
    {
      hide Legal, After, Init, Inv;
      HeadFacts(s);
      var buf := Bread(start);
      n := buf[0];
      for i := 0 to n
        modifies block
        invariant block[..i] == buf[1..1 + i]
      {
        block[i] := buf[1 + i];
      }
      Take(ReadHead);
    }

    /** recover_from_log: whatever sane log the disk holds, its home blocks end up as the
        log demands and the log is empty. */
    method RecoverFromLog()
      requires Valid() && s.phase == RecHead
      modifies this`n, block, this`disk, this`cache, this`pinned, this`s, this`acts
      ensures Valid() && s.phase == Idle && n == 0
      ensures GoodHead(start, old(disk)) && SameHome(start, disk, Recovered(start, old(disk)))
      ensures DecodeHead(disk[start]) == []
      ensures acts == old(acts) + RecoveryScript(|DecodeHead(old(disk)[start])|)
    {
      hide Legal, After, Init, Inv, Mirrors;
      Recoverable(s, disk, cache);
      ReadHeader();
      InstallTrans(true);
      EraseHeader();
      DoneFacts(s);
      MirrorHome(s, disk, cache, s.saved);
      assert acts == old(acts) + RecoveryScript(|DecodeHead(old(disk)[start])|);
    }

    // ---------------------------------------------------------- operations

    /** One trip of begin_op's loop, under log.lock: the process enters or goes to sleep. */
    method BeginOp(p: nat) returns (entered: bool)
      requires Valid() && !Recovering(s) && p < |s.procs| && s.procs[p].Outside?
      modifies this`outstanding, this`s, this`acts
      ensures Valid() && acts == old(acts) + [LogMachine.BeginOp(p)] && s == Do(old(s), LogMachine.BeginOp(p))
      ensures s.procs == old(s).procs[p := if entered then InOp(0) else Asleep]
      ensures entered <==> !committing && n + (old(outstanding) + 1) * MAXOPBLOCKS <= LOGBLOCKS
      ensures outstanding == old(outstanding) + if entered then 1 else 0
    {
      hide Legal, After, Init, Inv, Mirrors;
      HeadFacts(s);
      if committing || n + (outstanding + 1) * MAXOPBLOCKS > LOGBLOCKS {
        entered := false;
      } else {
        outstanding := outstanding + 1;
        entered := true;
      }
      MirrorSame(s, Do(s, LogMachine.BeginOp(p)), disk, cache);
      Take(LogMachine.BeginOp(p));
    }

    /** log_write, after the caller has changed the buffer of block b to `data`. A false
        result stands for the panic, before which nothing has changed. */
    method LogWrite(p: nat, b: nat, data: Block) returns (ok: bool)
      requires Valid() && p < |s.procs| && s.procs[p].InOp? && Home(start, |disk|, b) && |data| == WORDS
      modifies this`n, block, this`cache, this`pinned, this`s, this`acts
      ensures Valid() && ok == !(TooBig(old(s)) || OutsideTrans(old(s)))
      ensures !ok ==> s == old(s) && acts == old(acts) && cache == old(cache) && n == old(n)
      ensures ok ==> acts == old(acts) + [LogMachine.LogWrite(p, b, data)]
      ensures ok ==>
                s.logical == old(s).logical[b := data] && b in s.lh && b in pinned && cache == old(cache)[b := data]
      ensures ok ==> n == old(n) + if b in old(block[..n]) then 0 else 1
    {
      hide Legal, After, Init, Inv, Mirrors, Do;
      HeadFacts(s);
      MirrorSize(s, disk, cache);
      if n >= LOGBLOCKS || outstanding < 1 {
        return false;
      }
      var i := 0;
      while i < n && block[i] != b
        invariant 0 <= i <= n && forall j :: 0 <= j < i ==> block[j] != b
      {
        i := i + 1;
      }
      MirrorLogWrite(s, p, b, data, disk, cache);
      assert b in s.lh <==> i < n;
      cache := cache[b := data];
      block[i] := b;
      if i == n {
        pinned := pinned + {b};
        n := n + 1;
      }
      Take(LogMachine.LogWrite(p, b, data));
      ok := true;
    }

    /** end_op. The last outstanding operation commits on behalf of all; the panic on
        `committing` is not reachable. */
    method EndOp(p: nat)
      requires Valid() && p < |s.procs| && s.procs[p].InOp?
      modifies this`outstanding, this`committing, this`n, this`disk, this`cache, this`pinned, this`s, this`acts
      ensures Valid() && outstanding == old(outstanding) - 1 && !committing && s.logical == old(s).logical
      ensures outstanding > 0 ==>
                acts == old(acts) + [LogMachine.EndOp(p)] && disk == old(disk) && cache == old(cache) && n == old(n)
      ensures outstanding == 0 ==>
                && acts == old(acts) + [LogMachine.EndOp(p)] +
                           (if old(n) > 0 then CommitScript(old(n)) else []) + [LogMachine.Finish]
                && n == 0 && SameHome(start, disk, s.logical) && DecodeHead(disk[start]) == []
      ensures forall q :: 0 <= q < |s.procs| ==> !s.procs[q].Asleep?
    {
      hide Legal, After, Init, Inv, Mirrors, CommitScript;
      EndFacts(s, p);
      assert !committing;
      var doCommit := false;
      outstanding := outstanding - 1;
      if outstanding == 0 {
        doCommit := true;
        committing := true;
      }
      MirrorSame(s, Do(s, LogMachine.EndOp(p)), disk, cache);
      Take(LogMachine.EndOp(p));
      if doCommit {
        Commit();
        HeadFacts(s);
        committing := false;
        MirrorSame(s, Do(s, Finish), disk, cache);
        Take(Finish);
      }
    }

    /** initlog on a disk with a sane header, up to the call of recover_from_log. */
    constructor (start: nat, disk: Disk, ghost nproc: nat)
      requires GoodHead(start, disk) && Distinct(DecodeHead(disk[start]))
      ensures Valid() && s.phase == RecHead && |s.procs| == nproc && acts == []
      ensures this.disk == disk && this.start == start && s.base == Recovered(start, disk)
    {
      this.start := start;
      this.disk := disk;
      block := new int[LOGBLOCKS];
      n := 0;
      outstanding := 0;
      committing := false;
      cache := map[];
      pinned := {};
      BootInit(start, disk, nproc);
      s0 := Boot(start, disk, nproc);
      s := Boot(start, disk, nproc);
      acts := [];
    }
  }
}
