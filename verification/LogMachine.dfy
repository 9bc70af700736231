/** The logging protocol of kernel/log.c as a state machine. Each critical section
    under log.lock and each bwrite is one step; steps of any number of processes,
    of the committing process, of buffer-cache replacement and of crashes interleave
    freely. Sleeping processes, reservations, pins and the on-disk log are explicit. */
module LogMachine {
  import opened LogDisk
  import opened Params

  /** Where a process is with respect to begin_op and end_op. */
  datatype Proc =
    | Outside
    | Asleep                // sleeping on &log inside begin_op
    | InOp(used: nat)       // between begin_op and end_op, having appended `used` entries
    | Committer             // inside commit, called from end_op

  datatype Phase =
    | Idle
    | WriteLog(tail: nat)   // write_log has copied `tail` blocks
    | Installing(tail: nat) // header written, install_trans(0) has copied `tail` blocks
    | Finishing             // commit has returned, committing not yet cleared
    | RecHead               // after a crash: recover_from_log about to read the header
    | RecInstall(tail: nat) // install_trans(1) has copied `tail` blocks

  /** The file-system calls as an outside observer sees them. */
  datatype Event =
    | Begin(p: nat)
    | Write(p: nat, b: nat, data: Block)
    | End(p: nat)

  /** `head` is the list in the on-disk header block, `lh` the one in memory and `pinned`
      the blocks whose buffers carry an extra reference. `trace` is the history of calls,
      `durable` how much of it the disk holds, `base` the disk the history started from;
      `logical` and `saved` are what the whole history and its durable part amount to. */
  datatype State = State(
    start: nat,
    head: seq<int>,
    disk: Disk,
    cache: map<int, Block>,
    lh: seq<int>,
    pinned: set<int>,
    outstanding: int,
    committing: bool,
    procs: seq<Proc>,
    phase: Phase,
    base: Disk,
    trace: seq<Event>,
    durable: nat,
    logical: Disk,
    saved: Disk)

  datatype Action =
    | BeginOp(p: nat)
    | LogWrite(p: nat, b: nat, data: Block)
    | EndOp(p: nat)
    | CopyToLog
    | WriteHead
    | InstallOne
    | ClearHead
    | Finish
    | ReadHead
    | Evict(b: nat)
    | Load(b: nat)
    | Crash

  // ------------------------------------------------------------- vocabulary

  function Replay(d: Disk, t: seq<Event>): (r: Disk)
    ensures |r| == |d|
  {
    if t == [] then d
    else
      var e := Replay(d, t[..|t| - 1]);
      match t[|t| - 1]
      case Write(_, b, data) => if b < |e| then e[b := data] else e
      case Begin(_) => e
      case End(_) => e
  }

  /** The processes that have begun and not ended in a history. */
  function Open(t: seq<Event>): set<nat> {
    if t == [] then {} else OpenAfter(Open(t[..|t| - 1]), t[|t| - 1])
  }

  function OpenAfter(o: set<nat>, e: Event): set<nat> {
    match e
    case Begin(p) => o + {p}
    case End(p) => o - {p}
    case Write(_, _, _) => o
  }

  function Count(ps: seq<Proc>): nat {
    if ps == [] then 0 else Count(ps[..|ps| - 1]) + if ps[|ps| - 1].InOp? then 1 else 0
  }

  /** Log space promised to running operations and not yet used by them. */
  function Unused(ps: seq<Proc>): int {
    if ps == [] then 0
    else Unused(ps[..|ps| - 1]) + Slack(ps[|ps| - 1])
  }

  function Slack(p: Proc): int {
    if p.InOp? then MAXOPBLOCKS - p.used else 0
  }

  function Wake(ps: seq<Proc>): (r: seq<Proc>)
    ensures |r| == |ps|
    ensures forall i :: 0 <= i < |ps| ==> r[i] == if ps[i].Asleep? then Outside else ps[i]
  {
    seq(|ps|, i requires 0 <= i < |ps| => if ps[i].Asleep? then Outside else ps[i])
  }

  /** bread: the cached copy if there is one, else the disk's. */
  function Read(s: State, b: int): Block
    requires 0 <= b < |s.disk|
  {
    if b in s.cache then s.cache[b] else s.disk[b]
  }

  predicate Recovering(s: State) {
    s.phase.RecHead? || s.phase.RecInstall?
  }

  // ------------------------------------------------------------------ steps

  /** begin_op's test that the log might run out. */
  predicate NoRoom(s: State) {
    |s.lh| + (s.outstanding + 1) * MAXOPBLOCKS > LOGBLOCKS
  }

  predicate Enabled(s: State, a: Action) {
    && s.start + LOGBLOCKS < |s.disk|
    && match a
       case BeginOp(p) => !Recovering(s) && p < |s.procs| && s.procs[p].Outside?
       case LogWrite(p, b, data) =>
         && p < |s.procs| && s.procs[p].InOp? && Home(s.start, |s.disk|, b) && |data| == WORDS
         && !TooBig(s) && !OutsideTrans(s)
       case EndOp(p) => p < |s.procs| && s.procs[p].InOp? && !s.committing
       case CopyToLog => s.phase.WriteLog? && s.phase.tail < |s.lh| <= LOGBLOCKS && 0 <= s.lh[s.phase.tail] < |s.disk|
       case WriteHead => s.phase.WriteLog? && s.phase.tail == |s.lh|
       case InstallOne =>
         && (s.phase.Installing? || s.phase.RecInstall?)
         && s.phase.tail < |s.lh| <= LOGBLOCKS && 0 <= s.lh[s.phase.tail] < |s.disk|
       case ClearHead =>
         && (s.phase.Installing? || s.phase.RecInstall?)
         && s.phase.tail == |s.lh|
       case Finish => s.phase.Finishing?
       case ReadHead => s.phase.RecHead?
       case Evict(b) => b in s.cache && b !in s.pinned
       case Load(b) => 0 <= b < |s.disk| && b !in s.cache
       case Crash => s.durable <= |s.trace|
  }

  /** The two panics of log_write; the size test comes before the search for an
      entry to absorb into. */
  predicate TooBig(s: State) { |s.lh| >= LOGBLOCKS }
  predicate OutsideTrans(s: State) { s.outstanding < 1 }

  function Do(s: State, a: Action): State
    requires Enabled(s, a)
  {
    match a
    case BeginOp(p) =>
      if s.committing || NoRoom(s) then s.(procs := s.procs[p := Asleep])
      else s.(procs := s.procs[p := InOp(0)], outstanding := s.outstanding + 1, trace := s.trace + [Begin(p)])
    case LogWrite(p, b, data) =>
      var t := s.(cache := s.cache[b := data], trace := s.trace + [Write(p, b, data)],
                 logical := if b < |s.logical| then s.logical[b := data] else s.logical);
      if b in s.lh then t
      else t.(lh := s.lh + [b], pinned := s.pinned + {b}, procs := s.procs[p := InOp(s.procs[p].used + 1)])
    case EndOp(p) =>
      var t := s.(outstanding := s.outstanding - 1, trace := s.trace + [End(p)]);
      if s.outstanding == 1 then
        t.(committing := true, procs := s.procs[p := Committer],
           phase := if |s.lh| > 0 then WriteLog(0) else Finishing)
      else t.(procs := Wake(s.procs[p := Outside]))
    case CopyToLog =>
      var data := Read(s, s.lh[s.phase.tail]);
      var to := s.start + s.phase.tail + 1;
      s.(disk := s.disk[to := data], cache := s.cache[s.lh[s.phase.tail] := data][to := data],
         phase := WriteLog(s.phase.tail + 1))
    case WriteHead => s.(head := s.lh, phase := Installing(0), durable := |s.trace|, saved := s.logical)
    case InstallOne =>
      var from := s.start + s.phase.tail + 1;
      var to := s.lh[s.phase.tail];
      var data := Read(s, from);
      s.(disk := s.disk[to := data], cache := s.cache[from := data][to := data], pinned := s.pinned - {to},
         phase := if s.phase.Installing? then Installing(s.phase.tail + 1) else RecInstall(s.phase.tail + 1))
    case ClearHead => s.(lh := [], head := [], phase := if s.phase.Installing? then Finishing else Idle)
    case Finish =>
      s.(committing := false, phase := Idle,
         procs := seq(|s.procs|, i requires 0 <= i < |s.procs| =>
                    if s.procs[i].Asleep? || s.procs[i].Committer? then Outside else s.procs[i]))
    case ReadHead => s.(lh := s.head, phase := RecInstall(0))
    case Evict(b) => s.(cache := s.cache - {b})
    case Load(b) => s.(cache := s.cache[b := s.disk[b]])
    case Crash =>
      s.(cache := map[], lh := [], pinned := {}, outstanding := 0, committing := false, phase := RecHead,
         procs := seq(|s.procs|, _ => Outside), trace := s.trace[..s.durable], logical := s.saved)
  }

  /** The raw disk: the header block encodes `head`. */
  function Image(s: State): (d: Disk)
    requires Fits(s.start, s.disk) && |s.head| <= LOGBLOCKS
    ensures Fits(s.start, d) && |d| == |s.disk| && HeadOk(d[s.start]) && DecodeHead(d[s.start]) == s.head
  {
    s.disk[s.start := EncodeHead(s.disk[s.start], s.head)]
  }

  /** Boot on any disk with a sane header; the history starts from what recovery makes of it. */
  ghost predicate Init(s: State) {
    && Fits(s.start, s.disk) && |s.head| <= LOGBLOCKS && GoodHead(s.start, Image(s)) && Distinct(s.head)
    && s.cache == map[] && s.lh == [] && s.pinned == {} && s.outstanding == 0 && !s.committing && s.phase == RecHead
    && (forall i :: 0 <= i < |s.procs| ==> s.procs[i] == Outside)
    && s.base == Recovered(s.start, Image(s)) && s.trace == [] && s.durable == 0
    && s.logical == s.base && s.saved == s.base
  }

  predicate Distinct(lh: seq<int>) {
    forall i, j :: 0 <= i < j < |lh| ==> lh[i] != lh[j]
  }

  ghost predicate Legal(s: State, acts: seq<Action>)
    decreases |acts|, 0
  {
    acts == [] ||
    (Legal(s, acts[..|acts| - 1]) && Enabled(After(s, acts[..|acts| - 1]), acts[|acts| - 1]))
  }

  ghost function After(s: State, acts: seq<Action>): State
    requires Legal(s, acts)
    decreases |acts|, 1
  {
    if acts == [] then s else Do(After(s, acts[..|acts| - 1]), acts[|acts| - 1])
  }

  // -------------------------------------------------------------- invariant

  predicate Entries(start: nat, size: nat, lh: seq<int>) {
    && |lh| <= LOGBLOCKS && Distinct(lh)
    && forall i :: 0 <= i < |lh| ==> Home(start, size, lh[i])
  }

  predicate CacheSized(cache: map<int, Block>, size: nat) {
    forall b :: b in cache ==> 0 <= b < size && |cache[b]| == WORDS
  }

  ghost predicate Shape(s: State) {
    && Fits(s.start, s.disk) && |s.base| == |s.logical| == |s.saved| == |s.disk|
    && CacheSized(s.cache, |s.disk|)
    && Entries(s.start, |s.disk|, s.lh) && Entries(s.start, |s.disk|, s.head)
    && s.durable <= |s.trace|
    && (Recovering(s) ==> s.durable == |s.trace|)
    && (s.durable == |s.trace| ==> s.saved == s.logical)
  }

  ghost predicate Counters(s: State) {
    && s.outstanding == Count(s.procs)
    && (s.committing <==> s.phase.WriteLog? || s.phase.Installing? || s.phase.Finishing?)
    && (s.committing || Recovering(s) ==> s.outstanding == 0)
    && (s.phase.Idle? && s.outstanding == 0 ==> s.lh == [])
    && (s.phase.RecHead? || s.phase.Finishing? ==> s.lh == [])
    && (forall i :: 0 <= i < |s.procs| && s.procs[i].Committer? ==> s.committing)
    && (forall i :: 0 <= i < |s.procs| && s.procs[i].Asleep? ==> s.committing || s.outstanding > 0)
  }

  /** Exactly the entries from position k on are pinned. */
  ghost predicate PinnedFrom(lh: seq<int>, pinned: set<int>, k: nat) {
    && (forall b :: b in pinned ==> b in lh)
    && (forall i :: 0 <= i < |lh| ==> (lh[i] in pinned <==> k <= i))
  }

  function FirstPinned(phase: Phase, n: nat): nat {
    match phase
    case Idle => 0
    case WriteLog(_) => 0
    case Installing(t) => t
    case Finishing => n
    case RecHead => n
    case RecInstall(_) => n
  }

  /** A buffer that is not pinned agrees with the disk, and a pinned one is cached. */
  ghost predicate CacheAgrees(cache: map<int, Block>, pinned: set<int>, disk: Disk) {
    && (forall b :: b in cache && b !in pinned ==> 0 <= b < |disk| && cache[b] == disk[b])
    && (forall b :: b in pinned ==> b in cache)
  }

  /** What bread returns for home blocks is `want`. */
  ghost predicate Shows(start: nat, cache: map<int, Block>, disk: Disk, want: Disk) {
    && |disk| == |want|
    && forall b {:trigger Home(start, |disk|, b)} ::
         Home(start, |disk|, b) ==> (if b in cache then cache[b] else disk[b]) == want[b]
  }

  /** The first k log blocks hold `want` of the blocks they stand for. */
  ghost predicate Copied(start: nat, disk: Disk, lh: seq<int>, k: nat, want: Disk)
    requires start + |lh| < |disk| == |want| && Entries(start, |disk|, lh)
  {
    forall i :: 0 <= i < k && i < |lh| ==> disk[start + 1 + i] == want[lh[i]]
  }

  /** The first k listed blocks hold `want` at home. */
  ghost predicate Landed(start: nat, disk: Disk, lh: seq<int>, k: nat, want: Disk)
    requires |disk| == |want| && Entries(start, |disk|, lh)
  {
    forall i :: 0 <= i < k && i < |lh| ==> disk[lh[i]] == want[lh[i]]
  }

  /** Every block not listed holds `want` at home. */
  ghost predicate Unlisted(start: nat, disk: Disk, lh: seq<int>, want: Disk)
    requires |disk| == |want|
  {
    forall b {:trigger Home(start, |disk|, b)} :: Home(start, |disk|, b) && b !in lh ==> disk[b] == want[b]
  }

  ghost predicate Control(s: State) {
    Shape(s) && Counters(s)
  }

  /** Outside recovery, what bread returns is what the calls so far have written. */
  ghost predicate Memory(s: State)
    requires Shape(s)
  {
    && PinnedFrom(s.lh, s.pinned, FirstPinned(s.phase, |s.lh|))
    && CacheAgrees(s.cache, s.pinned, s.disk)
    && (!Recovering(s) ==> Shows(s.start, s.cache, s.disk, s.logical))
  }

  /** The disk, read as recovery will read it, holds exactly the saved history. */
  ghost predicate DiskHolds(s: State)
    requires Shape(s)
  {
    && Copied(s.start, s.disk, s.head, |s.head|, s.saved)
    && Unlisted(s.start, s.disk, s.head, s.saved)
  }

  ghost predicate PhaseHolds(s: State)
    requires Shape(s)
  {
    match s.phase
    case Idle => s.head == []
    case Finishing => s.head == []
    case WriteLog(t) => s.head == [] && t <= |s.lh| && Copied(s.start, s.disk, s.lh, t, s.logical)
    case Installing(t) =>
      s.head == s.lh && t <= |s.lh| && s.durable == |s.trace| && Landed(s.start, s.disk, s.lh, t, s.saved)
    case RecHead => true
    case RecInstall(t) => s.head == s.lh && t <= |s.lh| && Landed(s.start, s.disk, s.lh, t, s.saved)
  }

  ghost predicate OnDisk(s: State)
    requires Shape(s)
  {
    DiskHolds(s) && PhaseHolds(s)
  }

  ghost predicate Core(s: State) {
    Control(s) && Memory(s) && OnDisk(s)
  }

  /** The open operations are the running ones, none is open in the durable part of the
      history, and `logical` and `saved` are the replays of the history and of that part. */
  ghost predicate History(s: State) {
    && s.durable <= |s.trace|
    && Running(s.procs, s.trace)
    && Open(s.trace[..s.durable]) == {}
    && s.logical == Replay(s.base, s.trace)
    && s.saved == Replay(s.base, s.trace[..s.durable])
  }

  ghost predicate Running(procs: seq<Proc>, trace: seq<Event>) {
    forall p: nat :: p in Open(trace) <==> p < |procs| && procs[p].InOp?
  }

  ghost predicate Inv(s: State) {
    Core(s) && History(s)
  }

  // ---------------------------------------------------------- small lemmas

  lemma {:induction false} CountUpdate(ps: seq<Proc>, p: nat, x: Proc)
    requires p < |ps|
    ensures Count(ps[p := x]) == Count(ps) - (if ps[p].InOp? then 1 else 0) + (if x.InOp? then 1 else 0)
    ensures Unused(ps[p := x]) == Unused(ps) - Slack(ps[p]) + Slack(x)
  {
    var n := |ps| - 1;
    if p == n {
      assert ps[p := x][..n] == ps[..n];
    } else {
      assert ps[p := x][..n] == ps[..n][p := x];
      CountUpdate(ps[..n], p, x);
    }
  }

  lemma {:induction false} CountSame(ps: seq<Proc>, qs: seq<Proc>)
    requires |ps| == |qs|
    requires forall i :: 0 <= i < |ps| ==> ps[i] == qs[i] || (!ps[i].InOp? && !qs[i].InOp?)
    ensures Count(ps) == Count(qs) && Unused(ps) == Unused(qs)
  {
    if ps != [] { CountSame(ps[..|ps| - 1], qs[..|ps| - 1]); }
  }

  lemma {:induction false} CountZero(ps: seq<Proc>)
    ensures Count(ps) == 0 <==> forall i :: 0 <= i < |ps| ==> !ps[i].InOp?
  {
    if ps != [] {
      CountZero(ps[..|ps| - 1]);
      assert forall i :: 0 <= i < |ps| - 1 ==> ps[..|ps| - 1][i] == ps[i];
    }
  }

  lemma ReplayStep(d: Disk, t: seq<Event>, e: Event)
    ensures Replay(d, t + [e]) ==
            if e.Write? && e.b < |d| then Replay(d, t)[e.b := e.data] else Replay(d, t)
    ensures Open(t + [e]) == OpenAfter(Open(t), e)
  {
    assert (t + [e])[..|t|] == t;
  }

  // ----------------------------------------------- every step keeps the invariant

  lemma InitOnDisk(s: State)
    requires Init(s)
    ensures Shape(s) && OnDisk(s)
  {
    var d := Image(s);
    forall i | 0 <= i < |s.head| ensures s.disk[s.start + 1 + i] == s.base[s.head[i]] {
      RecoveredAt(s.start, d, s.head[i]);
    }
    forall b | Home(s.start, |s.disk|, b) && b !in s.head ensures s.disk[b] == s.base[b] {
      RecoveredAt(s.start, d, b);
    }
  }

  lemma InitInv(s: State)
    requires Init(s)
    ensures Inv(s)
  {
    CountZero(s.procs);
    InitOnDisk(s);
    assert s.trace[..s.durable] == [];
  }

  /** A step that changes neither disk, cache nor log list, and writes nothing. */
  lemma Quiet(s: State, t: State)
    requires Core(s) && Control(t)
    requires t.start == s.start && t.head == s.head && t.disk == s.disk && t.base == s.base
    requires t.cache == s.cache && t.lh == s.lh && t.pinned == s.pinned
    requires t.logical == s.logical && t.saved == s.saved && t.durable == s.durable
    requires s.phase.Installing? ==> t.trace == s.trace
    requires t.phase == s.phase
             || (s.phase.Idle? && t.phase == if s.lh == [] then Finishing else WriteLog(0))
             || (s.phase.Finishing? && t.phase.Idle?)
    ensures Core(t)
  {
  }

  lemma CoreBeginOp(s: State, p: nat)
    requires Core(s) && Enabled(s, BeginOp(p))
    ensures Core(Do(s, BeginOp(p)))
  {
    CountUpdate(s.procs, p, Do(s, BeginOp(p)).procs[p]);
    Quiet(s, Do(s, BeginOp(p)));
  }

  lemma CoreEndOp(s: State, p: nat)
    requires Core(s) && Enabled(s, EndOp(p))
    ensures Core(Do(s, EndOp(p)))
  {
    CountZero(s.procs);
    CountUpdate(s.procs, p, if s.outstanding == 1 then Committer else Outside);
    CountSame(s.procs[p := Outside], Wake(s.procs[p := Outside]));
    Quiet(s, Do(s, EndOp(p)));
  }

  lemma CoreFinish(s: State)
    requires Core(s) && Enabled(s, Finish)
    ensures Core(Do(s, Finish))
  {
    CountSame(s.procs, Do(s, Finish).procs);
    Quiet(s, Do(s, Finish));
  }

  lemma ControlLogWrite(s: State, p: nat, b: nat, data: Block)
    requires Core(s) && Enabled(s, LogWrite(p, b, data))
    ensures s.phase.Idle? && Control(Do(s, LogWrite(p, b, data)))
  {
    CountZero(s.procs);
    CountUpdate(s.procs, p, Do(s, LogWrite(p, b, data)).procs[p]);
  }

  lemma CoreLogWrite(s: State, p: nat, b: nat, data: Block)
    requires Core(s) && Enabled(s, LogWrite(p, b, data))
    ensures Core(Do(s, LogWrite(p, b, data)))
  {
    ControlLogWrite(s, p, b, data);
  }

  lemma MemoryCopyToLog(s: State)
    requires Core(s) && Enabled(s, CopyToLog)
    ensures Control(Do(s, CopyToLog)) && Memory(Do(s, CopyToLog))
  {
  }

  lemma OnDiskCopyToLog(s: State)
    requires Core(s) && Enabled(s, CopyToLog)
    requires Shape(Do(s, CopyToLog))
    ensures OnDisk(Do(s, CopyToLog))
  {
  }

  lemma CoreWriteHead(s: State)
    requires Core(s) && Enabled(s, WriteHead)
    ensures Core(Do(s, WriteHead))
  {
  }

  /** The next block to install reads as the saved one. */
  lemma LogBlockIsSaved(s: State)
    requires Core(s) && Enabled(s, InstallOne)
    ensures Read(s, s.start + s.phase.tail + 1) == s.saved[s.lh[s.phase.tail]]
    ensures !Recovering(s) ==> s.saved == s.logical
  {
    assert s.start + s.phase.tail + 1 !in s.pinned;
  }

  lemma ControlInstallOne(s: State)
    requires Core(s) && Enabled(s, InstallOne)
    ensures Control(Do(s, InstallOne))
  {
    LogBlockIsSaved(s);
  }

  lemma ShowsInstallOne(s: State)
    requires Core(s) && Enabled(s, InstallOne)
    ensures var t := Do(s, InstallOne); !Recovering(s) ==> Shows(t.start, t.cache, t.disk, t.logical)
  {
    LogBlockIsSaved(s);
  }

  lemma CacheInstallOne(s: State)
    requires Core(s) && Enabled(s, InstallOne)
    ensures var t := Do(s, InstallOne); CacheAgrees(t.cache, t.pinned, t.disk)
  {
    LogBlockIsSaved(s);
    hide DiskHolds, PhaseHolds, Shows, Counters;
  }

  lemma MemoryInstallOne(s: State)
    requires Core(s) && Enabled(s, InstallOne)
    requires Shape(Do(s, InstallOne))
    ensures Memory(Do(s, InstallOne))
  {
    ShowsInstallOne(s);
    CacheInstallOne(s);
    hide DiskHolds, Shows, CacheAgrees, Counters;
  }

  lemma DiskHoldsInstallOne(s: State)
    requires Core(s) && Enabled(s, InstallOne)
    requires Shape(Do(s, InstallOne))
    ensures DiskHolds(Do(s, InstallOne))
  {
    LogBlockIsSaved(s);
  }

  lemma PhaseHoldsInstallOne(s: State)
    requires Core(s) && Enabled(s, InstallOne)
    requires Shape(Do(s, InstallOne))
    ensures PhaseHolds(Do(s, InstallOne))
  {
    LogBlockIsSaved(s);
  }

  lemma CoreClearHead(s: State)
    requires Core(s) && Enabled(s, ClearHead)
    ensures Core(Do(s, ClearHead))
  {
  }

  lemma CoreReadHead(s: State)
    requires Core(s) && Enabled(s, ReadHead)
    ensures Core(Do(s, ReadHead))
  {
  }

  lemma CoreEvict(s: State, b: nat)
    requires Core(s) && Enabled(s, Evict(b))
    ensures Core(Do(s, Evict(b)))
  {
  }

  lemma CoreLoad(s: State, b: nat)
    requires Core(s) && Enabled(s, Load(b))
    ensures Core(Do(s, Load(b)))
  {
  }

  lemma CoreCrash(s: State)
    requires Core(s) && Enabled(s, Crash)
    ensures Core(Do(s, Crash))
  {
    CountZero(Do(s, Crash).procs);
  }

  lemma KeepCore(s: State, a: Action)
    requires Core(s) && Enabled(s, a)
    ensures Core(Do(s, a))
  {
    match a
    case BeginOp(p) => CoreBeginOp(s, p);
    case LogWrite(p, b, data) => CoreLogWrite(s, p, b, data);
    case EndOp(p) => CoreEndOp(s, p);
    case CopyToLog => MemoryCopyToLog(s); OnDiskCopyToLog(s);
    case WriteHead => CoreWriteHead(s);
    case InstallOne =>
      ControlInstallOne(s); MemoryInstallOne(s);
      DiskHoldsInstallOne(s); PhaseHoldsInstallOne(s);
    case ClearHead => CoreClearHead(s);
    case Finish => CoreFinish(s);
    case ReadHead => CoreReadHead(s);
    case Evict(b) => CoreEvict(s, b);
    case Load(b) => CoreLoad(s, b);
    case Crash => CoreCrash(s);
  }

  lemma HistoryBeginOp(s: State, p: nat)
    requires History(s) && Enabled(s, BeginOp(p))
    ensures History(Do(s, BeginOp(p)))
  {
    hide Replay, Open;
    ReplayStep(s.base, s.trace, Begin(p));
    assert (s.trace + [Begin(p)])[..s.durable] == s.trace[..s.durable];
  }

  lemma HistoryLogWrite(s: State, p: nat, b: nat, data: Block)
    requires History(s) && Enabled(s, LogWrite(p, b, data)) && |s.base| == |s.logical|
    ensures History(Do(s, LogWrite(p, b, data)))
  {
    hide Replay, Open;
    ReplayStep(s.base, s.trace, Write(p, b, data));
    assert (s.trace + [Write(p, b, data)])[..s.durable] == s.trace[..s.durable];
  }

  lemma HistoryEndOp(s: State, p: nat)
    requires History(s) && Enabled(s, EndOp(p))
    ensures History(Do(s, EndOp(p)))
  {
    hide Replay, Open;
    ReplayStep(s.base, s.trace, End(p));
    assert (s.trace + [End(p)])[..s.durable] == s.trace[..s.durable];
  }

  lemma HistoryWriteHead(s: State)
    requires Core(s) && History(s) && Enabled(s, WriteHead)
    ensures History(Do(s, WriteHead))
  {
    hide Replay, Open, Memory, OnDisk;
    CountZero(s.procs);
    assert s.trace[..|s.trace|] == s.trace;
  }

  lemma HistoryCrash(s: State)
    requires Core(s) && History(s) && Enabled(s, Crash)
    ensures History(Do(s, Crash))
  {
    hide Replay, Open, Memory, OnDisk;
    assert Do(s, Crash).trace[..s.durable] == s.trace[..s.durable];
  }

  lemma KeepHistory(s: State, a: Action)
    requires Core(s) && History(s) && Enabled(s, a)
    ensures History(Do(s, a))
  {
    match a
    case BeginOp(p) => HistoryBeginOp(s, p);
    case LogWrite(p, b, data) => HistoryLogWrite(s, p, b, data);
    case EndOp(p) => HistoryEndOp(s, p);
    case WriteHead => HistoryWriteHead(s);
    case Crash => HistoryCrash(s);
    case _ =>
  }

  /** Every step of every process, of the committer, of recovery, of the cache and
      every crash keeps the invariant. */
  lemma KeepInv(s: State, a: Action)
    requires Inv(s) && Enabled(s, a)
    ensures Inv(Do(s, a))
  {
    KeepCore(s, a);
    KeepHistory(s, a);
  }

  lemma {:induction false} Reachable(s: State, acts: seq<Action>)
    requires Init(s) && Legal(s, acts)
    ensures Inv(After(s, acts))
  {
    if acts == [] {
      InitInv(s);
    } else {
      Reachable(s, acts[..|acts| - 1]);
      KeepInv(After(s, acts[..|acts| - 1]), acts[|acts| - 1]);
    }
  }

  // --------------------------------------------------------------- theorems

  /** Every operation that begins in the history also ends in it. */
  ghost predicate Whole(t: seq<Event>) {
    forall i :: 0 <= i < |t| && t[i].Begin? ==> exists j :: i < j < |t| && t[j] == End(t[i].p)
  }

  lemma {:induction false} EndsAfter(t: seq<Event>, i: nat)
    requires i < |t| && t[i].Begin? && t[i].p !in Open(t)
    ensures exists j :: i < j < |t| && t[j] == End(t[i].p)
  {
    var u := t[..|t| - 1];
    if t[|t| - 1] == End(t[i].p) && i < |t| - 1 {
    } else {
      assert u[i] == t[i];
      EndsAfter(u, i);
      var j :| i < j < |u| && u[j] == End(u[i].p);
      assert t[j] == End(t[i].p);
    }
  }

  lemma ClosedIsWhole(t: seq<Event>)
    requires Open(t) == {}
    ensures Whole(t)
  {
    forall i | 0 <= i < |t| && t[i].Begin? ensures exists j :: i < j < |t| && t[j] == End(t[i].p) {
      EndsAfter(t, i);
    }
  }

  lemma RecoveredIsSaved(s: State)
    requires Core(s)
    ensures GoodHead(s.start, Image(s)) && SameHome(s.start, Recovered(s.start, Image(s)), s.saved)
  {
    hide Counters, Memory, PhaseHolds;
    forall b | Home(s.start, |s.disk|, b) ensures Recovered(s.start, Image(s))[b] == s.saved[b] {
      RecoveredAt(s.start, Image(s), b);
    }
  }

  /** Group commit. In every interleaving of operations, commits, cache replacement and
      crashes, recovering the disk as it stands yields the file system after a prefix of
      the history that contains whole operations only. */
  lemma {:induction false} GroupCommit(s0: State, acts: seq<Action>)
    requires Init(s0) && Legal(s0, acts)
    ensures var s := After(s0, acts);
            && Fits(s.start, s.disk) && |s.head| <= LOGBLOCKS && GoodHead(s.start, Image(s))
            && s.durable <= |s.trace|
            && Whole(s.trace[..s.durable])
            && SameHome(s.start, Recovered(s.start, Image(s)), Replay(s.base, s.trace[..s.durable]))
  {
    Reachable(s0, acts);
    var s := After(s0, acts);
    RecoveredIsSaved(s);
    ClosedIsWhole(s.trace[..s.durable]);
  }

  /** What a header write has made durable stays so: later steps, crashes included, keep
      it a prefix of the durable history. The header write itself covers every call made
      before it. */
  lemma {:induction false} DurableForever(s: State, acts: seq<Action>)
    requires Inv(s) && Legal(s, acts)
    ensures Inv(After(s, acts))
    ensures var t := After(s, acts);
            && s.durable <= t.durable <= |t.trace| && t.trace[..s.durable] == s.trace[..s.durable]
            && t.base == s.base
    ensures acts != [] && acts[|acts| - 1].WriteHead? ==> After(s, acts).durable == |After(s, acts).trace|
  {
    if acts != [] {
      var init := acts[..|acts| - 1];
      DurableForever(s, init);
      KeepInv(After(s, init), acts[|acts| - 1]);
      DurableStep(After(s, init), acts[|acts| - 1], s.durable);
    }
  }

  lemma DurableStep(s: State, a: Action, k: nat)
    requires Inv(s) && Enabled(s, a) && k <= s.durable
    ensures var t := Do(s, a); k <= t.durable && k <= |t.trace| && t.trace[..k] == s.trace[..k] && t.base == s.base
  {
    assert s.trace[..s.durable][..k] == s.trace[..k];
  }

  /** A crash leaves the disk as it is and loses all else: every block then reads as the disk's, no operation is open,
      and only recovery can go on. */
  lemma CrashKeepsTheDisk(s: State, b: nat)
    requires Core(s) && Enabled(s, Crash) && b < |s.disk|
    ensures var t := Do(s, Crash);
            && t.disk == s.disk && t.head == s.head && Read(t, b) == s.disk[b] && t.lh == [] && t.pinned == {}
            && Recovering(t) && forall p :: 0 <= p < |t.procs| ==> t.procs[p].Outside?
  {
  }

  /** A buffer that is replaced is read again from the disk, and nothing else changes. */
  lemma ReplacedIsReread(s: State, b: nat)
    requires Core(s) && Enabled(s, Evict(b)) && b < |s.disk|
    ensures var t := Do(s, Evict(b));
            && Read(t, b) == s.disk[b] && b !in t.cache && t.disk == s.disk && t.head == s.head && t.lh == s.lh
            && forall c: nat :: c < |s.disk| ==> Read(t, c) == Read(s, c)
  {
  }

  predicate CommitStep(a: Action) {
    a.CopyToLog? || a.WriteHead? || a.InstallOne? || a.ClearHead? || a.Evict? || a.Load?
  }

  predicate RecoveryStep(a: Action) {
    a.ReadHead? || a.InstallOne? || a.ClearHead? || a.Evict? || a.Load? || a.Crash?
  }

  lemma CommitStepSaves(s: State, a: Action)
    requires Inv(s) && Enabled(s, a) && CommitStep(a)
    ensures var t := Do(s, a);
            && Inv(t) && t.start == s.start && t.logical == s.logical
            && t.saved == (if a.WriteHead? then s.logical else s.saved)
            && (a.WriteHead? ==> s.phase.WriteLog?) && (t.phase.WriteLog? <==> s.phase.WriteLog? && !a.WriteHead?)
  {
    KeepInv(s, a);
    hide Inv;
  }

  lemma {:induction false} CommitSaves(c: State, acts: seq<Action>)
    requires Inv(c) && c.phase.WriteLog? && Legal(c, acts)
    requires forall i :: 0 <= i < |acts| ==> CommitStep(acts[i])
    ensures Inv(After(c, acts))
    ensures After(c, acts).start == c.start && After(c, acts).logical == c.logical
    ensures After(c, acts).saved == if WriteHead in acts then c.logical else c.saved
    ensures WriteHead in acts <==> !After(c, acts).phase.WriteLog?
  {
    hide Inv, Do, Enabled, CommitStep;
    if acts != [] {
      var init := acts[..|acts| - 1];
      assert acts == init + [acts[|acts| - 1]];
      CommitSaves(c, init);
      CommitStepSaves(After(c, init), acts[|acts| - 1]);
    }
  }

  lemma {:induction false} RecoverySaves(s: State, rec: seq<Action>)
    requires Inv(s) && Recovering(s) && Legal(s, rec)
    requires forall i :: 0 <= i < |rec| ==> RecoveryStep(rec[i])
    ensures var t := After(s, rec);
            Inv(t) && t.start == s.start && t.saved == s.saved && (Recovering(t) || t.phase.Idle?)
  {
    if rec != [] {
      var init := rec[..|rec| - 1];
      RecoverySaves(s, init);
      KeepInv(After(s, init), rec[|rec| - 1]);
    }
  }

  /** Crash atomicity. Stop a commit after any of its steps, crash, and let recovery run,
      interrupted by further crashes any number of times. Once a recovery completes, every
      home block is as before the transaction or every home block is as after it, and which
      of the two depends only on whether the header write was among the steps. */
  lemma {:induction false} CrashAtomicity(s0: State, before: seq<Action>, acts: seq<Action>, rec: seq<Action>)
    requires Init(s0) && Legal(s0, before) && After(s0, before).phase.WriteLog?
    requires Legal(After(s0, before), acts) && forall i :: 0 <= i < |acts| ==> CommitStep(acts[i])
    requires Enabled(After(After(s0, before), acts), Crash)
    requires Legal(Do(After(After(s0, before), acts), Crash), rec)
    requires forall i :: 0 <= i < |rec| ==> RecoveryStep(rec[i])
    ensures var c := After(s0, before);
            var t := After(Do(After(c, acts), Crash), rec);
            var outcome := if WriteHead in acts then c.logical else c.saved;
            && (t.phase.Idle? ==> SameHome(c.start, t.disk, outcome))
            && Core(t) && GoodHead(t.start, Image(t)) && SameHome(c.start, Recovered(t.start, Image(t)), outcome)
  {
    Reachable(s0, before);
    var c := After(s0, before);
    CommitSaves(c, acts);
    KeepInv(After(c, acts), Crash);
    RecoverySaves(Do(After(c, acts), Crash), rec);
    RecoveredIsSaved(After(Do(After(c, acts), Crash), rec));
  }

  // ------------------------------------------------------ reservation, sleepers

  /** Each log_write was made by an operation that had appended fewer than MAXOPBLOCKS entries. */
  ghost predicate Disciplined(s: State, acts: seq<Action>)
    requires Legal(s, acts)
    decreases |acts|
  {
    acts == [] ||
    (Disciplined(s, acts[..|acts| - 1]) && FrugalStep(After(s, acts[..|acts| - 1]), acts[|acts| - 1]))
  }

  predicate FrugalStep(s: State, a: Action)
    requires Enabled(s, a)
  {
    a.LogWrite? ==> s.procs[a.p].used < MAXOPBLOCKS
  }

  ghost predicate Reserved(s: State) {
    && (forall i :: 0 <= i < |s.procs| && s.procs[i].InOp? ==> s.procs[i].used <= MAXOPBLOCKS)
    && |s.lh| + Unused(s.procs) <= LOGBLOCKS
  }

  lemma {:induction false} UnusedBound(ps: seq<Proc>)
    requires forall i :: 0 <= i < |ps| && ps[i].InOp? ==> ps[i].used <= MAXOPBLOCKS
    ensures 0 <= Unused(ps) <= MAXOPBLOCKS * Count(ps)
    ensures forall i :: 0 <= i < |ps| ==> Slack(ps[i]) <= Unused(ps)
  {
    if ps != [] {
      UnusedBound(ps[..|ps| - 1]);
      assert forall i :: 0 <= i < |ps| - 1 ==> ps[..|ps| - 1][i] == ps[i];
    }
  }

  lemma ReservedBegin(s: State, p: nat)
    requires Core(s) && Reserved(s) && Enabled(s, BeginOp(p))
    ensures Reserved(Do(s, BeginOp(p)))
  {
    UnusedBound(s.procs);
    CountUpdate(s.procs, p, Do(s, BeginOp(p)).procs[p]);
  }

  lemma ReservedLogWrite(s: State, a: Action)
    requires Core(s) && Reserved(s) && Enabled(s, a) && FrugalStep(s, a) && a.LogWrite?
    ensures Reserved(Do(s, a))
  {
    CountUpdate(s.procs, a.p, Do(s, a).procs[a.p]);
  }

  lemma ReservedEndOp(s: State, p: nat)
    requires Core(s) && Reserved(s) && Enabled(s, EndOp(p))
    ensures Reserved(Do(s, EndOp(p)))
  {
    CountUpdate(s.procs, p, if s.outstanding == 1 then Committer else Outside);
    CountSame(s.procs[p := Outside], Wake(s.procs[p := Outside]));
  }

  lemma ReservedQuiet(s: State, a: Action)
    requires Core(s) && Reserved(s) && Enabled(s, a) && !a.BeginOp? && !a.LogWrite? && !a.EndOp?
    ensures Reserved(Do(s, a))
  {
    CountZero(s.procs);
    CountZero(Do(s, a).procs);
    UnusedBound(s.procs);
    UnusedBound(Do(s, a).procs);
    if a.Finish? { CountSame(s.procs, Do(s, a).procs); }
    if a.Crash? { assert Unused(Do(s, a).procs) == 0; }
  }

  /** Log reservation. As long as operations keep to their allowance, the log always has
      room for every block that running operations may still write. */
  lemma {:induction false} Reservation(s0: State, acts: seq<Action>)
    requires Init(s0) && Legal(s0, acts) && Disciplined(s0, acts)
    ensures Core(After(s0, acts)) && Reserved(After(s0, acts))
  {
    Reachable(s0, acts);
    if acts == [] {
      CountZero(s0.procs);
      UnusedBound(s0.procs);
    } else {
      var init, a := acts[..|acts| - 1], acts[|acts| - 1];
      Reservation(s0, init);
      var s := After(s0, init);
      match a
      case BeginOp(p) => ReservedBegin(s, p);
      case LogWrite(_, _, _) => ReservedLogWrite(s, a);
      case EndOp(p) => ReservedEndOp(s, p);
      case _ => ReservedQuiet(s, a);
    }
  }

  /** None of the panics of log_write and end_op can happen to an operation that has
      appended fewer than MAXOPBLOCKS entries. */
  lemma {:induction false} NoPanic(s0: State, acts: seq<Action>, p: nat)
    requires Init(s0) && Legal(s0, acts) && Disciplined(s0, acts)
    requires p < |After(s0, acts).procs| && After(s0, acts).procs[p].InOp?
    ensures var s := After(s0, acts);
            && !s.committing && !OutsideTrans(s)
            && (s.procs[p].used < MAXOPBLOCKS ==> !TooBig(s))
  {
    Reservation(s0, acts);
    var s := After(s0, acts);
    CountZero(s.procs);
    UnusedBound(s.procs);
    assert Slack(s.procs[p]) <= Unused(s.procs);
  }

  /** No sleeper is forgotten: while a process sleeps in begin_op some operation is
      outstanding or a commit is under way, and the end_op that is not the last and the end
      of a commit each leave nobody asleep. */
  lemma {:induction false} SleepersHaveAWaker(s0: State, acts: seq<Action>, p: nat)
    requires Init(s0) && Legal(s0, acts)
    requires p < |After(s0, acts).procs| && After(s0, acts).procs[p].Asleep?
    ensures var s := After(s0, acts);
            && (s.committing || exists q :: 0 <= q < |s.procs| && s.procs[q].InOp?)
            && (forall q :: Enabled(s, EndOp(q)) ==> Do(s, EndOp(q)).committing || Do(s, EndOp(q)).procs[p].Outside?)
            && (Enabled(s, Finish) ==> Do(s, Finish).procs[p].Outside?)
  {
    Reachable(s0, acts);
    CountZero(After(s0, acts).procs);
  }

  // --------------------------------- an absorbed write may still find the log full

  ghost predicate RoomToFill(s: State, k: nat) {
    && Core(s) && s.phase.Idle? && !s.committing && |s.procs| == 3 && |s.lh| == k <= LOGBLOCKS
    && s.start + 2 * LOGBLOCKS + 1 < |s.disk|
    && forall i :: 0 <= i < k ==> s.lh[i] == s.start + LOGBLOCKS + 1 + i
  }

  lemma OneStep(s0: State, acts: seq<Action>, a: Action)
    requires Legal(s0, acts) && Disciplined(s0, acts) && Core(After(s0, acts))
    requires Enabled(After(s0, acts), a) && FrugalStep(After(s0, acts), a)
    ensures Legal(s0, acts + [a]) && Disciplined(s0, acts + [a])
    ensures After(s0, acts + [a]) == Do(After(s0, acts), a) && Core(After(s0, acts + [a]))
  {
    assert (acts + [a])[..|acts|] == acts;
    KeepCore(After(s0, acts), a);
  }

  function FreshWrite(s: State, p: nat): Action {
    LogWrite(p, s.start + LOGBLOCKS + 1 + |s.lh|, seq(WORDS, _ => 0))
  }

  lemma FreshWriteFills(s: State, p: nat)
    requires RoomToFill(s, |s.lh|) && |s.lh| < LOGBLOCKS && s.outstanding >= 1 && p < 3 && s.procs[p].InOp?
    ensures Enabled(s, FreshWrite(s, p)) && RoomToFill(Do(s, FreshWrite(s, p)), |s.lh| + 1)
  {
    KeepCore(s, FreshWrite(s, p));
  }

  lemma AppendOne(s0: State, acts: seq<Action>, p: nat) returns (more: seq<Action>)
    requires Legal(s0, acts) && Disciplined(s0, acts) && p < 3
    requires var s := After(s0, acts);
             && RoomToFill(s, |s.lh|) && |s.lh| < LOGBLOCKS && s.outstanding >= 1
             && s.procs[p].InOp? && s.procs[p].used < MAXOPBLOCKS
    ensures Legal(s0, more) && Disciplined(s0, more)
    ensures var s, t := After(s0, acts), After(s0, more);
            && RoomToFill(t, |s.lh| + 1) && t.outstanding == s.outstanding
            && t.procs == s.procs[p := InOp(s.procs[p].used + 1)]
  {
    var s := After(s0, acts);
    FreshWriteFills(s, p);
    OneStep(s0, acts, FreshWrite(s, p));
    more := acts + [FreshWrite(s, p)];
  }

  /** Process p appends entries until it has used its whole allowance. */
  lemma {:induction false} UseAllowance(s0: State, acts: seq<Action>, p: nat) returns (more: seq<Action>)
    requires Legal(s0, acts) && Disciplined(s0, acts) && p < 3
    requires var s := After(s0, acts);
             && RoomToFill(s, |s.lh|) && s.outstanding >= 1
             && s.procs[p].InOp? && s.procs[p].used <= MAXOPBLOCKS
             && |s.lh| + MAXOPBLOCKS - s.procs[p].used <= LOGBLOCKS
    ensures Legal(s0, more) && Disciplined(s0, more)
    ensures var s, t := After(s0, acts), After(s0, more);
            && RoomToFill(t, |s.lh| + MAXOPBLOCKS - s.procs[p].used) && t.outstanding == s.outstanding
            && t.procs == s.procs[p := InOp(MAXOPBLOCKS)]
    decreases MAXOPBLOCKS - After(s0, acts).procs[p].used
  {
    if After(s0, acts).procs[p].used == MAXOPBLOCKS {
      more := acts;
    } else {
      more := AppendOne(s0, acts, p);
      more := UseAllowance(s0, more, p);
    }
  }

  lemma StartOp(s0: State, acts: seq<Action>, p: nat) returns (more: seq<Action>)
    requires Legal(s0, acts) && Disciplined(s0, acts) && p < 3
    requires var s := After(s0, acts);
             RoomToFill(s, 0) && s.procs[p] == Outside && s.outstanding == p
    ensures Legal(s0, more) && Disciplined(s0, more)
    ensures var s, t := After(s0, acts), After(s0, more);
            RoomToFill(t, 0) && t.procs == s.procs[p := InOp(0)] && t.outstanding == p + 1
  {
    OneStep(s0, acts, BeginOp(p));
    more := acts + [BeginOp(p)];
  }

  /** On the way through recovery nothing happens to the processes. */
  ghost predicate Booting(s0: State, s: State) {
    Core(s) && s.phase.RecInstall? && s.phase.tail <= |s.lh| && s.procs == s0.procs && s.start == s0.start
      && |s.disk| == |s0.disk|
  }

  lemma InstallStep(s0: State, s: State)
    requires Booting(s0, s) && s.phase.tail < |s.lh|
    ensures Enabled(s, InstallOne) && Booting(s0, Do(s, InstallOne)) && Do(s, InstallOne).lh == s.lh
    ensures Do(s, InstallOne).phase == RecInstall(s.phase.tail + 1)
  {
    KeepCore(s, InstallOne);
  }

  lemma {:induction false} InstallRest(s0: State, acts: seq<Action>) returns (more: seq<Action>)
    requires Legal(s0, acts) && Disciplined(s0, acts) && Booting(s0, After(s0, acts))
    ensures Legal(s0, more) && Disciplined(s0, more) && Booting(s0, After(s0, more))
    ensures After(s0, more).phase.tail == |After(s0, more).lh|
    decreases |After(s0, acts).lh| - After(s0, acts).phase.tail
  {
    var s := After(s0, acts);
    if s.phase.tail == |s.lh| {
      more := acts;
    } else {
      InstallStep(s0, s);
      OneStep(s0, acts, InstallOne);
      more := InstallRest(s0, acts + [InstallOne]);
    }
  }

  /** Recovery, run to its end. */
  lemma {:induction false} Recovery(s0: State) returns (acts: seq<Action>)
    requires Init(s0) && |s0.procs| == 3 && s0.start + 2 * LOGBLOCKS + 1 < |s0.disk|
    ensures Legal(s0, acts) && Disciplined(s0, acts)
    ensures RoomToFill(After(s0, acts), 0) && After(s0, acts).procs == s0.procs
  {
    InitInv(s0);
    assert Legal(s0, []) && After(s0, []) == s0;
    OneStep(s0, [], ReadHead);
    acts := InstallRest(s0, [] + [ReadHead]);
    OneStep(s0, acts, ClearHead);
    acts := acts + [ClearHead];
  }

  lemma {:induction false} StartThree(s0: State, acts0: seq<Action>) returns (acts: seq<Action>)
    requires Legal(s0, acts0) && Disciplined(s0, acts0)
    requires RoomToFill(After(s0, acts0), 0) && After(s0, acts0).procs == [Outside, Outside, Outside]
    ensures Legal(s0, acts) && Disciplined(s0, acts)
    ensures RoomToFill(After(s0, acts), 0) && After(s0, acts).outstanding == 3
    ensures After(s0, acts).procs == [InOp(0), InOp(0), InOp(0)]
  {
    CountZero(After(s0, acts0).procs);
    acts := StartOp(s0, acts0, 0);
    acts := StartOp(s0, acts, 1);
    acts := StartOp(s0, acts, 2);
  }

  /** After any boot, three operations that each append exactly MAXOPBLOCKS entries fill the log. A
      further log_write of a block that is already logged then panics, although it would need no
      new entry: the size test precedes the search for an entry to absorb into. */
  lemma {:induction false} AbsorbedWriteCanPanic(s0: State) returns (acts: seq<Action>)
    requires Init(s0) && s0.procs == [Outside, Outside, Outside] && s0.start + 2 * LOGBLOCKS + 1 < |s0.disk|
    ensures Legal(s0, acts) && Disciplined(s0, acts)
    ensures var s := After(s0, acts);
            && s.procs == [InOp(MAXOPBLOCKS), InOp(MAXOPBLOCKS), InOp(MAXOPBLOCKS)]
            && TooBig(s) && s.lh != [] && s.lh[0] == s.start + LOGBLOCKS + 1
  {
    acts := Recovery(s0);
    hide Legal, After, Disciplined, Slack, Init, Core;
    acts := StartThree(s0, acts);
    acts := UseAllowance(s0, acts, 0);
    acts := UseAllowance(s0, acts, 1);
    acts := UseAllowance(s0, acts, 2);
  }
}
