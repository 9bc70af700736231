/** The process protocol of kernel/proc.c as a state machine: the per-CPU schedulers, the hand-over of
    p->lock across swtch, sleep and wakeup, fork, exit, reparenting and wait, for any number of CPUs and
    processes. Each acquisition or release of p->lock or wait_lock, each change of p->state, p->parent or
    c->proc that another CPU could observe and each swtch is a step of its own; a critical section on the
    p->lock of another process that does not span a swtch is one step. */
module ProcMachine {
  const INIT := 0   // the slot of initproc

  datatype Status = UNUSED | USED | SLEEPING | RUNNABLE | RUNNING | ZOMBIE

  /** The scheduler of a CPU. */
  datatype Sched =
    | Idle(i: nat)     // about to acquire the lock of process i
    | Got(i: nat)      // holds it
    | Picked(i: nat)   // has made process i RUNNING, about to swtch to it
    | In(i: nat)       // the context of process i is loaded
    | Ret(i: nat)      // process i has swtched back
    | Rel(i: nat)      // about to release the lock of process i

  /** What a kernel thread goes on to do when it holds no lock. */
  datatype Plan =
    | Run                 // anything else
    | WaitAcq             // kwait, about to acquire wait_lock
    | ExitAcq             // kexit, about to acquire wait_lock
    | Forking(q: nat)     // kfork, child q allocated
    | ForkNamed(q: nat)   // kfork, child q's parent set
    | Dead                // has exited

  datatype Pc =
    | Off                       // no thread
    | Open(plan: Plan)          // running, no lock held
    | Locked(plan: Plan)        // has acquired its own lock, state still RUNNING
    | Leave(plan: Plan)         // in sched, about to swtch away
    | Away(plan: Plan)          // context saved
    | Back(plan: Plan)          // swtched to, still holding its own lock
    | Scan(i: nat, kid: int)    // kwait's loop at i; kid is a child seen, -1 if none
    | WaitLocked                // sleep(p, &wait_lock) has acquired p->lock
    | WaitDrop                  // and released wait_lock
    | Reparent(i: nat)          // reparent's loop at i
    | WakeInit(i: nat, j: nat)  // its wakeup(initproc), at j
    | WakeParent(j: nat)        // kexit's wakeup(p->parent), at j
    | ExitLocked                // kexit has acquired p->lock
    | ZombieLocked              // and set ZOMBIE

  /** `lk` and `wl` name the CPU that holds each p->lock and wait_lock, -1 if free. The last six fields are
      bookkeeping: the CPU on which a thread is loaded, the order of allocation, who is forking a slot, a child
      that a sleeper in kwait has seen, the next birth number and the births of the freed processes. */
  datatype State = State(
    cpc: seq<Sched>,
    cproc: seq<int>,
    tpc: seq<Pc>,
    st: seq<Status>,
    chan: seq<int>,
    parent: seq<int>,
    lk: seq<int>,
    wl: int,
    on: seq<int>,
    birth: seq<nat>,
    maker: seq<int>,
    kid: seq<int>,
    next: nat,
    freed: set<nat>)

  /** The loop of scheduler. */
  datatype SchedStep = Acquire | Test | SwitchTo | Clear | Release

  /** yield, sleep, sched and the release that follows it; Kick is a wakeup or kkill by this CPU, Sleep one with
      a lock other than wait_lock. */
  datatype ThreadStep = Kick(j: nat) | LockSelf | Yield | Sleep(ch: int) | SwitchAway | Resume

  datatype ForkStep = Alloc(q: nat) | Name | MakeRunnable

  /** kwait; CopyFails is its early return, NoKids its return without a child or after a kill. */
  datatype WaitStep =
    | WaitStart | WaitAcquire | ScanOne | CopyFails | NoKids(killed: bool) | WaitLock | WaitRelease | WaitSleep

  datatype ExitStep =
    | ExitStart | ExitAcquire | ReparentOne | WakeInitOne | WakeParentOne | ExitLock | MakeZombie | ExitRelease

  datatype Action =
    | OfSched(c: nat, k: SchedStep) | OfThread(c: nat, t: ThreadStep) | OfFork(c: nat, f: ForkStep)
    | OfWait(c: nat, w: WaitStep) | OfExit(c: nat, e: ExitStep)

  // ------------------------------------------------------------- vocabulary

  predicate OwnLock(pc: Pc) {
    pc.Locked? || pc.Leave? || pc.Back? || pc.WaitLocked? || pc.WaitDrop? || pc.ExitLocked? || pc.ZombieLocked?
  }

  predicate HoldsWait(pc: Pc) {
    pc.Scan? || pc.WaitLocked? || pc.Reparent? || pc.WakeInit? || pc.WakeParent? || pc.ExitLocked? || pc.ZombieLocked?
  }

  predicate Loaded(pc: Pc) { !pc.Off? && !pc.Away? }

  predicate Live(x: Status) { x != UNUSED && x != USED }

  predicate HasPlan(pc: Pc, o: Plan) {
    (pc.Open? || pc.Locked? || pc.Leave? || pc.Away? || pc.Back?) && pc.plan == o
  }

  /** In kwait, past the point of no return on the way to sleep, or asleep. */
  predicate InWait(pc: Pc, x: Status) {
    pc.WaitDrop? || ((pc == Leave(WaitAcq) || pc == Away(WaitAcq)) && x == SLEEPING)
  }

  /** Past the point where reparent has looked at process r. */
  predicate Disowned(pc: Pc, r: int) {
    || (pc.Reparent? && r < pc.i) || (pc.WakeInit? && r <= pc.i)
    || pc.WakeParent? || pc.ExitLocked? || pc.ZombieLocked? || pc.Off? || HasPlan(pc, Dead)
  }

  predicate Exiting(pc: Pc) {
    pc.Reparent? || pc.WakeInit? || pc.WakeParent? || pc.ExitLocked? || pc.ZombieLocked? || HasPlan(pc, ExitAcq)
      || HasPlan(pc, Dead)
  }

  // ------------------------------------------------------------------ steps

  predicate Shape(s: State) {
    && |s.cproc| == |s.cpc|
    && 0 < |s.tpc| == |s.st| == |s.chan| == |s.parent| == |s.lk| == |s.on| == |s.birth| == |s.maker| == |s.kid|
  }

  /** A thread is loaded on CPU c; cproc is what the code calls myproc(). */
  predicate Running(s: State, c: nat) {
    Shape(s) && c < |s.cpc| && s.cpc[c].In? && s.cpc[c].i < |s.tpc| && 0 <= s.cproc[c] < |s.tpc|
  }

  function At(s: State, c: nat): Pc
    requires Running(s, c)
  {
    s.tpc[s.cpc[c].i]
  }

  predicate Free(s: State, j: int)
    requires Shape(s)
  {
    0 <= j < |s.tpc| && s.lk[j] == -1
  }

  /** A thread moves on. */
  function Goto(s: State, c: nat, pc: Pc): State
    requires Running(s, c)
  {
    s.(tpc := s.tpc[s.cpc[c].i := pc])
  }

  predicate CanSched(s: State, c: nat, k: SchedStep) {
    Shape(s) && c < |s.cpc| && s.cpc[c].i < |s.tpc| &&
    match k
    case Acquire => s.cpc[c].Idle? && Free(s, s.cpc[c].i)
    case Test => s.cpc[c].Got?
    case SwitchTo => s.cpc[c].Picked? && s.tpc[s.cpc[c].i].Away?
    case Clear => s.cpc[c].Ret?
    case Release => s.cpc[c].Rel?
  }

  function DoSched(s: State, c: nat, k: SchedStep): State
    requires CanSched(s, c, k)
  {
    var i := s.cpc[c].i;
    match k
    case Acquire => s.(lk := s.lk[i := c], cpc := s.cpc[c := Got(i)])
    case Test =>
      if s.st[i] == RUNNABLE then s.(st := s.st[i := RUNNING], cproc := s.cproc[c := i], cpc := s.cpc[c := Picked(i)])
      else s.(cpc := s.cpc[c := Rel(i)])
    case SwitchTo => s.(cpc := s.cpc[c := In(i)], on := s.on[i := c], tpc := s.tpc[i := Back(s.tpc[i].plan)])
    case Clear => s.(cproc := s.cproc[c := -1], cpc := s.cpc[c := Rel(i)])
    case Release => s.(lk := s.lk[i := -1], cpc := s.cpc[c := Idle(if i + 1 < |s.tpc| then i + 1 else 0)])
  }

  predicate CanThread(s: State, c: nat, t: ThreadStep) {
    match t
    case Kick(j) => Shape(s) && c < |s.cpc| && (s.cpc[c].Idle? || (Running(s, c) && At(s, c).Open?)) && Free(s, j)
    case LockSelf => Running(s, c) && At(s, c).Open? && Free(s, s.cproc[c])
    case Yield => Running(s, c) && At(s, c).Locked?
    case Sleep(ch) => Running(s, c) && At(s, c) == Locked(Run)
    case SwitchAway => Running(s, c) && At(s, c).Leave?
    case Resume => Running(s, c) && At(s, c).Back?
  }

  function DoThread(s: State, c: nat, t: ThreadStep): State
    requires CanThread(s, c, t)
  {
    match t
    case Kick(j) => if s.st[j] == SLEEPING then s.(st := s.st[j := RUNNABLE]) else s
    case LockSelf => Goto(s, c, Locked(At(s, c).plan)).(lk := s.lk[s.cproc[c] := c])
    case Yield => Goto(s, c, Leave(At(s, c).plan)).(st := s.st[s.cproc[c] := RUNNABLE])
    case Sleep(ch) => Goto(s, c, Leave(Run)).(st := s.st[s.cproc[c] := SLEEPING], chan := s.chan[s.cproc[c] := ch])
    case SwitchAway =>
      var i := s.cpc[c].i;
      Goto(s, c, Away(At(s, c).plan)).(cpc := s.cpc[c := Ret(i)], on := s.on[i := -1])
    case Resume => Goto(s, c, Open(At(s, c).plan)).(lk := s.lk[s.cproc[c] := -1])
  }

  predicate CanFork(s: State, c: nat, f: ForkStep) {
    Running(s, c) && At(s, c).Open? &&
    match f
    case Alloc(q) => At(s, c).plan == Run && Free(s, q) && s.st[q] == UNUSED
    case Name => At(s, c).plan.Forking? && At(s, c).plan.q < |s.tpc| && s.wl == -1
    case MakeRunnable => At(s, c).plan.ForkNamed? && Free(s, At(s, c).plan.q)
  }

  function DoFork(s: State, c: nat, f: ForkStep): State
    requires CanFork(s, c, f)
  {
    match f
    case Alloc(q) =>
      Goto(s, c, Open(Forking(q))).(st := s.st[q := USED], birth := s.birth[q := s.next], next := s.next + 1,
                                    maker := s.maker[q := s.cproc[c]])
    case Name =>
      var q := At(s, c).plan.q;
      Goto(s, c, Open(ForkNamed(q))).(parent := s.parent[q := s.cproc[c]])
    case MakeRunnable =>
      var q := At(s, c).plan.q;
      s.(tpc := s.tpc[s.cpc[c].i := Open(Run)][q := Away(Run)], st := s.st[q := RUNNABLE], maker := s.maker[q := -1])
  }

  predicate CanWait(s: State, c: nat, w: WaitStep) {
    Running(s, c) &&
    match w
    case WaitStart => At(s, c) == Open(Run)
    case WaitAcquire => At(s, c) == Open(WaitAcq) && s.wl == -1
    case ScanOne => At(s, c).Scan? && At(s, c).i < |s.tpc|
      && (s.parent[At(s, c).i] == s.cproc[c] ==> Free(s, At(s, c).i))
    case CopyFails =>
      && At(s, c).Scan? && At(s, c).i < |s.tpc|
      && s.parent[At(s, c).i] == s.cproc[c] && Free(s, At(s, c).i) && s.st[At(s, c).i] == ZOMBIE
    case NoKids(killed) => At(s, c).Scan? && At(s, c).i == |s.tpc| && (At(s, c).kid == -1 || killed)
      && Free(s, s.cproc[c])
    case WaitLock => At(s, c).Scan? && At(s, c).i == |s.tpc| && At(s, c).kid != -1 && Free(s, s.cproc[c])
    case WaitRelease => At(s, c).WaitLocked?
    case WaitSleep => At(s, c).WaitDrop?
  }

  function DoWait(s: State, c: nat, w: WaitStep): State
    requires CanWait(s, c, w)
  {
    match w
    case WaitStart => Goto(s, c, Open(WaitAcq))
    case WaitAcquire => Goto(s, c, Scan(0, -1)).(wl := c)
    case ScanOne =>
      var i := At(s, c).i;
      if s.parent[i] != s.cproc[c] then Goto(s, c, Scan(i + 1, At(s, c).kid))
      else if s.st[i] != ZOMBIE then Goto(s, c, Scan(i + 1, i))
      else Reaped(s, c, i)
    case CopyFails => Goto(s, c, Open(Run)).(wl := -1)
    case NoKids(killed) => Goto(s, c, Open(Run)).(wl := -1)
    case WaitLock => Goto(s, c, WaitLocked).(lk := s.lk[s.cproc[c] := c], kid := s.kid[s.cproc[c] := At(s, c).kid])
    case WaitRelease => Goto(s, c, WaitDrop).(wl := -1)
    case WaitSleep => Goto(s, c, Leave(WaitAcq)).(st := s.st[s.cproc[c] := SLEEPING],
        chan := s.chan[s.cproc[c] := s.cproc[c]])
  }

  /** freeproc of child i, and the return of kwait. */
  function Reaped(s: State, c: nat, i: nat): State
    requires Running(s, c) && i < |s.tpc|
  {
    s.(tpc := s.tpc[s.cpc[c].i := Open(Run)][i := Off], wl := -1, st := s.st[i := UNUSED], parent := s.parent[i := -1],
       chan := s.chan[i := 0], freed := s.freed + {s.birth[i]})
  }

  predicate CanExit(s: State, c: nat, e: ExitStep) {
    Running(s, c) &&
    match e
    case ExitStart => At(s, c) == Open(Run) && s.cproc[c] != INIT
    case ExitAcquire => At(s, c) == Open(ExitAcq) && s.wl == -1
    case ReparentOne => At(s, c).Reparent? && At(s, c).i <= |s.tpc|
    case WakeInitOne =>
      && At(s, c).WakeInit? && At(s, c).j <= |s.tpc|
      && (At(s, c).j < |s.tpc| && At(s, c).j != s.cproc[c] ==> Free(s, At(s, c).j))
    case WakeParentOne => At(s, c).WakeParent? && At(s, c).j < |s.tpc|
      && (At(s, c).j != s.cproc[c] ==> Free(s, At(s, c).j))
    case ExitLock => At(s, c).WakeParent? && At(s, c).j == |s.tpc| && Free(s, s.cproc[c])
    case MakeZombie => At(s, c).ExitLocked?
    case ExitRelease => At(s, c).ZombieLocked?
  }

  /** One trip of wakeup's loop. */
  function Woken(st: seq<Status>, chan: seq<int>, j: nat, ch: int): seq<Status>
    requires j < |st| == |chan|
  {
    if st[j] == SLEEPING && chan[j] == ch then st[j := RUNNABLE] else st
  }

  function DoExit(s: State, c: nat, e: ExitStep): State
    requires CanExit(s, c, e)
  {
    match e
    case ExitStart => Goto(s, c, Open(ExitAcq))
    case ExitAcquire => Goto(s, c, Reparent(0)).(wl := c)
    case ReparentOne =>
      var i := At(s, c).i;
      if i == |s.tpc| then Goto(s, c, WakeParent(0))
      else if s.parent[i] != s.cproc[c] then Goto(s, c, Reparent(i + 1))
      else Goto(s, c, WakeInit(i, 0)).(parent := s.parent[i := INIT])
    case WakeInitOne =>
      var i, j := At(s, c).i, At(s, c).j;
      if j == |s.tpc| then Goto(s, c, Reparent(i + 1))
      else if j == s.cproc[c] then Goto(s, c, WakeInit(i, j + 1))
      else Goto(s, c, WakeInit(i, j + 1)).(st := Woken(s.st, s.chan, j, INIT))
    case WakeParentOne =>
      var j := At(s, c).j;
      if j == s.cproc[c] then Goto(s, c, WakeParent(j + 1))
      else Goto(s, c, WakeParent(j + 1)).(st := Woken(s.st, s.chan, j, s.parent[s.cproc[c]]))
    case ExitLock => Goto(s, c, ExitLocked).(lk := s.lk[s.cproc[c] := c])
    case MakeZombie => Goto(s, c, ZombieLocked).(st := s.st[s.cproc[c] := ZOMBIE])
    case ExitRelease => Goto(s, c, Leave(Dead)).(wl := -1)
  }

  predicate Enabled(s: State, a: Action) {
    match a
    case OfSched(c, k) => CanSched(s, c, k)
    case OfThread(c, t) => CanThread(s, c, t)
    case OfFork(c, f) => CanFork(s, c, f)
    case OfWait(c, w) => CanWait(s, c, w)
    case OfExit(c, e) => CanExit(s, c, e)
  }

  function Do(s: State, a: Action): State
    requires Enabled(s, a)
  {
    match a
    case OfSched(c, k) => DoSched(s, c, k)
    case OfThread(c, t) => DoThread(s, c, t)
    case OfFork(c, f) => DoFork(s, c, f)
    case OfWait(c, w) => DoWait(s, c, w)
    case OfExit(c, e) => DoExit(s, c, e)
  }

  // -------------------------------------------------- the scheduler's invariant

  predicate StatusOk(pc: Pc, x: Status) {
    match pc
    case Off => x == UNUSED || x == USED
    case Leave(o) => (x == SLEEPING || x == RUNNABLE || x == ZOMBIE) && (x == ZOMBIE <==> o == Dead)
    case Away(o) => Live(x) && (x == ZOMBIE <==> o == Dead)
    case ZombieLocked => x == ZOMBIE
    case _ => x == RUNNING && !HasPlan(pc, Dead)
  }

  ghost predicate CpuOk(c: int, k: Sched, cp: int, tpc: seq<Pc>, st: seq<Status>, lk: seq<int>, on: seq<int>)
    requires |tpc| == |st| == |lk| == |on|
  {
    k.i < |tpc| &&
    match k
    case Idle(i) => cp == -1
    case Got(i) => cp == -1 && lk[i] == c
    case Picked(i) => cp == i && lk[i] == c && st[i] == RUNNING && tpc[i].Away? && on[i] == -1
    case In(i) => cp == i && on[i] == c
    case Ret(i) => cp == i && lk[i] == c && st[i] != RUNNING && tpc[i].Away? && on[i] == -1
    case Rel(i) => cp == -1 && lk[i] == c
  }

  ghost predicate ProcOk(p: nat, pc: Pc, x: Status, l: int, o: int, cpc: seq<Sched>) {
    && StatusOk(pc, x)
    && (o == -1 || (0 <= o < |cpc| && cpc[o] == In(p)))
    && (Loaded(pc) <==> o != -1)
    && (OwnLock(pc) ==> l == o)
    && (l == -1 || (0 <= l < |cpc| && cpc[l].i == p && !cpc[l].Idle? && (cpc[l].In? ==> OwnLock(pc))))
    && (pc.Away? && x == RUNNING ==> l != -1 && cpc[l].Picked?)
  }

  ghost predicate Core(cpc: seq<Sched>, cproc: seq<int>, tpc: seq<Pc>, st: seq<Status>, lk: seq<int>, on: seq<int>) {
    && |cproc| == |cpc| && 0 < |tpc| == |st| == |lk| == |on|
    && (forall c {:trigger cpc[c]} :: 0 <= c < |cpc| ==> CpuOk(c, cpc[c], cproc[c], tpc, st, lk, on))
    && (forall p {:trigger tpc[p]} :: 0 <= p < |tpc| ==> ProcOk(p, tpc[p], st[p], lk[p], on[p], cpc))
  }

  /** The thread loaded on CPU c moves on, and may take or give up its own lock or change its state. */
  lemma Moves(cpc: seq<Sched>, cproc: seq<int>, tpc: seq<Pc>, st: seq<Status>, lk: seq<int>, on: seq<int>, c: nat,
      pc: Pc, x: Status, l: int)
    requires Core(cpc, cproc, tpc, st, lk, on) && c < |cpc| && cpc[c].In?
    requires Loaded(pc) && StatusOk(pc, x) && (l == c <==> OwnLock(pc))
    requires var p := cpc[c].i; l == lk[p] || (lk[p] == -1 && l == c) || (lk[p] == c && l == -1)
    ensures var p := cpc[c].i;
            p < |tpc| && cproc[c] == p && Core(cpc, cproc, tpc[p := pc], st[p := x], lk[p := l], on)
  {
    hide StatusOk;
    var p := cpc[c].i;
    var was := tpc[p];
  }

  lemma Wakes(cpc: seq<Sched>, cproc: seq<int>, tpc: seq<Pc>, st: seq<Status>, lk: seq<int>, on: seq<int>, j: nat)
    requires Core(cpc, cproc, tpc, st, lk, on) && j < |tpc| && lk[j] == -1 && st[j] == SLEEPING
    ensures Core(cpc, cproc, tpc, st[j := RUNNABLE], lk, on)
  {
    var was := tpc[j];
  }

  /** A slot that no CPU has locked or loaded changes hands: it is allocated, given a thread, or freed. */
  lemma Changes(cpc: seq<Sched>, cproc: seq<int>, tpc: seq<Pc>, st: seq<Status>, lk: seq<int>, on: seq<int>, q: nat,
      pc: Pc, x: Status)
    requires Core(cpc, cproc, tpc, st, lk, on) && q < |tpc| && lk[q] == -1 && !Loaded(tpc[q])
    requires !Loaded(pc) && StatusOk(pc, x) && x != RUNNING
    ensures Core(cpc, cproc, tpc[q := pc], st[q := x], lk, on)
  {
    hide StatusOk;
    var was := tpc[q];
  }

  lemma Same<T>(s: seq<T>, i: nat)
    requires i < |s|
    ensures s[i := s[i]] == s
  {
  }

  lemma CoreSchedAcquire(s: State, c: nat)
    requires Core(s.cpc, s.cproc, s.tpc, s.st, s.lk, s.on) && CanSched(s, c, Acquire)
    ensures var t := DoSched(s, c, Acquire); Core(t.cpc, t.cproc, t.tpc, t.st, t.lk, t.on)
  {
    var was := s.tpc[s.cpc[c].i];
  }

  lemma CoreSchedTest(s: State, c: nat)
    requires Core(s.cpc, s.cproc, s.tpc, s.st, s.lk, s.on) && CanSched(s, c, Test)
    ensures var t := DoSched(s, c, Test); Core(t.cpc, t.cproc, t.tpc, t.st, t.lk, t.on)
  {
    var was := s.tpc[s.cpc[c].i];
  }

  lemma CoreSchedSwitchTo(s: State, c: nat)
    requires Core(s.cpc, s.cproc, s.tpc, s.st, s.lk, s.on) && CanSched(s, c, SwitchTo)
    ensures var t := DoSched(s, c, SwitchTo); Core(t.cpc, t.cproc, t.tpc, t.st, t.lk, t.on)
  {
    var was := s.tpc[s.cpc[c].i];
  }

  lemma CoreSchedClear(s: State, c: nat)
    requires Core(s.cpc, s.cproc, s.tpc, s.st, s.lk, s.on) && CanSched(s, c, Clear)
    ensures var t := DoSched(s, c, Clear); Core(t.cpc, t.cproc, t.tpc, t.st, t.lk, t.on)
  {
    var was := s.tpc[s.cpc[c].i];
  }

  lemma CoreSchedRelease(s: State, c: nat)
    requires Core(s.cpc, s.cproc, s.tpc, s.st, s.lk, s.on) && CanSched(s, c, Release)
    ensures var t := DoSched(s, c, Release); Core(t.cpc, t.cproc, t.tpc, t.st, t.lk, t.on)
  {
    var was := s.tpc[s.cpc[c].i];
  }


  lemma CoreThread(s: State, c: nat, k: ThreadStep)
    requires Core(s.cpc, s.cproc, s.tpc, s.st, s.lk, s.on) && CanThread(s, c, k)
    ensures var t := DoThread(s, c, k); Core(t.cpc, t.cproc, t.tpc, t.st, t.lk, t.on)
  {
    hide Core;
    match k
    case Kick(j) => if s.st[j] == SLEEPING { Wakes(s.cpc, s.cproc, s.tpc, s.st, s.lk, s.on, j); }
    case SwitchAway => CoreSwitchAway(s, c);
    case _ =>
      ThreadFacts(s, c);
      var t := DoThread(s, c, k);
      var p := s.cpc[c].i;
      Same(s.st, p);
      Same(s.lk, p);
      Moves(s.cpc, s.cproc, s.tpc, s.st, s.lk, s.on, c, t.tpc[p], t.st[p], t.lk[p]);
  }

  lemma CoreSwitchAway(s: State, c: nat)
    requires Core(s.cpc, s.cproc, s.tpc, s.st, s.lk, s.on) && CanThread(s, c, SwitchAway)
    ensures var t := DoThread(s, c, SwitchAway); Core(t.cpc, t.cproc, t.tpc, t.st, t.lk, t.on)
  {
    var was := s.tpc[s.cpc[c].i];
  }

  /** What the code relies on when it calls myproc() and when it holds its own lock. */
  lemma ThreadFacts(s: State, c: nat)
    requires Core(s.cpc, s.cproc, s.tpc, s.st, s.lk, s.on) && Running(s, c)
    ensures s.cproc[c] == s.cpc[c].i && s.on[s.cpc[c].i] == c && Loaded(At(s, c))
            && StatusOk(At(s, c), s.st[s.cpc[c].i])
    ensures s.lk[s.cpc[c].i] == c <==> OwnLock(At(s, c))
  {
    var was := s.tpc[s.cpc[c].i];
  }

  lemma CoreFork(s: State, c: nat, k: ForkStep)
    requires Core(s.cpc, s.cproc, s.tpc, s.st, s.lk, s.on) && CanFork(s, c, k)
    requires k.MakeRunnable? ==> s.st[At(s, c).plan.q] == USED
    ensures var t := DoFork(s, c, k); Core(t.cpc, t.cproc, t.tpc, t.st, t.lk, t.on)
  {
    hide Core;
    ThreadFacts(s, c);
    var p, t := s.cpc[c].i, DoFork(s, c, k);
    Same(s.st, p);
    Same(s.lk, p);
    Moves(s.cpc, s.cproc, s.tpc, s.st, s.lk, s.on, c, t.tpc[p], s.st[p], s.lk[p]);
    match k
    case Alloc(q) =>
      SlotFacts(s, q);
      Same(t.tpc, q);
      Changes(s.cpc, s.cproc, t.tpc, s.st, s.lk, s.on, q, Off, USED);
    case Name =>
    case MakeRunnable =>
      var q := At(s, c).plan.q;
      SlotFacts(s, q);
      Changes(s.cpc, s.cproc, s.tpc[p := Open(Run)], s.st, s.lk, s.on, q, Away(Run), RUNNABLE);
  }

  lemma SlotFacts(s: State, q: nat)
    requires Core(s.cpc, s.cproc, s.tpc, s.st, s.lk, s.on) && q < |s.tpc|
    ensures s.st[q] == UNUSED || s.st[q] == USED ==> s.tpc[q] == Off
    ensures s.st[q] == ZOMBIE && s.lk[q] == -1 ==> s.tpc[q] == Away(Dead) && s.on[q] == -1
  {
    var was := s.tpc[q];
  }

  lemma CoreWait(s: State, c: nat, k: WaitStep)
    requires Core(s.cpc, s.cproc, s.tpc, s.st, s.lk, s.on) && CanWait(s, c, k)
    ensures var t := DoWait(s, c, k); Core(t.cpc, t.cproc, t.tpc, t.st, t.lk, t.on)
  {
    hide Core;
    ThreadFacts(s, c);
    var p, t := s.cpc[c].i, DoWait(s, c, k);
    Same(s.st, p);
    Same(s.lk, p);
    if k.ScanOne? && s.parent[At(s, c).i] == p && s.st[At(s, c).i] == ZOMBIE {
      var i := At(s, c).i;
      SlotFacts(s, i);
      Moves(s.cpc, s.cproc, s.tpc, s.st, s.lk, s.on, c, Open(Run), s.st[p], s.lk[p]);
      Changes(s.cpc, s.cproc, s.tpc[p := Open(Run)], s.st, s.lk, s.on, i, Off, UNUSED);
    } else {
      Moves(s.cpc, s.cproc, s.tpc, s.st, s.lk, s.on, c, t.tpc[p], t.st[p], t.lk[p]);
    }
  }

  lemma CoreExit(s: State, c: nat, k: ExitStep)
    requires Core(s.cpc, s.cproc, s.tpc, s.st, s.lk, s.on) && CanExit(s, c, k)
    ensures var t := DoExit(s, c, k); Core(t.cpc, t.cproc, t.tpc, t.st, t.lk, t.on)
  {
    hide Core;
    ThreadFacts(s, c);
    var p, t := s.cpc[c].i, DoExit(s, c, k);
    Same(s.st, p);
    Same(s.lk, p);
    if (k.WakeInitOne? || k.WakeParentOne?) && At(s, c).j < |s.tpc| && At(s, c).j != p {
      var j := At(s, c).j;
      Moves(s.cpc, s.cproc, s.tpc, s.st, s.lk, s.on, c, t.tpc[p], s.st[p], s.lk[p]);
      if s.st[j] == SLEEPING {
        Wakes(s.cpc, s.cproc, t.tpc, s.st, s.lk, s.on, j);
      }
    } else {
      Moves(s.cpc, s.cproc, s.tpc, s.st, s.lk, s.on, c, t.tpc[p], t.st[p], t.lk[p]);
    }
  }
}
