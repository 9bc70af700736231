/** What the operations of kernel/proc.c do when they run to their end: runs of the machine from any reachable state,
    and the state that each ends in, to the last field. */
module ProcRuns {
  import opened ProcMachine
  import opened ProcFamily
  import opened ProcTheorems

  // ------------------------------------------------------------------- runs

  /** The run leads from s to t. */
  ghost predicate Leads(s: State, acts: seq<Action>, t: State) {
    Legal(s, acts) && After(s, acts) == t
  }

  lemma One(s: State, a: Action)
    requires Enabled(s, a)
    ensures Leads(s, [a], Do(s, a))
  {
    hide Enabled, Do;
    assert [a][0] == a && [a][1..] == [];
    assert Legal(Do(s, a), []) && After(Do(s, a), []) == Do(s, a);
  }

  lemma {:induction false} Then(s: State, xs: seq<Action>, t: State, ys: seq<Action>, u: State)
    requires Leads(s, xs, t) && Leads(t, ys, u)
    ensures Leads(s, xs + ys, u)
    decreases |xs|
  {
    hide Enabled, Do;
    if xs == [] {
      assert xs + ys == ys;
    } else {
      Then(Do(s, xs[0]), xs[1..], t, ys, u);
      assert (xs + ys)[0] == xs[0] && (xs + ys)[1..] == xs[1..] + ys;
    }
  }

  /** One step more. */
  lemma AndThen(s: State, xs: seq<Action>, t: State, a: Action)
    requires Leads(s, xs, t) && Enabled(t, a)
    ensures Leads(s, xs + [a], Do(t, a))
  {
    hide Leads, Enabled, Do;
    One(t, a);
    Then(s, xs, t, [a], Do(t, a));
  }

  /** Where a run leads to is reachable. */
  lemma {:induction false} StaysReachable(s: State, acts: seq<Action>, t: State)
    requires Reachable(s) && Leads(s, acts, t)
    ensures Reachable(t)
  {
    hide Initial;
    var ncpu: nat, nproc: nat, before :| 0 < nproc && Legal(Initial(ncpu, nproc), before)
      && After(Initial(ncpu, nproc), before) == s;
    Then(Initial(ncpu, nproc), before, s, acts, t);
  }

  lemma Over<T>(s: seq<T>, i: nat, x: T, y: T)
    requires i < |s|
    ensures s[i := x][i := y] == s[i := y] && (s[i] == y ==> s[i := x][i := y] == s)
  {
  }

  // -------------------------------------------------------------- scheduler

  /** A process that could run and that nobody has locked is off all CPUs, its context saved. */
  lemma Ready(s: State, i: nat)
    requires Inv(s) && i < |s.tpc| && (s.st[i] == RUNNABLE || s.st[i] == SLEEPING) && s.lk[i] == -1
    ensures s.tpc[i].Away? && s.on[i] == -1 && s.tpc[i].plan != Dead
  {
    hide Waiters, Family, Births, Sleepers;
    var was := s.tpc[i];
  }

  /** The steps by which the scheduler of CPU c runs the process that it has come to. */
  function SwitchIn(c: nat): seq<Action> {
    [OfSched(c, Acquire)] + [OfSched(c, Test)] + [OfSched(c, SwitchTo)] + [OfThread(c, Resume)]
  }

  /** Process i runs on CPU c, out of its own lock. */
  function Dispatched(s: State, c: nat, i: nat): State
    requires Shape(s) && c < |s.cpc| && i < |s.tpc| && s.tpc[i].Away?
  {
    s.(cpc := s.cpc[c := In(i)], cproc := s.cproc[c := i], st := s.st[i := RUNNING],
       tpc := s.tpc[i := Open(s.tpc[i].plan)], on := s.on[i := c])
  }

  lemma DispatchSteps(s: State, c: nat)
    requires Shape(s) && c < |s.cpc| && s.cpc[c].Idle? && s.cpc[c].i < |s.tpc|
    requires s.st[s.cpc[c].i] == RUNNABLE && s.lk[s.cpc[c].i] == -1 && s.tpc[s.cpc[c].i].Away?
    ensures Leads(s, SwitchIn(c), Dispatched(s, c, s.cpc[c].i))
  {
    hide Leads;
    var i := s.cpc[c].i;
    var o := s.tpc[i].plan;
    var s1 := s.(lk := s.lk[i := c], cpc := s.cpc[c := Got(i)]);
    var s2 := s.(lk := s1.lk, st := s.st[i := RUNNING], cproc := s.cproc[c := i], cpc := s.cpc[c := Picked(i)]);
    var s3 := s2.(cpc := s.cpc[c := In(i)], on := s.on[i := c], tpc := s.tpc[i := Back(o)]);
    One(s, OfSched(c, Acquire));
    Over(s.cpc, c, Got(i), Picked(i));
    AndThen(s, [OfSched(c, Acquire)], s1, OfSched(c, Test));
    Over(s.cpc, c, Picked(i), In(i));
    AndThen(s, [OfSched(c, Acquire)] + [OfSched(c, Test)], s2, OfSched(c, SwitchTo));
    Over(s.tpc, i, Back(o), Open(o));
    Over(s.lk, i, c, -1);
    AndThen(s, [OfSched(c, Acquire)] + [OfSched(c, Test)] + [OfSched(c, SwitchTo)], s3, OfThread(c, Resume));
  }

  /** A scheduler that comes to a RUNNABLE process runs it: the context of the process is loaded there, c->proc is set,
      its state is RUNNING, its lock free again, and nothing else has changed. */
  lemma Dispatches(s: State, c: nat)
    requires Reachable(s) && Shape(s) && c < |s.cpc| && s.cpc[c].Idle? && s.cpc[c].i < |s.tpc|
    requires s.st[s.cpc[c].i] == RUNNABLE && s.lk[s.cpc[c].i] == -1
    ensures var i := s.cpc[c].i; s.tpc[i].Away? && Leads(s, SwitchIn(c), Dispatched(s, c, i))
  {
    hide Reachable, Inv, Leads;
    ReachableInv(s);
    Ready(s, s.cpc[c].i);
    DispatchSteps(s, c);
  }

  function Round(s: State, i: nat): nat { if i + 1 < |s.tpc| then i + 1 else 0 }

  function PassOver(c: nat): seq<Action> {
    [OfSched(c, Acquire)] + [OfSched(c, Test)] + [OfSched(c, Release)]
  }

  /** It passes over any other. */
  lemma Passes(s: State, c: nat)
    requires Shape(s) && c < |s.cpc| && s.cpc[c].Idle? && s.cpc[c].i < |s.tpc|
    requires s.st[s.cpc[c].i] != RUNNABLE && s.lk[s.cpc[c].i] == -1
    ensures Leads(s, PassOver(c), s.(cpc := s.cpc[c := Idle(Round(s, s.cpc[c].i))]))
  {
    hide Leads;
    var i := s.cpc[c].i;
    var s1 := s.(lk := s.lk[i := c], cpc := s.cpc[c := Got(i)]);
    var s2 := s1.(cpc := s.cpc[c := Rel(i)]);
    One(s, OfSched(c, Acquire));
    Over(s.cpc, c, Got(i), Rel(i));
    AndThen(s, [OfSched(c, Acquire)], s1, OfSched(c, Test));
    Over(s.cpc, c, Rel(i), Idle(Round(s, i)));
    Over(s.lk, i, c, -1);
    AndThen(s, [OfSched(c, Acquire)] + [OfSched(c, Test)], s2, OfSched(c, Release));
  }

  /** The slot d places on. */
  function Ahead(s: State, i: nat, d: nat): nat
    decreases d
  {
    if d == 0 then i else Ahead(s, Round(s, i), d - 1)
  }

  function Sweep(c: nat, d: nat): seq<Action> {
    if d == 0 then SwitchIn(c) else PassOver(c) + Sweep(c, d - 1)
  }

  lemma {:induction false} SweepSteps(s: State, c: nat, d: nat)
    requires Inv(s) && c < |s.cpc| && s.cpc[c].Idle? && s.cpc[c].i < |s.tpc|
    requires forall e {:trigger Ahead(s, s.cpc[c].i, e)} :: 0 <= e <= d ==>
               var p := Ahead(s, s.cpc[c].i, e); p < |s.tpc| && s.lk[p] == -1 && (s.st[p] == RUNNABLE <==> e == d)
    ensures var p := Ahead(s, s.cpc[c].i, d);
            p < |s.tpc| && s.tpc[p].Away? && Leads(s, Sweep(c, d), Dispatched(s, c, p))
    decreases d
  {
    hide Leads, Inv;
    assert Shape(s) by { InvShape(s); }
    var i := s.cpc[c].i;
    assert Ahead(s, i, 0) == i;
    if d == 0 {
      Ready(s, i);
      DispatchSteps(s, c);
    } else {
      var t := s.(cpc := s.cpc[c := Idle(Round(s, i))]);
      Passes(s, c);
      RunInv(s, PassOver(c)) by { LeadsIs(s, PassOver(c), t); }
      LeadsIs(s, PassOver(c), t);
      forall e: nat ensures Ahead(t, Round(s, i), e) == Ahead(s, i, e + 1) { AheadSame(s, t, Round(s, i), e); }
      forall e {:trigger Ahead(t, t.cpc[c].i, e)} | 0 <= e <= d - 1
        ensures var p := Ahead(t, t.cpc[c].i, e);
                p < |t.tpc| && t.lk[p] == -1 && (t.st[p] == RUNNABLE <==> e == d - 1)
      {
        assert Ahead(t, t.cpc[c].i, e) == Ahead(s, i, e + 1);
      }
      SweepSteps(t, c, d - 1);
      var p := Ahead(s, i, d);
      Over(s.cpc, c, Idle(Round(s, i)), In(p));
      Then(s, PassOver(c), t, Sweep(c, d - 1), Dispatched(t, c, p));
    }
  }

  lemma InvShape(s: State)
    requires Inv(s)
    ensures Shape(s)
  {
  }

  lemma LeadsIs(s: State, acts: seq<Action>, t: State)
    requires Leads(s, acts, t)
    ensures Legal(s, acts) && After(s, acts) == t
  {
  }

  lemma {:induction false} AheadSame(s: State, t: State, i: nat, d: nat)
    requires |s.tpc| == |t.tpc| > 0
    ensures Ahead(s, i, d) == Ahead(t, i, d)
    decreases d
  {
    if d > 0 { AheadSame(s, t, Round(s, i), d - 1); }
  }

  /** A scheduler comes round to the first RUNNABLE process ahead of it, and runs that. */
  lemma Sweeps(s: State, c: nat, d: nat)
    requires Reachable(s) && Shape(s) && c < |s.cpc| && s.cpc[c].Idle? && s.cpc[c].i < |s.tpc|
    requires forall e {:trigger Ahead(s, s.cpc[c].i, e)} :: 0 <= e <= d ==>
               var p := Ahead(s, s.cpc[c].i, e); p < |s.tpc| && s.lk[p] == -1 && (s.st[p] == RUNNABLE <==> e == d)
    ensures var p := Ahead(s, s.cpc[c].i, d);
            p < |s.tpc| && s.tpc[p].Away? && Leads(s, Sweep(c, d), Dispatched(s, c, p))
  {
    hide Reachable, Inv, Leads;
    ReachableInv(s);
    SweepSteps(s, c, d);
  }

  /** A sleeper that a wakeup or a kill meets can be run: it goes on where it went to sleep. */
  lemma WokenRuns(s: State, c: nat)
    requires Reachable(s) && Shape(s) && c < |s.cpc| && s.cpc[c].Idle? && s.cpc[c].i < |s.tpc|
    requires s.st[s.cpc[c].i] == SLEEPING && s.lk[s.cpc[c].i] == -1
    ensures var i := s.cpc[c].i;
            s.tpc[i].Away? && Leads(s, [OfThread(c, Kick(i))] + SwitchIn(c), Dispatched(s, c, i))
  {
    hide Reachable, Inv, Leads;
    ReachableInv(s);
    var i := s.cpc[c].i;
    var t := s.(st := s.st[i := RUNNABLE]);
    One(s, OfThread(c, Kick(i)));
    Ready(s, i);
    DispatchSteps(t, c);
    Over(s.st, i, RUNNABLE, RUNNING);
    Then(s, [OfThread(c, Kick(i))], t, SwitchIn(c), Dispatched(t, c, i));
  }

  // ------------------------------------------------------------ yield, sleep

  /** A thread is loaded on CPU c, the one of the process that c->proc names. */
  predicate Here(s: State, c: nat) { Running(s, c) && s.cproc[c] == s.cpc[c].i }

  lemma IsHere(s: State, c: nat)
    requires Reachable(s) && Running(s, c)
    ensures Here(s, c) && s.on[s.cpc[c].i] == c && StatusOk(At(s, c), s.st[s.cpc[c].i]) && Loaded(At(s, c))
  {
    hide Reachable, Waiters, Family, Births, Sleepers, StatusOk;
    ReachableInv(s);
    ThreadFacts(s, c);
  }

  /** From sched back to the loop of the scheduler. */
  function Depart(c: nat): seq<Action> {
    [OfThread(c, SwitchAway)] + [OfSched(c, Clear)] + [OfSched(c, Release)]
  }

  /** The thread on CPU c has gone away, to do o when it comes back, and the CPU is idle. */
  function Gone(s: State, c: nat, o: Plan): State
    requires Running(s, c)
  {
    var i := s.cpc[c].i;
    s.(cpc := s.cpc[c := Idle(Round(s, i))], cproc := s.cproc[c := -1], tpc := s.tpc[i := Away(o)], on := s.on[i := -1],
       lk := s.lk[i := -1])
  }

  lemma Departs(s: State, c: nat)
    requires Here(s, c) && At(s, c).Leave?
    ensures Leads(s, Depart(c), Gone(s, c, At(s, c).plan))
  {
    hide Leads;
    var i, o := s.cpc[c].i, At(s, c).plan;
    var s1 := s.(cpc := s.cpc[c := Ret(i)], tpc := s.tpc[i := Away(o)], on := s.on[i := -1]);
    var s2 := s1.(cpc := s.cpc[c := Rel(i)], cproc := s.cproc[c := -1]);
    One(s, OfThread(c, SwitchAway));
    Over(s.cpc, c, Ret(i), Rel(i));
    AndThen(s, [OfThread(c, SwitchAway)], s1, OfSched(c, Clear));
    Over(s.cpc, c, Rel(i), Idle(Round(s, i)));
    AndThen(s, [OfThread(c, SwitchAway)] + [OfSched(c, Clear)], s2, OfSched(c, Release));
  }

  /** yield: the process is RUNNABLE, and the CPU is free to look at the next one. */
  lemma Yields(s: State, c: nat)
    requires Reachable(s) && Running(s, c) && At(s, c).Open? && s.lk[s.cpc[c].i] == -1
    ensures var i := s.cpc[c].i;
            Leads(s, [OfThread(c, LockSelf)] + [OfThread(c, Yield)] + Depart(c),
                  Gone(s.(st := s.st[i := RUNNABLE]), c, At(s, c).plan))
  {
    hide Leads, Reachable;
    IsHere(s, c);
    var i, o := s.cpc[c].i, At(s, c).plan;
    var s1 := s.(tpc := s.tpc[i := Locked(o)], lk := s.lk[i := c]);
    var s2 := s.(tpc := s.tpc[i := Leave(o)], lk := s.lk[i := c], st := s.st[i := RUNNABLE]);
    One(s, OfThread(c, LockSelf));
    Over(s.tpc, i, Locked(o), Leave(o));
    AndThen(s, [OfThread(c, LockSelf)], s1, OfThread(c, Yield));
    Departs(s2, c);
    Over(s.tpc, i, Leave(o), Away(o));
    Over(s.lk, i, c, -1);
    Then(s, [OfThread(c, LockSelf)] + [OfThread(c, Yield)], s2, Depart(c), Gone(s2, c, o));
  }

  /** sleep on a channel other than kwait's. */
  lemma FallsAsleep(s: State, c: nat, ch: int)
    requires Reachable(s) && Running(s, c) && At(s, c) == Open(Run) && s.lk[s.cpc[c].i] == -1
    ensures var i := s.cpc[c].i;
            Leads(s, [OfThread(c, LockSelf)] + [OfThread(c, Sleep(ch))] + Depart(c),
                  Gone(s.(st := s.st[i := SLEEPING], chan := s.chan[i := ch]), c, Run))
  {
    hide Leads, Reachable;
    IsHere(s, c);
    var i := s.cpc[c].i;
    var s1 := s.(tpc := s.tpc[i := Locked(Run)], lk := s.lk[i := c]);
    var s2 := s.(tpc := s.tpc[i := Leave(Run)], lk := s.lk[i := c], st := s.st[i := SLEEPING],
                 chan := s.chan[i := ch]);
    One(s, OfThread(c, LockSelf));
    Over(s.tpc, i, Locked(Run), Leave(Run));
    AndThen(s, [OfThread(c, LockSelf)], s1, OfThread(c, Sleep(ch)));
    Departs(s2, c);
    Over(s.tpc, i, Leave(Run), Away(Run));
    Over(s.lk, i, c, -1);
    Then(s, [OfThread(c, LockSelf)] + [OfThread(c, Sleep(ch))], s2, Depart(c), Gone(s2, c, Run));
  }

  // ------------------------------------------------------------------- fork

  /** kfork into slot q: a RUNNABLE child that starts like its parent, younger than all. */
  lemma Forks(s: State, c: nat, q: nat)
    requires Reachable(s) && Running(s, c) && At(s, c) == Open(Run)
    requires q < |s.tpc| && s.st[q] == UNUSED && s.lk[q] == -1 && s.wl == -1
    ensures q != s.cpc[c].i
    ensures Leads(s, [OfFork(c, Alloc(q))] + [OfFork(c, Name)] + [OfFork(c, MakeRunnable)],
                  s.(tpc := s.tpc[q := Away(Run)], st := s.st[q := RUNNABLE], parent := s.parent[q := s.cpc[c].i],
                     birth := s.birth[q := s.next], next := s.next + 1, maker := s.maker[q := -1]))
  {
    hide Leads, Reachable;
    IsHere(s, c);
    var i := s.cpc[c].i;
    var s1 := s.(tpc := s.tpc[i := Open(Forking(q))], st := s.st[q := USED], birth := s.birth[q := s.next],
                 next := s.next + 1, maker := s.maker[q := i]);
    var s2 := s1.(tpc := s.tpc[i := Open(ForkNamed(q))], parent := s.parent[q := i]);
    One(s, OfFork(c, Alloc(q)));
    Over(s.tpc, i, Open(Forking(q)), Open(ForkNamed(q)));
    AndThen(s, [OfFork(c, Alloc(q))], s1, OfFork(c, Name));
    Over(s.tpc, i, Open(ForkNamed(q)), Open(Run));
    Over(s.st, q, USED, RUNNABLE);
    Over(s.maker, q, i, -1);
    AndThen(s, [OfFork(c, Alloc(q))] + [OfFork(c, Name)], s2, OfFork(c, MakeRunnable));
  }

  // ------------------------------------------------------------------- wait

  function Times(a: Action, k: nat): seq<Action> {
    if k == 0 then [] else Times(a, k - 1) + [a]
  }

  /** The last child before slot m, -1 if there is none. */
  function LastKid(parent: seq<int>, me: int, m: nat): int
    requires m <= |parent|
  {
    if m == 0 then -1 else if parent[m - 1] == me then m - 1 else LastKid(parent, me, m - 1)
  }

  /** The loop of kwait, as long as it meets no child that has exited. */
  lemma {:induction false} ScansTo(s: State, c: nat, m: nat)
    requires Here(s, c) && At(s, c) == Scan(0, -1) && m <= |s.tpc|
    requires forall j {:trigger s.parent[j]} ::
               0 <= j < m && s.parent[j] == s.cproc[c] ==> s.lk[j] == -1 && s.st[j] != ZOMBIE
    ensures Leads(s, Times(OfWait(c, ScanOne), m), Goto(s, c, Scan(m, LastKid(s.parent, s.cproc[c], m))))
    decreases m
  {
    hide Leads;
    var i := s.cpc[c].i;
    if m == 0 {
      assert s.tpc[i := Scan(0, -1)] == s.tpc;
      Stays(s);
    } else {
      ScansTo(s, c, m - 1);
      var now, next := Scan(m - 1, LastKid(s.parent, i, m - 1)), Scan(m, LastKid(s.parent, i, m));
      Over(s.tpc, i, now, next);
      AndThen(s, Times(OfWait(c, ScanOne), m - 1), Goto(s, c, now), OfWait(c, ScanOne));
    }
  }

  lemma Stays(s: State)
    ensures Leads(s, [], s)
  {
  }

  /** kwait, from where it is about to acquire wait_lock, up to slot m. */
  function LoopRun(c: nat, m: nat): seq<Action> { [OfWait(c, WaitAcquire)] + Times(OfWait(c, ScanOne), m) }

  lemma Loops(s: State, c: nat, m: nat)
    requires Here(s, c) && At(s, c) == Open(WaitAcq) && s.wl == -1 && m <= |s.tpc|
    requires forall j {:trigger s.parent[j]} ::
               0 <= j < m && s.parent[j] == s.cproc[c] ==> s.lk[j] == -1 && s.st[j] != ZOMBIE
    ensures Leads(s, LoopRun(c, m), Goto(s, c, Scan(m, LastKid(s.parent, s.cproc[c], m))).(wl := c))
  {
    hide Leads;
    var i := s.cpc[c].i;
    var s1 := s.(tpc := s.tpc[i := Scan(0, -1)], wl := c);
    var pc := Scan(m, LastKid(s.parent, s.cproc[c], m));
    One(s, OfWait(c, WaitAcquire));
    ScansTo(s1, c, m);
    Over(s.tpc, i, Scan(0, -1), pc);
    Then(s, [OfWait(c, WaitAcquire)], s1, Times(OfWait(c, ScanOne), m), Goto(s1, c, pc));
  }

  function ScanRun(c: nat, m: nat): seq<Action> { [OfWait(c, WaitStart)] + LoopRun(c, m) }

  lemma Scans(s: State, c: nat, m: nat)
    requires Here(s, c) && At(s, c) == Open(Run) && s.wl == -1 && m <= |s.tpc|
    requires forall j {:trigger s.parent[j]} ::
               0 <= j < m && s.parent[j] == s.cproc[c] ==> s.lk[j] == -1 && s.st[j] != ZOMBIE
    ensures Leads(s, ScanRun(c, m), Goto(s, c, Scan(m, LastKid(s.parent, s.cproc[c], m))).(wl := c))
  {
    hide Leads;
    var i := s.cpc[c].i;
    var s1 := s.(tpc := s.tpc[i := Open(WaitAcq)]);
    var pc := Scan(m, LastKid(s.parent, s.cproc[c], m));
    One(s, OfWait(c, WaitStart));
    Loops(s1, c, m);
    Over(s.tpc, i, Open(WaitAcq), pc);
    Then(s, [OfWait(c, WaitStart)], s1, LoopRun(c, m), Goto(s1, c, pc).(wl := c));
  }

  /** Child z freed. */
  function Freed(s: State, z: nat): State
    requires Shape(s) && z < |s.tpc|
  {
    s.(tpc := s.tpc[z := Off], st := s.st[z := UNUSED], parent := s.parent[z := -1], chan := s.chan[z := 0],
       freed := s.freed + {s.birth[z]})
  }

  /** kwait frees the first child that has exited, and returns. */
  lemma ReapsFirst(s: State, c: nat, z: nat)
    requires Reachable(s) && Running(s, c) && At(s, c) == Open(Run) && s.wl == -1
    requires z < |s.tpc| && s.parent[z] == s.cpc[c].i && s.lk[z] == -1 && s.st[z] == ZOMBIE
    requires forall j {:trigger s.parent[j]} ::
               0 <= j < z && s.parent[j] == s.cpc[c].i ==> s.lk[j] == -1 && s.st[j] != ZOMBIE
    ensures z != s.cpc[c].i
    ensures Leads(s, ScanRun(c, z) + [OfWait(c, ScanOne)], Freed(s, z))
  {
    hide Leads, Reachable;
    IsHere(s, c);
    var i := s.cpc[c].i;
    var pc := Scan(z, LastKid(s.parent, i, z));
    var s1 := s.(tpc := s.tpc[i := pc], wl := c);
    Scans(s, c, z);
    Over(s.tpc, i, pc, Open(Run));
    AndThen(s, ScanRun(c, z), s1, OfWait(c, ScanOne));
  }

  /** kwait of a process without children changes nothing. */
  lemma WaitsForNone(s: State, c: nat)
    requires Reachable(s) && Running(s, c) && At(s, c) == Open(Run) && s.wl == -1 && s.lk[s.cpc[c].i] == -1
    requires forall j {:trigger s.parent[j]} :: 0 <= j < |s.tpc| ==> s.parent[j] != s.cpc[c].i
    ensures Leads(s, ScanRun(c, |s.tpc|) + [OfWait(c, NoKids(false))], s)
  {
    hide Leads, Reachable;
    IsHere(s, c);
    var i, n := s.cpc[c].i, |s.tpc|;
    NoLastKid(s.parent, i, n);
    var s1 := s.(tpc := s.tpc[i := Scan(n, -1)], wl := c);
    Scans(s, c, n);
    Over(s.tpc, i, Scan(n, -1), Open(Run));
    AndThen(s, ScanRun(c, n), s1, OfWait(c, NoKids(false)));
  }

  lemma {:induction false} NoLastKid(parent: seq<int>, me: int, m: nat)
    requires m <= |parent|
    ensures LastKid(parent, me, m) == -1 <==> forall j {:trigger parent[j]} :: 0 <= j < m ==> parent[j] != me
  {
    if m > 0 { NoLastKid(parent, me, m - 1); }
  }

  /** kwait of a process with children, none of which has exited, puts it to sleep on itself, with wait_lock free. */
  lemma WaitsAsleep(s: State, c: nat, r: nat)
    requires Reachable(s) && Running(s, c) && At(s, c) == Open(Run) && s.wl == -1 && s.lk[s.cpc[c].i] == -1
    requires r < |s.tpc| && s.parent[r] == s.cpc[c].i
    requires forall j {:trigger s.parent[j]} ::
               0 <= j < |s.tpc| && s.parent[j] == s.cpc[c].i ==> s.lk[j] == -1 && s.st[j] != ZOMBIE
    ensures var i := s.cpc[c].i;
            Leads(s, ScanRun(c, |s.tpc|) + [OfWait(c, WaitLock)] + [OfWait(c, WaitRelease)] + [OfWait(c, WaitSleep)]
                     + Depart(c),
                  Gone(s.(st := s.st[i := SLEEPING], chan := s.chan[i := i],
                          kid := s.kid[i := LastKid(s.parent, i, |s.tpc|)]), c, WaitAcq))
  {
    hide Leads, Reachable;
    IsHere(s, c);
    var i, n := s.cpc[c].i, |s.tpc|;
    NoLastKid(s.parent, i, n);
    var k := LastKid(s.parent, i, n);
    Scans(s, c, n);
    WaitTail(s, c, k, ScanRun(c, n));
  }

  /** The end of kwait, from the end of its loop. */
  lemma WaitTail(s: State, c: nat, k: int, before: seq<Action>)
    requires Here(s, c) && At(s, c) == Open(Run) && s.wl == -1 && s.lk[s.cpc[c].i] == -1 && k != -1
    requires Leads(s, before, Goto(s, c, Scan(|s.tpc|, k)).(wl := c))
    ensures var i := s.cpc[c].i;
            Leads(s, before + [OfWait(c, WaitLock)] + [OfWait(c, WaitRelease)] + [OfWait(c, WaitSleep)] + Depart(c),
                  Gone(s.(st := s.st[i := SLEEPING], chan := s.chan[i := i], kid := s.kid[i := k]), c, WaitAcq))
  {
    hide Leads;
    var i, n := s.cpc[c].i, |s.tpc|;
    var s0 := s.(tpc := s.tpc[i := Scan(n, k)], wl := c);
    var s1 := s.(tpc := s.tpc[i := WaitLocked], wl := c, lk := s.lk[i := c], kid := s.kid[i := k]);
    var s2 := s1.(tpc := s.tpc[i := WaitDrop], wl := -1);
    var s3 := s2.(tpc := s.tpc[i := Leave(WaitAcq)], st := s.st[i := SLEEPING], chan := s.chan[i := i]);
    Over(s.tpc, i, Scan(n, k), WaitLocked);
    AndThen(s, before, s0, OfWait(c, WaitLock));
    Over(s.tpc, i, WaitLocked, WaitDrop);
    AndThen(s, before + [OfWait(c, WaitLock)], s1, OfWait(c, WaitRelease));
    Over(s.tpc, i, WaitDrop, Leave(WaitAcq));
    AndThen(s, before + [OfWait(c, WaitLock)] + [OfWait(c, WaitRelease)], s2, OfWait(c, WaitSleep));
    Departs(s3, c);
    Over(s.tpc, i, Leave(WaitAcq), Away(WaitAcq));
    Over(s.lk, i, c, -1);
    Then(s, before + [OfWait(c, WaitLock)] + [OfWait(c, WaitRelease)] + [OfWait(c, WaitSleep)], s3, Depart(c),
         Gone(s3, c, WaitAcq));
  }

  // ------------------------------------------------------------------- exit

  /** wakeup(ch) of the processes before slot m. */
  function WakeTo(st: seq<Status>, chan: seq<int>, ch: int, m: nat): (r: seq<Status>)
    requires m <= |st| == |chan|
    ensures |r| == |st|
    ensures forall k {:trigger r[k]} :: 0 <= k < |st| ==>
              r[k] == if k < m && st[k] == SLEEPING && chan[k] == ch then RUNNABLE else st[k]
  {
    if m == 0 then st else Woken(WakeTo(st, chan, ch, m - 1), chan, m - 1, ch)
  }

  /** The children before slot m given to initproc. */
  function Given(parent: seq<int>, me: int, m: nat): (r: seq<int>)
    requires m <= |parent|
    ensures |r| == |parent|
    ensures forall k {:trigger r[k]} :: 0 <= k < |parent| ==>
              r[k] == if k < m && parent[k] == me then INIT else parent[k]
  {
    if m == 0 then parent
    else if parent[m - 1] == me then Given(parent, me, m - 1)[m - 1 := INIT]
    else Given(parent, me, m - 1)
  }

  /** Giving away a child before slot m has woken initproc. */
  function Roused(st: seq<Status>, chan: seq<int>, parent: seq<int>, me: int, m: nat): (r: seq<Status>)
    requires m <= |parent| == |st| == |chan|
    ensures |r| == |st|
  {
    if LastKid(parent, me, m) == -1 then st else WakeTo(st, chan, INIT, |st|)
  }

  lemma WakeTwice(st: seq<Status>, chan: seq<int>, ch: int)
    requires |st| == |chan|
    ensures WakeTo(WakeTo(st, chan, ch, |st|), chan, ch, |st|) == WakeTo(st, chan, ch, |st|)
  {
    var once := WakeTo(st, chan, ch, |st|);
    var twice := WakeTo(once, chan, ch, |st|);
    forall k | 0 <= k < |st| ensures twice[k] == once[k] {
    }
  }

  /** Every lock that a thread on CPU c might want is free. */
  predicate Unlocked(s: State) {
    Shape(s) && forall j {:trigger s.lk[j]} :: 0 <= j < |s.lk| ==> s.lk[j] == -1
  }

  /** wakeup(initproc), from its start. */
  lemma {:induction false} WakesInit(s: State, c: nat, i: nat, m: nat)
    requires Here(s, c) && Unlocked(s) && At(s, c) == WakeInit(i, 0) && m <= |s.tpc| && s.st[s.cproc[c]] == RUNNING
    ensures Leads(s, Times(OfExit(c, WakeInitOne), m),
                  Goto(s, c, WakeInit(i, m)).(st := WakeTo(s.st, s.chan, INIT, m)))
    decreases m
  {
    hide Leads;
    var me := s.cpc[c].i;
    if m == 0 {
      assert s.tpc[me := WakeInit(i, 0)] == s.tpc;
      Stays(s);
    } else {
      WakesInit(s, c, i, m - 1);
      Over(s.tpc, me, WakeInit(i, m - 1), WakeInit(i, m));
      var now := Goto(s, c, WakeInit(i, m - 1)).(st := WakeTo(s.st, s.chan, INIT, m - 1));
      AndThen(s, Times(OfExit(c, WakeInitOne), m - 1), now, OfExit(c, WakeInitOne));
    }
  }

  /** One child given away. */
  function GiveRun(c: nat, n: nat): seq<Action> {
    [OfExit(c, ReparentOne)] + Times(OfExit(c, WakeInitOne), n) + [OfExit(c, WakeInitOne)]
  }

  lemma GivesOne(s: State, c: nat, i: nat)
    requires Here(s, c) && Unlocked(s) && At(s, c) == Reparent(i) && i < |s.tpc| && s.st[s.cproc[c]] == RUNNING
    requires s.parent[i] == s.cproc[c]
    ensures Leads(s, GiveRun(c, |s.tpc|),
                  Goto(s, c, Reparent(i + 1)).(st := WakeTo(s.st, s.chan, INIT, |s.st|),
                                               parent := s.parent[i := INIT]))
  {
    hide Leads;
    var me, n := s.cpc[c].i, |s.tpc|;
    var s1 := s.(tpc := s.tpc[me := WakeInit(i, 0)], parent := s.parent[i := INIT]);
    var s2 := s1.(tpc := s.tpc[me := WakeInit(i, n)], st := WakeTo(s.st, s.chan, INIT, n));
    One(s, OfExit(c, ReparentOne));
    WakesInit(s1, c, i, n);
    Over(s.tpc, me, WakeInit(i, 0), WakeInit(i, n));
    Then(s, [OfExit(c, ReparentOne)], s1, Times(OfExit(c, WakeInitOne), n), s2);
    Over(s.tpc, me, WakeInit(i, n), Reparent(i + 1));
    AndThen(s, [OfExit(c, ReparentOne)] + Times(OfExit(c, WakeInitOne), n), s2, OfExit(c, WakeInitOne));
  }

  function ReparentRun(c: nat, parent: seq<int>, me: int, m: nat): seq<Action>
    requires m <= |parent|
  {
    if m == 0 then []
    else if parent[m - 1] == me then ReparentRun(c, parent, me, m - 1) + GiveRun(c, |parent|)
    else ReparentRun(c, parent, me, m - 1) + [OfExit(c, ReparentOne)]
  }

  /** reparent has looked at the processes before slot m. */
  function Reparented(s: State, c: nat, m: nat): State
    requires Running(s, c) && m <= |s.tpc|
  {
    Goto(s, c, Reparent(m)).(parent := Given(s.parent, s.cpc[c].i, m),
                             st := Roused(s.st, s.chan, s.parent, s.cpc[c].i, m))
  }

  lemma {:induction false} Reparents(s: State, c: nat, m: nat)
    requires Here(s, c) && Unlocked(s) && At(s, c) == Reparent(0) && m <= |s.tpc| && s.st[s.cproc[c]] == RUNNING
    requires s.cpc[c].i != INIT
    ensures Leads(s, ReparentRun(c, s.parent, s.cpc[c].i, m), Reparented(s, c, m))
    decreases m
  {
    hide Leads;
    var me := s.cpc[c].i;
    if m == 0 {
      assert s.tpc[me := Reparent(0)] == s.tpc;
      Stays(s);
    } else {
      Reparents(s, c, m - 1);
      var now := Reparented(s, c, m - 1);
      var before := ReparentRun(c, s.parent, me, m - 1);
      Over(s.tpc, me, Reparent(m - 1), Reparent(m));
      if s.parent[m - 1] == me {
        GivesOne(now, c, m - 1);
        WakeTwice(s.st, s.chan, INIT);
        Then(s, before, now, GiveRun(c, |s.tpc|), Reparented(s, c, m));
      } else {
        AndThen(s, before, now, OfExit(c, ReparentOne));
      }
    }
  }

  /** wakeup(p->parent), from its start. */
  lemma {:induction false} WakesParent(s: State, c: nat, m: nat)
    requires Here(s, c) && Unlocked(s) && At(s, c) == WakeParent(0) && m <= |s.tpc| && s.st[s.cproc[c]] == RUNNING
    ensures Leads(s, Times(OfExit(c, WakeParentOne), m),
                  Goto(s, c, WakeParent(m)).(st := WakeTo(s.st, s.chan, s.parent[s.cpc[c].i], m)))
    decreases m
  {
    hide Leads;
    var me := s.cpc[c].i;
    if m == 0 {
      assert s.tpc[me := WakeParent(0)] == s.tpc;
      Stays(s);
    } else {
      WakesParent(s, c, m - 1);
      Over(s.tpc, me, WakeParent(m - 1), WakeParent(m));
      var now := Goto(s, c, WakeParent(m - 1)).(st := WakeTo(s.st, s.chan, s.parent[me], m - 1));
      AndThen(s, Times(OfExit(c, WakeParentOne), m - 1), now, OfExit(c, WakeParentOne));
    }
  }

  function ExitHead(s: State, c: nat): seq<Action>
    requires Running(s, c)
  {
    [OfExit(c, ExitStart)] + [OfExit(c, ExitAcquire)] + ReparentRun(c, s.parent, s.cpc[c].i, |s.tpc|)
      + [OfExit(c, ReparentOne)]
  }

  function ExitTail(c: nat, n: nat): seq<Action> {
    Times(OfExit(c, WakeParentOne), n) + [OfExit(c, ExitLock)] + [OfExit(c, MakeZombie)] + [OfExit(c, ExitRelease)]
      + Depart(c)
  }

  lemma ExitStarts(s: State, c: nat)
    requires Here(s, c) && Unlocked(s) && At(s, c) == Open(Run) && s.st[s.cproc[c]] == RUNNING && s.wl == -1
    requires s.cpc[c].i != INIT
    ensures Leads(s, ExitHead(s, c),
                  Reparented(s, c, |s.tpc|).(tpc := s.tpc[s.cpc[c].i := WakeParent(0)], wl := c))
  {
    hide Leads;
    var me, n := s.cpc[c].i, |s.tpc|;
    var s1 := s.(tpc := s.tpc[me := Open(ExitAcq)]);
    var s2 := s.(tpc := s.tpc[me := Reparent(0)], wl := c);
    One(s, OfExit(c, ExitStart));
    Over(s.tpc, me, Open(ExitAcq), Reparent(0));
    AndThen(s, [OfExit(c, ExitStart)], s1, OfExit(c, ExitAcquire));
    Reparents(s2, c, n);
    Over(s.tpc, me, Reparent(0), Reparent(n));
    var before := [OfExit(c, ExitStart)] + [OfExit(c, ExitAcquire)];
    var s3 := Reparented(s, c, n).(wl := c);
    Then(s, before, s2, ReparentRun(c, s.parent, me, n), s3);
    Over(s.tpc, me, Reparent(n), WakeParent(0));
    AndThen(s, before + ReparentRun(c, s.parent, me, n), s3, OfExit(c, ReparentOne));
  }

  lemma ExitEnds(s: State, c: nat)
    requires Here(s, c) && Unlocked(s) && At(s, c) == WakeParent(0) && s.st[s.cproc[c]] == RUNNING && s.wl == c
    ensures var me := s.cpc[c].i;
            Leads(s, ExitTail(c, |s.tpc|),
                  Gone(s.(st := WakeTo(s.st, s.chan, s.parent[me], |s.st|)[me := ZOMBIE], wl := -1), c, Dead))
  {
    hide Leads;
    var me, n := s.cpc[c].i, |s.tpc|;
    var x := WakeTo(s.st, s.chan, s.parent[me], n);
    var wake := Times(OfExit(c, WakeParentOne), n);
    var s1 := s.(tpc := s.tpc[me := WakeParent(n)], st := x);
    var s2 := s.(tpc := s.tpc[me := ExitLocked], st := x, lk := s.lk[me := c]);
    var s3 := s.(tpc := s.tpc[me := ZombieLocked], st := x[me := ZOMBIE], lk := s.lk[me := c]);
    var s4 := s.(tpc := s.tpc[me := Leave(Dead)], st := x[me := ZOMBIE], lk := s.lk[me := c], wl := -1);
    WakesParent(s, c, n);
    Over(s.tpc, me, WakeParent(n), ExitLocked);
    AndThen(s, wake, s1, OfExit(c, ExitLock));
    Over(s.tpc, me, ExitLocked, ZombieLocked);
    AndThen(s, wake + [OfExit(c, ExitLock)], s2, OfExit(c, MakeZombie));
    Over(s.tpc, me, ZombieLocked, Leave(Dead));
    AndThen(s, wake + [OfExit(c, ExitLock)] + [OfExit(c, MakeZombie)], s3, OfExit(c, ExitRelease));
    Departs(s4, c);
    Over(s.tpc, me, Leave(Dead), Away(Dead));
    Over(s.lk, me, c, -1);
    Then(s, wake + [OfExit(c, ExitLock)] + [OfExit(c, MakeZombie)] + [OfExit(c, ExitRelease)], s4, Depart(c),
         Gone(s4, c, Dead));
  }

  /** The state that kexit of the thread on CPU c leaves: its children belong to initproc, which is awake if it slept
      in kwait and there are any; so is the parent; and the process is a zombie, off the CPU. */
  function Exited(s: State, c: nat): State
    requires Running(s, c)
  {
    var me, n := s.cpc[c].i, |s.tpc|;
    var parent, st := Given(s.parent, me, n), Roused(s.st, s.chan, s.parent, me, n);
    Gone(s.(parent := parent, st := WakeTo(st, s.chan, s.parent[me], n)[me := ZOMBIE]), c, Dead)
  }

  /** kexit of any process but initproc runs to its end, without a panic, when no lock is held. */
  lemma Exits(s: State, c: nat)
    requires Reachable(s) && Running(s, c) && At(s, c) == Open(Run) && s.wl == -1 && Unlocked(s) && s.cpc[c].i != INIT
    ensures Leads(s, ExitHead(s, c) + ExitTail(c, |s.tpc|), Exited(s, c))
  {
    hide Leads, Reachable, Inv;
    IsHere(s, c);
    ReachableInv(s);
    var me, n := s.cpc[c].i, |s.tpc|;
    KinFacts(s, me);
    ExitStarts(s, c);
    var t := Reparented(s, c, n).(tpc := s.tpc[me := WakeParent(0)], wl := c);
    assert t.parent[me] == s.parent[me];
    assert t.st[me] == RUNNING;
    ExitEnds(t, c);
    Over(s.tpc, me, WakeParent(0), Away(Dead));
    Then(s, ExitHead(s, c), t, ExitTail(c, n), Exited(s, c));
  }

  function FreeRun(d: nat, z: nat): seq<Action> { SwitchIn(d) + LoopRun(d, z) + [OfWait(d, ScanOne)] }

  /** A process that was woken in kwait goes on to free its first child that has exited. */
  lemma WaiterFrees(s: State, d: nat, z: nat)
    requires Reachable(s) && Unlocked(s) && s.wl == -1 && d < |s.cpc| && s.cpc[d].Idle? && s.cpc[d].i < |s.tpc|
    requires var p := s.cpc[d].i;
             && s.st[p] == RUNNABLE && s.tpc[p] == Away(WaitAcq) && z < |s.tpc| && s.parent[z] == p && s.st[z] == ZOMBIE
             && forall j {:trigger s.parent[j]} :: 0 <= j < z && s.parent[j] == p ==> s.st[j] != ZOMBIE
    ensures var p := s.cpc[d].i;
            p != z && Leads(s, FreeRun(d, z), Freed(Dispatched(s, d, p).(tpc := s.tpc[p := Open(Run)]), z))
  {
    hide Leads, Reachable;
    var p := s.cpc[d].i;
    Dispatches(s, d);
    var u := Dispatched(s, d, p);
    Loops(u, d, z);
    var pc := Scan(z, LastKid(u.parent, p, z));
    var v := u.(tpc := s.tpc[p := pc], wl := d);
    Over(s.tpc, p, Open(WaitAcq), pc);
    Then(s, SwitchIn(d), u, LoopRun(d, z), v);
    Over(s.tpc, p, pc, Open(Run));
    AndThen(s, SwitchIn(d) + LoopRun(d, z), v, OfWait(d, ScanOne));
  }

  /** A process whose parent sleeps in kwait exits, and the parent, run by another CPU, frees a child that has exited:
      the first in the table, which is this one or one that it has left to initproc. */
  lemma ParentFrees(s: State, c: nat, d: nat, z: nat)
    requires Reachable(s) && Running(s, c) && At(s, c) == Open(Run) && s.wl == -1 && Unlocked(s) && s.cpc[c].i != INIT
    requires var p := s.parent[s.cpc[c].i];
             0 <= p < |s.tpc| && s.tpc[p] == Away(WaitAcq) && s.st[p] == SLEEPING
             && d < |s.cpc| && d != c && s.cpc[d] == Idle(p)
    requires var t, p := Exited(s, c), s.parent[s.cpc[c].i];
             && z < |s.tpc| && t.parent[z] == p && t.st[z] == ZOMBIE
             && forall j {:trigger t.parent[j]} :: 0 <= j < z && t.parent[j] == p ==> t.st[j] != ZOMBIE
    ensures var t, p := Exited(s, c), s.parent[s.cpc[c].i];
            && t.tpc[p] == Away(WaitAcq)
            && Leads(s, ExitHead(s, c) + ExitTail(c, |s.tpc|) + FreeRun(d, z),
                     Freed(Dispatched(t, d, p).(tpc := t.tpc[p := Open(Run)]), z))
  {
    hide Leads, Reachable, Inv;
    var p, t := s.parent[s.cpc[c].i], Exited(s, c);
    var xs := ExitHead(s, c) + ExitTail(c, |s.tpc|);
    Exits(s, c);
    StaysReachable(s, xs, t);
    ReachableInv(s);
    ExitWakes(s, c);
    WaiterFrees(t, d, z);
    Then(s, xs, t, FreeRun(d, z), Freed(Dispatched(t, d, p).(tpc := t.tpc[p := Open(Run)]), z));
  }

  /** What others see of an exit: the children are initproc's, and a parent that slept in kwait can run. */
  lemma ExitWakes(s: State, c: nat)
    requires Inv(s) && Running(s, c) && At(s, c) == Open(Run)
    ensures var me, p, t := s.cpc[c].i, s.parent[s.cpc[c].i], Exited(s, c);
            && t.st[me] == ZOMBIE && t.parent[me] == p
            && (forall k {:trigger t.parent[k]} :: 0 <= k < |s.tpc| ==>
                  t.parent[k] == if s.parent[k] == me then INIT else s.parent[k])
            && (0 <= p < |s.tpc| && s.tpc[p] == Away(WaitAcq) && s.st[p] == SLEEPING ==> t.st[p] == RUNNABLE)
  {
    hide Inv;
    var me, p := s.cpc[c].i, s.parent[s.cpc[c].i];
    InvShape(s);
    KinFacts(s, me);
    if 0 <= p < |s.tpc| {
      KinFacts(s, p);
    }
  }

  // --------------------------------------------------------------- deadlock

  /** The loops over the process table stay within it. */
  predicate InTable(pc: Pc, n: nat) {
    match pc
    case Scan(i, _) => i <= n
    case Reparent(i) => i <= n
    case WakeInit(i, j) => i < n && j <= n
    case WakeParent(j) => j <= n
    case _ => true
  }

  ghost predicate AllInTable(s: State) {
    forall p {:trigger s.tpc[p]} :: 0 <= p < |s.tpc| ==> InTable(s.tpc[p], |s.tpc|)
  }

  lemma TableWait(s: State, c: nat, w: WaitStep)
    requires AllInTable(s) && CanWait(s, c, w)
    ensures AllInTable(DoWait(s, c, w))
  {
    assert InTable(At(s, c), |s.tpc|);
  }

  lemma TableExit(s: State, c: nat, e: ExitStep)
    requires AllInTable(s) && CanExit(s, c, e)
    ensures AllInTable(DoExit(s, c, e))
  {
    hide Woken;
    assert InTable(At(s, c), |s.tpc|);
  }

  lemma TableThread(s: State, c: nat, t: ThreadStep)
    requires AllInTable(s) && CanThread(s, c, t)
    ensures AllInTable(DoThread(s, c, t))
  {
  }

  lemma InTableKept(s: State, a: Action)
    requires AllInTable(s) && Enabled(s, a)
    ensures AllInTable(Do(s, a))
  {
    match a
    case OfSched(c, k) =>
    case OfThread(c, t) => hide AllInTable; TableThread(s, c, t);
    case OfFork(c, f) =>
    case OfWait(c, w) => hide AllInTable; TableWait(s, c, w);
    case OfExit(c, e) => hide AllInTable; TableExit(s, c, e);
  }

  lemma {:induction false} RunInTable(s: State, acts: seq<Action>)
    requires AllInTable(s) && Legal(s, acts)
    ensures AllInTable(After(s, acts))
    decreases |acts|
  {
    hide AllInTable, Enabled, Do;
    if acts != [] {
      InTableKept(s, acts[0]);
      RunInTable(Do(s, acts[0]), acts[1..]);
    }
  }

  lemma ReachableInTable(s: State)
    requires Reachable(s)
    ensures AllInTable(s)
  {
    var ncpu: nat, nproc: nat, acts :| 0 < nproc && Legal(Initial(ncpu, nproc), acts)
      && After(Initial(ncpu, nproc), acts) == s;
    assert AllInTable(Initial(ncpu, nproc));
    hide AllInTable, Initial;
    RunInTable(Initial(ncpu, nproc), acts);
  }

  /** The step that the code of a thread at pc takes next; one of several at a point where it may do anything. */
  function ThreadNext(c: nat, pc: Pc, n: nat): Action {
    match pc
    case Open(o) =>
      if o == WaitAcq then OfWait(c, WaitAcquire)
      else if o == ExitAcq then OfExit(c, ExitAcquire)
      else if o.Forking? then OfFork(c, Name)
      else if o.ForkNamed? then OfFork(c, MakeRunnable)
      else OfWait(c, WaitStart)
    case Locked(_) => OfThread(c, Yield)
    case Leave(_) => OfThread(c, SwitchAway)
    case Scan(i, k) => OfWait(c, if i < n then ScanOne else if k == -1 then NoKids(false) else WaitLock)
    case WaitLocked => OfWait(c, WaitRelease)
    case WaitDrop => OfWait(c, WaitSleep)
    case Reparent(_) => OfExit(c, ReparentOne)
    case WakeInit(_, _) => OfExit(c, WakeInitOne)
    case WakeParent(j) => OfExit(c, if j < n then WakeParentOne else ExitLock)
    case ExitLocked => OfExit(c, MakeZombie)
    case ZombieLocked => OfExit(c, ExitRelease)
    case _ => OfThread(c, Resume)
  }

  function NextStep(s: State, c: nat): Action
    requires Shape(s) && c < |s.cpc| && s.cpc[c].i < |s.tpc|
  {
    match s.cpc[c]
    case Idle(_) => OfSched(c, Acquire)
    case Got(_) => OfSched(c, Test)
    case Picked(_) => OfSched(c, SwitchTo)
    case In(i) => ThreadNext(c, s.tpc[i], |s.tpc|)
    case Ret(_) => OfSched(c, Clear)
    case Rel(_) => OfSched(c, Release)
  }

  /** The CPU that holds the lock which process `me` wants at pc, -1 if it wants none or the lock is free. */
  function ThreadWaits(s: State, me: nat, pc: Pc): int
    requires Shape(s) && me < |s.tpc|
  {
    match pc
    case Open(o) =>
      if o == WaitAcq || o == ExitAcq || o.Forking? then s.wl
      else if o.ForkNamed? && o.q < |s.tpc| then s.lk[o.q] else -1
    case Scan(i, _) => if i >= |s.tpc| then s.lk[me] else if s.parent[i] == me then s.lk[i] else -1
    case WakeInit(_, j) => if j < |s.tpc| && j != me then s.lk[j] else -1
    case WakeParent(j) => if j >= |s.tpc| then s.lk[me] else if j != me then s.lk[j] else -1
    case _ => -1
  }

  /** The CPU that CPU c waits for, -1 if it waits for none. */
  function WaitsFor(s: State, c: nat): int
    requires Shape(s) && c < |s.cpc| && s.cpc[c].i < |s.tpc|
  {
    match s.cpc[c]
    case Idle(i) => s.lk[i]
    case In(i) => ThreadWaits(s, i, s.tpc[i])
    case _ => -1
  }

  lemma OnTheTable(s: State, c: nat)
    requires Inv(s) && c < |s.cpc|
    ensures Shape(s) && s.cpc[c].i < |s.tpc|
  {
    hide Waiters, Family, Births, Sleepers;
    var k := s.cpc[c];
  }

  /** A CPU can take its next step exactly if it waits for no other. */
  lemma GoesUnlessWaiting(s: State, c: nat)
    requires Reachable(s) && c < |s.cpc|
    ensures Shape(s) && s.cpc[c].i < |s.tpc| && (Enabled(s, NextStep(s, c)) <==> WaitsFor(s, c) == -1)
  {
    hide Reachable, Inv;
    ReachableInv(s);
    ReachableInTable(s);
    OnTheTable(s, c);
    CpuFacts(s, c);
    if s.cpc[c].In? {
      var me := s.cpc[c].i;
      IsHere(s, c);
      KinFacts(s, me);
      assert InTable(s.tpc[me], |s.tpc|);
      hide KidOk, SelfOk, AllInTable;
      ThreadGoes(s, c);
    }
  }

  lemma ThreadGoes(s: State, c: nat)
    requires Here(s, c) && InTable(At(s, c), |s.tpc|) && StatusOk(At(s, c), s.st[s.cpc[c].i]) && Loaded(At(s, c))
    requires MakingOf(At(s, c)).Forking? || MakingOf(At(s, c)).ForkNamed? ==> MakingOf(At(s, c)).q < |s.tpc|
    ensures Enabled(s, ThreadNext(c, At(s, c), |s.tpc|)) <==> ThreadWaits(s, s.cpc[c].i, At(s, c)) == -1
  {
  }

  /** The holder of a p->lock waits for nobody. */
  lemma HolderGoes(s: State, p: nat)
    requires Inv(s) && p < |s.tpc| && s.lk[p] != -1
    ensures 0 <= s.lk[p] < |s.cpc| && s.cpc[s.lk[p]].i == p && WaitsFor(s, s.lk[p]) == -1
  {
    hide Waiters, Family, Births, Sleepers;
    var was := s.tpc[p];
  }

  /** There is no deadlock: a CPU that cannot take its next step waits for another one, which can take its own, unless
      it holds wait_lock and waits in turn for the holder of a p->lock, which can. */
  lemma NoDeadlock(s: State, c: nat)
    requires Reachable(s) && c < |s.cpc|
    ensures Shape(s) && forall x {:trigger s.cpc[x]} :: 0 <= x < |s.cpc| ==> s.cpc[x].i < |s.tpc|
    ensures Enabled(s, NextStep(s, c)) || 0 <= WaitsFor(s, c) < |s.cpc|
    ensures var d := WaitsFor(s, c);
            d != -1 ==> d != c && 0 <= d < |s.cpc|
                        && (Enabled(s, NextStep(s, d))
                            || (s.wl == d && var e := WaitsFor(s, d);
                                e != d && e != c && 0 <= e < |s.cpc| && Enabled(s, NextStep(s, e))))
  {
    hide Reachable, Inv;
    ReachableInv(s);
    InvShape(s);
    forall x {:trigger s.cpc[x]} | 0 <= x < |s.cpc| ensures s.cpc[x].i < |s.tpc| { OnTheTable(s, x); }
    GoesUnlessWaiting(s, c);
    var d := WaitsFor(s, c);
    if d != -1 {
      WaitsForAnother(s, c);
      GoesUnlessWaiting(s, d);
      var e := WaitsFor(s, d);
      if e != -1 {
        WaitsForAnother(s, d);
        GoesUnlessWaiting(s, e);
      }
    }
  }

  /** Whom CPU c waits for: the holder of a p->lock, which waits for nobody, or that of wait_lock, which waits at most
      for the holder of a p->lock; never for itself. */
  lemma WaitsForAnother(s: State, c: nat)
    requires Inv(s) && c < |s.cpc| && s.cpc[c].i < |s.tpc| && WaitsFor(s, c) != -1
    ensures var d := WaitsFor(s, c);
            && d != c && 0 <= d < |s.cpc| && s.cpc[d].i < |s.tpc|
            && (WaitsFor(s, d) != -1 ==> d == s.wl != c)
  {
    hide Inv;
    InvShape(s);
    var me := s.cpc[c].i;
    CpuFacts(s, c);
    if s.cpc[c].Idle? {
      HolderGoes(s, me);
    } else {
      InCore(s, c);
      OnlyOwn(s, c);
      var pc, n := s.tpc[me], |s.tpc|;
      var j := if pc.Open? && pc.plan.ForkNamed? then pc.plan.q
               else if pc.Scan? then if pc.i >= n then me else pc.i
               else if pc.WakeInit? then pc.j
               else if pc.WakeParent? then if pc.j >= n then me else pc.j
               else n;
      if j < n {
        HolderGoes(s, j);
      }
    }
  }

  lemma InCore(s: State, c: nat)
    requires Inv(s) && c < |s.cpc| && s.cpc[c].In? && s.cpc[c].i < |s.tpc|
    ensures Running(s, c) && (s.lk[s.cpc[c].i] == c <==> OwnLock(At(s, c))) && (HoldsWait(At(s, c)) <==> s.wl == c)
    ensures s.wl == -1 || (0 <= s.wl < |s.cpc| && s.cpc[s.wl].i < |s.tpc|)
  {
    hide Family, Births, Sleepers;
    CpuFacts(s, c);
    ThreadFacts(s, c);
    HolderFacts(s, c);
  }
}
