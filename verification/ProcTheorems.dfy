/** The process protocol keeps its invariant in every step, and what follows for every run. */
module ProcTheorems {
  import opened ProcMachine
  import opened ProcFamily

  ghost predicate Inv(s: State) {
    && Shape(s)
    && Core(s.cpc, s.cproc, s.tpc, s.st, s.lk, s.on) && Waiters(s.cpc, s.tpc, s.on, s.wl)
    && Family(s.tpc, s.st, s.parent, s.birth, s.maker) && Births(s.st, s.birth, s.next, s.freed)
    && Sleepers(s.cpc, s.tpc, s.st, s.chan, s.parent, s.kid, s.wl)
  }

  /** What a thread knows about its own families. */
  lemma KinFacts(s: State, p: nat)
    requires Inv(s) && p < |s.tpc|
    ensures FamOk(p, s.tpc[p], s.st[p], s.parent[p], s.maker[p], s.tpc, s.birth, s.maker)
    ensures SelfOk(p, s.tpc[p], s.st[p], s.chan[p], s.kid[p], s.parent[p], s.tpc, s.st, s.parent)
    ensures KidOk(p, s.st[p], s.parent[p], s.tpc, s.st, Pending(s.cpc, s.tpc, s.wl))
    ensures forall r {:trigger s.parent[r]} :: 0 <= r < |s.tpc| && s.parent[r] == p ==> !Disowned(s.tpc[p], r)
    ensures s.parent[p] != p && (p == INIT ==> !Exiting(s.tpc[p]))
  {
    hide Core, Waiters, Births, Pending;
    var up := s.parent[p];
  }

  // -------------------------------------------------------------- scheduler

  lemma FamilySched(s: State, c: nat, k: SchedStep)
    requires Inv(s) && CanSched(s, c, k)
    ensures var t := DoSched(s, c, k);
            Family(t.tpc, t.st, t.parent, t.birth, t.maker) && Births(t.st, t.birth, t.next, t.freed)
  {
    hide Core, Waiters, Sleepers, Family, Births;
    var i := s.cpc[c].i;
    KinFacts(s, i);
    Same(s.tpc, i);
    Same(s.st, i);
    match k
    case Test =>
      if s.st[i] == RUNNABLE {
        FamilyMove(s.tpc, s.st, s.parent, s.birth, s.maker, i, s.tpc[i], RUNNING);
        BirthsStatus(s.st, s.birth, s.next, s.freed, i, RUNNING);
      }
    case SwitchTo =>
      PickedFacts(s, c);
      FamilyMove(s.tpc, s.st, s.parent, s.birth, s.maker, i, Back(s.tpc[i].plan), s.st[i]);
    case _ =>
  }

  lemma PickedFacts(s: State, c: nat)
    requires Inv(s) && c < |s.cpc|
    ensures s.cpc[c].i < |s.tpc|
    ensures s.cpc[c].Picked? ==>
              s.st[s.cpc[c].i] == RUNNING && s.tpc[s.cpc[c].i].Away? && s.tpc[s.cpc[c].i].plan != Dead
    ensures s.cpc[c].Got? && s.st[s.cpc[c].i] == RUNNABLE ==> s.tpc[s.cpc[c].i].Away?
  {
    hide Waiters, Sleepers, Family, Births;
    var was := s.tpc[s.cpc[c].i];
  }

  lemma SleepersSched(s: State, c: nat, k: SchedStep)
    requires Inv(s) && CanSched(s, c, k)
    ensures var t := DoSched(s, c, k); Sleepers(t.cpc, t.tpc, t.st, t.chan, t.parent, t.kid, t.wl)
  {
    hide Core, Waiters, Sleepers, Family, Births;
    var i, t := s.cpc[c].i, DoSched(s, c, k);
    KinFacts(s, i);
    PickedFacts(s, c);
    Same(s.tpc, i);
    Same(s.st, i);
    Same(s.chan, i);
    NotHere(s, c);
    if k.Test? && s.st[i] == RUNNABLE {
      SleepersPlain(s.cpc, s.tpc, s.st, s.chan, s.parent, s.kid, s.wl, t.cpc, t.wl, i, s.tpc[i], RUNNING, s.chan[i]);
    } else if k.SwitchTo? {
      SleepersPlain(s.cpc, s.tpc, s.st, s.chan, s.parent, s.kid, s.wl, t.cpc, t.wl, i, Back(s.tpc[i].plan), s.st[i],
          s.chan[i]);
    } else {
      SleepersCpc(s.cpc, s.tpc, s.st, s.chan, s.parent, s.kid, s.wl, t.cpc);
    }
  }

  lemma NotHere(s: State, c: nat)
    requires Inv(s) && c < |s.cpc| && !s.cpc[c].In?
    ensures s.wl != c
  {
    hide Core, Sleepers, Family, Births;
  }

  lemma SleepersCpc(cpc: seq<Sched>, tpc: seq<Pc>, st: seq<Status>, chan: seq<int>, parent: seq<int>, kid: seq<int>,
      wl: int, cpc': seq<Sched>)
    requires Sleepers(cpc, tpc, st, chan, parent, kid, wl) && (Pending(cpc, tpc, wl) ==> Pending(cpc', tpc, wl))
    ensures Sleepers(cpc', tpc, st, chan, parent, kid, wl)
  {
    hide Pending;
  }

  lemma KeepSched(s: State, c: nat, k: SchedStep)
    requires Inv(s) && CanSched(s, c, k)
    ensures Inv(DoSched(s, c, k))
  {
    FamilySched(s, c, k);
    SleepersSched(s, c, k);
    hide Core, Waiters, Sleepers, Family, Births;
    WaitersSched(s, c, k);
    match k
    case Acquire => CoreSchedAcquire(s, c);
    case Test => CoreSchedTest(s, c);
    case SwitchTo => CoreSchedSwitchTo(s, c);
    case Clear => CoreSchedClear(s, c);
    case Release => CoreSchedRelease(s, c);
  }

  // ---------------------------------------------------------------- threads

  lemma FamilyThread(s: State, c: nat, k: ThreadStep)
    requires Inv(s) && CanThread(s, c, k)
    ensures var t := DoThread(s, c, k);
            Family(t.tpc, t.st, t.parent, t.birth, t.maker) && Births(t.st, t.birth, t.next, t.freed)
  {
    hide Core, Waiters, Sleepers, Family, Births, FamOk, SelfOk, KidOk;
    match k
    case Kick(j) =>
      if s.st[j] == SLEEPING {
        FamilyWake(s.tpc, s.st, s.parent, s.birth, s.maker, j);
        BirthsStatus(s.st, s.birth, s.next, s.freed, j, RUNNABLE);
      }
    case _ =>
      var p, t := s.cpc[c].i, DoThread(s, c, k);
      ThreadFacts(s, c);
      KinFacts(s, p);
      Same(s.st, p);
      FamilyMove(s.tpc, s.st, s.parent, s.birth, s.maker, p, t.tpc[p], t.st[p]);
      BirthsStatus(s.st, s.birth, s.next, s.freed, p, t.st[p]);
  }

  /** A thread that does not hold wait_lock is not the one whose wakeup is pending. */
  lemma NotPending(s: State, c: nat, pc: Pc, cpc': seq<Sched>)
    requires Inv(s) && Running(s, c) && !At(s, c).WakeInit?
    requires |cpc'| == |s.cpc| && forall d {:trigger cpc'[d]} :: 0 <= d < |cpc'| && d != c ==> cpc'[d] == s.cpc[d]
    ensures Pending(s.cpc, s.tpc, s.wl) ==> s.wl != c && Pending(cpc', s.tpc[s.cpc[c].i := pc], s.wl)
  {
    hide Core, Sleepers, Family, Births;
    if Pending(s.cpc, s.tpc, s.wl) {
      assert s.wl != c;
    }
  }

  lemma SleepersThread(s: State, c: nat, k: ThreadStep)
    requires Inv(s) && CanThread(s, c, k)
    ensures var t := DoThread(s, c, k); Sleepers(t.cpc, t.tpc, t.st, t.chan, t.parent, t.kid, t.wl)
  {
    hide Core, Waiters, Sleepers, Family, Births, Pending, FamOk, KidOk;
    match k
    case Kick(j) => if s.st[j] == SLEEPING { SleepersWake(s.cpc, s.tpc, s.st, s.chan, s.parent, s.kid, s.wl, j); }
    case _ =>
      var p, t := s.cpc[c].i, DoThread(s, c, k);
      ThreadFacts(s, c);
      KinFacts(s, p);
      Same(s.st, p);
      Same(s.chan, p);
      NotPending(s, c, t.tpc[p], t.cpc);
      SleepersPlain(s.cpc, s.tpc, s.st, s.chan, s.parent, s.kid, s.wl, t.cpc, t.wl, p, t.tpc[p], t.st[p], t.chan[p]);
  }

  lemma KeepThread(s: State, c: nat, k: ThreadStep)
    requires Inv(s) && CanThread(s, c, k)
    ensures Inv(DoThread(s, c, k))
  {
    FamilyThread(s, c, k);
    SleepersThread(s, c, k);
    hide Core, Waiters, Sleepers, Family, Births;
    WaitersThread(s, c, k);
    CoreThread(s, c, k);
  }

  // ------------------------------------------------------------------- fork

  lemma FamilyFork(s: State, c: nat, k: ForkStep)
    requires Inv(s) && CanFork(s, c, k)
    ensures k.MakeRunnable? ==> s.st[At(s, c).plan.q] == USED
    ensures var t := DoFork(s, c, k);
            Family(t.tpc, t.st, t.parent, t.birth, t.maker) && Births(t.st, t.birth, t.next, t.freed)
  {
    hide Core, Waiters, Sleepers, Family, SelfOk, KidOk;
    var p := s.cpc[c].i;
    ThreadFacts(s, c);
    KinFacts(s, p);
    match k
    case Alloc(q) =>
      SlotFacts(s, q);
      KinFacts(s, q);
      assert s.birth[p] < s.next;
      hide Births;
      FamilyAlloc(s.tpc, s.st, s.parent, s.birth, s.maker, p, q, s.next);
      BirthsAlloc(s.st, s.birth, s.next, s.freed, q);
    case Name =>
      FamilyName(s.tpc, s.st, s.parent, s.birth, s.maker, p, At(s, c).plan.q);
    case MakeRunnable =>
      var q := At(s, c).plan.q;
      SlotFacts(s, q);
      FamilyRun(s.tpc, s.st, s.parent, s.birth, s.maker, p, q);
      BirthsStatus(s.st, s.birth, s.next, s.freed, q, RUNNABLE);
  }

  lemma PendingKept(cpc: seq<Sched>, tpc: seq<Pc>, wl: int, q: nat, pc: Pc)
    requires q < |tpc| && !tpc[q].WakeInit? && Pending(cpc, tpc, wl)
    ensures Pending(cpc, tpc[q := pc], wl)
  {
  }

  /** kfork sets the parent of a slot that has none. */
  lemma SleepersName(cpc: seq<Sched>, tpc: seq<Pc>, st: seq<Status>, chan: seq<int>, parent: seq<int>, kid: seq<int>,
      wl: int, p: nat, q: nat)
    requires Sleepers(cpc, tpc, st, chan, parent, kid, wl) && p < |tpc| && q < |tpc| && Plain(tpc[p]) && parent[q] == -1
    requires st[q] != ZOMBIE && tpc[q] == Off
    ensures Sleepers(cpc, tpc, st, chan, parent[q := p], kid, wl)
  {
    hide Pending;
    var parent' := parent[q := p];
    forall e {:trigger tpc[e]} | 0 <= e < |tpc|
      ensures SelfOk(e, tpc[e], st[e], chan[e], kid[e], parent'[e], tpc, st, parent') {
      assert SelfOk(e, tpc[e], st[e], chan[e], kid[e], parent[e], tpc, st, parent);
    }
  }

  lemma SleepersFork(s: State, c: nat, k: ForkStep)
    requires Inv(s) && CanFork(s, c, k)
    ensures var t := DoFork(s, c, k); Sleepers(t.cpc, t.tpc, t.st, t.chan, t.parent, t.kid, t.wl)
  {
    hide Core, Waiters, Sleepers, Family, Births, Pending, SelfOk, KidOk;
    var p := s.cpc[c].i;
    ThreadFacts(s, c);
    KinFacts(s, p);
    Same(s.st, p);
    Same(s.chan, p);
    match k
    case Alloc(q) =>
      SlotFacts(s, q);
      Same(s.tpc, q);
      Same(s.chan, q);
      SleepersPlain(s.cpc, s.tpc, s.st, s.chan, s.parent, s.kid, s.wl, s.cpc, s.wl, q, Off, USED, s.chan[q]);
      NotPending(s, c, Open(Forking(q)), s.cpc);
      SleepersPlain(s.cpc, s.tpc, s.st[q := USED], s.chan, s.parent, s.kid, s.wl, s.cpc, s.wl, p, Open(Forking(q)),
          s.st[p], s.chan[p]);
      Same(s.st[q := USED], p);
    case Name =>
      var q := At(s, c).plan.q;
      KinFacts(s, q);
      SlotFacts(s, q);
      SleepersName(s.cpc, s.tpc, s.st, s.chan, s.parent, s.kid, s.wl, p, q);
      NotPending(s, c, Open(ForkNamed(q)), s.cpc);
      SleepersPlain(s.cpc, s.tpc, s.st, s.chan, s.parent[q := p], s.kid, s.wl, s.cpc, s.wl, p, Open(ForkNamed(q)),
          s.st[p], s.chan[p]);
    case MakeRunnable =>
      var q := At(s, c).plan.q;
      KinFacts(s, q);
      SlotFacts(s, q);
      Same(s.chan, q);
      NotPending(s, c, Open(Run), s.cpc);
      if Pending(s.cpc, s.tpc[p := Open(Run)], s.wl) { PendingKept(s.cpc, s.tpc[p := Open(Run)], s.wl, q, Away(Run)); }
      SleepersPlain(s.cpc, s.tpc, s.st, s.chan, s.parent, s.kid, s.wl, s.cpc, s.wl, p, Open(Run), s.st[p], s.chan[p]);
      SleepersPlain(s.cpc, s.tpc[p := Open(Run)], s.st, s.chan, s.parent, s.kid, s.wl, s.cpc, s.wl, q, Away(Run),
          RUNNABLE, s.chan[q]);
  }

  lemma KeepFork(s: State, c: nat, k: ForkStep)
    requires Inv(s) && CanFork(s, c, k)
    ensures Inv(DoFork(s, c, k))
  {
    FamilyFork(s, c, k);
    SleepersFork(s, c, k);
    hide Core, Waiters, Sleepers, Family, Births;
    WaitersFork(s, c, k);
    CoreFork(s, c, k);
  }

  // ------------------------------------------------------------------- wait

  predicate Reaps(s: State, c: nat, k: WaitStep) {
    CanWait(s, c, k) && k.ScanOne? && s.parent[At(s, c).i] == s.cproc[c] && s.st[At(s, c).i] == ZOMBIE
  }

  lemma FamilyWait(s: State, c: nat, k: WaitStep)
    requires Inv(s) && CanWait(s, c, k)
    ensures var t := DoWait(s, c, k);
            Family(t.tpc, t.st, t.parent, t.birth, t.maker) && Births(t.st, t.birth, t.next, t.freed)
  {
    hide Core, Waiters, Sleepers, Family, Births, FamOk, SelfOk, KidOk;
    var p, t := s.cpc[c].i, DoWait(s, c, k);
    ThreadFacts(s, c);
    KinFacts(s, p);
    Same(s.st, p);
    if Reaps(s, c, k) {
      var i := At(s, c).i;
      SlotFacts(s, i);
      FamilyReap(s.tpc, s.st, s.parent, s.birth, s.maker, p, i);
      BirthsFree(s.st, s.birth, s.next, s.freed, i);
    } else {
      FamilyMove(s.tpc, s.st, s.parent, s.birth, s.maker, p, t.tpc[p], t.st[p]);
      BirthsStatus(s.st, s.birth, s.next, s.freed, p, t.st[p]);
    }
  }

  lemma KeepWait(s: State, c: nat, k: WaitStep)
    requires Inv(s) && CanWait(s, c, k)
    ensures Inv(DoWait(s, c, k))
  {
    FamilyWait(s, c, k);
    SleepersWait(s, c, k);
    hide Core, Waiters, Sleepers, Family, Births;
    WaitersWait(s, c, k);
    CoreWait(s, c, k);
  }

  /** Whoever holds wait_lock is alone in holding it. */
  lemma Alone(s: State, c: nat)
    requires Inv(s) && Running(s, c) && HoldsWait(At(s, c))
    ensures s.wl == c && forall e {:trigger s.tpc[e]} :: 0 <= e < |s.tpc| && e != s.cpc[c].i ==> !HoldsWait(s.tpc[e])
    ensures !At(s, c).WakeInit? ==> !Pending(s.cpc, s.tpc, s.wl)
  {
    hide Core, Sleepers, Family, Births;
    ThreadFacts(s, c);
    var was := s.tpc[s.cpc[c].i];
  }

  lemma SleepersWait(s: State, c: nat, k: WaitStep)
    requires Inv(s) && CanWait(s, c, k)
    ensures var t := DoWait(s, c, k); Sleepers(t.cpc, t.tpc, t.st, t.chan, t.parent, t.kid, t.wl)
  {
    hide Core, Waiters, Sleepers, Family, Births, Pending, FamOk;
    var p, t := s.cpc[c].i, DoWait(s, c, k);
    ThreadFacts(s, c);
    KinFacts(s, p);
    Same(s.st, p);
    Same(s.chan, p);
    match k
    case WaitStart | WaitSleep =>
      NotPending(s, c, t.tpc[p], s.cpc);
      SleepersPlain(s.cpc, s.tpc, s.st, s.chan, s.parent, s.kid, s.wl, s.cpc, s.wl, p, t.tpc[p], t.st[p], t.chan[p]);
    case CopyFails | NoKids(_) =>
      Alone(s, c);
      SleepersPlain(s.cpc, s.tpc, s.st, s.chan, s.parent, s.kid, s.wl, s.cpc, -1, p, Open(Run), s.st[p], s.chan[p]);
    case WaitAcquire => SleepersScanStart(s, c);
    case ScanOne =>
      if Reaps(s, c, k) {
        SleepersReap(s, c);
      } else {
        SleepersScan(s, c);
      }
    case WaitLock => SleepersLock(s, c);
    case WaitRelease => SleepersRelease(s, c);
  }

  lemma SleepersScanStart(s: State, c: nat)
    requires Inv(s) && CanWait(s, c, WaitAcquire)
    ensures var t := DoWait(s, c, WaitAcquire); Sleepers(t.cpc, t.tpc, t.st, t.chan, t.parent, t.kid, t.wl)
  {
    hide Core, Waiters, Sleepers, Family, Births, FamOk;
    var p := s.cpc[c].i;
    ThreadFacts(s, c);
    KinFacts(s, p);
    Same(s.st, p);
    Same(s.chan, p);
    SleepersStep(s.cpc, s.tpc, s.st, s.chan, s.parent, s.kid, s.wl, s.cpc, c, p, Scan(0, -1), s.st[p], s.chan[p]);
  }

  /** The loop of kwait passes a slot that is not a child, or a child that has not exited. */
  lemma SleepersScan(s: State, c: nat)
    requires Inv(s) && CanWait(s, c, ScanOne) && !Reaps(s, c, ScanOne)
    ensures var t := DoWait(s, c, ScanOne); Sleepers(t.cpc, t.tpc, t.st, t.chan, t.parent, t.kid, t.wl)
  {
    hide Core, Waiters, Family, Births, FamOk, Pending;
    var p, t := s.cpc[c].i, DoWait(s, c, ScanOne);
    ThreadFacts(s, c);
    KinFacts(s, p);
    Alone(s, c);
    Same(s.st, p);
    Same(s.chan, p);
    forall r: nat {:trigger IsKid(s.parent, r, p)} | IsKid(s.parent, r, p)
      ensures KidOk(r, s.st[r], p, t.tpc, s.st, Pending(s.cpc, t.tpc, s.wl))
    {
      assert KidOk(r, s.st[r], s.parent[r], s.tpc, s.st, Pending(s.cpc, s.tpc, s.wl));
    }
    hide Sleepers;
    SleepersStep(s.cpc, s.tpc, s.st, s.chan, s.parent, s.kid, s.wl, s.cpc, s.wl, p, t.tpc[p], s.st[p], s.chan[p]);
  }

  lemma SleepersKid(cpc: seq<Sched>, tpc: seq<Pc>, st: seq<Status>, chan: seq<int>, parent: seq<int>, kid: seq<int>,
      wl: int, p: nat, k: int)
    requires Sleepers(cpc, tpc, st, chan, parent, kid, wl) && p < |tpc| && tpc[p].Scan?
    ensures Sleepers(cpc, tpc, st, chan, parent, kid[p := k], wl)
  {
    hide Pending;
    var kid' := kid[p := k];
    forall e {:trigger tpc[e]} | 0 <= e < |tpc|
      ensures SelfOk(e, tpc[e], st[e], chan[e], kid'[e], parent[e], tpc, st, parent) {
      assert SelfOk(e, tpc[e], st[e], chan[e], kid[e], parent[e], tpc, st, parent);
    }
  }

  lemma SleepersLock(s: State, c: nat)
    requires Inv(s) && CanWait(s, c, WaitLock)
    ensures var t := DoWait(s, c, WaitLock); Sleepers(t.cpc, t.tpc, t.st, t.chan, t.parent, t.kid, t.wl)
  {
    hide Core, Waiters, Family, Births, FamOk, Pending;
    var p, t := s.cpc[c].i, DoWait(s, c, WaitLock);
    ThreadFacts(s, c);
    KinFacts(s, p);
    Alone(s, c);
    Same(s.st, p);
    Same(s.chan, p);
    forall r: nat {:trigger IsKid(s.parent, r, p)} | IsKid(s.parent, r, p)
      ensures KidOk(r, s.st[r], p, t.tpc, s.st, Pending(s.cpc, t.tpc, s.wl))
    {
      assert KidOk(r, s.st[r], s.parent[r], s.tpc, s.st, Pending(s.cpc, s.tpc, s.wl));
    }
    hide Sleepers;
    SleepersKid(s.cpc, s.tpc, s.st, s.chan, s.parent, s.kid, s.wl, p, At(s, c).kid);
    SleepersStep(s.cpc, s.tpc, s.st, s.chan, s.parent, t.kid, s.wl, s.cpc, s.wl, p, WaitLocked, s.st[p], s.chan[p]);
  }

  /** A thread in kwait gives up wait_lock on its way to sleep: it has a child, and none that has exited. */
  lemma SleepersRelease(s: State, c: nat)
    requires Inv(s) && CanWait(s, c, WaitRelease)
    ensures var t := DoWait(s, c, WaitRelease); Sleepers(t.cpc, t.tpc, t.st, t.chan, t.parent, t.kid, t.wl)
  {
    hide Core, Waiters, Family, Births, FamOk, Pending;
    var p, t := s.cpc[c].i, DoWait(s, c, WaitRelease);
    ThreadFacts(s, c);
    KinFacts(s, p);
    Alone(s, c);
    forall r {:trigger s.parent[r]} | 0 <= r < |s.tpc|
      ensures KidOk(r, s.st[r], s.parent[r], t.tpc, s.st, Pending(s.cpc, t.tpc, -1))
    {
      assert KidOk(r, s.st[r], s.parent[r], s.tpc, s.st, Pending(s.cpc, s.tpc, s.wl));
    }
    forall e {:trigger t.tpc[e]} | 0 <= e < |s.tpc|
      ensures SelfOk(e, t.tpc[e], s.st[e], s.chan[e], s.kid[e], s.parent[e], t.tpc, s.st, s.parent)
    {
      assert SelfOk(e, s.tpc[e], s.st[e], s.chan[e], s.kid[e], s.parent[e], s.tpc, s.st, s.parent);
    }
  }

  lemma SleepersUnparent(cpc: seq<Sched>, tpc: seq<Pc>, st: seq<Status>, chan: seq<int>, parent: seq<int>,
      kid: seq<int>, wl: int, i: nat)
    requires Sleepers(cpc, tpc, st, chan, parent, kid, wl) && i < |tpc| && 0 <= parent[i] < |tpc|
             && tpc[parent[i]].Open? && tpc[i] == Off
    ensures Sleepers(cpc, tpc, st, chan, parent[i := -1], kid, wl)
  {
    hide Pending;
    var parent' := parent[i := -1];
    forall e {:trigger tpc[e]} | 0 <= e < |tpc|
      ensures SelfOk(e, tpc[e], st[e], chan[e], kid[e], parent'[e], tpc, st, parent') {
      assert SelfOk(e, tpc[e], st[e], chan[e], kid[e], parent[e], tpc, st, parent);
    }
  }

  lemma SleepersReap(s: State, c: nat)
    requires Inv(s) && CanWait(s, c, ScanOne) && Reaps(s, c, ScanOne)
    ensures var t := DoWait(s, c, ScanOne); Sleepers(t.cpc, t.tpc, t.st, t.chan, t.parent, t.kid, t.wl)
  {
    hide Core, Waiters, Family, Births, FamOk, Pending, Sleepers, SelfOk, KidOk;
    var p, i := s.cpc[c].i, At(s, c).i;
    ThreadFacts(s, c);
    KinFacts(s, p);
    KinFacts(s, i);
    Alone(s, c);
    SlotFacts(s, i);
    Same(s.st, p);
    Same(s.chan, p);
    NoneHeld(s.cpc, s.tpc[p := Open(Run)], -1);
    SleepersPlain(s.cpc, s.tpc, s.st, s.chan, s.parent, s.kid, s.wl, s.cpc, -1, p, Open(Run), s.st[p], s.chan[p]);
    SleepersPlain(s.cpc, s.tpc[p := Open(Run)], s.st, s.chan, s.parent, s.kid, -1, s.cpc, -1, i, Off, UNUSED, 0);
    SleepersUnparent(s.cpc, s.tpc[p := Open(Run)][i := Off], s.st[i := UNUSED], s.chan[i := 0], s.parent, s.kid, -1, i);
  }

  lemma NoneHeld(cpc: seq<Sched>, tpc: seq<Pc>, wl: int)
    requires wl == -1
    ensures !Pending(cpc, tpc, wl)
  {
  }

  // ------------------------------------------------------------------- exit

  lemma FamilyExit(s: State, c: nat, k: ExitStep)
    requires Inv(s) && CanExit(s, c, k)
    ensures var t := DoExit(s, c, k);
            Family(t.tpc, t.st, t.parent, t.birth, t.maker) && Births(t.st, t.birth, t.next, t.freed)
  {
    hide Core, Waiters, Sleepers, Family, Births, FamOk, SelfOk, KidOk;
    var p, t := s.cpc[c].i, DoExit(s, c, k);
    ThreadFacts(s, c);
    KinFacts(s, p);
    Same(s.st, p);
    if k.ReparentOne? && At(s, c).i < |s.tpc| && s.parent[At(s, c).i] == p {
      FamilyGiveStep(s, c);
    } else if (k.WakeInitOne? || k.WakeParentOne?) && At(s, c).j < |s.tpc| && At(s, c).j != p {
      var j := At(s, c).j;
      FamilyMove(s.tpc, s.st, s.parent, s.birth, s.maker, p, t.tpc[p], s.st[p]);
      if s.st[j] == SLEEPING {
        FamilyWake(t.tpc, s.st, s.parent, s.birth, s.maker, j);
        BirthsStatus(s.st, s.birth, s.next, s.freed, j, RUNNABLE);
      }
    } else {
      FamilyMove(s.tpc, s.st, s.parent, s.birth, s.maker, p, t.tpc[p], t.st[p]);
      BirthsStatus(s.st, s.birth, s.next, s.freed, p, t.st[p]);
    }
  }

  lemma FamilyGiveStep(s: State, c: nat)
    requires Inv(s) && CanExit(s, c, ReparentOne) && At(s, c).i < |s.tpc| && s.parent[At(s, c).i] == s.cproc[c]
    ensures var t := DoExit(s, c, ReparentOne);
            Family(t.tpc, t.st, t.parent, t.birth, t.maker) && Births(t.st, t.birth, t.next, t.freed)
  {
    hide Core, Waiters, Sleepers, Family, Births, SelfOk, KidOk;
    var p, i := s.cpc[c].i, At(s, c).i;
    ThreadFacts(s, c);
    KinFacts(s, i);
    KinFacts(s, INIT);
    LiveFacts(s, INIT);
    FirstBorn(s.st, s.birth, s.next, s.freed, i);
    FamilyGive(s.tpc, s.st, s.parent, s.birth, s.maker, p, i);
  }

  lemma LiveFacts(s: State, p: nat)
    requires Inv(s) && p < |s.tpc|
    ensures Live(s.st[p]) ==> !s.tpc[p].Off?
    ensures InWait(s.tpc[p], s.st[p]) && s.lk[p] == -1 ==>
              s.tpc[p] == Away(WaitAcq) && s.st[p] == SLEEPING && s.chan[p] == p
  {
    hide Waiters, Family, Births, Pending;
    var was := s.tpc[p];
  }

  lemma SleepersExit(s: State, c: nat, k: ExitStep)
    requires Inv(s) && CanExit(s, c, k)
    ensures var t := DoExit(s, c, k); Sleepers(t.cpc, t.tpc, t.st, t.chan, t.parent, t.kid, t.wl)
  {
    hide Core, Waiters, Sleepers, Family, Births, Pending, FamOk, SelfOk, KidOk;
    var p, t := s.cpc[c].i, DoExit(s, c, k);
    ThreadFacts(s, c);
    KinFacts(s, p);
    Same(s.st, p);
    Same(s.chan, p);
    match k
    case ExitStart =>
      NotPending(s, c, t.tpc[p], s.cpc);
      SleepersPlain(s.cpc, s.tpc, s.st, s.chan, s.parent, s.kid, s.wl, s.cpc, s.wl, p, t.tpc[p], s.st[p], s.chan[p]);
    case ExitAcquire =>
      NoneHeld(s.cpc, s.tpc, s.wl);
      SleepersPlain(s.cpc, s.tpc, s.st, s.chan, s.parent, s.kid, s.wl, s.cpc, c, p, Reparent(0), s.st[p], s.chan[p]);
    case ReparentOne => SleepersReparent(s, c);
    case WakeInitOne => SleepersWakeInit(s, c);
    case WakeParentOne => SleepersWakeParent(s, c);
    case ExitLock => SleepersExiting(s, c, k);
    case MakeZombie => SleepersExiting(s, c, k);
    case ExitRelease =>
      Alone(s, c);
      SleepersPlain(s.cpc, s.tpc, s.st, s.chan, s.parent, s.kid, s.wl, s.cpc, -1, p, Leave(Dead), s.st[p], s.chan[p]);
  }

  lemma SleepersReparent(s: State, c: nat)
    requires Inv(s) && CanExit(s, c, ReparentOne)
    ensures var t := DoExit(s, c, ReparentOne); Sleepers(t.cpc, t.tpc, t.st, t.chan, t.parent, t.kid, t.wl)
  {
    hide Core, Waiters, Family, Births, Pending, FamOk;
    var p, i, t := s.cpc[c].i, At(s, c).i, DoExit(s, c, ReparentOne);
    ThreadFacts(s, c);
    KinFacts(s, p);
    Alone(s, c);
    Same(s.st, p);
    Same(s.chan, p);
    if i < |s.tpc| && s.parent[i] == p {
      SleepersGive(s, c);
    } else {
      forall r: nat {:trigger IsKid(s.parent, r, p)} | IsKid(s.parent, r, p)
        ensures KidOk(r, s.st[r], p, t.tpc, s.st, Pending(s.cpc, t.tpc, s.wl))
      {
        assert KidOk(r, s.st[r], s.parent[r], s.tpc, s.st, Pending(s.cpc, s.tpc, s.wl));
      }
      hide Sleepers;
      SleepersStep(s.cpc, s.tpc, s.st, s.chan, s.parent, s.kid, s.wl, s.cpc, s.wl, p, t.tpc[p], s.st[p], s.chan[p]);
    }
  }

  /** A child passes to initproc; if it has exited and initproc is asleep, the wakeup is still to come. */
  lemma SleepersGive(s: State, c: nat)
    requires Inv(s) && CanExit(s, c, ReparentOne) && At(s, c).i < |s.tpc| && s.parent[At(s, c).i] == s.cproc[c]
    ensures var t := DoExit(s, c, ReparentOne); Sleepers(t.cpc, t.tpc, t.st, t.chan, t.parent, t.kid, t.wl)
  {
    hide Core, Waiters, Family, Births, FamOk;
    var p, i, t := s.cpc[c].i, At(s, c).i, DoExit(s, c, ReparentOne);
    ThreadFacts(s, c);
    KinFacts(s, p);
    Alone(s, c);
    assert Pending(s.cpc, t.tpc, s.wl);
    hide Pending;
    forall r {:trigger t.parent[r]} | 0 <= r < |s.tpc|
      ensures KidOk(r, s.st[r], t.parent[r], t.tpc, s.st, Pending(s.cpc, t.tpc, s.wl))
    {
      assert KidOk(r, s.st[r], s.parent[r], s.tpc, s.st, Pending(s.cpc, s.tpc, s.wl));
    }
    forall e {:trigger t.tpc[e]} | 0 <= e < |s.tpc|
      ensures SelfOk(e, t.tpc[e], s.st[e], s.chan[e], s.kid[e], t.parent[e], t.tpc, s.st, t.parent)
    {
      assert SelfOk(e, s.tpc[e], s.st[e], s.chan[e], s.kid[e], s.parent[e], s.tpc, s.st, s.parent);
    }
  }

  /** One trip of a wakeup loop on the sleepers. */
  lemma SleepersRouse(cpc: seq<Sched>, tpc: seq<Pc>, st: seq<Status>, chan: seq<int>, parent: seq<int>, kid: seq<int>,
      wl: int, j: nat, ch: int)
    requires Sleepers(cpc, tpc, st, chan, parent, kid, wl) && j < |tpc| == |st| == |chan|
    ensures Sleepers(cpc, tpc, Woken(st, chan, j, ch), chan, parent, kid, wl)
    ensures forall q {:trigger Woken(st, chan, j, ch)[q]} ::
              0 <= q < |st| && InWait(tpc[q], Woken(st, chan, j, ch)[q]) ==> InWait(tpc[q], st[q])
  {
    hide Sleepers;
    if st[j] == SLEEPING && chan[j] == ch {
      SleepersWake(cpc, tpc, st, chan, parent, kid, wl, j);
    }
  }

  lemma SleepersWakeInit(s: State, c: nat)
    requires Inv(s) && CanExit(s, c, WakeInitOne)
    ensures var t := DoExit(s, c, WakeInitOne); Sleepers(t.cpc, t.tpc, t.st, t.chan, t.parent, t.kid, t.wl)
  {
    hide Core, Waiters, Sleepers, Family, Births, FamOk;
    var p, j, t := s.cpc[c].i, At(s, c).j, DoExit(s, c, WakeInitOne);
    ThreadFacts(s, c);
    KinFacts(s, p);
    Alone(s, c);
    LiveFacts(s, INIT);
    if j < |s.tpc| && j != p {
      SleepersRouse(s.cpc, s.tpc, s.st, s.chan, s.parent, s.kid, s.wl, j, INIT);
    }
    assert t.tpc[p].WakeInit? && t.tpc[p].j > INIT ==> !InWait(s.tpc[INIT], t.st[INIT]);
    assert t.tpc[p].Reparent? ==> !InWait(s.tpc[INIT], t.st[INIT]);
    hide Woken, SelfOk, KidOk;
    Same(t.st, p);
    Same(s.chan, p);
    WakerMoves(s.cpc, s.tpc, t.st, s.chan, s.parent, s.kid, s.wl, p, t.tpc[p]);
  }

  lemma WakerMoves(cpc: seq<Sched>, tpc: seq<Pc>, st: seq<Status>, chan: seq<int>, parent: seq<int>, kid: seq<int>,
      wl: int, p: nat, pc: Pc)
    requires Sleepers(cpc, tpc, st, chan, parent, kid, wl) && p < |tpc| && st[p] != ZOMBIE
    requires (tpc[p].WakeInit? || tpc[p].WakeParent?) && (pc.WakeInit? || pc.Reparent? || pc.WakeParent?)
    requires pc.WakeInit? && pc.j > INIT ==> !InWait(tpc[INIT], st[INIT])
    requires pc.WakeParent? && 0 <= parent[p] < |tpc| && parent[p] < pc.j ==> !InWait(tpc[parent[p]], st[parent[p]])
    requires Pending(cpc, tpc, wl) ==> Pending(cpc, tpc[p := pc], wl) || !InWait(tpc[INIT], st[INIT])
    ensures Sleepers(cpc, tpc[p := pc], st, chan, parent, kid, wl)
  {
    hide Pending;
    var tpc' := tpc[p := pc];
    assert SelfOk(p, tpc[p], st[p], chan[p], kid[p], parent[p], tpc, st, parent);
    assert KidOk(p, st[p], parent[p], tpc, st, Pending(cpc, tpc, wl));
    forall r: nat {:trigger IsKid(parent, r, p)} | IsKid(parent, r, p)
      ensures KidOk(r, st[r], p, tpc', st, Pending(cpc, tpc', wl))
    {
      assert KidOk(r, st[r], parent[r], tpc, st, Pending(cpc, tpc, wl));
    }
    Same(st, p);
    Same(chan, p);
    SleepersStep(cpc, tpc, st, chan, parent, kid, wl, cpc, wl, p, pc, st[p], chan[p]);
  }

  lemma SleepersWakeParent(s: State, c: nat)
    requires Inv(s) && CanExit(s, c, WakeParentOne)
    ensures var t := DoExit(s, c, WakeParentOne); Sleepers(t.cpc, t.tpc, t.st, t.chan, t.parent, t.kid, t.wl)
  {
    hide Core, Waiters, Sleepers, Family, Births, FamOk, Pending;
    var p, j, t := s.cpc[c].i, At(s, c).j, DoExit(s, c, WakeParentOne);
    ThreadFacts(s, c);
    KinFacts(s, p);
    Alone(s, c);
    var up := s.parent[p];
    if 0 <= up < |s.tpc| {
      LiveFacts(s, up);
    }
    if j != p {
      SleepersRouse(s.cpc, s.tpc, s.st, s.chan, s.parent, s.kid, s.wl, j, up);
    }
    assert 0 <= up < |s.tpc| && up < j + 1 ==> !InWait(s.tpc[up], t.st[up]);
    hide Woken, SelfOk, KidOk;
    WakerMoves(s.cpc, s.tpc, t.st, s.chan, s.parent, s.kid, s.wl, p, t.tpc[p]);
  }

  /** The last steps of kexit before it gives up wait_lock: the parent is awake, and cannot go to sleep. */
  lemma SleepersExiting(s: State, c: nat, k: ExitStep)
    requires Inv(s) && CanExit(s, c, k) && (k.ExitLock? || k.MakeZombie?)
    ensures var t := DoExit(s, c, k); Sleepers(t.cpc, t.tpc, t.st, t.chan, t.parent, t.kid, t.wl)
  {
    hide Core, Waiters, Sleepers, Family, Births, FamOk, Pending;
    var p, t := s.cpc[c].i, DoExit(s, c, k);
    ThreadFacts(s, c);
    KinFacts(s, p);
    Alone(s, c);
    Same(s.st, p);
    Same(s.chan, p);
    forall r: nat {:trigger IsKid(s.parent, r, p)} ensures !IsKid(s.parent, r, p) {
    }
    SleepersStep(s.cpc, s.tpc, s.st, s.chan, s.parent, s.kid, s.wl, s.cpc, s.wl, p, t.tpc[p], t.st[p], s.chan[p]);
  }

  lemma KeepExit(s: State, c: nat, k: ExitStep)
    requires Inv(s) && CanExit(s, c, k)
    ensures Inv(DoExit(s, c, k))
  {
    FamilyExit(s, c, k);
    SleepersExit(s, c, k);
    hide Core, Waiters, Sleepers, Family, Births;
    WaitersExit(s, c, k);
    CoreExit(s, c, k);
  }

  // ------------------------------------------------------------------- runs

  function Legal(s: State, acts: seq<Action>): bool
    decreases |acts|
  {
    acts == [] || (Enabled(s, acts[0]) && Legal(Do(s, acts[0]), acts[1..]))
  }

  function After(s: State, acts: seq<Action>): State
    requires Legal(s, acts)
    decreases |acts|
  {
    if acts == [] then s else After(Do(s, acts[0]), acts[1..])
  }

  /** ncpu schedulers about to look at the process table, which holds initproc only. */
  function Initial(ncpu: nat, nproc: nat): State
    requires 0 < nproc
  {
    State(seq(ncpu, i => Idle(0)), seq(ncpu, i => -1),
          [Away(Run)] + seq(nproc - 1, i => Off), [RUNNABLE] + seq(nproc - 1, i => UNUSED), seq(nproc, i => 0),
          seq(nproc, i => -1), seq(nproc, i => -1), -1, seq(nproc, i => -1), seq(nproc, i => 0), seq(nproc, i => -1),
              seq(nproc, i => -1), 1, {})
  }

  lemma InitialInv(ncpu: nat, nproc: nat)
    requires 0 < nproc
    ensures Inv(Initial(ncpu, nproc))
  {
    var s := Initial(ncpu, nproc);
    assert Core(s.cpc, s.cproc, s.tpc, s.st, s.lk, s.on);
    assert Waiters(s.cpc, s.tpc, s.on, s.wl);
    assert Family(s.tpc, s.st, s.parent, s.birth, s.maker);
    assert Births(s.st, s.birth, s.next, s.freed);
    assert Sleepers(s.cpc, s.tpc, s.st, s.chan, s.parent, s.kid, s.wl);
  }

  lemma KeepInv(s: State, a: Action)
    requires Inv(s) && Enabled(s, a)
    ensures Inv(Do(s, a))
  {
    hide Inv;
    match a
    case OfSched(c, k) => KeepSched(s, c, k);
    case OfThread(c, t) => KeepThread(s, c, t);
    case OfFork(c, f) => KeepFork(s, c, f);
    case OfWait(c, w) => KeepWait(s, c, w);
    case OfExit(c, e) => KeepExit(s, c, e);
  }

  lemma {:induction false} RunInv(s: State, acts: seq<Action>)
    requires Inv(s) && Legal(s, acts)
    ensures Inv(After(s, acts))
    decreases |acts|
  {
    hide Inv, Enabled, Do;
    if acts != [] {
      KeepInv(s, acts[0]);
      RunInv(Do(s, acts[0]), acts[1..]);
    }
  }

  // --------------------------------------------------------------- theorems

  /** The states of every run on any number of CPUs and process slots. */
  ghost predicate Reachable(s: State) {
    exists ncpu: nat, nproc: nat, acts ::
        0 < nproc && Legal(Initial(ncpu, nproc), acts) && After(Initial(ncpu, nproc), acts) == s
  }

  lemma ReachableInv(s: State)
    requires Reachable(s)
    ensures Inv(s)
  {
    hide Inv, Initial;
    var ncpu: nat, nproc: nat, acts :| 0 < nproc && Legal(Initial(ncpu, nproc), acts)
      && After(Initial(ncpu, nproc), acts) == s;
    InitialInv(ncpu, nproc);
    RunInv(Initial(ncpu, nproc), acts);
  }

  /** No process context is ever loaded on two CPUs. */
  lemma LoadedOnce(s: State, c: nat, d: nat)
    requires Reachable(s) && c < |s.cpc| && d < |s.cpc| && s.cpc[c].In? && s.cpc[d] == s.cpc[c]
    ensures c == d
  {
    ReachableInv(s);
    hide Reachable, Waiters, Family, Births, Sleepers;
  }

  /** Whenever p->lock is free, p is RUNNING exactly when one CPU has c->proc == p, and never do two have it. */
  lemma RunningExactly(s: State, p: nat)
    requires Reachable(s) && p < |s.tpc| == |s.lk| == |s.st| && |s.cproc| == |s.cpc| && s.lk[p] == -1
    ensures s.st[p] == RUNNING <==> exists c :: 0 <= c < |s.cpc| && s.cproc[c] == p
    ensures forall c, d :: 0 <= c < |s.cpc| && 0 <= d < |s.cpc| && s.cproc[c] == p && s.cproc[d] == p ==> c == d
  {
    ReachableInv(s);
    hide Reachable, Waiters, Family, Births, Sleepers;
    var pc := s.tpc[p];
    if s.st[p] == RUNNING {
      var k := s.cpc[s.on[p]];
      assert s.cproc[s.on[p]] == p;
    }
    forall c | 0 <= c < |s.cpc| && s.cproc[c] == p ensures c == s.on[p] && s.st[p] == RUNNING {
      var k := s.cpc[c];
    }
  }

  /** The checks of acquire, release and sched, and the two panics that guard against a thread that should not
      run: whether the next step of CPU c would panic. */
  predicate Panics(s: State, c: nat)
    requires Shape(s) && c < |s.cpc| && s.cpc[c].i < |s.tpc|
  {
    var i := s.cpc[c].i;
    match s.cpc[c]
    case Idle(_) => s.lk[i] == c
    case Rel(_) => s.lk[i] != c
    case In(_) => s.cproc[c] != i || ThreadPanics(s, c, i)
    case _ => false
  }

  predicate ThreadPanics(s: State, c: nat, me: nat)
    requires Shape(s) && me < |s.tpc|
  {
    match s.tpc[me]
    case Off => true
    case Away(_) => true
    case Open(o) => o == Dead || s.lk[me] == c || s.wl == c
    case Locked(_) => s.lk[me] != c
    case Leave(_) => s.lk[me] != c || s.wl == c || s.st[me] == RUNNING
    case Back(o) => s.lk[me] != c || o == Dead
    case Scan(j, _) => s.wl != c || s.lk[me] == c || (j < |s.tpc| && s.parent[j] == me && s.lk[j] == c)
    case WaitLocked => s.wl != c || s.lk[me] != c
    case WaitDrop => s.lk[me] != c || s.wl == c
    case Reparent(_) => s.wl != c || me == INIT
    case WakeInit(_, j) => s.wl != c || (j < |s.tpc| && s.lk[j] == c)
    case WakeParent(j) => s.wl != c || s.lk[me] == c || (j < |s.tpc| && s.lk[j] == c)
    case ExitLocked => s.wl != c || s.lk[me] != c
    case ZombieLocked => s.wl != c || s.lk[me] != c
  }

  /** Each lock is released by the CPU that acquired it, no CPU waits for a lock it holds, sched is entered with
      p->lock as the only lock and p not RUNNING, and no exited thread is resumed. */
  lemma NeverPanics(s: State, c: nat)
    requires Reachable(s) && c < |s.cpc|
    ensures Shape(s) && s.cpc[c].i < |s.tpc| && !Panics(s, c)
  {
    ReachableInv(s);
    hide Reachable, Births, Sleepers, Family;
    CpuFacts(s, c);
    if s.cpc[c].In? {
      var i := s.cpc[c].i;
      ThreadFacts(s, c);
      HolderFacts(s, c);
      KinFacts(s, i);
      hide Core, Waiters, FamOk, SelfOk, KidOk, Inv;
      OnlyOwn(s, c);
    }
  }

  lemma CpuFacts(s: State, c: nat)
    requires Inv(s) && c < |s.cpc|
    ensures CpuOk(c, s.cpc[c], s.cproc[c], s.tpc, s.st, s.lk, s.on)
    ensures s.cpc[c].Idle? ==> s.lk[s.cpc[c].i] != c
  {
    hide Waiters, Births, Sleepers, Family;
    var was := s.tpc[s.cpc[c].i];
  }

  /** A CPU on which a thread is loaded holds no p->lock but that thread's. */
  lemma OnlyOwn(s: State, c: nat)
    requires Inv(s) && Running(s, c)
    ensures forall j {:trigger s.lk[j]} :: 0 <= j < |s.tpc| && j != s.cpc[c].i ==> s.lk[j] != c
  {
    hide Waiters, Births, Sleepers, Family;
    forall j {:trigger s.lk[j]} | 0 <= j < |s.tpc| && j != s.cpc[c].i ensures s.lk[j] != c {
      var was := s.tpc[j];
    }
  }

  /** Whenever wait_lock is free, a process asleep in kwait has a child, and none that has exited. */
  lemma NoLostWakeup(s: State, q: nat)
    requires Reachable(s) && q < |s.tpc| == |s.st| && s.wl == -1 && InWait(s.tpc[q], s.st[q])
    ensures exists r :: IsKid(s.parent, r, q)
    ensures forall r {:trigger s.st[r]} :: IsKid(s.parent, r, q) && r < |s.st| ==> s.st[r] != ZOMBIE
  {
    ReachableInv(s);
    hide Reachable, Core, Waiters, Births, Family;
    KinFacts(s, q);
    assert IsKid(s.parent, s.kid[q], q);
    forall r {:trigger s.st[r]} | IsKid(s.parent, r, q) && r < |s.st| ensures s.st[r] != ZOMBIE {
      assert KidOk(r, s.st[r], s.parent[r], s.tpc, s.st, Pending(s.cpc, s.tpc, s.wl));
    }
  }

  /** A zombie is freed at most once, by its parent, and only when its context is saved and no CPU is on its stack. */
  lemma FreedOnce(s: State, c: nat)
    requires Reachable(s) && Reaps(s, c, ScanOne)
    ensures var i := At(s, c).i;
            && s.birth[i] !in s.freed && s.birth[i] in DoWait(s, c, ScanOne).freed
            && s.tpc[i] == Away(Dead) && (forall d :: 0 <= d < |s.cpc| ==> s.cpc[d] != In(i))
  {
    ReachableInv(s);
    var i := At(s, c).i;
    SlotFacts(s, i);
    hide Reachable, Waiters, Sleepers, Family;
    forall d | 0 <= d < |s.cpc| ensures s.cpc[d] != In(i) {
      var k := s.cpc[d];
    }
    var b := s.birth[i];
  }

  // ------------------------------------------------------------- ancestry

  /** The ancestor k generations up, -1 if there is none. */
  function Up(parent: seq<int>, p: int, k: nat): int {
    if k == 0 then p
    else var q := Up(parent, p, k - 1); if 0 <= q < |parent| then parent[q] else -1
  }

  lemma {:induction false} UpShift(parent: seq<int>, p: int, k: nat)
    requires 0 <= p < |parent|
    ensures Up(parent, parent[p], k) == Up(parent, p, k + 1)
  {
    if k > 0 {
      UpShift(parent, p, k - 1);
    }
  }

  /** Ancestors are alive and strictly older. */
  lemma {:induction false} Older(s: State, p: nat, k: nat)
    requires Inv(s) && p < |s.tpc| && Live(s.st[p])
    ensures var q := Up(s.parent, p, k);
            q == -1 || (0 <= q < |s.tpc| && Live(s.st[q]) && s.birth[q] + k <= s.birth[p]
              && (k > 0 ==> s.st[q] != ZOMBIE))
  {
    hide Core, Waiters, Sleepers, Family, Births;
    if k > 0 {
      Older(s, p, k - 1);
      var q := Up(s.parent, p, k - 1);
      if 0 <= q < |s.tpc| && s.parent[q] != -1 {
        ParentFacts(s, q);
      }
    }
  }

  lemma ParentFacts(s: State, p: nat)
    requires Inv(s) && p < |s.tpc| && s.parent[p] != -1
    ensures 0 <= s.parent[p] < |s.tpc| && Live(s.st[s.parent[p]]) && s.st[s.parent[p]] != ZOMBIE
            && s.birth[s.parent[p]] < s.birth[p]
  {
    KinFacts(s, p);
    hide Waiters, Births, Sleepers, Family;
    var pc := s.tpc[s.parent[p]];
  }

  /** Every live process's chain of parents is without cycles and ends at initproc. */
  lemma {:induction false} Ancestry(s: State, p: nat)
    requires Reachable(s) && p < |s.tpc| == |s.st| && Live(s.st[p])
    ensures exists k :: 0 <= k && Up(s.parent, p, k) == INIT
    ensures forall k: nat :: k > 0 ==> Up(s.parent, p, k) != p
  {
    ReachableInv(s);
    hide Reachable, Inv;
    var k := ToInit(s, p);
    assert Up(s.parent, p, k) == INIT;
    forall k: nat | k > 0 ensures Up(s.parent, p, k) != p {
      Older(s, p, k);
    }
  }

  lemma {:induction false} ToInit(s: State, p: nat) returns (k: nat)
    requires Inv(s) && p < |s.tpc| && Live(s.st[p])
    ensures Up(s.parent, p, k) == INIT
    decreases s.birth[p]
  {
    hide Core, Waiters, Sleepers, Family, Births;
    if p == INIT {
      k := 0;
    } else {
      KinFacts(s, p);
      ParentFacts(s, p);
      k := ToInit(s, s.parent[p]);
      UpShift(s.parent, p, k);
      k := k + 1;
    }
  }
}
