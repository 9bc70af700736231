/** The parts of the process protocol's invariant that concern wait_lock, parents and children, sleepers
    in kwait and the freeing of zombies. */
module ProcFamily {
  import opened ProcMachine

  // ----------------------------------------------------------- wait_lock

  ghost predicate Waiters(cpc: seq<Sched>, tpc: seq<Pc>, on: seq<int>, wl: int) {
    && |on| == |tpc|
    && (wl == -1 || (0 <= wl < |cpc| && cpc[wl].In? && cpc[wl].i < |tpc| && HoldsWait(tpc[cpc[wl].i])))
    && (forall p {:trigger tpc[p]} :: 0 <= p < |tpc| && HoldsWait(tpc[p]) ==> wl != -1 && on[p] == wl && cpc[wl].i == p)
  }

  /** Thread p, on CPU c, moves on; it may take or give up wait_lock. */
  lemma WaitersMove(cpc: seq<Sched>, tpc: seq<Pc>, on: seq<int>, wl: int, c: nat, pc: Pc, wl': int)
    requires Waiters(cpc, tpc, on, wl) && c < |cpc| && cpc[c].In? && cpc[c].i < |tpc| && on[cpc[c].i] == c
    requires if HoldsWait(pc) then wl' == c && (wl == -1 || HoldsWait(tpc[cpc[c].i]))
             else wl' == if HoldsWait(tpc[cpc[c].i]) then -1 else wl
    ensures Waiters(cpc, tpc[cpc[c].i := pc], on, wl')
  {
    hide HoldsWait;
    var p := cpc[c].i;
    var was := tpc[p];
  }

  lemma WaitersSlot(cpc: seq<Sched>, tpc: seq<Pc>, on: seq<int>, wl: int, q: nat, pc: Pc)
    requires Waiters(cpc, tpc, on, wl) && q < |tpc| && !HoldsWait(tpc[q]) && !HoldsWait(pc)
    ensures Waiters(cpc, tpc[q := pc], on, wl)
  {
    hide HoldsWait;
  }

  lemma WaitersSched(s: State, c: nat, k: SchedStep)
    requires Core(s.cpc, s.cproc, s.tpc, s.st, s.lk, s.on) && Waiters(s.cpc, s.tpc, s.on, s.wl) && CanSched(s, c, k)
    ensures var t := DoSched(s, c, k); Waiters(t.cpc, t.tpc, t.on, t.wl)
  {
    hide Core;
  }

  lemma WaitersThread(s: State, c: nat, k: ThreadStep)
    requires Core(s.cpc, s.cproc, s.tpc, s.st, s.lk, s.on) && Waiters(s.cpc, s.tpc, s.on, s.wl) && CanThread(s, c, k)
    ensures var t := DoThread(s, c, k); Waiters(t.cpc, t.tpc, t.on, t.wl)
  {
    hide Core;
    match k
    case Kick(j) =>
    case SwitchAway =>
    case _ =>
      hide Waiters;
      ThreadFacts(s, c);
      WaitersMove(s.cpc, s.tpc, s.on, s.wl, c, DoThread(s, c, k).tpc[s.cpc[c].i], s.wl);
  }

  lemma WaitersFork(s: State, c: nat, k: ForkStep)
    requires Core(s.cpc, s.cproc, s.tpc, s.st, s.lk, s.on) && Waiters(s.cpc, s.tpc, s.on, s.wl) && CanFork(s, c, k)
    requires k.MakeRunnable? ==> s.st[At(s, c).plan.q] == USED
    ensures var t := DoFork(s, c, k); Waiters(t.cpc, t.tpc, t.on, t.wl)
  {
    hide Core, Waiters;
    ThreadFacts(s, c);
    var p := s.cpc[c].i;
    WaitersMove(s.cpc, s.tpc, s.on, s.wl, c, DoFork(s, c, k).tpc[p], s.wl);
    if k.MakeRunnable? {
      SlotFacts(s, At(s, c).plan.q);
      WaitersSlot(s.cpc, s.tpc[p := Open(Run)], s.on, s.wl, At(s, c).plan.q, Away(Run));
    }
  }

  lemma WaitersWait(s: State, c: nat, k: WaitStep)
    requires Core(s.cpc, s.cproc, s.tpc, s.st, s.lk, s.on) && Waiters(s.cpc, s.tpc, s.on, s.wl) && CanWait(s, c, k)
    ensures var t := DoWait(s, c, k); Waiters(t.cpc, t.tpc, t.on, t.wl)
  {
    hide Core, Waiters;
    ThreadFacts(s, c);
    HolderFacts(s, c);
    var p, t := s.cpc[c].i, DoWait(s, c, k);
    if k.ScanOne? && s.parent[At(s, c).i] == p && s.st[At(s, c).i] == ZOMBIE {
      var i := At(s, c).i;
      SlotFacts(s, i);
      WaitersMove(s.cpc, s.tpc, s.on, s.wl, c, Open(Run), -1);
      WaitersSlot(s.cpc, s.tpc[p := Open(Run)], s.on, -1, i, Off);
    } else {
      WaitersMove(s.cpc, s.tpc, s.on, s.wl, c, t.tpc[p], t.wl);
    }
  }

  lemma WaitersExit(s: State, c: nat, k: ExitStep)
    requires Core(s.cpc, s.cproc, s.tpc, s.st, s.lk, s.on) && Waiters(s.cpc, s.tpc, s.on, s.wl) && CanExit(s, c, k)
    ensures var t := DoExit(s, c, k); Waiters(t.cpc, t.tpc, t.on, t.wl)
  {
    hide Core, Waiters;
    ThreadFacts(s, c);
    HolderFacts(s, c);
    var t := DoExit(s, c, k);
    WaitersMove(s.cpc, s.tpc, s.on, s.wl, c, t.tpc[s.cpc[c].i], t.wl);
  }

  lemma HolderFacts(s: State, c: nat)
    requires Core(s.cpc, s.cproc, s.tpc, s.st, s.lk, s.on) && Waiters(s.cpc, s.tpc, s.on, s.wl) && Running(s, c)
    ensures HoldsWait(At(s, c)) <==> s.wl == c
  {
    hide Core;
    ThreadFacts(s, c);
    var was := s.tpc[s.cpc[c].i];
  }

  // ------------------------------------------------------ parents and children

  /** The slot a thread is forking into, with the parent it has set for it. */
  function MakingOf(pc: Pc): Plan {
    if (pc.Open? || pc.Locked? || pc.Leave? || pc.Away? || pc.Back?)
      && (pc.plan.Forking? || pc.plan.ForkNamed?) then pc.plan else Run
  }

  ghost predicate FamOk(p: nat, pc: Pc, x: Status, q: int, f: int, tpc: seq<Pc>, birth: seq<nat>, maker: seq<int>)
    requires p < |tpc| == |birth| == |maker|
  {
    && (q == -1 || (0 <= q < |tpc| && birth[q] < birth[p] && !Disowned(tpc[q], p)))
    && (x == UNUSED ==> q == -1)
    && (Live(x) && p != INIT ==> q != -1)
    && (p == INIT ==> q == -1 && Live(x) && !Exiting(pc))
    && (x == USED <==> f != -1)
    && (f != -1 ==>
         0 <= f < |tpc| && birth[f] < birth[p] && MakingOf(tpc[f]) == if q == -1 then Forking(p) else ForkNamed(p))
    && (f != -1 && q != -1 ==> q == f)
    && (MakingOf(pc).Forking? || MakingOf(pc).ForkNamed? ==> MakingOf(pc).q < |tpc| && maker[MakingOf(pc).q] == p)
  }

  ghost predicate Family(tpc: seq<Pc>, st: seq<Status>, parent: seq<int>, birth: seq<nat>, maker: seq<int>) {
    && 0 < |tpc| == |st| == |parent| == |birth| == |maker|
    && forall p {:trigger parent[p]} :: 0 <= p < |tpc| ==>
         FamOk(p, tpc[p], st[p], parent[p], maker[p], tpc, birth, maker)
  }

  /** Thread p moves on without changing its part in any family. */
  lemma FamilyMove(tpc: seq<Pc>, st: seq<Status>, parent: seq<int>, birth: seq<nat>, maker: seq<int>, p: nat, pc: Pc,
      x: Status)
    requires Family(tpc, st, parent, birth, maker) && p < |tpc| && Live(st[p]) && Live(x)
    requires MakingOf(pc) == MakingOf(tpc[p]) && (p == INIT ==> !Exiting(pc))
    requires forall r {:trigger parent[r]} :: 0 <= r < |tpc| && parent[r] == p ==> !Disowned(pc, r)
    ensures Family(tpc[p := pc], st[p := x], parent, birth, maker)
  {
    hide Disowned, Exiting, MakingOf;
    var was := parent[p];
  }

  lemma FamilyWake(tpc: seq<Pc>, st: seq<Status>, parent: seq<int>, birth: seq<nat>, maker: seq<int>, j: nat)
    requires Family(tpc, st, parent, birth, maker) && j < |tpc| && Live(st[j])
    ensures Family(tpc, st[j := RUNNABLE], parent, birth, maker)
  {
    hide Disowned, Exiting, MakingOf;
    var was := parent[j];
  }

  /** kfork: p allocates slot q. */
  lemma FamilyAlloc(tpc: seq<Pc>, st: seq<Status>, parent: seq<int>, birth: seq<nat>, maker: seq<int>, p: nat, q: nat,
      b: nat)
    requires Family(tpc, st, parent, birth, maker) && p < |tpc| && q < |tpc| && tpc[p] == Open(Run) && Live(st[p])
    requires st[q] == UNUSED && tpc[q] == Off && birth[p] < b
    ensures Family(tpc[p := Open(Forking(q))], st[q := USED], parent, birth[q := b], maker[q := p])
  {
    var was := parent[p];
    var slot := parent[q];
  }

  lemma FamilyName(tpc: seq<Pc>, st: seq<Status>, parent: seq<int>, birth: seq<nat>, maker: seq<int>, p: nat, q: nat)
    requires Family(tpc, st, parent, birth, maker) && p < |tpc| && q < |tpc| && tpc[p] == Open(Forking(q))
             && Live(st[p])
    ensures st[q] == USED && q != INIT && Family(tpc[p := Open(ForkNamed(q))], st, parent[q := p], birth, maker)
  {
    var was := parent[p];
    var slot := parent[q];
  }

  lemma FamilyRun(tpc: seq<Pc>, st: seq<Status>, parent: seq<int>, birth: seq<nat>, maker: seq<int>, p: nat, q: nat)
    requires Family(tpc, st, parent, birth, maker) && p < |tpc| && q < |tpc| && tpc[p] == Open(ForkNamed(q))
             && Live(st[p])
    requires st[q] == USED ==> tpc[q] == Off
    ensures st[q] == USED
            && Family(tpc[p := Open(Run)][q := Away(Run)], st[q := RUNNABLE], parent, birth, maker[q := -1])
  {
    var was := parent[p];
    var slot := parent[q];
  }

  lemma FamilyReap(tpc: seq<Pc>, st: seq<Status>, parent: seq<int>, birth: seq<nat>, maker: seq<int>, p: nat, i: nat)
    requires Family(tpc, st, parent, birth, maker) && p < |tpc| && i < |tpc| && tpc[p].Scan? && Live(st[p])
    requires st[i] == ZOMBIE && tpc[i] == Away(Dead) && parent[i] == p
    ensures Family(tpc[p := Open(Run)][i := Off], st[i := UNUSED], parent[i := -1], birth, maker)
  {
    var was := parent[p];
    var slot := parent[i];
  }

  lemma FamilyGive(tpc: seq<Pc>, st: seq<Status>, parent: seq<int>, birth: seq<nat>, maker: seq<int>, p: nat, i: nat)
    requires Family(tpc, st, parent, birth, maker) && p < |tpc| && i < |tpc| && tpc[p] == Reparent(i) && Live(st[p])
    requires parent[i] == p && birth[INIT] < birth[i] && !tpc[INIT].Off?
    ensures Family(tpc[p := WakeInit(i, 0)], st, parent[i := INIT], birth, maker)
  {
    var was := parent[p];
    var slot := parent[i];
    var first := parent[INIT];
  }

  // ----------------------------------------------------------------- births

  ghost predicate Births(st: seq<Status>, birth: seq<nat>, next: nat, freed: set<nat>) {
    && 0 < |birth| == |st| && birth[INIT] == 0
    && (forall p {:trigger birth[p]} :: 0 <= p < |st| && st[p] != UNUSED ==> birth[p] < next && birth[p] !in freed)
    && (forall p, q {:trigger birth[p], birth[q]} ::
         0 <= p < q < |st| && st[p] != UNUSED && st[q] != UNUSED ==> birth[p] != birth[q])
    && (forall b :: b in freed ==> b < next)
  }

  lemma BirthsStatus(st: seq<Status>, birth: seq<nat>, next: nat, freed: set<nat>, p: nat, x: Status)
    requires Births(st, birth, next, freed) && p < |st| && st[p] != UNUSED && x != UNUSED
    ensures Births(st[p := x], birth, next, freed)
  {
  }

  lemma BirthsAlloc(st: seq<Status>, birth: seq<nat>, next: nat, freed: set<nat>, q: nat)
    requires Births(st, birth, next, freed) && q < |st| && st[q] == UNUSED && q != INIT
    ensures Births(st[q := USED], birth[q := next], next + 1, freed)
  {
  }

  lemma BirthsFree(st: seq<Status>, birth: seq<nat>, next: nat, freed: set<nat>, i: nat)
    requires Births(st, birth, next, freed) && i < |st| && st[i] != UNUSED
    ensures Births(st[i := UNUSED], birth, next, freed + {birth[i]}) && birth[i] !in freed
  {
  }

  lemma FirstBorn(st: seq<Status>, birth: seq<nat>, next: nat, freed: set<nat>, i: nat)
    requires Births(st, birth, next, freed) && i < |st| && i != INIT && st[i] != UNUSED && st[INIT] != UNUSED
    ensures birth[INIT] < birth[i]
  {
  }

  // --------------------------------------------------------------- sleepers

  /** A wakeup(initproc) that has not reached initproc yet is under way. */
  predicate Pending(cpc: seq<Sched>, tpc: seq<Pc>, wl: int) {
    0 <= wl < |cpc| && cpc[wl].i < |tpc| && tpc[cpc[wl].i].WakeInit? && tpc[cpc[wl].i].j <= INIT
  }

  /** A child r that has exited is still to be seen by its parent. */
  ghost predicate KidOk(r: nat, x: Status, q: int, tpc: seq<Pc>, st: seq<Status>, pending: bool)
    requires |tpc| == |st|
  {
    0 <= q < |tpc| ==>
      && (x == ZOMBIE ==>
            && (InWait(tpc[q], st[q]) ==> q == INIT && pending)
            && !tpc[q].WaitLocked? && (tpc[q].Scan? ==> tpc[q].i <= r))
      && (tpc[q].Scan? && r < tpc[q].i ==> tpc[q].kid != -1)
  }

  predicate IsKid(parent: seq<int>, r: int, q: int) {
    0 <= r < |parent| && parent[r] == q
  }

  ghost predicate SelfOk(q: nat, pc: Pc, x: Status, ch: int, kid: int, up: int, tpc: seq<Pc>, st: seq<Status>,
      parent: seq<int>)
    requires 0 < |tpc| == |st|
  {
    && ((pc == Leave(WaitAcq) || pc == Away(WaitAcq)) && x == SLEEPING ==> ch == q)
    && (InWait(pc, x) || pc.WaitLocked? ==> IsKid(parent, kid, q))
    && (pc.Scan? && pc.kid != -1 ==> IsKid(parent, pc.kid, q))
    && (((pc.WakeParent? && up < pc.j) || pc.ExitLocked? || pc.ZombieLocked?) && 0 <= up < |tpc| ==>
         !InWait(tpc[up], st[up]))
    && (pc.WakeInit? && pc.j > INIT ==> !InWait(tpc[INIT], st[INIT]))
  }

  ghost predicate Sleepers(cpc: seq<Sched>, tpc: seq<Pc>, st: seq<Status>, chan: seq<int>, parent: seq<int>,
      kid: seq<int>, wl: int) {
    && 0 < |tpc| == |st| == |chan| == |parent| == |kid|
    && (forall r {:trigger parent[r]} :: 0 <= r < |tpc| ==> KidOk(r, st[r], parent[r], tpc, st, Pending(cpc, tpc, wl)))
    && (forall q {:trigger chan[q]} ::
         0 <= q < |tpc| ==> SelfOk(q, tpc[q], st[q], chan[q], kid[q], parent[q], tpc, st, parent))
  }

  /** Thread p moves on: what has to be checked is its own part and that of its children and its parent. */
  lemma SleepersStep(cpc: seq<Sched>, tpc: seq<Pc>, st: seq<Status>, chan: seq<int>, parent: seq<int>, kid: seq<int>,
      wl: int,
                     cpc': seq<Sched>, wl': int, p: nat, pc: Pc, x: Status, ch: int)
    requires Sleepers(cpc, tpc, st, chan, parent, kid, wl) && p < |tpc|
    requires InWait(pc, x) ==> InWait(tpc[p], st[p])
    requires var tpc', st' := tpc[p := pc], st[p := x];
             && (Pending(cpc, tpc, wl) ==> Pending(cpc', tpc', wl') || !InWait(tpc'[INIT], st'[INIT]))
             && KidOk(p, x, parent[p], tpc', st', Pending(cpc', tpc', wl'))
             && SelfOk(p, pc, x, ch, kid[p], parent[p], tpc', st', parent)
             && (forall r: nat {:trigger IsKid(parent, r, p)} ::
                  IsKid(parent, r, p) ==> KidOk(r, st'[r], p, tpc', st', Pending(cpc', tpc', wl')))
    ensures Sleepers(cpc', tpc[p := pc], st[p := x], chan[p := ch], parent, kid, wl')
  {
    hide Pending;
    var tpc', st', chan' := tpc[p := pc], st[p := x], chan[p := ch];
    forall r {:trigger parent[r]} | 0 <= r < |tpc|
      ensures KidOk(r, st'[r], parent[r], tpc', st', Pending(cpc', tpc', wl')) {
      if parent[r] == p {
        assert IsKid(parent, r, p);
      }
    }
    forall q {:trigger tpc'[q]} | 0 <= q < |tpc|
      ensures SelfOk(q, tpc'[q], st'[q], chan'[q], kid[q], parent[q], tpc', st', parent) {
      assert q != p ==> SelfOk(q, tpc[q], st[q], chan[q], kid[q], parent[q], tpc, st, parent);
    }
  }

  /** The usual case: the thread is not on its way into or out of kwait or kexit. */
  predicate Plain(pc: Pc) {
    !pc.Scan? && !pc.WaitLocked? && !pc.WakeInit? && !pc.WakeParent? && !pc.ExitLocked? && !pc.ZombieLocked?
  }

  lemma SleepersPlain(cpc: seq<Sched>, tpc: seq<Pc>, st: seq<Status>, chan: seq<int>, parent: seq<int>, kid: seq<int>,
      wl: int,
                      cpc': seq<Sched>, wl': int, p: nat, pc: Pc, x: Status, ch: int)
    requires Sleepers(cpc, tpc, st, chan, parent, kid, wl) && p < |tpc|
    requires Plain(pc) && (InWait(pc, x) ==> InWait(tpc[p], st[p])) && (x == ZOMBIE ==> st[p] == ZOMBIE)
    requires (pc == Leave(WaitAcq) || pc == Away(WaitAcq)) && x == SLEEPING ==> ch == p
    requires Pending(cpc, tpc, wl) ==> Pending(cpc', tpc[p := pc], wl') || !InWait(tpc[p := pc][INIT], st[p := x][INIT])
    requires x == ZOMBIE ==> parent[p] != p
    ensures Sleepers(cpc', tpc[p := pc], st[p := x], chan[p := ch], parent, kid, wl')
  {
    hide Pending;
    var tpc', st' := tpc[p := pc], st[p := x];
    assert SelfOk(p, tpc[p], st[p], chan[p], kid[p], parent[p], tpc, st, parent);
    assert KidOk(p, st[p], parent[p], tpc, st, Pending(cpc, tpc, wl));
    forall r: nat {:trigger IsKid(parent, r, p)} | IsKid(parent, r, p)
      ensures KidOk(r, st'[r], p, tpc', st', Pending(cpc', tpc', wl'))
    {
      assert KidOk(r, st[r], parent[r], tpc, st, Pending(cpc, tpc, wl));
    }
    SleepersStep(cpc, tpc, st, chan, parent, kid, wl, cpc', wl', p, pc, x, ch);
  }

  lemma SleepersWake(cpc: seq<Sched>, tpc: seq<Pc>, st: seq<Status>, chan: seq<int>, parent: seq<int>, kid: seq<int>,
      wl: int, j: nat)
    requires Sleepers(cpc, tpc, st, chan, parent, kid, wl) && j < |tpc| && st[j] == SLEEPING
    ensures Sleepers(cpc, tpc, st[j := RUNNABLE], chan, parent, kid, wl)
  {
    hide Pending;
    var st' := st[j := RUNNABLE];
    forall q {:trigger tpc[q]} | 0 <= q < |tpc|
      ensures SelfOk(q, tpc[q], st'[q], chan[q], kid[q], parent[q], tpc, st', parent) {
      assert SelfOk(q, tpc[q], st[q], chan[q], kid[q], parent[q], tpc, st, parent);
    }
  }
}
