/** What the steps of the process table do to each process, and what a run's events say about its last state. */
module ProcCalls {
  import opened Common
  import opened Procs

  /** The process that runs on CPU c. */
  function Running(s: State, c: nat): (i: nat)
    requires OnCpu(s, c)
    ensures i < |s.procs|
  {
    s.cpus[c].value
  }

  // ---- kill ----

  /** kill marks the first slot that has the pid, and a process that was asleep there is so no longer. */
  lemma KillIs(s: State, pid: nat, t: State, i: nat)
    requires Next(s, Kill(pid)) == Some(t) && i < |s.procs| && s.procs[i].pid == pid
    requires forall k :: 0 <= k < i ==> s.procs[k].pid != pid
    ensures |t.procs| == |s.procs| && t.procs[i].killed && t.procs[i].status != Sleeping
    ensures t.procs[i].status == if s.procs[i].status == Sleeping then Runnable else s.procs[i].status
    ensures t.procs[i] == s.procs[i].(killed := true, status := t.procs[i].status)
    ensures t == s.(procs := s.procs[i := t.procs[i]])
  {
    assert FirstPid(s.procs, pid, 0) == i;
  }

  /** kill of a pid that no slot has changes nothing. */
  lemma KillMisses(s: State, pid: nat, t: State)
    requires Next(s, Kill(pid)) == Some(t) && forall k :: 0 <= k < |s.procs| ==> s.procs[k].pid != pid
    ensures t == s
  {
  }

  /** Whether slot i is marked killed after event e. */
  ghost predicate MarkedAfter(s: State, e: Event, t: State, i: nat, was: bool) {
    if e.Kill? then was || (FirstPid(s.procs, e.pid, 0) == i && i < |s.procs|)
    else was && !(i < |s.procs| == |t.procs| && s.procs[i].status == Zombie && t.procs[i].status == Unused)
  }

  /** Whether slot i is marked after a run: a kill marks it, and only reaping clears it. */
  ghost predicate Marked(s: State, es: seq<Event>, i: nat, was: bool)
    decreases |es|
  {
    if es == [] || Next(s, es[0]).None? then was
    else
      var t := Next(s, es[0]).value;
      Marked(t, es[1..], i, MarkedAfter(s, es[0], t, i, was))
  }

  lemma WaitMarks(s: State, c: nat, p: nat, i: nat)
    requires c < |s.cpus| && p < |s.procs| && i < |s.procs| && s.procs[p].status == Procs.Running
    ensures var t := WaitTurn(s, c, p);
      && |t.procs| == |s.procs|
      && t.procs[i].killed == (s.procs[i].killed && !(s.procs[i].status == Zombie && t.procs[i].status == Unused))
  {
  }

  lemma MarkStep(s: State, e: Event, t: State, i: nat)
    requires Inv(s) && Next(s, e) == Some(t) && i < |s.procs|
    ensures |t.procs| == |s.procs| && t.procs[i].killed == MarkedAfter(s, e, t, i, s.procs[i].killed)
  {
    hide PidsOk, WaitTurn, ExitTurn;
    match e
    case Dispatch(c, p) =>
      var u := s.(procs := s.procs[p := Dispatched(s.procs[p], c)], cpus := s.cpus[c := Some(p)]);
      if s.procs[p].task == Waiting { WaitMarks(u, c, p, i); }
    case Wait(c) =>
      assert CpuOk(s, c);
      WaitMarks(s, c, Running(s, c), i);
    case Exit(c) =>
      assert CpuOk(s, c);
      hide Core;
      ExitIs(s, c, Running(s, c));
    case ForkFail(c) =>
      assert CpuOk(s, c) && TaskOk(s, Running(s, c));
    case _ =>
  }

  /** On every run, a slot is marked exactly if a kill found it and it has not been reaped since. */
  lemma {:induction false} KilledExactly(s: State, es: seq<Event>, t: State, i: nat)
    requires Inv(s) && Run(s, es, t) && i < |s.procs|
    ensures |t.procs| == |s.procs| && t.procs[i].killed == Marked(s, es, i, s.procs[i].killed)
    decreases |es|
  {
    hide Inv, Next;
    if es != [] {
      var u := Next(s, es[0]).value;
      MarkStep(s, es[0], u, i);
      StepInv(s, es[0], u);
      KilledExactly(u, es[1..], t, i);
    }
  }

  lemma StepInv(s: State, e: Event, t: State)
    requires Inv(s) && Next(s, e) == Some(t)
    ensures Inv(t)
  {
    hide Core, PidsOk, Next;
    StepCore(s, e, t);
    StepPids(s, e, t);
  }

  // ---- a killed process does not sleep in wait ----

  ghost predicate WaitersLive(s: State) {
    forall p: nat {:trigger InWait(s, p)} :: InWait(s, p) ==> !s.procs[p].killed
  }

  lemma WaitTurnLive(s: State, c: nat, p: nat)
    requires WaitersLive(s) && c < |s.cpus| && p < |s.procs| && s.procs[p].status == Procs.Running
    ensures WaitersLive(WaitTurn(s, c, p))
  {
    var t := WaitTurn(s, c, p);
    forall k: nat | InWait(t, k) ensures !t.procs[k].killed { assert k != p ==> InWait(s, k); }
  }

  lemma WaitersStep(s: State, e: Event, t: State)
    requires Inv(s) && WaitersLive(s) && Next(s, e) == Some(t)
    ensures WaitersLive(t)
  {
    hide PidsOk, WaitTurn, ExitTurn;
    match e
    case Dispatch(c, p) =>
      var u := s.(procs := s.procs[p := Dispatched(s.procs[p], c)], cpus := s.cpus[c := Some(p)]);
      assert WaitersLive(u) by { assert forall k: nat :: InWait(u, k) ==> InWait(s, k); }
      if s.procs[p].task == Waiting { WaitTurnLive(u, c, p); }
    case Wait(c) =>
      assert CpuOk(s, c);
      WaitTurnLive(s, c, Running(s, c));
    case Exit(c) =>
      assert CpuOk(s, c);
      hide Core;
      ExitIs(s, c, Running(s, c));
      forall k: nat | InWait(t, k) ensures !t.procs[k].killed { assert InWait(s, k); }
    case _ =>
      forall k: nat | InWait(t, k) ensures !t.procs[k].killed { assert InWait(s, k); }
  }

  lemma {:induction false} WaitersRun(s: State, es: seq<Event>, t: State)
    requires Inv(s) && WaitersLive(s) && Run(s, es, t)
    ensures WaitersLive(t)
    decreases |es|
  {
    hide Inv, Next, WaitersLive;
    if es != [] {
      var u := Next(s, es[0]).value;
      WaitersStep(s, es[0], u);
      StepInv(s, es[0], u);
      WaitersRun(u, es[1..], t);
    }
  }

  /** On every run, a process that is asleep in wait has not been killed. */
  lemma NoKilledWaiter(s: State, es: seq<Event>, t: State, p: nat)
    requires Init(s) && Run(s, es, t) && p < |t.procs|
    requires t.procs[p].status == Sleeping && t.procs[p].chan == OfProc(p)
    ensures !t.procs[p].killed
  {
    InitInv(s);
    RunKeeps(s, es, t);
    assert WaitersLive(s);
    WaitersRun(s, es, t);
    assert TaskOk(t, p);
    assert InWait(t, p);
  }

  // ---- sleep and wakeup ----

  /** The channel that slot i is asleep on, outside wait. */
  function AsleepOn(s: State, i: nat): Option<nat> {
    if i < |s.procs| && s.procs[i].status == Sleeping && s.procs[i].chan.Other? then Some(s.procs[i].chan.n) else None
  }

  /** sleep puts the caller to sleep; wakeup of its channel, or kill, wakes it; nothing else does either. */
  function AsleepAfter(s: State, e: Event, i: nat, was: Option<nat>): Option<nat> {
    match e
    case Sleep(c, n) => if OnCpu(s, c) && Running(s, c) == i then Some(n) else was
    case Wakeup(n) => if was == Some(n) then None else was
    case Kill(pid) => if FirstPid(s.procs, pid, 0) == i then None else was
    case _ => was
  }

  ghost function Asleep(s: State, es: seq<Event>, i: nat, was: Option<nat>): Option<nat>
    decreases |es|
  {
    if es == [] || Next(s, es[0]).None? then was
    else Asleep(Next(s, es[0]).value, es[1..], i, AsleepAfter(s, es[0], i, was))
  }

  lemma WaitSleeps(s: State, c: nat, p: nat, i: nat)
    requires c < |s.cpus| && p < |s.procs| && s.procs[p].status == Procs.Running
    ensures AsleepOn(WaitTurn(s, c, p), i) == AsleepOn(s, i)
  {
  }

  lemma CpuFacts(s: State, c: nat)
    requires Inv(s) && OnCpu(s, c)
    ensures s.procs[Running(s, c)].status == Procs.Running && TaskOk(s, Running(s, c))
    ensures CpuOk(s, c)
  {
    assert CpuOk(s, c) && TaskOk(s, Running(s, c));
  }

  lemma ForkSleeps(s: State, c: nat, e: Event, t: State, i: nat)
    requires OnCpu(s, c) && s.procs[Running(s, c)].status == Procs.Running && TaskOk(s, Running(s, c))
    requires (e.Fork1? || e.ForkFail? || e.Adopt? || e.Fork2?) && CpuStep(s, c, e) == Some(t)
    ensures AsleepOn(t, i) == AsleepOn(s, i)
  {
  }

  lemma RestSleeps(s: State, c: nat, e: Event, t: State, i: nat)
    requires OnCpu(s, c) && s.procs[Running(s, c)].status == Procs.Running
    requires (e.Wait? || e.Yield? || e.Sleep?) && e.c == c && CpuStep(s, c, e) == Some(t)
    ensures AsleepOn(t, i) == AsleepAfter(s, e, i, AsleepOn(s, i))
  {
    hide WaitTurn;
    if e.Wait? { WaitSleeps(s, c, Running(s, c), i); }
  }

  lemma SleepStep(s: State, e: Event, t: State, i: nat)
    requires Inv(s) && Next(s, e) == Some(t)
    ensures AsleepOn(t, i) == AsleepAfter(s, e, i, AsleepOn(s, i))
  {
    hide Inv, WaitTurn, ExitTurn, CpuStep, TaskOk;
    match e
    case Dispatch(c, p) =>
      var u := s.(procs := s.procs[p := Dispatched(s.procs[p], c)], cpus := s.cpus[c := Some(p)]);
      if s.procs[p].task == Waiting { WaitSleeps(u, c, p, i); }
    case Wakeup(_) =>
    case Kill(_) =>
    case Exit(c) => ExitSleeps(s, c, t, i);
    case Wait(c) => CpuFacts(s, c); RestSleeps(s, c, e, t, i);
    case Yield(c) => CpuFacts(s, c); RestSleeps(s, c, e, t, i);
    case Sleep(c, _) => CpuFacts(s, c); RestSleeps(s, c, e, t, i);
    case _ => CpuFacts(s, e.c); ForkSleeps(s, e.c, e, t, i);
  }

  lemma ExitSleeps(s: State, c: nat, t: State, i: nat)
    requires Inv(s) && Next(s, Exit(c)) == Some(t)
    ensures AsleepOn(t, i) == AsleepOn(s, i)
  {
    hide Core, PidsOk, ExitTurn, TaskOk;
    CpuFacts(s, c);
    ExitIs(s, c, Running(s, c));
  }

  /** On every run, who is asleep, and on what, is exactly what the calls of sleep, wakeup and kill say. */
  lemma {:induction false} SleepersExactly(s: State, es: seq<Event>, t: State, i: nat)
    requires Inv(s) && Run(s, es, t)
    ensures AsleepOn(t, i) == Asleep(s, es, i, AsleepOn(s, i))
    decreases |es|
  {
    hide Inv, Next, AsleepOn, AsleepAfter;
    if es != [] {
      var u := Next(s, es[0]).value;
      SleepStep(s, es[0], u, i);
      StepInv(s, es[0], u);
      SleepersExactly(u, es[1..], t, i);
    }
  }

  // ---- a process that is killed before it is born ----

  /** kill finds a slot that no process has, or only half: one unused, or one that fork is still filling. */
  predicate Unborn(p: Proc) { p.status == Unused || p.status == Embryo }

  predicate StrayKill(s: State, e: Event) {
    e.Kill? && FirstPid(s.procs, e.pid, 0) < |s.procs| && Unborn(s.procs[FirstPid(s.procs, e.pid, 0)])
  }

  ghost predicate Clean(s: State) {
    forall i: nat {:trigger s.procs[i]} :: i < |s.procs| && Unborn(s.procs[i]) ==> !s.procs[i].killed
  }

  ghost predicate AlwaysClean(s: State, es: seq<Event>)
    decreases |es|
  {
    Clean(s) && (es != [] && Next(s, es[0]).Some? ==> AlwaysClean(Next(s, es[0]).value, es[1..]))
  }

  ghost predicate NoStrayKill(s: State, es: seq<Event>)
    decreases |es|
  {
    es != [] && Next(s, es[0]).Some? ==> !StrayKill(s, es[0]) && NoStrayKill(Next(s, es[0]).value, es[1..])
  }

  /** A slot becomes unborn only from unborn, or by being reaped. */
  ghost predicate BirthOk(p: Proc, q: Proc) {
    Unborn(q) && !Unborn(p) ==> p.status == Zombie && q.status == Unused
  }

  lemma WaitBirths(s: State, c: nat, p: nat, i: nat)
    requires c < |s.cpus| && p < |s.procs| && i < |s.procs| && s.procs[p].status == Procs.Running
    ensures var t := WaitTurn(s, c, p); |t.procs| == |s.procs| && BirthOk(s.procs[i], t.procs[i])
  {
  }

  lemma CpuBirths(s: State, c: nat, e: Event, t: State, i: nat)
    requires OnCpu(s, c) && s.procs[Running(s, c)].status == Procs.Running && TaskOk(s, Running(s, c))
    requires !e.Exit? && CpuStep(s, c, e) == Some(t) && i < |s.procs|
    ensures |t.procs| == |s.procs| && BirthOk(s.procs[i], t.procs[i])
  {
    hide WaitTurn;
    if e.Wait? { WaitBirths(s, c, Running(s, c), i); }
  }

  lemma ExitBirths(s: State, c: nat, t: State, i: nat)
    requires Inv(s) && Next(s, Exit(c)) == Some(t) && i < |s.procs|
    ensures |t.procs| == |s.procs| && BirthOk(s.procs[i], t.procs[i])
  {
    hide Core, PidsOk, ExitTurn, TaskOk;
    CpuFacts(s, c);
    ExitIs(s, c, Running(s, c));
  }

  lemma BornStays(s: State, e: Event, t: State, i: nat)
    requires Inv(s) && Next(s, e) == Some(t) && i < |s.procs|
    ensures |t.procs| == |s.procs| && BirthOk(s.procs[i], t.procs[i])
  {
    hide Inv, ExitTurn, WaitTurn, CpuStep, TaskOk;
    match e
    case Dispatch(c, p) =>
      var u := s.(procs := s.procs[p := Dispatched(s.procs[p], c)], cpus := s.cpus[c := Some(p)]);
      if s.procs[p].task == Waiting { WaitBirths(u, c, p, i); }
    case Wakeup(_) =>
    case Kill(_) =>
    case Exit(c) => ExitBirths(s, c, t, i);
    case _ =>
      CpuFacts(s, e.c);
      CpuBirths(s, e.c, e, t, i);
  }

  lemma CleanSlot(s: State, e: Event, t: State, i: nat)
    requires Inv(s) && Clean(s) && Next(s, e) == Some(t) && i < |s.procs|
    ensures |t.procs| == |s.procs|
    ensures Unborn(t.procs[i]) && t.procs[i].killed ==> StrayKill(s, e)
  {
    hide Inv, Next;
    BornStays(s, e, t, i);
    MarkStep(s, e, t, i);
    if e.Kill? { KillBirth(s, e.pid, t, i); }
  }

  lemma KillBirth(s: State, pid: nat, t: State, i: nat)
    requires Next(s, Kill(pid)) == Some(t) && i < |s.procs|
    ensures |t.procs| == |s.procs| && Unborn(t.procs[i]) == Unborn(s.procs[i])
  {
  }

  lemma CleanStep(s: State, e: Event, t: State)
    requires Inv(s) && Clean(s) && Next(s, e) == Some(t)
    ensures Clean(t) <==> !StrayKill(s, e)
  {
    hide Inv, WaitTurn, ExitTurn, CpuStep;
    if StrayKill(s, e) {
      assert Unborn(t.procs[FirstPid(s.procs, e.pid, 0)]);
    } else {
      SameSize(s, e, t);
      hide Next, Unborn, StrayKill;
      forall i: nat | i < |t.procs| && Unborn(t.procs[i]) ensures !t.procs[i].killed { CleanSlot(s, e, t, i); }
    }
  }

  lemma SameSize(s: State, e: Event, t: State)
    requires Inv(s) && Next(s, e) == Some(t)
    ensures |t.procs| == |s.procs|
  {
    hide Next;
    assert s.init < |s.procs|;
    hide Inv;
    MarkStep(s, e, t, 0);
  }

  /**
   * No process is ever created with the mark of a kill meant for another, exactly if no kill of the run finds
   * a slot that is unused or only half made.
   */
  lemma {:induction false} BornUnkilledIff(s: State, es: seq<Event>, t: State)
    requires Inv(s) && Clean(s) && Run(s, es, t)
    ensures AlwaysClean(s, es) <==> NoStrayKill(s, es)
    decreases |es|
  {
    hide Inv, Next, Clean, StrayKill;
    if es != [] {
      var u := Next(s, es[0]).value;
      CleanStep(s, es[0], u);
      StepInv(s, es[0], u);
      if !StrayKill(s, es[0]) { BornUnkilledIff(u, es[1..], t); }
    }
  }

  /** A table of init and one more slot, with one CPU. */
  function Small(): State {
    var init := Proc(Runnable, 1, None, NoChan, false, Free, 0);
    State([init, init.(status := Unused, pid := 0)], [None], 0, 2, [], [])
  }

  /** Slot 1 is marked before it is used; init is about to fork. */
  lemma MarkedUnused() returns (es: seq<Event>, t: State)
    ensures Run(Small(), es, t) && Inv(t) && |t.procs| == 2 && t.cpus == [Some(0)] && t.nextpid == 2 && Kill(2) !in es
    ensures t.procs[0].task == Free && t.procs[1].status == Unused && t.procs[1].killed
  {
    var s := Small();
    InitInv(s);
    var u := Next(s, Kill(0)).value;
    KillIs(s, 0, u, 1);
    StepInv(s, Kill(0), u);
    t := Next(u, Dispatch(0, 0)).value;
    DispatchIs(u, 0, 0, t);
    StepInv(u, Dispatch(0, 0), t);
    hide Next, Inv;
    RunCons(u, Dispatch(0, 0), [], t, t);
    RunCons(s, Kill(0), [Dispatch(0, 0)] + [], u, t);
    es := [Kill(0)] + ([Dispatch(0, 0)] + []);
  }

  lemma ForkStarts(s: State) returns (t: State)
    requires Inv(s) && |s.procs| == 2 && s.cpus == [Some(0)] && s.procs[0].task == Free && s.procs[1].status == Unused
    ensures Next(s, Fork1(0)) == Some(t) && Inv(t) && |t.procs| == 2 && t.cpus == s.cpus
    ensures t.procs[0].task == Forking(1, false) && t.procs[1] == s.procs[1].(status := Embryo, pid := s.nextpid)
  {
    CpuFacts(s, 0);
    assert FirstUnused(s.procs, 0) == 1;
    t := Next(s, Fork1(0)).value;
    Fork1Is(s, 0, t, 1);
    StepInv(s, Fork1(0), t);
  }

  lemma ForkEnds(s: State) returns (u: State, t: State)
    requires Inv(s) && |s.procs| == 2 && s.cpus == [Some(0)] && s.procs[0].task == Forking(1, false)
    ensures Next(s, Adopt(0)) == Some(u) && Next(u, Fork2(0)) == Some(t) && |t.procs| == 2
    ensures t.procs[1] == s.procs[1].(parent := Some(0), status := Runnable)
  {
    u := Next(s, Adopt(0)).value;
    t := Next(u, Fork2(0)).value;
  }

  /** kill(0) finds an unused slot, and the next process that is forked there starts life killed. */
  lemma BornKilled() returns (s: State, es: seq<Event>, t: State)
    ensures Init(s) && Clean(s) && Run(s, es, t) && Kill(2) !in es
    ensures |t.procs| == 2 && t.procs[1].status == Runnable && t.procs[1].pid == 2 && t.procs[1].killed
  {
    s := Small();
    hide Next, Inv;
    var es1, u := MarkedUnused();
    var v := ForkStarts(u);
    var w;
    w, t := ForkEnds(v);
    var es2 := [Fork1(0)] + ([Adopt(0)] + ([Fork2(0)] + []));
    RunCons(w, Fork2(0), [], t, t);
    RunCons(v, Adopt(0), [Fork2(0)] + [], w, t);
    RunCons(u, Fork1(0), [Adopt(0)] + ([Fork2(0)] + []), v, t);
    RunJoin(s, es1, u, es2, t);
    es := es1 + es2;
  }

  lemma {:induction false} RunJoin(s: State, es: seq<Event>, u: State, fs: seq<Event>, t: State)
    requires Run(s, es, u) && Run(u, fs, t)
    ensures Run(s, es + fs, t)
    decreases |es|
  {
    hide Next;
    if es == [] {
      assert es + fs == fs;
    } else {
      RunJoin(Next(s, es[0]).value, es[1..], u, fs, t);
      assert (es + fs)[1..] == es[1..] + fs;
    }
  }

  lemma RunCons(s: State, e: Event, es: seq<Event>, u: State, t: State)
    requires Next(s, e) == Some(u) && Run(u, es, t)
    ensures Run(s, [e] + es, t)
  {
    hide Next;
    assert ([e] + es)[1..] == es;
  }

  // ---- who forked whom ----

  /** The fork that event e begins: the pid of the child, and that of the process that forks. */
  function Born(s: State, e: Event): map<nat, nat> {
    if e.Fork1? && OnCpu(s, e.c) && s.procs[Running(s, e.c)].task == Free && FirstUnused(s.procs, 0) < |s.procs|
    then map[s.nextpid := s.procs[Running(s, e.c)].pid] else map[]
  }

  ghost function Births(s: State, es: seq<Event>): map<nat, nat>
    decreases |es|
  {
    if es == [] || Next(s, es[0]).None? then map[]
    else Born(s, es[0]) + Births(Next(s, es[0]).value, es[1..])
  }

  /** The parent of i is the process that forked it, or init if that one has exited. */
  ghost predicate KinOk(s: State, b: map<nat, nat>, i: nat)
    requires i < |s.procs|
  {
    var p := s.procs[i];
    Used(p) && p.parent.Some? && p.parent.value < |s.procs| ==>
      p.pid in b && (s.procs[p.parent.value].pid == b[p.pid] || (p.parent.value == s.init && b[p.pid] in s.exited))
  }

  /** The child that i is making is down as i's. */
  ghost predicate ChildOk(s: State, b: map<nat, nat>, i: nat)
    requires i < |s.procs|
  {
    var p := s.procs[i];
    p.task.Forking? && p.task.child < |s.procs| ==>
      s.procs[p.task.child].pid in b && b[s.procs[p.task.child].pid] == p.pid
  }

  ghost predicate KinsOk(s: State, b: map<nat, nat>) {
    && (forall i: nat {:trigger KinOk(s, b, i)} :: i < |s.procs| ==> KinOk(s, b, i))
    && (forall i: nat {:trigger ChildOk(s, b, i)} :: i < |s.procs| ==> ChildOk(s, b, i))
    && forall x :: x in b ==> x < s.nextpid
  }

  /** What is in use in both states has the same pid in both. */
  ghost predicate PidsKept(s: State, t: State) {
    && |t.procs| == |s.procs| && t.init == s.init && (forall x :: x in s.exited ==> x in t.exited)
    && forall i: nat {:trigger t.procs[i]} :: i < |t.procs| && Used(t.procs[i]) && Used(s.procs[i]) ==>
         t.procs[i].pid == s.procs[i].pid
  }

  ghost predicate Extends(b: map<nat, nat>, b': map<nat, nat>) { forall x :: x in b ==> x in b' && b'[x] == b[x] }

  lemma KinKept(s: State, t: State, b: map<nat, nat>, b': map<nat, nat>, i: nat)
    requires Core(s) && Core(t) && PidsKept(s, t) && Extends(b, b') && i < |s.procs| && KinOk(s, b, i)
    requires Used(t.procs[i]) ==> Used(s.procs[i]) && t.procs[i].parent == s.procs[i].parent
    ensures KinOk(t, b', i)
  {
    hide CpusOk, NoneLate, TasksOk;
    assert ParentOk(s, i) && ParentOk(t, i);
  }

  lemma ChildKept(s: State, t: State, b: map<nat, nat>, b': map<nat, nat>, i: nat)
    requires Core(s) && Core(t) && PidsKept(s, t) && Extends(b, b') && i < |s.procs| && ChildOk(s, b, i)
    requires t.procs[i].task.Forking? ==>
      s.procs[i].task.Forking? && t.procs[i].task.child == s.procs[i].task.child
    ensures ChildOk(t, b', i)
  {
    hide CpusOk, NoneLate, ParentsOk;
    assert TaskOk(s, i) && TaskOk(t, i);
  }

  /** i keeps its parent and the child that it is making. */
  ghost predicate Settled(p: Proc, q: Proc) {
    && (Used(q) ==> Used(p) && q.parent == p.parent)
    && (q.task.Forking? ==> p.task.Forking? && q.task.child == p.task.child)
  }

  lemma KinQuiet(s: State, t: State, b: map<nat, nat>)
    requires Core(s) && Core(t) && PidsKept(s, t) && KinsOk(s, b) && t.nextpid == s.nextpid
    requires forall i: nat {:trigger t.procs[i]} :: i < |t.procs| ==> Settled(s.procs[i], t.procs[i])
    ensures KinsOk(t, b)
  {
    hide Core, PidsKept;
    SizeKept(s, t);
    forall i: nat | i < |t.procs| ensures KinOk(t, b, i) && ChildOk(t, b, i) {
      assert KinOk(s, b, i) && ChildOk(s, b, i);
      hide KinOk, ChildOk;
      KinKept(s, t, b, b, i);
      ChildKept(s, t, b, b, i);
    }
  }

  lemma SizeKept(s: State, t: State)
    requires PidsKept(s, t)
    ensures |t.procs| == |s.procs|
  {
  }

  lemma KinFork(s: State, i: nat, j: nat, t: State, b: map<nat, nat>)
    requires Core(s) && PidsOk(s) && Core(t) && KinsOk(s, b) && i < |s.procs| && j < |s.procs| && j != i
    requires Used(s.procs[i]) && s.procs[i].task == Free && s.procs[j].status == Unused
    requires t == s.(procs := s.procs[j := s.procs[j].(status := Embryo, pid := s.nextpid)]
                                     [i := s.procs[i].(task := Forking(j, false))],
                     nextpid := s.nextpid + 1)
    ensures KinsOk(t, b + map[s.nextpid := s.procs[i].pid])
  {
    var b' := b + map[s.nextpid := s.procs[i].pid];
    assert ParentOk(s, j) && TaskOk(s, j);
    assert PidsKept(s, t) && Extends(b, b');
    hide Core, PidsOk, PidsKept, Extends;
    forall k: nat | k < |t.procs| ensures KinOk(t, b', k) && ChildOk(t, b', k) {
      assert KinOk(s, b, k) && ChildOk(s, b, k);
      if k != j { KinKept(s, t, b, b', k); }
      if k != i { ChildKept(s, t, b, b', k); }
    }
  }

  lemma KinAdopt(s: State, i: nat, j: nat, t: State, b: map<nat, nat>)
    requires Core(s) && Core(t) && KinsOk(s, b) && i < |s.procs| && j < |s.procs| && i != j
    requires s.procs[i].task.Forking? && s.procs[i].task.child == j
    requires t == s.(procs := s.procs[j := s.procs[j].(parent := Some(i))][i := s.procs[i].(task := Forking(j, true))])
    ensures KinsOk(t, b)
  {
    assert PidsKept(s, t);
    assert ChildOk(s, b, i);
    hide Core, PidsKept;
    forall k: nat | k < |t.procs| ensures KinOk(t, b, k) && ChildOk(t, b, k) {
      assert KinOk(s, b, k) && ChildOk(s, b, k);
      if k != j { KinKept(s, t, b, b, k); }
      ChildKept(s, t, b, b, k);
    }
  }

  lemma KinExit(s: State, c: nat, p: nat, t: State, b: map<nat, nat>)
    requires Core(s) && Core(t) && KinsOk(s, b) && Exited(s, t, c, p) && p != s.init
    requires s.procs[p].status == Procs.Running
    requires t.exited == s.exited + [s.procs[p].pid] && t.nextpid == s.nextpid
    ensures KinsOk(t, b)
  {
    assert PidsKept(s, t);
    hide Core, PidsKept;
    forall k: nat | k < |t.procs| ensures KinOk(t, b, k) && ChildOk(t, b, k) {
      assert KinOk(s, b, k) && ChildOk(s, b, k);
      assert k != p ==> Orphaned(s.procs[k], t.procs[k], p, s.init);
      if s.procs[k].parent != Some(p) || k == p { KinKept(s, t, b, b, k); }
      ChildKept(s, t, b, b, k);
    }
  }

  lemma KinWait(s: State, c: nat, p: nat, b: map<nat, nat>)
    requires Core(s) && KinsOk(s, b) && c < |s.cpus| && p < |s.procs| && s.procs[p].status == Procs.Running
    requires Core(WaitTurn(s, c, p)) && s.procs[p].task == Free
    ensures KinsOk(WaitTurn(s, c, p), b)
  {
    hide Core, KinsOk;
    KinQuiet(s, WaitTurn(s, c, p), b);
  }

  lemma KinCpu(s: State, c: nat, e: Event, t: State, b: map<nat, nat>)
    requires Inv(s) && Core(t) && KinsOk(s, b) && OnCpu(s, c) && CpuStep(s, c, e) == Some(t)
    requires !e.Dispatch? && !e.Wakeup? && !e.Kill? && e.c == c
    ensures KinsOk(t, b + Born(s, e))
  {
    CpuFacts(s, c);
    hide Core, PidsOk, KinsOk, WaitTurn, ExitTurn;
    var i := Running(s, c);
    assert b + map[] == b;
    match e
    case Fork1(_) =>
      var j := FirstUnused(s.procs, 0);
      if j < |s.procs| { KinFork(s, i, j, t, b); }
    case Adopt(_) => KinAdopt(s, i, s.procs[i].task.child, t, b);
    case Exit(_) => ExitIs(s, c, i); ExitedIs(s, c, i); KinExit(s, c, i, t, b);
    case Wait(_) => KinWait(s, c, i, b);
    case _ => KinQuiet(s, t, b);
  }

  lemma KinStep(s: State, e: Event, t: State, b: map<nat, nat>)
    requires Inv(s) && KinsOk(s, b) && Next(s, e) == Some(t)
    ensures KinsOk(t, b + Born(s, e))
  {
    hide Core, PidsOk, KinsOk, CpuStep, WaitTurn;
    StepCore(s, e, t);
    assert b + map[] == b;
    match e
    case Dispatch(c, p) =>
      var u := s.(procs := s.procs[p := Dispatched(s.procs[p], c)], cpus := s.cpus[c := Some(p)]);
      DispatchCore(s, c, p, u);
      KinQuiet(s, u, b);
      if s.procs[p].task == Waiting { KinWait(u, c, p, b); }
    case Wakeup(_) => KinQuiet(s, t, b);
    case Kill(_) => KinQuiet(s, t, b);
    case _ => KinCpu(s, e.c, e, t, b);
  }

  lemma {:induction false} KinRun(s: State, es: seq<Event>, t: State, b: map<nat, nat>)
    requires Inv(s) && KinsOk(s, b) && Run(s, es, t)
    ensures KinsOk(t, b + Births(s, es))
    decreases |es|
  {
    hide Inv, Next, KinsOk, Born;
    if es == [] {
      assert b + map[] == b;
    } else {
      var u := Next(s, es[0]).value;
      KinStep(s, es[0], u, b);
      StepInv(s, es[0], u);
      KinRun(u, es[1..], t, b + Born(s, es[0]));
      assert b + Born(s, es[0]) + Births(u, es[1..]) == b + Births(s, es);
    }
  }

  /** On every run, the parent of a process is the process that forked it, or init if that one has exited. */
  lemma ParentForked(s: State, es: seq<Event>, t: State, i: nat)
    requires Init(s) && Run(s, es, t) && i < |t.procs| && i != t.init
    requires Alive(t.procs[i]) || t.procs[i].status == Zombie
    ensures t.procs[i].parent.Some? && t.procs[i].parent.value < |t.procs| && t.procs[i].pid in Births(s, es)
    ensures var forker := Births(s, es)[t.procs[i].pid];
      || t.procs[t.procs[i].parent.value].pid == forker
      || (t.procs[i].parent.value == t.init && forker in t.exited)
  {
    InitInv(s);
    assert KinsOk(s, map[]);
    KinRun(s, es, t, map[]);
    assert map[] + Births(s, es) == Births(s, es);
    ParentsLive(s, es, t, i);
    assert KinOk(t, Births(s, es), i);
  }

  // ---- wait, fork and the scheduler, process by process ----

  /** wait reaps the first zombie child and returns its pid; without children, or when killed, it gives up. */
  lemma WaitIs(s: State, c: nat, t: State)
    requires Inv(s) && Next(s, Wait(c)) == Some(t)
    ensures OnCpu(s, c) && |t.procs| == |s.procs| && t.exited == s.exited && t.nextpid == s.nextpid
    ensures var p := Running(s, c);
      if exists z: nat :: IsZombieOf(s.procs, z, p) then
        exists z: nat ::
          && IsZombieOf(s.procs, z, p) && (forall k: nat :: k < z ==> !IsZombieOf(s.procs, k, p))
          && t.reaped == s.reaped + [s.procs[z].pid] && t.cpus == s.cpus && t.procs == s.procs[z := t.procs[z]]
          && t.procs[z].status == Unused && t.procs[z].pid == 0 && t.procs[z].parent == None && !t.procs[z].killed
      else if s.procs[p].killed || !(exists k: nat :: k < |s.procs| && s.procs[k].parent == Some(p)) then t == s
      else
        && t.reaped == s.reaped && t.cpus == s.cpus[c := None] && t.procs == s.procs[p := t.procs[p]]
        && t.procs[p].status == Sleeping && t.procs[p].chan == OfProc(p)
        && t.procs[p] == s.procs[p].(status := Sleeping, chan := OfProc(p), task := t.procs[p].task)
  {
    CpuFacts(s, c);
    hide Inv;
    var p := Running(s, c);
    var z := FirstZombie(s.procs, p, 0);
    assert s.procs[p := s.procs[p]] == s.procs;
    assert (exists k: nat :: IsChildOf(s.procs, k, p)) <==>
      (exists k: nat :: k < |s.procs| && s.procs[k].parent == Some(p))
    by {
      if k: nat :| k < |s.procs| && s.procs[k].parent == Some(p) { assert IsChildOf(s.procs, k, p); }
    }
    if z < |s.procs| {
      assert z != p;
      assert s.procs[z := Cleared(s.procs[z])][p := s.procs[p].(task := Free)] == s.procs[z := Cleared(s.procs[z])];
    }
  }

  /** fork's first part takes the lowest unused slot and the next pid. */
  lemma Fork1Is(s: State, c: nat, t: State, j: nat)
    requires Inv(s) && Next(s, Fork1(c)) == Some(t) && j < |s.procs| && s.procs[j].status == Unused
    requires forall k: nat :: k < j ==> s.procs[k].status != Unused
    ensures OnCpu(s, c) && Running(s, c) != j && t.nextpid == s.nextpid + 1 && t.cpus == s.cpus
    ensures |t.procs| == |s.procs| && t.procs[j] == s.procs[j].(status := Embryo, pid := s.nextpid)
    ensures forall k: nat :: k < |s.procs| && k != j && k != Running(s, c) ==> t.procs[k] == s.procs[k]
    ensures t.procs[Running(s, c)] == s.procs[Running(s, c)].(task := Forking(j, false))
  {
    CpuFacts(s, c);
    assert FirstUnused(s.procs, 0) == j;
  }

  /** fork's last part makes the child, and nobody else, runnable. */
  lemma Fork2Is(s: State, c: nat, t: State)
    requires Inv(s) && Next(s, Fork2(c)) == Some(t)
    ensures OnCpu(s, c) && s.procs[Running(s, c)].task.Forking? && |t.procs| == |s.procs| && t.cpus == s.cpus
    ensures var j := s.procs[Running(s, c)].task.child;
      && j < |s.procs| && s.procs[j].status == Embryo && s.procs[j].parent == Some(Running(s, c))
      && t.procs[j] == s.procs[j].(status := Runnable)
      && forall k: nat :: k < |s.procs| && k != j && k != Running(s, c) ==> t.procs[k] == s.procs[k]
  {
    CpuFacts(s, c);
  }

  /** The scheduler runs a runnable process on a free CPU; one that slept in wait goes on with wait there. */
  lemma DispatchIs(s: State, c: nat, p: nat, t: State)
    requires Inv(s) && Next(s, Dispatch(c, p)) == Some(t) && s.procs[p].task != Waiting
    ensures c < |s.cpus| && s.cpus[c] == None && s.procs[p].status == Runnable
    ensures t == s.(procs := s.procs[p := t.procs[p]], cpus := s.cpus[c := Some(p)])
    ensures t.procs[p] == s.procs[p].(status := Procs.Running, chan := NoChan, cpu := c)
  {
  }
}
