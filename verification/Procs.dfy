/**
 * The process table of proc.c as a step system.  A step is one critical section of ptable.lock, from taking
 * the lock to giving it back; when a process that slept in wait is dispatched, the section goes on into
 * another scan of the table.
 */
module Procs {
  import opened Common

  datatype Status = Unused | Embryo | Sleeping | Runnable | Running | Zombie

  /** What a process sleeps on: a process, in wait, or anything else. */
  datatype Chan = NoChan | OfProc(i: nat) | Other(n: nat)

  /** Kernel work that a process is in the middle of between two of its critical sections. */
  datatype Task = Free | Forking(child: nat, adopted: bool) | Waiting

  /** cpu is where a running process runs. */
  datatype Proc = Proc(status: Status, pid: nat, parent: Option<nat>, chan: Chan, killed: bool, task: Task, cpu: nat)

  /** exited and reaped are the pids that have gone through exit and through wait, in order. */
  datatype State = State(procs: seq<Proc>, cpus: seq<Option<nat>>, init: nat, nextpid: nat, exited: seq<nat>,
                         reaped: seq<nat>)

  datatype Event = Dispatch(c: nat, p: nat) | Fork1(c: nat) | ForkFail(c: nat) | Adopt(c: nat) | Fork2(c: nat)
                 | Exit(c: nat) | Wait(c: nat) | Yield(c: nat) | Sleep(c: nat, n: nat) | Wakeup(n: nat) | Kill(pid: nat)

  predicate Alive(p: Proc) { p.status == Sleeping || p.status == Runnable || p.status == Running }

  // ---- what the loops over the table compute ----

  function Woken(p: Proc, chan: Chan): Proc {
    if p.status == Sleeping && p.chan == chan then p.(status := Runnable) else p
  }

  /** wakeup1. */
  function WakeAll(procs: seq<Proc>, chan: Chan): (r: seq<Proc>)
    ensures |r| == |procs| && forall i :: 0 <= i < |r| ==> r[i] == Woken(procs[i], chan)
  {
    if procs == [] then [] else WakeAll(procs[..|procs| - 1], chan) + [Woken(procs[|procs| - 1], chan)]
  }

  /** The children of p go to init. */
  function GiveAway(procs: seq<Proc>, p: nat, init: nat): (r: seq<Proc>)
    ensures |r| == |procs|
    ensures forall i :: 0 <= i < |r| ==>
      r[i] == if procs[i].parent == Some(p) then procs[i].(parent := Some(init)) else procs[i]
  {
    if procs == [] then []
    else
      var q := procs[|procs| - 1];
      GiveAway(procs[..|procs| - 1], p, init) + [if q.parent == Some(p) then q.(parent := Some(init)) else q]
  }

  predicate IsZombieOf(procs: seq<Proc>, i: nat, p: nat) {
    i < |procs| && procs[i].parent == Some(p) && procs[i].status == Zombie
  }

  predicate IsChildOf(procs: seq<Proc>, i: nat, p: nat) {
    i < |procs| && procs[i].parent == Some(p)
  }

  /** exit's loop: and init is woken if one of the children is a zombie. */
  ghost function Reparented(procs: seq<Proc>, p: nat, init: nat): seq<Proc> {
    var r := GiveAway(procs, p, init);
    if exists i: nat :: IsZombieOf(procs, i, p) then WakeAll(r, OfProc(init)) else r
  }

  /** The first zombie child of p; |procs| if there is none. */
  function FirstZombie(procs: seq<Proc>, p: nat, from: nat): (i: nat)
    requires from <= |procs|
    ensures from <= i <= |procs| && (i < |procs| ==> IsZombieOf(procs, i, p))
    ensures forall k: nat :: from <= k < i ==> !IsZombieOf(procs, k, p)
    decreases |procs| - from
  {
    if from == |procs| || IsZombieOf(procs, from, p) then from else FirstZombie(procs, p, from + 1)
  }

  function FirstUnused(procs: seq<Proc>, from: nat): (i: nat)
    requires from <= |procs|
    ensures from <= i <= |procs| && (i < |procs| ==> procs[i].status == Unused)
    ensures forall k :: from <= k < i ==> procs[k].status != Unused
    decreases |procs| - from
  {
    if from == |procs| || procs[from].status == Unused then from else FirstUnused(procs, from + 1)
  }

  /** kill looks for the pid in every slot, unused ones too. */
  function FirstPid(procs: seq<Proc>, pid: nat, from: nat): (i: nat)
    requires from <= |procs|
    ensures from <= i <= |procs| && (i < |procs| ==> procs[i].pid == pid)
    ensures forall k :: from <= k < i ==> procs[k].pid != pid
    decreases |procs| - from
  {
    if from == |procs| || procs[from].pid == pid then from else FirstPid(procs, pid, from + 1)
  }

  // ---- the steps ----

  function Killed(p: Proc): Proc {
    p.(killed := true, status := if p.status == Sleeping then Runnable else p.status)
  }

  function Cleared(p: Proc): Proc { p.(status := Unused, pid := 0, parent := None, killed := false) }

  /** A process that slept in wait goes round wait's loop again. */
  function Dispatched(p: Proc, c: nat): Proc {
    p.(status := Running, chan := NoChan, cpu := c, task := if p.task == Waiting then Free else p.task)
  }

  /** wait's turn for p, which runs on c: reap a child, give up, or sleep. */
  ghost function WaitTurn(s: State, c: nat, p: nat): State
    requires p < |s.procs| && c < |s.cpus|
  {
    var z := FirstZombie(s.procs, p, 0);
    if z < |s.procs| then
      s.(procs := s.procs[z := Cleared(s.procs[z])][p := s.procs[p].(task := Free)],
         reaped := s.reaped + [s.procs[z].pid])
    else if !(exists i: nat :: IsChildOf(s.procs, i, p)) || s.procs[p].killed then
      s.(procs := s.procs[p := s.procs[p].(task := Free)])
    else
      s.(procs := s.procs[p := s.procs[p].(status := Sleeping, chan := OfProc(p), task := Waiting)],
         cpus := s.cpus[c := None])
  }

  ghost function ExitTurn(s: State, c: nat, p: nat): State
    requires p < |s.procs| && c < |s.cpus|
  {
    var woken := if s.procs[p].parent.Some? then WakeAll(s.procs, OfProc(s.procs[p].parent.value)) else s.procs;
    var procs := Reparented(woken, p, s.init);
    if p < |procs| then
      s.(procs := procs[p := procs[p].(status := Zombie)], cpus := s.cpus[c := None],
         exited := s.exited + [procs[p].pid])
    else s
  }

  predicate OnCpu(s: State, c: nat) {
    c < |s.cpus| && s.cpus[c].Some? && s.cpus[c].value < |s.procs|
  }

  ghost function CpuStep(s: State, c: nat, e: Event): Option<State>
    requires OnCpu(s, c)
  {
    var i := s.cpus[c].value;
    var p := s.procs[i];
    match e
    case Fork1(_) =>
      var j := FirstUnused(s.procs, 0);
      if p.task != Free then None
      else if j == |s.procs| then Some(s)
      else Some(s.(procs := s.procs[j := s.procs[j].(status := Embryo, pid := s.nextpid)]
                                   [i := p.(task := Forking(j, false))],
                   nextpid := s.nextpid + 1))
    case ForkFail(_) =>
      if p.task.Forking? && !p.task.adopted && p.task.child < |s.procs| then
        Some(s.(procs := s.procs[p.task.child := s.procs[p.task.child].(status := Unused)][i := p.(task := Free)]))
      else None
    case Adopt(_) =>
      if p.task.Forking? && !p.task.adopted && p.task.child < |s.procs| then
        Some(s.(procs := s.procs[p.task.child := s.procs[p.task.child].(parent := Some(i))]
                                [i := p.(task := Forking(p.task.child, true))]))
      else None
    case Fork2(_) =>
      if p.task.Forking? && p.task.adopted && p.task.child < |s.procs| then
        Some(s.(procs := s.procs[p.task.child := s.procs[p.task.child].(status := Runnable)][i := p.(task := Free)]))
      else None
    case Exit(_) => if p.task == Free && i != s.init then Some(ExitTurn(s, c, i)) else None
    case Wait(_) => if p.task == Free then Some(WaitTurn(s, c, i)) else None
    case Yield(_) => Some(s.(procs := s.procs[i := p.(status := Runnable)], cpus := s.cpus[c := None]))
    case Sleep(_, n) =>
      if p.task == Free then
        Some(s.(procs := s.procs[i := p.(status := Sleeping, chan := Other(n))], cpus := s.cpus[c := None]))
      else None
    case _ => None
  }

  ghost function Next(s: State, e: Event): Option<State> {
    match e
    case Dispatch(c, p) =>
      if c < |s.cpus| && s.cpus[c] == None && p < |s.procs| && s.procs[p].status == Runnable then
        var t := s.(procs := s.procs[p := Dispatched(s.procs[p], c)], cpus := s.cpus[c := Some(p)]);
        Some(if s.procs[p].task == Waiting then WaitTurn(t, c, p) else t)
      else None
    case Wakeup(n) => Some(s.(procs := WakeAll(s.procs, Other(n))))
    case Kill(pid) =>
      var i := FirstPid(s.procs, pid, 0);
      Some(if i < |s.procs| then s.(procs := s.procs[i := Killed(s.procs[i])]) else s)
    case _ => if OnCpu(s, e.c) then CpuStep(s, e.c, e) else None
  }

  ghost predicate Init(s: State) {
    && s.init < |s.procs| && s.procs[s.init].status == Runnable
    && s.procs[s.init].pid == 1 && s.procs[s.init].task == Free
    && s.procs[s.init].parent == None && s.nextpid == 2 && s.exited == [] && s.reaped == []
    && (forall c :: 0 <= c < |s.cpus| ==> s.cpus[c] == None)
    && forall i :: 0 <= i < |s.procs| && i != s.init ==>
         s.procs[i].status == Unused && s.procs[i].parent == None && s.procs[i].task == Free
  }

  ghost predicate Run(s: State, es: seq<Event>, t: State)
    decreases |es|
  {
    if es == [] then s == t else Next(s, es[0]).Some? && Run(Next(s, es[0]).value, es[1..], t)
  }

  // ---- what every reachable state satisfies ----

  /** The parent of i is alive; only init has none. */
  ghost predicate ParentOk(s: State, i: nat)
    requires i < |s.procs|
  {
    var p := s.procs[i];
    && (p.status == Unused ==> p.parent == None)
    && (p.status != Unused && p.parent.Some? ==>
          p.parent.value < |s.procs| && p.parent.value != i && Alive(s.procs[p.parent.value]))
    && ((Alive(p) || p.status == Zombie) && i != s.init ==> p.parent.Some?)
    && (p.status == Embryo && p.parent.Some? ==> s.procs[p.parent.value].task == Forking(i, true))
  }

  ghost predicate ParentsOk(s: State) {
    && s.init < |s.procs| && Alive(s.procs[s.init]) && s.procs[s.init].parent == None
    && forall i: nat {:trigger ParentOk(s, i)} :: i < |s.procs| ==> ParentOk(s, i)
  }

  ghost predicate TaskOk(s: State, i: nat)
    requires i < |s.procs|
  {
    var p := s.procs[i];
    && (p.task != Free ==> Alive(p))
    && (p.task.Forking? ==>
          && p.task.child < |s.procs| && s.procs[p.task.child].status == Embryo
          && s.procs[p.task.child].parent == if p.task.adopted then Some(i) else None)
    && (p.task == Waiting ==> p.status != Running && (p.status == Sleeping ==> p.chan == OfProc(i)))
    && (p.status == Sleeping && p.chan.OfProc? ==> p.task == Waiting)
  }

  ghost predicate TasksOk(s: State) {
    && (forall i: nat {:trigger TaskOk(s, i)} :: i < |s.procs| ==> TaskOk(s, i))
    && forall i: nat, j: nat {:trigger Makes(s, i, j)} :: Makes(s, i, j) ==> forall k: nat :: Makes(s, k, j) ==> k == i
  }

  /** Process i is forking child j. */
  ghost predicate Makes(s: State, i: nat, j: nat) {
    i < |s.procs| && s.procs[i].task.Forking? && s.procs[i].task.child == j
  }

  ghost predicate CpuOk(s: State, c: nat)
    requires c < |s.cpus|
  {
    s.cpus[c].Some? ==>
      s.cpus[c].value < |s.procs| && s.procs[s.cpus[c].value].status == Running && s.procs[s.cpus[c].value].cpu == c
  }

  ghost predicate RunOk(s: State, p: nat)
    requires p < |s.procs|
  {
    s.procs[p].status == Running ==> s.procs[p].cpu < |s.cpus| && s.cpus[s.procs[p].cpu] == Some(p)
  }

  /** The running processes and the busy CPUs match one to one. */
  ghost predicate CpusOk(s: State) {
    && (forall c: nat {:trigger CpuOk(s, c)} :: c < |s.cpus| ==> CpuOk(s, c))
    && (forall p: nat {:trigger RunOk(s, p)} :: p < |s.procs| ==> RunOk(s, p))
  }

  /** No process is asleep in wait while it has a zombie child. */
  ghost predicate NoneLate(s: State) {
    forall p: nat, j: nat {:trigger IsZombieOf(s.procs, j, p)} :: InWait(s, p) ==> !IsZombieOf(s.procs, j, p)
  }

  ghost predicate InWait(s: State, p: nat) {
    p < |s.procs| && s.procs[p].status == Sleeping && s.procs[p].task == Waiting
  }

  ghost predicate Core(s: State) { ParentsOk(s) && TasksOk(s) && CpusOk(s) && NoneLate(s) }

  // ---- steps that only move processes between sleeping, runnable and running ----

  ghost predicate Kin(p: Proc, q: Proc) {
    q.parent == p.parent && q.task == p.task && (Alive(q) <==> Alive(p)) && (!Alive(p) ==> q.status == p.status)
  }

  ghost predicate Quiet(s: State, t: State) {
    && |t.procs| == |s.procs| && t.init == s.init
    && forall i: nat {:trigger t.procs[i]} :: i < |t.procs| ==> Kin(s.procs[i], t.procs[i])
  }

  lemma QuietParents(s: State, t: State)
    requires ParentsOk(s) && Quiet(s, t)
    ensures ParentsOk(t)
  {
    forall i: nat | i < |t.procs| ensures ParentOk(t, i) { assert ParentOk(s, i); }
  }

  lemma QuietTasks(s: State, t: State)
    requires TasksOk(s) && Quiet(s, t)
    requires forall i: nat {:trigger SleepOk(s, t, i)} :: i < |t.procs| ==> SleepOk(s, t, i)
    ensures TasksOk(t)
  {
    forall i: nat | i < |t.procs| ensures TaskOk(t, i) { assert TaskOk(s, i) && SleepOk(s, t, i); }
    forall i: nat, j: nat | Makes(t, i, j) ensures forall k: nat :: Makes(t, k, j) ==> k == i {
      forall k: nat | Makes(t, k, j) ensures k == i { assert Makes(s, i, j) && Makes(s, k, j); }
    }
  }

  /** If i sleeps, it slept already, or started just now on a channel that is no process. */
  ghost predicate SleepOk(s: State, t: State, i: nat)
    requires i < |t.procs| == |s.procs|
  {
    && (t.procs[i].status == Sleeping ==>
          (s.procs[i].status == Sleeping && t.procs[i].chan == s.procs[i].chan)
          || (t.procs[i].chan.Other? && t.procs[i].task != Waiting))
    && (t.procs[i].status == Running ==> t.procs[i].task != Waiting)
  }

  lemma QuietLate(s: State, t: State)
    requires NoneLate(s) && Quiet(s, t)
    requires forall i: nat {:trigger SleepOk(s, t, i)} :: i < |t.procs| ==> SleepOk(s, t, i)
    ensures NoneLate(t)
  {
    forall p: nat, j: nat | InWait(t, p) ensures !IsZombieOf(t.procs, j, p) {
      assert SleepOk(s, t, p) && InWait(s, p) && !IsZombieOf(s.procs, j, p);
    }
  }

  lemma QuietCore(s: State, t: State)
    requires ParentsOk(s) && TasksOk(s) && NoneLate(s) && Quiet(s, t)
    requires forall i: nat {:trigger SleepOk(s, t, i)} :: i < |t.procs| ==> SleepOk(s, t, i)
    ensures ParentsOk(t) && TasksOk(t) && NoneLate(t)
  {
    hide Quiet, ParentsOk, TasksOk, NoneLate;
    QuietParents(s, t);
    QuietTasks(s, t);
    QuietLate(s, t);
  }

  lemma WakeCore(s: State, chan: Chan, t: State)
    requires Core(s) && t == s.(procs := WakeAll(s.procs, chan))
    ensures Core(t)
  {
    forall c: nat | c < |t.cpus| ensures CpuOk(t, c) { assert CpuOk(s, c); }
    forall p: nat | p < |t.procs| ensures RunOk(t, p) { assert RunOk(s, p); }
    hide ParentsOk, TasksOk, NoneLate, CpusOk;
    forall i: nat | i < |t.procs| ensures SleepOk(s, t, i) { TaskAt(s, i); }
    QuietCore(s, t);
  }

  lemma TaskAt(s: State, i: nat)
    requires TasksOk(s) && i < |s.procs|
    ensures TaskOk(s, i)
  {
  }

  lemma KillCore(s: State, i: nat, t: State)
    requires Core(s) && i < |s.procs| && t == s.(procs := s.procs[i := Killed(s.procs[i])])
    ensures Core(t)
  {
    forall c: nat | c < |t.cpus| ensures CpuOk(t, c) { assert CpuOk(s, c); }
    forall p: nat | p < |t.procs| ensures RunOk(t, p) { assert RunOk(s, p); }
    hide ParentsOk, TasksOk, NoneLate, CpusOk;
    forall k: nat | k < |t.procs| ensures SleepOk(s, t, k) { TaskAt(s, k); }
    QuietCore(s, t);
  }

  lemma DispatchCore(s: State, c: nat, p: nat, t: State)
    requires Core(s) && c < |s.cpus| && s.cpus[c] == None && p < |s.procs| && s.procs[p].status == Runnable
    requires t == s.(procs := s.procs[p := Dispatched(s.procs[p], c)], cpus := s.cpus[c := Some(p)])
    ensures Core(t)
  {
    forall d: nat | d < |t.cpus| ensures CpuOk(t, d) { assert CpuOk(s, d); }
    forall q: nat | q < |t.procs| ensures RunOk(t, q) { assert RunOk(s, q); }
    forall k: nat | k < |t.procs| ensures ParentOk(t, k) { assert ParentOk(s, k); }
    forall k: nat | k < |t.procs| ensures TaskOk(t, k) { assert TaskOk(s, k); }
    forall k: nat, l: nat | Makes(t, k, l) ensures forall m: nat :: Makes(t, m, l) ==> m == k {
      forall m: nat | Makes(t, m, l) ensures m == k { assert Makes(s, k, l) && Makes(s, m, l); }
    }
    forall q: nat, l: nat | InWait(t, q) ensures !IsZombieOf(t.procs, l, q) {
      assert InWait(s, q) && !IsZombieOf(s.procs, l, q);
    }
  }

  lemma YieldCore(s: State, c: nat, i: nat, t: State)
    requires Core(s) && c < |s.cpus| && s.cpus[c] == Some(i) && i < |s.procs|
    requires t == s.(procs := s.procs[i := s.procs[i].(status := Runnable)], cpus := s.cpus[c := None])
    ensures Core(t)
  {
    assert CpuOk(s, c);
    forall d: nat | d < |t.cpus| ensures CpuOk(t, d) { assert CpuOk(s, d); }
    forall q: nat | q < |t.procs| ensures RunOk(t, q) { assert RunOk(s, q); }
    hide ParentsOk, TasksOk, NoneLate, CpusOk;
    forall k: nat | k < |t.procs| ensures SleepOk(s, t, k) { TaskAt(s, k); }
    QuietCore(s, t);
  }

  lemma SleepCore(s: State, c: nat, i: nat, n: nat, t: State)
    requires Core(s) && c < |s.cpus| && s.cpus[c] == Some(i) && i < |s.procs| && s.procs[i].task == Free
    requires t == s.(procs := s.procs[i := s.procs[i].(status := Sleeping, chan := Other(n))],
                     cpus := s.cpus[c := None])
    ensures Core(t)
  {
    assert CpuOk(s, c);
    forall d: nat | d < |t.cpus| ensures CpuOk(t, d) { assert CpuOk(s, d); }
    forall q: nat | q < |t.procs| ensures RunOk(t, q) { assert RunOk(s, q); }
    hide ParentsOk, TasksOk, NoneLate, CpusOk;
    forall k: nat | k < |t.procs| ensures SleepOk(s, t, k) { TaskAt(s, k); }
    QuietCore(s, t);
  }

  // ---- fork ----

  lemma CpusSame(s: State, t: State, i: nat, j: nat)
    requires CpusOk(s) && i < |s.procs| && j < |s.procs| && t.cpus == s.cpus && |t.procs| == |s.procs|
    requires t.procs[i].status == s.procs[i].status && t.procs[i].cpu == s.procs[i].cpu
    requires s.procs[j].status != Running && t.procs[j].status != Running
    requires forall k: nat :: k < |s.procs| && k != i && k != j ==> t.procs[k] == s.procs[k]
    ensures CpusOk(t)
  {
    forall c: nat | c < |t.cpus| ensures CpuOk(t, c) { assert CpuOk(s, c); }
    forall p: nat | p < |t.procs| ensures RunOk(t, p) { assert RunOk(s, p); }
  }

  /** Process i, running, and slot j change; j is not alive and was not, or just became, alive. */
  ghost predicate Pair(s: State, t: State, i: nat, j: nat) {
    && i < |s.procs| && j < |s.procs| && i != j && |t.procs| == |s.procs| && t.init == s.init
    && s.procs[i].status == Running && t.procs[i] == s.procs[i].(task := t.procs[i].task)
    && (forall k: nat {:trigger t.procs[k]} :: k < |s.procs| && k != i && k != j ==> t.procs[k] == s.procs[k])
  }

  lemma Fork1Core(s: State, i: nat, j: nat, t: State)
    requires Core(s) && i < |s.procs| && s.procs[i].status == Running && s.procs[i].task == Free
    requires j < |s.procs| && s.procs[j].status == Unused
    requires t == s.(procs := s.procs[j := s.procs[j].(status := Embryo, pid := s.nextpid)]
                                     [i := s.procs[i].(task := Forking(j, false))],
                     nextpid := s.nextpid + 1)
    ensures Core(t)
  {
    assert Pair(s, t, i, j);
    CpusSame(s, t, i, j);
    assert ParentOk(s, j) && TaskOk(s, j);
    forall k: nat | k < |t.procs| ensures ParentOk(t, k) { assert ParentOk(s, k); }
    forall k: nat | k < |t.procs| ensures TaskOk(t, k) { assert TaskOk(s, k); }
    forall k: nat, l: nat | Makes(t, k, l) ensures forall m: nat :: Makes(t, m, l) ==> m == k {
      forall m: nat | Makes(t, m, l) ensures m == k {
        assert k != i ==> Makes(s, k, l) && TaskOk(s, k);
        assert m != i ==> Makes(s, m, l) && TaskOk(s, m);
      }
    }
    forall p: nat, l: nat | InWait(t, p) ensures !IsZombieOf(t.procs, l, p) {
      assert InWait(s, p) && !IsZombieOf(s.procs, l, p);
    }
  }

  lemma ForkFailCore(s: State, i: nat, j: nat, t: State)
    requires Core(s) && i < |s.procs| && s.procs[i].status == Running
    requires s.procs[i].task == Forking(j, false) && j < |s.procs|
    requires t == s.(procs := s.procs[j := s.procs[j].(status := Unused)][i := s.procs[i].(task := Free)])
    ensures Core(t)
  {
    assert TaskOk(s, i) && ParentOk(s, j) && TaskOk(s, j) && Makes(s, i, j);
    assert Pair(s, t, i, j);
    CpusSame(s, t, i, j);
    forall k: nat | k < |t.procs| ensures ParentOk(t, k) { assert ParentOk(s, k); }
    forall k: nat | k < |t.procs| ensures TaskOk(t, k) { assert TaskOk(s, k) && (Makes(s, k, j) ==> k == i); }
    forall k: nat, l: nat | Makes(t, k, l) ensures forall m: nat :: Makes(t, m, l) ==> m == k {
      forall m: nat | Makes(t, m, l) ensures m == k { assert Makes(s, k, l) && Makes(s, m, l); }
    }
    forall p: nat, l: nat | InWait(t, p) ensures !IsZombieOf(t.procs, l, p) {
      assert InWait(s, p) && !IsZombieOf(s.procs, l, p);
    }
  }

  lemma AdoptCore(s: State, i: nat, j: nat, t: State)
    requires Core(s) && i < |s.procs| && s.procs[i].status == Running
    requires s.procs[i].task == Forking(j, false) && j < |s.procs|
    requires t == s.(procs := s.procs[j := s.procs[j].(parent := Some(i))][i := s.procs[i].(task := Forking(j, true))])
    ensures Core(t)
  {
    assert TaskOk(s, i) && ParentOk(s, j) && TaskOk(s, j) && Makes(s, i, j);
    assert Pair(s, t, i, j);
    CpusSame(s, t, i, j);
    forall k: nat | k < |t.procs| ensures ParentOk(t, k) { assert ParentOk(s, k); }
    forall k: nat | k < |t.procs| ensures TaskOk(t, k) { assert TaskOk(s, k) && (Makes(s, k, j) ==> k == i); }
    forall k: nat, l: nat | Makes(t, k, l) ensures forall m: nat :: Makes(t, m, l) ==> m == k {
      forall m: nat | Makes(t, m, l) ensures m == k { assert Makes(s, k, l) && Makes(s, m, l); }
    }
    forall p: nat, l: nat | InWait(t, p) ensures !IsZombieOf(t.procs, l, p) {
      assert InWait(s, p) && !IsZombieOf(s.procs, l, p);
    }
  }

  lemma Fork2Core(s: State, i: nat, j: nat, t: State)
    requires Core(s) && i < |s.procs| && s.procs[i].status == Running
    requires s.procs[i].task == Forking(j, true) && j < |s.procs|
    requires t == s.(procs := s.procs[j := s.procs[j].(status := Runnable)][i := s.procs[i].(task := Free)])
    ensures Core(t)
  {
    assert TaskOk(s, i) && ParentOk(s, j) && TaskOk(s, j) && Makes(s, i, j);
    assert Pair(s, t, i, j);
    CpusSame(s, t, i, j);
    forall k: nat | k < |t.procs| ensures ParentOk(t, k) { assert ParentOk(s, k); }
    forall k: nat | k < |t.procs| ensures TaskOk(t, k) { assert TaskOk(s, k) && (Makes(s, k, j) ==> k == i); }
    forall k: nat, l: nat | Makes(t, k, l) ensures forall m: nat :: Makes(t, m, l) ==> m == k {
      forall m: nat | Makes(t, m, l) ensures m == k { assert Makes(s, k, l) && Makes(s, m, l); }
    }
    forall p: nat, l: nat | InWait(t, p) ensures !IsZombieOf(t.procs, l, p) {
      assert InWait(s, p) && !IsZombieOf(s.procs, l, p);
    }
  }

  // ---- wait ----

  lemma ReapCore(s: State, p: nat, z: nat, t: State)
    requires Core(s) && p < |s.procs| && s.procs[p].status == Running
    requires s.procs[p].task == Free && IsZombieOf(s.procs, z, p)
    requires |t.procs| == |s.procs| && t.procs == s.procs[z := Cleared(s.procs[z])]
    requires t.init == s.init && t.cpus == s.cpus
    ensures Core(t)
  {
    CpusSame(s, t, p, z);
    assert TaskOk(s, z);
    forall k: nat | k < |t.procs| ensures ParentOk(t, k) { assert ParentOk(s, k); }
    forall k: nat | k < |t.procs| ensures TaskOk(t, k) { assert TaskOk(s, k); }
    forall k: nat, l: nat | Makes(t, k, l) ensures forall m: nat :: Makes(t, m, l) ==> m == k {
      forall m: nat | Makes(t, m, l) ensures m == k { assert Makes(s, k, l) && Makes(s, m, l); }
    }
    forall q: nat, l: nat | InWait(t, q) ensures !IsZombieOf(t.procs, l, q) {
      assert InWait(s, q) && !IsZombieOf(s.procs, l, q);
    }
  }

  lemma WaitSleepCore(s: State, c: nat, p: nat, t: State)
    requires Core(s) && c < |s.cpus| && s.cpus[c] == Some(p) && p < |s.procs| && s.procs[p].task == Free
    requires forall j: nat :: j < |s.procs| ==> !IsZombieOf(s.procs, j, p)
    requires t == s.(procs := s.procs[p := s.procs[p].(status := Sleeping, chan := OfProc(p), task := Waiting)],
                     cpus := s.cpus[c := None])
    ensures Core(t)
  {
    assert CpuOk(s, c);
    forall d: nat | d < |t.cpus| ensures CpuOk(t, d) { assert CpuOk(s, d); }
    forall q: nat | q < |t.procs| ensures RunOk(t, q) { assert RunOk(s, q); }
    forall k: nat | k < |t.procs| ensures ParentOk(t, k) { assert ParentOk(s, k); }
    forall k: nat | k < |t.procs| ensures TaskOk(t, k) { assert TaskOk(s, k); }
    forall k: nat, l: nat | Makes(t, k, l) ensures forall m: nat :: Makes(t, m, l) ==> m == k {
      forall m: nat | Makes(t, m, l) ensures m == k { assert Makes(s, k, l) && Makes(s, m, l); }
    }
    forall q: nat, l: nat | InWait(t, q) ensures !IsZombieOf(t.procs, l, q) {
      assert q != p ==> InWait(s, q) && !IsZombieOf(s.procs, l, q);
      assert l < |s.procs| ==> !IsZombieOf(s.procs, l, p);
    }
  }

  lemma WaitCore(s: State, c: nat, p: nat)
    requires Core(s) && c < |s.cpus| && s.cpus[c] == Some(p) && p < |s.procs| && s.procs[p].task == Free
    ensures Core(WaitTurn(s, c, p))
  {
    assert CpuOk(s, c);
    hide Core, CpuOk;
    var z := FirstZombie(s.procs, p, 0);
    if z < |s.procs| {
      assert s.procs[z := Cleared(s.procs[z])][p := s.procs[p].(task := Free)] == s.procs[z := Cleared(s.procs[z])];
      ReapCore(s, p, z, WaitTurn(s, c, p));
    } else if !(exists i: nat :: IsChildOf(s.procs, i, p)) || s.procs[p].killed {
      assert s.procs[p := s.procs[p].(task := Free)] == s.procs;
    } else {
      WaitSleepCore(s, c, p, WaitTurn(s, c, p));
    }
  }

  // ---- exit ----

  /** Process k after process p exits: perhaps woken, perhaps given to init. */
  ghost predicate Orphaned(k: Proc, k': Proc, p: nat, init: nat) {
    && k' == k.(parent := if k.parent == Some(p) then Some(init) else k.parent, status := k'.status)
    && (k'.status == k.status || (k.status == Sleeping && k.chan.OfProc? && k'.status == Runnable))
  }

  ghost predicate Exited(s: State, t: State, c: nat, p: nat) {
    && |t.procs| == |s.procs| && t.init == s.init && c < |s.cpus| && p < |s.procs| && t.cpus == s.cpus[c := None]
    && t.procs[p] == s.procs[p].(status := Zombie)
    && (forall k: nat {:trigger t.procs[k]} :: k < |s.procs| && k != p ==> Orphaned(s.procs[k], t.procs[k], p, s.init))
    && (s.procs[p].parent.Some? ==> Roused(s, t, s.procs[p].parent.value))
    && ((exists i: nat :: IsZombieOf(s.procs, i, p)) ==> Roused(s, t, s.init))
  }

  /** If i was asleep in wait it no longer is. */
  ghost predicate Roused(s: State, t: State, i: nat) { InWait(s, i) ==> !InWait(t, i) }

  /** What exit's loop does to process k. */
  lemma ReparentedAt(procs: seq<Proc>, p: nat, init: nat, k: nat)
    requires k < |procs|
    ensures |Reparented(procs, p, init)| == |procs|
    ensures var q := if procs[k].parent == Some(p) then procs[k].(parent := Some(init)) else procs[k];
      Reparented(procs, p, init)[k] == if exists i: nat :: IsZombieOf(procs, i, p) then Woken(q, OfProc(init)) else q
  {
  }

  lemma SameZombies(procs: seq<Proc>, chan: Chan, p: nat)
    ensures (exists i: nat :: IsZombieOf(WakeAll(procs, chan), i, p)) <==> exists i: nat :: IsZombieOf(procs, i, p)
  {
    assert forall i: nat :: IsZombieOf(WakeAll(procs, chan), i, p) <==> IsZombieOf(procs, i, p);
  }

  /** k is asleep in wait and is p's parent, or is about to get one of p's zombies. */
  ghost predicate Expects(s: State, p: nat, q: nat, k: nat) {
    && k < |s.procs| && s.procs[k].status == Sleeping && s.procs[k].chan == OfProc(k)
    && (k == q || (k == s.init && exists i: nat :: IsZombieOf(s.procs, i, p)))
  }

  lemma ExitAt(s: State, c: nat, p: nat, q: nat, k: nat)
    requires c < |s.cpus| && p < |s.procs| && s.procs[p].parent == Some(q)
    requires q != p && s.procs[p].status == Running && k < |s.procs|
    ensures var t := ExitTurn(s, c, p);
      && |t.procs| == |s.procs| && t.init == s.init && t.cpus == s.cpus[c := None]
      && t.procs[p] == s.procs[p].(status := Zombie)
      && (k != p ==> Orphaned(s.procs[k], t.procs[k], p, s.init))
      && (k != p && Expects(s, p, q, k) ==> t.procs[k].status != Sleeping)
  {
    hide Reparented;
    var woken := WakeAll(s.procs, OfProc(q));
    ReparentedAt(woken, p, s.init, k);
    ReparentedAt(woken, p, s.init, p);
    SameZombies(s.procs, OfProc(q), p);
  }

  lemma ExitPre(s: State, c: nat, p: nat)
    requires Core(s) && c < |s.cpus| && s.cpus[c] == Some(p) && p < |s.procs| && p != s.init
    ensures s.procs[p].status == Running && s.procs[p].parent.Some?
    ensures s.procs[p].parent.value != p && s.init < |s.procs|
    ensures s.procs[p].parent.value < |s.procs|
    ensures forall k: nat :: InWait(s, k) ==> s.procs[k].chan == OfProc(k)
  {
    assert CpuOk(s, c) && ParentOk(s, p);
    forall k: nat | InWait(s, k) ensures s.procs[k].chan == OfProc(k) { assert TaskOk(s, k); }
  }

  lemma ExitIs(s: State, c: nat, p: nat)
    requires Core(s) && c < |s.cpus| && s.cpus[c] == Some(p) && p < |s.procs| && s.procs[p].task == Free && p != s.init
    ensures Exited(s, ExitTurn(s, c, p), c, p)
  {
    hide Core, ExitTurn, Orphaned;
    ExitPre(s, c, p);
    var q, t := s.procs[p].parent.value, ExitTurn(s, c, p);
    ExitAt(s, c, p, q, q);
    ExitAt(s, c, p, q, s.init);
    assert InWait(s, q) ==> Expects(s, p, q, q);
    forall k: nat | k < |s.procs| && k != p ensures Orphaned(s.procs[k], t.procs[k], p, s.init) {
      ExitAt(s, c, p, q, k);
    }
  }

  lemma ExitCore(s: State, c: nat, p: nat, t: State)
    requires Core(s) && c < |s.cpus| && s.cpus[c] == Some(p) && p < |s.procs| && s.procs[p].task == Free && p != s.init
    requires Exited(s, t, c, p)
    ensures Core(t)
  {
    assert CpuOk(s, c) && ParentOk(s, p) && TaskOk(s, p);
    forall d: nat | d < |t.cpus| ensures CpuOk(t, d) { assert CpuOk(s, d); }
    forall q: nat | q < |t.procs| ensures RunOk(t, q) { assert RunOk(s, q); }
    forall k: nat | k < |t.procs| ensures ParentOk(t, k) { assert ParentOk(s, k); }
    forall k: nat | k < |t.procs| ensures TaskOk(t, k) { assert TaskOk(s, k); }
    forall k: nat, l: nat | Makes(t, k, l) ensures forall m: nat :: Makes(t, m, l) ==> m == k {
      forall m: nat | Makes(t, m, l) ensures m == k { assert Makes(s, k, l) && Makes(s, m, l); }
    }
    forall q: nat, l: nat | InWait(t, q) ensures !IsZombieOf(t.procs, l, q) {
      assert InWait(s, q) && !IsZombieOf(s.procs, l, q);
      assert l != p && IsZombieOf(t.procs, l, q) ==> IsZombieOf(s.procs, l, p);
    }
  }

  /** Every step keeps the table in order. */
  lemma CpuStepCore(s: State, c: nat, e: Event, t: State)
    requires Core(s) && OnCpu(s, c) && CpuStep(s, c, e) == Some(t)
    ensures Core(t)
  {
    assert CpuOk(s, c);
    hide Core, CpuOk, WaitTurn, ExitTurn;
    var i := s.cpus[c].value;
    var p := s.procs[i];
    match e
    case Fork1(_) => if FirstUnused(s.procs, 0) < |s.procs| { Fork1Core(s, i, FirstUnused(s.procs, 0), t); }
    case ForkFail(_) => ForkFailCore(s, i, p.task.child, t);
    case Adopt(_) => AdoptCore(s, i, p.task.child, t);
    case Fork2(_) => Fork2Core(s, i, p.task.child, t);
    case Exit(_) => ExitIs(s, c, i); ExitCore(s, c, i, t);
    case Wait(_) => WaitCore(s, c, i);
    case Yield(_) => YieldCore(s, c, i, t);
    case Sleep(_, n) => SleepCore(s, c, i, n, t);
    case _ =>
  }

  lemma StepCore(s: State, e: Event, t: State)
    requires Core(s) && Next(s, e) == Some(t)
    ensures Core(t)
  {
    hide Core, CpuStep, WaitTurn;
    match e
    case Dispatch(c, p) =>
      var u := s.(procs := s.procs[p := Dispatched(s.procs[p], c)], cpus := s.cpus[c := Some(p)]);
      DispatchCore(s, c, p, u);
      if s.procs[p].task == Waiting { WaitCore(u, c, p); }
    case Wakeup(n) => WakeCore(s, Other(n), t);
    case Kill(pid) =>
      var i := FirstPid(s.procs, pid, 0);
      if i < |s.procs| { KillCore(s, i, t); }
    case _ => CpuStepCore(s, e.c, e, t);
  }

  // ---- pids ----

  predicate Used(p: Proc) { p.status != Unused }

  ghost predicate PidOk(s: State, i: nat)
    requires i < |s.procs|
  {
    var p := s.procs[i];
    Used(p) ==>
      && 0 < p.pid < s.nextpid
      && (if p.status == Zombie then p.pid in s.exited && p.pid !in s.reaped else p.pid !in s.exited)
  }

  ghost predicate Bears(s: State, i: nat, pid: nat) { i < |s.procs| && Used(s.procs[i]) && s.procs[i].pid == pid }

  /** Every pid exits at most once and is reaped at most once, and those in between are the zombies. */
  ghost predicate PidsOk(s: State) {
    && (forall i: nat {:trigger PidOk(s, i)} :: i < |s.procs| ==> PidOk(s, i))
    && (forall i: nat, j: nat, pid: nat {:trigger Bears(s, i, pid), Bears(s, j, pid)} ::
          Bears(s, i, pid) && Bears(s, j, pid) ==> i == j)
    && Distinct(s.exited) && Distinct(s.reaped)
    && (forall x :: x in s.exited ==> x < s.nextpid) && (forall x :: x in s.reaped ==> x in s.exited)
    && (forall x :: x in s.exited && x !in s.reaped ==> exists i: nat :: Bears(s, i, x) && s.procs[i].status == Zombie)
    && 0 < s.nextpid
  }

  /** The same pids are in use, by zombies or by others. */
  ghost predicate SamePids(s: State, t: State) {
    && |t.procs| == |s.procs| && t.exited == s.exited && t.reaped == s.reaped && t.nextpid == s.nextpid
    && forall i: nat {:trigger t.procs[i]} :: i < |t.procs| ==>
         t.procs[i].pid == s.procs[i].pid && (Used(t.procs[i]) <==> Used(s.procs[i]))
         && (t.procs[i].status == Zombie <==> s.procs[i].status == Zombie)
  }

  lemma PidsSame(s: State, t: State)
    requires PidsOk(s) && SamePids(s, t)
    ensures PidsOk(t)
  {
    forall i: nat | i < |t.procs| ensures PidOk(t, i) { assert PidOk(s, i); }
    forall i: nat, j: nat, pid: nat | Bears(t, i, pid) && Bears(t, j, pid) ensures i == j {
      assert Bears(s, i, pid) && Bears(s, j, pid);
    }
    forall x | x in t.exited && x !in t.reaped ensures exists i: nat :: Bears(t, i, x) && t.procs[i].status == Zombie {
      var i: nat :| Bears(s, i, x) && s.procs[i].status == Zombie;
      assert Bears(t, i, x) && t.procs[i].status == Zombie;
    }
  }

  lemma PidsFork(s: State, j: nat, t: State)
    requires PidsOk(s) && j < |s.procs| && !Used(s.procs[j]) && t.exited == s.exited && t.reaped == s.reaped
    requires |t.procs| == |s.procs| && t.nextpid == s.nextpid + 1
    requires t.procs[j].status == Embryo && t.procs[j].pid == s.nextpid
    requires forall i: nat {:trigger t.procs[i]} :: i < |t.procs| && i != j ==>
      t.procs[i].pid == s.procs[i].pid && t.procs[i].status == s.procs[i].status
    ensures PidsOk(t)
  {
    forall i: nat | i < |t.procs| ensures PidOk(t, i) { assert PidOk(s, i); }
    forall i: nat, k: nat, pid: nat | Bears(t, i, pid) && Bears(t, k, pid) ensures i == k {
      assert i != j ==> Bears(s, i, pid) && PidOk(s, i);
      assert k != j ==> Bears(s, k, pid) && PidOk(s, k);
    }
    forall x | x in t.exited && x !in t.reaped ensures exists i: nat :: Bears(t, i, x) && t.procs[i].status == Zombie {
      var i: nat :| Bears(s, i, x) && s.procs[i].status == Zombie;
      assert Bears(t, i, x) && t.procs[i].status == Zombie;
    }
  }

  /** Slot j goes out of use: a failed fork, or a zombie reaped. */
  lemma PidsGone(s: State, j: nat, t: State)
    requires PidsOk(s) && j < |s.procs| && Used(s.procs[j]) && t.exited == s.exited && t.nextpid == s.nextpid
    requires t.reaped == if s.procs[j].status == Zombie then s.reaped + [s.procs[j].pid] else s.reaped
    requires |t.procs| == |s.procs| && t.procs[j].status == Unused
    requires forall i: nat {:trigger t.procs[i]} :: i < |t.procs| && i != j ==>
      t.procs[i].pid == s.procs[i].pid && t.procs[i].status == s.procs[i].status
    ensures PidsOk(t)
  {
    assert PidOk(s, j) && Bears(s, j, s.procs[j].pid);
    forall i: nat | i < |t.procs| ensures PidOk(t, i) {
      assert PidOk(s, i) && (i != j && Used(s.procs[i]) ==> Bears(s, i, s.procs[i].pid));
    }
    forall i: nat, k: nat, pid: nat | Bears(t, i, pid) && Bears(t, k, pid) ensures i == k {
      assert Bears(s, i, pid) && Bears(s, k, pid);
    }
    forall x | x in t.exited && x !in t.reaped ensures exists i: nat :: Bears(t, i, x) && t.procs[i].status == Zombie {
      var i: nat :| Bears(s, i, x) && s.procs[i].status == Zombie;
      assert Bears(t, i, x) && t.procs[i].status == Zombie;
    }
  }

  lemma PidsExit(s: State, c: nat, p: nat, t: State)
    requires PidsOk(s) && Exited(s, t, c, p) && s.procs[p].status == Running
    requires t.exited == s.exited + [s.procs[p].pid] && t.reaped == s.reaped && t.nextpid == s.nextpid
    ensures PidsOk(t)
  {
    assert PidOk(s, p) && Bears(s, p, s.procs[p].pid);
    forall i: nat | i < |t.procs| ensures PidOk(t, i) {
      assert PidOk(s, i) && (Used(s.procs[i]) ==> Bears(s, i, s.procs[i].pid));
    }
    forall i: nat, k: nat, pid: nat | Bears(t, i, pid) && Bears(t, k, pid) ensures i == k {
      assert Bears(s, i, pid) && Bears(s, k, pid);
    }
    forall x | x in t.exited && x !in t.reaped ensures exists i: nat :: Bears(t, i, x) && t.procs[i].status == Zombie {
      if x == s.procs[p].pid {
        assert Bears(t, p, x);
      } else {
        var i: nat :| Bears(s, i, x) && s.procs[i].status == Zombie;
        assert Bears(t, i, x) && t.procs[i].status == Zombie;
      }
    }
  }

  lemma WaitPids(s: State, c: nat, p: nat, t: State)
    requires PidsOk(s) && c < |s.cpus| && p < |s.procs| && s.procs[p].status == Running && t == WaitTurn(s, c, p)
    ensures PidsOk(t)
  {
    hide PidsOk;
    var z := FirstZombie(s.procs, p, 0);
    if z < |s.procs| { PidsGone(s, z, t); } else { PidsSame(s, t); }
  }

  lemma CpuStepPids(s: State, c: nat, e: Event, t: State)
    requires Core(s) && PidsOk(s) && OnCpu(s, c) && CpuStep(s, c, e) == Some(t)
    ensures PidsOk(t)
  {
    assert CpuOk(s, c);
    var i := s.cpus[c].value;
    var p := s.procs[i];
    assert TaskOk(s, i);
    hide Core, PidsOk, WaitTurn, ExitTurn, CpuOk;
    match e
    case Fork1(_) =>
      if FirstUnused(s.procs, 0) < |s.procs| { PidsFork(s, FirstUnused(s.procs, 0), t); } else { PidsSame(s, t); }
    case ForkFail(_) => PidsGone(s, p.task.child, t);
    case Exit(_) => ExitIs(s, c, i); ExitedIs(s, c, i); PidsExit(s, c, i, t);
    case Wait(_) => WaitPids(s, c, i, t);
    case _ => PidsSame(s, t);
  }

  lemma ExitedIs(s: State, c: nat, p: nat)
    requires Core(s) && c < |s.cpus| && s.cpus[c] == Some(p) && p < |s.procs| && s.procs[p].task == Free && p != s.init
    ensures var t := ExitTurn(s, c, p);
      t.exited == s.exited + [s.procs[p].pid] && t.reaped == s.reaped && t.nextpid == s.nextpid
  {
    hide Core, Reparented;
    ExitPre(s, c, p);
    var woken := WakeAll(s.procs, OfProc(s.procs[p].parent.value));
    ReparentedAt(woken, p, s.init, p);
  }

  lemma StepPids(s: State, e: Event, t: State)
    requires Core(s) && PidsOk(s) && Next(s, e) == Some(t)
    ensures PidsOk(t)
  {
    hide Core, PidsOk, CpuStep, WaitTurn;
    match e
    case Dispatch(c, p) =>
      var u := s.(procs := s.procs[p := Dispatched(s.procs[p], c)], cpus := s.cpus[c := Some(p)]);
      PidsSame(s, u);
      if s.procs[p].task == Waiting { WaitPids(u, c, p, t); }
    case Wakeup(_) => PidsSame(s, t);
    case Kill(_) => PidsSame(s, t);
    case _ => CpuStepPids(s, e.c, e, t);
  }

  // ---- whole runs ----

  ghost predicate Inv(s: State) { Core(s) && PidsOk(s) }

  lemma InitInv(s: State)
    requires Init(s)
    ensures Inv(s)
  {
    forall i: nat | i < |s.procs| ensures ParentOk(s, i) && TaskOk(s, i) && RunOk(s, i) && PidOk(s, i) { }
  }

  lemma {:induction false} RunKeeps(s: State, es: seq<Event>, t: State)
    requires Inv(s) && Run(s, es, t)
    ensures Inv(t)
    decreases |es|
  {
    hide Core, PidsOk, Next;
    if es != [] {
      StepCore(s, es[0], Next(s, es[0]).value);
      StepPids(s, es[0], Next(s, es[0]).value);
      RunKeeps(Next(s, es[0]).value, es[1..], t);
    }
  }

  /** On every run, every process but init has a living parent that will be told when it exits. */
  lemma ParentsLive(s: State, es: seq<Event>, t: State, i: nat)
    requires Init(s) && Run(s, es, t) && i < |t.procs| && i != t.init
    requires (Alive(t.procs[i]) || t.procs[i].status == Zombie)
    ensures t.procs[i].parent.Some? && t.procs[i].parent.value < |t.procs| && Alive(t.procs[t.procs[i].parent.value])
  {
    InitInv(s);
    RunKeeps(s, es, t);
    assert ParentOk(t, i);
  }

  /** On every run, no process is asleep in wait while a child of it is a zombie. */
  lemma NoWaitMissed(s: State, es: seq<Event>, t: State, p: nat, j: nat)
    requires Init(s) && Run(s, es, t) && p < |t.procs| && j < |t.procs|
    requires t.procs[p].status == Sleeping && t.procs[p].chan == OfProc(p)
    ensures !(t.procs[j].status == Zombie && t.procs[j].parent == Some(p))
  {
    InitInv(s);
    RunKeeps(s, es, t);
    assert TaskOk(t, p);
    assert InWait(t, p) && !IsZombieOf(t.procs, j, p);
  }

  /** On every run, p is running exactly if some CPU has it as its process, and then only one does. */
  lemma RunningMatchesCpus(s: State, es: seq<Event>, t: State, p: nat)
    requires Init(s) && Run(s, es, t) && p < |t.procs|
    ensures t.procs[p].status == Running <==> exists c: nat :: c < |t.cpus| && t.cpus[c] == Some(p)
    ensures forall c: nat, d: nat :: c < |t.cpus| && d < |t.cpus| && t.cpus[c] == Some(p) && t.cpus[d] == Some(p) ==>
      c == d
  {
    InitInv(s);
    RunKeeps(s, es, t);
    assert RunOk(t, p);
    forall c: nat | c < |t.cpus| && t.cpus[c] == Some(p) ensures t.procs[p].status == Running && t.procs[p].cpu == c {
      assert CpuOk(t, c);
    }
  }

  /** On every run, each pid exits and is reaped at most once, and an exited pid is a zombie until it is reaped. */
  lemma ReapedOnce(s: State, es: seq<Event>, t: State, pid: nat)
    requires Init(s) && Run(s, es, t) && pid in t.exited
    ensures multiset(t.exited)[pid] == 1
    ensures multiset(t.reaped)[pid] == 1 || multiset(t.reaped)[pid] == 0
    ensures multiset(t.reaped)[pid] == 0 <==>
      exists i: nat :: i < |t.procs| && t.procs[i].status == Zombie && t.procs[i].pid == pid
  {
    InitInv(s);
    RunKeeps(s, es, t);
    DistinctOnce(t.exited, pid);
    DistinctOnce(t.reaped, pid);
    if pid !in t.reaped {
      var i: nat :| Bears(t, i, pid) && t.procs[i].status == Zombie;
    } else {
      forall i: nat | i < |t.procs| && t.procs[i].status == Zombie ensures t.procs[i].pid != pid { assert PidOk(t, i); }
    }
  }

  lemma {:induction false} DistinctOnce(x: seq<nat>, v: nat)
    requires Distinct(x)
    ensures multiset(x)[v] == if v in x then 1 else 0
    decreases |x|
  {
    if x != [] {
      var y := x[..|x| - 1];
      assert x == y + [x[|x| - 1]];
      DistinctOnce(y, v);
    }
  }
}
