/**
 * sleeplock.c with the sleep and wakeup of proc.c, as steps of any number of processes.  The inner spinlock
 * and ptable.lock are acquired only when free.
 */
module SleepLock {
  import opened Common

  /**
   * Where a process is.  Entering to Taken is acquiresleep: Down has seen the lock taken and wants
   * ptable.lock, Both holds both spinlocks, Dozing only ptable.lock.  Returning to Leaving is
   * releasesleep: Freed has cleared locked and calls wakeup next.
   */
  datatype Pc = Idle | Elsewhere | Entering | Testing | Down | Both | Dozing | Asleep | Taken | Holding
              | Returning | Clearing | Freed | Leaving

  datatype State = State(locked: bool, pid: nat, inner: Option<nat>, ptable: Option<nat>, procs: seq<Pc>)

  /** Kill is also any other spurious wakeup. */
  datatype Event = Acquire(p: nat) | Release(p: nat) | Step(p: nat) | Kill(p: nat) | Grab(p: nat)

  function Go(s: State, p: nat, pc: Pc): State
    requires p < |s.procs|
  {
    s.(procs := s.procs[p := pc])
  }

  function WakeUp(procs: seq<Pc>): (r: seq<Pc>)
    ensures |r| == |procs|
    ensures forall k :: 0 <= k < |r| ==> r[k] == if procs[k] == Asleep then Entering else procs[k]
  {
    if procs == [] then []
    else WakeUp(procs[..|procs| - 1]) + [var q := procs[|procs| - 1]; if q == Asleep then Entering else q]
  }

  /** The steps of acquiresleep. */
  function TakeStep(s: State, p: nat): Option<State>
    requires p < |s.procs|
  {
    match s.procs[p]
    case Entering => if s.inner == None then Some(Go(s, p, Testing).(inner := Some(p))) else None
    case Testing =>
      if s.locked then Some(Go(s, p, Down)) else Some(Go(s, p, Taken).(locked := true, pid := p))
    case Down => if s.ptable == None then Some(Go(s, p, Both).(ptable := Some(p))) else None
    case Both => Some(Go(s, p, Dozing).(inner := None))
    case Dozing => Some(Go(s, p, Asleep).(ptable := None))
    case Taken => Some(Go(s, p, Holding).(inner := None))
    case _ => None
  }

  /** The steps of releasesleep, and the end of unrelated work under ptable.lock. */
  function GiveStep(s: State, p: nat): Option<State>
    requires p < |s.procs|
  {
    match s.procs[p]
    case Returning => if s.inner == None then Some(Go(s, p, Clearing).(inner := Some(p))) else None
    case Clearing => Some(Go(s, p, Freed).(locked := false, pid := 0))
    case Freed => if s.ptable == None then Some(Go(s.(procs := WakeUp(s.procs)), p, Leaving)) else None
    case Leaving => Some(Go(s, p, Idle).(inner := None))
    case Elsewhere => Some(Go(s, p, Idle).(ptable := None))
    case _ => None
  }

  function PcStep(s: State, p: nat): Option<State>
    requires p < |s.procs|
  {
    if TakeStep(s, p).Some? then TakeStep(s, p) else GiveStep(s, p)
  }

  /** Only the process that holds the lock releases it. */
  function Next(s: State, e: Event): Option<State> {
    if e.p >= |s.procs| then None
    else match e
      case Acquire(p) => if s.procs[p] == Idle then Some(Go(s, p, Entering)) else None
      case Release(p) => if s.procs[p] == Holding then Some(Go(s, p, Returning)) else None
      case Step(p) => PcStep(s, p)
      case Kill(p) => if s.procs[p] == Asleep && s.ptable == None then Some(Go(s, p, Entering)) else None
      case Grab(p) =>
        if s.procs[p] == Idle && s.ptable == None then Some(Go(s, p, Elsewhere).(ptable := Some(p))) else None
  }

  ghost predicate Init(s: State) {
    && !s.locked && s.inner == s.ptable == None && forall p :: 0 <= p < |s.procs| ==> s.procs[p] == Idle
  }

  ghost predicate Run(s: State, es: seq<Event>, t: State)
    decreases |es|
  {
    if es == [] then s == t else Next(s, es[0]).Some? && Run(Next(s, es[0]).value, es[1..], t)
  }

  // ---- what every reachable state satisfies ----

  predicate HoldsInner(pc: Pc) {
    pc == Testing || pc == Down || pc == Both || pc == Taken || pc == Clearing || pc == Freed || pc == Leaving
  }

  predicate HoldsPtable(pc: Pc) { pc == Both || pc == Dozing || pc == Elsewhere }

  /** The process has the sleep lock. */
  predicate Owns(pc: Pc) { pc == Taken || pc == Holding || pc == Returning || pc == Clearing }

  /** Somebody has cleared locked and has yet to call wakeup. */
  predicate Due(s: State) { s.inner.Some? && s.inner.value < |s.procs| && s.procs[s.inner.value] == Freed }

  ghost predicate Inv(s: State) {
    && (s.inner.Some? ==> s.inner.value < |s.procs|) && (s.ptable.Some? ==> s.ptable.value < |s.procs|)
    && (s.locked ==> s.pid < |s.procs| && Owns(s.procs[s.pid]))
    && forall p: nat {:trigger s.procs[p]} :: p < |s.procs| ==>
         && (HoldsInner(s.procs[p]) <==> s.inner == Some(p)) && (HoldsPtable(s.procs[p]) <==> s.ptable == Some(p))
         && (Owns(s.procs[p]) <==> s.locked && s.pid == p)
         && (s.procs[p] == Down || s.procs[p] == Both ==> s.locked)
         && (s.procs[p] == Dozing || s.procs[p] == Asleep ==> s.locked || Due(s))
  }

  /** A spinlock taken or given back by p, or left alone. */
  predicate Passes(lock: Option<nat>, lock': Option<nat>, p: nat) {
    lock' == lock || (lock == None && lock' == Some(p)) || (lock == Some(p) && lock' == None)
  }

  /** The steps of p that do not touch the sleep lock itself. */
  lemma MoveKeeps(s: State, p: nat, pc: Pc, t: State)
    requires Inv(s) && p < |s.procs| && s.procs[p] != Freed && pc != Freed && Owns(pc) == Owns(s.procs[p])
    requires t == Go(s, p, pc).(inner := t.inner, ptable := t.ptable)
    requires Passes(s.inner, t.inner, p) && Passes(s.ptable, t.ptable, p)
    requires (HoldsInner(pc) <==> t.inner == Some(p)) && (HoldsPtable(pc) <==> t.ptable == Some(p))
    requires pc == Down || pc == Both ==> s.locked
    requires pc == Dozing || pc == Asleep ==> s.locked || Due(s)
    ensures Inv(t)
  {
    hide HoldsInner, HoldsPtable, Owns;
    assert Due(s) ==> s.inner.value != p && Due(t);
    assert s.locked && s.pid != p ==> t.procs[s.pid] == s.procs[s.pid];
  }

  lemma TakeKeeps(s: State, p: nat, t: State)
    requires Inv(s) && p < |s.procs| && s.procs[p] == Testing && !s.locked
    requires t == Go(s, p, Taken).(locked := true, pid := p)
    ensures Inv(t)
  {
  }

  lemma ClearKeeps(s: State, p: nat, t: State)
    requires Inv(s) && p < |s.procs| && s.procs[p] == Clearing && t == Go(s, p, Freed).(locked := false, pid := 0)
    ensures Inv(t)
  {
  }

  lemma WakeKeeps(s: State, p: nat, t: State)
    requires Inv(s) && p < |s.procs| && s.procs[p] == Freed && s.ptable == None
    requires t == Go(s.(procs := WakeUp(s.procs)), p, Leaving)
    ensures Inv(t)
  {
    assert s.locked ==> t.procs[s.pid] == s.procs[s.pid];
  }

  lemma TakeStepKeeps(s: State, p: nat, t: State)
    requires Inv(s) && p < |s.procs| && TakeStep(s, p) == Some(t)
    ensures Inv(t)
  {
    AtPc(s, p);
    hide Inv;
    match s.procs[p]
    case Testing => if s.locked { MoveKeeps(s, p, Down, t); } else { TakeKeeps(s, p, t); }
    case Entering => MoveKeeps(s, p, Testing, t);
    case Down => MoveKeeps(s, p, Both, t);
    case Both => MoveKeeps(s, p, Dozing, t);
    case Dozing => MoveKeeps(s, p, Asleep, t);
    case Taken => MoveKeeps(s, p, Holding, t);
    case _ =>
  }

  lemma GiveStepKeeps(s: State, p: nat, t: State)
    requires Inv(s) && p < |s.procs| && GiveStep(s, p) == Some(t)
    ensures Inv(t)
  {
    AtPc(s, p);
    hide Inv;
    match s.procs[p]
    case Returning => MoveKeeps(s, p, Clearing, t);
    case Clearing => ClearKeeps(s, p, t);
    case Freed => WakeKeeps(s, p, t);
    case Leaving => MoveKeeps(s, p, Idle, t);
    case Elsewhere => MoveKeeps(s, p, Idle, t);
    case _ =>
  }

  lemma AtPc(s: State, p: nat)
    requires Inv(s) && p < |s.procs|
    ensures (HoldsInner(s.procs[p]) <==> s.inner == Some(p)) && (HoldsPtable(s.procs[p]) <==> s.ptable == Some(p))
    ensures s.procs[p] == Down || s.procs[p] == Both ==> s.locked
    ensures s.procs[p] == Dozing ==> s.locked || Due(s)
  {
  }

  lemma StepKeeps(s: State, e: Event, t: State)
    requires Inv(s) && Next(s, e) == Some(t)
    ensures Inv(t)
  {
    if e.Step? {
      hide Inv, TakeStep, GiveStep;
      if TakeStep(s, e.p).Some? { TakeStepKeeps(s, e.p, t); } else { GiveStepKeeps(s, e.p, t); }
    } else {
      assert s.locked && s.pid != e.p ==> t.procs[s.pid] == s.procs[s.pid];
    }
  }

  lemma {:induction false} RunKeeps(s: State, es: seq<Event>, t: State)
    requires Inv(s) && Run(s, es, t)
    ensures Inv(t)
    decreases |es|
  {
    hide Inv;
    if es != [] {
      StepKeeps(s, es[0], Next(s, es[0]).value);
      RunKeeps(Next(s, es[0]).value, es[1..], t);
    }
  }

  /** On every run at most one process has the lock, and what holdingsleep computes is whether it is p. */
  lemma MutualExclusion(s: State, es: seq<Event>, t: State, p: nat, q: nat)
    requires Init(s) && Run(s, es, t) && p < |t.procs| && q < |t.procs| && Owns(t.procs[p])
    ensures Owns(t.procs[q]) <==> q == p
    ensures Owns(t.procs[q]) <==> t.locked && t.pid == q
  {
    assert Inv(s);
    RunKeeps(s, es, t);
    assert t.procs[p] == t.procs[p] && t.procs[q] == t.procs[q];
  }

  /** On every run, while the lock is free and nobody is at work on it, no process sleeps on it. */
  lemma NoLostWakeup(s: State, es: seq<Event>, t: State)
    requires Init(s) && Run(s, es, t) && t.inner == None && !t.locked
    ensures forall p: nat :: p < |t.procs| ==> t.procs[p] != Asleep && t.procs[p] != Dozing
  {
    assert Inv(s);
    RunKeeps(s, es, t);
  }

  /** p has nothing to do with the lock, has it, or sleeps until it is free. */
  predicate AtRest(pc: Pc) { pc == Idle || pc == Holding || pc == Asleep }

  /** On every run there is no deadlock: while some process is in the middle of a call, some process can go on. */
  lemma NoDeadlock(s: State, es: seq<Event>, t: State, p: nat)
    requires Init(s) && Run(s, es, t) && p < |t.procs| && !AtRest(t.procs[p])
    ensures exists q: nat :: q < |t.procs| && PcStep(t, q).Some?
  {
    hide Inv, Run, WakeUp;
    InitInv(s);
    RunKeeps(s, es, t);
    Locks(t);
    var q := if t.ptable.Some? then t.ptable.value else if t.inner.Some? then t.inner.value else p;
    LocksOf(t, q);
    assert PcStep(t, q).Some?;
  }

  lemma InitInv(s: State)
    requires Init(s)
    ensures Inv(s)
  {
  }

  lemma Locks(s: State)
    requires Inv(s)
    ensures (s.inner.Some? ==> s.inner.value < |s.procs|) && (s.ptable.Some? ==> s.ptable.value < |s.procs|)
  {
  }

  lemma LocksOf(s: State, p: nat)
    requires Inv(s) && p < |s.procs|
    ensures (HoldsInner(s.procs[p]) <==> s.inner == Some(p)) && (HoldsPtable(s.procs[p]) <==> s.ptable == Some(p))
  {
  }

  /** Asleep is only who waits for a process that has the lock or is about to wake the sleepers. */
  lemma SleepsForHolder(s: State, es: seq<Event>, t: State, p: nat)
    requires Init(s) && Run(s, es, t) && p < |t.procs| && t.procs[p] == Asleep
    ensures exists q: nat :: q < |t.procs| && q != p && (Owns(t.procs[q]) || t.procs[q] == Freed)
  {
    assert Inv(s);
    RunKeeps(s, es, t);
    var q := if t.locked then t.pid else t.inner.value;
    assert t.procs[q] == t.procs[q];
  }
}
