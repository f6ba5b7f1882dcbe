/** The loops over the process table in proc.c, as they run under ptable.lock. */
module ProcCode {
  import opened Common
  import opened Procs

  class Table {
    var procs: seq<Proc>

    constructor (procs: seq<Proc>)
      ensures this.procs == procs
    {
      this.procs := procs;
    }

    method Wakeup1(chan: Chan)
      modifies this
      ensures |procs| == |old(procs)| && procs == WakeAll(old(procs), chan)
      ensures forall k :: 0 <= k < |procs| ==>
        var p := old(procs)[k];
        procs[k] == p.(status := if p.status == Sleeping && p.chan == chan then Runnable else p.status)
    {
      var i := 0;
      while i < |procs|
        invariant 0 <= i <= |procs| == |old(procs)|
        invariant forall k :: 0 <= k < i ==> procs[k] == Woken(old(procs)[k], chan)
        invariant forall k :: i <= k < |procs| ==> procs[k] == old(procs)[k]
      {
        if procs[i].status == Sleeping && procs[i].chan == chan {
          procs := procs[i := procs[i].(status := Runnable)];
        }
        i := i + 1;
      }
    }

    /** exit's loop: passes the children of p to init, waking init for each zombie among them. */
    method PassChildren(p: nat, init: nat)
      modifies this
      ensures procs == Reparented(old(procs), p, init)
    {
      hide Passing, WakeAll;
      PassNone(procs, p, init);
      var i := 0;
      ghost var seen := false;
      while i < |procs|
        invariant 0 <= i <= |procs| == |old(procs)| && Passing(old(procs), procs, i, seen, p, init)
      {
        PassOne(old(procs), procs, i, seen, p, init);
        if procs[i].parent == Some(p) {
          procs := procs[i := procs[i].(parent := Some(init))];
          if procs[i].status == Zombie {
            Wakeup1(OfProc(init));
            seen := true;
          }
        }
        i := i + 1;
      }
      PassAll(old(procs), procs, seen, p, init);
    }

    /** wait's scan: the first zombie child, and whether there is any child if there is none. */
    method ScanChildren(p: nat) returns (havekids: bool, z: nat)
      ensures z == FirstZombie(procs, p, 0)
      ensures z == |procs| ==> (havekids <==> exists i: nat :: IsChildOf(procs, i, p))
    {
      havekids, z := false, 0;
      while z < |procs|
        invariant 0 <= z <= |procs| && FirstZombie(procs, p, 0) == FirstZombie(procs, p, z)
        invariant havekids <==> exists i: nat :: i < z && IsChildOf(procs, i, p)
      {
        if procs[z].parent == Some(p) {
          assert IsChildOf(procs, z, p);
          havekids := true;
          if procs[z].status == Zombie { return; }
        }
        z := z + 1;
      }
      assert havekids ==> exists i: nat :: IsChildOf(procs, i, p);
    }

    /** allocproc's search. */
    method FindUnused() returns (j: nat)
      ensures j == FirstUnused(procs, 0)
    {
      j := 0;
      while j < |procs|
        invariant 0 <= j <= |procs| && FirstUnused(procs, 0) == FirstUnused(procs, j)
      {
        if procs[j].status == Unused { return; }
        j := j + 1;
      }
    }

    /** kill: the first slot with the pid is marked, and woken if it sleeps; nothing else changes. */
    method Kill(pid: nat) returns (found: bool, ghost i: nat)
      modifies this
      ensures found <==> exists k :: 0 <= k < |old(procs)| && old(procs)[k].pid == pid
      ensures !found ==> procs == old(procs)
      ensures found ==>
        && i < |old(procs)| == |procs| && old(procs)[i].pid == pid
        && (forall k :: 0 <= k < i ==> old(procs)[k].pid != pid) && procs == old(procs)[i := procs[i]]
        && procs[i].killed
        && procs[i].status == (if old(procs)[i].status == Sleeping then Runnable else old(procs)[i].status)
        && procs[i] == old(procs)[i].(killed := true, status := procs[i].status)
      ensures forall s: State :: s.procs == old(procs) ==> Next(s, Event.Kill(pid)) == Some(s.(procs := procs))
    {
      var j := 0;
      while j < |procs|
        invariant 0 <= j <= |procs| && procs == old(procs) && FirstPid(procs, pid, 0) == FirstPid(procs, pid, j)
        invariant forall k :: 0 <= k < j ==> procs[k].pid != pid
      {
        if procs[j].pid == pid {
          procs := procs[j := procs[j].(killed := true)];
          if procs[j].status == Sleeping { procs := procs[j := procs[j].(status := Runnable)]; }
          return true, j;
        }
        j := j + 1;
      }
      found, i := false, j;
    }

    /** exit under ptable.lock, for process p on CPU c: what ExitTurn says of the table. */
    method Exit(p: nat, init: nat, ghost s: State, ghost c: nat)
      requires s.procs == procs && s.init == init && p < |procs| && procs[p].parent.Some? && c < |s.cpus|
      modifies this
      ensures procs == ExitTurn(s, c, p).procs
    {
      Wakeup1(OfProc(procs[p].parent.value));
      ghost var woken := procs;
      PassChildren(p, init);
      ReparentedAt(woken, p, init, p);
      procs := procs[p := procs[p].(status := Zombie)];
    }
  }

  /** A process once exit's loop has passed it, or not, with a zombie child seen or not. */
  function Passed(q: Proc, passed: bool, seen: bool, p: nat, init: nat): Proc {
    var r := if passed && q.parent == Some(p) then q.(parent := Some(init)) else q;
    if seen then Woken(r, OfProc(init)) else r
  }

  /** exit's loop after i turns. */
  ghost predicate Passing(procs: seq<Proc>, procs': seq<Proc>, i: nat, seen: bool, p: nat, init: nat) {
    && |procs'| == |procs| && (seen <==> exists k: nat :: k < i && IsZombieOf(procs, k, p))
    && forall k: nat :: k < |procs| ==> procs'[k] == Passed(procs[k], k < i, seen, p, init)
  }

  lemma PassNone(procs: seq<Proc>, p: nat, init: nat)
    ensures Passing(procs, procs, 0, false, p, init)
  {
  }

  lemma PassAll(procs: seq<Proc>, procs': seq<Proc>, seen: bool, p: nat, init: nat)
    requires Passing(procs, procs', |procs|, seen, p, init)
    ensures procs' == Reparented(procs, p, init)
  {
    assert seen <==> exists k: nat :: IsZombieOf(procs, k, p);
  }

  /** The three ways that a turn can go. */
  lemma PassOne(procs: seq<Proc>, procs': seq<Proc>, i: nat, seen: bool, p: nat, init: nat)
    requires Passing(procs, procs', i, seen, p, init) && i < |procs|
    ensures procs'[i].parent != Some(p) ==> Passing(procs, procs', i + 1, seen, p, init)
    ensures procs'[i].parent == Some(p) ==>
      var next := procs'[i := procs'[i].(parent := Some(init))];
      if procs'[i].status == Zombie then Passing(procs, WakeAll(next, OfProc(init)), i + 1, true, p, init)
      else Passing(procs, next, i + 1, seen, p, init)
  {
    assert IsZombieOf(procs, i, p) <==> procs'[i].parent == Some(p) && procs'[i].status == Zombie;
  }
}
