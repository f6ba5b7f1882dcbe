/**
 * The code of log.c, run by one kernel thread at a time.  Every disk write and every locked section is a
 * step of LogMachine, so trace holds each disk image a crash could leave behind.
 */
module LogCode {
  import opened Common
  import opened Blocks
  import opened LogMachine

  /** A run of the machine from boot, state by state. */
  ghost predicate Linked(trace: seq<State>, events: seq<Event>) {
    && |trace| == |events| + 1
    && var n := |events| - 1;
       if events == [] then Init(trace[0])
       else Linked(trace[..n + 1], events[..n]) && Next(trace[n], events[n]) == Some(trace[n + 1])
  }

  lemma {:induction false} LinkedSnoc(trace: seq<State>, events: seq<Event>, e: Event, t: State)
    requires Linked(trace, events) && Next(trace[|events|], e) == Some(t)
    ensures Linked(trace + [t], events + [e])
  {
    hide Next, Init;
    assert (trace + [t])[..|events| + 1] == trace;
    assert (events + [e])[..|events|] == events;
  }

  lemma LinkedLength(trace: seq<State>, events: seq<Event>)
    requires Linked(trace, events)
    ensures |trace| == |events| + 1
  {
  }

  /** Each state of a trace satisfies the machine's invariant: a crash there loses nothing durable. */
  lemma {:induction false} TraceInv(trace: seq<State>, events: seq<Event>, i: nat)
    requires Linked(trace, events) && i < |trace|
    ensures Inv(trace[i])
    decreases |trace|
  {
    hide Inv, Next, Init;
    var n := |events|;
    if n == 0 {
      InitInv(trace[0]);
    } else if i < n {
      TraceInv(trace[..n], events[..n - 1], i);
    } else {
      TraceInv(trace[..n], events[..n - 1], n - 1);
      StepKeeps(trace[n - 1], events[n - 1], trace[n]);
    }
  }

  lemma CanWriteLog(trace: seq<State>, events: seq<Event>, s: State, k: nat)
    requires Linked(trace, events) && s == trace[|events|] && s.phase == Logging(k) && k < |s.lh|
    ensures TailFits(s, k)
    ensures Next(s, WriteLogBlock)
         == Some(s.(disk := s.disk[s.layout.start + 1 + k := View(s.disk, s.cache, s.lh[k])],
                    phase := Logging(k + 1)))
  {
    hide Inv, Next, Linked;
    LinkedLength(trace, events);
    TraceInv(trace, events, |events|);
    WriteLogBlockNext(s, k);
  }

  lemma CanLogWrite(s: State, k: nat, b: nat, data: Block)
    requires s.phase.Running? && k < |s.active| && s.layout.Home(b) && RoomForWrite(s)
    ensures Next(s, LogWrite(k, b, data)) ==
      Some(s.(cache := s.cache[b := data], lh := Absorb(s.lh, b),
              active := s.active[k := s.active[k].(blocks := s.active[k].blocks + {b})],
              history := s.history + [Write(s.active[k].id, b, data)]))
  {
  }

  lemma CanInstall(trace: seq<State>, events: seq<Event>, s: State, k: nat)
    requires Linked(trace, events) && s == trace[|events|] && s.phase == Installing(k) && k < |s.lh|
    ensures TailFits(s, k) && s.layout.start + 1 + k !in s.cache
    ensures Next(s, InstallBlock)
         == Some(s.(disk := s.disk[s.lh[k] := s.disk[s.layout.start + 1 + k]],
                    cache := s.cache - {s.lh[k]}, phase := Installing(k + 1)))
  {
    hide Inv, Next, Linked;
    LinkedLength(trace, events);
    TraceInv(trace, events, |events|);
    InstallBlockNext(s, k);
  }

  lemma CanWriteHeader(trace: seq<State>, events: seq<Event>, s: State)
    requires Linked(trace, events) && s == trace[|events|]
    ensures s.layout.start < |s.disk| && HeadFits(s.lh)
    ensures s.phase == Logging(|s.lh|) && s.lh != [] ==>
      Next(s, WriteHeader)
      == Some(s.(disk := s.disk[s.layout.start := Headed(s.disk[s.layout.start], s.lh)],
                 phase := Installing(0), durable := |s.history|))
    ensures s.phase == Installing(|s.lh|) ==>
      Next(s, ClearHeader)
      == Some(s.(disk := s.disk[s.layout.start := Headed(s.disk[s.layout.start], [])], lh := [], phase := Running))
  {
    hide Inv, Next, Linked;
    LinkedLength(trace, events);
    TraceInv(trace, events, |events|);
    HeaderNext(s);
  }

  lemma CanReadHead(trace: seq<State>, events: seq<Event>, s: State)
    requires Linked(trace, events) && s == trace[|events|] && s.phase.Booting?
    ensures s.layout.start < |s.disk| && |Head(s.disk[s.layout.start])| <= LOGSIZE
    ensures s.disk[s.layout.start].words[0] < WORDS
    ensures Next(s, ReadHead) == Some(s.(lh := Head(s.disk[s.layout.start]), phase := Installing(0)))
  {
    hide Inv, Next, Linked;
    LinkedLength(trace, events);
    TraceInv(trace, events, |events|);
    ReadHeadNext(s);
  }

  lemma ActiveMeansRunning(trace: seq<State>, events: seq<Event>, s: State)
    requires Linked(trace, events) && s == trace[|events|] && s.active != []
    ensures s.phase.Running?
  {
    hide Linked, Next, OpsInv, Represents, Head, ApplyAll;
    LinkedLength(trace, events);
    TraceInv(trace, events, |events|);
  }

  lemma NoneActive(trace: seq<State>, events: seq<Event>, s: State)
    requires Linked(trace, events) && s == trace[|events|] && s.phase.Booting?
    ensures s.active == []
  {
    hide Linked, Next, OpsInv, Represents, Head, ApplyAll;
    LinkedLength(trace, events);
    TraceInv(trace, events, |events|);
  }

  lemma IdleNow(trace: seq<State>, events: seq<Event>, s: State)
    requires Linked(trace, events) && s == trace[|events|] && s.phase.Running? && s.active == []
    ensures s.durable == |s.history| && Agrees(s.layout, s.disk, s.Current()) && s.Stable() == s.Current()
  {
    hide Linked, Next, OpsInv, ApplyAll;
    LinkedLength(trace, events);
    TraceInv(trace, events, |events|);
    assert s.history[..s.durable] == s.history;
  }

  /** From index i to j, the trace has the given writes, of which the first d are durable. */
  ghost predicate Steady(trace: seq<State>, i: nat, j: nat, h: seq<Write>, d: nat) {
    i <= j <= |trace| && forall k :: i <= k < j ==> trace[k].history == h && trace[k].durable == d
  }

  class Log {
    const start: nat
    const size: nat
    var n: nat
    var block: array<nat>
    var outstanding: nat
    var committing: bool
    var disk: Disk
    var cache: map<nat, Block>
    ghost var trace: seq<State>
    ghost var events: seq<Event>

    ghost function Now(): State
      reads this
      requires trace != []
    {
      trace[|trace| - 1]
    }

    ghost predicate Valid()
      reads this, block
    {
      && block.Length == LOGSIZE && n <= LOGSIZE
      && |trace| == |events| + 1 && Linked(trace, events)
      && Now().layout == Layout(start, size, |disk|)
      && Now().disk == disk && Now().cache == cache && Now().lh == block[..n]
      && |Now().active| == outstanding
    }

    /** The state between locked sections: committing tells whether a commit is under way. */
    ghost predicate Ready()
      reads this, block
    {
      Valid() && committing == !Now().phase.Running?
    }

    /** Boots from a disk whose log is empty. */
    constructor (start: nat, size: nat, disk: Disk)
      requires Layout(start, size, |disk|).Valid() && disk[start].words[0] == 0
      ensures Valid() && fresh(block) && Now().phase.Booting? && !committing
      ensures this.disk == disk && |trace| == 1
    {
      this.start, this.size, this.disk := start, size, disk;
      n, outstanding, committing, cache := 0, 0, false, map[];
      block := new nat[LOGSIZE];
      trace := [State(Layout(start, size, |disk|), disk, map[], [], [], Booting, disk, [], 0, 0, {})];
      events := [];
      new;
      assert block[..0] == [];
    }

    /** Boots after a crash of an earlier run: the disk is what that run left, committed header and all. */
    constructor Reboot(start: nat, size: nat, disk: Disk, ghost trace0: seq<State>, ghost events0: seq<Event>)
      requires Linked(trace0, events0) && Layout(start, size, |disk|) == trace0[|events0|].layout
      requires trace0[|events0|].disk == disk
      ensures Valid() && fresh(block) && Now().phase.Booting? && !committing
      ensures this.start == start && this.size == size && this.disk == disk && trace == trace0 + [Now()]
      ensures Now().Stable() == trace0[|events0|].Stable()
    {
      this.start, this.size, this.disk := start, size, disk;
      n, outstanding, committing, cache := 0, 0, false, map[];
      block := new nat[LOGSIZE];
      ghost var s := trace0[|events0|];
      ghost var t := Next(s, Crash).value;
      LinkedSnoc(trace0, events0, Crash, t);
      TraceInv(trace0, events0, |events0|);
      CrashOps(s.history, s.durable, s.active, s.nextOp, s.finished);
      trace, events := trace0 + [t], events0 + [Crash];
      new;
      assert block[..0] == [];
    }

    ghost method Advance(e: Event, t: State)
      requires Linked(trace, events) && Next(Now(), e) == Some(t)
      modifies this`trace, this`events
      ensures Linked(trace, events) && |trace| == |events| + 1 && trace == old(trace) + [t]
    {
      hide Linked, Next;
      LinkedLength(trace, events);
      LinkedSnoc(trace, events, e, t);
      trace, events := trace + [t], events + [e];
    }

    /** One turn of write_log: a pinned block goes to its log block. */
    method CopyToLog(tail: nat)
      requires Valid() && Now().phase == Logging(tail) && tail < n
      modifies this`disk, this`trace, this`events
      ensures Valid() && Now() == old(Now()).(disk := disk, phase := Logging(tail + 1))
      ensures trace == old(trace) + [Now()]
    {
      hide Linked, Next;
      CanWriteLog(trace, events, Now(), tail);
      disk := disk[start + tail + 1 := View(disk, cache, block[tail])];
      Advance(WriteLogBlock, Now().(disk := disk, phase := Logging(tail + 1)));
    }

    /** Copies the pinned blocks into the log area. */
    method WriteLog()
      requires Valid() && Now().phase == Logging(0)
      modifies this`disk, this`trace, this`events
      ensures Valid() && Now() == old(Now()).(disk := disk, phase := Logging(n))
      ensures old(trace) <= trace
      ensures Steady(trace, |old(trace)|, |trace|, old(Now().history), old(Now().durable))
    {
      hide Linked, Next;
      var tail := 0;
      while tail < n
        invariant tail <= n && Valid() && Now() == old(Now()).(disk := disk, phase := Logging(tail))
        invariant old(trace) <= trace
        invariant Steady(trace, |old(trace)|, |trace|, old(Now().history), old(Now().durable))
      {
        CopyToLog(tail);
        tail := tail + 1;
      }
    }

    /** Stores the in-memory header in the header block. */
    method WriteHead()
      requires block.Length == LOGSIZE && n <= LOGSIZE && start < |disk|
      requires HeadFits(block[..n])
      modifies this`disk
      ensures disk == old(disk)[start := Headed(old(disk[start]), block[..n])]
    {
      ghost var b, lh := disk[start], block[..n];
      var hb := Block(disk[start].words[0 := n]);
      assert hb == PutHead(b, lh, 0);
      hide PutHead;
      var i := 0;
      while i < n
        invariant i <= n && hb == PutHead(b, lh, i) && disk == old(disk) && block[..n] == lh
      {
        PutHeadMore(b, lh, i);
        hb := Block(hb.words[i + 1 := block[i]]);
        i := i + 1;
      }
      disk := disk[start := hb];
    }

    /** Loads the header block into the in-memory header. */
    method ReadHead()
      requires block.Length == LOGSIZE && start < |disk| && |Head(disk[start])| <= LOGSIZE
      requires disk[start].words[0] < WORDS
      modifies this`n, block
      ensures n <= LOGSIZE && block[..n] == Head(disk[start])
    {
      var lh := disk[start];
      n := lh.words[0];
      var i := 0;
      while i < n
        invariant i <= n && n == lh.words[0]
        invariant forall j :: 0 <= j < i ==> block[j] == lh.words[j + 1]
      {
        block[i] := lh.words[i + 1];
        i := i + 1;
      }
    }

    /** One turn of install_trans: a log block goes to its home location and its buffer is unpinned. */
    method CopyHome(tail: nat)
      requires Valid() && Now().phase == Installing(tail) && tail < n
      modifies this`disk, this`cache, this`trace, this`events
      ensures Valid() && Now() == old(Now()).(disk := disk, cache := cache, phase := Installing(tail + 1))
      ensures trace == old(trace) + [Now()]
    {
      hide Linked, Next;
      CanInstall(trace, events, Now(), tail);
      disk := disk[block[tail] := View(disk, cache, start + tail + 1)];
      cache := cache - {block[tail]};
      Advance(InstallBlock, Now().(disk := disk, cache := cache, phase := Installing(tail + 1)));
    }

    /** Copies the logged blocks to their home locations. */
    method InstallTrans()
      requires Valid() && Now().phase == Installing(0)
      modifies this`disk, this`cache, this`trace, this`events
      ensures Valid() && Now() == old(Now()).(disk := disk, cache := cache, phase := Installing(n))
      ensures old(trace) <= trace
      ensures Steady(trace, |old(trace)|, |trace|, old(Now().history), old(Now().durable))
    {
      hide Linked, Next;
      var tail := 0;
      while tail < n
        invariant tail <= n && Valid() && Now() == old(Now()).(disk := disk, cache := cache, phase := Installing(tail))
        invariant old(trace) <= trace
        invariant Steady(trace, |old(trace)|, |trace|, old(Now().history), old(Now().durable))
      {
        CopyHome(tail);
        tail := tail + 1;
      }
    }

    /** Erases the transaction from the log. */
    method EraseHead()
      requires Valid() && Now().phase == Installing(n)
      modifies this`n, this`disk, this`trace, this`events
      ensures Valid() && n == 0 && Now() == old(Now()).(disk := disk, lh := [], phase := Running)
      ensures trace == old(trace) + [Now()]
    {
      hide Linked, Next, Headed;
      CanWriteHeader(trace, events, Now());
      n := 0;
      assert block[..0] == [];
      WriteHead();
      Advance(ClearHeader, Now().(disk := disk, lh := [], phase := Running));
    }

    method LoadHead()
      requires Valid() && Now().phase.Booting?
      modifies this`n, block, this`trace, this`events
      ensures Valid() && Now() == old(Now()).(lh := block[..n], phase := Installing(0))
      ensures trace == old(trace) + [Now()]
    {
      hide Next, Head, Linked;
      CanReadHead(trace, events, Now());
      ReadHead();
      Advance(LogMachine.ReadHead, Now().(lh := Head(disk[start]), phase := Installing(0)));
    }

    /** Recovery at boot: afterwards every home block holds what the durable writes left there. */
    method RecoverFromLog()
      requires Valid() && Now().phase.Booting?
      modifies this`n, block, this`disk, this`cache, this`trace, this`events
      ensures Valid() && Now().phase.Running? && n == 0 && outstanding == 0
      ensures old(trace) <= trace && Agrees(Now().layout, disk, old(Now().Stable()))
      ensures Now().history == old(Now().history) && Now().durable == old(Now().durable)
      ensures Steady(trace, |old(trace)|, |trace|, old(Now().history), old(Now().durable))
    {
      hide Linked, Next, Agrees, ApplyAll;
      NoneActive(trace, events, Now());
      LoadHead();
      InstallTrans();
      EraseHead();
      IdleNow(trace, events, Now());
    }

    /** The commit point: one block write makes the whole history durable. */
    method CommitHead()
      requires Valid() && Now().phase == Logging(n) && n > 0
      modifies this`disk, this`trace, this`events
      ensures Valid()
      ensures Now() == old(Now()).(disk := disk, phase := Installing(0), durable := |old(Now().history)|)
      ensures trace == old(trace) + [Now()]
    {
      hide Linked, Next, Headed;
      CanWriteHeader(trace, events, Now());
      WriteHead();
      Advance(WriteHeader, Now().(disk := disk, phase := Installing(0), durable := |Now().history|));
    }

    method SkipCommit()
      requires Valid() && Now().phase == Logging(0) && n == 0
      modifies this`trace, this`events
      ensures Valid() && Now() == old(Now()).(phase := Running, durable := |old(Now().history)|)
      ensures trace == old(trace) + [Now()]
    {
      Advance(CommitNothing, Now().(phase := Running, durable := |Now().history|));
    }

    /** commit(): every disk image on the way keeps the old durable writes or has all the new ones. */
    method Commit() returns (ghost m: nat)
      requires Valid() && Now().phase == Logging(0) && outstanding == 0
      modifies this`n, this`disk, this`cache, this`trace, this`events
      ensures Valid() && Now().phase.Running? && n == 0 && Now().active == []
      ensures old(trace) <= trace && Now().history == old(Now().history)
      ensures Agrees(Now().layout, disk, old(Now().Current()))
      ensures Steady(trace, |old(trace)|, m, old(Now().history), old(Now().durable))
      ensures Steady(trace, m, |trace|, old(Now().history), |old(Now().history)|)
    {
      hide Linked, Next, Agrees, ApplyAll;
      m := |trace|;
      if n > 0 {
        WriteLog();
        m := |trace|;
        CommitHead();
        InstallTrans();
        EraseHead();
      } else {
        SkipCommit();
      }
      IdleNow(trace, events, Now());
    }

    /**
     * One turn of begin_op's loop: starts an operation, or reports that the caller must sleep because
     * a commit is under way or the log might run out of space.
     */
    method BeginOp() returns (started: bool)
      requires Ready()
      modifies this`outstanding, this`trace, this`events
      ensures Ready()
      ensures started <==> !committing && n + (old(outstanding) + 1) * MAXOPBLOCKS <= LOGSIZE
      ensures started ==> outstanding == old(outstanding) + 1
      ensures started ==> Now() == old(Now()).(active := old(Now().active) + [Op(old(Now().nextOp), {})],
                                               nextOp := old(Now().nextOp) + 1)
      ensures !started ==> trace == old(trace) && outstanding == old(outstanding)
    {
      if committing {
        return false;
      } else if n + (outstanding + 1) * MAXOPBLOCKS > LOGSIZE {
        return false;
      }
      Advance(LogMachine.BeginOp,
              Now().(active := Now().active + [Op(Now().nextOp, {})], nextOp := Now().nextOp + 1));
      outstanding := outstanding + 1;
      return true;
    }

    /** The position of b in the list, or n. */
    method Find(b: nat) returns (i: nat)
      requires block.Length == LOGSIZE && n <= LOGSIZE
      ensures i <= n && (i < n ==> block[i] == b)
      ensures i == n <==> b !in block[..n]
    {
      i := 0;
      while i < n
        invariant i <= n && b !in block[..i]
      {
        if block[i] == b { return; }
        i := i + 1;
      }
    }

    /** log_write by the k-th active operation; ok is false where the kernel panics. */
    method LogWrite(ghost k: nat, blockno: nat, data: Block) returns (ok: bool)
      requires Ready() && Now().layout.Home(blockno)
      requires outstanding > 0 ==> k < outstanding
      modifies this`n, block, this`cache, this`trace, this`events
      ensures Ready()
      ensures ok <==> old(n) < LOGSIZE && old(n) < size - 1 && outstanding >= 1
      ensures ok ==> cache == old(cache)[blockno := data] && block[..n] == Absorb(old(block[..n]), blockno)
      ensures ok ==> Now().history == old(Now().history) + [Write(old(Now().active)[k].id, blockno, data)]
      ensures !ok ==> trace == old(trace)
    {
      hide Linked;
      if n >= LOGSIZE || n >= size - 1 {
        return false;
      }
      if outstanding < 1 {
        return false;
      }
      ActiveMeansRunning(trace, events, Now());
      ghost var s := Now();
      var i := Find(blockno);
      block[i] := blockno;
      if i == n {
        n := n + 1;
      }
      cache := cache[blockno := data];
      assert block[..n] == Absorb(s.lh, blockno);
      ghost var op := s.active[k];
      CanLogWrite(s, k, blockno, data);
      hide Next, Absorb;
      Advance(LogMachine.LogWrite(k, blockno, data),
              s.(cache := cache, lh := block[..n],
                 active := s.active[k := op.(blocks := op.blocks + {blockno})],
                 history := s.history + [Write(op.id, blockno, data)]));
      return true;
    }

    /**
     * end_op by the k-th active operation.  The last one commits: then every write so far is durable
     * and on its home block, and no disk image on the way holds a part of them.
     */
    method EndOp(ghost k: nat) returns (ghost m: nat)
      requires Ready() && !committing && k < outstanding
      modifies this`n, this`outstanding, this`committing, this`disk, this`cache, this`trace, this`events
      ensures Ready() && !committing && outstanding == old(outstanding) - 1
      ensures old(trace) <= trace && Now().history == old(Now().history)
      ensures outstanding == 0 ==> Agrees(Now().layout, disk, old(Now().Current()))
      ensures Steady(trace, |old(trace)|, m, old(Now().history), old(Now().durable))
      ensures Steady(trace, m, |trace|, old(Now().history), |old(Now().history)|)
      ensures outstanding > 0 ==> m == |trace| && disk == old(disk)
    {
      hide Linked, Next, ApplyAll, GoodHead;
      LeaveOp(k);
      if outstanding > 0 {
        m := |trace|;
        return;
      }
      committing := true;
      ghost var n0, s := |trace|, Now();
      m := Commit();
      assert trace[n0 - 1] == s;
      committing := false;
    }

    method LeaveOp(ghost k: nat)
      requires Valid() && Now().phase.Running? && k < outstanding
      modifies this`outstanding, this`trace, this`events
      ensures Valid() && trace == old(trace) + [Now()] && outstanding == old(outstanding) - 1
      ensures Now() == old(Now()).(active := Now().active, finished := Now().finished,
                                   phase := if outstanding == 0 then Logging(0) else Running)
    {
      outstanding := outstanding - 1;
      ghost var s := Now();
      ghost var rest := s.active[..k] + s.active[k + 1..];
      Advance(LogMachine.EndOp(k),
              s.(active := rest, phase := if rest == [] then Logging(0) else Running,
                 finished := s.finished + {s.active[k].id}));
    }
  }
}
