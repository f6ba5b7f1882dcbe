/**
 * pipe.c with the sleep and wakeup of proc.c, as steps of any number of processes.  A step is what a process
 * does between two points at which another could interfere; spinlocks are acquired only when free.
 */
module Pipe {
  import opened Common
  import opened Blocks

  const PIPESIZE := 512

  /** What a process is doing with the pipe: writing, with i bytes done; reading; closing the write or read end. */
  datatype Op = W(buf: seq<Byte>, i: nat) | R(n: nat) | C(w: bool)

  /**
   * Where a process is.  Enter wants the pipe's lock.  To sleep, Down wants ptable.lock, Both holds the two
   * locks, Dozing only ptable.lock.
   */
  datatype Pc =
    | Idle | Elsewhere | Enter(op: Op) | Down(op: Op) | Both(op: Op) | Dozing(op: Op) | Asleep(op: Op)
    | WLoop(buf: seq<Byte>, i: nat) | WFull(buf: seq<Byte>, i: nat) | WDone
    | RTest(n: nat) | RCopy(n: nat, got: seq<Byte>) | RDone(n: nat, got: seq<Byte>)
    | CSet(w: bool) | CWake(w: bool) | Leave

  type Ring = s: seq<Byte> | |s| == PIPESIZE witness seq(PIPESIZE, i => 0)

  /** A call of piperead for n bytes by process p returned got. */
  datatype Returned = Returned(p: nat, n: nat, got: seq<Byte>)

  /**
   * writer and reader say that the end's file is still open; written and taken are all the bytes that
   * went through so far, and handed the calls of piperead that have returned, in order.
   */
  datatype State = State(data: Ring, nread: Uint, nwrite: Uint, readopen: bool, writeopen: bool,
                         lock: Option<nat>, ptable: Option<nat>, procs: seq<Pc>, killed: set<nat>,
                         writer: bool, reader: bool, written: seq<Byte>, taken: seq<Byte>, handed: seq<Returned>)

  datatype Event = Write(p: nat, buf: seq<Byte>) | Read(p: nat, n: nat) | Close(p: nat, w: bool)
                 | Step(p: nat) | Kill(p: nat) | Grab(p: nat)

  predicate Full(nread: Uint, nwrite: Uint) { nwrite == (nread + PIPESIZE) % UINT_LIMIT }

  predicate Empty(s: State) { s.nread == s.nwrite }

  function Go(s: State, p: nat, pc: Pc): State
    requires p < |s.procs|
  {
    s.(procs := s.procs[p := pc])
  }

  /** wakeup: every writer, or every reader, that is asleep becomes runnable and goes for the lock. */
  function WakeUp(procs: seq<Pc>, writers: bool): (r: seq<Pc>)
    ensures |r| == |procs|
    ensures forall k :: 0 <= k < |r| ==> r[k] == Woken(procs[k], writers)
  {
    if procs == [] then [] else WakeUp(procs[..|procs| - 1], writers) + [Woken(procs[|procs| - 1], writers)]
  }

  function Woken(pc: Pc, writers: bool): Pc {
    if pc.Asleep? && (if writers then pc.op.W? else pc.op.R?) then Enter(pc.op) else pc
  }

  predicate Writing(pc: Pc) {
    pc.WLoop? || pc.WFull? || pc.WDone?
    || ((pc.Enter? || pc.Down? || pc.Both? || pc.Dozing? || pc.Asleep?) && pc.op.W?)
  }

  predicate Reading(pc: Pc) {
    pc.RTest? || pc.RCopy? || pc.RDone?
    || ((pc.Enter? || pc.Down? || pc.Both? || pc.Dozing? || pc.Asleep?) && pc.op.R?)
  }

  /** Taking the pipe's lock, if it is free. */
  function Locked(s: State, p: nat, pc: Pc): Option<State>
    requires p < |s.procs|
  {
    if s.lock == None then Some(Go(s, p, pc).(lock := Some(p))) else None
  }

  function Unlocked(s: State, p: nat, pc: Pc): Option<State>
    requires p < |s.procs|
  {
    Some(Go(s, p, pc).(lock := None))
  }

  /** One turn of pipewrite's loops. */
  function WriteStep(s: State, p: nat, buf: seq<Byte>, i: nat): Option<State>
    requires p < |s.procs|
  {
    if i >= |buf| then Some(Go(s, p, WDone))
    else if Full(s.nread, s.nwrite) then
      if !s.readopen || p in s.killed then Unlocked(s, p, Idle) else Some(Go(s, p, WFull(buf, i)))
    else
      Some(Go(s, p, WLoop(buf, i + 1)).(data := s.data[Pos(s.nwrite) := buf[i]],
                                        nwrite := (s.nwrite + 1) % UINT_LIMIT, written := s.written + [buf[i]]))
  }

  /** One turn of piperead's copy loop. */
  function ReadStep(s: State, p: nat, n: nat, got: seq<Byte>): Option<State>
    requires p < |s.procs|
  {
    if |got| >= n || Empty(s) then Some(Go(s, p, RDone(n, got)))
    else
      var b := s.data[Pos(s.nread)];
      Some(Go(s, p, RCopy(n, got + [b])).(nread := (s.nread + 1) % UINT_LIMIT, taken := s.taken + [b]))
  }

  /** sleep's part: ptable.lock, then the pipe's lock released, then asleep and ptable.lock released. */
  function SleepStep(s: State, p: nat, pc: Pc): Option<State>
    requires p < |s.procs|
  {
    match pc
    case Down(op) => if s.ptable == None then Some(Go(s, p, Both(op)).(ptable := Some(p))) else None
    case Both(op) => Unlocked(s, p, Dozing(op))
    case Dozing(op) => Some(Go(s, p, Asleep(op)).(ptable := None))
    case _ => None
  }

  /** A step that calls wakeup, and so needs ptable.lock. */
  function WakeStep(s: State, p: nat, pc: Pc): Option<State>
    requires p < |s.procs|
  {
    if s.ptable != None then None
    else match pc
      case WFull(buf, i) => Some(Go(s.(procs := WakeUp(s.procs, false)), p, Down(W(buf, i))))
      case WDone => Some(Go(s.(procs := WakeUp(s.procs, false)), p, Leave))
      case RDone(n, got) =>
        Some(Go(s.(procs := WakeUp(s.procs, true), handed := s.handed + [Returned(p, n, got)]), p, Leave))
      case CWake(w) => Some(Go(s.(procs := WakeUp(s.procs, !w)), p, Leave))
      case _ => None
  }

  /** Taking the pipe's lock at the start of a call or after sleeping. */
  function EnterStep(s: State, p: nat, op: Op): Option<State>
    requires p < |s.procs|
  {
    match op
    case W(buf, i) => Locked(s, p, WLoop(buf, i))
    case R(n) => Locked(s, p, RTest(n))
    case C(w) => Locked(s, p, CSet(w))
  }

  /** piperead's test for an empty pipe. */
  function TestStep(s: State, p: nat, n: nat): Option<State>
    requires p < |s.procs|
  {
    if !(Empty(s) && s.writeopen) then Some(Go(s, p, RCopy(n, [])))
    else if p in s.killed then Unlocked(s, p, Idle)
    else Some(Go(s, p, Down(R(n))))
  }

  /** pipeclose's assignment, and the releases. */
  function OtherStep(s: State, p: nat, pc: Pc): Option<State>
    requires p < |s.procs|
  {
    match pc
    case CSet(w) =>
      Some(Go(s, p, CWake(w)).(writeopen := s.writeopen && !w, readopen := s.readopen && w))
    case Leave => Unlocked(s, p, Idle)
    case Elsewhere => Some(Go(s, p, Idle).(ptable := None))
    case _ => None
  }

  predicate Waking(pc: Pc) { pc.WFull? || pc.WDone? || pc.RDone? || pc.CWake? }

  predicate Settling(pc: Pc) { pc.Down? || pc.Both? || pc.Dozing? }

  function PcStep(s: State, p: nat): Option<State>
    requires p < |s.procs|
  {
    var pc := s.procs[p];
    if pc.Enter? then EnterStep(s, p, pc.op)
    else if pc.WLoop? then WriteStep(s, p, pc.buf, pc.i)
    else if pc.RCopy? then ReadStep(s, p, pc.n, pc.got)
    else if pc.RTest? then TestStep(s, p, pc.n)
    else if Waking(pc) then WakeStep(s, p, pc)
    else if Settling(pc) then SleepStep(s, p, pc)
    else OtherStep(s, p, pc)
  }

  predicate NoneWriting(procs: seq<Pc>) { forall k :: 0 <= k < |procs| ==> !Writing(procs[k]) }

  predicate NoneReading(procs: seq<Pc>) { forall k :: 0 <= k < |procs| ==> !Reading(procs[k]) }

  /**
   * A process may write or read while it has the end's file open, and an end is closed when its last file
   * is, so when nobody is using it.
   */
  function Next(s: State, e: Event): Option<State> {
    if e.p >= |s.procs| then None
    else match e
      case Write(p, buf) => if s.procs[p] == Idle && s.writer then Some(Go(s, p, Enter(W(buf, 0)))) else None
      case Read(p, n) => if s.procs[p] == Idle && s.reader then Some(Go(s, p, Enter(R(n)))) else None
      case Close(p, w) =>
        if s.procs[p] != Idle then None
        else if w then
          if s.writer && NoneWriting(s.procs) then Some(Go(s, p, Enter(C(w))).(writer := false)) else None
        else
          if s.reader && NoneReading(s.procs) then Some(Go(s, p, Enter(C(w))).(reader := false)) else None
      case Step(p) => PcStep(s, p)
      case Kill(p) =>
        if s.ptable != None then None
        else
          var pc := s.procs[p];
          Some(Go(s, p, if pc.Asleep? then Enter(pc.op) else pc).(killed := s.killed + {p}))
      case Grab(p) =>
        if s.procs[p] == Idle && s.ptable == None then Some(Go(s, p, Elsewhere).(ptable := Some(p))) else None
  }

  ghost predicate Init(s: State) {
    && s.nread == s.nwrite == 0 && s.readopen && s.writeopen && s.lock == s.ptable == None && s.writer && s.reader
    && s.written == s.taken == [] && s.handed == [] && s.killed == {}
    && forall k :: 0 <= k < |s.procs| ==> s.procs[k] == Idle
  }

  ghost predicate Run(s: State, es: seq<Event>, t: State)
    decreases |es|
  {
    if es == [] then s == t else Next(s, es[0]).Some? && Run(Next(s, es[0]).value, es[1..], t)
  }

  // ---- the ring buffer ----

  function Buffered(nread: Uint, nwrite: Uint): nat { (nwrite - nread) % UINT_LIMIT }

  /** The place in the ring of the byte with counter value c. */
  function Pos(c: nat): nat { c % PIPESIZE }

  /** The n bytes in the ring from counter value r on. */
  function RingBytes(data: Ring, r: nat, n: nat): (b: seq<Byte>)
    ensures |b| == n && forall k: nat {:trigger RingAt(data, r, k)} {:trigger b[k]} :: k < n ==>
      b[k] == RingAt(data, r, k)
  {
    if n == 0 then [] else RingBytes(data, r, n - 1) + [RingAt(data, r, n - 1)]
  }

  function RingAt(data: Ring, r: nat, k: nat): Byte { data[Pos(r + k)] }

  /** First in, first out: what was read is what was written, short of what is buffered. */
  ghost predicate Fifo(s: State) {
    && Buffered(s.nread, s.nwrite) <= PIPESIZE
    && s.written == s.taken + RingBytes(s.data, s.nread, Buffered(s.nread, s.nwrite))
  }

  /** The counters wrap at a multiple of the ring's size, so wrapping does not move a byte. */
  lemma PosWrap(c: nat)
    ensures Pos(c % UINT_LIMIT) == Pos(c)
  {
    var q := c / UINT_LIMIT;
    assert c == c % UINT_LIMIT + q * 8388608 * PIPESIZE;
    PosPlus(c % UINT_LIMIT, q * 8388608);
  }

  lemma PosPlus(x: nat, m: nat)
    ensures Pos(x + m * PIPESIZE) == Pos(x)
  {
  }

  lemma PosDistinct(a: nat, b: nat)
    requires a < b < a + PIPESIZE
    ensures Pos(a) != Pos(b)
  {
  }

  lemma PosAdd(a: nat, b: nat, k: nat)
    requires Pos(a) == Pos(b)
    ensures Pos(a + k) == Pos(b + k)
  {
  }

  lemma BufferedEnd(nread: Uint, nwrite: Uint)
    ensures (nread + Buffered(nread, nwrite)) % UINT_LIMIT == nwrite
  {
  }

  lemma BufferedMore(nread: Uint, nwrite: Uint)
    requires Buffered(nread, nwrite) < PIPESIZE
    ensures Buffered(nread, (nwrite + 1) % UINT_LIMIT) == Buffered(nread, nwrite) + 1
  {
  }

  lemma BufferedLess(nread: Uint, nwrite: Uint)
    requires 0 < Buffered(nread, nwrite) <= PIPESIZE
    ensures Buffered((nread + 1) % UINT_LIMIT, nwrite) == Buffered(nread, nwrite) - 1
  {
  }

  lemma RingGains(data: Ring, nread: Uint, nwrite: Uint, b: Byte)
    requires Buffered(nread, nwrite) < PIPESIZE
    ensures Buffered(nread, (nwrite + 1) % UINT_LIMIT) == Buffered(nread, nwrite) + 1 && Pos(nwrite) < PIPESIZE
    ensures RingBytes(data[Pos(nwrite) := b], nread, Buffered(nread, nwrite) + 1)
         == RingBytes(data, nread, Buffered(nread, nwrite)) + [b]
  {
    BufferedMore(nread, nwrite);
    BufferedEnd(nread, nwrite);
    PosWrap(nread + Buffered(nread, nwrite));
    RingUpdated(data, nread, Buffered(nread, nwrite), b, Pos(nwrite));
  }

  lemma RingUpdated(data: Ring, r: nat, n: nat, b: Byte, i: nat)
    requires n < PIPESIZE && i == Pos(r + n)
    ensures i < PIPESIZE && RingBytes(data[i := b], r, n + 1) == RingBytes(data, r, n) + [b]
  {
    var data' := data[i := b];
    forall k: nat | k < n ensures RingAt(data', r, k) == RingAt(data, r, k) { PosDistinct(r + k, r + n); }
    hide Pos, RingAt;
    var x, y := RingBytes(data', r, n + 1), RingBytes(data, r, n) + [b];
    forall k: nat | k < n ensures x[k] == y[k] { }
  }

  lemma RingLoses(data: Ring, nread: Uint, nwrite: Uint)
    requires 0 < Buffered(nread, nwrite) <= PIPESIZE
    ensures Buffered((nread + 1) % UINT_LIMIT, nwrite) == Buffered(nread, nwrite) - 1 && Pos(nread) < PIPESIZE
    ensures RingBytes(data, nread, Buffered(nread, nwrite))
         == [data[Pos(nread)]] + RingBytes(data, (nread + 1) % UINT_LIMIT, Buffered(nread, nwrite) - 1)
  {
    BufferedLess(nread, nwrite);
    PosWrap(nread + 1);
    RingShifted(data, nread, (nread + 1) % UINT_LIMIT, Buffered(nread, nwrite));
  }

  lemma RingShifted(data: Ring, r: nat, r': nat, n: nat)
    requires 0 < n && Pos(r') == Pos(r + 1)
    ensures Pos(r) < PIPESIZE && RingBytes(data, r, n) == [data[Pos(r)]] + RingBytes(data, r', n - 1)
  {
    forall k: nat | k < n - 1 ensures RingAt(data, r', k) == RingAt(data, r, k + 1) { PosAdd(r', r + 1, k); }
    assert RingAt(data, r, 0) == data[Pos(r)];
    hide Pos, RingAt;
    var x, y := RingBytes(data, r, n), RingBytes(data, r', n - 1);
    forall k: nat | k < n - 1 ensures x[k + 1] == y[k] { }
    assert x == [x[0]] + y;
  }

  // ---- what every reachable state satisfies ----

  predicate HoldsLock(pc: Pc) {
    pc.WLoop? || pc.WFull? || pc.WDone? || pc.RTest? || pc.RCopy? || pc.RDone? || pc.Down? || pc.Both?
    || pc.CSet? || pc.CWake? || pc.Leave?
  }

  predicate HoldsPtable(pc: Pc) { pc.Both? || pc.Dozing? || pc.Elsewhere? }

  ghost predicate LocksOk(s: State) {
    && (s.lock.Some? ==> s.lock.value < |s.procs|) && (s.ptable.Some? ==> s.ptable.value < |s.procs|)
    && forall p: nat {:trigger s.procs[p]} :: p < |s.procs| ==>
         (HoldsLock(s.procs[p]) <==> s.lock == Some(p)) && (HoldsPtable(s.procs[p]) <==> s.ptable == Some(p))
  }

  predicate Closing(pc: Pc, w: bool) {
    (pc.Enter? && pc.op == C(w)) || (pc.CSet? && pc.w == w) || (pc.CWake? && pc.w == w)
  }

  /** Nobody writes, or reads, once the end's file is closed, and only closers set the flags. */
  ghost predicate EndsOk(s: State) {
    && (s.writer ==> s.writeopen) && (s.reader ==> s.readopen)
    && forall p: nat {:trigger s.procs[p]} :: p < |s.procs| ==>
         && (Writing(s.procs[p]) ==> s.writer) && (Reading(s.procs[p]) ==> s.reader)
         && (Closing(s.procs[p], true) ==> !s.writer) && (Closing(s.procs[p], false) ==> !s.reader)
         && (Sleeping(s.procs[p]) ==> !s.procs[p].op.C?)
  }

  predicate Sleeping(pc: Pc) { pc.Down? || pc.Both? || pc.Dozing? || pc.Asleep? }

  /** What op waits for has not happened. */
  predicate Blocked(s: State, op: Op) {
    match op
    case W(_, _) => Full(s.nread, s.nwrite) && s.readopen
    case R(_) => Empty(s) && s.writeopen
    case C(_) => false
  }

  /** The holder of the lock has seen that op must wait. */
  ghost predicate HolderOk(s: State) {
    s.lock.Some? && s.lock.value < |s.procs| ==>
      var pc := s.procs[s.lock.value];
      (pc.WFull? ==> Blocked(s, W(pc.buf, pc.i))) && (pc.Down? || pc.Both? ==> Blocked(s, pc.op))
  }

  /** The holder of the lock will wake the writers, or the readers, before it lets go. */
  predicate WillWake(pc: Pc, writers: bool) {
    if writers then pc.RCopy? || pc.RDone? || pc == CWake(false)
    else pc.WLoop? || pc.WFull? || pc.WDone? || pc == CWake(true)
  }

  predicate Due(s: State, writers: bool) {
    s.lock.Some? && s.lock.value < |s.procs| && WillWake(s.procs[s.lock.value], writers)
  }

  /** Asleep, or past the last look at the pipe and on the way. */
  predicate Gone(pc: Pc, writers: bool) { (pc.Asleep? || pc.Dozing?) && if writers then pc.op.W? else pc.op.R? }

  /** No writer, or reader, sleeps unless it must, or is about to be woken. */
  ghost predicate Calm(s: State, writers: bool) {
    forall p: nat {:trigger s.procs[p]} :: p < |s.procs| && Gone(s.procs[p], writers) ==>
      Blocked(s, s.procs[p].op) || Due(s, writers)
  }

  ghost predicate Inv(s: State) {
    Fifo(s) && Ordered(s) && LocksOk(s) && EndsOk(s) && HolderOk(s) && Calm(s, true)
  }

  lemma FullOrEmpty(s: State)
    requires Fifo(s)
    ensures Full(s.nread, s.nwrite) <==> Buffered(s.nread, s.nwrite) == PIPESIZE
    ensures Empty(s) <==> Buffered(s.nread, s.nwrite) == 0
    ensures !(Full(s.nread, s.nwrite) && Empty(s))
  {
  }

  lemma WriteFifo(s: State, p: nat, buf: seq<Byte>, i: nat)
    requires Fifo(s) && p < |s.procs|
    ensures Fifo(WriteStep(s, p, buf, i).value)
  {
    hide Buffered, Pos, RingBytes;
    FullOrEmpty(s);
    if i < |buf| && !Full(s.nread, s.nwrite) { RingGains(s.data, s.nread, s.nwrite, buf[i]); }
  }

  lemma ReadFifo(s: State, p: nat, n: nat, got: seq<Byte>)
    requires Fifo(s) && p < |s.procs|
    ensures Fifo(ReadStep(s, p, n, got).value)
  {
    hide Buffered, Pos, RingBytes;
    FullOrEmpty(s);
    if |got| < n && !Empty(s) {
      RingLoses(s.data, s.nread, s.nwrite);
      var b, r := s.data[Pos(s.nread)], RingBytes(s.data, (s.nread + 1) % UINT_LIMIT, Buffered(s.nread, s.nwrite) - 1);
      assert s.taken + ([b] + r) == (s.taken + [b]) + r;
    }
  }

  ghost predicate SameData(s: State, t: State) {
    && t.data == s.data && t.nread == s.nread && t.nwrite == s.nwrite && t.written == s.written && t.taken == s.taken
  }

  lemma SameFifo(s: State, t: State)
    requires Fifo(s) && SameData(s, t)
    ensures Fifo(t)
  {
  }

  lemma EnterStepData(s: State, p: nat, op: Op)
    requires p < |s.procs| && EnterStep(s, p, op).Some?
    ensures SameData(s, EnterStep(s, p, op).value)
  {
  }

  lemma WakeStepData(s: State, p: nat, pc: Pc)
    requires p < |s.procs| && WakeStep(s, p, pc).Some?
    ensures SameData(s, WakeStep(s, p, pc).value)
  {
    hide WakeUp;
  }

  lemma SleepStepData(s: State, p: nat, pc: Pc)
    requires p < |s.procs| && SleepStep(s, p, pc).Some?
    ensures SameData(s, SleepStep(s, p, pc).value)
  {
  }

  lemma PcStepFifo(s: State, p: nat, t: State)
    requires Fifo(s) && p < |s.procs| && PcStep(s, p) == Some(t)
    ensures Fifo(t)
  {
    hide Fifo, WakeStep, SleepStep, WriteStep, ReadStep, EnterStep, Waking, Settling;
    var pc := s.procs[p];
    if pc.WLoop? {
      WriteFifo(s, p, pc.buf, pc.i);
    } else if pc.RCopy? {
      ReadFifo(s, p, pc.n, pc.got);
    } else {
      if pc.Enter? { EnterStepData(s, p, pc.op); }
      else if !pc.RTest? && Waking(pc) { WakeStepData(s, p, pc); }
      else if !pc.RTest? && Settling(pc) { SleepStepData(s, p, pc); }
      SameFifo(s, t);
    }
  }

  lemma StepFifo(s: State, e: Event, t: State)
    requires Fifo(s) && Next(s, e) == Some(t)
    ensures Fifo(t)
  {
    hide Fifo, PcStep, NoneReading, NoneWriting;
    if e.Step? { PcStepFifo(s, e.p, t); } else { SameFifo(s, t); }
  }

  // ---- what readers return ----

  /** All the bytes returned so far. */
  function Concat(handed: seq<Returned>): seq<Byte> {
    if handed == [] then [] else Concat(handed[..|handed| - 1]) + handed[|handed| - 1].got
  }

  function Hand(pc: Pc): seq<Byte> { if pc.RCopy? || pc.RDone? then pc.got else [] }

  /** What the process with the lock has taken and not yet returned. */
  function InHand(s: State): seq<Byte> {
    if s.lock.Some? && s.lock.value < |s.procs| then Hand(s.procs[s.lock.value]) else []
  }

  /** Every byte taken has been returned, or is about to be; nobody gets more than was asked for. */
  ghost predicate Ordered(s: State) {
    && s.taken == Concat(s.handed) + InHand(s)
    && (forall i :: 0 <= i < |s.handed| ==> |s.handed[i].got| <= s.handed[i].n)
    && (forall p: nat {:trigger s.procs[p]} :: p < |s.procs| && (s.procs[p].RCopy? || s.procs[p].RDone?) ==>
          |s.procs[p].got| <= s.procs[p].n)
  }

  /** Process p moves on, perhaps taking or giving back the lock, but takes and returns nothing. */
  ghost predicate Moves(s: State, p: nat, pc: Pc, t: State) {
    && p < |s.procs| && t.procs == s.procs[p := pc] && t.taken == s.taken && t.handed == s.handed
    && Hand(s.procs[p]) == [] && Hand(pc) == []
    && (t.lock == s.lock || (s.lock == None && t.lock == Some(p)) || (s.lock == Some(p) && t.lock == None))
  }

  lemma MoveOrdered(s: State, p: nat, pc: Pc, t: State)
    requires Ordered(s) && Moves(s, p, pc, t)
    ensures Ordered(t)
  {
    hide Concat;
    assert InHand(t) == InHand(s);
  }

  lemma Joined<T>(a: seq<T>, b: seq<T>, c: seq<T>)
    ensures (a + b) + c == a + (b + c)
  {
  }

  lemma ReadOrdered(s: State, p: nat, t: State)
    requires Ordered(s) && LocksOk(s) && p < |s.procs| && s.procs[p].RCopy?
    requires ReadStep(s, p, s.procs[p].n, s.procs[p].got) == Some(t)
    ensures Ordered(t)
  {
    assert s.lock == Some(p);
    hide LocksOk, Pos, Concat;
    Joined(Concat(s.handed), s.procs[p].got, [s.data[Pos(s.nread)]]);
  }

  lemma ConcatMore(handed: seq<Returned>, r: Returned)
    ensures Concat(handed + [r]) == Concat(handed) + r.got
  {
    assert (handed + [r])[..|handed|] == handed;
  }

  lemma ReturnOrdered(s: State, p: nat, t: State)
    requires Ordered(s) && LocksOk(s) && p < |s.procs| && s.procs[p].RDone?
    requires WakeStep(s, p, s.procs[p]) == Some(t)
    ensures Ordered(t)
  {
    assert s.lock == Some(p);
    hide LocksOk, Concat, WakeUp;
    ConcatMore(s.handed, Returned(p, s.procs[p].n, s.procs[p].got));
    assert InHand(t) == [] && Concat(t.handed) + [] == Concat(t.handed);
  }

  lemma WakeUpOrdered(s: State, writers: bool, t: State)
    requires Ordered(s) && t == s.(procs := WakeUp(s.procs, writers))
    ensures Ordered(t)
  {
    hide Concat;
    assert InHand(t) == InHand(s);
  }

  lemma WakeOrdered(s: State, p: nat, t: State)
    requires Ordered(s) && LocksOk(s) && p < |s.procs| && !s.procs[p].RDone? && WakeStep(s, p, s.procs[p]) == Some(t)
    ensures Ordered(t)
  {
    hide Ordered, LocksOk;
    var writers := s.procs[p] == CWake(false);
    var u := s.(procs := WakeUp(s.procs, writers));
    WakeUpOrdered(s, writers, u);
    hide WakeUp;
    MoveOrdered(u, p, t.procs[p], t);
  }

  lemma LockIs(s: State, p: nat)
    requires LocksOk(s) && p < |s.procs|
    ensures HoldsLock(s.procs[p]) <==> s.lock == Some(p)
  {
  }

  lemma EnterMoves(s: State, p: nat, op: Op, t: State)
    requires p < |s.procs| && s.procs[p] == Enter(op) && EnterStep(s, p, op) == Some(t)
    ensures p < |t.procs| && Moves(s, p, t.procs[p], t)
  {
  }

  lemma WriteMoves(s: State, p: nat, buf: seq<Byte>, i: nat, t: State)
    requires p < |s.procs| && s.procs[p] == WLoop(buf, i) && s.lock == Some(p) && WriteStep(s, p, buf, i) == Some(t)
    ensures p < |t.procs| && Moves(s, p, t.procs[p], t)
  {
    hide Pos, Full;
  }

  lemma TestMoves(s: State, p: nat, n: nat, t: State)
    requires p < |s.procs| && s.procs[p] == RTest(n) && s.lock == Some(p) && TestStep(s, p, n) == Some(t)
    ensures p < |t.procs| && Moves(s, p, t.procs[p], t)
  {
  }

  lemma SleepMoves(s: State, p: nat, pc: Pc, t: State)
    requires p < |s.procs| && s.procs[p] == pc && (pc.Both? ==> s.lock == Some(p)) && SleepStep(s, p, pc) == Some(t)
    ensures p < |t.procs| && Moves(s, p, t.procs[p], t)
  {
  }

  lemma OtherMoves(s: State, p: nat, pc: Pc, t: State)
    requires p < |s.procs| && s.procs[p] == pc && (pc.Leave? ==> s.lock == Some(p)) && OtherStep(s, p, pc) == Some(t)
    ensures p < |t.procs| && Moves(s, p, t.procs[p], t)
  {
  }

  /** The steps of p that neither take a byte nor call wakeup. */
  lemma PlainOrdered(s: State, p: nat, t: State)
    requires Ordered(s) && LocksOk(s) && p < |s.procs| && PcStep(s, p) == Some(t)
    requires !s.procs[p].RCopy? && !Waking(s.procs[p])
    ensures Ordered(t)
  {
    hide Ordered, LocksOk, Moves, EnterStep, WriteStep, ReadStep, TestStep, WakeStep, SleepStep, OtherStep;
    LockIs(s, p);
    var pc := s.procs[p];
    if pc.Enter? { EnterMoves(s, p, pc.op, t); }
    else if pc.WLoop? { WriteMoves(s, p, pc.buf, pc.i, t); }
    else if pc.RTest? { TestMoves(s, p, pc.n, t); }
    else if Settling(pc) { SleepMoves(s, p, pc, t); }
    else { OtherMoves(s, p, pc, t); }
    MoveOrdered(s, p, t.procs[p], t);
  }

  lemma PcStepOrdered(s: State, p: nat, t: State)
    requires Ordered(s) && LocksOk(s) && p < |s.procs| && PcStep(s, p) == Some(t)
    ensures Ordered(t)
  {
    hide Ordered, LocksOk, EnterStep, WriteStep, ReadStep, TestStep, WakeStep, SleepStep, OtherStep;
    var pc := s.procs[p];
    if pc.RCopy? { ReadOrdered(s, p, t); }
    else if pc.RDone? { ReturnOrdered(s, p, t); }
    else if Waking(pc) { WakeOrdered(s, p, t); }
    else { PlainOrdered(s, p, t); }
  }

  lemma StepOrdered(s: State, e: Event, t: State)
    requires Ordered(s) && LocksOk(s) && Next(s, e) == Some(t)
    ensures Ordered(t)
  {
    hide PcStep, NoneReading, NoneWriting;
    hide Ordered, LocksOk;
    LockIs(s, e.p);
    if e.Step? { PcStepOrdered(s, e.p, t); } else { CallOrdered(s, e, t); }
  }

  /** The start of a call, kill, and other uses of ptable.lock. */
  lemma CallOrdered(s: State, e: Event, t: State)
    requires Ordered(s) && !e.Step? && Next(s, e) == Some(t)
    ensures Ordered(t)
  {
    hide PcStep, NoneReading, NoneWriting, Concat;
    if e.Kill? && !s.procs[e.p].Asleep? {
      assert t.procs == s.procs;
    } else {
      hide Ordered;
      MoveOrdered(s, e.p, t.procs[e.p], t);
    }
  }

  // ---- every step keeps the invariant ----

  ghost predicate Ok(s: State) { LocksOk(s) && EndsOk(s) && HolderOk(s) && Calm(s, true) }

  /** The one step that can leave a reader asleep: a killed writer gives up on a full pipe that it has written to. */
  predicate GivesUp(s: State, p: nat) {
    && p < |s.procs| && s.procs[p].WLoop? && s.procs[p].i < |s.procs[p].buf| && Full(s.nread, s.nwrite)
    && (!s.readopen || p in s.killed)
  }

  /** A writer gives up while a reader is asleep. */
  ghost predicate Trouble(s: State, e: Event) {
    e.Step? && GivesUp(s, e.p) && exists q: nat :: q < |s.procs| && Gone(s.procs[q], false)
  }

  lemma EnterKeeps(s: State, p: nat, op: Op, t: State)
    requires Ok(s) && p < |s.procs| && s.procs[p] == Enter(op) && EnterStep(s, p, op) == Some(t)
    ensures Ok(t) && (Calm(s, false) ==> Calm(t, false))
  {
    hide Full;
  }

  /** A byte is written: the pipe was not full, so no writer slept, and the readers will be woken. */
  lemma ByteKeeps(s: State, p: nat, t: State)
    requires Ok(s) && p < |s.procs| && s.procs[p].WLoop? && !Full(s.nread, s.nwrite) && s.procs[p].i < |s.procs[p].buf|
    requires WriteStep(s, p, s.procs[p].buf, s.procs[p].i) == Some(t)
    ensures Ok(t) && Calm(t, false)
  {
    hide Pos;
    assert s.procs[p].WLoop?;
  }

  lemma WriteKeeps(s: State, p: nat, t: State)
    requires Ok(s) && p < |s.procs| && s.procs[p].WLoop? && WriteStep(s, p, s.procs[p].buf, s.procs[p].i) == Some(t)
    ensures Ok(t) && (Calm(s, false) && !Trouble(s, Step(p)) ==> Calm(t, false))
  {
    if !Full(s.nread, s.nwrite) && s.procs[p].i < |s.procs[p].buf| {
      ByteKeeps(s, p, t);
    } else {
      hide Pos;
      assert s.procs[p].WLoop?;
    }
  }

  lemma ReadKeeps(s: State, p: nat, t: State)
    requires Ok(s) && p < |s.procs| && s.procs[p].RCopy? && ReadStep(s, p, s.procs[p].n, s.procs[p].got) == Some(t)
    ensures Ok(t) && (Calm(s, false) ==> Calm(t, false))
  {
    hide Pos;
    assert s.procs[p].RCopy?;
  }

  lemma TestKeeps(s: State, p: nat, t: State)
    requires Ok(s) && !(Full(s.nread, s.nwrite) && Empty(s)) && p < |s.procs| && s.procs[p].RTest?
    requires TestStep(s, p, s.procs[p].n) == Some(t)
    ensures Ok(t) && (Calm(s, false) ==> Calm(t, false))
  {
    hide Full;
    assert s.procs[p].RTest?;
  }

  ghost predicate NoneGone(s: State, writers: bool) {
    forall p: nat {:trigger s.procs[p]} :: p < |s.procs| ==> !Gone(s.procs[p], writers)
  }

  /** wakeup with ptable.lock free leaves nobody asleep, nor on the way. */
  lemma WakeUpKeeps(s: State, writers: bool, t: State)
    requires Ok(s) && s.ptable == None && t == s.(procs := WakeUp(s.procs, writers))
    ensures Ok(t) && (Calm(s, false) ==> Calm(t, false)) && NoneGone(t, writers)
  {
    forall q: nat | q < |s.procs| ensures t.procs[q] == Woken(s.procs[q], writers) { WokenIs(s.procs[q], writers); }
    forall q: nat | q < |s.procs| ensures WokenOk(s.procs[q], t.procs[q], writers) { WokenIs(s.procs[q], writers); }
    hide Full, WakeUp, Woken, HoldsLock, HoldsPtable, Writing, Reading, Closing, Gone, Sleeping, WillWake;
    assert s.lock.Some? ==> WokenOk(s.procs[s.lock.value], t.procs[s.lock.value], writers);
  }

  /** What waking up does to one process. */
  ghost predicate WokenOk(pc: Pc, pc': Pc, writers: bool) {
    && HoldsLock(pc') == HoldsLock(pc) && HoldsPtable(pc') == HoldsPtable(pc) && Writing(pc') == Writing(pc)
    && Reading(pc') == Reading(pc) && Closing(pc', true) == Closing(pc, true)
    && Closing(pc', false) == Closing(pc, false)
    && (HoldsLock(pc) || Sleeping(pc') || Gone(pc', true) || Gone(pc', false) ==> pc' == pc)
    && (Gone(pc', writers) ==> HoldsPtable(pc))
  }

  lemma WokenIs(pc: Pc, writers: bool)
    ensures WokenOk(pc, Woken(pc, writers), writers)
  {
  }

  lemma DownNext(s: State, p: nat, buf: seq<Byte>, i: nat, t: State)
    requires Ok(s) && p < |s.procs| && s.procs[p] == WFull(buf, i)
    requires NoneGone(s, false) && t == Go(s, p, Down(W(buf, i)))
    ensures Ok(t) && Calm(t, false)
  {
    hide Full;
  }

  lemma LeaveNext(s: State, p: nat, writers: bool, t: State)
    requires Ok(s) && p < |s.procs| && (if writers then s.procs[p].RDone? else s.procs[p].WDone?)
    requires NoneGone(s, writers)
    requires t == Go(s, p, Leave).(handed := t.handed)
    ensures Ok(t) && (Calm(s, false) ==> Calm(t, false))
  {
    hide Full;
  }

  lemma LeaveClosed(s: State, p: nat, w: bool, t: State)
    requires Ok(s) && p < |s.procs| && s.procs[p] == CWake(w) && NoneGone(s, !w) && t == Go(s, p, Leave)
    ensures Ok(t) && (Calm(s, false) ==> Calm(t, false))
  {
    hide Full;
  }

  lemma WFullKeeps(s: State, p: nat, buf: seq<Byte>, i: nat, t: State)
    requires Ok(s) && p < |s.procs| && s.procs[p] == WFull(buf, i) && s.ptable == None
    requires t == Go(s.(procs := WakeUp(s.procs, false)), p, Down(W(buf, i)))
    ensures Ok(t) && Calm(t, false)
  {
    hide Ok, Calm, NoneGone;
    WakeUpKeeps(s, false, s.(procs := WakeUp(s.procs, false)));
    DownNext(s.(procs := WakeUp(s.procs, false)), p, buf, i, t);
  }

  lemma DoneKeeps(s: State, p: nat, writers: bool, t: State)
    requires Ok(s) && p < |s.procs| && (if writers then s.procs[p].RDone? else s.procs[p].WDone?) && s.ptable == None
    requires t == Go(s.(procs := WakeUp(s.procs, writers)), p, Leave).(handed := t.handed)
    ensures Ok(t) && (Calm(s, false) ==> Calm(t, false))
  {
    hide Ok, Calm, NoneGone;
    WakeUpKeeps(s, writers, s.(procs := WakeUp(s.procs, writers)));
    LeaveNext(s.(procs := WakeUp(s.procs, writers)), p, writers, t);
  }

  lemma CWakeKeeps(s: State, p: nat, w: bool, t: State)
    requires Ok(s) && p < |s.procs| && s.procs[p] == CWake(w) && s.ptable == None
    requires t == Go(s.(procs := WakeUp(s.procs, !w)), p, Leave)
    ensures Ok(t) && (Calm(s, false) ==> Calm(t, false))
  {
    hide Ok, Calm, NoneGone;
    WakeUpKeeps(s, !w, s.(procs := WakeUp(s.procs, !w)));
    LeaveClosed(s.(procs := WakeUp(s.procs, !w)), p, w, t);
  }

  lemma WakeKeeps(s: State, p: nat, t: State)
    requires Ok(s) && p < |s.procs| && WakeStep(s, p, s.procs[p]) == Some(t)
    ensures Ok(t) && (Calm(s, false) ==> Calm(t, false))
  {
    hide Ok, Calm, WakeUp;
    match s.procs[p]
    case WFull(buf, i) => WFullKeeps(s, p, buf, i, t);
    case WDone => DoneKeeps(s, p, false, t);
    case RDone(_, _) => DoneKeeps(s, p, true, t);
    case CWake(w) => CWakeKeeps(s, p, w, t);
    case _ =>
  }

  lemma DownKeeps(s: State, p: nat, op: Op, t: State)
    requires Ok(s) && p < |s.procs| && s.procs[p] == Down(op) && s.ptable == None
    requires t == Go(s, p, Both(op)).(ptable := Some(p))
    ensures Ok(t) && (Calm(s, false) ==> Calm(t, false))
  {
    hide Full;
  }

  lemma BothKeeps(s: State, p: nat, op: Op, t: State)
    requires Ok(s) && p < |s.procs| && s.procs[p] == Both(op) && t == Go(s, p, Dozing(op)).(lock := None)
    ensures Ok(t) && (Calm(s, false) ==> Calm(t, false))
  {
    hide Full;
  }

  lemma DozingKeeps(s: State, p: nat, op: Op, t: State)
    requires Ok(s) && p < |s.procs| && s.procs[p] == Dozing(op) && t == Go(s, p, Asleep(op)).(ptable := None)
    ensures Ok(t) && (Calm(s, false) ==> Calm(t, false))
  {
    hide Full;
  }

  lemma SleepKeeps(s: State, p: nat, t: State)
    requires Ok(s) && p < |s.procs| && SleepStep(s, p, s.procs[p]) == Some(t)
    ensures Ok(t) && (Calm(s, false) ==> Calm(t, false))
  {
    hide Ok, Calm;
    match s.procs[p]
    case Down(op) => DownKeeps(s, p, op, t);
    case Both(op) => BothKeeps(s, p, op, t);
    case Dozing(op) => DozingKeeps(s, p, op, t);
    case _ =>
  }

  lemma CSetKeeps(s: State, p: nat, w: bool, t: State)
    requires Ok(s) && p < |s.procs| && s.procs[p] == CSet(w)
    requires t == Go(s, p, CWake(w)).(writeopen := s.writeopen && !w, readopen := s.readopen && w)
    ensures Ok(t) && (Calm(s, false) ==> Calm(t, false))
  {
    hide Full;
    assert Closing(s.procs[p], w);
  }

  lemma LeaveKeeps(s: State, p: nat, t: State)
    requires Ok(s) && p < |s.procs| && s.procs[p] == Leave && t == Go(s, p, Idle).(lock := None)
    ensures Ok(t) && (Calm(s, false) ==> Calm(t, false))
  {
    hide Full;
  }

  lemma ElsewhereKeeps(s: State, p: nat, t: State)
    requires Ok(s) && p < |s.procs| && s.procs[p] == Elsewhere && t == Go(s, p, Idle).(ptable := None)
    ensures Ok(t) && (Calm(s, false) ==> Calm(t, false))
  {
    hide Full;
  }

  lemma OtherKeeps(s: State, p: nat, t: State)
    requires Ok(s) && p < |s.procs| && OtherStep(s, p, s.procs[p]) == Some(t)
    ensures Ok(t) && (Calm(s, false) ==> Calm(t, false))
  {
    hide Ok, Calm;
    match s.procs[p]
    case CSet(w) => CSetKeeps(s, p, w, t);
    case Leave => LeaveKeeps(s, p, t);
    case Elsewhere => ElsewhereKeeps(s, p, t);
    case _ =>
  }

  lemma CallLocks(s: State, e: Event, t: State)
    requires LocksOk(s) && !e.Step? && Next(s, e) == Some(t)
    ensures LocksOk(t)
  {
    hide NoneReading, NoneWriting, PcStep;
    var p := e.p;
    assert t.procs == s.procs[p := t.procs[p]] && t.lock == s.lock;
    assert t.ptable == s.ptable || (s.ptable == None && t.ptable == Some(p));
    assert HoldsLock(t.procs[p]) == HoldsLock(s.procs[p]);
    assert HoldsPtable(t.procs[p]) <==> t.ptable == Some(p);
    hide Next, HoldsLock, HoldsPtable;
  }

  lemma CallEnds(s: State, e: Event, t: State)
    requires EndsOk(s) && !e.Step? && Next(s, e) == Some(t)
    ensures EndsOk(t)
  {
    hide PcStep, Full;
  }

  lemma CallHolder(s: State, e: Event, t: State)
    requires LocksOk(s) && HolderOk(s) && !e.Step? && Next(s, e) == Some(t)
    ensures HolderOk(t)
  {
    hide PcStep, Full, NoneReading, NoneWriting;
  }

  lemma CallCalm(s: State, e: Event, t: State, writers: bool)
    requires LocksOk(s) && Calm(s, writers) && !e.Step? && Next(s, e) == Some(t)
    ensures Calm(t, writers)
  {
    hide PcStep, Full, NoneReading, NoneWriting;
  }

  lemma CallKeeps(s: State, e: Event, t: State)
    requires Ok(s) && !e.Step? && Next(s, e) == Some(t)
    ensures Ok(t) && (Calm(s, false) ==> Calm(t, false))
  {
    hide Next, LocksOk, EndsOk, HolderOk, Calm;
    CallLocks(s, e, t);
    CallEnds(s, e, t);
    CallHolder(s, e, t);
    CallCalm(s, e, t, true);
    if Calm(s, false) { CallCalm(s, e, t, false); }
  }

  /** Every step keeps the invariant; and unless a writer gives up on a sleeping reader, no reader is lost. */
  lemma StepKeeps(s: State, e: Event, t: State)
    requires Inv(s) && Next(s, e) == Some(t)
    ensures Inv(t) && (Calm(s, false) && !Trouble(s, e) ==> Calm(t, false))
  {
    StepFifo(s, e, t);
    StepOrdered(s, e, t);
    FullOrEmpty(s);
    hide Fifo, Ordered, LocksOk, EndsOk, HolderOk, Calm, Full, Trouble;
    hide EnterStep, WriteStep, ReadStep, TestStep, WakeStep, SleepStep, OtherStep, NoneReading, NoneWriting;
    if !e.Step? {
      CallKeeps(s, e, t);
    } else {
      var p, pc := e.p, s.procs[e.p];
      if pc.Enter? { EnterKeeps(s, p, pc.op, t); }
      else if pc.WLoop? { WriteKeeps(s, p, t); }
      else if pc.RCopy? { ReadKeeps(s, p, t); }
      else if pc.RTest? { TestKeeps(s, p, t); }
      else if Waking(pc) { WakeKeeps(s, p, t); }
      else if Settling(pc) { SleepKeeps(s, p, t); }
      else { OtherKeeps(s, p, t); }
    }
  }

  // ---- whole runs ----

  /** When the lock is free, whoever sleeps has nothing to do. */
  ghost predicate Rested(s: State) {
    s.lock == None ==> forall p: nat {:trigger s.procs[p]} ::
      p < |s.procs| && (Gone(s.procs[p], true) || Gone(s.procs[p], false)) ==>
      Blocked(s, s.procs[p].op)
  }

  lemma CalmIsRested(s: State)
    requires Inv(s) && Calm(s, false)
    ensures Rested(s)
  {
  }

  /** After a writer gave up on a sleeping reader, that reader sleeps on a pipe with bytes to read. */
  lemma TroubleStays(s: State, e: Event, t: State)
    requires Inv(s) && Trouble(s, e) && Next(s, e) == Some(t)
    ensures !Rested(t)
  {
    var q: nat :| q < |s.procs| && Gone(s.procs[q], false);
    FullOrEmpty(s);
    hide Full;
    assert t.lock == None && t.procs[q] == s.procs[q];
  }

  lemma {:induction false} RunKeeps(s: State, es: seq<Event>, t: State)
    requires Inv(s) && Run(s, es, t)
    ensures Inv(t)
    decreases |es|
  {
    hide Inv;
    if es != [] {
      StepKeeps(s, es[0], Next(s, es[0]).value);
      RunKeeps(Next(s, es[0]).value, es[1..], t);
    }
  }

  lemma InitInv(s: State)
    requires Init(s)
    ensures Inv(s) && Calm(s, false)
  {
  }

  /** Whatever the interleaving, bytes come out in the order they went in, and none is lost or made up. */
  lemma FirstInFirstOut(s: State, es: seq<Event>, t: State)
    requires Init(s) && Run(s, es, t)
    ensures Buffered(t.nread, t.nwrite) <= PIPESIZE
    ensures t.written == t.taken + RingBytes(t.data, t.nread, Buffered(t.nread, t.nwrite))
  {
    InitInv(s);
    RunKeeps(s, es, t);
  }

  lemma LocksThere(s: State)
    requires LocksOk(s)
    ensures (s.lock.Some? ==> s.lock.value < |s.procs|) && (s.ptable.Some? ==> s.ptable.value < |s.procs|)
  {
  }

  /** Who holds ptable.lock can go on, so can who holds the pipe's lock if ptable.lock is free. */
  lemma CanGoOn(s: State, p: nat)
    requires LocksOk(s) && p < |s.procs| && s.procs[p] != Idle && !s.procs[p].Asleep?
    requires s.ptable == Some(p) || (s.ptable == None && (s.lock == Some(p) || s.lock == None))
    ensures PcStep(s, p).Some?
  {
    hide WakeUp;
    LockIs(s, p);
    assert HoldsPtable(s.procs[p]) <==> s.ptable == Some(p);
    hide LocksOk;
  }

  /** On every run there is no deadlock: while some process is in a call and not asleep, some process can go on. */
  lemma NoDeadlock(s: State, es: seq<Event>, t: State, p: nat)
    requires Init(s) && Run(s, es, t) && p < |t.procs| && t.procs[p] != Idle && !t.procs[p].Asleep?
    ensures exists q: nat :: q < |t.procs| && PcStep(t, q).Some?
  {
    InitInv(s);
    RunKeeps(s, es, t);
    assert LocksOk(t);
    hide Inv, Run, PcStep;
    LocksThere(t);
    var q := if t.ptable.Some? then t.ptable.value else if t.lock.Some? then t.lock.value else p;
    assert t.procs[q] == t.procs[q];
    CanGoOn(t, q);
  }

  /**
   * The calls of piperead, in the order in which they return, hand out the bytes written, in order and without
   * gap: what one call returns is a piece of what was written, and no more than it asked for.
   */
  lemma ReadsInOrder(s: State, es: seq<Event>, t: State, i: nat)
    requires Init(s) && Run(s, es, t) && i < |t.handed|
    ensures |t.handed[i].got| <= t.handed[i].n && |Concat(t.handed[..i])| + |t.handed[i].got| <= |t.written|
    ensures t.handed[i].got == t.written[|Concat(t.handed[..i])|..|Concat(t.handed[..i])| + |t.handed[i].got|]
  {
    InitInv(s);
    RunKeeps(s, es, t);
    var rest := ConcatAt(t.handed, i);
    var ring := RingBytes(t.data, t.nread, Buffered(t.nread, t.nwrite));
    assert Ordered(t) && Fifo(t);
    hide Concat, RingBytes, InHand, Buffered;
    Joined(Concat(t.handed), InHand(t), ring);
    InPiece(Concat(t.handed[..i]), t.handed[i].got, rest, InHand(t) + ring, t.written);
  }

  lemma InPiece<T>(a: seq<T>, g: seq<T>, r: seq<T>, c: seq<T>, w: seq<T>)
    requires w == (a + (g + r)) + c
    ensures |a| + |g| <= |w| && w[|a|..|a| + |g|] == g
  {
  }

  /** What call i returned lies after what the calls before it did. */
  lemma {:induction false} ConcatAt(handed: seq<Returned>, i: nat) returns (rest: seq<Byte>)
    requires i < |handed|
    ensures Concat(handed) == Concat(handed[..i]) + (handed[i].got + rest)
    decreases |handed|
  {
    var n := |handed| - 1;
    if i == n {
      rest := [];
    } else {
      var rest0 := ConcatAt(handed[..n], i);
      rest := rest0 + handed[n].got;
      assert handed[..n][..i] == handed[..i];
      Joined(Concat(handed[..i]), handed[i].got + rest0, handed[n].got);
      Joined(handed[i].got, rest0, handed[n].got);
    }
  }

  /** Every state of the run is rested. */
  ghost predicate AlwaysRested(s: State, es: seq<Event>)
    decreases |es|
  {
    Rested(s) && (es != [] && Next(s, es[0]).Some? ==> AlwaysRested(Next(s, es[0]).value, es[1..]))
  }

  /** No writer gives up on a sleeping reader. */
  ghost predicate NoTrouble(s: State, es: seq<Event>)
    decreases |es|
  {
    es != [] && Next(s, es[0]).Some? ==> !Trouble(s, es[0]) && NoTrouble(Next(s, es[0]).value, es[1..])
  }

  /** No wakeup is ever lost, except, and always, when a writer gives up on a full pipe while a reader sleeps. */
  lemma {:induction false} NoLostWakeupIff(s: State, es: seq<Event>, t: State)
    requires Inv(s) && Calm(s, false) && Run(s, es, t)
    ensures AlwaysRested(s, es) <==> NoTrouble(s, es)
    decreases |es|
  {
    CalmIsRested(s);
    if es != [] {
      var u := Next(s, es[0]).value;
      StepKeeps(s, es[0], u);
      hide Inv, Calm, Rested, Trouble;
      if Trouble(s, es[0]) {
        TroubleStays(s, es[0], u);
      } else {
        NoLostWakeupIff(u, es[1..], t);
      }
    }
  }

  /** Without killed processes no wakeup is lost: a writer gives up only when there are no readers left. */
  lemma NotKilledNoTrouble(s: State, e: Event)
    requires Inv(s) && s.killed == {}
    ensures !Trouble(s, e)
  {
  }

  // ---- the wakeup that is lost ----

  function Zeros(n: nat): (z: seq<Byte>)
    ensures |z| == n
  {
    if n == 0 then [] else Zeros(n - 1) + [0]
  }

  /** Reader 0 sleeps, and the killed writer 1 has put i bytes into the pipe. */
  ghost predicate Filling(s: State, i: nat) {
    && |s.procs| == 2 && s.procs[0] == Asleep(R(1)) && s.procs[1] == WLoop(Zeros(PIPESIZE + 1), i) && i <= PIPESIZE
    && s.nread == 0 && s.nwrite == i && s.lock == Some(1)
    && s.ptable == None && 1 in s.killed && s.readopen && s.writeopen
  }

  lemma {:induction false} FillUp(s: State, i: nat) returns (es: seq<Event>, t: State)
    requires Filling(s, i)
    ensures Run(s, es, t) && Filling(t, PIPESIZE)
    decreases PIPESIZE - i
  {
    if i == PIPESIZE {
      es, t := [], s;
    } else {
      var u := Next(s, Step(1)).value;
      es, t := FillUp(u, i + 1);
      es := [Step(1)] + es;
      assert es[1..] == es[1..][..];
    }
  }

  lemma {:induction false} RunJoin(s: State, es: seq<Event>, t: State, fs: seq<Event>, u: State)
    requires Run(s, es, t) && Run(t, fs, u)
    ensures Run(s, es + fs, u)
    decreases |es|
  {
    hide Next;
    if es == [] {
      assert es + fs == fs;
    } else {
      RunJoin(Next(s, es[0]).value, es[1..], t, fs, u);
      assert (es + fs)[1..] == es[1..] + fs;
    }
  }

  /** Two processes and an empty pipe. */
  function Fresh(): State {
    State(seq(PIPESIZE, i => 0), 0, 0, true, true, None, None, [Idle, Idle], {}, true, true, [], [], [])
  }

  /** The states on the way to sleep. */
  function ReaderAt(pc: Pc, lock: Option<nat>, ptable: Option<nat>): State {
    Fresh().(procs := [pc, Idle], lock := lock, ptable := ptable)
  }

  lemma ReaderTests()
    ensures Next(Fresh(), Read(0, 1)) == Some(ReaderAt(Enter(R(1)), None, None))
    ensures Next(ReaderAt(Enter(R(1)), None, None), Step(0)) == Some(ReaderAt(RTest(1), Some(0), None))
    ensures Next(ReaderAt(RTest(1), Some(0), None), Step(0)) == Some(ReaderAt(Down(R(1)), Some(0), None))
  {
    assert forall x: Pc, y: Pc :: [x, Idle][0 := y] == [y, Idle];
  }

  lemma ReaderDozes()
    ensures Next(ReaderAt(Down(R(1)), Some(0), None), Step(0)) == Some(ReaderAt(Both(R(1)), Some(0), Some(0)))
    ensures Next(ReaderAt(Both(R(1)), Some(0), Some(0)), Step(0)) == Some(ReaderAt(Dozing(R(1)), None, Some(0)))
    ensures Next(ReaderAt(Dozing(R(1)), None, Some(0)), Step(0)) == Some(ReaderAt(Asleep(R(1)), None, None))
  {
    assert forall x: Pc, y: Pc :: [x, Idle][0 := y] == [y, Idle];
  }

  lemma ReaderSleepsFirst() returns (es: seq<Event>, t: State)
    ensures Init(Fresh()) && Run(Fresh(), es, t) && t == ReaderAt(Asleep(R(1)), None, None)
  {
    ReaderTests();
    ReaderDozes();
    hide Next;
    t := ReaderAt(Asleep(R(1)), None, None);
    assert Run(t, [], t);
    RunCons(ReaderAt(Dozing(R(1)), None, Some(0)), Step(0), [], t);
    RunCons(ReaderAt(Both(R(1)), Some(0), Some(0)), Step(0), [Step(0)] + [], t);
    RunCons(ReaderAt(Down(R(1)), Some(0), None), Step(0), [Step(0)] + ([Step(0)] + []), t);
    es := [Step(0)] + ([Step(0)] + ([Step(0)] + []));
    RunCons(ReaderAt(RTest(1), Some(0), None), Step(0), es, t);
    RunCons(ReaderAt(Enter(R(1)), None, None), Step(0), [Step(0)] + es, t);
    RunCons(Fresh(), Read(0, 1), [Step(0)] + ([Step(0)] + es), t);
    es := [Read(0, 1)] + ([Step(0)] + ([Step(0)] + es));
  }

  lemma WriterStarts(s: State) returns (es: seq<Event>, t: State)
    requires s == ReaderAt(Asleep(R(1)), None, None)
    ensures Run(s, es, t) && Filling(t, 0)
  {
    var u := Next(s, Write(1, Zeros(PIPESIZE + 1))).value;
    var v := Next(u, Step(1)).value;
    t := Next(v, Kill(1)).value;
    assert Filling(t, 0);
    hide Next;
    assert Run(t, [], t);
    RunCons(v, Kill(1), [], t);
    RunCons(u, Step(1), [Kill(1)] + [], t);
    es := [Step(1)] + ([Kill(1)] + []);
    RunCons(s, Write(1, Zeros(PIPESIZE + 1)), es, t);
    es := [Write(1, Zeros(PIPESIZE + 1))] + es;
  }

  lemma RunCons(s: State, e: Event, es: seq<Event>, t: State)
    requires Next(s, e).Some? && Run(Next(s, e).value, es, t)
    ensures Run(s, [e] + es, t)
  {
    assert ([e] + es)[1..] == es;
  }

  /** The wakeup can really be lost: a reader sleeps on a full pipe, and no wakeup is due. */
  lemma WakeupIsLost() returns (es: seq<Event>, t: State)
    ensures Init(Fresh()) && Run(Fresh(), es, t) && !Rested(t) && t.lock == None && !Due(t, false)
    ensures t.procs == [Asleep(R(1)), Idle] && Full(t.nread, t.nwrite)
  {
    var first, s := ReaderSleepsFirst();
    var start, u := WriterStarts(s);
    var more, v := FillUp(u, 0);
    t := Next(v, Step(1)).value;
    assert Run(t, [], t);
    RunCons(v, Step(1), [], t);
    RunJoin(u, more, v, [Step(1)] + [], t);
    RunJoin(s, start, u, more + ([Step(1)] + []), t);
    es := start + (more + ([Step(1)] + []));
    RunJoin(Fresh(), first, s, es, t);
    es := first + es;
    assert t.procs[0] == Asleep(R(1)) && Gone(t.procs[0], false) && !Blocked(t, R(1));
  }
}
