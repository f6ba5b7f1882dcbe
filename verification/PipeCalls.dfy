/**
 * What the calls of pipewrite and piperead come to: every byte that goes through the pipe is the next byte of
 * the buffer of some call, and a read returns all there is, up to what it asked for.
 */
module PipeCalls {
  import opened Common
  import opened Blocks
  import opened Pipe

  // ---- the calls of pipewrite ----

  /** How far process p is with its call: i bytes of buf are stored, or all of it. */
  datatype Tie = NotWriting | At(buf: seq<Byte>, i: nat) | AllSent

  function TieOf(pc: Pc): Tie {
    match pc
    case WLoop(buf, i) => At(buf, i)
    case WFull(buf, i) => At(buf, i)
    case WDone => AllSent
    case Enter(W(buf, i)) => At(buf, i)
    case Down(W(buf, i)) => At(buf, i)
    case Both(W(buf, i)) => At(buf, i)
    case Dozing(W(buf, i)) => At(buf, i)
    case Asleep(W(buf, i)) => At(buf, i)
    case _ => NotWriting
  }

  /** A call is open, or has returned, with all its bytes stored or with -1. */
  datatype End = Open | Whole | Refused

  datatype Call = Call(p: nat, buf: seq<Byte>, sent: nat, end: End)

  /** The calls so far, the call that each byte written is from, and the open call of each process. */
  datatype Ledger = Ledger(calls: seq<Call>, marks: seq<nat>, cur: seq<Option<nat>>)

  /** The write calls among the events. */
  function Starts(es: seq<Event>): seq<Event> {
    if es == [] then []
    else Starts(es[..|es| - 1]) + if es[|es| - 1].Write? then [es[|es| - 1]] else []
  }

  /** The bytes marked k, in order. */
  function Picked(bytes: seq<Byte>, marks: seq<nat>, k: nat): seq<Byte>
    requires |marks| == |bytes|
  {
    if bytes == [] then []
    else
      var n := |bytes| - 1;
      Picked(bytes[..n], marks[..n], k) + if marks[n] == k then [bytes[n]] else []
  }

  /** The ledger's calls are exactly the run's, in order, each with a prefix of its buffer stored. */
  ghost predicate CallsOk(es: seq<Event>, calls: seq<Call>) {
    && |calls| == |Starts(es)|
    && forall k: nat {:trigger calls[k]} :: k < |calls| ==>
         && Starts(es)[k] == Write(calls[k].p, calls[k].buf) && calls[k].sent <= |calls[k].buf|
         && (calls[k].end == Whole ==> calls[k].sent == |calls[k].buf|)
  }

  /** What was written is an interleaving of what the calls have stored, each process's calls in turn. */
  ghost predicate BytesOk(written: seq<Byte>, l: Ledger) {
    && |l.marks| == |written| && (forall x: nat {:trigger l.marks[x]} :: x < |l.marks| ==> l.marks[x] < |l.calls|)
    && (forall k: nat {:trigger l.calls[k]} :: k < |l.calls| && l.calls[k].sent <= |l.calls[k].buf| ==>
          Picked(written, l.marks, k) == l.calls[k].buf[..l.calls[k].sent])
    && (forall x: nat, y: nat {:trigger l.marks[x], l.marks[y]} :: x < y < |l.marks| && SameProc(l, x, y) ==>
          l.marks[x] <= l.marks[y])
  }

  ghost predicate SameProc(l: Ledger, x: nat, y: nat)
    requires x < |l.marks| && y < |l.marks|
  {
    l.marks[x] < |l.calls| && l.marks[y] < |l.calls| && l.calls[l.marks[x]].p == l.calls[l.marks[y]].p
  }

  /** The open call k of p, its last, is as far as p is. */
  ghost predicate CurOk(l: Ledger, p: nat, tie: Tie)
    requires p < |l.cur|
  {
    match l.cur[p]
    case None => tie == NotWriting
    case Some(k) =>
      && k < |l.calls| && l.calls[k].p == p && l.calls[k].end == Open
      && (tie == At(l.calls[k].buf, l.calls[k].sent) || (tie == AllSent && l.calls[k].sent == |l.calls[k].buf|))
      && forall j: nat {:trigger l.calls[j]} :: k < j < |l.calls| ==> l.calls[j].p != p
  }

  ghost predicate OpenOk(l: Ledger) {
    forall k: nat {:trigger l.calls[k]} :: k < |l.calls| && l.calls[k].end == Open ==>
      l.calls[k].p < |l.cur| && l.cur[l.calls[k].p] == Some(k)
  }

  ghost predicate Accounts(es: seq<Event>, t: State, l: Ledger) {
    && CallsOk(es, l.calls) && BytesOk(t.written, l) && |l.cur| == |t.procs| && OpenOk(l)
    && forall p: nat {:trigger l.cur[p]} :: p < |t.procs| ==> CurOk(l, p, TieOf(t.procs[p]))
  }

  lemma {:induction false} PickedNone(bytes: seq<Byte>, marks: seq<nat>, k: nat)
    requires |marks| == |bytes| && forall x: nat {:trigger marks[x]} :: x < |marks| ==> marks[x] != k
    ensures Picked(bytes, marks, k) == []
    decreases |bytes|
  {
    if bytes != [] { PickedNone(bytes[..|bytes| - 1], marks[..|bytes| - 1], k); }
  }

  lemma PickedMore(bytes: seq<Byte>, marks: seq<nat>, b: Byte, m: nat, k: nat)
    requires |marks| == |bytes|
    ensures Picked(bytes + [b], marks + [m], k) == Picked(bytes, marks, k) + if m == k then [b] else []
  {
    assert (bytes + [b])[..|bytes|] == bytes && (marks + [m])[..|bytes|] == marks;
  }

  lemma StartsMore(es: seq<Event>, e: Event)
    ensures Starts(es + [e]) == Starts(es) + if e.Write? then [e] else []
  {
    assert (es + [e])[..|es|] == es;
  }

  // ---- one step ----

  /** Nothing is written, and nobody's call gets anywhere. */
  ghost predicate Still(s: State, t: State) {
    && t.written == s.written && |t.procs| == |s.procs|
    && forall p: nat {:trigger t.procs[p]} :: p < |t.procs| ==> TieOf(t.procs[p]) == TieOf(s.procs[p])
  }

  lemma StillAccounts(es: seq<Event>, s: State, l: Ledger, e: Event, t: State)
    requires Accounts(es, s, l) && !e.Write? && Still(s, t)
    ensures Accounts(es + [e], t, l)
  {
    hide BytesOk, CurOk, TieOf;
    StartsMore(es, e);
    hide Starts;
    assert Starts(es) + [] == Starts(es);
    forall p: nat | p < |t.procs| ensures CurOk(l, p, TieOf(t.procs[p])) {
      assert CurOk(l, p, TieOf(s.procs[p])) by { assert l.cur[p] == l.cur[p]; }
    }
  }

  /** Only p's call gets on. */
  ghost predicate OnlyOne(s: State, t: State, p: nat) {
    && p < |s.procs| == |t.procs|
    && forall q: nat {:trigger t.procs[q]} :: q < |t.procs| && q != p ==> TieOf(t.procs[q]) == TieOf(s.procs[q])
  }

  function Opened(l: Ledger, p: nat, buf: seq<Byte>): Ledger
    requires p < |l.cur|
  {
    Ledger(l.calls + [Call(p, buf, 0, Open)], l.marks, l.cur[p := Some(|l.calls|)])
  }

  lemma OpenBytes(written: seq<Byte>, l: Ledger, p: nat, buf: seq<Byte>)
    requires BytesOk(written, l) && p < |l.cur|
    ensures BytesOk(written, Opened(l, p, buf))
  {
    var m := Opened(l, p, buf);
    forall k: nat | k < |m.calls| && m.calls[k].sent <= |m.calls[k].buf|
      ensures Picked(written, m.marks, k) == m.calls[k].buf[..m.calls[k].sent]
    {
      if k < |l.calls| { assert m.calls[k] == l.calls[k]; } else { PickedNone(written, l.marks, k); }
    }
    forall x: nat, y: nat | x < y < |m.marks| && SameProc(m, x, y) ensures m.marks[x] <= m.marks[y] {
      assert SameProc(l, x, y);
    }
  }

  lemma OpenAccounts(es: seq<Event>, s: State, l: Ledger, p: nat, buf: seq<Byte>, t: State)
    requires Accounts(es, s, l) && OnlyOne(s, t, p) && t.written == s.written
    requires TieOf(s.procs[p]) == NotWriting && TieOf(t.procs[p]) == At(buf, 0)
    ensures Accounts(es + [Write(p, buf)], t, Opened(l, p, buf))
  {
    hide TieOf, Picked;
    var m := Opened(l, p, buf);
    StartsMore(es, Write(p, buf));
    OpenBytes(s.written, l, p, buf);
    hide BytesOk, Starts;
    assert l.cur[p] == None;
    forall q: nat | q < |t.procs| ensures CurOk(m, q, TieOf(t.procs[q])) {
      assert CurOk(l, q, TieOf(s.procs[q])) by { assert l.cur[q] == l.cur[q]; }
    }
  }

  /** One more byte of call k is stored. */
  function Advanced(l: Ledger, k: nat): Ledger
    requires k < |l.calls|
  {
    l.(calls := l.calls[k := l.calls[k].(sent := l.calls[k].sent + 1)], marks := l.marks + [k])
  }

  lemma AdvanceBytes(written: seq<Byte>, l: Ledger, k: nat)
    requires BytesOk(written, l) && k < |l.calls| && l.calls[k].sent < |l.calls[k].buf|
    requires forall j: nat {:trigger l.calls[j]} :: k < j < |l.calls| ==> l.calls[j].p != l.calls[k].p
    ensures BytesOk(written + [l.calls[k].buf[l.calls[k].sent]], Advanced(l, k))
  {
    var m, b := Advanced(l, k), l.calls[k].buf[l.calls[k].sent];
    forall j: nat | j < |m.calls| && m.calls[j].sent <= |m.calls[j].buf|
      ensures Picked(written + [b], m.marks, j) == m.calls[j].buf[..m.calls[j].sent]
    {
      hide Picked;
      PickedMore(written, l.marks, b, k, j);
      assert l.calls[j].sent <= |l.calls[j].buf|;
      if j == k {
        var c := l.calls[k];
        assert c.buf[..c.sent] + [b] == c.buf[..c.sent + 1];
      }
    }
    forall x: nat, y: nat | x < y < |m.marks| && SameProc(m, x, y) ensures m.marks[x] <= m.marks[y] {
      if y < |l.marks| { assert SameProc(l, x, y); } else { assert l.calls[l.marks[x]].p == l.calls[k].p; }
    }
  }

  lemma AdvanceAccounts(es: seq<Event>, s: State, l: Ledger, p: nat, buf: seq<Byte>, i: nat, t: State)
    returns (m: Ledger)
    requires Accounts(es, s, l) && OnlyOne(s, t, p) && i < |buf| && t.written == s.written + [buf[i]]
    requires TieOf(s.procs[p]) == At(buf, i) && TieOf(t.procs[p]) == At(buf, i + 1)
    ensures Accounts(es + [Step(p)], t, m) && |m.calls| == |l.calls|
    ensures forall k: nat {:trigger m.calls[k]} :: k < |m.calls| ==> m.calls[k].end == l.calls[k].end
  {
    hide TieOf, Picked;
    assert CurOk(l, p, TieOf(s.procs[p])) by { assert l.cur[p] == l.cur[p]; }
    var k := l.cur[p].value;
    m := Advanced(l, k);
    StartsMore(es, Step(p));
    AdvanceBytes(s.written, l, k);
    hide BytesOk, Starts;
    assert Starts(es) + [] == Starts(es);
    forall q: nat | q < |t.procs| ensures CurOk(m, q, TieOf(t.procs[q])) {
      assert CurOk(l, q, TieOf(s.procs[q])) by { assert l.cur[q] == l.cur[q]; }
    }
  }

  /** The last byte is stored: the call has nothing more to do than to wake the readers. */
  lemma FinishAccounts(es: seq<Event>, s: State, l: Ledger, p: nat, buf: seq<Byte>, i: nat, t: State)
    requires Accounts(es, s, l) && OnlyOne(s, t, p) && i >= |buf| && t.written == s.written
    requires TieOf(s.procs[p]) == At(buf, i) && TieOf(t.procs[p]) == AllSent
    ensures Accounts(es + [Step(p)], t, l)
  {
    hide TieOf, BytesOk;
    StartsMore(es, Step(p));
    hide Starts;
    assert Starts(es) + [] == Starts(es);
    forall q: nat | q < |t.procs| ensures CurOk(l, q, TieOf(t.procs[q])) {
      assert CurOk(l, q, TieOf(s.procs[q])) by { assert l.cur[q] == l.cur[q]; }
    }
  }

  function Closed(l: Ledger, p: nat, k: nat, end: End): Ledger
    requires p < |l.cur| && k < |l.calls|
  {
    l.(calls := l.calls[k := l.calls[k].(end := end)], cur := l.cur[p := None])
  }

  lemma CloseBytes(written: seq<Byte>, l: Ledger, p: nat, k: nat, end: End)
    requires BytesOk(written, l) && p < |l.cur| && k < |l.calls|
    ensures BytesOk(written, Closed(l, p, k, end))
  {
    var m := Closed(l, p, k, end);
    forall j: nat | j < |m.calls| && m.calls[j].sent <= |m.calls[j].buf|
      ensures Picked(written, m.marks, j) == m.calls[j].buf[..m.calls[j].sent]
    {
      assert l.calls[j].sent <= |l.calls[j].buf|;
    }
    forall x: nat, y: nat | x < y < |m.marks| && SameProc(m, x, y) ensures m.marks[x] <= m.marks[y] {
      assert SameProc(l, x, y);
    }
  }

  lemma CloseAccounts(es: seq<Event>, s: State, l: Ledger, p: nat, end: End, t: State) returns (m: Ledger)
    requires Accounts(es, s, l) && OnlyOne(s, t, p) && t.written == s.written && end != Open
    requires TieOf(s.procs[p]) != NotWriting && TieOf(t.procs[p]) == NotWriting
    requires end == Whole ==> TieOf(s.procs[p]) == AllSent
    ensures Accounts(es + [Step(p)], t, m) && |m.calls| == |l.calls|
    ensures forall k: nat {:trigger m.calls[k]} :: k < |m.calls| ==>
      m.calls[k].end == l.calls[k].end || m.calls[k].end == end
  {
    hide TieOf, Picked;
    assert CurOk(l, p, TieOf(s.procs[p])) by { assert l.cur[p] == l.cur[p]; }
    var k := l.cur[p].value;
    m := Closed(l, p, k, end);
    StartsMore(es, Step(p));
    CloseBytes(s.written, l, p, k, end);
    hide BytesOk, Starts;
    assert Starts(es) + [] == Starts(es);
    forall q: nat | q < |t.procs| ensures CurOk(m, q, TieOf(t.procs[q])) {
      assert CurOk(l, q, TieOf(s.procs[q])) by { assert l.cur[q] == l.cur[q]; }
    }
  }

  lemma WakeTies(procs: seq<Pc>, writers: bool, p: nat)
    requires p < |procs|
    ensures TieOf(WakeUp(procs, writers)[p]) == TieOf(procs[p])
  {
    hide WakeUp;
  }

  lemma WakeStepIs(s: State, p: nat, t: State)
    requires p < |s.procs| && WakeStep(s, p, s.procs[p]) == Some(t)
    ensures |t.procs| == |s.procs| && t.written == s.written
    ensures t.procs == WakeUp(s.procs, true)[p := t.procs[p]] || t.procs == WakeUp(s.procs, false)[p := t.procs[p]]
    ensures s.procs[p].WDone? ==> TieOf(t.procs[p]) == NotWriting
    ensures !s.procs[p].WDone? ==> TieOf(t.procs[p]) == TieOf(s.procs[p])
  {
    hide WakeUp, Woken;
    match s.procs[p]
    case WFull(_, _) =>
    case WDone =>
    case RDone(_, _) =>
    case CWake(_) =>
    case _ =>
  }

  lemma WakeUpOne(s: State, writers: bool, p: nat, t: State)
    requires p < |s.procs| == |t.procs| && t.procs == WakeUp(s.procs, writers)[p := t.procs[p]]
    ensures OnlyOne(s, t, p)
  {
    hide WakeUp, TieOf;
    forall q: nat | q < |t.procs| && q != p ensures TieOf(t.procs[q]) == TieOf(s.procs[q]) {
      WakeTies(s.procs, writers, q);
    }
  }

  /** A step that calls wakeup moves no call but its own. */
  lemma WakeStepOne(s: State, p: nat, t: State)
    requires p < |s.procs| && WakeStep(s, p, s.procs[p]) == Some(t)
    ensures OnlyOne(s, t, p) && t.written == s.written
    ensures s.procs[p].WDone? ==> TieOf(t.procs[p]) == NotWriting
    ensures !s.procs[p].WDone? ==> TieOf(t.procs[p]) == TieOf(s.procs[p])
  {
    hide WakeUp, WakeStep, TieOf, OnlyOne;
    WakeStepIs(s, p, t);
    if t.procs == WakeUp(s.procs, true)[p := t.procs[p]] {
      WakeUpOne(s, true, p, t);
    } else {
      WakeUpOne(s, false, p, t);
    }
  }

  lemma WriteStepOne(s: State, p: nat, buf: seq<Byte>, i: nat, t: State)
    requires p < |s.procs| && s.procs[p] == WLoop(buf, i) && WriteStep(s, p, buf, i) == Some(t)
    ensures OnlyOne(s, t, p)
    ensures GivesUp(s, p) ==> t.written == s.written && TieOf(t.procs[p]) == NotWriting
    ensures !GivesUp(s, p) && i < |buf| && Full(s.nread, s.nwrite) ==> Still(s, t)
    ensures !GivesUp(s, p) && i < |buf| && !Full(s.nread, s.nwrite) ==>
      t.written == s.written + [buf[i]] && TieOf(t.procs[p]) == At(buf, i + 1)
    ensures i >= |buf| ==> t.written == s.written && TieOf(t.procs[p]) == AllSent
  {
    hide Full, Pos;
  }

  /** Only p moves, and not in its call. */
  lemma GoStill(s: State, p: nat, pc: Pc, t: State)
    requires p < |s.procs| && t.procs == s.procs[p := pc] && t.written == s.written && TieOf(pc) == TieOf(s.procs[p])
    ensures Still(s, t)
  {
  }

  lemma EnterStill(s: State, p: nat, op: Op, t: State)
    requires p < |s.procs| && s.procs[p] == Enter(op) && EnterStep(s, p, op) == Some(t)
    ensures Still(s, t)
  {
    hide Still;
    GoStill(s, p, t.procs[p], t);
  }

  lemma ReadStill(s: State, p: nat, n: nat, got: seq<Byte>, t: State)
    requires p < |s.procs| && s.procs[p] == RCopy(n, got) && ReadStep(s, p, n, got) == Some(t)
    ensures Still(s, t)
  {
    hide Still, Pos, Empty;
    GoStill(s, p, t.procs[p], t);
  }

  lemma TestStill(s: State, p: nat, n: nat, t: State)
    requires p < |s.procs| && s.procs[p] == RTest(n) && TestStep(s, p, n) == Some(t)
    ensures Still(s, t)
  {
    hide Still, Empty;
    GoStill(s, p, t.procs[p], t);
  }

  lemma SleepStill(s: State, p: nat, t: State)
    requires p < |s.procs| && Settling(s.procs[p]) && SleepStep(s, p, s.procs[p]) == Some(t)
    ensures Still(s, t)
  {
    hide Still;
    GoStill(s, p, t.procs[p], t);
  }

  lemma OtherStill(s: State, p: nat, t: State)
    requires p < |s.procs| && OtherStep(s, p, s.procs[p]) == Some(t)
    ensures Still(s, t)
  {
    hide Still;
    var pc := s.procs[p];
    if pc.CSet? { GoStill(s, p, CWake(pc.w), t); } else { GoStill(s, p, Idle, t); }
  }

  lemma RestStill(s: State, p: nat, t: State)
    requires p < |s.procs| && PcStep(s, p) == Some(t) && !s.procs[p].WLoop? && !Waking(s.procs[p])
    ensures Still(s, t)
  {
    hide WriteStep, WakeStep, EnterStep, ReadStep, TestStep, SleepStep, OtherStep, Still;
    var pc := s.procs[p];
    if pc.Enter? { EnterStill(s, p, pc.op, t); }
    else if pc.RCopy? { ReadStill(s, p, pc.n, pc.got, t); }
    else if pc.RTest? { TestStill(s, p, pc.n, t); }
    else if Settling(pc) { SleepStill(s, p, t); }
    else { OtherStill(s, p, t); }
  }

  lemma CallStill(s: State, e: Event, t: State)
    requires Next(s, e) == Some(t) && !e.Step? && !e.Write?
    ensures Still(s, t)
  {
    hide PcStep, NoneWriting, NoneReading;
  }

  ghost predicate NoneRefused(l: Ledger) {
    forall k: nat {:trigger l.calls[k]} :: k < |l.calls| ==> l.calls[k].end != Refused
  }

  lemma WriteAccounts(es: seq<Event>, s: State, l: Ledger, p: nat, t: State) returns (m: Ledger)
    requires Accounts(es, s, l) && p < |s.procs| && s.procs[p].WLoop? && Next(s, Step(p)) == Some(t)
    ensures Accounts(es + [Step(p)], t, m) && (NoneRefused(l) && !GivesUp(s, p) ==> NoneRefused(m))
  {
    var buf, i := s.procs[p].buf, s.procs[p].i;
    assert TieOf(s.procs[p]) == At(buf, i);
    WriteStepOne(s, p, buf, i, t);
    hide Accounts, WriteStep, OnlyOne, TieOf, Full, Still;
    if GivesUp(s, p) {
      m := CloseAccounts(es, s, l, p, Refused, t);
    } else if i >= |buf| {
      FinishAccounts(es, s, l, p, buf, i, t);
      m := l;
    } else if Full(s.nread, s.nwrite) {
      StillAccounts(es, s, l, Step(p), t);
      m := l;
    } else {
      m := AdvanceAccounts(es, s, l, p, buf, i, t);
    }
  }

  lemma WakeAccounts(es: seq<Event>, s: State, l: Ledger, p: nat, t: State) returns (m: Ledger)
    requires Accounts(es, s, l) && p < |s.procs| && Waking(s.procs[p]) && WakeStep(s, p, s.procs[p]) == Some(t)
    ensures Accounts(es + [Step(p)], t, m) && (NoneRefused(l) ==> NoneRefused(m))
  {
    assert s.procs[p].WDone? ==> TieOf(s.procs[p]) == AllSent;
    WakeStepOne(s, p, t);
    hide Accounts, WakeStep, TieOf;
    if s.procs[p].WDone? {
      hide OnlyOne;
      m := CloseAccounts(es, s, l, p, Whole, t);
    } else {
      StillAccounts(es, s, l, Step(p), t);
      m := l;
    }
  }

  lemma StepAccounts(es: seq<Event>, s: State, l: Ledger, e: Event, t: State) returns (m: Ledger)
    requires Accounts(es, s, l) && Next(s, e) == Some(t)
    ensures Accounts(es + [e], t, m) && (NoneRefused(l) && !(e.Step? && GivesUp(s, e.p)) ==> NoneRefused(m))
  {
    hide Accounts, WriteStep, WakeStep, EnterStep, ReadStep, TestStep, SleepStep, OtherStep, GivesUp, NoneWriting,
      NoneReading;
    if e.Write? {
      assert TieOf(s.procs[e.p]) == NotWriting && TieOf(t.procs[e.p]) == At(e.buf, 0);
      SizeOk(es, s, l);
      hide TieOf;
      OpenAccounts(es, s, l, e.p, e.buf, t);
      m := Opened(l, e.p, e.buf);
    } else if e.Step? && s.procs[e.p].WLoop? {
      m := WriteAccounts(es, s, l, e.p, t);
    } else if e.Step? && Waking(s.procs[e.p]) {
      m := WakeAccounts(es, s, l, e.p, t);
    } else {
      if e.Step? { RestStill(s, e.p, t); } else { CallStill(s, e, t); }
      hide Next, Still;
      StillAccounts(es, s, l, e, t);
      m := l;
    }
  }

  lemma SizeOk(es: seq<Event>, s: State, l: Ledger)
    requires Accounts(es, s, l)
    ensures |l.cur| == |s.procs|
  {
  }

  // ---- whole runs ----

  /** No writer of the run gives up. */
  ghost predicate NoneGivesUp(s: State, es: seq<Event>)
    decreases |es|
  {
    es != [] && Next(s, es[0]).Some? ==>
      !(es[0].Step? && GivesUp(s, es[0].p)) && NoneGivesUp(Next(s, es[0]).value, es[1..])
  }

  lemma {:induction false} RunAccounts(before: seq<Event>, s: State, l: Ledger, es: seq<Event>, t: State)
    returns (m: Ledger)
    requires Accounts(before, s, l) && Run(s, es, t)
    ensures Accounts(before + es, t, m) && (NoneRefused(l) && NoneGivesUp(s, es) ==> NoneRefused(m))
    decreases |es|
  {
    hide Accounts, Next, NoneRefused, GivesUp;
    if es == [] {
      assert before + [] == before;
      m := l;
    } else {
      var u := Next(s, es[0]).value;
      var l1 := StepAccounts(before, s, l, es[0], u);
      m := RunAccounts(before + [es[0]], u, l1, es[1..], t);
      assert before + [es[0]] + es[1..] == before + es;
    }
  }

  /**
   * On every run, the bytes written are an interleaving of what the calls of pipewrite have stored: of each call a
   * prefix of its buffer, as long as the process says, all of it once it has returned, and the calls of one process
   * one after the other.
   */
  lemma WritesAccounted(s: State, es: seq<Event>, t: State) returns (l: Ledger)
    requires Init(s) && Run(s, es, t)
    ensures Accounts(es, t, l) && (NoneGivesUp(s, es) ==> NoneRefused(l))
  {
    var l0 := Ledger([], [], seq(|s.procs|, p => None));
    forall p: nat | p < |s.procs| ensures CurOk(l0, p, TieOf(s.procs[p])) { assert s.procs[p] == Idle; }
    assert BytesOk(s.written, l0) && CallsOk([], l0.calls);
    l := RunAccounts([], s, l0, es, t);
    assert [] + es == es;
  }

  // ---- one writer ----

  /** The buffers of the calls, one after the other. */
  function Buffers(calls: seq<Event>): seq<Byte> {
    if calls == [] then []
    else Buffers(calls[..|calls| - 1]) + if calls[|calls| - 1].Write? then calls[|calls| - 1].buf else []
  }

  /** The bytes marked 0 to n - 1, mark by mark. */
  function Sorted(bytes: seq<Byte>, marks: seq<nat>, n: nat): seq<Byte>
    requires |marks| == |bytes|
  {
    if n == 0 then [] else Sorted(bytes, marks, n - 1) + Picked(bytes, marks, n - 1)
  }

  lemma SortedStep(bytes: seq<Byte>, marks: seq<nat>, n: nat)
    requires |marks| == |bytes| && n > 0
    ensures Sorted(bytes, marks, n) == Sorted(bytes, marks, n - 1) + Picked(bytes, marks, n - 1)
  {
  }

  lemma {:induction false} SortedMore(bytes: seq<Byte>, marks: seq<nat>, b: Byte, m: nat, n: nat)
    requires |marks| == |bytes| && forall x: nat {:trigger marks[x]} :: x < |marks| ==> marks[x] <= m
    ensures Sorted(bytes + [b], marks + [m], n) == Sorted(bytes, marks, n) + if m < n then [b] else []
    decreases n
  {
    hide Sorted, Picked;
    if n == 0 {
      SortedZero(bytes, marks);
      SortedZero(bytes + [b], marks + [m]);
    } else {
      SortedStep(bytes, marks, n);
      SortedStep(bytes + [b], marks + [m], n);
      SortedMore(bytes, marks, b, m, n - 1);
      PickedMore(bytes, marks, b, m, n - 1);
      if m < n - 1 { PickedNone(bytes, marks, n - 1); }
      Appended(Sorted(bytes, marks, n - 1), Picked(bytes, marks, n - 1), b, m < n - 1, m == n - 1);
    }
  }

  lemma SortedZero(bytes: seq<Byte>, marks: seq<nat>)
    requires |marks| == |bytes|
    ensures Sorted(bytes, marks, 0) == []
  {
  }

  lemma Appended<T>(s: seq<T>, p: seq<T>, b: T, first: bool, second: bool)
    requires (first ==> p == []) && !(first && second)
    ensures (s + if first then [b] else []) + (p + if second then [b] else [])
         == s + p + if first || second then [b] else []
  {
  }

  /** If the marks never go down, sorting by mark changes nothing. */
  lemma {:induction false} SortedSame(bytes: seq<Byte>, marks: seq<nat>, n: nat)
    requires |marks| == |bytes| && forall x: nat {:trigger marks[x]} :: x < |marks| ==> marks[x] < n
    requires forall x: nat, y: nat {:trigger marks[x], marks[y]} :: x < y < |marks| ==> marks[x] <= marks[y]
    ensures Sorted(bytes, marks, n) == bytes
    decreases |bytes|
  {
    if bytes == [] {
      SortedNone(n);
    } else {
      var k := |bytes| - 1;
      SortedSame(bytes[..k], marks[..k], n);
      SortedMore(bytes[..k], marks[..k], bytes[k], marks[k], n);
      assert bytes[..k] + [bytes[k]] == bytes && marks[..k] + [marks[k]] == marks;
    }
  }

  lemma {:induction false} SortedNone(n: nat)
    ensures Sorted([], [], n) == []
  {
    if n > 0 { SortedNone(n - 1); }
  }

  /** All calls before the n-th have returned, and their bytes are all there. */
  lemma {:induction false} SortedBuffers(es: seq<Event>, written: seq<Byte>, l: Ledger, n: nat)
    requires CallsOk(es, l.calls) && BytesOk(written, l) && n <= |l.calls|
    requires forall k: nat {:trigger l.calls[k]} :: k < n ==> l.calls[k].end == Whole
    ensures Sorted(written, l.marks, n) == Buffers(Starts(es)[..n])
    decreases n
  {
    if n > 0 {
      SortedBuffers(es, written, l, n - 1);
      var c := l.calls[n - 1];
      assert Picked(written, l.marks, n - 1) == c.buf[..c.sent] == c.buf;
      assert Starts(es)[..n][..n - 1] == Starts(es)[..n - 1] && Starts(es)[..n][n - 1] == Write(c.p, c.buf);
    }
  }

  lemma {:induction false} StartsAre(es: seq<Event>, p: nat)
    requires forall e :: e in es && e.Write? ==> e.p == p
    ensures forall e :: e in Starts(es) ==> e.Write? && e.p == p
  {
    if es != [] {
      var es0, last := es[..|es| - 1], es[|es| - 1];
      assert forall e :: e in es0 ==> e in es;
      assert last in es;
      StartsAre(es0, p);
    }
  }

  lemma OneWriterSorted(es: seq<Event>, t: State, l: Ledger, p: nat)
    requires Accounts(es, t, l) && forall e :: e in es && e.Write? ==> e.p == p
    ensures Sorted(t.written, l.marks, |l.calls|) == t.written
    ensures forall k: nat {:trigger l.calls[k]} :: k < |l.calls| ==> l.calls[k].p == p
  {
    StartsAre(es, p);
    hide Starts, Picked, Sorted;
    forall k: nat | k < |l.calls| ensures l.calls[k].p == p { assert Starts(es)[k] in Starts(es); }
    forall x: nat, y: nat | x < y < |l.marks| ensures l.marks[x] <= l.marks[y] { assert SameProc(l, x, y); }
    SortedSame(t.written, l.marks, |l.calls|);
  }

  /**
   * With one writer, as long as it does not give up, what was written is a prefix of its buffers one after the
   * other, all of them once it has returned; and what the readers were handed is a prefix of that.
   */
  lemma OneWriter(s: State, es: seq<Event>, t: State, p: nat)
    requires Init(s) && Run(s, es, t) && NoneGivesUp(s, es) && forall e :: e in es && e.Write? ==> e.p == p
    ensures t.written <= Buffers(Starts(es)) && Concat(t.handed) <= Buffers(Starts(es))
    ensures p < |t.procs| && !Writing(t.procs[p]) ==> t.written == Buffers(Starts(es))
  {
    var l := WritesAccounted(s, es, t);
    OneWriterSorted(es, t, l, p);
    WrittenPrefix(es, t, l, p);
    HandedPrefix(s, es, t);
  }

  lemma WrittenPrefix(es: seq<Event>, t: State, l: Ledger, p: nat)
    requires Accounts(es, t, l) && NoneRefused(l) && Sorted(t.written, l.marks, |l.calls|) == t.written
    requires forall k: nat {:trigger l.calls[k]} :: k < |l.calls| ==> l.calls[k].p == p
    ensures t.written <= Buffers(Starts(es))
    ensures p < |t.procs| && !Writing(t.procs[p]) ==> t.written == Buffers(Starts(es))
  {
    hide Starts, Picked;
    var n := |l.calls|;
    assert Starts(es)[..n] == Starts(es);
    forall k: nat | k < n && l.calls[k].end == Open ensures k == n - 1 && p < |t.procs| && Writing(t.procs[p]) {
      OpenIsLast(es, t, l, p, k);
    }
    if n > 0 && l.calls[n - 1].end == Open {
      var c := l.calls[n - 1];
      SortedBuffers(es, t.written, l, n - 1);
      assert Picked(t.written, l.marks, n - 1) == c.buf[..c.sent];
      assert Starts(es)[n - 1] == Write(c.p, c.buf);
    } else {
      SortedBuffers(es, t.written, l, n);
    }
  }

  lemma OpenIsLast(es: seq<Event>, t: State, l: Ledger, p: nat, k: nat)
    requires Accounts(es, t, l) && k < |l.calls| && l.calls[k].end == Open
    requires forall j: nat {:trigger l.calls[j]} :: j < |l.calls| ==> l.calls[j].p == p
    ensures k == |l.calls| - 1 && p < |t.procs| && Writing(t.procs[p])
  {
    hide CallsOk, BytesOk;
    assert l.cur[p] == Some(k) && CurOk(l, p, TieOf(t.procs[p]));
    assert l.calls[|l.calls| - 1].p == p;
  }

  lemma HandedPrefix(s: State, es: seq<Event>, t: State)
    requires Init(s) && Run(s, es, t)
    ensures Concat(t.handed) <= t.written
  {
    InitInv(s);
    RunKeeps(s, es, t);
    assert Ordered(t) && Fifo(t);
    hide Concat, RingBytes, InHand, Buffered;
  }

  // ---- the calls of piperead ----

  /** What a process in piperead was asked for. */
  function WantOf(pc: Pc): Option<nat> {
    match pc
    case RTest(n) => Some(n)
    case RCopy(n, _) => Some(n)
    case RDone(n, _) => Some(n)
    case Enter(R(n)) => Some(n)
    case Down(R(n)) => Some(n)
    case Both(R(n)) => Some(n)
    case Dozing(R(n)) => Some(n)
    case Asleep(R(n)) => Some(n)
    case _ => None
  }

  /** The count of p's latest call of piperead. */
  function Asked(es: seq<Event>, p: nat): Option<nat> {
    if es == [] then None
    else
      var e := es[|es| - 1];
      if e.Read? && e.p == p then Some(e.n) else Asked(es[..|es| - 1], p)
  }

  /** A process in its copy loop found bytes, or the write end closed; when it is done it has all there is. */
  predicate ReadAt(s: State, pc: Pc) {
    && (pc.RCopy? && pc.got == [] ==> !(Empty(s) && s.writeopen))
    && (pc.RDone? && |pc.got| < pc.n ==> Empty(s) && (pc.got == [] ==> !s.writeopen))
  }

  ghost predicate ReadsOk(es: seq<Event>, s: State) {
    forall p: nat {:trigger s.procs[p]} :: p < |s.procs| ==>
      ReadAt(s, s.procs[p]) && (WantOf(s.procs[p]).Some? ==> Asked(es, p) == WantOf(s.procs[p]))
  }

  /** Process q asks for the same, or no more, and p's step does not touch what q relies on. */
  ghost predicate Undisturbed(s: State, t: State, q: nat)
    requires q < |s.procs| == |t.procs|
  {
    && (WantOf(t.procs[q]).Some? ==> WantOf(t.procs[q]) == WantOf(s.procs[q]))
    && (ReadAt(s, s.procs[q]) ==> ReadAt(t, t.procs[q]))
  }

  lemma WakeWants(procs: seq<Pc>, writers: bool, q: nat)
    requires q < |procs|
    ensures WantOf(WakeUp(procs, writers)[q]) == WantOf(procs[q])
    ensures WakeUp(procs, writers)[q] == procs[q] || WakeUp(procs, writers)[q].Enter?
  {
    hide WakeUp;
  }

  predicate SameLook(s: State, t: State) { t.nread == s.nread && t.nwrite == s.nwrite && t.writeopen == s.writeopen }

  /** Only p moves, and only with the lock does it change what others look at. */
  ghost predicate OwnMove(s: State, p: nat, t: State) {
    && p < |s.procs| == |t.procs| && t.procs == s.procs[p := t.procs[p]] && t.handed == s.handed
    && Undisturbed(s, t, p) && (SameLook(s, t) || HoldsLock(s.procs[p]))
  }

  lemma EnterReads(s: State, p: nat, t: State)
    requires p < |s.procs| && s.procs[p].Enter? && EnterStep(s, p, s.procs[p].op) == Some(t)
    ensures OwnMove(s, p, t)
  {
    match s.procs[p].op
    case W(buf, i) => assert t.procs[p] == WLoop(buf, i);
    case R(n) => assert t.procs[p] == RTest(n);
    case C(w) => assert t.procs[p] == CSet(w);
  }

  lemma CopyReads(s: State, p: nat, t: State)
    requires p < |s.procs| && s.procs[p].RCopy? && ReadStep(s, p, s.procs[p].n, s.procs[p].got) == Some(t)
    ensures OwnMove(s, p, t)
  {
    hide Pos;
  }

  lemma WriteReads(s: State, p: nat, t: State)
    requires p < |s.procs| && s.procs[p].WLoop? && WriteStep(s, p, s.procs[p].buf, s.procs[p].i) == Some(t)
    ensures OwnMove(s, p, t)
  {
    hide Pos, Full;
  }

  lemma TestReads(s: State, p: nat, t: State)
    requires p < |s.procs| && s.procs[p].RTest? && TestStep(s, p, s.procs[p].n) == Some(t)
    ensures OwnMove(s, p, t)
  {
  }

  lemma SleepReads(s: State, p: nat, t: State)
    requires p < |s.procs| && Settling(s.procs[p]) && SleepStep(s, p, s.procs[p]) == Some(t)
    ensures OwnMove(s, p, t)
  {
  }

  lemma OtherReads(s: State, p: nat, t: State)
    requires p < |s.procs| && OtherStep(s, p, s.procs[p]) == Some(t)
    ensures OwnMove(s, p, t)
  {
    match s.procs[p]
    case CSet(_) =>
    case Leave =>
    case Elsewhere =>
    case _ =>
  }

  /** The steps that do not call wakeup. */
  lemma RestReads(s: State, p: nat, t: State)
    requires p < |s.procs| && PcStep(s, p) == Some(t) && !Waking(s.procs[p])
    ensures OwnMove(s, p, t)
  {
    hide WriteStep, WakeStep, EnterStep, ReadStep, TestStep, SleepStep, OtherStep, OwnMove;
    var pc := s.procs[p];
    if pc.Enter? { EnterReads(s, p, t); }
    else if pc.WLoop? { WriteReads(s, p, t); }
    else if pc.RCopy? { CopyReads(s, p, t); }
    else if pc.RTest? { TestReads(s, p, t); }
    else if Settling(pc) { SleepReads(s, p, t); }
    else { OtherReads(s, p, t); }
  }

  lemma WakeLooks(s: State, p: nat, t: State)
    requires p < |s.procs| && Waking(s.procs[p]) && WakeStep(s, p, s.procs[p]) == Some(t)
    ensures |t.procs| == |s.procs| && SameLook(s, t) && t.readopen == s.readopen
    ensures t.procs[p].Down? || t.procs[p].Leave?
    ensures t.procs == WakeUp(s.procs, true)[p := t.procs[p]] || t.procs == WakeUp(s.procs, false)[p := t.procs[p]]
    ensures WantOf(t.procs[p]) == None
    ensures t.handed == if s.procs[p].RDone? then s.handed + [Returned(p, s.procs[p].n, s.procs[p].got)] else s.handed
  {
    hide WakeUp, Woken;
    match s.procs[p]
    case WFull(_, _) =>
    case WDone =>
    case RDone(_, _) =>
    case CWake(_) =>
  }

  lemma WakeReads(s: State, p: nat, t: State, q: nat)
    requires p < |s.procs| && q < |s.procs| && Waking(s.procs[p]) && WakeStep(s, p, s.procs[p]) == Some(t)
    ensures |t.procs| == |s.procs| && Undisturbed(s, t, q)
  {
    hide WakeStep, WakeUp, Waking;
    WakeLooks(s, p, t);
    WakeWants(s.procs, true, q);
    WakeWants(s.procs, false, q);
  }

  /** No step of a process disturbs a read of another. */
  lemma PcReads(s: State, p: nat, t: State, q: nat)
    requires LocksOk(s) && p < |s.procs| && q < |s.procs| && PcStep(s, p) == Some(t)
    ensures |t.procs| == |s.procs| && Undisturbed(s, t, q)
  {
    LockIs(s, p);
    LockIs(s, q);
    hide LocksOk, WriteStep, WakeStep, EnterStep, ReadStep, TestStep, SleepStep, OtherStep;
    if Waking(s.procs[p]) {
      WakeReads(s, p, t, q);
    } else {
      RestReads(s, p, t);
    }
  }

  lemma CallReads(s: State, e: Event, t: State, q: nat)
    requires q < |s.procs| && !e.Step? && Next(s, e) == Some(t)
    ensures |t.procs| == |s.procs|
    ensures e.Read? && e.p == q ==> t.procs[q] == Enter(R(e.n))
    ensures !(e.Read? && e.p == q) ==> Undisturbed(s, t, q)
  {
    hide PcStep, NoneReading, NoneWriting;
    CallLooks(s, e, t);
    hide Next;
    if q != e.p { assert t.procs[q] == s.procs[q]; }
  }

  lemma CallLooks(s: State, e: Event, t: State)
    requires !e.Step? && Next(s, e) == Some(t)
    ensures e.p < |s.procs| == |t.procs| && t.procs == s.procs[e.p := t.procs[e.p]] && SameLook(s, t)
    ensures e.Read? ==> t.procs[e.p] == Enter(R(e.n))
    ensures !e.Read? && !e.Kill? ==> WantOf(t.procs[e.p]) == None
    ensures !e.Read? && !e.Kill? ==> !t.procs[e.p].RCopy? && !t.procs[e.p].RDone?
    ensures e.Kill? ==> t.procs[e.p] == s.procs[e.p]
                        || (t.procs[e.p].Enter? && WantOf(t.procs[e.p]) == WantOf(s.procs[e.p]))
  {
    hide PcStep, NoneReading, NoneWriting;
  }

  lemma AskedMore(es: seq<Event>, e: Event, p: nat)
    ensures Asked(es + [e], p) == if e.Read? && e.p == p then Some(e.n) else Asked(es, p)
  {
    assert (es + [e])[..|es|] == es;
  }

  lemma StepReads(es: seq<Event>, s: State, e: Event, t: State)
    requires LocksOk(s) && ReadsOk(es, s) && Next(s, e) == Some(t)
    ensures ReadsOk(es + [e], t)
  {
    hide LocksOk, PcStep, NoneReading, NoneWriting;
    SameCount(s, e, t);
    forall q: nat | q < |t.procs|
      ensures ReadAt(t, t.procs[q]) && (WantOf(t.procs[q]).Some? ==> Asked(es + [e], q) == WantOf(t.procs[q]))
    {
      AskedMore(es, e, q);
      hide Asked, Empty;
      assert ReadAt(s, s.procs[q]) && (WantOf(s.procs[q]).Some? ==> Asked(es, q) == WantOf(s.procs[q]));
      if e.Step? { PcReads(s, e.p, t, q); } else { CallReads(s, e, t, q); }
    }
  }

  lemma SameCount(s: State, e: Event, t: State)
    requires LocksOk(s) && Next(s, e) == Some(t)
    ensures |t.procs| == |s.procs|
  {
    hide LocksOk, PcStep, NoneReading, NoneWriting, Undisturbed;
    if e.Step? { PcReads(s, e.p, t, e.p); }
  }

  lemma {:induction false} RunReads(before: seq<Event>, s: State, es: seq<Event>, t: State)
    requires Inv(s) && ReadsOk(before, s) && Run(s, es, t)
    ensures ReadsOk(before + es, t)
    decreases |es|
  {
    hide ReadsOk, Next, Ordered, Fifo, LocksOk, EndsOk, HolderOk, Calm;
    if es == [] {
      assert before + [] == before;
    } else {
      var u := Next(s, es[0]).value;
      StepReads(before, s, es[0], u);
      StepKeeps(s, es[0], u);
      RunReads(before + [es[0]], u, es[1..], t);
      assert before + [es[0]] + es[1..] == before + es;
    }
  }

  /**
   * On every run, a call of piperead that returns bytes was asked for that many by its caller, comes up short
   * only if the pipe is then empty, and returns none only if nobody can write to the pipe any more.
   */
  lemma ReadReturns(s: State, es: seq<Event>, t: State, p: nat, u: State)
    requires Init(s) && Run(s, es, t) && Next(t, Step(p)) == Some(u) && u.handed != t.handed
    ensures |u.handed| == |t.handed| + 1 && u.handed[..|t.handed|] == t.handed
    ensures var r := u.handed[|t.handed|];
      && r.p == p && Asked(es, p) == Some(r.n) && |r.got| <= r.n
      && (|r.got| < r.n ==> Empty(t)) && (|r.got| == 0 < r.n ==> !t.writeopen)
  {
    ReadsHold(s, es, t);
    HandsOut(t, p, u);
    hide Next, Init, ReadAt;
    RunJoin(s, es, t, [Step(p)], u);
    ReadsInOrder(s, es + [Step(p)], u, |t.handed|);
    assert ReadAt(t, t.procs[p]) && Asked(es, p) == WantOf(t.procs[p]);
    AllThere(t, t.procs[p]);
  }

  lemma AllThere(s: State, pc: Pc)
    requires ReadAt(s, pc) && pc.RDone?
    ensures (|pc.got| < pc.n ==> Empty(s)) && (|pc.got| == 0 < pc.n ==> !s.writeopen)
  {
  }

  lemma ReadsHold(s: State, es: seq<Event>, t: State)
    requires Init(s) && Run(s, es, t)
    ensures ReadsOk(es, t)
  {
    InitInv(s);
    assert ReadsOk([], s) by { assert forall q: nat :: q < |s.procs| ==> s.procs[q] == Idle; }
    hide Inv, ReadsOk, Init;
    RunReads([], s, es, t);
    assert [] + es == es;
  }

  lemma HandsOut(t: State, p: nat, u: State)
    requires Next(t, Step(p)) == Some(u) && u.handed != t.handed
    ensures p < |t.procs| && t.procs[p].RDone? && WantOf(t.procs[p]) == Some(t.procs[p].n)
    ensures u.handed == t.handed + [Returned(p, t.procs[p].n, t.procs[p].got)]
    ensures Run(t, [Step(p)], u)
  {
    hide WriteStep, WakeStep, EnterStep, ReadStep, TestStep, SleepStep, OtherStep, Undisturbed;
    if Waking(t.procs[p]) { WakeLooks(t, p, u); } else { RestReads(t, p, u); }
    OneStep(t, Step(p), u);
  }

  lemma OneStep(s: State, e: Event, t: State)
    requires Next(s, e) == Some(t)
    ensures Run(s, [e], t)
  {
    hide Next;
    assert Run(t, [], t);
  }

  // ---- the calls of pipeclose ----

  /** The end's flag in the pipe. */
  predicate IsOpen(s: State, w: bool) { if w then s.writeopen else s.readopen }

  predicate ClosedIn(es: seq<Event>, w: bool) { exists k :: 0 <= k < |es| && es[k].Close? && es[k].w == w }

  /** A process has called pipeclose and not cleared the flag yet. */
  predicate Coming(pc: Pc, w: bool) { pc == Enter(C(w)) || pc == CSet(w) }

  ghost predicate AnyComing(s: State, w: bool) {
    exists p: nat {:trigger s.procs[p]} :: p < |s.procs| && Coming(s.procs[p], w)
  }

  /** The flag is clear, or about to be, exactly if the end was closed. */
  ghost predicate FlagOk(es: seq<Event>, s: State, w: bool) {
    !IsOpen(s, w) || AnyComing(s, w) <==> ClosedIn(es, w)
  }

  /** p's step clears the flag if that is what it does, and leaves the rest of the closing to the others. */
  ghost predicate FlagMove(s: State, p: nat, t: State, w: bool) {
    && p < |s.procs| == |t.procs|
    && IsOpen(t, w) == (IsOpen(s, w) && s.procs[p] != CSet(w))
    && forall q: nat {:trigger t.procs[q]} :: q < |t.procs| ==>
         (Coming(t.procs[q], w) <==> Coming(s.procs[q], w) && !(q == p && s.procs[p] == CSet(w)))
  }

  lemma GoFlags(s: State, p: nat, t: State, w: bool)
    requires p < |s.procs| == |t.procs| && t.procs == s.procs[p := t.procs[p]]
    requires IsOpen(t, w) == (IsOpen(s, w) && s.procs[p] != CSet(w))
    requires Coming(t.procs[p], w) <==> s.procs[p] == Enter(C(w))
    ensures FlagMove(s, p, t, w)
  {
  }

  lemma WriteFlags(s: State, p: nat, t: State, w: bool)
    requires p < |s.procs| && s.procs[p].WLoop? && WriteStep(s, p, s.procs[p].buf, s.procs[p].i) == Some(t)
    ensures FlagMove(s, p, t, w)
  {
    hide Pos, Full, FlagMove;
    GoFlags(s, p, t, w);
  }

  lemma CopyFlags(s: State, p: nat, t: State, w: bool)
    requires p < |s.procs| && s.procs[p].RCopy? && ReadStep(s, p, s.procs[p].n, s.procs[p].got) == Some(t)
    ensures FlagMove(s, p, t, w)
  {
    hide Pos, Empty, FlagMove;
    GoFlags(s, p, t, w);
  }

  lemma TestFlags(s: State, p: nat, t: State, w: bool)
    requires p < |s.procs| && s.procs[p].RTest? && TestStep(s, p, s.procs[p].n) == Some(t)
    ensures FlagMove(s, p, t, w)
  {
    hide Empty, FlagMove;
    GoFlags(s, p, t, w);
  }

  lemma EnterFlags(s: State, p: nat, t: State, w: bool)
    requires p < |s.procs| && s.procs[p].Enter? && EnterStep(s, p, s.procs[p].op) == Some(t)
    ensures FlagMove(s, p, t, w)
  {
    hide FlagMove;
    match s.procs[p].op
    case W(buf, i) => GoFlags(s, p, t, w);
    case R(n) => GoFlags(s, p, t, w);
    case C(v) => GoFlags(s, p, t, w);
  }

  lemma SleepFlags(s: State, p: nat, t: State, w: bool)
    requires p < |s.procs| && Settling(s.procs[p]) && SleepStep(s, p, s.procs[p]) == Some(t)
    ensures FlagMove(s, p, t, w)
  {
    hide FlagMove;
    match s.procs[p]
    case Down(_) => GoFlags(s, p, t, w);
    case Both(_) => GoFlags(s, p, t, w);
    case Dozing(_) => GoFlags(s, p, t, w);
  }

  lemma OtherFlags(s: State, p: nat, t: State, w: bool)
    requires p < |s.procs| && OtherStep(s, p, s.procs[p]) == Some(t)
    ensures FlagMove(s, p, t, w)
  {
    hide FlagMove;
    match s.procs[p]
    case CSet(_) => GoFlags(s, p, t, w);
    case Leave => GoFlags(s, p, t, w);
    case Elsewhere => GoFlags(s, p, t, w);
    case _ =>
  }

  lemma WakeComing(procs: seq<Pc>, v: bool, q: nat, w: bool)
    requires q < |procs|
    ensures Coming(WakeUp(procs, v)[q], w) <==> Coming(procs[q], w)
  {
    hide WakeUp;
  }

  lemma WakeFlags(s: State, p: nat, t: State, w: bool)
    requires p < |s.procs| && Waking(s.procs[p]) && WakeStep(s, p, s.procs[p]) == Some(t)
    ensures FlagMove(s, p, t, w)
  {
    hide WakeStep, WakeUp;
    WakeLooks(s, p, t);
    forall q: nat | q < |t.procs| ensures Coming(t.procs[q], w) <==> Coming(s.procs[q], w) {
      WakeComing(s.procs, true, q, w);
      WakeComing(s.procs, false, q, w);
    }
  }

  lemma StepFlags(s: State, p: nat, t: State, w: bool)
    requires p < |s.procs| && PcStep(s, p) == Some(t)
    ensures FlagMove(s, p, t, w)
  {
    hide WriteStep, ReadStep, TestStep, WakeStep, EnterStep, SleepStep, OtherStep, FlagMove;
    var pc := s.procs[p];
    if pc.Enter? { EnterFlags(s, p, t, w); }
    else if pc.WLoop? { WriteFlags(s, p, t, w); }
    else if pc.RCopy? { CopyFlags(s, p, t, w); }
    else if pc.RTest? { TestFlags(s, p, t, w); }
    else if Waking(pc) { WakeFlags(s, p, t, w); }
    else if Settling(pc) { SleepFlags(s, p, t, w); }
    else { OtherFlags(s, p, t, w); }
  }

  lemma CallFlags(s: State, e: Event, t: State, w: bool)
    requires EndsOk(s) && !e.Step? && Next(s, e) == Some(t)
    ensures IsOpen(t, w) == IsOpen(s, w) && |t.procs| == |s.procs|
    ensures AnyComing(t, w) <==> AnyComing(s, w) || (e.Close? && e.w == w)
  {
    CallLooks(s, e, t);
    assert t.readopen == s.readopen;
    assert Coming(t.procs[e.p], w) <==> Coming(s.procs[e.p], w) || (e.Close? && e.w == w);
    hide Next, EndsOk;
    assert forall q: nat :: q < |t.procs| && q != e.p ==> t.procs[q] == s.procs[q];
    if AnyComing(s, w) {
      var q: nat :| q < |s.procs| && Coming(s.procs[q], w);
      assert Coming(t.procs[q], w);
    }
  }

  lemma FlagStep(es: seq<Event>, s: State, e: Event, t: State, w: bool)
    requires EndsOk(s) && FlagOk(es, s, w) && Next(s, e) == Some(t)
    ensures FlagOk(es + [e], t, w)
  {
    hide PcStep, NoneReading, NoneWriting, EndsOk;
    ClosedMore(es, e, w);
    hide ClosedIn;
    if e.Step? {
      StepFlags(s, e.p, t, w);
      if AnyComing(s, w) && IsOpen(t, w) {
        var q: nat :| q < |s.procs| && Coming(s.procs[q], w);
        assert Coming(t.procs[q], w);
      }
    } else {
      CallFlags(s, e, t, w);
    }
  }

  lemma ClosedMore(es: seq<Event>, e: Event, w: bool)
    ensures ClosedIn(es + [e], w) <==> ClosedIn(es, w) || (e.Close? && e.w == w)
  {
    if k :| 0 <= k < |es| && es[k].Close? && es[k].w == w { assert (es + [e])[k] == es[k]; }
    assert (es + [e])[|es|] == e;
  }

  lemma {:induction false} FlagRun(before: seq<Event>, s: State, es: seq<Event>, t: State, w: bool)
    requires Inv(s) && FlagOk(before, s, w) && Run(s, es, t)
    ensures FlagOk(before + es, t, w)
    decreases |es|
  {
    hide FlagOk, Next, Ordered, Fifo, LocksOk, EndsOk, HolderOk, Calm;
    if es == [] {
      assert before + [] == before;
    } else {
      var u := Next(s, es[0]).value;
      FlagStep(before, s, es[0], u, w);
      StepKeeps(s, es[0], u);
      FlagRun(before + [es[0]], u, es[1..], t, w);
      assert before + [es[0]] + es[1..] == before + es;
    }
  }

  /** On every run, once the calls of pipeclose are through, the flag of an end is clear exactly if it was closed. */
  lemma CloseTakesEffect(s: State, es: seq<Event>, t: State, w: bool)
    requires Init(s) && Run(s, es, t) && forall p: nat :: p < |t.procs| ==> !Closing(t.procs[p], w)
    ensures !IsOpen(t, w) <==> exists k :: 0 <= k < |es| && es[k].Close? && es[k].w == w
  {
    InitInv(s);
    FlagRun([], s, es, t, w);
    assert [] + es == es;
  }
}
