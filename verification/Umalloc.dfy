/** malloc and free of umalloc.c.  What sbrk returns is a parameter. */
module Umalloc {
  import opened Common
  import opened Heap

  /** The result of sbrk. */
  datatype Core = NoCore | Core(p: nat)

  /**
   * The result of malloc and morecore, by address.  Short means that sbrk was asked for less than the block, so
   * that the block, and perhaps its header, lies outside the heap; then nothing is promised about the memory.
   */
  datatype Alloc = Block(p: nat) | NoMemory | Short

  class Allocator {
    const base: nat                      // &base
    var mem: Memory
    var freep: nat                       // 0 until the first malloc
    ghost var list: seq<nat>             // the free list, from base on
    ghost var live: seq<nat>             // the blocks handed out
    ghost var top: nat                   // the end of what sbrk has given
    ghost var total: nat                 // the units that sbrk has given

    constructor (base: nat)
      requires base > 0
      ensures Valid() && this.base == base && live == [] && total == 0 && freep == 0
    {
      this.base, mem, freep, list, live, top, total := base, map[], 0, [], [], base + 1, 0;
    }

    ghost predicate Valid()
      reads this
    {
      && 0 < base < top
      && if freep == 0 then live == [] && total == 0 else Linked()
    }

    /** The list is in order, everything else is handed out and disjoint, and no unit is missing. */
    ghost predicate Linked()
      reads this
    {
      && freep != 0 && base > 0 && Chain(mem, list) && list[0] == base && freep in list && LivesOk(mem, list, live, top)
      && total == Units(mem, list) + Units(mem, live)
    }

    /** free's loop: p is the list element after which bp belongs. */
    method Search(bp: nat, ghost s: nat, ghost k: nat) returns (p: nat)
      requires Chain(mem, list) && s < |list| && list[s] == freep && k < |list| && list[k] < bp
      requires k + 1 < |list| ==> bp < list[k + 1]
      ensures p == list[k]
    {
      p := freep;
      ghost var i: nat := s;
      At(mem, list, bp, k, i);
      while !(bp > p && bp < Ptr(mem, p))
        invariant i < |list| && p == list[i]
        invariant bp > p && bp < Ptr(mem, p) ==> i == k
        decreases if i <= k then k - i else |list| - i + k
      {
        At(mem, list, bp, k, i);
        if p >= Ptr(mem, p) && (bp > p || bp < Ptr(mem, p)) { break; }
        p := Ptr(mem, p);
        i := if i + 1 < |list| then i + 1 else 0;
        At(mem, list, bp, k, i);
      }
    }

    /** The end of free: joins bp with its neighbours, or links it to them. */
    method Link(bp: nat, p: nat)
      modifies this`mem
      ensures mem == LinkDown(LinkUp(old(mem), bp, p), bp, p)
    {
      if bp + UNIT * Size(mem, bp) == Ptr(mem, p) {
        mem := mem[bp := Header(Ptr(mem, Ptr(mem, p)), Size(mem, bp) + Size(mem, Ptr(mem, p)))];
      } else {
        mem := mem[bp := Header(Ptr(mem, p), Size(mem, bp))];
      }
      if p + UNIT * Size(mem, p) == bp {
        mem := mem[p := Header(Ptr(mem, bp), Size(mem, p) + Size(mem, bp))];
      } else {
        mem := mem[p := Header(bp, Size(mem, p))];
      }
    }

    /** Returns a block: the list stays in order and coalesced, and the other live blocks are untouched. */
    method Free(ap: nat, ghost j: nat)
      requires Linked() && ap >= UNIT && j < |live| && live[j] == ap - UNIT
      modifies this`mem, this`freep, this`list, this`live
      ensures Linked() && live == Without(old(live), j)
      ensures forall x: nat :: x < |live| ==> Size(mem, live[x]) == old(Size(mem, Without(live, j)[x]))
      ensures exists z: nat :: z < |list| && Size(mem, list[z]) >= old(Size(mem, live[j]))
    {
      hide Chain, LivesOk, Units, Between;
      var bp := ap - UNIT;
      ghost var s: nat :| s < |list| && list[s] == freep;
      ghost var k := FindPlace(mem, list, live, top, j);
      ghost var mem0, list0 := mem, list;
      var p := Search(bp, s, k);
      Link(bp, p);
      freep := p;
      assert mem == FreedMem(mem0, list0, bp, k);
      FreedList(mem0, list0, bp, k);
      hide FreedMem, Freed, LinkUp, LinkDown, Size;
      FreeChain(mem0, list0, bp, k);
      FreeLives(mem0, list0, live, top, j, k);
      FreeUnits(mem0, list0, live, top, j, k);
      FreeSizes(mem0, list0, live, top, j, k);
      ghost var z := FreedBig(mem0, list0, bp, k);
      list, live := Freed(mem0, list0, bp, k), Without(live, j);
    }

    /** Asks sbrk for at least nu units and puts them on the list. */
    method MoreCore(nu: nat, core: Core) returns (r: Alloc)
      requires Linked() && nu > 0 && (core.Core? ==> core.p >= top)
      modifies this`mem, this`freep, this`list, this`live, this`top, this`total
      ensures r.NoMemory? <==> core.NoCore?
      ensures r.Short? <==> core.Core? && UNIT * CoreUnits(nu) >= 0x8000_0000
      ensures !r.Short? ==> Linked() && live == old(live)
      ensures !r.Short? ==> forall x: nat :: x < |live| ==> Size(mem, live[x]) == old(Size(mem, live[x]))
      ensures r.NoMemory? ==> mem == old(mem) && list == old(list) && freep == old(freep)
      ensures r.NoMemory? ==> total == old(total) && top == old(top)
      ensures r.Block? ==> r.p == freep && total == old(total) + CoreUnits(nu) && top == core.p + Request(nu)
      ensures r.Block? ==> !NoneFits(mem, list, nu)
    {
      hide Chain, LivesOk, Units;
      var n := if nu < 4096 then 4096 else nu;
      RequestIff(nu);
      match core {
        case NoCore => return NoMemory;
        case Core(hp) =>
          if Request(nu) != UNIT * n { return Short; }
          GrowLives(mem, list, live, top, hp, n);
          GrowSizes(mem, list, live, top, hp, n);
          ghost var live0 := live;
          mem := mem[hp := Header(Ptr(mem, hp), n)];
          live, top, total := live + [hp], hp + UNIT * n, total + n;
          Free(hp + UNIT, |live| - 1);
          assert Without(live0 + [hp], |live0|) == live0;
          return Block(freep);
      }
    }

    /** malloc's end, once p, element i of the list, is large enough: takes it or cuts its upper part off. */
    method Take(prevp: nat, p: nat, nunits: nat, ghost i: nat) returns (r: nat)
      requires Linked() && 0 < i < |list| && p == list[i] && prevp == list[i - 1] && Size(mem, p) >= nunits > 0
      modifies this`mem, this`freep, this`list, this`live
      ensures Linked() && live == old(live) + [r] && r != 0 && Size(mem, r) == nunits
      ensures forall x: nat :: x < |old(live)| ==> Size(mem, old(live)[x]) == old(Size(mem, live[x]))
    {
      hide Chain, LivesOk, Units, LiveOk;
      Bounds(mem, list, i);
      ghost var mem0, list0, live0 := mem, list, live;
      r := p;
      if Size(mem, p) == nunits {
        TakeChain(mem, list, i);
        TakeLives(mem, list, live, top, i);
        TakeUnits(mem, list, live, i);
        mem := mem[prevp := Header(Ptr(mem, p), Size(mem, prevp))];
        list := Without(list, i);
        assert list[i - 1] == prevp;
      } else {
        SplitSizes(mem, list, i, nunits);
        SplitChain(mem, list, i, nunits);
        SplitLives(mem, list, live, top, i, nunits);
        SplitUnits(mem, list, live, top, i, nunits);
        mem := mem[p := Header(Ptr(mem, p), Size(mem, p) - nunits)];
        r := p + UNIT * Size(mem, p);
        mem := mem[r := Header(Ptr(mem, r), nunits)];
        assert mem == SplitMem(mem0, p, nunits);
      }
      live := live + [r];
      freep := prevp;
    }

    /** malloc's loop.  It asks for more memory at most once. */
    method Scan(nunits: nat, core: Core) returns (r: Alloc)
      requires Linked() && nunits > 0 && (core.Core? ==> core.p >= top)
      modifies this`mem, this`freep, this`list, this`live, this`top, this`total
      ensures r.Short? <==> core.Core? && UNIT * CoreUnits(nunits) >= 0x8000_0000 && old(NoneFits(mem, list, nunits))
      ensures r.NoMemory? <==> core.NoCore? && old(NoneFits(mem, list, nunits))
      ensures !r.Short? ==> Linked()
      ensures r.NoMemory? ==> live == old(live) && total == old(total) && list == old(list) && mem == old(mem)
      ensures r.Block? ==> r.p != 0 && live == old(live) + [r.p] && Size(mem, r.p) == nunits
      ensures !r.Short? ==> forall x: nat :: x < |old(live)| ==> Size(mem, old(live)[x]) == old(Size(mem, live[x]))
      ensures r.Block? ==> total == old(total) + if old(NoneFits(mem, list, nunits)) then CoreUnits(nunits) else 0
    {
      hide Chain, LivesOk, Units, Size, Ptr, NoneFits;
      ghost var s: nat, asked := IndexOf(list, freep), false;
      ghost var i: nat := if s + 1 < |list| then s + 1 else 0;
      var prevp := freep;
      Step(mem, list, s);
      var p := Ptr(mem, prevp);
      while true
        invariant Linked() && live == old(live) && i < |list| && p == list[i] && s < |list| && list[s] == freep
        invariant prevp == list[if i == 0 then |list| - 1 else i - 1]
        invariant forall x: nat :: x < |list| && Visited(s, i, x) ==> Size(mem, list[x]) < nunits
        invariant asked ==> core.Core? && total == old(total) + CoreUnits(nunits)
        invariant asked ==> UNIT * CoreUnits(nunits) < 0x8000_0000
        invariant asked ==> !NoneFits(mem, list, nunits) && old(NoneFits(mem, list, nunits))
        invariant !asked ==> mem == old(mem) && list == old(list) && total == old(total) && top == old(top)
        invariant forall x: nat :: x < |old(live)| ==> Size(mem, old(live)[x]) == old(Size(mem, live[x]))
        decreases if asked then 0 else 1, if i <= s then s - i else |list| - i + s
      {
        if Size(mem, p) >= nunits {
          SomeFits(mem, list, i, nunits);
          BaseSize(mem, list);
          p := Take(prevp, p, nunits, i);
          return Block(p);
        }
        if p == freep {
          Unique(mem, list, i, s);
          AllVisited(mem, list, i, nunits);
          assert !asked;
          r := MoreCore(nunits, core);
          if !r.Block? { return; }
          p := r.p;
          asked, s := true, IndexOf(list, freep);
          i := s;
        }
        prevp := p;
        Step(mem, list, i);
        p := Ptr(mem, p);
        i := if i + 1 < |list| then i + 1 else 0;
      }
    }

    /**
     * A block of UnitsFor(nbytes) units, disjoint from all others; none only if no free block is large enough and
     * sbrk has no more memory, or is asked for too little.
     */
    method Malloc(nbytes: nat, core: Core) returns (r: Alloc)
      requires Valid() && nbytes < UINT_LIMIT && (core.Core? ==> core.p >= top)
      modifies this`mem, this`freep, this`list, this`live, this`top, this`total
      ensures var none := old(freep) == 0 || old(NoneFits(mem, list, UnitsFor(nbytes)));
        && (r.NoMemory? <==> core.NoCore? && none)
        && (r.Short? <==> core.Core? && none && 0x8000_0000 - 2 * UNIT < nbytes <= UINT_LIMIT - UNIT)
      ensures !r.Short? ==> Valid()
      ensures r.NoMemory? ==> live == old(live) && total == old(total)
      ensures r.Block? ==> r.p >= UNIT && live == old(live) + [r.p - UNIT] && Size(mem, r.p - UNIT) == UnitsFor(nbytes)
      ensures !r.Short? ==> forall x: nat :: x < |old(live)| ==> Size(mem, old(live)[x]) == old(Size(mem, live[x]))
      ensures var none := old(freep) == 0 || old(NoneFits(mem, list, UnitsFor(nbytes)));
        r.Block? ==> total == old(total) + if none then CoreUnits(UnitsFor(nbytes)) else 0
    {
      var nunits := (nbytes + UNIT - 1) % UINT_LIMIT / UNIT + 1;
      RequestBySize(nbytes);
      if freep == 0 {
        mem := mem[base := Header(base, 0)];
        freep := base;
        list := [base];
        OneBlock(mem, base, top);
      }
      hide Linked;
      r := Scan(nunits, core);
      if r.Block? { r := Block(r.p + UNIT); }
    }
  }

  /** No block of the list has n units. */
  ghost predicate NoneFits(mem: Memory, list: seq<nat>, n: nat) {
    forall x: nat {:trigger list[x]} :: x < |list| ==> Size(mem, list[x]) < n
  }

  lemma SomeFits(mem: Memory, list: seq<nat>, i: nat, n: nat)
    requires i < |list| && Size(mem, list[i]) >= n
    ensures !NoneFits(mem, list, n)
  {
  }

  /** The scan is back where it started. */
  lemma AllVisited(mem: Memory, list: seq<nat>, s: nat, n: nat)
    requires s < |list| && Size(mem, list[s]) < n
    requires forall x: nat :: x < |list| && Visited(s, s, x) ==> Size(mem, list[x]) < n
    ensures NoneFits(mem, list, n)
  {
    forall x: nat | x < |list| ensures Size(mem, list[x]) < n { assert x == s || Visited(s, s, x); }
  }

  /** Where the address is in the list. */
  ghost function IndexOf(list: seq<nat>, a: nat): (i: nat)
    requires a in list
    ensures i < |list| && list[i] == a
  {
    var i: nat :| i < |list| && list[i] == a;
    i
  }

  /** Going round from after s to before i passes x. */
  predicate Visited(s: nat, i: nat, x: nat) {
    if s < i then s < x < i else x > s || x < i
  }

  lemma Step(mem: Memory, list: seq<nat>, i: nat)
    requires Chain(mem, list) && i < |list|
    ensures Ptr(mem, list[i]) == After(list, i)
  {
    assert LinkOk(mem, list, i);
  }

  lemma Unique(mem: Memory, list: seq<nat>, i: nat, s: nat)
    requires Chain(mem, list) && i < |list| && s < |list|
    ensures list[i] == list[s] ==> i == s
  {
    if i < s { assert OrderOk(mem, list, i, s); } else if s < i { assert OrderOk(mem, list, s, i); }
  }

  lemma BaseSize(mem: Memory, list: seq<nat>)
    requires Chain(mem, list)
    ensures Size(mem, list[0]) == 0
  {
    assert LinkOk(mem, list, 0);
  }

  lemma Bounds(mem: Memory, list: seq<nat>, i: nat)
    requires Chain(mem, list) && 0 < i < |list|
    ensures list[0] < list[i] && list[0] <= list[i - 1]
  {
    assert OrderOk(mem, list, 0, i);
    if i > 1 { assert OrderOk(mem, list, 0, i - 1); }
  }

  /** The first malloc starts with a list of base alone. */
  lemma OneBlock(mem: Memory, base: nat, top: nat)
    requires base in mem && mem[base] == Header(base, 0) && base < top
    ensures Chain(mem, [base]) && LivesOk(mem, [base], [], top) && Units(mem, [base]) == 0
  {
    assert LinkOk(mem, [base], 0);
    UnitsOne(mem, base);
  }


  lemma GrowSizes(mem: Memory, list: seq<nat>, live: seq<nat>, top: nat, p: nat, n: nat)
    requires LivesOk(mem, list, live, top) && p >= top
    ensures forall x: nat :: x < |live| ==> Size(mem[p := Header(Ptr(mem, p), n)], live[x]) == Size(mem, live[x])
  {
    forall x: nat | x < |live| ensures live[x] != p { assert LiveOk(mem, list, top, live[x]); }
  }

  lemma FreeSizes(mem: Memory, list: seq<nat>, live: seq<nat>, top: nat, j: nat, k: nat)
    requires Chain(mem, list) && LivesOk(mem, list, live, top) && j < |live| && Between(mem, list, live[j], k)
    ensures forall x: nat :: x < |live| && x != j ==>
      Size(FreedMem(mem, list, live[j], k), live[x]) == Size(mem, live[x])
  {
    forall x: nat | x < |live| && x != j
      ensures Size(FreedMem(mem, list, live[j], k), live[x]) == Size(mem, live[x])
    {
      assert LiveOk(mem, list, top, live[x]) && LiveOk(mem, list, top, live[j]) && Apart(mem, live[j], live[x]);
      FreedAt(mem, list, live[j], k, 0);
      FreedApart(mem, list, live[j], k, live[x], top, 0);
    }
  }

  lemma FreedList(mem: Memory, list: seq<nat>, b: nat, k: nat)
    requires Chain(mem, list) && k < |list|
    ensures list[k] in Freed(mem, list, b, k) && list[0] <= list[k]
  {
    FreedAt(mem, list, b, k, k);
    if k > 0 { assert OrderOk(mem, list, 0, k); }
  }

  /** Where a live block belongs in the list. */
  lemma FindPlace(mem: Memory, list: seq<nat>, live: seq<nat>, top: nat, j: nat) returns (k: nat)
    requires Chain(mem, list) && LivesOk(mem, list, live, top) && j < |live|
    ensures Between(mem, list, live[j], k) && list[k] < live[j] && (k + 1 < |list| ==> live[j] < list[k + 1])
    ensures live[j] in mem
  {
    var b := live[j];
    assert LiveOk(mem, list, top, b);
    k := 0;
    while k + 1 < |list| && list[k + 1] < b
      invariant k < |list| && list[k] < b
    {
      k := k + 1;
    }
    LiveBetween(mem, list, top, b, k);
    if k + 1 < |list| { assert Apart(mem, list[k + 1], b); assert LinkOk(mem, list, k + 1); }
  }

  /** The two tests of free's loop, at element i: one holds exactly at k. */
  lemma At(mem: Memory, list: seq<nat>, bp: nat, k: nat, i: nat)
    requires Chain(mem, list) && i < |list| && k < |list| && list[k] < bp && (k + 1 < |list| ==> bp < list[k + 1])
    ensures Ptr(mem, list[i]) == After(list, i)
    ensures var p, next := list[i], After(list, i);
      (bp > p && bp < next) || (p >= next && (bp > p || bp < next)) <==> i == k
  {
    assert LinkOk(mem, list, i);
    if i < k { assert OrderOk(mem, list, i, k); }
    if i + 1 < k { assert OrderOk(mem, list, i + 1, k); }
    if k + 1 < i { assert OrderOk(mem, list, k + 1, i); }
    if i + 1 < |list| { assert OrderOk(mem, list, i, i + 1); } else if i > 0 { assert OrderOk(mem, list, 0, i); }
    if 0 < k { assert OrderOk(mem, list, 0, k); }
  }
}
