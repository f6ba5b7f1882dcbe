/**
 * Shared memory regions, as values: which processes hold a region, where they have it mapped, and what a
 * process's address space looks like around it.  Addresses that are always page-aligned are page numbers.
 */
module Regions {
  import opened Common
  import opened Paging

  const NPROC := 64
  const KEYS := NPROC                      // MAX_SH_KEY
  const MAX_SH_PAGES := NPROC

  /** pages[..pageCount] are the region's physical pages. */
  datatype Region = Region(valid: bool, refCount: nat, pageCount: nat, pages: seq<nat>)

  /** A process's reference to a region, mapped from virtual page va on. */
  datatype Ref = Ref(held: bool, va: nat)

  datatype State = Unused | Live | Zombie

  datatype Proc = Proc(state: State, pgdir: nat, kstack: nat, sz: nat, sh: nat, shared: seq<Ref>)

  // ---- one process ----

  predicate Active(p: Proc) { p.state != Unused }

  predicate Holds(p: Proc, key: nat) { Active(p) && key < |p.shared| && p.shared[key].held }

  /** Virtual page w of p lies in its mapping of region key. */
  predicate Covers(regions: seq<Region>, p: Proc, key: nat, w: nat) {
    Holds(p, key) && key < |regions| && p.shared[key].va <= w < p.shared[key].va + regions[key].pageCount
  }

  /** The pages below the size are the process's own; from there up to sh nothing is mapped. */
  ghost predicate LowOk(m: Mem, p: Proc) {
    && 0 < PageUp(p.sz) <= p.sh <= UPAGES
    && (forall w: nat {:trigger Entry(m.pages, p.pgdir, w)} :: w < PageUp(p.sz) ==>
          Present(Entry(m.pages, p.pgdir, w)) && Ppn(Entry(m.pages, p.pgdir, w)) in m.owner
          && m.owner[Ppn(Entry(m.pages, p.pgdir, w))] == User(p.pgdir, w))
    && (forall w: nat {:trigger Entry(m.pages, p.pgdir, w)} :: PageUp(p.sz) <= w < p.sh ==>
          !Present(Entry(m.pages, p.pgdir, w)))
  }

  /** The regions of p lie apart from one another between sh and KERNBASE. */
  ghost predicate RefsOk(regions: seq<Region>, p: Proc) {
    && |p.shared| == KEYS == |regions|
    && (forall key: nat :: Holds(p, key) ==>
          p.sh <= p.shared[key].va && p.shared[key].va + regions[key].pageCount <= UPAGES)
    && (forall key: nat, key': nat, w: nat :: Covers(regions, p, key, w) && Covers(regions, p, key', w) ==> key == key')
  }

  /** How a shared page is mapped: writable, for the user. */
  function SharedEntry(b: nat): Uint { if b < VPAGES then MakeEntry(b, 6) else 0 }

  /** What a region's page i is mapped to: the pages were mapped downwards. */
  function RegionEntry(r: Region, i: nat): Uint {
    if i < r.pageCount <= |r.pages| then SharedEntry(r.pages[r.pageCount - 1 - i]) else 0
  }

  /** From sh on exactly the held regions are mapped. */
  ghost predicate HighOk(pages: seq<Page>, regions: seq<Region>, p: Proc) {
    && (forall key: nat, w: nat {:trigger Covers(regions, p, key, w)} :: Covers(regions, p, key, w) ==>
          Entry(pages, p.pgdir, w) == RegionEntry(regions[key], w - p.shared[key].va))
    && (forall w: nat {:trigger Entry(pages, p.pgdir, w)} :: p.sh <= w < UPAGES && Present(Entry(pages, p.pgdir, w)) ==>
          exists key: nat :: Covers(regions, p, key, w))
  }

  ghost predicate ProcOk(m: Mem, regions: seq<Region>, p: Proc) {
    if Active(p) then
      && p.pgdir in m.dirs && p.kstack in m.owner && m.owner[p.kstack] == Held
      && LowOk(m, p) && RefsOk(regions, p) && HighOk(m.pages, regions, p)
    else
      |p.shared| == KEYS && forall key: nat :: key < KEYS ==> !p.shared[key].held
  }

  // ---- the whole system ----

  /** How many processes hold the region. */
  function Count(procs: seq<Proc>, key: nat): nat {
    if procs == [] then 0
    else Count(procs[..|procs| - 1], key) + if Holds(procs[|procs| - 1], key) then 1 else 0
  }

  function One(p: Proc, key: nat): nat { if Holds(p, key) then 1 else 0 }

  lemma {:induction false} CountUpdate(procs: seq<Proc>, i: nat, p: Proc, key: nat)
    requires i < |procs|
    ensures Count(procs[i := p], key) + One(procs[i], key) == Count(procs, key) + One(p, key)
  {
    var n := |procs| - 1;
    if i == n {
      assert procs[i := p][..n] == procs[..n];
    } else {
      assert procs[i := p][..n] == procs[..n][i := p];
      CountUpdate(procs[..n], i, p, key);
    }
  }

  lemma {:induction false} CountHolder(procs: seq<Proc>, i: nat, key: nat)
    requires i < |procs| && Holds(procs[i], key)
    ensures Count(procs, key) > 0
  {
    if i < |procs| - 1 { CountHolder(procs[..|procs| - 1], i, key); }
  }

  /** Region key belongs to n holders, and its pages to it. */
  ghost predicate RegionOk(m: Mem, r: Region, key: nat, n: nat) {
    && |r.pages| == MAX_SH_PAGES && r.refCount == n && (r.valid <==> n > 0)
    && (if r.valid then Made(m, r, key) else r.pageCount == 0)
  }

  ghost predicate Made(m: Mem, r: Region, key: nat) {
    && |r.pages| == MAX_SH_PAGES && 0 < r.pageCount <= MAX_SH_PAGES
    && forall k: nat {:trigger r.pages[k]} :: k < r.pageCount ==>
         r.pages[k] in m.owner && m.owner[r.pages[k]] == Shared(key, k)
  }

  /** Every page that a region owns is one of its pages. */
  ghost predicate SharedPlaced(m: Mem, regions: seq<Region>) {
    forall b :: b in m.owner && m.owner[b].Shared? ==>
      var key, k := m.owner[b].key, m.owner[b].index;
      key < |regions| && k < regions[key].pageCount <= |regions[key].pages| && regions[key].pages[k] == b
  }

  ghost predicate Apart(procs: seq<Proc>) {
    forall i, j :: 0 <= i < j < |procs| && Active(procs[i]) && Active(procs[j]) ==>
      procs[i].pgdir != procs[j].pgdir && procs[i].kstack != procs[j].kstack
  }

  ghost predicate IsPgdir(procs: seq<Proc>, d: nat) {
    exists i :: 0 <= i < |procs| && Active(procs[i]) && procs[i].pgdir == d
  }

  /** An address space that is no process's, such as the scheduler's, has no user pages. */
  ghost predicate KernelDirs(m: Mem, procs: seq<Proc>) {
    forall d: nat, w: nat {:trigger Entry(m.pages, d, w)} :: d in m.dirs && !IsPgdir(procs, d) && w < UPAGES ==>
      !Present(Entry(m.pages, d, w))
  }

  ghost predicate Good(m: Mem, regions: seq<Region>, procs: seq<Proc>) {
    && |regions| == KEYS && |procs| == NPROC && Apart(procs) && SharedPlaced(m, regions) && KernelDirs(m, procs)
    && (forall i :: 0 <= i < |procs| ==> ProcOk(m, regions, procs[i]))
    && (forall key: nat :: key < KEYS ==> RegionOk(m, regions[key], key, Count(procs, key)))
  }

  // ---- what it means ----

  /** The physical address that d translates a to. */
  function Translate(pages: seq<Page>, d: nat, a: nat): nat {
    Ppn(Entry(pages, d, a / 4096)) * 4096 + a % 4096
  }

  lemma GoodParts(m: Mem, regions: seq<Region>, procs: seq<Proc>, i: nat, key: nat)
    requires Good(m, regions, procs) && i < NPROC && key < KEYS
    ensures |regions| == KEYS && |procs| == NPROC && |procs[i].shared| == KEYS
    ensures ProcOk(m, regions, procs[i]) && RegionOk(m, regions[key], key, Count(procs, key))
  {
    hide LowOk, HighOk, RegionOk;
  }

  lemma HolderEntry(m: Mem, regions: seq<Region>, p: Proc, key: nat, x: nat)
    requires ProcOk(m, regions, p) && Holds(p, key) && key < KEYS && x < regions[key].pageCount
    ensures Entry(m.pages, p.pgdir, p.shared[key].va + x) == RegionEntry(regions[key], x)
  {
    assert Covers(regions, p, key, p.shared[key].va + x);
  }

  /** The page of a region at offset x, which is where RegionEntry maps. */
  lemma RegionPage(m: Mem, regions: seq<Region>, procs: seq<Proc>, key: nat, x: nat)
    requires Own(m) && Good(m, regions, procs) && key < KEYS && x < regions[key].pageCount
    ensures var r := regions[key];
      && |r.pages| == MAX_SH_PAGES && r.pageCount <= MAX_SH_PAGES && r.pages[r.pageCount - 1 - x] < |m.pages|
      && Present(RegionEntry(r, x)) && Ppn(RegionEntry(r, x)) == r.pages[r.pageCount - 1 - x]
      && r.pages[r.pageCount - 1 - x] in m.owner
      && m.owner[r.pages[r.pageCount - 1 - x]] == Shared(key, r.pageCount - 1 - x)
  {
    assert RegionOk(m, regions[key], key, Count(procs, key));
    var k: nat := regions[key].pageCount - 1 - x;
    OwnedInRange(m, regions[key].pages[k]);
    EntryParts(regions[key].pages[k], 6);
  }

  lemma SplitAddress(va: nat, o: nat)
    ensures (va * 4096 + o) / 4096 == va + o / 4096 && (va * 4096 + o) % 4096 == o % 4096
  {
  }

  /** All holders of a region reach the same physical byte at the same offset. */
  lemma Coherent(m: Mem, regions: seq<Region>, procs: seq<Proc>, i: nat, j: nat, key: nat, o: nat)
    requires Own(m) && Good(m, regions, procs) && i < NPROC && j < NPROC && key < KEYS
    requires Holds(procs[i], key) && Holds(procs[j], key) && o < regions[key].pageCount * 4096
    ensures Translate(m.pages, procs[i].pgdir, procs[i].shared[key].va * 4096 + o)
         == Translate(m.pages, procs[j].pgdir, procs[j].shared[key].va * 4096 + o)
    ensures Present(Entry(m.pages, procs[i].pgdir, procs[i].shared[key].va + o / 4096))
  {
    hide Entry, ProcOk, Own, Good, RegionEntry, Ppn, Present;
    GoodParts(m, regions, procs, i, key);
    GoodParts(m, regions, procs, j, key);
    RegionPage(m, regions, procs, key, o / 4096);
    HolderEntry(m, regions, procs[i], key, o / 4096);
    HolderEntry(m, regions, procs[j], key, o / 4096);
    SplitAddress(procs[i].shared[key].va, o);
    SplitAddress(procs[j].shared[key].va, o);
  }

  /** A process's regions do not overlap, and lie between its own memory and KERNBASE. */
  lemma Separate(m: Mem, regions: seq<Region>, procs: seq<Proc>, i: nat, key: nat, key': nat)
    requires Good(m, regions, procs) && i < NPROC && key < KEYS && key' < KEYS && key != key'
    requires Holds(procs[i], key) && Holds(procs[i], key')
    ensures var p := procs[i];
      && PageUp(p.sz) <= p.sh <= p.shared[key].va && p.shared[key].va + regions[key].pageCount <= UPAGES
      && (p.shared[key].va + regions[key].pageCount <= p.shared[key'].va
          || p.shared[key'].va + regions[key'].pageCount <= p.shared[key].va)
  {
    var p := procs[i];
    assert ProcOk(m, regions, p);
    CountHolder(procs, i, key);
    CountHolder(procs, i, key');
    assert RegionOk(m, regions[key], key, Count(procs, key)) && RegionOk(m, regions[key'], key', Count(procs, key'));
    var w := if p.shared[key].va < p.shared[key'].va then p.shared[key'].va else p.shared[key].va;
    assert !(Covers(regions, p, key, w) && Covers(regions, p, key', w));
  }

  // ---- what a change to one address space leaves of the others ----

  /** The pages x are of no concern to p. */
  ghost predicate Spares(m: Mem, p: Proc, x: set<nat>) {
    forall b :: b in x && b in m.owner ==> (m.owner[b].Held? || m.owner[b].Shared?) && b != p.kstack
  }

  lemma SpaceFrame(m: Mem, m': Mem, d: nat, lo: nat, hi: nat, x: set<nat>, c: nat, v: nat)
    requires Own(m) && Frame(m, m', d, lo, hi, x) && c in m.dirs && c != d && v < VPAGES
    requires forall b :: b in x && b in m.owner ==> !m.owner[b].Dir? && !m.owner[b].Table?
    ensures c in m'.dirs && Entry(m'.pages, c, v) == Entry(m.pages, c, v)
  {
    SamePage(v, v);
    assert c in m.dirs - {d};
    var pde := DirEntry(m.pages, c, Pdx(v));
    if Present(pde) { assert m.owner[Ppn(pde)] == Table(c, Pdx(v)); }
  }

  lemma LowFrame(m: Mem, m': Mem, p: Proc, d: nat, lo: nat, hi: nat, x: set<nat>)
    requires Own(m) && Frame(m, m', d, lo, hi, x) && p.pgdir in m.dirs && p.pgdir != d && Spares(m, p, x) && LowOk(m, p)
    ensures LowOk(m', p)
  {
    forall w: nat | w < UPAGES ensures Entry(m'.pages, p.pgdir, w) == Entry(m.pages, p.pgdir, w) {
      SpaceFrame(m, m', d, lo, hi, x, p.pgdir, w);
    }
    forall w: nat | w < PageUp(p.sz)
      ensures Ppn(Entry(m.pages, p.pgdir, w)) in m'.owner
           && m'.owner[Ppn(Entry(m.pages, p.pgdir, w))] == User(p.pgdir, w)
    {
      OwnedInRange(m, Ppn(Entry(m.pages, p.pgdir, w)));
    }
    hide Own, Entry, Frame;
  }

  lemma HighFrame(m: Mem, m': Mem, regions: seq<Region>, p: Proc, d: nat, lo: nat, hi: nat, x: set<nat>)
    requires Own(m) && Frame(m, m', d, lo, hi, x) && p.pgdir in m.dirs && p.pgdir != d && Spares(m, p, x)
    requires HighOk(m.pages, regions, p) && RefsOk(regions, p)
    ensures HighOk(m'.pages, regions, p)
  {
    forall w: nat | w < UPAGES ensures Entry(m'.pages, p.pgdir, w) == Entry(m.pages, p.pgdir, w) {
      SpaceFrame(m, m', d, lo, hi, x, p.pgdir, w);
    }
    hide Own, Entry, Frame;
    assert forall key: nat, w: nat :: Covers(regions, p, key, w) ==> w < UPAGES;
  }

  lemma ProcFrame(m: Mem, m': Mem, regions: seq<Region>, p: Proc, d: nat, lo: nat, hi: nat, x: set<nat>)
    requires Own(m) && Frame(m, m', d, lo, hi, x) && (Active(p) ==> p.pgdir != d) && Spares(m, p, x)
    requires ProcOk(m, regions, p) && (Active(p) ==> p.kstack !in x)
    ensures ProcOk(m', regions, p)
  {
    hide LowOk, HighOk, RefsOk;
    if Active(p) {
      LowFrame(m, m', p, d, lo, hi, x);
      HighFrame(m, m', regions, p, d, lo, hi, x);
      SpaceFrame(m, m', d, lo, hi, x, p.pgdir, 0);
      OwnedInRange(m, p.kstack);
      FrameKeeps(m, m', d, lo, hi, x, p.kstack);
    }
  }

  /** A region whose pages stay the same looks the same to its holders. */
  lemma RegionsFrame(m: Mem, regions: seq<Region>, key: nat, r: Region, p: Proc)
    requires ProcOk(m, regions, p) && key < |regions| == KEYS
    requires Holds(p, key) ==> r.pageCount == regions[key].pageCount && r.pages == regions[key].pages
    ensures ProcOk(m, regions[key := r], p)
  {
    hide LowOk, Entry;
    var regions' := regions[key := r];
    assert forall k: nat, w: nat :: Covers(regions', p, k, w) <==> Covers(regions, p, k, w);
  }

  lemma MadeFrame(m: Mem, m': Mem, r: Region, key: nat, d: nat, lo: nat, hi: nat, x: set<nat>)
    requires Own(m) && Frame(m, m', d, lo, hi, x) && Made(m, r, key)
    requires forall b :: b in x && b in m.owner ==> !(m.owner[b].Shared? && m.owner[b].key == key)
    ensures Made(m', r, key)
  {
    forall k: nat | k < r.pageCount ensures r.pages[k] in m'.owner && m'.owner[r.pages[k]] == Shared(key, k) {
      OwnedInRange(m, r.pages[k]);
      FrameKeeps(m, m', d, lo, hi, x, r.pages[k]);
    }
  }

  /** Process i, whose address space is d, becomes p; the pages x change hands and concern no other process. */
  ghost predicate Changes(m: Mem, m': Mem, procs: seq<Proc>, i: nat, p: Proc, d: nat, lo: nat, hi: nat, x: set<nat>) {
    && Frame(m, m', d, lo, hi, x) && i < |procs|
    && (Active(procs[i]) ==> procs[i].pgdir == d) && (d in m'.dirs ==> Active(p)) && (Active(p) ==> p.pgdir == d)
    && (forall b :: b in x && b in m.owner ==> m.owner[b].Held? || m.owner[b].Shared?)
    && (forall j :: 0 <= j < |procs| && j != i && Active(procs[j]) ==>
          procs[j].pgdir != d && procs[j].kstack !in x && (Active(p) ==> procs[j].kstack != p.kstack))
  }

  lemma OtherProcs(m: Mem, m': Mem, regions: seq<Region>, procs: seq<Proc>, i: nat, p: Proc, d: nat, lo: nat, hi: nat,
                   x: set<nat>, key: nat, r: Region, j: nat)
    requires Own(m) && Good(m, regions, procs) && Changes(m, m', procs, i, p, d, lo, hi, x) && key < KEYS
    requires j < NPROC && j != i
    requires Holds(procs[j], key) ==> r.pageCount == regions[key].pageCount && r.pages == regions[key].pages
    ensures ProcOk(m', regions[key := r], procs[j])
  {
    hide Own, Frame, ProcOk, Good;
    GoodParts(m, regions, procs, j, key);
    if Active(procs[j]) {
      ProcFrame(m, m', regions, procs[j], d, lo, hi, x);
    } else {
      InactiveFrame(m, m', regions, procs[j]);
    }
    RegionsFrame(m', regions, key, r, procs[j]);
  }

  lemma InactiveFrame(m: Mem, m': Mem, regions: seq<Region>, p: Proc)
    requires ProcOk(m, regions, p) && !Active(p)
    ensures ProcOk(m', regions, p)
  {
  }

  lemma OtherRegions(m: Mem, m': Mem, regions: seq<Region>, procs: seq<Proc>, i: nat, p: Proc, d: nat, lo: nat, hi: nat,
                     x: set<nat>, key: nat)
    requires Own(m) && Good(m, regions, procs) && Changes(m, m', procs, i, p, d, lo, hi, x) && key < KEYS && i < NPROC
    requires Holds(p, key) == Holds(procs[i], key)
    requires forall b :: b in x && b in m.owner ==> !(m.owner[b].Shared? && m.owner[b].key == key)
    ensures RegionOk(m', regions[key], key, Count(procs[i := p], key))
  {
    hide Own, Frame, ProcOk, Good, Made;
    GoodParts(m, regions, procs, i, key);
    CountUpdate(procs, i, p, key);
    if regions[key].valid { MadeFrame(m, m', regions[key], key, d, lo, hi, x); }
  }

  lemma OtherDirs(m: Mem, m': Mem, procs: seq<Proc>, i: nat, p: Proc, d: nat, lo: nat, hi: nat, x: set<nat>)
    requires Own(m) && KernelDirs(m, procs) && Changes(m, m', procs, i, p, d, lo, hi, x)
    ensures KernelDirs(m', procs[i := p])
  {
    forall c: nat, w: nat | c in m'.dirs && !IsPgdir(procs[i := p], c) && w < UPAGES
      ensures !Present(Entry(m'.pages, c, w))
    {
      assert procs[i := p][i] == p;
      assert c != d && c in m'.dirs - {d};
      assert forall j :: 0 <= j < |procs| && j != i ==> procs[i := p][j] == procs[j];
      assert !IsPgdir(procs, c);
      SpaceFrame(m, m', d, lo, hi, x, c, w);
    }
  }

  /** The one theorem behind every operation: only process i and region key change. */
  lemma GoodUpdate(m: Mem, m': Mem, regions: seq<Region>, procs: seq<Proc>, i: nat, p: Proc, d: nat, lo: nat, hi: nat,
                   x: set<nat>, key: nat, r: Region)
    requires Own(m) && Good(m, regions, procs) && Changes(m, m', procs, i, p, d, lo, hi, x) && key < KEYS && i < NPROC
    requires ProcOk(m', regions[key := r], p) && RegionOk(m', r, key, Count(procs[i := p], key))
    requires SharedPlaced(m', regions[key := r])
    requires forall j :: 0 <= j < NPROC && j != i && Holds(procs[j], key) ==>
      r.pageCount == regions[key].pageCount && r.pages == regions[key].pages
    requires forall k: nat :: k < KEYS && k != key ==> Holds(p, k) == Holds(procs[i], k)
    requires forall b :: b in x && b in m.owner && m.owner[b].Shared? ==> m.owner[b].key == key
    ensures Good(m', regions[key := r], procs[i := p])
  {
    hide Own, Frame, ProcOk, RegionOk, SharedPlaced, KernelDirs;
    var procs', regions' := procs[i := p], regions[key := r];
    OtherDirs(m, m', procs, i, p, d, lo, hi, x);
    forall j: nat | j < NPROC ensures ProcOk(m', regions', procs'[j]) {
      if j != i { OtherProcs(m, m', regions, procs, i, p, d, lo, hi, x, key, r, j); }
    }
    forall k: nat | k < KEYS ensures RegionOk(m', regions'[k], k, Count(procs', k)) {
      if k != key { OtherRegions(m, m', regions, procs, i, p, d, lo, hi, x, k); }
    }
  }

  // ---- mapping a region ----

  /** The k pages of d below sh map ps[..k], downwards; no other entry changed. */
  ghost predicate Below(pages: seq<Page>, pages': seq<Page>, dirs: set<nat>, d: nat, sh: nat, k: nat, ps: seq<nat>) {
    && k <= sh && k <= |ps|
    && forall c: nat, w: nat {:trigger Entry(pages', c, w)} :: c in dirs && w < VPAGES ==>
         Entry(pages', c, w) == if c == d && sh - k <= w < sh then SharedEntry(ps[sh - 1 - w]) else Entry(pages, c, w)
  }

  lemma BelowMore(a: seq<Page>, b: seq<Page>, c: seq<Page>, dirs: set<nat>, d: nat, sh: nat, k: nat, ps: seq<nat>)
    requires Below(a, b, dirs, d, sh, k, ps) && k < sh && k < |ps| && ps[k] < VPAGES
    requires OneSpace(b, c, dirs, d, sh - k - 1, MakeEntry(ps[k], 6))
    ensures Below(a, c, dirs, d, sh, k + 1, ps)
  {
    hide Entry, MakeEntry;
  }

  /** Process p once region r, mapped from page va on, is its region key. */
  function Attached(p: Proc, key: nat, va: nat): Proc
    requires key < |p.shared|
  {
    p.(sh := va, shared := p.shared[key := Ref(true, va)])
  }

  lemma LowMapped(m: Mem, m': Mem, p: Proc, n: nat, ps: seq<nat>, key: nat)
    requires Own(m) && LowOk(m, p) && p.pgdir in m.dirs && Frame(m, m', p.pgdir, 0, 0, {}) && key < |p.shared|
    requires Below(m.pages, m'.pages, m.dirs, p.pgdir, p.sh, n, ps)
    requires forall w: nat :: p.sh - n <= w < p.sh ==> !Present(Entry(m.pages, p.pgdir, w))
    ensures LowOk(m', Attached(p, key, p.sh - n))
  {
    assert Present(Entry(m.pages, p.pgdir, PageUp(p.sz) - 1));
    assert PageUp(p.sz) <= p.sh - n;
    forall w: nat | w < PageUp(p.sz)
      ensures Ppn(Entry(m.pages, p.pgdir, w)) in m'.owner
           && m'.owner[Ppn(Entry(m.pages, p.pgdir, w))] == User(p.pgdir, w)
    {
      OwnedInRange(m, Ppn(Entry(m.pages, p.pgdir, w)));
    }
    hide Own, Entry, Frame;
  }

  lemma HighMapped(pages: seq<Page>, pages': seq<Page>, dirs: set<nat>, regions: seq<Region>, p: Proc, key: nat)
    requires HighOk(pages, regions, p) && RefsOk(regions, p) && Active(p) && p.pgdir in dirs && p.sh <= UPAGES
    requires key < KEYS && !Holds(p, key)
    requires Below(pages, pages', dirs, p.pgdir, p.sh, regions[key].pageCount, regions[key].pages)
    ensures HighOk(pages', regions, Attached(p, key, p.sh - regions[key].pageCount))
    ensures RefsOk(regions, Attached(p, key, p.sh - regions[key].pageCount))
  {
    hide Entry, SharedEntry;
    var n := regions[key].pageCount;
    var p' := Attached(p, key, p.sh - n);
    assert forall k: nat, w: nat :: k != key ==> (Covers(regions, p', k, w) <==> Covers(regions, p, k, w));
    assert forall k: nat, w: nat :: Covers(regions, p, k, w) ==> p.sh <= w < UPAGES;
    forall w: nat | p'.sh <= w < UPAGES && Present(Entry(pages', p'.pgdir, w))
      ensures exists k: nat :: Covers(regions, p', k, w)
    {
      if w < p.sh {
        assert Covers(regions, p', key, w);
      } else {
        assert Entry(pages', p.pgdir, w) == Entry(pages, p.pgdir, w);
        var k: nat :| Covers(regions, p, k, w);
        assert Covers(regions, p', k, w);
      }
    }
  }

  lemma ProcMapped(m: Mem, m': Mem, regions: seq<Region>, p: Proc, key: nat)
    requires Own(m) && Active(p) && ProcOk(m, regions, p) && key < KEYS && !Holds(p, key)
    requires Frame(m, m', p.pgdir, 0, 0, {}) && p.pgdir in m'.dirs
    requires Below(m.pages, m'.pages, m.dirs, p.pgdir, p.sh, regions[key].pageCount, regions[key].pages)
    requires forall w: nat :: p.sh - regions[key].pageCount <= w < p.sh ==> !Present(Entry(m.pages, p.pgdir, w))
    ensures ProcOk(m', regions, Attached(p, key, p.sh - regions[key].pageCount))
  {
    LowMapped(m, m', p, regions[key].pageCount, regions[key].pages, key);
    HighMapped(m.pages, m'.pages, m.dirs, regions, p, key);
    OwnedInRange(m, p.kstack);
    FrameKeeps(m, m', p.pgdir, 0, 0, {}, p.kstack);
    hide LowOk, HighOk, RefsOk, Own, Frame, Below;
  }

  // ---- unmapping a region ----

  function Detached(p: Proc, key: nat): Proc
    requires key < |p.shared|
  {
    p.(shared := p.shared[key := Ref(false, 0)])
  }

  lemma LowCleared(m: Mem, m': Mem, p: Proc, key: nat, va: nat, n: nat, x: set<nat>)
    requires Own(m) && LowOk(m, p) && p.pgdir in m.dirs && key < |p.shared| && p.sh <= va && Spares(m, p, x)
    requires Frame(m, m', p.pgdir, 0, 0, x) && Cleared(m.pages, m'.pages, m.dirs, p.pgdir, va, va + n)
    ensures LowOk(m', Detached(p, key))
  {
    forall w: nat | w < PageUp(p.sz)
      ensures Ppn(Entry(m.pages, p.pgdir, w)) in m'.owner
           && m'.owner[Ppn(Entry(m.pages, p.pgdir, w))] == User(p.pgdir, w)
    {
      OwnedInRange(m, Ppn(Entry(m.pages, p.pgdir, w)));
    }
    hide Own, Entry, Frame;
  }

  lemma HighCleared(pages: seq<Page>, pages': seq<Page>, dirs: set<nat>, regions: seq<Region>, p: Proc, key: nat,
                    r: Region)
    requires HighOk(pages, regions, p) && RefsOk(regions, p) && p.pgdir in dirs && key < KEYS && Holds(p, key)
    requires Cleared(pages, pages', dirs, p.pgdir, p.shared[key].va, p.shared[key].va + regions[key].pageCount)
    ensures HighOk(pages', regions[key := r], Detached(p, key)) && RefsOk(regions[key := r], Detached(p, key))
  {
    hide Entry, SharedEntry;
    var p', regions' := Detached(p, key), regions[key := r];
    assert forall k: nat, w: nat :: Covers(regions', p', k, w) <==> k != key && Covers(regions, p, k, w);
    forall k: nat, w: nat | Covers(regions, p, k, w) && k != key
      ensures w < UPAGES && Entry(pages', p.pgdir, w) == Entry(pages, p.pgdir, w)
    {
      assert !Covers(regions, p, key, w);
    }
    forall w: nat | p'.sh <= w < UPAGES && Present(Entry(pages', p'.pgdir, w))
      ensures exists k: nat :: Covers(regions', p', k, w)
    {
      assert Entry(pages', p.pgdir, w) == Entry(pages, p.pgdir, w) && !Covers(regions, p, key, w);
      var k: nat :| Covers(regions, p, k, w);
      assert Covers(regions', p', k, w);
    }
  }

  lemma ProcUnmapped(m: Mem, m': Mem, regions: seq<Region>, p: Proc, key: nat, r: Region, x: set<nat>)
    requires Own(m) && Active(p) && ProcOk(m, regions, p) && key < KEYS && Holds(p, key) && Spares(m, p, x)
    requires Frame(m, m', p.pgdir, 0, 0, x) && p.pgdir in m'.dirs && p.kstack !in x
    requires Cleared(m.pages, m'.pages, m.dirs, p.pgdir, p.shared[key].va, p.shared[key].va + regions[key].pageCount)
    ensures ProcOk(m', regions[key := r], Detached(p, key))
  {
    LowCleared(m, m', p, key, p.shared[key].va, regions[key].pageCount, x);
    HighCleared(m.pages, m'.pages, m.dirs, regions, p, key, r);
    OwnedInRange(m, p.kstack);
    FrameKeeps(m, m', p.pgdir, 0, 0, x, p.kstack);
    hide LowOk, HighOk, RefsOk, Own, Frame, Cleared;
  }

  /** Outside its mapping of a region, a process maps none of the region's pages. */
  lemma NotMappedBy(m: Mem, regions: seq<Region>, procs: seq<Proc>, i: nat, key: nat, v: nat)
    requires Own(m) && Good(m, regions, procs) && i < NPROC && Active(procs[i]) && key < KEYS
    requires v < UPAGES && Present(Entry(m.pages, procs[i].pgdir, v)) && !Covers(regions, procs[i], key, v)
    ensures !OfRegion(m, Ppn(Entry(m.pages, procs[i].pgdir, v)), key)
  {
    var p := procs[i];
    GoodParts(m, regions, procs, i, key);
    if v >= p.sh {
      var k: nat :| Covers(regions, p, k, v);
      RegionPage(m, regions, procs, k, v - p.shared[k].va);
    }
  }

  /** A user page is mapped by a process. */
  lemma DirProc(m: Mem, regions: seq<Region>, procs: seq<Proc>, d: nat, v: nat) returns (j: nat)
    requires Good(m, regions, procs) && d in m.dirs && v < UPAGES && Present(Entry(m.pages, d, v))
    ensures j < NPROC == |procs| && Active(procs[j]) && procs[j].pgdir == d
  {
    hide ProcOk, RegionOk, Entry;
    assert IsPgdir(procs, d);
    j :| 0 <= j < |procs| && Active(procs[j]) && procs[j].pgdir == d;
  }

  lemma SharedStays(m: Mem, m': Mem, d: nat, b: nat, key: nat)
    requires Frame(m, m', d, 0, 0, {}) && !OfRegion(m, b, key)
    ensures !OfRegion(m', b, key)
  {
  }

  /** Once its last holder has unmapped a region, no address space maps it. */
  lemma NobodyMaps(m: Mem, m': Mem, regions: seq<Region>, procs: seq<Proc>, i: nat, key: nat)
    requires Own(m) && Good(m, regions, procs) && i < NPROC && key < KEYS && Holds(procs[i], key)
    requires forall j :: 0 <= j < NPROC && j != i ==> !Holds(procs[j], key)
    requires Frame(m, m', procs[i].pgdir, 0, 0, {}) && m'.dirs == m.dirs
    requires Cleared(m.pages, m'.pages, m.dirs, procs[i].pgdir, procs[i].shared[key].va,
                     procs[i].shared[key].va + regions[key].pageCount)
    ensures Unmapped(m', key)
  {
    hide Own, Good, Entry, Frame, ProcOk, RegionOk;
    GoodParts(m, regions, procs, i, key);
    forall d: nat, v: nat | d in m'.dirs && v < UPAGES && Present(Entry(m'.pages, d, v))
      ensures !OfRegion(m', Ppn(Entry(m'.pages, d, v)), key)
    {
      assert Entry(m'.pages, d, v) == Entry(m.pages, d, v);
      var j := DirProc(m, regions, procs, d, v);
      assert !Covers(regions, procs[j], key, v);
      NotMappedBy(m, regions, procs, j, key, v);
      SharedStays(m, m', procs[i].pgdir, Ppn(Entry(m.pages, d, v)), key);
    }
  }

  /** Region key changes, and its pages only if they are no longer anyone's. */
  lemma PlacedAfter(m: Mem, m': Mem, regions: seq<Region>, d: nat, lo: nat, hi: nat, x: set<nat>, key: nat, r: Region)
    requires SharedPlaced(m, regions) && Frame(m, m', d, lo, hi, x) && key < |regions|
    requires forall b :: b in x && b in m'.owner && m'.owner[b].Shared? ==>
      m'.owner[b].key == key && m'.owner[b].index < r.pageCount <= |r.pages| && r.pages[m'.owner[b].index] == b
    requires (r.pages == regions[key].pages && r.pageCount == regions[key].pageCount)
          || forall b :: b in m.owner && b !in x ==> !OfRegion(m, b, key)
    ensures SharedPlaced(m', regions[key := r])
  {
  }

  // ---- small facts ----

  lemma MadeParts(m: Mem, r: Region, key: nat)
    requires Made(m, r, key)
    ensures 0 < r.pageCount <= MAX_SH_PAGES == |r.pages|
  {
  }

  /** A region's page stays the region's while one address space changes. */
  lemma MadeAt(m: Mem, m': Mem, r: Region, key: nat, d: nat, k: nat)
    requires Own(m) && Made(m, r, key) && Frame(m, m', d, 0, 0, {}) && k < r.pageCount
    ensures |r.pages| == MAX_SH_PAGES && k < MAX_SH_PAGES && r.pages[k] < UPAGES < VPAGES
    ensures r.pages[k] in m'.owner && m'.owner[r.pages[k]] == Shared(key, k)
  {
    OwnedInRange(m, r.pages[k]);
    FrameKeeps(m, m', d, 0, 0, {}, r.pages[k]);
  }

  lemma ProcParts(m: Mem, regions: seq<Region>, p: Proc)
    requires ProcOk(m, regions, p) && Active(p)
    ensures p.pgdir in m.dirs && 0 < PageUp(p.sz) <= p.sh <= UPAGES && |p.shared| == KEYS == |regions|
    ensures p.kstack in m.owner && m.owner[p.kstack] == Held
  {
  }

  lemma BelowNone(pages: seq<Page>, dirs: set<nat>, d: nat, sh: nat, ps: seq<nat>)
    ensures Below(pages, pages, dirs, d, sh, 0, ps)
  {
  }

  function NoRegion(): Region { Region(false, 0, 0, seq(MAX_SH_PAGES, k => 0)) }

  function NoRefs(): seq<Ref> { seq(KEYS, k => Ref(false, 0)) }

  function NoProc(): Proc { Proc(Unused, 0, 0, 0, 0, NoRefs()) }

  lemma {:induction false} CountNone(procs: seq<Proc>, key: nat)
    requires forall i :: 0 <= i < |procs| ==> !Holds(procs[i], key)
    ensures Count(procs, key) == 0
  {
    if procs != [] { CountNone(procs[..|procs| - 1], key); }
  }

  lemma NobodyHolds(procs: seq<Proc>, n: nat)
    requires |procs| == n && forall i :: 0 <= i < n ==> !Active(procs[i])
    ensures forall key: nat :: Count(procs, key) == 0
  {
    forall key: nat ensures Count(procs, key) == 0 { CountNone(procs, key); }
  }

  /** The pages x, new to the region, are listed in it. */
  ghost predicate NewPages(m: Mem, m': Mem, key: nat, r: Region, x: set<nat>) {
    forall b :: b in x ==>
      && b !in m.owner && b in m'.owner && OfRegion(m', b, key)
      && m'.owner[b].index < r.pageCount <= |r.pages| && r.pages[m'.owner[b].index] == b
  }

  /** Process i attaches region key, which is either as it was or made just now of the pages x. */
  lemma AttachGood(m: Mem, m': Mem, regions: seq<Region>, procs: seq<Proc>, i: nat, key: nat, va: nat, r: Region,
                   x: set<nat>)
    requires Own(m) && Good(m, regions, procs) && i < NPROC && key < KEYS && Active(procs[i]) && !Holds(procs[i], key)
    requires Frame(m, m', procs[i].pgdir, 0, 0, x) && procs[i].pgdir in m'.dirs
    requires r.valid && r.refCount == Count(procs, key) + 1 && Made(m', r, key) && NewPages(m, m', key, r, x)
    requires (x == {} && r.pages == regions[key].pages && r.pageCount == regions[key].pageCount) || !regions[key].valid
    requires ProcOk(m', regions[key := r], Attached(procs[i], key, va))
    ensures Good(m', regions[key := r], procs[i := Attached(procs[i], key, va)])
  {
    var p := Attached(procs[i], key, va);
    GoodParts(m, regions, procs, i, key);
    CountUpdate(procs, i, p, key);
    forall j | 0 <= j < NPROC && j != i && Active(procs[j])
      ensures procs[j].pgdir != procs[i].pgdir && procs[j].kstack !in x && procs[j].kstack != p.kstack
    {
      GoodParts(m, regions, procs, j, key);
      ProcParts(m, regions, procs[j]);
    }
    forall j | 0 <= j < NPROC && j != i && Holds(procs[j], key) ensures regions[key].valid {
      CountHolder(procs, j, key);
    }
    AttachPlaced(m, m', regions, procs, i, key, r, x);
    hide Own, Frame, ProcOk, Made, SharedPlaced, KernelDirs;
    GoodUpdate(m, m', regions, procs, i, p, procs[i].pgdir, 0, 0, x, key, r);
  }

  lemma AttachPlaced(m: Mem, m': Mem, regions: seq<Region>, procs: seq<Proc>, i: nat, key: nat, r: Region, x: set<nat>)
    requires Good(m, regions, procs) && i < NPROC && key < KEYS
    requires Frame(m, m', procs[i].pgdir, 0, 0, x) && NewPages(m, m', key, r, x)
    requires (x == {} && r.pages == regions[key].pages && r.pageCount == regions[key].pageCount) || !regions[key].valid
    ensures SharedPlaced(m', regions[key := r])
  {
    GoodParts(m, regions, procs, i, key);
    hide ProcOk, KernelDirs, Apart;
    if !regions[key].valid {
      assert forall b :: b in m.owner ==> !OfRegion(m, b, key);
    }
    PlacedAfter(m, m', regions, procs[i].pgdir, 0, 0, x, key, r);
  }

  /** There is room for n pages between the process's own memory and sh. */
  predicate Fits(p: Proc, n: nat) { PageUp(p.sz) + n <= p.sh }

  /** The lowest of the n pages below sh that is not the process's own memory. */
  function Lowest(p: Proc, n: nat): nat { if Fits(p, n) then p.sh - n else PageUp(p.sz) }

  /** How many page tables mapping n pages below sh takes. */
  function TablesLacking(pages: seq<Page>, p: Proc, n: nat): nat { |Untabled(pages, p.pgdir, Lowest(p, n), p.sh)| }

  /** No page is free, and the page below sh has no table. */
  predicate NoFirstTable(m: Mem, p: Proc) {
    m.free == [] && p.sh > 0 && !HasEntry(m.pages, p.pgdir, Pdx(p.sh - 1))
  }

  /** k pages of ps are mapped below sh, and the free pages have gone into the tables for that. */
  ghost predicate Partway(m: Mem, m': Mem, p: Proc, k: nat, ps: seq<nat>) {
    && Below(m.pages, m'.pages, m.dirs, p.pgdir, p.sh, k, ps) && Frame(m, m', p.pgdir, 0, 0, {})
    && Tabled(m.pages, m'.pages, p.pgdir, p.sh - k, p.sh)
    && |m'.free| + |Untabled(m.pages, p.pgdir, p.sh - k, p.sh)| == |m.free|
    && PageUp(p.sz) + k <= p.sh && (if k == 0 then m' == m else !NoFirstTable(m, p))
  }

  lemma PartwayNone(m: Mem, regions: seq<Region>, p: Proc, ps: seq<nat>)
    requires ProcOk(m, regions, p) && Active(p)
    ensures Partway(m, m, p, 0, ps)
  {
    ProcParts(m, regions, p);
    BelowNone(m.pages, m.dirs, p.pgdir, p.sh, ps);
    TabledNone(m.pages, p.pgdir, p.sh);
    FrameRefl(m, p.pgdir);
  }

  lemma PartwayMore(m: Mem, m1: Mem, m2: Mem, p: Proc, k: nat, ps: seq<nat>)
    requires Partway(m, m1, p, k, ps) && PageUp(p.sz) + k < p.sh <= UPAGES && k < |ps| && ps[k] < VPAGES
    requires OneSpace(m1.pages, m2.pages, m.dirs, p.pgdir, p.sh - k - 1, MakeEntry(ps[k], 6))
    requires Frame(m1, m2, p.pgdir, 0, 0, {}) && Tabled(m1.pages, m2.pages, p.pgdir, p.sh - k - 1, p.sh - k)
    requires |m1.free| == |m2.free| + if HasEntry(m1.pages, p.pgdir, Pdx(p.sh - k - 1)) then 0 else 1
    ensures Partway(m, m2, p, k + 1, ps)
  {
    hide Below, Frame, Tabled, Untabled, OneSpace, HasEntry;
    UntabledMore(m.pages, m1.pages, p.pgdir, p.sh - k - 1, p.sh);
    FrameChain(m, m1, m2, p.pgdir, 0, 0, 0, 0, 0, 0);
    BelowMore(m.pages, m1.pages, m2.pages, m.dirs, p.pgdir, p.sh, k, ps);
    TabledMore(m.pages, m1.pages, m2.pages, p.pgdir, p.sh - k - 1, p.sh);
  }

  /** No page is left for the next table. */
  lemma PartwayStuck(m: Mem, m': Mem, p: Proc, k: nat, ps: seq<nat>, n: nat)
    requires Partway(m, m', p, k, ps) && PageUp(p.sz) + k < p.sh <= UPAGES && k < n
    requires m'.free == [] && !HasEntry(m'.pages, p.pgdir, Pdx(p.sh - k - 1))
    ensures |m.free| < TablesLacking(m.pages, p, n) && (k == 0 <==> NoFirstTable(m, p))
  {
    hide Below, Frame, Tabled, Untabled, HasEntry;
    UntabledMore(m.pages, m'.pages, p.pgdir, p.sh - k - 1, p.sh);
    UntabledWithin(m.pages, p.pgdir, Lowest(p, n), p.sh - k - 1, p.sh);
  }

  lemma PartwayEnough(m: Mem, m': Mem, p: Proc, k: nat, ps: seq<nat>, n: nat)
    requires Partway(m, m', p, k, ps) && Lowest(p, n) == p.sh - k
    ensures |m.free| >= TablesLacking(m.pages, p, n)
  {
    hide Below, Frame, Tabled, Untabled, HasEntry;
  }

  lemma PartwayAt(m: Mem, m': Mem, p: Proc, k: nat, ps: seq<nat>, w: nat)
    requires Partway(m, m', p, k, ps) && p.pgdir in m.dirs && w < p.sh - k <= UPAGES
    ensures Entry(m'.pages, p.pgdir, w) == Entry(m.pages, p.pgdir, w) && Frame(m, m', p.pgdir, 0, 0, {})
    ensures Below(m.pages, m'.pages, m.dirs, p.pgdir, p.sh, k, ps) && PageUp(p.sz) + k <= p.sh
  {
    hide Frame, Tabled, Untabled, HasEntry;
  }

  /** Mapping ps below sh came to an end after k pages. */
  ghost predicate Stuck(m: Mem, m': Mem, p: Proc, k: nat, ps: seq<nat>) {
    Partway(m, m', p, k, ps) && k < |ps| && PageUp(p.sz) + k < p.sh
  }

  /** What allocSharedVM turns down. */
  predicate Refused(regions: seq<Region>, key: int, count: int) {
    || key < 0 || key >= KEYS || count <= 0 || count > MAX_SH_PAGES
    || (key < |regions| && regions[key].valid && count > regions[key].pageCount)
  }

  /** The size of the region that a request for count pages comes to. */
  function Extent(r: Region, count: int): nat { if r.valid || count < 0 then r.pageCount else count }

  /** The pages that a request takes: those of a new region, and page tables. */
  function PagesNeeded(pages: seq<Page>, p: Proc, r: Region, count: int): int {
    (if r.valid then 0 else count) + TablesLacking(pages, p, Extent(r, count))
  }

  /** Below sh a page is mapped exactly if it is the process's own. */
  lemma GapOrOwn(m: Mem, regions: seq<Region>, p: Proc, w: nat)
    requires ProcOk(m, regions, p) && Active(p) && w < p.sh
    ensures Present(Entry(m.pages, p.pgdir, w)) <==> w < PageUp(p.sz)
  {
  }

  lemma GapBelow(m: Mem, regions: seq<Region>, p: Proc, n: nat)
    requires ProcOk(m, regions, p) && Active(p) && Fits(p, n)
    ensures forall w: nat :: p.sh - n <= w < p.sh ==> !Present(Entry(m.pages, p.pgdir, w))
  {
  }

  /** The region made so far: the pages ps are new, zero and the region's. */
  ghost predicate Making(m: Mem, m': Mem, key: nat, ps: seq<nat>, x: set<nat>) {
    && (forall b :: b in x <==> b in ps)
    && (forall k: nat {:trigger ps[k]} :: k < |ps| ==>
          ps[k] !in m.owner && ps[k] in m'.owner && m'.owner[ps[k]] == Shared(key, k)
          && ps[k] < |m'.pages| && m'.pages[ps[k]] == ZeroPage())
  }

  lemma MakingMore(m: Mem, m1: Mem, m2: Mem, key: nat, ps: seq<nat>, x: set<nat>, b: nat)
    requires Making(m, m1, key, ps, x) && Own(m1) && b !in m1.owner && b !in m.owner
    requires b in m2.owner && m2.owner[b] == Shared(key, |ps|) && b < |m2.pages| && m2.pages[b] == ZeroPage()
    requires Frame(m1, m2, 0, 0, 0, {b})
    ensures Making(m, m2, key, ps + [b], x + {b})
  {
  }

  lemma MakingNew(m: Mem, m': Mem, key: nat, r: Region, x: set<nat>)
    requires |r.pages| == MAX_SH_PAGES && 0 < r.pageCount <= MAX_SH_PAGES
    requires Making(m, m', key, r.pages[..r.pageCount], x)
    ensures Made(m', r, key) && NewPages(m, m', key, r, x)
  {
    forall k: nat | k < r.pageCount ensures r.pages[k] in m'.owner && m'.owner[r.pages[k]] == Shared(key, k) {
      assert r.pages[..r.pageCount][k] == r.pages[k];
    }
    forall b | b in x ensures exists k: nat :: k < r.pageCount && r.pages[k] == b {
      var k :| 0 <= k < r.pageCount && r.pages[..r.pageCount][k] == b;
    }
  }

  lemma MakingNone(m: Mem, key: nat)
    ensures Making(m, m, key, [], {})
  {
  }

  /** The pages of an unfinished region are in no address space. */
  lemma MakingUnmapped(m: Mem, m': Mem, key: nat, ps: seq<nat>, x: set<nat>)
    requires Own(m) && Frame(m, m', 0, 0, 0, x) && Making(m, m', key, ps, x) && m'.dirs == m.dirs
    requires forall b :: b in m.owner ==> !OfRegion(m, b, key)
    ensures Unmapped(m', key)
  {
    forall d: nat, v: nat | d in m'.dirs && v < UPAGES && Present(Entry(m'.pages, d, v))
      ensures !OfRegion(m', Ppn(Entry(m'.pages, d, v)), key)
    {
      DirThere(m, d);
      SpaceFrame(m, m', 0, 0, 0, x, d, v);
    }
  }

  /** Without enough pages the ones taken are lost, and all else is as it was. */
  lemma MakeFailed(m: Mem, m': Mem, regions: seq<Region>, procs: seq<Proc>, i: nat, key: nat, r: Region, ps: seq<nat>,
                   x: set<nat>)
    requires Own(m) && Good(m, regions, procs) && i < NPROC && Active(procs[i]) && key < KEYS && !regions[key].valid
    requires Own(m') && Making(m, m', key, ps, x) && m'.dirs == m.dirs
    requires Frame(m, m', 0, 0, 0, x) && Frame(m, m', procs[i].pgdir, 0, 0, x)
    requires r == regions[key].(pages := r.pages) && |r.pages| == MAX_SH_PAGES
    ensures Own(Retired(m', key)) && Good(Retired(m', key), regions[key := r], procs)
  {
    hide Own, Entry, ProcOk, Retired;
    var m2, d := Retired(m', key), procs[i].pgdir;
    NoneMade(m, m', regions, procs, key, ps, x);
    MakingUnmapped(m, m', key, ps, x);
    RetireOwns(m', key, 0);
    RetireOwns(m', key, d);
    RetireIs(m', key);
    LostFrame(m, m', m2, key, 0, x);
    LostFrame(m, m', m2, key, d, x);
    MadeProc(m, m2, regions, procs, i, key, r, x);
    LostGood(m, m2, regions, procs, i, key, r, x);
  }

  lemma NoneMade(m: Mem, m': Mem, regions: seq<Region>, procs: seq<Proc>, key: nat, ps: seq<nat>, x: set<nat>)
    requires Good(m, regions, procs) && key < KEYS && !regions[key].valid
    requires Making(m, m', key, ps, x) && Frame(m, m', 0, 0, 0, x)
    ensures forall b :: b in m.owner ==> !OfRegion(m, b, key)
    ensures RegionPages(m', key) <= x && forall b :: b in x ==> b !in m.owner
  {
    hide ProcOk, KernelDirs, Apart;
    GoodParts(m, regions, procs, 0, key);
  }

  lemma LostFrame(m: Mem, m': Mem, m2: Mem, key: nat, d: nat, x: set<nat>)
    requires Frame(m, m', d, 0, 0, x) && Frame(m', m2, d, 0, 0, RegionPages(m', key)) && RegionPages(m', key) <= x
    ensures Frame(m, m2, d, 0, 0, x)
  {
    hide Frame, RegionPages;
    FrameTrans(m, m', m2, d, 0, 0, x, 0, 0, RegionPages(m', key), 0, 0);
    assert x + RegionPages(m', key) == x;
  }

  lemma LostGood(m: Mem, m': Mem, regions: seq<Region>, procs: seq<Proc>, i: nat, key: nat, r: Region, x: set<nat>)
    requires Own(m) && Good(m, regions, procs) && i < NPROC && Active(procs[i]) && key < KEYS && !regions[key].valid
    requires Frame(m, m', procs[i].pgdir, 0, 0, x) && m'.dirs == m.dirs && ProcOk(m', regions[key := r], procs[i])
    requires r == regions[key].(pages := r.pages) && |r.pages| == MAX_SH_PAGES
    requires forall b :: b in x ==> b !in m.owner && (b in m'.owner ==> m'.owner[b] == Held)
    ensures Good(m', regions[key := r], procs)
  {
    hide Own, ProcOk, KernelDirs;
    GoodParts(m, regions, procs, i, key);
    forall j | 0 <= j < NPROC && Active(procs[j])
      ensures procs[j].kstack !in x && !Holds(procs[j], key)
      ensures j != i ==> procs[j].pgdir != procs[i].pgdir && procs[j].kstack != procs[i].kstack
    {
      GoodParts(m, regions, procs, j, key);
      ProcParts(m, regions, procs[j]);
      HoldsValid(m, regions, procs, j, key);
    }
    assert SharedPlaced(m', regions[key := r]);
    assert procs[i := procs[i]] == procs;
    hide Frame, SharedPlaced;
    GoodUpdate(m, m', regions, procs, i, procs[i], procs[i].pgdir, 0, 0, x, key, r);
  }

  /** Making a region does not change what tables a process has. */
  lemma MadeTables(m: Mem, m': Mem, p: Proc, x: set<nat>, n: nat)
    requires Own(m) && Frame(m, m', 0, 0, 0, x) && p.pgdir in m.dirs && forall b :: b in x ==> b !in m.owner
    ensures TablesLacking(m'.pages, p, n) == TablesLacking(m.pages, p, n)
  {
    DirThere(m, p.pgdir);
    forall y: nat ensures HasEntry(m'.pages, p.pgdir, y) == HasEntry(m.pages, p.pgdir, y) { }
    hide Own, Frame, HasEntry;
    assert Untabled(m'.pages, p.pgdir, Lowest(p, n), p.sh) == Untabled(m.pages, p.pgdir, Lowest(p, n), p.sh);
  }

  /** Mapping that got stuck leaves the state in order exactly if nothing was mapped. */
  lemma StuckGood(m: Mem, m': Mem, regions: seq<Region>, procs: seq<Proc>, i: nat, key: nat, k: nat)
    requires Own(m) && Good(m, regions, procs) && i < NPROC && Active(procs[i]) && key < KEYS && regions[key].valid
    requires Stuck(m, m', procs[i], k, regions[key].pages)
    ensures Good(m', regions, procs[i := procs[i].(sh := procs[i].sh - k - 1)]) <==> k == 0
  {
    hide Own, Frame, Entry, Good, ProcOk, Below, Tabled, Untabled;
    GoodParts(m, regions, procs, i, key);
    ProcParts(m, regions, procs[i]);
    if k == 0 { LoweredGood(m, regions, procs, i); } else { StrayIsBad(m, m', regions, procs, i, key, k); }
  }

  lemma LoweredGood(m: Mem, regions: seq<Region>, procs: seq<Proc>, i: nat)
    requires Good(m, regions, procs) && i < NPROC && Active(procs[i]) && PageUp(procs[i].sz) < procs[i].sh
    ensures Good(m, regions, procs[i := procs[i].(sh := procs[i].sh - 1)])
  {
    var p := procs[i].(sh := procs[i].sh - 1);
    var procs' := procs[i := p];
    hide RegionOk, ProcOk, Entry;
    forall key: nat ensures Count(procs', key) == Count(procs, key) { CountUpdate(procs, i, p, key); }
    LoweredOk(m, regions, procs[i]);
    forall d: nat | IsPgdir(procs, d) ensures IsPgdir(procs', d) {
      var j :| 0 <= j < |procs| && Active(procs[j]) && procs[j].pgdir == d;
      assert Active(procs'[j]) && procs'[j].pgdir == d;
    }
  }

  lemma LoweredOk(m: Mem, regions: seq<Region>, p: Proc)
    requires ProcOk(m, regions, p) && Active(p) && PageUp(p.sz) < p.sh
    ensures ProcOk(m, regions, p.(sh := p.sh - 1))
  {
    hide Entry;
    var q := p.(sh := p.sh - 1);
    assert forall key: nat, w: nat :: Covers(regions, q, key, w) <==> Covers(regions, p, key, w);
    assert !Present(Entry(m.pages, p.pgdir, p.sh - 1));
  }

  /** A mapped page above sh that is in no region of the process. */
  lemma StrayIsBad(m: Mem, m': Mem, regions: seq<Region>, procs: seq<Proc>, i: nat, key: nat, k: nat)
    requires Own(m) && Good(m, regions, procs) && i < NPROC && Active(procs[i]) && key < KEYS && regions[key].valid
    requires Stuck(m, m', procs[i], k, regions[key].pages) && k > 0
    ensures !Good(m', regions, procs[i := procs[i].(sh := procs[i].sh - k - 1)])
  {
    var p, w := procs[i], procs[i].sh - 1;
    var q := p.(sh := p.sh - k - 1);
    assert ProcOk(m, regions, p);
    assert RegionOk(m, regions[key], key, Count(procs, key));
    FirstOfRegion(m, regions[key], key);
    assert Entry(m'.pages, p.pgdir, w) == SharedEntry(regions[key].pages[0]);
    forall key': nat ensures !Covers(regions, q, key', w) { assert Covers(regions, q, key', w) ==> Holds(p, key'); }
    assert !ProcOk(m', regions, q);
    assert procs[i := q][i] == q;
  }

  lemma FirstOfRegion(m: Mem, r: Region, key: nat)
    requires Own(m) && Made(m, r, key)
    ensures Present(SharedEntry(r.pages[0]))
  {
    OwnedInRange(m, r.pages[0]);
    EntryParts(r.pages[0], 6);
  }

  /** A valid region that nobody holds. */
  lemma UnheldIsBad(m: Mem, regions: seq<Region>, procs: seq<Proc>, i: nat, p: Proc, key: nat)
    requires i < |procs| == NPROC && key < |regions| == KEYS && regions[key].valid && Count(procs, key) == 0
    requires !Holds(p, key)
    ensures !Good(m, regions, procs[i := p])
  {
    CountUpdate(procs, i, p, key);
    assert !RegionOk(m, regions[key], key, Count(procs[i := p], key));
  }

  /** kalloc, memset and the new owner, for any address space. */
  lemma MakeFrame(m: Mem, m2: Mem, key: nat, k: nat, d: nat)
    requires Own(m) && m.free != [] && m.free[0] < |m.pages|
    requires m2 == Taken(m).(pages := m.pages[m.free[0] := ZeroPage()], owner := m.owner[m.free[0] := Shared(key, k)])
    ensures Frame(m, m2, d, 0, 0, {m.free[0]})
  {
    var b := m.free[0];
    var m1 := Taken(m).(pages := m.pages[b := ZeroPage()]);
    hide Own, Frame;
    TakeThenFill(m, m1, d, ZeroPage());
    ShareFrame(m1, b, key, k, d);
    FrameTrans(m, m1, m2, d, 0, 0, {b}, 0, 0, {b}, 0, 0);
    assert {b} + {b} == {b};
  }

  lemma HoldsValid(m: Mem, regions: seq<Region>, procs: seq<Proc>, i: nat, key: nat)
    requires Good(m, regions, procs) && i < NPROC && key < KEYS
    ensures |regions| == KEYS && |procs| == NPROC
    ensures Holds(procs[i], key) ==> regions[key].valid
    ensures regions[key].refCount == Count(procs, key) && (!regions[key].valid ==> Count(procs, key) == 0)
    ensures regions[key].valid ==> Made(m, regions[key], key)
  {
    hide ProcOk, KernelDirs, Made;
    if Holds(procs[i], key) { CountHolder(procs, i, key); }
  }

  /** A new region has count pages, all zero. */
  ghost predicate Fresh(m: Mem, r: Region, count: nat) {
    && r.pageCount == count <= |r.pages|
    && forall k: nat :: k < count ==> r.pages[k] < |m.pages| && m.pages[r.pages[k]] == ZeroPage()
  }

  /** Making a region does not touch the process that asked for it. */
  lemma MadeProc(m: Mem, m': Mem, regions: seq<Region>, procs: seq<Proc>, i: nat, key: nat, r: Region, x: set<nat>)
    requires Own(m) && Good(m, regions, procs) && i < NPROC && key < KEYS && Active(procs[i]) && !regions[key].valid
    requires Frame(m, m', 0, 0, 0, x) && forall b :: b in x ==> b !in m.owner
    ensures ProcOk(m', regions[key := r], procs[i])
  {
    hide Own, Frame, ProcOk, Good;
    GoodParts(m, regions, procs, i, key);
    HoldsValid(m, regions, procs, i, key);
    ProcParts(m, regions, procs[i]);
    DirThere(m, procs[i].pgdir);
    ProcFrame(m, m', regions, procs[i], 0, 0, 0, x);
    RegionsFrame(m', regions, key, r, procs[i]);
  }

  /** The region's pages survive the mapping, still zero if they are new. */
  lemma AfterMapping(m: Mem, m1: Mem, m2: Mem, key: nat, r: Region, r': Region, x: set<nat>, d: nat)
    requires Own(m1) && Made(m1, r, key) && Frame(m1, m2, d, 0, 0, {})
    requires r'.pages == r.pages && r'.pageCount == r.pageCount
    requires |r.pages| == MAX_SH_PAGES && r.pageCount <= MAX_SH_PAGES
    requires x == {} || Making(m, m1, key, r.pages[..r.pageCount], x)
    ensures Made(m2, r', key) && NewPages(m, m2, key, r', x)
    ensures Making(m, m1, key, r.pages[..r.pageCount], x) ==> Fresh(m2, r', r.pageCount)
  {
    MadeFrame(m1, m2, r, key, d, 0, 0, {});
    if Making(m, m1, key, r.pages[..r.pageCount], x) {
      MakingNew(m, m1, key, r, x);
      forall k: nat | k < r.pageCount
        ensures r.pages[k] < |m2.pages| && m2.pages[r.pages[k]] == ZeroPage()
        ensures r.pages[k] in m2.owner && m2.owner[r.pages[k]] == m1.owner[r.pages[k]]
      {
        assert r.pages[..r.pageCount][k] == r.pages[k];
        OwnedInRange(m1, r.pages[k]);
        FrameKeeps(m1, m2, d, 0, 0, {}, r.pages[k]);
      }
    }
  }

  // ---- detaching ----

  /** What becomes of a region when one of its holders leaves: x are the pages it gives up. */
  ghost predicate Leaves(m: Mem, m': Mem, r: Region, key: nat, n: nat, r': Region, x: set<nat>) {
    if n > 1 then x == {} && r' == r.(refCount := n - 1)
    else
      && x == RegionPages(m, key) && !r'.valid && r'.refCount == 0 == r'.pageCount && |r'.pages| == MAX_SH_PAGES
      && forall b :: b in x ==> b !in m'.owner
  }

  lemma DetachRegion(m: Mem, m': Mem, regions: seq<Region>, procs: seq<Proc>, i: nat, key: nat, r: Region, x: set<nat>)
    requires Own(m) && Good(m, regions, procs) && i < NPROC && key < KEYS && Holds(procs[i], key)
    requires Frame(m, m', procs[i].pgdir, 0, 0, x) && Leaves(m, m', regions[key], key, Count(procs, key), r, x)
    ensures |procs[i].shared| == KEYS && RegionOk(m', r, key, Count(procs[i := Detached(procs[i], key)], key))
  {
    hide Own, Frame, ProcOk, Made, Good, RegionPages;
    GoodParts(m, regions, procs, i, key);
    HoldsValid(m, regions, procs, i, key);
    CountUpdate(procs, i, Detached(procs[i], key), key);
    CountHolder(procs, i, key);
    if Count(procs, key) > 1 {
      MadeFrame(m, m', regions[key], key, procs[i].pgdir, 0, 0, {});
      MadeSame(m', regions[key], r, key);
    }
  }

  lemma MadeSame(m: Mem, r: Region, r': Region, key: nat)
    requires Made(m, r, key) && r'.pages == r.pages && r'.pageCount == r.pageCount
    ensures Made(m, r', key)
  {
  }

  lemma DetachPlaced(m: Mem, m': Mem, regions: seq<Region>, procs: seq<Proc>, i: nat, key: nat, r: Region, x: set<nat>)
    requires Good(m, regions, procs) && i < NPROC && key < KEYS
    requires Frame(m, m', procs[i].pgdir, 0, 0, x) && Leaves(m, m', regions[key], key, Count(procs, key), r, x)
    ensures SharedPlaced(m', regions[key := r])
  {
    hide ProcOk, RegionOk, KernelDirs, Apart;
    PlacedAfter(m, m', regions, procs[i].pgdir, 0, 0, x, key, r);
  }

  /** A process detaches region key. */
  lemma DetachGood(m: Mem, m': Mem, regions: seq<Region>, procs: seq<Proc>, i: nat, key: nat, r: Region, x: set<nat>)
    requires Own(m) && Good(m, regions, procs) && i < NPROC && key < KEYS && Holds(procs[i], key)
    requires Frame(m, m', procs[i].pgdir, 0, 0, x) && Leaves(m, m', regions[key], key, Count(procs, key), r, x)
    requires procs[i].pgdir in m'.dirs
    requires Cleared(m.pages, m'.pages, m.dirs, procs[i].pgdir, procs[i].shared[key].va,
                     procs[i].shared[key].va + regions[key].pageCount)
    ensures |procs[i].shared| == KEYS && Good(m', regions[key := r], procs[i := Detached(procs[i], key)])
  {
    var p := Detached(procs[i], key);
    DetachRegion(m, m', regions, procs, i, key, r, x);
    DetachPlaced(m, m', regions, procs, i, key, r, x);
    DetachApart(m, regions, procs, i, key, x);
    OnlyHolder(procs, i, key);
    hide Own, Frame, ProcOk, RegionOk, Made, SharedPlaced, KernelDirs, Cleared;
    GoodParts(m, regions, procs, i, key);
    ProcUnmapped(m, m', regions, procs[i], key, r, x);
    GoodUpdate(m, m', regions, procs, i, p, procs[i].pgdir, 0, 0, x, key, r);
  }

  lemma OnlyHolder(procs: seq<Proc>, i: nat, key: nat)
    requires i < |procs| && Holds(procs[i], key)
    ensures Count(procs, key) <= 1 ==> forall j :: 0 <= j < |procs| && j != i ==> !Holds(procs[j], key)
  {
    var p := procs[i].(state := Unused);
    CountUpdate(procs, i, p, key);
    forall j | 0 <= j < |procs| && j != i && Holds(procs[j], key) ensures Count(procs, key) > 1 {
      CountHolder(procs[i := p], j, key);
    }
  }

  /** The pages of a region are nobody's stack. */
  lemma DetachApart(m: Mem, regions: seq<Region>, procs: seq<Proc>, i: nat, key: nat, x: set<nat>)
    requires Good(m, regions, procs) && i < NPROC && Active(procs[i]) && (x == {} || x == RegionPages(m, key))
    ensures forall j :: 0 <= j < NPROC && Active(procs[j]) ==>
      procs[j].kstack !in x && Spares(m, procs[j], x)
      && (j != i ==> procs[j].pgdir != procs[i].pgdir && procs[j].kstack != procs[i].kstack)
  {
    forall j | 0 <= j < NPROC && Active(procs[j])
      ensures procs[j].kstack !in x && Spares(m, procs[j], x)
      ensures j != i ==> procs[j].pgdir != procs[i].pgdir && procs[j].kstack != procs[i].kstack
    {
      hide LowOk, HighOk, RefsOk, RegionOk, KernelDirs;
      assert ProcOk(m, regions, procs[j]);
    }
  }

  /** The region's mapping, as process i has it. */
  lemma HeldPage(m: Mem, regions: seq<Region>, procs: seq<Proc>, i: nat, key: nat, x: nat)
    requires Own(m) && Good(m, regions, procs) && i < NPROC && key < KEYS
    requires Holds(procs[i], key) && x < regions[key].pageCount
    ensures var e := Entry(m.pages, procs[i].pgdir, procs[i].shared[key].va + x);
      && Present(e) && Ppn(e) in m.owner && m.owner[Ppn(e)].Shared? && procs[i].shared[key].va + x < UPAGES
  {
    hide Own, Entry, Good, RegionEntry, ProcOk;
    GoodParts(m, regions, procs, i, key);
    HeldRange(m, regions, procs[i], key);
    HolderEntry(m, regions, procs[i], key, x);
    RegionPage(m, regions, procs, key, x);
  }

  lemma HeldRange(m: Mem, regions: seq<Region>, p: Proc, key: nat)
    requires ProcOk(m, regions, p) && Holds(p, key) && key < KEYS
    ensures |p.shared| == KEYS == |regions|
    ensures 0 < p.sh <= p.shared[key].va && p.shared[key].va + regions[key].pageCount <= UPAGES
  {
  }

  /** freeing: the first k pages of the region are free, the rest held. */
  ghost predicate Returning(m: Mem, m': Mem, ps: seq<nat>, n: nat, k: nat, d: nat, x: set<nat>) {
    && k <= n <= |ps| && m'.dirs == m.dirs && Frame(m, m', d, 0, 0, x) && SameSpaces(m.pages, m'.pages, m.dirs)
    && (forall j: nat {:trigger ps[j]} :: j < n ==>
          ps[j] in x && if j < k then ps[j] !in m'.owner else ps[j] in m'.owner && m'.owner[ps[j]] == Held)
  }

  lemma ReturnBegins(m: Mem, r: Region, key: nat, d: nat)
    requires Own(m) && Made(m, r, key) && Unmapped(m, key)
    ensures Own(Retired(m, key)) && Returning(m, Retired(m, key), r.pages, r.pageCount, 0, d, RegionPages(m, key))
  {
    RetireOwns(m, key, d);
    RetireIs(m, key);
    hide Own, Frame, Unmapped, Retired;
  }

  lemma ReturnMore(m: Mem, m': Mem, r: Region, key: nat, k: nat, d: nat, junk: Page)
    requires Made(m, r, key) && Own(m') && k < r.pageCount
    requires Returning(m, m', r.pages, r.pageCount, k, d, RegionPages(m, key))
    ensures r.pages[k] in m'.owner && m'.owner[r.pages[k]] == Held && r.pages[k] < |m'.pages|
    ensures Returning(m, Given(m', r.pages[k], junk), r.pages, r.pageCount, k + 1, d, RegionPages(m, key))
  {
    var b, x := r.pages[k], RegionPages(m, key);
    OwnedInRange(m', b);
    GiveOwns(m', b, junk);
    GiveFrame(m', d, b, junk);
    hide Own, Entry;
    FrameTrans(m, m', Given(m', b, junk), d, 0, 0, x, 0, 0, {b}, 0, 0);
    assert x + {b} == x;
    forall j: nat | j < r.pageCount && j != k ensures r.pages[j] != b {
      assert m.owner[r.pages[j]] == Shared(key, j);
    }
    hide Frame;
  }

  lemma ReturnEnds(m: Mem, m': Mem, regions: seq<Region>, key: nat, d: nat)
    requires SharedPlaced(m, regions) && key < |regions|
    requires Returning(m, m', regions[key].pages, regions[key].pageCount, regions[key].pageCount, d,
                       RegionPages(m, key))
    ensures forall b :: b in RegionPages(m, key) ==> b !in m'.owner
  {
  }

  lemma ClearedThen(a: seq<Page>, b: seq<Page>, c: seq<Page>, dirs: set<nat>, d: nat, lo: nat, hi: nat)
    requires Cleared(a, b, dirs, d, lo, hi) && SameSpaces(b, c, dirs)
    ensures Cleared(a, c, dirs, d, lo, hi)
  {
  }

  lemma InactiveHoldsNone(m: Mem, regions: seq<Region>, p: Proc, key: nat)
    requires ProcOk(m, regions, p) && key < KEYS
    ensures |p.shared| == KEYS && (p.shared[key].held ==> Active(p))
  {
  }

  lemma HeldIsUp(m: Mem, regions: seq<Region>, p: Proc, key: nat)
    requires ProcOk(m, regions, p) && key < KEYS && |p.shared| == KEYS
    ensures Holds(p, key) ==> p.shared[key].va > 0
  {
  }

  lemma ClearedAt(a: seq<Page>, b: seq<Page>, dirs: set<nat>, d: nat, lo: nat, hi: nat, v: nat)
    requires Cleared(a, b, dirs, d, lo, hi) && d in dirs && !(lo <= v < hi) && v < VPAGES
    ensures Entry(b, d, v) == Entry(a, d, v)
  {
  }

  /** Unmapping changed no owner, so the pages returned are the region's. */
  lemma ReturnedAll(m0: Mem, m1: Mem, m2: Mem, regions: seq<Region>, procs: seq<Proc>, key: nat, d: nat)
    requires Good(m0, regions, procs) && key < KEYS && m1.owner == m0.owner && m1.dirs == m0.dirs
    requires Frame(m0, m1, d, 0, 0, {})
    requires Returning(m1, m2, regions[key].pages, regions[key].pageCount, regions[key].pageCount, d,
                       RegionPages(m1, key))
    ensures RegionPages(m1, key) == RegionPages(m0, key) && Frame(m0, m2, d, 0, 0, RegionPages(m0, key))
    ensures forall b :: b in RegionPages(m0, key) ==> b !in m2.owner
    ensures SameSpaces(m1.pages, m2.pages, m0.dirs) && m2.dirs == m0.dirs
  {
    hide ProcOk, RegionOk, KernelDirs, Apart;
    ReturnEnds(m1, m2, regions, key, d);
    assert RegionPages(m1, key) == RegionPages(m0, key);
    FrameTrans(m0, m1, m2, d, 0, 0, {}, 0, 0, RegionPages(m0, key), 0, 0);
    assert {} + RegionPages(m0, key) == RegionPages(m0, key);
  }

  // ---- the end of a process ----

  lemma ZombieGood(m: Mem, regions: seq<Region>, procs: seq<Proc>, i: nat)
    requires Good(m, regions, procs) && i < NPROC && procs[i].state == Live
    ensures Good(m, regions, procs[i := procs[i].(state := Zombie)])
  {
    var p, procs' := procs[i].(state := Zombie), procs[i := procs[i].(state := Zombie)];
    hide RegionOk;
    forall key: nat ensures Count(procs', key) == Count(procs, key) { CountUpdate(procs, i, p, key); }
    forall key: nat, w: nat ensures Covers(regions, p, key, w) <==> Covers(regions, procs[i], key, w) { }
    assert ProcOk(m, regions, procs[i]);
    ZombieOk(m, regions, procs[i]);
    forall d: nat | IsPgdir(procs, d) ensures IsPgdir(procs', d) {
      var j :| 0 <= j < |procs| && Active(procs[j]) && procs[j].pgdir == d;
      assert Active(procs'[j]) && procs'[j].pgdir == d;
    }
    hide ProcOk;
  }

  lemma ZombieOk(m: Mem, regions: seq<Region>, p: Proc)
    requires ProcOk(m, regions, p) && Active(p)
    ensures ProcOk(m, regions, p.(state := Zombie))
  {
    var p' := p.(state := Zombie);
    hide Entry;
    assert forall key: nat, w: nat :: Covers(regions, p', key, w) <==> Covers(regions, p, key, w);
  }

  /** Without regions, all that a process maps is its own; so freevm frees nobody else's page. */
  lemma ReapPrivate(m: Mem, regions: seq<Region>, p: Proc, junk: Page)
    requires Own(m) && ProcOk(m, regions, p) && Active(p) && forall key: nat :: key < KEYS ==> !p.shared[key].held
    ensures p.kstack < |m.pages| && Private(Given(m, p.kstack, junk), p.pgdir, 0, UPAGES)
  {
    OwnedInRange(m, p.kstack);
    forall w: nat | w < UPAGES && Present(Entry(m.pages, p.pgdir, w)) ensures w < PageUp(p.sz) {
      assert forall key: nat :: !Covers(regions, p, key, w);
    }
    PrivateGiven(m, p.pgdir, p.kstack, junk);
  }

  lemma ReapGood(m0: Mem, m1: Mem, m2: Mem, regions: seq<Region>, procs: seq<Proc>, i: nat)
    requires Own(m0) && Own(m2) && Good(m0, regions, procs) && i < NPROC && Active(procs[i])
    requires forall key: nat :: key < KEYS ==> !procs[i].shared[key].held
    requires Frame(m0, m1, procs[i].pgdir, 0, 0, {procs[i].kstack}) && Frame(m1, m2, procs[i].pgdir, 0, UPAGES, {})
    requires procs[i].kstack !in m1.owner && m2.dirs == m0.dirs - {procs[i].pgdir}
    ensures Good(m2, regions, procs[i := procs[i].(state := Unused)])
    ensures forall b :: b in m2.owner ==> Outside(b, m2.owner[b], procs[i].pgdir, 0, UPAGES)
  {
    hide Own, Frame, ProcOk, RegionOk, SharedPlaced, KernelDirs, Good;
    GoodParts(m0, regions, procs, i, 0);
    ProcParts(m0, regions, procs[i]);
    var p, d, x := procs[i].(state := Unused), procs[i].pgdir, {procs[i].kstack};
    NoneInside(m1, m2, d, procs[i].kstack);
    FrameTrans(m0, m1, m2, d, 0, 0, x, 0, UPAGES, {}, 0, UPAGES);
    assert x + {} == x;
    ReapPlaced(m0, m2, regions, procs, i, x);
    ReapRegion(m0, m2, regions, procs, i, x);
    DetachApart(m0, regions, procs, i, 0, {});
    InactiveOk(m2, regions, p);
    assert regions[0 := regions[0]] == regions;
    GoodUpdate(m0, m2, regions, procs, i, p, d, 0, UPAGES, x, 0, regions[0]);
  }

  /** Nothing belongs to an address space that is gone, and no page came into use as it went. */
  lemma NoneInside(m: Mem, m': Mem, d: nat, p: nat)
    requires Own(m') && d !in m'.dirs && Frame(m, m', d, 0, UPAGES, {}) && p !in m.owner
    ensures p !in m'.owner && forall b :: b in m'.owner ==> Outside(b, m'.owner[b], d, 0, UPAGES)
  {
    forall b | b in m'.owner ensures Outside(b, m'.owner[b], d, 0, UPAGES) { assert Placed(m', b, m'.owner[b]); }
  }

  lemma InactiveOk(m: Mem, regions: seq<Region>, p: Proc)
    requires !Active(p) && |p.shared| == KEYS && forall key: nat :: key < KEYS ==> !p.shared[key].held
    ensures ProcOk(m, regions, p)
  {
  }

  lemma ReapPlaced(m: Mem, m': Mem, regions: seq<Region>, procs: seq<Proc>, i: nat, x: set<nat>)
    requires Good(m, regions, procs) && i < NPROC && Active(procs[i]) && x == {procs[i].kstack}
    requires Frame(m, m', procs[i].pgdir, 0, UPAGES, x) && procs[i].kstack !in m'.owner
    ensures SharedPlaced(m', regions)
  {
    hide ProcOk, RegionOk, KernelDirs, Apart;
    assert regions[0 := regions[0]] == regions;
    PlacedAfter(m, m', regions, procs[i].pgdir, 0, UPAGES, x, 0, regions[0]);
  }

  lemma ReapRegion(m: Mem, m': Mem, regions: seq<Region>, procs: seq<Proc>, i: nat, x: set<nat>)
    requires Own(m) && Good(m, regions, procs) && i < NPROC && Active(procs[i]) && x == {procs[i].kstack}
    requires Frame(m, m', procs[i].pgdir, 0, UPAGES, x) && forall key: nat :: key < KEYS ==> !procs[i].shared[key].held
    ensures RegionOk(m', regions[0], 0, Count(procs[i := procs[i].(state := Unused)], 0))
  {
    hide Own, Frame, ProcOk, Good, Made;
    GoodParts(m, regions, procs, i, 0);
    ProcParts(m, regions, procs[i]);
    CountUpdate(procs, i, procs[i].(state := Unused), 0);
    if regions[0].valid { MadeFrame(m, m', regions[0], 0, procs[i].pgdir, 0, UPAGES, x); }
  }

  // ---- fork and growproc ----

  /** A new process in slot p: an address space of size sz and no regions. */
  function Started(p: Proc, c: nat, kstack: nat, sz: nat): Proc {
    p.(state := Live, pgdir := c, kstack := kstack, sz := sz, sh := UPAGES)
  }

  lemma StartedOk(m: Mem, regions: seq<Region>, p: Proc, c: nat, kstack: nat, sz: nat)
    requires !Active(p) && ProcOk(m, regions, p) && |regions| == KEYS && c in m.dirs
    requires kstack in m.owner && m.owner[kstack] == Held && LowOk(m, Started(p, c, kstack, sz))
    ensures ProcOk(m, regions, Started(p, c, kstack, sz))
  {
    hide Entry, LowOk;
    assert forall key: nat :: !Holds(Started(p, c, kstack, sz), key);
  }

  /** The memory of a forked child. */
  lemma ChildLow(m: Mem, p: Proc, parent: Proc, c: nat, kstack: nat, data: nat)
    requires EXTPAGES < data < PHYSPAGES && 0 < PageUp(parent.sz) <= UPAGES
    requires CopyUpTo(m, parent.pgdir, c, PageUp(parent.sz), data)
    ensures LowOk(m, Started(p, c, kstack, parent.sz))
  {
    forall w: nat | w < PageUp(parent.sz)
      ensures Present(Entry(m.pages, c, w)) && Ppn(Entry(m.pages, c, w)) in m.owner
      ensures m.owner[Ppn(Entry(m.pages, c, w))] == User(c, w)
    {
      var e := Entry(m.pages, c, w);
      assert TwinAt(m, parent.pgdir, c, w);
    }
    forall w: nat | PageUp(parent.sz) <= w < UPAGES ensures !Present(Entry(m.pages, c, w)) {
      CopyGap(m, parent.pgdir, c, PageUp(parent.sz), data, w);
    }
    hide Entry, CopyUpTo;
  }

  /** A process is started in slot j with address space c, both new. */
  lemma StartGood(m: Mem, m': Mem, regions: seq<Region>, procs: seq<Proc>, j: nat, c: nat, kstack: nat, sz: nat)
    requires Own(m) && Good(m, regions, procs) && j < NPROC && !Active(procs[j])
    requires c !in m.dirs && c in m'.dirs && kstack !in m.owner && kstack in m'.owner && m'.owner[kstack] == Held
    requires Frame(m, m', c, 0, UPAGES, {kstack}) && LowOk(m', Started(procs[j], c, kstack, sz))
    ensures Good(m', regions, procs[j := Started(procs[j], c, kstack, sz)])
  {
    var p := Started(procs[j], c, kstack, sz);
    hide Own, Frame, LowOk, ProcOk, Good, Made, RegionOk;
    GoodParts(m, regions, procs, j, 0);
    InactiveFrame(m, m', regions, procs[j]);
    StartedOk(m', regions, procs[j], c, kstack, sz);
    forall l | 0 <= l < NPROC && l != j && Active(procs[l])
      ensures procs[l].pgdir != c && procs[l].kstack != kstack
    {
      GoodParts(m, regions, procs, l, 0);
      ProcParts(m, regions, procs[l]);
    }
    SlotHoldsNone(m, regions, procs[j], c, kstack, sz);
    ForkPlaced(m, m', regions, procs, c, kstack);
    OtherRegions(m, m', regions, procs, j, p, c, 0, UPAGES, {kstack}, 0);
    assert regions[0 := regions[0]] == regions;
    GoodUpdate(m, m', regions, procs, j, p, c, 0, UPAGES, {kstack}, 0, regions[0]);
  }

  lemma SlotHoldsNone(m: Mem, regions: seq<Region>, p: Proc, c: nat, kstack: nat, sz: nat)
    requires ProcOk(m, regions, p) && !Active(p)
    ensures forall key: nat :: !Holds(p, key) && !Holds(Started(p, c, kstack, sz), key)
  {
  }

  lemma ForkPlaced(m: Mem, m': Mem, regions: seq<Region>, procs: seq<Proc>, c: nat, kstack: nat)
    requires Good(m, regions, procs) && Frame(m, m', c, 0, UPAGES, {kstack})
    requires kstack in m'.owner && m'.owner[kstack] == Held
    ensures SharedPlaced(m', regions)
  {
    hide ProcOk, RegionOk, KernelDirs, Apart;
    assert regions[0 := regions[0]] == regions;
    PlacedAfter(m, m', regions, c, 0, UPAGES, {kstack}, 0, regions[0]);
  }

  /** A state with the same use of every page is as good. */
  lemma GoodSame(m: Mem, m': Mem, regions: seq<Region>, procs: seq<Proc>)
    requires Own(m) && Good(m, regions, procs) && SameUse(m, m')
    ensures Good(m', regions, procs)
  {
    SameFrame(m, m');
    hide Own, Frame, ProcOk, Made;
    forall i: nat | i < NPROC ensures ProcOk(m', regions, procs[i]) {
      GoodParts(m, regions, procs, i, 0);
      if Active(procs[i]) { ProcParts(m, regions, procs[i]); DirThere(m, procs[i].pgdir); }
      ProcFrame(m, m', regions, procs[i], 0, 0, 0, {});
    }
    forall key: nat | key < KEYS ensures RegionOk(m', regions[key], key, Count(procs, key)) {
      GoodParts(m, regions, procs, 0, key);
      if regions[key].valid { MadeFrame(m, m', regions[key], key, 0, 0, 0, {}); }
    }
    forall d: nat, w: nat | d in m'.dirs && !IsPgdir(procs, d) && w < UPAGES ensures !Present(Entry(m'.pages, d, w)) {
      DirThere(m, d);
      SpaceFrame(m, m', 0, 0, 0, {}, d, w);
    }
  }

  lemma SameFrame(m: Mem, m': Mem)
    requires SameUse(m, m')
    ensures Frame(m, m', 0, 0, 0, {})
  {
  }

  /** kalloc of a stack that is freed again. */
  lemma SameAfterStack(m: Mem, m2: Mem, junk: Page)
    requires Own(m) && m.free != [] && SameUse(Taken(m), m2) && m.free[0] < |m2.pages|
    ensures SameUse(m, Given(m2, m.free[0], junk))
  {
    NewIsUnowned(m);
    assert m.owner[m.free[0] := Held] - {m.free[0]} == m.owner;
  }

  lemma SameRefl(m: Mem)
    ensures SameUse(m, m)
  {
  }

  lemma SameSize(m: Mem, m': Mem)
    requires SameUse(m, m')
    ensures |m'.pages| == |m.pages| && m'.owner == m.owner && m'.dirs == m.dirs
  {
  }

  lemma MemorySize(m: Mem, regions: seq<Region>, p: Proc)
    requires ProcOk(m, regions, p) && Active(p)
    ensures p.sz <= UPAGES * 4096
  {
    assert p.sz <= PageUp(p.sz) * 4096;
  }

  /** All pages below a process's size are mapped, so copyuvm does not panic. */
  lemma OwnMapped(m: Mem, regions: seq<Region>, p: Proc)
    requires ProcOk(m, regions, p) && Active(p)
    ensures forall w: nat :: w < PageUp(p.sz) ==> Present(Entry(m.pages, p.pgdir, w))
  {
  }

  /** p once its size is n. */
  function Resized(p: Proc, n: nat): Proc { p.(sz := n) }

  /** Apart from lo..hi, the entries of p and their owners are as before. */
  lemma ResizedHigh(pages: seq<Page>, pages': seq<Page>, dirs: set<nat>, regions: seq<Region>, p: Proc, n: nat)
    requires HighOk(pages, regions, p) && RefsOk(regions, p) && p.pgdir in dirs
    requires forall w: nat {:trigger Entry(pages', p.pgdir, w)} :: p.sh <= w < UPAGES ==>
      Entry(pages', p.pgdir, w) == Entry(pages, p.pgdir, w)
      || (!Present(Entry(pages', p.pgdir, w)) && !Present(Entry(pages, p.pgdir, w)))
    requires forall key: nat, w: nat {:trigger Covers(regions, p, key, w)} :: Covers(regions, p, key, w) ==>
      Present(Entry(pages, p.pgdir, w))
    ensures HighOk(pages', regions, Resized(p, n)) && RefsOk(regions, Resized(p, n))
  {
    hide Entry, SharedEntry;
    var p' := Resized(p, n);
    assert forall key: nat, w: nat :: Covers(regions, p', key, w) <==> Covers(regions, p, key, w);
    assert forall key: nat, w: nat :: Covers(regions, p, key, w) ==> p.sh <= w < UPAGES;
  }

  lemma CoveredPresent(m: Mem, regions: seq<Region>, procs: seq<Proc>, i: nat)
    requires Own(m) && Good(m, regions, procs) && i < NPROC && Active(procs[i])
    ensures forall key: nat, w: nat {:trigger Covers(regions, procs[i], key, w)} ::
      Covers(regions, procs[i], key, w) ==>
      Present(Entry(m.pages, procs[i].pgdir, w))
  {
    hide Own, Entry, Good;
    GoodParts(m, regions, procs, i, 0);
    forall key: nat, w: nat | Covers(regions, procs[i], key, w) ensures Present(Entry(m.pages, procs[i].pgdir, w)) {
      CoversKey(regions, procs, m, i, key);
      HeldPage(m, regions, procs, i, key, w - procs[i].shared[key].va);
    }
  }

  lemma CoversKey(regions: seq<Region>, procs: seq<Proc>, m: Mem, i: nat, key: nat)
    requires Good(m, regions, procs) && i < |procs| && Holds(procs[i], key)
    ensures key < KEYS && i < NPROC
  {
    hide LowOk, HighOk, RegionOk;
    assert ProcOk(m, regions, procs[i]);
  }

  /** The new address space of p differs from the old only at pages lo..hi, which lie between its own memory and sh. */
  lemma ResizeGood(m: Mem, m': Mem, regions: seq<Region>, procs: seq<Proc>, i: nat, n: nat, lo: nat, hi: nat)
    requires Own(m) && Good(m, regions, procs) && i < NPROC && Active(procs[i]) && procs[i].pgdir in m'.dirs
    requires Frame(m, m', procs[i].pgdir, lo, hi, {}) && LowOk(m', Resized(procs[i], n))
    requires forall w: nat {:trigger Entry(m'.pages, procs[i].pgdir, w)} :: procs[i].sh <= w < UPAGES ==>
      Entry(m'.pages, procs[i].pgdir, w) == Entry(m.pages, procs[i].pgdir, w)
      || (!Present(Entry(m'.pages, procs[i].pgdir, w)) && !Present(Entry(m.pages, procs[i].pgdir, w)))
    ensures Good(m', regions, procs[i := Resized(procs[i], n)])
  {
    var p, d := Resized(procs[i], n), procs[i].pgdir;
    hide Own, Frame, LowOk, Entry, Made, Good, RegionOk;
    GoodParts(m, regions, procs, i, 0);
    ProcParts(m, regions, procs[i]);
    CoveredPresent(m, regions, procs, i);
    ResizedHigh(m.pages, m'.pages, m.dirs, regions, procs[i], n);
    OwnedInRange(m, procs[i].kstack);
    FrameKeeps(m, m', d, lo, hi, {}, procs[i].kstack);
    hide HighOk, RefsOk;
    assert ProcOk(m', regions, p);
    hide ProcOk;
    DetachApart(m, regions, procs, i, 0, {});
    ResizePlaced(m, m', regions, procs, d, lo, hi);
    OtherRegions(m, m', regions, procs, i, p, d, lo, hi, {}, 0);
    assert regions[0 := regions[0]] == regions;
    GoodUpdate(m, m', regions, procs, i, p, d, lo, hi, {}, 0, regions[0]);
  }

  lemma ResizePlaced(m: Mem, m': Mem, regions: seq<Region>, procs: seq<Proc>, d: nat, lo: nat, hi: nat)
    requires Good(m, regions, procs) && Frame(m, m', d, lo, hi, {})
    ensures SharedPlaced(m', regions)
  {
    hide ProcOk, RegionOk, KernelDirs, Apart;
    assert regions[0 := regions[0]] == regions;
    PlacedAfter(m, m', regions, d, lo, hi, {}, 0, regions[0]);
  }

  /** Own memory after allocuvm: the old pages and the zeroed new ones. */
  lemma LowGrown(m: Mem, m': Mem, p: Proc, n: nat)
    requires Own(m) && LowOk(m, p) && p.pgdir in m.dirs && p.sz <= n < p.sh * 4096 && n > 0
    requires Frame(m, m', p.pgdir, PageUp(p.sz), PageUp(n), {}) && Zeroed(m', p.pgdir, PageUp(p.sz), PageUp(n))
    requires SameElsewhere(m.pages, m'.pages, m.dirs, p.pgdir, PageUp(p.sz), PageUp(n))
    ensures LowOk(m', Resized(p, n))
  {
    assert PageUp(n) <= p.sh;
    forall w: nat | w < PageUp(p.sz)
      ensures Ppn(Entry(m.pages, p.pgdir, w)) in m'.owner
           && m'.owner[Ppn(Entry(m.pages, p.pgdir, w))] == User(p.pgdir, w)
    {
      OwnedInRange(m, Ppn(Entry(m.pages, p.pgdir, w)));
    }
    forall w: nat | PageUp(p.sz) <= w < PageUp(n)
      ensures Present(Entry(m'.pages, p.pgdir, w)) && Ppn(Entry(m'.pages, p.pgdir, w)) in m'.owner
      ensures m'.owner[Ppn(Entry(m'.pages, p.pgdir, w))] == User(p.pgdir, w)
    {
      var e := Entry(m'.pages, p.pgdir, w);
      assert ZeroAt(m', p.pgdir, w);
    }
    hide Own, Entry, Frame;
  }

  /** Own memory after allocuvm failed. */
  lemma LowSame(m: Mem, m': Mem, p: Proc, hi: nat)
    requires Own(m) && LowOk(m, p) && p.pgdir in m.dirs && Frame(m, m', p.pgdir, PageUp(p.sz), hi, {})
    requires SameMaps(m.pages, m'.pages, m.dirs)
    ensures LowOk(m', Resized(p, p.sz))
  {
    forall w: nat | w < PageUp(p.sz)
      ensures Ppn(Entry(m.pages, p.pgdir, w)) in m'.owner
           && m'.owner[Ppn(Entry(m.pages, p.pgdir, w))] == User(p.pgdir, w)
    {
      OwnedInRange(m, Ppn(Entry(m.pages, p.pgdir, w)));
    }
    hide Own, Entry, Frame;
  }

  /** Own memory after deallocuvm. */
  lemma LowShrunk(m: Mem, m': Mem, p: Proc, n: nat)
    requires Own(m) && LowOk(m, p) && p.pgdir in m.dirs && 0 < n < p.sz
    requires Frame(m, m', p.pgdir, PageUp(n), PageUp(p.sz), {})
    requires Cleared(m.pages, m'.pages, m.dirs, p.pgdir, PageUp(n), PageUp(p.sz))
    ensures LowOk(m', Resized(p, n))
  {
    forall w: nat | w < PageUp(n)
      ensures Ppn(Entry(m.pages, p.pgdir, w)) in m'.owner
           && m'.owner[Ppn(Entry(m.pages, p.pgdir, w))] == User(p.pgdir, w)
    {
      OwnedInRange(m, Ppn(Entry(m.pages, p.pgdir, w)));
    }
    hide Own, Entry, Frame;
  }

  lemma LowPrivate(m: Mem, p: Proc, lo: nat)
    requires LowOk(m, p)
    ensures Private(m, p.pgdir, lo, PageUp(p.sz))
  {
  }

  lemma LowGap(m: Mem, p: Proc, hi: nat)
    requires LowOk(m, p) && hi <= p.sh
    ensures forall w: nat :: PageUp(p.sz) <= w < hi ==> !Present(Entry(m.pages, p.pgdir, w))
  {
  }

  lemma LowOf(m: Mem, regions: seq<Region>, p: Proc)
    requires ProcOk(m, regions, p) && Active(p)
    ensures LowOk(m, p)
  {
  }

  lemma GrewHigh(pages: seq<Page>, pages': seq<Page>, dirs: set<nat>, p: Proc, lo: nat, hi: nat)
    requires SameElsewhere(pages, pages', dirs, p.pgdir, lo, hi) && p.pgdir in dirs && hi <= p.sh
    ensures forall w: nat {:trigger Entry(pages', p.pgdir, w)} :: p.sh <= w < UPAGES ==>
      Entry(pages', p.pgdir, w) == Entry(pages, p.pgdir, w)
  {
  }

  lemma ClearedHigh(pages: seq<Page>, pages': seq<Page>, dirs: set<nat>, p: Proc, lo: nat, hi: nat)
    requires Cleared(pages, pages', dirs, p.pgdir, lo, hi) && p.pgdir in dirs && hi <= p.sh
    ensures forall w: nat {:trigger Entry(pages', p.pgdir, w)} :: p.sh <= w < UPAGES ==>
      Entry(pages', p.pgdir, w) == Entry(pages, p.pgdir, w)
  {
  }

  lemma GrowGood(m: Mem, m': Mem, regions: seq<Region>, procs: seq<Proc>, i: nat, n: nat)
    requires Own(m) && Good(m, regions, procs) && i < NPROC && Active(procs[i]) && m'.dirs == m.dirs
    requires procs[i].sz <= n < procs[i].sh * 4096 && n > 0
    requires Frame(m, m', procs[i].pgdir, PageUp(procs[i].sz), PageUp(n), {})
    requires Zeroed(m', procs[i].pgdir, PageUp(procs[i].sz), PageUp(n))
    requires SameElsewhere(m.pages, m'.pages, m.dirs, procs[i].pgdir, PageUp(procs[i].sz), PageUp(n))
    ensures Good(m', regions, procs[i := Resized(procs[i], n)])
  {
    hide Own, Frame, Good, ProcOk, LowOk, Zeroed, SameElsewhere, Entry;
    GoodParts(m, regions, procs, i, 0);
    ProcParts(m, regions, procs[i]);
    LowOf(m, regions, procs[i]);
    LowGrown(m, m', procs[i], n);
    GrewHigh(m.pages, m'.pages, m.dirs, procs[i], PageUp(procs[i].sz), PageUp(n));
    ResizeGood(m, m', regions, procs, i, n, PageUp(procs[i].sz), PageUp(n));
  }

  lemma ShrinkGood(m: Mem, m': Mem, regions: seq<Region>, procs: seq<Proc>, i: nat, n: nat)
    requires Own(m) && Good(m, regions, procs) && i < NPROC && Active(procs[i]) && m'.dirs == m.dirs
    requires 0 < n < procs[i].sz && Frame(m, m', procs[i].pgdir, PageUp(n), PageUp(procs[i].sz), {})
    requires Cleared(m.pages, m'.pages, m.dirs, procs[i].pgdir, PageUp(n), PageUp(procs[i].sz))
    ensures Good(m', regions, procs[i := Resized(procs[i], n)])
  {
    hide Own, Frame, Good, ProcOk, LowOk, Cleared, Entry;
    GoodParts(m, regions, procs, i, 0);
    ProcParts(m, regions, procs[i]);
    LowOf(m, regions, procs[i]);
    LowShrunk(m, m', procs[i], n);
    ClearedHigh(m.pages, m'.pages, m.dirs, procs[i], PageUp(n), PageUp(procs[i].sz));
    ResizeGood(m, m', regions, procs, i, n, PageUp(n), PageUp(procs[i].sz));
  }

  /** allocuvm that fails, or refuses, leaves a good state. */
  lemma GrowFailed(m: Mem, m': Mem, regions: seq<Region>, procs: seq<Proc>, i: nat, n: nat)
    requires Own(m) && Good(m, regions, procs) && i < NPROC && Active(procs[i]) && m'.dirs == m.dirs
    requires m' == m || Frame(m, m', procs[i].pgdir, PageUp(procs[i].sz), PageUp(n), {})
    requires SameMaps(m.pages, m'.pages, m.dirs)
    ensures Good(m', regions, procs[i := Resized(procs[i], procs[i].sz)])
  {
    hide Own, Frame, Good, ProcOk, LowOk, Entry;
    GoodParts(m, regions, procs, i, 0);
    ProcParts(m, regions, procs[i]);
    LowOf(m, regions, procs[i]);
    if m' == m {
      assert procs[i := Resized(procs[i], procs[i].sz)] == procs;
    } else {
      LowSame(m, m', procs[i], PageUp(n));
      ResizeGood(m, m', regions, procs, i, procs[i].sz, PageUp(procs[i].sz), PageUp(n));
    }
  }

  /** deallocuvm to a size that is not smaller clears nothing. */
  lemma NothingCleared(m: Mem, m': Mem, regions: seq<Region>, procs: seq<Proc>, i: nat, lo: nat, hi: nat)
    requires Own(m) && Good(m, regions, procs) && i < NPROC && Active(procs[i]) && m'.dirs == m.dirs && hi <= lo
    requires Frame(m, m', procs[i].pgdir, lo, hi, {}) && Cleared(m.pages, m'.pages, m.dirs, procs[i].pgdir, lo, hi)
    ensures Good(m', regions, procs[i := Resized(procs[i], procs[i].sz)])
  {
    hide Own, Good, ProcOk, Entry;
    GoodParts(m, regions, procs, i, 0);
    ProcParts(m, regions, procs[i]);
    LowOf(m, regions, procs[i]);
    FrameEmpty(m, m', procs[i].pgdir, lo, hi);
    hide Frame, LowOk;
    LowSame(m, m', procs[i], 0);
    ResizeGood(m, m', regions, procs, i, procs[i].sz, PageUp(procs[i].sz), 0);
  }

  lemma FrameEmpty(m: Mem, m': Mem, d: nat, lo: nat, hi: nat)
    requires Frame(m, m', d, lo, hi, {}) && hi <= lo
    ensures forall l: nat :: Frame(m, m', d, l, 0, {})
  {
  }

  /** The first process has one page of its own. */
  lemma FirstLow(m: Mem, m': Mem, p: Proc, c: nat, kstack: nat, b: nat, data: nat)
    requires EXTPAGES < data < PHYSPAGES && KernelOnly(m.pages, c, data) && c in m.dirs && b < VPAGES
    requires OneSpace(m.pages, m'.pages, m.dirs, c, 0, MakeEntry(b, 6)) && b in m'.owner && m'.owner[b] == User(c, 0)
    ensures LowOk(m', Started(p, c, kstack, 4096))
  {
    EntryParts(b, 6);
    assert Entry(m'.pages, c, 0) == MakeEntry(b, 6);
    forall w: nat | 1 <= w < UPAGES ensures !Present(Entry(m'.pages, c, w)) {
      assert Entry(m'.pages, c, w) == Entry(m.pages, c, w) == KernelEntry(data, w);
    }
    hide Entry;
  }

  /** Page 0 holds the page given, and the user may read and write it. */
  ghost predicate FirstPage(m: Mem, d: nat, page: Page) {
    var b := Ppn(Entry(m.pages, d, 0));
    b < |m.pages| && m.pages[b] == page && Reach(m.pages, d, 0, true)
  }

  lemma FirstIs(m: Mem, m': Mem, d: nat, b: nat, page: Page)
    requires Own(m') && d in m.dirs && d in m'.dirs && b < |m'.pages| && b < VPAGES && m'.pages[b] == page
    requires OneSpace(m.pages, m'.pages, m.dirs, d, 0, MakeEntry(b, 6))
    ensures FirstPage(m', d, page)
  {
    hide Own, Entry, DirEntry;
    assert Entry(m'.pages, d, 0) == MakeEntry(b, 6);
    EntryParts(b, 6);
    ReachMapped(m', d, 0, b);
  }

  /** A process whose memory is gone is not in order. */
  lemma EmptyIsBad(m: Mem, m': Mem, regions: seq<Region>, procs: seq<Proc>, i: nat)
    requires i < |procs| == NPROC && Active(procs[i]) && procs[i].pgdir in m.dirs && PageUp(procs[i].sz) > 0
    requires Cleared(m.pages, m'.pages, m.dirs, procs[i].pgdir, 0, PageUp(procs[i].sz))
    ensures !Good(m', regions, procs)
  {
    assert !Present(Entry(m'.pages, procs[i].pgdir, 0));
    assert !ProcOk(m', regions, procs[i]);
  }

  lemma KernelGapAt(pages: seq<Page>, d: nat, data: nat, w: nat)
    requires EXTPAGES < data < PHYSPAGES && KernelOnly(pages, d, data) && w < UPAGES
    ensures !Present(Entry(pages, d, w))
  {
    assert Entry(pages, d, w) == KernelEntry(data, w);
  }

  // ---- what user code can reach ----

  /** A holder may read and write every page of the region. */
  lemma ReachHeld(m: Mem, regions: seq<Region>, procs: seq<Proc>, i: nat, key: nat)
    requires Own(m) && Good(m, regions, procs) && i < NPROC && key < KEYS && Holds(procs[i], key)
    ensures ReachAll(m.pages, procs[i].pgdir, procs[i].shared[key].va,
                     procs[i].shared[key].va + regions[key].pageCount)
  {
    hide Own, Good, ProcOk, Entry, DirEntry;
    GoodParts(m, regions, procs, i, key);
    ProcParts(m, regions, procs[i]);
    HeldRange(m, regions, procs[i], key);
    var va, r := procs[i].shared[key].va, regions[key];
    forall v: nat | va <= v < va + r.pageCount ensures Reach(m.pages, procs[i].pgdir, v, true) {
      HolderEntry(m, regions, procs[i], key, v - va);
      RegionPage(m, regions, procs, key, v - va);
      PagesFit(m);
      ReachMapped(m, procs[i].pgdir, v, r.pages[r.pageCount - 1 - (v - va)]);
    }
  }

  lemma PagesFit(m: Mem)
    requires Own(m)
    ensures |m.pages| <= UPAGES
  {
  }

  /** User code reaches the process's own memory and the regions that it holds, and nothing else. */
  lemma ReachOnly(m: Mem, regions: seq<Region>, procs: seq<Proc>, i: nat, v: nat, write: bool)
    requires Own(m) && Good(m, regions, procs) && i < NPROC && Active(procs[i]) && v < VPAGES
    requires procs[i].pgdir in m.dirs && Reach(m.pages, procs[i].pgdir, v, write)
    ensures var b := Ppn(Entry(m.pages, procs[i].pgdir, v));
      && b in m.owner
      && (if v < procs[i].sh then v < PageUp(procs[i].sz) && m.owner[b] == User(procs[i].pgdir, v)
          else exists key: nat :: Covers(regions, procs[i], key, v) && OfRegion(m, b, key))
  {
    hide Own, Good, Entry, DirEntry, RefsOk, HighOk;
    GoodParts(m, regions, procs, i, 0);
    ReachOwned(m, procs[i].pgdir, v, write);
    if v >= procs[i].sh {
      var key := CoveredBy(m, regions, procs[i], v);
      RegionBehind(m, regions, procs, i, key, v);
    }
  }

  lemma CoveredBy(m: Mem, regions: seq<Region>, p: Proc, v: nat) returns (key: nat)
    requires ProcOk(m, regions, p) && Active(p) && p.sh <= v < UPAGES && Present(Entry(m.pages, p.pgdir, v))
    ensures Covers(regions, p, key, v)
  {
    hide Entry, LowOk, RefsOk;
    key :| Covers(regions, p, key, v);
  }

  lemma RegionBehind(m: Mem, regions: seq<Region>, procs: seq<Proc>, i: nat, key: nat, v: nat)
    requires Own(m) && Good(m, regions, procs) && i < NPROC && Covers(regions, procs[i], key, v)
    ensures OfRegion(m, Ppn(Entry(m.pages, procs[i].pgdir, v)), key)
  {
    hide Own, Good, ProcOk, Entry, DirEntry, RegionEntry;
    GoodParts(m, regions, procs, i, 0);
    GoodParts(m, regions, procs, i, key);
    HolderEntry(m, regions, procs[i], key, v - procs[i].shared[key].va);
    RegionPage(m, regions, procs, key, v - procs[i].shared[key].va);
  }

  /** Two processes reach a common page only within a region that both of them hold. */
  lemma Isolated(m: Mem, regions: seq<Region>, procs: seq<Proc>, i: nat, j: nat, v: nat, w: nat, write: bool)
    requires Own(m) && Good(m, regions, procs) && i < NPROC && j < NPROC && i != j && v < VPAGES && w < VPAGES
    requires Active(procs[i]) && Active(procs[j]) && procs[i].pgdir in m.dirs && procs[j].pgdir in m.dirs
    requires Reach(m.pages, procs[i].pgdir, v, write) && Reach(m.pages, procs[j].pgdir, w, write)
    requires Ppn(Entry(m.pages, procs[i].pgdir, v)) == Ppn(Entry(m.pages, procs[j].pgdir, w))
    ensures exists key: nat :: Covers(regions, procs[i], key, v) && Covers(regions, procs[j], key, w)
  {
    ReachOnly(m, regions, procs, i, v, write);
    ReachOnly(m, regions, procs, j, w, write);
    hide Own, Entry, DirEntry, Covers, ProcOk, RegionOk, KernelDirs, SharedPlaced;
  }
}
