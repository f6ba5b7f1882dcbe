/**
 * Physical pages and two-level page tables, as values.  Every page from LOW on is on the free list or has
 * exactly one use, which owner records; an address space is what walking a page directory finds.
 */
module Paging {
  import opened Common

  const ENTRIES := 1024
  const VPAGES := 0x100000                 // virtual pages
  const UPAGES := 0x80000                  // those below KERNBASE

  type Page = s: seq<Uint> | |s| == ENTRIES witness seq(ENTRIES, i => 0)

  /** A page of zeros. */
  function ZeroPage(): (p: Page)
    ensures forall k :: 0 <= k < ENTRIES ==> p[k] == 0
  {
    seq(ENTRIES, i => 0)
  }

  /** The number of pages that sz bytes take. */
  function PageUp(sz: nat): nat { (sz + 4095) / 4096 }

  lemma PagesBelow(sz: nat)
    requires sz <= UPAGES * 4096
    ensures PageUp(sz) <= UPAGES
  {
  }

  // ---- page table entries ----

  function Present(e: Uint): bool { e % 2 == 1 }

  function Ppn(e: Uint): nat { e / 4096 }

  function Flags(e: Uint): nat { e % 4096 }

  /** pa | perm | PTE_P for the page-aligned address of page p. */
  function MakeEntry(p: nat, perm: nat): Uint
    requires p < VPAGES && perm < 4096
  {
    p * 4096 + (if perm % 2 == 1 then perm else perm + 1)
  }

  lemma EntryParts(p: nat, perm: nat)
    requires p < VPAGES && perm < 4096
    ensures var e := MakeEntry(p, perm);
      Present(e) && Ppn(e) == p && Flags(e) == if perm % 2 == 1 then perm else perm + 1
  {
    var f := if perm % 2 == 1 then perm else perm + 1;
    SplitEntry(p, f);
    OddEntry(p, f, perm);
  }

  lemma SplitEntry(p: nat, f: nat)
    requires f < 4096
    ensures (p * 4096 + f) / 4096 == p && (p * 4096 + f) % 4096 == f
  {
  }

  lemma OddEntry(p: nat, f: nat, perm: nat)
    requires f == if perm % 2 == 1 then perm else perm + 1
    ensures (p * 4096 + f) % 2 == 1
  {
    var k := 2048 * p + perm / 2;
    assert p * 4096 + f == 2 * k + 1;
  }

  /** PTE_U and PTE_W. */
  predicate UserBit(e: nat) { e / 4 % 2 == 1 }

  predicate WriteBit(e: nat) { e / 2 % 2 == 1 }

  lemma EvenPlus(a: nat, k: nat)
    ensures (2 * a + k) / 2 == a + k / 2 && (2 * a + k) % 2 == k % 2
  {
  }

  lemma QuarterOf(x: nat)
    ensures x / 4 == x / 2 / 2
  {
  }

  lemma BitsOfEntry(p: nat, perm: nat)
    requires p < VPAGES && perm < 4096
    ensures UserBit(MakeEntry(p, perm)) == UserBit(perm) && WriteBit(MakeEntry(p, perm)) == WriteBit(perm)
  {
    var f, e := if perm % 2 == 1 then perm else perm + 1, MakeEntry(p, perm);
    assert f / 2 == perm / 2;
    QuarterOf(e);
    QuarterOf(perm);
    EvenPlus(p * 2048, f);
    EvenPlus(p * 1024, f / 2);
    EvenPlus(p * 512, f / 2 / 2);
  }

  // ---- walking ----

  function Pdx(v: nat): nat { v / ENTRIES }

  function Ptx(v: nat): nat { v % ENTRIES }

  lemma SamePage(v: nat, w: nat)
    ensures Pdx(v) == Pdx(w) && Ptx(v) == Ptx(w) ==> v == w
    ensures Ptx(v) < ENTRIES && (v < VPAGES ==> Pdx(v) < ENTRIES)
  {
  }

  /** The directory entry for virtual page v. */
  function DirEntry(pages: seq<Page>, d: nat, x: nat): Uint {
    if d < |pages| && x < ENTRIES then pages[d][x] else 0
  }

  /** The entry that walking directory d finds for virtual page v; 0 if there is no table. */
  function Entry(pages: seq<Page>, d: nat, v: nat): Uint {
    var pde := DirEntry(pages, d, Pdx(v));
    if Present(pde) && Ppn(pde) < |pages| && Ptx(v) < ENTRIES then pages[Ppn(pde)][Ptx(v)] else 0
  }

  // ---- ownership ----

  /** What a page is used for.  Held pages are allocated but in no page table. */
  datatype Place = Held | Dir | Table(dir: nat, pdx: nat) | User(dir: nat, vpn: nat) | Shared(key: nat, index: nat)

  datatype Mem = Mem(low: nat, pages: seq<Page>, free: seq<nat>, dirs: set<nat>, owner: map<nat, Place>)

  /** The free pages and the owned pages are all the pages, each once. */
  ghost predicate Conserved(m: Mem) {
    && 0 < m.low <= |m.pages| <= UPAGES && Distinct(m.free)
    && (forall i :: 0 <= i < |m.free| ==> m.low <= m.free[i] < |m.pages| && m.free[i] !in m.owner)
    && (forall b :: b in m.owner ==> m.low <= b < |m.pages|)
    && (forall b: nat :: m.low <= b < |m.pages| ==> b in m.free || b in m.owner)
  }

  /** b is used where p says. */
  ghost predicate Placed(m: Mem, b: nat, p: Place) {
    match p
    case Held => true
    case Dir => b in m.dirs
    case Table(d, x) =>
      d in m.dirs && x < ENTRIES && Present(DirEntry(m.pages, d, x)) && Ppn(DirEntry(m.pages, d, x)) == b
    case User(d, v) =>
      d in m.dirs && v < UPAGES && Present(Entry(m.pages, d, v)) && Ppn(Entry(m.pages, d, v)) == b
    case Shared(_, _) => true
  }

  ghost predicate TablesOwned(m: Mem) {
    forall d: nat, x: nat {:trigger DirEntry(m.pages, d, x)} ::
      d in m.dirs && x < ENTRIES && Present(DirEntry(m.pages, d, x)) ==>
      && Ppn(DirEntry(m.pages, d, x)) in m.owner && m.owner[Ppn(DirEntry(m.pages, d, x))] == Table(d, x)
      && Flags(DirEntry(m.pages, d, x)) == 7
  }

  /** Page b may be mapped at user page v of directory d. */
  ghost predicate Mappable(owner: map<nat, Place>, b: nat, d: nat, v: nat) {
    b in owner && (owner[b] == User(d, v) || owner[b].Shared?)
  }

  ghost predicate UsersOwned(m: Mem) {
    forall d: nat, v: nat {:trigger Entry(m.pages, d, v)} ::
      d in m.dirs && v < UPAGES && Present(Entry(m.pages, d, v)) ==>
      Mappable(m.owner, Ppn(Entry(m.pages, d, v)), d, v)
  }

  /** No entry above the user part lets the user in. */
  ghost predicate KernelClosed(m: Mem) {
    forall d: nat, v: nat {:trigger Entry(m.pages, d, v)} :: d in m.dirs && UPAGES <= v < VPAGES ==>
      !UserBit(Entry(m.pages, d, v))
  }

  ghost predicate Own(m: Mem) {
    && Conserved(m)
    && (forall d :: d in m.dirs ==> d in m.owner && m.owner[d] == Dir)
    && (forall b :: b in m.owner ==> Placed(m, b, m.owner[b]))
    && TablesOwned(m) && UsersOwned(m) && KernelClosed(m)
  }

  // ---- the allocator ----

  function Taken(m: Mem): Mem
    requires m.free != []
  {
    m.(free := m.free[1..], owner := m.owner[m.free[0] := Held])
  }

  lemma TakeOwns(m: Mem)
    requires Own(m) && m.free != []
    ensures Own(Taken(m))
  {
  }

  function Given(m: Mem, p: nat, junk: Page): Mem
    requires p < |m.pages|
  {
    m.(pages := m.pages[p := junk], free := [p] + m.free, owner := m.owner - {p})
  }

  /** Walking any of the directories finds the same tables and entries. */
  ghost predicate SameWalks(pages: seq<Page>, pages': seq<Page>, dirs: set<nat>) {
    && (forall d: nat, x: nat {:trigger DirEntry(pages', d, x)} :: d in dirs ==>
          DirEntry(pages', d, x) == DirEntry(pages, d, x))
    && (forall d: nat, v: nat {:trigger Entry(pages', d, v)} :: d in dirs && v < VPAGES ==>
          Entry(pages', d, v) == Entry(pages, d, v))
  }

  /** A page that is neither a directory nor a table. */
  ghost predicate Plain(m: Mem, p: nat) {
    p < |m.pages| && (p in m.owner ==> !m.owner[p].Dir? && !m.owner[p].Table?)
  }

  lemma PlainPage(m: Mem, p: nat, page: Page)
    requires Own(m) && Plain(m, p)
    ensures SameWalks(m.pages, m.pages[p := page], m.dirs)
  {
    forall d: nat, v: nat | d in m.dirs && v < VPAGES
      ensures Entry(m.pages[p := page], d, v) == Entry(m.pages, d, v)
    {
      SamePage(v, v);
      var pde := DirEntry(m.pages, d, Pdx(v));
      if Present(pde) { assert m.owner[Ppn(pde)] == Table(d, Pdx(v)); }
    }
  }

  lemma FillOwns(m: Mem, p: nat, page: Page)
    requires Own(m) && Plain(m, p)
    ensures Own(m.(pages := m.pages[p := page])) && SameWalks(m.pages, m.pages[p := page], m.dirs)
  {
    hide Entry, DirEntry;
    PlainPage(m, p, page);
  }

  lemma GiveOwns(m: Mem, p: nat, junk: Page)
    requires Own(m) && p in m.owner && m.owner[p] == Held
    ensures Own(Given(m, p, junk)) && SameWalks(m.pages, m.pages[p := junk], m.dirs)
  {
    hide Entry, DirEntry;
    PlainPage(m, p, junk);
  }

  // ---- which tables there are ----

  predicate HasEntry(pages: seq<Page>, d: nat, x: nat) { Present(DirEntry(pages, d, x)) }

  /** x is the directory entry of one of the pages lo..hi. */
  predicate Spans(lo: nat, hi: nat, x: nat) { lo < hi && Pdx(lo) <= x <= Pdx(hi - 1) }

  /** The tables that the pages lo..hi of d still lack. */
  function Untabled(pages: seq<Page>, d: nat, lo: nat, hi: nat): set<nat> {
    set x: nat | x < ENTRIES && Spans(lo, hi, x) && !HasEntry(pages, d, x)
  }

  /** d has gained exactly the tables of the pages lo..hi. */
  ghost predicate Tabled(pages: seq<Page>, pages': seq<Page>, d: nat, lo: nat, hi: nat) {
    forall x: nat {:trigger HasEntry(pages', d, x)} :: x < ENTRIES ==>
      (HasEntry(pages', d, x) <==> HasEntry(pages, d, x) || Spans(lo, hi, x))
  }

  lemma SpansDown(v: nat, hi: nat, x: nat)
    requires v < hi
    ensures Spans(v, hi, x) <==> Spans(v + 1, hi, x) || x == Pdx(v)
  {
  }

  lemma SpansUp(lo: nat, v: nat, x: nat)
    requires lo <= v
    ensures Spans(lo, v + 1, x) <==> Spans(lo, v, x) || x == Pdx(v)
  {
  }

  lemma TabledMore(a: seq<Page>, b: seq<Page>, c: seq<Page>, d: nat, v: nat, hi: nat)
    requires Tabled(a, b, d, v + 1, hi) && Tabled(b, c, d, v, v + 1) && v < hi
    ensures Tabled(a, c, d, v, hi)
  {
    hide HasEntry;
    forall x: nat ensures Spans(v, hi, x) <==> Spans(v + 1, hi, x) || Spans(v, v + 1, x) { }
  }

  /** The table that page v adds to those lacking already. */
  function Extra(pages: seq<Page>, d: nat, v: nat): set<nat> { if HasEntry(pages, d, Pdx(v)) then {} else {Pdx(v)} }

  lemma UntabledDown(pages: seq<Page>, d: nat, v: nat, hi: nat)
    requires v < hi && Pdx(v) < ENTRIES
    ensures Untabled(pages, d, v, hi) == Untabled(pages, d, v + 1, hi) + Extra(pages, d, v)
  {
    hide HasEntry;
    forall x: nat ensures x in Untabled(pages, d, v, hi) <==> x in Untabled(pages, d, v + 1, hi) + Extra(pages, d, v) {
      SpansDown(v, hi, x);
    }
  }

  lemma UntabledOnward(pages: seq<Page>, d: nat, lo: nat, v: nat)
    requires lo <= v && Pdx(v) < ENTRIES
    ensures Untabled(pages, d, lo, v + 1) == Untabled(pages, d, lo, v) + Extra(pages, d, v)
  {
    hide HasEntry;
    forall x: nat ensures x in Untabled(pages, d, lo, v + 1) <==> x in Untabled(pages, d, lo, v) + Extra(pages, d, v) {
      SpansUp(lo, v, x);
    }
  }

  /** By now the table of v is there, exactly if it was or another page needed it. */
  lemma ExtraSize(a: seq<Page>, b: seq<Page>, d: nat, lo: nat, hi: nat, v: nat)
    requires Tabled(a, b, d, lo, hi) && Pdx(v) < ENTRIES
    ensures |Untabled(a, d, lo, hi) + Extra(a, d, v)| == |Untabled(a, d, lo, hi)| + Lacking(b, d, v)
  {
    var s, x := Untabled(a, d, lo, hi), Pdx(v);
    assert HasEntry(b, d, x) <==> HasEntry(a, d, x) || Spans(lo, hi, x);
    assert x in s <==> Spans(lo, hi, x) && !HasEntry(a, d, x);
    hide Untabled, Tabled, HasEntry, Spans;
    if x in s { assert s + {x} == s; }
    assert s + {} == s;
  }

  lemma PdxBound(v: nat)
    requires v < VPAGES
    ensures Pdx(v) < ENTRIES
  {
  }

  /** One page further down takes one more table exactly if its table is not there by now. */
  lemma UntabledMore(a: seq<Page>, b: seq<Page>, d: nat, v: nat, hi: nat)
    requires Tabled(a, b, d, v + 1, hi) && v < hi <= VPAGES
    ensures |Untabled(a, d, v, hi)| == |Untabled(a, d, v + 1, hi)| + Lacking(b, d, v)
  {
    hide Untabled, Tabled, HasEntry, Extra;
    PdxBound(v);
    UntabledDown(a, d, v, hi);
    ExtraSize(a, b, d, v + 1, hi, v);
  }

  lemma UntabledWithin(pages: seq<Page>, d: nat, lo: nat, v: nat, hi: nat)
    requires lo <= v
    ensures |Untabled(pages, d, v, hi)| <= |Untabled(pages, d, lo, hi)|
  {
    assert Untabled(pages, d, v, hi) <= Untabled(pages, d, lo, hi);
    SubsetSize(Untabled(pages, d, v, hi), Untabled(pages, d, lo, hi));
  }

  lemma {:induction false} SubsetSize(s: set<nat>, t: set<nat>)
    requires s <= t
    ensures |s| <= |t|
    decreases |s|
  {
    if x :| x in s { SubsetSize(s - {x}, t - {x}); }
  }

  /** The same upwards. */
  lemma TabledUp(a: seq<Page>, b: seq<Page>, c: seq<Page>, d: nat, lo: nat, v: nat)
    requires Tabled(a, b, d, lo, v) && Tabled(b, c, d, v, v + 1) && lo <= v
    ensures Tabled(a, c, d, lo, v + 1)
  {
    hide HasEntry;
    forall x: nat ensures Spans(lo, v + 1, x) <==> Spans(lo, v, x) || Spans(v, v + 1, x) { }
  }

  lemma UntabledUp(a: seq<Page>, b: seq<Page>, d: nat, lo: nat, v: nat)
    requires Tabled(a, b, d, lo, v) && lo <= v < VPAGES
    ensures |Untabled(a, d, lo, v + 1)| == |Untabled(a, d, lo, v)| + Lacking(b, d, v)
  {
    hide Untabled, Tabled, HasEntry, Extra;
    PdxBound(v);
    UntabledOnward(a, d, lo, v);
    ExtraSize(a, b, d, lo, v, v);
  }

  lemma UntabledPart(pages: seq<Page>, d: nat, lo: nat, v: nat, hi: nat)
    requires v <= hi
    ensures |Untabled(pages, d, lo, v)| <= |Untabled(pages, d, lo, hi)|
  {
    hide HasEntry;
    assert Untabled(pages, d, lo, v) <= Untabled(pages, d, lo, hi);
    SubsetSize(Untabled(pages, d, lo, v), Untabled(pages, d, lo, hi));
  }

  /** The page that the table for v takes, if it is not there. */
  function Lacking(pages: seq<Page>, d: nat, v: nat): nat { if HasEntry(pages, d, Pdx(v)) then 0 else 1 }

  /** The pages that mapping lo..hi in d takes, with the tables that are missing. */
  function PagesFor(pages: seq<Page>, d: nat, lo: nat, hi: nat): int { hi - lo + |Untabled(pages, d, lo, hi)| }

  lemma SameLacking(a: seq<Page>, b: seq<Page>, d: nat, v: nat)
    requires d < |a| == |b| && a[d] == b[d]
    ensures Lacking(a, d, v) == Lacking(b, d, v) && HasEntry(a, d, Pdx(v)) == HasEntry(b, d, Pdx(v))
  {
  }

  lemma TabledFrom(a: seq<Page>, a': seq<Page>, c: seq<Page>, d: nat, lo: nat, hi: nat)
    requires Tabled(a', c, d, lo, hi) && d < |a| == |a'| && a'[d] == a[d]
    ensures Tabled(a, c, d, lo, hi) && forall v: nat :: Lacking(a', d, v) == Lacking(a, d, v)
  {
    forall x: nat ensures HasEntry(a', d, x) == HasEntry(a, d, x) { }
  }

  lemma TabledNone(pages: seq<Page>, d: nat, v: nat)
    ensures Tabled(pages, pages, d, v, v) && |Untabled(pages, d, v, v)| == 0
    ensures HasEntry(pages, d, Pdx(v)) ==> Tabled(pages, pages, d, v, v + 1)
  {
    assert Untabled(pages, d, v, v) == {};
  }

  lemma EntryHasTable(pages: seq<Page>, d: nat, v: nat)
    ensures Present(Entry(pages, d, v)) ==> HasEntry(pages, d, Pdx(v))
  {
  }

  lemma TableIsNoDir(m: Mem, d: nat, v: nat, t: nat)
    requires Own(m) && HasTable(m, d, v, t)
    ensures d < |m.pages| && t != d
  {
  }

  /** What adding a table does to the directory. */
  lemma TableTabled(pages: seq<Page>, d: nat, v: nat, t: nat, e: Uint)
    requires d < |pages| && t < |pages| && t != d && v < VPAGES && Present(e)
    ensures var pages1 := pages[t := ZeroPage()];
      Pdx(v) < ENTRIES && Tabled(pages, pages1[d := pages1[d][Pdx(v) := e]], d, v, v + 1)
  {
  }

  lemma TabledKept(pages: seq<Page>, pages': seq<Page>, pages'': seq<Page>, d: nat, lo: nat, hi: nat)
    requires Tabled(pages, pages', d, lo, hi) && d < |pages'| == |pages''| && pages''[d] == pages'[d]
    ensures Tabled(pages, pages'', d, lo, hi)
  {
    forall x: nat ensures HasEntry(pages'', d, x) == HasEntry(pages', d, x) { }
  }

  // ---- the free list in memory ----

  /** The kernel address of page p. */
  function Addr(p: nat): Uint
    requires p < UPAGES
  {
    (UPAGES + p) * 4096
  }

  /** The page at a kernel address. */
  function PageAt(v: Uint): nat
    requires v >= UPAGES * 4096
  {
    (v - UPAGES * 4096) / 4096
  }

  lemma AddrPage(p: nat)
    requires p < UPAGES
    ensures Addr(p) >= UPAGES * 4096 && PageAt(Addr(p)) == p && Addr(p) % 4096 == 0
  {
  }

  lemma InsidePages(v: Uint, lo: nat, hi: nat)
    requires v % 4096 == 0 && (UPAGES + lo) * 4096 <= v && v - UPAGES * 4096 < hi * 4096 && hi <= UPAGES
    ensures v >= UPAGES * 4096 && lo <= PageAt(v) < hi && Addr(PageAt(v)) == v
  {
  }

  lemma OutsidePages(v: Uint, lo: nat, hi: nat)
    requires v % 4096 != 0 || v < (UPAGES + lo) * 4096 || v - UPAGES * 4096 >= hi * 4096
    ensures !(v % 4096 == 0 && UPAGES * 4096 <= v && lo <= PageAt(v) < hi)
  {
  }

  /** head starts a list, linked through the first word of each page, of exactly the pages of free. */
  ghost predicate Listed(pages: seq<Page>, head: Uint, free: seq<nat>)
    decreases |free|
  {
    if free == [] then head == 0
    else free[0] < |pages| && free[0] < UPAGES && head == Addr(free[0]) && Listed(pages, pages[free[0]][0], free[1..])
  }

  lemma {:induction false} ListedFrame(pages: seq<Page>, pages': seq<Page>, head: Uint, free: seq<nat>)
    requires Listed(pages, head, free) && |pages'| == |pages|
    requires forall i :: 0 <= i < |free| ==> free[i] < |pages| && pages'[free[i]] == pages[free[i]]
    ensures Listed(pages', head, free)
    decreases |free|
  {
    if free != [] { ListedFrame(pages, pages', pages[free[0]][0], free[1..]); }
  }

  /** A freed page: filled with ones, then linked to the rest of the list. */
  function Junk(head: Uint): Page {
    seq(ENTRIES, i => 0x0101_0101)[0 := head]
  }

  lemma GiveListed(pages: seq<Page>, head: Uint, free: seq<nat>, p: nat)
    requires Listed(pages, head, free) && p < |pages| && p < UPAGES && p !in free
    requires forall i :: 0 <= i < |free| ==> free[i] < |pages|
    ensures Listed(pages[p := Junk(head)], Addr(p), [p] + free)
  {
    ListedFrame(pages, pages[p := Junk(head)], head, free);
    assert ([p] + free)[1..] == free;
  }

  // ---- the page tables ----

  /** walkpgdir: the fresh page t becomes the empty table x of directory d. */
  function TableAdded(m: Mem, d: nat, x: nat, t: nat): Mem
    requires d < |m.pages| && x < ENTRIES && t < |m.pages| && t < VPAGES
  {
    m.(pages := m.pages[t := ZeroPage()][d := m.pages[d][x := MakeEntry(t, 7)]], owner := m.owner[t := Table(d, x)])
  }

  lemma TableWalks(m: Mem, d: nat, x: nat, t: nat, pages': seq<Page>)
    requires Own(m) && d in m.dirs && x < ENTRIES && !Present(DirEntry(m.pages, d, x))
    requires t in m.owner && m.owner[t] == Held && pages' == TableAdded(m, d, x, t).pages
    ensures forall c: nat, y: nat {:trigger DirEntry(pages', c, y)} :: c in m.dirs ==>
      DirEntry(pages', c, y) == if c == d && y == x then MakeEntry(t, 7) else DirEntry(m.pages, c, y)
    ensures forall c: nat, v: nat {:trigger Entry(pages', c, v)} :: c in m.dirs && v < VPAGES ==>
      Entry(pages', c, v) == if c == d && Pdx(v) == x then 0 else Entry(m.pages, c, v)
    ensures forall v: nat :: Pdx(v) == x ==> Entry(m.pages, d, v) == 0
  {
    EntryParts(t, 7);
    forall c: nat, v: nat | c in m.dirs && v < VPAGES
      ensures Entry(pages', c, v) == if c == d && Pdx(v) == x then 0 else Entry(m.pages, c, v)
    {
      SamePage(v, v);
      var pde := DirEntry(m.pages, c, Pdx(v));
      if Present(pde) { assert m.owner[Ppn(pde)] == Table(c, Pdx(v)); }
    }
  }

  /** A new table changes no address space. */
  lemma TableOwns(m: Mem, d: nat, x: nat, t: nat)
    requires Own(m) && d in m.dirs && x < ENTRIES && !Present(DirEntry(m.pages, d, x))
    requires t in m.owner && m.owner[t] == Held
    ensures Own(TableAdded(m, d, x, t))
    ensures Present(DirEntry(TableAdded(m, d, x, t).pages, d, x))
    ensures Ppn(DirEntry(TableAdded(m, d, x, t).pages, d, x)) == t
    ensures SameSpaces(m.pages, TableAdded(m, d, x, t).pages, m.dirs)
  {
    EntryParts(t, 7);
    TableWalks(m, d, x, t, TableAdded(m, d, x, t).pages);
    hide Entry, DirEntry;
  }

  /** Every address space is the same. */
  ghost predicate SameSpaces(pages: seq<Page>, pages': seq<Page>, dirs: set<nat>) {
    forall d: nat, v: nat {:trigger Entry(pages', d, v)} :: d in dirs && v < VPAGES ==>
      Entry(pages', d, v) == Entry(pages, d, v)
  }

  /** The pages once the entry of virtual page v in the table t is set to e. */
  function Stored(pages: seq<Page>, t: nat, v: nat, e: Uint): seq<Page>
    requires t < |pages| && Ptx(v) < ENTRIES
  {
    pages[t := pages[t][Ptx(v) := e]]
  }

  /** Only the entry for v in directory d changed; it is now e. */
  ghost predicate OneEntry(pages: seq<Page>, pages': seq<Page>, dirs: set<nat>, d: nat, v: nat, e: Uint) {
    && (forall c: nat, x: nat {:trigger DirEntry(pages', c, x)} :: c in dirs ==>
          DirEntry(pages', c, x) == DirEntry(pages, c, x))
    && (forall c: nat, w: nat {:trigger Entry(pages', c, w)} :: c in dirs && w < VPAGES ==>
          Entry(pages', c, w) == if c == d && w == v then e else Entry(pages, c, w))
  }

  /** Directory d has table t for virtual page v. */
  ghost predicate HasTable(m: Mem, d: nat, v: nat, t: nat) {
    && d in m.dirs && v < VPAGES && t < |m.pages| && Ptx(v) < ENTRIES && Pdx(v) < ENTRIES
    && Present(DirEntry(m.pages, d, Pdx(v))) && Ppn(DirEntry(m.pages, d, Pdx(v))) == t
  }

  /** A store through the two levels changes one page's entry in one address space and nothing else. */
  lemma StoreWalks(m: Mem, d: nat, v: nat, t: nat, e: Uint)
    requires Own(m) && HasTable(m, d, v, t)
    ensures OneEntry(m.pages, Stored(m.pages, t, v, e), m.dirs, d, v, e)
  {
    var pages' := Stored(m.pages, t, v, e);
    assert m.owner[t] == Table(d, Pdx(v));
    forall c: nat, w: nat | c in m.dirs && w < VPAGES
      ensures Entry(pages', c, w) == if c == d && w == v then e else Entry(m.pages, c, w)
    {
      SamePage(v, w);
      var pde := DirEntry(m.pages, c, Pdx(w));
      if Present(pde) { assert m.owner[Ppn(pde)] == Table(c, Pdx(w)); }
    }
  }

  /** mappages: a page beyond the user part needs no owner. */
  lemma MapKernelOwns(m: Mem, d: nat, v: nat, t: nat, e: Uint)
    requires Own(m) && HasTable(m, d, v, t) && v >= UPAGES && !UserBit(e)
    ensures Own(m.(pages := Stored(m.pages, t, v, e)))
  {
    StoreWalks(m, d, v, t, e);
    hide Entry, DirEntry;
  }

  /** mappages: the held page p becomes user page v of directory d. */
  lemma MapUserOwns(m: Mem, d: nat, v: nat, t: nat, p: nat, perm: nat)
    requires Own(m) && HasTable(m, d, v, t) && v < UPAGES && !Present(Entry(m.pages, d, v))
    requires p in m.owner && m.owner[p] == Held && perm < 4096
    ensures p < VPAGES
    ensures Own(m.(pages := Stored(m.pages, t, v, MakeEntry(p, perm)), owner := m.owner[p := User(d, v)]))
  {
    EntryParts(p, perm);
    StoreWalks(m, d, v, t, MakeEntry(p, perm));
    hide Entry, DirEntry, MakeEntry;
  }

  /** mappages: a shared page is mapped and keeps its owner. */
  lemma MapSharedOwns(m: Mem, d: nat, v: nat, t: nat, p: nat, perm: nat)
    requires Own(m) && HasTable(m, d, v, t) && v < UPAGES && !Present(Entry(m.pages, d, v))
    requires p in m.owner && m.owner[p].Shared? && perm < 4096
    ensures p < VPAGES
    ensures Own(m.(pages := Stored(m.pages, t, v, MakeEntry(p, perm))))
  {
    EntryParts(p, perm);
    StoreWalks(m, d, v, t, MakeEntry(p, perm));
    hide Entry, DirEntry, MakeEntry;
  }

  /** Clearing an entry releases the user page that it mapped. */
  lemma UnmapUserOwns(m: Mem, d: nat, v: nat, t: nat, p: nat)
    requires Own(m) && HasTable(m, d, v, t) && v < UPAGES
    requires Present(Entry(m.pages, d, v)) && Ppn(Entry(m.pages, d, v)) == p && p in m.owner && m.owner[p] == User(d, v)
    ensures Own(m.(pages := Stored(m.pages, t, v, 0), owner := m.owner[p := Held]))
  {
    StoreWalks(m, d, v, t, 0);
    hide Entry, DirEntry;
  }

  /** Clearing the entry of a shared page leaves the page with its region. */
  lemma UnmapSharedOwns(m: Mem, d: nat, v: nat, t: nat)
    requires Own(m) && HasTable(m, d, v, t) && v < UPAGES
    requires Present(Entry(m.pages, d, v)) ==> m.owner[Ppn(Entry(m.pages, d, v))].Shared?
    ensures Own(m.(pages := Stored(m.pages, t, v, 0)))
  {
    StoreWalks(m, d, v, t, 0);
    hide Entry, DirEntry;
  }

  // ---- what an operation on one address space leaves alone ----

  /** Page b, used as p, is not d, not a table of d and not one of its user pages lo..hi. */
  predicate Outside(b: nat, p: Place, d: nat, lo: nat, hi: nat) {
    match p
    case Held => true
    case Shared(_, _) => true
    case Dir => b != d
    case Table(c, _) => c != d
    case User(c, v) => c != d || v < lo || v >= hi
  }

  /**
   * Outside the tables and the user pages lo..hi of d, and apart from the pages x, every page keeps its
   * use and contents and no page gains one.
   */
  ghost predicate Frame(m: Mem, m': Mem, d: nat, lo: nat, hi: nat, x: set<nat>) {
    && m'.low == m.low && |m'.pages| == |m.pages| && m'.dirs - {d} == m.dirs - {d}
    && (forall b :: b in m.owner && b < |m.pages| && b !in x && Outside(b, m.owner[b], d, lo, hi) ==>
          b in m'.owner && m'.owner[b] == m.owner[b] && m'.pages[b] == m.pages[b])
    && (forall b :: b in m'.owner && b !in x && Outside(b, m'.owner[b], d, lo, hi) ==>
          b in m.owner && m.owner[b] == m'.owner[b])
  }

  lemma FrameTrans(a: Mem, b: Mem, c: Mem, d: nat, l: nat, h: nat, x: set<nat>, l': nat, h': nat, y: set<nat>,
                   lo: nat, hi: nat)
    requires Frame(a, b, d, l, h, x) && Frame(b, c, d, l', h', y)
    requires (l >= h || lo <= l <= h <= hi) && (l' >= h' || lo <= l' <= h' <= hi)
    ensures Frame(a, c, d, lo, hi, x + y)
  {
  }

  lemma FrameChain(a: Mem, b: Mem, c: Mem, d: nat, l: nat, h: nat, l': nat, h': nat, lo: nat, hi: nat)
    requires Frame(a, b, d, l, h, {}) && Frame(b, c, d, l', h', {})
    requires (l >= h || lo <= l <= h <= hi) && (l' >= h' || lo <= l' <= h' <= hi)
    ensures Frame(a, c, d, lo, hi, {})
  {
  }

  /** A page that was free before and is one of d's now needs no exception. */
  lemma FrameClose(m: Mem, m': Mem, d: nat, lo: nat, hi: nat, p: nat)
    requires Frame(m, m', d, lo, hi, {p}) && p !in m.owner && (p in m'.owner ==> !Outside(p, m'.owner[p], d, lo, hi))
    ensures Frame(m, m', d, lo, hi, {})
  {
  }

  lemma FrameRefl(m: Mem, d: nat)
    ensures Frame(m, m, d, 0, 0, {}) && SameSpaces(m.pages, m.pages, m.dirs)
  {
  }

  /** The other address spaces are the same. */
  lemma FrameSpaces(m: Mem, m': Mem, d: nat, lo: nat, hi: nat, c: nat, v: nat)
    requires Own(m) && Frame(m, m', d, lo, hi, {}) && c in m.dirs && c != d && v < VPAGES
    ensures c in m'.dirs && Entry(m'.pages, c, v) == Entry(m.pages, c, v)
  {
    SamePage(v, v);
    assert c in m.dirs - {d};
    var pde := DirEntry(m.pages, c, Pdx(v));
    if Present(pde) { assert m.owner[Ppn(pde)] == Table(c, Pdx(v)); }
  }

  lemma TakeFrame(m: Mem, d: nat)
    requires Own(m) && m.free != []
    ensures Frame(m, Taken(m), d, 0, 0, {m.free[0]})
  {
  }

  lemma GiveFrame(m: Mem, d: nat, p: nat, junk: Page)
    requires Own(m) && p in m.owner
    ensures Frame(m, Given(m, p, junk), d, 0, 0, {p})
  {
  }

  lemma TableFrame(m: Mem, d: nat, x: nat, t: nat)
    requires Own(m) && d in m.dirs && x < ENTRIES && t in m.owner
    ensures Frame(m, TableAdded(m, d, x, t), d, 0, 0, {t})
  {
  }

  // ---- composite steps ----

  lemma DirThere(m: Mem, d: nat)
    requires Own(m) && d in m.dirs
    ensures 0 < d < |m.pages| <= UPAGES && d in m.owner && m.owner[d] == Dir
  {
  }

  /** A table that a directory refers to is an allocated page. */
  lemma TableThere(m: Mem, d: nat, x: nat)
    requires Own(m) && d in m.dirs && x < ENTRIES && Present(DirEntry(m.pages, d, x))
    ensures 0 < Ppn(DirEntry(m.pages, d, x)) < |m.pages| && d < |m.pages|
    ensures Ppn(DirEntry(m.pages, d, x)) in m.owner && m.owner[Ppn(DirEntry(m.pages, d, x))] == Table(d, x)
  {
  }

  lemma NewIsUnowned(m: Mem)
    requires Own(m) && m.free != []
    ensures m.free[0] !in m.owner && 0 < m.low <= m.free[0] < |m.pages| <= UPAGES && m.free[0] !in m.dirs
  {
  }

  /** kalloc, memset and the store in the directory: all that walkpgdir does to add a table. */
  lemma NewTable(m: Mem, d: nat, x: nat, m': Mem, head: Uint)
    requires Own(m) && m.free != [] && d in m.dirs && x < ENTRIES && !Present(DirEntry(m.pages, d, x))
    requires Listed(m.pages, head, m.free[1..])
    requires m.free[0] < |m.pages| && m.free[0] < VPAGES && d < |m.pages| && m' == TableAdded(Taken(m), d, x, m.free[0])
    ensures Own(m') && Listed(m'.pages, head, m'.free) && SameSpaces(m.pages, m'.pages, m.dirs)
    ensures Frame(m, m', d, 0, 0, {})
    ensures Present(DirEntry(m'.pages, d, x)) && Ppn(DirEntry(m'.pages, d, x)) == m.free[0]
  {
    var t, m1 := m.free[0], Taken(m);
    TakeOwns(m);
    TableOwns(m1, d, x, t);
    ListedFrame(m1.pages, m'.pages, head, m1.free);
    hide Own, Listed, Entry, DirEntry, SameSpaces, Frame;
    TakeFrame(m, d);
    TableFrame(m1, d, x, t);
    FrameTrans(m, m1, m', d, 0, 0, {t}, 0, 0, {t}, 0, 0);
    assert {t} + {t} == {t};
    NewIsUnowned(m);
    FrameClose(m, m', d, 0, 0, t);
  }

  /** Only the entry for v in directory d changed; it is now e. */
  ghost predicate OneSpace(pages: seq<Page>, pages': seq<Page>, dirs: set<nat>, d: nat, v: nat, e: Uint) {
    forall c: nat, w: nat {:trigger Entry(pages', c, w)} :: c in dirs && w < VPAGES ==>
      Entry(pages', c, w) == if c == d && w == v then e else Entry(pages, c, w)
  }

  /** A user page can be mapped if no other address space owns it. */
  ghost predicate CanMap(owner: map<nat, Place>, v: nat, p: nat) {
    v < UPAGES ==> p in owner && (owner[p] == Held || owner[p].Shared?)
  }

  /** A held page becomes the user page that it is mapped at. */
  function MapOwner(owner: map<nat, Place>, d: nat, v: nat, p: nat): map<nat, Place> {
    if v < UPAGES && p in owner && owner[p] == Held then owner[p := User(d, v)] else owner
  }

  function Adopted(owner: map<nat, Place>, v: nat, p: nat): set<nat> {
    if v < UPAGES && p in owner && owner[p] == Held then {p} else {}
  }

  /** The memory once page p is mapped at v through table t. */
  function Put(m: Mem, d: nat, v: nat, t: nat, p: nat, perm: nat): Mem
    requires t < |m.pages| && Ptx(v) < ENTRIES && p < VPAGES && perm < 4096
  {
    m.(pages := Stored(m.pages, t, v, MakeEntry(p, perm)), owner := MapOwner(m.owner, d, v, p))
  }

  lemma MapOwns(m: Mem, d: nat, v: nat, t: nat, p: nat, perm: nat, m': Mem)
    requires Own(m) && HasTable(m, d, v, t) && !Present(Entry(m.pages, d, v)) && perm < 4096 && p < VPAGES
    requires CanMap(m.owner, v, p) && (v >= UPAGES ==> !UserBit(perm))
    requires m' == Put(m, d, v, t, p, perm)
    ensures Own(m')
  {
    if v >= UPAGES {
      BitsOfEntry(p, perm);
      MapKernelOwns(m, d, v, t, MakeEntry(p, perm));
    } else if m.owner[p] == Held {
      MapUserOwns(m, d, v, t, p, perm);
    } else {
      MapSharedOwns(m, d, v, t, p, perm);
    }
  }

  lemma MapFrame(m: Mem, d: nat, v: nat, t: nat, p: nat, perm: nat, m': Mem)
    requires Own(m) && HasTable(m, d, v, t) && perm < 4096 && p < VPAGES
    requires m' == Put(m, d, v, t, p, perm)
    ensures Frame(m, m', d, 0, 0, Adopted(m.owner, v, p))
    ensures p in m.owner && !m.owner[p].Table? ==> m'.pages[p] == m.pages[p]
    ensures OneSpace(m.pages, m'.pages, m.dirs, d, v, MakeEntry(p, perm))
  {
    assert m.owner[t] == Table(d, Pdx(v));
    StoreWalks(m, d, v, t, MakeEntry(p, perm));
    hide Entry, DirEntry, MakeEntry;
  }

  lemma StoreListed(m: Mem, d: nat, v: nat, t: nat, e: Uint, head: Uint)
    requires Own(m) && HasTable(m, d, v, t) && Listed(m.pages, head, m.free)
    ensures Listed(Stored(m.pages, t, v, e), head, m.free)
  {
    assert m.owner[t] == Table(d, Pdx(v));
    ListedFrame(m.pages, Stored(m.pages, t, v, e), head, m.free);
  }

  lemma FrameKeeps(m: Mem, m': Mem, d: nat, lo: nat, hi: nat, x: set<nat>, b: nat)
    requires Frame(m, m', d, lo, hi, x) && b in m.owner && b < |m.pages| && b !in x
    requires Outside(b, m.owner[b], d, lo, hi)
    ensures |m'.pages| == |m.pages| && b in m'.owner && m'.owner[b] == m.owner[b] && m'.pages[b] == m.pages[b]
  {
  }

  lemma OwnedInRange(m: Mem, b: nat)
    requires Own(m) && b in m.owner
    ensures 0 < m.low <= b < |m.pages| <= UPAGES && b !in m.free
  {
  }

  lemma SpaceAt(pages: seq<Page>, pages': seq<Page>, dirs: set<nat>, d: nat, v: nat)
    requires SameSpaces(pages, pages', dirs) && d in dirs && v < VPAGES
    ensures Entry(pages', d, v) == Entry(pages, d, v)
  {
  }

  /** walkpgdir and then the store. */
  lemma MapAfterWalk(m: Mem, m1: Mem, m2: Mem, d: nat, v: nat, p: nat, e: Uint)
    requires Own(m) && CanMap(m.owner, v, p)
    requires SameSpaces(m.pages, m1.pages, m.dirs) && m1.dirs == m.dirs
    requires OneSpace(m1.pages, m2.pages, m1.dirs, d, v, e)
    requires Frame(m, m1, d, 0, 0, {}) && Frame(m1, m2, d, 0, 0, Adopted(m1.owner, v, p))
    ensures OneSpace(m.pages, m2.pages, m.dirs, d, v, e) && Frame(m, m2, d, 0, 0, Adopted(m.owner, v, p))
    ensures CanMap(m1.owner, v, p) && (v < UPAGES ==> m1.owner[p] == m.owner[p] && m1.pages[p] == m.pages[p])
  {
    FrameTrans(m, m1, m2, d, 0, 0, {}, 0, 0, Adopted(m1.owner, v, p), 0, 0);
    if v < UPAGES {
      OwnedInRange(m, p);
      FrameKeeps(m, m1, d, 0, 0, {}, p);
    }
    assert {} + Adopted(m1.owner, v, p) == Adopted(m.owner, v, p);
  }

  // ---- deallocation ----

  /** The user page p at v is freed and its entry cleared. */
  function Cut(m: Mem, v: nat, t: nat, p: nat, junk: Page): Mem
    requires t < |m.pages| && p < |m.pages| && Ptx(v) < ENTRIES
  {
    m.(pages := Stored(m.pages[p := junk], t, v, 0), free := [p] + m.free, owner := m.owner - {p})
  }

  lemma CutOwns(m: Mem, d: nat, v: nat, t: nat, p: nat, junk: Page)
    requires Own(m) && HasTable(m, d, v, t) && v < UPAGES && p < |m.pages|
    requires Present(Entry(m.pages, d, v)) && Ppn(Entry(m.pages, d, v)) == p && p in m.owner && m.owner[p] == User(d, v)
    ensures Own(Cut(m, v, t, p, junk)) && OneSpace(m.pages, Cut(m, v, t, p, junk).pages, m.dirs, d, v, 0)
    ensures Frame(m, Cut(m, v, t, p, junk), d, v, v + 1, {})
  {
    var m1 := m.(pages := Stored(m.pages, t, v, 0), owner := m.owner[p := Held]);
    assert m.owner[t] == Table(d, Pdx(v));
    UnmapUserOwns(m, d, v, t, p);
    StoreWalks(m, d, v, t, 0);
    GiveOwns(m1, p, junk);
    hide Own, Entry, DirEntry;
    assert Given(m1, p, junk).pages == Cut(m, v, t, p, junk).pages;
    assert Given(m1, p, junk) == Cut(m, v, t, p, junk);
  }

  /** The present entries lo..hi of d are cleared; nothing else changed. */
  ghost predicate Cleared(pages: seq<Page>, pages': seq<Page>, dirs: set<nat>, d: nat, lo: nat, hi: nat) {
    forall c: nat, w: nat {:trigger Entry(pages', c, w)} :: c in dirs && w < VPAGES ==>
      Entry(pages', c, w) == if c == d && lo <= w < hi && Present(Entry(pages, c, w)) then 0 else Entry(pages, c, w)
  }

  lemma ClearedNone(pages: seq<Page>, dirs: set<nat>, d: nat, lo: nat, hi: nat)
    requires hi <= lo
    ensures Cleared(pages, pages, dirs, d, lo, hi)
  {
  }

  lemma ClearedOne(a: seq<Page>, b: seq<Page>, c: seq<Page>, dirs: set<nat>, d: nat, lo: nat, v: nat)
    requires Cleared(a, b, dirs, d, lo, v) && OneSpace(b, c, dirs, d, v, 0) && d in dirs && lo <= v < VPAGES
    requires Present(Entry(b, d, v))
    ensures Cleared(a, c, dirs, d, lo, v + 1)
  {
    hide Entry;
  }

  lemma ClearedSkip(a: seq<Page>, b: seq<Page>, dirs: set<nat>, d: nat, lo: nat, v: nat, v': nat)
    requires Cleared(a, b, dirs, d, lo, v) && d in dirs && lo <= v <= v'
    requires forall w: nat :: v <= w < v' && w < VPAGES ==> !Present(Entry(b, d, w))
    ensures Cleared(a, b, dirs, d, lo, v')
  {
    hide Entry;
  }

  lemma NoTableAt(pages: seq<Page>, d: nat, v: nat)
    requires !Present(DirEntry(pages, d, Pdx(v)))
    ensures !Present(Entry(pages, d, v))
  {
  }

  /** Without a table, no page of the directory entry is mapped. */
  lemma NoTable(pages: seq<Page>, d: nat, v: nat, w: nat)
    requires !Present(DirEntry(pages, d, Pdx(v))) && v <= w < (Pdx(v) + 1) * ENTRIES
    ensures !Present(Entry(pages, d, w))
  {
  }

  /** Which of d's user pages lo..hi belong to it alone. */
  ghost predicate Private(m: Mem, d: nat, lo: nat, hi: nat) {
    forall v: nat {:trigger Entry(m.pages, d, v)} :: lo <= v < hi && Present(Entry(m.pages, d, v)) ==>
      Ppn(Entry(m.pages, d, v)) in m.owner && m.owner[Ppn(Entry(m.pages, d, v))] == User(d, v)
  }

  lemma PrivateKept(m: Mem, m': Mem, d: nat, v: nat, lo: nat, hi: nat, e: Uint)
    requires Own(m) && Private(m, d, lo, hi) && Frame(m, m', d, v, v + 1, {}) && d in m.dirs && hi <= UPAGES
    requires OneSpace(m.pages, m'.pages, m.dirs, d, v, e) && v < lo
    ensures Private(m', d, lo, hi)
  {
    forall w: nat | lo <= w < hi && Present(Entry(m'.pages, d, w))
      ensures Ppn(Entry(m'.pages, d, w)) in m'.owner && m'.owner[Ppn(Entry(m'.pages, d, w))] == User(d, w)
    {
      assert Entry(m'.pages, d, w) == Entry(m.pages, d, w);
      OwnedInRange(m, Ppn(Entry(m.pages, d, w)));
    }
  }

  lemma OwnedIsNotFree(m: Mem, p: nat)
    requires Own(m) && p in m.owner
    ensures p !in m.free && m.low <= p < |m.pages|
  {
  }

  lemma FreeInRange(m: Mem)
    requires Own(m)
    ensures |m.pages| <= UPAGES && forall i :: 0 <= i < |m.free| ==> m.free[i] < |m.pages|
  {
  }

  lemma PrivateLess(m: Mem, d: nat, lo: nat, hi: nat, lo': nat)
    requires Private(m, d, lo, hi) && lo <= lo'
    ensures Private(m, d, lo', hi)
  {
  }

  lemma PrivateAt(m: Mem, d: nat, lo: nat, hi: nat, v: nat)
    requires Private(m, d, lo, hi) && lo <= v < hi && Present(Entry(m.pages, d, v))
    ensures Ppn(Entry(m.pages, d, v)) in m.owner && m.owner[Ppn(Entry(m.pages, d, v))] == User(d, v)
  {
  }

  // ---- giving up an address space ----

  /** The pages of d's address space: itself, its tables and its user pages. */
  ghost function Mine(m: Mem, d: nat): set<nat> {
    set b | b in m.owner && !Outside(b, m.owner[b], d, 0, UPAGES)
  }

  /** Directory d is given up; what was its is held, to be freed. */
  ghost function Dropped(m: Mem, d: nat): Mem {
    m.(dirs := m.dirs - {d},
       owner := map b | b in m.owner :: if Outside(b, m.owner[b], d, 0, UPAGES) then m.owner[b] else Held)
  }

  lemma DropIs(m: Mem, d: nat)
    ensures Dropped(m, d) == m.(dirs := Dropped(m, d).dirs, owner := Dropped(m, d).owner)
    ensures Dropped(m, d).dirs == m.dirs - {d}
  {
  }

  lemma DropOwns(m: Mem, d: nat)
    requires Own(m) && d in m.dirs
    requires forall b :: b in m.owner ==> !(m.owner[b].User? && m.owner[b].dir == d)
    ensures Own(Dropped(m, d)) && Frame(m, Dropped(m, d), d, 0, UPAGES, Mine(m, d))
  {
  }

  /** Once all that was d's is free, no exception is left. */
  lemma FrameCloseAll(m: Mem, m': Mem, d: nat, x: set<nat>)
    requires Frame(m, m', d, 0, UPAGES, x) && x == Mine(m, d) && forall b :: b in x ==> b !in m'.owner
    ensures Frame(m, m', d, 0, UPAGES, {})
  {
  }

  /** p is one of d's user pages lo..hi. */
  predicate InUser(p: Place, d: nat, lo: nat, hi: nat) { p.User? && p.dir == d && lo <= p.vpn < hi }

  /** No page but user pages lo..hi of d lost its use, and no page changed or gained one. */
  ghost predicate Removed(owner: map<nat, Place>, owner': map<nat, Place>, d: nat, lo: nat, hi: nat) {
    && (forall b :: b in owner' ==> b in owner && owner'[b] == owner[b])
    && (forall b :: b in owner && b !in owner' ==> InUser(owner[b], d, lo, hi))
  }

  lemma RemovedOne(owner: map<nat, Place>, owner': map<nat, Place>, d: nat, lo: nat, hi: nat, p: nat)
    requires Removed(owner, owner', d, lo, hi) && p in owner' && InUser(owner'[p], d, lo, hi)
    ensures Removed(owner, owner' - {p}, d, lo, hi)
  {
  }

  /** The pages that became free are exactly the user pages lo..hi of d. */
  ghost predicate FreedOnly(m0: Mem, m: Mem, d: nat, lo: nat, hi: nat) {
    forall b :: b in m.free <==> b in m0.free || (b in m0.owner && InUser(m0.owner[b], d, lo, hi))
  }

  /** Removing only such pages and clearing all their entries frees exactly the pages lo..hi, as a full scan would. */
  lemma FreedExactly(m0: Mem, m: Mem, d: nat, lo: nat, hi: nat)
    requires Own(m0) && Own(m) && d in m.dirs && m.dirs == m0.dirs
    requires hi <= UPAGES && |m.pages| == |m0.pages| && m.low == m0.low
    requires Cleared(m0.pages, m.pages, m0.dirs, d, lo, hi) && Removed(m0.owner, m.owner, d, lo, hi)
    ensures FreedOnly(m0, m, d, lo, hi)
  {
    hide Entry, DirEntry, TablesOwned, UsersOwned;
    forall b | b in m0.owner && InUser(m0.owner[b], d, lo, hi) ensures b !in m.owner {
      assert Placed(m0, b, m0.owner[b]);
      assert b in m.owner ==> Placed(m, b, m.owner[b]);
    }
  }

  /** After deallocuvm of the whole user part, no user page is left. */
  lemma NoUserLeft(m: Mem, m0: Mem, d: nat)
    requires Own(m) && d in m.dirs && d in m0.dirs && Cleared(m0.pages, m.pages, m0.dirs, d, 0, UPAGES)
    ensures forall b :: b in m.owner ==> !(m.owner[b].User? && m.owner[b].dir == d)
  {
    hide Entry;
  }

  /** All the pages of d except d itself are the tables of its directory. */
  lemma MineAreTables(m: Mem, d: nat, b: nat)
    requires Own(m) && d in m.dirs && b in Mine(m, d) && b != d
    requires forall b :: b in m.owner ==> !(m.owner[b].User? && m.owner[b].dir == d)
    ensures m.owner[b].Table? && m.owner[b].dir == d && m.owner[b].pdx < ENTRIES
    ensures Present(DirEntry(m.pages, d, m.owner[b].pdx)) && Ppn(DirEntry(m.pages, d, m.owner[b].pdx)) == b
  {
  }

  /** What freevm has left to free after i directory entries. */
  ghost predicate Freeing(m: Mem, m': Mem, d: nat, i: nat) {
    && m'.dirs == m.dirs - {d} && Frame(m, m', d, 0, UPAGES, Mine(m, d))
    && d in m'.owner && m'.owner[d] == Held && d < |m.pages| && m'.pages[d] == m.pages[d]
    && (forall x: nat {:trigger DirEntry(m.pages, d, x)} :: x < ENTRIES && Present(DirEntry(m.pages, d, x)) ==>
          var t := Ppn(DirEntry(m.pages, d, x));
          if x < i then t !in m'.owner else t in m'.owner && m'.owner[t] == Held)
  }

  lemma FreeingBegins(m: Mem, d: nat)
    requires Own(m) && d in m.dirs
    requires forall b :: b in m.owner ==> !(m.owner[b].User? && m.owner[b].dir == d)
    ensures Own(Dropped(m, d)) && Freeing(m, Dropped(m, d), d, 0)
  {
    DropOwns(m, d);
  }

  lemma FreeingTable(m: Mem, m': Mem, d: nat, i: nat, junk: Page)
    requires Own(m) && d in m.dirs && Own(m') && Freeing(m, m', d, i) && i < ENTRIES && Present(DirEntry(m.pages, d, i))
    ensures var t := Ppn(DirEntry(m.pages, d, i));
      t in m'.owner && m'.owner[t] == Held && t < |m'.pages| && Freeing(m, Given(m', t, junk), d, i + 1)
  {
    TableThere(m, d, i);
    DirThere(m, d);
    var t := Ppn(DirEntry(m.pages, d, i));
    forall x: nat | x < ENTRIES && x != i && Present(DirEntry(m.pages, d, x))
      ensures Ppn(DirEntry(m.pages, d, x)) != t
    {
      TableThere(m, d, x);
    }
    hide Own, DirEntry;
    FreeingFrame(m, m', d, t, junk);
  }

  lemma FreeingFrame(m: Mem, m': Mem, d: nat, t: nat, junk: Page)
    requires Frame(m, m', d, 0, UPAGES, Mine(m, d)) && t in Mine(m, d) && t < |m'.pages|
    ensures Frame(m, Given(m', t, junk), d, 0, UPAGES, Mine(m, d))
  {
  }

  lemma FreeingEnds(m: Mem, m': Mem, d: nat, junk: Page)
    requires Own(m) && d in m.dirs && Own(m') && Freeing(m, m', d, ENTRIES)
    requires forall b :: b in m.owner ==> !(m.owner[b].User? && m.owner[b].dir == d)
    ensures d < |m'.pages| && Frame(m, Given(m', d, junk), d, 0, UPAGES, {})
  {
    DirThere(m, d);
    FreeingFrame(m, m', d, d, junk);
    forall b | b in Mine(m, d) ensures b !in Given(m', d, junk).owner {
      if b != d { MineAreTables(m, d, b); }
    }
    hide Own, DirEntry;
    FrameCloseAll(m, Given(m', d, junk), d, Mine(m, d));
  }

  // ---- growth ----

  lemma FillFrame(m: Mem, d: nat, p: nat, page: Page)
    requires p < |m.pages|
    ensures Frame(m, m.(pages := m.pages[p := page]), d, 0, 0, {p})
  {
  }

  lemma TakeThenFill(m: Mem, m2: Mem, d: nat, page: Page)
    requires Own(m) && m.free != [] && m.free[0] < |m.pages| && m2 == Taken(m).(pages := m.pages[m.free[0] := page])
    ensures Frame(m, m2, d, 0, 0, {m.free[0]})
  {
    hide Own, Frame;
    TakeFrame(m, d);
    FillFrame(Taken(m), d, m.free[0], page);
    FrameTrans(m, Taken(m), m2, d, 0, 0, {m.free[0]}, 0, 0, {m.free[0]}, 0, 0);
    assert {m.free[0]} + {m.free[0]} == {m.free[0]};
  }

  /** kalloc, memset and mappages together, when all succeed. */
  lemma GrowFrame(m: Mem, m2: Mem, m3: Mem, d: nat, v: nat, p: nat)
    requires Frame(m, m2, d, 0, 0, {p}) && Frame(m2, m3, d, 0, 0, {p}) && p !in m.owner
    requires p in m3.owner && m3.owner[p] == User(d, v)
    ensures Frame(m, m3, d, v, v + 1, {})
  {
    hide Frame;
    FrameTrans(m, m2, m3, d, 0, 0, {p}, 0, 0, {p}, v, v + 1);
    assert {p} + {p} == {p};
    FrameClose(m, m3, d, v, v + 1, p);
  }

  lemma SpacesThenOne(a: seq<Page>, b: seq<Page>, c: seq<Page>, dirs: set<nat>, d: nat, v: nat, e: Uint)
    requires SameSpaces(a, b, dirs) && OneSpace(b, c, dirs, d, v, e)
    ensures OneSpace(a, c, dirs, d, v, e)
  {
  }

  /** Nothing outside the pages lo..hi of d changed. */
  ghost predicate SameElsewhere(pages: seq<Page>, pages': seq<Page>, dirs: set<nat>, d: nat, lo: nat, hi: nat) {
    forall c: nat, w: nat {:trigger Entry(pages', c, w)} :: c in dirs && w < VPAGES && !(c == d && lo <= w < hi) ==>
      Entry(pages', c, w) == Entry(pages, c, w)
  }

  lemma ElsewhereOne(a: seq<Page>, b: seq<Page>, c: seq<Page>, dirs: set<nat>, d: nat, lo: nat, v: nat, e: Uint)
    requires SameElsewhere(a, b, dirs, d, lo, v) && OneSpace(b, c, dirs, d, v, e) && lo <= v
    ensures SameElsewhere(a, c, dirs, d, lo, v + 1)
  {
  }

  /** User page v of d is its own, writable and zero. */
  ghost predicate ZeroAt(m: Mem, d: nat, v: nat) {
    var e := Entry(m.pages, d, v);
    && Present(e) && Flags(e) == 7 && Ppn(e) in m.owner && m.owner[Ppn(e)] == User(d, v)
    && Ppn(e) < |m.pages| && m.pages[Ppn(e)] == ZeroPage()
  }

  ghost predicate Zeroed(m: Mem, d: nat, lo: nat, hi: nat) {
    forall v: nat {:trigger Entry(m.pages, d, v)} :: lo <= v < hi ==> ZeroAt(m, d, v)
  }

  lemma ZeroedMore(m: Mem, m': Mem, d: nat, lo: nat, v: nat, p: nat)
    requires Own(m) && d in m.dirs && lo <= v < UPAGES && Zeroed(m, d, lo, v) && Frame(m, m', d, v, v + 1, {})
    requires p < VPAGES && OneSpace(m.pages, m'.pages, m.dirs, d, v, MakeEntry(p, 6))
    requires p in m'.owner && m'.owner[p] == User(d, v) && p < |m'.pages| && m'.pages[p] == ZeroPage()
    ensures Zeroed(m', d, lo, v + 1)
  {
    forall w: nat | lo <= w < v + 1 ensures ZeroAt(m', d, w) {
      if w == v {
        EntryParts(p, 6);
        assert Entry(m'.pages, d, v) == MakeEntry(p, 6);
      } else {
        assert Entry(m'.pages, d, w) == Entry(m.pages, d, w);
        assert ZeroAt(m, d, w);
      }
    }
  }

  /** The same pages are mapped, to the same places. */
  ghost predicate SameMaps(pages: seq<Page>, pages': seq<Page>, dirs: set<nat>) {
    forall d: nat, v: nat {:trigger Entry(pages', d, v)} :: d in dirs && v < VPAGES ==>
      Entry(pages', d, v) == Entry(pages, d, v) || (!Present(Entry(pages', d, v)) && !Present(Entry(pages, d, v)))
  }

  /** Growing and then clearing the same range restores every address space. */
  lemma Restored(a: seq<Page>, b: seq<Page>, c: seq<Page>, dirs: set<nat>, d: nat, lo: nat, v: nat, hi: nat)
    requires d in dirs && SameElsewhere(a, b, dirs, d, lo, v)
    requires Cleared(b, c, dirs, d, lo, hi) && lo <= v <= hi <= UPAGES
    requires forall w: nat :: lo <= w < hi ==> !Present(Entry(a, d, w))
    requires forall w: nat :: lo <= w < v ==> Present(Entry(b, d, w))
    ensures SameMaps(a, c, dirs)
  {
    hide Entry;
  }

  lemma FrameSize(m: Mem, m': Mem, d: nat, lo: nat, hi: nat, x: set<nat>)
    requires Frame(m, m', d, lo, hi, x) || Frame(m, m', d, lo, hi, {})
    ensures |m'.pages| == |m.pages|
  {
  }

  lemma SameMapsRefl(pages: seq<Page>, dirs: set<nat>)
    ensures SameMaps(pages, pages, dirs)
  {
  }

  lemma GrowBegins(m: Mem, d: nat, lo: nat)
    ensures Zeroed(m, d, lo, lo) && SameElsewhere(m.pages, m.pages, m.dirs, d, lo, lo)
  {
  }

  lemma ElsewhereAt(a: seq<Page>, b: seq<Page>, dirs: set<nat>, d: nat, lo: nat, hi: nat, v: nat)
    requires SameElsewhere(a, b, dirs, d, lo, hi) && d in dirs && !(lo <= v < hi) && v < VPAGES
    ensures Entry(b, d, v) == Entry(a, d, v)
  {
  }

  /** The state in which a growth up to page v failed, with page p, if any, still held. */
  ghost predicate Failing(m0: Mem, m: Mem, d: nat, lo: nat, v: nat, hi: nat, p: nat) {
    && m.dirs == m0.dirs && Private(m, d, lo, hi) && SameElsewhere(m0.pages, m.pages, m0.dirs, d, lo, v)
    && (forall w: nat :: lo <= w < v ==> Present(Entry(m.pages, d, w)))
    && Frame(m0, m, d, lo, hi, HeldBy(p))
  }

  function HeldBy(p: nat): set<nat> { if p == 0 then {} else {p} }

  lemma Rollback(m0: Mem, m1: Mem, m2: Mem, d: nat, lo: nat, v: nat, hi: nat, p: nat)
    requires Own(m1) && d in m0.dirs && m1.dirs == m2.dirs == m0.dirs && lo <= v < hi <= UPAGES
    requires forall w: nat :: lo <= w < hi ==> !Present(Entry(m0.pages, d, w))
    requires Frame(m0, m1, d, lo, hi, {}) && Zeroed(m1, d, lo, v)
    requires SameElsewhere(m0.pages, m1.pages, m0.dirs, d, lo, v)
    requires SameSpaces(m1.pages, m2.pages, m0.dirs) && Frame(m1, m2, d, 0, 0, HeldBy(p)) && p !in m1.owner
    ensures Failing(m0, m2, d, lo, v, hi, p)
  {
    FrameTrans(m0, m1, m2, d, lo, hi, {}, 0, 0, HeldBy(p), lo, hi);
    assert {} + HeldBy(p) == HeldBy(p);
    hide Entry;
    forall w: nat | lo <= w < v
      ensures Entry(m2.pages, d, w) == Entry(m1.pages, d, w) && Present(Entry(m1.pages, d, w))
      ensures Ppn(Entry(m2.pages, d, w)) in m2.owner && m2.owner[Ppn(Entry(m2.pages, d, w))] == User(d, w)
    {
      SpaceAt(m1.pages, m2.pages, m0.dirs, d, w);
      assert ZeroAt(m1, d, w);
      OwnedInRange(m1, Ppn(Entry(m1.pages, d, w)));
      FrameKeeps(m1, m2, d, 0, 0, HeldBy(p), Ppn(Entry(m1.pages, d, w)));
    }
  }

  lemma RollbackEnds(m0: Mem, m2: Mem, m3: Mem, d: nat, lo: nat, v: nat, hi: nat, p: nat)
    requires d in m0.dirs && lo <= v < hi <= UPAGES && m3.dirs == m0.dirs
    requires forall w: nat :: lo <= w < hi ==> !Present(Entry(m0.pages, d, w))
    requires Failing(m0, m2, d, lo, v, hi, p) && Cleared(m2.pages, m3.pages, m0.dirs, d, lo, hi)
    requires Frame(m2, m3, d, lo, hi, {})
    ensures SameMaps(m0.pages, m3.pages, m0.dirs) && Frame(m0, m3, d, lo, hi, HeldBy(p))
  {
    hide Frame, SameElsewhere, Cleared, SameMaps, Entry;
    FrameTrans(m0, m2, m3, d, lo, hi, HeldBy(p), lo, hi, {}, lo, hi);
    assert HeldBy(p) + {} == HeldBy(p);
    Restored(m0.pages, m2.pages, m3.pages, m0.dirs, d, lo, v, hi);
  }

  lemma RollbackFree(m0: Mem, m3: Mem, m4: Mem, d: nat, lo: nat, hi: nat, p: nat, junk: Page)
    requires Own(m3) && p in m3.owner && m3.owner[p] == Held && p < |m3.pages| && m4 == Given(m3, p, junk)
    requires m3.dirs == m0.dirs && lo <= hi && p !in m0.owner && p != 0
    requires SameMaps(m0.pages, m3.pages, m0.dirs) && Frame(m0, m3, d, lo, hi, {p})
    ensures SameMaps(m0.pages, m4.pages, m0.dirs) && Frame(m0, m4, d, lo, hi, {})
  {
    GiveOwns(m3, p, junk);
    GiveFrame(m3, d, p, junk);
    hide Own, Frame, Entry;
    FrameTrans(m0, m3, m4, d, lo, hi, {p}, 0, 0, {p}, lo, hi);
    assert {p} + {p} == {p};
    FrameClose(m0, m4, d, lo, hi, p);
  }

  lemma NoPageZero(m: Mem)
    requires Own(m)
    ensures 0 !in m.owner
  {
  }

  lemma WalkIs(m: Mem, d: nat, v: nat, t: nat)
    requires HasTable(m, d, v, t)
    ensures Entry(m.pages, d, v) == m.pages[t][Ptx(v)]
  {
  }

  lemma NoTables(pages: seq<Page>, d: nat, v: nat, hi: nat)
    requires !Present(DirEntry(pages, d, Pdx(v))) && hi <= (Pdx(v) + 1) * ENTRIES
    ensures forall w: nat :: v <= w < hi ==> !Present(Entry(pages, d, w))
  {
    forall w: nat | v <= w < hi ensures !Present(Entry(pages, d, w)) { NoTable(pages, d, v, w); }
  }

  // ---- the kernel part ----

  /** The entries v..v + n of d map the pages from p on; no other entry changed. */
  ghost predicate RangeSpace(pages: seq<Page>, pages': seq<Page>, dirs: set<nat>, d: nat, v: nat, n: nat, p: nat,
                             perm: nat) {
    && p + n <= VPAGES && perm < 4096
    && forall c: nat, w: nat {:trigger Entry(pages', c, w)} :: c in dirs && w < VPAGES ==>
         Entry(pages', c, w) == if c == d && v <= w < v + n then MakeEntry(p + (w - v), perm) else Entry(pages, c, w)
  }

  lemma RangeMore(a: seq<Page>, b: seq<Page>, c: seq<Page>, dirs: set<nat>, d: nat, v: nat, n: nat, p: nat, perm: nat)
    requires RangeSpace(a, b, dirs, d, v, n, p, perm) && p + n < VPAGES
    requires OneSpace(b, c, dirs, d, v + n, MakeEntry(p + n, perm))
    ensures RangeSpace(a, c, dirs, d, v, n + 1, p, perm)
  {
    hide Entry, MakeEntry;
  }

  lemma RangeNone(pages: seq<Page>, dirs: set<nat>, d: nat, v: nat, p: nat, perm: nat)
    requires p <= VPAGES && perm < 4096
    ensures RangeSpace(pages, pages, dirs, d, v, 0, p, perm)
  {
  }

  lemma RangeAt(a: seq<Page>, b: seq<Page>, dirs: set<nat>, d: nat, v: nat, n: nat, p: nat, perm: nat, w: nat)
    requires RangeSpace(a, b, dirs, d, v, n, p, perm) && d in dirs && !(v <= w < v + n) && w < VPAGES
    ensures Entry(b, d, w) == Entry(a, d, w)
  {
  }

  /** One line of kmap, in pages. */
  datatype Range = Range(v: nat, p: nat, n: nat, perm: nat)

  const EXTPAGES := 0x100                  // EXTMEM
  const PHYSPAGES := 0xE000                // PHYSTOP
  const DEVPAGE := 0xFE000                 // DEVSPACE

  /** kmap, where data is the page of the first kernel datum. */
  function Kmap(data: nat): (l: seq<Range>)
    requires EXTPAGES < data < PHYSPAGES
    ensures |l| == 4
  {
    [Range(UPAGES, 0, EXTPAGES, 2), Range(UPAGES + EXTPAGES, EXTPAGES, data - EXTPAGES, 0),
     Range(UPAGES + data, data, PHYSPAGES - data, 2), Range(DEVPAGE, DEVPAGE, VPAGES - DEVPAGE, 2)]
  }

  /** What the kernel part of every address space holds at w. */
  function KernelEntry(data: nat, w: nat): Uint
    requires EXTPAGES < data < PHYSPAGES
  {
    if UPAGES + EXTPAGES <= w < UPAGES + data then MakeEntry(w - UPAGES, 0)
    else if UPAGES <= w < UPAGES + PHYSPAGES then MakeEntry(w - UPAGES, 2)
    else if DEVPAGE <= w < VPAGES then MakeEntry(w, 2)
    else 0
  }

  /** The first k lines of kmap are mapped in d and nothing else is. */
  ghost predicate KernelUpTo(pages: seq<Page>, d: nat, data: nat, k: nat)
    requires EXTPAGES < data < PHYSPAGES && k <= 4
  {
    forall w: nat {:trigger Entry(pages, d, w)} :: w < VPAGES ==>
      Entry(pages, d, w) == if exists j :: 0 <= j < k && InRange(Kmap(data)[j], w) then KernelEntry(data, w) else 0
  }

  predicate InRange(r: Range, w: nat) { r.v <= w < r.v + r.n }

  /** The directory entries that the first k lines of kmap need. */
  ghost function TablesUpTo(data: nat, k: nat): set<nat>
    requires EXTPAGES < data < PHYSPAGES && k <= 4
  {
    set x: nat | x < ENTRIES && Spanned(data, k, x)
  }

  ghost predicate Spanned(data: nat, k: nat, x: nat)
    requires EXTPAGES < data < PHYSPAGES && k <= 4
  {
    exists j: nat {:trigger OfLine(data, j, x)} :: j < k && OfLine(data, j, x)
  }

  /** Line j of kmap has a page in directory entry x. */
  predicate OfLine(data: nat, j: nat, x: nat)
    requires EXTPAGES < data < PHYSPAGES
  {
    j < 4 && Spans(Kmap(data)[j].v, Kmap(data)[j].v + Kmap(data)[j].n, x)
  }

  ghost predicate HasTables(pages: seq<Page>, d: nat, data: nat, k: nat)
    requires EXTPAGES < data < PHYSPAGES && k <= 4
  {
    forall x: nat {:trigger HasEntry(pages, d, x)} :: x < ENTRIES ==>
      (HasEntry(pages, d, x) <==> x in TablesUpTo(data, k))
  }

  /** What a new address space takes: its directory, and tables for 224 megabytes of memory and for the devices. */
  const KVMPAGES := 65

  ghost predicate NoLowTables(pages: seq<Page>, d: nat) {
    forall x: nat {:trigger HasEntry(pages, d, x)} :: x < UPAGES / ENTRIES ==> !HasEntry(pages, d, x)
  }

  lemma TablesStart(pages: seq<Page>, d: nat, data: nat)
    requires EXTPAGES < data < PHYSPAGES && d < |pages| && pages[d] == ZeroPage()
    ensures HasTables(pages, d, data, 0) && |TablesUpTo(data, 0)| == 0
  {
    assert TablesUpTo(data, 0) == {};
  }

  lemma TablesMore(pages: seq<Page>, d: nat, data: nat, k: nat)
    requires EXTPAGES < data < PHYSPAGES && k < 4 && HasTables(pages, d, data, k)
    ensures var line := Kmap(data)[k];
      |TablesUpTo(data, k + 1)| == |TablesUpTo(data, k)| + |Untabled(pages, d, line.v, line.v + line.n)|
    ensures |TablesUpTo(data, k + 1)| <= |TablesUpTo(data, 4)|
  {
    hide HasEntry, Kmap, Spans;
    var line := Kmap(data)[k];
    var s, u, t := TablesUpTo(data, k), Untabled(pages, d, line.v, line.v + line.n), TablesUpTo(data, k + 1);
    forall x: nat ensures Spanned(data, k + 1, x) <==> Spanned(data, k, x) || Spans(line.v, line.v + line.n, x) {
      assert OfLine(data, k, x) <==> Spans(line.v, line.v + line.n, x);
    }
    forall x: nat | Spanned(data, k + 1, x) ensures Spanned(data, 4, x) { }
    hide Spanned;
    assert t == s + u && s * u == {};
    SubsetSize(t, TablesUpTo(data, 4));
  }

  lemma TablesNext(pages: seq<Page>, pages': seq<Page>, d: nat, data: nat, k: nat)
    requires EXTPAGES < data < PHYSPAGES && k < 4 && HasTables(pages, d, data, k)
    requires Tabled(pages, pages', d, Kmap(data)[k].v, Kmap(data)[k].v + Kmap(data)[k].n)
    ensures HasTables(pages', d, data, k + 1)
  {
    hide HasEntry, Kmap, Spans;
    var line := Kmap(data)[k];
    forall x: nat ensures Spanned(data, k + 1, x) <==> Spanned(data, k, x) || Spans(line.v, line.v + line.n, x) {
      assert OfLine(data, k, x) <==> Spans(line.v, line.v + line.n, x);
    }
    hide Spanned;
    forall x: nat | x < ENTRIES ensures HasEntry(pages', d, x) <==> x in TablesUpTo(data, k + 1) {
      assert HasEntry(pages, d, x) <==> x in TablesUpTo(data, k);
    }
  }

  /** The four lines together span 56 tables from KERNBASE on, and the last eight. */
  lemma AllLines(data: nat, x: nat)
    requires EXTPAGES < data < PHYSPAGES && x < ENTRIES
    ensures x in TablesUpTo(data, 4) <==> 512 <= x < 568 || 1016 <= x
  {
    hide Kmap;
    KmapIs(data);
    assert Spanned(data, 4, x) <==>
      OfLine(data, 0, x) || OfLine(data, 1, x) || OfLine(data, 2, x) || OfLine(data, 3, x);
  }

  lemma KmapIs(data: nat)
    requires EXTPAGES < data < PHYSPAGES
    ensures var l := Kmap(data);
      && l[0].v == UPAGES && l[0].v + l[0].n == UPAGES + EXTPAGES
      && l[1].v == UPAGES + EXTPAGES && l[1].v + l[1].n == UPAGES + data
      && l[2].v == UPAGES + data && l[2].v + l[2].n == UPAGES + PHYSPAGES
      && l[3].v == DEVPAGE && l[3].v + l[3].n == VPAGES
  {
  }

  function Interval(lo: nat, hi: nat): (s: set<nat>)
    requires lo <= hi
    ensures |s| == hi - lo && forall x: nat :: x in s <==> lo <= x < hi
  {
    if lo == hi then {} else Interval(lo, hi - 1) + {hi - 1}
  }

  lemma TwoIntervals(t: set<nat>, a: nat, b: nat, c: nat, d: nat)
    requires a <= b <= c <= d && forall x: nat :: x in t <==> a <= x < b || c <= x < d
    ensures |t| == b - a + (d - c)
  {
    var u, v := Interval(a, b), Interval(c, d);
    assert t == u + v && u * v == {};
  }

  lemma TablesTotal(data: nat)
    requires EXTPAGES < data < PHYSPAGES
    ensures |TablesUpTo(data, 4)| == KVMPAGES - 1
  {
    var t := TablesUpTo(data, 4);
    forall x: nat ensures x in t <==> 512 <= x < 568 || 1016 <= x < ENTRIES {
      if x < ENTRIES { AllLines(data, x); }
    }
    hide TablesUpTo;
    TwoIntervals(t, 512, 568, 1016, ENTRIES);
  }

  lemma TablesLow(pages: seq<Page>, d: nat, data: nat)
    requires EXTPAGES < data < PHYSPAGES && HasTables(pages, d, data, 4)
    ensures NoLowTables(pages, d)
  {
    hide TablesUpTo, HasEntry;
    forall x: nat | x < 512 ensures !HasEntry(pages, d, x) { AllLines(data, x); }
  }

  lemma LackingFirst(pages: seq<Page>, d: nat)
    requires NoLowTables(pages, d)
    ensures Lacking(pages, d, 0) == 1
  {
    assert !HasEntry(pages, d, Pdx(0));
  }

  /** The pages that copying n user pages takes. */
  function CopyPages(n: nat): nat { KVMPAGES + n + (n + ENTRIES - 1) / ENTRIES }

  lemma LowTables(pages: seq<Page>, d: nat, n: nat)
    requires NoLowTables(pages, d) && n <= UPAGES
    ensures |Untabled(pages, d, 0, n)| == (n + ENTRIES - 1) / ENTRIES
  {
    hide HasEntry;
    var m := (n + ENTRIES - 1) / ENTRIES;
    assert Untabled(pages, d, 0, n) == Interval(0, m);
  }

  lemma KmapLine(data: nat, k: nat, w: nat)
    requires EXTPAGES < data < PHYSPAGES && k < 4 && w < VPAGES && InRange(Kmap(data)[k], w)
    ensures var r := Kmap(data)[k];
      && r.perm < 4096 && r.p + (w - r.v) < VPAGES
      && KernelEntry(data, w) == MakeEntry(r.p + (w - r.v), r.perm)
    ensures forall j :: 0 <= j < 4 && j != k ==> !InRange(Kmap(data)[j], w)
  {
  }

  lemma KernelMore(a: seq<Page>, b: seq<Page>, dirs: set<nat>, d: nat, data: nat, k: nat)
    requires EXTPAGES < data < PHYSPAGES && k < 4 && d in dirs && KernelUpTo(a, d, data, k)
    requires var r := Kmap(data)[k]; RangeSpace(a, b, dirs, d, r.v, r.n, r.p, r.perm)
    ensures KernelUpTo(b, d, data, k + 1)
  {
    forall w: nat | w < VPAGES
      ensures Entry(b, d, w) ==
        if exists j :: 0 <= j < k + 1 && InRange(Kmap(data)[j], w) then KernelEntry(data, w) else 0
    {
      hide Entry, KernelEntry, MakeEntry;
      if InRange(Kmap(data)[k], w) { KmapLine(data, k, w); }
    }
  }

  /** d has the kernel's mappings and no user page. */
  ghost predicate KernelOnly(pages: seq<Page>, d: nat, data: nat)
    requires EXTPAGES < data < PHYSPAGES
  {
    forall w: nat {:trigger Entry(pages, d, w)} :: w < VPAGES ==> Entry(pages, d, w) == KernelEntry(data, w)
  }

  lemma KernelAll(pages: seq<Page>, d: nat, data: nat)
    requires EXTPAGES < data < PHYSPAGES && KernelUpTo(pages, d, data, 4)
    ensures KernelOnly(pages, d, data)
  {
    forall w: nat | w < VPAGES ensures Entry(pages, d, w) == KernelEntry(data, w) {
      hide Entry, MakeEntry;
      var ks := Kmap(data);
      if UPAGES <= w < UPAGES + EXTPAGES { assert InRange(ks[0], w); }
      if UPAGES + EXTPAGES <= w < UPAGES + data { assert InRange(ks[1], w); }
      if UPAGES + data <= w < UPAGES + PHYSPAGES { assert InRange(ks[2], w); }
      if DEVPAGE <= w < VPAGES { assert InRange(ks[3], w); }
    }
  }

  /** A line of kmap that is not yet mapped is free of mappings. */
  lemma KernelGap(pages: seq<Page>, d: nat, data: nat, k: nat, w: nat)
    requires EXTPAGES < data < PHYSPAGES && k < 4 && KernelUpTo(pages, d, data, k)
    requires w < VPAGES && InRange(Kmap(data)[k], w)
    ensures Entry(pages, d, w) == 0
  {
    KmapLine(data, k, w);
  }

  /** A zeroed page becomes a directory with nothing mapped. */
  lemma NewDir(m: Mem, d: nat, m': Mem)
    requires Own(m) && d in m.owner && m.owner[d] == Held && d < |m.pages| && m.pages[d] == ZeroPage()
    requires m' == m.(dirs := m.dirs + {d}, owner := m.owner[d := Dir])
    ensures Own(m') && Frame(m, m', d, 0, 0, {d})
    ensures forall w: nat {:trigger Entry(m'.pages, d, w)} :: w < VPAGES ==> Entry(m'.pages, d, w) == 0
  {
    forall x: nat | x < ENTRIES ensures DirEntry(m.pages, d, x) == 0 { }
    forall w: nat | w < VPAGES ensures Entry(m.pages, d, w) == 0 { SamePage(w, w); }
    hide Entry, DirEntry;
  }

  /** The same pages are in use for the same purposes, with the same contents. */
  ghost predicate SameUse(m: Mem, m': Mem) {
    && m'.low == m.low && |m'.pages| == |m.pages| && m'.dirs == m.dirs && m'.owner == m.owner
    && forall b :: b in m.owner && b < |m.pages| ==> m'.pages[b] == m.pages[b]
  }

  /** An address space that was made and given up again leaves no trace. */
  lemma FrameGone(m: Mem, m': Mem, d: nat)
    requires Own(m) && Own(m') && d !in m.dirs && d !in m'.dirs && Frame(m, m', d, 0, UPAGES, {})
    ensures SameUse(m, m')
  {
    forall b | b in m.owner ensures Outside(b, m.owner[b], d, 0, UPAGES) { assert Placed(m, b, m.owner[b]); }
    forall b | b in m'.owner ensures Outside(b, m'.owner[b], d, 0, UPAGES) { assert Placed(m', b, m'.owner[b]); }
    assert m.dirs - {d} == m.dirs && m'.dirs - {d} == m'.dirs;
    hide Own;
    assert m'.owner == m.owner;
  }

  lemma SetupFrame(m: Mem, m1: Mem, m2: Mem, d: nat)
    requires Frame(m, m1, d, 0, 0, {d}) && Frame(m1, m2, d, 0, 0, {d})
    requires d !in m.owner && d in m2.owner && m2.owner[d] == Dir
    ensures Frame(m, m2, d, 0, 0, {})
  {
    hide Frame;
    FrameTrans(m, m1, m2, d, 0, 0, {d}, 0, 0, {d}, 0, 0);
    assert {d} + {d} == {d};
    FrameClose(m, m2, d, 0, 0, d);
  }

  lemma KernelStarts(pages: seq<Page>, d: nat, data: nat)
    requires EXTPAGES < data < PHYSPAGES
    requires forall w: nat {:trigger Entry(pages, d, w)} :: w < VPAGES ==> Entry(pages, d, w) == 0
    ensures KernelUpTo(pages, d, data, 0)
  {
  }

  /** A directory with only part of the kernel's mappings has no user pages to free. */
  lemma KernelPrivate(m: Mem, pages0: seq<Page>, d: nat, data: nat, k: nat, v: nat, n: nat, p: nat, perm: nat)
    requires EXTPAGES < data < PHYSPAGES && k <= 4 && d in m.dirs && KernelUpTo(pages0, d, data, k)
    requires v >= UPAGES && RangeSpace(pages0, m.pages, m.dirs, d, v, n, p, perm)
    ensures Private(m, d, 0, UPAGES)
  {
    forall w: nat | w < UPAGES ensures !Present(Entry(m.pages, d, w)) {
      RangeAt(pages0, m.pages, m.dirs, d, v, n, p, perm, w);
      assert Entry(pages0, d, w) == 0;
    }
  }

  lemma KernelCanMap(owner: map<nat, Place>, v: nat, p: nat)
    requires v >= UPAGES
    ensures CanMap(owner, v, p) && Adopted(owner, v, p) == {}
  {
  }

  // ---- copying an address space ----

  /** Page w of c is c's own copy of page w of d: the same bytes and the same permissions. */
  ghost predicate TwinAt(m: Mem, d: nat, c: nat, w: nat) {
    var e, f := Entry(m.pages, d, w), Entry(m.pages, c, w);
    && Present(e) && Present(f) && Flags(f) == Flags(e) && Ppn(f) in m.owner && m.owner[Ppn(f)] == User(c, w)
    && Ppn(e) < |m.pages| && Ppn(f) < |m.pages| && m.pages[Ppn(f)] == m.pages[Ppn(e)]
  }

  /** c is a copy of the first v pages of d and has the kernel's mappings and nothing else. */
  ghost predicate CopyUpTo(m: Mem, d: nat, c: nat, v: nat, data: nat)
    requires EXTPAGES < data < PHYSPAGES
  {
    && (forall w: nat {:trigger Entry(m.pages, c, w)} :: w < v ==> TwinAt(m, d, c, w))
    && (forall w: nat {:trigger Entry(m.pages, c, w)} :: v <= w < VPAGES ==>
          Entry(m.pages, c, w) == KernelEntry(data, w))
  }

  lemma CopyStarts(m: Mem, d: nat, c: nat, data: nat)
    requires EXTPAGES < data < PHYSPAGES && KernelOnly(m.pages, c, data)
    ensures CopyUpTo(m, d, c, 0, data)
  {
  }

  lemma TwinKept(m: Mem, m': Mem, d: nat, c: nat, v: nat, w: nat, e: Uint)
    requires Own(m) && d in m.dirs && c in m.dirs && c != d && w < v < UPAGES && TwinAt(m, d, c, w)
    requires OneSpace(m.pages, m'.pages, m.dirs, c, v, e) && Frame(m, m', c, v, v + 1, {})
    ensures TwinAt(m', d, c, w)
  {
    assert Entry(m'.pages, d, w) == Entry(m.pages, d, w) && Entry(m'.pages, c, w) == Entry(m.pages, c, w);
    assert Mappable(m.owner, Ppn(Entry(m.pages, d, w)), d, w);
    FrameKeeps(m, m', c, v, v + 1, {}, Ppn(Entry(m.pages, d, w)));
    FrameKeeps(m, m', c, v, v + 1, {}, Ppn(Entry(m.pages, c, w)));
  }

  lemma CopyMore(m: Mem, m': Mem, d: nat, c: nat, v: nat, data: nat, p: nat)
    requires EXTPAGES < data < PHYSPAGES && Own(m) && d in m.dirs && c in m.dirs && c != d && v < UPAGES && p < VPAGES
    requires CopyUpTo(m, d, c, v, data) && Frame(m, m', c, v, v + 1, {})
    requires Present(Entry(m.pages, d, v)) && Ppn(Entry(m.pages, d, v)) < |m.pages|
    requires OneSpace(m.pages, m'.pages, m.dirs, c, v, MakeEntry(p, Flags(Entry(m.pages, d, v))))
    requires p in m'.owner && m'.owner[p] == User(c, v) && p < |m'.pages|
    requires m'.pages[p] == m.pages[Ppn(Entry(m.pages, d, v))]
    ensures CopyUpTo(m', d, c, v + 1, data)
  {
    var e := Entry(m.pages, d, v);
    PresentFlags(e);
    EntryParts(p, Flags(e));
    assert Mappable(m.owner, Ppn(e), d, v);
    FrameKeeps(m, m', c, v, v + 1, {}, Ppn(e));
    hide Own, Entry, MakeEntry;
    forall w: nat | w < v + 1 ensures TwinAt(m', d, c, w) {
      if w == v {
        assert Entry(m'.pages, d, v) == e && Entry(m'.pages, c, v) == MakeEntry(p, Flags(e));
      } else {
        assert TwinAt(m, d, c, w);
        TwinKept(m, m', d, c, v, w, MakeEntry(p, Flags(e)));
      }
    }
  }

  lemma PresentFlags(e: Uint)
    requires Present(e)
    ensures Flags(e) % 2 == 1 && Flags(e) < 4096
  {
  }

  lemma CopyPrivate(m: Mem, d: nat, c: nat, v: nat, data: nat)
    requires EXTPAGES < data < PHYSPAGES && CopyUpTo(m, d, c, v, data)
    ensures Private(m, c, 0, UPAGES)
  {
    forall w: nat | v <= w < UPAGES ensures !Present(Entry(m.pages, c, w)) { CopyGap(m, d, c, v, data, w); }
    forall w: nat | w < UPAGES && Present(Entry(m.pages, c, w))
      ensures Ppn(Entry(m.pages, c, w)) in m.owner && m.owner[Ppn(Entry(m.pages, c, w))] == User(c, w)
    {
      if w < v { assert TwinAt(m, d, c, w); }
    }
  }

  lemma PrivateSpaces(m: Mem, m': Mem, c: nat, p: nat)
    requires Own(m) && Private(m, c, 0, UPAGES) && c in m.dirs && SameSpaces(m.pages, m'.pages, m.dirs)
    requires Frame(m, m', c, 0, 0, {p}) && p !in m.owner
    ensures Private(m', c, 0, UPAGES)
  {
    forall w: nat | w < UPAGES && Present(Entry(m'.pages, c, w))
      ensures Ppn(Entry(m'.pages, c, w)) in m'.owner && m'.owner[Ppn(Entry(m'.pages, c, w))] == User(c, w)
    {
      SpaceAt(m.pages, m'.pages, m.dirs, c, w);
      OwnedInRange(m, Ppn(Entry(m.pages, c, w)));
      FrameKeeps(m, m', c, 0, 0, {p}, Ppn(Entry(m.pages, c, w)));
    }
  }

  /** Freeing a held page leaves private pages private. */
  lemma PrivateGiven(m: Mem, c: nat, p: nat, junk: Page)
    requires Own(m) && Private(m, c, 0, UPAGES) && c in m.dirs && p in m.owner && m.owner[p] == Held && p < |m.pages|
    ensures Private(Given(m, p, junk), c, 0, UPAGES)
  {
    GiveOwns(m, p, junk);
    hide Entry;
  }

  lemma UserThere(m: Mem, d: nat, v: nat)
    requires Own(m) && d in m.dirs && v < UPAGES && Present(Entry(m.pages, d, v))
    ensures Ppn(Entry(m.pages, d, v)) < |m.pages| && Mappable(m.owner, Ppn(Entry(m.pages, d, v)), d, v)
  {
    assert Mappable(m.owner, Ppn(Entry(m.pages, d, v)), d, v);
  }

  lemma CopyGap(m: Mem, d: nat, c: nat, v: nat, data: nat, w: nat)
    requires EXTPAGES < data < PHYSPAGES && CopyUpTo(m, d, c, v, data) && v <= w < UPAGES
    ensures !Present(Entry(m.pages, c, w))
  {
    assert Entry(m.pages, c, w) == KernelEntry(data, w);
  }

  /** Work on a new address space takes no page away from the others. */
  lemma FrameGrows(m: Mem, m': Mem, c: nat, lo: nat, hi: nat, b: nat)
    requires Own(m) && c !in m.dirs && Frame(m, m', c, lo, hi, {}) && b in m.owner
    ensures b in m'.owner
  {
    assert Placed(m, b, m.owner[b]);
  }

  lemma CopyFreed(m0: Mem, m1: Mem, m2: Mem, c: nat, p: nat, junk: Page)
    requires Own(m2) && Frame(m0, m1, c, 0, UPAGES, {})
    requires Frame(m1, m2, c, 0, 0, {p}) && p in m2.owner && p < |m2.pages|
    requires p !in m0.owner
    ensures Frame(m0, Given(m2, p, junk), c, 0, UPAGES, {})
  {
    var m3 := Given(m2, p, junk);
    GiveFrame(m2, c, p, junk);
    hide Own, Frame;
    FrameTrans(m0, m1, m2, c, 0, UPAGES, {}, 0, 0, {p}, 0, UPAGES);
    assert {} + {p} == {p};
    FrameTrans(m0, m2, m3, c, 0, UPAGES, {p}, 0, 0, {p}, 0, UPAGES);
    assert {p} + {p} == {p};
    FrameClose(m0, m3, c, 0, UPAGES, p);
  }

  // ---- pages of shared regions ----

  lemma ClearSharedFrame(m: Mem, d: nat, v: nat, t: nat)
    requires Own(m) && HasTable(m, d, v, t)
    ensures Frame(m, m.(pages := Stored(m.pages, t, v, 0)), d, 0, 0, {})
    ensures OneSpace(m.pages, Stored(m.pages, t, v, 0), m.dirs, d, v, 0)
  {
    assert m.owner[t] == Table(d, Pdx(v));
    StoreWalks(m, d, v, t, 0);
    hide Entry, DirEntry;
  }

  ghost predicate OfRegion(m: Mem, b: nat, key: nat) {
    b in m.owner && m.owner[b].Shared? && m.owner[b].key == key
  }

  ghost function RegionPages(m: Mem, key: nat): set<nat> {
    set b | b in m.owner && OfRegion(m, b, key)
  }

  /** The region's pages are no longer shared, but not yet freed. */
  ghost function Retired(m: Mem, key: nat): Mem {
    m.(owner := map b | b in m.owner :: if OfRegion(m, b, key) then Held else m.owner[b])
  }

  /** No address space maps a page of the region. */
  ghost predicate Unmapped(m: Mem, key: nat) {
    forall d: nat, v: nat {:trigger Entry(m.pages, d, v)} ::
      d in m.dirs && v < UPAGES && Present(Entry(m.pages, d, v)) ==>
      !OfRegion(m, Ppn(Entry(m.pages, d, v)), key)
  }

  lemma RetireOwns(m: Mem, key: nat, d: nat)
    requires Own(m) && Unmapped(m, key)
    ensures Own(Retired(m, key)) && Frame(m, Retired(m, key), d, 0, 0, RegionPages(m, key))
  {
    hide Entry, DirEntry;
  }

  lemma RetireIs(m: Mem, key: nat)
    ensures Retired(m, key) == m.(owner := Retired(m, key).owner)
    ensures forall b :: b in m.owner <==> b in Retired(m, key).owner
    ensures forall b :: b in m.owner ==> Retired(m, key).owner[b] == if OfRegion(m, b, key) then Held else m.owner[b]
  {
  }

  /** kalloc'd and zeroed, page b becomes page k of region key. */
  lemma ShareOwns(m: Mem, b: nat, key: nat, k: nat)
    requires Own(m) && b in m.owner && m.owner[b] == Held
    ensures Own(m.(owner := m.owner[b := Shared(key, k)]))
  {
  }

  lemma ShareFrame(m: Mem, b: nat, key: nat, k: nat, d: nat)
    requires b in m.owner
    ensures Frame(m, m.(owner := m.owner[b := Shared(key, k)]), d, 0, 0, {b})
  {
  }

  // ---- what user code can reach ----

  /** An entry, of a directory or of a table, that lets user code read, or write. */
  predicate Allows(e: Uint, write: bool) { Present(e) && UserBit(e) && (write ==> WriteBit(e)) }

  /** User code in address space d can read, or write, page v: both levels allow it. */
  predicate Reach(pages: seq<Page>, d: nat, v: nat, write: bool) {
    Allows(DirEntry(pages, d, Pdx(v)), write) && Allows(Entry(pages, d, v), write)
  }

  ghost predicate ReachAll(pages: seq<Page>, d: nat, lo: nat, hi: nat) {
    forall v: nat {:trigger Reach(pages, d, v, true)} :: lo <= v < hi ==> Reach(pages, d, v, true)
  }

  /** Flags 7 are those of a page that the user may read and write. */
  lemma SevenAllows(e: Uint)
    requires Flags(e) == 7
    ensures Allows(e, true) && Allows(e, false)
  {
    var p := e / 4096;
    assert e == p * 4096 + 7;
    QuarterOf(e);
    EvenPlus(p * 2048, 7);
    EvenPlus(p * 1024, 3);
    EvenPlus(p * 512, 1);
  }

  lemma SameFlagsAllow(e: Uint, f: Uint, write: bool)
    requires Flags(e) == Flags(f)
    ensures Allows(e, write) == Allows(f, write)
  {
    FlagsAllow(e, write);
    FlagsAllow(f, write);
  }

  lemma FlagsAllow(e: Uint, write: bool)
    ensures Allows(e, write) <==> var x := Flags(e); x % 2 == 1 && UserBit(x) && (write ==> WriteBit(x))
  {
    var p, x := e / 4096, e % 4096;
    assert e == p * 4096 + x;
    QuarterOf(e);
    QuarterOf(x);
    EvenPlus(p * 2048, x);
    EvenPlus(p * 1024, x / 2);
    EvenPlus(p * 512, x / 2 / 2);
  }

  /** The tables never stand in the way. */
  lemma ReachIff(m: Mem, d: nat, v: nat, write: bool)
    requires Own(m) && d in m.dirs && v < VPAGES
    ensures Reach(m.pages, d, v, write) <==> Allows(Entry(m.pages, d, v), write)
  {
    SamePage(v, v);
    if HasEntry(m.pages, d, Pdx(v)) { SevenAllows(DirEntry(m.pages, d, Pdx(v))); }
  }

  /** User code reaches only pages that are its own or shared, and nothing of the kernel. */
  lemma ReachOwned(m: Mem, d: nat, v: nat, write: bool)
    requires Own(m) && d in m.dirs && v < VPAGES && Reach(m.pages, d, v, write)
    ensures v < UPAGES && Mappable(m.owner, Ppn(Entry(m.pages, d, v)), d, v)
  {
    hide Entry, DirEntry;
    assert UserBit(Entry(m.pages, d, v));
  }

  lemma ReachZeroed(m: Mem, d: nat, lo: nat, hi: nat)
    requires Own(m) && d in m.dirs && Zeroed(m, d, lo, hi) && hi <= VPAGES
    ensures ReachAll(m.pages, d, lo, hi)
  {
    forall v: nat | lo <= v < hi ensures Reach(m.pages, d, v, true) {
      hide Own, Entry, DirEntry;
      assert ZeroAt(m, d, v);
      SevenAllows(Entry(m.pages, d, v));
      ReachIff(m, d, v, true);
    }
  }

  /** c's user may do with its copies what d's user may do with the originals. */
  ghost predicate SameReach(pages: seq<Page>, d: nat, c: nat, hi: nat) {
    forall v: nat, write: bool {:trigger Reach(pages, c, v, write)} :: v < hi ==>
      Reach(pages, c, v, write) == Reach(pages, d, v, write)
  }

  lemma ReachTwin(m: Mem, d: nat, c: nat, v: nat, write: bool)
    requires Own(m) && d in m.dirs && c in m.dirs && v < VPAGES && TwinAt(m, d, c, v)
    ensures Reach(m.pages, c, v, write) == Reach(m.pages, d, v, write)
  {
    hide Own, Entry, DirEntry, Reach, Allows;
    SameFlagsAllow(Entry(m.pages, d, v), Entry(m.pages, c, v), write);
    ReachIff(m, d, v, write);
    ReachIff(m, c, v, write);
  }

  lemma ReachCopied(m: Mem, d: nat, c: nat, hi: nat, data: nat)
    requires Own(m) && d in m.dirs && c in m.dirs && EXTPAGES < data < PHYSPAGES && hi <= UPAGES
    requires CopyUpTo(m, d, c, hi, data)
    ensures SameReach(m.pages, d, c, hi)
  {
    hide Own, Entry, DirEntry, TwinAt, Reach;
    forall v: nat, write: bool | v < hi ensures Reach(m.pages, c, v, write) == Reach(m.pages, d, v, write) {
      var e := Entry(m.pages, c, v);
      ReachTwin(m, d, c, v, write);
    }
  }

  lemma ReachMapped(m: Mem, d: nat, v: nat, p: nat)
    requires Own(m) && d in m.dirs && v < UPAGES && p < VPAGES && Entry(m.pages, d, v) == MakeEntry(p, 6)
    ensures Reach(m.pages, d, v, true) && Reach(m.pages, d, v, false)
  {
    hide Own, Entry, DirEntry;
    EntryParts(p, 6);
    SevenAllows(MakeEntry(p, 6));
    ReachIff(m, d, v, true);
    ReachIff(m, d, v, false);
  }

  /**
   * The kernel's part of an address space: physical memory from KERNBASE on, the kernel's instructions read-only,
   * and the devices at their own addresses, none of it for user code.
   */
  lemma KernelMeans(m: Mem, d: nat, data: nat, w: nat)
    requires Own(m) && d in m.dirs && EXTPAGES < data < PHYSPAGES && KernelOnly(m.pages, d, data) && w < VPAGES
    ensures var e := Entry(m.pages, d, w);
      && !Reach(m.pages, d, w, false)
      && (Present(e) <==> UPAGES <= w < UPAGES + PHYSPAGES || DEVPAGE <= w)
      && (Present(e) ==> Ppn(e) == if w < DEVPAGE then w - UPAGES else w)
      && (Present(e) ==> (WriteBit(e) <==> !(UPAGES + EXTPAGES <= w < UPAGES + data)))
  {
    assert Entry(m.pages, d, w) == KernelEntry(data, w);
    ReachIff(m, d, w, false);
    hide Own, Entry, DirEntry;
    if UPAGES <= w < UPAGES + PHYSPAGES {
      var perm := if UPAGES + EXTPAGES <= w < UPAGES + data then 0 else 2;
      EntryParts(w - UPAGES, perm);
      BitsOfEntry(w - UPAGES, perm);
    } else if DEVPAGE <= w {
      EntryParts(w, 2);
      BitsOfEntry(w, 2);
    }
  }
}
