/**
 * kalloc.c and the page table routines of vm.c, on physical memory as an array of pages.  The free list is
 * linked through the free pages themselves.
 */
module VmCode {
  import opened Common
  import opened Paging

  /** What copying an address space comes to; Panic means that a page below the size was not mapped. */
  datatype Copy = Copied(dir: nat) | NoRoom | Panic

  /** What mapping a page comes to; Remap is a panic. */
  datatype Outcome = Mapped | NoMemory | Remap

  class Machine {
    const low: nat                       // the first page after the kernel
    const data: nat                      // the page of the first kernel datum
    var pages: seq<Page>
    var freelist: Uint
    ghost var free: seq<nat>
    ghost var dirs: set<nat>
    ghost var owner: map<nat, Place>

    /** The kernel's own pages end at low; the rest of physical memory is allocated but unused. */
    constructor (low: nat, data: nat, pages: seq<Page>)
      requires 0 < low <= |pages| <= UPAGES && EXTPAGES < data < PHYSPAGES
      ensures Valid() && fresh(this) && this.low == low && this.data == data && this.pages == pages && dirs == {}
      ensures free == [] && forall b: nat :: low <= b < |pages| ==> b in owner && owner[b] == Held
    {
      this.low, this.data, this.pages, freelist, free, dirs := low, data, pages, 0, [], {};
      owner := map b: nat | low <= b < |pages| && Between(low, b, |pages|) :: Held;
    }

    ghost function M(): Mem
      reads this
    {
      Mem(low, pages, free, dirs, owner)
    }

    ghost predicate Valid()
      reads this
    {
      Listed(pages, freelist, free) && Own(M())
    }

    /**
     * Fills the page at address v with junk and puts it at the head of the free list; false, which is a panic, if v
     * is not the address of a page after the kernel.
     */
    method Kfree(v: Uint) returns (ok: bool)
      requires Listed(pages, freelist, free) && low <= |pages| <= UPAGES
      requires v >= UPAGES * 4096 ==> PageAt(v) !in free
      requires forall i :: 0 <= i < |free| ==> free[i] < |pages|
      modifies this`pages, this`freelist, this`free
      ensures ok <==> v % 4096 == 0 && UPAGES * 4096 <= v && low <= PageAt(v) < |old(pages)|
      ensures !ok ==> M() == old(M()) && freelist == old(freelist)
      ensures Listed(pages, freelist, free)
      ensures ok ==> pages == old(pages)[PageAt(v) := Junk(old(freelist))] && free == [PageAt(v)] + old(free)
      ensures ok ==> freelist == v && pages[PageAt(v)][0] == old(freelist)
      ensures ok ==> forall k :: 0 < k < ENTRIES ==> pages[PageAt(v)][k] == 0x0101_0101
    {
      if v % 4096 != 0 || v < (UPAGES + low) * 4096 || v - UPAGES * 4096 >= |pages| * 4096 {
        OutsidePages(v, low, |pages|);
        return false;
      }
      InsidePages(v, low, |pages|);
      var p := PageAt(v);
      GiveListed(pages, freelist, free, p);
      pages := pages[p := Junk(freelist)];
      freelist := v;
      free := [p] + free;
      ok := true;
    }

    /** kfree of an allocated page that no page table refers to. */
    method FreeHeld(p: nat)
      requires Valid() && p in owner && owner[p] == Held
      modifies this`pages, this`freelist, this`free, this`owner
      ensures Valid() && old(p < |pages|) && M() == Given(old(M()), p, Junk(old(freelist)))
    {
      GiveOwns(M(), p, Junk(freelist));
      hide Listed;
      AddrPage(p);
      var ok := Kfree(Addr(p));
      owner := owner - {p};
    }

    /** Takes a page off the free list; 0 when it is empty. */
    method Kalloc() returns (p: nat)
      requires Valid()
      modifies this`freelist, this`free, this`owner
      ensures Valid()
      ensures p == 0 ==> old(free) == [] && M() == old(M())
      ensures p != 0 ==> old(free) != [] && p == old(free)[0] && M() == Taken(old(M()))
    {
      p := 0;
      if freelist != 0 {
        TakeOwns(M());
        p := freelist / 4096 - UPAGES;
        freelist := pages[p][0];
        free, owner := free[1..], owner[p := Held];
      }
    }

    /** memset or memmove of a whole page that is in no page table. */
    method Fill(p: nat, page: Page)
      requires Valid() && p in owner && owner[p] == Held
      modifies this`pages
      ensures Valid() && old(p < |pages|) && pages == old(pages)[p := page]
      ensures SameSpaces(old(pages), pages, dirs)
    {
      hide Entry, DirEntry;
      FillOwns(M(), p, page);
      ListedFrame(pages, pages[p := page], freelist, free);
      pages := pages[p := page];
    }

    /** The table for virtual page v, created if alloc; 0 when there is none. */
    method Walk(d: nat, v: nat, alloc: bool) returns (t: nat)
      requires Valid() && d in dirs && v < VPAGES
      modifies this`pages, this`freelist, this`free, this`owner
      ensures Valid() && SameSpaces(old(pages), pages, dirs) && Frame(old(M()), M(), d, 0, 0, {})
      ensures t != 0 ==> HasTable(M(), d, v, t)
      ensures |free| + 1 >= |old(free)| && old(owner).Keys <= owner.Keys
      ensures t == 0 ==> M() == old(M()) && !Present(DirEntry(pages, d, Pdx(v))) && (alloc ==> free == [])
      ensures !alloc || old(HasEntry(pages, d, Pdx(v))) ==> M() == old(M()) && freelist == old(freelist)
      ensures t == 0 <==> !old(HasEntry(pages, d, Pdx(v))) && (alloc ==> old(free) == [])
      ensures t != 0 ==> Tabled(old(pages), pages, d, v, v + 1)
      ensures t != 0 && !old(HasEntry(pages, d, Pdx(v))) ==> |free| + 1 == |old(free)|
    {
      hide Own, Listed, Frame, Entry, SameSpaces, Tabled;
      SamePage(v, v);
      FrameRefl(M(), d);
      DirThere(M(), d);
      TabledNone(pages, d, v);
      var pde := pages[d][Pdx(v)];
      if Present(pde) {
        TableThere(M(), d, Pdx(v));
        return Ppn(pde);
      }
      if !alloc { return 0; }
      ghost var m0 := M();
      t := Kalloc();
      if t != 0 {
        NewIsUnowned(m0);
        NewTable(m0, d, Pdx(v), TableAdded(Taken(m0), d, Pdx(v), t), freelist);
        OddEntry(t, 7, 7);
        TableTabled(pages, d, v, t, t * 4096 + 7);
        pages := pages[t := ZeroPage()];
        pages := pages[d := pages[d][Pdx(v) := t * 4096 + 7]];
        owner := owner[t := Table(d, Pdx(v))];
      }
    }

    /** One turn of mappages: sets the entry, unless the page is mapped already. */
    method MapPage(d: nat, v: nat, p: nat, perm: nat) returns (r: Outcome)
      requires Valid() && d in dirs && v < VPAGES && p < VPAGES && perm < 4096 && CanMap(owner, v, p)
      requires v >= UPAGES ==> !UserBit(perm)
      modifies this`pages, this`freelist, this`free, this`owner
      ensures Valid()
      ensures |free| + 1 >= |old(free)| && old(owner).Keys <= owner.Keys
      ensures r.Remap? <==> Present(old(Entry(pages, d, v)))
      ensures r.Remap? ==> M() == old(M())
      ensures r.NoMemory? ==> M() == old(M())
      ensures r.NoMemory? <==> old(free) == [] && !old(HasEntry(pages, d, Pdx(v)))
      ensures r.Mapped? ==> Tabled(old(pages), pages, d, v, v + 1)
      ensures r.Mapped? ==> |old(free)| == |free| + if old(HasEntry(pages, d, Pdx(v))) then 0 else 1
      ensures r.Mapped? ==> OneSpace(old(pages), pages, dirs, d, v, MakeEntry(p, perm))
      ensures r.Mapped? ==> Frame(old(M()), M(), d, 0, 0, Adopted(old(owner), v, p))
      ensures r.Mapped? && p in old(owner) && old(owner)[p] == Held && v < UPAGES ==>
        p < |pages| == |old(pages)| && p in owner && owner[p] == User(d, v) && pages[p] == old(pages)[p]
    {
      hide Own, Listed, Frame, SameSpaces, OneSpace, Tabled, HasEntry;
      ghost var m0 := M();
      EntryHasTable(pages, d, v);
      var t := Walk(d, v, true);
      if t == 0 { return NoMemory; }
      ghost var m1 := M();
      SpaceAt(m0.pages, pages, dirs, d, v);
      if Present(pages[t][Ptx(v)]) { return Remap; }
      if v < UPAGES { OwnedInRange(m0, p); FrameKeeps(m0, m1, d, 0, 0, {}, p); }
      MapOwns(m1, d, v, t, p, perm, Put(m1, d, v, t, p, perm));
      MapFrame(m1, d, v, t, p, perm, Put(m1, d, v, t, p, perm));
      StoreListed(m1, d, v, t, MakeEntry(p, perm), freelist);
      pages := pages[t := pages[t][Ptx(v) := MakeEntry(p, perm)]];
      owner := MapOwner(owner, d, v, p);
      MapAfterWalk(m0, m1, M(), d, v, p, MakeEntry(p, perm));
      TableIsNoDir(m1, d, v, t);
      TabledKept(m0.pages, m1.pages, pages, d, v, v + 1);
      r := Mapped;
    }

    /** Frees a user page and clears its entry. */
    method FreePage(d: nat, v: nat, t: nat)
      requires Valid() && HasTable(M(), d, v, t) && v < UPAGES
      requires Present(Entry(pages, d, v)) && Ppn(Entry(pages, d, v)) in owner
      requires owner[Ppn(Entry(pages, d, v))] == User(d, v)
      modifies this`pages, this`freelist, this`free, this`owner
      ensures Valid() && OneSpace(old(pages), pages, dirs, d, v, 0) && Frame(old(M()), M(), d, v, v + 1, {})
      ensures dirs == old(dirs) && owner == old(owner - {Ppn(Entry(pages, d, v))})
    {
      hide Own, Listed, Frame, OneSpace, Entry, DirEntry, Junk, PageAt;
      WalkIs(M(), d, v, t);
      var p := Ppn(pages[t][Ptx(v)]);
      OwnedInRange(M(), p);
      FreeInRange(M());
      OwnedIsNotFree(M(), p);
      TableThere(M(), d, Pdx(v));
      OwnedIsNotFree(M(), t);
      CutOwns(M(), d, v, t, p, Junk(freelist));
      AddrPage(p);
      var ok := Kfree(Addr(p));
      ListedFrame(pages, Stored(pages, t, v, 0), freelist, free);
      pages := pages[t := pages[t][Ptx(v) := 0]];
      owner := owner - {p};
    }

    /** One turn of deallocuvm at address a; next is where the loop goes on. */
    method DeallocTurn(d: nat, a: nat, oldsz: nat, ghost lo: nat, ghost m0: Mem) returns (next: nat)
      requires Valid() && d in dirs && a % 4096 == 0 && lo <= a / 4096 && a < oldsz <= UPAGES * 4096
      requires Private(M(), d, a / 4096, PageUp(oldsz)) && Frame(m0, M(), d, lo, PageUp(oldsz), {})
      requires Cleared(m0.pages, pages, dirs, d, lo, a / 4096) && Removed(m0.owner, owner, d, lo, PageUp(oldsz))
      modifies this`pages, this`freelist, this`free, this`owner
      ensures Valid() && a < next && next % 4096 == 0 && Removed(m0.owner, owner, d, lo, PageUp(oldsz))
      ensures Private(M(), d, next / 4096, PageUp(oldsz)) && Frame(m0, M(), d, lo, PageUp(oldsz), {})
      ensures Cleared(m0.pages, pages, dirs, d, lo, Least(next / 4096, PageUp(oldsz)))
    {
      hide Own, Listed, Frame, OneSpace, Cleared, Private, Entry, DirEntry, Removed, Pdx, Ptx, PageUp;
      ghost var v, hi, m1 := a / 4096, PageUp(oldsz), M();
      SamePage(v, v);
      PageInside(a, oldsz);
      next := a;
      var t := Walk(d, a / 4096, false);
      if t != 0 { WalkIs(M(), d, v, t); }
      if t == 0 {
        next := (Pdx(a / 4096) + 1) * ENTRIES * 4096 - 4096;
        SkipsTable(a);
        NoTables(pages, d, v, Least(next / 4096 + 1, hi));
        ClearedSkip(m0.pages, pages, dirs, d, lo, v, Least(next / 4096 + 1, hi));
        PrivateLess(m1, d, v, hi, next / 4096 + 1);
      } else if Present(pages[t][Ptx(a / 4096)]) {
        PrivateAt(m1, d, v, hi, v);
        RemovedOne(m0.owner, owner, d, lo, hi, Ppn(Entry(pages, d, v)));
        FreePage(d, a / 4096, t);
        ClearedOne(m0.pages, m1.pages, pages, dirs, d, lo, v);
        FrameChain(m0, m1, M(), d, lo, hi, v, v + 1, lo, hi);
        PrivateLess(m1, d, v, hi, v + 1);
        PrivateKept(m1, M(), d, v, v + 1, hi, 0);
      } else {
        ClearedSkip(m0.pages, pages, dirs, d, lo, v, v + 1);
        PrivateLess(m1, d, v, hi, v + 1);
      }
      NextPage(next);
      next := next + 4096;
    }

    /** Unmaps and frees the user pages from PGROUNDUP(newsz) to oldsz, skipping directories without a table. */
    method Deallocuvm(d: nat, oldsz: nat, newsz: nat) returns (sz: nat)
      requires Valid() && d in dirs && oldsz <= UPAGES * 4096 && Private(M(), d, PageUp(newsz), PageUp(oldsz))
      modifies this`pages, this`freelist, this`free, this`owner
      ensures Valid() && sz == if newsz >= oldsz then oldsz else newsz
      ensures Cleared(old(pages), pages, dirs, d, PageUp(newsz), PageUp(oldsz))
      ensures Frame(old(M()), M(), d, PageUp(newsz), PageUp(oldsz), {})
      ensures FreedOnly(old(M()), M(), d, PageUp(newsz), PageUp(oldsz))
    {
      hide Own, Listed, Frame, OneSpace, Entry, Cleared, Private, FreedOnly;
      ghost var m0, lo, hi := M(), PageUp(newsz), PageUp(oldsz);
      ClearedNone(pages, dirs, d, lo, Least(lo, hi));
      FrameRefl(M(), d);
      FrameChain(m0, m0, m0, d, 0, 0, 0, 0, lo, hi);
      if newsz >= oldsz {
        ClearedNone(pages, dirs, d, lo, hi);
        FreedExactly(m0, m0, d, lo, hi);
        return oldsz;
      }
      var a := (newsz + 4095) / 4096 * 4096;
      while a < oldsz
        invariant a % 4096 == 0 && lo <= a / 4096 && Valid()
        invariant Cleared(m0.pages, pages, dirs, d, lo, Least(a / 4096, hi)) && Frame(m0, M(), d, lo, hi, {})
        invariant Private(M(), d, a / 4096, hi) && Removed(m0.owner, owner, d, lo, hi)
        decreases oldsz - a
      {
        a := DeallocTurn(d, a, oldsz, lo, m0);
      }
      FrameSize(m0, M(), d, lo, hi, {});
      FreedExactly(m0, M(), d, lo, hi);
      sz := newsz;
    }

    /** Frees the user pages, the tables and the directory: every page of d's address space and no other. */
    method Freevm(d: nat)
      requires Valid() && d in dirs && Private(M(), d, 0, UPAGES)
      modifies this`pages, this`freelist, this`free, this`owner, this`dirs
      ensures Valid() && dirs == old(dirs) - {d} && Frame(old(M()), M(), d, 0, UPAGES, {})
    {
      hide Own, Listed, Frame, Entry, Cleared, Private, Dropped;
      ghost var m0 := M();
      var sz := Deallocuvm(d, UPAGES * 4096, 0);
      NoUserLeft(M(), m0, d);
      ghost var m1 := M();
      DirThere(m1, d);
      FreeingBegins(m1, d);
      DropIs(m1, d);
      dirs, owner := Dropped(m1, d).dirs, Dropped(m1, d).owner;
      var i := 0;
      while i < ENTRIES
        invariant i <= ENTRIES && Valid() && Freeing(m1, M(), d, i) && |pages| == |m1.pages|
      {
        if Present(pages[d][i]) { FreeTable(d, i, m1); }
        i := i + 1;
      }
      FreeingEnds(m1, M(), d, Junk(freelist));
      FreeHeld(d);
      FrameChain(m0, m1, M(), d, 0, UPAGES, 0, UPAGES, 0, UPAGES);
    }

    method FreeTable(d: nat, i: nat, ghost m1: Mem)
      requires Valid() && Own(m1) && d in m1.dirs && Freeing(m1, M(), d, i) && i < ENTRIES && |pages| == |m1.pages|
      requires Present(pages[d][i])
      modifies this`pages, this`freelist, this`free, this`owner
      ensures Valid() && Freeing(m1, M(), d, i + 1) && |pages| == |m1.pages|
    {
      hide Own, Listed, Frame;
      FreeingTable(m1, M(), d, i, Junk(freelist));
      FreeHeld(Ppn(pages[d][i]));
    }

    /** Clears the entry of a page that is not d's own; false if there is no table. */
    method ClearShared(d: nat, v: nat) returns (ok: bool)
      requires Valid() && d in dirs && v < UPAGES
      requires Present(Entry(pages, d, v)) ==>
        Ppn(Entry(pages, d, v)) in owner && owner[Ppn(Entry(pages, d, v))].Shared?
      modifies this`pages, this`freelist, this`free, this`owner
      ensures Valid() && free == old(free) && owner == old(owner)
      ensures !ok ==> !Present(old(Entry(pages, d, v))) && M() == old(M())
      ensures ok ==> OneSpace(old(pages), pages, dirs, d, v, 0) && Frame(old(M()), M(), d, 0, 0, {})
    {
      hide Own, Listed, Frame, OneSpace, SameSpaces;
      var t := Walk(d, v, false);
      if t == 0 { return false; }
      UnmapSharedOwns(M(), d, v, t);
      ClearSharedFrame(M(), d, v, t);
      StoreListed(M(), d, v, t, 0, freelist);
      pages := pages[t := pages[t][Ptx(v) := 0]];
      ok := true;
    }

    /** kalloc, then a memset or memmove of page, then mappages at v; p is the page, or 0. */
    method GrowPage(d: nat, v: nat, perm: nat, page: Page) returns (r: Outcome, p: nat)
      requires Valid() && d in dirs && v < UPAGES && perm < 4096 && !Present(Entry(pages, d, v))
      modifies this`pages, this`freelist, this`free, this`owner
      ensures Valid() && !r.Remap? && |pages| == |old(pages)|
      ensures |free| + 2 >= |old(free)| && old(owner).Keys <= owner.Keys
      ensures p != 0 ==> p in owner && p !in old(owner) && p < |pages| && p < VPAGES
      ensures r.Mapped? ==> p != 0 && OneSpace(old(pages), pages, dirs, d, v, MakeEntry(p, perm))
      ensures r.Mapped? ==> Frame(old(M()), M(), d, v, v + 1, {}) && owner[p] == User(d, v) && pages[p] == page
      ensures r.NoMemory? ==> SameSpaces(old(pages), pages, dirs)
      ensures r.NoMemory? <==> |old(free)| < 1 + Lacking(old(pages), d, v)
      ensures r.Mapped? ==> |old(free)| == |free| + 1 + Lacking(old(pages), d, v)
      ensures r.Mapped? ==> Tabled(old(pages), pages, d, v, v + 1)
      ensures r.NoMemory? && p == 0 ==> M() == old(M())
      ensures r.NoMemory? && p != 0 ==> owner[p] == Held && Frame(old(M()), M(), d, 0, 0, {p})
    {
      hide Own, Listed, Frame, SameSpaces, OneSpace, Entry, Tabled, HasEntry;
      ghost var m0 := M();
      FrameRefl(m0, d);
      DirThere(m0, d);
      p := Kalloc();
      if p == 0 { return NoMemory, 0; }
      NewIsUnowned(m0);
      Fill(p, page);
      TakeThenFill(m0, M(), d, page);
      ghost var m2 := M();
      SpaceAt(m0.pages, m2.pages, dirs, d, v);
      r := MapPage(d, v, p, perm);
      OwnedInRange(m2, p);
      if r.Mapped? {
        FrameSize(m2, M(), d, 0, 0, {p});
        TabledFrom(m0.pages, m2.pages, pages, d, v, v + 1);
        GrowFrame(m0, m2, M(), d, v, p);
        SpacesThenOne(m0.pages, m2.pages, pages, dirs, d, v, MakeEntry(p, perm));
      } else {
        assert M() == m2;
        SameLacking(m0.pages, m2.pages, d, v);
      }
    }

    /** Grows d from oldsz to newsz with zeroed pages of its own, or leaves every address space as it was. */
    method Allocuvm(d: nat, oldsz: nat, newsz: nat, shaddr: nat) returns (sz: nat)
      requires Valid() && d in dirs && shaddr <= UPAGES * 4096
      requires newsz < shaddr ==> forall w: nat :: PageUp(oldsz) <= w < PageUp(newsz) ==> !Present(Entry(pages, d, w))
      modifies this`pages, this`freelist, this`free, this`owner
      ensures Valid() && dirs == old(dirs)
      ensures newsz >= shaddr ==> sz == 0
      ensures newsz < shaddr && newsz < oldsz ==> sz == oldsz
      ensures newsz >= shaddr || newsz < oldsz ==> M() == old(M())
      ensures newsz < shaddr && oldsz <= newsz ==> sz == newsz || sz == 0
      ensures newsz < shaddr && oldsz <= newsz && newsz > 0 ==>
        (sz == newsz <==> |old(free)| >= PagesFor(old(pages), d, PageUp(oldsz), PageUp(newsz)))
      ensures newsz < shaddr && oldsz <= newsz ==> Frame(old(M()), M(), d, PageUp(oldsz), PageUp(newsz), {})
      ensures newsz < shaddr && oldsz <= newsz && sz == newsz != 0 ==>
        && Zeroed(M(), d, PageUp(oldsz), PageUp(newsz))
        && SameElsewhere(old(pages), pages, dirs, d, PageUp(oldsz), PageUp(newsz))
        && ReachAll(pages, d, PageUp(oldsz), PageUp(newsz))
      ensures sz == 0 && newsz != 0 ==> SameMaps(old(pages), pages, dirs)
    {
      hide Own, Listed, Frame, SameSpaces, OneSpace, Zeroed, SameElsewhere, SameMaps, Private, Cleared, ReachAll,
        Tabled, Untabled, HasEntry;
      if newsz >= shaddr {
        SameMapsRefl(pages, dirs);
        return 0;
      }
      if newsz < oldsz { return oldsz; }
      ghost var m0, lo, hi := M(), PageUp(oldsz), PageUp(newsz);
      FrameRefl(m0, d);
      FrameChain(m0, m0, m0, d, 0, 0, 0, 0, lo, hi);
      GrowBegins(m0, d, lo);
      TabledNone(pages, d, lo);
      var a := (oldsz + 4095) / 4096 * 4096;
      while a < newsz
        invariant a % 4096 == 0 && lo <= a / 4096 <= hi && Valid() && dirs == m0.dirs
        invariant Frame(m0, M(), d, lo, hi, {}) && Zeroed(M(), d, lo, a / 4096)
        invariant SameElsewhere(m0.pages, pages, dirs, d, lo, a / 4096)
        invariant m0.owner.Keys <= owner.Keys && Tabled(m0.pages, pages, d, lo, a / 4096)
        invariant |m0.free| == |free| + PagesFor(m0.pages, d, lo, a / 4096)
      {
        ghost var pages1 := pages;
        PageInside(a, newsz);
        UntabledUp(m0.pages, pages, d, lo, a / 4096);
        UntabledPart(m0.pages, d, lo, a / 4096 + 1, hi);
        var ok := AllocTurn(d, a, oldsz, newsz, m0);
        if !ok { return 0; }
        TabledUp(m0.pages, pages1, pages, d, lo, a / 4096);
        NextPage(a);
        a := a + 4096;
      }
      ReachZeroed(M(), d, lo, hi);
      sz := newsz;
    }

    /** One turn of allocuvm at address a; on failure it has undone the growth. */
    method AllocTurn(d: nat, a: nat, oldsz: nat, newsz: nat, ghost m0: Mem) returns (ok: bool)
      requires Valid() && d in dirs && dirs == m0.dirs && a % 4096 == 0
      requires PageUp(oldsz) <= a / 4096 && a < newsz <= UPAGES * 4096
      requires forall w: nat :: PageUp(oldsz) <= w < PageUp(newsz) ==> !Present(Entry(m0.pages, d, w))
      requires Frame(m0, M(), d, PageUp(oldsz), PageUp(newsz), {}) && Zeroed(M(), d, PageUp(oldsz), a / 4096)
      requires SameElsewhere(m0.pages, pages, dirs, d, PageUp(oldsz), a / 4096) && m0.owner.Keys <= owner.Keys
      modifies this`pages, this`freelist, this`free, this`owner
      ensures Valid() && dirs == m0.dirs && Frame(m0, M(), d, PageUp(oldsz), PageUp(newsz), {})
      ensures ok ==> Zeroed(M(), d, PageUp(oldsz), a / 4096 + 1) && m0.owner.Keys <= owner.Keys
      ensures ok <==> |old(free)| >= 1 + Lacking(old(pages), d, a / 4096)
      ensures ok ==> |old(free)| == |free| + 1 + Lacking(old(pages), d, a / 4096)
      ensures ok ==> Tabled(old(pages), pages, d, a / 4096, a / 4096 + 1)
      ensures ok ==> SameElsewhere(m0.pages, pages, dirs, d, PageUp(oldsz), a / 4096 + 1)
      ensures !ok ==> SameMaps(m0.pages, pages, dirs)
    {
      hide Own, Listed, Frame, SameSpaces, OneSpace, Zeroed, SameElsewhere, SameMaps, Private, Cleared, Entry, Tabled,
        HasEntry;
      ghost var lo, hi, v, m1 := PageUp(oldsz), PageUp(newsz), a / 4096, M();
      ElsewhereAt(m0.pages, pages, dirs, d, lo, v, v);
      var r, p := GrowPage(d, a / 4096, 6, ZeroPage());
      ok := r.Mapped?;
      ghost var m2 := M();
      if ok {
        FrameChain(m0, m1, m2, d, lo, hi, v, v + 1, lo, hi);
        ElsewhereOne(m0.pages, m1.pages, pages, dirs, d, lo, v, MakeEntry(p, 6));
        ZeroedMore(m1, m2, d, lo, v, p);
        return;
      }
      FrameRefl(m1, d);
      NoPageZero(m1);
      Rollback(m0, m1, m2, d, lo, v, hi, p);
      var sz := Deallocuvm(d, newsz, oldsz);
      ghost var m3 := M();
      RollbackEnds(m0, m2, m3, d, lo, v, hi, p);
      if p != 0 {
        OwnedInRange(m2, p);
        FrameKeeps(m2, m3, d, lo, hi, {}, p);
        RollbackFree(m0, m3, Given(m3, p, Junk(freelist)), d, lo, hi, p, Junk(freelist));
        FreeHeld(p);
      }
    }

    /** Frees the pages lo..hi one by one. */
    method Freerange(lo: nat, hi: nat)
      requires Valid() && lo <= hi && forall b: nat :: lo <= b < hi ==> b in owner && owner[b] == Held
      modifies this`pages, this`freelist, this`free, this`owner
      ensures Valid() && |free| == |old(free)| + hi - lo
      ensures forall b :: b in owner <==> b in old(owner) && !(lo <= b < hi)
      ensures forall b :: b in owner ==> owner[b] == old(owner)[b]
    {
      hide Own, Listed;
      var p := lo;
      while p < hi
        invariant lo <= p <= hi && Valid() && |free| == |old(free)| + p - lo
        invariant forall b :: b in owner <==> b in old(owner) && !(lo <= b < p)
        invariant forall b :: b in owner ==> owner[b] == old(owner)[b]
      {
        FreeHeld(p);
        p := p + 1;
      }
    }

    /** Maps size bytes from va on to the pages from pa on; j turns succeeded. */
    method Mappages(d: nat, va: Uint, size: Uint, pa: Uint, perm: nat) returns (r: Outcome, ghost j: nat)
      requires Valid() && d in dirs && perm < 4096 && pa % 4096 == 0 && !UserBit(perm)
      requires 0 < size && va + size <= UINT_LIMIT && va >= UPAGES * 4096
      requires pa / 4096 + ((va + size - 1) / 4096 - va / 4096 + 1) <= VPAGES
      modifies this`pages, this`freelist, this`free, this`owner
      ensures Valid() && Frame(old(M()), M(), d, 0, 0, {}) && dirs == old(dirs)
      ensures RangeSpace(old(pages), pages, dirs, d, va / 4096, j, pa / 4096, perm)
      ensures r.Mapped? ==> j == (va + size - 1) / 4096 - va / 4096 + 1
      ensures !r.Mapped? ==> j < (va + size - 1) / 4096 - va / 4096 + 1
      ensures r.Remap? ==> Present(old(Entry(pages, d, va / 4096 + j)))
      ensures r.NoMemory? ==> |old(free)| < |Untabled(old(pages), d, va / 4096, (va + size - 1) / 4096 + 1)|
      ensures r.Mapped? ==>
        && Tabled(old(pages), pages, d, va / 4096, (va + size - 1) / 4096 + 1)
        && |old(free)| == |free| + |Untabled(old(pages), d, va / 4096, (va + size - 1) / 4096 + 1)|
    {
      hide Own, Listed, Frame, OneSpace, RangeSpace, Entry, Adopted, CanMap, Tabled, Untabled, HasEntry, UserBit;
      var a, last, p := va / 4096, (va + size - 1) / 4096, pa / 4096;
      j := 0;
      ghost var m0 := M();
      FrameRefl(m0, d);
      RangeNone(pages, dirs, d, a, p, perm);
      TabledNone(pages, d, a);
      while true
        invariant va / 4096 <= a <= last && a == va / 4096 + j && p == pa / 4096 + j
        invariant Valid() && dirs == m0.dirs && Frame(m0, M(), d, 0, 0, {})
        invariant RangeSpace(m0.pages, pages, dirs, d, va / 4096, j, pa / 4096, perm)
        invariant Tabled(m0.pages, pages, d, va / 4096, a)
        invariant |m0.free| == |free| + |Untabled(m0.pages, d, va / 4096, a)|
        decreases last - a
      {
        ghost var m1 := M();
        UntabledUp(m0.pages, pages, d, va / 4096, a);
        UntabledPart(m0.pages, d, va / 4096, a + 1, last + 1);
        RangeAt(m0.pages, pages, dirs, d, va / 4096, j, pa / 4096, perm, a);
        KernelCanMap(owner, a, p);
        r := MapPage(d, a, p, perm);
        if !r.Mapped? { return; }
        FrameChain(m0, m1, M(), d, 0, 0, 0, 0, 0, 0);
        TabledUp(m0.pages, m1.pages, pages, d, va / 4096, a);
        RangeMore(m0.pages, m1.pages, pages, dirs, d, va / 4096, j, pa / 4096, perm);
        j := j + 1;
        if a == last { break; }
        a, p := a + 1, p + 1;
      }
    }

    /** One line of kmap; on failure the address space is given up. */
    method MapLine(d: nat, k: nat) returns (ok: bool)
      requires Valid() && d in dirs && EXTPAGES < data < PHYSPAGES && k < 4 && KernelUpTo(pages, d, data, k)
      modifies this`pages, this`freelist, this`free, this`owner, this`dirs
      ensures Valid()
      ensures ok ==> dirs == old(dirs) && KernelUpTo(pages, d, data, k + 1) && Frame(old(M()), M(), d, 0, 0, {})
      ensures !ok ==> dirs == old(dirs) - {d} && Frame(old(M()), M(), d, 0, UPAGES, {})
      ensures var line := Kmap(data)[k];
        && (ok <==> |old(free)| >= |Untabled(old(pages), d, line.v, line.v + line.n)|)
        && (ok ==> |old(free)| == |free| + |Untabled(old(pages), d, line.v, line.v + line.n)|)
        && (ok ==> Tabled(old(pages), pages, d, line.v, line.v + line.n))
    {
      hide Own, Listed, Frame, RangeSpace, Entry, KernelUpTo, Private, Tabled, Untabled;
      ghost var m0 := M();
      var line := Kmap(data)[k];
      ghost var j: nat;
      var r;
      WholePages(line.v, line.n);
      r, j := Mappages(d, line.v * 4096, line.n * 4096, line.p * 4096, line.perm);
      ok := r.Mapped?;
      if ok {
        KernelMore(m0.pages, pages, dirs, d, data, k);
      } else {
        KernelGap(m0.pages, d, data, k, line.v + j);
        KernelPrivate(M(), m0.pages, d, data, k, line.v, j, line.p, line.perm);
        ghost var m1 := M();
        Freevm(d);
        FrameChain(m0, m1, M(), d, 0, 0, 0, UPAGES, 0, UPAGES);
      }
    }

    /** A new address space with the kernel's mappings alone, or 0 with no page lost. */
    method Setupkvm() returns (d: nat)
      requires Valid() && EXTPAGES < data < PHYSPAGES
      modifies this`pages, this`freelist, this`free, this`owner, this`dirs
      ensures Valid()
      ensures d != 0 ==> d !in old(dirs) && d !in old(owner) && dirs == old(dirs) + {d} && KernelOnly(pages, d, data)
      ensures d != 0 ==> Frame(old(M()), M(), d, 0, 0, {})
      ensures d == 0 ==> SameUse(old(M()), M())
      ensures d != 0 <==> |old(free)| >= KVMPAGES
      ensures d != 0 ==> |old(free)| == |free| + KVMPAGES && NoLowTables(pages, d)
    {
      hide Own, Listed, Frame, Entry, KernelUpTo, KernelOnly, SameSpaces, Untabled, Tabled, HasTables, TablesUpTo,
        NoLowTables;
      ghost var m0 := M();
      d := Kalloc();
      if d == 0 { return; }
      NewIsUnowned(m0);
      Fill(d, ZeroPage());
      TakeThenFill(m0, M(), d, ZeroPage());
      ghost var m1 := M();
      NewDir(m1, d, m1.(dirs := m1.dirs + {d}, owner := m1.owner[d := Dir]));
      dirs, owner := dirs + {d}, owner[d := Dir];
      SetupFrame(m0, m1, M(), d);
      KernelStarts(pages, d, data);
      TablesStart(pages, d, data);
      TablesTotal(data);
      var k := 0;
      while k < |Kmap(data)|
        invariant k <= 4 && Valid() && dirs == m0.dirs + {d} && KernelUpTo(pages, d, data, k)
        invariant Frame(m0, M(), d, 0, 0, {}) && HasTables(pages, d, data, k)
        invariant |m0.free| == |free| + 1 + |TablesUpTo(data, k)|
      {
        ghost var m2 := M();
        TablesMore(pages, d, data, k);
        var ok := MapLine(d, k);
        if !ok {
          FrameChain(m0, m2, M(), d, 0, 0, 0, UPAGES, 0, UPAGES);
          FrameGone(m0, M(), d);
          return 0;
        }
        FrameChain(m0, m2, M(), d, 0, 0, 0, 0, 0, 0);
        TablesNext(m2.pages, pages, d, data, k);
        k := k + 1;
      }
      KernelAll(pages, d, data);
      TablesLow(pages, d, data);
    }

    /** One turn of copyuvm for page v; ok is false once the copy is freed again. */
    method CopyTurn(d: nat, c: nat, v: nat, t: nat, ghost m0: Mem) returns (ok: bool)
      requires Valid() && EXTPAGES < data < PHYSPAGES && d in dirs && c in dirs && c != d && v < UPAGES
      requires HasTable(M(), d, v, t) && Present(pages[t][Ptx(v)]) && CopyUpTo(M(), d, c, v, data)
      requires Own(m0) && c !in m0.owner && c !in m0.dirs && dirs == m0.dirs + {c} && Frame(m0, M(), c, 0, UPAGES, {})
      modifies this`pages, this`freelist, this`free, this`owner, this`dirs
      ensures Valid()
      ensures ok ==> dirs == old(dirs) && CopyUpTo(M(), d, c, v + 1, data)
      ensures ok ==> Frame(m0, M(), c, 0, UPAGES, {})
      ensures !ok ==> SameUse(m0, M())
      ensures ok <==> |old(free)| >= 1 + Lacking(old(pages), c, v)
      ensures ok ==> |old(free)| == |free| + 1 + Lacking(old(pages), c, v) && Tabled(old(pages), pages, c, v, v + 1)
    {
      hide Own, Listed, Frame, Entry, DirEntry, SameSpaces, OneSpace, CopyUpTo, Private, SameUse, Tabled, HasEntry;
      ghost var m1 := M();
      WalkIs(m1, d, v, t);
      var pa, flags := Ppn(pages[t][Ptx(v)]), Flags(pages[t][Ptx(v)]);
      UserThere(m1, d, v);
      CopyGap(m1, d, c, v, data, v);
      CopyPrivate(m1, d, c, v, data);
      var r, p := GrowPage(c, v, flags, pages[pa]);
      ghost var m2 := M();
      ok := r.Mapped?;
      if ok {
        CopyMore(m1, m2, d, c, v, data, p);
        FrameChain(m0, m1, m2, c, 0, UPAGES, v, v + 1, 0, UPAGES);
      } else {
        if p != 0 {
          if p in m0.owner { FrameGrows(m0, m1, c, 0, UPAGES, p); }
          PrivateSpaces(m1, m2, c, p);
          PrivateGiven(m2, c, p, Junk(freelist));
          CopyFreed(m0, m1, m2, c, p, Junk(freelist));
          FreeHeld(p);
        }
        ghost var m3 := M();
        Freevm(c);
        FrameChain(m0, m3, M(), c, 0, UPAGES, 0, UPAGES, 0, UPAGES);
        FrameGone(m0, M(), c);
      }
    }

    /** A new address space with copies of the pages below sz, or none and no page lost. */
    method Copyuvm(d: nat, sz: nat) returns (r: Copy)
      requires Valid() && EXTPAGES < data < PHYSPAGES && d in dirs && sz <= UPAGES * 4096
      modifies this`pages, this`freelist, this`free, this`owner, this`dirs
      ensures !r.Panic? ==> Valid()
      ensures r.Panic? ==> exists w: nat :: w < PageUp(sz) && !Present(old(Entry(pages, d, w)))
      ensures r.Copied? ==> r.dir !in old(dirs) && r.dir !in old(owner) && dirs == old(dirs) + {r.dir}
      ensures r.Copied? ==> CopyUpTo(M(), d, r.dir, PageUp(sz), data) && Frame(old(M()), M(), r.dir, 0, UPAGES, {})
      ensures r.Copied? ==> SameReach(pages, d, r.dir, PageUp(sz))
      ensures r.NoRoom? ==> SameUse(old(M()), M())
      ensures r.NoRoom? ==> |old(free)| < CopyPages(PageUp(sz))
      ensures r.Copied? ==> |old(free)| == |free| + CopyPages(PageUp(sz))
    {
      hide Own, Listed, Frame, Entry, DirEntry, SameSpaces, OneSpace, CopyUpTo, KernelOnly, PageUp, SameUse, Ptx, Pdx,
        SameReach, Tabled, Untabled, HasEntry, NoLowTables;
      ghost var m0 := M();
      var c := Setupkvm();
      if c == 0 { return NoRoom; }
      ghost var m2 := M();
      TabledNone(pages, c, 0);
      PagesBelow(sz);
      LowTables(pages, c, PageUp(sz));
      FrameRefl(M(), c);
      FrameChain(m0, M(), M(), c, 0, 0, 0, 0, 0, UPAGES);
      CopyStarts(M(), d, c, data);
      assert sz == 0 ==> PageUp(sz) == 0 by { NoPages(); }
      var i := 0;
      while i < sz
        invariant i % 4096 == 0 && (i / 4096 == PageUp(sz) || i < sz) && Valid() && dirs == m0.dirs + {c}
        invariant CopyUpTo(M(), d, c, i / 4096, data) && Frame(m0, M(), c, 0, UPAGES, {})
        invariant Tabled(m2.pages, pages, c, 0, i / 4096)
        invariant |m2.free| == |free| + PagesFor(m2.pages, c, 0, i / 4096)
      {
        ghost var pages1 := pages;
        PageInside(i, sz);
        UntabledUp(m2.pages, pages, c, 0, i / 4096);
        UntabledPart(m2.pages, c, 0, i / 4096 + 1, PageUp(sz));
        SamePage(i / 4096, i / 4096);
        FrameSpaces(m0, M(), c, 0, UPAGES, d, i / 4096);
        var t := Walk(d, i / 4096, false);
        if t == 0 {
          NoTableAt(pages, d, i / 4096);
          return Panic;
        }
        WalkIs(M(), d, i / 4096, t);
        if !Present(pages[t][Ptx(i / 4096)]) { return Panic; }
        var ok := CopyTurn(d, c, i / 4096, t, m0);
        if !ok { return NoRoom; }
        TabledUp(m2.pages, pages1, pages, c, 0, i / 4096);
        NextPage(i);
        LastPage(i, sz);
        i := i + 4096;
      }
      ReachCopied(M(), d, c, PageUp(sz), data);
      return Copied(c);
    }
  }

  predicate Between(lo: nat, b: nat, hi: nat) { lo <= b < hi }

  function Least(a: nat, b: nat): nat { if a < b then a else b }

  lemma WholePages(v: nat, n: nat)
    requires n > 0
    ensures v * 4096 / 4096 == v && (v * 4096 + n * 4096 - 1) / 4096 + 1 == v + n
  {
    assert v * 4096 + n * 4096 - 1 == (v + n - 1) * 4096 + 4095;
  }

  lemma PageInside(a: nat, oldsz: nat)
    requires a % 4096 == 0 && a < oldsz <= UPAGES * 4096
    ensures a / 4096 < PageUp(oldsz) <= UPAGES
  {
  }

  lemma NoPages()
    ensures PageUp(0) == 0
  {
  }

  lemma LastPage(a: nat, sz: nat)
    requires a % 4096 == 0 && a < sz
    ensures a + 4096 < sz || a / 4096 + 1 == PageUp(sz)
  {
  }

  lemma NextPage(a: nat)
    requires a % 4096 == 0
    ensures (a + 4096) % 4096 == 0 && (a + 4096) / 4096 == a / 4096 + 1
  {
  }

  /** Where deallocuvm goes on when a whole directory entry has no table: at the last page of the entry. */
  lemma SkipsTable(a: nat)
    requires a % 4096 == 0
    ensures var next := (Pdx(a / 4096) + 1) * ENTRIES * 4096 - 4096;
      a <= next && next % 4096 == 0 && next / 4096 + 1 == (Pdx(a / 4096) + 1) * ENTRIES
  {
    var x := Pdx(a / 4096);
    assert a / 4096 < (x + 1) * ENTRIES;
  }
}
