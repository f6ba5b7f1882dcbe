/**
 * The shared-memory system calls of vm.c, and the parts of proc.c that create, grow, end and reap an address
 * space, on the page tables of VmCode.
 */
module SharedCode {
  import opened Common
  import opened Paging
  import opened Regions
  import opened VmCode

  /** Error is -1.  Exhausted is a return of -1 that leaves partial work behind; Halt is a panic. */
  datatype Result = Value(v: int) | Error | Exhausted | Halt

  class Kernel {
    const vm: Machine
    var regions: seq<Region>             // sharedRegions
    var procs: seq<Proc>                 // ptable.proc

    /** At boot no process exists and no region is valid; the only address spaces are the kernel's own. */
    constructor (vm: Machine)
      requires vm.Valid() && EXTPAGES < vm.data < PHYSPAGES && KernelDirs(vm.M(), [])
      requires forall b :: b in vm.owner ==> !vm.owner[b].Shared?
      ensures Valid() && this.vm == vm
      ensures forall i :: 0 <= i < NPROC ==> procs[i].state == Unused
    {
      this.vm := vm;
      regions := seq(KEYS, k => NoRegion());
      procs := seq(NPROC, i => NoProc());
      new;
      NobodyHolds(procs, NPROC);
    }

    ghost predicate Valid()
      reads this, vm
    {
      vm.Valid() && EXTPAGES < vm.data < PHYSPAGES && Good(vm.M(), regions, procs)
    }

    /**
     * Maps a region's pages below shaddr, of which k get mapped.  It runs out of memory exactly if the tables
     * that the unmapped pages lack are more than the free pages; otherwise it meets a mapped page exactly if
     * there is no room above the process's own memory.
     */
    method MapPages(i: nat, key: nat) returns (r: Outcome, ghost k: nat)
      requires vm.Valid() && i < |procs| && key < KEYS == |regions| && Active(procs[i]) && !Holds(procs[i], key)
      requires ProcOk(vm.M(), regions, procs[i]) && Made(vm.M(), regions[key], key)
      modifies this`procs, vm
      ensures vm.Valid() && vm.dirs == old(vm.dirs) && |procs| == |old(procs)|
      ensures regions[key].pageCount <= MAX_SH_PAGES == |regions[key].pages|
      ensures r.NoMemory? <==> |old(vm.free)| < TablesLacking(old(vm.pages), old(procs[i]), regions[key].pageCount)
      ensures r.Remap? <==> !r.NoMemory? && !Fits(old(procs[i]), regions[key].pageCount)
      ensures r.NoMemory? ==>
        && Stuck(old(vm.M()), vm.M(), old(procs[i]), k, regions[key].pages)
        && (k == 0 <==> NoFirstTable(old(vm.M()), old(procs[i])))
        && procs == old(procs)[i := old(procs[i]).(sh := old(procs[i].sh) - k - 1)]
      ensures r.Mapped? ==> Frame(old(vm.M()), vm.M(), old(procs[i].pgdir), 0, 0, {})
      ensures r.Mapped? ==> procs == old(procs)[i := old(procs[i]).(sh := old(procs[i].sh) - regions[key].pageCount)]
      ensures r.Mapped? ==>
        ProcOk(vm.M(), regions, Attached(old(procs[i]), key, old(procs[i].sh) - regions[key].pageCount))
    {
      hide Own, Listed, Frame, Below, OneSpace, ProcOk, Made, Entry, Tabled, Partway, HasEntry, TablesLacking,
        NoFirstTable;
      ghost var m0, p := vm.M(), procs[i];
      var n := regions[key].pageCount;
      MadeParts(m0, regions[key], key);
      ProcParts(m0, regions, p);
      PartwayNone(m0, regions, p, regions[key].pages);
      var j := 0;
      while j < n
        invariant 0 <= j <= n && vm.Valid() && vm.dirs == m0.dirs && PageUp(p.sz) + j <= p.sh
        invariant procs == old(procs)[i := p.(sh := p.sh - j)] && Partway(m0, vm.M(), p, j, regions[key].pages)
      {
        ghost var m1 := vm.M();
        PartwayAt(m0, vm.M(), p, j, regions[key].pages, p.sh - j - 1);
        MadeAt(m0, m1, regions[key], key, p.pgdir, j);
        GapOrOwn(m0, regions, p, p.sh - j - 1);
        procs := procs[i := procs[i].(sh := procs[i].sh - 1)];
        r := vm.MapPage(procs[i].pgdir, procs[i].sh, regions[key].pages[j], 6);
        k := j;
        if r.NoMemory? {
          PartwayStuck(m0, m1, p, j, regions[key].pages, n);
          return;
        }
        if r.Remap? {
          PartwayEnough(m0, m1, p, j, regions[key].pages, n);
          return;
        }
        PartwayMore(m0, m1, vm.M(), p, j, regions[key].pages);
        j := j + 1;
      }
      r, k := Mapped, n;
      PartwayEnough(m0, vm.M(), p, n, regions[key].pages, n);
      PartwayAt(m0, vm.M(), p, n, regions[key].pages, 0);
      GapBelow(m0, regions, p, n);
      ProcMapped(m0, vm.M(), regions, p, key);
    }

    /** A fresh zeroed page becomes page k of the region. */
    method MakePage(key: nat, k: nat, ghost m0: Mem, ghost x: set<nat>, ghost d: nat) returns (ok: bool, ghost b: nat)
      requires vm.Valid() && key < |regions| && k < MAX_SH_PAGES == |regions[key].pages|
      requires Making(m0, vm.M(), key, regions[key].pages[..k], x) && m0.owner.Keys <= vm.owner.Keys
      requires Frame(m0, vm.M(), 0, 0, 0, x) && Frame(m0, vm.M(), d, 0, 0, x)
      modifies this`regions, vm
      ensures vm.Valid() && vm.dirs == old(vm.dirs)
      ensures |regions| == |old(regions)| && (ok <==> old(vm.free) != [])
      ensures !ok ==> regions == old(regions) && vm.M() == old(vm.M())
      ensures ok ==> regions == old(regions)[key := old(regions)[key].(pages := regions[key].pages)]
      ensures ok ==> |regions[key].pages| == MAX_SH_PAGES && |vm.free| + 1 == |old(vm.free)|
      ensures ok ==> Making(m0, vm.M(), key, regions[key].pages[..k + 1], x + {b}) && m0.owner.Keys <= vm.owner.Keys
      ensures ok ==> Frame(m0, vm.M(), 0, 0, 0, x + {b}) && Frame(m0, vm.M(), d, 0, 0, x + {b})
    {
      hide Own, Listed, Frame, Making, SameSpaces;
      ghost var m1 := vm.M();
      b := 0;
      var mem := vm.Kalloc();
      if mem == 0 { return false, 0; }
      b, ok := mem, true;
      NewIsUnowned(m1);
      vm.Fill(mem, ZeroPage());
      ShareOwns(vm.M(), mem, key, k);
      vm.owner := vm.owner[mem := Shared(key, k)];
      regions := regions[key := regions[key].(pages := regions[key].pages[k := mem])];
      MakeFrame(m1, vm.M(), key, k, 0);
      MakeFrame(m1, vm.M(), key, k, d);
      FrameTrans(m0, m1, vm.M(), 0, 0, 0, x, 0, 0, {mem}, 0, 0);
      FrameTrans(m0, m1, vm.M(), d, 0, 0, x, 0, 0, {mem}, 0, 0);
      assert regions[key].pages[..k + 1] == old(regions)[key].pages[..k] + [mem];
      MakingMore(m0, m1, vm.M(), key, old(regions)[key].pages[..k], x, mem);
    }

    /**
     * Allocates count zeroed pages for an invalid region, which becomes valid with no reference yet.  If there
     * are not as many, all the free pages are lost: allocated, but no longer of any use.
     */
    method MakeRegion(i: nat, key: nat, count: nat) returns (ok: bool, ghost x: set<nat>)
      requires Valid() && i < NPROC && Active(procs[i])
      requires key < KEYS && !regions[key].valid && 0 < count <= MAX_SH_PAGES
      modifies this`regions, vm
      ensures vm.Valid() && vm.dirs == old(vm.dirs) && |regions| == KEYS
      ensures ok <==> count <= |old(vm.free)|
      ensures !ok ==> Valid() && vm.free == [] && regions == old(regions)[key := regions[key]] && !regions[key].valid
      ensures ok ==> regions == old(regions)[key := Region(true, 0, count, regions[key].pages)]
      ensures ok ==> |regions[key].pages| == MAX_SH_PAGES && |vm.free| + count == |old(vm.free)|
      ensures ok ==> Making(old(vm.M()), vm.M(), key, regions[key].pages[..count], x)
      ensures ok ==> Frame(old(vm.M()), vm.M(), 0, 0, 0, x) && Frame(old(vm.M()), vm.M(), procs[i].pgdir, 0, 0, x)
    {
      hide Own, Listed, Frame, ProcOk, Made, Making, Retired;
      GoodParts(vm.M(), regions, procs, i, key);
      hide Good;
      ghost var m0, d := vm.M(), procs[i].pgdir;
      FrameRefl(m0, 0);
      FrameRefl(m0, d);
      MakingNone(m0, key);
      x := {};
      var k := 0;
      while k < count
        invariant 0 <= k <= count && vm.Valid() && vm.dirs == m0.dirs && |regions| == KEYS
        invariant regions == old(regions)[key := old(regions)[key].(pages := regions[key].pages)]
        invariant |regions[key].pages| == MAX_SH_PAGES && |vm.free| + k == |m0.free|
        invariant Making(m0, vm.M(), key, regions[key].pages[..k], x) && m0.owner.Keys <= vm.owner.Keys
        invariant Frame(m0, vm.M(), 0, 0, 0, x) && Frame(m0, vm.M(), d, 0, 0, x)
      {
        ghost var b: nat;
        ok, b := MakePage(key, k, m0, x, d);
        if !ok {
          MakeFailed(m0, vm.M(), old(regions), procs, i, key, regions[key], regions[key].pages[..k], x);
          RetireIs(vm.M(), key);
          vm.owner := Retired(vm.M(), key).owner;
          return;
        }
        x := x + {b};
        k := k + 1;
      }
      ok := true;
      regions := regions[key := Region(true, 0, count, regions[key].pages)];
    }

    /** mapSharedRegion: a region that i holds is mapped already. */
    method MapSharedRegion(i: nat, key: nat) returns (r: Result, ghost k: nat)
      requires vm.Valid() && i < |procs| && key < KEYS == |regions| && Active(procs[i]) && regions[key].valid
      requires ProcOk(vm.M(), regions, procs[i]) && Made(vm.M(), regions[key], key)
      modifies this`procs, this`regions, vm
      ensures vm.Valid() && vm.dirs == old(vm.dirs) && !r.Error? && |old(procs[i]).shared| == KEYS
      ensures |regions| == KEYS && |procs| == |old(procs)|
      ensures r.Exhausted? <==>
        && !old(Holds(procs[i], key))
        && |old(vm.free)| < TablesLacking(old(vm.pages), old(procs[i]), old(regions[key].pageCount))
      ensures r.Halt? <==>
        !old(Holds(procs[i], key)) && !r.Exhausted? && !Fits(old(procs[i]), old(regions[key].pageCount))
      ensures r.Exhausted? ==>
        && Stuck(old(vm.M()), vm.M(), old(procs[i]), k, old(regions[key].pages)) && regions == old(regions)
        && (k == 0 <==> NoFirstTable(old(vm.M()), old(procs[i])))
        && procs == old(procs)[i := old(procs[i]).(sh := old(procs[i].sh) - k - 1)]
      ensures r.Value? && old(Holds(procs[i], key)) ==>
        && r.v == old(procs[i]).shared[key].va * 4096
        && regions == old(regions) && procs == old(procs) && vm.M() == old(vm.M())
      ensures r.Value? && !old(Holds(procs[i], key)) ==>
        regions == old(regions)[key := old(regions[key]).(refCount := old(regions[key].refCount) + 1)]
      ensures r.Value? && !old(Holds(procs[i], key)) ==>
        var va := old(procs[i].sh) - old(regions[key].pageCount);
        r.v == va * 4096 && procs == old(procs)[i := Attached(old(procs[i]), key, va)]
        && ProcOk(vm.M(), regions, Attached(old(procs[i]), key, va))
        && Frame(old(vm.M()), vm.M(), old(procs[i].pgdir), 0, 0, {})
    {
      hide Own, Listed, Frame, ProcOk, Made, Below, Untabled, HasEntry, Stuck, NoFirstTable, TablesLacking;
      ProcParts(vm.M(), regions, procs[i]);
      if procs[i].shared[key].held && regions[key].valid { return Value(procs[i].shared[key].va * 4096), 0; }
      var o;
      o, k := MapPages(i, key);
      match o {
        case NoMemory => return Exhausted, k;
        case Remap => return Halt, k;
        case Mapped =>
      }
      ghost var p := Attached(old(procs[i]), key, procs[i].sh);
      RegionsFrame(vm.M(), regions, key, regions[key].(refCount := regions[key].refCount + 1), p);
      regions := regions[key := regions[key].(refCount := regions[key].refCount + 1)];
      procs := procs[i := procs[i].(shared := procs[i].shared[key := Ref(true, procs[i].sh)])];
      return Value(procs[i].sh * 4096), k;
    }

    /**
     * GetSharedPage: makes the region if there is none, and maps it unless it is mapped already.  Running out of
     * memory leaves the state in order exactly if the pages of a new region run out, or no page at all of an old
     * one gets mapped.
     */
    method AllocSharedVM(i: nat, key: int, count: int) returns (r: Result)
      requires Valid() && i < NPROC && procs[i].state == Live
      modifies this`procs, this`regions, vm
      ensures vm.Valid() && (r.Value? || r.Error? ==> Valid()) && |regions| == KEYS && |procs| == NPROC
      ensures r.Error? <==> Refused(old(regions), key, count)
      ensures r.Exhausted? <==>
        && !Refused(old(regions), key, count) && !old(Holds(procs[i], key))
        && |old(vm.free)| < PagesNeeded(old(vm.pages), old(procs[i]), old(regions)[key], count)
      ensures r.Halt? <==>
        && !Refused(old(regions), key, count) && !old(Holds(procs[i], key)) && !r.Exhausted?
        && !Fits(old(procs[i]), Extent(old(regions)[key], count))
      ensures r.Exhausted? ==>
        && regions == old(regions)[key := regions[key]] && procs == old(procs)[i := procs[i]]
        && (Valid() <==> if old(regions)[key].valid then NoFirstTable(old(vm.M()), old(procs[i]))
                         else |old(vm.free)| < count)
      ensures r.Error? || (r.Value? && old(Holds(procs[i], key))) ==>
        regions == old(regions) && procs == old(procs) && vm.M() == old(vm.M())
      ensures r.Value? && !old(Holds(procs[i], key)) ==>
        var n := Extent(old(regions)[key], count);
        |old(procs[i]).shared| == KEYS && n <= old(procs[i].sh)
        && procs[i] == Attached(old(procs[i]), key, old(procs[i].sh) - n)
      ensures r.Value? ==>
        && Holds(procs[i], key) && r.v == procs[i].shared[key].va * 4096 && count <= regions[key].pageCount
        && regions == old(regions)[key := regions[key]] && procs == old(procs)[i := procs[i]]
        && (!old(Holds(procs[i], key)) ==> regions[key].refCount == old(regions)[key].refCount + 1)
        && regions[key].pageCount == Extent(old(regions)[key], count)
        && (old(regions)[key].valid ==> regions[key] == old(regions)[key].(refCount := regions[key].refCount))
        && (!old(regions)[key].valid ==> Fresh(vm.M(), regions[key], count))
        && ReachAll(vm.pages, procs[i].pgdir, r.v / 4096, r.v / 4096 + regions[key].pageCount)
    {
      hide Own, Listed, Frame, ProcOk, Made, Good, Making, Stuck, NoFirstTable, TablesLacking, Fits, ReachAll;
      GoodParts(vm.M(), regions, procs, i, 0);
      if key < 0 || key >= KEYS || count <= 0 || count > MAX_SH_PAGES { return Error; }
      ghost var m0, regions0, procs0, x := vm.M(), regions, procs, {};
      GoodParts(m0, regions, procs, i, key);
      HoldsValid(m0, regions, procs, i, key);
      ProcParts(m0, regions, procs[i]);
      var ok;
      FrameRefl(m0, procs[i].pgdir);
      if !regions[key].valid {
        ok, x := MakeRegion(i, key, count);
        if !ok { return Exhausted; }
        MakingNew(m0, vm.M(), key, regions[key], x);
        MadeProc(m0, vm.M(), regions0, procs, i, key, regions[key], x);
        MadeTables(m0, vm.M(), procs[i], x, count);
      } else if count > regions[key].pageCount {
        return Error;
      }
      ghost var m1, regions1, k := vm.M(), regions, 0;
      MadeParts(m1, regions[key], key);
      r, k := MapSharedRegion(i, key);
      if r.Exhausted? {
        if regions0[key].valid {
          StuckGood(m0, vm.M(), regions, procs0, i, key, k);
        } else {
          UnheldIsBad(vm.M(), regions, procs0, i, procs[i], key);
        }
      } else if r.Value? && !Holds(procs0[i], key) {
        FrameTrans(m0, m1, vm.M(), procs[i].pgdir, 0, 0, x, 0, 0, {}, 0, 0);
        assert x + {} == x;
        AfterMapping(m0, m1, vm.M(), key, regions1[key], regions[key], x, procs[i].pgdir);
        assert regions == regions0[key := regions[key]];
        AttachGood(m0, vm.M(), regions0, procs0, i, key, procs[i].sh, regions[key], x);
      }
      if r.Value? { ReachHeld(vm.M(), regions, procs, i, key); }
    }

    /** Clears the page table entries of process i for region key; false if a table is missing. */
    method ClearRegion(i: nat, key: nat) returns (ok: bool)
      requires Valid() && i < NPROC && key < KEYS && Holds(procs[i], key)
      modifies vm
      ensures ok && vm.Valid() && vm.dirs == old(vm.dirs) && vm.owner == old(vm.owner)
      ensures Cleared(old(vm.pages), vm.pages, vm.dirs, procs[i].pgdir, procs[i].shared[key].va,
                      procs[i].shared[key].va + regions[key].pageCount)
      ensures Frame(old(vm.M()), vm.M(), procs[i].pgdir, 0, 0, {})
    {
      hide Own, Listed, Frame, Cleared, OneSpace, Good, ProcOk, Entry;
      ghost var m0 := vm.M();
      GoodParts(m0, regions, procs, i, key);
      ProcParts(m0, regions, procs[i]);
      HeldRange(m0, regions, procs[i], key);
      var d, va, n := procs[i].pgdir, procs[i].shared[key].va, regions[key].pageCount;
      FrameRefl(m0, d);
      ClearedNone(vm.pages, vm.dirs, d, va, va);
      var j := 0;
      while j < n
        invariant 0 <= j <= n && vm.Valid() && vm.dirs == m0.dirs && vm.owner == m0.owner
        invariant Cleared(m0.pages, vm.pages, vm.dirs, d, va, va + j) && Frame(m0, vm.M(), d, 0, 0, {})
      {
        ghost var m1 := vm.M();
        HeldPage(m0, regions, procs, i, key, j);
        ClearedAt(m0.pages, vm.pages, vm.dirs, d, va, va + j, va + j);
        ok := vm.ClearShared(d, va + j);
        if !ok { return false; }
        ClearedOne(m0.pages, m1.pages, vm.pages, vm.dirs, d, va, va + j);
        FrameChain(m0, m1, vm.M(), d, 0, 0, 0, 0, 0, 0);
        j := j + 1;
      }
      ok := true;
    }

    /** Frees the pages of a region that no address space maps. */
    method ReturnPages(key: nat, ghost d: nat)
      requires vm.Valid() && key < |regions| && Made(vm.M(), regions[key], key) && Unmapped(vm.M(), key)
      modifies this`regions, vm
      ensures vm.Valid() && |regions| == |old(regions)| && regions[key].pageCount == old(regions[key].pageCount)
      ensures |regions[key].pages| == MAX_SH_PAGES
      ensures regions == old(regions)[key := old(regions[key]).(pages := regions[key].pages)]
      ensures Returning(old(vm.M()), vm.M(), old(regions[key].pages), regions[key].pageCount, regions[key].pageCount, d,
                        RegionPages(old(vm.M()), key))
    {
      hide Own, Listed, Frame, Made, Unmapped, Returning, Retired;
      ghost var m1 := vm.M();
      var r := regions[key];
      MadeParts(m1, r, key);
      ReturnBegins(m1, r, key, d);
      RetireIs(m1, key);
      vm.owner := Retired(m1, key).owner;
      var k := 0;
      while k < r.pageCount
        invariant 0 <= k <= r.pageCount && vm.Valid() && |regions| == |old(regions)|
        invariant regions == old(regions)[key := r.(pages := regions[key].pages)]
        invariant |regions[key].pages| == MAX_SH_PAGES
        invariant forall j :: k <= j < r.pageCount ==> regions[key].pages[j] == r.pages[j]
        invariant Returning(m1, vm.M(), r.pages, r.pageCount, k, d, RegionPages(m1, key))
      {
        ReturnMore(m1, vm.M(), r, key, k, d, Junk(vm.freelist));
        vm.FreeHeld(regions[key].pages[k]);
        regions := regions[key := regions[key].(pages := regions[key].pages[k := 0])];
        k := k + 1;
      }
    }

    /** Process i gives up region key; with the last reference the region and its pages go. */
    method DeallocProcSharedVM(i: nat, key: int) returns (r: Result)
      requires Valid() && i < NPROC
      modifies this`procs, this`regions, vm
      ensures Valid() && (r.Value? || r.Error?) && vm.dirs == old(vm.dirs)
      ensures r.Error? <==> key < 0 || key >= KEYS || !old(Holds(procs[i], key))
      ensures r.Error? ==> regions == old(regions) && procs == old(procs) && vm.M() == old(vm.M())
      ensures r.Value? ==>
        && |old(procs[i]).shared| == KEYS && procs == old(procs)[i := Detached(old(procs[i]), key)]
        && regions == old(regions)[key := regions[key]]
        && r.v == regions[key].refCount == old(regions[key].refCount) - 1
        && (r.v == 0 ==> forall b :: OfRegion(old(vm.M()), b, key) ==> b !in vm.owner)
    {
      hide Own, Listed, Frame, Cleared, Good, ProcOk, Made, Returning, RegionOk;
      if key < 0 || key >= KEYS { return Error; }
      ghost var m0, regions0, procs0 := vm.M(), regions, procs;
      GoodParts(m0, regions, procs, i, key);
      HoldsValid(m0, regions, procs, i, key);
      InactiveHoldsNone(m0, regions, procs[i], key);
      if !procs[i].shared[key].held || procs[i].shared[key].va == 0 {
        HeldIsUp(m0, regions, procs[i], key);
        return Error;
      }
      ProcParts(m0, regions, procs[i]);
      CountHolder(procs, i, key);
      ghost var d, x := procs[i].pgdir, {};
      var ok := ClearRegion(i, key);
      ghost var m1 := vm.M();
      procs := procs[i := procs[i].(shared := procs[i].shared[key := Ref(false, 0)])];
      regions := regions[key := regions[key].(refCount := regions[key].refCount - 1)];
      if regions[key].valid && regions[key].refCount == 0 {
        OnlyHolder(procs0, i, key);
        NobodyMaps(m0, m1, regions0, procs0, i, key);
        MadeFrame(m0, m1, regions0[key], key, d, 0, 0, {});
        MadeSame(m1, regions0[key], regions[key], key);
        ReturnPages(key, d);
        x := RegionPages(m1, key);
        ReturnedAll(m0, m1, vm.M(), regions0, procs0, key, d);
        ClearedThen(m0.pages, m1.pages, vm.pages, m0.dirs, d, procs0[i].shared[key].va,
                    procs0[i].shared[key].va + regions0[key].pageCount);
        regions := regions[key := regions[key].(valid := false, pageCount := 0)];
      }
      DetachGood(m0, vm.M(), regions0, procs0, i, key, regions[key], x);
      assert regions == regions0[key := regions[key]];
      return Value(regions[key].refCount);
    }

    /** Gives up every region that process i holds. */
    method DeallocProcAllSharedVM(i: nat)
      requires Valid() && i < NPROC && Active(procs[i])
      modifies this`procs, this`regions, vm
      ensures Valid() && |procs| == NPROC == |old(procs)| && vm.dirs == old(vm.dirs)
      ensures procs == old(procs)[i := old(procs[i]).(shared := procs[i].shared)]
      ensures |procs[i].shared| == KEYS && forall key: nat :: key < KEYS ==> !procs[i].shared[key].held
    {
      hide Own, Listed, Good;
      GoodParts(vm.M(), regions, procs, i, 0);
      var key := 0;
      while key < KEYS
        invariant 0 <= key <= KEYS && Valid() && |procs| == NPROC == |old(procs)| && |regions| == KEYS
        invariant vm.dirs == old(vm.dirs)
        invariant procs == old(procs)[i := old(procs[i]).(shared := procs[i].shared)] && |procs[i].shared| == KEYS
        invariant forall k: nat :: k < key ==> !procs[i].shared[k].held
      {
        HoldsValid(vm.M(), regions, procs, i, key);
        GoodParts(vm.M(), regions, procs, i, key);
        HeldIsUp(vm.M(), regions, procs[i], key);
        if procs[i].shared[key].held && regions[key].valid && procs[i].shared[key].va != 0 {
          var r := DeallocProcSharedVM(i, key);
        }
        key := key + 1;
      }
    }

    /** exit's part here: the process keeps its address space, and its regions, until it is reaped. */
    method Exit(i: nat)
      requires Valid() && i < NPROC && procs[i].state == Live
      modifies this`procs
      ensures Valid() && procs == old(procs)[i := old(procs[i]).(state := Zombie)]
    {
      hide Own, Listed;
      ZombieGood(vm.M(), regions, procs, i);
      procs := procs[i := procs[i].(state := Zombie)];
    }

    /** wait's part here: drops the zombie's regions, then frees its stack and its whole address space. */
    method Reap(i: nat)
      requires Valid() && i < NPROC && procs[i].state == Zombie
      modifies this`procs, this`regions, vm
      ensures Valid() && |procs| == NPROC && procs[i].state == Unused
      ensures forall j :: 0 <= j < NPROC && j != i ==> procs[j] == old(procs)[j]
      ensures vm.dirs == old(vm.dirs) - {old(procs[i].pgdir)}
      ensures forall b :: b in vm.owner ==> Outside(b, vm.owner[b], old(procs[i].pgdir), 0, UPAGES)
    {
      hide Own, Listed, Frame, Good, ProcOk, Private;
      DeallocProcAllSharedVM(i);
      ghost var m0, d := vm.M(), procs[i].pgdir;
      GoodParts(m0, regions, procs, i, 0);
      ProcParts(m0, regions, procs[i]);
      ReapPrivate(m0, regions, procs[i], Junk(vm.freelist));
      GiveFrame(m0, d, procs[i].kstack, Junk(vm.freelist));
      vm.FreeHeld(procs[i].kstack);
      ghost var m1 := vm.M();
      vm.Freevm(procs[i].pgdir);
      ReapGood(m0, m1, vm.M(), regions, procs, i);
      procs := procs[i := procs[i].(state := Unused)];
    }

    /** allocproc's search for an unused slot; NPROC when there is none. */
    method FindUnused() returns (j: nat)
      requires |procs| == NPROC
      ensures j <= NPROC && (j < NPROC ==> procs[j].state == Unused)
      ensures forall k :: 0 <= k < j ==> procs[k].state != Unused
    {
      j := 0;
      while j < NPROC && procs[j].state != Unused
        invariant j <= NPROC && forall k :: 0 <= k < j ==> procs[k].state != Unused
      {
        j := j + 1;
      }
    }

    /** A child with a copy of i's own memory and none of its regions, or no change in the use of any page. */
    method Fork(i: nat) returns (r: Result)
      requires Valid() && i < NPROC && procs[i].state == Live
      modifies this`procs, vm
      ensures Valid() && (r.Value? || r.Error?)
      ensures r.Error? ==> procs == old(procs) && SameUse(old(vm.M()), vm.M())
      ensures r.Error? <==>
        || (forall k :: 0 <= k < NPROC ==> old(procs)[k].state != Unused)
        || |old(vm.free)| < 1 + CopyPages(PageUp(old(procs[i].sz)))
      ensures r.Value? ==>
        && 0 <= r.v < NPROC && old(procs)[r.v].state == Unused && procs == old(procs)[r.v := procs[r.v]]
        && (forall k :: 0 <= k < r.v ==> old(procs)[k].state != Unused)
        && procs[r.v].state == Live && procs[r.v].sz == procs[i].sz && procs[r.v].sh == UPAGES
        && (forall key: nat :: !Holds(procs[r.v], key))
        && CopyUpTo(vm.M(), procs[i].pgdir, procs[r.v].pgdir, PageUp(procs[i].sz), vm.data)
        && SameReach(vm.pages, procs[i].pgdir, procs[r.v].pgdir, PageUp(procs[i].sz))
    {
      hide Own, Listed, Frame, Good, ProcOk, CopyUpTo, SameReach;
      ghost var m0 := vm.M();
      GoodParts(m0, regions, procs, i, 0);
      ProcParts(m0, regions, procs[i]);
      SameRefl(m0);
      var j := FindUnused();
      if j == NPROC { return Error; }
      var kstack := vm.Kalloc();
      if kstack == 0 { return Error; }
      ghost var m1 := vm.M();
      NewIsUnowned(m0);
      MemorySize(m0, regions, procs[i]);
      var c := vm.Copyuvm(procs[i].pgdir, procs[i].sz);
      OwnMapped(m0, regions, procs[i]);
      if c.NoRoom? {
        SameSize(m1, vm.M());
        SameAfterStack(m0, vm.M(), Junk(vm.freelist));
        vm.FreeHeld(kstack);
        GoodSame(m0, vm.M(), regions, procs);
        return Error;
      }
      TakeFrame(m0, c.dir);
      FrameTrans(m0, m1, vm.M(), c.dir, 0, 0, {kstack}, 0, UPAGES, {}, 0, UPAGES);
      assert {kstack} + {} == {kstack};
      OwnedInRange(m1, kstack);
      FrameKeeps(m1, vm.M(), c.dir, 0, UPAGES, {}, kstack);
      ChildLow(vm.M(), procs[j], procs[i], c.dir, kstack, vm.data);
      StartGood(m0, vm.M(), regions, procs, j, c.dir, kstack, procs[i].sz);
      GoodParts(m0, regions, procs, j, 0);
      SlotHoldsNone(m0, regions, procs[j], c.dir, kstack, procs[i].sz);
      procs := procs[j := Started(procs[j], c.dir, kstack, procs[i].sz)];
      return Value(j);
    }

    /** The first process, with one page that holds the initial code; Halt if there is no memory for it. */
    method Userinit(init: Page) returns (r: Result)
      requires Valid() && procs[0].state == Unused
      modifies this`procs, vm
      ensures r.Value? || r.Halt?
      ensures r.Value? ==>
        Valid() && procs == old(procs)[0 := procs[0]] && procs[0].state == Live && procs[0].sz == 4096
      ensures r.Value? ==> FirstPage(vm.M(), procs[0].pgdir, init)
      ensures r.Halt? <==> |old(vm.free)| < 1 + KVMPAGES + 2
    {
      hide Own, Listed, Frame, Good, ProcOk, OneSpace, SameSpaces, KernelOnly, LowOk, FirstPage, Tabled, NoLowTables;
      ghost var m0 := vm.M();
      GoodParts(m0, regions, procs, 0, 0);
      var kstack := vm.Kalloc();
      if kstack == 0 { return Halt; }
      NewIsUnowned(m0);
      ghost var m1 := vm.M();
      var d := vm.Setupkvm();
      if d == 0 { return Halt; }
      ghost var m2 := vm.M();
      KernelGapAt(vm.pages, d, vm.data, 0);
      LackingFirst(vm.pages, d);
      var o, b := vm.GrowPage(d, 0, 6, init);
      if !o.Mapped? { return Halt; }
      FirstLow(m2, vm.M(), procs[0], d, kstack, b, vm.data);
      FirstIs(m2, vm.M(), d, b, init);
      TakeFrame(m0, d);
      FrameChain(m1, m2, vm.M(), d, 0, 0, 0, 1, 0, UPAGES);
      FrameTrans(m0, m1, vm.M(), d, 0, 0, {kstack}, 0, UPAGES, {}, 0, UPAGES);
      assert {kstack} + {} == {kstack};
      OwnedInRange(m1, kstack);
      FrameKeeps(m1, vm.M(), d, 0, UPAGES, {}, kstack);
      StartGood(m0, vm.M(), regions, procs, 0, d, kstack, 4096);
      procs := procs[0 := Started(procs[0], d, kstack, 4096)];
      return Value(0);
    }

    /**
     * sbrk: grows or shrinks the process's own memory; when it cannot grow, nothing that is mapped changes.
     * A shrink to size 0 frees the pages and still fails, leaving the old size: exactly then the state is
     * no longer in order.
     */
    method Growproc(i: nat, n: int) returns (r: Result)
      requires Valid() && i < NPROC && procs[i].state == Live && -0x8000_0000 <= n < 0x8000_0000
      modifies this`procs, vm
      ensures (r.Value? || r.Error?) && (Valid() <==> old(procs[i].sz) + n != 0)
      ensures old(procs[i].sz) + n == 0 ==> r.Error?
      ensures r.Error? ==> procs == old(procs)
      ensures r.Error? && old(procs[i].sz) + n != 0 ==> n > 0 && SameMaps(old(vm.pages), vm.pages, vm.dirs)
      ensures n > 0 ==> (r.Error? <==>
        || old(procs[i].sz) + n >= old(procs[i].sh) * 4096
        || |old(vm.free)| < PagesFor(old(vm.pages), old(procs[i].pgdir), PageUp(old(procs[i].sz)),
                                     PageUp(old(procs[i].sz) + n)))
      ensures r.Value? ==>
        && procs == old(procs)[i := procs[i]]
        && procs[i] == Resized(old(procs[i]), if old(procs[i].sz) + n < 0 then old(procs[i].sz)
                                              else old(procs[i].sz) + n)
      ensures r.Value? && n > 0 ==> Zeroed(vm.M(), procs[i].pgdir, PageUp(old(procs[i].sz)), PageUp(procs[i].sz))
      ensures r.Value? && n > 0 ==> ReachAll(vm.pages, procs[i].pgdir, PageUp(old(procs[i].sz)), PageUp(procs[i].sz))
    {
      hide Own, Listed, Frame, Good, ProcOk, LowOk, Zeroed, SameElsewhere, SameMaps, Cleared, Private, Entry, ReachAll,
        PagesFor;
      ghost var m0 := vm.M();
      GoodParts(m0, regions, procs, i, 0);
      ProcParts(m0, regions, procs[i]);
      LowOf(m0, regions, procs[i]);
      MemorySize(m0, regions, procs[i]);
      ghost var p, d := procs[i], procs[i].pgdir;
      var sz := procs[i].sz;
      if n > 0 {
        if sz + n < p.sh * 4096 { LowGap(m0, p, PageUp(sz + n)); }
        var got := vm.Allocuvm(procs[i].pgdir, sz, sz + n, procs[i].sh * 4096);
        if got == 0 {
          GrowFailed(m0, vm.M(), regions, procs, i, sz + n);
          assert procs[i := Resized(procs[i], procs[i].sz)] == procs;
          return Error;
        }
        GrowGood(m0, vm.M(), regions, procs, i, sz + n);
        sz := got;
      } else if n < 0 {
        var newsz := (sz + n) % UINT_LIMIT;
        LowPrivate(m0, p, PageUp(newsz));
        sz := vm.Deallocuvm(procs[i].pgdir, sz, newsz);
        if sz == 0 {
          EmptyIsBad(m0, vm.M(), regions, procs, i);
          return Error;
        }
        if newsz < p.sz {
          ShrinkGood(m0, vm.M(), regions, procs, i, newsz);
        } else {
          NothingCleared(m0, vm.M(), regions, procs, i, PageUp(newsz), PageUp(p.sz));
        }
      } else {
        assert procs[i := Resized(procs[i], procs[i].sz)] == procs;
      }
      procs := procs[i := procs[i].(sz := sz)];
      return Value(0);
    }
  }
}
