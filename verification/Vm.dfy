/**
 Virtual memory (kernel/vm.c) over the frame allocator (kernel/kalloc.c): walk,
 mappages, uvmunmap, uvmalloc, uvmdealloc and uvmcopy refine operations on flat
 maps from page numbers to entries, and lose no frame on any failure path.
 */
module Vm {
  import opened Seqs
  import opened PageTable
  import opened Memory
  import opened UserMemory
  import opened Dismantle

  const PGSIZE: nat := 4096

  /** Rounding a byte count up to pages, PGROUNDUP(sz) / PGSIZE. */
  function PgUp(sz: nat): nat {
    (sz + PGSIZE - 1) / PGSIZE
  }

  /** How many pages mappages covers for size bytes at va. */
  function PagesOf(va: nat, size: nat): nat
    requires size > 0
  {
    (va + size - 1) / PGSIZE - va / PGSIZE + 1
  }

  datatype Outcome = Ok | NoMemory | Panicked

  class Machine {
    var pt: Tables
    var page: map<nat, Page>
    var free: seq<nat>
    ghost var role: Roles

    ghost function S(): State
      reads this
    {
      State(pt, page, free, role)
    }

    /** kalloc: the head of the free list, -1 when it is empty. */
    method Kalloc() returns (f: int)
      requires Good(S())
      modifies this
      ensures Good(S())
      ensures if old(free) == [] then f == -1 && S() == old(S())
              else f == old(free)[0] && S() == Taken(old(S()), Filled(5), Junk(5))
    {
      if free == [] {
        return -1;
      }
      TakeGood(S(), Filled(5), Junk(5));
      f := free[0];
      free := free[1..];
      pt := pt[f := Filled(5)];
      page := page[f := Junk(5)];
      role := role[f := Fresh];
    }

    /** kfree: the frame goes to the head of the free list. */
    method Kfree(f: nat)
      modifies this
      ensures S() == Given(old(S()), f, Filled(1), Junk(1))
    {
      free := [f] + free;
      pt := pt[f := Filled(1)];
      page := page[f := Junk(1)];
      role := role[f := Free];
    }

    /** walk: the table that holds the last-level entry of page v, -1 if it is missing and may not or
        cannot be allocated. Only the tables lacking on the way are added. */
    method Walk(r: nat, v: nat, alloc: bool) returns (t: int, ghost added: set<Role>)
      requires Sound(S()) && (alloc ==> Good(S())) && IsRoot(role, r) && v < MAXVPN
      modifies this
      ensures Walked(old(S()), S(), r, v, alloc, t, added)
      ensures t >= 0 <==> |Lacking(old(pt), Path(r, v))| <= if alloc then |old(free)| else 0
    {
      hide Sound, NoStale, Extended, Lacking, Path, PathAbove, TablesAdded, Has, L0;
      var level := 2;
      t, added := r, {};
      ghost var s0 := S();
      ExtendedRefl(s0, r, alloc);
      PathTop(s0.pt, r, v);
      while level > 0
        invariant 0 <= level <= 2 && 0 <= t && At(pt, r, v, level, t)
        invariant Extended(s0, S(), r, alloc, added) && added == Lacking(s0.pt, PathAbove(r, v, level))
        decreases level
      {
        ghost var s1, more := S(), {};
        ExtendedFacts(s0, s1, r, alloc, added);
        PathMore(s0, s1, r, v, level);
        t, more := Descend(r, v, level, t, alloc);
        ExtendedMore(s0, s1, S(), r, alloc, added, more);
        added := added + more;
        if t < 0 {
          WalkedCount(s0, S(), r, v, alloc, t, added);
          return;
        }
        level := level - 1;
      }
      PathTop(s0.pt, r, v);
      WalkedCount(s0, S(), r, v, alloc, t, added);
    }

    /** One turn of the loop in walk. */
    method Descend(r: nat, v: nat, level: nat, table: nat, alloc: bool) returns (t: int, ghost more: set<Role>)
      requires Sound(S()) && (alloc ==> Good(S())) && IsRoot(role, r) && v < MAXVPN && 1 <= level <= 2
      requires At(pt, r, v, level, table)
      modifies this
      ensures Extended(old(S()), S(), r, alloc, more)
      ensures t >= 0 ==> At(pt, r, v, level - 1, t) && more == Lacking(old(pt), {PlaceBelow(r, v, level)})
      ensures t < 0 ==> more == {} && !Has(old(pt), PlaceBelow(r, v, level)) && L0(pt, r, v / ENTRIES) < 0
      ensures t < 0 && alloc ==> free == []
    {
      hide Sound, Good, Grown, Below, Junk, At, L0, Has, PlaceBelow;
      ghost var s0 := S();
      ExtendedRefl(s0, r, alloc);
      more := {};
      StepDown(s0, r, v, level, table);
      if IsValid(pt[table][Px(level, v)]) {
        t := pt[table][Px(level, v)].ppn;
        return;
      }
      if !alloc || free == [] {
        return -1, {};
      }
      AddBelow(s0, r, v, level, table, Junk(0));
      t := AddLevel(r, v, level, table);
      more := {PlaceBelow(r, v, level)};
    }

    /** Allocate, zero and link the table below `table`. */
    method AddLevel(r: nat, v: nat, level: nat, table: nat) returns (t: nat)
      requires Good(S()) && v < VPNS && 1 <= level <= 2 && free != [] && table in pt && table != free[0]
      modifies this
      ensures t == old(free)[0] && S() == Below(old(S()), r, v, level, table, Junk(0))
    {
      hide Sound, Good, ZeroTable, Filled, Junk, PlaceBelow, Px;
      ghost var s0 := S();
      t := Kalloc();
      pt := pt[t := ZeroTable()];
      page := page[t := Junk(0)];
      PxIndex(level, v);
      assert pt == s0.pt[t := ZeroTable()] && page == s0.page[t := Junk(0)];
      pt := pt[table := pt[table][Px(level, v) := Pte(t, PTE_V)]];
      role := role[t := PlaceBelow(r, v, level)];
      assert role == s0.role[t := PlaceBelow(r, v, level)];
    }

    /** mappages: maps every page of the range, or reports that memory ran out after k of them, which it
        does only when there are fewer free frames than tables lacking on the way. It panics only for an
        empty range, a page beyond MAXVA or a page that is mapped already. */
    method MapPages(r: nat, va: nat, size: nat, pa: nat, perm: nat, ghost own: bool)
      returns (res: Outcome, ghost k: nat, ghost added: set<Role>)
      requires Good(S()) && IsRoot(role, r) && IsLeaf(Pte(0, WithValid(perm)))
      requires size > 0 ==> forall g: nat | pa / PGSIZE <= g < pa / PGSIZE + PagesOf(va, size) :: Mappable(role, g, own)
      modifies this
      ensures Maps(old(S()), S(), r, va / PGSIZE, k, pa / PGSIZE, perm, own, added)
      ensures res == Ok ==> size > 0 && k == PagesOf(va, size) && added == Lacking(old(pt), Paths(r, va / PGSIZE, k))
      ensures res == NoMemory ==>
                && size > 0 && k < PagesOf(va, size) && free == []
                && added < Lacking(old(pt), Paths(r, va / PGSIZE, k + 1))
                && |old(free)| < |Lacking(old(pt), Paths(r, va / PGSIZE, PagesOf(va, size)))|
      ensures res == Panicked && size > 0 ==>
                k < PagesOf(va, size) && (va / PGSIZE + k >= MAXVPN || IsValid(Look(old(pt), r, va / PGSIZE + k)))
    {
      hide Good, Maps, Grown, Look, L0, PagesOf, Lacking, Path, Paths, TablesAdded;
      ghost var s0 := S();
      k, added := 0, {};
      MapsNothing(s0, r, va / PGSIZE, pa / PGSIZE, perm, own);
      if size == 0 {
        return Panicked, 0, {};
      }
      var a, last := va / PGSIZE, (va + size - 1) / PGSIZE;
      var f := pa / PGSIZE;
      RangePages(va, size);
      NoPaths(s0, r, a);
      while true
        invariant a == va / PGSIZE + k && f == pa / PGSIZE + k && a <= last
        invariant Maps(s0, S(), r, va / PGSIZE, k, pa / PGSIZE, perm, own, added)
        invariant added == Lacking(s0.pt, Paths(r, va / PGSIZE, k))
        decreases last - a
      {
        if a >= MAXVPN {
          return Panicked, k, added;
        }
        ghost var s1 := S();
        MapsGood(s0, s1, r, va / PGSIZE, k, pa / PGSIZE, perm, own, added);
        PathsMore(s0, s1, r, va / PGSIZE, k);
        var t; ghost var more;
        t, more := Walk(r, a, true);
        WalkedMaps(s0, s1, S(), r, va / PGSIZE, k, pa / PGSIZE, perm, own, t, added, more);
        added := added + more;
        if t < 0 {
          MapsRunsOut(s0, S(), r, va / PGSIZE, k, PagesOf(va, size), pa / PGSIZE, perm, own, added);
          return NoMemory, k, added;
        }
        if IsValid(pt[t][a % ENTRIES]) {
          return Panicked, k, added;
        }
        assert Mappable(s0.role, pa / PGSIZE + k, own);
        MapsOne(s0, S(), r, va / PGSIZE, k, pa / PGSIZE, perm, own, t, added);
        role := MappedRole(role, r, a, f, own);
        pt := pt[t := pt[t][a % ENTRIES := Pte(f, WithValid(perm))]];
        k := k + 1;
        if a == last {
          return Ok, k, added;
        }
        a, f := a + 1, f + 1;
      }
    }

    /** uvmunmap: every page of the range is unmapped, and its frame freed if doFree. It panics exactly
        when va is not page-aligned or some page of the range is not mapped. */
    method UvmUnmap(r: nat, va: nat, npages: nat, doFree: bool) returns (panicked: bool)
      requires Sound(S()) && IsRoot(role, r)
      requires doFree ==> forall w: nat | va / PGSIZE <= w < va / PGSIZE + npages && w < VPNS :: Removable(S(), r, w)
      modifies this
      ensures !panicked ==> Unmaps(old(S()), S(), r, va / PGSIZE, npages, doFree)
      ensures panicked <==> va % PGSIZE != 0 || SomeMissing(old(pt), r, va / PGSIZE, npages)
    {
      hide Sound, Unmaps, Removable, Look, L0, Cleared, Given, IsLeaf, Walked, Lacking, Path;
      ghost var s0 := S();
      UnmapsNothing(s0, r, va / PGSIZE, doFree);
      panicked := va % PGSIZE != 0;
      if panicked {
        return;
      }
      var a := va / PGSIZE;
      ghost var k := 0;
      while a < va / PGSIZE + npages
        invariant 0 <= k <= npages && a == va / PGSIZE + k
        invariant Unmaps(s0, S(), r, va / PGSIZE, k, doFree)
        invariant forall w: nat | va / PGSIZE <= w < a :: !Missing(s0.pt, r, va / PGSIZE, npages, w)
      {
        ghost var s1 := S();
        if a >= MAXVPN {
          MissingAt(s0, r, va / PGSIZE, npages, a);
          return true;
        }
        StillThere(s0, s1, r, va / PGSIZE, k, doFree, a);
        UnmapsKeepsGood(s0, s1, r, va / PGSIZE, k, doFree);
        var t; ghost var more;
        t, more := Walk(r, a, false);
        WalkedEntry(s1, S(), r, a, t, more);
        if t < 0 || !IsValid(pt[t][a % ENTRIES]) {
          MissingAt(s0, r, va / PGSIZE, npages, a);
          return true;
        }
        ClearGood(s1, r, a, t, doFree);
        LeafFlags(pt[t][a % ENTRIES]);
        if pt[t][a % ENTRIES].flags == PTE_V {
          assert false;
        }
        NotMissing(s0, r, va / PGSIZE, npages, a);
        ClearEntry(r, t, a, doFree);
        UnmapsMore(s0, s1, S(), r, va / PGSIZE, k, doFree);
        a, k := a + 1, k + 1;
      }
      NoneMissing(s0.pt, r, va / PGSIZE, npages);
    }

    /** The end of one turn of uvmunmap. */
    method ClearEntry(ghost r: nat, t: nat, a: nat, doFree: bool)
      requires t in pt
      modifies this
      ensures S() == Cleared(old(S()), r, t, a, old(pt)[t][a % ENTRIES].ppn, doFree)
    {
      var f := pt[t][a % ENTRIES].ppn;
      if doFree {
        Kfree(f);
      } else {
        role := LetGo(role, r, a, f);
      }
      pt := pt[t := pt[t][a % ENTRIES := Pte(0, 0)]];
    }

    /** uvmdealloc: the pages between the two sizes, rounded up, are unmapped and freed. It panics exactly
        when one of them is not mapped. */
    method UvmDealloc(r: nat, oldsz: nat, newsz: nat) returns (sz: nat, panicked: bool)
      requires Sound(S()) && IsRoot(role, r)
      requires forall w: nat | PgUp(newsz) <= w < PgUp(oldsz) && w < VPNS :: Removable(S(), r, w)
      modifies this
      ensures panicked <==> SomeMissing(old(pt), r, PgUp(newsz), PgUp(oldsz) - PgUp(newsz))
      ensures !panicked ==> sz == if newsz >= oldsz then oldsz else newsz
      ensures !panicked ==>
                if PgUp(newsz) < PgUp(oldsz)
                then Unmaps(old(S()), S(), r, PgUp(newsz), PgUp(oldsz) - PgUp(newsz), true)
                else S() == old(S())
    {
      hide Sound, Unmaps, Removable, Look;
      panicked := false;
      if newsz >= oldsz {
        PgUpMonotone(oldsz, newsz);
        return oldsz, false;
      }
      PgUpMonotone(newsz, oldsz);
      if PgUp(newsz) < PgUp(oldsz) {
        var npages := (PgUp(oldsz) * PGSIZE - PgUp(newsz) * PGSIZE) / PGSIZE;
        PageMultiple(PgUp(newsz));
        panicked := UvmUnmap(r, PgUp(newsz) * PGSIZE, npages, true);
      }
      sz := newsz;
    }

    /** uvmalloc: with a free frame for each page and each table lacking on the way, every page from the old
        size to the new one is mapped to a zeroed frame of its own; with fewer, the result is 0 and
        everything is as before, except for table pages. */
    method UvmAlloc(r: nat, oldsz: nat, newsz: nat, xperm: nat) returns (sz: nat, panicked: bool)
      requires Good(S()) && IsRoot(role, r) && xperm in {0, PTE_W, PTE_X, PTE_W + PTE_X}
      requires PgUp(newsz) <= MAXVPN && Vacant(S(), r, PgUp(oldsz), PgUp(newsz))
      modifies this
      ensures !panicked
      ensures newsz < oldsz ==> sz == oldsz && S() == old(S())
      ensures newsz >= oldsz ==> PgUp(oldsz) <= PgUp(newsz)
      ensures newsz >= oldsz && |old(free)| >= Need(old(S()), r, PgUp(oldsz), PgUp(newsz)) ==>
                && sz == newsz
                && Adds(old(S()), S(), r, PgUp(oldsz), PgUp(newsz), NewTables(old(S()), r, PgUp(oldsz), PgUp(newsz)))
                && Fills(S(), r, PgUp(oldsz), Zeroed(PTE_R + PTE_U + xperm + PTE_V, PgUp(newsz) - PgUp(oldsz)))
      ensures newsz >= oldsz && |old(free)| >= Need(old(S()), r, PgUp(oldsz), PgUp(newsz)) ==>
                AllZero(S(), r, PgUp(oldsz), PgUp(newsz), PTE_V + PTE_R + PTE_U + xperm)
      ensures newsz >= oldsz && |old(free)| < Need(old(S()), r, PgUp(oldsz), PgUp(newsz)) ==>
                sz == 0 && Restored(old(S()), S(), r, NewTables(old(S()), r, PgUp(oldsz), PgUp(newsz)))
    {
      hide Good, Adds, Fills, Restored, Maps, Unmaps, Vacant, Look, Zeroed, Need, NewTables, AllZero;
      panicked := false;
      if newsz < oldsz {
        return oldsz, false;
      }
      ghost var s0 := S();
      PgUpMonotone(oldsz, newsz);
      AddsNothing(s0, r, PgUp(oldsz));
      FillsNothing(s0, r, PgUp(oldsz), PTE_R + PTE_U + xperm + PTE_V);
      var a := PgUp(oldsz);
      while a * PGSIZE < newsz
        invariant PgUp(oldsz) <= a <= PgUp(newsz)
        invariant Adds(s0, S(), r, PgUp(oldsz), a, NewTables(s0, r, PgUp(oldsz), a))
        invariant Fills(S(), r, PgUp(oldsz), Zeroed(PTE_R + PTE_U + xperm + PTE_V, a - PgUp(oldsz)))
        decreases PgUp(newsz) - a
      {
        BelowPgUp(a, newsz);
        VacantAt(s0, r, PgUp(oldsz), PgUp(newsz), a);
        ZeroedMore(PTE_R + PTE_U + xperm + PTE_V, a - PgUp(oldsz));
        ghost var added;
        var ok;
        ok, added := GrowOne(r, PgUp(oldsz), a, PTE_R + PTE_U + xperm, Junk(0), s0,
                             Zeroed(PTE_R + PTE_U + xperm + PTE_V, a - PgUp(oldsz)));
        if !ok {
          NeedMonotone(s0, r, PgUp(oldsz), a + 1, PgUp(newsz));
          panicked := UndoAlloc(r, PgUp(oldsz), a, s0, added, NewTables(s0, r, PgUp(oldsz), PgUp(newsz)));
          return 0, panicked;
        }
        a := a + 1;
      }
      AbovePgUp(a, newsz);
      EnoughFrames(s0, S(), r, PgUp(oldsz), a);
      ZeroPages(S(), r, PgUp(oldsz), PTE_R + PTE_U + xperm + PTE_V, a - PgUp(oldsz));
      sz := newsz;
    }

    /** One page of uvmalloc or uvmcopy: take a frame, fill it and map it; on failure the frame goes back. */
    method GrowOne(r: nat, ghost lo: nat, a: nat, perm: nat, bytes: Page, ghost s0: State, ghost want: seq<Want>)
      returns (ok: bool, ghost added: set<Role>)
      requires Good(s0) && IsRoot(s0.role, r) && lo <= a < MAXVPN && IsLeaf(Pte(0, WithValid(perm)))
      requires Adds(s0, S(), r, lo, a, NewTables(s0, r, lo, a))
      requires |want| == a - lo && Fills(S(), r, lo, want) && !IsValid(Look(s0.pt, r, a))
      modifies this
      ensures ok ==> Adds(s0, S(), r, lo, a + 1, NewTables(s0, r, lo, a + 1))
      ensures ok ==> Fills(S(), r, lo, want + [Want(WithValid(perm), bytes)])
      ensures !ok ==> Adds(s0, S(), r, lo, a, added) && added <= NewTables(s0, r, lo, a + 1)
      ensures !ok ==> |s0.free| < Need(s0, r, lo, a + 1)
    {
      hide Good, Adds, Fills, Maps, Look, IsLeaf, Filled, Junk, NewTables, Need, Lacking, Paths, Path;
      ghost var s1 := S();
      added := NewTables(s0, r, lo, a);
      AddsFacts(s0, s1, r, lo, a, added);
      var mem := Kalloc();
      if mem < 0 {
        NoFrame(s0, s1, r, lo, a);
        return false, added;
      }
      page := page[mem := bytes];
      ghost var s2 := S();
      FillTaken(s1, bytes);
      assert s2.page == Taken(s1, Filled(5), bytes).page;
      assert s2 == Taken(s1, Filled(5), bytes);
      TakenFacts(s1, s2, r, a, mem, bytes);
      PageMultiple(a);
      PageMultiple(mem);
      OnePage(a);
      OnePath(s2.pt, r, a);
      var res; ghost var k, more;
      res, k, more := MapPages(r, a * PGSIZE, PGSIZE, mem * PGSIZE, perm, true);
      ok := res == Ok;
      if ok {
        AddPage(s0, s1, S(), r, lo, a, Filled(5), bytes, perm, want, added, more);
        AllTables(s0, s1, r, lo, a, bytes, more);
      } else {
        NoTable(s0, s1, s2, S(), r, lo, a, bytes, perm, mem, more);
        DropPage(s0, s1, S(), r, lo, a, Filled(5), bytes, perm, want, added, more);
        Kfree(mem);
        added := added + more;
      }
    }

    /** uvmalloc's error path: uvmdealloc takes back the pages added so far. */
    method UndoAlloc(r: nat, lo: nat, a: nat, ghost s0: State, ghost added: set<Role>, ghost places: set<Role>)
      returns (panicked: bool)
      requires Good(s0) && IsRoot(s0.role, r) && lo <= a <= MAXVPN && Vacant(s0, r, lo, a)
      requires Adds(s0, S(), r, lo, a, added) && added <= places
      modifies this
      ensures !panicked && Restored(s0, S(), r, places)
    {
      hide Good, Adds, Unmaps, Restored, Vacant, Look, Removable;
      ghost var s1 := S();
      AddsFacts(s0, s1, r, lo, a, added);
      AllAddedRemovable(s0, s1, r, lo, a, added);
      PageMultiple(lo);
      PageMultiple(a);
      var sz;
      sz, panicked := UvmDealloc(r, a * PGSIZE, lo * PGSIZE);
      if lo < a {
        Rollback(s0, s1, S(), r, lo, a, added, places);
      } else {
        RollbackNothing(s0, s1, r, lo, added, places);
      }
    }

    /** uvmcopy: with frames enough the child gets a page for each of the parent's, with the same flags and
        bytes, on frames that were free; otherwise everything is as before, except for table pages. */
    method UvmCopy(parent: nat, child: nat, sz: nat) returns (ok: bool, panicked: bool)
      requires Good(S()) && IsRoot(role, parent) && IsRoot(role, child) && parent != child && PgUp(sz) <= MAXVPN
      requires forall w: nat | w < PgUp(sz) ::
                 IsValid(Look(pt, parent, w)) && HasRole(role, Look(pt, parent, w).ppn, User(parent, w))
      requires Vacant(S(), child, 0, PgUp(sz))
      modifies this
      ensures !panicked
      ensures ok <==> |old(free)| >= Need(old(S()), child, 0, PgUp(sz))
      ensures ok ==> Adds(old(S()), S(), child, 0, PgUp(sz), NewTables(old(S()), child, 0, PgUp(sz)))
      ensures ok ==> Fills(S(), child, 0, Copied(old(S()), parent, PgUp(sz)))
      ensures ok ==> forall w: nat | w < PgUp(sz) :: SamePage(old(S()), parent, S(), child, w)
      ensures !ok ==> Restored(old(S()), S(), child, NewTables(old(S()), child, 0, PgUp(sz)))
    {
      hide Good, Adds, Fills, Restored, Vacant, Look, Copied, IsLeaf, Need, NewTables, Walked, Lacking, Path, SamePage;
      panicked, ok := false, true;
      ghost var s0 := S();
      AddsNothing(s0, child, 0);
      CopiedNothing(s0, parent, child);
      var i := 0;
      while i * PGSIZE < sz
        invariant i <= PgUp(sz) && Adds(s0, S(), child, 0, i, NewTables(s0, child, 0, i))
        invariant Fills(S(), child, 0, Copied(s0, parent, i))
        decreases PgUp(sz) - i
      {
        BelowPgUp(i, sz);
        VacantAt(s0, child, 0, PgUp(sz), i);
        ghost var s1 := S();
        AddsFacts(s0, s1, child, 0, i, NewTables(s0, child, 0, i));
        ParentPage(s0, s1, parent, child, i, NewTables(s0, child, 0, i));
        var t; ghost var none;
        t, none := Walk(parent, i, false);
        WalkedEntry(s1, S(), parent, i, t, none);
        if t < 0 || !IsValid(pt[t][i % ENTRIES]) {
          assert false;
        }
        var pa, flags := pt[t][i % ENTRIES].ppn, pt[t][i % ENTRIES].flags;
        CopiedMore(s0, parent, i);
        ghost var added;
        ok, added := GrowOne(child, 0, i, flags, page[pa], s0, Copied(s0, parent, i));
        if !ok {
          NeedMonotone(s0, child, 0, i + 1, PgUp(sz));
          panicked := UndoCopy(child, i, s0, added, NewTables(s0, child, 0, PgUp(sz)));
          return;
        }
        i := i + 1;
      }
      AbovePgUp(i, sz);
      EnoughFrames(s0, S(), child, 0, i);
      ParentPages(s0, parent, i);
      SamePagesCopied(s0, parent, S(), child, i);
    }

    /** uvmcopy's error path: uvmunmap takes back the pages copied so far. */
    method UndoCopy(r: nat, i: nat, ghost s0: State, ghost added: set<Role>, ghost places: set<Role>)
      returns (panicked: bool)
      requires Good(s0) && IsRoot(s0.role, r) && i <= MAXVPN && Vacant(s0, r, 0, i)
      requires Adds(s0, S(), r, 0, i, added) && added <= places
      modifies this
      ensures !panicked && Restored(s0, S(), r, places)
    {
      hide Good, Adds, Unmaps, Restored, Vacant, Look, Removable;
      ghost var s1 := S();
      AddsFacts(s0, s1, r, 0, i, added);
      AllAddedRemovable(s0, s1, r, 0, i, added);
      PageMultiple(i);
      panicked := UvmUnmap(r, 0, i * PGSIZE / PGSIZE, true);
      Rollback(s0, s1, S(), r, 0, i, added, places);
    }

    /** freewalk: every table page at and below f is freed, once, and no other frame. It panics exactly when
        there is a leaf at or below f. */
    method FreeWalk(f: nat, ghost r: nat, ghost level: nat, ghost prefix: nat) returns (panicked: bool)
      requires Sound(S()) && Sub(pt, role, f, r, level, prefix)
      modifies this
      ensures panicked <==> HasLeaf(old(pt), f, level)
      ensures !panicked ==> Freed(old(S()), S(), r, level, prefix)
      decreases level
    {
      hide Sound, Sub, Freed, Swept, Filled, Junk, LeafAt, HasLeaf, IsLeaf;
      ghost var s0 := S();
      SweptNothing(s0, f, r, level, prefix);
      var i := 0;
      while i < 512
        invariant 0 <= i <= 512 && Swept(s0, S(), f, r, level, prefix, i)
        invariant forall j: nat | j < i :: !LeafAt(s0.pt, f, level, j)
      {
        ghost var s1 := S();
        SweptFacts(s0, s1, f, r, level, prefix, i);
        var pte := pt[f][i];
        if IsValid(pte) {
          NextSubtree(s0, s1, f, r, level, prefix, i);
        }
        if IsValid(pte) && !IsLeaf(pte) {
          panicked := FreeWalk(pte.ppn, r, level - 1, prefix * ENTRIES + i);
          if panicked {
            LeafFound(s0.pt, f, level, i);
            return;
          }
          SweptValid(s0, s1, S(), f, r, level, prefix, i);
          pt := pt[f := pt[f][i := Pte(0, 0)]];
        } else if IsValid(pte) {
          LeafFound(s0.pt, f, level, i);
          return true;
        } else {
          SweptInvalid(s0, s1, f, r, level, prefix, i);
        }
        i := i + 1;
      }
      NoLeafFound(s0.pt, f, level);
      FreeTop(s0, S(), f, r, level, prefix);
      Kfree(f);
      panicked := false;
    }

    /** uvmfree: the user pages and all the table pages of r are freed, and nothing else. It panics exactly
        when a page below the size is not mapped or one beyond it still is. */
    method UvmFree(r: nat, sz: nat) returns (panicked: bool)
      requires Sound(S()) && Settled(S()) && IsRoot(role, r)
      requires forall w: nat | w < PgUp(sz) && w < VPNS :: Removable(S(), r, w)
      modifies this
      ensures panicked <==> SomeMissing(old(pt), r, 0, PgUp(sz)) || MappedFrom(old(pt), r, PgUp(sz))
      ensures !panicked ==> Destroyed(old(S()), S(), r)
    {
      hide Sound, Settled, Sub, Freed, Unmaps, Destroyed, Removable, Look, Doom, HasLeaf, MappedFrom;
      ghost var s0 := S();
      UnmapsNothing(s0, r, 0, true);
      if sz > 0 {
        panicked := UvmUnmap(r, 0, PgUp(sz) * PGSIZE / PGSIZE, true);
        if panicked {
          return;
        }
      }
      ghost var s1 := S();
      UnmapsBelow(s0, s1, r, PgUp(sz));
      OutOfService(s1, r);
      role := Doom(role, r);
      panicked := FreeWalk(r, r, 2, 0);
      if !panicked {
        FreesWhole(s0, s1, S(), r, PgUp(sz));
      }
    }
  }

  /** No frame was left for page a itself. */
  lemma NoFrame(s0: State, s1: State, r: nat, lo: nat, a: nat)
    requires lo <= a && Adds(s0, s1, r, lo, a, NewTables(s0, r, lo, a)) && s1.free == []
    ensures NewTables(s0, r, lo, a) <= NewTables(s0, r, lo, a + 1) && |s0.free| < Need(s0, r, lo, a + 1)
  {
    NeedMonotone(s0, r, lo, a, a + 1);
    assert |s0.free| == Need(s0, r, lo, a);
    SubsetSize(NewTables(s0, r, lo, a), NewTables(s0, r, lo, a + 1));
  }

  lemma OnePath(pt: Tables, r: nat, a: nat)
    ensures Paths(r, a, 1) == Path(r, a)
  {
    assert Paths(r, a, 0) == {};
  }

  /** The page is mapped, and all the tables on the way to it are there. */
  lemma AllTables(s0: State, s1: State, r: nat, lo: nat, a: nat, bytes: Page, more: set<Role>)
    requires lo <= a && Adds(s0, s1, r, lo, a, NewTables(s0, r, lo, a)) && IsRoot(s0.role, r) && s1.free != []
    requires more == Lacking(Taken(s1, Filled(5), bytes).pt, Path(r, a))
    ensures NewTables(s0, r, lo, a) + more == NewTables(s0, r, lo, a + 1)
  {
    TakenPaths(s0, s1, r, lo, a, Filled(5), bytes);
  }

  /** There was a frame for page a, but not for all the tables on the way to it. */
  lemma NoTable(s0: State, s1: State, s2: State, s3: State, r: nat, lo: nat, a: nat, bytes: Page, perm: nat, f: nat,
                more: set<Role>)
    requires lo <= a && Adds(s0, s1, r, lo, a, NewTables(s0, r, lo, a)) && IsRoot(s0.role, r) && s1.free != []
    requires s2 == Taken(s1, Filled(5), bytes) && Maps(s2, s3, r, a, 0, f, perm, true, more) && s3.free == []
    requires more < Lacking(s2.pt, Path(r, a))
    ensures NewTables(s0, r, lo, a) + more <= NewTables(s0, r, lo, a + 1) && |s0.free| < Need(s0, r, lo, a + 1)
  {
    hide Good, SamePages, AddsEntries, AddsRoles, MapsEntries, MapsRoles, TablesAdded, Lacking, Path, Paths, Filled;
    var rest := Lacking(s2.pt, Path(r, a));
    TakenPaths(s0, s1, r, lo, a, Filled(5), bytes);
    ProperSubsetSize(more, rest);
    assert |NewTables(s0, r, lo, a) + rest| == |NewTables(s0, r, lo, a)| + |rest|;
    assert |s2.free| == |s1.free| - 1;
  }

  lemma AllAddedRemovable(s0: State, s1: State, r: nat, lo: nat, a: nat, added: set<Role>)
    requires Adds(s0, s1, r, lo, a, added) && a <= MAXVPN
    ensures forall w: nat | lo <= w < a :: Removable(s1, r, w)
    ensures !SomeMissing(s1.pt, r, lo, a - lo)
  {
    forall w: nat | lo <= w < a
      ensures IsValid(Look(s1.pt, r, w)) && Removable(s1, r, w)
    {
      AddedRemovable(s0, s1, r, lo, a, added, w);
    }
  }

  lemma LeafFound(pt: Tables, f: nat, level: nat, i: nat)
    requires i < ENTRIES && LeafAt(pt, f, level, i)
    ensures HasLeaf(pt, f, level)
  {
  }

  lemma NoLeafFound(pt: Tables, f: nat, level: nat)
    requires forall i: nat | i < ENTRIES :: !LeafAt(pt, f, level, i)
    ensures !HasLeaf(pt, f, level)
  {
  }

  lemma PathTop(pt: Tables, r: nat, v: nat)
    ensures Lacking(pt, PathAbove(r, v, 2)) == {} && PathAbove(r, v, 0) == Path(r, v)
  {
  }

  lemma NoPaths(s: State, r: nat, a: nat)
    ensures Lacking(s.pt, Paths(r, a, 0)) == {}
  {
  }

  /** walk failed: every frame there was is a table page now, and one more is lacking. */
  lemma MapsRunsOut(s0: State, s: State, r: nat, a: nat, k: nat, n: nat, f: nat, perm: nat, own: bool, added: set<Role>)
    requires Maps(s0, s, r, a, k, f, perm, own, added) && s.free == [] && k < n
    requires added < Lacking(s0.pt, Paths(r, a, k + 1))
    ensures |s0.free| < |Lacking(s0.pt, Paths(r, a, n))|
  {
    hide Good, SamePages, MapsEntries, MapsRoles, TablesAdded, Paths, Has;
    PathsMonotone(r, a, k + 1, n);
    ProperSubsetSize(added, Lacking(s0.pt, Paths(r, a, k + 1)));
    SubsetSize(Lacking(s0.pt, Paths(r, a, k + 1)), Lacking(s0.pt, Paths(r, a, n)));
  }

  lemma PxIndex(level: nat, v: nat)
    requires level <= 2
    ensures Px(level, v) < ENTRIES
  {
  }

  lemma SweptFacts(s0: State, s: State, f: nat, r: nat, level: nat, prefix: nat, i: nat)
    requires Swept(s0, s, f, r, level, prefix, i)
    ensures Sound(s) && f in s.pt
  {
  }

  /** Contents wanted by uvmcopy: the flags and bytes of the parent's first n pages. */
  function Copied(s: State, parent: nat, n: nat): seq<Want>
    requires n <= VPNS
  {
    seq(n, w requires 0 <= w < n =>
      Want(Look(s.pt, parent, w).flags,
           if Look(s.pt, parent, w).ppn in s.page then s.page[Look(s.pt, parent, w).ppn] else []))
  }

  lemma CopiedNothing(s: State, parent: nat, child: nat)
    ensures Fills(s, child, 0, Copied(s, parent, 0))
  {
  }

  lemma CopiedMore(s: State, parent: nat, n: nat)
    requires n < VPNS && Look(s.pt, parent, n).ppn in s.page && IsValid(Look(s.pt, parent, n))
    ensures |Copied(s, parent, n)| == n
    ensures Copied(s, parent, n) + [Want(WithValid(Look(s.pt, parent, n).flags), s.page[Look(s.pt, parent, n).ppn])]
            == Copied(s, parent, n + 1)
  {
  }

  /** While the child grows, the parent's page is still where and what it was. */
  lemma ParentPage(s0: State, s1: State, parent: nat, child: nat, i: nat, added: set<Role>)
    requires Good(s0) && IsRoot(s0.role, parent) && parent != child && i < VPNS && Adds(s0, s1, child, 0, i, added)
    requires IsValid(Look(s0.pt, parent, i)) && HasRole(s0.role, Look(s0.pt, parent, i).ppn, User(parent, i))
    ensures IsRoot(s1.role, parent) && Look(s1.pt, parent, i) == Look(s0.pt, parent, i)
    ensures var f := Look(s0.pt, parent, i).ppn; f in s0.page && f in s1.page && s1.page[f] == s0.page[f]
    ensures IsLeaf(Pte(0, WithValid(Look(s0.pt, parent, i).flags)))
  {
    assert Tree(s0.pt, s0.role, parent);
  }

  /** Contents wanted by uvmalloc: n zeroed pages. */
  function Zeroed(flags: nat, n: nat): seq<Want> {
    seq(n, _ => Want(flags, Junk(0)))
  }

  /** Pages lo to hi of r have these flags, and their frames hold zeroes. */
  ghost predicate AllZero(s: State, r: nat, lo: nat, hi: nat, flags: nat) {
    hi <= VPNS && forall w: nat | lo <= w < hi :: ZeroPage(s, r, w, flags)
  }

  ghost predicate ZeroPage(s: State, r: nat, w: nat, flags: nat)
    requires w < VPNS
  {
    && Look(s.pt, r, w).flags == flags && Look(s.pt, r, w).ppn in s.page
    && |s.page[Look(s.pt, r, w).ppn]| == PGSIZE && forall b | b in s.page[Look(s.pt, r, w).ppn] :: b == 0
  }

  lemma ZeroPages(s: State, r: nat, lo: nat, flags: nat, n: nat)
    requires Fills(s, r, lo, Zeroed(flags, n))
    ensures AllZero(s, r, lo, lo + n, flags)
  {
    hide Look;
  }

  /** Page w of r' in s' has the flags and the bytes that page w of r had in s. */
  ghost predicate SamePage(s: State, r: nat, s': State, r': nat, w: nat)
    requires w < VPNS
  {
    && Look(s'.pt, r', w).flags == Look(s.pt, r, w).flags
    && Look(s.pt, r, w).ppn in s.page && Look(s'.pt, r', w).ppn in s'.page
    && s'.page[Look(s'.pt, r', w).ppn] == s.page[Look(s.pt, r, w).ppn]
  }

  lemma ParentPages(s: State, parent: nat, n: nat)
    requires Good(s) && n <= VPNS
    requires forall w: nat | w < n ::
               IsValid(Look(s.pt, parent, w)) && HasRole(s.role, Look(s.pt, parent, w).ppn, User(parent, w))
    ensures forall w: nat | w < n :: Look(s.pt, parent, w).ppn in s.page
  {
    hide Look;
  }

  lemma SamePagesCopied(s: State, parent: nat, s': State, child: nat, n: nat)
    requires n <= VPNS && Fills(s', child, 0, Copied(s, parent, n))
    requires forall w: nat | w < n :: Look(s.pt, parent, w).ppn in s.page
    ensures forall w: nat | w < n :: SamePage(s, parent, s', child, w)
  {
    hide Look;
  }

  lemma ZeroedMore(flags: nat, n: nat)
    ensures |Zeroed(flags, n)| == n && Zeroed(flags, n) + [Want(flags, Junk(0))] == Zeroed(flags, n + 1)
  {
  }

  lemma VacantAt(s: State, r: nat, lo: nat, hi: nat, a: nat)
    requires hi <= VPNS && Vacant(s, r, lo, hi) && lo <= a < hi
    ensures !IsValid(Look(s.pt, r, a)) && Vacant(s, r, lo, a)
  {
  }

  lemma FillsNothing(s: State, r: nat, lo: nat, flags: nat)
    requires lo <= VPNS
    ensures |Zeroed(flags, 0)| == 0 && Fills(s, r, lo, Zeroed(flags, 0))
  {
  }

  lemma PageMultiple(a: nat)
    ensures a * PGSIZE / PGSIZE == a && a * PGSIZE % PGSIZE == 0 && PgUp(a * PGSIZE) == a
  {
  }

  lemma OnePage(a: nat)
    ensures PagesOf(a * PGSIZE, PGSIZE) == 1
  {
  }

  lemma PgUpMonotone(x: nat, y: nat)
    requires x <= y
    ensures PgUp(x) <= PgUp(y)
  {
  }

  lemma BelowPgUp(a: nat, sz: nat)
    requires a * PGSIZE < sz
    ensures a < PgUp(sz)
  {
  }

  lemma AbovePgUp(a: nat, sz: nat)
    requires a * PGSIZE >= sz && a <= PgUp(sz)
    ensures a == PgUp(sz)
  {
  }

  lemma AddsFacts(s0: State, s: State, r: nat, lo: nat, hi: nat, added: set<Role>)
    requires Adds(s0, s, r, lo, hi, added) && IsRoot(s0.role, r)
    ensures Good(s) && Sound(s) && IsRoot(s.role, r)
    ensures hi < VPNS ==> Look(s.pt, r, hi) == Look(s0.pt, r, hi)
  {
  }

  /** Filling the frame just taken does not disturb the memory. */
  lemma FillTaken(s: State, bytes: Page)
    requires Good(s) && s.free != []
    ensures Good(Taken(s, Filled(5), bytes))
  {
    TakeGood(s, Filled(5), bytes);
  }

  lemma TakenFacts(s1: State, s2: State, r: nat, a: nat, f: nat, bytes: Page)
    requires Good(s1) && s1.free != [] && f == s1.free[0] && s2 == Taken(s1, Filled(5), bytes) && IsRoot(s1.role, r)
    requires a < VPNS
    ensures IsRoot(s2.role, r) && HasRole(s2.role, f, Fresh) && Look(s2.pt, r, a) == Look(s1.pt, r, a)
    ensures forall g: nat | f <= g < f + 1 :: Mappable(s2.role, g, true)
  {
    TakeGood(s1, Filled(5), bytes);
  }

  /** Page w of the range is beyond MAXVA or not mapped. */
  predicate Missing(pt: Tables, r: nat, a: nat, npages: int, w: nat) {
    a <= w < a + npages && (w >= MAXVPN || !IsValid(Look(pt, r, w)))
  }

  ghost predicate SomeMissing(pt: Tables, r: nat, a: nat, npages: int) {
    exists w: nat :: Missing(pt, r, a, npages, w)
  }

  lemma MissingAt(s: State, r: nat, a: nat, npages: nat, w: nat)
    requires a <= w < a + npages && (w < MAXVPN ==> !IsValid(Look(s.pt, r, w)))
    ensures SomeMissing(s.pt, r, a, npages)
  {
    assert Missing(s.pt, r, a, npages, w);
  }

  lemma NotMissing(s: State, r: nat, a: nat, npages: nat, w: nat)
    requires w < MAXVPN && IsValid(Look(s.pt, r, w))
    ensures !Missing(s.pt, r, a, npages, w)
  {
  }

  lemma NoneMissing(pt: Tables, r: nat, a: nat, npages: nat)
    requires forall w: nat | a <= w < a + npages :: !Missing(pt, r, a, npages, w)
    ensures !SomeMissing(pt, r, a, npages)
  {
  }

  lemma LeafFlags(e: Pte)
    requires IsLeaf(e)
    ensures e.flags != PTE_V
  {
  }

  /** Where walk without alloc ends up: at the table holding the entry, or there is no mapping. */
  lemma WalkedEntry(s0: State, s1: State, r: nat, v: nat, t: int, added: set<Role>)
    requires Sound(s0) && IsRoot(s0.role, r) && v < VPNS && Walked(s0, s1, r, v, false, t, added)
    ensures s1 == s0 && (t < 0 ==> !IsValid(Look(s0.pt, r, v)))
    ensures t >= 0 ==> t in s0.pt && L0(s0.pt, r, v / ENTRIES) == t && s0.pt[t][v % ENTRIES] == Look(s0.pt, r, v)
  {
    hide Lacking, Path;
    assert Tree(s0.pt, s0.role, r);
  }

  lemma RangePages(va: nat, size: nat)
    requires size > 0
    ensures va / PGSIZE <= (va + size - 1) / PGSIZE
    ensures PagesOf(va, size) == (va + size - 1) / PGSIZE - va / PGSIZE + 1
  {
  }

  lemma MapsGood(s0: State, s: State, r: nat, a: nat, k: nat, f: nat, perm: nat, own: bool, added: set<Role>)
    requires Maps(s0, s, r, a, k, f, perm, own, added) && IsRoot(s0.role, r)
    ensures Good(s) && Sound(s) && IsRoot(s.role, r) && TablesAdded(s0, s, added)
    ensures a + k < VPNS ==> Look(s.pt, r, a + k) == Look(s0.pt, r, a + k)
  {
    hide Has;
  }

  lemma EntryOf(s: State, r: nat, v: nat, t: nat)
    requires Sound(s) && IsRoot(s.role, r) && v < VPNS && L0(s.pt, r, v / ENTRIES) == t
    ensures t in s.pt && s.pt[t][v % ENTRIES] == Look(s.pt, r, v)
  {
    assert Tree(s.pt, s.role, r);
  }

  /** After the walk the mapping so far stands, and the table found holds the entry. */
  lemma WalkedMaps(s0: State, s1: State, s2: State, r: nat, a: nat, k: nat, f: nat, perm: nat, own: bool, t: int,
                   added: set<Role>, more: set<Role>)
    requires Maps(s0, s1, r, a, k, f, perm, own, added) && IsRoot(s0.role, r) && a + k < VPNS
    requires Walked(s1, s2, r, a + k, true, t, more)
    requires added == Lacking(s0.pt, Paths(r, a, k)) && added !! Lacking(s1.pt, Path(r, a + k))
    requires added + Lacking(s1.pt, Path(r, a + k)) == Lacking(s0.pt, Paths(r, a, k + 1))
    ensures Maps(s0, s2, r, a, k, f, perm, own, added + more)
    ensures t >= 0 ==> t in s2.pt && L0(s2.pt, r, (a + k) / ENTRIES) == t
                       && s2.pt[t][(a + k) % ENTRIES] == Look(s2.pt, r, a + k) == Look(s0.pt, r, a + k)
    ensures t >= 0 ==> added + more == Lacking(s0.pt, Paths(r, a, k + 1))
    ensures t < 0 ==> s2.free == [] && added + more < Lacking(s0.pt, Paths(r, a, k + 1))
  {
    hide Lacking, Path, Paths, TablesAdded, MapsEntries, MapsRoles, Grown, Sound, Look, L0;
    MapsGrown(s0, s1, s2, r, a, k, f, perm, own, added, more);
    MapsGood(s0, s2, r, a, k, f, perm, own, added + more);
    if t >= 0 {
      EntryOf(s2, r, a + k, t);
    }
  }
}
