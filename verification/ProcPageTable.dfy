/**
 Page tables of processes (proc_pagetable and proc_freepagetable in
 kernel/proc.c): four pages below MAXVA are mapped to frames that the page
 table does not own. Whatever step runs out of memory, every frame goes back.
 */
module ProcPageTable {
  import opened PageTable
  import opened Memory
  import opened UserMemory
  import opened Dismantle
  import opened Vm

  const TRAMPOLINE: nat := (MAXVPN - 1) * PGSIZE
  const TRAPFRAME: nat := TRAMPOLINE - PGSIZE
  const SIGNALRET: nat := TRAPFRAME - PGSIZE
  const SIGNALSTACK: nat := SIGNALRET - PGSIZE

  /** The flags of the four pages. */
  function Perm(i: nat): nat {
    if i == 0 then PTE_R + PTE_X
    else if i == 1 then PTE_R + PTE_W
    else if i == 2 then PTE_R + PTE_X + PTE_U
    else PTE_R + PTE_W + PTE_U
  }

  /** The frames of the four pages: trampoline, trap frame, signal return code and signal stack. */
  type Frames = f: seq<nat> | |f| == 4 witness [0, 0, 0, 0]

  /** Page w is one of the special pages numbered lo to hi. */
  predicate IsSpecial(lo: nat, hi: nat, w: nat) {
    lo <= MAXVPN - 1 - w < hi
  }

  /** The kernel keeps the four frames for itself. */
  predicate Kept(role: Roles, frames: Frames) {
    forall f | f in frames && f in role :: role[f] == Held
  }

  /** The four frames are not the page table's own; some may be on the free list already. */
  predicate Aside(role: Roles, frames: Frames) {
    forall f | f in frames && f in role :: role[f] in {Held, Stale}
  }

  /** The special pages lo to hi are mapped to their frames, and no other page from n on is mapped. */
  ghost predicate MapsSpecials(s: State, r: nat, frames: Frames, lo: nat, hi: nat, n: nat) {
    && lo <= hi <= 4 && n <= MAXVPN - 4
    && forall w: nat | n <= w < VPNS ::
         if IsSpecial(lo, hi, w) then Look(s.pt, r, w) == Pte(frames[MAXVPN - 1 - w], WithValid(Perm(MAXVPN - 1 - w)))
         else !IsValid(Look(s.pt, r, w))
  }

  /** r maps user pages below page n, the special pages lo to hi, and nothing else. */
  ghost predicate UserTable(s: State, r: nat, frames: Frames, lo: nat, hi: nat, n: nat) {
    && IsRoot(s.role, r) && Aside(s.role, frames) && MapsSpecials(s, r, frames, lo, hi, n)
    && (forall w: nat | w < n :: IsValid(Look(s.pt, r, w)) && HasRole(s.role, Look(s.pt, r, w).ppn, User(r, w)))
  }

  /** The four pages below MAXVA, entry by entry: trampoline and trap frame out of the user's reach, the
      code that ends a handler and the signal stack within it; only trap frame and stack can be written. */
  ghost predicate FourPages(pt: Tables, r: nat, frames: Frames) {
    && Look(pt, r, 0x3FF_FFFF) == Pte(frames[0], PTE_V + PTE_R + PTE_X)
    && Look(pt, r, 0x3FF_FFFE) == Pte(frames[1], PTE_V + PTE_R + PTE_W)
    && Look(pt, r, 0x3FF_FFFD) == Pte(frames[2], PTE_V + PTE_R + PTE_X + PTE_U)
    && Look(pt, r, 0x3FF_FFFC) == Pte(frames[3], PTE_V + PTE_R + PTE_W + PTE_U)
  }

  /** A whole page table of a process has these four, no other page from n on, and so no page that the user
      can reach beyond n but the signal code and the signal stack. */
  lemma SpecialEntries(s: State, r: nat, frames: Frames, n: nat)
    requires UserTable(s, r, frames, 0, 4, n)
    ensures FourPages(s.pt, r, frames)
    ensures forall w: nat | n <= w < VPNS && w !in {0x3FF_FFFF, 0x3FF_FFFE, 0x3FF_FFFD, 0x3FF_FFFC} ::
              !IsValid(Look(s.pt, r, w))
    ensures forall w: nat | n <= w < VPNS && IsValid(Look(s.pt, r, w)) && Look(s.pt, r, w).flags / PTE_U % 2 == 1 ::
              w in {0x3FF_FFFD, 0x3FF_FFFC}
  {
    hide Look;
    assert IsSpecial(0, 4, 0x3FF_FFFF) && IsSpecial(0, 4, 0x3FF_FFFE) && IsSpecial(0, 4, 0x3FF_FFFD)
        && IsSpecial(0, 4, 0x3FF_FFFC);
  }

  /** The two tables on the way to the special pages. */
  function SpecialPath(r: nat): set<Role> {
    Path(r, MAXVPN - 1)
  }

  lemma OneSpecialPath(r: nat, k: nat)
    requires k < 4
    ensures Path(r, MAXVPN - 1 - k) == SpecialPath(r) && |SpecialPath(r)| == 2
  {
    assert PlaceBelow(r, MAXVPN - 1, 2) != PlaceBelow(r, MAXVPN - 1, 1);
  }

  /** A new page table r with tables at these places has been made from free frames; nothing else has
      changed. */
  ghost predicate Made(s0: State, s: State, r: nat, added: set<Role>) {
    && Good(s) && s.role.Keys == s0.role.Keys && SamePages(s0, s)
    && !IsRoot(s0.role, r) && IsRoot(s.role, r) && (forall p | p in added :: TableOf(p, r))
    && (forall g | g in s0.role ::
          s.role[g] == s0.role[g] || (s0.role[g] == Free && (s.role[g] == Dir(r, 2, 0) || s.role[g] in added)))
    && SameMaps(s0.pt, s.pt, s0.role)
    && (forall p | TableOf(p, r) :: Has(s.pt, p) <==> p in added) && |s.free| == |s0.free| - 1 - |added|
  }

  /** Every frame is used for what it was used for, and every page table means what it meant. */
  ghost predicate Returned(s0: State, s: State) {
    Good(s) && s.role == s0.role && KeepsPages(s0, s) && SameMaps(s0.pt, s.pt, s0.role)
  }

  /** Entries of r were removed; no frame has changed hands. */
  ghost predicate Trimmed(s0: State, s: State, r: nat) {
    && Sound(s) && s.role == s0.role && KeepsPages(s0, s)
    && (forall q: nat, w: nat | IsRoot(s0.role, q) && q != r && w < VPNS :: Look(s.pt, q, w) == Look(s0.pt, q, w))
  }

  // ---- creating ----

  /** uvmcreate: a zeroed frame as a root. */
  function Created(s: State): State
    requires s.free != []
  {
    State(s.pt[s.free[0] := ZeroTable()], s.page[s.free[0] := Junk(0)], s.free[1..],
          s.role[s.free[0] := Dir(s.free[0], 2, 0)])
  }

  lemma CreatedMakes(s: State, frames: Frames)
    requires Good(s) && Settled(s) && s.free != [] && Kept(s.role, frames)
    ensures Made(s, Created(s), s.free[0], {}) && Settled(Created(s)) && Kept(Created(s).role, frames)
    ensures UserTable(Created(s), s.free[0], frames, 0, 0, 0)
  {
    hide Inv, FreeList, Filled, Junk, Look, ZeroTable, Has, L0, L1, SamePlaces;
    var f, s1 := s.free[0], Taken(s, ZeroTable(), Junk(0));
    TakeGood(s, ZeroTable(), Junk(0));
    NewRoot(s1.pt, s1.role, f);
    EmptyRoot(s1.pt, f);
    assert Created(s).role == s1.role[f := Dir(f, 2, 0)];
    RootIsNotFree(s, s1, f);
  }

  lemma EmptyRoot(pt: Tables, f: nat)
    requires f in pt && pt[f] == ZeroTable()
    ensures forall p | TableOf(p, f) :: !Has(pt, p)
  {
    assert forall i: nat | i < ENTRIES :: L1(pt, f, i) == -1;
    assert forall p: nat | p < ENTRIES * ENTRIES :: L0(pt, f, p) == -1;
  }

  lemma RootIsNotFree(s0: State, s1: State, f: nat)
    requires Good(s0) && HasRole(s0.role, f, Free) && Good(s1) && s1.role == s0.role[f := Fresh]
    ensures FreeList(s1.free, s1.role[f := Dir(f, 2, 0)]) && NoStale(s1.role[f := Dir(f, 2, 0)])
  {
  }

  /** mappages has added tables on the way to the special pages. */
  lemma MadeMore(s0: State, s1: State, s2: State, r: nat, a: nat, k: nat, f: nat, perm: nat, added: set<Role>,
                 more: set<Role>)
    requires Made(s0, s1, r, added) && Settled(s1) && Maps(s1, s2, r, a, k, f, perm, false, more)
    ensures Made(s0, s2, r, added + more) && Settled(s2)
  {
    hide Good, Look, Has;
    MadeRoots(s0, s1, r, added);
    MadeTables(s0, s1, s2, r, added, more);
  }

  lemma MadeRoots(s0: State, s: State, r: nat, added: set<Role>)
    requires Made(s0, s, r, added)
    ensures forall q: nat | IsRoot(s0.role, q) :: IsRoot(s.role, q) && q != r
  {
    hide Good, Look, Has;
  }

  lemma MadeTables(s0: State, s1: State, s2: State, r: nat, added: set<Role>, more: set<Role>)
    requires Made(s0, s1, r, added) && TablesAdded(s1, s2, more) && (forall p | p in more :: TableOf(p, r))
    ensures forall p | TableOf(p, r) :: Has(s2.pt, p) <==> p in added + more
    ensures |added + more| == |added| + |more|
  {
    hide Good, Look, Has;
    assert added !! more;
  }

  lemma MapsSpecial(s1: State, s2: State, r: nat, frames: Frames, k: nat, more: set<Role>)
    requires UserTable(s1, r, frames, 0, k, 0) && Kept(s1.role, frames) && k < 4
    requires Maps(s1, s2, r, MAXVPN - 1 - k, 1, frames[k], Perm(k), false, more)
    ensures UserTable(s2, r, frames, 0, k + 1, 0) && Kept(s2.role, frames)
  {
    hide Good, Look, Perm, WithValid, TablesAdded;
  }

  /** Running out of memory before the page is mapped leaves only table pages behind. */
  lemma MapsNothingSpecial(s1: State, s2: State, r: nat, frames: Frames, k: nat, more: set<Role>)
    requires UserTable(s1, r, frames, 0, k, 0) && Kept(s1.role, frames) && k < 4
    requires Maps(s1, s2, r, MAXVPN - 1 - k, 0, frames[k], Perm(k), false, more)
    ensures UserTable(s2, r, frames, 0, k, 0) && Kept(s2.role, frames)
  {
    hide Good, Look, Perm, WithValid, TablesAdded;
  }

  lemma LackingSpecial(s0: State, s: State, r: nat, added: set<Role>)
    requires Made(s0, s, r, added) && added <= SpecialPath(r)
    ensures Lacking(s.pt, SpecialPath(r)) == SpecialPath(r) - added
  {
    hide Good, Has;
  }

  /** The four special pages take three frames: the root and two tables. */
  lemma ThreeFrames(s0: State, s: State, r: nat)
    requires Made(s0, s, r, SpecialPath(r))
    ensures |s0.free| >= 3
  {
    OneSpecialPath(r, 0);
  }

  lemma NotThreeFrames(s0: State, s: State, r: nat, added: set<Role>)
    requires Made(s0, s, r, added) && added <= SpecialPath(r) && |s.free| < |Lacking(s.pt, SpecialPath(r))|
    ensures |s0.free| < 3
  {
    hide Good, Has, SpecialPath, Lacking, SamePages, SameMaps;
    OneSpecialPath(r, 0);
    LackingSpecial(s0, s, r, added);
    Complement(SpecialPath(r), added);
  }

  lemma Complement(a: set<Role>, b: set<Role>)
    requires b <= a
    ensures |a - b| == |a| - |b|
  {
    assert a == (a - b) + b;
  }

  // ---- taking apart ----

  lemma SpecialMapped(s: State, r: nat, frames: Frames, lo: nat, hi: nat, n: nat)
    requires UserTable(s, r, frames, lo, hi, n) && lo < hi
    ensures IsRoot(s.role, r) && !SomeMissing(s.pt, r, MAXVPN - 1 - lo, 1)
  {
  }

  lemma UnmapsSpecial(s0: State, s1: State, r: nat, frames: Frames, lo: nat, hi: nat, n: nat)
    requires Sound(s0) && Settled(s0) && UserTable(s0, r, frames, lo, hi, n) && lo < hi
    requires Unmaps(s0, s1, r, MAXVPN - 1 - lo, 1, false)
    ensures Trimmed(s0, s1, r) && Settled(s1) && UserTable(s1, r, frames, lo + 1, hi, n)
  {
    hide Sound, Look, Perm, WithValid;
    forall g | g in s0.role
      ensures !UserIn(s0.role[g], r, MAXVPN - 1 - lo, MAXVPN - lo)
    {
      NotUser(s0, r, frames, lo, hi, n, g);
    }
    assert s1.role == s0.role;
  }

  /** No frame is the user page of a special page. */
  lemma NotUser(s: State, r: nat, frames: Frames, lo: nat, hi: nat, n: nat, g: nat)
    requires Sound(s) && UserTable(s, r, frames, lo, hi, n) && lo < hi && g in s.role
    ensures !UserIn(s.role[g], r, MAXVPN - 1 - lo, MAXVPN - lo)
  {
    hide Sound, Look, Perm, WithValid;
    assert IsSpecial(lo, hi, MAXVPN - 1 - lo) && frames[lo] in frames;
    if UserIn(s.role[g], r, MAXVPN - 1 - lo, MAXVPN - lo) {
      UserAt(s, g);
    }
  }

  lemma TrimmedNothing(s: State, r: nat)
    requires Sound(s)
    ensures Trimmed(s, s, r)
  {
  }

  lemma TrimmedMore(s0: State, s1: State, s2: State, r: nat)
    requires Trimmed(s0, s1, r) && Trimmed(s1, s2, r)
    ensures Trimmed(s0, s2, r)
  {
  }

  lemma OnlyUserLeft(s: State, r: nat, frames: Frames, k: nat, n: nat)
    requires UserTable(s, r, frames, k, k, n)
    ensures IsRoot(s.role, r) && !SomeMissing(s.pt, r, 0, n) && !MappedFrom(s.pt, r, n)
    ensures forall w: nat | w < n && w < VPNS :: Removable(s, r, w)
  {
  }

  lemma TrimThenDestroy(s0: State, s1: State, s2: State, r: nat)
    requires Trimmed(s0, s1, r) && Destroyed(s1, s2, r)
    ensures Destroyed(s0, s2, r)
  {
    hide Good, Look;
  }

  /** A page table that was made and then destroyed has given every frame back. */
  lemma MakeThenDestroy(s0: State, s1: State, s2: State, r: nat, added: set<Role>)
    requires Good(s0) && Made(s0, s1, r, added) && Destroyed(s1, s2, r)
    ensures Returned(s0, s2)
  {
    hide Look, Has;
    forall g: nat | g in s0.role
      ensures s2.role[g] == s0.role[g]
    {
      assert Placed(s0.pt, s0.role, g);
    }
    assert s2.role == s0.role;
  }

  lemma GrownRole(s0: State, s1: State, s2: State, s3: State, r: nat, n: nat, added: set<Role>, more: set<Role>, g: nat)
    requires Good(s0) && Made(s0, s1, r, added) && Adds(s1, s2, r, 0, n, more) && Destroyed(s2, s3, r) && g in s0.role
    ensures s3.role[g] == s0.role[g]
  {
    hide Look, L0, L1, FreeList, Has;
    assert Placed(s0.pt, s0.role, g);
    assert s1.role[g] == s0.role[g] || (s0.role[g] == Free && OfRoot(s1.role[g], r));
    assert s2.role[g] == s1.role[g] || (s1.role[g] == Free && OfRoot(s2.role[g], r));
  }

  /** So has one that user memory was added to in between: creating, growing and freeing a page table, as
      exec does when it fails, conserves every frame. */
  lemma MakeGrowDestroy(s0: State, s1: State, s2: State, s3: State, r: nat, n: nat, added: set<Role>, more: set<Role>)
    requires Good(s0) && Made(s0, s1, r, added) && Adds(s1, s2, r, 0, n, more) && Destroyed(s2, s3, r)
    ensures Returned(s0, s3)
  {
    hide Look, Sound, Has;
    forall g: nat | g in s0.role
      ensures s3.role[g] == s0.role[g]
    {
      GrownRole(s0, s1, s2, s3, r, n, added, more, g);
    }
    assert s3.role == s0.role;
    forall q: nat | IsRoot(s0.role, q)
      ensures IsRoot(s1.role, q) && IsRoot(s2.role, q) && q != r
    {
    }
  }

  // ---- the two operations ----

  /** mappages of one special page: it fails only if there were fewer than three free frames at first. */
  method MapSpecial(m: Machine, r: nat, va: nat, frames: Frames, k: nat, ghost s0: State, ghost before: set<Role>)
    returns (ok: bool, ghost added: set<Role>)
    requires k < 4 && va == (MAXVPN - 1 - k) * PGSIZE
    requires Made(s0, m.S(), r, before) && before <= SpecialPath(r) && Settled(m.S())
    requires UserTable(m.S(), r, frames, 0, k, 0) && Kept(m.role, frames)
    modifies m
    ensures Made(s0, m.S(), r, added) && added <= SpecialPath(r) && Settled(m.S())
    ensures UserTable(m.S(), r, frames, 0, if ok then k + 1 else k, 0) && Kept(m.role, frames)
    ensures if ok then added == SpecialPath(r) else |s0.free| < 3
  {
    hide Good, Maps, Made, Look, Settled, UserTable, Kept, SpecialPath, Paths, Lacking;
    ghost var s1 := m.S();
    BeforeMap(s0, s1, r, frames, k, before);
    PageMultiple(MAXVPN - 1 - k);
    PageMultiple(frames[k]);
    OnePage(MAXVPN - 1 - k);
    var res; ghost var n, more;
    res, n, more := m.MapPages(r, va, PGSIZE, frames[k] * PGSIZE, Perm(k), false);
    ok := res == Ok;
    if ok {
      SpecialAdded(s0, s1, m.S(), r, frames, k, before, more);
      added := SpecialPath(r);
    } else {
      SpecialFails(s0, s1, m.S(), r, frames, k, before, more);
      added := before + more;
    }
  }

  /** The special page is mapped, and both tables on the way are there. */
  lemma SpecialAdded(s0: State, s1: State, s2: State, r: nat, frames: Frames, k: nat, before: set<Role>,
                     more: set<Role>)
    requires k < 4 && Made(s0, s1, r, before) && before <= SpecialPath(r) && Settled(s1)
    requires UserTable(s1, r, frames, 0, k, 0) && Kept(s1.role, frames)
    requires Maps(s1, s2, r, MAXVPN - 1 - k, 1, frames[k], Perm(k), false, more)
    requires more == Lacking(s1.pt, Paths(r, MAXVPN - 1 - k, 1))
    ensures Made(s0, s2, r, SpecialPath(r)) && Settled(s2)
    ensures UserTable(s2, r, frames, 0, k + 1, 0) && Kept(s2.role, frames)
  {
    hide Maps, Made, Settled, UserTable, Kept, SpecialPath, Path, Paths, Lacking;
    OnePath(s1.pt, r, MAXVPN - 1 - k);
    OneSpecialPath(r, k);
    LackingSpecial(s0, s1, r, before);
    MadeMore(s0, s1, s2, r, MAXVPN - 1 - k, 1, frames[k], Perm(k), before, more);
    MapsSpecial(s1, s2, r, frames, k, more);
    assert before + more == SpecialPath(r);
  }

  lemma SpecialFails(s0: State, s1: State, s2: State, r: nat, frames: Frames, k: nat, before: set<Role>,
                     more: set<Role>)
    requires k < 4 && Made(s0, s1, r, before) && before <= SpecialPath(r) && Settled(s1)
    requires UserTable(s1, r, frames, 0, k, 0) && Kept(s1.role, frames)
    requires Maps(s1, s2, r, MAXVPN - 1 - k, 0, frames[k], Perm(k), false, more)
    requires more < Lacking(s1.pt, Paths(r, MAXVPN - 1 - k, 1))
    requires |s1.free| < |Lacking(s1.pt, Paths(r, MAXVPN - 1 - k, 1))|
    ensures Made(s0, s2, r, before + more) && before + more <= SpecialPath(r) && Settled(s2) && |s0.free| < 3
    ensures UserTable(s2, r, frames, 0, k, 0) && Kept(s2.role, frames)
  {
    hide Maps, Made, Settled, UserTable, Kept, SpecialPath, Path, Paths, Lacking;
    OnePath(s1.pt, r, MAXVPN - 1 - k);
    OneSpecialPath(r, k);
    LackingSpecial(s0, s1, r, before);
    MadeMore(s0, s1, s2, r, MAXVPN - 1 - k, 0, frames[k], Perm(k), before, more);
    MapsNothingSpecial(s1, s2, r, frames, k, more);
    NotThreeFrames(s0, s1, r, before);
  }

  lemma BeforeMap(s0: State, s: State, r: nat, frames: Frames, k: nat, added: set<Role>)
    requires k < 4 && Made(s0, s, r, added) && UserTable(s, r, frames, 0, k, 0) && Kept(s.role, frames)
    ensures Good(s) && IsRoot(s.role, r) && IsLeaf(Pte(0, WithValid(Perm(k)))) && Mappable(s.role, frames[k], false)
    ensures !IsValid(Look(s.pt, r, MAXVPN - 1 - k))
  {
    hide Look, Has, Sound;
    assert frames[k] in frames;
  }

  /** uvmunmap of one special page; its frame stays whose it was. */
  method UnmapSpecial(m: Machine, r: nat, va: nat, ghost frames: Frames, ghost lo: nat, ghost hi: nat, ghost n: nat,
                      ghost s0: State) returns (panicked: bool)
    requires lo < hi <= 4 && va == (MAXVPN - 1 - lo) * PGSIZE
    requires Trimmed(s0, m.S(), r) && Settled(m.S()) && UserTable(m.S(), r, frames, lo, hi, n)
    modifies m
    ensures !panicked && Trimmed(s0, m.S(), r) && Settled(m.S()) && UserTable(m.S(), r, frames, lo + 1, hi, n)
  {
    hide Sound, Unmaps, Trimmed, Look, Settled, UserTable, SomeMissing;
    ghost var s1 := m.S();
    SpecialMapped(s1, r, frames, lo, hi, n);
    PageMultiple(MAXVPN - 1 - lo);
    TrimmedSound(s0, s1, r);
    panicked := m.UvmUnmap(r, va, 1, false);
    UnmapsSpecial(s1, m.S(), r, frames, lo, hi, n);
    TrimmedMore(s0, s1, m.S(), r);
  }

  lemma TrimmedSound(s0: State, s: State, r: nat)
    requires Trimmed(s0, s, r)
    ensures Sound(s)
  {
  }

  /** proc_freepagetable: exactly the table pages and user pages of r are freed. The frames of the special
      pages may be free already, as they are when freeproc calls it. */
  method ProcFreePagetable(m: Machine, r: nat, sz: nat, ghost frames: Frames) returns (panicked: bool)
    requires Sound(m.S()) && Settled(m.S()) && UserTable(m.S(), r, frames, 0, 4, PgUp(sz))
    modifies m
    ensures !panicked && Destroyed(old(m.S()), m.S(), r)
  {
    hide Sound, Trimmed, Settled, Destroyed, Look, UserTable;
    ghost var s0 := m.S();
    TrimmedNothing(s0, r);
    panicked := UnmapSpecial(m, r, TRAMPOLINE, frames, 0, 4, PgUp(sz), s0);
    panicked := UnmapSpecial(m, r, TRAPFRAME, frames, 1, 4, PgUp(sz), s0);
    panicked := UnmapSpecial(m, r, SIGNALRET, frames, 2, 4, PgUp(sz), s0);
    panicked := UnmapSpecial(m, r, SIGNALSTACK, frames, 3, 4, PgUp(sz), s0);
    panicked := FreeRest(m, r, sz, frames, 4, s0);
  }

  /** uvmfree once the special pages are unmapped. */
  method FreeRest(m: Machine, r: nat, sz: nat, ghost frames: Frames, ghost k: nat, ghost s0: State)
    returns (panicked: bool)
    requires Trimmed(s0, m.S(), r) && Settled(m.S()) && UserTable(m.S(), r, frames, k, k, PgUp(sz))
    modifies m
    ensures !panicked && Destroyed(s0, m.S(), r)
  {
    hide Sound, Trimmed, Settled, Destroyed, Look, UserTable, Removable, SomeMissing, MappedFrom;
    ghost var s1 := m.S();
    TrimmedSound(s0, s1, r);
    OnlyUserLeft(s1, r, frames, k, PgUp(sz));
    panicked := m.UvmFree(r, sz);
    TrimThenDestroy(s0, s1, m.S(), r);
  }

  /** proc_pagetable: with three free frames, a new page table with just the four special pages; with
      fewer, -1 and every frame back. */
  method ProcPagetable(m: Machine, frames: Frames) returns (r: int, panicked: bool)
    requires Good(m.S()) && Settled(m.S()) && Kept(m.role, frames)
    modifies m
    ensures !panicked
    ensures r >= 0 <==> |old(m.free)| >= 3
    ensures r >= 0 ==> Made(old(m.S()), m.S(), r, SpecialPath(r)) && UserTable(m.S(), r, frames, 0, 4, 0)
    ensures r >= 0 ==> Settled(m.S()) && Kept(m.role, frames) && FourPages(m.pt, r, frames)
    ensures r < 0 ==> Returned(old(m.S()), m.S())
  {
    hide Good, Settled, Made, UserTable, FourPages, Returned, Created, Junk, Look, Kept, SpecialPath;
    panicked := false;
    ghost var s0 := m.S();
    r := UvmCreate(m);
    if r < 0 {
      ReturnedNothing(s0);
      return;
    }
    CreatedMakes(s0, frames);
    var ok; ghost var added := {};
    ok, added := MapSpecial(m, r, TRAMPOLINE, frames, 0, s0, added);
    if !ok {
      panicked := Abandon(m, r, frames, 0, s0, added);
      return -1, panicked;
    }
    ok, added := MapSpecial(m, r, TRAPFRAME, frames, 1, s0, added);
    if !ok {
      panicked := Abandon(m, r, frames, 1, s0, added);
      return -1, panicked;
    }
    ok, added := MapSpecial(m, r, SIGNALRET, frames, 2, s0, added);
    if !ok {
      panicked := Abandon(m, r, frames, 2, s0, added);
      return -1, panicked;
    }
    ok, added := MapSpecial(m, r, SIGNALSTACK, frames, 3, s0, added);
    if !ok {
      panicked := Abandon(m, r, frames, 3, s0, added);
      return -1, panicked;
    }
    ThreeFrames(s0, m.S(), r);
    SpecialEntries(m.S(), r, frames, 0);
  }

  /** An error path: the first k special pages are unmapped and the page table is freed. */
  method Abandon(m: Machine, r: nat, ghost frames: Frames, k: nat, ghost s0: State, ghost added: set<Role>)
    returns (panicked: bool)
    requires Good(s0) && k < 4 && Made(s0, m.S(), r, added) && Settled(m.S()) && UserTable(m.S(), r, frames, 0, k, 0)
    modifies m
    ensures !panicked && Returned(s0, m.S())
  {
    hide Good, Trimmed, Settled, Made, Returned, Destroyed, Look, UserTable;
    ghost var s1 := m.S();
    assert Sound(s1) by { MadeSound(s0, s1, r, added); }
    TrimmedNothing(s1, r);
    if k >= 1 {
      panicked := UnmapSpecial(m, r, TRAMPOLINE, frames, 0, k, 0, s1);
    }
    if k >= 2 {
      panicked := UnmapSpecial(m, r, TRAPFRAME, frames, 1, k, 0, s1);
    }
    if k >= 3 {
      panicked := UnmapSpecial(m, r, SIGNALRET, frames, 2, k, 0, s1);
    }
    panicked := FreeRest(m, r, 0, frames, k, s1);
    MakeThenDestroy(s0, s1, m.S(), r, added);
  }

  lemma MadeSound(s0: State, s: State, r: nat, added: set<Role>)
    requires Made(s0, s, r, added)
    ensures Sound(s)
  {
  }

  lemma ReturnedNothing(s: State)
    requires Good(s)
    ensures Returned(s, s)
  {
  }

  /** uvmcreate. */
  method UvmCreate(m: Machine) returns (r: int)
    requires Good(m.S())
    modifies m
    ensures if old(m.free) == [] then r == -1 && m.S() == old(m.S())
            else r == old(m.free)[0] && m.S() == Created(old(m.S()))
  {
    hide Good, Filled, Junk, ZeroTable;
    ghost var s0 := m.S();
    r := m.Kalloc();
    if r < 0 {
      return;
    }
    m.pt := m.pt[r := ZeroTable()];
    m.page := m.page[r := Junk(0)];
    m.role := m.role[r := Dir(r, 2, 0)];
    assert m.pt == Created(s0).pt;
    assert m.page == Created(s0).page;
    assert m.role == Created(s0).role;
  }
}
