/**
 The memory of a process from allocproc over fork to freeproc (kernel/proc.c):
 a trap frame, a signal stack and a page table. freeproc puts the first two
 back on the free list while the page table still maps them. On every path,
 successful or not, each frame ends up free or in use, once.
 */
module ProcMemory {
  import Seqs
  import opened PageTable
  import opened Memory
  import opened UserMemory
  import opened Dismantle
  import opened Vm
  import opened ProcPageTable

  /** No page table but r maps frame f; for r == -1, none does. */
  ghost predicate MappedOnlyBy(s: State, r: int, f: int) {
    forall q: nat, w: nat | IsRoot(s.role, q) && w < VPNS && IsValid(Look(s.pt, q, w)) && Look(s.pt, q, w).ppn == f ::
      q == r
  }

  /** f is a frame the kernel holds for the process with page table r, or there is none. */
  ghost predicate Belongs(s: State, f: int, r: int) {
    f >= 0 ==> HasRole(s.role, f, Held) && MappedOnlyBy(s, r, f)
  }

  /** The frames of the special pages. */
  function Four(tramp: nat, tf: nat, ret: nat, st: nat): Frames {
    [tramp, tf, ret, st]
  }

  /** A process has trap frame tf, signal stack st and page table r with n user pages; -1 stands for none. */
  ghost predicate Holds(s: State, tf: int, st: int, r: int, tramp: nat, ret: nat, n: nat) {
    && Belongs(s, tf, r) && Belongs(s, st, r) && (tf >= 0 ==> tf != st)
    && (r >= 0 ==> tf >= 0 && st >= 0 && UserTable(s, r, Four(tramp, tf, ret, st), 0, 4, n))
  }

  // ---- freeproc ----

  /** The frames of the process are free. No other frame has changed hands and no other page table has
      changed. */
  ghost predicate Released(s0: State, s: State, tf: int, st: int, r: int) {
    && Good(s) && s.role.Keys == s0.role.Keys && KeepsPages(s0, s)
    && (forall g | g in s0.role ::
          s.role[g] == if g == tf || g == st || (r >= 0 && OfRoot(s0.role[g], r)) then Free else s0.role[g])
    && (forall q: nat, w: nat | IsRoot(s0.role, q) && q != r && w < VPNS :: Look(s.pt, q, w) == Look(s0.pt, q, w))
  }

  /** kfree of a frame that is still mapped. */
  function Dropped(s: State, f: int): State {
    if f < 0 then s
    else State(s.pt[f := Filled(1)], s.page[f := Junk(1)], [f] + s.free, s.role[f := Stale])
  }

  lemma DropSound(s: State, f: int)
    requires Sound(s) && Settled(s) && (f >= 0 ==> HasRole(s.role, f, Held))
    ensures Sound(Dropped(s, f)) && Settled(Dropped(s, f)) && SameMaps(s.pt, Dropped(s, f).pt, s.role)
    ensures forall q: nat :: IsRoot(Dropped(s, f).role, q) <==> IsRoot(s.role, q)
  {
    hide Inv, Look, Filled, Junk;
    if f >= 0 {
      ChangeOther(s.pt, s.role, f, Filled(1), Stale);
      DropFreeList(s, f);
    }
  }

  lemma DropFreeList(s: State, f: nat)
    requires Sound(s) && HasRole(s.role, f, Held)
    ensures FreeList([f] + s.free, s.role[f := Stale])
  {
    hide Inv;
    Seqs.InFront(f, s.free);
  }

  /** A dropped frame may be one of the special pages' frames. */
  lemma DropKeepsTable(s: State, f: int, r: nat, frames: Frames, n: nat)
    requires Sound(s) && Settled(s) && (f >= 0 ==> HasRole(s.role, f, Held)) && UserTable(s, r, frames, 0, 4, n)
    ensures UserTable(Dropped(s, f), r, frames, 0, 4, n)
  {
    hide Sound, Look, Filled, Junk, Perm, WithValid;
    DropSound(s, f);
  }

  /** The stale frame f, no longer mapped, is an ordinary free frame. */
  function Reclaimed(role: Roles, f: int): Roles {
    if f < 0 then role else role[f := Free]
  }

  lemma ReclaimSound(s: State, f: int)
    requires Sound(s) && (f >= 0 ==> HasRole(s.role, f, Stale) && Unmapped(s.pt, s.role, f))
    ensures Sound(State(s.pt, s.page, s.free, Reclaimed(s.role, f)))
  {
    hide Placed, Tree, Look, Unmapped;
    if f >= 0 {
      ChangeOther(s.pt, s.role, f, s.pt[f], Free);
      assert s.pt[f := s.pt[f]] == s.pt;
    }
  }

  /** Between dropping the two frames and reclaiming them, the page table, if any, has gone. */
  ghost predicate Stripped(s0: State, s: State, tf: int, st: int, r: int) {
    && Sound(s) && s.role.Keys == s0.role.Keys && KeepsPages(s0, s)
    && (forall g | g in s0.role ::
          s.role[g] == if g == tf || g == st then Stale
                       else if r >= 0 && OfRoot(s0.role[g], r) then Free
                       else s0.role[g])
    && (forall q: nat, w: nat | IsRoot(s0.role, q) && q != r && w < VPNS :: Look(s.pt, q, w) == Look(s0.pt, q, w))
  }

  lemma StripNone(s0: State, tf: int, st: int, r: int)
    requires Sound(s0) && Settled(s0) && Belongs(s0, tf, r) && Belongs(s0, st, r) && (tf >= 0 ==> tf != st) && r < 0
    ensures Stripped(s0, Dropped(Dropped(s0, tf), st), tf, st, r)
  {
    hide Inv, FreeList, Look, Filled, Junk, Settled;
    DropSound(s0, tf);
    DropSound(Dropped(s0, tf), st);
  }

  lemma StripTable(s0: State, s: State, tf: int, st: int, r: nat)
    requires Sound(s0) && Settled(s0) && Belongs(s0, tf, r) && Belongs(s0, st, r) && (tf >= 0 ==> tf != st)
    requires Destroyed(Dropped(Dropped(s0, tf), st), s, r)
    ensures Stripped(s0, s, tf, st, r)
  {
    hide Sound, Look, Filled, Junk, Settled;
    DropSound(s0, tf);
    DropSound(Dropped(s0, tf), st);
  }

  lemma StrippedUnmapped(s0: State, s: State, tf: int, st: int, r: int, f: int)
    requires Stripped(s0, s, tf, st, r) && f >= 0 && (f == tf || f == st) && MappedOnlyBy(s0, r, f)
    requires (tf >= 0 ==> HasRole(s0.role, tf, Held)) && (st >= 0 ==> HasRole(s0.role, st, Held))
    ensures HasRole(s.role, f, Stale) && Unmapped(s.pt, s.role, f)
  {
    hide Sound, Look;
    forall q: nat | IsRoot(s.role, q)
      ensures IsRoot(s0.role, q) && q != r
    {
    }
  }

  lemma ReclaimBoth(s0: State, s: State, tf: int, st: int, r: int)
    requires Good(s0) && Stripped(s0, s, tf, st, r) && Belongs(s0, tf, r) && Belongs(s0, st, r)
    requires tf >= 0 ==> tf != st
    ensures Released(s0, State(s.pt, s.page, s.free, Reclaimed(Reclaimed(s.role, tf), st)), tf, st, r)
  {
    hide Sound, Look, Unmapped, MappedOnlyBy, Reclaimed, KeepsPages;
    if tf >= 0 { StrippedUnmapped(s0, s, tf, st, r, tf); }
    if st >= 0 { StrippedUnmapped(s0, s, tf, st, r, st); }
    ReclaimSound(s, tf);
    var s1 := State(s.pt, s.page, s.free, Reclaimed(s.role, tf));
    ReclaimedRoles(s0, s, tf, st, r);
    if st >= 0 { StillUnmapped(s.pt, s.role, s1.role, st); }
    ReclaimSound(s1, st);
  }

  lemma ReclaimedRoles(s0: State, s: State, tf: int, st: int, r: int)
    requires Good(s0) && Stripped(s0, s, tf, st, r) && Belongs(s0, tf, r) && Belongs(s0, st, r)
    requires tf >= 0 ==> tf != st
    ensures forall q: nat :: IsRoot(Reclaimed(s.role, tf), q) ==> IsRoot(s.role, q)
    ensures st >= 0 ==> HasRole(Reclaimed(s.role, tf), st, Stale)
    ensures var role := Reclaimed(Reclaimed(s.role, tf), st);
            && role.Keys == s0.role.Keys && NoStale(role) && KeepsPages(s0, State(s.pt, s.page, s.free, role))
            && (forall g | g in s0.role ::
                  role[g] == if g == tf || g == st || (r >= 0 && OfRoot(s0.role[g], r)) then Free else s0.role[g])
  {
    hide Sound, Look, MappedOnlyBy;
  }

  lemma StillUnmapped(pt: Tables, role: Roles, role': Roles, f: nat)
    requires Unmapped(pt, role, f) && forall q: nat :: IsRoot(role', q) ==> IsRoot(role, q)
    ensures Unmapped(pt, role', f)
  {
  }

  // ---- allocproc ----

  /** kalloc of a frame the kernel keeps. */
  function Grabbed(s: State): State
    requires s.free != []
  {
    State(s.pt[s.free[0] := Filled(5)], s.page[s.free[0] := Junk(5)], s.free[1..], s.role[s.free[0] := Held])
  }

  lemma GrabGood(s: State)
    requires Good(s) && Settled(s) && s.free != []
    ensures HasRole(s.role, s.free[0], Free) && Good(Grabbed(s)) && Settled(Grabbed(s))
    ensures SameMaps(s.pt, Grabbed(s).pt, s.role) && SamePages(s, Grabbed(s)) && |Grabbed(s).free| == |s.free| - 1
    ensures (forall q: nat :: IsRoot(Grabbed(s).role, q) <==> IsRoot(s.role, q)) && MappedOnlyBy(s, -1, s.free[0])
  {
    hide Inv, FreeList, Look, Filled, Junk, SamePlaces;
    TakeGood(s, Filled(5), Junk(5));
    HoldFresh(Taken(s, Filled(5), Junk(5)), s.free[0]);
    assert Taken(s, Filled(5), Junk(5)).role[s.free[0] := Held] == Grabbed(s).role;
    FreeIsUnmapped(s, s.free[0]);
  }

  lemma FreeIsUnmapped(s: State, f: nat)
    requires Good(s) && HasRole(s.role, f, Free)
    ensures MappedOnlyBy(s, -1, f)
  {
    hide Placed, FreeList, Look;
    forall q: nat | IsRoot(s.role, q)
      ensures Tree(s.pt, s.role, q)
    {
    }
  }

  /** tf and st have been taken from the free frames for the kernel, and nothing else has changed. */
  ghost predicate Took(s0: State, s: State, tf: int, st: int) {
    && Good(s) && Settled(s) && s.role.Keys == s0.role.Keys && SamePages(s0, s) && SameMaps(s0.pt, s.pt, s0.role)
    && (tf >= 0 ==> HasRole(s0.role, tf, Free) && tf != st) && (st >= 0 ==> HasRole(s0.role, st, Free))
    && (forall g | g in s0.role :: s.role[g] == if g == tf || g == st then Held else s0.role[g])
    && |s.free| == |s0.free| - (if tf >= 0 then 1 else 0) - (if st >= 0 then 1 else 0)
  }

  lemma TookNothing(s: State)
    requires Good(s) && Settled(s)
    ensures Took(s, s, -1, -1)
  {
  }

  lemma TookTrapframe(s: State)
    requires Good(s) && Settled(s) && s.free != []
    ensures Took(s, Grabbed(s), s.free[0], -1)
  {
    hide Good, Look, Filled, Junk, MappedOnlyBy;
    GrabGood(s);
  }

  lemma TookStack(s0: State, s: State, tf: nat)
    requires Took(s0, s, tf, -1) && s.free != []
    ensures Took(s0, Grabbed(s), tf, s.free[0])
  {
    hide Good, Look, Filled, Junk, MappedOnlyBy;
    GrabGood(s);
  }

  /** What was taken belongs to the process, which has no page table yet. */
  lemma TookHolds(s0: State, s: State, tf: int, st: int, tramp: nat, ret: nat, n: nat)
    requires Good(s0) && Took(s0, s, tf, st)
    ensures Holds(s, tf, st, -1, tramp, ret, n)
  {
    hide Sound, Look;
    if tf >= 0 { FreeIsUnmapped(s0, tf); }
    if st >= 0 { FreeIsUnmapped(s0, st); }
    assert forall q: nat :: IsRoot(s.role, q) <==> IsRoot(s0.role, q);
  }

  /** Giving it back leaves no trace. */
  lemma TookThenReleased(s0: State, s1: State, s2: State, s3: State, tf: int, st: int)
    requires Good(s0) && Took(s0, s1, tf, st) && Returned(s1, s2) && Released(s2, s3, tf, st, -1)
    ensures Returned(s0, s3)
  {
    hide Sound, Look;
    assert s3.role == s0.role;
  }

  lemma ReturnedHolds(s1: State, s2: State, tf: int, st: int, tramp: nat, ret: nat, n: nat)
    requires Holds(s1, tf, st, -1, tramp, ret, n) && Returned(s1, s2)
    ensures Holds(s2, tf, st, -1, tramp, ret, n)
  {
    hide Good, Look;
  }

  /** Frames that were free are the trap frame, the signal stack, the table pages at these places and the n
      user pages of a process; no other frame has changed hands. */
  ghost predicate AcquiredRoles(role0: Roles, role: Roles, tf: int, st: int, r: nat, tables: set<Role>, n: nat) {
    && role.Keys == role0.Keys && HasRole(role0, tf, Free) && HasRole(role0, st, Free) && tf != st
    && !IsRoot(role0, r) && IsRoot(role, r)
    && forall g | g in role0 ::
         if g == tf || g == st then role[g] == Held
         else || role[g] == role0[g]
              || (role0[g] == Free && (role[g] == Dir(r, 2, 0) || role[g] in tables || UserIn(role[g], r, 0, n)))
  }

  /** A process has been given memory, and every page table there was is as it was. */
  ghost predicate Acquired(s0: State, s: State, tf: int, st: int, r: nat, tables: set<Role>, n: nat) {
    && Good(s) && Settled(s) && SamePages(s0, s) && SameMaps(s0.pt, s.pt, s0.role)
    && AcquiredRoles(s0.role, s.role, tf, st, r, tables, n) && (forall p | p in tables :: TableOf(p, r))
    && (forall p | TableOf(p, r) :: PageTable.Has(s.pt, p) <==> p in tables)
    && |s.free| == |s0.free| - 3 - |tables| - n
  }

  lemma TookAndMade(s0: State, s1: State, s: State, tf: nat, st: nat, r: nat)
    requires Took(s0, s1, tf, st) && Made(s1, s, r, SpecialPath(r)) && Settled(s)
    ensures Acquired(s0, s, tf, st, r, SpecialPath(r), 0) && |s.free| == |s0.free| - 5
  {
    hide Sound, NoStale, Settled, Look, PageTable.Has, SpecialPath;
    OneSpecialPath(r, 0);
    assert forall q: nat :: IsRoot(s1.role, q) <==> IsRoot(s0.role, q);
  }

  lemma TookAndMadeHolds(s0: State, s1: State, s: State, tf: nat, st: nat, r: nat, tramp: nat, ret: nat)
    requires Good(s0) && Took(s0, s1, tf, st) && Made(s1, s, r, SpecialPath(r))
    requires UserTable(s, r, Four(tramp, tf, ret, st), 0, 4, 0)
    ensures Holds(s, tf, st, r, tramp, ret, 0)
  {
    hide Sound, NoStale, Look, PageTable.Has, SpecialPath, UserTable;
    TookHolds(s0, s1, tf, st, tramp, ret, 0);
    forall q: nat | IsRoot(s.role, q) && q != r
      ensures IsRoot(s1.role, q)
    {
    }
  }

  // ---- fork ----

  /** How many tables it takes to map n user pages besides those the special pages share: one for every 512
      pages and one for every 512 * 512. */
  function ForkTables(n: nat): int {
    (n + 511) / 512 - (if n > 131071 * 512 then 1 else 0) + (n + 262143) / 262144 - (if n > 255 * 262144 then 1 else 0)
  }

  lemma {:induction false} InPaths(r: nat, n: nat, p: Role)
    requires TableOf(p, r)
    ensures p in Paths(r, 0, n) <==> p.prefix * (if p.level == 0 then 512 else 262144) < n
  {
    if n > 0 {
      InPaths(r, n - 1, p);
    }
  }

  /** Page k needs a level-0 table unless an earlier page or the special pages have it; likewise level 1. */
  predicate Opens(k: nat, level: nat) {
    if level == 0 then k % 512 == 0 && k / 512 != 131071 else k % 262144 == 0 && k / 262144 != 255
  }

  lemma ForkTablesStep(k: nat)
    ensures ForkTables(k + 1) == ForkTables(k) + (if Opens(k, 0) then 1 else 0) + (if Opens(k, 1) then 1 else 0)
  {
  }

  lemma Divisions(k: nat)
    ensures k / 512 / 512 == k / 262144
    ensures k / 512 * 512 < k <==> k % 512 != 0
    ensures k / 262144 * 262144 < k <==> k % 262144 != 0
  {
  }

  lemma PathOpens(r: nat, k: nat)
    ensures Opens(k, 0) <==> PlaceBelow(r, k, 1) !in Paths(r, 0, k) + SpecialPath(r)
    ensures Opens(k, 1) <==> PlaceBelow(r, k, 2) !in Paths(r, 0, k) + SpecialPath(r)
  {
    hide Paths, SpecialPath;
    Divisions(k);
    InPaths(r, k, PlaceBelow(r, k, 1));
    InPaths(r, k, PlaceBelow(r, k, 2));
    SpecialPlaces(r);
  }

  lemma SpecialPlaces(r: nat)
    ensures SpecialPath(r) == {Dir(r, 1, 255), Dir(r, 0, 131071)}
  {
  }

  lemma {:induction false} TablesOfPages(r: nat, n: nat)
    ensures |Paths(r, 0, n) - SpecialPath(r)| == ForkTables(n)
  {
    hide ForkTables, Opens, SpecialPath, PlaceBelow;
    if n == 0 {
      assert ForkTables(0) == 0 by { NoForkTables(); }
    } else {
      TablesOfPages(r, n - 1);
      assert PlaceBelow(r, n - 1, 2) != PlaceBelow(r, n - 1, 1) by { TwoPlaces(r, n - 1); }
      OneMore(Paths(r, 0, n - 1), SpecialPath(r), PlaceBelow(r, n - 1, 2), PlaceBelow(r, n - 1, 1));
      PathOpens(r, n - 1);
      ForkTablesStep(n - 1);
    }
  }

  lemma NoForkTables()
    ensures ForkTables(0) == 0
  {
  }

  lemma TwoPlaces(r: nat, v: nat)
    ensures PlaceBelow(r, v, 2) != PlaceBelow(r, v, 1)
  {
  }

  lemma OneMore(a: set<Role>, b: set<Role>, x: Role, y: Role)
    requires x != y
    ensures |(a + {x, y}) - b| == |a - b| + (if x in a || x in b then 0 else 1) + (if y in a || y in b then 0 else 1)
  {
    var x', y' := if x in a || x in b then {} else {x}, if y in a || y in b then {} else {y};
    assert (a + {x, y}) - b == (a - b) + x' + y';
  }

  /** Of the tables for n user pages, those on the way to the special pages are there already. */
  lemma ChildNeeds(s0: State, s: State, tf: int, st: int, r: nat, n: nat)
    requires Acquired(s0, s, tf, st, r, SpecialPath(r), 0)
    ensures NewTables(s, r, 0, n) == Paths(r, 0, n) - SpecialPath(r) && Need(s, r, 0, n) == n + ForkTables(n)
  {
    hide Good, Settled, SamePages, SameMaps, AcquiredRoles, PageTable.Has, SpecialPath, ForkTables;
    PathsOfRoot(r, 0, n);
    TablesOfPages(r, n);
  }

  /** The user pages are added to a process that has none. */
  lemma AcquiredMore(s0: State, s1: State, s2: State, tf: int, st: int, r: nat, tables: set<Role>, n: nat,
                     more: set<Role>)
    requires Acquired(s0, s1, tf, st, r, tables, 0) && Adds(s1, s2, r, 0, n, more)
    ensures Acquired(s0, s2, tf, st, r, tables + more, n)
  {
    hide Good, Look, PageTable.Has;
    AcquiredRoots(s0, s1, tf, st, r, tables, 0);
    assert tables !! more;
  }

  lemma AcquiredRoots(s0: State, s: State, tf: int, st: int, r: nat, tables: set<Role>, n: nat)
    requires Acquired(s0, s, tf, st, r, tables, n)
    ensures forall q: nat | IsRoot(s0.role, q) :: IsRoot(s.role, q) && q != r
  {
    hide Good, Look, PageTable.Has;
  }

  /** The process still has what it had, and the new user pages. */
  lemma AddsHolds(s1: State, s2: State, tf: int, st: int, r: nat, tramp: nat, ret: nat, n: nat, more: set<Role>)
    requires Holds(s1, tf, st, r, tramp, ret, 0) && Adds(s1, s2, r, 0, n, more) && n <= MAXVPN - 4
    ensures Holds(s2, tf, st, r, tramp, ret, n)
  {
    hide Good, Look, TablesAdded, Perm, WithValid;
    AddsRoots(s1, s2, r, 0, n, more);
  }

  /** When copying fails, the child has what allocproc gave it. */
  lemma RestoredHolds(s1: State, s2: State, tf: int, st: int, r: nat, tramp: nat, ret: nat, places: set<Role>)
    requires Holds(s1, tf, st, r, tramp, ret, 0) && Restored(s1, s2, r, places) && Settled(s1)
    requires forall p | p in places :: TableOf(p, r)
    ensures Holds(s2, tf, st, r, tramp, ret, 0) && Settled(s2) && Good(s2)
  {
    hide Sound, Look, Perm, WithValid, IsValid;
    assert forall q: nat :: IsRoot(s2.role, q) <==> IsRoot(s1.role, q);
    forall perm: nat, f: nat
      ensures IsValid(Pte(f, WithValid(perm)))
    {
      WithValidIsValid(perm);
    }
  }

  /** A process that was given memory and freed has given every frame back. */
  lemma AcquiredThenReleased(s0: State, s1: State, s2: State, tf: int, st: int, r: nat, tables: set<Role>, n: nat)
    requires Good(s0) && Acquired(s0, s1, tf, st, r, tables, n) && Released(s1, s2, tf, st, r)
    ensures Returned(s0, s2)
  {
    hide Sound, Look, PageTable.Has;
    AcquiredRoots(s0, s1, tf, st, r, tables, n);
    forall g: nat | g in s0.role
      ensures s2.role[g] == s0.role[g]
    {
      NotOfNewRoot(s0, r, g);
    }
    assert s2.role == s0.role;
  }

  /** Before r was a root no frame was part of its page table. */
  lemma NotOfNewRoot(s: State, r: nat, g: nat)
    requires Good(s) && !IsRoot(s.role, r) && g in s.role
    ensures !OfRoot(s.role[g], r)
  {
    assert Placed(s.pt, s.role, g);
  }

  lemma RestoredThenReleased(s0: State, s1: State, s2: State, s3: State, tf: int, st: int, r: nat, tables: set<Role>,
                             places: set<Role>)
    requires Good(s0) && Acquired(s0, s1, tf, st, r, tables, 0) && Restored(s1, s2, r, places)
    requires Released(s2, s3, tf, st, r) && forall p | p in places :: TableOf(p, r)
    ensures Returned(s0, s3)
  {
    hide Sound, Look, PageTable.Has;
    AcquiredRoots(s0, s1, tf, st, r, tables, 0);
    forall g: nat | g in s0.role
      ensures s3.role[g] == s0.role[g]
    {
      NotOfNewRoot(s0, r, g);
    }
    assert s3.role == s0.role;
    assert forall q: nat | IsRoot(s0.role, q) :: IsRoot(s2.role, q);
  }

  // ---- the other processes ----

  /** Giving memory to one process takes nothing from another. */
  lemma AcquiredKeepsHolds(s0: State, s: State, tf: int, st: int, r: nat, tables: set<Role>, n: nat,
                           tf': int, st': int, r': int, n': nat, tramp: nat, ret: nat)
    requires Good(s0) && Acquired(s0, s, tf, st, r, tables, n) && Holds(s, tf, st, r, tramp, ret, n)
    requires Holds(s0, tf', st', r', tramp, ret, n') && tramp !in s0.role && ret !in s0.role
    ensures Holds(s, tf', st', r', tramp, ret, n')
  {
    hide Sound, Look, PageTable.Has, UserTable, MappedOnlyBy, WithValid, Perm;
    AcquiredKeepsBelongs(s0, s, tf, st, r, tables, n, tf', r', tramp, ret);
    AcquiredKeepsBelongs(s0, s, tf, st, r, tables, n, st', r', tramp, ret);
    if r' >= 0 {
      AcquiredKeepsTable(s0, s, tf, st, r, tables, n, tf', st', r', n', tramp, ret);
    }
  }

  lemma AcquiredKeepsBelongs(s0: State, s: State, tf: int, st: int, r: nat, tables: set<Role>, n: nat,
                             f: int, r': int, tramp: nat, ret: nat)
    requires Good(s0) && Acquired(s0, s, tf, st, r, tables, n) && Holds(s, tf, st, r, tramp, ret, n)
    requires Belongs(s0, f, r') && tramp !in s0.role && ret !in s0.role
    ensures Belongs(s, f, r')
  {
    hide Sound, Look, PageTable.Has, WithValid, Perm;
    forall q: nat | IsRoot(s.role, q) && q != r
      ensures IsRoot(s0.role, q)
    {
    }
    if f >= 0 {
      forall w: nat | w < VPNS && IsValid(Look(s.pt, r, w))
        ensures Look(s.pt, r, w).ppn != f
      {
        MapsItsOwn(s, r, Four(tramp, tf, ret, st), n, w);
      }
    }
  }

  /** A page table maps user pages of its own and the special frames. */
  lemma MapsItsOwn(s: State, r: nat, frames: Frames, n: nat, w: nat)
    requires UserTable(s, r, frames, 0, 4, n) && w < VPNS && IsValid(Look(s.pt, r, w))
    ensures HasRole(s.role, Look(s.pt, r, w).ppn, User(r, w)) || Look(s.pt, r, w).ppn in frames
  {
    hide Look, WithValid, Perm;
  }

  lemma AcquiredKeepsTable(s0: State, s: State, tf: int, st: int, r: nat, tables: set<Role>, n: nat,
                           tf': nat, st': nat, r': nat, n': nat, tramp: nat, ret: nat)
    requires Acquired(s0, s, tf, st, r, tables, n) && UserTable(s0, r', Four(tramp, tf', ret, st'), 0, 4, n')
    requires HasRole(s0.role, tf', Held) && HasRole(s0.role, st', Held) && tramp !in s0.role && ret !in s0.role
    ensures UserTable(s, r', Four(tramp, tf', ret, st'), 0, 4, n')
  {
    hide Good, Look, PageTable.Has, WithValid, Perm;
  }

  /** Freeing one process takes nothing from another. */
  lemma ReleasedKeepsHolds(s0: State, s: State, tf: int, st: int, r: int, n: nat,
                           tf': int, st': int, r': int, n': nat, tramp: nat, ret: nat)
    requires Released(s0, s, tf, st, r) && Holds(s0, tf, st, r, tramp, ret, n)
    requires Holds(s0, tf', st', r', tramp, ret, n') && (r' >= 0 ==> r' != r)
    requires (tf' >= 0 ==> tf' != tf && tf' != st) && (st' >= 0 ==> st' != tf && st' != st)
    requires tramp !in s0.role && ret !in s0.role
    ensures Holds(s, tf', st', r', tramp, ret, n')
  {
    hide Good, Look, UserTable, MappedOnlyBy, Released;
    ReleasedKeepsBelongs(s0, s, tf, st, r, tf', r');
    ReleasedKeepsBelongs(s0, s, tf, st, r, st', r');
    if r' >= 0 {
      ReleasedKeepsTable(s0, s, tf, st, r, tf', st', r', n', tramp, ret);
    }
  }

  lemma ReleasedKeepsBelongs(s0: State, s: State, tf: int, st: int, r: int, f: int, r': int)
    requires Released(s0, s, tf, st, r) && Belongs(s0, f, r') && (f >= 0 ==> f != tf && f != st)
    ensures Belongs(s, f, r')
  {
    hide Good, Look;
    forall q: nat | IsRoot(s.role, q)
      ensures IsRoot(s0.role, q) && q != r
    {
    }
  }

  lemma ReleasedKeepsTable(s0: State, s: State, tf: int, st: int, r: int,
                           tf': nat, st': nat, r': nat, n': nat, tramp: nat, ret: nat)
    requires Released(s0, s, tf, st, r) && Belongs(s0, tf, r) && Belongs(s0, st, r) && r' != r
    requires HasRole(s0.role, tf', Held) && HasRole(s0.role, st', Held) && tf' !in {tf, st} && st' !in {tf, st}
    requires UserTable(s0, r', Four(tramp, tf', ret, st'), 0, 4, n') && tramp !in s0.role && ret !in s0.role
    ensures UserTable(s, r', Four(tramp, tf', ret, st'), 0, 4, n')
  {
    hide Good, Look, MappedOnlyBy, WithValid, Perm;
  }

  /** The memory of a process. */
  class Proc {
    var trapframe: int
    var stack: int
    var pagetable: int
    var sz: nat

    predicate Empty()
      reads this
    {
      trapframe == -1 && stack == -1 && pagetable == -1 && sz == 0
    }

    ghost predicate Has(s: State, tramp: nat, ret: nat)
      reads this
    {
      Holds(s, trapframe, stack, pagetable, tramp, ret, PgUp(sz))
    }

    /** freeproc: the trap frame, the signal stack, all table pages and all user pages are free again, each
        once, and nothing else changes. No panic is in reach. */
    method FreeProc(m: Machine, ghost tramp: nat, ghost ret: nat) returns (panicked: bool)
      requires Good(m.S()) && Settled(m.S()) && Has(m.S(), tramp, ret)
      modifies this, m
      ensures !panicked && Empty()
      ensures Released(old(m.S()), m.S(), old(trapframe), old(stack), old(pagetable))
    {
      hide Good, Settled, UserTable, MappedOnlyBy, Stripped, Released, Destroyed, Dropped, Reclaimed, Filled, Junk,
        Look;
      panicked := false;
      ghost var s0 := m.S();
      GoodIsSound(s0);
      ghost var tf, st, r := trapframe, stack, pagetable;
      Drop(m, trapframe);
      trapframe := -1;
      DropSound(s0, tf);
      SecondHeld(s0, tf, st);
      ghost var s1 := m.S();
      Drop(m, stack);
      stack := -1;
      DropSound(s1, st);
      if pagetable >= 0 {
        DropKeepsTable(s0, tf, r, Four(tramp, tf, ret, st), PgUp(sz));
        DropKeepsTable(s1, st, r, Four(tramp, tf, ret, st), PgUp(sz));
        panicked := ProcFreePagetable(m, pagetable, sz, Four(tramp, tf, ret, st));
        StripTable(s0, m.S(), tf, st, r);
      } else {
        StripNone(s0, tf, st, r);
      }
      ReclaimBoth(s0, m.S(), tf, st, r);
      m.role := Reclaimed(Reclaimed(m.role, tf), st);
      pagetable := -1;
      sz := 0;
    }

    /** The memory of allocproc: with five free frames, a trap frame, a signal stack and a page table with
        the four special pages; with fewer, every frame goes back. */
    method AllocProc(m: Machine, tramp: nat, ret: nat) returns (ok: bool, panicked: bool)
      requires Empty() && Good(m.S()) && Settled(m.S()) && tramp !in m.role && ret !in m.role
      modifies this, m
      ensures !panicked && sz == 0 && (ok <==> |old(m.free)| >= 5)
      ensures ok ==>
                && pagetable >= 0
                && Acquired(old(m.S()), m.S(), trapframe, stack, pagetable, SpecialPath(pagetable), 0)
      ensures ok ==> |m.free| == |old(m.free)| - 5 && Has(m.S(), tramp, ret)
      ensures !ok ==> Returned(old(m.S()), m.S()) && Empty()
    {
      hide Good, Settled, Took, Made, Acquired, UserTable, Holds, Returned, Released, Kept, SpecialPath, Look, PgUp;
      ok, panicked := false, false;
      ghost var s0 := m.S();
      trapframe := Grab(m);
      if trapframe >= 0 {
        stack := Grab(m);
      }
      AfterGrabs(s0, m.S(), trapframe, stack, tramp, ret);
      ghost var s1 := m.S();
      if trapframe < 0 || stack < 0 {
        ReturnedNothing(s1);
        panicked := GiveUp(m, tramp, ret, s0, s1);
        return;
      }
      pagetable, panicked := ProcPagetable(m, Four(tramp, trapframe, ret, stack));
      if pagetable < 0 {
        pagetable := -1;
        ReturnedSettled(s1, m.S());
        panicked := GiveUp(m, tramp, ret, s0, s1);
        return;
      }
      TookAndMade(s0, s1, m.S(), trapframe, stack, pagetable);
      TookAndMadeHolds(s0, s1, m.S(), trapframe, stack, pagetable, tramp, ret);
      PgUpZero();
      ok := true;
    }

    /** The memory of fork: with frames enough, the child has a copy of every user page of its parent and
        pages of its own for the rest; otherwise every frame goes back. The parent keeps what it has. */
    method Fork(m: Machine, np: Proc, tramp: nat, ret: nat) returns (ok: bool, panicked: bool)
      requires np != this && np.Empty() && pagetable >= 0 && Has(m.S(), tramp, ret)
      requires Good(m.S()) && Settled(m.S()) && tramp !in m.role && ret !in m.role
      modifies np, m
      ensures !panicked && (ok <==> |old(m.free)| >= 5 + PgUp(sz) + ForkTables(PgUp(sz)))
      ensures ok ==> np.pagetable >= 0 && np.sz == sz && np.Has(m.S(), tramp, ret) && Has(m.S(), tramp, ret)
      ensures ok ==> Acquired(old(m.S()), m.S(), np.trapframe, np.stack, np.pagetable,
                              SpecialPath(np.pagetable) + Paths(np.pagetable, 0, PgUp(sz)), PgUp(sz))
      ensures ok ==> PgUp(sz) <= VPNS && Fills(m.S(), np.pagetable, 0, Copied(old(m.S()), pagetable, PgUp(sz)))
      ensures ok ==> forall w: nat | w < PgUp(sz) :: SamePage(old(m.S()), pagetable, m.S(), np.pagetable, w)
      ensures !ok ==> Returned(old(m.S()), m.S()) && np.Empty()
    {
      hide Good, Settled, Acquired, Holds, Returned, Released, Restored, Adds, Fills, Copied, Vacant, Need, NewTables,
        SamePage, ForkTables, SpecialPath, Look, PgUp;
      panicked := false;
      ghost var s0, n := m.S(), PgUp(sz);
      ForkTablesPositive(n);
      ok, panicked := np.AllocProc(m, tramp, ret);
      if !ok {
        return;
      }
      ghost var s1, tf, st, r := m.S(), np.trapframe, np.stack, np.pagetable;
      PgUpZero();
      ChildNeeds(s0, s1, tf, st, r, n);
      BeforeCopy(s0, s1, trapframe, stack, pagetable, n, tf, st, r, tramp, ret);
      ok, panicked := m.UvmCopy(pagetable, np.pagetable, sz);
      if !ok {
        NewTablesOfRoot(s1, r, n);
        RestoredHolds(s1, m.S(), tf, st, r, tramp, ret, NewTables(s1, r, 0, n));
        ghost var s2 := m.S();
        panicked := np.FreeProc(m, tramp, ret);
        RestoredThenReleased(s0, s1, s2, m.S(), tf, st, r, SpecialPath(r), NewTables(s1, r, 0, n));
        return;
      }
      np.sz := sz;
      SamePagesCopied(s0, pagetable, m.S(), r, n);
      AddsHolds(s1, m.S(), tf, st, r, tramp, ret, n, NewTables(s1, r, 0, n));
      AcquiredMore(s0, s1, m.S(), tf, st, r, SpecialPath(r), n, NewTables(s1, r, 0, n));
      assert SpecialPath(r) + NewTables(s1, r, 0, n) == SpecialPath(r) + Paths(r, 0, n);
      AcquiredKeepsHolds(s0, m.S(), tf, st, r, SpecialPath(r) + Paths(r, 0, n), n, trapframe, stack, pagetable, n,
                         tramp, ret);
    }

    /** A failed allocproc ends in freeproc. */
    method GiveUp(m: Machine, ghost tramp: nat, ghost ret: nat, ghost s0: State, ghost s1: State)
      returns (panicked: bool)
      requires pagetable == -1 && Good(s0) && Took(s0, s1, trapframe, stack) && Returned(s1, m.S()) && Settled(m.S())
      modifies this, m
      ensures !panicked && Empty() && Returned(s0, m.S())
    {
      hide Good, Settled, Took, Holds, Returned, Released, PgUp;
      ghost var s2 := m.S();
      ghost var tf, st := trapframe, stack;
      TookHolds(s0, s1, tf, st, tramp, ret, PgUp(sz));
      ReturnedHolds(s1, s2, tf, st, tramp, ret, PgUp(sz));
      ReturnedGood(s1, s2);
      panicked := FreeProc(m, tramp, ret);
      TookThenReleased(s0, s1, s2, m.S(), tf, st);
    }
  }

  /** kalloc of a frame the kernel keeps, -1 if there is none. */
  method Grab(m: Machine) returns (f: int)
    requires Good(m.S()) && Settled(m.S())
    modifies m
    ensures Good(m.S()) && Settled(m.S())
    ensures if old(m.free) == [] then f == -1 && m.S() == old(m.S())
            else f == old(m.free)[0] && m.S() == Grabbed(old(m.S()))
  {
    hide Good, Settled, SamePages, SameMaps, MappedOnlyBy, Filled, Junk;
    ghost var s0 := m.S();
    f := m.Kalloc();
    if f >= 0 {
      m.role := m.role[f := Held];
      assert m.role == Grabbed(s0).role;
      GrabGood(s0);
    }
  }

  lemma AfterGrabs(s0: State, s: State, tf: int, st: int, tramp: nat, ret: nat)
    requires Good(s0) && Settled(s0) && tramp !in s0.role && ret !in s0.role
    requires if s0.free == [] then tf == -1 && st == -1 && s == s0
             else tf == s0.free[0] && if Grabbed(s0).free == [] then st == -1 && s == Grabbed(s0)
                                      else st == Grabbed(s0).free[0] && s == Grabbed(Grabbed(s0))
    ensures Took(s0, s, tf, st) && Good(s) && Settled(s)
    ensures if tf >= 0 && st >= 0 then |s.free| == |s0.free| - 2 && Kept(s.role, Four(tramp, tf, ret, st))
            else |s0.free| < 5
  {
    hide Sound, NoStale, Settled, SamePages, SameMaps, Filled, Junk, MappedOnlyBy;
    if s0.free == [] {
      TookNothing(s0);
    } else {
      TookTrapframe(s0);
      GrabGood(s0);
      if Grabbed(s0).free != [] {
        TookStack(s0, Grabbed(s0), tf);
      }
    }
  }

  lemma ReturnedGood(s0: State, s: State)
    requires Returned(s0, s)
    ensures Good(s)
  {
  }

  lemma ReturnedSettled(s0: State, s: State)
    requires Returned(s0, s) && Settled(s0)
    ensures Settled(s)
  {
  }

  lemma ForkTablesPositive(n: nat)
    ensures ForkTables(n) >= 0
  {
    assert n > 131071 * 512 ==> (n + 511) / 512 >= 1;
    assert n > 255 * 262144 ==> (n + 262143) / 262144 >= 1;
  }

  lemma NewTablesOfRoot(s: State, r: nat, n: nat)
    ensures forall p | p in NewTables(s, r, 0, n) :: TableOf(p, r)
  {
    PathsOfRoot(r, 0, n);
  }

  /** The parent's pages are there to be copied, and the child has room for them. */
  lemma BeforeCopy(s0: State, s1: State, tf: int, st: int, r: nat, n: nat, tf': int, st': int, r': nat, tramp: nat,
                   ret: nat)
    requires Good(s0) && Holds(s0, tf, st, r, tramp, ret, n) && Acquired(s0, s1, tf', st', r', SpecialPath(r'), 0)
    requires Holds(s1, tf', st', r', tramp, ret, 0)
    ensures Good(s1) && Settled(s1) && IsRoot(s1.role, r) && IsRoot(s1.role, r') && r != r' && n <= MAXVPN - 4
    ensures forall w: nat | w < n ::
              IsValid(Look(s1.pt, r, w)) && HasRole(s1.role, Look(s1.pt, r, w).ppn, User(r, w))
    ensures Vacant(s1, r', 0, n) && Copied(s1, r, n) == Copied(s0, r, n)
    ensures forall w: nat | w < n :: Look(s0.pt, r, w).ppn in s0.page
  {
    hide Sound, NoStale, Look, PageTable.Has, SpecialPath, WithValid, Perm;
  }

  lemma PgUpZero()
    ensures PgUp(0) == 0
  {
  }

  /** kfree unless there is nothing to free. */
  method Drop(m: Machine, f: int)
    modifies m
    ensures m.S() == Dropped(old(m.S()), f)
  {
    if f >= 0 {
      m.Kfree(f);
      m.role := m.role[f := Stale];
    }
  }

  lemma GoodIsSound(s: State)
    requires Good(s)
    ensures Sound(s)
  {
  }

  lemma SecondHeld(s: State, tf: int, st: int)
    requires (st >= 0 ==> HasRole(s.role, st, Held)) && (tf >= 0 ==> tf != st)
    ensures st >= 0 ==> HasRole(Dropped(s, tf).role, st, Held)
  {
  }
}
