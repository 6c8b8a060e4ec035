/**
 Growing and copying user memory (uvmalloc, uvmdealloc and uvmcopy in
 kernel/vm.c) as relations between memory states: what has been added so far,
 and that undoing it gives every page and frame back.
 */
module UserMemory {
  import opened Seqs
  import opened PageTable
  import opened Memory

  /** None of these pages is mapped in r. */
  ghost predicate Vacant(s: State, r: nat, lo: nat, hi: nat)
    requires hi <= VPNS
  {
    forall w: nat | lo <= w < hi :: !IsValid(Look(s.pt, r, w))
  }

  /** Pages lo to hi of r map frames of their own that were free; every other mapping is as it was. */
  ghost predicate AddsEntries(s0: State, s: State, r: nat, lo: nat, hi: nat)
    requires hi <= VPNS
  {
    && (forall q: nat, w: nat | IsRoot(s0.role, q) && w < VPNS && !(q == r && lo <= w < hi) ::
          Look(s.pt, q, w) == Look(s0.pt, q, w))
    && (forall w: nat | lo <= w < hi ::
          && IsValid(Look(s.pt, r, w))
          && HasRole(s.role, Look(s.pt, r, w).ppn, User(r, w)) && HasRole(s0.role, Look(s.pt, r, w).ppn, Free))
  }

  /** Frames have changed hands only from free to the added table pages or user pages of r in that range. */
  ghost predicate AddsRoles(role0: Roles, role: Roles, r: nat, lo: nat, hi: nat, added: set<Role>) {
    && role.Keys == role0.Keys
    && forall g | g in role0 ::
         role[g] == role0[g] || (role0[g] == Free && (role[g] in added || UserIn(role[g], r, lo, hi)))
  }

  /** The table pages at these places of r and n frames more have come off the free list. */
  ghost predicate AddsTables(s0: State, s: State, r: nat, n: nat, added: set<Role>) {
    && (forall p | p in added :: TableOf(p, r)) && TablesAdded(s0, s, added)
    && |s.free| == |s0.free| - n - |added|
  }

  ghost predicate Adds(s0: State, s: State, r: nat, lo: nat, hi: nat, added: set<Role>) {
    && lo <= hi <= VPNS && Good(s) && SamePages(s0, s)
    && AddsEntries(s0, s, r, lo, hi) && AddsRoles(s0.role, s.role, r, lo, hi, added)
    && AddsTables(s0, s, r, hi - lo, added)
  }

  /** The tables lacking on the way to pages lo to hi of r. */
  function NewTables(s: State, r: nat, lo: nat, hi: nat): set<Role>
    requires lo <= hi
  {
    Lacking(s.pt, Paths(r, lo, hi - lo))
  }

  /** How many frames it takes to add pages lo to hi of r: one for each, and one for each table lacking on
      the way to any of them. */
  function Need(s: State, r: nat, lo: nat, hi: nat): nat
    requires lo <= hi
  {
    hi - lo + |NewTables(s, r, lo, hi)|
  }

  lemma AddsNothing(s: State, r: nat, lo: nat)
    requires Good(s) && lo <= VPNS
    ensures Adds(s, s, r, lo, lo, {}) && NewTables(s, r, lo, lo) == {}
  {
  }

  /** What a new page should hold. */
  datatype Want = Want(flags: nat, bytes: Page)

  /** The pages of r from lo on have the wanted flags and contents. */
  ghost predicate Fills(s: State, r: nat, lo: nat, want: seq<Want>) {
    && lo + |want| <= VPNS
    && forall w: nat | lo <= w < lo + |want| ::
         && Look(s.pt, r, w).flags == want[w - lo].flags
         && Look(s.pt, r, w).ppn in s.page && s.page[Look(s.pt, r, w).ppn] == want[w - lo].bytes
  }

  lemma AddsRoots(s0: State, s: State, r: nat, lo: nat, hi: nat, added: set<Role>)
    requires AddsRoles(s0.role, s.role, r, lo, hi, added) && forall p | p in added :: TableOf(p, r)
    ensures forall q: nat :: IsRoot(s.role, q) <==> IsRoot(s0.role, q)
  {
  }

  /** A frame is taken off the free list and filled; nothing is mapped yet. */
  lemma TakePage(s0: State, s1: State, r: nat, lo: nat, hi: nat, added: set<Role>, t: Table, p: Page, want: seq<Want>)
    requires Adds(s0, s1, r, lo, hi, added) && IsRoot(s0.role, r)
    requires |want| == hi - lo && Fills(s1, r, lo, want) && s1.free != []
    ensures var s2, f := Taken(s1, t, p), s1.free[0];
            && Good(s2) && HasRole(s0.role, f, Free) && HasRole(s2.role, f, Fresh) && f in s2.page && s2.page[f] == p
            && SamePages(s0, s2) && AddsEntries(s0, s2, r, lo, hi) && Fills(s2, r, lo, want)
            && (forall q: nat :: IsRoot(s2.role, q) <==> IsRoot(s0.role, q))
  {
    hide Sound, NoStale, Look, TablesAdded, TableOf;
    TakeGood(s1, t, p);
    assert forall q: nat :: IsRoot(s1.role, q) <==> IsRoot(s0.role, q) by { AddsRoots(s0, s1, r, lo, hi, added); }
  }

  lemma TakeTables(s0: State, s1: State, r: nat, lo: nat, hi: nat, added: set<Role>, t: Table, p: Page)
    requires Adds(s0, s1, r, lo, hi, added) && s1.free != []
    ensures AddsTables(s0, Taken(s1, t, p), r, hi - lo + 1, added)
  {
    hide Sound, NoStale, Look, Has;
    TakeGood(s1, t, p);
    AddsRoots(s0, s1, r, lo, hi, added);
  }

  lemma MapTables(s0: State, s2: State, s3: State, r: nat, n: nat, added: set<Role>, more: set<Role>)
    requires AddsTables(s0, s2, r, n, added) && TablesAdded(s2, s3, more) && |s3.free| == |s2.free| - |more|
    requires forall p | p in more :: TableOf(p, r)
    requires forall q: nat :: IsRoot(s2.role, q) <==> IsRoot(s0.role, q)
    ensures AddsTables(s0, s3, r, n, added + more)
  {
    hide TablesAdded;
    TablesAddedMore(s0, s2, s3, added, more);
  }

  /** The frame f just taken is mapped at page a of r. */
  lemma AddPageRoles(s0: State, s1: State, s2: State, s3: State, r: nat, lo: nat, a: nat, f: nat,
                     added: set<Role>, more: set<Role>)
    requires AddsRoles(s0.role, s1.role, r, lo, a, added) && s2.role == s1.role[f := Fresh] && lo <= a
    requires HasRole(s0.role, f, Free) && f in s1.role && SamePages(s0, s2) && SamePages(s2, s3)
    requires MapsRoles(s2.role, s3.role, r, a, 1, f, true, more)
    ensures AddsRoles(s0.role, s3.role, r, lo, a + 1, added + more) && SamePages(s0, s3)
  {
  }

  lemma AddPageEntries(s0: State, s2: State, s3: State, r: nat, lo: nat, a: nat, f: nat, perm: nat, more: set<Role>)
    requires lo <= a < VPNS && HasRole(s0.role, f, Free) && HasRole(s2.role, f, Fresh) && AddsEntries(s0, s2, r, lo, a)
    requires IsRoot(s0.role, r) && forall q: nat :: IsRoot(s2.role, q) <==> IsRoot(s0.role, q)
    requires MapsEntries(s2, s3, r, a, 1, f, perm) && MapsRoles(s2.role, s3.role, r, a, 1, f, true, more)
    ensures AddsEntries(s0, s3, r, lo, a + 1)
  {
    hide Look, WithValid, IsValid;
    assert IsValid(Pte(f, WithValid(perm))) by { WithValidIsValid(perm); }
    forall w: nat | lo <= w < a
      ensures Look(s3.pt, r, w) == Look(s2.pt, r, w) && Look(s2.pt, r, w).ppn != f
    {
      assert HasRole(s2.role, Look(s2.pt, r, w).ppn, User(r, w));
    }
  }

  lemma FillPage(s0: State, s2: State, s3: State, r: nat, lo: nat, a: nat, f: nat, perm: nat, p: Page, want: seq<Want>)
    requires lo <= a < VPNS && |want| == a - lo && Fills(s2, r, lo, want) && HasRole(s2.role, f, Fresh)
    requires IsRoot(s2.role, r) && MapsEntries(s2, s3, r, a, 1, f, perm) && SamePages(s2, s3)
    requires AddsEntries(s0, s2, r, lo, a) && f in s2.page && s2.page[f] == p
    ensures Fills(s3, r, lo, want + [Want(WithValid(perm), p)])
  {
    hide Look, WithValid;
    forall w: nat | lo <= w < a
      ensures Look(s3.pt, r, w) == Look(s2.pt, r, w) && s3.page[Look(s2.pt, r, w).ppn] == s2.page[Look(s2.pt, r, w).ppn]
    {
      assert HasRole(s2.role, Look(s2.pt, r, w).ppn, User(r, w));
    }
  }

  /** One page more: the frame taken is mapped. */
  lemma AddPage(s0: State, s1: State, s3: State, r: nat, lo: nat, a: nat, t: Table, p: Page, perm: nat,
                want: seq<Want>, added: set<Role>, more: set<Role>)
    requires Adds(s0, s1, r, lo, a, added) && IsRoot(s0.role, r) && a < VPNS
    requires |want| == a - lo && Fills(s1, r, lo, want) && s1.free != []
    requires Maps(Taken(s1, t, p), s3, r, a, 1, s1.free[0], perm, true, more)
    ensures Adds(s0, s3, r, lo, a + 1, added + more) && Fills(s3, r, lo, want + [Want(WithValid(perm), p)])
  {
    hide Good, Look, SamePages, AddsEntries, AddsRoles, MapsEntries, MapsRoles, Fills, WithValid, TablesAdded, TableOf;
    var s2, f := Taken(s1, t, p), s1.free[0];
    TakePage(s0, s1, r, lo, a, added, t, p, want);
    TakeTables(s0, s1, r, lo, a, added, t, p);
    MapTables(s0, s2, s3, r, a - lo + 1, added, more);
    assert f in s1.role by { TakeGood(s1, t, p); }
    AddPageRoles(s0, s1, s2, s3, r, lo, a, f, added, more);
    AddPageEntries(s0, s2, s3, r, lo, a, f, perm, more);
    FillPage(s0, s2, s3, r, lo, a, f, perm, p, want);
  }

  /** The page could not be mapped: the frame taken is given back. */
  lemma DropPage(s0: State, s1: State, s3: State, r: nat, lo: nat, a: nat, t: Table, p: Page, perm: nat,
                 want: seq<Want>, added: set<Role>, more: set<Role>)
    requires Adds(s0, s1, r, lo, a, added) && IsRoot(s0.role, r) && a < VPNS
    requires |want| == a - lo && Fills(s1, r, lo, want) && s1.free != []
    requires Maps(Taken(s1, t, p), s3, r, a, 0, s1.free[0], perm, true, more)
    ensures HasRole(s3.role, s1.free[0], Fresh) && Good(s3)
    ensures Adds(s0, Given(s3, s1.free[0], Filled(1), Junk(1)), r, lo, a, added + more)
  {
    hide Good, Look, SamePages, AddsEntries, AddsRoles, MapsEntries, Fills, TablesAdded, TableOf, Filled, Junk,
      SameMaps;
    var s2, f := Taken(s1, t, p), s1.free[0];
    TakePage(s0, s1, r, lo, a, added, t, p, want);
    TakeTables(s0, s1, r, lo, a, added, t, p);
    MapTables(s0, s2, s3, r, a - lo + 1, added, more);
    assert f in s1.role by { TakeGood(s1, t, p); }
    assert HasRole(s3.role, f, Fresh);
    assert Sound(s3) && Good(Given(s3, f, Filled(1), Junk(1))) by { GiveGoodAgain(s3, f); }
    DropPageRoles(s0, s1, s2, s3, r, lo, a, f, added, more);
    DropPageEntries(s0, s2, s3, r, lo, a, f, perm, more);
    GivenTables(s0, s3, r, a - lo, added + more, f);
  }

  lemma GiveGoodAgain(s: State, f: nat)
    requires Good(s) && HasRole(s.role, f, Fresh)
    ensures Sound(s) && Good(Given(s, f, Filled(1), Junk(1)))
  {
    GiveGood(s, f, Filled(1), Junk(1));
  }

  lemma DropPageRoles(s0: State, s1: State, s2: State, s3: State, r: nat, lo: nat, a: nat, f: nat,
                      added: set<Role>, more: set<Role>)
    requires AddsRoles(s0.role, s1.role, r, lo, a, added) && s2.role == s1.role[f := Fresh]
    requires HasRole(s0.role, f, Free) && f in s1.role && SamePages(s0, s2) && SamePages(s2, s3)
    requires MapsRoles(s2.role, s3.role, r, a, 0, f, true, more)
    ensures AddsRoles(s0.role, Given(s3, f, Filled(1), Junk(1)).role, r, lo, a, added + more)
    ensures SamePages(s0, Given(s3, f, Filled(1), Junk(1)))
  {
    hide Filled, Junk;
  }

  lemma DropPageEntries(s0: State, s2: State, s3: State, r: nat, lo: nat, a: nat, f: nat, perm: nat, more: set<Role>)
    requires lo <= a < VPNS && HasRole(s2.role, f, Fresh) && AddsEntries(s0, s2, r, lo, a) && Sound(s3)
    requires IsRoot(s0.role, r) && forall q: nat :: IsRoot(s2.role, q) <==> IsRoot(s0.role, q)
    requires MapsEntries(s2, s3, r, a, 0, f, perm) && MapsRoles(s2.role, s3.role, r, a, 0, f, true, more)
    requires forall p | p in more :: TableOf(p, r)
    ensures AddsEntries(s0, Given(s3, f, Filled(1), Junk(1)), r, lo, a)
  {
    hide Look, Filled, Junk, Sound, IsValid, SamePlaces;
    GiveGood(s3, f, Filled(1), Junk(1));
    assert forall q: nat :: IsRoot(s3.role, q) <==> IsRoot(s0.role, q);
    forall w: nat | lo <= w < a
      ensures Look(s3.pt, r, w) == Look(s2.pt, r, w) && Look(s2.pt, r, w).ppn != f
    {
      assert HasRole(s2.role, Look(s2.pt, r, w).ppn, User(r, w));
    }
  }

  lemma GivenTables(s0: State, s3: State, r: nat, n: nat, added: set<Role>, f: nat)
    requires AddsTables(s0, s3, r, n + 1, added) && Sound(s3) && HasRole(s3.role, f, Fresh)
    requires forall q: nat :: IsRoot(s0.role, q) ==> IsRoot(s3.role, q)
    ensures AddsTables(s0, Given(s3, f, Filled(1), Junk(1)), r, n, added)
  {
    hide Sound, Has, Filled, Junk, Look;
    GiveGood(s3, f, Filled(1), Junk(1));
  }

  // ---- how many frames it takes ----

  lemma {:induction false} PathsOfRoot(r: nat, a: nat, k: nat)
    ensures forall p | p in Paths(r, a, k) :: TableOf(p, r)
  {
    if k > 0 {
      PathsOfRoot(r, a, k - 1);
    }
  }

  lemma {:induction false} PathsMonotone(r: nat, a: nat, k: nat, n: nat)
    requires k <= n
    ensures Paths(r, a, k) <= Paths(r, a, n)
  {
    if k < n {
      PathsMonotone(r, a, k, n - 1);
    }
  }

  lemma NeedMonotone(s: State, r: nat, lo: nat, a: nat, hi: nat)
    requires lo <= a <= hi
    ensures NewTables(s, r, lo, a) <= NewTables(s, r, lo, hi)
    ensures Need(s, r, lo, a) <= Need(s, r, lo, hi)
  {
    hide Has;
    PathsMonotone(r, lo, a - lo, hi - lo);
    SubsetSize(Lacking(s.pt, Paths(r, lo, a - lo)), Lacking(s.pt, Paths(r, lo, hi - lo)));
  }

  /** With the tables for the first k pages in place, those lacking for the next one complete them. */
  lemma PathsMore(s0: State, s1: State, r: nat, a: nat, k: nat)
    requires IsRoot(s0.role, r) && TablesAdded(s0, s1, Lacking(s0.pt, Paths(r, a, k)))
    ensures Lacking(s0.pt, Paths(r, a, k)) + Lacking(s1.pt, Path(r, a + k)) == Lacking(s0.pt, Paths(r, a, k + 1))
    ensures Lacking(s0.pt, Paths(r, a, k)) !! Lacking(s1.pt, Path(r, a + k))
  {
    hide Has;
    PathsOfRoot(r, a, k);
    LackingMore(s0, s1, r, Paths(r, a, k), Path(r, a + k));
  }

  lemma SameLacking(pt: Tables, pt': Tables, role: Roles, r: nat, v: nat)
    requires SamePlaces(pt, pt', role) && IsRoot(role, r)
    ensures Lacking(pt', Path(r, v)) == Lacking(pt, Path(r, v))
  {
    hide Has;
  }

  /** The same for the page that is about to be mapped to the frame taken. */
  lemma TakenPaths(s0: State, s1: State, r: nat, lo: nat, a: nat, t: Table, p: Page)
    requires lo <= a && Adds(s0, s1, r, lo, a, NewTables(s0, r, lo, a))
    requires IsRoot(s0.role, r) && s1.free != []
    ensures NewTables(s0, r, lo, a) + Lacking(Taken(s1, t, p).pt, Path(r, a)) == NewTables(s0, r, lo, a + 1)
    ensures NewTables(s0, r, lo, a) !! Lacking(Taken(s1, t, p).pt, Path(r, a))
  {
    hide Good, Lacking, Paths, Path, SamePages, AddsEntries, AddsRoles, TablesAdded, SameMaps, SamePlaces;
    TakeGood(s1, t, p);
    AddsRoots(s0, s1, r, lo, a, NewTables(s0, r, lo, a));
    PathsMore(s0, s1, r, lo, a - lo);
    SameLacking(s1.pt, Taken(s1, t, p).pt, s1.role, r, a);
  }

  /** Every page added, and there were frames enough. */
  lemma EnoughFrames(s0: State, s: State, r: nat, lo: nat, hi: nat)
    requires lo <= hi && Adds(s0, s, r, lo, hi, NewTables(s0, r, lo, hi))
    ensures |s0.free| >= Need(s0, r, lo, hi)
  {
  }

  // ---- undoing ----

  /** The page tables mean what they meant and every frame is back where it was, except that free frames
      may have become table pages at these places of r. */
  ghost predicate Restored(s0: State, s: State, r: nat, places: set<Role>) {
    && Good(s) && SamePages(s0, s) && s.role.Keys == s0.role.Keys
    && (forall q: nat, w: nat | IsRoot(s0.role, q) && w < VPNS ::
          || Look(s.pt, q, w) == Look(s0.pt, q, w)
          || (q == r && !IsValid(Look(s.pt, q, w)) && !IsValid(Look(s0.pt, q, w))))
    && (forall g | g in s0.role :: s.role[g] == s0.role[g] || (s0.role[g] == Free && s.role[g] in places))
  }

  /** Unmapping what was added restores the state. */
  lemma Rollback(s0: State, s1: State, s2: State, r: nat, lo: nat, hi: nat, added: set<Role>, places: set<Role>)
    requires Good(s0) && IsRoot(s0.role, r) && lo <= hi <= VPNS && Vacant(s0, r, lo, hi) && added <= places
    requires Adds(s0, s1, r, lo, hi, added) && Unmaps(s1, s2, r, lo, hi - lo, true)
    ensures Restored(s0, s2, r, places)
  {
    hide Inv, FreeList, Look, TablesAdded;
    AddsRoots(s0, s1, r, lo, hi, added);
    forall g | g in s0.role && s0.role[g].User?
      ensures !UserIn(s0.role[g], r, lo, hi)
    {
      UserAt(s0, g);
    }
    RollbackRoles(s0, s1, s2, r, lo, hi, added);
    UnmapsKeepsGood(s1, s2, r, lo, hi - lo, true);
  }

  lemma RollbackRoles(s0: State, s1: State, s2: State, r: nat, lo: nat, hi: nat, added: set<Role>)
    requires AddsRoles(s0.role, s1.role, r, lo, hi, added) && lo <= hi
    requires UnmapsRoles(s1.role, s2.role, r, lo, hi - lo, true) && (forall p | p in added :: TableOf(p, r))
    requires forall g | g in s0.role :: !UserIn(s0.role[g], r, lo, hi)
    ensures s2.role.Keys == s0.role.Keys
    ensures forall g | g in s0.role :: s2.role[g] == s0.role[g] || (s0.role[g] == Free && s2.role[g] in added)
  {
  }

  lemma RollbackNothing(s0: State, s1: State, r: nat, lo: nat, added: set<Role>, places: set<Role>)
    requires Adds(s0, s1, r, lo, lo, added) && added <= places
    ensures Restored(s0, s1, r, places)
  {
    hide Sound, Look, TablesAdded;
  }

  /** What was added can be unmapped and freed. */
  lemma AddedRemovable(s0: State, s1: State, r: nat, lo: nat, hi: nat, added: set<Role>, w: nat)
    requires Adds(s0, s1, r, lo, hi, added) && lo <= w < hi
    ensures IsValid(Look(s1.pt, r, w)) && Removable(s1, r, w)
  {
  }
}
