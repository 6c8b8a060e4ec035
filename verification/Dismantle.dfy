/**
 Taking a page table apart (freewalk in kernel/vm.c). The page table is first
 taken out of service: its table pages become doomed. With no mapping left,
 freewalk visits exactly those frames and frees each once.
 */
module Dismantle {
  import opened PageTable
  import opened Memory

  /** The prefix d levels up. */
  function Up(p: nat, d: nat): nat
    requires d <= 2
  {
    if d == 0 then p else if d == 1 then p / ENTRIES else p / ENTRIES / ENTRIES
  }

  /** The frame is a doomed table page at or below this place. */
  predicate Under(o: Role, r: nat, level: nat, prefix: nat) {
    o.Doomed? && o.root == r && o.level <= level <= 2 && Up(o.prefix, level - o.level) == prefix
  }

  /** The entry of the table at this place on the way to the doomed table page o below it. */
  function Toward(o: Role, level: nat): (i: nat)
    requires o.Doomed? && o.level < level <= 2
    ensures i < ENTRIES
  {
    Up(o.prefix, level - 1 - o.level) % ENTRIES
  }

  /** f is the one doomed table page at this place, and every doomed page below is under a valid entry. */
  ghost predicate Top(pt: Tables, role: Roles, f: nat, r: nat, level: nat, prefix: nat) {
    && level <= 2 && HasRole(role, f, Doomed(r, level, prefix)) && f in pt
    && (forall g: nat | HasRole(role, g, Doomed(r, level, prefix)) :: g == f)
    && (forall g | g in role && Under(role[g], r, level, prefix) && role[g].level < level ::
          IsValid(pt[f][Toward(role[g], level)]))
  }

  /** f is the top of a whole doomed subtree, which may still have leaves. */
  ghost predicate Sub(pt: Tables, role: Roles, f: nat, r: nat, level: nat, prefix: nat)
    decreases level
  {
    && Top(pt, role, f, r, level, prefix) && f in pt
    && (forall i: nat | i < ENTRIES && IsValid(pt[f][i]) ::
          if level == 0 then IsLeaf(pt[f][i])
          else pt[f][i].flags == PTE_V && Sub(pt, role, pt[f][i].ppn, r, level - 1, prefix * ENTRIES + i))
  }

  /** Entry i of a table of this level is a leaf or leads to one. */
  ghost predicate LeafAt(pt: Tables, f: nat, level: nat, i: nat)
    requires i < ENTRIES
    decreases level, 0
  {
    f in pt && IsValid(pt[f][i]) && (IsLeaf(pt[f][i]) || (level > 0 && HasLeaf(pt, pt[f][i].ppn, level - 1)))
  }

  /** There is a leaf at or below the table f. */
  ghost predicate HasLeaf(pt: Tables, f: nat, level: nat)
    decreases level, 1
  {
    exists i: nat :: i < ENTRIES && LeafAt(pt, f, level, i)
  }

  /** The roles once root r has been taken out of service. */
  function Doom(role: Roles, r: nat): Roles {
    map f | f in role ::
      match role[f] {
        case Dir(q, level, prefix) => if q == r then Doomed(r, level, prefix) else role[f]
        case User(q, v) => if q == r then Held else role[f]
        case _ => role[f]
      }
  }

  /** The page table of r has no part in the others. */
  lemma DoomKeepsInv(pt: Tables, role: Roles, r: nat)
    requires Inv(pt, role) && IsRoot(role, r)
    ensures Inv(pt, Doom(role, r))
    ensures forall q: nat :: IsRoot(Doom(role, r), q) <==> IsRoot(role, q) && q != r
  {
    var role' := Doom(role, r);
    assert forall q: nat :: IsRoot(role', q) <==> IsRoot(role, q) && q != r;
    forall q: nat | IsRoot(role', q)
      ensures Tree(pt, role', q)
    {
      assert Tree(pt, role, q);
    }
    forall g | g in role'
      ensures g in pt && Placed(pt, role', g)
    {
      assert Placed(pt, role, g);
    }
  }

  lemma DoomedLeafTables(pt: Tables, role: Roles, r: nat, p: nat)
    requires Inv(pt, role) && IsRoot(role, r) && p < ENTRIES * ENTRIES && L0(pt, r, p) >= 0
    requires forall f | f in role :: !role[f].Doomed?
    ensures Sub(pt, Doom(role, r), L0(pt, r, p), r, 0, p)
  {
    assert Tree(pt, role, r);
    var t := L0(pt, r, p);
    forall i: nat | i < ENTRIES && IsValid(pt[t][i])
      ensures IsLeaf(pt[t][i])
    {
      assert (p * ENTRIES + i) / ENTRIES == p && (p * ENTRIES + i) % ENTRIES == i;
      assert IsValid(Look(pt, r, p * ENTRIES + i));
    }
    forall g: nat | HasRole(Doom(role, r), g, Doomed(r, 0, p))
      ensures g == t
    {
      assert Placed(pt, role, g);
    }
  }

  /** Entry i of the level-1 table j leads to the level-0 table of prefix j * ENTRIES + i. */
  lemma MiddleEntry(pt: Tables, role: Roles, r: nat, j: nat, i: nat)
    requires Tree(pt, role, r) && j < ENTRIES && i < ENTRIES && L1(pt, r, j) in pt && IsValid(pt[L1(pt, r, j)][i])
    ensures j * ENTRIES + i < ENTRIES * ENTRIES && L0(pt, r, j * ENTRIES + i) == pt[L1(pt, r, j)][i].ppn
    ensures pt[L1(pt, r, j)][i].flags == PTE_V
  {
    var p := j * ENTRIES + i;
    assert p / ENTRIES == j && p % ENTRIES == i;
    assert L0(pt, r, p) >= 0;
  }

  lemma DoomedUnderMiddle(pt: Tables, role: Roles, r: nat, j: nat, g: nat)
    requires Inv(pt, role) && IsRoot(role, r) && j < ENTRIES && g in role && Under(Doom(role, r)[g], r, 1, j)
    requires role[g].Dir? && role[g].root == r && role[g].level < 1
    ensures L1(pt, r, j) in pt && IsValid(pt[L1(pt, r, j)][Toward(Doom(role, r)[g], 1)])
  {
    assert Placed(pt, role, g) && Tree(pt, role, r);
  }

  lemma DoomedMiddleTables(pt: Tables, role: Roles, r: nat, j: nat)
    requires Inv(pt, role) && IsRoot(role, r) && j < ENTRIES && L1(pt, r, j) >= 0
    requires forall f | f in role :: !role[f].Doomed?
    ensures Sub(pt, Doom(role, r), L1(pt, r, j), r, 1, j)
  {
    hide L0, Look, Up, Next, Toward, Tree, Placed;
    MiddleTable(pt, role, r, j);
    var t: nat := L1(pt, r, j);
    forall i: nat | i < ENTRIES && IsValid(pt[t][i])
      ensures pt[t][i].flags == PTE_V && Sub(pt, Doom(role, r), pt[t][i].ppn, r, 0, j * ENTRIES + i)
    {
      MiddleEntry(pt, role, r, j, i);
      DoomedLeafTables(pt, role, r, j * ENTRIES + i);
    }
    forall g | g in role && Under(Doom(role, r)[g], r, 1, j) && Doom(role, r)[g].level < 1
      ensures IsValid(pt[t][Toward(Doom(role, r)[g], 1)])
    {
      DoomedUnderMiddle(pt, role, r, j, g);
    }
    forall g: nat | HasRole(Doom(role, r), g, Doomed(r, 1, j))
      ensures g == t
    {
      OneMiddleTable(pt, role, r, j, g);
    }
  }

  lemma MiddleTable(pt: Tables, role: Roles, r: nat, j: nat)
    requires Inv(pt, role) && IsRoot(role, r) && j < ENTRIES && L1(pt, r, j) >= 0
    ensures Tree(pt, role, r) && HasRole(role, L1(pt, r, j), Dir(r, 1, j)) && L1(pt, r, j) in pt
  {
    assert Tree(pt, role, r);
  }

  lemma OneMiddleTable(pt: Tables, role: Roles, r: nat, j: nat, g: nat)
    requires Inv(pt, role) && HasRole(role, g, Dir(r, 1, j))
    ensures j < ENTRIES && L1(pt, r, j) == g
  {
    assert Placed(pt, role, g);
  }

  /** Every doomed table page is under a valid entry of the root. */
  lemma DoomedUnderRoot(pt: Tables, role: Roles, r: nat, g: nat)
    requires Inv(pt, role) && IsRoot(role, r) && g in role && Under(Doom(role, r)[g], r, 2, 0)
    requires role[g].Dir? && role[g].level < 2
    ensures r in pt && IsValid(pt[r][Toward(Doom(role, r)[g], 2)])
  {
    assert Placed(pt, role, g) && Placed(pt, role, r);
  }

  /** Taken out of service, the whole page table hangs together from its root. */
  lemma DoomedTables(pt: Tables, role: Roles, r: nat)
    requires Inv(pt, role) && IsRoot(role, r)
    requires forall f | f in role :: !role[f].Doomed?
    ensures Sub(pt, Doom(role, r), r, r, 2, 0)
  {
    hide L0, Look, Up;
    assert Tree(pt, role, r) && Placed(pt, role, r);
    forall i: nat | i < ENTRIES && IsValid(pt[r][i])
      ensures pt[r][i].flags == PTE_V && Sub(pt, Doom(role, r), pt[r][i].ppn, r, 1, i)
    {
      assert L1(pt, r, i) == pt[r][i].ppn;
      DoomedMiddleTables(pt, role, r, i);
    }
    forall g | g in role && Under(Doom(role, r)[g], r, 2, 0) && Doom(role, r)[g].level < 2
      ensures IsValid(pt[r][Toward(Doom(role, r)[g], 2)])
    {
      DoomedUnderRoot(pt, role, r, g);
    }
    forall g: nat | HasRole(Doom(role, r), g, Doomed(r, 2, 0))
      ensures g == r
    {
      assert Placed(pt, role, g);
    }
  }

  /** A place in the subtree is in the subtree of exactly one child, or is its top. */
  lemma UnderChild(o: Role, r: nat, level: nat, prefix: nat, i: nat)
    requires 1 <= level <= 2 && i < ENTRIES
    ensures Under(o, r, level - 1, prefix * ENTRIES + i)
            <==> Under(o, r, level, prefix) && o.level < level && Toward(o, level) == i
  {
    if o.Doomed? && o.level < level {
      var x := Up(o.prefix, level - 1 - o.level);
      assert Up(o.prefix, level - o.level) == x / ENTRIES;
      assert (prefix * ENTRIES + i) / ENTRIES == prefix && (prefix * ENTRIES + i) % ENTRIES == i;
      assert x == x / ENTRIES * ENTRIES + x % ENTRIES;
    }
  }

  lemma UnderTop(r: nat, level: nat, prefix: nat)
    requires level <= 2
    ensures Under(Doomed(r, level, prefix), r, level, prefix)
  {
  }

  /** Both memories hold the same doomed frames at and below this place. */
  ghost predicate SameBelow(pt: Tables, role: Roles, pt': Tables, role': Roles, r: nat, level: nat, prefix: nat) {
    && (forall g: nat | g in role && Under(role[g], r, level, prefix) ::
          g in role' && role'[g] == role[g] && (g in pt ==> g in pt' && pt'[g] == pt[g]))
    && (forall g: nat | g in role' && Under(role'[g], r, level, prefix) :: g in role && role[g] == role'[g])
  }

  lemma SameBelowChild(pt: Tables, role: Roles, pt': Tables, role': Roles, r: nat, level: nat, prefix: nat, i: nat)
    requires SameBelow(pt, role, pt', role', r, level, prefix) && 1 <= level <= 2 && i < ENTRIES
    ensures SameBelow(pt, role, pt', role', r, level - 1, prefix * ENTRIES + i)
  {
    forall o: Role | Under(o, r, level - 1, prefix * ENTRIES + i)
      ensures Under(o, r, level, prefix)
    {
      UnderChild(o, r, level, prefix, i);
    }
  }

  lemma SameTop(pt: Tables, role: Roles, pt': Tables, role': Roles, f: nat, r: nat, level: nat, prefix: nat)
    requires Top(pt, role, f, r, level, prefix) && SameBelow(pt, role, pt', role', r, level, prefix)
    ensures Top(pt', role', f, r, level, prefix) && f in pt && f in pt' && pt'[f] == pt[f]
  {
    UnderTop(r, level, prefix);
    forall g: nat | HasRole(role', g, Doomed(r, level, prefix))
      ensures g == f
    {
      assert HasRole(role, g, Doomed(r, level, prefix));
    }
  }

  /** A subtree is as it was while none of its frames changes. */
  lemma {:induction false} SubFrame(pt: Tables, role: Roles, pt': Tables, role': Roles, f: nat, r: nat, level: nat,
                                    prefix: nat)
    requires Sub(pt, role, f, r, level, prefix) && SameBelow(pt, role, pt', role', r, level, prefix)
    ensures Sub(pt', role', f, r, level, prefix)
    decreases level
  {
    hide Top, SameBelow;
    SameTop(pt, role, pt', role', f, r, level, prefix);
    assert level <= 2 by { TopLevel(pt, role, f, r, level, prefix); }
    forall i: nat | i < ENTRIES && IsValid(pt[f][i]) && level > 0
      ensures Sub(pt', role', pt[f][i].ppn, r, level - 1, prefix * ENTRIES + i)
    {
      SameBelowChild(pt, role, pt', role', r, level, prefix, i);
      SubFrame(pt, role, pt', role', pt[f][i].ppn, r, level - 1, prefix * ENTRIES + i);
    }
  }

  /** And so are its leaves. */
  lemma {:induction false} LeafFrame(pt: Tables, role: Roles, pt': Tables, role': Roles, f: nat, r: nat, level: nat,
                                     prefix: nat)
    requires Sub(pt, role, f, r, level, prefix) && SameBelow(pt, role, pt', role', r, level, prefix)
    ensures HasLeaf(pt', f, level) <==> HasLeaf(pt, f, level)
    decreases level
  {
    hide Top, SameBelow, IsLeaf;
    SameTop(pt, role, pt', role', f, r, level, prefix);
    assert level <= 2 by { TopLevel(pt, role, f, r, level, prefix); }
    forall i: nat | i < ENTRIES
      ensures LeafAt(pt', f, level, i) <==> LeafAt(pt, f, level, i)
    {
      if IsValid(pt[f][i]) && level > 0 {
        SameBelowChild(pt, role, pt', role', r, level, prefix, i);
        LeafFrame(pt, role, pt', role', pt[f][i].ppn, r, level - 1, prefix * ENTRIES + i);
      }
    }
  }

  lemma TopLevel(pt: Tables, role: Roles, f: nat, r: nat, level: nat, prefix: nat)
    requires Top(pt, role, f, r, level, prefix)
    ensures level <= 2 && HasRole(role, f, Doomed(r, level, prefix)) && f in pt
  {
  }

  // ---- freewalk ----

  /** Below a child of this place with an index under i. */
  predicate BelowIndex(o: Role, r: nat, level: nat, prefix: nat, i: nat) {
    Under(o, r, level, prefix) && o.level < level && Toward(o, level) < i
  }

  /** Frame g has not changed. */
  ghost predicate SameFrame(s0: State, s: State, g: nat) {
    && g in s0.role && g in s.role && s.role[g] == s0.role[g]
    && g in s0.pt && g in s.pt && s.pt[g] == s0.pt[g]
    && g in s0.page && g in s.page && s.page[g] == s0.page[g]
  }

  /** The subtree at this place is free, and no other frame has changed. */
  ghost predicate Freed(s0: State, s: State, r: nat, level: nat, prefix: nat) {
    && Sound(s) && s.role.Keys == s0.role.Keys && SameMaps(s0.pt, s.pt, s0.role)
    && (forall g: nat | g in s0.role ::
          if Under(s0.role[g], r, level, prefix) then s.role[g] == Free else SameFrame(s0, s, g))
  }

  /** The loop of freewalk has freed the subtrees of the first i entries of f. */
  ghost predicate Swept(s0: State, s: State, f: nat, r: nat, level: nat, prefix: nat, i: nat) {
    && Sound(s) && s.role.Keys == s0.role.Keys && SameMaps(s0.pt, s.pt, s0.role)
    && HasRole(s.role, f, Doomed(r, level, prefix)) && f in s.pt && f in s0.pt
    && (forall j: nat | i <= j < ENTRIES :: s.pt[f][j] == s0.pt[f][j])
    && (forall g: nat | g in s0.role && g != f ::
          if BelowIndex(s0.role[g], r, level, prefix, i) then s.role[g] == Free else SameFrame(s0, s, g))
  }

  lemma SweptNothing(s: State, f: nat, r: nat, level: nat, prefix: nat)
    requires Sound(s) && Sub(s.pt, s.role, f, r, level, prefix)
    ensures Swept(s, s, f, r, level, prefix, 0)
  {
  }

  /** An entry that is no leaf leads to a table of the next level, whose subtree has not been touched; a
      leaf was there from the start. */
  lemma NextSubtree(s0: State, s: State, f: nat, r: nat, level: nat, prefix: nat, i: nat)
    requires Sub(s0.pt, s0.role, f, r, level, prefix) && Swept(s0, s, f, r, level, prefix, i) && i < ENTRIES
    requires IsValid(s.pt[f][i])
    ensures IsLeaf(s.pt[f][i]) ==> LeafAt(s0.pt, f, level, i)
    ensures !IsLeaf(s.pt[f][i]) ==>
              && level > 0 && Sub(s.pt, s.role, s.pt[f][i].ppn, r, level - 1, prefix * ENTRIES + i)
              && (LeafAt(s0.pt, f, level, i) <==> HasLeaf(s.pt, s.pt[f][i].ppn, level - 1))
  {
    hide Sound, SameMaps, Top, SameBelow;
    TopLevel(s0.pt, s0.role, f, r, level, prefix);
    if !IsLeaf(s.pt[f][i]) {
      UntouchedSubtree(s0, s, f, r, level, prefix, i);
      SubFrame(s0.pt, s0.role, s.pt, s.role, s.pt[f][i].ppn, r, level - 1, prefix * ENTRIES + i);
      LeafFrame(s0.pt, s0.role, s.pt, s.role, s.pt[f][i].ppn, r, level - 1, prefix * ENTRIES + i);
    }
  }

  lemma UntouchedSubtree(s0: State, s: State, f: nat, r: nat, level: nat, prefix: nat, i: nat)
    requires Swept(s0, s, f, r, level, prefix, i) && HasRole(s0.role, f, Doomed(r, level, prefix)) && i < ENTRIES
    requires 1 <= level <= 2
    ensures SameBelow(s0.pt, s0.role, s.pt, s.role, r, level - 1, prefix * ENTRIES + i)
  {
    hide Up, Toward, Sound, SameMaps;
    forall o: Role
      ensures Under(o, r, level - 1, prefix * ENTRIES + i)
              <==> Under(o, r, level, prefix) && o.level < level && Toward(o, level) == i
    {
      UnderChild(o, r, level, prefix, i);
    }
  }

  /** An invalid entry has nothing under it. */
  lemma SweptInvalid(s0: State, s: State, f: nat, r: nat, level: nat, prefix: nat, i: nat)
    requires Sub(s0.pt, s0.role, f, r, level, prefix) && Swept(s0, s, f, r, level, prefix, i) && i < ENTRIES
    requires !IsValid(s.pt[f][i])
    ensures Swept(s0, s, f, r, level, prefix, i + 1) && !LeafAt(s0.pt, f, level, i)
  {
    hide Up, Toward, Sound, SameMaps, Sub, HasLeaf;
    SubTop(s0.pt, s0.role, f, r, level, prefix);
    assert s.pt[f][i] == s0.pt[f][i];
  }

  lemma SubTop(pt: Tables, role: Roles, f: nat, r: nat, level: nat, prefix: nat)
    requires Sub(pt, role, f, r, level, prefix)
    ensures Top(pt, role, f, r, level, prefix)
  {
  }

  /** The subtree of entry i is freed and the entry cleared. */
  lemma SweptValid(s0: State, s1: State, s2: State, f: nat, r: nat, level: nat, prefix: nat, i: nat)
    requires Sub(s0.pt, s0.role, f, r, level, prefix) && Swept(s0, s1, f, r, level, prefix, i) && i < ENTRIES
    requires level > 0
    requires Freed(s1, s2, r, level - 1, prefix * ENTRIES + i)
    ensures f in s2.pt
    ensures Swept(s0, WithZero(s2, f, i), f, r, level, prefix, i + 1)
  {
    hide Up, Toward, Sound, SameMaps, Top;
    TopLevel(s0.pt, s0.role, f, r, level, prefix);
    forall o: Role
      ensures Under(o, r, level - 1, prefix * ENTRIES + i)
              <==> Under(o, r, level, prefix) && o.level < level && Toward(o, level) == i
    {
      UnderChild(o, r, level, prefix, i);
    }
    ZeroGood(s2, f, i);
    SameMapsAcross(s0, s1, s2);
    SameMapsAcross(s0, s2, WithZero(s2, f, i));
  }

  function WithZero(s: State, f: nat, i: nat): State
    requires f in s.pt && i < ENTRIES
  {
    State(s.pt[f := s.pt[f][i := Pte(0, 0)]], s.page, s.free, s.role)
  }

  lemma ZeroGood(s: State, f: nat, i: nat)
    requires Sound(s) && f in s.role && s.role[f].Doomed? && i < ENTRIES
    ensures f in s.pt && Sound(WithZero(s, f, i)) && SameMaps(s.pt, WithZero(s, f, i).pt, s.role)
  {
    ChangeOther(s.pt, s.role, f, s.pt[f][i := Pte(0, 0)], s.role[f]);
    assert s.role[f := s.role[f]] == s.role;
  }

  lemma SameMapsAcross(s0: State, s1: State, s2: State)
    requires SameMaps(s0.pt, s1.pt, s0.role) && SameMaps(s1.pt, s2.pt, s1.role)
    requires forall q: nat :: IsRoot(s0.role, q) ==> IsRoot(s1.role, q)
    ensures SameMaps(s0.pt, s2.pt, s0.role)
  {
  }

  /** Every doomed page below the top is below some entry of it. */
  lemma BelowSomeEntry(pt: Tables, role: Roles, f: nat, r: nat, level: nat, prefix: nat, g: nat)
    requires Top(pt, role, f, r, level, prefix) && g in role && g != f
    ensures Under(role[g], r, level, prefix) <==> BelowIndex(role[g], r, level, prefix, ENTRIES)
  {
    if Under(role[g], r, level, prefix) {
      assert !HasRole(role, g, Doomed(r, level, prefix));
    }
  }

  /** With every entry swept, only f itself is left to free. */
  lemma FreeTop(s0: State, s: State, f: nat, r: nat, level: nat, prefix: nat)
    requires Sub(s0.pt, s0.role, f, r, level, prefix) && Swept(s0, s, f, r, level, prefix, ENTRIES)
    ensures Freed(s0, Given(s, f, Filled(1), Junk(1)), r, level, prefix)
  {
    hide Sound, SameMaps, Filled, Junk, Under, BelowIndex, Top;
    TopLevel(s0.pt, s0.role, f, r, level, prefix);
    GiveGood(s, f, Filled(1), Junk(1));
    UnderTop(r, level, prefix);
    forall g: nat | g in s0.role && g != f
      ensures Under(s0.role[g], r, level, prefix) <==> BelowIndex(s0.role[g], r, level, prefix, ENTRIES)
    {
      BelowSomeEntry(s0.pt, s0.role, f, r, level, prefix, g);
    }
    SweptRoots(s0, s, f, r, level, prefix, ENTRIES);
    SameMapsAcross(s0, s, Given(s, f, Filled(1), Junk(1)));
  }

  lemma SweptRoots(s0: State, s: State, f: nat, r: nat, level: nat, prefix: nat, i: nat)
    requires Swept(s0, s, f, r, level, prefix, i) && HasRole(s0.role, f, Doomed(r, level, prefix))
    ensures forall q: nat :: IsRoot(s0.role, q) ==> IsRoot(s.role, q)
  {
    hide Sound, SameMaps;
  }

  // ---- a whole page table ----

  predicate OfRoot(o: Role, r: nat) {
    (o.Dir? || o.User?) && o.root == r
  }

  /** No page table is being taken apart. */
  predicate Settled(s: State) {
    forall f | f in s.role :: !s.role[f].Doomed?
  }

  /** The page table r is gone: its table pages and its user pages are free. No other frame has changed
      hands and no other page table has changed. */
  ghost predicate Destroyed(s0: State, s: State, r: nat) {
    && Sound(s) && s.role.Keys == s0.role.Keys && KeepsPages(s0, s)
    && (forall g | g in s0.role :: s.role[g] == if OfRoot(s0.role[g], r) then Free else s0.role[g])
    && (forall q: nat, w: nat | IsRoot(s0.role, q) && q != r && w < VPNS :: Look(s.pt, q, w) == Look(s0.pt, q, w))
  }

  /** Some page from n on is mapped. */
  ghost predicate MappedFrom(pt: Tables, r: nat, n: nat) {
    exists w: nat :: n <= w < VPNS && IsValid(Look(pt, r, w))
  }

  lemma DoomKeepsFreeList(free: seq<nat>, role: Roles, r: nat)
    requires FreeList(free, role)
    ensures FreeList(free, Doom(role, r)) && Doom(role, r).Keys == role.Keys
  {
  }

  /** A root is taken out of service. */
  lemma OutOfService(s: State, r: nat)
    requires Sound(s) && Settled(s) && IsRoot(s.role, r)
    ensures Sound(State(s.pt, s.page, s.free, Doom(s.role, r))) && Sub(s.pt, Doom(s.role, r), r, r, 2, 0)
    ensures HasLeaf(s.pt, r, 2) <==> MappedFrom(s.pt, r, 0)
  {
    hide Sub, HasLeaf, MappedFrom, Inv, FreeList, Doom;
    DoomKeepsInv(s.pt, s.role, r);
    DoomKeepsFreeList(s.free, s.role, r);
    DoomedTables(s.pt, s.role, r);
    if HasLeaf(s.pt, r, 2) { LeafIsMapped(s.pt, s.role, r); }
    if MappedFrom(s.pt, r, 0) { MappedIsLeaf(s.pt, s.role, r); }
  }

  lemma LeafIsMapped(pt: Tables, role: Roles, r: nat)
    requires Inv(pt, role) && IsRoot(role, r) && HasLeaf(pt, r, 2)
    ensures MappedFrom(pt, r, 0)
  {
    hide Placed, Target;
    assert Tree(pt, role, r);
    var i: nat :| i < ENTRIES && LeafAt(pt, r, 2, i);
    assert L1(pt, r, i) == pt[r][i].ppn;
    var t: nat := L1(pt, r, i);
    var j: nat :| j < ENTRIES && LeafAt(pt, t, 1, j);
    MiddleEntry(pt, role, r, i, j);
    var p := i * ENTRIES + j;
    var u: nat := L0(pt, r, p);
    var k: nat :| k < ENTRIES && LeafAt(pt, u, 0, k);
    assert (p * ENTRIES + k) / ENTRIES == p && (p * ENTRIES + k) % ENTRIES == k;
    assert IsValid(Look(pt, r, p * ENTRIES + k));
  }

  lemma MappedIsLeaf(pt: Tables, role: Roles, r: nat)
    requires Inv(pt, role) && IsRoot(role, r) && MappedFrom(pt, r, 0)
    ensures HasLeaf(pt, r, 2)
  {
    hide Placed, Target;
    assert Tree(pt, role, r);
    var v: nat :| v < VPNS && IsValid(Look(pt, r, v));
    var p := v / ENTRIES;
    var u: nat, t: nat := L0(pt, r, p), L1(pt, r, p / ENTRIES);
    assert LeafAt(pt, u, 0, v % ENTRIES);
    assert LeafAt(pt, t, 1, p % ENTRIES);
    assert LeafAt(pt, r, 2, p / ENTRIES);
  }

  /** Unmapping the first n pages leaves just the mappings from page n on. */
  lemma UnmapsBelow(s0: State, s1: State, r: nat, n: nat)
    requires Settled(s0) && IsRoot(s0.role, r) && Unmaps(s0, s1, r, 0, n, true)
    ensures Sound(s1) && Settled(s1) && IsRoot(s1.role, r)
    ensures MappedFrom(s1.pt, r, 0) <==> MappedFrom(s0.pt, r, n)
  {
    hide Sound, Look;
    if MappedFrom(s0.pt, r, n) {
      var w: nat :| n <= w < VPNS && IsValid(Look(s0.pt, r, w));
      assert Look(s1.pt, r, w) == Look(s0.pt, r, w);
    }
  }

  /** A doomed page of r is at or below its root. */
  lemma AllUnderRoot(pt: Tables, role: Roles, r: nat, g: nat)
    requires Inv(pt, role) && g in role && role[g].Dir? && role[g].root == r
    ensures Under(Doomed(r, role[g].level, role[g].prefix), r, 2, 0)
  {
    assert Placed(pt, role, g);
  }

  lemma FreesWhole(s0: State, s1: State, s2: State, r: nat, n: nat)
    requires Sound(s0) && Settled(s0) && IsRoot(s0.role, r) && !MappedFrom(s0.pt, r, n) && Unmaps(s0, s1, r, 0, n, true)
    requires Freed(State(s1.pt, s1.page, s1.free, Doom(s1.role, r)), s2, r, 2, 0)
    ensures Destroyed(s0, s2, r)
  {
    hide Inv, FreeList, Look, Under, IsValid, MappedFrom;
    assert Sound(s1);
    forall g | g in s0.role
      ensures s2.role[g] == if OfRoot(s0.role[g], r) then Free else s0.role[g]
      ensures s2.role[g] != Free ==> SameFrame(State(s1.pt, s1.page, s1.free, Doom(s1.role, r)), s2, g)
    {
      FrameFreed(s0, s1, s2, r, n, g);
    }
    forall q: nat, w: nat | IsRoot(s0.role, q) && q != r && w < VPNS
      ensures Look(s2.pt, q, w) == Look(s0.pt, q, w)
    {
      assert IsRoot(Doom(s1.role, r), q);
    }
  }

  lemma FrameFreed(s0: State, s1: State, s2: State, r: nat, n: nat, g: nat)
    requires Sound(s0) && Settled(s0) && IsRoot(s0.role, r) && !MappedFrom(s0.pt, r, n) && Unmaps(s0, s1, r, 0, n, true)
    requires Freed(State(s1.pt, s1.page, s1.free, Doom(s1.role, r)), s2, r, 2, 0) && g in s0.role
    ensures s2.role[g] == if OfRoot(s0.role[g], r) then Free else s0.role[g]
    ensures s2.role[g] != Free ==> SameFrame(State(s1.pt, s1.page, s1.free, Doom(s1.role, r)), s2, g)
  {
    hide Sound, Look, Up;
    if s0.role[g].Dir? && s0.role[g].root == r {
      assert s1.role[g] == s0.role[g];
      SoundInv(s1);
      AllUnderRoot(s1.pt, s1.role, r, g);
    } else if s0.role[g].User? && s0.role[g].root == r {
      UserAt(s0, g);
      assert UserIn(s0.role[g], r, 0, n);
    }
  }

  lemma SoundInv(s: State)
    requires Sound(s)
    ensures Inv(s.pt, s.role)
  {
  }
}
