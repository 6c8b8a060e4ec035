/**
 Three-level Sv39 page tables (kernel/vm.c; section 4.4 of the RISC-V
 Privileged Architecture, version 20211203) in physical memory. Addresses are
 counted in pages: a frame is a physical page number and a vpn a virtual one.
 Every managed frame has exactly one role, so table pages are never shared and
 never alias a mapped page.
 */
module PageTable {
  import opened Seqs

  const ENTRIES: nat := 512
  const VPNS: nat := ENTRIES * ENTRIES * ENTRIES

  /** A page-table entry: bits 10 and up are the frame, bits 0 to 9 the flags. */
  datatype Pte = Pte(ppn: nat, flags: nat)

  type Table = t: seq<Pte> | |t| == 512 witness seq(512, _ => Pte(0, 0))
  type Tables = map<nat, Table>

  const PTE_V: nat := 1
  const PTE_R: nat := 2
  const PTE_W: nat := 4
  const PTE_X: nat := 8
  const PTE_U: nat := 16

  predicate IsValid(e: Pte) {
    e.flags % 2 == 1
  }

  /** Some of the R, W and X bits are set: the entry maps a page rather than pointing to a table. */
  predicate IsLeaf(e: Pte) {
    e.flags / 2 % 8 != 0
  }

  /** The flags with PTE_V or-ed in. */
  function WithValid(flags: nat): nat {
    if flags % 2 == 1 then flags else flags + 1
  }

  function ZeroTable(): Table {
    seq(512, _ => Pte(0, 0))
  }

  /** What a frame is used for. Fresh: handed out by kalloc and not in use yet. Held: used by the
      kernel for something else, such as a trap frame; it may be mapped. Stale: on the free list again
      while a page table that is about to go still maps it. Doomed: a table page of such a page table. */
  datatype Role =
    | Free
    | Fresh
    | Held
    | Stale
    | Dir(root: nat, level: nat, prefix: nat)
    | User(root: nat, vpn: nat)
    | Doomed(root: nat, level: nat, prefix: nat)

  type Roles = map<nat, Role>

  // ---- lookup ----

  /** The table that entry i of table f points to, -1 if none. */
  function Next(pt: Tables, f: int, i: nat): int
    requires i < ENTRIES
  {
    if f in pt && IsValid(pt[f][i]) then pt[f][i].ppn else -1
  }

  /** The level-1 table for index i of the root, and the level-0 table for the 18 upper bits p. */
  function L1(pt: Tables, root: nat, i: nat): int
    requires i < ENTRIES
  {
    Next(pt, root, i)
  }

  function L0(pt: Tables, root: nat, p: nat): int
    requires p < ENTRIES * ENTRIES
  {
    Next(pt, L1(pt, root, p / ENTRIES), p % ENTRIES)
  }

  /** The flat meaning of a page table: the entry for each virtual page number. */
  function Look(pt: Tables, root: nat, v: nat): Pte
    requires v < VPNS
  {
    if L0(pt, root, v / ENTRIES) in pt then pt[L0(pt, root, v / ENTRIES)][v % ENTRIES] else Pte(0, 0)
  }

  // ---- the invariant ----

  predicate HasRole(role: Roles, f: int, r: Role) {
    f in role && role[f] == r
  }

  predicate IsRoot(role: Roles, r: nat) {
    HasRole(role, r, Dir(r, 2, 0))
  }

  /** The tables reached from a root have the roles of the places they are reached from, and mapped
      frames are that mapping's own, or held by the kernel, or not managed. */
  ghost predicate Tree(pt: Tables, role: Roles, r: nat) {
    && (forall i: nat | i < ENTRIES && L1(pt, r, i) >= 0 ::
          HasRole(role, L1(pt, r, i), Dir(r, 1, i)) && pt[r][i].flags == PTE_V)
    && (forall p: nat | p < ENTRIES * ENTRIES && L0(pt, r, p) >= 0 ::
          HasRole(role, L0(pt, r, p), Dir(r, 0, p)) && pt[L1(pt, r, p / ENTRIES)][p % ENTRIES].flags == PTE_V)
    && (forall v: nat | v < VPNS && IsValid(Look(pt, r, v)) ::
          IsLeaf(Look(pt, r, v)) && Target(role, r, v, Look(pt, r, v).ppn))
  }

  predicate Target(role: Roles, r: nat, v: nat, f: nat) {
    f in role ==> role[f] in {Held, Stale} || role[f] == User(r, v)
  }

  /** A frame with a role in a page table is reached there. */
  ghost predicate Placed(pt: Tables, role: Roles, f: nat)
    requires f in role
  {
    match role[f]
    case Dir(r, l, p) =>
      && IsRoot(role, r)
      && (if l == 2 then f == r && p == 0
          else if l == 1 then p < ENTRIES && L1(pt, r, p) == f
          else l == 0 && p < ENTRIES * ENTRIES && L0(pt, r, p) == f)
    case User(r, v) =>
      IsRoot(role, r) && v < VPNS && IsValid(Look(pt, r, v)) && Look(pt, r, v).ppn == f
    case _ => true
  }

  /** No page table maps the frame. */
  ghost predicate Unmapped(pt: Tables, role: Roles, f: nat) {
    forall q: nat, v: nat | IsRoot(role, q) && v < VPNS && IsValid(Look(pt, q, v)) :: Look(pt, q, v).ppn != f
  }

  /** There is a table page at this place below a root. */
  predicate Has(pt: Tables, place: Role) {
    && place.Dir?
    && (|| (place.level == 1 && place.prefix < ENTRIES && L1(pt, place.root, place.prefix) >= 0)
        || (place.level == 0 && place.prefix < ENTRIES * ENTRIES && L0(pt, place.root, place.prefix) >= 0))
  }

  /** The same places have table pages in both memories. */
  ghost predicate SamePlaces(pt: Tables, pt': Tables, role: Roles) {
    forall place: Role | place.Dir? && IsRoot(role, place.root) :: Has(pt', place) <==> Has(pt, place)
  }

  ghost predicate Inv(pt: Tables, role: Roles) {
    && (forall f | f in role :: f in pt && Placed(pt, role, f))
    && (forall r: nat | IsRoot(role, r) :: Tree(pt, role, r))
  }

  // ---- steps that keep the invariant ----

  /** Only the table reached at `place` changed: a new table f is reached there, where none was. */
  ghost predicate Linked(pt: Tables, role: Roles, pt': Tables, f: nat, place: Role) {
    && pt'.Keys == pt.Keys
    && (forall q: nat, j: nat | IsRoot(role, q) && j < ENTRIES ::
          && L1(pt', q, j) == (if place == Dir(q, 1, j) then f else L1(pt, q, j))
          && (L1(pt', q, j) >= 0 ==> pt'[q][j].flags == PTE_V))
    && (forall q: nat, p: nat | IsRoot(role, q) && p < ENTRIES * ENTRIES ::
          && L0(pt', q, p) == (if place == Dir(q, 0, p) then f else L0(pt, q, p))
          && (L0(pt', q, p) >= 0 ==> pt'[L1(pt', q, p / ENTRIES)][p % ENTRIES].flags == PTE_V))
    && (forall q: nat, v: nat | IsRoot(role, q) && v < VPNS :: Look(pt', q, v) == Look(pt, q, v))
  }

  lemma LinkedKeepsInv(pt: Tables, role: Roles, pt': Tables, f: nat, place: Role)
    requires Inv(pt, role) && HasRole(role, f, Fresh) && Linked(pt, role, pt', f, place)
    requires place.Dir? && IsRoot(role, place.root)
    requires || (place.level == 1 && place.prefix < ENTRIES && L1(pt, place.root, place.prefix) < 0)
             || (place.level == 0 && place.prefix < ENTRIES * ENTRIES && L0(pt, place.root, place.prefix) < 0)
    ensures Inv(pt', role[f := place])
  {
    var role' := role[f := place];
    assert forall q: nat :: IsRoot(role', q) <==> IsRoot(role, q);
    forall q: nat | IsRoot(role', q)
      ensures Tree(pt', role', q)
    {
      assert Tree(pt, role, q);
    }
    forall g | g in role'
      ensures g in pt' && Placed(pt', role', g)
    {
      assert g in pt && Placed(pt, role, g);
    }
  }

  /** walk links a new, zeroed level-1 table under the root. */
  lemma LinkL1(pt: Tables, role: Roles, r: nat, i: nat, f: nat)
    requires Inv(pt, role) && IsRoot(role, r) && i < ENTRIES && L1(pt, r, i) < 0
    requires HasRole(role, f, Fresh) && f in pt && pt[f] == ZeroTable()
    ensures r in pt && Linked(pt, role, pt[r := pt[r][i := Pte(f, PTE_V)]], f, Dir(r, 1, i))
  {
    hide Placed, Target, IsLeaf;
    var pt' := pt[r := pt[r][i := Pte(f, PTE_V)]];
    forall q: nat | IsRoot(role, q)
      ensures Tree(pt, role, q) && q != f
    {
    }
    forall q: nat, j: nat | IsRoot(role, q) && j < ENTRIES
      ensures L1(pt', q, j) == if q == r && j == i then f else L1(pt, q, j)
      ensures L1(pt, q, j) != r && L1(pt, q, j) != f
    {
    }
    forall q: nat, p: nat | IsRoot(role, q) && p < ENTRIES * ENTRIES
      ensures L0(pt', q, p) == L0(pt, q, p)
      ensures L0(pt, q, p) != r && L0(pt, q, p) != f
    {
    }
  }

  /** walk links a new, zeroed level-0 table under a level-1 table. */
  lemma LinkL0(pt: Tables, role: Roles, r: nat, p: nat, g: nat, f: nat)
    requires Inv(pt, role) && IsRoot(role, r) && p < ENTRIES * ENTRIES && L1(pt, r, p / ENTRIES) == g
    requires L0(pt, r, p) < 0
    requires HasRole(role, f, Fresh) && f in pt && pt[f] == ZeroTable()
    ensures g in pt && Linked(pt, role, pt[g := pt[g][p % ENTRIES := Pte(f, PTE_V)]], f, Dir(r, 0, p))
  {
    hide Placed, Target, IsLeaf;
    var pt' := pt[g := pt[g][p % ENTRIES := Pte(f, PTE_V)]];
    assert HasRole(role, g, Dir(r, 1, p / ENTRIES));
    forall q: nat | IsRoot(role, q)
      ensures Tree(pt, role, q) && q != f && q != g
    {
    }
    forall q: nat, j: nat | IsRoot(role, q) && j < ENTRIES
      ensures L1(pt', q, j) == L1(pt, q, j)
    {
    }
  }

  /** The frame of a mapping changes hands together with its entry: a fresh frame becomes the user page
      of the new mapping, or the user page of the removed mapping is let go. */
  ghost predicate Rehomed(role: Roles, role': Roles, r: nat, v: nat, e: Pte, e': Pte) {
    || (role' == role && !IsValid(e) && IsValid(e') && (e'.ppn in role ==> role[e'.ppn] == Held))
    || (role' == role && IsValid(e) && !IsValid(e') && (e.ppn in role ==> role[e.ppn] in {Held, Stale}))
    || (!IsValid(e) && IsValid(e') && HasRole(role, e'.ppn, Fresh) && role' == role[e'.ppn := User(r, v)])
    || (IsValid(e) && !IsValid(e') && HasRole(role, e.ppn, User(r, v)) && role' == role[e.ppn := Fresh])
  }

  /** Only one entry of the flat map of one root changed. */
  ghost predicate Stored(pt: Tables, role: Roles, pt': Tables, r: nat, v: nat, e: Pte) {
    && pt'.Keys == pt.Keys
    && (forall q: nat, j: nat | IsRoot(role, q) && j < ENTRIES ::
          L1(pt', q, j) == L1(pt, q, j) && (L1(pt, q, j) >= 0 ==> pt'[q][j] == pt[q][j]))
    && (forall q: nat, p: nat | IsRoot(role, q) && p < ENTRIES * ENTRIES ::
          && L0(pt', q, p) == L0(pt, q, p)
          && (L0(pt, q, p) >= 0 ==>
                pt'[L1(pt, q, p / ENTRIES)][p % ENTRIES] == pt[L1(pt, q, p / ENTRIES)][p % ENTRIES]))
    && (forall q: nat, w: nat | IsRoot(role, q) && w < VPNS ::
          Look(pt', q, w) == if q == r && w == v then e else Look(pt, q, w))
  }

  /** Writing an entry of a level-0 table changes the flat map of one root at one page, and nothing else. */
  lemma StoreLeaf(pt: Tables, role: Roles, r: nat, v: nat, t: nat, e: Pte)
    requires Inv(pt, role) && IsRoot(role, r) && v < VPNS && L0(pt, r, v / ENTRIES) == t
    ensures t in pt && Stored(pt, role, pt[t := pt[t][v % ENTRIES := e]], r, v, e)
  {
    hide Placed, Target, IsLeaf;
    assert HasRole(role, t, Dir(r, 0, v / ENTRIES));
    forall q: nat | IsRoot(role, q)
      ensures Tree(pt, role, q) && q != t
    {
    }
    var pt' := pt[t := pt[t][v % ENTRIES := e]];
    forall q: nat, j: nat | IsRoot(role, q) && j < ENTRIES
      ensures L1(pt', q, j) == L1(pt, q, j) && L1(pt, q, j) != t
    {
    }
  }

  lemma StoredKeepsInv(pt: Tables, role: Roles, pt': Tables, role': Roles, r: nat, v: nat, e: Pte)
    requires Inv(pt, role) && IsRoot(role, r) && v < VPNS && Stored(pt, role, pt', r, v, e)
    requires IsValid(e) ==> IsLeaf(e)
    requires Rehomed(role, role', r, v, Look(pt, r, v), e)
    ensures Inv(pt', role')
  {
    hide Placed, Tree;
    assert forall q: nat :: IsRoot(role', q) <==> IsRoot(role, q);
    forall q: nat | IsRoot(role', q)
      ensures Tree(pt', role', q)
    {
      StoredKeepsTree(pt, role, pt', role', r, v, e, q);
    }
    forall g | g in role'
      ensures g in pt' && Placed(pt', role', g)
    {
      StoredKeepsPlace(pt, role, pt', role', r, v, e, g);
    }
  }

  lemma StoredKeepsTree(pt: Tables, role: Roles, pt': Tables, role': Roles, r: nat, v: nat, e: Pte, q: nat)
    requires Tree(pt, role, q) && IsRoot(role, q) && IsRoot(role, r) && v < VPNS && Stored(pt, role, pt', r, v, e)
    requires IsValid(e) ==> IsLeaf(e)
    requires Rehomed(role, role', r, v, Look(pt, r, v), e)
    ensures Tree(pt', role', q)
  {
    hide Look, L0, IsLeaf;
    assert forall g, o: Role | HasRole(role, g, o) && o.Dir? :: HasRole(role', g, o);
  }

  lemma StoredKeepsPlace(pt: Tables, role: Roles, pt': Tables, role': Roles, r: nat, v: nat, e: Pte, g: nat)
    requires g in role && g in pt && Placed(pt, role, g)
    requires IsRoot(role, r) && v < VPNS && Stored(pt, role, pt', r, v, e)
    requires Rehomed(role, role', r, v, Look(pt, r, v), e)
    ensures g in role' && g in pt' && Placed(pt', role', g)
  {
    assert forall q: nat :: IsRoot(role', q) <==> IsRoot(role, q);
  }

  /** The page tables mean the same in both memories. */
  ghost predicate SameMaps(pt: Tables, pt': Tables, role: Roles) {
    forall q: nat, v: nat | IsRoot(role, q) && v < VPNS :: Look(pt', q, v) == Look(pt, q, v)
  }

  /** A frame that is no table page and no user page; a mapped one stays held or stale. */
  ghost predicate MayBecome(pt: Tables, role: Roles, f: nat, o: Role) {
    && f in role && (role[f] in {Free, Fresh, Held, Stale} || role[f].Doomed?)
    && (|| o == role[f]
        || (role[f] in {Held, Stale} && (o in {Held, Stale} || Unmapped(pt, role, f))
            && o in {Free, Fresh, Held, Stale})
        || (role[f] !in {Held, Stale} && o in {Free, Fresh, Held, Stale}))
  }

  /** Writing a frame that is not a table page, or changing hands of one that is not mapped, touches no
      page table. */
  lemma ChangeOther(pt: Tables, role: Roles, f: nat, t: Table, o: Role)
    requires Inv(pt, role) && MayBecome(pt, role, f, o)
    ensures Inv(pt[f := t], role[f := o]) && SameMaps(pt, pt[f := t], role) && SamePlaces(pt, pt[f := t], role)
  {
    var pt', role' := pt[f := t], role[f := o];
    assert forall q: nat :: IsRoot(role', q) <==> IsRoot(role, q);
    forall q: nat | IsRoot(role, q)
      ensures Unreached(pt, role, q, f)
    {
      assert Tree(pt, role, q);
    }
    SameTables(pt, role, f, t);
    forall q: nat | IsRoot(role', q)
      ensures Tree(pt', role', q)
    {
      ChangeOtherTree(pt, role, f, t, o, q);
    }
    forall g | g in role'
      ensures g in pt' && Placed(pt', role', g)
    {
      assert Placed(pt, role, g);
    }
  }

  lemma ChangeOtherTree(pt: Tables, role: Roles, f: nat, t: Table, o: Role, q: nat)
    requires Inv(pt, role) && MayBecome(pt, role, f, o) && IsRoot(role, q) && Unreached(pt, role, q, f)
    requires forall i: nat | i < ENTRIES :: L1(pt[f := t], q, i) == L1(pt, q, i)
    requires forall p: nat | p < ENTRIES * ENTRIES :: L0(pt[f := t], q, p) == L0(pt, q, p)
    requires SameMaps(pt, pt[f := t], role)
    ensures Tree(pt[f := t], role[f := o], q)
  {
    hide Placed, L1, L0, Look;
    assert Tree(pt, role, q);
  }

  /** No table of root q is frame f. */
  ghost predicate Unreached(pt: Tables, role: Roles, q: nat, f: nat) {
    && q != f
    && (forall i: nat | i < ENTRIES :: L1(pt, q, i) != f)
    && (forall p: nat | p < ENTRIES * ENTRIES :: L0(pt, q, p) != f)
  }

  lemma SameTables(pt: Tables, role: Roles, f: nat, t: Table)
    requires f in pt && forall q: nat | IsRoot(role, q) :: Unreached(pt, role, q, f)
    ensures forall q: nat, i: nat | IsRoot(role, q) && i < ENTRIES :: L1(pt[f := t], q, i) == L1(pt, q, i)
    ensures forall q: nat, p: nat | IsRoot(role, q) && p < ENTRIES * ENTRIES :: L0(pt[f := t], q, p) == L0(pt, q, p)
    ensures SameMaps(pt, pt[f := t], role)
  {
    forall q: nat, i: nat | IsRoot(role, q) && i < ENTRIES
      ensures L1(pt[f := t], q, i) == L1(pt, q, i)
    {
      assert Unreached(pt, role, q, f);
    }
    forall q: nat, p: nat | IsRoot(role, q) && p < ENTRIES * ENTRIES
      ensures L0(pt[f := t], q, p) == L0(pt, q, p)
    {
      assert Unreached(pt, role, q, f);
    }
    forall q: nat, v: nat | IsRoot(role, q) && v < VPNS
      ensures Look(pt[f := t], q, v) == Look(pt, q, v)
    {
      assert Unreached(pt, role, q, f);
    }
  }

  /** A fresh zeroed frame can be the root of a new, empty page table. */
  lemma NewRoot(pt: Tables, role: Roles, f: nat)
    requires Inv(pt, role) && HasRole(role, f, Fresh) && f in pt && pt[f] == ZeroTable()
    ensures Inv(pt, role[f := Dir(f, 2, 0)])
    ensures forall v: nat | v < VPNS :: Look(pt, f, v) == Pte(0, 0)
  {
    var role' := role[f := Dir(f, 2, 0)];
    assert forall i: nat | i < ENTRIES :: L1(pt, f, i) == -1;
    assert forall p: nat | p < ENTRIES * ENTRIES :: L0(pt, f, p) == -1;
    assert forall q: nat :: IsRoot(role', q) <==> q == f || IsRoot(role, q);
    forall q: nat | IsRoot(role', q)
      ensures Tree(pt, role', q)
    {
      if q != f {
        assert Tree(pt, role, q);
      }
    }
    forall g | g in role'
      ensures Placed(pt, role', g)
    {
      assert Placed(pt, role, g);
    }
  }
}
