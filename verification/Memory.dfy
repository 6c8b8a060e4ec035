/**
 Memory states for kernel/vm.c: page tables, page contents and the free list,
 and what each routine may do to them, as relations between two states.
 */
module Memory {
  import opened Seqs
  import opened PageTable

  const MAXVPN: nat := 0x400_0000  // MAXVA / PGSIZE

  type Page = seq<nat>

  /** Memory: each managed frame as a table and as bytes, the free list, and the frames' roles. */
  datatype State = State(pt: Tables, page: map<nat, Page>, free: seq<nat>, role: Roles)

  /** The free list holds every free frame once. */
  ghost predicate FreeList(free: seq<nat>, role: Roles) {
    Distinct(free) && forall f: nat :: f in free <==> HasRole(role, f, Free) || HasRole(role, f, Stale)
  }

  /** Page tables, free list and roles agree. */
  ghost predicate Sound(s: State) {
    && Inv(s.pt, s.role) && FreeList(s.free, s.role)
    && (forall f | f in s.role :: f in s.page)
  }

  ghost predicate NoStale(role: Roles) {
    forall f | f in role :: role[f] != Stale
  }

  /** And no frame on the free list is mapped, so that any of them can be handed out. */
  ghost predicate Good(s: State) {
    Sound(s) && NoStale(s.role)
  }

  /** Memory in which every frame is free is a good start. */
  lemma AllFree(pt: Tables, page: map<nat, Page>, free: seq<nat>)
    requires Distinct(free) && forall f: nat | f in free :: f in pt && f in page
    ensures Good(State(pt, page, free, map f: nat | f in free :: Free))
  {
  }

  /** The page of a frame the table walk does not own keeps its bytes. */
  ghost predicate SamePages(s0: State, s1: State) {
    forall f | f in s0.role && s0.role[f] != Free :: f in s0.page && f in s1.page && s1.page[f] == s0.page[f]
  }

  // ---- table pages and their places ----

  predicate TableOf(o: Role, r: nat) {
    o.Dir? && o.root == r && o.level < 2
  }

  /** The place of the table that entry PX(level, va) of a table of this level leads to. */
  function PlaceBelow(r: nat, v: nat, level: nat): Role {
    if level == 2 then Dir(r, 1, v / ENTRIES / ENTRIES) else Dir(r, 0, v / ENTRIES)
  }

  /** The two tables on the way to page v. */
  function Path(r: nat, v: nat): set<Role> {
    {PlaceBelow(r, v, 2), PlaceBelow(r, v, 1)}
  }

  /** The tables on the way to the k pages from page a on. */
  function Paths(r: nat, a: nat, k: nat): set<Role> {
    if k == 0 then {} else Paths(r, a, k - 1) + Path(r, a + k - 1)
  }

  /** Those of the places that have no table page. */
  function Lacking(pt: Tables, places: set<Role>): set<Role> {
    set p | p in places && !Has(pt, p)
  }

  /** There are new table pages at exactly these places, which had none. */
  ghost predicate TablesAdded(s0: State, s1: State, added: set<Role>) {
    && (forall p | p in added :: p.Dir? && IsRoot(s0.role, p.root) && !Has(s0.pt, p))
    && (forall place: Role | place.Dir? && IsRoot(s0.role, place.root) ::
          Has(s1.pt, place) <==> Has(s0.pt, place) || place in added)
  }

  lemma TablesAddedMore(s0: State, s1: State, s2: State, added: set<Role>, more: set<Role>)
    requires TablesAdded(s0, s1, added) && TablesAdded(s1, s2, more)
    requires forall q: nat :: IsRoot(s1.role, q) <==> IsRoot(s0.role, q)
    ensures TablesAdded(s0, s2, added + more) && added !! more && |added + more| == |added| + |more|
  {
    hide Has;
  }

  /** Nothing but table pages at these places was added: every flat map is as it was, and every frame has
      kept its role or turned from free to one of them. */
  ghost predicate Grown(s0: State, s1: State, r: nat, added: set<Role>) {
    && Good(s1) && s1.role.Keys == s0.role.Keys
    && (forall f | f in s0.role :: s1.role[f] == s0.role[f] || (s0.role[f] == Free && s1.role[f] in added))
    && SameMaps(s0.pt, s1.pt, s0.role)
    && SamePages(s0, s1)
    && (forall p | p in added :: TableOf(p, r)) && TablesAdded(s0, s1, added) && |s1.free| == |s0.free| - |added|
  }

  lemma GrownRoots(s0: State, s1: State, r: nat, added: set<Role>)
    requires Grown(s0, s1, r, added)
    ensures forall q: nat :: IsRoot(s1.role, q) <==> IsRoot(s0.role, q)
  {
  }

  lemma GrownTransitive(s0: State, s1: State, s2: State, r: nat, added: set<Role>, more: set<Role>)
    requires Grown(s0, s1, r, added) && Grown(s1, s2, r, more)
    ensures Grown(s0, s2, r, added + more)
  {
    hide Sound, Has, Look;
    GrownRoots(s0, s1, r, added);
    TablesAddedMore(s0, s1, s2, added, more);
    forall f | f in s0.role
      ensures s2.role[f] == s0.role[f] || (s0.role[f] == Free && s2.role[f] in added + more)
    {
      assert s1.role[f] == s0.role[f] || (s0.role[f] == Free && s1.role[f] in added);
    }
  }

  /** With alloc, walk may add table pages; without, it changes nothing. */
  ghost predicate Extended(s0: State, s1: State, r: nat, alloc: bool, added: set<Role>) {
    if alloc then Grown(s0, s1, r, added) else s1 == s0 && added == {}
  }

  /** walk returned the level-0 table t for page v, or -1. With alloc it adds the tables that were lacking
      on the way, or fails because memory has run out before that; without alloc it fails if any is lacking. */
  ghost predicate Walked(s0: State, s1: State, r: nat, v: nat, alloc: bool, t: int, added: set<Role>)
    requires v < VPNS
  {
    && Extended(s0, s1, r, alloc, added)
    && (if t >= 0 then L0(s1.pt, r, v / ENTRIES) == t && added == Lacking(s0.pt, Path(r, v))
        else L0(s1.pt, r, v / ENTRIES) < 0 && added < Lacking(s0.pt, Path(r, v)) && (alloc ==> s1.free == []))
  }

  // ---- allocating a table page ----

  /** kalloc took the head of the free list; the frame holds junk. */
  function Taken(s: State, t: Table, p: Page): State
    requires s.free != []
  {
    State(s.pt[s.free[0] := t], s.page[s.free[0] := p], s.free[1..], s.role[s.free[0] := Fresh])
  }

  /** kfree put the frame back at the head. */
  function Given(s: State, f: nat, t: Table, p: Page): State {
    State(s.pt[f := t], s.page[f := p], [f] + s.free, s.role[f := Free])
  }

  lemma TakeGood(s: State, t: Table, p: Page)
    requires Good(s) && s.free != []
    ensures HasRole(s.role, s.free[0], Free) && Good(Taken(s, t, p)) && |Taken(s, t, p).free| == |s.free| - 1
    ensures SameMaps(s.pt, Taken(s, t, p).pt, s.role) && SamePlaces(s.pt, Taken(s, t, p).pt, s.role)
    ensures SamePages(s, Taken(s, t, p))
  {
    var f := s.free[0];
    assert f in s.free;
    ChangeOther(s.pt, s.role, f, t, Fresh);
    HeadTail(s.free);
  }

  lemma GiveGood(s: State, f: nat, t: Table, p: Page)
    requires Sound(s) && f in s.role && (s.role[f] == Fresh || s.role[f].Doomed?)
    ensures Sound(Given(s, f, t, p)) && (Good(s) ==> Good(Given(s, f, t, p)))
    ensures SameMaps(s.pt, Given(s, f, t, p).pt, s.role) && SamePlaces(s.pt, Given(s, f, t, p).pt, s.role)
    ensures forall g | g in s.role && g != f :: Given(s, f, t, p).page[g] == s.page[g]
  {
    ChangeOther(s.pt, s.role, f, t, Free);
    InFront(f, s.free);
  }

  /** A fresh frame, zeroed, is linked in as a table page. */
  lemma LinkGood(s: State, place: Role, pt': Tables, f: nat)
    requires Good(s) && HasRole(s.role, f, Fresh) && Linked(s.pt, s.role, pt', f, place)
    requires IsPlace(place) && IsRoot(s.role, place.root) && !Has(s.pt, place)
    ensures Good(State(pt', s.page, s.free, s.role[f := place]))
  {
    hide Inv, Linked, L0, L1;
    LinkedKeepsInv(s.pt, s.role, pt', f, place);
  }

  predicate IsPlace(place: Role) {
    && place.Dir?
    && ((place.level == 1 && place.prefix < ENTRIES) || (place.level == 0 && place.prefix < ENTRIES * ENTRIES))
  }

  /** Linking puts a table page at one place more. */
  lemma LinkedPlaces(s1: State, s2: State, f: nat, place: Role)
    requires Linked(s1.pt, s1.role, s2.pt, f, place) && IsPlace(place) && IsRoot(s1.role, place.root)
    requires !Has(s1.pt, place)
    ensures TablesAdded(s1, s2, {place})
  {
  }

  /** Taking a frame and linking it as a table page adds just that. */
  lemma AddTable(s0: State, s1: State, s2: State, f: nat, t: Table, p: Page, place: Role)
    requires Good(s0) && s0.free != [] && f == s0.free[0] && s1 == Taken(s0, t, p)
    requires Linked(s1.pt, s1.role, s2.pt, f, place) && s2 == State(s2.pt, s1.page, s1.free, s1.role[f := place])
    requires IsPlace(place) && IsRoot(s0.role, place.root) && !Has(s1.pt, place)
    ensures Grown(s0, s2, place.root, {place})
  {
    TakeGood(s0, t, p);
    assert forall q: nat :: IsRoot(s1.role, q) <==> IsRoot(s0.role, q);
    LinkGood(s1, place, s2.pt, f);
    LinkedPlaces(s1, s2, f, place);
    AddTableRest(s0, s1, s2, f, place);
  }

  lemma AddTableRest(s0: State, s1: State, s2: State, f: nat, place: Role)
    requires HasRole(s0.role, f, Free) && s1.role == s0.role[f := Fresh] && Good(s2)
    requires s2.role == s1.role[f := place] && s2.page == s1.page && s2.free == s1.free && |s1.free| == |s0.free| - 1
    requires SameMaps(s0.pt, s1.pt, s0.role) && SameMaps(s1.pt, s2.pt, s1.role) && SamePages(s0, s1)
    requires SamePlaces(s0.pt, s1.pt, s0.role) && TablesAdded(s1, s2, {place}) && TableOf(place, place.root)
    requires forall q: nat :: IsRoot(s1.role, q) <==> IsRoot(s0.role, q)
    ensures Grown(s0, s2, place.root, {place})
  {
    hide Sound, Has, Look;
  }

  // ---- walk ----

  /** PX(level, va): the index into the table of that level. */
  function Px(level: nat, v: nat): nat
    requires level <= 2
  {
    if level == 2 then v / ENTRIES / ENTRIES % ENTRIES else if level == 1 then v / ENTRIES % ENTRIES else v % ENTRIES
  }

  /** The table the walk for page v has reached at this level. */
  predicate At(pt: Tables, r: nat, v: nat, level: nat, table: int)
    requires v < VPNS
  {
    table == if level == 2 then r else if level == 1 then L1(pt, r, v / ENTRIES / ENTRIES) else L0(pt, r, v / ENTRIES)
  }

  lemma PxOfVpn(v: nat)
    requires v < VPNS
    ensures v / ENTRIES < ENTRIES * ENTRIES && v / ENTRIES / ENTRIES < ENTRIES
    ensures Px(2, v) == v / ENTRIES / ENTRIES
  {
  }

  /** Following an entry leads to the table of the next level, or there is no level-0 table. */
  lemma StepDown(s: State, r: nat, v: nat, level: nat, table: nat)
    requires Sound(s) && IsRoot(s.role, r) && v < VPNS && 1 <= level <= 2 && At(s.pt, r, v, level, table)
    ensures table in s.pt && table in s.role && s.role[table].Dir?
    ensures At(s.pt, r, v, level - 1, Next(s.pt, table, Px(level, v)))
    ensures Next(s.pt, table, Px(level, v)) < 0 ==> L0(s.pt, r, v / ENTRIES) < 0
    ensures IsPlace(PlaceBelow(r, v, level))
    ensures Has(s.pt, PlaceBelow(r, v, level)) <==> Next(s.pt, table, Px(level, v)) >= 0
  {
    PxOfVpn(v);
    assert Tree(s.pt, s.role, r);
  }

  /** A missing table is allocated, zeroed and linked in. */
  lemma AddBelow(s0: State, r: nat, v: nat, level: nat, table: nat, p: Page)
    requires Good(s0) && IsRoot(s0.role, r) && v < VPNS && 1 <= level <= 2 && At(s0.pt, r, v, level, table)
    requires table in s0.pt && Next(s0.pt, table, Px(level, v)) < 0 && s0.free != []
    ensures table != s0.free[0] && table in s0.pt
    ensures Grown(s0, Below(s0, r, v, level, table, p), r, {PlaceBelow(r, v, level)})
    ensures At(Below(s0, r, v, level, table, p).pt, r, v, level - 1, s0.free[0])
  {
    hide Sound, NoStale, Linked, Grown, At, Next, Has, L0, L1, ZeroTable, SameMaps, SamePlaces, SamePages, Px;
    StepDown(s0, r, v, level, table);
    TakeGood(s0, ZeroTable(), p);
    var f, s1, s2 := s0.free[0], Taken(s0, ZeroTable(), p), Below(s0, r, v, level, table, p);
    UnchangedPath(s0, s1, r, v, level, table);
    LinkBelow(s1, r, v, level, table, f);
    AddTable(s0, s1, s2, f, ZeroTable(), p, PlaceBelow(r, v, level));
  }

  /** The fresh table is linked in where the walk stands. */
  lemma LinkBelow(s: State, r: nat, v: nat, level: nat, table: nat, f: nat)
    requires Good(s) && IsRoot(s.role, r) && v < VPNS && 1 <= level <= 2 && At(s.pt, r, v, level, table)
    requires table in s.pt && Next(s.pt, table, Px(level, v)) < 0
    requires HasRole(s.role, f, Fresh) && f in s.pt && s.pt[f] == ZeroTable()
    ensures Px(level, v) < ENTRIES && IsPlace(PlaceBelow(r, v, level)) && !Has(s.pt, PlaceBelow(r, v, level))
    ensures var pt' := s.pt[table := s.pt[table][Px(level, v) := Pte(f, PTE_V)]];
            Linked(s.pt, s.role, pt', f, PlaceBelow(r, v, level)) && At(pt', r, v, level - 1, f)
  {
    hide FreeList, NoStale;
    PxOfVpn(v);
    if level == 2 {
      LinkL1(s.pt, s.role, r, v / ENTRIES / ENTRIES, f);
    } else {
      LinkL0(s.pt, s.role, r, v / ENTRIES, table, f);
    }
  }

  /** The state after walk has added the table below `table`. */
  function Below(s: State, r: nat, v: nat, level: nat, table: nat, p: Page): State
    requires v < VPNS && 1 <= level <= 2 && s.free != [] && table in s.pt && table != s.free[0]
  {
    var f := s.free[0];
    State(s.pt[f := ZeroTable()][table := s.pt[table][Px(level, v) := Pte(f, PTE_V)]],
          s.page[f := p], s.free[1..], s.role[f := PlaceBelow(r, v, level)])
  }

  lemma UnchangedPath(s0: State, s1: State, r: nat, v: nat, level: nat, table: nat)
    requires Good(s0) && IsRoot(s0.role, r) && v < VPNS && 1 <= level <= 2 && At(s0.pt, r, v, level, table)
    requires s0.free != [] && s1.pt == s0.pt[s0.free[0] := ZeroTable()]
    ensures table != s0.free[0] && At(s1.pt, r, v, level, table)
    ensures Next(s1.pt, table, Px(level, v)) == Next(s0.pt, table, Px(level, v))
  {
    assert s0.free[0] in s0.free;
    assert HasRole(s0.role, s0.free[0], Free);
    PxOfVpn(v);
    assert Tree(s0.pt, s0.role, r);
  }

  lemma ExtendedRefl(s: State, r: nat, alloc: bool)
    requires alloc ==> Good(s)
    ensures Extended(s, s, r, alloc, {})
  {
  }

  lemma ExtendedFacts(s0: State, s1: State, r: nat, alloc: bool, added: set<Role>)
    requires Extended(s0, s1, r, alloc, added) && Sound(s0) && (alloc ==> Good(s0))
    ensures Sound(s1) && (alloc ==> Good(s1)) && (IsRoot(s0.role, r) ==> IsRoot(s1.role, r))
    ensures TablesAdded(s0, s1, added) && (forall q: nat :: IsRoot(s1.role, q) <==> IsRoot(s0.role, q))
  {
    hide Has;
  }

  lemma ExtendedMore(s0: State, s1: State, s2: State, r: nat, alloc: bool, added: set<Role>, more: set<Role>)
    requires Extended(s0, s1, r, alloc, added) && Extended(s1, s2, r, alloc, more)
    ensures Extended(s0, s2, r, alloc, added + more)
  {
    hide Grown;
    if alloc {
      GrownTransitive(s0, s1, s2, r, added, more);
    } else {
      assert added + more == {};
    }
  }

  /** The tables on the way to page v above this level. */
  function PathAbove(r: nat, v: nat, level: nat): set<Role> {
    if level >= 2 then {} else if level == 1 then {PlaceBelow(r, v, 2)} else Path(r, v)
  }

  /** What is lacking can be added one after the other. */
  lemma LackingMore(s0: State, s1: State, r: nat, first: set<Role>, rest: set<Role>)
    requires IsRoot(s0.role, r) && (forall p | p in first + rest :: TableOf(p, r))
    requires TablesAdded(s0, s1, Lacking(s0.pt, first))
    ensures Lacking(s0.pt, first) + Lacking(s1.pt, rest) == Lacking(s0.pt, first + rest)
    ensures Lacking(s0.pt, first) !! Lacking(s1.pt, rest)
  {
    hide Has;
  }

  /** One level further down, the lacking tables above have been added. */
  lemma PathMore(s0: State, s1: State, r: nat, v: nat, level: nat)
    requires IsRoot(s0.role, r) && 1 <= level <= 2 && TablesAdded(s0, s1, Lacking(s0.pt, PathAbove(r, v, level)))
    ensures Lacking(s0.pt, PathAbove(r, v, level)) + Lacking(s1.pt, {PlaceBelow(r, v, level)})
            == Lacking(s0.pt, PathAbove(r, v, level - 1))
    ensures !Has(s1.pt, PlaceBelow(r, v, level)) ==>
              Lacking(s0.pt, PathAbove(r, v, level)) < Lacking(s0.pt, Path(r, v))
  {
    hide Has;
    LackingMore(s0, s1, r, PathAbove(r, v, level), {PlaceBelow(r, v, level)});
    assert PathAbove(r, v, level) + {PlaceBelow(r, v, level)} == PathAbove(r, v, level - 1);
    assert !Has(s1.pt, PlaceBelow(r, v, level)) ==>
        PlaceBelow(r, v, level) in Lacking(s1.pt, {PlaceBelow(r, v, level)});
  }

  lemma ProperSubsetSize<T>(a: set<T>, b: set<T>)
    requires a < b
    ensures |a| < |b|
  {
    assert b == a + (b - a) && b - a != {};
  }

  lemma SubsetSize<T>(a: set<T>, b: set<T>)
    requires a <= b
    ensures |a| <= |b|
  {
    assert b == a + (b - a);
  }

  /** walk succeeds exactly when the tables lacking on the way can be allocated. */
  lemma WalkedCount(s0: State, s1: State, r: nat, v: nat, alloc: bool, t: int, added: set<Role>)
    requires v < VPNS && Walked(s0, s1, r, v, alloc, t, added)
    ensures t >= 0 <==> |Lacking(s0.pt, Path(r, v))| <= if alloc then |s0.free| else 0
  {
    hide Has, L0, Lacking;
    if t < 0 {
      ProperSubsetSize(added, Lacking(s0.pt, Path(r, v)));
    }
  }

  /** memset of a whole frame, seen as bytes and as entries. */
  function Junk(b: nat): Page {
    seq(4096, _ => b)
  }

  function Filled(b: nat): Table
    requires b < 256
  {
    seq(512, _ => Pte(b * 0x01_0101_0101_0101_01 / 1024, b * 0x01_0101_0101_0101_01 % 1024))
  }

  // ---- mappages ----

  /** The flat map of r has entries for k frames from f on at the pages from a on; all else is as it was. */
  ghost predicate MapsEntries(s0: State, s: State, r: nat, a: nat, k: nat, f: nat, perm: nat) {
    forall q: nat, w: nat | IsRoot(s0.role, q) && w < VPNS ::
      Look(s.pt, q, w) == if q == r && a <= w < a + k then Pte(f + (w - a), WithValid(perm)) else Look(s0.pt, q, w)
  }

  /** Nothing changed hands but the frames of the added table pages and, when `own`, the mapped frames. */
  ghost predicate MapsRoles(role0: Roles, role: Roles, r: nat, a: nat, k: nat, f: nat, own: bool, added: set<Role>) {
    && role.Keys == role0.Keys
    && forall g | g in role0 ::
         if own && f <= g < f + k then role0[g] == Fresh && role[g] == User(r, a + (g - f))
         else role[g] == role0[g] || (role0[g] == Free && role[g] in added)
  }

  /** k pages from page a on map the frames from f on. When `own`, the frames have become user pages. */
  ghost predicate Maps(s0: State, s: State, r: nat, a: nat, k: nat, f: nat, perm: nat, own: bool, added: set<Role>) {
    && Good(s) && SamePages(s0, s)
    && MapsEntries(s0, s, r, a, k, f, perm) && MapsRoles(s0.role, s.role, r, a, k, f, own, added)
    && (forall p | p in added :: TableOf(p, r)) && TablesAdded(s0, s, added) && |s.free| == |s0.free| - |added|
  }

  lemma MapsNothing(s: State, r: nat, a: nat, f: nat, perm: nat, own: bool)
    requires Good(s)
    ensures Maps(s, s, r, a, 0, f, perm, own, {})
  {
  }

  lemma MapsGrown(s0: State, s1: State, s2: State, r: nat, a: nat, k: nat, f: nat, perm: nat, own: bool,
                  added: set<Role>, more: set<Role>)
    requires Maps(s0, s1, r, a, k, f, perm, own, added) && Grown(s1, s2, r, more) && IsRoot(s0.role, r)
    ensures Maps(s0, s2, r, a, k, f, perm, own, added + more)
  {
    hide Sound, Look, Has;
    assert forall q: nat :: IsRoot(s1.role, q) <==> IsRoot(s0.role, q);
    TablesAddedMore(s0, s1, s2, added, more);
  }

  /** The entry of page v in table t becomes e. */
  function WithEntry(s: State, t: nat, v: nat, e: Pte, role: Roles): State
    requires t in s.pt
  {
    State(s.pt[t := s.pt[t][v % ENTRIES := e]], s.page, s.free, role)
  }

  lemma EntryGood(s: State, r: nat, v: nat, t: nat, e: Pte, role': Roles)
    requires Sound(s) && IsRoot(s.role, r) && v < VPNS && L0(s.pt, r, v / ENTRIES) == t
    requires IsValid(e) ==> IsLeaf(e)
    requires Rehomed(s.role, role', r, v, Look(s.pt, r, v), e)
    ensures t in s.pt && Sound(WithEntry(s, t, v, e, role'))
    ensures Stored(s.pt, s.role, WithEntry(s, t, v, e, role').pt, r, v, e)
    ensures SamePlaces(s.pt, WithEntry(s, t, v, e, role').pt, s.role)
    ensures s.pt[t][v % ENTRIES] == Look(s.pt, r, v)
  {
    hide Inv, Look, L0, IsLeaf, SamePlaces;
    StoreLeaf(s.pt, s.role, r, v, t, e);
    StoredPlaces(s.pt, s.role, s.pt[t := s.pt[t][v % ENTRIES := e]], r, v, e);
    StoredKeepsInv(s.pt, s.role, s.pt[t := s.pt[t][v % ENTRIES := e]], role', r, v, e);
    LookAt(s.pt, r, v, t);
  }

  lemma LookAt(pt: Tables, r: nat, v: nat, t: nat)
    requires v < VPNS && L0(pt, r, v / ENTRIES) == t && t in pt
    ensures pt[t][v % ENTRIES] == Look(pt, r, v)
  {
  }

  lemma StoredPlaces(pt: Tables, role: Roles, pt': Tables, r: nat, v: nat, e: Pte)
    requires Stored(pt, role, pt', r, v, e)
    ensures SamePlaces(pt, pt', role)
  {
    hide L0, L1, Look;
  }

  /** The roles after page v of r has been mapped to frame f. */
  function MappedRole(role: Roles, r: nat, v: nat, f: nat, own: bool): Roles {
    if own then role[f := User(r, v)] else role
  }

  /** What may be mapped: a fresh frame that becomes the user's, or one the kernel holds. */
  predicate Mappable(role: Roles, f: nat, own: bool) {
    if own then HasRole(role, f, Fresh) else f in role ==> role[f] == Held
  }

  lemma WithValidIsValid(perm: nat)
    ensures forall f: nat :: IsValid(Pte(f, WithValid(perm)))
  {
  }

  lemma MapsOne(s0: State, s1: State, r: nat, a: nat, k: nat, f: nat, perm: nat, own: bool, t: nat, added: set<Role>)
    requires Maps(s0, s1, r, a, k, f, perm, own, added) && IsRoot(s0.role, r) && a + k < VPNS
    requires L0(s1.pt, r, (a + k) / ENTRIES) == t && !IsValid(Look(s1.pt, r, a + k))
    requires IsLeaf(Pte(f + k, WithValid(perm))) && Mappable(s0.role, f + k, own)
    ensures t in s1.pt && s1.pt[t][(a + k) % ENTRIES] == Look(s1.pt, r, a + k)
    ensures Maps(s0, WithEntry(s1, t, a + k, Pte(f + k, WithValid(perm)), MappedRole(s1.role, r, a + k, f + k, own)),
                 r, a, k + 1, f, perm, own, added)
  {
    hide Sound, Look, L0, IsLeaf, Has, IsValid, WithValid, MapsRoles, SamePages;
    assert IsValid(Pte(f + k, WithValid(perm))) by { WithValidIsValid(perm); }
    MapsRolesMore(s0.role, s1.role, r, a, k, f, own, added);
    EntryGood(s1, r, a + k, t, Pte(f + k, WithValid(perm)), MappedRole(s1.role, r, a + k, f + k, own));
    MapsOnePages(s0, s1, t, a + k, Pte(f + k, WithValid(perm)), MappedRole(s1.role, r, a + k, f + k, own));
  }

  lemma MapsRolesMore(role0: Roles, role: Roles, r: nat, a: nat, k: nat, f: nat, own: bool, added: set<Role>)
    requires MapsRoles(role0, role, r, a, k, f, own, added) && Mappable(role0, f + k, own)
    requires forall p | p in added :: TableOf(p, r)
    ensures MapsRoles(role0, MappedRole(role, r, a + k, f + k, own), r, a, k + 1, f, own, added)
    ensures Mappable(role, f + k, own) && (NoStale(role) ==> NoStale(MappedRole(role, r, a + k, f + k, own)))
    ensures forall q: nat :: IsRoot(role, q) <==> IsRoot(role0, q)
  {
  }

  lemma MapsOnePages(s0: State, s1: State, t: nat, v: nat, e: Pte, role: Roles)
    requires SamePages(s0, s1) && t in s1.pt
    ensures SamePages(s0, WithEntry(s1, t, v, e, role))
  {
  }

  // ---- uvmunmap ----

  predicate UserIn(o: Role, r: nat, lo: nat, hi: nat) {
    o.User? && o.root == r && lo <= o.vpn < hi
  }

  ghost predicate UnmapsEntries(s0: State, s: State, r: nat, a: nat, k: nat) {
    forall q: nat, w: nat | IsRoot(s0.role, q) && w < VPNS ::
      Look(s.pt, q, w) == if q == r && a <= w < a + k then Pte(0, 0) else Look(s0.pt, q, w)
  }

  /** The user pages unmapped are free when they were to be freed, and the kernel's otherwise; no other
      frame changed hands. */
  ghost predicate UnmapsRoles(role0: Roles, role: Roles, r: nat, a: nat, k: nat, doFree: bool) {
    && role.Keys == role0.Keys
    && forall g | g in role0 ::
         role[g] == if !UserIn(role0[g], r, a, a + k) then role0[g] else if doFree then Free else Held
  }

  /** Frames in use afterwards have kept their bytes. */
  ghost predicate KeepsPages(s0: State, s: State) {
    forall g | g in s0.role && g in s.role && s.role[g] !in {Free, Stale} && s0.role[g] !in {Free, Stale} ::
      g in s0.page && g in s.page && s.page[g] == s0.page[g]
  }

  /** k pages from page a on are unmapped from r, and their frames freed if doFree. */
  ghost predicate Unmaps(s0: State, s: State, r: nat, a: nat, k: nat, doFree: bool) {
    && Sound(s) && KeepsPages(s0, s)
    && UnmapsEntries(s0, s, r, a, k) && UnmapsRoles(s0.role, s.role, r, a, k, doFree)
  }

  lemma UnmapsKeepsGood(s0: State, s: State, r: nat, a: nat, k: nat, doFree: bool)
    requires Unmaps(s0, s, r, a, k, doFree)
    ensures Sound(s) && (Good(s0) ==> Good(s))
  {
  }

  /** What uvmunmap may be asked to free: a user page. */
  ghost predicate Removable(s: State, r: nat, w: nat)
    requires w < VPNS
  {
    IsValid(Look(s.pt, r, w)) ==> HasRole(s.role, Look(s.pt, r, w).ppn, User(r, w))
  }

  lemma UnmapsNothing(s: State, r: nat, a: nat, doFree: bool)
    requires Sound(s)
    ensures Unmaps(s, s, r, a, 0, doFree)
  {
  }

  /** The roles after page v of r has been unmapped and its frame not freed. */
  function LetGo(role: Roles, r: nat, v: nat, f: nat): Roles {
    if HasRole(role, f, User(r, v)) then role[f := Held] else role
  }

  /** The entry of page v is cleared and, if doFree, its frame freed. The two writes touch different
      frames, so their order does not matter. */
  function Cleared(s: State, r: nat, t: nat, v: nat, f: nat, doFree: bool): State
    requires t in s.pt
  {
    var s' := if doFree then Given(s, f, Filled(1), Junk(1)) else s;
    if t in s'.pt then WithEntry(s', t, v, Pte(0, 0), if doFree then s'.role else LetGo(s'.role, r, v, f)) else s'
  }

  /** Unmapping a user page and freeing its frame. */
  lemma ClearAndFree(s: State, r: nat, v: nat, t: nat)
    requires Sound(s) && IsRoot(s.role, r) && v < VPNS && L0(s.pt, r, v / ENTRIES) == t
    requires IsValid(Look(s.pt, r, v)) && Removable(s, r, v)
    ensures t in s.pt && Unmaps(s, Cleared(s, r, t, v, Look(s.pt, r, v).ppn, true), r, v, 1, true)
  {
    hide Inv, Placed, FreeList, Filled, Junk;
    LeafOfRoot(s, r, v, t);
    var f := Look(s.pt, r, v).ppn;
    var role' := s.role[f := Fresh];
    EntryGood(s, r, v, t, Pte(0, 0), role');
    var s1 := WithEntry(s, t, v, Pte(0, 0), role');
    GiveGood(s1, f, Filled(1), Junk(1));
    assert t != f;
    var s2 := Given(s1, f, Filled(1), Junk(1));
    assert s2.pt == Cleared(s, r, t, v, f, true).pt;
    assert s2.role == Cleared(s, r, t, v, f, true).role;
    assert s2 == Cleared(s, r, t, v, f, true);
    OnlyUserAt(s, r, v);
    assert forall q: nat :: IsRoot(role', q) <==> IsRoot(s.role, q);
  }

  /** Unmapping a page whose frame stays in use. */
  lemma ClearAndKeep(s: State, r: nat, v: nat, t: nat)
    requires Sound(s) && IsRoot(s.role, r) && v < VPNS && L0(s.pt, r, v / ENTRIES) == t && IsValid(Look(s.pt, r, v))
    ensures t in s.pt && Unmaps(s, Cleared(s, r, t, v, Look(s.pt, r, v).ppn, false), r, v, 1, false)
  {
    hide Inv, Placed, FreeList;
    LeafOfRoot(s, r, v, t);
    OnlyUserAt(s, r, v);
    var f := Look(s.pt, r, v).ppn;
    if HasRole(s.role, f, User(r, v)) {
      var role' := s.role[f := Fresh];
      EntryGood(s, r, v, t, Pte(0, 0), role');
      assert forall q: nat :: IsRoot(role', q) <==> IsRoot(s.role, q);
      HoldFresh(WithEntry(s, t, v, Pte(0, 0), role'), f);
      assert role'[f := Held] == s.role[f := Held];
    } else {
      EntryGood(s, r, v, t, Pte(0, 0), s.role);
    }
  }

  /** A fresh frame becomes the kernel's. */
  lemma HoldFresh(s: State, f: nat)
    requires Sound(s) && HasRole(s.role, f, Fresh)
    ensures Sound(State(s.pt, s.page, s.free, s.role[f := Held]))
    ensures Good(s) ==> Good(State(s.pt, s.page, s.free, s.role[f := Held]))
  {
    ChangeOther(s.pt, s.role, f, s.pt[f], Held);
    assert s.pt[f := s.pt[f]] == s.pt;
  }

  lemma ClearGood(s: State, r: nat, v: nat, t: nat, doFree: bool)
    requires Sound(s) && IsRoot(s.role, r) && v < VPNS && L0(s.pt, r, v / ENTRIES) == t
    requires IsValid(Look(s.pt, r, v)) && (doFree ==> Removable(s, r, v))
    ensures t in s.pt && s.pt[t][v % ENTRIES] == Look(s.pt, r, v) && IsLeaf(Look(s.pt, r, v))
    ensures Unmaps(s, Cleared(s, r, t, v, Look(s.pt, r, v).ppn, doFree), r, v, 1, doFree)
  {
    hide Unmaps, Sound, Look, L0, IsLeaf, Removable, Cleared;
    LeafOfRoot(s, r, v, t);
    if doFree { ClearAndFree(s, r, v, t); } else { ClearAndKeep(s, r, v, t); }
  }

  /** A user page is the frame its page number is mapped to. */
  lemma UserAt(s: State, g: nat)
    requires Sound(s) && g in s.role && s.role[g].User?
    ensures s.role[g].vpn < VPNS && IsRoot(s.role, s.role[g].root)
    ensures IsValid(Look(s.pt, s.role[g].root, s.role[g].vpn)) && Look(s.pt, s.role[g].root, s.role[g].vpn).ppn == g
  {
    assert Placed(s.pt, s.role, g);
  }

  lemma OnlyUserAt(s: State, r: nat, v: nat)
    requires Sound(s) && v < VPNS
    ensures forall g | g in s.role && UserIn(s.role[g], r, v, v + 1) ::
              g == Look(s.pt, r, v).ppn && s.role[g] == User(r, v)
  {
    forall g | g in s.role && UserIn(s.role[g], r, v, v + 1)
      ensures g == Look(s.pt, r, v).ppn && s.role[g] == User(r, v)
    {
      UserAt(s, g);
    }
  }

  lemma LeafOfRoot(s: State, r: nat, v: nat, t: nat)
    requires Sound(s) && IsRoot(s.role, r) && v < VPNS && L0(s.pt, r, v / ENTRIES) == t && IsValid(Look(s.pt, r, v))
    ensures t in s.pt && IsLeaf(Look(s.pt, r, v)) && HasRole(s.role, t, Dir(r, 0, v / ENTRIES))
    ensures Target(s.role, r, v, Look(s.pt, r, v).ppn)
    ensures s.pt[t][v % ENTRIES] == Look(s.pt, r, v)
  {
    assert Tree(s.pt, s.role, r);
  }

  lemma UnmapsMore(s0: State, s1: State, s2: State, r: nat, a: nat, k: nat, doFree: bool)
    requires Unmaps(s0, s1, r, a, k, doFree) && Unmaps(s1, s2, r, a + k, 1, doFree) && IsRoot(s0.role, r)
    ensures Unmaps(s0, s2, r, a, k + 1, doFree)
  {
    hide Sound, Look;
    assert forall q: nat :: IsRoot(s1.role, q) <==> IsRoot(s0.role, q);
  }

  /** Pages not yet reached are as they were. */
  lemma StillThere(s0: State, s1: State, r: nat, a: nat, k: nat, doFree: bool, w: nat)
    requires Unmaps(s0, s1, r, a, k, doFree) && IsRoot(s0.role, r) && a + k <= w < VPNS
    ensures Look(s1.pt, r, w) == Look(s0.pt, r, w) && IsRoot(s1.role, r)
    ensures Removable(s0, r, w) ==> Removable(s1, r, w)
  {
  }
}
