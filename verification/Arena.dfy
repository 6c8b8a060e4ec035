/**
 The state of the user-level memory allocator (user/umalloc.c). Addresses are
 counted in units of one header (16 bytes). A block at address a has its header
 in unit a and covers the units from a up to a + size[a]. The free blocks form a
 circular list in address order, which starts at a block of size 0, base.
 */
module Arena {
  type Units = map<nat, nat>

  /** The addresses in the free list and of the blocks in use, and the two fields of the headers. */
  datatype Heap = Heap(base: nat, nodes: set<nat>, live: set<nat>, size: Units, ptr: Units)

  /** b follows a in the circular list: the next higher address, or base after the highest. */
  ghost predicate Follows(h: Heap, a: nat, b: nat) {
    && b in h.nodes
    && (if a < b then forall c | c in h.nodes :: c <= a || b <= c
        else b == h.base && forall c | c in h.nodes :: c <= a)
  }

  /** Every block is after base and not empty, and no two blocks overlap. */
  ghost predicate Disjoint(h: Heap) {
    && h.base in h.nodes && h.base in h.size && h.size[h.base] == 0 && h.nodes !! h.live
    && (forall a | a in h.nodes + h.live && a != h.base :: h.base < a && a in h.size && h.size[a] >= 1)
    && (forall a, b | a in h.nodes + h.live && b in h.nodes + h.live && a < b :: a + h.size[a] <= b)
  }

  ghost predicate Linked(h: Heap, a: nat) {
    a in h.ptr && Follows(h, a, h.ptr[a])
  }

  ghost predicate Circular(h: Heap) {
    forall a {:trigger Linked(h, a)} | a in h.nodes :: Linked(h, a)
  }

  /** Block a ends where another free block starts. */
  predicate Touches(h: Heap, a: nat) {
    a in h.size && a + h.size[a] in h.nodes && h.size[a] > 0
  }

  ghost predicate Coalesced(h: Heap) {
    forall a {:trigger Touches(h, a)} | a in h.nodes :: !Touches(h, a)
  }

  ghost predicate Wf(h: Heap) {
    Disjoint(h) && Circular(h) && Coalesced(h)
  }

  predicate InBlock(h: Heap, a: nat, u: nat) {
    a in h.size && a <= u < a + h.size[a]
  }

  /** Unit u is in some free block. */
  ghost predicate FreeUnit(h: Heap, u: nat) {
    exists a :: a in h.nodes && InBlock(h, a, u)
  }

  /** The blocks in use other than `but` are as they were. */
  ghost predicate SameLive(h: Heap, h': Heap, but: set<nat>) {
    && h'.base == h.base && h'.live - but == h.live - but
    && forall a | a in h.live - but :: a in h.size && a in h'.size && h'.size[a] == h.size[a]
  }

  // ---- freeing ----

  /** The place of bp: between p and its successor. */
  ghost predicate Fits(h: Heap, p: nat, bp: nat) {
    p in h.nodes && p < bp && forall c | c in h.nodes :: c <= p || bp < c
  }

  /** bp is put into the list after p. */
  function Joined(h: Heap, p: nat, bp: nat): Heap
    requires p in h.ptr
  {
    Heap(h.base, h.nodes + {bp}, h.live - {bp}, h.size, h.ptr[bp := h.ptr[p]][p := bp])
  }

  lemma JoinKeeps(h: Heap, p: nat, bp: nat)
    requires Disjoint(h) && Circular(h) && bp in h.live && Fits(h, p, bp)
    ensures p in h.ptr
    ensures Disjoint(Joined(h, p, bp)) && Circular(Joined(h, p, bp)) && SameLive(h, Joined(h, p, bp), {bp})
  {
    hide Follows;
    assert Linked(h, p);
    var h' := Joined(h, p, bp);
    assert h'.nodes + h'.live == h.nodes + h.live;
    forall a | a in h'.nodes
      ensures Linked(h', a)
    {
      JoinLinks(h, p, bp, a);
    }
  }

  lemma JoinLinks(h: Heap, p: nat, bp: nat, a: nat)
    requires h.base < bp && h.base in h.nodes && Circular(h) && Fits(h, p, bp) && a in h.nodes + {bp}
    ensures p in h.ptr && Linked(Joined(h, p, bp), a)
  {
    assert Linked(h, p);
    assert a != bp ==> Linked(h, a);
  }

  lemma JoinAdds(h: Heap, p: nat, bp: nat, u: nat)
    requires Disjoint(h) && Circular(h) && bp in h.live && Fits(h, p, bp)
    ensures p in h.ptr
    ensures FreeUnit(Joined(h, p, bp), u) <==> FreeUnit(h, u) || InBlock(h, bp, u)
  {
    assert Linked(h, p);
    var h' := Joined(h, p, bp);
    if FreeUnit(h, u) {
      var a :| a in h.nodes && InBlock(h, a, u);
      assert a in h'.nodes && InBlock(h', a, u);
    }
    if InBlock(h, bp, u) {
      assert bp in h'.nodes && InBlock(h', bp, u);
    }
  }

  /** Only bp and the block before it can touch another free block. */
  lemma JoinTouches(h: Heap, p: nat, bp: nat, a: nat)
    requires Wf(h) && bp in h.live && Fits(h, p, bp) && a in h.nodes && a != p
    ensures p in h.ptr
    ensures !Touches(Joined(h, p, bp), a)
  {
    assert Linked(h, p);
    assert !Touches(h, a);
    if a < p {
      assert a + h.size[a] <= p;
    }
  }

  /** Block a absorbs the free block right after it. */
  function Absorbed(h: Heap, a: nat): Heap
    requires a in h.size && a + h.size[a] in h.size && a + h.size[a] in h.ptr
  {
    var b := a + h.size[a];
    Heap(h.base, h.nodes - {b}, h.live, h.size[a := h.size[a] + h.size[b]], h.ptr[a := h.ptr[b]])
  }

  lemma TouchedNode(h: Heap, a: nat)
    requires Disjoint(h) && Circular(h) && a in h.nodes && Touches(h, a)
    ensures a in h.ptr && h.ptr[a] == a + h.size[a] && h.ptr[a] in h.size && h.ptr[a] in h.ptr && h.ptr[a] != h.base
    ensures a != h.base
  {
    assert Linked(h, a) && Linked(h, h.ptr[a]);
  }

  lemma AbsorbKeeps(h: Heap, a: nat)
    requires Disjoint(h) && Circular(h) && a in h.nodes && Touches(h, a)
    ensures a + h.size[a] in h.size && a + h.size[a] in h.ptr
    ensures Disjoint(Absorbed(h, a)) && Circular(Absorbed(h, a)) && SameLive(h, Absorbed(h, a), {})
  {
    TouchedNode(h, a);
    AbsorbDisjoint(h, a);
    var h', b := Absorbed(h, a), a + h.size[a];
    assert Linked(h, b) && Linked(h, a);
    forall c | c in h'.nodes
      ensures Linked(h', c)
    {
      assert Linked(h, c);
    }
  }

  lemma AbsorbDisjoint(h: Heap, a: nat)
    requires Disjoint(h) && a in h.nodes && Touches(h, a) && a != h.base
    requires a + h.size[a] in h.size && a + h.size[a] in h.ptr
    ensures Disjoint(Absorbed(h, a)) && SameLive(h, Absorbed(h, a), {})
  {
  }

  lemma AbsorbUnits(h: Heap, a: nat, u: nat)
    requires Disjoint(h) && Circular(h) && a in h.nodes && Touches(h, a)
    ensures a + h.size[a] in h.size && a + h.size[a] in h.ptr
    ensures FreeUnit(Absorbed(h, a), u) <==> FreeUnit(h, u)
  {
    TouchedNode(h, a);
    if FreeUnit(h, u) {
      StillFree(h, a, u);
    }
    if FreeUnit(Absorbed(h, a), u) {
      WasFree(h, a, u);
    }
  }

  lemma StillFree(h: Heap, a: nat, u: nat)
    requires Disjoint(h) && Circular(h) && a in h.nodes && Touches(h, a) && FreeUnit(h, u)
    ensures a + h.size[a] in h.size && a + h.size[a] in h.ptr && FreeUnit(Absorbed(h, a), u)
  {
    TouchedNode(h, a);
    var c :| c in h.nodes && InBlock(h, c, u);
    assert InBlock(Absorbed(h, a), if c == a + h.size[a] then a else c, u);
  }

  lemma WasFree(h: Heap, a: nat, u: nat)
    requires Disjoint(h) && Circular(h) && a in h.nodes && Touches(h, a)
    requires a + h.size[a] in h.size && a + h.size[a] in h.ptr && FreeUnit(Absorbed(h, a), u)
    ensures FreeUnit(h, u)
  {
    TouchedNode(h, a);
    var h', b := Absorbed(h, a), a + h.size[a];
    var c :| c in h'.nodes && InBlock(h', c, u);
    assert InBlock(h, if c == a && b <= u then b else c, u);
  }

  lemma AbsorbTouches(h: Heap, a: nat, c: nat)
    requires Disjoint(h) && Circular(h) && a in h.nodes && Touches(h, a) && c in h.nodes && c != a + h.size[a]
    requires if c == a then !Touches(h, a + h.size[a]) else !Touches(h, c)
    ensures a + h.size[a] in h.size && a + h.size[a] in h.ptr
    ensures !Touches(Absorbed(h, a), c)
  {
    TouchedNode(h, a);
  }

  /** What free does: bp joins the list after p and is merged with its neighbours. */
  function Released(h: Heap, p: nat, bp: nat): Heap
    requires p in h.ptr
  {
    var h1 := Joined(h, p, bp);
    var h2 := AbsorbIf(h1, bp);
    AbsorbIf(h2, p)
  }

  function AbsorbIf(h: Heap, a: nat): Heap {
    if Touches(h, a) && a + h.size[a] in h.size && a + h.size[a] in h.ptr then Absorbed(h, a) else h
  }

  /** Freeing a block keeps the heap well formed and fully coalesced, and makes exactly its units free. */
  lemma ReleaseKeeps(h: Heap, p: nat, bp: nat)
    requires Wf(h) && bp in h.live && Fits(h, p, bp)
    ensures p in h.ptr
    ensures Wf(Released(h, p, bp)) && Released(h, p, bp).live == h.live - {bp} && SameLive(h, Released(h, p, bp), {bp})
    ensures p in Released(h, p, bp).nodes
    ensures forall u: nat :: FreeUnit(Released(h, p, bp), u) <==> FreeUnit(h, u) || InBlock(h, bp, u)
  {
    hide Disjoint, Circular, FreeUnit;
    JoinKeeps(h, p, bp);
    var h1 := Joined(h, p, bp);
    forall a | a in h1.nodes && a != p && a != bp
      ensures !Touches(h1, a)
    {
      JoinTouches(h, p, bp, a);
    }
    var h2 := AbsorbIf(h1, bp);
    if Touches(h1, bp) {
      AbsorbKeeps(h1, bp);
      assert h2 == Absorbed(h1, bp);
      forall a | a in h2.nodes && a != p
        ensures !Touches(h2, a)
      {
        AbsorbTouches(h1, bp, a);
      }
    }
    var h3 := AbsorbIf(h2, p);
    if Touches(h2, p) {
      AbsorbKeeps(h2, p);
      assert h3 == Absorbed(h2, p);
      forall a | a in h3.nodes
        ensures !Touches(h3, a)
      {
        AbsorbTouches(h2, p, a);
      }
    }
    forall u: nat
      ensures FreeUnit(h3, u) <==> FreeUnit(h, u) || InBlock(h, bp, u)
    {
      ReleaseUnits(h, p, bp, u);
    }
  }

  lemma ReleaseUnits(h: Heap, p: nat, bp: nat, u: nat)
    requires Wf(h) && bp in h.live && Fits(h, p, bp)
    ensures p in h.ptr
    ensures FreeUnit(Released(h, p, bp), u) <==> FreeUnit(h, u) || InBlock(h, bp, u)
  {
    hide Disjoint, Circular, FreeUnit;
    JoinKeeps(h, p, bp);
    var h1 := Joined(h, p, bp);
    var h2 := AbsorbIf(h1, bp);
    JoinAdds(h, p, bp, u);
    if Touches(h1, bp) {
      AbsorbKeeps(h1, bp);
      AbsorbUnits(h1, bp, u);
    }
    if Touches(h2, p) {
      AbsorbUnits(h2, p, u);
    }
  }

  /** One free block holds all of the block that was freed. */
  ghost predicate Covered(h: Heap, bp: nat, n: nat) {
    exists a :: a in h.nodes && a in h.size && a <= bp && bp + n <= a + h.size[a]
  }

  lemma ReleaseCovers(h: Heap, p: nat, bp: nat)
    requires Wf(h) && bp in h.live && Fits(h, p, bp)
    ensures p in h.ptr && bp in h.size && Covered(Released(h, p, bp), bp, h.size[bp])
  {
    hide Follows, Circular;
    JoinKeeps(h, p, bp);
    var h1 := Joined(h, p, bp);
    var h2 := AbsorbIf(h1, bp);
    assert bp in h2.nodes && h2.size[bp] >= h.size[bp];
    var h3 := Released(h, p, bp);
    assert h3 == AbsorbIf(h2, p);
    if Touches(h2, p) && p + h2.size[p] == bp {
      assert p in h3.nodes;
    } else {
      assert bp in h3.nodes;
    }
  }

  /** The whole effect of free on the heap. */
  ghost predicate Freed(h: Heap, h': Heap, bp: nat) {
    && Wf(h') && h'.live == h.live - {bp} && SameLive(h, h', {bp})
    && bp in h.size && Covered(h', bp, h.size[bp])
    && forall u: nat :: FreeUnit(h', u) <==> FreeUnit(h, u) || InBlock(h, bp, u)
  }

  // ---- allocating ----

  /** A free block of exactly the right size leaves the list. */
  function TookWhole(h: Heap, prev: nat, p: nat): Heap
    requires p in h.ptr
  {
    Heap(h.base, h.nodes - {p}, h.live + {p}, h.size, h.ptr[prev := h.ptr[p]])
  }

  /** The last n units of a free block become a block of their own. */
  function TookTail(h: Heap, p: nat, n: nat): Heap
    requires p in h.size && h.size[p] > n
  {
    var q := p + (h.size[p] - n);
    Heap(h.base, h.nodes, h.live + {q}, h.size[p := h.size[p] - n][q := n], h.ptr)
  }

  /** The whole effect of a successful malloc on the heap: a block of n units that were free. */
  ghost predicate Allocated(h: Heap, h': Heap, bp: nat, n: nat) {
    && Wf(h') && bp !in h.live && h'.live == h.live + {bp} && SameLive(h, h', {bp})
    && bp in h'.size && h'.size[bp] == n && bp > h.base
    && (forall u: nat | bp <= u < bp + n :: FreeUnit(h, u))
    && (forall u: nat :: FreeUnit(h', u) <==> FreeUnit(h, u) && !(bp <= u < bp + n))
  }

  lemma TakeWholeLinks(h: Heap, prev: nat, p: nat, a: nat)
    requires Circular(h) && h.base in h.nodes && p in h.nodes && p != h.base && prev in h.nodes && prev in h.ptr
    requires h.ptr[prev] == p && prev != p
    requires a in h.nodes - {p}
    ensures p in h.ptr && Linked(TookWhole(h, prev, p), a)
  {
    assert Linked(h, p) && Linked(h, prev) && Linked(h, a);
  }

  lemma TakeWhole(h: Heap, prev: nat, p: nat)
    requires Wf(h) && p in h.nodes && p != h.base && prev in h.nodes && prev in h.ptr && h.ptr[prev] == p
    ensures p in h.ptr && p in h.size && prev != p && Allocated(h, TookWhole(h, prev, p), p, h.size[p])
  {
    hide Follows;
    assert prev != p by { NotItsOwnNext(h, p); }
    assert Linked(h, p);
    var h' := TookWhole(h, prev, p);
    assert h'.nodes + h'.live == h.nodes + h.live;
    forall a | a in h'.nodes
      ensures Linked(h', a)
    {
      TakeWholeLinks(h, prev, p, a);
    }
    forall a | a in h'.nodes
      ensures !Touches(h', a)
    {
      assert !Touches(h, a);
    }
    forall u: nat
      ensures FreeUnit(h', u) <==> FreeUnit(h, u) && !InBlock(h, p, u)
    {
      WholeUnits(h, prev, p, u);
    }
    forall u: nat | InBlock(h, p, u)
      ensures FreeUnit(h, u)
    {
    }
  }

  lemma NotItsOwnNext(h: Heap, p: nat)
    requires Wf(h) && p in h.nodes && p != h.base
    ensures p in h.ptr && h.ptr[p] != p
  {
    assert Linked(h, p);
  }

  lemma WholeUnits(h: Heap, prev: nat, p: nat, u: nat)
    requires Disjoint(h) && p in h.nodes && p in h.ptr
    ensures FreeUnit(TookWhole(h, prev, p), u) <==> FreeUnit(h, u) && !InBlock(h, p, u)
  {
    var h' := TookWhole(h, prev, p);
    if FreeUnit(h, u) && !InBlock(h, p, u) {
      var a :| a in h.nodes && InBlock(h, a, u);
      assert a in h'.nodes && InBlock(h', a, u);
    }
    if FreeUnit(h', u) {
      var a :| a in h'.nodes && InBlock(h', a, u);
      assert a in h.nodes && InBlock(h, a, u);
    }
  }

  lemma TakeTail(h: Heap, p: nat, n: nat)
    requires Wf(h) && p in h.nodes && p in h.size && h.size[p] > n >= 1
    ensures Allocated(h, TookTail(h, p, n), p + (h.size[p] - n), n)
  {
    hide Follows;
    var q := p + (h.size[p] - n);
    var h' := TookTail(h, p, n);
    TailIsNew(h, p, n);
    TailDisjoint(h, p, n);
    forall a | a in h'.nodes
      ensures Linked(h', a)
    {
      TailLinks(h, p, n, a);
    }
    forall a | a in h'.nodes
      ensures !Touches(h', a)
    {
      assert !Touches(h, a);
    }
    forall u: nat
      ensures FreeUnit(h', u) <==> FreeUnit(h, u) && !(q <= u < q + n)
      ensures q <= u < q + n ==> FreeUnit(h, u)
    {
      TailUnits(h, p, n, u);
    }
  }

  lemma TailIsNew(h: Heap, p: nat, n: nat)
    requires Disjoint(h) && p in h.nodes && p in h.size && h.size[p] > n >= 1
    ensures p + (h.size[p] - n) !in h.nodes + h.live && p > h.base - 1
  {
  }

  lemma TailLinks(h: Heap, p: nat, n: nat, a: nat)
    requires Circular(h) && p in h.size && h.size[p] > n && a in h.nodes
    ensures Linked(TookTail(h, p, n), a)
  {
    assert Linked(h, a);
  }

  lemma TailDisjoint(h: Heap, p: nat, n: nat)
    requires Disjoint(h) && p in h.nodes && p in h.size && h.size[p] > n >= 1
    ensures Disjoint(TookTail(h, p, n)) && SameLive(h, TookTail(h, p, n), {p + (h.size[p] - n)})
  {
    TailIsNew(h, p, n);
  }

  lemma TailUnits(h: Heap, p: nat, n: nat, u: nat)
    requires Disjoint(h) && p in h.nodes && p in h.size && h.size[p] > n >= 1
    ensures var q := p + (h.size[p] - n);
            && (FreeUnit(TookTail(h, p, n), u) <==> FreeUnit(h, u) && !(q <= u < q + n))
            && (q <= u < q + n ==> FreeUnit(h, u))
  {
    var h', q := TookTail(h, p, n), p + (h.size[p] - n);
    TailIsNew(h, p, n);
    if q <= u < q + n {
      assert InBlock(h, p, u);
    }
    if FreeUnit(h, u) && !(q <= u < q + n) {
      var a :| a in h.nodes && InBlock(h, a, u);
      assert InBlock(h', a, u);
    }
    if FreeUnit(h', u) {
      var a :| a in h'.nodes && InBlock(h', a, u);
      assert InBlock(h, a, u);
    }
  }

  // ---- growing ----

  /** Every block ends at or before the break. */
  ghost predicate Below(h: Heap, brk: nat) {
    && h.base < brk
    && (forall a | a in h.nodes + h.live :: a in h.size && a + h.size[a] <= brk)
  }

  /** A new block of n units starts at the break. */
  function Extended(h: Heap, hp: nat, n: nat): Heap {
    Heap(h.base, h.nodes, h.live + {hp}, h.size[hp := n], h.ptr)
  }

  lemma ExtendKeeps(h: Heap, hp: nat, n: nat)
    requires Wf(h) && Below(h, hp) && n >= 1
    ensures hp !in h.live + h.nodes && Wf(Extended(h, hp, n)) && SameLive(h, Extended(h, hp, n), {hp})
    ensures forall u: nat :: FreeUnit(Extended(h, hp, n), u) <==> FreeUnit(h, u)
  {
    hide Follows;
    var h' := Extended(h, hp, n);
    assert hp !in h.live + h.nodes;
    forall a | a in h'.nodes
      ensures Linked(h', a) && !Touches(h', a)
    {
      assert Linked(h, a) && !Touches(h, a);
      SameLinks(h, h', a);
    }
    forall u: nat
      ensures FreeUnit(h', u) <==> FreeUnit(h, u)
    {
      if FreeUnit(h, u) {
        var a :| a in h.nodes && InBlock(h, a, u);
        assert InBlock(h', a, u);
      }
      if FreeUnit(h', u) {
        var a :| a in h'.nodes && InBlock(h', a, u);
        assert InBlock(h, a, u);
      }
    }
  }

  lemma SameLinks(h: Heap, h': Heap, a: nat)
    requires Linked(h, a) && h'.nodes == h.nodes && h'.ptr == h.ptr && h'.base == h.base
    ensures Linked(h', a)
  {
  }

  /** The heap after morecore: n more units from hp on are free. */
  ghost predicate Grown(h: Heap, h': Heap, hp: nat, n: nat) {
    && Wf(h') && h'.live == h.live && SameLive(h, h', {}) && Covered(h', hp, n)
    && forall u: nat :: FreeUnit(h', u) <==> FreeUnit(h, u) || hp <= u < hp + n
  }

  lemma ExtendThenFree(h: Heap, h': Heap, hp: nat, n: nat)
    requires Wf(h) && Below(h, hp) && n >= 1 && Freed(Extended(h, hp, n), h', hp)
    ensures Grown(h, h', hp, n)
  {
    hide Wf, FreeUnit, Covered;
    ExtendKeeps(h, hp, n);
  }

  // ---- the free list is determined by the free units ----

  /** The unit before a free block is not free. */
  lemma NotFreeBefore(h: Heap, a: nat)
    requires Wf(h) && a in h.nodes && a != h.base
    ensures a >= 1 && !FreeUnit(h, a - 1)
  {
    hide Circular;
    forall c | c in h.nodes
      ensures !InBlock(h, c, a - 1)
    {
      assert !Touches(h, c);
    }
  }

  lemma SameNode(h: Heap, h': Heap, a: nat)
    requires Wf(h) && Wf(h') && h'.base == h.base && a in h.nodes
    requires forall u: nat :: FreeUnit(h', u) <==> FreeUnit(h, u)
    ensures a in h'.nodes
  {
    hide Circular;
    if a != h.base {
      assert InBlock(h, a, a);
      assert FreeUnit(h, a);
      var b :| b in h'.nodes && InBlock(h', b, a);
      if b < a {
        assert InBlock(h', b, a - 1);
        NotFreeBefore(h, a);
      }
    }
  }

  lemma SameSize(h: Heap, h': Heap, a: nat)
    requires Wf(h) && Wf(h') && h'.base == h.base && a in h.nodes && a in h'.nodes
    requires forall u: nat :: FreeUnit(h', u) <==> FreeUnit(h, u)
    ensures h'.size[a] <= h.size[a]
  {
    hide Circular;
    var u := a + h.size[a];
    assert !Touches(h, a);
    if h'.size[a] > h.size[a] {
      assert InBlock(h', a, u);
      assert FreeUnit(h', u);
      var c :| c in h.nodes && InBlock(h, c, u);
    }
  }

  /** A well-formed heap has one free list only: two with the same free units have the same free blocks. */
  lemma Canonical(h: Heap, h': Heap)
    requires Wf(h) && Wf(h') && h'.base == h.base
    requires forall u: nat :: FreeUnit(h', u) <==> FreeUnit(h, u)
    ensures h'.nodes == h.nodes
    ensures forall a | a in h.nodes :: h'.size[a] == h.size[a] && a in h.ptr && a in h'.ptr && h'.ptr[a] == h.ptr[a]
  {
    hide FreeUnit;
    forall a
      ensures a in h.nodes <==> a in h'.nodes
    {
      if a in h.nodes { SameNode(h, h', a); }
      if a in h'.nodes { SameNode(h', h, a); }
    }
    forall a | a in h.nodes
      ensures h'.size[a] == h.size[a] && a in h.ptr && a in h'.ptr && h'.ptr[a] == h.ptr[a]
    {
      SameSize(h, h', a);
      SameSize(h', h, a);
      assert Linked(h, a) && Linked(h', a);
    }
  }

  /** Freeing what was just allocated gives back the very same free list. */
  lemma AllocateThenFree(h: Heap, h': Heap, h'': Heap, bp: nat, n: nat)
    requires Wf(h) && Allocated(h, h', bp, n) && Freed(h', h'', bp)
    ensures h''.live == h.live && h''.nodes == h.nodes
    ensures forall a | a in h.nodes :: h''.size[a] == h.size[a] && a in h.ptr && a in h''.ptr && h''.ptr[a] == h.ptr[a]
  {
    hide FreeUnit, Disjoint, Circular, Coalesced;
    assert forall u: nat :: FreeUnit(h'', u) <==> FreeUnit(h, u);
    Canonical(h, h'');
  }
}
