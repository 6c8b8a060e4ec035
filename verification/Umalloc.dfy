/**
 malloc, free and morecore (user/umalloc.c): the loops over the circular list.
 The memory comes from sbrk, whose argument is a 32-bit signed byte count.
 */
module Umalloc {
  import opened Arena

  const UNIT: nat := 16  // sizeof(Header)
  const TWO31: nat := 0x8000_0000
  const TWO32: nat := 0x1_0000_0000

  /** The value of a 64-bit count when passed as an int. */
  function ToInt(n: nat): int {
    if n % TWO32 < TWO31 then n % TWO32 else n % TWO32 - TWO32
  }

  /** Where the break is after a successful sbrk(n): below where it was for a negative n, unless that
      would be below address 0. */
  function NewBreak(brk: nat, n: int): nat {
    if n >= 0 then brk + n / UNIT
    else if -n <= brk * UNIT then (brk * UNIT + n) / UNIT
    else brk
  }

  function Max(a: nat, b: nat): nat {
    if a < b then b else a
  }

  /** One unit for the header and as many as the bytes need. */
  function UnitsFor(nbytes: nat): (n: nat)
    ensures n >= 1 && nbytes <= (n - 1) * UNIT < nbytes + UNIT
  {
    (nbytes + UNIT - 1) / UNIT + 1
  }

  /** Some free block has n units. */
  ghost predicate Available(h: Heap, n: nat) {
    exists a :: a in h.nodes && a in h.size && h.size[a] >= n
  }

  /** The break moves up by what was asked for exactly when the byte count fits in an int. */
  lemma BreakMovesExactlyWhen(brk: nat, n: nat)
    requires 1 <= n <= TWO32 / UNIT + 1
    ensures NewBreak(brk, ToInt(n * UNIT)) >= brk + n <==> n * UNIT < TWO31
    ensures n * UNIT < TWO31 ==> NewBreak(brk, ToInt(n * UNIT)) == brk + n
  {
  }

  /** A caller can tell: the request fits when it is for at most 2^31 - 32 bytes. */
  lemma RequestFitsExactlyWhen(nbytes: nat)
    ensures Max(UnitsFor(nbytes), 4096) * UNIT < TWO31 <==> nbytes <= TWO31 - 32
  {
  }

  /** So, wherever the break is, the block granted lies below the new break exactly when the request is for
      at most 2^31 - 32 bytes. */
  lemma BlockFitsExactlyWhen(brk: nat, nbytes: nat)
    requires nbytes < TWO32
    ensures var n := Max(UnitsFor(nbytes), 4096);
            brk + n <= NewBreak(brk, ToInt(n * UNIT)) <==> nbytes <= TWO31 - 32
  {
    RequestFitsExactlyWhen(nbytes);
    BreakMovesExactlyWhen(brk, Max(UnitsFor(nbytes), 4096));
  }

  /** For 2^31 bytes the break never moves up, so the block granted ends above it. */
  lemma HugeRequest(brk: nat)
    ensures NewBreak(brk, ToInt(UnitsFor(TWO31) * UNIT)) <= brk < brk + UnitsFor(TWO31)
  {
  }

  /** Walking the list from freep, node a has been passed once q has been reached. */
  predicate Passed(freep: nat, q: nat, a: nat) {
    if freep <= q then freep < a <= q else a > freep || a <= q
  }

  ghost function Ahead(h: Heap, freep: nat, q: nat): set<nat> {
    set a | a in h.nodes && !Passed(freep, q, a)
  }

  ghost predicate AllSmall(h: Heap, freep: nat, q: nat, n: nat) {
    forall a | a in h.nodes && Passed(freep, q, a) :: a in h.size && h.size[a] < n
  }

  /** One step along the list passes exactly one more node. */
  lemma Advance(h: Heap, freep: nat, q: nat, n: nat)
    requires Wf(h) && freep in h.nodes && q in h.nodes && q in h.ptr && h.ptr[q] != freep
    requires AllSmall(h, freep, q, n) && h.ptr[q] in h.size && h.size[h.ptr[q]] < n
    ensures AllSmall(h, freep, h.ptr[q], n)
    ensures Ahead(h, freep, h.ptr[q]) < Ahead(h, freep, q)
  {
    assert Linked(h, q);
    var p := h.ptr[q];
    assert !Passed(freep, q, p) && Passed(freep, p, p);
    forall a | a in h.nodes
      ensures Passed(freep, p, a) <==> Passed(freep, q, a) || a == p
    {
    }
    assert p in Ahead(h, freep, q) && p !in Ahead(h, freep, p);
  }

  /** Back at the start, every node has been passed. */
  lemma FullCircle(h: Heap, freep: nat, q: nat, n: nat)
    requires Wf(h) && freep in h.nodes && q in h.nodes && q in h.ptr && h.ptr[q] == freep
    requires AllSmall(h, freep, q, n) && freep in h.size && h.size[freep] < n
    ensures !Available(h, n)
  {
    assert Linked(h, q);
  }

  lemma NodeFacts(h: Heap, q: nat)
    requires Wf(h) && q in h.nodes
    ensures q in h.ptr && q in h.size && h.ptr[q] in h.nodes && h.ptr[q] in h.size && h.ptr[q] in h.ptr
    ensures q >= h.base
  {
    assert Linked(h, q) && Linked(h, h.ptr[q]);
  }

  class Allocator {
    const base: nat
    var ptr: Units
    var size: Units
    var freep: nat
    var brk: nat
    ghost var nodes: set<nat>
    ghost var live: set<nat>

    ghost function H(): Heap
      reads this
    {
      Heap(base, nodes, live, size, ptr)
    }

    /** The list exists and freep points into it. */
    ghost predicate Listed()
      reads this
    {
      base > 0 && freep != 0 && Wf(H()) && freep in nodes
    }

    /** What holds between calls: before the first malloc there are no blocks at all. */
    ghost predicate Valid()
      reads this
    {
      if freep == 0 then 0 < base < brk && nodes == {} && live == {} else Listed() && Below(H(), brk)
    }

    /** The program starts with no list. */
    constructor (base: nat, brk: nat)
      requires 0 < base < brk
      ensures Valid() && this.base == base && this.brk == brk && live == {}
    {
      this.base, this.brk, ptr, size, freep, nodes, live := base, brk, map[], map[], 0, {}, {};
    }

    /** The search loop of free: the entry of the list after which bp belongs. */
    method FindPlace(bp: nat) returns (p: nat)
      requires Listed() && bp in live
      ensures Fits(H(), p, bp)
    {
      hide Coalesced;
      p := freep;
      ghost var wrapped := false;
      assert bp > base;
      NodeFacts(H(), p);
      while !(bp > p && bp < ptr[p])
        invariant p in nodes && p in ptr && (wrapped ==> p < bp)
        decreases if wrapped then 0 else 1, set a | a in nodes && a > p
      {
        assert Linked(H(), p);
        if p >= ptr[p] && (bp > p || bp < ptr[p]) {
          break;
        }
        ghost var q := p;
        ghost var before := set a | a in nodes && a > p;
        NodeFacts(H(), p);
        p := ptr[p];
        if p <= q {
          wrapped := true;
        } else {
          assert p in before;
          assert (set a | a in nodes && a > p) <= before && p !in (set a | a in nodes && a > p);
        }
        NodeFacts(H(), p);
      }
      assert Linked(H(), p);
    }

    /** free: the units of the block become free, merged with the free blocks next to it. */
    method Free(ap: nat)
      requires Listed() && ap > 0 && ap - 1 in live
      modifies this
      ensures Listed() && Freed(old(H()), H(), ap - 1) && brk == old(brk)
      ensures Below(old(H()), brk) ==> Below(H(), brk)
    {
      hide Wf, Disjoint, Freed, Below;
      var bp := ap - 1;
      var p := FindPlace(bp);
      ghost var h := H();
      LinkFacts(h, p, bp);
      FreedNow(h, p, bp);
      Link(p, bp);
      freep := p;
      if Below(h, brk) {
        FreedBelow(h, H(), bp, brk);
      }
    }

    /** The end of free: bp is linked in after p, and merged. */
    method Link(p: nat, bp: nat)
      requires Wf(H()) && bp in live && Fits(H(), p, bp) && p in ptr
      modifies this
      ensures H() == Released(old(H()), p, bp) && freep == old(freep) && brk == old(brk)
    {
      hide Wf, Fits;
      ghost var h := H();
      LinkFacts(h, p, bp);
      var next := ptr[p];
      if bp + size[bp] == next {
        size := size[bp := size[bp] + size[next]];
        ptr := ptr[bp := ptr[next]];
        nodes := nodes - {next};
      } else {
        ptr := ptr[bp := next];
      }
      nodes, live := nodes + {bp}, live - {bp};
      ghost var h2 := AbsorbIf(Joined(h, p, bp), bp);
      assert size == h2.size && nodes == h2.nodes && live == h2.live;
      assert ptr[p := bp] == h2.ptr;
      if p + size[p] == bp {
        size := size[p := size[p] + size[bp]];
        ptr := ptr[p := ptr[bp]];
        nodes := nodes - {bp};
      } else {
        ptr := ptr[p := bp];
      }
    }

    /** morecore: at least 4096 units are asked of the system and freed. */
    method Morecore(nu: nat, grant: bool) returns (p: nat, ghost grown: nat)
      requires Listed() && Below(H(), brk) && nu >= 1
      modifies this
      ensures grown == Max(nu, 4096)
      ensures !grant ==> p == 0 && H() == old(H()) && freep == old(freep) && brk == old(brk)
      ensures grant ==> p == freep && Listed() && Grown(old(H()), H(), old(brk), grown)
      ensures grant ==> brk == NewBreak(old(brk), ToInt(grown * UNIT))
    {
      hide Wf, Below, Freed, Grown, NewBreak, ToInt;
      var n := if nu < 4096 then 4096 else nu;
      grown := n;
      if !grant {
        return 0, grown;
      }
      ghost var h := H();
      var hp := brk;
      ExtendKeeps(h, hp, n);
      brk := NewBreak(brk, ToInt(n * UNIT));
      size := size[hp := n];
      live := live + {hp};
      Free(hp + 1);
      ExtendThenFree(h, H(), hp, n);
      p := freep;
    }

    /** The part of malloc that takes n units from block p, which follows prevp. */
    method TakeBlock(prevp: nat, p: nat, n: nat) returns (q: nat)
      requires Wf(H()) && prevp in nodes && prevp in ptr && ptr[prevp] == p && p in nodes && p in size
      requires size[p] >= n >= 1
      modifies this
      ensures Allocated(old(H()), H(), q, n) && prevp in nodes && freep == old(freep) && brk == old(brk)
    {
      hide Allocated, Circular, Coalesced;
      ghost var h := H();
      NodeFacts(h, p);
      if size[p] == n {
        TakeWhole(h, prevp, p);
        ptr := ptr[prevp := ptr[p]];
        nodes, live := nodes - {p}, live + {p};
        q := p;
      } else {
        TakeTail(h, p, n);
        size := size[p := size[p] - n];
        q := p + size[p];
        size := size[q := n];
        live := live + {q};
      }
    }

    /** malloc: a block of the units needed, taken from a free block or from memory newly obtained. It
        returns 0 exactly when no free block is large enough and the system refuses. */
    method Malloc(nbytes: nat, grant: bool) returns (p: nat, ghost grown: nat)
      requires Valid() && nbytes < TWO32
      modifies this
      ensures p == 0 <==> !Available(old(H()), UnitsFor(nbytes)) && !grant
      ensures p == 0 ==> Valid() && SameBlocks(old(H()), H())
      ensures p != 0 ==> grown == if Available(old(H()), UnitsFor(nbytes)) then 0 else Max(UnitsFor(nbytes), 4096)
      ensures p != 0 ==> p >= 1 && p - 1 in size && nbytes <= (size[p - 1] - 1) * 16 < nbytes + 16
      ensures p != 0 ==> Listed() && Malloced(old(H()), H(), old(brk), grown, p - 1, UnitsFor(nbytes))
      ensures p != 0 ==> (Valid() <==> grown * UNIT < TWO31)
    {
      hide Wf, Below, Grown, Available, Allocated, Malloced, SameBlocks, AllSmall, Ahead, Follows;
      ghost var h0 := H();
      var nunits := (nbytes + UNIT - 1) / UNIT + 1;
      grown := 0;
      Start();
      ghost var h1, brk0 := H(), brk;
      StartFacts(h0, h1, nunits);
      var prevp := freep;
      NodeFacts(h1, prevp);
      p := ptr[prevp];
      NothingPassed(h1, freep, nunits);
      while true
        invariant Listed() && prevp in nodes && prevp in ptr && p == ptr[prevp] && p in size && p in nodes
        invariant AllSmall(H(), freep, prevp, nunits)
        invariant if grown == 0 then H() == h1 && brk == brk0
                  else grown == Max(nunits, 4096) && grant && !Available(h1, nunits) && Available(H(), nunits)
                       && Grown(h1, H(), brk0, grown) && brk == NewBreak(brk0, ToInt(grown * UNIT))
        decreases if grown == 0 then 1 else 0, Ahead(H(), freep, prevp)
      {
        if size[p] >= nunits {
          ghost var h2 := H();
          Enough(h2, p, nunits);
          NodeFacts(h2, prevp);
          p := TakeBlock(prevp, p, nunits);
          freep := prevp;
          Finish(h0, h1, h2, H(), brk0, brk, grown, p, nunits);
          return p + 1, grown;
        }
        if p == freep {
          FullCircle(H(), freep, prevp, nunits);
          assert grown == 0;
          p, grown := Morecore(nunits, grant);
          if p == 0 {
            return 0, grown;
          }
          GrownAvailable(h1, H(), brk0, grown, nunits);
          NothingPassed(H(), freep, nunits);
        } else {
          Advance(H(), freep, prevp, nunits);
        }
        NodeFacts(H(), p);
        prevp := p;
        p := ptr[p];
      }
    }

    /** The first call sets up a list of just base. */
    method Start()
      requires Valid()
      modifies this
      ensures Listed() && Below(H(), brk) && brk == old(brk) && SameBlocks(old(H()), H())
      ensures old(freep) != 0 ==> H() == old(H())
      ensures old(freep) == 0 ==> nodes == {base} && size[base] == 0
    {
      if freep == 0 {
        freep := base;
        ptr, size := ptr[base := base], size[base := 0];
        nodes := {base};
        assert Linked(H(), base);
        assert forall u: nat :: !FreeUnit(H(), u);
      }
    }
  }

  /** Nothing has been allocated or freed. */
  ghost predicate SameBlocks(h: Heap, h': Heap) {
    h'.live == h.live && SameLive(h, h', {}) && forall u: nat :: FreeUnit(h', u) <==> FreeUnit(h, u)
  }

  /** The effect of malloc: bp is a new block of n units, taken from the units that were free and the
      `grown` units newly obtained from hp on. */
  ghost predicate Malloced(h: Heap, h': Heap, hp: nat, grown: nat, bp: nat, n: nat) {
    && Wf(h') && bp !in h.live && h'.live == h.live + {bp} && SameLive(h, h', {bp})
    && bp in h'.size && h'.size[bp] == n && bp > h.base
    && (forall u: nat | bp <= u < bp + n :: FreeUnit(h, u) || hp <= u < hp + grown)
    && (forall u: nat :: FreeUnit(h', u) <==> (FreeUnit(h, u) || hp <= u < hp + grown) && !(bp <= u < bp + n))
  }

  lemma StartFacts(h0: Heap, h1: Heap, n: nat)
    requires n >= 1 && Wf(h1) && (h1 == h0 || (h0.nodes == {} && h1.nodes == {h1.base}))
    ensures Available(h1, n) <==> Available(h0, n)
  {
  }

  lemma NothingPassed(h: Heap, freep: nat, n: nat)
    ensures AllSmall(h, freep, freep, n)
  {
  }

  lemma GrownAvailable(h: Heap, h': Heap, hp: nat, grown: nat, n: nat)
    requires Grown(h, h', hp, grown) && grown >= n
    ensures Available(h', n)
  {
  }

  /** Putting the steps of malloc together. */
  lemma Finish(h0: Heap, h1: Heap, h2: Heap, h3: Heap, hp: nat, brk: nat, grown: nat, bp: nat, n: nat)
    requires SameBlocks(h0, h1) && h1.base == h0.base && Wf(h1) && Below(h1, hp) && n <= TWO32 / UNIT + 1
    requires if grown == 0 then h2 == h1 && brk == hp
             else grown == Max(n, 4096) && Grown(h1, h2, hp, grown) && brk == NewBreak(hp, ToInt(grown * UNIT))
    requires Allocated(h2, h3, bp, n)
    ensures Malloced(h0, h3, hp, grown, bp, n) && Wf(h3) && bp in h3.size && h3.size[bp] == n
    ensures Below(h3, brk) <==> grown * UNIT < TWO31
  {
    hide Wf, FreeUnit, Below, NewBreak, ToInt;
    assert Malloced(h1, h3, hp, grown, bp, n);
    if grown > 0 {
      BreakMovesExactlyWhen(hp, grown);
    }
    BelowExactlyWhen(h1, h3, hp, brk, grown, bp, n);
  }

  lemma UnitsBelow(h: Heap, hp: nat, u: nat)
    requires Below(h, hp) && FreeUnit(h, u)
    ensures u < hp
  {
  }

  lemma FreedBelow(h: Heap, h': Heap, bp: nat, brk: nat)
    requires Wf(h) && bp in h.live && Freed(h, h', bp) && Below(h, brk)
    ensures Below(h', brk)
  {
    hide Circular, Coalesced;
    assert bp in h.nodes + h.live;
    forall a | a in h'.nodes + h'.live
      ensures a in h'.size && a + h'.size[a] <= brk
    {
      if a in h'.live {
        assert a in h.nodes + h.live;
      } else if a != h.base {
        var u := a + h'.size[a] - 1;
        assert InBlock(h', a, u);
        assert FreeUnit(h', u);
        if FreeUnit(h, u) {
          UnitsBelow(h, brk, u);
        }
      }
    }
  }

  /** All blocks are below the new break exactly when it moved far enough. */
  lemma BelowExactlyWhen(h: Heap, h': Heap, hp: nat, brk: nat, grown: nat, bp: nat, n: nat)
    requires Wf(h) && Below(h, hp) && Malloced(h, h', hp, grown, bp, n) && (grown == 0 ==> brk == hp)
    ensures Below(h', brk) <==> brk >= hp + grown
  {
    hide Circular, Coalesced;
    if brk >= hp + grown {
      forall a | a in h'.nodes + h'.live
        ensures a in h'.size && a + h'.size[a] <= brk
      {
        EndsBelow(h, h', hp, grown, bp, n, a);
      }
    } else {
      var u := hp + grown - 1;
      if FreeUnit(h', u) {
        var a :| a in h'.nodes && InBlock(h', a, u);
        assert a in h'.nodes + h'.live;
      } else {
        assert bp in h'.nodes + h'.live;
      }
    }
  }

  lemma EndsBelow(h: Heap, h': Heap, hp: nat, grown: nat, bp: nat, n: nat, a: nat)
    requires Wf(h) && Below(h, hp) && Malloced(h, h', hp, grown, bp, n) && a in h'.nodes + h'.live
    ensures a in h'.size && a + h'.size[a] <= hp + grown
  {
    hide Circular, Coalesced;
    if a in h'.live && a != bp {
      assert a in h.nodes + h.live;
    } else if a != h.base {
      var u := a + h'.size[a] - 1;
      if a in h'.nodes {
        assert InBlock(h', a, u);
        assert FreeUnit(h', u);
      }
      if FreeUnit(h, u) {
        UnitsBelow(h, hp, u);
      }
    }
  }

  lemma Enough(h: Heap, p: nat, n: nat)
    requires p in h.nodes && p in h.size && h.size[p] >= n
    ensures Available(h, n)
  {
  }

  lemma FreedNow(h: Heap, p: nat, bp: nat)
    requires Wf(h) && bp in h.live && Fits(h, p, bp)
    ensures p in h.ptr && Freed(h, Released(h, p, bp), bp)
    ensures Wf(Released(h, p, bp)) && p in Released(h, p, bp).nodes
  {
    hide Wf, FreeUnit;
    ReleaseKeeps(h, p, bp);
    ReleaseCovers(h, p, bp);
  }

  /** Which neighbours touch the block being freed. */
  lemma LinkFacts(h: Heap, p: nat, bp: nat)
    requires Wf(h) && bp in h.live && Fits(h, p, bp)
    ensures p in h.ptr && bp in h.size && p in h.size && h.ptr[p] in h.size && h.ptr[p] in h.ptr && p >= h.base
    ensures Touches(Joined(h, p, bp), bp) <==> bp + h.size[bp] == h.ptr[p]
    ensures Touches(AbsorbIf(Joined(h, p, bp), bp), p) <==> p + h.size[p] == bp
    ensures p < bp && bp != h.ptr[p]
  {
    NodeFacts(h, p);
    assert Linked(h, p);
  }
}
