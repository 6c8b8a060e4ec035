/**
 The frame allocator (kernel/kalloc.c): a list of free pages threaded through
 the pages themselves. It refines the sequence of free frames that the page-table
 code relies on.
 */
module Kmem {
  import opened Seqs

  const PGSIZE: nat := 4096
  const KERNBASE: nat := 0x8000_0000
  const PHYSTOP: nat := KERNBASE + 128 * 1024 * 1024

  /** What a page holds: the run structure of a free page over bytes of one value, or bytes. */
  datatype Page = Run(next: nat, fill: nat) | Bytes(fill: nat)

  /** The list from address p on is s; 0 is the null pointer. */
  ghost predicate Chain(page: map<nat, Page>, p: nat, s: seq<nat>)
    decreases |s|
  {
    if s == [] then p == 0
    else p == s[0] && p != 0 && p in page && page[p].Run? && Chain(page, page[p].next, s[1..])
  }

  lemma {:induction false} ChainFrame(page: map<nat, Page>, page': map<nat, Page>, p: nat, s: seq<nat>)
    requires Chain(page, p, s) && forall x | x in s :: x in page && x in page' && page'[x] == page[x]
    ensures Chain(page', p, s)
    decreases |s|
  {
    if s != [] {
      ChainFrame(page, page', page[p].next, s[1..]);
    }
  }

  function PgRoundUp(a: nat): nat {
    (a + PGSIZE - 1) / PGSIZE * PGSIZE
  }

  /** The pages that lie wholly between two addresses. */
  predicate Inside(p: nat, lo: nat, hi: nat) {
    p % PGSIZE == 0 && lo <= p && p + PGSIZE <= hi
  }

  /** Page addresses from the first one at or after lo on are p0, p0 + PGSIZE, and so on. */
  lemma NextPage(p: nat, q: nat)
    requires p % PGSIZE == 0 && q % PGSIZE == 0 && q < p + PGSIZE
    ensures q <= p
  {
  }

  class Allocator {
    const end: nat
    var freelist: nat
    var page: map<nat, Page>
    ghost var free: seq<nat>

    ghost predicate Valid()
      reads this
    {
      && Chain(page, freelist, free) && Distinct(free)
      && (forall p | p in free :: p in page && p % PGSIZE == 0 && end <= p < PHYSTOP) && 0 < end
    }

    /** kfree: the page goes to the front of the list. It panics exactly for an address that is not that of
        a page of free memory. */
    method Kfree(pa: nat) returns (panicked: bool)
      requires Valid() && pa !in free
      modifies this
      ensures Valid() && (panicked <==> pa % PGSIZE != 0 || pa < end || pa >= PHYSTOP)
      ensures free == if panicked then old(free) else [pa] + old(free)
      ensures !panicked ==> pa in page && page == old(page)[pa := page[pa]]
    {
      panicked := pa % PGSIZE != 0 || pa < end || pa >= PHYSTOP;
      if panicked {
        return;
      }
      page := page[pa := Bytes(1)];
      page := page[pa := Run(freelist, 1)];
      ChainFrame(old(page), page, freelist, free);
      InFront(pa, free);
      assert ([pa] + free)[1..] == free;
      freelist := pa;
      free := [pa] + free;
    }

    /** kalloc: the page at the front of the list, 0 when there is none. */
    method Kalloc() returns (pa: nat)
      requires Valid()
      modifies this
      ensures Valid() && (pa == 0 <==> old(free) == [])
      ensures pa == 0 ==> free == [] && page == old(page)
      ensures pa != 0 ==> [pa] + free == old(free) && pa !in free && page == old(page)[pa := Bytes(5)]
    {
      pa := freelist;
      if pa != 0 {
        HeadTail(free);
        assert [pa] + free[1..] == free;
        freelist := page[pa].next;
        free := free[1..];
        page := page[pa := Bytes(5)];
        ChainFrame(old(page), page, freelist, free);
      }
    }

    /** freerange: exactly the whole pages of the range become free. */
    method FreeRange(lo: nat, hi: nat) returns (panicked: bool)
      requires Valid() && end <= lo && hi <= PHYSTOP && forall p | p in free :: !Inside(p, lo, hi)
      modifies this
      ensures !panicked && Valid()
      ensures forall p: nat :: p in free <==> p in old(free) || Inside(p, lo, hi)
    {
      panicked := false;
      var p := PgRoundUp(lo);
      while p + PGSIZE <= hi
        invariant Valid() && lo <= p && p % PGSIZE == 0 && !panicked
        invariant forall q: nat :: q in free <==> q in old(free) || (Inside(q, lo, hi) && q < p)
        invariant forall q: nat | Inside(q, lo, hi) :: q >= PgRoundUp(lo)
        decreases hi - p
      {
        panicked := Kfree(p);
        forall q: nat
          ensures q in free <==> q in old(free) || (Inside(q, lo, hi) && q < p + PGSIZE)
        {
          if Inside(q, lo, hi) && q < p + PGSIZE {
            NextPage(p, q);
          }
        }
        p := p + PGSIZE;
      }
    }
  }
}
