/**
 * The Kernighan and Ritchie allocator of user/umalloc.c.
 *
 * Addresses count Header-sized units of one user address space: `mem[a]` is the unit at address `a`.
 * A block is a header followed by its payload; the free blocks form a circular list through `base`.
 */
module Umalloc {
  import opened Common

  /** One unit of memory, read as a header. */
  datatype Header = Header(ptr: nat, size: nat)

  const NULL: nat := 0
  const MIN_CORE: nat := 4096
  const SIZEOF_HEADER: nat := 16

  /** Units for a request of `nbytes` bytes and its header. */
  function Units(nbytes: nat): (n: nat)
    ensures n >= 1 && (n - 1) * SIZEOF_HEADER >= nbytes
    ensures n >= 2 ==> (n - 2) * SIZEOF_HEADER < nbytes
  {
    (nbytes + SIZEOF_HEADER - 1) / SIZEOF_HEADER + 1
  }

  /** `order` lists the free headers, `base` first; following `ptr` runs through it and round again. */
  ghost predicate Ring(mem: seq<Header>, base: nat, order: seq<nat>) {
    && |order| > 0 && order[0] == base
    && (forall i :: 0 <= i < |order| ==> order[i] < |mem|)
    && (forall i :: 0 <= i < |order| ==> LinkOk(mem, order, i))
  }

  ghost predicate LinkOk(mem: seq<Header>, order: seq<nat>, i: nat)
    requires i < |order|
  {
    order[i] < |mem| && mem[order[i]].ptr == order[Succ(i, |order|)]
  }

  /** Address-ordered and disjoint; `base` is an empty block. */
  ghost predicate Ordered(mem: seq<Header>, base: nat, order: seq<nat>)
    requires Ring(mem, base, order)
  {
    && mem[base].size == 0
    && forall i, j :: 0 <= i < j < |order| ==> order[i] < order[j] && order[i] + mem[order[i]].size <= order[j]
  }

  /** Fully coalesced: some unit separates any two neighbours of the list. */
  ghost predicate Coalesced(mem: seq<Header>, base: nat, order: seq<nat>)
    requires Ring(mem, base, order)
  {
    forall i :: 0 <= i < |order| - 1 ==> !Adjacent(mem, base, order, i)
  }

  ghost predicate Adjacent(mem: seq<Header>, base: nat, order: seq<nat>, i: nat)
    requires Ring(mem, base, order) && i < |order| - 1
  {
    order[i] + mem[order[i]].size == order[i + 1]
  }

  /** The headers of all blocks, live or free. */
  ghost function Heads(base: nat, order: seq<nat>, live: set<nat>): set<nat> {
    live + (set h | h in order && h != base)
  }

  function SizeAt(mem: seq<Header>, h: nat): nat {
    if h < |mem| then mem[h].size else 0
  }

  /**
   * `own` gives each unit obtained from sbrk the header of its block. Being a function, it puts each unit in one
   * block only; every block, free or live, is exactly the run of units that name its header.
   */
  ghost predicate Tiled(mem: seq<Header>, base: nat, heads: set<nat>, own: map<nat, nat>) {
    && (forall h :: h in heads ==> base < h && 0 < SizeAt(mem, h) && h + SizeAt(mem, h) <= |mem|)
    && (forall h, u :: h in heads && InBlock(mem, h, u) ==> u in own && own[u] == h)
    && (forall u :: u in own ==> own[u] in heads && InBlock(mem, own[u], u))
  }

  ghost predicate InBlock(mem: seq<Header>, h: nat, u: nat) {
    h <= u < h + SizeAt(mem, h)
  }

  ghost predicate Partition(mem: seq<Header>, base: nat, order: seq<nat>, live: set<nat>, own: map<nat, nat>) {
    && Tiled(mem, base, Heads(base, order, live), own)
    && (forall i :: 0 <= i < |order| ==> order[i] !in live)
  }

  ghost predicate Shape(mem: seq<Header>, base: nat, order: seq<nat>, live: set<nat>, own: map<nat, nat>) {
    && NULL < base < |mem|
    && Ring(mem, base, order) && Ordered(mem, base, order) && Partition(mem, base, order, live, own)
  }

  ghost predicate Inv(mem: seq<Header>, base: nat, order: seq<nat>, live: set<nat>, own: map<nat, nat>) {
    Shape(mem, base, order, live, own) && Coalesced(mem, base, order)
  }

  /** The gap of the list a block at `bp` falls into. */
  ghost predicate Gap(order: seq<nat>, bp: nat, t: nat) {
    t < |order| && order[t] < bp && (t + 1 < |order| ==> bp < order[t + 1])
  }

  lemma GapExists(order: seq<nat>, bp: nat, k: nat) returns (t: nat)
    requires bp !in order && k < |order| && order[k] < bp
    ensures Gap(order, bp, t)
    decreases |order| - k
  {
    if k + 1 == |order| || bp < order[k + 1] {
      t := k;
    } else {
      t := GapExists(order, bp, k + 1);
    }
  }

  ghost function Relabel(own: map<nat, nat>, lo: nat, hi: nat, h: nat): (r: map<nat, nat>)
    ensures r.Keys == own.Keys
    ensures forall u :: u in own ==> r[u] == (if lo <= u < hi then h else own[u])
  {
    map u | u in own :: if lo <= u < hi then h else own[u]
  }

  function Linked(mem: seq<Header>, p: nat, bp: nat): (r: seq<Header>)
    requires p < |mem| && bp < |mem|
  {
    mem[bp := mem[bp].(ptr := mem[p].ptr)][p := mem[p].(ptr := bp)]
  }

  function Merged(mem: seq<Header>, a: nat, b: nat): (r: seq<Header>)
    requires a < |mem| && b < |mem|
  {
    mem[a := Header(mem[b].ptr, mem[a].size + mem[b].size)]
  }

  ghost function InsertAt(order: seq<nat>, i: nat, h: nat): seq<nat>
    requires i <= |order|
  {
    order[..i] + [h] + order[i..]
  }

  ghost function RemoveAt(order: seq<nat>, i: nat): seq<nat>
    requires i < |order|
  {
    order[..i] + order[i + 1..]
  }

  /** Linking a live block into its gap turns it into a free block and moves no unit. */
  lemma LinkKeepsShape(mem: seq<Header>, base: nat, order: seq<nat>, live: set<nat>, own: map<nat, nat>, bp: nat,
                       t: nat)
    requires Shape(mem, base, order, live, own) && bp in live && Gap(order, bp, t)
    ensures order[t] < |mem| && bp < |mem|
    ensures Shape(Linked(mem, order[t], bp), base, InsertAt(order, t + 1, bp), live - {bp}, own)
  {
    assert bp in Heads(base, order, live);
    forall i | 0 <= i < |order| ensures Apart(mem, bp, order[i]) {
      LiveApart(mem, base, order, live, own, bp, i);
    }
    LinkKeepsRing(mem, base, order, bp, t);
    LinkKeepsOrdered(mem, base, order, bp, t);
    LinkKeepsPartition(mem, base, order, live, own, bp, t);
  }

  lemma LinkKeepsPartition(mem: seq<Header>, base: nat, order: seq<nat>, live: set<nat>, own: map<nat, nat>, bp: nat,
                           t: nat)
    requires Partition(mem, base, order, live, own)
    requires base < |mem| && bp in live && t < |order| && order[t] < |mem| && bp < |mem| && base !in live
    ensures Partition(Linked(mem, order[t], bp), base, InsertAt(order, t + 1, bp), live - {bp}, own)
  {
    var mem', order' := Linked(mem, order[t], bp), InsertAt(order, t + 1, bp);
    assert order == order[..t + 1] + order[t + 1..];
    assert forall h: nat :: h in order' <==> h == bp || h in order;
    assert Heads(base, order', live - {bp}) == Heads(base, order, live);
    SameSizesKeepTiling(mem, mem', base, Heads(base, order, live), own);
  }

  ghost predicate Increasing(order: seq<nat>) {
    forall i, j :: 0 <= i < j < |order| ==> order[i] < order[j]
  }

  lemma LinkKeepsRing(mem: seq<Header>, base: nat, order: seq<nat>, bp: nat, t: nat)
    requires Ring(mem, base, order) && Increasing(order) && Gap(order, bp, t) && bp !in order && bp < |mem|
    ensures Ring(Linked(mem, order[t], bp), base, InsertAt(order, t + 1, bp))
  {
    var mem', order' := Linked(mem, order[t], bp), InsertAt(order, t + 1, bp);
    forall i | 0 <= i < |order'| ensures LinkOk(mem', order', i) {
      LinkOne(mem, base, order, bp, t, i);
    }
  }

  lemma LinkOne(mem: seq<Header>, base: nat, order: seq<nat>, bp: nat, t: nat, i: nat)
    requires Ring(mem, base, order) && Increasing(order) && Gap(order, bp, t) && bp !in order && bp < |mem|
    requires i <= |order|
    ensures LinkOk(Linked(mem, order[t], bp), InsertAt(order, t + 1, bp), i)
  {
    var mem', order' := Linked(mem, order[t], bp), InsertAt(order, t + 1, bp);
    assert LinkOk(mem, order, if i <= t then i else i - 1);
    if i <= t {
      assert order'[i] == order[i];
    } else if i == t + 1 {
      assert order'[i] == bp;
    } else {
      assert order'[i] == order[i - 1];
    }
  }

  /** Neither of two blocks starts inside the other. */
  ghost predicate Apart(mem: seq<Header>, a: nat, b: nat)
    requires a < |mem| && b < |mem|
  {
    (a < b ==> a + mem[a].size <= b) && (b < a ==> b + mem[b].size <= a)
  }

  lemma LinkKeepsOrdered(mem: seq<Header>, base: nat, order: seq<nat>, bp: nat, t: nat)
    requires Ring(mem, base, order) && Ordered(mem, base, order) && Gap(order, bp, t) && bp !in order && bp < |mem|
    requires forall i :: 0 <= i < |order| ==> Apart(mem, bp, order[i])
    requires Ring(Linked(mem, order[t], bp), base, InsertAt(order, t + 1, bp))
    ensures Ordered(Linked(mem, order[t], bp), base, InsertAt(order, t + 1, bp))
  {
    var mem', order' := Linked(mem, order[t], bp), InsertAt(order, t + 1, bp);
    forall i, j | 0 <= i < j < |order'| ensures order'[i] < order'[j] && order'[i] + mem'[order'[i]].size <= order'[j] {
      var i0, j0 := if i <= t then i else i - 1, if j <= t then j else j - 1;
      assert i != t + 1 ==> order'[i] == order[i0];
      assert j != t + 1 ==> order'[j] == order[j0];
      assert Apart(mem, bp, order[i0]) && Apart(mem, bp, order[j0]);
    }
  }

  /** A live block lies wholly below or wholly above each free block. */
  lemma LiveApart(mem: seq<Header>, base: nat, order: seq<nat>, live: set<nat>, own: map<nat, nat>, bp: nat, i: nat)
    requires Shape(mem, base, order, live, own) && bp in live && i < |order| && bp < |mem|
    ensures Apart(mem, bp, order[i])
  {
    assert bp in Heads(base, order, live);
    if i > 0 {
      var a := order[i];
      assert a in Heads(base, order, live);
      assert InBlock(mem, bp, bp) && InBlock(mem, a, a);
      assert !InBlock(mem, bp, a) && !InBlock(mem, a, bp);
    }
  }

  /** Merging a free block with the adjacent one above it hands over the units of the upper block. */
  lemma MergeKeepsShape(mem: seq<Header>, base: nat, order: seq<nat>, live: set<nat>, own: map<nat, nat>, i: nat)
    requires Shape(mem, base, order, live, own) && i < |order| - 1 && Adjacent(mem, base, order, i)
    ensures var a, b := order[i], order[i + 1];
            Shape(Merged(mem, a, b), base, RemoveAt(order, i + 1), live, Relabel(own, b, b + mem[b].size, a))
  {
    MergeKeepsOrder(mem, base, order, i);
    MergeKeepsPartition(mem, base, order, live, own, i);
  }

  lemma MergeKeepsOrder(mem: seq<Header>, base: nat, order: seq<nat>, i: nat)
    requires Ring(mem, base, order) && Ordered(mem, base, order)
    requires i < |order| - 1 && Adjacent(mem, base, order, i)
    ensures var mem', order' := Merged(mem, order[i], order[i + 1]), RemoveAt(order, i + 1);
            Ring(mem', base, order') && Ordered(mem', base, order')
  {
    var mem', order' := Merged(mem, order[i], order[i + 1]), RemoveAt(order, i + 1);
    forall j | 0 <= j < |order'| ensures LinkOk(mem', order', j) {
      RemoveKeepsLink(mem, mem', order, i, j);
    }
    assert forall j :: 0 <= j < |order'| ==> order'[j] == order[if j <= i then j else j + 1];
    forall j, k | 0 <= j < k < |order'| ensures order'[j] < order'[k] && order'[j] + mem'[order'[j]].size <= order'[k] {
      assert j != i ==> order'[j] != order[i];
    }
  }

  /** Taking `order[i + 1]` out of a ring only asks its predecessor to take over its link. */
  lemma RemoveKeepsLink(mem: seq<Header>, mem': seq<Header>, order: seq<nat>, i: nat, j: nat)
    requires |mem'| == |mem| && i < |order| - 1 && j < |order| - 1
    requires forall k :: 0 <= k < |order| ==> LinkOk(mem, order, k)
    requires order[i] < |mem| && order[i + 1] < |mem| && mem'[order[i]].ptr == mem[order[i + 1]].ptr
    requires forall k :: 0 <= k < |order| && k != i ==> order[k] < |mem| && mem'[order[k]].ptr == mem[order[k]].ptr
    ensures LinkOk(mem', RemoveAt(order, i + 1), j)
  {
    assert LinkOk(mem, order, if j <= i then j else j + 1) && LinkOk(mem, order, i + 1);
    var order' := RemoveAt(order, i + 1);
    assert order'[j] == order[if j <= i then j else j + 1];
    var n := Succ(j, |order'|);
    assert order'[n] == order[if n <= i then n else n + 1];
  }

  lemma MergeKeepsPartition(mem: seq<Header>, base: nat, order: seq<nat>, live: set<nat>, own: map<nat, nat>, i: nat)
    requires Partition(mem, base, order, live, own) && Increasing(order)
    requires 1 <= i < |order| - 1 && order[0] == base && order[i] + SizeAt(mem, order[i]) == order[i + 1]
    ensures order[i] < |mem| && order[i + 1] < |mem|
    ensures var a, b := order[i], order[i + 1];
            Partition(Merged(mem, a, b), base, RemoveAt(order, i + 1), live, Relabel(own, b, b + mem[b].size, a))
  {
    hide Tiled, InsertAt;
    var a, b, heads := order[i], order[i + 1], Heads(base, order, live);
    assert a in heads && b in heads;
    HeadFits(mem, base, heads, own, a);
    HeadFits(mem, base, heads, own, b);
    RemoveFromHeads(base, order, live, i + 1);
    MergeKeepsTiling(mem, base, heads, own, a, b);
  }

  lemma HeadFits(mem: seq<Header>, base: nat, heads: set<nat>, own: map<nat, nat>, h: nat)
    requires Tiled(mem, base, heads, own) && h in heads
    ensures base < h < |mem| && 0 < mem[h].size && h + mem[h].size <= |mem|
  {
  }

  lemma RemoveFromHeads(base: nat, order: seq<nat>, live: set<nat>, i: nat)
    requires Increasing(order) && 1 <= i < |order| && order[0] == base
    requires forall k :: 0 <= k < |order| ==> order[k] !in live
    ensures Heads(base, RemoveAt(order, i), live) == Heads(base, order, live) - {order[i]}
    ensures forall k :: 0 <= k < |order| - 1 ==> RemoveAt(order, i)[k] !in live && RemoveAt(order, i)[k] in order
  {
    var order', b := RemoveAt(order, i), order[i];
    assert forall k :: 0 <= k < |order'| ==> order'[k] == order[if k < i then k else k + 1];
    assert order == order[..i] + [b] + order[i + 1..];
    assert forall h: nat :: h in order <==> h == b || h in order';
  }

  lemma SameSizesKeepTiling(mem: seq<Header>, mem': seq<Header>, base: nat, heads: set<nat>, own: map<nat, nat>)
    requires Tiled(mem, base, heads, own) && |mem'| == |mem|
    requires forall h :: h in heads ==> SizeAt(mem', h) == SizeAt(mem, h)
    ensures Tiled(mem', base, heads, own)
  {
    forall h, u: nat | h in heads ensures InBlock(mem', h, u) == InBlock(mem, h, u) {
    }
  }

  lemma MergeKeepsTiling(mem: seq<Header>, base: nat, heads: set<nat>, own: map<nat, nat>, a: nat, b: nat)
    requires Tiled(mem, base, heads, own) && a in heads && b in heads && a + SizeAt(mem, a) == b
    ensures Tiled(Merged(mem, a, b), base, heads - {b}, Relabel(own, b, b + mem[b].size, a))
  {
    var mem', own' := Merged(mem, a, b), Relabel(own, b, b + mem[b].size, a);
    MergedBlocks(mem, a, b);
    forall h, u | h in heads - {b} && InBlock(mem', h, u) ensures u in own' && own'[u] == h {
      assert InBlock(mem, h, u) || InBlock(mem, b, u);
    }
    forall u | u in own' ensures own'[u] in heads - {b} && InBlock(mem', own'[u], u) {
      assert InBlock(mem, b, u) <==> own[u] == b;
    }
  }

  lemma MergedBlocks(mem: seq<Header>, a: nat, b: nat)
    requires a < b < |mem| && a + mem[a].size == b
    ensures forall u: nat :: InBlock(Merged(mem, a, b), a, u) <==> InBlock(mem, a, u) || InBlock(mem, b, u)
    ensures forall h: nat, u: nat :: h != a ==> InBlock(Merged(mem, a, b), h, u) == InBlock(mem, h, u)
  {
  }

  /** The tail of block `h` split off as a block of `n` units. */
  function Split(mem: seq<Header>, h: nat, n: nat): (r: seq<Header>)
    requires h < |mem| && 0 < n < mem[h].size && h + mem[h].size <= |mem|
  {
    var q := h + mem[h].size - n;
    mem[h := mem[h].(size := mem[h].size - n)][q := mem[q].(size := n)]
  }

  lemma SplitSizes(mem: seq<Header>, h: nat, n: nat, g: nat)
    requires h < |mem| && 0 < n < mem[h].size && h + mem[h].size <= |mem|
    ensures var q := h + mem[h].size - n;
            SizeAt(Split(mem, h, n), g) == if g == q then n else if g == h then mem[h].size - n else SizeAt(mem, g)
  {
  }

  lemma SplitIsNew(mem: seq<Header>, base: nat, heads: set<nat>, own: map<nat, nat>, h: nat, n: nat)
    requires Tiled(mem, base, heads, own) && h in heads && 0 < n < SizeAt(mem, h)
    ensures h + mem[h].size - n !in heads
  {
    var q := h + mem[h].size - n;
    assert InBlock(mem, h, q);
    assert q in heads ==> InBlock(mem, q, q);
  }

  lemma SplitOwns(mem: seq<Header>, base: nat, heads: set<nat>, own: map<nat, nat>, h: nat, n: nat, g: nat, u: nat)
    requires Tiled(mem, base, heads, own) && h in heads && 0 < n < SizeAt(mem, h)
    requires var q := h + mem[h].size - n; g in heads + {q} && q !in heads && InBlock(Split(mem, h, n), g, u)
    ensures var q := h + mem[h].size - n; var own' := Relabel(own, q, q + n, q); u in own' && own'[u] == g
  {
    hide Split;
    SplitSizes(mem, h, n, g);
    assert InBlock(mem, if g in heads then g else h, u);
  }

  lemma SplitBelongs(mem: seq<Header>, base: nat, heads: set<nat>, own: map<nat, nat>, h: nat, n: nat, u: nat)
    requires Tiled(mem, base, heads, own) && h in heads && 0 < n < SizeAt(mem, h) && u in own
    ensures var q := h + mem[h].size - n;
            var own' := Relabel(own, q, q + n, q);
            u in own' && own'[u] in heads + {q} && InBlock(Split(mem, h, n), own'[u], u)
  {
    hide Split;
    var q := h + mem[h].size - n;
    SplitIsNew(mem, base, heads, own, h, n);
    SplitSizes(mem, h, n, if q <= u < q + n then q else own[u]);
    assert InBlock(mem, own[u], u);
  }

  lemma SplitKeepsTiling(mem: seq<Header>, base: nat, heads: set<nat>, own: map<nat, nat>, h: nat, n: nat)
    requires Tiled(mem, base, heads, own) && h in heads && 0 < n < SizeAt(mem, h)
    ensures var q := h + mem[h].size - n;
            q !in heads && Tiled(Split(mem, h, n), base, heads + {q}, Relabel(own, q, q + n, q))
  {
    hide InBlock;
    var q, mem' := h + mem[h].size - n, Split(mem, h, n);
    var own' := Relabel(own, q, q + n, q);
    SplitIsNew(mem, base, heads, own, h, n);
    forall g, u | g in heads + {q} && InBlock(mem', g, u) ensures u in own' && own'[u] == g {
      SplitOwns(mem, base, heads, own, h, n, g, u);
    }
    forall u | u in own' ensures own'[u] in heads + {q} && InBlock(mem', own'[u], u) {
      SplitBelongs(mem, base, heads, own, h, n, u);
    }
  }

  /** Splitting a free block makes its tail a live block and moves no other unit. */
  lemma SplitKeepsInv(mem: seq<Header>, base: nat, order: seq<nat>, live: set<nat>, own: map<nat, nat>, i: nat, n: nat)
    requires Inv(mem, base, order, live, own) && i < |order| && 0 < n < mem[order[i]].size
    ensures order[i] + mem[order[i]].size <= |mem|
    ensures var q := order[i] + mem[order[i]].size - n;
            q !in live && Inv(Split(mem, order[i], n), base, order, live + {q}, Relabel(own, q, q + n, q))
  {
    assert i > 0;
    SplitKeepsPartition(mem, base, order, live, own, i, n);
    SplitKeepsOrder(mem, base, order, i, n);
  }

  lemma SplitKeepsPartition(mem: seq<Header>, base: nat, order: seq<nat>, live: set<nat>, own: map<nat, nat>, i: nat,
                            n: nat)
    requires Partition(mem, base, order, live, own) && 0 < i < |order| && order[0] == base && Increasing(order)
    requires 0 < n < SizeAt(mem, order[i])
    ensures order[i] + mem[order[i]].size <= |mem|
    ensures var q := order[i] + mem[order[i]].size - n;
            && q !in live && q !in order
            && Partition(Split(mem, order[i], n), base, order, live + {q}, Relabel(own, q, q + n, q))
  {
    hide Tiled, Split;
    var h, heads := order[i], Heads(base, order, live);
    assert h in heads;
    HeadFits(mem, base, heads, own, h);
    var q := h + mem[h].size - n;
    assert forall j :: 0 < j < |order| ==> order[j] in heads;
    SplitKeepsTiling(mem, base, heads, own, h, n);
    assert Heads(base, order, live + {q}) == heads + {q};
  }

  lemma SplitKeepsOrder(mem: seq<Header>, base: nat, order: seq<nat>, i: nat, n: nat)
    requires Ring(mem, base, order) && Ordered(mem, base, order) && Coalesced(mem, base, order)
    requires i < |order| && 0 < n < mem[order[i]].size && order[i] + mem[order[i]].size <= |mem|
    requires order[i] + mem[order[i]].size - n !in order
    ensures var mem' := Split(mem, order[i], n);
            Ring(mem', base, order) && Ordered(mem', base, order) && Coalesced(mem', base, order)
  {
    var mem' := Split(mem, order[i], n);
    forall j | 0 <= j < |order| ensures LinkOk(mem', order, j) {
      assert LinkOk(mem, order, j);
    }
    forall j | 0 <= j < |order| - 1 ensures !Adjacent(mem', base, order, j) {
      assert !Adjacent(mem, base, order, j);
    }
  }

  /** The list without the free block after `order[i]`. */
  function Unlinked(mem: seq<Header>, p: nat, h: nat): (r: seq<Header>)
    requires p < |mem| && h < |mem|
  {
    mem[p := mem[p].(ptr := mem[h].ptr)]
  }

  /** Unlinking a free block makes it a live block and moves no unit. */
  lemma UnlinkKeepsInv(mem: seq<Header>, base: nat, order: seq<nat>, live: set<nat>, own: map<nat, nat>, i: nat)
    requires Inv(mem, base, order, live, own) && i < |order| - 1
    ensures var h := order[i + 1];
            Inv(Unlinked(mem, order[i], h), base, RemoveAt(order, i + 1), live + {h}, own)
  {
    var h, heads := order[i + 1], Heads(base, order, live);
    var mem', order' := Unlinked(mem, order[i], h), RemoveAt(order, i + 1);
    RemoveFromHeads(base, order, live, i + 1);
    assert Heads(base, order', live + {h}) == heads;
    SameSizesKeepTiling(mem, mem', base, heads, own);
    UnlinkKeepsOrder(mem, base, order, i);
  }

  lemma UnlinkKeepsOrder(mem: seq<Header>, base: nat, order: seq<nat>, i: nat)
    requires Ring(mem, base, order) && Ordered(mem, base, order) && Coalesced(mem, base, order) && i < |order| - 1
    ensures var mem', order' := Unlinked(mem, order[i], order[i + 1]), RemoveAt(order, i + 1);
            Ring(mem', base, order') && Ordered(mem', base, order') && Coalesced(mem', base, order')
  {
    var mem', order' := Unlinked(mem, order[i], order[i + 1]), RemoveAt(order, i + 1);
    assert Ring(mem', base, order') by {
      forall j | 0 <= j < |order'| ensures LinkOk(mem', order', j) {
        RemoveKeepsLink(mem, mem', order, i, j);
      }
    }
    UnlinkKeepsSpacing(mem, mem', base, order, i);
  }

  lemma UnlinkKeepsSpacing(mem: seq<Header>, mem': seq<Header>, base: nat, order: seq<nat>, i: nat)
    requires Ring(mem, base, order) && Ordered(mem, base, order) && Coalesced(mem, base, order) && i < |order| - 1
    requires Ring(mem', base, RemoveAt(order, i + 1)) && |mem'| == |mem|
    requires forall h :: 0 <= h < |mem| ==> mem'[h].size == mem[h].size
    ensures Ordered(mem', base, RemoveAt(order, i + 1)) && Coalesced(mem', base, RemoveAt(order, i + 1))
  {
    var order' := RemoveAt(order, i + 1);
    assert forall j :: 0 <= j < |order'| ==> order'[j] == order[if j <= i then j else j + 1];
    forall j | 0 <= j < |order'| - 1 ensures !Adjacent(mem', base, order', j) {
      assert j == i ==> order[i] + mem[order[i]].size <= order[i + 1] < order[i + 2];
      assert j == i || !Adjacent(mem, base, order, if j < i then j else j + 1);
    }
  }

  lemma LinkAdjacency(mem: seq<Header>, base: nat, order: seq<nat>, bp: nat, t: nat, j: nat)
    requires Ring(mem, base, order) && t < |order| && bp < |mem| && bp !in order && Coalesced(mem, base, order)
    requires Ring(Linked(mem, order[t], bp), base, InsertAt(order, t + 1, bp))
    requires j < |order| && j != t && j != t + 1
    ensures !Adjacent(Linked(mem, order[t], bp), base, InsertAt(order, t + 1, bp), j)
  {
    var order' := InsertAt(order, t + 1, bp);
    var k := if j < t then j else j - 1;
    assert order'[j] == order[k] && order'[j + 1] == order[k + 1];
    assert !Adjacent(mem, base, order, k);
  }

  lemma MergeAdjacency(mem: seq<Header>, base: nat, order: seq<nat>, i: nat, j: nat)
    requires Ring(mem, base, order) && Ordered(mem, base, order) && i < |order| - 1 && Adjacent(mem, base, order, i)
    requires Ring(Merged(mem, order[i], order[i + 1]), base, RemoveAt(order, i + 1))
    requires j < |order| - 2
    ensures Adjacent(Merged(mem, order[i], order[i + 1]), base, RemoveAt(order, i + 1), j)
       <==> Adjacent(mem, base, order, if j < i then j else j + 1)
  {
    var order' := RemoveAt(order, i + 1);
    assert order'[j] == order[if j <= i then j else j + 1];
    assert order'[j + 1] == order[if j + 1 <= i then j + 1 else j + 2];
  }

  /** The memory after `free`'s assignments for the block at `bp` just above free block `p`. */
  function Freed(mem: seq<Header>, p: nat, bp: nat): (r: seq<Header>)
    requires p < |mem| && bp < |mem| && mem[p].ptr < |mem|
  {
    var q := mem[p].ptr;
    var m1 := if bp + mem[bp].size == q then mem[bp := Header(mem[q].ptr, mem[bp].size + mem[q].size)]
              else mem[bp := mem[bp].(ptr := q)];
    if p + m1[p].size == bp then m1[p := Header(m1[bp].ptr, m1[p].size + m1[bp].size)]
    else m1[p := m1[p].(ptr := bp)]
  }

  lemma FreedDefinition(mem: seq<Header>, p: nat, bp: nat)
    requires p < |mem| && bp < |mem| && mem[p].ptr < |mem|
    ensures var q := mem[p].ptr;
            var m1 := if bp + mem[bp].size == q then mem[bp := Header(mem[q].ptr, mem[bp].size + mem[q].size)]
                      else mem[bp := mem[bp].(ptr := q)];
            Freed(mem, p, bp) == if p + m1[p].size == bp then m1[p := Header(m1[bp].ptr, m1[p].size + m1[bp].size)]
                                 else m1[p := m1[p].(ptr := bp)]
  {
  }

  /** The same as a link followed by at most two merges. */
  ghost function LinkedAndMerged(mem: seq<Header>, p: nat, bp: nat): (r: seq<Header>)
    requires p < |mem| && bp < |mem| && mem[p].ptr < |mem|
  {
    var q := mem[p].ptr;
    var m1 := Linked(mem, p, bp);
    var m2 := if bp + m1[bp].size == q then Merged(m1, bp, q) else m1;
    if p + m2[p].size == bp then Merged(m2, p, bp) else m2
  }

  lemma FreedIsLinkedAndMerged(mem: seq<Header>, base: nat, order: seq<nat>, live: set<nat>, own: map<nat, nat>,
                               bp: nat, t: nat)
    requires Inv(mem, base, order, live, own) && bp in live && Gap(order, bp, t) && bp < |mem|
    ensures order[t] < |mem| && mem[order[t]].ptr < |mem|
    ensures Freed(mem, order[t], bp) == LinkedAndMerged(mem, order[t], bp)
  {
    assert LinkOk(mem, order, t);
  }

  /** Freeing a live block keeps the invariant and the set of units. */
  lemma FreeKeepsInv(mem: seq<Header>, base: nat, order: seq<nat>, live: set<nat>, own: map<nat, nat>, bp: nat, t: nat)
    returns (order': seq<nat>, own': map<nat, nat>, k: nat)
    requires Inv(mem, base, order, live, own) && bp in live && Gap(order, bp, t)
    ensures bp < |mem| && NULL < order[t] < |mem| && mem[order[t]].ptr < |mem|
    ensures Inv(Freed(mem, order[t], bp), base, order', live - {bp}, own')
    ensures own'.Keys == own.Keys && t < |order'| && order'[t] == order[t]
    ensures Big(Freed(mem, order[t], bp), order', k, mem[bp].size)
  {
    hide Shape, Inv, Freed, Gap;
    LinkStep(mem, base, order, live, own, bp, t);
    var p := order[t];
    var q := mem[p].ptr;
    FreedIsLinkedAndMerged(mem, base, order, live, own, bp, t);
    var m1, o1 := Linked(mem, p, bp), InsertAt(order, t + 1, bp);
    assert o1[t] == p && o1[t + 1] == bp && o1[Succ(t + 1, |o1|)] == q;
    var m2, o2, w2 := CoalesceUp(m1, base, o1, live - {bp}, own, t + 1, q);
    assert o2[..t + 2][t] == p && o2[..t + 2][t + 1] == bp;
    order', own', k := CoalesceDown(m2, base, o2, live - {bp}, w2, t, bp);
  }

  lemma LinkStep(mem: seq<Header>, base: nat, order: seq<nat>, live: set<nat>, own: map<nat, nat>, bp: nat, t: nat)
    requires Inv(mem, base, order, live, own) && bp in live && Gap(order, bp, t)
    ensures t < |order| && bp < |mem| && NULL < order[t] < |mem| && mem[order[t]].ptr == order[Succ(t, |order|)] < |mem|
    ensures var m1, o1 := Linked(mem, order[t], bp), InsertAt(order, t + 1, bp);
            && Shape(m1, base, o1, live - {bp}, own)
            && (forall j :: 0 <= j < |o1| - 1 && j != t && j != t + 1 ==> !Adjacent(m1, base, o1, j))
  {
    LinkKeepsShape(mem, base, order, live, own, bp, t);
    assert LinkOk(mem, order, t);
    var m1, o1 := Linked(mem, order[t], bp), InsertAt(order, t + 1, bp);
    forall j | 0 <= j < |o1| - 1 && j != t && j != t + 1 ensures !Adjacent(m1, base, o1, j) {
      LinkAdjacency(mem, base, order, bp, t, j);
    }
  }

  /** `free`'s first test: join block `order[i]` with the block at `q` that follows it, if they touch. */
  lemma CoalesceUp(mem: seq<Header>, base: nat, order: seq<nat>, live: set<nat>, own: map<nat, nat>, i: nat, q: nat)
    returns (mem': seq<Header>, order': seq<nat>, own': map<nat, nat>)
    requires Shape(mem, base, order, live, own) && 1 <= i < |order| && q == order[Succ(i, |order|)]
    requires forall j :: 0 <= j < |order| - 1 && j != i - 1 && j != i ==> !Adjacent(mem, base, order, j)
    ensures q < |mem| && mem' == (if order[i] + mem[order[i]].size == q then Merged(mem, order[i], q) else mem)
    ensures Shape(mem', base, order', live, own') && own'.Keys == own.Keys
    ensures i < |order'| && order'[..i + 1] == order[..i + 1]
    ensures forall j :: 0 <= j < |order'| - 1 && j != i - 1 ==> !Adjacent(mem', base, order', j)
  {
    if order[i] + mem[order[i]].size == q {
      assert i < |order| - 1 && Adjacent(mem, base, order, i);
      MergeKeepsShape(mem, base, order, live, own, i);
      mem', order' := Merged(mem, order[i], q), RemoveAt(order, i + 1);
      own' := Relabel(own, q, q + mem[q].size, order[i]);
      forall j | 0 <= j < |order'| - 1 && j != i - 1 ensures !Adjacent(mem', base, order', j) {
        MergeAdjacency(mem, base, order, i, j);
      }
    } else {
      mem', order', own' := mem, order, own;
    }
  }

  /** `free`'s second test: join block `order[i]` with the block at `b` just above it, if they touch. */
  lemma CoalesceDown(mem: seq<Header>, base: nat, order: seq<nat>, live: set<nat>, own: map<nat, nat>, i: nat, b: nat)
    returns (order': seq<nat>, own': map<nat, nat>, k: nat)
    requires Shape(mem, base, order, live, own) && i < |order| - 1 && b == order[i + 1]
    requires forall j :: 0 <= j < |order| - 1 && j != i ==> !Adjacent(mem, base, order, j)
    ensures var mem' := if order[i] + mem[order[i]].size == b then Merged(mem, order[i], b) else mem;
            && Inv(mem', base, order', live, own')
            && Big(mem', order', k, mem[b].size)
    ensures own'.Keys == own.Keys && i < |order'| && order'[i] == order[i]
  {
    if order[i] + mem[order[i]].size == b {
      assert Adjacent(mem, base, order, i);
      MergeKeepsShape(mem, base, order, live, own, i);
      var mem' := Merged(mem, order[i], b);
      order' := RemoveAt(order, i + 1);
      own', k := Relabel(own, b, b + mem[b].size, order[i]), i;
      forall j | 0 <= j < |order'| - 1 ensures !Adjacent(mem', base, order', j) {
        MergeAdjacency(mem, base, order, i, j);
      }
    } else {
      order', own', k := order, own, i + 1;
    }
  }

  /** The sizes of a set of blocks, added up. */
  ghost function TotalUnits(mem: seq<Header>, heads: set<nat>): nat {
    if heads == {} then 0
    else var h :| h in heads; SizeAt(mem, h) + TotalUnits(mem, heads - {h})
  }

  /** Setting one block apart leaves a tiling by the others. */
  lemma OneBlock(mem: seq<Header>, base: nat, heads: set<nat>, own: map<nat, nat>, h: nat, block: set<nat>,
                 rest: map<nat, nat>)
    requires Tiled(mem, base, heads, own) && h in heads
    requires block == (set u | u in own && own[u] == h) && rest == (map u | u in own && own[u] != h :: own[u])
    ensures Tiled(mem, base, heads - {h}, rest) && |own.Keys| == SizeAt(mem, h) + |rest.Keys|
  {
    forall u: nat ensures u in block <==> InBlock(mem, h, u) {
    }
    IntervalSize(h, SizeAt(mem, h), block);
    assert own.Keys == block + rest.Keys && block !! rest.Keys;
  }

  /** Free plus allocated units are the units obtained from sbrk. */
  lemma {:induction false} Conservation(mem: seq<Header>, base: nat, heads: set<nat>, own: map<nat, nat>)
    requires Tiled(mem, base, heads, own)
    ensures TotalUnits(mem, heads) == |own.Keys|
    decreases heads
  {
    if heads == {} {
      assert own.Keys == {};
    } else {
      var h :| h in heads && TotalUnits(mem, heads) == SizeAt(mem, h) + TotalUnits(mem, heads - {h});
      var block := set u | u in own && own[u] == h;
      var rest := map u | u in own && own[u] != h :: own[u];
      OneBlock(mem, base, heads, own, h, block, rest);
      Conservation(mem, base, heads - {h}, rest);
    }
  }

  lemma {:induction false} IntervalSize(lo: nat, n: nat, s: set<nat>)
    requires forall u: nat :: u in s <==> lo <= u < lo + n
    ensures |s| == n
  {
    if n == 0 {
      assert s == {};
    } else {
      IntervalSize(lo, n - 1, s - {lo + n - 1});
    }
  }

  /** No unit of the blocks in `kept` has changed, neither header nor payload, nor moved to another block. */
  ghost predicate UnitsKept(mem: seq<Header>, own: map<nat, nat>, mem': seq<Header>, own': map<nat, nat>,
                            kept: set<nat>)
  {
    forall u :: u in own && own[u] in kept ==>
      u < |mem| && u < |mem'| && mem'[u] == mem[u] && u in own' && own'[u] == own[u]
  }

  lemma UnitsKeptReflexive(mem: seq<Header>, base: nat, order: seq<nat>, live: set<nat>, own: map<nat, nat>)
    requires Inv(mem, base, order, live, own)
    ensures UnitsKept(mem, own, mem, own, live)
  {
    forall u | u in own ensures u < |mem| {
      assert InBlock(mem, own[u], u);
    }
  }

  /** Blocks live before and after keep their units if the memory of those units does not change. */
  lemma UnitsFollow(mem: seq<Header>, base: nat, order: seq<nat>, live: set<nat>, own: map<nat, nat>,
                    mem': seq<Header>, order': seq<nat>, live': set<nat>, own': map<nat, nat>, kept: set<nat>)
    requires Inv(mem, base, order, live, own) && Inv(mem', base, order', live', own') && kept <= live && kept <= live'
    requires |mem| <= |mem'| && forall u :: u in own && own[u] in kept && u < |mem| ==> mem'[u] == mem[u]
    ensures UnitsKept(mem, own, mem', own', kept)
  {
    forall u | u in own && own[u] in kept
      ensures u < |mem| && mem'[u] == mem[u] && u in own' && own'[u] == own[u]
    {
      var h := own[u];
      assert h in Heads(base, order, live) && h in Heads(base, order', live');
      assert InBlock(mem, h, u) && InBlock(mem, h, h);
      assert InBlock(mem', h, u);
    }
  }

  lemma FreeKeepsUnits(mem: seq<Header>, base: nat, order: seq<nat>, live: set<nat>, own: map<nat, nat>, bp: nat,
                       t: nat, order': seq<nat>, own': map<nat, nat>)
    requires Inv(mem, base, order, live, own) && bp in live && Gap(order, bp, t)
    requires bp < |mem| && order[t] < |mem| && mem[order[t]].ptr < |mem|
    requires Inv(Freed(mem, order[t], bp), base, order', live - {bp}, own')
    ensures UnitsKept(mem, own, Freed(mem, order[t], bp), own', live - {bp})
  {
    assert bp in Heads(base, order, live) && InBlock(mem, bp, bp);
    FreeUnit(mem, base, order, live, own, t, order[t]);
    UnitsFollow(mem, base, order, live, own, Freed(mem, order[t], bp), order', live - {bp}, own', live - {bp});
  }

  /** No unit of a free block belongs to a live one. */
  lemma FreeUnit(mem: seq<Header>, base: nat, order: seq<nat>, live: set<nat>, own: map<nat, nat>, i: nat, u: nat)
    requires Inv(mem, base, order, live, own) && i < |order| && (u == order[i] || InBlock(mem, order[i], u))
    ensures NULL < order[i] < |mem| && order[i] + mem[order[i]].size <= |mem| && order[i] !in live
    ensures u in own ==> own[u] !in live
  {
    var h, heads := order[i], Heads(base, order, live);
    if i > 0 {
      assert h in heads && InBlock(mem, h, h);
    }
  }

  lemma StoreKeepsInv(mem: seq<Header>, base: nat, order: seq<nat>, live: set<nat>, own: map<nat, nat>, u: nat,
                      value: Header)
    requires Inv(mem, base, order, live, own) && u in own && own[u] in live && u != own[u]
    ensures u < |mem| && Inv(mem[u := value], base, order, live, own)
  {
    var heads, mem' := Heads(base, order, live), mem[u := value];
    assert u in heads ==> InBlock(mem, u, u);
    SameSizesKeepTiling(mem, mem', base, heads, own);
    assert forall i :: 0 < i < |order| ==> order[i] in heads;
    assert own[u] in heads && u > base;
    SameHeadersKeepOrder(mem, mem', base, order);
  }

  lemma SameHeadersKeepOrder(mem: seq<Header>, mem': seq<Header>, base: nat, order: seq<nat>)
    requires Ring(mem, base, order) && Ordered(mem, base, order) && Coalesced(mem, base, order) && |mem'| >= |mem|
    requires forall i :: 0 <= i < |order| ==> mem'[order[i]] == mem[order[i]]
    ensures Ring(mem', base, order) && Ordered(mem', base, order) && Coalesced(mem', base, order)
  {
    forall i | 0 <= i < |order| ensures LinkOk(mem', order, i) {
      assert LinkOk(mem, order, i);
    }
    forall i | 0 <= i < |order| - 1 ensures !Adjacent(mem', base, order, i) {
      assert !Adjacent(mem, base, order, i);
    }
  }

  /** `i` places after place `pos` of a ring of `k` blocks. */
  ghost function Along(pos: nat, i: nat, k: nat): (j: nat)
    requires pos < k && i <= k
    ensures j < k
  {
    if pos + i < k then pos + i else pos + i - k
  }

  /** The free list and `freep`'s place in it, the headers handed out, and the block of each unit. */
  datatype Book = Book(order: seq<nat>, pos: nat, live: set<nat>, own: map<nat, nat>)

  class Allocator {
    const base: nat         // address of the list's anchor block, in the program's static data
    var mem: seq<Header>    // the address space, up to the break
    var freep: nat
    ghost var g: Book

    ghost predicate Valid()
      reads this
    {
      && NULL < base < |mem|
      && (freep == NULL ==> g.order == [] && g.live == {} && g.own == map[])
      && (freep != NULL ==> Inv(mem, base, g.order, g.live, g.own) && g.pos < |g.order| && g.order[g.pos] == freep)
    }

    constructor (base: nat, brk: nat)
      requires NULL < base < brk
      ensures Valid() && g.live == {} && g.own == map[] && this.base == base && |mem| == brk
    {
      this.base := base;
      mem, freep := seq(brk, _ => Header(0, 0)), NULL;
      g := Book([], 0, {}, map[]);
    }

    /** The program stores into the payload of a block it holds. */
    method Store(u: nat, value: Header)
      requires Valid() && u in g.own && g.own[u] in g.live && u != g.own[u]
      modifies this`mem
      ensures Valid() && mem == old(mem)[u := value]
    {
      StoreKeepsInv(mem, base, g.order, g.live, g.own, u, value);
      mem := mem[u := value];
    }

    /** The search loop of `free`: the free block just below `bp`. */
    method FindGap(bp: nat) returns (p: nat, ghost t: nat)
      requires Valid() && bp in g.live
      ensures Gap(g.order, bp, t) && p == g.order[t]
      ensures p < bp && p < |mem| && (bp < mem[p].ptr || mem[p].ptr <= p)
    {
      assert bp in Heads(base, g.order, g.live);
      assert freep != NULL && g.order[0] < bp && bp !in g.order;
      t := GapExists(g.order, bp, 0);
      p := freep;
      ghost var i: nat := g.pos;
      while !(bp > p && bp < mem[p].ptr)
        invariant i < |g.order| && p == g.order[i] && p < |mem|
        invariant LinkOk(mem, g.order, i)
        decreases if i <= t then t - i else |g.order| - i + t
      {
        if p >= mem[p].ptr && (bp > p || bp < mem[p].ptr) {
          break;
        }
        p, i := mem[p].ptr, Succ(i, |g.order|);
        assert LinkOk(mem, g.order, i);
      }
      assert i == t;
    }

    /** Ghost result: a free block, at `g.order[k]`, that holds the freed units. */
    method Free(ap: nat) returns (ghost k: nat)
      requires Valid() && ap > 0 && ap - 1 in g.live
      modifies this
      ensures Valid() && freep != NULL && g.live == old(g.live) - {ap - 1} && g.own.Keys == old(g.own).Keys
              && |mem| == |old(mem)|
      ensures UnitsKept(old(mem), old(g.own), mem, g.own, g.live)
      ensures Big(mem, g.order, k, old(mem)[ap - 1].size)
    {
      hide Inv, UnitsKept, Freed;
      var bp := ap - 1;
      assert freep != NULL;
      var p, t := FindGap(bp);
      ghost var order', own', k' := FreeKeepsInv(mem, base, g.order, g.live, g.own, bp, t);
      FreeKeepsUnits(mem, base, g.order, g.live, g.own, bp, t, order', own');
      ghost var m0 := mem;
      if bp + mem[bp].size == mem[p].ptr {
        mem := mem[bp := Header(mem[mem[p].ptr].ptr, mem[bp].size + mem[mem[p].ptr].size)];
      } else {
        mem := mem[bp := mem[bp].(ptr := mem[p].ptr)];
      }
      if p + mem[p].size == bp {
        mem := mem[p := Header(mem[bp].ptr, mem[p].size + mem[bp].size)];
      } else {
        mem := mem[p := mem[p].(ptr := bp)];
      }
      FreedDefinition(m0, p, bp);
      freep := p;
      g, k := Book(order', t, g.live - {bp}, own'), k';
    }

    /** `grant` and `gap` stand for the kernel: whether sbrk succeeds, and how far other callers moved the break. */
    method Morecore(nunits: nat, grant: bool, gap: nat) returns (r: nat, ghost k: nat)
      requires Valid() && freep != NULL && nunits > 0
      modifies this
      ensures Valid() && freep != NULL && g.live == old(g.live)
      ensures !grant ==> && r == NULL && mem == old(mem) && freep == old(freep)
                         && g.order == old(g.order) && g.pos == old(g.pos) && g.own == old(g.own)
      ensures grant ==>
                r == freep && g.own.Keys == old(g.own).Keys + Labels(|old(mem)| + gap, CoreUnits(nunits), 0).Keys
      ensures grant ==> Big(mem, g.order, k, nunits)
      ensures UnitsKept(old(mem), old(g.own), mem, g.own, g.live)
    {
      hide Inv, UnitsKept;
      var nu := CoreUnits(nunits);
      UnitsKeptReflexive(mem, base, g.order, g.live, g.own);
      if !grant {
        return NULL, 0;
      }
      ghost var p, m0, w0, l0 := |mem| + gap, mem, g.own, g.live;
      GrowKeepsInv(mem, base, g.order, g.live, g.own, gap, nu);
      mem := Grown(mem, gap, nu);
      g := g.(own := g.own + Labels(p, nu, p), live := g.live + {p});
      ghost var m1, w1 := mem, g.own;
      k := Free(|mem| - nu + 1);
      assert g.live == l0;
      UnitsKeptTransitive(m0, w0, m1, w1, mem, g.own, g.live);
      return freep, k;
    }

    /** `malloc` found `p = g.order[i + 1]` big enough: it takes the whole block or its tail. */
    method Take(prevp: nat, p: nat, nunits: nat, ghost i: nat) returns (r: nat)
      requires Valid() && freep != NULL && i < |g.order| - 1 && prevp == g.order[i] && p == g.order[i + 1]
      requires p < |mem| && 0 < nunits <= mem[p].size
      modifies this
      ensures Valid() && freep == prevp && |mem| == |old(mem)|
      ensures r > 0 && r - 1 !in old(g.live) && g.live == old(g.live) + {r - 1} && r - 1 < |mem|
              && mem[r - 1].size == nunits
      ensures g.own.Keys == old(g.own).Keys && UnitsKept(old(mem), old(g.own), mem, g.own, old(g.live))
    {
      hide Inv, UnitsKept;
      TakeKeepsUnits(mem, base, g.order, g.live, g.own, i, nunits);
      var h := p;
      if mem[p].size == nunits {
        UnlinkKeepsInv(mem, base, g.order, g.live, g.own, i);
        mem := Unlinked(mem, prevp, p);
        g := g.(order := RemoveAt(g.order, i + 1), live := g.live + {p});
      } else {
        SplitKeepsInv(mem, base, g.order, g.live, g.own, i + 1, nunits);
        h := p + mem[p].size - nunits;
        mem := Split(mem, p, nunits);
        g := g.(own := Relabel(g.own, h, h + nunits, h), live := g.live + {h});
      }
      freep, g := prevp, g.(pos := i);
      return h + 1;
    }

    method Malloc(nbytes: nat, grant: bool, gap: nat) returns (r: nat, ghost asked: nat)
      requires Valid() && CoreUnits(Units(nbytes)) * SIZEOF_HEADER < 0x8000_0000
      modifies this
      ensures Valid() && freep != NULL && asked <= 1
      ensures r != NULL ==> && r - 1 !in old(g.live) && g.live == old(g.live) + {r - 1}
                            && r - 1 < |mem| && mem[r - 1].size == Units(nbytes)
      ensures r == NULL ==> g.live == old(g.live) && !grant && asked == 1 && NoneBig(mem, g.order, Units(nbytes))
      ensures asked == 1 && old(freep) != NULL ==> NoneBig(old(mem), old(g.order), Units(nbytes))
      ensures g.own.Keys == old(g.own).Keys +
                          if asked == 1 && grant then Labels(|old(mem)| + gap, CoreUnits(Units(nbytes)), 0).Keys else {}
      ensures UnitsKept(old(mem), old(g.own), mem, g.own, old(g.live))
    {
      hide Inv, UnitsKept, Labels, Units, Searching, CoreUnits;
      var nunits := Units(nbytes);
      ghost var m0, w0 := mem, g.own;
      Start();
      ghost var m1, g1 := mem, g;
      SearchStart(mem, base, g, nunits);
      var prevp, p := freep, mem[freep].ptr;
      ghost var v: nat, k: nat := 0, 0;
      asked := 0;
      while true
        invariant Valid() && freep != NULL && g.live == old(g.live) && Searching(mem, base, g, prevp, p, v, nunits)
        invariant asked <= 1 && (asked == 0 ==> g.own == w0 && mem == m1 && g == g1)
        invariant asked == 1 ==> NoneBig(m1, g1.order, nunits)
        invariant asked == 1 ==> grant && g.own.Keys == w0.Keys + Labels(|m0| + gap, CoreUnits(nunits), 0).Keys
        invariant asked == 1 ==> Big(mem, g.order, k, nunits)
        invariant UnitsKept(m0, w0, mem, g.own, g.live)
        decreases 1 - asked, |g.order| - v
      {
        SearchSees(mem, base, g, prevp, p, v, nunits);
        if mem[p].size >= nunits {
          ghost var m2, w2 := mem, g.own;
          r := Take(prevp, p, nunits, Along(g.pos, v, |g.order|));
          UnitsKeptTransitive(m0, w0, m2, w2, mem, g.own, old(g.live));
          return;
        }
        if p == freep {
          ghost var m2, w2 := mem, g.own;
          p, k := Morecore(nunits, grant, gap);
          UnitsKeptTransitive(m0, w0, m2, w2, mem, g.own, g.live);
          asked := asked + 1;
          if p == NULL {
            return NULL, asked;
          }
          SearchStart(mem, base, g, nunits);
          v := 0;
        } else {
          v := v + 1;
        }
        prevp, p := p, mem[p].ptr;
      }
    }

    /** `malloc`'s first call makes `base` a list of its own. */
    method Start()
      requires Valid()
      modifies this
      ensures Valid() && freep != NULL && g.live == old(g.live) && g.own == old(g.own) && |mem| == |old(mem)|
      ensures UnitsKept(old(mem), old(g.own), mem, g.own, g.live)
      ensures old(freep) != NULL ==> mem == old(mem) && g == old(g)
    {
      if freep != NULL {
        UnitsKeptReflexive(mem, base, g.order, g.live, g.own);
      } else {
        StartKeepsInv(mem, base);
        mem, freep := mem[base := Header(base, 0)], base;
        g := g.(order := [base], pos := 0);
      }
    }
  }

  lemma UnitsKeptTransitive(m0: seq<Header>, w0: map<nat, nat>, m1: seq<Header>, w1: map<nat, nat>,
                            m2: seq<Header>, w2: map<nat, nat>, kept: set<nat>)
    requires UnitsKept(m0, w0, m1, w1, kept) && UnitsKept(m1, w1, m2, w2, kept)
    ensures UnitsKept(m0, w0, m2, w2, kept)
  {
  }

  /** Free block `order[i]` has `n` units or more. */
  ghost predicate Big(mem: seq<Header>, order: seq<nat>, i: nat, n: nat) {
    i < |order| && order[i] < |mem| && mem[order[i]].size >= n
  }

  /** No free block has n units. */
  ghost predicate NoneBig(mem: seq<Header>, order: seq<nat>, n: nat) {
    forall i :: 0 <= i < |order| ==> !Big(mem, order, i, n)
  }

  /** malloc's loop stands at the block `v + 1` places after `freep` and found the ones before it too small. */
  ghost predicate Searching(mem: seq<Header>, base: nat, g: Book, prevp: nat, p: nat, v: nat, n: nat) {
    && Inv(mem, base, g.order, g.live, g.own) && g.pos < |g.order| && v < |g.order| && n > 0
    && prevp == g.order[Along(g.pos, v, |g.order|)] && p == g.order[Along(g.pos, v + 1, |g.order|)]
    && forall i :: 1 <= i <= v ==> !Big(mem, g.order, Along(g.pos, i, |g.order|), n)
  }

  lemma SearchStart(mem: seq<Header>, base: nat, g: Book, n: nat)
    requires Inv(mem, base, g.order, g.live, g.own) && g.pos < |g.order| && n > 0
    ensures g.order[g.pos] < |mem| && Searching(mem, base, g, g.order[g.pos], mem[g.order[g.pos]].ptr, 0, n)
  {
    hide Inv;
    RingStep(mem, base, g.order, g.live, g.own, g.pos);
  }

  /** What the loop's tests find out. */
  lemma SearchSees(mem: seq<Header>, base: nat, g: Book, prevp: nat, p: nat, v: nat, n: nat)
    requires Searching(mem, base, g, prevp, p, v, n)
    ensures p < |mem| && g.pos < |g.order| && v < |g.order|
    ensures mem[p].size >= n ==> var i := Along(g.pos, v, |g.order|);
                                 i < |g.order| - 1 && prevp == g.order[i] && p == g.order[i + 1]
    ensures mem[p].size < n && p != g.order[g.pos] ==>
              v + 1 < |g.order| && Searching(mem, base, g, p, mem[p].ptr, v + 1, n)
    ensures mem[p].size < n && p == g.order[g.pos] ==> forall k :: 0 <= k < |g.order| ==> !Big(mem, g.order, k, n)
  {
    hide Inv;
    RingStep(mem, base, g.order, g.live, g.own, Along(g.pos, v + 1, |g.order|));
    if mem[p].size < n && p == g.order[g.pos] {
      AllSmall(mem, base, g.order, g.live, g.own, g.pos, v + 1, n);
    }
  }

  lemma AllSmall(mem: seq<Header>, base: nat, order: seq<nat>, live: set<nat>, own: map<nat, nat>, pos: nat, v: nat,
                 n: nat)
    requires Inv(mem, base, order, live, own) && pos < |order| && 1 <= v <= |order|
    requires order[Along(pos, v, |order|)] == order[pos]
    requires forall i :: 1 <= i <= v ==> !Big(mem, order, Along(pos, i, |order|), n)
    ensures v == |order| && forall k :: 0 <= k < |order| ==> !Big(mem, order, k, n)
  {
    assert v == |order|;
    forall k | 0 <= k < |order| ensures !Big(mem, order, k, n) {
      var i := if k > pos then k - pos else k + |order| - pos;
      assert Along(pos, i, |order|) == k;
    }
  }

  lemma RingStep(mem: seq<Header>, base: nat, order: seq<nat>, live: set<nat>, own: map<nat, nat>, i: nat)
    requires Inv(mem, base, order, live, own) && i < |order|
    ensures order[i] < |mem| && mem[order[i]].ptr == order[Succ(i, |order|)] && order[Succ(i, |order|)] < |mem|
    ensures mem[order[i]].size > 0 ==> i > 0
  {
    assert LinkOk(mem, order, i);
  }

  lemma StartKeepsInv(mem: seq<Header>, base: nat)
    requires NULL < base < |mem|
    ensures Inv(mem[base := Header(base, 0)], base, [base], {}, map[])
  {
    assert Heads(base, [base], {}) == {};
    assert LinkOk(mem[base := Header(base, 0)], [base], 0);
  }

  lemma TakeKeepsUnits(mem: seq<Header>, base: nat, order: seq<nat>, live: set<nat>, own: map<nat, nat>, i: nat, n: nat)
    requires Inv(mem, base, order, live, own) && i < |order| - 1 && 0 < n <= mem[order[i + 1]].size
    ensures NULL < order[i] < |mem| && order[i + 1] + mem[order[i + 1]].size <= |mem| && order[i + 1] !in live
    ensures UnitsKept(mem, own, Unlinked(mem, order[i], order[i + 1]), own, live)
    ensures var h := order[i + 1]; var q := h + mem[h].size - n;
            n < mem[h].size ==> UnitsKept(mem, own, Split(mem, h, n), Relabel(own, q, q + n, q), live)
  {
    var h := order[i + 1];
    UnitsKeptReflexive(mem, base, order, live, own);
    FreeUnit(mem, base, order, live, own, i, order[i]);
    FreeUnit(mem, base, order, live, own, i + 1, h);
    forall u: nat | InBlock(mem, h, u) ensures u in own ==> own[u] !in live {
      FreeUnit(mem, base, order, live, own, i + 1, u);
    }
    assert forall u: nat :: h <= u < h + mem[h].size ==> InBlock(mem, h, u);
  }

  /** The units sbrk adds for a request of `nunits`. */
  function CoreUnits(nunits: nat): nat {
    if nunits < MIN_CORE then MIN_CORE else nunits
  }

  /** `n` units from `lo` on, all labelled with header `h`. */
  ghost function {:induction false} Labels(lo: nat, n: nat, h: nat): (r: map<nat, nat>)
    ensures forall u :: u in r <==> lo <= u < lo + n
    ensures forall u :: u in r ==> r[u] == h
  {
    if n == 0 then map[] else Labels(lo, n - 1, h)[lo + n - 1 := h]
  }

  /** sbrk hands out zeroed memory above the break; the caller writes the size of its new block. */
  function Grown(mem: seq<Header>, gap: nat, nu: nat): (r: seq<Header>)
    requires nu > 0
  {
    mem + seq(gap, _ => Header(0, 0)) + [Header(0, nu)] + seq(nu - 1, _ => Header(0, 0))
  }

  lemma GrowKeepsInv(mem: seq<Header>, base: nat, order: seq<nat>, live: set<nat>, own: map<nat, nat>, gap: nat,
                     nunits: nat)
    requires Inv(mem, base, order, live, own) && nunits > 0
    ensures var p := |mem| + gap;
            && Inv(Grown(mem, gap, nunits), base, order, live + {p}, own + Labels(p, nunits, p))
            && UnitsKept(mem, own, Grown(mem, gap, nunits), own + Labels(p, nunits, p), live) && p !in live
  {
    hide Tiled, LinkOk, Labels, Ordered, Coalesced;
    var p, mem', heads := |mem| + gap, Grown(mem, gap, nunits), Heads(base, order, live);
    UnitsBelowBreak(mem, base, order, live, own);
    assert forall u :: 0 <= u < |mem| ==> mem'[u] == mem[u];
    assert mem'[p] == Header(0, nunits) && |mem'| == p + nunits;
    SameHeadersKeepOrder(mem, mem', base, order);
    assert forall i :: 0 < i < |order| ==> order[i] in heads;
    assert Heads(base, order, live + {p}) == heads + {p};
    GrowKeepsTiling(mem, mem', base, heads, own, p, nunits);
  }

  lemma UnitsBelowBreak(mem: seq<Header>, base: nat, order: seq<nat>, live: set<nat>, own: map<nat, nat>)
    requires Inv(mem, base, order, live, own)
    ensures forall u :: u in own ==> u < |mem|
    ensures forall h :: h in live ==> h < |mem|
  {
    assert forall u :: u in own ==> InBlock(mem, own[u], u);
    assert live <= Heads(base, order, live);
  }

  lemma GrowKeepsTiling(mem: seq<Header>, mem': seq<Header>, base: nat, heads: set<nat>, own: map<nat, nat>, p: nat,
                        n: nat)
    requires Tiled(mem, base, heads, own) && n > 0 && base < |mem| <= p && |mem'| == p + n && mem'[p].size == n
    requires forall u :: 0 <= u < |mem| ==> mem'[u] == mem[u]
    ensures Tiled(mem', base, heads + {p}, own + Labels(p, n, p))
  {
    var own' := own + Labels(p, n, p);
    forall h, u: nat | h in heads
      ensures InBlock(mem', h, u) == InBlock(mem, h, u) && (InBlock(mem, h, u) ==> u < |mem|) {
    }
    assert forall u: nat :: InBlock(mem', p, u) <==> u in Labels(p, n, p);
  }
}
