/** The linked buffer cache of kernel/bio.c refines the slots of the log protocol. */
module CacheRefines {
  import opened Common
  import BufferCache
  import opened LogProtocol

  const ROOTDEV: nat := 1

  /** The same buffers, but for their contents: one not used yet, on device 0, is an empty slot. */
  ghost predicate Represents(bufs: seq<BufferCache.Buf>, s: State) {
    |bufs| == |s.bufs| && forall i :: 0 <= i < |bufs| ==> SameBuf(bufs[i], s.bufs[i])
  }

  ghost predicate SameBuf(c: BufferCache.Buf, b: Buf) {
    && c.refcnt == b.refcnt && c.valid == b.valid && c.dev in {0, ROOTDEV}
    && b.block == if c.dev == ROOTDEV then Some(c.blockno) else None
  }

  /** A reference that is not counted is not there. */
  lemma NotReferenced(s: State, p: Proc, i: nat)
    requires Inv(s) && i < |s.bufs| && s.bufs[i].refcnt == 0
    ensures (p, i) !in s.refs
  {
    hide Inv;
    CountsPositive(s, i);
  }

  lemma GetFires(s: State, p: Proc, b: nat, i: nat)
    requires !s.panicked && CanGet(s, p, b, i)
    ensures StepsTo(s, Get(p, b, i), DoGet(s, p, b, i))
  {
  }

  lemma DropFires(s: State, p: Proc, i: nat)
    requires !s.panicked && CanDrop(s, p, i)
    ensures StepsTo(s, Drop(p, i), DoDrop(s, p, i))
  {
  }

  /** What bget does for a process that has no reference to the block is a Get; it panics only if no Get is possible. */
  method BgetGets(c: BufferCache.Cache, b: nat, ghost s: State, ghost p: Proc) returns (r: Option<nat>, ghost t: State)
    requires c.Valid() && Represents(c.bufs, s) && Inv(s) && !s.panicked && b < |s.disk|
    requires forall i :: 0 <= i < |s.bufs| && Holds(s, i, b) ==> (p, i) !in s.refs
    modifies c`bufs
    ensures c.Valid() && Represents(c.bufs, t)
    ensures r.Some? ==> StepsTo(s, Get(p, b, r.value), t)
    ensures r.None? ==> t == s && forall i :: 0 <= i < |s.bufs| ==> !CanGet(s, p, b, i)
  {
    hide Inv, StepsTo;
    t := s;
    r := c.Bget(ROOTDEV, b);
    if r.Some? {
      if s.bufs[r.value].refcnt == 0 { NotReferenced(s, p, r.value); }
      GetFires(s, p, b, r.value);
      t := DoGet(s, p, b, r.value);
    }
  }

  /** What brelse does after it has released the sleeplock is a Drop. */
  method BrelseDrops(c: BufferCache.Cache, i: nat, ghost s: State, ghost p: Proc) returns (ghost t: State)
    requires c.Valid() && Represents(c.bufs, s) && Inv(s) && !s.panicked && i < |s.bufs|
    requires (p, i) in s.refs && !LockedBy(s, p, i)
    modifies c
    ensures c.Valid() && Represents(c.bufs, t) && StepsTo(s, Drop(p, i), t)
  {
    hide Inv, StepsTo;
    CountsPositive(s, i);
    var o := c.Brelse(i, true);
    DropFires(s, p, i);
    t := DoDrop(s, p, i);
  }
}
