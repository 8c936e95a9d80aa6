/**
 * The buffer cache of kernel/bio.c: a doubly linked list of all buffers, most recently released first.
 *
 * Buffers are numbered 0..NBUF-1 and the list head is number NBUF; `next` and `prev` hold such numbers.
 */
module BufferCache {
  import opened Common

  /** Place i of ring `r` and the place after it point at each other. */
  ghost predicate LinkAt(next: seq<nat>, prev: seq<nat>, r: seq<nat>, i: nat)
    requires i < |r|
  {
    var j := Succ(i, |r|);
    r[i] < |next| && r[j] < |prev| && next[r[i]] == r[j] && prev[r[j]] == r[i]
  }

  /** Following `next` from the head runs through `r` and back to the head; `prev` runs the other way. */
  ghost predicate Ring(next: seq<nat>, prev: seq<nat>, r: seq<nat>) {
    Distinct(r) && |next| == |prev| && forall i :: 0 <= i < |r| ==> LinkAt(next, prev, r, i)
  }

  ghost function Without(s: seq<nat>, k: nat): (r: seq<nat>)
    requires k < |s|
  {
    s[..k] + s[k + 1..]
  }

  lemma WithoutAt(s: seq<nat>, k: nat)
    requires k < |s|
    ensures |Without(s, k)| == |s| - 1
    ensures forall i :: 0 <= i < |s| - 1 ==> Without(s, k)[i] == s[if i < k then i else i + 1]
  {
  }

  /** Unlinking the buffer at place k leaves a ring of the others. */
  lemma UnlinkRing(next: seq<nat>, prev: seq<nat>, r: seq<nat>, k: nat)
    requires Ring(next, prev, r) && 0 < k < |r|
    ensures r[k] < |next| && next[r[k]] < |next| && prev[r[k]] < |next|
    ensures Ring(next[prev[r[k]] := next[r[k]]], prev[next[r[k]] := prev[r[k]]], Without(r, k))
  {
    var b, r', n := r[k], Without(r, k), |r|;
    assert LinkAt(next, prev, r, k - 1) && LinkAt(next, prev, r, k);
    var next', prev' := next[prev[b] := next[b]], prev[next[b] := prev[b]];
    WithoutAt(r, k);
    assert next[b] == r[Succ(k, n)] && prev[b] == r[k - 1];
    forall i | 0 <= i < |r'| ensures LinkAt(next', prev', r', i) {
      UnlinkAt(next, prev, r, k, i);
    }
  }

  lemma UnlinkAt(next: seq<nat>, prev: seq<nat>, r: seq<nat>, k: nat, i: nat)
    requires Ring(next, prev, r) && 0 < k < |r| && i < |r| - 1
    requires r[k] < |next| && next[r[k]] == r[Succ(k, |r|)] < |next| && prev[r[k]] == r[k - 1] < |next|
    ensures LinkAt(next[prev[r[k]] := next[r[k]]], prev[next[r[k]] := prev[r[k]]], Without(r, k), i)
  {
    WithoutAt(r, k);
    var r' := Without(r, k);
    var i0 := if i < k then i else i + 1;
    var j := Succ(i, |r'|);
    assert LinkAt(next, prev, r, i0);
    assert r'[i] == r[i0] && r'[j] == r[if j < k then j else j + 1];
  }

  /** Linking a buffer in behind the head. */
  lemma InsertRing(next: seq<nat>, prev: seq<nat>, r: seq<nat>, b: nat)
    requires Ring(next, prev, r) && |r| > 0 && b < |next| && b !in r
    ensures r[0] < |next| && next[r[0]] < |next|
    ensures Ring(next[b := next[r[0]]][r[0] := b], prev[b := r[0]][next[r[0]] := b], [r[0], b] + r[1..])
  {
    assert LinkAt(next, prev, r, 0);
    var next', prev', r' := next[b := next[r[0]]][r[0] := b], prev[b := r[0]][next[r[0]] := b], [r[0], b] + r[1..];
    forall i | 0 <= i < |r'| ensures LinkAt(next', prev', r', i) {
      InsertAt(next, prev, r, b, i);
    }
  }

  lemma InsertAt(next: seq<nat>, prev: seq<nat>, r: seq<nat>, b: nat, i: nat)
    requires Ring(next, prev, r) && |r| > 0 && b < |next| && b !in r && i <= |r|
    requires r[0] < |next| && next[r[0]] == r[Succ(0, |r|)] < |next|
    ensures LinkAt(next[b := next[r[0]]][r[0] := b], prev[b := r[0]][next[r[0]] := b], [r[0], b] + r[1..], i)
  {
    var r' := [r[0], b] + r[1..];
    assert forall m :: 2 <= m < |r'| ==> r'[m] == r[m - 1];
    assert LinkAt(next, prev, r, if i < 2 then 0 else i - 1);
    var j := Succ(i, |r'|);
    assert r'[j] == if j == 0 then r[0] else if j == 1 then b else r[j - 1];
  }

  datatype Buf = Buf(dev: nat, blockno: nat, valid: bool, refcnt: nat)

  /** `order` names every buffer, each once. */
  ghost predicate Complete(order: seq<nat>, n: nat) {
    Distinct(order) && forall b: nat :: b in order <==> b < n
  }

  /** At most one buffer holds a given block of a device; device 0 stands for buffers not yet used. */
  ghost predicate Unique(bufs: seq<Buf>) {
    forall i, j :: 0 <= i < j < |bufs| && bufs[i].dev != 0 && bufs[i].dev == bufs[j].dev ==>
      bufs[i].blockno != bufs[j].blockno
  }

  /** The list is ordered by last release, latest first; buffers never released (stamp 0) come last. */
  ghost predicate Recency(order: seq<nat>, stamp: seq<nat>) {
    && (forall i :: 0 <= i < |order| ==> order[i] < |stamp|)
    && forall i, j :: 0 <= i < j < |order| ==>
         stamp[order[i]] > stamp[order[j]] || (stamp[order[i]] == 0 && stamp[order[j]] == 0)
  }

  ghost function ToFront(order: seq<nat>, k: nat): (r: seq<nat>)
    requires k < |order|
  {
    [order[k]] + Without(order, k)
  }

  lemma ToFrontComplete(order: seq<nat>, k: nat, n: nat)
    requires Complete(order, n) && k < |order|
    ensures Complete(ToFront(order, k), n)
  {
    WithoutAt(order, k);
    var r := ToFront(order, k);
    assert order == order[..k] + [order[k]] + order[k + 1..];
    assert forall b :: b in r <==> b in order;
    assert forall i :: 1 <= i < |r| ==> r[i] == order[if i - 1 < k then i - 1 else i];
  }

  lemma ToFrontRecency(order: seq<nat>, k: nat, stamp: seq<nat>, now: nat)
    requires Distinct(order) && Recency(order, stamp) && k < |order| && now > 0
    requires forall b :: 0 <= b < |stamp| ==> stamp[b] < now
    ensures Recency(ToFront(order, k), stamp[order[k] := now])
  {
    WithoutAt(order, k);
    var r := ToFront(order, k);
    assert forall i :: 1 <= i < |r| ==> r[i] == order[if i - 1 < k then i - 1 else i];
  }

  lemma ToFrontRing(next: seq<nat>, prev: seq<nat>, order: seq<nat>, k: nat, n: nat)
    requires Ring(next, prev, [n] + order) && k < |order| && n !in order && n < |next|
    ensures var b := order[k];
            && b < |next| && next[b] < |next| && prev[b] < |next|
            && var nx, pv := next[prev[b] := next[b]], prev[next[b] := prev[b]];
               && nx[n] < |next|
               && Ring(nx[b := nx[n]][n := b], pv[b := n][nx[n] := b], [n] + ToFront(order, k))
  {
    var b, r := order[k], [n] + order;
    UnlinkRing(next, prev, r, k + 1);
    var nx, pv := next[prev[b] := next[b]], prev[next[b] := prev[b]];
    assert Without(r, k + 1) == [n] + Without(order, k);
    WithoutAt(order, k);
    InsertRing(nx, pv, [n] + Without(order, k), b);
    assert [n, b] + ([n] + Without(order, k))[1..] == [n] + ToFront(order, k);
  }

  class Cache {
    const n: nat
    var next: seq<nat>
    var prev: seq<nat>
    var bufs: seq<Buf>
    ghost var order: seq<nat>   // the list, from head.next on
    ghost var stamp: seq<nat>   // when each buffer's count last fell to zero in brelse
    ghost var clock: nat

    ghost predicate Valid()
      reads this
    {
      && |bufs| == |stamp| == n && |next| == |prev| == n + 1
      && Complete(order, n) && Ring(next, prev, [n] + order)
      && Unique(bufs) && Recency(order, stamp)
      && (forall b :: 0 <= b < n ==> stamp[b] <= clock)
    }

    /** `binit` */
    constructor (n: nat)
      ensures Valid() && this.n == n && clock == 0
      ensures forall b :: 0 <= b < n ==> bufs[b] == Buf(0, 0, false, 0)
    {
      this.n := n;
      bufs, stamp, clock := seq(n, _ => Buf(0, 0, false, 0)), seq(n, _ => 0), 0;
      next, prev, order := seq(n + 1, _ => n), seq(n + 1, _ => n), [];
      new;
      assert LinkAt(next, prev, [n] + order, 0);
      var b := 0;
      while b < n
        invariant 0 <= b <= n && |next| == |prev| == n + 1
        invariant Complete(order, b) && Ring(next, prev, [n] + order)
        invariant |bufs| == |stamp| == n && clock == 0
        invariant forall m :: 0 <= m < n ==> bufs[m] == Buf(0, 0, false, 0) && stamp[m] == 0
      {
        InsertRing(next, prev, [n] + order, b);
        var first := next[n];
        next := next[b := first];
        prev := prev[b := n];
        prev := prev[first := b];
        next := next[n := b];
        assert [n, b] + ([n] + order)[1..] == [n] + ([b] + order);
        order := [b] + order;
        b := b + 1;
      }
      assert forall i :: 0 <= i < |order| ==> order[i] in order;
    }

    /** `brelse` by a caller that is `holding` the buffer's sleeplock or not; the lock is not part of the cache. */
    method Brelse(b: nat, holding: bool) returns (o: Outcome)
      requires Valid() && b < n && bufs[b].refcnt > 0
      modifies this
      ensures Valid() && (o.Panic? <==> !holding)
      ensures bufs == if holding then old(bufs)[b := old(bufs[b]).(refcnt := old(bufs[b]).refcnt - 1)] else old(bufs)
      ensures if holding && old(bufs[b]).refcnt == 1
              then stamp == old(stamp)[b := clock] && clock == old(clock) + 1 && |order| > 0 && order[0] == b
              else stamp == old(stamp) && clock == old(clock) && order == old(order)
    {
      hide Ring, Recency;
      if !holding {
        return Panic("brelse");
      }
      bufs := bufs[b := bufs[b].(refcnt := bufs[b].refcnt - 1)];
      if bufs[b].refcnt == 0 {
        assert b in order;
        ghost var k :| 0 <= k < |order| && order[k] == b;
        Relink(b, k);
        ToFrontRecency(old(order), k, stamp, clock + 1);
        clock := clock + 1;
        stamp := stamp[b := clock];
      }
      return Done;
    }

    /** The pointer assignments of `brelse`: buffer `b` moves to the front of the list. */
    method Relink(b: nat, ghost k: nat)
      requires k < |order| && order[k] == b && |next| == |prev| == n + 1
      requires Complete(order, n) && Ring(next, prev, [n] + order)
      modifies `next, `prev, `order
      ensures |next| == |prev| == n + 1 && order == ToFront(old(order), k)
      ensures Complete(order, n) && Ring(next, prev, [n] + order)
    {
      hide Ring, ToFront;
      assert n !in order;
      hide Complete;
      ToFrontRing(next, prev, order, k, n);
      ToFrontComplete(order, k, n);
      prev := prev[next[b] := prev[b]];
      next := next[prev[b] := next[b]];
      next := next[b := next[n]];
      prev := prev[b := n];
      prev := prev[next[n] := b];
      next := next[n := b];
      order := ToFront(order, k);
    }

    method Bpin(b: nat)
      requires Valid() && b < n
      modifies this`bufs
      ensures Valid() && bufs == old(bufs)[b := old(bufs[b]).(refcnt := old(bufs[b]).refcnt + 1)]
    {
      bufs := bufs[b := bufs[b].(refcnt := bufs[b].refcnt + 1)];
    }

    /** Unlike `brelse`, dropping to zero here leaves the buffer where it is in the list. */
    method Bunpin(b: nat)
      requires Valid() && b < n && bufs[b].refcnt > 0
      modifies this`bufs
      ensures Valid() && bufs == old(bufs)[b := old(bufs[b]).(refcnt := old(bufs[b]).refcnt - 1)]
    {
      bufs := bufs[b := bufs[b].(refcnt := bufs[b].refcnt - 1)];
    }

    /** First search of `bget`: the buffer that holds the block. */
    method Find(dev: nat, blockno: nat) returns (b: nat)
      requires Valid()
      ensures b <= n
      ensures b < n ==> bufs[b].dev == dev && bufs[b].blockno == blockno
      ensures b == n ==> forall m :: 0 <= m < n ==> !(bufs[m].dev == dev && bufs[m].blockno == blockno)
    {
      ghost var r, i := [n] + order, 1;
      assert forall k :: 1 <= k < |r| ==> r[k] == order[k - 1] && r[k] in order;
      assert LinkAt(next, prev, r, 0);
      b := next[n];
      while b != n
        invariant 1 <= i <= |r| && b == (if i < |r| then r[i] else n)
        invariant forall k :: 1 <= k < i ==> !(bufs[r[k]].dev == dev && bufs[r[k]].blockno == blockno)
        decreases |r| - i
      {
        assert b == order[i - 1] && b < n;
        if bufs[b].dev == dev && bufs[b].blockno == blockno {
          return;
        }
        assert LinkAt(next, prev, r, i);
        b, i := next[b], i + 1;
      }
      forall m | 0 <= m < n ensures !(bufs[m].dev == dev && bufs[m].blockno == blockno) {
        assert m in order;
        var k :| 0 <= k < |order| && order[k] == m;
        assert r[k + 1] == m;
      }
    }

    /** Second search: the unused buffer released longest ago. */
    method Oldest() returns (b: nat)
      requires Valid()
      ensures b <= n
      ensures b < n ==> bufs[b].refcnt == 0 && forall m :: 0 <= m < n && bufs[m].refcnt == 0 ==> stamp[b] <= stamp[m]
      ensures b == n ==> forall m :: 0 <= m < n ==> bufs[m].refcnt > 0
    {
      ghost var r, i := [n] + order, |order|;
      assert forall k :: 1 <= k < |r| ==> r[k] == order[k - 1] && r[k] in order;
      assert LinkAt(next, prev, r, |order|);
      b := prev[n];
      while b != n
        invariant 0 <= i <= |order| && b == r[i]
        invariant forall k :: i < k < |r| ==> bufs[r[k]].refcnt > 0
        decreases i
      {
        assert i > 0 && b == order[i - 1] && b < n;
        if bufs[b].refcnt == 0 {
          forall m | 0 <= m < n && bufs[m].refcnt == 0 ensures stamp[b] <= stamp[m] {
            assert m in order;
            var k :| 0 <= k < |order| && order[k] == m;
            assert r[k + 1] == m;
          }
          return;
        }
        assert LinkAt(next, prev, r, i - 1);
        b, i := prev[b], i - 1;
      }
      forall m | 0 <= m < n ensures bufs[m].refcnt > 0 {
        assert m in order;
        var k :| 0 <= k < |order| && order[k] == m;
        assert r[k + 1] == m;
      }
    }

    /** `bget` without its sleeplock; None is the panic "bget: no buffers". */
    method Bget(dev: nat, blockno: nat) returns (r: Option<nat>)
      requires Valid()
      modifies this`bufs
      ensures Valid()
      ensures r.None? ==> bufs == old(bufs) && forall m :: 0 <= m < n ==>
                bufs[m].refcnt > 0 && !(bufs[m].dev == dev && bufs[m].blockno == blockno)
      ensures r.Some? ==>
                && r.value < n
                && var was := old(bufs)[r.value];
                if was.dev == dev && was.blockno == blockno
                then bufs == old(bufs)[r.value := was.(refcnt := was.refcnt + 1)]
                else
                  && bufs == old(bufs)[r.value := Buf(dev, blockno, false, 1)]
                  && was.refcnt == 0
                  && (forall m :: 0 <= m < n ==> !(old(bufs)[m].dev == dev && old(bufs)[m].blockno == blockno))
                  && (forall m :: 0 <= m < n && old(bufs)[m].refcnt == 0 ==> stamp[r.value] <= stamp[m])
    {
      var b := Find(dev, blockno);
      if b != n {
        bufs := bufs[b := bufs[b].(refcnt := bufs[b].refcnt + 1)];
        return Some(b);
      }
      b := Oldest();
      if b != n {
        bufs := bufs[b := Buf(dev, blockno, false, 1)];
        return Some(b);
      }
      return None;
    }
  }
}
