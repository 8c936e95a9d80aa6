/** What the operations of kernel/fs.c do to a volume as a whole, and how many blocks they log. */
module FileSteps {
  import opened Common
  import opened BlockMap
  import opened FileContent

  lemma BitmapCovers(v: Vol)
    requires Good(v)
    ensures v.sb.size <= 8 * |v.bitmap| && |v.disk| == v.sb.size && v.sb.meta > 0
    ensures v.sb.size > 0 && Bit(v.bitmap, 0)
  {
    hide Bit, Inverse, InodeOk;
  }

  /** Where bit `base + bi` lies, for a bitmap block that starts at bit `base`. */
  lemma BitPlace(base: nat, bi: nat)
    requires base % BPB == 0 && bi < BPB
    ensures base / BPB * BSIZE + bi / 8 == (base + bi) / 8 && bi % 8 == (base + bi) % 8
    ensures BPB * (base / BPB) == base && (base + bi) / BPB == base / BPB
  {
    assert base == 8 * (base / BPB * BSIZE);
  }

  lemma ExtendsSelf(v: Vol)
    ensures Extends(v, v)
  {
    assert forall s :: s in v.g.ref ==> SlotKept(v, v, s);
  }

  lemma ExtendsShape(v: Vol, v': Vol)
    requires Extends(v, v')
    ensures v'.sb == v.sb && |v'.inodes| == |v.inodes|
  {
  }

  lemma ExtendsAt(v: Vol, v': Vol, s: Slot)
    requires Extends(v, v') && s in v.g.ref
    ensures SlotKept(v, v', s) && v'.sb == v.sb && |v'.inodes| == |v.inodes|
  {
  }

  /** An entry is never filled without its indirect block. */
  lemma RootFirst(v: Vol, s: Slot)
    requires Good(v) && s in v.g.ref && s.k > NDIRECT
    ensures Slot(s.inum, NDIRECT) in v.g.ref
  {
    hide Marks, Shaped, InodeOk;
  }

  /** `addr` is the block now in slot `s`: the one that was there, or a cleared one; 0 when the disk is full. */
  ghost predicate Filled(v: Vol, v': Vol, s: Slot, addr: nat) {
    && Extends(v, v')
    && (s in v.g.ref ==> v' == v && addr == v.g.ref[s])
    && (addr != 0 <==> s in v'.g.ref)
    && (addr != 0 ==> v'.g.ref[s] == addr && (s !in v.g.ref ==> BlockAt(v', s) == Zeroed()))
    && (addr == 0 ==> forall b: nat :: b < v.sb.size ==> Bit(v'.bitmap, b))
    && (forall t :: t in v'.g.ref && t !in v.g.ref ==> t == s || (s.k > NDIRECT && t == Slot(s.inum, NDIRECT)))
  }

  /** What balloc logs when it fills `s`. */
  ghost function Cost(sb: Super, ref: map<Slot, nat>, ref': map<Slot, nat>, s: Slot): set<nat> {
    if s in ref' && s !in ref then {ref'[s], BitmapBlock(sb, ref'[s])} else {}
  }

  /** The blocks bmap logs when it takes `v` to `v'` for the n-th block of an inode. */
  ghost function Touched(v: Vol, v': Vol, inum: nat, n: nat): set<nat> {
    var s, root := DataSlot(inum, n), Slot(inum, NDIRECT);
    Cost(v.sb, v.g.ref, v'.g.ref, s)
    + (if n >= NDIRECT && s in v'.g.ref && s !in v.g.ref then {Lookup(v'.g.ref, root)} else {})
    + (if n >= NDIRECT then Cost(v.sb, v.g.ref, v'.g.ref, root) else {})
  }

  lemma BmapFailed(v: Vol, v': Vol, inum: nat, n: nat)
    requires Good(v) && Good(v') && n >= NDIRECT && Filled(v, v', Slot(inum, NDIRECT), 0)
    ensures Filled(v, v', DataSlot(inum, n), 0) && Touched(v, v', inum, n) == {}
  {
    hide Good, Extends, Bit, Zeroed;
    var s := DataSlot(inum, n);
    if s in v.g.ref { RootFirst(v, s); }
    if s in v'.g.ref { RootFirst(v', s); }
  }

  lemma FilledTwice(v: Vol, v1: Vol, v2: Vol, inum: nat, n: nat, root: nat, addr: nat)
    requires Good(v) && n >= NDIRECT && Filled(v, v1, Slot(inum, NDIRECT), root) && root != 0
    requires Filled(v1, v2, DataSlot(inum, n), addr)
    ensures Filled(v, v2, DataSlot(inum, n), addr)
  {
    ExtendsTwice(v, v1, v2);
    hide Good, Extends, Bit, Zeroed;
    var s := DataSlot(inum, n);
    if s in v.g.ref { RootFirst(v, s); }
    assert SlotKept(v1, v2, Slot(inum, NDIRECT)) by { ExtendsAt(v1, v2, Slot(inum, NDIRECT)); }
  }

  /** Every block of data or of the bitmap that changed, and every block newly held by a file, is in the log. */
  ghost predicate Recorded(v: Vol, v': Vol, l: set<nat>) {
    && |v'.disk| == |v.disk| && |v'.bitmap| == |v.bitmap| && v'.sb == v.sb
    && (forall b: nat :: b < |v.disk| && v'.disk[b] != v.disk[b] ==> b in l)
    && (forall b: nat :: Bit(v'.bitmap, b) != Bit(v.bitmap, b) ==> BitmapBlock(v.sb, b) in l)
    && (forall s :: s in v'.g.ref ==> (s in v.g.ref && v.g.ref[s] == v'.g.ref[s]) || v'.g.ref[s] in l)
  }

  ghost predicate OneInode(inodes: seq<Inode>, inodes': seq<Inode>, inum: nat) {
    |inodes'| == |inodes| && forall i :: 0 <= i < |inodes| && i != inum ==> inodes'[i] == inodes[i]
  }

  lemma RecordedTwice(v: Vol, v1: Vol, v2: Vol, l1: set<nat>, l2: set<nat>)
    requires Recorded(v, v1, l1) && Recorded(v1, v2, l2) && l1 <= l2
    ensures Recorded(v, v2, l2)
  {
    hide Bit;
  }

  lemma RecordedSelf(v: Vol, l: set<nat>)
    ensures Recorded(v, v, l)
  {
  }

  lemma RecordedPut(v: Vol, addr: nat, o: nat, part: seq<Byte>, l: set<nat>)
    requires addr in l || part == []
    ensures Recorded(v, PutBytes(v, addr, o, part), l)
  {
    hide Bit;
    if addr < |v.disk| && o <= |v.disk[addr]| { assert Splice(v.disk[addr], o, []) == v.disk[addr]; }
  }

  lemma RecordedRoot(v: Vol, inum: nat, k: nat, b: nat, l: set<nat>)
    requires inum < |v.inodes| && k < |v.inodes[inum].addrs| && b < |v.disk| && b / 8 < |v.bitmap|
    requires {b, BitmapBlock(v.sb, b)} <= l
    ensures Recorded(v, AttachRoot(v, inum, k, b), l)
  {
    hide Bit, WithBit, Zeroed;
    WithBitSize(v.bitmap, b);
    forall c: nat | c != b ensures Bit(WithBit(v.bitmap, b), c) == Bit(v.bitmap, c) {
      BitSet(v.bitmap, b, c);
    }
  }

  lemma RecordedEntry(v: Vol, inum: nat, j: nat, root: nat, b: nat, l: set<nat>)
    requires b < |v.disk| && b / 8 < |v.bitmap| && root < |v.disk| && |v.disk[root]| == BSIZE
    requires j < NINDIRECT && b < 0x1_0000_0000 && {b, root, BitmapBlock(v.sb, b)} <= l
    ensures Recorded(v, AttachEntry(v, inum, j, root, b), l)
  {
    hide Bit, WithBit, Zeroed, PutWord;
    WithBitSize(v.bitmap, b);
    forall c: nat | c != b ensures Bit(WithBit(v.bitmap, b), c) == Bit(v.bitmap, c) {
      BitSet(v.bitmap, b, c);
    }
  }

  lemma RecordedResize(v: Vol, v1: Vol, inum: nat, size: nat, l: set<nat>, l': set<nat>)
    requires Recorded(v, v1, l) && l <= l' && inum < |v1.inodes|
    ensures Recorded(v, Resized(v1, inum, size), l')
  {
    hide Bit;
  }

  ghost predicate Full(sb: Super, bitmap: seq<bv8>) {
    forall b: nat :: b < sb.size ==> Bit(bitmap, b)
  }

  ghost function FreeBlocks(sb: Super, bitmap: seq<bv8>): set<nat> {
    set b: nat | b < sb.size && !Bit(bitmap, b)
  }

  /** The outcome of a write: `data` laid over the file from `off`, cut at its new size; other files are as before. */
  ghost predicate IsWrite(v: Vol, v': Vol, inum: nat, off: nat, data: seq<Byte>, tot: nat)
    requires inum < |v.inodes|
  {
    && |v'.inodes| == |v.inodes| && off <= |Content(v, inum)|
    && v'.inodes[inum].size == Max(v.inodes[inum].size, off + tot) <= |Overlay(Content(v, inum), off, data)|
    && Content(v', inum) == Overlay(Content(v, inum), off, data)[..v'.inodes[inum].size]
    && forall i: nat :: i < |v.inodes| && i != inum ==> Content(v', i) == Content(v, i)
  }

  lemma WriteShape(v: Vol, v': Vol, inum: nat, off: nat, data: seq<Byte>, tot: nat)
    requires inum < |v.inodes| && IsWrite(v, v', inum, off, data, tot)
    ensures |Content(v, inum)| == v.inodes[inum].size && off <= |Content(v, inum)|
  {
  }

  lemma ChunkWrote(v0: Vol, v: Vol, v1: Vol, inum: nat, off: nat, data: seq<Byte>, part: seq<Byte>, addr: nat)
    requires Wrote(v0, v, inum, off, data) && Good(v1) && Filled(v, v1, PosSlot(inum, off + |data|), addr)
    requires (off + |data|) % BSIZE + |part| <= BSIZE
    ensures |v1.inodes| == |v.inodes|
    ensures addr == 0 ==> Wrote(v0, v1, inum, off, data) && Full(v1.sb, v1.bitmap)
    ensures addr != 0 ==> Wrote(v0, PutBytes(v1, addr, (off + |data|) % BSIZE, part), inum, off, data + part)
  {
    hide Good, Wrote, Bit, Zeroed, PutBytes, Extends;
    assert Extends(v, v1);
    ExtendsShape(v, v1);
    WroteExtends(v0, v, v1, inum, off, data);
    if addr != 0 { WrotePut(v0, v1, inum, off, data, part); }
  }

  lemma WriteDone(v: Vol, v1: Vol, inum: nat, off: nat, data: seq<Byte>, tot: nat)
    requires Good(v) && Good(v1) && Wrote(v, v1, inum, off, data) && inum < |v.inodes|
    requires tot <= |data| && off <= v.inodes[inum].size && off + tot <= MAXFILE * BSIZE
    ensures |v1.inodes| == |v.inodes| && v1.inodes[inum].size == v.inodes[inum].size && v1.sb == v.sb
    ensures IsWrite(v, Resized(v1, inum, Max(v.inodes[inum].size, off + tot)), inum, off, data, tot)
    ensures Good(Resized(v1, inum, Max(v.inodes[inum].size, off + tot)))
  {
    hide Good, Content;
    ResizeKeeps(v, v1, inum, off, data, tot);
    forall i: nat | i < |v.inodes| {
      WroteContent(v, v1, inum, off, data, tot, i);
    }
    WroteContent(v, v1, inum, off, data, tot, inum);
  }

  lemma WriteNothing(v: Vol, inum: nat, off: nat)
    requires Good(v) && inum < |v.inodes| && off <= v.inodes[inum].size
    ensures IsWrite(v, v, inum, off, [], 0)
  {
    hide Good;
    assert Overlay(Content(v, inum), off, []) == Content(v, inum);
  }

  lemma SizeAfter(v: Vol, v': Vol, inum: nat, off: nat, data: seq<Byte>, tot: nat)
    requires inum < |v.inodes| && IsWrite(v, v', inum, off, data, tot)
    ensures inum < |v'.inodes| && v'.inodes[inum].size == Max(v.inodes[inum].size, off + tot)
  {
    hide Content, Overlay;
  }

  lemma OverlayTwice(c: seq<Byte>, off: nat, a: seq<Byte>, b: seq<Byte>)
    requires off <= |c|
    ensures off + |a| <= |Overlay(c, off, a)|
    ensures Overlay(Overlay(c, off, a), off + |a|, b) == Overlay(c, off, a + b)
  {
  }

  /** Two writes, the second where the first ended, are one. */
  lemma WriteTwice(v: Vol, v1: Vol, v2: Vol, inum: nat, off: nat, a: seq<Byte>, b: seq<Byte>, tot: nat)
    requires inum < |v.inodes| && IsWrite(v, v1, inum, off, a, |a|) && inum < |v1.inodes|
    requires IsWrite(v1, v2, inum, off + |a|, b, tot)
    ensures IsWrite(v, v2, inum, off, a + b, |a| + tot)
  {
    var c := Content(v, inum);
    OverlayTwice(c, off, a, b);
    assert Overlay(c, off, a)[..v1.inodes[inum].size] == Overlay(c, off, a);
  }

  /** What was written is what is read. */
  lemma ReadBack(v: Vol, v': Vol, inum: nat, off: nat, data: seq<Byte>)
    requires inum < |v.inodes| && IsWrite(v, v', inum, off, data, |data|)
    ensures off + |data| <= |Content(v', inum)| && Content(v', inum)[off..off + |data|] == data
    ensures Content(v', inum)[..off] == Content(v, inum)[..off]
    ensures forall p: nat :: off + |data| <= p < |Content(v, inum)| ==>
                               p < |Content(v', inum)| && Content(v', inum)[p] == Content(v, inum)[p]
  {
    hide ByteAt;
  }

  lemma {:induction false} Fewer(a: set<nat>, b: set<nat>)
    requires a <= b
    ensures |a| <= |b|
  {
    if a != {} {
      var x :| x in a;
      Fewer(a - {x}, b - {x});
    }
  }

  /** Blocks spanned by `n` bytes from `off` on. */
  function Spanned(off: nat, n: nat): nat {
    (off % BSIZE + n + BSIZE - 1) / BSIZE
  }

  /** What writei counts of `n` bytes from `off`, when only `good` can be read: whole blocks of the file. */
  function Counted(off: nat, n: nat, good: nat): (tot: nat)
    ensures tot <= n && tot <= good
    ensures tot == Min(good, n) <==> good >= n || good == 0 || (off + good) % BSIZE == 0
  {
    if good >= n then n else if off % BSIZE + good < BSIZE then 0 else good - (off + good) % BSIZE
  }

  /** The contents after a write in which `landed` bytes reached the blocks are those of a write of `tot` bytes. */
  ghost predicate ReadsAs(c: seq<Byte>, off: nat, src: seq<Byte>, tot: nat, landed: nat)
    requires off <= |c| && tot <= landed <= |src|
  {
    && Max(|c|, off + tot) <= |Overlay(c, off, src[..landed])|
    && Overlay(c, off, src[..landed])[..Max(|c|, off + tot)] == Overlay(c, off, src[..tot])
  }

  lemma StrayBytes(c: seq<Byte>, off: nat, src: seq<Byte>, tot: nat, landed: nat)
    requires off <= |c| && tot <= landed <= |src|
    ensures ReadsAs(c, off, src, tot, landed)
            <==> forall k :: tot <= k < landed && off + k < |c| ==> src[k] == c[off + k]
  {
    var torn, clean := Overlay(c, off, src[..landed])[..Max(|c|, off + tot)], Overlay(c, off, src[..tot]);
    assert |torn| == |clean|;
    forall k | tot <= k < landed && off + k < |c| ensures torn[off + k] == src[k] && clean[off + k] == c[off + k] {
    }
    if forall k :: tot <= k < landed && off + k < |c| ==> src[k] == c[off + k] {
      forall p: nat | p < |torn| ensures torn[p] == clean[p] {
        if off + tot <= p < off + landed { assert src[p - off] == c[off + (p - off)]; }
      }
    }
  }

  /**
   * The count writei returns says what was written, for every file of `size` bytes and every source of `n`, if and
   * only if no byte is faulted on, or the fault is at the first byte or on a block boundary, or the bytes it leaves
   * in the buffer lie beyond the end of the file.
   */
  lemma TornExactly(size: nat, off: nat, n: nat, good: nat)
    requires off <= size
    ensures (forall c: seq<Byte>, src: seq<Byte> :: |c| == size && |src| == n ==>
               ReadsAs(c, off, src, Counted(off, n, good), Min(good, n)))
            <==> good >= n || good == 0 || (off + good) % BSIZE == 0 || off + Counted(off, n, good) >= size
  {
    var tot, landed := Counted(off, n, good), Min(good, n);
    if tot < landed && off + tot < size {
      var c: seq<Byte>, src: seq<Byte> := seq(size, _ => 0), seq(n, _ => 1);
      StrayBytes(c, off, src, tot, landed);
      assert src[tot] != c[off + tot] && !ReadsAs(c, off, src, tot, landed);
    } else {
      forall c: seq<Byte>, src: seq<Byte> | |c| == size && |src| == n ensures ReadsAs(c, off, src, tot, landed) {
        StrayBytes(c, off, src, tot, landed);
      }
    }
  }

  lemma TornShows()
    ensures Counted(0, 2, 1) == 0 && !ReadsAs([7], 0, [8, 9], 0, 1)
  {
    StrayBytes([7], 0, [8, 9], 0, 1);
    assert 0 <= 0 < 1 && [8, 9][0] != [7][0 + 0];
  }

  lemma ShortCount(sb: Super, before: seq<bv8>, after: seq<bv8>, off: nat, n: nat, good: nat, tot: nat, landed: nat)
    requires Stopped(sb, before, after, off, n, good, tot, landed)
    ensures tot < n ==> good < n || Full(sb, after)
    ensures tot == Counted(off, n, good) || (Full(sb, after) && tot < n)
    ensures landed > tot ==> landed == good < n
    ensures good >= n || good == 0 || (off + good) % BSIZE == 0 ==> landed == tot
  {
    hide Full, FreeBlocks, Spanned;
  }

  /** The loop of writei ends with everything readable counted, or on a disk that had no room for its blocks. */
  ghost predicate Stopped(sb: Super, before: seq<bv8>, after: seq<bv8>, off: nat, n: nat, good: nat, tot: nat,
                          landed: nat)
  {
    || (tot == Counted(off, n, good) && landed == Min(good, n))
    || (tot == landed < n && Full(sb, after) && |FreeBlocks(sb, before)| <= Spanned(off, n))
  }

  /** When writei's count says what was written, its outcome is that of a write of as many bytes. */
  lemma CountTells(v: Vol, v': Vol, inum: nat, off: nat, src: seq<Byte>, tot: nat, landed: nat)
    requires inum < |v.inodes| && tot <= landed <= |src| && IsWrite(v, v', inum, off, src[..landed], tot)
    ensures IsWrite(v, v', inum, off, src[..tot], tot) <==> ReadsAs(Content(v, inum), off, src, tot, landed)
  {
    hide ByteAt;
    assert |Content(v, inum)| == v.inodes[inum].size;
  }

  lemma BeyondEnd(v: Vol, v': Vol, inum: nat, off: nat, src: seq<Byte>, tot: nat, landed: nat)
    requires inum < |v.inodes| && tot <= landed <= |src| && IsWrite(v, v', inum, off, src[..landed], tot)
    ensures landed == tot || off + tot >= v.inodes[inum].size ==> IsWrite(v, v', inum, off, src[..tot], tot)
  {
    hide ByteAt, IsWrite;
    WriteShape(v, v', inum, off, src[..landed], tot);
    StrayBytes(Content(v, inum), off, src, tot, landed);
    CountTells(v, v', inum, off, src, tot, landed);
  }

  /** Two blocks for each data block (itself and its bitmap block), but one for a first block begun before `off`. */
  function DataCost(off: nat, turns: nat): int {
    if turns > 0 && off % BSIZE > 0 then 2 * turns - 1 else 2 * turns
  }

  /** Data, then the indirect block and its bitmap block, then the inode. */
  function WriteBound(off: nat, n: nat): int {
    DataCost(off, Spanned(off, n)) + 3
  }

  ghost function Rooted(x: nat, ref: map<Slot, nat>, inum: nat): set<nat> {
    if Slot(inum, NDIRECT) in ref then {ref[Slot(inum, NDIRECT)], x} else {}
  }

  /** What was logged beyond `l0` is in `d`, or is the indirect block or the bitmap block `x` its allocation changed. */
  ghost predicate Accounted(l: set<nat>, l0: set<nat>, d: set<nat>, x: nat, ref: map<Slot, nat>, inum: nat) {
    l <= l0 + d + Rooted(x, ref, inum)
  }

  ghost function NextD(d: set<nat>, v: Vol, v1: Vol, inum: nat, n: nat, addr: nat): set<nat> {
    d + Cost(v.sb, v.g.ref, v1.g.ref, DataSlot(inum, n)) + (if addr != 0 then {addr} else {})
  }

  ghost function NextX(x: nat, v: Vol, v1: Vol, inum: nat): nat {
    var root := Slot(inum, NDIRECT);
    if root in v1.g.ref && root !in v.g.ref then BitmapBlock(v.sb, v1.g.ref[root]) else x
  }

  lemma AccountBmap(l: set<nat>, l0: set<nat>, d: set<nat>, x: nat, v: Vol, v1: Vol, inum: nat, n: nat, addr: nat)
    requires Accounted(l, l0, d, x, v.g.ref, inum) && Good(v1) && Filled(v, v1, DataSlot(inum, n), addr)
    ensures Accounted(l + Touched(v, v1, inum, n) + (if addr != 0 then {addr} else {}), l0,
                      NextD(d, v, v1, inum, n, addr), NextX(x, v, v1, inum), v1.g.ref, inum)
  {
    hide Good, Extends, Bit, Zeroed;
    var root, s := Slot(inum, NDIRECT), DataSlot(inum, n);
    if root in v.g.ref { ExtendsAt(v, v1, root); }
    if n >= NDIRECT && s in v1.g.ref { RootFirst(v1, s); }
  }

  lemma AccountLess(l: set<nat>, l': set<nat>, l0: set<nat>, d: set<nat>, x: nat, ref: map<Slot, nat>, inum: nat)
    requires Accounted(l, l0, d, x, ref, inum) && l' <= l
    ensures Accounted(l', l0, d, x, ref, inum)
  {
  }

  /** `turns` blocks have been dealt with, and the write goes on at a block boundary if it is not over. */
  ghost predicate Turned(off: nat, n: nat, tot: nat, turns: nat) {
    && (turns > 0 && tot < n ==> off % BSIZE + tot == turns * BSIZE)
    && turns <= Spanned(off, n) && (turns == 0 ==> tot == 0)
  }

  lemma BoundPositive(off: nat, n: nat)
    ensures WriteBound(off, n) >= 0
  {
  }

  /** A block begun before `off`, which is at most the file's size, has been mapped already. */
  lemma BegunIsMapped(v: Vol, inum: nat, off: nat)
    requires Good(v) && inum < |v.inodes| && off <= v.inodes[inum].size && off % BSIZE > 0
    ensures PosSlot(inum, off) in v.g.ref
  {
    hide Marks, Shaped, Inverse, DirectOk, IndirectOk;
    assert InodeOk(v.inodes[inum], v.disk, v.g.ref, inum);
    assert off / BSIZE * BSIZE < off;
  }

  lemma OnBoundary(off: nat, tot: nat, turns: nat)
    requires off % BSIZE + tot == turns * BSIZE
    ensures (off + tot) % BSIZE == 0
  {
    assert off + tot == (off / BSIZE + turns) * BSIZE;
  }

  /** Where the loop of writei stands when a copy faults. */
  lemma FaultCounts(off: nat, n: nat, tot: nat, m: nat, turns: nat, good: nat)
    requires tot < n && m == Min(n - tot, BSIZE - (off + tot) % BSIZE) && Turned(off, n, tot, turns)
    requires tot <= good < tot + m
    ensures good < n && tot == Counted(off, n, good)
  {
    if turns > 0 {
      OnBoundary(off, tot, turns);
      assert turns * BSIZE >= BSIZE;
    }
  }

  lemma TurnArithmetic(off: nat, n: nat, tot: nat, m: nat, turns: nat)
    requires tot < n && m == Min(n - tot, BSIZE - (off + tot) % BSIZE) && Turned(off, n, tot, turns)
    ensures Turned(off, n, tot + m, turns + 1)
    ensures DataCost(off, turns + 1) == DataCost(off, turns) + (if turns == 0 && off % BSIZE > 0 then 1 else 2)
  {
    if turns == 0 {
      assert off % BSIZE + n + BSIZE - 1 >= BSIZE;
    } else {
      assert (off + tot) % BSIZE == 0 by { OnBoundary(off, tot, turns); }
    }
  }

  lemma NextCount(d: set<nat>, v: Vol, v1: Vol, inum: nat, n: nat, addr: nat)
    requires Filled(v, v1, DataSlot(inum, n), addr)
    ensures |NextD(d, v, v1, inum, n, addr)| <= |d| + (if DataSlot(inum, n) in v.g.ref then 1 else 2)
  {
    hide Extends, Bit, Zeroed, BlockAt;
    var d' := NextD(d, v, v1, inum, n, addr);
    if DataSlot(inum, n) in v.g.ref {
      assert d' == d + {addr} || d' == d;
    } else if addr != 0 {
      assert d' == d + {addr} + {BitmapBlock(v.sb, addr)};
    }
  }

  lemma NextTurn(v0: Vol, v: Vol, v1: Vol, inum: nat, off: nat, n: nat, data: seq<Byte>, m: nat, turns: nat,
                 d: set<nat>, addr: nat)
    requires Good(v0) && inum < |v0.inodes| && off <= v0.inodes[inum].size && Wrote(v0, v, inum, off, data)
    requires |data| < n && m == Min(n - |data|, BSIZE - (off + |data|) % BSIZE) && Turned(off, n, |data|, turns)
    requires Filled(v, v1, PosSlot(inum, off + |data|), addr) && |d| <= DataCost(off, turns)
    ensures |NextD(d, v, v1, inum, (off + |data|) / BSIZE, addr)| <= DataCost(off, turns + 1)
    ensures Turned(off, n, |data| + m, turns + 1) && turns + 1 <= Spanned(off, n)
  {
    hide Good, Filled, NextD, BlockAt, DataCost, Spanned, ByteAt;
    TurnArithmetic(off, n, |data|, m, turns);
    if turns == 0 && off % BSIZE > 0 { BegunIsMapped(v0, inum, off); }
    NextCount(d, v, v1, inum, (off + |data|) / BSIZE, addr);
  }

  /** Every block that was free is still free, was taken for data, or has become the indirect block. */
  ghost predicate TookFew(v0: Vol, v: Vol, inum: nat, taken: set<nat>, turns: nat) {
    && |taken| <= turns
    && FreeBlocks(v0.sb, v0.bitmap) <= FreeBlocks(v.sb, v.bitmap) + taken + {Lookup(v.g.ref, Slot(inum, NDIRECT))}
  }

  ghost function NextTaken(taken: set<nat>, addr: nat): set<nat> {
    if addr != 0 then taken + {addr} else taken
  }

  lemma TakesOne(v: Vol, v1: Vol, inum: nat, n: nat, addr: nat, b: nat)
    requires Good(v) && Good(v1) && Filled(v, v1, DataSlot(inum, n), addr) && b in FreeBlocks(v.sb, v.bitmap)
    ensures b in FreeBlocks(v1.sb, v1.bitmap) || b == addr || b == Lookup(v1.g.ref, Slot(inum, NDIRECT))
  {
    hide Shaped, InodeOk, Bit, BlockAt, Zeroed;
  }

  lemma TakesFew(v0: Vol, v: Vol, v1: Vol, inum: nat, n: nat, addr: nat, taken: set<nat>, turns: nat)
    requires Good(v0) && Good(v) && Good(v1) && Filled(v, v1, DataSlot(inum, n), addr)
             && TookFew(v0, v, inum, taken, turns)
    ensures TookFew(v0, v1, inum, NextTaken(taken, addr), turns + 1)
    ensures addr == 0 ==> |FreeBlocks(v0.sb, v0.bitmap)| <= turns + 1
  {
    hide Good, Bit, FreeBlocks, Zeroed, BlockAt;
    var free, root := FreeBlocks(v0.sb, v0.bitmap), Slot(inum, NDIRECT);
    forall b | b in free ensures b in FreeBlocks(v1.sb, v1.bitmap) + NextTaken(taken, addr) + {Lookup(v1.g.ref, root)} {
      NotFree(v0, b);
      if b in FreeBlocks(v.sb, v.bitmap) { TakesOne(v, v1, inum, n, addr, b); }
      if root in v.g.ref { ExtendsAt(v, v1, root); }
    }
    if addr == 0 {
      NoneFree(v1.sb, v1.bitmap);
      Fewer(free, taken + {Lookup(v1.g.ref, root)});
    }
  }

  lemma NotFree(v: Vol, b: nat)
    requires Good(v) && b in FreeBlocks(v.sb, v.bitmap)
    ensures b != 0
  {
    BitmapCovers(v);
  }

  lemma NoneFree(sb: Super, bitmap: seq<bv8>)
    requires Full(sb, bitmap)
    ensures FreeBlocks(sb, bitmap) == {}
  {
  }

  /** How far a write has come, which blocks it has accounted for, and which data blocks it has been given. */
  datatype Tally = Tally(d: set<nat>, x: nat, turns: nat, torn: bool, taken: set<nat>)

  ghost predicate Progress(v0: Vol, v: Vol, l0: set<nat>, l: set<nat>, inum: nat, off: nat, n: nat, data: seq<Byte>,
                           a: Tally)
  {
    && Wrote(v0, v, inum, off, data) && Accounted(l, l0, a.d, a.x, v.g.ref, inum)
    && |a.d| <= DataCost(off, a.turns) && a.turns <= Spanned(off, n) && (!a.torn ==> Recorded(v0, v, l))
    && TookFew(v0, v, inum, a.taken, a.turns)
  }

  ghost function NextTally(a: Tally, v: Vol, v1: Vol, inum: nat, n: nat, addr: nat, torn: bool): Tally {
    Tally(NextD(a.d, v, v1, inum, n, addr), NextX(a.x, v, v1, inum), a.turns + 1, torn, NextTaken(a.taken, addr))
  }

  lemma ProgressNone(v: Vol, l: set<nat>, inum: nat, off: nat, n: nat)
    ensures Progress(v, v, l, l, inum, off, n, [], Tally({}, 0, 0, false, {})) && Turned(off, n, 0, 0)
  {
    hide Wrote, Recorded, FreeBlocks;
    WroteNothing(v, inum, off);
    RecordedSelf(v, l);
  }

  lemma Prefixes(src: seq<Byte>, tot: nat, m: nat, k: nat)
    requires tot + m <= |src| && k <= m
    ensures src[..tot] + src[tot..tot + m][..k] == src[..tot + k]
  {
  }

  lemma ProgressStep(v0: Vol, v: Vol, v1: Vol, v2: Vol, l0: set<nat>, l: set<nat>, l2: set<nat>, inum: nat, off: nat,
                     n: nat, data: seq<Byte>, part: seq<Byte>, m: nat, addr: nat, a: Tally, torn: bool)
    requires Good(v0) && Good(v) && Good(v1) && inum < |v0.inodes| && off <= v0.inodes[inum].size
    requires |data| < n && m == Min(n - |data|, BSIZE - (off + |data|) % BSIZE) && |part| <= m
    requires Progress(v0, v, l0, l, inum, off, n, data, a) && Turned(off, n, |data|, a.turns)
    requires Filled(v, v1, PosSlot(inum, off + |data|), addr)
    requires v2 == if addr == 0 then v1 else PutBytes(v1, addr, (off + |data|) % BSIZE, part)
    requires !a.torn && (torn || Recorded(v, v2, l2)) && l <= l2
    requires l2 <= l + Touched(v, v1, inum, (off + |data|) / BSIZE) + (if addr != 0 then {addr} else {})
    ensures var a' := NextTally(a, v, v1, inum, (off + |data|) / BSIZE, addr, torn);
            && Progress(v0, v2, l0, l2, inum, off, n, if addr == 0 then data else data + part, a')
            && Turned(off, n, |data| + m, a'.turns) && a'.torn == torn
    ensures |v2.inodes| == |v.inodes|
    ensures addr == 0 ==> Full(v2.sb, v2.bitmap) && |FreeBlocks(v0.sb, v0.bitmap)| <= Spanned(off, n)
  {
    hide Good, Wrote, Filled, Accounted, NextD, NextTaken, DataCost, Turned, Full, Touched, Recorded, FreeBlocks,
         Spanned;
    TakesFew(v0, v, v1, inum, (off + |data|) / BSIZE, addr, a.taken, a.turns);
    ChunkWrote(v0, v, v1, inum, off, data, part, addr);
    AccountBmap(l, l0, a.d, a.x, v, v1, inum, (off + |data|) / BSIZE, addr);
    NextTurn(v0, v, v1, inum, off, n, data, m, a.turns, a.d, addr);
    var a' := NextTally(a, v, v1, inum, (off + |data|) / BSIZE, addr, torn);
    if !torn { RecordedTwice(v0, v, v2, l, l2); }
    AccountLess(l + Touched(v, v1, inum, (off + |data|) / BSIZE) + (if addr != 0 then {addr} else {}), l2, l0,
                a'.d, a'.x, v1.g.ref, inum);
  }

  /** The blocks logged by a write, its inode's among them. */
  ghost function WriteSet(a: Tally, ref: map<Slot, nat>, sb: Super, inum: nat): set<nat> {
    a.d + Rooted(a.x, ref, inum) + {InodeBlock(sb, inum)}
  }

  lemma WriteCost(v0: Vol, v: Vol, l0: set<nat>, l: set<nat>, inum: nat, off: nat, n: nat, data: seq<Byte>, a: Tally)
    requires Progress(v0, v, l0, l, inum, off, n, data, a)
    ensures Wrote(v0, v, inum, off, data)
    ensures l + {InodeBlock(v.sb, inum)} <= l0 + WriteSet(a, v.g.ref, v.sb, inum)
    ensures |WriteSet(a, v.g.ref, v.sb, inum)| <= WriteBound(off, n)
    ensures !a.torn ==> Recorded(v0, v, l)
  {
    hide Wrote, Recorded;
  }

  /** The bytes filewrite writes in one transaction. */
  const CHUNK: nat := (MAXOPBLOCKS - 1 - 1 - 2) / 2 * BSIZE

  /**
   * What filewrite writes from byte i of n on, with `good` of them readable, while there is room on the disk: chunk by
   * chunk, up to one that would exceed the largest file or that a fault cuts short.
   */
  function Progressed(off: nat, n: nat, good: nat, i: nat): (r: nat)
    requires i <= n
    ensures r <= n - i
    ensures off + n <= MAXFILE * BSIZE && good >= n ==> r == n - i
    decreases n - i
  {
    if i == n then 0
    else
      var n1 := Min(n - i, CHUNK);
      var c := Counted(off + i, n1, if good > i then good - i else 0);
      if off + i + n1 > MAXFILE * BSIZE then 0 else if c < n1 then c else n1 + Progressed(off, n, good, i + n1)
  }

  /** Whatever its offset, a chunk of filewrite's size fits the reservation of one system call. */
  lemma ChunkFits(off: nat, n: nat)
    requires n <= CHUNK
    ensures WriteBound(off, n) <= MAXOPBLOCKS
  {
  }

  /** One chunk of it, on which writei has returned r. */
  lemma ProgressedNext(off: nat, n: nat, good: nat, i: nat, n1: nat, good1: nat, r: int, full: bool)
    requires i < n && n1 == Min(n - i, CHUNK) && good1 == if good > i then good - i else 0
    requires -1 <= r <= n1 && (r == -1 <==> off + i + n1 > MAXFILE * BSIZE)
    requires r >= 0 ==> r == Counted(off + i, n1, good1) || (full && r < n1)
    ensures r == n1 ==> Progressed(off, n, good, i) == n1 + Progressed(off, n, good, i + n1)
    ensures r != n1 ==> full || Progressed(off, n, good, i) == if r > 0 then r else 0
  {
  }

  /** A transaction of filewrite that logs the blocks `l`: what changed is in the log, and fits a reservation. */
  ghost predicate Transaction(v: Vol, v': Vol, l: set<nat>, inum: nat) {
    && Recorded(v, v', l) && OneInode(v.inodes, v'.inodes, inum)
    && (v'.inodes == v.inodes || InodeBlock(v.sb, inum) in l) && |l| <= MAXOPBLOCKS
  }

  /** A good volume in which the first `m` bytes of `src` have been written to the file of `v0`. */
  ghost predicate HasPrefix(v0: Vol, v: Vol, inum: nat, off: nat, src: seq<Byte>, m: nat) {
    Good(v) && inum < |v0.inodes| && m <= |src| && IsWrite(v0, v, inum, off, src[..m], m)
  }

  /** The volumes between the transactions of a filewrite that has written `done` bytes: each has one chunk more. */
  ghost predicate Story(vols: seq<Vol>, txns: seq<set<nat>>, inum: nat, off: nat, src: seq<Byte>, done: nat) {
    && |vols| == |txns| + 1 && done <= |txns| * CHUNK
    && (forall k :: 0 <= k < |txns| ==> Transaction(vols[k], vols[k + 1], txns[k], inum))
    && (forall k :: 0 <= k <= |txns| ==> HasPrefix(vols[0], vols[k], inum, off, src, Min(k * CHUNK, done)))
  }

  lemma StoryBegins(v: Vol, inum: nat, off: nat, src: seq<Byte>)
    requires Good(v) && inum < |v.inodes| && off <= v.inodes[inum].size
    ensures StoryTold([v], [], inum, off, src, 0, 0)
  {
    hide Good, IsWrite;
    WriteNothing(v, inum, off);
    assert src[..0] == [];
  }

  lemma StoryGoes(vols: seq<Vol>, txns: seq<set<nat>>, inum: nat, off: nat, src: seq<Byte>, done: nat, v: Vol,
                  l: set<nat>, r: nat)
    requires Story(vols, txns, inum, off, src, done) && done == |txns| * CHUNK && r <= CHUNK
    requires Transaction(vols[|txns|], v, l, inum) && HasPrefix(vols[0], v, inum, off, src, done + r)
    ensures Story(vols + [v], txns + [l], inum, off, src, done + r)
  {
    hide Transaction, HasPrefix;
    var vols', txns' := vols + [v], txns + [l];
    forall k | 0 <= k < |txns'| ensures Transaction(vols'[k], vols'[k + 1], txns'[k], inum) {
      if k < |txns| { assert Transaction(vols[k], vols[k + 1], txns[k], inum); }
    }
    forall k | 0 <= k <= |txns'| ensures HasPrefix(vols'[0], vols'[k], inum, off, src, Min(k * CHUNK, done + r)) {
      if k <= |txns| {
        assert HasPrefix(vols[0], vols[k], inum, off, src, Min(k * CHUNK, done));
        assert k * CHUNK <= done;
      }
    }
  }

  lemma StoryShape(vols: seq<Vol>, txns: seq<set<nat>>, inum: nat, off: nat, src: seq<Byte>, done: nat)
    requires Story(vols, txns, inum, off, src, done)
    ensures |vols| == |txns| + 1 && Good(vols[|txns|])
  {
    hide Good, IsWrite, Transaction;
    assert HasPrefix(vols[0], vols[|txns|], inum, off, src, Min(|txns| * CHUNK, done));
  }

  /** What one turn of filewrite's loop adds, torn or not. */
  /** The story of all transactions, or of all but the last if that one tore. */
  ghost predicate StoryTold(vols: seq<Vol>, txns: seq<set<nat>>, inum: nat, off: nat, src: seq<Byte>, tot: nat,
                            landed: nat)
  {
    if landed == tot then Story(vols, txns, inum, off, src, tot)
    else |vols| == |txns| + 1 && |txns| > 0
         && Story(vols[..|txns|], txns[..|txns| - 1], inum, off, src, (|txns| - 1) * CHUNK)
  }

  lemma StoryTurn(vols: seq<Vol>, txns: seq<set<nat>>, inum: nat, off: nat, src: seq<Byte>, done: nat, v: Vol,
                  l: set<nat>, chunk: seq<Byte>, r: int, part: nat) returns (landed: nat)
    requires |vols| == |txns| + 1 && StoryTold(vols, txns, inum, off, src, done, done)
    requires done == |txns| * CHUNK && done + |chunk| <= |src| && |chunk| <= CHUNK
    requires Good(v) && chunk == src[done..done + |chunk|]
    requires inum < |vols[0].inodes| && IsWrite(vols[0], vols[|txns|], inum, off, src[..done], done)
    requires r == -1 ==> v == vols[|txns|]
    requires r != -1 ==> && 0 <= r <= part <= |chunk|
                         && inum < |vols[|txns|].inodes| && IsWrite(vols[|txns|], v, inum, off + done, chunk[..part], r)
    requires r == -1 || part == r ==> Transaction(vols[|txns|], v, l, inum)
    ensures landed == if r == -1 then done else done + part
    ensures landed <= |src| && IsWrite(vols[0], v, inum, off, src[..landed], if r == -1 then done else done + r)
    ensures StoryTold(vols + [v], txns + [l], inum, off, src, if r == -1 then done else done + r, landed)
  {
    hide Good, IsWrite, Story, Transaction;
    StoryShape(vols, txns, inum, off, src, done);
    assert (vols + [v])[..|vols|] == vols && (txns + [l])[..|txns|] == txns;
    landed := done;
    if r != -1 {
      SizeAfter(vols[0], vols[|txns|], inum, off, src[..done], done);
      WriteTwice(vols[0], vols[|txns|], v, inum, off, src[..done], chunk[..part], r);
      assert src[..done] + chunk[..part] == src[..done + part];
      landed := done + part;
    }
    if r == -1 || part == r {
      StoryGoes(vols, txns, inum, off, src, done, v, l, landed - done);
    }
  }

  /** filewrite of n bytes at `off` has written the first i of them and goes on. */
  ghost predicate Underway(v0: Vol, vols: seq<Vol>, txns: seq<set<nat>>, inum: nat, off: nat, src: seq<Byte>, n: nat,
                           good: nat, i: nat)
  {
    && inum < |v0.inodes| && off <= v0.inodes[inum].size && |vols| == |txns| + 1 && vols[0] == v0 && i <= n <= |src|
    && IsWrite(v0, vols[|txns|], inum, off, src[..i], i) && StoryTold(vols, txns, inum, off, src, i, i)
    && Progressed(off, n, good, 0) == i + Progressed(off, n, good, i)
  }

  /**
   * filewrite of n bytes at `off` has ended with `tot` of them counted and `landed` in the file: as many as the
   * arguments determine, unless the disk is full.
   */
  ghost predicate FileWritten(v0: Vol, vols: seq<Vol>, txns: seq<set<nat>>, inum: nat, off: nat, src: seq<Byte>, n: nat,
                              good: nat, tot: nat, landed: nat)
  {
    && inum < |v0.inodes| && |vols| == |txns| + 1 && vols[0] == v0 && tot <= landed <= n <= |src|
    && IsWrite(v0, vols[|txns|], inum, off, src[..landed], tot) && StoryTold(vols, txns, inum, off, src, tot, landed)
    && (Full(vols[|txns|].sb, vols[|txns|].bitmap) || tot == Progressed(off, n, good, 0))
    && (good >= n ==> landed == tot)
  }

  lemma UnderwayBegins(v: Vol, inum: nat, off: nat, src: seq<Byte>, n: nat, good: nat)
    requires Good(v) && inum < |v.inodes| && off <= v.inodes[inum].size && n <= |src|
    ensures Underway(v, [v], [], inum, off, src, n, good, 0)
  {
    hide Good, IsWrite, StoryTold, Progressed;
    WriteNothing(v, inum, off);
    StoryBegins(v, inum, off, src);
    assert src[..0] == [];
  }

  lemma UnderwaySize(v0: Vol, vols: seq<Vol>, txns: seq<set<nat>>, inum: nat, off: nat, src: seq<Byte>, n: nat,
                     good: nat, i: nat)
    requires Underway(v0, vols, txns, inum, off, src, n, good, i)
    ensures |vols| == |txns| + 1 && inum < |vols[|txns|].inodes| && off + i <= vols[|txns|].inodes[inum].size
  {
    hide IsWrite, StoryTold, Progressed;
    SizeAfter(v0, vols[|txns|], inum, off, src[..i], i);
  }

  /** A transaction that has returned r takes it on, or is its last. */
  lemma UnderwayTurn(v0: Vol, vols: seq<Vol>, txns: seq<set<nat>>, inum: nat, off: nat, src: seq<Byte>, n: nat,
                     good: nat, i: nat, v: Vol, l: set<nat>, n1: nat, good1: nat, r: int, part: nat)
    returns (landed: nat)
    requires Underway(v0, vols, txns, inum, off, src, n, good, i) && i == |txns| * CHUNK < n && Good(v)
    requires n1 == Min(n - i, CHUNK) && good1 == if good > i then good - i else 0
    requires -1 <= r && (r == -1 <==> off + i + n1 > MAXFILE * BSIZE) && (r == -1 ==> v == vols[|txns|])
    requires r >= 0 ==> && r <= part <= n1 && inum < |vols[|txns|].inodes|
                        && IsWrite(vols[|txns|], v, inum, off + i, src[i..i + n1][..part], r)
                        && (r == Counted(off + i, n1, good1) || (Full(v.sb, v.bitmap) && r < n1))
                        && (good1 >= n1 ==> part == r)
    requires r == -1 || part == r ==> Transaction(vols[|txns|], v, l, inum)
    ensures r == n1 ==> Underway(v0, vols + [v], txns + [l], inum, off, src, n, good, i + n1)
    ensures r != n1 ==>
            FileWritten(v0, vols + [v], txns + [l], inum, off, src, n, good, i + (if r > 0 then r else 0), landed)
  {
    hide Good, IsWrite, StoryTold, Progressed, Counted, Full, Transaction;
    ProgressedNext(off, n, good, i, n1, good1, r, Full(v.sb, v.bitmap));
    landed := StoryTurn(vols, txns, inum, off, src, i, v, l, src[i..i + n1], r, part);
  }

  lemma UnderwayEnds(v0: Vol, vols: seq<Vol>, txns: seq<set<nat>>, inum: nat, off: nat, src: seq<Byte>, n: nat,
                     good: nat)
    requires Underway(v0, vols, txns, inum, off, src, n, good, n)
    ensures FileWritten(v0, vols, txns, inum, off, src, n, good, n, n)
  {
    hide IsWrite, StoryTold, Full;
  }

  /** A source that can be read and a file that may be as long are written to the end, unless the disk is full. */
  lemma WrittenWhole(v0: Vol, vols: seq<Vol>, txns: seq<set<nat>>, inum: nat, off: nat, src: seq<Byte>, n: nat,
                     good: nat, tot: nat, landed: nat)
    requires FileWritten(v0, vols, txns, inum, off, src, n, good, tot, landed) && off + n <= MAXFILE * BSIZE
             && good >= n
    ensures |vols| == |txns| + 1 && (tot == n || Full(vols[|txns|].sb, vols[|txns|].bitmap))
  {
    hide IsWrite, StoryTold, Full;
  }

  /** Only bitmap blocks were added to the log. */
  ghost predicate BitmapOnly(sb: Super, l: set<nat>, l': set<nat>) {
    l <= l' && forall b :: b in l' ==> b in l || exists c: nat :: c < sb.size && b == BitmapBlock(sb, c)
  }

  lemma BitmapOnlyTwice(sb: Super, l: set<nat>, l1: set<nat>, l2: set<nat>)
    requires BitmapOnly(sb, l, l1) && BitmapOnly(sb, l1, l2)
    ensures BitmapOnly(sb, l, l2)
  {
  }

  function Drop(g: Book, s: Slot): Book
    requires s in g.ref
  {
    Book(g.ref - {s}, g.owner - {g.ref[s]})
  }

  lemma DropKeeps(g: Book, sb: Super, inodes: nat, s: Slot)
    requires Inverse(g, sb, inodes) && s in g.ref
    requires s.k == NDIRECT ==> forall t :: t in g.ref && t.inum == s.inum ==> t.k <= NDIRECT
    ensures Inverse(Drop(g, s), sb, inodes) && Drop(g, s).owner.Keys == g.owner.Keys - {g.ref[s]}
  {
  }

  /** The slots left when those of `inum` from `lo` to `hi` are gone. */
  ghost function Without(ref: map<Slot, nat>, inum: nat, lo: nat, hi: nat): map<Slot, nat> {
    map s | s in ref && !(s.inum == inum && lo <= s.k < hi) :: ref[s]
  }

  lemma WithoutNone(ref: map<Slot, nat>, inum: nat, lo: nat)
    ensures Without(ref, inum, lo, lo) == ref
  {
  }

  lemma WithoutNext(ref: map<Slot, nat>, inum: nat, lo: nat, k: nat)
    requires lo <= k
    ensures Without(ref, inum, lo, k + 1) == Without(ref, inum, lo, k) - {Slot(inum, k)}
    ensures Slot(inum, k) in ref <==> Slot(inum, k) in Without(ref, inum, lo, k)
    ensures Slot(inum, k) in ref ==> Without(ref, inum, lo, k)[Slot(inum, k)] == ref[Slot(inum, k)]
  {
    assert forall s: Slot :: s.inum == inum && lo <= s.k < k + 1
                             <==> (s.inum == inum && lo <= s.k < k) || s == Slot(inum, k);
  }

  lemma GoodParts(v: Vol, inum: nat)
    requires Good(v) && inum < |v.inodes|
    ensures Marks(v.bitmap, v.sb, v.g.owner.Keys) && Inverse(v.g, v.sb, |v.inodes|)
            && DirectOk(v.inodes[inum], v.g.ref, inum)
  {
    hide Marks, Inverse, DirectOk, IndirectOk, Whole;
    assert InodeOk(v.inodes[inum], v.disk, v.g.ref, inum);
  }

  lemma EntriesGone(ref: map<Slot, nat>, sb: Super, g: Book, inodes: nat, inum: nat)
    requires g.ref == Without(ref, inum, NDIRECT + 1, NDIRECT + 1 + NINDIRECT) && Inverse(g, sb, inodes)
    ensures forall t :: t in g.ref && t.inum == inum ==> t.k <= NDIRECT
    ensures Slot(inum, NDIRECT) in ref ==>
              Slot(inum, NDIRECT) in g.ref && g.ref[Slot(inum, NDIRECT)] == ref[Slot(inum, NDIRECT)]
  {
    forall t | t in g.ref && t.inum == inum ensures t.k <= NDIRECT {
      assert InRange(t, inodes);
    }
  }

  /** Freeing the direct blocks leaves the indirect block and its entries in place. */
  lemma IndirectLeft(v: Vol, inum: nat)
    requires Good(v) && inum < |v.inodes|
    ensures IndirectOk(v.disk, Without(v.g.ref, inum, 0, NDIRECT), inum) && Shaped(v.disk, v.sb)
    ensures Lookup(Without(v.g.ref, inum, 0, NDIRECT), Slot(inum, NDIRECT)) == Lookup(v.g.ref, Slot(inum, NDIRECT))
    ensures Slot(inum, NDIRECT) in v.g.ref <==> Slot(inum, NDIRECT) in Without(v.g.ref, inum, 0, NDIRECT)
  {
    hide Marks, Inverse, DirectOk, Whole, Word;
    assert InodeOk(v.inodes[inum], v.disk, v.g.ref, inum);
  }

  /** After the frees no slot of the inode is left, whether it had an indirect block or not. */
  lemma AllGone(v: Vol, inum: nat)
    requires Good(v) && inum < |v.inodes|
    ensures var ref1 := Without(v.g.ref, inum, 0, NDIRECT);
            var rest := Without(v.g.ref, inum, 0, NDIRECT + 1 + NINDIRECT);
            && (Slot(inum, NDIRECT) !in v.g.ref ==> ref1 == rest)
            && Without(Without(ref1, inum, NDIRECT + 1, NDIRECT + 1 + NINDIRECT), inum, NDIRECT, NDIRECT + 1) == rest
  {
    hide Marks, InodeOk, Shaped;
    forall s | s in v.g.ref && s.inum == inum ensures s.k < NDIRECT + 1 + NINDIRECT {
      assert InRange(s, |v.inodes|);
    }
    if Slot(inum, NDIRECT) !in v.g.ref {
      forall s | s in v.g.ref && s.inum == inum ensures s.k < NDIRECT {
      }
    }
  }

  lemma SlotsLeft(v: Vol, ref: map<Slot, nat>, inum: nat)
    requires Inverse(v.g, v.sb, |v.inodes|) && ref == Without(v.g.ref, inum, 0, NDIRECT + 1 + NINDIRECT)
    ensures forall s :: s in ref <==> s in v.g.ref && s.inum != inum
    ensures forall s :: s in ref ==> ref[s] == v.g.ref[s]
  {
    forall s | s in v.g.ref && s.inum == inum ensures s.k < NDIRECT + 1 + NINDIRECT {
      assert InRange(s, |v.inodes|);
    }
  }

  lemma OtherInode(inode: Inode, disk: seq<seq<Byte>>, ref: map<Slot, nat>, ref': map<Slot, nat>, i: nat)
    requires InodeOk(inode, disk, ref, i)
    requires forall s: Slot :: s.inum == i ==> (s in ref <==> s in ref') && (s in ref ==> ref'[s] == ref[s])
    ensures InodeOk(inode, disk, ref', i)
  {
    hide Word;
  }

  lemma EmptyInode(v: Vol, inum: nat)
    requires inum < |v.inodes| && forall s :: s in v.g.ref ==> s.inum != inum
    requires |v.inodes[inum].addrs| == NDIRECT + 1 && forall k :: 0 <= k <= NDIRECT ==> v.inodes[inum].addrs[k] == 0
    requires v.inodes[inum].size == 0
    ensures InodeOk(v.inodes[inum], v.disk, v.g.ref, inum)
  {
  }

  lemma OtherContent(v: Vol, v': Vol, i: nat)
    requires i < |v.inodes| == |v'.inodes| && v'.inodes[i] == v.inodes[i] && v'.disk == v.disk
    requires forall s: Slot :: s.inum == i ==>
               (s in v.g.ref <==> s in v'.g.ref) && (s in v.g.ref ==> v'.g.ref[s] == v.g.ref[s])
    ensures Content(v', i) == Content(v, i)
  {
    forall p: nat | p < v.inodes[i].size ensures ByteAt(v', i, p) == ByteAt(v, i, p) {
      assert PosSlot(i, p).inum == i;
    }
  }

  lemma TruncKeeps(v: Vol, v': Vol, inum: nat)
    requires Good(v) && inum < |v.inodes| && |v'.inodes| == |v.inodes| && v'.sb == v.sb && v'.disk == v.disk
    requires v'.g.ref == Without(v.g.ref, inum, 0, NDIRECT + 1 + NINDIRECT)
    requires Marks(v'.bitmap, v.sb, v'.g.owner.Keys) && Inverse(v'.g, v.sb, |v.inodes|)
    requires forall i :: 0 <= i < |v.inodes| && i != inum ==> v'.inodes[i] == v.inodes[i]
    requires |v'.inodes[inum].addrs| == NDIRECT + 1 && forall k :: 0 <= k <= NDIRECT ==> v'.inodes[inum].addrs[k] == 0
    requires v'.inodes[inum].size == 0
    ensures Good(v') && (forall s :: s in v'.g.ref <==> s in v.g.ref && s.inum != inum)
    ensures forall b: nat :: b < v.sb.size ==>
              (Bit(v'.bitmap, b) <==> Bit(v.bitmap, b) && !(b in v.g.owner && v.g.owner[b].inum == inum))
    ensures forall i: nat :: i < |v.inodes| && i != inum ==> Content(v', i) == Content(v, i)
  {
    hide Bit, Content, InodeOk;
    SlotsLeft(v, v'.g.ref, inum);
    forall i: nat | i < |v.inodes| ensures InodeOk(v'.inodes[i], v'.disk, v'.g.ref, i) {
      if i != inum { OtherInode(v.inodes[i], v.disk, v.g.ref, v'.g.ref, i); } else { EmptyInode(v', inum); }
    }
    forall i: nat | i < |v.inodes| && i != inum ensures Content(v', i) == Content(v, i) {
      OtherContent(v, v', i);
    }
  }

}
