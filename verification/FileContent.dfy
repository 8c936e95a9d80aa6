/** The bytes of a file, read off the block map, and what writing some of them does to every file of the volume. */
module FileContent {
  import opened Common
  import opened BlockMap

  /** The slot of the block that holds byte `p`. */
  function PosSlot(inum: nat, p: nat): Slot {
    DataSlot(inum, p / BSIZE)
  }

  ghost function ByteAt(v: Vol, inum: nat, p: nat): Byte {
    var block := BlockAt(v, PosSlot(inum, p));
    if |block| == BSIZE then block[p % BSIZE] else 0
  }

  ghost function Content(v: Vol, inum: nat): seq<Byte>
    requires inum < |v.inodes|
  {
    seq(v.inodes[inum].size, p requires 0 <= p => ByteAt(v, inum, p))
  }

  /** `c` with `data` written over it from `off` on. */
  function Overlay(c: seq<Byte>, off: nat, data: seq<Byte>): seq<Byte>
    requires off <= |c|
  {
    c[..off] + data + (if off + |data| < |c| then c[off + |data|..] else [])
  }

  function Splice(block: seq<Byte>, o: nat, chunk: seq<Byte>): seq<Byte>
    requires o + |chunk| <= |block|
  {
    block[..o] + chunk + block[o + |chunk|..]
  }

  /** The block `addr` with `chunk` written at `o`. */
  ghost function PutBytes(v: Vol, addr: nat, o: nat, chunk: seq<Byte>): Vol {
    if addr < |v.disk| && o + |chunk| <= |v.disk[addr]|
    then v.(disk := v.disk[addr := Splice(v.disk[addr], o, chunk)])
    else v
  }

  /** A block held by a data slot may get other bytes. */
  lemma PutBytesKeeps(v: Vol, s: Slot, o: nat, chunk: seq<Byte>)
    requires Good(v) && s in v.g.ref && IsData(s) && o + |chunk| <= BSIZE
    ensures v.g.ref[s] < |v.disk| && |v.disk[v.g.ref[s]]| == BSIZE
    ensures Good(PutBytes(v, v.g.ref[s], o, chunk))
  {
    hide Marks, Inverse, Whole, DirectOk, Word;
    Held(v.g, v.sb, |v.inodes|, s);
    var addr, v' := v.g.ref[s], PutBytes(v, v.g.ref[s], o, chunk);
    ShapedUpdate(v.disk, v.sb, addr, Splice(v.disk[addr], o, chunk));
    forall i: nat | i < |v.inodes| ensures InodeOk(v'.inodes[i], v'.disk, v'.g.ref, i) {
      assert InodeOk(v.inodes[i], v.disk, v.g.ref, i);
      if Slot(i, NDIRECT) in v.g.ref { Held(v.g, v.sb, |v.inodes|, Slot(i, NDIRECT)); }
    }
  }

  /** Reading part of one block reads that part of the file. */
  lemma ChunkRead(v: Vol, inum: nat, p: nat, m: nat)
    requires Good(v) && inum < |v.inodes| && p % BSIZE + m <= BSIZE && p + m <= v.inodes[inum].size && m > 0
    ensures PosSlot(inum, p) in v.g.ref && v.g.ref[PosSlot(inum, p)] < |v.disk| && p / BSIZE < MAXFILE
    ensures |v.disk[v.g.ref[PosSlot(inum, p)]]| == BSIZE
    ensures v.disk[v.g.ref[PosSlot(inum, p)]][p % BSIZE..p % BSIZE + m] == Content(v, inum)[p..p + m]
  {
    hide Marks, Inverse, IndirectOk, DirectOk;
    var s := PosSlot(inum, p);
    assert InodeOk(v.inodes[inum], v.disk, v.g.ref, inum);
    assert p / BSIZE * BSIZE <= p;
    Held(v.g, v.sb, |v.inodes|, s);
    var got, want := v.disk[v.g.ref[s]][p % BSIZE..p % BSIZE + m], Content(v, inum)[p..p + m];
    forall i: nat | i < m ensures got[i] == want[i] {
      SameBlock(p, i);
    }
  }

  lemma SameBlock(p: nat, i: nat)
    requires p % BSIZE + i < BSIZE
    ensures (p + i) / BSIZE == p / BSIZE && (p + i) % BSIZE == p % BSIZE + i
  {
  }

  /**
   * From `v` to `v'`, bytes `off` on of one file became `data`. Sizes are as they were; no slot has lost its block,
   * and the blocks of other files hold what they held.
   */
  ghost predicate Wrote(v: Vol, v': Vol, inum: nat, off: nat, data: seq<Byte>) {
    && v'.sb == v.sb && |v'.inodes| == |v.inodes|
    && (forall i: nat :: i < |v.inodes| ==> v'.inodes[i].size == v.inodes[i].size)
    && (forall s :: s in v.g.ref ==> s in v'.g.ref && (IsData(s) && s.inum != inum ==> BlockAt(v', s) == BlockAt(v, s)))
    && (forall p: nat :: PosSlot(inum, p) in v.g.ref ==> ByteAt(v', inum, p) == Written(v, inum, off, data, p))
    && (forall p: nat :: off <= p < off + |data| ==>
          PosSlot(inum, p) in v'.g.ref && ByteAt(v', inum, p) == data[p - off])
  }

  ghost function Written(v: Vol, inum: nat, off: nat, data: seq<Byte>, p: nat): Byte {
    if off <= p < off + |data| then data[p - off] else ByteAt(v, inum, p)
  }

  lemma WroteNothing(v: Vol, inum: nat, off: nat)
    ensures Wrote(v, v, inum, off, [])
  {
  }

  lemma WroteExtends(v: Vol, v1: Vol, v2: Vol, inum: nat, off: nat, data: seq<Byte>)
    requires Wrote(v, v1, inum, off, data) && Extends(v1, v2)
    ensures Wrote(v, v2, inum, off, data)
  {
    hide BlockAt;
    forall s | s in v.g.ref ensures s in v2.g.ref && (IsData(s) && s.inum != inum ==> BlockAt(v2, s) == BlockAt(v, s)) {
      assert SlotKept(v1, v2, s);
    }
    forall p: nat | PosSlot(inum, p) in v1.g.ref
      ensures PosSlot(inum, p) in v2.g.ref && ByteAt(v2, inum, p) == ByteAt(v1, inum, p) {
      assert SlotKept(v1, v2, PosSlot(inum, p)) && IsData(PosSlot(inum, p));
    }
  }

  /** One chunk written into one block changes those bytes of the file and no others. */
  lemma PutByte(v: Vol, inum: nat, pos: nat, chunk: seq<Byte>, p: nat)
    requires Good(v) && PosSlot(inum, pos) in v.g.ref && pos % BSIZE + |chunk| <= BSIZE && PosSlot(inum, p) in v.g.ref
    ensures ByteAt(PutBytes(v, v.g.ref[PosSlot(inum, pos)], pos % BSIZE, chunk), inum, p)
            == Written(v, inum, pos, chunk, p)
  {
    hide Marks, Inverse, InodeOk;
    var s, t := PosSlot(inum, pos), PosSlot(inum, p);
    Held(v.g, v.sb, |v.inodes|, s);
    Held(v.g, v.sb, |v.inodes|, t);
    if p / BSIZE == pos / BSIZE {
      assert p - pos == p % BSIZE - pos % BSIZE;
    } else {
      assert pos <= p ==> p % BSIZE + BSIZE * (p / BSIZE - pos / BSIZE) == pos % BSIZE + (p - pos);
    }
  }

  lemma PutElsewhere(v: Vol, s: Slot, t: Slot, o: nat, chunk: seq<Byte>)
    requires Good(v) && s in v.g.ref && t in v.g.ref && s != t
    ensures BlockAt(PutBytes(v, v.g.ref[s], o, chunk), t) == BlockAt(v, t)
  {
    hide Marks, Inverse, InodeOk;
    Held(v.g, v.sb, |v.inodes|, s);
    Held(v.g, v.sb, |v.inodes|, t);
  }

  lemma WrotePut(v: Vol, v1: Vol, inum: nat, off: nat, data: seq<Byte>, chunk: seq<Byte>)
    requires Wrote(v, v1, inum, off, data) && Good(v1)
    requires PosSlot(inum, off + |data|) in v1.g.ref && (off + |data|) % BSIZE + |chunk| <= BSIZE
    ensures var pos := off + |data|;
            Wrote(v, PutBytes(v1, v1.g.ref[PosSlot(inum, pos)], pos % BSIZE, chunk), inum, off, data + chunk)
  {
    hide Good, ByteAt, BlockAt;
    var pos := off + |data|;
    var s := PosSlot(inum, pos);
    var v2 := PutBytes(v1, v1.g.ref[s], pos % BSIZE, chunk);
    forall t | t in v.g.ref && IsData(t) && t.inum != inum ensures BlockAt(v2, t) == BlockAt(v, t) {
      PutElsewhere(v1, s, t, pos % BSIZE, chunk);
    }
    forall p: nat | PosSlot(inum, p) in v.g.ref ensures ByteAt(v2, inum, p) == Written(v, inum, off, data + chunk, p) {
      PutByte(v1, inum, pos, chunk, p);
    }
    forall p: nat | off <= p < off + |data + chunk|
      ensures PosSlot(inum, p) in v2.g.ref && ByteAt(v2, inum, p) == (data + chunk)[p - off] {
      if p >= pos { SameBlock(pos, p - pos); }
      PutByte(v1, inum, pos, chunk, p);
    }
  }

  ghost function Resized(v: Vol, inum: nat, size: nat): Vol
    requires inum < |v.inodes|
  {
    v.(inodes := v.inodes[inum := v.inodes[inum].(size := size)])
  }

  /** The file may now end where the written bytes end. */
  lemma ResizeKeeps(v: Vol, v1: Vol, inum: nat, off: nat, data: seq<Byte>, tot: nat)
    requires Good(v) && Good(v1) && Wrote(v, v1, inum, off, data) && inum < |v.inodes|
    requires tot <= |data| && off + tot <= MAXFILE * BSIZE && off <= v.inodes[inum].size
    ensures Good(Resized(v1, inum, Max(v.inodes[inum].size, off + tot)))
  {
    hide Marks, Inverse, IndirectOk, ByteAt, BlockAt;
    var size := Max(v.inodes[inum].size, off + tot);
    assert InodeOk(v1.inodes[inum], v1.disk, v1.g.ref, inum) && InodeOk(v.inodes[inum], v.disk, v.g.ref, inum);
    forall n: nat | n * BSIZE < size ensures DataSlot(inum, n) in v1.g.ref {
      if n * BSIZE >= v.inodes[inum].size {
        assert PosSlot(inum, n * BSIZE) == DataSlot(inum, n);
      }
    }
  }

  /** The file reads as before with the data laid over it, cut at its new size; other files read as before. */
  lemma WroteContent(v: Vol, v1: Vol, inum: nat, off: nat, data: seq<Byte>, tot: nat, i: nat)
    requires Good(v) && Wrote(v, v1, inum, off, data) && inum < |v.inodes| && i < |v.inodes|
    requires tot <= |data| && off <= v.inodes[inum].size
    ensures |Content(v, i)| == v.inodes[i].size
    ensures var size := Max(v.inodes[inum].size, off + tot);
            Content(Resized(v1, inum, size), i)
            == if i == inum then Overlay(Content(v, inum), off, data)[..size] else Content(v, i)
  {
    hide Marks, Inverse, IndirectOk, DirectOk, BlockAt;
    var size := Max(v.inodes[inum].size, off + tot);
    var v2 := Resized(v1, inum, size);
    assert InodeOk(v.inodes[i], v.disk, v.g.ref, i);
    forall p: nat | p < v2.inodes[i].size
      ensures Content(v2, i)[p] == if i == inum then Overlay(Content(v, inum), off, data)[p] else Content(v, i)[p] {
      assert BlockAt(v2, PosSlot(i, p)) == BlockAt(v1, PosSlot(i, p)) by {
        ResizedBlocks(v1, inum, size, PosSlot(i, p));
      }
      if p < v.inodes[i].size {
        assert p / BSIZE * BSIZE <= p;
        assert PosSlot(i, p) in v.g.ref;
      }
    }
  }

  lemma ResizedBlocks(v: Vol, inum: nat, size: nat, s: Slot)
    requires inum < |v.inodes|
    ensures BlockAt(Resized(v, inum, size), s) == BlockAt(v, s)
  {
  }
}
