/**
 * The on-disk structures of kernel/fs.c that say which block belongs to whom: the free bitmap, the block
 * addresses in inodes, and the addresses in indirect blocks.
 */
module BlockMap {

  const BSIZE: nat := 1024
  const BPB: nat := 8192       // bitmap bits per block
  const IPB: nat := 16         // inodes per block
  const NDIRECT: nat := 12
  const NINDIRECT: nat := 256
  const MAXFILE: nat := 268

  type Byte = x: int | 0 <= x < 256
  function Zeroed(): seq<Byte> {
    seq(BSIZE, _ => 0)
  }

  datatype Super = Super(size: nat, inodestart: nat, bmapstart: nat, meta: nat) // `meta`: the first data block
  datatype Inode = Inode(addrs: seq<nat>, size: nat)

  /** A place that can hold a block address: `addrs[k]` for k up to NDIRECT, then the entries of the indirect block. */
  datatype Slot = Slot(inum: nat, k: nat)

  /** Who holds which block, and the same the other way round. */
  datatype Book = Book(ref: map<Slot, nat>, owner: map<nat, Slot>)

  function BitmapBlock(sb: Super, b: nat): nat {
    b / BPB + sb.bmapstart
  }

  function InodeBlock(sb: Super, inum: nat): nat {
    inum / IPB + sb.inodestart
  }

  // ---- bits of the bitmap ----------------------------------------------------------------------------------------

  function Mask(k: nat): bv8
    requires k < 8
  {
    if k == 0 then 1 else if k == 1 then 2 else if k == 2 then 4 else if k == 3 then 8
    else if k == 4 then 16 else if k == 5 then 32 else if k == 6 then 64 else 128
  }

  function PowerOfTwo(k: nat): nat {
    if k == 0 then 1 else 2 * PowerOfTwo(k - 1)
  }

  /** The mask is the shifted 1 of the code. */
  lemma MaskIs(k: nat)
    requires k < 8
    ensures Mask(k) as int == PowerOfTwo(k)
  {
    assert PowerOfTwo(1) == 2 && PowerOfTwo(2) == 4 && PowerOfTwo(3) == 8;
    assert PowerOfTwo(4) == 16 && PowerOfTwo(5) == 32 && PowerOfTwo(6) == 64 && PowerOfTwo(7) == 128;
  }

  predicate HasBit(v: bv8, k: nat)
    requires k < 8
  {
    v & Mask(k) != 0
  }

  function Raise(v: bv8, k: nat): bv8
    requires k < 8
  {
    v | Mask(k)
  }

  function Lower(v: bv8, k: nat): bv8
    requires k < 8
  {
    v & !Mask(k)
  }

  lemma RaiseBits(v: bv8, k: nat, j: nat)
    requires k < 8 && j < 8
    ensures HasBit(Raise(v, k), j) <==> j == k || HasBit(v, j)
  {
  }

  lemma LowerBits(v: bv8, k: nat, j: nat)
    requires k < 8 && j < 8
    ensures HasBit(Lower(v, k), j) <==> j != k && HasBit(v, j)
  {
  }

  predicate Bit(bitmap: seq<bv8>, b: nat) {
    b / 8 < |bitmap| && HasBit(bitmap[b / 8], b % 8)
  }

  /** The bits set below the file system's size are exactly those of the metadata and of `used`. */
  ghost predicate Marks(bitmap: seq<bv8>, sb: Super, used: set<nat>) {
    && sb.size <= 8 * |bitmap|
    && forall b: nat :: b < sb.size ==> (Bit(bitmap, b) <==> b < sb.meta || b in used)
  }

  function WithBit(bitmap: seq<bv8>, b: nat): seq<bv8>
    requires b / 8 < |bitmap|
  {
    bitmap[b / 8 := Raise(bitmap[b / 8], b % 8)]
  }

  function WithoutBit(bitmap: seq<bv8>, b: nat): seq<bv8>
    requires b / 8 < |bitmap|
  {
    bitmap[b / 8 := Lower(bitmap[b / 8], b % 8)]
  }

  lemma BitSet(bitmap: seq<bv8>, b: nat, c: nat)
    requires b / 8 < |bitmap|
    ensures Bit(WithBit(bitmap, b), c) <==> c == b || Bit(bitmap, c)
    ensures Bit(WithoutBit(bitmap, b), c) <==> c != b && Bit(bitmap, c)
  {
    hide HasBit, Raise, Lower;
    if c / 8 == b / 8 {
      RaiseBits(bitmap[b / 8], b % 8, c % 8);
      LowerBits(bitmap[b / 8], b % 8, c % 8);
      assert c % 8 == b % 8 <==> c == b;
    }
  }

  lemma MarkUsed(bitmap: seq<bv8>, sb: Super, used: set<nat>, b: nat)
    requires Marks(bitmap, sb, used) && b < sb.size
    ensures Marks(WithBit(bitmap, b), sb, used + {b})
  {
    hide Bit, WithBit;
    assert |WithBit(bitmap, b)| == |bitmap| by { WithBitSize(bitmap, b); }
    forall c: nat | c < sb.size ensures Bit(WithBit(bitmap, b), c) <==> c < sb.meta || c in used + {b} {
      BitSet(bitmap, b, c);
    }
  }

  lemma MarkFree(bitmap: seq<bv8>, sb: Super, used: set<nat>, b: nat)
    requires Marks(bitmap, sb, used) && sb.meta <= b < sb.size
    ensures Marks(WithoutBit(bitmap, b), sb, used - {b})
  {
    hide Bit, WithoutBit;
    assert |WithoutBit(bitmap, b)| == |bitmap| by { WithBitSize(bitmap, b); }
    forall c: nat | c < sb.size ensures Bit(WithoutBit(bitmap, b), c) <==> c < sb.meta || c in used - {b} {
      BitSet(bitmap, b, c);
    }
  }

  lemma WithBitSize(bitmap: seq<bv8>, b: nat)
    requires b / 8 < |bitmap|
    ensures |WithBit(bitmap, b)| == |WithoutBit(bitmap, b)| == |bitmap|
  {
  }

  // ---- words of an indirect block --------------------------------------------------------------------------------

  function Join(a: int, b: int, c: int, d: int): int {
    a + 0x100 * b + 0x1_0000 * c + 0x100_0000 * d
  }

  /** The j-th little-endian 32-bit word of a block. */
  function Word(block: seq<Byte>, j: nat): int
    requires |block| == BSIZE && j < NINDIRECT
  {
    Join(block[4 * j], block[4 * j + 1], block[4 * j + 2], block[4 * j + 3])
  }

  function PutWord(block: seq<Byte>, j: nat, w: nat): seq<Byte>
    requires |block| == BSIZE && j < NINDIRECT && w < 0x1_0000_0000
  {
    block[4 * j := w % 0x100][4 * j + 1 := w / 0x100 % 0x100]
         [4 * j + 2 := w / 0x100 / 0x100 % 0x100][4 * j + 3 := w / 0x100 / 0x100 / 0x100]
  }

  lemma JoinParts(w: nat)
    ensures Join(w % 0x100, w / 0x100 % 0x100, w / 0x100 / 0x100 % 0x100, w / 0x100 / 0x100 / 0x100) == w
  {
    var p := w / 0x100;
    var q := p / 0x100;
    assert w == 0x100 * p + w % 0x100 && p == 0x100 * q + p % 0x100 && q == 0x100 * (q / 0x100) + q % 0x100;
  }

  lemma WordPut(block: seq<Byte>, j: nat, w: nat, i: nat)
    requires |block| == BSIZE && j < NINDIRECT && w < 0x1_0000_0000 && i < NINDIRECT
    ensures |PutWord(block, j, w)| == BSIZE
    ensures Word(PutWord(block, j, w), i) == if i == j then w else Word(block, i)
  {
    JoinParts(w);
    hide Join;
  }

  lemma WordZero(j: nat)
    requires j < NINDIRECT
    ensures |Zeroed()| == BSIZE && Word(Zeroed(), j) == 0
  {
  }

  // ---- slots -----------------------------------------------------------------------------------------------------

  /** The slot of an inode's n-th data block; slot NDIRECT is the indirect block itself. */
  function DataSlot(inum: nat, n: nat): Slot {
    Slot(inum, if n < NDIRECT then n else n + 1)
  }

  predicate IsData(s: Slot) {
    s.k != NDIRECT
  }

  function Lookup(ref: map<Slot, nat>, s: Slot): nat {
    if s in ref then ref[s] else 0
  }

  predicate InRange(s: Slot, inodes: nat) {
    s.inum < inodes && s.k < NDIRECT + 1 + NINDIRECT
  }

  /** Every held block is a data block held by one slot. */
  ghost predicate Inverse(g: Book, sb: Super, inodes: nat) {
    && (forall s :: s in g.ref ==> InRange(s, inodes) && g.ref[s] in g.owner && g.owner[g.ref[s]] == s)
    && (forall b :: b in g.owner ==> sb.meta <= b < sb.size && g.owner[b] in g.ref && g.ref[g.owner[b]] == b)
    && (forall s :: s in g.ref && s.k > NDIRECT ==> Slot(s.inum, NDIRECT) in g.ref)
  }

  /** The addresses in an inode are those its slots hold, 0 standing for none. */
  ghost predicate DirectOk(inode: Inode, ref: map<Slot, nat>, inum: nat) {
    && |inode.addrs| == NDIRECT + 1
    && forall k: nat :: k <= NDIRECT ==> inode.addrs[k] == Lookup(ref, Slot(inum, k))
  }

  /** So are the words of its indirect block, if it has one. */
  ghost predicate IndirectOk(disk: seq<seq<Byte>>, ref: map<Slot, nat>, inum: nat) {
    var root := Slot(inum, NDIRECT);
    root in ref ==>
      && ref[root] < |disk| && |disk[ref[root]]| == BSIZE
      && forall j: nat :: j < NINDIRECT ==> Word(disk[ref[root]], j) == Lookup(ref, Slot(inum, NDIRECT + 1 + j))
  }

  ghost predicate Shaped(disk: seq<seq<Byte>>, sb: Super) {
    0 < sb.meta <= sb.size < 0x1_0000_0000 && |disk| == sb.size && forall b :: 0 <= b < |disk| ==> |disk[b]| == BSIZE
  }

  /** No file has a hole below its size. */
  ghost predicate Whole(inode: Inode, ref: map<Slot, nat>, inum: nat) {
    inode.size <= MAXFILE * BSIZE && forall n: nat :: n * BSIZE < inode.size ==> DataSlot(inum, n) in ref
  }

  ghost predicate InodeOk(inode: Inode, disk: seq<seq<Byte>>, ref: map<Slot, nat>, inum: nat) {
    DirectOk(inode, ref, inum) && IndirectOk(disk, ref, inum) && Whole(inode, ref, inum)
  }

  /** The volume as one value. */
  datatype Vol = Vol(sb: Super, bitmap: seq<bv8>, disk: seq<seq<Byte>>, inodes: seq<Inode>, g: Book)

  /**
   * Block ownership: the bits set are those of the metadata and of the blocks held by some slot, each by one,
   * and inodes and indirect blocks record just that.
   */
  ghost predicate Good(v: Vol) {
    && Shaped(v.disk, v.sb) && Marks(v.bitmap, v.sb, v.g.owner.Keys) && Inverse(v.g, v.sb, |v.inodes|)
    && forall i: nat :: i < |v.inodes| ==> InodeOk(v.inodes[i], v.disk, v.g.ref, i)
  }

  const ROOTINO: nat := 1

  /** mkfs's image before it copies programs: the root directory holds the first data block, and no other file one. */
  function RootInodes(sb: Super, files: nat): seq<Inode> {
    seq(files, i => if i == ROOTINO then Inode([sb.meta] + seq(NDIRECT, _ => 0), BSIZE)
                    else Inode(seq(NDIRECT + 1, _ => 0), 0))
  }

  lemma RootImage(sb: Super, bits: seq<bv8>, blocks: seq<seq<Byte>>, files: nat)
    requires Shaped(blocks, sb) && sb.meta < sb.size && files > ROOTINO && Marks(bits, sb, {sb.meta})
    ensures Good(Vol(sb, bits, blocks, RootInodes(sb, files),
                     Book(map[Slot(ROOTINO, 0) := sb.meta], map[sb.meta := Slot(ROOTINO, 0)])))
  {
    hide Bit;
    var inodes, book := RootInodes(sb, files), Book(map[Slot(ROOTINO, 0) := sb.meta], map[sb.meta := Slot(ROOTINO, 0)]);
    assert book.owner.Keys == {sb.meta};
    forall i: nat | i < files ensures InodeOk(inodes[i], blocks, book.ref, i) {
      forall n: nat | n * BSIZE < inodes[i].size ensures DataSlot(i, n) in book.ref {
        assert n == 0;
      }
    }
  }

  // ---- taking a free block into a slot ---------------------------------------------------------------------------

  function Hold(g: Book, s: Slot, b: nat): Book {
    Book(g.ref[s := b], g.owner[b := s])
  }

  /** The block `b` cleared, marked and recorded in `addrs[k]`. */
  ghost function AttachRoot(v: Vol, inum: nat, k: nat, b: nat): Vol
    requires inum < |v.inodes| && k < |v.inodes[inum].addrs| && b < |v.disk| && b / 8 < |v.bitmap|
  {
    var inode := v.inodes[inum];
    v.(bitmap := WithBit(v.bitmap, b), disk := v.disk[b := Zeroed()],
       inodes := v.inodes[inum := inode.(addrs := inode.addrs[k := b])], g := Hold(v.g, Slot(inum, k), b))
  }

  /** The block `b` cleared, marked and recorded in entry `j` of the indirect block `root`. */
  ghost function AttachEntry(v: Vol, inum: nat, j: nat, root: nat, b: nat): Vol
    requires b < |v.disk| && b / 8 < |v.bitmap| && root < |v.disk| && |v.disk[root]| == BSIZE
    requires j < NINDIRECT && b < 0x1_0000_0000
  {
    v.(bitmap := WithBit(v.bitmap, b), disk := v.disk[b := Zeroed()][root := PutWord(v.disk[root], j, b)],
       g := Hold(v.g, Slot(inum, NDIRECT + 1 + j), b))
  }

  lemma HoldInverse(g: Book, sb: Super, inodes: nat, s: Slot, b: nat)
    requires Inverse(g, sb, inodes) && InRange(s, inodes) && s !in g.ref && b !in g.owner && sb.meta <= b < sb.size
    requires s.k > NDIRECT ==> Slot(s.inum, NDIRECT) in g.ref
    ensures Inverse(Hold(g, s, b), sb, inodes) && Hold(g, s, b).owner.Keys == g.owner.Keys + {b}
  {
  }

  lemma ShapedUpdate(disk: seq<seq<Byte>>, sb: Super, b: nat, block: seq<Byte>)
    requires Shaped(disk, sb) && b < |disk| && |block| == BSIZE
    ensures Shaped(disk[b := block], sb)
  {
  }

  /** An inode keeps its record when a slot of another inode is filled and its own indirect block is untouched. */
  lemma InodeFrame(inode: Inode, disk: seq<seq<Byte>>, disk': seq<seq<Byte>>, ref: map<Slot, nat>, inum: nat,
                   s: Slot, b: nat)
    requires InodeOk(inode, disk, ref, inum) && s.inum != inum && |disk| == |disk'|
    requires Slot(inum, NDIRECT) in ref ==> ref[Slot(inum, NDIRECT)] < |disk|
                                            && disk'[ref[Slot(inum, NDIRECT)]] == disk[ref[Slot(inum, NDIRECT)]]
    ensures InodeOk(inode, disk', ref[s := b], inum)
  {
    hide Word;
    forall n: nat | n * BSIZE < inode.size ensures DataSlot(inum, n) in ref[s := b] {
      assert DataSlot(inum, n).inum == inum;
    }
  }

  lemma FreeIsUnheld(v: Vol, b: nat)
    requires Good(v) && b < v.sb.size && !Bit(v.bitmap, b)
    ensures v.sb.meta <= b && b !in v.g.owner && b < |v.disk| && b / 8 < |v.bitmap|
  {
    hide Bit, InodeOk, Inverse;
  }

  lemma Held(g: Book, sb: Super, inodes: nat, s: Slot)
    requires Inverse(g, sb, inodes) && s in g.ref
    ensures g.ref[s] in g.owner && g.owner[g.ref[s]] == s && 0 <= sb.meta <= g.ref[s] < sb.size && InRange(s, inodes)
  {
  }

  /** The inode whose `addrs[k]` is filled: a new indirect block is empty, and so are the slots behind it. */
  lemma RootInode(v: Vol, inum: nat, k: nat, b: nat)
    requires Good(v) && inum < |v.inodes| && k <= NDIRECT && Slot(inum, k) !in v.g.ref
    requires b < |v.disk| && b !in v.g.owner
    ensures var inode := v.inodes[inum];
            && |inode.addrs| == NDIRECT + 1
            && InodeOk(inode.(addrs := inode.addrs[k := b]), v.disk[b := Zeroed()], v.g.ref[Slot(inum, k) := b], inum)
  {
    hide Marks, Word, Zeroed;
    var ref, ref' := v.g.ref, v.g.ref[Slot(inum, k) := b];
    var inode, root := v.inodes[inum], Slot(inum, NDIRECT);
    assert InodeOk(inode, v.disk, ref, inum);
    forall n: nat | n * BSIZE < inode.size ensures DataSlot(inum, n) in ref' {
    }
    WordZero(0);
    if k == NDIRECT {
      forall j: nat | j < NINDIRECT ensures Word(Zeroed(), j) == Lookup(ref', Slot(inum, NDIRECT + 1 + j)) {
        WordZero(j);
        assert Slot(inum, NDIRECT + 1 + j) !in ref;
      }
    }
  }

  lemma AttachRootKeeps(v: Vol, inum: nat, k: nat, b: nat)
    requires Good(v) && inum < |v.inodes| && k <= NDIRECT && Slot(inum, k) !in v.g.ref
    requires b < v.sb.size && !Bit(v.bitmap, b)
    ensures |v.inodes[inum].addrs| == NDIRECT + 1 && b < |v.disk| && b / 8 < |v.bitmap|
    ensures b !in v.g.owner && v.sb.meta <= b && Good(AttachRoot(v, inum, k, b))
  {
    hide Bit, Marks, InodeOk, Zeroed, WithBit, Inverse;
    FreeIsUnheld(v, b);
    RootInode(v, inum, k, b);
    var v', s := AttachRoot(v, inum, k, b), Slot(inum, k);
    MarkUsed(v.bitmap, v.sb, v.g.owner.Keys, b);
    HoldInverse(v.g, v.sb, |v.inodes|, s, b);
    WordZero(0);
    ShapedUpdate(v.disk, v.sb, b, Zeroed());
    forall i: nat | i < |v.inodes| && i != inum ensures InodeOk(v.inodes[i], v'.disk, v'.g.ref, i) {
      if Slot(i, NDIRECT) in v.g.ref { Held(v.g, v.sb, |v.inodes|, Slot(i, NDIRECT)); }
      InodeFrame(v.inodes[i], v.disk, v'.disk, v.g.ref, i, s, b);
    }
  }

  lemma EntryInode(v: Vol, inum: nat, j: nat, b: nat)
    requires Good(v) && inum < |v.inodes| && j < NINDIRECT && Slot(inum, NDIRECT + 1 + j) !in v.g.ref
    requires Slot(inum, NDIRECT) in v.g.ref && b < |v.disk| && b !in v.g.owner && b < 0x1_0000_0000
    ensures var root := v.g.ref[Slot(inum, NDIRECT)];
            && root != b && root < |v.disk| && |v.disk[root]| == BSIZE
            && InodeOk(v.inodes[inum], v.disk[b := Zeroed()][root := PutWord(v.disk[root], j, b)],
                       v.g.ref[Slot(inum, NDIRECT + 1 + j) := b], inum)
  {
    hide Marks, Word, Zeroed, PutWord;
    var ref, ref' := v.g.ref, v.g.ref[Slot(inum, NDIRECT + 1 + j) := b];
    var inode, root := v.inodes[inum], v.g.ref[Slot(inum, NDIRECT)];
    assert InodeOk(inode, v.disk, ref, inum);
    forall n: nat | n * BSIZE < inode.size ensures DataSlot(inum, n) in ref' {
    }
    forall i: nat | i < NINDIRECT
      ensures |PutWord(v.disk[root], j, b)| == BSIZE
      ensures Word(PutWord(v.disk[root], j, b), i) == Lookup(ref', Slot(inum, NDIRECT + 1 + i)) {
      WordPut(v.disk[root], j, b, i);
    }
    WordPut(v.disk[root], j, b, 0);
  }

  lemma AttachEntryKeeps(v: Vol, inum: nat, j: nat, b: nat)
    requires Good(v) && inum < |v.inodes| && j < NINDIRECT && Slot(inum, NDIRECT + 1 + j) !in v.g.ref
    requires Slot(inum, NDIRECT) in v.g.ref && b < v.sb.size && !Bit(v.bitmap, b)
    ensures var root := v.g.ref[Slot(inum, NDIRECT)];
            && root != b && root < |v.disk| && |v.disk[root]| == BSIZE && b < |v.disk| && b / 8 < |v.bitmap|
            && b !in v.g.owner && v.sb.meta <= b < 0x1_0000_0000 && Good(AttachEntry(v, inum, j, root, b))
  {
    hide Bit, Marks, InodeOk, Zeroed, WithBit, PutWord, Inverse;
    FreeIsUnheld(v, b);
    EntryInode(v, inum, j, b);
    var root, s := v.g.ref[Slot(inum, NDIRECT)], Slot(inum, NDIRECT + 1 + j);
    var v' := AttachEntry(v, inum, j, root, b);
    MarkUsed(v.bitmap, v.sb, v.g.owner.Keys, b);
    HoldInverse(v.g, v.sb, |v.inodes|, s, b);
    WordZero(0);
    WordPut(v.disk[root], j, b, 0);
    ShapedUpdate(v.disk, v.sb, b, Zeroed());
    ShapedUpdate(v.disk[b := Zeroed()], v.sb, root, PutWord(v.disk[root], j, b));
    forall i: nat | i < |v.inodes| && i != inum ensures InodeOk(v.inodes[i], v'.disk, v'.g.ref, i) {
      Held(v.g, v.sb, |v.inodes|, Slot(inum, NDIRECT));
      if Slot(i, NDIRECT) in v.g.ref { Held(v.g, v.sb, |v.inodes|, Slot(i, NDIRECT)); }
      InodeFrame(v.inodes[i], v.disk, v'.disk, v.g.ref, i, s, b);
    }
  }

  /** The block a slot holds. */
  ghost function BlockAt(v: Vol, s: Slot): seq<Byte> {
    if s in v.g.ref && v.g.ref[s] < |v.disk| then v.disk[v.g.ref[s]] else []
  }

  /** Slots may have been filled, but none of those filled before holds another block or other data. */
  ghost predicate Extends(v: Vol, v': Vol) {
    && v'.sb == v.sb && |v'.inodes| == |v.inodes|
    && (forall i: nat :: i < |v.inodes| ==> v'.inodes[i].size == v.inodes[i].size)
    && forall s :: s in v.g.ref ==> SlotKept(v, v', s)
  }

  ghost predicate SlotKept(v: Vol, v': Vol, s: Slot)
    requires s in v.g.ref
  {
    s in v'.g.ref && v'.g.ref[s] == v.g.ref[s] && (IsData(s) ==> BlockAt(v', s) == BlockAt(v, s))
  }

  lemma ExtendsTwice(v: Vol, v1: Vol, v2: Vol)
    requires Extends(v, v1) && Extends(v1, v2)
    ensures Extends(v, v2)
  {
    forall s | s in v.g.ref ensures SlotKept(v, v2, s) {
      assert SlotKept(v, v1, s) && SlotKept(v1, v2, s);
    }
  }

  lemma RootExtends(v: Vol, inum: nat, k: nat, b: nat)
    requires Good(v) && inum < |v.inodes| && k < |v.inodes[inum].addrs| && b < |v.disk| && b / 8 < |v.bitmap|
    requires Slot(inum, k) !in v.g.ref && b !in v.g.owner
    ensures Extends(v, AttachRoot(v, inum, k, b)) && BlockAt(AttachRoot(v, inum, k, b), Slot(inum, k)) == Zeroed()
  {
    hide Marks, Inverse, InodeOk, WithBit, Zeroed;
    var v' := AttachRoot(v, inum, k, b);
    forall s | s in v.g.ref ensures SlotKept(v, v', s) {
      Held(v.g, v.sb, |v.inodes|, s);
    }
  }

  lemma EntryExtends(v: Vol, inum: nat, j: nat, b: nat)
    requires Good(v) && b < |v.disk| && b / 8 < |v.bitmap| && j < NINDIRECT && b < 0x1_0000_0000
    requires Slot(inum, NDIRECT) in v.g.ref && Slot(inum, NDIRECT + 1 + j) !in v.g.ref && b !in v.g.owner
    requires v.g.ref[Slot(inum, NDIRECT)] < |v.disk| && |v.disk[v.g.ref[Slot(inum, NDIRECT)]]| == BSIZE
    ensures var v' := AttachEntry(v, inum, j, v.g.ref[Slot(inum, NDIRECT)], b);
            Extends(v, v') && BlockAt(v', Slot(inum, NDIRECT + 1 + j)) == Zeroed()
  {
    hide Marks, Inverse, InodeOk, WithBit, Zeroed, PutWord;
    var root := v.g.ref[Slot(inum, NDIRECT)];
    var v' := AttachEntry(v, inum, j, root, b);
    Held(v.g, v.sb, |v.inodes|, Slot(inum, NDIRECT));
    forall s | s in v.g.ref ensures SlotKept(v, v', s) {
      Held(v.g, v.sb, |v.inodes|, s);
    }
  }

  /** A slot's address as the code finds it, in the inode or in the indirect block. */
  lemma AddrIs(v: Vol, inum: nat, k: nat)
    requires Good(v) && inum < |v.inodes| && k <= NDIRECT
    ensures |v.inodes[inum].addrs| == NDIRECT + 1 && v.inodes[inum].addrs[k] == Lookup(v.g.ref, Slot(inum, k))
    ensures v.inodes[inum].addrs[k] != 0 <==> Slot(inum, k) in v.g.ref
    ensures Slot(inum, k) in v.g.ref ==> 0 < v.g.ref[Slot(inum, k)] < |v.disk|
                                         && |v.disk[v.g.ref[Slot(inum, k)]]| == BSIZE
  {
    hide Marks, Inverse, IndirectOk, Whole;
    assert InodeOk(v.inodes[inum], v.disk, v.g.ref, inum);
    if Slot(inum, k) in v.g.ref { Held(v.g, v.sb, |v.inodes|, Slot(inum, k)); }
  }

  lemma EntryIs(v: Vol, inum: nat, j: nat)
    requires Good(v) && inum < |v.inodes| && j < NINDIRECT && Slot(inum, NDIRECT) in v.g.ref
    ensures var root := v.g.ref[Slot(inum, NDIRECT)];
            && root < |v.disk| && |v.disk[root]| == BSIZE
            && Word(v.disk[root], j) == Lookup(v.g.ref, Slot(inum, NDIRECT + 1 + j))
            && (Word(v.disk[root], j) != 0 <==> Slot(inum, NDIRECT + 1 + j) in v.g.ref)
  {
    hide Marks, Inverse, DirectOk, Whole, Word;
    assert InodeOk(v.inodes[inum], v.disk, v.g.ref, inum);
    var s := Slot(inum, NDIRECT + 1 + j);
    if s in v.g.ref { Held(v.g, v.sb, |v.inodes|, s); }
  }
}
