/** A volume as the disk holds it: kernel/fs.h's layout, in the 32-bit words the log moves about. */
module FileImage {
  import opened Common
  import opened BlockMap
  import opened FileContent
  import opened FileSteps
  import Log
  import WholeOperations

  const DWORDS: nat := 16 // words of a struct dinode: two of type and links, then the size and the addresses

  function Pack(bytes: seq<Byte>): (block: Log.Block)
    requires |bytes| == BSIZE
  {
    seq(Log.WORDS, j requires 0 <= j < Log.WORDS => WordNat(bytes, j))
  }

  function WordNat(bytes: seq<Byte>, j: nat): (w: nat)
    requires |bytes| == BSIZE && j < NINDIRECT
    ensures w == Word(bytes, j)
  {
    Word(bytes, j)
  }

  /** The k-th byte of a little-endian word. */
  function ByteOf(w: nat, k: nat): Byte {
    if k == 0 then w % 0x100 else ByteOf(w / 0x100, k - 1)
  }

  lemma Peel(a: Byte, w: nat, k: nat)
    ensures ByteOf(a + 0x100 * w, 0) == a && ByteOf(a + 0x100 * w, k + 1) == ByteOf(w, k)
  {
    Quotient(a + 0x100 * w, w, a, 0x100);
  }

  lemma ByteOfJoin(a: Byte, b: Byte, c: Byte, d: Byte)
    ensures var w := Join(a, b, c, d);
            w >= 0 && ByteOf(w, 0) == a && ByteOf(w, 1) == b && ByteOf(w, 2) == c && ByteOf(w, 3) == d
  {
    assert ByteOf(d, 0) == d;
    hide ByteOf;
    var y := c + 0x100 * d;
    var x := b + 0x100 * y;
    assert Join(a, b, c, d) == a + 0x100 * x;
    Peel(a, x, 0);
    Peel(a, x, 1);
    Peel(a, x, 2);
    Peel(b, y, 0);
    Peel(b, y, 1);
    Peel(c, d, 0);
  }

  lemma PackAt(bytes: seq<Byte>, j: nat)
    requires |bytes| == BSIZE && j < NINDIRECT
    ensures Pack(bytes)[j] == Join(bytes[4 * j], bytes[4 * j + 1], bytes[4 * j + 2], bytes[4 * j + 3])
  {
  }

  /** A packed block gives its bytes back. */
  lemma Unpack(bytes: seq<Byte>, i: nat)
    requires |bytes| == BSIZE && i < BSIZE
    ensures ByteOf(Pack(bytes)[i / 4], i % 4) == bytes[i]
  {
    hide Join, ByteOf, Pack;
    var j, k := i / 4, i % 4;
    PackAt(bytes, j);
    ByteOfJoin(bytes[4 * j], bytes[4 * j + 1], bytes[4 * j + 2], bytes[4 * j + 3]);
    assert i == 4 * j + k;
  }

  // ---- the image of a volume -------------------------------------------------------------------------------------

  /** The log comes before the inodes, these before the bitmap, and that before the data. */
  ghost predicate Layout(sb: Super, files: nat, start: nat) {
    && start + LOGBLOCKS < sb.inodestart <= sb.bmapstart <= sb.meta
    && (forall i: nat :: i < files ==> InodeBlock(sb, i) < sb.bmapstart)
  }

  function BitmapByte(bitmap: seq<bv8>, at: nat): (r: Byte) {
    if at < |bitmap| then bitmap[at] as int else 0
  }

  function BitmapBytes(bitmap: seq<bv8>, k: nat): (r: seq<Byte>)
    ensures |r| == BSIZE
  {
    seq<Byte>(BSIZE, i requires 0 <= i => BitmapByte(bitmap, k * BSIZE + i))
  }

  /** Word f of the dinode of file i; `kept` is what the parts that are not modelled hold. */
  function DinodeWord(inodes: seq<Inode>, i: nat, f: nat, kept: nat): nat {
    if i < |inodes| && f == 2 then inodes[i].size
    else if i < |inodes| && 3 <= f && f - 3 < |inodes[i].addrs| then inodes[i].addrs[f - 3]
    else kept
  }

  function InodeWords(inodes: seq<Inode>, k: nat, kept: Log.Block): Log.Block {
    seq(Log.WORDS, j requires 0 <= j < Log.WORDS => DinodeWord(inodes, k * IPB + j / DWORDS, j % DWORDS, kept[j]))
  }

  ghost function ImageBlock(v: Vol, rest: Log.Disk, b: nat): Log.Block
    requires Shaped(v.disk, v.sb) && b < |v.disk| == |rest|
  {
    if b >= v.sb.meta then Pack(v.disk[b])
    else if b >= v.sb.bmapstart then Pack(BitmapBytes(v.bitmap, b - v.sb.bmapstart))
    else if b >= v.sb.inodestart then InodeWords(v.inodes, b - v.sb.inodestart, rest[b])
    else rest[b]
  }

  /** The volume on disk; `rest` holds the blocks and words that are no part of it. */
  ghost function Image(v: Vol, rest: Log.Disk): (d: Log.Disk)
    requires Shaped(v.disk, v.sb) && |rest| == |v.disk|
    ensures |d| == |rest|
  {
    seq(|rest|, b requires 0 <= b < |rest| => ImageBlock(v, rest, b))
  }

  lemma SameByte(x: bv8, y: bv8)
    requires forall k: nat :: k < 8 ==> (HasBit(x, k) <==> HasBit(y, k))
    ensures x == y
  {
    assert HasBit(x, 0) <==> HasBit(y, 0);
    assert HasBit(x, 1) <==> HasBit(y, 1);
    assert HasBit(x, 2) <==> HasBit(y, 2);
    assert HasBit(x, 3) <==> HasBit(y, 3);
    assert HasBit(x, 4) <==> HasBit(y, 4);
    assert HasBit(x, 5) <==> HasBit(y, 5);
    assert HasBit(x, 6) <==> HasBit(y, 6);
    assert HasBit(x, 7) <==> HasBit(y, 7);
  }

  /** Where the bits of a byte of the bitmap are. */
  lemma BitsOf(bitmap: seq<bv8>, sb: Super, at: nat, j: nat)
    requires at < |bitmap| && j < 8
    ensures BitmapBlock(sb, 8 * at + j) == at / BSIZE + sb.bmapstart
            && (Bit(bitmap, 8 * at + j) <==> HasBit(bitmap[at], j))
  {
    hide HasBit;
    Quotient(8 * at + j, at, j, 8);
    Quotient(8 * at + j, at / BSIZE, 8 * (at % BSIZE) + j, BPB);
  }

  lemma SameBitmapByte(v: Vol, v': Vol, l: set<nat>, at: nat)
    requires Recorded(v, v', l) && at / BSIZE + v.sb.bmapstart !in l
    ensures BitmapByte(v.bitmap, at) == BitmapByte(v'.bitmap, at)
  {
    hide HasBit, Bit;
    if at < |v.bitmap| {
      var x, y := v.bitmap[at], v'.bitmap[at];
      forall j: nat | j < 8 ensures HasBit(x, j) <==> HasBit(y, j) {
        BitsOf(v.bitmap, v.sb, at, j);
        BitsOf(v'.bitmap, v.sb, at, j);
      }
      SameByte(x, y);
    }
  }

  lemma SameBitmap(v: Vol, v': Vol, l: set<nat>, k: nat)
    requires Recorded(v, v', l) && k + v.sb.bmapstart !in l
    ensures BitmapBytes(v.bitmap, k) == BitmapBytes(v'.bitmap, k)
  {
    hide Recorded, BitmapByte;
    var x, y := BitmapBytes(v.bitmap, k), BitmapBytes(v'.bitmap, k);
    forall i: nat | i < BSIZE ensures x[i] == y[i] {
      Quotient(k * BSIZE + i, k, i, BSIZE);
      SameBitmapByte(v, v', l, k * BSIZE + i);
    }
  }

  lemma SameInodes(inodes: seq<Inode>, inodes': seq<Inode>, inum: nat, k: nat, kept: Log.Block)
    requires OneInode(inodes, inodes', inum) && (inodes' == inodes || inum / IPB != k)
    ensures InodeWords(inodes, k, kept) == InodeWords(inodes', k, kept)
  {
    forall j: nat | j < Log.WORDS
      ensures DinodeWord(inodes, k * IPB + j / DWORDS, j % DWORDS, kept[j])
           == DinodeWord(inodes', k * IPB + j / DWORDS, j % DWORDS, kept[j])
    {
      Quotient(k * IPB + j / DWORDS, k, j / DWORDS, IPB);
    }
  }

  /** A transaction changes the image in the blocks it logged, and in no other. */
  lemma ImageChanges(v: Vol, v': Vol, l: set<nat>, inum: nat, rest: Log.Disk, b: nat)
    requires Shaped(v.disk, v.sb) && Shaped(v'.disk, v'.sb) && b < |v.disk| == |rest| == |v'.disk|
    requires Transaction(v, v', l, inum) && b !in l
    ensures Image(v', rest)[b] == Image(v, rest)[b]
  {
    hide Bit, Pack, InodeWords, BitmapBytes;
    if b < v.sb.meta && b >= v.sb.bmapstart {
      SameBitmap(v, v', l, b - v.sb.bmapstart);
    } else if b < v.sb.bmapstart && b >= v.sb.inodestart {
      SameInodes(v.inodes, v'.inodes, inum, b - v.sb.inodestart, rest[b]);
    }
  }

  // ---- reading a file off a disk ---------------------------------------------------------------------------------

  function Field(d: Log.Disk, sb: Super, inum: nat, f: nat): nat
    requires f < DWORDS
  {
    var b := InodeBlock(sb, inum);
    if b < |d| then d[b][DWORDS * (inum % IPB) + f] else 0
  }

  function AddrOn(d: Log.Disk, sb: Super, inum: nat, n: nat): nat {
    if n < NDIRECT then Field(d, sb, inum, 3 + n)
    else
      var root := Field(d, sb, inum, 3 + NDIRECT);
      if root < |d| && n - NDIRECT < NINDIRECT then d[root][n - NDIRECT] else 0
  }

  function ByteOn(d: Log.Disk, sb: Super, inum: nat, p: nat): Byte {
    var a := AddrOn(d, sb, inum, p / BSIZE);
    if a < |d| then ByteOf(d[a][p % BSIZE / 4], p % BSIZE % 4) else 0
  }

  /** The file that the inode, indirect block and data blocks on a disk make up. */
  function FileOn(d: Log.Disk, sb: Super, inum: nat): seq<Byte> {
    seq(Field(d, sb, inum, 2), p requires 0 <= p => ByteOn(d, sb, inum, p))
  }

  // ---- the words a file depends on -------------------------------------------------------------------------------

  ghost predicate InPlace(v: Vol, f: nat, b: nat, w: nat) {
    || (b == InodeBlock(v.sb, f) && DWORDS * (f % IPB) + 2 <= w < DWORDS * (f % IPB) + DWORDS)
    || (b in v.g.owner && v.g.owner[b].inum == f)
  }

  /** The words of the disk that the files are read from: size and addresses, indirect blocks and data. */
  ghost function Places(v: Vol, files: set<nat>): iset<(nat, nat)> {
    iset b: nat, w: nat | exists f :: f in files && InPlace(v, f, b, w) :: (b, w)
  }

  /** A transaction gives files new words in blocks it has logged only. */
  lemma PlacesCarried(v: Vol, v': Vol, l: set<nat>, files: set<nat>, b: nat, w: nat)
    requires Inverse(v.g, v.sb, |v.inodes|) && Inverse(v'.g, v'.sb, |v'.inodes|) && Recorded(v, v', l)
    requires (b, w) in Places(v', files) && b !in l
    ensures (b, w) in Places(v, files)
  {
    hide Bit;
    var f :| f in files && InPlace(v', f, b, w);
    assert InPlace(v, f, b, w);
  }

  /** The disk shows file f of the volume in the words it is read from. */
  ghost predicate Shows(d: Log.Disk, v: Vol, rest: Log.Disk, start: nat, f: nat)
    requires Shaped(v.disk, v.sb) && |rest| == |v.disk|
  {
    && |d| == |rest|
    && forall b: nat, w: nat :: Log.IsHome(|d|, start, b) && w < Log.WORDS && InPlace(v, f, b, w) ==>
                                  d[b][w] == Image(v, rest)[b][w]
  }

  lemma SameOnShows(d: Log.Disk, v: Vol, rest: Log.Disk, start: nat, files: set<nat>, f: nat)
    requires Shaped(v.disk, v.sb) && |rest| == |v.disk| && f in files
    requires WholeOperations.SameOn(d, Image(v, rest), start, Places(v, files), {})
    ensures Shows(d, v, rest, start, f)
  {
    hide Image, InPlace;
    forall b: nat, w: nat | Log.IsHome(|d|, start, b) && w < Log.WORDS && InPlace(v, f, b, w)
      ensures d[b][w] == Image(v, rest)[b][w]
    {
      assert (b, w) in Places(v, files);
    }
  }

  lemma FieldIs(v: Vol, rest: Log.Disk, d: Log.Disk, start: nat, inum: nat, f: nat)
    requires Good(v) && |rest| == |v.disk| && Layout(v.sb, |v.inodes|, start) && inum < |v.inodes| && 2 <= f < DWORDS
    requires Shows(d, v, rest, start, inum)
    ensures |v.inodes[inum].addrs| == NDIRECT + 1
    ensures Field(d, v.sb, inum, f) == if f == 2 then v.inodes[inum].size else v.inodes[inum].addrs[f - 3]
  {
    hide Marks, Inverse, IndirectOk, Whole, Pack;
    assert InodeOk(v.inodes[inum], v.disk, v.g.ref, inum);
    var b, j := InodeBlock(v.sb, inum), DWORDS * (inum % IPB) + f;
    Quotient(j, inum % IPB, f, DWORDS);
    assert inum / IPB * IPB + inum % IPB == inum;
    assert InPlace(v, inum, b, j) && d[b][j] == InodeWords(v.inodes, inum / IPB, rest[b])[j];
  }

  lemma AddrOnIs(v: Vol, rest: Log.Disk, d: Log.Disk, start: nat, inum: nat, n: nat)
    requires Good(v) && |rest| == |v.disk| && Layout(v.sb, |v.inodes|, start) && inum < |v.inodes|
    requires Shows(d, v, rest, start, inum) && DataSlot(inum, n) in v.g.ref
    ensures var a := v.g.ref[DataSlot(inum, n)];
            && AddrOn(d, v.sb, inum, n) == a && v.sb.meta <= a < |d| == |v.disk|
            && |v.disk[a]| == BSIZE && d[a] == Pack(v.disk[a])
  {
    hide Shows, Image, ImageBlock, Pack, Marks, InodeOk, Word, Layout;
    var s, root := DataSlot(inum, n), Slot(inum, NDIRECT);
    Held(v.g, v.sb, |v.inodes|, s);
    DataOnDisk(v, rest, d, start, inum, v.g.ref[s]);
    if n < NDIRECT {
      FieldIs(v, rest, d, start, inum, 3 + n);
      AddrIs(v, inum, n);
    } else {
      RootFirst(v, s);
      Held(v.g, v.sb, |v.inodes|, root);
      FieldIs(v, rest, d, start, inum, 3 + NDIRECT);
      AddrIs(v, inum, NDIRECT);
      DataOnDisk(v, rest, d, start, inum, v.g.ref[root]);
      EntryIs(v, inum, n - NDIRECT);
      WordOnDisk(v.disk[v.g.ref[root]], n - NDIRECT);
    }
  }

  lemma WordOnDisk(bytes: seq<Byte>, j: nat)
    requires |bytes| == BSIZE && j < NINDIRECT
    ensures Pack(bytes)[j] == Word(bytes, j)
  {
  }

  lemma DataOnDisk(v: Vol, rest: Log.Disk, d: Log.Disk, start: nat, inum: nat, a: nat)
    requires Shaped(v.disk, v.sb) && |rest| == |v.disk| && Layout(v.sb, |v.inodes|, start) && v.sb.meta <= a < v.sb.size
    requires Shows(d, v, rest, start, inum) && a in v.g.owner && v.g.owner[a].inum == inum
    ensures a < |d| == |v.disk| && |v.disk[a]| == BSIZE && d[a] == Pack(v.disk[a])
  {
    hide Pack;
    var block := Pack(v.disk[a]);
    forall w: nat | w < Log.WORDS ensures d[a][w] == block[w] {
      assert InPlace(v, inum, a, w);
    }
  }

  /** Any disk that shows a file of a volume's image holds that file, whatever else is on it. */
  lemma FileOnImage(v: Vol, rest: Log.Disk, d: Log.Disk, start: nat, inum: nat)
    requires Good(v) && |rest| == |v.disk| && Layout(v.sb, |v.inodes|, start) && inum < |v.inodes|
    requires Shows(d, v, rest, start, inum)
    ensures FileOn(d, v.sb, inum) == Content(v, inum)
  {
    hide Good, Shows, Image, Pack, ByteOf, Field, AddrOn, Layout;
    FieldIs(v, rest, d, start, inum, 2);
    forall p: nat | p < v.inodes[inum].size ensures ByteOn(d, v.sb, inum, p) == ByteAt(v, inum, p) {
      Mapped(v, inum, p);
      AddrOnIs(v, rest, d, start, inum, p / BSIZE);
      Unpack(v.disk[v.g.ref[PosSlot(inum, p)]], p % BSIZE);
    }
  }

  lemma Mapped(v: Vol, inum: nat, p: nat)
    requires Good(v) && inum < |v.inodes| && p < v.inodes[inum].size
    ensures PosSlot(inum, p) in v.g.ref && Shaped(v.disk, v.sb)
  {
    hide Marks, Inverse, DirectOk, IndirectOk;
    assert InodeOk(v.inodes[inum], v.disk, v.g.ref, inum);
    assert p / BSIZE * BSIZE <= p;
  }
}
