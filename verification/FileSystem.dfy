/**
 * Block allocation, the block map of an inode, and reading, writing and truncating a file: kernel/fs.c with the
 * chunked write of kernel/file.c. Logging is seen here as the set of blocks a transaction has passed to log_write.
 */
module FileSystem {
  import opened Common
  import opened BlockMap
  import opened FileContent
  import opened FileSteps

  class Volume {
    const sb: Super
    var bitmap: seq<bv8>
    var disk: seq<seq<Byte>>
    var inodes: seq<Inode>
    var dinodes: seq<Inode>         // the copies on disk
    ghost var g: Book
    ghost var logged: set<nat>      // blocks this transaction has passed to log_write

    ghost function View(): Vol
      reads this
    {
      Vol(sb, bitmap, disk, inodes, g)
    }

    ghost predicate Valid()
      reads this
    {
      Good(View()) && |dinodes| == |inodes|
    }

    /** Any image in order, whatever files it holds; the inodes in memory are those on disk. */
    constructor (super: Super, bits: seq<bv8>, blocks: seq<seq<Byte>>, files: seq<Inode>, ghost book: Book)
      requires Good(Vol(super, bits, blocks, files, book))
      ensures Valid() && View() == Vol(super, bits, blocks, files, book) && dinodes == inodes && logged == {}
    {
      sb, bitmap, disk, inodes, dinodes, g, logged := super, bits, blocks, files, files, book, {};
    }

    /** bzero */
    method Bzero(b: nat)
      requires b < |disk|
      modifies `disk, `logged
      ensures disk == old(disk)[b := Zeroed()] && logged == old(logged) + {b}
    {
      disk := disk[b := Zeroed()];
      logged := logged + {b};
    }

    /** balloc: the first free block, marked and cleared; 0, and nothing changed, exactly when none is free. */
    method Balloc() returns (b: nat)
      requires Good(View())
      modifies `bitmap, `disk, `logged
      ensures b == 0 <==> forall c: nat :: c < sb.size ==> Bit(old(bitmap), c)
      ensures b == 0 ==> bitmap == old(bitmap) && disk == old(disk) && logged == old(logged)
      ensures b != 0 ==> && b < sb.size && !Bit(old(bitmap), b) && b / 8 < |old(bitmap)| && b < |old(disk)|
                         && bitmap == WithBit(old(bitmap), b) && disk == old(disk)[b := Zeroed()]
                         && logged == old(logged) + {b, BitmapBlock(sb, b)}
                         && forall c: nat :: c < b ==> Bit(old(bitmap), c)
    {
      hide Good, HasBit, Raise, Zeroed;
      BitmapCovers(View());
      var base := 0;
      while base < sb.size
        invariant base % BPB == 0 && bitmap == old(bitmap) && disk == old(disk) && logged == old(logged)
        invariant forall c: nat :: c < base && c < sb.size ==> Bit(bitmap, c)
      {
        var bi := 0;
        while bi < BPB && base + bi < sb.size
          invariant bi <= BPB && bitmap == old(bitmap) && disk == old(disk) && logged == old(logged)
          invariant forall c: nat :: c < base + bi && c < sb.size ==> Bit(bitmap, c)
        {
          BitPlace(base, bi);
          var at := base / BPB * BSIZE + bi / 8;
          assert HasBit(bitmap[at], bi % 8) <==> Bit(bitmap, base + bi);
          if !HasBit(bitmap[at], bi % 8) {
            assert base + bi != 0;
            bitmap := bitmap[at := Raise(bitmap[at], bi % 8)];
            logged := logged + {BitmapBlock(sb, base)};
            b := base + bi;
            Bzero(b);
            return;
          }
          bi := bi + 1;
        }
        base := base + BPB;
      }
      assert forall c: nat :: c < sb.size ==> Bit(bitmap, c);
      b := 0;
    }

    /** bfree: clears the bit, or panics when it is clear already. */
    method Bfree(b: nat) returns (o: Outcome)
      requires b / 8 < |bitmap|
      modifies `bitmap, `logged
      ensures o.Done? <==> Bit(old(bitmap), b)
      ensures o.Done? ==> bitmap == WithoutBit(old(bitmap), b) && logged == old(logged) + {BitmapBlock(sb, b)}
      ensures o.Panic? ==> bitmap == old(bitmap) && logged == old(logged)
    {
      hide HasBit, Lower;
      BitPlace(b / BPB * BPB, b % BPB);
      var bi := b % BPB;
      var at := b / BPB * BSIZE + bi / 8;
      if !HasBit(bitmap[at], bi % 8) { return Panic("freeing free block"); }
      bitmap := bitmap[at := Lower(bitmap[at], bi % 8)];
      logged := logged + {BitmapBlock(sb, b)};
      o := Done;
    }

    /** bmap on `addrs[k]`: the address there, or a new block recorded there. */
    method RootAddr(inum: nat, k: nat) returns (addr: nat)
      requires Valid() && inum < |inodes| && k <= NDIRECT
      modifies `bitmap, `disk, `inodes, `g, `logged
      ensures Valid() && Filled(old(View()), View(), Slot(inum, k), addr) && Recorded(old(View()), View(), logged)
      ensures logged == old(logged) + Cost(sb, old(g.ref), g.ref, Slot(inum, k)) && OneInode(old(inodes), inodes, inum)
    {
      hide Good, Extends, Zeroed, WithBit, Bit;
      ghost var v := View();
      AddrIs(v, inum, k);
      addr := inodes[inum].addrs[k];
      if addr == 0 {
        addr := Balloc();
        if addr == 0 {
          ExtendsSelf(v);
          return;
        }
        AttachRootKeeps(v, inum, k, addr);
        RootExtends(v, inum, k, addr);
        inodes := inodes[inum := inodes[inum].(addrs := inodes[inum].addrs[k := addr])];
        g := Hold(g, Slot(inum, k), addr);
        RecordedRoot(v, inum, k, addr, logged);
        assert View() == AttachRoot(v, inum, k, addr);
      } else {
        ExtendsSelf(v);
      }
    }

    /** bmap on entry `j` of an indirect block that is there. */
    method EntryAddr(inum: nat, j: nat) returns (addr: nat)
      requires Valid() && inum < |inodes| && j < NINDIRECT && Slot(inum, NDIRECT) in g.ref
      modifies `bitmap, `disk, `g, `logged
      ensures Valid() && Filled(old(View()), View(), Slot(inum, NDIRECT + 1 + j), addr)
      ensures Recorded(old(View()), View(), logged)
      ensures Slot(inum, NDIRECT + 1 + j) in g.ref && Slot(inum, NDIRECT + 1 + j) !in old(g.ref) ==>
                logged == old(logged) + Cost(sb, old(g.ref), g.ref, Slot(inum, NDIRECT + 1 + j))
                          + {old(g.ref[Slot(inum, NDIRECT)])}
      ensures !(Slot(inum, NDIRECT + 1 + j) in g.ref && Slot(inum, NDIRECT + 1 + j) !in old(g.ref)) ==>
                logged == old(logged)
    {
      hide Good, Extends, Zeroed, WithBit, Bit, Word, PutWord;
      ghost var v := View();
      AddrIs(v, inum, NDIRECT);
      EntryIs(v, inum, j);
      var root := inodes[inum].addrs[NDIRECT];
      addr := Word(disk[root], j);
      if addr == 0 {
        addr := Balloc();
        if addr != 0 {
          AttachEntryKeeps(v, inum, j, addr);
          EntryExtends(v, inum, j, addr);
          disk := disk[root := PutWord(disk[root], j, addr)];
          logged := logged + {root};
          g := Hold(g, Slot(inum, NDIRECT + 1 + j), addr);
          RecordedEntry(v, inum, j, root, addr, logged);
          assert View() == AttachEntry(v, inum, j, root, addr);
          return;
        }
      }
      ExtendsSelf(v);
    }

    /**
     * bmap: the block of a file's n-th kilobyte. It panics only beyond MAXFILE; a slot already filled changes
     * nothing; 0 is returned exactly when the slot could not be filled.
     */
    method Bmap(inum: nat, n: nat) returns (addr: nat, o: Outcome)
      requires Valid() && inum < |inodes|
      modifies `bitmap, `disk, `inodes, `g, `logged
      ensures Valid() && (o.Panic? <==> n >= MAXFILE)
      ensures o.Panic? ==> View() == old(View()) && logged == old(logged)
      ensures Recorded(old(View()), View(), logged) && OneInode(old(inodes), inodes, inum)
      ensures o.Done? ==> && Filled(old(View()), View(), DataSlot(inum, n), addr)
                          && logged == old(logged) + Touched(old(View()), View(), inum, n)
    {
      hide Good, Extends, Zeroed, Bit;
      addr := 0;
      if n < NDIRECT {
        addr := RootAddr(inum, n);
        return addr, Done;
      }
      if n - NDIRECT < NINDIRECT {
        ghost var v0 := View();
        var root := RootAddr(inum, NDIRECT);
        ghost var v1, l1 := View(), logged;
        if root == 0 {
          BmapFailed(v0, v1, inum, n);
          return addr, Done;
        }
        addr := EntryAddr(inum, n - NDIRECT);
        FilledTwice(v0, v1, View(), inum, n, root, addr);
        ExtendsAt(v1, View(), Slot(inum, NDIRECT));
        RecordedTwice(v0, v1, View(), l1, logged);
        return addr, Done;
      }
      o := Panic("bmap: out of range");
    }

    /** iupdate: the inode's copy on disk is brought up to date. */
    method Iupdate(inum: nat)
      requires inum < |inodes| && |dinodes| == |inodes|
      modifies `dinodes, `logged
      ensures dinodes == old(dinodes)[inum := inodes[inum]] && logged == old(logged) + {InodeBlock(sb, inum)}
    {
      dinodes := dinodes[inum := inodes[inum]];
      logged := logged + {InodeBlock(sb, inum)};
    }

    /** One turn of readi's loop: bmap of a block of the file, which neither allocates nor panics. */
    method ReadAddr(inum: nat, pos: nat, m: nat) returns (addr: nat)
      requires Valid() && inum < |inodes| && m > 0 && pos % BSIZE + m <= BSIZE && pos + m <= inodes[inum].size
      modifies `bitmap, `disk, `inodes, `g, `logged
      ensures Valid() && View() == old(View()) && logged == old(logged)
      ensures addr != 0 && addr < |disk| && |disk[addr]| == BSIZE && pos + m <= |Content(View(), inum)|
      ensures disk[addr][pos % BSIZE..pos % BSIZE + m] == Content(View(), inum)[pos..pos + m]
    {
      hide Good, Extends, ByteAt, Zeroed, Bit;
      ChunkRead(View(), inum, pos, m);
      var o;
      addr, o := Bmap(inum, pos / BSIZE);
    }

    /**
     * readi, where `room` bytes of the destination can be written. It reads the file's bytes, fails only by lack of
     * room, and neither allocates nor panics.
     */
    method Readi(inum: nat, off: nat, n: nat, room: nat) returns (r: int, out: seq<Byte>)
      requires Valid() && inum < |inodes| && off < 0x1_0000_0000 && n < 0x1_0000_0000
      modifies `bitmap, `disk, `inodes, `g, `logged
      ensures Valid() && View() == old(View()) && logged == old(logged)
      ensures off > inodes[inum].size || off + n >= 0x1_0000_0000 ==> r == 0 && out == []
      ensures off <= inodes[inum].size && off + n < 0x1_0000_0000 ==>
                var want := Min(n, inodes[inum].size - off);
                && |Content(View(), inum)| == inodes[inum].size
                && (r == want || r == -1) && (r == want <==> want <= room)
                && (r == want ==> out == Content(View(), inum)[off..off + want])
    {
      hide Good, Extends, ByteAt, Zeroed, Bit;
      out := [];
      var size := inodes[inum].size;
      if off > size || (off + n) % 0x1_0000_0000 < off { return 0, out; }
      var want := n;
      if off + n > size { want := size - off; }
      var tot := 0;
      while tot < want
        invariant tot <= want && Valid() && View() == old(View()) && logged == old(logged)
        invariant tot <= room && out == Content(View(), inum)[off..off + tot]
      {
        var pos := off + tot;
        var m := Min(want - tot, BSIZE - pos % BSIZE);
        var addr := ReadAddr(inum, pos, m);
        if addr == 0 { break; }
        if tot + m > room { return -1, out; }
        assert Content(View(), inum)[off..off + tot] + Content(View(), inum)[pos..pos + m]
            == Content(View(), inum)[off..off + tot + m];
        out := out + disk[addr][pos % BSIZE..pos % BSIZE + m];
        tot := tot + m;
      }
      r := tot;
    }

    /** A write of `chunk` into the buffer of block `addr`. */
    method PutChunk(addr: nat, o: nat, chunk: seq<Byte>)
      requires addr < |disk| && o + |chunk| <= |disk[addr]|
      modifies `disk
      ensures View() == PutBytes(old(View()), addr, o, chunk)
    {
      disk := disk[addr := Splice(disk[addr], o, chunk)];
    }

    /**
     * One turn of writei's loop: find the block, copy what is readable of `chunk` into its buffer, and log it if that
     * was all.
     */
    method WriteChunk(inum: nat, pos: nat, chunk: seq<Byte>, readable: nat) returns (addr: nat, ghost v1: Vol)
      requires Valid() && inum < |inodes| && pos % BSIZE + |chunk| <= BSIZE && pos < MAXFILE * BSIZE
      modifies `bitmap, `disk, `inodes, `g, `logged
      ensures Valid() && Good(v1) && Filled(old(View()), v1, PosSlot(inum, pos), addr)
      ensures View() == if addr == 0 then v1 else PutBytes(v1, addr, pos % BSIZE, chunk[..Min(readable, |chunk|)])
      ensures logged == old(logged) + Touched(old(View()), v1, inum, pos / BSIZE)
                        + (if addr != 0 && readable >= |chunk| then {addr} else {})
      ensures addr == 0 || readable >= |chunk| || readable == 0 ==> Recorded(old(View()), View(), logged)
      ensures OneInode(old(inodes), inodes, inum)
    {
      hide Good, Bit, Touched, PutBytes, Extends, Zeroed, Recorded;
      ghost var v := View();
      var o;
      addr, o := Bmap(inum, pos / BSIZE);
      v1 := View();
      ghost var l1 := logged;
      if addr == 0 { return; }
      var part := if readable < |chunk| then chunk[..readable] else chunk;
      assert part == chunk[..Min(readable, |chunk|)];
      PutBytesKeeps(v1, PosSlot(inum, pos), pos % BSIZE, part);
      PutChunk(addr, pos % BSIZE, part);
      if readable >= |chunk| { logged := logged + {addr}; }
      if readable >= |chunk| || readable == 0 {
        RecordedPut(v1, addr, pos % BSIZE, part, logged);
        RecordedTwice(v, v1, View(), l1, logged);
      }
    }

    /** The end of writei: the size grows if the write went beyond it, and the inode is written back. */
    method Settle(inum: nat, end: nat)
      requires inum < |inodes| && |dinodes| == |inodes|
      modifies `inodes, `dinodes, `logged
      ensures View() == Resized(old(View()), inum, Max(old(inodes[inum].size), end))
              && OneInode(old(inodes), inodes, inum)
      ensures dinodes == old(dinodes)[inum := inodes[inum]] && logged == old(logged) + {InodeBlock(sb, inum)}
    {
      if end > inodes[inum].size {
        inodes := inodes[inum := inodes[inum].(size := end)];
      }
      assert inodes == old(inodes)[inum := inodes[inum]];
      Iupdate(inum);
    }

    /** The loop of writei. */
    method WriteBlocks(inum: nat, off: nat, src: seq<Byte>, good: nat)
      returns (tot: nat, ghost landed: nat, ghost a: Tally)
      requires Valid() && inum < |inodes| && off <= inodes[inum].size && off + |src| <= MAXFILE * BSIZE
      modifies `bitmap, `disk, `inodes, `g, `logged
      ensures Valid() && tot <= landed <= |src| && Stopped(sb, old(bitmap), bitmap, off, |src|, good, tot, landed)
      ensures Progress(old(View()), View(), old(logged), logged, inum, off, |src|, src[..landed], a)
      ensures (landed == tot ==> !a.torn) && OneInode(old(inodes), inodes, inum)
    {
      hide Good, Filled, Touched, PutBytes, Progress, NextTally, Turned, Full, FreeBlocks, Spanned, Recorded;
      ghost var v0, l0 := View(), logged;
      var n := |src|;
      tot, landed, a := 0, 0, Tally({}, 0, 0, false, {});
      assert src[..0] == [];
      ProgressNone(v0, l0, inum, off, n);
      while tot < n
        invariant tot <= n && landed == tot <= good && Valid() && Turned(off, n, tot, a.turns)
        invariant Progress(v0, View(), l0, logged, inum, off, n, src[..landed], a)
        invariant |inodes| == |dinodes| && OneInode(v0.inodes, inodes, inum) && !a.torn
      {
        ghost var v, l := View(), logged;
        var pos := off + tot;
        var m := Min(n - tot, BSIZE - pos % BSIZE);
        if tot + m > good { FaultCounts(off, n, tot, m, a.turns, good); }
        var addr, v1 := WriteChunk(inum, pos, src[tot..tot + m], good - tot);
        ghost var part := src[tot..tot + m][..Min(good - tot, m)];
        ghost var torn := addr != 0 && tot + m > good && part != [];
        ProgressStep(v0, v, v1, View(), l0, l, logged, inum, off, n, src[..tot], part, m, addr, a, torn);
        a := NextTally(a, v, v1, inum, pos / BSIZE, addr, torn);
        if addr == 0 { break; }
        landed := tot + |part|;
        Prefixes(src, tot, m, Min(good - tot, m));
        if tot + m > good { break; }
        tot := tot + m;
      }
    }

    /**
     * writei of `src`, of which the first `good` bytes can be read. `landed` bytes reach the file's blocks: `tot` of
     * them logged and counted, and those before the fault that a failing copy leaves in its buffer.
     */
    method Writei(inum: nat, off: nat, src: seq<Byte>, good: nat)
      returns (tot: int, ghost landed: nat, ghost w: set<nat>)
      requires Valid() && inum < |inodes| && off < 0x1_0000_0000 && |src| < 0x1_0000_0000
      modifies `bitmap, `disk, `inodes, `dinodes, `g, `logged
      ensures Valid() && OneInode(old(inodes), inodes, inum)
      ensures -1 <= tot && (tot == -1 <==> off > old(inodes[inum].size) || off + |src| > MAXFILE * BSIZE)
      ensures tot == -1 ==> View() == old(View()) && logged == old(logged) && dinodes == old(dinodes)
      ensures tot >= 0 ==> && tot <= landed <= |src| && (landed > tot ==> good < |src| && landed < |src|)
                           && Stopped(sb, old(bitmap), bitmap, off, |src|, good, tot, landed)
                           && IsWrite(old(View()), View(), inum, off, src[..landed], tot)
                           && dinodes == old(dinodes)[inum := inodes[inum]]
      ensures tot >= 0 && (good >= |src| || good == 0 || (off + good) % BSIZE == 0
                           || off + tot >= old(inodes[inum].size)) ==>
                IsWrite(old(View()), View(), inum, off, src[..tot], tot)
      ensures tot == -1 || landed == tot ==> Recorded(old(View()), View(), logged)
      ensures tot >= 0 ==> InodeBlock(sb, inum) in logged
      ensures logged <= old(logged) + w && |w| <= WriteBound(off, |src|)
    {
      hide Good, Progress, IsWrite, WriteBound, WriteSet, Stopped, Resized, Recorded, Counted;
      ghost var v0 := View();
      landed, w := 0, {};
      var n := |src|;
      if off > inodes[inum].size || (off + n) % 0x1_0000_0000 < off || off + n > MAXFILE * BSIZE {
        BoundPositive(off, n);
        RecordedSelf(v0, logged);
        return -1, landed, w;
      }
      ghost var a, l0 := Tally({}, 0, 0, false, {}), logged;
      tot, landed, a := WriteBlocks(inum, off, src, good);
      WriteCost(v0, View(), l0, logged, inum, off, n, src[..landed], a);
      w := WriteSet(a, g.ref, sb, inum);
      WriteDone(v0, View(), inum, off, src[..landed], tot);
      ghost var v3, l3 := View(), logged;
      Settle(inum, off + tot);
      if landed == tot { RecordedResize(v0, v3, inum, Max(v3.inodes[inum].size, off + tot), l3, logged); }
      ShortCount(sb, v0.bitmap, bitmap, off, n, good, tot, landed);
      BeyondEnd(v0, View(), inum, off, src, tot, landed);
    }

    /** bfree of the block a slot holds: it does not panic, and the slot is dropped from the book. */
    method FreeSlot(s: Slot, b: nat) returns (o: Outcome)
      requires Marks(bitmap, sb, g.owner.Keys) && Inverse(g, sb, |inodes|) && s in g.ref && g.ref[s] == b
      requires s.k == NDIRECT ==> forall t :: t in g.ref && t.inum == s.inum ==> t.k <= NDIRECT
      modifies `bitmap, `g, `logged
      ensures o == Done && g == Drop(old(g), s) && Marks(bitmap, sb, g.owner.Keys) && Inverse(g, sb, |inodes|)
      ensures logged == old(logged) + {BitmapBlock(sb, b)}
    {
      hide Bit, Inverse;
      Held(g, sb, |inodes|, s);
      MarkFree(bitmap, sb, g.owner.Keys, b);
      DropKeeps(g, sb, |inodes|, s);
      assert Bit(bitmap, b);
      hide Marks, WithoutBit;
      o := Bfree(b);
      g := Drop(g, s);
    }

    /** The first loop of itrunc. */
    method FreeDirect(inum: nat) returns (o: Outcome)
      requires Valid() && inum < |inodes|
      modifies `bitmap, `inodes, `g, `logged
      ensures o == Done && Marks(bitmap, sb, g.owner.Keys) && Inverse(g, sb, |inodes|)
      ensures g.ref == Without(old(g.ref), inum, 0, NDIRECT) && BitmapOnly(sb, old(logged), logged)
      ensures |inodes| == old(|inodes|) && forall i :: 0 <= i < |inodes| && i != inum ==> inodes[i] == old(inodes[i])
      ensures |inodes[inum].addrs| == NDIRECT + 1
      ensures inodes[inum].addrs[NDIRECT] == old(Lookup(g.ref, Slot(inum, NDIRECT)))
      ensures forall k :: 0 <= k < NDIRECT ==> inodes[inum].addrs[k] == 0
    {
      hide Marks, Inverse, Without;
      ghost var v := View();
      GoodParts(v, inum);
      WithoutNone(g.ref, inum, 0);
      var i := 0;
      while i < NDIRECT
        invariant i <= NDIRECT && Marks(bitmap, sb, g.owner.Keys) && Inverse(g, sb, |inodes|)
        invariant g.ref == Without(v.g.ref, inum, 0, i) && BitmapOnly(sb, old(logged), logged)
        invariant |inodes| == |v.inodes| && forall j :: 0 <= j < |inodes| && j != inum ==> inodes[j] == v.inodes[j]
        invariant |inodes[inum].addrs| == NDIRECT + 1
        invariant forall k: nat :: i <= k <= NDIRECT ==> inodes[inum].addrs[k] == Lookup(v.g.ref, Slot(inum, k))
        invariant forall k :: 0 <= k < i ==> inodes[inum].addrs[k] == 0
      {
        WithoutNext(v.g.ref, inum, 0, i);
        assert inodes[inum].addrs[i] == Lookup(v.g.ref, Slot(inum, i));
        if Slot(inum, i) in g.ref { Held(g, sb, |inodes|, Slot(inum, i)); }
        if inodes[inum].addrs[i] != 0 {
          o := FreeSlot(Slot(inum, i), inodes[inum].addrs[i]);
          inodes := inodes[inum := inodes[inum].(addrs := inodes[inum].addrs[i := 0])];
        }
        i := i + 1;
      }
      o := Done;
    }

    /** The rest of itrunc's frees: the entries of the indirect block, then that block. */
    method FreeIndirect(inum: nat) returns (o: Outcome)
      requires inum < |inodes| && Marks(bitmap, sb, g.owner.Keys) && Inverse(g, sb, |inodes|) && Shaped(disk, sb)
      requires Slot(inum, NDIRECT) in g.ref && |inodes[inum].addrs| == NDIRECT + 1
      requires inodes[inum].addrs[NDIRECT] == g.ref[Slot(inum, NDIRECT)] && IndirectOk(disk, g.ref, inum)
      modifies `bitmap, `inodes, `g, `logged
      ensures o == Done && Marks(bitmap, sb, g.owner.Keys) && Inverse(g, sb, |inodes|)
      ensures g.ref == Without(Without(old(g.ref), inum, NDIRECT + 1, NDIRECT + 1 + NINDIRECT),
                               inum, NDIRECT, NDIRECT + 1)
      ensures BitmapOnly(sb, old(logged), logged) && |inodes| == old(|inodes|)
      ensures inodes == old(inodes)[inum := old(inodes[inum]).(addrs := old(inodes[inum]).addrs[NDIRECT := 0])]
    {
      hide Marks, Inverse, Without, Word;
      ghost var ref := g.ref;
      var root := inodes[inum].addrs[NDIRECT];
      WithoutNone(ref, inum, NDIRECT + 1);
      var j := 0;
      while j < NINDIRECT
        invariant j <= NINDIRECT && Marks(bitmap, sb, g.owner.Keys) && Inverse(g, sb, |inodes|)
        invariant g.ref == Without(ref, inum, NDIRECT + 1, NDIRECT + 1 + j) && BitmapOnly(sb, old(logged), logged)
        invariant inodes == old(inodes)
      {
        WithoutNext(ref, inum, NDIRECT + 1, NDIRECT + 1 + j);
        var b := Word(disk[root], j);
        assert b == Lookup(ref, Slot(inum, NDIRECT + 1 + j));
        if Slot(inum, NDIRECT + 1 + j) in g.ref { Held(g, sb, |inodes|, Slot(inum, NDIRECT + 1 + j)); }
        if b != 0 {
          o := FreeSlot(Slot(inum, NDIRECT + 1 + j), b);
        }
        j := j + 1;
      }
      ghost var ref1 := g.ref;
      WithoutNext(ref1, inum, NDIRECT, NDIRECT);
      WithoutNone(ref1, inum, NDIRECT);
      EntriesGone(ref, sb, g, |inodes|, inum);
      o := FreeSlot(Slot(inum, NDIRECT), root);
      inodes := inodes[inum := inodes[inum].(addrs := inodes[inum].addrs[NDIRECT := 0])];
    }

    /**
     * itrunc: the file becomes empty. Exactly its blocks are freed, "freeing free block" is not reached, no other
     * file changes, and only bitmap blocks and the inode's block are logged.
     */
    method Itrunc(inum: nat) returns (o: Outcome)
      requires Valid() && inum < |inodes|
      modifies `bitmap, `inodes, `dinodes, `g, `logged
      ensures Valid() && o == Done && |inodes| == old(|inodes|) && inodes[inum].size == 0
      ensures forall b: nat :: b < sb.size ==>
                (Bit(bitmap, b) <==> Bit(old(bitmap), b) && !(b in old(g.owner) && old(g.owner[b]).inum == inum))
      ensures forall i: nat :: i < |inodes| && i != inum ==> inodes[i] == old(inodes[i])
                                                             && Content(View(), i) == Content(old(View()), i)
      ensures forall s :: s in g.ref <==> s in old(g.ref) && s.inum != inum
      ensures dinodes == old(dinodes)[inum := inodes[inum]]
      ensures exists l :: BitmapOnly(sb, old(logged), l) && logged == l + {InodeBlock(sb, inum)}
    {
      hide Marks, Inverse, Without, Bit, Content, BitmapOnly;
      ghost var v := View();
      GoodParts(v, inum);
      AddrIs(v, inum, NDIRECT);
      o := FreeDirect(inum);
      if inodes[inum].addrs[NDIRECT] != 0 {
        ghost var l1 := logged;
        IndirectLeft(v, inum);
        o := FreeIndirect(inum);
        BitmapOnlyTwice(sb, old(logged), l1, logged);
      }
      AllGone(v, inum);
      inodes := inodes[inum := inodes[inum].(size := 0)];
      TruncKeeps(v, View(), inum);
      ghost var l := logged;
      Iupdate(inum);
      assert BitmapOnly(sb, old(logged), l);
    }

    /** One transaction of filewrite. */
    method WriteTransaction(inum: nat, off: nat, src: seq<Byte>, good: nat) returns (tot: int, ghost landed: nat)
      requires Valid() && inum < |inodes| && off < 0x1_0000_0000 && |src| <= CHUNK
      modifies `bitmap, `disk, `inodes, `dinodes, `g, `logged
      ensures Valid() && |inodes| == old(|inodes|) && |logged| <= MAXOPBLOCKS
      ensures old(dinodes == inodes) ==> dinodes == inodes
      ensures -1 <= tot && (tot == -1 <==> off > old(inodes[inum].size) || off + |src| > MAXFILE * BSIZE)
      ensures tot == -1 ==> View() == old(View())
      ensures tot >= 0 ==> && tot <= landed <= |src| && (tot < |src| ==> good < |src| || Full(sb, bitmap))
                           && IsWrite(old(View()), View(), inum, off, src[..landed], tot)
      ensures tot == -1 || landed == tot ==> Transaction(old(View()), View(), logged, inum)
      ensures good >= |src| && tot >= 0 ==> landed == tot
      ensures tot >= 0 ==> tot == Counted(off, |src|, good) || (Full(sb, bitmap) && tot < |src|)
    {
      hide Good, IsWrite, WriteBound, Full, Recorded, Stopped;
      ghost var v, w := View(), {};
      logged := {};
      tot, landed, w := Writei(inum, off, src, good);
      ChunkFits(off, |src|);
      Fewer(logged, w);
      if tot >= 0 { ShortCount(sb, v.bitmap, bitmap, off, |src|, good, tot, landed); }
    }

    /**
     * filewrite on an inode, from offset `off`, of `n` bytes of which the first `good` can be read; `end` is the new
     * offset. Each transaction logs no more blocks than a system call may reserve, and `n` is returned exactly when
     * all bytes were written; if not, for a file and a source in order, the disk is full. `vols` are the volumes
     * before, between and after the transactions, and each holds one chunk more than the one before it.
     */
    method Filewrite(inum: nat, off: nat, n: int, src: seq<Byte>, good: nat)
      returns (ret: int, end: nat, ghost landed: nat, ghost txns: seq<set<nat>>, ghost vols: seq<Vol>)
      requires Valid() && inum < |inodes| && off + |src| < 0x1_0000_0000 && n <= |src|
      modifies `bitmap, `disk, `inodes, `dinodes, `g, `logged
      ensures Valid() && (ret == n || ret == -1) && |inodes| == old(|inodes|)
      ensures forall k :: 0 <= k < |txns| ==> |txns[k]| <= MAXOPBLOCKS
      ensures n <= 0 || off > old(inodes[inum].size) ==> View() == old(View()) && end == off && landed == 0
      ensures n > 0 ==> (ret == n <==> end == off + n)
      ensures n <= 0 ==> ret == if n == 0 then 0 else -1
      ensures n > 0 && off <= old(inodes[inum].size) ==>
                && off <= end
                && FileWritten(old(View()), vols, txns, inum, off, src, n, good, end - off, landed)
      ensures n > 0 && ret == -1 && off <= old(inodes[inum].size) && off + n <= MAXFILE * BSIZE && good >= n ==>
                Full(sb, bitmap)
      ensures old(dinodes == inodes) ==> dinodes == inodes
      ensures |vols| == |txns| + 1 && vols[0] == old(View()) && vols[|txns|] == View()
    {
      hide Good, Full, Transaction, IsWrite, Counted, Underway, FileWritten;
      ghost var v0, inFile := View(), off <= inodes[inum].size;
      var max := (MAXOPBLOCKS - 1 - 1 - 2) / 2 * BSIZE;
      var i := 0;
      end, landed, txns, vols := off, 0, [], [v0];
      if inFile && n > 0 { UnderwayBegins(v0, inum, off, src, n, good); }
      while i < n
        invariant 0 <= i && (i <= n || i == 0) && end == off + i && (i == n || i == |txns| * CHUNK)
        invariant Valid() && |inodes| == |v0.inodes| && (old(dinodes == inodes) ==> dinodes == inodes)
        invariant (i == 0 ==> View() == v0) && (i > 0 ==> inFile) && (n <= 0 || !inFile ==> landed == 0)
        invariant inFile && n > 0 ==> Underway(v0, vols, txns, inum, off, src, n, good, i)
        invariant forall k :: 0 <= k < |txns| ==> |txns[k]| <= MAXOPBLOCKS
        invariant |vols| == |txns| + 1 && vols[0] == v0 && vols[|txns|] == View()
      {
        var n1 := n - i;
        if n1 > max { n1 := max; }
        var good1 := if good > i then good - i else 0;
        if inFile { UnderwaySize(v0, vols, txns, inum, off, src, n, good, i); }
        var r, part := WriteTransaction(inum, end, src[i..i + n1], good1);
        if inFile {
          landed := UnderwayTurn(v0, vols, txns, inum, off, src, n, good, i, View(), logged, n1, good1, r, part);
        }
        txns, vols := txns + [logged], vols + [View()];
        if r > 0 { end := end + r; }
        if r != n1 { break; }
        i := i + r;
      }
      if n > 0 && inFile {
        if i == n {
          landed := n;
          UnderwayEnds(v0, vols, txns, inum, off, src, n, good);
        }
        if off + n <= MAXFILE * BSIZE && good >= n {
          WrittenWhole(v0, vols, txns, inum, off, src, n, good, end - off, landed);
        }
      }
      ret := if i == n then n else -1;
    }
  }

  /** The count 0 for a write of two bytes whose second faults, on a file whose one byte it has replaced. */
  method TornCall(v: Volume, inum: nat) returns (tot: int)
    requires v.Valid() && inum < |v.inodes| && Content(v.View(), inum) == [7]
    requires |FreeBlocks(v.sb, v.bitmap)| > 1
    modifies v
    ensures tot == 0 && inum < |v.inodes| && Content(v.View(), inum) == [8]
  {
    hide Good;
    ghost var landed, w;
    tot, landed, w := v.Writei(inum, 0, [8, 9], 1);
    assert [8, 9][..1] == [8];
  }
}
