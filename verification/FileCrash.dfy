/**
 * Crash safety of filewrite: its transactions run as operations of the log protocol, and whatever is recovered after
 * a crash holds each chunk whole or not at all.
 */
module FileCrash {
  import opened Common
  import opened BlockMap
  import opened FileContent
  import opened FileSteps
  import opened FileImage
  import Log
  import LogProtocol
  import WholeOperations

  ghost predicate SameShape(vols: seq<Vol>, rest: Log.Disk) {
    forall k :: 0 <= k < |vols| ==> Shaped(vols[k].disk, vols[k].sb) && |vols[k].disk| == |rest|
  }

  ghost function Images(vols: seq<Vol>, rest: Log.Disk): (r: seq<Log.Disk>)
    requires SameShape(vols, rest)
    ensures |r| == |vols| && forall k :: 0 <= k < |vols| ==> r[k] == Image(vols[k], rest)
  {
    seq(|vols|, k requires 0 <= k < |vols| => Image(vols[k], rest))
  }

  /** Every volume of the story has the shape of the first. */
  lemma {:induction false} StoryAlike(vols: seq<Vol>, txns: seq<set<nat>>, inum: nat, off: nat, src: seq<Byte>,
                                      done: nat, k: nat)
    requires Story(vols, txns, inum, off, src, done) && k <= |txns|
    ensures Good(vols[k]) && vols[k].sb == vols[0].sb && |vols[k].disk| == |vols[0].disk|
            && |vols[k].inodes| == |vols[0].inodes|
  {
    hide Good, IsWrite;
    assert HasPrefix(vols[0], vols[k], inum, off, src, Min(k * CHUNK, done));
    if k > 0 {
      StoryAlike(vols, txns, inum, off, src, done, k - 1);
      assert Transaction(vols[k - 1], vols[k - 1 + 1], txns[k - 1], inum);
    }
  }

  lemma StoryShaped(vols: seq<Vol>, txns: seq<set<nat>>, inum: nat, off: nat, src: seq<Byte>, done: nat, rest: Log.Disk)
    requires Story(vols, txns, inum, off, src, done) && |rest| == |vols[0].disk|
    ensures SameShape(vols, rest)
  {
    hide IsWrite, Transaction, HasPrefix, InodeOk, Marks, Inverse;
    forall k | 0 <= k < |vols| ensures Shaped(vols[k].disk, vols[k].sb) && |vols[k].disk| == |rest| {
      StoryAlike(vols, txns, inum, off, src, done, k);
    }
  }

  ghost predicate Carried(mine: iset<(nat, nat)>, mine': iset<(nat, nat)>, l: set<nat>) {
    forall b: nat, w: nat :: (b, w) in mine' && b !in l ==> (b, w) in mine
  }

  /** The images of the story are a writer's: each transaction changes only blocks it has logged. */
  lemma StoryChains(vols: seq<Vol>, txns: seq<set<nat>>, inum: nat, off: nat, src: seq<Byte>, done: nat,
                    rest: Log.Disk, mine: seq<iset<(nat, nat)>>, start: nat)
    requires Story(vols, txns, inum, off, src, done) && |rest| == |vols[0].disk| && |mine| == |vols|
    requires forall k :: 0 <= k < |txns| ==> Carried(mine[k], mine[k + 1], txns[k])
    ensures SameShape(vols, rest) && WholeOperations.Chain(WholeOperations.Plan(Images(vols, rest), txns, mine), start)
  {
    hide IsWrite, Transaction, HasPrefix, Shaped, Image;
    StoryShaped(vols, txns, inum, off, src, done, rest);
    var images := Images(vols, rest);
    var plan := WholeOperations.Plan(images, txns, mine);
    forall k | 0 <= k < |txns| ensures WholeOperations.LinkedAt(plan, k, start) {
      assert Transaction(vols[k], vols[k + 1], txns[k], inum) && Carried(mine[k], mine[k + 1], txns[k]);
      forall b: nat | Log.IsHome(|rest|, start, b) && b !in txns[k] ensures images[k][b] == images[k + 1][b] {
        ImageChanges(vols[k], vols[k + 1], txns[k], inum, rest, b);
      }
    }
  }

  /** The words of the given files in each volume of the story. */
  ghost function FileWords(vols: seq<Vol>, files: set<nat>): (r: seq<iset<(nat, nat)>>)
    ensures |r| == |vols| && forall k :: 0 <= k < |vols| ==> r[k] == Places(vols[k], files)
  {
    seq(|vols|, k requires 0 <= k < |vols| => Places(vols[k], files))
  }

  lemma FileWordsCarried(vols: seq<Vol>, txns: seq<set<nat>>, inum: nat, off: nat, src: seq<Byte>, done: nat,
                         files: set<nat>, k: nat)
    requires Story(vols, txns, inum, off, src, done) && k < |txns|
    ensures Carried(FileWords(vols, files)[k], FileWords(vols, files)[k + 1], txns[k])
  {
    hide IsWrite, HasPrefix, Shaped, Recorded, Marks, Inverse, Places;
    StoryAlike(vols, txns, inum, off, src, done, k);
    StoryAlike(vols, txns, inum, off, src, done, k + 1);
    assert Transaction(vols[k], vols[k + 1], txns[k], inum);
    var words, words' := Places(vols[k], files), Places(vols[k + 1], files);
    forall b: nat, w: nat | (b, w) in words' && b !in txns[k] ensures (b, w) in words {
      PlacesCarried(vols[k], vols[k + 1], txns[k], files, b, w);
    }
  }

  lemma PrefixContent(v0: Vol, v: Vol, inum: nat, off: nat, src: seq<Byte>, m: nat, f: nat)
    requires HasPrefix(v0, v, inum, off, src, m) && f < |v0.inodes| && f < |v.inodes|
    ensures off <= |Content(v0, inum)| && inum < |v.inodes|
    ensures Content(v, f) == if f == inum then Overlay(Content(v0, inum), off, src[..m]) else Content(v0, f)
  {
    hide Good, ByteAt;
  }

  /**
   * A run of the protocol in which p performs the transactions of the story, on a disk that holds its volume. The other
   * processes may log what they like, but leave the words `mine` alone.
   */
  ghost predicate Performs(states: seq<LogProtocol.State>, events: seq<LogProtocol.Event>, p: nat, vols: seq<Vol>,
                           txns: seq<set<nat>>, rest: Log.Disk, mine: seq<iset<(nat, nat)>>)
  {
    && SameShape(vols, rest)
    && WholeOperations.WriterRun(states, events, p, WholeOperations.Plan(Images(vols, rest), txns, mine))
    && |vols| > 0 && Layout(vols[0].sb, |vols[0].inodes|, states[0].start)
  }

  lemma PrefixBound(vols: seq<Vol>, txns: seq<set<nat>>, inum: nat, off: nat, src: seq<Byte>, done: nat)
    requires Story(vols, txns, inum, off, src, done)
    ensures done <= |src| && inum < |vols[0].inodes|
  {
    hide Good, IsWrite, Transaction;
    assert HasPrefix(vols[0], vols[|txns|], inum, off, src, Min(|txns| * CHUNK, done));
  }

  /** A file whose words are those of the m-th image reads as it does in the m-th volume. */
  lemma FileSurvives(vols: seq<Vol>, txns: seq<set<nat>>, inum: nat, off: nat, src: seq<Byte>, done: nat,
                     rest: Log.Disk, files: set<nat>, start: nat, d: Log.Disk, m: nat, f: nat)
    requires Story(vols, txns, inum, off, src, done) && SameShape(vols, rest) && m <= |txns|
    requires Layout(vols[0].sb, |vols[0].inodes|, start) && f in files && f < |vols[0].inodes| && done <= |src|
    requires WholeOperations.SameOn(d, Image(vols[m], rest), start, Places(vols[m], files), {})
    ensures inum < |vols[0].inodes| && off <= |Content(vols[0], inum)|
    ensures FileOn(d, vols[0].sb, f)
            == if f != inum then Content(vols[0], f)
               else Overlay(Content(vols[0], inum), off, src[..Min(m * CHUNK, done)])
  {
    hide Good, Image, HasPrefix, Transaction, WholeOperations.SameOn, Layout, FileOn, Content, Overlay, Places, Shows;
    StoryAlike(vols, txns, inum, off, src, done, m);
    PrefixBound(vols, txns, inum, off, src, done);
    assert HasPrefix(vols[0], vols[m], inum, off, src, Min(m * CHUNK, done));
    PrefixContent(vols[0], vols[m], inum, off, src, Min(m * CHUNK, done), f);
    SameOnShows(d, vols[m], rest, start, files, f);
    FileOnImage(vols[m], rest, d, start, f);
  }

  /** Of the given files of v0, `inum` has the first n bytes of `src` written at `off`; the others are as they were. */
  ghost predicate HasChunks(d: Log.Disk, v0: Vol, inum: nat, off: nat, src: seq<Byte>, n: nat, files: set<nat>) {
    && inum < |v0.inodes| && off <= |Content(v0, inum)| && n <= |src|
    && FileOn(d, v0.sb, inum) == Overlay(Content(v0, inum), off, src[..n])
    && forall f :: f in files && f != inum && f < |v0.inodes| ==> FileOn(d, v0.sb, f) == Content(v0, f)
  }

  /** A crash after i events of the run leaves m chunks, which are all that were ended if nothing waits for a commit. */
  ghost predicate Survives(vols: seq<Vol>, inum: nat, off: nat, src: seq<Byte>, done: nat, files: set<nat>,
                           states: seq<LogProtocol.State>, events: seq<LogProtocol.Event>, p: nat, i: nat,
                           crashes: seq<nat>, m: nat)
  {
    && i < |states| && i <= |events| && |vols| > 0 && Log.Sound(states[i].disk, states[i].start)
    && HasChunks(WholeOperations.Recovered(states[i], crashes), vols[0], inum, off, src, Min(m * CHUNK, done), files)
    && m <= WholeOperations.Ended(events[..i], p)
    && (WholeOperations.Settled(states[i]) && p !in states[i].active ==> m == WholeOperations.Ended(events[..i], p))
  }

  ghost function Everything(): iset<(nat, nat)> {
    iset b: nat, w: nat | true :: (b, w)
  }

  lemma SameEverywhere(d: Log.Disk, e: Log.Disk, start: nat)
    requires WholeOperations.SameOn(d, e, start, Everything(), {})
    ensures Log.SameHome(d, e, start)
  {
    forall b: nat | Log.IsHome(|d|, start, b) ensures d[b] == e[b] {
      forall w: nat | w < Log.WORDS ensures d[b][w] == e[b][w] {
        assert (b, w) in Everything();
      }
    }
  }

  /**
   * Cut the run by a crash after any event, and its recoveries by any number of further crashes. If the others leave
   * the words of some files alone, that of the writer among them, the disk that comes back holds the writer's file with
   * the first m chunks written, for an m not beyond the transactions that have ended, and the rest of these files as
   * they were. When nothing waits for a commit any more, m is the number of ended transactions.
   */
  lemma ChunksSurviveWhole(vols: seq<Vol>, txns: seq<set<nat>>, inum: nat, off: nat, src: seq<Byte>, done: nat,
                           rest: Log.Disk, files: set<nat>, states: seq<LogProtocol.State>,
                           events: seq<LogProtocol.Event>, p: nat, i: nat, crashes: seq<nat>)
    returns (m: nat)
    requires inum in files && |vols| > 0 && forall f :: f in files ==> f < |vols[0].inodes|
    requires Story(vols, txns, inum, off, src, done) && i <= |events|
    requires Performs(states, events, p, vols, txns, rest, FileWords(vols, files))
    ensures m <= |txns| && Survives(vols, inum, off, src, done, files, states, events, p, i, crashes, m)
  {
    hide LogProtocol.Run, LogProtocol.Fresh, WholeOperations.Follows, WholeOperations.Chain, WholeOperations.Ended,
         WholeOperations.SameOn, Good, Image, HasPrefix, Transaction, Log.Sound,
         WholeOperations.Recovered, Layout, FileOn, Content, Overlay, Places, Shows, Carried;
    assert |states| == |events| + 1 by { LogProtocol.RunLength(states, events); }
    var plan := WholeOperations.Plan(Images(vols, rest), txns, FileWords(vols, files));
    forall k | 0 <= k < |txns| ensures Carried(plan.mine[k], plan.mine[k + 1], txns[k]) {
      FileWordsCarried(vols, txns, inum, off, src, done, files, k);
    }
    StoryChains(vols, txns, inum, off, src, done, rest, plan.mine, states[0].start);
    m := WholeOperations.RecoversImage(states, events, p, plan, i, crashes);
    WholeOperations.AgreesRun(states, events, p, plan, i);
    var s := states[i];
    var d := WholeOperations.Recovered(s, crashes);
    PrefixBound(vols, txns, inum, off, src, done);
    FileSurvives(vols, txns, inum, off, src, done, rest, files, s.start, d, m, inum);
    forall f: nat | f in files && f != inum ensures FileOn(d, vols[0].sb, f) == Content(vols[0], f) {
      FileSurvives(vols, txns, inum, off, src, done, rest, files, s.start, d, m, f);
    }
  }

  /** When nobody else changes anything, the whole volume comes back as it was between two transactions. */
  lemma VolumeSurvivesWhole(vols: seq<Vol>, txns: seq<set<nat>>, inum: nat, off: nat, src: seq<Byte>, done: nat,
                            rest: Log.Disk, states: seq<LogProtocol.State>, events: seq<LogProtocol.Event>, p: nat,
                            i: nat, crashes: seq<nat>)
    returns (m: nat)
    requires Story(vols, txns, inum, off, src, done) && i <= |events|
    requires Performs(states, events, p, vols, txns, rest, seq(|vols|, _ => Everything()))
    ensures Log.Sound(states[i].disk, states[i].start) && m <= WholeOperations.Ended(events[..i], p) && m <= |txns|
    ensures Log.SameHome(WholeOperations.Recovered(states[i], crashes), Image(vols[m], rest), states[i].start)
    ensures WholeOperations.Settled(states[i]) && p !in states[i].active ==> m == WholeOperations.Ended(events[..i], p)
  {
    hide LogProtocol.Run, LogProtocol.Fresh, WholeOperations.Follows, WholeOperations.Chain, WholeOperations.Ended,
         WholeOperations.SameOn, Image, Story, Log.Sound, WholeOperations.Recovered, Layout;
    assert |states| == |events| + 1 by { LogProtocol.RunLength(states, events); }
    assert |vols| == |txns| + 1 by { StoryShape(vols, txns, inum, off, src, done); }
    var plan := WholeOperations.Plan(Images(vols, rest), txns, seq(|vols|, _ => Everything()));
    StoryChains(vols, txns, inum, off, src, done, rest, plan.mine, states[0].start);
    m := WholeOperations.RecoversImage(states, events, p, plan, i, crashes);
    WholeOperations.AgreesRun(states, events, p, plan, i);
    SameEverywhere(WholeOperations.Recovered(states[i], crashes), Image(vols[m], rest), states[i].start);
  }

  /** No log_write of the story's transactions exceeds the reservation of its operation. */
  lemma ChunksFitReservation(vols: seq<Vol>, txns: seq<set<nat>>, inum: nat, off: nat, src: seq<Byte>, done: nat,
                             rest: Log.Disk, mine: seq<iset<(nat, nat)>>, states: seq<LogProtocol.State>,
                             events: seq<LogProtocol.Event>, p: nat, i: nat, j: nat)
    requires Story(vols, txns, inum, off, src, done) && i <= |events|
    requires Performs(states, events, p, vols, txns, rest, mine) && LogProtocol.CanModify(states[i], p, j)
    requires var k := WholeOperations.Ended(events[..i], p); k < |txns| && states[i].bufs[j].block.value in txns[k]
    ensures LogProtocol.CanLogWrite(states[i], p, j)
  {
    hide LogProtocol.CanLogWrite, LogProtocol.Fresh, WholeOperations.Follows, WholeOperations.Ended, Recorded,
         HasPrefix, Image;
    var k := WholeOperations.Ended(events[..i], p);
    assert Transaction(vols[k], vols[k + 1], txns[k], inum);
    WholeOperations.WithinReservation(states, events, p, WholeOperations.Plan(Images(vols, rest), txns, mine), i, j);
  }
}
