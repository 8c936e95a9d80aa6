/**
 * The redo log of kernel/log.c as its disk sees it: the block writes of a commit and of a recovery, a crash
 * between any two of them, and the loops that issue them.
 */
module Log {
  import opened Common
  import opened Reservation

  const WORDS: nat := 256 // 32-bit words in a block of BSIZE bytes

  type Block = b: seq<nat> | |b| == WORDS witness seq(WORDS, _ => 0)
  type Disk = seq<Block>

  /** A block write: one atomic step of the disk. */
  datatype Write = Write(block: nat, data: Block)

  /** The log area is the header block `start` and the LOGBLOCKS blocks after it. */
  predicate IsHome(size: nat, start: nat, b: nat) {
    b < size && !(start <= b <= start + LOGBLOCKS)
  }

  /** A list of block numbers that fits the log and stays out of the log area. */
  predicate Loggable(size: nat, start: nat, lh: seq<nat>) {
    |lh| <= LOGBLOCKS && forall i :: 0 <= i < |lh| ==> IsHome(size, start, lh[i])
  }

  /** The header block with `lh` written over its first words; later words keep what they held. */
  function EncodeHead(prior: Block, lh: seq<nat>): (hb: Block)
    requires |lh| <= LOGBLOCKS
  {
    [|lh|] + lh + prior[1 + |lh|..]
  }

  function DecodeHead(hb: Block): (lh: seq<nat>)
    requires hb[0] <= LOGBLOCKS
  {
    hb[1..1 + hb[0]]
  }

  lemma HeadRoundTrip(prior: Block, lh: seq<nat>)
    requires |lh| <= LOGBLOCKS
    ensures EncodeHead(prior, lh)[0] == |lh| && DecodeHead(EncodeHead(prior, lh)) == lh
  {
  }

  /** The log lies on the disk, and the on-disk header names home blocks. */
  predicate Sound(d: Disk, start: nat) {
    start + LOGBLOCKS < |d| && d[start][0] <= LOGBLOCKS && Loggable(|d|, start, DecodeHead(d[start]))
  }

  function Apply(d: Disk, ws: seq<Write>): (r: Disk)
    ensures |r| == |d|
    decreases |ws|
  {
    if ws == [] then d
    else
      var w, e := ws[|ws| - 1], Apply(d, ws[..|ws| - 1]);
      if w.block < |e| then e[w.block := w.data] else e
  }

  lemma ApplySnoc(d: Disk, ws: seq<Write>, w: Write)
    ensures Apply(d, ws + [w]) == if w.block < |d| then Apply(d, ws)[w.block := w.data] else Apply(d, ws)
  {
    assert (ws + [w])[..|ws|] == ws;
  }

  lemma {:induction false} ApplyConcat(d: Disk, a: seq<Write>, b: seq<Write>)
    ensures Apply(d, a + b) == Apply(Apply(d, a), b)
    decreases |b|
  {
    if b == [] {
      assert a + b == a;
    } else {
      assert (a + b)[..|a + b| - 1] == a + b[..|b| - 1];
      ApplyConcat(d, a, b[..|b| - 1]);
    }
  }

  /** `install_trans`: log block i+1 to home block `lh[i]`. */
  function InstallWrites(d: Disk, start: nat, lh: seq<nat>): (ws: seq<Write>)
    requires start + LOGBLOCKS < |d| && |lh| <= LOGBLOCKS
  {
    seq(|lh|, i requires 0 <= i < |lh| => Write(lh[i], d[start + 1 + i]))
  }

  lemma InstallCount(d: Disk, start: nat, lh: seq<nat>)
    requires start + LOGBLOCKS < |d| && |lh| <= LOGBLOCKS
    ensures |InstallWrites(d, start, lh)| == |lh|
  {
  }

  /** `write_log`: the cached contents of block `lh[i]` to log block i+1. */
  ghost function LogWrites(start: nat, lh: seq<nat>, cache: map<nat, Block>): (ws: seq<Write>)
    requires Cached(lh, cache)
  {
    seq(|lh|, i requires 0 <= i < |lh| => Write(start + 1 + i, cache[lh[i]]))
  }

  function HeadWrite(d: Disk, start: nat, lh: seq<nat>): (w: Write)
    requires start < |d| && |lh| <= LOGBLOCKS
  {
    Write(start, EncodeHead(d[start], lh))
  }

  /** The writes of `recover_from_log`, in order. */
  function RecoveryWrites(d: Disk, start: nat): (ws: seq<Write>)
    requires Sound(d, start)
  {
    InstallWrites(d, start, DecodeHead(d[start])) + [HeadWrite(d, start, [])]
  }

  /** The disk a recovery leaves when it runs to its end. */
  function Recover(d: Disk, start: nat): (r: Disk)
    requires Sound(d, start)
  {
    Apply(d, RecoveryWrites(d, start))
  }

  /** Where the last entry of `lh` for `b` sends log block contents; `b` itself if there is none. */
  function InstallAt(d: Disk, start: nat, lh: seq<nat>, b: nat): (r: Block)
    requires start + LOGBLOCKS < |d| && |lh| <= LOGBLOCKS && b < |d|
    decreases |lh|
  {
    if lh == [] then d[b]
    else if lh[|lh| - 1] == b then d[start + |lh|]
    else InstallAt(d, start, lh[..|lh| - 1], b)
  }

  lemma {:induction false} InstalledPrefix(d: Disk, start: nat, lh: seq<nat>, k: nat, b: nat)
    requires start + LOGBLOCKS < |d| && Loggable(|d|, start, lh) && k <= |lh| && b < |d|
    ensures Apply(d, InstallWrites(d, start, lh)[..k])[b] == InstallAt(d, start, lh[..k], b)
  {
    if k > 0 {
      var ws := InstallWrites(d, start, lh);
      assert ws[..k][..k - 1] == ws[..k - 1] && lh[..k][..k - 1] == lh[..k - 1];
      InstalledPrefix(d, start, lh, k - 1, b);
    }
  }

  /** An entry for `b` makes the outcome depend on the log area alone; without one the block keeps its contents. */
  lemma {:induction false} InstallAtDepends(d: Disk, e: Disk, start: nat, lh: seq<nat>, b: nat)
    requires start + LOGBLOCKS < |d| == |e| && |lh| <= LOGBLOCKS && b < |d|
    requires forall i :: start < i <= start + LOGBLOCKS ==> d[i] == e[i]
    ensures b in lh ==> InstallAt(d, start, lh, b) == InstallAt(e, start, lh, b)
    ensures b !in lh ==> InstallAt(d, start, lh, b) == d[b]
    decreases |lh|
  {
    if lh != [] {
      assert lh == lh[..|lh| - 1] + [lh[|lh| - 1]];
      InstallAtDepends(d, e, start, lh[..|lh| - 1], b);
    }
  }

  /** After k of the install writes: the log area is intact, and exactly the first k entries have reached home. */
  lemma PartialInstall(d: Disk, start: nat, lh: seq<nat>, k: nat)
    requires start + LOGBLOCKS < |d| && Loggable(|d|, start, lh) && k <= |lh|
    ensures var e := Apply(d, InstallWrites(d, start, lh)[..k]);
            && (forall i :: start <= i <= start + LOGBLOCKS ==> e[i] == d[i])
            && (forall b :: 0 <= b < |d| && b !in lh[..k] ==> e[b] == d[b])
            && (forall b :: 0 <= b < |d| ==> e[b] == InstallAt(d, start, lh[..k], b))
  {
    forall b | 0 <= b < |d|
      ensures Apply(d, InstallWrites(d, start, lh)[..k])[b] == InstallAt(d, start, lh[..k], b)
      ensures b !in lh[..k] ==> InstallAt(d, start, lh[..k], b) == d[b]
    {
      InstalledPrefix(d, start, lh, k, b);
      InstallAtDepends(d, d, start, lh[..k], b);
    }
    assert forall b :: b in lh[..k] ==> b in lh;
  }

  lemma WholeInstall(d: Disk, start: nat, lh: seq<nat>)
    requires start + LOGBLOCKS < |d| && Loggable(|d|, start, lh)
    ensures var e := Apply(d, InstallWrites(d, start, lh));
            && (forall i :: start <= i <= start + LOGBLOCKS ==> e[i] == d[i])
            && (forall b :: 0 <= b < |d| ==> e[b] == InstallAt(d, start, lh, b))
            && (forall b :: 0 <= b < |d| && b !in lh ==> e[b] == d[b])
  {
    PartialInstall(d, start, lh, |lh|);
    assert InstallWrites(d, start, lh)[..|lh|] == InstallWrites(d, start, lh) && lh[..|lh|] == lh;
  }

  /** What a finished recovery leaves: an empty log, and home blocks as the header and the log area dictate. */
  lemma RecoverOutcome(d: Disk, start: nat)
    requires Sound(d, start)
    ensures var r := Recover(d, start);
            && |r| == |d| && r[start][0] == 0 && Sound(r, start)
            && (forall b :: 0 <= b < |d| && b != start ==> r[b] == InstallAt(d, start, DecodeHead(d[start]), b))
            && (forall b: nat :: IsHome(|d|, start, b) && b !in DecodeHead(d[start]) ==> r[b] == d[b])
  {
    var lh := DecodeHead(d[start]);
    var ws, hw := InstallWrites(d, start, lh), HeadWrite(d, start, []);
    WholeInstall(d, start, lh);
    ApplySnoc(d, ws, hw);
    hide Apply, InstallAt, InstallWrites;
  }

  ghost predicate SameHome(d: Disk, e: Disk, start: nat) {
    |d| == |e| && forall b: nat :: IsHome(|d|, start, b) ==> d[b] == e[b]
  }

  /** A crash after any k writes of a recovery loses nothing: recovering afresh ends in the same home blocks. */
  lemma RecoveryCrash(d: Disk, start: nat, k: nat)
    requires Sound(d, start) && k <= |RecoveryWrites(d, start)|
    ensures var e := Apply(d, RecoveryWrites(d, start)[..k]);
            Sound(e, start) && SameHome(Recover(e, start), Recover(d, start), start)
  {
    var lh, rw := DecodeHead(d[start]), RecoveryWrites(d, start);
    if k <= |lh| {
      assert rw[..k] == InstallWrites(d, start, lh)[..k];
      InstallCrash(d, start, k);
    } else {
      assert rw[..k] == rw;
      RecoverOutcome(d, start);
      RecoverOutcome(Recover(d, start), start);
    }
  }

  lemma InstallCrash(d: Disk, start: nat, k: nat)
    requires Sound(d, start) && k <= |DecodeHead(d[start])|
    ensures var e := Apply(d, InstallWrites(d, start, DecodeHead(d[start]))[..k]);
            Sound(e, start) && SameHome(Recover(e, start), Recover(d, start), start)
  {
    var lh := DecodeHead(d[start]);
    PartialInstall(d, start, lh, k);
    var e := Apply(d, InstallWrites(d, start, lh)[..k]);
    RecoverOutcome(d, start);
    RecoverOutcome(e, start);
    hide Recover, Apply, InstallAt;
    forall b: nat | IsHome(|d|, start, b) ensures InstallAt(e, start, lh, b) == InstallAt(d, start, lh, b) {
      InstallAtDepends(d, e, start, lh, b);
      InstallAtDepends(e, d, start, lh, b);
      assert b !in lh ==> b !in lh[..k];
    }
  }

  /** Recoveries that crash after the given numbers of writes, one after another. */
  function CrashedRecoveries(d: Disk, start: nat, crashes: seq<nat>): (e: Disk)
    requires Sound(d, start)
    ensures Sound(e, start) && SameHome(Recover(e, start), Recover(d, start), start)
    decreases |crashes|
  {
    if crashes == [] then d
    else
      var rw := RecoveryWrites(d, start);
      var k := if crashes[0] <= |rw| then crashes[0] else |rw|;
      RecoveryCrash(d, start, k);
      CrashedRecoveries(Apply(d, rw[..k]), start, crashes[1..])
  }

  ghost predicate Cached(lh: seq<nat>, cache: map<nat, Block>) {
    forall i :: 0 <= i < |lh| ==> lh[i] in cache
  }

  /** The disk just after `commit` has written its header: the commit point. */
  ghost function CommittedDisk(d: Disk, start: nat, lh: seq<nat>, cache: map<nat, Block>): (c: Disk)
    requires start + LOGBLOCKS < |d| && |lh| <= LOGBLOCKS && Cached(lh, cache)
  {
    Apply(d, LogWrites(start, lh, cache))[start := EncodeHead(d[start], lh)]
  }

  /** The writes of `commit`: log, header, home locations, cleared header. */
  ghost function CommitWrites(d: Disk, start: nat, lh: seq<nat>, cache: map<nat, Block>): (ws: seq<Write>)
    requires start + LOGBLOCKS < |d| && |lh| <= LOGBLOCKS && Cached(lh, cache)
  {
    if lh == [] then []
    else
      var c := CommittedDisk(d, start, lh, cache);
      LogWrites(start, lh, cache) + [HeadWrite(d, start, lh)] + InstallWrites(c, start, lh) + [HeadWrite(c, start, [])]
  }

  /** The home blocks with the whole transaction in place. */
  ghost predicate HasTransaction(r: Disk, d: Disk, start: nat, lh: seq<nat>, cache: map<nat, Block>) {
    |r| == |d| && forall b: nat :: IsHome(|d|, start, b) ==> r[b] == if b in lh && b in cache then cache[b] else d[b]
  }

  /** Writing the log touches the log area only. */
  lemma {:induction false} PartialLog(d: Disk, start: nat, lh: seq<nat>, cache: map<nat, Block>, k: nat)
    requires start + LOGBLOCKS < |d| && k <= |lh| <= LOGBLOCKS && Cached(lh, cache)
    ensures var e := Apply(d, LogWrites(start, lh, cache)[..k]);
            && (forall b :: 0 <= b < |d| && !(start < b <= start + k) ==> e[b] == d[b])
            && (forall i :: 0 <= i < k ==> e[start + 1 + i] == cache[lh[i]])
  {
    if k > 0 {
      var ws := LogWrites(start, lh, cache);
      assert ws[..k][..k - 1] == ws[..k - 1];
      PartialLog(d, start, lh, cache, k - 1);
    }
  }

  /** With an empty on-disk header, recovery changes no home block. */
  lemma RecoverEmpty(d: Disk, start: nat)
    requires start + LOGBLOCKS < |d| && d[start][0] == 0
    ensures Sound(d, start) && SameHome(Recover(d, start), d, start)
  {
    RecoverOutcome(d, start);
  }

  lemma {:induction false} InstallAtDistinct(d: Disk, start: nat, lh: seq<nat>, i: nat)
    requires start + LOGBLOCKS < |d| && i < |lh| <= LOGBLOCKS && Distinct(lh) && lh[i] < |d|
    ensures InstallAt(d, start, lh, lh[i]) == d[start + 1 + i]
    decreases |lh|
  {
    if i < |lh| - 1 {
      InstallAtDistinct(d, start, lh[..|lh| - 1], i);
    }
  }

  /** Writing the log and the header reaches the commit point; what follows starts from there. */
  lemma AfterHeader(d: Disk, start: nat, lh: seq<nat>, cache: map<nat, Block>, rest: seq<Write>)
    requires start + LOGBLOCKS < |d| && |lh| <= LOGBLOCKS && Cached(lh, cache)
    ensures Apply(d, LogWrites(start, lh, cache) + [HeadWrite(d, start, lh)] + rest)
         == Apply(CommittedDisk(d, start, lh, cache), rest)
  {
    var lw, hw := LogWrites(start, lh, cache), HeadWrite(d, start, lh);
    assert (lw + [hw])[..|lw|] == lw;
    ApplyConcat(d, lw + [hw], rest);
  }

  /** Recovery with header `lh` and the transaction in the log area installs the whole transaction. */
  lemma RecoverLogged(d: Disk, start: nat, lh: seq<nat>, cache: map<nat, Block>)
    requires Sound(d, start) && DecodeHead(d[start]) == lh && Distinct(lh) && Cached(lh, cache)
    requires forall i :: 0 <= i < |lh| ==> d[start + 1 + i] == cache[lh[i]]
    ensures HasTransaction(Recover(d, start), d, start, lh, cache)
  {
    RecoverOutcome(d, start);
    hide Recover, InstallAt;
    forall b: nat | IsHome(|d|, start, b) && b in lh ensures InstallAt(d, start, lh, b) == cache[b] {
      var i :| 0 <= i < |lh| && lh[i] == b;
      InstallAtDistinct(d, start, lh, i);
    }
  }

  lemma CommitPoint(d: Disk, start: nat, lh: seq<nat>, cache: map<nat, Block>)
    requires start + LOGBLOCKS < |d| && Loggable(|d|, start, lh) && Distinct(lh) && Cached(lh, cache)
    ensures var c := CommittedDisk(d, start, lh, cache);
            && Sound(c, start) && DecodeHead(c[start]) == lh
            && HasTransaction(Recover(c, start), d, start, lh, cache)
  {
    PartialLog(d, start, lh, cache, |lh|);
    assert LogWrites(start, lh, cache)[..|lh|] == LogWrites(start, lh, cache);
    var c := CommittedDisk(d, start, lh, cache);
    HeadRoundTrip(d[start], lh);
    hide Recover, Apply, LogWrites;
    RecoverLogged(c, start, lh, cache);
  }

  /**
   * Crash atomicity: after any prefix of the writes of a commit, recovery leaves either no block of the transaction
   * or all of them, and all of them exactly from the header write on.
   */
  lemma CommitCrash(d: Disk, start: nat, lh: seq<nat>, cache: map<nat, Block>, k: nat)
    requires start + LOGBLOCKS < |d| && d[start][0] == 0 && Loggable(|d|, start, lh) && Distinct(lh)
             && Cached(lh, cache)
    requires k <= |CommitWrites(d, start, lh, cache)|
    ensures var e := Apply(d, CommitWrites(d, start, lh, cache)[..k]);
            && Sound(e, start)
            && (k <= |lh| ==> SameHome(Recover(e, start), d, start))
            && (k > |lh| ==> HasTransaction(Recover(e, start), d, start, lh, cache))
  {
    if k <= |lh| {
      CrashBeforeHeader(d, start, lh, cache, k);
    } else {
      CrashAfterHeader(d, start, lh, cache, k);
    }
  }

  lemma CrashBeforeHeader(d: Disk, start: nat, lh: seq<nat>, cache: map<nat, Block>, k: nat)
    requires start + LOGBLOCKS < |d| && d[start][0] == 0 && Loggable(|d|, start, lh) && Cached(lh, cache) && k <= |lh|
    ensures |lh| <= |CommitWrites(d, start, lh, cache)|
    ensures var e := Apply(d, CommitWrites(d, start, lh, cache)[..k]);
            Sound(e, start) && SameHome(Recover(e, start), d, start)
  {
    var lw := LogWrites(start, lh, cache);
    assert CommitWrites(d, start, lh, cache)[..k] == lw[..k];
    PartialLog(d, start, lh, cache, k);
    hide Recover, Apply, LogWrites;
    RecoverEmpty(Apply(d, lw[..k]), start);
  }

  lemma CrashAfterHeader(d: Disk, start: nat, lh: seq<nat>, cache: map<nat, Block>, k: nat)
    requires start + LOGBLOCKS < |d| && Loggable(|d|, start, lh) && Distinct(lh) && Cached(lh, cache)
    requires |lh| < k <= |CommitWrites(d, start, lh, cache)|
    ensures var e := Apply(d, CommitWrites(d, start, lh, cache)[..k]);
            Sound(e, start) && HasTransaction(Recover(e, start), d, start, lh, cache)
  {
    assert lh != [];
    hide Recover, Apply, CommitWrites, Sound, RecoveryWrites, CommittedDisk, LogWrites, SameHome;
    var c, j := CommittedDisk(d, start, lh, cache), k - |lh| - 1;
    CommitPoint(d, start, lh, cache);
    CommitThenRecover(d, start, lh, cache, k);
    AfterHeader(d, start, lh, cache, RecoveryWrites(c, start)[..j]);
    RecoveryCrash(c, start, j);
    var e := Apply(d, CommitWrites(d, start, lh, cache)[..k]);
    SameHomeKeepsTransaction(Recover(e, start), Recover(c, start), d, start, lh, cache);
  }

  lemma SameHomeKeepsTransaction(r: Disk, r': Disk, d: Disk, start: nat, lh: seq<nat>, cache: map<nat, Block>)
    requires SameHome(r, r', start) && HasTransaction(r', d, start, lh, cache)
    ensures HasTransaction(r, d, start, lh, cache)
  {
  }

  /** From the commit point on, a commit does what a recovery would do. */
  lemma CommitThenRecover(d: Disk, start: nat, lh: seq<nat>, cache: map<nat, Block>, k: nat)
    requires start + LOGBLOCKS < |d| && |lh| <= LOGBLOCKS && Cached(lh, cache) && lh != []
    requires var c := CommittedDisk(d, start, lh, cache); Sound(c, start) && DecodeHead(c[start]) == lh
    requires |lh| < k <= |CommitWrites(d, start, lh, cache)|
    ensures var rw := RecoveryWrites(CommittedDisk(d, start, lh, cache), start);
            var hd := LogWrites(start, lh, cache) + [HeadWrite(d, start, lh)];
            && |CommitWrites(d, start, lh, cache)| == |lh| + 1 + |rw|
            && CommitWrites(d, start, lh, cache)[..k] == hd + rw[..k - |lh| - 1]
  {
    hide Apply, CommittedDisk;
  }

  /** The same with any number of crashes inside the recoveries that follow: the log ends empty, the outcome stays. */
  lemma CommitAtomic(d: Disk, start: nat, lh: seq<nat>, cache: map<nat, Block>, k: nat, crashes: seq<nat>)
    requires start + LOGBLOCKS < |d| && d[start][0] == 0 && Loggable(|d|, start, lh) && Distinct(lh)
             && Cached(lh, cache)
    requires k <= |CommitWrites(d, start, lh, cache)|
    ensures var e := Apply(d, CommitWrites(d, start, lh, cache)[..k]);
            && Sound(e, start)
            && var r := Recover(CrashedRecoveries(e, start, crashes), start);
               && r[start][0] == 0
               && (if k <= |lh| then SameHome(r, d, start) else HasTransaction(r, d, start, lh, cache))
  {
    CommitCrash(d, start, lh, cache, k);
    var e := Apply(d, CommitWrites(d, start, lh, cache)[..k]);
    RecoverOutcome(CrashedRecoveries(e, start, crashes), start);
  }

  /** A commit that runs to its end needs no recovery. */
  lemma CommitComplete(d: Disk, start: nat, lh: seq<nat>, cache: map<nat, Block>)
    requires start + LOGBLOCKS < |d| && d[start][0] == 0 && Loggable(|d|, start, lh) && Distinct(lh)
             && Cached(lh, cache)
    ensures var e := Apply(d, CommitWrites(d, start, lh, cache));
            e[start][0] == 0 && HasTransaction(e, d, start, lh, cache)
  {
    if lh != [] {
      hide Recover, CommitWrites, InstallAt, CommittedDisk, LogWrites;
      CommitPoint(d, start, lh, cache);
      CommitIsRecovery(d, start, lh, cache);
      RecoverOutcome(CommittedDisk(d, start, lh, cache), start);
    }
  }

  lemma CommitIsRecovery(d: Disk, start: nat, lh: seq<nat>, cache: map<nat, Block>)
    requires start + LOGBLOCKS < |d| && |lh| <= LOGBLOCKS && Cached(lh, cache) && lh != []
    requires var c := CommittedDisk(d, start, lh, cache); Sound(c, start) && DecodeHead(c[start]) == lh
    ensures Apply(d, CommitWrites(d, start, lh, cache)) == Recover(CommittedDisk(d, start, lh, cache), start)
  {
    hide CommittedDisk, InstallAt, Apply, LogWrites, Sound, CommitWrites;
    var ws, rw := CommitWrites(d, start, lh, cache), RecoveryWrites(CommittedDisk(d, start, lh, cache), start);
    CommitWritesLonger(d, start, lh, cache);
    CommitThenRecover(d, start, lh, cache, |ws|);
    assert ws[..|ws|] == ws && rw[..|rw|] == rw;
    AfterHeader(d, start, lh, cache, rw);
  }

  lemma CommitWritesLonger(d: Disk, start: nat, lh: seq<nat>, cache: map<nat, Block>)
    requires start + LOGBLOCKS < |d| && 0 < |lh| <= LOGBLOCKS && Cached(lh, cache)
    ensures |CommitWrites(d, start, lh, cache)| > |lh|
  {
  }

  /** The block list after `log_write(b)`: a block already in it is absorbed. */
  function Logged(lh: seq<nat>, b: nat): (r: seq<nat>)
    ensures Distinct(lh) ==> Distinct(r)
    ensures forall x :: x in r <==> x in lh || x == b
  {
    if b in lh then lh else lh + [b]
  }

  lemma ApplyNothing(d: Disk)
    ensures Apply(d, []) == d
  {
  }

  lemma InstallStep(d: Disk, start: nat, lh: seq<nat>, k: nat)
    requires start + LOGBLOCKS < |d| && Loggable(|d|, start, lh) && k < |lh|
    ensures var ws := InstallWrites(d, start, lh);
            var e := Apply(d, ws[..k]);
            && |ws| == |lh| && e[start + k + 1] == d[start + k + 1]
            && ws[..k + 1] == ws[..k] + [Write(lh[k], d[start + k + 1])]
            && Apply(d, ws[..k + 1]) == e[lh[k] := d[start + k + 1]]
  {
    var ws := InstallWrites(d, start, lh);
    assert |ws| == |lh| && ws[k] == Write(lh[k], d[start + k + 1]);
    hide Apply, InstallAt, InstallWrites;
    assert ws[..k + 1] == ws[..k] + [ws[k]];
    PartialInstall(d, start, lh, k);
    ApplySnoc(d, ws[..k], ws[k]);
  }

  lemma LogKeepsHead(d: Disk, start: nat, lh: seq<nat>, cache: map<nat, Block>)
    requires start + LOGBLOCKS < |d| && |lh| <= LOGBLOCKS && Cached(lh, cache)
    ensures Apply(d, LogWrites(start, lh, cache))[start] == d[start]
  {
    PartialLog(d, start, lh, cache, |lh|);
    assert LogWrites(start, lh, cache)[..|lh|] == LogWrites(start, lh, cache);
  }

  lemma InstallKeepsHead(d: Disk, start: nat, lh: seq<nat>)
    requires start + LOGBLOCKS < |d| && Loggable(|d|, start, lh)
    ensures Apply(d, InstallWrites(d, start, lh))[start] == d[start]
  {
    WholeInstall(d, start, lh);
  }

  /** The four phases of `commit` add up to its list of writes. */
  lemma CommitTrace(d: Disk, start: nat, lh: seq<nat>, cache: map<nat, Block>)
    requires start + LOGBLOCKS < |d| && Loggable(|d|, start, lh) && Cached(lh, cache) && lh != []
    ensures var lw, c := LogWrites(start, lh, cache), CommittedDisk(d, start, lh, cache);
            var iw := InstallWrites(c, start, lh);
            && c == Apply(d, lw)[start := EncodeHead(Apply(d, lw)[start], lh)]
            && Apply(c, iw)[start] == c[start] && EncodeHead(c[start], [])[0] == 0
            && CommitWrites(d, start, lh, cache)
               == lw + [HeadWrite(Apply(d, lw), start, lh)] + iw + [HeadWrite(Apply(c, iw), start, [])]
            && Apply(d, CommitWrites(d, start, lh, cache)) == Apply(c, iw)[start := EncodeHead(c[start], [])]
  {
    var c := CommittedDisk(d, start, lh, cache);
    var lw, iw, hw := LogWrites(start, lh, cache), InstallWrites(c, start, lh), HeadWrite(c, start, []);
    LogKeepsHead(d, start, lh, cache);
    InstallKeepsHead(c, start, lh);
    hide Apply, LogWrites, InstallWrites;
    AfterHeader(d, start, lh, cache, iw + [hw]);
    ApplySnoc(c, iw, hw);
    Associate(lw + [HeadWrite(d, start, lh)], iw, [hw]);
  }

  lemma Associate<T>(a: seq<T>, b: seq<T>, c: seq<T>)
    ensures a + b + c == a + (b + c)
  {
  }

  /**
   * The bookkeeping of the log: an entry in `used` for each open operation, room for all of them, no commit while one
   * is open, and nothing logged while none is.
   */
  ghost predicate Accounts(lh: seq<nat>, outstanding: nat, committing: bool, used: map<nat, nat>) {
    && |used| == outstanding && Quota(|lh|, used)
    && (committing ==> outstanding == 0) && (outstanding == 0 && !committing ==> lh == [])
  }

  lemma AccountsBegin(lh: seq<nat>, outstanding: nat, used: map<nat, nat>, p: nat)
    requires Accounts(lh, outstanding, false, used) && p !in used && |lh| + (outstanding + 1) * MAXOPBLOCKS <= LOGBLOCKS
    ensures Accounts(lh, outstanding + 1, false, used[p := 0])
  {
    QuotaBegin(|lh|, used, p);
  }

  lemma AccountsEnd(lh: seq<nat>, outstanding: nat, committing: bool, used: map<nat, nat>, p: nat)
    requires Accounts(lh, outstanding, committing, used) && p in used
    ensures !committing && outstanding > 0 && Accounts(lh, outstanding - 1, outstanding == 1, used - {p})
    ensures outstanding == 1 <==> used - {p} == map[]
  {
    QuotaEnd(|lh|, used, p);
    assert (used - {p}).Keys == used.Keys - {p};
    assert |used.Keys| == |used| && |(used - {p}).Keys| == |used - {p}|;
  }

  lemma AccountsWrite(lh: seq<nat>, outstanding: nat, committing: bool, used: map<nat, nat>, p: nat, b: nat)
    requires Accounts(lh, outstanding, committing, used) && p in used && (b in lh || used[p] < MAXOPBLOCKS)
    ensures outstanding > 0 && |lh| <= LOGBLOCKS
    ensures |lh| == LOGBLOCKS ==> b in lh && forall q :: q in used ==> used[q] == MAXOPBLOCKS
    ensures b !in lh ==> Accounts(lh + [b], outstanding, committing, used[p := used[p] + 1])
  {
    QuotaFull(|lh|, used);
    QuotaEach(|lh|, used);
    if b !in lh {
      QuotaUse(|lh|, used, p);
      assert used[p := used[p] + 1].Keys == used.Keys;
    }
    assert |used.Keys| == |used|;
  }

  /** The list holds the given blocks, and the cache their contents. */
  ghost predicate Gathered(lh: seq<nat>, cache: map<nat, Block>, blocks: seq<nat>, contents: map<nat, Block>) {
    && (forall b :: b in lh <==> b in blocks)
    && (forall b :: b in lh ==> b in cache && b in contents && cache[b] == contents[b])
  }

  lemma GatheredNone(cache: map<nat, Block>, contents: map<nat, Block>)
    ensures Gathered([], cache, [], contents)
  {
  }

  lemma GatheredMore(lh: seq<nat>, cache: map<nat, Block>, blocks: seq<nat>, contents: map<nat, Block>, b: nat)
    requires Gathered(lh, cache, blocks, contents) && b in contents
    ensures Gathered(Logged(lh, b), cache[b := contents[b]], blocks + [b], contents) && |Logged(lh, b)| <= |lh| + 1
  {
  }

  /** The in-memory log over its disk. `cache` holds the pinned buffers; any other block is read from the disk. */
  class LogDevice {
    const start: nat
    var disk: Disk
    var cache: map<nat, Block>
    var lh: seq<nat>
    var outstanding: nat
    var committing: bool
    ghost var trace: seq<Write>
    ghost var used: map<nat, nat>  // the blocks each open operation has added

    ghost predicate Formed()
      reads this
    {
      && start + LOGBLOCKS < |disk|
      && Loggable(|disk|, start, lh) && Distinct(lh) && Cached(lh, cache)
      && (forall b :: b in cache ==> IsHome(|disk|, start, b))
    }

    ghost predicate Cleared()
      reads this
    {
      start < |disk| && disk[start][0] == 0
    }

    ghost predicate Valid()
      reads this
    {
      Formed() && Cleared() && Accounts(lh, outstanding, committing, used)
    }

    constructor (start: nat, disk: Disk)
      requires Sound(disk, start)
      ensures Valid() && this.start == start && this.disk == Recover(disk, start) && lh == []
      ensures outstanding == 0 && !committing && trace == RecoveryWrites(disk, start)
    {
      this.start, this.disk, cache, lh := start, disk, map[], [];
      outstanding, committing, trace, used := 0, false, [], map[];
      new;
      RecoverFromLog();
    }

    /** bwrite of block `b` and of the cached copy if there is one; a caller not `holding` the sleeplock panics. */
    method Bwrite(b: nat, data: Block, holding: bool) returns (o: Outcome)
      requires b < |disk|
      modifies this`disk, this`cache, this`trace
      ensures o.Panic? <==> !holding
      ensures disk == (if holding then old(disk)[b := data] else old(disk))
      ensures trace == old(trace) + (if holding then [Write(b, data)] else [])
      ensures cache == if holding && b in old(cache) then old(cache)[b := data] else old(cache)
    {
      if !holding {
        return Panic("bwrite");
      }
      disk := disk[b := data];
      if b in cache {
        cache := cache[b := data];
      }
      trace := trace + [Write(b, data)];
      return Done;
    }

    method WriteLog()
      requires Formed()
      modifies this`disk, this`cache, this`trace
      ensures Formed() && cache == old(cache) && trace == old(trace) + LogWrites(start, lh, cache)
      ensures disk == Apply(old(disk), LogWrites(start, lh, cache))
    {
      hide Apply;
      var tail := 0;
      ghost var ws := LogWrites(start, lh, cache);
      assert ws[..0] == [];
      ApplyNothing(disk);
      while tail < |lh|
        invariant 0 <= tail <= |lh| == |ws| && cache == old(cache)
        invariant trace == old(trace) + ws[..tail] && disk == Apply(old(disk), ws[..tail]) && |disk| == |old(disk)|
      {
        assert ws[..tail + 1] == ws[..tail] + [ws[tail]];
        ApplySnoc(old(disk), ws[..tail], ws[tail]);
        var o := Bwrite(start + tail + 1, cache[lh[tail]], true);
        tail := tail + 1;
      }
      assert ws[..tail] == ws;
    }

    method WriteHead()
      requires Formed()
      modifies this`disk, this`cache, this`trace
      ensures Formed() && cache == old(cache) && trace == old(trace) + [HeadWrite(old(disk), start, lh)]
      ensures disk == old(disk)[start := EncodeHead(old(disk)[start], lh)]
    {
      var hb: seq<nat> := disk[start];
      hb := hb[0 := |lh|];
      var i := 0;
      while i < |lh|
        invariant 0 <= i <= |lh| && |hb| == WORDS
        invariant hb == [|lh|] + lh[..i] + disk[start][1 + i..]
      {
        hb := hb[1 + i := lh[i]];
        i := i + 1;
      }
      assert lh[..i] == lh;
      var o := Bwrite(start, hb, true);
    }

    method ReadHead()
      requires Sound(disk, start) && cache == map[]
      modifies this`lh
      ensures lh == DecodeHead(disk[start])
    {
      var hb := disk[start];
      lh := [];
      var i := 0;
      while i < hb[0]
        invariant 0 <= i <= hb[0] && lh == hb[1..1 + i]
      {
        lh := lh + [hb[1 + i]];
        i := i + 1;
      }
    }

    /** `bunpin` gives up the pinned buffer, whose contents the disk now holds. */
    method InstallTrans(recovering: bool)
      requires start + LOGBLOCKS < |disk| && Loggable(|disk|, start, lh)
      requires forall b :: b in cache ==> IsHome(|disk|, start, b)
      modifies this`disk, this`cache, this`trace
      ensures trace == old(trace) + InstallWrites(old(disk), start, lh)
      ensures disk == Apply(old(disk), InstallWrites(old(disk), start, lh))
      ensures forall b :: b in cache <==> b in old(cache) && (recovering || b !in lh)
      ensures forall b :: b in cache && b !in lh ==> cache[b] == old(cache)[b]
    {
      hide Apply, InstallAt, InstallWrites;
      var tail := 0;
      ghost var d, ws := disk, InstallWrites(disk, start, lh);
      InstallCount(d, start, lh);
      assert ws[..0] == [];
      ApplyNothing(d);
      while tail < |lh|
        invariant 0 <= tail <= |lh| == |ws| && |disk| == |d|
        invariant trace == old(trace) + ws[..tail] && disk == Apply(d, ws[..tail])
        invariant forall b :: b in cache <==> b in old(cache) && (recovering || b !in lh[..tail])
        invariant forall b :: b in cache && b !in lh ==> cache[b] == old(cache)[b]
      {
        InstallStep(d, start, lh, tail);
        assert lh[..tail + 1] == lh[..tail] + [lh[tail]];
        var data := disk[start + tail + 1];
        var o := Bwrite(lh[tail], data, true);
        if !recovering {
          cache := cache - {lh[tail]};
        }
        tail := tail + 1;
      }
      assert ws[..tail] == ws && lh[..tail] == lh;
    }

    method RecoverFromLog()
      requires Sound(disk, start) && cache == map[]
      modifies this`disk, this`cache, this`trace, this`lh
      ensures Formed() && lh == [] && cache == map[] && Cleared()
      ensures trace == old(trace) + RecoveryWrites(old(disk), start) && disk == Recover(old(disk), start)
    {
      ReadHead();
      ghost var d, ws := disk, InstallWrites(disk, start, lh);
      InstallKeepsHead(d, start, lh);
      ApplySnoc(d, ws, HeadWrite(d, start, []));
      hide Apply;
      InstallTrans(true);
      lh := [];
      WriteHead();
    }

    method Commit()
      requires Formed() && Cleared()
      modifies this`disk, this`cache, this`trace, this`lh
      ensures Formed() && lh == [] && Cleared()
      ensures trace == old(trace) + CommitWrites(old(disk), start, old(lh), old(cache))
      ensures disk == Apply(old(disk), CommitWrites(old(disk), start, old(lh), old(cache)))
    {
      hide Apply, InstallAt, InstallWrites, LogWrites, EncodeHead, CommittedDisk;
      if |lh| > 0 {
        ghost var d, blocks, pinned := disk, lh, cache;
        CommitTrace(d, start, lh, cache);
        ghost var c := CommittedDisk(d, start, lh, cache);
        WriteLog();
        WriteHead();
        assert disk == c;
        InstallTrans(false);
        lh := [];
        WriteHead();
      } else {
        ApplyNothing(disk);
      }
    }

    /**
     * One turn of begin_op's loop by `p`: false means that it sleeps and tries again. Whoever is admitted has its
     * whole reservation, and every operation that was open keeps its own.
     */
    method BeginOp(ghost p: nat) returns (admitted: bool)
      modifies this`outstanding, this`used
      ensures admitted <==> !committing && |lh| + (old(outstanding) + 1) * MAXOPBLOCKS <= LOGBLOCKS
      ensures outstanding == old(outstanding) + (if admitted then 1 else 0)
      ensures used == if admitted then old(used)[p := 0] else old(used)
      ensures old(Valid()) && p !in old(used) ==> Valid()
    {
      if committing {
        return false;
      } else if |lh| + (outstanding + 1) * MAXOPBLOCKS > LOGBLOCKS {
        return false;
      }
      if Valid() && p !in used { AccountsBegin(lh, outstanding, used, p); }
      outstanding, used := outstanding + 1, used[p := 0];
      return true;
    }

    /**
     * end_op of `p` up to its commit. In a log whose accounts are in order the panic is not reached, and the last
     * operation out becomes the committer.
     */
    method EndOp(ghost p: nat) returns (out: Outcome, doCommit: bool)
      requires outstanding > 0
      modifies this`outstanding, this`committing, this`used
      ensures outstanding == old(outstanding) - 1 && used == old(used) - {p}
      ensures old(committing) ==> out.Panic? && committing
      ensures !old(committing) ==> out == Done && doCommit == committing && (committing <==> outstanding == 0)
      ensures old(Valid()) && p in old(used) ==> Valid() && out == Done && (doCommit <==> used == map[])
    {
      doCommit := false;
      if Valid() && p in used { AccountsEnd(lh, outstanding, committing, used, p); }
      outstanding, used := outstanding - 1, used - {p};
      if committing {
        return Panic("log.committing"), false;
      }
      if outstanding == 0 {
        doCommit, committing := true, true;
      }
      return Done, doCommit;
    }

    /** The end of end_op for the committer. */
    method EndCommit()
      requires Valid() && committing
      modifies this`disk, this`cache, this`trace, this`lh, this`committing
      ensures Valid() && !committing && lh == [] && |disk| == old(|disk|)
      ensures trace == old(trace) + CommitWrites(old(disk), start, old(lh), old(cache))
      ensures HasTransaction(disk, old(disk), start, old(lh), old(cache))
    {
      CommitComplete(disk, start, lh, cache);
      hide Apply, CommitWrites, HasTransaction;
      Commit();
      committing := false;
    }

    /**
     * log_write by operation `p` of a buffer that holds block `b` with contents `data`. While `p` keeps to its
     * reservation it panics exactly on a full log, and then `b` is in it already and all reservations are used up.
     */
    method LogWrite(ghost p: nat, b: nat, data: Block) returns (out: Outcome)
      requires Formed() && IsHome(|disk|, start, b)
      modifies this`lh, this`cache, this`used
      ensures Formed()
      ensures out.Panic? <==> |old(lh)| >= LOGBLOCKS || outstanding < 1
      ensures out.Panic? ==> lh == old(lh) && cache == old(cache) && used == old(used)
      ensures out == Done ==> lh == Logged(old(lh), b) && cache == old(cache)[b := data]
      ensures old(Valid()) && p in old(used) && (b in old(lh) || old(used)[p] < MAXOPBLOCKS) ==>
                && Valid() && (out.Panic? <==> |old(lh)| == LOGBLOCKS)
                && (out.Panic? ==> b in lh && forall q :: q in used ==> used[q] == MAXOPBLOCKS)
                && (out == Done ==> used == if b in old(lh) then old(used) else old(used)[p := old(used)[p] + 1])
    {
      if Valid() && p in used && (b in lh || used[p] < MAXOPBLOCKS) {
        AccountsWrite(lh, outstanding, committing, used, p, b);
      }
      if |lh| >= LOGBLOCKS {
        return Panic("too big a transaction");
      }
      if outstanding < 1 {
        return Panic("log_write outside of trans");
      }
      var i := 0;
      while i < |lh|
        invariant 0 <= i <= |lh| && b !in lh[..i]
      {
        if lh[i] == b {
          break;
        }
        i := i + 1;
      }
      if i < |lh| {
        lh := lh[i := b];
      } else {
        if p in used { used := used[p := used[p] + 1]; }
        lh := lh + [b];
      }
      cache := cache[b := data];
      return Done;
    }

    /** The log_writes of an operation that is alone in the log. */
    method LogAll(ghost p: nat, blocks: seq<nat>, contents: map<nat, Block>)
      requires Valid() && !committing && lh == [] && used == map[p := 0] && Cached(blocks, contents)
      requires |blocks| <= MAXOPBLOCKS && Loggable(|disk|, start, blocks)
      modifies this`lh, this`cache, this`used
      ensures Valid() && used.Keys == {p}
      ensures Gathered(lh, cache, blocks, contents)
    {
      hide Quota, Gathered, Distinct, Logged;
      var i := 0;
      assert blocks[..0] == [];
      GatheredNone(cache, contents);
      while i < |blocks|
        invariant 0 <= i <= |blocks| && Valid()
        invariant used.Keys == {p} && used[p] <= i && |lh| <= i
        invariant Gathered(lh, cache, blocks[..i], contents)
      {
        assert blocks[..i + 1] == blocks[..i] + [blocks[i]];
        GatheredMore(lh, cache, blocks[..i], contents, blocks[i]);
        var out := LogWrite(p, blocks[i], contents[blocks[i]]);
        i := i + 1;
      }
      assert blocks[..i] == blocks;
    }

    /** An operation on its own: it is admitted, does not panic, and its blocks are home when it is over. */
    method Operation(ghost p: nat, blocks: seq<nat>, contents: map<nat, Block>)
      requires Valid() && used == map[] && !committing && Cached(blocks, contents)
      requires |blocks| <= MAXOPBLOCKS && Loggable(|disk|, start, blocks)
      modifies this
      ensures Valid() && used == map[] && !committing && HasTransaction(disk, old(disk), start, blocks, contents)
    {
      hide Apply, CommitWrites, Quota;
      var admitted := BeginOp(p);
      LogAll(p, blocks, contents);
      var out, doCommit := EndOp(p);
      assert used == map[];
      EndCommit();
    }
  }
}
