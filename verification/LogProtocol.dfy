/**
 * Group commit over the buffer cache, kernel/log.c on top of kernel/bio.c, as a state machine.
 *
 * Each event is what one process does while it holds one lock, or one block write; events of different processes
 * interleave freely. A crash may come between any two events.
 */
module LogProtocol {
  import opened Common
  import opened Log
  import opened Reservation

  type Proc = nat
  const COMMITTER: Proc := 0 // the process inside commit()

  /** A cache slot; `block` is None until the slot first holds a block of the disk. */
  datatype Buf = Buf(block: Option<nat>, valid: bool, refcnt: nat, data: Block)

  /** How far commit() has got: log blocks written, home blocks installed, header cleared. */
  datatype Phase = Idle | Logging(k: nat) | Installing(k: nat) | Cleared

  /**
   * `refs` and `holder` say which processes use and which have locked a slot; `dirty` slots are modified but not yet
   * logged; `active` counts the blocks each open operation has added to the log. `panicked` says that the kernel has
   * stopped. `pin`, `latest` and `committed` only record:
   * the slot and the contents last handed to log_write for each block of the transaction, and the home blocks as of
   * the last commit.
   */
  datatype State = State(
    start: nat, disk: Disk, bufs: seq<Buf>, refs: set<(Proc, nat)>, holder: map<nat, Proc>, dirty: set<nat>,
    lh: seq<nat>, active: map<Proc, nat>, phase: Phase, pin: map<nat, nat>, latest: map<nat, Block>, committed: Disk,
    panicked: bool)

  datatype Event =
    | Begin(p: Proc)                              // begin_op is admitted
    | Get(p: Proc, b: nat, i: nat)                // bget finds block b in slot i, or recycles slot i for it
    | Lock(p: Proc, i: nat)                       // acquiresleep on the slot
    | Load(p: Proc, i: nat)                       // bread reads an invalid slot from the disk
    | Modify(p: Proc, i: nat, data: Block)
    | LogWrite(p: Proc, i: nat)
    | Unlock(p: Proc, i: nat)                     // brelse: releasesleep, then
    | Drop(p: Proc, i: nat)                       //   the reference
    | End(p: Proc)
    | WriteLog(i: nat, j: nat)                    // one turn of write_log: slot j's contents to the log block in slot i
    | WriteHead(i: nat)                           // the commit point
    | Install(i: nat, j: nat)                     // one turn of install_trans, with bunpin
    | Clear(i: nat)
    | Finish                                      // committing = 0
    | Crash(crashes: seq<nat>)                    // power loss, and recoveries until one finishes

  /** Log blocks not yet installed: the ones whose buffers are pinned. */
  function Pending(lh: seq<nat>, phase: Phase): seq<nat> {
    match phase
    case Installing(k) => if k <= |lh| then lh[k..] else []
    case Cleared => []
    case _ => lh
  }

  predicate Holds(s: State, i: nat, b: nat) {
    i < |s.bufs| && s.bufs[i].block == Some(b)
  }

  predicate LockedBy(s: State, p: Proc, i: nat) {
    i < |s.bufs| && i in s.holder && s.holder[i] == p && s.bufs[i].block.Some?
  }

  /** The committer has block b locked and loaded in slot i. */
  predicate Ready(s: State, i: nat, b: nat) {
    LockedBy(s, COMMITTER, i) && Holds(s, i, b) && s.bufs[i].valid
  }

  // What each event needs and does.

  predicate CanBegin(s: State, p: Proc) {
    p != COMMITTER && p !in s.active && s.phase.Idle? && |s.lh| + (|s.active| + 1) * MAXOPBLOCKS <= LOGBLOCKS
  }

  function DoBegin(s: State, p: Proc): State {
    s.(active := s.active[p := 0])
  }

  predicate CanGet(s: State, p: Proc, b: nat, i: nat) {
    && i < |s.bufs| && b < |s.disk| && (p, i) !in s.refs
    && (Holds(s, i, b) || (s.bufs[i].refcnt == 0 && forall j :: 0 <= j < |s.bufs| ==> s.bufs[j].block != Some(b)))
  }

  function DoGet(s: State, p: Proc, b: nat, i: nat): State
    requires i < |s.bufs|
  {
    var buf := if Holds(s, i, b) then s.bufs[i].(refcnt := s.bufs[i].refcnt + 1)
               else Buf(Some(b), false, 1, s.bufs[i].data);
    s.(bufs := s.bufs[i := buf], refs := s.refs + {(p, i)})
  }

  predicate CanLock(s: State, p: Proc, i: nat) {
    (p, i) in s.refs && i !in s.holder
  }

  function DoLock(s: State, p: Proc, i: nat): State {
    s.(holder := s.holder[i := p])
  }

  predicate CanLoad(s: State, p: Proc, i: nat) {
    LockedBy(s, p, i) && !s.bufs[i].valid && s.bufs[i].block.value < |s.disk|
  }

  function DoLoad(s: State, p: Proc, i: nat): State
    requires CanLoad(s, p, i)
  {
    s.(bufs := s.bufs[i := s.bufs[i].(valid := true, data := s.disk[s.bufs[i].block.value])])
  }

  /** Only an open operation modifies a buffer, only while it has it locked, and only home blocks. */
  predicate CanModify(s: State, p: Proc, i: nat) {
    LockedBy(s, p, i) && s.bufs[i].valid && p in s.active && IsHome(|s.disk|, s.start, s.bufs[i].block.value)
  }

  function DoModify(s: State, p: Proc, i: nat, data: Block): State
    requires i < |s.bufs|
  {
    s.(bufs := s.bufs[i := s.bufs[i].(data := data)], dirty := s.dirty + {i})
  }

  /** log_write of a new block assumes that the operation stays within MAXOPBLOCKS. */
  predicate CanLogWrite(s: State, p: Proc, i: nat) {
    CanModify(s, p, i) && (s.bufs[i].block.value in s.lh || s.active[p] < MAXOPBLOCKS)
  }

  function DoLogWrite(s: State, p: Proc, i: nat): State
    requires CanLogWrite(s, p, i)
  {
    var b := s.bufs[i].block.value;
    var t := s.(dirty := s.dirty - {i}, latest := s.latest[b := s.bufs[i].data]);
    if |s.lh| >= LOGBLOCKS then s.(panicked := true)
    else if b in s.lh then t
    else t.(bufs := s.bufs[i := s.bufs[i].(refcnt := s.bufs[i].refcnt + 1)], lh := s.lh + [b],
            active := s.active[p := s.active[p] + 1], pin := s.pin[b := i])
  }

  /** A modified buffer is logged before it is released. */
  predicate CanUnlock(s: State, p: Proc, i: nat) {
    LockedBy(s, p, i) && i !in s.dirty
  }

  function DoUnlock(s: State, p: Proc, i: nat): State {
    s.(holder := s.holder - {i})
  }

  predicate CanDrop(s: State, p: Proc, i: nat) {
    (p, i) in s.refs && !LockedBy(s, p, i) && i < |s.bufs| && s.bufs[i].refcnt > 0
  }

  function DoDrop(s: State, p: Proc, i: nat): State
    requires CanDrop(s, p, i)
  {
    s.(bufs := s.bufs[i := s.bufs[i].(refcnt := s.bufs[i].refcnt - 1)], refs := s.refs - {(p, i)})
  }

  predicate CanEnd(s: State, p: Proc) {
    p in s.active && forall i :: i in s.dirty ==> !LockedBy(s, p, i)
  }

  /** The last operation out starts the commit. */
  function DoEnd(s: State, p: Proc): State {
    var active := s.active - {p};
    s.(active := active, phase := if active == map[] then Logging(0) else s.phase)
  }

  predicate CanWriteLog(s: State, i: nat, j: nat) {
    && s.phase.Logging? && s.phase.k < |s.lh| && s.start + 1 + s.phase.k < |s.disk|
    && Ready(s, i, s.start + 1 + s.phase.k) && Ready(s, j, s.lh[s.phase.k])
  }

  function DoWriteLog(s: State, i: nat, j: nat): State
    requires CanWriteLog(s, i, j)
  {
    var data := s.bufs[j].data;
    s.(bufs := s.bufs[i := s.bufs[i].(data := data)], disk := s.disk[s.start + 1 + s.phase.k := data],
       phase := Logging(s.phase.k + 1))
  }

  predicate CanWriteHead(s: State, i: nat) {
    s.phase == Logging(|s.lh|) && 0 < |s.lh| <= LOGBLOCKS && s.start < |s.disk| && Ready(s, i, s.start)
  }

  /** The commit point: from here on the transaction counts as done. */
  function DoWriteHead(s: State, i: nat): State
    requires CanWriteHead(s, i)
  {
    var hb := EncodeHead(s.bufs[i].data, s.lh);
    s.(bufs := s.bufs[i := s.bufs[i].(data := hb)], disk := s.disk[s.start := hb], phase := Installing(0),
       committed := Overlay(s.committed, s.latest))
  }

  predicate CanInstall(s: State, i: nat, j: nat) {
    && s.phase.Installing? && s.phase.k < |s.lh| && s.lh[s.phase.k] < |s.disk|
    && Ready(s, i, s.start + 1 + s.phase.k) && Ready(s, j, s.lh[s.phase.k]) && s.bufs[j].refcnt > 0
  }

  function DoInstall(s: State, i: nat, j: nat): State
    requires CanInstall(s, i, j)
  {
    var data := s.bufs[i].data;
    s.(bufs := s.bufs[j := s.bufs[j].(data := data, refcnt := s.bufs[j].refcnt - 1)],
       disk := s.disk[s.lh[s.phase.k] := data], phase := Installing(s.phase.k + 1))
  }

  predicate CanClear(s: State, i: nat) {
    s.phase == Installing(|s.lh|) && s.start < |s.disk| && Ready(s, i, s.start)
  }

  function DoClear(s: State, i: nat): State
    requires CanClear(s, i)
  {
    var hb := EncodeHead(s.bufs[i].data, []);
    s.(bufs := s.bufs[i := s.bufs[i].(data := hb)], disk := s.disk[s.start := hb], phase := Cleared,
       lh := [], latest := map[], pin := map[])
  }

  predicate CanFinish(s: State) {
    s.phase.Cleared? || (s.phase.Logging? && s.lh == [])
  }

  function DoFinish(s: State): State {
    s.(phase := Idle)
  }

  /** Memory is lost; recoveries run, themselves crashing after the given numbers of writes, until one finishes. */
  function DoCrash(s: State, crashes: seq<nat>): State
    requires Sound(s.disk, s.start)
  {
    Initial(s.start, Recover(CrashedRecoveries(s.disk, s.start, crashes), s.start), |s.bufs|, s.committed)
  }

  /** After a panic the machine stands still until it is restarted. */
  predicate Enabled(s: State, e: Event) {
    (s.panicked ==> e.Crash?) &&
    match e
    case Begin(p) => CanBegin(s, p)
    case Get(p, b, i) => CanGet(s, p, b, i)
    case Lock(p, i) => CanLock(s, p, i)
    case Load(p, i) => CanLoad(s, p, i)
    case Modify(p, i, data) => CanModify(s, p, i)
    case LogWrite(p, i) => CanLogWrite(s, p, i)
    case Unlock(p, i) => CanUnlock(s, p, i)
    case Drop(p, i) => CanDrop(s, p, i)
    case End(p) => CanEnd(s, p)
    case WriteLog(i, j) => CanWriteLog(s, i, j)
    case WriteHead(i) => CanWriteHead(s, i)
    case Install(i, j) => CanInstall(s, i, j)
    case Clear(i) => CanClear(s, i)
    case Finish => CanFinish(s)
    case Crash(crashes) => Sound(s.disk, s.start)
  }

  function Next(s: State, e: Event): (s': State)
    requires Enabled(s, e)
  {
    match e
    case Begin(p) => DoBegin(s, p)
    case Get(p, b, i) => DoGet(s, p, b, i)
    case Lock(p, i) => DoLock(s, p, i)
    case Load(p, i) => DoLoad(s, p, i)
    case Modify(p, i, data) => DoModify(s, p, i, data)
    case LogWrite(p, i) => DoLogWrite(s, p, i)
    case Unlock(p, i) => DoUnlock(s, p, i)
    case Drop(p, i) => DoDrop(s, p, i)
    case End(p) => DoEnd(s, p)
    case WriteLog(i, j) => DoWriteLog(s, i, j)
    case WriteHead(i) => DoWriteHead(s, i)
    case Install(i, j) => DoInstall(s, i, j)
    case Clear(i) => DoClear(s, i)
    case Finish => DoFinish(s)
    case Crash(crashes) => DoCrash(s, crashes)
  }

  /** `committed` with the logged contents of the transaction laid over it. */
  function Overlay(committed: Disk, latest: map<nat, Block>): (r: Disk) {
    seq(|committed|, b requires 0 <= b < |committed| => if b in latest then latest[b] else committed[b])
  }

  function Initial(start: nat, disk: Disk, nbuf: nat, committed: Disk): State {
    var empty := Buf(None, false, 0, seq(WORDS, _ => 0));
    State(start, disk, seq(nbuf, _ => empty), {}, map[], {}, [], map[], Idle, map[], map[], committed, false)
  }

  ghost function RefsTo(refs: set<(Proc, nat)>, i: nat): set<(Proc, nat)> {
    set r | r in refs && r.1 == i
  }

  ghost predicate PendingSlot(buf: Buf, pending: seq<nat>) {
    buf.block.Some? && buf.block.value in pending
  }

  ghost predicate Shape(size: nat, start: nat, lh: seq<nat>, phase: Phase, active: map<Proc, nat>,
                        latest: map<nat, Block>)
  {
    && start + LOGBLOCKS < size
    && Loggable(size, start, lh) && Distinct(lh)
    && (phase.Logging? || phase.Installing? ==> phase.k <= |lh|)
    && (phase.Cleared? ==> lh == [])
    && (!phase.Idle? ==> active == map[]) && (phase.Idle? && active == map[] ==> lh == [])
    && (forall b :: b in latest <==> b in lh)
  }

  /** At most one slot holds a given block. */
  ghost predicate Unique(bufs: seq<Buf>) {
    forall i, j :: 0 <= i < j < |bufs| && bufs[i].block.Some? ==> bufs[i].block != bufs[j].block
  }

  /** A reference count is the number of users plus one for a pin. */
  ghost predicate Refcounts(bufs: seq<Buf>, refs: set<(Proc, nat)>, pending: seq<nat>) {
    forall i :: 0 <= i < |bufs| ==>
      bufs[i].refcnt == |RefsTo(refs, i)| + (if PendingSlot(bufs[i], pending) then 1 else 0)
  }

  /** References are to slots in use, locks belong to users, and only open operations modify, home blocks only. */
  ghost predicate Users(bufs: seq<Buf>, refs: set<(Proc, nat)>, holder: map<nat, Proc>, dirty: set<nat>,
                        ops: set<Proc>, size: nat, start: nat)
  {
    && (forall i :: 0 <= i < |bufs| && bufs[i].block.Some? ==> bufs[i].block.value < size)
    && (forall r :: r in refs ==> r.1 < |bufs| && bufs[r.1].block.Some?)
    && (forall i :: i in holder ==> (holder[i], i) in refs)
    && (forall i :: i in dirty ==>
          i in holder && holder[i] in ops && i < |bufs| && bufs[i].valid
          && bufs[i].block.Some? && IsHome(size, start, bufs[i].block.value))
  }

  /** From the log_write that records a block until install_trans reaches it, its buffer stays in its slot. */
  ghost predicate Pinned(bufs: seq<Buf>, pin: map<nat, nat>, pending: seq<nat>) {
    forall b :: b in pending ==> b in pin && pin[b] < |bufs| && bufs[pin[b]].block == Some(b) && bufs[pin[b]].valid
  }

  /** A valid slot that nobody is modifying holds what was last logged for its block, or else what the disk holds. */
  ghost predicate Data(bufs: seq<Buf>, dirty: set<nat>, pending: seq<nat>, latest: map<nat, Block>, disk: Disk) {
    forall i :: 0 <= i < |bufs| && bufs[i].valid && i !in dirty && bufs[i].block.Some? ==>
      var b := bufs[i].block.value;
      if b in pending then b in latest && bufs[i].data == latest[b]
      else b < |disk| && bufs[i].data == disk[b]
  }

  /** The first k log blocks hold the logged contents. */
  ghost predicate LogHolds(disk: Disk, start: nat, lh: seq<nat>, latest: map<nat, Block>, k: nat) {
    && k <= |lh| && start + k < |disk|
    && forall i :: 0 <= i < k ==> lh[i] in latest && disk[start + 1 + i] == latest[lh[i]]
  }

  ghost predicate OnDisk(disk: Disk, start: nat, lh: seq<nat>, phase: Phase, latest: map<nat, Block>, committed: Disk) {
    && start < |disk| == |committed|
    && match phase
       case Installing(k) =>
         && DecodesTo(disk[start], lh) && LogHolds(disk, start, lh, latest, |lh|)
         && (forall b: nat :: IsHome(|disk|, start, b) && b !in lh ==> disk[b] == committed[b])
         && (forall b :: b in lh ==> b < |disk| && b in latest && committed[b] == latest[b])
         && k <= |lh| && (forall i :: 0 <= i < k ==> lh[i] in latest && lh[i] < |disk| && disk[lh[i]] == latest[lh[i]])
       case _ =>
         && disk[start][0] == 0 && SameHome(disk, committed, start)
         && (phase.Logging? ==> LogHolds(disk, start, lh, latest, phase.k))
  }

  ghost predicate DecodesTo(hb: Block, lh: seq<nat>) {
    hb[0] <= LOGBLOCKS && DecodeHead(hb) == lh
  }

  ghost predicate Inv(s: State) {
    var pending := Pending(s.lh, s.phase);
    && Shape(|s.disk|, s.start, s.lh, s.phase, s.active, s.latest)
    && Unique(s.bufs)
    && Refcounts(s.bufs, s.refs, pending)
    && Users(s.bufs, s.refs, s.holder, s.dirty, s.active.Keys, |s.disk|, s.start)
    && Pinned(s.bufs, s.pin, pending)
    && Data(s.bufs, s.dirty, pending, s.latest, s.disk)
    && OnDisk(s.disk, s.start, s.lh, s.phase, s.latest, s.committed)
    && Quota(|s.lh|, s.active) && COMMITTER !in s.active
  }

  /** In every state a crash is harmless: recovery restores exactly the home blocks of the last commit. */
  lemma CrashSafe(s: State, crashes: seq<nat>)
    requires Inv(s)
    ensures Sound(s.disk, s.start)
    ensures var r := Recover(CrashedRecoveries(s.disk, s.start, crashes), s.start);
            r[s.start][0] == 0 && |r| == |s.committed| && SameHome(r, s.committed, s.start)
  {
    hide InstallAt, Recover, CrashedRecoveries, Unique, Refcounts, Users, Pinned, Data, Quota, LogHolds;
    if s.phase.Installing? {
      RecoverInstalling(s.disk, s.start, s.lh, s.phase, s.latest, s.committed);
    } else {
      RecoverEmpty(s.disk, s.start);
    }
    RecoverOutcome(CrashedRecoveries(s.disk, s.start, crashes), s.start);
  }

  lemma RecoverInstalling(disk: Disk, start: nat, lh: seq<nat>, phase: Phase, latest: map<nat, Block>, committed: Disk)
    requires start + LOGBLOCKS < |disk| && Loggable(|disk|, start, lh) && Distinct(lh)
    requires OnDisk(disk, start, lh, phase, latest, committed) && phase.Installing?
    ensures Sound(disk, start) && SameHome(Recover(disk, start), committed, start)
  {
    hide Recover;
    RecoverLogged(disk, start, lh, latest);
  }

  /** An operation that has added fewer than MAXOPBLOCKS blocks finds room: log_write does not panic. */
  lemma LogWriteHasRoom(s: State, p: Proc)
    requires Inv(s) && p in s.active && s.active[p] < MAXOPBLOCKS
    ensures |s.lh| < LOGBLOCKS
  {
    hide Shape, OnDisk, Unique, Refcounts, Users, Pinned, Data, Quota;
    QuotaFull(|s.lh|, s.active);
  }

  /**
   * An operation within its reservation makes log_write panic exactly when the log is full. Then the block is in the
   * log already, and this and every other open operation has added exactly MAXOPBLOCKS.
   */
  lemma LogWritePanics(s: State, p: Proc, i: nat)
    requires Inv(s) && Enabled(s, LogWrite(p, i)) && !s.panicked
    ensures Next(s, LogWrite(p, i)).panicked <==> |s.lh| == LOGBLOCKS
    ensures |s.lh| == LOGBLOCKS ==> && s.bufs[i].block.value in s.lh
                                    && forall q :: q in s.active ==> s.active[q] == MAXOPBLOCKS
  {
    hide Shape, OnDisk, Unique, Refcounts, Users, Pinned, Data, Quota;
    QuotaFull(|s.lh|, s.active);
    QuotaEach(|s.lh|, s.active);
  }

  lemma RefsAdd(refs: set<(Proc, nat)>, p: Proc, i: nat)
    requires (p, i) !in refs
    ensures |RefsTo(refs + {(p, i)}, i)| == |RefsTo(refs, i)| + 1
    ensures forall j: nat :: j != i ==> RefsTo(refs + {(p, i)}, j) == RefsTo(refs, j)
  {
    assert RefsTo(refs + {(p, i)}, i) == RefsTo(refs, i) + {(p, i)};
  }

  lemma RefsDrop(refs: set<(Proc, nat)>, p: Proc, i: nat)
    requires (p, i) in refs
    ensures |RefsTo(refs, i)| == |RefsTo(refs - {(p, i)}, i)| + 1
    ensures forall j: nat :: j != i ==> RefsTo(refs - {(p, i)}, j) == RefsTo(refs, j)
  {
    assert RefsTo(refs, i) == RefsTo(refs - {(p, i)}, i) + {(p, i)};
  }

  lemma BeginKeeps(s: State, p: Proc)
    requires Inv(s) && CanBegin(s, p)
    ensures Inv(DoBegin(s, p))
  {
    hide Unique, Refcounts, Pinned, Data, OnDisk, Quota, Users;
    QuotaBegin(|s.lh|, s.active, p);
    MoreOps(s.bufs, s.refs, s.holder, s.dirty, s.active.Keys, DoBegin(s, p).active.Keys, |s.disk|, s.start);
  }

  lemma MoreOps(bufs: seq<Buf>, refs: set<(Proc, nat)>, holder: map<nat, Proc>, dirty: set<nat>, ops: set<Proc>,
                ops': set<Proc>, size: nat, start: nat)
    requires Users(bufs, refs, holder, dirty, ops, size, start) && ops <= ops'
    ensures Users(bufs, refs, holder, dirty, ops', size, start)
  {
  }

  lemma GetKeeps(s: State, p: Proc, b: nat, i: nat)
    requires Inv(s) && CanGet(s, p, b, i)
    ensures Inv(DoGet(s, p, b, i))
  {
    hide Shape, OnDisk, Quota, Unique, Refcounts, Users, Pinned, Data;
    var pending := Pending(s.lh, s.phase);
    if Holds(s, i, b) {
      Reference(s.bufs, s.refs, pending, p, i);
      SameBlocks(s, s.bufs[i].(refcnt := s.bufs[i].refcnt + 1), i, s.refs + {(p, i)});
    } else {
      Recycle(s, p, b, i);
    }
  }

  /** One more user of a slot. */
  lemma Reference(bufs: seq<Buf>, refs: set<(Proc, nat)>, pending: seq<nat>, p: Proc, i: nat)
    requires Refcounts(bufs, refs, pending) && i < |bufs| && (p, i) !in refs
    ensures Refcounts(bufs[i := bufs[i].(refcnt := bufs[i].refcnt + 1)], refs + {(p, i)}, pending)
  {
    RefsAdd(refs, p, i);
  }

  /** Changing the count of a slot, and users that stay on slots in use, disturbs nothing else. */
  lemma SameBlocks(s: State, buf: Buf, i: nat, refs: set<(Proc, nat)>)
    requires i < |s.bufs| && buf == s.bufs[i].(refcnt := buf.refcnt) && s.refs <= refs
    requires Unique(s.bufs) && Pinned(s.bufs, s.pin, Pending(s.lh, s.phase))
    requires Users(s.bufs, s.refs, s.holder, s.dirty, s.active.Keys, |s.disk|, s.start)
    requires Data(s.bufs, s.dirty, Pending(s.lh, s.phase), s.latest, s.disk)
    requires forall r :: r in refs ==> r in s.refs || (r.1 == i && s.bufs[i].block.Some?)
    ensures var bufs := s.bufs[i := buf];
            && Unique(bufs) && Pinned(bufs, s.pin, Pending(s.lh, s.phase))
            && Users(bufs, refs, s.holder, s.dirty, s.active.Keys, |s.disk|, s.start)
            && Data(bufs, s.dirty, Pending(s.lh, s.phase), s.latest, s.disk)
  {
  }

  /** A slot is recycled only when it has no user and no pin. */
  lemma Recycle(s: State, p: Proc, b: nat, i: nat)
    requires Inv(s) && CanGet(s, p, b, i) && !Holds(s, i, b)
    ensures Inv(DoGet(s, p, b, i))
  {
    hide Shape, OnDisk, Quota;
    RecycleUnused(s.bufs, s.refs, Pending(s.lh, s.phase), i);
    RecycleRefcounts(s.bufs, s.refs, Pending(s.lh, s.phase), s.pin, p, b, i);
    hide Refcounts, RefsTo;
    assert i !in s.holder;
  }

  lemma RecycleUnused(bufs: seq<Buf>, refs: set<(Proc, nat)>, pending: seq<nat>, i: nat)
    requires Refcounts(bufs, refs, pending) && i < |bufs| && bufs[i].refcnt == 0
    ensures forall q: Proc :: (q, i) !in refs
    ensures !PendingSlot(bufs[i], pending)
  {
    assert forall q: Proc :: (q, i) in refs ==> (q, i) in RefsTo(refs, i);
  }

  lemma RecycleRefcounts(bufs: seq<Buf>, refs: set<(Proc, nat)>, pending: seq<nat>, pin: map<nat, nat>, p: Proc,
                         b: nat, i: nat)
    requires Refcounts(bufs, refs, pending) && Pinned(bufs, pin, pending)
    requires i < |bufs| && bufs[i].refcnt == 0 && (p, i) !in refs
    requires forall j :: 0 <= j < |bufs| ==> bufs[j].block != Some(b)
    ensures Refcounts(bufs[i := Buf(Some(b), false, 1, bufs[i].data)], refs + {(p, i)}, pending)
  {
    RefsAdd(refs, p, i);
    assert b !in pending;
  }

  lemma LockKeeps(s: State, p: Proc, i: nat)
    requires Inv(s) && CanLock(s, p, i)
    ensures Inv(DoLock(s, p, i))
  {
    hide Shape, OnDisk, Quota, Unique, Refcounts, Pinned, Data;
  }

  lemma LoadKeeps(s: State, p: Proc, i: nat)
    requires Inv(s) && CanLoad(s, p, i)
    ensures Inv(DoLoad(s, p, i))
  {
    hide Shape, OnDisk, Quota;
  }

  lemma ModifyKeeps(s: State, p: Proc, i: nat, data: Block)
    requires Inv(s) && CanModify(s, p, i)
    ensures Inv(DoModify(s, p, i, data))
  {
    hide Shape, OnDisk, Quota;
  }

  lemma LogWriteKeeps(s: State, p: Proc, i: nat)
    requires Inv(s) && CanLogWrite(s, p, i)
    ensures Inv(DoLogWrite(s, p, i))
  {
    hide Quota, Unique, Refcounts, Pinned, Users, Data, OnDisk, Shape;
    if |s.lh| < LOGBLOCKS {
      ListGrows(s, p, s.bufs[i].block.value, s.bufs[i].data);
      if s.bufs[i].block.value in s.lh {
        Absorb(s, i);
      } else {
        NewlyLogged(s.bufs, s.refs, s.lh, s.pin, i);
        NewlyLoggedData(s, i);
        QuotaUse(|s.lh|, s.active, p);
        assert s.active[p := s.active[p] + 1].Keys == s.active.Keys;
      }
    }
  }

  /** A block joins the list of a transaction that has not begun to commit. */
  lemma ListGrows(s: State, p: Proc, b: nat, data: Block)
    requires Shape(|s.disk|, s.start, s.lh, s.phase, s.active, s.latest) && p in s.active && |s.lh| < LOGBLOCKS
    requires OnDisk(s.disk, s.start, s.lh, s.phase, s.latest, s.committed) && IsHome(|s.disk|, s.start, b)
    ensures s.phase.Idle?
    ensures var lh, latest := if b in s.lh then s.lh else s.lh + [b], s.latest[b := data];
            && Shape(|s.disk|, s.start, lh, s.phase, s.active, latest)
            && Shape(|s.disk|, s.start, lh, s.phase, s.active[p := s.active[p] + 1], latest)
            && OnDisk(s.disk, s.start, lh, s.phase, latest, s.committed)
  {
  }

  /** Logging a block again records its new contents and leaves the counts alone. */
  lemma Absorb(s: State, i: nat)
    requires i < |s.bufs| && s.bufs[i].block.Some? && s.bufs[i].valid && s.bufs[i].block.value in s.lh && s.phase.Idle?
    requires Unique(s.bufs) && Data(s.bufs, s.dirty, s.lh, s.latest, s.disk)
    requires Users(s.bufs, s.refs, s.holder, s.dirty, s.active.Keys, |s.disk|, s.start)
    ensures Users(s.bufs, s.refs, s.holder, s.dirty - {i}, s.active.Keys, |s.disk|, s.start)
    ensures Data(s.bufs, s.dirty - {i}, s.lh, s.latest[s.bufs[i].block.value := s.bufs[i].data], s.disk)
  {
  }

  /** Logging a block for the first time pins its buffer. */
  lemma NewlyLogged(bufs: seq<Buf>, refs: set<(Proc, nat)>, lh: seq<nat>, pin: map<nat, nat>, i: nat)
    requires i < |bufs| && bufs[i].block.Some? && bufs[i].valid && bufs[i].block.value !in lh
    requires Unique(bufs) && Refcounts(bufs, refs, lh) && Pinned(bufs, pin, lh)
    ensures var b := bufs[i].block.value;
            var bufs' := bufs[i := bufs[i].(refcnt := bufs[i].refcnt + 1)];
            Unique(bufs') && Refcounts(bufs', refs, lh + [b]) && Pinned(bufs', pin[b := i], lh + [b])
  {
  }

  lemma NewlyLoggedData(s: State, i: nat)
    requires i < |s.bufs| && s.bufs[i].block.Some? && s.bufs[i].valid && s.bufs[i].block.value !in s.lh
    requires Unique(s.bufs) && Users(s.bufs, s.refs, s.holder, s.dirty, s.active.Keys, |s.disk|, s.start)
    requires Data(s.bufs, s.dirty, s.lh, s.latest, s.disk)
    ensures var b := s.bufs[i].block.value;
            var bufs := s.bufs[i := s.bufs[i].(refcnt := s.bufs[i].refcnt + 1)];
            && Users(bufs, s.refs, s.holder, s.dirty - {i}, s.active.Keys, |s.disk|, s.start)
            && Data(bufs, s.dirty - {i}, s.lh + [b], s.latest[b := s.bufs[i].data], s.disk)
  {
  }

  lemma UnlockKeeps(s: State, p: Proc, i: nat)
    requires Inv(s) && CanUnlock(s, p, i)
    ensures Inv(DoUnlock(s, p, i))
  {
    hide Shape, OnDisk, Quota, Unique, Refcounts, Pinned, Data;
  }

  lemma DropKeeps(s: State, p: Proc, i: nat)
    requires Inv(s) && CanDrop(s, p, i)
    ensures Inv(DoDrop(s, p, i))
  {
    hide Shape, OnDisk, Quota;
    RefsDrop(s.refs, p, i);
  }

  lemma EndKeeps(s: State, p: Proc)
    requires Inv(s) && CanEnd(s, p)
    ensures Inv(DoEnd(s, p))
  {
    hide Unique, Refcounts, Pinned, Data, Quota;
    QuotaEnd(|s.lh|, s.active, p);
    assert DoEnd(s, p).active.Keys == s.active.Keys - {p};
    assert forall i :: i in s.dirty ==> LockedBy(s, s.holder[i], i);
  }

  /** Writing new contents of a block that is not pending to its slot and to the disk disturbs no other slot. */
  lemma WriteThrough(s: State, i: nat, data: Block, disk: Disk)
    requires i < |s.bufs| && s.bufs[i].block.Some? && s.bufs[i].valid
             && s.bufs[i].block.value !in Pending(s.lh, s.phase)
    requires s.bufs[i].block.value < |s.disk| && disk == s.disk[s.bufs[i].block.value := data]
    requires Unique(s.bufs) && Refcounts(s.bufs, s.refs, Pending(s.lh, s.phase))
             && Pinned(s.bufs, s.pin, Pending(s.lh, s.phase))
    requires Users(s.bufs, s.refs, s.holder, s.dirty, s.active.Keys, |s.disk|, s.start)
    requires Data(s.bufs, s.dirty, Pending(s.lh, s.phase), s.latest, s.disk)
    ensures var bufs := s.bufs[i := s.bufs[i].(data := data)];
            && Unique(bufs) && Refcounts(bufs, s.refs, Pending(s.lh, s.phase))
            && Pinned(bufs, s.pin, Pending(s.lh, s.phase))
            && Users(bufs, s.refs, s.holder, s.dirty, s.active.Keys, |s.disk|, s.start)
            && Data(bufs, s.dirty, Pending(s.lh, s.phase), s.latest, disk)
  {
  }

  lemma WriteLogKeeps(s: State, i: nat, j: nat)
    requires Inv(s) && CanWriteLog(s, i, j)
    ensures Inv(DoWriteLog(s, i, j))
  {
    hide Quota, Unique, Refcounts, Pinned, Users, Data, OnDisk;
    assert s.dirty == {} by { NothingDirty(s); }
    LoggedSlot(s.bufs, s.dirty, s.lh, s.latest, s.disk, j);
    WriteThrough(s, i, s.bufs[j].data, s.disk[s.start + 1 + s.phase.k := s.bufs[j].data]);
    LogOneMore(s.disk, s.start, s.lh, s.phase.k, s.latest, s.committed);
  }

  lemma LoggedSlot(bufs: seq<Buf>, dirty: set<nat>, pending: seq<nat>, latest: map<nat, Block>, disk: Disk, i: nat)
    requires Data(bufs, dirty, pending, latest, disk) && i < |bufs| && bufs[i].valid && i !in dirty
             && bufs[i].block.Some?
    ensures var b := bufs[i].block.value;
            if b in pending then b in latest && bufs[i].data == latest[b] else b < |disk| && bufs[i].data == disk[b]
  {
  }

  lemma LogOneMore(disk: Disk, start: nat, lh: seq<nat>, k: nat, latest: map<nat, Block>, committed: Disk)
    requires OnDisk(disk, start, lh, Logging(k), latest, committed) && k < |lh| <= LOGBLOCKS
             && start + LOGBLOCKS < |disk|
    requires lh[k] in latest
    ensures OnDisk(disk[start + 1 + k := latest[lh[k]]], start, lh, Logging(k + 1), latest, committed)
  {
  }

  lemma NothingDirty(s: State)
    requires Users(s.bufs, s.refs, s.holder, s.dirty, s.active.Keys, |s.disk|, s.start) && s.active == map[]
    ensures s.dirty == {}
  {
  }

  lemma WriteHeadKeeps(s: State, i: nat)
    requires Inv(s) && CanWriteHead(s, i)
    ensures Inv(DoWriteHead(s, i))
  {
    hide Quota, OnDisk, Unique, Refcounts, Pinned, Users, Data;
    assert s.lh[0..] == s.lh;
    HeadOnDisk(s, i);
    var hb := EncodeHead(s.bufs[i].data, s.lh);
    WriteThrough(s, i, hb, s.disk[s.start := hb]);
  }

  lemma HeadOnDisk(s: State, i: nat)
    requires Inv(s) && CanWriteHead(s, i)
    ensures var t := DoWriteHead(s, i); OnDisk(t.disk, t.start, t.lh, t.phase, t.latest, t.committed)
  {
    hide Quota, Unique, Refcounts, Pinned, Data, Users, OnDisk, EncodeHead, DecodeHead;
    HeadRoundTrip(s.bufs[i].data, s.lh);
    HeadCommits(s.disk, s.start, s.lh, s.latest, s.committed, EncodeHead(s.bufs[i].data, s.lh));
  }

  /** The header block alone turns logged contents into committed ones. */
  lemma HeadCommits(disk: Disk, start: nat, lh: seq<nat>, latest: map<nat, Block>, committed: Disk, hb: Block)
    requires OnDisk(disk, start, lh, Logging(|lh|), latest, committed) && start + LOGBLOCKS < |disk|
    requires Loggable(|disk|, start, lh) && (forall b :: b in latest <==> b in lh) && DecodesTo(hb, lh)
    ensures OnDisk(disk[start := hb], start, lh, Installing(0), latest, Overlay(committed, latest))
  {
  }

  lemma InstallKeeps(s: State, i: nat, j: nat)
    requires Inv(s) && CanInstall(s, i, j)
    ensures Inv(DoInstall(s, i, j))
  {
    hide Quota, OnDisk, Unique, Refcounts, Pinned, Users, Data;
    assert s.dirty == {} by { NothingDirty(s); }
    InstallData(s, i, j);
    InstallCounts(s.bufs, s.refs, s.lh, s.phase.k, s.pin, j, s.bufs[i].data);
    InstallContents(s, s.phase.k, j, s.bufs[i].data);
    InstallOnDisk(s.disk, s.start, s.lh, s.phase.k, s.latest, s.committed);
  }

  /** The log block still holds what was logged, and so what the committer copies home. */
  lemma InstallData(s: State, i: nat, j: nat)
    requires Inv(s) && CanInstall(s, i, j) && s.dirty == {}
    ensures s.lh[s.phase.k] in s.latest && s.bufs[i].data == s.latest[s.lh[s.phase.k]]
  {
    hide Quota, Unique, Refcounts, Pinned, Users, Data, OnDisk;
    LoggedBlock(s.disk, s.start, s.lh, s.phase.k, s.latest, s.committed);
    LoggedSlot(s.bufs, s.dirty, Pending(s.lh, s.phase), s.latest, s.disk, i);
  }

  lemma LoggedBlock(disk: Disk, start: nat, lh: seq<nat>, k: nat, latest: map<nat, Block>, committed: Disk)
    requires OnDisk(disk, start, lh, Installing(k), latest, committed) && k < |lh| && Loggable(|disk|, start, lh)
    ensures lh[k] in latest && start + 1 + k < |disk| && disk[start + 1 + k] == latest[lh[k]] && start + 1 + k !in lh
  {
  }

  /** Once installed, a block is unpinned and its buffer agrees with the disk. */
  lemma InstallCounts(bufs: seq<Buf>, refs: set<(Proc, nat)>, lh: seq<nat>, k: nat, pin: map<nat, nat>, j: nat,
                      data: Block)
    requires k < |lh| && Distinct(lh) && j < |bufs| && bufs[j].block == Some(lh[k]) && bufs[j].refcnt > 0
    requires Unique(bufs) && Refcounts(bufs, refs, lh[k..]) && Pinned(bufs, pin, lh[k..])
    ensures var bufs' := bufs[j := bufs[j].(data := data, refcnt := bufs[j].refcnt - 1)];
            Unique(bufs') && Refcounts(bufs', refs, lh[k + 1..]) && Pinned(bufs', pin, lh[k + 1..])
  {
    assert lh[k..] == [lh[k]] + lh[k + 1..];
    assert lh[k] !in lh[k + 1..];
  }

  lemma InstallContents(s: State, k: nat, j: nat, data: Block)
    requires k < |s.lh| && Distinct(s.lh) && Holds(s, j, s.lh[k]) && s.bufs[j].refcnt > 0 && s.lh[k] < |s.disk|
    requires Unique(s.bufs) && Users(s.bufs, s.refs, s.holder, s.dirty, s.active.Keys, |s.disk|, s.start)
    requires Data(s.bufs, s.dirty, s.lh[k..], s.latest, s.disk)
    ensures var bufs := s.bufs[j := s.bufs[j].(data := data, refcnt := s.bufs[j].refcnt - 1)];
            && Users(bufs, s.refs, s.holder, s.dirty, s.active.Keys, |s.disk|, s.start)
            && Data(bufs, s.dirty, s.lh[k + 1..], s.latest, s.disk[s.lh[k] := data])
  {
    assert s.lh[k..] == [s.lh[k]] + s.lh[k + 1..];
    assert s.lh[k] !in s.lh[k + 1..];
  }

  lemma LogStaysHeld(disk: Disk, start: nat, lh: seq<nat>, latest: map<nat, Block>, b: nat, data: Block)
    requires LogHolds(disk, start, lh, latest, |lh|) && |lh| <= LOGBLOCKS && IsHome(|disk|, start, b)
    ensures LogHolds(disk[b := data], start, lh, latest, |lh|)
  {
  }

  lemma InstallOnDisk(disk: Disk, start: nat, lh: seq<nat>, k: nat, latest: map<nat, Block>, committed: Disk)
    requires OnDisk(disk, start, lh, Installing(k), latest, committed) && k < |lh| && Distinct(lh)
    requires start + LOGBLOCKS < |disk| && Loggable(|disk|, start, lh) && lh[k] in latest
    ensures OnDisk(disk[lh[k] := latest[lh[k]]], start, lh, Installing(k + 1), latest, committed)
  {
    hide LogHolds, DecodesTo;
    LogStaysHeld(disk, start, lh, latest, lh[k], latest[lh[k]]);
  }

  lemma ClearKeeps(s: State, i: nat)
    requires Inv(s) && CanClear(s, i)
    ensures Inv(DoClear(s, i))
  {
    hide Unique, Refcounts, Pinned, Users, Data;
    var hb := EncodeHead(s.bufs[i].data, []);
    assert s.lh[|s.lh|..] == [];
    WriteThrough(s, i, hb, s.disk[s.start := hb]);
    NothingPending(s.bufs[i := s.bufs[i].(data := hb)], s.dirty, s.latest, s.pin, s.disk[s.start := hb]);
  }

  lemma NothingPending(bufs: seq<Buf>, dirty: set<nat>, latest: map<nat, Block>, pin: map<nat, nat>, disk: Disk)
    requires Data(bufs, dirty, [], latest, disk)
    ensures Data(bufs, dirty, [], map[], disk) && Pinned(bufs, map[], [])
  {
  }

  lemma FinishKeeps(s: State)
    requires Inv(s) && CanFinish(s)
    ensures Inv(DoFinish(s))
  {
    hide Quota, Unique, Refcounts, Pinned, Data;
  }

  lemma CrashKeeps(s: State, crashes: seq<nat>)
    requires Inv(s) && Sound(s.disk, s.start)
    ensures Inv(DoCrash(s, crashes))
  {
    CrashSafe(s, crashes);
  }

  lemma StepKeeps(s: State, e: Event)
    requires Inv(s) && Enabled(s, e)
    ensures Inv(Next(s, e))
  {
    hide Inv, CanBegin, CanGet, CanLock, CanLoad, CanModify, CanLogWrite, CanUnlock, CanDrop, CanEnd, CanWriteLog,
         CanWriteHead, CanInstall, CanClear, CanFinish, DoBegin, DoGet, DoLock, DoLoad, DoModify, DoLogWrite, DoUnlock,
         DoDrop, DoEnd, DoWriteLog, DoWriteHead, DoInstall, DoClear, DoFinish, DoCrash;
    match e {
      case Begin(p) => BeginKeeps(s, p);
      case Get(p, b, i) => GetKeeps(s, p, b, i);
      case Lock(p, i) => LockKeeps(s, p, i);
      case Load(p, i) => LoadKeeps(s, p, i);
      case Modify(p, i, data) => ModifyKeeps(s, p, i, data);
      case LogWrite(p, i) => LogWriteKeeps(s, p, i);
      case Unlock(p, i) => UnlockKeeps(s, p, i);
      case Drop(p, i) => DropKeeps(s, p, i);
      case End(p) => EndKeeps(s, p);
      case WriteLog(i, j) => WriteLogKeeps(s, i, j);
      case WriteHead(i) => WriteHeadKeeps(s, i);
      case Install(i, j) => InstallKeeps(s, i, j);
      case Clear(i) => ClearKeeps(s, i);
      case Finish => FinishKeeps(s);
      case Crash(crashes) => CrashKeeps(s, crashes);
    }
  }

  /** A run from a state: the states it passes through. */
  ghost predicate Run(states: seq<State>, events: seq<Event>) {
    && |states| == |events| + 1
    && forall k :: 0 <= k < |events| ==> StepsTo(states[k], events[k], states[k + 1])
  }

  ghost predicate StepsTo(s: State, e: Event, t: State) {
    Enabled(s, e) && t == Next(s, e)
  }

  /** A machine just started on a recovered disk. */
  ghost predicate Fresh(s: State) {
    s == Initial(s.start, s.disk, |s.bufs|, s.disk) && s.start + LOGBLOCKS < |s.disk| && s.disk[s.start][0] == 0
  }

  lemma InitialInv(s: State)
    requires Fresh(s)
    ensures Inv(s)
  {
    assert forall i: nat :: RefsTo({}, i) == {};
  }

  /** Every interleaving, with crashes anywhere in it, keeps the invariant from a freshly recovered disk on. */
  lemma {:induction false} RunKeeps(states: seq<State>, events: seq<Event>, k: nat)
    requires Run(states, events) && Fresh(states[0]) && k <= |events|
    ensures Inv(states[k])
  {
    hide Inv, Fresh, Enabled, Next;
    if k == 0 {
      InitialInv(states[0]);
    } else {
      RunKeeps(states, events, k - 1);
      assert StepsTo(states[k - 1], events[k - 1], states[k]);
      StepKeeps(states[k - 1], events[k - 1]);
    }
  }

  /** Counts never run below zero: a user's reference, and a pin, is always counted. */
  lemma CountsPositive(s: State, i: nat)
    requires Inv(s) && i < |s.bufs|
    ensures forall p: Proc :: (p, i) in s.refs ==> s.bufs[i].refcnt > 0
    ensures PendingSlot(s.bufs[i], Pending(s.lh, s.phase)) ==> s.bufs[i].refcnt > 0
  {
    hide Shape, OnDisk, Quota, Unique, Users, Pinned, Data;
    assert forall p: Proc :: (p, i) in s.refs ==> (p, i) in RefsTo(s.refs, i);
  }

  /** No event but a crash moves a block out of its slot while it is waiting to be installed. */
  lemma PinHolds(s: State, e: Event, b: nat)
    requires Inv(s) && Enabled(s, e) && !e.Crash?
    requires b in Pending(s.lh, s.phase) && b in Pending(Next(s, e).lh, Next(s, e).phase)
    ensures b in s.pin && Holds(s, s.pin[b], b) && s.bufs[s.pin[b]].refcnt > 0
    ensures var t := Next(s, e);
            b in t.pin && t.pin[b] == s.pin[b] && Holds(t, s.pin[b], b) && t.bufs[s.pin[b]].refcnt > 0
  {
    hide Shape, OnDisk, Quota, Unique, Users, Data, Refcounts, Next, Enabled;
    StepKeeps(s, e);
    PinFixed(s, e, b);
    CountsPositive(s, s.pin[b]);
    CountsPositive(Next(s, e), Next(s, e).pin[b]);
  }

  lemma PinFixed(s: State, e: Event, b: nat)
    requires Enabled(s, e) && !e.Crash? && b in s.lh && b in s.pin
    requires b in Pending(Next(s, e).lh, Next(s, e).phase)
    ensures var t := Next(s, e); b in t.pin && t.pin[b] == s.pin[b]
  {
  }

  /** write_log copies what was last handed to log_write, and by then every operation of the transaction has ended. */
  lemma LogsLatest(s: State, i: nat, j: nat)
    requires Inv(s) && CanWriteLog(s, i, j)
    ensures s.active == map[] && s.lh[s.phase.k] in s.latest && s.bufs[j].data == s.latest[s.lh[s.phase.k]]
  {
    hide OnDisk, Quota, Unique, Refcounts, Pinned;
    NothingDirty(s);
  }

  // ---- a run into the panic --------------------------------------------------------------------------------------

  lemma Extend(states: seq<State>, events: seq<Event>, e: Event)
    requires Run(states, events) && Enabled(states[|events|], e)
    ensures Run(states + [Next(states[|events|], e)], events + [e])
  {
    hide Enabled, Next;
    var s, v := states + [Next(states[|events|], e)], events + [e];
    forall k | 0 <= k < |v| ensures StepsTo(s[k], v[k], s[k + 1]) {
      if k < |events| { assert StepsTo(states[k], events[k], states[k + 1]); }
    }
  }

  lemma RunLength(states: seq<State>, events: seq<Event>)
    requires Run(states, events)
    ensures |states| == |events| + 1
  {
  }

  lemma Just(s: State) returns (states: seq<State>, events: seq<Event>)
    ensures Run(states, events) && states[0] == states[|events|] == s
  {
    states, events := [s], [];
  }

  lemma Then(states: seq<State>, events: seq<Event>, e: Event) returns (states': seq<State>, events': seq<Event>)
    requires Run(states, events) && Enabled(states[|events|], e)
    ensures Run(states', events') && states'[0] == states[0] && |events'| == |events| + 1
    ensures states'[|events'|] == Next(states[|events|], e)
  {
    hide Enabled, Next;
    Extend(states, events, e);
    states', events' := states + [Next(states[|events|], e)], events + [e];
  }

  /** Blocks of the three operations 1, 2 and 3, each adding ten of its own. */
  function Added(k: nat, p: Proc): nat
    requires 1 <= p <= 3
  {
    if k <= 10 * (p - 1) then 0 else if k >= 10 * p then 10 else k - 10 * (p - 1)
  }

  /** The i-th block outside the log area. */
  function HomeBlock(start: nat, i: nat): nat {
    if i < start then i else i + LOGBLOCKS + 1
  }

  function HomeIndex(start: nat, b: nat): nat {
    if b <= start + LOGBLOCKS then b else b - LOGBLOCKS - 1
  }

  /** The first `k` slots hold the first home blocks, logged by their operations and still locked. */
  ghost predicate Filling(s: State, k: nat) {
    && !s.panicked && s.phase.Idle? && s.start + LOGBLOCKS < |s.disk| && 2 * LOGBLOCKS < |s.disk|
    && |s.bufs| >= LOGBLOCKS && s.dirty == {}
    && Reserved(s.active, k) && Listed(s.lh, s.start, k) && SlotsFilled(s, k)
  }

  ghost predicate Reserved(active: map<Proc, nat>, k: nat) {
    active.Keys == {1, 2, 3} && forall p :: 1 <= p <= 3 ==> active[p] == Added(k, p)
  }

  ghost predicate Listed(lh: seq<nat>, start: nat, k: nat) {
    |lh| == k && forall i: nat :: i < k ==> lh[i] == HomeBlock(start, i)
  }

  ghost predicate SlotsFilled(s: State, k: nat) {
    forall i: nat :: i < |s.bufs| ==> SlotFilled(s, k, i)
  }

  ghost predicate SlotFilled(s: State, k: nat, i: nat)
    requires i < |s.bufs|
  {
    if i < k then s.bufs[i].block == Some(HomeBlock(s.start, i)) && s.bufs[i].valid && i in s.holder
                  && s.holder[i] == 1 + i / 10 && forall p: Proc :: (p, i) in s.refs <==> p == 1 + i / 10
    else s.bufs[i].block == None && s.bufs[i].refcnt == 0 && i !in s.holder && forall p: Proc :: (p, i) !in s.refs
  }

  lemma BeginFires(s: State, p: Proc)
    requires !s.panicked && CanBegin(s, p)
    ensures Enabled(s, Begin(p)) && Next(s, Begin(p)) == DoBegin(s, p)
  {
  }

  /** The four events that bring one block into the log, one after the other. */
  lemma FourFire(s: State, p: Proc, b: nat, i: nat)
    requires !s.panicked && CanGet(s, p, b, i)
    requires var s1 := DoGet(s, p, b, i); CanLock(s1, p, i) && var s2 := DoLock(s1, p, i); CanLoad(s2, p, i)
    requires CanLogWrite(DoLoad(DoLock(DoGet(s, p, b, i), p, i), p, i), p, i)
    ensures Enabled(s, Get(p, b, i)) && Next(s, Get(p, b, i)) == DoGet(s, p, b, i)
    ensures var s1 := DoGet(s, p, b, i); Enabled(s1, Lock(p, i)) && Next(s1, Lock(p, i)) == DoLock(s1, p, i)
    ensures var s2 := DoLock(DoGet(s, p, b, i), p, i);
            Enabled(s2, Load(p, i)) && Next(s2, Load(p, i)) == DoLoad(s2, p, i)
    ensures var s3 := DoLoad(DoLock(DoGet(s, p, b, i), p, i), p, i);
            Enabled(s3, LogWrite(p, i)) && Next(s3, LogWrite(p, i)) == DoLogWrite(s3, p, i)
  {
  }

  /** Slot k has been filled and locked, and its block is about to be logged. */
  ghost function Loaded(s: State, p: Proc, b: nat, k: nat): State
    requires k < |s.bufs| && b < |s.disk|
  {
    s.(bufs := s.bufs[k := Buf(Some(b), true, 1, s.disk[b])], refs := s.refs + {(p, k)}, holder := s.holder[k := p])
  }

  lemma FillLoads(s: State, k: nat)
    requires Filling(s, k) && k < LOGBLOCKS
    ensures var p, b := 1 + k / 10, HomeBlock(s.start, k);
            && CanGet(s, p, b, k) && CanLock(DoGet(s, p, b, k), p, k) && CanLoad(DoLock(DoGet(s, p, b, k), p, k), p, k)
            && DoLoad(DoLock(DoGet(s, p, b, k), p, k), p, k) == Loaded(s, p, b, k)
  {
    var b := HomeBlock(s.start, k);
    assert SlotFilled(s, k, k);
    forall j: nat | j < |s.bufs| ensures s.bufs[j].block != Some(b) {
      assert SlotFilled(s, k, j);
    }
  }

  lemma OneMore(active: map<Proc, nat>, lh: seq<nat>, start: nat, k: nat)
    requires Reserved(active, k) && Listed(lh, start, k) && k < LOGBLOCKS
    ensures var p, b := 1 + k / 10, HomeBlock(start, k);
            && |lh| == k && b !in lh && Listed(lh + [b], start, k + 1)
            && p in active && active[p] < MAXOPBLOCKS && Reserved(active[p := active[p] + 1], k + 1)
  {
  }

  lemma SlotMore(s: State, t: State, k: nat)
    requires |s.bufs| == |t.bufs| && k < |s.bufs| && SlotsFilled(s, k) && s.start == t.start
    requires t.bufs == s.bufs[k := t.bufs[k]] && t.bufs[k].block == Some(HomeBlock(s.start, k)) && t.bufs[k].valid
    requires t.refs == s.refs + {(1 + k / 10, k)} && t.holder == s.holder[k := 1 + k / 10]
    ensures SlotsFilled(t, k + 1)
  {
    var n := k + 1;
    forall i: nat | i < |t.bufs| ensures SlotFilled(t, n, i) {
      assert SlotFilled(s, k, i);
    }
  }

  lemma FillLogs(s: State, k: nat)
    requires Filling(s, k) && k < LOGBLOCKS
    ensures var p, b := 1 + k / 10, HomeBlock(s.start, k);
            CanLogWrite(Loaded(s, p, b, k), p, k) && Filling(DoLogWrite(Loaded(s, p, b, k), p, k), k + 1)
  {
    hide Reserved, Listed, SlotsFilled;
    var p, b := 1 + k / 10, HomeBlock(s.start, k);
    OneMore(s.active, s.lh, s.start, k);
    SlotMore(s, DoLogWrite(Loaded(s, p, b, k), p, k), k);
  }

  lemma ThreeBegin(s: State)
    requires Fresh(s) && 2 * LOGBLOCKS < |s.disk| && LOGBLOCKS <= |s.bufs|
    ensures
            && !s.panicked && CanBegin(s, 1)
            && var s1 := DoBegin(s, 1);
            && !s1.panicked && CanBegin(s1, 2)
            && var s2 := DoBegin(s1, 2);
            && !s2.panicked && CanBegin(s2, 3) && Filling(DoBegin(s2, 3), 0)
  {
  }

  lemma FillStart(s: State) returns (states: seq<State>, events: seq<Event>)
    requires Fresh(s) && 2 * LOGBLOCKS < |s.disk| && LOGBLOCKS <= |s.bufs|
    ensures Run(states, events) && states[0] == s && Filling(states[|events|], 0)
  {
    hide Enabled, Next, CanBegin, DoBegin, Fresh, Filling;
    states, events := Just(s);
    ThreeBegin(s);
    BeginFires(s, 1);
    BeginFires(DoBegin(s, 1), 2);
    BeginFires(DoBegin(DoBegin(s, 1), 2), 3);
    states, events := Then(states, events, Begin(1));
    states, events := Then(states, events, Begin(2));
    states, events := Then(states, events, Begin(3));
  }

  lemma {:induction false} FillRun(s0: State, k: nat) returns (states: seq<State>, events: seq<Event>)
    requires Fresh(s0) && 2 * LOGBLOCKS < |s0.disk| && LOGBLOCKS <= |s0.bufs| && k <= LOGBLOCKS
    ensures Run(states, events) && states[0] == s0 && Filling(states[|events|], k)
  {
    hide Enabled, Next, Run, Fresh, CanGet, DoGet, CanLock, DoLock, CanLoad, DoLoad, CanLogWrite, DoLogWrite, Loaded;
    if k == 0 {
      states, events := FillStart(s0);
    } else {
      states, events := FillRun(s0, k - 1);
      assert |states| == |events| + 1 by { RunLength(states, events); }
      var s, p, b := states[|events|], 1 + (k - 1) / 10, HomeBlock(states[|events|].start, k - 1);
      FillLoads(s, k - 1);
      FillLogs(s, k - 1);
      FourFire(s, p, b, k - 1);
      states, events := Then(states, events, Get(p, b, k - 1));
      states, events := Then(states, events, Lock(p, k - 1));
      states, events := Then(states, events, Load(p, k - 1));
      states, events := Then(states, events, LogWrite(p, k - 1));
    }
  }

  /**
   * From every fresh machine with LOGBLOCKS home blocks and as many buffers, a run leads to an operation that panics
   * when it logs one of its blocks again.
   */
  lemma PanicReached(s0: State) returns (states: seq<State>, events: seq<Event>)
    requires Fresh(s0) && 2 * LOGBLOCKS < |s0.disk| && LOGBLOCKS <= |s0.bufs|
    ensures Run(states, events) && states[0] == s0
    ensures states[|events|].panicked && |events| > 0 && events[|events| - 1].LogWrite?
    ensures var s, e := states[|events| - 1], events[|events| - 1];
            e.p in s.active && s.active[e.p] == MAXOPBLOCKS && s.bufs[e.i].block.value in s.lh
  {
    states, events := FillRun(s0, LOGBLOCKS);
    var s := states[|events|];
    assert SlotFilled(s, LOGBLOCKS, 0) && s.lh[0] == HomeBlock(s.start, 0);
    states, events := Then(states, events, LogWrite(1, 0));
  }

  /** The logged blocks are so many home blocks, and while operations are open they are pinned in as many slots. */
  lemma LogBounds(s: State)
    requires Inv(s)
    ensures |s.lh| + LOGBLOCKS + 1 <= |s.disk| && (s.phase.Idle? ==> |s.lh| <= |s.bufs|)
  {
    hide OnDisk, Quota, Unique, Refcounts, Users, Data;
    var places := seq(|s.lh|, i requires 0 <= i < |s.lh| => HomeIndex(s.start, s.lh[i]));
    forall i, j | 0 <= i < j < |places| ensures places[i] != places[j] {
      assert IsHome(|s.disk|, s.start, s.lh[i]) && IsHome(|s.disk|, s.start, s.lh[j]);
    }
    Pigeonhole(places, |s.disk| - LOGBLOCKS - 1);
    if s.phase.Idle? { PinnedSlots(s.lh, s.bufs, s.pin); }
  }

  lemma PinnedSlots(lh: seq<nat>, bufs: seq<Buf>, pin: map<nat, nat>)
    requires Distinct(lh) && Pinned(bufs, pin, lh)
    ensures |lh| <= |bufs|
  {
    var slots := seq(|lh|, i requires 0 <= i < |lh| => if lh[i] in pin then pin[lh[i]] else 0);
    forall i, j | 0 <= i < j < |slots| ensures slots[i] != slots[j] {
      assert lh[i] in lh && lh[j] in lh;
    }
    Pigeonhole(slots, |bufs|);
  }

  lemma SameSizes(s: State, e: Event)
    requires Inv(s) && Enabled(s, e)
    ensures |Next(s, e).disk| == |s.disk| && |Next(s, e).bufs| == |s.bufs|
  {
    hide Inv, CrashedRecoveries, Recover;
    if e.Crash? { CrashSize(s, e.crashes); }
  }

  lemma CrashSize(s: State, crashes: seq<nat>)
    requires Inv(s) && Sound(s.disk, s.start)
    ensures |Recover(CrashedRecoveries(s.disk, s.start, crashes), s.start)| == |s.disk|
  {
    CrashSafe(s, crashes);
  }

  lemma {:induction false} RunSizes(states: seq<State>, events: seq<Event>, k: nat)
    requires Run(states, events) && Fresh(states[0]) && k <= |events|
    ensures |states[k].disk| == |states[0].disk| && |states[k].bufs| == |states[0].bufs|
  {
    hide Inv, Enabled, Next, Fresh;
    if k > 0 {
      RunSizes(states, events, k - 1);
      RunKeeps(states, events, k - 1);
      assert StepsTo(states[k - 1], events[k - 1], states[k]);
      SameSizes(states[k - 1], events[k - 1]);
    }
  }

  /** With fewer home blocks or fewer buffers no run panics. */
  lemma {:induction false} NeverPanics(states: seq<State>, events: seq<Event>, k: nat)
    requires Run(states, events) && Fresh(states[0]) && k <= |events|
    requires |states[0].disk| <= 2 * LOGBLOCKS || |states[0].bufs| < LOGBLOCKS
    ensures !states[k].panicked
  {
    hide Inv, Enabled, Next;
    if k > 0 {
      NeverPanics(states, events, k - 1);
      RunKeeps(states, events, k - 1);
      RunSizes(states, events, k - 1);
      assert StepsTo(states[k - 1], events[k - 1], states[k]);
      LogBounds(states[k - 1]);
      PanicIsLogWrite(states[k - 1], events[k - 1]);
    }
  }

  lemma PanicIsLogWrite(s: State, e: Event)
    requires Inv(s) && Enabled(s, e) && !s.panicked
    ensures Next(s, e).panicked ==> s.phase.Idle? && |s.lh| == LOGBLOCKS
  {
    hide OnDisk, Unique, Refcounts, Users, Data, Pinned;
    if e.LogWrite? { LogWritePanics(s, e.p, e.i); }
  }
}
