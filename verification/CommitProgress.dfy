/**
 * Progress of the log protocol: a commit that has started can be finished whenever fewer blocks are logged than there
 * are buffers, and not otherwise; what an operation has written then is on the disk.
 */
module CommitProgress {
  import opened Common
  import opened Log
  import opened LogProtocol
  import opened WholeOperations

  ghost predicate Leads(states: seq<State>, events: seq<Event>, s: State, t: State) {
    Run(states, events) && states[0] == s && states[|events|] == t
  }

  /** Some run leads from s to t. */
  ghost predicate Reaches(s: State, t: State) {
    exists states: seq<State>, events: seq<Event> :: Leads(states, events, s, t)
  }

  lemma ReachesSelf(s: State)
    ensures Reaches(s, s)
  {
    assert Leads([s], [], s, s);
  }

  lemma ReachesStep(s: State, t: State, e: Event)
    requires Reaches(s, t) && Enabled(t, e)
    ensures Reaches(s, Next(t, e))
  {
    hide Enabled, Next;
    var states, events :| Leads(states, events, s, t);
    var states', events' := Then(states, events, e);
    assert Leads(states', events', s, Next(t, e));
  }

  lemma ReachesTwice(s: State, t: State, u: State)
    requires Reaches(s, t) && Reaches(t, u)
    ensures Reaches(s, u)
  {
    hide Enabled, Next;
    var states, events :| Leads(states, events, t, u);
    Follow(s, states, events, |events|);
  }

  lemma {:induction false} Follow(s: State, states: seq<State>, events: seq<Event>, k: nat)
    requires Run(states, events) && k <= |events| && Reaches(s, states[0])
    ensures Reaches(s, states[k])
  {
    hide Enabled, Next, Reaches;
    if k > 0 {
      Follow(s, states, events, k - 1);
      assert StepsTo(states[k - 1], events[k - 1], states[k]);
      ReachesStep(s, states[k - 1], events[k - 1]);
    }
  }

  /** The log and the disk are the same; buffers may have come and gone. */
  ghost predicate LogKept(s: State, t: State) {
    && t.start == s.start && t.disk == s.disk && t.lh == s.lh && t.active == s.active && t.phase == s.phase
    && t.pin == s.pin && t.latest == s.latest && t.committed == s.committed && t.panicked == s.panicked
    && |t.bufs| == |s.bufs| && t.dirty == s.dirty
  }

  /** Process p has block b locked and loaded in slot i, and nothing else has changed. */
  ghost predicate Fetched(s: State, t: State, p: Proc, b: nat, i: nat) {
    && LogKept(s, t) && LockedBy(t, p, i) && Holds(t, i, b) && t.bufs[i].valid
    && t.refs == s.refs + {(p, i)} && t.holder == s.holder[i := p]
    && forall j :: 0 <= j < |s.bufs| && j != i ==> t.bufs[j] == s.bufs[j]
  }

  lemma GetLock(s: State, p: Proc, b: nat, i: nat)
    requires !s.panicked && CanGet(s, p, b, i) && i !in s.holder
    ensures Enabled(s, Get(p, b, i)) && Next(s, Get(p, b, i)) == DoGet(s, p, b, i)
    ensures var t := DoGet(s, p, b, i); Enabled(t, Lock(p, i)) && Next(t, Lock(p, i)) == DoLock(t, p, i)
    ensures var t := DoLock(DoGet(s, p, b, i), p, i);
            t.bufs[i].valid || (Enabled(t, Load(p, i)) && Next(t, Load(p, i)) == DoLoad(t, p, i))
  {
  }

  /** bread. */
  lemma Fetch(s: State, p: Proc, b: nat, i: nat) returns (t: State)
    requires Inv(s) && !s.panicked && CanGet(s, p, b, i) && i !in s.holder
    ensures Reaches(s, t) && Inv(t) && Fetched(s, t, p, b, i)
  {
    hide Inv, Enabled, Next, Reaches;
    GetLock(s, p, b, i);
    ReachesSelf(s);
    var s1 := DoGet(s, p, b, i);
    ReachesStep(s, s, Get(p, b, i));
    StepKeeps(s, Get(p, b, i));
    t := DoLock(s1, p, i);
    ReachesStep(s, s1, Lock(p, i));
    StepKeeps(s1, Lock(p, i));
    if !t.bufs[i].valid {
      ReachesStep(s, t, Load(p, i));
      StepKeeps(t, Load(p, i));
      t := DoLoad(t, p, i);
    }
  }

  /** Process p has given up slot i, and nothing else has changed but its count. */
  ghost predicate Released(s: State, t: State, p: Proc, i: nat) {
    && LogKept(s, t) && t.refs == s.refs - {(p, i)} && t.holder == s.holder - {i}
    && forall j :: 0 <= j < |s.bufs| ==> t.bufs[j] == s.bufs[j].(refcnt := t.bufs[j].refcnt)
  }

  lemma UnlockDrop(s: State, p: Proc, i: nat)
    requires !s.panicked && CanUnlock(s, p, i) && (p, i) in s.refs && s.bufs[i].refcnt > 0
    ensures Enabled(s, Unlock(p, i)) && Next(s, Unlock(p, i)) == DoUnlock(s, p, i)
    ensures var t := DoUnlock(s, p, i); Enabled(t, Drop(p, i)) && Next(t, Drop(p, i)) == DoDrop(t, p, i)
  {
  }

  lemma HolderHasRef(s: State, p: Proc, i: nat)
    requires Inv(s) && LockedBy(s, p, i)
    ensures (p, i) in s.refs && s.bufs[i].refcnt > 0
  {
    hide Shape, OnDisk, Reservation.Quota, Unique, Refcounts, Pinned, Data;
    CountsPositive(s, i);
  }

  /** brelse. */
  lemma Release(s: State, p: Proc, i: nat) returns (t: State)
    requires Inv(s) && !s.panicked && CanUnlock(s, p, i)
    ensures Reaches(s, t) && Inv(t) && Released(s, t, p, i)
  {
    hide Inv, Enabled, Next, Reaches;
    HolderHasRef(s, p, i);
    UnlockDrop(s, p, i);
    ReachesSelf(s);
    var s1 := DoUnlock(s, p, i);
    ReachesStep(s, s, Unlock(p, i));
    StepKeeps(s, Unlock(p, i));
    ReachesStep(s, s1, Drop(p, i));
    StepKeeps(s1, Drop(p, i));
    t := DoDrop(s1, p, i);
  }

  /** No buffer is in anybody's hands. */
  ghost predicate Quiet(s: State) {
    !s.panicked && s.refs == {} && s.holder == map[] && s.dirty == {}
  }

  /** While nobody uses a buffer, one that is not pinned can be recycled. */
  lemma UnusedSlot(s: State) returns (i: nat)
    requires Inv(s) && Quiet(s) && |s.lh| < |s.bufs|
    ensures i < |s.bufs| && s.bufs[i].refcnt == 0
  {
    hide OnDisk, Reservation.Quota, Users, Pinned, Data, Refcounts;
    var pending := Pending(s.lh, s.phase);
    if forall j: nat :: j < |s.bufs| ==> PendingSlot(s.bufs[j], pending) {
      AllPending(s.bufs, pending);
      assert false;
    }
    i :| i < |s.bufs| && !PendingSlot(s.bufs[i], pending);
    Uncounted(s, i);
  }

  lemma Uncounted(s: State, i: nat)
    requires Inv(s) && s.refs == {} && i < |s.bufs| && !PendingSlot(s.bufs[i], Pending(s.lh, s.phase))
    ensures s.bufs[i].refcnt == 0
  {
    hide Shape, OnDisk, Reservation.Quota, Users, Pinned, Data, Unique;
    assert RefsTo({}, i) == {};
  }

  ghost function PlaceIn(pending: seq<nat>, b: nat): (k: nat)
    requires b in pending
    ensures k < |pending| && pending[k] == b
  {
    var k :| 0 <= k < |pending| && pending[k] == b; k
  }

  lemma AllPending(bufs: seq<Buf>, pending: seq<nat>)
    requires Unique(bufs) && forall j: nat :: j < |bufs| ==> PendingSlot(bufs[j], pending)
    ensures |bufs| <= |pending|
  {
    var places := seq(|bufs|, j requires 0 <= j < |bufs| =>
                        if PendingSlot(bufs[j], pending) then PlaceIn(pending, bufs[j].block.value) else 0);
    forall i, j | 0 <= i < j < |places| ensures places[i] != places[j] {
      assert PendingSlot(bufs[i], pending) && PendingSlot(bufs[j], pending);
    }
    Pigeonhole(places, |pending|);
  }

  /** So bread of any block finds a buffer. */
  lemma SlotFor(s: State, p: Proc, b: nat) returns (i: nat)
    requires Inv(s) && Quiet(s) && |s.lh| < |s.bufs| && b < |s.disk|
    ensures CanGet(s, p, b, i)
  {
    hide Inv;
    if exists j: nat :: Holds(s, j, b) {
      i :| Holds(s, i, b);
    } else {
      i := UnusedSlot(s);
      forall j | 0 <= j < |s.bufs| ensures s.bufs[j].block != Some(b) {
        assert !Holds(s, j, b);
      }
    }
  }

  // ---- the stages of a commit ------------------------------------------------------------------------------------

  /** A stage of the commit of s has led to t, where again nobody uses a buffer. */
  ghost predicate Stage(s: State, t: State) {
    && Reaches(s, t) && Inv(t) && Quiet(t) && Logical(t) == Logical(s)
    && t.lh == s.lh && t.active == s.active && |t.bufs| == |s.bufs| && t.start == s.start
  }

  lemma KeptLogical(s: State, t: State)
    requires LogKept(s, t)
    ensures Logical(t) == Logical(s)
  {
  }

  /** Where a block waiting to be installed lies. */
  lemma PinnedAt(s: State, b: nat) returns (j: nat)
    requires Inv(s) && b in Pending(s.lh, s.phase)
    ensures j < |s.bufs| && Holds(s, j, b) && b < |s.disk| && IsHome(|s.disk|, s.start, b)
  {
    hide OnDisk, Reservation.Quota, Unique, Refcounts, Users, Data;
    j := s.pin[b];
    InLog(s.lh, s.phase, b);
  }

  lemma InLog(lh: seq<nat>, phase: Phase, b: nat)
    requires b in Pending(lh, phase)
    ensures b in lh
  {
  }

  /** The committer takes hold of two blocks, one of them pinned. */
  lemma FetchBoth(s: State, b: nat, c: nat) returns (t: State, i: nat, j: nat)
    requires Inv(s) && Quiet(s) && |s.lh| < |s.bufs| && b < |s.disk| && b != c && c in Pending(s.lh, s.phase)
    ensures Reaches(s, t) && Inv(t) && LogKept(s, t) && i != j && Ready(t, i, b) && Ready(t, j, c)
    ensures t.refs == {(COMMITTER, i), (COMMITTER, j)} && t.holder == map[i := COMMITTER, j := COMMITTER]
  {
    hide Inv, Reaches;
    i := SlotFor(s, COMMITTER, b);
    var s1 := Fetch(s, COMMITTER, b, i);
    j := PinnedAt(s1, c);
    t := Fetch(s1, COMMITTER, c, j);
    ReachesTwice(s, s1, t);
  }

  lemma ReleaseOne(s: State, t: State, i: nat) returns (u: State)
    requires Reaches(s, t) && Inv(t) && !t.panicked && t.dirty == {} && LockedBy(t, COMMITTER, i)
    requires t.refs == {(COMMITTER, i)} && t.holder == map[i := COMMITTER]
    ensures Reaches(s, u) && Inv(u) && Quiet(u) && LogKept(t, u)
  {
    hide Inv, Reaches;
    u := Release(t, COMMITTER, i);
    ReachesTwice(s, t, u);
  }

  lemma ReleaseBoth(s: State, t: State, i: nat, j: nat) returns (u: State)
    requires Reaches(s, t) && Inv(t) && !t.panicked && t.dirty == {} && i != j
    requires LockedBy(t, COMMITTER, i) && LockedBy(t, COMMITTER, j)
    requires t.refs == {(COMMITTER, i), (COMMITTER, j)} && t.holder == map[i := COMMITTER, j := COMMITTER]
    ensures Reaches(s, u) && Inv(u) && Quiet(u) && LogKept(t, u)
  {
    hide Inv, Reaches;
    var t1 := Release(t, COMMITTER, j);
    ReachesTwice(s, t, t1);
    assert t1.refs == {(COMMITTER, i)} && t1.holder == map[i := COMMITTER];
    u := ReleaseOne(s, t1, i);
  }

  lemma WriteLogFires(s: State, i: nat, j: nat)
    requires !s.panicked && CanWriteLog(s, i, j)
    ensures Enabled(s, WriteLog(i, j)) && Next(s, WriteLog(i, j)) == DoWriteLog(s, i, j)
  {
  }

  lemma WriteHeadFires(s: State, i: nat)
    requires !s.panicked && CanWriteHead(s, i)
    ensures Enabled(s, WriteHead(i)) && Next(s, WriteHead(i)) == DoWriteHead(s, i)
  {
  }

  lemma InstallFires(s: State, i: nat, j: nat)
    requires !s.panicked && CanInstall(s, i, j)
    ensures Enabled(s, Install(i, j)) && Next(s, Install(i, j)) == DoInstall(s, i, j)
  {
  }

  lemma ClearFires(s: State, i: nat)
    requires !s.panicked && CanClear(s, i)
    ensures Enabled(s, Clear(i)) && Next(s, Clear(i)) == DoClear(s, i)
  {
  }

  lemma FinishFires(s: State)
    requires !s.panicked && CanFinish(s)
    ensures Enabled(s, Finish) && Next(s, Finish) == DoFinish(s)
  {
  }

  lemma LogBlockIs(s: State, k: nat)
    requires Inv(s) && k < |s.lh|
    ensures s.start + 1 + k < |s.disk| && s.start + 1 + k != s.lh[k] && s.start < |s.disk|
  {
    hide OnDisk, Reservation.Quota, Unique, Refcounts, Users, Data, Pinned;
    assert IsHome(|s.disk|, s.start, s.lh[k]);
  }

  /** One turn of write_log. */
  lemma LogOne(s: State) returns (t: State)
    requires Inv(s) && Quiet(s) && |s.lh| < |s.bufs| && s.phase.Logging? && s.phase.k < |s.lh|
    ensures Stage(s, t) && t.phase == Logging(s.phase.k + 1)
  {
    hide Inv, Reaches, Enabled, Next, Logical;
    var k := s.phase.k;
    LogBlockIs(s, k);
    var s1, i, j := FetchBoth(s, s.start + 1 + k, s.lh[k]);
    WriteLogFires(s1, i, j);
    ReachesStep(s, s1, WriteLog(i, j));
    StepKeeps(s1, WriteLog(i, j));
    LogicalStep(s1, WriteLog(i, j));
    var s2 := DoWriteLog(s1, i, j);
    t := ReleaseBoth(s, s2, i, j);
    KeptLogical(s, s1);
    KeptLogical(s2, t);
  }

  /** The commit point. */
  lemma HeadOne(s: State) returns (t: State)
    requires Inv(s) && Quiet(s) && 0 < |s.lh| < |s.bufs| && s.phase == Logging(|s.lh|)
    ensures Stage(s, t) && t.phase == Installing(0)
  {
    hide Inv, Reaches, Enabled, Next, Logical;
    LogBlockIs(s, 0);
    var i := SlotFor(s, COMMITTER, s.start);
    var s1 := Fetch(s, COMMITTER, s.start, i);
    LogFits(s);
    WriteHeadFires(s1, i);
    ReachesStep(s, s1, WriteHead(i));
    StepKeeps(s1, WriteHead(i));
    LogicalStep(s1, WriteHead(i));
    var s2 := DoWriteHead(s1, i);
    t := ReleaseOne(s, s2, i);
    KeptLogical(s, s1);
    KeptLogical(s2, t);
  }

  lemma LogFits(s: State)
    requires Inv(s)
    ensures |s.lh| <= LOGBLOCKS
  {
    hide OnDisk, Reservation.Quota, Unique, Refcounts, Users, Data, Pinned;
  }

  /** One turn of install_trans. */
  lemma InstallOne(s: State) returns (t: State)
    requires Inv(s) && Quiet(s) && |s.lh| < |s.bufs| && s.phase.Installing? && s.phase.k < |s.lh|
    ensures Stage(s, t) && t.phase == Installing(s.phase.k + 1)
  {
    hide Inv, Reaches, Enabled, Next, Logical;
    var k := s.phase.k;
    LogBlockIs(s, k);
    assert s.lh[k] == s.lh[k..][0];
    var s1, i, j := FetchBoth(s, s.start + 1 + k, s.lh[k]);
    PinnedHome(s1, s.lh[k]);
    HolderHasRef(s1, COMMITTER, j);
    InstallFires(s1, i, j);
    ReachesStep(s, s1, Install(i, j));
    StepKeeps(s1, Install(i, j));
    LogicalStep(s1, Install(i, j));
    var s2 := DoInstall(s1, i, j);
    t := ReleaseBoth(s, s2, i, j);
    KeptLogical(s, s1);
    KeptLogical(s2, t);
  }

  lemma PinnedHome(s: State, b: nat)
    requires Inv(s) && b in Pending(s.lh, s.phase)
    ensures b < |s.disk|
  {
    hide Inv;
    var j := PinnedAt(s, b);
  }

  lemma ClearOne(s: State) returns (t: State)
    requires Inv(s) && Quiet(s) && |s.lh| < |s.bufs| && s.phase == Installing(|s.lh|)
    ensures Reaches(s, t) && Inv(t) && Quiet(t) && Logical(t) == Logical(s)
    ensures t.active == s.active && t.start == s.start && t.phase == Cleared && t.lh == []
  {
    hide Inv, Reaches, Enabled, Next, Logical;
    HeaderIs(s);
    var i := SlotFor(s, COMMITTER, s.start);
    var s1 := Fetch(s, COMMITTER, s.start, i);
    ClearFires(s1, i);
    ReachesStep(s, s1, Clear(i));
    StepKeeps(s1, Clear(i));
    LogicalStep(s1, Clear(i));
    var s2 := DoClear(s1, i);
    t := ReleaseOne(s, s2, i);
    KeptLogical(s, s1);
    KeptLogical(s2, t);
  }

  lemma HeaderIs(s: State)
    requires Inv(s)
    ensures s.start < |s.disk|
  {
  }

  lemma FinishOne(s: State) returns (t: State)
    requires Inv(s) && Quiet(s) && CanFinish(s)
    ensures Reaches(s, t) && Inv(t) && Quiet(t) && Logical(t) == Logical(s) && t.phase == Idle && t.active == s.active
    ensures t.start == s.start
  {
    hide Inv, Reaches, Enabled, Next, Logical;
    FinishFires(s);
    ReachesSelf(s);
    ReachesStep(s, s, Finish);
    StepKeeps(s, Finish);
    LogicalStep(s, Finish);
    t := DoFinish(s);
  }

  /** What is left to do of a commit. */
  function Left(s: State): int {
    match s.phase
    case Logging(k) => 2 * |s.lh| + 2 - k
    case Installing(k) => |s.lh| + 1 - k
    case _ => 0
  }

  lemma PhaseBound(s: State)
    requires Inv(s)
    ensures s.phase.Logging? || s.phase.Installing? ==> s.phase.k <= |s.lh|
    ensures s.phase.Cleared? ==> s.lh == []
    ensures !s.phase.Idle? ==> s.active == map[]
  {
  }

  /**
   * A commit that has started can be finished, if fewer blocks are logged than there are buffers: then the log is idle
   * and empty, and the home blocks on the disk are what the cache has shown since the commit began.
   */
  lemma {:induction false} CommitFinishes(s: State) returns (t: State)
    requires Inv(s) && Quiet(s) && !s.phase.Idle? && |s.lh| < |s.bufs|
    ensures Reaches(s, t) && Inv(t) && Quiet(t) && t.phase == Idle && t.active == map[] && t.lh == []
    ensures Logical(t) == Logical(s) && SameHome(t.disk, Logical(s), s.start) && t.start == s.start
    decreases Left(s) + 2
  {
    hide Inv, Reaches, Logical, SameHome;
    PhaseBound(s);
    if CanFinish(s) {
      t := FinishOne(s);
      IdleIsHome(t);
    } else if s.phase == Installing(|s.lh|) {
      var s1 := ClearOne(s);
      t := FinishOne(s1);
      ReachesTwice(s, s1, t);
      IdleIsHome(t);
    } else {
      var s1;
      if s.phase.Installing? {
        s1 := InstallOne(s);
      } else if s.phase.k < |s.lh| {
        s1 := LogOne(s);
      } else {
        s1 := HeadOne(s);
      }
      t := CommitFinishes(s1);
      ReachesTwice(s, s1, t);
    }
  }

  lemma IdleIsHome(s: State)
    requires Inv(s) && s.phase.Idle? && s.active == map[]
    ensures s.lh == [] && SameHome(s.disk, Logical(s), s.start)
  {
    hide Reservation.Quota, Unique, Refcounts, Users, Data, Pinned;
    assert s.latest == map[];
    assert Overlay(s.committed, s.latest) == s.committed;
  }

  /** bget: no buffers. */
  ghost predicate NoBuffer(s: State, b: nat) {
    forall i :: 0 <= i < |s.bufs| ==> !CanGet(s, COMMITTER, b, i)
  }

  /** With as many blocks logged as there are buffers bget finds none for the next log block: it panics. */
  lemma CommitStuck(s: State)
    requires Inv(s) && s.refs == {} && |s.bufs| <= |s.lh| && s.phase.Logging? && s.phase.k < |s.lh|
    ensures NoBuffer(s, s.start + 1 + s.phase.k)
  {
    hide Inv;
    LogFits(s);
    var b := s.start + 1 + s.phase.k;
    forall i | 0 <= i < |s.bufs| ensures !CanGet(s, COMMITTER, b, i) {
      AllPinned(s, i);
    }
  }

  /** Then every slot holds a logged block. */
  lemma AllPinned(s: State, i: nat)
    requires Inv(s) && |s.bufs| <= |s.lh| && Pending(s.lh, s.phase) == s.lh && i < |s.bufs|
    ensures s.bufs[i].block.Some? && s.bufs[i].block.value in s.lh && s.bufs[i].refcnt > 0
    ensures IsHome(|s.disk|, s.start, s.bufs[i].block.value)
  {
    hide OnDisk, Reservation.Quota, Users, Data, Refcounts;
    if !PendingSlot(s.bufs[i], s.lh) {
      PinnedElsewhere(s.lh, s.bufs, s.pin, i);
      assert false;
    }
    CountsPositive(s, i);
  }

  lemma PinnedElsewhere(lh: seq<nat>, bufs: seq<Buf>, pin: map<nat, nat>, i: nat)
    requires Distinct(lh) && Pinned(bufs, pin, lh) && i < |bufs| && !PendingSlot(bufs[i], lh)
    ensures |lh| < |bufs|
  {
    var slots := seq(|lh|, k requires 0 <= k < |lh| => if lh[k] in pin then pin[lh[k]] else 0) + [i];
    assert forall k :: 0 <= k < |lh| ==> slots[k] == (if lh[k] in pin then pin[lh[k]] else 0);
    forall k, l | 0 <= k < l < |slots| ensures slots[k] != slots[l] {
      assert lh[k] in lh;
      if l < |lh| { assert lh[l] in lh; }
    }
    forall k | 0 <= k < |slots| ensures slots[k] < |bufs| {
      if k < |lh| { assert lh[k] in lh; }
    }
    Pigeonhole(slots, |bufs|);
  }

  /** A transaction that has logged nothing writes nothing. */
  lemma EmptyCommitWritesNothing(s: State, e: Event)
    requires Inv(s) && Enabled(s, e) && !e.Crash? && s.lh == [] && s.phase.Logging?
    ensures Next(s, e).disk == s.disk && (Next(s, e).phase == s.phase || Next(s, e).phase == Idle)
  {
    hide OnDisk, Reservation.Quota, Unique, Refcounts, Users, Data, Pinned;
  }

  // ---- an operation and its commit -------------------------------------------------------------------------------

  lemma BeginEndFire(s: State, p: Proc)
    requires !s.panicked
    ensures CanBegin(s, p) ==> Enabled(s, Begin(p)) && Next(s, Begin(p)) == DoBegin(s, p)
    ensures CanEnd(s, p) ==> Enabled(s, End(p)) && Next(s, End(p)) == DoEnd(s, p)
  {
  }

  lemma ModifyLogFire(s: State, p: Proc, i: nat, data: Block)
    requires !s.panicked && CanModify(s, p, i) && s.active[p] < MAXOPBLOCKS
    ensures Enabled(s, Modify(p, i, data)) && Next(s, Modify(p, i, data)) == DoModify(s, p, i, data)
    ensures var t := DoModify(s, p, i, data);
            Enabled(t, LogWrite(p, i)) && Next(t, LogWrite(p, i)) == DoLogWrite(t, p, i)
  {
  }

  /** An operation alone in the log writes one block and ends: the commit of that block is due. */
  lemma OperationEnds(s: State, p: Proc, b: nat, data: Block) returns (t: State)
    requires Inv(s) && Quiet(s) && s.phase.Idle? && s.active == map[] && |s.bufs| > 0
    requires IsHome(|s.disk|, s.start, b) && p != COMMITTER
    ensures Reaches(s, t) && Inv(t) && Quiet(t) && t.phase == Logging(0) && t.lh == [b] && |t.bufs| == |s.bufs|
    ensures b < |Logical(s)| && Logical(t) == Logical(s)[b := data] && t.start == s.start
  {
    hide Inv, Reaches, Enabled, Next, Logical;
    IdleIsHome(s);
    BeginEndFire(s, p);
    ReachesSelf(s);
    ReachesStep(s, s, Begin(p));
    StepKeeps(s, Begin(p));
    LogicalStep(s, Begin(p));
    var s1 := DoBegin(s, p);
    var i := SlotFor(s1, p, b);
    var s2 := Fetch(s1, p, b, i);
    ReachesTwice(s, s1, s2);
    KeptLogical(s1, s2);
    ModifyLogFire(s2, p, i, data);
    ReachesStep(s, s2, Modify(p, i, data));
    StepKeeps(s2, Modify(p, i, data));
    LogicalStep(s2, Modify(p, i, data));
    var s3 := DoModify(s2, p, i, data);
    ReachesStep(s, s3, LogWrite(p, i));
    StepKeeps(s3, LogWrite(p, i));
    LogicalStep(s3, LogWrite(p, i));
    var s4 := DoLogWrite(s3, p, i);
    t := ReleaseAndEnd(s, s4, p, i);
  }

  lemma ReleaseAndEnd(s: State, s4: State, p: Proc, i: nat) returns (t: State)
    requires Reaches(s, s4) && Inv(s4) && !s4.panicked && s4.dirty == {} && LockedBy(s4, p, i)
    requires s4.refs == {(p, i)} && s4.holder == map[i := p] && s4.active.Keys == {p}
    ensures Reaches(s, t) && Inv(t) && Quiet(t) && t.phase == Logging(0) && t.lh == s4.lh && |t.bufs| == |s4.bufs|
    ensures Logical(t) == Logical(s4) && t.start == s4.start
  {
    hide Inv, Reaches, Enabled, Next, Logical;
    var s5 := Release(s4, p, i);
    ReachesTwice(s, s4, s5);
    KeptLogical(s4, s5);
    BeginEndFire(s5, p);
    ReachesStep(s, s5, End(p));
    StepKeeps(s5, End(p));
    LogicalStep(s5, End(p));
    t := DoEnd(s5, p);
    assert t.active == map[];
  }

  /** What an operation writes can be brought to its place on the disk, and nothing else changes there. */
  lemma WriteReachesDisk(s: State, p: Proc, b: nat, data: Block) returns (t: State)
    requires Inv(s) && Quiet(s) && s.phase.Idle? && s.active == map[] && |s.bufs| > 1
    requires IsHome(|s.disk|, s.start, b) && p != COMMITTER
    ensures Reaches(s, t) && t.phase == Idle && t.active == map[] && t.lh == []
    ensures SameHome(t.disk, s.disk[b := data], s.start)
  {
    hide Inv, Reaches, Logical;
    IdleIsHome(s);
    var s1 := OperationEnds(s, p, b, data);
    t := CommitFinishes(s1);
    ReachesTwice(s, s1, t);
  }

  // ---- a run into a commit that cannot go on ---------------------------------------------------------------------

  /** Three operations have logged LOGBLOCKS blocks, and hold the buffers of the first k of them. */
  ghost predicate Emptying(s: State, k: nat) {
    && Inv(s) && !s.panicked && s.phase.Idle? && s.active.Keys == {1, 2, 3} && |s.lh| == LOGBLOCKS && s.dirty == {}
    && k <= |s.bufs| && forall i: nat :: i < |s.bufs| ==> SlotHeld(s, k, i)
  }

  ghost predicate SlotHeld(s: State, k: nat, i: nat)
    requires i < |s.bufs|
  {
    if i < k then LockedBy(s, 1 + i / 10, i) && forall p: Proc :: (p, i) in s.refs <==> p == 1 + i / 10
    else i !in s.holder && forall p: Proc :: (p, i) !in s.refs
  }

  lemma FilledIsHeld(s: State)
    requires Inv(s) && Filling(s, LOGBLOCKS) && |s.bufs| == LOGBLOCKS
    ensures Emptying(s, LOGBLOCKS)
  {
    hide Inv;
    forall i: nat | i < |s.bufs| ensures SlotHeld(s, LOGBLOCKS, i) {
      assert SlotFilled(s, LOGBLOCKS, i);
    }
  }

  lemma {:induction false} EmptyAll(s: State, k: nat) returns (t: State)
    requires Emptying(s, k)
    ensures Reaches(s, t) && Emptying(t, 0) && |t.bufs| == |s.bufs|
    decreases k
  {
    hide Inv, Reaches, Emptying;
    if k == 0 {
      t := s;
      ReachesSelf(s);
    } else {
      var s1 := EmptyOne(s, k - 1);
      t := EmptyAll(s1, k - 1);
      ReachesTwice(s, s1, t);
    }
  }

  lemma EmptyOne(s: State, k: nat) returns (t: State)
    requires Emptying(s, k + 1)
    ensures Reaches(s, t) && Emptying(t, k) && |t.bufs| == |s.bufs|
  {
    hide Inv, Reaches;
    assert SlotHeld(s, k + 1, k);
    t := Release(s, 1 + k / 10, k);
    var n := k + 1;
    forall i: nat | i < |t.bufs| ensures SlotHeld(t, k, i) {
      assert SlotHeld(s, n, i);
    }
  }

  lemma EmptiedIsQuiet(s: State)
    requires Emptying(s, 0)
    ensures Quiet(s)
  {
    hide Inv;
    SlotsInRange(s);
    forall i: nat | i < |s.bufs| ensures i !in s.holder {
      assert SlotHeld(s, 0, i);
    }
    forall p: Proc, i: nat | i < |s.bufs| ensures (p, i) !in s.refs {
      assert SlotHeld(s, 0, i);
    }
    assert forall r :: r in s.refs ==> r == (r.0, r.1);
  }

  lemma SlotsInRange(s: State)
    requires Inv(s)
    ensures (forall i :: i in s.holder ==> i < |s.bufs|) && (forall r :: r in s.refs ==> r.1 < |s.bufs|)
  {
    hide Shape, OnDisk, Reservation.Quota, Unique, Refcounts, Pinned, Data;
  }

  lemma EndThree(s: State) returns (t: State)
    requires Inv(s) && Quiet(s) && s.active.Keys == {1, 2, 3}
    ensures Reaches(s, t) && Inv(t) && Quiet(t) && t.phase == Logging(0) && t.lh == s.lh && |t.bufs| == |s.bufs|
  {
    hide Inv, Reaches, Enabled, Next;
    BeginEndFire(s, 1);
    var s1 := DoEnd(s, 1);
    BeginEndFire(s1, 2);
    var s2 := DoEnd(s1, 2);
    BeginEndFire(s2, 3);
    assert s1.active.Keys == {2, 3} && s2.active.Keys == {3};
    ReachesSelf(s);
    ReachesStep(s, s, End(1));
    StepKeeps(s, End(1));
    ReachesStep(s, s1, End(2));
    StepKeeps(s1, End(2));
    ReachesStep(s, s2, End(3));
    StepKeeps(s2, End(3));
    t := DoEnd(s2, 3);
    assert t.active == map[];
  }

  /**
   * With LOGBLOCKS buffers, as the kernel has, such a commit is reachable: three operations, each within its
   * reservation, log LOGBLOCKS blocks and end, and write_log finds no buffer for the first log block.
   */
  lemma StuckReached(s0: State) returns (t: State)
    requires Fresh(s0) && 2 * LOGBLOCKS < |s0.disk| && |s0.bufs| == LOGBLOCKS
    ensures Reaches(s0, t) && Quiet(t) && t.phase == Logging(0) && |t.lh| == |t.bufs| == LOGBLOCKS
    ensures NoBuffer(t, t.start + 1)
  {
    hide Inv, Reaches, Fresh, Emptying, NoBuffer;
    var s := FullLog(s0);
    FilledIsHeld(s);
    var s1 := EmptyAll(s, LOGBLOCKS);
    ReachesTwice(s0, s, s1);
    EmptiedIsQuiet(s1);
    EmptyingIs(s1);
    t := EndThree(s1);
    ReachesTwice(s0, s1, t);
    CommitStuck(t);
  }

  lemma EmptyingIs(s: State)
    requires Emptying(s, 0)
    ensures Inv(s) && s.active.Keys == {1, 2, 3} && |s.lh| == LOGBLOCKS
  {
  }

  lemma FullLog(s0: State) returns (s: State)
    requires Fresh(s0) && 2 * LOGBLOCKS < |s0.disk| && |s0.bufs| == LOGBLOCKS
    ensures Reaches(s0, s) && Inv(s) && Filling(s, LOGBLOCKS) && |s.bufs| == LOGBLOCKS
  {
    hide Inv, Filling, Fresh;
    var states, events := FillRun(s0, LOGBLOCKS);
    s := states[|events|];
    assert Leads(states, events, s0, s);
    RunKeeps(states, events, |events|);
    RunSizes(states, events, |events|);
  }
}
