/**
 * sleep and wakeup of kernel/proc.c: a condition guarded by a spinlock, processes that sleep while it blocks them, and
 * processes that change it and wake the sleepers.
 *
 * A step is what one process does at one program point; steps of different processes interleave freely. All accesses
 * to the run state of a process are made under its p->lock, so each such access is one step, possible only while
 * nobody keeps that lock.
 */
module SleepWakeup {
  import opened Common

  type Pid = nat
  datatype RunState = RUNNING | SLEEPING | RUNNABLE

  /** Where a process is; the comments name the locks it holds. */
  datatype Point =
    | Out               // anywhere else
    | Wanting           // about to acquire the condition lock, to wait
    | Testing           // lk: at the loop test
    | Committing        // lk: in sleep, about to acquire its own p->lock
    | Releasing         // lk and p->lock: about to release lk
    | Marking           // p->lock: about to set chan and SLEEPING
    | Switching         // p->lock: asleep, not yet switched away
    | Asleep            // nothing: until it is RUNNABLE and dispatched
    | Resuming          // p->lock: dispatched, about to clear chan
    | Signalling        // about to acquire lk, to change the condition
    | Changing          // lk
    | Waking(next: nat) // lk: in wakeup, about to look at process `next`

  /** `epoch` counts changes by signallers; `seen` is its value at a process's last test. They only record. */
  datatype State<C> = State(
    lk: Option<Pid>, cond: C, at: seq<Point>, run: seq<RunState>, onChan: seq<bool>, epoch: nat, seen: seq<nat>)

  datatype Event<C> =
    | Elsewhere(p: Pid, r: RunState)    // p runs, sleeps on another channel or wakes up, outside this protocol
    | StartWait(p: Pid) | StartSignal(p: Pid)
    | AcquireToWait(p: Pid)
    | Block(p: Pid)                     // the test fails: call sleep
    | Proceed(p: Pid, c: C)             // the test succeeds: change the condition and release lk
    | TakeOwnLock(p: Pid) | DropLk(p: Pid) | MarkAsleep(p: Pid) | SwitchAway(p: Pid)
    | Dispatch(p: Pid) | Resume(p: Pid)
    | AcquireToSignal(p: Pid)
    | Change(p: Pid, c: C)              // any change of the condition by a signaller
    | WakeOne(p: Pid)                   // wakeup's turn for one process
    | Finish(p: Pid)                    // wakeup is done: release lk
    | Kill(p: Pid)                      // kkill makes a sleeping process runnable

  predicate HoldsOwnLock(pt: Point) {
    pt in {Releasing, Marking, Switching, Resuming}
  }

  predicate HoldsLk(pt: Point) {
    pt in {Testing, Committing, Releasing, Changing} || pt.Waking?
  }

  predicate IsAt<C>(s: State<C>, p: Pid, pt: Point) {
    p < |s.at| && s.at[p] == pt
  }

  predicate Enabled<C(==)>(s: State<C>, blocked: C -> bool, e: Event<C>) {
    |s.at| == |s.run| == |s.onChan| == |s.seen| &&
    match e
    case Elsewhere(p, r) => IsAt(s, p, Out)
    case StartWait(p) => IsAt(s, p, Out) && s.run[p] == RUNNING
    case StartSignal(p) => IsAt(s, p, Out) && s.run[p] == RUNNING
    case AcquireToWait(p) => IsAt(s, p, Wanting) && s.lk == None
    case Block(p) => IsAt(s, p, Testing) && blocked(s.cond)
    case Proceed(p, c) => IsAt(s, p, Testing) && !blocked(s.cond)
    case TakeOwnLock(p) => IsAt(s, p, Committing)
    case DropLk(p) => IsAt(s, p, Releasing)
    case MarkAsleep(p) => IsAt(s, p, Marking)
    case SwitchAway(p) => IsAt(s, p, Switching)
    case Dispatch(p) => IsAt(s, p, Asleep) && s.run[p] == RUNNABLE
    case Resume(p) => IsAt(s, p, Resuming)
    case AcquireToSignal(p) => IsAt(s, p, Signalling) && s.lk == None
    case Change(p, c) => IsAt(s, p, Changing)
    case WakeOne(p) =>
      && p < |s.at| && s.at[p].Waking? && s.at[p].next < |s.at|
      && (s.at[p].next == p || !HoldsOwnLock(s.at[s.at[p].next]))
    case Finish(p) => p < |s.at| && s.at[p].Waking? && s.at[p].next >= |s.at|
    case Kill(p) => p < |s.at| && !HoldsOwnLock(s.at[p]) && s.run[p] == SLEEPING
  }

  function Move<C>(s: State<C>, p: Pid, pt: Point): State<C>
    requires p < |s.at|
  {
    s.(at := s.at[p := pt])
  }

  function Next<C>(s: State<C>, blocked: C -> bool, e: Event<C>): (t: State<C>)
    requires Enabled(s, blocked, e)
  {
    match e
    case Elsewhere(p, r) => s.(run := s.run[p := r])
    case StartWait(p) => Move(s, p, Wanting)
    case StartSignal(p) => Move(s, p, Signalling)
    case AcquireToWait(p) => Move(s, p, Testing).(lk := Some(p))
    case Block(p) => Move(s, p, Committing).(seen := s.seen[p := s.epoch])
    case Proceed(p, c) => Move(s, p, Out).(cond := c, lk := None)
    case TakeOwnLock(p) => Move(s, p, Releasing)
    case DropLk(p) => Move(s, p, Marking).(lk := None)
    case MarkAsleep(p) => Move(s, p, Switching).(run := s.run[p := SLEEPING], onChan := s.onChan[p := true])
    case SwitchAway(p) => Move(s, p, Asleep)
    case Dispatch(p) => Move(s, p, Resuming).(run := s.run[p := RUNNING])
    case Resume(p) => Move(s, p, Wanting).(onChan := s.onChan[p := false])
    case AcquireToSignal(p) => Move(s, p, Changing).(lk := Some(p))
    case Change(p, c) => Move(s, p, Waking(0)).(cond := c, epoch := s.epoch + 1)
    case WakeOne(p) =>
      var i := s.at[p].next;
      var t := Move(s, p, Waking(i + 1));
      if i != p && s.run[i] == SLEEPING && s.onChan[i] then t.(run := s.run[i := RUNNABLE]) else t
    case Finish(p) => Move(s, p, Out).(lk := None)
    case Kill(p) => s.(run := s.run[p := RUNNABLE])
  }

  /** p has failed its test and has not been woken since. */
  predicate Committed<C>(s: State<C>, p: Pid) {
    && p < |s.at| == |s.run|
    && (s.at[p] in {Committing, Releasing, Marking, Switching} || (s.at[p] == Asleep && s.run[p] == SLEEPING))
  }

  /** A signaller has changed the condition and its wakeup has yet to look at p. */
  predicate WakerBefore<C>(s: State<C>, p: Pid) {
    s.lk.Some? && s.lk.value < |s.at| && s.at[s.lk.value].Waking? && s.at[s.lk.value].next <= p
  }

  predicate PointOk(pt: Point, r: RunState, onChan: bool) {
    match pt
    case Out => !onChan
    case Switching => r == SLEEPING && onChan
    case Asleep => r != RUNNING && onChan
    case Resuming => r == RUNNING && onChan
    case _ => r == RUNNING && !onChan
  }

  ghost predicate LocksOk(at: seq<Point>, lk: Option<Pid>) {
    && (forall p :: 0 <= p < |at| ==> (HoldsLk(at[p]) <==> lk == Some(p)))
    && (lk.Some? ==> lk.value < |at|)
  }

  ghost predicate PointsOk(at: seq<Point>, run: seq<RunState>, onChan: seq<bool>) {
    |at| == |run| == |onChan| && forall p :: 0 <= p < |at| ==> PointOk(at[p], run[p], onChan[p])
  }

  /** A committed process has missed no change, and is rightly blocked, unless a waker is still on its way to it. */
  ghost predicate NoneLost<C>(s: State<C>, blocked: C -> bool) {
    |s.seen| == |s.at| &&
    forall p :: 0 <= p < |s.at| && Committed(s, p) ==> WakerBefore(s, p) || (s.seen[p] == s.epoch && blocked(s.cond))
  }

  ghost predicate Inv<C>(s: State<C>, blocked: C -> bool) {
    LocksOk(s.at, s.lk) && PointsOk(s.at, s.run, s.onChan) && NoneLost(s, blocked)
  }

  lemma LocksKept<C>(s: State<C>, blocked: C -> bool, e: Event<C>)
    requires LocksOk(s.at, s.lk) && Enabled(s, blocked, e)
    ensures LocksOk(Next(s, blocked, e).at, Next(s, blocked, e).lk)
  {
  }

  /** The steps of a waiter up to its sleep. */
  predicate IsCommit<C>(e: Event<C>) {
    e.AcquireToWait? || e.Block? || e.Proceed? || e.TakeOwnLock? || e.DropLk? || e.MarkAsleep? || e.SwitchAway?
  }

  lemma CommitKeepsPoint<C>(s: State<C>, blocked: C -> bool, e: Event<C>, p: Pid)
    requires p < |s.at| == |s.run| == |s.onChan| && PointOk(s.at[p], s.run[p], s.onChan[p])
    requires Enabled(s, blocked, e) && IsCommit(e)
    ensures var t := Next(s, blocked, e);
            |t.at| == |t.run| == |t.onChan| == |s.at| && PointOk(t.at[p], t.run[p], t.onChan[p])
  {
  }

  lemma OtherKeepsPoint<C>(s: State<C>, blocked: C -> bool, e: Event<C>, p: Pid)
    requires p < |s.at| == |s.run| == |s.onChan| && PointOk(s.at[p], s.run[p], s.onChan[p])
    requires Enabled(s, blocked, e) && !IsCommit(e)
    ensures var t := Next(s, blocked, e);
            |t.at| == |t.run| == |t.onChan| == |s.at| && PointOk(t.at[p], t.run[p], t.onChan[p])
  {
  }

  lemma SameLengths<C>(s: State<C>, blocked: C -> bool, e: Event<C>)
    requires Enabled(s, blocked, e)
    ensures var t := Next(s, blocked, e); |t.at| == |t.run| == |t.onChan| == |s.at|
  {
  }

  lemma PointsKept<C>(s: State<C>, blocked: C -> bool, e: Event<C>)
    requires PointsOk(s.at, s.run, s.onChan) && Enabled(s, blocked, e)
    ensures var t := Next(s, blocked, e); PointsOk(t.at, t.run, t.onChan)
  {
    hide PointOk, Enabled, Next;
    var t := Next(s, blocked, e);
    SameLengths(s, blocked, e);
    forall p | 0 <= p < |t.at| ensures PointOk(t.at[p], t.run[p], t.onChan[p]) {
      if IsCommit(e) { CommitKeepsPoint(s, blocked, e, p); } else { OtherKeepsPoint(s, blocked, e, p); }
    }
  }

  lemma NoneLostKept<C>(s: State<C>, blocked: C -> bool, e: Event<C>)
    requires Inv(s, blocked) && Enabled(s, blocked, e) && !e.WakeOne?
    ensures NoneLost(Next(s, blocked, e), blocked)
  {
    hide PointsOk;
    var t := Next(s, blocked, e);
    forall p | 0 <= p < |t.at| && Committed(t, p)
      ensures WakerBefore(t, p) || (t.seen[p] == t.epoch && blocked(t.cond))
    {
      assert e == Block(p) || Committed(s, p);
    }
  }

  lemma WakeOneKeeps<C>(s: State<C>, blocked: C -> bool, e: Event<C>)
    requires Inv(s, blocked) && Enabled(s, blocked, e) && e.WakeOne?
    ensures NoneLost(Next(s, blocked, e), blocked)
  {
    var t, i := Next(s, blocked, e), s.at[e.p].next;
    assert HoldsLk(s.at[e.p]) && s.lk == Some(e.p);
    assert HoldsLk(s.at[i]) <==> s.lk == Some(i);
    assert PointOk(s.at[i], s.run[i], s.onChan[i]);
    assert !Committed(t, i);
    forall p | 0 <= p < |t.at| && Committed(t, p)
      ensures WakerBefore(t, p) || (t.seen[p] == t.epoch && blocked(t.cond))
    {
      assert Committed(s, p);
    }
  }

  /** A turn of wakeup's scan makes its entry RUNNABLE if it is another process asleep on this channel, and no other. */
  lemma WakesExactly<C>(s: State<C>, blocked: C -> bool, p: Pid, i: Pid)
    requires Enabled(s, blocked, WakeOne(p)) && i < |s.run|
    ensures var t := Next(s, blocked, WakeOne(p));
            && t.at[p] == Waking(s.at[p].next + 1) && t.onChan == s.onChan && t.cond == s.cond && t.lk == s.lk
            && t.run[i] == if i == s.at[p].next && i != p && s.run[i] == SLEEPING && s.onChan[i] then RUNNABLE
                           else s.run[i]
  {
  }

  /** kill makes its victim RUNNABLE on whatever channel it sleeps, and changes nothing else. */
  lemma KillWakes<C>(s: State<C>, blocked: C -> bool, p: Pid)
    requires Enabled(s, blocked, Kill(p))
    ensures s.run[p] == SLEEPING && Next(s, blocked, Kill(p)) == s.(run := s.run[p := RUNNABLE])
  {
  }

  lemma StepKeeps<C>(s: State<C>, blocked: C -> bool, e: Event<C>)
    requires Inv(s, blocked) && Enabled(s, blocked, e)
    ensures Inv(Next(s, blocked, e), blocked)
  {
    hide LocksOk, PointsOk, NoneLost, Enabled, Next;
    LocksKept(s, blocked, e);
    PointsKept(s, blocked, e);
    if e.WakeOne? {
      WakeOneKeeps(s, blocked, e);
    } else {
      NoneLostKept(s, blocked, e);
    }
  }

  ghost predicate StepsTo<C>(s: State<C>, blocked: C -> bool, e: Event<C>, t: State<C>) {
    Enabled(s, blocked, e) && t == Next(s, blocked, e)
  }

  ghost predicate Run<C>(states: seq<State<C>>, blocked: C -> bool, events: seq<Event<C>>) {
    && |states| == |events| + 1
    && forall k :: 0 <= k < |events| ==> StepsTo(states[k], blocked, events[k], states[k + 1])
  }

  ghost predicate Start<C>(s: State<C>) {
    && |s.at| == |s.run| == |s.onChan| == |s.seen| && s.lk == None
    && forall p :: 0 <= p < |s.at| ==> s.at[p] == Out && !s.onChan[p]
  }

  lemma {:induction false} RunKeeps<C>(states: seq<State<C>>, blocked: C -> bool, events: seq<Event<C>>, k: nat)
    requires Run(states, blocked, events) && Start(states[0]) && k <= |events|
    ensures Inv(states[k], blocked)
  {
    if k > 0 {
      RunKeeps(states, blocked, events, k - 1);
      assert StepsTo(states[k - 1], blocked, events[k - 1], states[k]);
      StepKeeps(states[k - 1], blocked, events[k - 1]);
    }
  }

  /**
   * No lost wakeup: in every interleaving, whenever the condition lock is free, a process asleep on the channel has
   * seen the last change made by a signaller, and the condition does block it.
   */
  lemma NoLostWakeup<C>(states: seq<State<C>>, blocked: C -> bool, events: seq<Event<C>>, k: nat, p: Pid)
    requires Run(states, blocked, events) && Start(states[0]) && k <= |events|
    requires var s := states[k]; s.lk == None && p < |s.run| && p < |s.onChan| && s.run[p] == SLEEPING && s.onChan[p]
    ensures var s := states[k]; p < |s.seen| && s.seen[p] == s.epoch && blocked(s.cond)
  {
    RunKeeps(states, blocked, events, k);
    assert Committed(states[k], p);
  }

  function Changes<C>(events: seq<Event<C>>): (n: nat) {
    if events == [] then 0 else Changes(events[..|events| - 1]) + (if events[|events| - 1].Change? then 1 else 0)
  }

  /** `epoch` is the number of changes so far. */
  lemma {:induction false} EpochCounts<C>(states: seq<State<C>>, blocked: C -> bool, events: seq<Event<C>>, k: nat)
    requires Run(states, blocked, events) && k <= |events|
    ensures states[k].epoch == states[0].epoch + Changes(events[..k])
  {
    if k > 0 {
      EpochCounts(states, blocked, events, k - 1);
      assert StepsTo(states[k - 1], blocked, events[k - 1], states[k]);
      assert events[..k][..k - 1] == events[..k - 1];
    }
  }

  /** Changes are counted, so equal counts mean that there was none between. */
  lemma {:induction false} NoneBetween<C>(events: seq<Event<C>>, j: nat, k: nat, i: nat)
    requires j <= i < k <= |events|
    ensures Changes(events[..j]) + (if events[i].Change? then 1 else 0) <= Changes(events[..k])
    decreases k
  {
    assert events[..k][..k - 1] == events[..k - 1];
    if i < k - 1 {
      NoneBetween(events, j, k - 1, i);
    } else if j < k - 1 {
      NoneBetween(events, j, k - 1, j);
    }
  }

  predicate PastTest(pt: Point) {
    pt in {Committing, Releasing, Marking, Switching, Asleep}
  }

  lemma TestStep<C>(s: State<C>, blocked: C -> bool, e: Event<C>, p: Pid)
    requires Enabled(s, blocked, e) && p < |s.at| && p < |Next(s, blocked, e).at| && PastTest(Next(s, blocked, e).at[p])
    ensures if e == Block(p) then Next(s, blocked, e).seen[p] == s.epoch && blocked(s.cond)
            else PastTest(s.at[p]) && Next(s, blocked, e).seen[p] == s.seen[p]
  {
  }

  /** A process on its way to sleep, or asleep, has tested the condition, and `seen` is the count at that test. */
  lemma {:induction false} TestedAt<C>(states: seq<State<C>>, blocked: C -> bool, events: seq<Event<C>>, k: nat, p: Pid)
    returns (j: nat)
    requires Run(states, blocked, events) && Start(states[0]) && k <= |events|
    requires p < |states[k].at| && PastTest(states[k].at[p])
    ensures j < k && events[j] == Block(p) && p < |states[k].seen|
    ensures states[k].seen[p] == states[j].epoch && blocked(states[j].cond)
  {
    hide Enabled, Next;
    RunKeeps(states, blocked, events, k);
    assert k > 0;
    RunKeeps(states, blocked, events, k - 1);
    assert StepsTo(states[k - 1], blocked, events[k - 1], states[k]);
    SameLengths(states[k - 1], blocked, events[k - 1]);
    TestStep(states[k - 1], blocked, events[k - 1], p);
    if events[k - 1] == Block(p) {
      j := k - 1;
    } else {
      j := TestedAt(states, blocked, events, k - 1, p);
    }
  }

  /** So whenever the lock is free nobody has changed the condition since a sleeper tested it and found it blocking. */
  lemma NoChangeSince<C>(states: seq<State<C>>, blocked: C -> bool, events: seq<Event<C>>, k: nat, p: Pid)
    returns (j: nat)
    requires Run(states, blocked, events) && Start(states[0]) && k <= |events|
    requires var s := states[k]; s.lk == None && p < |s.run| && p < |s.onChan| && s.run[p] == SLEEPING && s.onChan[p]
    ensures j < k && events[j] == Block(p) && blocked(states[j].cond) && forall i :: j <= i < k ==> !events[i].Change?
  {
    NoLostWakeup(states, blocked, events, k, p);
    RunKeeps(states, blocked, events, k);
    assert PointOk(states[k].at[p], states[k].run[p], states[k].onChan[p]);
    assert Committed(states[k], p);
    j := TestedAt(states, blocked, events, k, p);
    EpochCounts(states, blocked, events, j);
    EpochCounts(states, blocked, events, k);
    forall i | j <= i < k ensures !events[i].Change? {
      NoneBetween(events, j, k, i);
    }
  }

  /** Nobody leaves sleep unless a turn of wakeup or a kill makes it ready. */
  lemma SleeperStays<C>(s: State<C>, blocked: C -> bool, e: Event<C>, p: Pid)
    requires Enabled(s, blocked, e) && p < |s.at| && s.at[p] == Asleep && s.run[p] == SLEEPING && e != Kill(p)
    requires e.WakeOne? ==> s.at[e.p].next != p
    ensures var t := Next(s, blocked, e); p < |t.at| && p < |t.run| && t.at[p] == Asleep && t.run[p] == SLEEPING
  {
  }

  /** Every process can take its next step, but for one asleep and for the locks somebody else holds. */
  lemma CanStep<C>(s: State<C>, blocked: C -> bool, p: Pid, c: C)
    requires Inv(s, blocked) && p < |s.at|
    ensures match s.at[p]
            case Out => s.run[p] == RUNNING ==> Enabled(s, blocked, StartWait(p)) && Enabled(s, blocked, StartSignal(p))
            case Wanting => s.lk == None ==> Enabled(s, blocked, AcquireToWait(p))
            case Testing =>
              if blocked(s.cond) then Enabled(s, blocked, Block(p)) else Enabled(s, blocked, Proceed(p, c))
            case Committing => Enabled(s, blocked, TakeOwnLock(p))
            case Releasing => Enabled(s, blocked, DropLk(p))
            case Marking => Enabled(s, blocked, MarkAsleep(p))
            case Switching => Enabled(s, blocked, SwitchAway(p))
            case Asleep => Enabled(s, blocked, Dispatch(p)) <==> s.run[p] == RUNNABLE
            case Resuming => Enabled(s, blocked, Resume(p))
            case Signalling => s.lk == None ==> Enabled(s, blocked, AcquireToSignal(p))
            case Changing => Enabled(s, blocked, Change(p, c))
            case Waking(i) => if i >= |s.at| then Enabled(s, blocked, Finish(p))
                              else i == p || !HoldsOwnLock(s.at[i]) ==> Enabled(s, blocked, WakeOne(p))
  {
    hide LocksOk, PointOk;
  }

  /** Outside the protocol a process is scheduled as the others decide. */
  lemma ElsewhereMoves<C>(s: State<C>, blocked: C -> bool, p: Pid, r: RunState)
    requires Inv(s, blocked) && p < |s.at| && s.at[p] == Out
    ensures Enabled(s, blocked, Elsewhere(p, r)) && Next(s, blocked, Elsewhere(p, r)) == s.(run := s.run[p := r])
  {
  }
}

/** Sleep locks, kernel/sleeplock.c, as users of sleep and wakeup. */
module SleepLock {
  import opened Common
  import opened SleepWakeup

  /** `locked` and `pid` of the lock. */
  datatype Cell = Free | Held(pid: Pid)

  const blocked: Cell -> bool := (c: Cell) => c.Held?

  /** `owners` are the processes that have returned from acquiresleep and not yet cleared the lock again. */
  datatype Lock = Lock(m: State<Cell>, owners: set<Pid>)

  /** acquiresleep takes the lock for its caller, which may even be its owner; only an owner calls releasesleep. */
  predicate Enabled(l: Lock, e: Event<Cell>) {
    && SleepWakeup.Enabled(l.m, blocked, e)
    && (e.Proceed? ==> e.c == Held(e.p))
    && (e.StartSignal? ==> e.p in l.owners)
    && (e.Change? ==> e.c == Free)
  }

  function Next(l: Lock, e: Event<Cell>): (l': Lock)
    requires Enabled(l, e)
  {
    Lock(SleepWakeup.Next(l.m, blocked, e),
         if e.Proceed? then l.owners + {e.p} else if e.Change? then l.owners - {e.p} else l.owners)
  }

  ghost predicate Inv(l: Lock) {
    && SleepWakeup.Inv(l.m, blocked)
    && l.owners == (match l.m.cond case Free => {} case Held(p) => {p})
    && forall p :: 0 <= p < |l.m.at| && l.m.at[p] in {Signalling, Changing} ==> p in l.owners
  }

  lemma StepKeeps(l: Lock, e: Event<Cell>)
    requires Inv(l) && Enabled(l, e)
    ensures Inv(Next(l, e))
  {
    SleepWakeup.StepKeeps(l.m, blocked, e);
    hide LocksOk, PointsOk, NoneLost;
  }

  ghost predicate StepsTo(l: Lock, e: Event<Cell>, l': Lock) {
    Enabled(l, e) && l' == Next(l, e)
  }

  ghost predicate Run(locks: seq<Lock>, events: seq<Event<Cell>>) {
    && |locks| == |events| + 1
    && Start(locks[0].m) && locks[0].m.cond == Free && locks[0].owners == {}
    && forall k :: 0 <= k < |events| ==> StepsTo(locks[k], events[k], locks[k + 1])
  }

  lemma {:induction false} RunKeeps(locks: seq<Lock>, events: seq<Event<Cell>>, k: nat)
    requires Run(locks, events) && k <= |events|
    ensures Inv(locks[k])
  {
    if k > 0 {
      RunKeeps(locks, events, k - 1);
      assert StepsTo(locks[k - 1], events[k - 1], locks[k]);
      StepKeeps(locks[k - 1], events[k - 1]);
    }
  }

  /** A caller that finds the lock free takes it, and an owner that releases it leaves it free. */
  lemma TakesAndFrees(l: Lock, p: Pid)
    requires Inv(l) && p < |l.m.at|
    ensures l.m.at[p] == Testing && l.m.cond == Free ==>
              && Enabled(l, Proceed(p, Held(p)))
              && Next(l, Proceed(p, Held(p))).owners == {p} && Next(l, Proceed(p, Held(p))).m.cond == Held(p)
    ensures l.m.at[p] == Changing ==>
              && l.owners == {p} && Enabled(l, Change(p, Free))
              && Next(l, Change(p, Free)).owners == {} && Next(l, Change(p, Free)).m.cond == Free
  {
    CanStep(l.m, blocked, p, Held(p));
    CanStep(l.m, blocked, p, Free);
  }

  /** `holdingsleep` */
  predicate Holding(l: Lock, p: Pid) {
    l.m.cond == Held(p)
  }

  /** At most one process holds the lock, and holdingsleep tells exactly which. */
  lemma MutualExclusion(locks: seq<Lock>, events: seq<Event<Cell>>, k: nat)
    requires Run(locks, events) && k <= |events|
    ensures |locks[k].owners| <= 1
    ensures forall p: Pid :: p in locks[k].owners <==> Holding(locks[k], p)
  {
    RunKeeps(locks, events, k);
  }

  /** Whenever the inner spinlock is free, a process asleep on the lock implies that the lock is held. */
  lemma AsleepImpliesLocked(locks: seq<Lock>, events: seq<Event<Cell>>, k: nat, p: Pid)
    requires Run(locks, events) && k <= |events|
    requires var s := locks[k].m; s.lk == None && p < |s.run| && p < |s.onChan| && s.run[p] == SLEEPING && s.onChan[p]
    ensures locks[k].m.cond.Held? && locks[k].owners != {}
  {
    RunKeeps(locks, events, k);
    assert Committed(locks[k].m, p);
  }
}
