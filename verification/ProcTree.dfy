/**
 * fork, exit and wait of kernel/proc.c: the process tree, under every interleaving.
 *
 * A step is what one process does under one lock; the scans of exit and wait take one step per table entry, while
 * they keep wait_lock.
 */
module ProcTree {
  import opened Common

  type Slot = nat
  const INIT: Slot := 0

  datatype RunState = UNUSED | USED | SLEEPING | RUNNABLE | RUNNING | ZOMBIE
  datatype Proc = Proc(state: RunState, parent: Option<Slot>, pid: nat)

  datatype Point =
    | Elsewhere
    | Forking(np: Slot)        // kfork: np allocated, its parent not yet set
    | Linked(np: Slot)         // kfork: parent set, not yet RUNNABLE
    | Reparenting(next: nat)   // kexit, holding wait_lock
    | Scanning(next: nat, havekids: bool) // kwait, holding wait_lock
    | WaitSleeping             // kwait, in sleep
    | Dead                     // kexit is over

  /** `exited` and `reaped` only record: pids that have exited, and pids returned by kwait with its caller's slot. */
  datatype State = State(
    procs: seq<Proc>, at: seq<Point>, waitLock: Option<Slot>, nextpid: nat, exited: set<nat>, reaped: seq<(nat, Slot)>)

  datatype Event =
    | Schedule(p: Slot, r: RunState)       // p is preempted, sleeps, wakes up or is dispatched
    | ForkAlloc(p: Slot, np: Slot)         // allocproc
    | ForkFail(p: Slot)                    // uvmcopy fails: freeproc
    | ForkLink(p: Slot)                    // np->parent = p, under wait_lock
    | ForkRun(p: Slot)                     // np->state = RUNNABLE
    | ExitLock(p: Slot)
    | ReparentOne(p: Slot)
    | ExitDone(p: Slot)                    // ZOMBIE, and release wait_lock
    | WaitLock(p: Slot)
    | ScanOne(p: Slot)                     // an entry that is not an exited child
    | Reap(p: Slot, copied: bool)          // an exited child; copyout of its status may fail
    | ScanEnd(p: Slot, killed: bool)       // give up, or sleep

  predicate Live(r: RunState) {
    r in {SLEEPING, RUNNABLE, RUNNING}
  }

  predicate RunsAt(s: State, p: Slot, pt: Point) {
    p < |s.procs| == |s.at| && s.procs[p].state == RUNNING && s.at[p] == pt
  }

  predicate Enabled(s: State, e: Event) {
    |s.at| == |s.procs| && e.p < |s.procs| &&
    match e
    case Schedule(p, r) =>
      Live(s.procs[p].state) && Live(r) && s.waitLock != Some(p) && (s.at[p] == WaitSleeping ==> r != SLEEPING)
    case ForkAlloc(p, np) => RunsAt(s, p, Elsewhere) && np < |s.procs| && s.procs[np].state == UNUSED
    case ForkFail(p) => s.procs[p].state == RUNNING && s.at[p].Forking? && s.at[p].np < |s.procs|
    case ForkLink(p) => s.procs[p].state == RUNNING && s.at[p].Forking? && s.at[p].np < |s.procs| && s.waitLock == None
    case ForkRun(p) => s.procs[p].state == RUNNING && s.at[p].Linked? && s.at[p].np < |s.procs|
    case ExitLock(p) => RunsAt(s, p, Elsewhere) && p != INIT && s.waitLock == None
    case ReparentOne(p) => s.at[p].Reparenting? && s.at[p].next < |s.procs|
    case ExitDone(p) => s.at[p].Reparenting? && s.at[p].next >= |s.procs|
    case WaitLock(p) => (RunsAt(s, p, Elsewhere) || RunsAt(s, p, WaitSleeping)) && s.waitLock == None
    case ScanOne(p) =>
      && s.at[p].Scanning? && s.at[p].next < |s.procs|
      && !(s.procs[s.at[p].next].parent == Some(p) && s.procs[s.at[p].next].state == ZOMBIE)
    case Reap(p, copied) =>
      && s.at[p].Scanning? && s.at[p].next < |s.procs|
      && s.procs[s.at[p].next].parent == Some(p) && s.procs[s.at[p].next].state == ZOMBIE
    case ScanEnd(p, killed) => s.at[p].Scanning? && s.at[p].next >= |s.procs|
  }

  function SetProc(s: State, i: Slot, q: Proc): State
    requires i < |s.procs|
  {
    s.(procs := s.procs[i := q])
  }

  function Move(s: State, p: Slot, pt: Point): State
    requires p < |s.at|
  {
    s.(at := s.at[p := pt])
  }

  const FREED := Proc(UNUSED, None, 0) // freeproc

  /** wakeup of a process asleep in kwait. */
  function Woken(s: State, q: Slot): State {
    if q < |s.procs| && q < |s.at| && s.at[q] == WaitSleeping && s.procs[q].state == SLEEPING
    then SetProc(s, q, s.procs[q].(state := RUNNABLE))
    else s
  }

  function Next(s: State, e: Event): (t: State)
    requires Enabled(s, e)
  {
    match e
    case Schedule(p, r) => SetProc(s, p, s.procs[p].(state := r))
    case ForkAlloc(p, np) =>
      Move(SetProc(s, np, Proc(USED, None, s.nextpid)), p, Forking(np)).(nextpid := s.nextpid + 1)
    case ForkFail(p) => Move(SetProc(s, s.at[p].np, FREED), p, Elsewhere)
    case ForkLink(p) => var np := s.at[p].np; Move(SetProc(s, np, s.procs[np].(parent := Some(p))), p, Linked(np))
    case ForkRun(p) => var np := s.at[p].np; Move(SetProc(s, np, s.procs[np].(state := RUNNABLE)), p, Elsewhere)
    case ExitLock(p) => Move(s, p, Reparenting(0)).(waitLock := Some(p))
    case ReparentOne(p) =>
      var i := s.at[p].next;
      Move(if s.procs[i].parent == Some(p) then Woken(SetProc(s, i, s.procs[i].(parent := Some(INIT))), INIT) else s,
           p, Reparenting(i + 1))
    case ExitDone(p) =>
      var t := if s.procs[p].parent.Some? then Woken(s, s.procs[p].parent.value) else s;
      Move(SetProc(t, p, s.procs[p].(state := ZOMBIE)), p, Dead)
        .(waitLock := None, exited := s.exited + {s.procs[p].pid})
    case WaitLock(p) => Move(s, p, Scanning(0, false)).(waitLock := Some(p))
    case ScanOne(p) =>
      var i := s.at[p].next;
      Move(s, p, Scanning(i + 1, s.at[p].havekids || s.procs[i].parent == Some(p)))
    case Reap(p, copied) =>
      var i := s.at[p].next;
      var t := Move(s, p, Elsewhere).(waitLock := None);
      if copied then Move(SetProc(t, i, FREED), i, Elsewhere).(reaped := s.reaped + [(s.procs[i].pid, p)]) else t
    case ScanEnd(p, killed) =>
      if !s.at[p].havekids || killed then Move(s, p, Elsewhere).(waitLock := None)
      else Move(SetProc(s, p, s.procs[p].(state := SLEEPING)), p, WaitSleeping).(waitLock := None)
  }

  /** Every process but init has a parent that is alive. */
  ghost predicate Tree(procs: seq<Proc>) {
    && INIT < |procs| && Live(procs[INIT].state)
    && forall i :: 0 <= i < |procs| ==> HasLivingParent(procs, i)
  }

  ghost predicate HasLivingParent(procs: seq<Proc>, i: nat)
    requires i < |procs|
  {
    i != INIT && (Live(procs[i].state) || procs[i].state == ZOMBIE) ==>
      procs[i].parent.Some? && procs[i].parent.value < |procs| && Live(procs[procs[i].parent.value].state)
  }

  function Child(pt: Point): Option<Slot> {
    match pt
    case Forking(np) => Some(np)
    case Linked(np) => Some(np)
    case _ => None
  }

  /** Only live processes are inside fork, exit or wait, and only zombies are past exit. */
  ghost predicate Points(procs: seq<Proc>, at: seq<Point>) {
    && |at| == |procs|
    && (forall p :: 0 <= p < |at| && at[p] != Elsewhere ==>
          if at[p] == Dead then procs[p].state == ZOMBIE else Live(procs[p].state))
    && (forall i :: 0 <= i < |procs| && procs[i].state == UNUSED ==> procs[i].parent == None)
  }

  /** Each unfinished child belongs to the one process that is forking it. */
  ghost predicate Forks(procs: seq<Proc>, at: seq<Point>) {
    && |at| == |procs|
    && (forall p :: 0 <= p < |at| ==> ChildOk(procs, at, p))
    && (forall p, q :: 0 <= p < q < |at| && Child(at[p]).Some? ==> Child(at[p]) != Child(at[q]))
  }

  ghost predicate ChildOk(procs: seq<Proc>, at: seq<Point>, p: Slot)
    requires p < |at|
  {
    var c := Child(at[p]);
    c.Some? ==> c.value < |procs| && procs[c.value].state == USED
                && procs[c.value].parent == (if at[p].Linked? then Some(p) else None)
  }

  /** wait_lock is held by the process that is scanning; the children an exiting process has passed are not its own. */
  ghost predicate Scans(procs: seq<Proc>, at: seq<Point>, waitLock: Option<Slot>) {
    && |at| == |procs|
    && (forall p :: 0 <= p < |at| ==> (at[p].Reparenting? || at[p].Scanning? <==> waitLock == Some(p)))
    && (forall p :: 0 <= p < |at| && (at[p].Reparenting? || at[p].Scanning?) ==> procs[p].state == RUNNING)
    && (forall p :: 0 <= p < |at| && at[p].Reparenting? ==> p != INIT)
    && (forall p, i :: 0 <= p < |at| && 0 <= i < |procs| && at[p].Reparenting? && i < at[p].next ==>
        procs[i].parent != Some(p))
  }

  /** One of the first n entries is a child of p. */
  ghost predicate KidBelow(procs: seq<Proc>, p: Slot, n: nat) {
    exists i :: 0 <= i < n && i < |procs| && procs[i].parent == Some(p)
  }

  /** Entry i is no zombie child of p. */
  ghost predicate NotReapable(procs: seq<Proc>, p: Slot, i: nat)
    requires i < |procs|
  {
    procs[i].parent == Some(p) ==> procs[i].state != ZOMBIE
  }

  /**
   * kwait's flag tells whether it has passed a child, and it has passed no zombie. A process asleep in it has a child,
   * and none that is a zombie.
   */
  ghost predicate WaitOk(procs: seq<Proc>, at: seq<Point>, p: Slot)
    requires p < |at| == |procs|
  {
    && (at[p].Scanning? ==> && (at[p].havekids <==> KidBelow(procs, p, at[p].next))
                            && forall i :: 0 <= i < |procs| && i < at[p].next ==> NotReapable(procs, p, i))
    && (at[p] == WaitSleeping ==> KidBelow(procs, p, |procs|))
    && (at[p] == WaitSleeping && procs[p].state == SLEEPING ==>
          forall i :: 0 <= i < |procs| ==> NotReapable(procs, p, i))
  }

  ghost predicate Waits(procs: seq<Proc>, at: seq<Point>) {
    |at| == |procs| && forall p :: 0 <= p < |at| ==> WaitOk(procs, at, p)
  }

  /** Pids in use are distinct, and below the next one to be given out. */
  ghost predicate Pids(procs: seq<Proc>, nextpid: nat) {
    && (forall i :: 0 <= i < |procs| && procs[i].state != UNUSED ==> procs[i].pid < nextpid)
    && (forall i, j :: 0 <= i < j < |procs| && procs[i].state != UNUSED && procs[j].state != UNUSED ==>
        procs[i].pid != procs[j].pid)
  }

  /** The pids that have exited are those of the zombies and, once each, the reaped ones. */
  ghost predicate History(procs: seq<Proc>, nextpid: nat, exited: set<nat>, reaped: seq<(nat, Slot)>) {
    && (forall k :: 0 <= k < |reaped| ==> reaped[k].0 in exited)
    && (forall k, l :: 0 <= k < l < |reaped| ==> reaped[k].0 != reaped[l].0)
    && (forall k, i :: 0 <= k < |reaped| && 0 <= i < |procs| && procs[i].state != UNUSED ==>
        reaped[k].0 != procs[i].pid)
    && (forall pid :: pid in exited ==> pid < nextpid)
    && (forall i :: 0 <= i < |procs| && procs[i].state != UNUSED ==>
        (procs[i].pid in exited <==> procs[i].state == ZOMBIE))
  }

  ghost predicate Inv(s: State) {
    && Tree(s.procs) && Points(s.procs, s.at) && Forks(s.procs, s.at) && Scans(s.procs, s.at, s.waitLock)
    && Pids(s.procs, s.nextpid) && History(s.procs, s.nextpid, s.exited, s.reaped) && Waits(s.procs, s.at)
  }

  predicate IsFork(e: Event) {
    e.Schedule? || e.ForkAlloc? || e.ForkFail? || e.ForkLink? || e.ForkRun?
  }

  predicate IsExit(e: Event) {
    e.ExitLock? || e.ReparentOne? || e.ExitDone?
  }

  /** What the lemmas below need to know about the locks and program points. */
  ghost predicate Control(s: State) {
    Points(s.procs, s.at) && Forks(s.procs, s.at) && Scans(s.procs, s.at, s.waitLock)
  }

  lemma ForkKeepsPoints(s: State, e: Event)
    requires Control(s) && Enabled(s, e) && IsFork(e)
    ensures Points(Next(s, e).procs, Next(s, e).at)
  {
    assert ChildOk(s.procs, s.at, e.p);
  }

  lemma ExitKeepsPoints(s: State, e: Event)
    requires Control(s) && Enabled(s, e) && IsExit(e)
    ensures Points(Next(s, e).procs, Next(s, e).at)
  {
    hide Forks;
  }

  lemma WaitKeepsPoints(s: State, e: Event)
    requires Control(s) && Enabled(s, e) && !IsFork(e) && !IsExit(e)
    ensures Points(Next(s, e).procs, Next(s, e).at)
  {
    hide Forks;
  }

  lemma ForkKeepsForks(s: State, e: Event)
    requires Control(s) && Enabled(s, e) && IsFork(e)
    ensures Forks(Next(s, e).procs, Next(s, e).at)
  {
    assert ChildOk(s.procs, s.at, e.p);
    if e.ForkAlloc? {
      forall q | 0 <= q < |s.at| ensures Child(s.at[q]) != Some(e.np) {
        assert ChildOk(s.procs, s.at, q);
      }
    }
    var t := Next(s, e);
    forall p | 0 <= p < |t.at| ensures ChildOk(t.procs, t.at, p) {
      assert ChildOk(s.procs, s.at, p);
    }
  }

  /** What a step of p's exit may do to entry i. */
  ghost predicate ExitSlot(s: State, t: State, p: Slot, i: Slot) {
    && i < |s.at| == |s.procs| == |t.at| == |t.procs| && (i != p ==> t.at[i] == s.at[i])
    && t.procs[i].pid == s.procs[i].pid
    && (t.procs[i].parent == s.procs[i].parent || s.procs[i].parent == Some(p))
    && (t.procs[i].state == s.procs[i].state || i == p || s.procs[i].state == SLEEPING)
  }

  lemma ExitEffect(s: State, e: Event, i: Slot)
    requires Enabled(s, e) && IsExit(e) && i < |s.procs|
    ensures ExitSlot(s, Next(s, e), e.p, i)
  {
  }

  lemma ExitSelf(s: State, e: Event)
    requires Control(s) && Enabled(s, e) && IsExit(e)
    ensures s.procs[e.p].state == RUNNING && |Next(s, e).at| == |Next(s, e).procs| == |s.at| == |s.procs|
    ensures Child(s.at[e.p]).None? && Child(Next(s, e).at[e.p]).None?
  {
    hide Points, Forks;
  }

  lemma ExitKeepsForks(s: State, e: Event)
    requires Control(s) && Enabled(s, e) && IsExit(e)
    ensures Forks(Next(s, e).procs, Next(s, e).at)
  {
    hide Enabled, Next, Points, Scans;
    var t := Next(s, e);
    ExitSelf(s, e);
    forall p | 0 <= p < |t.at| ensures Child(t.at[p]) == Child(s.at[p]) && ChildOk(t.procs, t.at, p) {
      ExitEffect(s, e, p);
      assert ChildOk(s.procs, s.at, p);
      if Child(s.at[p]).Some? { ExitEffect(s, e, Child(s.at[p]).value); }
    }
  }

  lemma ReapKeepsForks(s: State, e: Event)
    requires Control(s) && Enabled(s, e) && e.Reap?
    ensures Forks(Next(s, e).procs, Next(s, e).at)
  {
    var t := Next(s, e);
    forall p | 0 <= p < |t.at| ensures ChildOk(t.procs, t.at, p) {
      assert ChildOk(s.procs, s.at, p);
    }
  }

  lemma WaitKeepsForks(s: State, e: Event)
    requires Control(s) && Enabled(s, e) && !IsFork(e) && !IsExit(e) && !e.Reap?
    ensures Forks(Next(s, e).procs, Next(s, e).at)
  {
    var t := Next(s, e);
    forall p | 0 <= p < |t.at| ensures ChildOk(t.procs, t.at, p) {
      assert ChildOk(s.procs, s.at, p);
    }
  }

  lemma ForkKeepsScans(s: State, e: Event)
    requires Control(s) && Enabled(s, e) && IsFork(e)
    ensures Scans(Next(s, e).procs, Next(s, e).at, Next(s, e).waitLock)
  {
    assert ChildOk(s.procs, s.at, e.p);
  }

  lemma ExitKeepsScans(s: State, e: Event)
    requires Control(s) && Enabled(s, e) && IsExit(e)
    ensures Scans(Next(s, e).procs, Next(s, e).at, Next(s, e).waitLock)
  {
  }

  lemma WaitKeepsScans(s: State, e: Event)
    requires Control(s) && Enabled(s, e) && !IsFork(e) && !IsExit(e)
    ensures Scans(Next(s, e).procs, Next(s, e).at, Next(s, e).waitLock)
  {
  }

  lemma ControlKept(s: State, e: Event)
    requires Control(s) && Enabled(s, e)
    ensures Control(Next(s, e))
  {
    hide Points, Forks, Scans, Next, Enabled;
    if IsFork(e) {
      ForkKeepsPoints(s, e);
      ForkKeepsForks(s, e);
      ForkKeepsScans(s, e);
    } else {
      if IsExit(e) {
        ExitKeepsPoints(s, e);
        ExitKeepsForks(s, e);
        ExitKeepsScans(s, e);
      } else {
        WaitKeepsPoints(s, e);
        if e.Reap? { ReapKeepsForks(s, e); } else { WaitKeepsForks(s, e); }
        WaitKeepsScans(s, e);
      }
    }
  }

  lemma ForkKeepsTree(s: State, e: Event)
    requires Control(s) && Tree(s.procs) && Enabled(s, e) && IsFork(e)
    ensures Tree(Next(s, e).procs)
  {
    assert ChildOk(s.procs, s.at, e.p);
    var t := Next(s, e);
    forall i | 0 <= i < |t.procs| ensures HasLivingParent(t.procs, i) {
      assert HasLivingParent(s.procs, i);
    }
  }

  /** exit hands on every child before it turns zombie, and wait frees only processes that are nobody's parent. */
  lemma ExitKeepsTree(s: State, e: Event)
    requires Control(s) && Tree(s.procs) && Enabled(s, e) && !IsFork(e)
    ensures Tree(Next(s, e).procs)
  {
    var t := Next(s, e);
    forall i | 0 <= i < |t.procs| ensures HasLivingParent(t.procs, i) {
      assert HasLivingParent(s.procs, i);
    }
  }

  lemma ForkKeepsPids(s: State, e: Event)
    requires Control(s) && Pids(s.procs, s.nextpid) && Enabled(s, e) && IsFork(e)
    ensures Pids(Next(s, e).procs, Next(s, e).nextpid)
  {
    assert ChildOk(s.procs, s.at, e.p);
    hide Points, Scans;
  }

  lemma ExitKeepsPids(s: State, e: Event)
    requires Control(s) && Pids(s.procs, s.nextpid) && Enabled(s, e) && !IsFork(e)
    ensures Pids(Next(s, e).procs, Next(s, e).nextpid)
  {
    hide Points, Forks;
  }

  lemma PidsKept(s: State, e: Event)
    requires Control(s) && Pids(s.procs, s.nextpid) && Enabled(s, e)
    ensures Pids(Next(s, e).procs, Next(s, e).nextpid)
  {
    hide Control, Pids, Enabled, Next;
    if IsFork(e) { ForkKeepsPids(s, e); } else { ExitKeepsPids(s, e); }
  }

  /** p keeps its children, none of them has become a zombie, and p has not fallen asleep. */
  ghost predicate Calm(procs: seq<Proc>, procs': seq<Proc>, p: Slot) {
    && p < |procs| == |procs'| && (procs'[p].state == SLEEPING ==> procs[p].state == SLEEPING)
    && forall i :: 0 <= i < |procs| ==> CalmAt(procs, procs', p, i)
  }

  ghost predicate CalmAt(procs: seq<Proc>, procs': seq<Proc>, p: Slot, i: nat)
    requires i < |procs| == |procs'|
  {
    && (procs'[i].parent == Some(p) <==> procs[i].parent == Some(p))
    && (procs[i].parent == Some(p) && procs'[i].state == ZOMBIE ==> procs[i].state == ZOMBIE)
  }

  lemma KidsSame(procs: seq<Proc>, procs': seq<Proc>, p: Slot, n: nat)
    requires Calm(procs, procs', p)
    ensures KidBelow(procs, p, n) <==> KidBelow(procs', p, n)
  {
    if KidBelow(procs, p, n) {
      var i :| 0 <= i < n && i < |procs| && procs[i].parent == Some(p);
      assert CalmAt(procs, procs', p, i);
    }
    if KidBelow(procs', p, n) {
      var i :| 0 <= i < n && i < |procs'| && procs'[i].parent == Some(p);
      assert CalmAt(procs, procs', p, i);
    }
  }

  lemma CalmKeeps(procs: seq<Proc>, at: seq<Point>, procs': seq<Proc>, at': seq<Point>, p: Slot)
    requires p < |at| == |procs| == |at'| == |procs'| && at'[p] == at[p]
    requires WaitOk(procs, at, p) && Calm(procs, procs', p)
    ensures WaitOk(procs', at', p)
  {
    hide KidBelow;
    if at[p].Scanning? { KidsSame(procs, procs', p, at[p].next); }
    KidsSame(procs, procs', p, |procs|);
    forall i | 0 <= i < |procs| && NotReapable(procs, p, i) ensures NotReapable(procs', p, i) {
      assert CalmAt(procs, procs', p, i);
    }
  }

  lemma ForkIsCalm(s: State, e: Event, p: Slot)
    requires Control(s) && Enabled(s, e) && IsFork(e) && p < |s.at| && (s.at[p].Scanning? || s.at[p] == WaitSleeping)
    ensures |Next(s, e).at| == |s.at| && Next(s, e).at[p] == s.at[p] && Calm(s.procs, Next(s, e).procs, p)
  {
    assert ChildOk(s.procs, s.at, e.p);
    hide Scans;
  }

  lemma ForkKeepsWaits(s: State, e: Event)
    requires Control(s) && Waits(s.procs, s.at) && Enabled(s, e) && IsFork(e)
    ensures Waits(Next(s, e).procs, Next(s, e).at)
  {
    hide Control, WaitOk, Calm;
    var t := Next(s, e);
    forall p | 0 <= p < |t.at| ensures WaitOk(t.procs, t.at, p) {
      if s.at[p].Scanning? || s.at[p] == WaitSleeping {
        ForkIsCalm(s, e, p);
        CalmKeeps(s.procs, s.at, t.procs, t.at, p);
      } else {
        NotWaiting(t.procs, t.at, p);
      }
    }
  }

  lemma NotWaiting(procs: seq<Proc>, at: seq<Point>, p: Slot)
    requires p < |at| == |procs| && !at[p].Scanning? && at[p] != WaitSleeping
    ensures WaitOk(procs, at, p)
  {
  }

  /** exit makes a zombie child or an orphan of nobody who stays asleep in kwait. */
  lemma ExitIsCalm(s: State, e: Event, p: Slot)
    requires Control(s) && Enabled(s, e) && IsExit(e) && p < |s.at| && s.at[p] == WaitSleeping
    ensures var t := Next(s, e);
            && |t.at| == |s.at| == |t.procs| && t.at[p] == WaitSleeping
            && (t.procs[p].state == SLEEPING ==> Calm(s.procs, t.procs, p))
            && forall i :: 0 <= i < |s.procs| && s.procs[i].parent == Some(p) ==> t.procs[i].parent == Some(p)
  {
    hide Enabled, Next, Forks, Points;
    var t := Next(s, e);
    ExitSelf(s, e);
    ExitPlace(s, e);
    ExitEffect(s, e, p);
    SleepsOn(s, e, p);
    forall i | 0 <= i < |s.procs| && t.procs[p].state == SLEEPING ensures CalmAt(s.procs, t.procs, p, i) {
      ExitEffect(s, e, i);
      CalmIn(s, e, p, i);
    }
    forall i | 0 <= i < |s.procs| && s.procs[i].parent == Some(p) ensures t.procs[i].parent == Some(p) {
      ExitEffect(s, e, i);
    }
  }

  lemma ExitPlace(s: State, e: Event)
    requires Control(s) && Enabled(s, e) && IsExit(e)
    ensures s.at[e.p] != WaitSleeping
  {
  }

  lemma SleepsOn(s: State, e: Event, p: Slot)
    requires Enabled(s, e) && IsExit(e) && p < |s.procs| && p != e.p
    ensures p < |Next(s, e).procs| && (Next(s, e).procs[p].state == SLEEPING ==> s.procs[p].state == SLEEPING)
  {
  }

  lemma CalmIn(s: State, e: Event, p: Slot, i: Slot)
    requires Control(s) && Enabled(s, e) && IsExit(e) && p < |s.at| && s.at[p] == WaitSleeping && i < |s.procs|
    requires p < |Next(s, e).procs| && i < |Next(s, e).procs| == |s.procs| && Next(s, e).procs[p].state == SLEEPING
    ensures CalmAt(s.procs, Next(s, e).procs, p, i)
  {
    hide Forks, Points;
  }

  lemma ExitScans(s: State, e: Event, p: Slot)
    requires Control(s) && Enabled(s, e) && IsExit(e) && p < |s.at| && s.at[p] != WaitSleeping
    ensures var t := Next(s, e); |t.at| == |s.at| == |t.procs| && t.at[p] != WaitSleeping && !t.at[p].Scanning?
  {
    hide Points, Forks;
  }

  lemma ExitKeepsWaits(s: State, e: Event)
    requires Control(s) && Waits(s.procs, s.at) && Enabled(s, e) && IsExit(e)
    ensures Waits(Next(s, e).procs, Next(s, e).at)
  {
    hide Control, Calm, Enabled, Next;
    var t := Next(s, e);
    SameTable(s, e);
    forall p | 0 <= p < |t.at| ensures WaitOk(t.procs, t.at, p) {
      if s.at[p] == WaitSleeping {
        ExitIsCalm(s, e, p);
        assert WaitOk(s.procs, s.at, p);
        var i :| 0 <= i < |s.procs| && s.procs[i].parent == Some(p);
        assert KidBelow(t.procs, p, |t.procs|);
        if t.procs[p].state == SLEEPING { CalmKeeps(s.procs, s.at, t.procs, t.at, p); }
      } else {
        ExitScans(s, e, p);
      }
    }
  }

  lemma SameTable(s: State, e: Event)
    requires Enabled(s, e)
    ensures |Next(s, e).at| == |Next(s, e).procs| == |s.procs| == |s.at|
  {
  }

  lemma OthersCalm(s: State, e: Event, p: Slot)
    requires Control(s) && Enabled(s, e) && !IsFork(e) && !IsExit(e)
    requires p < |s.at| && p != e.p && s.at[p] == WaitSleeping
    ensures |Next(s, e).at| == |s.at| && Next(s, e).at[p] == s.at[p] && Calm(s.procs, Next(s, e).procs, p)
  {
    hide Forks;
  }

  lemma OthersScan(s: State, e: Event, p: Slot)
    requires Control(s) && Enabled(s, e) && !IsFork(e) && !IsExit(e)
    requires p < |s.at| && p != e.p && s.at[p] != WaitSleeping
    ensures var t := Next(s, e); |t.at| == |s.at| == |t.procs| && t.at[p] != WaitSleeping && !t.at[p].Scanning?
  {
    hide Points, Forks;
  }

  /** A scan that has reached n sees one entry more. */
  lemma KidNext(procs: seq<Proc>, p: Slot, n: nat)
    requires n < |procs|
    ensures KidBelow(procs, p, n + 1) <==> KidBelow(procs, p, n) || procs[n].parent == Some(p)
  {
  }

  lemma ScanStep(s: State, e: Event)
    requires Control(s) && Waits(s.procs, s.at) && Enabled(s, e) && !IsFork(e) && !IsExit(e)
    ensures WaitOk(Next(s, e).procs, Next(s, e).at, e.p)
  {
    hide Points, Forks;
    var t := Next(s, e);
    assert WaitOk(s.procs, s.at, e.p);
    if e.ScanOne? {
      KidNext(s.procs, e.p, s.at[e.p].next);
      hide KidBelow;
    } else if e.ScanEnd? && t.at[e.p] == WaitSleeping {
      SleeperOk(s, e.p);
    }
  }

  /** What the end of a scan has seen is still true when its process sleeps. */
  lemma SleeperOk(s: State, p: Slot)
    requires p < |s.at| == |s.procs| && s.at[p].Scanning? && s.at[p].havekids && s.at[p].next >= |s.procs|
    requires WaitOk(s.procs, s.at, p) && s.procs[p].state == RUNNING
    ensures var procs := s.procs[p := s.procs[p].(state := SLEEPING)];
            WaitOk(procs, s.at[p := WaitSleeping], p)
  {
    var procs := s.procs[p := s.procs[p].(state := SLEEPING)];
    var i :| 0 <= i < |s.procs| && s.procs[i].parent == Some(p);
    assert procs[i].parent == Some(p);
    forall j | 0 <= j < |procs| ensures NotReapable(procs, p, j) {
      assert NotReapable(s.procs, p, j);
    }
  }

  lemma ScanKeepsWaits(s: State, e: Event)
    requires Control(s) && Waits(s.procs, s.at) && Enabled(s, e) && !IsFork(e) && !IsExit(e)
    ensures Waits(Next(s, e).procs, Next(s, e).at)
  {
    hide Control, WaitOk, Calm, Enabled, Next;
    var t := Next(s, e);
    SameTable(s, e);
    forall p | 0 <= p < |t.at| ensures WaitOk(t.procs, t.at, p) {
      if p == e.p {
        ScanStep(s, e);
      } else if s.at[p] == WaitSleeping {
        OthersCalm(s, e, p);
        CalmKeeps(s.procs, s.at, t.procs, t.at, p);
      } else {
        OthersScan(s, e, p);
        NotWaiting(t.procs, t.at, p);
      }
    }
  }

  lemma ForkKeepsHistory(s: State, e: Event)
    requires Control(s) && Pids(s.procs, s.nextpid) && History(s.procs, s.nextpid, s.exited, s.reaped)
             && Enabled(s, e) && IsFork(e)
    ensures var t := Next(s, e); History(t.procs, t.nextpid, t.exited, t.reaped)
  {
    assert ChildOk(s.procs, s.at, e.p);
    hide Points, Scans;
  }

  lemma ExitKeepsHistory(s: State, e: Event)
    requires Control(s) && Pids(s.procs, s.nextpid) && History(s.procs, s.nextpid, s.exited, s.reaped)
             && Enabled(s, e) && IsExit(e)
    ensures var t := Next(s, e); History(t.procs, t.nextpid, t.exited, t.reaped)
  {
    hide Points, Forks;
  }

  lemma WaitKeepsHistory(s: State, e: Event)
    requires Control(s) && Pids(s.procs, s.nextpid) && History(s.procs, s.nextpid, s.exited, s.reaped)
             && Enabled(s, e) && !IsFork(e) && !IsExit(e)
    ensures var t := Next(s, e); History(t.procs, t.nextpid, t.exited, t.reaped)
  {
    hide Points, Forks;
  }

  lemma StepKeeps(s: State, e: Event)
    requires Inv(s) && Enabled(s, e)
    ensures Inv(Next(s, e))
  {
    hide Points, Forks, Scans, Tree, Pids, History, Waits, Next, Enabled;
    ControlKept(s, e);
    PidsKept(s, e);
    if IsFork(e) {
      ForkKeepsTree(s, e);
      ForkKeepsHistory(s, e);
      ForkKeepsWaits(s, e);
    } else {
      ExitKeepsTree(s, e);
      if IsExit(e) {
        ExitKeepsHistory(s, e);
        ExitKeepsWaits(s, e);
      } else {
        WaitKeepsHistory(s, e);
        ScanKeepsWaits(s, e);
      }
    }
  }

  ghost predicate StepsTo(s: State, e: Event, t: State) {
    Enabled(s, e) && t == Next(s, e)
  }

  /** userinit: init alone, with pid 1. */
  ghost predicate Boot(s: State) {
    && INIT < |s.procs| == |s.at| && s.waitLock == None && s.nextpid == 2 && s.exited == {} && s.reaped == []
    && s.procs[INIT] == Proc(RUNNABLE, None, 1)
    && (forall i :: 0 <= i < |s.at| ==> s.at[i] == Elsewhere)
    && (forall i :: 0 <= i < |s.procs| && i != INIT ==> s.procs[i] == FREED)
  }

  ghost predicate Run(states: seq<State>, events: seq<Event>) {
    && |states| == |events| + 1 && Boot(states[0])
    && forall k :: 0 <= k < |events| ==> StepsTo(states[k], events[k], states[k + 1])
  }

  lemma {:induction false} RunKeeps(states: seq<State>, events: seq<Event>, k: nat)
    requires Run(states, events) && k <= |events|
    ensures Inv(states[k])
  {
    if k > 0 {
      RunKeeps(states, events, k - 1);
      assert StepsTo(states[k - 1], events[k - 1], states[k]);
      StepKeeps(states[k - 1], events[k - 1]);
    }
  }

  /** In every reachable state each process but init has a parent that is neither a zombie nor unused. */
  lemma NoOrphans(states: seq<State>, events: seq<Event>, k: nat, i: Slot)
    requires Run(states, events) && k <= |events| && i < |states[k].procs| && i != INIT
    requires states[k].procs[i].state in {RUNNABLE, RUNNING, SLEEPING, ZOMBIE}
    ensures var procs := states[k].procs;
            procs[i].parent.Some? && procs[i].parent.value < |procs| && Live(procs[procs[i].parent.value].state)
  {
    RunKeeps(states, events, k);
    assert HasLivingParent(states[k].procs, i);
  }

  /** A successful kwait returns the pid of a zombie child of its caller; no pid is ever returned twice. */
  lemma ReapedOnce(states: seq<State>, events: seq<Event>, k: nat)
    requires Run(states, events) && k < |events| && events[k].Reap? && events[k].copied
    ensures var s, t, p := states[k], states[k + 1], events[k].p;
            && |t.reaped| == |s.reaped| + 1 && t.reaped[|s.reaped|].1 == p
            && var pid := t.reaped[|s.reaped|].0;
               && (exists i :: 0 <= i < |s.procs| && s.procs[i] == Proc(ZOMBIE, Some(p), pid))
               && pid in s.exited && (forall j :: 0 <= j < |s.reaped| ==> s.reaped[j].0 != pid)
               && (forall i :: 0 <= i < |t.procs| && t.procs[i].state != UNUSED ==> t.procs[i].pid != pid)
  {
    RunKeeps(states, events, k);
    RunKeeps(states, events, k + 1);
    var s := states[k];
    assert StepsTo(s, events[k], states[k + 1]);
    var i := s.at[events[k].p].next;
    assert s.procs[i] == Proc(ZOMBIE, Some(events[k].p), s.procs[i].pid);
  }

  /** kwait gives up exactly if its caller has no child at all or was killed; else it sleeps. wait_lock is free then. */
  lemma WaitReturns(states: seq<State>, events: seq<Event>, k: nat)
    requires Run(states, events) && k < |events| && events[k].ScanEnd?
    ensures var s, t, p := states[k], states[k + 1], events[k].p;
            && t.waitLock == None && p < |t.at| == |t.procs|
            && (t.at[p] == Elsewhere <==> events[k].killed || !KidBelow(s.procs, p, |s.procs|))
            && (t.at[p] != Elsewhere ==> t.at[p] == WaitSleeping && t.procs[p].state == SLEEPING)
  {
    RunKeeps(states, events, k);
    assert StepsTo(states[k], events[k], states[k + 1]);
    assert WaitOk(states[k].procs, states[k].at, events[k].p);
    KidAll(states[k].procs, events[k].p, states[k].at[events[k].p].next);
  }

  lemma KidAll(procs: seq<Proc>, p: Slot, n: nat)
    requires n >= |procs|
    ensures KidBelow(procs, p, n) <==> KidBelow(procs, p, |procs|)
  {
  }

  /** Nobody sleeps in kwait without a child, or over a child that has exited. */
  lemma NoMissedExit(states: seq<State>, events: seq<Event>, k: nat, p: Slot, i: Slot)
    requires Run(states, events) && k <= |events|
    requires p < |states[k].procs| && i < |states[k].procs| && p < |states[k].at|
    requires states[k].at[p] == WaitSleeping && states[k].procs[p].state == SLEEPING
    ensures KidBelow(states[k].procs, p, |states[k].procs|)
    ensures !(states[k].procs[i].parent == Some(p) && states[k].procs[i].state == ZOMBIE)
  {
    RunKeeps(states, events, k);
    assert WaitOk(states[k].procs, states[k].at, p) && NotReapable(states[k].procs, p, i);
  }

  /** A failed copyout leaves the child to be waited for again. */
  lemma FailedCopyKeepsChild(states: seq<State>, events: seq<Event>, k: nat)
    requires Run(states, events) && k < |events| && events[k].Reap? && !events[k].copied
    ensures var s, t, p := states[k], states[k + 1], events[k].p;
            t.procs == s.procs && t.reaped == s.reaped && t.waitLock == None && p < |t.at| && t.at[p] == Elsewhere
  {
    assert StepsTo(states[k], events[k], states[k + 1]);
  }

  function Allocations(events: seq<Event>): (n: nat) {
    if events == [] then 0
    else Allocations(events[..|events| - 1]) + (if events[|events| - 1].ForkAlloc? then 1 else 0)
  }

  /** Pids are given out one after the other: the next one counts the processes allocated so far, init among them. */
  lemma {:induction false} PidsConsecutive(states: seq<State>, events: seq<Event>, k: nat)
    requires Run(states, events) && k <= |events|
    ensures states[k].nextpid == 2 + Allocations(events[..k])
    ensures k < |events| && events[k].ForkAlloc? ==>
              var t, np := states[k + 1], events[k].np;
              np < |t.procs| && t.procs[np] == Proc(USED, None, 2 + Allocations(events[..k]))
  {
    if k < |events| { assert StepsTo(states[k], events[k], states[k + 1]); }
    if k > 0 {
      PidsConsecutive(states, events, k - 1);
      assert StepsTo(states[k - 1], events[k - 1], states[k]);
      assert events[..k][..k - 1] == events[..k - 1];
    }
  }

  /** fork's child starts RUNNABLE, with its forker as parent and the pid it was given. */
  lemma ForkMakesChild(states: seq<State>, events: seq<Event>, k: nat)
    requires Run(states, events) && k < |events| && events[k].ForkRun?
    ensures var s, t, p := states[k], states[k + 1], events[k].p;
            && p < |s.at| && s.at[p].Linked? && s.at[p].np < |s.procs| == |t.procs|
            && t.procs[s.at[p].np] == Proc(RUNNABLE, Some(p), s.procs[s.at[p].np].pid)
            && (forall j :: 0 <= j < |s.procs| && j != s.at[p].np ==> t.procs[j] == s.procs[j])
  {
    RunKeeps(states, events, k);
    assert StepsTo(states[k], events[k], states[k + 1]);
    assert ChildOk(states[k].procs, states[k].at, events[k].p);
  }

  /** While p gives its children away, each is still p's or already init's. */
  ghost predicate GivingAway(s: State, p: Slot, i: Slot) {
    && p < |s.at| == |s.procs| && i < |s.procs| && s.at[p].Reparenting?
    && s.procs[i].parent == Some(if i < s.at[p].next then INIT else p)
  }

  lemma ForkLeavesOthers(s: State, e: Event, p: Slot, i: Slot)
    requires Control(s) && Enabled(s, e) && IsFork(e) && GivingAway(s, p, i)
    ensures GivingAway(Next(s, e), p, i)
  {
    assert ChildOk(s.procs, s.at, e.p);
    assert s.waitLock == Some(p);
  }

  lemma ExitGoesOn(s: State, e: Event, p: Slot, i: Slot)
    requires Control(s) && Enabled(s, e) && !IsFork(e) && GivingAway(s, p, i)
    ensures if e == ExitDone(p) then i < |Next(s, e).procs| && Next(s, e).procs[i].parent == Some(INIT)
            else GivingAway(Next(s, e), p, i)
  {
    hide Points, Forks;
    assert s.waitLock == Some(p);
    assert e.p == p;
  }

  lemma GivesAway(s: State, e: Event, p: Slot, i: Slot)
    requires Inv(s) && Enabled(s, e) && GivingAway(s, p, i)
    ensures if e == ExitDone(p) then i < |Next(s, e).procs| && Next(s, e).procs[i].parent == Some(INIT)
            else GivingAway(Next(s, e), p, i)
  {
    hide Tree, Pids, History, Waits, Points, Forks, Scans, GivingAway, Enabled, Next;
    if IsFork(e) { ForkLeavesOthers(s, e, p, i); } else { ExitGoesOn(s, e, p, i); }
  }

  /** exit hands every child it finds to init. */
  lemma {:induction false} ExitHandsOver(states: seq<State>, events: seq<Event>, p: Slot, i: Slot, a: nat, b: nat)
    requires Run(states, events) && a < b <= |events| && events[a] == ExitLock(p) && ExitDone(p) !in events[a..b]
    requires i < |states[a].procs| && states[a].procs[i].parent == Some(p)
    ensures GivingAway(states[b], p, i)
    ensures b < |events| && events[b] == ExitDone(p) ==>
              i < |states[b + 1].procs| && states[b + 1].procs[i].parent == Some(INIT)
    decreases b
  {
    hide Inv, GivingAway, Enabled, Next;
    var k := b - 1;
    RunKeeps(states, events, k);
    assert StepsTo(states[k], events[k], states[b]);
    if k == a {
      GivesFirst(states[a], p, i);
    } else {
      assert events[a..b][..k - a] == events[a..k] && events[a..b][k - a] == events[k];
      ExitHandsOver(states, events, p, i, a, k);
      GivesAway(states[k], events[k], p, i);
    }
    if b < |events| && events[b] == ExitDone(p) {
      RunKeeps(states, events, b);
      assert StepsTo(states[b], events[b], states[b + 1]);
      GivesAway(states[b], events[b], p, i);
    }
  }

  lemma GivesFirst(s: State, p: Slot, i: Slot)
    requires Enabled(s, ExitLock(p)) && i < |s.procs| && s.procs[i].parent == Some(p)
    ensures GivingAway(Next(s, ExitLock(p)), p, i)
  {
  }

  /** Whoever holds wait_lock can go on, by the one step that its place in the scan calls for. */
  lemma LockHolderSteps(states: seq<State>, events: seq<Event>, k: nat, p: Slot, flag: bool)
    requires Run(states, events) && k <= |events| && states[k].waitLock == Some(p) && p < |states[k].at|
    ensures var s := states[k];
            && (s.at[p].Reparenting? || s.at[p].Scanning?)
            && (s.at[p].Reparenting? ==> && (Enabled(s, ReparentOne(p)) <==> s.at[p].next < |s.procs|)
                                         && (Enabled(s, ExitDone(p)) <==> s.at[p].next >= |s.procs|))
            && (s.at[p].Scanning? ==>
                  if s.at[p].next >= |s.procs| then Enabled(s, ScanEnd(p, flag))
                  else if s.procs[s.at[p].next].parent == Some(p) && s.procs[s.at[p].next].state == ZOMBIE
                  then Enabled(s, Reap(p, flag)) else Enabled(s, ScanOne(p)))
  {
    RunKeeps(states, events, k);
  }

  /** A running process in fork can go on as soon as wait_lock is free, and can start exit or wait then. */
  lemma RunnerSteps(states: seq<State>, events: seq<Event>, k: nat, p: Slot)
    requires Run(states, events) && k <= |events| && p < |states[k].procs| && states[k].procs[p].state == RUNNING
    ensures var s := states[k];
            && p < |s.at|
            && (s.at[p].Forking? ==> Enabled(s, ForkFail(p)) && (s.waitLock == None ==> Enabled(s, ForkLink(p))))
            && (s.at[p].Linked? ==> Enabled(s, ForkRun(p)))
            && (s.at[p] == Elsewhere && s.waitLock == None ==>
                  Enabled(s, WaitLock(p)) && (p != INIT ==> Enabled(s, ExitLock(p))))
            && (s.at[p] == WaitSleeping && s.waitLock == None ==> Enabled(s, WaitLock(p)))
  {
    RunKeeps(states, events, k);
    assert ChildOk(states[k].procs, states[k].at, p);
  }

  /** The scheduler, sleep and wakeup move a process between the live states and touch nothing else. */
  lemma ScheduleMoves(s: State, p: Slot, r: RunState)
    requires Inv(s) && p < |s.procs| && Live(s.procs[p].state) && s.waitLock != Some(p) && Live(r)
    requires r == SLEEPING ==> s.at[p] != WaitSleeping
    ensures Enabled(s, Schedule(p, r)) && Next(s, Schedule(p, r)) == s.(procs := s.procs[p := s.procs[p].(state := r)])
  {
  }
}
