/** The multilevel feedback queue scheduler of kernel/proc.c, on one CPU. */
module Mlfq {
  import opened Common

  const NQUEUES: nat := 4
  const PROMO_THRESHOLD: nat := 10

  datatype RunState = UNUSED | USED | SLEEPING | RUNNABLE | RUNNING | ZOMBIE

  datatype Proc = Proc(state: RunState, level: nat, priority: nat, ticksUsed: nat, waited: nat, maxSlice: nat,
                       yielded: bool)

  /** `get_time_slice` */
  function Slice(level: nat): (ticks: nat) {
    match level
    case 0 => 4
    case 1 => 8
    case 2 => 16
    case _ => 32
  }

  predicate HasToDemote(p: Proc) {
    p.ticksUsed >= p.maxSlice
  }

  function AtLevel(p: Proc, level: nat): (q: Proc) {
    p.(level := level, priority := level, maxSlice := Slice(level), ticksUsed := 0, waited := 0)
  }

  /** The promotion check of one process at the head of a scheduler pass. */
  function Promoted(p: Proc): (q: Proc) {
    if p.state != RUNNABLE then p
    else if p.waited + 1 >= Slice(p.level) * PROMO_THRESHOLD && p.level > 0 then AtLevel(p, p.level - 1)
    else p.(waited := p.waited + 1)
  }

  function PromotedAll(procs: seq<Proc>): (r: seq<Proc>)
    ensures |r| == |procs|
    ensures forall i :: 0 <= i < |procs| ==> r[i] == Promoted(procs[i])
  {
    seq(|procs|, i requires 0 <= i < |procs| => Promoted(procs[i]))
  }

  /** Places from round-robin index `from` to table entry `to`, going up and round. */
  function Distance(from: nat, to: nat, n: nat): (d: nat)
    requires from < n && to < n
    ensures d < n
  {
    if from <= to then to - from else to + n - from
  }

  predicate Ready(procs: seq<Proc>, i: nat, q: nat) {
    i < |procs| && procs[i].state == RUNNABLE && procs[i].level == q
  }

  ghost predicate NoneReady(procs: seq<Proc>, q: nat) {
    forall i :: 0 <= i < |procs| ==> !Ready(procs, i, q)
  }

  /**
   * Entry i is what the scheduler must choose: no process is ready at a better level, and none of its level comes
   * sooner after the round-robin index.
   */
  ghost predicate Chosen(procs: seq<Proc>, last: seq<nat>, i: nat) {
    && i < |procs| && procs[i].state == RUNNABLE && procs[i].level < |last| && last[procs[i].level] < |procs|
    && (forall q :: 0 <= q < procs[i].level ==> NoneReady(procs, q))
    && (forall j :: 0 <= j < |procs| && Ready(procs, j, procs[i].level) ==>
          Distance(last[procs[i].level], i, |procs|) <= Distance(last[procs[i].level], j, |procs|))
  }

  lemma ChosenIsUnique(procs: seq<Proc>, last: seq<nat>, i: nat, j: nat)
    requires Chosen(procs, last, i) && Chosen(procs, last, j)
    ensures i == j
  {
    var p, q := procs[i].level, procs[j].level;
    assert Ready(procs, i, p) && Ready(procs, j, q);
    assert !NoneReady(procs, p) && !NoneReady(procs, q);
    assert p == q;
    SameDistance(last[p], i, |procs|);
  }

  ghost predicate GoodIndices(last: seq<nat>, n: nat) {
    |last| == NQUEUES && forall q :: 0 <= q < NQUEUES ==> last[q] < n
  }

  function Demoted(p: Proc): (q: Proc) {
    if !p.yielded && HasToDemote(p) && p.level < NQUEUES - 1 then AtLevel(p, p.level + 1) else p
  }

  lemma Wraps(start: nat, k: nat, n: nat)
    requires start < n && k < n
    ensures var idx := (start + k) % n; idx < n && Distance(start, idx, n) == k
  {
    if start + k >= n {
      assert (start + k) % n == start + k - n by { ModSub(start + k, n); }
    }
  }

  lemma ModSub(x: nat, n: nat)
    requires n <= x < 2 * n
    ensures x % n == x - n
  {
  }

  lemma SameDistance(start: nat, idx: nat, n: nat)
    requires start < n && idx < n
    ensures forall j :: 0 <= j < n && Distance(start, j, n) == Distance(start, idx, n) ==> j == idx
  {
  }

  // Bounded waiting.

  /** What the scheduler sees at the head of a pass. */
  datatype View = View(procs: seq<Proc>, last: seq<nat>)

  /**
   * One pass that does not dispatch process v: the table is promoted, something else or nothing is chosen, and until
   * the next pass the rest of the table changes in any way at all. Nobody else touches v while it is RUNNABLE.
   */
  ghost predicate PassedOver(s: View, t: View, v: nat) {
    var procs := PromotedAll(s.procs);
    && v < |s.procs| == |t.procs| && t.procs[v] == procs[v]
    && ((t.last == s.last && forall q :: 0 <= q < NQUEUES ==> NoneReady(procs, q))
        || exists c: nat :: ChosenOther(s, t, v, c))
  }

  ghost predicate ChosenOther(s: View, t: View, v: nat, c: nat) {
    var procs := PromotedAll(s.procs);
    c != v && Chosen(procs, s.last, c) && t.last == s.last[procs[c].level := (c + 1) % |procs|]
  }

  /** Passes until promotion to level 0 from level `level`, after `waited` passes there. */
  function Credit(level: nat, waited: nat): nat
    requires level < NQUEUES
  {
    if level == 0 then 0
    else
      var full := Slice(level) * PROMO_THRESHOLD;
      (if waited + 1 < full then full - waited else 1) + Credit(level - 1, 0)
  }

  /** Promotion credit, then the way the round-robin index has to go to reach v. */
  function Patience(s: View, v: nat): nat
    requires v < |s.procs| && s.procs[v].level < NQUEUES && GoodIndices(s.last, |s.procs|)
  {
    var p := s.procs[v];
    Credit(p.level, p.waited) + (if p.level == 0 then Distance(s.last[0], v, |s.procs|) + 1 else |s.procs|)
  }

  lemma CreditBound(level: nat, waited: nat)
    requires level < NQUEUES
    ensures Credit(level, waited) <= PROMO_THRESHOLD * (32 + 16 + 8)
  {
    assert Credit(0, 0) == 0 && Credit(1, 0) == 80 && Credit(2, 0) == 240 && Credit(3, 0) == 560;
    if level > 0 {
      assert Credit(level, waited) <= Credit(level, 0);
    }
  }

  lemma IndexPasses(last: nat, c: nat, v: nat, n: nat)
    requires last < n && c < n && v < n && c != v && Distance(last, c, n) <= Distance(last, v, n)
    ensures (c + 1) % n < n && Distance((c + 1) % n, v, n) < Distance(last, v, n)
  {
    Quotient(c + 1, if c + 1 == n then 1 else 0, if c + 1 == n then 0 else c + 1, n);
  }

  /** The promotion loop uses up credit. */
  lemma PromotionSpendsCredit(p: Proc)
    requires p.state == RUNNABLE && p.level < NQUEUES
    ensures var q := Promoted(p);
            && q.state == RUNNABLE && q.level <= p.level
            && (p.level > 0 ==> Credit(q.level, q.waited) < Credit(p.level, p.waited))
  {
  }

  /** Being passed over always costs patience. */
  lemma PatienceShrinks(s: View, t: View, v: nat)
    requires GoodIndices(s.last, |s.procs|) && PassedOver(s, t, v)
    requires s.procs[v].state == RUNNABLE && s.procs[v].level < NQUEUES
    ensures GoodIndices(t.last, |t.procs|) && t.procs[v].state == RUNNABLE && t.procs[v].level < NQUEUES
    ensures Patience(t, v) < Patience(s, v)
  {
    PromotionSpendsCredit(s.procs[v]);
    var c := SomethingChosen(s, t, v);
    hide Credit, Promoted;
    if t.procs[v].level == 0 {
      IndexPasses(s.last[0], c, v, |s.procs|);
    }
  }

  lemma SomethingChosen(s: View, t: View, v: nat) returns (c: nat)
    requires GoodIndices(s.last, |s.procs|) && PassedOver(s, t, v)
    requires s.procs[v].state == RUNNABLE && s.procs[v].level < NQUEUES
    ensures GoodIndices(t.last, |t.procs|) && c < |s.procs| && c != v
    ensures t.procs[v].level == 0 ==> t.last[0] == (c + 1) % |s.procs|
                                      && Distance(s.last[0], c, |s.procs|) <= Distance(s.last[0], v, |s.procs|)
  {
    var procs := PromotedAll(s.procs);
    var q := procs[v].level;
    assert q < NQUEUES && Ready(procs, v, q);
    assert !NoneReady(procs, q);
    c :| ChosenOther(s, t, v, c);
    assert (c + 1) % |procs| < |procs|;
  }

  ghost predicate AlwaysPassedOver(views: seq<View>, v: nat) {
    forall k :: 0 <= k < |views| - 1 ==> PassedOver(views[k], views[k + 1], v)
  }

  /**
   * Whatever the others do, a RUNNABLE process is not passed over 10 * (32 + 16 + 8) + NPROC times in a row; one that
   * waits at level 0 is not passed over NPROC times.
   */
  lemma {:induction false} BoundedWaiting(views: seq<View>, v: nat)
    requires |views| > 0 && GoodIndices(views[0].last, |views[0].procs|) && AlwaysPassedOver(views, v)
    requires v < |views[0].procs| && views[0].procs[v].state == RUNNABLE && views[0].procs[v].level < NQUEUES
    ensures |views| - 1 < PROMO_THRESHOLD * (32 + 16 + 8) + |views[0].procs|
    ensures views[0].procs[v].level == 0 ==> |views| - 1 < |views[0].procs|
  {
    PassesBounded(views, v);
    CreditBound(views[0].procs[v].level, views[0].procs[v].waited);
  }

  lemma {:induction false} PassesBounded(views: seq<View>, v: nat)
    requires |views| > 0 && GoodIndices(views[0].last, |views[0].procs|) && AlwaysPassedOver(views, v)
    requires v < |views[0].procs| && views[0].procs[v].state == RUNNABLE && views[0].procs[v].level < NQUEUES
    ensures |views| - 1 < Patience(views[0], v)
    decreases |views|
  {
    if |views| > 1 {
      assert PassedOver(views[0], views[1], v);
      PatienceShrinks(views[0], views[1], v);
      var rest := views[1..];
      forall k | 0 <= k < |rest| - 1 ensures PassedOver(rest[k], rest[k + 1], v) {
        assert PassedOver(views[k + 1], views[k + 1 + 1], v);
      }
      PassesBounded(rest, v);
    }
  }

  // Whole runs of the process table.

  /** `cpu` is the process the scheduler has switched to and that has not come back yet. */
  datatype State = State(procs: seq<Proc>, last: seq<nat>, cpu: Option<nat>)

  datatype Event =
    | Alloc(i: nat)               // allocproc
    | Fork(parent: nat, i: nat)   // kfork copies the scheduling fields
    | MakeReady(i: nat)           // userinit, or the end of kfork
    | Free(i: nat)                // freeproc, of an unfinished or an exited process
    | Tick                        // kerneltrap on a timer interrupt
    | Yield | Sleep | Exit        // the running process gives up the CPU
    | Wakeup(i: nat)              // wakeup or kkill
    | Idle                        // a pass that finds nothing to run
    | Pass(i: nat)                // a pass that chooses and dispatches i
    | Back                        // the chosen process is back in the scheduler

  predicate Running(s: State) {
    s.cpu.Some? && s.cpu.value < |s.procs| && s.procs[s.cpu.value].state == RUNNING
  }

  ghost predicate Enabled(s: State, e: Event) {
    match e
    case Alloc(i) => i < |s.procs| && s.procs[i].state == UNUSED
    case Fork(parent, i) => i < |s.procs| && s.procs[i].state == USED && Running(s) && parent == s.cpu.value
    case MakeReady(i) => i < |s.procs| && s.procs[i].state == USED
    case Free(i) => i < |s.procs| && s.procs[i].state in {USED, ZOMBIE} && s.cpu != Some(i)
    case Tick => Running(s)
    case Yield => Running(s)
    case Sleep => Running(s)
    case Exit => Running(s)
    case Wakeup(i) => i < |s.procs| && s.procs[i].state == SLEEPING && s.cpu != Some(i)
    case Idle => s.cpu.None? && forall q :: 0 <= q < NQUEUES ==> NoneReady(PromotedAll(s.procs), q)
    case Pass(i) => s.cpu.None? && Chosen(PromotedAll(s.procs), s.last, i)
    case Back => s.cpu.Some? && s.cpu.value < |s.procs| && !Running(s)
  }

  ghost function Next(s: State, e: Event): (t: State)
    requires Enabled(s, e)
  {
    match e
    case Alloc(i) => s.(procs := s.procs[i := Proc(USED, 0, 0, 0, 0, Slice(0), false)])
    case Fork(parent, i) =>
      var p := s.procs[parent];
      s.(procs := s.procs[i := Proc(USED, p.level, p.priority, 0, 0, Slice(p.level), false)])
    case MakeReady(i) => s.(procs := s.procs[i := s.procs[i].(state := RUNNABLE)])
    case Free(i) => s.(procs := s.procs[i := Proc(UNUSED, 0, 0, 0, 0, s.procs[i].maxSlice, false)])
    case Tick => var i := s.cpu.value; s.(procs := s.procs[i := s.procs[i].(ticksUsed := s.procs[i].ticksUsed + 1)])
    case Yield => var i := s.cpu.value; s.(procs := s.procs[i := s.procs[i].(state := RUNNABLE, yielded := true)])
    case Sleep => var i := s.cpu.value; s.(procs := s.procs[i := s.procs[i].(state := SLEEPING, yielded := true)])
    case Exit => var i := s.cpu.value; s.(procs := s.procs[i := s.procs[i].(state := ZOMBIE)])
    case Wakeup(i) => s.(procs := s.procs[i := s.procs[i].(state := RUNNABLE)])
    case Idle => s.(procs := PromotedAll(s.procs))
    case Pass(i) =>
      var procs := PromotedAll(s.procs);
      State(procs[i := procs[i].(state := RUNNING, yielded := false)],
            s.last[procs[i].level := (i + 1) % |procs|], Some(i))
    case Back => var i := s.cpu.value; s.(procs := s.procs[i := Demoted(s.procs[i])], cpu := None)
  }

  /** Level, priority and slice of a process in use agree, and promotion is never overdue. */
  predicate FieldsOk(p: Proc) {
    p.state != UNUSED ==>
      && p.level < NQUEUES && p.priority == p.level && p.maxSlice == Slice(p.level)
      && (p.level > 0 ==> p.waited < PROMO_THRESHOLD * Slice(p.level))
  }

  ghost predicate Inv(s: State) {
    && |s.procs| > 0 && GoodIndices(s.last, |s.procs|)
    && (forall i :: 0 <= i < |s.procs| ==> FieldsOk(s.procs[i]))
    && (s.cpu.Some? ==> s.cpu.value < |s.procs| && s.procs[s.cpu.value].state !in {UNUSED, USED})
    && (forall i :: 0 <= i < |s.procs| && s.procs[i].state == RUNNING ==> s.cpu == Some(i))
  }

  lemma PromotionKeeps(p: Proc)
    requires FieldsOk(p)
    ensures FieldsOk(Promoted(p)) && Promoted(p).state == p.state
  {
  }

  lemma StepKeeps(s: State, e: Event)
    requires Inv(s) && Enabled(s, e)
    ensures Inv(Next(s, e))
  {
    hide Promoted, Distance;
    forall i | 0 <= i < |s.procs|
      ensures FieldsOk(Promoted(s.procs[i])) && Promoted(s.procs[i]).state == s.procs[i].state {
      PromotionKeeps(s.procs[i]);
    }
  }

  /** The dispatched process has the least level of all that are ready. */
  lemma DispatchesLeastLevel(s: State, i: nat, j: nat)
    requires Inv(s) && Enabled(s, Pass(i)) && j < |s.procs|
    requires var procs := PromotedAll(s.procs); procs[j].state == RUNNABLE
    ensures PromotedAll(s.procs)[i].level <= PromotedAll(s.procs)[j].level
  {
    var procs := PromotedAll(s.procs);
    assert Ready(procs, j, procs[j].level);
    assert !NoneReady(procs, procs[j].level);
  }

  ghost predicate StepsTo(s: State, e: Event, t: State) {
    Enabled(s, e) && t == Next(s, e)
  }

  ghost predicate Run(states: seq<State>, events: seq<Event>) {
    && |states| == |events| + 1
    && forall k :: 0 <= k < |events| ==> StepsTo(states[k], events[k], states[k + 1])
  }

  /** `procinit`: an empty table and round-robin indices at INIT_RR_INDEX. */
  ghost predicate Boot(s: State) {
    && |s.procs| > 0 && s.cpu == None && s.last == [0, 0, 0, 0]
    && forall i :: 0 <= i < |s.procs| ==> s.procs[i].state == UNUSED
  }

  /** The scheduler's code, whose passes and returns are the steps of the machine. */
  class Scheduler {
    var procs: seq<Proc>
    var last: seq<nat>     // rr_state[cpu].last_queued_proc
    var cpu: Option<nat>   // c->proc

    ghost function Now(): State
      reads this
    {
      State(procs, last, cpu)
    }

    ghost predicate Valid()
      reads this
    {
      Inv(Now())
    }

    constructor (entries: seq<Proc>)
      requires |entries| > 0 && forall i :: 0 <= i < |entries| ==> entries[i].state == UNUSED
      ensures Boot(Now()) && Valid() && procs == entries
    {
      procs, last, cpu := entries, [0, 0, 0, 0], None;
    }

    /** The promotion loop. */
    method PromotionPass()
      modifies this`procs
      ensures procs == PromotedAll(old(procs))
    {
      var i := 0;
      while i < |procs|
        invariant 0 <= i <= |procs| == |old(procs)|
        invariant forall j :: 0 <= j < i ==> procs[j] == Promoted(old(procs)[j])
        invariant forall j :: i <= j < |procs| ==> procs[j] == old(procs)[j]
      {
        var p := procs[i];
        if p.state == RUNNABLE {
          p := p.(waited := p.waited + 1);
          var levelSlice := Slice(p.level);
          if p.waited >= levelSlice * PROMO_THRESHOLD && p.level > 0 {
            p := p.(level := p.level - 1);
            p := p.(priority := p.level, maxSlice := Slice(p.level), ticksUsed := 0, waited := 0);
          }
          procs := procs[i := p];
        }
        i := i + 1;
      }
    }

    /** The selection loops: by level, and round-robin within a level. */
    method Select() returns (chosen: Option<nat>)
      requires |procs| > 0 && GoodIndices(last, |procs|)
      modifies this`last
      ensures GoodIndices(last, |procs|)
      ensures chosen.None? ==> last == old(last) && forall q :: 0 <= q < NQUEUES ==> NoneReady(procs, q)
      ensures chosen.Some? ==> Chosen(procs, old(last), chosen.value)
                               && last == old(last)[procs[chosen.value].level := (chosen.value + 1) % |procs|]
    {
      var q := 0;
      while q < NQUEUES
        invariant 0 <= q <= NQUEUES && last == old(last)
        invariant forall r :: 0 <= r < q ==> NoneReady(procs, r)
      {
        var startIndex, checked := last[q], 0;
        while checked < |procs|
          invariant 0 <= checked <= |procs| && last == old(last)
          invariant forall j :: 0 <= j < |procs| && Distance(startIndex, j, |procs|) < checked ==> !Ready(procs, j, q)
        {
          var idx := (startIndex + checked) % |procs|;
          Wraps(startIndex, checked, |procs|);
          if procs[idx].state == RUNNABLE && procs[idx].level == q {
            last := last[q := (idx + 1) % |procs|];
            return Some(idx);
          }
          SameDistance(startIndex, idx, |procs|);
          checked := checked + 1;
        }
        assert NoneReady(procs, q);
        q := q + 1;
      }
      return None;
    }

    /** A pass of the scheduler up to the switch: promotion, choice and dispatch are one step of the machine. */
    method Schedule() returns (chosen: Option<nat>)
      requires Valid() && cpu.None?
      modifies this
      ensures Valid() && chosen == cpu
      ensures StepsTo(old(Now()), if chosen.Some? then Pass(chosen.value) else Idle, Now())
    {
      hide Promoted, Distance;
      ghost var s := Now();
      PromotionPass();
      chosen := Select();
      if chosen.Some? {
        procs := procs[chosen.value := procs[chosen.value].(state := RUNNING, yielded := false)];
        cpu := chosen;
      }
      StepKeeps(s, if chosen.Some? then Pass(chosen.value) else Idle);
    }

    /** The rest of the pass, when the dispatched process is back: the demotion check is a step of the machine too. */
    method ComesBack()
      requires Valid() && cpu.Some? && !Running(Now())
      modifies this
      ensures Valid() && cpu.None? && StepsTo(old(Now()), Back, Now())
      ensures var i := old(cpu.value);
              && i < |procs| == old(|procs|)
              && (procs[i].level > old(procs[i].level) <==>
                    old(!procs[i].yielded && procs[i].ticksUsed >= Slice(procs[i].level)
                        && procs[i].level < NQUEUES - 1))
              && procs[i] == (if procs[i].level == old(procs[i].level) then old(procs[i])
                              else Proc(old(procs[i].state), old(procs[i].level) + 1, old(procs[i].level) + 1, 0, 0,
                                        Slice(old(procs[i].level) + 1), false))
    {
      ghost var s := Now();
      var i := cpu.value;
      cpu := None;
      var p := procs[i];
      if !p.yielded && HasToDemote(p) && p.level < NQUEUES - 1 {
        p := p.(level := p.level + 1);
        p := p.(priority := p.level, maxSlice := Slice(p.level), ticksUsed := 0, waited := 0);
      }
      procs := procs[i := p];
      StepKeeps(s, Back);
    }
  }

  lemma {:induction false} RunKeeps(states: seq<State>, events: seq<Event>, k: nat)
    requires Run(states, events) && Boot(states[0]) && k <= |events|
    ensures Inv(states[k])
  {
    if k > 0 {
      RunKeeps(states, events, k - 1);
      assert StepsTo(states[k - 1], events[k - 1], states[k]);
      StepKeeps(states[k - 1], events[k - 1]);
    }
  }

  function Passes(events: seq<Event>): (n: nat) {
    if events == [] then 0
    else (if events[0].Pass? || events[0].Idle? then 1 else 0) + Passes(events[1..])
  }

  ghost predicate Waiting(s: State, v: nat) {
    Inv(s) && v < |s.procs| && s.procs[v].state == RUNNABLE && s.cpu != Some(v)
  }

  function ViewOf(s: State): View {
    View(s.procs, s.last)
  }

  /** A step that does not dispatch v leaves it waiting, and a scheduler pass costs it patience. */
  lemma WaitingStep(s: State, e: Event, v: nat)
    requires Waiting(s, v) && Enabled(s, e) && e != Pass(v)
    ensures var t := Next(s, e);
            && Waiting(t, v) && |t.procs| == |s.procs|
            && Patience(ViewOf(t), v) + Passes([e]) <= Patience(ViewOf(s), v)
  {
    var t := Next(s, e);
    StepKeeps(s, e);
    assert Passes([e]) == if e.Pass? || e.Idle? then 1 else 0 by { assert [e][1..] == []; }
    if e.Pass? {
      assert ChosenOther(ViewOf(s), ViewOf(t), v, e.i);
      PatienceShrinks(ViewOf(s), ViewOf(t), v);
    } else if e.Idle? {
      PatienceShrinks(ViewOf(s), ViewOf(t), v);
    } else {
      assert t.procs[v] == s.procs[v] && t.last == s.last;
    }
  }

  /** In any run in which a RUNNABLE process is not dispatched, the scheduler makes fewer passes than the bound. */
  lemma {:induction false} RunBoundedWaiting(states: seq<State>, events: seq<Event>, v: nat)
    requires Run(states, events) && Waiting(states[0], v) && Pass(v) !in events
    ensures Passes(events) < Patience(ViewOf(states[0]), v) <= PROMO_THRESHOLD * (32 + 16 + 8) + |states[0].procs|
    decreases |events|
  {
    CreditBound(states[0].procs[v].level, states[0].procs[v].waited);
    if events != [] {
      assert StepsTo(states[0], events[0], states[1]);
      WaitingStep(states[0], events[0], v);
      var states', events' := states[1..], events[1..];
      forall k | 0 <= k < |events'| ensures StepsTo(states'[k], events'[k], states'[k + 1]) {
        assert StepsTo(states[k + 1], events[k + 1], states[k + 1 + 1]);
      }
      RunBoundedWaiting(states', events', v);
      assert [events[0]][1..] == [];
    }
  }

  // Demotion.

  /** The yield flag of the dispatched process tells whether it has yielded or slept; an exit leaves it clear. */
  ghost predicate YieldsMarked(s: State) {
    s.cpu.Some? && s.cpu.value < |s.procs| ==>
      (s.procs[s.cpu.value].yielded <==> s.procs[s.cpu.value].state !in {RUNNING, ZOMBIE})
  }

  /** Nothing that can still run has left level 0. */
  ghost predicate AllAtTop(s: State) {
    forall i :: 0 <= i < |s.procs| && s.procs[i].state !in {UNUSED, ZOMBIE} ==> s.procs[i].level == 0
  }

  lemma TopStep(s: State, e: Event)
    requires Inv(s) && YieldsMarked(s) && AllAtTop(s) && Enabled(s, e)
    ensures YieldsMarked(Next(s, e)) && AllAtTop(Next(s, e))
  {
  }

  /**
   * From boot on, every process that is not a zombie is at level 0: a timer preemption goes through yield, which marks
   * it as voluntary, so the demotion check passes only for processes that have just exited.
   */
  lemma {:induction false} NoLiveProcessIsDemoted(states: seq<State>, events: seq<Event>, k: nat)
    requires Run(states, events) && Boot(states[0]) && k <= |events|
    ensures YieldsMarked(states[k]) && AllAtTop(states[k])
  {
    if k > 0 {
      NoLiveProcessIsDemoted(states, events, k - 1);
      RunKeeps(states, events, k - 1);
      assert StepsTo(states[k - 1], events[k - 1], states[k]);
      TopStep(states[k - 1], events[k - 1]);
    }
  }

  /** The exact condition of a demotion in a run: an expired slice, room below, and an exit, not a yield or a sleep. */
  lemma DemotedExactly(states: seq<State>, events: seq<Event>, k: nat)
    requires Run(states, events) && Boot(states[0]) && k < |events| && events[k] == Back
    ensures var s, t, i := states[k], states[k + 1], states[k].cpu.value;
            && i < |s.procs| && i < |t.procs|
            && (t.procs[i].level > s.procs[i].level <==>
                  s.procs[i].state == ZOMBIE && s.procs[i].ticksUsed >= Slice(s.procs[i].level)
                  && s.procs[i].level < NQUEUES - 1)
  {
    RunKeeps(states, events, k);
    NoLiveProcessIsDemoted(states, events, k);
    assert StepsTo(states[k], events[k], states[k + 1]);
  }

  /** A forked process starts at its parent's level with a slice of its own, nothing of it used. */
  lemma ForkStartsFresh(s: State, parent: nat, i: nat)
    requires Inv(s) && Enabled(s, Fork(parent, i))
    ensures var t, p := Next(s, Fork(parent, i)), s.procs[parent];
            && t.procs[i] == Proc(USED, p.level, p.level, 0, 0, Slice(p.level), false)
            && t.last == s.last && t.cpu == s.cpu
            && (forall j :: 0 <= j < |s.procs| && j != i ==> t.procs[j] == s.procs[j])
  {
    assert FieldsOk(s.procs[parent]);
  }

  lemma Then(states: seq<State>, events: seq<Event>, e: Event) returns (states': seq<State>, events': seq<Event>)
    requires Run(states, events) && Enabled(states[|events|], e)
    ensures Run(states', events') && events' == events + [e] && states'[..|states|] == states && states'[0] == states[0]
    ensures states'[|events'|] == Next(states[|events|], e)
  {
    hide Enabled, Next;
    states', events' := states + [Next(states[|events|], e)], events + [e];
    forall k | 0 <= k < |events'| ensures StepsTo(states'[k], events'[k], states'[k + 1]) {
      if k < |events| { assert StepsTo(states[k], events[k], states[k + 1]); }
    }
  }

  /** Entry 0 is on the CPU at level 0 and has used `ticks` ticks. */
  ghost predicate Solo(s: State, ticks: nat) {
    && |s.procs| > 0 && s.cpu == Some(0)
    && s.procs[0].state == RUNNING && s.procs[0].level == 0 && s.procs[0].maxSlice == 4 && s.procs[0].ticksUsed == ticks
  }

  lemma FirstDispatch(boot: State)
    requires Boot(boot)
    ensures Enabled(boot, Alloc(0))
    ensures var s := Next(boot, Alloc(0));
            && Enabled(s, MakeReady(0)) && Enabled(Next(s, MakeReady(0)), Pass(0))
            && Solo(Next(Next(s, MakeReady(0)), Pass(0)), 0)
  {
  }

  lemma TickStep(s: State, ticks: nat)
    requires Solo(s, ticks)
    ensures Enabled(s, Tick) && Solo(Next(s, Tick), ticks + 1)
  {
  }

  lemma YieldStep(s: State)
    requires Solo(s, Slice(0))
    ensures HasToDemote(s.procs[0]) && Enabled(s, Yield) && Enabled(Next(s, Yield), Back)
    ensures var t := Next(Next(s, Yield), Back); |t.procs| > 0 && t.procs[0].state == RUNNABLE && t.procs[0].level == 0
  {
  }

  /**
   * An expired slice without demotion, from every boot: the first process is dispatched, uses up its four ticks in the
   * kernel, is preempted by the timer in user mode, and is RUNNABLE at level 0 again.
   */
  lemma ExpiredSliceKeepsLevel(boot: State) returns (states: seq<State>, events: seq<Event>)
    requires Boot(boot)
    ensures Run(states, events) && states[0] == boot
    ensures events == [Alloc(0), MakeReady(0), Pass(0), Tick, Tick, Tick, Tick, Yield, Back]
    ensures |states[7].procs| > 0 && states[7].procs[0].state == RUNNING && HasToDemote(states[7].procs[0])
    ensures |states[9].procs| > 0 && states[9].procs[0].state == RUNNABLE && states[9].procs[0].level == 0
  {
    hide Enabled, Next, Boot, HasToDemote;
    states, events := [boot], [];
    FirstDispatch(boot);
    states, events := Then(states, events, Alloc(0));
    states, events := Then(states, events, MakeReady(0));
    states, events := Then(states, events, Pass(0));
    TickStep(states[3], 0);
    states, events := Then(states, events, Tick);
    TickStep(states[4], 1);
    states, events := Then(states, events, Tick);
    TickStep(states[5], 2);
    states, events := Then(states, events, Tick);
    TickStep(states[6], 3);
    states, events := Then(states, events, Tick);
    var s := states[7];
    YieldStep(s);
    states, events := Then(states, events, Yield);
    assert states[8] == Next(s, Yield);
    states, events := Then(states, events, Back);
    assert states[7] == s;
  }

  /** Entry 0 is the only one in use: it is `p`, and `c` has the CPU. */
  ghost predicate Alone(s: State, p: Proc, c: Option<nat>) {
    && |s.procs| > 0 && GoodIndices(s.last, |s.procs|) && s.procs[0] == p && s.cpu == c
    && forall i :: 0 < i < |s.procs| ==> s.procs[i].state == UNUSED
  }

  lemma AloneStarts(s: State, p: Proc, c: Option<nat>)
    requires Alone(s, p, c) && p.state == UNUSED
    ensures Enabled(s, Alloc(0)) && Alone(Next(s, Alloc(0)), Proc(USED, 0, 0, 0, 0, 4, false), c)
    ensures var t := Next(s, Alloc(0));
            Enabled(t, MakeReady(0)) && Alone(Next(t, MakeReady(0)), Proc(RUNNABLE, 0, 0, 0, 0, 4, false), c)
  {
  }

  lemma AloneRuns(s: State, p: Proc)
    requires Alone(s, p, None) && p.state == RUNNABLE && p.level == 0
    ensures Enabled(s, Pass(0))
    ensures Alone(Next(s, Pass(0)), p.(state := RUNNING, waited := p.waited + 1, yielded := false), Some(0))
  {
    var procs := PromotedAll(s.procs);
    forall j | 0 <= j < |procs| && Ready(procs, j, 0)
      ensures Distance(s.last[0], 0, |procs|) <= Distance(s.last[0], j, |procs|)
    {
      assert j == 0;
    }
    assert Chosen(procs, s.last, 0);
  }

  lemma AloneSleeps(s: State, p: Proc)
    requires Alone(s, p, Some(0)) && p.state == RUNNING && p.level == 0
    ensures Enabled(s, Sleep)
    ensures var t := Next(s, Sleep);
            && Enabled(t, Back)
            && var u := Next(t, Back);
            && Enabled(u, Wakeup(0)) && Alone(Next(u, Wakeup(0)), p.(state := RUNNABLE, yielded := true), None)
  {
  }

  lemma AloneTicks(s: State, p: Proc)
    requires Alone(s, p, Some(0)) && p.state == RUNNING
    ensures Enabled(s, Tick) && Alone(Next(s, Tick), p.(ticksUsed := p.ticksUsed + 1), Some(0))
  {
  }

  lemma AloneExits(s: State, p: Proc)
    requires Alone(s, p, Some(0)) && p.state == RUNNING && p.level == 0 && p.maxSlice == 4 == p.ticksUsed && !p.yielded
    ensures Enabled(s, Exit)
    ensures var t := Next(s, Exit);
            && Enabled(t, Back) && Alone(Next(t, Back), Proc(ZOMBIE, 1, 1, 0, 0, 8, false), None)
            && var u := Next(t, Back);
            && Enabled(u, Free(0)) && Alone(Next(u, Free(0)), Proc(UNUSED, 0, 0, 0, 0, 8, false), None)
  {
  }

  /**
   * A whole life, from every boot: a process is allocated, dispatched, sleeps and is woken at its level; it uses up its
   * slice, exits, is demoted, and its entry is free and blank again.
   */
  lemma WholeLife(boot: State) returns (states: seq<State>, events: seq<Event>)
    requires Boot(boot)
    ensures Run(states, events) && states[0] == boot
    ensures events == [Alloc(0), MakeReady(0), Pass(0), Sleep, Back, Wakeup(0), Pass(0), Tick, Tick, Tick, Tick, Exit,
                       Back, Free(0)]
    ensures Alone(states[1], Proc(USED, 0, 0, 0, 0, 4, false), None)
    ensures Alone(states[6], Proc(RUNNABLE, 0, 0, 0, 1, 4, true), None)
    ensures Alone(states[13], Proc(ZOMBIE, 1, 1, 0, 0, 8, false), None)
    ensures Alone(states[14], Proc(UNUSED, 0, 0, 0, 0, 8, false), None)
  {
    hide Enabled, Next, Alone;
    BootIsAlone(boot);
    states, events := [boot], [];
    AloneStarts(boot, boot.procs[0], None);
    states, events := Then(states, events, Alloc(0));
    states, events := Then(states, events, MakeReady(0));
    AloneRuns(states[2], Proc(RUNNABLE, 0, 0, 0, 0, 4, false));
    states, events := Then(states, events, Pass(0));
    AloneSleeps(states[3], Proc(RUNNING, 0, 0, 0, 1, 4, false));
    states, events := Then(states, events, Sleep);
    states, events := Then(states, events, Back);
    states, events := Then(states, events, Wakeup(0));
    AloneRuns(states[6], Proc(RUNNABLE, 0, 0, 0, 1, 4, true));
    states, events := Then(states, events, Pass(0));
    states, events := FourTicks(states, events, Proc(RUNNING, 0, 0, 0, 2, 4, false));
    AloneExits(states[11], Proc(RUNNING, 0, 0, 4, 2, 4, false));
    states, events := Then(states, events, Exit);
    states, events := Then(states, events, Back);
    states, events := Then(states, events, Free(0));
  }

  lemma BootIsAlone(s: State)
    requires Boot(s)
    ensures |s.procs| > 0 && s.procs[0].state == UNUSED && Alone(s, s.procs[0], None)
  {
  }

  lemma FourTicks(states: seq<State>, events: seq<Event>, p: Proc) returns (states': seq<State>, events': seq<Event>)
    requires Run(states, events) && Alone(states[|events|], p, Some(0)) && p.state == RUNNING
    ensures Run(states', events') && events' == events + [Tick, Tick, Tick, Tick]
    ensures states'[..|states|] == states && states'[0] == states[0]
    ensures Alone(states'[|events| + 4], p.(ticksUsed := p.ticksUsed + 4), Some(0))
  {
    hide Enabled, Next, Alone;
    var n := |events|;
    states', events' := states, events;
    AloneTicks(states'[n], p);
    states', events' := Then(states', events', Tick);
    AloneTicks(states'[n + 1], p.(ticksUsed := p.ticksUsed + 1));
    states', events' := Then(states', events', Tick);
    AloneTicks(states'[n + 2], p.(ticksUsed := p.ticksUsed + 2));
    states', events' := Then(states', events', Tick);
    AloneTicks(states'[n + 3], p.(ticksUsed := p.ticksUsed + 3));
    states', events' := Then(states', events', Tick);
  }

  // Promotion.

  /** `n` passes over a process nobody dispatches. */
  function Waited(p: Proc, n: nat): (q: Proc)
    decreases n
  {
    if n == 0 then p else Waited(Promoted(p), n - 1)
  }

  lemma WaitsStep(s: State, e: Event, v: nat, n: nat)
    requires Waiting(s, v) && Enabled(s, e) && e != Pass(v)
    ensures Waiting(Next(s, e), v) && Waited(Next(s, e).procs[v], n) == Waited(s.procs[v], Passes([e]) + n)
  {
    hide Promoted, Inv;
    WaitingStep(s, e, v);
    assert [e][1..] == [];
  }

  lemma WaitsNone(s: State, v: nat)
    requires Waiting(s, v)
    ensures v < |s.procs| && Waited(s.procs[v], 0) == s.procs[v]
  {
  }

  /** In a run that does not dispatch it, a waiting process changes by the scheduler's passes alone. */
  lemma {:induction false} RunWaits(states: seq<State>, events: seq<Event>, v: nat)
    requires Run(states, events) && Waiting(states[0], v) && Pass(v) !in events
    ensures v < |states[|events|].procs| && states[|events|].procs[v] == Waited(states[0].procs[v], Passes(events))
    decreases |events|
  {
    hide Enabled, Next, Waiting, Waited;
    if events == [] {
      WaitsNone(states[0], v);
    } else {
      assert StepsTo(states[0], events[0], states[1]);
      WaitsStep(states[0], events[0], v, Passes(events[1..]));
      var states', events' := states[1..], events[1..];
      forall k | 0 <= k < |events'| ensures StepsTo(states'[k], events'[k], states'[k + 1]) {
        assert StepsTo(states[k + 1], events[k + 1], states[k + 1 + 1]);
      }
      assert [events[0]][1..] == [];
      RunWaits(states', events', v);
    }
  }

  /** The promotion comes at the pass that makes the wait ten slices long, not before. */
  lemma {:induction false} PromotedExactly(p: Proc, n: nat)
    requires p.state == RUNNABLE && p.level > 0 && FieldsOk(p) && p.waited + n <= PROMO_THRESHOLD * Slice(p.level)
    ensures Waited(p, n) == if p.waited + n < PROMO_THRESHOLD * Slice(p.level) then p.(waited := p.waited + n)
                            else Proc(RUNNABLE, p.level - 1, p.level - 1, 0, 0, Slice(p.level - 1), p.yielded)
    decreases n
  {
    if n > 0 && p.waited + 1 < PROMO_THRESHOLD * Slice(p.level) { PromotedExactly(Promoted(p), n - 1); }
  }

  /** Level 0 is reached exactly when the credit is used up. */
  lemma {:induction false} TopExactly(p: Proc, n: nat)
    requires p.state == RUNNABLE && FieldsOk(p)
    ensures Waited(p, n).level == 0 <==> n >= Credit(p.level, p.waited)
    decreases n
  {
    if n > 0 {
      PromotionKeeps(p);
      TopExactly(Promoted(p), n - 1);
    }
  }

  /** Since from boot on no live process leaves level 0, no pass ever promotes one. */
  lemma NoPromotion(states: seq<State>, events: seq<Event>, k: nat, i: nat)
    requires Run(states, events) && Boot(states[0]) && k <= |events| && i < |states[k].procs|
    ensures PromotedAll(states[k].procs)[i].level == states[k].procs[i].level
  {
    NoLiveProcessIsDemoted(states, events, k);
  }

  /** From boot on a RUNNABLE process is passed over fewer times than there are entries in the table. */
  lemma BootBoundedWaiting(states: seq<State>, events: seq<Event>, k: nat, m: nat, v: nat)
    requires Run(states, events) && Boot(states[0]) && k <= m <= |events| && v < |states[k].procs|
    requires states[k].procs[v].state == RUNNABLE && states[k].cpu != Some(v) && Pass(v) !in events[k..m]
    ensures Passes(events[k..m]) < |states[k].procs|
  {
    RunKeeps(states, events, k);
    NoLiveProcessIsDemoted(states, events, k);
    var states', events' := states[k..m + 1], events[k..m];
    forall j | 0 <= j < |events'| ensures StepsTo(states'[j], events'[j], states'[j + 1]) {
      assert StepsTo(states[k + j], events[k + j], states[k + j + 1]);
    }
    RunBoundedWaiting(states', events', v);
  }
}
