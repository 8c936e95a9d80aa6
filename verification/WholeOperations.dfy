/**
 * What a crash leaves of whole operations of the log protocol: recovery ends in the contents of a moment at which no
 * operation was open, so of each operation it shows all or nothing.
 */
module WholeOperations {
  import opened Common
  import opened Log
  import opened LogProtocol

  /** The disk as the cache shows it: the last commit, with what has been logged since laid over it. */
  function Logical(s: State): Disk {
    if s.phase.Installing? || s.phase.Cleared? then s.committed else Overlay(s.committed, s.latest)
  }

  /** A buffer that is not being modified shows the logical disk. */
  lemma BufferShows(s: State, i: nat)
    requires Inv(s) && i < |s.bufs| && s.bufs[i].valid && i !in s.dirty && s.bufs[i].block.Some?
    requires IsHome(|s.disk|, s.start, s.bufs[i].block.value)
    ensures s.bufs[i].block.value < |Logical(s)| && s.bufs[i].data == Logical(s)[s.bufs[i].block.value]
  {
    hide Unique, Refcounts, Users, Pinned, Reservation.Quota;
    var b := s.bufs[i].block.value;
    if s.phase.Installing? && b in s.lh && b !in s.lh[s.phase.k..] {
      InFirstPart(s.lh, s.phase.k, b);
    }
  }

  lemma InFirstPart(lh: seq<nat>, k: nat, b: nat)
    requires k <= |lh| && b in lh && b !in lh[k..]
    ensures exists i :: 0 <= i < k && lh[i] == b
  {
    assert lh == lh[..k] + lh[k..];
  }

  lemma OverlayPut(d: Disk, latest: map<nat, Block>, b: nat, data: Block)
    requires b < |d|
    ensures |Overlay(d, latest)| == |d| && Overlay(d, latest[b := data]) == Overlay(d, latest)[b := data]
  {
  }

  lemma LogicalWrite(s: State, p: Proc, i: nat)
    requires Inv(s) && Enabled(s, LogWrite(p, i))
    ensures var t := Next(s, LogWrite(p, i));
            var b := s.bufs[i].block.value;
            b < |Logical(s)| && Logical(t) == if t.panicked then Logical(s) else Logical(s)[b := s.bufs[i].data]
  {
    hide Unique, Refcounts, Users, Pinned, Data, Reservation.Quota, Overlay;
    OverlayPut(s.committed, s.latest, s.bufs[i].block.value, s.bufs[i].data);
  }

  lemma LogicalKept(s: State, e: Event)
    requires Inv(s) && Enabled(s, e) && !e.Crash? && !e.LogWrite?
    ensures Logical(Next(s, e)) == Logical(s)
  {
    hide Unique, Refcounts, Users, Pinned, Data, Reservation.Quota;
  }

  /** Only log_write changes what the logical disk shows, and only its own block. */
  lemma LogicalStep(s: State, e: Event)
    requires Inv(s) && Enabled(s, e) && !e.Crash?
    ensures var t := Next(s, e);
            if e.LogWrite? && !t.panicked then
              var b := s.bufs[e.i].block.value;
              b < |Logical(s)| && Logical(t) == Logical(s)[b := s.bufs[e.i].data]
            else Logical(t) == Logical(s)
  {
    hide Inv, Enabled, Next, Logical;
    if e.LogWrite? { LogicalWrite(s, e.p, e.i); } else { LogicalKept(s, e); }
  }

  /** The committed contents change only at a moment when no operation is open, and then to the logical disk. */
  lemma CommittedStep(s: State, e: Event)
    requires Inv(s) && Enabled(s, e)
    ensures var t := Next(s, e); t.committed == s.committed || (s.active == map[] && t.committed == Logical(s))
  {
    hide Unique, Refcounts, Users, Pinned, Data, OnDisk, Reservation.Quota, CrashedRecoveries, Recover;
  }

  /** In every state the committed contents are the logical disk of a moment when no operation was open. */
  lemma {:induction false} Quiescent(states: seq<State>, events: seq<Event>, i: nat) returns (j: nat)
    requires Run(states, events) && Fresh(states[0]) && i <= |events|
    ensures j <= i && states[j].active == map[] && states[i].committed == Logical(states[j])
    ensures states[i].start == states[0].start
  {
    hide Inv, Enabled, Next, Logical;
    if i == 0 {
      j := 0;
      FreshShows(states[0]);
    } else {
      j := Quiescent(states, events, i - 1);
      RunKeeps(states, events, i - 1);
      assert StepsTo(states[i - 1], events[i - 1], states[i]);
      CommittedStep(states[i - 1], events[i - 1]);
      SameStart(states[i - 1], events[i - 1]);
      if states[i].committed != states[i - 1].committed { j := i - 1; }
    }
  }

  lemma FreshShows(s: State)
    requires Fresh(s)
    ensures s.active == map[] && Logical(s) == s.committed == s.disk && !s.panicked
  {
  }

  lemma SameStart(s: State, e: Event)
    requires Enabled(s, e)
    ensures Next(s, e).start == s.start
  {
  }

  /** What comes back after a crash, and further ones in the recoveries. */
  ghost function Recovered(s: State, crashes: seq<nat>): Disk
    requires Sound(s.disk, s.start)
  {
    Recover(CrashedRecoveries(s.disk, s.start, crashes), s.start)
  }

  /** After a crash anywhere in a run, and in the recoveries after it, the home blocks are those of such a moment. */
  lemma RecoversQuiescent(states: seq<State>, events: seq<Event>, i: nat, crashes: seq<nat>) returns (j: nat)
    requires Run(states, events) && Fresh(states[0]) && i <= |events|
    ensures Sound(states[i].disk, states[i].start) && j <= i && states[j].active == map[]
    ensures SameHome(Recovered(states[i], crashes), Logical(states[j]), states[i].start)
  {
    hide Inv, Enabled, Next, Logical, Fresh, Recover, CrashedRecoveries, SameHome;
    j := Quiescent(states, events, i);
    RunKeeps(states, events, i);
    CrashSafe(states[i], crashes);
  }

  // ---- a sequence of operations of one writer --------------------------------------------------------------------

  /** How many operations of p have ended. */
  function Ended(events: seq<Event>, p: Proc): (n: nat) {
    if events == [] then 0 else Ended(events[..|events| - 1], p) + (if events[|events| - 1] == End(p) then 1 else 0)
  }

  lemma EndedNext(events: seq<Event>, p: Proc, i: nat)
    requires i < |events|
    ensures Ended(events[..i + 1], p) == Ended(events[..i], p) + (if events[i] == End(p) then 1 else 0)
  {
    assert events[..i + 1][..i] == events[..i];
  }

  /**
   * What a writer's operations do: images[k] is the disk after k of them, the k-th logs blocks of sets[k] only, and
   * mine[k] are the words, by block and number, that nobody else changes when k operations have ended.
   */
  datatype Plan = Plan(images: seq<Disk>, sets: seq<set<nat>>, mine: seq<iset<(nat, nat)>>)

  /** The words `on` of home blocks outside `l` are the same. */
  ghost predicate SameOn(d: Disk, e: Disk, start: nat, on: iset<(nat, nat)>, l: set<nat>) {
    && |d| == |e|
    && forall b: nat, w: nat :: IsHome(|d|, start, b) && w < WORDS && b !in l && (b, w) in on ==> d[b][w] == e[b][w]
  }

  /** An operation changes the writer's words in blocks of its set only, and takes new words in such blocks only. */
  ghost predicate LinkedAt(plan: Plan, k: nat, start: nat)
    requires k < |plan.sets| && |plan.images| == |plan.mine| == |plan.sets| + 1
  {
    && SameOn(plan.images[k], plan.images[k + 1], start, plan.mine[k + 1], plan.sets[k])
    && forall b: nat, w: nat :: (b, w) in plan.mine[k + 1] && b !in plan.sets[k] ==> (b, w) in plan.mine[k]
  }

  ghost predicate Chain(plan: Plan, start: nat) {
    && |plan.images| == |plan.mine| == |plan.sets| + 1
    && forall k :: 0 <= k < |plan.sets| ==> LinkedAt(plan, k, start)
  }

  /**
   * Event e, when p has ended k operations, suits the plan of p: p logs blocks of sets[k] only, and when the operation
   * ends p's words in them read as in images[k + 1]. Others may log any block, if they leave p's words in it alone.
   */
  ghost predicate Follows(s: State, e: Event, k: nat, p: Proc, plan: Plan) {
    && !e.Crash?
    && (e.LogWrite? ==> e.i < |s.bufs| && s.bufs[e.i].block.Some?)
    && (e.LogWrite? && e.p == p ==> k < |plan.sets| && s.bufs[e.i].block.value in plan.sets[k])
    && (e.LogWrite? && e.p != p ==> k < |plan.mine| && Leaves(s, e.i, plan.mine[k]))
    && (e == End(p) ==>
          && k < |plan.sets| && k + 1 < |plan.images| && k + 1 < |plan.mine|
          && Shown(s, plan.sets[k], plan.images[k + 1], plan.mine[k + 1]))
  }

  ghost predicate Leaves(s: State, i: nat, on: iset<(nat, nat)>)
    requires i < |s.bufs| && s.bufs[i].block.Some?
  {
    var b := s.bufs[i].block.value;
    forall w: nat :: w < WORDS && b < |Logical(s)| && (b, w) in on ==> s.bufs[i].data[w] == Logical(s)[b][w]
  }

  ghost predicate Shown(s: State, l: set<nat>, image: Disk, on: iset<(nat, nat)>) {
    && |image| == |Logical(s)|
    && forall b: nat, w: nat :: b in l && b < |image| && w < WORDS && (b, w) in on ==> Logical(s)[b][w] == image[b][w]
  }

  /** p's words of the logical disk when p has ended k operations: the k-th image, but for what an open one may log. */
  ghost predicate Agrees(s: State, k: nat, p: Proc, plan: Plan) {
    && k < |plan.images| && k < |plan.mine|
    && SameOn(Logical(s), plan.images[k], s.start, plan.mine[k],
              if p in s.active && k < |plan.sets| then plan.sets[k] else {})
  }

  lemma AgreesLogWrite(s: State, e: Event, k: nat, p: Proc, plan: Plan)
    requires Inv(s) && Enabled(s, e) && e.LogWrite? && Agrees(s, k, p, plan) && Follows(s, e, k, p, plan)
    ensures Agrees(Next(s, e), k, p, plan)
  {
    LogicalStep(s, e);
    SameStart(s, e);
    OpenStep(s, e, p);
    hide Inv, Enabled, Next, Logical;
  }

  lemma AgreesEnd(s: State, k: nat, p: Proc, plan: Plan)
    requires Inv(s) && Enabled(s, End(p)) && Chain(plan, s.start)
    requires Agrees(s, k, p, plan) && Follows(s, End(p), k, p, plan)
    ensures Agrees(Next(s, End(p)), k + 1, p, plan)
  {
    LogicalStep(s, End(p));
    SameStart(s, End(p));
    OpenStep(s, End(p), p);
    hide Inv, Enabled, Next, Logical;
    assert LinkedAt(plan, k, s.start);
    var d, e := Logical(s), plan.images[k + 1];
    forall b: nat, w: nat | IsHome(|d|, s.start, b) && w < WORDS && (b, w) in plan.mine[k + 1]
      ensures d[b][w] == e[b][w]
    {
      if b !in plan.sets[k] { assert (b, w) in plan.mine[k]; }
    }
  }

  lemma AgreesStep(s: State, e: Event, k: nat, p: Proc, plan: Plan)
    requires Inv(s) && Enabled(s, e) && Chain(plan, s.start)
    requires Agrees(s, k, p, plan) && Follows(s, e, k, p, plan)
    ensures Agrees(Next(s, e), if e == End(p) then k + 1 else k, p, plan)
  {
    hide Inv, Enabled, Next, Logical, Chain;
    if e.LogWrite? {
      AgreesLogWrite(s, e, k, p, plan);
    } else if e == End(p) {
      AgreesEnd(s, k, p, plan);
    } else {
      LogicalStep(s, e);
      SameStart(s, e);
      OpenStep(s, e, p);
    }
  }

  lemma OpenStep(s: State, e: Event, p: Proc)
    requires Enabled(s, e)
    ensures p in Next(s, e).active ==> p in s.active || e == Begin(p)
    ensures p in s.active && p !in Next(s, e).active ==> e == End(p) || e.Crash?
    ensures e == End(p) ==> p in s.active && p !in Next(s, e).active
    ensures e.LogWrite? ==> e.p in s.active
  {
  }

  ghost predicate WriterRun(states: seq<State>, events: seq<Event>, p: Proc, plan: Plan) {
    && Run(states, events) && Fresh(states[0]) && |plan.images| > 0 && |plan.mine| > 0
    && SameOn(states[0].disk, plan.images[0], states[0].start, plan.mine[0], {})
    && forall i :: 0 <= i < |events| ==> Follows(states[i], events[i], Ended(events[..i], p), p, plan)
  }

  lemma {:induction false} AgreesRun(states: seq<State>, events: seq<Event>, p: Proc, plan: Plan, i: nat)
    requires WriterRun(states, events, p, plan) && Chain(plan, states[0].start) && i <= |events|
    ensures states[i].start == states[0].start && Agrees(states[i], Ended(events[..i], p), p, plan)
  {
    hide Inv, Enabled, Next, Logical, Fresh, Follows, Chain;
    if i == 0 {
      FreshShows(states[0]);
    } else {
      AgreesRun(states, events, p, plan, i - 1);
      RunKeeps(states, events, i - 1);
      assert StepsTo(states[i - 1], events[i - 1], states[i]);
      assert Follows(states[i - 1], events[i - 1], Ended(events[..i - 1], p), p, plan);
      AgreesStep(states[i - 1], events[i - 1], Ended(events[..i - 1], p), p, plan);
      SameStart(states[i - 1], events[i - 1]);
      EndedNext(events, p, i - 1);
    }
  }

  /** Nothing waits for a commit: the commit point has passed, nothing is logged, or no operation is open any more. */
  predicate Settled(s: State) {
    s.phase.Installing? || s.phase.Cleared? || s.lh == [] || (s.phase.Idle? && s.active == map[])
  }

  lemma {:induction false} EndedGrows(events: seq<Event>, p: Proc, j: nat, i: nat)
    requires j <= i <= |events|
    ensures Ended(events[..j], p) <= Ended(events[..i], p)
  {
    if j < i {
      EndedGrows(events, p, j, i - 1);
      EndedNext(events, p, i - 1);
    }
  }

  /**
   * Wherever the writer's run is cut by a crash, recovery gives the writer's words the contents of one of its images:
   * every operation is there whole or not at all, and those before it too, whatever the other processes have logged.
   * Once nothing is waiting for a commit, every ended operation is there.
   */
  lemma RecoversImage(states: seq<State>, events: seq<Event>, p: Proc, plan: Plan, i: nat, crashes: seq<nat>)
    returns (m: nat)
    requires WriterRun(states, events, p, plan) && Chain(plan, states[0].start) && i <= |events|
    ensures Sound(states[i].disk, states[i].start) && m <= Ended(events[..i], p) && m < |plan.images| == |plan.mine|
    ensures SameOn(Recovered(states[i], crashes), plan.images[m], states[i].start, plan.mine[m], {})
    ensures Settled(states[i]) && p !in states[i].active ==> m == Ended(events[..i], p)
  {
    hide Inv, Enabled, Next, Logical, Fresh, Follows, Recover, CrashedRecoveries;
    var j := RecoversQuiescent(states, events, i, crashes);
    if Settled(states[i]) && p !in states[i].active {
      RunKeeps(states, events, i);
      CrashSafe(states[i], crashes);
      SettledShows(states[i]);
      j := i;
    }
    AgreesRun(states, events, p, plan, i);
    AgreesRun(states, events, p, plan, j);
    EndedGrows(events, p, j, i);
    m := Ended(events[..j], p);
  }

  lemma SettledShows(s: State)
    requires Inv(s) && Settled(s)
    ensures Logical(s) == s.committed
  {
  }

  ghost function SetAt(sets: seq<set<nat>>, k: nat): set<nat> {
    if k < |sets| then sets[k] else {}
  }

  /** The blocks `a` that the open operation of p has added to the log are as many as the protocol counts. */
  ghost predicate HasAdded(s: State, p: Proc, l: set<nat>, a: set<nat>) {
    p in s.active ==> a <= l && (forall b :: b in a ==> b in s.lh) && |a| == s.active[p]
  }

  lemma AddsNothing(s: State, e: Event, p: Proc)
    requires Inv(s) && Enabled(s, e) && !e.LogWrite? && !e.Crash? && p in Next(s, e).active
    ensures if e == Begin(p) then Next(s, e).active[p] == 0
            else p in s.active && Next(s, e).active[p] == s.active[p] && Next(s, e).lh == s.lh
  {
    hide Unique, Refcounts, Users, Pinned, Data, OnDisk, Reservation.Quota;
  }

  lemma AddsOne(s: State, p: Proc, i: nat)
    requires Enabled(s, LogWrite(p, i))
    ensures var t := Next(s, LogWrite(p, i));
            var b := s.bufs[i].block.value;
            if t.panicked || b in s.lh then t.lh == s.lh && t.active == s.active
            else t.lh == s.lh + [b] && p in s.active && t.active == s.active[p := s.active[p] + 1]
  {
  }

  lemma AddedStep(s: State, e: Event, k: nat, p: Proc, plan: Plan, a: set<nat>) returns (a': set<nat>)
    requires Inv(s) && Enabled(s, e) && Follows(s, e, k, p, plan) && HasAdded(s, p, SetAt(plan.sets, k), a)
    ensures HasAdded(Next(s, e), p, SetAt(plan.sets, if e == End(p) then k + 1 else k), a')
  {
    hide Inv, Enabled, Next, Logical;
    OpenStep(s, e, p);
    a' := if e == Begin(p) then {} else a;
    if e.LogWrite? {
      AddsOne(s, e.p, e.i);
      var b := s.bufs[e.i].block.value;
      if e.p == p && !Next(s, e).panicked && b !in s.lh { a' := a + {b}; }
    } else if p in Next(s, e).active {
      AddsNothing(s, e, p);
    }
  }

  lemma {:induction false} AddedRun(states: seq<State>, events: seq<Event>, p: Proc, plan: Plan, i: nat)
    returns (a: set<nat>)
    requires WriterRun(states, events, p, plan) && i <= |events|
    ensures HasAdded(states[i], p, SetAt(plan.sets, Ended(events[..i], p)), a)
  {
    hide Inv, Enabled, Next, Logical, Fresh, Follows, HasAdded;
    if i == 0 {
      a := {};
      FreshAdds(states[0], p, SetAt(plan.sets, Ended(events[..i], p)));
    } else {
      a := AddedRun(states, events, p, plan, i - 1);
      RunKeeps(states, events, i - 1);
      assert StepsTo(states[i - 1], events[i - 1], states[i]);
      assert Follows(states[i - 1], events[i - 1], Ended(events[..i - 1], p), p, plan);
      a := AddedStep(states[i - 1], events[i - 1], Ended(events[..i - 1], p), p, plan, a);
      EndedNext(events, p, i - 1);
    }
  }

  lemma FreshAdds(s: State, p: Proc, l: set<nat>)
    requires Fresh(s)
    ensures HasAdded(s, p, l, {})
  {
  }

  /** A writer whose sets fit a reservation may log every block of the set it is at. */
  lemma WithinReservation(states: seq<State>, events: seq<Event>, p: Proc, plan: Plan, i: nat, j: nat)
    requires WriterRun(states, events, p, plan) && i <= |events| && CanModify(states[i], p, j)
    requires var k := Ended(events[..i], p);
             k < |plan.sets| && |plan.sets[k]| <= MAXOPBLOCKS && states[i].bufs[j].block.value in plan.sets[k]
    ensures CanLogWrite(states[i], p, j)
  {
    hide Inv, Enabled, Next, Logical, Fresh, Follows;
    var l, b := plan.sets[Ended(events[..i], p)], states[i].bufs[j].block.value;
    var a := AddedRun(states, events, p, plan, i);
    if b !in states[i].lh {
      Smaller(a, l, b);
    }
  }

  lemma {:induction false} Smaller(a: set<nat>, l: set<nat>, b: nat)
    requires a <= l && b in l && b !in a
    ensures |a| < |l|
  {
    if a != {} {
      var x :| x in a;
      Smaller(a - {x}, l - {x}, b);
    }
  }
}
