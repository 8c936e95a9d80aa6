/** The log's admission rule in kernel/log.c: every admitted operation keeps room for MAXOPBLOCKS blocks of its own. */
module Reservation {
  import opened Common

  ghost function SumOver(m: map<nat, nat>, ps: set<nat>): nat
    requires ps <= m.Keys
  {
    if ps == {} then 0
    else var p :| p in ps; m[p] + SumOver(m, ps - {p})
  }

  lemma {:induction false} SumRemove(m: map<nat, nat>, ps: set<nat>, p: nat)
    requires ps <= m.Keys && p in ps
    ensures SumOver(m, ps) == m[p] + SumOver(m, ps - {p})
    decreases ps
  {
    var q :| q in ps && SumOver(m, ps) == m[q] + SumOver(m, ps - {q});
    if q != p {
      SumRemove(m, ps - {q}, p);
      assert ps - {q} - {p} == ps - {p} - {q};
      SumRemove(m, ps - {p}, q);
    }
  }

  lemma {:induction false} SumAgree(m: map<nat, nat>, m': map<nat, nat>, ps: set<nat>)
    requires ps <= m.Keys && ps <= m'.Keys && forall p :: p in ps ==> m[p] == m'[p]
    ensures SumOver(m, ps) == SumOver(m', ps)
    decreases ps
  {
    if ps != {} {
      var p :| p in ps;
      SumRemove(m, ps, p);
      SumRemove(m', ps, p);
      SumAgree(m, m', ps - {p});
    }
  }

  lemma {:induction false} SumBound(m: map<nat, nat>, ps: set<nat>)
    requires ps <= m.Keys && forall p :: p in ps ==> m[p] <= MAXOPBLOCKS
    ensures SumOver(m, ps) <= |ps| * MAXOPBLOCKS
    decreases ps
  {
    if ps != {} {
      var p :| p in ps;
      SumRemove(m, ps, p);
      SumBound(m, ps - {p});
    }
  }

  /** The log, with `n` blocks in it, has room for every block the open operations may still add; `active` has added. */
  ghost predicate Quota(n: nat, active: map<nat, nat>) {
    && (forall p :: p in active ==> active[p] <= MAXOPBLOCKS)
    && n + |active| * MAXOPBLOCKS <= LOGBLOCKS + SumOver(active, active.Keys)
  }

  /** begin_op's test is what it takes to admit one operation more. */
  lemma QuotaBegin(n: nat, active: map<nat, nat>, p: nat)
    requires Quota(n, active) && p !in active && n + (|active| + 1) * MAXOPBLOCKS <= LOGBLOCKS
    ensures Quota(n, active[p := 0])
  {
    var active' := active[p := 0];
    assert active'.Keys - {p} == active.Keys;
    SumRemove(active', active'.Keys, p);
    SumAgree(active, active', active.Keys);
  }

  lemma QuotaUse(n: nat, active: map<nat, nat>, p: nat)
    requires Quota(n, active) && p in active && active[p] < MAXOPBLOCKS
    ensures Quota(n + 1, active[p := active[p] + 1])
  {
    var active' := active[p := active[p] + 1];
    assert active'.Keys == active.Keys;
    SumRemove(active, active.Keys, p);
    SumRemove(active', active.Keys, p);
    SumAgree(active, active', active.Keys - {p});
  }

  lemma QuotaEnd(n: nat, active: map<nat, nat>, p: nat)
    requires Quota(n, active) && p in active
    ensures Quota(n, active - {p})
  {
    var active' := active - {p};
    assert active'.Keys == active.Keys - {p};
    SumRemove(active, active.Keys, p);
    SumAgree(active, active', active'.Keys);
  }

  /** The log never overflows, and it is full only when every open operation has used up its reservation. */
  lemma QuotaFull(n: nat, active: map<nat, nat>)
    requires Quota(n, active)
    ensures n <= LOGBLOCKS
    ensures forall p :: p in active && active[p] < MAXOPBLOCKS ==> n < LOGBLOCKS
  {
    SumBound(active, active.Keys);
    forall p | p in active && active[p] < MAXOPBLOCKS ensures n < LOGBLOCKS {
      SumRemove(active, active.Keys, p);
      SumBound(active, active.Keys - {p});
    }
  }

  lemma QuotaEach(n: nat, active: map<nat, nat>)
    requires Quota(n, active)
    ensures forall p :: p in active ==> active[p] <= MAXOPBLOCKS
  {
  }
}
