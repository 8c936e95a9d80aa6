/** What several modules share. */
module Common {

  datatype Option<T> = None | Some(value: T)

  /** How a kernel routine ends: in the ordinary way, or with a panic. */
  datatype Outcome = Done | Panic(msg: string)

  const MAXOPBLOCKS: nat := 10 // blocks a system call may log
  const LOGBLOCKS: nat := 30   // blocks the log can hold

  function Min(a: nat, b: nat): nat {
    if a < b then a else b
  }

  function Max(a: nat, b: nat): nat {
    if a > b then a else b
  }

  /** The place after `i` going round `n` places. */
  function Succ(i: nat, n: nat): (j: nat)
    requires i < n
    ensures j < n
  {
    if i + 1 == n then 0 else i + 1
  }

  ghost predicate Distinct(s: seq<nat>) {
    forall i, j :: 0 <= i < j < |s| ==> s[i] != s[j]
  }

  lemma {:induction false} Pigeonhole(q: seq<nat>, n: nat)
    requires Distinct(q) && forall k :: 0 <= k < |q| ==> q[k] < n
    ensures |q| <= n
  {
    if k :| 0 <= k < |q| && q[k] == n - 1 {
      Pigeonhole(q[..k] + q[k + 1..], n - 1);
    } else if q != [] {
      assert q[0] < n - 1;
      Pigeonhole(q, n - 1);
    }
  }

  lemma Quotient(x: nat, q: nat, r: nat, d: nat)
    requires r < d && x == q * d + r
    ensures x / d == q && x % d == r
  {
    var k := x / d - q;
    assert k * d == r - x % d;
    assert (k >= 1 ==> k * d >= d) && (k <= -1 ==> k * d <= 0 - d);
  }
}
