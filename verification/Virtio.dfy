/**
 * Descriptor chains and rings of the virtio disk driver, kernel/virtio_disk.c, with the device that serves them.
 * The device is the one of section 5.2 of Virtio 1.1: it takes heads from the available ring in order, follows
 * the chain in the descriptor table, and reports heads in the used ring in any order.
 */
module Virtio {
  import opened Common

  const NUM: nat := 8
  const BSIZE: nat := 1024
  const SECTOR: nat := 512
  const WRAP: nat := 0x1_0000 // ring indices are 16 bits wide

  /** What a descriptor's address points to. */
  datatype Addr = Null | Header(op: nat) | Data(buf: nat) | Status(info: nat)
  datatype Desc = Desc(addr: Addr, len: nat, write: bool, hasNext: bool, next: nat)
  const CLEARED := Desc(Null, 0, false, false, 0)

  datatype Op = Op(write: bool, sector: nat)
  datatype Request = Request(write: bool, sector: nat, buf: nat)

  /** Where a request is: on the available ring, inside the device, on the used ring, or seen by the driver. */
  datatype Stage = Offered | Taken | Completed | Finished

  /** A request in flight and the three descriptors it owns. */
  datatype Flight = Flight(head: nat, data: nat, status: nat, req: Request, stage: Stage)

  predicate Has(f: Flight, i: nat) {
    i == f.head || i == f.data || i == f.status
  }

  predicate WellFormed(f: Flight) {
    f.head < NUM && f.data < NUM && f.status < NUM && f.head != f.data && f.head != f.status && f.data != f.status
  }

  /** A chain's descriptors are all recorded as owned by its head. */
  predicate Owns(own: map<nat, nat>, f: Flight) {
    && f.head in own && f.data in own && f.status in own
    && own[f.head] == own[f.data] == own[f.status] == f.head
  }

  predicate OwnedBy(own: map<nat, nat>, flights: map<nat, Flight>, i: nat)
    requires i in own
  {
    own[i] in flights && Has(flights[own[i]], i)
  }

  /** The descriptors are split exactly into free ones, all cleared, and disjoint chains known by their heads. */
  ghost predicate Split(free: seq<bool>, desc: seq<Desc>, flights: map<nat, Flight>, own: map<nat, nat>) {
    && |free| == |desc| == NUM
    && (forall i: nat :: i < NUM ==> (free[i] <==> i !in own) && (free[i] ==> desc[i] == CLEARED))
    && (forall i :: i in own ==> OwnedBy(own, flights, i))
    && (forall h :: h in flights ==> flights[h].head == h && WellFormed(flights[h]) && Owns(own, flights[h]))
  }

  /** What the device finds by following the chain from `head`: section 5.2.6 of Virtio 1.1. */
  function Decode(desc: seq<Desc>, ops: seq<Op>, head: nat): (r: Option<Request>)
    requires |desc| == |ops| == NUM
  {
    if head >= NUM || !desc[head].hasNext || desc[head].next >= NUM || !desc[head].addr.Header? then None else
    var data := desc[desc[head].next];
    if !data.hasNext || data.next >= NUM || !data.addr.Data? || desc[head].addr.op >= NUM then None else
    var op := ops[desc[head].addr.op];
    var last := desc[data.next];
    if last.hasNext || !last.write || last.addr != Status(head) || data.write == op.write then None
    else if desc[head].write || desc[head].len != 16 || data.len != BSIZE || last.len != 1 then None
    else Some(Request(op.write, op.sector, data.addr.buf))
  }

  /** The tables describe `f`'s request, along the descriptors `f` owns. */
  ghost predicate Described(desc: seq<Desc>, ops: seq<Op>, info: seq<Option<nat>>, f: Flight) {
    && WellFormed(f) && |desc| == |ops| == |info| == NUM
    && desc[f.head].next == f.data && desc[f.data].next == f.status
    && Decode(desc, ops, f.head) == Some(f.req)
    && desc[f.head].addr == Header(f.head)
    && info[f.head] == Some(f.req.buf)
  }

  /** free_chain follows these links. */
  ghost predicate Linked(free: seq<bool>, desc: seq<Desc>, f: Flight) {
    && WellFormed(f) && |free| == |desc| == NUM && !free[f.head] && !free[f.data] && !free[f.status]
    && desc[f.head].hasNext && desc[f.head].next == f.data && desc[f.data].hasNext && desc[f.data].next == f.status
    && !desc[f.status].hasNext
  }

  /** Links lead to descriptors of the table. */
  ghost predicate Closed(desc: seq<Desc>) {
    forall i :: 0 <= i < |desc| && desc[i].hasNext ==> desc[i].next < |desc|
  }

  ghost predicate LinksTo(desc: seq<Desc>, path: seq<nat>, k: nat)
    requires k + 1 < |path|
  {
    path[k] < |desc| && desc[path[k]].hasNext && desc[path[k]].next == path[k + 1]
  }

  /** `path` follows the links from `start`. */
  ghost predicate Path(desc: seq<Desc>, start: nat, path: seq<nat>) {
    && (path != [] ==> path[0] == start) && (forall k :: 0 <= k < |path| ==> path[k] < |desc|)
    && forall k :: 0 <= k < |path| - 1 ==> LinksTo(desc, path, k)
  }

  /** Where the links lead after `path`. */
  ghost function Onward(desc: seq<Desc>, start: nat, path: seq<nat>): nat
    requires Path(desc, start, path)
  {
    if path == [] then start else desc[path[|path| - 1]].next
  }

  /** The descriptors of `path` were in use and are now free and cleared, and nothing else has changed. */
  ghost predicate Freed(free: seq<bool>, desc: seq<Desc>, free': seq<bool>, desc': seq<Desc>, path: seq<nat>) {
    && |free| == |free'| == |desc| == |desc'| == NUM
    && (forall k :: 0 <= k < |path| ==> path[k] < NUM && !free[path[k]])
    && (forall j :: 0 <= j < NUM ==> free'[j] == (free[j] || j in path))
    && (forall j :: 0 <= j < NUM ==> desc'[j] == if j in path then CLEARED else desc[j])
  }

  ghost function InUse(free: seq<bool>): set<nat> {
    set j | 0 <= j < |free| && !free[j]
  }

  lemma FewerInUse(free: seq<bool>, i: nat)
    requires i < |free| && !free[i]
    ensures |InUse(free[i := true])| < |InUse(free)|
  {
    assert InUse(free[i := true]) == InUse(free) - {i};
  }

  lemma DistinctNone()
    ensures Distinct([])
  {
  }

  lemma DistinctMore(path: seq<nat>, i: nat)
    requires Distinct(path) && i !in path
    ensures Distinct(path + [i])
  {
  }

  lemma PathMore(desc: seq<Desc>, start: nat, path: seq<nat>, i: nat)
    requires Path(desc, start, path) && i == Onward(desc, start, path) < |desc|
    requires path != [] ==> desc[path[|path| - 1]].hasNext
    ensures Path(desc, start, path + [i])
  {
    var path' := path + [i];
    forall k | 0 <= k < |path'| - 1 ensures LinksTo(desc, path', k) {
      if k < |path| - 1 { assert LinksTo(desc, path, k); }
    }
  }

  /** On a chain of three in use, free_chain takes just these. */
  lemma ChainIsPath(free: seq<bool>, desc: seq<Desc>, free': seq<bool>, desc': seq<Desc>, f: Flight, path: seq<nat>,
                    done: bool)
    requires Linked(free, desc, f) && Path(desc, f.head, path) && Distinct(path)
             && Freed(free, desc, free', desc', path)
    requires done <==> path != [] && !desc[path[|path| - 1]].hasNext
    requires !done ==> var stop := Onward(desc, f.head, path); stop < NUM && (free[stop] || stop in path)
    ensures done && free' == FreeUp(free, f) && desc' == Clear(desc, f)
  {
    if |path| > 1 { assert LinksTo(desc, path, 0); }
    if |path| > 2 { assert LinksTo(desc, path, 1); }
    forall k | 0 <= k < |path| - 1 ensures desc[path[k]].hasNext {
      assert LinksTo(desc, path, k);
    }
    assert |path| > 2 ==> !desc[path[2]].hasNext;
    assert path == [f.head, f.data, f.status];
  }

  function FreeUp(free: seq<bool>, f: Flight): seq<bool>
    requires WellFormed(f) && |free| == NUM
  {
    free[f.head := true][f.data := true][f.status := true]
  }

  function Clear(desc: seq<Desc>, f: Flight): seq<Desc>
    requires WellFormed(f) && |desc| == NUM
  {
    desc[f.head := CLEARED][f.data := CLEARED][f.status := CLEARED]
  }

  function TakeUp(free: seq<bool>, a: nat, b: nat, c: nat): seq<bool>
    requires |free| == NUM && a < NUM && b < NUM && c < NUM
  {
    free[a := false][b := false][c := false]
  }

  /** The three descriptors of a request as virtio_disk_rw formats them. */
  function Format(desc: seq<Desc>, f: Flight): seq<Desc>
    requires WellFormed(f) && |desc| == NUM
  {
    desc[f.head := Desc(Header(f.head), 16, false, true, f.data)]
        [f.data := Desc(Data(f.req.buf), BSIZE, !f.req.write, true, f.status)]
        [f.status := Desc(Status(f.head), 1, true, false, 0)]
  }

  ghost predicate AllDescribed(desc: seq<Desc>, ops: seq<Op>, info: seq<Option<nat>>, flights: map<nat, Flight>) {
    && |desc| == |ops| == |info| == NUM
    && forall h :: h in flights ==> Described(desc, ops, info, flights[h])
  }

  function Wrapped(count: nat): nat {
    count % WRAP
  }

  /** `q` lies in the ring from the reader's count on. */
  ghost predicate Queued(ring: seq<nat>, read: nat, q: seq<nat>) {
    |ring| == NUM && forall k :: 0 <= k < |q| ==> ring[(read + k) % NUM] == q[k]
  }

  /** A ring with the 16-bit indices of its writer and its reader, and what it holds between them. */
  ghost predicate Ring(ring: seq<nat>, writeIdx: nat, readIdx: nat, read: nat, q: seq<nat>) {
    Queued(ring, read, q) && writeIdx == Wrapped(read + |q|) && readIdx == Wrapped(read)
  }

  /** A ring holds exactly the heads at one stage, each once. */
  ghost predicate AtStage(q: seq<nat>, flights: map<nat, Flight>, stage: Stage) {
    Distinct(q) && forall h: nat :: h in q <==> h in flights && flights[h].stage == stage
  }

  /** A buffer is marked busy exactly while its one request has not been seen finished. */
  ghost predicate Marked(busy: set<nat>, flights: map<nat, Flight>, who: map<nat, nat>) {
    && busy <= who.Keys
    && (forall b :: b in who ==> who[b] in flights && flights[who[b]].req.buf == b)
    && (forall h :: h in flights ==> flights[h].req.buf in who && who[flights[h].req.buf] == h)
    && (forall h :: h in flights ==> (flights[h].req.buf in busy <==> flights[h].stage != Finished))
  }

  // ---- rings ---------------------------------------------------------------------------------------------------

  lemma WrapKeepsSlot(x: nat)
    ensures (x % WRAP) % NUM == x % NUM
  {
    var q := x / WRAP;
    assert x == q * WRAP + x % WRAP;
    assert q * WRAP == (q * (WRAP / NUM)) * NUM;
  }

  lemma WrapNext(count: nat)
    ensures Wrapped(count + 1) == (Wrapped(count) + 1) % WRAP
  {
  }

  /** The 16-bit comparison of two counts is exact while they are close. */
  lemma WrapKeepsOrder(read: nat, written: nat)
    requires read <= written <= read + NUM
    ensures Wrapped(read) == Wrapped(written) <==> read == written
  {
    if read % WRAP == written % WRAP {
      assert written - read == (written / WRAP - read / WRAP) * WRAP;
    }
  }

  /** Writing one more entry overwrites none that is still unread. */
  lemma Push(ring: seq<nat>, read: nat, q: seq<nat>, x: nat)
    requires Queued(ring, read, q) && |q| < NUM
    ensures Queued(ring[Wrapped(read + |q|) % NUM := x], read, q + [x])
  {
    var slot := (read + |q|) % NUM;
    WrapKeepsSlot(read + |q|);
    forall k: nat | k < |q + [x]| ensures ring[slot := x][(read + k) % NUM] == (q + [x])[k] {
      assert k < |q| ==> (read + k) % NUM != slot;
    }
  }

  lemma Pop(ring: seq<nat>, read: nat, q: seq<nat>)
    requires Queued(ring, read, q) && |q| > 0
    ensures ring[Wrapped(read) % NUM] == q[0] && Queued(ring, read + 1, q[1..])
  {
    WrapKeepsSlot(read);
    assert ring[(read + 0) % NUM] == q[0];
    forall k | 0 <= k < |q[1..]| ensures ring[(read + 1 + k) % NUM] == q[1..][k] {
      assert ring[(read + (k + 1)) % NUM] == q[k + 1];
    }
  }

  lemma RingPush(ring: seq<nat>, writeIdx: nat, readIdx: nat, read: nat, q: seq<nat>, x: nat)
    requires Ring(ring, writeIdx, readIdx, read, q) && |q| < NUM
    ensures |ring| == NUM && Ring(ring[writeIdx % NUM := x], (writeIdx + 1) % WRAP, readIdx, read, q + [x])
  {
    hide Queued, Wrapped;
    assert |ring| == NUM by { QueuedSize(ring, read, q); }
    Push(ring, read, q, x);
    WrapNext(read + |q|);
  }

  lemma QueuedSize(ring: seq<nat>, read: nat, q: seq<nat>)
    requires Queued(ring, read, q)
    ensures |ring| == NUM
  {
  }

  lemma RingPop(ring: seq<nat>, writeIdx: nat, readIdx: nat, read: nat, q: seq<nat>)
    requires Ring(ring, writeIdx, readIdx, read, q) && |q| <= NUM
    ensures |ring| == NUM && (readIdx == writeIdx <==> q == [])
    ensures q != [] ==> ring[readIdx % NUM] == q[0] && Ring(ring, writeIdx, (readIdx + 1) % WRAP, read + 1, q[1..])
  {
    hide Queued, Wrapped;
    assert |ring| == NUM by { QueuedSize(ring, read, q); }
    WrapKeepsOrder(read, read + |q|);
    if q != [] {
      Pop(ring, read, q);
      WrapNext(read);
    }
  }

  /** Heads are descriptors in use, so a ring has room for one more while some descriptor is not a queued head. */
  lemma RingHasRoom(free: seq<bool>, desc: seq<Desc>, flights: map<nat, Flight>, own: map<nat, nat>, q: seq<nat>,
                    stage: Stage)
    requires Split(free, desc, flights, own) && AtStage(q, flights, stage)
    ensures |q| <= NUM
    ensures forall i: nat :: i < NUM && i !in q ==> |q| < NUM
  {
    forall k | 0 <= k < |q| ensures q[k] < NUM {
      assert q[k] in flights;
    }
    Pigeonhole(q, NUM);
    forall i: nat | i < NUM && i !in q ensures |q| < NUM {
      Pigeonhole(q + [i], NUM);
    }
  }

  // ---- stages --------------------------------------------------------------------------------------------------

  function Move(flights: map<nat, Flight>, h: nat, stage: Stage): map<nat, Flight>
    requires h in flights
  {
    flights[h := flights[h].(stage := stage)]
  }

  /** All of `q` moved to the last stage. */
  function Retired(flights: map<nat, Flight>, q: seq<nat>): map<nat, Flight> {
    map h | h in flights :: if h in q then flights[h].(stage := Finished) else flights[h]
  }

  lemma NoneRetired(flights: map<nat, Flight>)
    ensures Retired(flights, []) == flights
  {
  }

  lemma OneRetired(flights: map<nat, Flight>, q: seq<nat>, h: nat)
    requires h in flights
    ensures h in Retired(flights, q) && Retired(flights, q + [h]) == Move(Retired(flights, q), h, Finished)
  {
  }

  lemma Enter(q: seq<nat>, flights: map<nat, Flight>, h: nat, f: Flight, stage: Stage)
    requires AtStage(q, flights, stage) && f.stage == stage && (h in flights ==> flights[h].stage != stage)
    ensures AtStage(q + [h], flights[h := f], stage)
  {
    assert h !in q;
    forall g: nat ensures g in q + [h] <==> g in flights[h := f] && flights[h := f][g].stage == stage {
      assert g in q + [h] <==> g in q || g == h;
    }
  }

  lemma Leave(q: seq<nat>, flights: map<nat, Flight>, f: Flight, stage: Stage)
    requires AtStage(q, flights, stage) && |q| > 0 && f.stage != stage
    ensures AtStage(q[1..], flights[q[0] := f], stage)
  {
    forall g: nat ensures g in q[1..] <==> g in q && g != q[0] {
      assert q == [q[0]] + q[1..];
    }
  }

  // ---- one flight more, changed, or less -------------------------------------------------------------------------

  predicate OnlyFree(free: seq<bool>, a: nat, b: nat) {
    forall j :: 0 <= j < |free| && free[j] ==> j == a || j == b
  }

  lemma FewLeft(free: seq<bool>, got: seq<nat>)
    requires |free| == NUM && |got| <= 2 && forall j: nat :: j < NUM && free[j] ==> j in got
    ensures exists a: nat, b: nat :: OnlyFree(free, a, b)
  {
    var a: nat := if |got| > 0 then got[0] else 0;
    var b: nat := if |got| > 1 then got[1] else 0;
    forall j: nat | j < NUM && free[j] ensures j == a || j == b {
      assert j in got;
    }
    assert OnlyFree(free, a, b);
  }

  /** The first sector of a block, in 32-bit arithmetic. */
  function Sector(blockno: nat): nat {
    (blockno * (BSIZE / SECTOR)) % 0x1_0000_0000
  }

  lemma SectorIs(blockno: nat)
    ensures Sector(blockno) == 2 * blockno % 0x1_0000_0000
    ensures blockno < 0x8000_0000 ==> Sector(blockno) * SECTOR == blockno * BSIZE
  {
  }

  /** The bytes of two blocks do not overlap on the device; beyond 32-bit sectors they may. */
  lemma SectorsApart(a: nat, b: nat, i: nat, j: nat)
    requires a != b && a < 0x8000_0000 && b < 0x8000_0000 && i < BSIZE && j < BSIZE
    ensures Sector(a) * SECTOR + i != Sector(b) * SECTOR + j
  {
    SectorIs(a);
    SectorIs(b);
  }

  lemma Elsewhere(q: seq<nat>, flights: map<nat, Flight>, h: nat, f: Flight, stage: Stage)
    requires AtStage(q, flights, stage) && f.stage != stage && (h in flights ==> flights[h].stage != stage)
    ensures AtStage(q, flights[h := f], stage)
  {
  }

  lemma Gone(q: seq<nat>, flights: map<nat, Flight>, h: nat, stage: Stage)
    requires AtStage(q, flights, stage) && (h in flights ==> flights[h].stage != stage)
    ensures AtStage(q, flights - {h}, stage)
  {
  }

  lemma DescribedFrame(desc: seq<Desc>, ops: seq<Op>, info: seq<Option<nat>>, f: Flight,
                       desc': seq<Desc>, ops': seq<Op>, info': seq<Option<nat>>)
    requires Described(desc, ops, info, f) && |desc'| == |ops'| == |info'| == NUM
    requires forall i: nat :: Has(f, i) && i < NUM ==> desc'[i] == desc[i] && ops'[i] == ops[i] && info'[i] == info[i]
    ensures Described(desc', ops', info', f)
  {
    assert Has(f, f.head) && Has(f, f.data) && Has(f, f.status);
  }

  /** `a` and `b` agree outside the chain of `f`. */
  ghost predicate SameOutside<T(!new)>(f: Flight, a: seq<T>, b: seq<T>) {
    |a| == |b| == NUM && forall i: nat :: i < NUM && !Has(f, i) ==> a[i] == b[i]
  }

  lemma SplitMore(free: seq<bool>, desc: seq<Desc>, flights: map<nat, Flight>, own: map<nat, nat>, f: Flight,
                  desc': seq<Desc>)
    requires Split(free, desc, flights, own) && SameOutside(f, desc, desc')
    requires WellFormed(f) && free[f.head] && free[f.data] && free[f.status]
    ensures f.head !in flights
    ensures Split(TakeUp(free, f.head, f.data, f.status), desc', flights[f.head := f],
                  own[f.head := f.head][f.data := f.head][f.status := f.head])
  {
    var g := flights[f.head := f];
    var own' := own[f.head := f.head][f.data := f.head][f.status := f.head];
    forall i | i in own' ensures OwnedBy(own', g, i) {
      if !Has(f, i) { assert OwnedBy(own, flights, i); }
    }
  }

  lemma SplitLess(free: seq<bool>, desc: seq<Desc>, flights: map<nat, Flight>, own: map<nat, nat>, h: nat)
    requires Split(free, desc, flights, own) && h in flights
    ensures var f := flights[h];
            Split(FreeUp(free, f), Clear(desc, f), flights - {h}, own - {f.head, f.data, f.status})
  {
    var f, g := flights[h], flights - {h};
    var own' := own - {f.head, f.data, f.status};
    assert Owns(own, f);
    forall k | k in g ensures Owns(own', g[k]) {
      assert Owns(own, flights[k]);
    }
    forall i | i in own' ensures OwnedBy(own', g, i) {
      assert OwnedBy(own, flights, i);
    }
  }

  lemma SplitMove(free: seq<bool>, desc: seq<Desc>, flights: map<nat, Flight>, own: map<nat, nat>, h: nat, stage: Stage)
    requires Split(free, desc, flights, own) && h in flights
    ensures Split(free, desc, Move(flights, h, stage), own)
  {
    forall i | i in own ensures OwnedBy(own, Move(flights, h, stage), i) {
      assert OwnedBy(own, flights, i);
    }
  }

  /** Chains other than `f`'s read the same after a change confined to `f`'s descriptors. */
  lemma DescribedApart(free: seq<bool>, desc: seq<Desc>, ops: seq<Op>, info: seq<Option<nat>>,
                       flights: map<nat, Flight>, own: map<nat, nat>, f: Flight, desc': seq<Desc>, ops': seq<Op>,
                       info': seq<Option<nat>>)
    requires Split(free, desc, flights, own) && AllDescribed(desc, ops, info, flights)
    requires SameOutside(f, desc, desc') && SameOutside(f, ops, ops') && SameOutside(f, info, info')
    requires forall i :: i in own && Has(f, i) ==> own[i] == f.head
    ensures AllDescribed(desc', ops', info', flights - {f.head})
  {
    hide Described;
    forall h | h in flights && h != f.head ensures Described(desc', ops', info', flights[h]) {
      assert Owns(own, flights[h]);
      DescribedFrame(desc, ops, info, flights[h], desc', ops', info');
    }
  }

  /** The three formatted descriptors, the header and the buffer pointer describe the new request. */
  lemma FormatDescribes(desc: seq<Desc>, ops: seq<Op>, info: seq<Option<nat>>, f: Flight)
    requires |desc| == |ops| == |info| == NUM && WellFormed(f)
    ensures Described(Format(desc, f), ops[f.head := Op(f.req.write, f.req.sector)], info[f.head := Some(f.req.buf)], f)
    ensures SameOutside(f, desc, Format(desc, f))
  {
  }

  lemma DescribedMore(desc: seq<Desc>, ops: seq<Op>, info: seq<Option<nat>>, flights: map<nat, Flight>, f: Flight)
    requires AllDescribed(desc, ops, info, flights - {f.head}) && Described(desc, ops, info, f)
    ensures AllDescribed(desc, ops, info, flights[f.head := f])
  {
    hide Described;
    assert forall h :: h in flights && h != f.head ==> h in flights - {f.head};
  }

  lemma MarkNew(busy: set<nat>, flights: map<nat, Flight>, who: map<nat, nat>, h: nat, f: Flight)
    requires Marked(busy, flights, who) && h !in flights && f.req.buf !in who && f.stage != Finished
    ensures Marked(busy + {f.req.buf}, flights[h := f], who[f.req.buf := h])
  {
  }

  /** A change of stage leaves descriptors and their contents alone. */
  lemma Restage(free: seq<bool>, desc: seq<Desc>, ops: seq<Op>, info: seq<Option<nat>>, flights: map<nat, Flight>,
                own: map<nat, nat>, h: nat, stage: Stage)
    requires Split(free, desc, flights, own) && AllDescribed(desc, ops, info, flights) && h in flights
    ensures Split(free, desc, Move(flights, h, stage), own) && AllDescribed(desc, ops, info, Move(flights, h, stage))
  {
    SplitMove(free, desc, flights, own, h, stage);
    hide Split, Decode;
    assert Described(desc, ops, info, flights[h]);
  }

  lemma MarkMove(busy: set<nat>, flights: map<nat, Flight>, who: map<nat, nat>, h: nat, stage: Stage)
    requires Marked(busy, flights, who) && h in flights && flights[h].stage != Finished
    ensures stage != Finished ==> Marked(busy, Move(flights, h, stage), who)
    ensures stage == Finished ==> Marked(busy - {flights[h].req.buf}, Move(flights, h, stage), who)
  {
  }

  lemma Erased(free: seq<bool>, desc: seq<Desc>, ops: seq<Op>, info: seq<Option<nat>>, flights: map<nat, Flight>,
               own: map<nat, nat>, f: Flight)
    requires Split(free, desc, flights, own) && AllDescribed(desc, ops, info, flights)
    requires f.head in flights && flights[f.head] == f
    ensures AllDescribed(Clear(desc, f), ops, info[f.head := None], flights - {f.head})
  {
    hide Described;
    assert Owns(own, f);
    DescribedApart(free, desc, ops, info, flights, own, f, Clear(desc, f), ops, info[f.head := None]);
  }

  lemma MarkGone(busy: set<nat>, flights: map<nat, Flight>, who: map<nat, nat>, h: nat)
    requires Marked(busy, flights, who) && h in flights && flights[h].stage == Finished
    ensures Marked(busy, flights - {h}, who - {flights[h].req.buf})
  {
  }

  // ---- the driver's and the device's steps on the tables ---------------------------------------------------------

  /** What the driver and the device have agreed on so far, which no table holds in one place. */
  datatype Book = Book(taken: nat, seen: nat, availQ: seq<nat>, usedQ: seq<nat>, flights: map<nat, Flight>,
                       own: map<nat, nat>, who: map<nat, nat>)

  datatype Tables = Tables(free: seq<bool>, desc: seq<Desc>, ops: seq<Op>, info: seq<Option<nat>>, busy: set<nat>,
                           g: Book)

  ghost predicate Good(t: Tables) {
    && Split(t.free, t.desc, t.g.flights, t.g.own) && AllDescribed(t.desc, t.ops, t.info, t.g.flights)
    && Marked(t.busy, t.g.flights, t.g.who)
    && AtStage(t.g.availQ, t.g.flights, Offered) && AtStage(t.g.usedQ, t.g.flights, Completed)
  }

  lemma GoodSizes(t: Tables)
    requires Good(t)
    ensures |t.free| == |t.desc| == |t.ops| == |t.info| == NUM
    ensures forall i :: 0 <= i < NUM && t.free[i] ==> t.desc[i] == CLEARED
    ensures |t.g.availQ| <= NUM && |t.g.usedQ| <= NUM
    ensures forall h: nat :: (h in t.g.availQ || h in t.g.usedQ) ==> h in t.g.flights
  {
    hide AllDescribed, Marked;
    RingHasRoom(t.free, t.desc, t.g.flights, t.g.own, t.g.availQ, Offered);
    RingHasRoom(t.free, t.desc, t.g.flights, t.g.own, t.g.usedQ, Completed);
    assert |t.ops| == |t.info| == NUM by { DescribedSizes(t.desc, t.ops, t.info, t.g.flights); }
  }

  lemma DescribedSizes(desc: seq<Desc>, ops: seq<Op>, info: seq<Option<nat>>, flights: map<nat, Flight>)
    requires AllDescribed(desc, ops, info, flights)
    ensures |ops| == |info| == NUM
  {
  }

  lemma FlightFacts(t: Tables, h: nat)
    requires Good(t) && h in t.g.flights
    ensures var f := t.g.flights[h];
            && f.head == h && WellFormed(f) && |t.free| == |t.desc| == |t.ops| == |t.info| == NUM
            && Linked(t.free, t.desc, f)
            && Decode(t.desc, t.ops, h) == Some(f.req) && t.info[h] == Some(f.req.buf)
            && (f.req.buf in t.busy <==> f.stage != Finished)
  {
    hide AtStage;
    assert Owns(t.g.own, t.g.flights[h]);
    assert Described(t.desc, t.ops, t.info, t.g.flights[h]);
  }

  lemma TableClosed(t: Tables)
    requires Good(t)
    ensures Closed(t.desc)
  {
    hide AtStage, Marked, AllDescribed;
    forall i: nat | i < NUM && t.desc[i].hasNext ensures t.desc[i].next < NUM {
      assert OwnedBy(t.g.own, t.g.flights, i);
      FlightFacts(t, t.g.own[i]);
    }
  }

  ghost function Offering(g: Book, f: Flight): Book {
    g.(availQ := g.availQ + [f.head], flights := g.flights[f.head := f],
       own := g.own[f.head := f.head][f.data := f.head][f.status := f.head], who := g.who[f.req.buf := f.head])
  }

  ghost function Submitted(t: Tables, f: Flight): Tables {
    if !WellFormed(f) || !(|t.free| == |t.desc| == |t.ops| == |t.info| == NUM) then t else
    Tables(TakeUp(t.free, f.head, f.data, f.status), Format(t.desc, f), t.ops[f.head := Op(f.req.write, f.req.sector)],
           t.info[f.head := Some(f.req.buf)], t.busy + {f.req.buf}, Offering(t.g, f))
  }

  lemma SubmittedIs(t: Tables, f: Flight)
    requires WellFormed(f) && |t.free| == |t.desc| == |t.ops| == |t.info| == NUM
    ensures Submitted(t, f)
            == Tables(TakeUp(t.free, f.head, f.data, f.status), Format(t.desc, f),
                      t.ops[f.head := Op(f.req.write, f.req.sector)],
                      t.info[f.head := Some(f.req.buf)], t.busy + {f.req.buf}, Offering(t.g, f))
  {
  }

  lemma SubmitKeeps(t: Tables, f: Flight)
    requires Good(t) && WellFormed(f) && f.req.buf !in t.g.who && f.stage == Offered
    requires |t.free| == |t.desc| == |t.ops| == |t.info| == NUM && t.free[f.head] && t.free[f.data] && t.free[f.status]
    ensures Good(Submitted(t, f)) && f.head !in t.g.flights && |t.g.availQ| < NUM
  {
    var t' := Submitted(t, f);
    assert forall i :: i in t.g.own && Has(f, i) ==> false;
    hide Split, AllDescribed, Described, Marked, AtStage, TakeUp, Format;
    FormatDescribes(t.desc, t.ops, t.info, f);
    SplitMore(t.free, t.desc, t.g.flights, t.g.own, f, t'.desc);
    DescribedApart(t.free, t.desc, t.ops, t.info, t.g.flights, t.g.own, f, t'.desc, t'.ops, t'.info);
    DescribedMore(t'.desc, t'.ops, t'.info, t.g.flights, f);
    NotQueued(t.g.availQ, t.g.flights, f.head, Offered);
    RingHasRoom(t.free, t.desc, t.g.flights, t.g.own, t.g.availQ, Offered);
    MarkNew(t.busy, t.g.flights, t.g.who, f.head, f);
    Enter(t.g.availQ, t.g.flights, f.head, f, Offered);
    Elsewhere(t.g.usedQ, t.g.flights, f.head, f, Completed);
  }

  lemma NotQueued(q: seq<nat>, flights: map<nat, Flight>, h: nat, stage: Stage)
    requires AtStage(q, flights, stage) && (h in flights ==> flights[h].stage != stage)
    ensures h !in q
  {
  }

  lemma QueuedIs(q: seq<nat>, flights: map<nat, Flight>, stage: Stage)
    requires AtStage(q, flights, stage) && q != []
    ensures q[0] in flights && flights[q[0]].stage == stage
  {
    assert q[0] in q;
  }

  ghost function Took(t: Tables): Tables {
    if t.g.availQ == [] || t.g.availQ[0] !in t.g.flights then t else
    t.(g := t.g.(taken := t.g.taken + 1, availQ := t.g.availQ[1..], flights := Move(t.g.flights, t.g.availQ[0], Taken)))
  }

  lemma TakeKeeps(t: Tables)
    requires Good(t) && t.g.availQ != []
    ensures t.g.availQ[0] in t.g.flights && Good(Took(t))
  {
    hide Split, AllDescribed, Marked, AtStage;
    var h := t.g.availQ[0];
    QueuedIs(t.g.availQ, t.g.flights, Offered);
    Restage(t.free, t.desc, t.ops, t.info, t.g.flights, t.g.own, h, Taken);
    MarkMove(t.busy, t.g.flights, t.g.who, h, Taken);
    Leave(t.g.availQ, t.g.flights, t.g.flights[h].(stage := Taken), Offered);
    Elsewhere(t.g.usedQ, t.g.flights, h, t.g.flights[h].(stage := Taken), Completed);
  }

  ghost function Reported(t: Tables, h: nat): Tables
    requires h in t.g.flights
  {
    t.(g := t.g.(usedQ := t.g.usedQ + [h], flights := Move(t.g.flights, h, Completed)))
  }

  lemma CompleteKeeps(t: Tables, h: nat)
    requires Good(t) && h in t.g.flights && t.g.flights[h].stage == Taken
    ensures |t.g.usedQ| < NUM && h < NUM && Good(Reported(t, h))
  {
    FlightFacts(t, h);
    hide Split, AllDescribed, Marked, AtStage;
    NotQueued(t.g.usedQ, t.g.flights, h, Completed);
    RingHasRoom(t.free, t.desc, t.g.flights, t.g.own, t.g.usedQ, Completed);
    Restage(t.free, t.desc, t.ops, t.info, t.g.flights, t.g.own, h, Completed);
    MarkMove(t.busy, t.g.flights, t.g.who, h, Completed);
    Enter(t.g.usedQ, t.g.flights, h, t.g.flights[h].(stage := Completed), Completed);
    Elsewhere(t.g.availQ, t.g.flights, h, t.g.flights[h].(stage := Completed), Offered);
  }

  ghost function RetiredOne(t: Tables): Tables {
    if t.g.usedQ == [] || t.g.usedQ[0] !in t.g.flights then t else
    t.(g := t.g.(seen := t.g.seen + 1, usedQ := t.g.usedQ[1..], flights := Move(t.g.flights, t.g.usedQ[0], Finished)),
       busy := t.busy - {t.g.flights[t.g.usedQ[0]].req.buf})
  }

  ghost function RetireMany(t: Tables, n: nat): Tables {
    if n == 0 then t else RetiredOne(RetireMany(t, n - 1))
  }

  /** Retiring the first `n` reports, one by one, finishes their requests and no others. */
  lemma {:induction false} RetireManyIs(t: Tables, n: nat)
    requires Good(t) && n <= |t.g.usedQ|
    ensures RetireMany(t, n).g.usedQ == t.g.usedQ[n..]
    ensures RetireMany(t, n).g.flights == Retired(t.g.flights, t.g.usedQ[..n])
  {
    hide Retired, Good;
    if n == 0 {
      NoneRetired(t.g.flights);
    } else {
      RetireManyIs(t, n - 1);
      GoodSizes(t);
      var h := t.g.usedQ[n - 1];
      assert h in t.g.usedQ && t.g.usedQ[..n] == t.g.usedQ[..n - 1] + [h];
      OneRetired(t.g.flights, t.g.usedQ[..n - 1], h);
    }
  }

  lemma RetireKeeps(t: Tables)
    requires Good(t) && t.g.usedQ != []
    ensures t.g.usedQ[0] in t.g.flights && Good(RetiredOne(t))
  {
    hide Split, AllDescribed, Marked, AtStage;
    var h := t.g.usedQ[0];
    QueuedIs(t.g.usedQ, t.g.flights, Completed);
    Restage(t.free, t.desc, t.ops, t.info, t.g.flights, t.g.own, h, Finished);
    MarkMove(t.busy, t.g.flights, t.g.who, h, Finished);
    Leave(t.g.usedQ, t.g.flights, t.g.flights[h].(stage := Finished), Completed);
    Elsewhere(t.g.availQ, t.g.flights, h, t.g.flights[h].(stage := Finished), Offered);
  }

  ghost function Forgetting(g: Book, f: Flight): Book {
    g.(flights := g.flights - {f.head}, own := g.own - {f.head, f.data, f.status}, who := g.who - {f.req.buf})
  }

  ghost function Released(t: Tables, h: nat): Tables
    requires h in t.g.flights
  {
    var f := t.g.flights[h];
    if !WellFormed(f) || !(|t.free| == |t.desc| == |t.info| == NUM) || h >= NUM then t else
    t.(free := FreeUp(t.free, f), desc := Clear(t.desc, f),
       info := t.info[h := None], g := Forgetting(t.g, f))
  }

  lemma FinishKeeps(t: Tables, h: nat)
    requires Good(t) && h in t.g.flights && t.g.flights[h].stage == Finished
    requires t.g.flights[h].head == h && WellFormed(t.g.flights[h]) && |t.free| == |t.desc| == |t.info| == NUM
    ensures Good(Released(t, h))
    ensures var f := t.g.flights[h];
            Released(t, h) == t.(free := FreeUp(t.free, f), desc := Clear(t.desc, f), info := t.info[h := None],
                                 g := Forgetting(t.g, f))
  {
    hide Split, AllDescribed, Marked, AtStage, FreeUp, Clear;
    SplitLess(t.free, t.desc, t.g.flights, t.g.own, h);
    Erased(t.free, t.desc, t.ops, t.info, t.g.flights, t.g.own, t.g.flights[h]);
    MarkGone(t.busy, t.g.flights, t.g.who, h);
    Gone(t.g.availQ, t.g.flights, h, Offered);
    Gone(t.g.usedQ, t.g.flights, h, Completed);
  }

  class Disk {
    var free: seq<bool>
    var desc: seq<Desc>
    var ops: seq<Op>
    var info: seq<Option<nat>>
    var status: seq<nat>
    var busy: set<nat>                  // the buffers whose `disk` field is 1
    var avail: seq<nat>
    var availIdx: nat
    var used: seq<nat>
    var usedIdx: nat                    // the device's index
    var seenIdx: nat                    // the driver's index into the used ring
    var takenIdx: nat                   // the device's index into the available ring
    ghost var g: Book

    ghost function View(): Tables
      reads this
    {
      Tables(free, desc, ops, info, busy, g)
    }

    ghost predicate Rings()
      reads this
    {
      && |status| == NUM
      && Ring(avail, availIdx, takenIdx, g.taken, g.availQ) && Ring(used, usedIdx, seenIdx, g.seen, g.usedQ)
    }

    ghost predicate Valid()
      reads this
    {
      Good(View()) && Rings()
    }

    constructor ()
      ensures Valid() && g.flights == map[] && busy == {}
    {
      free := seq(NUM, _ => true);
      desc := seq(NUM, _ => CLEARED);
      ops := seq(NUM, _ => Op(false, 0));
      info := seq(NUM, _ => None);
      status := seq(NUM, _ => 0);
      busy := {};
      avail := seq(NUM, _ => 0);
      used := seq(NUM, _ => 0);
      availIdx, usedIdx, seenIdx, takenIdx := 0, 0, 0, 0;
      g := Book(0, 0, [], [], map[], map[], map[]);
    }

    /** alloc_desc: the lowest free descriptor, or -1 when there is none. */
    method AllocDesc() returns (i: int)
      requires |free| == NUM
      modifies `free
      ensures -1 <= i < NUM
      ensures i == -1 ==> free == old(free) && forall j :: 0 <= j < NUM ==> !free[j]
      ensures i >= 0 ==> old(free[i]) && free == old(free)[i := false] && forall j :: 0 <= j < i ==> !old(free[j])
    {
      i := 0;
      while i < NUM
        invariant 0 <= i <= NUM && free == old(free)
        invariant forall j :: 0 <= j < i ==> !free[j]
      {
        if free[i] {
          free := free[i := false];
          return;
        }
        i := i + 1;
      }
      i := -1;
    }

    method FreeDesc(i: nat) returns (o: Outcome)
      requires |free| == |desc| == NUM
      modifies `free, `desc
      ensures o.Done? <==> i < NUM && !old(free[i])
      ensures o.Done? ==> free == old(free)[i := true] && desc == old(desc)[i := CLEARED]
      ensures o.Panic? ==> free == old(free) && desc == old(desc)
    {
      if i >= NUM { return Panic("free_desc 1"); }
      if free[i] { return Panic("free_desc 2"); }
      desc := desc[i := CLEARED];
      free := free[i := true];
      o := Done;
    }

    /**
     * free_chain on any table whose links stay inside it. It always ends: it frees the descriptors it comes by, each
     * once, and panics exactly when the links lead it to one that is free, be it one it has just freed.
     */
    method FreeChain(start: nat) returns (o: Outcome, ghost path: seq<nat>)
      requires |free| == |desc| == NUM && start < NUM && Closed(desc)
      modifies `free, `desc
      ensures Path(old(desc), start, path) && Distinct(path) && Freed(old(free), old(desc), free, desc, path)
      ensures o.Done? <==> path != [] && !old(desc)[path[|path| - 1]].hasNext
      ensures o.Panic? ==> var stop := Onward(old(desc), start, path); stop < NUM && (old(free)[stop] || stop in path)
    {
      hide Distinct;
      var i := start;
      path := [];
      assert Distinct(path) by { DistinctNone(); }
      while true
        invariant Path(old(desc), start, path) && Distinct(path) && i == Onward(old(desc), start, path) < NUM
        invariant path != [] ==> old(desc)[path[|path| - 1]].hasNext
        invariant Freed(old(free), old(desc), free, desc, path)
        decreases |InUse(free)|
      {
        var flag, next := desc[i].hasNext, desc[i].next;
        ghost var before := free;
        o := FreeDesc(i);
        if o.Panic? { return; }
        FewerInUse(before, i);
        DistinctMore(path, i);
        PathMore(old(desc), start, path, i);
        path := path + [i];
        if flag { i := next; } else { break; }
      }
    }

    /** The descriptors `got` have been taken, in increasing order, from those free in `before`. */
    ghost predicate TookFrom(before: seq<bool>, got: seq<nat>)
      reads `free
    {
      && |free| == |before| == NUM
      && (forall k :: 0 <= k < |got| ==> got[k] < NUM && before[got[k]])
      && (forall k, l :: 0 <= k < l < |got| ==> got[k] < got[l])
      && (forall j: nat :: j < NUM ==> (free[j] <==> before[j] && j !in got))
    }

    method Rollback(got: seq<nat>, ghost before: seq<bool>)
      requires TookFrom(before, got) && |desc| == NUM
      requires forall i :: 0 <= i < NUM && before[i] ==> desc[i] == CLEARED
      modifies `free, `desc
      ensures free == before && desc == old(desc)
    {
      var j := 0;
      while j < |got|
        invariant 0 <= j <= |got| && desc == old(desc)
        invariant TookFrom(before, got[j..])
      {
        var o := FreeDesc(got[j]);
        assert got[j..] == [got[j]] + got[j + 1..];
        j := j + 1;
      }
      assert free == before;
    }

    /** alloc3_desc: three distinct descriptors, or nothing changed and fewer than three are free. */
    method Alloc3Desc() returns (idx: Option<(nat, nat, nat)>)
      requires |free| == |desc| == NUM && forall i :: 0 <= i < NUM && free[i] ==> desc[i] == CLEARED
      modifies `free, `desc
      ensures desc == old(desc)
      ensures idx.Some? ==> var (a, b, c) := idx.value;
                            && a < b < c < NUM && old(free[a]) && old(free[b]) && old(free[c])
                            && free == TakeUp(old(free), a, b, c)
      ensures idx.None? ==> && free == old(free)
                            && exists a: nat, b: nat :: OnlyFree(free, a, b)
    {
      var got: seq<nat> := [];
      while |got| < 3
        invariant |got| <= 3 && desc == old(desc)
        invariant TookFrom(old(free), got)
        invariant got != [] ==> forall j :: 0 <= j <= got[|got| - 1] ==> !free[j]
      {
        var i := AllocDesc();
        if i < 0 {
          Rollback(got, old(free));
          FewLeft(free, got);
          return None;
        }
        assert got != [] ==> got[|got| - 1] < i;
        got := got + [i];
      }
      idx := Some((got[0], got[1], got[2]));
      assert got == [got[0], got[1], got[2]];
      assert free == old(free)[got[0] := false][got[1] := false][got[2] := false];
    }

    /** The part of virtio_disk_rw that formats a chain. */
    method FormatChain(a: nat, b: nat, c: nat, blockno: nat, write: bool, buf: nat)
      requires a < b < c < NUM && |desc| == |ops| == |info| == |status| == NUM
      modifies `desc, `ops, `info, `status
      ensures desc == Format(old(desc), Flight(a, b, c, Request(write, Sector(blockno), buf), Offered))
      ensures ops == old(ops)[a := Op(write, Sector(blockno))] && info == old(info)[a := Some(buf)]
      ensures status == old(status)[a := 0xff]
    {
      ops := ops[a := Op(write, Sector(blockno))];
      desc := desc[a := Desc(Header(a), 16, false, true, b)];
      desc := desc[b := Desc(Data(buf), BSIZE, !write, true, c)];
      status := status[a := 0xff];
      desc := desc[c := Desc(Status(a), 1, true, false, 0)];
      info := info[a := Some(buf)];
    }

    /** The part of virtio_disk_rw that puts a chain's head on the available ring. */
    method Notify(a: nat, ghost f: Flight)
      requires Ring(avail, availIdx, takenIdx, g.taken, g.availQ) && |g.availQ| < NUM && f.head == a
      modifies `avail, `availIdx, `g
      ensures g == Offering(old(g), f) && Ring(avail, availIdx, takenIdx, g.taken, g.availQ)
      ensures g.seen == old(g.seen) && g.usedQ == old(g.usedQ)
    {
      hide Ring;
      RingPush(avail, availIdx, takenIdx, g.taken, g.availQ, a);
      avail := avail[availIdx % NUM := a];
      availIdx := (availIdx + 1) % WRAP;
      g := Offering(g, f);
    }

    /** virtio_disk_rw up to its wait: offer a request to the device, or change nothing for want of descriptors. */
    method Submit(blockno: nat, write: bool, buf: nat) returns (head: Option<nat>, ghost f: Flight)
      requires Valid() && buf !in g.who // the caller holds the buffer's sleep-lock: it has no request in flight
      modifies this
      ensures Valid()
      ensures head.None? ==> View() == old(View()) && exists a: nat, b: nat :: OnlyFree(free, a, b)
      ensures head.Some? ==> && f.head == head.value && f.req.write == write && f.req.buf == buf
                             && f.req.sector == 2 * blockno % 0x1_0000_0000
                             && (blockno < 0x8000_0000 ==> f.req.sector * SECTOR == blockno * BSIZE)
                             && f.stage == Offered && f.head !in old(g.flights)
                             && View() == Submitted(old(View()), f)
    {
      hide Good, Ring;
      hide TakeUp, Format, Submitted, Sector, Offering;
      ghost var t := View();
      SectorIs(blockno);
      GoodSizes(t);
      var idx := Alloc3Desc();
      if idx.None? { return None, Flight(0, 0, 0, Request(write, 0, buf), Offered); }
      var (a, b, c) := idx.value;
      f := Flight(a, b, c, Request(write, Sector(blockno), buf), Offered);
      SubmitKeeps(t, f);
      FormatChain(a, b, c, blockno, write, buf);
      busy := busy + {buf};
      Notify(a, f);
      SubmittedIs(t, f);
      head := Some(a);
    }

    /** The device takes the oldest offered request and finds in the tables exactly what was submitted. */
    method Take() returns (r: Option<Request>)
      requires Valid()
      modifies `takenIdx, `g
      ensures Valid() && View() == Took(old(View()))
      ensures r.None? <==> old(g.availQ) == []
      ensures r.Some? ==> old(g.availQ[0] in g.flights) && r.value == old(g.flights[g.availQ[0]]).req
    {
      hide Good, Ring, Decode;
      GoodSizes(View());
      RingPop(avail, availIdx, takenIdx, g.taken, g.availQ);
      if takenIdx == availIdx { return None; }
      TakeKeeps(View());
      var h := avail[takenIdx % NUM];
      FlightFacts(View(), h);
      r := Decode(desc, ops, h);
      takenIdx := (takenIdx + 1) % WRAP;
      g := g.(taken := g.taken + 1, availQ := g.availQ[1..], flights := Move(g.flights, h, Taken));
    }

    /** The device reports any request it has taken, with a status of its own. */
    method Complete(h: nat, code: nat)
      requires Valid() && h in g.flights && g.flights[h].stage == Taken
      modifies `status, `used, `usedIdx, `g
      ensures Valid() && View() == Reported(old(View()), h)
      ensures h < |old(status)| && status == old(status)[h := code]
    {
      hide Good, Ring;
      CompleteKeeps(View(), h);
      RingPush(used, usedIdx, seenIdx, g.seen, g.usedQ, h);
      status := status[h := code];
      used := used[usedIdx % NUM := h];
      usedIdx := (usedIdx + 1) % WRAP;
      g := g.(usedQ := g.usedQ + [h], flights := Move(g.flights, h, Completed));
    }

    /** One turn of virtio_disk_intr's loop: the oldest report is matched with the buffer of its own request. */
    method Retire() returns (o: Outcome)
      requires Valid() && g.usedQ != []
      modifies `busy, `seenIdx, `g
      ensures Valid() && old(g.usedQ[0]) < |status|
      ensures o.Done? <==> status[old(g.usedQ[0])] == 0
      ensures View() == if o.Done? then RetiredOne(old(View())) else old(View())
      ensures old(g.usedQ[0] in g.flights)
    {
      hide Good, Ring, Decode;
      GoodSizes(View());
      RingPop(used, usedIdx, seenIdx, g.seen, g.usedQ);
      RetireKeeps(View());
      var id := used[seenIdx % NUM];
      FlightFacts(View(), id);
      if status[id] != 0 { return Panic("virtio_disk_intr status"); }
      busy := busy - {info[id].value};
      seenIdx := (seenIdx + 1) % WRAP;
      g := g.(seen := g.seen + 1, usedQ := g.usedQ[1..], flights := Move(g.flights, id, Finished));
      o := Done;
    }

    /** virtio_disk_intr: every report is retired unless one carries an error. */
    method Interrupt() returns (o: Outcome)
      requires Valid()
      modifies `busy, `seenIdx, `g
      ensures Valid()
      ensures o.Done? <==> forall h :: h in old(g.usedQ) ==> h < |status| && status[h] == 0
      ensures o.Done? ==> g.usedQ == [] && g.flights == Retired(old(g.flights), old(g.usedQ))
    {
      hide Good, Ring, Retired, RetiredOne;
      ghost var t, n := View(), 0;
      GoodSizes(t);
      RingPop(used, usedIdx, seenIdx, g.seen, g.usedQ);
      while seenIdx != usedIdx
        invariant Valid() && n <= |t.g.usedQ| && View() == RetireMany(t, n) && g.usedQ == t.g.usedQ[n..]
        invariant seenIdx == usedIdx <==> g.usedQ == []
        invariant forall k :: 0 <= k < n ==> t.g.usedQ[k] < |status| && status[t.g.usedQ[k]] == 0
        decreases |g.usedQ|
      {
        o := Retire();
        if o.Panic? {
          assert t.g.usedQ[n] in t.g.usedQ;
          return;
        }
        n := n + 1;
        RetireManyIs(t, n);
        GoodSizes(View());
        RingPop(used, usedIdx, seenIdx, g.seen, g.usedQ);
      }
      RetireManyIs(t, n);
      assert t.g.usedQ[..n] == t.g.usedQ;
      o := Done;
    }

    /** The rest of virtio_disk_rw: once its buffer is no longer marked, the request's chain is given back whole. */
    method Finish(h: nat) returns (done: bool)
      requires Valid() && h in g.flights
      modifies `free, `desc, `info, `g
      ensures Valid()
      ensures done <==> old(g.flights[h]).stage == Finished
      ensures done ==> View() == Released(old(View()), h)
      ensures !done ==> View() == old(View())
    {
      hide Good, Ring, Linked, FreeUp, Clear, Released;
      ghost var t, f := View(), g.flights[h];
      FlightFacts(t, h);
      if info[h].value in busy { return false; }
      TableClosed(t);
      var o, path := FreeChain(h);
      ChainIsPath(t.free, t.desc, free, desc, f, path, o.Done?);
      FinishKeeps(t, h);
      info := info[h := None];
      g := Forgetting(g, f);
      assert View() == Released(t, h);
      done := true;
    }
  }
}
