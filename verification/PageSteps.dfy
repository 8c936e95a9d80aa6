/** What the operations of kernel/vm.c do to memory as a whole, and why they keep it in order. */
module PageSteps {
  import opened Common
  import opened PageMap

  function Vpn(va: nat): nat {
    va / PGSIZE
  }

  /** The place on the way to page `vpn` at a level, and the index PX takes there. */
  function Up(root: nat, vpn: nat, level: nat): Place {
    if level == 0 then Place(root, 0, vpn) else Parent(Up(root, vpn, level - 1))
  }

  function Px(level: nat, vpn: nat): nat {
    Up(0, vpn, level).idx % ENTRIES
  }

  lemma UpIs(root: nat, vpn: nat)
    ensures Up(root, vpn, 1) == Place(root, 1, vpn / 512) && Up(root, vpn, 2) == Place(root, 2, vpn / 512 / 512)
    ensures Up(root, vpn, 3) == Place(root, 3, vpn / 512 / 512 / 512)
    ensures vpn < MAXVA / PGSIZE ==> Up(root, vpn, 3) == Place(root, 3, 0)
    ensures Px(0, vpn) == vpn % 512 && Px(1, vpn) == vpn / 512 % 512 && Px(2, vpn) == vpn / 512 / 512 % 512
  {
    assert Up(root, vpn, 0) == Place(root, 0, vpn) && Up(0, vpn, 0) == Place(0, 0, vpn);
    assert Up(root, vpn, 1) == Place(root, 1, vpn / 512) && Up(0, vpn, 1) == Place(0, 1, vpn / 512);
    assert Up(root, vpn, 2) == Place(root, 2, vpn / 512 / 512) && Up(0, vpn, 2) == Place(0, 2, vpn / 512 / 512);
  }

  /** Pages with contents of their own: handed out, or mapped and owned. */
  ghost predicate Live(g: Book, b: nat) {
    b in g.held || (b in g.owner && g.owner[b].level == 0)
  }

  /** Tables of the tree `root` may have been added; nothing else changed but the free list. */
  ghost predicate Grown(v: Mem, v': Mem, root: nat) {
    && v'.lo == v.lo && |v'.ram| == |v.ram| && v'.g.leaves == v.g.leaves && v'.g.held == v.g.held
    && (forall p :: p in v.g.nodes ==> p in v'.g.nodes && v'.g.nodes[p] == v.g.nodes[p])
    && (forall p :: p in v'.g.nodes && p !in v.g.nodes ==> p.root == root && p.level < 3)
    && (forall b: nat :: b < |v.ram| && Live(v.g, b) ==> Live(v'.g, b) && v'.ram[b] == v.ram[b])
  }

  lemma GrownSelf(v: Mem, root: nat)
    ensures Grown(v, v, root)
  {
  }

  lemma GrownTwice(v: Mem, v1: Mem, v2: Mem, root: nat)
    requires Grown(v, v1, root) && Grown(v1, v2, root)
    ensures Grown(v, v2, root)
  {
    hide Live;
  }

  /** In the tree `root` tables and mappings may have come; other trees and the pages in use have not changed. */
  ghost predicate Kept(v: Mem, v': Mem, root: nat) {
    && v'.lo == v.lo && |v'.ram| == |v.ram|
    && (forall p :: p in v.g.nodes ==> p in v'.g.nodes && v'.g.nodes[p] == v.g.nodes[p])
    && (forall p :: p in v'.g.nodes && p !in v.g.nodes ==> p.root == root && p.level < 3)
    && (forall b: nat :: b < |v.ram| && Live(v.g, b) ==> Live(v'.g, b) && v'.ram[b] == v.ram[b])
  }

  lemma KeptTwice(v: Mem, v1: Mem, v2: Mem, root: nat)
    requires Kept(v, v1, root) && Kept(v1, v2, root)
    ensures Kept(v, v2, root)
  {
    hide Live;
  }

  lemma HeadIs(v: Mem)
    requires Good(v)
    ensures v.head == 0 <==> v.g.free == []
    ensures v.g.free != [] ==> v.head == v.g.free[0] * PGSIZE && v.head / PGSIZE == v.g.free[0] != 0
  {
    hide Trees, Tables;
    if v.g.free != [] {
      assert LinkAt(v.ram, v.g.free, 0) && PageOnce(v.lo, |v.ram|, v.g, v.g.free[0]);
    }
  }

  ghost function PageSet(lo: nat, hi: nat): set<nat>
    decreases hi - lo
  {
    if lo >= hi then {} else {lo} + PageSet(lo + 1, hi)
  }

  lemma {:induction false} PageSetIs(lo: nat, hi: nat)
    ensures forall p: nat :: p in PageSet(lo, hi) <==> lo <= p < hi
    decreases hi - lo
  {
    if lo < hi { PageSetIs(lo + 1, hi); }
  }

  lemma NothingFree(v: Mem)
    requires Shaped(v.lo, v.ram) && v.head == 0
    requires forall p: nat :: p in v.g.held <==> v.lo <= p < |v.ram|
    requires v.g.nodes == map[] && v.g.leaves == map[] && v.g.owner == map[] && v.g.free == []
    ensures Good(v)
  {
  }

  lemma AllFree(v: Mem)
    requires Good(v) && v.g.nodes == map[] && v.g.leaves == map[] && v.g.held == {}
    ensures forall p: nat :: v.lo <= p < |v.ram| <==> p in v.g.free
  {
    hide Linked, Tables;
    forall p: nat ensures v.lo <= p < |v.ram| <==> p in v.g.free {
      assert PageOnce(v.lo, |v.ram|, v.g, p);
    }
  }

  lemma RootIs(v: Mem, root: nat)
    requires Good(v) && Place(root, 3, 0) in v.g.nodes
    ensures v.g.nodes[Place(root, 3, 0)] == root
  {
    hide Conserved, Linked, Shaped, Tables;
    assert NodeOk(v.g, Place(root, 3, 0));
  }

  lemma NodeNotNull(v: Mem, p: Place)
    requires Good(v) && p in v.g.nodes
    ensures 0 < v.g.nodes[p] < |v.ram| && |v.ram[v.g.nodes[p]]| == ENTRIES
  {
    hide Conserved, Linked, Tables, Trees;
    NodePage(v, NONE, p);
  }

  /** The word about place `c` in the table above it. */
  lemma EntryMeans(v: Mem, c: Place)
    requires Good(v) && Parent(c) in v.g.nodes && c.level < 3
    ensures var cur := v.g.nodes[Parent(c)];
            && cur < |v.ram| && |v.ram[cur]| == ENTRIES && EntryOk(v.ram[cur][c.idx % ENTRIES], v.g, c)
            && (c.level > 0 && c in v.g.nodes ==> PtePage(v.ram[cur][c.idx % ENTRIES]) == v.g.nodes[c])
            && (c.level > 0 ==> (IsValid(v.ram[cur][c.idx % ENTRIES]) <==> c in v.g.nodes))
            && (c.level == 0 ==> (IsValid(v.ram[cur][c.idx % ENTRIES]) <==> c in v.g.leaves))
  {
    hide Conserved, Linked, Trees, Shaped, PtePage, IsValid, Pte;
    assert TableOk(v.ram, v.g, Parent(c), NONE);
    ParentOf(c);
    if c in v.g.nodes { PteParts(v.g.nodes[c], PTE_V); }
  }

  /** What walk finds in a table on its way. */
  lemma OnTheWay(v: Mem, root: nat, vpn: nat, level: nat)
    requires Good(v) && 0 < level <= 2 && Up(root, vpn, level + 1) in v.g.nodes
    ensures var cur, c := v.g.nodes[Up(root, vpn, level + 1)], Up(root, vpn, level);
            && 0 < cur < |v.ram| && |v.ram[cur]| == ENTRIES && Px(level, vpn) < ENTRIES
            && (IsValid(v.ram[cur][Px(level, vpn)]) <==> c in v.g.nodes)
            && (c in v.g.nodes ==> PtePage(v.ram[cur][Px(level, vpn)]) == v.g.nodes[c] != 0)
            && (c !in v.g.nodes ==> Up(root, vpn, 1) !in v.g.nodes)
  {
    hide Conserved, Linked, Tables, Trees, EntryOk, PtePage, IsValid;
    var cur, c := v.g.nodes[Up(root, vpn, level + 1)], Up(root, vpn, level);
    UpIs(root, vpn);
    NodePage(v, NONE, Parent(c));
    ParentOf(c);
    EntryMeans(v, c);
    if c in v.g.nodes {
      NodePage(v, NONE, c);
    } else if Up(root, vpn, 1) in v.g.nodes {
      NodePage(v, NONE, Up(root, vpn, 1));
    }
  }

  /** A page just allocated and cleared. */
  lemma ClearedPage(v: Mem, p: nat)
    requires Good(v) && v.g.free != [] && p == v.g.free[0] && p < |v.ram|
    ensures var v1 := Popped(v);
            && p < |v1.ram| && Good(v1.(ram := v1.ram[p := Filled(0)]))
  {
    hide GoodBut;
    PopKeeps(v, NONE);
    FillKeeps(Popped(v), NONE, p, Filled(0));
  }

  lemma HeldNotOwned(v: Mem, p: nat)
    requires Good(v) && v.g.free != [] && p == v.g.free[0]
    ensures p !in v.g.held && p !in v.g.owner && p > 0
  {
    hide Linked, Tables, Trees;
    assert PageOnce(v.lo, |v.ram|, v.g, p);
  }

  lemma NewTable(v: Mem, v1: Mem, c: Place, p: nat, cur: nat, j: nat)
    requires Good(v) && v.g.free != [] && p == v.g.free[0] && p < |v.ram| && p < |Popped(v).ram|
    requires v1 == Popped(v).(ram := Popped(v).ram[p := Filled(0)]) && Good(v1)
    requires c !in v.g.nodes && 0 < c.level < 3 && Parent(c) in v.g.nodes && v.g.nodes[Parent(c)] == cur
    requires j == c.idx % ENTRIES
    ensures cur < |v1.ram| && |v1.ram[cur]| == ENTRIES && p > 0
    ensures AttachNode(v1, c, p) == v1.(ram := v1.ram[cur := SetWord(v1.ram[cur], j, Pte(p, PTE_V))],
                                        g := AttachNode(v1, c, p).g)
    ensures Good(AttachNode(v1, c, p)) && Grown(v, AttachNode(v1, c, p), c.root)
  {
    hide Conserved, Linked, Tables, Trees, Pte, Filled;
    PopKeeps(v, NONE);
    AttachNodeKeeps(v1, c, p);
    NodePage(v1, NONE, Parent(c));
    NodePage(v, NONE, Parent(c));
    HeldNotOwned(v, p);
  }

  /** The entry walk leads to. */
  lemma FoundWord(v: Mem, root: nat, vpn: nat)
    requires Good(v) && Up(root, vpn, 1) in v.g.nodes
    ensures var c, t := Place(root, 0, vpn), v.g.nodes[Up(root, vpn, 1)];
            && Parent(c) == Up(root, vpn, 1) && c.idx % ENTRIES == Px(0, vpn) < ENTRIES
            && t < |v.ram| && |v.ram[t]| == ENTRIES && (IsValid(v.ram[t][Px(0, vpn)]) <==> c in v.g.leaves)
            && (c in v.g.leaves ==> v.ram[t][Px(0, vpn)] == v.g.leaves[c].pte)
  {
    hide Conserved, Linked, Tables, Trees;
    UpIs(root, vpn);
    EntryMeans(v, Place(root, 0, vpn));
  }

  lemma NoTableNoLeaf(v: Mem, root: nat, vpn: nat)
    requires Good(v) && Up(root, vpn, 1) !in v.g.nodes
    ensures Place(root, 0, vpn) !in v.g.leaves
  {
    hide Conserved, Linked, Tables;
    UpIs(root, vpn);
    assert Place(root, 0, vpn) in v.g.leaves ==> LeafOk(v.g, Place(root, 0, vpn));
  }

  lemma LeafHasTable(v: Mem, c: Place)
    requires Good(v)
    ensures c in v.g.leaves ==> Parent(c) in v.g.nodes && c.level == 0
  {
    hide Conserved, Linked, Tables;
    assert c in v.g.leaves ==> LeafOk(v.g, c);
  }

  lemma GrownLeaves(v: Mem, v': Mem, root: nat)
    requires Grown(v, v', root)
    ensures v'.g.leaves == v.g.leaves && v'.g.held == v.g.held && Kept(v, v', root)
  {
    hide Live;
  }

  lemma WroteIs(v: Mem, hole: Place, c: Place, word: nat)
    requires GoodBut(v, hole) && Parent(c) in v.g.nodes
    ensures var t := v.g.nodes[Parent(c)];
            && t < |v.ram| && |v.ram[t]| == ENTRIES
            && Wrote(v, c, word) == v.ram[t := SetWord(v.ram[t], c.idx % ENTRIES, word)]
  {
    hide Conserved, Linked, Trees, Tables;
    NodePage(v, hole, Parent(c));
  }

  /** The mapping `leaf` was entered at `c`; nothing else changed but the tables on the way to it. */
  ghost predicate IsMap(v: Mem, v': Mem, c: Place, leaf: Leaf) {
    && Kept(v, v', c.root) && v'.g.leaves == v.g.leaves[c := leaf]
    && v'.g.held == if leaf.owned then v.g.held - {PtePage(leaf.pte)} else v.g.held
  }

  lemma MapIs(v: Mem, v1: Mem, c: Place, leaf: Leaf)
    requires Good(v) && Good(v1) && Grown(v, v1, c.root) && Parent(c) in v1.g.nodes && c.level == 0
    requires leaf.owned ==> PtePage(leaf.pte) in v.g.held
    ensures IsMap(v, MapLeaf(v1, c, leaf.pte, leaf.owned), c, leaf)
  {
    hide Conserved, Linked, Trees, Tables, Wrote, PtePage;
    NodePage(v1, NONE, Parent(c));
    WroteShape(v1, c, leaf.pte);
    var v' := MapLeaf(v1, c, leaf.pte, leaf.owned);
    forall b: nat | b < |v.ram| && Live(v.g, b) ensures Live(v'.g, b) && v'.ram[b] == v.ram[b] {
    }
  }

  function WithV(perm: nat): nat {
    perm / 2 * 2 + PTE_V
  }

  lemma FlagsWithV(perm: nat)
    requires perm < 1024 && IsLeaf(perm)
    ensures WithV(perm) < 1024 && IsValid(WithV(perm)) && IsLeaf(WithV(perm))
  {
  }

  /** The i-th page from `va` on is below MAXVA and not mapped. */
  predicate Unmapped(leaves: map<Place, Leaf>, root: nat, va: nat, i: nat) {
    va + i * PGSIZE < MAXVA && Place(root, 0, Vpn(va) + i) !in leaves
  }

  /** `k` consecutive pages entered from `vpn` on. */
  ghost function MapRange(leaves: map<Place, Leaf>, root: nat, vpn: nat, page: nat, k: nat, flags: nat, owned: bool)
    : map<Place, Leaf>
  {
    if k == 0 then leaves
    else MapRange(leaves, root, vpn, page, k - 1, flags, owned)[Place(root, 0, vpn + k - 1) :=
                                                                Leaf(Pte(page + k - 1, flags), owned)]
  }

  ghost predicate IsMapRange(v: Mem, v': Mem, root: nat, vpn: nat, page: nat, k: nat, flags: nat, owned: bool) {
    && Kept(v, v', root) && v'.g.leaves == MapRange(v.g.leaves, root, vpn, page, k, flags, owned)
    && forall b: nat :: b in v'.g.held <==> b in v.g.held && !(owned && page <= b < page + k)
  }

  lemma NoRange(v: Mem, root: nat, vpn: nat, page: nat, flags: nat, owned: bool)
    ensures IsMapRange(v, v, root, vpn, page, 0, flags, owned)
  {
  }

  lemma {:induction false} MapRangeOthers(leaves: map<Place, Leaf>, root: nat, vpn: nat, page: nat, k: nat, flags: nat,
                                          owned: bool, c: Place)
    requires !(c.root == root && c.level == 0 && vpn <= c.idx < vpn + k)
    ensures c in MapRange(leaves, root, vpn, page, k, flags, owned) <==> c in leaves
    ensures c in leaves ==> MapRange(leaves, root, vpn, page, k, flags, owned)[c] == leaves[c]
  {
    if k > 0 { MapRangeOthers(leaves, root, vpn, page, k - 1, flags, owned, c); }
  }

  lemma RangeFacts(v: Mem, v1: Mem, root: nat, vpn: nat, page: nat, k: nat, flags: nat, owned: bool)
    requires IsMapRange(v, v1, root, vpn, page, k, flags, owned) && Place(root, 3, 0) in v.g.nodes
    requires owned ==> page + k in v.g.held
    ensures Place(root, 3, 0) in v1.g.nodes && (owned ==> page + k in v1.g.held)
    ensures Place(root, 0, vpn + k) in v1.g.leaves <==> Place(root, 0, vpn + k) in v.g.leaves
  {
    hide Live;
    MapRangeOthers(v.g.leaves, root, vpn, page, k, flags, owned, Place(root, 0, vpn + k));
  }

  lemma RangeGrown(v: Mem, v1: Mem, v2: Mem, root: nat, vpn: nat, page: nat, k: nat, flags: nat, owned: bool)
    requires IsMapRange(v, v1, root, vpn, page, k, flags, owned) && Grown(v1, v2, root)
    ensures IsMapRange(v, v2, root, vpn, page, k, flags, owned)
  {
    hide Kept, Grown, MapRange;
    GrownLeaves(v1, v2, root);
    KeptTwice(v, v1, v2, root);
  }

  lemma RangeMore(v: Mem, v1: Mem, v2: Mem, root: nat, vpn: nat, page: nat, k: nat, flags: nat, owned: bool)
    requires IsMapRange(v, v1, root, vpn, page, k, flags, owned) && flags < 1024
    requires IsMap(v1, v2, Place(root, 0, vpn + k), Leaf(Pte(page + k, flags), owned))
    ensures IsMapRange(v, v2, root, vpn, page, k + 1, flags, owned)
  {
    hide Kept, Pte, PtePage;
    KeptTwice(v, v1, v2, root);
    PteParts(page + k, flags);
  }

  /** No mapping and no page in use was touched, though tables may have been added to the tree `root`. */
  ghost predicate Unchanged(v: Mem, v': Mem, root: nat) {
    Kept(v, v', root) && v'.g.leaves == v.g.leaves && v'.g.held == v.g.held
  }

  lemma RangeShort(v: Mem, v': Mem, root: nat, vpn: nat, page: nat, k: nat, flags: nat, owned: bool)
    requires IsMapRange(v, v', root, vpn, page, k, flags, owned) && k <= 1 && flags < 1024
    ensures k == 0 ==> Unchanged(v, v', root)
    ensures k == 1 ==> IsMap(v, v', Place(root, 0, vpn), Leaf(Pte(page, flags), owned))
  {
    hide Kept, Pte, PtePage;
    PteParts(page, flags);
    assert MapRange(v.g.leaves, root, vpn, page, 0, flags, owned) == v.g.leaves;
  }

  /** A page that was not in use is now mapped at `c` and owned there, with contents `words`; all else is as it was. */
  ghost predicate IsFresh(v: Mem, v': Mem, c: Place, flags: nat, words: Page, page: nat) {
    && Kept(v, v', c.root) && v'.g.leaves == v.g.leaves[c := Leaf(Pte(page, flags), true)] && v'.g.held == v.g.held
    && page < |v'.ram| && v'.ram[page] == words && !Live(v.g, page) && flags < 1024
  }

  lemma Taken(v: Mem, p: nat, words: Page, root: nat)
    requires Good(v) && v.g.free != [] && p == v.g.free[0] && p < |v.ram| && |words| == ENTRIES
    ensures var v1 := Popped(v);
            && p < |v1.ram| && Good(v1.(ram := v1.ram[p := words])) && Kept(v, v1.(ram := v1.ram[p := words]), root)
            && v1.g.leaves == v.g.leaves && v1.g.held == v.g.held + {p} && p !in v.g.held && !Live(v.g, p)
            && v.lo <= p
  {
    hide GoodBut;
    PopKeeps(v, NONE);
    HeldNotOwned(v, p);
    FillKeeps(Popped(v), NONE, p, words);
  }

  lemma GaveBack(v: Mem, v1: Mem, v2: Mem, root: nat, page: nat)
    requires Kept(v, v1, root) && v1.g.leaves == v.g.leaves && v1.g.held == v.g.held + {page} && page !in v.g.held
    requires Unchanged(v1, v2, root) && !Live(v.g, page) && page < |v1.ram|
    ensures page < |v2.ram| && page in v2.g.held && Unchanged(v, Pushed(v2, page), root)
  {
    KeptTwice(v, v1, v2, root);
  }

  lemma FreshIs(v: Mem, v1: Mem, v2: Mem, root: nat, vpn: nat, page: nat, flags: nat, words: Page)
    requires Kept(v, v1, root) && IsMap(v1, v2, Place(root, 0, vpn), Leaf(Pte(page, flags), true)) && flags < 1024
    requires v1.g.leaves == v.g.leaves && v1.g.held == v.g.held + {page} && page !in v.g.held && !Live(v.g, page)
    requires page < |v1.ram| && v1.ram[page] == words
    ensures IsFresh(v, v2, Place(root, 0, vpn), flags, words, page)
  {
    hide Pte, PtePage;
    PteParts(page, flags);
    KeptTwice(v, v1, v2, root);
    assert Live(v1.g, page);
  }

  predicate InSpan(c: Place, root: nat, lo: nat, hi: nat) {
    c.root == root && c.level == 0 && lo <= c.idx < hi
  }

  ghost function Outside(leaves: map<Place, Leaf>, root: nat, lo: nat, hi: nat): map<Place, Leaf> {
    map c | c in leaves && !InSpan(c, root, lo, hi) :: leaves[c]
  }

  /** The mappings of a span are gone, and what they owned is free; all else in use is as it was. */
  ghost predicate IsUnmap(v: Mem, v': Mem, root: nat, lo: nat, hi: nat) {
    && v'.lo == v.lo && |v'.ram| == |v.ram| && v'.g.nodes == v.g.nodes && v'.g.held == v.g.held
    && v'.g.leaves == Outside(v.g.leaves, root, lo, hi)
    && forall b: nat :: b < |v.ram| && Live(v'.g, b) ==> Live(v.g, b) && v'.ram[b] == v.ram[b]
  }

  lemma UnmapEmpty(v: Mem, root: nat, lo: nat)
    ensures IsUnmap(v, v, root, lo, lo)
  {
    assert Outside(v.g.leaves, root, lo, lo) == v.g.leaves;
  }

  lemma UnmapNone(v: Mem, v': Mem, root: nat, a: nat, b: nat)
    requires IsUnmap(v, v', root, a, a)
    ensures IsUnmap(v, v', root, b, b)
  {
    assert Outside(v.g.leaves, root, a, a) == v.g.leaves == Outside(v.g.leaves, root, b, b);
  }

  lemma UnmapNothing(v: Mem, root: nat, vpn: nat)
    requires Place(root, 0, vpn) !in v.g.leaves
    ensures IsUnmap(v, v, root, vpn, vpn + 1)
  {
    assert forall c :: c in v.g.leaves && InSpan(c, root, vpn, vpn + 1) ==> c == Place(root, 0, vpn);
    assert Outside(v.g.leaves, root, vpn, vpn + 1) == v.g.leaves;
  }

  lemma UnmapLeft(v: Mem, v': Mem, root: nat, lo: nat, hi: nat, c: Place)
    requires IsUnmap(v, v', root, lo, hi) && !InSpan(c, root, lo, hi)
    ensures c in v'.g.leaves <==> c in v.g.leaves
    ensures c in v.g.leaves ==> v'.g.leaves[c] == v.g.leaves[c]
  {
    hide Live;
  }

  lemma UnmapMore(v: Mem, v1: Mem, v2: Mem, root: nat, lo: nat, hi: nat)
    requires IsUnmap(v, v1, root, lo, hi) && IsUnmap(v1, v2, root, hi, hi + 1) && lo <= hi
    ensures IsUnmap(v, v2, root, lo, hi + 1) && v2.g.nodes == v1.g.nodes
  {
    hide Live;
    assert forall c :: InSpan(c, root, lo, hi + 1) <==> InSpan(c, root, lo, hi) || InSpan(c, root, hi, hi + 1);
    assert v2.g.leaves == Outside(v.g.leaves, root, lo, hi + 1);
  }

  lemma LeafPage(v: Mem, c: Place)
    requires Good(v) && c in v.g.leaves
    ensures v.g.leaves[c].owned ==> PtePage(v.g.leaves[c].pte) in v.g.owner && PtePage(v.g.leaves[c].pte) !in v.g.held
                                    && v.g.owner[PtePage(v.g.leaves[c].pte)] == c
  {
    hide Linked, Tables, PtePage;
    assert LeafOk(v.g, c) && PageOnce(v.lo, |v.ram|, v.g, PtePage(v.g.leaves[c].pte));
  }

  lemma UnmapIs(v: Mem, v2: Mem, c: Place, dofree: bool)
    requires Good(v) && c in v.g.leaves && v.g.leaves[c].owned == dofree && c.level == 0 && Parent(c) in v.g.nodes
    requires GoodBut(v2, c) && (dofree ==> PtePage(v.g.leaves[c].pte) < |v.ram|)
    requires var v1 := v.(g := DropLeaf(v.g, c));
             v2 == if dofree then Pushed(v1, PtePage(v.g.leaves[c].pte)) else v1
    ensures IsUnmap(v, v2.(ram := Wrote(v2, c, 0)), c.root, c.idx, c.idx + 1)
  {
    hide Conserved, Linked, Trees, Tables, Wrote, PtePage;
    NodePage(v2, c, Parent(c));
    WroteShape(v2, c, 0);
    LeafPage(v, c);
    var v' := v2.(ram := Wrote(v2, c, 0));
    assert v'.g.leaves == Outside(v.g.leaves, c.root, c.idx, c.idx + 1);
    forall b: nat | b < |v.ram| && Live(v'.g, b) ensures Live(v.g, b) && v'.ram[b] == v.ram[b] {
    }
  }

  ghost predicate Under(d: Place, p: Place)
    decreases if d.level < p.level then p.level - d.level else 0
  {
    d == p || (d.level < p.level && Under(Parent(d), p))
  }

  lemma {:induction false} UnderUp(d: Place, p: Place, j: nat)
    requires p.level > 0 && j < ENTRIES && Under(d, Child(p, j))
    ensures Under(d, p) && d != p && d.level < p.level
    decreases if d.level < p.level then p.level - d.level else 0
  {
    ChildOf(p, j);
    if d != Child(p, j) { UnderUp(Parent(d), p, j); }
  }

  lemma {:induction false} UnderSplit(d: Place, p: Place) returns (j: nat)
    requires Under(d, p) && d != p
    ensures p.level > 0 && j < ENTRIES && Under(d, Child(p, j))
    decreases p.level - d.level
  {
    if Parent(d) == p {
      ParentOf(d);
      j := d.idx % ENTRIES;
    } else {
      j := UnderSplit(Parent(d), p);
      UnderUp(Parent(d), p, j);
    }
  }

  /** `d` is below one of the first `i` entries of the table at `p`. */
  ghost predicate UnderFirst(d: Place, p: Place, i: nat) {
    p.level > 0 && exists j: nat :: j < i && Under(d, Child(p, j))
  }

  ghost predicate Freeing(v: Mem, v1: Mem, p: Place, i: nat) {
    && v1.lo == v.lo && |v1.ram| == |v.ram| && v1.g.leaves == v.g.leaves && v1.g.held == v.g.held
    && p in v.g.nodes && p in v1.g.nodes && v1.g.nodes[p] == v.g.nodes[p]
    && (forall q :: q in v1.g.nodes <==> q in v.g.nodes && !UnderFirst(q, p, i))
    && (forall q :: q in v1.g.nodes ==> v1.g.nodes[q] == v.g.nodes[q])
    && (forall c :: c in v.g.leaves ==> !UnderFirst(c, p, i))
    && (forall b: nat :: b < |v.ram| && Live(v.g, b) ==> Live(v1.g, b) && v1.ram[b] == v.ram[b])
  }

  /** The tables at and below `p` are gone; mappings, pages in use and their contents are as they were. */
  ghost predicate IsFreed(v: Mem, v': Mem, p: Place) {
    && v'.lo == v.lo && |v'.ram| == |v.ram| && v'.g.leaves == v.g.leaves && v'.g.held == v.g.held
    && (forall q :: q in v'.g.nodes <==> q in v.g.nodes && !Under(q, p))
    && (forall q :: q in v'.g.nodes ==> v'.g.nodes[q] == v.g.nodes[q])
    && (forall b: nat :: b < |v.ram| && Live(v.g, b) ==> Live(v'.g, b) && v'.ram[b] == v.ram[b])
  }

  lemma StartFreeing(v: Mem, p: Place)
    requires Good(v) && p in v.g.nodes
    ensures Freeing(v, v, p, 0) && 0 < p.level <= 3
  {
    hide Conserved, Linked, Trees, Tables, Live;
    NodePage(v, NONE, p);
  }

  lemma FirstMore(d: Place, p: Place, i: nat)
    requires p.level > 0
    ensures UnderFirst(d, p, i + 1) <==> UnderFirst(d, p, i) || Under(d, Child(p, i))
  {
  }

  lemma FirstAll(d: Place, p: Place)
    requires p.level > 0
    ensures UnderFirst(d, p, ENTRIES) <==> Under(d, p) && d != p
  {
    hide Under;
    if j: nat :| j < ENTRIES && Under(d, Child(p, j)) { UnderUp(d, p, j); }
    if Under(d, p) && d != p { var j := UnderSplit(d, p); }
  }

  lemma NodeIsNoLeaf()
    ensures !IsLeaf(PTE_V)
  {
  }

  /** What freewalk reads in entry `i`. */
  lemma Below(v: Mem, v1: Mem, p: Place, i: nat)
    requires Good(v1) && Freeing(v, v1, p, i) && i < ENTRIES
    ensures var page := v.g.nodes[p];
            && 0 < p.level <= 3 && page < |v1.ram| && |v1.ram[page]| == ENTRIES
            && Parent(Child(p, i)) == p && Child(p, i).idx % ENTRIES == i
            && (IsValid(v1.ram[page][i]) && !IsLeaf(v1.ram[page][i]) ==>
                  Child(p, i) in v1.g.nodes && PtePage(v1.ram[page][i]) == v1.g.nodes[Child(p, i)] && p.level > 1)
            && (IsValid(v1.ram[page][i]) && IsLeaf(v1.ram[page][i]) ==> Child(p, i) in v1.g.leaves)
            && (!IsValid(v1.ram[page][i]) ==> Child(p, i) !in v1.g.nodes && Child(p, i) !in v1.g.leaves)
  {
    hide Conserved, Linked, Shaped, Tables, PtePage, IsValid, IsLeaf, Live, Under;
    NodePage(v1, NONE, p);
    ChildOf(p, i);
    var c := Child(p, i);
    EntryMeans(v1, c);
    assert c in v1.g.nodes ==> NodeOk(v1.g, c);
    assert c in v1.g.leaves ==> LeafOk(v1.g, c);
    if c in v1.g.nodes { PteParts(v1.g.nodes[c], PTE_V); assert !IsLeaf(PTE_V) by { NodeIsNoLeaf(); } }
  }

  lemma LeafBelow(v: Mem, v1: Mem, p: Place, i: nat, d: Place)
    requires Freeing(v, v1, p, i) && p.level > 0 && i < ENTRIES && d in v1.g.leaves && Under(d, Child(p, i))
    ensures d in v.g.leaves && Under(d, p)
  {
    hide Live, Under;
    UnderUp(d, p, i);
  }

  lemma UnderSelf(c: Place)
    ensures Under(c, c)
  {
  }

  lemma NotUnderBelow(p: Place, i: nat)
    requires p.level > 0
    ensures !Under(p, Child(p, i))
  {
  }

  /** Entry `i` led to a table, now gone with all below it. */
  lemma NextFreed(v: Mem, v1: Mem, v2: Mem, p: Place, i: nat)
    requires Good(v1) && Freeing(v, v1, p, i) && i < ENTRIES && p.level > 0
    requires GoodBut(v2, Child(p, i)) && IsFreed(v1, v2, Child(p, i))
    requires forall d :: d in v1.g.leaves ==> !Under(d, Child(p, i))
    ensures var page := v.g.nodes[p];
            && page < |v2.ram| && |v2.ram[page]| == ENTRIES
            && Good(v2.(ram := v2.ram[page := SetWord(v2.ram[page], i, 0)]))
            && Freeing(v, v2.(ram := v2.ram[page := SetWord(v2.ram[page], i, 0)]), p, i + 1)
  {
    hide Conserved, Linked, Shaped, Tables, Trees, Wrote, Under, UnderFirst;
    var c, page := Child(p, i), v.g.nodes[p];
    ChildOf(p, i);
    NotUnderBelow(p, i);
    assert Under(c, c) by { UnderSelf(c); }
    NodePage(v2, c, p);
    CloseHole(v2, c);
    WroteIs(v2, c, c, 0);
    forall q { FirstMore(q, p, i); }
  }

  /** Nothing is below a place that does not exist. */
  lemma {:induction false} NothingUnder(v: Mem, c: Place, d: Place)
    requires Good(v) && c !in v.g.nodes && c !in v.g.leaves && Under(d, c) && c.level <= 3
    ensures d !in v.g.nodes && d !in v.g.leaves
    decreases if d.level < c.level then c.level - d.level else 0
  {
    hide Conserved, Linked, Shaped, Tables;
    if d != c {
      assert d in v.g.nodes ==> NodeOk(v.g, d);
      assert d in v.g.leaves ==> LeafOk(v.g, d);
      NothingUnder(v, c, Parent(d));
    }
  }

  lemma NextEmpty(v: Mem, v1: Mem, p: Place, i: nat)
    requires Good(v1) && Freeing(v, v1, p, i) && 0 < p.level <= 3 && i < ENTRIES
    requires Child(p, i) !in v1.g.nodes && Child(p, i) !in v1.g.leaves
    ensures Freeing(v, v1, p, i + 1)
  {
    hide GoodBut, Live, Under, UnderFirst;
    var c := Child(p, i);
    forall d | Under(d, c) ensures d !in v1.g.nodes && d !in v1.g.leaves {
      NothingUnder(v1, c, d);
    }
    forall q { FirstMore(q, p, i); }
  }

  lemma ChildIsFirst(d: Place, p: Place)
    requires p.level > 0 && Parent(d) == p
    ensures UnderFirst(d, p, ENTRIES)
  {
    ParentOf(d);
    assert Under(d, Child(p, d.idx % ENTRIES));
  }

  lemma LeafLevel(v: Mem, v1: Mem, p: Place)
    requires Good(v1) && p.level > 0
    ensures p !in v1.g.leaves
  {
    hide Conserved, Linked, Shaped, Tables;
    assert p in v1.g.leaves ==> LeafOk(v1.g, p);
  }

  /** All entries are dealt with: the table itself can go. */
  lemma AllFreed(v: Mem, v1: Mem, p: Place)
    requires Good(v1) && Freeing(v, v1, p, ENTRIES) && 0 < p.level <= 3
    ensures forall c :: c in v.g.leaves ==> !Under(c, p)
    ensures p in v1.g.nodes && v1.g.nodes[p] == v.g.nodes[p]
    ensures var v2, page := v1.(g := DropNode(v1.g, p)), v.g.nodes[p];
            && GoodBut(v2, p) && v.lo <= page < |v1.ram| && page in v2.g.held && IsFreed(v, Pushed(v2, page), p)
  {
    hide GoodBut, Under, UnderFirst, Live;
    forall q { FirstAll(q, p); }
    forall d | d in v1.g.nodes || d in v1.g.leaves ensures Parent(d) != p {
      if Parent(d) == p {
        ParentOf(d);
        UnderSelf(d);
        ChildIsFirst(d, p);
      }
    }
    OpenNode(v1, p);
    UnderSelf(p);
    LeafLevel(v, v1, p);
    NodeNotLive(v1, p);
    forall b: nat | b < |v1.ram| && Live(v1.g, b) ensures b != v1.g.nodes[p] && Live(DropNode(v1.g, p), b) {
      LiveAfterDrop(v1.g, p, b);
    }
    forall b: nat | b < |v1.ram| && Live(v1.g, b)
      ensures Live(Pushed(v1.(g := DropNode(v1.g, p)), v1.g.nodes[p]).g, b) {
      LiveAfterPush(DropNode(v1.g, p), v1.g.nodes[p], b);
    }
  }

  lemma NodeNotLive(v: Mem, p: Place)
    requires Good(v) && p in v.g.nodes
    ensures v.lo <= v.g.nodes[p] < |v.ram| && v.g.nodes[p] !in v.g.held && !Live(v.g, v.g.nodes[p])
  {
    hide Conserved, Linked, Shaped, Trees, Tables;
    NodePage(v, NONE, p);
  }

  lemma LiveAfterDrop(g: Book, p: Place, b: nat)
    requires p in g.nodes && Live(g, b) && b != g.nodes[p]
    ensures Live(DropNode(g, p), b)
  {
  }

  lemma LiveAfterPush(g: Book, page: nat, b: nat)
    requires Live(g, b) && b != page
    ensures Live(g.(free := [page] + g.free, held := g.held - {page}), b)
  {
  }

  /** PGROUNDUP, in pages. */
  function Pages(sz: nat): nat {
    (sz + PGSIZE - 1) / PGSIZE
  }

  lemma PagesMonotone(a: nat, b: nat)
    ensures a <= b ==> Pages(a) <= Pages(b)
    ensures b <= MAXVA ==> Pages(b) <= MAXVA / PGSIZE
    ensures forall n: nat :: n * PGSIZE < b <==> n < Pages(b)
  {
  }

  lemma PagesExact(n: nat)
    ensures Pages(n * PGSIZE) == n
  {
    Shifted(n, PGSIZE - 1, PGSIZE);
  }

  /** `xperm` with PTE_R and PTE_U in it. */
  function WithRU(xperm: nat): nat {
    xperm + (if xperm / PTE_R % 2 == 0 then PTE_R else 0) + (if xperm / PTE_U % 2 == 0 then PTE_U else 0)
  }

  lemma FlagBits(q: nat, u: nat, low: nat, r: nat, v: nat)
    requires u < 2 && low < 4 && r < 2 && v < 2
    ensures var x := 32 * q + 16 * u + 4 * low + 2 * r + v;
            x / 2 % 2 == r && x / 4 % 4 == low && x / 16 % 2 == u && x / 2 % 8 == 2 * low + r
  {
    var x := 32 * q + 16 * u + 4 * low + 2 * r + v;
    Quotient(x, 16 * q + 8 * u + 2 * low + r, v, 2);
    Quotient(x, 8 * q + 4 * u + low, 2 * r + v, 4);
    Quotient(x, 2 * q + u, 4 * low + 2 * r + v, 16);
    Quotient(x / 2, 8 * q + 4 * u + low, r, 2);
    Quotient(x / 2, 2 * q + u, 2 * low + r, 8);
    Quotient(x / 4, 2 * q + u, low, 4);
    Quotient(x / 16, q, u, 2);
  }

  lemma FlagParts(x: nat) returns (q: nat, u: nat, low: nat, r: nat, v: nat)
    ensures u < 2 && low < 4 && r < 2 && v < 2 && x == 32 * q + 16 * u + 4 * low + 2 * r + v
  {
    var a := x / 2;
    var b := a / 2;
    var c := b / 4;
    q, u, low, r, v := c / 2, c % 2, b % 4, a % 2, x % 2;
  }

  lemma PermFlags(xperm: nat)
    requires xperm < 1024
    ensures WithRU(xperm) < 1024 && IsLeaf(WithRU(xperm)) && IsUser(WithRU(xperm))
    ensures WithRU(xperm) / 4 % 4 == xperm / 4 % 4 // PTE_W and PTE_X
  {
    var q, u, low, r, v := FlagParts(xperm);
    FlagBits(q, u, low, r, v);
    FlagBits(q, 1, low, 1, v);
    assert WithRU(xperm) == 32 * q + 16 + 4 * low + 2 + v;
  }

  lemma UserFlags()
    ensures IsLeaf(PTE_R + PTE_U + PTE_W) && WithV(PTE_R + PTE_U + PTE_W) == PTE_V + PTE_R + PTE_W + PTE_U
    ensures WithV(WithRU(PTE_W)) == PTE_V + PTE_R + PTE_W + PTE_U
  {
  }

  /** A new tree with nothing in it; all else is as it was. */
  ghost predicate IsNewTree(v: Mem, v': Mem, root: nat) {
    && v'.lo == v.lo && |v'.ram| == |v.ram| && Place(root, 3, 0) !in v.g.nodes
    && v'.g.nodes == v.g.nodes[Place(root, 3, 0) := root] && v'.g.leaves == v.g.leaves && v'.g.held == v.g.held
    && (forall p :: p in v'.g.nodes && p.root == root ==> p.level == 3)
    && (forall c :: c in v.g.leaves ==> c.root != root)
    && (forall b: nat :: b < |v.ram| && Live(v.g, b) ==> Live(v'.g, b) && v'.ram[b] == v.ram[b])
  }

  /** Every place hangs from the root of its tree. */
  lemma {:induction false} Rooted(v: Mem, p: Place)
    requires Good(v) && (p in v.g.nodes || p in v.g.leaves)
    ensures Place(p.root, 3, 0) in v.g.nodes
    decreases 3 - p.level
  {
    hide Conserved, Linked, Shaped, Tables;
    assert p in v.g.nodes ==> NodeOk(v.g, p);
    assert p in v.g.leaves ==> LeafOk(v.g, p);
    if p.level < 3 { Rooted(v, Parent(p)); }
  }

  lemma NewTree(v: Mem, v1: Mem, root: nat)
    requires Good(v) && v.g.free != [] && root == v.g.free[0] && root < |v.ram| && root < |Popped(v).ram|
    requires v1 == Popped(v).(ram := Popped(v).ram[root := Filled(0)]) && Good(v1) && !Live(v.g, root)
    ensures Good(AttachRoot(v1, root)) && IsNewTree(v, AttachRoot(v1, root), root)
  {
    hide GoodBut, Filled;
    AttachRootKeeps(v1, root);
    HeldNotOwned(v, root);
    forall p | p in v.g.nodes || p in v.g.leaves ensures p.root != root {
      if p.root == root { Rooted(v, p); }
    }
  }

  ghost predicate SameLeaf(g: Book, g': Book, c: Place) {
    (c in g.leaves <==> c in g'.leaves) && (c in g.leaves ==> g'.leaves[c] == g.leaves[c])
  }

  /** Pages of its own may have been mapped in a span of the tree `root`; all else is as it was. */
  ghost predicate Built(v: Mem, v1: Mem, root: nat, lo: nat, hi: nat) {
    && Kept(v, v1, root) && v1.g.held == v.g.held
    && (forall c :: !InSpan(c, root, lo, hi) ==> SameLeaf(v.g, v1.g, c))
    && (forall c :: c in v1.g.leaves && InSpan(c, root, lo, hi) ==> v1.g.leaves[c].owned)
  }

  ghost predicate ClearPage(v: Mem, root: nat, n: nat, flags: nat) {
    var c := Place(root, 0, n);
    && c in v.g.leaves && v.g.leaves[c].owned && PteFlags(v.g.leaves[c].pte) == flags
    && PtePage(v.g.leaves[c].pte) < |v.ram| && v.ram[PtePage(v.g.leaves[c].pte)] == Filled(0)
  }

  ghost predicate Cleared(v: Mem, root: nat, lo: nat, hi: nat, flags: nat) {
    forall n: nat :: lo <= n < hi ==> ClearPage(v, root, n, flags)
  }

  lemma BuiltNone(v: Mem, root: nat, lo: nat)
    ensures Built(v, v, root, lo, lo)
  {
  }

  lemma ClearedNone(v: Mem, root: nat, lo: nat, flags: nat)
    ensures Cleared(v, root, lo, lo, flags)
  {
  }

  lemma BuiltFacts(v: Mem, v1: Mem, root: nat, lo: nat, hi: nat)
    requires Built(v, v1, root, lo, hi)
    ensures Place(root, 3, 0) in v.g.nodes ==> Place(root, 3, 0) in v1.g.nodes
    ensures Place(root, 0, hi) in v1.g.leaves <==> Place(root, 0, hi) in v.g.leaves
    ensures forall c :: c in v1.g.leaves && InSpan(c, root, lo, hi) ==> v1.g.leaves[c].owned
  {
    hide Live;
    assert SameLeaf(v.g, v1.g, Place(root, 0, hi));
  }

  lemma BuiltStill(v: Mem, v1: Mem, v2: Mem, root: nat, lo: nat, hi: nat)
    requires Built(v, v1, root, lo, hi) && Unchanged(v1, v2, root)
    ensures Built(v, v2, root, lo, hi)
  {
    hide Kept;
    KeptTwice(v, v1, v2, root);
    forall c | !InSpan(c, root, lo, hi) ensures SameLeaf(v.g, v2.g, c) {
      assert SameLeaf(v.g, v1.g, c);
    }
  }

  lemma BuiltMore(v: Mem, v1: Mem, v2: Mem, root: nat, lo: nat, a: nat, flags: nat, words: Page, page: nat)
    requires Built(v, v1, root, lo, a) && IsFresh(v1, v2, Place(root, 0, a), flags, words, page) && lo <= a
    ensures Built(v, v2, root, lo, a + 1)
  {
    hide Kept, Live, Pte;
    KeptTwice(v, v1, v2, root);
    forall c | !InSpan(c, root, lo, a + 1) ensures SameLeaf(v.g, v2.g, c) {
      assert !InSpan(c, root, lo, a) && SameLeaf(v.g, v1.g, c);
    }
    forall c | c in v2.g.leaves && InSpan(c, root, lo, a + 1) ensures v2.g.leaves[c].owned {
      assert c != Place(root, 0, a) ==> InSpan(c, root, lo, a);
    }
  }

  /** The page of an owned mapping is in use. */
  lemma OwnedIsLive(v: Mem, c: Place)
    requires Good(v) && c in v.g.leaves && v.g.leaves[c].owned
    ensures Live(v.g, PtePage(v.g.leaves[c].pte)) && PtePage(v.g.leaves[c].pte) < |v.ram|
  {
    hide Linked, Shaped, Tables, PtePage;
    assert LeafOk(v.g, c) && PageOnce(v.lo, |v.ram|, v.g, PtePage(v.g.leaves[c].pte));
  }

  lemma ClearedMore(v1: Mem, v2: Mem, root: nat, lo: nat, a: nat, flags: nat, page: nat)
    requires Good(v1) && Cleared(v1, root, lo, a, flags) && IsFresh(v1, v2, Place(root, 0, a), flags, Filled(0), page)
    ensures Cleared(v2, root, lo, a + 1, flags)
  {
    hide GoodBut, Live, Pte, PtePage, PteFlags, Filled;
    PteParts(page, flags);
    forall n: nat | lo <= n < a + 1 ensures ClearPage(v2, root, n, flags) {
      if n < a {
        assert ClearPage(v1, root, n, flags);
        OwnedIsLive(v1, Place(root, 0, n));
      }
    }
  }

  /** Which pages are in use depends on the mappings and on what is handed out. */
  lemma SameLive(v: Mem, v': Mem, b: nat)
    requires Good(v) && Good(v') && v'.g.leaves == v.g.leaves && v'.g.held == v.g.held && Live(v'.g, b)
    ensures Live(v.g, b)
  {
    hide Conserved, Linked, Shaped, Tables, PtePage;
    if b !in v'.g.held {
      assert OwnerOk(v'.g, b) && LeafOk(v.g, v'.g.owner[b]);
    }
  }

  /** Unmapping the span again leaves things as they were before. */
  lemma RolledBack(v: Mem, v2: Mem, v3: Mem, root: nat, lo: nat, hi: nat)
    requires Good(v) && Good(v3) && Built(v, v2, root, lo, hi) && IsUnmap(v2, v3, root, lo, hi)
    requires forall c :: c in v.g.leaves ==> !InSpan(c, root, lo, hi)
    ensures Unchanged(v, v3, root)
  {
    hide GoodBut, Live;
    forall c | c in v.g.leaves || c in v3.g.leaves ensures SameLeaf(v.g, v3.g, c) {
      if !InSpan(c, root, lo, hi) { assert SameLeaf(v.g, v2.g, c); }
    }
    assert v3.g.leaves == v.g.leaves;
    forall b: nat | b < |v.ram| && Live(v.g, b) ensures Live(v3.g, b) && v3.ram[b] == v.ram[b] {
      SameLive(v3, v, b);
    }
  }

  ghost predicate CopyOk(v: Mem, v1: Mem, src: nat, dst: nat, n: nat) {
    var a, b := Place(src, 0, n), Place(dst, 0, n);
    && (b in v1.g.leaves <==> a in v.g.leaves)
    && (a in v.g.leaves ==>
          var from, to := v.g.leaves[a].pte, v1.g.leaves[b].pte;
          && v1.g.leaves[b].owned && PteFlags(to) == PteFlags(from) && !Live(v.g, PtePage(to))
          && PtePage(from) < |v.ram| && PtePage(to) < |v1.ram| && v1.ram[PtePage(to)] == v.ram[PtePage(from)])
  }

  /** The first `k` pages of `dst` are a copy of those of `src`. */
  ghost predicate Copied(v: Mem, v1: Mem, src: nat, dst: nat, k: nat) {
    forall n: nat :: n < k ==> CopyOk(v, v1, src, dst, n)
  }

  lemma CopiedNone(v: Mem, src: nat, dst: nat)
    ensures Copied(v, v, src, dst, 0)
  {
  }

  lemma SourceKept(v: Mem, v1: Mem, src: nat, dst: nat, n: nat)
    requires Built(v, v1, dst, 0, n) && src != dst
    ensures SameLeaf(v.g, v1.g, Place(src, 0, n)) && (Place(src, 3, 0) in v.g.nodes ==> Place(src, 3, 0) in v1.g.nodes)
  {
    hide Live;
  }

  lemma CopySkip(v: Mem, v1: Mem, src: nat, dst: nat, n: nat)
    requires Built(v, v1, dst, 0, n) && Copied(v, v1, src, dst, n)
    requires Place(src, 0, n) !in v.g.leaves && Place(dst, 0, n) !in v.g.leaves
    ensures Built(v, v1, dst, 0, n + 1) && Copied(v, v1, src, dst, n + 1)
  {
    hide Kept;
    assert SameLeaf(v.g, v1.g, Place(dst, 0, n));
    forall c | !InSpan(c, dst, 0, n + 1) ensures SameLeaf(v.g, v1.g, c) {
      assert !InSpan(c, dst, 0, n);
    }
    forall c | c in v1.g.leaves && InSpan(c, dst, 0, n + 1) ensures v1.g.leaves[c].owned {
      assert c != Place(dst, 0, n) && InSpan(c, dst, 0, n);
    }
    assert CopyOk(v, v1, src, dst, n);
  }

  lemma CopyMore(v: Mem, v1: Mem, v2: Mem, src: nat, dst: nat, n: nat, page: nat)
    requires Good(v) && Good(v1) && Built(v, v1, dst, 0, n) && Copied(v, v1, src, dst, n) && src != dst
    requires Place(src, 0, n) in v.g.leaves && v.g.leaves[Place(src, 0, n)].owned
    requires PtePage(v.g.leaves[Place(src, 0, n)].pte) < |v1.ram|
    requires IsFresh(v1, v2, Place(dst, 0, n), PteFlags(v.g.leaves[Place(src, 0, n)].pte),
                     v1.ram[PtePage(v.g.leaves[Place(src, 0, n)].pte)], page)
    ensures Copied(v, v2, src, dst, n + 1)
  {
    hide GoodBut, Live, Pte, PtePage, PteFlags;
    var flags := PteFlags(v.g.leaves[Place(src, 0, n)].pte);
    PteParts(page, flags);
    OwnedIsLive(v, Place(src, 0, n));
    forall m: nat | m < n + 1 ensures CopyOk(v, v2, src, dst, m) {
      if m < n {
        assert CopyOk(v, v1, src, dst, m);
        if Place(src, 0, m) in v.g.leaves { OwnedIsLive(v1, Place(dst, 0, m)); }
      }
    }
  }

  /** Nothing is left of the tree `root`; other trees, pages in use elsewhere and their contents are as they were. */
  ghost predicate TreeGone(v: Mem, v': Mem, root: nat) {
    && v'.lo == v.lo && |v'.ram| == |v.ram| && v'.g.held == v.g.held
    && (forall p :: p in v'.g.nodes <==> p in v.g.nodes && p.root != root)
    && (forall p :: p in v'.g.nodes ==> v'.g.nodes[p] == v.g.nodes[p])
    && (forall c :: c in v'.g.leaves <==> c in v.g.leaves && c.root != root)
    && (forall c :: c in v'.g.leaves ==> v'.g.leaves[c] == v.g.leaves[c])
    && (forall b: nat :: b < |v.ram| && Live(v'.g, b) ==> Live(v.g, b) && v'.ram[b] == v.ram[b])
  }

  lemma {:induction false} UnderRoot(v: Mem, p: Place)
    requires Good(v) && (p in v.g.nodes || p in v.g.leaves)
    ensures Under(p, Place(p.root, 3, 0)) && p.level <= 3
    decreases 3 - p.level
  {
    hide Conserved, Linked, Shaped, Tables;
    assert p in v.g.nodes ==> NodeOk(v.g, p);
    assert p in v.g.leaves ==> LeafOk(v.g, p);
    if p.level < 3 { UnderRoot(v, Parent(p)); }
  }

  lemma {:induction false} UnderSameRoot(d: Place, p: Place)
    requires Under(d, p)
    ensures d.root == p.root
    decreases if d.level < p.level then p.level - d.level else 0
  {
    if d != p { UnderSameRoot(Parent(d), p); }
  }

  lemma LeftBelow(v: Mem, v1: Mem, root: nat, hi: nat)
    requires Good(v) && Good(v1) && IsUnmap(v, v1, root, 0, hi)
    ensures (forall c :: c in v1.g.leaves ==> !Under(c, Place(root, 3, 0)))
            <==> forall c :: c in v.g.leaves && c.root == root ==> c.idx < hi
  {
    hide Conserved, Linked, Shaped, Tables, Live, Under;
    forall c | c in v1.g.leaves ensures Under(c, Place(root, 3, 0)) <==> c.root == root {
      UnderRoot(v1, c);
      if Under(c, Place(root, 3, 0)) { UnderSameRoot(c, Place(root, 3, 0)); }
    }
    forall c | c in v.g.leaves ensures c.level == 0 {
      assert LeafOk(v.g, c);
    }
    if c :| c in v.g.leaves && c.root == root && c.idx >= hi { assert c in v1.g.leaves; }
  }

  /** No table has a word about the root. */
  lemma NoHoleAtRoot(v: Mem, root: nat)
    requires GoodBut(v, Place(root, 3, 0))
    ensures Good(v)
  {
    hide Conserved, Linked, Shaped, EntryOk;
    forall p | p in v.g.nodes ensures TableOk(v.ram, v.g, p, NONE) {
      NodePage(v, Place(root, 3, 0), p);
      forall j: nat | j < ENTRIES ensures EntryOk(v.ram[v.g.nodes[p]][j], v.g, Child(p, j)) {
        assert Child(p, j).level < 3;
      }
    }
  }

  lemma TreeIsGone(v: Mem, v1: Mem, v2: Mem, root: nat, hi: nat)
    requires Good(v) && Good(v1) && IsUnmap(v, v1, root, 0, hi) && GoodBut(v2, Place(root, 3, 0))
    requires IsFreed(v1, v2, Place(root, 3, 0)) && forall c :: c in v.g.leaves && c.root == root ==> c.idx < hi
    ensures Good(v2) && TreeGone(v, v2, root)
  {
    hide GoodBut, Under, Live;
    forall p | p in v1.g.nodes ensures Under(p, Place(root, 3, 0)) <==> p.root == root {
      UnderRoot(v1, p);
      if Under(p, Place(root, 3, 0)) { UnderSameRoot(p, Place(root, 3, 0)); }
    }
    forall c | c in v.g.leaves ensures c.level == 0 {
      LeafHasTable(v, c);
    }
    NoHoleAtRoot(v2, root);
    forall b: nat | b < |v.ram| && Live(v2.g, b) ensures Live(v.g, b) && v2.ram[b] == v.ram[b] {
      SameLive(v1, v2, b);
    }
  }

  const TRAMPOLINE: nat := MAXVA - PGSIZE

  const TRAPFRAME: nat := MAXVA - 2 * PGSIZE

  function Tramp(root: nat): Place {
    Place(root, 0, Vpn(TRAMPOLINE))
  }

  function Frame(root: nat): Place {
    Place(root, 0, Vpn(TRAPFRAME))
  }

  /** An address space of size `sz`: it owns what it maps below `sz`, and refers to the two pages at the top. */
  ghost predicate UserSpace(g: Book, root: nat, sz: nat) {
    && Place(root, 3, 0) in g.nodes && sz <= TRAPFRAME
    && forall c :: c in g.leaves && c.root == root ==>
                     && c.level == 0
                     && (if g.leaves[c].owned then c.idx < Pages(sz) else c == Tramp(root) || c == Frame(root))
  }

  ghost predicate NodesKept(v: Mem, v': Mem, root: nat) {
    && (forall p :: p in v.g.nodes ==> p in v'.g.nodes && v'.g.nodes[p] == v.g.nodes[p])
    && (forall p :: p in v'.g.nodes && p !in v.g.nodes ==> p.root == root && p.level < 3)
  }

  /** Freeing a tree just created leaves the tables and mappings there were before. */
  lemma AllBack(v: Mem, v1: Mem, v2: Mem, v3: Mem, root: nat)
    requires Good(v) && IsNewTree(v, v1, root) && NodesKept(v1, v2, root) && v2.g.leaves == v1.g.leaves
    requires v2.g.held == v1.g.held && TreeGone(v2, v3, root)
    ensures v3.g.nodes == v.g.nodes && v3.g.leaves == v.g.leaves && v3.g.held == v.g.held
  {
    hide GoodBut, Live;
    forall p | p in v.g.nodes ensures p.root != root {
      if p.root == root { Rooted(v, p); }
    }
    assert forall p :: p in v3.g.nodes <==> p in v.g.nodes;
    assert forall c :: c in v3.g.leaves <==> c in v.g.leaves;
  }

  lemma UserLess(v: Mem, v': Mem, root: nat, sz: nat, vpn: nat)
    requires UserSpace(v.g, root, sz) && IsUnmap(v, v', root, vpn, vpn + 1)
    ensures UserSpace(v'.g, root, sz) && Place(root, 0, vpn) !in v'.g.leaves
    ensures forall c :: c in v'.g.leaves ==> c in v.g.leaves
  {
    hide Live, Pages;
  }

  lemma TopsGone(v: Mem, v1: Mem, v2: Mem, root: nat, sz: nat)
    requires UserSpace(v2.g, root, sz) && Tramp(root) !in v1.g.leaves && Frame(root) !in v2.g.leaves
    requires forall c :: c in v2.g.leaves ==> c in v1.g.leaves
    ensures forall c :: c in v2.g.leaves && c.root == root ==> c.idx < Pages(sz)
    ensures forall c :: c in v2.g.leaves && InSpan(c, root, 0, Pages(sz)) ==> v2.g.leaves[c].owned
  {
    hide Pages;
  }

  lemma GoneThrough(v: Mem, v1: Mem, v2: Mem, v3: Mem, root: nat)
    requires IsUnmap(v, v1, root, Vpn(TRAMPOLINE), Vpn(TRAMPOLINE) + 1)
    requires IsUnmap(v1, v2, root, Vpn(TRAPFRAME), Vpn(TRAPFRAME) + 1) && TreeGone(v2, v3, root)
    ensures TreeGone(v, v3, root)
  {
    hide Live;
  }

  /** Each operation on user memory keeps an address space well formed for the size it returns. */
  lemma UserGrows(v: Mem, v': Mem, root: nat, oldsz: nat, newsz: nat)
    requires UserSpace(v.g, root, oldsz) && Built(v, v', root, Pages(oldsz), Pages(newsz))
             && oldsz <= newsz <= TRAPFRAME
    requires Good(v')
    ensures UserSpace(v'.g, root, newsz)
  {
    hide GoodBut, Live, Pages;
    PagesMonotone(oldsz, newsz);
    assert Place(root, 3, 0) in v'.g.nodes;
    forall c | c in v'.g.leaves && c.root == root
      ensures c.level == 0
      ensures if v'.g.leaves[c].owned then c.idx < Pages(newsz) else c == Tramp(root) || c == Frame(root)
    {
      LeafHasTable(v', c);
      if !InSpan(c, root, Pages(oldsz), Pages(newsz)) { assert SameLeaf(v.g, v'.g, c); }
    }
  }

  lemma UserShrinks(v: Mem, v': Mem, root: nat, oldsz: nat, newsz: nat)
    requires UserSpace(v.g, root, oldsz) && newsz <= oldsz
    requires IsUnmap(v, v', root, Pages(newsz), Max(Pages(newsz), Pages(oldsz)))
    ensures UserSpace(v'.g, root, newsz)
  {
    hide Live, Pages;
    PagesMonotone(oldsz, newsz);
  }

  lemma UserFaults(v: Mem, v': Mem, root: nat, sz: nat, va: nat, flags: nat, words: Page, page: nat)
    requires UserSpace(v.g, root, sz) && va < sz && IsFresh(v, v', Place(root, 0, Vpn(va)), flags, words, page)
    ensures UserSpace(v'.g, root, sz)
  {
    hide Live;
    assert Vpn(va) < Pages(sz);
  }

  lemma LeafFlags(v: Mem, c: Place)
    requires Good(v) && c in v.g.leaves
    ensures PteFlags(v.g.leaves[c].pte) < 1024 && IsLeaf(PteFlags(v.g.leaves[c].pte))
    ensures WithV(PteFlags(v.g.leaves[c].pte)) == PteFlags(v.g.leaves[c].pte)
  {
    hide Conserved, Linked, Shaped, Tables;
    assert LeafOk(v.g, c);
    var pte := v.g.leaves[c].pte;
    assert pte == Pte(PtePage(pte), PteFlags(pte));
    PteParts(PtePage(pte), PteFlags(pte));
  }

  lemma PageSize(v: Mem, p: nat)
    requires Good(v) && p < |v.ram|
    ensures |v.ram[p]| == ENTRIES
  {
    hide Conserved, Linked, Trees, Tables;
  }

  lemma TopFlags()
    ensures WithV(PTE_R + PTE_X) == PTE_V + PTE_R + PTE_X && WithV(PTE_R + PTE_W) == PTE_V + PTE_R + PTE_W
    ensures IsLeaf(PTE_R + PTE_X) && IsLeaf(PTE_R + PTE_W)
  {
  }

  lemma NewTreeFacts(v: Mem, v1: Mem, root: nat)
    requires IsNewTree(v, v1, root)
    ensures Place(root, 3, 0) !in v.g.nodes && v1.g.leaves == v.g.leaves && v1.g.held == v.g.held
    ensures forall c :: c in v1.g.leaves ==> c.root != root
  {
    hide Live;
  }

  lemma UnchangedFacts(v: Mem, v': Mem, root: nat)
    requires Unchanged(v, v', root)
    ensures Kept(v, v', root) && v'.g.leaves == v.g.leaves && v'.g.held == v.g.held
    ensures Place(root, 3, 0) in v.g.nodes ==> Place(root, 3, 0) in v'.g.nodes
  {
    hide Live;
  }

  lemma NothingMapped(v1: Mem, v2: Mem, root: nat)
    requires Unchanged(v1, v2, root) && (forall c :: c in v1.g.leaves ==> c.root != root)
             && Place(root, 3, 0) in v1.g.nodes
    ensures (forall c :: c in v2.g.leaves ==> c.root != root) && Place(root, 3, 0) in v2.g.nodes
    ensures NodesKept(v1, v2, root) && v2.g.leaves == v1.g.leaves && v2.g.held == v1.g.held
  {
    hide Live;
  }

  lemma OneMapped(v1: Mem, v2: Mem, c: Place, leaf: Leaf)
    requires IsMap(v1, v2, c, leaf) && !leaf.owned
    ensures Kept(v1, v2, c.root) && v2.g.leaves == v1.g.leaves[c := leaf] && v2.g.held == v1.g.held
    ensures Place(c.root, 3, 0) in v1.g.nodes ==> Place(c.root, 3, 0) in v2.g.nodes
  {
    hide Live;
  }

  /** The one mapping made is removed again. */
  lemma Undone(v1: Mem, v3: Mem, v4: Mem, root: nat, leaf: Leaf)
    requires Kept(v1, v3, root) && IsUnmap(v3, v4, root, Vpn(TRAMPOLINE), Vpn(TRAMPOLINE) + 1)
    requires (forall c :: c in v1.g.leaves ==> c.root != root) && v3.g.held == v1.g.held
    requires v3.g.leaves == v1.g.leaves[Tramp(root) := leaf]
    ensures v4.g.leaves == v1.g.leaves && v4.g.held == v1.g.held && NodesKept(v1, v4, root)
  {
    hide Live;
    assert forall c :: c in v3.g.leaves && InSpan(c, root, Vpn(TRAMPOLINE), Vpn(TRAMPOLINE) + 1) ==> c == Tramp(root);
  }

  lemma UnmapNodes(v: Mem, v1: Mem, root: nat, lo: nat, hi: nat)
    requires IsUnmap(v, v1, root, lo, hi)
    ensures v1.g.nodes == v.g.nodes
  {
    hide Live;
  }

  lemma FilledSize()
    ensures |Filled(0)| == ENTRIES
  {
  }

  lemma UnchangedSelf(v: Mem, root: nat)
    ensures Unchanged(v, v, root)
  {
  }

  lemma KeptRoot(v: Mem, v': Mem, root: nat)
    requires Kept(v, v', root)
    ensures Place(root, 3, 0) in v.g.nodes ==> Place(root, 3, 0) in v'.g.nodes
  {
  }

  /** A tree of its own was added, whatever it maps; other trees, pages in use and their contents are as they were. */
  ghost predicate NewSpace(v: Mem, v': Mem, root: nat) {
    && v'.lo == v.lo && |v'.ram| == |v.ram| && v'.g.held == v.g.held
    && (forall p :: p in v.g.nodes ==> p.root != root && p in v'.g.nodes && v'.g.nodes[p] == v.g.nodes[p])
    && (forall p :: p in v'.g.nodes && p.root != root ==> p in v.g.nodes)
    && (forall c :: c in v.g.leaves ==> c.root != root && c in v'.g.leaves && v'.g.leaves[c] == v.g.leaves[c])
    && (forall c :: c in v'.g.leaves && c.root != root ==> c in v.g.leaves)
    && (forall b: nat :: b < |v.ram| && Live(v.g, b) ==> Live(v'.g, b) && v'.ram[b] == v.ram[b])
  }

  lemma SpaceIsNew(v: Mem, v1: Mem, v3: Mem, root: nat, leaves: map<Place, Leaf>)
    requires Good(v) && IsNewTree(v, v1, root) && Kept(v1, v3, root) && v3.g.held == v.g.held
    requires v3.g.leaves == v.g.leaves + leaves && forall c :: c in leaves ==> c.root == root
    ensures NewSpace(v, v3, root)
  {
    hide GoodBut, Live;
    forall p | p in v.g.nodes || p in v.g.leaves ensures p.root != root {
      if p.root == root { Rooted(v, p); }
    }
  }

  /** The copy of the parent, seen from before the child's tree was made. */
  lemma CopiedBefore(v: Mem, v1: Mem, v2: Mem, src: nat, dst: nat, k: nat)
    requires Good(v) && NewSpace(v, v1, dst) && Copied(v1, v2, src, dst, k) && src != dst && |v2.ram| == |v1.ram|
    requires forall c :: c in v.g.leaves && InSpan(c, src, 0, k) ==> v.g.leaves[c].owned
    ensures Copied(v, v2, src, dst, k)
  {
    hide GoodBut, Live, PtePage, PteFlags;
    forall n: nat | n < k ensures CopyOk(v, v2, src, dst, n) {
      var a := Place(src, 0, n);
      assert CopyOk(v1, v2, src, dst, n);
      if a in v.g.leaves {
        assert InSpan(a, src, 0, k);
        OwnedIsLive(v, a);
      }
    }
  }

  /** A tree made, left without user pages, and freed leaves everything as it was. */
  lemma SpaceGone(v: Mem, v1: Mem, v2: Mem, v2': Mem, v3: Mem, root: nat)
    requires NewSpace(v, v1, root) && Unchanged(v1, v2, root) && TreeGone(v2', v3, root)
    requires v2'.g.nodes == v2.g.nodes && v2'.g.leaves == v2.g.leaves
    ensures v3.g.nodes == v.g.nodes && v3.g.leaves == v.g.leaves && v3.g.held == v2'.g.held
  {
    hide Live;
    assert forall p :: p in v3.g.nodes <==> p in v.g.nodes;
    assert forall c :: c in v3.g.leaves <==> c in v.g.leaves;
  }

  lemma HeldInRange(v: Mem, p: nat)
    requires Good(v) && p in v.g.held
    ensures v.lo <= p < |v.ram|
  {
    hide Linked, Shaped, Tables, Trees;
    assert PageOnce(v.lo, |v.ram|, v.g, p);
  }

  /** Taking a page before the copy does not change what is copied. */
  lemma CopiedAfterPop(v: Mem, v2: Mem, src: nat, dst: nat, k: nat)
    requires Good(v) && v.g.free != [] && v.g.free[0] < |v.ram| && Copied(Popped(v), v2, src, dst, k)
    requires forall c :: c in v.g.leaves && InSpan(c, src, 0, k) ==> v.g.leaves[c].owned
    ensures Copied(v, v2, src, dst, k)
  {
    hide GoodBut, Live, PtePage, PteFlags, Filled;
    LessLive(v);
    forall n: nat | n < k ensures CopyOk(v, v2, src, dst, n) {
      var a := Place(src, 0, n);
      assert CopyOk(Popped(v), v2, src, dst, n);
      if a in v.g.leaves {
        assert InSpan(a, src, 0, k);
        OwnedIsLive(v, a);
      }
    }
  }

  /** Everything outside the tree `root` is as it was: mappings, and the contents of the pages in use. */
  ghost predicate OthersKept(v: Mem, v': Mem, root: nat) {
    && (forall c: Place :: c.root != root ==> SameLeaf(v.g, v'.g, c))
    && |v'.ram| == |v.ram| && forall b: nat :: b < |v.ram| && Live(v.g, b) ==> v'.ram[b] == v.ram[b]
  }

  /** Taking a page, making a new address space and building in it touches nothing else. */
  lemma ForkKeepsOthers(v0: Mem, v1: Mem, v2: Mem, root: nat, hi: nat)
    requires Good(v0) && v0.g.free != [] && v0.g.free[0] < |v0.ram|
    requires NewSpace(Popped(v0), v1, root) && Built(v1, v2, root, 0, hi)
    ensures OthersKept(v0, v2, root)
  {
    hide GoodBut, Live, Filled;
    LessLive(v0);
    forall c: Place | c.root != root ensures SameLeaf(v0.g, v2.g, c) {
      assert !InSpan(c, root, 0, hi);
    }
  }

  /** The two pages at the top of a process: the trampoline to execute, and its trapframe to write. */
  ghost predicate TopPages(g: Book, root: nat, trampoline: nat, frame: nat) {
    && Tramp(root) in g.leaves && g.leaves[Tramp(root)] == Leaf(Pte(trampoline, PTE_V + PTE_R + PTE_X), false)
    && Frame(root) in g.leaves && g.leaves[Frame(root)] == Leaf(Pte(frame, PTE_V + PTE_R + PTE_W), false)
  }

  lemma TopPagesKept(v: Mem, v': Mem, root: nat, sz: nat, trampoline: nat, frame: nat)
    requires TopPages(v.g, root, trampoline, frame) && Built(v, v', root, 0, Pages(sz)) && sz <= TRAPFRAME
    ensures TopPages(v'.g, root, trampoline, frame)
  {
    hide Live, Kept, Pte;
    PagesMonotone(sz, TRAPFRAME);
    assert !InSpan(Tramp(root), root, 0, Pages(sz)) && !InSpan(Frame(root), root, 0, Pages(sz));
  }

  lemma LessLive(v: Mem)
    requires Good(v) && v.g.free != [] && v.g.free[0] < |v.ram|
    ensures !Live(v.g, v.g.free[0]) && forall b: nat :: Live(v.g, b) ==> Live(Popped(v).g, b)
  {
    HeldNotOwned(v, v.g.free[0]);
  }

  /** The two pages at the top are beyond any user memory. */
  lemma BelowTop(g: Book, root: nat, oldsz: nat, sz: nat)
    requires UserSpace(g, root, oldsz) && oldsz <= sz <= TRAPFRAME
    ensures forall c :: c in g.leaves && InSpan(c, root, 0, Pages(sz)) ==> g.leaves[c].owned
    ensures forall c :: c in g.leaves ==> !InSpan(c, root, Pages(oldsz), Pages(sz))
  {
    PagesMonotone(sz, TRAPFRAME);
    assert Pages(TRAPFRAME) == Vpn(TRAPFRAME);
  }

  /** Other address spaces are not affected by what happens in one. */
  lemma OtherSpace(v: Mem, v1: Mem, v2: Mem, root: nat, other: nat, sz: nat, hi: nat)
    requires UserSpace(v.g, other, sz) && NewSpace(v, v1, root) && Built(v1, v2, root, 0, hi)
    ensures UserSpace(v1.g, other, sz) && other != root && UserSpace(v2.g, other, sz)
  {
    hide Live, Pages;
    assert other != root;
    forall c | c in v2.g.leaves && c.root == other ensures SameLeaf(v1.g, v2.g, c) {
      assert !InSpan(c, root, 0, hi);
    }
  }

  lemma BuiltHeld(v: Mem, v1: Mem, root: nat, lo: nat, hi: nat)
    requires Built(v, v1, root, lo, hi)
    ensures v1.g.held == v.g.held && |v1.ram| == |v.ram|
  {
  }

  lemma UserSame(v: Mem, v': Mem, root: nat, sz: nat)
    requires UserSpace(v.g, root, sz) && Unchanged(v, v', root)
    ensures UserSpace(v'.g, root, sz)
  {
    hide Live, Pages;
  }

  lemma SpanBelow(g: Book, root: nat, sz: nat, want: nat)
    requires forall c :: c in g.leaves && InSpan(c, root, 0, Pages(sz)) ==> g.leaves[c].owned
    ensures forall c :: c in g.leaves && InSpan(c, root, Pages(want), Pages(sz)) ==> g.leaves[c].owned
  {
    hide Pages;
    assert forall c :: InSpan(c, root, Pages(want), Pages(sz)) ==> InSpan(c, root, 0, Pages(sz));
  }

  lemma UserKept(v: Mem, v': Mem, root: nat, sz: nat, want: nat)
    requires UserSpace(v.g, root, sz) && sz < want && IsUnmap(v, v', root, Pages(want), Max(Pages(want), Pages(sz)))
    ensures UserSpace(v'.g, root, sz)
  {
    hide Live, Pages;
    PagesMonotone(sz, want);
  }
}
