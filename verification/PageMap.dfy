/**
 * Physical pages and the three-level page tables built in them: kernel/kalloc.c and kernel/vm.c. Pages are named by
 * page number and hold 512 words. The layout is Sv39, section 4.4 of the RISC-V Privileged Architecture (20211203).
 */
module PageMap {
  import opened Common

  const PGSIZE: nat := 4096
  const ENTRIES: nat := 512
  const MAXVA: nat := 0x40_0000_0000
  const PTE_V: nat := 1
  const PTE_R: nat := 2
  const PTE_W: nat := 4
  const PTE_X: nat := 8
  const PTE_U: nat := 16

  type Page = seq<nat>

  function Filled(w: nat): Page {
    seq(ENTRIES, _ => w)
  }

  function SetWord(page: Page, j: nat, w: nat): Page
    requires j < |page|
  {
    page[j := w]
  }

  // ---- page table entries ----------------------------------------------------------------------------------------

  function Pte(page: nat, flags: nat): nat {
    page * 1024 + flags
  }

  function PteFlags(pte: nat): nat {
    pte % 1024
  }

  /** The page PTE2PA extracts. */
  function PtePage(pte: nat): nat {
    pte / 1024
  }

  predicate IsValid(pte: nat) {
    pte % 2 == 1
  }

  /** One of the permission bits R, W, X is set: an entry for memory rather than for a lower table. */
  predicate IsLeaf(pte: nat) {
    pte / 2 % 8 != 0
  }

  predicate IsUser(pte: nat) {
    pte / 16 % 2 == 1
  }

  predicate IsWritable(pte: nat) {
    pte / 4 % 2 == 1
  }

  lemma PteParts(page: nat, flags: nat)
    requires flags < 1024
    ensures PtePage(Pte(page, flags)) == page && PteFlags(Pte(page, flags)) == flags
    ensures IsValid(Pte(page, flags)) == IsValid(flags) && IsLeaf(Pte(page, flags)) == IsLeaf(flags)
    ensures IsUser(Pte(page, flags)) == IsUser(flags)
    ensures IsWritable(Pte(page, flags)) <==> flags / PTE_W % 2 == 1
    ensures IsUser(Pte(page, flags)) <==> flags / PTE_U % 2 == 1
  {
    var q := page * 1024;
    Shifted(page * 512, flags, 2);
    Shifted(page * 256, flags, 4);
    Shifted(page * 64, flags, 16);
    assert (page * 512 + flags / 2) % 8 == flags / 2 % 8 by { Multiple(page * 64, flags / 2, 8); }
    assert (page * 256 + flags / 4) % 2 == flags / 4 % 2 by { Multiple(page * 128, flags / 4, 2); }
    assert (page * 64 + flags / 16) % 2 == flags / 16 % 2 by { Multiple(page * 32, flags / 16, 2); }
    assert (q + flags) % 2 == flags % 2 by { Multiple(page * 512, flags, 2); }
  }

  lemma Shifted(q: nat, r: nat, d: nat)
    requires d > 0
    ensures (q * d + r) / d == q + r / d
  {
    assert r == r / d * d + r % d;
    Quotient(q * d + r, q + r / d, r % d, d);
  }

  lemma Multiple(q: nat, r: nat, d: nat)
    requires d > 0
    ensures (q * d + r) % d == r % d
  {
    assert r == r / d * d + r % d;
    Quotient(q * d + r, q + r / d, r % d, d);
  }

  // ---- places in a tree ------------------------------------------------------------------------------------------

  /**
   * A place in the tree of root page `root`: the root itself at level 3, a lower table at level 2 or 1, a mapped
   * page at level 0. `idx` counts the places of a level from left to right.
   */
  datatype Place = Place(root: nat, level: nat, idx: nat)

  function Parent(c: Place): Place {
    Place(c.root, c.level + 1, c.idx / ENTRIES)
  }

  function Child(p: Place, j: nat): Place
    requires p.level > 0
  {
    Place(p.root, p.level - 1, p.idx * ENTRIES + j)
  }

  lemma ChildOf(p: Place, j: nat)
    requires p.level > 0 && j < ENTRIES
    ensures Parent(Child(p, j)) == p && Child(p, j).idx % ENTRIES == j
  {
  }

  lemma ParentOf(c: Place)
    ensures Child(Parent(c), c.idx % ENTRIES) == c && Parent(c).level == c.level + 1 && Parent(c).root == c.root
  {
  }

  /** A mapped page: its entry, and whether the address space owns the page or only refers to it. */
  datatype Leaf = Leaf(pte: nat, owned: bool)

  /** The lower tables and the mappings of all trees, who owns each page, the pages handed out, and the free list. */
  datatype Book = Book(nodes: map<Place, nat>, leaves: map<Place, Leaf>, owner: map<nat, Place>, held: set<nat>,
                       free: seq<nat>)

  /** Memory: allocatable pages are those from `lo` on. `head` is the address of the first free page, or 0. */
  datatype Mem = Mem(lo: nat, ram: seq<Page>, head: nat, g: Book)

  // ---- the invariant ---------------------------------------------------------------------------------------------

  ghost predicate Shaped(lo: nat, ram: seq<Page>) {
    0 < lo <= |ram| && forall p :: 0 <= p < |ram| ==> |ram[p]| == ENTRIES
  }

  /** Page conservation: every allocatable page is free, owned by one place of one tree, or handed out; never two. */
  ghost predicate Conserved(lo: nat, pages: nat, g: Book) {
    && Distinct(g.free)
    && forall p: nat :: PageOnce(lo, pages, g, p)
  }

  ghost predicate PageOnce(lo: nat, pages: nat, g: Book, p: nat) {
    && (lo <= p < pages <==> p in g.owner || p in g.held || p in g.free)
    && !(p in g.owner && p in g.held) && !(p in g.owner && p in g.free) && !(p in g.held && p in g.free)
  }

  function NextOf(free: seq<nat>, i: nat): nat {
    if i < |free| then free[i] * PGSIZE else 0
  }

  /** The free list runs through the first word of each free page. */
  ghost predicate Linked(ram: seq<Page>, head: nat, free: seq<nat>) {
    && head == NextOf(free, 0)
    && forall i: nat :: i < |free| ==> LinkAt(ram, free, i)
  }

  ghost predicate LinkAt(ram: seq<Page>, free: seq<nat>, i: nat)
    requires i < |free|
  {
    free[i] < |ram| && |ram[free[i]]| == ENTRIES && ram[free[i]][0] == NextOf(free, i + 1)
  }

  ghost predicate NodeOk(g: Book, p: Place) {
    && p in g.nodes && 0 < p.level <= 3 && g.nodes[p] in g.owner && g.owner[g.nodes[p]] == p
    && (if p.level == 3 then p.idx == 0 && g.nodes[p] == p.root else Parent(p) in g.nodes)
  }

  ghost predicate LeafOk(g: Book, c: Place) {
    && c in g.leaves && c.level == 0 && Parent(c) in g.nodes && c.idx < MAXVA / PGSIZE
    && IsValid(g.leaves[c].pte) && IsLeaf(g.leaves[c].pte)
    && (g.leaves[c].owned ==> PtePage(g.leaves[c].pte) in g.owner && g.owner[PtePage(g.leaves[c].pte)] == c)
  }

  ghost predicate OwnerOk(g: Book, b: nat)
    requires b in g.owner
  {
    var p := g.owner[b];
    if p.level == 0 then p in g.leaves && g.leaves[p].owned && PtePage(g.leaves[p].pte) == b
    else p in g.nodes && g.nodes[p] == b
  }

  /** The trees and the owners tell the same story. */
  ghost predicate Trees(g: Book) {
    && (forall p :: p in g.nodes ==> NodeOk(g, p))
    && (forall c :: c in g.leaves ==> LeafOk(g, c))
    && (forall b :: b in g.owner ==> OwnerOk(g, b))
  }

  /** A word of a table says whether the place below it exists, and where. */
  ghost predicate EntryOk(word: nat, g: Book, c: Place) {
    if c.level == 0 then (IsValid(word) <==> c in g.leaves) && (c in g.leaves ==> word == g.leaves[c].pte)
    else (IsValid(word) <==> c in g.nodes) && (c in g.nodes ==> word == Pte(g.nodes[c], PTE_V))
  }

  /** The table at `p` is right, but perhaps for its word about `hole`. */
  ghost predicate TableOk(ram: seq<Page>, g: Book, p: Place, hole: Place)
    requires p in g.nodes
  {
    && g.nodes[p] < |ram| && |ram[g.nodes[p]]| == ENTRIES && p.level > 0
    && forall j: nat :: j < ENTRIES && Child(p, j) != hole ==> EntryOk(ram[g.nodes[p]][j], g, Child(p, j))
  }

  ghost predicate Tables(ram: seq<Page>, g: Book, hole: Place) {
    forall p :: p in g.nodes ==> TableOk(ram, g, p, hole)
  }

  const NONE: Place := Place(0, 9, 0)

  ghost predicate GoodBut(v: Mem, hole: Place) {
    && Shaped(v.lo, v.ram) && Conserved(v.lo, |v.ram|, v.g) && Linked(v.ram, v.head, v.g.free)
    && Trees(v.g) && Tables(v.ram, v.g, hole)
  }

  ghost predicate Good(v: Mem) {
    GoodBut(v, NONE)
  }

  // ---- pages handed out and taken back ---------------------------------------------------------------------------

  /** kalloc on a list that is not empty. */
  ghost function Popped(v: Mem): Mem
    requires v.g.free != [] && v.g.free[0] < |v.ram|
  {
    var p := v.g.free[0];
    v.(head := NextOf(v.g.free, 1), ram := v.ram[p := Filled(0x0505_0505_0505_0505)],
       g := v.g.(free := v.g.free[1..], held := v.g.held + {p}))
  }

  /** kfree */
  ghost function Pushed(v: Mem, p: nat): Mem
    requires p < |v.ram|
  {
    v.(head := p * PGSIZE, ram := v.ram[p := SetWord(Filled(0x0101_0101_0101_0101), 0, v.head)],
       g := v.g.(free := [p] + v.g.free, held := v.g.held - {p}))
  }

  lemma ShapedUpdate(lo: nat, ram: seq<Page>, p: nat, page: Page)
    requires Shaped(lo, ram) && p < |ram| && |page| == ENTRIES
    ensures Shaped(lo, ram[p := page])
  {
  }

  lemma LinkedUpdate(ram: seq<Page>, head: nat, free: seq<nat>, p: nat, page: Page)
    requires Linked(ram, head, free) && p < |ram| && p !in free
    ensures Linked(ram[p := page], head, free)
  {
    var ram' := ram[p := page];
    forall i: nat | i < |free| ensures LinkAt(ram', free, i) {
      assert LinkAt(ram, free, i) && free[i] in free;
    }
  }

  lemma TablesUpdate(ram: seq<Page>, g: Book, hole: Place, p: nat, page: Page)
    requires Tables(ram, g, hole) && p < |ram| && forall q :: q in g.nodes ==> g.nodes[q] != p
    ensures Tables(ram[p := page], g, hole)
  {
    hide EntryOk;
    forall q | q in g.nodes ensures TableOk(ram[p := page], g, q, hole) {
      assert TableOk(ram, g, q, hole);
    }
  }

  /** Trees and tables do not depend on which pages are free or handed out. */
  lemma TreesSame(ram: seq<Page>, g: Book, g': Book, hole: Place)
    requires Trees(g) && Tables(ram, g, hole) && g'.nodes == g.nodes && g'.leaves == g.leaves && g'.owner == g.owner
    ensures Trees(g') && Tables(ram, g', hole)
  {
    forall p | p in g'.nodes ensures NodeOk(g', p) && TableOk(ram, g', p, hole) {
      assert NodeOk(g, p) && TableOk(ram, g, p, hole);
      forall j: nat | j < ENTRIES && Child(p, j) != hole ensures EntryOk(ram[g.nodes[p]][j], g', Child(p, j)) {
        assert EntryOk(ram[g.nodes[p]][j], g, Child(p, j));
      }
    }
    forall c | c in g'.leaves ensures LeafOk(g', c) {
      assert LeafOk(g, c);
    }
    forall b | b in g'.owner ensures OwnerOk(g', b) {
      assert OwnerOk(g, b);
    }
  }

  /** A page that no tree owns is no table. */
  lemma NotATable(g: Book, p: nat)
    requires Trees(g) && p !in g.owner
    ensures forall q :: q in g.nodes ==> g.nodes[q] != p
  {
    forall q | q in g.nodes ensures g.nodes[q] != p {
      assert NodeOk(g, q);
    }
  }

  lemma PopKeeps(v: Mem, hole: Place)
    requires GoodBut(v, hole) && v.g.free != []
    ensures v.g.free[0] < |v.ram| && v.head == v.g.free[0] * PGSIZE && v.g.free[0] !in v.g.held && v.lo <= v.g.free[0]
    ensures |v.ram[v.g.free[0]]| == ENTRIES && v.ram[v.g.free[0]][0] == NextOf(v.g.free, 1)
    ensures GoodBut(Popped(v), hole)
  {
    hide Trees, Tables;
    var p := v.g.free[0];
    assert LinkAt(v.ram, v.g.free, 0) && PageOnce(v.lo, |v.ram|, v.g, p);
    var v' := Popped(v);
    ShapedUpdate(v.lo, v.ram, p, v'.ram[p]);
    NotATable(v.g, p);
    TablesUpdate(v.ram, v.g, hole, p, v'.ram[p]);
    TreesSame(v'.ram, v.g, v'.g, hole);
    forall i: nat | i < |v'.g.free| ensures LinkAt(v'.ram, v'.g.free, i) {
      assert LinkAt(v.ram, v.g.free, i + 1);
    }
    forall q: nat ensures PageOnce(v.lo, |v.ram|, v'.g, q) {
      assert PageOnce(v.lo, |v.ram|, v.g, q);
      assert v.g.free == [p] + v.g.free[1..];
    }
  }

  lemma PushKeeps(v: Mem, hole: Place, p: nat)
    requires GoodBut(v, hole) && p in v.g.held
    ensures v.lo <= p < |v.ram| && GoodBut(Pushed(v, p), hole)
  {
    hide Trees, Tables;
    assert PageOnce(v.lo, |v.ram|, v.g, p);
    var v' := Pushed(v, p);
    ShapedUpdate(v.lo, v.ram, p, v'.ram[p]);
    NotATable(v.g, p);
    TablesUpdate(v.ram, v.g, hole, p, v'.ram[p]);
    TreesSame(v'.ram, v.g, v'.g, hole);
    forall i: nat | i < |v'.g.free| ensures LinkAt(v'.ram, v'.g.free, i) {
      if i > 0 { assert LinkAt(v.ram, v.g.free, i - 1) && v.g.free[i - 1] in v.g.free; }
    }
    forall q: nat ensures PageOnce(v.lo, |v.ram|, v'.g, q) {
      assert PageOnce(v.lo, |v.ram|, v.g, q);
    }
  }

  /** The holder of a page may write it. */
  lemma FillKeeps(v: Mem, hole: Place, p: nat, page: Page)
    requires GoodBut(v, hole) && p in v.g.held && |page| == ENTRIES
    ensures p < |v.ram| && GoodBut(v.(ram := v.ram[p := page]), hole)
  {
    hide Trees, Tables, Linked;
    assert PageOnce(v.lo, |v.ram|, v.g, p);
    ShapedUpdate(v.lo, v.ram, p, page);
    NotATable(v.g, p);
    TablesUpdate(v.ram, v.g, hole, p, page);
    LinkedUpdate(v.ram, v.head, v.g.free, p, page);
  }

  // ---- tables and mappings made and removed ----------------------------------------------------------------------

  /** A cleared page becomes the root of a tree of its own. */
  ghost function AttachRoot(v: Mem, p: nat): Mem {
    v.(g := v.g.(nodes := v.g.nodes[Place(p, 3, 0) := p], owner := v.g.owner[p := Place(p, 3, 0)],
                 held := v.g.held - {p}))
  }

  /** The word about place `c` in its parent table becomes `word`. */
  ghost function Wrote(v: Mem, c: Place, word: nat): seq<Page> {
    if Parent(c) in v.g.nodes && v.g.nodes[Parent(c)] < |v.ram| && |v.ram[v.g.nodes[Parent(c)]]| == ENTRIES
    then v.ram[v.g.nodes[Parent(c)] := SetWord(v.ram[v.g.nodes[Parent(c)]], c.idx % ENTRIES, word)] else v.ram
  }

  /** A cleared page becomes the table at `c`. */
  ghost function AttachNode(v: Mem, c: Place, p: nat): Mem {
    v.(ram := Wrote(v, c, Pte(p, PTE_V)),
       g := v.g.(nodes := v.g.nodes[c := p], owner := v.g.owner[p := c], held := v.g.held - {p}))
  }

  /** The mapping `c` is entered; if `owned`, the page goes over to the tree. */
  ghost function MapLeaf(v: Mem, c: Place, pte: nat, owned: bool): Mem {
    v.(ram := Wrote(v, c, pte),
       g := v.g.(leaves := v.g.leaves[c := Leaf(pte, owned)],
                 owner := if owned then v.g.owner[PtePage(pte) := c] else v.g.owner,
                 held := if owned then v.g.held - {PtePage(pte)} else v.g.held))
  }

  /** The book without mapping `c`; a page it owned is handed back. */
  ghost function DropLeaf(g: Book, c: Place): Book
    requires c in g.leaves
  {
    var page := PtePage(g.leaves[c].pte);
    g.(leaves := g.leaves - {c}, owner := if g.leaves[c].owned then g.owner - {page} else g.owner,
       held := if g.leaves[c].owned then g.held + {page} else g.held)
  }

  /** The book without the table at `c`, whose page is handed back. */
  ghost function DropNode(g: Book, c: Place): Book
    requires c in g.nodes
  {
    g.(nodes := g.nodes - {c}, owner := g.owner - {g.nodes[c]}, held := g.held + {g.nodes[c]})
  }

  lemma ZeroTable(ram: seq<Page>, g: Book, c: Place, hole: Place)
    requires c in g.nodes && g.nodes[c] < |ram| && ram[g.nodes[c]] == Filled(0) && c.level > 0
    requires forall d :: d in g.nodes || d in g.leaves ==> Parent(d) != c
    ensures TableOk(ram, g, c, hole)
  {
    forall j: nat | j < ENTRIES ensures EntryOk(0, g, Child(c, j)) {
      ChildOf(c, j);
    }
  }

  /** Writing the word about `c` leaves every other word of every table as it is. */
  lemma OtherWords(v: Mem, c: Place, word: nat, p: Place, j: nat)
    requires Trees(v.g) && Shaped(v.lo, v.ram) && p in v.g.nodes && p.level > 0 && j < ENTRIES && Child(p, j) != c
    requires Parent(c) in v.g.nodes && v.g.nodes[p] < |v.ram| && v.g.nodes[Parent(c)] < |v.ram|
    ensures |Wrote(v, c, word)| == |v.ram| && |Wrote(v, c, word)[v.g.nodes[p]]| == ENTRIES
    ensures Wrote(v, c, word)[v.g.nodes[p]][j] == v.ram[v.g.nodes[p]][j]
  {
    hide LeafOk, OwnerOk;
    ParentOf(c);
    assert NodeOk(v.g, p) && NodeOk(v.g, Parent(c));
  }

  lemma WroteShape(v: Mem, c: Place, word: nat)
    requires Shaped(v.lo, v.ram) && Linked(v.ram, v.head, v.g.free) && Parent(c) in v.g.nodes
    requires v.g.nodes[Parent(c)] < |v.ram| && v.g.nodes[Parent(c)] !in v.g.free
    ensures Shaped(v.lo, Wrote(v, c, word)) && Linked(Wrote(v, c, word), v.head, v.g.free)
    ensures |Wrote(v, c, word)| == |v.ram|
    ensures forall p :: 0 <= p < |v.ram| && p != v.g.nodes[Parent(c)] ==> Wrote(v, c, word)[p] == v.ram[p]
    ensures Wrote(v, c, word)[v.g.nodes[Parent(c)]] == SetWord(v.ram[v.g.nodes[Parent(c)]], c.idx % ENTRIES, word)
  {
    hide Linked;
    var q := v.g.nodes[Parent(c)];
    var page := SetWord(v.ram[q], c.idx % ENTRIES, word);
    ShapedUpdate(v.lo, v.ram, q, page);
    LinkedUpdate(v.ram, v.head, v.g.free, q, page);
  }

  /** A table is allocatable memory that is not free. */
  lemma NodePage(v: Mem, hole: Place, p: Place)
    requires GoodBut(v, hole) && p in v.g.nodes
    ensures v.lo <= v.g.nodes[p] < |v.ram| && v.g.nodes[p] !in v.g.free && v.g.nodes[p] !in v.g.held
    ensures NodeOk(v.g, p) && TableOk(v.ram, v.g, p, hole)
  {
    hide Linked, Shaped;
    assert NodeOk(v.g, p) && PageOnce(v.lo, |v.ram|, v.g, v.g.nodes[p]);
  }

  /** Both books say the same of place `d`. */
  ghost predicate SameAt(g: Book, g': Book, d: Place) {
    && (d in g.nodes <==> d in g'.nodes) && (d in g.nodes ==> g'.nodes[d] == g.nodes[d])
    && (d in g.leaves <==> d in g'.leaves) && (d in g.leaves ==> g'.leaves[d] == g.leaves[d])
  }

  /** A table other than the one at `c` is right after a change that concerns `c` alone. */
  lemma TableAfter(v: Mem, g': Book, c: Place, word: nat, hole: Place, p: Place)
    requires GoodBut(v, hole) && Parent(c) in v.g.nodes && p in v.g.nodes && p != c
    requires (forall d :: d != c ==> SameAt(v.g, g', d)) && EntryOk(word, g', c)
    ensures p in g'.nodes && TableOk(Wrote(v, c, word), g', p, hole)
  {
    hide Conserved, Linked, EntryOk, Trees, Wrote;
    assert SameAt(v.g, g', p);
    NodePage(v, hole, p);
    NodePage(v, hole, Parent(c));
    WroteShape(v, c, word);
    forall j: nat | j < ENTRIES && Child(p, j) != hole
      ensures EntryOk(Wrote(v, c, word)[v.g.nodes[p]][j], g', Child(p, j)) {
      if Child(p, j) == c {
        ChildOf(p, j);
      } else {
        OtherWords(v, c, word, p, j);
        EntrySame(v.ram[v.g.nodes[p]][j], v.g, g', Child(p, j));
      }
    }
  }

  lemma EntrySame(word: nat, g: Book, g': Book, d: Place)
    requires EntryOk(word, g, d) && SameAt(g, g', d)
    ensures EntryOk(word, g', d)
  {
  }

  lemma AttachRootKeeps(v: Mem, p: nat)
    requires Good(v) && p in v.g.held && p < |v.ram| && v.ram[p] == Filled(0)
    ensures Place(p, 3, 0) !in v.g.nodes && Good(AttachRoot(v, p))
  {
    hide Linked, Shaped, EntryOk;
    var c, v' := Place(p, 3, 0), AttachRoot(v, p);
    assert PageOnce(v.lo, |v.ram|, v.g, p);
    assert c in v.g.nodes ==> NodeOk(v.g, c);
    forall q: nat ensures PageOnce(v.lo, |v.ram|, v'.g, q) {
      assert PageOnce(v.lo, |v.ram|, v.g, q);
    }
    AttachTrees(v.g, v'.g, c, p);
    forall q | q in v'.g.nodes ensures TableOk(v.ram, v'.g, q, NONE) {
      if q == c {
        ZeroTable(v.ram, v'.g, c, NONE);
      } else {
        TableSame(v, v'.g, c, q);
      }
    }
  }

  lemma TableSame(v: Mem, g': Book, c: Place, q: Place)
    requires GoodBut(v, NONE) && q in v.g.nodes && c.level == 3 && (forall d :: d != c ==> SameAt(v.g, g', d)) && q != c
    ensures q in g'.nodes && TableOk(v.ram, g', q, NONE)
  {
    hide Conserved, Linked, Shaped, EntryOk;
    NodePage(v, NONE, q);
    assert SameAt(v.g, g', q);
    forall j: nat | j < ENTRIES ensures EntryOk(v.ram[v.g.nodes[q]][j], g', Child(q, j)) {
      EntrySame(v.ram[v.g.nodes[q]][j], v.g, g', Child(q, j));
    }
  }

  /** What is said of other places and pages stays true when the book changes at place `c` and at `pages` only. */
  lemma StillOk(g: Book, g': Book, c: Place, pages: set<nat>)
    requires Trees(g) && (forall d :: d != c ==> SameAt(g, g', d))
    requires forall b: nat :: b !in pages ==>
               (b in g.owner <==> b in g'.owner) && (b in g.owner ==> g'.owner[b] == g.owner[b])
    requires c in g.nodes ==> c in g'.nodes && g'.nodes[c] == g.nodes[c]
    requires forall b :: b in g.owner ==> (g.owner[b] == c <==> b in pages)
    ensures forall q :: q in g.nodes && q != c ==> NodeOk(g', q)
    ensures forall d :: d in g.leaves && d != c ==> LeafOk(g', d)
    ensures forall b :: b in g.owner && b !in pages ==> OwnerOk(g', b)
  {
    hide PtePage, IsValid, IsLeaf, Parent;
    forall q | q in g.nodes && q != c ensures NodeOk(g', q) {
      assert NodeOk(g, q) && SameAt(g, g', q);
      if q.level < 3 && Parent(q) != c { assert SameAt(g, g', Parent(q)); }
    }
    forall d | d in g.leaves && d != c ensures LeafOk(g', d) {
      assert LeafOk(g, d) && SameAt(g, g', d);
      if Parent(d) != c { assert SameAt(g, g', Parent(d)); }
    }
    forall b | b in g.owner && b !in pages ensures OwnerOk(g', b) {
      assert OwnerOk(g, b) && SameAt(g, g', g.owner[b]);
    }
  }

  /** A new table at `c`, in a page that nobody owned: nothing hangs below it yet. */
  lemma AttachTrees(g: Book, g': Book, c: Place, p: nat)
    requires Trees(g) && c !in g.nodes && p !in g.owner
    requires g'.nodes == g.nodes[c := p] && g'.owner == g.owner[p := c] && g'.leaves == g.leaves
    requires if c.level == 3 then c.idx == 0 && c.root == p else 0 < c.level < 3 && Parent(c) in g.nodes
    ensures Trees(g') && (forall d :: d != c ==> SameAt(g, g', d))
    ensures forall d :: d in g'.nodes || d in g'.leaves ==> Parent(d) != c
  {
    hide PtePage, IsValid, IsLeaf, Parent;
    assert forall b :: b in g.owner ==> OwnerOk(g, b);
    assert c in g.leaves ==> LeafOk(g, c);
    StillOk(g, g', c, {p});
    assert NodeOk(g', c) && OwnerOk(g', p);
    forall d | d in g'.nodes || d in g'.leaves ensures Parent(d) != c {
      assert Parent(d).level == d.level + 1 by { ParentOf(d); }
      if d in g.nodes { assert NodeOk(g, d); } else if d in g.leaves { assert LeafOk(g, d); }
    }
  }

  lemma AttachNodeKeeps(v: Mem, c: Place, p: nat)
    requires Good(v) && p in v.g.held && p < |v.ram| && v.ram[p] == Filled(0)
    requires c !in v.g.nodes && 0 < c.level < 3 && Parent(c) in v.g.nodes
    ensures Good(AttachNode(v, c, p))
  {
    hide Linked, EntryOk, Wrote, Pte;
    var v' := AttachNode(v, c, p);
    assert PageOnce(v.lo, |v.ram|, v.g, p);
    NodePage(v, NONE, Parent(c));
    WroteShape(v, c, Pte(p, PTE_V));
    forall q: nat ensures PageOnce(v.lo, |v.ram|, v'.g, q) {
      assert PageOnce(v.lo, |v.ram|, v.g, q);
    }
    AttachTrees(v.g, v'.g, c, p);
    NodeEntry(v'.g, c);
    forall q | q in v'.g.nodes ensures TableOk(v'.ram, v'.g, q, NONE) {
      if q == c {
        ZeroTable(v'.ram, v'.g, c, NONE);
      } else {
        TableAfter(v, v'.g, c, Pte(p, PTE_V), NONE, q);
      }
    }
  }

  lemma NodeEntry(g: Book, c: Place)
    requires c in g.nodes && c.level > 0
    ensures EntryOk(Pte(g.nodes[c], PTE_V), g, c)
  {
    PteParts(g.nodes[c], PTE_V);
  }

  lemma MapLeafKeeps(v: Mem, c: Place, pte: nat, owned: bool)
    requires Good(v) && c !in v.g.leaves && c.level == 0 && Parent(c) in v.g.nodes && c.idx < MAXVA / PGSIZE
    requires IsValid(pte) && IsLeaf(pte) && (owned ==> PtePage(pte) in v.g.held)
    ensures Good(MapLeaf(v, c, pte, owned))
  {
    hide Linked, EntryOk, Wrote, PtePage, IsValid, IsLeaf, Parent, TableOk, Trees;
    var v' := MapLeaf(v, c, pte, owned);
    assert PageOnce(v.lo, |v.ram|, v.g, PtePage(pte));
    NodePage(v, NONE, Parent(c));
    WroteShape(v, c, pte);
    forall q: nat ensures PageOnce(v.lo, |v.ram|, v'.g, q) {
      assert PageOnce(v.lo, |v.ram|, v.g, q);
    }
    MapTrees(v.g, v'.g, c, pte, owned);
    LeafEntry(v'.g, c);
    forall q | q in v'.g.nodes ensures TableOk(v'.ram, v'.g, q, NONE) {
      TableAfter(v, v'.g, c, pte, NONE, q);
    }
  }

  lemma LeafEntry(g: Book, c: Place)
    requires c.level == 0 && (c in g.leaves ==> IsValid(g.leaves[c].pte))
    ensures c in g.leaves ==> EntryOk(g.leaves[c].pte, g, c)
    ensures c !in g.leaves ==> EntryOk(0, g, c)
  {
  }

  lemma MapTrees(g: Book, g': Book, c: Place, pte: nat, owned: bool)
    requires Trees(g) && c !in g.leaves && c.level == 0 && Parent(c) in g.nodes && c.idx < MAXVA / PGSIZE
    requires IsValid(pte) && IsLeaf(pte) && (owned ==> PtePage(pte) !in g.owner)
    requires g'.nodes == g.nodes && g'.leaves == g.leaves[c := Leaf(pte, owned)]
    requires g'.owner == if owned then g.owner[PtePage(pte) := c] else g.owner
    ensures Trees(g') && (forall d :: d != c ==> SameAt(g, g', d)) && c !in g'.nodes
  {
    hide PtePage, IsValid, IsLeaf, Parent;
    assert c in g.nodes ==> NodeOk(g, c);
    assert forall b :: b in g.owner ==> OwnerOk(g, b);
    StillOk(g, g', c, if owned then {PtePage(pte)} else {});
    assert c !in g'.nodes && LeafOk(g', c);
    assert owned ==> OwnerOk(g', PtePage(pte));
  }

  /** The tables other than those at `c` and above it do not mention `c`. */
  lemma TablesBut(v: Mem, g': Book, c: Place)
    requires Good(v) && (forall d :: d != c ==> SameAt(v.g, g', d)) && c !in g'.nodes
    ensures Tables(v.ram, g', c)
  {
    hide Conserved, Linked, Shaped, Trees, EntryOk;
    forall q | q in g'.nodes ensures TableOk(v.ram, g', q, c) {
      assert SameAt(v.g, g', q);
      NodePage(v, NONE, q);
      forall j: nat | j < ENTRIES && Child(q, j) != c ensures EntryOk(v.ram[v.g.nodes[q]][j], g', Child(q, j)) {
        assert Child(q, j).level < 9;
        EntrySame(v.ram[v.g.nodes[q]][j], v.g, g', Child(q, j));
      }
    }
  }

  /** A mapping is struck from the book before the table is brought up to date. */
  lemma OpenLeaf(v: Mem, c: Place)
    requires Good(v) && c in v.g.leaves
    ensures GoodBut(v.(g := DropLeaf(v.g, c)), c) && c.level == 0 && Parent(c) in v.g.nodes && c !in v.g.nodes
    ensures v.g.leaves[c].owned ==> v.lo <= PtePage(v.g.leaves[c].pte) < |v.ram|
  {
    hide Linked, Tables, EntryOk, PtePage, IsValid, IsLeaf, Parent, TableOk, Trees;
    var g' := DropLeaf(v.g, c);
    LeafIs(v.g, c);
    UnmapTrees(v.g, g', c);
    TablesBut(v, g', c);
    assert PageOnce(v.lo, |v.ram|, v.g, PtePage(v.g.leaves[c].pte));
    forall q: nat ensures PageOnce(v.lo, |v.ram|, g', q) {
      assert PageOnce(v.lo, |v.ram|, v.g, q);
    }
  }

  /** A table with nothing below it is struck from the book. */
  lemma OpenNode(v: Mem, c: Place)
    requires Good(v) && c in v.g.nodes && forall d :: d in v.g.nodes || d in v.g.leaves ==> Parent(d) != c
    ensures GoodBut(v.(g := DropNode(v.g, c)), c)
  {
    hide Linked, Tables, EntryOk, PtePage, IsValid, IsLeaf, Parent, TableOk, Trees;
    var g' := DropNode(v.g, c);
    DropTrees(v.g, g', c);
    TablesBut(v, g', c);
    NodePage(v, NONE, c);
    forall q: nat ensures PageOnce(v.lo, |v.ram|, g', q) {
      assert PageOnce(v.lo, |v.ram|, v.g, q);
    }
  }

  lemma DropTrees(g: Book, g': Book, c: Place)
    requires Trees(g) && c in g.nodes && forall d :: d in g.nodes || d in g.leaves ==> Parent(d) != c
    requires g' == DropNode(g, c)
    ensures Trees(g') && (forall d :: d != c ==> SameAt(g, g', d))
  {
    hide PtePage, IsValid, IsLeaf, Parent;
    assert NodeOk(g, c);
    forall q | q in g'.nodes ensures NodeOk(g', q) {
      assert NodeOk(g, q);
    }
    forall d | d in g'.leaves ensures LeafOk(g', d) {
      assert LeafOk(g, d);
    }
    forall b | b in g'.owner ensures OwnerOk(g', b) {
      assert OwnerOk(g, b);
    }
    assert c in g.leaves ==> LeafOk(g, c);
  }

  /** Clearing the word about a place that is gone makes the tables right again. */
  lemma CloseHole(v: Mem, c: Place)
    requires GoodBut(v, c) && Parent(c) in v.g.nodes && c !in v.g.nodes && c !in v.g.leaves
    ensures Good(v.(ram := Wrote(v, c, 0)))
  {
    hide Linked, EntryOk, Trees, Wrote, Conserved;
    NodePage(v, c, Parent(c));
    WroteShape(v, c, 0);
    ZeroEntry(v.g, c);
    forall p | p in v.g.nodes ensures TableOk(Wrote(v, c, 0), v.g, p, NONE) {
      NodePage(v, c, p);
      forall j: nat | j < ENTRIES ensures EntryOk(Wrote(v, c, 0)[v.g.nodes[p]][j], v.g, Child(p, j)) {
        if Child(p, j) == c { ChildOf(p, j); } else { OtherWords(v, c, 0, p, j); }
      }
    }
  }

  lemma ZeroEntry(g: Book, c: Place)
    requires c !in g.nodes && c !in g.leaves
    ensures EntryOk(0, g, c)
  {
  }

  lemma LeafIs(g: Book, c: Place)
    requires Trees(g) && c in g.leaves
    ensures LeafOk(g, c)
  {
  }

  lemma UnmapTrees(g: Book, g': Book, c: Place)
    requires Trees(g) && c in g.leaves && g'.nodes == g.nodes && g'.leaves == g.leaves - {c}
    requires g'.owner == if g.leaves[c].owned then g.owner - {PtePage(g.leaves[c].pte)} else g.owner
    ensures Trees(g') && (forall d :: d != c ==> SameAt(g, g', d)) && c !in g'.nodes
  {
    hide PtePage, IsValid, IsLeaf, Parent;
    assert LeafOk(g, c);
    assert c in g.nodes ==> NodeOk(g, c);
    assert forall b :: b in g.owner ==> OwnerOk(g, b);
    StillOk(g, g', c, if g.leaves[c].owned then {PtePage(g.leaves[c].pte)} else {});
  }
}
