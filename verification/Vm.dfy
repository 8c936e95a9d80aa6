/** Pages, page tables and user memory: kernel/kalloc.c, kernel/vm.c and their callers in kernel/proc.c. */
module Vm {
  import opened Common
  import opened PageMap
  import opened PageSteps

  class Memory {
    const lo: nat
    var ram: seq<Page>
    var head: nat
    ghost var g: Book

    ghost function View(): Mem
      reads this
    {
      Mem(lo, ram, head, g)
    }

    ghost predicate Valid()
      reads this
    {
      Good(View())
    }

    /** kinit: every page from `first` on is put on the free list, and no page is in use. */
    constructor (first: nat, image: seq<Page>)
      requires Shaped(first, image)
      ensures Valid() && lo == first && |ram| == |image|
      ensures g.nodes == map[] && g.leaves == map[] && g.held == {}
      ensures forall p: nat :: first <= p < |image| <==> p in g.free
    {
      lo, ram, head := first, image, 0;
      g := Book(map[], map[], map[], PageSet(first, |image|), []);
      new;
      PageSetIs(first, |image|);
      NothingFree(View());
      var p := lo;
      while p < |ram|
        invariant lo <= p <= |ram| == |image| && Valid() && lo == first
        invariant g.nodes == map[] && g.leaves == map[] && g.held == PageSet(p, |image|)
      {
        hide GoodBut;
        PageSetIs(p, |image|);
        PageSetIs(p + 1, |image|);
        var o := Kfree(p * PGSIZE, NONE);
        assert g.held == PageSet(p + 1, |image|);
        p := p + 1;
      }
      PageSetIs(p, |image|);
      AllFree(View());
    }

    /** kalloc: a page of its own, or 0 exactly when none is free. */
    method Kalloc() returns (p: nat)
      requires Valid()
      modifies `ram, `head, `g
      ensures Valid() && (p == 0 <==> old(g.free) == [])
      ensures p == 0 ==> View() == old(View())
      ensures p != 0 ==> p == old(g.free[0]) && p < |old(ram)| && p !in old(g.held) && View() == Popped(old(View()))
    {
      hide Linked, Conserved, Trees, Tables, Filled;
      HeadIs(View());
      if head == 0 { return 0; }
      PopKeeps(View(), NONE);
      p := head / PGSIZE;
      head := ram[p][0];
      ram := ram[p := Filled(0x0505_0505_0505_0505)];
      g := g.(free := g.free[1..], held := g.held + {p});
    }

    /** kfree of an address, whose page the caller holds; the page table may be out of date about `hole`. */
    method Kfree(pa: nat, ghost hole: Place) returns (o: Outcome)
      requires GoodBut(View(), hole) && (pa % PGSIZE == 0 && lo <= pa / PGSIZE < |ram| ==> pa / PGSIZE in g.held)
      modifies `ram, `head, `g
      ensures GoodBut(View(), hole) && (o.Done? <==> pa % PGSIZE == 0 && lo <= pa / PGSIZE < |ram|)
      ensures o.Done? ==> pa / PGSIZE < |old(ram)| && View() == Pushed(old(View()), pa / PGSIZE)
      ensures o.Panic? ==> View() == old(View())
    {
      hide GoodBut;
      if pa % PGSIZE != 0 || pa < lo * PGSIZE || pa >= |ram| * PGSIZE { return Panic("kfree"); }
      var p := pa / PGSIZE;
      PushKeeps(View(), hole, p);
      ram := ram[p := SetWord(Filled(0x0101_0101_0101_0101), 0, head)];
      head := p * PGSIZE;
      g := g.(free := [p] + g.free, held := g.held - {p});
      o := Done;
    }

    /**
     * walk: the level-0 table for `va`, made on the way if `alloc`. It is 0 exactly when there is none, and with
     * `alloc` only when memory ran out.
     */
    method Walk(root: nat, va: nat, alloc: bool) returns (o: Outcome, table: nat)
      requires Valid() && Place(root, 3, 0) in g.nodes
      modifies `ram, `head, `g
      ensures Valid() && (o.Panic? <==> va >= MAXVA) && Grown(old(View()), View(), root)
      ensures o.Panic? || !alloc || Up(root, Vpn(va), 1) in old(g.nodes) ==> View() == old(View())
      ensures o.Done? ==> (table != 0 <==> Up(root, Vpn(va), 1) in g.nodes)
      ensures o.Done? && table != 0 ==> table == g.nodes[Up(root, Vpn(va), 1)]
      ensures o.Done? && alloc && table == 0 ==> g.free == [] && |old(g.free)| <= 1
      ensures |old(g.free)| <= |g.free| + 2
    {
      hide GoodBut, Grown, Filled, Up, Px;
      ghost var v0 := View();
      var vpn := Vpn(va);
      GrownSelf(v0, root);
      table := 0;
      if va >= MAXVA { return Panic("walk"), 0; }
      UpIs(root, vpn);
      RootIs(v0, root);
      var cur := root;
      var level := 2;
      while level > 0
        invariant 0 <= level <= 2 && Valid() && Grown(v0, View(), root)
        invariant !alloc || Up(root, vpn, 1) in v0.g.nodes ==> View() == v0
        invariant |v0.g.free| <= |g.free| + 2 - level
        invariant Up(root, vpn, level + 1) in g.nodes && g.nodes[Up(root, vpn, level + 1)] == cur
      {
        ghost var c, v := Up(root, vpn, level), View();
        OnTheWay(v, root, vpn, level);
        var word := ram[cur][Px(level, vpn)];
        if IsValid(word) {
          cur := PtePage(word);
        } else {
          if !alloc { return Done, 0; }
          var p := Kalloc();
          if p == 0 { return Done, 0; }
          ClearedPage(v, p);
          ram := ram[p := Filled(0)];
          NewTable(v, View(), c, p, cur, Px(level, vpn));
          ram := ram[cur := SetWord(ram[cur], Px(level, vpn), Pte(p, PTE_V))];
          g := AttachNode(View(), c, p).g;
          GrownTwice(v0, v, View(), root);
          cur := p;
        }
        level := level - 1;
      }
      NodeNotNull(View(), Up(root, vpn, 1));
      return Done, cur;
    }

    /** walkaddr: the page mapped for user access at `va`, or 0. */
    method Walkaddr(root: nat, va: nat) returns (page: nat)
      requires Valid() && Place(root, 3, 0) in g.nodes
      modifies `ram, `head, `g
      ensures View() == old(View())
      ensures var c := Place(root, 0, Vpn(va));
              page == if va < MAXVA && c in g.leaves && IsUser(g.leaves[c].pte) then PtePage(g.leaves[c].pte) else 0
    {
      hide GoodBut, Grown, IsUser, IsValid, PtePage;
      if va >= MAXVA { return 0; }
      var o, table := Walk(root, va, false);
      UpIs(root, Vpn(va));
      if table == 0 {
        NoTableNoLeaf(View(), root, Vpn(va));
        return 0;
      }
      FoundWord(View(), root, Vpn(va));
      var word := ram[table][Px(0, Vpn(va))];
      if !IsValid(word) || !IsUser(word) { return 0; }
      page := PtePage(word);
    }

    /** One turn of mappages' loop. */
    method MapOne(root: nat, a: nat, page: nat, flags: nat, ghost owned: bool) returns (o: Outcome, r: int)
      requires Valid() && Place(root, 3, 0) in g.nodes && flags < 1024 && IsValid(flags) && IsLeaf(flags)
      requires owned ==> page in g.held
      modifies `ram, `head, `g
      ensures Valid() && (o.Panic? <==> a >= MAXVA || Place(root, 0, Vpn(a)) in old(g.leaves)) && (r == 0 || r == -1)
      ensures o.Panic? ==> View() == old(View())
      ensures o.Done? && r == -1 ==> Grown(old(View()), View(), root) && g.free == [] && |old(g.free)| <= 1
      ensures |old(g.free)| <= |g.free| + 2
      ensures o.Done? && r == 0 ==> IsMap(old(View()), View(), Place(root, 0, Vpn(a)), Leaf(Pte(page, flags), owned))
    {
      hide GoodBut, Grown, IsMap, IsValid, IsLeaf, PtePage, Pte, Wrote;
      ghost var v, c := View(), Place(root, 0, Vpn(a));
      UpIs(root, Vpn(a));
      var table;
      o, table := Walk(root, a, true);
      if o.Panic? { return o, 0; }
      LeafHasTable(v, c);
      if table == 0 { return Done, -1; }
      ghost var v1 := View();
      FoundWord(v1, root, Vpn(a));
      var word := ram[table][Px(0, Vpn(a))];
      GrownLeaves(v, v1, root);
      if IsValid(word) { return Panic("mappages: remap"), 0; }
      PteParts(page, flags);
      MapLeafKeeps(v1, c, Pte(page, flags), owned);
      MapIs(v, v1, c, Leaf(Pte(page, flags), owned));
      ram := ram[table := SetWord(ram[table], Px(0, Vpn(a)), Pte(page, flags))];
      g := MapLeaf(v1, c, Pte(page, flags), owned).g;
      WroteIs(v1, NONE, c, Pte(page, flags));
      return Done, 0;
    }

    /**
     * mappages: `k` pages were mapped in order. All of them if 0 is returned; if -1, memory ran out; a panic is for
     * arguments not aligned or empty, for a page beyond MAXVA, or for one that was mapped already.
     */
    method Mappages(root: nat, va: nat, size: nat, page: nat, perm: nat, ghost owned: bool)
      returns (o: Outcome, r: int, ghost k: nat)
      requires Valid() && Place(root, 3, 0) in g.nodes && perm < 1024 && IsLeaf(perm)
      requires owned ==> forall b: nat :: page <= b < page + size / PGSIZE ==> b in g.held
      modifies `ram, `head, `g
      ensures Valid() && k <= size / PGSIZE && (r == 0 || r == -1)
      ensures IsMapRange(old(View()), View(), root, Vpn(va), page, k, WithV(perm), owned)
      ensures o.Done? ==> va % PGSIZE == size % PGSIZE == 0 < size && (r == 0 <==> k == size / PGSIZE)
      ensures o.Done? && r == -1 ==> g.free == [] && |old(g.free)| <= 2 * k + 1
      ensures o.Done? && r == 0 ==> |old(g.free)| <= |g.free| + 2 * k
      ensures o.Panic? ==> va % PGSIZE != 0 || size % PGSIZE != 0 || size == 0
                           || (k < size / PGSIZE && !Unmapped(old(g.leaves), root, va, k))
      ensures forall i: nat :: i < k ==> Unmapped(old(g.leaves), root, va, i)
    {
      hide GoodBut, Grown, IsMap, IsMapRange, IsValid, IsLeaf, WithV;
      ghost var v := View();
      k, r := 0, 0;
      NoRange(v, root, Vpn(va), page, WithV(perm), owned);
      if va % PGSIZE != 0 { return Panic("mappages: va not aligned"), 0, 0; }
      if size % PGSIZE != 0 { return Panic("mappages: size not aligned"), 0, 0; }
      if size == 0 { return Panic("mappages: size"), 0, 0; }
      FlagsWithV(perm);
      var a, pa, last := va, page, va + size - PGSIZE;
      while true
        invariant Valid() && k < size / PGSIZE && a == va + k * PGSIZE && pa == page + k
        invariant IsMapRange(v, View(), root, Vpn(va), page, k, WithV(perm), owned)
        invariant forall i: nat :: i < k ==> Unmapped(v.g.leaves, root, va, i)
        invariant |v.g.free| <= |g.free| + 2 * k
        decreases size / PGSIZE - k
      {
        ghost var v1 := View();
        RangeFacts(v, v1, root, Vpn(va), page, k, WithV(perm), owned);
        assert Vpn(a) == Vpn(va) + k by { Shifted(k, va, PGSIZE); }
        o, r := MapOne(root, a, pa, WithV(perm), owned);
        if o.Panic? { return o, 0, k; }
        if r != 0 {
          RangeGrown(v, v1, View(), root, Vpn(va), page, k, WithV(perm), owned);
          return Done, -1, k;
        }
        RangeMore(v, v1, View(), root, Vpn(va), page, k, WithV(perm), owned);
        assert Unmapped(v.g.leaves, root, va, k);
        k := k + 1;
        if a == last { break; }
        a, pa := a + PGSIZE, pa + 1;
      }
      return Done, 0, k;
    }

    /** One turn of uvmunmap's loop. */
    method UnmapOne(root: nat, a: nat, dofree: bool) returns (o: Outcome)
      requires Valid() && Place(root, 3, 0) in g.nodes
      requires Place(root, 0, Vpn(a)) in g.leaves ==> g.leaves[Place(root, 0, Vpn(a))].owned == dofree
      modifies `ram, `head, `g
      ensures Valid() && (o.Panic? <==> a >= MAXVA)
      ensures o.Panic? ==> View() == old(View())
      ensures o.Done? ==> IsUnmap(old(View()), View(), root, Vpn(a), Vpn(a) + 1)
    {
      hide GoodBut, Grown, IsUnmap, IsValid, PtePage, Wrote;
      ghost var v, c := View(), Place(root, 0, Vpn(a));
      var table;
      o, table := Walk(root, a, false);
      if o.Panic? { return; }
      UpIs(root, Vpn(a));
      if table == 0 {
        NoTableNoLeaf(v, root, Vpn(a));
        UnmapNothing(v, root, Vpn(a));
        return;
      }
      FoundWord(v, root, Vpn(a));
      var word := ram[table][Px(0, Vpn(a))];
      if !IsValid(word) {
        UnmapNothing(v, root, Vpn(a));
        return;
      }
      OpenLeaf(v, c);
      g := DropLeaf(g, c);
      if dofree {
        o := Kfree(PtePage(word) * PGSIZE, c);
      }
      ghost var v2 := View();
      CloseHole(v2, c);
      WroteIs(v2, c, c, 0);
      UnmapIs(v, v2, c, dofree);
      ram := ram[table := SetWord(ram[table], Px(0, Vpn(a)), 0)];
    }

    /**
     * uvmunmap of pages that the address space owns if `dofree`, and only refers to if not: exactly the mappings in
     * the range go, and with `dofree` their pages are free again. It panics only if not aligned or beyond MAXVA.
     */
    method Uvmunmap(root: nat, va: nat, npages: nat, dofree: bool) returns (o: Outcome)
      requires Valid() && Place(root, 3, 0) in g.nodes
      requires forall c :: c in g.leaves && InSpan(c, root, Vpn(va), Vpn(va) + npages) ==> g.leaves[c].owned == dofree
      modifies `ram, `head, `g
      ensures Valid() && (o.Panic? <==> va % PGSIZE != 0 || (npages > 0 && va + (npages - 1) * PGSIZE >= MAXVA))
      ensures o.Done? ==> IsUnmap(old(View()), View(), root, Vpn(va), Vpn(va) + npages)
    {
      hide GoodBut, Grown, IsUnmap;
      ghost var v := View();
      if va % PGSIZE != 0 { return Panic("uvmunmap: not aligned"); }
      var a := va;
      ghost var k := 0;
      UnmapEmpty(v, root, Vpn(va));
      while a < va + npages * PGSIZE
        invariant k <= npages && a == va + k * PGSIZE && Valid() && Place(root, 3, 0) in g.nodes
        invariant IsUnmap(v, View(), root, Vpn(va), Vpn(va) + k)
        invariant k > 0 ==> va + (k - 1) * PGSIZE < MAXVA
        decreases npages - k
      {
        ghost var v1 := View();
        UnmapLeft(v, v1, root, Vpn(va), Vpn(va) + k, Place(root, 0, Vpn(va) + k));
        assert Vpn(a) == Vpn(va) + k by { Shifted(k, va, PGSIZE); }
        assert InSpan(Place(root, 0, Vpn(a)), root, Vpn(va), Vpn(va) + npages);
        o := UnmapOne(root, a, dofree);
        if o.Panic? { return; }
        UnmapMore(v, v1, View(), root, Vpn(va), Vpn(va) + k);
        a := a + PGSIZE;
        k := k + 1;
      }
      o := Done;
    }

    /**
     * freewalk of the table at `p`: it panics exactly when some page is still mapped below. If not, it gives back the
     * tables at and below `p`, each once, and no other page; the word above `p` is left to the caller.
     */
    method Freewalk(page: nat, ghost p: Place) returns (o: Outcome)
      requires Valid() && p in g.nodes && g.nodes[p] == page
      modifies `ram, `head, `g
      ensures o.Done? <==> forall c :: c in old(g.leaves) ==> !Under(c, p)
      ensures o.Done? ==> GoodBut(View(), p) && IsFreed(old(View()), View(), p)
      decreases p.level
    {
      hide GoodBut, IsFreed, Freeing, Under, EntryOk, IsValid, IsLeaf, PtePage, Wrote;
      ghost var v := View();
      StartFreeing(v, p);
      var i := 0;
      while i < ENTRIES
        invariant i <= ENTRIES && Valid() && Freeing(v, View(), p, i)
      {
        ghost var c, v1 := Child(p, i), View();
        Below(v, v1, p, i);
        var word := ram[page][i];
        if IsValid(word) && !IsLeaf(word) {
          o := Freewalk(PtePage(word), c);
          if o.Panic? {
            ghost var d :| d in v1.g.leaves && Under(d, c);
            LeafBelow(v, v1, p, i, d);
            return;
          }
          ghost var v2 := View();
          NextFreed(v, v1, v2, p, i);
          ram := ram[page := SetWord(ram[page], i, 0)];
        } else if IsValid(word) {
          UnderSelf(c);
          LeafBelow(v, v1, p, i, c);
          return Panic("freewalk: leaf");
        } else {
          NextEmpty(v, v1, p, i);
        }
        i := i + 1;
      }
      AllFreed(v, View(), p);
      g := DropNode(g, p);
      o := Kfree(page * PGSIZE, p);
    }

    /** mappages of one page that is not mapped yet. */
    method MapPage(root: nat, vpn: nat, page: nat, perm: nat, ghost owned: bool) returns (r: int)
      requires Valid() && Place(root, 3, 0) in g.nodes && perm < 1024 && IsLeaf(perm) && (owned ==> page in g.held)
      requires vpn < MAXVA / PGSIZE && Place(root, 0, vpn) !in g.leaves
      modifies `ram, `head, `g
      ensures Valid() && (r == 0 || r == -1)
      ensures r == -1 ==> Unchanged(old(View()), View(), root) && g.free == [] && |old(g.free)| <= 1
      ensures r == 0 ==> |old(g.free)| <= |g.free| + 2
      ensures r == 0 ==> IsMap(old(View()), View(), Place(root, 0, vpn), Leaf(Pte(page, WithV(perm)), owned))
    {
      hide GoodBut, Grown, IsMap, IsMapRange, Unchanged, IsLeaf, WithV;
      ghost var v := View();
      FlagsWithV(perm);
      assert Vpn(vpn * PGSIZE) == vpn by { Shifted(vpn, 0, PGSIZE); }
      assert Unmapped(g.leaves, root, vpn * PGSIZE, 0);
      var o;
      ghost var k;
      o, r, k := Mappages(root, vpn * PGSIZE, PGSIZE, page, perm, owned);
      RangeShort(v, View(), root, vpn, page, k, WithV(perm), owned);
    }

    /**
     * The pattern of uvmalloc, uvmcopy and vmfault: allocate a page, give it contents and map it; if the tables on
     * the way cannot be allocated, free the page again. The page, or 0 if memory ran out.
     */
    method MapFresh(root: nat, vpn: nat, words: Page, perm: nat) returns (page: nat)
      requires Valid() && Place(root, 3, 0) in g.nodes && perm < 1024 && IsLeaf(perm) && |words| == ENTRIES
      requires vpn < MAXVA / PGSIZE && Place(root, 0, vpn) !in g.leaves
      modifies `ram, `head, `g
      ensures Valid()
      ensures page == 0 ==> Unchanged(old(View()), View(), root) && |g.free| <= 1 && |old(g.free)| <= 2
      ensures page != 0 ==> IsFresh(old(View()), View(), Place(root, 0, vpn), WithV(perm), words, page)
      ensures page != 0 ==> |old(g.free)| <= |g.free| + 3
    {
      hide GoodBut, IsMap, IsFresh, Unchanged, Kept, Live, IsLeaf, WithV;
      ghost var v := View();
      page := Kalloc();
      if page == 0 {
        UnchangedSelf(v, root);
        return;
      }
      Taken(v, page, words, root);
      ram := ram[page := words];
      ghost var v1 := View();
      KeptRoot(v, v1, root);
      FlagsWithV(perm);
      var r := MapPage(root, vpn, page, perm, true);
      ghost var v2 := View();
      if r != 0 {
        GaveBack(v, v1, v2, root, page);
        var o := Kfree(page * PGSIZE, NONE);
        return 0;
      }
      FreshIs(v, v1, v2, root, vpn, page, WithV(perm), words);
    }

    /** uvmcreate: a tree of its own with nothing mapped, or 0 if memory ran out. */
    method Uvmcreate() returns (root: nat)
      requires Valid()
      modifies `ram, `head, `g
      ensures Valid() && (root == 0 <==> old(g.free) == []) && |old(g.free)| <= |g.free| + 1
      ensures root == 0 ==> View() == old(View())
      ensures root != 0 ==> Place(root, 3, 0) in g.nodes && IsNewTree(old(View()), View(), root)
    {
      hide GoodBut, Filled, IsNewTree;
      ghost var v := View();
      root := Kalloc();
      if root == 0 { return; }
      FilledSize();
      Taken(v, root, Filled(0), root);
      ram := ram[root := Filled(0)];
      NewTree(v, View(), root);
      g := AttachRoot(View(), root).g;
    }

    /** uvmdealloc: the pages wholly beyond the new size are unmapped and freed. */
    method Uvmdealloc(root: nat, oldsz: nat, newsz: nat) returns (o: Outcome, sz: nat)
      requires Valid() && Place(root, 3, 0) in g.nodes && oldsz <= MAXVA
      requires forall c :: c in g.leaves && InSpan(c, root, Pages(newsz), Pages(oldsz)) ==> g.leaves[c].owned
      modifies `ram, `head, `g
      ensures Valid() && o == Done && sz == Min(oldsz, newsz)
      ensures IsUnmap(old(View()), View(), root, Pages(newsz), Max(Pages(newsz), Pages(oldsz)))
    {
      hide GoodBut, IsUnmap, Grown;
      UnmapEmpty(View(), root, Pages(newsz));
      PagesMonotone(newsz, oldsz);
      if newsz >= oldsz { return Done, oldsz; }
      o := Done;
      if Pages(newsz) < Pages(oldsz) {
        assert Vpn(Pages(newsz) * PGSIZE) == Pages(newsz) by { Shifted(Pages(newsz), 0, PGSIZE); }
        o := Uvmunmap(root, Pages(newsz) * PGSIZE, Pages(oldsz) - Pages(newsz), true);
      }
      sz := newsz;
    }

    /**
     * uvmalloc: on success every page up to the new size is mapped to a cleared page of its own, with the given
     * permission; on failure the mappings are as they were. Pages in use elsewhere are untouched either way.
     */
    method Uvmalloc(root: nat, oldsz: nat, newsz: nat, xperm: nat) returns (sz: nat, ghost done: bool)
      requires Valid() && Place(root, 3, 0) in g.nodes && newsz <= MAXVA && xperm < 1024
      requires forall c :: c in g.leaves ==> !InSpan(c, root, Pages(oldsz), Pages(newsz))
      modifies `ram, `head, `g
      ensures Valid() && sz == if newsz < oldsz then oldsz else if done then newsz else 0
      ensures newsz < oldsz ==> View() == old(View())
      ensures newsz >= oldsz && done ==> Built(old(View()), View(), root, Pages(oldsz), Pages(newsz))
                                         && Cleared(View(), root, Pages(oldsz), Pages(newsz), WithV(WithRU(xperm)))
      ensures newsz >= oldsz && !done ==> Unchanged(old(View()), View(), root)
                                          && |old(g.free)| < 3 * (Pages(newsz) - Pages(oldsz))
    {
      hide GoodBut, Built, Cleared, IsFresh, Unchanged, IsUnmap, IsLeaf, WithV, WithRU, Kept, Filled;
      ghost var v, start := View(), Pages(oldsz);
      done := true;
      if newsz < oldsz { return oldsz, true; }
      PermFlags(xperm);
      PagesMonotone(oldsz, newsz);
      BuiltNone(v, root, start);
      ClearedNone(v, root, start, WithV(WithRU(xperm)));
      var a := Pages(oldsz);
      while a * PGSIZE < newsz
        invariant start <= a <= Pages(newsz) && Valid() && Built(v, View(), root, start, a) && start == Pages(oldsz)
        invariant Cleared(View(), root, start, a, WithV(WithRU(xperm))) && |v.g.free| <= |g.free| + 3 * (a - start)
        decreases Pages(newsz) - a
      {
        ghost var v1 := View();
        BuiltFacts(v, v1, root, start, a);
        FilledSize();
        var mem := MapFresh(root, a, Filled(0), WithRU(xperm));
        if mem == 0 {
          ghost var v2 := View();
          BuiltStill(v, v1, v2, root, start, a);
          BuiltFacts(v, v2, root, start, a);
          assert Pages(a * PGSIZE) == a by { PagesExact(a); }
          assert Pages(Pages(oldsz) * PGSIZE) == start by { PagesExact(Pages(oldsz)); }
          var o, s := Uvmdealloc(root, a * PGSIZE, Pages(oldsz) * PGSIZE);
          RolledBack(v, v2, View(), root, start, a);
          return 0, false;
        }
        BuiltMore(v, v1, View(), root, start, a, WithV(WithRU(xperm)), Filled(0), mem);
        ClearedMore(v1, View(), root, start, a, WithV(WithRU(xperm)), mem);
        a := a + 1;
      }
      sz := newsz;
    }

    /**
     * uvmcopy: on success the child maps exactly the pages below `sz` that the parent maps, holes staying holes, each
     * to a page of its own with the parent's contents and flags. On failure nothing is left mapped.
     */
    method Uvmcopy(src: nat, dst: nat, sz: nat) returns (r: int)
      requires Valid() && Place(src, 3, 0) in g.nodes && Place(dst, 3, 0) in g.nodes && src != dst && sz <= MAXVA
      requires forall c :: c in g.leaves ==> !InSpan(c, dst, 0, Pages(sz))
      requires forall c :: c in g.leaves && InSpan(c, src, 0, Pages(sz)) ==> g.leaves[c].owned
      modifies `ram, `head, `g
      ensures Valid() && (r == 0 || r == -1)
      ensures r == 0 ==>
                Built(old(View()), View(), dst, 0, Pages(sz)) && Copied(old(View()), View(), src, dst, Pages(sz))
      ensures r == -1 ==> Unchanged(old(View()), View(), dst) && |old(g.free)| < 3 * Pages(sz)
    {
      hide GoodBut, Built, Copied, Grown, IsFresh, Unchanged, IsUnmap, IsLeaf, IsValid, WithV, Kept, PtePage,
           PteFlags, Up, Px;
      ghost var v := View();
      PagesMonotone(0, sz);
      BuiltNone(v, dst, 0);
      CopiedNone(v, src, dst);
      var n := 0;
      while n * PGSIZE < sz
        invariant n <= Pages(sz) && Valid() && Built(v, View(), dst, 0, n) && Copied(v, View(), src, dst, n)
        invariant |v.g.free| <= |g.free| + 3 * n
        decreases Pages(sz) - n
      {
        ghost var v1 := View();
        BuiltFacts(v, v1, dst, 0, n);
        SourceKept(v, v1, src, dst, n);
        var o, table := Walk(src, n * PGSIZE, false);
        assert Vpn(n * PGSIZE) == n by { Shifted(n, 0, PGSIZE); }
        if table == 0 {
          NoTableNoLeaf(v1, src, n);
          CopySkip(v, v1, src, dst, n);
        } else {
          FoundWord(v1, src, n);
          var word := ram[table][Px(0, n)];
          if !IsValid(word) {
            CopySkip(v, v1, src, dst, n);
          } else {
            OwnedIsLive(v1, Place(src, 0, n));
            LeafFlags(v1, Place(src, 0, n));
            var words := ram[PtePage(word)];
            PageSize(v1, PtePage(word));
            var mem := MapFresh(dst, n, words, PteFlags(word));
            if mem == 0 {
              ghost var v2 := View();
              BuiltStill(v, v1, v2, dst, 0, n);
              BuiltFacts(v, v2, dst, 0, n);
              assert Vpn(0) == 0;
              o := Uvmunmap(dst, 0, n, true);
              RolledBack(v, v2, View(), dst, 0, n);
              return -1;
            }
            BuiltMore(v, v1, View(), dst, 0, n, PteFlags(word), words, mem);
            CopyMore(v, v1, View(), src, dst, n, mem);
          }
        }
        n := n + 1;
      }
      r := 0;
    }

    /** vmfault at `va` in a process of size `sz`: a cleared page is mapped where there was none; if not, 0. */
    method Vmfault(root: nat, sz: nat, va: nat) returns (page: nat)
      requires Valid() && Place(root, 3, 0) in g.nodes && sz <= MAXVA
      modifies `ram, `head, `g
      ensures Valid()
      ensures page == 0 ==> Unchanged(old(View()), View(), root)
                            && (va >= sz || Place(root, 0, Vpn(va)) in g.leaves || |g.free| <= 1)
      ensures page != 0 ==> va < sz && Place(root, 0, Vpn(va)) !in old(g.leaves)
                            && IsFresh(old(View()), View(), Place(root, 0, Vpn(va)), PTE_V + PTE_R + PTE_W + PTE_U,
                                       Filled(0), page)
    {
      hide GoodBut, Grown, IsFresh, Unchanged, IsLeaf, IsValid, WithV, Filled, Up, Px;
      UnchangedSelf(View(), root);
      if va >= sz { return 0; }
      var o, table := Walk(root, va, false);
      if table != 0 {
        FoundWord(View(), root, Vpn(va));
        if IsValid(ram[table][Px(0, Vpn(va))]) { return 0; }
      } else {
        NoTableNoLeaf(View(), root, Vpn(va));
      }
      UserFlags();
      FilledSize();
      page := MapFresh(root, Vpn(va), Filled(0), PTE_R + PTE_U + PTE_W);
    }

    /** uvmfree: panics exactly if a page beyond `sz` is still mapped; if not, the whole tree is gone. */
    method Uvmfree(root: nat, sz: nat) returns (o: Outcome)
      requires Valid() && Place(root, 3, 0) in g.nodes && sz <= MAXVA
      requires forall c :: c in g.leaves && InSpan(c, root, 0, Pages(sz)) ==> g.leaves[c].owned
      modifies `ram, `head, `g
      ensures o.Done? <==> forall c :: c in old(g.leaves) && c.root == root ==> c.idx < Pages(sz)
      ensures o.Done? ==> Valid() && TreeGone(old(View()), View(), root)
    {
      hide GoodBut, IsUnmap, IsFreed, TreeGone, Under;
      ghost var v := View();
      PagesMonotone(0, sz);
      UnmapEmpty(v, root, 0);
      if sz > 0 {
        assert Vpn(0) == 0;
        o := Uvmunmap(root, 0, Pages(sz), true);
      }
      ghost var v1, p := View(), Place(root, 3, 0);
      UnmapNodes(v, v1, root, 0, Pages(sz));
      RootIs(v1, root);
      o := Freewalk(root, p);
      LeftBelow(v, v1, root, Pages(sz));
      if o.Done? { TreeIsGone(v, v1, View(), root, Pages(sz)); }
    }

    /**
     * proc_pagetable: a tree that maps the trampoline and the trapframe `frame` without owning them, or 0 with
     * every table given back.
     */
    method ProcPagetable(trampoline: nat, frame: nat) returns (root: nat)
      requires Valid()
      modifies `ram, `head, `g
      ensures Valid() && g.held == old(g.held)
      ensures root == 0 ==> g.nodes == old(g.nodes) && g.leaves == old(g.leaves) && |old(g.free)| < 5
      ensures root != 0 ==> UserSpace(g, root, 0) && NewSpace(old(View()), View(), root)
      ensures root != 0 ==> |old(g.free)| <= |g.free| + 5 && TopPages(g, root, trampoline, frame)
      ensures root != 0 ==>
                && g.leaves == old(g.leaves)[Tramp(root) := Leaf(Pte(trampoline, PTE_V + PTE_R + PTE_X), false)]
                                                        [Frame(root) := Leaf(Pte(frame, PTE_V + PTE_R + PTE_W), false)]
    {
      hide GoodBut, IsNewTree, IsMap, Unchanged, IsUnmap, TreeGone, IsLeaf, WithV, Kept, Pte, NewSpace;
      ghost var v := View();
      root := Uvmcreate();
      if root == 0 { return; }
      ghost var v1 := View();
      NewTreeFacts(v, v1, root);
      TopFlags();
      var r := MapPage(root, Vpn(TRAMPOLINE), trampoline, PTE_R + PTE_X, false);
      ghost var v2 := View();
      if r != 0 {
        NothingMapped(v1, v2, root);
        var o := Uvmfree(root, 0);
        AllBack(v, v1, v2, View(), root);
        return 0;
      }
      OneMapped(v1, v2, Tramp(root), Leaf(Pte(trampoline, PTE_V + PTE_R + PTE_X), false));
      r := MapPage(root, Vpn(TRAPFRAME), frame, PTE_R + PTE_W, false);
      ghost var v3 := View();
      if r != 0 {
        UnchangedFacts(v2, v3, root);
        KeptTwice(v1, v2, v3, root);
        var o := Uvmunmap(root, TRAMPOLINE, 1, false);
        ghost var v4 := View();
        Undone(v1, v3, v4, root, Leaf(Pte(trampoline, PTE_V + PTE_R + PTE_X), false));
        o := Uvmfree(root, 0);
        AllBack(v, v1, v4, View(), root);
        return 0;
      }
      OneMapped(v2, v3, Frame(root), Leaf(Pte(frame, PTE_V + PTE_R + PTE_W), false));
      KeptTwice(v1, v2, v3, root);
      SpaceIsNew(v, v1, v3, root, map[Tramp(root) := Leaf(Pte(trampoline, PTE_V + PTE_R + PTE_X), false),
                                      Frame(root) := Leaf(Pte(frame, PTE_V + PTE_R + PTE_W), false)]);
    }

    /** proc_freepagetable of a user address space: it does not panic, and nothing of the tree is left. */
    method ProcFreepagetable(root: nat, sz: nat) returns (o: Outcome)
      requires Valid() && UserSpace(g, root, sz)
      modifies `ram, `head, `g
      ensures o == Done && Valid() && TreeGone(old(View()), View(), root)
    {
      hide GoodBut, IsUnmap, TreeGone;
      ghost var v := View();
      PagesMonotone(sz, TRAPFRAME);
      o := Uvmunmap(root, TRAMPOLINE, 1, false);
      ghost var v1 := View();
      UserLess(v, v1, root, sz, Vpn(TRAMPOLINE));
      o := Uvmunmap(root, TRAPFRAME, 1, false);
      ghost var v2 := View();
      UserLess(v1, v2, root, sz, Vpn(TRAPFRAME));
      TopsGone(v, v1, v2, root, sz);
      o := Uvmfree(root, sz);
      GoneThrough(v, v1, v2, View(), root);
    }

    /**
     * The memory side of kfork: a trapframe and a page table for the child, a copy of the parent's memory, and freeproc
     * if one of them fails. The child is a well-formed copy; the parent and every other address space are untouched;
     * after a failure every page taken is free again.
     */
    method ForkMemory(src: nat, sz: nat, trampoline: nat) returns (child: nat, frame: nat)
      requires Valid() && UserSpace(g, src, sz)
      modifies `ram, `head, `g
      ensures Valid()
      ensures child == 0 ==> g.held == old(g.held) && g.nodes == old(g.nodes) && g.leaves == old(g.leaves)
                             && |old(g.free)| < 3 * Pages(sz) + 6
      ensures child != 0 ==> && frame !in old(g.held) && g.held == old(g.held) + {frame}
                             && child != src && UserSpace(g, src, sz) && UserSpace(g, child, sz)
                             && Copied(old(View()), View(), src, child, Pages(sz))
                             && OthersKept(old(View()), View(), child)
                             && TopPages(g, child, trampoline, frame)
    {
      hide GoodBut, NewSpace, Built, Copied, Unchanged, TreeGone, Pages, Live, Kept, OthersKept, TopPages;
      ghost var v0 := View();
      child := 0;
      frame := Kalloc();
      if frame == 0 { return; }
      ghost var v := View();
      child := ProcPagetable(trampoline, frame);
      if child == 0 {
        HeldInRange(View(), frame);
        var o := Kfree(frame * PGSIZE, NONE);
        return;
      }
      ghost var v1 := View();
      BuiltNone(v1, child, 0);
      OtherSpace(v, v1, v1, child, src, sz, 0);
      assert Pages(0) == 0 by { PagesExact(0); }
      BelowTop(g, child, 0, sz);
      BelowTop(g, src, sz, sz);
      var r := Uvmcopy(src, child, sz);
      ghost var v2 := View();
      if r < 0 {
        UnchangedFacts(v1, v2, child);
        HeldInRange(View(), frame);
        var o := Kfree(frame * PGSIZE, NONE);
        ghost var v3 := View();
        o := ProcFreepagetable(child, 0);
        SpaceGone(v, v1, v2, v3, View(), child);
        return 0, 0;
      }
      OtherSpace(v, v1, v2, child, src, sz, Pages(sz));
      UserGrows(v1, v2, child, 0, sz);
      BuiltHeld(v1, v2, child, 0, Pages(sz));
      BelowTop(v.g, src, sz, sz);
      CopiedBefore(v, v1, v2, src, child, Pages(sz));
      CopiedAfterPop(v0, v2, src, child, Pages(sz));
      ForkKeepsOthers(v0, v1, v2, child, Pages(sz));
      TopPagesKept(v1, v2, child, sz, trampoline, frame);
    }

    /**
     * growproc: the address space stays well formed for the size the process then has. Growth adds cleared pages that
     * the program may write; beyond the trapframe, or for which there is no memory, it fails and maps nothing. A shrink
     * unmaps exactly the pages beyond the new size; one below zero is ignored.
     */
    method Growproc(root: nat, sz: nat, n: int) returns (r: int, newsz: nat)
      requires Valid() && UserSpace(g, root, sz) && -0x8000_0000 <= n < 0x8000_0000
      modifies `ram, `head, `g
      ensures Valid() && UserSpace(g, root, newsz) && (r == 0 || r == -1)
      ensures r == -1 ==> n > 0 && newsz == sz && Unchanged(old(View()), View(), root)
                          && (sz + n > TRAPFRAME || |old(g.free)| < 3 * (Pages(sz + n) - Pages(sz)))
      ensures r == 0 ==> newsz == if sz + n >= 0 then sz + n else sz
      ensures sz + n > TRAPFRAME ==> r == -1
      ensures r == 0 && n > 0 ==>
                && Built(old(View()), View(), root, Pages(sz), Pages(newsz))
                && Cleared(View(), root, Pages(sz), Pages(newsz), PTE_V + PTE_R + PTE_W + PTE_U)
      ensures r == 0 && n <= 0 ==> IsUnmap(old(View()), View(), root, Pages(newsz), Pages(sz))
    {
      hide GoodBut, Built, Cleared, Unchanged, IsUnmap, Pages;
      ghost var v := View();
      newsz := sz;
      if n > 0 {
        if sz + n > TRAPFRAME {
          UnchangedSelf(v, root);
          return -1, sz;
        }
        BelowTop(g, root, sz, sz + n);
        var got, done := Uvmalloc(root, sz, sz + n, PTE_W);
        if got == 0 {
          UserSame(v, View(), root, sz);
          return -1, sz;
        }
        UserGrows(v, View(), root, sz, sz + n);
        UserFlags();
        newsz := got;
      } else if n < 0 {
        BelowTop(g, root, sz, sz);
        var want := (sz + n) % 0x1_0000_0000_0000_0000;
        SpanBelow(g, root, sz, want);
        var o, left := Uvmdealloc(root, sz, want);
        PagesMonotone(want, sz);
        if want <= sz {
          UserShrinks(v, View(), root, sz, want);
        } else {
          UserKept(v, View(), root, sz, want);
          PagesMonotone(sz, want);
          UnmapNone(v, View(), root, Pages(want), Pages(sz));
        }
        newsz := left;
      } else {
        UnmapEmpty(v, root, Pages(sz));
      }
      r := 0;
    }
  }
}
