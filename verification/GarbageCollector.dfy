/**
  The runtime's garbage collector: a doubly linked list of pages updated in place, mark
  and sweep, and a table of stack roots.  A call holds the region's mutex from start to
  end, so each method is one atomic step.
*/
module GarbageCollector {
  import opened HeapGraph
  import opened Retention
  import RootTable

  /** A page header together with its payload. */
  class Page {
    const addr: Address
    const finaliser: bool
    var next: Page?
    var prev: Page?
    var size: nat
    var rootCount: int
    var marked: bool
    var data: seq<Byte>

    constructor (addr: Address, finaliser: bool, size: nat, rootCount: int, marked: bool, data: seq<Byte>)
      ensures this.addr == addr && this.finaliser == finaliser && this.size == size
      ensures this.rootCount == rootCount && this.marked == marked && this.data == data
      ensures next == null && prev == null
    {
      this.addr, this.finaliser, this.size := addr, finaliser, size;
      this.rootCount, this.marked, this.data := rootCount, marked, data;
      next, prev := null, null;
    }

    ghost function Block(): Block
      reads this`data, this`rootCount
    {
      HeapGraph.Block(addr, data, rootCount, finaliser)
    }
  }

  ghost function BlocksOf(pages: seq<Page>): (blocks: seq<Block>)
    reads pages`data, pages`rootCount
    ensures |blocks| == |pages|
    ensures forall i :: 0 <= i < |pages| ==> blocks[i] == pages[i].Block()
  {
    if pages == [] then [] else BlocksOf(pages[..|pages| - 1]) + [pages[|pages| - 1].Block()]
  }

  lemma ChainUnrepeated(root: Page?, pages: seq<Page>)
    requires Chain(root, pages)
    ensures Unrepeated(pages)
  {
  }

  lemma ChainDistinct(root: Page?, pages: seq<Page>, i: nat)
    requires Chain(root, pages) && i < |pages|
    ensures forall k :: 0 <= k < |pages| && k != i ==> pages[k] != pages[i]
  {
  }

  ghost predicate Describes(blocks: seq<Block>, pages: seq<Page>)
    reads pages`data, pages`rootCount
  {
    |blocks| == |pages| && forall i :: 0 <= i < |pages| ==> blocks[i] == pages[i].Block()
  }

  /** The page at a list position; null past either end. */
  ghost function At(pages: seq<Page>, i: int): Page? {
    if 0 <= i < |pages| then pages[i] else null
  }

  lemma AtRemoved(pages: seq<Page>, i: nat, k: int)
    requires i < |pages|
    ensures At(RemoveAt(pages, i), k) == At(pages, if k < i then k else k + 1)
  {
  }

  ghost predicate Unrepeated(pages: seq<Page>) {
    forall i, j :: 0 <= i < j < |pages| ==> pages[i] != pages[j]
  }

  lemma UnrepeatedRemove(pages: seq<Page>, i: nat)
    requires Unrepeated(pages) && i < |pages|
    ensures Unrepeated(RemoveAt(pages, i))
  {
  }

  /** The pages form a doubly linked list from `root`, without repetition. */
  ghost predicate Chain(root: Page?, pages: seq<Page>)
    reads pages`next, pages`prev
  {
    && Unrepeated(pages)
    && root == At(pages, 0)
    && (forall i {:trigger pages[i].next} :: 0 <= i < |pages| ==> pages[i].next == At(pages, i + 1))
    && (forall i {:trigger pages[i].prev} :: 0 <= i < |pages| ==> pages[i].prev == At(pages, i - 1))
  }

  /** Every page is aligned and holds as many bytes as it says. */
  ghost predicate Sized(pages: seq<Page>, sizes: seq<nat>)
    reads pages`size, pages`data
  {
    && |sizes| == |pages|
    && forall i :: 0 <= i < |pages| ==> Aligned(pages[i].addr) && sizes[i] == pages[i].size == |pages[i].data|
  }

  lemma SizedAt(pages: seq<Page>, sizes: seq<nat>, i: nat)
    requires Sized(pages, sizes) && i < |pages|
    ensures |sizes| == |pages|
    ensures Aligned(pages[i].addr) && sizes[i] == pages[i].size == |pages[i].data|
  {
  }

  lemma SizedPush(page: Page, pages: seq<Page>, sizes: seq<nat>)
    requires Sized(pages, sizes) && Aligned(page.addr) && page.size == |page.data|
    ensures Sized([page] + pages, [page.size] + sizes)
  {
  }

  lemma SizedRemove(pages: seq<Page>, sizes: seq<nat>, i: nat)
    requires Sized(pages, sizes) && i < |pages|
    ensures Sized(RemoveAt(pages, i), RemoveAt(sizes, i))
  {
  }

  lemma SizedReplace(pages: seq<Page>, sizes: seq<nat>, i: nat, page: Page)
    requires Sized(pages, sizes) && i < |pages| && Aligned(page.addr) && page.size == |page.data|
    ensures Sized(pages[i := page], sizes[i := page.size])
  {
  }

  /** None of the first `n` pages has this address. */
  ghost predicate Unused(pages: seq<Page>, n: nat, addr: Address)
    requires n <= |pages|
  {
    forall i :: 0 <= i < n ==> pages[i].addr != addr
  }

  /** The first `n` pages have pairwise distinct addresses. */
  ghost predicate ApartBelow(pages: seq<Page>, n: nat)
    requires n <= |pages|
  {
    n == 0 || (ApartBelow(pages, n - 1) && Unused(pages, n - 1, pages[n - 1].addr))
  }

  ghost predicate Apart(pages: seq<Page>) {
    ApartBelow(pages, |pages|)
  }

  lemma {:induction false} ApartPairs(pages: seq<Page>, n: nat)
    requires n <= |pages|
    ensures ApartBelow(pages, n) <==> forall i, j :: 0 <= i < j < n ==> pages[i].addr != pages[j].addr
  {
    if n != 0 {
      ApartPairs(pages, n - 1);
    }
  }

  lemma ApartAt(pages: seq<Page>, i: nat, j: nat)
    requires Apart(pages) && i < |pages| && j < |pages| && pages[i].addr == pages[j].addr
    ensures i == j
  {
    ApartPairs(pages, |pages|);
  }

  lemma ApartPush(page: Page, pages: seq<Page>)
    requires Apart(pages) && Unused(pages, |pages|, page.addr)
    ensures Apart([page] + pages)
  {
    ApartPairs(pages, |pages|);
    ApartPairs([page] + pages, |pages| + 1);
  }

  lemma ApartRemove(pages: seq<Page>, i: nat)
    requires Apart(pages) && i < |pages|
    ensures Apart(RemoveAt(pages, i))
  {
    ApartPairs(pages, |pages|);
    ApartPairs(RemoveAt(pages, i), |pages| - 1);
  }

  lemma ApartReplace(pages: seq<Page>, i: nat, page: Page)
    requires Apart(pages) && i < |pages|
    requires page.addr == pages[i].addr || Unused(pages, |pages|, page.addr)
    ensures Apart(pages[i := page])
  {
    ApartPairs(pages, |pages|);
    ApartPairs(pages[i := page], |pages|);
  }

  /** The addresses whose finaliser runs when the first `n` pages are swept, in list order. */
  ghost function FinalisedBelow(blocks: seq<Block>, mask: seq<bool>, n: nat): seq<Address>
    requires |blocks| == |mask| && n <= |blocks|
  {
    if n == 0 then []
    else
      FinalisedBelow(blocks, mask, n - 1) +
      (if !mask[n - 1] && blocks[n - 1].finaliser then [blocks[n - 1].addr] else [])
  }

  function Zeros(n: nat): (zeros: seq<Byte>)
    ensures |zeros| == n && forall i :: 0 <= i < n ==> zeros[i] == 0
  {
    seq(n, _ => 0)
  }

  function Min(a: nat, b: nat): nat {
    if a < b then a else b
  }

  class Region {
    var rootPage: Page?
    var pagesAllocated: int
    var bytesAllocated: int
    var slots: array<RootTable.Slot>

    /** The pages in list order. */
    ghost var pages: seq<Page>

    /** Their payload sizes. */
    ghost var sizes: seq<nat>

    /** Every finaliser call so far. */
    ghost var finalised: seq<Address>

    ghost function Blocks(): (blocks: seq<Block>)
      reads this`pages, pages`data, pages`rootCount
      ensures |blocks| == |pages|
      ensures forall i :: 0 <= i < |pages| ==> blocks[i] == pages[i].Block()
    {
      BlocksOf(pages)
    }

    ghost predicate Linked()
      reads this`rootPage, this`pages, pages`next, pages`prev
    {
      Chain(rootPage, pages)
    }

    /** The allocator's promises: aligned, distinct addresses; and sizes that tell the truth. */
    ghost predicate Placed()
      reads this`pages, this`sizes, pages`size, pages`data
    {
      Apart(pages) && Sized(pages, sizes)
    }

    /** The running totals describe the list. */
    ghost predicate Counted()
      reads this`pages, this`pagesAllocated, this`bytesAllocated, this`sizes
    {
      pagesAllocated == |pages| && bytesAllocated == Sum(sizes)
    }

    ghost predicate Valid()
      reads this, pages, slots
    {
      Linked() && Placed() && Counted()
    }

    /** A place the allocator may hand out: aligned and not in use. */
    ghost predicate Vacant(addr: Address)
      reads this`pages
    {
      Aligned(addr) && Unused(pages, |pages|, addr)
    }

    /** The words held by the live stack variables. */
    ghost function StackWords(memory: Address -> nat): set<nat>
      reads this`slots, slots
    {
      set a | a in RootTable.Live(slots[..]) :: memory(a)
    }

    constructor ()
      ensures Valid() && pages == [] && finalised == []
      ensures fresh(slots) && RootTable.Live(slots[..]) == {} && RootTable.Ordered(slots[..])
    {
      rootPage, pagesAllocated, bytesAllocated := null, 0, 0;
      slots := new RootTable.Slot[10](_ => RootTable.Slot(false, 0));
      pages, sizes, finalised := [], [], [];
    }

    // -------------------------------------------------------------- the list

    /** Links a new page at the front. */
    method Push(page: Page)
      requires Linked() && page !in pages && page.next == null && page.prev == null
      modifies this`rootPage, this`pages, pages`prev, page`next
      ensures Linked() && pages == [page] + old(pages)
    {
      ghost var was := pages;
      if rootPage != null {
        assert rootPage == was[0];
        rootPage.prev := page;
        page.next := rootPage;
        rootPage := page;
      } else {
        rootPage := page;
      }
      pages := [page] + pages;
      forall i | 0 <= i < |pages|
        ensures pages[i].next == At(pages, i + 1) && pages[i].prev == At(pages, i - 1)
      {
        if i != 0 {
          assert pages[i] == was[i - 1];
        }
      }
    }

    /** Unlinks one page. */
    method Unlink(page: Page, ghost i: nat)
      requires Linked() && i < |pages| && pages[i] == page
      modifies this`rootPage, this`pages, pages`next, pages`prev
      ensures Linked() && pages == RemoveAt(old(pages), i)
    {
      hide RemoveAt;
      ghost var was := pages;
      var next := page.next;
      assert page.prev == At(was, i - 1) && page.next == At(was, i + 1);
      if page.prev != null {
        page.prev.next := page.next;
      } else {
        rootPage := page.next;
      }
      if next != null {
        next.prev := page.prev;
      }
      assert forall k {:trigger was[k].next} :: 0 <= k < |was| && k != i ==>
          was[k].next == if k == i - 1 then At(was, i + 1) else At(was, k + 1);
      assert forall k {:trigger was[k].prev} :: 0 <= k < |was| && k != i ==>
          was[k].prev == if k == i + 1 then At(was, i - 1) else At(was, k - 1);
      UnrepeatedRemove(was, i);
      AtRemoved(was, i, 0);
      pages := RemoveAt(was, i);
      forall k | 0 <= k < |pages|
        ensures pages[k].next == At(pages, k + 1) && pages[k].prev == At(pages, k - 1)
      {
        AtRemoved(was, i, k);
        AtRemoved(was, i, k + 1);
        AtRemoved(was, i, k - 1);
      }
    }

    /** Puts `page` where page `i` stood. */
    method Replace(page: Page, ghost i: nat)
      requires Linked() && i < |pages| && page !in pages
      requires page.next == pages[i].next && page.prev == pages[i].prev
      modifies this`rootPage, this`pages, pages`next, pages`prev
      ensures Linked() && pages == old(pages)[i := page]
    {
      ghost var was := pages;
      assert page.prev == At(was, i - 1) && page.next == At(was, i + 1);
      if page.prev != null {
        page.prev.next := page;
      } else {
        rootPage := page;
      }
      if page.next != null {
        page.next.prev := page;
      }
      pages := pages[i := page];
      forall k | 0 <= k < |pages|
        ensures pages[k].next == At(pages, k + 1) && pages[k].prev == At(pages, k - 1)
      {
        assert k != i ==> pages[k] == was[k];
      }
    }

    // -------------------------------------------------------------- allocation

    /** Links a zeroed page at the front of the list. */
    method Alloc(addr: Address, blockSize: nat, finaliser: bool) returns (page: Page)
      requires Valid() && Vacant(addr)
      modifies this`rootPage, this`pagesAllocated, this`bytesAllocated, this`sizes, this`pages, pages`prev
      ensures Valid() && fresh(page) && pages == [page] + old(pages)
      ensures page.Block() == HeapGraph.Block(addr, Zeros(blockSize), 0, finaliser)
    {
      hide Apart, Chain, Sized, Sum;
      page := new Page(addr, finaliser, blockSize, 0, false, Zeros(blockSize));
      ApartPush(page, pages);
      SizedPush(page, pages, sizes);
      Push(page);
      pagesAllocated := pagesAllocated + 1;
      bytesAllocated := bytesAllocated + blockSize;
      SumPush(blockSize, sizes);
      sizes := [blockSize] + sizes;
    }

    /** The allocator's move: copies the header and the common prefix, then the growth is cleared. */
    method Relocate(was: Page, newAddr: Address, newSize: nat) returns (page: Page)
      requires |was.data| == was.size
      ensures fresh(page) && page.addr == newAddr && page.size == newSize == |page.data|
      ensures page.next == was.next && page.prev == was.prev
      ensures page.rootCount == was.rootCount && page.finaliser == was.finaliser && page.marked == was.marked
      ensures forall k :: 0 <= k < newSize ==> page.data[k] == if k < was.size then was.data[k] else 0
    {
      var kept := Min(was.size, newSize);
      page := new Page(newAddr, was.finaliser, newSize, was.rootCount, was.marked,
                       was.data[..kept] + Zeros(newSize - kept));
      page.next, page.prev := was.next, was.prev;
    }

    /** Gives a page a new size, possibly at a new address: the page object returned stands where the
        old one stood, keeps the common prefix of its contents, and is zero beyond it. */
    method Realloc(was: Page, newAddr: Address, newSize: nat, ghost i: nat) returns (page: Page)
      requires Valid() && i < |pages| && pages[i] == was
      requires newAddr == was.addr || Vacant(newAddr)
      modifies this`rootPage, this`bytesAllocated, this`sizes, this`pages, pages`next, pages`prev
      ensures Valid() && pages == old(pages)[i := page]
      ensures newSize == was.size ==> page == was
      ensures newSize != was.size ==> fresh(page) && page.addr == newAddr
      ensures page.rootCount == was.rootCount && page.finaliser == was.finaliser && page.marked == was.marked
      ensures |page.data| == newSize
      ensures forall k :: 0 <= k < newSize ==> page.data[k] == if k < was.size then was.data[k] else 0
    {
      hide Apart, Chain, Sum, Sized;
      SizedAt(pages, sizes, i);
      if was.size == newSize {
        return was;
      }
      bytesAllocated := bytesAllocated + (newSize - was.size);
      page := Relocate(was, newAddr, newSize);
      ApartReplace(pages, i, page);
      SizedReplace(pages, sizes, i, page);
      Replace(page, i);
      SumReplace(sizes, i, newSize);
      sizes := sizes[i := newSize];
    }

    method RememberRootObject(page: Page)
      requires page in pages && Valid()
      modifies page`rootCount
      ensures page.rootCount == old(page.rootCount) + 1
      ensures Valid()
    {
      page.rootCount := page.rootCount + 1;
    }

    method ForgetRootObject(page: Page)
      requires page in pages && Valid()
      modifies page`rootCount
      ensures page.rootCount == old(page.rootCount) - 1
      ensures Valid()
    {
      page.rootCount := page.rootCount - 1;
    }

    // -------------------------------------------------------------- stack roots

    method RememberRootPointer(pointer: Address)
      requires Valid()
      modifies this`slots, slots
      ensures slots == old(slots) || fresh(slots)
      ensures slots[..] == RootTable.Remembered(old(slots[..]), pointer)
      ensures Valid()
    {
      hide Apart, Chain, Sized, Sum;
      ghost var was := slots[..];
      var k := 0;
      while k < slots.Length && slots[k].inUse
        invariant 0 <= k <= slots.Length
        invariant forall i :: 0 <= i < k ==> slots[i].inUse
      {
        k := k + 1;
      }
      assert k == RootTable.FirstFree(was);
      if k == slots.Length {
        var grown := new RootTable.Slot[slots.Length + 1](_ => RootTable.Slot(false, 0));
        var i := 0;
        while i < slots.Length
          invariant 0 <= i <= slots.Length == |was|
          invariant slots[..] == was && grown.Length == |was| + 1 && grown != slots
          invariant grown[..i] == was[..i]
        {
          grown[i] := slots[i];
          i := i + 1;
        }
        assert grown[..k] == was;
        slots := grown;
      }
      slots[k] := RootTable.Slot(true, pointer);
      assert slots[..] == RootTable.Remembered(was, pointer);
    }

    /** `found` is false where the runtime panics. */
    method ForgetRootPointer(pointer: Address) returns (found: bool)
      requires Valid()
      modifies slots
      ensures found <==> RootTable.Forgotten(old(slots[..]), pointer).Some?
      ensures slots[..] == if found then RootTable.Forgotten(old(slots[..]), pointer).value else old(slots[..])
      ensures Valid()
    {
      ghost var was := slots[..];
      var k := 0;
      while k < slots.Length
        invariant 0 <= k <= slots.Length
        invariant slots[..] == was
        invariant forall i :: 0 <= i < k ==> was[i].pointer != pointer
      {
        if slots[k].pointer == pointer {
          assert k == RootTable.FirstHolding(was, pointer);
          slots[k] := slots[k].(inUse := false);
          assert slots[..] == RootTable.Forgotten(was, pointer).value;
          return true;
        }
        k := k + 1;
      }
      found := false;
    }

    // -------------------------------------------------------------- mark

    /** The page whose payload starts at `ptr`, if the region owns one. */
    method OwnedPage(ptr: nat) returns (owned: Page?, ghost at: nat)
      requires Linked() && Apart(pages)
      ensures owned == null ==> forall i :: 0 <= i < |pages| ==> StartOf(pages[i].addr) != ptr
      ensures owned != null ==> at < |pages| && pages[at] == owned && StartOf(owned.addr) == ptr
      ensures owned != null ==> forall i: nat :: i < |pages| && StartOf(pages[i].addr) == ptr ==> i == at
    {
      owned, at := null, 0;
      if ptr < HEADER_SIZE {
        return;
      }
      var page := rootPage;
      while page != null
        invariant at <= |pages|
        invariant page == At(pages, at)
        invariant forall i :: 0 <= i < at ==> StartOf(pages[i].addr) != ptr
        decreases |pages| - at
      {
        if page.addr == ptr - HEADER_SIZE {
          forall i: nat | i < |pages| && StartOf(pages[i].addr) == ptr
            ensures i == at
          {
            ApartAt(pages, i, at);
          }
          return page, at;
        }
        assert page.next == At(pages, at + 1);
        page := page.next;
        at := at + 1;
      }
      owned := null;
    }

    ghost function Marked(): (marked: set<nat>)
      reads this`pages, pages`marked
      ensures forall i: nat :: i in marked <==> i < |pages| && pages[i].marked
    {
      set i: nat | i < |pages| && pages[i].marked
    }

    ghost function Unmarked(): (unmarked: set<nat>)
      reads this`pages, pages`marked
      ensures forall i: nat :: i in unmarked <==> i < |pages| && i !in Marked()
    {
      set i: nat | i < |pages| && !pages[i].marked
    }

    /** If `word` names a page, marks it and everything under it.  Pages in `earlier` are those
        whose own words are still being scanned. */
    method MarkWord(word: nat, ghost earlier: set<nat>, ghost blocks: seq<Block>, ghost stack: set<nat>)
      requires Linked() && Placed() && Describes(blocks, pages)
      requires Marking(blocks, stack, earlier, Marked())
      requires forall k: nat :: k < |blocks| && word == StartOf(blocks[k].addr) ==> Reachable(blocks, stack, k)
      modifies pages`marked
      ensures Marking(blocks, stack, earlier, Marked()) && old(Marked()) <= Marked()
      ensures forall k: nat :: k < |blocks| && word == StartOf(blocks[k].addr) ==> k in Marked()
      decreases Unmarked(), 1
    {
      hide Marking, Reachable, Apart, Sized, Chain;
      var page, at := OwnedPage(word);
      if page != null {
        MarkPage(page, at, earlier, blocks, stack);
      }
    }

    /** Marks a page and everything under it, stopping at pages already marked. */
    method MarkPage(page: Page, ghost i: nat, ghost earlier: set<nat>, ghost blocks: seq<Block>, ghost stack: set<nat>)
      requires Linked() && Placed() && Describes(blocks, pages)
      requires Marking(blocks, stack, earlier, Marked())
      requires i < |pages| && pages[i] == page && Reachable(blocks, stack, i)
      modifies pages`marked
      ensures Marking(blocks, stack, earlier, Marked()) && old(Marked()) + {i} <= Marked()
      decreases Unmarked(), 0
    {
      hide Marking, Reachable, Apart, PointsTo, Chain, Sized, WordAt;
      if page.marked {
        return;
      }
      page.marked := true;
      ChainDistinct(rootPage, pages, i);
      assert i !in old(Marked()) && Marked() == old(Marked()) + {i};
      assert i in old(Unmarked()) && Unmarked() == old(Unmarked()) - {i};
      MarkingSetApart(blocks, stack, earlier, old(Marked()), i);
      ScanPage(page, i, earlier + {i}, blocks, stack);
      MarkingByScan(blocks, stack, earlier, i, |blocks[i].data|, Marked());
    }

    /** Marks whatever the words of a page name. */
    method ScanPage(page: Page, ghost i: nat, ghost earlier: set<nat>, ghost blocks: seq<Block>, ghost stack: set<nat>)
      requires Linked() && Placed() && Describes(blocks, pages)
      requires Marking(blocks, stack, earlier, Marked())
      requires i < |pages| && pages[i] == page && Reachable(blocks, stack, i)
      modifies pages`marked
      ensures Marking(blocks, stack, earlier, Marked()) && old(Marked()) <= Marked()
      ensures ScannedBelow(blocks, i, |blocks[i].data|, Marked())
      decreases Unmarked(), 2
    {
      hide Marking, Reachable, Apart, PointsTo, Chain, Sized, WordAt;
      SizedAt(pages, sizes, i);
      assert Aligned(StartOf(page.addr));
      var offset := 0;
      while offset + POINTER_ALIGNMENT <= page.size
        invariant 0 <= offset && Aligned(offset)
        invariant old(Marked()) <= Marked()
        invariant Marking(blocks, stack, earlier, Marked())
        invariant ScannedBelow(blocks, i, offset, Marked())
      {
        ghost var before := Marked();
        var word := WordAt(page.data, offset);
        WordIsReachable(blocks, stack, i, offset);
        assert Unmarked() <= old(Unmarked());
        MarkWord(word, earlier, blocks, stack);
        ScanOneMore(blocks, i, offset, before, Marked());
        offset := offset + POINTER_ALIGNMENT;
      }
    }

    // -------------------------------------------------------------- sweep

    /** Runs the finaliser, adjusts the totals and unlinks one page. */
    method FreePage(page: Page, ghost i: nat)
      requires Valid() && i < |pages| && pages[i] == page
      modifies this`rootPage, this`pagesAllocated, this`bytesAllocated, this`sizes, this`pages, this`finalised
      modifies pages`next, pages`prev
      ensures Valid() && pages == RemoveAt(old(pages), i)
      ensures finalised == old(finalised) + (if page.finaliser then [page.addr] else [])
    {
      hide Apart, Chain, Sum, Sized;
      SizedAt(pages, sizes, i);
      ApartRemove(pages, i);
      SizedRemove(pages, sizes, i);
      SumRemove(sizes, i);
      if page.finaliser {
        finalised := finalised + [page.addr];
      }
      pagesAllocated := pagesAllocated - 1;
      bytesAllocated := bytesAllocated - page.size;
      sizes := RemoveAt(sizes, i);
      Unlink(page, i);
    }

    /** Exact collection: what stays is what is reachable, in the old order and with its contents;
        everything else is unlinked, and finalised once. */
    method Collect(memory: Address -> nat)
      requires Valid()
      modifies this`rootPage, this`pagesAllocated, this`bytesAllocated, this`sizes, this`pages, this`finalised
      modifies pages`next, pages`prev, pages`marked
      ensures Valid()
      ensures var mask := old(LiveMask(Blocks(), StackWords(memory)));
              && pages == Keep(old(pages), mask)
              && Blocks() == old(Collected(Blocks(), StackWords(memory)))
              && finalised == old(finalised) + FinalisedBelow(old(Blocks()), mask, |mask|)
      ensures Retains(old(Blocks()), slots[..], memory, Places(old(pages), pages))
      ensures forall other :: Retains(old(Blocks()), slots[..], memory, other) ==> Places(old(pages), pages) <= other
      ensures forall k, i {:trigger slots[k], old(pages)[i]} ::
                (0 <= k < slots.Length && slots[k].inUse && 0 <= i < |old(pages)| &&
                 memory(slots[k].pointer) == old(pages)[i].addr + 40)
                ==> old(pages)[i] in pages
      ensures Finalises(old(pages), pages, old(finalised), finalised)
    {
      hide Apart, Sized, Chain, IsRoot, PointsTo, Sum, RemoveAt, LiveMask, Retains, FinalisedBelow, Keep, Finalises,
        Unrepeated, Places;
      ghost var stack := StackWords(memory);
      ghost var blocks := Blocks();
      ghost var mask := LiveMask(blocks, stack);
      ghost var all := pages;
      ChainUnrepeated(rootPage, all);
      FinalisedOnce(blocks, all, mask, finalised);
      Mark(memory, blocks);
      PlacesLeft(all, mask, Marked());
      StackIsKept(blocks, all, mask, slots[..], memory);
      Sweep(mask, blocks);
      BlocksLeft(blocks, all, mask);
    }

    /** Marks exactly the reachable pages. */
    method Mark(memory: Address -> nat, ghost blocks: seq<Block>)
      requires Linked() && Placed() && Describes(blocks, pages)
      modifies pages`marked
      ensures forall i: nat :: i < |pages| ==> pages[i].marked == LiveMask(blocks, StackWords(memory))[i]
      ensures Retains(blocks, slots[..], memory, Marked())
      ensures forall other :: Retains(blocks, slots[..], memory, other) ==> Marked() <= other
    {
      hide Marking, Reachable, Apart, Sized, Chain, IsRoot, PointsTo, Retains;
      ClearMarks();
      MarkObjectRoots(blocks, StackWords(memory));
      MarkStackRoots(memory, blocks);
      MarkingIsExact(blocks, StackWords(memory), Marked());
      assert forall i: nat :: i < |pages| ==> (pages[i].marked <==> i in Marked());
      StackWordsHeld(memory);
      assert Marked() == Kept(blocks, StackWords(memory));
      LiveIsLeast(blocks, slots[..], memory, StackWords(memory));
    }

    /** The words meant are those in the stack variables, not the variables' addresses. */
    lemma StackWordsHeld(memory: Address -> nat)
      ensures forall word :: word in StackWords(memory) <==> StackHolds(slots[..], memory, word)
    {
      forall word
        ensures word in StackWords(memory) <==> StackHolds(slots[..], memory, word)
      {
        if StackHolds(slots[..], memory, word) {
          var k :| 0 <= k < |slots[..]| && slots[..][k].inUse && memory(slots[..][k].pointer) == word;
          assert slots[..][k].pointer in RootTable.Live(slots[..]);
        }
        if word in StackWords(memory) {
          var a :| a in RootTable.Live(slots[..]) && memory(a) == word;
          var k :| 0 <= k < |slots[..]| && slots[..][k].inUse && slots[..][k].pointer == a;
        }
      }
    }

    method ClearMarks()
      requires Linked()
      modifies pages`marked
      ensures Marked() == {}
    {
      var page := rootPage;
      ghost var at := 0;
      while page != null
        invariant 0 <= at <= |pages|
        invariant page == At(pages, at)
        invariant forall i :: 0 <= i < at ==> !pages[i].marked
        decreases |pages| - at
      {
        page.marked := false;
        assert page.next == At(pages, at + 1);
        page := page.next;
        at := at + 1;
      }
    }

    method MarkObjectRoots(ghost blocks: seq<Block>, ghost stack: set<nat>)
      requires Linked() && Placed() && Describes(blocks, pages) && Marked() == {}
      modifies pages`marked
      ensures Marking(blocks, stack, {}, Marked())
      ensures ObjectRootsBelow(blocks, |blocks|, Marked())
    {
      hide Marking, Reachable, Apart, Sized, IsRoot, Unrepeated;
      MarkingNothing(blocks, stack);
      var page := rootPage;
      ghost var at := 0;
      while page != null
        invariant 0 <= at <= |pages|
        invariant page == At(pages, at)
        invariant Marking(blocks, stack, {}, Marked())
        invariant ObjectRootsBelow(blocks, at, Marked())
        decreases |pages| - at
      {
        if page.rootCount != 0 {
          RootIsReachable(blocks, stack, at);
          MarkPage(page, at, {}, blocks, stack);
        }
        assert page.next == At(pages, at + 1);
        page := page.next;
        at := at + 1;
      }
    }

    method MarkStackRoots(memory: Address -> nat, ghost blocks: seq<Block>)
      requires Linked() && Placed() && Describes(blocks, pages)
      requires Marking(blocks, StackWords(memory), {}, Marked())
      modifies pages`marked
      ensures Marking(blocks, StackWords(memory), {}, Marked())
      ensures old(Marked()) <= Marked()
      ensures forall i: nat :: i < |blocks| && StartOf(blocks[i].addr) in StackWords(memory) ==> i in Marked()
    {
      hide Marking, Reachable, Apart, Sized, Chain, Describes;
      ghost var stack := StackWords(memory);
      var k := 0;
      while k < slots.Length
        invariant 0 <= k <= slots.Length
        invariant Marking(blocks, stack, {}, Marked())
        invariant old(Marked()) <= Marked()
        invariant forall s, i: nat ::
                    (0 <= s < k && slots[s].inUse && i < |blocks| &&
                     memory(slots[s].pointer) == StartOf(blocks[i].addr))
                    ==> i in Marked()
      {
        if slots[k].inUse {
          var word := memory(slots[k].pointer);
          assert slots[..][k].inUse;
          assert word in stack;
          StackWordIsReachable(blocks, stack, word);
          MarkWord(word, {}, blocks, stack);
        }
        k := k + 1;
      }
    }

    ghost function FinalisedHere(page: Page): seq<Address>
      reads page`marked
    {
      if !page.marked && page.finaliser then [page.addr] else []
    }

    /** One step of the sweep: the page goes unless it is marked. */
    method SweepPage(page: Page, ghost kept: seq<Page>, ghost all: seq<Page>, ghost at: nat)
      returns (ghost after: seq<Page>)
      requires Valid() && Partway(pages, kept, all, at) && at < |all| && all[at] == page
      modifies this`rootPage, this`pagesAllocated, this`bytesAllocated, this`sizes, this`pages, this`finalised
      modifies pages`next, pages`prev
      ensures Valid() && Partway(pages, after, all, at + 1)
      ensures after == kept + if page.marked then [page] else []
      ensures finalised == old(finalised) + FinalisedHere(page)
    {
      hide Apart, Sized, Sum, RemoveAt, Chain, Partway;
      PartwayNext(pages, kept, all, at);
      if !page.marked {
        PartwayDrop(pages, kept, all, at);
        FreePage(page, |kept|);
        after := kept;
      } else {
        PartwayKeep(pages, kept, all, at);
        after := kept + [page];
      }
    }

    method Sweep(ghost mask: seq<bool>, ghost blocks: seq<Block>)
      requires Valid() && |mask| == |pages| && Describes(blocks, pages)
      requires forall i :: 0 <= i < |pages| ==> pages[i].marked == mask[i]
      modifies this`rootPage, this`pagesAllocated, this`bytesAllocated, this`sizes, this`pages, this`finalised
      modifies pages`next, pages`prev
      ensures Valid() && pages == Keep(old(pages), mask)
      ensures finalised == old(finalised) + FinalisedBelow(blocks, mask, |mask|)
    {
      hide Apart, Sized, Sum, RemoveAt, Unrepeated, Partway;
      ghost var all := pages;
      PartwayStart(all);
      ghost var kept: seq<Page>, names: seq<Address> := [], [];
      ghost var at := 0;
      var page := rootPage;
      while page != null
        invariant 0 <= at <= |all|
        invariant page == At(all, at)
        invariant Valid()
        invariant kept == KeepBelow(all, mask, at) && Partway(pages, kept, all, at)
        invariant names == FinalisedBelow(blocks, mask, at) && finalised == old(finalised) + names
        decreases |all| - at
      {
        var thisPage := page;
        PartwayNext(pages, kept, all, at);
        page := page.next;
        names := names + FinalisedHere(thisPage);
        kept := SweepPage(thisPage, kept, all, at);
        at := at + 1;
      }
      PartwayEnd(pages, kept, all, at);
    }
  }

  // ---------------------------------------------------------------- lemmas about lists

  /** The page `d` places after position `i`. */
  ghost function Ahead(pages: seq<Page>, i: nat, d: nat): Page? {
    At(pages, i + d)
  }

  /** A sweep that has reached position `at` of `all`: `kept`, then what is still to be visited. */
  ghost predicate Partway(pages: seq<Page>, kept: seq<Page>, all: seq<Page>, at: nat) {
    && at <= |all| && |pages| == |kept| + |all| - at
    && (forall k :: 0 <= k < |pages| ==> pages[k] in all)
    && kept <= pages
    && (forall d: nat :: Ahead(pages, |kept|, d) == Ahead(all, at, d))
  }

  lemma PartwayStart(all: seq<Page>)
    ensures Partway(all, [], all, 0)
  {
  }

  lemma PartwayEnd(pages: seq<Page>, kept: seq<Page>, all: seq<Page>, at: nat)
    requires Partway(pages, kept, all, at) && at >= |all|
    ensures pages == kept && at == |all|
  {
  }

  lemma PartwayNext(pages: seq<Page>, kept: seq<Page>, all: seq<Page>, at: nat)
    requires Partway(pages, kept, all, at) && at < |all|
    ensures |kept| < |pages| && pages[|kept|] == all[at] && At(pages, |kept| + 1) == At(all, at + 1)
    ensures forall k :: 0 <= k < |pages| ==> pages[k] in all
  {
    assert Ahead(pages, |kept|, 0) == Ahead(all, at, 0);
    assert Ahead(pages, |kept|, 1) == Ahead(all, at, 1);
  }

  lemma PartwayKeep(pages: seq<Page>, kept: seq<Page>, all: seq<Page>, at: nat)
    requires Partway(pages, kept, all, at) && at < |all|
    ensures Partway(pages, kept + [all[at]], all, at + 1)
  {
    PartwayNext(pages, kept, all, at);
    forall d: nat {:trigger Ahead(all, at + 1, d)}
      ensures Ahead(pages, |kept| + 1, d) == Ahead(all, at + 1, d)
    {
      assert Ahead(pages, |kept|, d + 1) == Ahead(all, at, d + 1);
    }
  }

  lemma PartwayDrop(pages: seq<Page>, kept: seq<Page>, all: seq<Page>, at: nat)
    requires Partway(pages, kept, all, at) && at < |all|
    ensures Partway(RemoveAt(pages, |kept|), kept, all, at + 1)
  {
    forall d: nat {:trigger Ahead(all, at + 1, d)}
      ensures Ahead(RemoveAt(pages, |kept|), |kept|, d) == Ahead(all, at + 1, d)
    {
      assert Ahead(pages, |kept|, d + 1) == Ahead(all, at, d + 1);
    }
  }

  lemma BlocksLeft(blocks: seq<Block>, all: seq<Page>, mask: seq<bool>)
    requires Describes(blocks, all) && |all| == |mask|
    ensures BlocksOf(Keep(all, mask)) == Keep(blocks, mask)
  {
    KeepDescribes(blocks, all, mask, |mask|);
  }

  /** The positions of the pages that are left. */
  ghost function Places(all: seq<Page>, left: seq<Page>): set<nat> {
    set i: nat | i < |all| && all[i] in left
  }

  lemma {:induction false} KeptPlaces(all: seq<Page>, mask: seq<bool>)
    requires Unrepeated(all) && |all| == |mask|
    ensures Places(all, Keep(all, mask)) == set i: nat | i < |mask| && mask[i]
  {
    var left := Keep(all, mask);
    forall i: nat | i < |all|
      ensures all[i] in left <==> mask[i]
    {
      if mask[i] {
        KeepAt(all, mask, |all|, i);
      }
      if all[i] in left {
        var k :| 0 <= k < |left| && left[k] == all[i];
        var j := KeptFrom(all, mask, |all|, k);
        assert all[j] == all[i];
      }
    }
  }

  lemma PlacesLeft(all: seq<Page>, mask: seq<bool>, marked: set<nat>)
    requires Unrepeated(all) && |all| == |mask|
    requires forall i: nat :: i in marked <==> i < |all| && mask[i]
    ensures Places(all, Keep(all, mask)) == marked
  {
    hide Unrepeated, Keep, Places;
    KeptPlaces(all, mask);
  }

  /** What a stack variable holds is kept, slot by slot and page by page. */
  lemma StackIsKept(blocks: seq<Block>, all: seq<Page>, mask: seq<bool>, slots: seq<RootTable.Slot>,
                    memory: Address -> nat)
    requires Describes(blocks, all) && |all| == |mask|
    requires Retains(blocks, slots, memory, Places(all, Keep(all, mask)))
    ensures forall k, i {:trigger slots[k], all[i]} ::
              0 <= k < |slots| && slots[k].inUse && 0 <= i < |all| && memory(slots[k].pointer) == all[i].addr + 40
              ==> all[i] in Keep(all, mask)
  {
    hide Keep;
    forall k, i {:trigger slots[k], all[i]} |
      0 <= k < |slots| && slots[k].inUse && 0 <= i < |all| && memory(slots[k].pointer) == all[i].addr + 40
      ensures all[i] in Keep(all, mask)
    {
      assert StackHolds(slots, memory, blocks[i].addr + 40);
      assert i in Places(all, Keep(all, mask));
    }
  }

  function Count(names: seq<Address>, name: Address): nat {
    if names == [] then 0
    else Count(names[..|names| - 1], name) + if names[|names| - 1] == name then 1 else 0
  }

  /** Each page that is gone and has a finaliser was finalised once, and no other page. */
  ghost predicate Finalises(all: seq<Page>, left: seq<Page>, before: seq<Address>, after: seq<Address>) {
    && before <= after
    && (forall i :: 0 <= i < |all| ==>
          Count(after[|before|..], all[i].addr) == if all[i].finaliser && all[i] !in left then 1 else 0)
    && (forall a :: a in after[|before|..] ==> exists i :: 0 <= i < |all| && all[i].addr == a)
  }

  lemma FinalisedOnce(blocks: seq<Block>, all: seq<Page>, mask: seq<bool>, before: seq<Address>)
    requires Describes(blocks, all) && |all| == |mask| && Apart(all) && Unrepeated(all)
    ensures Finalises(all, Keep(all, mask), before, before + FinalisedBelow(blocks, mask, |mask|))
  {
    hide FinalisedBelow, Apart, Keep;
    var names := FinalisedBelow(blocks, mask, |mask|);
    assert (before + names)[|before|..] == names;
    KeptPlaces(all, mask);
    BlocksApart(blocks, all);
    forall i | 0 <= i < |all|
      ensures Count(names, all[i].addr) == if all[i].finaliser && all[i] !in Keep(all, mask) then 1 else 0
    {
      FinalisedCount(blocks, mask, |mask|, i);
      assert i in Places(all, Keep(all, mask)) <==> mask[i];
    }
    FinalisedFrom(blocks, all, mask, |mask|);
  }

  ghost predicate Distinct(blocks: seq<Block>) {
    forall i, j :: 0 <= i < j < |blocks| ==> blocks[i].addr != blocks[j].addr
  }

  lemma DistinctAt(blocks: seq<Block>, i: nat, j: nat)
    requires Distinct(blocks) && i < |blocks| && j < |blocks| && blocks[i].addr == blocks[j].addr
    ensures i == j
  {
  }

  lemma BlocksApart(blocks: seq<Block>, all: seq<Page>)
    requires Describes(blocks, all) && Apart(all)
    ensures Distinct(blocks)
  {
    ApartPairs(all, |all|);
  }

  lemma {:induction false} FinalisedCount(blocks: seq<Block>, mask: seq<bool>, n: nat, i: nat)
    requires |blocks| == |mask| && n <= |blocks| && i < |blocks| && Distinct(blocks)
    ensures Count(FinalisedBelow(blocks, mask, n), blocks[i].addr)
         == if i < n && !mask[i] && blocks[i].finaliser then 1 else 0
  {
    hide Distinct, Count, FinalisedBelow;
    FinalisedNext(blocks, mask, n);
    if n == 0 {
      CountNone(blocks[i].addr);
    } else {
      FinalisedCount(blocks, mask, n - 1, i);
      CountOne(FinalisedBelow(blocks, mask, n - 1), blocks[n - 1].addr, blocks[i].addr);
      if blocks[n - 1].addr == blocks[i].addr {
        DistinctAt(blocks, n - 1, i);
      }
    }
  }

  lemma FinalisedNext(blocks: seq<Block>, mask: seq<bool>, n: nat)
    requires |blocks| == |mask| && n <= |blocks|
    ensures FinalisedBelow(blocks, mask, n)
         == if n == 0 then []
            else if mask[n - 1] || !blocks[n - 1].finaliser then FinalisedBelow(blocks, mask, n - 1)
            else FinalisedBelow(blocks, mask, n - 1) + [blocks[n - 1].addr]
  {
  }

  lemma CountNone(name: Address)
    ensures Count([], name) == 0
  {
  }

  lemma CountOne(names: seq<Address>, last: Address, name: Address)
    ensures Count(names + [last], name) == Count(names, name) + if last == name then 1 else 0
  {
    assert (names + [last])[..|names|] == names;
  }

  lemma {:induction false} FinalisedFrom(blocks: seq<Block>, all: seq<Page>, mask: seq<bool>, n: nat)
    requires Describes(blocks, all) && |all| == |mask| && n <= |all|
    ensures forall a :: a in FinalisedBelow(blocks, mask, n) ==> exists i :: 0 <= i < |all| && all[i].addr == a
  {
    if n != 0 {
      FinalisedFrom(blocks, all, mask, n - 1);
      assert all[n - 1].addr == blocks[n - 1].addr;
    }
  }

  /** Filtering the pages filters their blocks. */
  lemma {:induction false} KeepDescribes(blocks: seq<Block>, pages: seq<Page>, mask: seq<bool>, n: nat)
    requires Describes(blocks, pages) && |pages| == |mask| && n <= |pages|
    ensures Describes(KeepBelow(blocks, mask, n), KeepBelow(pages, mask, n))
  {
    if n != 0 {
      KeepDescribes(blocks, pages, mask, n - 1);
    }
  }
}
