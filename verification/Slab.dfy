/** The slab allocator: blocks of three sizes on free lists whose links are stored in the
    free blocks themselves, split greedily on allocation and on freeing. */
module Slab {
  import opened Common

  /** Levels that hold blocks: one less than the four levels of the page tables. */
  const LEVELS := 3

  function LevelSize(level: nat): (n: nat)
    ensures n >= PAGE && n % PAGE == 0
  {
    if level == 0 then 0x1000 else if level == 1 then 0x20_0000 else 0x4000_0000
  }

  datatype SlabNode = SlabNode(next: nat, count: nat)

  datatype Area = Area(base: nat, size: nat)

  // ---------------------------------------------------------------- specification

  /** Free list `level`, bottom first, is threaded through memory from the node. */
  ghost predicate ListOk(level: nat, list: seq<nat>, node: SlabNode, block: map<nat, (nat, nat)>, mem: map<nat, nat>) {
    && node.count == |list|
    && node.next == (if |list| == 0 then 0 else list[|list| - 1])
    && forall r {:trigger At(r)} :: At(r) && 0 <= r < |list| ==>
         && list[r] in block && block[list[r]] == (level, r)
         && list[r] in mem && mem[list[r]] == if r == 0 then 0 else list[r - 1]
  }

  ghost predicate ListsOk(lists: seq<seq<nat>>, nodes: seq<SlabNode>, block: map<nat, (nat, nat)>, mem: map<nat, nat>) {
    && |nodes| == LEVELS + 1 && |lists| == LEVELS
    && ListOk(0, lists[0], nodes[0], block, mem)
    && ListOk(1, lists[1], nodes[1], block, mem)
    && ListOk(2, lists[2], nodes[2], block, mem)
  }

  /** `block` says on which list, and where on it, each free block is. */
  ghost predicate BlocksOk(lists: seq<seq<nat>>, block: map<nat, (nat, nat)>, ext: map<nat, nat>) {
    && |lists| == LEVELS
    && forall b {:trigger At(b)} :: At(b) && b in block ==>
         && block[b].0 < LEVELS && block[b].1 < |lists[block[b].0]| && lists[block[b].0][block[b].1] == b
         && b in ext && ext[b] == LevelSize(block[b].0)
  }

  /** The extents, one for each free block and each live allocation, do not overlap. */
  ghost predicate Apart(ext: map<nat, nat>) {
    forall a, b {:trigger At(a), At(b)} :: At(a) && At(b) && a in ext && b in ext && a < b ==> a + ext[a] <= b
  }

  /** None of the extents reaches into the `n` bytes from `base`. */
  ghost predicate Clear(ext: map<nat, nat>, base: nat, n: nat) {
    forall a {:trigger At(a)} :: At(a) && a in ext ==> a + ext[a] <= base || base + n <= a
  }

  ghost predicate LiveOk(block: map<nat, (nat, nat)>, live: map<nat, nat>, ext: map<nat, nat>) {
    && ext.Keys == block.Keys + live.Keys && block.Keys !! live.Keys
    && forall a {:trigger At(a)} :: At(a) && a in live ==> live[a] > 0 && ext[a] == live[a]
  }

  /** The `n` bytes from `base` lie in one of the areas. */
  ghost predicate Within(pool: seq<Area>, base: nat, n: nat) {
    exists k {:trigger pool[k]} ::
      0 <= k < |pool| && pool[k].base <= base && base + n <= pool[k].base + pool[k].size
  }

  ghost predicate Housed(pool: seq<Area>, ext: map<nat, nat>) {
    forall a {:trigger At(a)} :: At(a) && a in ext ==> Within(pool, a, ext[a])
  }

  lemma PartWithin(pool: seq<Area>, base: nat, n: nat, from: nat, k: nat)
    requires Within(pool, base, n) && base <= from && from + k <= base + n
    ensures Within(pool, from, k)
  {
  }

  lemma LargerPool(pool: seq<Area>, area: Area, ext: map<nat, nat>)
    requires Housed(pool, ext)
    ensures Housed(pool + [area], ext) && Within(pool + [area], area.base, area.size)
  {
    var pool' := pool + [area];
    assert pool'[|pool|] == area;
    forall a {:trigger At(a)} | At(a) && a in ext
      ensures Within(pool', a, ext[a])
    {
      var k :| 0 <= k < |pool| && pool[k].base <= a && a + ext[a] <= pool[k].base + pool[k].size;
      assert pool'[k] == pool[k];
    }
  }

  function FreeBytes(lists: seq<seq<nat>>): nat
    requires |lists| == LEVELS
  {
    |lists[0]| * LevelSize(0) + |lists[1]| * LevelSize(1) + |lists[2]| * LevelSize(2)
  }

  // ---------------------------------------------------------------- steps

  /** A block carved from the front of clear memory goes on top of its list. */
  lemma PushBlock(lists: seq<seq<nat>>, block: map<nat, (nat, nat)>, ext: map<nat, nat>, live: map<nat, nat>,
                  level: nat, base: nat, n: nat)
    requires BlocksOk(lists, block, ext) && Apart(ext) && LiveOk(block, live, ext)
    requires level < LEVELS && n >= LevelSize(level) && Clear(ext, base, n)
    ensures base !in ext
    ensures var block', ext' := block[base := (level, |lists[level]|)], ext[base := LevelSize(level)];
            && BlocksOk(lists[level := lists[level] + [base]], block', ext') && Apart(ext')
            && LiveOk(block', live, ext')
            && Clear(ext', base + LevelSize(level), n - LevelSize(level))
  {
    assert At(base);
  }

  lemma PushList(level: nat, list: seq<nat>, node: SlabNode, block: map<nat, (nat, nat)>, mem: map<nat, nat>, base: nat)
    requires ListOk(level, list, node, block, mem) && base !in block
    ensures ListOk(level, list + [base], SlabNode(base, node.count + 1), block[base := (level, |list|)],
            mem[base := node.next])
  {
  }

  lemma FreeBytesStep(lists: seq<seq<nat>>, level: nat, list: seq<nat>)
    requires |lists| == LEVELS && level < LEVELS
    ensures |list| == |lists[level]| + 1 ==> FreeBytes(lists[level := list]) == FreeBytes(lists) + LevelSize(level)
    ensures |list| == |lists[level]| - 1 ==> FreeBytes(lists[level := list]) == FreeBytes(lists) - LevelSize(level)
  {
  }

  /** Another level's list does not notice. */
  lemma OtherList(level: nat, list: seq<nat>, node: SlabNode, block: map<nat, (nat, nat)>, mem: map<nat, nat>,
                  base: nat, where: (nat, nat), v: nat)
    requires ListOk(level, list, node, block, mem)
    ensures base !in block ==> ListOk(level, list, node, block[base := where], mem[base := v])
    ensures base !in block ==> ListOk(level, list, node, block, mem[base := v])
    ensures base in block && block[base].0 != level ==> ListOk(level, list, node, block - {base}, mem)
  {
  }

  lemma PopList(level: nat, list: seq<nat>, node: SlabNode, block: map<nat, (nat, nat)>, mem: map<nat, nat>)
    requires ListOk(level, list, node, block, mem) && node.count > 0
    ensures node.next in mem && node.next in block && block[node.next] == (level, |list| - 1)
    ensures ListOk(level, list[..|list| - 1], SlabNode(mem[node.next], node.count - 1), block - {node.next}, mem)
  {
    assert At(|list| - 1);
    assert |list| > 1 ==> At(|list| - 2);
  }

  lemma CountOk(lists: seq<seq<nat>>, nodes: seq<SlabNode>, block: map<nat, (nat, nat)>, mem: map<nat, nat>, level: nat)
    requires ListsOk(lists, nodes, block, mem) && level < LEVELS
    ensures nodes[level].count == |lists[level]|
  {
  }

  lemma PushLists(lists: seq<seq<nat>>, nodes: seq<SlabNode>, block: map<nat, (nat, nat)>, mem: map<nat, nat>,
                  level: nat, base: nat)
    requires ListsOk(lists, nodes, block, mem) && level < LEVELS && base !in block
    ensures ListsOk(lists[level := lists[level] + [base]], nodes[level := SlabNode(base, nodes[level].count + 1)],
                    block[base := (level, |lists[level]|)], mem[base := nodes[level].next])
  {
    var where, next := (level, |lists[level]|), nodes[level].next;
    PushList(level, lists[level], nodes[level], block, mem, base);
    OtherList(0, lists[0], nodes[0], block, mem, base, where, next);
    OtherList(1, lists[1], nodes[1], block, mem, base, where, next);
    OtherList(2, lists[2], nodes[2], block, mem, base, where, next);
  }

  lemma PopLists(lists: seq<seq<nat>>, nodes: seq<SlabNode>, block: map<nat, (nat, nat)>, mem: map<nat, nat>,
                 level: nat)
    requires ListsOk(lists, nodes, block, mem) && level < LEVELS && nodes[level].count > 0
    ensures var base := nodes[level].next;
            && base in mem && base in block && block[base] == (level, |lists[level]| - 1)
            && base == lists[level][|lists[level]| - 1]
            && ListsOk(lists[level := lists[level][..|lists[level]| - 1]],
                       nodes[level := SlabNode(mem[base], nodes[level].count - 1)], block - {base}, mem)
  {
    var base := nodes[level].next;
    PopList(level, lists[level], nodes[level], block, mem);
    OtherList(0, lists[0], nodes[0], block, mem, base, (0, 0), 0);
    OtherList(1, lists[1], nodes[1], block, mem, base, (0, 0), 0);
    OtherList(2, lists[2], nodes[2], block, mem, base, (0, 0), 0);
  }

  lemma PopBlock(lists: seq<seq<nat>>, block: map<nat, (nat, nat)>, ext: map<nat, nat>, live: map<nat, nat>,
                 level: nat, base: nat)
    requires BlocksOk(lists, block, ext) && Apart(ext) && LiveOk(block, live, ext)
    requires level < LEVELS && base in block && block[base] == (level, |lists[level]| - 1)
    ensures var rest := lists[level][..|lists[level]| - 1];
            && BlocksOk(lists[level := rest], block - {base}, ext - {base})
            && Apart(ext - {base}) && LiveOk(block - {base}, live, ext - {base})
            && Clear(ext - {base}, base, LevelSize(level))
  {
    assert At(base);
  }

  /** `ext'` has the extents of `ext` and more, the new ones within `n` bytes from `base`. */
  ghost predicate Grown(ext: map<nat, nat>, ext': map<nat, nat>, base: nat, n: nat) {
    && (forall a {:trigger At(a)} :: At(a) && a in ext ==> a in ext' && ext'[a] == ext[a])
    && (forall a {:trigger At(a)} :: At(a) && a in ext' && a !in ext ==> base <= a && a + ext'[a] <= base + n)
  }

  lemma GrownWider(ext: map<nat, nat>, ext': map<nat, nat>, base: nat, n: nat, from: nat, k: nat)
    requires Grown(ext, ext', from, k) && base <= from && from + k <= base + n
    ensures Grown(ext, ext', base, n)
  {
  }

  /** What is clear of the old extents and outside the grown range stays clear. */
  lemma StillClear(ext: map<nat, nat>, ext': map<nat, nat>, base: nat, n: nat, from: nat, k: nat)
    requires Grown(ext, ext', base, n) && Clear(ext, from, k) && (from + k <= base || base + n <= from)
    ensures Clear(ext', from, k)
  {
  }

  /** Clear memory becomes a live allocation. */
  lemma Grant(lists: seq<seq<nat>>, block: map<nat, (nat, nat)>, ext: map<nat, nat>, live: map<nat, nat>, base: nat,
              n: nat)
    requires BlocksOk(lists, block, ext) && Apart(ext) && LiveOk(block, live, ext) && Clear(ext, base, n) && n > 0
    ensures base !in ext
    ensures BlocksOk(lists, block, ext[base := n]) && Apart(ext[base := n])
            && LiveOk(block, live[base := n], ext[base := n])
  {
    assert At(base);
  }

  /** A live allocation becomes clear memory. */
  lemma Revoke(lists: seq<seq<nat>>, block: map<nat, (nat, nat)>, ext: map<nat, nat>, live: map<nat, nat>, base: nat)
    requires BlocksOk(lists, block, ext) && Apart(ext) && LiveOk(block, live, ext) && base in live
    ensures BlocksOk(lists, block, ext - {base}) && Apart(ext - {base}) && LiveOk(block, live - {base}, ext - {base})
    ensures Clear(ext - {base}, base, live[base])
  {
    assert At(base);
  }

  /** Taking a number of pages away leaves the remainder as it was. */
  lemma Remainder(s: nat, n: nat)
    requires n <= s
    ensures n % PAGE == 0 ==> (s - n) % PAGE == s % PAGE
    ensures s % PAGE == 0 ==> ((s - n) % PAGE == 0 <==> n % PAGE == 0)
  {
  }

  /** The starts of `n` neighbouring blocks. */
  function Blocks(base: nat, n: nat, size: nat): seq<nat> { seq(n, i requires 0 <= i => base + i * size) }

  lemma BlocksStep(list: seq<nat>, base: nat, n: nat, size: nat)
    ensures list + Blocks(base, n, size) + [base + n * size] == list + Blocks(base, n + 1, size)
  {
  }

  function Popped(lists: seq<seq<nat>>, level: nat): seq<seq<nat>>
    requires level < |lists| && lists[level] != []
  {
    lists[level := lists[level][..|lists[level]| - 1]]
  }

  /** The blocks memory is cut into, for each level: as many gigabytes as fit, then blocks of
      two megabytes, then pages, each where the larger ones end. */
  function Cut(base: nat, size: nat): seq<seq<nat>> {
    [Blocks(base + (size - size % 0x20_0000), size % 0x20_0000 / 0x1000, 0x1000),
     Blocks(base + (size - size % 0x4000_0000), size % 0x4000_0000 / 0x20_0000, 0x20_0000),
     Blocks(base, size / 0x4000_0000, 0x4000_0000)]
  }

  /** The lists with more blocks on each. */
  function Plus(lists: seq<seq<nat>>, parts: seq<seq<nat>>): seq<seq<nat>>
    requires |lists| == |parts| == LEVELS
  {
    [lists[0] + parts[0], lists[1] + parts[1], lists[2] + parts[2]]
  }

  // The next predicate is opened by `At` of this number.
  const CUT := -2

  ghost predicate Parts(base: nat, size: nat, parts: seq<seq<nat>>) {
    |parts| == LEVELS && forall j {:trigger At(j)} :: At(j) && j == CUT ==> parts == Cut(base, size)
  }

  lemma PartsAre(base: nat, size: nat, parts: seq<seq<nat>>)
    requires Parts(base, size, parts)
    ensures parts == Cut(base, size)
  {
    assert At(CUT);
  }

  /** What is left of `size` bytes when the levels from `level` up are done. */
  function Left(size: nat, level: nat): (s: nat)
    ensures s <= size
  {
    if level == 0 then size % 0x1000 else if level == 1 then size % 0x20_0000
    else if level == 2 then size % 0x4000_0000 else size
  }

  lemma LeftStep(size: nat, level: nat)
    requires level < LEVELS
    ensures Left(size, level) == Left(size, level + 1) % LevelSize(level)
    ensures Left(size, 0) == size % PAGE && Left(size, LEVELS) == size
  {
    Finer(size, 0x20_0000, 0x1000, 512);
    Finer(size, 0x4000_0000, 0x20_0000, 512);
  }

  lemma Finer(size: nat, m: nat, n: nat, k: nat)
    requires n > 0 && k > 0 && m == k * n
    ensures m > 0 && size % m % n == size % n
  {
    var q, s := size / m, size % m;
    var p, r := s / n, s % n;
    assert size == q * m + s && s == p * n + r;
    assert q * m == (q * k) * n;
    assert size == (q * k + p) * n + r;
    DivModUnique(size, n, q * k + p, r);
  }

  /** The parts found so far, from the highest level down to `level`. */
  ghost predicate PartsFrom(base: nat, size: nat, parts: seq<seq<nat>>, level: nat) {
    && |parts| == LEVELS
    && forall j {:trigger At(j)} :: At(j) && j == CUT ==>
         && parts[2] == (if level <= 2 then Cut(base, size)[2] else [])
         && parts[1] == (if level <= 1 then Cut(base, size)[1] else [])
         && parts[0] == (if level == 0 then Cut(base, size)[0] else [])
  }

  lemma PartsNone(base: nat, size: nat)
    ensures PartsFrom(base, size, [[], [], []], LEVELS)
  {
  }

  lemma PartsStep(base: nat, size: nat, parts: seq<seq<nat>>, level: nat, b: nat, s: nat, part: seq<nat>)
    requires level < LEVELS && PartsFrom(base, size, parts, level + 1)
    requires s == Left(size, level + 1) && b == base + (size - s)
    requires part == Blocks(b, s / LevelSize(level), LevelSize(level))
    ensures PartsFrom(base, size, parts[level := part], level)
    ensures parts[level] == []
  {
    assert At(CUT);
  }

  lemma PartsDone(base: nat, size: nat, parts: seq<seq<nat>>)
    requires PartsFrom(base, size, parts, 0)
    ensures Parts(base, size, parts)
  {
    assert At(CUT);
    assert parts == [parts[0], parts[1], parts[2]];
  }

  lemma PlusNone(lists: seq<seq<nat>>)
    requires |lists| == LEVELS
    ensures Plus(lists, [[], [], []]) == lists
  {
    assert lists[0] + [] == lists[0] && lists[1] + [] == lists[1] && lists[2] + [] == lists[2];
  }

  lemma PlusStep(before: seq<seq<nat>>, lists: seq<seq<nat>>, parts: seq<seq<nat>>, level: nat, part: seq<nat>)
    requires |before| == |parts| == LEVELS && level < LEVELS && lists == Plus(before, parts) && parts[level] == []
    ensures lists[level := lists[level] + part] == Plus(before, parts[level := part])
  {
    assert before[level] + [] == before[level];
    var more := parts[level := part];
    assert lists[level := lists[level] + part] == [before[0] + more[0], before[1] + more[1], before[2] + more[2]];
  }

  // ---------------------------------------------------------------- implementation

  // The next predicate is opened by `At` of this number.
  const LISTS := -1

  /** Free lists intact; free blocks and live allocations pairwise disjoint, and inside the
      memory the allocator was given. */
  ghost predicate SlabOk(lists: seq<seq<nat>>, nodes: seq<SlabNode>, block: map<nat, (nat, nat)>, mem: map<nat, nat>,
                         ext: map<nat, nat>, live: map<nat, nat>, pool: seq<Area>)
  {
    && |lists| == LEVELS && |nodes| == LEVELS + 1
    && forall j {:trigger At(j)} :: At(j) && j == LISTS ==>
         && ListsOk(lists, nodes, block, mem) && BlocksOk(lists, block, ext) && Apart(ext) && LiveOk(block, live, ext)
         && Housed(pool, ext)
  }

  /** Taking the top block of a level off its list; there is none exactly when the count is
      zero. */
  lemma PopAll(lists: seq<seq<nat>>, nodes: seq<SlabNode>, block: map<nat, (nat, nat)>, mem: map<nat, nat>,
               ext: map<nat, nat>, live: map<nat, nat>, pool: seq<Area>, level: nat, base: nat)
    requires SlabOk(lists, nodes, block, mem, ext, live, pool) && level < LEVELS && base == nodes[level].next
    ensures nodes[level].count == 0 <==> lists[level] == []
    ensures lists[level] != [] ==>
              && base in mem && base in block && base in ext && ext[base] == LevelSize(level) && base !in live
              && base == lists[level][|lists[level]| - 1] && Within(pool, base, LevelSize(level))
    ensures var lists' := lists[level := if lists[level] == [] then [] else lists[level][..|lists[level]| - 1]];
            lists[level] != [] ==>
              && SlabOk(lists', nodes[level := SlabNode(mem[base], nodes[level].count - 1)], block - {base}, mem,
                        ext - {base}, live, pool)
              && FreeBytes(lists') == FreeBytes(lists) - LevelSize(level)
              && Clear(ext - {base}, base, LevelSize(level))
  {
    assert At(LISTS);
    CountOk(lists, nodes, block, mem, level);
    if lists[level] != [] {
      PopLists(lists, nodes, block, mem, level);
      FreeBytesStep(lists, level, lists[level][..|lists[level]| - 1]);
      PopBlock(lists, block, ext, live, level, base);
      assert At(base);
    }
  }

  class SlabAllocator {
    var nodes: seq<SlabNode>
    /** Physical memory, by the address of the word. */
    var mem: map<nat, nat>

    ghost var lists: seq<seq<nat>>
    ghost var block: map<nat, (nat, nat)>
    ghost var ext: map<nat, nat>
    /** The allocations handed out and not yet freed, with their sizes, and the bytes that
        no longer belong to any block. */
    ghost var live: map<nat, nat>
    ghost var lost: nat
    /** The memory the allocator was given. */
    ghost var pool: seq<Area>

    ghost predicate Valid()
      reads this
    {
      SlabOk(lists, nodes, block, mem, ext, live, pool)
    }

    /** Free, live and lost bytes together. */
    ghost function Total(): nat
      requires |lists| == LEVELS
      reads this
    {
      FreeBytes(lists) + Sum(live) + lost
    }

    /** SlabNode::insert on the node of a level. */
    method Insert(level: nat, phys: nat, ghost n: nat)
      requires Valid() && level < LEVELS && n >= LevelSize(level) && Clear(ext, phys, n) && Within(pool, phys, n)
      modifies this`nodes, this`mem, this`lists, this`block, this`ext
      ensures Valid() && phys !in old(ext) && ext == old(ext)[phys := LevelSize(level)]
      ensures Clear(ext, phys + LevelSize(level), n - LevelSize(level))
      ensures lists == old(lists)[level := old(lists)[level] + [phys]]
      ensures FreeBytes(lists) == old(FreeBytes(lists)) + LevelSize(level)
    {
      assert At(LISTS);
      PushBlock(lists, block, ext, live, level, phys, n);
      PartWithin(pool, phys, n, phys, LevelSize(level));
      assert phys !in block;
      PushLists(lists, nodes, block, mem, level, phys);
      FreeBytesStep(lists, level, lists[level] + [phys]);
      lists, block := lists[level := lists[level] + [phys]], block[phys := (level, |lists[level]|)];
      mem := mem[phys := nodes[level].next];
      nodes := nodes[level := SlabNode(phys, nodes[level].count + 1)];
      ext := ext[phys := LevelSize(level)];
    }

    /** SlabNode::remove on the node of a level. */
    method Remove(level: nat) returns (r: Option<nat>)
      requires Valid() && level < LEVELS
      modifies this`nodes, this`lists, this`block, this`ext
      ensures Valid()
      ensures r.None? <==> old(lists)[level] == []
      ensures r.None? ==> nodes == old(nodes) && lists == old(lists) && block == old(block) && ext == old(ext)
      ensures r.Some? ==>
                && r.value == old(lists)[level][|old(lists)[level]| - 1] && r.value in old(block)
                && r.value in old(ext) && old(ext)[r.value] == LevelSize(level) && r.value !in live
                && ext == old(ext) - {r.value} && Clear(ext, r.value, LevelSize(level))
                && Within(pool, r.value, LevelSize(level))
                && lists == Popped(old(lists), level)
                && FreeBytes(lists) == old(FreeBytes(lists)) - LevelSize(level)
    {
      PopAll(lists, nodes, block, mem, ext, live, pool, level, nodes[level].next);
      if nodes[level].count == 0 {
        return None;
      }
      var phys := nodes[level].next;
      nodes := nodes[level := SlabNode(mem[phys], nodes[level].count - 1)];
      lists, block := lists[level := lists[level][..|lists[level]| - 1]], block - {phys};
      ext := ext - {phys};
      r := Some(phys);
    }

    /** Puts clear memory on the free lists, largest blocks first; what is left below a
        page is not recorded anywhere. */
    method Free(base: nat, size: nat)
      requires Valid() && Clear(ext, base, size) && Within(pool, base, size)
      modifies this`nodes, this`mem, this`lists, this`block, this`ext
      ensures Valid() && Grown(old(ext), ext, base, size) && lists == Plus(old(lists), Cut(base, size))
      ensures FreeBytes(lists) == old(FreeBytes(lists)) + (size - size % PAGE)
    {
      ghost var parts := FreeBlocks(base, size);
      PartsAre(base, size, parts);
    }

    /** The loop over the levels. */
    method FreeBlocks(base: nat, size: nat) returns (ghost parts: seq<seq<nat>>)
      requires Valid() && Clear(ext, base, size) && Within(pool, base, size)
      modifies this`nodes, this`mem, this`lists, this`block, this`ext
      ensures Valid() && Grown(old(ext), ext, base, size)
      ensures Parts(base, size, parts) && lists == Plus(old(lists), parts)
      ensures FreeBytes(lists) == old(FreeBytes(lists)) + (size - size % PAGE)
    {
      var b: nat, s: nat, level: nat := base, size, LEVELS;
      parts := [[], [], []];
      PartsNone(base, size);
      PlusNone(lists);
      LeftStep(size, 0);
      while level > 0
        invariant 0 <= level <= LEVELS && s == Left(size, level) && b == base + (size - s)
        invariant Valid() && Grown(old(ext), ext, base, size) && Clear(ext, b, s)
        invariant PartsFrom(base, size, parts, level) && lists == Plus(old(lists), parts)
        invariant FreeBytes(lists) == old(FreeBytes(lists)) + (size - s)
      {
        level := level - 1;
        b, s, parts := FreeLevel(level, b, s, base, size, old(ext), old(lists), parts);
      }
      PartsDone(base, size, parts);
    }

    /** One round of that loop. */
    method FreeLevel(level: nat, b: nat, s: nat, ghost base: nat, ghost size: nat, ghost ext0: map<nat, nat>,
                     ghost before: seq<seq<nat>>, ghost parts: seq<seq<nat>>)
      returns (b': nat, s': nat, ghost parts': seq<seq<nat>>)
      requires Valid() && level < LEVELS && s == Left(size, level + 1) && b == base + (size - s)
      requires Grown(ext0, ext, base, size) && Clear(ext, b, s) && Within(pool, base, size)
      requires PartsFrom(base, size, parts, level + 1) && |before| == LEVELS && lists == Plus(before, parts)
      modifies this`nodes, this`mem, this`lists, this`block, this`ext
      ensures Valid() && s' == Left(size, level) && s' <= s && b' == base + (size - s')
      ensures Grown(ext0, ext, base, size) && Clear(ext, b', s')
      ensures PartsFrom(base, size, parts', level) && lists == Plus(before, parts')
      ensures FreeBytes(lists) == old(FreeBytes(lists)) + (s - s')
    {
      PartWithin(pool, base, size, b, s);
      LeftStep(size, level);
      ghost var part := Blocks(b, s / LevelSize(level), LevelSize(level));
      PartsStep(base, size, parts, level, b, s, part);
      PlusStep(before, lists, parts, level, part);
      b', s' := Fill(level, b, s, base, size, ext0);
      parts' := parts[level := part];
    }

    /** Puts clear memory on the list of one level as long as it lasts. */
    method Fill(level: nat, base: nat, size: nat, ghost base0: nat, ghost size0: nat, ghost ext0: map<nat, nat>)
      returns (b: nat, s: nat)
      requires Valid() && level < LEVELS && Clear(ext, base, size) && Within(pool, base, size)
      requires Grown(ext0, ext, base0, size0) && base0 <= base && base + size <= base0 + size0
      modifies this`nodes, this`mem, this`lists, this`block, this`ext
      ensures Valid() && Grown(ext0, ext, base0, size0) && Clear(ext, b, s)
      ensures s == size % LevelSize(level) && b == base + (size - s) && s % PAGE == size % PAGE
      ensures FreeBytes(lists) == old(FreeBytes(lists)) + (size - s)
      ensures var n := size / LevelSize(level);
              lists == old(lists)[level := old(lists)[level] + Blocks(base, n, LevelSize(level))]
    {
      b, s := base, size;
      ghost var n := 0;
      assert old(lists)[level] + Blocks(base, 0, LevelSize(level)) == old(lists)[level];
      while s >= LevelSize(level)
        invariant s <= size && b == base + (size - s) && size - s == n * LevelSize(level) && s % PAGE == size % PAGE
        invariant Valid() && Grown(ext0, ext, base0, size0) && Clear(ext, b, s)
        invariant FreeBytes(lists) == old(FreeBytes(lists)) + (size - s)
        invariant lists == old(lists)[level := old(lists)[level] + Blocks(base, n, LevelSize(level))]
      {
        PartWithin(pool, base, size, b, s);
        Insert(level, b, s);
        BlocksStep(old(lists)[level], base, n, LevelSize(level));
        Remainder(s, LevelSize(level));
        b := b + LevelSize(level);
        s := s - LevelSize(level);
        n := n + 1;
      }
      DivModUnique(size, LevelSize(level), n, s);
    }

    /** Takes the block on top of the first non-empty list, `at`, whose blocks are large
        enough; nothing is lost exactly when `size` is a number of pages. */
    method Allocate(size: nat) returns (r: Option<nat>, ghost at: nat)
      requires Valid()
      modifies this
      ensures Valid() && Total() == old(Total()) && pool == old(pool)
      ensures at <= LEVELS && forall k :: 0 <= k < at && size <= LevelSize(k) ==> old(lists)[k] == []
      ensures r.None? <==> at == LEVELS
      ensures r.None? ==> live == old(live) && ext == old(ext) && lost == old(lost)
      ensures r.Some? ==>
                && size <= LevelSize(at) && old(lists)[at] != []
                && r.value == old(lists)[at][|old(lists)[at]| - 1]
      ensures r.None? ==> lists == old(lists)
      ensures r.Some? ==> lists == Plus(Popped(old(lists), at), Cut(r.value + size, LevelSize(at) - size))
      ensures r.Some? ==> r.value !in old(live) && live == if size > 0 then old(live)[r.value := size] else old(live)
      ensures r.Some? ==> lost == old(lost) + (LevelSize(at) - size) % PAGE && (lost == old(lost) <==> size % PAGE == 0)
    {
      ghost var parts;
      r, at, parts := AllocateBlock(size);
      if r.Some? {
        Remainder(LevelSize(at), size);
        PartsAre(r.value + size, LevelSize(at) - size, parts);
      }
    }

    /** The loop over the levels. */
    method AllocateBlock(size: nat) returns (r: Option<nat>, ghost at: nat, ghost parts: seq<seq<nat>>)
      requires Valid()
      modifies this
      ensures Valid() && Total() == old(Total()) && pool == old(pool)
      ensures at <= LEVELS && forall k :: 0 <= k < at && size <= LevelSize(k) ==> old(lists)[k] == []
      ensures r.None? <==> at == LEVELS
      ensures r.None? ==> live == old(live) && ext == old(ext) && lost == old(lost) && lists == old(lists)
      ensures r.Some? ==>
                && size <= LevelSize(at) && old(lists)[at] != []
                && r.value == old(lists)[at][|old(lists)[at]| - 1]
                && Parts(r.value + size, LevelSize(at) - size, parts) && lists == Plus(Popped(old(lists), at), parts)
      ensures r.Some? ==> r.value !in old(live) && live == if size > 0 then old(live)[r.value := size] else old(live)
      ensures r.Some? ==> lost == old(lost) + (LevelSize(at) - size) % PAGE
    {
      at := 0;
      var level := 0;
      while level < LEVELS
        invariant 0 <= level <= LEVELS && at == level && Valid() && Total() == old(Total())
        invariant lists == old(lists) && live == old(live) && ext == old(ext) && lost == old(lost) && pool == old(pool)
        invariant forall k :: 0 <= k < level && size <= LevelSize(k) ==> old(lists)[k] == []
      {
        if size <= LevelSize(level) {
          r, parts := TakeFrom(level, size, LevelSize(level));
          if r.Some? {
            return;
          }
        }
        level, at := level + 1, at + 1;
      }
      r, parts := None, [];
    }

    /** Takes a block of `n` bytes off the list of a level, if there is one, and hands its
        front out. */
    method TakeFrom(level: nat, size: nat, n: nat) returns (r: Option<nat>, ghost parts: seq<seq<nat>>)
      requires Valid() && level < LEVELS && n == LevelSize(level) && size <= n
      modifies this
      ensures Valid() && Total() == old(Total()) && pool == old(pool)
      ensures r.None? <==> old(lists)[level] == []
      ensures r.None? ==> live == old(live) && ext == old(ext) && lost == old(lost) && lists == old(lists)
      ensures r.Some? ==>
                && r.value == old(lists)[level][|old(lists)[level]| - 1]
                && Parts(r.value + size, n - size, parts) && lists == Plus(Popped(old(lists), level), parts)
                && r.value !in old(live) && live == (if size > 0 then old(live)[r.value := size] else old(live))
                && lost == old(lost) + (n - size) % PAGE
    {
      parts := [];
      r := Remove(level);
      if r.Some? {
        parts := GrantFrom(r.value, size, n);
      }
    }

    /** Splits a block just taken off its list: the front is handed out, the rest freed. */
    method GrantFrom(base: nat, size: nat, n: nat) returns (ghost parts: seq<seq<nat>>)
      requires Valid() && size <= n && Clear(ext, base, n) && Within(pool, base, n)
      modifies this
      ensures Valid() && pool == old(pool)
      ensures live == (if size > 0 then old(live)[base := size] else old(live)) && (size > 0 ==> base !in old(live))
      ensures lost == old(lost) + (n - size) % PAGE
      ensures Total() == old(Total()) + n
      ensures Parts(base + size, n - size, parts) && lists == Plus(old(lists), parts)
    {
      ghost var before := ext;
      var rest := n - size;
      PartWithin(pool, base, n, base + size, rest);
      PartWithin(pool, base, n, base, size);
      parts := FreeBlocks(base + size, rest);
      StillClear(before, ext, base + size, rest, base, size);
      lost := lost + rest % PAGE;
      if size > 0 {
        Hand(base, size);
      }
    }

    /** Clear memory becomes a live allocation. */
    ghost method Hand(base: nat, n: nat)
      requires Valid() && Clear(ext, base, n) && Within(pool, base, n) && n > 0
      modifies this`ext, this`live
      ensures Valid() && base !in old(live) && live == old(live)[base := n] && Sum(live) == n + Sum(old(live))
    {
      assert At(LISTS);
      Grant(lists, block, ext, live, base, n);
      SumWith(live, base, n);
      ext, live := ext[base := n], live[base := n];
    }

    /** A live allocation becomes clear memory. */
    ghost method Withdraw(base: nat)
      requires Valid() && base in live
      modifies this`ext, this`live
      ensures Valid() && Clear(ext, base, old(live)[base]) && Within(pool, base, old(live)[base])
      ensures live == old(live) - {base} && Sum(live) + old(live)[base] == Sum(old(live))
    {
      assert At(LISTS) && At(base);
      Revoke(lists, block, ext, live, base);
      SumWithout(live, base);
      ext, live := ext - {base}, live - {base};
    }

    /** The allocator is given an area. */
    ghost method Give(area: Area)
      requires Valid()
      modifies this`pool
      ensures Valid() && pool == old(pool) + [area] && Within(pool, area.base, area.size)
    {
      assert At(LISTS);
      LargerPool(pool, area, ext);
      pool := pool + [area];
    }

    /** A client gives an allocation back. */
    method FreeLive(base: nat, size: nat)
      requires Valid() && base in live && live[base] == size
      modifies this
      ensures Valid() && Total() == old(Total()) && live == old(live) - {base} && pool == old(pool)
      ensures lost == old(lost) + size % PAGE && lists == Plus(old(lists), Cut(base, size))
    {
      Withdraw(base);
      Free(base, size);
      lost := lost + size % PAGE;
    }

    /** A client writes a word inside an allocation it holds; no link is touched. */
    method ClientWrite(a: nat, addr: nat, v: nat)
      requires Valid() && a in live && a <= addr && addr + 8 <= a + live[a]
      modifies this`mem
      ensures Valid() && mem == old(mem)[addr := v]
    {
      assert At(LISTS);
      assert At(a) && At(addr);
      OtherList(0, lists[0], nodes[0], block, mem, addr, (0, 0), v);
      OtherList(1, lists[1], nodes[1], block, mem, addr, (0, 0), v);
      OtherList(2, lists[2], nodes[2], block, mem, addr, (0, 0), v);
      mem := mem[addr := v];
    }

    method Remaining() returns (remaining: nat)
      requires Valid()
      ensures remaining == FreeBytes(lists)
      ensures remaining + Sum(live) + lost == Total()
    {
      assert At(LISTS);
      remaining := 0;
      var level := LEVELS;
      while level > 0
        invariant 0 <= level <= LEVELS
        invariant remaining == (if level <= 0 then |lists[0]| * LevelSize(0) else 0) +
                               (if level <= 1 then |lists[1]| * LevelSize(1) else 0) +
                               (if level <= 2 then |lists[2]| * LevelSize(2) else 0)
      {
        level := level - 1;
        remaining := remaining + nodes[level].count * LevelSize(level);
      }
    }

    /** Adds an area except for its first `skip` bytes; what is left of them is skipped in
        the next one. */
    method AddArea(area: Area, skip: nat) returns (left: nat)
      requires Valid() && Clear(ext, area.base, area.size)
      modifies this
      ensures Valid() && live == old(live)
      ensures skip < area.size ==> Grown(old(ext), ext, area.base + skip, area.size - skip)
      ensures skip >= area.size ==> ext == old(ext)
      ensures pool == old(pool) + if skip < area.size then [Area(area.base + skip, area.size - skip)] else []
      ensures left == if skip < area.size then 0 else skip - area.size
      ensures FreeBytes(lists) + lost ==
                old(FreeBytes(lists) + lost) + if skip < area.size then area.size - skip else 0
      ensures lost == old(lost) + if skip < area.size then (area.size - skip) % PAGE else 0
    {
      if skip < area.size {
        var base, size := area.base + skip, area.size - skip;
        Give(Area(base, size));
        ghost var _ := FreeBlocks(base, size);
        lost := lost + size % PAGE;
        left := 0;
      } else {
        left := skip - area.size;
      }
    }

    /** Adds area `i` and keeps account of what is still to come. */
    method AddNext(areas: seq<Area>, i: nat, skip: nat) returns (left: nat)
      requires Valid() && i < |areas| && Disjoint(areas) && RestClear(ext, areas, i)
      modifies this
      ensures Valid() && live == old(live) && RestClear(ext, areas, i + 1)
      ensures FreeBytes(lists) + lost + Usable(areas[i + 1..], left) ==
                old(FreeBytes(lists) + lost) + Usable(areas[i..], skip)
      ensures pool + Beyond(areas[i + 1..], left) == old(pool) + Beyond(areas[i..], skip)
      ensures WholePages(areas, skip) ==> left % PAGE == 0 && lost == old(lost)
    {
      assert At(i);
      left := AddArea(areas[i], skip);
      RestStillClear(old(ext), ext, areas, i, skip);
      BeyondStep(areas, i, skip);
      PagesLeft(areas, i, skip);
    }

    /** Adds the memory areas, the first `offset` bytes of which are in use. */
    constructor (areas: seq<Area>, offset: nat)
      requires Disjoint(areas)
      ensures Valid() && live == map[] && FreeBytes(lists) + lost == Usable(areas, offset)
      ensures pool == Beyond(areas, offset)
      ensures WholePages(areas, offset) ==> lost == 0
    {
      nodes, mem := [SlabNode(0, 0), SlabNode(0, 0), SlabNode(0, 0), SlabNode(0, 0)], map[];
      lists, block, ext, live, lost, pool := [[], [], []], map[], map[], map[], 0, [];
      new;
      var skip: nat, i := offset, 0;
      assert areas[0..] == areas;
      while i < |areas|
        invariant 0 <= i <= |areas| && Valid() && live == map[] && RestClear(ext, areas, i)
        invariant FreeBytes(lists) + lost + Usable(areas[i..], skip) == Usable(areas, offset)
        invariant pool + Beyond(areas[i..], skip) == Beyond(areas, offset)
        invariant WholePages(areas, offset) ==> WholePages(areas, skip) && lost == 0
      {
        skip := AddNext(areas, i, skip);
        i := i + 1;
      }
    }
  }

  ghost predicate Disjoint(areas: seq<Area>) {
    forall i, j {:trigger At(i), At(j)} :: At(i) && At(j) && 0 <= i < j < |areas| ==>
      areas[i].base + areas[i].size <= areas[j].base || areas[j].base + areas[j].size <= areas[i].base
  }

  /** No extent reaches into an area from index `i` on. */
  ghost predicate RestClear(ext: map<nat, nat>, areas: seq<Area>, i: nat) {
    forall j {:trigger At(j)} :: At(j) && i <= j < |areas| ==> Clear(ext, areas[j].base, areas[j].size)
  }

  lemma RestStillClear(ext: map<nat, nat>, ext': map<nat, nat>, areas: seq<Area>, i: nat, skip: nat)
    requires i < |areas| && Disjoint(areas) && RestClear(ext, areas, i)
    requires skip < areas[i].size ==> Grown(ext, ext', areas[i].base + skip, areas[i].size - skip)
    requires skip >= areas[i].size ==> ext' == ext
    ensures RestClear(ext', areas, i + 1)
  {
    if skip < areas[i].size {
      assert At(i);
      GrownWider(ext, ext', areas[i].base, areas[i].size, areas[i].base + skip, areas[i].size - skip);
      forall j {:trigger At(j)} | At(j) && i < j < |areas|
        ensures Clear(ext', areas[j].base, areas[j].size)
      {
        StillClear(ext, ext', areas[i].base, areas[i].size, areas[j].base, areas[j].size);
      }
    }
  }

  ghost predicate WholePages(areas: seq<Area>, offset: nat) {
    offset % PAGE == 0 && forall i {:trigger At(i)} :: At(i) && 0 <= i < |areas| ==> areas[i].size % PAGE == 0
  }

  lemma PagesLeft(areas: seq<Area>, i: nat, skip: nat)
    requires i < |areas|
    ensures WholePages(areas, skip) ==>
              && (skip < areas[i].size ==> (areas[i].size - skip) % PAGE == 0)
              && (skip >= areas[i].size ==> (skip - areas[i].size) % PAGE == 0)
  {
    assert At(i);
    if skip < areas[i].size {
      Remainder(areas[i].size, skip);
    } else {
      Remainder(skip, areas[i].size);
    }
  }

  /** The bytes of the areas beyond the first `offset`. */
  function Usable(areas: seq<Area>, offset: nat): nat {
    if areas == [] then 0
    else if offset < areas[0].size then areas[0].size - offset + Usable(areas[1..], 0)
    else Usable(areas[1..], offset - areas[0].size)
  }

  /** What is left of the areas without the first `offset` bytes. */
  function Beyond(areas: seq<Area>, offset: nat): seq<Area>
    decreases |areas|
  {
    if areas == [] then []
    else if offset < areas[0].size
      then [Area(areas[0].base + offset, areas[0].size - offset)] + Beyond(areas[1..], 0)
    else Beyond(areas[1..], offset - areas[0].size)
  }

  lemma BeyondStep(areas: seq<Area>, i: nat, skip: nat)
    requires i < |areas|
    ensures skip < areas[i].size ==>
              && Usable(areas[i..], skip) == areas[i].size - skip + Usable(areas[i + 1..], 0)
              && Beyond(areas[i..], skip) ==
                   [Area(areas[i].base + skip, areas[i].size - skip)] + Beyond(areas[i + 1..], 0)
    ensures skip >= areas[i].size ==>
              && Usable(areas[i..], skip) == Usable(areas[i + 1..], skip - areas[i].size)
              && Beyond(areas[i..], skip) == Beyond(areas[i + 1..], skip - areas[i].size)
  {
    assert areas[i..][1..] == areas[i + 1..];
  }

  predicate Holds(area: Area, x: nat) { area.base <= x < area.base + area.size }

  /** The bytes in the first `i` areas. */
  function Before(areas: seq<Area>, i: nat): nat
    requires i <= |areas|
    decreases i
  {
    if i == 0 then 0 else areas[0].size + Before(areas[1..], i - 1)
  }

  ghost predicate InSome(areas: seq<Area>, x: nat) {
    exists k {:trigger At(k)} :: At(k) && 0 <= k < |areas| && Holds(areas[k], x)
  }

  /** The byte is in an area, and `offset` or more bytes of that area and those before it
      come before the byte. */
  ghost predicate Late(areas: seq<Area>, offset: nat, x: nat) {
    exists i {:trigger At(i)} ::
      At(i) && 0 <= i < |areas| && Holds(areas[i], x) && Before(areas, i) + (x - areas[i].base) >= offset
  }

  lemma InSomeCons(area: Area, areas: seq<Area>, x: nat)
    ensures InSome([area] + areas, x) <==> Holds(area, x) || InSome(areas, x)
  {
    if Holds(area, x) {
      assert At(0) && ([area] + areas)[0] == area;
    }
    if InSome(areas, x) {
      var k :| At(k) && 0 <= k < |areas| && Holds(areas[k], x);
      assert At(k + 1) && ([area] + areas)[k + 1] == areas[k];
    }
    if InSome([area] + areas, x) {
      var k :| At(k) && 0 <= k < |areas| + 1 && Holds(([area] + areas)[k], x);
      assert At(k - 1);
    }
  }

  lemma LateStep(areas: seq<Area>, offset: nat, x: nat, offset': nat)
    requires areas != [] && offset' == if offset < areas[0].size then 0 else offset - areas[0].size
    ensures Late(areas, offset, x) <==>
              (Holds(areas[0], x) && x - areas[0].base >= offset) || Late(areas[1..], offset', x)
  {
    if Holds(areas[0], x) && x - areas[0].base >= offset {
      assert At(0) && Before(areas, 0) == 0;
    }
    if Late(areas[1..], offset', x) {
      var i :| At(i) && 0 <= i < |areas| - 1 && Holds(areas[1..][i], x)
               && Before(areas[1..], i) + (x - areas[1..][i].base) >= offset';
      assert At(i + 1) && Before(areas, i + 1) == areas[0].size + Before(areas[1..], i);
    }
    if Late(areas, offset, x) {
      var i :| At(i) && 0 <= i < |areas| && Holds(areas[i], x) && Before(areas, i) + (x - areas[i].base) >= offset;
      assert i > 0 ==> At(i - 1) && areas[1..][i - 1] == areas[i];
    }
  }

  /** What the allocator is given is exactly the bytes of the areas beyond the first
      `offset`. */
  lemma {:induction false} BeyondOffset(areas: seq<Area>, offset: nat, x: nat)
    ensures InSome(Beyond(areas, offset), x) <==> Late(areas, offset, x)
    decreases |areas|
  {
    if areas != [] {
      var first := areas[0];
      var offset' := if offset < first.size then 0 else offset - first.size;
      LateStep(areas, offset, x, offset');
      BeyondOffset(areas[1..], offset', x);
      if offset < first.size {
        InSomeCons(Area(first.base + offset, first.size - offset), Beyond(areas[1..], 0), x);
      }
    }
  }
}
