/** The virtio-style descriptor ring: a free list and descriptor chains threaded
    through one table, and avail/used rings indexed by wrapping 16-bit counters. */
module Ring {
  import opened Common

  const U16 := 0x1_0000
  /** End marker of the free list; no table has a descriptor with this index. */
  const LIST_END := 0xFFFF

  const FLAG_NEXT: bv16 := 1
  const FLAG_WRITE: bv16 := 2

  datatype Descriptor = Descriptor(addr: nat, len: nat, flags: bv16, next: nat)
  datatype UsedElem = UsedElem(id: nat, len: nat)
  datatype Buffer = Buffer(addr: nat, len: nat, write: bool)

  /** Who holds a descriptor: the free list (at a rank counted from the tail), the
      caller of alloc_desc, or a live chain (at a position counted from its head). */
  datatype Owner = Free(rank: nat) | Loose | Chained(head: nat, pos: nat)

  /** How far a live chain has travelled: offered as the k-th avail entry, taken by
      the device, posted as the k-th used entry, handed back to the driver. */
  datatype Phase = Pending(k: nat) | InDevice | Posted(k: nat) | Returned

  datatype RingError = InvalidArgument | NoMemory

  // ---------------------------------------------------------------- specification

  /** The free list, bottom first, is threaded from `head` through the next links and ends
      in 0xFFFF; each of its descriptors is marked with its place on it. */
  ghost predicate FreeListOk(d: seq<Descriptor>, owner: seq<Owner>, free: seq<nat>, head: nat) {
    && |owner| == |d|
    && head == (if |free| == 0 then LIST_END else free[|free| - 1])
    && (forall r {:trigger At(r)} :: At(r) && 0 <= r < |free| ==>
          && free[r] < |d|
          && owner[free[r]] == Free(r)
          && d[free[r]].next == (if r == 0 then LIST_END else free[r - 1]))
    && (forall i {:trigger At(i)} :: At(i) && 0 <= i < |d| && owner[i].Free? ==>
          owner[i].rank < |free| && free[owner[i].rank] == i)
  }

  function Flags(write: bool, more: bool): bv16 {
    (if write then FLAG_WRITE else 0) | (if more then FLAG_NEXT else 0)
  }

  predicate Describes(e: Descriptor, b: Buffer, more: bool) {
    e.addr == b.addr && e.len == b.len && e.flags == Flags(b.write, more)
  }

  /** The first `n` descriptors of `c` are written and linked, the last one's link still open. */
  ghost predicate LinkedSoFar(d: seq<Descriptor>, c: seq<nat>, b: seq<Buffer>, n: nat) {
    && n <= |c| == |b|
    && (forall p {:trigger At(p)} :: At(p) && 0 <= p < n ==>
          && c[p] < |d| && Describes(d[c[p]], b[p], p + 1 < |b|)
          && (p + 1 < n ==> d[c[p]].next == c[p + 1]))
  }

  /** The descriptors `c`, linked in order, hold exactly the buffers `b`. */
  ghost predicate Linked(d: seq<Descriptor>, c: seq<nat>, b: seq<Buffer>) {
    |c| > 0 && LinkedSoFar(d, c, b, |c|)
  }

  ghost predicate ChainsOk(d: seq<Descriptor>, owner: seq<Owner>,
                           chains: map<nat, seq<nat>>, bufs: map<nat, seq<Buffer>>)
  {
    && |owner| == |d|
    && chains.Keys == bufs.Keys
    && (forall h {:trigger At(h)} :: At(h) && h in chains ==>
          && Linked(d, chains[h], bufs[h])
          && chains[h][0] == h
          && OwnsAll(owner, h, chains[h]))
    && (forall i {:trigger At(i)} :: At(i) && 0 <= i < |d| && owner[i].Chained? ==>
          && owner[i].head in chains
          && owner[i].pos < |chains[owner[i].head]|
          && chains[owner[i].head][owner[i].pos] == i)
  }

  ghost predicate OwnsAll(owner: seq<Owner>, h: nat, c: seq<nat>) {
    forall p {:trigger At(p)} :: At(p) && 0 <= p < |c| ==> c[p] < |owner| && owner[c[p]] == Chained(h, p)
  }

  /** `ring` still holds the last |ring| entries of `hist`, the k-th in slot k mod |ring|. */
  ghost predicate Window<T>(ring: seq<T>, hist: seq<T>) {
    && |ring| > 0
    && forall k {:trigger At(k)} :: At(k) && 0 <= k < |hist| && |hist| <= k + |ring| ==> ring[k % |ring|] == hist[k]
  }

  /** Every live chain is in exactly one stage of its round trip. */
  ghost predicate PhasesOk(phase: map<nat, Phase>, pushed: seq<nat>, taken: nat,
                           posted: seq<UsedElem>, popped: nat)
  {
    && taken <= |pushed| && popped <= |posted|
    && (forall k {:trigger At(k)} :: At(k) && taken <= k < |pushed| ==>
          pushed[k] in phase && phase[pushed[k]] == Pending(k))
    && (forall k {:trigger At(k)} :: At(k) && popped <= k < |posted| ==>
          posted[k].id in phase && phase[posted[k].id] == Posted(k))
    && (forall h {:trigger At(h)} :: At(h) && h in phase && phase[h].Pending? ==>
          taken <= phase[h].k < |pushed| && pushed[phase[h].k] == h)
    && (forall h {:trigger At(h)} :: At(h) && h in phase && phase[h].Posted? ==>
          popped <= phase[h].k < |posted| && posted[phase[h].k].id == h)
  }

  /** What a reader of the table collects from `i`, following FLAG_NEXT at most `n` times. */
  function Walk(d: seq<Descriptor>, i: nat, n: nat): seq<Buffer>
    decreases n
  {
    if i >= |d| then []
    else
      var b := Buffer(d[i].addr, d[i].len, d[i].flags & FLAG_WRITE != 0);
      if d[i].flags & FLAG_NEXT == 0 || n == 0 then [b] else [b] + Walk(d, d[i].next, n - 1)
  }

  lemma FlagBits(write: bool, more: bool)
    ensures (Flags(write, more) & FLAG_NEXT != 0) == more
    ensures (Flags(write, more) & FLAG_WRITE != 0) == write
  {
  }

  lemma {:induction false} WalkFrom(d: seq<Descriptor>, c: seq<nat>, b: seq<Buffer>, p: nat, n: nat)
    requires Linked(d, c, b) && p < |c| && n >= |c| - 1 - p
    ensures Walk(d, c[p], n) == b[p..]
    decreases |c| - p
  {
    FlagBits(b[p].write, p + 1 < |c|);
    assert At(p) && At(p + 1);
    if p + 1 < |c| {
      WalkFrom(d, c, b, p + 1, n - 1);
      assert b[p..] == [b[p]] + b[p + 1..];
    }
  }

  lemma ChainAt(d: seq<Descriptor>, owner: seq<Owner>,
                chains: map<nat, seq<nat>>, bufs: map<nat, seq<Buffer>>, h: nat)
    requires ChainsOk(d, owner, chains, bufs) && h in chains
    ensures Linked(d, chains[h], bufs[h]) && chains[h][0] == h && OwnsAll(owner, h, chains[h])
    ensures Distinct(chains[h])
    ensures forall p :: 0 <= p < |chains[h]| ==> chains[h][p] < |d| && owner[chains[h][p]] == Chained(h, p)
  {
    assert At(h);
    forall p | 0 <= p < |chains[h]| ensures chains[h][p] < |d| && owner[chains[h][p]] == Chained(h, p) {
      assert At(p);
    }
  }

  lemma FreeAt(d: seq<Descriptor>, owner: seq<Owner>, free: seq<nat>, head: nat, r: nat)
    requires FreeListOk(d, owner, free, head) && r < |free|
    ensures free[r] < |d| && owner[free[r]] == Free(r)
  {
    assert At(r);
  }

  /** Walking a live chain, for as many steps as there are descriptors, yields exactly
      the buffers the chain was built from, in order. */
  lemma WalkYieldsBuffers(d: seq<Descriptor>, owner: seq<Owner>,
                          chains: map<nat, seq<nat>>, bufs: map<nat, seq<Buffer>>, h: nat)
    requires ChainsOk(d, owner, chains, bufs) && h in chains
    ensures Walk(d, h, |d|) == bufs[h]
  {
    ChainAt(d, owner, chains, bufs, h);
    Pigeonhole(chains[h], |d|);
    WalkFrom(d, chains[h], bufs[h], 0, |d|);
  }

  /** A descriptor nobody has allocated by hand is on the free list, once, or in one
      live chain, and never both. */
  lemma ExactlyOneHolder(d: seq<Descriptor>, owner: seq<Owner>, free: seq<nat>, head: nat,
                         chains: map<nat, seq<nat>>, bufs: map<nat, seq<Buffer>>, i: nat)
    requires FreeListOk(d, owner, free, head) && ChainsOk(d, owner, chains, bufs)
    requires i < |d| && owner[i] != Loose
    ensures (i in free) != (exists h :: h in chains && i in chains[h])
    ensures forall g, h :: g in chains && h in chains && i in chains[g] && i in chains[h] ==> g == h
    ensures forall r, s :: 0 <= r < s < |free| ==> free[r] != free[s]
  {
    assert At(i);
    forall h | h in chains && i in chains[h] ensures owner[i].Chained? && owner[i].head == h {
      ChainAt(d, owner, chains, bufs, h);
    }
    forall r | 0 <= r < |free| ensures free[r] < |owner| && owner[free[r]] == Free(r) {
      FreeAt(d, owner, free, head, r);
    }
    if owner[i].Chained? {
      assert i in chains[owner[i].head];
    }
  }

  lemma PopFree(d: seq<Descriptor>, owner: seq<Owner>, free: seq<nat>, head: nat)
    requires FreeListOk(d, owner, free, head) && free != []
    ensures head < |d| && owner[head] == Free(|free| - 1)
    ensures FreeListOk(d, owner[head := Loose], free[..|free| - 1], d[head].next)
  {
    assert At(|free| - 1);
    var rest, owner' := free[..|free| - 1], owner[head := Loose];
    assert FreeListOk(d, owner', rest, d[head].next);
  }

  lemma PushFree(d: seq<Descriptor>, owner: seq<Owner>, free: seq<nat>, head: nat, i: nat)
    requires FreeListOk(d, owner, free, head) && i < |d| && !owner[i].Free?
    ensures FreeListOk(d[i := d[i].(next := head)], owner[i := Free(|free|)], free + [i], i)
  {
  }

  /** The list of `n` descriptors that starts at `head`, and the chains, can be told apart. */
  ghost predicate Sound(d: seq<Descriptor>, head: nat, n: nat,
                        chains: map<nat, seq<nat>>, bufs: map<nat, seq<Buffer>>)
  {
    exists owner, free {:trigger FreeListOk(d, owner, free, head)} ::
      FreeListOk(d, owner, free, head) && |free| == n && ChainsOk(d, owner, chains, bufs)
  }

  /** Below a descriptor that is on the list already, the list goes on as before. */
  lemma {:induction false} FreedTwice(d: seq<Descriptor>, owner: seq<Owner>, free: seq<nat>, head: nat, i: nat,
                                      owner': seq<Owner>, free': seq<nat>, r: nat)
    requires FreeListOk(d, owner, free, head) && i < |d| && owner[i].Free? && owner[i].rank <= r < |free|
    requires |free'| == |free| + 1 && FreeListOk(d[i := d[i].(next := head)], owner', free', i)
    ensures free'[r] == free[r]
    decreases |free| - r
  {
    assert At(r + 1) && At(r);
    if r + 1 < |free| {
      FreedTwice(d, owner, free, head, i, owner', free', r + 1);
      assert At(i);
    }
  }

  /** Freeing a descriptor leaves the table sound exactly when the caller held it: one that
      is on the list already closes the list to a ring, one of a live chain is in two places. */
  lemma FreeIff(d: seq<Descriptor>, owner: seq<Owner>, free: seq<nat>, head: nat,
                chains: map<nat, seq<nat>>, bufs: map<nat, seq<Buffer>>, i: nat)
    requires FreeListOk(d, owner, free, head) && ChainsOk(d, owner, chains, bufs) && i < |d|
    ensures Sound(d[i := d[i].(next := head)], i, |free| + 1, chains, bufs) <==> owner[i] == Loose
  {
    var d' := d[i := d[i].(next := head)];
    if owner[i] == Loose {
      PushFree(d, owner, free, head, i);
      ChainsIgnore(d, owner, chains, bufs, i, d'[i], Free(|free|));
    } else if Sound(d', i, |free| + 1, chains, bufs) {
      var owner', free' :|
        FreeListOk(d', owner', free', i) && |free'| == |free| + 1 && ChainsOk(d', owner', chains, bufs);
      assert At(i) && At(|free|);
      if owner[i].Free? {
        assert At(owner[i].rank);
        FreedTwice(d, owner, free, head, i, owner', free', owner[i].rank);
      } else {
        ChainAt(d', owner', chains, bufs, owner[i].head);
      }
      assert false;
    }
  }

  /** The table as new leaves it: each descriptor links to the next one. */
  lemma InitialFreeList(d: seq<Descriptor>, owner: seq<Owner>, free: seq<nat>)
    requires 0 < |d| == |owner| == |free| < U16
    requires forall i :: 0 <= i < |d| ==> d[i].next == (if i + 1 < |d| then i + 1 else LIST_END)
    requires forall i :: 0 <= i < |d| ==> owner[i] == Free(|d| - 1 - i) && free[i] == |d| - 1 - i
    ensures FreeListOk(d, owner, free, 0)
  {
  }

  /** Rewriting a descriptor the free list does not hold leaves the free list alone. */
  lemma FreeListIgnores(d: seq<Descriptor>, owner: seq<Owner>, free: seq<nat>, head: nat,
                        i: nat, e: Descriptor, o: Owner)
    requires FreeListOk(d, owner, free, head) && i < |d| && !owner[i].Free? && !o.Free?
    ensures FreeListOk(d[i := e], owner[i := o], free, head)
  {
  }

  /** Rewriting a descriptor no chain holds leaves every chain alone. */
  lemma ChainsIgnore(d: seq<Descriptor>, owner: seq<Owner>, chains: map<nat, seq<nat>>,
                     bufs: map<nat, seq<Buffer>>, i: nat, e: Descriptor, o: Owner)
    requires ChainsOk(d, owner, chains, bufs) && i < |d| && !owner[i].Chained? && !o.Chained?
    ensures ChainsOk(d[i := e], owner[i := o], chains, bufs)
  {
    forall h | h in chains
      ensures Linked(d[i := e], chains[h], bufs[h]) && OwnsAll(owner[i := o], h, chains[h])
    {
      ChainAt(d, owner, chains, bufs, h);
      assert forall p :: 0 <= p < |chains[h]| ==> chains[h][p] != i;
    }
  }

  /** `owner` after the descriptors of `c` were joined into the chain headed by `h`. */
  ghost function Claim(owner: seq<Owner>, h: nat, c: seq<nat>): (r: seq<Owner>)
    ensures |r| == |owner|
  {
    seq(|owner|, i requires 0 <= i < |owner| =>
      if exists p :: 0 <= p < |c| && c[p] == i
      then var p :| 0 <= p < |c| && c[p] == i; Chained(h, p)
      else owner[i])
  }

  /** `owner` after the caller took hold of the descriptors of `c`. */
  ghost function Release(owner: seq<Owner>, c: seq<nat>): (r: seq<Owner>)
    ensures |r| == |owner|
  {
    seq(|owner|, i requires 0 <= i < |owner| => if i in c then Loose else owner[i])
  }

  /** The caller holds the descriptors of `c` from position `from` up to `to`. */
  ghost predicate HeldLoose(owner: seq<Owner>, c: seq<nat>, from: nat, to: nat) {
    to <= |c| && forall p {:trigger At(p)} :: At(p) && from <= p < to ==> c[p] < |owner| && owner[c[p]] == Loose
  }

  /** From position `from` on, the chain `c` is as it was in `d0`. */
  ghost predicate Untouched(d: seq<Descriptor>, d0: seq<Descriptor>, c: seq<nat>, from: nat) {
    |d| == |d0| && forall p {:trigger At(p)} :: At(p) && from <= p < |c| ==> c[p] < |d| && d[c[p]] == d0[c[p]]
  }

  lemma LinkNext(d: seq<Descriptor>, c: seq<nat>, b: seq<Buffer>, n: nat, e: Descriptor)
    requires LinkedSoFar(d, c, b, n) && Distinct(c) && n < |c| && c[n] < |d|
    requires Describes(e, b[n], n + 1 < |b|)
    ensures n == 0 ==> LinkedSoFar(d[c[n] := e], c, b, n + 1)
    ensures n > 0 ==>
              var d1 := d[c[n] := e];
              c[n - 1] < |d| && LinkedSoFar(d1[c[n - 1] := d1[c[n - 1]].(next := c[n])], c, b, n + 1)
  {
    assert At(n) && At(n - 1);
  }

  lemma ClaimOwns(owner: seq<Owner>, h: nat, c: seq<nat>)
    requires HeldLoose(owner, c, 0, |c|) && Distinct(c)
    ensures OwnsAll(Claim(owner, h, c), h, c)
  {
    forall p {:trigger At(p)} | At(p) && 0 <= p < |c|
      ensures c[p] < |owner| && Claim(owner, h, c)[c[p]] == Chained(h, p)
    {
      forall q | 0 <= q < |c| && c[q] == c[p]
        ensures q == p
      {
        assert At(q);
      }
    }
  }

  lemma JoinChain(d: seq<Descriptor>, owner: seq<Owner>, free: seq<nat>, head: nat,
                  chains: map<nat, seq<nat>>, bufs: map<nat, seq<Buffer>>, c: seq<nat>, b: seq<Buffer>)
    requires FreeListOk(d, owner, free, head) && ChainsOk(d, owner, chains, bufs)
    requires Linked(d, c, b) && HeldLoose(owner, c, 0, |c|) && Distinct(c)
    ensures c[0] !in chains
    ensures FreeListOk(d, Claim(owner, c[0], c), free, head)
    ensures ChainsOk(d, Claim(owner, c[0], c), chains[c[0] := c], bufs[c[0] := b])
  {
    ClaimOwns(owner, c[0], c);
    assert At(0) && At(c[0]);
    ClaimedFree(d, owner, free, head, c, Claim(owner, c[0], c));
    ClaimedChains(d, owner, chains, bufs, c, b, Claim(owner, c[0], c));
  }

  lemma ClaimedFree(d: seq<Descriptor>, owner: seq<Owner>, free: seq<nat>, head: nat, c: seq<nat>, owner': seq<Owner>)
    requires FreeListOk(d, owner, free, head) && HeldLoose(owner, c, 0, |c|) && c != []
    requires owner' == Claim(owner, c[0], c) && OwnsAll(owner', c[0], c)
    ensures FreeListOk(d, owner', free, head)
  {
    forall p | 0 <= p < |c|
      ensures c[p] < |owner| && owner[c[p]] == Loose && owner'[c[p]].Chained?
    {
      assert At(p);
    }
  }

  lemma ClaimedChains(d: seq<Descriptor>, owner: seq<Owner>, chains: map<nat, seq<nat>>, bufs: map<nat, seq<Buffer>>,
                      c: seq<nat>, b: seq<Buffer>, owner': seq<Owner>)
    requires ChainsOk(d, owner, chains, bufs) && Linked(d, c, b) && HeldLoose(owner, c, 0, |c|)
    requires owner' == Claim(owner, c[0], c) && OwnsAll(owner', c[0], c)
    ensures c[0] !in chains && ChainsOk(d, owner', chains[c[0] := c], bufs[c[0] := b])
  {
    assert At(0) && At(c[0]);
    forall p | 0 <= p < |c|
      ensures c[p] < |owner| && owner[c[p]] == Loose && owner'[c[p]] == Chained(c[0], p)
    {
      assert At(p);
    }
    forall g | g in chains
      ensures OwnsAll(owner', g, chains[g])
    {
      ChainAt(d, owner, chains, bufs, g);
    }
  }

  lemma SplitChain(d: seq<Descriptor>, owner: seq<Owner>, free: seq<nat>, head: nat,
                   chains: map<nat, seq<nat>>, bufs: map<nat, seq<Buffer>>, h: nat)
    requires FreeListOk(d, owner, free, head) && ChainsOk(d, owner, chains, bufs)
    requires h in chains
    ensures HeldLoose(Release(owner, chains[h]), chains[h], 0, |chains[h]|) && Distinct(chains[h])
    ensures FreeListOk(d, Release(owner, chains[h]), free, head)
    ensures ChainsOk(d, Release(owner, chains[h]), chains - {h}, bufs - {h})
  {
    var owner' := Release(owner, chains[h]);
    ChainAt(d, owner, chains, bufs, h);
    forall g | g in chains - {h} ensures OwnsAll(owner', g, chains[g]) {
      ChainAt(d, owner, chains, bufs, g);
    }
    assert FreeListOk(d, owner', free, head);
  }

  lemma PushKeepsWindow<T>(ring: seq<T>, hist: seq<T>, x: T)
    requires Window(ring, hist)
    ensures Window(ring[|hist| % |ring| := x], hist + [x])
  {
    var n := |ring|;
    forall k | 0 <= k < |hist| && |hist| + 1 <= k + n ensures k % n != |hist| % n {
      ModDistinct(k, |hist|, n);
    }
  }

  ghost function LooseIn(owner: seq<Owner>): set<nat> {
    set i | 0 <= i < |owner| && owner[i] == Loose
  }

  /** The descriptors of the set are as they were. */
  ghost predicate Kept(d: seq<Descriptor>, d': seq<Descriptor>, s: set<nat>) {
    |d'| == |d| && forall i {:trigger At(i)} :: At(i) && 0 <= i < |d| && i in s ==> d'[i] == d[i]
  }

  lemma ClaimLoose(owner: seq<Owner>, h: nat, c: seq<nat>)
    requires HeldLoose(owner, c, 0, |c|)
    ensures LooseIn(Claim(owner, h, c)) == LooseIn(owner) - Elems(c)
  {
  }

  lemma ReleaseLoose(owner: seq<Owner>, c: seq<nat>)
    requires forall p :: 0 <= p < |c| ==> c[p] < |owner|
    ensures LooseIn(Release(owner, c)) == LooseIn(owner) + Elems(c)
  {
  }

  lemma ElemsStep(c: seq<nat>, p: nat)
    requires p < |c| && Distinct(c)
    ensures c[..p + 1] == c[..p] + [c[p]]
    ensures Elems(c[..p + 1]) == Elems(c[..p]) + {c[p]}
  {
  }

  /** The link at position `p` of a chain that is untouched from there on. */
  lemma LinkAt(d: seq<Descriptor>, d0: seq<Descriptor>, c: seq<nat>, b: seq<Buffer>, p: nat)
    requires Linked(d0, c, b) && p < |c| && Untouched(d, d0, c, p)
    ensures c[p] < |d| && (d[c[p]].flags & FLAG_NEXT == 0 <==> p + 1 == |c|)
    ensures p + 1 < |c| ==> d[c[p]].next == c[p + 1]
  {
    assert At(p) && At(p + 1);
    FlagBits(b[p].write, p + 1 < |c|);
  }

  lemma TopsDistinct(d: seq<Descriptor>, owner: seq<Owner>, free: seq<nat>, head: nat, n: nat)
    requires FreeListOk(d, owner, free, head) && n <= |free|
    ensures forall q :: 0 <= q < n ==> Tops(free, n)[q] < |d| && owner[Tops(free, n)[q]].Free?
    ensures Distinct(Tops(free, n))
  {
    forall q | 0 <= q < n
      ensures Tops(free, n)[q] < |d| && owner[Tops(free, n)[q]] == Free(|free| - 1 - q)
    {
      FreeAt(d, owner, free, head, |free| - 1 - q);
    }
  }

  /** Offering a new chain, or reclaiming one the device handed back, keeps every other
      chain in its stage. */
  lemma PhasesStep(phase: map<nat, Phase>, pushed: seq<nat>, taken: nat,
                   posted: seq<UsedElem>, popped: nat, h: nat)
    requires PhasesOk(phase, pushed, taken, posted, popped)
    ensures h !in phase ==> PhasesOk(phase[h := Pending(|pushed|)], pushed + [h], taken, posted, popped)
    ensures h in phase && phase[h] == Returned ==> PhasesOk(phase - {h}, pushed, taken, posted, popped)
  {
  }

  /** A 16-bit counter indexes the ring as the unbounded one would: the size divides 2^16. */
  lemma SlotOf(k: nat, size: nat)
    requires 0 < size < U16 && PowerOfTwo(size)
    ensures (k % U16) % size == k % size
  {
    assert PowerOfTwo(U16) by {
      assert PowerOfTwo(0x1) && PowerOfTwo(0x2) && PowerOfTwo(0x4) && PowerOfTwo(0x8);
      assert PowerOfTwo(0x10) && PowerOfTwo(0x20) && PowerOfTwo(0x40) && PowerOfTwo(0x80);
      assert PowerOfTwo(0x100) && PowerOfTwo(0x200) && PowerOfTwo(0x400) && PowerOfTwo(0x800);
      assert PowerOfTwo(0x1000) && PowerOfTwo(0x2000) && PowerOfTwo(0x4000) && PowerOfTwo(0x8000);
    }
    PowersOfTwoDivide(size, U16);
    ModOfMod(k, U16, size);
  }

  /** The chains on offer, and the completions not yet seen, are distinct live heads,
      so there are never more than `size` of either. */
  lemma OutstandingBounded(phase: map<nat, Phase>, pushed: seq<nat>, taken: nat,
                           posted: seq<UsedElem>, popped: nat, size: nat)
    requires PhasesOk(phase, pushed, taken, posted, popped)
    requires forall h :: h in phase ==> h < size
    ensures |pushed| <= taken + size
    ensures |posted| <= popped + size
  {
    var offered := pushed[taken..];
    forall i, j | 0 <= i < j < |offered| ensures offered[i] != offered[j] {
      assert At(taken + i) && At(taken + j);
    }
    forall i | 0 <= i < |offered| ensures offered[i] < size {
      assert At(taken + i);
    }
    Pigeonhole(offered, size);
    var done := seq(|posted| - popped, i requires 0 <= i < |posted| - popped => posted[popped + i].id);
    forall i, j | 0 <= i < j < |done| ensures done[i] != done[j] {
      assert At(popped + i) && At(popped + j);
    }
    forall i | 0 <= i < |done| ensures 0 <= done[i] < size {
      assert At(popped + i);
      assert posted[popped + i].id >= 0;
    }
    Pigeonhole(done, size);
  }

  /** The ring as its users see it. */
  datatype Ledger = Ledger(
    free: seq<nat>,
    chains: map<nat, seq<nat>>,
    bufs: map<nat, seq<Buffer>>,
    phase: map<nat, Phase>,
    pushed: seq<nat>,
    taken: nat,
    posted: seq<UsedElem>,
    popped: nat)

  /** The first `n` descriptors of the free list, in the order they are handed out. */
  function Tops(free: seq<nat>, n: nat): seq<nat>
    requires n <= |free|
  {
    seq(n, q requires 0 <= q < n => free[|free| - 1 - q])
  }

  /** A chain for `b` was built from the top of the free list and offered to the device. */
  function Offer(l: Ledger, b: seq<Buffer>): Ledger
    requires 0 < |b| <= |l.free|
  {
    var c := Tops(l.free, |b|);
    l.(free := l.free[..|l.free| - |b|],
       chains := l.chains[c[0] := c],
       bufs := l.bufs[c[0] := b],
       phase := l.phase[c[0] := Pending(|l.pushed|)],
       pushed := l.pushed + [c[0]])
  }

  lemma OfferIs(l: Ledger, b: seq<Buffer>, c: seq<nat>, l': Ledger)
    requires 0 < |b| <= |l.free| && c == Tops(l.free, |b|) && l'.free == l.free[..|l.free| - |b|]
    requires l'.chains == l.chains[c[0] := c] && l'.bufs == l.bufs[c[0] := b]
    requires l'.phase == l.phase[c[0] := Pending(|l.pushed|)] && l'.pushed == l.pushed + [c[0]]
    requires l'.taken == l.taken && l'.posted == l.posted && l'.popped == l.popped
    ensures l' == Offer(l, b)
  {
  }

  /** The whole chain headed by `h` went back onto the free list. */
  function Reclaim(l: Ledger, h: nat): Ledger
    requires h in l.chains
  {
    l.(free := l.free + l.chains[h], chains := l.chains - {h}, bufs := l.bufs - {h}, phase := l.phase - {h})
  }

  /** The device is told of every live chain once and hands every chain back once. */
  ghost predicate InTransit(l: Ledger) {
    PhasesOk(l.phase, l.pushed, l.taken, l.posted, l.popped)
  }

  lemma OfferKeepsTransit(l: Ledger, b: seq<Buffer>)
    requires 0 < |b| <= |l.free| && l.free[|l.free| - 1] !in l.phase
    ensures InTransit(l) ==> InTransit(Offer(l, b))
  {
    if InTransit(l) {
      PhasesStep(l.phase, l.pushed, l.taken, l.posted, l.popped, Tops(l.free, |b|)[0]);
    }
  }

  lemma ReclaimKeepsTransit(l: Ledger, h: nat)
    requires InTransit(l) && h in l.chains && h in l.phase && l.phase[h] == Returned
    ensures InTransit(Reclaim(l, h))
  {
    PhasesStep(l.phase, l.pushed, l.taken, l.posted, l.popped, h);
  }

  /** The device takes the next avail entry. */
  function Take(l: Ledger): Ledger
    requires l.taken < |l.pushed|
  {
    l.(taken := l.taken + 1, phase := l.phase[l.pushed[l.taken] := InDevice])
  }

  /** The device posts a chain it holds as completed. */
  function Post(l: Ledger, e: UsedElem): Ledger {
    l.(posted := l.posted + [e], phase := l.phase[e.id := Posted(|l.posted|)])
  }

  /** The driver sees the next completion. */
  function Pop(l: Ledger): Ledger
    requires l.popped < |l.posted|
  {
    l.(popped := l.popped + 1, phase := l.phase[l.posted[l.popped].id := Returned])
  }

  lemma TakeKeepsTransit(l: Ledger)
    requires InTransit(l) && l.taken < |l.pushed|
    ensures l.pushed[l.taken] in l.phase && InTransit(Take(l))
  {
    assert At(l.taken);
  }

  lemma PostKeepsTransit(l: Ledger, e: UsedElem)
    requires InTransit(l) && e.id in l.phase && l.phase[e.id] == InDevice
    ensures InTransit(Post(l, e))
  {
  }

  lemma PopKeepsTransit(l: Ledger)
    requires InTransit(l) && l.popped < |l.posted|
    ensures l.posted[l.popped].id in l.phase && InTransit(Pop(l))
  {
    assert At(l.popped);
  }

  /** Counters at most `size` apart agree modulo 2^16 exactly when they are equal. */
  lemma SameResidue(a: nat, b: nat, size: nat)
    requires a <= b <= a + size && size < U16
    ensures a % U16 == b % U16 <==> a == b
  {
    if a < b {
      ModDistinct(a, b, U16);
    }
  }

  // ---------------------------------------------------------------- implementation

  // Two predicates below are opened by `At` of their numbers.
  const TABLE := -1
  const LINKING := -2

  class RingBuffer {
    const size: nat
    var freeHead: nat
    var freeCount: nat
    var lastUsedIdx: nat
    /** The DMA region: descriptor table, avail ring and used ring. */
    const desc: array<Descriptor>
    const availRing: array<nat>
    var availIdx: nat
    const usedRing: array<UsedElem>
    var usedIdx: nat
    /** The device's own count of avail entries taken. */
    var deviceIdx: nat

    ghost var owner: seq<Owner>
    ghost var free: seq<nat>
    ghost var chains: map<nat, seq<nat>>
    ghost var bufs: map<nat, seq<Buffer>>
    /** All avail entries ever pushed and how many the device has taken;
        all used entries ever posted and how many were popped. */
    ghost var pushed: seq<nat>
    ghost var taken: nat
    ghost var posted: seq<UsedElem>
    ghost var popped: nat
    ghost var phase: map<nat, Phase>

    ghost predicate Layout() {
      && 0 < size < U16 && PowerOfTwo(size)
      && desc.Length == availRing.Length == usedRing.Length == size
      && desc as object != availRing && desc as object != usedRing && availRing as object != usedRing
    }

    /** Every descriptor is on the free list, in a live chain or held by a caller. */
    ghost predicate TableValid()
      reads this`freeHead, this`freeCount, this`owner, this`free, this`chains, this`bufs, desc
    {
      && Layout() && |owner| == size && freeCount == |free| && chains.Keys == bufs.Keys
      && forall j {:trigger At(j)} :: At(j) && j == TABLE ==>
           FreeListOk(desc[..], owner, free, freeHead) && ChainsOk(desc[..], owner, chains, bufs)
    }

    /** The 16-bit indices and the avail slots agree with the unbounded history. */
    ghost predicate AvailValid()
      reads this`availIdx, this`pushed, this`deviceIdx, this`taken, availRing
    {
      && Layout()
      && availIdx == |pushed| % U16 && deviceIdx == taken % U16
      && Window(availRing[..], pushed)
    }

    /** The same for the used ring. */
    ghost predicate UsedValid()
      reads this`usedIdx, this`posted, this`lastUsedIdx, this`popped, usedRing
    {
      && Layout()
      && usedIdx == |posted| % U16 && lastUsedIdx == popped % U16
      && Window(usedRing[..], posted)
    }

    /** What every operation keeps, whatever the device does. */
    ghost predicate Valid()
      reads this, desc, availRing, usedRing
    {
      TableValid() && AvailValid() && UsedValid() && phase.Keys == chains.Keys
    }

    ghost function LooseSet(): set<nat>
      reads this`owner
    {
      LooseIn(owner)
    }

    ghost function View(): Ledger
      reads this
    {
      Ledger(free, chains, bufs, phase, pushed, taken, posted, popped)
    }

    /** What adding buffers may write. */
    ghost function Words(): (seq<Descriptor>, seq<nat>, seq<nat>)
      reads this`freeHead, this`freeCount, this`availIdx, desc, availRing
    {
      (desc[..], availRing[..], [freeHead, freeCount, availIdx])
    }

    static method New(size: nat, haveMemory: bool) returns (r: Result<RingBuffer, RingError>)
      requires size < U16
      ensures r.Ok? <==> size > 0 && PowerOfTwo(size) && haveMemory
      ensures r.Err? ==> r.error == (if size > 0 && PowerOfTwo(size) then NoMemory else InvalidArgument)
      ensures r.Ok? ==> fresh(r.value) && fresh(r.value.desc) && fresh(r.value.availRing) && fresh(r.value.usedRing)
      ensures r.Ok? ==>
                && r.value.Valid() && InTransit(r.value.View()) && r.value.size == size
                && r.value.freeCount == size && r.value.LooseSet() == {}
                && r.value.chains == map[] && r.value.pushed == [] && r.value.posted == []
    {
      if size == 0 || !PowerOfTwo(size) {
        return Err(InvalidArgument);
      }
      if !haveMemory {
        return Err(NoMemory);
      }
      var ring := new RingBuffer(size);
      ring.InitFreeList();
      r := Ok(ring);
    }

    constructor (n: nat)
      ensures size == n && freeHead == 0 && freeCount == n
      ensures lastUsedIdx == availIdx == usedIdx == deviceIdx == 0
      ensures fresh(desc) && fresh(availRing) && fresh(usedRing)
      ensures desc.Length == availRing.Length == usedRing.Length == n
      ensures desc as object != availRing && desc as object != usedRing && availRing as object != usedRing
      ensures chains == map[] && bufs == map[] && phase == map[]
      ensures pushed == [] && taken == 0 && posted == [] && popped == 0
    {
      size := n;
      freeHead := 0;
      freeCount := n;
      lastUsedIdx, availIdx, usedIdx, deviceIdx := 0, 0, 0, 0;
      desc := new Descriptor[n](_ => Descriptor(0, 0, 0, 0));
      availRing := new nat[n](_ => 0);
      usedRing := new UsedElem[n](_ => UsedElem(0, 0));
      chains, bufs, phase := map[], map[], map[];
      pushed, taken, posted, popped := [], 0, [], 0;
    }

    method InitFreeList()
      requires Layout()
      modifies this`owner, this`free, desc
      ensures |owner| == size && |free| == size
      ensures forall i :: 0 <= i < size ==> owner[i].Free?
      ensures FreeListOk(desc[..], owner, free, 0)
    {
      for i := 0 to size - 1
        invariant forall j :: 0 <= j < i ==> desc[j].next == j + 1
      {
        desc[i] := desc[i].(next := i + 1);
      }
      desc[size - 1] := desc[size - 1].(next := LIST_END);
      free := seq(size, i requires 0 <= i < size => size - 1 - i);
      owner := seq(size, i requires 0 <= i < size => Free(size - 1 - i));
      InitialFreeList(desc[..], owner, free);
    }

    method AllocDesc() returns (r: Option<nat>)
      requires TableValid()
      modifies this`freeHead, this`freeCount, this`owner, this`free
      ensures TableValid()
      ensures r.None? <==> old(freeCount) == 0
      ensures r.None? ==> owner == old(owner) && free == old(free)
      ensures r.None? ==> freeHead == old(freeHead) && freeCount == old(freeCount)
      ensures r.Some? ==>
                && r.value < size && owner == old(owner)[r.value := Loose]
                && r.value !in old(LooseSet()) && LooseSet() == old(LooseSet()) + {r.value}
                && free == old(free)[..|old(free)| - 1] && r.value == old(free)[|old(free)| - 1]
    {
      assert At(TABLE);
      if freeCount == 0 {
        return None;
      }
      var idx := freeHead;
      PopFree(desc[..], owner, free, idx);
      freeHead := desc[idx].next;
      freeCount := freeCount - 1;
      ChainsIgnore(desc[..], owner, chains, bufs, idx, desc[idx], Loose);
      assert desc[..][idx := desc[idx]] == desc[..];
      owner := owner[idx := Loose];
      free := free[..|free| - 1];
      r := Some(idx);
    }

    method FreeDesc(idx: nat)
      requires TableValid() && idx < size
      modifies this`freeHead, this`freeCount, this`owner, this`free, desc
      ensures desc[..] == old(desc[..])[idx := old(desc[idx]).(next := old(freeHead))]
      ensures freeHead == idx && freeCount == old(freeCount) + 1
      ensures Sound(desc[..], freeHead, freeCount, chains, bufs) <==> old(owner[idx]) == Loose
      ensures old(owner[idx]) == Loose ==>
                && TableValid() && free == old(free) + [idx]
                && owner == old(owner)[idx := Free(|old(free)|)] && LooseSet() == old(LooseSet()) - {idx}
    {
      assert At(TABLE);
      FreeIff(desc[..], owner, free, freeHead, chains, bufs, idx);
      if owner[idx] == Loose {
        PushFree(desc[..], owner, free, freeHead, idx);
        ChainsIgnore(desc[..], owner, chains, bufs, idx, desc[idx].(next := freeHead), Free(|free|));
        owner, free := owner[idx := Free(|free|)], free + [idx];
      }
      desc[idx] := desc[idx].(next := freeHead);
      freeHead := idx;
      freeCount := freeCount + 1;
      assert desc[..] == old(desc[..])[idx := old(desc[idx]).(next := old(freeHead))];
    }

    /** Writes a descriptor the caller holds. */
    method SetDesc(i: nat, e: Descriptor)
      requires TableValid() && i < size && owner[i] == Loose
      modifies desc
      ensures TableValid() && desc[..] == old(desc[..])[i := e]
    {
      assert At(TABLE);
      FreeListIgnores(desc[..], owner, free, freeHead, i, e, Loose);
      ChainsIgnore(desc[..], owner, chains, bufs, i, e, Loose);
      assert owner[i := Loose] == owner;
      desc[i] := e;
      assert desc[..] == old(desc[..])[i := e];
    }

    method PushAvail(head: nat)
      requires AvailValid()
      modifies this`availIdx, this`pushed, availRing
      ensures AvailValid() && pushed == old(pushed) + [head]
      ensures availRing[..] == old(availRing[..])[|old(pushed)| % size := head]
    {
      SlotOf(|pushed|, size);
      PushKeepsWindow(availRing[..], pushed, head);
      availRing[availIdx % size] := head;
      assert availRing[..] == old(availRing[..])[|pushed| % size := head];
      ModStep(|pushed|, U16);
      availIdx := (availIdx + 1) % U16;
      pushed := pushed + [head];
    }

    ghost method Commit(c: seq<nat>, b: seq<Buffer>)
      requires TableValid() && Linked(desc[..], c, b) && HeldLoose(owner, c, 0, |c|) && Distinct(c)
      modifies this`owner, this`chains, this`bufs
      ensures TableValid() && LooseSet() == old(LooseSet()) - Elems(c)
      ensures c[0] !in old(chains) && chains == old(chains)[c[0] := c] && bufs == old(bufs)[c[0] := b]
    {
      assert At(TABLE);
      JoinChain(desc[..], owner, free, freeHead, chains, bufs, c, b);
      ClaimLoose(owner, c[0], c);
      owner := Claim(owner, c[0], c);
      chains, bufs := chains[c[0] := c], bufs[c[0] := b];
    }

    /** Offers the chain built from the top of `before.free`; only the avail ring changes. */
    method Publish(head: nat, ghost before: Ledger, ghost b: seq<Buffer>, ghost c: seq<nat>)
      requires Valid() && 0 < |b| <= |before.free| && c == Tops(before.free, |b|) && head == c[0]
      requires Linked(desc[..], c, b) && HeldLoose(owner, c, 0, |b|) && Distinct(c)
      requires View() == before.(free := before.free[..|before.free| - |b|])
      modifies this`availIdx, this`pushed, this`owner, this`chains, this`bufs, this`phase, availRing
      ensures Valid() && LooseSet() == old(LooseSet()) - Elems(c)
      ensures head !in before.chains && View() == Offer(before, b)
    {
      phase := phase[head := Pending(|pushed|)];
      PushAvail(head);
      Commit(c, b);
      OfferIs(before, b, c, View());
    }

    /** Takes a descriptor and fills it with one buffer. */
    method FillOne(addr: nat, len: nat, write: bool) returns (r: Option<nat>)
      requires TableValid()
      modifies this`freeHead, this`freeCount, this`owner, this`free, desc
      ensures TableValid()
      ensures r.None? <==> old(freeCount) == 0
      ensures r.None? ==> owner == old(owner) && free == old(free) && desc[..] == old(desc[..])
      ensures r.None? ==> freeHead == old(freeHead) && freeCount == old(freeCount)
      ensures r.Some? ==>
                && r.value == old(freeHead) && free == old(free)[..|old(free)| - 1] && Tops(old(free), 1) == [r.value]
                && Linked(desc[..], [r.value], [Buffer(addr, len, write)]) && HeldLoose(owner, [r.value], 0, 1)
                && r.value !in old(LooseSet()) && LooseSet() == old(LooseSet()) + {r.value}
      ensures Kept(old(desc[..]), desc[..], old(LooseSet()))
    {
      assert At(TABLE);
      r := AllocDesc();
      if r.Some? {
        var flags := if write then 0 | FLAG_WRITE else 0;
        SetDesc(r.value, Descriptor(addr, len, flags, 0));
      }
    }

    method AddBuffer(addr: nat, len: nat, write: bool) returns (r: Option<nat>)
      requires Valid()
      modifies this`freeHead, this`freeCount, this`availIdx, desc, availRing
      modifies this`owner, this`free, this`chains, this`bufs, this`phase, this`pushed
      ensures Valid() && LooseSet() == old(LooseSet())
      ensures r.None? <==> old(freeCount) == 0
      ensures r.None? ==> View() == old(View()) && Words() == old(Words())
      ensures r.Some? ==> View() == Offer(old(View()), [Buffer(addr, len, write)])
      ensures r.Some? ==> r.value == old(freeHead) && r.value !in old(chains)
      ensures Kept(old(desc[..]), desc[..], old(LooseSet()))
      ensures old(InTransit(View())) ==> InTransit(View())
    {
      r := FillOne(addr, len, write);
      if r.None? {
        return;
      }
      ghost var b := [Buffer(addr, len, write)];
      assert Elems([r.value]) == {r.value};
      Publish(r.value, old(View()), b, [r.value]);
      OfferKeepsTransit(old(View()), b);
    }

    /** One round of add_buffer_chain: takes a descriptor, fills it, links it to the last one. */
    method AppendDesc(buffers: seq<Buffer>, i: nat, prev: Option<nat>, ghost c: seq<nat>,
                      ghost d0: seq<Descriptor>, ghost held: set<nat>)
      returns (idx: nat)
      requires TableValid() && i < |buffers| && freeCount > 0
      requires LinkedSoFar(desc[..], c, buffers, i) && Distinct(c) && HeldLoose(owner, c, 0, i)
      requires c[i] == free[|free| - 1]
      requires Kept(d0, desc[..], held) && c[i] !in held && (i > 0 ==> c[i - 1] !in held)
      requires prev == (if i == 0 then None else Some(c[i - 1]))
      modifies this`freeHead, this`freeCount, this`owner, this`free, desc
      ensures TableValid() && idx == c[i] && free == old(free)[..|old(free)| - 1]
      ensures LinkedSoFar(desc[..], c, buffers, i + 1) && HeldLoose(owner, c, 0, i + 1)
      ensures c[i] !in old(LooseSet()) && LooseSet() == old(LooseSet()) + {c[i]}
      ensures Kept(d0, desc[..], held)
    {
      var r := AllocDesc();
      idx := r.value;
      var flags: bv16 := 0;
      if buffers[i].write {
        flags := flags | FLAG_WRITE;
      }
      if i < |buffers| - 1 {
        flags := flags | FLAG_NEXT;
      }
      var e := Descriptor(buffers[i].addr, buffers[i].len, flags, 0);
      LinkNext(desc[..], c, buffers, i, e);
      SetDesc(idx, e);
      if prev.Some? {
        assert At(i - 1);
        SetDesc(prev.value, desc[prev.value].(next := idx));
      }
    }

    method AddBufferChain(buffers: seq<Buffer>) returns (r: Option<nat>)
      requires Valid()
      modifies this`freeHead, this`freeCount, this`availIdx, desc, availRing
      modifies this`owner, this`free, this`chains, this`bufs, this`phase, this`pushed
      ensures Valid() && LooseSet() == old(LooseSet())
      ensures r.None? <==> buffers == [] || |buffers| > old(freeCount)
      ensures r.None? ==> View() == old(View()) && Words() == old(Words())
      ensures r.Some? ==> View() == Offer(old(View()), buffers)
      ensures r.Some? ==> r.value == old(freeHead) && r.value !in old(chains)
      ensures Kept(old(desc[..]), desc[..], old(LooseSet()))
      ensures old(InTransit(View())) ==> InTransit(View())
    {
      if |buffers| == 0 || |buffers| > freeCount {
        return None;
      }
      var head := LinkAll(buffers);
      Publish(head, old(View()), buffers, Tops(old(free), |buffers|));
      OfferKeepsTransit(old(View()), buffers);
      r := Some(head);
    }

    /** The first `i` buffers are in descriptors that the caller now holds beside those it held. */
    ghost predicate Linking(buffers: seq<Buffer>, c: seq<nat>, i: nat, free0: seq<nat>,
                            d0: seq<Descriptor>, held: set<nat>)
      reads this`owner, this`free, desc
    {
      forall j {:trigger At(j)} :: At(j) && j == LINKING ==>
        && |buffers| == |c| <= |free0| && i <= |c| && free == free0[..|free0| - i]
        && LinkedSoFar(desc[..], c, buffers, i) && HeldLoose(owner, c, 0, i)
        && LooseSet() == held + Elems(c[..i]) && held !! Elems(c[..i]) && Kept(d0, desc[..], held)
    }

    /** One round of add_buffer_chain. */
    method LinkOne(buffers: seq<Buffer>, i: nat, prev: Option<nat>, ghost c: seq<nat>, ghost free0: seq<nat>,
                   ghost d0: seq<Descriptor>, ghost held: set<nat>)
      returns (idx: nat)
      requires TableValid() && i < |buffers| == |c| <= |free0| && c == Tops(free0, |c|) && Distinct(c)
      requires Linking(buffers, c, i, free0, d0, held) && prev == (if i == 0 then None else Some(c[i - 1]))
      modifies this`freeHead, this`freeCount, this`owner, this`free, desc
      ensures TableValid() && idx == c[i] && Linking(buffers, c, i + 1, free0, d0, held)
    {
      assert At(LINKING);
      ElemsStep(c, i);
      assert i > 0 ==> c[i - 1] in Elems(c[..i]);
      NotHeld();
      idx := AppendDesc(buffers, i, prev, c, d0, held);
    }

    /** The descriptor at the head of the free list is held by nobody. */
    lemma NotHeld()
      requires TableValid() && free != []
      ensures free[|free| - 1] !in LooseSet()
    {
      assert At(TABLE);
      FreeAt(desc[..], owner, free, freeHead, |free| - 1);
    }

    /** The loop of add_buffer_chain: takes a descriptor for each buffer and links them. */
    method LinkAll(buffers: seq<Buffer>) returns (first: nat)
      requires TableValid() && 0 < |buffers| <= freeCount
      modifies this`freeHead, this`freeCount, this`owner, this`free, desc
      ensures TableValid() && free == old(free)[..|old(free)| - |buffers|]
      ensures |buffers| <= |old(free)| && first == old(freeHead) == Tops(old(free), |buffers|)[0]
      ensures var c := Tops(old(free), |buffers|);
              && Linked(desc[..], c, buffers) && HeldLoose(owner, c, 0, |c|) && Distinct(c)
              && LooseSet() == old(LooseSet()) + Elems(c) && old(LooseSet()) !! Elems(c)
      ensures Kept(old(desc[..]), desc[..], old(LooseSet()))
    {
      ghost var c := Tops(free, |buffers|);
      TopsFacts(c);
      first := LinkEach(buffers, c);
      assert At(LINKING);
      assert c[..|c|] == c;
    }

    lemma TopsFacts(c: seq<nat>)
      requires TableValid() && 0 < |c| <= |free| && c == Tops(free, |c|)
      ensures Distinct(c) && c[0] == freeHead
    {
      assert At(TABLE);
      TopsDistinct(desc[..], owner, free, freeHead, |c|);
    }

    method LinkEach(buffers: seq<Buffer>, ghost c: seq<nat>) returns (first: nat)
      requires TableValid() && 0 < |buffers| == |c| <= |free| && c == Tops(free, |c|) && Distinct(c)
      modifies this`freeHead, this`freeCount, this`owner, this`free, desc
      ensures TableValid() && first == c[0]
      ensures Linking(buffers, c, |c|, old(free), old(desc[..]), old(LooseSet()))
    {
      var head, prev := None, None;
      var i := 0;
      assert free[..|free| - 0] == free;
      while i < |buffers|
        modifies this`freeHead, this`freeCount, this`owner, this`free, desc
        invariant 0 <= i <= |buffers| && TableValid()
        invariant Linking(buffers, c, i, old(free), old(desc[..]), old(LooseSet()))
        invariant head == (if i == 0 then None else Some(c[0]))
        invariant prev == (if i == 0 then None else Some(c[i - 1]))
      {
        var idx := LinkOne(buffers, i, prev, c, old(free), old(desc[..]), old(LooseSet()));
        if head.None? {
          head := Some(idx);
        }
        prev := Some(idx);
        i := i + 1;
      }
      first := head.value;
    }

    /** The loop of free_chain, over the descriptors `c` the head leads through. */
    method FreeLinks(head: nat, ghost c: seq<nat>, ghost b: seq<Buffer>)
      requires TableValid() && Linked(desc[..], c, b) && Distinct(c) && head == c[0]
      requires HeldLoose(owner, c, 0, |c|)
      modifies this`freeHead, this`freeCount, this`owner, this`free, desc
      ensures TableValid() && free == old(free) + c
      ensures LooseSet() == old(LooseSet()) - Elems(c)
    {
      ghost var d0, p := desc[..], 0;
      var idx := head;
      while true
        invariant 0 <= p < |c| && idx == c[p]
        invariant TableValid() && free == old(free) + c[..p]
        invariant Untouched(desc[..], d0, c, p) && HeldLoose(owner, c, p, |c|)
        invariant LooseSet() == old(LooseSet()) - Elems(c[..p])
        decreases |c| - p
      {
        LinkAt(desc[..], d0, c, b, p);
        var d := desc[idx];
        FreeLink(idx, c, p, d0);
        if d.flags & FLAG_NEXT == 0 {
          assert c[..p + 1] == c;
          break;
        }
        idx := d.next;
        p := p + 1;
      }
    }

    /** Returns descriptor `idx`, the next one of the chain. */
    method FreeLink(idx: nat, ghost c: seq<nat>, ghost p: nat, ghost d0: seq<Descriptor>)
      requires TableValid() && p < |c| && idx == c[p] && Distinct(c)
      requires Untouched(desc[..], d0, c, p) && HeldLoose(owner, c, p, |c|)
      modifies this`freeHead, this`freeCount, this`owner, this`free, desc
      ensures TableValid() && free == old(free) + [c[p]] && c[..p + 1] == c[..p] + [c[p]]
      ensures Untouched(desc[..], d0, c, p + 1) && HeldLoose(owner, c, p + 1, |c|)
      ensures LooseSet() == old(LooseSet()) - {idx} && Elems(c[..p + 1]) == Elems(c[..p]) + {idx}
    {
      assert At(p);
      ElemsStep(c, p);
      FreeDesc(idx);
    }

    ghost method Detach(head: nat)
      requires TableValid() && head in chains
      modifies this`owner, this`chains, this`bufs
      ensures TableValid() && chains == old(chains) - {head} && bufs == old(bufs) - {head}
      ensures var c := old(chains)[head];
              && Linked(desc[..], c, old(bufs)[head]) && Distinct(c) && c[0] == head
              && HeldLoose(owner, c, 0, |c|)
              && LooseSet() == old(LooseSet()) + Elems(c) && old(LooseSet()) !! Elems(c)
    {
      assert At(TABLE);
      ChainAt(desc[..], owner, chains, bufs, head);
      SplitChain(desc[..], owner, free, freeHead, chains, bufs, head);
      ReleaseLoose(owner, chains[head]);
      owner := Release(owner, chains[head]);
      chains, bufs := chains - {head}, bufs - {head};
    }

    method FreeChain(head: nat)
      requires Valid() && head in chains
      modifies this`freeHead, this`freeCount, desc
      modifies this`owner, this`free, this`chains, this`bufs, this`phase
      ensures Valid() && LooseSet() == old(LooseSet())
      ensures View() == Reclaim(old(View()), head)
      ensures old(InTransit(View())) && old(phase[head]) == Returned ==> InTransit(View())
    {
      ghost var c, b := chains[head], bufs[head];
      phase := phase - {head};
      Detach(head);
      FreeLinks(head, c, b);
      if old(InTransit(View())) && old(phase[head]) == Returned {
        ReclaimKeepsTransit(old(View()), head);
      }
    }

    lemma Bounded()
      requires Valid() && InTransit(View())
      ensures taken <= |pushed| <= taken + size && popped <= |posted| <= popped + size
    {
      assert At(TABLE);
      forall h | h in phase ensures h < size {
        ChainAt(desc[..], owner, chains, bufs, h);
      }
      OutstandingBounded(phase, pushed, taken, posted, popped, size);
    }

    /** The slot a 16-bit counter points at, read at unbounded position `k`. */
    lemma Slot<T>(ring: seq<T>, hist: seq<T>, k: nat)
      requires Layout() && |ring| == size && Window(ring, hist) && k < |hist| <= k + size
      ensures 0 <= (k % U16) % size < size && ring[(k % U16) % size] == hist[k]
      ensures (k % U16 + 1) % U16 == (k + 1) % U16
    {
      SlotOf(k, size);
      ModStep(k, U16);
      assert At(k);
    }

    /** Environment step: the device takes the next avail entry, in order. */
    method DeviceTake() returns (r: Option<nat>)
      requires Valid() && InTransit(View())
      modifies this`deviceIdx, this`taken, this`phase
      ensures Valid() && InTransit(View())
      ensures r.None? <==> old(taken) == |pushed|
      ensures r.None? ==> View() == old(View()) && Words() == old(Words())
      ensures r.Some? ==> r.value == pushed[old(taken)] && r.value in chains && View() == Take(old(View()))
    {
      Bounded();
      SameResidue(taken, |pushed|, size);
      if deviceIdx == availIdx {
        return None;
      }
      TakeKeepsTransit(View());
      Slot(availRing[..], pushed, taken);
      r := Some(availRing[deviceIdx % size]);
      Advance(r.value);
    }

    method Advance(head: nat)
      requires Valid() && taken < |pushed| <= taken + size && head in phase
      requires (deviceIdx + 1) % U16 == (taken + 1) % U16
      modifies this`deviceIdx, this`taken, this`phase
      ensures Valid() && View() == old(View()).(taken := old(taken) + 1, phase := old(phase)[head := InDevice])
    {
      deviceIdx := (deviceIdx + 1) % U16;
      taken, phase := taken + 1, phase[head := InDevice];
    }

    method WriteUsed(e: UsedElem)
      requires UsedValid()
      modifies this`usedIdx, this`posted, usedRing
      ensures UsedValid() && posted == old(posted) + [e]
    {
      SlotOf(|posted|, size);
      PushKeepsWindow(usedRing[..], posted, e);
      usedRing[usedIdx % size] := e;
      assert usedRing[..] == old(usedRing[..])[|posted| % size := e];
      ModStep(|posted|, U16);
      usedIdx := (usedIdx + 1) % U16;
      posted := posted + [e];
    }

    /** Environment step: the device reports a chain it holds as done. */
    method DevicePost(head: nat, len: nat)
      requires Valid() && InTransit(View()) && head in phase && phase[head] == InDevice
      modifies this`usedIdx, this`posted, this`phase, usedRing
      ensures Valid() && InTransit(View())
      ensures View() == Post(old(View()), UsedElem(head, len))
    {
      PostKeepsTransit(View(), UsedElem(head, len));
      phase := phase[head := Posted(|posted|)];
      WriteUsed(UsedElem(head, len));
    }

    method PopUsed() returns (r: Option<UsedElem>)
      requires Valid() && InTransit(View())
      modifies this`lastUsedIdx, this`popped, this`phase
      ensures Valid() && InTransit(View())
      ensures r.None? <==> old(popped) == |posted|
      ensures r.None? ==> View() == old(View()) && Words() == old(Words())
      ensures r.Some? ==> r.value == posted[old(popped)] && r.value.id in chains && View() == Pop(old(View()))
    {
      Bounded();
      SameResidue(popped, |posted|, size);
      if lastUsedIdx == usedIdx {
        return None;
      }
      PopKeepsTransit(View());
      Slot(usedRing[..], posted, popped);
      var elem := usedRing[lastUsedIdx % size];
      Consume(elem.id);
      r := Some(elem);
    }

    method Consume(head: nat)
      requires Valid() && popped < |posted| <= popped + size && head in phase
      requires (lastUsedIdx + 1) % U16 == (popped + 1) % U16
      modifies this`lastUsedIdx, this`popped, this`phase
      ensures Valid() && View() == old(View()).(popped := old(popped) + 1, phase := old(phase)[head := Returned])
    {
      lastUsedIdx := (lastUsedIdx + 1) % U16;
      popped, phase := popped + 1, phase[head := Returned];
    }
  }
}
