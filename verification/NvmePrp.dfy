/** Physical region pages (PRP): how the driver describes a data buffer to an NVMe
    controller, against how the controller reads the description (NVM Express Base
    Specification 1.4, section 4.3). */
module NvmePrp {
  import opened Common

  /** Eight-byte entries in a page of a PRP list. */
  const ENTRIES: nat := 512

  // Some definitions below are closed: a proof step opens one of them by `At` of its number.
  const DECODES := 0
  const EXPECTS := 1
  const DATA := 2
  const FOLLOWS := 3
  const MEET := 4
  const FIRST := 5
  const JOIN := 6
  const SPREAD := 7
  const NEXT := 8

  datatype Error = ENOMEM | EINVAL

  datatype Prp = Prp(prp1: nat, prp2: nat, list: Option<nat>)

  datatype Segment = Segment(phys: nat, len: nat)

  /** Physical memory, by the address of the eight-byte word. */
  type Memory = map<nat, nat>

  function Word(mem: Memory, a: nat): nat { if a in mem then mem[a] else 0 }

  // ---------------------------------------------------------------- the controller

  /** The list entries a controller reads: `n` of them, starting at index `k` of the list
      page at `p`; the last entry of a page leads to the next page when more are needed. */
  function ReadList(mem: Memory, p: nat, k: nat, n: nat): (r: seq<nat>)
    ensures |r| == n
    decreases n, k
  {
    if n == 0 then []
    else if k == ENTRIES - 1 && n > 1 then ReadList(mem, Word(mem, p + 8 * k), 0, n)
    else [Word(mem, p + 8 * k)] + ReadList(mem, p, k + 1, n - 1)
  }

  /** How many pages `length` bytes touch that start at an offset into a page. */
  function Touched(offset: nat, length: nat): nat { (offset + length + PAGE - 1) / PAGE }

  /** The PRP entries a controller uses for a transfer of `length` bytes. */
  function ReadEntries(prp1: nat, prp2: nat, mem: Memory, length: nat): seq<nat> {
    var rest := length - Min(PAGE - prp1 % PAGE, length);
    if rest == 0 then [prp1]
    else if rest <= PAGE then [prp1, prp2]
    else [prp1] + ReadList(mem, prp2, 0, (rest + PAGE - 1) / PAGE)
  }

  /** The addresses of the bytes these entries stand for, each entry up to its page's end. */
  function Spread(entries: seq<nat>, length: nat): (bytes: seq<nat>)
    ensures |bytes| <= length
  {
    if entries == [] || length == 0 then []
    else
      var c := Min(PAGE - entries[0] % PAGE, length);
      Range(entries[0], c) + Spread(entries[1..], length - c)
  }

  /** Only the first entry may have an offset into its page. */
  predicate Aligned(entries: seq<nat>) {
    forall i {:trigger entries[i]} :: 0 < i < |entries| ==> entries[i] % PAGE == 0
  }

  /** The addresses a controller transfers for a description; it refuses the command if an
      entry after the first has an offset. */
  function Transferred(p: Prp, mem: Memory, length: nat): Option<seq<nat>> {
    var read := ReadEntries(p.prp1, p.prp2, mem, length);
    if Aligned(read) then Some(Spread(read, length)) else None
  }

  function Range(a: nat, n: nat): (r: seq<nat>)
    ensures |r| == n && forall i :: 0 <= i < n ==> r[i] == a + i
  {
    seq(n, i => a + i)
  }

  // ---------------------------------------------------------------- the driver

  /** One entry for each page that `n` bytes from `base` touch. */
  function Pages(base: nat, n: nat): (r: seq<nat>)
    ensures n > 0 ==> |r| > 0 && r[0] == base
    ensures n == 0 ==> r == []
    decreases n
  {
    if n == 0 then []
    else var c := Min(PAGE - base % PAGE, n); [base] + Pages(base + c, n - c)
  }

  lemma {:induction false} PagesFrom(base: nat, n: nat)
    requires base % PAGE == 0
    ensures |Pages(base, n)| == (n + PAGE - 1) / PAGE
    ensures forall i :: 0 <= i < |Pages(base, n)| ==> Pages(base, n)[i] == base + i * PAGE
    decreases n
  {
    if n > 0 {
      var c := Min(PAGE, n);
      if c == PAGE {
        PagesFrom(base + c, n - c);
      } else {
        assert Pages(base + c, 0) == [];
      }
    }
  }

  /** The entries after the first start on page boundaries, one page apart. */
  lemma PagesAt(base: nat, n: nat)
    requires n > 0
    ensures var c := Min(PAGE - base % PAGE, n);
            && |Pages(base, n)| == 1 + (n - c + PAGE - 1) / PAGE
            && forall i :: 0 < i < |Pages(base, n)| ==> Pages(base, n)[i] == base + c + (i - 1) * PAGE
    ensures Aligned(Pages(base, n))
  {
    var c := Min(PAGE - base % PAGE, n);
    if c < n {
      PagesFrom(base + c, n - c);
    }
  }

  /** Where the part of a run in its first page ends. */
  lemma FirstPart(base: nat, n: nat)
    requires n > 0
    ensures var c := Min(PAGE - base % PAGE, n);
            && 0 < c <= n
            && (c < PAGE - base % PAGE <==> c == n && (base + n) % PAGE != 0 && n < PAGE - base % PAGE)
            && (c == PAGE - base % PAGE <==> (base + c) % PAGE == 0)
  {
  }

  /** `c` bytes of a run of `n` lie in its first page, and of a transfer of `length` too. */
  predicate InFirst(base: nat, n: nat, length: nat, c: nat) {
    c == Min(PAGE - base % PAGE, n) == Min(PAGE - base % PAGE, length)
  }

  lemma Stretch(base: nat, n: nat, length: nat) returns (c: nat)
    requires 0 < n <= length && ((base + n) % PAGE == 0 || length == n)
    ensures InFirst(base, n, length, c) && 0 < c <= n
    ensures (base + c + (n - c)) % PAGE == 0 || length - c == n - c
  {
    FirstPart(base, n);
    c := Min(PAGE - base % PAGE, n);
    assert base + c + (n - c) == base + n;
  }

  lemma StretchPast(base: nat, n: nat, length: nat) returns (c: nat)
    requires 0 < n < length && (base + n) % PAGE != 0
    ensures 0 < c == PAGE - base % PAGE && c != n
    ensures c < n ==> InFirst(base, n, length, c) && (base + c + (n - c)) % PAGE != 0
  {
    FirstPart(base, n);
    c := PAGE - base % PAGE;
    assert c < n ==> base + c + (n - c) == base + n;
  }

  lemma PagesStep(base: nat, n: nat, length: nat, c: nat)
    requires 0 < n <= length && InFirst(base, n, length, c)
    ensures c <= n && Pages(base, n) == [base] + Pages(base + c, n - c)
  {
  }

  lemma SpreadCons(a: nat, rest: seq<nat>, length: nat, c: nat)
    requires 0 < length && c == Min(PAGE - a % PAGE, length)
    ensures Spread([a] + rest, length) == Range(a, c) + Spread(rest, length - c)
  {
    assert ([a] + rest)[1..] == rest;
  }

  lemma SpreadStep(base: nat, n: nat, c: nat, more: seq<nat>, length: nat)
    requires 0 < n <= length && InFirst(base, n, length, c)
    ensures c <= n
    ensures Spread(Pages(base, n) + more, length) == Range(base, c) + Spread(Pages(base + c, n - c) + more, length - c)
  {
    PagesStep(base, n, length, c);
    var rest := Pages(base + c, n - c);
    assert [base] + rest + more == [base] + (rest + more);
    SpreadCons(base, rest + more, length, c);
  }

  lemma SpreadFirst(base: nat, n: nat, more: seq<nat>, length: nat)
    requires 0 < n <= length
    ensures Range(base, Min(PAGE - base % PAGE, length)) <= Spread(Pages(base, n) + more, length)
  {
    assert (Pages(base, n) + more)[0] == base;
  }

  /** Entries for a run of bytes spread to exactly these bytes, and the others follow. */
  ghost predicate Spreads(base: nat, n: nat, more: seq<nat>, length: nat)
    requires n <= length
  {
    forall j {:trigger At(j)} :: At(j) && j == SPREAD ==>
      Spread(Pages(base, n) + more, length) == Range(base, n) + Spread(more, length - n)
  }

  lemma {:induction false} RunSpreads(base: nat, n: nat, more: seq<nat>, length: nat)
    requires n <= length && ((base + n) % PAGE == 0 || length == n || n == 0)
    ensures Spreads(base, n, more, length)
    decreases n
  {
    if n == 0 {
      SpreadNothing(base, more, length);
    } else {
      var c := Stretch(base, n, length);
      RunSpreads(base + c, n - c, more, length - c);
      SpreadRun(base, n, c, more, length);
    }
  }

  /** Entries for a run of bytes that ends on a page boundary, or ends the transfer, spread
      to exactly these bytes. */
  lemma SpreadPages(base: nat, n: nat, more: seq<nat>, length: nat)
    requires n <= length && ((base + n) % PAGE == 0 || length == n || n == 0)
    ensures Spread(Pages(base, n) + more, length) == Range(base, n) + Spread(more, length - n)
  {
    RunSpreads(base, n, more, length);
    assert At(SPREAD);
  }

  lemma SpreadNothing(base: nat, more: seq<nat>, length: nat)
    ensures Spreads(base, 0, more, length)
  {
    assert Pages(base, 0) + more == more && Range(base, 0) + Spread(more, length) == Spread(more, length);
  }

  lemma SpreadRun(base: nat, n: nat, c: nat, more: seq<nat>, length: nat)
    requires 0 < n <= length && InFirst(base, n, length, c) && c <= n && Spreads(base + c, n - c, more, length - c)
    ensures Spreads(base, n, more, length)
  {
    assert At(SPREAD);
    SpreadStep(base, n, c, more, length);
    assert length - c - (n - c) == length - n;
    Rejoin(base, c, n, Spread(more, length - n));
  }

  lemma Rejoin(base: nat, c: nat, n: nat, more: seq<nat>)
    requires c <= n
    ensures Range(base, c) + (Range(base + c, n - c) + more) == Range(base, n) + more
  {
  }

  /** The entries stand, behind the run, for the byte that follows it. */
  ghost predicate Passes(base: nat, n: nat, more: seq<nat>, length: nat) {
    forall j {:trigger At(j)} :: At(j) && j == SPREAD ==>
      var bytes := Spread(Pages(base, n) + more, length); |bytes| > n && bytes[n] == base + n
  }

  lemma {:induction false} RunPasses(base: nat, n: nat, more: seq<nat>, length: nat)
    requires 0 < n < length && (base + n) % PAGE != 0
    ensures Passes(base, n, more, length)
    decreases n
  {
    var c := StretchPast(base, n, length);
    if n < c {
      PassFirst(base, n, c, more, length);
    } else {
      RunPasses(base + c, n - c, more, length - c);
      PassStep(base, n, c, more, length);
    }
  }

  lemma PassFirst(base: nat, n: nat, c: nat, more: seq<nat>, length: nat)
    requires 0 < n < length && n < c == PAGE - base % PAGE
    ensures Passes(base, n, more, length)
  {
    SpreadFirst(base, n, more, length);
    assert Range(base, Min(c, length))[n] == base + n;
  }

  lemma PassStep(base: nat, n: nat, c: nat, more: seq<nat>, length: nat)
    requires 0 < c < n < length && InFirst(base, n, length, c) && Passes(base + c, n - c, more, length - c)
    ensures Passes(base, n, more, length)
  {
    assert At(SPREAD);
    SpreadStep(base, n, c, more, length);
    Behind(Range(base, c), Spread(Pages(base + c, n - c) + more, length - c), n);
  }

  /** Entries for a run that ends inside a page spread past it. */
  lemma SpreadPast(base: nat, n: nat, more: seq<nat>, length: nat)
    requires 0 < n < length && (base + n) % PAGE != 0
    ensures var bytes := Spread(Pages(base, n) + more, length); |bytes| > n && bytes[n] == base + n
  {
    RunPasses(base, n, more, length);
    assert At(SPREAD);
  }

  lemma Behind(a: seq<nat>, b: seq<nat>, n: nat)
    requires |a| <= n < |a| + |b|
    ensures (a + b)[n] == b[n - |a|]
  {
  }

  // ---------------------------------------------------------------- lists in memory

  /** Memory with the entries written from `at` on, eight bytes each. */
  function Store(mem: Memory, at: nat, entries: seq<nat>): Memory {
    if entries == [] then mem
    else
      var n := |entries| - 1;
      Store(mem, at, entries[..n])[at + 8 * n := entries[n]]
  }

  lemma {:induction false} StoreWord(mem: Memory, at: nat, entries: seq<nat>, i: nat)
    requires i < |entries|
    ensures Word(Store(mem, at, entries), at + 8 * i) == entries[i]
  {
    var n := |entries| - 1;
    if i < n {
      StoreWord(mem, at, entries[..n], i);
    }
  }

  lemma {:induction false} StoreElsewhere(mem: Memory, at: nat, entries: seq<nat>, a: nat)
    requires a < at || at + 8 * |entries| <= a
    ensures Word(Store(mem, at, entries), a) == Word(mem, a)
  {
    if entries != [] {
      StoreElsewhere(mem, at, entries[..|entries| - 1], a);
    }
  }

  /** Up to the end of the page a controller reads what was stored. */
  lemma {:induction false} ListRead(mem: Memory, at: nat, entries: seq<nat>, k: nat, n: nat)
    requires k + n <= |entries| && k + n <= ENTRIES
    ensures ReadList(Store(mem, at, entries), at, k, n) == entries[k..k + n]
    decreases n
  {
    if n > 0 {
      ListRead(mem, at, entries, k + 1, n - 1);
      StoreWord(mem, at, entries, k);
      assert entries[k..k + n] == [entries[k]] + entries[k + 1..k + n];
    }
  }

  /** One entry too many: the controller follows the last entry of the page as a link. */
  lemma {:induction false} ListOverrun(mem: Memory, at: nat, entries: seq<nat>, k: nat, n: nat)
    requires k < ENTRIES < k + n && ENTRIES <= |entries|
    ensures var mem' := Store(mem, at, entries);
            ReadList(mem', at, k, n) ==
            entries[k..ENTRIES - 1] + ReadList(mem', entries[ENTRIES - 1], 0, n - (ENTRIES - 1 - k))
    decreases ENTRIES - k
  {
    var mem' := Store(mem, at, entries);
    StoreWord(mem, at, entries, k);
    var rest := ReadList(mem', entries[ENTRIES - 1], 0, n - (ENTRIES - 1 - k));
    if k < ENTRIES - 1 {
      ListOverrun(mem, at, entries, k + 1, n - 1);
      ConsSlice(entries, k, ENTRIES - 1, rest);
    } else {
      assert ReadList(mem', at, k, n) == rest;
      assert entries[k..k] + rest == rest;
    }
  }

  lemma ConsSlice(entries: seq<nat>, k: nat, e: nat, rest: seq<nat>)
    requires k < e <= |entries|
    ensures [entries[k]] + (entries[k + 1..e] + rest) == entries[k..e] + rest
  {
    assert entries[k..e] == [entries[k]] + entries[k + 1..e];
  }

  /** The description holds the entries: one or two in the command, more in a list. */
  ghost predicate Describes(p: Prp, mem: Memory, mem': Memory, entries: seq<nat>, alloc: Option<nat>) {
    && |entries| > 0 && p.prp1 == entries[0]
    && (|entries| == 1 ==> p.prp2 == 0)
    && (|entries| == 2 ==> p.prp2 == entries[1])
    && (|entries| <= 2 ==> p.list == None && mem' == mem)
    && (|entries| > 2 ==>
          alloc.Some? && p.prp2 == alloc.value && p.list == alloc && mem' == Store(mem, alloc.value, entries[1..]))
  }

  /** The page count, as a controller works it out. */
  lemma TouchedIs(offset: nat, length: nat)
    requires offset < PAGE && length > 0
    ensures var rest := length - Min(PAGE - offset, length);
            && Touched(offset, length) == 1 + (rest + PAGE - 1) / PAGE
            && (Touched(offset, length) == 1 <==> rest == 0)
            && (Touched(offset, length) <= 2 <==> rest <= PAGE)
  {
  }

  /** What a controller reads of a description with entries for at least `k` pages: the first
      `k` entries, but the address of the list in place of the second when it expects only
      two, and beyond one list page the 513th entry as a link. */
  function Reads(entries: seq<nat>, alloc: Option<nat>, mem: Memory, k: nat): seq<nat>
    requires 0 < k <= |entries| && (|entries| > 2 ==> alloc.Some?)
  {
    if k == 2 && |entries| > 2 then [entries[0], alloc.value]
    else if k <= ENTRIES + 1 then entries[..k]
    else entries[..ENTRIES] + ReadList(mem, entries[ENTRIES], 0, k - ENTRIES)
  }

  lemma ReadsBack(p: Prp, mem: Memory, mem': Memory, entries: seq<nat>, alloc: Option<nat>, length: nat, k: nat)
    requires Describes(p, mem, mem', entries, alloc) && length > 0
    requires k == Touched(entries[0] % PAGE, length) && 0 < k <= |entries|
    ensures ReadEntries(p.prp1, p.prp2, mem', length) == Reads(entries, alloc, mem', k)
  {
    TouchedIs(entries[0] % PAGE, length);
    if k == 1 {
      assert entries[..1] == [p.prp1];
    } else if k == 2 {
      assert |entries| == 2 ==> entries[..2] == [p.prp1, p.prp2];
    } else {
      ListReadsBack(mem, alloc.value, entries, entries[1..], k);
    }
  }

  lemma ListReadsBack(mem: Memory, at: nat, entries: seq<nat>, tail: seq<nat>, k: nat)
    requires 2 < k <= |entries| && tail == entries[1..]
    ensures var mem' := Store(mem, at, tail);
            [entries[0]] + ReadList(mem', at, 0, k - 1) == Reads(entries, Some(at), mem', k)
  {
    if k <= ENTRIES + 1 {
      ShortList(mem, at, entries, tail, k);
    } else {
      LongList(mem, at, entries, tail, k);
    }
  }

  lemma ShortList(mem: Memory, at: nat, entries: seq<nat>, tail: seq<nat>, k: nat)
    requires 2 < k <= ENTRIES + 1 && k <= |entries| && tail == entries[1..]
    ensures [entries[0]] + ReadList(Store(mem, at, tail), at, 0, k - 1) == entries[..k]
  {
    ListRead(mem, at, tail, 0, k - 1);
    ShortTail(entries, tail, k, tail[0..k - 1]);
  }

  lemma ShortTail(entries: seq<nat>, tail: seq<nat>, k: nat, part: seq<nat>)
    requires 0 < k <= |entries| && tail == entries[1..] && part == tail[0..k - 1]
    ensures [entries[0]] + part == entries[..k]
  {
  }

  lemma LongList(mem: Memory, at: nat, entries: seq<nat>, tail: seq<nat>, k: nat)
    requires ENTRIES + 1 < k <= |entries| && tail == entries[1..]
    ensures var mem' := Store(mem, at, tail);
            [entries[0]] + ReadList(mem', at, 0, k - 1) ==
            entries[..ENTRIES] + ReadList(mem', entries[ENTRIES], 0, k - ENTRIES)
  {
    var link := entries[ENTRIES];
    assert tail[ENTRIES - 1] == link && k - 1 - (ENTRIES - 1) == k - ENTRIES;
    ListOverrun(mem, at, tail, 0, k - 1);
    LongTail(entries, tail, ReadList(Store(mem, at, tail), link, 0, k - ENTRIES));
  }

  lemma LongTail(entries: seq<nat>, tail: seq<nat>, more: seq<nat>)
    requires |entries| > ENTRIES + 1 && tail == entries[1..]
    ensures [entries[0]] + (tail[0..ENTRIES - 1] + more) == entries[..ENTRIES] + more
  {
    assert entries[..ENTRIES] == [entries[0]] + tail[0..ENTRIES - 1];
  }

  // ---------------------------------------------------------------- one buffer

  /** The entries a controller reads are right: no misplaced offset, and these bytes. */
  ghost predicate Decodes(entries: seq<nat>, length: nat, bytes: seq<nat>) {
    forall i {:trigger At(i)} :: At(i) && i == DECODES ==> Aligned(entries) && Spread(entries, length) == bytes
  }

  lemma PagesDecode(base: nat, length: nat)
    requires length > 0
    ensures Decodes(Pages(base, length), length, Range(base, length))
    ensures |Pages(base, length)| == Touched(base % PAGE, length)
  {
    PagesAt(base, length);
    TouchedIs(base % PAGE, length);
    SpreadPages(base, length, [], length);
    assert Pages(base, length) + [] == Pages(base, length);
  }

  /** With at most one list page a controller transfers exactly the buffer. */
  lemma BufferDecodes(p: Prp, mem: Memory, mem': Memory, base: nat, length: nat, alloc: Option<nat>)
    requires length > 0 && Describes(p, mem, mem', Pages(base, length), alloc) && |Pages(base, length)| - 1 <= ENTRIES
    ensures Transferred(p, mem', length) == Some(Range(base, length))
  {
    assert At(DECODES);
    var entries := Pages(base, length);
    PagesDecode(base, length);
    ReadsBack(p, mem, mem', entries, alloc, length, |entries|);
    assert entries[..|entries|] == entries;
  }

  /** With more, exactly when the buffer's page at the 513th entry happens to hold the rest
      of the list. */
  lemma LongListDecodes(p: Prp, mem: Memory, mem': Memory, base: nat, length: nat, alloc: Option<nat>)
    requires length > 0 && Describes(p, mem, mem', Pages(base, length), alloc) && |Pages(base, length)| - 1 > ENTRIES
    ensures var entries := Pages(base, length);
            Transferred(p, mem', length) == Some(Range(base, length)) <==>
            ReadList(mem', entries[ENTRIES], 0, |entries| - ENTRIES) == entries[ENTRIES..]
  {
    var entries := Pages(base, length);
    var strayed := ReadList(mem', entries[ENTRIES], 0, |entries| - ENTRIES);
    LongListReads(p, mem, mem', base, length, alloc, entries, strayed);
    StraysUnless(base, length, entries, strayed);
  }

  lemma LongListReads(p: Prp, mem: Memory, mem': Memory, base: nat, length: nat, alloc: Option<nat>,
                      entries: seq<nat>, strayed: seq<nat>)
    requires length > 0 && entries == Pages(base, length) && Describes(p, mem, mem', entries, alloc)
    requires |entries| - 1 > ENTRIES && strayed == ReadList(mem', entries[ENTRIES], 0, |entries| - ENTRIES)
    ensures Transferred(p, mem', length) == Some(Range(base, length)) <==>
            Decodes(entries[..ENTRIES] + strayed, length, Range(base, length))
  {
    PagesDecode(base, length);
    ReadsBack(p, mem, mem', entries, alloc, length, |entries|);
    RightIff(p, mem', length, entries[..ENTRIES] + strayed, Range(base, length));
  }

  lemma StraysUnless(base: nat, length: nat, entries: seq<nat>, strayed: seq<nat>)
    requires length > 0 && entries == Pages(base, length) && |entries| > ENTRIES && |strayed| == |entries| - ENTRIES
    ensures Decodes(entries[..ENTRIES] + strayed, length, Range(base, length)) <==> strayed == entries[ENTRIES..]
  {
    if strayed == entries[ENTRIES..] {
      assert entries[..ENTRIES] + strayed == entries;
      PagesDecode(base, length);
    }
    if Decodes(entries[..ENTRIES] + strayed, length, Range(base, length)) {
      OnlyPages(base, length, entries[..ENTRIES] + strayed);
      assert strayed == (entries[..ENTRIES] + strayed)[ENTRIES..];
    }
  }

  /** No other entries, as many as expected, decode to a buffer. */
  lemma {:induction false} OnlyPages(base: nat, n: nat, entries: seq<nat>)
    requires n > 0 && |entries| == |Pages(base, n)| && Decodes(entries, n, Range(base, n))
    ensures entries == Pages(base, n)
    decreases n
  {
    var c := Min(PAGE - base % PAGE, n);
    OnlyFirst(base, n, entries);
    if c < n {
      OnlyRest(base, n, entries, c, entries[1..]);
      OnlyPages(base + c, n - c, entries[1..]);
      assert entries == [base] + entries[1..];
    } else {
      assert entries == [base];
    }
  }

  lemma OnlyFirst(base: nat, n: nat, entries: seq<nat>)
    requires n > 0 && |entries| == |Pages(base, n)| && Decodes(entries, n, Range(base, n))
    ensures entries != [] && entries[0] == base
  {
    assert At(DECODES);
    SpreadStart(entries, n);
    assert Range(base, n)[0] == base;
  }

  lemma OnlyRest(base: nat, n: nat, entries: seq<nat>, c: nat, rest: seq<nat>)
    requires 0 < c == PAGE - base % PAGE < n && entries != [] && entries[0] == base && rest == entries[1..]
    requires |entries| == |Pages(base, n)| && Decodes(entries, n, Range(base, n))
    ensures |rest| == |Pages(base + c, n - c)| && Decodes(rest, n - c, Range(base + c, n - c))
  {
    assert At(DECODES);
    assert Spread(rest, n - c) == Range(base, n)[c..];
    assert Range(base, n)[c..] == Range(base + c, n - c);
  }

  lemma SpreadStart(entries: seq<nat>, length: nat)
    requires entries != [] && length > 0
    ensures Spread(entries, length) != [] && Spread(entries, length)[0] == entries[0]
  {
  }

  /** The description of a buffer that needs a list, the list being at `at`. */
  function Listed(base: nat, at: nat): Prp { Prp(base, at, Some(at)) }

  /** Whatever memory holds, and at whichever page-aligned address the list is: the
      description of a buffer is right if and only if its list fits one page. */
  lemma WhenListsDecode(base: nat, length: nat)
    requires |Pages(base, length)| > 2
    ensures (forall mem: Memory, at: nat {:trigger Store(mem, at, Pages(base, length)[1..])} :: at % PAGE == 0 ==>
               Transferred(Listed(base, at), Store(mem, at, Pages(base, length)[1..]), length) ==
               Some(Range(base, length)))
            <==> |Pages(base, length)| - 1 <= ENTRIES
  {
    var entries := Pages(base, length);
    if |entries| - 1 <= ENTRIES {
      forall mem: Memory, at: nat
        ensures Transferred(Listed(base, at), Store(mem, at, entries[1..]), length) == Some(Range(base, length))
      {
        BufferDecodes(Listed(base, at), mem, Store(mem, at, entries[1..]), base, length, Some(at));
      }
    } else {
      var at := (base + length) * PAGE;
      assert at % PAGE == 0 && at >= base + length;
      LongListFails(base, length, at);
      assert Store(map[], at, entries[1..]) == Store(map[], at, entries[1..]);
    }
  }

  /** For a longer list, wherever it is behind the buffer: with all other words zero, the
      controller is led to address zero. */
  lemma LongListFails(base: nat, length: nat, at: nat)
    requires |Pages(base, length)| - 1 > ENTRIES && at % PAGE == 0 && at >= base + length
    ensures Transferred(Listed(base, at), Store(map[], at, Pages(base, length)[1..]), length) !=
            Some(Range(base, length))
  {
    var entries := Pages(base, length);
    var mem' := Store(map[], at, entries[1..]);
    LinkInside(base, length, entries);
    StoreElsewhere(map[], at, entries[1..], entries[ENTRIES]);
    LongListDecodes(Listed(base, at), map[], mem', base, length, Some(at));
    ReadsZero(mem', entries[ENTRIES], |entries| - ENTRIES);
  }

  /** What is taken for a link lies in the buffer, and not at address zero. */
  lemma LinkInside(base: nat, length: nat, entries: seq<nat>)
    requires entries == Pages(base, length) && |entries| - 1 > ENTRIES
    ensures 0 < entries[ENTRIES] < base + length
  {
    PagesAt(base, length);
  }

  lemma ReadsZero(mem: Memory, p: nat, n: nat)
    requires n > 1 && Word(mem, p) == 0
    ensures ReadList(mem, p, 0, n)[0] == 0
  {
  }

  method FromPhys(base: nat, length: nat, alloc: Option<nat>, mem: Memory)
    returns (r: Result<Prp, Error>, mem': Memory)
    requires alloc.Some? ==> alloc.value % PAGE == 0
    ensures length == 0 ==> r == Ok(Prp(0, 0, None)) && mem' == mem
    ensures r.Err? <==> |Pages(base, length)| > 2 && alloc.None?
    ensures r.Err? ==> r.error == ENOMEM && mem' == mem
    ensures r.Ok? && length > 0 ==> Describes(r.value, mem, mem', Pages(base, length), alloc)
    ensures r.Ok? && length > 0 && |Pages(base, length)| - 1 <= ENTRIES ==>
              Transferred(r.value, mem', length) == Some(Range(base, length))
  {
    if length == 0 {
      return Ok(Prp(0, 0, None)), mem;
    }
    var pageOffset := base % PAGE;
    var first := Min(PAGE - pageOffset, length);
    var remaining := length - first;
    PagesAt(base, length);
    if remaining == 0 {
      r, mem' := Ok(Prp(base, 0, None)), mem;
    } else if remaining <= PAGE {
      r, mem' := Ok(Prp(base, base + first, None)), mem;
    } else {
      r, mem' := BuildPrpList(base, first, length, alloc, mem);
    }
    if r.Ok? && |Pages(base, length)| - 1 <= ENTRIES {
      BufferDecodes(r.value, mem, mem', base, length, alloc);
    }
  }

  method BuildPrpList(base: nat, first: nat, length: nat, alloc: Option<nat>, mem: Memory)
    returns (r: Result<Prp, Error>, mem': Memory)
    requires first == PAGE - base % PAGE && first + PAGE < length
    ensures r.Err? <==> alloc.None?
    ensures r.Err? ==> r.error == ENOMEM && mem' == mem
    ensures r.Ok? ==> Describes(r.value, mem, mem', Pages(base, length), alloc)
  {
    var remaining := length - first;
    var count := (remaining + PAGE - 1) / PAGE;
    if alloc.None? {
      return Err(ENOMEM), mem;
    }
    var list := alloc.value;
    PagesAt(base, length);
    ghost var entries := Pages(base, length)[1..];
    mem' := mem;
    var current, i := base + first, 0;
    while i < count
      invariant 0 <= i <= count == |entries| && current == base + first + i * PAGE
      invariant mem' == Store(mem, list, entries[..i])
    {
      assert entries[..i + 1][..i] == entries[..i];
      mem' := mem'[list + 8 * i := current];
      current := current + PAGE;
      i := i + 1;
    }
    assert entries[..i] == entries;
    r := Ok(Prp(base, list, Some(list)));
  }

  // ---------------------------------------------------------------- many segments

  /** The entries for the segments from number `i` on. */
  function SegmentEntries(segments: seq<Segment>, i: nat): seq<nat>
    requires i <= |segments|
    decreases |segments| - i
  {
    if i == |segments| then [] else Pages(segments[i].phys, segments[i].len) + SegmentEntries(segments, i + 1)
  }

  function SegmentBytes(segments: seq<Segment>, i: nat): seq<nat>
    requires i <= |segments|
    decreases |segments| - i
  {
    if i == |segments| then [] else Range(segments[i].phys, segments[i].len) + SegmentBytes(segments, i + 1)
  }

  function Total(segments: seq<Segment>, i: nat): (n: nat)
    requires i <= |segments|
    ensures n == |SegmentBytes(segments, i)|
    ensures n == 0 <==> SegmentEntries(segments, i) == []
    decreases |segments| - i
  {
    if i == |segments| then 0 else segments[i].len + Total(segments, i + 1)
  }

  /** Where the data starts. */
  function First(segments: seq<Segment>, i: nat): (a: nat)
    requires i <= |segments| && Total(segments, i) > 0
    ensures SegmentEntries(segments, i)[0] == a && SegmentBytes(segments, i)[0] == a
    decreases |segments| - i
  {
    if segments[i].len > 0 then segments[i].phys else EmptyFirst(segments, i); First(segments, i + 1)
  }

  lemma EmptyFirst(segments: seq<Segment>, i: nat)
    requires i < |segments| && segments[i].len == 0
    ensures SegmentEntries(segments, i) == SegmentEntries(segments, i + 1)
    ensures SegmentBytes(segments, i) == SegmentBytes(segments, i + 1)
  {
    assert Pages(segments[i].phys, 0) + SegmentEntries(segments, i + 1) == SegmentEntries(segments, i + 1);
    assert Range(segments[i].phys, 0) + SegmentBytes(segments, i + 1) == SegmentBytes(segments, i + 1);
  }

  /** How many pages a controller expects the data to touch, from its start and length. */
  function PageCount(segments: seq<Segment>, i: nat): nat
    requires i <= |segments| && Total(segments, i) > 0
  {
    Touched(First(segments, i) % PAGE, Total(segments, i))
  }

  /** `n` bytes from `start` on touch `k` pages, the last of which starts `lead` bytes later. */
  ghost predicate Expects(start: nat, n: nat, k: nat, lead: int) {
    forall i {:trigger At(i)} :: At(i) && i == EXPECTS ==>
      n > 0 && k == Touched(start % PAGE, n) && lead == (k - 1) * PAGE - start % PAGE
  }

  /** The segments from number `i` on meet as the controller will take them to, the last of
      the expected pages starting `lead` bytes from here: up to there one ends and the next
      starts on a page boundary, and within that page each continues where the one before
      it ended. */
  predicate Meets(segments: seq<Segment>, i: nat, lead: int)
    requires i <= |segments|
    decreases |segments| - i
  {
    i == |segments| ||
    (&& Meets(segments, i + 1, lead - segments[i].len)
     && (segments[i].len > 0 && Total(segments, i + 1) > 0 ==>
           MeetsNext(segments[i], First(segments, i + 1), lead)))
  }

  predicate MeetsNext(s: Segment, next: nat, lead: int) {
    if s.len <= lead then (s.phys + s.len) % PAGE == 0 && next % PAGE == 0 else s.phys + s.len == next
  }

  /** The condition for a correct description: the segments meet so, and if the controller
      expects two pages there are only two entries, so that the second is in the command. */
  predicate Fits(segments: seq<Segment>)
    requires Total(segments, 0) > 0
  {
    && Meets(segments, 0, (PageCount(segments, 0) - 1) * PAGE - First(segments, 0) % PAGE)
    && (PageCount(segments, 0) == 2 ==> |SegmentEntries(segments, 0)| == 2)
  }

  lemma {:induction false} NothingMeets(segments: seq<Segment>, i: nat, lead: int)
    requires i <= |segments| && Total(segments, i) == 0
    ensures Meets(segments, i, lead)
    decreases |segments| - i
  {
    if i < |segments| {
      NothingMeets(segments, i + 1, lead);
    }
  }

  /** Within the last page the segments meet exactly when they form one run of bytes. */
  lemma {:induction false} OneRun(segments: seq<Segment>, i: nat, lead: int)
    requires i <= |segments| && lead <= 0 && Total(segments, i) > 0
    ensures Meets(segments, i, lead) <==>
            SegmentBytes(segments, i) == Range(First(segments, i), Total(segments, i))
    decreases |segments| - i
  {
    var s := segments[i];
    if Total(segments, i + 1) == 0 {
      NothingMeets(segments, i + 1, lead - s.len);
      assert SegmentBytes(segments, i) == Range(s.phys, s.len);
    } else {
      OneRun(segments, i + 1, lead - s.len);
      MeetsOne(segments, i, lead);
      if s.len == 0 {
        EmptyFirst(segments, i);
      } else {
        OneRunFrom(s, Total(segments, i + 1), SegmentBytes(segments, i + 1), First(segments, i + 1));
      }
    }
  }

  lemma MeetsOne(segments: seq<Segment>, i: nat, lead: int)
    requires i < |segments| && lead <= 0 && Total(segments, i + 1) > 0
    ensures Meets(segments, i, lead) <==>
            && Meets(segments, i + 1, lead - segments[i].len)
            && (segments[i].len == 0 || segments[i].phys + segments[i].len == First(segments, i + 1))
  {
  }

  lemma OneRunFrom(s: Segment, m: nat, bytes: seq<nat>, next: nat)
    requires m > 0 && |bytes| == m && bytes[0] == next
    ensures Range(s.phys, s.len) + bytes == Range(s.phys, s.len + m) <==>
            s.phys + s.len == next && bytes == Range(next, m)
  {
    SplitRun(s.phys, s.len, m, bytes);
  }

  lemma SplitRun(a: nat, n: nat, m: nat, more: seq<nat>)
    ensures Range(a, n) + more == Range(a, n + m) <==> more == Range(a + n, m)
  {
    assert Range(a, n + m) == Range(a, n) + Range(a + n, m);
    SameSuffix(Range(a, n), more, Range(a + n, m));
  }

  lemma SameSuffix(a: seq<nat>, b: seq<nat>, c: seq<nat>)
    ensures a + b == a + c <==> b == c
  {
    if a + b == a + c {
      assert b == (a + b)[|a|..] == (a + c)[|a|..] == c;
    }
  }

  /** There are at least as many entries as pages expected. */
  lemma {:induction false} EntriesCover(segments: seq<Segment>, i: nat)
    requires i <= |segments| && Total(segments, i) > 0
    ensures First(segments, i) % PAGE + Total(segments, i) <= |SegmentEntries(segments, i)| * PAGE
    ensures 0 < PageCount(segments, i) <= |SegmentEntries(segments, i)|
    decreases |segments| - i
  {
    var s := segments[i];
    if s.len > 0 {
      PagesAt(s.phys, s.len);
    }
    if Total(segments, i + 1) > 0 {
      EntriesCover(segments, i + 1);
    }
  }

  /** The entries, the bytes, their number and their start for the segments from `i` on. */
  ghost predicate Data(segments: seq<Segment>, i: nat, entries: seq<nat>, bytes: seq<nat>, n: nat, start: nat)
    requires i <= |segments|
  {
    forall j {:trigger At(j)} :: At(j) && j == DATA ==>
      && entries == SegmentEntries(segments, i) && bytes == SegmentBytes(segments, i) && n == Total(segments, i)
      && (n > 0 ==> start == First(segments, i))
  }

  /** Entries and bytes of a segment followed by those of later ones, `m` bytes from `next`. */
  ghost predicate Follows(s: Segment, entries: seq<nat>, bytes: seq<nat>, rest: seq<nat>, more: seq<nat>, m: nat,
                          next: nat)
  {
    forall j {:trigger At(j)} :: At(j) && j == FOLLOWS ==>
      && entries == Pages(s.phys, s.len) + rest && bytes == Range(s.phys, s.len) + more && |more| == m
      && (m == 0 ==> rest == []) && (m > 0 ==> rest != [] && more[0] == rest[0] == next)
  }

  lemma DataStep(segments: seq<Segment>, i: nat, entries: seq<nat>, bytes: seq<nat>, n: nat, start: nat)
    returns (rest: seq<nat>, more: seq<nat>, m: nat, next: nat)
    requires i < |segments| && n > 0 && Data(segments, i, entries, bytes, n, start)
    ensures Data(segments, i + 1, rest, more, m, next) && n == segments[i].len + m && (m > 0 ==> i + 1 < |segments|)
    ensures Follows(segments[i], entries, bytes, rest, more, m, next)
    ensures start == if segments[i].len > 0 then segments[i].phys else next
  {
    assert At(DATA) && At(FOLLOWS);
    rest, more, m := SegmentEntries(segments, i + 1), SegmentBytes(segments, i + 1), Total(segments, i + 1);
    next := if m > 0 then First(segments, i + 1) else 0;
  }

  /** Whether the segments from number `i` on meet. */
  ghost predicate Meet(segments: seq<Segment>, i: nat, lead: int, meet: bool)
    requires i <= |segments|
  {
    forall j {:trigger At(j)} :: At(j) && j == MEET ==> meet == Meets(segments, i, lead)
  }

  /** Whether a segment meets the one at `next`. */
  ghost predicate Next(s: Segment, next: nat, lead: int, ok: bool) {
    forall j {:trigger At(j)} :: At(j) && j == NEXT ==> ok == MeetsNext(s, next, lead)
  }

  lemma MeetsStep(segments: seq<Segment>, i: nat, lead: int, rest: seq<nat>, more: seq<nat>, m: nat, next: nat,
                  meet: bool)
    returns (meet': bool, ok: bool)
    requires i < |segments| && Data(segments, i + 1, rest, more, m, next) && Meet(segments, i, lead, meet)
    ensures Meet(segments, i + 1, lead - segments[i].len, meet') && Next(segments[i], next, lead, ok)
    ensures meet <==> meet' && (segments[i].len > 0 && m > 0 ==> ok)
  {
    assert At(DATA) && At(MEET) && At(NEXT);
    meet', ok := Meets(segments, i + 1, lead - segments[i].len), MeetsNext(segments[i], next, lead);
  }

  lemma MeetsRest(segments: seq<Segment>, i: nat, lead: int, rest: seq<nat>, more: seq<nat>, m: nat, next: nat,
                  meet: bool)
    requires i <= |segments| && Data(segments, i, rest, more, m, next) && Meet(segments, i, lead, meet)
    ensures m == 0 ==> meet
    ensures lead <= 0 && m > 0 ==> (meet <==> more == Range(next, m))
  {
    assert At(DATA) && At(MEET);
    if m == 0 {
      NothingMeets(segments, i, lead);
    } else if lead <= 0 {
      OneRun(segments, i, lead);
    }
  }

  /** Whether the first `k` entries are right. */
  ghost predicate FirstDecode(entries: seq<nat>, k: nat, n: nat, bytes: seq<nat>, right: bool) {
    forall j {:trigger At(j)} :: At(j) && j == FIRST ==>
      k <= |entries| && right == (Aligned(entries[..k]) && Spread(entries[..k], n) == bytes)
  }

  /** `SegmentsDecode` below for the segments from number `i` on. */
  lemma {:induction false} DecodeIff(segments: seq<Segment>, i: nat, entries: seq<nat>, bytes: seq<nat>, n: nat,
                                     start: nat, k: nat, lead: int, meet: bool, right: bool)
    requires i < |segments| && Data(segments, i, entries, bytes, n, start) && k <= |entries|
    requires n > 0 && Expects(start, n, k, lead)
    requires Meet(segments, i, lead, meet) && FirstDecode(entries, k, n, bytes, right)
    ensures meet <==> right
    decreases |segments| - i, 1
  {
    var s := segments[i];
    var rest, more, m, next := DataStep(segments, i, entries, bytes, n, start);
    var meet', ok := MeetsStep(segments, i, lead, rest, more, m, next, meet);
    if s.len == 0 {
      Empty(s, entries, bytes, rest, more, m, next);
      DecodeIff(segments, i + 1, rest, more, m, next, k, lead, meet', right);
    } else if m == 0 {
      MeetsRest(segments, i + 1, lead - s.len, rest, more, m, next, meet');
      LastSegment(s, entries, bytes, rest, more, next, k, lead, right);
    } else if s.len > lead {
      MeetsRest(segments, i + 1, lead - s.len, rest, more, m, next, meet');
      LastPage(s, entries, bytes, rest, more, m, next, k, lead, ok, right);
    } else {
      BoundaryIff(segments, i, entries, bytes, rest, more, m, next, k, lead, ok, meet', right);
    }
  }

  lemma {:induction false} BoundaryIff(segments: seq<Segment>, i: nat, entries: seq<nat>, bytes: seq<nat>,
                                       rest: seq<nat>, more: seq<nat>, m: nat, next: nat, k: nat, lead: int,
                                       ok: bool, meet: bool, right: bool)
    requires i + 1 < |segments| && Data(segments, i + 1, rest, more, m, next) && m > 0 && k <= |entries|
    requires Follows(segments[i], entries, bytes, rest, more, m, next) && 0 < segments[i].len <= lead
    requires Expects(segments[i].phys, segments[i].len + m, k, lead)
    requires Next(segments[i], next, lead, ok) && Meet(segments, i + 1, lead - segments[i].len, meet)
    requires FirstDecode(entries, k, segments[i].len + m, bytes, right)
    ensures right <==> ok && meet
    decreases |segments| - i, 0
  {
    var k', right' := EarlierBoundary(segments[i], entries, bytes, rest, more, m, next, k, lead, ok, right);
    if ok {
      DecodeIff(segments, i + 1, rest, more, m, next, k', lead - segments[i].len, meet, right');
    }
  }

  /** The entries a controller expects, of those for the segments, are page-aligned after the
      first and stand for exactly the bytes of the segments, in order, if and only if the
      segments meet as it takes them to. */
  lemma SegmentsDecode(segments: seq<Segment>)
    requires Total(segments, 0) > 0
    ensures var entries, n, k := SegmentEntries(segments, 0), Total(segments, 0), PageCount(segments, 0);
            && k <= |entries|
            && (Aligned(entries[..k]) && Spread(entries[..k], n) == SegmentBytes(segments, 0) <==>
                Meets(segments, 0, (k - 1) * PAGE - First(segments, 0) % PAGE))
  {
    var entries, bytes, n, start, k, lead, meet := AllData(segments);
    var right := FirstIs(entries, k, n, bytes);
    DecodeIff(segments, 0, entries, bytes, n, start, k, lead, meet, right);
  }

  lemma FirstIs(entries: seq<nat>, k: nat, n: nat, bytes: seq<nat>) returns (right: bool)
    requires k <= |entries|
    ensures FirstDecode(entries, k, n, bytes, right)
    ensures right <==> Aligned(entries[..k]) && Spread(entries[..k], n) == bytes
  {
    right := Aligned(entries[..k]) && Spread(entries[..k], n) == bytes;
  }

  lemma Empty(s: Segment, entries: seq<nat>, bytes: seq<nat>, rest: seq<nat>, more: seq<nat>, m: nat, next: nat)
    requires s.len == 0 && Follows(s, entries, bytes, rest, more, m, next)
    ensures entries == rest && bytes == more
  {
    assert At(FOLLOWS);
  }

  /** What is expected after a boundary between pages. */
  lemma ExpectsNext(s: Segment, m: nat, next: nat, k: nat, lead: int)
    requires s.len > 0 && m > 0 && Expects(s.phys, s.len + m, k, lead)
    requires (s.phys + s.len) % PAGE == 0 && next % PAGE == 0
    ensures s.len <= lead && |Pages(s.phys, s.len)| < k
    ensures Expects(next, m, k - |Pages(s.phys, s.len)|, lead - s.len)
  {
    assert At(EXPECTS);
    PagesLeft(s.phys, s.len, m);
  }

  /** Bytes up to a page boundary take their pages away from those touched. */
  lemma PagesLeft(base: nat, n: nat, m: nat)
    requires n > 0 && (base + n) % PAGE == 0
    ensures |Pages(base, n)| * PAGE == base % PAGE + n
    ensures Touched(base % PAGE, n + m) == |Pages(base, n)| + Touched(0, m)
  {
    PagesAt(base, n);
    WholePages(base, n, |Pages(base, n)|);
  }

  lemma WholePages(base: nat, n: nat, p: nat)
    requires n > 0 && (base + n) % PAGE == 0 && p == 1 + (n - Min(PAGE - base % PAGE, n) + PAGE - 1) / PAGE
    ensures p * PAGE == base % PAGE + n
  {
  }

  lemma LastSegment(s: Segment, entries: seq<nat>, bytes: seq<nat>, rest: seq<nat>, more: seq<nat>, next: nat,
                    k: nat, lead: int, right: bool)
    requires s.len > 0 && Follows(s, entries, bytes, rest, more, 0, next) && Expects(s.phys, s.len, k, lead)
    requires FirstDecode(entries, k, s.len, bytes, right)
    ensures |entries| == k && right
  {
    assert At(FOLLOWS) && At(EXPECTS) && At(FIRST) && At(DECODES);
    PagesDecode(s.phys, s.len);
    assert Pages(s.phys, s.len) + rest == Pages(s.phys, s.len) && Range(s.phys, s.len) + more == Range(s.phys, s.len);
    assert entries[..k] == entries;
  }

  /** A segment that reaches into the last page: the controller takes what follows in that
      page for the rest. */
  lemma LastPage(s: Segment, entries: seq<nat>, bytes: seq<nat>, rest: seq<nat>, more: seq<nat>, m: nat, next: nat,
                 k: nat, lead: int, ok: bool, right: bool)
    requires s.len > 0 && m > 0 && k <= |entries| && Follows(s, entries, bytes, rest, more, m, next)
    requires Expects(s.phys, s.len + m, k, lead) && s.len > lead && FirstDecode(entries, k, s.len + m, bytes, right)
    requires Next(s, next, lead, ok)
    ensures right <==> ok && more == Range(next, m)
  {
    assert At(FOLLOWS) && At(EXPECTS) && At(FIRST) && At(DECODES) && At(NEXT);
    SamePages(s.phys, s.len, s.len + m);
    PagesDecode(s.phys, s.len + m);
    assert entries[..k] == Pages(s.phys, s.len + m);
    OneRunFrom(s, m, more, next);
  }

  lemma SamePages(base: nat, n: nat, m: nat)
    requires 0 < n <= m && Touched(base % PAGE, n) == Touched(base % PAGE, m)
    ensures Pages(base, n) == Pages(base, m)
  {
    PagesAt(base, n);
    PagesAt(base, m);
  }

  /** A boundary before the last page, or at its start: there the controller goes on with
      the next entry at the start of a page. */
  lemma EarlierBoundary(s: Segment, entries: seq<nat>, bytes: seq<nat>, rest: seq<nat>, more: seq<nat>, m: nat,
                        next: nat, k: nat, lead: int, ok: bool, right: bool) returns (k': nat, right': bool)
    requires s.len > 0 && m > 0 && k <= |entries| && Follows(s, entries, bytes, rest, more, m, next)
    requires Expects(s.phys, s.len + m, k, lead) && s.len <= lead && FirstDecode(entries, k, s.len + m, bytes, right)
    requires Next(s, next, lead, ok)
    ensures k' <= |rest| && FirstDecode(rest, k', m, more, right')
    ensures right <==> ok && right'
    ensures ok ==> Expects(next, m, k', lead - s.len)
  {
    assert At(FOLLOWS) && At(EXPECTS) && At(FIRST) && At(DECODES) && At(NEXT);
    var own := Pages(s.phys, s.len);
    PagesAt(s.phys, s.len);
    assert |own| < k;
    k' := k - |own|;
    assert entries[..k] == own + rest[..k'];
    BoundaryDecodes(s, rest[..k'], m, more, next);
    right' := FirstIs(rest, k', m, more);
    if ok {
      ExpectsNext(s, m, next, k, lead);
    }
  }

  lemma BoundaryDecodes(s: Segment, tail: seq<nat>, m: nat, more: seq<nat>, next: nat)
    requires s.len > 0 && m > 0 && tail != [] && more != [] && more[0] == tail[0] == next
    ensures Decodes(Pages(s.phys, s.len) + tail, s.len + m, Range(s.phys, s.len) + more) <==>
            (s.phys + s.len) % PAGE == 0 && next % PAGE == 0 && Decodes(tail, m, more)
  {
    assert At(DECODES);
    AlignedFrom(s, tail);
    if (s.phys + s.len) % PAGE == 0 {
      SpreadFrom(s, tail, m, more);
    } else if tail[0] % PAGE == 0 {
      StrayFrom(s, tail, m, more);
    }
  }

  lemma AlignedJoin(a: seq<nat>, b: seq<nat>)
    requires |a| > 0
    ensures Aligned(a + b) <==> Aligned(a) && Aligned(b) && (|b| > 0 ==> b[0] % PAGE == 0)
  {
    if Aligned(a + b) {
      assert forall i :: 0 < i < |a| ==> (a + b)[i] == a[i];
      assert forall i :: 0 <= i < |b| ==> (a + b)[|a| + i] == b[i];
    }
  }

  lemma AlignedFrom(s: Segment, tail: seq<nat>)
    requires s.len > 0
    ensures Aligned(Pages(s.phys, s.len) + tail) <==> Aligned(tail) && (|tail| > 0 ==> tail[0] % PAGE == 0)
  {
    PagesAt(s.phys, s.len);
    AlignedJoin(Pages(s.phys, s.len), tail);
  }

  lemma SpreadFrom(s: Segment, tail: seq<nat>, n: nat, bytes: seq<nat>)
    requires n == 0 || (s.phys + s.len) % PAGE == 0
    ensures Spread(Pages(s.phys, s.len) + tail, s.len + n) == Range(s.phys, s.len) + bytes <==> Spread(tail, n) == bytes
  {
    SpreadPages(s.phys, s.len, tail, s.len + n);
    SameSuffix(Range(s.phys, s.len), Spread(tail, n), bytes);
  }

  lemma StrayFrom(s: Segment, tail: seq<nat>, n: nat, bytes: seq<nat>)
    requires s.len > 0 && n > 0 && (s.phys + s.len) % PAGE != 0 && bytes != [] && bytes[0] % PAGE == 0
    ensures Spread(Pages(s.phys, s.len) + tail, s.len + n) != Range(s.phys, s.len) + bytes
  {
    SpreadPast(s.phys, s.len, tail, s.len + n);
    assert (Range(s.phys, s.len) + bytes)[s.len] == bytes[0];
  }

  /** The data of all segments, what is expected of them, and what it takes to fit. */
  lemma AllData(segments: seq<Segment>)
    returns (entries: seq<nat>, bytes: seq<nat>, n: nat, start: nat, k: nat, lead: int, meet: bool)
    requires Total(segments, 0) > 0
    ensures entries == SegmentEntries(segments, 0) && bytes == SegmentBytes(segments, 0)
    ensures n == Total(segments, 0) && segments != [] && |entries| > 0 && start == entries[0]
    ensures Data(segments, 0, entries, bytes, n, start) && Expects(start, n, k, lead)
    ensures k == PageCount(segments, 0) == Touched(start % PAGE, n) && 0 < k <= |entries|
    ensures start == First(segments, 0) && lead == (k - 1) * PAGE - start % PAGE
    ensures Meet(segments, 0, lead, meet) && (meet <==> Meets(segments, 0, lead))
    ensures Fits(segments) <==> meet && (k == 2 ==> |entries| == 2)
  {
    entries, bytes, n := SegmentEntries(segments, 0), SegmentBytes(segments, 0), Total(segments, 0);
    start, k := First(segments, 0), PageCount(segments, 0);
    lead := (k - 1) * PAGE - start % PAGE;
    meet := Meets(segments, 0, lead);
    EntriesCover(segments, 0);
    DataOf(segments, entries, bytes, n, start);
    ExpectsOf(start, n, k, lead);
    FitsIs(segments, k, lead, meet);
  }

  lemma DataOf(segments: seq<Segment>, entries: seq<nat>, bytes: seq<nat>, n: nat, start: nat)
    requires entries == SegmentEntries(segments, 0) && bytes == SegmentBytes(segments, 0)
    requires n == Total(segments, 0) > 0 && start == First(segments, 0)
    ensures Data(segments, 0, entries, bytes, n, start)
  {
  }

  lemma ExpectsOf(start: nat, n: nat, k: nat, lead: int)
    requires n > 0 && k == Touched(start % PAGE, n) && lead == (k - 1) * PAGE - start % PAGE
    ensures Expects(start, n, k, lead)
  {
  }

  lemma FitsIs(segments: seq<Segment>, k: nat, lead: int, meet: bool)
    requires Total(segments, 0) > 0 && k == PageCount(segments, 0) && lead == (k - 1) * PAGE - First(segments, 0) % PAGE
    requires meet == Meets(segments, 0, lead)
    ensures Meet(segments, 0, lead, meet)
    ensures Fits(segments) <==> meet && (k == 2 ==> |SegmentEntries(segments, 0)| == 2)
  {
  }

  /** For every list of segments of at most 513 pages, with the PRP list apart from the data:
      a controller transfers exactly the bytes of the segments, in order, if and only if
      they fit. */
  lemma WhenSegmentsDecode(p: Prp, mem: Memory, mem': Memory, segments: seq<Segment>, alloc: Option<nat>)
    requires Total(segments, 0) > 0 && Describes(p, mem, mem', SegmentEntries(segments, 0), alloc)
    requires PageCount(segments, 0) - 1 <= ENTRIES && (alloc.Some? ==> alloc.value !in SegmentBytes(segments, 0))
    ensures Transferred(p, mem', Total(segments, 0)) == Some(SegmentBytes(segments, 0)) <==> Fits(segments)
  {
    var entries, bytes, n, start, k, lead, meet := AllData(segments);
    WhenEntriesDecode(p, mem, mem', segments, alloc, entries, bytes, n, start, k, lead, meet);
  }

  lemma WhenEntriesDecode(p: Prp, mem: Memory, mem': Memory, segments: seq<Segment>, alloc: Option<nat>,
                          entries: seq<nat>, bytes: seq<nat>, n: nat, start: nat, k: nat, lead: int, meet: bool)
    requires segments != [] && Data(segments, 0, entries, bytes, n, start) && Describes(p, mem, mem', entries, alloc)
    requires n > 0 && start == entries[0] && Expects(start, n, k, lead) && k == Touched(start % PAGE, n)
    requires 0 < k <= |entries| && k - 1 <= ENTRIES && (alloc.Some? ==> alloc.value !in bytes)
    requires Meet(segments, 0, lead, meet)
    ensures Transferred(p, mem', n) == Some(bytes) <==> meet && (k == 2 ==> |entries| == 2)
  {
    var read := Reads(entries, alloc, mem', k);
    ReadsBack(p, mem, mem', entries, alloc, n, k);
    RightIff(p, mem', n, read, bytes);
    if k == 2 && |entries| > 2 {
      WrongPage(entries[0], alloc.value, n, bytes);
    } else {
      var right := FirstIs(entries, k, n, bytes);
      DecodesIs(entries[..k], n, bytes);
      DecodeIff(segments, 0, entries, bytes, n, start, k, lead, meet, right);
    }
  }

  lemma DecodesIs(entries: seq<nat>, length: nat, bytes: seq<nat>)
    ensures Decodes(entries, length, bytes) <==> Aligned(entries) && Spread(entries, length) == bytes
  {
    assert At(DECODES);
  }

  lemma RightIff(p: Prp, mem: Memory, length: nat, read: seq<nat>, bytes: seq<nat>)
    requires ReadEntries(p.prp1, p.prp2, mem, length) == read
    ensures Transferred(p, mem, length) == Some(bytes) <==> Decodes(read, length, bytes)
  {
    assert At(DECODES);
  }

  /** Two pages expected but a list given: the controller takes the list for data. */
  lemma WrongPage(prp1: nat, at: nat, length: nat, bytes: seq<nat>)
    requires Touched(prp1 % PAGE, length) == 2 && at !in bytes
    ensures !Decodes([prp1, at], length, bytes)
  {
    assert At(DECODES);
    var c := PAGE - prp1 % PAGE;
    assert [prp1, at][1..] == [at];
    SpreadStart([at], length - c);
    Behind(Range(prp1, c), Spread([at], length - c), c);
    assert Spread([prp1, at], length)[c] == at;
  }

  /** Between one non-empty segment and the next there is a page boundary on both sides. */
  predicate Joined(segments: seq<Segment>, i: nat)
    requires i <= |segments|
    decreases |segments| - i
  {
    i == |segments| ||
    (&& Joined(segments, i + 1)
     && (segments[i].len > 0 && Total(segments, i + 1) > 0 ==>
           (segments[i].phys + segments[i].len) % PAGE == 0 && First(segments, i + 1) % PAGE == 0))
  }

  ghost predicate Join(segments: seq<Segment>, i: nat)
    requires i <= |segments|
  {
    forall j {:trigger At(j)} :: At(j) && j == JOIN ==> Joined(segments, i)
  }

  lemma JoinStep(segments: seq<Segment>, i: nat, rest: seq<nat>, more: seq<nat>, m: nat, next: nat)
    requires i < |segments| && Join(segments, i) && Data(segments, i + 1, rest, more, m, next)
    ensures Join(segments, i + 1)
    ensures segments[i].len > 0 && m > 0 ==> (segments[i].phys + segments[i].len) % PAGE == 0 && next % PAGE == 0
  {
    assert At(JOIN) && At(DATA);
  }

  lemma {:induction false} JoinedMeet(segments: seq<Segment>, i: nat, entries: seq<nat>, bytes: seq<nat>, n: nat,
                                      start: nat, k: nat, lead: int, meet: bool)
    requires i < |segments| && Join(segments, i) && Data(segments, i, entries, bytes, n, start)
    requires n > 0 && Expects(start, n, k, lead) && Meet(segments, i, lead, meet)
    ensures meet && |entries| == k
    decreases |segments| - i
  {
    var s := segments[i];
    var rest, more, m, next := DataStep(segments, i, entries, bytes, n, start);
    var meet', ok := MeetsStep(segments, i, lead, rest, more, m, next, meet);
    JoinStep(segments, i, rest, more, m, next);
    if m == 0 {
      MeetsRest(segments, i + 1, lead - s.len, rest, more, m, next, meet');
      OwnPages(s, entries, bytes, rest, more, next, k, lead);
    } else if s.len == 0 {
      Empty(s, entries, bytes, rest, more, m, next);
      JoinedMeet(segments, i + 1, rest, more, m, next, k, lead, meet');
    } else {
      ExpectsNext(s, m, next, k, lead);
      JoinedMeet(segments, i + 1, rest, more, m, next, k - |Pages(s.phys, s.len)|, lead - s.len, meet');
      assert At(FOLLOWS) && At(NEXT);
    }
  }

  /** The last segment has as many entries as are expected. */
  lemma OwnPages(s: Segment, entries: seq<nat>, bytes: seq<nat>, rest: seq<nat>, more: seq<nat>, next: nat,
                 k: nat, lead: int)
    requires s.len > 0 && Follows(s, entries, bytes, rest, more, 0, next) && Expects(s.phys, s.len, k, lead)
    ensures |entries| == k
  {
    assert At(FOLLOWS) && At(EXPECTS);
    PagesDecode(s.phys, s.len);
  }

  /** Segments that all meet at page boundaries fit. */
  lemma JoinedFit(segments: seq<Segment>)
    requires Joined(segments, 0) && Total(segments, 0) > 0
    ensures Fits(segments)
  {
    var entries, bytes, n, start, k, lead, meet := AllData(segments);
    JoinedMeet(segments, 0, entries, bytes, n, start, k, lead, meet);
  }

  /** One segment gives the same entries as the buffer it is, and fits. */
  lemma OneSegment(base: nat, length: nat)
    ensures SegmentEntries([Segment(base, length)], 0) == Pages(base, length)
    ensures length > 0 ==> Fits([Segment(base, length)])
  {
    var one := [Segment(base, length)];
    assert SegmentEntries(one, 1) == [] && Joined(one, 1);
    if length > 0 {
      JoinedFit(one);
    }
  }

  /** Segments within one page that follow one another fit, although they do not meet at a
      page boundary. */
  lemma Contiguous()
    ensures var ok := [Segment(0, 100), Segment(100, 100)]; Total(ok, 0) == 200 && Fits(ok) && !Joined(ok, 0)
  {
    var ok := [Segment(0, 100), Segment(100, 100)];
    assert Total(ok, 2) == 0 && Total(ok, 1) == 100 && First(ok, 1) == 100;
    assert Meets(ok, 2, -200) && Meets(ok, 1, -100);
  }

  /** Two pages, the second in two pieces: the list is taken for the second page. */
  lemma ListForData(at: nat)
    requires at % PAGE == 0
    ensures var bad := [Segment(0, PAGE), Segment(0x1_0000, 100), Segment(0x1_0064, 100)];
            var mem' := Store(map[], at, SegmentEntries(bad, 0)[1..]);
            && Describes(Prp(0, at, Some(at)), map[], mem', SegmentEntries(bad, 0), Some(at))
            && Transferred(Prp(0, at, Some(at)), mem', Total(bad, 0)) == Some(Range(0, PAGE) + Range(at, 200))
            && SegmentBytes(bad, 0) == Range(0, PAGE) + Range(0x1_0000, 200)
  {
    var bad := [Segment(0, PAGE), Segment(0x1_0000, 100), Segment(0x1_0064, 100)];
    BadEntries(bad);
    var mem' := Store(map[], at, SegmentEntries(bad, 0)[1..]);
    assert ReadEntries(0, at, mem', PAGE + 200) == [0, at];
    assert Aligned([0, at]);
    assert Spread([0, at], PAGE + 200) == Range(0, PAGE) + Spread([at], 200) by { assert [0, at][1..] == [at]; }
    assert Spread([at], 200) == Range(at, 200) + Spread([], 0) == Range(at, 200);
  }

  lemma BadEntries(bad: seq<Segment>)
    requires bad == [Segment(0, PAGE), Segment(0x1_0000, 100), Segment(0x1_0064, 100)]
    ensures SegmentEntries(bad, 0) == [0, 0x1_0000, 0x1_0064] && Total(bad, 0) == PAGE + 200
    ensures SegmentBytes(bad, 0) == Range(0, PAGE) + Range(0x1_0000, 200)
  {
    assert SegmentEntries(bad, 3) == [] && SegmentBytes(bad, 3) == [] && Total(bad, 3) == 0;
    assert Pages(0x1_0064, 100) == [0x1_0064] && Pages(0x1_0000, 100) == [0x1_0000] && Pages(0, PAGE) == [0];
    assert SegmentEntries(bad, 2) == [0x1_0064] && SegmentEntries(bad, 1) == [0x1_0000, 0x1_0064];
    assert Total(bad, 2) == 100 && Total(bad, 1) == 200;
    BadBytes(bad);
  }

  lemma BadBytes(bad: seq<Segment>)
    requires bad == [Segment(0, PAGE), Segment(0x1_0000, 100), Segment(0x1_0064, 100)]
    ensures SegmentBytes(bad, 0) == Range(0, PAGE) + Range(0x1_0000, 200)
  {
    assert SegmentBytes(bad, 3) == [];
    assert SegmentBytes(bad, 2) == Range(0x1_0064, 100);
    assert SegmentBytes(bad, 1) == Range(0x1_0000, 200);
  }

  /** The inner loop: the entries of one segment, page by page. */
  method AppendPages(before: seq<nat>, phys: nat, len: nat) returns (entries: seq<nat>)
    ensures entries == before + Pages(phys, len)
  {
    entries := before;
    var offset := 0;
    while offset < len
      invariant 0 <= offset <= len
      invariant entries + Pages(phys + offset, len - offset) == before + Pages(phys, len)
    {
      var pageOffset := (phys + offset) % PAGE;
      var chunk := Min(PAGE - pageOffset, len - offset);
      AppendPage(entries, phys + offset, len - offset, chunk);
      entries := entries + [phys + offset];
      offset := offset + chunk;
    }
  }

  lemma AppendPage(entries: seq<nat>, base: nat, n: nat, c: nat)
    requires n > 0 && c == Min(PAGE - base % PAGE, n)
    ensures 0 < c <= n && entries + [base] + Pages(base + c, n - c) == entries + Pages(base, n)
  {
    assert entries + [base] + Pages(base + c, n - c) == entries + ([base] + Pages(base + c, n - c));
  }

  /** The entries of the segments, page by page. */
  lemma CollectStep(segments: seq<Segment>, k: nat, entries: seq<nat>)
    requires k < |segments|
    ensures entries + Pages(segments[k].phys, segments[k].len) + SegmentEntries(segments, k + 1) ==
            entries + SegmentEntries(segments, k)
  {
    Regroup(entries, Pages(segments[k].phys, segments[k].len), SegmentEntries(segments, k + 1));
  }

  lemma Regroup(a: seq<nat>, b: seq<nat>, c: seq<nat>)
    ensures a + b + c == a + (b + c)
  {
  }

  method CollectEntries(segments: seq<Segment>) returns (entries: seq<nat>)
    ensures entries == SegmentEntries(segments, 0)
  {
    entries := [];
    var k := 0;
    while k < |segments|
      invariant 0 <= k <= |segments| && entries + SegmentEntries(segments, k) == SegmentEntries(segments, 0)
    {
      CollectStep(segments, k, entries);
      entries := AppendPages(entries, segments[k].phys, segments[k].len);
      k := k + 1;
    }
  }

  method FromSegments(segments: seq<Segment>, alloc: Option<nat>, mem: Memory)
    returns (r: Result<Prp, Error>, mem': Memory)
    requires alloc.Some? ==> alloc.value % PAGE == 0
    ensures segments == [] ==> r == Ok(Prp(0, 0, None)) && mem' == mem
    ensures segments != [] && Total(segments, 0) == 0 ==> r == Err(EINVAL) && mem' == mem
    ensures Total(segments, 0) > 0 ==>
              && (r.Err? <==> |SegmentEntries(segments, 0)| > 2 && alloc.None?)
              && (r.Err? ==> r.error == ENOMEM && mem' == mem)
              && (r.Ok? ==> Describes(r.value, mem, mem', SegmentEntries(segments, 0), alloc))
    ensures Total(segments, 0) > 0 && r.Ok? && PageCount(segments, 0) - 1 <= ENTRIES &&
            (alloc.Some? ==> alloc.value !in SegmentBytes(segments, 0)) ==>
              (Transferred(r.value, mem', Total(segments, 0)) == Some(SegmentBytes(segments, 0)) <==> Fits(segments))
  {
    if segments == [] {
      return Ok(Prp(0, 0, None)), mem;
    }
    var entries := CollectEntries(segments);
    if entries == [] {
      return Err(EINVAL), mem;
    }
    if |entries| == 1 {
      r, mem' := Ok(Prp(entries[0], 0, None)), mem;
    } else if |entries| == 2 {
      r, mem' := Ok(Prp(entries[0], entries[1], None)), mem;
    } else {
      if alloc.None? {
        return Err(ENOMEM), mem;
      }
      mem' := WriteEntries(entries[1..], alloc.value, mem);
      r := Ok(Prp(entries[0], alloc.value, alloc));
    }
    if PageCount(segments, 0) - 1 <= ENTRIES && (alloc.Some? ==> alloc.value !in SegmentBytes(segments, 0)) {
      WhenSegmentsDecode(r.value, mem, mem', segments, alloc);
    }
  }

  method WriteEntries(entries: seq<nat>, at: nat, mem: Memory) returns (mem': Memory)
    ensures mem' == Store(mem, at, entries)
  {
    mem' := mem;
    var i := 0;
    while i < |entries|
      invariant 0 <= i <= |entries| && mem' == Store(mem, at, entries[..i])
    {
      assert entries[..i + 1][..i] == entries[..i];
      mem' := mem'[at + 8 * i := entries[i]];
      i := i + 1;
    }
    assert entries[..i] == entries;
  }
}
