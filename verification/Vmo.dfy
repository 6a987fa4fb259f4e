/** Virtual memory objects: per-page states, lazy commit, copy-on-write clone chains of
    any depth, and the byte reads and writes over them, on top of a frame allocator. */
module Vmo {
  import opened Common

  type byte = x: int | 0 <= x < 256
  type Page = seq<byte>
  type Frame = nat

  function Zero(): (p: Page)
    ensures |p| == PAGE && forall i :: 0 <= i < PAGE ==> p[i] == 0
  {
    seq(PAGE, _ => 0)
  }

  datatype PageState = Uncommitted | Committed(frame: Frame, canFree: bool) | CopyOnWrite(parentOffset: nat)

  datatype Options = Options(commit: bool, contiguous: bool, resizable: bool)

  datatype Inner = Inner(size: nat, pages: seq<PageState>, options: Options, parent: Option<nat>)

  /** All objects in order of creation; a dropped one leaves None behind. */
  type Objects = seq<Option<Inner>>

  datatype VmoError = InvalidSize | NoMemory | OutOfRange | NotResizable | InvalidState

  // ---------------------------------------------------------------- what clients see

  /** A page an object holds itself, or a link to a page of its parent. */
  datatype PageView = Own(bytes: Page) | Link(page: nat)

  datatype View = View(pages: seq<PageView>, resizable: bool, parent: Option<nat>)

  type World = seq<Option<View>>

  predicate HasPage(w: World, id: nat, i: nat) {
    id < |w| && w[id].Some? && i < |w[id].value.pages|
  }

  /** The bytes a page reads as: its own, or those the chain of links ends in. */
  function Resolve(w: World, id: nat, i: nat): Option<Page>
    decreases id
  {
    if !HasPage(w, id, i) then None
    else match w[id].value.pages[i]
      case Own(bytes) => Some(bytes)
      case Link(p) =>
        if w[id].value.parent.Some? && w[id].value.parent.value < id
        then Resolve(w, w[id].value.parent.value, p) else None
  }

  function SetView(w: World, id: nat, i: nat, p: PageView): World
    requires HasPage(w, id, i)
  {
    w[id := Some(w[id].value.(pages := w[id].value.pages[i := p]))]
  }

  // ---------------------------------------------------------------- from objects to views

  function ViewOfPage(p: PageState, mem: map<Frame, Page>): PageView {
    match p
    case Uncommitted => Own(Zero())
    case Committed(f, _) => Own(if f in mem then mem[f] else Zero())
    case CopyOnWrite(off) => Link(off / PAGE)
  }

  function ViewOf(v: Option<Inner>, mem: map<Frame, Page>): Option<View> {
    if v.None? then None
    else Some(View(seq(|v.value.pages|, i requires 0 <= i < |v.value.pages| => ViewOfPage(v.value.pages[i], mem)),
                   v.value.options.resizable, v.value.parent))
  }

  function WorldOf(vmos: Objects, mem: map<Frame, Page>): World {
    seq(|vmos|, id requires 0 <= id < |vmos| => ViewOf(vmos[id], mem))
  }

  predicate Slot(vmos: Objects, id: nat, i: nat) {
    id < |vmos| && vmos[id].Some? && i < |vmos[id].value.pages|
  }

  function SetPage(vmos: Objects, id: nat, i: nat, p: PageState): Objects
    requires Slot(vmos, id, i)
  {
    vmos[id := Some(vmos[id].value.(pages := vmos[id].value.pages[i := p]))]
  }

  // ---------------------------------------------------------------- invariants

  ghost predicate ObjectOk(vmos: Objects, id: nat, v: Inner) {
    && v.size == PAGE * |v.pages|
    && (v.parent.Some? ==> v.parent.value < id && id <= |vmos| && vmos[v.parent.value].Some? && !v.options.resizable)
    && (v.parent.None? ==> forall i :: 0 <= i < |v.pages| ==> !v.pages[i].CopyOnWrite?)
  }

  ghost predicate ObjectsOk(vmos: Objects) {
    forall id {:trigger At(id)} :: At(id) && 0 <= id < |vmos| && vmos[id].Some? ==> ObjectOk(vmos, id, vmos[id].value)
  }

  /** Every committed page has a frame of its own, recorded in `owner`. */
  ghost predicate SlotsOk(vmos: Objects, owner: map<Frame, (nat, nat)>, mem: map<Frame, Page>) {
    && (forall id: nat, i: nat {:trigger At(id), At(i)} ::
          At(id) && At(i) && Slot(vmos, id, i) && vmos[id].value.pages[i].Committed? ==>
            var p := vmos[id].value.pages[i];
            p.canFree && p.frame in owner && owner[p.frame] == (id, i) && p.frame in mem && |mem[p.frame]| == PAGE)
    && (forall f {:trigger At(f)} :: At(f) && f in owner ==>
          Slot(vmos, owner[f].0, owner[f].1) &&
          vmos[owner[f].0].value.pages[owner[f].1] == Committed(f, true))
  }

  lemma SlotAt(vmos: Objects, owner: map<Frame, (nat, nat)>, mem: map<Frame, Page>, id: nat, i: nat)
    requires SlotsOk(vmos, owner, mem) && Slot(vmos, id, i) && vmos[id].value.pages[i].Committed?
    ensures var p := vmos[id].value.pages[i];
            p.canFree && p.frame in owner && owner[p.frame] == (id, i) && p.frame in mem && |mem[p.frame]| == PAGE
  {
    assert At(id) && At(i);
  }

  // ---------------------------------------------------------------- single-page steps

  lemma SameViews(vmos: Objects, vmos': Objects, mem: map<Frame, Page>, mem': map<Frame, Page>, id: nat, i: nat,
                  p: PageView)
    requires |vmos| == |vmos'| && Slot(vmos, id, i) && Slot(vmos', id, i)
    requires forall j :: 0 <= j < |vmos| && j != id ==> vmos'[j] == vmos[j]
    requires vmos'[id].value == vmos[id].value.(pages := vmos'[id].value.pages)
             && |vmos'[id].value.pages| == |vmos[id].value.pages|
    requires ViewOfPage(vmos'[id].value.pages[i], mem') == p
    requires forall j: nat, k: nat :: Slot(vmos, j, k) && (j, k) != (id, i) ==>
               ViewOfPage(vmos'[j].value.pages[k], mem') == ViewOfPage(vmos[j].value.pages[k], mem)
    ensures WorldOf(vmos', mem') == SetView(WorldOf(vmos, mem), id, i, p)
  {
    var w, w' := SetView(WorldOf(vmos, mem), id, i, p), WorldOf(vmos', mem');
    forall j | 0 <= j < |vmos| ensures w'[j] == w[j] {
      if vmos[j].Some? {
        assert forall k: nat :: k < |vmos[j].value.pages| ==> Slot(vmos, j, k);
        assert w'[j].value.pages == w[j].value.pages;
      }
    }
  }

  /** A free frame `f` with contents `bytes` becomes page `i` of object `id`. */
  lemma Install(vmos: Objects, owner: map<Frame, (nat, nat)>, mem: map<Frame, Page>, id: nat, i: nat, f: Frame,
                bytes: Page)
    requires SlotsOk(vmos, owner, mem) && Slot(vmos, id, i) && !vmos[id].value.pages[i].Committed?
    requires f !in owner && |bytes| == PAGE
    ensures SlotsOk(SetPage(vmos, id, i, Committed(f, true)), owner[f := (id, i)], mem[f := bytes])
    ensures WorldOf(SetPage(vmos, id, i, Committed(f, true)), mem[f := bytes]) ==
            SetView(WorldOf(vmos, mem), id, i, Own(bytes))
  {
    var vmos', mem' := SetPage(vmos, id, i, Committed(f, true)), mem[f := bytes];
    forall j: nat, k: nat | Slot(vmos, j, k) && (j, k) != (id, i)
      ensures ViewOfPage(vmos'[j].value.pages[k], mem') == ViewOfPage(vmos[j].value.pages[k], mem)
    {
      if vmos[j].value.pages[k].Committed? {
        SlotAt(vmos, owner, mem, j, k);
      }
    }
    SameViews(vmos, vmos', mem, mem', id, i, Own(bytes));
  }

  /** A committed page is given up and reads as zeros again. */
  lemma Remove(vmos: Objects, owner: map<Frame, (nat, nat)>, mem: map<Frame, Page>, id: nat, i: nat)
    requires SlotsOk(vmos, owner, mem) && Slot(vmos, id, i) && vmos[id].value.pages[i].Committed?
    ensures SlotsOk(SetPage(vmos, id, i, Uncommitted), owner - {vmos[id].value.pages[i].frame}, mem)
    ensures WorldOf(SetPage(vmos, id, i, Uncommitted), mem) == SetView(WorldOf(vmos, mem), id, i, Own(Zero()))
  {
    SlotAt(vmos, owner, mem, id, i);
    SameViews(vmos, SetPage(vmos, id, i, Uncommitted), mem, mem, id, i, Own(Zero()));
  }

  /** The frame of a committed page is overwritten. */
  lemma Poke(vmos: Objects, owner: map<Frame, (nat, nat)>, mem: map<Frame, Page>, id: nat, i: nat, bytes: Page)
    requires SlotsOk(vmos, owner, mem) && Slot(vmos, id, i) && vmos[id].value.pages[i].Committed?
    requires |bytes| == PAGE
    ensures var f := vmos[id].value.pages[i].frame;
            && SlotsOk(vmos, owner, mem[f := bytes])
            && WorldOf(vmos, mem[f := bytes]) == SetView(WorldOf(vmos, mem), id, i, Own(bytes))
  {
    var f := vmos[id].value.pages[i].frame;
    SlotAt(vmos, owner, mem, id, i);
    forall j: nat, k: nat | Slot(vmos, j, k) && (j, k) != (id, i)
      ensures ViewOfPage(vmos[j].value.pages[k], mem[f := bytes]) == ViewOfPage(vmos[j].value.pages[k], mem)
    {
      if vmos[j].value.pages[k].Committed? {
        SlotAt(vmos, owner, mem, j, k);
      }
    }
    SameViews(vmos, vmos, mem, mem[f := bytes], id, i, Own(bytes));
  }

  lemma PageKept(vmos: Objects, id: nat, i: nat, p: PageState)
    requires ObjectsOk(vmos) && Slot(vmos, id, i) && !p.CopyOnWrite?
    ensures ObjectsOk(SetPage(vmos, id, i, p))
  {
  }

  // ---------------------------------------------------------------- reads and writes of the world

  /** The page of object `id` that page `q` of object `v` is linked through, if any. */
  function Lands(w: World, v: nat, q: nat, id: nat): Option<nat>
    decreases v
  {
    if v == id then Some(q)
    else if v < id || !HasPage(w, v, q) then None
    else match w[v].value.pages[q]
      case Own(_) => None
      case Link(p) =>
        if w[v].value.parent.Some? && w[v].value.parent.value < v
        then Lands(w, w[v].value.parent.value, p, id) else None
  }

  /** Changing object `id` alone is felt only by pages linked through it. */
  lemma {:induction false} ResolveElsewhere(w: World, w': World, id: nat, v: nat, q: nat)
    requires |w'| == |w| && id < |w| && forall j :: 0 <= j < |w| && j != id ==> w'[j] == w[j]
    ensures Resolve(w', v, q) ==
            if Lands(w, v, q, id).Some? then Resolve(w', id, Lands(w, v, q, id).value) else Resolve(w, v, q)
    decreases v
  {
    if v < id {
      ResolveBelow(w, w', id, v, q);
    } else if v > id && HasPage(w, v, q) && w[v].value.pages[q].Link? && w[v].value.parent.Some? &&
              w[v].value.parent.value < v {
      ResolveElsewhere(w, w', id, w[v].value.parent.value, w[v].value.pages[q].page);
    }
  }

  lemma {:induction false} ResolveBelow(w: World, w': World, id: nat, v: nat, q: nat)
    requires |w'| == |w| && v < id <= |w| && forall j :: 0 <= j < id ==> w'[j] == w[j]
    ensures Resolve(w', v, q) == Resolve(w, v, q)
    decreases v
  {
    if HasPage(w, v, q) && w[v].value.pages[q].Link? && w[v].value.parent.Some? && w[v].value.parent.value < v {
      ResolveBelow(w, w', id, w[v].value.parent.value, w[v].value.pages[q].page);
    }
  }

  /** Giving an object its own copy of a page it could read changes what no page reads as:
      get_page, for reading or for writing, is invisible. */
  lemma CopyUnseen(w: World, id: nat, i: nat, v: nat, q: nat)
    requires HasPage(w, id, i) && Resolve(w, id, i).Some?
    ensures Resolve(SetView(w, id, i, Own(Resolve(w, id, i).value)), v, q) == Resolve(w, v, q)
  {
    var w' := SetView(w, id, i, Own(Resolve(w, id, i).value));
    ResolveElsewhere(w, w', id, v, q);
    ResolveElsewhere(w, w, id, v, q);
    var l := Lands(w, v, q, id);
    if l.Some? && l.value != i && HasPage(w, id, l.value) && w[id].value.pages[l.value].Link? &&
       w[id].value.parent.Some? && w[id].value.parent.value < id {
      ResolveBelow(w, w', id, w[id].value.parent.value, w[id].value.pages[l.value].page);
    }
  }

  function Content(w: World, id: nat, i: nat): Page {
    var r := Resolve(w, id, i);
    if r.Some? then r.value else Zero()
  }

  /** The byte at address `addr` of an object. */
  function ByteAt(w: World, id: nat, addr: nat): byte {
    var c := Content(w, id, addr / PAGE);
    if addr % PAGE < |c| then c[addr % PAGE] else 0
  }

  /** The first `n` bytes of the buffer are those of the object from `offset` on; the rest
      of the buffer is as it was. */
  ghost predicate Loaded(w: World, id: nat, offset: nat, was: seq<byte>, buf: seq<byte>, n: nat) {
    && |buf| == |was|
    && forall k {:trigger At(k)} :: At(k) && 0 <= k < |buf| ==>
         buf[k] == if k < n then ByteAt(w, id, offset + k) else was[k]
  }

  lemma LoadMore(w: World, id: nat, offset: nat, was: seq<byte>, buf: seq<byte>, buf': seq<byte>, d: nat, c: nat,
                 page: Page)
    requires Loaded(w, id, offset, was, buf, d) && |buf'| == |buf| && d + c <= |buf|
    requires Resolve(w, id, (offset + d) / PAGE) == Some(page) && (offset + d) % PAGE + c <= PAGE == |page|
    requires forall k :: 0 <= k < |buf| ==>
               buf'[k] == if d <= k < d + c then page[(offset + d) % PAGE + (k - d)] else buf[k]
    ensures Loaded(w, id, offset, was, buf', d + c)
  {
    forall k | d <= k < d + c
      ensures buf'[k] == ByteAt(w, id, offset + k)
    {
      assert (offset + k) / PAGE == (offset + d) / PAGE && (offset + k) % PAGE == (offset + d) % PAGE + (k - d);
    }
  }

  predicate Touched(i: nat, offset: nat, n: nat) {
    n > 0 && i * PAGE < offset + n && offset < (i + 1) * PAGE
  }

  /** Page `i` with the bytes of `data` that fall into it. */
  function Splice(was: Page, i: nat, offset: nat, data: seq<byte>): (r: Page)
    ensures |r| == PAGE
  {
    seq(PAGE, j requires 0 <= j < PAGE =>
      if offset <= i * PAGE + j < offset + |data| then data[i * PAGE + j - offset] else if j < |was| then was[j] else 0)
  }

  function WrittenPage(w: World, id: nat, i: nat, offset: nat, data: seq<byte>): PageView
    requires HasPage(w, id, i)
  {
    if Touched(i, offset, |data|) && |Content(w, id, i)| == PAGE
    then Own(Splice(Content(w, id, i), i, offset, data)) else w[id].value.pages[i]
  }

  /** The world after `data` was written into object `id` at `offset`. */
  function Write(w: World, id: nat, offset: nat, data: seq<byte>): World
    requires id < |w| && w[id].Some?
  {
    var n := |w[id].value.pages|;
    w[id := Some(w[id].value.(pages := seq(n, i requires 0 <= i < n => WrittenPage(w, id, i, offset, data))))]
  }

  /** All pages the chain of links from any page ends in are whole. */
  ghost predicate WholePages(w: World) {
    forall id: nat, i: nat :: HasPage(w, id, i) && w[id].value.pages[i].Own? ==> |w[id].value.pages[i].bytes| == PAGE
  }

  lemma {:induction false} ResolvesWhole(w: World, id: nat, i: nat)
    requires WholePages(w) && Resolve(w, id, i).Some?
    ensures |Resolve(w, id, i).value| == PAGE
    decreases id
  {
    if w[id].value.pages[i].Link? {
      ResolvesWhole(w, w[id].value.parent.value, w[id].value.pages[i].page);
    }
  }

  /** Every page the range touches can be read. */
  ghost predicate Readable(w: World, id: nat, offset: nat, n: nat) {
    forall i {:trigger At(i)} :: At(i) && i >= 0 && Touched(i, offset, n) ==> Resolve(w, id, i).Some?
  }

  lemma ReadableStep(w: World, id: nat, offset: nat, d: nat, c: nat)
    requires Readable(w, id, offset, d) && Resolve(w, id, (offset + d) / PAGE).Some?
    requires (offset + d) % PAGE + c <= PAGE
    ensures Readable(w, id, offset, d + c)
  {
  }

  lemma NotReadable(w: World, id: nat, offset: nat, d: nat, n: nat)
    requires Resolve(w, id, (offset + d) / PAGE).None? && d < n
    ensures !Readable(w, id, offset, n)
  {
    assert At((offset + d) / PAGE) && Touched((offset + d) / PAGE, offset, n);
  }

  /** What every page of every object reads as after a write to object `id`: a page linked
      through a touched page of `id` shows the new bytes, all others are as before. */
  lemma WriteSeen(w: World, id: nat, offset: nat, data: seq<byte>, v: nat, q: nat)
    requires WholePages(w) && id < |w| && w[id].Some?
    requires Readable(w, id, offset, |data|)
    ensures var l := Lands(w, v, q, id);
            Resolve(Write(w, id, offset, data), v, q) ==
            if l.Some? && l.value < |w[id].value.pages| && Touched(l.value, offset, |data|)
            then Some(Splice(Content(w, id, l.value), l.value, offset, data)) else Resolve(w, v, q)
  {
    var w' := Write(w, id, offset, data);
    ResolveElsewhere(w, w', id, v, q);
    ResolveElsewhere(w, w, id, v, q);
    var l := Lands(w, v, q, id);
    if l.Some? && HasPage(w, id, l.value) {
      assert At(l.value);
      if Touched(l.value, offset, |data|) {
        ResolvesWhole(w, id, l.value);
      } else if w[id].value.pages[l.value].Link? && w[id].value.parent.Some? && w[id].value.parent.value < id {
        ResolveBelow(w, w', id, w[id].value.parent.value, w[id].value.pages[l.value].page);
      }
    }
  }

  /** Object `a` is on the chain of parents of `v`. */
  predicate Ancestor(w: World, a: nat, v: nat)
    decreases v
  {
    v < |w| && w[v].Some? && w[v].value.parent.Some? && w[v].value.parent.value < v &&
    (w[v].value.parent.value == a || Ancestor(w, a, w[v].value.parent.value))
  }

  lemma {:induction false} LandsOnAncestor(w: World, v: nat, q: nat, id: nat)
    requires v != id && Lands(w, v, q, id).Some?
    ensures Ancestor(w, id, v)
    decreases v
  {
    var p := w[v].value.parent.value;
    if p != id {
      LandsOnAncestor(w, p, w[v].value.pages[q].page, id);
    }
  }

  /** Isolation: a write to `id` changes nothing in an object that is neither `id` itself
      nor one of its descendants; in particular no ancestor and no sibling. */
  lemma WriteIsolated(w: World, id: nat, offset: nat, data: seq<byte>, v: nat, q: nat)
    requires WholePages(w) && id < |w| && w[id].Some?
    requires Readable(w, id, offset, |data|)
    requires v != id && !Ancestor(w, id, v)
    ensures Resolve(Write(w, id, offset, data), v, q) == Resolve(w, v, q)
  {
    WriteSeen(w, id, offset, data, v, q);
    if Lands(w, v, q, id).Some? {
      LandsOnAncestor(w, v, q, id);
    }
  }

  /** In the written object itself, exactly the given range changes. */
  lemma WriteBytes(w: World, id: nat, offset: nat, data: seq<byte>, addr: nat)
    requires WholePages(w) && id < |w| && w[id].Some? && offset + |data| <= PAGE * |w[id].value.pages|
    requires Readable(w, id, offset, |data|)
    ensures ByteAt(Write(w, id, offset, data), id, addr) ==
            if offset <= addr < offset + |data| then data[addr - offset] else ByteAt(w, id, addr)
  {
    WriteSeen(w, id, offset, data, id, addr / PAGE);
    assert At(addr / PAGE);
    if Touched(addr / PAGE, offset, |data|) && addr / PAGE < |w[id].value.pages| {
      ResolvesWhole(w, id, addr / PAGE);
    }
  }

  // ---------------------------------------------------------------- steps of the loops

  lemma SameView(w: World, id: nat, i: nat)
    requires HasPage(w, id, i)
    ensures SetView(w, id, i, w[id].value.pages[i]) == w
  {
    var pages := w[id].value.pages;
    assert pages[i := pages[i]] == pages;
  }

  lemma SetTwice(w: World, id: nat, i: nat, p: PageView, p': PageView)
    requires HasPage(w, id, i)
    ensures SetView(SetView(w, id, i, p), id, i, p') == SetView(w, id, i, p')
  {
    var pages := w[id].value.pages;
    assert pages[i := p][i := p'] == pages[i := p'];
  }

  lemma WriteNothing(w: World, id: nat, offset: nat)
    requires id < |w| && w[id].Some?
    ensures Write(w, id, offset, []) == w
  {
    assert Write(w, id, offset, [])[id].value.pages == w[id].value.pages;
  }

  /** The pages still to be written read as they did when the write began. */
  lemma NotYetWritten(w: World, id: nat, offset: nat, data: seq<byte>, i: nat)
    requires id < |w| && w[id].Some? && !Touched(i, offset, |data|)
    ensures Resolve(Write(w, id, offset, data), id, i) == Resolve(w, id, i)
  {
    var w' := Write(w, id, offset, data);
    if HasPage(w, id, i) && w[id].value.pages[i].Link? && w[id].value.parent.Some? && w[id].value.parent.value < id {
      ResolveBelow(w, w', id, w[id].value.parent.value, w[id].value.pages[i].page);
    }
  }

  /** One more chunk of a write, all of it inside page `i`. */
  lemma WriteChunk(w: World, id: nat, offset: nat, data: seq<byte>, d: nat, c: nat, i: nat)
    requires HasPage(w, id, i) && |Content(w, id, i)| == PAGE && 0 < c && d + c <= |data|
    requires i == (offset + d) / PAGE && (d == 0 || (offset + d) % PAGE == 0) && (offset + d) % PAGE + c <= PAGE
    ensures SetView(Write(w, id, offset, data[..d]), id, i, Own(Splice(Content(w, id, i), i, offset, data[..d + c]))) ==
            Write(w, id, offset, data[..d + c])
  {
    var w1, w2 := Write(w, id, offset, data[..d]), Write(w, id, offset, data[..d + c]);
    var w3 := SetView(w1, id, i, Own(Splice(Content(w, id, i), i, offset, data[..d + c])));
    forall p | 0 <= p < |w[id].value.pages| ensures w3[id].value.pages[p] == w2[id].value.pages[p] {
      if p != i && Touched(p, offset, d) && |Content(w, id, p)| == PAGE {
        assert Splice(Content(w, id, p), p, offset, data[..d]) == Splice(Content(w, id, p), p, offset, data[..d + c]);
      }
    }
    assert w3[id].value.pages == w2[id].value.pages;
  }

  /** What copying the chunk into the frame makes of its bytes. */
  lemma ChunkBytes(was: Page, i: nat, offset: nat, data: seq<byte>, d: nat, c: nat)
    requires |was| == PAGE && 0 < c && d + c <= |data|
    requires i == (offset + d) / PAGE && (d == 0 || (offset + d) % PAGE == 0) && (offset + d) % PAGE + c <= PAGE
    ensures var po := (offset + d) % PAGE;
            was[..po] + data[d..d + c] + was[po + c..] == Splice(was, i, offset, data[..d + c])
  {
  }

  /** Own pages from `a` up to `b` read as zeros. */
  function Zeroed(w: World, id: nat, a: nat, b: nat): World
    requires id < |w| && w[id].Some?
  {
    var n := |w[id].value.pages|;
    w[id := Some(w[id].value.(pages := seq(n, i requires 0 <= i < n =>
      if a <= i < b && w[id].value.pages[i].Own? then Own(Zero()) else w[id].value.pages[i])))]
  }

  lemma ZeroedNone(w: World, id: nat, a: nat)
    requires id < |w| && w[id].Some?
    ensures Zeroed(w, id, a, a) == w
  {
    assert Zeroed(w, id, a, a)[id].value.pages == w[id].value.pages;
  }

  lemma ZeroedStep(w: World, id: nat, a: nat, b: nat)
    requires HasPage(w, id, b) && a <= b
    ensures Zeroed(w, id, a, b + 1) ==
            if w[id].value.pages[b].Own? then SetView(Zeroed(w, id, a, b), id, b, Own(Zero())) else Zeroed(w, id, a, b)
  {
    var z, z' := Zeroed(w, id, a, b), Zeroed(w, id, a, b + 1);
    if w[id].value.pages[b].Own? {
      assert SetView(z, id, b, Own(Zero()))[id].value.pages == z'[id].value.pages;
    } else {
      assert z[id].value.pages == z'[id].value.pages;
    }
  }

  /** The frames of the pages from `a` up to `b`. */
  function Held(pages: seq<PageState>, a: nat, b: nat): set<Frame>
    decreases b
  {
    if b <= a || b > |pages| then {}
    else Held(pages, a, b - 1) + if pages[b - 1].Committed? then {pages[b - 1].frame} else {}
  }

  /** How many of the pages from `a` up to `b` have no frame yet. */
  function Missing(pages: seq<PageState>, a: nat, b: nat): nat
    decreases b
  {
    if b <= a || b > |pages| then 0 else Missing(pages, a, b - 1) + if pages[b - 1].Uncommitted? then 1 else 0
  }

  lemma {:induction false} MissingMore(pages: seq<PageState>, a: nat, i: nat, b: nat)
    requires a <= i < b <= |pages|
    ensures Missing(pages, a, i + 1) == Missing(pages, a, i) + if pages[i].Uncommitted? then 1 else 0
    ensures Missing(pages, a, i + 1) <= Missing(pages, a, b)
    decreases b
  {
    if i + 1 < b {
      MissingMore(pages, a, i, b - 1);
    }
  }

  function Truncated(w: World, id: nat, n: nat): World
    requires id < |w| && w[id].Some? && n <= |w[id].value.pages|
  {
    w[id := Some(w[id].value.(pages := w[id].value.pages[..n]))]
  }

  function Extended(w: World, id: nat, n: nat): World
    requires id < |w| && w[id].Some? && n >= |w[id].value.pages|
  {
    w[id := Some(w[id].value.(pages := w[id].value.pages + seq(n - |w[id].value.pages|, _ => Own(Zero()))))]
  }

  function SetObject(vmos: Objects, id: nat, pages: seq<PageState>): Objects
    requires id < |vmos| && vmos[id].Some?
  {
    vmos[id := Some(vmos[id].value.(pages := pages, size := PAGE * |pages|))]
  }

  /** Pages without frames can be cut off. */
  lemma CutPages(vmos: Objects, owner: map<Frame, (nat, nat)>, mem: map<Frame, Page>, id: nat, n: nat)
    requires SlotsOk(vmos, owner, mem) && ObjectsOk(vmos) && id < |vmos| && vmos[id].Some?
    requires n <= |vmos[id].value.pages|
    requires forall i :: n <= i < |vmos[id].value.pages| ==> !vmos[id].value.pages[i].Committed?
    ensures SlotsOk(SetObject(vmos, id, vmos[id].value.pages[..n]), owner, mem)
    ensures ObjectsOk(SetObject(vmos, id, vmos[id].value.pages[..n]))
    ensures WorldOf(SetObject(vmos, id, vmos[id].value.pages[..n]), mem) == Truncated(WorldOf(vmos, mem), id, n)
  {
    var vmos' := SetObject(vmos, id, vmos[id].value.pages[..n]);
    assert WorldOf(vmos', mem)[id].value.pages == Truncated(WorldOf(vmos, mem), id, n)[id].value.pages;
  }

  lemma AddPages(vmos: Objects, owner: map<Frame, (nat, nat)>, mem: map<Frame, Page>, id: nat, k: nat)
    requires SlotsOk(vmos, owner, mem) && ObjectsOk(vmos) && id < |vmos| && vmos[id].Some?
    ensures var vmos' := SetObject(vmos, id, vmos[id].value.pages + seq(k, _ => Uncommitted));
            SlotsOk(vmos', owner, mem) && ObjectsOk(vmos')
            && WorldOf(vmos', mem) == Extended(WorldOf(vmos, mem), id, |vmos[id].value.pages| + k)
  {
    var vmos' := SetObject(vmos, id, vmos[id].value.pages + seq(k, _ => Uncommitted));
    assert WorldOf(vmos', mem)[id].value.pages ==
           Extended(WorldOf(vmos, mem), id, |vmos[id].value.pages| + k)[id].value.pages;
  }

  /** An object without frames joins the others. */
  lemma AddObject(vmos: Objects, owner: map<Frame, (nat, nat)>, mem: map<Frame, Page>, v: Inner)
    requires SlotsOk(vmos, owner, mem) && ObjectsOk(vmos) && ObjectOk(vmos, |vmos|, v)
    requires forall i :: 0 <= i < |v.pages| ==> !v.pages[i].Committed?
    ensures SlotsOk(vmos + [Some(v)], owner, mem) && ObjectsOk(vmos + [Some(v)])
    ensures WorldOf(vmos + [Some(v)], mem) == WorldOf(vmos, mem) + [ViewOf(Some(v), mem)]
  {
  }

  ghost function Pos(fs: seq<Frame>, f: Frame): nat
    requires f in fs
  {
    var i :| 0 <= i < |fs| && fs[i] == f; i
  }

  /** Page `i` of object `id` holds frame fs[i]. */
  ghost function Claims(fs: seq<Frame>, id: nat): map<Frame, (nat, nat)> {
    map f | f in fs :: (id, Pos(fs, f))
  }

  ghost predicate AllZero(mem: map<Frame, Page>, fs: set<Frame>) {
    forall f {:trigger At(f)} :: At(f) && f in fs ==> f in mem && mem[f] == Zero()
  }

  /** Every frame is in exactly one of the three sets. */
  ghost predicate Partition(frames: set<Frame>, free: set<Frame>, held: set<Frame>, lost: set<Frame>) {
    forall f {:trigger At(f)} :: At(f) ==>
      && (f in frames <==> f in free || f in held || f in lost)
      && !(f in free && f in held) && !(f in free && f in lost) && !(f in held && f in lost)
  }

  lemma Disjoint(frames: set<Frame>, free: set<Frame>, held: set<Frame>, lost: set<Frame>)
    requires Partition(frames, free, held, lost)
    ensures free !! held && free !! lost && held !! lost
  {
    forall f: Frame ensures !(f in free && f in held) && !(f in free && f in lost) && !(f in held && f in lost) {
      assert At(f);
    }
  }

  /** So the number of frames never changes, whatever moves between the sets. */
  lemma Conservation(frames: set<Frame>, free: set<Frame>, held: set<Frame>, lost: set<Frame>)
    requires Partition(frames, free, held, lost)
    ensures |free| + |held| + |lost| == |frames|
  {
    forall f: Frame
      ensures f in frames <==> f in free || f in held || f in lost
      ensures !(f in free && f in held) && !(f in free && f in lost) && !(f in held && f in lost)
    {
      assert At(f);
    }
    assert frames == free + held + lost;
    assert free !! held && (free + held) !! lost;
  }

  lemma CardMinus(a: set<Frame>, b: set<Frame>)
    requires b <= a
    ensures |a - b| == |a| - |b|
  {
    assert a == (a - b) + b;
  }

  /** Memory outside the held frames does not matter. */
  lemma SameMemory(vmos: Objects, owner: map<Frame, (nat, nat)>, mem: map<Frame, Page>, mem': map<Frame, Page>)
    requires SlotsOk(vmos, owner, mem)
    requires forall f :: f in owner && f in mem ==> f in mem' && mem'[f] == mem[f]
    ensures SlotsOk(vmos, owner, mem') && WorldOf(vmos, mem') == WorldOf(vmos, mem)
  {
    forall id | 0 <= id < |vmos| && vmos[id].Some?
      ensures ViewOf(vmos[id], mem').value.pages == ViewOf(vmos[id], mem).value.pages
    {
      forall i | 0 <= i < |vmos[id].value.pages| && vmos[id].value.pages[i].Committed?
        ensures vmos[id].value.pages[i].frame in owner && vmos[id].value.pages[i].frame in mem
      {
        SlotAt(vmos, owner, mem, id, i);
      }
    }
  }

  function Pages(fs: seq<Frame>): seq<PageState> {
    seq(|fs|, i requires 0 <= i < |fs| => Committed(fs[i], true))
  }

  function ZeroPages(n: nat): seq<PageView> {
    seq(n, _ => Own(Zero()))
  }

  /** An object that comes with frames of its own, all zero. */
  lemma AddCommitted(vmos: Objects, owner: map<Frame, (nat, nat)>, mem: map<Frame, Page>, fs: seq<Frame>,
                     options: Options)
    requires SlotsOk(vmos, owner, mem) && ObjectsOk(vmos) && Distinct(fs)
    requires Elems(fs) !! owner.Keys && AllZero(mem, Elems(fs))
    ensures var v := Inner(PAGE * |fs|, Pages(fs), options, None);
            && SlotsOk(vmos + [Some(v)], owner + Claims(fs, |vmos|), mem) && ObjectsOk(vmos + [Some(v)])
            && WorldOf(vmos + [Some(v)], mem) ==
                 WorldOf(vmos, mem) + [Some(View(ZeroPages(|fs|), options.resizable, None))]
  {
    var v := Inner(PAGE * |fs|, Pages(fs), options, None);
    forall i | 0 <= i < |fs|
      ensures fs[i] in mem && mem[fs[i]] == Zero() && fs[i] in Elems(fs) && Claims(fs, |vmos|)[fs[i]] == (|vmos|, i)
    {
      assert At(fs[i]) && fs[i] in Elems(fs) && At(i) && At(Pos(fs, fs[i]));
    }
    assert ViewOf(Some(v), mem).value.pages == ZeroPages(|fs|);
    ClaimedSlots(vmos, owner, mem, fs, v);
  }

  lemma ClaimedSlots(vmos: Objects, owner: map<Frame, (nat, nat)>, mem: map<Frame, Page>, fs: seq<Frame>, v: Inner)
    requires SlotsOk(vmos, owner, mem) && v.pages == Pages(fs) && Elems(fs) !! owner.Keys
    requires forall i :: 0 <= i < |fs| ==>
               fs[i] in mem && mem[fs[i]] == Zero() && fs[i] in Claims(fs, |vmos|)
               && Claims(fs, |vmos|)[fs[i]] == (|vmos|, i)
    ensures SlotsOk(vmos + [Some(v)], owner + Claims(fs, |vmos|), mem)
  {
    var vmos', claims := vmos + [Some(v)], Claims(fs, |vmos|);
    forall id: nat, i: nat | Slot(vmos', id, i) && vmos'[id].value.pages[i].Committed?
      ensures var p := vmos'[id].value.pages[i];
              && p.canFree && p.frame in owner + claims && (owner + claims)[p.frame] == (id, i)
              && p.frame in mem && |mem[p.frame]| == PAGE
    {
      if id < |vmos| {
        SlotAt(vmos, owner, mem, id, i);
        assert vmos[id].value.pages[i].frame !in Elems(fs);
      } else {
        assert v.pages[i].frame == fs[i];
      }
    }
    forall f | f in owner + claims
      ensures Slot(vmos', (owner + claims)[f].0, (owner + claims)[f].1)
      ensures vmos'[(owner + claims)[f].0].value.pages[(owner + claims)[f].1] == Committed(f, true)
    {
      assert At(f);
      if f in claims {
        assert fs[Pos(fs, f)] == f;
      }
    }
  }

  predicate Childless(vmos: Objects, id: nat) {
    forall j :: 0 <= j < |vmos| && vmos[j].Some? ==> vmos[j].value.parent != Some(id)
  }

  lemma DropObject(vmos: Objects, owner: map<Frame, (nat, nat)>, mem: map<Frame, Page>, id: nat)
    requires SlotsOk(vmos, owner, mem) && ObjectsOk(vmos) && id < |vmos| && vmos[id].Some? && Childless(vmos, id)
    requires forall i :: 0 <= i < |vmos[id].value.pages| ==> !vmos[id].value.pages[i].Committed?
    ensures SlotsOk(vmos[id := None], owner, mem) && ObjectsOk(vmos[id := None])
    ensures WorldOf(vmos[id := None], mem) == WorldOf(vmos, mem)[id := None]
  {
  }

  /** The fewest pages that hold `size` bytes. */
  function PageCount(size: nat): (n: nat)
    ensures size <= PAGE * n < size + PAGE
  {
    (size + PAGE - 1) / PAGE
  }

  /** The page of byte `addr` is one the object holds itself. */
  predicate OwnAt(w: World, id: nat, addr: nat) {
    HasPage(w, id, addr / PAGE) && w[id].value.pages[addr / PAGE].Own?
  }

  /** The page of byte `addr` is there and does not wait to be committed. */
  predicate Backed(vmos: Objects, id: nat, addr: nat) {
    Slot(vmos, id, addr / PAGE) && !vmos[id].value.pages[addr / PAGE].Uncommitted?
  }

  /** The page of byte `addr` is one that a byte of the range, or its start, lies in. */
  predicate InPages(addr: nat, offset: nat, size: nat) {
    offset / PAGE <= addr / PAGE < PageCount(offset + size)
  }

  lemma RangeInPages(addr: nat, offset: nat, size: nat)
    requires offset <= addr < offset + size
    ensures InPages(addr, offset, size)
  {
  }

  lemma ZeroedBytes(w: World, id: nat, offset: nat, size: nat)
    requires id < |w| && w[id].Some?
    ensures var w' := Zeroed(w, id, offset / PAGE, PageCount(offset + size));
            forall addr: nat :: ByteAt(w', id, addr) ==
              if InPages(addr, offset, size) && OwnAt(w, id, addr) then 0 else ByteAt(w, id, addr)
  {
    var w' := Zeroed(w, id, offset / PAGE, PageCount(offset + size));
    forall addr: nat
      ensures ByteAt(w', id, addr) ==
              if InPages(addr, offset, size) && OwnAt(w, id, addr) then 0 else ByteAt(w, id, addr)
    {
      SameLink(w, w', id, addr / PAGE);
    }
  }

  /** A page that is the same, in an object of which all older ones are the same. */
  lemma SameLink(w: World, w': World, id: nat, i: nat)
    requires |w'| == |w| && id < |w| && forall j :: 0 <= j < id ==> w'[j] == w[j]
    requires w[id].Some? && w'[id].Some? && w'[id].value.parent == w[id].value.parent
    ensures HasPage(w, id, i) && HasPage(w', id, i) && w'[id].value.pages[i] == w[id].value.pages[i] ==>
              Resolve(w', id, i) == Resolve(w, id, i)
  {
    if HasPage(w, id, i) && w[id].value.pages[i].Link? && w[id].value.parent.Some? && w[id].value.parent.value < id {
      ResolveBelow(w, w', id, w[id].value.parent.value, w[id].value.pages[i].page);
    }
  }

  lemma ResizedBytes(w: World, w': World, id: nat, n: nat)
    requires id < |w| && w[id].Some?
    requires w' == if n < |w[id].value.pages| then Truncated(w, id, n) else Extended(w, id, n)
    ensures forall addr: nat :: ByteAt(w', id, addr) == if addr < PAGE * n then ByteAt(w, id, addr) else 0
  {
    forall addr: nat
      ensures ByteAt(w', id, addr) == if addr < PAGE * n then ByteAt(w, id, addr) else 0
    {
      SameLink(w, w', id, addr / PAGE);
    }
  }

  lemma ClonedBytes(w: World, id: nat, start: nat, n: nat)
    requires id < |w| && w[id].Some?
    ensures var w' := w + [Some(CloneView(id, start, n))];
            forall addr: nat :: ByteAt(w', |w|, addr) ==
              if addr < PAGE * n then ByteAt(w, id, PAGE * start + addr) else 0
  {
    var w' := w + [Some(CloneView(id, start, n))];
    forall addr: nat
      ensures ByteAt(w', |w|, addr) == if addr < PAGE * n then ByteAt(w, id, PAGE * start + addr) else 0
    {
      CloneReads(w, id, start, n, |w|, addr / PAGE);
      assert (PAGE * start + addr) / PAGE == start + addr / PAGE && (PAGE * start + addr) % PAGE == addr % PAGE;
    }
  }

  lemma CreatedBytes(w: World, n: nat, resizable: bool)
    ensures var w' := w + [Some(View(ZeroPages(n), resizable, None))];
            forall addr: nat :: ByteAt(w', |w|, addr) == 0
  {
  }

  /** The frames a create that fails part-way keeps: all that were free. */
  function LostBy(size: nat, options: Options, free: set<Frame>): set<Frame> {
    if size > 0 && options.commit && !options.contiguous && PageCount(size) > |free| then free else {}
  }

  lemma Append(fs: seq<Frame>, f: Frame)
    requires Distinct(fs) && f !in Elems(fs)
    ensures Distinct(fs + [f]) && Elems(fs + [f]) == Elems(fs) + {f}
  {
  }

  function Run(base: Frame, n: nat): seq<Frame> {
    seq(n, i requires 0 <= i < n => base + i)
  }

  lemma RunDistinct(base: Frame, n: nat)
    ensures Distinct(Run(base, n)) && |Elems(Run(base, n))| == n
  {
    DistinctCount(Run(base, n));
  }

  /** A fresh clone: every page links to the parent's page. */
  function CloneView(parent: nat, start: nat, n: nat): View {
    View(seq(n, i requires 0 <= i < n => Link(start + i)), false, Some(parent))
  }

  /** A clone starts out reading as the pages it was made from; no other object changes. */
  lemma CloneReads(w: World, id: nat, start: nat, n: nat, v: nat, q: nat)
    requires id < |w| && w[id].Some?
    ensures var w' := w + [Some(CloneView(id, start, n))];
            Resolve(w', v, q) ==
              if v == |w| then if q < n then Resolve(w, id, start + q) else None else Resolve(w, v, q)
  {
    var w' := w + [Some(CloneView(id, start, n))];
    if v < |w| {
      ResolvePrefix(w, w', v, q);
    } else if v == |w| && q < n {
      ResolvePrefix(w, w', id, start + q);
    }
  }

  lemma {:induction false} ResolvePrefix(w: World, w': World, v: nat, q: nat)
    requires w <= w' && v < |w|
    ensures Resolve(w', v, q) == Resolve(w, v, q)
    decreases v
  {
    if HasPage(w, v, q) && w[v].value.pages[q].Link? && w[v].value.parent.Some? && w[v].value.parent.value < v {
      ResolvePrefix(w, w', w[v].value.parent.value, w[v].value.pages[q].page);
    }
  }

  /** Exactly when create loses frames: a committing create that needs more single frames
      than there are. */
  lemma WhenCreateLeaks(size: nat, options: Options, free: set<Frame>)
    ensures LostBy(size, options, free) != {} <==>
            size > 0 && options.commit && !options.contiguous && 0 < |free| < PageCount(size)
    ensures LostBy(2 * PAGE, Options(true, false, false), {7}) == {7}
  {
    if free != {} {
      var f :| f in free;
      assert |free| >= |{f}| by {
        CardMinus(free, {f});
      }
    }
  }

  // ---------------------------------------------------------------- implementation

  lemma WholeWorld(vmos: Objects, owner: map<Frame, (nat, nat)>, mem: map<Frame, Page>)
    requires SlotsOk(vmos, owner, mem)
    ensures WholePages(WorldOf(vmos, mem))
  {
    forall id: nat, i: nat | HasPage(WorldOf(vmos, mem), id, i) && WorldOf(vmos, mem)[id].value.pages[i].Own?
      ensures |WorldOf(vmos, mem)[id].value.pages[i].bytes| == PAGE
    {
      if vmos[id].value.pages[i].Committed? {
        SlotAt(vmos, owner, mem, id, i);
      }
    }
  }

  /** How many frames get_page takes: one for an uncommitted page, and for a write to a
      shared page one for the copy and what the parent's page takes. */
  function Needed(vmos: Objects, id: nat, i: nat, write: bool): nat
    decreases id
  {
    if !Slot(vmos, id, i) then 0
    else match vmos[id].value.pages[i]
         case Committed(_, _) => 0
         case Uncommitted => 1
         case CopyOnWrite(parentOffset) =>
           (if write then 1 else 0) +
           if vmos[id].value.parent.Some? && vmos[id].value.parent.value < id
           then Needed(vmos, vmos[id].value.parent.value, parentOffset / PAGE, false) else 0
  }

  /** The kernel's objects, the frame allocator and physical memory. */
  class Kernel {
    var vmos: Objects
    var free: set<Frame>
    var mem: map<Frame, Page>

    /** The frames the allocator manages, which page holds which, and which were lost. */
    ghost const frames: set<Frame>
    ghost var owner: map<Frame, (nat, nat)>
    ghost var leaked: set<Frame>

    /** Each frame is free, or held by exactly one page of one object, or lost. */
    ghost predicate FramesOk()
      reads this
    {
      Partition(frames, free, owner.Keys, leaked)
    }

    ghost predicate Valid()
      reads this
    {
      ObjectsOk(vmos) && SlotsOk(vmos, owner, mem) && FramesOk()
    }

    ghost function World(): World
      reads this
    {
      WorldOf(vmos, mem)
    }

    constructor (all: set<Frame>)
      ensures Valid() && vmos == [] && free == all && frames == all && leaked == {}
    {
      vmos, free, mem := [], all, map[];
      frames, owner, leaked := all, map[], {};
    }

    /** Takes a frame, fills it and makes it page `i` of object `id`. */
    method Place(id: nat, i: nat, bytes: Page) returns (r: Option<Frame>)
      requires Valid() && Slot(vmos, id, i) && !vmos[id].value.pages[i].Committed? && |bytes| == PAGE
      modifies this`vmos, this`free, this`mem, this`owner
      ensures Valid()
      ensures r.None? <==> old(free) == {}
      ensures r.None? ==> vmos == old(vmos) && mem == old(mem) && free == old(free) && owner == old(owner)
      ensures r.Some? ==>
                && r.value in old(free) && free == old(free) - {r.value}
                && World() == SetView(old(World()), id, i, Own(bytes))
                && vmos == SetPage(old(vmos), id, i, Committed(r.value, true))
                && r.value in mem && mem[r.value] == bytes
    {
      if free == {} {
        return None;
      }
      var f :| f in free;
      assert At(f);
      Install(vmos, owner, mem, id, i, f, bytes);
      PageKept(vmos, id, i, Committed(f, true));
      free := free - {f};
      mem := mem[f := bytes];
      vmos := SetPage(vmos, id, i, Committed(f, true));
      owner := owner[f := (id, i)];
      r := Some(f);
    }

    /** Returns the frame of a committed page; the frame was not free before. */
    method Release(id: nat, i: nat)
      requires Valid() && Slot(vmos, id, i) && vmos[id].value.pages[i].Committed?
      modifies this`vmos, this`free, this`owner
      ensures Valid()
      ensures var f := old(vmos[id].value.pages[i].frame);
              f !in old(free) && free == old(free) + {f}
      ensures vmos == SetPage(old(vmos), id, i, Uncommitted)
      ensures World() == SetView(old(World()), id, i, Own(Zero()))
    {
      SlotAt(vmos, owner, mem, id, i);
      Remove(vmos, owner, mem, id, i);
      PageKept(vmos, id, i, Uncommitted);
      var f := vmos[id].value.pages[i].frame;
      assert At(f);
      free := free + {f};
      vmos := SetPage(vmos, id, i, Uncommitted);
      owner := owner - {f};
    }

    method GetPage(id: nat, offset: nat, write: bool) returns (r: Result<Frame, VmoError>)
      requires Valid() && id < |vmos| && vmos[id].Some?
      modifies this`vmos, this`free, this`mem, this`owner
      ensures Valid() && free <= old(free)
      ensures Resolve(old(World()), id, offset / PAGE).None? <==> r == Err(OutOfRange)
      ensures r.Err? && r.error != OutOfRange ==> r.error == NoMemory && free == {}
      ensures Resolve(old(World()), id, offset / PAGE).Some? ==>
                (r == Err(NoMemory) <==> |old(free)| < Needed(old(vmos), id, offset / PAGE, write))
      ensures r.Ok? ==> |free| + Needed(old(vmos), id, offset / PAGE, write) == |old(free)|
      ensures r.Ok? ==> r.value in mem && Resolve(old(World()), id, offset / PAGE) == Some(mem[r.value])
      ensures World() == if r.Ok? && write then SetView(old(World()), id, offset / PAGE, Own(mem[r.value]))
              else old(World())
      ensures r.Ok? && write ==>
                && Slot(vmos, id, offset / PAGE)
                && vmos[id].value.pages[offset / PAGE] == Committed(r.value, true)
      decreases id
    {
      ghost var w := World();
      var i := offset / PAGE;
      if i >= |vmos[id].value.pages| {
        return Err(OutOfRange);
      }
      match vmos[id].value.pages[i] {
        case Committed(f, _) =>
          SlotAt(vmos, owner, mem, id, i);
          SameView(w, id, i);
          r := Ok(f);
        case Uncommitted =>
          SameView(w, id, i);
          var f := Place(id, i, Zero());
          r := if f.Some? then Ok(f.value) else Err(NoMemory);
        case CopyOnWrite(parentOffset) =>
          assert At(id);
          var parent := vmos[id].value.parent.value;
          var source := GetPage(parent, parentOffset, false);
          assert World()[id] == w[id] && w[id].value.pages[i].Link?;
          assert HasPage(World(), id, i) && World()[id].value.pages[i] == ViewOfPage(vmos[id].value.pages[i], mem);
          if source.Err? || !write {
            return source;
          }
          WholeWorld(vmos, owner, mem);
          ResolvesWhole(World(), parent, parentOffset / PAGE);
          var f := Place(id, i, mem[source.value]);
          r := if f.Some? then Ok(f.value) else Err(NoMemory);
      }
    }

    method ReadAt(id: nat, offset: nat, buf: array<byte>) returns (r: Result<nat, VmoError>)
      requires Valid() && id < |vmos| && vmos[id].Some?
      modifies this`vmos, this`free, this`mem, this`owner, buf
      ensures Valid() && free <= old(free) && World() == old(World())
      ensures var size := old(vmos[id].value.size);
              r.Ok? ==> r.value == if offset >= size then 0 else Min(buf.Length, size - offset)
      ensures r.Ok? ==>
                && Loaded(World(), id, offset, old(buf[..]), buf[..], r.value)
                && Readable(World(), id, offset, r.value)
      ensures r == Err(OutOfRange) ==> !Readable(World(), id, offset, buf.Length)
      ensures r.Err? && r.error != OutOfRange ==> r.error == NoMemory && free == {}
    {
      assert At(id);
      if offset >= vmos[id].value.size {
        return Ok(0);
      }
      var n := if buf.Length < vmos[id].value.size - offset then buf.Length else vmos[id].value.size - offset;
      ghost var w, was := World(), buf[..];
      var done := 0;
      while done < n
        invariant 0 <= done <= n
        invariant Valid() && free <= old(free) && World() == w && id < |vmos| && vmos[id].Some?
        invariant Loaded(w, id, offset, was, buf[..], done) && Readable(w, id, offset, done)
      {
        var po := (offset + done) % PAGE;
        var chunk := if PAGE - po < n - done then PAGE - po else n - done;
        var loaded := ReadStep(id, offset, buf, done, chunk, was);
        if loaded.Err? {
          return Err(loaded.error);
        }
        done := done + chunk;
      }
      r := Ok(done);
    }

    /** One round of the read loop. */
    method ReadStep(id: nat, offset: nat, buf: array<byte>, d: nat, c: nat, ghost was: seq<byte>)
      returns (r: Result<(), VmoError>)
      requires Valid() && id < |vmos| && vmos[id].Some?
      requires 0 < c && d + c <= buf.Length && (offset + d) % PAGE + c <= PAGE
      requires Loaded(World(), id, offset, was, buf[..], d) && Readable(World(), id, offset, d)
      modifies this`vmos, this`free, this`mem, this`owner, buf
      ensures Valid() && free <= old(free) && World() == old(World()) && id < |vmos| && vmos[id].Some?
      ensures r.Ok? ==> Loaded(World(), id, offset, was, buf[..], d + c) && Readable(World(), id, offset, d + c)
      ensures r == Err(OutOfRange) ==> !Readable(World(), id, offset, buf.Length)
      ensures r.Err? && r.error != OutOfRange ==> r.error == NoMemory && free == {}
    {
      var f := GetPage(id, offset + d, false);
      if f.Err? {
        if f.error == OutOfRange {
          NotReadable(World(), id, offset, d, buf.Length);
        }
        return Err(f.error);
      }
      LoadChunk(id, offset, buf, d, c, f.value, was);
      ReadableStep(World(), id, offset, d, c);
      r := Ok(());
    }

    /** Copies one chunk out of the frame its page reads from. */
    method LoadChunk(id: nat, offset: nat, buf: array<byte>, d: nat, c: nat, f: Frame, ghost was: seq<byte>)
      requires Valid() && f in mem && Resolve(World(), id, (offset + d) / PAGE) == Some(mem[f])
      requires d + c <= buf.Length && (offset + d) % PAGE + c <= PAGE
      requires Loaded(World(), id, offset, was, buf[..], d)
      modifies buf
      ensures Loaded(World(), id, offset, was, buf[..], d + c)
    {
      var po := (offset + d) % PAGE;
      WholeWorld(vmos, owner, mem);
      ResolvesWhole(World(), id, (offset + d) / PAGE);
      forall k | d <= k < d + c {
        buf[k] := mem[f][po + (k - d)];
      }
      LoadMore(World(), id, offset, was, old(buf[..]), buf[..], d, c, mem[f]);
    }

    method WriteAt(id: nat, offset: nat, data: seq<byte>) returns (r: Result<nat, VmoError>)
      requires Valid() && id < |vmos| && vmos[id].Some?
      modifies this`vmos, this`free, this`mem, this`owner
      ensures Valid() && free <= old(free)
      ensures var size := old(vmos[id].value.size);
              r.Ok? ==> r.value == if offset >= size then 0 else Min(|data|, size - offset)
      ensures r.Ok? ==> World() == Write(old(World()), id, offset, data[..r.value])
      ensures r.Ok? ==> Readable(old(World()), id, offset, r.value)
      ensures r.Err? ==> exists k :: 0 <= k <= |data| && World() == Write(old(World()), id, offset, data[..k])
      ensures r == Err(OutOfRange) ==> !Readable(old(World()), id, offset, |data|)
      ensures r.Err? && r.error != OutOfRange ==> r.error == NoMemory && free == {}
    {
      assert At(id);
      ghost var w := World();
      WriteNothing(w, id, offset);
      assert data[..0] == [];
      if offset >= vmos[id].value.size {
        return Ok(0);
      }
      var n := if |data| < vmos[id].value.size - offset then |data| else vmos[id].value.size - offset;
      var done := 0;
      while done < n
        invariant 0 <= done <= n && (done == 0 || done == n || (offset + done) % PAGE == 0)
        invariant Valid() && free <= old(free) && id < |vmos| && vmos[id].Some?
        invariant World() == Write(w, id, offset, data[..done])
        invariant Readable(w, id, offset, done)
      {
        var po := (offset + done) % PAGE;
        var chunk := if PAGE - po < n - done then PAGE - po else n - done;
        var stored := WriteStep(id, offset, data, done, chunk, w);
        if stored.Err? {
          return Err(stored.error);
        }
        done := done + chunk;
      }
      r := Ok(done);
    }

    /** One round of the write loop. */
    method WriteStep(id: nat, offset: nat, data: seq<byte>, d: nat, c: nat, ghost w: World)
      returns (r: Result<(), VmoError>)
      requires Valid() && id < |vmos| && vmos[id].Some? && id < |w| && w[id].Some?
      requires 0 < c && d + c <= |data|
      requires World() == Write(w, id, offset, data[..d]) && Readable(w, id, offset, d)
      requires (d == 0 || (offset + d) % PAGE == 0) && (offset + d) % PAGE + c <= PAGE
      modifies this`vmos, this`free, this`mem, this`owner
      ensures Valid() && free <= old(free) && id < |vmos| && vmos[id].Some?
      ensures r.Ok? ==> World() == Write(w, id, offset, data[..d + c]) && Readable(w, id, offset, d + c)
      ensures r.Err? ==> World() == old(World())
      ensures r == Err(OutOfRange) ==> !Readable(w, id, offset, |data|)
      ensures r.Err? && r.error != OutOfRange ==> r.error == NoMemory && free == {}
    {
      NotYetWritten(w, id, offset, data[..d], (offset + d) / PAGE);
      var f := GetPage(id, offset + d, true);
      if f.Err? {
        if f.error == OutOfRange {
          NotReadable(w, id, offset, d, |data|);
        }
        return Err(f.error);
      }
      StoreChunk(id, offset, data, d, c, f.value, w);
      ReadableStep(w, id, offset, d, c);
      r := Ok(());
    }

    /** Copies one chunk into the frame that holds its page. */
    method StoreChunk(id: nat, offset: nat, data: seq<byte>, d: nat, c: nat, f: Frame, ghost w: World)
      requires Valid() && Slot(vmos, id, (offset + d) / PAGE) && f in mem
      requires vmos[id].value.pages[(offset + d) / PAGE] == Committed(f, true)
      requires 0 < c && d + c <= |data|
      requires (d == 0 || (offset + d) % PAGE == 0) && (offset + d) % PAGE + c <= PAGE
      requires HasPage(w, id, (offset + d) / PAGE) && Resolve(w, id, (offset + d) / PAGE) == Some(mem[f])
      requires World() == SetView(Write(w, id, offset, data[..d]), id, (offset + d) / PAGE, Own(mem[f]))
      modifies this`mem
      ensures Valid() && World() == Write(w, id, offset, data[..d + c])
    {
      ghost var i := (offset + d) / PAGE;
      var po := (offset + d) % PAGE;
      SlotAt(vmos, owner, mem, id, i);
      var bytes := mem[f][..po] + data[d..d + c] + mem[f][po + c..];
      ChunkBytes(mem[f], i, offset, data, d, c);
      Poke(vmos, owner, mem, id, i, bytes);
      SetTwice(Write(w, id, offset, data[..d]), id, i, Own(mem[f]), Own(bytes));
      WriteChunk(w, id, offset, data, d, c, i);
      mem := mem[f := bytes];
    }

    method Commit(id: nat, offset: nat, size: nat) returns (r: Result<(), VmoError>)
      requires Valid() && id < |vmos| && vmos[id].Some?
      modifies this`vmos, this`free, this`mem, this`owner
      ensures Valid() && free <= old(free) && World() == old(World())
      ensures r == Err(OutOfRange) <==> offset + size > PAGE * |old(vmos)[id].value.pages|
      ensures r.Err? && r.error != OutOfRange ==> r.error == NoMemory && free == {}
      ensures offset + size <= PAGE * |old(vmos)[id].value.pages| ==>
                var missing := Missing(old(vmos)[id].value.pages, offset / PAGE, PageCount(offset + size));
                && (r == Err(NoMemory) <==> missing > |old(free)|)
                && (r.Ok? ==> |free| + missing == |old(free)|)
      ensures |vmos| == |old(vmos)| && forall j :: 0 <= j < |vmos| && j != id ==> vmos[j] == old(vmos)[j]
      ensures vmos[id].Some? && |vmos[id].value.pages| == |old(vmos)[id].value.pages|
      ensures forall i :: 0 <= i < |vmos[id].value.pages| && vmos[id].value.pages[i] != old(vmos)[id].value.pages[i] ==>
                old(vmos)[id].value.pages[i].Uncommitted? && offset / PAGE <= i < PageCount(offset + size)
      ensures r.Ok? ==> forall i :: offset / PAGE <= i < PageCount(offset + size) ==>
                          Slot(vmos, id, i) && !vmos[id].value.pages[i].Uncommitted?
      ensures r.Ok? ==> forall addr: nat :: offset <= addr < offset + size ==> Backed(vmos, id, addr)
    {
      ghost var w := World();
      var i, end := offset / PAGE, PageCount(offset + size);
      if end > |vmos[id].value.pages| {
        return Err(OutOfRange);
      }
      ghost var start, pages := i, vmos[id].value.pages;
      while i < end
        invariant start <= i && (start <= end ==> i <= end) && (start > end ==> i == start)
        invariant Valid() && free <= old(free) && World() == w && |vmos| == |old(vmos)| && vmos[id].Some?
        invariant forall j :: 0 <= j < |vmos| && j != id ==> vmos[j] == old(vmos)[j]
        invariant |vmos[id].value.pages| == |pages| && |free| + Missing(pages, start, i) == |old(free)|
        invariant forall k :: start <= k < i ==> !vmos[id].value.pages[k].Uncommitted?
        invariant forall k :: 0 <= k < |pages| && vmos[id].value.pages[k] != pages[k] ==>
                    pages[k].Uncommitted? && start <= k < i
      {
        MissingMore(pages, start, i, end);
        if vmos[id].value.pages[i].Uncommitted? {
          var placed := CommitOne(id, i, w);
          if !placed {
            return Err(NoMemory);
          }
        }
        i := i + 1;
      }
      forall addr: nat | offset <= addr < offset + size
        ensures Backed(vmos, id, addr)
      {
        RangeInPages(addr, offset, size);
      }
      r := Ok(());
    }

    /** Gives an uncommitted page a frame of zeros. */
    method CommitOne(id: nat, i: nat, ghost w: World) returns (ok: bool)
      requires Valid() && Slot(vmos, id, i) && vmos[id].value.pages[i].Uncommitted? && World() == w
      modifies this`vmos, this`free, this`mem, this`owner
      ensures Valid() && World() == w && free <= old(free) && (ok <==> old(free) != {})
      ensures !ok ==> vmos == old(vmos) && free == {}
      ensures ok ==> |free| + 1 == |old(free)| && |vmos| == |old(vmos)| && vmos[id].Some?
      ensures ok ==> forall j :: 0 <= j < |vmos| && j != id ==> vmos[j] == old(vmos)[j]
      ensures ok ==>
                && |vmos[id].value.pages| == |old(vmos)[id].value.pages| && vmos[id].value.pages[i].Committed?
                && forall k :: 0 <= k < |vmos[id].value.pages| && k != i ==>
                     vmos[id].value.pages[k] == old(vmos)[id].value.pages[k]
    {
      SameView(w, id, i);
      var f := Place(id, i, Zero());
      ok := f.Some?;
    }

    method Decommit(id: nat, offset: nat, size: nat) returns (r: Result<(), VmoError>)
      requires Valid() && id < |vmos| && vmos[id].Some?
      modifies this`vmos, this`free, this`owner
      ensures Valid() && old(free) <= free
      ensures r.Err? <==> offset + size > PAGE * |old(vmos)[id].value.pages|
      ensures r.Err? ==> r.error == OutOfRange && World() == old(World())
      ensures r.Ok? ==> forall addr: nat :: offset <= addr < offset + size && OwnAt(old(World()), id, addr) ==>
                          ByteAt(World(), id, addr) == 0
      ensures r.Ok? ==> forall addr: nat :: ByteAt(World(), id, addr) ==
                          if InPages(addr, offset, size) && OwnAt(old(World()), id, addr) then 0
                          else ByteAt(old(World()), id, addr)
      ensures r.Ok? ==> World() == Zeroed(old(World()), id, offset / PAGE, PageCount(offset + size))
      ensures r.Err? ==> free == old(free)
      ensures r.Ok? ==> free == old(free) + Held(old(vmos)[id].value.pages, offset / PAGE, PageCount(offset + size))
    {
      var start, end := offset / PAGE, PageCount(offset + size);
      if end > |vmos[id].value.pages| {
        return Err(OutOfRange);
      }
      ghost var w := World();
      ReleaseRange(id, start, end);
      ZeroedBytes(w, id, offset, size);
      forall addr: nat | offset <= addr < offset + size
        ensures InPages(addr, offset, size)
      {
        RangeInPages(addr, offset, size);
      }
      r := Ok(());
    }

    /** Gives up the frames of the pages from `a` up to `b`. */
    method ReleaseRange(id: nat, a: nat, b: nat)
      requires Valid() && id < |vmos| && vmos[id].Some? && b <= |vmos[id].value.pages|
      modifies this`vmos, this`free, this`owner
      ensures Valid() && old(free) <= free && id < |vmos| && vmos[id].Some?
      ensures vmos == old(vmos)[id := vmos[id]] && vmos[id].value == old(vmos)[id].value.(pages := vmos[id].value.pages)
      ensures |vmos[id].value.pages| == |old(vmos)[id].value.pages|
      ensures forall k :: a <= k < b ==> !vmos[id].value.pages[k].Committed?
      ensures World() == Zeroed(old(World()), id, a, if a <= b then b else a)
      ensures free == old(free) + Held(old(vmos)[id].value.pages, a, b)
    {
      ghost var w := World();
      ZeroedNone(w, id, a);
      var i := a;
      while i < b
        invariant a <= i && (a <= b ==> i <= b) && (a > b ==> i == a)
        invariant Valid() && old(free) <= free && id < |vmos| && vmos[id].Some?
        invariant vmos == old(vmos)[id := vmos[id]]
                  && vmos[id].value == old(vmos)[id].value.(pages := vmos[id].value.pages)
        invariant |vmos[id].value.pages| == |old(vmos)[id].value.pages|
        invariant forall k :: a <= k < i ==> !vmos[id].value.pages[k].Committed?
        invariant forall k :: i <= k < b ==> vmos[id].value.pages[k] == old(vmos)[id].value.pages[k]
        invariant World() == Zeroed(w, id, a, i)
        invariant free == old(free) + Held(old(vmos)[id].value.pages, a, i)
      {
        ZeroedStep(w, id, a, i);
        assert World()[id].value.pages[i] == ViewOfPage(vmos[id].value.pages[i], mem);
        if vmos[id].value.pages[i].Committed? {
          SlotAt(vmos, owner, mem, id, i);
          if vmos[id].value.pages[i].canFree {
            Release(id, i);
          }
        } else {
          SameView(World(), id, i);
        }
        i := i + 1;
      }
    }

    method Resize(id: nat, newSize: nat) returns (r: Result<(), VmoError>)
      requires Valid() && id < |vmos| && vmos[id].Some?
      modifies this`vmos, this`free, this`owner
      ensures Valid() && old(free) <= free
      ensures r == (if old(vmos)[id].value.options.resizable then Ok(()) else Err(NotResizable))
      ensures r.Err? ==> vmos == old(vmos) && World() == old(World()) && free == old(free)
      ensures var pages := old(vmos)[id].value.pages;
              r.Ok? ==> free == old(free) + Held(pages, PageCount(newSize), |pages|)
      ensures var n := PageCount(newSize);
              r.Ok? ==> World() == if n < |old(vmos)[id].value.pages| then Truncated(old(World()), id, n)
                                   else Extended(old(World()), id, n)
      ensures r.Ok? ==> newSize <= PAGE * |World()[id].value.pages| < newSize + PAGE
      ensures r.Ok? ==> forall addr: nat :: ByteAt(World(), id, addr) ==
                          if addr < PAGE * |World()[id].value.pages| then ByteAt(old(World()), id, addr) else 0
    {
      if !vmos[id].value.options.resizable {
        return Err(NotResizable);
      }
      ghost var w := World();
      var n, was := PageCount(newSize), |vmos[id].value.pages|;
      if n >= was {
        AddPages(vmos, owner, mem, id, n - was);
        vmos := SetObject(vmos, id, vmos[id].value.pages + seq(n - was, _ => Uncommitted));
      } else {
        ReleaseRange(id, n, was);
        CutPages(vmos, owner, mem, id, n);
        assert Truncated(World(), id, n)[id].value.pages == Truncated(w, id, n)[id].value.pages;
        vmos := SetObject(vmos, id, vmos[id].value.pages[..n]);
      }
      ResizedBytes(w, World(), id, n);
      r := Ok(());
    }

    method CreateCowClone(id: nat, offset: nat, size: nat) returns (r: Result<nat, VmoError>)
      requires Valid() && id < |vmos| && vmos[id].Some?
      modifies this`vmos
      ensures Valid()
      ensures r == (if offset + size > old(vmos)[id].value.size then Err(OutOfRange) else Ok(|old(vmos)|))
      ensures r.Err? ==> World() == old(World())
      ensures r.Ok? ==> World() == old(World()) + [Some(CloneView(id, offset / PAGE, PageCount(size)))]
      ensures r.Ok? ==> offset / PAGE + PageCount(size) <= |old(vmos)[id].value.pages|
      ensures r.Ok? ==> size <= PAGE * |World()[r.value].value.pages| < size + PAGE
      ensures r.Ok? ==> forall addr: nat :: ByteAt(World(), r.value, addr) ==
                          if addr < PAGE * |World()[r.value].value.pages|
                          then ByteAt(old(World()), id, offset - offset % PAGE + addr) else 0
    {
      assert At(id);
      if offset + size > vmos[id].value.size {
        return Err(OutOfRange);
      }
      var n, start := PageCount(size), offset / PAGE;
      var pages := seq(n, i requires 0 <= i < n => CopyOnWrite((start + i) * PAGE));
      var v := Inner(PAGE * n, pages, Options(false, false, false), Some(id));
      AddObject(vmos, owner, mem, v);
      assert ViewOf(Some(v), mem).value.pages == CloneView(id, start, n).pages;
      ClonedBytes(World(), id, start, n);
      vmos := vmos + [Some(v)];
      r := Ok(|vmos| - 1);
    }

    /** `run` is the allocator's answer to a request for contiguous frames. */
    method Create(size: nat, options: Options, run: Option<Frame>) returns (r: Result<nat, VmoError>)
      requires Valid()
      requires run.Some? ==> Elems(Run(run.value, PageCount(size))) <= free
      modifies this`vmos, this`free, this`mem, this`owner, this`leaked
      ensures Valid()
      ensures r.Ok? <==>
                && size > 0
                && (options.commit ==> if options.contiguous then run.Some? else PageCount(size) <= |old(free)|)
      ensures r.Err? ==>
                && r.error == (if size == 0 then InvalidSize else NoMemory) && vmos == old(vmos)
                && World() == old(World())
      ensures r.Ok? ==> r.value == |old(vmos)|
      ensures r.Ok? ==> World() == old(World()) + [Some(View(ZeroPages(PageCount(size)), options.resizable, None))]
      ensures r.Ok? ==> size <= PAGE * |World()[r.value].value.pages| < size + PAGE
      ensures r.Ok? ==> forall addr: nat :: ByteAt(World(), r.value, addr) == 0
      ensures r.Ok? ==> |free| == |old(free)| - if options.commit then PageCount(size) else 0
      ensures leaked == old(leaked) + LostBy(size, options, old(free))
    {
      if size == 0 {
        return Err(InvalidSize);
      }
      var n := PageCount(size);
      CreatedBytes(World(), n, options.resizable);
      if !options.commit {
        AddLazy(n, options);
        return Ok(|vmos| - 1);
      }
      var ok, fs := Obtain(n, options, run);
      if !ok {
        return Err(NoMemory);
      }
      Adopt(fs, options);
      r := Ok(|vmos| - 1);
    }

    /** An object whose pages are committed later. */
    method AddLazy(n: nat, options: Options)
      requires Valid()
      modifies this`vmos
      ensures Valid() && |vmos| == |old(vmos)| + 1
      ensures World() == old(World()) + [Some(View(ZeroPages(n), options.resizable, None))]
    {
      var v := Inner(PAGE * n, seq(n, _ => Uncommitted), options, None);
      AddObject(vmos, owner, mem, v);
      assert ViewOf(Some(v), mem).value.pages == ZeroPages(n);
      vmos := vmos + [Some(v)];
    }

    /** Zeroed frames for a committed object, in a run or one by one. If they run out one by
        one, those already taken are not given back. */
    method Obtain(n: nat, options: Options, run: Option<Frame>) returns (ok: bool, fs: seq<Frame>)
      requires Valid() && (run.Some? ==> Elems(Run(run.value, n)) <= free)
      modifies this`free, this`mem, this`leaked
      ensures Valid() && World() == old(World())
      ensures ok <==> if options.contiguous then run.Some? else n <= |old(free)|
      ensures ok ==> |fs| == n && Distinct(fs) && AllZero(mem, Elems(fs)) && |free| == |old(free)| - n
      ensures ok ==> leaked == old(leaked) + Elems(fs) && old(leaked) !! Elems(fs)
      ensures !ok ==> leaked == old(leaked) + if options.contiguous then {} else old(free)
    {
      Disjoint(frames, free, owner.Keys, leaked);
      fs := [];
      if options.contiguous {
        ok := run.Some?;
        if ok {
          fs := Run(run.value, n);
          RunDistinct(run.value, n);
          Take(set f | f in fs);
        }
      } else {
        ok, fs := TakeEach(n);
      }
    }


    /** The new object takes over the frames set aside for it. */
    method Adopt(fs: seq<Frame>, options: Options)
      requires Valid() && Distinct(fs) && Elems(fs) <= leaked
      requires AllZero(mem, Elems(fs))
      modifies this`vmos, this`owner, this`leaked
      ensures Valid() && leaked == old(leaked) - Elems(fs) && |vmos| == |old(vmos)| + 1
      ensures World() == old(World()) + [Some(View(ZeroPages(|fs|), options.resizable, None))]
    {
      Disjoint(frames, free, owner.Keys, leaked);
      AddCommitted(vmos, owner, mem, fs, options);
      assert Claims(fs, |vmos|).Keys == Elems(fs);
      vmos, owner := vmos + [Some(Inner(PAGE * |fs|, Pages(fs), options, None))], owner + Claims(fs, |vmos|);
      leaked := leaked - Elems(fs);
    }

    /** Takes the given free frames and zeroes them; until an object holds them they
        count as lost. */
    method Take(fs: set<Frame>)
      requires Valid() && fs <= free
      modifies this`free, this`mem, this`leaked
      ensures Valid() && World() == old(World())
      ensures free == old(free) - fs && leaked == old(leaked) + fs && |free| == |old(free)| - |fs|
      ensures mem == old(mem) + map f | f in fs :: Zero()
    {
      ZeroAll(fs);
      SetAside(fs);
    }

    method ZeroAll(fs: set<Frame>)
      requires Valid() && fs <= free
      modifies this`mem
      ensures Valid() && World() == old(World())
      ensures mem == old(mem) + map f | f in fs :: Zero()
    {
      Disjoint(frames, free, owner.Keys, leaked);
      var zeroed := mem + map f | f in fs :: Zero();
      SameMemory(vmos, owner, mem, zeroed);
      mem := zeroed;
    }

    method SetAside(fs: set<Frame>)
      requires Valid() && fs <= free
      modifies this`free, this`leaked
      ensures Valid() && free == old(free) - fs && leaked == old(leaked) + fs && |free| == |old(free)| - |fs|
    {
      CardMinus(free, fs);
      free := free - fs;
      leaked := leaked + fs;
    }

    /** Takes `n` frames one at a time; if they run out, those already taken stay lost. */
    method TakeEach(n: nat) returns (ok: bool, fs: seq<Frame>)
      requires Valid()
      modifies this`free, this`mem, this`leaked
      ensures Valid() && World() == old(World()) && Distinct(fs)
      ensures ok <==> n <= |old(free)|
      ensures Elems(fs) <= old(free) && free == old(free) - Elems(fs) && leaked == old(leaked) + Elems(fs)
      ensures (if ok then |fs| == n else free == {}) && |free| == |old(free)| - |fs|
      ensures AllZero(mem, Elems(fs))
    {
      ok, fs := true, [];
      while |fs| < n
        invariant |fs| <= n && Valid() && World() == old(World()) && Distinct(fs)
        invariant Elems(fs) <= old(free) && free == old(free) - Elems(fs) && leaked == old(leaked) + Elems(fs)
        invariant AllZero(mem, Elems(fs)) && |free| == |old(free)| - |fs|
      {
        if free == {} {
          return false, fs;
        }
        var f := TakeOne();
        Append(fs, f);
        fs := fs + [f];
      }
    }

    method TakeOne() returns (f: Frame)
      requires Valid() && free != {}
      modifies this`free, this`mem, this`leaked
      ensures Valid() && World() == old(World()) && mem == old(mem)[f := Zero()]
      ensures f in old(free) && free == old(free) - {f} && leaked == old(leaked) + {f} && |free| == |old(free)| - 1
    {
      f :| f in free;
      Take({f});
    }

    /** What happens when the last reference to an object goes away; its clones hold
        references of their own, so there are none left. */
    method Drop(id: nat)
      requires Valid() && id < |vmos| && vmos[id].Some? && Childless(vmos, id)
      modifies this`vmos, this`free, this`owner
      ensures Valid() && old(free) <= free
      ensures World() == old(World())[id := None]
      ensures free == old(free) + Held(old(vmos)[id].value.pages, 0, |old(vmos)[id].value.pages|)
    {
      ReleaseRange(id, 0, |vmos[id].value.pages|);
      DropObject(vmos, owner, mem, id);
      vmos := vmos[id := None];
    }
  }
}
