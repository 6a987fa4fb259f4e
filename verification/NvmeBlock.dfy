/** The byte-addressed layer over block storage: reads and writes of any byte range, one
    block at a time, against one flat array of bytes. */
module NvmeBlock {
  import opened Common

  type Byte = x: nat | x < 256

  datatype Error = EIO

  /** Where block `b` starts; the sum of `b` block sizes. */
  function Pos(b: nat, size: nat): nat {
    if b == 0 then 0 else Pos(b - 1, size) + size
  }

  lemma {:induction false} PosIs(b: nat, size: nat)
    ensures Pos(b, size) == b * size
  {
    if b > 0 {
      PosIs(b - 1, size);
      assert b * size == (b - 1) * size + size;
    }
  }

  lemma {:induction false} PosOrdered(a: nat, b: nat, size: nat)
    requires a < b
    ensures Pos(a, size) + size <= Pos(b, size)
  {
    if a + 1 < b {
      PosOrdered(a, b - 1, size);
    }
  }

  /** The bytes of the device, in order. */
  function Flat(blocks: seq<seq<Byte>>): seq<Byte> {
    if blocks == [] then [] else blocks[0] + Flat(blocks[1..])
  }

  ghost predicate Sized(blocks: seq<seq<Byte>>, size: nat) {
    forall i :: 0 <= i < |blocks| ==> |blocks[i]| == size
  }

  /** Block `b` is the b-th stretch of `size` bytes. */
  lemma {:induction false} FlatBlock(blocks: seq<seq<Byte>>, size: nat, b: nat, at: nat)
    requires Sized(blocks, size) && b < |blocks| && at == Pos(b, size)
    ensures at + size <= |Flat(blocks)| && Flat(blocks)[at..at + size] == blocks[b]
  {
    var head, tail := blocks[0], Flat(blocks[1..]);
    if b == 0 {
      assert (head + tail)[0..size] == head;
    } else {
      FlatBlock(blocks[1..], size, b - 1, at - size);
      assert (head + tail)[at..at + size] == tail[at - size..at];
    }
  }

  /** Replacing a block replaces its stretch of bytes. */
  lemma {:induction false} FlatUpdate(blocks: seq<seq<Byte>>, size: nat, b: nat, at: nat, block: seq<Byte>)
    requires Sized(blocks, size) && b < |blocks| && |block| == size && at == Pos(b, size)
    ensures at + size <= |Flat(blocks)|
    ensures Flat(blocks[b := block]) == Flat(blocks)[..at] + block + Flat(blocks)[at + size..]
  {
    FlatWritten(blocks, size, b, at, block);
    WrittenIs(Flat(blocks), Flat(blocks[b := block]), at, block);
  }

  lemma {:induction false} FlatWritten(blocks: seq<seq<Byte>>, size: nat, b: nat, at: nat, block: seq<Byte>)
    requires Sized(blocks, size) && b < |blocks| && |block| == size && at == Pos(b, size)
    ensures at + size <= |Flat(blocks)| && Written(Flat(blocks), Flat(blocks[b := block]), at, block)
  {
    var rest, rest' := blocks[1..], blocks[b := block][1..];
    if b == 0 {
      assert rest' == rest;
      WrittenFront(blocks[0], Flat(rest), block);
    } else {
      assert rest' == rest[b - 1 := block];
      FlatWritten(rest, size, b - 1, at - size, block);
      WrittenBehind(blocks[0], Flat(rest), Flat(rest'), at - size, block);
    }
  }

  lemma WrittenFront(head: seq<Byte>, tail: seq<Byte>, x: seq<Byte>)
    requires |x| == |head|
    ensures Written(head + tail, x + tail, 0, x)
  {
  }

  lemma WrittenBehind(head: seq<Byte>, tail: seq<Byte>, tail': seq<Byte>, at: nat, x: seq<Byte>)
    requires Written(tail, tail', at, x)
    ensures Written(head + tail, head + tail', |head| + at, x)
  {
    forall p | |head| <= p < |head + tail|
      ensures (head + tail')[p] == if at <= p - |head| < at + |x| then x[p - |head| - at] else (head + tail)[p]
    {
      assert At(p - |head|);
    }
  }

  /** Writing part of a block through a copy of the whole block. */
  lemma PartOfBlock(blocks: seq<seq<Byte>>, size: nat, b: nat, at: nat, lo: nat, data: seq<Byte>)
    requires Sized(blocks, size) && b < |blocks| && lo + |data| <= size && data != [] && at == Pos(b, size)
    ensures at + size <= |Flat(blocks)|
    ensures Flat(blocks[b := blocks[b][..lo] + data + blocks[b][lo + |data|..]]) ==
            Flat(blocks)[..at + lo] + data + Flat(blocks)[at + lo + |data|..]
  {
    FlatBlock(blocks, size, b, at);
    FlatUpdate(blocks, size, b, at, blocks[b][..lo] + data + blocks[b][lo + |data|..]);
    Stretch(Flat(blocks), at, size, lo, data);
  }

  lemma Stretch(flat: seq<Byte>, at: nat, size: nat, lo: nat, data: seq<Byte>)
    requires at + size <= |flat| && lo + |data| <= size && data != []
    ensures var block := flat[at..at + size];
            flat[..at] + (block[..lo] + data + block[lo + |data|..]) + flat[at + size..] ==
            flat[..at + lo] + data + flat[at + lo + |data|..]
  {
  }

  /** Blocks `first` to `last` are those that the bytes from `start` to `end` touch. */
  ghost predicate Spans(start: nat, end: nat, size: nat, first: nat, last: nat) {
    && size > 0 && start < end
    && Pos(first, size) <= start < Pos(first, size) + size
    && Pos(last, size) < end <= Pos(last, size) + size
  }

  lemma PosDiv(x: nat, size: nat)
    requires size > 0
    ensures x / size >= 0 && Pos(x / size, size) <= x < Pos(x / size, size) + size
  {
    PosIs(x / size, size);
    assert x == (x / size) * size + x % size;
  }

  lemma SpansOf(start: nat, end: nat, size: nat)
    requires size > 0 && start < end
    ensures Spans(start, end, size, start / size, (end - 1) / size) && start / size <= (end - 1) / size
  {
    PosDiv(start, size);
    PosDiv(end - 1, size);
    SpansOrdered(start, end, size, start / size, (end - 1) / size);
  }

  lemma SpansOrdered(start: nat, end: nat, size: nat, first: nat, last: nat)
    requires Spans(start, end, size, first, last)
    ensures first <= last
  {
    if first > last {
      PosOrdered(last, first, size);
    }
  }

  /** The part of the block at `at` that lies in the bytes from `start` to `end`. */
  function Lo(start: nat, at: nat): nat { if at < start then start - at else 0 }

  function Hi(end: nat, size: nat, at: nat): nat
    requires at < end
  {
    if at + size > end then end - at else size
  }

  /** How many bytes of the range lie before the block at `at`. */
  function Before(start: nat, end: nat, at: nat): nat
    requires start <= end
  {
    if at <= start then 0 else if at >= end then end - start else at - start
  }

  /** The bounds of the parts of the blocks, computed from their numbers. */
  lemma BeforeStep(start: nat, end: nat, size: nat, first: nat, last: nat, id: nat, at: nat)
    requires Spans(start, end, size, first, last) && first <= id <= last && at == Pos(id, size)
    ensures at < end && at + size == Pos(id + 1, size)
    ensures Lo(start, at) == (if id == first then start - at else 0) < Hi(end, size, at) <= size
    ensures Hi(end, size, at) == if id == last then end - at else size
    ensures start + Before(start, end, at) == at + Lo(start, at)
    ensures Before(start, end, at + size) == Before(start, end, at) + (Hi(end, size, at) - Lo(start, at))
    ensures id == last ==> Before(start, end, at + size) == end - start
  {
    if first < id {
      PosOrdered(first, id, size);
    }
    if id < last {
      PosOrdered(id, last, size);
    }
  }

  // ---------------------------------------------------------------- implementation

  /** The first `n` bytes of the buffer are the bytes of the device from `start` on; the
      others are as they were. */
  ghost predicate Filled(flat: seq<Byte>, start: nat, buf: seq<Byte>, was: seq<Byte>, n: nat) {
    && |buf| == |was| && n <= |buf| && (n > 0 ==> start + n <= |flat|)
    && forall k {:trigger At(k)} :: At(k) && 0 <= k < |buf| ==> buf[k] == if k < n then flat[start + k] else was[k]
  }

  lemma FilledIs(flat: seq<Byte>, start: nat, buf: seq<Byte>, was: seq<Byte>)
    requires Filled(flat, start, buf, was, |buf|) && buf != []
    ensures buf == flat[start..start + |buf|]
  {
    forall k | 0 <= k < |buf|
      ensures buf[k] == flat[start + k]
    {
      assert At(k);
    }
  }

  lemma FillMore(flat: seq<Byte>, start: nat, buf: seq<Byte>, was: seq<Byte>, n: nat, at: nat, block: seq<Byte>,
                 lo: nat, hi: nat)
    requires Filled(flat, start, buf, was, n) && start + n == at + lo
    requires at + |block| <= |flat| && flat[at..at + |block|] == block && lo < hi <= |block| && n + (hi - lo) <= |buf|
    ensures Filled(flat, start, buf[..n] + block[lo..hi] + buf[n + (hi - lo)..], was, n + (hi - lo))
  {
    assert forall i :: lo <= i < hi ==> flat[at + i] == block[i];
  }

  class NvmeDriverHandler {
    const blockSize: nat
    var blocks: seq<seq<Byte>>
    /** Blocks on which a read or a write command fails. */
    const unreadable: set<nat>
    const unwritable: set<nat>

    ghost predicate Valid()
      reads this
    {
      blockSize > 0 && Sized(blocks, blockSize)
    }

    constructor (blockSize: nat, blocks: seq<seq<Byte>>, unreadable: set<nat>, unwritable: set<nat>)
      requires blockSize > 0 && Sized(blocks, blockSize)
      ensures Valid() && this.blocks == blocks && this.blockSize == blockSize
    {
      this.blockSize, this.blocks := blockSize, blocks;
      this.unreadable, this.unwritable := unreadable, unwritable;
    }

    predicate Readable(id: nat)
      reads this
    {
      id < |blocks| && id !in unreadable
    }

    /** Whether the write of a byte range gets past block `id`: a block written only in
        part is read first. */
    ghost predicate Writable(count: nat, start: nat, end: nat, id: nat) {
      && id < count && id !in unwritable
      && (Pos(id, blockSize) < start || end < Pos(id, blockSize) + blockSize ==> id !in unreadable)
    }

    method ReadToSlice(id: nat) returns (r: Result<seq<Byte>, Error>)
      requires Valid()
      ensures r == if Readable(id) then Ok(blocks[id]) else Err(EIO)
    {
      r := if id < |blocks| && id !in unreadable then Ok(blocks[id]) else Err(EIO);
    }

    method WriteFromSlice(id: nat, block: seq<Byte>) returns (r: Result<(), Error>)
      requires Valid() && |block| == blockSize
      modifies this`blocks
      ensures Valid()
      ensures r.Ok? <==> id < |old(blocks)| && id !in unwritable
      ensures blocks == if r.Ok? then old(blocks)[id := block] else old(blocks)
    {
      if id < |blocks| && id !in unwritable {
        blocks := blocks[id := block];
        r := Ok(());
      } else {
        r := Err(EIO);
      }
    }

    /** Fills the buffer with exactly the bytes of the range. The first block that cannot
        be read, `at`, ends the read; only the bytes before it have been filled in. */
    method ReadBlock(start: nat, buf: array<Byte>) returns (r: Result<(), Error>, ghost at: nat)
      requires Valid()
      modifies buf
      ensures buf.Length == 0 ==> r.Ok?
      ensures buf.Length > 0 ==>
                var first, last := start / blockSize, (start + buf.Length - 1) / blockSize;
                && first <= at <= last + 1 && (r.Ok? <==> at == last + 1)
                && (forall id :: first <= id < at ==> Readable(id)) && (r.Err? ==> !Readable(at))
                && Filled(Flat(blocks), start, buf[..], old(buf[..]),
                     Before(start, start + buf.Length, Pos(at, blockSize)))
      ensures r.Ok? && buf.Length > 0 ==>
                start + buf.Length <= |Flat(blocks)| && buf[..] == Flat(blocks)[start..start + buf.Length]
    {
      at := 0;
      if buf.Length == 0 {
        return Ok(()), at;
      }
      var end := start + buf.Length;
      SpansOf(start, end, blockSize);
      r, at := ReadBlocks(start, end, start / blockSize, (end - 1) / blockSize, buf);
    }

    /** One round of the read loop: the part of the range in block `id`. */
    method ReadStep(start: nat, end: nat, first: nat, last: nat, id: nat, buf: array<Byte>, offset: nat,
                    ghost was: seq<Byte>)
      returns (r: Result<(), Error>, n: nat)
      requires Valid() && Spans(start, end, blockSize, first, last) && first <= id <= last && end == start + buf.Length
      requires offset == Before(start, end, Pos(id, blockSize)) && Filled(Flat(blocks), start, buf[..], was, offset)
      modifies buf
      ensures r.Ok? <==> Readable(id)
      ensures r.Err? ==> buf[..] == old(buf[..])
      ensures r.Ok? ==>
                && offset + n == Before(start, end, Pos(id + 1, blockSize))
                && (id == last ==> offset + n == buf.Length)
      ensures r.Ok? ==> Filled(Flat(blocks), start, buf[..], was, offset + n)
    {
      var temp := ReadToSlice(id);
      if temp.Err? {
        return Err(EIO), 0;
      }
      var blockStart := id * blockSize;
      assert blockStart == Pos(id, blockSize) by { PosIs(id, blockSize); }
      BeforeStep(start, end, blockSize, first, last, id, blockStart);
      var lo := if id == first then start - blockStart else 0;
      var hi := if id == last then end - blockStart else blockSize;
      n := hi - lo;
      ReadPart(id, lo, hi, buf, offset, temp.value, start, was);
      r := Ok(());
    }

    /** Copies out the part of a block that was read, after what was copied before. */
    method ReadPart(id: nat, lo: nat, hi: nat, buf: array<Byte>, offset: nat, block: seq<Byte>, ghost start: nat,
                    ghost was: seq<Byte>)
      requires Valid() && id < |blocks| && block == blocks[id] && lo < hi <= blockSize
      requires start + offset == Pos(id, blockSize) + lo && offset + (hi - lo) <= buf.Length
      requires Filled(Flat(blocks), start, buf[..], was, offset)
      modifies buf
      ensures Filled(Flat(blocks), start, buf[..], was, offset + (hi - lo))
    {
      FlatBlock(blocks, blockSize, id, Pos(id, blockSize));
      FillMore(Flat(blocks), start, buf[..], was, offset, Pos(id, blockSize), block, lo, hi);
      CopyOut(buf, offset, block[lo..hi]);
    }

    method ReadBlocks(start: nat, end: nat, first: nat, last: nat, buf: array<Byte>)
      returns (r: Result<(), Error>, ghost at: nat)
      requires Valid() && Spans(start, end, blockSize, first, last) && first <= last && end == start + buf.Length
      modifies buf
      ensures first <= at <= last + 1 && (r.Ok? <==> at == last + 1)
      ensures (forall id :: first <= id < at ==> Readable(id)) && (r.Err? ==> !Readable(at))
      ensures Filled(Flat(blocks), start, buf[..], old(buf[..]), Before(start, end, Pos(at, blockSize)))
      ensures r.Ok? ==> end <= |Flat(blocks)| && buf[..] == Flat(blocks)[start..end]
    {
      var id, offset := first, 0;
      while id <= last
        invariant first <= id <= last + 1 && offset == Before(start, end, Pos(id, blockSize))
        invariant id == last + 1 ==> offset == end - start
        invariant forall k :: first <= k < id ==> Readable(k)
        invariant Filled(Flat(blocks), start, buf[..], old(buf[..]), offset)
      {
        var done, n := ReadStep(start, end, first, last, id, buf, offset, old(buf[..]));
        if done.Err? {
          return Err(EIO), id;
        }
        offset := offset + n;
        id := id + 1;
      }
      FilledIs(Flat(blocks), start, buf[..], old(buf[..]));
      r, at := Ok(()), id;
    }

    /** Replaces the bytes from `lo` to `hi` of a block, which is read first unless all of
        it is replaced. */
    method WriteOne(id: nat, lo: nat, hi: nat, data: seq<Byte>, temp: seq<Byte>)
      returns (r: Result<(), Error>, temp': seq<Byte>)
      requires Valid() && |temp| == blockSize && lo < hi <= blockSize && |data| == hi - lo
      modifies this`blocks
      ensures Valid() && |blocks| == |old(blocks)| && |temp'| == blockSize
      ensures r.Ok? <==> id < |blocks| && id !in unwritable && (lo != 0 || hi != blockSize ==> id !in unreadable)
      ensures r.Err? ==> blocks == old(blocks)
      ensures r.Ok? ==> Written(old(Flat(blocks)), Flat(blocks), Pos(id, blockSize) + lo, data)
    {
      temp' := temp;
      if lo != 0 || hi != blockSize {
        var got := ReadToSlice(id);
        if got.Err? {
          return Err(EIO), temp';
        }
        temp' := got.value;
      }
      Overwritten(temp', lo, data);
      temp' := temp'[..lo] + data + temp'[hi..];
      r := WriteFromSlice(id, temp');
      if r.Ok? {
        WholeOrPart(old(blocks), blockSize, id, Pos(id, blockSize), lo, data, temp');
      }
    }

    /** Writes exactly the range. The first block that cannot be written, `at`, ends the
        write; only the bytes before it have been written. */
    method WriteBlock(start: nat, buf: seq<Byte>) returns (r: Result<(), Error>, ghost at: nat)
      requires Valid()
      modifies this`blocks
      ensures Valid() && |blocks| == |old(blocks)|
      ensures buf == [] ==> r.Ok? && blocks == old(blocks)
      ensures buf != [] ==>
                var end := start + |buf|;
                var first, last := start / blockSize, (end - 1) / blockSize;
                && first <= at <= last + 1 && (r.Ok? <==> at == last + 1)
                && (forall id :: first <= id < at ==> Writable(|blocks|, start, end, id))
                && (r.Err? ==> !Writable(|blocks|, start, end, at))
                && Written(old(Flat(blocks)), Flat(blocks), start, buf[..Before(start, end, Pos(at, blockSize))])
      ensures r.Ok? && buf != [] ==>
                start + |buf| <= |old(Flat(blocks))| &&
                Flat(blocks) == old(Flat(blocks))[..start] + buf + old(Flat(blocks))[start + |buf|..]
    {
      at := 0;
      if buf == [] {
        return Ok(()), at;
      }
      var end := start + |buf|;
      SpansOf(start, end, blockSize);
      r, at := WriteBlocks(start, end, start / blockSize, (end - 1) / blockSize, buf);
      if r.Ok? {
        WrittenIs(old(Flat(blocks)), Flat(blocks), start, buf);
      }
    }

    /** One round of the write loop: the part of the range in block `id`. */
    method WriteStep(start: nat, end: nat, first: nat, last: nat, id: nat, buf: seq<Byte>, offset: nat,
                     temp: seq<Byte>, ghost flat: seq<Byte>)
      returns (r: Result<(), Error>, n: nat, temp': seq<Byte>)
      requires Valid() && Spans(start, end, blockSize, first, last) && first <= id <= last && end == start + |buf|
      requires |temp| == blockSize && offset == Before(start, end, Pos(id, blockSize))
      requires Written(flat, Flat(blocks), start, buf[..offset])
      modifies this`blocks
      ensures Valid() && |blocks| == |old(blocks)| && |temp'| == blockSize
      ensures r.Ok? <==> Writable(|blocks|, start, end, id)
      ensures r.Err? ==> blocks == old(blocks)
      ensures r.Ok? ==> offset + n == Before(start, end, Pos(id + 1, blockSize)) && (id == last ==> offset + n == |buf|)
      ensures r.Ok? ==> Written(flat, Flat(blocks), start, buf[..offset + n])
    {
      var blockStart := id * blockSize;
      assert blockStart == Pos(id, blockSize) by { PosIs(id, blockSize); }
      BeforeStep(start, end, blockSize, first, last, id, blockStart);
      var lo := if id == first then start - blockStart else 0;
      var hi := if id == last then end - blockStart else blockSize;
      n := hi - lo;
      r, temp' := WritePart(id, lo, hi, buf, offset, temp, flat, start);
    }

    /** Writes the part of the buffer that falls into one block, after what was written before. */
    method WritePart(id: nat, lo: nat, hi: nat, buf: seq<Byte>, offset: nat, temp: seq<Byte>,
                     ghost flat: seq<Byte>, ghost start: nat)
      returns (r: Result<(), Error>, temp': seq<Byte>)
      requires Valid() && |temp| == blockSize && lo < hi <= blockSize && offset + (hi - lo) <= |buf|
      requires start + offset == Pos(id, blockSize) + lo && Written(flat, Flat(blocks), start, buf[..offset])
      modifies this`blocks
      ensures Valid() && |blocks| == |old(blocks)| && |temp'| == blockSize
      ensures r.Ok? <==> id < |blocks| && id !in unwritable && (lo != 0 || hi != blockSize ==> id !in unreadable)
      ensures r.Err? ==> blocks == old(blocks)
      ensures r.Ok? ==> Written(flat, Flat(blocks), start, buf[..offset + (hi - lo)])
    {
      var n := hi - lo;
      r, temp' := WriteOne(id, lo, hi, buf[offset..offset + n], temp);
      if r.Ok? {
        WriteMore(flat, old(Flat(blocks)), Flat(blocks), start, buf, offset, offset + n);
      }
    }

    method WriteBlocks(start: nat, end: nat, first: nat, last: nat, buf: seq<Byte>)
      returns (r: Result<(), Error>, ghost at: nat)
      requires Valid() && Spans(start, end, blockSize, first, last) && first <= last && end == start + |buf|
      modifies this`blocks
      ensures Valid() && |blocks| == |old(blocks)|
      ensures first <= at <= last + 1 && (r.Ok? <==> at == last + 1)
      ensures (forall id :: first <= id < at ==> Writable(|blocks|, start, end, id))
              && (r.Err? ==> !Writable(|blocks|, start, end, at))
      ensures Written(old(Flat(blocks)), Flat(blocks), start, buf[..Before(start, end, Pos(at, blockSize))])
      ensures r.Ok? ==> Written(old(Flat(blocks)), Flat(blocks), start, buf)
    {
      var id, offset, temp := first, 0, seq(blockSize, i => 0);
      while id <= last
        invariant first <= id <= last + 1 && offset == Before(start, end, Pos(id, blockSize)) && |temp| == blockSize
        invariant id == last + 1 ==> offset == end - start
        invariant Valid() && |blocks| == |old(blocks)|
        invariant forall k :: first <= k < id ==> Writable(|old(blocks)|, start, end, k)
        invariant Written(old(Flat(blocks)), Flat(blocks), start, buf[..offset])
      {
        var done, n;
        done, n, temp := WriteStep(start, end, first, last, id, buf, offset, temp, old(Flat(blocks)));
        if done.Err? {
          return Err(EIO), id;
        }
        offset := offset + n;
        id := id + 1;
      }
      assert buf[..offset] == buf;
      r, at := Ok(()), id;
    }
  }

  /** `flat'` is `flat` with exactly the bytes from `start` on replaced by `data`. */
  ghost predicate Written(flat: seq<Byte>, flat': seq<Byte>, start: nat, data: seq<Byte>) {
    && |flat'| == |flat| && (data != [] ==> start + |data| <= |flat|)
    && forall p {:trigger At(p)} :: At(p) && 0 <= p < |flat| ==>
         flat'[p] == if start <= p < start + |data| then data[p - start] else flat[p]
  }

  lemma WrittenIs(flat: seq<Byte>, flat': seq<Byte>, start: nat, data: seq<Byte>)
    requires start + |data| <= |flat|
    ensures Written(flat, flat', start, data) <==> flat' == flat[..start] + data + flat[start + |data|..]
  {
    var overwritten := flat[..start] + data + flat[start + |data|..];
    if Written(flat, flat', start, data) {
      forall p | 0 <= p < |flat|
        ensures flat'[p] == overwritten[p]
      {
        assert At(p);
      }
    }
  }

  lemma WriteMore(flat: seq<Byte>, flat': seq<Byte>, flat'': seq<Byte>, start: nat, buf: seq<Byte>, n: nat, m: nat)
    requires n < m <= |buf| && Written(flat, flat', start, buf[..n]) && Written(flat', flat'', start + n, buf[n..m])
    ensures Written(flat, flat'', start, buf[..m])
  {
  }

  lemma Overwritten(block: seq<Byte>, lo: nat, data: seq<Byte>)
    requires lo + |data| <= |block|
    ensures |block[..lo] + data + block[lo + |data|..]| == |block|
    ensures |data| == |block| ==> block[..lo] + data + block[lo + |data|..] == data
  {
  }

  /** A block overwritten in full need not have been read. */
  lemma WholeOrPart(blocks: seq<seq<Byte>>, size: nat, b: nat, at: nat, lo: nat, data: seq<Byte>, block: seq<Byte>)
    requires Sized(blocks, size) && b < |blocks| && lo + |data| <= size && data != [] && at == Pos(b, size)
    requires (|data| == size && block == data) || block == blocks[b][..lo] + data + blocks[b][lo + |data|..]
    ensures Written(Flat(blocks), Flat(blocks[b := block]), at + lo, data)
  {
    PartOfBlock(blocks, size, b, at, lo, data);
    WrittenIs(Flat(blocks), Flat(blocks[b := block]), at + lo, data);
    if |data| == size {
      assert blocks[b][..lo] + data + blocks[b][lo + |data|..] == data;
    }
  }

  /** Copies `data` into the buffer at `offset`. */
  method CopyOut(buf: array<Byte>, offset: nat, data: seq<Byte>)
    requires offset + |data| <= buf.Length
    modifies buf
    ensures buf[..] == old(buf[..])[..offset] + data + old(buf[..])[offset + |data|..]
  {
    forall k | offset <= k < offset + |data| {
      buf[k] := data[k - offset];
    }
  }
}
