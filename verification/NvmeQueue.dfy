/** NVMe submission and completion queues. The driver and the controller see slots, small
    wrapping indices, a phase bit and two doorbell registers; ghost histories hold the
    unbounded queues these stand for. */
module NvmeQueue {
  import opened Common

  datatype SubmissionEntry =
    SubmissionEntry(opcode: nat, flags: nat, cid: nat, nsid: nat, mptr: nat, dptr1: nat, dptr2: nat, cdw: seq<nat>)

  datatype CompletionEntry = CompletionEntry(dw0: nat, dw1: nat, sqHeadSqid: nat, cidStatus: nat) {
    function Cid(): nat { cidStatus % 0x1_0000 }

    predicate Phase() { (cidStatus / 0x1_0000) % 2 == 1 }

    function Status(): nat { (cidStatus / 0x2_0000) % 0x8000 }

    function SqHead(): nat { sqHeadSqid % 0x1_0000 }

    function SqId(): nat { (sqHeadSqid / 0x1_0000) % 0x1_0000 }
  }

  /** The entry a controller posts: the fields packed into four words. */
  function Posting(dw0: nat, sqHead: nat, sqId: nat, cid: nat, phase: bool, status: nat): (e: CompletionEntry)
    requires sqHead < 0x1_0000 && sqId < 0x1_0000 && cid < 0x1_0000 && status < 0x8000
    ensures e.SqHead() == sqHead && e.SqId() == sqId && e.Cid() == cid && e.Phase() == phase && e.Status() == status
  {
    var bit := if phase then 1 else 0;
    Halves(sqHead, sqId);
    Halves(cid, bit + 2 * status);
    Bit(bit, status, cid);
    CompletionEntry(dw0, 0, sqHead + 0x1_0000 * sqId, cid + 0x1_0000 * (bit + 2 * status))
  }

  lemma Halves(low: nat, high: nat)
    requires low < 0x1_0000
    ensures (low + 0x1_0000 * high) % 0x1_0000 == low && (low + 0x1_0000 * high) / 0x1_0000 == high
  {
  }

  lemma Bit(bit: nat, status: nat, low: nat)
    requires bit < 2 && low < 0x1_0000
    ensures (bit + 2 * status) % 2 == bit && (low + 0x1_0000 * (bit + 2 * status)) / 0x2_0000 == status
  {
  }

  /** Where the fields of a completion lie: the queue head in the low and the queue's number in
      the high half of word 2; in word 3 the command in bits 0 to 15, the phase in bit 16 and
      the status above it. */
  lemma EntryLayout(e: CompletionEntry, sqHead: nat, sqId: nat, cid: nat, bit: nat, status: nat)
    requires sqHead < 0x1_0000 && sqId < 0x1_0000 && cid < 0x1_0000 && bit < 2 && status < 0x8000
    requires e.sqHeadSqid == sqHead + 0x1_0000 * sqId && e.cidStatus == cid + 0x1_0000 * bit + 0x2_0000 * status
    ensures e.SqHead() == sqHead && e.SqId() == sqId && e.Cid() == cid && e.Status() == status
    ensures e.Phase() <==> bit == 1
  {
    Halves(sqHead, sqId);
    Halves(cid, bit + 2 * status);
    Bit(bit, status, cid);
  }

  const BLANK_COMMAND := SubmissionEntry(0, 0, 0, 0, 0, 0, 0, [])
  const BLANK_COMPLETION := CompletionEntry(0, 0, 0, 0)

  /** Entries `lo` and later of the history are in the slots of their residues. */
  ghost predicate Held<T>(slots: seq<T>, history: seq<T>, lo: int) {
    && |slots| > 0
    && forall i {:trigger At(i)} :: At(i) && 0 <= i && lo <= i < |history| ==> slots[i % |slots|] == history[i]
  }

  /** One more entry overwrites only a slot whose entry is no longer needed. */
  lemma HeldStep<T>(slots: seq<T>, history: seq<T>, lo: int, x: T)
    requires Held(slots, history, lo) && |history| < lo + |slots|
    ensures Held(slots[|history| % |slots| := x], history + [x], lo)
  {
    forall i {:trigger At(i)} | At(i) && 0 <= i && lo <= i < |history|
      ensures i % |slots| != |history| % |slots|
    {
      ModDistinct(i, |history|, |slots|);
    }
  }

  // ---------------------------------------------------------------- phases

  /** The phase of the k-th posting: set on even laps around the queue. */
  predicate PhaseOf(k: nat, depth: nat)
    requires depth > 0
  {
    (k / depth) % 2 == 0
  }

  lemma PhaseStep(k: nat, depth: nat)
    requires depth > 0
    ensures (k + 1) % depth == (k % depth + 1) % depth
    ensures PhaseOf(k + 1, depth) == if (k + 1) % depth == 0 then !PhaseOf(k, depth) else PhaseOf(k, depth)
  {
    ModStep(k, depth);
    ModStep(k % depth, depth);
    DivModUnique(k % depth, depth, 0, k % depth);
  }

  /** The entry one lap back sits in the same slot with the other phase. */
  lemma LapBack(k: nat, depth: nat)
    requires depth > 0
    ensures k >= depth ==> (k - depth) % depth == k % depth && PhaseOf(k - depth, depth) != PhaseOf(k, depth)
    ensures k < depth ==> k % depth == k && PhaseOf(k, depth)
  {
    if k >= depth {
      assert k == (k / depth) * depth + k % depth;
      assert k - depth == (k / depth - 1) * depth + k % depth;
      DivModUnique(k - depth, depth, k / depth - 1, k % depth);
    } else {
      DivModUnique(k, depth, 0, k);
    }
  }

  /** Counters at most `depth` apart: equal residues mean equal or a whole lap apart. */
  lemma Laps(a: nat, b: nat, depth: nat)
    requires depth > 0 && a <= b <= a + depth
    ensures a % depth == b % depth <==> b == a || b == a + depth
  {
    LapBack(b, depth);
    if a < b < a + depth {
      ModDistinct(a, b, depth);
    }
  }

  // ---------------------------------------------------------------- implementation

  class SubmissionQueue {
    const depth: nat
    var slots: seq<SubmissionEntry>
    var tail: nat
    var head: nat

    /** All commands accepted so far; how many of them the controller has fetched, and how
        many it had fetched by its last report. */
    ghost var sent: seq<SubmissionEntry>
    ghost var fetched: nat
    ghost var reported: nat

    ghost predicate Valid()
      reads this
    {
      && 0 < depth < 0x1_0000 && |slots| == depth
      && reported <= fetched <= |sent| && |sent| <= reported + depth - 1
      && tail == |sent| % depth && head == reported % depth
      && Held(slots, sent, fetched)
    }

    constructor (depth: nat)
      requires 0 < depth < 0x1_0000
      ensures Valid() && this.depth == depth && sent == [] && fetched == 0 && tail == 0 && head == 0
    {
      this.depth := depth;
      slots := seq(depth, i => BLANK_COMMAND);
      tail, head := 0, 0;
      sent, fetched, reported := [], 0, 0;
    }

    /** Refuses exactly when, by the last reported head, depth - 1 commands are
        outstanding; no command the controller has yet to fetch is overwritten. */
    method Submit(entry: SubmissionEntry) returns (r: Option<nat>)
      requires Valid()
      modifies this`slots, this`tail, this`sent
      ensures Valid()
      ensures r.None? <==> |old(sent)| - reported == depth - 1
      ensures r.None? ==> sent == old(sent) && slots == old(slots) && tail == old(tail)
      ensures r.Some? ==> r.value == old(tail) == |old(sent)| % depth && sent == old(sent) + [entry]
    {
      PhaseStep(|sent|, depth);
      Laps(reported, |sent| + 1, depth);
      var nextTail := (tail + 1) % depth;
      if nextTail == head {
        return None;
      }
      HeldStep(slots, sent, fetched, entry);
      r := Some(tail);
      slots := slots[tail := entry];
      tail := nextTail;
      sent := sent + [entry];
    }

    /** A completion reports how far the controller had fetched. */
    method UpdateHead(head: nat, ghost count: nat)
      requires Valid() && reported <= count <= fetched && head == count % depth
      modifies this`head, this`reported
      ensures Valid() && this.head == head && reported == count
    {
      this.head := head;
      reported := count;
    }
  }

  class CompletionQueue {
    const depth: nat
    var slots: seq<CompletionEntry>
    var head: nat
    var phase: bool

    /** All entries posted so far, and how many of them were polled. */
    ghost var posted: seq<CompletionEntry>
    ghost var polled: nat

    ghost predicate Valid()
      reads this
    {
      && 0 < depth < 0x1_0000 && |slots| == depth
      && polled <= |posted| <= polled + depth
      && head == polled % depth && phase == PhaseOf(polled, depth)
      && Held(slots, posted, |posted| - depth)
      && (forall i {:trigger At(i)} :: At(i) && 0 <= i < |posted| ==> posted[i].Phase() == PhaseOf(i, depth))
      && (forall i {:trigger At(i)} :: At(i) && |posted| <= i < depth ==> !slots[i].Phase())
    }

    constructor (depth: nat)
      requires 0 < depth < 0x1_0000
      ensures Valid() && this.depth == depth && posted == [] && polled == 0 && head == 0 && phase
    {
      this.depth := depth;
      slots := seq(depth, i => BLANK_COMPLETION);
      head, phase := 0, true;
      posted, polled := [], 0;
      LapBack(0, depth);
    }

    /** Returns the next posted entry that was not returned before; nothing exactly when
        there is none. */
    method Poll() returns (r: Option<CompletionEntry>)
      requires Valid()
      modifies this`head, this`phase, this`polled
      ensures Valid()
      ensures r.None? <==> old(polled) == |posted|
      ensures r.None? ==> polled == old(polled)
      ensures r.Some? ==> r.value == posted[old(polled)] && polled == old(polled) + 1
    {
      LapBack(polled, depth);
      assert At(polled) && At(polled - depth);
      var entry := slots[head];
      if entry.Phase() != phase {
        return None;
      }
      PhaseStep(polled, depth);
      head := (head + 1) % depth;
      if head == 0 {
        phase := !phase;
      }
      polled := polled + 1;
      r := Some(entry);
    }

    /** Controller step: the next entry goes into the next slot. */
    method Place(slot: nat, entry: CompletionEntry)
      requires Valid() && |posted| < polled + depth
      requires slot == |posted| % depth && entry.Phase() == PhaseOf(|posted|, depth)
      modifies this`slots, this`posted
      ensures Valid() && posted == old(posted) + [entry]
    {
      HeldStep(slots, posted, |posted| + 1 - depth, entry);
      LapBack(|posted|, depth);
      slots := slots[slot := entry];
      posted := posted + [entry];
    }
  }

  /** What a controller keeps for a queue pair. */
  datatype Controller = Controller(sqHead: nat, cqTail: nat, phase: bool)

  class QueuePair {
    const id: nat
    const sq: SubmissionQueue
    const cq: CompletionQueue
    var nextCid: nat
    var pending: set<nat>
    /** The doorbell registers. */
    var sqDoorbell: nat
    var cqDoorbell: nat
    var controller: Controller

    /** How many commands the controller was told of, and for each completion how many it
        had fetched when it posted it. */
    ghost var rung: nat
    ghost var heads: seq<nat>

    ghost predicate Valid()
      reads this, sq, cq
    {
      && sq.Valid() && cq.Valid() && sq.depth == cq.depth && id < 0x1_0000 && nextCid < sq.depth
      && sq.fetched <= rung <= |sq.sent| && sqDoorbell == rung % sq.depth
      && |cq.posted| <= cq.polled + cq.depth - 1 && cqDoorbell == cq.polled % cq.depth
      && controller.sqHead == sq.fetched % sq.depth
      && controller.cqTail == |cq.posted| % cq.depth && controller.phase == PhaseOf(|cq.posted|, cq.depth)
      && HeadsOk(heads, cq.posted, cq.polled, sq.reported, sq.fetched, sq.depth)
    }

    constructor (id: nat, depth: nat)
      requires 0 < depth < 0x1_0000 && id < 0x1_0000
      ensures Valid() && sq.depth == depth && sq.sent == [] && cq.posted == []
      ensures nextCid == 0 && pending == {} && rung == 0 && sq.fetched == 0 && sq.reported == 0
      ensures fresh(sq) && fresh(cq)
    {
      this.id := id;
      sq := new SubmissionQueue(depth);
      cq := new CompletionQueue(depth);
      nextCid, pending := 0, {};
      sqDoorbell, cqDoorbell := 0, 0;
      controller := Controller(0, 0, true);
      rung, heads := 0, [];
      LapBack(0, depth);
    }

    /** The command id is returned whether or not the queue took the command: it took it
        exactly when fewer than depth - 1 commands were outstanding. */
    method Submit(entry: SubmissionEntry) returns (cid: nat)
      requires Valid()
      modifies this`nextCid, this`pending, this`sqDoorbell, this`rung, sq`slots, sq`tail, sq`sent
      ensures Valid() && cid == old(nextCid) && cid < sq.depth && pending == old(pending) + {cid}
      ensures nextCid == (old(nextCid) + 1) % sq.depth
      ensures sq.sent == old(sq.sent) + [entry.(cid := cid)] <==> |old(sq.sent)| - sq.reported < sq.depth - 1
      ensures sq.sent != old(sq.sent) + [entry.(cid := cid)] ==> sq.sent == old(sq.sent)
      ensures rung == |sq.sent|
    {
      cid := nextCid;
      nextCid := (nextCid + 1) % sq.depth;
      pending := pending + {cid};
      var slot := sq.Submit(entry.(cid := cid));
      sqDoorbell, rung := sq.tail, |sq.sent|;
    }

    method PollCompletion() returns (r: Option<CompletionEntry>)
      requires Valid()
      modifies this`pending, this`cqDoorbell, sq`head, sq`reported, cq`head, cq`phase, cq`polled
      ensures Valid()
      ensures r.None? <==> old(cq.polled) == |cq.posted|
      ensures r.None? ==> sq.reported == old(sq.reported) && cq.polled == old(cq.polled) && pending == old(pending)
      ensures r.Some? ==> r.value == cq.posted[old(cq.polled)] && cq.polled == old(cq.polled) + 1
      ensures r.Some? ==> sq.reported == heads[old(cq.polled)] && pending == old(pending) - {r.value.Cid()}
    {
      ghost var k := cq.polled;
      r := cq.Poll();
      if r.Some? {
        assert At(k);
        sq.UpdateHead(r.value.SqHead(), heads[k]);
        pending := pending - {r.value.Cid()};
        cqDoorbell := cq.head;
      }
    }

    /** Controller step: fetches the next command, judging by the doorbell alone whether
        there is one. */
    method Fetch() returns (r: Option<SubmissionEntry>)
      requires Valid()
      modifies this`controller, sq`fetched
      ensures Valid()
      ensures r.None? <==> old(sq.fetched) == rung
      ensures r.None? ==> sq.fetched == old(sq.fetched)
      ensures r.Some? ==> r.value == sq.sent[old(sq.fetched)] && sq.fetched == old(sq.fetched) + 1
    {
      Laps(sq.fetched, rung, sq.depth);
      if controller.sqHead == sqDoorbell {
        return None;
      }
      assert At(sq.fetched);
      r := Some(sq.slots[controller.sqHead]);
      PhaseStep(sq.fetched, sq.depth);
      controller := controller.(sqHead := (controller.sqHead + 1) % sq.depth);
      sq.fetched := sq.fetched + 1;
    }

    /** Controller step: posts a completion unless, by the doorbell, the queue is full. */
    method Complete(dw0: nat, cid: nat, status: nat) returns (done: bool)
      requires Valid() && cid < 0x1_0000 && status < 0x8000
      modifies this`controller, this`heads, cq`slots, cq`posted
      ensures Valid()
      ensures done <==> |old(cq.posted)| < cq.polled + cq.depth - 1
      ensures !done ==> cq.posted == old(cq.posted)
      ensures done ==> |cq.posted| == |old(cq.posted)| + 1 && cq.posted[..|old(cq.posted)|] == old(cq.posted)
      ensures done ==> var e := cq.posted[|old(cq.posted)|];
                       e.Cid() == cid && e.Status() == status && e.SqHead() == sq.fetched % sq.depth
    {
      PhaseStep(|cq.posted|, cq.depth);
      Laps(cq.polled, |cq.posted| + 1, cq.depth);
      var nextTail := (controller.cqTail + 1) % cq.depth;
      if nextTail == cqDoorbell {
        return false;
      }
      var entry := Posting(dw0, controller.sqHead, id, cid, controller.phase, status);
      HeadsStep(heads, cq.posted, cq.polled, sq.reported, sq.fetched, sq.depth, entry);
      cq.Place(controller.cqTail, entry);
      heads := heads + [sq.fetched];
      var phase := if nextTail == 0 then !controller.phase else controller.phase;
      controller := controller.(cqTail := nextTail, phase := phase);
      done := true;
    }
  }

  lemma HeadsStep(heads: seq<nat>, posted: seq<CompletionEntry>, polled: nat, reported: nat, fetched: nat, depth: nat,
                  entry: CompletionEntry)
    requires HeadsOk(heads, posted, polled, reported, fetched, depth) && reported <= fetched
    requires entry.SqHead() == fetched % depth
    ensures HeadsOk(heads + [fetched], posted + [entry], polled, reported, fetched, depth)
  {
  }

  /** A command that a new queue of depth two refuses: it gets an id and counts as pending,
      but the controller fetches only the command before it. */
  method RefusedCommand(a: SubmissionEntry, b: SubmissionEntry) returns (q: QueuePair, first: nat, refused: nat)
    ensures q.Valid() && first == 0 && refused == 1 && q.pending == {first, refused}
    ensures q.sq.sent == [a.(cid := first)] && q.sq.fetched == |q.sq.sent| == q.rung
  {
    q := new QueuePair(0, 2);
    first := q.Submit(a);
    refused := q.Submit(b);
    var fetched := q.Fetch();
  }

  /** Each completion carries, modulo the depth, how far the controller had fetched; these
      counts never decrease, and those not yet polled lie beyond the last report. */
  ghost predicate HeadsOk(heads: seq<nat>, posted: seq<CompletionEntry>, polled: nat, reported: nat, fetched: nat,
                          depth: nat)
  {
    && |heads| == |posted| && depth > 0
    && (forall i {:trigger At(i)} :: At(i) && 0 <= i < |heads| ==>
         heads[i] <= fetched && posted[i].SqHead() == heads[i] % depth)
    && (forall i {:trigger At(i)} :: At(i) && polled <= i < |heads| ==> reported <= heads[i])
    && (forall i, j {:trigger At(i), At(j)} :: At(i) && At(j) && 0 <= i < j < |heads| ==> heads[i] <= heads[j])
  }
}
