/** The handle and channel system calls of a running system: handle tables and channels are
    objects, and each call refines its step in `Ipc`. */
module Syscalls {
  import opened Common
  import opened Handles
  import opened Ipc
  import Channels

  /** The world without an end, after the one it was linked to became `e`. */
  function Gone(w: World, o: nat, p: nat, e: End): World { w.(ends := w.ends[p := e] - {o}) }

  /** What closing an end and taking it out does to the ends. */
  ghost predicate Closed(w: World, o: nat, w': World) {
    && o in w.ends && (w.ends[o].linked ==> o in w.peers && w.peers[o] in w.ends)
    && w' == if w.ends[o].linked then Gone(w, o, w.peers[o], Channels.Orphaned(w.ends[w.peers[o]]))
             else Gone(w, o, o, w.ends[o])
  }

  lemma ClosedIs(w: World, o: nat, w': World)
    requires Closed(w, o, w')
    ensures DropEnd(w, o) == w'
  {
    if !w.ends[o].linked {
      assert w.ends[o := w.ends[o]] - {o} == w.ends - {o};
    }
  }

  lemma DropIs(w: World, o: nat)
    requires WorldOk(w) && o in w.ends && Unreferenced(w, o)
    ensures At(o) && WorldOk(DropEnd(w, o)) && Step(w, Drop(o)) == DropEnd(w, o)
  {
    DropEndOk(w, o);
  }

  /** What a channel answers to a send, and what it does to the ends. */
  ghost predicate Answered(w: World, o: nat, m: Message, r: Result<(), Channels.Error>, w': World) {
    if o in w.ends && w.ends[o].linked && o in w.peers && w.peers[o] in w.ends then
      var p := w.peers[o];
      && w' == SetEnd(SetEnd(w, o, w.ends[o]), p, Channels.Apply(w.ends[p], Channels.Arrive(m)))
      && r == if |w.ends[p].messages| >= Channels.CAPACITY then Err(Channels.EFull) else Ok(())
    else w' == w && r == Err(Channels.EPeerClosed)
  }

  lemma ForwardIs(w: World, o: nat, m: Message, r: Result<(), Channels.Error>, w': World)
    requires o in w.ends && LinksOk(w) && Answered(w, o, m, r, w')
    ensures w.ends[o].linked ==> o in w.peers && w.peers[o] in w.ends
    ensures r.Ok? ==> Forward(w, o, m) == Ok(w')
    ensures r.Err? ==> Forward(w, o, m) == Err(if r.error == Channels.EFull then EAGAIN else EPIPE) && w' == w
  {
    assert At(o);
    assert SetEnd(w, o, w.ends[o]) == w;
    if w.ends[o].linked {
      assert SetEnd(w, w.peers[o], w.ends[w.peers[o]]) == w;
    }
  }

  /** What a channel answers to a receive, and what it does to the ends. */
  ghost predicate Polled(w: World, o: nat, r: Result<Message, Channels.Error>, w': World) {
    && o in w.ends && (w.ends[o].linked ==> o in w.peers && w.peers[o] in w.ends)
    && var e := w.ends[o];
       if e.messages == [] then w' == w && r == Err(if e.linked then Channels.EEmpty else Channels.EPeerClosed)
       else w' == Popped(w, o) && r == Ok(e.messages[0])
  }

  lemma PolledIs(w: World, o: nat, p: nat, r: Result<Message, Channels.Error>, w': World)
    requires o in w.ends && p in w.ends && p == if w.ends[o].linked && o in w.peers then w.peers[o] else o
    requires w.ends[o].linked ==> o in w.peers && p != o
    requires var e := w.ends[o];
             if e.messages == [] then
               && w' == SetEnd(SetEnd(w, o, e), p, w.ends[p])
               && r == Err(if e.linked then Channels.EEmpty else Channels.EPeerClosed)
             else
               var e' := Channels.Take(e);
               && w' == SetEnd(SetEnd(w, o, e'), p, if e.linked then Channels.Drained(w.ends[p]) else e')
               && r == Ok(e.messages[0])
    ensures Polled(w, o, r, w')
  {
    var e := w.ends[o];
    if e.messages == [] {
      assert SetEnd(SetEnd(w, o, e), p, w.ends[p]) == w;
    } else if !e.linked {
      assert SetEnd(SetEnd(w, o, Channels.Take(e)), o, Channels.Take(e)) == SetEnd(w, o, Channels.Take(e));
    }
  }

  lemma SendFacts(w: World, pid: nat, h: nat, data: seq<nat>, hs: seq<nat>)
    requires WorldOk(w)
    ensures var out := Send(w, pid, h, data, hs);
            && WorldOk(out.world) && (out.lost != [] <==> SendLoses(w, pid, h, hs))
            && (out.lost != [] <==> hs != [] && (out.result == Err(EPIPE) || out.result == Err(EAGAIN)))
            && forall x :: Total(out.world, x) + Count(out.lost, x) == Total(w, x)
  {
    SendOk(w, pid, h, data, hs);
    WhenSendLoses(w, pid, h, data, hs);
    LossReported(w, pid, h, data, hs);
    forall x
      ensures Total(Send(w, pid, h, data, hs).world, x) + Count(Send(w, pid, h, data, hs).lost, x) == Total(w, x)
    {
      SendConserves(w, pid, h, data, hs, x);
    }
  }

  /** A sender that lists handles learns of the loss by the error. */
  lemma LossReported(w: World, pid: nat, h: nat, data: seq<nat>, hs: seq<nat>)
    requires LinksOk(w)
    ensures var out := Send(w, pid, h, data, hs);
            out.lost != [] <==> hs != [] && (out.result == Err(EPIPE) || out.result == Err(EAGAIN))
  {
    var found := Lookup(w, pid, h, WRITE);
    if found.Ok? && AllTransferable(w.tables[pid], hs) {
      TakenSome(w.tables[pid], hs);
    }
  }

  lemma RecvFacts(w: World, pid: nat, h: nat, space: nat, room: nat)
    requires WorldOk(w)
    ensures var out := TryRecv(w, pid, h, space, room);
            && WorldOk(out.world) && (out.lost != [] <==> RecvLoses(w, pid, h, room))
            && forall x :: Total(out.world, x) + Count(out.lost, x) == Total(w, x)
  {
    TryRecvOk(w, pid, h, space, room);
    WhenRecvLoses(w, pid, h, space, room);
    forall x
      ensures var out := TryRecv(w, pid, h, space, room); Total(out.world, x) + Count(out.lost, x) == Total(w, x)
    {
      TryRecvConserves(w, pid, h, space, room, x);
    }
  }

  // `Shows` below is opened by `At` of this number.
  const SHOWS := -1

  function Attached(w: World, a: nat, b: nat): World {
    w.(ends := w.ends[a := Channels.Fresh()][b := Channels.Fresh()])
  }

  function Recorded(w: World, a: nat, b: nat): World {
    w.(peers := w.peers[a := b][b := a], created := w.created[a := CHANNEL_RIGHTS][b := CHANNEL_RIGHTS],
       nextObject := w.nextObject + 2)
  }

  lemma PairedIs(w: World)
    ensures Recorded(Attached(w, w.nextObject, w.nextObject + 1), w.nextObject, w.nextObject + 1) == Paired(w)
  {
  }

  ghost function TablesOf(tables: map<nat, HandleTable>): map<nat, Table>
    reads tables.Values
  {
    map p | p in tables :: tables[p].View()
  }

  ghost function EndsOf(ends: map<nat, Channels.Channel<Message>>): map<nat, End>
    reads ends.Values
  {
    map o | o in ends :: ends[o].View()
  }

  /** No two processes share a table. */
  ghost predicate Apart(tables: map<nat, HandleTable>)
    reads tables.Values
  {
    && (forall p {:trigger At(p)} :: At(p) && p in tables ==> tables[p].Valid())
    && (forall p, q {:trigger At(p), At(q)} :: At(p) && At(q) && p in tables && q in tables && p != q ==>
          tables[p] != tables[q])
  }

  /** No two numbers name one channel end, and the links between ends are those recorded. */
  ghost predicate Wired(ends: map<nat, Channels.Channel<Message>>, peers: map<nat, nat>)
    reads ends.Values
  {
    && (forall o, q {:trigger At(o), At(q)} :: At(o) && At(q) && o in ends && q in ends && o != q ==>
          ends[o] != ends[q])
    && (forall o {:trigger At(o)} :: At(o) && o in ends && ends[o].peer != null ==>
          o in peers && peers[o] in ends && ends[o].peer == ends[peers[o]])
  }

  lemma ApartWith(tables: map<nat, HandleTable>, pid: nat, table: HandleTable)
    requires Apart(tables) && pid !in tables && table !in tables.Values && table.Valid()
    ensures Apart(tables[pid := table])
  {
  }

  lemma AttachedView(ends: map<nat, Channels.Channel<Message>>, a: nat, b: nat,
                     ch0: Channels.Channel<Message>, ch1: Channels.Channel<Message>)
    ensures EndsOf(ends[a := ch0][b := ch1]) == EndsOf(ends)[a := ch0.View()][b := ch1.View()]
  {
  }

  lemma WiredWith(ends: map<nat, Channels.Channel<Message>>, peers: map<nat, nat>, a: nat, b: nat,
                  ch0: Channels.Channel<Message>, ch1: Channels.Channel<Message>)
    requires Wired(ends, peers) && a !in ends && b !in ends && a != b
    requires ch0 !in ends.Values && ch1 !in ends.Values && ch0 != ch1 && ch0.peer == ch1 && ch1.peer == ch0
    ensures Wired(ends[a := ch0][b := ch1], peers[a := b][b := a])
  {
  }

  /** The system calls over the handle tables and channels of the running system. */
  class Kernel {
    var tables: map<nat, HandleTable>
    var ends: map<nat, Channels.Channel<Message>>
    var nextObject: nat
    ghost var peers: map<nat, nat>
    ghost var created: map<nat, Rights>

    ghost function View(): World
      reads this, tables.Values, ends.Values
    {
      World(TablesOf(tables), EndsOf(ends), peers, created, nextObject)
    }

    ghost predicate Shape()
      reads this, tables.Values, ends.Values
    {
      Apart(tables) && Wired(ends, peers)
    }

    ghost predicate Valid()
      reads this, tables.Values, ends.Values
    {
      Shape() && WorldOk(View())
    }

    constructor ()
      ensures Valid() && View() == EMPTY
    {
      tables, ends, nextObject := map[], map[], 0;
      peers, created := map[], map[];
    }

    /** The system is as `w` says; closed, so that a proof step about `w` alone does not look
        at every object. */
    ghost predicate Shows(w: World)
      reads this, tables.Values, ends.Values
    {
      forall i {:trigger At(i)} :: At(i) && i == SHOWS ==> Shape() && View() == w
    }

    lemma Known(w: World)
      requires Shows(w)
      ensures w.tables.Keys == tables.Keys && w.ends.Keys == ends.Keys && w.nextObject == nextObject
    {
      assert At(SHOWS);
    }

    // The tables and channels one by one: what happens to one is all that happens.

    /** When one table is all that changed. */
    twostate lemma OnlyTable(pid: nat)
      requires old(Shape()) && unchanged(this) && pid in tables && tables[pid].Valid()
      requires forall p :: p in tables && tables[p] != tables[pid] ==> unchanged(tables[p])
      requires forall o :: o in ends ==> unchanged(ends[o])
      ensures Shape() && View() == SetTable(old(View()), pid, tables[pid].View())
    {
      forall p | p in tables && p != pid
        ensures unchanged(tables[p])
      {
        assert At(p) && At(pid);
      }
      forall p {:trigger At(p)} | At(p) && p in tables
        ensures tables[p].Valid()
      {
      }
      assert TablesOf(tables) == old(TablesOf(tables))[pid := tables[pid].View()];
      assert EndsOf(ends) == old(EndsOf(ends));
    }

    method AddTable(pid: nat, table: HandleTable, ghost w: World)
      requires Shows(w) && pid !in tables && table !in tables.Values && table.Valid()
      modifies this`tables
      ensures Shows(SetTable(w, pid, table.View()))
    {
      assert At(SHOWS);
      ApartWith(tables, pid, table);
      assert TablesOf(tables[pid := table]) == TablesOf(tables)[pid := table.View()];
      tables := tables[pid := table];
      assert View() == SetTable(w, pid, table.View());
    }

    method RemoveFrom(pid: nat, h: nat, ghost w: World) returns (r: Option<Entry>, ghost w': World)
      requires Shows(w) && pid in w.tables && pid in tables
      modifies tables[pid]
      ensures Shows(w')
      ensures var t := w.tables[pid];
              if h in t.handles then w' == SetTable(w, pid, Without(t, h)) && r == Some(t.handles[h])
              else w' == w && r == None
    {
      assert At(SHOWS) && At(pid);
      r := tables[pid].Remove(h);
      OnlyTable(pid);
      w' := View();
    }

    method DuplicateIn(pid: nat, h: nat, rights: Rights, ghost w: World) returns (r: Option<nat>, ghost w': World)
      requires Shows(w) && pid in w.tables && pid in tables
      modifies tables[pid]
      ensures Shows(w')
      ensures var t := w.tables[pid];
              var t' := Duplicated(t, h, rights);
              if t'.Some? then w' == SetTable(w, pid, t'.value) && r == Some(t.nextId) else w' == w && r == None
    {
      assert At(SHOWS) && At(pid);
      r := tables[pid].Duplicate(h, rights);
      OnlyTable(pid);
      w' := View();
    }

    method InsertInto(pid: nat, e: Entry, ghost w: World) returns (h: nat, ghost w': World)
      requires Shows(w) && pid in w.tables && pid in tables
      modifies tables[pid]
      ensures Shows(w') && w' == SetTable(w, pid, Inserted(w.tables[pid], e)) && h == w.tables[pid].nextId
    {
      assert At(SHOWS) && At(pid);
      h := tables[pid].Insert(e.target, e.rights);
      OnlyTable(pid);
      w' := View();
    }

    method TransferFrom(pid: nat, hs: seq<nat>, ghost w: World) returns (r: Option<seq<Entry>>, ghost w': World)
      requires Shows(w) && pid in w.tables && pid in tables
      modifies tables[pid]
      ensures Shows(w')
      ensures var t := w.tables[pid];
              if AllTransferable(t, hs) then w' == SetTable(w, pid, Taken(t, hs).0) && r == Some(Taken(t, hs).1)
              else w' == w && r == None
    {
      assert At(SHOWS) && At(pid);
      r := tables[pid].TransferMany(hs);
      OnlyTable(pid);
      w' := View();
    }

    method ReceiveInto(pid: nat, es: seq<Entry>, ghost w: World) returns (r: seq<nat>, ghost w': World)
      requires Shows(w) && pid in w.tables && pid in tables
      modifies tables[pid]
      ensures Shows(w')
      ensures var t := w.tables[pid];
              w' == SetTable(w, pid, Received(t, es)) && r == seq(|es|, i => t.nextId + i)
    {
      assert At(SHOWS) && At(pid);
      r := tables[pid].ReceiveMany(es);
      OnlyTable(pid);
      w' := View();
    }

    /** The end that `o` is linked to, or else `o`. */
    ghost function Other(o: nat): nat
      requires o in ends
      reads this, ends.Values
    {
      if ends[o].peer != null && o in peers && peers[o] in ends then peers[o] else o
    }

    /** When an end and the one it is linked to are all that changed, and not their links. */
    twostate lemma OnlyEnds(o: nat)
      requires old(Shape()) && unchanged(this) && o in ends && Other(o) == old(Other(o))
      requires ends[o].peer == old(ends[o].peer) && ends[Other(o)].peer == old(ends[Other(o)].peer)
      requires forall q :: q in ends && ends[q] != ends[o] && ends[q] != ends[Other(o)] ==> unchanged(ends[q])
      requires forall q :: q in tables ==> unchanged(tables[q])
      ensures Shape()
      ensures View() == SetEnd(SetEnd(old(View()), o, ends[o].View()), Other(o), ends[Other(o)].View())
    {
      var p := Other(o);
      forall q | q in ends && q != o && q != p
        ensures unchanged(ends[q])
      {
        assert At(q) && At(o) && At(p);
      }
      forall q | q in tables
        ensures tables[q].Valid() == old(tables[q].Valid())
      {
      }
      assert EndsOf(ends) == old(EndsOf(ends))[o := ends[o].View()][p := ends[p].View()];
      assert TablesOf(tables) == old(TablesOf(tables));
    }

    /** A valid channel whose peer is the end it is linked to. */
    ghost predicate Ready(o: nat)
      reads this, ends.Values, if o in ends && ends[o].peer != null then {ends[o].peer} else {}
    {
      && o in ends && ends[o].Valid()
      && (ends[o].peer != null ==>
            o in peers && peers[o] in ends && peers[o] != o && ends[o].peer == ends[peers[o]])
    }

    lemma ReadyAt(o: nat, w: World)
      requires Shows(w) && EndsOk(w) && LinksOk(w) && o in ends
      ensures Ready(o)
    {
      assert At(SHOWS) && At(o);
      if ends[o].peer != null {
        assert At(peers[o]);
      }
    }

    method SendOn(o: nat, m: Message, ghost w: World) returns (r: Result<(), Channels.Error>, ghost w': World)
      requires Shows(w) && Ready(o)
      modifies ends[o].peer
      ensures Shows(w') && Answered(w, o, m, r, w')
    {
      assert At(SHOWS);
      r := ends[o].Send(m);
      OnlyEnds(o);
      if ends[o].peer == null {
        assert SetEnd(SetEnd(w, o, w.ends[o]), o, w.ends[o]) == w;
      }
      w' := View();
    }

    method RecvOn(o: nat, ghost w: World) returns (r: Result<Message, Channels.Error>, ghost w': World)
      requires Shows(w) && Ready(o)
      modifies ends[o], ends[o].peer
      ensures Shows(w') && Polled(w, o, r, w')
    {
      assert At(SHOWS);
      r := ends[o].TryRecv();
      OnlyEnds(o);
      w' := View();
      PolledIs(w, o, old(Other(o)), r, w');
    }

    method AddPair(ch0: Channels.Channel<Message>, ch1: Channels.Channel<Message>, ghost w: World)
      returns (a: nat, b: nat)
      requires Shows(w) && w.nextObject !in w.ends && w.nextObject + 1 !in w.ends
      requires ch0 !in ends.Values && ch1 !in ends.Values && ch0 != ch1 && ch0.peer == ch1 && ch1.peer == ch0
      requires ch0.View() == Channels.Fresh() && ch1.View() == Channels.Fresh()
      modifies this`ends, this`peers, this`created, this`nextObject
      ensures Shows(Paired(w)) && a == w.nextObject && b == a + 1
    {
      Known(w);
      PairedIs(w);
      a, b := nextObject, nextObject + 1;
      ghost var w', w'' := Attached(w, a, b), Paired(w);
      Attach(a, b, ch0, ch1, w, w');
      Record(a, b, w', w'');
    }

    /** Puts the channels in, with the links they will have once these are recorded. */
    method Attach(a: nat, b: nat, ch0: Channels.Channel<Message>, ch1: Channels.Channel<Message>, ghost w: World,
                  ghost w': World)
      requires Shows(w) && a !in ends && b !in ends && a != b && w' == Attached(w, a, b)
      requires ch0 !in ends.Values && ch1 !in ends.Values && ch0 != ch1 && ch0.peer == ch1 && ch1.peer == ch0
      requires ch0.View() == Channels.Fresh() && ch1.View() == Channels.Fresh()
      modifies this`ends
      ensures Unrecorded(a, b, w')
    {
      assert At(SHOWS);
      WiredWith(ends, peers, a, b, ch0, ch1);
      AttachedView(ends, a, b, ch0, ch1);
      ends := ends[a := ch0][b := ch1];
      assert View() == w';
    }

    ghost predicate Unrecorded(a: nat, b: nat, w: World)
      reads this, tables.Values, ends.Values
    {
      forall i {:trigger At(i)} :: At(i) && i == SHOWS ==>
        Apart(tables) && Wired(ends, peers[a := b][b := a]) && View() == w
    }

    /** When no table and no channel changed. */
    twostate lemma SameObjects()
      requires tables == old(tables) && ends == old(ends)
      requires forall p :: p in tables ==> unchanged(tables[p])
      requires forall o :: o in ends ==> unchanged(ends[o])
      ensures TablesOf(tables) == old(TablesOf(tables)) && EndsOf(ends) == old(EndsOf(ends))
      ensures old(Apart(tables)) ==> Apart(tables)
      ensures old(Wired(ends, peers)) ==> Wired(ends, old(peers))
    {
    }

    method Record(a: nat, b: nat, ghost w: World, ghost w': World)
      requires Unrecorded(a, b, w) && w' == Recorded(w, a, b)
      modifies this`peers, this`created, this`nextObject
      ensures Shows(w')
    {
      ghost var linked := w.(peers := w.peers[a := b][b := a]);
      RecordLinks(a, b, w, linked);
      Number(a, b, linked);
    }

    ghost method RecordLinks(a: nat, b: nat, w: World, w': World)
      requires Unrecorded(a, b, w) && w' == w.(peers := w.peers[a := b][b := a])
      modifies this`peers
      ensures Shows(w')
    {
      assert At(SHOWS);
      peers := peers[a := b][b := a];
    }

    method Number(ghost a: nat, ghost b: nat, ghost w: World)
      requires Shows(w)
      modifies this`created, this`nextObject
      ensures Shows(w.(created := w.created[a := CHANNEL_RIGHTS][b := CHANNEL_RIGHTS], nextObject := w.nextObject + 2))
    {
      assert At(SHOWS);
      created := created[a := CHANNEL_RIGHTS][b := CHANNEL_RIGHTS];
      nextObject := nextObject + 2;
      SameObjects();
    }

    /** When an end is taken out after it and the one it was linked to changed, and no link
        but theirs. */
    twostate lemma OnlyGone(o: nat)
      requires old(Shape()) && old(o in ends) && ends == old(ends) - {o} && tables == old(tables) && peers == old(peers)
      requires created == old(created) && nextObject == old(nextObject)
      requires old(Other(o)) in ends ==> ends[old(Other(o))].peer == null
      requires forall q :: q in ends && q != old(Other(o)) ==> unchanged(ends[q])
      requires forall q :: q in tables ==> unchanged(tables[q])
      requires forall q :: q in ends && ends[q].peer != null ==> q in peers && peers[q] != o
      ensures Shape()
      ensures var p := old(Other(o));
              View() == Gone(old(View()), o, p, if p == o then old(ends[o].View()) else ends[p].View())
    {
      forall q | q in tables
        ensures tables[q].Valid() == old(tables[q].Valid())
      {
      }
      assert TablesOf(tables) == old(TablesOf(tables));
      var p := old(Other(o));
      assert EndsOf(ends) == old(EndsOf(ends))[p := if p == o then old(ends[o].View()) else ends[p].View()] - {o};
    }

    /** No other end is the same object as an end or the one it is linked to, or linked to it. */
    ghost predicate Lone(o: nat)
      requires o in ends
      reads this, ends.Values
    {
      forall q :: q in ends && q != o && q != Other(o) ==>
        && ends[q] != ends[o] && ends[q] != ends[Other(o)]
        && (ends[q].peer != null ==> q in peers && peers[q] != o)
    }

    lemma LoneAt(o: nat, w: World)
      requires Shows(w) && LinksOk(w) && o in ends
      ensures Lone(o)
    {
      assert At(SHOWS) && At(o) && At(Other(o));
      forall q | q in ends && q != o && q != Other(o)
        ensures ends[q] != ends[o] && ends[q] != ends[Other(o)]
        ensures ends[q].peer != null ==> q in peers && peers[q] != o
      {
        assert At(q);
      }
    }

    method Detach(o: nat, ghost w: World) returns (ghost w': World)
      requires Shows(w) && Ready(o) && Lone(o)
      modifies this`ends, ends[o], ends[o].peer
      ensures Shows(w') && Closed(w, o, w')
    {
      assert At(SHOWS);
      ends[o].Close();
      ends := ends - {o};
      OnlyGone(o);
      w' := View();
    }

    // The system calls.

    /** A process without handles. */
    method NewProcess(pid: nat)
      requires Valid() && pid !in tables
      modifies this`tables
      ensures Valid() && LinksOk(old(View())) && View() == Step(old(View()), Spawn(pid))
    {
      ghost var w := View();
      StepOk(w, Spawn(pid));
      var table := new HandleTable();
      AddTable(pid, table, w);
      assert At(SHOWS);
    }

    method SysHandleClose(pid: nat, h: nat) returns (r: Result<(), Errno>)
      requires Valid()
      modifies tables.Values
      ensures Valid() && r == CloseHandle(old(View()), pid, h).result
      ensures View() == CloseHandle(old(View()), pid, h).world
      ensures r.Ok? <==> pid in old(View()).tables && h in old(View()).tables[pid].handles
      ensures r.Err? ==> r.error == (if pid in tables then EBADF else EINVAL) && View() == old(View())
    {
      ghost var w := View();
      CloseHandleOk(w, pid, h);
      CloseReports(w, pid, h);
      if pid !in tables {
        return Err(EINVAL);
      }
      var removed;
      removed, w := RemoveFrom(pid, h, w);
      assert At(SHOWS);
      r := if removed.None? then Err(EBADF) else Ok(());
    }

    method SysHandleDuplicate(pid: nat, h: nat, rights: Rights) returns (r: Result<nat, Errno>)
      requires Valid()
      modifies tables.Values
      ensures Valid() && r == DuplicateHandle(old(View()), pid, h, rights).result
      ensures View() == DuplicateHandle(old(View()), pid, h, rights).world
      ensures r.Ok? <==> Holds(old(View()), pid, h, DUPLICATE)
      ensures r.Err? ==> r.error == (if pid in tables then EBADF else EINVAL) && View() == old(View())
      ensures r.Ok? ==>
                && r.value !in old(View()).tables[pid].handles && pid in View().tables
                && var e := old(View()).tables[pid].handles[h];
                   View().tables[pid].handles ==
                   old(View()).tables[pid].handles[r.value := Entry(e.target, e.rights * rights)]
    {
      ghost var w := View();
      DuplicateHandleOk(w, pid, h, rights);
      DuplicateReports(w, pid, h, rights);
      if pid !in tables {
        return Err(EINVAL);
      }
      var handle;
      handle, w := DuplicateIn(pid, h, rights, w);
      assert At(SHOWS);
      r := if handle.None? then Err(EBADF) else Ok(handle.value);
    }

    method SysChannelCreate(pid: nat, out: nat) returns (r: Result<(nat, nat), Errno>)
      requires Valid()
      modifies this`ends, this`peers, this`created, this`nextObject, tables.Values
      ensures Valid() && r == CreateChannel(old(View()), pid, out).result
      ensures View() == CreateChannel(old(View()), pid, out).world
      ensures r.Err? <==> out == 0 || pid !in tables
      ensures r.Err? ==> r.error == EINVAL && View() == old(View())
      ensures r.Ok? ==> NewChannel(old(View()), View(), pid, r.value.0, r.value.1)
    {
      ghost var w := View();
      CreateChannelOk(w, pid, out);
      CreateReports(w, pid, out);
      assert At(nextObject) && At(nextObject + 1);
      r := DoCreate(pid, out, w);
      assert At(SHOWS);
    }

    method DoCreate(pid: nat, out: nat, ghost w: World) returns (r: Result<(nat, nat), Errno>)
      requires Shows(w) && w.nextObject !in w.ends && w.nextObject + 1 !in w.ends
      modifies this`ends, this`peers, this`created, this`nextObject, tables.Values
      ensures Shows(CreateChannel(w, pid, out).world) && r == CreateChannel(w, pid, out).result
    {
      if out == 0 {
        return Err(EINVAL);
      }
      Known(w);
      if pid !in tables {
        return Err(EINVAL);
      }
      var a, b := NewPair(w);
      var h0, h1;
      ghost var w';
      h0, h1, w' := HandOut(pid, a, b, Paired(w));
      assert CreateChannel(w, pid, out) == Outcome(w', Ok((h0, h1)), []);
      r := Ok((h0, h1));
    }

    method NewPair(ghost w: World) returns (a: nat, b: nat)
      requires Shows(w) && w.nextObject !in w.ends && w.nextObject + 1 !in w.ends
      modifies this`ends, this`peers, this`created, this`nextObject
      ensures Shows(Paired(w)) && a == w.nextObject && b == a + 1
    {
      var ch0, ch1 := Channels.Channel.CreatePair();
      a, b := AddPair(ch0, ch1, w);
    }

    method HandOut(pid: nat, a: nat, b: nat, ghost w: World) returns (h0: nat, h1: nat, ghost w': World)
      requires Shows(w) && pid in tables && pid in w.tables
      modifies tables[pid]
      ensures Shows(w') && h0 == w.tables[pid].nextId && h1 == h0 + 1
      ensures var e, e' := Entry(a, CHANNEL_RIGHTS), Entry(b, CHANNEL_RIGHTS);
              w' == SetTable(w, pid, Inserted(Inserted(w.tables[pid], e), e'))
    {
      h0, w' := InsertInto(pid, Entry(a, CHANNEL_RIGHTS), w);
      h1, w' := InsertInto(pid, Entry(b, CHANNEL_RIGHTS), w');
    }

    /** What happens when the last reference to a channel end goes away. */
    method DropLast(o: nat)
      requires Valid() && o in ends && Unreferenced(View(), o)
      modifies this`ends, ends.Values
      ensures Valid() && LinksOk(old(View())) && View() == Step(old(View()), Drop(o))
    {
      ghost var w := View();
      ReadyAt(o, w);
      LoneAt(o, w);
      DropIs(w, o);
      ghost var w' := Detach(o, w);
      ClosedIs(w, o, w');
      assert At(SHOWS);
    }

    /** `lost` are the capabilities that no longer exist afterwards. */
    method SysChannelSend(pid: nat, h: nat, data: seq<nat>, hs: seq<nat>)
      returns (r: Result<(), Errno>, ghost lost: seq<Entry>)
      requires Valid()
      modifies tables.Values, ends.Values
      ensures Valid() && View() == Send(old(View()), pid, h, data, hs).world
      ensures r == Send(old(View()), pid, h, data, hs).result
      ensures forall x :: Total(View(), x) + Count(lost, x) == old(Total(View(), x))
      ensures lost != [] <==> old(SendLoses(View(), pid, h, hs))
      ensures lost != [] <==> hs != [] && (r == Err(EPIPE) || r == Err(EAGAIN))
      ensures r == Err(EBADF) <==> pid in old(View()).tables && !Holds(old(View()), pid, h, WRITE)
      ensures r == Err(EINVAL) <==>
                pid !in old(View()).tables || (Holds(old(View()), pid, h, WRITE) && !Names(old(View()), pid, h, WRITE))
      ensures r == Err(EPERM) <==> Names(old(View()), pid, h, WRITE) && !Sendable(old(View()), pid, hs)
      ensures r.Err? && r.error != EPIPE && r.error != EAGAIN ==> View() == old(View())
    {
      ghost var w := View();
      SendErrors(w, pid, h, data, hs);
      lost := Send(w, pid, h, data, hs).lost;
      SendFacts(w, pid, h, data, hs);
      r := DoSend(pid, h, data, hs, w);
      assert At(SHOWS);
    }

    method DoSend(pid: nat, h: nat, data: seq<nat>, hs: seq<nat>, ghost w: World) returns (r: Result<(), Errno>)
      requires Shows(w) && EndsOk(w) && LinksOk(w)
      modifies tables.Values, ends.Values
      ensures Shows(Send(w, pid, h, data, hs).world) && r == Send(w, pid, h, data, hs).result
    {
      Known(w);
      if pid !in tables {
        return Err(EINVAL);
      }
      var found := Find(pid, h, {WRITE}, w);
      if found.None? {
        return Err(EBADF);
      }
      var o := found.value;
      if o !in ends {
        return Err(EINVAL);
      }
      var transferred;
      ghost var w';
      transferred, w' := TransferFrom(pid, hs, w);
      if transferred.None? {
        return Err(EPERM);
      }
      r := Pass(o, Message(data, transferred.value), w');
    }

    method Find(pid: nat, h: nat, required: Rights, ghost w: World) returns (r: Option<nat>)
      requires Shows(w) && pid in tables && pid in w.tables
      ensures r == Get(w.tables[pid], h, required)
    {
      assert At(SHOWS);
      r := tables[pid].Find(h, required);
    }

    /** The channel's answer as the system call reports it. */
    method Pass(o: nat, m: Message, ghost w: World) returns (r: Result<(), Errno>)
      requires Shows(w) && EndsOk(w) && LinksOk(w) && o in ends && o in w.ends
      modifies ends.Values
      ensures At(o) && var sent := Forward(w, o, m);
              if sent.Ok? then Shows(sent.value) && r == Ok(()) else Shows(w) && r == Err(sent.error)
    {
      ReadyAt(o, w);
      var sent;
      ghost var w';
      sent, w' := SendOn(o, m, w);
      ForwardIs(w, o, m, sent, w');
      match sent {
        case Ok(_) => r := Ok(());
        case Err(e) => r := Err(if e == Channels.EFull then EAGAIN else EPIPE);
      }
    }

    method SysChannelTryRecv(pid: nat, h: nat, space: nat, room: nat)
      returns (r: Result<Delivery, Errno>, ghost lost: seq<Entry>)
      requires Valid()
      modifies tables.Values, ends.Values
      ensures Valid() && View() == TryRecv(old(View()), pid, h, space, room).world
      ensures r == TryRecv(old(View()), pid, h, space, room).result
      ensures forall x :: Total(View(), x) + Count(lost, x) == old(Total(View(), x))
      ensures lost != [] <==> old(RecvLoses(View(), pid, h, room))
      ensures r == Err(EBADF) <==> pid in old(View()).tables && !Holds(old(View()), pid, h, READ)
      ensures r == Err(EINVAL) <==>
                pid !in old(View()).tables || (Holds(old(View()), pid, h, READ) && !Names(old(View()), pid, h, READ))
      ensures r.Err? ==> View() == old(View())
    {
      ghost var w := View();
      RecvErrors(w, pid, h, space, room);
      lost := TryRecv(w, pid, h, space, room).lost;
      RecvFacts(w, pid, h, space, room);
      r := DoTryRecv(pid, h, space, room, w);
      assert At(SHOWS);
    }

    method DoTryRecv(pid: nat, h: nat, space: nat, room: nat, ghost w: World) returns (r: Result<Delivery, Errno>)
      requires Shows(w) && EndsOk(w) && LinksOk(w)
      modifies tables.Values, ends.Values
      ensures Shows(TryRecv(w, pid, h, space, room).world) && r == TryRecv(w, pid, h, space, room).result
    {
      Known(w);
      if pid !in tables {
        return Err(EINVAL);
      }
      var found := Find(pid, h, {READ}, w);
      if found.None? {
        return Err(EBADF);
      }
      var o := found.value;
      if o !in ends {
        return Err(EINVAL);
      }
      ReadyAt(o, w);
      var received;
      ghost var w';
      received, w' := RecvOn(o, w);
      if received.Err? {
        return Err(if received.error == Channels.EEmpty then EAGAIN else EPIPE);
      }
      var m := received.value;
      var data := Cut(m.data, space);
      if m.objects == [] || room == 0 {
        return Ok(Delivery(data, |m.data|, [], 0));
      }
      var handles;
      handles, w' := ReceiveInto(pid, m.objects, w');
      r := Ok(Delivery(data, |m.data|, Cut(handles, room), |m.objects|));
    }
  }
}
