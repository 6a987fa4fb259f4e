/** The handle and channel system calls over all processes: capabilities travel between
    handle tables inside messages. Each call is one atomic step. */
module Ipc {
  import opened Common
  import opened Handles
  import Channels

  datatype Errno = EAGAIN | EBADF | EINVAL | EPERM | EPIPE

  datatype Message = Message(data: seq<nat>, objects: seq<Entry>)

  type End = Channels.End<Message>

  /** The handle table of each process, the channel ends that exist and their links, and
      for each object ever created the rights its first handle had. */
  datatype World = World(tables: map<nat, Table>, ends: map<nat, End>, peers: map<nat, nat>,
                         created: map<nat, Rights>, nextObject: nat)

  const CHANNEL_RIGHTS: Rights := BASIC + {DUPLICATE, TRANSFER}

  // ---------------------------------------------------------------- calls

  function SetTable(w: World, pid: nat, t: Table): World { w.(tables := w.tables[pid := t]) }

  function SetEnd(w: World, o: nat, e: End): World { w.(ends := w.ends[o := e]) }

  /** The channel end that a handle with the given right names. */
  function Lookup(w: World, pid: nat, h: nat, right: nat): Result<nat, Errno> {
    if pid !in w.tables then Err(EINVAL)
    else match Get(w.tables[pid], h, {right})
         case None => Err(EBADF)
         case Some(o) => if o in w.ends then Ok(o) else Err(EINVAL)
  }

  datatype Outcome<T> = Outcome(world: World, result: Result<T, Errno>, lost: seq<Entry>)

  function CloseHandle(w: World, pid: nat, h: nat): Outcome<()> {
    if pid !in w.tables then Outcome(w, Err(EINVAL), [])
    else if h !in w.tables[pid].handles then Outcome(w, Err(EBADF), [])
    else Outcome(SetTable(w, pid, Without(w.tables[pid], h)), Ok(()), [w.tables[pid].handles[h]])
  }

  function DuplicateHandle(w: World, pid: nat, h: nat, rights: Rights): Outcome<nat> {
    if pid !in w.tables then Outcome(w, Err(EINVAL), [])
    else match Duplicated(w.tables[pid], h, rights)
         case None => Outcome(w, Err(EBADF), [])
         case Some(t) => Outcome(SetTable(w, pid, t), Ok(w.tables[pid].nextId), [])
  }

  /** Two new channel ends, linked to each other. */
  function Paired(w: World): World {
    var a, b := w.nextObject, w.nextObject + 1;
    World(w.tables, w.ends[a := Channels.Fresh()][b := Channels.Fresh()], w.peers[a := b][b := a],
          w.created[a := CHANNEL_RIGHTS][b := CHANNEL_RIGHTS], w.nextObject + 2)
  }

  /** `out` is the address the two handles are to be written to. */
  function CreateChannel(w: World, pid: nat, out: nat): Outcome<(nat, nat)> {
    if out == 0 || pid !in w.tables then Outcome(w, Err(EINVAL), [])
    else
      var t := w.tables[pid];
      var t' := Inserted(Inserted(t, Entry(w.nextObject, CHANNEL_RIGHTS)), Entry(w.nextObject + 1, CHANNEL_RIGHTS));
      var w' := SetTable(Paired(w), pid, t');
      Outcome(w', Ok((t.nextId, t.nextId + 1)), [])
  }

  /** What a channel does with a message: it goes to the other end. */
  function Forward(w: World, o: nat, m: Message): Result<World, Errno>
    requires o in w.ends && (w.ends[o].linked ==> o in w.peers && w.peers[o] in w.ends)
  {
    if w.ends[o].closed || !w.ends[o].linked then Err(EPIPE)
    else
      var p := w.peers[o];
      if w.ends[p].closed then Err(EPIPE)
      else if |w.ends[p].messages| >= Channels.CAPACITY then Err(EAGAIN)
      else Ok(SetEnd(w, p, Channels.Deliver(w.ends[p], m)))
  }

  /** The listed handles leave the sender's table before the channel is asked; if it
      refuses, the capabilities are lost. */
  function Send(w: World, pid: nat, h: nat, data: seq<nat>, hs: seq<nat>): Outcome<()>
    requires LinksOk(w)
  {
    match Lookup(w, pid, h, WRITE)
    case Err(e) => Outcome(w, Err(e), [])
    case Ok(o) =>
      if !AllTransferable(w.tables[pid], hs) then Outcome(w, Err(EPERM), [])
      else
        var (t, es) := Taken(w.tables[pid], hs);
        var w' := SetTable(w, pid, t);
        assert At(o);
        match Forward(w', o, Message(data, es))
        case Err(e) => Outcome(w', Err(e), es)
        case Ok(w'') => Outcome(w'', Ok(()), [])
  }

  /** The data and the handle values copied out, and how much of each there was. */
  datatype Delivery = Delivery(data: seq<nat>, length: nat, handles: seq<nat>, count: nat)

  /** The first `n` elements, or all if there are fewer. */
  function Cut(s: seq<nat>, n: nat): seq<nat> { if n <= |s| then s[..n] else s }

  /** The oldest message leaves an end, and the other end hears of it. */
  function Popped(w: World, o: nat): World
    requires o in w.ends && w.ends[o].messages != []
    requires w.ends[o].linked ==> o in w.peers && w.peers[o] in w.ends
  {
    var w' := SetEnd(w, o, Channels.Take(w.ends[o]));
    if w.ends[o].linked then SetEnd(w', w.peers[o], Channels.Drained(w'.ends[w.peers[o]])) else w'
  }

  /** Up to `space` bytes of data and `room` handles are copied out. Without room for handles
      the capabilities in the message are lost. */
  function TryRecv(w: World, pid: nat, h: nat, space: nat, room: nat): Outcome<Delivery>
    requires LinksOk(w)
  {
    match Lookup(w, pid, h, READ)
    case Err(e) => Outcome(w, Err(e), [])
    case Ok(o) =>
      var e := w.ends[o];
      if e.messages == [] then Outcome(w, Err(if e.linked then EAGAIN else EPIPE), [])
      else
        var m, t := e.messages[0], w.tables[pid];
        assert At(o);
        var w' := Popped(w, o);
        var data := Cut(m.data, space);
        if m.objects == [] || room == 0 then Outcome(w', Ok(Delivery(data, |m.data|, [], 0)), m.objects)
        else
          var handles := Cut(seq(|m.objects|, i => t.nextId + i), room);
          Outcome(SetTable(w', pid, Received(t, m.objects)), Ok(Delivery(data, |m.data|, handles, |m.objects|)), [])
  }

  // ---------------------------------------------------------------- errors

  /** The process has a handle of this value with this right. */
  predicate Holds(w: World, pid: nat, h: nat, right: nat) {
    pid in w.tables && h in w.tables[pid].handles && right in w.tables[pid].handles[h].rights
  }

  /** The handle, with this right, is one of a channel end. */
  predicate Names(w: World, pid: nat, h: nat, right: nat) {
    Holds(w, pid, h, right) && w.tables[pid].handles[h].target in w.ends
  }

  /** The listed handles are all there and may all be sent. */
  predicate Sendable(w: World, pid: nat, hs: seq<nat>) {
    forall i :: 0 <= i < |hs| ==> Holds(w, pid, hs[i], TRANSFER)
  }

  /** Which error a send gives, by what the caller holds and by the channel. An error found
      before handles are taken changes nothing. */
  lemma SendErrors(w: World, pid: nat, h: nat, data: seq<nat>, hs: seq<nat>)
    requires LinksOk(w)
    ensures var r := Send(w, pid, h, data, hs).result;
            && (r == Err(EBADF) <==> pid in w.tables && !Holds(w, pid, h, WRITE))
            && (r == Err(EINVAL) <==> pid !in w.tables || (Holds(w, pid, h, WRITE) && !Names(w, pid, h, WRITE)))
            && (r == Err(EPERM) <==> Names(w, pid, h, WRITE) && !Sendable(w, pid, hs))
            && (r == Err(EPIPE) <==>
                Names(w, pid, h, WRITE) && Sendable(w, pid, hs) && !w.ends[w.tables[pid].handles[h].target].linked)
            && (r.Err? && r.error != EPIPE && r.error != EAGAIN ==> Send(w, pid, h, data, hs).world == w)
    ensures Send(w, pid, h, data, hs).result == Err(EAGAIN) <==>
              && Names(w, pid, h, WRITE) && Sendable(w, pid, hs)
              && var o := w.tables[pid].handles[h].target;
                 w.ends[o].linked && o in w.peers && w.peers[o] in w.ends && |w.ends[w.peers[o]].messages| >= 64
  {
    if Names(w, pid, h, WRITE) {
      assert At(w.tables[pid].handles[h].target);
    }
  }

  /** Which error a receive gives; none changes anything. */
  lemma RecvErrors(w: World, pid: nat, h: nat, space: nat, room: nat)
    requires LinksOk(w)
    ensures var out := TryRecv(w, pid, h, space, room);
            && (out.result == Err(EBADF) <==> pid in w.tables && !Holds(w, pid, h, READ))
            && (out.result == Err(EINVAL) <==>
                pid !in w.tables || (Holds(w, pid, h, READ) && !Names(w, pid, h, READ)))
            && out.result != Err(EPERM) && (out.result.Err? ==> out.world == w)
    ensures var r := TryRecv(w, pid, h, space, room).result;
            && (r == Err(EAGAIN) <==>
                && Names(w, pid, h, READ)
                && var e := w.ends[w.tables[pid].handles[h].target]; e.messages == [] && e.linked)
            && (r == Err(EPIPE) <==>
                && Names(w, pid, h, READ)
                && var e := w.ends[w.tables[pid].handles[h].target]; e.messages == [] && !e.linked)
  {
  }

  /** A copy has no more rights than both the original and the request, and needs the right
      to duplicate. */
  lemma DuplicateReports(w: World, pid: nat, h: nat, rights: Rights)
    requires TablesOk(w)
    ensures var out := DuplicateHandle(w, pid, h, rights);
            && (out.result.Ok? <==> Holds(w, pid, h, DUPLICATE))
            && (out.result.Err? ==>
                  out.result.error == (if pid in w.tables then EBADF else EINVAL) && out.world == w)
            && (out.result.Ok? ==>
                  && out.result.value !in w.tables[pid].handles && pid in out.world.tables
                  && var e := w.tables[pid].handles[h];
                     out.world.tables[pid].handles ==
                     w.tables[pid].handles[out.result.value := Entry(e.target, e.rights * rights)])
  {
    assert At(pid);
  }

  lemma CloseReports(w: World, pid: nat, h: nat)
    ensures var out := CloseHandle(w, pid, h);
            && (out.result.Ok? <==> pid in w.tables && h in w.tables[pid].handles)
            && (out.result.Err? ==>
                  out.result.error == (if pid in w.tables then EBADF else EINVAL) && out.world == w)
            && (out.result.Ok? ==>
                  pid in out.world.tables && out.world.tables[pid].handles == w.tables[pid].handles - {h})
  {
  }

  /** The two new handles name empty ends that are linked to each other, with all rights that
      sending, receiving, copying and passing on need. */
  lemma CreateReports(w: World, pid: nat, addr: nat)
    requires TablesOk(w)
    ensures var out := CreateChannel(w, pid, addr);
            && (out.result.Err? <==> addr == 0 || pid !in w.tables)
            && (out.result.Err? ==> out.result.error == EINVAL && out.world == w)
            && (out.result.Ok? ==> NewChannel(w, out.world, pid, out.result.value.0, out.result.value.1))
  {
    assert At(pid);
  }

  ghost predicate NewChannel(w: World, w': World, pid: nat, h0: nat, h1: nat) {
    && pid in w.tables && pid in w'.tables && h0 != h1
    && h0 !in w.tables[pid].handles && h1 !in w.tables[pid].handles
    && w'.tables[pid].handles.Keys == w.tables[pid].handles.Keys + {h0, h1}
    && (forall right :: right in {READ, WRITE, WAIT, DUPLICATE, TRANSFER} ==>
          Names(w', pid, h0, right) && Names(w', pid, h1, right))
    && var a, b := w'.tables[pid].handles[h0].target, w'.tables[pid].handles[h1].target;
       && a != b && a in w'.peers && b in w'.peers && w'.peers[a] == b && w'.peers[b] == a
       && a in w'.ends && b in w'.ends
       && w'.ends[a].linked && w'.ends[b].linked && w'.ends[a].messages == [] && w'.ends[b].messages == []
       && w'.ends[a].signals == w'.ends[b].signals == {Channels.Writable}
       && w'.ends[a].observers == w'.ends[b].observers == []
  }

  // ---------------------------------------------------------------- invariants

  /** No more rights than the object was created with. */
  predicate Allowed(created: map<nat, Rights>, e: Entry) {
    e.target in created && e.rights <= created[e.target]
  }

  ghost predicate ListAllowed(created: map<nat, Rights>, es: seq<Entry>) {
    forall i {:trigger At(i)} :: At(i) && 0 <= i < |es| ==> Allowed(created, es[i])
  }

  ghost predicate TableAllowed(created: map<nat, Rights>, t: Table) {
    TableOk(t) && forall h {:trigger At(h)} :: At(h) && h in t.handles ==> Allowed(created, t.handles[h])
  }

  ghost predicate QueueAllowed(created: map<nat, Rights>, ms: seq<Message>) {
    forall i {:trigger At(i)} :: At(i) && 0 <= i < |ms| ==> ListAllowed(created, ms[i].objects)
  }

  ghost predicate TablesOk(w: World) {
    forall p {:trigger At(p)} :: At(p) && p in w.tables ==> TableAllowed(w.created, w.tables[p])
  }

  ghost predicate EndsOk(w: World) {
    forall o {:trigger At(o)} :: At(o) && o in w.ends ==>
      Channels.EndOk(w.ends[o]) && QueueAllowed(w.created, w.ends[o].messages)
  }

  /** Links between ends are symmetric, and neither end of a link is closed. */
  ghost predicate LinksOk(w: World) {
    forall o {:trigger At(o)} :: At(o) && o in w.ends && w.ends[o].linked ==>
      && !w.ends[o].closed && o in w.peers && w.peers[o] != o && w.peers[o] in w.ends
      && w.ends[w.peers[o]].linked && !w.ends[w.peers[o]].closed
      && w.peers[o] in w.peers && w.peers[w.peers[o]] == o
  }

  ghost predicate NumbersOk(w: World) {
    && (forall o {:trigger At(o)} :: At(o) && o in w.ends ==> o < w.nextObject)
    && (forall o {:trigger At(o)} :: At(o) && o in w.created ==> o < w.nextObject)
  }

  ghost predicate WorldOk(w: World) { TablesOk(w) && EndsOk(w) && LinksOk(w) && NumbersOk(w) }

  // ---------------------------------------------------------------- rights

  /** What an object was created with is never changed. */
  ghost predicate SameCreated(w: World, w': World) {
    forall o {:trigger At(o)} :: At(o) && o in w.created ==> o in w'.created && w'.created[o] == w.created[o]
  }

  lemma {:induction false} TakenAllowed(created: map<nat, Rights>, t: Table, hs: seq<nat>)
    requires TableAllowed(created, t)
    ensures TableAllowed(created, Taken(t, hs).0) && ListAllowed(created, Taken(t, hs).1)
    decreases |hs|
  {
    if hs != [] {
      if hs[0] in t.handles {
        assert At(hs[0]);
        TakenAllowed(created, Without(t, hs[0]), hs[1..]);
        ConsAllowed(created, t.handles[hs[0]], Taken(Without(t, hs[0]), hs[1..]).1);
      } else {
        TakenAllowed(created, t, hs[1..]);
      }
    }
  }

  lemma ConsAllowed(created: map<nat, Rights>, e: Entry, es: seq<Entry>)
    requires Allowed(created, e) && ListAllowed(created, es)
    ensures ListAllowed(created, [e] + es)
  {
    forall i {:trigger At(i)} | At(i) && 0 <= i < 1 + |es|
      ensures Allowed(created, ([e] + es)[i])
    {
      assert At(i - 1);
    }
  }

  lemma {:induction false} ReceivedAllowed(created: map<nat, Rights>, t: Table, es: seq<Entry>)
    requires TableAllowed(created, t) && ListAllowed(created, es)
    ensures TableAllowed(created, Received(t, es))
    decreases |es|
  {
    if es != [] {
      assert At(0);
      forall i {:trigger At(i)} | At(i) && 0 <= i < |es| - 1
        ensures Allowed(created, es[1..][i])
      {
        assert At(i + 1);
      }
      ReceivedAllowed(created, Inserted(t, es[0]), es[1..]);
    }
  }

  lemma QueueShift(created: map<nat, Rights>, ms: seq<Message>)
    requires QueueAllowed(created, ms) && ms != []
    ensures ListAllowed(created, ms[0].objects) && QueueAllowed(created, ms[1..])
  {
    assert At(0);
    forall i {:trigger At(i)} | At(i) && 0 <= i < |ms| - 1
      ensures ListAllowed(created, ms[1..][i].objects)
    {
      assert At(i + 1);
    }
  }

  lemma SetTableOk(w: World, pid: nat, t: Table)
    requires WorldOk(w) && TableAllowed(w.created, t)
    ensures WorldOk(SetTable(w, pid, t))
  {
  }

  /** Replacing an end keeps the links if the end keeps its own. */
  lemma SetEndOk(w: World, o: nat, e: End)
    requires WorldOk(w) && o in w.ends && e.linked == w.ends[o].linked && e.closed == w.ends[o].closed
    requires Channels.EndOk(e) && QueueAllowed(w.created, e.messages)
    ensures WorldOk(SetEnd(w, o, e))
  {
    assert At(o);
  }

  lemma ForwardOk(w: World, o: nat, m: Message)
    requires WorldOk(w) && o in w.ends && ListAllowed(w.created, m.objects)
    ensures At(o) && w.ends[o].linked ==> o in w.peers && w.peers[o] in w.ends
    ensures Forward(w, o, m).Ok? ==> WorldOk(Forward(w, o, m).value)
  {
    assert At(o);
    if Forward(w, o, m).Ok? {
      var p := w.peers[o];
      assert At(p);
      Channels.StepKeeps(w.ends[p], Channels.Arrive(m));
      SetEndOk(w, p, Channels.Deliver(w.ends[p], m));
    }
  }

  lemma SendOk(w: World, pid: nat, h: nat, data: seq<nat>, hs: seq<nat>)
    requires WorldOk(w)
    ensures WorldOk(Send(w, pid, h, data, hs).world)
  {
    var found := Lookup(w, pid, h, WRITE);
    if found.Ok? && AllTransferable(w.tables[pid], hs) {
      assert At(pid);
      var (t, es) := Taken(w.tables[pid], hs);
      TakenAllowed(w.created, w.tables[pid], hs);
      SetTableOk(w, pid, t);
      ForwardOk(SetTable(w, pid, t), found.value, Message(data, es));
    }
  }

  lemma TryRecvOk(w: World, pid: nat, h: nat, space: nat, room: nat)
    requires WorldOk(w)
    ensures WorldOk(TryRecv(w, pid, h, space, room).world)
  {
    var found := Lookup(w, pid, h, READ);
    if found.Ok? && w.ends[found.value].messages != [] {
      var o := found.value;
      var e, t := w.ends[o], w.tables[pid];
      assert At(o) && At(pid);
      QueueShift(w.created, e.messages);
      Channels.StepKeeps(e, Channels.Receive);
      SetEndOk(w, o, Channels.Take(e));
      var w' := SetEnd(w, o, Channels.Take(e));
      if e.linked {
        var p := w.peers[o];
        assert At(p);
        SetEndOk(w', p, Channels.Drained(w'.ends[p]));
      }
      var w'' := if e.linked then SetEnd(w', w.peers[o], Channels.Drained(w'.ends[w.peers[o]])) else w';
      ReceivedAllowed(w.created, t, e.messages[0].objects);
      SetTableOk(w'', pid, Received(t, e.messages[0].objects));
    }
  }

  lemma CloseHandleOk(w: World, pid: nat, h: nat)
    requires WorldOk(w)
    ensures WorldOk(CloseHandle(w, pid, h).world)
  {
    if pid in w.tables {
      assert At(pid);
      SetTableOk(w, pid, Without(w.tables[pid], h));
    }
  }

  lemma DuplicateHandleOk(w: World, pid: nat, h: nat, rights: Rights)
    requires WorldOk(w)
    ensures WorldOk(DuplicateHandle(w, pid, h, rights).world)
  {
    if pid in w.tables {
      var d := Duplicated(w.tables[pid], h, rights);
      if d.Some? {
        assert At(pid) && At(h);
        SetTableOk(w, pid, d.value);
      }
    }
  }

  /** More objects only allow more. */
  lemma GrownAllowed(w: World, w': World)
    requires TablesOk(w) && EndsOk(w) && NumbersOk(w)
    requires SameCreated(w, w')
    ensures forall p {:trigger At(p)} :: At(p) && p in w.tables ==> TableAllowed(w'.created, w.tables[p])
    ensures forall o {:trigger At(o)} :: At(o) && o in w.ends ==> QueueAllowed(w'.created, w.ends[o].messages)
  {
    forall p {:trigger At(p)} | At(p) && p in w.tables
      ensures TableAllowed(w'.created, w.tables[p])
    {
      forall h {:trigger At(h)} | At(h) && h in w.tables[p].handles
        ensures Allowed(w'.created, w.tables[p].handles[h])
      {
        assert At(w.tables[p].handles[h].target);
      }
    }
    forall o {:trigger At(o)} | At(o) && o in w.ends
      ensures QueueAllowed(w'.created, w.ends[o].messages)
    {
      forall i {:trigger At(i)} | At(i) && 0 <= i < |w.ends[o].messages|
        ensures ListAllowed(w'.created, w.ends[o].messages[i].objects)
      {
        forall j {:trigger At(j)} | At(j) && 0 <= j < |w.ends[o].messages[i].objects|
          ensures Allowed(w'.created, w.ends[o].messages[i].objects[j])
        {
          assert At(w.ends[o].messages[i].objects[j].target);
        }
      }
    }
  }

  lemma CreateChannelOk(w: World, pid: nat, out: nat)
    requires WorldOk(w)
    ensures WorldOk(CreateChannel(w, pid, out).world)
  {
    if out != 0 && pid in w.tables {
      var a, b := w.nextObject, w.nextObject + 1;
      PairedOk(w);
      assert At(pid) && At(a) && At(b);
      var t := Inserted(Inserted(w.tables[pid], Entry(a, CHANNEL_RIGHTS)), Entry(b, CHANNEL_RIGHTS));
      SetTableOk(Paired(w), pid, t);
    }
  }

  lemma PairedOk(w: World)
    requires WorldOk(w)
    ensures WorldOk(Paired(w))
  {
    var w' := Paired(w);
    assert At(w.nextObject) && At(w.nextObject + 1);
    GrownAllowed(w, w');
    PairedLinks(w, w');
  }

  lemma PairedLinks(w: World, w': World)
    requires LinksOk(w) && NumbersOk(w) && w' == Paired(w)
    ensures LinksOk(w') && NumbersOk(w')
  {
    assert At(w.nextObject) && At(w.nextObject + 1);
    forall o {:trigger At(o)} | At(o) && o in w.ends && w.ends[o].linked
      ensures w.peers[o] in w.ends && w'.ends[o] == w.ends[o] && w'.ends[w.peers[o]] == w.ends[w.peers[o]]
      ensures w'.peers[o] == w.peers[o] && w.peers[o] in w.peers && w'.peers[w.peers[o]] == w.peers[w.peers[o]]
    {
      assert At(w.peers[o]);
    }
  }

  // ---------------------------------------------------------------- every run

  /** The last reference to a channel end is gone: it closes. */
  ghost predicate Unreferenced(w: World, o: nat) {
    && (forall p {:trigger At(p)} :: At(p) && p in w.tables ==>
          forall h {:trigger At(h)} :: At(h) && h in w.tables[p].handles ==> w.tables[p].handles[h].target != o)
    && (forall q {:trigger At(q)} :: At(q) && q in w.ends ==>
          forall i {:trigger At(i)} :: At(i) && 0 <= i < |w.ends[q].messages| ==>
            forall j {:trigger At(j)} :: At(j) && 0 <= j < |w.ends[q].messages[i].objects| ==>
              w.ends[q].messages[i].objects[j].target != o)
  }

  function DropEnd(w: World, o: nat): World
    requires o in w.ends && (w.ends[o].linked ==> o in w.peers && w.peers[o] in w.ends)
  {
    var w' := if w.ends[o].linked then SetEnd(w, w.peers[o], Channels.Orphaned(w.ends[w.peers[o]])) else w;
    w'.(ends := w'.ends - {o})
  }

  datatype Call =
    | Spawn(pid: nat)
    | NewObject(pid: nat, rights: Rights)
    | Create(pid: nat, out: nat)
    | Close(pid: nat, h: nat)
    | Duplicate(pid: nat, h: nat, rights: Rights)
    | SendTo(pid: nat, h: nat, data: seq<nat>, hs: seq<nat>)
    | RecvFrom(pid: nat, h: nat, space: nat, room: nat)
    | Drop(o: nat)

  ghost function Step(w: World, call: Call): World
    requires LinksOk(w)
  {
    match call
    case Spawn(pid) => if pid in w.tables then w else SetTable(w, pid, Table(map[], 1))
    case NewObject(pid, rights) =>
      if pid !in w.tables then w
      else SetTable(w, pid, Inserted(w.tables[pid], Entry(w.nextObject, rights)))
           .(created := w.created[w.nextObject := rights], nextObject := w.nextObject + 1)
    case Create(pid, out) => CreateChannel(w, pid, out).world
    case Close(pid, h) => CloseHandle(w, pid, h).world
    case Duplicate(pid, h, rights) => DuplicateHandle(w, pid, h, rights).world
    case SendTo(pid, h, data, hs) => Send(w, pid, h, data, hs).world
    case RecvFrom(pid, h, space, room) => TryRecv(w, pid, h, space, room).world
    case Drop(o) => assert At(o); if o in w.ends && Unreferenced(w, o) then DropEnd(w, o) else w
  }

  lemma DropEndOk(w: World, o: nat)
    requires WorldOk(w) && o in w.ends
    ensures At(o) && WorldOk(DropEnd(w, o))
  {
    assert At(o);
    DropLinksOk(w, o);
    if w.ends[o].linked {
      var p := w.peers[o];
      assert At(p);
      Channels.StepKeeps(w.ends[p], Channels.PeerCloses);
    }
  }

  lemma DropLinksOk(w: World, o: nat)
    requires LinksOk(w) && o in w.ends
    ensures At(o) && LinksOk(DropEnd(w, o))
  {
    assert At(o);
    var w' := DropEnd(w, o);
    forall q {:trigger At(q)} | At(q) && q in w'.ends && w'.ends[q].linked
      ensures q in w.ends && w.ends[q].linked && q != o && w.peers[q] != o && (w.ends[o].linked ==> q != w.peers[o])
    {
    }
    forall q {:trigger At(q)} | At(q) && q in w'.ends && w'.ends[q].linked
      ensures w.peers[q] in w'.ends && w'.ends[w.peers[q]] == w.ends[w.peers[q]]
    {
      assert At(w.peers[q]);
    }
  }

  lemma NewObjectOk(w: World, pid: nat, rights: Rights)
    requires WorldOk(w)
    ensures WorldOk(Step(w, NewObject(pid, rights)))
  {
    if pid in w.tables {
      assert At(pid) && At(w.nextObject);
      GrownAllowed(w, Step(w, NewObject(pid, rights)));
    }
  }

  lemma StepOk(w: World, call: Call)
    requires WorldOk(w)
    ensures WorldOk(Step(w, call))
  {
    match call
    case Spawn(pid) =>
      SetTableOk(w, pid, Table(map[], 1));
    case NewObject(pid, rights) => NewObjectOk(w, pid, rights);
    case Create(pid, out) => CreateChannelOk(w, pid, out);
    case Close(pid, h) => CloseHandleOk(w, pid, h);
    case Duplicate(pid, h, rights) => DuplicateHandleOk(w, pid, h, rights);
    case SendTo(pid, h, data, hs) => SendOk(w, pid, h, data, hs);
    case RecvFrom(pid, h, space, room) => TryRecvOk(w, pid, h, space, room);
    case Drop(o) =>
      if o in w.ends {
        DropEndOk(w, o);
      }
  }

  lemma StepKeepsCreated(w: World, call: Call)
    requires LinksOk(w) && NumbersOk(w)
    ensures SameCreated(w, Step(w, call))
  {
  }

  /** The calls lead from one world to another. */
  ghost predicate Reaches(w: World, calls: seq<Call>, w': World)
    decreases |calls|
  {
    if calls == [] then w' == w else LinksOk(w) && Reaches(Step(w, calls[0]), calls[1..], w')
  }

  /** In every run no table entry and no capability in flight has rights beyond those its
      object was created with. */
  lemma {:induction false} RightsNeverGrow(w: World, calls: seq<Call>, w': World)
    requires WorldOk(w) && Reaches(w, calls, w')
    ensures WorldOk(w') && SameCreated(w, w')
    decreases |calls|
  {
    if calls != [] {
      StepOk(w, calls[0]);
      StepKeepsCreated(w, calls[0]);
      RightsNeverGrow(Step(w, calls[0]), calls[1..], w');
    }
  }

  lemma RecvLater(w: World, p: nat, h: nat, space: nat, room: nat, pid: nat)
    requires LinksOk(w) && pid in w.tables
    ensures var tables := TryRecv(w, p, h, space, room).world.tables;
            pid in tables && Later(w.tables[pid], tables[pid])
  {
    var found := Lookup(w, p, h, READ);
    if found.Ok? && w.ends[found.value].messages != [] {
      ReceivedLater(w.tables[pid], w.ends[found.value].messages[0].objects);
    }
  }

  lemma SendLater(w: World, p: nat, h: nat, data: seq<nat>, hs: seq<nat>, pid: nat)
    requires LinksOk(w) && pid in w.tables
    ensures var tables := Send(w, p, h, data, hs).world.tables;
            pid in tables && Later(w.tables[pid], tables[pid])
  {
    TakenLater(w.tables[pid], hs);
  }

  lemma CreateLater(w: World, p: nat, out: nat, pid: nat)
    requires pid in w.tables
    ensures var tables := CreateChannel(w, p, out).world.tables;
            pid in tables && Later(w.tables[pid], tables[pid])
  {
  }

  lemma DuplicateLater(w: World, p: nat, h: nat, rights: Rights, pid: nat)
    requires pid in w.tables
    ensures var tables := DuplicateHandle(w, p, h, rights).world.tables;
            pid in tables && Later(w.tables[pid], tables[pid])
  {
  }

  lemma StepLater(w: World, call: Call, pid: nat)
    requires LinksOk(w) && pid in w.tables
    ensures pid in Step(w, call).tables && Later(w.tables[pid], Step(w, call).tables[pid])
  {
    match call
    case Spawn(_) =>
    case NewObject(_, _) =>
    case Create(p, out) => CreateLater(w, p, out, pid);
    case Close(_, _) =>
    case Duplicate(p, h, rights) => DuplicateLater(w, p, h, rights, pid);
    case SendTo(p, h, data, hs) => SendLater(w, p, h, data, hs, pid);
    case RecvFrom(p, h, space, room) => RecvLater(w, p, h, space, room, pid);
    case Drop(_) =>
  }

  /** In every run a handle value once given out is never given out again: a value below
      the table's counter names what it named before, or nothing. */
  lemma {:induction false} HandlesNeverReused(w: World, calls: seq<Call>, w': World, pid: nat)
    requires WorldOk(w) && Reaches(w, calls, w') && pid in w.tables
    ensures pid in w'.tables && Later(w.tables[pid], w'.tables[pid])
    decreases |calls|
  {
    if calls != [] {
      var next := Step(w, calls[0]);
      StepOk(w, calls[0]);
      StepLater(w, calls[0], pid);
      HandlesNeverReused(next, calls[1..], w', pid);
      LaterOn(w.tables[pid], next.tables[pid], w'.tables[pid]);
    }
  }

  // ---------------------------------------------------------------- conservation

  function Queued(ms: seq<Message>, x: Entry): nat {
    if ms == [] then 0 else Count(ms[0].objects, x) + Queued(ms[1..], x)
  }

  lemma {:induction false} QueuedAppend(ms: seq<Message>, m: Message, x: Entry)
    ensures Queued(ms + [m], x) == Queued(ms, x) + Count(m.objects, x)
  {
    if ms == [] {
      assert ms + [m] == [m] && Queued([m][1..], x) == 0;
    } else {
      assert (ms + [m])[1..] == ms[1..] + [m];
      QueuedAppend(ms[1..], m, x);
    }
  }

  ghost function InTables(w: World, x: Entry): map<nat, nat> {
    map p | p in w.tables :: |Slots(w.tables[p], x)|
  }

  ghost function InFlight(w: World, x: Entry): map<nat, nat> {
    map o | o in w.ends :: Queued(w.ends[o].messages, x)
  }

  /** How often a capability occurs, in tables and in flight. */
  ghost function Total(w: World, x: Entry): nat {
    Sum(InTables(w, x)) + Sum(InFlight(w, x))
  }

  /** A changed table changes its own share only. */
  lemma TableShare(w: World, pid: nat, t: Table, x: Entry)
    ensures InTables(SetTable(w, pid, t), x) == InTables(w, x)[pid := |Slots(t, x)|]
    ensures InFlight(SetTable(w, pid, t), x) == InFlight(w, x)
  {
  }

  lemma EndShare(w: World, o: nat, e: End, x: Entry)
    ensures InFlight(SetEnd(w, o, e), x) == InFlight(w, x)[o := Queued(e.messages, x)]
    ensures InTables(SetEnd(w, o, e), x) == InTables(w, x)
  {
  }

  lemma TableChange(w: World, pid: nat, t: Table, x: Entry)
    requires pid in w.tables
    ensures Total(SetTable(w, pid, t), x) + |Slots(w.tables[pid], x)| == Total(w, x) + |Slots(t, x)|
  {
    SumUpdate(InTables(w, x), pid, |Slots(t, x)|);
    TableShare(w, pid, t, x);
  }

  lemma EndChange(w: World, o: nat, e: End, x: Entry)
    requires o in w.ends
    ensures Total(SetEnd(w, o, e), x) + Queued(w.ends[o].messages, x) == Total(w, x) + Queued(e.messages, x)
  {
    SumUpdate(InFlight(w, x), o, Queued(e.messages, x));
    EndShare(w, o, e, x);
  }

  /** A send neither creates nor destroys capabilities, except that those it was to carry
      are lost when the channel refuses the message. */
  lemma SendConserves(w: World, pid: nat, h: nat, data: seq<nat>, hs: seq<nat>, x: Entry)
    requires WorldOk(w)
    ensures var out := Send(w, pid, h, data, hs); Total(out.world, x) + Count(out.lost, x) == Total(w, x)
  {
    var found := Lookup(w, pid, h, WRITE);
    if found.Ok? && AllTransferable(w.tables[pid], hs) {
      var o := found.value;
      assert At(o) && At(pid);
      var (t, es) := Taken(w.tables[pid], hs);
      var w' := SetTable(w, pid, t);
      TakenMoves(w.tables[pid], hs, x);
      TableChange(w, pid, t, x);
      if Forward(w', o, Message(data, es)).Ok? {
        var p := w.peers[o];
        QueuedAppend(w.ends[p].messages, Message(data, es), x);
        EndChange(w', p, Channels.Deliver(w.ends[p], Message(data, es)), x);
      }
    }
  }

  /** A send loses capabilities exactly when the sender may send, and has and may transfer
      what is listed, but the other end is gone or its queue is full. */
  lemma WhenSendLoses(w: World, pid: nat, h: nat, data: seq<nat>, hs: seq<nat>)
    requires WorldOk(w)
    ensures Send(w, pid, h, data, hs).lost != [] <==> SendLoses(w, pid, h, hs)
  {
    var found := Lookup(w, pid, h, WRITE);
    if found.Ok? {
      assert At(found.value);
      if AllTransferable(w.tables[pid], hs) {
        TakenSome(w.tables[pid], hs);
      }
    }
  }

  predicate SendLoses(w: World, pid: nat, h: nat, hs: seq<nat>) {
    && Lookup(w, pid, h, WRITE).Ok? && hs != [] && AllTransferable(w.tables[pid], hs)
    && var o := Lookup(w, pid, h, WRITE).value;
       w.ends[o].linked ==>
         o in w.peers && w.peers[o] in w.ends && |w.ends[w.peers[o]].messages| >= Channels.CAPACITY
  }

  lemma TakenSome(t: Table, hs: seq<nat>)
    requires AllTransferable(t, hs)
    ensures Taken(t, hs).1 == [] <==> hs == []
  {
    assert hs != [] ==> Transferable(t, hs[0]);
  }

  /** A receive neither creates nor destroys capabilities, except that those in the message
      are lost when the receiver leaves no room for handles. */
  lemma TryRecvConserves(w: World, pid: nat, h: nat, space: nat, room: nat, x: Entry)
    requires WorldOk(w)
    ensures var out := TryRecv(w, pid, h, space, room); Total(out.world, x) + Count(out.lost, x) == Total(w, x)
  {
    var found := Lookup(w, pid, h, READ);
    if found.Ok? && w.ends[found.value].messages != [] {
      var o := found.value;
      assert At(o) && At(pid);
      var e, t := w.ends[o], w.tables[pid];
      var m := e.messages[0];
      var w' := SetEnd(w, o, Channels.Take(e));
      EndChange(w, o, Channels.Take(e), x);
      var w'' := w';
      if e.linked {
        var p := w.peers[o];
        w'' := SetEnd(w', p, Channels.Drained(w'.ends[p]));
        EndChange(w', p, Channels.Drained(w'.ends[p]), x);
      }
      ReceivedAdds(t, m.objects, x);
      TableChange(w'', pid, Received(t, m.objects), x);
    }
  }

  /** A receive loses capabilities exactly when it takes a message that carries some and
      leaves no room for handles. */
  lemma WhenRecvLoses(w: World, pid: nat, h: nat, space: nat, room: nat)
    requires WorldOk(w)
    ensures TryRecv(w, pid, h, space, room).lost != [] <==> RecvLoses(w, pid, h, room)
  {
    var found := Lookup(w, pid, h, READ);
    if found.Ok? {
      assert At(found.value);
    }
  }

  predicate RecvLoses(w: World, pid: nat, h: nat, room: nat) {
    && Lookup(w, pid, h, READ).Ok? && room == 0
    && var messages := w.ends[Lookup(w, pid, h, READ).value].messages;
       messages != [] && messages[0].objects != []
  }

  /** How many copies of a capability a call makes. */
  function Gained(w: World, call: Call, x: Entry): nat {
    match call
    case NewObject(pid, rights) => if pid in w.tables then One(Entry(w.nextObject, rights), x) else 0
    case Create(pid, out) =>
      if out == 0 || pid !in w.tables then 0
      else One(Entry(w.nextObject, CHANNEL_RIGHTS), x) + One(Entry(w.nextObject + 1, CHANNEL_RIGHTS), x)
    case Duplicate(pid, h, rights) =>
      if pid in w.tables && h in w.tables[pid].handles && DUPLICATE in w.tables[pid].handles[h].rights
      then One(Entry(w.tables[pid].handles[h].target, w.tables[pid].handles[h].rights * rights), x)
      else 0
    case _ => 0
  }

  /** How many copies of a capability a call destroys. */
  ghost function Lost(w: World, call: Call, x: Entry): nat
    requires LinksOk(w)
  {
    match call
    case Close(pid, h) => Count(CloseHandle(w, pid, h).lost, x)
    case SendTo(pid, h, data, hs) => Count(Send(w, pid, h, data, hs).lost, x)
    case RecvFrom(pid, h, space, room) => Count(TryRecv(w, pid, h, space, room).lost, x)
    case Drop(o) => if o in w.ends && Unreferenced(w, o) then Queued(w.ends[o].messages, x) else 0
    case _ => 0
  }

  lemma InsertConserves(w: World, pid: nat, e: Entry, x: Entry)
    requires TablesOk(w) && pid in w.tables
    ensures Total(SetTable(w, pid, Inserted(w.tables[pid], e)), x) == Total(w, x) + One(e, x)
    ensures TableOk(Inserted(w.tables[pid], e))
  {
    assert At(pid);
    Insertion(w.tables[pid], e, x);
    TableChange(w, pid, Inserted(w.tables[pid], e), x);
  }

  /** A new end has nothing in flight. */
  lemma NewEnd(w: World, o: nat, x: Entry)
    requires o !in w.ends
    ensures Total(SetEnd(w, o, Channels.Fresh()), x) == Total(w, x)
  {
    SumWith(InFlight(w, x), o, 0);
    EndShare(w, o, Channels.Fresh(), x);
  }

  /** Only tables and ends hold capabilities. */
  lemma SameTotal(w: World, w': World, x: Entry)
    requires w.tables == w'.tables && w.ends == w'.ends
    ensures Total(w, x) == Total(w', x)
  {
    assert InTables(w, x) == InTables(w', x) && InFlight(w, x) == InFlight(w', x);
  }

  lemma TwoEnds(w: World, a: nat, b: nat, x: Entry)
    requires a !in w.ends && b !in w.ends && a != b
    ensures Total(SetEnd(SetEnd(w, a, Channels.Fresh()), b, Channels.Fresh()), x) == Total(w, x)
  {
    NewEnd(w, a, x);
    NewEnd(SetEnd(w, a, Channels.Fresh()), b, x);
  }

  lemma TwoEntries(w: World, pid: nat, e: Entry, e': Entry, x: Entry)
    requires pid in w.tables && TableOk(w.tables[pid])
    ensures Total(SetTable(w, pid, Inserted(Inserted(w.tables[pid], e), e')), x) == Total(w, x) + One(e, x) + One(e', x)
  {
    Insertion(w.tables[pid], e, x);
    Insertion(Inserted(w.tables[pid], e), e', x);
    TableChange(w, pid, Inserted(Inserted(w.tables[pid], e), e'), x);
  }

  lemma PairedTotal(w: World, x: Entry)
    requires w.nextObject !in w.ends && w.nextObject + 1 !in w.ends
    ensures Total(Paired(w), x) == Total(w, x)
  {
    var a, b := w.nextObject, w.nextObject + 1;
    TwoEnds(w, a, b, x);
    SameTotal(SetEnd(SetEnd(w, a, Channels.Fresh()), b, Channels.Fresh()), Paired(w), x);
  }

  lemma NewNumbers(w: World, pid: nat)
    requires WorldOk(w) && pid in w.tables
    ensures w.nextObject !in w.ends && w.nextObject + 1 !in w.ends && TableOk(w.tables[pid])
  {
    assert At(w.nextObject) && At(w.nextObject + 1) && At(pid);
  }

  lemma CreatedConserves(w: World, pid: nat, out: nat, w': World, x: Entry)
    requires w.nextObject !in w.ends && w.nextObject + 1 !in w.ends && pid in w.tables && TableOk(w.tables[pid])
    requires out != 0 && w' == CreateChannel(w, pid, out).world
    ensures Total(w', x) == Total(w, x) + One(Entry(w.nextObject, CHANNEL_RIGHTS), x)
                            + One(Entry(w.nextObject + 1, CHANNEL_RIGHTS), x)
  {
    var e, e' := Entry(w.nextObject, CHANNEL_RIGHTS), Entry(w.nextObject + 1, CHANNEL_RIGHTS);
    assert w' == SetTable(Paired(w), pid, Inserted(Inserted(w.tables[pid], e), e'));
    HandsConserve(w, Paired(w), pid, e, e', x);
  }

  lemma CreateConserves(w: World, pid: nat, out: nat, x: Entry)
    requires WorldOk(w)
    ensures Total(CreateChannel(w, pid, out).world, x) == Total(w, x) + Gained(w, Create(pid, out), x)
  {
    if out != 0 && pid in w.tables {
      NewNumbers(w, pid);
      CreatedConserves(w, pid, out, CreateChannel(w, pid, out).world, x);
    }
  }

  lemma HandsConserve(w: World, w': World, pid: nat, e: Entry, e': Entry, x: Entry)
    requires w' == Paired(w) && w.nextObject !in w.ends && w.nextObject + 1 !in w.ends
    requires pid in w'.tables && TableOk(w'.tables[pid])
    ensures Total(SetTable(w', pid, Inserted(Inserted(w'.tables[pid], e), e')), x) ==
            Total(w, x) + One(e, x) + One(e', x)
  {
    PairedTotal(w, x);
    TwoEntries(w', pid, e, e', x);
  }

  /** A new table is empty. */
  lemma NewTable(w: World, pid: nat, x: Entry)
    requires pid !in w.tables
    ensures Total(SetTable(w, pid, Table(map[], 1)), x) == Total(w, x)
  {
    var t := Table(map[], 1);
    assert Slots(t, x) == {};
    SumWith(InTables(w, x), pid, 0);
    TableShare(w, pid, t, x);
  }

  lemma CloseConserves(w: World, pid: nat, h: nat, x: Entry)
    requires WorldOk(w)
    ensures Total(CloseHandle(w, pid, h).world, x) + Count(CloseHandle(w, pid, h).lost, x) == Total(w, x)
  {
    if pid in w.tables && h in w.tables[pid].handles {
      assert At(pid);
      Removal(w.tables[pid], h, x);
      TableChange(w, pid, Without(w.tables[pid], h), x);
    }
  }

  lemma EndGone(w: World, o: nat, x: Entry)
    requires o in w.ends
    ensures Total(w.(ends := w.ends - {o}), x) + Queued(w.ends[o].messages, x) == Total(w, x)
  {
    var w' := w.(ends := w.ends - {o});
    SumWithout(InFlight(w, x), o);
    assert InFlight(w', x) == InFlight(w, x) - {o};
    assert InTables(w', x) == InTables(w, x);
  }

  lemma DropConserves(w: World, o: nat, x: Entry)
    requires LinksOk(w) && o in w.ends
    ensures At(o) && Total(DropEnd(w, o), x) + Queued(w.ends[o].messages, x) == Total(w, x)
  {
    assert At(o);
    if w.ends[o].linked {
      var p := w.peers[o];
      EndChange(w, p, Channels.Orphaned(w.ends[p]), x);
      EndGone(SetEnd(w, p, Channels.Orphaned(w.ends[p])), o, x);
    } else {
      EndGone(w, o, x);
    }
  }

  lemma DuplicateConserves(w: World, pid: nat, h: nat, rights: Rights, x: Entry)
    requires WorldOk(w)
    ensures Total(DuplicateHandle(w, pid, h, rights).world, x) == Total(w, x) + Gained(w, Duplicate(pid, h, rights), x)
  {
    if pid in w.tables && h in w.tables[pid].handles {
      var e := w.tables[pid].handles[h];
      InsertConserves(w, pid, Entry(e.target, e.rights * rights), x);
    }
  }

  lemma NewObjectConserves(w: World, pid: nat, rights: Rights, x: Entry)
    requires WorldOk(w)
    ensures Total(Step(w, NewObject(pid, rights)), x) == Total(w, x) + Gained(w, NewObject(pid, rights), x)
  {
    if pid in w.tables {
      var e := Entry(w.nextObject, rights);
      InsertConserves(w, pid, e, x);
      SameTotal(SetTable(w, pid, Inserted(w.tables[pid], e)), Step(w, NewObject(pid, rights)), x);
    }
  }

  lemma StepConserves(w: World, call: Call, x: Entry)
    requires WorldOk(w)
    ensures Total(Step(w, call), x) + Lost(w, call, x) == Total(w, x) + Gained(w, call, x)
  {
    if call.Spawn? || call.NewObject? || call.Create? || call.Duplicate? {
      GrowthConserves(w, call, x);
    } else {
      MoveConserves(w, call, x);
    }
  }

  lemma GrowthConserves(w: World, call: Call, x: Entry)
    requires WorldOk(w) && (call.Spawn? || call.NewObject? || call.Create? || call.Duplicate?)
    ensures Total(Step(w, call), x) == Total(w, x) + Gained(w, call, x)
  {
    match call
    case Spawn(pid) =>
      if pid !in w.tables {
        NewTable(w, pid, x);
      }
    case NewObject(pid, rights) => NewObjectConserves(w, pid, rights, x);
    case Create(pid, out) => CreateConserves(w, pid, out, x);
    case Duplicate(pid, h, rights) => DuplicateConserves(w, pid, h, rights, x);
  }

  lemma MoveConserves(w: World, call: Call, x: Entry)
    requires WorldOk(w) && (call.Close? || call.SendTo? || call.RecvFrom? || call.Drop?)
    ensures Total(Step(w, call), x) + Lost(w, call, x) == Total(w, x)
  {
    match call
    case Close(pid, h) => CloseConserves(w, pid, h, x);
    case SendTo(_, _, _, _) => SendToConserves(w, call, x);
    case RecvFrom(_, _, _, _) => RecvFromConserves(w, call, x);
    case Drop(_) => DroppedConserves(w, call, x);
  }

  lemma SendToConserves(w: World, call: Call, x: Entry)
    requires WorldOk(w) && call.SendTo?
    ensures Total(Step(w, call), x) + Lost(w, call, x) == Total(w, x)
  {
    SendStep(w, call, x);
    SendConserves(w, call.pid, call.h, call.data, call.hs, x);
  }

  lemma SendStep(w: World, call: Call, x: Entry)
    requires LinksOk(w) && call.SendTo?
    ensures var out := Send(w, call.pid, call.h, call.data, call.hs);
            Step(w, call) == out.world && Lost(w, call, x) == Count(out.lost, x)
  {
  }

  lemma RecvFromConserves(w: World, call: Call, x: Entry)
    requires WorldOk(w) && call.RecvFrom?
    ensures Total(Step(w, call), x) + Lost(w, call, x) == Total(w, x)
  {
    RecvStep(w, call, x);
    TryRecvConserves(w, call.pid, call.h, call.space, call.room, x);
  }

  lemma RecvStep(w: World, call: Call, x: Entry)
    requires LinksOk(w) && call.RecvFrom?
    ensures var out := TryRecv(w, call.pid, call.h, call.space, call.room);
            Step(w, call) == out.world && Lost(w, call, x) == Count(out.lost, x)
  {
  }

  lemma DroppedConserves(w: World, call: Call, x: Entry)
    requires WorldOk(w) && call.Drop?
    ensures Total(Step(w, call), x) + Lost(w, call, x) == Total(w, x)
  {
    if call.o in w.ends {
      DropConserves(w, call.o, x);
    }
  }

  ghost function Gains(w: World, calls: seq<Call>, x: Entry): nat
    decreases |calls|
  {
    if calls == [] || !LinksOk(w) then 0 else Gained(w, calls[0], x) + Gains(Step(w, calls[0]), calls[1..], x)
  }

  ghost function Losses(w: World, calls: seq<Call>, x: Entry): nat
    decreases |calls|
  {
    if calls == [] || !LinksOk(w) then 0 else Lost(w, calls[0], x) + Losses(Step(w, calls[0]), calls[1..], x)
  }

  /** Over every run the copies of a capability that exist are those that existed, plus
      those made by creating and duplicating, minus those closed, lost or dropped with an
      end. */
  lemma {:induction false} RunConserves(w: World, calls: seq<Call>, w': World, x: Entry)
    requires WorldOk(w) && Reaches(w, calls, w')
    ensures Total(w', x) + Losses(w, calls, x) == Total(w, x) + Gains(w, calls, x)
    decreases |calls|
  {
    if calls != [] {
      StepOk(w, calls[0]);
      StepConserves(w, calls[0], x);
      RunConserves(Step(w, calls[0]), calls[1..], w', x);
    }
  }

  // ---------------------------------------------------------------- losses that happen

  const EMPTY := World(map[], map[], map[], map[], 0)

  /** Process 0 makes a channel, with handles 1 and 2 to its ends, and an object that may be
      transferred, with handle 3. */
  const PREPARED: seq<Call> := [Spawn(0)] + [Create(0, 1)] + [NewObject(0, {TRANSFER})]

  const CHANNEL_ENTRIES := map[1 := Entry(0, CHANNEL_RIGHTS), 2 := Entry(1, CHANNEL_RIGHTS)]

  function WithChannel(): World {
    World(map[0 := Table(CHANNEL_ENTRIES, 3)], map[0 := Channels.Fresh(), 1 := Channels.Fresh()], map[0 := 1, 1 := 0],
          map[0 := CHANNEL_RIGHTS, 1 := CHANNEL_RIGHTS], 2)
  }

  function Prepared(): World {
    World(map[0 := Table(CHANNEL_ENTRIES[3 := Entry(2, {TRANSFER})], 4)], WithChannel().ends, WithChannel().peers,
          WithChannel().created[2 := {TRANSFER}], 3)
  }

  /** The other end of the channel has no handle left and is gone. */
  function Abandoned(): World {
    Prepared().(tables := map[0 := Without(Prepared().tables[0], 2)],
                ends := map[0 := Channels.Orphaned(Channels.Fresh())])
  }

  /** The message with the object is in the queue of the other end. */
  function Posted(): World {
    Prepared().(tables := map[0 := Without(Prepared().tables[0], 3)],
                ends := map[0 := Channels.Fresh(),
                            1 := Channels.Deliver(Channels.Fresh(), Message([], [Entry(2, {TRANSFER})]))])
  }

  lemma {:induction false} ReachesOn(w: World, calls: seq<Call>, w': World, call: Call)
    requires Reaches(w, calls, w') && LinksOk(w')
    ensures Reaches(w, calls + [call], Step(w', call))
    decreases |calls|
  {
    if calls == [] {
      assert (calls + [call])[1..] == [];
    } else {
      assert (calls + [call])[1..] == calls[1..] + [call];
      ReachesOn(Step(w, calls[0]), calls[1..], w', call);
    }
  }

  lemma Extend(calls: seq<Call>, w: World, call: Call, w': World)
    requires Reaches(EMPTY, calls, w) && WorldOk(w) && Step(w, call) == w'
    ensures Reaches(EMPTY, calls + [call], w') && WorldOk(w')
  {
    ReachesOn(EMPTY, calls, w, call);
    StepOk(w, call);
  }

  lemma ChannelMade(w: World)
    requires w == SetTable(EMPTY, 0, Table(map[], 1)) && LinksOk(w)
    ensures Step(w, Create(0, 1)) == WithChannel()
  {
    assert Step(w, Create(0, 1)).tables == WithChannel().tables;
  }

  lemma WithChannelReached()
    ensures Reaches(EMPTY, [Spawn(0)] + [Create(0, 1)], WithChannel()) && WorldOk(WithChannel())
  {
    var w := SetTable(EMPTY, 0, Table(map[], 1));
    Extend([], EMPTY, Spawn(0), w);
    assert [] + [Spawn(0)] == [Spawn(0)];
    ChannelMade(w);
    Extend([Spawn(0)], w, Create(0, 1), WithChannel());
  }

  lemma ObjectMade(w: World)
    requires w == WithChannel() && LinksOk(w)
    ensures Step(w, NewObject(0, {TRANSFER})) == Prepared()
  {
  }

  lemma PreparedReached()
    ensures Reaches(EMPTY, PREPARED, Prepared()) && WorldOk(Prepared())
  {
    WithChannelReached();
    ObjectMade(WithChannel());
    Extend([Spawn(0)] + [Create(0, 1)], WithChannel(), NewObject(0, {TRANSFER}), Prepared());
  }

  /** Without the handle to one end of the channel. */
  function Halved(): World { Prepared().(tables := map[0 := Without(Prepared().tables[0], 2)]) }

  lemma Closing(w: World)
    requires w == Prepared() && LinksOk(w)
    ensures Step(w, Close(0, 2)) == Halved()
  {
    assert CloseHandle(w, 0, 2).world == SetTable(w, 0, Without(w.tables[0], 2));
  }

  lemma NoneLeft(w: World)
    requires w == Halved()
    ensures Unreferenced(w, 1)
  {
    forall p, h {:trigger At(p), At(h)} | p in w.tables && h in w.tables[p].handles
      ensures w.tables[p].handles[h].target != 1
    {
      assert p == 0 && (h == 1 || h == 3);
    }
    forall q {:trigger At(q)} | q in w.ends
      ensures w.ends[q].messages == []
    {
    }
  }

  lemma Dropping(w: World)
    requires w == Halved() && LinksOk(w)
    ensures Step(w, Drop(1)) == Abandoned()
  {
    NoneLeft(w);
    assert At(1);
    EndDropped(w);
  }

  lemma EndDropped(w: World)
    requires w.ends == map[0 := Channels.Fresh(), 1 := Channels.Fresh()] && w.peers == map[0 := 1, 1 := 0]
    ensures DropEnd(w, 1) == w.(ends := map[0 := Channels.Orphaned(Channels.Fresh())])
  {
  }

  lemma OneTaken(t: Table, h: nat)
    requires Transferable(t, h)
    ensures AllTransferable(t, [h]) && Taken(t, [h]) == (Without(t, h), [t.handles[h]])
  {
    var rest := [h][1..];
    assert rest == [] && Taken(Without(t, h), rest) == (Without(t, h), []);
    assert [t.handles[h]] + [] == [t.handles[h]];
  }

  lemma Losing(w: World)
    requires w == Abandoned() && LinksOk(w)
    ensures Send(w, 0, 1, [], [3]).result == Err(EPIPE) && Send(w, 0, 1, [], [3]).lost == [Entry(2, {TRANSFER})]
  {
    SendStranded(w, 0, 1, 3, 0);
  }

  lemma SendStranded(w: World, pid: nat, h: nat, h': nat, o: nat)
    requires LinksOk(w) && Lookup(w, pid, h, WRITE) == Ok(o) && Transferable(w.tables[pid], h') && !w.ends[o].linked
    ensures Send(w, pid, h, [], [h']).result == Err(EPIPE)
    ensures Send(w, pid, h, [], [h']).lost == [w.tables[pid].handles[h']]
  {
    OneTaken(w.tables[pid], h');
  }

  /** A send in a reachable world that loses what it carries. */
  lemma SendCanLose()
    ensures Reaches(EMPTY, PREPARED + [Close(0, 2)] + [Drop(1)], Abandoned()) && WorldOk(Abandoned())
    ensures Send(Abandoned(), 0, 1, [], [3]).result == Err(EPIPE)
    ensures Send(Abandoned(), 0, 1, [], [3]).lost == [Entry(2, {TRANSFER})]
  {
    PreparedReached();
    Closing(Prepared());
    Extend(PREPARED, Prepared(), Close(0, 2), Halved());
    Dropping(Halved());
    Extend(PREPARED + [Close(0, 2)], Halved(), Drop(1), Abandoned());
    Losing(Abandoned());
  }

  lemma SendForwards(w: World, pid: nat, h: nat, h': nat, o: nat, p: nat)
    requires LinksOk(w) && Lookup(w, pid, h, WRITE) == Ok(o) && Transferable(w.tables[pid], h')
    requires o in w.peers && w.peers[o] == p && p in w.ends && |w.ends[p].messages| < Channels.CAPACITY
    requires w.ends[o].linked && !w.ends[o].closed && !w.ends[p].closed
    ensures var t := w.tables[pid];
            Send(w, pid, h, [], [h']).world ==
              SetEnd(SetTable(w, pid, Without(t, h')), p, Channels.Deliver(w.ends[p], Message([], [t.handles[h']])))
  {
    OneTaken(w.tables[pid], h');
  }

  lemma Posting(w: World)
    requires w == Prepared() && LinksOk(w)
    ensures Step(w, SendTo(0, 1, [], [3])) == Posted()
  {
    SendForwards(w, 0, 1, 3, 0, 1);
  }

  lemma Polling(w: World)
    requires w == Posted() && LinksOk(w)
    ensures TryRecv(w, 0, 2, 0, 0).result == Ok(Delivery([], 0, [], 0))
    ensures TryRecv(w, 0, 2, 0, 0).lost == [Entry(2, {TRANSFER})]
  {
  }

  /** A receive in a reachable world that loses what the message carries. */
  lemma RecvCanLose()
    ensures Reaches(EMPTY, PREPARED + [SendTo(0, 1, [], [3])], Posted()) && WorldOk(Posted())
    ensures TryRecv(Posted(), 0, 2, 0, 0).result == Ok(Delivery([], 0, [], 0))
    ensures TryRecv(Posted(), 0, 2, 0, 0).lost == [Entry(2, {TRANSFER})]
  {
    PreparedReached();
    Posting(Prepared());
    Extend(PREPARED, Prepared(), SendTo(0, 1, [], [3]), Posted());
    Polling(Posted());
  }

  // ---------------------------------------------------------------- order of messages

  function QueueOf(w: World, p: nat): seq<Message> { if p in w.ends then w.ends[p].messages else [] }

  /** What a call adds to the queue of an end. */
  ghost function Enters(w: World, call: Call, p: nat): seq<Message>
    requires LinksOk(w)
  {
    match call
    case SendTo(pid, h, data, hs) =>
      if Send(w, pid, h, data, hs).result.Ok? && PeerOf(w, Lookup(w, pid, h, WRITE).value) == p
      then [Message(data, Taken(w.tables[pid], hs).1)]
      else []
    case _ => []
  }

  function PeerOf(w: World, o: nat): nat { if o in w.peers then w.peers[o] else o }

  /** What a call takes from the queue of an end: a receive takes one message, and an end
      that is dropped takes its whole queue with it. */
  ghost function Leaves(w: World, call: Call, p: nat): seq<Message>
    requires LinksOk(w)
  {
    match call
    case RecvFrom(pid, h, space, room) =>
      if TryRecv(w, pid, h, space, room).result.Ok? && Lookup(w, pid, h, READ).value == p
      then [QueueOf(w, p)[0]]
      else []
    case Drop(o) => if o == p && o in w.ends && Unreferenced(w, o) then w.ends[o].messages else []
    case _ => []
  }

  lemma SendInOrder(w: World, pid: nat, h: nat, data: seq<nat>, hs: seq<nat>, p: nat)
    requires WorldOk(w)
    ensures QueueOf(w, p) + Enters(w, SendTo(pid, h, data, hs), p) == QueueOf(Send(w, pid, h, data, hs).world, p)
  {
    if Send(w, pid, h, data, hs).result.Ok? {
      SendArrives(w, pid, h, data, hs);
    }
  }

  /** A message leaves its own queue and no other. */
  lemma PoppedQueue(w: World, o: nat, p: nat)
    requires o in w.ends && w.ends[o].messages != []
    requires w.ends[o].linked ==> o in w.peers && w.peers[o] in w.ends && w.peers[o] != o
    ensures QueueOf(w, p) == (if p == o then [w.ends[o].messages[0]] else []) + QueueOf(Popped(w, o), p)
  {
  }

  lemma RecvInOrder(w: World, pid: nat, h: nat, space: nat, room: nat, p: nat)
    requires LinksOk(w)
    ensures var call := RecvFrom(pid, h, space, room);
            QueueOf(w, p) == Leaves(w, call, p) + QueueOf(TryRecv(w, pid, h, space, room).world, p)
  {
    var found := Lookup(w, pid, h, READ);
    if found.Ok? && w.ends[found.value].messages != [] {
      assert At(found.value);
      PoppedQueue(w, found.value, p);
    }
  }

  lemma DropInOrder(w: World, o: nat, p: nat)
    requires LinksOk(w) && o in w.ends
    ensures At(o) && QueueOf(w, p) == (if o == p then w.ends[o].messages else []) + QueueOf(DropEnd(w, o), p)
  {
    assert At(o);
  }

  lemma CreateInOrder(w: World, pid: nat, out: nat, p: nat)
    requires NumbersOk(w)
    ensures QueueOf(w, p) == QueueOf(CreateChannel(w, pid, out).world, p)
  {
    assert At(p);
  }

  lemma StepInOrder(w: World, call: Call, p: nat)
    requires WorldOk(w)
    ensures QueueOf(w, p) + Enters(w, call, p) == Leaves(w, call, p) + QueueOf(Step(w, call), p)
  {
    match call
    case Spawn(_) =>
    case NewObject(_, _) =>
    case Create(pid, out) => CreateInOrder(w, pid, out, p);
    case Close(_, _) =>
    case Duplicate(_, _, _) =>
    case SendTo(pid, h, data, hs) => SendInOrder(w, pid, h, data, hs, p);
    case RecvFrom(pid, h, space, room) => RecvInOrder(w, pid, h, space, room, p);
    case Drop(o) =>
      if o in w.ends {
        DropInOrder(w, o, p);
      }
  }

  ghost function Entering(w: World, calls: seq<Call>, p: nat): seq<Message>
    decreases |calls|
  {
    if calls == [] || !LinksOk(w) then [] else Enters(w, calls[0], p) + Entering(Step(w, calls[0]), calls[1..], p)
  }

  ghost function Leaving(w: World, calls: seq<Call>, p: nat): seq<Message>
    decreases |calls|
  {
    if calls == [] || !LinksOk(w) then [] else Leaves(w, calls[0], p) + Leaving(Step(w, calls[0]), calls[1..], p)
  }

  /** Over every run the messages sent to an end leave it in the order they came, none twice
      and none skipped. */
  lemma {:induction false} InOrder(w: World, calls: seq<Call>, w': World, p: nat)
    requires WorldOk(w) && Reaches(w, calls, w')
    ensures QueueOf(w, p) + Entering(w, calls, p) == Leaving(w, calls, p) + QueueOf(w', p)
    decreases |calls|
  {
    if calls != [] {
      var next := Step(w, calls[0]);
      StepOk(w, calls[0]);
      StepInOrder(w, calls[0], p);
      InOrder(next, calls[1..], w', p);
      Chain(QueueOf(w, p), Enters(w, calls[0], p), Entering(next, calls[1..], p),
            Leaves(w, calls[0], p), QueueOf(next, p), Leaving(next, calls[1..], p), QueueOf(w', p));
    }
  }

  lemma Chain<T>(q: seq<T>, a: seq<T>, b: seq<T>, c: seq<T>, q': seq<T>, d: seq<T>, q'': seq<T>)
    requires q + a == c + q' && q' + b == d + q''
    ensures q + (a + b) == (c + d) + q''
  {
    assert q + (a + b) == (q + a) + b == c + (q' + b);
    assert (c + d) + q'' == c + (d + q'');
  }

  // ---------------------------------------------------------------- end to end

  /** A successful send appends the message, with the capabilities that left the sender, to
      the queue of the other end and to nothing else. */
  lemma SendArrives(w: World, pid: nat, h: nat, data: seq<nat>, hs: seq<nat>)
    requires WorldOk(w) && Send(w, pid, h, data, hs).result.Ok?
    ensures Names(w, pid, h, WRITE)
    ensures var w', o := Send(w, pid, h, data, hs).world, w.tables[pid].handles[h].target;
            && o in w.peers && w.peers[o] in w.ends && w'.ends.Keys == w.ends.Keys
            && w'.ends[w.peers[o]].messages == w.ends[w.peers[o]].messages + [Message(data, Taken(w.tables[pid], hs).1)]
            && forall q :: q in w.ends && q != w.peers[o] ==> w'.ends[q] == w.ends[q]
    ensures Distinct(hs) ==>
              && |Taken(w.tables[pid], hs).1| == |hs|
              && forall i :: 0 <= i < |hs| ==>
                   Holds(w, pid, hs[i], TRANSFER) && Taken(w.tables[pid], hs).1[i] == w.tables[pid].handles[hs[i]]
  {
    assert At(Lookup(w, pid, h, WRITE).value);
    if Distinct(hs) {
      TakenInOrder(w.tables[pid], hs);
    }
  }

  /** A successful receive with room yields the oldest message: as much of its data as fits,
      and handles that name its capabilities in order; the receiver's other entries stay. */
  lemma TryRecvDelivers(w: World, pid: nat, h: nat, space: nat, room: nat, o: nat)
    requires WorldOk(w) && Lookup(w, pid, h, READ) == Ok(o) && w.ends[o].messages != [] && room > 0
    ensures var out, m, t := TryRecv(w, pid, h, space, room), w.ends[o].messages[0], w.tables[pid];
            && out.result.Ok? && Fits(out.result.value, m, space, room)
            && pid in out.world.tables && Extends(t, out.world.tables[pid], m.objects)
            && forall i :: 0 <= i < |out.result.value.handles| ==> out.result.value.handles[i] == t.nextId + i
  {
    assert At(o) && At(pid);
    ReceivedAdds(w.tables[pid], w.ends[o].messages[0].objects, Entry(0, {}));
  }

  /** Without room for handles it still yields the data; the receiver gets no handles. */
  lemma TryRecvData(w: World, pid: nat, h: nat, space: nat, o: nat)
    requires WorldOk(w) && Lookup(w, pid, h, READ) == Ok(o) && w.ends[o].messages != []
    ensures var out, m := TryRecv(w, pid, h, space, 0), w.ends[o].messages[0];
            && out.result.Ok? && out.world.tables == w.tables
            && out.result.value.length == |m.data| && out.result.value.data <= m.data
            && |out.result.value.data| == (if space <= |m.data| then space else |m.data|)
            && out.result.value.handles == [] && out.result.value.count == 0 && out.lost == m.objects
  {
    assert At(o);
  }

  /** The delivery reports the whole message and holds as much of it as there is room for. */
  predicate Fits(d: Delivery, m: Message, space: nat, room: nat) {
    && d.length == |m.data| && d.count == |m.objects|
    && d.data <= m.data && |d.data| == (if space <= |m.data| then space else |m.data|)
    && |d.handles| == (if room <= |m.objects| then room else |m.objects|)
  }

  /** A message that was sent is, after any further calls by anyone, what the next receive
      brings once as many messages have left as were queued before it: its data, and for the
      receiver exactly the capabilities that left the sender, in order. Between them the two
      calls keep the count of every capability. */
  lemma SendThenReceive(w: World, pid: nat, h: nat, data: seq<nat>, hs: seq<nat>, calls: seq<Call>, w': World,
                        pid': nat, h': nat, space: nat, room: nat, p: nat, x: Entry)
    requires WorldOk(w) && Send(w, pid, h, data, hs).result.Ok? && room > 0
    requires PeerOf(w, Lookup(w, pid, h, WRITE).value) == p
    requires Reaches(Send(w, pid, h, data, hs).world, calls, w') && LinksOk(w') && Lookup(w', pid', h', READ) == Ok(p)
    requires |Leaving(Send(w, pid, h, data, hs).world, calls, p)| == |QueueOf(w, p)|
    ensures var sent, es := Send(w, pid, h, data, hs).world, Taken(w.tables[pid], hs).1;
            var out := TryRecv(w', pid', h', space, room);
            && out.result.Ok? && Fits(out.result.value, Message(data, es), space, room)
            && pid' in w'.tables && pid' in out.world.tables && Extends(w'.tables[pid'], out.world.tables[pid'], es)
            && Total(out.world, x) + Losses(sent, calls, x) == Total(w, x) + Gains(sent, calls, x)
  {
    var sent := Send(w, pid, h, data, hs).world;
    SendOk(w, pid, h, data, hs);
    RightsNeverGrow(sent, calls, w');
    NextOut(w, pid, h, data, hs, calls, w', p);
    TryRecvDelivers(w', pid', h', space, room, p);
    SendKeeps(w, pid, h, data, hs, x);
    RunConserves(sent, calls, w', x);
    RecvKeeps(w', pid', h', space, room, x);
  }

  lemma NextOut(w: World, pid: nat, h: nat, data: seq<nat>, hs: seq<nat>, calls: seq<Call>, w': World, p: nat)
    requires WorldOk(w) && Send(w, pid, h, data, hs).result.Ok? && WorldOk(Send(w, pid, h, data, hs).world)
    requires PeerOf(w, Lookup(w, pid, h, WRITE).value) == p && p in w'.ends
    requires Reaches(Send(w, pid, h, data, hs).world, calls, w')
    requires |Leaving(Send(w, pid, h, data, hs).world, calls, p)| == |QueueOf(w, p)|
    ensures w'.ends[p].messages != [] && w'.ends[p].messages[0] == Message(data, Taken(w.tables[pid], hs).1)
  {
    SendArrives(w, pid, h, data, hs);
    var sent := Send(w, pid, h, data, hs).world;
    InOrder(sent, calls, w', p);
    var n := |QueueOf(w, p)|;
    assert (QueueOf(sent, p) + Entering(sent, calls, p))[n] == Message(data, Taken(w.tables[pid], hs).1);
  }

  /** With room for handles a receive keeps the count of every capability. */
  lemma RecvKeeps(w: World, pid: nat, h: nat, space: nat, room: nat, x: Entry)
    requires WorldOk(w) && room > 0
    ensures Total(TryRecv(w, pid, h, space, room).world, x) == Total(w, x)
  {
    TryRecvConserves(w, pid, h, space, room, x);
    WhenRecvLoses(w, pid, h, space, room);
  }

  lemma SendKeeps(w: World, pid: nat, h: nat, data: seq<nat>, hs: seq<nat>, x: Entry)
    requires WorldOk(w) && Send(w, pid, h, data, hs).result.Ok?
    ensures Total(Send(w, pid, h, data, hs).world, x) == Total(w, x)
  {
    SendConserves(w, pid, h, data, hs, x);
  }
}
