/** Channel pairs: two linked ends, each with a bounded queue of messages, signals and
    observers that are called when a signal is raised. */
module Channels {
  import opened Common

  datatype Signal = Readable | Writable | PeerClosed | Other(bit: nat)

  datatype Observer = Observer(key: nat, triggers: set<Signal>, once: bool)

  /** A call of an observer's callback. */
  datatype Firing = Firing(key: nat, signals: set<Signal>)

  datatype Error = EPeerClosed | EEmpty | EFull

  const CAPACITY: nat := 64

  /** One end of a channel, with the history of the messages that arrived there and were
      received there, and of the callbacks made. */
  datatype End<M> = End(messages: seq<M>, linked: bool, signals: set<Signal>, observers: seq<Observer>, closed: bool,
                        sent: seq<M>, received: seq<M>, log: seq<Firing>)

  function Fresh<M>(): End<M> { End([], true, {Writable}, [], false, [], [], []) }

  // ---------------------------------------------------------------- steps

  /** The callbacks for a signal, in the order of registration. */
  function Notified(observers: seq<Observer>, s: Signal): seq<Firing> {
    if observers == [] then []
    else (if s in observers[0].triggers then [Firing(observers[0].key, {s})] else []) + Notified(observers[1..], s)
  }

  /** The observers that stay once a signal has been announced. */
  function Retained(observers: seq<Observer>, s: Signal): seq<Observer> {
    if observers == [] then []
    else (if observers[0].once && s in observers[0].triggers then [] else [observers[0]]) + Retained(observers[1..], s)
  }

  function Without(observers: seq<Observer>, key: nat): seq<Observer> {
    if observers == [] then []
    else (if observers[0].key == key then [] else [observers[0]]) + Without(observers[1..], key)
  }

  predicate Accepts<M>(e: End<M>) { !e.closed && |e.messages| < CAPACITY }

  /** A message arrives; observers hear of it unless there were messages already. */
  function Deliver<M>(e: End<M>, m: M): End<M> {
    var e' := e.(messages := e.messages + [m], signals := e.signals + {Readable}, sent := e.sent + [m]);
    if Readable in e.signals then e'
    else e'.(observers := Retained(e.observers, Readable), log := e.log + Notified(e.observers, Readable))
  }

  function Take<M>(e: End<M>): End<M>
    requires e.messages != []
  {
    e.(messages := e.messages[1..], received := e.received + [e.messages[0]],
       signals := if |e.messages| == 1 then e.signals - {Readable} else e.signals)
  }

  /** The other end has received a message. */
  function Drained<M>(e: End<M>): End<M> {
    if |e.messages| < CAPACITY then e.(signals := e.signals + {Writable}) else e
  }

  /** The other end closes. */
  function Orphaned<M>(e: End<M>): End<M> {
    e.(linked := false, signals := e.signals + {PeerClosed}, log := e.log + Notified(e.observers, PeerClosed))
  }

  /** This end closes. */
  function Shut<M>(e: End<M>): End<M> { e.(linked := false, closed := true) }

  function Watched<M>(e: End<M>, o: Observer): End<M> {
    var now := e.signals * o.triggers;
    if now == {} then e.(observers := e.observers + [o])
    else if o.once then e.(log := e.log + [Firing(o.key, now)])
    else e.(observers := e.observers + [o], log := e.log + [Firing(o.key, now)])
  }

  function Unwatched<M>(e: End<M>, key: nat): End<M> { e.(observers := Without(e.observers, key)) }

  // ---------------------------------------------------------------- every run

  /** What happens at one end. */
  datatype Step<M> = Arrive(m: M) | Receive | PeerReceives | PeerCloses | Close | Watch(o: Observer) | Unwatch(key: nat)

  function Apply<M>(e: End<M>, step: Step<M>): End<M> {
    match step
    case Arrive(m) => if Accepts(e) then Deliver(e, m) else e
    case Receive => if e.messages == [] then e else Take(e)
    case PeerReceives => Drained(e)
    case PeerCloses => Orphaned(e)
    case Close => Shut(e)
    case Watch(o) => Watched(e, o)
    case Unwatch(key) => Unwatched(e, key)
  }

  function Run<M>(e: End<M>, steps: seq<Step<M>>): End<M>
    decreases |steps|
  {
    if steps == [] then e else Run(Apply(e, steps[0]), steps[1..])
  }

  /** What arrived was received in order or is still queued, the queue is bounded, and the
      end is readable exactly when the queue is not empty. */
  ghost predicate EndOk<M>(e: End<M>) {
    && e.sent == e.received + e.messages && |e.messages| <= CAPACITY
    && (Readable in e.signals <==> |e.messages| > 0)
  }

  lemma StepKeeps<M>(e: End<M>, step: Step<M>)
    requires EndOk(e)
    ensures EndOk(Apply(e, step))
  {
    match step
    case Arrive(m) =>
      assert e.received + e.messages + [m] == e.received + (e.messages + [m]);
    case Receive =>
      if e.messages != [] {
        assert e.received + e.messages == e.received + [e.messages[0]] + e.messages[1..];
      }
    case _ =>
  }

  lemma {:induction false} RunKeeps<M>(e: End<M>, steps: seq<Step<M>>)
    requires EndOk(e)
    ensures EndOk(Run(e, steps))
    decreases |steps|
  {
    if steps != [] {
      StepKeeps(e, steps[0]);
      RunKeeps(Apply(e, steps[0]), steps[1..]);
    }
  }

  function Times<M>(step: Step<M>, n: nat): seq<Step<M>> { seq(n, i => step) }

  /** Receiving as often as there are messages yields all of them, in order. */
  lemma {:induction false} DrainsInOrder<M>(e: End<M>, n: nat)
    requires n <= |e.messages|
    ensures var e' := Run(e, Times(Receive, n));
            && e'.messages == e.messages[n..] && e'.received == e.received + e.messages[..n]
            && e'.linked == e.linked && e'.closed == e.closed
    decreases n
  {
    if n > 0 {
      DrainsInOrder(Take(e), n - 1);
      assert Times<M>(Receive, n)[1..] == Times(Receive, n - 1);
      assert e.messages[..n] == [e.messages[0]] + e.messages[1..][..n - 1];
    } else {
      assert e.messages[..0] == [] && e.messages[0..] == e.messages;
    }
  }

  /** After the other end has closed, everything queued can still be received, in order;
      only then is nothing left but the news that it is closed. */
  lemma QueuedOutlivesPeer<M>(e: End<M>)
    ensures var e' := Run(Apply(e, PeerCloses), Times(Receive, |e.messages|));
            e'.messages == [] && e'.received == e.received + e.messages && !e'.linked
  {
    DrainsInOrder(Orphaned(e), |e.messages|);
    assert e.messages[..|e.messages|] == e.messages;
  }

  /** What the flags and signals say about a run: closed and unlinked once this end or the
      other one closed, PEER_CLOSED exactly if the other one did; WRITABLE is never taken back. */
  lemma {:induction false} SignalsMean<M>(e: End<M>, steps: seq<Step<M>>)
    ensures var e' := Run(e, steps);
            && (e'.closed <==> e.closed || Step.Close in steps)
            && (e'.linked <==> e.linked && PeerCloses !in steps && Step.Close !in steps)
            && (PeerClosed in e'.signals <==> PeerClosed in e.signals || PeerCloses in steps)
            && (Writable in e.signals ==> Writable in e'.signals)
            && forall b :: Other(b) in e'.signals <==> Other(b) in e.signals
    decreases |steps|
  {
    if steps != [] {
      SignalsMean(Apply(e, steps[0]), steps[1..]);
      assert steps == [steps[0]] + steps[1..];
    }
  }

  /** When the other end has received, this one is writable if its own queue has room; no
      observer is called and nothing else changes. */
  lemma RoomAgain<M>(e: End<M>)
    ensures var e' := Apply(e, PeerReceives);
            && (Writable in e'.signals <==> Writable in e.signals || |e.messages| < 64)
            && e'.signals - {Writable} == e.signals - {Writable} && e' == e.(signals := e'.signals)
  {
  }

  // ---------------------------------------------------------------- observers

  /** Observers with this key that are called for the signal, one-shot ones or persistent ones. */
  function Waiting(observers: seq<Observer>, key: nat, s: Signal, once: bool): nat {
    if observers == [] then 0
    else
      (if observers[0].key == key && s in observers[0].triggers && observers[0].once == once then 1 else 0) +
      Waiting(observers[1..], key, s, once)
  }

  /** All observers with this key. */
  function Named(observers: seq<Observer>, key: nat): nat {
    if observers == [] then 0 else (if observers[0].key == key then 1 else 0) + Named(observers[1..], key)
  }

  /** Calls of this key's callback for exactly this signal. */
  function Calls(log: seq<Firing>, key: nat, s: Signal): nat {
    if log == [] then 0 else (if log[0] == Firing(key, {s}) then 1 else 0) + Calls(log[1..], key, s)
  }

  lemma {:induction false} CallsAppend(a: seq<Firing>, b: seq<Firing>, key: nat, s: Signal)
    ensures Calls(a + b, key, s) == Calls(a, key, s) + Calls(b, key, s)
  {
    if a == [] {
      assert a + b == b;
    } else {
      assert (a + b)[1..] == a[1..] + b;
      CallsAppend(a[1..], b, key, s);
    }
  }

  lemma {:induction false} NamedAppend(a: seq<Observer>, o: Observer, key: nat, s: Signal, once: bool)
    requires o.key != key
    ensures Named(a + [o], key) == Named(a, key) && Waiting(a + [o], key, s, once) == Waiting(a, key, s, once)
  {
    if a == [] {
      assert a + [o] == [o];
    } else {
      assert (a + [o])[1..] == a[1..] + [o];
      NamedAppend(a[1..], o, key, s, once);
    }
  }

  /** Announcing a signal calls each observer that waits for it once, and announcing another
      one is no call for it. */
  lemma {:induction false} NotifiedOnce(observers: seq<Observer>, key: nat, s: Signal, t: Signal)
    ensures Calls(Notified(observers, s), key, s) ==
            Waiting(observers, key, s, false) + Waiting(observers, key, s, true)
    ensures t != s ==> Calls(Notified(observers, t), key, s) == 0
  {
    if observers != [] {
      NotifiedOnce(observers[1..], key, s, t);
      var o := observers[0];
      CallsAppend(if s in o.triggers then [Firing(o.key, {s})] else [], Notified(observers[1..], s), key, s);
      CallsAppend(if t in o.triggers then [Firing(o.key, {t})] else [], Notified(observers[1..], t), key, s);
      assert t != s ==> t !in {s};
    }
  }

  /** Persistent observers stay; one-shot ones that waited for the signal are gone. */
  lemma {:induction false} RetainedWaiting(observers: seq<Observer>, key: nat, s: Signal)
    ensures Waiting(Retained(observers, s), key, s, false) == Waiting(observers, key, s, false)
    ensures Waiting(Retained(observers, s), key, s, true) == 0
  {
    if observers != [] {
      RetainedWaiting(observers[1..], key, s);
      var o, rest := observers[0], Retained(observers[1..], s);
      if o.once && s in o.triggers {
        assert Retained(observers, s) == rest;
      } else {
        assert Retained(observers, s) == [o] + rest && ([o] + rest)[1..] == rest;
      }
    }
  }

  lemma {:induction false} WithoutOther(observers: seq<Observer>, other: nat, key: nat, s: Signal, once: bool)
    requires other != key
    ensures Named(Without(observers, other), key) == Named(observers, key)
    ensures Waiting(Without(observers, other), key, s, once) == Waiting(observers, key, s, once)
  {
    if observers != [] {
      WithoutOther(observers[1..], other, key, s, once);
      var o, rest := observers[0], Without(observers[1..], other);
      if o.key == other {
        assert Without(observers, other) == rest;
      } else {
        assert Without(observers, other) == [o] + rest && ([o] + rest)[1..] == rest;
      }
    }
  }

  /** The step makes an empty queue non-empty. */
  predicate Edge<M>(e: End<M>, step: Step<M>) {
    step.Arrive? && Accepts(e) && |e.messages| == 0
  }

  function Edges<M>(e: End<M>, steps: seq<Step<M>>): nat
    decreases |steps|
  {
    if steps == [] then 0 else (if Edge(e, steps[0]) then 1 else 0) + Edges(Apply(e, steps[0]), steps[1..])
  }

  /** The step does not register or remove observers with this key. */
  predicate Leaves<M>(step: Step<M>, key: nat) {
    !(step.Watch? && step.o.key == key) && !(step.Unwatch? && step.key == key)
  }

  /** How many calls for the signal an announcement of it makes. */
  function Due(observers: seq<Observer>, key: nat, s: Signal): nat {
    Waiting(observers, key, s, false) + Waiting(observers, key, s, true)
  }

  lemma ArrivalCalls<M>(e: End<M>, m: M, key: nat)
    requires Readable !in e.signals
    ensures var e' := Deliver(e, m);
            && Waiting(e'.observers, key, Readable, false) == Waiting(e.observers, key, Readable, false)
            && Waiting(e'.observers, key, Readable, true) == 0
            && Calls(e'.log, key, Readable) == Calls(e.log, key, Readable) + Due(e.observers, key, Readable)
  {
    NotifiedOnce(e.observers, key, Readable, PeerClosed);
    CallsAppend(e.log, Notified(e.observers, Readable), key, Readable);
    RetainedWaiting(e.observers, key, Readable);
  }

  lemma WatchCalls<M>(e: End<M>, o: Observer, key: nat, once: bool)
    requires o.key != key
    ensures Waiting(Watched(e, o).observers, key, Readable, once) == Waiting(e.observers, key, Readable, once)
    ensures Calls(Watched(e, o).log, key, Readable) == Calls(e.log, key, Readable)
  {
    NamedAppend(e.observers, o, key, Readable, once);
    CallsAppend(e.log, [Firing(o.key, e.signals * o.triggers)], key, Readable);
  }

  /** When the other end closes, each observer of that is called once, and all stay. */
  lemma ClosureCalls<M>(e: End<M>, key: nat)
    ensures var e' := Apply(e, PeerCloses);
            && Calls(e'.log, key, PeerClosed) == Calls(e.log, key, PeerClosed) + Due(e.observers, key, PeerClosed)
            && Calls(e'.log, key, Readable) == Calls(e.log, key, Readable)
            && e'.observers == e.observers && e'.messages == e.messages
  {
    NotifiedOnce(e.observers, key, PeerClosed, Readable);
    NotifiedOnce(e.observers, key, Readable, PeerClosed);
    CallsAppend(e.log, Notified(e.observers, PeerClosed), key, PeerClosed);
    CallsAppend(e.log, Notified(e.observers, PeerClosed), key, Readable);
  }

  /** Registering an observer calls it at once if one of its signals is up, and no other; a
      one-shot one is then not kept, any other one is. */
  lemma RegistrationCalls<M>(e: End<M>, o: Observer, key: nat)
    ensures var e', up := Apply(e, Watch(o)), exists s :: s in e.signals && s in o.triggers;
            && Fired(e'.log, key) == Fired(e.log, key) + (if key == o.key && up then 1 else 0)
            && Named(e'.observers, key) == Named(e.observers, key) + (if key == o.key && !(o.once && up) then 1 else 0)
            && (up ==> e'.log == e.log + [Firing(o.key, e.signals * o.triggers)])
  {
    var now := e.signals * o.triggers;
    FiredAppend(e.log, [Firing(o.key, now)], key);
    NamedAdded(e.observers, o, key);
    if now != {} {
      var s :| s in now;
      assert s in e.signals && s in o.triggers;
    } else {
      assert forall s :: s in e.signals && s in o.triggers ==> s in now;
    }
  }

  lemma {:induction false} NamedAdded(a: seq<Observer>, o: Observer, key: nat)
    ensures Named(a + [o], key) == Named(a, key) + (if o.key == key then 1 else 0)
  {
    if a == [] {
      assert a + [o] == [o];
    } else {
      assert (a + [o])[1..] == a[1..] + [o];
      NamedAdded(a[1..], o, key);
    }
  }

  /** One step calls all of the key's observers of readability, persistent or one-shot, if
      the queue becomes non-empty, and none otherwise; the one-shot ones are then gone. */
  lemma StepCalls<M>(e: End<M>, step: Step<M>, key: nat)
    requires EndOk(e) && Leaves(step, key)
    ensures var e', edge := Apply(e, step), Edge(e, step);
            && Waiting(e'.observers, key, Readable, false) == Waiting(e.observers, key, Readable, false)
            && Waiting(e'.observers, key, Readable, true) ==
               (if edge then 0 else Waiting(e.observers, key, Readable, true))
            && Calls(e'.log, key, Readable) ==
               Calls(e.log, key, Readable) + if edge then Due(e.observers, key, Readable) else 0
  {
    match step
    case Arrive(m) =>
      if Edge(e, step) {
        ArrivalCalls(e, m, key);
      }
    case PeerCloses =>
      NotifiedOnce(e.observers, key, Readable, PeerClosed);
      CallsAppend(e.log, Notified(e.observers, PeerClosed), key, Readable);
    case Watch(o) =>
      WatchCalls(e, o, key, false);
      WatchCalls(e, o, key, true);
    case Unwatch(other) =>
      WithoutOther(e.observers, other, key, Readable, false);
      WithoutOther(e.observers, other, key, Readable, true);
    case _ =>
  }

  /** Calls after `n` times that the queue became non-empty: each for every persistent
      observer, the first also for every one-shot one. */
  function CallsAfter(n: nat, stay: nat, leave: nat): nat { n * stay + if n > 0 then leave else 0 }

  lemma OneMore(n: nat, stay: nat, leave: nat)
    ensures stay + leave + CallsAfter(n, stay, 0) == CallsAfter(n + 1, stay, leave)
  {
    assert (n + 1) * stay == n * stay + stay;
  }

  /** Whatever observers of readability a key has: in every run that leaves its registrations
      alone, the persistent ones are called once for each time the queue becomes non-empty,
      and the one-shot ones the first time only. */
  lemma {:induction false} CalledOncePerEdge<M>(e: End<M>, steps: seq<Step<M>>, key: nat)
    requires EndOk(e) && forall i :: 0 <= i < |steps| ==> Leaves(steps[i], key)
    ensures Calls(Run(e, steps).log, key, Readable) == Calls(e.log, key, Readable) +
            CallsAfter(Edges(e, steps), Waiting(e.observers, key, Readable, false),
                       Waiting(e.observers, key, Readable, true))
    decreases |steps|
  {
    if steps != [] {
      var next := Apply(e, steps[0]);
      StepKeeps(e, steps[0]);
      StepCalls(e, steps[0], key);
      CalledOncePerEdge(next, steps[1..], key);
      OneMore(Edges(next, steps[1..]), Waiting(e.observers, key, Readable, false),
              Waiting(e.observers, key, Readable, true));
    }
  }

  /** A one-shot observer that has been called is gone. */
  lemma {:induction false} OnceGone(observers: seq<Observer>, s: Signal)
    ensures forall i :: 0 <= i < |Retained(observers, s)| ==>
              !(Retained(observers, s)[i].once && s in Retained(observers, s)[i].triggers)
  {
    if observers != [] {
      OnceGone(observers[1..], s);
    }
  }

  /** The observers with this key, in order. */
  function ByKey(observers: seq<Observer>, key: nat): seq<Observer> {
    if observers == [] then []
    else (if observers[0].key == key then [observers[0]] else []) + ByKey(observers[1..], key)
  }

  /** Removing a key takes all its observers and leaves every other key's, in order. */
  lemma {:induction false} WithoutKey(observers: seq<Observer>, key: nat, k: nat)
    ensures ByKey(Without(observers, key), k) == if k == key then [] else ByKey(observers, k)
    ensures Named(Without(observers, key), key) == 0
  {
    if observers != [] {
      WithoutKey(observers[1..], key, k);
      var o, rest := observers[0], Without(observers[1..], key);
      if o.key == key {
        assert Without(observers, key) == rest;
      } else {
        assert Without(observers, key) == [o] + rest && ([o] + rest)[1..] == rest;
      }
    }
  }

  /** Calls of this key's callback. */
  function Fired(log: seq<Firing>, key: nat): nat {
    if log == [] then 0 else (if log[0].key == key then 1 else 0) + Fired(log[1..], key)
  }

  lemma {:induction false} FiredAppend(a: seq<Firing>, b: seq<Firing>, key: nat)
    ensures Fired(a + b, key) == Fired(a, key) + Fired(b, key)
  {
    if a == [] {
      assert a + b == b;
    } else {
      assert (a + b)[1..] == a[1..] + b;
      FiredAppend(a[1..], b, key);
    }
  }

  lemma {:induction false} UnnamedSilent(observers: seq<Observer>, key: nat, s: Signal)
    requires Named(observers, key) == 0
    ensures Fired(Notified(observers, s), key) == 0 && Named(Retained(observers, s), key) == 0
  {
    if observers != [] {
      UnnamedSilent(observers[1..], key, s);
      var o, rest := observers[0], Retained(observers[1..], s);
      FiredAppend(if s in o.triggers then [Firing(o.key, {s})] else [], Notified(observers[1..], s), key);
      assert ([o] + rest)[1..] == rest && [] + rest == rest;
    }
  }

  lemma StepSilent<M>(e: End<M>, step: Step<M>, key: nat)
    requires Named(e.observers, key) == 0 && !(step.Watch? && step.o.key == key)
    ensures Named(Apply(e, step).observers, key) == 0 && Fired(Apply(e, step).log, key) == Fired(e.log, key)
  {
    match step
    case Arrive(m) =>
      FiredAppend(e.log, Notified(e.observers, Readable), key);
      UnnamedSilent(e.observers, key, Readable);
    case PeerCloses =>
      FiredAppend(e.log, Notified(e.observers, PeerClosed), key);
      UnnamedSilent(e.observers, key, PeerClosed);
    case Watch(o) =>
      NamedAppend(e.observers, o, key, Readable, false);
      FiredAppend(e.log, [Firing(o.key, e.signals * o.triggers)], key);
    case Unwatch(other) =>
      WithoutKey(e.observers, key, key);
      if other != key {
        WithoutOther(e.observers, other, key, Readable, false);
      }
    case _ =>
  }

  /** In every run after a key's observers are removed, its callback is not called again
      until it is registered again. */
  lemma {:induction false} SilentRun<M>(e: End<M>, steps: seq<Step<M>>, key: nat)
    requires Named(e.observers, key) == 0
    requires forall i :: 0 <= i < |steps| ==> !(steps[i].Watch? && steps[i].o.key == key)
    ensures Fired(Run(e, steps).log, key) == Fired(e.log, key)
    decreases |steps|
  {
    if steps != [] {
      StepSilent(e, steps[0], key);
      SilentRun(Apply(e, steps[0]), steps[1..], key);
    }
  }

  lemma RemovedSilent<M>(e: End<M>, steps: seq<Step<M>>, key: nat)
    requires forall i :: 0 <= i < |steps| ==> !(steps[i].Watch? && steps[i].o.key == key)
    ensures Fired(Run(Unwatched(e, key), steps).log, key) == Fired(e.log, key)
  {
    WithoutKey(e.observers, key, key);
    SilentRun(Unwatched(e, key), steps, key);
  }

  // ---------------------------------------------------------------- implementation

  class Channel<M> {
    var messages: seq<M>
    var peer: Channel?<M>
    var signals: set<Signal>
    var observers: seq<Observer>
    var closed: bool

    ghost var sent: seq<M>
    ghost var received: seq<M>
    ghost var log: seq<Firing>

    ghost function View(): End<M>
      reads this
    {
      End(messages, peer != null, signals, observers, closed, sent, received, log)
    }

    /** The links between two ends are symmetric; a closed end has none. */
    ghost predicate Valid()
      reads this, peer
    {
      && EndOk(View()) && (closed ==> peer == null)
      && (peer != null ==> peer != this && peer.peer == this && !peer.closed && EndOk(peer.View()))
    }

    constructor ()
      ensures Valid() && peer == null && View() == Fresh<M>().(linked := false)
    {
      messages, peer, signals, observers, closed := [], null, {Writable}, [], false;
      sent, received, log := [], [], [];
    }

    static method CreatePair() returns (ch0: Channel<M>, ch1: Channel<M>)
      ensures fresh(ch0) && fresh(ch1) && ch0.Valid() && ch1.Valid() && ch0.peer == ch1
      ensures ch0.View() == Fresh() && ch1.View() == Fresh()
    {
      ch0 := new Channel<M>();
      ch1 := new Channel<M>();
      ch0.peer := ch1;
      ch1.peer := ch0;
    }

    method Send(m: M) returns (r: Result<(), Error>)
      requires Valid()
      modifies peer
      ensures Valid() && peer == old(peer) && View() == old(View())
      ensures r == if peer == null then Err(EPeerClosed) else if |old(peer.messages)| >= CAPACITY then Err(EFull)
              else Ok(())
      ensures peer != null ==>
                && peer.View() == Apply(old(peer.View()), Arrive(m))
                && (r.Ok? <==> Accepts(old(peer.View())))
    {
      if closed || peer == null {
        return Err(EPeerClosed);
      }
      if peer.closed {
        return Err(EPeerClosed);
      }
      if |peer.messages| >= CAPACITY {
        return Err(EFull);
      }
      StepKeeps(peer.View(), Arrive(m));
      peer.messages := peer.messages + [m];
      peer.sent := peer.sent + [m];
      var was := peer.signals;
      peer.signals := peer.signals + {Readable};
      if Readable !in was {
        var calls := Notified(peer.observers, Readable);
        peer.observers := Retained(peer.observers, Readable);
        peer.log := peer.log + calls;
      }
      r := Ok(());
    }

    /** Queued messages come first, whether or not the other end is still there. */
    method TryRecv() returns (r: Result<M, Error>)
      requires Valid()
      modifies this, peer
      ensures Valid() && peer == old(peer)
      ensures old(messages) != [] ==> r == Ok(old(messages)[0])
      ensures old(messages) == [] ==> r == Err(if peer == null then EPeerClosed else EEmpty)
      ensures View() == Apply(old(View()), Receive)
      ensures peer != null ==> peer.View() == if r.Ok? then Apply(old(peer.View()), PeerReceives) else old(peer.View())
    {
      if messages != [] {
        StepKeeps(View(), Receive);
        var m := messages[0];
        messages := messages[1..];
        received := received + [m];
        if messages == [] {
          signals := signals - {Readable};
        }
        if peer != null {
          if |peer.messages| < CAPACITY {
            peer.signals := peer.signals + {Writable};
          }
        }
        return Ok(m);
      }
      if peer == null {
        return Err(EPeerClosed);
      }
      r := Err(EEmpty);
    }

    method Close()
      requires Valid()
      modifies this, peer
      ensures Valid() && peer == null && View() == Apply(old(View()), Step.Close)
      ensures old(peer) != null ==> old(peer).Valid() && old(peer).View() == Apply(old(peer.View()), PeerCloses)
    {
      closed := true;
      var other := peer;
      peer := null;
      if other != null {
        other.peer := null;
        other.signals := other.signals + {PeerClosed};
        other.log := other.log + Notified(other.observers, PeerClosed);
      }
    }

    method AddSignalObserver(o: Observer)
      requires Valid()
      modifies this
      ensures Valid() && peer == old(peer) && View() == Apply(old(View()), Watch(o))
    {
      var now := signals * o.triggers;
      if now != {} {
        log := log + [Firing(o.key, now)];
        if o.once {
          return;
        }
      }
      observers := observers + [o];
    }

    method RemoveSignalObserver(key: nat)
      requires Valid()
      modifies this
      ensures Valid() && peer == old(peer) && View() == Apply(old(View()), Unwatch(key))
      ensures Named(observers, key) == 0
      ensures forall k :: ByKey(observers, k) == if k == key then [] else old(ByKey(observers, k))
    {
      forall k
        ensures ByKey(Without(observers, key), k) == if k == key then [] else ByKey(observers, k)
      {
        WithoutKey(observers, key, k);
      }
      WithoutKey(observers, key, key);
      observers := Without(observers, key);
    }
  }
}
