/** The per-CPU scheduler: ready queue, blocked and stopped lists, and the calls
    on tasks that set a task's state and then call the scheduler, one atomic step each. */
module Sched {
  import opened Common

  type Task = nat

  datatype TaskState = Created | Ready | Running | Blocked | Stopped | Exited

  predicate Schedulable(st: TaskState) { st.Ready? || st.Running? }

  predicate CanStart(st: TaskState) { st.Created? || st.Stopped? }

  datatype State = State(
    idle: Option<Task>,
    current: Option<Task>,
    ready: seq<Task>,
    blocked: seq<Task>,
    stopped: seq<Task>,
    st: map<Task, TaskState>)

  // ---------------------------------------------------------------- queues

  /** Position of the first `t` in `q`, or |q|. */
  function IndexOf(q: seq<Task>, t: Task): (i: nat)
    ensures i <= |q| && (forall k :: 0 <= k < i ==> q[k] != t) && (i < |q| ==> q[i] == t)
    ensures i < |q| <==> t in q
  {
    if q == [] then 0 else if q[0] == t then 0 else 1 + IndexOf(q[1..], t)
  }

  function Without(q: seq<Task>, t: Task): seq<Task> {
    var i := IndexOf(q, t);
    if i < |q| then q[..i] + q[i + 1..] else q
  }

  /** How often `x` occurs in `q`. */
  ghost function N(q: seq<Task>, x: Task): (n: nat)
    ensures n > 0 <==> x in q
  {
    if q == [] then 0 else (if q[0] == x then 1 else 0) + N(q[1..], x)
  }

  lemma {:induction false} Joined(a: seq<Task>, b: seq<Task>, x: Task)
    ensures N(a + b, x) == N(a, x) + N(b, x)
  {
    if a == [] {
      assert a + b == b;
    } else {
      assert (a + b)[1..] == a[1..] + b;
      Joined(a[1..], b, x);
    }
  }

  lemma Between(a: seq<Task>, t: Task, b: seq<Task>, x: Task)
    ensures N(a + ([t] + b), x) == N(a + b, x) + (if x == t then 1 else 0)
  {
    Joined(a, [t] + b, x);
    assert ([t] + b)[1..] == b;
    Joined(a, b, x);
  }

  lemma Removed(q: seq<Task>, t: Task, x: Task)
    ensures N(Without(q, t), x) == N(q, x) - (if x == t && N(q, t) > 0 then 1 else 0)
  {
    var i := IndexOf(q, t);
    if i < |q| {
      var a, b := q[..i], q[i + 1..];
      assert q == a + ([t] + b);
      Between(a, t, b, x);
    }
  }

  lemma FirstIndex(q: seq<Task>, t: Task, i: nat)
    requires i < |q| && q[i] == t && (forall k :: 0 <= k < i ==> q[k] != t)
    ensures IndexOf(q, t) == i
  {
  }

  // ---------------------------------------------------------------- scheduler operations

  function OffQueues(s: State, t: Task): State {
    s.(ready := Without(s.ready, t), blocked := Without(s.blocked, t), stopped := Without(s.stopped, t))
  }

  function SetState(s: State, t: Task, st: TaskState): State {
    s.(st := s.st[t := st])
  }

  function Enqueue(s: State, t: Task): State {
    s.(st := s.st[t := Ready], ready := s.ready + [t])
  }

  function Added(s: State, t: Task): State { Enqueue(OffQueues(s, t), t) }

  function Dropped(s: State, t: Task): State {
    var o := OffQueues(s, t);
    if s.current == Some(t) then SetState(o, t, Stopped) else o
  }

  function Parked(s: State, t: Task): State {
    if s.current == Some(t) then SetState(s, t, Blocked).(blocked := s.blocked + [t])
    else
      var o := OffQueues(s, t);
      SetState(o, t, Blocked).(blocked := o.blocked + [t])
  }

  function Woken(s: State, t: Task): State {
    Enqueue(s.(blocked := Without(s.blocked, t)), t)
  }

  function Halted(s: State, t: Task): State {
    if s.current == Some(t) then SetState(s, t, Stopped)
    else
      var o := OffQueues(s, t);
      SetState(o, t, Stopped).(stopped := o.stopped + [t])
  }

  function Resumed(s: State, t: Task): State {
    Enqueue(s.(stopped := Without(s.stopped, t)), t)
  }

  /** The first half of schedule: where the outgoing task goes. */
  function PutBack(s: State): State {
    if s.current.None? || s.current.value !in s.st then s
    else
      var c := s.current.value;
      if Schedulable(s.st[c]) then Enqueue(s, c)
      else if s.st[c].Blocked? && c !in s.blocked then s.(blocked := s.blocked + [c])
      else s
  }

  function Scheduled(s: State): State {
    var p := PutBack(s);
    if p.ready != [] then SetState(p, p.ready[0], Running).(ready := p.ready[1..], current := Some(p.ready[0]))
    else if p.idle.Some? then SetState(p, p.idle.value, Running).(current := p.idle)
    else p.(current := None)
  }

  // ---------------------------------------------------------------- kernel-level steps

  datatype Op = Start(t: Task) | Block(t: Task) | Unblock(t: Task) | Stop(t: Task)
              | Exit(t: Task) | Resume(t: Task) | Reschedule

  predicate Known(s: State, op: Op) { op.Reschedule? || op.t in s.st }

  function Step(s: State, op: Op): State {
    if !Known(s, op) then s else
    match op
    case Start(t) => if CanStart(s.st[t]) then Added(SetState(s, t, Ready), t) else s
    case Block(t) => Parked(SetState(s, t, Blocked), t)
    case Unblock(t) => if s.st[t].Blocked? then Woken(SetState(s, t, Ready), t) else s
    case Stop(t) => Halted(SetState(s, t, Stopped), t)
    case Exit(t) => Dropped(SetState(s, t, Exited), t)
    case Resume(t) => Resumed(s, t)
    case Reschedule => Scheduled(s)
  }

  // ---------------------------------------------------------------- invariant

  /** How often `t` occurs on the three queues together. */
  ghost function Places(s: State, t: Task): nat {
    N(s.ready, t) + N(s.blocked, t) + N(s.stopped, t)
  }

  /** A task is on at most one queue, once; only ready tasks are on the ready queue; a
      blocked task is on the blocked list. */
  ghost predicate TaskOk(s: State, t: Task) {
    && Places(s, t) <= 1
    && (N(s.ready, t) > 0 ==> t in s.st && s.st[t] == Ready)
    && (t in s.st && s.st[t] == Blocked ==> N(s.blocked, t) > 0)
  }

  /** What runs on the CPU is not queued to run, and idle is on the CPU or queued. */
  ghost predicate CpuOk(s: State) {
    && s.idle.Some? && s.current.Some? && s.idle.value in s.st && s.current.value in s.st
    && var c := s.current.value;
       && N(s.ready, c) == 0 && N(s.stopped, c) == 0
       && (Schedulable(s.st[c]) ==> N(s.blocked, c) == 0)
       && (s.idle.value != c ==> N(s.ready, s.idle.value) > 0)
       && (s.idle.value == c ==> Schedulable(s.st[c]))
  }

  ghost predicate Inv(s: State) {
    CpuOk(s) && forall t: Task :: TaskOk(s, t)
  }

  /** The calls the kernel may make: nothing puts a task that is still on the CPU onto the
      ready queue, blocks it twice, resumes a task that is queued, or takes idle away. */
  predicate Allowed(s: State, op: Op) {
    Known(s, op) ==>
    match op
    case Start(t) => CanStart(s.st[t]) ==> s.current != Some(t)
    case Block(t) => s.idle != Some(t) && !(s.current == Some(t) && t in s.blocked)
    case Unblock(t) => s.st[t].Blocked? ==> s.current != Some(t)
    case Stop(t) => s.idle != Some(t)
    case Exit(t) => s.idle != Some(t)
    case Resume(t) => s.current != Some(t) && t !in s.ready && t !in s.blocked
    case Reschedule => true
  }

  /** The counts at `x` after `t` was taken off the queues or appended to one. */
  lemma CountsAt(s: State, t: Task, x: Task)
    ensures N(Without(s.ready, t), x) == N(s.ready, x) - (if x == t && N(s.ready, t) > 0 then 1 else 0)
    ensures N(Without(s.blocked, t), x) == N(s.blocked, x) - (if x == t && N(s.blocked, t) > 0 then 1 else 0)
    ensures N(Without(s.stopped, t), x) == N(s.stopped, x) - (if x == t && N(s.stopped, t) > 0 then 1 else 0)
  {
    Removed(s.ready, t, x);
    Removed(s.blocked, t, x);
    Removed(s.stopped, t, x);
  }

  lemma AppendedAt(q: seq<Task>, t: Task, x: Task)
    ensures N(q + [t], x) == N(q, x) + (if x == t then 1 else 0)
  {
    Joined(q, [t], x);
  }

  /** Task `x` is on the same queues, as often, in `a` and `b`. */
  ghost predicate SamePlaces(a: State, b: State, x: Task) {
    N(a.ready, x) == N(b.ready, x) && N(a.blocked, x) == N(b.blocked, x) && N(a.stopped, x) == N(b.stopped, x)
  }

  lemma StartTask(s: State, t: Task, n: State, x: Task)
    requires TaskOk(s, x) && t in s.st && CanStart(s.st[t]) && n == Step(s, Start(t))
    ensures TaskOk(n, x) && (x != t ==> SamePlaces(s, n, x)) && N(n.ready, t) > 0
  {
    CountsAt(s, t, x);
    AppendedAt(Without(s.ready, t), t, x);
    AppendedAt(Without(s.ready, t), t, t);
  }

  /** The queue without any `t`. */
  function Others(q: seq<Task>, t: Task): seq<Task> {
    if q == [] then []
    else
      var front, last := q[..|q| - 1], q[|q| - 1];
      if last == t then Others(front, t) else Others(front, t) + [last]
  }

  lemma {:induction false} OthersJoin(a: seq<Task>, b: seq<Task>, t: Task)
    ensures Others(a + b, t) == Others(a, t) + Others(b, t)
  {
    if b == [] {
      assert a + b == a;
    } else {
      var front := b[..|b| - 1];
      assert (a + b)[..|a + b| - 1] == a + front;
      OthersJoin(a, front, t);
    }
  }

  lemma OthersAround(a: seq<Task>, t: Task, b: seq<Task>)
    ensures Others(a + ([t] + b), t) == Others(a + b, t)
  {
    OthersJoin(a, [t] + b, t);
    OthersJoin([t], b, t);
    assert Others([t], t) == [];
    OthersJoin(a, b, t);
  }

  // The next predicate is opened by `At` of this number.
  const OTHERS := -1

  /** The two queues hold the same other tasks in the same order. */
  ghost predicate Alike(q: seq<Task>, q': seq<Task>, t: Task) {
    forall j {:trigger At(j)} :: At(j) && j == OTHERS ==> Others(q', t) == Others(q, t)
  }

  lemma AlikeAppend(q: seq<Task>, q': seq<Task>, t: Task)
    requires Alike(q, q', t)
    ensures Alike(q, q' + [t], t)
  {
    assert At(OTHERS);
    OthersJoin(q', [t], t);
    assert Others([t], t) == [];
  }

  lemma AlikeWithout(q: seq<Task>, t: Task)
    ensures Alike(q, q, t) && Alike(q, Without(q, t), t)
  {
    var i := IndexOf(q, t);
    if i < |q| {
      var a, b := q[..i], q[i + 1..];
      assert q == a + ([t] + b);
      OthersAround(a, t, b);
    }
  }

  ghost predicate QueuesAlike(s: State, n: State, t: Task) {
    Alike(s.ready, n.ready, t) && Alike(s.blocked, n.blocked, t) && Alike(s.stopped, n.stopped, t)
  }

  lemma CallAlike(s: State, op: Op, n: State, o: State)
    requires op != Reschedule && n == Step(s, op) && o == OffQueues(s, op.t)
    requires QueuesAlike(s, s, op.t) && QueuesAlike(s, o, op.t)
    ensures QueuesAlike(s, n, op.t)
  {
    AlikeAppend(s.ready, s.ready, op.t);
    AlikeAppend(s.ready, o.ready, op.t);
    AlikeAppend(s.blocked, s.blocked, op.t);
    AlikeAppend(s.blocked, o.blocked, op.t);
    AlikeAppend(s.stopped, o.stopped, op.t);
  }

  lemma CallOthers(s: State, op: Op, n: State)
    requires op != Reschedule && n == Step(s, op)
    ensures QueuesAlike(s, n, op.t)
  {
    AlikeWithout(s.ready, op.t);
    AlikeWithout(s.blocked, op.t);
    AlikeWithout(s.stopped, op.t);
    CallAlike(s, op, n, OffQueues(s, op.t));
  }

  lemma OthersAre(s: State, n: State, t: Task)
    requires QueuesAlike(s, n, t)
    ensures Others(n.ready, t) == Others(s.ready, t) && Others(n.blocked, t) == Others(s.blocked, t)
    ensures Others(n.stopped, t) == Others(s.stopped, t)
  {
    assert At(OTHERS);
  }

  predicate Last(q: seq<Task>, t: Task) { q != [] && q[|q| - 1] == t }

  /** A call on a task leaves the CPU, all other tasks' states and their order on every queue
      alone. */
  lemma CallFrame(s: State, op: Op, n: State)
    requires op != Reschedule && n == Step(s, op)
    ensures n.current == s.current && n.idle == s.idle
    ensures forall x :: (x in n.st <==> x in s.st) && (x in s.st && x != op.t ==> n.st[x] == s.st[x])
    ensures Others(n.ready, op.t) == Others(s.ready, op.t) && Others(n.blocked, op.t) == Others(s.blocked, op.t)
    ensures Others(n.stopped, op.t) == Others(s.stopped, op.t)
  {
    CallStates(s, op, n);
    CallOthers(s, op, n);
    OthersAre(s, n, op.t);
  }

  lemma CallStates(s: State, op: Op, n: State)
    requires op != Reschedule && n == Step(s, op)
    ensures n.current == s.current && n.idle == s.idle
    ensures forall x :: (x in n.st <==> x in s.st) && (x in s.st && x != op.t ==> n.st[x] == s.st[x])
  {
    forall x
      ensures (x in n.st <==> x in s.st) && (x in s.st && x != op.t ==> n.st[x] == s.st[x])
    {
      StateAt(s, op, n, x);
    }
  }

  lemma StateAt(s: State, op: Op, n: State, x: Task)
    requires op != Reschedule && n == Step(s, op)
    ensures n.current == s.current && n.idle == s.idle
    ensures (x in n.st <==> x in s.st) && (x in s.st && x != op.t ==> n.st[x] == s.st[x])
  {
    if op.t in s.st {
      match op
      case Start(t) => assert n.st == if CanStart(s.st[t]) then s.st[t := Ready][t := Ready] else s.st;
      case Block(t) => assert n.st == s.st[t := Blocked][t := Blocked];
      case Unblock(t) => assert n.st == if s.st[t].Blocked? then s.st[t := Ready][t := Ready] else s.st;
      case Stop(t) => assert n.st == s.st[t := Stopped][t := Stopped];
      case Exit(t) =>
        assert n.st == if s.current == Some(t) then s.st[t := Exited][t := Stopped] else s.st[t := Exited];
      case Resume(t) => assert n.st == s.st[t := Ready];
    }
  }

  /** What a call makes of the one it names, in a good state; a start or wake-up of a task in
      any other state than these does nothing. */
  lemma CallEffect(s: State, op: Op)
    requires Inv(s) && op != Reschedule && op.t in s.st
    ensures var n, t := Step(s, op), op.t;
            match op
            case Start(_) =>
              if s.st[t] == Created || s.st[t] == Stopped
              then n.st[t] == Ready && Last(n.ready, t) && t !in n.blocked && t !in n.stopped
              else n == s
            case Unblock(_) =>
              if s.st[t] == Blocked then n.st[t] == Ready && Last(n.ready, t) && t !in n.blocked else n == s
            case Resume(_) => n.st[t] == Ready && Last(n.ready, t) && t !in n.stopped
            case Block(_) => n.st[t] == Blocked && Last(n.blocked, t) && t !in n.ready
            case Stop(_) => n.st[t] == Stopped && t !in n.ready && (s.current != Some(t) ==> Last(n.stopped, t))
            case Exit(_) =>
              && n.st[t] == (if s.current == Some(t) then Stopped else Exited)
              && t !in n.ready && t !in n.blocked && t !in n.stopped
  {
    assert TaskOk(s, op.t);
    Absent(s, op.t, OffQueues(s, op.t));
  }

  lemma Absent(s: State, t: Task, o: State)
    requires TaskOk(s, t) && o == OffQueues(s, t)
    ensures t !in o.ready && t !in o.blocked && t !in o.stopped
  {
    OffCounts(s, t, o, t);
  }

  /** What a schedule does, in a good state: a task that can go on joins the ready queue, and
      the first of the queue gets the CPU; all else stays. */
  lemma ScheduleEffect(s: State, c: Task, queue: seq<Task>, n: State)
    requires Inv(s) && s.current == Some(c) && n == Step(s, Reschedule)
    requires queue == if s.st[c] == Ready || s.st[c] == Running then s.ready + [c] else s.ready
    ensures queue != [] && n.current == Some(queue[0]) && n.ready == queue[1..] && n.idle == s.idle
    ensures n.blocked == s.blocked && n.stopped == s.stopped && queue[0] in n.st && n.st[queue[0]] == Running
    ensures c in n.st && (c != queue[0] ==> n.st[c] == if s.st[c] == Running then Ready else s.st[c])
    ensures forall x :: x in s.st && x != c && x != queue[0] ==> x in n.st && n.st[x] == s.st[x]
  {
    assert TaskOk(s, c);
    PutBackIdle(s);
  }

  lemma StartIff(s: State, t: Task)
    requires Inv(s) && t in s.st
    ensures Inv(Step(s, Start(t))) <==> Allowed(s, Start(t))
  {
    if CanStart(s.st[t]) {
      var n := Step(s, Start(t));
      forall x: Task
        ensures TaskOk(n, x)
      {
        StartTask(s, t, n, x);
      }
      StartTask(s, t, n, s.current.value);
      StartTask(s, t, n, s.idle.value);
      StartCpu(s, t, n);
    }
  }

  /** What matters for the CPU when a task is queued to run. */
  lemma StartCpu(s: State, t: Task, n: State)
    requires CpuOk(s) && t in s.st && CanStart(s.st[t]) && n == Step(s, Start(t)) && N(n.ready, t) > 0
    requires s.current.value != t ==> SamePlaces(s, n, s.current.value)
    requires s.idle.value != t ==> SamePlaces(s, n, s.idle.value)
    ensures CpuOk(n) <==> Allowed(s, Start(t))
  {
  }

  lemma BlockIff(s: State, t: Task)
    requires Inv(s) && t in s.st
    ensures Inv(Step(s, Block(t))) <==> Allowed(s, Block(t))
  {
    if s.current == Some(t) {
      BlockCurrentIff(s, t);
    } else {
      BlockOtherIff(s, t);
    }
  }

  lemma BlockCurrentIff(s: State, t: Task)
    requires Inv(s) && t in s.st && s.current == Some(t)
    ensures Inv(Step(s, Block(t))) <==> Allowed(s, Block(t))
  {
    var n := Step(s, Block(t));
    assert TaskOk(s, t);
    forall x: Task ensures N(n.blocked, x) == N(s.blocked, x) + if x == t then 1 else 0 {
      AppendedAt(s.blocked, t, x);
    }
    assert Allowed(s, Block(t)) ==> forall x: Task :: TaskOk(s, x) ==> TaskOk(n, x);
    assert t in s.blocked ==> !TaskOk(n, t);
  }

  lemma BlockOtherIff(s: State, t: Task)
    requires Inv(s) && t in s.st && s.current != Some(t)
    ensures Inv(Step(s, Block(t))) <==> Allowed(s, Block(t))
  {
    var n := Step(s, Block(t));
    forall x: Task ensures TaskOk(n, x) && (x != t ==> SamePlaces(s, n, x)) && N(n.ready, t) == 0 {
      assert TaskOk(s, x) && TaskOk(s, t);
      CountsAt(s, t, x);
      CountsAt(s, t, t);
      AppendedAt(Without(s.blocked, t), t, x);
    }
    assert SamePlaces(s, n, s.current.value);
    assert s.idle.value != t ==> SamePlaces(s, n, s.idle.value);
  }

  lemma UnblockTask(s: State, t: Task, n: State, blocked: seq<Task>, x: Task)
    requires TaskOk(s, x) && t in s.st && s.st[t].Blocked? && n == Step(s, Unblock(t))
    requires blocked == Without(s.blocked, t)
    ensures TaskOk(n, x) && (x != t ==> SamePlaces(s, n, x))
  {
    assert n.ready == s.ready + [t] && n.blocked == blocked && n.stopped == s.stopped && n.st == s.st[t := Ready];
    Removed(s.blocked, t, x);
    AppendedAt(s.ready, t, x);
  }

  lemma UnblockIff(s: State, t: Task)
    requires Inv(s) && t in s.st
    ensures Inv(Step(s, Unblock(t))) <==> Allowed(s, Unblock(t))
  {
    var n := Step(s, Unblock(t));
    if s.st[t].Blocked? {
      forall x: Task
        ensures TaskOk(n, x) && (x != t ==> SamePlaces(s, n, x))
      {
        assert TaskOk(s, x);
        UnblockTask(s, t, n, Without(s.blocked, t), x);
      }
      AppendedAt(s.ready, t, t);
      assert s.current.value != t ==> SamePlaces(s, n, s.current.value);
      assert s.idle.value != t ==> SamePlaces(s, n, s.idle.value);
    }
  }

  lemma StopTask(s: State, t: Task, n: State, x: Task)
    requires TaskOk(s, x) && TaskOk(s, t) && t in s.st && s.current != Some(t) && n == Step(s, Stop(t))
    ensures TaskOk(n, x) && (x != t ==> SamePlaces(s, n, x)) && N(n.ready, t) == 0
  {
    StopSelf(s, t, n);
    if x != t {
      CountsAt(s, t, x);
      AppendedAt(Without(s.stopped, t), t, x);
    }
  }

  lemma StopSelf(s: State, t: Task, n: State)
    requires TaskOk(s, t) && t in s.st && s.current != Some(t) && n == Step(s, Stop(t))
    ensures TaskOk(n, t) && N(n.ready, t) == 0
  {
    var o := OffQueues(s, t);
    StopQueues(s, t, n, o);
    CountsAt(s, t, t);
    AppendedAt(o.stopped, t, t);
  }

  lemma StopQueues(s: State, t: Task, n: State, o: State)
    requires t in s.st && s.current != Some(t) && n == Step(s, Stop(t)) && o == OffQueues(s, t)
    ensures n.ready == o.ready && n.blocked == o.blocked && n.stopped == o.stopped + [t] && n.st == s.st[t := Stopped]
  {
  }

  lemma StopIff(s: State, t: Task)
    requires Inv(s) && t in s.st
    ensures Inv(Step(s, Stop(t))) <==> Allowed(s, Stop(t))
  {
    var n := Step(s, Stop(t));
    if s.current != Some(t) {
      forall x: Task
        ensures TaskOk(n, x)
      {
        StopTask(s, t, n, x);
      }
      StopTask(s, t, n, s.current.value);
      StopTask(s, t, n, s.idle.value);
    } else {
      assert forall x: Task :: TaskOk(s, x) ==> TaskOk(n, x);
    }
  }

  /** What taking `t` off the queues does to the counts. */
  lemma OffCounts(s: State, t: Task, o: State, x: Task)
    requires TaskOk(s, x) && o == OffQueues(s, t)
    ensures if x == t then N(o.ready, x) == N(o.blocked, x) == N(o.stopped, x) == 0 else SamePlaces(s, o, x)
  {
    CountsAt(s, t, x);
  }

  lemma ExitQueues(s: State, t: Task, n: State, o: State)
    requires t in s.st && n == Step(s, Exit(t)) && o == OffQueues(s, t)
    ensures n.ready == o.ready && n.blocked == o.blocked && n.stopped == o.stopped && t in n.st
    ensures (n.st[t].Exited? || n.st[t].Stopped?) && forall x :: x in s.st && x != t ==> x in n.st && n.st[x] == s.st[x]
    ensures forall x :: x in n.st ==> x in s.st
  {
  }

  lemma ExitSelf(s: State, t: Task, n: State)
    requires TaskOk(s, t) && t in s.st && n == Step(s, Exit(t))
    ensures TaskOk(n, t) && Places(n, t) == 0
  {
    ExitQueues(s, t, n, OffQueues(s, t));
    OffCounts(s, t, OffQueues(s, t), t);
  }

  lemma ExitOther(s: State, t: Task, n: State, x: Task)
    requires TaskOk(s, x) && t in s.st && n == Step(s, Exit(t)) && x != t
    ensures TaskOk(n, x) && SamePlaces(s, n, x)
  {
    ExitQueues(s, t, n, OffQueues(s, t));
    OffCounts(s, t, OffQueues(s, t), x);
  }

  lemma ExitIff(s: State, t: Task)
    requires Inv(s) && t in s.st
    ensures Inv(Step(s, Exit(t))) <==> Allowed(s, Exit(t))
  {
    var n := Step(s, Exit(t));
    assert TaskOk(s, t);
    ExitSelf(s, t, n);
    forall x: Task | x != t
      ensures TaskOk(n, x) && SamePlaces(s, n, x)
    {
      ExitOther(s, t, n, x);
    }
    ExitCpu(s, t, n);
  }

  lemma ExitCpu(s: State, t: Task, n: State)
    requires CpuOk(s) && t in s.st && n == Step(s, Exit(t)) && Places(n, t) == 0
    requires s.current.value != t ==> SamePlaces(s, n, s.current.value)
    requires s.idle.value != t ==> SamePlaces(s, n, s.idle.value)
    ensures CpuOk(n) <==> s.idle != Some(t)
  {
  }

  lemma ResumeOther(s: State, t: Task, n: State, x: Task)
    requires TaskOk(s, x) && t in s.st && n == Step(s, Resume(t)) && x != t
    ensures TaskOk(n, x) && SamePlaces(s, n, x)
  {
    ResumeQueues(s, t, n, Without(s.stopped, t));
    Removed(s.stopped, t, x);
    AppendedAt(s.ready, t, x);
  }

  lemma ResumeQueues(s: State, t: Task, n: State, stopped: seq<Task>)
    requires t in s.st && n == Step(s, Resume(t)) && stopped == Without(s.stopped, t)
    ensures n.ready == s.ready + [t] && n.blocked == s.blocked && n.stopped == stopped && n.st == s.st[t := Ready]
  {
  }

  lemma ResumeSelf(s: State, t: Task, n: State)
    requires TaskOk(s, t) && t in s.st && n == Step(s, Resume(t))
    ensures N(n.ready, t) > 0 && (TaskOk(n, t) <==> N(s.ready, t) == 0 && N(s.blocked, t) == 0)
  {
    ResumeQueues(s, t, n, Without(s.stopped, t));
    Removed(s.stopped, t, t);
    AppendedAt(s.ready, t, t);
  }

  lemma ResumeIff(s: State, t: Task)
    requires Inv(s) && t in s.st
    ensures Inv(Step(s, Resume(t))) <==> Allowed(s, Resume(t))
  {
    var n := Step(s, Resume(t));
    forall x: Task | x != t
      ensures TaskOk(n, x) && SamePlaces(s, n, x)
    {
      ResumeOther(s, t, n, x);
    }
    assert TaskOk(s, t);
    ResumeSelf(s, t, n);
    ResumeCpu(s, t, n);
  }

  lemma ResumeCpu(s: State, t: Task, n: State)
    requires CpuOk(s) && t in s.st && n == Step(s, Resume(t)) && N(n.ready, t) > 0
    requires s.current.value != t ==> SamePlaces(s, n, s.current.value)
    requires s.idle.value != t ==> SamePlaces(s, n, s.idle.value)
    ensures CpuOk(n) <==> s.current != Some(t)
  {
  }

  lemma PutBackTask(s: State, x: Task)
    requires CpuOk(s) && TaskOk(s, x) && TaskOk(s, s.current.value)
    ensures TaskOk(PutBack(s), x)
  {
    AppendedAt(s.ready, s.current.value, x);
  }

  lemma PutBackIdle(s: State)
    requires CpuOk(s)
    ensures N(PutBack(s).ready, s.idle.value) > 0 && PutBack(s).ready != []
  {
    AppendedAt(s.ready, s.current.value, s.idle.value);
  }

  /** Taking the first of the ready queue. */
  lemma PickTask(p: State, n: State, x: Task)
    requires p.ready != [] && n.ready == p.ready[1..] && n.blocked == p.blocked && n.stopped == p.stopped
    requires TaskOk(p, x) && TaskOk(p, p.ready[0]) && n.st == p.st[p.ready[0] := Running]
    ensures TaskOk(n, x) && N(n.ready, x) == N(p.ready, x) - (if x == p.ready[0] then 1 else 0)
  {
    assert p.ready == [p.ready[0]] + p.ready[1..];
  }

  lemma PickCpu(p: State, n: State)
    requires p.ready != [] && p.ready[0] in p.st && n.idle == p.idle && n.current == Some(p.ready[0])
    requires p.idle.Some? && p.idle.value in p.st && N(p.ready, p.idle.value) > 0
    requires n.ready == p.ready[1..] && n.blocked == p.blocked && n.stopped == p.stopped
    requires n.st == p.st[p.ready[0] := Running] && TaskOk(p, p.ready[0])
    requires N(n.ready, p.ready[0]) == N(p.ready, p.ready[0]) - 1
    requires p.idle.value != p.ready[0] ==> N(n.ready, p.idle.value) == N(p.ready, p.idle.value)
    ensures CpuOk(n)
  {
  }

  lemma ScheduleKeeps(s: State)
    requires Inv(s)
    ensures PutBack(s).ready != [] && PutBack(s).ready[0] in s.st
    ensures PutBack(s).st[PutBack(s).ready[0]] == Ready
    ensures Scheduled(s).current == Some(PutBack(s).ready[0])
    ensures Inv(Scheduled(s))
  {
    var p, n := PutBack(s), Scheduled(s);
    PutBackIdle(s);
    forall x: Task
      ensures TaskOk(p, x)
    {
      assert TaskOk(s, s.current.value);
      PutBackTask(s, x);
    }
    var t := p.ready[0];
    assert TaskOk(p, t) && N(p.ready, t) > 0;
    Picked(p, n);
  }

  lemma Picked(p: State, n: State)
    requires p.ready != [] && (forall x: Task :: TaskOk(p, x)) && p.ready[0] in p.st
    requires p.idle.Some? && p.idle.value in p.st && N(p.ready, p.idle.value) > 0
    requires n == SetState(p, p.ready[0], Running).(ready := p.ready[1..], current := Some(p.ready[0]))
    ensures Inv(n)
  {
    forall x: Task
      ensures TaskOk(n, x)
    {
      PickTask(p, n, x);
    }
    PickTask(p, n, p.ready[0]);
    PickTask(p, n, p.idle.value);
    PickCpu(p, n);
  }

  /** Whatever the state, an operation keeps the invariant exactly when it is allowed. */
  lemma StepIff(s: State, op: Op)
    requires Inv(s)
    ensures Inv(Step(s, op)) <==> Allowed(s, op)
  {
    if !Known(s, op) {
      return;
    }
    match op
    case Start(t) => StartIff(s, t);
    case Block(t) => BlockIff(s, t);
    case Unblock(t) => UnblockIff(s, t);
    case Stop(t) => StopIff(s, t);
    case Exit(t) => ExitIff(s, t);
    case Resume(t) => ResumeIff(s, t);
    case Reschedule => ScheduleKeeps(s);
  }

  // ---------------------------------------------------------------- runs

  /** Right after boot each CPU runs its idle task and nothing is queued. */
  function Boot(idle: Task, st: map<Task, TaskState>): State {
    State(Some(idle), Some(idle), [], [], [], st[idle := Ready])
  }

  function Run(s: State, ops: seq<Op>): State
    decreases |ops|
  {
    if ops == [] then s else Run(Step(s, ops[0]), ops[1..])
  }

  predicate AllAllowed(s: State, ops: seq<Op>)
    decreases |ops|
  {
    ops == [] || (Allowed(s, ops[0]) && AllAllowed(Step(s, ops[0]), ops[1..]))
  }

  /** Safety of every run: if every call is allowed, the invariant holds throughout. */
  lemma {:induction false} RunKeeps(s: State, ops: seq<Op>)
    requires Inv(s) && AllAllowed(s, ops)
    ensures Inv(Run(s, ops))
    decreases |ops|
  {
    if ops != [] {
      StepIff(s, ops[0]);
      RunKeeps(Step(s, ops[0]), ops[1..]);
    }
  }

  lemma BootOk(idle: Task, st: map<Task, TaskState>)
    requires forall t :: t in st ==> st[t] == Created
    ensures Inv(Boot(idle, st))
  {
    forall t: Task ensures TaskOk(Boot(idle, st), t) {
    }
  }

  /** A wake-up between a task's own block and its next schedule puts it on the ready
      queue while it is still on the CPU; the next schedule then queues it twice. */
  lemma EarlyWakeUp(idle: Task, t: Task)
    requires idle != t
    ensures var s := State(Some(idle), Some(t), [idle], [], [], map[idle := Ready, t := Running]);
            Inv(s) && Step(Step(Step(s, Block(t)), Unblock(t)), Reschedule).ready == [t, t]
  {
    var s := State(Some(idle), Some(t), [idle], [], [], map[idle := Ready, t := Running]);
    OnCpu(s, idle, t);
    WokenEarly(s, idle, t);
  }

  lemma OnCpu(s: State, idle: Task, t: Task)
    requires idle != t && s == State(Some(idle), Some(t), [idle], [], [], map[idle := Ready, t := Running])
    ensures Inv(s)
  {
    forall x: Task
      ensures TaskOk(s, x)
    {
    }
  }

  lemma WokenEarly(s: State, idle: Task, t: Task)
    requires idle != t && s == State(Some(idle), Some(t), [idle], [], [], map[idle := Ready, t := Running])
    ensures Step(Step(Step(s, Block(t)), Unblock(t)), Reschedule).ready == [t, t]
  {
    var b := Step(s, Block(t));
    assert b == State(Some(idle), Some(t), [idle], [t], [], map[idle := Ready, t := Blocked]);
    WokenQueued(b, idle, t);
    QueuedTwice(Step(b, Unblock(t)), idle, t);
  }

  lemma WokenQueued(b: State, idle: Task, t: Task)
    requires idle != t && b == State(Some(idle), Some(t), [idle], [t], [], map[idle := Ready, t := Blocked])
    ensures var u := Step(b, Unblock(t));
            u.current == Some(t) && u.ready == [idle, t] && t in u.st && u.st[t] == Ready
  {
  }

  lemma QueuedTwice(u: State, idle: Task, t: Task)
    requires u.current == Some(t) && u.ready == [idle, t] && t in u.st && u.st[t] == Ready
    ensures Step(u, Reschedule).ready == [t, t]
  {
    assert PutBack(u).ready == [idle, t, t];
  }

  // ---------------------------------------------------------------- exits

  /** `t` has exited, is on no queue and is not on the CPU. */
  ghost predicate Gone(s: State, t: Task) {
    && t in s.st && s.st[t] == Exited && s.current != Some(t)
    && t !in s.ready && t !in s.blocked && t !in s.stopped
  }

  /** `t` is gone now and after each of the calls. */
  ghost predicate StaysGone(s: State, ops: seq<Op>, t: Task)
    decreases |ops|
  {
    Gone(s, t) && (ops == [] || StaysGone(Step(s, ops[0]), ops[1..], t))
  }

  /** The calls that do not look whether `t` has exited. */
  predicate Revives(op: Op, t: Task) { (op.Block? || op.Stop? || op.Resume?) && op.t == t }

  lemma GoneStep(s: State, op: Op, t: Task)
    requires Gone(s, t) && s.idle != Some(t)
    ensures Gone(Step(s, op), t) <==> !Revives(op, t)
    ensures Step(s, op).idle == s.idle
  {
    if op.Reschedule? {
      GoneSchedule(s, t);
    } else if op.t == t {
      assert IndexOf(s.ready, t) == |s.ready| && IndexOf(s.blocked, t) == |s.blocked|
        && IndexOf(s.stopped, t) == |s.stopped|;
    } else if Known(s, op) {
      GoneOther(s, op, op.t, t);
    }
  }

  lemma GoneOther(s: State, op: Op, u: Task, t: Task)
    requires Gone(s, t) && !op.Reschedule? && op.t == u != t && Known(s, op)
    ensures Gone(Step(s, op), t)
  {
    StaysOut(s.ready, u, t);
    StaysOut(s.blocked, u, t);
    StaysOut(s.stopped, u, t);
  }

  lemma StaysOut(q: seq<Task>, u: Task, t: Task)
    requires t !in q && u != t
    ensures t !in Without(q, u) && t !in q + [u] && t !in Without(q, u) + [u]
  {
  }

  lemma GoneSchedule(s: State, t: Task)
    requires Gone(s, t) && s.idle != Some(t)
    ensures Gone(Scheduled(s), t) && Scheduled(s).idle == s.idle
  {
    assert Gone(PutBack(s), t);
  }

  lemma {:induction false} GoneRun(s: State, ops: seq<Op>, t: Task)
    requires Gone(s, t) && s.idle != Some(t)
    ensures StaysGone(s, ops, t) <==> forall i :: 0 <= i < |ops| ==> !Revives(ops[i], t)
    decreases |ops|
  {
    if ops != [] {
      GoneStep(s, ops[0], t);
      if !Revives(ops[0], t) {
        GoneRun(Step(s, ops[0]), ops[1..], t);
        assert forall i :: 0 < i < |ops| ==> ops[i] == ops[1..][i - 1];
      }
    }
  }

  /** Whatever is called afterwards, an exit is final if and only if it did not happen on the
      CPU, and nobody stops, blocks or resumes what has exited. */
  lemma ExitFinal(s: State, t: Task, ops: seq<Op>)
    requires Inv(s) && t in s.st && Allowed(s, Exit(t))
    ensures StaysGone(Step(s, Exit(t)), ops, t) <==>
            s.current != Some(t) && forall i :: 0 <= i < |ops| ==> !Revives(ops[i], t)
  {
    var n := Step(s, Exit(t));
    assert TaskOk(s, t);
    CountsAt(s, t, t);
    if s.current != Some(t) {
      GoneRun(n, ops, t);
    }
  }

  /** The two ways back: an exit that is followed by a stop, and one on the CPU. */
  lemma ExitUndone(idle: Task, t: Task)
    requires idle != t
    ensures var s := State(Some(idle), Some(idle), [t], [], [], map[idle := Running, t := Ready]);
            var ops := [Exit(t), Stop(t), Start(t)];
            Inv(s) && AllAllowed(s, ops) && Run(s, ops).ready == [t]
    ensures var s := State(Some(idle), Some(t), [idle], [], [], map[idle := Ready, t := Running]);
            var ops := [Exit(t), Reschedule, Start(t)];
            Inv(s) && AllAllowed(s, ops) && Run(s, ops).ready == [t]
  {
    StoppedAfterExit(idle, t);
    ExitOnCpu(idle, t);
  }

  lemma ExitThenStop(s: State, idle: Task, t: Task)
    requires idle != t && s == State(Some(idle), Some(idle), [t], [], [], map[idle := Running, t := Ready])
    ensures Inv(s)
    ensures Step(s, Exit(t)) == State(Some(idle), Some(idle), [], [], [], map[idle := Running, t := Exited])
  {
  }

  lemma StopThenStart(s: State, idle: Task, t: Task)
    requires idle != t && s == State(Some(idle), Some(idle), [], [], [], map[idle := Running, t := Exited])
    ensures Step(s, Stop(t)) == State(Some(idle), Some(idle), [], [], [t], map[idle := Running, t := Stopped])
    ensures Allowed(s, Stop(t)) && Allowed(Step(s, Stop(t)), Start(t)) && Step(Step(s, Stop(t)), Start(t)).ready == [t]
  {
  }

  lemma StoppedAfterExit(idle: Task, t: Task)
    requires idle != t
    ensures var s := State(Some(idle), Some(idle), [t], [], [], map[idle := Running, t := Ready]);
            var ops := [Exit(t), Stop(t), Start(t)];
            Inv(s) && AllAllowed(s, ops) && Run(s, ops).ready == [t]
  {
    var s := State(Some(idle), Some(idle), [t], [], [], map[idle := Running, t := Ready]);
    ExitThenStop(s, idle, t);
    StopThenStart(Step(s, Exit(t)), idle, t);
    ThreeCalls(s, Exit(t), Stop(t), Start(t));
  }

  lemma ExitOnCpu(idle: Task, t: Task)
    requires idle != t
    ensures var s := State(Some(idle), Some(t), [idle], [], [], map[idle := Ready, t := Running]);
            var ops := [Exit(t), Reschedule, Start(t)];
            Inv(s) && AllAllowed(s, ops) && Run(s, ops).ready == [t]
  {
    var s := State(Some(idle), Some(t), [idle], [], [], map[idle := Ready, t := Running]);
    var s1 := Step(s, Exit(t));
    var s2 := Step(s1, Reschedule);
    assert s1.st[t] == Stopped && s2.ready == [] && s2.current == Some(idle);
    ThreeCalls(s, Exit(t), Reschedule, Start(t));
  }

  lemma OneCall(s: State, op: Op, ops: seq<Op>)
    ensures Run(s, [op] + ops) == Run(Step(s, op), ops)
    ensures AllAllowed(s, [op] + ops) <==> Allowed(s, op) && AllAllowed(Step(s, op), ops)
  {
    assert ([op] + ops)[1..] == ops;
  }

  lemma ThreeCalls(s: State, a: Op, b: Op, c: Op)
    ensures Run(s, [a, b, c]) == Step(Step(Step(s, a), b), c)
    ensures AllAllowed(s, [a, b, c]) <==>
            Allowed(s, a) && Allowed(Step(s, a), b) && Allowed(Step(Step(s, a), b), c)
  {
    assert [a, b, c] == [a] + [b, c] && [b, c] == [b] + [c] && [c] == [c] + [];
    OneCall(s, a, [b, c]);
    OneCall(Step(s, a), b, [c]);
    OneCall(Step(Step(s, a), b), c, []);
  }

  // ---------------------------------------------------------------- progress

  predicate Names(op: Op, t: Task) { !op.Reschedule? && op.t == t }

  function Schedules(ops: seq<Op>): nat {
    if ops == [] then 0 else (if ops[0].Reschedule? then 1 else 0) + Schedules(ops[1..])
  }

  lemma OtherArrives(q: seq<Task>, t: Task, x: Task)
    requires t in q
    ensures t in q + [x] && IndexOf(q + [x], t) == IndexOf(q, t)
  {
    FirstIndex(q + [x], t, IndexOf(q, t));
  }

  lemma OtherLeaves(q: seq<Task>, t: Task, x: Task)
    requires t in q && x != t
    ensures t in Without(q, x) && IndexOf(Without(q, x), t) <= IndexOf(q, t)
  {
    var i, j, w := IndexOf(q, x), IndexOf(q, t), Without(q, x);
    if i < |q| {
      FirstIndex(w, t, if j < i then j else j - 1);
    }
  }

  lemma HeadLeaves(q: seq<Task>, t: Task)
    requires t in q && q[0] != t
    ensures t in q[1..] && IndexOf(q[1..], t) == IndexOf(q, t) - 1
  {
  }

  /** A schedule runs `t` or moves it forward by one. */
  lemma ScheduleAdvances(s: State, t: Task)
    requires t in s.ready
    ensures var n := Scheduled(s);
            n.current == Some(t) || (t in n.ready && IndexOf(n.ready, t) < IndexOf(s.ready, t))
  {
    var p := PutBack(s);
    if s.current.Some? {
      OtherArrives(s.ready, t, s.current.value);
    }
    if p.ready[0] != t {
      HeadLeaves(p.ready, t);
    }
  }

  /** A call that does not name `t` never moves it back in the ready queue. */
  lemma CallKeepsPlace(s: State, op: Op, t: Task)
    requires !op.Reschedule? && op.t != t && t in s.ready
    ensures t in Step(s, op).ready && IndexOf(Step(s, op).ready, t) <= IndexOf(s.ready, t)
  {
    var x := op.t;
    OtherArrives(s.ready, t, x);
    OtherLeaves(s.ready, t, x);
    OtherArrives(Without(s.ready, x), t, x);
    assert Step(s, op).ready in [s.ready, s.ready + [x], Without(s.ready, x), Without(s.ready, x) + [x]];
  }

  /** No starvation: a task at position k of the ready queue that no call names is on the
      CPU at some point within the next k + 1 schedules, whatever else happens between. */
  lemma {:induction false} NoStarvation(s: State, ops: seq<Op>, t: Task) returns (m: nat)
    requires forall i :: 0 <= i < |ops| ==> !Names(ops[i], t)
    requires t in s.ready && Schedules(ops) > IndexOf(s.ready, t)
    ensures m <= |ops| && Schedules(ops[..m]) <= IndexOf(s.ready, t) + 1
    ensures Run(s, ops[..m]).current == Some(t)
    decreases |ops|
  {
    var n := Step(s, ops[0]);
    if ops[0].Reschedule? {
      ScheduleAdvances(s, t);
    } else {
      CallKeepsPlace(s, ops[0], t);
    }
    if ops[0].Reschedule? && n.current == Some(t) {
      m := 1;
      assert ops[..1][1..] == [];
    } else {
      var m' := NoStarvation(n, ops[1..], t);
      m := m' + 1;
      assert ops[..m][1..] == ops[1..][..m'];
    }
  }

  // ---------------------------------------------------------------- implementation

  class Scheduler {
    var idle: Option<Task>
    var current: Option<Task>
    var readyQueue: seq<Task>
    var blockedList: seq<Task>
    var stoppedList: seq<Task>
    /** The state field of every task of this CPU. */
    var taskState: map<Task, TaskState>

    ghost function View(): State
      reads this
    {
      State(idle, current, readyQueue, blockedList, stoppedList, taskState)
    }

    constructor (tasks: map<Task, TaskState>)
      ensures View() == State(None, None, [], [], [], tasks)
    {
      idle, current := None, None;
      readyQueue, blockedList, stoppedList := [], [], [];
      taskState := tasks;
    }

    /** On a scheduler that has queued nothing yet, this gives a good state to run from. */
    method SetIdleTask(task: Task)
      modifies this
      ensures View() == old(View()).(idle := Some(task), current := Some(task))
      ensures old(Unused()) && task in taskState && Schedulable(taskState[task]) ==> Inv(View())
    {
      idle, current := Some(task), Some(task);
    }

    /** Nothing is queued, and nothing is marked as blocked. */
    ghost predicate Unused()
      reads this
    {
      && readyQueue == [] && blockedList == [] && stoppedList == []
      && forall t :: t in taskState ==> taskState[t] != Blocked
    }

    /** In a good state, what is on the CPU: it is known and not queued to run. */
    method GetCurrentTask() returns (r: Option<Task>)
      ensures r.None? <==> current.None? && idle.None?
      ensures current.Some? ==> r == current
      ensures Inv(View()) ==> r.Some? && r.value in taskState && r.value !in readyQueue && r.value !in stoppedList
    {
      r := if current.Some? then current else idle;
    }

    static method Position(q: seq<Task>, task: Task) returns (r: Option<nat>)
      ensures r == if task in q then Some(IndexOf(q, task)) else None
    {
      var i := 0;
      while i < |q|
        invariant 0 <= i <= |q|
        invariant forall k :: 0 <= k < i ==> q[k] != task
      {
        if q[i] == task {
          FirstIndex(q, task, i);
          return Some(i);
        }
        i := i + 1;
      }
      r := None;
    }

    static method RemoveFirst(q: seq<Task>, task: Task) returns (r: seq<Task>)
      ensures r == Without(q, task)
    {
      var pos := Position(q, task);
      r := if pos.Some? then q[..pos.value] + q[pos.value + 1..] else q;
    }

    method RemoveFromAllQueues(task: Task)
      modifies this`readyQueue, this`blockedList, this`stoppedList
      ensures View() == OffQueues(old(View()), task)
    {
      readyQueue := RemoveFirst(readyQueue, task);
      blockedList := RemoveFirst(blockedList, task);
      stoppedList := RemoveFirst(stoppedList, task);
    }

    method AddTask(task: Task)
      modifies this
      ensures View() == Added(old(View()), task)
    {
      RemoveFromAllQueues(task);
      taskState := taskState[task := Ready];
      readyQueue := readyQueue + [task];
    }

    method RemoveTask(task: Task)
      modifies this
      ensures View() == Dropped(old(View()), task)
    {
      RemoveFromAllQueues(task);
      if current == Some(task) {
        taskState := taskState[task := Stopped];
      }
    }

    method BlockTask(task: Task)
      modifies this
      ensures View() == Parked(old(View()), task)
    {
      if current == Some(task) {
        taskState := taskState[task := Blocked];
        blockedList := blockedList + [task];
        return;
      }
      RemoveFromAllQueues(task);
      taskState := taskState[task := Blocked];
      blockedList := blockedList + [task];
    }

    method UnblockTask(task: Task)
      modifies this
      ensures View() == Woken(old(View()), task)
    {
      blockedList := RemoveFirst(blockedList, task);
      taskState := taskState[task := Ready];
      readyQueue := readyQueue + [task];
    }

    method StopTask(task: Task)
      modifies this
      ensures View() == Halted(old(View()), task)
    {
      if current == Some(task) {
        taskState := taskState[task := Stopped];
        return;
      }
      RemoveFromAllQueues(task);
      taskState := taskState[task := Stopped];
      stoppedList := stoppedList + [task];
    }

    method ResumeTask(task: Task)
      modifies this
      ensures View() == Resumed(old(View()), task)
    {
      stoppedList := RemoveFirst(stoppedList, task);
      taskState := taskState[task := Ready];
      readyQueue := readyQueue + [task];
    }

    method Schedule() returns (next: Task)
      requires idle.Some? || PutBack(View()).ready != []
      requires current.Some? ==> current.value in taskState
      modifies this
      ensures View() == Scheduled(old(View())) && current == Some(next)
    {
      if current.Some? {
        var out := current.value;
        current := None;
        match taskState[out] {
          case Ready | Running =>
            taskState := taskState[out := Ready];
            readyQueue := readyQueue + [out];
          case Blocked =>
            if out !in blockedList {
              blockedList := blockedList + [out];
            }
          case _ =>
        }
      }
      if |readyQueue| > 0 {
        next := readyQueue[0];
        readyQueue := readyQueue[1..];
      } else {
        next := idle.value;
      }
      taskState := taskState[next := Running];
      current := Some(next);
    }

    /** The kernel-level task operations: set the state, then call the scheduler. */
    method Perform(op: Op)
      requires Known(View(), op)
      requires op.Reschedule? ==> idle.Some? || PutBack(View()).ready != []
      requires op.Reschedule? && current.Some? ==> current.value in taskState
      modifies this
      ensures View() == Step(old(View()), op)
      ensures old(Inv(View())) ==> (Inv(View()) <==> Allowed(old(View()), op))
    {
      if Inv(View()) {
        StepIff(View(), op);
      }
      match op {
        case Start(t) =>
          if !CanStart(taskState[t]) {
            return;
          }
          taskState := taskState[t := Ready];
          AddTask(t);
        case Block(t) =>
          taskState := taskState[t := Blocked];
          BlockTask(t);
        case Unblock(t) =>
          if taskState[t] != Blocked {
            return;
          }
          taskState := taskState[t := Ready];
          UnblockTask(t);
        case Stop(t) =>
          taskState := taskState[t := Stopped];
          StopTask(t);
        case Exit(t) =>
          taskState := taskState[t := Exited];
          RemoveTask(t);
        case Resume(t) =>
          ResumeTask(t);
        case Reschedule =>
          var next := Schedule();
      }
    }
  }
}
