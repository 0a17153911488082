// Bounded channels shared by tasks (runtime/channel.go): every section a lock protects is one atomic
// step, and the steps of all tasks interleave in any order. A task is a call in progress: a send, a
// try, a receive, a close or a wait on many channels, each with the place it has reached. The queue,
// the watchers and the registry change only inside a step; a sleeping call moves on when a broadcast
// or a token lets it, and a wait on many channels scans again after taking its token.
module Channels {

  type Handle = int
  type TaskId = nat

  const MAX_CHANNEL_BUFFER := 4096

  // One channel. `watchers` are the awaitAny calls to be woken when it becomes ready.
  datatype Chan = Chan(queue: seq<string>, closed: bool, capacity: nat, watchers: set<TaskId>)

  // Everything that ever entered and left one channel.
  datatype Log = Log(accepted: seq<string>, received: seq<string>, discarded: seq<string>)

  // Where an awaitAny call stands: resolving handle k, registering with channel k, looking at
  // channel k, waiting for its token, or taking its registration back from channel k.
  datatype Pc = Looking(k: nat) | Registering(k: nat) | Scanning(k: nat) | Blocked | Leaving(k: nat, answer: int)

  datatype Answer = Flag(b: bool) | Received(v: string) | Position(i: int) | Unknown | Closed | NoChannels

  // A call in progress, past its handle lookup, or its answer. `asleep` is a wait on the channel's
  // condition variable that nothing has broadcast to yet.
  datatype Task =
    | Sending(ch: Handle, v: string, asleep: bool)
    | TrySending(ch: Handle, v: string)
    | Receiving(ch: Handle, asleep: bool)
    | Closing(ch: Handle)
    | Awaiting(ids: seq<Handle>, timed: bool, pc: Pc)
    | Done(answer: Answer)

  // `open` is the registry's table; `chans` also keeps the channels taken out of it, which calls
  // already past their lookup still hold. `tokens` are the awaitAny calls with a wake-up pending.
  datatype State = State(next: nat, open: set<Handle>, chans: map<Handle, Chan>, logs: map<Handle, Log>,
                         tasks: map<TaskId, Task>, tokens: set<TaskId>)

  datatype Call = Send(v: string) | TrySend(v: string) | Recv | Close

  datatype Action =
    | Create(n: int)
    | Start(t: TaskId, id: Handle, call: Call)
    | StartAwait(t: TaskId, ids: seq<Handle>, timed: bool)
    | Go(t: TaskId)
    | Timeout(t: TaskId)

  predicate Ready(c: Chan) {
    c.queue != [] || c.closed
  }

  // What a locked section makes of the channel; the methods of the channel object are proved to
  // make the same of it.
  function Put(c: Chan, v: string): Chan {
    c.(queue := c.queue + [v])
  }

  function Taken(c: Chan): Chan {
    if c.queue == [] then c else c.(queue := c.queue[1..])
  }

  function Shut(c: Chan): Chan {
    c.(queue := [], closed := true)
  }

  // ---- one step ----

  function Awake(t: Task): Task {
    match t
    case Sending(ch, v, _) => Sending(ch, v, false)
    case Receiving(ch, _) => Receiving(ch, false)
    case _ => t
  }

  predicate On(t: Task, h: Handle) {
    match t
    case Sending(ch, _, _) => ch == h
    case Receiving(ch, _) => ch == h
    case _ => false
  }

  // cond.Broadcast on channel h.
  function Broadcast(tasks: map<TaskId, Task>, h: Handle): map<TaskId, Task> {
    map t | t in tasks :: if On(tasks[t], h) then Awake(tasks[t]) else tasks[t]
  }

  // The locked section of a call on channel h that changes it: the channel becomes c, sleepers are
  // broadcast to, and the watchers are notified if asked.
  function Locked(s: State, t: TaskId, h: Handle, c: Chan, log: Log, notify: bool, answer: Answer): State
    requires h in s.chans
  {
    s.(chans := s.chans[h := c], logs := s.logs[h := log],
       tokens := s.tokens + if notify then s.chans[h].watchers else {},
       tasks := Broadcast(s.tasks, h)[t := Done(answer)])
  }

  function Finish(s: State, t: TaskId, answer: Answer): State {
    s.(tasks := s.tasks[t := Done(answer)])
  }

  function Become(s: State, t: TaskId, task: Task): State {
    s.(tasks := s.tasks[t := task])
  }

  function SendStep(s: State, t: TaskId, h: Handle, v: string, wait: bool): State
    requires h in s.chans && h in s.logs
  {
    var c, g := s.chans[h], s.logs[h];
    if c.closed then Finish(s, t, Flag(false))
    else if |c.queue| >= c.capacity then
      if wait then Become(s, t, Sending(h, v, true)) else Finish(s, t, Flag(false))
    else Locked(s, t, h, Put(c, v), g.(accepted := g.accepted + [v]), true, Flag(true))
  }

  function RecvStep(s: State, t: TaskId, h: Handle): State
    requires h in s.chans && h in s.logs
  {
    var c, g := s.chans[h], s.logs[h];
    if c.closed then Finish(s, t, Closed)
    else if c.queue == [] then Become(s, t, Receiving(h, true))
    else Locked(s, t, h, Taken(c), g.(received := g.received + [c.queue[0]]), false, Received(c.queue[0]))
  }

  function CloseStep(s: State, t: TaskId, h: Handle): State
    requires h in s.chans && h in s.logs
  {
    var c, g := s.chans[h], s.logs[h];
    Locked(s, t, h, Shut(c), g.(discarded := c.queue), true, Flag(true))
  }

  predicate Minted(s: State, id: Handle) {
    1 <= id <= s.next
  }

  // A call resolves its handle; a close also takes the channel out of the registry.
  function StartStep(s: State, t: TaskId, id: Handle, call: Call): State {
    if id in s.open then
      match call
      case Send(v) => Become(s, t, Sending(id, v, false))
      case TrySend(v) => Become(s, t, TrySending(id, v))
      case Recv => Become(s, t, Receiving(id, false))
      case Close => Become(s, t, Closing(id)).(open := s.open - {id})
    else if Minted(s, id) then Finish(s, t, if call.Recv? then Closed else Flag(false))
    else Finish(s, t, Unknown)
  }

  function Watch(s: State, t: TaskId, h: Handle, on: bool): map<Handle, Chan>
    requires h in s.chans
  {
    var c := s.chans[h];
    s.chans[h := c.(watchers := if on then c.watchers + {t} else c.watchers - {t})]
  }

  function AwaitStep(s: State, t: TaskId, ids: seq<Handle>, timed: bool, pc: Pc): State
    requires ids != []
    requires pc.Blocked? || (pc.k <= |ids| && forall h :: h in ids[..pc.k] ==> h in s.chans)
    requires !pc.Looking? ==> forall h :: h in ids ==> h in s.chans
  {
    match pc
    case Looking(k) =>
      if k == |ids| then Become(s, t, Awaiting(ids, timed, Registering(0)))
      else if ids[k] in s.open then Become(s, t, Awaiting(ids, timed, Looking(k + 1)))
      else if Minted(s, ids[k]) then Finish(s, t, Position(k))
      else Finish(s, t, Unknown)
    case Registering(k) =>
      if k == |ids| then Become(s, t, Awaiting(ids, timed, Scanning(0)))
      else Become(s, t, Awaiting(ids, timed, Registering(k + 1))).(chans := Watch(s, t, ids[k], true))
    case Scanning(k) =>
      if k == |ids| then Become(s, t, Awaiting(ids, timed, Blocked))
      else if ids[k] in s.chans && Ready(s.chans[ids[k]]) then Become(s, t, Awaiting(ids, timed, Leaving(0, k)))
      else Become(s, t, Awaiting(ids, timed, Scanning(k + 1)))
    case Blocked =>
      if t in s.tokens then Become(s, t, Awaiting(ids, timed, Scanning(0))).(tokens := s.tokens - {t}) else s
    case Leaving(k, answer) =>
      if k == |ids| then Finish(s, t, Position(answer))
      else Become(s, t, Awaiting(ids, timed, Leaving(k + 1, answer))).(chans := Watch(s, t, ids[k], false))
  }

  function Initial(): State {
    State(0, {}, map[], map[], map[], {})
  }

  function CreateStep(s: State, n: int): State {
    if 1 <= n <= MAX_CHANNEL_BUFFER then
      var h := s.next + 1;
      s.(next := h, open := s.open + {h}, chans := s.chans[h := Chan([], false, n, {})],
        logs := s.logs[h := Log([], [], [])])
    else s
  }

  // An action that is not enabled leaves the state as it is.
  function Step(s: State, a: Action): State
    requires Inv(s)
  {
    match a
    case Create(n) => CreateStep(s, n)
    case Start(t, id, call) => if t in s.tasks then s else StartStep(s, t, id, call)
    case StartAwait(t, ids, timed) =>
      if t in s.tasks then s
      else if ids == [] then Finish(s, t, NoChannels)
      else Become(s, t, Awaiting(ids, timed, Looking(0)))
    case Go(t) => if t in s.tasks then GoStep(s, t) else s
    case Timeout(t) =>
      if t in s.tasks && s.tasks[t].Awaiting? && s.tasks[t].timed && s.tasks[t].pc.Blocked?
      then Become(s, t, s.tasks[t].(pc := Leaving(0, -1))) else s
  }

  function GoStep(s: State, t: TaskId): State
    requires Inv(s) && t in s.tasks
  {
    assert TaskOk(s, t);
    match s.tasks[t]
    case Sending(h, v, asleep) => if asleep then s else SendStep(s, t, h, v, true)
    case TrySending(h, v) => SendStep(s, t, h, v, false)
    case Receiving(h, asleep) => if asleep then s else RecvStep(s, t, h)
    case Closing(h) => CloseStep(s, t, h)
    case Awaiting(ids, timed, pc) => AwaitStep(s, t, ids, timed, pc)
    case Done(_) => s
  }

  // ---- what holds in every reachable state ----

  ghost predicate ChanOk(s: State, h: Handle)
    requires h in s.chans && h in s.logs
  {
    var c, g := s.chans[h], s.logs[h];
    && 1 <= c.capacity <= MAX_CHANNEL_BUFFER && |c.queue| <= c.capacity
    && (c.closed ==> c.queue == [] && h !in s.open)
    && (!c.closed ==> g.discarded == [])
    && g.accepted == g.received + c.queue + g.discarded
  }

  ghost predicate Registered(task: Task, h: Handle) {
    && task.Awaiting?
    && match task.pc
       case Looking(_) => false
       case Registering(k) => k <= |task.ids| && h in task.ids[..k]
       case Scanning(_) => h in task.ids
       case Blocked => h in task.ids
       case Leaving(k, _) => k <= |task.ids| && h in task.ids && h !in task.ids[..k]
  }

  // How many of its channels an awaitAny call has looked at since it last took a token.
  function Scanned(task: Task): nat
    requires task.Awaiting?
  {
    match task.pc
    case Scanning(k) => k
    case Blocked => |task.ids|
    case _ => 0
  }

  ghost predicate TaskOk(s: State, t: TaskId)
    requires t in s.tasks
  {
    match s.tasks[t]
    case Sending(h, _, asleep) => h in s.chans && h in s.logs
      && (asleep ==> !s.chans[h].closed && |s.chans[h].queue| >= s.chans[h].capacity)
    case TrySending(h, _) => h in s.chans && h in s.logs
    case Receiving(h, asleep) => h in s.chans && h in s.logs
      && (asleep ==> !s.chans[h].closed && s.chans[h].queue == [])
    case Closing(h) => h in s.chans && h in s.logs && h !in s.open && !s.chans[h].closed
    case Awaiting(ids, _, pc) => AwaitOk(s, t, ids, pc)
    case Done(_) => true
  }

  ghost predicate AwaitOk(s: State, t: TaskId, ids: seq<Handle>, pc: Pc)
    requires t in s.tasks && s.tasks[t].Awaiting?
  {
    && ids != []
    && (pc.Blocked? || pc.k <= |ids|)
    && (pc.Looking? ==> forall h :: h in ids[..pc.k] ==> h in s.chans)
    && (!pc.Looking? ==> forall h :: h in ids ==> h in s.chans)
    && (forall h :: Registered(s.tasks[t], h) ==> h in s.chans && t in s.chans[h].watchers)
    && WakeupPending(s, t)
  }

  // An awaitAny call that has looked at a channel and not since taken a token: if that channel is
  // ready now, a token is waiting for the call.
  ghost predicate WakeupPending(s: State, t: TaskId)
    requires t in s.tasks && s.tasks[t].Awaiting?
  {
    var task := s.tasks[t];
    forall j :: 0 <= j < Scanned(task) && j < |task.ids| && task.ids[j] in s.chans && Ready(s.chans[task.ids[j]]) ==>
      t in s.tokens
  }

  ghost predicate Inv(s: State) {
    && (forall h :: h in s.chans <==> 1 <= h <= s.next)
    && s.logs.Keys == s.chans.Keys && s.open <= s.chans.Keys
    && (forall h :: h in s.chans ==> ChanOk(s, h))
    && (forall t :: t in s.tasks ==> TaskOk(s, t))
    && OneCloser(s)
    && WatchersOk(s)
    && InFlightClosed(s)
  }

  ghost predicate OneCloser(s: State) {
    forall t, u :: t in s.tasks && u in s.tasks && s.tasks[t].Closing? && s.tasks[u].Closing? ==>
      s.tasks[t].ch == s.tasks[u].ch ==> t == u
  }

  // Only calls still registered are watchers: an answered call leaves nothing behind.
  ghost predicate WatchersOk(s: State) {
    forall h, t :: h in s.chans && t in s.chans[h].watchers ==> t in s.tasks && Registered(s.tasks[t], h)
  }

  // A handle out of the registry is closed, or a close is on its way to closing it.
  ghost predicate InFlightClosed(s: State) {
    forall h :: h in s.chans && h !in s.open && !s.chans[h].closed ==>
      exists t :: t in s.tasks && s.tasks[t] == Closing(h)
  }

  ghost predicate WasRegistered(s: State, t: TaskId, h: Handle) {
    t in s.tasks && Registered(s.tasks[t], h)
  }

  // A call moves on: no channel, no lookup and no other call changes.
  lemma BecomeKeeps(s: State, t: TaskId, task: Task)
    requires Inv(s) && !task.Closing? && (t in s.tasks ==> !s.tasks[t].Closing?)
    requires TaskOk(Become(s, t, task), t)
    requires forall h :: Registered(task, h) <==> WasRegistered(s, t, h)
    ensures Inv(Become(s, t, task))
  {
    var n := Become(s, t, task);
    forall u | u in n.tasks && u != t ensures TaskOk(n, u) { assert TaskOk(s, u); }
    forall h | h in s.chans ensures ChanOk(n, h) { assert ChanOk(s, h); }
    assert WatchersOk(n) by {
      forall h, u | h in n.chans && u in n.chans[h].watchers ensures u in n.tasks && Registered(n.tasks[u], h) {
        assert u in s.tasks && Registered(s.tasks[u], h);
      }
    }
    assert InFlightClosed(n) by {
      forall h | h in n.chans && h !in n.open && !n.chans[h].closed
        ensures exists u :: u in n.tasks && n.tasks[u] == Closing(h) {
        var u :| u in s.tasks && s.tasks[u] == Closing(h);
        assert u in n.tasks && n.tasks[u] == Closing(h);
      }
    }
  }

  // A locked section that changes a channel's queue or closes it.
  lemma LockedKeeps(s: State, t: TaskId, h: Handle, c: Chan, log: Log, notify: bool, answer: Answer)
    requires Inv(s) && h in s.chans && t in s.tasks && !s.tasks[t].Awaiting?
    requires c.watchers == s.chans[h].watchers
    requires Ready(c) && !Ready(s.chans[h]) ==> notify
    requires c.closed <==> s.tasks[t] == Closing(h)
    requires !s.chans[h].closed && (s.tasks[t].Closing? ==> s.tasks[t].ch == h)
    requires ChanOk(Locked(s, t, h, c, log, notify, answer), h)
    ensures Inv(Locked(s, t, h, c, log, notify, answer))
  {
    var n := Locked(s, t, h, c, log, notify, answer);
    forall u | u in n.tasks && u != t ensures TaskOk(n, u) { LockedTask(s, t, h, c, log, notify, answer, u); }
    forall g | g in s.chans && g != h ensures ChanOk(n, g) { assert ChanOk(s, g); }
    LockedLists(s, t, h, c, log, notify, answer);
  }

  lemma LockedLists(s: State, t: TaskId, h: Handle, c: Chan, log: Log, notify: bool, answer: Answer)
    requires Inv(s) && h in s.chans && t in s.tasks && !s.tasks[t].Awaiting?
    requires c.watchers == s.chans[h].watchers
    requires c.closed <==> s.tasks[t] == Closing(h)
    requires !s.chans[h].closed && (s.tasks[t].Closing? ==> s.tasks[t].ch == h)
    ensures var n := Locked(s, t, h, c, log, notify, answer); OneCloser(n) && WatchersOk(n) && InFlightClosed(n)
  {
    hide TaskOk, ChanOk;
    var n := Locked(s, t, h, c, log, notify, answer);
    forall g, u | g in n.chans && u in n.chans[g].watchers ensures u in n.tasks && Registered(n.tasks[u], g) {
      assert g in s.chans && u in s.chans[g].watchers;
      assert u in s.tasks && Registered(s.tasks[u], g);
    }
    forall g | g in n.chans && g !in n.open && !n.chans[g].closed
      ensures exists u :: u in n.tasks && n.tasks[u] == Closing(g) {
      assert g in s.chans && !s.chans[g].closed;
      var u :| u in s.tasks && s.tasks[u] == Closing(g);
      assert u != t && n.tasks[u] == Closing(g);
    }
  }

  lemma LockedTask(s: State, t: TaskId, h: Handle, c: Chan, log: Log, notify: bool, answer: Answer, u: TaskId)
    requires Inv(s) && h in s.chans && t in s.tasks && !s.tasks[t].Awaiting? && u in s.tasks && u != t
    requires c.watchers == s.chans[h].watchers
    requires Ready(c) && !Ready(s.chans[h]) ==> notify
    requires c.closed ==> s.tasks[t] == Closing(h)
    requires !s.chans[h].closed
    ensures TaskOk(Locked(s, t, h, c, log, notify, answer), u)
  {
    var n := Locked(s, t, h, c, log, notify, answer);
    assert TaskOk(s, u);
    if s.tasks[u].Awaiting? {
      var ids := s.tasks[u].ids;
      assert n.tasks[u] == s.tasks[u];
      forall g | Registered(n.tasks[u], g) ensures g in n.chans && u in n.chans[g].watchers {
        assert Registered(s.tasks[u], g);
      }
      forall j | 0 <= j < Scanned(n.tasks[u]) && j < |ids| && ids[j] in n.chans && Ready(n.chans[ids[j]])
        ensures u in n.tokens {
        if ids[j] == h && !Ready(s.chans[h]) {
          assert Registered(s.tasks[u], h);
        }
      }
    }
  }

  // Registering with a channel, or taking a registration back.
  lemma WatchKeeps(s: State, t: TaskId, h: Handle, on: bool, task: Task)
    requires Inv(s) && t in s.tasks && s.tasks[t].Awaiting? && task.Awaiting? && h in s.chans
    requires Scanned(task) == 0 && AwaitOk(Become(s, t, task).(chans := Watch(s, t, h, on)), t, task.ids, task.pc)
    requires forall g :: g != h ==> (Registered(task, g) <==> Registered(s.tasks[t], g))
    requires Registered(task, h) <==> on
    ensures Inv(Become(s, t, task).(chans := Watch(s, t, h, on)))
  {
    var n := Become(s, t, task).(chans := Watch(s, t, h, on));
    WatchChans(s, t, h, on, task);
    WatchLists(s, t, h, on, task);
    hide ChanOk, AwaitOk, Registered, OneCloser, WatchersOk, InFlightClosed;
    forall u | u in n.tasks ensures TaskOk(n, u) { if u != t { WatchTask(s, t, h, on, task, u); } }
  }

  lemma WatchChans(s: State, t: TaskId, h: Handle, on: bool, task: Task)
    requires Inv(s) && h in s.chans
    ensures var n := Become(s, t, task).(chans := Watch(s, t, h, on)); forall g :: g in n.chans ==> ChanOk(n, g)
  {
    var n := Become(s, t, task).(chans := Watch(s, t, h, on));
    forall g | g in n.chans ensures ChanOk(n, g) { assert ChanOk(s, g); }
  }

  lemma WatchTask(s: State, t: TaskId, h: Handle, on: bool, task: Task, u: TaskId)
    requires Inv(s) && h in s.chans && u in s.tasks && u != t
    ensures TaskOk(Become(s, t, task).(chans := Watch(s, t, h, on)), u)
  {
    var n := Become(s, t, task).(chans := Watch(s, t, h, on));
    assert TaskOk(s, u);
    if s.tasks[u].Awaiting? {
      var ids := s.tasks[u].ids;
      forall g | Registered(n.tasks[u], g) ensures g in n.chans && u in n.chans[g].watchers {
        assert Registered(s.tasks[u], g);
      }
      forall j | 0 <= j < Scanned(n.tasks[u]) && j < |ids| && ids[j] in n.chans && Ready(n.chans[ids[j]])
        ensures u in n.tokens {
        assert Ready(s.chans[ids[j]]);
      }
    }
  }

  lemma WatchLists(s: State, t: TaskId, h: Handle, on: bool, task: Task)
    requires Inv(s) && t in s.tasks && s.tasks[t].Awaiting? && task.Awaiting? && h in s.chans
    requires forall g :: g != h ==> (Registered(task, g) <==> Registered(s.tasks[t], g))
    requires Registered(task, h) <==> on
    ensures var n := Become(s, t, task).(chans := Watch(s, t, h, on));
      OneCloser(n) && WatchersOk(n) && InFlightClosed(n)
  {
    hide TaskOk, ChanOk, Registered;
    var n := Become(s, t, task).(chans := Watch(s, t, h, on));
    forall g, u | g in n.chans && u in n.chans[g].watchers ensures u in n.tasks && Registered(n.tasks[u], g) {
      if u != t || g != h { assert u in s.chans[g].watchers; assert Registered(s.tasks[u], g); }
    }
    forall g | g in n.chans && g !in n.open && !n.chans[g].closed
      ensures exists u :: u in n.tasks && n.tasks[u] == Closing(g) {
      assert g in s.chans && !s.chans[g].closed;
      var u :| u in s.tasks && s.tasks[u] == Closing(g);
      assert u in n.tasks && n.tasks[u] == Closing(g);
    }
  }

  // ---- every step keeps it ----

  lemma CreateKeeps(s: State, n: int)
    requires Inv(s)
    ensures Inv(CreateStep(s, n))
  {
    if 1 <= n <= MAX_CHANNEL_BUFFER {
      var m := CreateStep(s, n);
      assert s.next + 1 !in s.chans;
      forall h | h in m.chans ensures ChanOk(m, h) { assert h != m.next ==> ChanOk(s, h); }
      forall u | u in m.tasks ensures TaskOk(m, u) { CreateTask(s, n, u); }
      assert WatchersOk(m) && OneCloser(m);
      forall g | g in m.chans && g !in m.open && !m.chans[g].closed
        ensures exists u :: u in m.tasks && m.tasks[u] == Closing(g) {
        var u :| u in s.tasks && s.tasks[u] == Closing(g);
        assert m.tasks[u] == Closing(g);
      }
    }
  }

  lemma CreateTask(s: State, n: int, u: TaskId)
    requires Inv(s) && u in s.tasks && 1 <= n <= MAX_CHANNEL_BUFFER
    ensures TaskOk(CreateStep(s, n), u)
  {
    var m := CreateStep(s, n);
    assert TaskOk(s, u) && s.next + 1 !in s.chans;
    if s.tasks[u].Awaiting? {
      assert forall g :: Registered(m.tasks[u], g) ==> Registered(s.tasks[u], g);
      assert forall h :: h in m.chans && h in s.tasks[u].ids && Scanned(s.tasks[u]) > 0 ==> h in s.chans;
    }
  }

  lemma StartKeeps(s: State, t: TaskId, id: Handle, call: Call)
    requires Inv(s) && t !in s.tasks
    ensures Inv(StartStep(s, t, id, call))
  {
    if id in s.open && call.Close? {
      CloseStartKeeps(s, t, id);
    } else {
      assert id in s.open ==> id in s.chans && id in s.logs;
      hide Inv, ChanOk;
      BecomeKeeps(s, t, StartStep(s, t, id, call).tasks[t]);
    }
  }

  lemma CloseStartKeeps(s: State, t: TaskId, id: Handle)
    requires Inv(s) && t !in s.tasks && id in s.open
    ensures Inv(StartStep(s, t, id, Close))
  {
    var n := StartStep(s, t, id, Close);
    forall h | h in n.chans ensures ChanOk(n, h) { assert ChanOk(s, h); }
    assert ChanOk(s, id);
    CloseStarted(s, t, id);
    hide ChanOk, OneCloser, WatchersOk, InFlightClosed;
    forall u | u in n.tasks && u != t ensures TaskOk(n, u) { assert TaskOk(s, u); }
  }

  lemma CloseStarted(s: State, t: TaskId, id: Handle)
    requires Inv(s) && t !in s.tasks && id in s.open
    ensures var n := StartStep(s, t, id, Close); OneCloser(n) && WatchersOk(n) && InFlightClosed(n)
  {
    hide ChanOk, Registered;
    var n := StartStep(s, t, id, Close);
    forall g, u | g in n.chans && u in n.chans[g].watchers ensures u in n.tasks && Registered(n.tasks[u], g) {
      assert u in s.tasks && Registered(s.tasks[u], g);
    }
    forall u | u in s.tasks && s.tasks[u].Closing? ensures s.tasks[u].ch != id { assert TaskOk(s, u); }
    hide TaskOk;
    forall g | g in n.chans && g !in n.open && !n.chans[g].closed
      ensures exists u :: u in n.tasks && n.tasks[u] == Closing(g) {
      if g == id {
        assert n.tasks[t] == Closing(g);
      } else {
        var u :| u in s.tasks && s.tasks[u] == Closing(g);
        assert n.tasks[u] == Closing(g);
      }
    }
  }

  lemma SendKeeps(s: State, t: TaskId, h: Handle, v: string, wait: bool)
    requires Inv(s) && t in s.tasks && (s.tasks[t] == TrySending(h, v) || (wait && s.tasks[t] == Sending(h, v, false)))
    requires h in s.chans && h in s.logs
    ensures Inv(SendStep(s, t, h, v, wait))
  {
    var c, g := s.chans[h], s.logs[h];
    assert ChanOk(s, h);
    if c.closed || |c.queue| >= c.capacity {
      BecomeKeeps(s, t, SendStep(s, t, h, v, wait).tasks[t]);
    } else {
      assert g.accepted + [v] == g.received + (c.queue + [v]) + g.discarded;
      LockedKeeps(s, t, h, Put(c, v), g.(accepted := g.accepted + [v]), true, Flag(true));
    }
  }

  lemma RecvKeeps(s: State, t: TaskId, h: Handle)
    requires Inv(s) && t in s.tasks && s.tasks[t] == Receiving(h, false) && h in s.chans && h in s.logs
    ensures Inv(RecvStep(s, t, h))
  {
    var c, g := s.chans[h], s.logs[h];
    assert ChanOk(s, h);
    if c.closed || c.queue == [] {
      BecomeKeeps(s, t, RecvStep(s, t, h).tasks[t]);
    } else {
      assert g.received + c.queue == (g.received + [c.queue[0]]) + c.queue[1..];
      LockedKeeps(s, t, h, Taken(c), g.(received := g.received + [c.queue[0]]), false, Received(c.queue[0]));
    }
  }

  lemma CloseKeeps(s: State, t: TaskId, h: Handle)
    requires Inv(s) && t in s.tasks && s.tasks[t] == Closing(h) && h in s.chans && h in s.logs
    ensures Inv(CloseStep(s, t, h))
  {
    var c, g := s.chans[h], s.logs[h];
    assert ChanOk(s, h) && TaskOk(s, t);
    assert g.accepted == g.received + [] + c.queue;
    LockedKeeps(s, t, h, Shut(c), g.(discarded := c.queue), true, Flag(true));
  }

  lemma AwaitKeeps(s: State, t: TaskId, ids: seq<Handle>, timed: bool, pc: Pc)
    requires Inv(s) && t in s.tasks && s.tasks[t] == Awaiting(ids, timed, pc) && AwaitOk(s, t, ids, pc)
    ensures Inv(AwaitStep(s, t, ids, timed, pc))
  {
    hide Inv, AwaitOk, AwaitStep;
    match pc
    case Looking(k) => LookKeeps(s, t, ids, timed, k);
    case Registering(k) => RegisterKeeps(s, t, ids, timed, k);
    case Scanning(k) => ScanKeeps(s, t, ids, timed, k);
    case Blocked => TakeKeeps(s, t, ids, timed);
    case Leaving(k, answer) => LeaveKeeps(s, t, ids, timed, k, answer);
  }

  lemma LookKeeps(s: State, t: TaskId, ids: seq<Handle>, timed: bool, k: nat)
    requires Inv(s) && t in s.tasks && s.tasks[t] == Awaiting(ids, timed, Looking(k)) && AwaitOk(s, t, ids, Looking(k))
    ensures Inv(AwaitStep(s, t, ids, timed, Looking(k)))
  {
    if k < |ids| { assert ids[..k + 1] == ids[..k] + [ids[k]]; } else { assert ids[..k] == ids; }
    BecomeKeeps(s, t, AwaitStep(s, t, ids, timed, Looking(k)).tasks[t]);
  }

  // What one registration, or taking one back, has to show: the rest of the invariant follows.
  ghost predicate WatchesOne(s: State, t: TaskId, ids: seq<Handle>, h: Handle, on: bool, n: State)
    requires t in s.tasks && s.tasks[t].Awaiting?
  {
    && t in n.tasks && n.tasks[t].Awaiting? && n.tasks[t].ids == ids && h in s.chans
    && n == Become(s, t, n.tasks[t]).(chans := Watch(s, t, h, on))
    && Scanned(n.tasks[t]) == 0 && AwaitOk(n, t, ids, n.tasks[t].pc)
    && (forall g :: g != h ==> (Registered(n.tasks[t], g) <==> Registered(s.tasks[t], g)))
    && (Registered(n.tasks[t], h) <==> on)
  }

  ghost predicate MovesOn(s: State, t: TaskId, ids: seq<Handle>, n: State)
    requires t in s.tasks && s.tasks[t].Awaiting?
  {
    && t in n.tasks && !n.tasks[t].Closing? && n == Become(s, t, n.tasks[t])
    && (n.tasks[t].Done? || (n.tasks[t].Awaiting? && n.tasks[t].ids == ids && AwaitOk(n, t, ids, n.tasks[t].pc)))
    && forall h :: Registered(n.tasks[t], h) <==> Registered(s.tasks[t], h)
  }

  lemma WatchesOneKeeps(s: State, t: TaskId, ids: seq<Handle>, h: Handle, on: bool, n: State)
    requires Inv(s) && t in s.tasks && s.tasks[t].Awaiting? && WatchesOne(s, t, ids, h, on, n)
    ensures Inv(n)
  {
    hide Inv, AwaitOk, Registered, Scanned, Become, Watch;
    WatchKeeps(s, t, h, on, n.tasks[t]);
  }

  lemma MovesOnKeeps(s: State, t: TaskId, ids: seq<Handle>, n: State)
    requires Inv(s) && t in s.tasks && s.tasks[t].Awaiting? && MovesOn(s, t, ids, n)
    ensures Inv(n)
  {
    hide Inv, AwaitOk, Registered, Become;
    BecomeKeeps(s, t, n.tasks[t]);
  }

  lemma RegisterKeeps(s: State, t: TaskId, ids: seq<Handle>, timed: bool, k: nat)
    requires Inv(s) && t in s.tasks && s.tasks[t] == Awaiting(ids, timed, Registering(k))
      && AwaitOk(s, t, ids, Registering(k))
    ensures Inv(AwaitStep(s, t, ids, timed, Registering(k)))
  {
    RegisteredOn(s, t, ids, timed, k);
    hide Inv, AwaitOk, AwaitStep, WatchesOne, MovesOn;
    var n := AwaitStep(s, t, ids, timed, Registering(k));
    if k < |ids| { WatchesOneKeeps(s, t, ids, ids[k], true, n); } else { MovesOnKeeps(s, t, ids, n); }
  }

  lemma RegisteredOn(s: State, t: TaskId, ids: seq<Handle>, timed: bool, k: nat)
    requires t in s.tasks && s.tasks[t] == Awaiting(ids, timed, Registering(k)) && AwaitOk(s, t, ids, Registering(k))
    ensures var n := AwaitStep(s, t, ids, timed, Registering(k));
      if k < |ids| then WatchesOne(s, t, ids, ids[k], true, n) else MovesOn(s, t, ids, n)
  {
    if k < |ids| { assert ids[..k + 1] == ids[..k] + [ids[k]]; } else { assert ids[..k] == ids; }
  }

  lemma ScanKeeps(s: State, t: TaskId, ids: seq<Handle>, timed: bool, k: nat)
    requires Inv(s) && t in s.tasks && s.tasks[t] == Awaiting(ids, timed, Scanning(k))
      && AwaitOk(s, t, ids, Scanning(k))
    ensures Inv(AwaitStep(s, t, ids, timed, Scanning(k)))
  {
    var task := AwaitStep(s, t, ids, timed, Scanning(k)).tasks[t];
    ScannedOn(s, t, ids, timed, k);
    hide AwaitOk, Inv;
    BecomeKeeps(s, t, task);
  }

  lemma ScannedOn(s: State, t: TaskId, ids: seq<Handle>, timed: bool, k: nat)
    requires t in s.tasks && s.tasks[t] == Awaiting(ids, timed, Scanning(k)) && AwaitOk(s, t, ids, Scanning(k))
    ensures var n := AwaitStep(s, t, ids, timed, Scanning(k));
      n.tasks[t].Awaiting? && AwaitOk(n, t, ids, n.tasks[t].pc) && n == Become(s, t, n.tasks[t])
        && n.tasks[t].ids == ids
    ensures forall h :: Registered(AwaitStep(s, t, ids, timed, Scanning(k)).tasks[t], h) <==> Registered(s.tasks[t], h)
  {
  }

  lemma LeaveKeeps(s: State, t: TaskId, ids: seq<Handle>, timed: bool, k: nat, answer: int)
    requires Inv(s) && t in s.tasks && s.tasks[t] == Awaiting(ids, timed, Leaving(k, answer))
      && AwaitOk(s, t, ids, Leaving(k, answer))
    ensures Inv(AwaitStep(s, t, ids, timed, Leaving(k, answer)))
  {
    LeftOne(s, t, ids, timed, k, answer);
    hide Inv, AwaitOk, AwaitStep, WatchesOne, MovesOn;
    var n := AwaitStep(s, t, ids, timed, Leaving(k, answer));
    if k < |ids| { WatchesOneKeeps(s, t, ids, ids[k], false, n); } else { MovesOnKeeps(s, t, ids, n); }
  }

  lemma LeftOne(s: State, t: TaskId, ids: seq<Handle>, timed: bool, k: nat, answer: int)
    requires t in s.tasks && s.tasks[t] == Awaiting(ids, timed, Leaving(k, answer))
      && AwaitOk(s, t, ids, Leaving(k, answer))
    ensures var n := AwaitStep(s, t, ids, timed, Leaving(k, answer));
      if k < |ids| then WatchesOne(s, t, ids, ids[k], false, n) else MovesOn(s, t, ids, n)
  {
    if k < |ids| { assert ids[..k + 1] == ids[..k] + [ids[k]]; } else { assert ids[..k] == ids; }
  }

  // Taking a token starts a fresh scan, so nothing is owed to the call until it looks again.
  lemma TakeKeeps(s: State, t: TaskId, ids: seq<Handle>, timed: bool)
    requires Inv(s) && t in s.tasks && s.tasks[t] == Awaiting(ids, timed, Blocked) && AwaitOk(s, t, ids, Blocked)
    ensures Inv(AwaitStep(s, t, ids, timed, Blocked))
  {
    if t in s.tokens {
      var b := Become(s, t, Awaiting(ids, timed, Scanning(0)));
      BecomeKeeps(s, t, Awaiting(ids, timed, Scanning(0)));
      TokenTaken(b, t);
    }
  }

  lemma TokenTaken(b: State, t: TaskId)
    requires Inv(b) && t in b.tasks && b.tasks[t].Awaiting? && Scanned(b.tasks[t]) == 0
    ensures Inv(b.(tokens := b.tokens - {t}))
  {
    hide Registered;
    var n := b.(tokens := b.tokens - {t});
    forall h | h in n.chans ensures ChanOk(n, h) { assert ChanOk(b, h); }
    forall u | u in n.tasks ensures TaskOk(n, u) { assert TaskOk(b, u); }
    assert OneCloser(b) && WatchersOk(b) && InFlightClosed(b);
  }

  // Every step, by any task, keeps the invariant.
  lemma StepKeeps(s: State, a: Action)
    requires Inv(s)
    ensures Inv(Step(s, a))
  {
    hide ChanOk, OneCloser, WatchersOk, InFlightClosed, StartStep, CreateStep, SendStep, RecvStep, CloseStep, AwaitStep;
    match a
    case Create(n) => CreateKeeps(s, n);
    case Start(t, id, call) => if t !in s.tasks { StartKeeps(s, t, id, call); }
    case StartAwait(t, ids, timed) => if t !in s.tasks { BecomeKeeps(s, t, Step(s, a).tasks[t]); }
    case Timeout(t) => if Step(s, a) != s { assert TaskOk(s, t); BecomeKeeps(s, t, Step(s, a).tasks[t]); }
    case Go(t) =>
      if t in s.tasks {
        assert TaskOk(s, t);
        match s.tasks[t]
        case Sending(h, v, asleep) => if !asleep { SendKeeps(s, t, h, v, true); }
        case TrySending(h, v) => SendKeeps(s, t, h, v, false);
        case Receiving(h, asleep) => if !asleep { RecvKeeps(s, t, h); }
        case Closing(h) => CloseKeeps(s, t, h);
        case Awaiting(ids, timed, pc) => AwaitKeeps(s, t, ids, timed, pc);
        case Done(_) =>
      }
  }

  // ---- whole runs ----

  // A state some interleaving of steps reaches, starting from nothing.
  ghost function Run(steps: seq<Action>): (s: State)
    ensures Inv(s)
  {
    if steps == [] then Initial()
    else
      var before := Run(steps[..|steps| - 1]);
      StepKeeps(before, steps[|steps| - 1]);
      Step(before, steps[|steps| - 1])
  }

  // No lost wake-up: an awaitAny call that is blocked while one of its channels is ready has its
  // token waiting, whatever the other tasks did in between.
  lemma NoLostWakeup(steps: seq<Action>, t: TaskId, j: nat)
    requires var s := Run(steps); t in s.tasks && s.tasks[t].Awaiting? && s.tasks[t].pc.Blocked? && j < |s.tasks[t].ids|
    ensures var s := Run(steps); var h := s.tasks[t].ids[j];
      h in s.chans
        && (s.chans[h].queue != [] || s.chans[h].closed ==> t in s.tokens && Step(s, Go(t)).tasks[t].pc == Scanning(0))
  {
    assert TaskOk(Run(steps), t);
  }

  // No sleeping sender while there is room, no sleeping receiver while a value waits, and nobody
  // sleeping on a closed channel.
  lemma NoLostBroadcast(steps: seq<Action>, t: TaskId)
    requires t in Run(steps).tasks
    ensures var s := Run(steps); match s.tasks[t]
      case Sending(h, _, true) => h in s.chans && !s.chans[h].closed && |s.chans[h].queue| == s.chans[h].capacity
      case Receiving(h, true) => h in s.chans && !s.chans[h].closed && s.chans[h].queue == []
      case _ => true
  {
    var s := Run(steps);
    assert TaskOk(s, t);
    if s.tasks[t].Sending? { assert ChanOk(s, s.tasks[t].ch); }
  }

  // Conservation, first in first out: what a channel accepted is what was received from it, then
  // what waits in it, then what closing it discarded. A handle is open, closed, or being closed.
  lemma Conserved(steps: seq<Action>, h: Handle)
    requires h in Run(steps).chans
    ensures var s := Run(steps); var c, g := s.chans[h], s.logs[h];
      && g.accepted == g.received + c.queue + g.discarded
      && |c.queue| <= c.capacity <= MAX_CHANNEL_BUFFER
      && (c.closed ==> c.queue == [])
      && (c.closed ==> h !in s.open)
      && (h in s.open || c.closed || exists t :: t in s.tasks && s.tasks[t] == Closing(h))
  {
    assert ChanOk(Run(steps), h);
  }

  // What one state keeps of an earlier one: channels stay, histories only grow, a handle taken out
  // of the registry never comes back, and a closed channel accepts and delivers nothing more.
  ghost predicate Later(s: State, n: State) {
    && s.next <= n.next
    && (forall h :: h in s.chans ==> h in n.chans && h in s.logs && h in n.logs && ChanLater(s, n, h))
    && (forall t :: t in s.tasks && s.tasks[t].Done? ==> t in n.tasks && n.tasks[t] == s.tasks[t])
  }

  ghost predicate ChanLater(s: State, n: State, h: Handle)
    requires h in s.chans && h in n.chans && h in s.logs && h in n.logs
  {
    && n.chans[h].capacity == s.chans[h].capacity
    && s.logs[h].accepted <= n.logs[h].accepted && s.logs[h].received <= n.logs[h].received
    && (h !in s.open ==> h !in n.open)
    && (s.chans[h].closed ==> n.chans[h].closed && n.logs[h] == s.logs[h])
  }

  lemma StepLater(s: State, a: Action)
    requires Inv(s)
    ensures Later(s, Step(s, a))
  {
    hide ChanOk, TaskOk, OneCloser, WatchersOk, InFlightClosed, GoStep, StartStep, CreateStep;
    match a
    case Create(n) => CreateLater(s, n);
    case Start(t, id, call) => if t !in s.tasks { StartLater(s, t, id, call); }
    case StartAwait(t, ids, timed) =>
    case Timeout(t) =>
    case Go(t) => if t in s.tasks { GoLater(s, t); }
  }

  lemma CreateLater(s: State, n: int)
    requires Inv(s)
    ensures Later(s, CreateStep(s, n))
  {
    hide OneCloser, WatchersOk, InFlightClosed, ChanOk, TaskOk;
    assert s.next + 1 !in s.chans;
  }

  lemma StartLater(s: State, t: TaskId, id: Handle, call: Call)
    requires Inv(s) && t !in s.tasks
    ensures Later(s, StartStep(s, t, id, call))
  {
    hide OneCloser, WatchersOk, InFlightClosed, ChanOk, TaskOk;
  }

  lemma GoLater(s: State, t: TaskId)
    requires Inv(s) && t in s.tasks
    ensures Later(s, GoStep(s, t))
  {
    hide OneCloser, WatchersOk, InFlightClosed, ChanOk, AwaitOk, AwaitStep;
    assert TaskOk(s, t);
    match s.tasks[t]
    case Sending(h, v, asleep) =>
    case TrySending(h, v) =>
    case Receiving(h, asleep) =>
    case Closing(h) =>
    case Awaiting(ids, timed, pc) => AwaitLater(s, t, ids, timed, pc);
    case Done(_) =>
  }

  lemma AwaitLater(s: State, t: TaskId, ids: seq<Handle>, timed: bool, pc: Pc)
    requires Inv(s) && t in s.tasks && s.tasks[t] == Awaiting(ids, timed, pc) && AwaitOk(s, t, ids, pc)
    ensures Later(s, AwaitStep(s, t, ids, timed, pc))
  {
    hide OneCloser, WatchersOk, InFlightClosed, ChanOk, TaskOk, WakeupPending, Registered;
  }

  lemma LaterSelf(s: State)
    requires Inv(s)
    ensures Later(s, s)
  {
  }

  lemma LaterTwice(a: State, b: State, c: State)
    requires Later(a, b) && Later(b, c)
    ensures Later(a, c)
  {
    forall h | h in a.chans ensures h in c.chans && h in c.logs && ChanLater(a, c, h) {
      assert ChanLater(a, b, h) && ChanLater(b, c, h);
    }
  }

  // Every state of a run is kept by every later state of it.
  lemma {:induction false} RunLater(steps: seq<Action>, more: seq<Action>)
    ensures Later(Run(steps), Run(steps + more))
  {
    hide Later, Step, Inv;
    if more == [] {
      assert steps + more == steps;
      LaterSelf(Run(steps));
    } else {
      var all := steps + more;
      var most := more[..|more| - 1];
      assert all[..|all| - 1] == steps + most;
      RunLater(steps, most);
      StepLater(Run(steps + most), all[|all| - 1]);
      LaterTwice(Run(steps), Run(steps + most), Run(all));
    }
  }

  // A fresh handle was never minted before.
  lemma HandlesFresh(steps: seq<Action>, n: int)
    requires 1 <= n <= 4096
    ensures var s, m := Run(steps), Step(Run(steps), Create(n));
      m.chans.Keys - s.chans.Keys == {m.next} && m.next in m.open && m.next !in s.chans && m.chans[m.next].capacity == n
  {
  }

  // awaitAny answers a channel that is ready when it answers, and every channel before it in its
  // list was looked at and found not ready during the same scan.
  lemma AwaitAnswers(steps: seq<Action>, t: TaskId)
    requires var s := Run(steps); t in s.tasks && s.tasks[t].Awaiting? && s.tasks[t].pc.Scanning?
    requires var n := Step(Run(steps), Go(t)); n.tasks[t].Awaiting? && n.tasks[t].pc.Leaving?
    ensures var s, n := Run(steps), Step(Run(steps), Go(t)); var i := n.tasks[t].pc.answer;
      && 0 <= i < |s.tasks[t].ids| && i == s.tasks[t].pc.k && s.tasks[t].ids[i] in s.chans
        && Ready(s.chans[s.tasks[t].ids[i]])
      && forall j :: 0 <= j < i && s.tasks[t].ids[j] in s.chans && Ready(s.chans[s.tasks[t].ids[j]]) ==> t in s.tokens
  {
    assert TaskOk(Run(steps), t);
  }

  // ---- what calls are answered ----

  // In some state of the run the call on `ids` looked at place i, and the channel there was ready.
  ghost predicate SawReady(steps: seq<Action>, t: TaskId, ids: seq<Handle>, i: int) {
    exists m :: 0 <= m <= |steps| && LooksAtReady(Run(steps[..m]), t, ids, i)
  }

  ghost predicate LooksAtReady(s: State, t: TaskId, ids: seq<Handle>, i: int) {
    && t in s.tasks && s.tasks[t].Awaiting? && s.tasks[t].ids == ids && 0 <= i < |ids|
    && s.tasks[t].pc == Scanning(i) && ids[i] in s.chans && (s.chans[ids[i]].queue != [] || s.chans[ids[i]].closed)
  }

  // At some step of the run the call's deadline passed while it was blocked.
  ghost predicate TimedOut(steps: seq<Action>, t: TaskId) {
    exists m :: 0 <= m < |steps| && steps[m] == Timeout(t) && CanTimeOut(Run(steps[..m]), t)
  }

  ghost predicate CanTimeOut(s: State, t: TaskId) {
    t in s.tasks && s.tasks[t].Awaiting? && s.tasks[t].timed && s.tasks[t].pc.Blocked?
  }

  ghost predicate Earned(steps: seq<Action>, t: TaskId, ids: seq<Handle>, i: int) {
    SawReady(steps, t, ids, i) || (i == -1 && TimedOut(steps, t))
  }

  lemma EarnedLonger(steps: seq<Action>, a: Action, t: TaskId, ids: seq<Handle>, i: int)
    requires Earned(steps, t, ids, i)
    ensures Earned(steps + [a], t, ids, i)
  {
    hide LooksAtReady, CanTimeOut, Run;
    var all := steps + [a];
    if SawReady(steps, t, ids, i) {
      var m :| 0 <= m <= |steps| && LooksAtReady(Run(steps[..m]), t, ids, i);
      assert all[..m] == steps[..m];
    } else {
      var m :| 0 <= m < |steps| && steps[m] == Timeout(t) && CanTimeOut(Run(steps[..m]), t);
      assert all[m] == steps[m] && all[..m] == steps[..m];
    }
  }

  // Other calls' steps leave a wait where it stands.
  lemma OthersWait(s: State, a: Action, t: TaskId)
    requires Inv(s) && a != Go(t) && a != Timeout(t)
    requires (t in s.tasks && s.tasks[t].Awaiting?) || (t in Step(s, a).tasks && Step(s, a).tasks[t].Awaiting?)
    ensures t in Step(s, a).tasks && if t in s.tasks then Step(s, a).tasks[t] == s.tasks[t]
      else Step(s, a).tasks[t].Awaiting? && Step(s, a).tasks[t].pc == Looking(0)
  {
    hide ChanOk, OneCloser, WatchersOk, InFlightClosed, TaskOk, GoStep;
    match a
    case Go(u) => if u in s.tasks { OthersGo(s, u, t); }
    case _ =>
  }

  ghost predicate Undisturbed(s: State, n: State, t: TaskId) {
    && (t in n.tasks <==> t in s.tasks)
    && (t in s.tasks ==> if s.tasks[t].Awaiting? then n.tasks[t] == s.tasks[t] else !n.tasks[t].Awaiting?)
  }

  lemma OthersGo(s: State, u: TaskId, t: TaskId)
    requires Inv(s) && u in s.tasks && u != t
    ensures Undisturbed(s, GoStep(s, u), t)
  {
    hide Undisturbed, ChanOk, OneCloser, WatchersOk, InFlightClosed, SendStep, RecvStep, CloseStep, AwaitStep, AwaitOk;
    assert TaskOk(s, u);
    Standing(s, t);
    match s.tasks[u]
    case Sending(h, v, asleep) => SendOthers(s, u, h, v, true, t);
    case TrySending(h, v) => SendOthers(s, u, h, v, false, t);
    case Receiving(h, asleep) => RecvOthers(s, u, h, t);
    case Closing(h) => CloseOthers(s, u, h, t);
    case Awaiting(ids, timed, pc) => AwaitOthers(s, u, ids, timed, pc, t);
    case Done(_) =>
  }

  lemma Standing(s: State, t: TaskId)
    ensures Undisturbed(s, s, t)
  {
  }

  lemma SendOthers(s: State, u: TaskId, h: Handle, v: string, wait: bool, t: TaskId)
    requires h in s.chans && h in s.logs && u in s.tasks && u != t
    ensures Undisturbed(s, SendStep(s, u, h, v, wait), t)
  {
  }

  lemma RecvOthers(s: State, u: TaskId, h: Handle, t: TaskId)
    requires h in s.chans && h in s.logs && u in s.tasks && u != t
    ensures Undisturbed(s, RecvStep(s, u, h), t)
  {
  }

  lemma CloseOthers(s: State, u: TaskId, h: Handle, t: TaskId)
    requires h in s.chans && h in s.logs && u in s.tasks && u != t
    ensures Undisturbed(s, CloseStep(s, u, h), t)
  {
  }

  lemma AwaitOthers(s: State, u: TaskId, ids: seq<Handle>, timed: bool, pc: Pc, t: TaskId)
    requires u in s.tasks && s.tasks[u] == Awaiting(ids, timed, pc) && AwaitOk(s, u, ids, pc) && u != t
    ensures Undisturbed(s, AwaitStep(s, u, ids, timed, pc), t)
  {
    hide Registered, WakeupPending;
  }

  // A wait comes to leaving with an answer from a scan that found it ready or from its deadline.
  lemma LeavingFrom(s: State, a: Action, t: TaskId)
    requires Inv(s)
    requires var n := Step(s, a); t in n.tasks && n.tasks[t].Awaiting? && n.tasks[t].pc.Leaving?
    ensures var ids, i := Step(s, a).tasks[t].ids, Step(s, a).tasks[t].pc.answer;
      || (t in s.tasks && s.tasks[t].Awaiting? && s.tasks[t].ids == ids && s.tasks[t].pc.Leaving?
          && s.tasks[t].pc.answer == i)
      || LooksAtReady(s, t, ids, i)
      || (i == -1 && a == Timeout(t) && CanTimeOut(s, t))
  {
    hide ChanOk, OneCloser, WatchersOk, InFlightClosed, AwaitOk, AwaitStep;
    if a == Go(t) {
      assert t in s.tasks && TaskOk(s, t);
      if s.tasks[t].Awaiting? { AwaitLeaves(s, t, s.tasks[t].ids, s.tasks[t].timed, s.tasks[t].pc); }
    } else if a != Timeout(t) {
      OthersWait(s, a, t);
    }
  }

  lemma AwaitLeaves(s: State, t: TaskId, ids: seq<Handle>, timed: bool, pc: Pc)
    requires t in s.tasks && s.tasks[t] == Awaiting(ids, timed, pc) && AwaitOk(s, t, ids, pc)
    ensures var task := AwaitStep(s, t, ids, timed, pc).tasks[t];
      task.Awaiting? && task.pc.Leaving? ==>
        task.ids == ids && if pc.Leaving? then pc.answer == task.pc.answer else LooksAtReady(s, t, ids, task.pc.answer)
  {
    hide WakeupPending, Registered;
  }

  lemma {:induction false} LeavingEarned(steps: seq<Action>, t: TaskId)
    requires var s := Run(steps); t in s.tasks && s.tasks[t].Awaiting? && s.tasks[t].pc.Leaving?
    ensures var task := Run(steps).tasks[t]; Earned(steps, t, task.ids, task.pc.answer)
  {
    if steps != [] {
      var most, a := steps[..|steps| - 1], steps[|steps| - 1];
      var s, task := Run(most), Run(steps).tasks[t];
      hide Step, Inv, LooksAtReady, CanTimeOut, Earned;
      assert steps == most + [a];
      LeavingFrom(s, a, t);
      if LooksAtReady(s, t, task.ids, task.pc.answer) {
        LookedNow(steps, |most|, t, task.ids, task.pc.answer);
      } else if task.pc.answer == -1 && a == Timeout(t) && CanTimeOut(s, t) {
        TimedOutNow(steps, |most|, t, task.ids);
      } else {
        LeavingEarned(most, t);
        EarnedLonger(most, a, t, task.ids, task.pc.answer);
      }
    }
  }

  lemma LookedNow(steps: seq<Action>, m: nat, t: TaskId, ids: seq<Handle>, i: int)
    requires m <= |steps| && LooksAtReady(Run(steps[..m]), t, ids, i)
    ensures Earned(steps, t, ids, i)
  {
  }

  lemma TimedOutNow(steps: seq<Action>, m: nat, t: TaskId, ids: seq<Handle>)
    requires m < |steps| && steps[m] == Timeout(t) && CanTimeOut(Run(steps[..m]), t)
    ensures Earned(steps, t, ids, -1)
  {
  }

  // What awaitAny answers at last, in every run. A place in its list: the channel there was ready when
  // the call looked at it, or had been taken out of the registry before the call began to wait. -1: its
  // deadline passed. Unknown: the list names a handle that was never minted.
  lemma AwaitEnds(steps: seq<Action>, a: Action, t: TaskId)
    requires t in Run(steps).tasks && Run(steps).tasks[t].Awaiting?
    requires var n := Run(steps + [a]); t in n.tasks && n.tasks[t].Done?
    ensures var s := Run(steps); var ids, answer := s.tasks[t].ids, Run(steps + [a]).tasks[t].answer;
      match answer
      case Position(i) => SawReady(steps, t, ids, i) || (i == -1 && TimedOut(steps, t))
        || (0 <= i < |ids| && s.tasks[t].pc == Looking(i) && 1 <= ids[i] <= s.next && ids[i] !in s.open)
      case Unknown => exists i :: 0 <= i < |ids| && s.tasks[t].pc == Looking(i) && !(1 <= ids[i] <= s.next)
      case _ => false
  {
    var s := Run(steps);
    assert (steps + [a])[..|steps|] == steps;
    AwaitFinishes(s, a, t);
    if s.tasks[t].pc.Leaving? {
      hide Step, Inv, SawReady, TimedOut;
      LeavingEarned(steps, t);
    }
  }

  lemma AwaitFinishes(s: State, a: Action, t: TaskId)
    requires Inv(s) && t in s.tasks && s.tasks[t].Awaiting?
    requires var n := Step(s, a); t in n.tasks && n.tasks[t].Done?
    ensures var ids, answer := s.tasks[t].ids, Step(s, a).tasks[t].answer;
      match s.tasks[t].pc
      case Leaving(_, i) => answer == Position(i)
      case Looking(i) => i < |ids| && ids[i] !in s.open && if 1 <= ids[i] <= s.next then answer == Position(i)
        else answer == Unknown
      case _ => false
  {
    hide ChanOk, OneCloser, WatchersOk, InFlightClosed, WakeupPending, Registered;
    if a == Go(t) {
      assert TaskOk(s, t);
    } else if a != Timeout(t) {
      OthersWait(s, a, t);
    }
  }

  // ---- what was sent and what was received ----

  // The value an answered send put on channel h, if this step answered one true.
  ghost function SentBy(s: State, n: State, a: Action, h: Handle): seq<string> {
    if a.Go? && a.t in s.tasks && a.t in n.tasks && n.tasks[a.t] == Done(Flag(true)) then
      match s.tasks[a.t]
      case Sending(ch, v, _) => if ch == h then [v] else []
      case TrySending(ch, v) => if ch == h then [v] else []
      case _ => []
    else []
  }

  // The value a receive on channel h was answered with, if this step answered one.
  ghost function GotBy(s: State, n: State, a: Action, h: Handle): seq<string> {
    if a.Go? && a.t in s.tasks && s.tasks[a.t].Receiving? && s.tasks[a.t].ch == h && a.t in n.tasks
      && n.tasks[a.t].Done? && n.tasks[a.t].answer.Received?
    then [n.tasks[a.t].answer.v]
    else []
  }

  // In the order of a run's steps, the values its sends on h were answered true for, and the values
  // its receives on h were answered with.
  ghost function Sent(steps: seq<Action>, h: Handle): seq<string> {
    if steps == [] then []
    else
      var most := steps[..|steps| - 1];
      Sent(most, h) + SentBy(Run(most), Run(steps), steps[|most|], h)
  }

  ghost function Got(steps: seq<Action>, h: Handle): seq<string> {
    if steps == [] then []
    else
      var most := steps[..|steps| - 1];
      Got(most, h) + GotBy(Run(most), Run(steps), steps[|most|], h)
  }

  function AcceptedOn(s: State, h: Handle): seq<string> {
    if h in s.logs then s.logs[h].accepted else []
  }

  function ReceivedOn(s: State, h: Handle): seq<string> {
    if h in s.logs then s.logs[h].received else []
  }

  lemma StepTells(s: State, a: Action, h: Handle)
    requires Inv(s)
    ensures AcceptedOn(Step(s, a), h) == AcceptedOn(s, h) + SentBy(s, Step(s, a), a, h)
    ensures ReceivedOn(Step(s, a), h) == ReceivedOn(s, h) + GotBy(s, Step(s, a), a, h)
  {
    hide ChanOk, OneCloser, WatchersOk, InFlightClosed, AwaitOk, SendStep, RecvStep, CloseStep, AwaitStep;
    match a
    case Go(u) =>
      if u in s.tasks {
        assert TaskOk(s, u);
        match s.tasks[u]
        case Sending(g, v, asleep) => if !asleep { SendTells(s, u, g, v, true, h); }
        case TrySending(g, v) => SendTells(s, u, g, v, false, h);
        case Receiving(g, asleep) => if !asleep { RecvTells(s, u, g, h); }
        case Closing(g) => CloseTells(s, u, g, h);
        case Awaiting(ids, timed, pc) => AwaitTells(s, u, ids, timed, pc);
        case Done(_) =>
      }
    case _ =>
  }

  lemma SendTells(s: State, u: TaskId, g: Handle, v: string, wait: bool, h: Handle)
    requires g in s.chans && g in s.logs
    ensures var n := SendStep(s, u, g, v, wait);
      && u in n.tasks && ReceivedOn(n, h) == ReceivedOn(s, h)
      && AcceptedOn(n, h) == AcceptedOn(s, h) + if n.tasks[u] == Done(Flag(true)) && g == h then [v] else []
  {
  }

  lemma RecvTells(s: State, u: TaskId, g: Handle, h: Handle)
    requires g in s.chans && g in s.logs
    ensures var n := RecvStep(s, u, g);
      && u in n.tasks && AcceptedOn(n, h) == AcceptedOn(s, h)
      && ReceivedOn(n, h) == ReceivedOn(s, h) + if n.tasks[u].Done? && n.tasks[u].answer.Received? && g == h
                                                then [n.tasks[u].answer.v] else []
  {
  }

  lemma CloseTells(s: State, u: TaskId, g: Handle, h: Handle)
    requires g in s.chans && g in s.logs
    ensures AcceptedOn(CloseStep(s, u, g), h) == AcceptedOn(s, h)
    ensures ReceivedOn(CloseStep(s, u, g), h) == ReceivedOn(s, h)
  {
  }

  lemma AwaitTells(s: State, t: TaskId, ids: seq<Handle>, timed: bool, pc: Pc)
    requires t in s.tasks && s.tasks[t] == Awaiting(ids, timed, pc) && AwaitOk(s, t, ids, pc)
    ensures AwaitStep(s, t, ids, timed, pc).logs == s.logs
  {
  }

  // In every run and on every channel: what was accepted is what the sends were answered true for, what
  // was received is what the receives were answered with, and so each receive gets the oldest value
  // sent and not yet received.
  lemma {:induction false} Told(steps: seq<Action>, h: Handle)
    ensures AcceptedOn(Run(steps), h) == Sent(steps, h) && ReceivedOn(Run(steps), h) == Got(steps, h)
    ensures Got(steps, h) <= Sent(steps, h)
  {
    hide Step, Inv, AcceptedOn, ReceivedOn, SentBy, GotBy;
    if steps == [] {
      NothingTold(h);
    } else {
      var most := steps[..|steps| - 1];
      Told(most, h);
      StepTells(Run(most), steps[|most|], h);
    }
    ReceivedFirst(Run(steps), h);
  }

  lemma NothingTold(h: Handle)
    ensures AcceptedOn(Initial(), h) == [] && ReceivedOn(Initial(), h) == []
  {
  }

  lemma ReceivedFirst(s: State, h: Handle)
    requires Inv(s)
    ensures ReceivedOn(s, h) <= AcceptedOn(s, h)
  {
    hide TaskOk, OneCloser, WatchersOk, InFlightClosed;
    if h in s.chans { assert ChanOk(s, h); }
  }

  // A send or a receive that got no value through says why, and leaves the channel as it was.
  lemma RefusalsSay(s: State, t: TaskId)
    requires Inv(s) && t in s.tasks && !s.tasks[t].Awaiting? && !s.tasks[t].Closing? && !s.tasks[t].Done?
    requires Step(s, Go(t)).tasks[t].Done?
    ensures var h, n := s.tasks[t].ch, Step(s, Go(t));
      h in s.chans && h in n.chans && match n.tasks[t].answer
      case Flag(b) => !s.tasks[t].Receiving?
        && (b <==> !s.chans[h].closed && |s.chans[h].queue| < s.chans[h].capacity)
        && (!b ==> n.chans == s.chans)
      case Received(_) => s.tasks[t].Receiving? && !s.chans[h].closed && s.chans[h].queue != []
      case Closed => s.tasks[t].Receiving? && s.chans[h].closed && n.chans == s.chans
      case _ => false
  {
    assert TaskOk(s, t);
  }

  // A call that ends at its lookup was given a handle that is not open: never minted, or closed.
  lemma EndedAtOnce(s: State, t: TaskId, id: Handle, call: Call)
    requires Inv(s) && t !in s.tasks
    ensures var n := Step(s, Start(t, id, call)); t in n.tasks && (n.tasks[t].Done? <==> id !in s.open)
    ensures var n := Step(s, Start(t, id, call));
      if !n.tasks[t].Done? then true
      else if 1 <= id <= s.next then n.tasks[t].answer == if call == Recv then Closed else Flag(false)
      else n.tasks[t].answer == Unknown
    ensures id !in s.open ==> Step(s, Start(t, id, call)).(tasks := s.tasks) == s
  {
  }
}
