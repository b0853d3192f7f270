/** The clients, delegates, locks, message queue and poll thread of gps/utils/LocTimer.cpp around its two
    containers. An action is one atomic step; a run is any sequence of enabled actions. */
module LocTimerService {
  import opened Wrappers
  import opened LocHeap
  import opened Deadlines

  type Clock = t: TimeSpec | ClockReading(t) witness TimeSpec(1, 0)

  /** mSwTimers and mHwTimers. */
  datatype Kind = Sw | Hw

  datatype Msg = PushMsg(kind: Kind, timer: Timer) | RemoveMsg(kind: Kind, timer: Timer) | ExpireMsg(kind: Kind)

  /** A live LocTimerDelegate: mClient, the client whose lock it shares, its container and whether
      mContainer is still set, and its deadline. */
  datatype Delegate = Delegate(client: Option<nat>, lock: nat, kind: Kind, contained: bool, timer: Timer)

  datatype Stage = Disarm | RemovePoll | SendMsg

  /** The poll thread: blocked in epoll_wait, or calling expire() on the containers still to do. */
  datatype Poll = Waiting | Expiring(todo: seq<Kind>, stage: Stage)

  /** The message thread inside MsgTimerExpire: its container, the time it has read, and whether the pop to
      come is the first. */
  datatype Handling = Handling(kind: Kind, now: Clock, first: bool)

  datatype Event = Started(id: nat) | Stopped(id: nat, byExpiry: bool) | CalledBack(id: nat) | Freed(id: nat)

  /** A LocTimer maps to its mTimer, a delegate to its fields, a LocSharedLock, named after the client
      that made it, to its mRef; what is not in a map has been deleted. */
  datatype State = State(
    now: Clock, sw: Container, hw: Container, queue: seq<Msg>, poll: Poll, handling: Option<Handling>,
    clients: map<nat, Option<nat>>, delegates: map<nat, Delegate>, locks: map<nat, int>,
    nextId: nat, log: seq<Event>)

  const IDLE := Container(Empty, false, None)

  function Init(now: Clock): State {
    State(now, IDLE, IDLE, [], Waiting, None, map[], map[], map[], 0, [])
  }

  function At(s: State, k: Kind): Container {
    if k == Sw then s.sw else s.hw
  }

  function With(s: State, k: Kind, c: Container): State {
    if k == Sw then s.(sw := c) else s.(hw := c)
  }

  // ---------- Reference counts ----------

  function Share(locks: map<nat, int>, l: nat): map<nat, int>
    requires l in locks
  {
    locks[l := locks[l] + 1]
  }

  function Drop(locks: map<nat, int>, l: nat): map<nat, int>
    requires l in locks
  {
    if locks[l] == 1 then locks - {l} else locks[l := locks[l] - 1]
  }

  // ---------- No step touches what has been deleted ----------

  /** Every reference that some step may follow leads to a live object. */
  ghost predicate MemSafe(s: State) {
    && ClientsSafe(s)
    && (forall c :: c in s.clients ==> c in s.locks)
    && (forall id :: id in s.delegates ==> s.delegates[id].lock in s.locks)
    && (forall i :: 0 <= i < |s.queue| && s.queue[i].RemoveMsg? ==> s.queue[i].timer.id in s.delegates)
    && (forall t :: t in Contents(s.sw.heap) || t in Contents(s.hw.heap) ==> t.id in s.delegates)
    && Ordered(RANKED, s.sw.heap) && SizesExact(s.sw.heap)
    && Ordered(RANKED, s.hw.heap) && SizesExact(s.hw.heap)
  }

  ghost predicate ClientsSafe(s: State) {
    && (forall c :: c in s.clients && s.clients[c].Some? ==> s.clients[c].value in s.delegates)
    && (forall id :: id in s.delegates && s.delegates[id].client.Some? ==> s.delegates[id].client.value in s.clients)
  }

  // ---------- The steps ----------

  function StartTimer(s: State, c: nat, timeOutInMs: nat, k: Kind): State
    requires c in s.clients && c in s.locks && timeOutInMs <= UINT32_MAX
  {
    if s.clients[c].Some? then s
    else
      FutureTimeIsExact(s.now, timeOutInMs);
      Ticking(s, c, k, Timer(s.nextId, FutureTime(s.now, timeOutInMs)))
  }

  /** A new delegate for `timer`, which shares its client's lock and is sent to the container. */
  function Ticking(s: State, c: nat, k: Kind, timer: Timer): State
    requires c in s.locks
  {
    s.(clients := s.clients[c := Some(s.nextId)],
       locks := Share(s.locks, c),
       delegates := s.delegates[s.nextId := Delegate(Some(c), c, k, true, timer)],
       queue := s.queue + [PushMsg(k, timer)],
       nextId := s.nextId + 1,
       log := s.log + [Started(s.nextId)])
  }

  /** destroyLocked: forget the client, and leave the container once. */
  function DestroyLocked(s: State, id: nat): State
    requires id in s.delegates
  {
    var d := s.delegates[id];
    s.(delegates := s.delegates[id := d.(client := None, contained := false)],
       queue := if d.contained then s.queue + [RemoveMsg(d.kind, d.timer)] else s.queue)
  }

  function StopTimer(s: State, c: nat, byExpiry: bool): State
    requires c in s.clients && (s.clients[c].Some? ==> s.clients[c].value in s.delegates)
  {
    if s.clients[c].None? then s
    else
      var id := s.clients[c].value;
      DestroyLocked(s, id).(clients := s.clients[c := None], log := s.log + [Stopped(id, byExpiry)])
  }

  function DestroyTimer(s: State, c: nat): State
    requires c in s.clients && (s.clients[c].Some? ==> s.clients[c].value in s.delegates) && c in s.locks
  {
    var s' := StopTimer(s, c, false);
    s'.(locks := Drop(s'.locks, c), clients := s'.clients - {c})
  }

  /** LocTimerDelegate::expire: stop the client, and call it back if that stop was the first. */
  function ExpireOne(s: State, t: Timer): State
    requires ClientsSafe(s) && t.id in s.delegates
  {
    var client := s.delegates[t.id].client;
    if client.Some? && s.clients[client.value].Some? then
      var s' := StopTimer(s, client.value, true);
      s'.(log := s'.log + [CalledBack(t.id)])
    else s
  }

  /** The end of a delegate's life: it drops its lock. */
  function Free(s: State, id: nat): State
    requires id in s.delegates && s.delegates[id].lock in s.locks
  {
    s.(delegates := s.delegates - {id}, locks := Drop(s.locks, s.delegates[id].lock), log := s.log + [Freed(id)])
  }

  /** What the loop of MsgTimerExpire pops next. The first pop asks nothing. */
  function NextPop(s: State, h: Handling): Option<Timer> {
    var heap := At(s, h.kind).heap;
    if h.first || Due(heap, Timer(0, h.now)) then Top(heap) else None
  }

  function WithoutTop(s: State, k: Kind): State {
    if At(s, k).heap.Empty? then s else With(s, k, At(s, k).(heap := Popped(RANKED, At(s, k).heap)))
  }

  /** One turn of that loop, a pop and the expiry of what it popped, or the end of the message. Between turns
      the other threads run, and the call-back of the turn before, which may stop and start any timer. */
  ghost function Turn(s: State): State
    requires s.handling.Some? && MemSafe(s)
  {
    var h := s.handling.value;
    match NextPop(s, h)
    case None => With(s, h.kind, UpdateSoonest(At(s, h.kind), None)).(handling := None)
    case Some(t) =>
      assert t in Contents(At(s, h.kind).heap);
      ExpireOne(WithoutTop(s, h.kind), t).(handling := Some(h.(first := false)))
  }

  /** The message thread takes the first message and processes it, up to the loop if it has one. */
  ghost function DeliverMsg(s: State): State
    requires s.queue != [] && MemSafe(s)
  {
    var s' := s.(queue := s.queue[1..]);
    match s.queue[0]
    case PushMsg(k, t) => With(s', k, AfterPush(At(s, k), t))
    case RemoveMsg(k, t) => Free(With(s', k, AfterRemove(At(s, k), t)), t.id)
    case ExpireMsg(k) => s'.(handling := Some(Handling(k, s.now, true)))
  }

  /** epoll_wait reports a polled descriptor whose timer has expired. */
  predicate Readable(s: State, k: Kind) {
    At(s, k).polled && At(s, k).armed.Some? && At(s, k).armed.value.Nanos() <= s.now.Nanos()
  }

  /** The three statements of LocTimerContainer::expire, one at a time, for the container at hand. */
  function PollAdvance(s: State): State
    requires s.poll.Expiring? && s.poll.todo != []
  {
    var k := s.poll.todo[0];
    match s.poll.stage
    case Disarm => With(s, k, At(s, k).(armed := SetTime(TimeSpec(0, 0)))).(poll := s.poll.(stage := RemovePoll))
    case RemovePoll => With(s, k, At(s, k).(polled := false)).(poll := s.poll.(stage := SendMsg))
    case SendMsg =>
      s.(queue := s.queue + [ExpireMsg(k)],
         poll := if |s.poll.todo| == 1 then Waiting else Expiring(s.poll.todo[1..], Disarm))
  }

  datatype Action =
    | Create(c: nat)
    | Start(c: nat, timeOutInMs: nat, k: Kind, available: bool)
    | Stop(c: nat)
    | Destroy(c: nat)
    | Wake(todo: seq<Kind>)
    | PollStep
    | Deliver
    | ExpiryTurn
    | Tick(to: Clock)

  ghost predicate Enabled(s: State, a: Action) {
    match a
    case Create(c) => c !in s.clients && c !in s.locks
    case Start(c, ms, _, _) => c in s.clients && ms <= UINT32_MAX
    case Stop(c) => c in s.clients
    case Destroy(c) => c in s.clients
    case Wake(todo) => s.poll.Waiting? && todo != [] && forall i :: 0 <= i < |todo| ==> Readable(s, todo[i])
    case PollStep => s.poll.Expiring? && s.poll.todo != []
    case Deliver => s.queue != [] && s.handling.None?
    case ExpiryTurn => s.handling.Some?
    case Tick(to) => s.now.Nanos() <= to.Nanos()
  }

  /** `available` is whether a container could be had for the timer. */
  ghost function Next(s: State, a: Action): State
    requires Enabled(s, a) && MemSafe(s)
  {
    match a
    case Create(c) => s.(clients := s.clients[c := None], locks := s.locks[c := 1])
    case Start(c, ms, k, available) => if available then StartTimer(s, c, ms, k) else s
    case Stop(c) => StopTimer(s, c, false)
    case Destroy(c) => DestroyTimer(s, c)
    case Wake(todo) => s.(poll := Expiring(todo, Disarm))
    case PollStep => PollAdvance(s)
    case Deliver => DeliverMsg(s)
    case ExpiryTurn => Turn(s)
    case Tick(to) => s.(now := to)
  }

  /** Following a reference to a deleted object could lead anywhere. */
  ghost predicate Step(s: State, a: Action, s': State) {
    Enabled(s, a) && (MemSafe(s) ==> s' == Next(s, a))
  }

  ghost predicate IsRun(states: seq<State>, actions: seq<Action>) {
    && |states| == |actions| + 1
    && states[0] == Init(states[0].now)
    && forall i :: 0 <= i < |actions| ==> Step(states[i], actions[i], states[i + 1])
  }
}
