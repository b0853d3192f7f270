/** The service of gps/utils/LocTimer.cpp over its objects. Each method is proved to take the state that the
    objects stand for through the matching step. */
module LocTimerObjects {
  import opened Wrappers
  import opened LocHeap
  import opened Deadlines
  import opened LocTimerService
  import opened LocTimerInvariant
  import opened LocTimerMemory

  // ---------- The service ----------

  /** The containers and what is alive besides, the message queue and both threads. */
  class LocTimers {
    const mContainers: Containers
    const mMemory: Memory
    var mNow: Clock
    var mQueue: seq<Msg>
    var mPoll: Poll
    /** What MsgTimerExpire has in its local variables. */
    var mHandling: Option<Handling>
    var mNextId: nat
    ghost var mLog: seq<Event>

    ghost predicate Valid()
      reads this, mContainers, mContainers.Repr, mMemory, mMemory.Repr
    {
      && mContainers.Valid() && mMemory.Linked(mNextId) && mContainers.Repr !! mMemory.Repr
      && mContainers in mContainers.Repr && mMemory in mMemory.Repr
      && this !in mContainers.Repr && this !in mMemory.Repr
      && mMemory.mSwTimers == mContainers.mSwTimers && mMemory.mHwTimers == mContainers.mHwTimers
      && mMemory.mSwTimers != mMemory.mHwTimers
    }

    ghost function Abs(): State
      requires Valid()
      reads this, mContainers, mContainers.Repr, mMemory, mMemory.Repr
    {
      State(mNow, mContainers.Abs(Sw), mContainers.Abs(Hw), mQueue, mPoll, mHandling,
            mMemory.Clients(), mMemory.Delegates(), mMemory.Locks(), mNextId, mLog)
    }

    constructor (now: Clock)
      ensures Valid() && Abs() == Init(now)
    {
      var containers := new Containers();
      mContainers := containers;
      mMemory := new Memory(containers.mSwTimers, containers.mHwTimers);
      mNow, mQueue, mPoll, mHandling := now, [], Waiting, None;
      mNextId, mLog := 0, [];
    }

    /** The constructor of LocTimer, whose lock counts from one. */
    method CreateClient(ghost c: nat) returns (client: LocTimer)
      requires Valid() && MemSafe(Abs()) && c !in Abs().clients && c !in Abs().locks
      modifies mMemory.Repr
      ensures Valid() && fresh(mMemory.Repr - old(mMemory.Repr))
      ensures mMemory.IsClient(client) && client.id == c && Abs() == Next(old(Abs()), Create(c))
    {
      hide MemSafe;
      mMemory.SafeMeansNoneDangles(Abs());
      hide Memory.Linked, Memory.NoneDangles, Containers.Valid, Containers.Abs;
      client := mMemory.NewClient(c, mNextId);
    }

    ghost method Log(e: Event)
      requires Valid()
      modifies this`mLog
      ensures Valid() && Abs() == old(Abs()).(log := old(Abs()).log + [e])
    {
      hide Memory.Linked, Memory.Clients, Memory.Delegates, Memory.Locks, Containers.Valid, Containers.Abs;
      mLog := mLog + [e];
    }

    method Queue(msg: Msg)
      requires Valid()
      modifies this`mQueue
      ensures Valid() && Abs() == old(Abs()).(queue := old(Abs()).queue + [msg])
    {
      hide Memory.Linked, Memory.Clients, Memory.Delegates, Memory.Locks, Containers.Valid, Containers.Abs;
      mQueue := mQueue + [msg];
    }

    /** The new delegate of a start, in memory. */
    method AddDelegate(client: LocTimer, timer: Timer, k: Kind)
      requires Valid() && mMemory.IsClient(client) && client.mTimer == null && mMemory.IsLock(client.mLock)
      requires client.id in Abs().locks && timer.id == mNextId
      modifies this`mNextId, mMemory.Repr
      ensures Valid() && fresh(mMemory.Repr - old(mMemory.Repr))
      ensures Abs() == Ticking(old(Abs()), client.id, k, timer).(queue := old(Abs()).queue, log := old(Abs()).log)
    {
      hide Memory.Linked, Memory.Clients, Memory.Delegates, Memory.Locks, Containers.Valid, Containers.Abs;
      mNextId := mNextId + 1;
      var d := mMemory.NewDelegate(client, timer, mContainers.Of(k), k);
    }

    /** The constructor of LocTimerDelegate, which adds it to its container. */
    method NewTimer(client: LocTimer, timer: Timer, k: Kind)
      requires Valid() && mMemory.IsClient(client) && client.mTimer == null && mMemory.IsLock(client.mLock)
      requires client.id in Abs().locks && timer.id == mNextId
      modifies this`mQueue, this`mNextId, this`mLog, mMemory.Repr
      ensures Valid() && fresh(mMemory.Repr - old(mMemory.Repr))
      ensures Abs() == Ticking(old(Abs()), client.id, k, timer)
    {
      assert Abs().nextId == mNextId && Abs().log == mLog && Abs().queue == mQueue;
      hide LocTimers.Valid, LocTimers.Abs, Share;
      AddDelegate(client, timer, k);
      Queue(PushMsg(k, timer));
      Log(Started(timer.id));
    }

    /** LocTimer::start, once the container has been had. */
    method StartClient(client: LocTimer, timeOutInMs: nat, k: Kind) returns (success: bool)
      requires Valid() && mMemory.IsClient(client) && mMemory.IsLock(client.mLock) && timeOutInMs <= UINT32_MAX
      modifies this`mQueue, this`mNextId, this`mLog, mMemory.Repr
      ensures Valid() && fresh(mMemory.Repr - old(mMemory.Repr))
      ensures Abs() == StartTimer(old(Abs()), client.id, timeOutInMs, k)
      ensures success <==> old(client.mTimer) == null
      ensures !success ==> Abs() == old(Abs())
      ensures success ==>
        var id := old(mNextId);
        && client.id in Abs().clients && Abs().clients[client.id] == Some(id) && id in Abs().delegates
        && Abs().delegates[id].timer.time.Nanos() == mNow.Nanos() + timeOutInMs * 1_000_000
    {
      mMemory.TimerOf(client);
      success := client.mTimer == null;
      if success {
        StartSetsDeadline(Abs(), client.id, timeOutInMs, k);
        assert Abs().nextId == mNextId && Abs().now == mNow;
        FutureTimeIsExact(mNow, timeOutInMs);
        var timer := Timer(mNextId, FutureTime(mNow, timeOutInMs));
        assert StartTimer(Abs(), client.id, timeOutInMs, k) == Ticking(Abs(), client.id, k, timer);
        hide LocTimers.Valid, LocTimers.Abs, StartTimer, FutureTime, Ticking, TimeSpec.Nanos;
        NewTimer(client, timer, k);
      }
    }

    /** Client and delegate parted, in memory. */
    method PartClient(client: LocTimer) returns (timer: LocTimerDelegate, container: LocTimerContainer?)
      requires Valid() && mMemory.IsClient(client) && client.mTimer != null && mMemory.IsDelegate(client.mTimer)
      modifies mMemory.Repr
      ensures Valid() && mMemory.Repr == old(mMemory.Repr) && timer == old(client.mTimer)
      ensures mMemory.mClients == old(mMemory.mClients) && mMemory.mLocks == old(mMemory.mLocks)
      ensures client.mLock == old(client.mLock)
      ensures var d := old(timer.Abs());
        && container == (if !d.contained then null else mContainers.Of(d.kind))
        && Abs() == old(Abs()).(clients := old(Abs()).clients[client.id := None],
                                delegates := old(Abs()).delegates[d.timer.id := d.(client := None, contained := false)])
    {
      hide Memory.Linked, Memory.Clients, Memory.Delegates, Memory.Locks, Containers.Valid, Containers.Abs;
      timer, container := mMemory.Part(client, mNextId);
    }

    /** LocTimerContainer::remove, which queues the message. */
    method SendRemove(container: LocTimerContainer, timer: Timer, ghost k: Kind)
      requires Valid() && container == mContainers.Of(k)
      modifies this`mQueue
      ensures Valid() && Abs() == old(Abs()).(queue := old(Abs()).queue + [RemoveMsg(k, timer)])
    {
      hide Memory.Linked, Memory.Clients, Memory.Delegates, Memory.Locks, Containers.Valid, Containers.Abs;
      mQueue := mQueue + [RemoveMsg(if container == mContainers.mSwTimers then Sw else Hw, timer)];
    }

    /** LocTimer::stop. */
    method StopClient(client: LocTimer, ghost byExpiry: bool) returns (success: bool)
      requires Valid() && mMemory.IsClient(client) && (client.mTimer != null ==> mMemory.IsDelegate(client.mTimer))
      modifies this`mQueue, this`mLog, mMemory.Repr
      ensures Valid() && mMemory.Repr == old(mMemory.Repr)
      ensures mMemory.mClients == old(mMemory.mClients) && mMemory.mLocks == old(mMemory.mLocks)
      ensures client.mLock == old(client.mLock)
      ensures Abs() == StopTimer(old(Abs()), client.id, byExpiry)
      ensures success <==> old(client.mTimer) != null
    {
      mMemory.TimerOf(client);
      success := client.mTimer != null;
      if success {
        StopRunning(client, byExpiry);
      }
    }

    /** stop, on a client with a timer. */
    method StopRunning(client: LocTimer, ghost byExpiry: bool)
      requires Valid() && mMemory.IsClient(client) && client.mTimer != null && mMemory.IsDelegate(client.mTimer)
      requires client.id in Abs().clients && Abs().clients[client.id] == Some(client.mTimer.timer.id)
      requires client.mTimer.timer.id in Abs().delegates
      modifies this`mQueue, this`mLog, mMemory.Repr
      ensures Valid() && mMemory.Repr == old(mMemory.Repr)
      ensures mMemory.mClients == old(mMemory.mClients) && mMemory.mLocks == old(mMemory.mLocks)
      ensures client.mLock == old(client.mLock)
      ensures Abs() == StopTimer(old(Abs()), client.id, byExpiry)
    {
      StopMeans(client, byExpiry);
      hide *;
      ghost var d := client.mTimer.Abs();
      var timer, container := PartClient(client);
      SendRemoveIfAny(container, timer.timer, d.kind, Stopped(timer.timer.id, byExpiry));
    }

    lemma StopMeans(client: LocTimer, byExpiry: bool)
      requires Valid() && mMemory.IsClient(client) && client.mTimer != null && mMemory.IsDelegate(client.mTimer)
      requires client.id in Abs().clients && Abs().clients[client.id] == Some(client.mTimer.timer.id)
      requires client.mTimer.timer.id in Abs().delegates
      ensures var s, d := Abs(), client.mTimer.Abs();
        StopTimer(s, client.id, byExpiry) == s.(
          clients := s.clients[client.id := None],
          delegates := s.delegates[d.timer.id := d.(client := None, contained := false)],
          queue := if d.contained then s.queue + [RemoveMsg(d.kind, d.timer)] else s.queue,
          log := s.log + [Stopped(d.timer.id, byExpiry)])
    {
      mMemory.TimerOf(client);
      StopIs(Abs(), client.id, byExpiry);
      hide Memory.Linked, Memory.Clients, Memory.Delegates, Memory.Locks, Containers.Valid, Containers.Abs;
      hide StopTimer;
    }

    /** The end of destroyLocked, and of the stop. */
    method SendRemoveIfAny(container: LocTimerContainer?, timer: Timer, ghost k: Kind, ghost e: Event)
      requires Valid() && (container != null ==> container == mContainers.Of(k))
      modifies this`mQueue, this`mLog
      ensures Valid()
      ensures Abs() == old(Abs()).(
        queue := if container == null then old(Abs()).queue else old(Abs()).queue + [RemoveMsg(k, timer)],
        log := old(Abs()).log + [e])
    {
      hide *;
      if container != null {
        SendRemove(container, timer, k);
      }
      Log(e);
    }

    /** The destructor of LocTimer. */
    method DestroyClient(client: LocTimer)
      requires Valid() && mMemory.IsClient(client) && mMemory.IsLock(client.mLock)
      requires client.mTimer != null ==> mMemory.IsDelegate(client.mTimer)
      modifies this`mQueue, this`mLog, mMemory.Repr
      ensures Valid() && mMemory.Repr == old(mMemory.Repr)
      ensures Abs() == DestroyTimer(old(Abs()), client.id)
    {
      mMemory.TimerOf(client);
      DestroyIs(Abs(), client.id);
      var lock := client.mLock;
      hide LocTimers.Valid, LocTimers.Abs, StopTimer, DestroyTimer, Drop;
      var _ := StopClient(client, false);
      Depart(client, lock);
    }

    /** The client's share of its lock, and then the client. */
    method Depart(client: LocTimer, lock: LocSharedLock)
      requires Valid() && mMemory.IsClient(client) && mMemory.IsLock(lock) && lock.id in Abs().locks
      modifies mMemory.Repr
      ensures Valid() && mMemory.Repr == old(mMemory.Repr)
      ensures Abs() == old(Abs()).(locks := Drop(old(Abs()).locks, lock.id),
                                   clients := old(Abs()).clients - {client.id})
    {
      assert lock in mMemory.Repr && mMemory in mMemory.Repr;
      hide LocTimers.Valid, LocTimers.Abs, Drop;
      DropLock(lock);
      DeleteClient(client);
    }

    /** LocSharedLock::drop. */
    method DropLock(lock: LocSharedLock)
      requires Valid() && mMemory.IsLock(lock) && lock.id in Abs().locks
      modifies mMemory`mLocks, lock
      ensures Valid() && Abs() == old(Abs()).(locks := Drop(old(Abs()).locks, lock.id))
    {
      assert lock in mMemory.Repr;
      hide Drop;
      hide Memory.Linked, Memory.Clients, Memory.Delegates, Memory.Locks, Containers.Valid, Containers.Abs;
      mMemory.DropLock(lock, mNextId);
    }

    /** The end of a client. */
    ghost method DeleteClient(client: LocTimer)
      requires Valid() && mMemory.IsClient(client)
      modifies mMemory`mClients
      ensures Valid() && Abs() == old(Abs()).(clients := old(Abs()).clients - {client.id})
    {
      hide Memory.Linked, Memory.Clients, Memory.Delegates, Memory.Locks, Containers.Valid, Containers.Abs;
      mMemory.DeleteClient(client, mNextId);
    }

    /** LocTimerDelegate::expire. */
    method ExpireDelegate(timer: Timer)
      requires Valid() && ClientsSafe(Abs()) && timer.id in Abs().delegates
      modifies this`mQueue, this`mLog, mMemory.Repr
      ensures Valid() && Abs() == ExpireOne(old(Abs()), timer) && mMemory.Repr == old(mMemory.Repr)
    {
      mMemory.ClientOf(timer.id, mNextId, Abs());
      ExpiryIsStop(Abs(), timer);
      hide LocTimers.Valid, LocTimers.Abs, ClientsSafe, StopTimer, ExpireOne;
      var client := mMemory.mDelegates[timer.id].mClient;
      if client != null {
        var stopped := StopClient(client, true);
        if stopped {
          Log(CalledBack(timer.id));
        }
      }
    }

    /** The deletion of a delegate, which drops its lock. */
    method FreeDelegate(id: nat)
      requires Valid() && id in Abs().delegates && Abs().delegates[id].lock in Abs().locks
      modifies this`mLog, mMemory.Repr
      ensures Valid() && mMemory.Repr == old(mMemory.Repr)
      ensures Abs() == Free(old(Abs()), id)
    {
      hide Memory.Linked, Memory.Clients, Memory.Delegates, Memory.Locks, Containers.Valid, Containers.Abs;
      mMemory.DeleteDelegate(id, mNextId);
      mLog := mLog + [Freed(id)];
    }

    /** The three statements of LocTimerContainer::expire, as the poll thread reaches them. */
    method PollOnce()
      requires Valid() && mPoll.Expiring? && mPoll.todo != []
      modifies this`mPoll, this`mQueue, mContainers.Repr
      ensures Valid() && Abs() == PollAdvance(old(Abs()))
    {
      hide Memory.Linked, Memory.Clients, Memory.Delegates, Memory.Locks, Containers.Valid, Containers.Abs;
      var k := mPoll.todo[0];
      match mPoll.stage
      case Disarm =>
        mContainers.Disarm(k);
        mPoll := mPoll.(stage := RemovePoll);
      case RemovePoll =>
        mContainers.RemovePoll(k);
        mPoll := mPoll.(stage := SendMsg);
      case SendMsg =>
        mQueue := mQueue + [ExpireMsg(k)];
        mPoll := if |mPoll.todo| == 1 then Waiting else Expiring(mPoll.todo[1..], Disarm);
    }

    method DeliverPush(k: Kind, timer: Timer)
      requires Valid()
      modifies mContainers.Repr
      ensures Valid() && Abs() == With(old(Abs()), k, AfterPush(At(old(Abs()), k), timer))
    {
      hide Memory.Linked, Memory.Clients, Memory.Delegates, Memory.Locks, Containers.Valid, Containers.Abs, AfterPush;
      mContainers.Push(k, timer);
    }

    method DeliverRemove(k: Kind, timer: Timer)
      requires Valid()
      modifies mContainers.Repr
      ensures Valid() && Abs() == With(old(Abs()), k, AfterRemove(At(old(Abs()), k), timer))
    {
      hide Memory.Linked, Memory.Clients, Memory.Delegates, Memory.Locks, Containers.Valid, Containers.Abs, AfterRemove;
      mContainers.Remove(k, timer);
    }

    /** The next pop of the loop of MsgTimerExpire. The first one asks nothing. */
    method PopNext(h: Handling) returns (popped: Option<Timer>)
      requires Valid()
      modifies mContainers.Repr
      ensures Valid() && mContainers.Repr == old(mContainers.Repr)
      ensures popped == NextPop(old(Abs()), h)
      ensures Abs() == if popped == None then old(Abs()) else WithoutTop(old(Abs()), h.kind)
    {
      hide Memory.Linked, Memory.Clients, Memory.Delegates, Memory.Locks, Containers.Valid, Containers.Abs, Popped;
      if h.first {
        popped := mContainers.Pop(h.kind);
      } else {
        popped := mContainers.PopIfOutRanks(h.kind, Timer(0, h.now));
      }
    }

    method UpdateAfterExpiry(k: Kind)
      requires Valid()
      modifies mContainers.Repr
      ensures Valid() && mContainers.Repr == old(mContainers.Repr)
      ensures Abs() == With(old(Abs()), k, UpdateSoonest(At(old(Abs()), k), None))
    {
      hide Memory.Linked, Memory.Clients, Memory.Delegates, Memory.Locks, Containers.Valid, Containers.Abs;
      hide UpdateSoonest;
      mContainers.UpdateSoonestTime(k);
    }

    /** The local variables of MsgTimerExpire. */
    method SetHandling(handling: Option<Handling>)
      requires Valid()
      modifies this`mHandling
      ensures Valid() && Abs() == old(Abs()).(handling := handling)
    {
      hide Memory.Linked, Memory.Clients, Memory.Delegates, Memory.Locks, Containers.Valid, Containers.Abs;
      mHandling := handling;
    }

    /** One turn of the loop: a pop and the expiry of what it popped, or what follows the loop. */
    method TakeTurn()
      requires Valid() && mHandling.Some? && MemSafe(Abs())
      modifies this`mQueue, this`mLog, this`mHandling, mMemory.Repr, mContainers.Repr
      ensures Valid() && Abs() == Turn(old(Abs()))
      ensures mContainers.Repr == old(mContainers.Repr) && mMemory.Repr == old(mMemory.Repr)
    {
      var h := mHandling.value;
      assert Abs().handling == Some(h);
      TurnCases(Abs(), h);
      hide *;
      var timer := PopNext(h);
      if timer == None {
        UpdateAfterExpiry(h.kind);
        SetHandling(None);
      } else {
        ExpireDelegate(timer.value);
        SetHandling(Some(h.(first := false)));
      }
    }

    /** The loop, when nothing comes between its turns. */
    method ProcExpire()
      requires Valid() && Inv(Abs())
      modifies this`mQueue, this`mLog, this`mHandling, mMemory.Repr, mContainers.Repr
      ensures Valid() && Abs() == Handled(old(Abs()))
    {
      assert mHandling == Abs().handling;
      hide *;
      while mHandling != None
        invariant Valid() && mContainers.Repr == old(mContainers.Repr) && mMemory.Repr == old(mMemory.Repr)
        invariant mHandling == Abs().handling && Inv(Abs()) && Handled(Abs()) == Handled(old(Abs()))
        decreases TurnsLeft(Abs())
      {
        HandledStep(Abs());
        TakeTurn();
        HandlingOf();
      }
      HandledNone(Abs());
    }

    lemma HandlingOf()
      requires Valid()
      ensures mHandling == Abs().handling
    {
    }

    /** The message thread takes the first message and processes it. */
    method ProcMsg()
      requires Valid() && mQueue != [] && MemSafe(Abs())
      modifies this`mQueue, this`mLog, this`mHandling, mMemory.Repr, mContainers.Repr
      ensures Valid() && Abs() == DeliverMsg(old(Abs()))
    {
      assert Abs().now == mNow;
      DeliverCases(Abs());
      hide *;
      var msg := mQueue[0];
      TakeFirst();
      match msg
      case PushMsg(k, timer) =>
        DeliverPush(k, timer);
      case RemoveMsg(k, timer) =>
        DeliverRemove(k, timer);
        FreeDelegate(timer.id);
      case ExpireMsg(k) =>
        SetHandling(Some(Handling(k, mNow, true)));
    }

    method TakeFirst()
      requires Valid() && mQueue != []
      modifies this`mQueue
      ensures Valid() && Abs() == old(Abs()).(queue := old(mQueue)[1..])
    {
      hide Memory.Linked, Memory.Clients, Memory.Delegates, Memory.Locks, Containers.Valid, Containers.Abs;
      mQueue := mQueue[1..];
    }
  }

  /** What stop does to a client with a timer. */
  lemma StopIs(s: State, c: nat, byExpiry: bool)
    requires c in s.clients && s.clients[c].Some? && s.clients[c].value in s.delegates
    ensures var id := s.clients[c].value;
      var d := s.delegates[id];
      StopTimer(s, c, byExpiry) == s.(
        clients := s.clients[c := None], delegates := s.delegates[id := d.(client := None, contained := false)],
        queue := if d.contained then s.queue + [RemoveMsg(d.kind, d.timer)] else s.queue,
        log := s.log + [Stopped(id, byExpiry)])
  {
  }

  /** What the destructor of a client does after the stop. */
  lemma DestroyIs(s: State, c: nat)
    requires c in s.clients && (s.clients[c].Some? ==> s.clients[c].value in s.delegates) && c in s.locks
    ensures var s' := StopTimer(s, c, false);
      s'.locks == s.locks && DestroyTimer(s, c) == s'.(locks := Drop(s'.locks, c), clients := s'.clients - {c})
  {
  }

  /** What expire does, by whether the delegate has a client and the client a timer. */
  lemma ExpiryIsStop(s: State, t: Timer)
    requires ClientsSafe(s) && t.id in s.delegates
    ensures var client := s.delegates[t.id].client;
      if client.None? then ExpireOne(s, t) == s
      else
        var s' := StopTimer(s, client.value, true);
        ExpireOne(s, t) == if s.clients[client.value].None? then s' else s'.(log := s'.log + [CalledBack(t.id)])
  {
  }

  /** The three kinds of message, each with what its handling needs. */
  lemma DeliverCases(s: State)
    requires MemSafe(s) && s.queue != []
    ensures var s' := s.(queue := s.queue[1..]);
      && MemSafe(s') && (forall k :: At(s', k) == At(s, k))
      && match s.queue[0]
         case PushMsg(k, t) => DeliverMsg(s) == With(s', k, AfterPush(At(s', k), t))
         case RemoveMsg(k, t) =>
           var s'' := With(s', k, AfterRemove(At(s', k), t));
           t.id in s''.delegates && s''.delegates[t.id].lock in s''.locks && DeliverMsg(s) == Free(s'', t.id)
         case ExpireMsg(k) => DeliverMsg(s) == s'.(handling := Some(Handling(k, s.now, true)))
  {
    TailIsSafe(s);
    if s.queue[0].RemoveMsg? {
      RemoveIsLive(s);
    }
    hide MemSafe, AfterPush, AfterRemove, Free;
  }

  lemma TailIsSafe(s: State)
    requires MemSafe(s) && s.queue != []
    ensures MemSafe(s.(queue := s.queue[1..])) && forall k :: At(s.(queue := s.queue[1..]), k) == At(s, k)
  {
    hide Ordered, SizesExact, Contents;
    assert forall i :: 0 <= i < |s.queue| - 1 ==> s.queue[1..][i] == s.queue[i + 1];
  }

  /** What a turn does, by whether it pops. */
  lemma TurnCases(s: State, h: Handling)
    requires MemSafe(s) && s.handling == Some(h)
    ensures match NextPop(s, h)
      case None => Turn(s) == With(s, h.kind, UpdateSoonest(At(s, h.kind), None)).(handling := None)
      case Some(t) =>
        && ClientsSafe(WithoutTop(s, h.kind)) && t.id in WithoutTop(s, h.kind).delegates
        && Turn(s) == ExpireOne(WithoutTop(s, h.kind), t).(handling := Some(h.(first := false)))
  {
    if NextPop(s, h).Some? {
      TurnWith(s, h.kind, NextPop(s, h).value);
    }
    hide MemSafe, NextPop, WithoutTop, ExpireOne, UpdateSoonest, ClientsSafe;
  }

  // ---------- The expiry loop on its own ----------

  ghost function TurnsLeft(s: State): nat {
    if s.handling.None? then 0 else 1 + |Contents(At(s, s.handling.value.kind).heap)|
  }

  lemma TurnIsOneLess(s: State)
    requires Inv(s) && s.handling.Some?
    ensures MemSafe(s) && Inv(Turn(s)) && TurnsLeft(Turn(s)) < TurnsLeft(s)
  {
    InvIsMemSafe(s);
    TurnKeepsInv(s);
    hide *;
    TurnIs(s);
    MemSafeHeap(s, s.handling.value.kind);
    TurnedIsOneLess(s, Turn(s));
  }

  lemma TurnedIsOneLess(s: State, s': State)
    requires s.handling.Some? && Turned(s, s')
    requires Ordered(RANKED, At(s, s.handling.value.kind).heap) && SizesExact(At(s, s.handling.value.kind).heap)
    ensures TurnsLeft(s') < TurnsLeft(s)
  {
    var heap := At(s, s.handling.value.kind).heap;
    hide Popped, Contents, NextPop, Ordered, SizesExact, Due, TimeSpec.Nanos, UpdateSoonest;
    if heap.Node? {
      OnePop(heap, heap.data);
    }
  }

  /** The loop to its end. */
  ghost function Handled(s: State): State
    requires Inv(s)
    decreases TurnsLeft(s)
  {
    if s.handling.None? then s
    else
      TurnIsOneLess(s);
      Handled(Turn(s))
  }

  lemma HandledStep(s: State)
    requires Inv(s) && s.handling != None
    ensures MemSafe(s) && Inv(Turn(s)) && TurnsLeft(Turn(s)) < TurnsLeft(s) && Handled(s) == Handled(Turn(s))
  {
    TurnIsOneLess(s);
    hide Inv, MemSafe, Turn, TurnsLeft;
  }

  lemma HandledNone(s: State)
    requires Inv(s) && s.handling == None
    ensures Handled(s) == s
  {
    hide Inv;
  }

  /** What the loop leaves of the heap if nothing comes between its turns. */
  ghost function Rest(s: State): Tree<Timer>
    requires s.handling.Some? && SizesExact(At(s, s.handling.value.kind).heap)
  {
    var heap, now := At(s, s.handling.value.kind).heap, Timer(0, s.handling.value.now);
    if s.handling.value.first then PopsOnExpiry(heap, now).1 else PopsWhileDue(heap, now).1
  }

  lemma RestAfterTurn(s: State, s': State)
    requires s.handling.Some? && Turned(s, s')
    requires Ordered(RANKED, At(s, s.handling.value.kind).heap) && SizesExact(At(s, s.handling.value.kind).heap)
    ensures var heap := At(s', s.handling.value.kind).heap;
      if s'.handling.None? then Rest(s) == heap else SizesExact(heap) && Rest(s) == Rest(s')
  {
    hide Popped, Ordered, SizesExact, OutRanks, UpdateSoonest;
    UpdateKeepsHeap(At(s, s.handling.value.kind));
    if At(s, s.handling.value.kind).heap.Node? {
      OnePop(At(s, s.handling.value.kind).heap, Timer(0, s.handling.value.now));
    }
  }

  /** Without interruption the loop leaves what is not due after the first pop, and the kernel armed for it. */
  lemma {:induction false} HandledPops(s: State)
    requires Inv(s) && s.handling.Some?
    ensures var k, s' := s.handling.value.kind, Handled(s);
      SizesExact(At(s, k).heap) && s'.handling == None && At(s', k).heap == Rest(s) && Armed(At(s', k))
    decreases TurnsLeft(s)
  {
    hide *;
    HandledStep(s);
    TurnIs(s);
    MemSafeHeap(s, s.handling.value.kind);
    RestAfterTurn(s, Turn(s));
    WhereTurned(s, Turn(s));
    if Turn(s).handling.None? {
      HandledNone(Turn(s));
    } else {
      HandledPops(Turn(s));
    }
  }

  lemma WhereTurned(s: State, s': State)
    requires s.handling.Some? && Turned(s, s')
    ensures if s'.handling.None? then Armed(At(s', s.handling.value.kind))
            else s'.handling.value.kind == s.handling.value.kind
  {
    hide NextPop, Popped, UpdateSoonest, Armed;
    UpdateFromNoneArms(At(s, s.handling.value.kind));
  }
}
