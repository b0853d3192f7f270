/** The objects of gps/utils/LocTimer.cpp and gps/utils/LocSharedLock.h: containers over their pointer heaps, and
    clients, delegates and locks that point to each other. */
module LocTimerMemory {
  import opened Wrappers
  import opened LocHeap
  import opened Deadlines
  import opened LocTimerService

  // ---------- A container ----------

  class LocTimerContainer {
    const mHeap: LocHeap<Timer>
    var mPolled: bool
    var mArmed: Option<TimeSpec>

    ghost predicate Valid()
      reads this, mHeap, mHeap.mTree, mHeap.Nodes()
    {
      this !in mHeap.Nodes() && mHeap.Valid()
    }

    ghost function Repr(): set<object>
      reads this, mHeap, mHeap.mTree
    {
      {this, mHeap} + mHeap.Nodes()
    }

    ghost function Abs(): Container
      reads this, mHeap, mHeap.mTree
    {
      Container(mHeap.Model(), mPolled, mArmed)
    }

    constructor ()
      ensures Valid() && fresh(Repr()) && Abs() == IDLE
    {
      mHeap := new LocHeap();
      mPolled, mArmed := false, None;
    }

    method GetSoonestTimer() returns (top: Option<Timer>)
      requires Valid()
      ensures top == Top(Abs().heap)
    {
      top := mHeap.Peek();
    }

    method UpdateSoonestTime(priorTop: Option<Timer>)
      requires Valid()
      modifies this`mPolled, this`mArmed
      ensures Valid() && Abs() == UpdateSoonest(old(Abs()), priorTop)
    {
      var curTop := GetSoonestTimer();
      if curTop != priorTop {
        var delay, toSetTime := TimeSpec(0, 0), false;
        if curTop == None {
          mPolled := false;
          toSetTime := true;
        } else if priorTop == None || OutRanks(curTop.value, priorTop.value) {
          mPolled := true;
          delay := curTop.value.time;
          toSetTime := true;
        }
        if toSetTime {
          mArmed := SetTime(delay);
        }
      }
    }

    /** MsgTimerPush. */
    method ProcPush(timer: Timer)
      requires Valid()
      modifies this`mPolled, this`mArmed, mHeap, mHeap.Nodes()
      ensures Valid() && fresh(Repr() - old(Repr()))
      ensures Abs() == AfterPush(old(Abs()), timer)
    {
      var priorTop := GetSoonestTimer();
      mHeap.Push(RANKED, timer);
      UpdateSoonestTime(priorTop);
    }

    /** MsgTimerRemove, up to the deletion of the delegate. */
    method ProcRemove(timer: Timer)
      requires Valid()
      modifies this`mPolled, this`mArmed, mHeap, mHeap.Nodes()
      ensures Valid() && Repr() <= old(Repr())
      ensures Abs() == AfterRemove(old(Abs()), timer)
    {
      var priorTop := GetSoonestTimer();
      var removed, _ := mHeap.Remove(RANKED, timer);
      if priorTop == removed {
        UpdateSoonestTime(None);
      }
    }

    method PopIfOutRanks(timer: Timer) returns (popped: Option<Timer>)
      requires Valid()
      modifies mHeap, mHeap.Nodes()
      ensures Valid() && Repr() <= old(Repr())
      ensures popped == if Due(old(Abs()).heap, timer) then Top(old(Abs()).heap) else None
      ensures Abs() == if Due(old(Abs()).heap, timer) then old(Abs()).(heap := Popped(RANKED, old(Abs()).heap))
                       else old(Abs())
    {
      popped := None;
      var top := mHeap.Peek();
      if top != None && !OutRanks(timer, top.value) {
        ghost var deleted;
        popped, deleted := mHeap.Pop(RANKED);
      }
    }
  }

  // ---------- Locks, timers and delegates ----------

  /** gps/utils/LocSharedLock.h. `id` names the object, for as long as it is not deleted. */
  class LocSharedLock {
    ghost const id: nat
    var mRef: int

    constructor (ghost id: nat)
      ensures this.id == id && mRef == 1
    {
      this.id := id;
      mRef := 1;
    }

    method Share() returns (lock: LocSharedLock)
      modifies this
      ensures lock == this && mRef == old(mRef) + 1
    {
      mRef := mRef + 1;
      lock := this;
    }

    /** Does the object delete itself? */
    method Drop() returns (deleted: bool)
      modifies this
      ensures mRef == old(mRef) - 1 && deleted == (old(mRef) == 1)
    {
      var before := mRef;
      mRef := mRef - 1;
      deleted := before == 1;
    }
  }

  /** The client's front end. */
  class LocTimer {
    ghost const id: nat
    var mTimer: LocTimerDelegate?
    var mLock: LocSharedLock?

    constructor (ghost id: nat)
      ensures this.id == id && mTimer == null
      ensures mLock != null && fresh(mLock) && mLock.id == id && mLock.mRef == 1
    {
      this.id := id;
      mTimer := null;
      mLock := new LocSharedLock(id);
    }
  }

  /** The ticking entity. Heaps and messages hold its identity and deadline, `timer`. */
  class LocTimerDelegate {
    const timer: Timer
    ghost const kind: Kind
    var mClient: LocTimer?
    var mLock: LocSharedLock?
    var mContainer: LocTimerContainer?

    constructor (client: LocTimer, timer: Timer, container: LocTimerContainer, ghost kind: Kind)
      requires client.mLock != null
      modifies client.mLock
      ensures this.timer == timer && this.kind == kind
      ensures mClient == client && mLock == client.mLock && mContainer == container
      ensures client.mLock.mRef == old(client.mLock.mRef) + 1
    {
      this.timer := timer;
      this.kind := kind;
      mClient := client;
      var lock := client.mLock.Share();
      mLock := lock;
      mContainer := container;
    }

    /** destroyLocked: the container that is to remove this delegate, the first time. */
    method DestroyLocked() returns (container: LocTimerContainer?)
      modifies this
      ensures mClient == null && mContainer == null && mLock == old(mLock) && container == old(mContainer)
    {
      mClient := null;
      container := null;
      if mContainer != null {
        container := mContainer;
        mContainer := null;
      }
    }

    ghost function Abs(): Delegate
      reads this
    {
      Delegate(if mClient == null then None else Some(mClient.id), if mLock == null then 0 else mLock.id,
               kind, mContainer != null, timer)
    }
  }

  // ---------- What is alive ----------

  /** Every client, delegate and lock by its identity, until it is deleted. A pointer taken from a heap or a
      message is followed through mDelegates. Repr holds all of them, dead or alive. */
  class Memory {
    ghost const mSwTimers: LocTimerContainer
    ghost const mHwTimers: LocTimerContainer
    var mDelegates: map<nat, LocTimerDelegate>
    ghost var mClients: map<nat, LocTimer>
    ghost var mLocks: map<nat, LocSharedLock>
    ghost var Repr: set<object>

    constructor (ghost sw: LocTimerContainer, ghost hw: LocTimerContainer)
      ensures mSwTimers == sw && mHwTimers == hw && Repr == {this}
      ensures Linked(0) && Clients() == map[] && Delegates() == map[] && Locks() == map[]
    {
      mSwTimers, mHwTimers := sw, hw;
      mDelegates, mClients, mLocks := map[], map[], map[];
      Repr := {this};
    }

    /** Everything that is known is in Repr. */
    ghost predicate Known()
      reads this
    {
      && this in Repr
      && (forall c :: c in mClients ==> mClients[c] in Repr)
      && (forall id :: id in mDelegates ==> mDelegates[id] in Repr)
      && (forall l :: l in mLocks ==> mLocks[l] in Repr)
    }

    ghost predicate ClientLinked(client: LocTimer, nextId: nat)
      reads this, client
    {
      && client.mLock != null && client.mLock.id == client.id
      && (client.id in mLocks ==> mLocks[client.id] == client.mLock)
      && (client.mTimer != null ==>
            && client.mTimer.timer.id < nextId
            && (client.mTimer.timer.id in mDelegates ==> mDelegates[client.mTimer.timer.id] == client.mTimer))
    }

    ghost predicate DelegateLinked(d: LocTimerDelegate, nextId: nat)
      reads this, d
    {
      && d.timer.id < nextId && d.mLock != null
      && (d.mLock.id in mLocks ==> mLocks[d.mLock.id] == d.mLock)
      && (d.mClient != null && d.mClient.id in mClients ==> mClients[d.mClient.id] == d.mClient)
      && (d.mContainer != null ==> d.mContainer == if d.kind == Sw then mSwTimers else mHwTimers)
    }

    ghost predicate ClientsLinked(nextId: nat)
      requires Known()
      reads this, Repr
    {
      forall c :: c in mClients ==> mClients[c].id == c && ClientLinked(mClients[c], nextId)
    }

    ghost predicate DelegatesLinked(nextId: nat)
      requires Known()
      reads this, Repr
    {
      forall id :: id in mDelegates ==> mDelegates[id].timer.id == id && DelegateLinked(mDelegates[id], nextId)
    }

    ghost predicate LocksNamed()
      reads this
    {
      forall l :: l in mLocks ==> mLocks[l].id == l
    }

    /** Each object is known under its own identity, and so is whatever it points to as long as that lives. */
    ghost predicate Linked(nextId: nat)
      reads this, Repr
    {
      Known() && ClientsLinked(nextId) && DelegatesLinked(nextId) && LocksNamed()
    }

    ghost function Clients(): map<nat, Option<nat>>
      requires Known()
      reads this, Repr
    {
      map c | c in mClients :: if mClients[c].mTimer == null then None else Some(mClients[c].mTimer.timer.id)
    }

    ghost function Delegates(): map<nat, Delegate>
      requires Known()
      reads this, Repr
    {
      map id | id in mDelegates :: mDelegates[id].Abs()
    }

    ghost function Locks(): map<nat, int>
      requires Known()
      reads this, Repr
    {
      map l | l in mLocks :: mLocks[l].mRef
    }

    ghost predicate IsClient(client: LocTimer)
      reads this
    {
      client.id in mClients && mClients[client.id] == client
    }

    ghost predicate IsDelegate(d: LocTimerDelegate)
      reads this
    {
      d.timer.id in mDelegates && mDelegates[d.timer.id] == d
    }

    ghost predicate IsLock(lock: LocSharedLock)
      reads this
    {
      lock.id in mLocks && mLocks[lock.id] == lock
    }

    /** Does no live delegate point to a deleted client or lock? */
    ghost predicate NoneDangles()
      requires Known()
      reads this, Repr
    {
      forall id :: id in mDelegates ==>
        && (mDelegates[id].mClient != null ==> mDelegates[id].mClient.id in mClients)
        && (mDelegates[id].mLock != null ==> mDelegates[id].mLock.id in mLocks)
    }

    /** What the client's timer is, in the table as in the object. */
    lemma TimerOf(client: LocTimer)
      requires Known() && IsClient(client)
      ensures client.id in Clients()
      ensures Clients()[client.id] == if client.mTimer == null then None else Some(client.mTimer.timer.id)
      ensures client.mTimer != null && IsDelegate(client.mTimer) ==>
        client.mTimer.timer.id in Delegates() && Delegates()[client.mTimer.timer.id] == client.mTimer.Abs()
      ensures client.mLock != null && IsLock(client.mLock) ==> client.mLock.id in Locks()
      ensures forall n :: Linked(n) ==> client.mLock != null && client.mLock.id == client.id
    {
    }

    /** The client of a delegate that is to expire. */
    lemma ClientOf(id: nat, nextId: nat, s: State)
      requires Linked(nextId) && s.clients == Clients() && s.delegates == Delegates()
      requires ClientsSafe(s) && id in Delegates()
      ensures id in mDelegates && s.delegates[id] == mDelegates[id].Abs()
      ensures var client := mDelegates[id].mClient;
        client != null ==>
          && IsClient(client) && client.id in s.clients
          && s.clients[client.id] == (if client.mTimer == null then None else Some(client.mTimer.timer.id))
          && (client.mTimer != null ==> IsDelegate(client.mTimer))
    {
      assert s.delegates[id] == mDelegates[id].Abs();
    }

    lemma SafeMeansNoneDangles(s: State)
      requires Known() && s.clients == Clients() && s.delegates == Delegates() && s.locks == Locks() && MemSafe(s)
      ensures NoneDangles()
    {
      forall id | id in mDelegates
        ensures mDelegates[id].mClient != null ==> mDelegates[id].mClient.id in mClients
        ensures mDelegates[id].mLock != null ==> mDelegates[id].mLock.id in mLocks
      {
        assert s.delegates[id] == mDelegates[id].Abs();
      }
    }

    // Ways to change one map or one object.

    ghost method AddLock(lock: LocSharedLock, nextId: nat)
      requires Linked(nextId) && NoneDangles() && lock.id !in mLocks && lock.id !in mClients
      modifies this`mLocks, this`Repr
      ensures Linked(nextId) && Repr == old(Repr) + {lock}
      ensures mLocks == old(mLocks)[lock.id := lock] && Locks() == old(Locks())[lock.id := lock.mRef]
      ensures Clients() == old(Clients()) && Delegates() == old(Delegates()) && NoneDangles()
    {
      EnterLock(lock, nextId);
      assert Known();
      hide Linked, NoneDangles, Clients, Delegates;
    }

    /** AddLock, but for what the table of locks stands for. */
    ghost method EnterLock(lock: LocSharedLock, nextId: nat)
      requires Linked(nextId) && NoneDangles() && lock.id !in mLocks && lock.id !in mClients
      modifies this`mLocks, this`Repr
      ensures Linked(nextId) && Repr == old(Repr) + {lock} && mLocks == old(mLocks)[lock.id := lock]
      ensures Clients() == old(Clients()) && Delegates() == old(Delegates()) && NoneDangles()
    {
      mLocks, Repr := mLocks[lock.id := lock], Repr + {lock};
      hide Locks;
      assert Clients() == old(Clients());
      hide Clients;
      assert Delegates() == old(Delegates());
      hide Delegates;
      assert DelegatesLinked(nextId);
      hide DelegatesLinked, DelegateLinked;
    }

    ghost method AddClient(client: LocTimer, nextId: nat)
      requires Linked(nextId) && NoneDangles() && client.id !in mClients && ClientLinked(client, nextId)
      modifies this`mClients, this`Repr
      ensures Linked(nextId) && Repr == old(Repr) + {client} && IsClient(client)
      ensures Clients() ==
        old(Clients())[client.id := if client.mTimer == null then None else Some(client.mTimer.timer.id)]
      ensures Delegates() == old(Delegates()) && Locks() == old(Locks())
    {
      EnterClient(client, nextId);
      assert Known();
      hide Linked, NoneDangles, ClientLinked, Delegates, Locks;
    }

    /** AddClient, but for what the table of clients stands for. */
    ghost method EnterClient(client: LocTimer, nextId: nat)
      requires Linked(nextId) && NoneDangles() && client.id !in mClients && ClientLinked(client, nextId)
      modifies this`mClients, this`Repr
      ensures Linked(nextId) && Repr == old(Repr) + {client} && mClients == old(mClients)[client.id := client]
      ensures Delegates() == old(Delegates()) && Locks() == old(Locks())
    {
      mClients, Repr := mClients[client.id := client], Repr + {client};
      hide Clients;
      assert Locks() == old(Locks());
      hide Locks;
      assert Delegates() == old(Delegates());
      hide Delegates;
      assert DelegatesLinked(nextId);
      hide DelegatesLinked, DelegateLinked;
    }

    method AddDelegate(d: LocTimerDelegate)
      requires Linked(d.timer.id) && DelegateLinked(d, d.timer.id + 1)
      modifies this`mDelegates, this`Repr
      ensures Linked(d.timer.id + 1) && Repr == old(Repr) + {d} && IsDelegate(d)
      ensures mClients == old(mClients) && mLocks == old(mLocks)
      ensures Delegates() == old(Delegates())[d.timer.id := d.Abs()]
      ensures Clients() == old(Clients()) && Locks() == old(Locks())
    {
      mDelegates, Repr := mDelegates[d.timer.id := d], Repr + {d};
      assert ClientsLinked(d.timer.id + 1);
      hide ClientsLinked;
      assert DelegatesLinked(d.timer.id + 1);
      hide DelegatesLinked, DelegateLinked, ClientLinked;
      assert Clients() == old(Clients());
      hide Clients;
      assert Locks() == old(Locks());
      hide Locks;
    }

    method SetTimer(client: LocTimer, timer: LocTimerDelegate?, ghost nextId: nat)
      requires Linked(nextId) && IsClient(client)
      requires timer != null ==> timer.timer.id < nextId && IsDelegate(timer)
      modifies client`mTimer
      ensures Linked(nextId) && client.mTimer == timer
      ensures Clients() == old(Clients())[client.id := if timer == null then None else Some(timer.timer.id)]
      ensures Delegates() == old(Delegates()) && Locks() == old(Locks())
    {
      client.mTimer := timer;
    }

    /** The lock of a client, shared with a new delegate that is not yet known. */
    method ShareWith(client: LocTimer, timer: Timer, container: LocTimerContainer, ghost kind: Kind)
        returns (d: LocTimerDelegate)
      requires Linked(timer.id) && IsClient(client) && IsLock(client.mLock)
      requires container == if kind == Sw then mSwTimers else mHwTimers
      modifies client.mLock
      ensures fresh(d) && d.timer == timer && Linked(timer.id) && DelegateLinked(d, timer.id + 1)
      ensures d.Abs() == Delegate(Some(client.id), client.id, kind, true, timer)
      ensures Clients() == old(Clients()) && Delegates() == old(Delegates())
      ensures Locks() == Share(old(Locks()), client.id)
    {
      d := new LocTimerDelegate(client, timer, container, kind);
    }

    /** destroyLocked on a delegate that is known. */
    method Detach(d: LocTimerDelegate, ghost nextId: nat) returns (container: LocTimerContainer?)
      requires Linked(nextId) && IsDelegate(d)
      modifies d
      ensures Linked(nextId)
      ensures container ==
        if !old(d.Abs()).contained then null else if d.kind == Sw then mSwTimers else mHwTimers
      ensures Delegates() == old(Delegates())[d.timer.id := old(d.Abs()).(client := None, contained := false)]
      ensures Clients() == old(Clients()) && Locks() == old(Locks())
    {
      container := d.DestroyLocked();
    }

    method NewClient(ghost c: nat, ghost nextId: nat) returns (client: LocTimer)
      requires Linked(nextId) && NoneDangles() && c !in mClients && c !in mLocks
      modifies Repr
      ensures Linked(nextId) && old(Repr) <= Repr && fresh(Repr - old(Repr)) && IsClient(client) && client.id == c
      ensures Clients() == old(Clients())[c := None] && Delegates() == old(Delegates())
      ensures Locks() == old(Locks())[c := 1]
    {
      client := new LocTimer(c);
      var lock := client.mLock;
      assert this in Repr;
      hide Linked, NoneDangles, Clients, Delegates, Locks, Known;
      AddLock(lock, nextId);
      AddClient(client, nextId);
    }

    /** The delegate that start makes, sharing the client's lock. */
    method NewDelegate(client: LocTimer, timer: Timer, container: LocTimerContainer, ghost kind: Kind)
        returns (d: LocTimerDelegate)
      requires Linked(timer.id) && IsClient(client) && client.mTimer == null && IsLock(client.mLock)
      requires container == if kind == Sw then mSwTimers else mHwTimers
      modifies Repr
      ensures Linked(timer.id + 1) && old(Repr) <= Repr && fresh(Repr - old(Repr)) && d.timer == timer
      ensures Clients() == old(Clients())[client.id := Some(timer.id)]
      ensures Delegates() == old(Delegates())[timer.id := Delegate(Some(client.id), client.id, kind, true, timer)]
      ensures Locks() == Share(old(Locks()), client.id)
    {
      assert this in Repr && client in Repr && client.mLock in Repr;
      hide Linked, Clients, Delegates, Locks, Known, DelegateLinked;
      d := ShareWith(client, timer, container, kind);
      AddDelegate(d);
      SetTimer(client, d, timer.id + 1);
    }

    /** What stop does to client and delegate: they forget each other, and the delegate its container. */
    method Part(client: LocTimer, ghost nextId: nat) returns (timer: LocTimerDelegate, container: LocTimerContainer?)
      requires Linked(nextId) && IsClient(client) && client.mTimer != null && IsDelegate(client.mTimer)
      modifies Repr
      ensures Linked(nextId) && Repr == old(Repr) && timer == old(client.mTimer)
      ensures mClients == old(mClients) && mLocks == old(mLocks) && client.mLock == old(client.mLock)
      ensures container ==
        if !old(timer.Abs()).contained then null else if timer.kind == Sw then mSwTimers else mHwTimers
      ensures Clients() == old(Clients())[client.id := None] && Locks() == old(Locks())
      ensures Delegates() ==
        old(Delegates())[timer.timer.id := old(timer.Abs()).(client := None, contained := false)]
    {
      timer := client.mTimer;
      assert client in Repr && timer in Repr;
      hide Linked, Clients, Delegates, Locks, Known;
      SetTimer(client, null, nextId);
      container := Detach(timer, nextId);
    }

    /** LocSharedLock::drop, after the last of which the lock is no more. */
    method DropLock(lock: LocSharedLock, ghost nextId: nat)
      requires Linked(nextId) && IsLock(lock)
      modifies this`mLocks, lock
      ensures Linked(nextId)
      ensures Clients() == old(Clients()) && Delegates() == old(Delegates())
      ensures Locks() == Drop(old(Locks()), lock.id)
    {
      var deleted := lock.Drop();
      if deleted {
        mLocks := mLocks - {lock.id};
      }
      assert Clients() == old(Clients());
      hide Clients;
      assert Delegates() == old(Delegates());
      hide Delegates;
    }

    ghost method DeleteClient(client: LocTimer, nextId: nat)
      requires Linked(nextId) && IsClient(client)
      modifies this`mClients
      ensures Linked(nextId)
      ensures Clients() == old(Clients()) - {client.id}
      ensures Delegates() == old(Delegates()) && Locks() == old(Locks())
    {
      mClients := mClients - {client.id};
    }

    /** The destructor of LocTimerDelegate and its deletion. */
    method DeleteDelegate(id: nat, ghost nextId: nat)
      requires Linked(nextId) && id in Delegates() && Delegates()[id].lock in Locks()
      modifies Repr
      ensures Linked(nextId) && Repr == old(Repr)
      ensures Clients() == old(Clients()) && Delegates() == old(Delegates()) - {id}
      ensures Locks() == Drop(old(Locks()), old(Delegates())[id].lock)
    {
      var d := mDelegates[id];
      assert Delegates()[id] == d.Abs();
      DropLock(d.mLock, nextId);
      Forget(d, nextId);
      ReleaseLock(d, nextId);
    }

    /** A delegate that is no longer known may be changed. */
    method ReleaseLock(d: LocTimerDelegate, ghost nextId: nat)
      requires Linked(nextId) && !IsDelegate(d)
      modifies d
      ensures Linked(nextId) && Delegates() == old(Delegates())
      ensures Clients() == old(Clients()) && Locks() == old(Locks())
    {
      d.mLock := null;
    }

    method Forget(d: LocTimerDelegate, ghost nextId: nat)
      requires Linked(nextId) && IsDelegate(d)
      modifies this`mDelegates
      ensures Linked(nextId) && Delegates() == old(Delegates()) - {d.timer.id}
      ensures Clients() == old(Clients()) && Locks() == old(Locks())
    {
      mDelegates := mDelegates - {d.timer.id};
    }
  }

  // ---------- The two containers ----------

  function Other(k: Kind): Kind {
    if k == Sw then Hw else Sw
  }

  /** mSwTimers and mHwTimers, which share nothing. */
  class Containers {
    const mSwTimers: LocTimerContainer
    const mHwTimers: LocTimerContainer
    ghost var Repr: set<object>

    constructor ()
      ensures Valid() && fresh(Repr) && Abs(Sw) == IDLE && Abs(Hw) == IDLE
    {
      var sw := new LocTimerContainer();
      var hw := new LocTimerContainer();
      mSwTimers, mHwTimers := sw, hw;
      Repr := {this} + sw.Repr() + hw.Repr();
    }

    function Of(k: Kind): LocTimerContainer {
      if k == Sw then mSwTimers else mHwTimers
    }

    ghost predicate Within(container: LocTimerContainer)
      reads this, Repr
    {
      && container in Repr && container.mHeap in Repr
      && (container.mHeap.mTree != null ==> container.mHeap.mTree in Repr && container.mHeap.mTree.Repr <= Repr)
    }

    ghost predicate Valid()
      reads this, Repr
    {
      && this in Repr && Within(mSwTimers) && Within(mHwTimers)
      && mSwTimers.Valid() && mHwTimers.Valid()
      && mSwTimers.Repr() !! mHwTimers.Repr() && this !in mSwTimers.Repr() && this !in mHwTimers.Repr()
    }

    ghost function Abs(k: Kind): Container
      requires Valid()
      reads this, Repr
    {
      Of(k).Abs()
    }

    method Push(k: Kind, timer: Timer)
      requires Valid()
      modifies Repr
      ensures Valid() && old(Repr) <= Repr && fresh(Repr - old(Repr))
      ensures Abs(k) == AfterPush(old(Abs(k)), timer) && Abs(Other(k)) == old(Abs(Other(k)))
    {
      hide AfterPush;
      Of(k).ProcPush(timer);
      Repr := Repr + Of(k).Repr();
    }

    method Remove(k: Kind, timer: Timer)
      requires Valid()
      modifies Repr
      ensures Valid() && Repr == old(Repr)
      ensures Abs(k) == AfterRemove(old(Abs(k)), timer) && Abs(Other(k)) == old(Abs(Other(k)))
    {
      Of(k).ProcRemove(timer);
    }

    method Pop(k: Kind) returns (popped: Option<Timer>)
      requires Valid()
      modifies Repr
      ensures Valid() && Repr == old(Repr)
      ensures popped == Top(old(Abs(k)).heap) && Abs(Other(k)) == old(Abs(Other(k)))
      ensures Abs(k) == if popped == None then old(Abs(k)) else old(Abs(k)).(heap := Popped(RANKED, old(Abs(k)).heap))
    {
      ghost var deleted;
      popped, deleted := Of(k).mHeap.Pop(RANKED);
    }

    method PopIfOutRanks(k: Kind, now: Timer) returns (popped: Option<Timer>)
      requires Valid()
      modifies Repr
      ensures Valid() && Repr == old(Repr)
      ensures popped == if Due(old(Abs(k)).heap, now) then Top(old(Abs(k)).heap) else None
      ensures Abs(k) == if popped == None then old(Abs(k)) else old(Abs(k)).(heap := Popped(RANKED, old(Abs(k)).heap))
      ensures Abs(Other(k)) == old(Abs(Other(k)))
    {
      popped := Of(k).PopIfOutRanks(now);
    }

    method UpdateSoonestTime(k: Kind)
      requires Valid()
      modifies Repr
      ensures Valid() && Repr == old(Repr)
      ensures Abs(k) == UpdateSoonest(old(Abs(k)), None) && Abs(Other(k)) == old(Abs(Other(k)))
    {
      Of(k).UpdateSoonestTime(None);
    }

    /** The poll thread's first statement. */
    method Disarm(k: Kind)
      requires Valid()
      modifies Repr
      ensures Valid() && Repr == old(Repr)
      ensures Abs(k) == old(Abs(k)).(armed := SetTime(TimeSpec(0, 0))) && Abs(Other(k)) == old(Abs(Other(k)))
    {
      Of(k).mArmed := SetTime(TimeSpec(0, 0));
    }

    /** The poll thread's second statement. */
    method RemovePoll(k: Kind)
      requires Valid()
      modifies Repr
      ensures Valid() && Repr == old(Repr)
      ensures Abs(k) == old(Abs(k)).(polled := false) && Abs(Other(k)) == old(Abs(Other(k)))
    {
      Of(k).mPolled := false;
    }
  }
}
