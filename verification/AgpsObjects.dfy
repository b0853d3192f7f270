/** The objects of gps/gnss/Agps.cpp and gps/gnss/Agps.h, method by method, computing what Agps and AgpsRuns
    specify. */
module AgpsObjects {
  import opened Wrappers
  import opened Agps
  import opened AgpsRuns

  /** Whoever receives the manager's callbacks, and what it was asked for. */
  class Callbacks {
    ghost var trace: seq<Entry>

    constructor ()
      ensures trace == []
    {
      trace := [];
    }

    /** Notes that a subscription was asked for. */
    method Note(ghost handle: int)
      modifies this
      ensures trace == old(trace) + [Asked(handle)]
    {
      trace := trace + [Asked(handle)];
    }

    method Send(ghost n: Notice)
      modifies this
      ensures trace == old(trace) + Sents([n])
    {
      trace := trace + Sents([n]);
    }
  }

  lemma SentsConcat(a: seq<Notice>, b: seq<Notice>)
    ensures Sents(a + b) == Sents(a) + Sents(b) && Sents([]) == []
  {
  }

  class AgpsSubscriber {
    var mConnHandle: int
    var mWaitForCloseComplete: bool
    var mIsInactive: bool

    constructor (connHandle: int, waitForCloseComplete: bool, isInactive: bool)
      ensures Value() == Subscriber(connHandle, waitForCloseComplete, isInactive)
    {
      mConnHandle, mWaitForCloseComplete, mIsInactive := connHandle, waitForCloseComplete, isInactive;
    }

    function Value(): Subscriber
      reads this
    {
      Subscriber(mConnHandle, mWaitForCloseComplete, mIsInactive)
    }

    method Clone() returns (s: AgpsSubscriber)
      ensures fresh(s) && s.Value() == Value()
    {
      s := new AgpsSubscriber(mConnHandle, mWaitForCloseComplete, mIsInactive);
    }
  }

  function Values(list: seq<AgpsSubscriber>): (subs: seq<Subscriber>)
    reads list
    ensures |subs| == |list| && forall i {:trigger subs[i]} :: 0 <= i < |list| ==> subs[i] == list[i].Value()
  {
    if list == [] then [] else [list[0].Value()] + Values(list[1..])
  }

  lemma ValueHandle(s: AgpsSubscriber)
    ensures s.Value().handle == s.mConnHandle && s.Value().inactive == s.mIsInactive
  {
  }

  /** What becomes of a machine with a connection by who is left on its list. */
  function Idled(m: Machine): Outcome {
    if m.subscribers == [] then Outcome(m.(state := Released), [DataConn(false, m.agpsType)])
    else if !AnyActive(m.subscribers) then Outcome(m.(state := Releasing), [DataConn(false, m.agpsType)])
    else Outcome(m, [])
  }

  lemma LeavingConnection(m: Machine, s: Subscriber)
    requires m.state == Pending || m.state == Acquired
    ensures var left := Left(m, s);
      OnUnsubscribe(m, s) == Outcome(Idled(left.machine).machine, left.notices + Idled(left.machine).notices)
  {
  }

  /** The index of a subscriber found by its handle: no earlier one has the same. */
  predicate FirstAt(subs: seq<Subscriber>, i: nat) {
    i < |subs| && forall k {:trigger subs[k]} :: 0 <= k < i ==> subs[k].handle != subs[i].handle
  }

  lemma {:induction false} FirstIsLookup(subs: seq<Subscriber>, i: nat)
    requires FirstAt(subs, i)
    ensures Lookup(subs, subs[i].handle) == Some(subs[i])
    ensures MarkedInactive(subs, subs[i].handle) == subs[i := subs[i].(inactive := true)]
  {
    if i > 0 {
      FirstIsLookup(subs[1..], i - 1);
    }
  }

  /** One turn of the loops over a list, seen by the functions they compute. */
  lemma Turn(s: seq<Subscriber>, i: nat, h: int)
    requires i < |s|
    ensures Lookup(s[i..], h) == if s[i].handle == h then Some(s[i]) else Lookup(s[i + 1..], h)
    ensures Deleted(s[i..], h) == if s[i].handle == h then Deleted(s[i + 1..], h) else [s[i]] + Deleted(s[i + 1..], h)
    ensures AnyActive(s[i..]) == (!s[i].inactive || AnyActive(s[i + 1..]))
  {
    assert s[i..][1..] == s[i + 1..];
  }

  /** The loop of notifyAllSubscribers has made `s` of the list `all`, stands at `i` and sent `sent`. */
  predicate Notifying(all: seq<Subscriber>, s: seq<Subscriber>, i: nat, sent: seq<Notice>, event: Event,
                      delete: bool, kind: Audience, t: int)
  {
    && i <= |s|
    && NoticesToAll(all, event, kind, t) == sent + NoticesToAll(s[i..], event, kind, t)
    && if delete then Spared(all, kind) == s[..i] + Spared(s[i..], kind) else s == all
  }

  /** What the body of that loop does to the list: whether it erases, and what it sends. */
  predicate Moves(s: seq<Subscriber>, s': seq<Subscriber>, i: nat, next: nat, delete: bool, kind: Audience)
    requires i < |s|
  {
    if delete && Addressed(kind, s[i]) then next == i && s' == s[..i] + s[i + 1..] else next == i + 1 && s' == s
  }

  function SentAt(s: Subscriber, event: Event, kind: Audience, t: int): seq<Notice> {
    if Addressed(kind, s) then NoticeOf(event, s.handle, t) else []
  }

  lemma NotifyTurn(s: seq<Subscriber>, i: nat, event: Event, kind: Audience, t: int)
    requires i < |s|
    ensures NoticesToAll(s[i..], event, kind, t) ==
      SentAt(s[i], event, kind, t) + NoticesToAll(s[i + 1..], event, kind, t)
    ensures Spared(s[i..], kind) ==
      if Addressed(kind, s[i]) then Spared(s[i + 1..], kind) else [s[i]] + Spared(s[i + 1..], kind)
  {
    hide NoticeOf, Addressed;
    assert s[i..][0] == s[i] && s[i..][1..] == s[i + 1..];
  }

  lemma NotifyingStep(all: seq<Subscriber>, s: seq<Subscriber>, s': seq<Subscriber>, i: nat, next: nat,
                      sent: seq<Notice>, event: Event, delete: bool, kind: Audience, t: int)
    requires i < |s| && Notifying(all, s, i, sent, event, delete, kind, t) && Moves(s, s', i, next, delete, kind)
    ensures Notifying(all, s', next, sent + SentAt(s[i], event, kind, t), event, delete, kind, t)
  {
    NotifyTurn(s, i, event, kind, t);
    Erased(s, i);
    hide NoticesToAll, Spared, SentAt, Addressed;
    Reassociate(sent, SentAt(s[i], event, kind, t), NoticesToAll(s[i + 1..], event, kind, t));
    Reassociate(s[..i], [s[i]], Spared(s[i + 1..], kind));
  }

  lemma Reassociate<T>(a: seq<T>, b: seq<T>, c: seq<T>)
    ensures a + (b + c) == (a + b) + c
  {
  }

  lemma NotifyingEnds(all: seq<Subscriber>, s: seq<Subscriber>, sent: seq<Notice>, event: Event,
                      delete: bool, kind: Audience, t: int)
    ensures Notifying(all, all, 0, [], event, delete, kind, t)
    ensures Notifying(all, s, |s|, sent, event, delete, kind, t) ==>
      sent == NoticesToAll(all, event, kind, t) && s == if delete then Spared(all, kind) else all
  {
    assert s[..|s|] == s && s[|s|..] == [] && all[0..] == all;
  }

  /** What an erasure leaves before and after the place of the iterator. */
  lemma Erased(s: seq<Subscriber>, i: nat)
    requires i < |s|
    ensures (s[..i] + s[i + 1..])[..i] == s[..i] && (s[..i] + s[i + 1..])[i..] == s[i + 1..]
    ensures s[..i + 1] == s[..i] + [s[i]]
  {
  }

  /** The loop of deleteSubscriber has made `s` of the list `all` and stands at `i`. */
  predicate Deleting(all: seq<Subscriber>, s: seq<Subscriber>, i: nat, h: int) {
    i <= |s| && Deleted(all, h) == s[..i] + Deleted(s[i..], h)
  }

  lemma DeletingStep(all: seq<Subscriber>, s: seq<Subscriber>, i: nat, h: int)
    requires i < |s| && Deleting(all, s, i, h)
    ensures if s[i].handle == h then Deleting(all, s[..i] + s[i + 1..], i, h) else Deleting(all, s, i + 1, h)
  {
    assert s[i..][0] == s[i] && s[i..][1..] == s[i + 1..];
    Erased(s, i);
  }

  lemma DeletingEnds(all: seq<Subscriber>, s: seq<Subscriber>, h: int)
    ensures Deleting(all, all, 0, h)
    ensures Deleting(all, s, |s|, h) ==> s == Deleted(all, h)
  {
    assert s[..|s|] == s && s[|s|..] == [] && all[0..] == all;
  }

  class AgpsStateMachine {
    const callbacks: Callbacks
    const mAgpsType: int
    var mSubscriberList: seq<AgpsSubscriber>
    var mCurrentSubscriber: AgpsSubscriber?
    var mState: State

    constructor (callbacks: Callbacks, agpsType: int)
      ensures this.callbacks == callbacks && Abs() == Machine([], Released, agpsType) && mSubscriberList == []
    {
      this.callbacks, mAgpsType := callbacks, agpsType;
      mSubscriberList, mCurrentSubscriber, mState := [], null, Released;
    }

    /** No object is in the list twice. */
    predicate Valid()
      reads this
    {
      forall i, j {:trigger mSubscriberList[i], mSubscriberList[j]} ::
        0 <= i < j < |mSubscriberList| ==> mSubscriberList[i] != mSubscriberList[j]
    }

    function Abs(): Machine
      reads this, mSubscriberList
    {
      Machine(Values(mSubscriberList), mState, mAgpsType)
    }

    ghost function Members(): set<AgpsSubscriber>
      reads this
    {
      set s | s in mSubscriberList
    }

    /** Is the current subscriber the one getSubscriber finds? */
    predicate CurrentAt(i: nat)
      reads this, mSubscriberList
    {
      && i < |mSubscriberList| && mCurrentSubscriber == mSubscriberList[i]
      && FirstAt(Values(mSubscriberList), i)
    }

    method Erase(i: nat)
      requires Valid() && i < |mSubscriberList|
      modifies this`mSubscriberList
      ensures Valid() && |mSubscriberList| == |old(mSubscriberList)| - 1
      ensures Values(mSubscriberList) == old(Values(mSubscriberList)[..i] + Values(mSubscriberList)[i + 1..])
      ensures Members() <= old(Members())
    {
      hide Values;
      mSubscriberList := mSubscriberList[..i] + mSubscriberList[i + 1..];
    }

    method Append(subscriber: AgpsSubscriber)
      requires Valid() && subscriber !in mSubscriberList
      modifies this`mSubscriberList
      ensures Valid() && Members() == old(Members()) + {subscriber}
      ensures Values(mSubscriberList) == old(Values(mSubscriberList)) + [subscriber.Value()]
    {
      hide Values;
      mSubscriberList := mSubscriberList + [subscriber];
    }

    method AddSubscriber(subscriberToAdd: AgpsSubscriber)
      requires Valid()
      modifies this`mSubscriberList
      ensures Valid()
      ensures Values(mSubscriberList) == Added(old(Values(mSubscriberList)), subscriberToAdd.Value())
      ensures fresh(Members() - old(Members()))
    {
      var listed := IsListed(subscriberToAdd);
      if !listed {
        var cloned := subscriberToAdd.Clone();
        hide Values, Lookup, FirstAt, Valid, Members;
        Append(cloned);
      }
    }

    /** The loop of addSubscriber. */
    method IsListed(sought: AgpsSubscriber) returns (listed: bool)
      ensures listed == Lookup(Values(mSubscriberList), sought.mConnHandle).Some?
    {
      assert Lookup([], sought.mConnHandle) == None;
      hide Values, Lookup;
      var i := 0;
      while i < |mSubscriberList|
        invariant i <= |mSubscriberList|
        invariant Lookup(Values(mSubscriberList), sought.mConnHandle)
               == Lookup(Values(mSubscriberList)[i..], sought.mConnHandle)
      {
        Turn(Values(mSubscriberList), i, sought.mConnHandle);
        if mSubscriberList[i].mConnHandle == sought.mConnHandle {
          return true;
        }
        i := i + 1;
      }
      return false;
    }

    method DeleteSubscriber(subscriberToDelete: AgpsSubscriber)
      requires Valid()
      modifies this`mSubscriberList
      ensures Valid()
      ensures Values(mSubscriberList) == Deleted(old(Values(mSubscriberList)), subscriberToDelete.mConnHandle)
      ensures Members() <= old(Members())
    {
      ghost var h, all := subscriberToDelete.mConnHandle, Values(mSubscriberList);
      hide *;
      DeletingEnds(all, all, h);
      var i: nat := 0;
      while i < |mSubscriberList|
        invariant i <= |mSubscriberList| && Valid() && Members() <= old(Members())
        invariant Deleting(all, Values(mSubscriberList), i, h)
        decreases |mSubscriberList| - i
      {
        ValueHandle(mSubscriberList[i]);
        assert Values(mSubscriberList)[i].handle == mSubscriberList[i].mConnHandle;
        DeletingStep(all, Values(mSubscriberList), i, h);
        if mSubscriberList[i].mConnHandle == subscriberToDelete.mConnHandle {
          Erase(i);
        } else {
          i := i + 1;
        }
      }
      DeletingEnds(all, Values(mSubscriberList), h);
    }

    method AnyActiveSubscribers() returns (any: bool)
      ensures any == AnyActive(Values(mSubscriberList))
    {
      hide Values;
      var i := 0;
      while i < |mSubscriberList|
        invariant i <= |mSubscriberList|
        invariant AnyActive(Values(mSubscriberList)) == AnyActive(Values(mSubscriberList)[i..])
      {
        Turn(Values(mSubscriberList), i, 0);
        if !mSubscriberList[i].mIsInactive {
          return true;
        }
        i := i + 1;
      }
      return false;
    }

    method GetSubscriber(connHandle: int) returns (subscriber: AgpsSubscriber?, ghost at: nat)
      ensures subscriber == null <==> Lookup(Values(mSubscriberList), connHandle).None?
      ensures subscriber != null ==>
        && FirstAt(Values(mSubscriberList), at) && subscriber == mSubscriberList[at]
        && subscriber.mConnHandle == connHandle
    {
      hide Values;
      var i := 0;
      at := 0;
      while i < |mSubscriberList|
        invariant i <= |mSubscriberList|
        invariant Lookup(Values(mSubscriberList), connHandle) == Lookup(Values(mSubscriberList)[i..], connHandle)
        invariant forall k {:trigger Values(mSubscriberList)[k]} ::
          0 <= k < i ==> Values(mSubscriberList)[k].handle != connHandle
      {
        Turn(Values(mSubscriberList), i, connHandle);
        if mSubscriberList[i].mConnHandle == connHandle {
          return mSubscriberList[i], i;
        }
        i := i + 1;
      }
      return null, 0;
    }

    method RequestOrReleaseDataConn(request: bool) returns (status: int)
      modifies callbacks
      ensures status == 0 && callbacks.trace == old(callbacks.trace) + Sents([DataConn(request, mAgpsType)])
    {
      callbacks.Send(DataConn(request, mAgpsType));
      status := 0;
    }

    method NotifyEventToSubscriber(event: Event, subscriberToNotify: AgpsSubscriber, deleteSubscriberPostNotify: bool)
      requires Valid()
      modifies this`mSubscriberList, callbacks
      ensures Valid()
      ensures callbacks.trace ==
        old(callbacks.trace) + Sents(NoticeOf(event, subscriberToNotify.mConnHandle, mAgpsType))
      ensures !deleteSubscriberPostNotify ==> mSubscriberList == old(mSubscriberList)
      ensures deleteSubscriberPostNotify ==>
        Values(mSubscriberList) == Deleted(old(Values(mSubscriberList)), subscriberToNotify.mConnHandle)
      ensures Members() <= old(Members())
    {
      match event {
        case Granted => callbacks.Send(OpenStatus(subscriberToNotify.mConnHandle, true, mAgpsType));
        case Denied => callbacks.Send(OpenStatus(subscriberToNotify.mConnHandle, false, mAgpsType));
        case Unsubscribe => callbacks.Send(CloseStatus(subscriberToNotify.mConnHandle, true));
        case ReleasedEvent => callbacks.Send(CloseStatus(subscriberToNotify.mConnHandle, true));
        case Subscribe => SentsConcat([], []);
      }
      if deleteSubscriberPostNotify {
        DeleteSubscriber(subscriberToNotify);
      }
    }

    method NotifyAllSubscribers(event: Event, deleteSubscriberPostNotify: bool, notificationType: Audience)
      requires Valid()
      modifies this`mSubscriberList, callbacks
      ensures Valid()
      ensures callbacks.trace ==
        old(callbacks.trace) + Sents(NoticesToAll(old(Values(mSubscriberList)), event, notificationType, mAgpsType))
      ensures Values(mSubscriberList) ==
        if deleteSubscriberPostNotify then Spared(old(Values(mSubscriberList)), notificationType)
        else old(Values(mSubscriberList))
      ensures Members() <= old(Members())
    {
      ghost var all := Values(mSubscriberList);
      ghost var sent := [];
      SentsConcat([], []);
      hide *;
      NotifyingEnds(all, all, sent, event, deleteSubscriberPostNotify, notificationType, mAgpsType);
      var i: nat := 0;
      while i < |mSubscriberList|
        invariant i <= |mSubscriberList| && Valid() && Members() <= old(Members())
        invariant callbacks.trace == old(callbacks.trace) + Sents(sent)
        invariant Notifying(all, Values(mSubscriberList), i, sent, event, deleteSubscriberPostNotify, notificationType,
                            mAgpsType)
        decreases |mSubscriberList| - i
      {
        ghost var was, at := Values(mSubscriberList), i;
        i := NotifyAt(i, event, deleteSubscriberPostNotify, notificationType);
        NotifyingStep(all, was, Values(mSubscriberList), at, i, sent, event, deleteSubscriberPostNotify,
                      notificationType, mAgpsType);
        SentsConcat(sent, SentAt(was[at], event, notificationType, mAgpsType));
        sent := sent + SentAt(was[at], event, notificationType, mAgpsType);
      }
      NotifyingEnds(all, Values(mSubscriberList), sent, event, deleteSubscriberPostNotify, notificationType, mAgpsType);
    }

    /** The body of the loop of notifyAllSubscribers, at the place of its iterator. */
    method NotifyAt(i: nat, event: Event, deleteSubscriberPostNotify: bool, notificationType: Audience)
        returns (next: nat)
      requires Valid() && i < |mSubscriberList|
      modifies this`mSubscriberList, callbacks
      ensures Valid() && Members() <= old(Members())
      ensures callbacks.trace ==
        old(callbacks.trace) + Sents(SentAt(old(Values(mSubscriberList)[i]), event, notificationType, mAgpsType))
      ensures Moves(old(Values(mSubscriberList)), Values(mSubscriberList), i, next, deleteSubscriberPostNotify,
                    notificationType)
      ensures i <= next <= |mSubscriberList| && |mSubscriberList| - next == old(|mSubscriberList|) - i - 1
    {
      SentsConcat([], []);
      hide Values, Sents, NoticeOf, Valid, Members;
      next := i + 1;
      var subscriber := mSubscriberList[i];
      if Addressed(notificationType, subscriber.Value()) {
        NotifyEventToSubscriber(event, subscriber, false);
        if deleteSubscriberPostNotify {
          Erase(i);
          next := i;
        }
      }
    }

    /** Did this machine become what an event makes of it, and were its notices sent? */
    twostate predicate Became(o: Outcome)
      reads this, mSubscriberList, callbacks
    {
      && Abs() == o.machine && callbacks.trace == old(callbacks.trace) + Sents(o.notices)
      && Valid()
    }

    method ProcessSubscribe()
      requires Valid() && mCurrentSubscriber != null
      modifies this`mSubscriberList, this`mState, callbacks
      ensures Became(OnSubscribe(old(Abs()), old(mCurrentSubscriber.Value())))
      ensures fresh(Members() - old(Members()))
    {
      SentsConcat([], []);
      hide Values, Added, Sents, NoticeOf;
      match mState {
        case Released =>
          AddSubscriber(mCurrentSubscriber);
          var status := RequestOrReleaseDataConn(true);
          if status == 0 {
            mState := Pending;
          }
        case Pending => AddSubscriber(mCurrentSubscriber);
        case Acquired =>
          NotifyEventToSubscriber(Granted, mCurrentSubscriber, false);
          AddSubscriber(mCurrentSubscriber);
        case Releasing => AddSubscriber(mCurrentSubscriber);
      }
    }

    /** The two branches every unsubscribe begins with. */
    method Leave(ghost at: nat)
      requires Valid() && CurrentAt(at) && mCurrentSubscriber != null
      modifies this`mSubscriberList, mCurrentSubscriber`mIsInactive, callbacks
      ensures Became(Left(old(Abs()), old(mCurrentSubscriber.Value())))
      ensures Members() <= old(Members())
    {
      SentsConcat([], []);
      FirstIsLookup(Values(mSubscriberList), at);
      if mCurrentSubscriber.mWaitForCloseComplete {
        mCurrentSubscriber.mIsInactive := true;
        ghost var was := old(Values(mSubscriberList));
        assert Values(mSubscriberList) == was[at := was[at].(inactive := true)];
      } else {
        NotifyEventToSubscriber(Unsubscribe, mCurrentSubscriber, true);
      }
    }

    method ProcessUnsubscribe(ghost at: nat)
      requires Valid() && CurrentAt(at) && mCurrentSubscriber != null
      modifies this`mSubscriberList, this`mState, mCurrentSubscriber`mIsInactive, callbacks
      ensures Became(OnUnsubscribe(old(Abs()), old(mCurrentSubscriber.Value())))
      ensures Members() <= old(Members())
    {
      hide Sents, NoticeOf, Values, Left, FirstAt;
      match mState {
        case Released => NotifyEventToSubscriber(Unsubscribe, mCurrentSubscriber, false);
        case Releasing =>
          Leave(at);
          if mSubscriberList == [] {
            mState := Released;
          }
        case _ => LeaveConnection(at);
      }
    }

    /** An unsubscribe while the connection is requested or there. */
    method LeaveConnection(ghost at: nat)
      requires Valid() && CurrentAt(at) && mCurrentSubscriber != null && (mState == Pending || mState == Acquired)
      modifies this`mSubscriberList, this`mState, mCurrentSubscriber`mIsInactive, callbacks
      ensures Became(OnUnsubscribe(old(Abs()), old(mCurrentSubscriber.Value())))
      ensures Members() <= old(Members())
    {
      ghost var left := Left(Abs(), mCurrentSubscriber.Value());
      LeavingConnection(Abs(), mCurrentSubscriber.Value());
      SentsConcat(left.notices, Idled(left.machine).notices);
      hide Sents, NoticeOf, Values, Left, FirstAt, OnUnsubscribe, Idled, Members;
      Leave(at);
      ReleaseIfIdle();
    }

    /** Without active subscribers the connection is released. */
    method ReleaseIfIdle()
      requires Valid()
      modifies this`mState, callbacks
      ensures Became(Idled(old(Abs())))
    {
      SentsConcat([], []);
      hide Sents, Values;
      var anyActive := AnyActiveSubscribers();
      var status;
      if mSubscriberList == [] {
        mState := Released;
        status := RequestOrReleaseDataConn(false);
      } else if !anyActive {
        mState := Releasing;
        status := RequestOrReleaseDataConn(false);
      }
    }

    method ProcessGranted()
      requires Valid()
      modifies this`mSubscriberList, this`mState, callbacks
      ensures Became(OnGranted(old(Abs())))
      ensures Members() <= old(Members())
    {
      SentsConcat([], []);
      if mState == Pending {
        mState := Acquired;
        NotifyAllSubscribers(Granted, false, ForActive);
      }
    }

    /** What both handlers do when the release is over. */
    method Close()
      requires Valid()
      modifies this`mSubscriberList, this`mState, callbacks
      ensures Became(Closed(old(Abs())))
      ensures Members() <= old(Members())
    {
      SentsConcat(NoticesToAll(Values(mSubscriberList), ReleasedEvent, ForInactive, mAgpsType),
                  [DataConn(true, mAgpsType)]);
      hide Sents, Values, NoticesToAll, Spared, AnyActive;
      NotifyAllSubscribers(ReleasedEvent, true, ForInactive);
      var anyActive := AnyActiveSubscribers();
      if anyActive {
        mState := Pending;
        var status := RequestOrReleaseDataConn(true);
      } else {
        mState := Released;
      }
    }

    method ProcessReleased()
      requires Valid()
      modifies this`mSubscriberList, this`mState, callbacks
      ensures Became(OnReleased(old(Abs())))
      ensures Members() <= old(Members())
    {
      SentsConcat([], []);
      match mState {
        case Acquired =>
          mState := Released;
          NotifyAllSubscribers(ReleasedEvent, true, ForAll);
        case Releasing => Close();
        case _ =>
      }
    }

    method ProcessDenied()
      requires Valid()
      modifies this`mSubscriberList, this`mState, callbacks
      ensures Became(OnDenied(old(Abs())))
      ensures Members() <= old(Members())
    {
      SentsConcat([], []);
      match mState {
        case Pending =>
          mState := Released;
          NotifyAllSubscribers(Denied, true, ForAll);
        case Releasing => Close();
        case _ =>
      }
    }

    method DropAllSubscribers()
      modifies this`mSubscriberList
      ensures mSubscriberList == []
    {
      while mSubscriberList != []
        decreases |mSubscriberList|
      {
        mSubscriberList := mSubscriberList[1..];
      }
    }
  }

  // ---------- The manager ----------

  function AbsOf(m: AgpsStateMachine?): Option<Machine>
    reads m, if m == null then [] else m.mSubscriberList
  {
    if m == null then None else Some(m.Abs())
  }

  class AgpsManager {
    const callbacks: Callbacks
    var mAgnssNif: AgpsStateMachine?
    var mInternetNif: AgpsStateMachine?

    ghost predicate Owns(m: AgpsStateMachine?, slot: Slot)
      reads this, m
    {
      m != null ==> m.Valid() && m.callbacks == callbacks && m.mAgpsType == TypeOf(slot)
    }

    /** The machines are two objects, share no subscriber and use the manager's callbacks. */
    ghost predicate Valid()
      reads this, mAgnssNif, mInternetNif
    {
      && Owns(mAgnssNif, Agnss) && Owns(mInternetNif, Internet)
      && (mAgnssNif != null && mInternetNif != null ==>
            mAgnssNif != mInternetNif &&
            mAgnssNif.Members() !! mInternetNif.Members())
    }

    ghost function Abs(): World
      reads this, callbacks, mAgnssNif, mInternetNif
      reads if mAgnssNif == null then [] else mAgnssNif.mSubscriberList
      reads if mInternetNif == null then [] else mInternetNif.mSubscriberList
    {
      World(AbsOf(mAgnssNif), AbsOf(mInternetNif), callbacks.trace)
    }

    constructor ()
      ensures Valid() && Abs() == START && fresh(callbacks)
    {
      callbacks := new Callbacks();
      mAgnssNif, mInternetNif := null, null;
    }

    method CreateAgpsStateMachines(agpsCapable: bool)
      requires Valid()
      modifies this
      ensures Valid() && Abs() == Step(old(Abs()), CreateMachines(agpsCapable))
    {
      if mInternetNif == null {
        mInternetNif := new AgpsStateMachine(callbacks, TYPE_WWAN_ANY);
      }
      if agpsCapable {
        if mAgnssNif == null {
          mAgnssNif := new AgpsStateMachine(callbacks, TYPE_SUPL);
        }
      }
    }

    method GetAgpsStateMachine(agpsType: int) returns (sm: AgpsStateMachine?)
      ensures sm == if agpsType in {TYPE_INVALID, TYPE_SUPL, TYPE_SUPL_ES} then mAgnssNif else mInternetNif
    {
      if agpsType == TYPE_INVALID || agpsType == TYPE_SUPL {
        return mAgnssNif;
      } else if agpsType == TYPE_SUPL_ES {
        return mAgnssNif;
      } else {
        return mInternetNif;
      }
    }

    method RequestATL(connHandle: int, agpsType: int)
      requires Valid()
      modifies callbacks, mAgnssNif, mInternetNif
      ensures Valid() && Abs() == Step(old(Abs()), AgpsRuns.RequestATL(connHandle, agpsType))
    {
      hide OnSubscribe, Sents, NewSubscriber, Lookup, AgpsStateMachine.Members;
      var sm := GetAgpsStateMachine(agpsType);
      callbacks.Note(connHandle);
      assert Abs() == old(Abs()).(trace := old(callbacks.trace) + [Asked(connHandle)]);
      if sm == null {
        callbacks.Send(OpenStatus(connHandle, false, agpsType));
        return;
      }
      var subscriber := MakeSubscriber(connHandle, agpsType);
      SubscribeTo(sm, subscriber);
    }

    /** The subscriber of requestATL, which waits for the close only if it is for an emergency. */
    method MakeSubscriber(connHandle: int, agpsType: int) returns (subscriber: AgpsSubscriber)
      ensures fresh(subscriber) && subscriber.Value() == NewSubscriber(connHandle, agpsType)
    {
      subscriber := new AgpsSubscriber(connHandle, false, false);
      if agpsType == TYPE_SUPL_ES {
        subscriber.mWaitForCloseComplete := true;
      }
    }

    /** The end of requestATL. */
    method SubscribeTo(sm: AgpsStateMachine, subscriber: AgpsSubscriber)
      requires Valid() && (sm == mAgnssNif || sm == mInternetNif)
      modifies callbacks, sm
      ensures Valid()
      ensures Abs() == Applied(old(Abs()), if sm == old(mAgnssNif) then Agnss else Internet,
                               OnSubscribe(old(sm.Abs()), old(subscriber.Value())))
    {
      hide OnSubscribe, Sents;
      sm.mCurrentSubscriber := subscriber;
      assert sm.Abs() == old(sm.Abs());
      sm.ProcessSubscribe();
    }

    method ReleaseATL(connHandle: int)
      requires Valid()
      modifies callbacks, mAgnssNif, mInternetNif
      modifies if mAgnssNif == null then [] else mAgnssNif.mSubscriberList
      modifies if mInternetNif == null then [] else mInternetNif.mSubscriberList
      ensures Valid() && Abs() == Step(old(Abs()), AgpsRuns.ReleaseATL(connHandle))
    {
      var sm, subscriber, at := FindSubscriber(connHandle);
      if sm == null {
        callbacks.Send(CloseStatus(connHandle, false));
        return;
      }
      FirstIsLookup(Values(sm.mSubscriberList), at);
      hide OnUnsubscribe, Sents, Values, Lookup, FirstAt, MarkedInactive;
      UnsubscribeFrom(sm, subscriber, at);
    }

    /** The search of releaseATL through all machines. */
    method FindSubscriber(connHandle: int)
        returns (sm: AgpsStateMachine?, subscriber: AgpsSubscriber?, ghost at: nat)
      requires Valid()
      ensures match Find(Abs(), connHandle)
        case None => sm == null
        case Some(slot) =>
          && sm != null && sm == (if slot.Agnss? then mAgnssNif else mInternetNif) && subscriber != null
          && FirstAt(Values(sm.mSubscriberList), at) && subscriber == sm.mSubscriberList[at]
          && subscriber.mConnHandle == connHandle
    {
      hide Values, Lookup, FirstAt;
      sm, subscriber, at := null, null, 0;
      if mAgnssNif != null {
        subscriber, at := mAgnssNif.GetSubscriber(connHandle);
      }
      if subscriber != null {
        sm := mAgnssNif;
      } else if mInternetNif != null {
        subscriber, at := mInternetNif.GetSubscriber(connHandle);
        if subscriber != null {
          sm := mInternetNif;
        }
      }
    }

    /** The end of releaseATL. */
    method UnsubscribeFrom(sm: AgpsStateMachine, subscriber: AgpsSubscriber, ghost at: nat)
      requires Valid() && (sm == mAgnssNif || sm == mInternetNif)
      requires FirstAt(Values(sm.mSubscriberList), at) && subscriber == sm.mSubscriberList[at]
      modifies callbacks, sm, subscriber`mIsInactive
      ensures Valid()
      ensures Abs() == Applied(old(Abs()), if sm == old(mAgnssNif) then Agnss else Internet,
                               OnUnsubscribe(old(sm.Abs()), old(subscriber.Value())))
    {
      hide OnUnsubscribe, Sents;
      assert subscriber in sm.Members();
      sm.mCurrentSubscriber := subscriber;
      assert sm.Abs() == old(sm.Abs());
      sm.ProcessUnsubscribe(at);
    }

    method ReportAtlOpenSuccess(agpsType: int)
      requires Valid() && Enabled(Abs(), AtlOpenSuccess(agpsType))
      modifies callbacks, mAgnssNif, mInternetNif
      ensures Valid() && Abs() == Step(old(Abs()), AtlOpenSuccess(agpsType))
    {
      var sm := GetAgpsStateMachine(agpsType);
      sm.ProcessGranted();
      hide OnGranted, Sents;
    }

    method ReportAtlOpenFailed(agpsType: int)
      requires Valid() && Enabled(Abs(), AtlOpenFailed(agpsType))
      modifies callbacks, mAgnssNif, mInternetNif
      ensures Valid() && Abs() == Step(old(Abs()), AtlOpenFailed(agpsType))
    {
      var sm := GetAgpsStateMachine(agpsType);
      sm.ProcessDenied();
      hide OnDenied, Sents;
    }

    method ReportAtlClosed(agpsType: int)
      requires Valid() && Enabled(Abs(), AtlClosed(agpsType))
      modifies callbacks, mAgnssNif, mInternetNif
      ensures Valid() && Abs() == Step(old(Abs()), AtlClosed(agpsType))
    {
      var sm := GetAgpsStateMachine(agpsType);
      sm.ProcessReleased();
      hide OnReleased, Sents;
    }

    method HandleModemSSR()
      requires Valid()
      modifies mAgnssNif, mInternetNif
      ensures Valid() && Abs() == Step(old(Abs()), ModemRestart)
    {
      if mAgnssNif != null {
        mAgnssNif.DropAllSubscribers();
      }
      if mInternetNif != null {
        mInternetNif.DropAllSubscribers();
      }
    }
  }
}
