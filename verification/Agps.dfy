/** gps/gnss/Agps.cpp, the base machine: what each event does to the subscriber list and the state, which
    notices go out, and what holds over whole runs of the manager with its two base machines. */
module Agps {
  import opened Wrappers

  const TYPE_INVALID := -1
  const TYPE_SUPL := 1
  const TYPE_WWAN_ANY := 3
  const TYPE_SUPL_ES := 5

  datatype Subscriber = Subscriber(handle: int, waitForClose: bool, inactive: bool)

  datatype State = Released | Pending | Acquired | Releasing

  datatype Machine = Machine(subscribers: seq<Subscriber>, state: State, agpsType: int)

  /** Calls of mAtlOpenStatusCb, mAtlCloseStatusCb and mFrameworkStatusV4Cb. */
  datatype Notice =
    | OpenStatus(handle: int, success: bool, agpsType: int)
    | CloseStatus(handle: int, success: bool)
    | DataConn(request: bool, agpsType: int)

  datatype Outcome = Outcome(machine: Machine, notices: seq<Notice>)

  // ---------- The subscriber list ----------

  /** The first subscriber with a handle: getSubscriber. */
  function Lookup(subs: seq<Subscriber>, h: int): (r: Option<Subscriber>)
    ensures r.Some? ==> r.value.handle == h
  {
    if subs == [] then None else if subs[0].handle == h then Some(subs[0]) else Lookup(subs[1..], h)
  }

  function Added(subs: seq<Subscriber>, s: Subscriber): seq<Subscriber> {
    if Lookup(subs, s.handle).Some? then subs else subs + [s]
  }

  function Deleted(subs: seq<Subscriber>, h: int): seq<Subscriber> {
    if subs == [] then []
    else if subs[0].handle == h then Deleted(subs[1..], h)
    else [subs[0]] + Deleted(subs[1..], h)
  }

  /** mIsInactive set through the pointer that getSubscriber returned. */
  function MarkedInactive(subs: seq<Subscriber>, h: int): seq<Subscriber> {
    if subs == [] then []
    else if subs[0].handle == h then [subs[0].(inactive := true)] + subs[1..]
    else [subs[0]] + MarkedInactive(subs[1..], h)
  }

  predicate AnyActive(subs: seq<Subscriber>) {
    subs != [] && (!subs[0].inactive || AnyActive(subs[1..]))
  }

  predicate AnyInactive(subs: seq<Subscriber>) {
    subs != [] && (subs[0].inactive || AnyInactive(subs[1..]))
  }

  // ---------- Notices to many ----------

  datatype Audience = ForAll | ForInactive | ForActive

  predicate Addressed(kind: Audience, s: Subscriber) {
    kind.ForAll? || (kind.ForInactive? && s.inactive) || (kind.ForActive? && !s.inactive)
  }

  datatype Event = Subscribe | Unsubscribe | Granted | ReleasedEvent | Denied

  /** What notifyEventToSubscriber sends; it sends nothing for a subscribe event. */
  function NoticeOf(event: Event, h: int, agpsType: int): seq<Notice> {
    match event
    case Granted => [OpenStatus(h, true, agpsType)]
    case Denied => [OpenStatus(h, false, agpsType)]
    case Unsubscribe => [CloseStatus(h, true)]
    case ReleasedEvent => [CloseStatus(h, true)]
    case Subscribe => []
  }

  function NoticesToAll(subs: seq<Subscriber>, event: Event, kind: Audience, agpsType: int): seq<Notice> {
    if subs == [] then []
    else (if Addressed(kind, subs[0]) then NoticeOf(event, subs[0].handle, agpsType) else [])
         + NoticesToAll(subs[1..], event, kind, agpsType)
  }

  function Spared(subs: seq<Subscriber>, kind: Audience): seq<Subscriber> {
    if subs == [] then []
    else if Addressed(kind, subs[0]) then Spared(subs[1..], kind)
    else [subs[0]] + Spared(subs[1..], kind)
  }

  // ---------- The events ----------

  function OnSubscribe(m: Machine, s: Subscriber): Outcome {
    var added := m.(subscribers := Added(m.subscribers, s));
    match m.state
    case Released => Outcome(added.(state := Pending), [DataConn(true, m.agpsType)])
    case Pending => Outcome(added, [])
    case Acquired => Outcome(added, NoticeOf(Granted, s.handle, m.agpsType))
    case Releasing => Outcome(added, [])
  }

  /** Either the subscriber waits for the close, or it is told at once and deleted. */
  function Left(m: Machine, s: Subscriber): Outcome {
    if s.waitForClose then Outcome(m.(subscribers := MarkedInactive(m.subscribers, s.handle)), [])
    else Outcome(m.(subscribers := Deleted(m.subscribers, s.handle)), NoticeOf(Unsubscribe, s.handle, m.agpsType))
  }

  function OnUnsubscribe(m: Machine, s: Subscriber): Outcome {
    var Outcome(left, notices) := Left(m, s);
    match m.state
    case Released => Outcome(m, NoticeOf(Unsubscribe, s.handle, m.agpsType))
    case Releasing => Outcome(if left.subscribers == [] then left.(state := Released) else left, notices)
    case _ =>
      if left.subscribers == [] then Outcome(left.(state := Released), notices + [DataConn(false, m.agpsType)])
      else if !AnyActive(left.subscribers) then
        Outcome(left.(state := Releasing), notices + [DataConn(false, m.agpsType)])
      else Outcome(left, notices)
  }

  function OnGranted(m: Machine): Outcome {
    if !m.state.Pending? then Outcome(m, [])
    else Outcome(m.(state := Acquired), NoticesToAll(m.subscribers, Granted, ForActive, m.agpsType))
  }

  /** The end of a release: those who waited for it are told, and the others wait for a new connection. */
  function Closed(m: Machine): Outcome {
    var told := NoticesToAll(m.subscribers, ReleasedEvent, ForInactive, m.agpsType);
    var left := m.(subscribers := Spared(m.subscribers, ForInactive));
    if AnyActive(left.subscribers) then Outcome(left.(state := Pending), told + [DataConn(true, m.agpsType)])
    else Outcome(left.(state := Released), told)
  }

  function Dropped(m: Machine, event: Event): Outcome {
    Outcome(m.(state := Released, subscribers := Spared(m.subscribers, ForAll)),
            NoticesToAll(m.subscribers, event, ForAll, m.agpsType))
  }

  function OnReleased(m: Machine): Outcome {
    match m.state
    case Acquired => Dropped(m, ReleasedEvent)
    case Releasing => Closed(m)
    case _ => Outcome(m, [])
  }

  function OnDenied(m: Machine): Outcome {
    match m.state
    case Pending => Dropped(m, Denied)
    case Releasing => Closed(m)
    case _ => Outcome(m, [])
  }

  // ---------- What holds between events ----------

  predicate Distinct(subs: seq<Subscriber>) {
    subs == [] || (Lookup(subs[1..], subs[0].handle).None? && Distinct(subs[1..]))
  }

  predicate InactiveWait(subs: seq<Subscriber>) {
    subs == [] || ((subs[0].inactive ==> subs[0].waitForClose) && InactiveWait(subs[1..]))
  }

  predicate MachineInv(m: Machine) {
    && Distinct(m.subscribers) && InactiveWait(m.subscribers)
    && (m.state.Released? ==> m.subscribers == [])
    && (m.state.Pending? || m.state.Acquired? ==> AnyActive(m.subscribers))
    && (m.state.Releasing? ==> AnyInactive(m.subscribers))
  }

  lemma {:induction false} LookupAppend(subs: seq<Subscriber>, s: Subscriber, h: int)
    ensures Lookup(subs + [s], h) ==
      if Lookup(subs, h).Some? then Lookup(subs, h) else if s.handle == h then Some(s) else None
  {
    if subs != [] {
      assert (subs + [s])[1..] == subs[1..] + [s];
      LookupAppend(subs[1..], s, h);
    } else {
      assert (subs + [s])[1..] == [];
    }
  }

  lemma {:induction false} AddedKeeps(subs: seq<Subscriber>, s: Subscriber)
    requires Distinct(subs) && InactiveWait(subs) && !s.inactive
    ensures Distinct(Added(subs, s)) && InactiveWait(Added(subs, s))
    ensures AnyActive(subs) || Lookup(subs, s.handle).None? ==> AnyActive(Added(subs, s))
    ensures AnyInactive(subs) ==> AnyInactive(Added(subs, s))
  {
    if subs == [] {
      assert Added(subs, s) == [s];
      assert [s][1..] == [];
    } else if Lookup(subs, s.handle).None? {
      assert Added(subs, s)[1..] == Added(subs[1..], s);
      AddedKeeps(subs[1..], s);
      LookupAppend(subs[1..], s, subs[0].handle);
    }
  }

  lemma {:induction false} LookupAfterDelete(subs: seq<Subscriber>, d: int, h: int)
    ensures Lookup(Deleted(subs, d), h) == if h == d then None else Lookup(subs, h)
  {
    if subs != [] {
      LookupAfterDelete(subs[1..], d, h);
      assert subs[0].handle != d ==> Deleted(subs, d)[1..] == Deleted(subs[1..], d);
    }
  }

  lemma {:induction false} DeletedKeeps(subs: seq<Subscriber>, d: int)
    requires Distinct(subs) && InactiveWait(subs)
    ensures Distinct(Deleted(subs, d)) && InactiveWait(Deleted(subs, d))
    ensures AnyInactive(subs) && !(Lookup(subs, d).Some? && Lookup(subs, d).value.inactive) ==>
      AnyInactive(Deleted(subs, d))
  {
    if subs != [] {
      DeletedKeeps(subs[1..], d);
      LookupAfterDelete(subs[1..], d, subs[0].handle);
      NothingToDelete(subs[1..], d);
      assert subs[0].handle != d ==> Deleted(subs, d)[1..] == Deleted(subs[1..], d);
    }
  }

  lemma {:induction false} NothingToDelete(subs: seq<Subscriber>, d: int)
    ensures Lookup(subs, d).None? ==> Deleted(subs, d) == subs
  {
    if subs != [] {
      NothingToDelete(subs[1..], d);
    }
  }

  lemma {:induction false} LookupAfterMark(subs: seq<Subscriber>, d: int, h: int)
    ensures Lookup(MarkedInactive(subs, d), h) ==
      if h == d && Lookup(subs, h).Some? then Some(Lookup(subs, h).value.(inactive := true)) else Lookup(subs, h)
  {
    if subs != [] {
      LookupAfterMark(subs[1..], d, h);
    }
  }

  lemma {:induction false} MarkedKeeps(subs: seq<Subscriber>, d: int)
    requires Distinct(subs) && InactiveWait(subs)
    requires Lookup(subs, d).Some? ==> Lookup(subs, d).value.waitForClose
    ensures Distinct(MarkedInactive(subs, d)) && InactiveWait(MarkedInactive(subs, d))
    ensures Lookup(subs, d).Some? || AnyInactive(subs) ==> AnyInactive(MarkedInactive(subs, d))
    ensures |MarkedInactive(subs, d)| == |subs|
  {
    if subs != [] && subs[0].handle != d {
      MarkedKeeps(subs[1..], d);
      LookupAfterMark(subs[1..], d, subs[0].handle);
      assert MarkedInactive(subs, d)[1..] == MarkedInactive(subs[1..], d);
    }
  }

  lemma {:induction false} LookupSpared(subs: seq<Subscriber>, kind: Audience, h: int)
    requires Distinct(subs)
    ensures Lookup(Spared(subs, kind), h) ==
      if Lookup(subs, h).Some? && !Addressed(kind, Lookup(subs, h).value) then Lookup(subs, h) else None
  {
    if subs != [] {
      LookupSpared(subs[1..], kind, h);
      assert !Addressed(kind, subs[0]) ==> Spared(subs, kind)[1..] == Spared(subs[1..], kind);
    }
  }

  lemma {:induction false} SparedKeeps(subs: seq<Subscriber>, kind: Audience)
    requires Distinct(subs) && InactiveWait(subs)
    ensures Distinct(Spared(subs, kind)) && InactiveWait(Spared(subs, kind))
    ensures kind.ForAll? ==> Spared(subs, kind) == []
    ensures kind.ForInactive? && !AnyActive(Spared(subs, kind)) ==> Spared(subs, kind) == []
  {
    if subs != [] {
      SparedKeeps(subs[1..], kind);
      LookupSpared(subs[1..], kind, subs[0].handle);
      assert !Addressed(kind, subs[0]) ==> Spared(subs, kind)[1..] == Spared(subs[1..], kind);
    }
  }

  lemma {:induction false} NobodyActive(subs: seq<Subscriber>)
    ensures !AnyActive(subs) && subs != [] ==> AnyInactive(subs)
  {
  }

  // ---------- Notices to one subscription ----------

  /** Where a subscription is, read off the notices its handle got. */
  datatype Phase = Gone | Waiting | Open | Broken

  function Advance(p: Phase, n: Notice, h: int): Phase {
    match n
    case DataConn(_, _) => p
    case OpenStatus(k, success, _) =>
      if k != h then p
      else if success then (if p.Waiting? then Open else Broken)
      else if p.Waiting? then Gone
      else Broken
    case CloseStatus(k, success) =>
      if k != h then p
      else if success then (if p.Waiting? || p.Open? then Gone else Broken)
      else if p.Gone? then Gone
      else Broken
  }

  function Follow(p: Phase, notices: seq<Notice>, h: int): Phase
    decreases notices
  {
    if notices == [] then p else Follow(Advance(p, notices[0], h), notices[1..], h)
  }

  lemma {:induction false} FollowConcat(p: Phase, a: seq<Notice>, b: seq<Notice>, h: int)
    ensures Follow(p, a + b, h) == Follow(Follow(p, a, h), b, h)
    decreases a
  {
    if a == [] {
      assert a + b == b;
    } else {
      assert (a + b)[1..] == a[1..] + b;
      FollowConcat(Advance(p, a[0], h), a[1..], b, h);
    }
  }

  lemma FollowOne(p: Phase, n: Notice, h: int)
    ensures Follow(p, [n], h) == Advance(p, n, h)
  {
    assert [n][1..] == [];
  }

  lemma {:induction false} FollowToAll(p: Phase, subs: seq<Subscriber>, event: Event, kind: Audience, t: int, h: int)
    requires Distinct(subs)
    ensures Follow(p, NoticesToAll(subs, event, kind, t), h) ==
      if Lookup(subs, h).Some? && Addressed(kind, Lookup(subs, h).value) then Follow(p, NoticeOf(event, h, t), h)
      else p
    decreases subs
  {
    if subs != [] {
      var first := if Addressed(kind, subs[0]) then NoticeOf(event, subs[0].handle, t) else [];
      FollowConcat(p, first, NoticesToAll(subs[1..], event, kind, t), h);
      FollowToAll(Follow(p, first, h), subs[1..], event, kind, t, h);
      FollowNoticeOf(p, event, subs[0].handle, t, h);
    }
  }

  lemma FollowNoticeOf(p: Phase, event: Event, k: int, t: int, h: int)
    ensures Follow(p, NoticeOf(event, k, t), h) ==
      if event.Subscribe? then p else Advance(p, NoticeOf(event, k, t)[0], h)
    ensures k != h ==> Follow(p, NoticeOf(event, k, t), h) == p
  {
    if !event.Subscribe? {
      FollowOne(p, NoticeOf(event, k, t)[0], h);
    }
  }

  /** In which phases a listed subscriber can be: all wait while the connection is requested, all active
      ones are open while it is there, and those who came during a release wait for the next one. */
  predicate Fits(state: State, s: Subscriber, p: Phase) {
    && (p.Waiting? || p.Open?)
    && (state.Pending? ==> p.Waiting?)
    && (state.Acquired? && !s.inactive ==> p.Open?)
    && (state.Releasing? && !s.inactive ==> p.Waiting?)
  }

  /** One event seen by one subscription in phase `p`, new if `joins`, listed before or not. */
  predicate Tracks(before: Machine, o: Outcome, h: int, joins: bool, p: Phase) {
    var was, now, q := Lookup(before.subscribers, h), Lookup(o.machine.subscribers, h), Follow(p, o.notices, h);
    (if joins then p.Waiting? else was.Some? ==> Fits(before.state, was.value, p)) ==>
      if now.Some? then (joins || was.Some?) && Fits(o.machine.state, now.value, q)
      else !joins && q == if was.Some? then Gone else p
  }

  lemma SubscribeTracks(m: Machine, s: Subscriber, h: int, p: Phase)
    requires MachineInv(m) && Lookup(m.subscribers, s.handle).None? && !s.inactive
    ensures Tracks(m, OnSubscribe(m, s), h, h == s.handle, p)
  {
    LookupAppend(m.subscribers, s, h);
    FollowOne(p, DataConn(true, m.agpsType), h);
    FollowNoticeOf(p, Granted, s.handle, m.agpsType, h);
  }

  lemma UnsubscribeTracks(m: Machine, s: Subscriber, h: int, p: Phase)
    requires MachineInv(m) && Lookup(m.subscribers, s.handle) == Some(s)
    ensures Tracks(m, OnUnsubscribe(m, s), h, false, p)
  {
    LookupAfterDelete(m.subscribers, s.handle, h);
    LookupAfterMark(m.subscribers, s.handle, h);
    var Outcome(left, notices) := Left(m, s);
    AllInactive(left.subscribers, h);
    FollowNoticeOf(p, Unsubscribe, s.handle, m.agpsType, h);
    FollowConcat(p, notices, [DataConn(false, m.agpsType)], h);
    FollowOne(Follow(p, notices, h), DataConn(false, m.agpsType), h);
    assert !m.state.Released?;
    assert Follow(p, [], h) == p;
    hide MachineInv, Follow, MarkedInactive, Deleted, AnyActive;
  }

  lemma {:induction false} AllInactive(subs: seq<Subscriber>, h: int)
    ensures !AnyActive(subs) && Lookup(subs, h).Some? ==> Lookup(subs, h).value.inactive
  {
    if subs != [] {
      AllInactive(subs[1..], h);
    }
  }

  lemma GrantedTracks(m: Machine, h: int, p: Phase)
    requires MachineInv(m)
    ensures Tracks(m, OnGranted(m), h, false, p)
  {
    FollowToAll(p, m.subscribers, Granted, ForActive, m.agpsType, h);
    FollowNoticeOf(p, Granted, h, m.agpsType, h);
  }

  lemma DroppedTracks(m: Machine, event: Event, h: int, p: Phase)
    requires MachineInv(m) && (event.ReleasedEvent? || (event.Denied? && m.state.Pending?))
    ensures Tracks(m, Dropped(m, event), h, false, p)
  {
    LookupSpared(m.subscribers, ForAll, h);
    FollowToAll(p, m.subscribers, event, ForAll, m.agpsType, h);
    FollowNoticeOf(p, event, h, m.agpsType, h);
  }

  lemma ClosedTracks(m: Machine, h: int, p: Phase)
    requires MachineInv(m) && m.state.Releasing?
    ensures Tracks(m, Closed(m), h, false, p)
  {
    LookupSpared(m.subscribers, ForInactive, h);
    SparedKeeps(m.subscribers, ForInactive);
    var told := NoticesToAll(m.subscribers, ReleasedEvent, ForInactive, m.agpsType);
    FollowToAll(p, m.subscribers, ReleasedEvent, ForInactive, m.agpsType, h);
    FollowNoticeOf(p, ReleasedEvent, h, m.agpsType, h);
    FollowConcat(p, told, [DataConn(true, m.agpsType)], h);
    FollowOne(Follow(p, told, h), DataConn(true, m.agpsType), h);
    hide MachineInv, Follow, Spared, NoticesToAll;
  }

  // ---------- Every event keeps the invariant ----------

  lemma SubscribeKeeps(m: Machine, s: Subscriber)
    requires MachineInv(m) && !s.inactive
    ensures MachineInv(OnSubscribe(m, s).machine)
  {
    AddedKeeps(m.subscribers, s);
  }

  /** While releasing, an unsubscribe never empties the list: whoever the release waits for is still there. */
  lemma UnsubscribeKeeps(m: Machine, s: Subscriber)
    requires MachineInv(m) && Lookup(m.subscribers, s.handle) == Some(s)
    ensures MachineInv(OnUnsubscribe(m, s).machine)
    ensures m.state.Releasing? ==> OnUnsubscribe(m, s).machine.state.Releasing?
  {
    DeletedKeeps(m.subscribers, s.handle);
    InactiveWaitAt(m.subscribers, s.handle);
    if s.waitForClose {
      MarkedKeeps(m.subscribers, s.handle);
    }
    NobodyActive(Left(m, s).machine.subscribers);
  }

  lemma {:induction false} InactiveWaitAt(subs: seq<Subscriber>, h: int)
    requires InactiveWait(subs)
    ensures Lookup(subs, h).Some? && Lookup(subs, h).value.inactive ==> Lookup(subs, h).value.waitForClose
  {
    if subs != [] {
      InactiveWaitAt(subs[1..], h);
    }
  }

  lemma ResourceEventsKeep(m: Machine)
    requires MachineInv(m)
    ensures MachineInv(OnGranted(m).machine) && MachineInv(OnReleased(m).machine) && MachineInv(OnDenied(m).machine)
  {
    SparedKeeps(m.subscribers, ForAll);
    SparedKeeps(m.subscribers, ForInactive);
  }

  // ---------- Requests against releases ----------

  function Conns(notices: seq<Notice>, request: bool): nat {
    if notices == [] then 0
    else (if notices[0].DataConn? && notices[0].request == request then 1 else 0) + Conns(notices[1..], request)
  }

  /** Does the machine hold, or has it asked for, a data connection? */
  function Held(m: Machine): int {
    if m.state.Pending? || m.state.Acquired? then 1 else 0
  }

  lemma {:induction false} ConnsConcat(a: seq<Notice>, b: seq<Notice>, request: bool)
    ensures Conns(a + b, request) == Conns(a, request) + Conns(b, request)
  {
    if a == [] {
      assert a + b == b;
    } else {
      assert (a + b)[1..] == a[1..] + b;
      ConnsConcat(a[1..], b, request);
    }
  }

  lemma {:induction false} NoConnsToAll(subs: seq<Subscriber>, event: Event, kind: Audience, t: int, request: bool)
    ensures Conns(NoticesToAll(subs, event, kind, t), request) == 0
  {
    if subs != [] {
      var first := if Addressed(kind, subs[0]) then NoticeOf(event, subs[0].handle, t) else [];
      NoConnsOf(event, subs[0].handle, t, request);
      ConnsConcat(first, NoticesToAll(subs[1..], event, kind, t), request);
      NoConnsToAll(subs[1..], event, kind, t, request);
    }
  }

  lemma ConnsOfOne(request: bool, t: int, asked: bool)
    ensures Conns([DataConn(request, t)], asked) == if request == asked then 1 else 0
  {
    assert [DataConn(request, t)][1..] == [];
  }

  /** What the notices of one event ask for, in sum. */
  function Sum(notices: seq<Notice>): int {
    Conns(notices, true) - Conns(notices, false)
  }

  lemma NoConnsOf(event: Event, h: int, t: int, request: bool)
    ensures Conns(NoticeOf(event, h, t), request) == 0
  {
    if !event.Subscribe? {
      assert NoticeOf(event, h, t)[1..] == [];
    }
  }

  lemma SubscribeBalance(m: Machine, s: Subscriber)
    ensures Held(OnSubscribe(m, s).machine) == Held(m) + Sum(OnSubscribe(m, s).notices)
  {
    ConnsOfOne(true, m.agpsType, true);
    ConnsOfOne(true, m.agpsType, false);
    NoConnsOf(Granted, s.handle, m.agpsType, true);
    NoConnsOf(Granted, s.handle, m.agpsType, false);
  }

  lemma UnsubscribeBalance(m: Machine, s: Subscriber)
    ensures Held(OnUnsubscribe(m, s).machine) == Held(m) + Sum(OnUnsubscribe(m, s).notices)
  {
    var notices := Left(m, s).notices;
    NoConnsOf(Unsubscribe, s.handle, m.agpsType, true);
    NoConnsOf(Unsubscribe, s.handle, m.agpsType, false);
    ConnsConcat(notices, [DataConn(false, m.agpsType)], true);
    ConnsConcat(notices, [DataConn(false, m.agpsType)], false);
    ConnsOfOne(false, m.agpsType, true);
    ConnsOfOne(false, m.agpsType, false);
  }

  lemma GrantedBalance(m: Machine)
    ensures Held(OnGranted(m).machine) == Held(m) + Sum(OnGranted(m).notices)
  {
    NoConnsToAll(m.subscribers, Granted, ForActive, m.agpsType, true);
    NoConnsToAll(m.subscribers, Granted, ForActive, m.agpsType, false);
  }

  lemma ClosedBalance(m: Machine)
    requires m.state.Releasing?
    ensures Held(Closed(m).machine) == Sum(Closed(m).notices)
  {
    var told := NoticesToAll(m.subscribers, ReleasedEvent, ForInactive, m.agpsType);
    NoConnsToAll(m.subscribers, ReleasedEvent, ForInactive, m.agpsType, true);
    ConnsConcat(told, [DataConn(true, m.agpsType)], true);
    ConnsOfOne(true, m.agpsType, true);
    NoConnsToAll(m.subscribers, ReleasedEvent, ForInactive, m.agpsType, false);
    ConnsConcat(told, [DataConn(true, m.agpsType)], false);
    ConnsOfOne(true, m.agpsType, false);
  }

  /** A connection is also given up without being asked to: by a denial of what was asked for, or by force. */
  lemma ReleasedBalance(m: Machine)
    ensures Held(OnReleased(m).machine) == Held(m) + Sum(OnReleased(m).notices) - (if m.state.Acquired? then 1 else 0)
  {
    NoConnsToAll(m.subscribers, ReleasedEvent, ForAll, m.agpsType, true);
    NoConnsToAll(m.subscribers, ReleasedEvent, ForAll, m.agpsType, false);
    if m.state.Releasing? {
      ClosedBalance(m);
    }
  }

  lemma DeniedBalance(m: Machine)
    ensures Held(OnDenied(m).machine) == Held(m) + Sum(OnDenied(m).notices) - (if m.state.Pending? then 1 else 0)
  {
    NoConnsToAll(m.subscribers, Denied, ForAll, m.agpsType, true);
    NoConnsToAll(m.subscribers, Denied, ForAll, m.agpsType, false);
    if m.state.Releasing? {
      ClosedBalance(m);
    }
  }
}
