/** Over every run of AgpsManager (gps/gnss/Agps.cpp), restarts and duplicates included: what a step tells a handle,
    whom it lists, and when an emergency subscription learns that it is closed. */
module AgpsNotices {
  import opened Wrappers
  import opened Agps
  import opened AgpsRuns

  // ---------- What holds after every run ----------

  predicate ListInv(m: Machine) {
    Distinct(m.subscribers) && InactiveWait(m.subscribers) && (m.state.Released? ==> m.subscribers == [])
  }

  predicate ListsInv(w: World) {
    && (w.agnss.Some? ==> ListInv(w.agnss.value)) && (w.internet.Some? ==> ListInv(w.internet.value))
    && TypesRight(w)
  }

  lemma SubscribeKeepsList(m: Machine, s: Subscriber)
    requires ListInv(m) && !s.inactive
    ensures ListInv(OnSubscribe(m, s).machine)
  {
    AddedKeeps(m.subscribers, s);
  }

  lemma UnsubscribeKeepsList(m: Machine, s: Subscriber)
    requires ListInv(m) && Lookup(m.subscribers, s.handle) == Some(s)
    ensures ListInv(OnUnsubscribe(m, s).machine)
  {
    DeletedKeeps(m.subscribers, s.handle);
    if s.waitForClose {
      MarkedKeeps(m.subscribers, s.handle);
    }
  }

  lemma ReportKeepsList(m: Machine, a: Action)
    requires ListInv(m) && IsReport(a)
    ensures ListInv(ReportOf(m, a).machine)
  {
    SparedKeeps(m.subscribers, ForAll);
    SparedKeeps(m.subscribers, ForInactive);
  }

  lemma StepKeepsLists(w: World, a: Action)
    requires Enabled(w, a) && ListsInv(w) && TypesRight(Step(w, a))
    ensures ListsInv(Step(w, a))
  {
    match a {
      case RequestATL(h, t) =>
        if Of(w, SlotOf(t)).Some? {
          SubscribeKeepsList(Of(w, SlotOf(t)).value, NewSubscriber(h, t));
        }
      case ReleaseATL(h) =>
        if Find(w, h).Some? {
          var m := Of(w, Find(w, h).value).value;
          UnsubscribeKeepsList(m, Lookup(m.subscribers, h).value);
        }
      case CreateMachines(_) =>
      case ModemRestart =>
      case _ => ReportKeepsList(Of(w, SlotOf(a.agpsType)).value, a);
    }
    hide OnSubscribe, OnUnsubscribe, OnGranted, OnReleased, OnDenied, Sents, TypesRight;
  }

  lemma {:induction false} RunKeepsLists(run: seq<Action>)
    requires Possible(run)
    ensures ListsInv(After(run))
  {
    RequestsBalance(run, Agnss);
    if run != [] {
      RunKeepsLists(run[..|run| - 1]);
      hide Step, ListsInv;
      StepKeepsLists(After(run[..|run| - 1]), run[|run| - 1]);
    }
  }

  // ---------- What a handle hears ----------

  predicate IsFor(n: Notice, h: int) {
    !n.DataConn? && n.handle == h
  }

  function To(notices: seq<Notice>, h: int): seq<Notice> {
    if notices == [] then [] else (if IsFor(notices[0], h) then [notices[0]] else []) + To(notices[1..], h)
  }

  /** Everything that was ever said about a handle, in order. */
  function Heard(trace: seq<Entry>, h: int): seq<Notice> {
    if trace == [] then []
    else
      var e := trace[|trace| - 1];
      Heard(trace[..|trace| - 1], h) + if e.Sent? && IsFor(e.notice, h) then [e.notice] else []
  }

  lemma {:induction false} HeardOfSents(trace: seq<Entry>, notices: seq<Notice>, h: int)
    ensures Heard(trace + Sents(notices), h) == Heard(trace, h) + To(notices, h)
    decreases notices
  {
    if notices == [] {
      assert trace + Sents(notices) == trace;
    } else {
      var first := if IsFor(notices[0], h) then [notices[0]] else [];
      assert trace + Sents(notices) == (trace + [Sent(notices[0])]) + Sents(notices[1..]);
      HeardOfSents(trace + [Sent(notices[0])], notices[1..], h);
      HeardOfOne(trace, notices[0], h);
      hide Sents, Heard, IsFor;
      assert (Heard(trace, h) + first) + To(notices[1..], h) == Heard(trace, h) + (first + To(notices[1..], h));
    }
  }

  lemma HeardOfOne(trace: seq<Entry>, n: Notice, h: int)
    ensures Heard(trace + [Sent(n)], h) == Heard(trace, h) + if IsFor(n, h) then [n] else []
  {
    assert (trace + [Sent(n)])[..|trace|] == trace;
  }

  lemma HeardOfAsked(trace: seq<Entry>, k: int, h: int)
    ensures Heard(trace + [Asked(k)], h) == Heard(trace, h)
  {
    assert (trace + [Asked(k)])[..|trace|] == trace;
  }

  lemma {:induction false} ToConcat(a: seq<Notice>, b: seq<Notice>, h: int)
    ensures To(a + b, h) == To(a, h) + To(b, h)
  {
    if a == [] {
      assert a + b == b;
    } else {
      assert (a + b)[1..] == a[1..] + b;
      ToConcat(a[1..], b, h);
    }
  }

  lemma ToOne(n: Notice, h: int)
    ensures To([n], h) == if IsFor(n, h) then [n] else []
  {
    assert [n][1..] == [];
  }

  lemma ToNone(h: int)
    ensures To([], h) == []
  {
  }

  lemma ToNoticeOf(event: Event, k: int, t: int, h: int)
    ensures To(NoticeOf(event, k, t), h) == if k == h then NoticeOf(event, h, t) else []
  {
    if !event.Subscribe? {
      ToOne(NoticeOf(event, k, t)[0], h);
    }
  }

  lemma {:induction false} ToAll(subs: seq<Subscriber>, event: Event, kind: Audience, t: int, h: int)
    requires Distinct(subs)
    ensures To(NoticesToAll(subs, event, kind, t), h) ==
      if Lookup(subs, h).Some? && Addressed(kind, Lookup(subs, h).value) then NoticeOf(event, h, t) else []
  {
    if subs != [] {
      var first := if Addressed(kind, subs[0]) then NoticeOf(event, subs[0].handle, t) else [];
      hide NoticeOf, Addressed, To;
      ToConcat(first, NoticesToAll(subs[1..], event, kind, t), h);
      ToAll(subs[1..], event, kind, t, h);
      ToNoticeOf(event, subs[0].handle, t, h);
      ToNone(h);
    }
  }

  // ---------- One step, one handle ----------

  /** The subscriber under `h` in the list of `slot`. */
  function Member(w: World, slot: Slot, h: int): Option<Subscriber> {
    if Of(w, slot).Some? then Lookup(Of(w, slot).value.subscribers, h) else None
  }

  predicate InState(w: World, slot: Slot, state: State) {
    Of(w, slot).Some? && Of(w, slot).value.state == state
  }

  /** Is the member told of the end of its connection by a report about `slot`? A forced release closes every one,
      the end of a release those who wait for it. */
  predicate EndsFor(w: World, a: Action, slot: Slot, s: Subscriber) {
    || (a.AtlClosed? && InState(w, slot, Acquired))
    || ((a.AtlClosed? || a.AtlOpenFailed?) && InState(w, slot, Releasing) && s.inactive)
  }

  /** What one step says to a handle. */
  function News(w: World, a: Action, h: int): seq<Notice> {
    match a
    case RequestATL(k, t) =>
      if k != h then []
      else if Of(w, SlotOf(t)).None? then [OpenStatus(h, false, t)]
      else if InState(w, SlotOf(t), Acquired) then [OpenStatus(h, true, TypeOf(SlotOf(t)))]
      else []
    case ReleaseATL(k) =>
      if k != h then []
      else if Find(w, h).None? then [CloseStatus(h, false)]
      else if Member(w, Find(w, h).value, h).value.waitForClose then []
      else [CloseStatus(h, true)]
    case AtlOpenSuccess(t) =>
      var s := Member(w, SlotOf(t), h);
      if InState(w, SlotOf(t), Pending) && s.Some? && !s.value.inactive then [OpenStatus(h, true, TypeOf(SlotOf(t)))]
      else []
    case AtlOpenFailed(t) =>
      var s := Member(w, SlotOf(t), h);
      if s.None? then []
      else if InState(w, SlotOf(t), Pending) then [OpenStatus(h, false, TypeOf(SlotOf(t)))]
      else if EndsFor(w, a, SlotOf(t), s.value) then [CloseStatus(h, true)]
      else []
    case AtlClosed(t) =>
      var s := Member(w, SlotOf(t), h);
      if s.Some? && EndsFor(w, a, SlotOf(t), s.value) then [CloseStatus(h, true)] else []
    case _ => []
  }

  lemma SubscribeSays(m: Machine, s: Subscriber, h: int)
    ensures To(OnSubscribe(m, s).notices, h) ==
      if s.handle == h && m.state.Acquired? then [OpenStatus(h, true, m.agpsType)] else []
  {
    ToOne(DataConn(true, m.agpsType), h);
    ToNoticeOf(Granted, s.handle, m.agpsType, h);
  }

  /** Whoever unsubscribes is told at once, unless it waits for the close of a connection that is there. */
  lemma UnsubscribeSays(m: Machine, s: Subscriber, h: int)
    ensures To(OnUnsubscribe(m, s).notices, h) ==
      if s.handle == h && (m.state.Released? || !s.waitForClose) then [CloseStatus(h, true)] else []
    ensures m.state.Released? ==> OnUnsubscribe(m, s).machine == m
  {
    var notices := Left(m, s).notices;
    ToNoticeOf(Unsubscribe, s.handle, m.agpsType, h);
    ToConcat(notices, [DataConn(false, m.agpsType)], h);
    ToOne(DataConn(false, m.agpsType), h);
  }

  lemma ClosedSays(m: Machine, h: int)
    requires Distinct(m.subscribers)
    ensures var s := Lookup(m.subscribers, h);
      To(Closed(m).notices, h) == if s.Some? && s.value.inactive then [CloseStatus(h, true)] else []
  {
    hide Lookup, Distinct, NoticesToAll, Spared;
    ToAll(m.subscribers, ReleasedEvent, ForInactive, m.agpsType, h);
    ToConcat(NoticesToAll(m.subscribers, ReleasedEvent, ForInactive, m.agpsType), [DataConn(true, m.agpsType)], h);
    ToOne(DataConn(true, m.agpsType), h);
  }

  lemma ReportSays(w: World, a: Action, h: int)
    requires ListsInv(w) && IsReport(a) && Enabled(w, a)
    ensures To(ReportOf(Of(w, SlotOf(a.agpsType)).value, a).notices, h) == News(w, a, h)
  {
    var m := Of(w, SlotOf(a.agpsType)).value;
    assert ListInv(m) && m.agpsType == TypeOf(SlotOf(a.agpsType));
    hide Lookup, Distinct, InactiveWait, NoticesToAll, Spared, SlotOf, Closed, ListsInv;
    match a {
      case AtlOpenSuccess(_) => GrantedSays(m, h);
      case AtlOpenFailed(_) => DeniedSays(m, h);
      case AtlClosed(_) => ReleasedSays(m, h);
    }
    hide OnGranted, OnDenied, OnReleased, To;
  }

  lemma GrantedSays(m: Machine, h: int)
    requires Distinct(m.subscribers)
    ensures var s := Lookup(m.subscribers, h);
      To(OnGranted(m).notices, h) ==
      if m.state.Pending? && s.Some? && !s.value.inactive then [OpenStatus(h, true, m.agpsType)] else []
  {
    hide Lookup, Distinct, NoticesToAll;
    ToAll(m.subscribers, Granted, ForActive, m.agpsType, h);
  }

  lemma DeniedSays(m: Machine, h: int)
    requires Distinct(m.subscribers)
    ensures var s := Lookup(m.subscribers, h);
      To(OnDenied(m).notices, h) ==
      if s.None? then []
      else if m.state.Pending? then [OpenStatus(h, false, m.agpsType)]
      else if m.state.Releasing? && s.value.inactive then [CloseStatus(h, true)]
      else []
  {
    hide Lookup, Distinct, NoticesToAll, Spared, Closed;
    ToAll(m.subscribers, Denied, ForAll, m.agpsType, h);
    if m.state.Releasing? {
      ClosedSays(m, h);
    }
  }

  lemma ReleasedSays(m: Machine, h: int)
    requires Distinct(m.subscribers)
    ensures var s := Lookup(m.subscribers, h);
      To(OnReleased(m).notices, h) ==
      if s.Some? && (m.state.Acquired? || (m.state.Releasing? && s.value.inactive)) then [CloseStatus(h, true)] else []
  {
    hide Lookup, Distinct, NoticesToAll, Spared, Closed;
    ToAll(m.subscribers, ReleasedEvent, ForAll, m.agpsType, h);
    if m.state.Releasing? {
      ClosedSays(m, h);
    }
  }

  /** What a step says to a handle, with the type of the machine in every open status, and nothing else. */
  lemma StepSays(w: World, a: Action, h: int)
    requires ListsInv(w) && Enabled(w, a)
    ensures Heard(Step(w, a).trace, h) == Heard(w.trace, h) + News(w, a, h)
  {
    hide Heard, Sents, OnSubscribe, OnUnsubscribe, OnGranted, OnReleased, OnDenied, SlotOf, Distinct, InactiveWait;
    match a {
      case RequestATL(k, t) =>
        HeardOfAsked(w.trace, k, h);
        if Of(w, SlotOf(t)).None? {
          HeardOfSents(w.trace + [Asked(k)], [OpenStatus(k, false, t)], h);
          ToOne(OpenStatus(k, false, t), h);
        } else {
          var m, s := Of(w, SlotOf(t)).value, NewSubscriber(k, t);
          HeardOfSents(w.trace + [Asked(k)], OnSubscribe(m, s).notices, h);
          SubscribeSays(m, s, h);
        }
      case ReleaseATL(k) =>
        if Find(w, k).None? {
          HeardOfSents(w.trace, [CloseStatus(k, false)], h);
          ToOne(CloseStatus(k, false), h);
        } else {
          var m := Of(w, Find(w, k).value).value;
          HeardOfSents(w.trace, Unsubscribed(m, k).notices, h);
          UnsubscribeSays(m, Lookup(m.subscribers, k).value, h);
        }
      case CreateMachines(_) =>
      case ModemRestart =>
      case _ =>
        HeardOfSents(w.trace, ReportOf(Of(w, SlotOf(a.agpsType)).value, a).notices, h);
        ReportSays(w, a, h);
        hide News, ListsInv;
    }
  }

  /** Whom the list of `slot` holds under `h` after a step. */
  function MemberAfter(w: World, a: Action, slot: Slot, h: int): Option<Subscriber> {
    var s := Member(w, slot, h);
    match a
    case RequestATL(k, t) =>
      if k == h && SlotOf(t) == slot && Of(w, slot).Some? && s.None? then
        Some(Subscriber(h, t == TYPE_SUPL_ES, false))
      else s
    case ReleaseATL(k) =>
      if k != h || Find(w, h) != Some(slot) then s
      else if s.value.waitForClose then Some(s.value.(inactive := true))
      else None
    case AtlOpenFailed(t) =>
      if s.Some? && SlotOf(t) == slot && (InState(w, slot, Pending) || EndsFor(w, a, slot, s.value)) then None else s
    case AtlClosed(t) =>
      if s.Some? && SlotOf(t) == slot && EndsFor(w, a, slot, s.value) then None else s
    case ModemRestart => None
    case _ => s
  }

  lemma UnsubscribeLists(m: Machine, s: Subscriber, h: int)
    requires !m.state.Released? && Lookup(m.subscribers, s.handle) == Some(s)
    ensures Lookup(OnUnsubscribe(m, s).machine.subscribers, h) ==
      if h != s.handle then Lookup(m.subscribers, h)
      else if s.waitForClose then Some(s.(inactive := true))
      else None
  {
    LookupAfterDelete(m.subscribers, s.handle, h);
    LookupAfterMark(m.subscribers, s.handle, h);
    hide Lookup, Deleted, MarkedInactive;
  }

  lemma ReportLists(w: World, a: Action, h: int)
    requires ListsInv(w) && IsReport(a) && Enabled(w, a)
    ensures Lookup(ReportOf(Of(w, SlotOf(a.agpsType)).value, a).machine.subscribers, h) ==
      MemberAfter(w, a, SlotOf(a.agpsType), h)
  {
    var m := Of(w, SlotOf(a.agpsType)).value;
    LookupSpared(m.subscribers, ForAll, h);
    LookupSpared(m.subscribers, ForInactive, h);
    hide Lookup, Spared, Distinct, InactiveWait, NoticesToAll, SlotOf;
  }

  /** Whom a step lists: a new subscription waits for the close exactly if it was asked for as an emergency. */
  lemma StepLists(w: World, a: Action, slot: Slot, h: int)
    requires ListsInv(w) && Enabled(w, a)
    ensures Member(Step(w, a), slot, h) == MemberAfter(w, a, slot, h)
  {
    hide Sents, OnUnsubscribe, OnGranted, OnReleased, OnDenied, SlotOf, Distinct, InactiveWait;
    match a {
      case RequestATL(k, t) =>
        if Of(w, SlotOf(t)).Some? {
          LookupAppend(Of(w, SlotOf(t)).value.subscribers, NewSubscriber(k, t), h);
        }
      case ReleaseATL(k) =>
        if Find(w, k).Some? {
          var m := Of(w, Find(w, k).value).value;
          UnsubscribeLists(m, Lookup(m.subscribers, k).value, h);
        }
        hide Lookup;
      case CreateMachines(_) =>
      case ModemRestart =>
      case _ =>
        ReportLists(w, a, h);
        hide MemberAfter, ListsInv, Lookup;
        if SlotOf(a.agpsType) != slot {
          Elsewhere(w, a, slot, h);
        }
    }
  }

  lemma Elsewhere(w: World, a: Action, slot: Slot, h: int)
    requires IsReport(a) && SlotOf(a.agpsType) != slot
    ensures MemberAfter(w, a, slot, h) == Member(w, slot, h)
  {
    hide Lookup, SlotOf;
  }

  /** Machines come only by their creation, the one for AGNSS only for a device that is capable; they begin
      without subscribers and released, and stay. */
  lemma StepCreates(w: World, a: Action, slot: Slot)
    requires Enabled(w, a)
    ensures Of(Step(w, a), slot).Some? <==>
      Of(w, slot).Some? || (a.CreateMachines? && (slot.Internet? || a.agpsCapable))
    ensures a.CreateMachines? && Of(Step(w, a), slot) != Of(w, slot) ==>
      Of(w, slot).None? && Of(Step(w, a), slot) == Some(Machine([], Released, TypeOf(slot)))
  {
    hide OnSubscribe, OnUnsubscribe, OnGranted, OnReleased, OnDenied, Sents, SlotOf, Lookup;
  }

  /** A connection is released, with those who left last waiting for it, only when nobody wants it any more. */
  lemma ReleasingWhenUnwanted(w: World, a: Action, slot: Slot)
    requires Enabled(w, a) && InState(Step(w, a), slot, Releasing) && !InState(w, slot, Releasing)
    ensures a.ReleaseATL? && !AnyActive(Of(Step(w, a), slot).value.subscribers)
  {
    hide Sents, Lookup, Deleted, MarkedInactive, AnyActive, Spared, NoticesToAll;
  }

  // ---------- What the type of a request decides ----------

  /** The type that the last request for a handle had. */
  function TypeAsked(run: seq<Action>, h: int): Option<int> {
    if run == [] then None
    else
      var a := run[|run| - 1];
      if a.RequestATL? && a.handle == h then Some(a.agpsType) else TypeAsked(run[..|run| - 1], h)
  }

  /** Was the last call about the handle a release? */
  predicate GivenUp(run: seq<Action>, h: int) {
    run != [] && (
      var a := run[|run| - 1];
      if (a.RequestATL? || a.ReleaseATL?) && a.handle == h then a.ReleaseATL? else GivenUp(run[..|run| - 1], h)
    )
  }

  /** Whoever is listed is in the list that the type of its request says, waits for its close exactly if that type
      is the one for emergencies, and is inactive exactly if it has been given up since. */
  predicate ListedAsAsked(run: seq<Action>, w: World, slot: Slot, h: int) {
    Member(w, slot, h).Some? ==>
      && TypeAsked(run, h).Some? && SlotOf(TypeAsked(run, h).value) == slot
      && Member(w, slot, h) == Some(Subscriber(h, TypeAsked(run, h) == Some(TYPE_SUPL_ES), GivenUp(run, h)))
  }

  /** Over every run in which no handle is asked for while it is listed, modem restarts included. */
  lemma {:induction false} RunListsAsAsked(run: seq<Action>, slot: Slot, h: int)
    requires Possible(run) && NoDuplicates(run)
    ensures ListedAsAsked(run, After(run), slot, h)
  {
    if run != [] {
      var before, a := run[..|run| - 1], run[|run| - 1];
      RunListsAsAsked(before, Agnss, h);
      RunListsAsAsked(before, Internet, h);
      RunKeepsLists(before);
      assert Enabled(After(before), a) && After(run) == Step(After(before), a);
      assert a.RequestATL? ==> Find(After(before), a.handle).None?;
      hide Step, ListsInv, Lookup, SlotOf, Possible, After, NoDuplicates, Enabled;
      StepLists(After(before), a, slot, h);
      FoundElsewhere(After(before), slot, h);
      hide Find, Member;
    }
  }

  lemma FoundElsewhere(w: World, slot: Slot, h: int)
    ensures Find(w, h).None? ==> Member(w, slot, h).None?
    ensures Find(w, h).Some? ==> Member(w, Find(w, h).value, h).Some?
    ensures Member(w, slot, h).Some? && Find(w, h) != Some(slot) ==> slot == Internet && Member(w, Agnss, h).Some?
  {
    hide Lookup;
  }

  /** Releasing an emergency subscription says nothing and keeps it listed; releasing any other closes it at once. */
  lemma ReleaseByType(run: seq<Action>, h: int)
    requires Possible(run) && NoDuplicates(run) && Find(After(run), h).Some?
    ensures TypeAsked(run, h).Some?
    ensures var w, w' := After(run), Step(After(run), ReleaseATL(h));
      var emergency := TypeAsked(run, h) == Some(TYPE_SUPL_ES);
      && Heard(w'.trace, h) == Heard(w.trace, h) + (if emergency then [] else [CloseStatus(h, true)])
      && (Find(w', h).Some? <==> emergency)
  {
    var w, a := After(run), ReleaseATL(h);
    RunListsAsAsked(run, Agnss, h);
    RunListsAsAsked(run, Internet, h);
    RunKeepsLists(run);
    FoundElsewhere(w, Agnss, h);
    FoundElsewhere(w, Internet, h);
    FoundElsewhere(Step(w, a), Agnss, h);
    FoundElsewhere(Step(w, a), Internet, h);
    StepSays(w, a, h);
    StepLists(w, a, Agnss, h);
    StepLists(w, a, Internet, h);
    hide Step, ListsInv, SlotOf, After, NoDuplicates, Possible, Find, Member, Heard, GivenUp, TypeAsked;
  }

  /** Which steps say to a handle that it is closed. */
  lemma WhoCloses(w: World, a: Action, h: int)
    requires CloseStatus(h, true) in News(w, a, h)
    ensures News(w, a, h) == [CloseStatus(h, true)]
    ensures
      || (a == ReleaseATL(h) && Find(w, h).Some? && !Member(w, Find(w, h).value, h).value.waitForClose)
      || (IsReport(a) && Member(w, SlotOf(a.agpsType), h).Some?
          && EndsFor(w, a, SlotOf(a.agpsType), Member(w, SlotOf(a.agpsType), h).value))
  {
    hide Lookup, SlotOf;
  }

  /** A subscription that was asked for as an emergency hears of its close only from the report that its machine has
      lost the connection, or has failed to get or keep one while it was being given up. */
  lemma EmergencyCloses(run: seq<Action>, a: Action, h: int)
    requires Possible(run) && NoDuplicates(run) && Enabled(After(run), a) && TypeAsked(run, h) == Some(TYPE_SUPL_ES)
    requires CloseStatus(h, true) in News(After(run), a, h)
    ensures Heard(Step(After(run), a).trace, h) == Heard(After(run).trace, h) + [CloseStatus(h, true)]
    ensures (a.AtlClosed? || a.AtlOpenFailed?) && SlotOf(a.agpsType) == Agnss
    ensures GivenUp(run, h) || (a.AtlClosed? && InState(After(run), Agnss, Acquired))
  {
    hide *;
    RunListsAsAsked(run, Agnss, h);
    RunListsAsAsked(run, Internet, h);
    RunKeepsLists(run);
    StepSays(After(run), a, h);
    WhoCloses(After(run), a, h);
    EmergencyWaits(run, After(run), a, h);
  }

  lemma EmergencyWaits(run: seq<Action>, w: World, a: Action, h: int)
    requires ListedAsAsked(run, w, Agnss, h) && ListedAsAsked(run, w, Internet, h)
    requires TypeAsked(run, h) == Some(TYPE_SUPL_ES)
    requires
      || (a == ReleaseATL(h) && Find(w, h).Some? && !Member(w, Find(w, h).value, h).value.waitForClose)
      || (IsReport(a) && Member(w, SlotOf(a.agpsType), h).Some?
          && EndsFor(w, a, SlotOf(a.agpsType), Member(w, SlotOf(a.agpsType), h).value))
    ensures (a.AtlClosed? || a.AtlOpenFailed?) && SlotOf(a.agpsType) == Agnss
    ensures GivenUp(run, h) || (a.AtlClosed? && InState(w, Agnss, Acquired))
  {
    hide Lookup, GivenUp, TypeAsked;
  }
}
