/** The order in which AgpsManager (gps/gnss/Agps.cpp) lists its subscribers and tells them. */
module AgpsOrder {
  import opened Wrappers
  import opened Agps
  import opened AgpsRuns
  import opened AgpsNotices

  /** When a handle was last asked for, as an index into the trace; -1 if never. */
  function AskedAt(trace: seq<Entry>, h: int): int {
    if trace == [] then -1
    else if trace[|trace| - 1] == Asked(h) then |trace| - 1
    else AskedAt(trace[..|trace| - 1], h)
  }

  lemma {:induction false} AskedBefore(trace: seq<Entry>, h: int)
    ensures -1 <= AskedAt(trace, h) < |trace|
  {
    if trace != [] {
      AskedBefore(trace[..|trace| - 1], h);
    }
  }

  lemma {:induction false} SentsAskNothing(trace: seq<Entry>, notices: seq<Notice>, h: int)
    ensures AskedAt(trace + Sents(notices), h) == AskedAt(trace, h)
    decreases notices
  {
    if notices == [] {
      assert trace + Sents(notices) == trace;
    } else {
      assert trace + Sents(notices) == (trace + [Sent(notices[0])]) + Sents(notices[1..]);
      SentsAskNothing(trace + [Sent(notices[0])], notices[1..], h);
      assert (trace + [Sent(notices[0])])[..|trace|] == trace;
    }
  }

  lemma AskedNow(trace: seq<Entry>, k: int, h: int)
    ensures AskedAt(trace + [Asked(k)], h) == if h == k then |trace| else AskedAt(trace, h)
  {
    assert (trace + [Asked(k)])[..|trace|] == trace;
  }

  // ---------- The list ----------

  predicate AllLater(subs: seq<Subscriber>, trace: seq<Entry>, at: int) {
    forall s :: s in subs ==> at < AskedAt(trace, s.handle)
  }

  /** The list is in the order in which its handles were asked for. */
  predicate InOrder(subs: seq<Subscriber>, trace: seq<Entry>) {
    subs == [] || (AllLater(subs[1..], trace, AskedAt(trace, subs[0].handle)) && InOrder(subs[1..], trace))
  }

  lemma {:induction false} OrderAppend(subs: seq<Subscriber>, s: Subscriber, trace: seq<Entry>)
    requires InOrder(subs, trace) && forall t :: t in subs ==> AskedAt(trace, t.handle) < AskedAt(trace, s.handle)
    ensures InOrder(subs + [s], trace)
  {
    hide AskedAt;
    if subs == [] {
      assert (subs + [s])[1..] == [];
    } else {
      assert (subs + [s])[1..] == subs[1..] + [s];
      OrderAppend(subs[1..], s, trace);
    }
  }

  lemma {:induction false} OrderDeleted(subs: seq<Subscriber>, h: int, trace: seq<Entry>)
    requires InOrder(subs, trace)
    ensures InOrder(Deleted(subs, h), trace) && forall s :: s in Deleted(subs, h) ==> s in subs
  {
    hide AskedAt;
    if subs != [] {
      OrderDeleted(subs[1..], h, trace);
      assert subs[0].handle != h ==> Deleted(subs, h)[1..] == Deleted(subs[1..], h);
    }
  }

  lemma {:induction false} OrderSpared(subs: seq<Subscriber>, kind: Audience, trace: seq<Entry>)
    requires InOrder(subs, trace)
    ensures InOrder(Spared(subs, kind), trace) && forall s :: s in Spared(subs, kind) ==> s in subs
  {
    hide AskedAt;
    if subs != [] {
      OrderSpared(subs[1..], kind, trace);
      assert !Addressed(kind, subs[0]) ==> Spared(subs, kind)[1..] == Spared(subs[1..], kind);
    }
  }

  lemma {:induction false} OrderMarked(subs: seq<Subscriber>, h: int, trace: seq<Entry>)
    requires InOrder(subs, trace)
    ensures InOrder(MarkedInactive(subs, h), trace)
    ensures forall s :: s in MarkedInactive(subs, h) ==> exists t :: t in subs && t.handle == s.handle
  {
    hide AskedAt;
    if subs != [] {
      OrderMarked(subs[1..], h, trace);
      assert MarkedInactive(subs, h)[1..] ==
        if subs[0].handle == h then subs[1..] else MarkedInactive(subs[1..], h);
      forall s | s in MarkedInactive(subs, h) ensures exists t :: t in subs && t.handle == s.handle {
        if s == MarkedInactive(subs, h)[0] {
          assert subs[0] in subs && subs[0].handle == s.handle;
        } else if subs[0].handle == h {
          assert s in subs[1..];
        } else {
          var t :| t in subs[1..] && t.handle == s.handle;
          assert t in subs;
        }
      }
    }
  }

  lemma {:induction false} OrderOfTrace(subs: seq<Subscriber>, trace: seq<Entry>, trace': seq<Entry>)
    requires forall s :: s in subs ==> AskedAt(trace', s.handle) == AskedAt(trace, s.handle)
    requires InOrder(subs, trace)
    ensures InOrder(subs, trace')
  {
    hide AskedAt;
    if subs != [] {
      assert subs[0] in subs;
      OrderOfTrace(subs[1..], trace, trace');
    }
  }

  predicate Ordered(w: World, slot: Slot) {
    Of(w, slot).Some? ==> InOrder(Of(w, slot).value.subscribers, w.trace)
  }

  lemma SubscribeOrder(m: Machine, s: Subscriber, trace: seq<Entry>)
    requires InOrder(m.subscribers, trace) && Lookup(m.subscribers, s.handle).None?
    requires trace != [] && AskedAt(trace, s.handle) == |trace| - 1
    ensures InOrder(OnSubscribe(m, s).machine.subscribers, trace)
  {
    hide AskedAt, InOrder, Lookup;
    forall t | t in m.subscribers ensures AskedAt(trace, t.handle) < AskedAt(trace, s.handle) {
      NotListed(m.subscribers, s.handle, t);
      AskedBefore(trace, t.handle);
      LastAsked(trace, s.handle, t.handle);
    }
    OrderAppend(m.subscribers, s, trace);
  }

  lemma {:induction false} NotListed(subs: seq<Subscriber>, h: int, t: Subscriber)
    requires Lookup(subs, h).None? && t in subs
    ensures t.handle != h
  {
    if subs[0] != t {
      NotListed(subs[1..], h, t);
    }
  }

  lemma LastAsked(trace: seq<Entry>, h: int, k: int)
    requires h != k && AskedAt(trace, h) == |trace| - 1 && trace != []
    ensures AskedAt(trace, k) < |trace| - 1
  {
    AskedBefore(trace[..|trace| - 1], h);
    AskedBefore(trace[..|trace| - 1], k);
  }

  lemma UnsubscribeOrder(m: Machine, s: Subscriber, trace: seq<Entry>)
    requires InOrder(m.subscribers, trace)
    ensures InOrder(OnUnsubscribe(m, s).machine.subscribers, trace)
  {
    hide AskedAt, InOrder;
    OrderDeleted(m.subscribers, s.handle, trace);
    OrderMarked(m.subscribers, s.handle, trace);
  }

  lemma ReportOrder(m: Machine, a: Action, trace: seq<Entry>)
    requires InOrder(m.subscribers, trace) && IsReport(a)
    ensures InOrder(ReportOf(m, a).machine.subscribers, trace)
  {
    hide AskedAt, InOrder;
    OrderSpared(m.subscribers, ForAll, trace);
    OrderSpared(m.subscribers, ForInactive, trace);
  }

  lemma TraceOrder(subs: seq<Subscriber>, trace: seq<Entry>, notices: seq<Notice>)
    requires InOrder(subs, trace)
    ensures InOrder(subs, trace + Sents(notices))
  {
    hide AskedAt, InOrder, Sents;
    forall s | s in subs ensures AskedAt(trace + Sents(notices), s.handle) == AskedAt(trace, s.handle) {
      SentsAskNothing(trace, notices, s.handle);
    }
    OrderOfTrace(subs, trace, trace + Sents(notices));
  }

  lemma AskedOrder(subs: seq<Subscriber>, trace: seq<Entry>, k: int)
    requires InOrder(subs, trace) && Lookup(subs, k).None?
    ensures InOrder(subs, trace + [Asked(k)])
  {
    hide AskedAt, InOrder, Lookup;
    forall s | s in subs ensures AskedAt(trace + [Asked(k)], s.handle) == AskedAt(trace, s.handle) {
      NotListed(subs, k, s);
      AskedNow(trace, k, s.handle);
    }
    OrderOfTrace(subs, trace, trace + [Asked(k)]);
  }

  /** A step of one machine, told to everybody. */
  lemma AppliedOrder(w: World, slot: Slot, o: Outcome, other: Slot)
    requires Of(w, slot).Some? && InOrder(o.machine.subscribers, w.trace) && Ordered(w, other)
    ensures Ordered(Applied(w, slot, o), other)
  {
    hide InOrder, Sents;
    TraceOrder(o.machine.subscribers, w.trace, o.notices);
    if Of(w, other).Some? {
      TraceOrder(Of(w, other).value.subscribers, w.trace, o.notices);
    }
  }

  lemma RequestOrder(w: World, k: int, t: int, slot: Slot)
    requires Ordered(w, Agnss) && Ordered(w, Internet) && Find(w, k).None?
    ensures Ordered(Requested(w, k, t), slot)
  {
    var asked := w.(trace := w.trace + [Asked(k)]);
    hide InOrder, Sents, Lookup, OnSubscribe, SlotOf;
    forall s: Slot ensures Ordered(asked, s) {
      if Of(w, s).Some? {
        AskedOrder(Of(w, s).value.subscribers, w.trace, k);
      }
    }
    assert Ordered(asked, slot) && Ordered(asked, SlotOf(t));
    if Of(w, SlotOf(t)).None? {
      if Of(w, slot).Some? {
        TraceOrder(Of(w, slot).value.subscribers, asked.trace, [OpenStatus(k, false, t)]);
      }
    } else {
      AskedNow(w.trace, k, k);
      SubscribeOrder(Of(w, SlotOf(t)).value, NewSubscriber(k, t), asked.trace);
      AppliedOrder(asked, SlotOf(t), OnSubscribe(Of(w, SlotOf(t)).value, NewSubscriber(k, t)), slot);
    }
  }

  lemma StepOrder(w: World, a: Action, slot: Slot)
    requires Enabled(w, a) && Ordered(w, Agnss) && Ordered(w, Internet)
    requires a.RequestATL? ==> Find(w, a.handle).None?
    ensures Ordered(Step(w, a), slot)
  {
    match a {
      case RequestATL(h, t) => RequestOrder(w, h, t, slot);
      case ReleaseATL(h) =>
        if Find(w, h).Some? {
          var m := Of(w, Find(w, h).value).value;
          UnsubscribeOrder(m, Lookup(m.subscribers, h).value, w.trace);
          AppliedOrder(w, Find(w, h).value, Unsubscribed(m, h), slot);
        } else if Of(w, slot).Some? {
          TraceOrder(Of(w, slot).value.subscribers, w.trace, [CloseStatus(h, false)]);
        }
      case CreateMachines(_) =>
      case ModemRestart =>
      case _ =>
        var m := Of(w, SlotOf(a.agpsType)).value;
        ReportOrder(m, a, w.trace);
        AppliedOrder(w, SlotOf(a.agpsType), ReportOf(m, a), slot);
    }
    hide OnUnsubscribe, OnGranted, OnReleased, OnDenied, Requested, Sents, Lookup, AskedAt, SlotOf;
  }

  /** Over every run in which no handle is asked for while it is listed, the lists are in the order of the
      requests. */
  lemma {:induction false} RunListsInOrder(run: seq<Action>, slot: Slot)
    requires Possible(run) && NoDuplicates(run)
    ensures Ordered(After(run), slot)
  {
    if run != [] {
      var before, a := run[..|run| - 1], run[|run| - 1];
      RunListsInOrder(before, Agnss);
      RunListsInOrder(before, Internet);
      hide Step, Ordered, Find;
      StepOrder(After(before), a, slot);
    }
  }

  // ---------- The notices ----------

  /** Those who are told are told in the order in which they asked. */
  predicate ToldInOrder(notices: seq<Notice>, trace: seq<Entry>) {
    forall i, j :: 0 <= i < j < |notices| && !notices[i].DataConn? && !notices[j].DataConn? ==>
      AskedAt(trace, notices[i].handle) < AskedAt(trace, notices[j].handle)
  }

  /** What is asked of the framework is asked after everybody has been told. */
  predicate ConnLast(notices: seq<Notice>) {
    forall i :: 0 <= i < |notices| - 1 ==> !notices[i].DataConn?
  }

  predicate NoConn(notices: seq<Notice>) {
    forall n :: n in notices ==> !n.DataConn?
  }

  lemma {:induction false} AllToldInOrder(subs: seq<Subscriber>, event: Event, kind: Audience, t: int,
                                          trace: seq<Entry>)
    requires InOrder(subs, trace)
    ensures var notices := NoticesToAll(subs, event, kind, t);
      && ToldInOrder(notices, trace) && NoConn(notices)
      && forall n :: n in notices ==> exists s :: s in subs && s.handle == n.handle
  {
    hide AskedAt;
    if subs != [] {
      var rest := NoticesToAll(subs[1..], event, kind, t);
      AllToldInOrder(subs[1..], event, kind, t, trace);
      assert subs[0] in subs;
      forall n | n in rest ensures exists s :: s in subs && s.handle == n.handle {
        var s :| s in subs[1..] && s.handle == n.handle;
        assert s in subs;
      }
      forall n | n in rest ensures AskedAt(trace, subs[0].handle) < AskedAt(trace, n.handle) {
        var s :| s in subs[1..] && s.handle == n.handle;
      }
    }
  }

  lemma ConnAfter(notices: seq<Notice>, request: bool, t: int, trace: seq<Entry>)
    requires ToldInOrder(notices, trace) && NoConn(notices)
    ensures ToldInOrder(notices + [DataConn(request, t)], trace) && ConnLast(notices + [DataConn(request, t)])
  {
    hide AskedAt;
  }

  /** A report is passed on in the order of the requests, and the framework is asked last. */
  lemma ReportTellsInOrder(run: seq<Action>, a: Action)
    requires Possible(run) && NoDuplicates(run) && Enabled(After(run), a) && IsReport(a)
    ensures var w := After(run);
      var notices := ReportOf(Of(w, SlotOf(a.agpsType)).value, a).notices;
      Step(w, a).trace == w.trace + Sents(notices) && ToldInOrder(notices, w.trace) && ConnLast(notices)
  {
    var w := After(run);
    var m := Of(w, SlotOf(a.agpsType)).value;
    RunListsInOrder(run, SlotOf(a.agpsType));
    hide After, Possible, NoDuplicates, InOrder, AskedAt, Sents, SlotOf;
    OutcomeInOrder(m, a, w.trace);
    hide OnGranted, OnReleased, OnDenied, ToldInOrder, ConnLast;
  }

  lemma OutcomeInOrder(m: Machine, a: Action, trace: seq<Entry>)
    requires IsReport(a) && InOrder(m.subscribers, trace)
    ensures ToldInOrder(ReportOf(m, a).notices, trace) && ConnLast(ReportOf(m, a).notices)
  {
    hide InOrder, AskedAt, NoticesToAll, Spared;
    AllToldInOrder(m.subscribers, Granted, ForActive, m.agpsType, trace);
    AllToldInOrder(m.subscribers, Denied, ForAll, m.agpsType, trace);
    AllToldInOrder(m.subscribers, ReleasedEvent, ForAll, m.agpsType, trace);
    AllToldInOrder(m.subscribers, ReleasedEvent, ForInactive, m.agpsType, trace);
    ConnAfter(NoticesToAll(m.subscribers, ReleasedEvent, ForInactive, m.agpsType), true, m.agpsType, trace);
    NoConnIsLast(NoticesToAll(m.subscribers, Granted, ForActive, m.agpsType));
    NoConnIsLast(NoticesToAll(m.subscribers, Denied, ForAll, m.agpsType));
    NoConnIsLast(NoticesToAll(m.subscribers, ReleasedEvent, ForAll, m.agpsType));
    NoConnIsLast(NoticesToAll(m.subscribers, ReleasedEvent, ForInactive, m.agpsType));
    hide ToldInOrder, ConnLast, NoConn;
    NothingInOrder(trace);
  }

  lemma NoConnIsLast(notices: seq<Notice>)
    requires NoConn(notices)
    ensures ConnLast(notices)
  {
  }

  lemma NothingInOrder(trace: seq<Entry>)
    ensures ToldInOrder([], trace) && ConnLast([])
  {
  }

  /** So when somebody leaves: it is told before the connection is given back. */
  lemma LeavingTellsFirst(m: Machine, s: Subscriber)
    ensures ConnLast(OnUnsubscribe(m, s).notices) && ConnLast(OnSubscribe(m, s).notices)
  {
  }
}
