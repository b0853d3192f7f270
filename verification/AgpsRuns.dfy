/** Whole runs of AgpsManager (gps/gnss/Agps.cpp) with its two base machines: what each subscription is told,
    what every reachable state looks like, and how requests for a data connection balance releases. */
module AgpsRuns {
  import opened Wrappers
  import opened Agps

  /** The machines mAgnssNif and mInternetNif. */
  datatype Slot = Agnss | Internet

  datatype Entry = Asked(handle: int) | Sent(notice: Notice)

  datatype World = World(agnss: Option<Machine>, internet: Option<Machine>, trace: seq<Entry>)

  datatype Action =
    | CreateMachines(agpsCapable: bool)
    | RequestATL(handle: int, agpsType: int)
    | ReleaseATL(handle: int)
    | AtlOpenSuccess(agpsType: int)
    | AtlOpenFailed(agpsType: int)
    | AtlClosed(agpsType: int)
    | ModemRestart

  /** getAgpsStateMachine without an emergency connection of its own. */
  function SlotOf(agpsType: int): Slot {
    if agpsType == TYPE_INVALID || agpsType == TYPE_SUPL || agpsType == TYPE_SUPL_ES then Agnss else Internet
  }

  function TypeOf(slot: Slot): int {
    if slot.Agnss? then TYPE_SUPL else TYPE_WWAN_ANY
  }

  function Of(w: World, slot: Slot): Option<Machine> {
    if slot.Agnss? then w.agnss else w.internet
  }

  function Sents(notices: seq<Notice>): seq<Entry> {
    seq(|notices|, i requires 0 <= i < |notices| => Sent(notices[i]))
  }

  function Told(w: World, notices: seq<Notice>): World {
    w.(trace := w.trace + Sents(notices))
  }

  function Applied(w: World, slot: Slot, o: Outcome): World {
    Told(if slot.Agnss? then w.(agnss := Some(o.machine)) else w.(internet := Some(o.machine)), o.notices)
  }

  function Created(m: Option<Machine>, slot: Slot): Option<Machine> {
    if m.Some? then m else Some(Machine([], Released, TypeOf(slot)))
  }

  function Restarted(m: Option<Machine>): Option<Machine> {
    if m.Some? then Some(m.value.(subscribers := [])) else None
  }

  /** A report about a machine that was not created would follow a null pointer. */
  predicate Enabled(w: World, a: Action) {
    match a
    case AtlOpenSuccess(t) => Of(w, SlotOf(t)).Some?
    case AtlOpenFailed(t) => Of(w, SlotOf(t)).Some?
    case AtlClosed(t) => Of(w, SlotOf(t)).Some?
    case _ => true
  }

  function NewSubscriber(h: int, agpsType: int): Subscriber {
    Subscriber(h, agpsType == TYPE_SUPL_ES, false)
  }

  function Requested(w: World, h: int, t: int): World {
    var asked := w.(trace := w.trace + [Asked(h)]);
    if Of(w, SlotOf(t)).None? then Told(asked, [OpenStatus(h, false, t)])
    else Applied(asked, SlotOf(t), OnSubscribe(Of(w, SlotOf(t)).value, NewSubscriber(h, t)))
  }

  predicate Holds(m: Option<Machine>, h: int) {
    m.Some? && Lookup(m.value.subscribers, h).Some?
  }

  function Find(w: World, h: int): Option<Slot> {
    if Holds(w.agnss, h) then Some(Agnss) else if Holds(w.internet, h) then Some(Internet) else None
  }

  function Unsubscribed(m: Machine, h: int): Outcome
    requires Lookup(m.subscribers, h).Some?
  {
    OnUnsubscribe(m, Lookup(m.subscribers, h).value)
  }

  function Step(w: World, a: Action): World
    requires Enabled(w, a)
  {
    match a
    case CreateMachines(agpsCapable) =>
      World(if agpsCapable then Created(w.agnss, Agnss) else w.agnss, Created(w.internet, Internet), w.trace)
    case RequestATL(h, t) => Requested(w, h, t)
    case ReleaseATL(h) =>
      var found := Find(w, h);
      if found.None? then Told(w, [CloseStatus(h, false)])
      else Applied(w, found.value, Unsubscribed(Of(w, found.value).value, h))
    case AtlOpenSuccess(t) => Applied(w, SlotOf(t), OnGranted(Of(w, SlotOf(t)).value))
    case AtlOpenFailed(t) => Applied(w, SlotOf(t), OnDenied(Of(w, SlotOf(t)).value))
    case AtlClosed(t) => Applied(w, SlotOf(t), OnReleased(Of(w, SlotOf(t)).value))
    case ModemRestart => World(Restarted(w.agnss), Restarted(w.internet), w.trace)
  }

  const START := World(None, None, [])

  ghost predicate Possible(run: seq<Action>)
    decreases |run|, 0
  {
    run == [] || (Possible(run[..|run| - 1]) && Enabled(After(run[..|run| - 1]), run[|run| - 1]))
  }

  ghost function After(run: seq<Action>): World
    requires Possible(run)
    decreases |run|, 1
  {
    if run == [] then START else Step(After(run[..|run| - 1]), run[|run| - 1])
  }

  ghost predicate NoRestart(run: seq<Action>) {
    forall i :: 0 <= i < |run| ==> !run[i].ModemRestart?
  }

  /** No subscription is asked for under a handle that is still in a list. */
  ghost predicate NoDuplicates(run: seq<Action>)
    requires Possible(run)
  {
    run == [] || (
      NoDuplicates(run[..|run| - 1]) &&
      (run[|run| - 1].RequestATL? ==> Find(After(run[..|run| - 1]), run[|run| - 1].handle).None?)
    )
  }

  // ---------- Every reachable state ----------

  predicate SlotInv(w: World, slot: Slot) {
    Of(w, slot).Some? ==> MachineInv(Of(w, slot).value)
  }

  lemma StepKeepsMachines(w: World, a: Action, slot: Slot)
    requires Enabled(w, a) && !a.ModemRestart? && SlotInv(w, Agnss) && SlotInv(w, Internet)
    ensures SlotInv(Step(w, a), slot)
  {
    if Of(w, slot).Some? {
      var m := Of(w, slot).value;
      ResourceEventsKeep(m);
      match a {
        case RequestATL(h, t) =>
          SubscribeKeeps(m, NewSubscriber(h, t));
        case ReleaseATL(h) =>
          if Find(w, h) == Some(slot) {
            UnsubscribeKeeps(m, Lookup(m.subscribers, h).value);
          }
        case _ =>
      }
    }
    hide OnSubscribe, OnUnsubscribe, OnGranted, OnReleased, OnDenied;
  }

  /** In every reachable state without a modem restart, duplicates or not: handles are distinct, RELEASED
      means an empty list, PENDING and ACQUIRED mean someone active, RELEASING means someone inactive. */
  lemma {:induction false} RunKeepsMachines(run: seq<Action>, slot: Slot)
    requires Possible(run) && NoRestart(run)
    ensures SlotInv(After(run), slot)
  {
    if run != [] {
      var before := run[..|run| - 1];
      assert forall i :: 0 <= i < |before| ==> before[i] == run[i];
      RunKeepsMachines(before, Agnss);
      RunKeepsMachines(before, Internet);
      StepKeepsMachines(After(before), run[|run| - 1], slot);
    }
  }

  // ---------- What each subscription is told ----------

  function Next(p: Phase, e: Entry, h: int): Phase {
    match e
    case Asked(k) => if k != h then p else if p.Gone? then Waiting else Broken
    case Sent(n) => Advance(p, n, h)
  }

  /** The phase of the subscription under a handle: asking starts one, open-failure and close end it. */
  function PhaseOf(trace: seq<Entry>, h: int): Phase {
    if trace == [] then Gone else Next(PhaseOf(trace[..|trace| - 1], h), trace[|trace| - 1], h)
  }

  lemma {:induction false} PhaseOfSents(trace: seq<Entry>, notices: seq<Notice>, h: int)
    ensures PhaseOf(trace + Sents(notices), h) == Follow(PhaseOf(trace, h), notices, h)
    decreases notices
  {
    if notices == [] {
      assert trace + Sents(notices) == trace;
    } else {
      assert trace + Sents(notices) == (trace + [Sent(notices[0])]) + Sents(notices[1..]);
      PhaseOfSents(trace + [Sent(notices[0])], notices[1..], h);
      assert (trace + [Sent(notices[0])])[..|trace|] == trace;
    }
  }

  lemma PhaseOfAsked(trace: seq<Entry>, k: int, h: int)
    ensures PhaseOf(trace + [Asked(k)], h) == Next(PhaseOf(trace, h), Asked(k), h)
  {
    assert (trace + [Asked(k)])[..|trace|] == trace;
  }

  /** The subscription under `h` is in at most one list; what it was told fits where it is. */
  predicate PhaseInv(w: World, h: int) {
    var p := PhaseOf(w.trace, h);
    && !(Holds(w.agnss, h) && Holds(w.internet, h))
    && (Holds(w.agnss, h) ==> Fits(w.agnss.value.state, Lookup(w.agnss.value.subscribers, h).value, p))
    && (Holds(w.internet, h) ==> Fits(w.internet.value.state, Lookup(w.internet.value.subscribers, h).value, p))
    && (!Holds(w.agnss, h) && !Holds(w.internet, h) ==> p.Gone?)
  }

  /** What one event does to the list of one machine carries over to the pair. */
  lemma AppliedTracks(w: World, slot: Slot, o: Outcome, h: int)
    requires Of(w, slot).Some? && PhaseInv(w, h)
    requires Tracks(Of(w, slot).value, o, h, false, PhaseOf(w.trace, h))
    ensures PhaseInv(Applied(w, slot, o), h)
  {
    PhaseOfSents(w.trace, o.notices, h);
    hide PhaseOf, Follow, Sents;
  }

  /** A request without a machine: asked for and refused at once. */
  lemma RefusalTracks(w: World, k: int, t: int, h: int)
    requires Of(w, SlotOf(t)).None? && Find(w, k).None? && PhaseInv(w, h)
    ensures PhaseInv(Requested(w, k, t), h)
  {
    var asked := w.trace + [Asked(k)];
    PhaseOfAsked(w.trace, k, h);
    PhaseOfSents(asked, [OpenStatus(k, false, t)], h);
    FollowOne(PhaseOf(asked, h), OpenStatus(k, false, t), h);
    hide PhaseOf, Follow, Sents, Lookup, Fits, SlotOf;
  }

  lemma RequestTracks(w: World, k: int, t: int, h: int)
    requires SlotInv(w, SlotOf(t)) && Find(w, k).None? && PhaseInv(w, h)
    ensures PhaseInv(Requested(w, k, t), h)
  {
    if Of(w, SlotOf(t)).None? {
      RefusalTracks(w, k, t, h);
    } else {
      var m, s, asked := Of(w, SlotOf(t)).value, NewSubscriber(k, t), w.(trace := w.trace + [Asked(k)]);
      PhaseOfAsked(w.trace, k, h);
      SubscribeTracks(m, s, h, PhaseOf(asked.trace, h));
      hide SlotOf, MachineInv, OnSubscribe, PhaseOf;
      JoinedTracks(w, asked, SlotOf(t), OnSubscribe(m, s), k, h);
    }
  }

  /** What a subscribe event does to the list of one machine carries over to the pair. */
  lemma JoinedTracks(w: World, asked: World, slot: Slot, o: Outcome, k: int, h: int)
    requires Of(w, slot).Some? && Find(w, k).None? && PhaseInv(w, h)
    requires asked == w.(trace := asked.trace) && PhaseOf(asked.trace, h) == Next(PhaseOf(w.trace, h), Asked(k), h)
    requires Tracks(Of(w, slot).value, o, h, h == k, PhaseOf(asked.trace, h))
    ensures PhaseInv(Applied(asked, slot, o), h)
  {
    PhaseOfSents(asked.trace, o.notices, h);
    hide PhaseOf, Follow, Sents, Lookup;
  }

  lemma ReleaseTracks(w: World, k: int, h: int)
    requires SlotInv(w, Agnss) && SlotInv(w, Internet) && PhaseInv(w, k) && PhaseInv(w, h)
    ensures PhaseInv(Step(w, ReleaseATL(k)), h)
  {
    var found := Find(w, k);
    if found.None? {
      PhaseOfSents(w.trace, [CloseStatus(k, false)], h);
      FollowOne(PhaseOf(w.trace, h), CloseStatus(k, false), h);
    } else {
      var m := Of(w, found.value).value;
      UnsubscribeTracks(m, Lookup(m.subscribers, k).value, h, PhaseOf(w.trace, h));
      AppliedTracks(w, found.value, Unsubscribed(m, k), h);
    }
    hide PhaseOf, Follow, Sents, OnUnsubscribe, Lookup, MachineInv;
  }

  /** What a report from the framework makes of the machine it is about. */
  function ReportOf(m: Machine, a: Action): Outcome
    requires IsReport(a)
  {
    match a
    case AtlOpenSuccess(_) => OnGranted(m)
    case AtlOpenFailed(_) => OnDenied(m)
    case AtlClosed(_) => OnReleased(m)
  }

  predicate IsReport(a: Action) {
    a.AtlOpenSuccess? || a.AtlOpenFailed? || a.AtlClosed?
  }

  lemma ReportOutcome(m: Machine, a: Action, h: int, p: Phase)
    requires IsReport(a) && MachineInv(m)
    ensures Tracks(m, ReportOf(m, a), h, false, p)
  {
    GrantedTracks(m, h, p);
    if m.state.Releasing? {
      ClosedTracks(m, h, p);
    } else {
      DroppedTracks(m, ReleasedEvent, h, p);
      if m.state.Pending? {
        DroppedTracks(m, Denied, h, p);
      }
    }
    assert Follow(p, [], h) == p;
    assert Tracks(m, Outcome(m, []), h, false, p);
    hide Tracks, Lookup, MachineInv, Closed, Dropped, Follow;
  }

  lemma ReportTracks(w: World, a: Action, h: int)
    requires Enabled(w, a) && IsReport(a) && SlotInv(w, SlotOf(a.agpsType)) && PhaseInv(w, h)
    ensures PhaseInv(Step(w, a), h)
  {
    var slot := SlotOf(a.agpsType);
    var m := Of(w, slot).value;
    ReportOutcome(m, a, h, PhaseOf(w.trace, h));
    hide Tracks, PhaseInv, PhaseOf, MachineInv, OnGranted, OnDenied, OnReleased;
    AppliedTracks(w, slot, ReportOf(m, a), h);
  }

  lemma StepTracks(w: World, a: Action, h: int)
    requires Enabled(w, a) && !a.ModemRestart? && SlotInv(w, Agnss) && SlotInv(w, Internet) && PhaseInv(w, h)
    requires a.RequestATL? ==> Find(w, a.handle).None?
    requires a.ReleaseATL? ==> PhaseInv(w, a.handle)
    ensures PhaseInv(Step(w, a), h)
  {
    match a {
      case RequestATL(k, t) => RequestTracks(w, k, t, h);
      case ReleaseATL(k) => ReleaseTracks(w, k, h);
      case CreateMachines(_) =>
      case _ => ReportTracks(w, a, h);
    }
    hide PhaseOf, SlotInv, Requested, Applied, Told, Fits;
  }

  /** Without modem restarts and duplicates, every subscription takes its course: asked for, it waits; it is
      opened at most once; one open-failure while it waits, or one close, ends it and takes it off its list. */
  lemma {:induction false} RunFollowsPhases(run: seq<Action>, h: int)
    requires Possible(run) && NoRestart(run) && NoDuplicates(run)
    ensures PhaseInv(After(run), h) && !PhaseOf(After(run).trace, h).Broken?
  {
    if run != [] {
      var before, a := run[..|run| - 1], run[|run| - 1];
      assert forall i :: 0 <= i < |before| ==> before[i] == run[i];
      RunFollowsPhases(before, h);
      RunKeepsMachines(before, Agnss);
      RunKeepsMachines(before, Internet);
      if a.ReleaseATL? {
        RunFollowsPhases(before, a.handle);
      }
      hide Step, PhaseOf, SlotInv, Find;
      StepTracks(After(before), a, h);
    }
  }

  // ---------- The same, as statements about the notices ----------

  predicate Ends(e: Entry, h: int) {
    e.Sent? && ((e.notice.OpenStatus? && e.notice.handle == h && !e.notice.success) || e.notice == CloseStatus(h, true))
  }

  predicate Opens(e: Entry, h: int) {
    e.Sent? && e.notice.OpenStatus? && e.notice.handle == h && e.notice.success
  }

  function CountAsked(trace: seq<Entry>, h: int): nat {
    if trace == [] then 0
    else CountAsked(trace[..|trace| - 1], h) + if trace[|trace| - 1] == Asked(h) then 1 else 0
  }

  function CountEnds(trace: seq<Entry>, h: int): nat {
    if trace == [] then 0
    else CountEnds(trace[..|trace| - 1], h) + if Ends(trace[|trace| - 1], h) then 1 else 0
  }

  lemma {:induction false} PhaseCounts(trace: seq<Entry>, h: int)
    requires !PhaseOf(trace, h).Broken?
    ensures CountAsked(trace, h) == CountEnds(trace, h) + if PhaseOf(trace, h).Gone? then 0 else 1
  {
    if trace != [] {
      PhaseCounts(trace[..|trace| - 1], h);
    }
  }

  lemma {:induction false} UnbrokenPrefix(trace: seq<Entry>, n: nat, h: int)
    requires n <= |trace| && !PhaseOf(trace, h).Broken?
    ensures !PhaseOf(trace[..n], h).Broken?
  {
    if n < |trace| {
      UnbrokenPrefix(trace[..|trace| - 1], n, h);
      assert trace[..|trace| - 1][..n] == trace[..n];
    } else {
      assert trace[..n] == trace;
    }
  }

  /** Once opened, and until it is asked for again, a subscription is never waiting. */
  lemma {:induction false} NotWaitingAgain(trace: seq<Entry>, i: nat, j: nat, h: int)
    requires i < j <= |trace| && Opens(trace[i], h)
    requires forall k {:trigger trace[k]} :: i < k < j ==> trace[k] != Asked(h)
    ensures !PhaseOf(trace[..j], h).Waiting?
  {
    assert trace[..j][..j - 1] == trace[..j - 1];
    if i < j - 1 {
      NotWaitingAgain(trace, i, j - 1, h);
    }
  }

  /** Every subscription that was asked for got exactly one terminal notice, or is in a list and has had none. */
  predicate EndsOnce(w: World, h: int) {
    CountAsked(w.trace, h) == CountEnds(w.trace, h) + if Find(w, h).Some? then 1 else 0
  }

  lemma EachEndsOnce(run: seq<Action>, h: int)
    requires Possible(run) && NoRestart(run) && NoDuplicates(run)
    ensures EndsOnce(After(run), h)
  {
    RunFollowsPhases(run, h);
    PhaseCounts(After(run).trace, h);
    hide PhaseOf, CountAsked, CountEnds, After;
  }

  /** After an open-success neither a second one nor an open-failure comes unless asked for anew. */
  lemma OpenedOnceNeverFailed(run: seq<Action>, h: int, i: nat, j: nat)
    requires Possible(run) && NoRestart(run) && NoDuplicates(run)
    requires i < j < |After(run).trace| && Opens(After(run).trace[i], h)
    requires After(run).trace[j].Sent? && After(run).trace[j].notice.OpenStatus?
    requires After(run).trace[j].notice.handle == h
    ensures exists k :: i < k < j && After(run).trace[k] == Asked(h)
  {
    RunFollowsPhases(run, h);
    hide After, NoRestart, NoDuplicates, Possible, PhaseInv;
    OpenedOnce(After(run).trace, h, i, j);
  }

  lemma OpenedOnce(trace: seq<Entry>, h: int, i: nat, j: nat)
    requires !PhaseOf(trace, h).Broken? && i < j < |trace| && Opens(trace[i], h)
    requires trace[j].Sent? && trace[j].notice.OpenStatus? && trace[j].notice.handle == h
    ensures exists k :: i < k < j && trace[k] == Asked(h)
  {
    UnbrokenPrefix(trace, j + 1, h);
    assert trace[..j + 1][..j] == trace[..j];
    if forall k {:trigger trace[k]} :: i < k < j ==> trace[k] != Asked(h) {
      NotWaitingAgain(trace, i, j, h);
      assert false;
    }
  }

  // ---------- Requests against releases ----------

  predicate IsConn(e: Entry, request: bool, agpsType: int) {
    e == Sent(DataConn(request, agpsType))
  }

  function ConnBalance(trace: seq<Entry>, t: int): int {
    if trace == [] then 0
    else
      var e := trace[|trace| - 1];
      ConnBalance(trace[..|trace| - 1], t)
      + (if IsConn(e, true, t) then 1 else 0) - (if IsConn(e, false, t) then 1 else 0)
  }

  /** Connections given up without a release: denied while pending, or released by force while acquired. */
  predicate Lost(w: World, a: Action, slot: Slot) {
    && Of(w, slot).Some?
    && ((a.AtlOpenFailed? && SlotOf(a.agpsType) == slot && Of(w, slot).value.state.Pending?) ||
        (a.AtlClosed? && SlotOf(a.agpsType) == slot && Of(w, slot).value.state.Acquired?))
  }

  ghost function Losses(run: seq<Action>, slot: Slot): nat
    requires Possible(run)
  {
    if run == [] then 0
    else Losses(run[..|run| - 1], slot) + if Lost(After(run[..|run| - 1]), run[|run| - 1], slot) then 1 else 0
  }

  function HeldBy(m: Option<Machine>): int {
    if m.Some? then Held(m.value) else 0
  }

  predicate TypesRight(w: World) {
    && (w.agnss.Some? ==> w.agnss.value.agpsType == TYPE_SUPL)
    && (w.internet.Some? ==> w.internet.value.agpsType == TYPE_WWAN_ANY)
  }

  /** The notices of a machine about data connections carry its own type. */
  predicate ConnsTyped(notices: seq<Notice>, t: int) {
    notices == [] || ((notices[0].DataConn? ==> notices[0].agpsType == t) && ConnsTyped(notices[1..], t))
  }

  lemma {:induction false} BalanceOfSents(trace: seq<Entry>, notices: seq<Notice>, own: int, t: int)
    requires ConnsTyped(notices, own)
    ensures ConnBalance(trace + Sents(notices), t) == ConnBalance(trace, t) + if own == t then Sum(notices) else 0
    decreases notices
  {
    if notices == [] {
      assert trace + Sents(notices) == trace;
    } else {
      assert trace + Sents(notices) == (trace + [Sent(notices[0])]) + Sents(notices[1..]);
      BalanceOfSents(trace + [Sent(notices[0])], notices[1..], own, t);
      assert (trace + [Sent(notices[0])])[..|trace|] == trace;
    }
  }

  lemma BalanceOfAsked(trace: seq<Entry>, h: int, t: int)
    ensures ConnBalance(trace + [Asked(h)], t) == ConnBalance(trace, t)
  {
    assert (trace + [Asked(h)])[..|trace|] == trace;
  }

  lemma {:induction false} TypedConcat(a: seq<Notice>, b: seq<Notice>, t: int)
    ensures ConnsTyped(a + b, t) <==> ConnsTyped(a, t) && ConnsTyped(b, t)
  {
    if a == [] {
      assert a + b == b;
    } else {
      assert (a + b)[1..] == a[1..] + b;
      TypedConcat(a[1..], b, t);
    }
  }

  lemma {:induction false} TypedToAll(subs: seq<Subscriber>, event: Event, kind: Audience, t: int)
    ensures ConnsTyped(NoticesToAll(subs, event, kind, t), t)
  {
    if subs != [] {
      var first := if Addressed(kind, subs[0]) then NoticeOf(event, subs[0].handle, t) else [];
      TypedConcat(first, NoticesToAll(subs[1..], event, kind, t), t);
      TypedToAll(subs[1..], event, kind, t);
    }
  }

  lemma TypedReports(m: Machine)
    ensures ConnsTyped(OnGranted(m).notices, m.agpsType) && ConnsTyped(OnReleased(m).notices, m.agpsType)
    ensures ConnsTyped(OnDenied(m).notices, m.agpsType)
  {
    TypedToAll(m.subscribers, Granted, ForActive, m.agpsType);
    TypedToAll(m.subscribers, ReleasedEvent, ForAll, m.agpsType);
    TypedToAll(m.subscribers, Denied, ForAll, m.agpsType);
    var told := NoticesToAll(m.subscribers, ReleasedEvent, ForInactive, m.agpsType);
    TypedToAll(m.subscribers, ReleasedEvent, ForInactive, m.agpsType);
    TypedConcat(told, [DataConn(true, m.agpsType)], m.agpsType);
  }

  lemma TypedRequests(m: Machine, s: Subscriber)
    ensures ConnsTyped(OnSubscribe(m, s).notices, m.agpsType) && ConnsTyped(OnUnsubscribe(m, s).notices, m.agpsType)
  {
    TypedConcat(Left(m, s).notices, [DataConn(false, m.agpsType)], m.agpsType);
  }

  lemma AppliedBalance(w: World, slot: Slot, o: Outcome, other: Slot, lost: int)
    requires TypesRight(w) && Of(w, slot).Some? && o.machine.agpsType == Of(w, slot).value.agpsType
    requires ConnsTyped(o.notices, o.machine.agpsType)
    requires Held(o.machine) == Held(Of(w, slot).value) + Sum(o.notices) - lost
    ensures var w' := Applied(w, slot, o);
      && TypesRight(w')
      && HeldBy(Of(w', other)) - HeldBy(Of(w, other)) ==
         ConnBalance(w'.trace, TypeOf(other)) - ConnBalance(w.trace, TypeOf(other))
         - (if other == slot then lost else 0)
  {
    BalanceOfSents(w.trace, o.notices, o.machine.agpsType, TypeOf(other));
    hide ConnBalance, Sum, Held, Sents, ConnsTyped;
  }

  lemma RequestBalance(w: World, h: int, t: int, slot: Slot)
    requires TypesRight(w)
    ensures var w' := Requested(w, h, t);
      && TypesRight(w')
      && HeldBy(Of(w', slot)) - HeldBy(Of(w, slot)) ==
         ConnBalance(w'.trace, TypeOf(slot)) - ConnBalance(w.trace, TypeOf(slot))
  {
    var asked := w.(trace := w.trace + [Asked(h)]);
    BalanceOfAsked(w.trace, h, TypeOf(slot));
    if Of(w, SlotOf(t)).None? {
      BalanceOfSents(asked.trace, [OpenStatus(h, false, t)], TYPE_SUPL, TypeOf(slot));
    } else {
      var m, s := Of(w, SlotOf(t)).value, NewSubscriber(h, t);
      SubscribeBalance(m, s);
      TypedRequests(m, s);
      AppliedBalance(asked, SlotOf(t), OnSubscribe(m, s), slot, 0);
    }
  }

  lemma ReleaseBalance(w: World, h: int, slot: Slot)
    requires TypesRight(w)
    ensures var w' := Step(w, ReleaseATL(h));
      && TypesRight(w')
      && HeldBy(Of(w', slot)) - HeldBy(Of(w, slot)) ==
         ConnBalance(w'.trace, TypeOf(slot)) - ConnBalance(w.trace, TypeOf(slot))
  {
    var found := Find(w, h);
    if found.None? {
      BalanceOfSents(w.trace, [CloseStatus(h, false)], TYPE_SUPL, TypeOf(slot));
    } else {
      var m := Of(w, found.value).value;
      var s := Lookup(m.subscribers, h).value;
      UnsubscribeBalance(m, s);
      TypedRequests(m, s);
      AppliedBalance(w, found.value, OnUnsubscribe(m, s), slot, 0);
    }
  }

  lemma ReportBalance(w: World, a: Action, slot: Slot)
    requires TypesRight(w) && Enabled(w, a) && IsReport(a)
    ensures var w' := Step(w, a);
      && TypesRight(w')
      && HeldBy(Of(w', slot)) - HeldBy(Of(w, slot)) ==
         ConnBalance(w'.trace, TypeOf(slot)) - ConnBalance(w.trace, TypeOf(slot)) - (if Lost(w, a, slot) then 1 else 0)
  {
    var s := SlotOf(a.agpsType);
    var m := Of(w, s).value;
    TypedReports(m);
    GrantedBalance(m);
    DeniedBalance(m);
    ReleasedBalance(m);
    var lost := if Lost(w, a, s) then 1 else 0;
    AppliedBalance(w, s, ReportOf(m, a), slot, lost);
  }

  /** Over every run, restarts and duplicates included, requests exceed releases and losses by one exactly
      while the machine is PENDING or ACQUIRED, and by none otherwise. */
  lemma {:induction false} RequestsBalance(run: seq<Action>, slot: Slot)
    requires Possible(run)
    ensures TypesRight(After(run))
    ensures ConnBalance(After(run).trace, TypeOf(slot)) - Losses(run, slot) == HeldBy(Of(After(run), slot))
  {
    if run != [] {
      var before, a := run[..|run| - 1], run[|run| - 1];
      RequestsBalance(before, slot);
      var w := After(before);
      match a {
        case RequestATL(h, t) => RequestBalance(w, h, t, slot);
        case ReleaseATL(h) => ReleaseBalance(w, h, slot);
        case CreateMachines(_) =>
        case ModemRestart =>
        case _ => ReportBalance(w, a, slot);
      }
    }
    hide ConnBalance, Requested, Applied, Told, SlotOf;
  }
}
