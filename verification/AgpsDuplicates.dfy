/** Duplicates of live handles (gps/gnss/Agps.cpp): exactly which requests break the course of a subscription,
    and exactly which break the count of its terminal notices. */
module AgpsDuplicates {
  import opened Wrappers
  import opened Agps
  import opened AgpsRuns

  // ---------- The course of a subscription ----------

  lemma StepExtends(w: World, a: Action)
    requires Enabled(w, a)
    ensures w.trace <= Step(w, a).trace
  {
    hide OnSubscribe, OnUnsubscribe, OnGranted, OnReleased, OnDenied, Lookup, SlotOf;
  }

  /** What has once left its course stays off it. */
  lemma BrokenStays(w: World, a: Action, h: int)
    requires Enabled(w, a) && PhaseOf(w.trace, h).Broken?
    ensures PhaseOf(Step(w, a).trace, h).Broken?
  {
    StepExtends(w, a);
    var trace := Step(w, a).trace;
    assert trace[..|w.trace|] == w.trace;
    if !PhaseOf(trace, h).Broken? {
      UnbrokenPrefix(trace, |w.trace|, h);
    }
  }

  /** A subscription that is in a list when it is asked for again is off its course. */
  lemma DuplicateBreaks(w: World, h: int, t: int)
    requires PhaseInv(w, h) && Find(w, h).Some?
    ensures PhaseOf(Requested(w, h, t).trace, h).Broken?
  {
    PhaseOfAsked(w.trace, h, h);
    var asked, trace := w.trace + [Asked(h)], Requested(w, h, t).trace;
    RequestedExtends(w, h, t);
    assert trace[..|asked|] == asked;
    hide PhaseOf, Requested, Lookup;
    if !PhaseOf(trace, h).Broken? {
      UnbrokenPrefix(trace, |asked|, h);
    }
  }

  lemma RequestedExtends(w: World, h: int, t: int)
    ensures w.trace + [Asked(h)] <= Requested(w, h, t).trace
  {
    hide OnSubscribe, SlotOf;
  }

  lemma PrefixWithoutRestart(run: seq<Action>)
    requires run != [] && NoRestart(run)
    ensures NoRestart(run[..|run| - 1])
  {
    assert forall i :: 0 <= i < |run| - 1 ==> run[..|run| - 1][i] == run[i];
  }

  ghost predicate AllOnCourse(w: World) {
    forall h :: !PhaseOf(w.trace, h).Broken?
  }

  /** Without modem restarts every subscription takes its course if and only if no handle is asked for while it
      is in a list. */
  lemma {:induction false} OnCourseExactlyWithoutDuplicates(run: seq<Action>)
    requires Possible(run) && NoRestart(run)
    ensures NoDuplicates(run) <==> AllOnCourse(After(run))
  {
    if NoDuplicates(run) {
      forall h ensures !PhaseOf(After(run).trace, h).Broken? {
        RunFollowsPhases(run, h);
      }
    } else {
      var h := SomeBroken(run);
    }
  }

  lemma {:induction false} SomeBroken(run: seq<Action>) returns (h: int)
    requires Possible(run) && NoRestart(run) && !NoDuplicates(run)
    ensures PhaseOf(After(run).trace, h).Broken?
  {
    var before, a := run[..|run| - 1], run[|run| - 1];
    PrefixWithoutRestart(run);
    hide PhaseOf, Step, Enabled;
    if NoDuplicates(before) {
      h := a.handle;
      RunFollowsPhases(before, h);
      hide PhaseInv, Find, After;
      DuplicateBreaks(After(before), h, a.agpsType);
    } else {
      h := SomeBroken(before);
      BrokenStays(After(before), a, h);
    }
  }

  // ---------- The count of terminal notices ----------

  /** A request for a handle in a list, made of a machine that exists: one to a missing machine is refused at
      once, which is a terminal notice of its own. */
  predicate ReachesListed(w: World, a: Action) {
    a.RequestATL? && Find(w, a.handle).Some? && Of(w, SlotOf(a.agpsType)).Some?
  }

  ghost predicate NoneReachesListed(run: seq<Action>)
    requires Possible(run)
  {
    run == [] || (
      NoneReachesListed(run[..|run| - 1]) && !ReachesListed(After(run[..|run| - 1]), run[|run| - 1])
    )
  }

  /** At every point of the run, for every handle. */
  ghost predicate AlwaysEndsOnce(run: seq<Action>)
    requires Possible(run)
  {
    && (run != [] ==> AlwaysEndsOnce(run[..|run| - 1]))
    && forall h :: EndsOnce(After(run), h)
  }

  function EndsIn(notices: seq<Notice>, h: int): nat {
    if notices == [] then 0 else (if Ends(Sent(notices[0]), h) then 1 else 0) + EndsIn(notices[1..], h)
  }

  lemma {:induction false} CountsOfSents(trace: seq<Entry>, notices: seq<Notice>, h: int)
    ensures CountEnds(trace + Sents(notices), h) == CountEnds(trace, h) + EndsIn(notices, h)
    ensures CountAsked(trace + Sents(notices), h) == CountAsked(trace, h)
    decreases notices
  {
    if notices == [] {
      assert trace + Sents(notices) == trace;
    } else {
      assert trace + Sents(notices) == (trace + [Sent(notices[0])]) + Sents(notices[1..]);
      CountsOfSents(trace + [Sent(notices[0])], notices[1..], h);
      assert (trace + [Sent(notices[0])])[..|trace|] == trace;
    }
  }

  lemma CountsOfAsked(trace: seq<Entry>, k: int, h: int)
    ensures CountEnds(trace + [Asked(k)], h) == CountEnds(trace, h)
    ensures CountAsked(trace + [Asked(k)], h) == CountAsked(trace, h) + if h == k then 1 else 0
  {
    assert (trace + [Asked(k)])[..|trace|] == trace;
  }

  lemma {:induction false} BrokenFollows(notices: seq<Notice>, h: int)
    ensures Follow(Broken, notices, h) == Broken
  {
    if notices != [] {
      BrokenFollows(notices[1..], h);
    }
  }

  function Live(p: Phase): nat {
    if p.Gone? then 0 else 1
  }

  /** On its course a subscription is ended exactly when it goes. */
  lemma {:induction false} EndsFollow(p: Phase, notices: seq<Notice>, h: int)
    requires !Follow(p, notices, h).Broken?
    ensures EndsIn(notices, h) + Live(Follow(p, notices, h)) == Live(p)
    decreases notices
  {
    if notices != [] {
      BrokenFollows(notices[1..], h);
      EndsFollow(Advance(p, notices[0], h), notices[1..], h);
    }
  }

  function Listed(m: Machine, h: int): nat {
    if Lookup(m.subscribers, h).Some? then 1 else 0
  }

  /** A phase that fits where the machine has the subscription. */
  function FittingPhase(m: Machine, h: int): Phase {
    var s := Lookup(m.subscribers, h);
    if s.None? then Gone else if m.state.Acquired? && !s.value.inactive then Open else Waiting
  }

  /** One event ends a subscription exactly when it takes it off the list. */
  lemma OutcomeEnds(m: Machine, o: Outcome, h: int, joins: bool)
    requires joins ==> Listed(m, h) == 0
    requires Tracks(m, o, h, joins, if joins then Waiting else FittingPhase(m, h))
    ensures EndsIn(o.notices, h) + Listed(o.machine, h) == Listed(m, h) + if joins then 1 else 0
    ensures Listed(o.machine, h) == 1 ==> joins || Listed(m, h) == 1
  {
    var p := if joins then Waiting else FittingPhase(m, h);
    hide Follow, EndsIn, Lookup;
    EndsFollow(p, o.notices, h);
  }

  /** No handle is in both lists. */
  predicate Single(w: World, h: int) {
    !(Holds(w.agnss, h) && Holds(w.internet, h))
  }

  /** What one event does to the list of one machine, `joins` having been asked for, carries over to the pair. */
  lemma AppliedEnds(w: World, slot: Slot, o: Outcome, h: int, joins: bool, asked: World)
    requires Of(w, slot).Some? && Single(w, h) && EndsOnce(w, h) && (joins ==> Find(w, h).None?)
    requires asked == w.(trace := asked.trace)
    requires CountEnds(asked.trace, h) == CountEnds(w.trace, h)
    requires CountAsked(asked.trace, h) == CountAsked(w.trace, h) + if joins then 1 else 0
    requires Tracks(Of(w, slot).value, o, h, joins, if joins then Waiting else FittingPhase(Of(w, slot).value, h))
    ensures Single(Applied(asked, slot, o), h) && EndsOnce(Applied(asked, slot, o), h)
  {
    CountsOfSents(asked.trace, o.notices, h);
    OutcomeEnds(Of(w, slot).value, o, h, joins);
    hide CountEnds, CountAsked, Sents, EndsIn, Lookup, Tracks, FittingPhase;
  }

  lemma RefusedEnds(w: World, k: int, t: int, h: int)
    requires Of(w, SlotOf(t)).None? && Single(w, h) && EndsOnce(w, h)
    ensures Single(Requested(w, k, t), h) && EndsOnce(Requested(w, k, t), h)
  {
    var asked := w.trace + [Asked(k)];
    CountsOfAsked(w.trace, k, h);
    CountsOfSents(asked, [OpenStatus(k, false, t)], h);
    assert [OpenStatus(k, false, t)][1..] == [];
    hide CountEnds, CountAsked, Sents, Lookup, SlotOf;
  }

  lemma RequestEnds(w: World, k: int, t: int, h: int)
    requires SlotInv(w, SlotOf(t)) && Single(w, h) && EndsOnce(w, h) && !ReachesListed(w, RequestATL(k, t))
    ensures Single(Requested(w, k, t), h) && EndsOnce(Requested(w, k, t), h)
  {
    if Of(w, SlotOf(t)).None? {
      RefusedEnds(w, k, t, h);
    } else {
      var m, s, asked := Of(w, SlotOf(t)).value, NewSubscriber(k, t), w.(trace := w.trace + [Asked(k)]);
      CountsOfAsked(w.trace, k, h);
      SubscribeTracks(m, s, h, if h == k then Waiting else FittingPhase(m, h));
      hide OnSubscribe, CountEnds, CountAsked, Tracks, FittingPhase, MachineInv, Single, EndsOnce, SlotOf;
      AppliedEnds(w, SlotOf(t), OnSubscribe(m, s), h, h == k, asked);
    }
  }

  lemma ReleaseEnds(w: World, k: int, h: int)
    requires SlotInv(w, Agnss) && SlotInv(w, Internet) && Single(w, h) && EndsOnce(w, h)
    ensures Single(Step(w, ReleaseATL(k)), h) && EndsOnce(Step(w, ReleaseATL(k)), h)
  {
    var found := Find(w, k);
    if found.None? {
      CountsOfSents(w.trace, [CloseStatus(k, false)], h);
      assert [CloseStatus(k, false)][1..] == [];
      hide CountEnds, CountAsked, Sents, Lookup;
    } else {
      var m := Of(w, found.value).value;
      UnsubscribeTracks(m, Lookup(m.subscribers, k).value, h, FittingPhase(m, h));
      hide OnUnsubscribe, CountEnds, CountAsked, Tracks, FittingPhase, MachineInv, Single, EndsOnce;
      AppliedEnds(w, found.value, Unsubscribed(m, k), h, false, w);
    }
  }

  lemma ReportEnds(w: World, a: Action, h: int)
    requires Enabled(w, a) && IsReport(a) && SlotInv(w, SlotOf(a.agpsType)) && Single(w, h) && EndsOnce(w, h)
    ensures Single(Step(w, a), h) && EndsOnce(Step(w, a), h)
  {
    var slot := SlotOf(a.agpsType);
    var m := Of(w, slot).value;
    ReportOutcome(m, a, h, FittingPhase(m, h));
    hide OnGranted, OnReleased, OnDenied, CountEnds, CountAsked, Tracks, FittingPhase, MachineInv, Single, EndsOnce;
    AppliedEnds(w, slot, ReportOf(m, a), h, false, w);
  }

  lemma StepEnds(w: World, a: Action, h: int)
    requires Enabled(w, a) && !a.ModemRestart? && SlotInv(w, Agnss) && SlotInv(w, Internet)
    requires Single(w, h) && EndsOnce(w, h) && !ReachesListed(w, a)
    ensures Single(Step(w, a), h) && EndsOnce(Step(w, a), h)
  {
    hide SlotInv, ReachesListed, CountEnds, CountAsked;
    match a {
      case RequestATL(k, t) => RequestEnds(w, k, t, h);
      case ReleaseATL(k) => ReleaseEnds(w, k, h);
      case CreateMachines(_) =>
      case _ => ReportEnds(w, a, h);
    }
  }

  /** A request that does reach a listed handle asks for what is neither added to a list nor ended. */
  lemma ReachingBreaks(w: World, k: int, t: int)
    requires EndsOnce(w, k) && ReachesListed(w, RequestATL(k, t))
    ensures !EndsOnce(Requested(w, k, t), k)
  {
    var m, s, asked := Of(w, SlotOf(t)).value, NewSubscriber(k, t), w.trace + [Asked(k)];
    var o := OnSubscribe(m, s);
    CountsOfAsked(w.trace, k, k);
    CountsOfSents(asked, o.notices, k);
    LookupAppend(m.subscribers, s, k);
    assert EndsIn(o.notices, k) == 0 by {
      assert o.notices != [] ==> o.notices[1..] == [];
    }
    assert Lookup(o.machine.subscribers, k).Some?;
    hide CountEnds, CountAsked, Sents, Lookup, OnSubscribe, SlotOf;
  }

  lemma {:induction false} RunEndsOnce(run: seq<Action>, h: int)
    requires Possible(run) && NoRestart(run) && NoneReachesListed(run)
    ensures Single(After(run), h) && EndsOnce(After(run), h)
  {
    if run != [] {
      var before := run[..|run| - 1];
      PrefixWithoutRestart(run);
      RunEndsOnce(before, h);
      RunKeepsMachines(before, Agnss);
      RunKeepsMachines(before, Internet);
      hide Single, EndsOnce, SlotInv, ReachesListed, Step, Enabled;
      StepEnds(After(before), run[|run| - 1], h);
    }
  }

  /** Without modem restarts every subscription ever asked for got one terminal notice, or is in a list and has
      had none, at every point of the run, if and only if no request for a listed handle reaches a machine. */
  lemma {:induction false} EndsOnceExactly(run: seq<Action>)
    requires Possible(run) && NoRestart(run)
    ensures NoneReachesListed(run) <==> AlwaysEndsOnce(run)
  {
    if run != [] {
      PrefixWithoutRestart(run);
      EndsOnceExactly(run[..|run| - 1]);
    }
    if NoneReachesListed(run) {
      hide EndsOnce, ReachesListed;
      forall h ensures EndsOnce(After(run), h) {
        RunEndsOnce(run, h);
      }
    } else if AlwaysEndsOnce(run[..|run| - 1]) {
      LastReaches(run);
    }
  }

  lemma LastReaches(run: seq<Action>)
    requires Possible(run) && run != [] && AlwaysEndsOnce(run[..|run| - 1])
    requires ReachesListed(After(run[..|run| - 1]), run[|run| - 1])
    ensures !AlwaysEndsOnce(run)
  {
    var w, a := After(run[..|run| - 1]), run[|run| - 1];
    hide EndsOnce, Requested;
    ReachingBreaks(w, a.handle, a.agpsType);
    assert !EndsOnce(After(run), a.handle);
  }

  // ---------- A duplicate, concretely ----------

  lemma OneMore(run: seq<Action>, a: Action)
    requires Possible(run) && Enabled(After(run), a)
    ensures Possible(run + [a]) && After(run + [a]) == Step(After(run), a)
  {
    assert (run + [a])[..|run + [a]| - 1] == run;
  }

  const CREATED := World(Some(Machine([], Released, TYPE_SUPL)), Some(Machine([], Released, TYPE_WWAN_ANY)), [])

  function Pend(h: int): World {
    CREATED.(agnss := Some(Machine([Subscriber(h, false, false)], Pending, TYPE_SUPL)),
             trace := [Asked(h), Sent(DataConn(true, TYPE_SUPL))])
  }

  function Opened(h: int): World {
    Pend(h).(agnss := Some(Machine([Subscriber(h, false, false)], Acquired, TYPE_SUPL)),
             trace := Pend(h).trace + [Sent(OpenStatus(h, true, TYPE_SUPL))])
  }

  function OpenedAgain(h: int): World {
    Opened(h).(trace := Opened(h).trace + [Asked(h), Sent(OpenStatus(h, true, TYPE_SUPL))])
  }

  lemma FirstSteps(h: int)
    ensures Step(START, CreateMachines(true)) == CREATED
    ensures Step(CREATED, RequestATL(h, TYPE_SUPL)) == Pend(h)
  {
    assert Added([], Subscriber(h, false, false)) == [Subscriber(h, false, false)];
    assert Sents([DataConn(true, TYPE_SUPL)]) == [Sent(DataConn(true, TYPE_SUPL))];
  }

  lemma LastSteps(h: int)
    ensures Step(Pend(h), AtlOpenSuccess(TYPE_SUPL)) == Opened(h)
    ensures Step(Opened(h), RequestATL(h, TYPE_SUPL)) == OpenedAgain(h)
  {
    var s, granted := Subscriber(h, false, false), OpenStatus(h, true, TYPE_SUPL);
    assert NoticesToAll([s], Granted, ForActive, TYPE_SUPL) == [granted] by {
      assert [s][1..] == [];
    }
    assert Sents([granted]) == [Sent(granted)];
  }

  const DUPLICATED := 7
  const UP_TO_OPEN := [CreateMachines(true), RequestATL(DUPLICATED, TYPE_SUPL), AtlOpenSuccess(TYPE_SUPL)]

  lemma OpenedRun()
    ensures Possible(UP_TO_OPEN) && NoRestart(UP_TO_OPEN) && After(UP_TO_OPEN) == Opened(DUPLICATED)
  {
    var a, b, c := CreateMachines(true), RequestATL(DUPLICATED, TYPE_SUPL), AtlOpenSuccess(TYPE_SUPL);
    FirstSteps(DUPLICATED);
    LastSteps(DUPLICATED);
    assert Possible([]) && After([]) == START;
    hide Step, Opened;
    OneMore([], a);
    OneMore([] + [a], b);
    OneMore([] + [a] + [b], c);
    assert [] + [a] + [b] + [c] == UP_TO_OPEN;
  }

  /** Asked for a second time while it is open, a subscription is opened a second time though it is listed
      once, and neither of its two requests has been ended. */
  lemma DuplicateOpenedTwice()
    ensures var run := UP_TO_OPEN + [RequestATL(DUPLICATED, TYPE_SUPL)];
      && Possible(run) && NoRestart(run) && After(run) == OpenedAgain(DUPLICATED)
      && !AllOnCourse(After(run)) && !AlwaysEndsOnce(run)
  {
    var before, a := UP_TO_OPEN, RequestATL(DUPLICATED, TYPE_SUPL);
    var run := before + [a];
    OpenedRun();
    LastSteps(DUPLICATED);
    OneMore(before, a);
    assert run[..|run| - 1] == before;
    assert ReachesListed(Opened(DUPLICATED), a);
    hide Step, After, Find;
    OnCourseExactlyWithoutDuplicates(run);
    EndsOnceExactly(run);
  }
}
