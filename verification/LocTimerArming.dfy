/** The kernel timer of a container without timers: "armed exactly while there are timers" is not kept, since
    only the poll thread disarms, and not when a heap is emptied. */
module LocTimerArming {
  import opened Wrappers
  import opened LocHeap
  import opened Deadlines
  import opened LocTimerService
  import opened LocTimerInvariant
  import opened LocTimerProperties

  /** Is the poll thread about to execute its statement of `stage` for the container of `k`? */
  predicate Polls(s: State, a: Action, k: Kind, stage: Stage) {
    a == PollStep && s.poll.Expiring? && s.poll.todo != [] && s.poll.todo[0] == k && s.poll.stage == stage
  }

  /** One step that leaves the container empty disarms or unregisters it only in the poll thread. */
  ghost predicate KeptBy(s: State, a: Action, s': State, k: Kind) {
    && At(s', k).armed == (if Polls(s, a, k, Disarm) then None else At(s, k).armed)
    && At(s', k).polled == (At(s, k).polled && !Polls(s, a, k, RemovePoll))
  }

  lemma EmptyStepKeeps(s: State, a: Action, s': State, k: Kind)
    requires MemSafe(s) && Step(s, a, s') && At(s', k).heap.Empty?
    ensures KeptBy(s, a, s', k)
  {
    if a == Deliver {
      EmptyMessageKeeps(s, k);
    } else if a == ExpiryTurn {
      EmptyTurnKeeps(s, k);
    } else if a == PollStep {
      PollStepKeeps(s, k);
    } else {
      OtherStepsKeep(s, a, k);
    }
    hide MemSafe, Next, PollAdvance, DeliverMsg, Turn;
  }

  lemma PollStepKeeps(s: State, k: Kind)
    requires s.poll.Expiring? && s.poll.todo != []
    ensures KeptBy(s, PollStep, PollAdvance(s), k)
  {
  }

  lemma OtherStepsKeep(s: State, a: Action, k: Kind)
    requires MemSafe(s) && Enabled(s, a) && a != Deliver && a != PollStep && a != ExpiryTurn
    ensures Next(s, a).sw == s.sw && Next(s, a).hw == s.hw
  {
    hide MemSafe, FutureTime, DeliverMsg, Turn;
  }

  lemma EmptyMessageKeeps(s: State, k: Kind)
    requires MemSafe(s) && s.queue != [] && At(DeliverMsg(s), k).heap.Empty?
    ensures At(DeliverMsg(s), k).armed == At(s, k).armed && At(DeliverMsg(s), k).polled == At(s, k).polled
  {
    hide Armed, DeliverMsg, MemSafe;
    match s.queue[0] {
      case PushMsg(k', t) =>
        PushFields(s);
        EmptiedStaysArmed(At(s, k'), t);
        hide AfterPush;
      case RemoveMsg(k', t) =>
        RemoveFields(s);
        EmptiedStaysArmed(At(s, k'), t);
        hide AfterRemove;
      case ExpireMsg(k') =>
        DeliverExpireIs(s);
    }
  }

  lemma EmptyTurnKeeps(s: State, k: Kind)
    requires MemSafe(s) && s.handling.Some? && At(Turn(s), k).heap.Empty?
    ensures At(Turn(s), k).armed == At(s, k).armed && At(Turn(s), k).polled == At(s, k).polled
  {
    hide MemSafe, Turn, UpdateSoonest, NextPop, Popped;
    TurnIs(s);
    UpdateOfEmpty(At(s, s.handling.value.kind));
  }

  lemma UpdateOfEmpty(c: Container)
    ensures UpdateSoonest(c, None).heap == c.heap
    ensures c.heap.Empty? ==> UpdateSoonest(c, None) == c
  {
  }

  /** Did the poll thread execute that statement for `k` in a step from `i` on, before `j`? */
  ghost predicate PolledBetween(states: seq<State>, actions: seq<Action>, i: nat, j: nat, k: Kind, stage: Stage)
    requires |states| == |actions| + 1 && j < |states|
  {
    exists m {:trigger actions[m]} :: i <= m < j && Polls(states[m], actions[m], k, stage)
  }

  ghost predicate EmptyAfter(states: seq<State>, i: nat, j: nat, k: Kind)
    requires j < |states|
  {
    forall m {:trigger states[m]} :: i < m <= j ==> At(states[m], k).heap.Empty?
  }

  /** While a container stays empty, its kernel timer is disarmed if and only if it was so when the heap was
      emptied or the poll thread has disarmed it since; and so for its registration. */
  lemma {:induction false} DisarmedExactlyByPolling(states: seq<State>, actions: seq<Action>, i: nat, j: nat, k: Kind)
    requires IsRun(states, actions) && i <= j < |states| && EmptyAfter(states, i, j, k)
    ensures At(states[j], k).armed ==
      if PolledBetween(states, actions, i, j, k, Disarm) then None else At(states[i], k).armed
    ensures At(states[j], k).polled <==>
      At(states[i], k).polled && !PolledBetween(states, actions, i, j, k, RemovePoll)
  {
    if i < j {
      DisarmedExactlyByPolling(states, actions, i, j - 1, k);
      StepOfRunKeeps(states, actions, j - 1, k);
      hide IsRun, PolledBetween, Polls;
      OneMorePoll(states, actions, i, j, k, Disarm);
      OneMorePoll(states, actions, i, j, k, RemovePoll);
    }
  }

  lemma StepOfRunKeeps(states: seq<State>, actions: seq<Action>, i: nat, k: Kind)
    requires IsRun(states, actions) && i < |actions| && At(states[i + 1], k).heap.Empty?
    ensures KeptBy(states[i], actions[i], states[i + 1], k)
  {
    RunKeepsInv(states, actions, i);
    assert Step(states[i], actions[i], states[i + 1]);
    hide Inv, MemSafe, IsRun, Step;
    EmptyStepKeeps(states[i], actions[i], states[i + 1], k);
  }

  lemma OneMorePoll(states: seq<State>, actions: seq<Action>, i: nat, j: nat, k: Kind, stage: Stage)
    requires |states| == |actions| + 1 && i < j < |states|
    ensures PolledBetween(states, actions, i, j, k, stage) <==>
      PolledBetween(states, actions, i, j - 1, k, stage) || Polls(states[j - 1], actions[j - 1], k, stage)
  {
    hide Polls;
    if Polls(states[j - 1], actions[j - 1], k, stage) {
      assert Polls(states[j - 1], actions[j - 1], k, stage) && i <= j - 1 < j;
    }
  }

  // ---------- What the poll thread is woken for ----------

  /** Once the poll thread waits again, it has queued an expire message for every container it was woken for. */
  lemma WokenIsQueued(states: seq<State>, actions: seq<Action>, i: nat, j: nat, k: Kind)
    requires IsRun(states, actions) && i < j < |states| && actions[i].Wake? && k in actions[i].todo
    requires states[j].poll.Waiting?
    ensures PolledBetween(states, actions, i, j, k, SendMsg)
  {
    QueuedOrToDo(states, actions, i, j, k);
  }

  lemma {:induction false} QueuedOrToDo(states: seq<State>, actions: seq<Action>, i: nat, j: nat, k: Kind)
    requires IsRun(states, actions) && i < j < |states| && actions[i].Wake? && k in actions[i].todo
    ensures PolledBetween(states, actions, i, j, k, SendMsg) || (states[j].poll.Expiring? && k in states[j].poll.todo)
  {
    hide Inv, MemSafe, Step;
    assert |states| == |actions| + 1;
    hide IsRun;
    if i + 1 == j {
      StepOfRun(states, actions, i);
      WakeBegins(states[i], actions[i], states[j]);
    } else {
      QueuedOrToDo(states, actions, i, j - 1, k);
      StepOfRun(states, actions, j - 1);
      hide PolledBetween, Polls;
      OneMorePoll(states, actions, i, j, k, SendMsg);
      ToDoStays(states[j - 1], actions[j - 1], states[j], k);
    }
  }

  lemma WakeBegins(s: State, a: Action, s': State)
    requires MemSafe(s) && Step(s, a, s') && a.Wake?
    ensures s'.poll == Expiring(a.todo, Disarm)
  {
    hide MemSafe, DeliverMsg, Turn;
  }

  lemma ToDoStays(s: State, a: Action, s': State, k: Kind)
    requires MemSafe(s) && Step(s, a, s')
    ensures s.poll.Expiring? && k in s.poll.todo ==>
      Polls(s, a, k, SendMsg) || (s'.poll.Expiring? && k in s'.poll.todo)
  {
    match a {
      case Deliver =>
        match s.queue[0] {
          case PushMsg(_, _) => PushFields(s);
          case RemoveMsg(_, _) => RemoveFields(s);
          case ExpireMsg(_) => DeliverExpireIs(s);
        }
      case ExpiryTurn => TurnIs(s);
      case PollStep =>
        if s.poll.todo != [] {
          assert s.poll.todo == [s.poll.todo[0]] + s.poll.todo[1..];
        }
      case _ =>
    }
    hide MemSafe, DeliverMsg, Turn, FutureTime, AfterPush, AfterRemove;
  }
}
