/** What the users of the timer service can count on, in every run, and the one thing they cannot. */
module LocTimerProperties {
  import opened Wrappers
  import opened LocHeap
  import opened Deadlines
  import opened LocTimerService
  import opened LocTimerInvariant

  /** No timer is lost: while a heap is not empty, the kernel is set to report exactly its earliest
      deadline, or an expire message for it is queued or being handled, or the poll thread is about to queue
      one. */
  lemma NoTimerIsLost(states: seq<State>, actions: seq<Action>, i: nat, k: Kind)
    requires IsRun(states, actions) && i < |states|
    ensures var s, c := states[i], At(states[i], k);
      c.heap.Node? ==>
        || (c.polled && c.armed == Some(c.heap.data.time))
        || ExpireMsg(k) in s.queue
        || (s.handling.Some? && s.handling.value.kind == k)
        || (s.poll.Expiring? && k in s.poll.todo)
    ensures forall t :: t in Contents(At(states[i], k).heap) ==>
      At(states[i], k).heap.Node? && At(states[i], k).heap.data.time.Nanos() <= t.time.Nanos()
  {
    RunKeepsInv(states, actions, i);
    assert Served(states[i], k);
    hide Served, Lives, LocksCount, MemSafe;
    assert Ordered(RANKED, At(states[i], k).heap);
    forall t | t in Contents(At(states[i], k).heap)
      ensures At(states[i], k).heap.Node? && At(states[i], k).heap.data.time.Nanos() <= t.time.Nanos()
    {
      NoneBeforeTop(At(states[i], k).heap, t);
    }
  }

  /** A client's running timer is waiting to be pushed or is in its heap. */
  lemma RunningTimerIsKept(states: seq<State>, actions: seq<Action>, i: nat, c: nat)
    requires IsRun(states, actions) && i < |states|
    requires c in states[i].clients && states[i].clients[c].Some?
    ensures var s, id := states[i], states[i].clients[c].value;
      && id in s.delegates && s.delegates[id].client == Some(c)
      && var d := s.delegates[id];
      && (PushMsg(d.kind, d.timer) in s.queue || d.timer in Contents(At(s, d.kind).heap))
  {
    RunKeepsInv(states, actions, i);
    hide MemSafe, IsRun, Served, LocksCount, HeapsKept, Owned;
    var s, id := states[i], states[i].clients[c].value;
    assert Life(s, multiset{}, id) && id in s.delegates;
    hide Lives, ClientsRun;
    RunningIsKept(s, id);
  }

  lemma RunningIsKept(s: State, id: nat)
    requires Life(s, multiset{}, id) && id in s.delegates && s.delegates[id].client.Some?
    ensures var d := s.delegates[id];
      PushMsg(d.kind, d.timer) in s.queue || d.timer in Contents(At(s, d.kind).heap)
  {
    AboutHolds(s.queue, PushMsg(s.delegates[id].kind, s.delegates[id].timer), id);
    hide Contents;
  }

  /** Each timer is started once, stopped at most once, called back exactly when the stop was its own
      expiry, and freed at most once, after its stop; once freed, no heap, message or client knows it. */
  lemma OneLifePerTimer(states: seq<State>, actions: seq<Action>, i: nat, id: nat)
    requires IsRun(states, actions) && i < |states|
    ensures var s, log := states[i], multiset(states[i].log);
      && log[Freed(id)] <= Stops(s.log, id) <= log[Started(id)] <= 1
      && log[CalledBack(id)] == log[Stopped(id, true)]
      && (id in s.delegates <==> log[Started(id)] == 1 && log[Freed(id)] == 0)
      && (log[Freed(id)] == 1 ==>
            && (forall k, t :: t in Contents(At(s, k).heap) ==> t.id != id)
            && (forall m :: m in s.queue && !m.ExpireMsg? ==> m.timer.id != id)
            && (forall c :: c in s.clients ==> s.clients[c] != Some(id)))
  {
    RunKeepsInv(states, actions, i);
    var s := states[i];
    assert Life(s, multiset{}, id);
    forall m | m in s.queue && !m.ExpireMsg? && m.timer.id == id ensures id in s.delegates {
      MentionedIsLive(s, multiset{}, m);
    }
  }

  /** A shared lock exists exactly while it has holders, and counts them: the client that made it, while
      that lives, and every live delegate of that client's timers. */
  lemma LockCountsItsHolders(states: seq<State>, actions: seq<Action>, i: nat, l: nat)
    requires IsRun(states, actions) && i < |states|
    ensures var s := states[i];
      && (l in s.locks ==> s.locks[l] == |Sharers(s.delegates, l)| + if l in s.clients then 1 else 0)
      && (l !in s.locks ==> l !in s.clients && forall id :: id in s.delegates ==> s.delegates[id].lock != l)
  {
    RunKeepsInv(states, actions, i);
    var s := states[i];
    if l !in s.locks {
      assert Holders(s, l) == 0;
      forall id | id in s.delegates ensures s.delegates[id].lock != l {
        assert id !in Sharers(s.delegates, l);
      }
    }
  }

  /** At rest no running timer is overdue: with no message queued or being handled, the poll thread waiting and
      the kernel reporting nothing, every running timer's deadline is in the future. */
  lemma NothingDueAtRest(states: seq<State>, actions: seq<Action>, i: nat, c: nat)
    requires IsRun(states, actions) && i < |states|
    requires var s := states[i];
      s.queue == [] && s.handling.None? && s.poll.Waiting? && !Readable(s, Sw) && !Readable(s, Hw)
    requires c in states[i].clients && states[i].clients[c].Some?
    ensures var s, id := states[i], states[i].clients[c].value;
      id in s.delegates && s.now.Nanos() < s.delegates[id].timer.time.Nanos()
  {
    RunningTimerIsKept(states, actions, i, c);
    var s, id := states[i], states[i].clients[c].value;
    NoTimerIsLost(states, actions, i, s.delegates[id].kind);
    hide IsRun, Contents;
  }

  // ---------- What the threads do to the log ----------

  /** The top that a turn pops is called back if it is running, and nobody else. */
  lemma TurnCalls(s: State, id: nat)
    requires Inv(s) && MemSafe(s) && s.handling.Some?
    ensures s.log <= Turn(s).log
    ensures multiset(Turn(s).log)[CalledBack(id)] == multiset(s.log)[CalledBack(id)]
      + if NextPop(s, s.handling.value).Some? && NextPop(s, s.handling.value).value.id == id
           && id in s.delegates && s.delegates[id].client.Some? then 1 else 0
    ensures NextPop(s, s.handling.value).Some? ==>
      var t := NextPop(s, s.handling.value).value;
      t.id in Turn(s).delegates && Turn(s).delegates[t.id].client == None
  {
    var k := s.handling.value.kind;
    assert Lives(s, multiset{});
    if NextPop(s, s.handling.value).Some? {
      var t := NextPop(s, s.handling.value).value;
      hide Inv, MemSafe, Lives, NextPop, Turn, ClientsSafe, ExpireOne, Popped;
      TurnWith(s, k, t);
      TopHanded(s, k);
      IntoLimbo(s, WithoutTop(s, k), k, t);
      ExpireOneCalls(WithoutTop(s, k), multiset{t}, t, id);
      ExpireOneCalls(WithoutTop(s, k), multiset{t}, t, t.id);
    } else {
      hide Inv, MemSafe, Lives, NextPop, Turn;
      TurnWithout(s, k);
    }
  }

  lemma ExpireOneCalls(s: State, limbo: multiset<Timer>, t: Timer, id: nat)
    requires Lives(s, limbo) && t in limbo && ClientsSafe(s) && t.id in s.delegates
    ensures var s' := ExpireOne(s, t);
      && s.log <= s'.log
      && multiset(s'.log)[CalledBack(id)] == multiset(s.log)[CalledBack(id)]
          + (if id == t.id && s.delegates[id].client.Some? then 1 else 0)
      && t.id in s'.delegates && s'.delegates[t.id].client == None
  {
    ExpireOneIsItsStop(s, limbo, t);
    if s.delegates[t.id].client.Some? {
      var c := s.delegates[t.id].client.value;
      StopFields(s, c, true);
      assert multiset(s.log + [Stopped(t.id, true)] + [CalledBack(t.id)])
          == multiset(s.log) + multiset{Stopped(t.id, true)} + multiset{CalledBack(t.id)};
    }
    hide Lives, ExpireOne;
  }

  /** Only a turn of the expiry loop calls anybody back. */
  lemma OtherStepsCallNobody(s: State, a: Action, s': State, id: nat)
    requires MemSafe(s) && Step(s, a, s') && a != ExpiryTurn
    ensures s.log <= s'.log && multiset(s'.log)[CalledBack(id)] == multiset(s.log)[CalledBack(id)]
  {
    LogOfOtherSteps(s, a, s');
    if s'.log != s.log {
      assert multiset(s'.log) == multiset(s.log) + multiset{s'.log[|s.log|]};
    }
  }

  /** Any other step logs at most one event, and no call-back. */
  lemma LogOfOtherSteps(s: State, a: Action, s': State)
    requires MemSafe(s) && Step(s, a, s') && a != ExpiryTurn
    ensures s'.log == s.log || (|s'.log| == |s.log| + 1 && s'.log == s.log + [s'.log[|s.log|]]
                                && !s'.log[|s.log|].CalledBack?)
  {
    if a == Deliver {
      match s.queue[0] {
        case PushMsg(_, _) => PushFields(s);
        case RemoveMsg(_, _) => RemoveFields(s);
        case ExpireMsg(_) => DeliverExpireIs(s);
      }
      hide MemSafe, AfterPush, AfterRemove, DeliverMsg, Armed;
    } else {
      ClientStepLogs(s, a);
      hide MemSafe, Next;
    }
  }

  lemma ClientStepLogs(s: State, a: Action)
    requires MemSafe(s) && Enabled(s, a) && a != Deliver && a != ExpiryTurn
    ensures var log := Next(s, a).log;
      log == s.log || (|log| == |s.log| + 1 && log == s.log + [log[|s.log|]] && !log[|s.log|].CalledBack?)
  {
    match a {
      case Start(c, ms, k, available) => StartLogs(s, c, ms, k);
      case Stop(c) => StopLogged(s, c);
      case Destroy(c) => StopLogged(s, c);
      case _ =>
    }
    hide MemSafe, StartTimer, StopTimer, DeliverMsg, Turn;
  }

  lemma StartLogs(s: State, c: nat, ms: nat, k: Kind)
    requires c in s.clients && c in s.locks && ms <= UINT32_MAX
    ensures StartTimer(s, c, ms, k).log == s.log || StartTimer(s, c, ms, k).log == s.log + [Started(s.nextId)]
  {
    hide FutureTime;
  }

  lemma StopLogged(s: State, c: nat)
    requires c in s.clients && (s.clients[c].Some? ==> s.clients[c].value in s.delegates)
    ensures StopTimer(s, c, false).log == s.log ||
      (s.clients[c].Some? && StopTimer(s, c, false).log == s.log + [Stopped(s.clients[c].value, false)])
  {
  }

  // ---------- What the handling of an expire message does ----------

  /** Is `id` running, in the heap of `k`, and due or on top? */
  ghost predicate CallsBack(s: State, k: Kind, id: nat) {
    Listed(s, k, id) && s.delegates[id].client.Some? && DueOrTop(s, k, s.delegates[id].timer)
  }

  ghost predicate Listed(s: State, k: Kind, id: nat) {
    id in s.delegates && s.delegates[id].timer in Contents(At(s, k).heap)
  }

  predicate DueOrTop(s: State, k: Kind, t: Timer) {
    Top(At(s, k).heap) == Some(t) || t.time.Nanos() <= s.now.Nanos()
  }

  /** From state `i`, in which the message is taken, to state `j`, in which its handling has ended. */
  ghost predicate Handles(states: seq<State>, actions: seq<Action>, i: nat, j: nat, k: Kind) {
    && IsRun(states, actions) && i + 1 < j < |states|
    && actions[i] == Deliver && states[i].queue != [] && states[i].queue[0] == ExpireMsg(k)
    && (forall m :: i < m < j ==> states[m].handling.Some?) && states[j].handling.None?
  }

  /** How far the handling that began in `s` has come in `u`, as `id` sees it. */
  ghost predicate HandledSoFar(s: State, u: State, k: Kind, id: nat) {
    && s.log <= u.log && Contents(At(u, k).heap) <= Contents(At(s, k).heap)
    && (u.handling.Some? ==>
          && u.handling.value.kind == k && u.handling.value.now == s.now
          && (u.handling.value.first ==> At(u, k).heap == At(s, k).heap))
    && (!(u.handling.Some? && u.handling.value.first) && At(s, k).heap.Node? ==>
          At(s, k).heap.data !in Contents(At(u, k).heap))
    && if Listed(s, k, id) && s.delegates[id].timer !in Contents(At(u, k).heap)
       then DueOrTop(s, k, s.delegates[id].timer) && Stops(u.log, id) == 1
       else multiset(u.log)[CalledBack(id)] == multiset(s.log)[CalledBack(id)]
  }

  /** Handling an expire message, with whatever the other threads and the call-backs do meanwhile, calls back
      exactly the running timers that are due when it is taken, and the top, due or not, except for those
      that their clients stop first. Afterwards every timer left was in the future then, and the kernel is
      armed for the first of them. */
  lemma ExpiryCallsBackDue(states: seq<State>, actions: seq<Action>, i: nat, j: nat, k: Kind, id: nat)
    requires Handles(states, actions, i, j, k)
    ensures var s, s' := states[i], states[j];
      multiset(s'.log)[CalledBack(id)] == multiset(s.log)[CalledBack(id)]
        + if CallsBack(s, k, id) && Stopped(id, false) !in s'.log then 1 else 0
    ensures Armed(At(states[j], k))
    ensures forall t :: t in Contents(At(states[j], k).heap) ==> t.time.Nanos() > states[i].now.Nanos()
  {
    hide HandledSoFar, Inv, MemSafe, Step, Contents, CallsBack, Armed, Life;
    assert |states| == |actions| + 1;
    hide IsRun;
    HandledUpTo(states, actions, i, j, k, id, j);
    HandledUpTo(states, actions, i, j, k, id, j - 1);
    StepOfRun(states, actions, i);
    StepOfRun(states, actions, j - 1);
    HandlingEnds(states[i], states[j - 1], actions[j - 1], states[j], k, id);
    LifeOf(states[i], id);
    LifeOf(states[j], id);
    CalledOrStopped(states[i], states[j], k, id);
  }

  lemma RunLength(states: seq<State>, actions: seq<Action>)
    requires IsRun(states, actions)
    ensures |states| == |actions| + 1
  {
    hide Step;
  }

  lemma StepOfRun(states: seq<State>, actions: seq<Action>, i: nat)
    requires IsRun(states, actions) && i < |actions|
    ensures |states| == |actions| + 1 && Step(states[i], actions[i], states[i + 1])
    ensures Inv(states[i]) && MemSafe(states[i]) && Inv(states[i + 1])
  {
    RunKeepsInv(states, actions, i);
    RunKeepsInv(states, actions, i + 1);
    hide Inv, MemSafe, Step;
  }

  lemma LifeOf(s: State, id: nat)
    requires Inv(s)
    ensures Life(s, multiset{}, id)
  {
  }

  lemma {:induction false} HandledUpTo(states: seq<State>, actions: seq<Action>, i: nat, j: nat, k: Kind, id: nat,
                                       m: nat)
    requires Handles(states, actions, i, j, k) && i < m <= j
    ensures HandledSoFar(states[i], states[m], k, id)
    decreases m
  {
    hide Inv, MemSafe, Step, HandledSoFar;
    assert |states| == |actions| + 1;
    hide IsRun;
    StepOfRun(states, actions, i);
    StepOfRun(states, actions, m - 1);
    if m == i + 1 {
      HandlingBegins(states[i], states[m], k, id);
    } else {
      HandledUpTo(states, actions, i, j, k, id, m - 1);
      HandlingGoesOn(states[i], states[m - 1], actions[m - 1], states[m], k, id);
    }
  }

  lemma HandlingBegins(s: State, s': State, k: Kind, id: nat)
    requires MemSafe(s) && Step(s, Deliver, s') && s.queue != [] && s.queue[0] == ExpireMsg(k)
    ensures HandledSoFar(s, s', k, id)
  {
    DeliverExpireIs(s);
    hide MemSafe, Contents, DeliverMsg;
  }

  lemma HandlingGoesOn(s: State, u: State, a: Action, u': State, k: Kind, id: nat)
    requires Inv(s) && Inv(u) && Inv(u') && MemSafe(u) && Step(u, a, u') && u.handling.Some?
    requires HandledSoFar(s, u, k, id)
    ensures HandledSoFar(s, u', k, id)
  {
    if a == ExpiryTurn {
      assert u' == Turn(u) && u.handling.value.kind == k;
      hide *;
      TurnGoesOn(s, u, u', k, id);
    } else {
      hide Inv, MemSafe, Step;
      AtMostOneStop(u', id);
      OtherStepsCallNobody(u, a, u', id);
      OtherStepsKeepHeaps(u, a, u');
      OtherGoesOn(s, u, u', k, id);
    }
  }

  lemma TurnGoesOn(s: State, u: State, u': State, k: Kind, id: nat)
    requires Inv(s) && Inv(u) && MemSafe(u) && u.handling.Some? && u.handling.value.kind == k && u' == Turn(u)
    requires Inv(u') && HandledSoFar(s, u, k, id)
    ensures HandledSoFar(s, u', k, id)
  {
    hide Inv, MemSafe, Turn, Contents, HandledSoFar, Stops, Popped, UpdateSoonest;
    AtMostOneStop(u', id);
    TurnIs(u);
    TurnCalls(u, id);
    if NextPop(u, u.handling.value).Some? {
      TopOnce(u, k);
      TimerOfListed(s, k, NextPop(u, u.handling.value).value);
      if Listed(s, k, id) && s.delegates[id].timer == NextPop(u, u.handling.value).value {
        StoppedOnce(u', id);
      }
      PopGoesOn(s, u, u', k, id);
    } else {
      UpdateKeepsHeap(At(u, k));
      EndGoesOn(s, u, u', k, id);
    }
  }

  lemma AtMostOneStop(s: State, id: nat)
    requires Inv(s)
    ensures Stops(s.log, id) <= 1
  {
    LifeOf(s, id);
    hide Inv;
  }

  /** A timer whose client has left it has been stopped. */
  lemma StoppedOnce(s: State, id: nat)
    requires Inv(s) && id in s.delegates && s.delegates[id].client == None
    ensures Stops(s.log, id) == 1
  {
    LifeOf(s, id);
    hide Inv;
  }

  /** A heap holds its top once. */
  lemma TopOnce(s: State, k: Kind)
    requires Inv(s) && At(s, k).heap.Node?
    ensures SizesExact(At(s, k).heap) && Ordered(RANKED, At(s, k).heap)
    ensures Contents(At(s, k).heap)[At(s, k).heap.data] == 1
  {
    var t := At(s, k).heap.data;
    assert t in Contents(At(s, k).heap);
    assert Owned(s, multiset{}) && HeapsKept(s);
    LifeOf(s, t.id);
    hide Inv, LocksCount, Served, Contents, Stops, About;
    assert s.delegates[t.id].timer == t && s.delegates[t.id].kind == k;
    hide Owned, HeapsKept;
    HeldOnce(s, t.id);
  }

  lemma HeldOnce(s: State, id: nat)
    requires Life(s, multiset{}, id) && id in s.delegates
    ensures var d := s.delegates[id]; Contents(At(s, d.kind).heap)[d.timer] <= 1
  {
    hide Contents, Stops, About;
  }

  lemma TimerOfListed(s: State, k: Kind, t: Timer)
    requires Inv(s)
    ensures t in Contents(At(s, k).heap) ==> t.id in s.delegates && s.delegates[t.id].timer == t
    ensures forall id :: Listed(s, k, id) ==> s.delegates[id].timer.id == id
  {
    assert Owned(s, multiset{});
    forall id | Listed(s, k, id) ensures s.delegates[id].timer.id == id {
      LifeOf(s, id);
    }
    hide Inv, Contents;
  }

  lemma OtherStepsKeepHeaps(s: State, a: Action, s': State)
    requires MemSafe(s) && Step(s, a, s') && s.handling.Some? && a != ExpiryTurn
    ensures s'.handling == s.handling && forall k :: At(s', k).heap == At(s, k).heap
  {
    hide MemSafe, FutureTime, DeliverMsg, Turn;
    if a == PollStep {
      PollFields(s);
      hide PollAdvance;
    } else {
      assert s'.sw == s.sw && s'.hw == s.hw;
    }
  }

  lemma LogGrows(s: State, s': State, id: nat)
    requires s.log <= s'.log
    ensures Stops(s.log, id) <= Stops(s'.log, id)
    ensures multiset(s.log)[Stopped(id, true)] <= multiset(s'.log)[Stopped(id, true)]
    ensures multiset(s.log)[Stopped(id, false)] <= multiset(s'.log)[Stopped(id, false)]
  {
    assert s'.log == s.log + s'.log[|s.log|..];
  }

  lemma OtherGoesOn(s: State, u: State, u': State, k: Kind, id: nat)
    requires HandledSoFar(s, u, k, id) && u'.handling == u.handling && At(u', k).heap == At(u, k).heap
    requires u.log <= u'.log && multiset(u'.log)[CalledBack(id)] == multiset(u.log)[CalledBack(id)]
    requires Stops(u'.log, id) <= 1
    ensures HandledSoFar(s, u', k, id)
  {
    LogGrows(u, u', id);
    hide Stops, Contents;
  }

  lemma EndGoesOn(s: State, u: State, u': State, k: Kind, id: nat)
    requires HandledSoFar(s, u, k, id) && u.handling.Some? && u'.handling == None
    requires NextPop(u, u.handling.value) == None && At(u', k).heap == At(u, k).heap
    requires u.log <= u'.log && multiset(u'.log)[CalledBack(id)] == multiset(u.log)[CalledBack(id)]
    requires Stops(u'.log, id) <= 1
    ensures HandledSoFar(s, u', k, id)
  {
    LogGrows(u, u', id);
    hide Stops, Contents;
  }

  /** A turn with a pop, seen from the heap and the log. */
  lemma PopGoesOn(s: State, u: State, u': State, k: Kind, id: nat)
    requires HandledSoFar(s, u, k, id) && u.handling.Some? && NextPop(u, u.handling.value).Some?
    requires At(u, k).heap.Node? && SizesExact(At(u, k).heap) && Ordered(RANKED, At(u, k).heap)
    requires Contents(At(u, k).heap)[At(u, k).heap.data] == 1
    requires u'.handling == Some(u.handling.value.(first := false))
    requires At(u', k).heap == Popped(RANKED, At(u, k).heap)
    requires var t := At(u, k).heap.data;
      && (t in Contents(At(s, k).heap) ==> t.id in s.delegates && s.delegates[t.id].timer == t)
      && u.log <= u'.log && Stops(u'.log, id) <= 1
      && (t.id != id ==> multiset(u'.log)[CalledBack(id)] == multiset(u.log)[CalledBack(id)])
      && (Listed(s, k, id) && s.delegates[id].timer == t ==> Stops(u'.log, id) == 1)
      && (Listed(s, k, id) ==> s.delegates[id].timer.id == id)
    ensures HandledSoFar(s, u', k, id)
  {
    hide Stops, Contents, SizesExact, Ordered, Popped, OutRanks, TimeSpec.Nanos;
    var t := At(u, k).heap.data;
    LogGrows(u, u', id);
    OnePop(At(u, k).heap, Timer(0, s.now));
    assert t in Contents(At(u, k).heap);
    assert t !in Contents(At(u', k).heap);
  }

  lemma HandlingEnds(s: State, u: State, a: Action, u': State, k: Kind, id: nat)
    requires Inv(u) && MemSafe(u) && Step(u, a, u') && u.handling.Some? && u'.handling.None?
    requires HandledSoFar(s, u, k, id)
    ensures Armed(At(u', k)) && forall t :: t in Contents(At(u', k).heap) ==> t.time.Nanos() > s.now.Nanos()
  {
    assert u.handling.value.kind == k && u.handling.value.now == s.now;
    hide Inv, MemSafe, HandledSoFar, Armed;
    if a != ExpiryTurn {
      hide Step;
      OtherStepsKeepHeaps(u, a, u');
    } else {
      assert u' == Turn(u);
      hide *;
      TurnIs(u);
      MemSafeHeap(u, k);
      LastTurn(u, u', k);
    }
  }

  lemma LastTurn(u: State, u': State, k: Kind)
    requires u.handling.Some? && u.handling.value.kind == k && Turned(u, u') && u'.handling.None?
    requires Ordered(RANKED, At(u, k).heap) && SizesExact(At(u, k).heap)
    ensures Armed(At(u', k))
    ensures forall t :: t in Contents(At(u', k).heap) ==> t.time.Nanos() > u.handling.value.now.Nanos()
  {
    hide Armed, UpdateSoonest, Contents, Ordered, SizesExact, Popped, TimeSpec.Nanos;
    UpdateFromNoneArms(At(u, k));
    UpdateKeepsHeap(At(u, k));
    NextPopAsks(u, u.handling.value);
    AllLater(At(u, k).heap, Timer(0, u.handling.value.now));
  }

  lemma NextPopAsks(s: State, h: Handling)
    ensures var heap := At(s, h.kind).heap;
      && (NextPop(s, h).Some? <==> heap.Node? && (h.first || heap.data.time.Nanos() <= h.now.Nanos()))
      && (NextPop(s, h).Some? ==> NextPop(s, h).value == heap.data)
  {
    hide OutRanks;
    if At(s, h.kind).heap.Node? {
      TimersRankByTime(Timer(0, h.now), At(s, h.kind).heap.data);
    }
  }

  /** A timer that the handling has popped was stopped, by its expiry or by its client. */
  lemma CalledOrStopped(s: State, s': State, k: Kind, id: nat)
    requires Life(s, multiset{}, id) && Life(s', multiset{}, id) && HandledSoFar(s, s', k, id) && s'.handling.None?
    requires forall t :: t in Contents(At(s', k).heap) ==> t.time.Nanos() > s.now.Nanos()
    ensures multiset(s'.log)[CalledBack(id)] == multiset(s.log)[CalledBack(id)]
      + if CallsBack(s, k, id) && Stopped(id, false) !in s'.log then 1 else 0
  {
    LogGrows(s, s', id);
    assert Stopped(id, false) in s'.log <==> multiset(s'.log)[Stopped(id, false)] > 0;
    hide Contents, About, Held, TimeSpec.Nanos;
  }

  // ---------- In which order a handling calls back ----------

  /** Is the message thread between the pops of one handling, from state `m` to state `n`? */
  ghost predicate StaysInLoop(states: seq<State>, m: nat, n: nat, k: Kind)
    requires n < |states|
  {
    forall i {:trigger states[i]} :: m <= i <= n ==> states[i].handling.Some? && states[i].handling.value.kind == k
  }

  /** Whatever the other threads do between the turns of a handling, its pops are in order of time. */
  lemma PopsInOrder(states: seq<State>, actions: seq<Action>, m: nat, n: nat, k: Kind)
    requires IsRun(states, actions) && m < n < |states| && StaysInLoop(states, m, n, k)
    ensures var p, q := NextPop(states[m], states[m].handling.value), NextPop(states[n], states[n].handling.value);
      p.Some? && q.Some? ==> p.value.time.Nanos() <= q.value.time.Nanos()
  {
    RunKeepsInv(states, actions, m);
    HeapShrinks(states, actions, m, n, k);
    MemSafeHeap(states[m], k);
    hide IsRun, Inv, MemSafe, Contents, OutRanks, Ordered, TimeSpec.Nanos;
    if At(states[n], k).heap.Node? {
      TopIsHeld(At(states[n], k).heap);
      NoneBeforeTop(At(states[m], k).heap, At(states[n], k).heap.data);
    }
  }

  lemma TopIsHeld(heap: Tree<Timer>)
    requires heap.Node?
    ensures heap.data in Contents(heap)
  {
  }

  lemma {:induction false} HeapShrinks(states: seq<State>, actions: seq<Action>, m: nat, n: nat, k: Kind)
    requires IsRun(states, actions) && m <= n < |states| && StaysInLoop(states, m, n, k)
    ensures Contents(At(states[n], k).heap) <= Contents(At(states[m], k).heap)
  {
    hide Inv, MemSafe, Step, Contents;
    assert |states| == |actions| + 1;
    hide IsRun;
    if m < n {
      HeapShrinks(states, actions, m, n - 1, k);
      StepOfRun(states, actions, n - 1);
      StepShrinksHeap(states[n - 1], actions[n - 1], states[n], k);
    }
  }

  lemma StepShrinksHeap(s: State, a: Action, s': State, k: Kind)
    requires MemSafe(s) && Step(s, a, s') && s.handling.Some? && s.handling.value.kind == k
    ensures Contents(At(s', k).heap) <= Contents(At(s, k).heap)
  {
    if a == ExpiryTurn {
      assert s' == Turn(s);
      hide MemSafe, Step, Turn, Contents, UpdateSoonest, Popped, Due, TimeSpec.Nanos;
      TurnIs(s);
      MemSafeHeap(s, k);
      UpdateKeepsHeap(At(s, k));
      if At(s, k).heap.Node? {
        OnePop(At(s, k).heap, At(s, k).heap.data);
      }
    } else {
      hide MemSafe, Step, Contents;
      OtherStepsKeepHeaps(s, a, s');
    }
  }

  // ---------- When a timer fires early ----------

  /** Did the step from `s` to `s'` call `id` back before its deadline? */
  ghost predicate FiredEarly(s: State, s': State, id: nat) {
    && id in s.delegates && s.now.Nanos() < s.delegates[id].timer.time.Nanos()
    && multiset(s'.log)[CalledBack(id)] > multiset(s.log)[CalledBack(id)]
  }

  ghost predicate SomeFiredEarly(s: State, s': State) {
    exists id :: FiredEarly(s, s', id)
  }

  /** Is a running timer on top of the heap, and not due? */
  ghost predicate TopRunsButIsNotDue(s: State, k: Kind) {
    var top := Top(At(s, k).heap);
    && top.Some? && s.now.Nanos() < top.value.time.Nanos()
    && top.value.id in s.delegates && s.delegates[top.value.id].client.Some?
  }

  /** Is the step the first turn for an expire message, and finds it such a top? */
  ghost predicate ExpiresTooEarly(s: State, a: Action) {
    a == ExpiryTurn && s.handling.Some? && s.handling.value.first && TopRunsButIsNotDue(s, s.handling.value.kind)
  }

  /** A step of a run calls a timer back before its time exactly when it is the first turn for an expire message
      and finds on top of the heap a running timer that is not due. */
  lemma FiresEarlyExactlyWhenTopIsNotDue(states: seq<State>, actions: seq<Action>, i: nat)
    requires IsRun(states, actions) && i < |actions|
    ensures SomeFiredEarly(states[i], states[i + 1]) <==> ExpiresTooEarly(states[i], actions[i])
  {
    var s, s' := states[i], states[i + 1];
    hide Inv, MemSafe;
    TimeHasPassed(states, actions, i);
    StepOfRun(states, actions, i);
    hide IsRun;
    if actions[i] == ExpiryTurn {
      assert s' == Turn(s);
      hide Step, Inv, MemSafe, TopRunsButIsNotDue, FiredEarly;
      TurnFiresEarly(s);
    } else {
      hide Inv, MemSafe, Step, TopRunsButIsNotDue;
      forall id: nat ensures !FiredEarly(s, s', id) {
        OtherStepsCallNobody(s, actions[i], s', id);
      }
    }
  }

  /** The time that an expire message goes by has been read in the past. */
  lemma {:induction false} TimeHasPassed(states: seq<State>, actions: seq<Action>, i: nat)
    requires IsRun(states, actions) && i < |states|
    ensures states[i].handling.Some? ==> states[i].handling.value.now.Nanos() <= states[i].now.Nanos()
  {
    if i > 0 {
      TimeHasPassed(states, actions, i - 1);
      RunKeepsInv(states, actions, i - 1);
      assert Step(states[i - 1], actions[i - 1], states[i]);
      hide IsRun, Inv, MemSafe, Step;
      TimeOfStep(states[i - 1], actions[i - 1], states[i]);
    }
  }

  lemma TimeOfStep(s: State, a: Action, s': State)
    requires MemSafe(s) && Step(s, a, s')
    ensures s.now.Nanos() <= s'.now.Nanos()
    ensures s'.handling.Some? ==>
      (s.handling.Some? && s'.handling.value.now == s.handling.value.now) || s'.handling.value.now == s.now
  {
    match a {
      case Deliver =>
        match s.queue[0] {
          case PushMsg(_, _) => PushFields(s);
          case RemoveMsg(_, _) => RemoveFields(s);
          case ExpireMsg(_) => DeliverExpireIs(s);
        }
      case ExpiryTurn => TurnIs(s);
      case PollStep => PollFields(s);
      case _ =>
    }
    hide MemSafe, DeliverMsg, Turn, PollAdvance, FutureTime, TimeSpec.Nanos, AfterPush, AfterRemove;
  }

  lemma TurnFiresEarly(s: State)
    requires Inv(s) && MemSafe(s) && s.handling.Some? && s.handling.value.now.Nanos() <= s.now.Nanos()
    ensures SomeFiredEarly(s, Turn(s)) <==> s.handling.value.first && TopRunsButIsNotDue(s, s.handling.value.kind)
  {
    var h := s.handling.value;
    hide Inv, MemSafe, Turn, Contents, TopRunsButIsNotDue, FiredEarly;
    forall id: nat ensures FiredEarly(s, Turn(s), id) ==> h.first && TopRunsButIsNotDue(s, h.kind) {
      EarlyIffTop(s, id);
    }
    if h.first && TopRunsButIsNotDue(s, h.kind) {
      EarlyIffTop(s, At(s, h.kind).heap.data.id);
      assert FiredEarly(s, Turn(s), At(s, h.kind).heap.data.id);
    }
  }

  lemma EarlyIffTop(s: State, id: nat)
    requires Inv(s) && MemSafe(s) && s.handling.Some? && s.handling.value.now.Nanos() <= s.now.Nanos()
    ensures var h := s.handling.value;
      FiredEarly(s, Turn(s), id) <==>
        h.first && TopRunsButIsNotDue(s, h.kind) && At(s, h.kind).heap.Node? && At(s, h.kind).heap.data.id == id
    ensures TopRunsButIsNotDue(s, s.handling.value.kind) ==> At(s, s.handling.value.kind).heap.Node?
  {
    var h := s.handling.value;
    hide Inv, MemSafe, Turn, NextPop, Contents, TimeSpec.Nanos;
    NextPopAsks(s, h);
    if At(s, h.kind).heap.Node? {
      TopIsItsDelegates(s, h.kind);
    }
    TurnCalls(s, id);
  }

  lemma TopIsItsDelegates(s: State, k: Kind)
    requires Inv(s) && At(s, k).heap.Node?
    ensures var t := At(s, k).heap.data; t.id in s.delegates && s.delegates[t.id].timer == t
  {
    assert At(s, k).heap.data in Contents(At(s, k).heap);
    hide Served, LocksCount, HeapsKept, Life, Contents;
  }

  // ---------- Deadlines ----------

  /** No step changes the deadline of a timer, or brings back one that is gone. */
  lemma StepKeepsTimers(s: State, a: Action, s': State)
    requires MemSafe(s) && Step(s, a, s')
    ensures s.nextId <= s'.nextId
    ensures forall id :: id < s.nextId && id in s'.delegates ==>
      id in s.delegates && s'.delegates[id].timer == s.delegates[id].timer
  {
    match a {
      case Deliver =>
        match s.queue[0] {
          case PushMsg(_, _) => PushFields(s);
          case RemoveMsg(_, _) => RemoveFields(s);
          case ExpireMsg(_) => DeliverExpireIs(s);
        }
      case ExpiryTurn => TurnIs(s);
      case PollStep => PollFields(s);
      case _ => ClientKeepsTimers(s, a);
    }
    hide MemSafe, DeliverMsg, Turn, PollAdvance, StartTimer, StopTimer, DestroyTimer, AfterPush, AfterRemove;
  }

  lemma ClientKeepsTimers(s: State, a: Action)
    requires MemSafe(s) && Enabled(s, a) && a != Deliver && a != ExpiryTurn && a != PollStep
    ensures s.nextId <= Next(s, a).nextId
    ensures forall id :: id < s.nextId && id in Next(s, a).delegates ==>
      id in s.delegates && Next(s, a).delegates[id].timer == s.delegates[id].timer
  {
    match a {
      case Stop(c) => StopKeepsTimers(s, c);
      case Destroy(c) => StopKeepsTimers(s, c);
      case _ =>
    }
    hide MemSafe, DeliverMsg, Turn, FutureTime, StopTimer;
  }

  lemma StopKeepsTimers(s: State, c: nat)
    requires c in s.clients && (s.clients[c].Some? ==> s.clients[c].value in s.delegates)
    ensures StopTimer(s, c, false).nextId == s.nextId
    ensures forall id :: id in StopTimer(s, c, false).delegates ==>
      id in s.delegates && StopTimer(s, c, false).delegates[id].timer == s.delegates[id].timer
  {
  }

  /** As long as a timer lives, its deadline is the one it was started with. */
  lemma {:induction false} TimerStays(states: seq<State>, actions: seq<Action>, i: nat, j: nat, id: nat)
    requires IsRun(states, actions) && i <= j < |states| && id < states[i].nextId
    ensures id < states[j].nextId
    ensures id in states[j].delegates ==>
      id in states[i].delegates && states[j].delegates[id].timer == states[i].delegates[id].timer
  {
    hide Inv, MemSafe, Step;
    assert |states| == |actions| + 1;
    hide IsRun;
    if i < j {
      TimerStays(states, actions, i, j - 1, id);
      StepOfRun(states, actions, j - 1);
      StepKeepsTimers(states[j - 1], actions[j - 1], states[j]);
    }
  }

  /** A timer is called back no earlier than its timeout after its start, unless by the first pop of an expire
      message. */
  lemma CalledBackInTime(states: seq<State>, actions: seq<Action>, i: nat, j: nat, c: nat, ms: nat, k: Kind)
    requires IsRun(states, actions) && i < j < |actions|
    requires actions[i] == Start(c, ms, k, true) && c in states[i].clients && states[i].clients[c].None?
    requires var id := states[i].nextId;
      multiset(states[j + 1].log)[CalledBack(id)] > multiset(states[j].log)[CalledBack(id)]
    ensures states[j].handling.Some?
    ensures states[j].handling.value.first || states[j].now.Nanos() >= states[i].now.Nanos() + ms * 1_000_000
  {
    hide *;
    RunLength(states, actions);
    var id := states[i].nextId;
    StartOfRun(states, actions, i, c, ms, k);
    StepOfRun(states, actions, j);
    TimerStays(states, actions, i + 1, j, id);
    TimeHasPassed(states, actions, j);
    CallIsDue(states[j], actions[j], states[j + 1], id);
  }

  lemma StartOfRun(states: seq<State>, actions: seq<Action>, i: nat, c: nat, ms: nat, k: Kind)
    requires IsRun(states, actions) && i < |actions|
    requires actions[i] == Start(c, ms, k, true) && c in states[i].clients && states[i].clients[c].None?
    ensures var id, s' := states[i].nextId, states[i + 1];
      && id in s'.delegates && id < s'.nextId
      && s'.delegates[id].timer.time.Nanos() == states[i].now.Nanos() + ms * 1_000_000
  {
    hide Inv, MemSafe, Step;
    StepOfRun(states, actions, i);
    hide IsRun;
    StartStep(states[i], states[i + 1], c, ms, k);
  }

  lemma StartStep(s: State, s': State, c: nat, ms: nat, k: Kind)
    requires MemSafe(s) && Step(s, Start(c, ms, k, true), s') && s.clients[c].None?
    ensures c in s.locks && s' == StartTimer(s, c, ms, k)
    ensures s.nextId in s'.delegates && s.nextId < s'.nextId
    ensures s'.delegates[s.nextId].timer.time.Nanos() == s.now.Nanos() + ms * 1_000_000
  {
    assert c in s.locks;
    hide MemSafe;
    StartSetsDeadline(s, c, ms, k);
    hide StartTimer, TimeSpec.Nanos, DeliverMsg, Turn;
  }

  /** A call-back that is not the first pop's is due. */
  lemma CallIsDue(s: State, a: Action, s': State, id: nat)
    requires Inv(s) && MemSafe(s) && Step(s, a, s')
    requires s.handling.Some? ==> s.handling.value.now.Nanos() <= s.now.Nanos()
    requires multiset(s'.log)[CalledBack(id)] > multiset(s.log)[CalledBack(id)]
    ensures s.handling.Some? && id in s.delegates
    ensures s.handling.value.first || s.delegates[id].timer.time.Nanos() <= s.now.Nanos()
  {
    if a != ExpiryTurn {
      hide Inv, MemSafe, Step;
      OtherStepsCallNobody(s, a, s', id);
    } else {
      assert s' == Turn(s);
      hide Inv, MemSafe, Step, Turn, NextPop, Contents, TimeSpec.Nanos;
      TurnCalls(s, id);
      NextPopAsks(s, s.handling.value);
      TopIsItsDelegates(s, s.handling.value.kind);
    }
  }

  // ---------- What ends a timer ----------

  /** Does the step end the timer `id` of client `c`: its client stops or goes, or the timer is popped? */
  predicate EndsTimer(s: State, a: Action, c: nat, id: nat) {
    || a == Stop(c) || a == Destroy(c)
    || (a == ExpiryTurn && s.handling.Some? && NextPop(s, s.handling.value).Some?
        && NextPop(s, s.handling.value).value.id == id)
  }

  /** A running timer goes on running in exactly the steps that do not end it. */
  lemma RunsOnExactly(states: seq<State>, actions: seq<Action>, i: nat, c: nat)
    requires IsRun(states, actions) && i < |actions|
    requires c in states[i].clients && states[i].clients[c].Some?
    ensures var s, s', id := states[i], states[i + 1], states[i].clients[c].value;
      c in s'.clients && s'.clients[c] == Some(id) <==> !EndsTimer(s, actions[i], c, id)
  {
    hide Inv, MemSafe;
    StepOfRun(states, actions, i);
    hide IsRun;
    if actions[i] == ExpiryTurn {
      assert states[i + 1] == Turn(states[i]);
      hide Step;
      TurnEnds(states[i], c);
    } else {
      StepEnds(states[i], actions[i], states[i + 1], c);
    }
  }

  lemma TurnEnds(s: State, c: nat)
    requires Inv(s) && MemSafe(s) && s.handling.Some? && c in s.clients && s.clients[c].Some?
    ensures c in Turn(s).clients
    ensures Turn(s).clients[c] == s.clients[c] <==> !EndsTimer(s, ExpiryTurn, c, s.clients[c].value)
  {
    hide *;
    var k := s.handling.value.kind;
    if NextPop(s, s.handling.value).Some? {
      var t := NextPop(s, s.handling.value).value;
      TurnWith(s, k, t);
      TopHanded(s, k);
      LivesOf(s);
      IntoLimbo(s, WithoutTop(s, k), k, t);
      SameClients(s, k);
      ExpireOneEnds(WithoutTop(s, k), multiset{t}, t, c);
    } else {
      TurnWithout(s, k);
    }
    EndsInTurn(s, c, s.clients[c].value);
  }

  lemma LivesOf(s: State)
    requires Inv(s)
    ensures Lives(s, multiset{})
  {
  }

  lemma SameClients(s: State, k: Kind)
    ensures WithoutTop(s, k).clients == s.clients
  {
    hide Popped;
  }

  lemma EndsInTurn(s: State, c: nat, id: nat)
    requires s.handling.Some?
    ensures EndsTimer(s, ExpiryTurn, c, id) <==>
      NextPop(s, s.handling.value).Some? && NextPop(s, s.handling.value).value.id == id
  {
    hide NextPop;
  }

  lemma ExpireOneEnds(s: State, limbo: multiset<Timer>, t: Timer, c: nat)
    requires Lives(s, limbo) && t in limbo && ClientsSafe(s) && t.id in s.delegates
    requires c in s.clients && s.clients[c].Some?
    ensures c in ExpireOne(s, t).clients
    ensures ExpireOne(s, t).clients[c] == s.clients[c] <==> s.clients[c].value != t.id
  {
    ExpireOneIsItsStop(s, limbo, t);
    assert ClientsRun(s);
    if s.delegates[t.id].client.Some? {
      StopFields(s, s.delegates[t.id].client.value, true);
    }
    hide Lives, ExpireOne, StopAndCall;
  }

  lemma StepEnds(s: State, a: Action, s': State, c: nat)
    requires MemSafe(s) && Step(s, a, s') && a != ExpiryTurn && c in s.clients && s.clients[c].Some?
    ensures c in s'.clients && s'.clients[c] == s.clients[c] <==> a != Stop(c) && a != Destroy(c)
  {
    match a {
      case Deliver =>
        match s.queue[0] {
          case PushMsg(_, _) => PushFields(s);
          case RemoveMsg(_, _) => RemoveFields(s);
          case ExpireMsg(_) => DeliverExpireIs(s);
        }
        hide DeliverMsg, AfterPush, AfterRemove;
      case PollStep =>
        PollFields(s);
        hide PollAdvance;
      case _ =>
    }
    hide MemSafe, DeliverMsg, Turn, FutureTime;
  }

  /** A timer whose client has stopped it, or gone, is never called back. */
  lemma StoppedNeverFires(states: seq<State>, actions: seq<Action>, i: nat, j: nat, c: nat)
    requires IsRun(states, actions) && i < j < |states| && (actions[i] == Stop(c) || actions[i] == Destroy(c))
    requires c in states[i].clients && states[i].clients[c].Some?
    ensures CalledBack(states[i].clients[c].value) !in states[j].log
  {
    var id := states[i].clients[c].value;
    hide Inv, MemSafe, Step;
    assert |states| == |actions| + 1;
    hide IsRun;
    StepOfRun(states, actions, i);
    RunKeepsInv(states, actions, j);
    LogOfRunGrows(states, actions, i + 1, j);
    LogOfStop(states[i], actions[i], states[i + 1], c);
    LifeOf(states[j], id);
    StoppedIsNotCalled(states[j], id);
  }

  lemma StoppedIsNotCalled(s: State, id: nat)
    requires Life(s, multiset{}, id) && Stopped(id, false) in s.log
    ensures CalledBack(id) !in s.log
  {
    assert Stopped(id, false) in multiset(s.log);
    hide Running, Stopping, About;
  }

  lemma LogOfStop(s: State, a: Action, s': State, c: nat)
    requires MemSafe(s) && Step(s, a, s') && (a == Stop(c) || a == Destroy(c)) && s.clients[c].Some?
    ensures Stopped(s.clients[c].value, false) in s'.log
  {
    hide MemSafe, DeliverMsg, Turn;
  }

  lemma {:induction false} LogOfRunGrows(states: seq<State>, actions: seq<Action>, i: nat, j: nat)
    requires IsRun(states, actions) && i <= j < |states|
    ensures states[i].log <= states[j].log
  {
    hide Inv, MemSafe, Step;
    assert |states| == |actions| + 1;
    hide IsRun;
    if i < j {
      LogOfRunGrows(states, actions, i, j - 1);
      StepOfRun(states, actions, j - 1);
      LogOfStepGrows(states[j - 1], actions[j - 1], states[j]);
    }
  }

  lemma LogOfStepGrows(s: State, a: Action, s': State)
    requires Inv(s) && MemSafe(s) && Step(s, a, s')
    ensures s.log <= s'.log
  {
    if a == ExpiryTurn {
      assert s' == Turn(s);
      hide Inv, MemSafe, Step, Turn;
      TurnCalls(s, 0);
    } else {
      hide Inv, MemSafe, Step;
      OtherStepsCallNobody(s, a, s', 0);
    }
  }

  // ---------- A timer can fire early ----------

  // A client stops its timer A just as A comes due, and starts timer B for a second later. The kernel has
  // already woken the poll thread for A; its expire message is handled when B is the top of the heap.

  const SECOND := TimeSpec(1, 0)
  const A := Timer(0, SECOND)
  const B := Timer(1, TimeSpec(2, 0))
  const OLD_A := Delegate(None, 0, Sw, false, A)
  const NEW_B := Delegate(Some(0), 0, Sw, true, B)

  const EARLY_ACTIONS: seq<Action> := [
    Create(0), Start(0, 0, Sw, true), Deliver, Stop(0), Start(0, 1000, Sw, true),
    Wake([Sw]), PollStep, PollStep, PollStep, Deliver, Deliver, Deliver, ExpiryTurn]

  function Begin(): State {
    Init(SECOND).(clients := map[0 := None], locks := map[0 := 1])
  }

  function AStarted(): State {
    State(SECOND, IDLE, IDLE, [PushMsg(Sw, A)], Waiting, None, map[0 := Some(0)],
          map[0 := Delegate(Some(0), 0, Sw, true, A)], map[0 := 2], 1, [Started(0)])
  }

  function ATicking(): State {
    AStarted().(queue := [], sw := Container(Node(1, Empty, Empty, A), true, Some(SECOND)))
  }

  function AStopped(): State {
    State(SECOND, ATicking().sw, IDLE, [RemoveMsg(Sw, A)], Waiting, None, map[0 := None],
          map[0 := OLD_A], map[0 := 2], 1, [Started(0), Stopped(0, false)])
  }

  function BStarted(poll: Poll, polled: bool, armed: Option<TimeSpec>, queue: seq<Msg>): State {
    State(SECOND, Container(Node(1, Empty, Empty, A), polled, armed), IDLE,
          [RemoveMsg(Sw, A), PushMsg(Sw, B)] + queue, poll, None, map[0 := Some(1)],
          map[0 := OLD_A, 1 := NEW_B], map[0 := 3], 2, [Started(0), Stopped(0, false), Started(1)])
  }

  function AGone(sw: Container, queue: seq<Msg>): State {
    State(SECOND, sw, IDLE, queue, Waiting, None, map[0 := Some(1)], map[1 := NEW_B], map[0 := 2], 2,
          [Started(0), Stopped(0, false), Started(1), Freed(0)])
  }

  function BTicking(): State {
    AGone(Container(Node(1, Empty, Empty, B), true, Some(B.time)), [ExpireMsg(Sw)])
  }

  function BExpiring(): State {
    BTicking().(queue := [], handling := Some(Handling(Sw, SECOND, true)))
  }

  ghost function EarlyStates(): seq<State> {
    [ Init(SECOND), Begin(), AStarted(), ATicking(), AStopped(),
      BStarted(Waiting, true, Some(SECOND), []),
      BStarted(Expiring([Sw], Disarm), true, Some(SECOND), []),
      BStarted(Expiring([Sw], RemovePoll), true, None, []),
      BStarted(Expiring([Sw], SendMsg), false, None, []),
      BStarted(Waiting, false, None, [ExpireMsg(Sw)]),
      AGone(IDLE, [PushMsg(Sw, B), ExpireMsg(Sw)]),
      BTicking(),
      BExpiring(),
      if MemSafe(BExpiring()) then Turn(BExpiring()) else BExpiring() ]
  }

  lemma ClientSteps()
    ensures Step(Init(SECOND), Create(0), Begin())
    ensures Step(Begin(), Start(0, 0, Sw, true), AStarted())
    ensures Step(ATicking(), Stop(0), AStopped())
  {
    hide MemSafe;
    assert FutureTime(SECOND, 0) == SECOND;
  }

  lemma RestartStep()
    ensures Step(AStopped(), Start(0, 1000, Sw, true), BStarted(Waiting, true, Some(SECOND), []))
  {
    hide MemSafe;
    assert FutureTime(SECOND, 1000) == B.time;
  }

  lemma PollSteps()
    ensures Step(BStarted(Waiting, true, Some(SECOND), []), Wake([Sw]),
                 BStarted(Expiring([Sw], Disarm), true, Some(SECOND), []))
    ensures Step(BStarted(Expiring([Sw], Disarm), true, Some(SECOND), []), PollStep,
                 BStarted(Expiring([Sw], RemovePoll), true, None, []))
    ensures Step(BStarted(Expiring([Sw], RemovePoll), true, None, []), PollStep,
                 BStarted(Expiring([Sw], SendMsg), false, None, []))
    ensures Step(BStarted(Expiring([Sw], SendMsg), false, None, []), PollStep,
                 BStarted(Waiting, false, None, [ExpireMsg(Sw)]))
  {
    hide MemSafe;
  }

  lemma PushASteps()
    ensures Step(AStarted(), Deliver, ATicking())
  {
    hide MemSafe;
  }

  lemma RemoveASteps()
    ensures Step(BStarted(Waiting, false, None, [ExpireMsg(Sw)]), Deliver, AGone(IDLE, [PushMsg(Sw, B), ExpireMsg(Sw)]))
  {
    hide MemSafe;
  }

  lemma PushBSteps()
    ensures Step(AGone(IDLE, [PushMsg(Sw, B), ExpireMsg(Sw)]), Deliver, BTicking())
  {
    hide MemSafe;
  }

  lemma ExpireBSteps()
    ensures Step(BTicking(), Deliver, BExpiring()) && Step(BExpiring(), ExpiryTurn, EarlyStates()[13])
  {
    hide MemSafe, Turn;
  }

  lemma EarlyRun()
    ensures IsRun(EarlyStates(), EARLY_ACTIONS)
  {
    ClientSteps();
    RestartStep();
    PollSteps();
    PushASteps();
    RemoveASteps();
    PushBSteps();
    ExpireBSteps();
    hide Step, Begin, AStarted, ATicking, AStopped, BStarted, AGone, BTicking, BExpiring;
  }

  /** In this run B, whose deadline is a second away, is called back. */
  lemma TimerCanFireEarly()
    ensures IsRun(EarlyStates(), EARLY_ACTIONS)
    ensures BExpiring().now.Nanos() < B.time.Nanos()
    ensures CalledBack(1) !in BExpiring().log && CalledBack(1) in EarlyStates()[13].log
  {
    EarlyRun();
    BIsOnTop();
    hide IsRun, Step, Inv, MemSafe, Turn, BExpiring, NextPop;
    RunKeepsInv(EarlyStates(), EARLY_ACTIONS, 12);
    TurnCalls(BExpiring(), 1);
    assert CalledBack(1) in multiset(EarlyStates()[13].log);
  }

  lemma BIsOnTop()
    ensures BExpiring().handling.Some? && NextPop(BExpiring(), BExpiring().handling.value) == Some(B)
    ensures 1 in BExpiring().delegates && BExpiring().delegates[1].client.Some?
    ensures CalledBack(1) !in BExpiring().log && BExpiring().now.Nanos() < B.time.Nanos()
  {
  }
}
