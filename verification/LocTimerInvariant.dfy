/** What every run of the timer service keeps: no timer is lost, every started timer is stopped at most
    once and called back exactly when it stopped itself, nothing is used after it is freed, and the
    reference count of every shared lock is exact. */
module LocTimerInvariant {
  import opened Wrappers
  import opened LocHeap
  import opened Deadlines
  import opened LocTimerService

  // ---------- No timer is lost ----------

  /** The kernel will report the top's deadline, or an expire message is being handled or on its way. */
  ghost predicate Served(s: State, k: Kind) {
    || Armed(At(s, k))
    || (s.handling.Some? && s.handling.value.kind == k)
    || ExpireMsg(k) in s.queue
    || (s.poll.Expiring? && k in s.poll.todo)
  }

  // ---------- The life of one timer ----------

  /** The messages in `queue` about timer `id`, in order. */
  function About(queue: seq<Msg>, id: nat): seq<Msg> {
    if queue == [] then []
    else (if !queue[0].ExpireMsg? && queue[0].timer.id == id then [queue[0]] else []) + About(queue[1..], id)
  }

  /** How often a delegate's timer is in its heap or, just popped, in the hands of the expiry loop. */
  ghost function Held(s: State, limbo: multiset<Timer>, d: Delegate): nat {
    Contents(At(s, d.kind).heap)[d.timer] + limbo[d.timer]
  }

  ghost function Stops(log: seq<Event>, id: nat): nat {
    multiset(log)[Stopped(id, true)] + multiset(log)[Stopped(id, false)]
  }

  /** Started and attached to its client: waiting to be pushed, or in the heap. */
  ghost predicate Running(s: State, limbo: multiset<Timer>, id: nat, d: Delegate) {
    && d.contained && d.client == Some(d.lock)
    && d.lock in s.clients && s.clients[d.lock] == Some(id)
    && Stops(s.log, id) == 0
    && if About(s.queue, id) == [] then Held(s, limbo, d) == 1
       else About(s.queue, id) == [PushMsg(d.kind, d.timer)] && Held(s, limbo, d) == 0
  }

  /** Stopped, and alive only until the message that will free it is handled. */
  ghost predicate Stopping(s: State, limbo: multiset<Timer>, id: nat, d: Delegate) {
    && !d.contained && d.client == None
    && Stops(s.log, id) == 1
    && if About(s.queue, id) == [RemoveMsg(d.kind, d.timer)] then Held(s, limbo, d) <= 1
       else About(s.queue, id) == [PushMsg(d.kind, d.timer), RemoveMsg(d.kind, d.timer)] && Held(s, limbo, d) == 0
  }

  ghost predicate Life(s: State, limbo: multiset<Timer>, id: nat) {
    && multiset(s.log)[CalledBack(id)] == multiset(s.log)[Stopped(id, true)]
    && multiset(s.log)[Started(id)] == (if id < s.nextId then 1 else 0)
    && if id in s.delegates then
         var d := s.delegates[id];
         && id < s.nextId && d.timer.id == id && multiset(s.log)[Freed(id)] == 0
         && (Running(s, limbo, id, d) || Stopping(s, limbo, id, d))
       else
         && About(s.queue, id) == []
         && Stops(s.log, id) == multiset(s.log)[Freed(id)] == multiset(s.log)[Started(id)]
  }

  /** What the heaps and the expiry loop hold belongs to live delegates. */
  ghost predicate Owned(s: State, limbo: multiset<Timer>) {
    && (forall k, t :: t in Contents(At(s, k).heap) ==>
          t.id in s.delegates && s.delegates[t.id].timer == t && s.delegates[t.id].kind == k)
    && (forall t :: t in limbo ==> t.id in s.delegates && s.delegates[t.id].timer == t)
  }

  ghost predicate ClientsRun(s: State) {
    forall c :: c in s.clients && s.clients[c].Some? ==>
      s.clients[c].value in s.delegates && s.delegates[s.clients[c].value].client == Some(c)
  }

  // ---------- The shared locks ----------

  function Sharers(delegates: map<nat, Delegate>, l: nat): set<nat> {
    set id | id in delegates && delegates[id].lock == l
  }

  /** The number of objects that hold the lock: its client while it lives, and each live delegate. */
  function Holders(s: State, l: nat): nat {
    |Sharers(s.delegates, l)| + if l in s.clients then 1 else 0
  }

  /** A lock exists exactly while something holds it, and counts its holders. */
  ghost predicate LocksCount(s: State) {
    forall l: nat :: (l in s.locks <==> Holders(s, l) > 0) && (l in s.locks ==> s.locks[l] == Holders(s, l))
  }

  ghost predicate HeapsKept(s: State) {
    forall k :: Ordered(RANKED, At(s, k).heap) && SizesExact(At(s, k).heap)
  }

  ghost predicate Lives(s: State, limbo: multiset<Timer>) {
    && (forall id :: Life(s, limbo, id))
    && Owned(s, limbo) && ClientsRun(s)
  }

  ghost predicate Inv(s: State) {
    && HeapsKept(s)
    && Served(s, Sw) && Served(s, Hw)
    && Lives(s, multiset{})
    && LocksCount(s)
  }

  // ---------- Messages about one timer ----------

  predicate IsAbout(m: Msg, id: nat) {
    !m.ExpireMsg? && m.timer.id == id
  }

  lemma {:induction false} AboutAppend(queue: seq<Msg>, m: Msg, id: nat)
    ensures About(queue + [m], id) == About(queue, id) + if IsAbout(m, id) then [m] else []
  {
    if queue == [] {
      assert queue + [m] == [m];
    } else {
      AboutAppend(queue[1..], m, id);
      assert (queue + [m])[1..] == queue[1..] + [m];
    }
  }

  lemma {:induction false} AboutHolds(queue: seq<Msg>, m: Msg, id: nat)
    ensures m in About(queue, id) <==> m in queue && IsAbout(m, id)
  {
    if queue != [] {
      AboutHolds(queue[1..], m, id);
    }
  }

  // ---------- The invariant makes every step safe ----------

  lemma InvIsMemSafe(s: State)
    requires Inv(s)
    ensures MemSafe(s)
  {
    assert At(s, Sw) == s.sw && At(s, Hw) == s.hw;
    forall c | c in s.clients ensures c in s.locks {
      assert Holders(s, c) > 0;
    }
    hide LocksCount, Served, Life;
    forall id | id in s.delegates
      ensures s.delegates[id].lock in s.locks
      ensures s.delegates[id].client.Some? ==> s.delegates[id].client.value in s.clients
    {
      assert Life(s, multiset{}, id);
      LiveDelegate(s, id);
    }
    forall i | 0 <= i < |s.queue| && s.queue[i].RemoveMsg? ensures s.queue[i].timer.id in s.delegates {
      assert Life(s, multiset{}, s.queue[i].timer.id);
      MentionedIsLive(s, multiset{}, s.queue[i]);
    }
  }

  lemma LiveDelegate(s: State, id: nat)
    requires LocksCount(s) && Life(s, multiset{}, id) && id in s.delegates
    ensures s.delegates[id].lock in s.locks
    ensures s.delegates[id].client.Some? ==> s.delegates[id].client.value in s.clients
  {
    assert id in Sharers(s.delegates, s.delegates[id].lock);
    assert Holders(s, s.delegates[id].lock) > 0;
  }

  lemma MentionedIsLive(s: State, limbo: multiset<Timer>, m: Msg)
    requires m in s.queue && !m.ExpireMsg? && Life(s, limbo, m.timer.id)
    ensures m.timer.id in s.delegates
  {
    AboutHolds(s.queue, m, m.timer.id);
  }

  // ---------- What leaves a life as it was ----------

  predicate SameLog(a: seq<Event>, b: seq<Event>, id: nat) {
    && multiset(a)[Started(id)] == multiset(b)[Started(id)] && multiset(a)[Freed(id)] == multiset(b)[Freed(id)]
    && multiset(a)[Stopped(id, true)] == multiset(b)[Stopped(id, true)]
    && multiset(a)[Stopped(id, false)] == multiset(b)[Stopped(id, false)]
    && multiset(a)[CalledBack(id)] == multiset(b)[CalledBack(id)]
  }

  lemma LogAppend(log: seq<Event>, e: Event, id: nat)
    requires e.id != id
    ensures SameLog(log, log + [e], id)
  {
    assert multiset(log + [e]) == multiset(log) + multiset{e};
  }

  ghost predicate SameClient(s: State, s': State, d: Delegate, id: nat) {
    d.lock in s.clients && s.clients[d.lock] == Some(id) ==> d.lock in s'.clients && s'.clients[d.lock] == Some(id)
  }

  lemma LifeFrame(s: State, limbo: multiset<Timer>, s': State, limbo': multiset<Timer>, id: nat)
    requires Life(s, limbo, id)
    requires SameLog(s.log, s'.log, id) && About(s.queue, id) == About(s'.queue, id)
    requires id < s.nextId <==> id < s'.nextId
    requires id in s.delegates <==> id in s'.delegates
    requires id in s.delegates ==>
      && s.delegates[id] == s'.delegates[id] && SameClient(s, s', s.delegates[id], id)
      && Held(s, limbo, s.delegates[id]) == Held(s', limbo', s.delegates[id])
    ensures Life(s', limbo', id)
  {
  }

  /** Steps that leave clients, delegates, heaps and log alone, and queue nothing about a timer. */
  lemma LivesFrame(s: State, s': State)
    requires Lives(s, multiset{})
    requires s'.clients == s.clients && s'.delegates == s.delegates && s'.nextId == s.nextId && s'.log == s.log
    requires forall k :: At(s', k).heap == At(s, k).heap
    requires s'.queue == s.queue || exists k :: s'.queue == s.queue + [ExpireMsg(k)]
    ensures Lives(s', multiset{})
  {
    forall id ensures Life(s', multiset{}, id) {
      if s'.queue != s.queue {
        var k :| s'.queue == s.queue + [ExpireMsg(k)];
        AboutAppend(s.queue, ExpireMsg(k), id);
      }
      assert Life(s, multiset{}, id);
      LifeFrame(s, multiset{}, s', multiset{}, id);
    }
  }

  // ---------- Lives: client steps ----------

  lemma CreateKeepsLives(s: State, c: nat)
    requires Lives(s, multiset{}) && c !in s.clients
    ensures Lives(s.(clients := s.clients[c := None], locks := s.locks[c := 1]), multiset{})
  {
    var s' := s.(clients := s.clients[c := None], locks := s.locks[c := 1]);
    OwnedFrame(s, s', multiset{});
    hide Life, Owned;
    forall id ensures Life(s', multiset{}, id) {
      assert Life(s, multiset{}, id);
      if id in s.delegates {
        SameHeld(s, s', multiset{}, s.delegates[id]);
      }
      LifeFrame(s, multiset{}, s', multiset{}, id);
    }
  }

  lemma StartKeepsLives(s: State, c: nat, ms: nat, k: Kind)
    requires Lives(s, multiset{}) && c in s.clients && c in s.locks && ms <= UINT32_MAX
    ensures Lives(StartTimer(s, c, ms, k), multiset{})
  {
    var s' := StartTimer(s, c, ms, k);
    if s.clients[c].None? {
      assert Life(s, multiset{}, s.nextId);
      NotYetStarted(s, s.nextId);
      StartKeepsOwners(s, c, ms, k);
      hide Life, Owned, ClientsRun, StartTimer;
      forall id ensures Life(s', multiset{}, id) {
        assert Life(s, multiset{}, id);
        StartLife(s, c, ms, k, id);
      }
    }
  }

  lemma NotYetStarted(s: State, id: nat)
    requires Life(s, multiset{}, id) && id >= s.nextId
    ensures id !in s.delegates && About(s.queue, id) == []
    ensures Stops(s.log, id) == multiset(s.log)[Freed(id)] == multiset(s.log)[CalledBack(id)] == 0
    ensures multiset(s.log)[Started(id)] == 0
  {
  }

  lemma StartKeepsOwners(s: State, c: nat, ms: nat, k: Kind)
    requires Owned(s, multiset{}) && ClientsRun(s)
    requires c in s.clients && c in s.locks && ms <= UINT32_MAX && s.clients[c].None? && s.nextId !in s.delegates
    ensures Owned(StartTimer(s, c, ms, k), multiset{}) && ClientsRun(StartTimer(s, c, ms, k))
  {
    hide Owned;
    OwnedFrame(s, StartTimer(s, c, ms, k), multiset{});
  }

  /** Every field of the state after a start. */
  lemma StartFields(s: State, c: nat, ms: nat, k: Kind)
    requires c in s.clients && c in s.locks && ms <= UINT32_MAX && s.clients[c].None?
    ensures var n, s' := s.nextId, StartTimer(s, c, ms, k);
      && n in s'.delegates && s'.delegates == s.delegates[n := s'.delegates[n]]
      && var t := s'.delegates[n].timer;
      && t.id == n && s'.delegates[n] == Delegate(Some(c), c, k, true, t)
      && s'.sw == s.sw && s'.hw == s.hw && s'.nextId == n + 1 && s'.clients == s.clients[c := Some(n)]
      && s'.queue == s.queue + [PushMsg(k, t)] && s'.log == s.log + [Started(n)]
  {
    FutureTimeIsExact(s.now, ms);
    hide FutureTime, TimeSpec.Nanos;
  }

  /** A timer that is started is due its timeout after the start, to the nanosecond. */
  lemma StartSetsDeadline(s: State, c: nat, ms: nat, k: Kind)
    requires c in s.clients && c in s.locks && ms <= UINT32_MAX && s.clients[c].None?
    ensures var s' := StartTimer(s, c, ms, k);
      && s'.clients[c] == Some(s.nextId) && s.nextId in s'.delegates && s'.nextId == s.nextId + 1
      && var time := s'.delegates[s.nextId].timer.time;
      && time.Normal() && time.Nanos() == s.now.Nanos() + ms * 1_000_000
  {
    FutureTimeIsExact(s.now, ms);
    hide FutureTime, TimeSpec.Nanos;
  }

  lemma StartLife(s: State, c: nat, ms: nat, k: Kind, id: nat)
    requires Life(s, multiset{}, id) && Life(s, multiset{}, s.nextId) && Owned(s, multiset{})
    requires c in s.clients && c in s.locks && ms <= UINT32_MAX && s.clients[c].None?
    ensures Life(StartTimer(s, c, ms, k), multiset{}, id)
  {
    NotYetStarted(s, s.nextId);
    StartFields(s, c, ms, k);
    hide StartTimer, Life, Owned, About, Held, SameLog;
    var s', n := StartTimer(s, c, ms, k), s.nextId;
    AboutAppend(s.queue, PushMsg(k, s'.delegates[n].timer), id);
    if id == n {
      StartedLife(s, s', c, k);
    } else {
      LogAppend(s.log, Started(n), id);
      if id in s.delegates {
        SameHeld(s, s', multiset{}, s.delegates[id]);
        OtherStart(s, s', c, s.delegates[id], id);
      }
      LifeFrame(s, multiset{}, s', multiset{}, id);
    }
  }

  /** A new timer runs: it is about to be pushed, and nothing holds it yet. */
  lemma StartedLife(s: State, s': State, c: nat, k: Kind)
    requires Life(s, multiset{}, s.nextId) && Owned(s, multiset{}) && c in s.clients && s.nextId in s'.delegates
    requires s'.sw == s.sw && s'.hw == s.hw && s'.nextId == s.nextId + 1
    requires s'.clients == s.clients[c := Some(s.nextId)] && s'.log == s.log + [Started(s.nextId)]
    requires var d := s'.delegates[s.nextId];
      && d == Delegate(Some(c), c, k, true, d.timer) && d.timer.id == s.nextId
      && About(s'.queue, s.nextId) == [PushMsg(k, d.timer)]
    ensures Life(s', multiset{}, s.nextId)
  {
    var n, d := s.nextId, s'.delegates[s.nextId];
    NotYetStarted(s, n);
    assert multiset(s.log + [Started(n)]) == multiset(s.log) + multiset{Started(n)};
    assert d.timer !in Contents(At(s, k).heap);
    assert At(s', k) == At(s, k);
    hide About, Owned, Contents;
    assert Running(s', multiset{}, n, d);
  }

  lemma OtherStart(s: State, s': State, c: nat, d: Delegate, id: nat)
    requires c in s.clients && s.clients[c].None? && s'.clients == s.clients[c := Some(s.nextId)]
    ensures SameClient(s, s', d, id)
  {
  }

  /** A stop, together with the call-back that follows it when the expiry made it. */
  function StopAndCall(s: State, c: nat, byExpiry: bool): State
    requires CanStop(s, c)
  {
    var s' := StopTimer(s, c, byExpiry);
    if byExpiry then s'.(log := s'.log + [CalledBack(s.clients[c].value)]) else s'
  }

  predicate CanStop(s: State, c: nat) {
    && c in s.clients && s.clients[c].Some? && s.clients[c].value in s.delegates
    && s.delegates[s.clients[c].value].client == Some(c)
  }

  lemma StopKeepsLives(s: State, limbo: multiset<Timer>, c: nat, byExpiry: bool)
    requires Lives(s, limbo) && CanStop(s, c)
    ensures Lives(StopAndCall(s, c, byExpiry), limbo)
  {
    StopKeepsOwners(s, limbo, c, byExpiry);
    var n := s.clients[c].value;
    hide Owned, ClientsRun, StopAndCall, CanStop, Life;
    assert Life(s, limbo, n);
    forall id ensures Life(StopAndCall(s, c, byExpiry), limbo, id) {
      assert Life(s, limbo, id);
      LiveTimerId(s, limbo, n);
      if id == n {
        StoppedLife(s, limbo, c, byExpiry);
      } else {
        OtherLife(s, limbo, c, byExpiry, id);
      }
    }
  }

  /** Every field of the state after a stop. */
  lemma StopFields(s: State, c: nat, byExpiry: bool)
    requires CanStop(s, c)
    ensures var n, s' := s.clients[c].value, StopAndCall(s, c, byExpiry);
      var d := s.delegates[n];
      && s'.sw == s.sw && s'.hw == s.hw && s'.nextId == s.nextId && s'.locks == s.locks && s'.poll == s.poll
      && s'.clients == s.clients[c := None] && s'.now == s.now && s'.handling == s.handling
      && s'.delegates == s.delegates[n := d.(client := None, contained := false)]
      && s'.queue == (if d.contained then s.queue + [RemoveMsg(d.kind, d.timer)] else s.queue)
      && s'.log == s.log + [Stopped(n, byExpiry)] + (if byExpiry then [CalledBack(n)] else [])
  {
  }

  lemma OwnedFrame(s: State, s': State, limbo: multiset<Timer>)
    requires Owned(s, limbo) && s'.sw.heap == s.sw.heap && s'.hw.heap == s.hw.heap
    requires forall id :: id in s.delegates ==>
      && id in s'.delegates && s'.delegates[id].timer == s.delegates[id].timer
      && s'.delegates[id].kind == s.delegates[id].kind
    ensures Owned(s', limbo)
  {
    assert forall k :: At(s', k).heap == At(s, k).heap;
  }

  lemma LiveTimerId(s: State, limbo: multiset<Timer>, id: nat)
    requires Life(s, limbo, id) && id in s.delegates
    ensures s.delegates[id].timer.id == id
  {
  }

  lemma StopKeepsOwners(s: State, limbo: multiset<Timer>, c: nat, byExpiry: bool)
    requires Owned(s, limbo) && ClientsRun(s) && CanStop(s, c)
    ensures Owned(StopAndCall(s, c, byExpiry), limbo) && ClientsRun(StopAndCall(s, c, byExpiry))
  {
    StopFields(s, c, byExpiry);
    hide Owned, StopAndCall;
    OwnedFrame(s, StopAndCall(s, c, byExpiry), limbo);
  }

  /** What a stop changes, for the timer it stops. */
  lemma StopChanges(s: State, limbo: multiset<Timer>, c: nat, byExpiry: bool)
    requires CanStop(s, c) && s.delegates[s.clients[c].value].contained
    requires s.delegates[s.clients[c].value].timer.id == s.clients[c].value
    ensures var n, s', d := s.clients[c].value, StopAndCall(s, c, byExpiry), s.delegates[s.clients[c].value];
      && n in s'.delegates && s'.delegates[n] == d.(client := None, contained := false)
      && Held(s', limbo, s'.delegates[n]) == Held(s, limbo, d)
      && About(s'.queue, n) == About(s.queue, n) + [RemoveMsg(d.kind, d.timer)]
      && s'.nextId == s.nextId
  {
    var d := s.delegates[s.clients[c].value];
    AboutAppend(s.queue, RemoveMsg(d.kind, d.timer), s.clients[c].value);
  }

  lemma StoppingIf(s: State, limbo: multiset<Timer>, id: nat, before: seq<Msg>)
    requires id in s.delegates && Stops(s.log, id) == 1
    requires var d := s.delegates[id];
      && !d.contained && d.client == None
      && About(s.queue, id) == before + [RemoveMsg(d.kind, d.timer)]
      && if before == [] then Held(s, limbo, d) == 1
         else before == [PushMsg(d.kind, d.timer)] && Held(s, limbo, d) == 0
    ensures Stopping(s, limbo, id, s.delegates[id])
  {
  }

  lemma StoppedLife(s: State, limbo: multiset<Timer>, c: nat, byExpiry: bool)
    requires CanStop(s, c) && Life(s, limbo, s.clients[c].value)
    ensures Life(StopAndCall(s, c, byExpiry), limbo, s.clients[c].value)
  {
    var n := s.clients[c].value;
    StopChanges(s, limbo, c, byExpiry);
    StopLogs(s, c, byExpiry);
    assert Running(s, limbo, n, s.delegates[n]);
    hide StopAndCall, Held, About, CanStop, Stopping;
    StoppingIf(StopAndCall(s, c, byExpiry), limbo, n, About(s.queue, n));
    assert Stopping(StopAndCall(s, c, byExpiry), limbo, n, StopAndCall(s, c, byExpiry).delegates[n]);
  }

  lemma OtherLife(s: State, limbo: multiset<Timer>, c: nat, byExpiry: bool, id: nat)
    requires CanStop(s, c) && id != s.clients[c].value && s.delegates[s.clients[c].value].timer.id == s.clients[c].value
    requires Life(s, limbo, id)
    ensures Life(StopAndCall(s, c, byExpiry), limbo, id)
  {
    var s' := StopAndCall(s, c, byExpiry);
    OtherUntouched(s, c, byExpiry, id);
    StopFields(s, c, byExpiry);
    hide *;
    if id in s.delegates {
      SameHeld(s, s', limbo, s.delegates[id]);
      OtherClient(s, c, byExpiry, id, s.delegates[id]);
    }
    LifeFrame(s, limbo, s', limbo, id);
  }

  lemma OtherUntouched(s: State, c: nat, byExpiry: bool, id: nat)
    requires CanStop(s, c) && id != s.clients[c].value && s.delegates[s.clients[c].value].timer.id == s.clients[c].value
    ensures SameLog(s.log, StopAndCall(s, c, byExpiry).log, id)
    ensures About(StopAndCall(s, c, byExpiry).queue, id) == About(s.queue, id)
  {
    var n := s.clients[c].value;
    AboutAppend(s.queue, RemoveMsg(s.delegates[n].kind, s.delegates[n].timer), id);
    LogAppend(s.log, Stopped(n, byExpiry), id);
    LogAppend(s.log + [Stopped(n, byExpiry)], CalledBack(n), id);
  }

  lemma OtherClient(s: State, c: nat, byExpiry: bool, id: nat, d: Delegate)
    requires CanStop(s, c) && id != s.clients[c].value
    ensures SameClient(s, StopAndCall(s, c, byExpiry), d, id)
  {
  }

  lemma SameHeld(s: State, s': State, limbo: multiset<Timer>, d: Delegate)
    requires s'.sw.heap == s.sw.heap && s'.hw.heap == s.hw.heap
    ensures Held(s', limbo, d) == Held(s, limbo, d)
  {
  }

  lemma StopLogs(s: State, c: nat, byExpiry: bool)
    requires CanStop(s, c)
    ensures var n, before, after := s.clients[c].value, multiset(s.log), multiset(StopAndCall(s, c, byExpiry).log);
      && after[Started(n)] == before[Started(n)] && after[Freed(n)] == before[Freed(n)]
      && after[Stopped(n, true)] == before[Stopped(n, true)] + (if byExpiry then 1 else 0)
      && after[Stopped(n, false)] == before[Stopped(n, false)] + (if byExpiry then 0 else 1)
      && after[CalledBack(n)] == before[CalledBack(n)] + (if byExpiry then 1 else 0)
  {
    var n := s.clients[c].value;
    assert multiset(s.log + [Stopped(n, byExpiry)]) == multiset(s.log) + multiset{Stopped(n, byExpiry)};
    assert multiset(s.log + [Stopped(n, byExpiry)] + [CalledBack(n)])
        == multiset(s.log) + multiset{Stopped(n, byExpiry)} + multiset{CalledBack(n)};
  }

  // ---------- Lives: the expiry loop ----------

  /** A popped timer that has been stopped needs no more handling. */
  lemma LimboDrop(s: State, limbo: multiset<Timer>, t: Timer)
    requires Lives(s, limbo) && t in limbo && s.delegates[t.id].client == None
    ensures Lives(s, limbo - multiset{t})
  {
    assert Life(s, limbo, t.id);
    hide Life;
    forall id ensures Life(s, limbo - multiset{t}, id) {
      assert Life(s, limbo, id);
      if id == t.id {
        DroppedLife(s, limbo, t);
      } else {
        if id in s.delegates {
          LiveTimerId(s, limbo, id);
        }
        LifeFrame(s, limbo, s, limbo - multiset{t}, id);
      }
    }
  }

  lemma DroppedLife(s: State, limbo: multiset<Timer>, t: Timer)
    requires Life(s, limbo, t.id) && t in limbo && t.id in s.delegates
    requires s.delegates[t.id].timer == t && s.delegates[t.id].client == None
    ensures Life(s, limbo - multiset{t}, t.id)
  {
    assert Stopping(s, limbo, t.id, s.delegates[t.id]);
    assert Stopping(s, limbo - multiset{t}, t.id, s.delegates[t.id]);
  }

  /** Expiring a popped timer stops that very timer, if its client has not stopped it already. */
  lemma ExpireOneIsItsStop(s: State, limbo: multiset<Timer>, t: Timer)
    requires Lives(s, limbo) && t in limbo && ClientsSafe(s)
    ensures t.id in s.delegates && s.delegates[t.id].timer == t
    ensures s.delegates[t.id].client == None ==> ExpireOne(s, t) == s
    ensures s.delegates[t.id].client.Some? ==>
      var c := s.delegates[t.id].client.value;
      CanStop(s, c) && s.clients[c].value == t.id && ExpireOne(s, t) == StopAndCall(s, c, true)
  {
    assert Life(s, limbo, t.id);
  }

  lemma ExpireOneKeepsLives(s: State, limbo: multiset<Timer>, t: Timer)
    requires Lives(s, limbo) && t in limbo && ClientsSafe(s) && t.id in s.delegates
    ensures Lives(ExpireOne(s, t), limbo - multiset{t})
  {
    ExpireOneIsItsStop(s, limbo, t);
    hide Lives, ExpireOne;
    if s.delegates[t.id].client.Some? {
      var c := s.delegates[t.id].client.value;
      StopKeepsLives(s, limbo, c, true);
      StopFields(s, c, true);
    }
    LimboDrop(ExpireOne(s, t), limbo, t);
  }

  /** Expiry touches neither heaps, kernel timers, poll thread nor locks, and only adds to the queue. */
  predicate SameButStops(s: State, s': State) {
    && s'.sw == s.sw && s'.hw == s.hw && s'.poll == s.poll && s'.locks == s.locks && s'.now == s.now
    && s'.handling == s.handling && s'.nextId == s.nextId
    && s.queue <= s'.queue && s'.clients.Keys == s.clients.Keys && s'.delegates.Keys == s.delegates.Keys
    && forall id :: id in s.delegates ==>
         s'.delegates[id].lock == s.delegates[id].lock && s'.delegates[id].timer == s.delegates[id].timer
  }

  lemma ExpireOneKeepsObjects(s: State, t: Timer)
    requires ClientsSafe(s) && t.id in s.delegates
    ensures SameButStops(s, ExpireOne(s, t)) && ClientsSafe(ExpireOne(s, t))
  {
  }

  // ---------- Lives: messages ----------

  /** The heap of `k` has handed the timer `t` to the expiry loop. */
  ghost predicate Handed(s: State, s': State, k: Kind, t: Timer) {
    && s'.queue == s.queue && s'.clients == s.clients && s'.delegates == s.delegates && s'.log == s.log
    && s'.nextId == s.nextId
    && (forall k' :: k' != k ==> At(s', k').heap == At(s, k').heap)
    && Contents(At(s, k).heap) == multiset{t} + Contents(At(s', k).heap)
  }

  lemma TopHanded(s: State, k: Kind)
    requires MemSafe(s) && At(s, k).heap.Node?
    ensures Handed(s, WithoutTop(s, k), k, At(s, k).heap.data)
    ensures forall k' :: k' != k ==> At(WithoutTop(s, k), k') == At(s, k')
    ensures At(WithoutTop(s, k), k) == At(s, k).(heap := Popped(RANKED, At(s, k).heap))
  {
    hide Contents, Ordered, SizesExact, Popped, MemSafe, Due, TimeSpec.Nanos;
    MemSafeHeap(s, k);
    OnePop(At(s, k).heap, At(s, k).heap.data);
    WithHeap(s, k, At(s, k).(heap := Popped(RANKED, At(s, k).heap)));
  }

  lemma MemSafeHeap(s: State, k: Kind)
    requires MemSafe(s)
    ensures Ordered(RANKED, At(s, k).heap) && SizesExact(At(s, k).heap)
  {
  }

  lemma WithHeap(s: State, k: Kind, c: Container)
    ensures At(With(s, k, c), k) == c
    ensures forall k' :: k' != k ==> At(With(s, k, c), k') == At(s, k')
  {
  }

  /** What leaves the heap for the expiry loop is accounted for there. */
  lemma IntoLimbo(s: State, s': State, k: Kind, t: Timer)
    requires Lives(s, multiset{}) && Handed(s, s', k, t)
    ensures Lives(s', multiset{t})
  {
    LimboOwners(s, s', k, t);
    hide Life, Owned;
    forall id ensures Life(s', multiset{t}, id) {
      assert Life(s, multiset{}, id);
      if id in s.delegates {
        LimboHeld(s, s', k, t, id);
      }
      LifeFrame(s, multiset{}, s', multiset{t}, id);
    }
  }

  lemma LimboOwners(s: State, s': State, k: Kind, t: Timer)
    requires Owned(s, multiset{}) && Handed(s, s', k, t)
    ensures Owned(s', multiset{t})
  {
    assert t in Contents(At(s, k).heap);
    forall k', u | u in Contents(At(s', k').heap) ensures u in Contents(At(s, k').heap) {
    }
  }

  lemma LimboHeld(s: State, s': State, k: Kind, t: Timer, id: nat)
    requires Owned(s, multiset{}) && Handed(s, s', k, t)
    requires id in s.delegates && Life(s, multiset{}, id)
    ensures Held(s', multiset{t}, s.delegates[id]) == Held(s, multiset{}, s.delegates[id])
  {
    var d := s.delegates[id];
    LiveTimerId(s, multiset{}, id);
    assert d.timer in Contents(At(s, k).heap) ==> d.kind == k;
  }

  /** Handling a push: the timer moves from the queue to the heap. */
  ghost predicate PushDelivered(s: State, s': State) {
    && s.queue != [] && s.queue[0].PushMsg?
    && var PushMsg(k, t) := s.queue[0];
    && s'.queue == s.queue[1..] && s'.clients == s.clients && s'.delegates == s.delegates && s'.log == s.log
    && s'.nextId == s.nextId
    && (forall k' :: k' != k ==> At(s', k').heap == At(s, k').heap)
    && Contents(At(s', k).heap) == Contents(At(s, k).heap) + multiset{t}
  }

  lemma PushKeepsLives(s: State, s': State)
    requires Lives(s, multiset{}) && PushDelivered(s, s')
    ensures Lives(s', multiset{})
  {
    var t := s.queue[0].timer;
    assert Life(s, multiset{}, t.id);
    FirstAbout(s, t.id);
    PushOwners(s, s');
    hide Life, Owned;
    forall id ensures Life(s', multiset{}, id) {
      assert Life(s, multiset{}, id);
      if id == t.id {
        PushedLife(s, s');
      } else {
        UnpushedLife(s, s', id);
      }
    }
  }

  /** The first message of the queue is the first one about its timer. */
  lemma FirstAbout(s: State, id: nat)
    requires s.queue != [] && IsAbout(s.queue[0], id) && Life(s, multiset{}, id)
    ensures id in s.delegates
    ensures var d := s.delegates[id];
      && s.queue[0].kind == d.kind && s.queue[0].timer == d.timer
      && (s.queue[0].PushMsg? ==> Held(s, multiset{}, d) == 0)
      && (s.queue[0].RemoveMsg? ==>
            About(s.queue[1..], id) == [] && Stopping(s, multiset{}, id, d) && Held(s, multiset{}, d) <= 1)
  {
    assert About(s.queue, id)[0] == s.queue[0];
    assert About(s.queue, id) == [s.queue[0]] + About(s.queue[1..], id);
  }

  lemma PushOwners(s: State, s': State)
    requires Owned(s, multiset{}) && PushDelivered(s, s')
    requires var PushMsg(k, t) := s.queue[0];
      t.id in s.delegates && s.delegates[t.id].timer == t && s.delegates[t.id].kind == k
    ensures Owned(s', multiset{})
  {
  }

  lemma PushedLife(s: State, s': State)
    requires PushDelivered(s, s') && Life(s, multiset{}, s.queue[0].timer.id)
    ensures Life(s', multiset{}, s.queue[0].timer.id)
  {
    var t := s.queue[0].timer;
    FirstAbout(s, t.id);
    var d := s.delegates[t.id];
    assert About(s.queue, t.id) == [s.queue[0]] + About(s.queue[1..], t.id);
    assert About(s.queue[1..], t.id) == About(s.queue, t.id)[1..];
    assert [s.queue[0], RemoveMsg(d.kind, d.timer)][1..] == [RemoveMsg(d.kind, d.timer)];
    assert Held(s', multiset{}, d) == 1;
    hide About, Stops, Held;
    if Running(s, multiset{}, t.id, d) {
      assert Running(s', multiset{}, t.id, d);
    } else {
      assert About(s.queue, t.id)[0].PushMsg?;
      assert Stopping(s', multiset{}, t.id, d);
    }
  }

  lemma UnpushedLife(s: State, s': State, id: nat)
    requires PushDelivered(s, s') && Life(s, multiset{}, id) && id != s.queue[0].timer.id
    ensures Life(s', multiset{}, id)
  {
    AboutTail(s.queue, id);
    if id in s.delegates {
      LiveTimerId(s, multiset{}, id);
      UnpushedHeld(s, s', s.delegates[id]);
    }
    hide Life, About, Held, Contents;
    LifeFrame(s, multiset{}, s', multiset{}, id);
  }

  lemma UnpushedHeld(s: State, s': State, d: Delegate)
    requires PushDelivered(s, s') && d.timer != s.queue[0].timer
    ensures Held(s', multiset{}, d) == Held(s, multiset{}, d)
  {
    hide Contents;
  }

  /** The first message of the queue is none about another timer. */
  lemma AboutTail(queue: seq<Msg>, id: nat)
    requires queue != [] && !IsAbout(queue[0], id)
    ensures About(queue, id) == About(queue[1..], id)
  {
  }

  /** Handling a removal: the timer, in the heap or not, is gone for good. */
  ghost predicate RemoveDelivered(s: State, s': State) {
    && s.queue != [] && s.queue[0].RemoveMsg?
    && var RemoveMsg(k, t) := s.queue[0];
    && s'.queue == s.queue[1..] && s'.clients == s.clients && s'.delegates == s.delegates - {t.id}
    && s'.log == s.log + [Freed(t.id)] && s'.nextId == s.nextId
    && (forall k' :: k' != k ==> At(s', k').heap == At(s, k').heap)
    && Contents(At(s', k).heap) == Contents(At(s, k).heap) - multiset{t}
  }

  lemma RemoveKeepsLives(s: State, s': State)
    requires Lives(s, multiset{}) && RemoveDelivered(s, s')
    ensures Lives(s', multiset{})
  {
    var t := s.queue[0].timer;
    assert Life(s, multiset{}, t.id);
    FirstAbout(s, t.id);
    hide Life, Owned;
    RemoveOwners(s, s');
    RemoveClients(s, s');
    hide RemoveDelivered, ClientsRun;
    forall id ensures Life(s', multiset{}, id) {
      assert Life(s, multiset{}, id);
      if id == t.id {
        FreedLife(s, s');
      } else {
        UnfreedLife(s, s', id);
      }
    }
  }

  lemma RemoveClients(s: State, s': State)
    requires ClientsRun(s) && RemoveDelivered(s, s')
    requires s.queue[0].timer.id in s.delegates && s.delegates[s.queue[0].timer.id].client == None
    ensures ClientsRun(s')
  {
  }

  lemma RemoveOwners(s: State, s': State)
    requires Owned(s, multiset{}) && RemoveDelivered(s, s')
    requires var RemoveMsg(k, t) := s.queue[0];
      && t.id in s.delegates && s.delegates[t.id].timer == t && s.delegates[t.id].kind == k
      && Contents(At(s, k).heap)[t] <= 1
    ensures Owned(s', multiset{})
  {
    hide Owned;
    forall k, u | u in Contents(At(s', k).heap)
      ensures u.id in s'.delegates && s'.delegates[u.id].timer == u && s'.delegates[u.id].kind == k
    {
      HeldBefore(s, s', k, u);
      OwnedAt(s, k, u);
    }
    hide RemoveDelivered;
    OwnedIf(s');
  }

  lemma HeldBefore(s: State, s': State, k: Kind, u: Timer)
    requires RemoveDelivered(s, s') && u in Contents(At(s', k).heap)
    ensures u in Contents(At(s, k).heap)
    ensures k == s.queue[0].kind && Contents(At(s, k).heap)[s.queue[0].timer] <= 1 ==> u != s.queue[0].timer
  {
  }

  lemma OwnedAt(s: State, k: Kind, t: Timer)
    requires Owned(s, multiset{}) && t in Contents(At(s, k).heap)
    ensures t.id in s.delegates && s.delegates[t.id].timer == t && s.delegates[t.id].kind == k
  {
  }

  lemma OwnedIf(s: State)
    requires forall k, t :: t in Contents(At(s, k).heap) ==>
      t.id in s.delegates && s.delegates[t.id].timer == t && s.delegates[t.id].kind == k
    ensures Owned(s, multiset{})
  {
  }

  lemma FreedLife(s: State, s': State)
    requires RemoveDelivered(s, s') && Life(s, multiset{}, s.queue[0].timer.id)
    ensures Life(s', multiset{}, s.queue[0].timer.id)
  {
    var id := s.queue[0].timer.id;
    FirstAbout(s, id);
    hide About, Held;
    assert multiset(s.log + [Freed(id)]) == multiset(s.log) + multiset{Freed(id)};
  }

  lemma UnremovedHeld(s: State, s': State, d: Delegate)
    requires RemoveDelivered(s, s') && d.timer != s.queue[0].timer
    ensures Held(s', multiset{}, d) == Held(s, multiset{}, d)
  {
  }

  lemma UnfreedLife(s: State, s': State, id: nat)
    requires RemoveDelivered(s, s') && Life(s, multiset{}, id) && id != s.queue[0].timer.id
    ensures Life(s', multiset{}, id)
  {
    if id in s.delegates {
      LiveTimerId(s, multiset{}, id);
      UnremovedHeld(s, s', s.delegates[id]);
    }
    AboutTail(s.queue, id);
    LogAppend(s.log, Freed(s.queue[0].timer.id), id);
    hide Life, About, Held;
    LifeFrame(s, multiset{}, s', multiset{}, id);
  }

  // ---------- Locks ----------

  lemma CreateCounts(s: State, c: nat)
    requires LocksCount(s) && c !in s.clients && c !in s.locks
    ensures LocksCount(s.(clients := s.clients[c := None], locks := s.locks[c := 1]))
  {
    var s' := s.(clients := s.clients[c := None], locks := s.locks[c := 1]);
    assert Holders(s, c) == 0;
    assert forall l: nat :: l != c ==> Holders(s', l) == Holders(s, l);
    assert Holders(s', c) == 1;
  }

  lemma ShareCounts(s: State, s': State, c: nat, id: nat, d: Delegate)
    requires LocksCount(s) && c in s.locks && id !in s.delegates && d.lock == c
    requires s'.locks == Share(s.locks, c) && s'.delegates == s.delegates[id := d]
    requires s'.clients.Keys == s.clients.Keys
    ensures LocksCount(s')
  {
    assert Sharers(s'.delegates, c) == Sharers(s.delegates, c) + {id};
    assert Holders(s', c) == Holders(s, c) + 1;
    forall l: nat | l != c ensures Holders(s', l) == Holders(s, l) {
      assert Sharers(s'.delegates, l) == Sharers(s.delegates, l);
    }
  }

  lemma SameHolders(s: State, s': State)
    requires s'.clients.Keys == s.clients.Keys && s'.delegates.Keys == s.delegates.Keys
    requires forall id :: id in s.delegates ==> s'.delegates[id].lock == s.delegates[id].lock
    ensures forall l: nat :: Holders(s', l) == Holders(s, l)
    ensures LocksCount(s) && s'.locks == s.locks ==> LocksCount(s')
  {
    forall l: nat ensures Holders(s', l) == Holders(s, l) {
      assert Sharers(s'.delegates, l) == Sharers(s.delegates, l);
    }
  }

  lemma DropCounts(s: State, s': State, c: nat)
    requires LocksCount(s) && c in s.locks && s'.locks == Drop(s.locks, c)
    requires Holders(s', c) == Holders(s, c) - 1
    requires forall l: nat :: l != c ==> Holders(s', l) == Holders(s, l)
    ensures LocksCount(s')
  {
    assert forall l: nat :: l != c ==> (l in s'.locks <==> l in s.locks);
  }

  lemma ClientGoneCounts(s: State, s': State, c: nat)
    requires LocksCount(s) && c in s.locks && c in s.clients
    requires s'.locks == Drop(s.locks, c) && s'.clients == s.clients - {c} && s'.delegates == s.delegates
    ensures LocksCount(s')
  {
    assert Holders(s', c) == Holders(s, c) - 1;
    assert forall l: nat :: l != c ==> Holders(s', l) == Holders(s, l);
    DropCounts(s, s', c);
  }

  lemma FreeCounts(s: State, s': State, id: nat)
    requires LocksCount(s) && id in s.delegates && s.delegates[id].lock in s.locks
    requires s'.locks == Drop(s.locks, s.delegates[id].lock)
    requires s'.clients == s.clients && s'.delegates == s.delegates - {id}
    ensures LocksCount(s')
  {
    hide LocksCount, Drop;
    forall l: nat ensures Holders(s', l) == Holders(s, l) - if l == s.delegates[id].lock then 1 else 0 {
      SharersWithout(s.delegates, id, l);
    }
    hide Holders;
    DropCounts(s, s', s.delegates[id].lock);
  }

  lemma SharersWithout(delegates: map<nat, Delegate>, id: nat, l: nat)
    requires id in delegates
    ensures |Sharers(delegates - {id}, l)| == |Sharers(delegates, l)| - if delegates[id].lock == l then 1 else 0
  {
    assert Sharers(delegates - {id}, l) == Sharers(delegates, l) - {id};
  }

  // ---------- Each step keeps the invariant ----------

  lemma ServedFrame(s: State, s': State, k: Kind)
    requires Served(s, k) && s'.poll == s.poll && s'.handling == s.handling
    requires At(s', k) == At(s, k) || (Armed(At(s, k)) ==> Armed(At(s', k)))
    requires ExpireMsg(k) in s.queue ==> ExpireMsg(k) in s'.queue
    ensures Served(s', k)
  {
  }

  lemma QuietStep(s: State, s': State)
    requires HeapsKept(s) && Served(s, Sw) && Served(s, Hw)
    requires s'.sw == s.sw && s'.hw == s.hw && s'.poll == s.poll && s'.handling == s.handling
    requires s.queue <= s'.queue
    ensures HeapsKept(s') && Served(s', Sw) && Served(s', Hw)
  {
    assert forall k :: At(s', k) == At(s, k);
    assert forall m :: m in s.queue ==> m in s'.queue;
  }

  lemma CreateKeepsInv(s: State, c: nat)
    requires Inv(s) && c !in s.clients && c !in s.locks
    ensures Inv(s.(clients := s.clients[c := None], locks := s.locks[c := 1]))
  {
    var s' := s.(clients := s.clients[c := None], locks := s.locks[c := 1]);
    CreateKeepsLives(s, c);
    CreateCounts(s, c);
    QuietStep(s, s');
  }

  lemma StartKeepsInv(s: State, c: nat, ms: nat, k: Kind)
    requires Inv(s) && c in s.clients && c in s.locks && ms <= UINT32_MAX
    ensures Inv(StartTimer(s, c, ms, k))
  {
    var s' := StartTimer(s, c, ms, k);
    StartKeepsLives(s, c, ms, k);
    assert Life(s, multiset{}, s.nextId);
    NotYetStarted(s, s.nextId);
    hide Lives, LocksCount, HeapsKept, Served;
    if s.clients[c].None? {
      ShareCounts(s, s', c, s.nextId, s'.delegates[s.nextId]);
    }
    QuietStep(s, s');
  }

  lemma StopKeepsInv(s: State, c: nat)
    requires Inv(s) && c in s.clients && (s.clients[c].Some? ==> s.clients[c].value in s.delegates)
    ensures Inv(StopTimer(s, c, false))
    ensures SameButStops(s, StopTimer(s, c, false))
  {
    if s.clients[c].Some? {
      StopKeepsLives(s, multiset{}, c, false);
      StopFields(s, c, false);
      hide Lives, LocksCount, HeapsKept, Served;
      SameHolders(s, StopTimer(s, c, false));
      QuietStep(s, StopTimer(s, c, false));
    }
  }

  lemma DestroyKeepsInv(s: State, c: nat)
    requires Inv(s) && c in s.clients && c in s.locks
    requires s.clients[c].Some? ==> s.clients[c].value in s.delegates
    ensures Inv(DestroyTimer(s, c))
  {
    var s1, s2 := StopTimer(s, c, false), DestroyTimer(s, c);
    StopKeepsInv(s, c);
    ClientGoneCounts(s1, s2, c);
    ForgetClient(s1, s2, c);
    hide Lives, LocksCount, HeapsKept, Served;
    QuietStep(s1, s2);
  }

  lemma ForgetClient(s: State, s': State, c: nat)
    requires Lives(s, multiset{}) && c in s.clients && s.clients[c] == None
    requires s' == s.(locks := s'.locks, clients := s.clients - {c})
    ensures Lives(s', multiset{})
  {
    hide Life, Owned;
    OwnedFrame(s, s', multiset{});
    forall id ensures Life(s', multiset{}, id) {
      assert Life(s, multiset{}, id);
      if id in s.delegates {
        SameHeld(s, s', multiset{}, s.delegates[id]);
      }
      LifeFrame(s, multiset{}, s', multiset{}, id);
    }
  }

  lemma PollStepKeepsInv(s: State)
    requires Inv(s) && s.poll.Expiring? && s.poll.todo != []
    ensures Inv(PollAdvance(s))
  {
    var s' := PollAdvance(s);
    PollFields(s);
    hide PollAdvance;
    LivesFrame(s, s');
    SameHolders(s, s');
    hide Lives, LocksCount;
    forall k ensures Served(s', k) {
      assert Served(s, k);
      PollServes(s, k);
    }
  }

  lemma PollFields(s: State)
    requires s.poll.Expiring? && s.poll.todo != []
    ensures var s' := PollAdvance(s);
      && s'.clients == s.clients && s'.delegates == s.delegates && s'.nextId == s.nextId && s'.log == s.log
      && s'.locks == s.locks && s'.handling == s.handling && s'.now == s.now
      && (forall k :: At(s', k).heap == At(s, k).heap)
      && (s'.queue == s.queue || exists k :: s'.queue == s.queue + [ExpireMsg(k)])
  {
  }

  lemma PollServes(s: State, k: Kind)
    requires Served(s, k) && s.poll.Expiring? && s.poll.todo != []
    ensures Served(PollAdvance(s), k)
  {
    var s' := PollAdvance(s);
    if k != s.poll.todo[0] {
      assert At(s', k) == At(s, k);
      if k in s.poll.todo {
        assert s.poll.todo == [s.poll.todo[0]] + s.poll.todo[1..];
      }
    }
  }

  lemma DeliverPushKeepsInv(s: State)
    requires Inv(s) && MemSafe(s) && s.queue != [] && s.queue[0].PushMsg?
    ensures Inv(DeliverMsg(s))
  {
    var PushMsg(k, t) := s.queue[0];
    PushHeap(s, k, t);
    PushFields(s);
    hide DeliverMsg, MemSafe, HeapsKept, Served, LocksCount, AfterPush;
    PushKeepsLives(s, DeliverMsg(s));
    hide Lives;
    SameHolders(s, DeliverMsg(s));
    MessageServes(s, DeliverMsg(s), k);
  }

  lemma PushFields(s: State)
    requires MemSafe(s) && s.queue != [] && s.queue[0].PushMsg?
    ensures var PushMsg(k, t), s' := s.queue[0], DeliverMsg(s);
      && s'.queue == s.queue[1..] && s'.clients == s.clients && s'.delegates == s.delegates && s'.log == s.log
      && s'.nextId == s.nextId && s'.locks == s.locks && s'.poll == s.poll
      && s'.handling == s.handling && s'.now == s.now
      && At(s', k) == AfterPush(At(s, k), t) && (forall k' :: k' != k ==> At(s', k') == At(s, k'))
  {
    hide MemSafe, AfterPush;
  }

  lemma RemoveFields(s: State)
    requires MemSafe(s) && s.queue != [] && s.queue[0].RemoveMsg?
    ensures s.queue[0].timer.id in s.delegates && s.delegates[s.queue[0].timer.id].lock in s.locks
    ensures var RemoveMsg(k, t), s' := s.queue[0], DeliverMsg(s);
      && s'.queue == s.queue[1..] && s'.clients == s.clients && s'.delegates == s.delegates - {t.id}
      && s'.log == s.log + [Freed(t.id)]
      && s'.nextId == s.nextId && s'.locks == Drop(s.locks, s.delegates[t.id].lock) && s'.poll == s.poll
      && s'.handling == s.handling && s'.now == s.now
      && At(s', k) == AfterRemove(At(s, k), t) && (forall k' :: k' != k ==> At(s', k') == At(s, k'))
  {
    RemoveIsLive(s);
    var RemoveMsg(k, t) := s.queue[0];
    var s1 := s.(queue := s.queue[1..]);
    assert DeliverMsg(s) == Free(With(s1, k, AfterRemove(At(s, k), t)), t.id);
    hide DeliverMsg, AfterRemove, MemSafe, Drop;
    WithHeap(s1, k, AfterRemove(At(s, k), t));
  }

  lemma RemoveIsLive(s: State)
    requires MemSafe(s) && s.queue != [] && s.queue[0].RemoveMsg?
    ensures s.queue[0].timer.id in s.delegates && s.delegates[s.queue[0].timer.id].lock in s.locks
  {
    hide ClientsSafe, Contents, Ordered, SizesExact;
  }

  lemma PushHeap(s: State, k: Kind, t: Timer)
    requires HeapsKept(s)
    ensures var c := AfterPush(At(s, k), t);
      && Ordered(RANKED, c.heap) && SizesExact(c.heap) && Contents(c.heap) == Contents(At(s, k).heap) + multiset{t}
      && (Armed(At(s, k)) ==> Armed(c))
  {
    assert Ordered(RANKED, At(s, k).heap);
    hide *;
    HeapsAfter(At(s, k), t);
    PushedHeap(At(s, k).heap, t);
    if Armed(At(s, k)) {
      PushKeepsArmed(At(s, k), t);
    }
  }

  /** A handled push or removal keeps both containers served: it takes no expire message off the queue. */
  lemma MessageServes(s: State, s': State, k: Kind)
    requires HeapsKept(s) && Served(s, Sw) && Served(s, Hw)
    requires s.queue != [] && !s.queue[0].ExpireMsg? && s'.queue == s.queue[1..] && s'.poll == s.poll
    requires s'.handling == s.handling
    requires Ordered(RANKED, At(s', k).heap) && SizesExact(At(s', k).heap)
    requires Armed(At(s, k)) ==> Armed(At(s', k))
    requires forall k' :: k' != k ==> At(s', k') == At(s, k')
    ensures HeapsKept(s') && Served(s', Sw) && Served(s', Hw)
  {
    assert s.queue == [s.queue[0]] + s.queue[1..];
    hide Ordered, SizesExact, Armed;
    forall k' ensures Served(s', k') {
      assert Served(s, k');
      ServedFrame(s, s', k');
    }
  }

  lemma DeliverRemoveKeepsInv(s: State)
    requires Inv(s) && MemSafe(s) && s.queue != [] && s.queue[0].RemoveMsg?
    ensures Inv(DeliverMsg(s))
  {
    var RemoveMsg(k, t) := s.queue[0];
    RemoveHeap(s, k, t);
    RemoveFields(s);
    hide DeliverMsg, MemSafe, HeapsKept, Served, LocksCount, AfterRemove, Drop;
    RemoveKeepsLives(s, DeliverMsg(s));
    hide Lives;
    FreeCounts(s, DeliverMsg(s), t.id);
    MessageServes(s, DeliverMsg(s), k);
  }

  lemma RemoveHeap(s: State, k: Kind, t: Timer)
    requires HeapsKept(s)
    ensures var c := AfterRemove(At(s, k), t);
      && Ordered(RANKED, c.heap) && SizesExact(c.heap) && Contents(c.heap) == Contents(At(s, k).heap) - multiset{t}
      && (Armed(At(s, k)) ==> Armed(c))
  {
    assert Ordered(RANKED, At(s, k).heap);
    hide *;
    HeapsAfter(At(s, k), t);
    RemovedHeap(At(s, k).heap, t);
    if Armed(At(s, k)) {
      RemoveKeepsArmed(At(s, k), t);
    }
  }

  lemma DeliverExpireKeepsInv(s: State)
    requires Inv(s) && MemSafe(s) && s.queue != [] && s.queue[0].ExpireMsg? && s.handling.None?
    ensures Inv(DeliverMsg(s))
  {
    var s' := DeliverMsg(s);
    DeliverExpireIs(s);
    hide MemSafe, DeliverMsg, HeapsKept, Served, LocksCount, Lives;
    TailLives(s, s');
    SameHolders(s, s');
    HandlingServes(s, s', s.queue[0].kind);
  }

  lemma DeliverExpireIs(s: State)
    requires MemSafe(s) && s.queue != [] && s.queue[0].ExpireMsg?
    ensures DeliverMsg(s) ==
      s.(queue := s.queue[1..], handling := Some(Handling(s.queue[0].kind, s.now, true)))
    ensures forall k :: At(DeliverMsg(s), k) == At(s, k)
  {
    hide MemSafe;
  }

  /** The message that is being handled needs not be queued. */
  lemma HandlingServes(s: State, s': State, k: Kind)
    requires HeapsKept(s) && Served(s, Sw) && Served(s, Hw) && s.handling.None?
    requires s.queue != [] && s.queue[0] == ExpireMsg(k) && s'.queue == s.queue[1..] && s'.poll == s.poll
    requires s'.handling.Some? && s'.handling.value.kind == k && forall k' :: At(s', k') == At(s, k')
    ensures HeapsKept(s') && Served(s', Sw) && Served(s', Hw)
  {
    assert s.queue == [s.queue[0]] + s.queue[1..];
    hide Ordered, SizesExact, Armed;
    forall k' ensures Served(s', k') {
      assert Served(s, k');
    }
  }

  lemma TailLives(s: State, s0: State)
    requires Lives(s, multiset{}) && s.queue != [] && s.queue[0].ExpireMsg?
    requires s0 == s.(queue := s.queue[1..], handling := s0.handling)
    ensures Lives(s0, multiset{})
  {
    OwnedFrame(s, s0, multiset{});
    forall id ensures Life(s0, multiset{}, id) {
      assert Life(s, multiset{}, id);
      assert About(s.queue, id) == About(s0.queue, id);
      hide Life, About;
      if id in s.delegates {
        SameHeld(s, s0, multiset{}, s.delegates[id]);
      }
      LifeFrame(s, multiset{}, s0, multiset{}, id);
    }
  }

  // ---------- A turn of the expiry loop ----------

  /** The turn that pops and expires `t`. */
  lemma TurnWith(s: State, k: Kind, t: Timer)
    requires MemSafe(s) && s.handling.Some? && s.handling.value.kind == k && NextPop(s, s.handling.value) == Some(t)
    ensures At(s, k).heap.Node? && At(s, k).heap.data == t
    ensures ClientsSafe(WithoutTop(s, k)) && t.id in s.delegates && WithoutTop(s, k).delegates == s.delegates
    ensures SameButStops(WithoutTop(s, k), ExpireOne(WithoutTop(s, k), t))
    ensures Turn(s) == ExpireOne(WithoutTop(s, k), t).(handling := Some(s.handling.value.(first := false)))
  {
    TopIsLive(s, k);
    hide MemSafe, ClientsSafe, ExpireOne, WithoutTop;
    ExpireOneKeepsObjects(WithoutTop(s, k), t);
  }

  lemma TopIsLive(s: State, k: Kind)
    requires MemSafe(s) && At(s, k).heap.Node?
    ensures ClientsSafe(WithoutTop(s, k)) && WithoutTop(s, k).delegates == s.delegates
    ensures At(s, k).heap.data.id in s.delegates
  {
    assert At(s, k).heap.data in Contents(At(s, k).heap);
    assert ClientsSafe(s);
    hide MemSafe, Popped, Contents;
  }

  /** The last turn, which only arms the kernel. */
  lemma TurnWithout(s: State, k: Kind)
    requires MemSafe(s) && s.handling.Some? && s.handling.value.kind == k && NextPop(s, s.handling.value) == None
    ensures Turn(s) == s.(sw := Turn(s).sw, hw := Turn(s).hw, handling := None)
    ensures At(Turn(s), k) == UpdateSoonest(At(s, k), None) && forall k' :: k' != k ==> At(Turn(s), k') == At(s, k')
  {
    hide MemSafe, UpdateSoonest, NextPop;
  }

  /** What any turn does to the containers, and what it leaves alone. */
  ghost predicate Turned(s: State, s': State)
    requires s.handling.Some?
  {
    var k := s.handling.value.kind;
    && s'.poll == s.poll && s'.locks == s.locks && s.queue <= s'.queue && s'.now == s.now
    && s'.clients.Keys == s.clients.Keys && s'.delegates.Keys == s.delegates.Keys
    && s'.nextId == s.nextId
    && (forall id :: id in s.delegates ==>
          s'.delegates[id].lock == s.delegates[id].lock && s'.delegates[id].timer == s.delegates[id].timer)
    && (forall k' :: k' != k ==> At(s', k') == At(s, k'))
    && match NextPop(s, s.handling.value)
       case None => s'.handling == None && At(s', k) == UpdateSoonest(At(s, k), None)
       case Some(t) =>
         && s'.handling == Some(s.handling.value.(first := false)) && At(s, k).heap.Node?
         && At(s', k) == At(s, k).(heap := Popped(RANKED, At(s, k).heap))
  }

  lemma TurnIs(s: State)
    requires MemSafe(s) && s.handling.Some?
    ensures Turned(s, Turn(s))
  {
    var k := s.handling.value.kind;
    if NextPop(s, s.handling.value).Some? {
      var t := NextPop(s, s.handling.value).value;
      hide *;
      TurnWith(s, k, t);
      SameButHeap(s, k);
      TurnedWith(s, WithoutTop(s, k), ExpireOne(WithoutTop(s, k), t), t);
    } else {
      hide MemSafe, Turn, UpdateSoonest;
      TurnWithout(s, k);
    }
  }

  lemma TurnedWith(s: State, s1: State, s2: State, t: Timer)
    requires s.handling.Some? && NextPop(s, s.handling.value) == Some(t)
    requires var k := s.handling.value.kind;
      && s1 == s.(sw := s1.sw, hw := s1.hw) && (forall k' :: k' != k ==> At(s1, k') == At(s, k'))
      && At(s, k).heap.Node? && At(s1, k) == At(s, k).(heap := Popped(RANKED, At(s, k).heap))
    requires SameButStops(s1, s2)
    ensures Turned(s, s2.(handling := Some(s.handling.value.(first := false))))
  {
    hide Popped, NextPop;
    assert forall k' :: At(s2, k') == At(s1, k');
  }

  lemma SameButHeap(s: State, k: Kind)
    ensures var s1 := WithoutTop(s, k);
      && s1 == s.(sw := s1.sw, hw := s1.hw) && (forall k' :: k' != k ==> At(s1, k') == At(s, k'))
      && (At(s, k).heap.Node? ==> At(s1, k) == At(s, k).(heap := Popped(RANKED, At(s, k).heap)))
  {
    hide Popped;
  }

  lemma TurnKeepsLives(s: State)
    requires Lives(s, multiset{}) && MemSafe(s) && s.handling.Some?
    ensures Lives(Turn(s), multiset{})
  {
    var k := s.handling.value.kind;
    if NextPop(s, s.handling.value).Some? {
      var t := NextPop(s, s.handling.value).value;
      hide *;
      TurnWith(s, k, t);
      TopHanded(s, k);
      IntoLimbo(s, WithoutTop(s, k), k, t);
      ExpireOneKeepsLives(WithoutTop(s, k), multiset{t}, t);
      assert multiset{t} - multiset{t} == multiset{};
      OnlyHandling(ExpireOne(WithoutTop(s, k), t), Turn(s));
    } else {
      hide *;
      TurnWithout(s, k);
      UpdateKeepsHeap(At(s, k));
      assert forall k' :: At(Turn(s), k').heap == At(s, k').heap;
      LivesFrame(s, Turn(s));
    }
  }

  lemma UpdateKeepsHeap(c: Container)
    ensures UpdateSoonest(c, None).heap == c.heap
  {
  }

  lemma OnlyHandling(s: State, s': State)
    requires Lives(s, multiset{}) && s' == s.(handling := s'.handling)
    ensures Lives(s', multiset{})
  {
    assert forall k :: At(s', k) == At(s, k);
    LivesFrame(s, s');
  }

  lemma TurnKeepsInv(s: State)
    requires Inv(s) && MemSafe(s) && s.handling.Some?
    ensures Inv(Turn(s))
  {
    TurnIs(s);
    TurnKeepsLives(s);
    hide Lives, Turn, MemSafe, HeapsKept, Served, LocksCount;
    TurnServes(s, Turn(s));
    SameHolders(s, Turn(s));
  }

  lemma TurnServes(s: State, s': State)
    requires HeapsKept(s) && Served(s, Sw) && Served(s, Hw) && s.handling.Some? && Turned(s, s')
    ensures HeapsKept(s') && Served(s', Sw) && Served(s', Hw)
  {
    var k := s.handling.value.kind;
    assert Ordered(RANKED, At(s, k).heap) && SizesExact(At(s, k).heap);
    hide Ordered, SizesExact, Armed, Popped, UpdateSoonest, NextPop;
    if At(s, k).heap.Node? {
      OnePop(At(s, k).heap, At(s, k).heap.data);
    }
    UpdateFromNoneArms(At(s, k));
    UpdateKeepsHeap(At(s, k));
    forall k' ensures Served(s', k') {
      assert Served(s, k');
    }
  }

  lemma StepKeepsInv(s: State, a: Action, s': State)
    requires Inv(s) && Step(s, a, s')
    ensures MemSafe(s) && Inv(s')
  {
    InvIsMemSafe(s);
    hide Inv;
    match a
    case Create(c) => CreateKeepsInv(s, c);
    case Start(c, ms, k, available) => StartKeepsInv(s, c, ms, k);
    case Stop(c) => StopKeepsInv(s, c);
    case Destroy(c) => DestroyKeepsInv(s, c);
    case Wake(todo) => WakeKeepsInv(s, todo);
    case PollStep => PollStepKeepsInv(s);
    case Deliver =>
      match s.queue[0] {
        case PushMsg(_, _) => DeliverPushKeepsInv(s);
        case RemoveMsg(_, _) => DeliverRemoveKeepsInv(s);
        case ExpireMsg(_) => DeliverExpireKeepsInv(s);
      }
    case ExpiryTurn => TurnKeepsInv(s);
    case Tick(to) => TickKeepsInv(s, to);
  }

  lemma WakeKeepsInv(s: State, todo: seq<Kind>)
    requires Inv(s) && s.poll.Waiting?
    ensures Inv(s.(poll := Expiring(todo, Disarm)))
  {
    var s' := s.(poll := Expiring(todo, Disarm));
    assert forall k :: At(s', k) == At(s, k);
    LivesFrame(s, s');
    SameHolders(s, s');
  }

  lemma TickKeepsInv(s: State, to: Clock)
    requires Inv(s)
    ensures Inv(s.(now := to))
  {
    var s' := s.(now := to);
    assert forall k :: At(s', k) == At(s, k);
    LivesFrame(s, s');
    SameHolders(s, s');
    QuietStep(s, s');
  }

  lemma InitInv(now: Clock)
    ensures Inv(Init(now))
  {
    assert forall k :: At(Init(now), k) == IDLE;
    assert forall l: nat :: Sharers(Init(now).delegates, l) == {};
  }

  /** The invariant holds at every point of every run, and no step of it touches a deleted object. */
  lemma {:induction false} RunKeepsInv(states: seq<State>, actions: seq<Action>, i: nat)
    requires IsRun(states, actions) && i < |states|
    ensures Inv(states[i]) && MemSafe(states[i])
  {
    if i == 0 {
      InitInv(states[0].now);
    } else {
      RunKeepsInv(states, actions, i - 1);
      StepKeepsInv(states[i - 1], actions[i - 1], states[i]);
    }
    InvIsMemSafe(states[i]);
  }
}
