/** The parts of gps/utils/LocTimer.cpp that one thread can see: deadlines and their ranks, a container with
    its heap of timers and its kernel timer, and what an expire message pops. */
module Deadlines {
  import opened Wrappers
  import opened LocHeap

  // ---------- Deadlines ----------

  const NSEC_PER_SEC := 1_000_000_000

  datatype TimeSpec = TimeSpec(sec: int, nsec: int) {
    predicate Normal() {
      0 <= nsec < NSEC_PER_SEC
    }

    function Nanos(): int {
      sec * NSEC_PER_SEC + nsec
    }
  }

  /** The conversion of a difference of times to the C type int. */
  function Truncate(x: int): int {
    (x + 0x8000_0000) % 0x1_0000_0000 - 0x8000_0000
  }

  /** LocTimerDelegate::ranks, as a function of the two deadlines: positive when the first ranks higher. */
  function Ranks(self: TimeSpec, other: TimeSpec): int {
    var rank := Truncate(other.sec - self.sec);
    if rank == 0 then Truncate(other.nsec - self.nsec) else rank
  }

  /** The deadline of a timer started at `now`. */
  function FutureTime(now: TimeSpec, timeOutInMs: nat): TimeSpec {
    var sec, nsec := now.sec + timeOutInMs / 1000, now.nsec + timeOutInMs % 1000 * 1_000_000;
    if nsec >= NSEC_PER_SEC then TimeSpec(sec + nsec / NSEC_PER_SEC, nsec % NSEC_PER_SEC) else TimeSpec(sec, nsec)
  }

  const UINT32_MAX := 0xffff_ffff

  /** Clock readings: normalised, past the instant of boot, and early enough that no deadline leaves int. */
  predicate ClockReading(t: TimeSpec) {
    t.Normal() && t.Nanos() > 0 && 0 <= t.sec <= 0x7fff_ffff - UINT32_MAX / 1000 - 1
  }

  predicate Deadline(t: TimeSpec) {
    t.Normal() && t.Nanos() > 0 && 0 <= t.sec <= 0x7fff_ffff
  }

  lemma FutureTimeIsExact(now: TimeSpec, timeOutInMs: nat)
    requires now.Normal()
    ensures FutureTime(now, timeOutInMs).Normal()
    ensures FutureTime(now, timeOutInMs).Nanos() == now.Nanos() + timeOutInMs * 1_000_000
    ensures ClockReading(now) && timeOutInMs <= UINT32_MAX ==> Deadline(FutureTime(now, timeOutInMs))
  {
    assert timeOutInMs == timeOutInMs / 1000 * 1000 + timeOutInMs % 1000;
  }

  // ---------- When ranks are the order of time ----------

  /** Does the truncating comparison rank `a` higher exactly if it is the earlier time? */
  predicate RanksByTime(a: TimeSpec, b: TimeSpec) {
    Ranks(a, b) > 0 <==> a.Nanos() < b.Nanos()
  }

  /** What decides: the difference of the seconds as the int that it is truncated to, and the nanoseconds
      when that comes out as zero. */
  lemma RanksByTimeExactly(a: TimeSpec, b: TimeSpec)
    requires a.Normal() && b.Normal()
    ensures var d := b.sec - a.sec;
      var r := Truncate(d);
      RanksByTime(a, b) <==> d == 0 || (if r == 0 then (d > 0 <==> a.nsec < b.nsec) else (d > 0 <==> r > 0))
  {
    var d := b.sec - a.sec;
    assert b.Nanos() - a.Nanos() == d * NSEC_PER_SEC + (b.nsec - a.nsec);
    if d > 0 {
      assert a.Nanos() < b.Nanos();
    } else if d < 0 {
      assert b.Nanos() < a.Nanos();
    }
  }

  /** In particular whenever the seconds differ by what an int can hold. */
  lemma CloseTimesRank(a: TimeSpec, b: TimeSpec)
    requires a.Normal() && b.Normal() && -0x8000_0000 <= b.sec - a.sec < 0x8000_0000
    ensures RanksByTime(a, b)
  {
    RanksByTimeExactly(a, b);
  }

  /** So any two deadlines rank by time whose timers were started within 68 years less the longest timeout. */
  lemma StartedTimersRank(now: TimeSpec, ms: nat, now': TimeSpec, ms': nat)
    requires now.Normal() && now'.Normal() && ms <= UINT32_MAX && ms' <= UINT32_MAX
    requires -MAX_APART <= now'.sec - now.sec <= MAX_APART
    ensures RanksByTime(FutureTime(now, ms), FutureTime(now', ms'))
  {
    FutureTimeIsExact(now, ms);
    FutureTimeIsExact(now', ms');
    DelayInSeconds(now, ms);
    DelayInSeconds(now', ms');
    hide FutureTime, RanksByTime, TimeSpec.Nanos;
    CloseTimesRank(FutureTime(now, ms), FutureTime(now', ms'));
  }

  const MAX_APART := 0x7fff_ffff - UINT32_MAX / 1000 - 1

  lemma DelayInSeconds(now: TimeSpec, ms: nat)
    requires now.Normal() && ms <= UINT32_MAX
    ensures now.sec <= FutureTime(now, ms).sec <= now.sec + UINT32_MAX / 1000 + 1
  {
  }

  /** And two that cannot are 2^31 seconds apart, ranked the wrong way round. */
  lemma FarTimesRankReversed(sec: int)
    ensures !RanksByTime(TimeSpec(sec, 0), TimeSpec(sec + 0x8000_0000, 0))
    ensures Ranks(TimeSpec(sec, 0), TimeSpec(sec + 0x8000_0000, 0)) < 0
  {
    RanksByTimeExactly(TimeSpec(sec, 0), TimeSpec(sec + 0x8000_0000, 0));
  }

  /** Over longer spans ranks are not even transitive: each of these three times outranks the next. */
  lemma FarRanksCycle()
    ensures var a, b, c := TimeSpec(0, 0), TimeSpec(0x6000_0000, 0), TimeSpec(0xc000_0000, 0);
      Ranks(a, b) > 0 && Ranks(b, c) > 0 && Ranks(c, a) > 0
      && RanksByTime(a, b) && RanksByTime(b, c) && !RanksByTime(c, a)
  {
    CloseTimesRank(TimeSpec(0, 0), TimeSpec(0x6000_0000, 0));
    CloseTimesRank(TimeSpec(0x6000_0000, 0), TimeSpec(0xc000_0000, 0));
  }

  /** A timer in the heap: the delegate's identity and its deadline, which never changes. */
  datatype AnyTimer = Timer(id: nat, time: TimeSpec)

  type Timer = t: AnyTimer | Deadline(t.time) witness Timer(0, TimeSpec(1, 0))

  predicate OutRanks(a: Timer, b: Timer) {
    Ranks(a.time, b.time) > 0
  }

  const RANKED: Ranking<Timer> := (a: Timer, b: Timer) => OutRanks(a, b)

  /** On deadlines the truncated comparison is the true order of time, so ranks are a total preorder. */
  lemma TimersRankByTime(a: Timer, b: Timer)
    ensures OutRanks(a, b) <==> a.time.Nanos() < b.time.Nanos()
  {
    CloseTimesRank(a.time, b.time);
  }

  lemma RankedIsPreorder()
    ensures Preorder(RANKED)
  {
    forall a: Timer, b: Timer ensures RANKED(a, b) <==> a.time.Nanos() < b.time.Nanos() {
      TimersRankByTime(a, b);
    }
  }

  // ---------- One container: a heap, a kernel timer and its epoll registration ----------

  datatype Container = Container(heap: Tree<Timer>, polled: bool, armed: Option<TimeSpec>)

  function Top(heap: Tree<Timer>): Option<Timer> {
    if heap.Empty? then None else Some(heap.data)
  }

  /** timerfd_settime: an all-zero time disarms. */
  function SetTime(t: TimeSpec): Option<TimeSpec> {
    if t == TimeSpec(0, 0) then None else Some(t)
  }

  function UpdateSoonest(c: Container, priorTop: Option<Timer>): Container {
    var curTop := Top(c.heap);
    if curTop == priorTop then c
    else if curTop == None then c.(polled := false, armed := SetTime(TimeSpec(0, 0)))
    else if priorTop == None || OutRanks(curTop.value, priorTop.value) then
      c.(polled := true, armed := SetTime(curTop.value.time))
    else c
  }

  function AfterPush(c: Container, t: Timer): Container {
    UpdateSoonest(c.(heap := Pushed(RANKED, c.heap, t)), Top(c.heap))
  }

  function AfterRemove(c: Container, t: Timer): Container {
    var (heap, found) := Removed(RANKED, c.heap, t);
    var c' := c.(heap := heap);
    if Top(c.heap) == (if found then Some(t) else None) then UpdateSoonest(c', None) else c'
  }

  /** popIfOutRanks pops unless the reading of the clock outranks the top. */
  predicate Due(heap: Tree<Timer>, now: Timer) {
    heap.Node? && !OutRanks(now, heap.data)
  }

  /** What the loop of MsgTimerExpire pops once it has asked whether the top is due, in order. */
  function PopsWhileDue(heap: Tree<Timer>, now: Timer): (r: (seq<Timer>, Tree<Timer>))
    requires SizesExact(heap)
    decreases Size(heap)
  {
    if !Due(heap, now) then ([], heap)
    else
      PopSizes(RANKED, heap);
      SizeIsCount(Popped(RANKED, heap));
      var (popped, rest) := PopsWhileDue(Popped(RANKED, heap), now);
      ([heap.data] + popped, rest)
  }

  /** All that the loop pops: the first pop asks nothing. */
  function PopsOnExpiry(heap: Tree<Timer>, now: Timer): (seq<Timer>, Tree<Timer>)
    requires SizesExact(heap)
  {
    if heap.Empty? then ([], heap)
    else
      PopSizes(RANKED, heap);
      var (popped, rest) := PopsWhileDue(Popped(RANKED, heap), now);
      ([heap.data] + popped, rest)
  }

  predicate InTimeOrder(ts: seq<Timer>) {
    forall i, j :: 0 <= i < j < |ts| ==> ts[i].time.Nanos() <= ts[j].time.Nanos()
  }

  /** One pop of a heap of timers, and when it is allowed to happen. */
  lemma OnePop(heap: Tree<Timer>, now: Timer)
    requires Ordered(RANKED, heap) && SizesExact(heap) && heap.Node?
    ensures Ordered(RANKED, Popped(RANKED, heap)) && SizesExact(Popped(RANKED, heap))
    ensures 0 <= Size(Popped(RANKED, heap)) < Size(heap)
    ensures Contents(heap) == multiset{heap.data} + Contents(Popped(RANKED, heap))
    ensures Popped(RANKED, heap).Node? ==> heap.data.time.Nanos() <= Popped(RANKED, heap).data.time.Nanos()
    ensures Due(heap, now) <==> heap.data.time.Nanos() <= now.time.Nanos()
  {
    RankedIsPreorder();
    PopSizes(RANKED, heap);
    SizeIsCount(Popped(RANKED, heap));
    PopContents(RANKED, heap);
    PopKeepsOrder(RANKED, heap);
    TimersRankByTime(now, heap.data);
    if Popped(RANKED, heap).Node? {
      TimersRankByTime(Popped(RANKED, heap).data, heap.data);
    }
  }

  lemma Prepend(t: Timer, ts: seq<Timer>)
    requires InTimeOrder(ts) && forall u :: u in ts ==> t.time.Nanos() <= u.time.Nanos()
    ensures InTimeOrder([t] + ts) && multiset([t] + ts) == multiset{t} + multiset(ts) && ([t] + ts)[1..] == ts
  {
  }

  lemma NothingToOrder()
    ensures InTimeOrder([])
  {
  }

  /** Pops that ask first are due, in time order, no earlier than `from`, and leave only later timers. */
  lemma {:induction false} PopsWhileDueInOrder(heap: Tree<Timer>, now: Timer, from: int)
    requires Ordered(RANKED, heap) && SizesExact(heap)
    requires heap.Node? ==> from <= heap.data.time.Nanos()
    ensures var (popped, rest) := PopsWhileDue(heap, now);
      && Ordered(RANKED, rest) && SizesExact(rest)
      && (forall t :: t in popped ==> from <= t.time.Nanos() <= now.time.Nanos())
      && InTimeOrder(popped)
      && (rest.Node? ==> rest.data.time.Nanos() > now.time.Nanos())
      && Contents(heap) == multiset(popped) + Contents(rest)
    decreases Size(heap)
  {
    hide Ordered, SizesExact, Popped, InTimeOrder, OutRanks, TimeSpec.Nanos;
    if heap.Node? {
      OnePop(heap, now);
    }
    if Due(heap, now) {
      hide Contents;
      PopsWhileDueInOrder(Popped(RANKED, heap), now, heap.data.time.Nanos());
      Prepend(heap.data, PopsWhileDue(Popped(RANKED, heap), now).0);
    } else {
      NothingToOrder();
    }
  }

  /** An expire message handled at `now` pops in time order, leaves only timers later than `now`, and
      every pop is due, the first one exactly when the top was due. */
  lemma ExpiryPopsInOrder(heap: Tree<Timer>, now: Timer)
    requires Ordered(RANKED, heap) && SizesExact(heap)
    ensures Ordered(RANKED, PopsOnExpiry(heap, now).1) && SizesExact(PopsOnExpiry(heap, now).1)
    ensures InTimeOrder(PopsOnExpiry(heap, now).0)
    ensures forall t :: t in Contents(PopsOnExpiry(heap, now).1) ==> t.time.Nanos() > now.time.Nanos()
    ensures PopsOnExpiry(heap, now).0 == [] <==> heap.Empty?
    ensures heap.Node? ==> PopsOnExpiry(heap, now).0[0] == heap.data
    ensures heap.Node? ==> forall t :: t in PopsOnExpiry(heap, now).0[1..] ==> t.time.Nanos() <= now.time.Nanos()
  {
    NothingToOrder();
    if heap.Node? {
      hide *;
      OnePop(heap, now);
      var heap' := Popped(RANKED, heap);
      ExpiryStep(heap, now);
      PopsWhileDueInOrder(heap', now, heap.data.time.Nanos());
      Prepend(heap.data, PopsWhileDue(heap', now).0);
      AllLater(PopsWhileDue(heap', now).1, now);
    }
  }

  /** What an expire message pops and what it leaves are together what was there. */
  lemma ExpiryLosesNothing(heap: Tree<Timer>, now: Timer)
    requires Ordered(RANKED, heap) && SizesExact(heap)
    ensures Contents(heap) == multiset(PopsOnExpiry(heap, now).0) + Contents(PopsOnExpiry(heap, now).1)
  {
    if heap.Node? {
      hide *;
      OnePop(heap, now);
      var heap' := Popped(RANKED, heap);
      ExpiryStep(heap, now);
      PopsWhileDueInOrder(heap', now, heap.data.time.Nanos());
      Prepend(heap.data, PopsWhileDue(heap', now).0);
    }
  }

  lemma ExpiryStep(heap: Tree<Timer>, now: Timer)
    requires SizesExact(heap) && heap.Node? && SizesExact(Popped(RANKED, heap))
    ensures PopsOnExpiry(heap, now).0 == [heap.data] + PopsWhileDue(Popped(RANKED, heap), now).0
    ensures PopsOnExpiry(heap, now).1 == PopsWhileDue(Popped(RANKED, heap), now).1
  {
  }

  lemma AllLater(heap: Tree<Timer>, now: Timer)
    requires Ordered(RANKED, heap) && (heap.Node? ==> heap.data.time.Nanos() > now.time.Nanos())
    ensures forall t :: t in Contents(heap) ==> t.time.Nanos() > now.time.Nanos()
  {
    forall t | t in Contents(heap) ensures t.time.Nanos() > now.time.Nanos() {
      NoneBeforeTop(heap, t);
    }
  }

  lemma NoneBeforeTop(heap: Tree<Timer>, t: Timer)
    requires Ordered(RANKED, heap) && t in Contents(heap)
    ensures heap.Node? && heap.data.time.Nanos() <= t.time.Nanos()
  {
    RankedIsPreorder();
    NothingOutranksTop(RANKED, heap, t);
    TimersRankByTime(t, heap.data);
  }

  /** Messages change the heap by the heap's own operations; the arming looks at nothing but its top. */
  lemma HeapsAfter(c: Container, t: Timer)
    ensures AfterPush(c, t).heap == Pushed(RANKED, c.heap, t)
    ensures AfterRemove(c, t).heap == Removed(RANKED, c.heap, t).0
  {
  }

  lemma PushedHeap(heap: Tree<Timer>, t: Timer)
    requires Ordered(RANKED, heap) && SizesExact(heap)
    ensures Ordered(RANKED, Pushed(RANKED, heap, t)) && SizesExact(Pushed(RANKED, heap, t))
    ensures Contents(Pushed(RANKED, heap, t)) == Contents(heap) + multiset{t}
  {
    hide *;
    RankedIsPreorder();
    PushKeepsOrder(RANKED, heap, t);
    PushSizes(RANKED, heap, t);
    PushContents(RANKED, heap, t);
  }

  lemma RemovedHeap(heap: Tree<Timer>, t: Timer)
    requires Ordered(RANKED, heap) && SizesExact(heap)
    ensures Ordered(RANKED, Removed(RANKED, heap, t).0) && SizesExact(Removed(RANKED, heap, t).0)
    ensures Contents(Removed(RANKED, heap, t).0) == Contents(heap) - multiset{t}
  {
    hide *;
    RankedIsPreorder();
    RemoveKeepsOrder(RANKED, heap, t);
    RemoveSizes(RANKED, heap, t);
    RemoveFindsIt(RANKED, heap, t);
    RemoveContents(RANKED, heap, t);
    if t in Contents(heap) {
      TakenOut(Contents(Removed(RANKED, heap, t).0), Contents(heap), t);
    }
  }

  // ---------- Arming ----------

  /** The kernel will report exactly the top's deadline. */
  predicate Armed(c: Container) {
    c.heap.Node? ==> c.polled && c.armed == Some(c.heap.data.time)
  }

  /** Told that there was no top before, updateSoonestTime arms for whatever top there is. */
  lemma UpdateFromNoneArms(c: Container)
    ensures Armed(UpdateSoonest(c, None))
  {
  }

  lemma PushKeepsArmed(c: Container, t: Timer)
    requires Armed(c)
    ensures Armed(AfterPush(c, t))
  {
    PushTop(RANKED, c.heap, t);
  }

  lemma RemoveKeepsArmed(c: Container, t: Timer)
    requires Armed(c)
    ensures Armed(AfterRemove(c, t))
  {
    RemoveContents(RANKED, c.heap, t);
    if c.heap.Node? && c.heap.data != t {
      RemoveKeepsTop(RANKED, c.heap, t);
    }
  }

  /** updateSoonestTime, by the top there was and the top there is: the kernel is disarmed when the last timer has
      gone, set for a top that is new or earlier, and left alone otherwise. */
  lemma UpdateFollowsTop(c: Container, priorTop: Option<Timer>)
    ensures var c' := UpdateSoonest(c, priorTop);
      && c'.heap == c.heap
      && if Top(c.heap) == priorTop then c' == c
         else if c.heap.Empty? then !c'.polled && c'.armed == None
         else if priorTop.None? || c.heap.data.time.Nanos() < priorTop.value.time.Nanos() then Armed(c')
         else c' == c
  {
    if c.heap.Node? && priorTop.Some? {
      TimersRankByTime(c.heap.data, priorTop.value);
    }
    hide OutRanks, TimeSpec.Nanos;
  }

  /** A push or a removal sets the kernel exactly if it puts another timer on top, and then for that one. */
  lemma KernelFollowsTop(c: Container, t: Timer)
    ensures var c' := AfterPush(c, t);
      if c.heap.Node? && !OutRanks(t, c.heap.data) then c'.polled == c.polled && c'.armed == c.armed
      else c'.polled && c'.armed == Some(t.time)
    ensures var c' := AfterRemove(c, t);
      if c.heap.Node? && c.heap.data == t && c'.heap.Node? then c'.polled && c'.armed == Some(c'.heap.data.time)
      else c'.polled == c.polled && c'.armed == c.armed
  {
    PushTop(RANKED, c.heap, t);
    HeapsAfter(c, t);
    TimersRankByTime(t, t);
    hide Pushed, Ranks;
  }

  /** The branch of updateSoonestTime that disarms is never taken by a message: its callers reach it with
      a top, or claim that there was none. */
  lemma MessagesNeverDisarm(c: Container, t: Timer)
    ensures c.polled ==> AfterPush(c, t).polled && AfterRemove(c, t).polled && UpdateSoonest(c, None).polled
    ensures c.armed.Some? ==>
      AfterPush(c, t).armed.Some? && AfterRemove(c, t).armed.Some? && UpdateSoonest(c, None).armed.Some?
  {
    PushTop(RANKED, c.heap, t);
  }

  /** So a container that a message leaves empty is polled and armed exactly as it was before. */
  lemma EmptiedStaysArmed(c: Container, t: Timer)
    ensures AfterRemove(c, t).heap.Empty? ==>
      AfterRemove(c, t).polled == c.polled && AfterRemove(c, t).armed == c.armed
    ensures c.heap.Empty? ==> UpdateSoonest(c, None) == c
    ensures AfterPush(c, t).heap.Node?
  {
    PushTop(RANKED, c.heap, t);
    HeapsAfter(c, t);
  }

  /** A timer pushed into an idle container and removed leaves it empty and armed. */
  lemma RemovedTimerStaysArmed(t: Timer)
    ensures AfterRemove(AfterPush(Container(Empty, false, None), t), t) == Container(Empty, true, Some(t.time))
  {
    EmptiedStaysArmed(AfterPush(Container(Empty, false, None), t), t);
  }
}
