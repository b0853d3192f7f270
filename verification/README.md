# Verified models of the recovery updater, the GPS stack and the string shims

A Dafny model of the parts of this device tree that compute or keep a protocol, with proofs of what they
promise and, where the code falls short of the promise, the exact condition under which it meets it. Nothing
here was executed; `dafny verify dfyconfig.toml` checks every claim.

Code that changes things step by step is written as methods over arrays, nodes and objects, each proved to
compute a function of the old state; the theorems are about those functions.

- `BoyerMoore.dfy`: the text search of `recovery/recovery_updater.cpp`. Any offset it returns is a real
  occurrence, for every pattern. It finds the first occurrence in every text if and only if the pattern is
  `SkipSafe`, a condition on the pattern alone that every pattern without borders and zero bytes meets and
  that `"aba"` does not. `bm_make_delta2` compares from `pat + p` where the method calls for `pat + p + 1`;
  with that comparison all patterns are found.
- `LocHeap.dfy`: the pointer heap under the timers. Over every run of pushes, pops and removals it behaves as
  a bag that hands out an element of highest rank, and it stays shallow while elements are only pushed.
- `Deadlines.dfy`, `LocTimerService.dfy`, `LocTimerInvariant.dfy`, `LocTimerProperties.dfy`,
  `LocTimerArming.dfy`, `LocTimerMemory.dfy`, `LocTimerObjects.dfy`: the timer service as a state machine whose
  steps are client calls, messages, the single turns of the expiry loop and the three statements of the poll
  thread, in any order, and as objects that point to each other and are proved to take those steps. No timer
  is lost, each has one life, nothing deleted is used, and lock counts are exact; an expire message calls back
  exactly the running timers that are due and that nobody stops first, in order of time, whatever call-backs
  and other threads do between its turns. A timer is due its timeout after its start, to the nanosecond, and
  runs on until its client stops it or goes, or it is popped. Three things are not as one might expect, and each is pinned down.
  The first pop of an expire message asks nothing, so a timer is called back early exactly when the top was
  not due. An emptied container is disarmed only by the poll thread. And the ranks, which truncate
  seconds to an int, are the order of time exactly under a stated condition on the two times.
- `Utf16To8.dfy`, `Utf8To16.dfy`, `UtfRoundTrip.dfy`: the codecs of `libshims`. Decoding undoes encoding for
  all units, the two length functions fit the two copies, and standard text survives if and only if it holds
  neither U+10FFFE nor U+10FFFF. The encodings meant are section 4.4.7 of the Java Virtual Machine
  Specification, section 3 of RFC 3629 and section 2.1 of RFC 2781.
- `Agps.dfy`, `AgpsRuns.dfy`, `AgpsDuplicates.dfy`, `AgpsNotices.dfy`, `AgpsOrder.dfy`, `AgpsObjects.dfy`: the
  AGPS connection manager with its two base machines. Without modem restarts every subscription takes its course if and only if no handle is asked
  for while it is listed, and always has exactly one terminal notice, or is listed, if and only if no request
  for a listed handle reaches a machine. What every step says to every handle is stated handle by handle; an
  emergency subscription that is given up stays listed and hears of its close only by a report.
- `LocUnorderedSetMap.dfy`, `SystemStatusCache.dfy`, `SystemStatusOsObserver.dfy`: the cache of the system status
  observer and its subscriptions, kept in two maps that must be inverse relations. No client is ever told of an
  item that it does not want, and as long as the maps agree each is told of every change to those it wants. `LocUnorderedSetMap::update` is documented (lines 173-175)
  to return the values that the entry loses but returns those that it keeps; so `updateSubscription` keeps the
  maps inverse if and only if the client had no items before. Whatever becomes of the maps, a
  request keeps the framework registered for exactly what somebody wants unless a new subscription object
  brings along more, or the request asks for the mere data of an item that nobody wanted before and
  `requestData` registers nothing, a point that `IDataItemSubscription.h` leaves open and the model therefore
  takes as a parameter.
- `GnssAdapter.dfy`: the tracking multiplexer, which keeps one engine at the smallest interval of all sessions, and
  the sessions at the options last accepted.
- `Wrappers.dfy`: the option type they share.

## Model

| member | source | states |
|---|---|---|
| BoyerMoore.MaxSuffixLen | recovery/recovery_updater.cpp:51-60 | the result is the length, at most p, of the agreement between the text ending at str[p] and the end of str, and it cannot be extended |
| BoyerMoore.BmMakeDelta1 | recovery/recovery_updater.cpp:65-74 | every entry is the distance from the end of the pattern to the last such character before it, or the pattern's length |
| BoyerMoore.BadCharacterIsLast | recovery/recovery_updater.cpp:62-64 | that distance does lead to the character, and no later position before the end holds it |
| BoyerMoore.FillPrefixShifts | recovery/recovery_updater.cpp:79-87 | the first loop writes, for every position, the shift of the first position from there on that passes the prefix comparison |
| BoyerMoore.FillSuffixShifts | recovery/recovery_updater.cpp:89-95 | the second loop overwrites an entry exactly with its least strong good-suffix shift |
| BoyerMoore.BmMakeDelta2 | recovery/recovery_updater.cpp:77-96 | the finished table: least strong shift if there is one, prefix shift otherwise, plus the distance to the end of the pattern |
| BoyerMoore.LeastStrongIsLeast | recovery/recovery_updater.cpp:89-95 | the shift in the table is strong, no smaller one is, and there is none only if no shift is strong |
| BoyerMoore.StrncmpStopsAtZero | recovery/recovery_updater.cpp:83 | the comparison of the tail with the pattern succeeds if and only if they agree up to and including the first zero byte, or to the end |
| BoyerMoore.SkipIsLarger | recovery/recovery_updater.cpp:121 | a turn that fails moves on by the larger of the two table entries |
| BoyerMoore.UnborderedTable | recovery/recovery_updater.cpp:77-96 | without borders and zero bytes every entry is the least strong shift, or m-1 (1 at position 0) when there is none |
| BoyerMoore.CompareBackwards | recovery/recovery_updater.cpp:113-117 | the inner loop stops at the last position where pattern and text disagree, or before both |
| BoyerMoore.SearchLoop | recovery/recovery_updater.cpp:111-124 | the search stays in bounds and in int, terminates, and returns what the alignments it visits determine |
| BoyerMoore.BmSearch | recovery/recovery_updater.cpp:98-125 | any offset returned is an occurrence; for a safe pattern it is the first one, and none is returned exactly when there is none |
| BoyerMoore.SearchIsSound | recovery/recovery_updater.cpp:111-124 | for every pattern, bordered or not, what the search reports is a real occurrence |
| BoyerMoore.SkipMissesNothing | recovery/recovery_updater.cpp:121 | the larger of both table entries never passes over an occurrence of a safe pattern |
| BoyerMoore.SearchExactlyWhenSafe | recovery/recovery_updater.cpp:77-125 | the search finds the first occurrence in every text if and only if the pattern is safe |
| BoyerMoore.UnsafeMisses | recovery/recovery_updater.cpp:83 | every unsafe pattern is missed in a text built from it |
| BoyerMoore.BorderedPatternMissed | recovery/recovery_updater.cpp:83 | "aba" is not found in a text of five bytes that ends with it |
| BoyerMoore.ModemVersionSearchIsExact | recovery/recovery_updater.cpp:45 | the one pattern the updater searches for is always found where it first occurs |
| BoyerMoore.RepairedSearchFindsFirst | recovery/recovery_updater.cpp:83 | with the comparison one position further on every pattern is found where it first occurs |
| LocHeap.PushContents | gps/utils/LocHeap.cpp:107-124 | a push adds exactly the new element, whatever the ranks |
| LocHeap.PushSizes | gps/utils/LocHeap.cpp:107-124 | a push keeps every mSize exact |
| LocHeap.PushKeepsOrder | gps/utils/LocHeap.cpp:107-124 | a push keeps every parent unoutranked by its children |
| LocHeap.PushEvensOut | gps/utils/LocHeap.cpp:113-123 | a push makes the smaller subtree grow, and of two as large the left one |
| LocHeap.PopContents | gps/utils/LocHeap.cpp:134-164 | a pop takes out exactly the element at the top |
| LocHeap.PopSizes | gps/utils/LocHeap.cpp:134-164 | a pop keeps every mSize exact |
| LocHeap.PopKeepsOrder | gps/utils/LocHeap.cpp:134-164 | a pop keeps the order, and the new top does not outrank the old |
| LocHeap.NextTop | gps/utils/LocHeap.cpp:134-164 | the next top is the higher-ranked child, and of two that rank alike the right one |
| LocHeap.RemoveContents | gps/utils/LocHeap.cpp:170-193 | a removal takes out exactly its element or leaves the tree as it was |
| LocHeap.RemoveFindsIt | gps/utils/LocHeap.cpp:176-184 | in a heap the element is found exactly if it is there, although the search prunes by rank |
| LocHeap.RemoveKeepsOrder | gps/utils/LocHeap.cpp:170-193 | a removal keeps the order |
| LocHeap.RemoveSizes | gps/utils/LocHeap.cpp:186-189 | a removal keeps every mSize exact |
| LocHeap.NothingOutranksTop | gps/utils/LocHeap.cpp:237-243 | no element of a heap outranks the one at its top |
| LocHeap.RunIsLegal | gps/utils/LocHeap.cpp:228-267 | over every run of push, pop and remove the heap returns what a bag with a highest rank may return, and ends as a heap of the same elements |
| LocHeap.PushesStayShallow | gps/utils/LocHeap.cpp:113-123 | after n pushes siblings differ in size by at most one, left not smaller, and a height h means 2^(h-1) <= n |
| LocHeap.LocHeapNode.Swap | gps/utils/LocHeap.cpp:88-92 | exchanges the data of two nodes and no links |
| LocHeap.LocHeapNode.Push | gps/utils/LocHeap.cpp:107-124 | rewriting links in place, makes of the tree what the push function says, of old and new nodes |
| LocHeap.LocHeapNode.Pop | gps/utils/LocHeap.cpp:134-164 | what stays under the caller's link is the popped tree; the popped node carries the old top's data, has no children and is in that tree no more |
| LocHeap.LocHeapNode.Remove | gps/utils/LocHeap.cpp:170-193 | the removed node carries the data asked for, has no children and is in the tree no more; null exactly if the search function fails |
| LocHeap.LocHeapNode.CheckNodes | gps/utils/LocHeap.cpp:197-220 | answers true if and only if order and sizes hold in the whole tree |
| LocHeap.LocHeap.Push | gps/utils/LocHeap.cpp:228-235 | the heap object does what the run function says of a push |
| LocHeap.LocHeap.Peek | gps/utils/LocHeap.cpp:237-243 | the top's data, or nothing from an empty heap |
| LocHeap.LocHeap.Pop | gps/utils/LocHeap.cpp:245-254 | what the run function says of a pop; the node to be deleted is out of the heap and takes no other with it |
| LocHeap.LocHeap.Remove | gps/utils/LocHeap.cpp:256-267 | what the run function says of a removal; the node to be deleted is out of the heap and takes no other with it |
| Deadlines.FutureTimeIsExact | gps/utils/LocTimer.cpp:558-564 | the deadline is normalised and is now plus the delay, to the nanosecond |
| Deadlines.RanksByTimeExactly | gps/utils/LocTimer.cpp:509-523 | on any two normalised times the truncating comparison agrees with the order of time if and only if the seconds are equal, or the truncated difference of the seconds has their sign, or it is zero and the nanoseconds happen to agree |
| Deadlines.CloseTimesRank | gps/utils/LocTimer.cpp:509-523 | it does whenever the seconds differ by what an int can hold |
| Deadlines.StartedTimersRank | gps/utils/LocTimer.cpp:557-564 | it does for any two deadlines whose timers were started within 68 years less the longest timeout |
| Deadlines.FarTimesRankReversed | gps/utils/LocTimer.cpp:515 | times 2^31 seconds apart are ranked the wrong way round |
| Deadlines.FarRanksCycle | gps/utils/LocTimer.cpp:515 | over longer spans ranks are not transitive: three times each outrank the next in a circle |
| Deadlines.ExpiryPopsInOrder | gps/utils/LocTimer.cpp:363-377 | an expire message pops in order of time, the top first; every later pop is due and every timer left is in the future |
| Deadlines.ExpiryLosesNothing | gps/utils/LocTimer.cpp:370-375 | what is popped and what is left are together what was there |
| Deadlines.UpdateFromNoneArms | gps/utils/LocTimer.cpp:283-309 | told that there was no top, updateSoonestTime polls and arms for the current one |
| Deadlines.UpdateFollowsTop | gps/utils/LocTimer.cpp:283-309 | by the top there was and the top there is: the kernel is disarmed when the last timer has gone, set for a new or earlier top, and left alone otherwise |
| Deadlines.KernelFollowsTop | gps/utils/LocTimer.cpp:320-349 | a push or a removal sets the kernel exactly if it puts another timer on top, and then for that one |
| Deadlines.PushKeepsArmed | gps/utils/LocTimer.cpp:320-324 | a handled push leaves the kernel set for exactly the earliest deadline if it was before |
| Deadlines.RemoveKeepsArmed | gps/utils/LocTimer.cpp:337-349 | so does a handled removal |
| Deadlines.MessagesNeverDisarm | gps/utils/LocTimer.cpp:292-297 | none of the three callers ever reaches the branch that disarms |
| Deadlines.EmptiedStaysArmed | gps/utils/LocTimer.cpp:337-349 | a container that a removal leaves empty is polled and armed exactly as it was before, whatever it was |
| Deadlines.RemovedTimerStaysArmed | gps/utils/LocTimer.cpp:337-349 | so a timer pushed into an idle container and removed leaves it empty and armed |
| LocTimerArming.DisarmedExactlyByPolling | gps/utils/LocTimer.cpp:380-384 | over any stretch of a run in which a container stays empty, it is disarmed if and only if it was so at the start or the poll thread has disarmed it since; likewise for its registration |
| LocTimerArming.WokenIsQueued | gps/utils/LocTimer.cpp:450-474 | when the poll thread waits again, it has queued an expire message for every container it was woken for |
| LocTimerInvariant.StepKeepsInv | gps/utils/LocTimer.cpp:283-591 | every step of every thread, a single turn of the expiry loop included, keeps the service's invariant and follows no reference to a deleted object |
| LocTimerInvariant.RunKeepsInv | gps/utils/LocTimer.cpp:283-591 | the invariant holds at every point of every interleaving |
| LocTimerInvariant.StartSetsDeadline | gps/utils/LocTimer.cpp:553-576 | the timer of a start is due exactly the timeout after the start, to the nanosecond, and its time is normalised |
| LocTimerProperties.NoTimerIsLost | gps/utils/LocTimer.cpp:283-385 | while a heap has timers, its earliest deadline is armed and polled, or an expire message is queued, about to be, or being handled |
| LocTimerProperties.RunningTimerIsKept | gps/utils/LocTimer.cpp:478-488 | a started, unstopped timer is waiting to be pushed or is in its heap |
| LocTimerProperties.NothingDueAtRest | gps/utils/LocTimer.cpp:283-385 | with an empty queue, a waiting poll thread and no descriptor to report, no running timer is due |
| LocTimerProperties.OneLifePerTimer | gps/utils/LocTimer.cpp:337-591 | at most one stop per start, a call-back exactly if that stop was the expiry's, at most one deletion, after the stop, and no reference left by then |
| LocTimerProperties.LockCountsItsHolders | gps/utils/LocSharedLock.h:48-52 | a lock exists exactly while held and counts its client and that client's live delegates |
| LocTimerProperties.TimerStays | gps/utils/LocTimer.cpp:176-194 | over every run a timer keeps the deadline it was started with for as long as it lives |
| LocTimerProperties.CalledBackInTime | gps/utils/LocTimer.cpp:358-394 | a timer is called back no earlier than its timeout after its start, unless by the first pop of an expire message |
| LocTimerProperties.RunsOnExactly | gps/utils/LocTimer.cpp:526-591 | a running timer goes on running in a step if and only if its client does not stop or go and the step does not pop it |
| LocTimerProperties.StoppedNeverFires | gps/utils/LocTimer.cpp:526-591 | a timer whose client has stopped it, or gone, is never called back |
| LocTimerProperties.ExpiryCallsBackDue | gps/utils/LocTimer.cpp:363-377 | over the whole handling of an expire message, whatever happens between its turns, exactly those timers are called back that were running and due, or on top, when it was taken, and that no client has stopped; all that is left was in the future then, and the kernel is armed |
| LocTimerProperties.PopsInOrder | gps/utils/LocTimer.cpp:370-375 | the pops of one handling are in order of time, whatever happens between them |
| LocTimerProperties.TurnCalls | gps/utils/LocTimer.cpp:370-375 | a turn calls back the timer that it pops if that is running, and nobody else |
| LocTimerProperties.FiresEarlyExactlyWhenTopIsNotDue | gps/utils/LocTimer.cpp:370 | a step of a run calls some timer back early if and only if it is the first turn for an expire message and finds a running timer on top that is not due |
| LocTimerProperties.OtherStepsCallNobody | gps/utils/LocTimer.cpp:526-538 | no step but a turn of the expiry loop calls anybody back |
| LocTimerProperties.TimerCanFireEarly | gps/utils/LocTimer.cpp:370 | a run of thirteen steps in which a timer is called back a second early |
| LocTimerMemory.LocTimerContainer.UpdateSoonestTime | gps/utils/LocTimer.cpp:283-309 | the object's registration and arming become what the function says |
| LocTimerMemory.LocTimerContainer.ProcPush | gps/utils/LocTimer.cpp:320-324 | the container object after a push message |
| LocTimerMemory.LocTimerContainer.ProcRemove | gps/utils/LocTimer.cpp:337-346 | the container object after a remove message |
| LocTimerMemory.LocTimerContainer.PopIfOutRanks | gps/utils/LocTimer.cpp:387-394 | pops the top exactly if now does not outrank it |
| LocTimerMemory.Memory.NewClient | gps/utils/LocTimer.cpp:542-543 | a new client and its lock are known under their identity, and no other object has changed in the table of all that is alive |
| LocTimerMemory.Memory.NewDelegate | gps/utils/LocTimer.cpp:478-488 | client, delegate, container and lock point to each other, and the lock counts one more |
| LocTimerMemory.Memory.Part | gps/utils/LocTimer.cpp:491-507 | client and delegate forget each other; the container is handed out for the removal only the first time |
| LocTimerMemory.Memory.DropLock | gps/utils/LocSharedLock.h:52 | one share less, and no lock after the last |
| LocTimerMemory.Memory.DeleteDelegate | gps/utils/LocTimer.cpp:186 | the delegate is gone and its lock has one share less |
| LocTimerObjects.LocTimers.CreateClient | gps/utils/LocTimer.cpp:542-543 | the objects after a new client stand for the state after that step, provided that nothing dangles |
| LocTimerObjects.LocTimers.StartClient | gps/utils/LocTimer.cpp:553-576 | success exactly if no timer runs; then the client has a new timer due the timeout after the start, a shared lock and a push message, and otherwise nothing changes |
| LocTimerObjects.LocTimers.StopClient | gps/utils/LocTimer.cpp:578-591 | success exactly if a timer runs, which is forgotten and sent for removal once |
| LocTimerObjects.LocTimers.DestroyClient | gps/utils/LocTimer.cpp:545-551 | a stop, and the client's share of the lock given up |
| LocTimerObjects.LocTimers.ExpireDelegate | gps/utils/LocTimer.cpp:526-538 | the call-back follows only a stop that succeeded |
| LocTimerObjects.LocTimers.FreeDelegate | gps/utils/LocTimer.cpp:347-348 | the objects after the deletion of a delegate stand for the state without it |
| LocTimerObjects.LocTimers.TakeTurn | gps/utils/LocTimer.cpp:370-376 | the service after one turn of the expiry loop, or after what follows it |
| LocTimerObjects.LocTimers.ProcExpire | gps/utils/LocTimer.cpp:370-376 | the loop, if nothing comes between its turns, takes them all |
| LocTimerObjects.HandledPops | gps/utils/LocTimer.cpp:370-376 | it then leaves exactly what is not due after the first pop, and the kernel armed |
| LocTimerObjects.LocTimers.ProcMsg | gps/utils/LocTimer.cpp:320-367 | the service after the first message of the queue, of any kind, up to the expiry loop |
| Utf16To8.Strnlen16To8 | libshims/strdup16to8.cpp:29-94 | the exact encoded length, or SIZE_MAX - 1 when that does not fit below it, on both paths and despite wrap-around |
| Utf16To8.Strncpy16To8 | libshims/strdup16to8.cpp:109-140 | writes the encoding and one terminator, and nothing beyond |
| Utf16To8.Strndup16To8 | libshims/strdup16to8.cpp:146-168 | a new buffer filled exactly to its last byte, or null on a null argument, overflow or lack of memory |
| Utf16To8.EncodeIsZeroFree | libshims/strdup16to8.cpp:121-130 | no byte before the terminator is zero, whatever the units |
| UtfRoundTrip.UnitsAreWrittenAsUtf8 | libshims/strdup16to8.cpp:121-131 | each unit is written as RFC 3629 writes a value as large, except that zero takes the two bytes C0 80 |
| Utf8To16.PackedLengthByRange | libshims/strdup8to16.cpp:31 | the packed word gives 1, 2, 3 or 4 by the leading bits, 4 also for invalid leaders |
| Utf8To16.Strlen8To16 | libshims/strdup8to16.cpp:69-100 | the loop with its counter of expected bytes computes the prediction |
| Utf8To16.GetUtf32FromUtf8 | libshims/strdup8to16.cpp:113-144 | value and next position as the decoding function says, for malformed input too |
| Utf8To16.TakeAllOrReplace | libshims/strdup8to16.cpp:136-141 | either every expected extension byte is there and makes the value, or the replacement character is returned |
| UtfRoundTrip.HeadDecodes | libshims/strdup8to16.cpp:113-144 | a complete sequence gives its value and its length; anything else gives the replacement, for one lone extension byte or for a leader with the extension bytes that are there |
| UtfRoundTrip.MalformedIsReplaced | libshims/strdup8to16.cpp:113-175 | what is no complete sequence for a value up to the limit becomes one U+FFFD, and decoding goes on behind it |
| Utf8To16.PairsComeFromFours | libshims/strdup8to16.cpp:162-172 | two units are written only for a complete sequence of four in range |
| Utf8To16.DecodeFits | libshims/strdup8to16.cpp:69-178 | for every string the decoder writes at most the predicted number of units, and that many exactly if every byte announcing four starts a sequence for 0x10000 to 0x10FFFD |
| Utf8To16.PredictionIsExact | libshims/strdup8to16.cpp:69-178 | the prediction exceeds the output by exactly the number of bytes that announce four in vain |
| Utf8To16.Strcpy8To16 | libshims/strdup8to16.cpp:152-178 | the destination of predicted size holds the decoding, out_len is its length, and the rest is untouched |
| Utf8To16.Strdup8To16 | libshims/strdup8to16.cpp:44-61 | a buffer that holds the decoding; null on a null argument or overflow of the size in bytes; a write through null exactly when malloc fails for a string that is not empty |
| UtfRoundTrip.DecodeUndoesEncode | libshims/strdup16to8.cpp:109-140 | strcpy8to16 undoes strncpy16to8 on all sequences of units, zeros and lone surrogates included |
| UtfRoundTrip.DecodesStandard | libshims/strdup8to16.cpp:152-178 | the RFC 3629 bytes of any text decode to its units, with one replacement for each of the two highest scalar values |
| UtfRoundTrip.StandardTextSurvives | libshims/strdup8to16.cpp:37 | that is its RFC 2781 encoding if and only if the text holds neither U+10FFFE nor U+10FFFF |
| UtfRoundTrip.StandardLengthPredicted | libshims/strdup8to16.cpp:69-100 | strlen8to16 of the RFC 3629 bytes is the length of the RFC 2781 encoding of any text |
| Agps.SubscribeTracks | gps/gnss/Agps.cpp:72-114 | a new subscription waits, or is opened at once if the connection is there; no other is told anything |
| Agps.UnsubscribeTracks | gps/gnss/Agps.cpp:116-178 | the subscriber is closed and deleted, or stays, inactive, for the end of the release |
| Agps.GrantedTracks | gps/gnss/Agps.cpp:180-201 | exactly the active waiting subscribers are opened |
| Agps.DroppedTracks | gps/gnss/Agps.cpp:216-223 | a forced release or a denial tells each subscriber once and keeps none |
| Agps.ClosedTracks | gps/gnss/Agps.cpp:225-241 | the end of a release closes exactly those who waited for it |
| Agps.UnsubscribeKeeps | gps/gnss/Agps.cpp:116-178 | an unsubscribe keeps the machine's invariant; during a release it never empties the list |
| Agps.SubscribeBalance | gps/gnss/Agps.cpp:77-88 | a connection is requested exactly when the machine comes to want one |
| Agps.UnsubscribeBalance | gps/gnss/Agps.cpp:139-148 | a connection is released exactly when the last active subscriber leaves |
| Agps.ReleasedBalance | gps/gnss/Agps.cpp:203-248 | a RELEASED event in ACQUIRED, and no other, loses a held connection |
| Agps.DeniedBalance | gps/gnss/Agps.cpp:250-290 | a DENIED event in PENDING, and no other, loses a requested connection |
| AgpsRuns.RunKeepsMachines | gps/gnss/Agps.cpp:72-290 | over every run without modem restart: distinct handles, nobody listed in RELEASED, someone active in PENDING and ACQUIRED, someone inactive in RELEASING |
| AgpsRuns.RunFollowsPhases | gps/gnss/Agps.cpp:72-386 | over every run without modem restart or duplicate handles every subscription goes from waiting to open and closed, or to open-failure, and is listed exactly in between, in one machine, in a phase that fits the machine's state |
| AgpsRuns.EachEndsOnce | gps/gnss/Agps.cpp:316-386 | as many terminal notices as requests for a handle, less one while it is listed |
| AgpsRuns.OpenedOnceNeverFailed | gps/gnss/Agps.cpp:358-371 | between an open-success and any later open-success or open-failure for a handle it was asked for anew |
| AgpsDuplicates.OnCourseExactlyWithoutDuplicates | gps/gnss/Agps.cpp:72-386 | over every run without modem restart every subscription takes its course if and only if no handle is asked for while it is in a list |
| AgpsDuplicates.EndsOnceExactly | gps/gnss/Agps.cpp:770-796 | over every run without modem restart the count of terminal notices is right at every point, for every handle, if and only if no request for a listed handle reaches a machine that exists |
| AgpsDuplicates.DuplicateOpenedTwice | gps/gnss/Agps.cpp:97-103 | a run in which a listed, open subscription is asked for again: it is opened twice, off its course, and its count is wrong |
| AgpsNotices.StepSays | gps/gnss/Agps.cpp:72-386 | what one step says to a handle, and nothing else: which status, with the type of its machine, by the state and the handle's own subscription; an unsuccessful close for an unknown handle |
| AgpsNotices.StepLists | gps/gnss/Agps.cpp:72-436 | whom one step lists under a handle; a new subscription waits for its close if and only if it was asked for as an emergency |
| AgpsNotices.StepCreates | gps/gnss/Agps.cpp:703-737 | machines come only by their creation, the AGNSS one only for a capable device, and begin empty and released |
| AgpsNotices.ReleasingWhenUnwanted | gps/gnss/Agps.cpp:139-150 | a machine begins to release only when somebody leaves and nobody active is left |
| AgpsNotices.UnsubscribeSays | gps/gnss/Agps.cpp:116-178 | whoever unsubscribes is told at once, unless it waits for the close of a connection that is there |
| AgpsNotices.RunListsAsAsked | gps/gnss/Agps.cpp:770-830 | over every run without duplicates, modem restarts included: a listed subscription is where its type says, waits exactly if that is the emergency type, and is inactive exactly if given up since |
| AgpsNotices.ReleaseByType | gps/gnss/Agps.cpp:116-135 | giving up an emergency subscription says nothing and keeps it listed; giving up any other closes it in that step |
| AgpsNotices.EmergencyCloses | gps/gnss/Agps.cpp:203-290 | an emergency subscription hears of its close only by a report that its machine has lost or failed to get its connection |
| AgpsOrder.RunListsInOrder | gps/gnss/Agps.cpp:398-417 | over every run without duplicates the lists are in the order of the requests |
| AgpsOrder.ReportTellsInOrder | gps/gnss/Agps.cpp:225-248 | a report is passed on in the order of the requests, and the framework is asked for a connection last |
| AgpsRuns.RequestsBalance | gps/gnss/Agps.cpp:296-314 | over every run, modem restarts included, requests less releases, denials in PENDING and forced releases in ACQUIRED are 1 in PENDING and ACQUIRED and 0 otherwise |
| AgpsObjects.AgpsStateMachine.AddSubscriber | gps/gnss/Agps.cpp:398-417 | a clone is appended unless an equal one is listed |
| AgpsObjects.AgpsStateMachine.DeleteSubscriber | gps/gnss/Agps.cpp:419-436 | every subscriber with the handle, and no other, is erased while iterating |
| AgpsObjects.AgpsStateMachine.AnyActiveSubscribers | gps/gnss/Agps.cpp:438-448 | true exactly if some listed subscriber is active |
| AgpsObjects.AgpsStateMachine.GetSubscriber | gps/gnss/Agps.cpp:472-485 | the first subscriber with the handle, or null exactly if there is none |
| AgpsObjects.AgpsStateMachine.DropAllSubscribers | gps/gnss/Agps.cpp:502-513 | nobody stays listed |
| AgpsObjects.AgpsStateMachine.NotifyEventToSubscriber | gps/gnss/Agps.cpp:351-386 | the notice for the event is sent, and the subscriber deleted if asked |
| AgpsObjects.AgpsStateMachine.NotifyAllSubscribers | gps/gnss/Agps.cpp:316-349 | one notice for each subscriber addressed, in order, and exactly those erased if asked |
| AgpsObjects.AgpsStateMachine.ProcessSubscribe | gps/gnss/Agps.cpp:72-114 | list, state and notices after a subscribe event |
| AgpsObjects.AgpsStateMachine.ProcessUnsubscribe | gps/gnss/Agps.cpp:116-178 | list, state and notices after an unsubscribe event, the inactive mark set through the current subscriber |
| AgpsObjects.AgpsStateMachine.ProcessGranted | gps/gnss/Agps.cpp:180-201 | list, state and notices after a granted event |
| AgpsObjects.AgpsStateMachine.ProcessReleased | gps/gnss/Agps.cpp:203-248 | list, state and notices after a released event |
| AgpsObjects.AgpsStateMachine.ProcessDenied | gps/gnss/Agps.cpp:250-290 | list, state and notices after a denied event |
| AgpsObjects.AgpsManager.CreateAgpsStateMachines | gps/gnss/Agps.cpp:703-737 | creates the machines that are missing, the second only if capable |
| AgpsObjects.AgpsManager.GetAgpsStateMachine | gps/gnss/Agps.cpp:739-768 | the machine for a type, with the setting for an emergency connection off |
| AgpsObjects.AgpsManager.RequestATL | gps/gnss/Agps.cpp:770-796 | the manager's step for a request, open-failure at once without a machine |
| AgpsObjects.AgpsManager.ReleaseATL | gps/gnss/Agps.cpp:798-830 | the manager's step for a release, an unsuccessful close for an unknown handle |
| AgpsObjects.AgpsManager.ReportAtlOpenSuccess | gps/gnss/Agps.cpp:850-867 | the manager's step for a granted connection |
| AgpsObjects.AgpsManager.ReportAtlOpenFailed | gps/gnss/Agps.cpp:869-876 | the manager's step for a denied connection |
| AgpsObjects.AgpsManager.ReportAtlClosed | gps/gnss/Agps.cpp:878-885 | the manager's step for a closed connection |
| AgpsObjects.AgpsManager.HandleModemSSR | gps/gnss/Agps.cpp:887-900 | both lists are dropped and both states kept |
| LocUnorderedSetMap.TrimSet | gps/utils/LocUnorderedSetMap.h:44-51 | the set without the given values, and the values really removed added to the caller's set |
| LocUnorderedSetMap.RemoveAndReturnInterset | gps/utils/LocUnorderedSetMap.h:57-70 | the intersection, taken out of both sets |
| LocUnorderedSetMap.LocUnorderedSetMap.TrimOrRemoveEntry | gps/utils/LocUnorderedSetMap.h:80-88 | one entry trimmed, and removed exactly if nothing is left of it |
| LocUnorderedSetMap.LocUnorderedSetMap.TrimOrRemove | gps/utils/LocUnorderedSetMap.h:131-139 | all given entries trimmed, with the keys of the emptied ones and the values taken out |
| LocUnorderedSetMap.LocUnorderedSetMap.AddEntry | gps/utils/LocUnorderedSetMap.h:143-155 | the values added to one entry, and whether it is new |
| LocUnorderedSetMap.LocUnorderedSetMap.Add | gps/utils/LocUnorderedSetMap.h:164-171 | the values added to all given entries, and exactly the new keys |
| LocUnorderedSetMap.LocUnorderedSetMap.Update | gps/utils/LocUnorderedSetMap.h:176-187 | the new entry, the values that were new to it, and as result those that were there before and stay |
| LocUnorderedSetMap.RelatedAfter | gps/utils/LocUnorderedSetMap.h:80-171 | which pairs are related after an addition or a trimming |
| LocUnorderedSetMap.NoEmptyAfter | gps/utils/LocUnorderedSetMap.h:77-88 | neither leaves an empty entry |
| LocUnorderedSetMap.UpdatedHolds | gps/utils/LocUnorderedSetMap.h:176-187 | an update leaves under its key exactly the new values, and no empty entry |
| LocUnorderedSetMap.UpdateReturnsKept | gps/utils/LocUnorderedSetMap.h:173-187 | what update returns is what its documentation promises if and only if the entry had nothing before |
| SystemStatusCache.CacheHoldsLast | gps/core/SystemStatusOsObserver.cpp:541-572 | after a batch exactly those items are cached that were before or could be created, each with the value that came last |
| SystemStatusCache.UpdatedIffEverChanged | gps/core/SystemStatusOsObserver.cpp:541-572 | an item counts as updated if and only if its cached value is new or changed at some point of the batch |
| SystemStatusCache.UpdatedExactly | gps/core/SystemStatusOsObserver.cpp:541-572 | so in a batch with each item at most once, if and only if the batch changes it |
| SystemStatusCache.BackAgainIsUpdated | gps/core/SystemStatusOsObserver.cpp:313-317 | an item that comes twice counts as updated though its value is what it was |
| SystemStatusOsObserver.StepRelates | gps/core/SystemStatusOsObserver.cpp:92-292 | every request adds to and takes from the items of clients exactly the pairs that it speaks of |
| SystemStatusOsObserver.StepRelatesBack | gps/core/SystemStatusOsObserver.cpp:92-292 | what it does to the clients of items, whether or not the maps agree; an update takes out what it should keep |
| SystemStatusOsObserver.RunRelates | gps/core/SystemStatusOsObserver.cpp:92-292 | over every run a client is listed with exactly the items that it asked for last and has not given up |
| SystemStatusOsObserver.StepKeepsMapsIff | gps/core/SystemStatusOsObserver.cpp:62-295 | a request keeps the two maps inverse and without empty entries if and only if it is not an update from a client that has items |
| SystemStatusOsObserver.StepKeepsExactIff | gps/core/SystemStatusOsObserver.cpp:62-295 | whether or not the maps agree, a request keeps the framework registered for exactly the wanted items if and only if it brings along no spare registrations and is no mere request for data of an item that nobody wanted, made to a framework whose requestData registers nothing |
| SystemStatusOsObserver.StepKeepsNothingSpareIff | gps/core/SystemStatusOsObserver.cpp:62-295 | whatever requestData does, only a subscription object that brings it along makes something registered that nobody wants |
| SystemStatusOsObserver.RunKeepsMaps | gps/core/SystemStatusOsObserver.cpp:62-295 | over every run in which updates come from clients without items, the maps agree |
| SystemStatusOsObserver.RunKeepsExact | gps/core/SystemStatusOsObserver.cpp:62-295 | over every run of requests that keep it so, exactly the wanted items are registered |
| SystemStatusOsObserver.RunKeepsNothingSpare | gps/core/SystemStatusOsObserver.cpp:62-295 | over every run in which no subscription object brings along more, nothing is registered that nobody wants |
| SystemStatusOsObserver.SubscribeKeeps | gps/core/SystemStatusOsObserver.cpp:102-126 | every subscription, with or without a request for data, keeps the maps agreeing |
| SystemStatusOsObserver.SubscribeRegistersIff | gps/core/SystemStatusOsObserver.cpp:109-125 | a subscription keeps the registrations exact if and only if it registers, or everything it asks for was wanted before |
| SystemStatusOsObserver.MissedStaysMissed | gps/core/SystemStatusOsObserver.cpp:102-245 | over any stretch of a run in which somebody wants an item and there is no new subscription object, an item that was not registered stays so, whoever subscribes to it |
| SystemStatusOsObserver.RequestHidesSubscription | gps/core/SystemStatusOsObserver.cpp:114-124 | a request for the data of an item and another client's subscription to it: both want it, and it is not registered |
| SystemStatusOsObserver.UnsubscribeKeeps | gps/core/SystemStatusOsObserver.cpp:222-245 | every unsubscription keeps the maps agreeing |
| SystemStatusOsObserver.UnsubscribeAllKeeps | gps/core/SystemStatusOsObserver.cpp:261-282 | so does unsubscribing from everything |
| SystemStatusOsObserver.UpdateKeepsIff | gps/core/SystemStatusOsObserver.cpp:150-195 | an update of a subscription keeps the maps agreeing if and only if the client had no items before |
| SystemStatusOsObserver.UpdateRegisters | gps/core/SystemStatusOsObserver.cpp:171-197 | whatever an update trims, it keeps exact registrations exact, brings no spare ones and registers nothing that was missed |
| SystemStatusOsObserver.UpdateBreaks | gps/core/SystemStatusOsObserver.cpp:159-173 | the two maps and the registrations after an update from {1, 2} to {2, 3} |
| SystemStatusOsObserver.UpdateSilences | gps/core/SystemStatusOsObserver.cpp:318-340 | after it, news about 2 reach nobody |
| SystemStatusOsObserver.RepairedUpdateKeeps | gps/utils/LocUnorderedSetMap.h:173-187 | with the values that the entry loses as result, every update keeps the maps agreeing and the registrations exact |
| SystemStatusOsObserver.NotifySelectsExactly | gps/core/SystemStatusOsObserver.cpp:318-340 | as long as the maps agree, a notification selects exactly the clients with an updated item, each with exactly its updated items |
| SystemStatusOsObserver.ToldWhatIsWanted | gps/core/SystemStatusOsObserver.cpp:309-340 | after every run no notification tells a client of an item that it does not want, and as long as the maps have been kept agreeing each tells it of all that it wants |
| SystemStatusOsObserver.ToldOfChanges | gps/core/SystemStatusOsObserver.cpp:309-340 | then, in a batch with each item at most once, a client is told of an item if and only if it wants it and the batch brings a new value for it |
| SystemStatusOsObserver.FirstResponseIsCached | gps/core/SystemStatusOsObserver.cpp:513-539 | a first response goes to the client alone and tells of exactly the cached ones among the items, by their cached values; nothing is sent if none is |
| SystemStatusOsObserver.AskedForUnwanted | gps/core/SystemStatusOsObserver.cpp:103-118 | data are asked for exactly where a subscription asks for them and nobody wanted the item before |
| SystemStatusOsObserver.Observer.SetSubscriptionObj | gps/core/SystemStatusOsObserver.cpp:62-86 | a new framework object is asked for all wanted items, and for their data |
| SystemStatusOsObserver.Observer.Subscribe | gps/core/SystemStatusOsObserver.cpp:92-139 | both maps, the first response, and what the framework is asked to register or, with the flag, only for its data |
| SystemStatusOsObserver.Observer.UpdateSubscription | gps/core/SystemStatusOsObserver.cpp:141-211 | both maps, the registrations, and the first response with the items new to the client |
| SystemStatusOsObserver.Observer.Unsubscribe | gps/core/SystemStatusOsObserver.cpp:213-252 | both maps and the registrations |
| SystemStatusOsObserver.Observer.UnsubscribeAll | gps/core/SystemStatusOsObserver.cpp:254-292 | both maps and the registrations |
| SystemStatusOsObserver.Observer.SendCachedDataItems | gps/core/SystemStatusOsObserver.cpp:513-539 | one notification with exactly the cached items among the given ones and their values, and none without any |
| SystemStatusOsObserver.Observer.UpdateCache | gps/core/SystemStatusOsObserver.cpp:541-572 | whether an item counts as updated, and what is cached then, by value |
| SystemStatusOsObserver.Observer.Notify | gps/core/SystemStatusOsObserver.cpp:309-340 | the deliveries are, each client once, exactly those selected for the updated items, with the values then cached |
| GnssAdapter.StepSaves | gps/gnss/GnssAdapter.cpp:1475-1755 | a request is accepted if and only if it makes sense and the engine, where the smallest interval changes, accepts it; an accepted start or update saves its options, an accepted stop takes the session away, and any other request changes nothing |
| GnssAdapter.RunSaves | gps/gnss/GnssAdapter.cpp:1475-1755 | over every run a session is there if and only if it was accepted and not stopped since, with the options last accepted |
| GnssAdapter.StartKeepsIff | gps/gnss/GnssAdapter.cpp:1498-1521 | a start keeps the engine at the smallest interval if and only if it does not take the key of the only session there |
| GnssAdapter.UpdateKeeps | gps/gnss/GnssAdapter.cpp:1646-1682 | every update does, also when the engine refuses |
| GnssAdapter.StopKeeps | gps/gnss/GnssAdapter.cpp:1724-1755 | every stop does; the engine stops with the last session |
| GnssAdapter.RunKeepsInv | gps/gnss/GnssAdapter.cpp:1498-1771 | over every run in which no start takes the key of the only smallest session (GnssAdapter.OwnKeysNeverReplace: keys of their own suffice), the engine runs if and only if there is a session, at the smallest interval of all |
| GnssAdapter.RestartReestablishes | gps/gnss/GnssAdapter.cpp:1222-1245 | an engine that has come up idle is brought back in line if and only if there is no session or it accepts the call; an accepted call does so whatever the engine did before |
| GnssAdapter.ReusedKeyBreaks | gps/gnss/GnssAdapter.cpp:1483-1486 | a session started twice under one key, the second time more slowly, leaves the engine at an interval that nobody asks for |
| GnssAdapter.OwnKeysNeverReplace | gps/gnss/GnssAdapter.cpp:1453 | with keys of their own no session ever takes the place of another |
| GnssAdapter.ClientGone | gps/gnss/GnssAdapter.cpp:1143-1157 | stops that succeed remove the client's sessions, and no stop touches another client's |
| GnssAdapter.Adapter.SmallestIntervalOptions | gps/gnss/GnssAdapter.cpp:1659-1668 | the loops find options with the smallest interval of the sessions considered, in any order |
| GnssAdapter.Adapter.StartTrackingMultiplex | gps/gnss/GnssAdapter.cpp:1498-1521 | the engine is called exactly if the new interval is the smallest; an error leaves everything as it was |
| GnssAdapter.Adapter.UpdateTrackingMultiplex | gps/gnss/GnssAdapter.cpp:1646-1682 | the engine is called exactly if the smallest interval may change, with the new one |
| GnssAdapter.Adapter.StopTrackingMultiplex | gps/gnss/GnssAdapter.cpp:1724-1755 | the engine is stopped with the last session, or slowed down to the next smallest interval |
| GnssAdapter.Adapter.StartTrackingCommand | gps/gnss/GnssAdapter.cpp:1475-1489 | sessions, engine and error after the message, missing callbacks and unset options included |
| GnssAdapter.Adapter.UpdateTrackingOptionsCommand | gps/gnss/GnssAdapter.cpp:1622-1639 | the options are saved exactly if the response is success; engine and response after the message, none for an unknown session |
| GnssAdapter.Adapter.StopTrackingCommand | gps/gnss/GnssAdapter.cpp:1703-1717 | sessions, engine and response after the message; no response for an unknown session |
| GnssAdapter.Adapter.StopClientSessions | gps/gnss/GnssAdapter.cpp:1143-1157 | exactly one stop for each session of the client, in some order, and nothing else |
| GnssAdapter.Adapter.RestartSessions | gps/gnss/GnssAdapter.cpp:1222-1245 | the engine is started at the smallest interval if there is a session |

## Left out

- BoyerMoore.BmSearch: demands that |str| + |pat| - 1 and 2|pat| - 1 fit an int, since table entries and the index grow as far as that and would overflow the C int otherwise, and a pattern of at least one byte: `bm_make_delta1` computes `pat_len - 1` before the test for an empty one.
- BoyerMoore.SearchLoop: the same bounds.
- BoyerMoore.FillPrefixShifts: `strncmp` is a function of the pattern here, with its stop at a zero byte.
- Deadlines.TimersRankByTime: heaps and runs of the service hold deadlines of up to 2^31 - 1 seconds after boot, so that any two of them differ by what an int can hold; without that bound the comparison is characterised by Deadlines.RanksByTimeExactly, and Deadlines.FarRanksCycle shows that ranks are then no preorder, on which the heap relies.
- LocTimerInvariant.RunKeepsInv: a client call, a push or remove message, each turn of the expiry loop and each statement of the poll thread are atomic steps. The other threads, and what a call-back does to any timer, come between turns; reads of `mClient` without the lock and preemption inside a turn, a push or a removal are not modelled. Identities of timers, clients and locks are not reused while in use.
- LocTimerObjects.LocTimers.ProcMsg: heaps and messages hold a delegate's identity and deadline, through which it is looked up among all that is alive, in place of its address; the mutexes, the C wrapper's own one included, the fallback clock and the creation of the containers and threads are not modelled, and a container that could not be created is a failed start.
- LocTimerService.Enabled: `epoll_wait` may return any non-empty list of containers that are polled and due; interrupted waits and the closing of the descriptor are not modelled.
- Utf8To16.Strlen8To16: the counter `expected` is unbounded here; more than 2^31 extension bytes in a row would leave the int of the code.
- Utf8To16.Strdup8To16: memory that is touched through the null pointer is not modelled beyond the fact that it is.
- AgpsRuns.RunFollowsPhases: no claim about runs with modem restarts, which drop subscribers without a notice.
- AgpsRuns.Enabled: a report about a machine that was never created would follow a null pointer in the code and is not a step.
- AgpsObjects.AgpsManager.GetAgpsStateMachine: the setting for an emergency connection of its own is off, so `DSStateMachine` and its retries are not part of this model; nor are access point name and bearer.
- SystemStatusOsObserver.Observer.Copy: the foreign code behind `copy` is taken to copy the value of an item and to report whether that changed it; values are strings. Messages are handled one at a time, so queueing is not modelled here.
- LocUnorderedSetMap.LocUnorderedSetMap.TrimOrRemove: iterators used after an erasure, here and in `removeAndReturnInterset`, are not modelled; every loop visits each element once, in some order.
- GnssAdapter.RunKeepsInv: the ULP proxy is the base class, which declines every call, and a failed engine call changes nothing; the mode and distance of the options are not modelled, and ties between sessions may leave a stale mode.
- `strcpylen8to16`, which does not advance on an embedded zero byte and is otherwise a copy of `strcpy8to16`.
- The C wrapper of the timers, `linked_list.c`, `BiDict`, the adapter array and the enum conversions: easy members.
- `turnOn`, `turnOff` and the back-haul requests of the observer: plain counters.
- ULP commands, network-initiated requests, position, satellite and NMEA reports, geofences and batching.
- `get_modem_version` and the updater's entry points: memory mapping and foreign calls.
- Sockets, dynamic loading, HIDL wrappers, lights, thermal, radio, init and policy files: I/O and configuration.
