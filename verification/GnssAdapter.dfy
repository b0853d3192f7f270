/** The tracking multiplexer of gps/gnss/GnssAdapter.cpp: many sessions, one engine, kept at the smallest
    interval that any session asks for. The ULP proxy is the base one, which declines everything. */
module GnssAdapter {
  import opened Wrappers

  datatype Key = Key(client: nat, id: nat)

  /** A size of zero marks options that were never set. */
  datatype LocationOptions = LocationOptions(size: nat, minInterval: nat)

  type Sessions = map<Key, LocationOptions>

  /** The sessions, and the interval at which the engine runs if it does. */
  datatype Tracker = Tracker(sessions: Sessions, engine: Option<nat>)

  // ---------- The smallest interval ----------

  /** Some session asks for `v`, and none for less. */
  ghost predicate IsSmallest(v: nat, m: Sessions) {
    && (exists k :: k in m && m[k].minInterval == v)
    && (forall k :: k in m ==> v <= m[k].minInterval)
  }

  ghost function Smallest(m: Sessions): (v: nat)
    requires m != map[]
    ensures IsSmallest(v, m)
    decreases m.Keys
  {
    var k :| k in m;
    if m.Keys == {k} then m[k].minInterval
    else
      assert (m - {k}).Keys == m.Keys - {k};
      assert forall j :: j in m ==> j == k || j in m - {k};
      var rest := Smallest(m - {k});
      if m[k].minInterval < rest then m[k].minInterval else rest
  }

  lemma OnlyOneSmallest(v: nat, w: nat, m: Sessions)
    requires IsSmallest(v, m) && IsSmallest(w, m)
    ensures v == w
  {
  }

  // ---------- What each message does, by the answer of the engine ----------

  datatype Action =
    | Start(key: Key, options: LocationOptions, hasCallback: bool, engineOk: bool)
    | Update(key: Key, options: LocationOptions, engineOk: bool)
    | Stop(key: Key, engineOk: bool)

  /** A call that changed the engine, or one that failed and changed nothing. */
  function Restarted(t: Tracker, interval: nat, engineOk: bool): Option<Tracker> {
    if engineOk then Some(t.(engine := Some(interval))) else None
  }

  ghost function StartTracking(t: Tracker, options: LocationOptions, engineOk: bool): Option<Tracker> {
    if t.sessions == map[] || options.minInterval < Smallest(t.sessions)
    then Restarted(t, options.minInterval, engineOk)
    else Some(t)
  }

  ghost function UpdateTracking(t: Tracker, key: Key, options: LocationOptions, engineOk: bool): Option<Tracker>
    requires key in t.sessions
  {
    var others := t.sessions - {key};
    if others == map[] || options.minInterval < Smallest(others) then Restarted(t, options.minInterval, engineOk)
    else if t.sessions[key].minInterval < Smallest(others) then Restarted(t, Smallest(others), engineOk)
    else Some(t)
  }

  ghost function StopTracking(t: Tracker, key: Key, engineOk: bool): Option<Tracker>
    requires key in t.sessions
  {
    var others := t.sessions - {key};
    if others == map[] then (if engineOk then Some(t.(engine := None)) else None)
    else if t.sessions[key].minInterval < Smallest(others) then Restarted(t, Smallest(others), engineOk)
    else Some(t)
  }

  ghost function Step(t: Tracker, a: Action): Tracker {
    match a
    case Start(key, options, hasCallback, engineOk) =>
      if !hasCallback || options.size == 0 then t
      else
        var done := StartTracking(t, options, engineOk);
        if done.None? then t else done.value.(sessions := t.sessions[key := options])
    case Update(key, options, engineOk) =>
      if key !in t.sessions || options.size == 0 then t
      else
        var done := UpdateTracking(t, key, options, engineOk);
        if done.None? then t else done.value.(sessions := t.sessions[key := options])
    case Stop(key, engineOk) =>
      if key !in t.sessions then t
      else
        var done := StopTracking(t, key, engineOk);
        if done.None? then t else done.value.(sessions := t.sessions - {key})
  }

  ghost function Run(t: Tracker, run: seq<Action>): Tracker
    decreases run
  {
    if run == [] then t else Run(Step(t, run[0]), run[1..])
  }

  // ---------- The sessions are what was accepted ----------

  /** Does the interval lie below that of every session but `key`? */
  ghost predicate Below(interval: nat, m: Sessions, key: Option<Key>) {
    forall k :: k in m && key != Some(k) ==> interval < m[k].minInterval
  }

  /** Does the request make the interval that is the smallest change, so that the engine is asked? */
  ghost predicate AsksEngine(t: Tracker, a: Action) {
    match a
    case Start(_, options, _, _) => Below(options.minInterval, t.sessions, None)
    case Update(key, options, _) =>
      || Below(options.minInterval, t.sessions, Some(key))
      || (key in t.sessions && Below(t.sessions[key].minInterval, t.sessions, Some(key)))
    case Stop(key, _) => key in t.sessions && Below(t.sessions[key].minInterval, t.sessions, Some(key))
  }

  /** A request is accepted if it makes sense and the engine, where it is asked, accepts it. */
  ghost predicate Accepts(t: Tracker, a: Action) {
    && (AsksEngine(t, a) ==> a.engineOk)
    && match a
       case Start(_, options, hasCallback, _) => hasCallback && options.size != 0
       case Update(key, options, _) => key in t.sessions && options.size != 0
       case Stop(key, _) => key in t.sessions
  }

  lemma BelowSmallest(interval: nat, m: Sessions, key: Option<Key>)
    ensures var others := if key.Some? then m - {key.value} else m;
      Below(interval, m, key) <==> others == map[] || interval < Smallest(others)
  {
    var others := if key.Some? then m - {key.value} else m;
    assert forall k :: k in others <==> k in m && key != Some(k);
    if others == map[] {
      assert others.Keys == {};
    } else {
      var k :| k in others && others[k].minInterval == Smallest(others);
      assert m[k] == others[k];
    }
  }

  /** Every accepted start and update is saved with its options, every accepted stop takes the session away, and
      what is not accepted changes nothing, the engine included. */
  lemma StepSaves(t: Tracker, a: Action)
    ensures Step(t, a).sessions ==
      if !Accepts(t, a) then t.sessions else if a.Stop? then t.sessions - {a.key} else t.sessions[a.key := a.options]
    ensures !Accepts(t, a) ==> Step(t, a) == t
  {
    match a {
      case Start(_, options, _, _) => BelowSmallest(options.minInterval, t.sessions, None);
      case Update(key, options, _) =>
        BelowSmallest(options.minInterval, t.sessions, Some(key));
        if key in t.sessions {
          BelowSmallest(t.sessions[key].minInterval, t.sessions, Some(key));
        }
      case Stop(key, _) =>
        if key in t.sessions {
          BelowSmallest(t.sessions[key].minInterval, t.sessions, Some(key));
        }
    }
    hide Below, IsSmallest, Smallest;
  }

  /** The options of the last start or update that was accepted under a key, unless a stop was since. */
  ghost function LastAccepted(t: Tracker, run: seq<Action>, key: Key): Option<LocationOptions> {
    if run == [] then (if key in t.sessions then Some(t.sessions[key]) else None)
    else
      var before, a := run[..|run| - 1], run[|run| - 1];
      if a.key != key || !Accepts(Run(t, before), a) then LastAccepted(t, before, key)
      else if a.Stop? then None
      else Some(a.options)
  }

  /** Over every run, a session is there exactly if it was accepted and not stopped since, with the options last
      accepted. */
  lemma {:induction false} RunSaves(t: Tracker, run: seq<Action>, key: Key)
    ensures LastAccepted(t, run, key) ==
      if key in Run(t, run).sessions then Some(Run(t, run).sessions[key]) else None
  {
    if run != [] {
      var before, a := run[..|run| - 1], run[|run| - 1];
      RunSaves(t, before, key);
      assert run == before + [a];
      RunAppend(t, before, a);
      StepSaves(Run(t, before), a);
      hide Step, Run, Accepts;
    }
  }

  // ---------- The engine follows the sessions ----------

  /** The engine runs if and only if there is a session, and then at the smallest interval of all. */
  ghost predicate Inv(t: Tracker) {
    && (forall k :: k in t.sessions ==> t.sessions[k].size != 0)
    && match t.engine
       case None => t.sessions == map[]
       case Some(v) => IsSmallest(v, t.sessions)
  }

  /** The interval of all sessions from the one of the others. */
  lemma SmallestWith(m: Sessions, key: Key, options: LocationOptions)
    requires key in m
    ensures var others := m - {key};
      && (others == map[] ==> IsSmallest(options.minInterval, m[key := options]))
      && (others != map[] ==>
            IsSmallest(if options.minInterval < Smallest(others) then options.minInterval else Smallest(others),
                       m[key := options]))
  {
    var others, m' := m - {key}, m[key := options];
    assert m'[key].minInterval == options.minInterval;
    assert forall k :: k in m' ==> k == key || (k in others && others[k] == m'[k]);
    if others != map[] {
      var k :| k in others && others[k].minInterval == Smallest(others);
      assert m'[k].minInterval == Smallest(others);
    }
  }

  /** A session started under a key in use, in place of the only one at the smallest interval. */
  predicate Replaces(t: Tracker, a: Action) {
    && a.Start? && a.hasCallback && a.options.size != 0 && t.engine.Some?
    && a.key in t.sessions && t.engine.value < a.options.minInterval
    && forall k :: k in t.sessions && k != a.key ==> t.engine.value < t.sessions[k].minInterval
  }

  /** Starting a session keeps the invariant in all but exactly that case. */
  lemma StartKeepsIff(t: Tracker, a: Action)
    requires Inv(t) && a.Start?
    ensures Inv(Step(t, a)) <==> !Replaces(t, a)
  {
    if t.sessions != map[] {
      OnlyOneSmallest(t.engine.value, Smallest(t.sessions), t.sessions);
    }
    if a.hasCallback && a.options.size != 0 && StartTracking(t, a.options, a.engineOk).Some? {
      if a.key in t.sessions {
        ReplacedKeepsIff(t, a);
      } else {
        AddedKeeps(t, a);
      }
    }
  }

  lemma AddedKeeps(t: Tracker, a: Action)
    requires Inv(t) && a.Start? && a.key !in t.sessions && a.options.size != 0
    requires t.engine.Some? ==> t.engine.value == Smallest(t.sessions)
    requires a.hasCallback && StartTracking(t, a.options, a.engineOk).Some?
    ensures Inv(Step(t, a))
  {
    var t' := Step(t, a);
    assert t'.sessions[a.key].minInterval == a.options.minInterval;
    if t.sessions != map[] {
      var k :| k in t.sessions && t.sessions[k].minInterval == Smallest(t.sessions);
      assert t'.sessions[k] == t.sessions[k];
    }
  }

  lemma ReplacedKeepsIff(t: Tracker, a: Action)
    requires Inv(t) && a.Start? && a.key in t.sessions && a.options.size != 0
    requires t.engine.Some? && t.engine.value == Smallest(t.sessions)
    requires a.hasCallback && StartTracking(t, a.options, a.engineOk).Some?
    ensures Inv(Step(t, a)) <==> !Replaces(t, a)
  {
    var t', others, own := Step(t, a), t.sessions - {a.key}, a.options.minInterval;
    SmallestWith(t.sessions, a.key, a.options);
    var smallest := if others == map[] || own < Smallest(others) then own else Smallest(others);
    assert IsSmallest(smallest, t'.sessions);
    if IsSmallest(t'.engine.value, t'.sessions) {
      OnlyOneSmallest(smallest, t'.engine.value, t'.sessions);
    }
    assert forall k :: k in others <==> k in t.sessions && k != a.key;
    if others != map[] {
      var k :| k in others && others[k].minInterval == Smallest(others);
      assert t.sessions[k] == others[k];
    } else {
      assert forall k :: k in t.sessions ==> k == a.key;
    }
    assert Inv(t') <==> smallest == t'.engine.value;
  }

  lemma UpdateKeeps(t: Tracker, a: Action)
    requires Inv(t) && a.Update?
    ensures Inv(Step(t, a))
  {
    if Step(t, a) != t {
      SmallestWith(t.sessions, a.key, t.sessions[a.key]);
      assert t.sessions[a.key := t.sessions[a.key]] == t.sessions;
      SmallestWith(t.sessions, a.key, a.options);
      var others := t.sessions - {a.key};
      if others != map[] {
        var own := t.sessions[a.key].minInterval;
        OnlyOneSmallest(t.engine.value, if own < Smallest(others) then own else Smallest(others), t.sessions);
      }
      hide IsSmallest;
    }
  }

  lemma StopKeeps(t: Tracker, a: Action)
    requires Inv(t) && a.Stop?
    ensures Inv(Step(t, a))
  {
    if Step(t, a) != t {
      SmallestWith(t.sessions, a.key, t.sessions[a.key]);
      assert t.sessions[a.key := t.sessions[a.key]] == t.sessions;
      var others := t.sessions - {a.key};
      if others != map[] {
        var own := t.sessions[a.key].minInterval;
        OnlyOneSmallest(t.engine.value, if own < Smallest(others) then own else Smallest(others), t.sessions);
      }
      hide IsSmallest;
    }
  }

  /** No session takes the place of another as above. */
  ghost predicate NoneReplaces(t: Tracker, run: seq<Action>)
    decreases run
  {
    run == [] || (!Replaces(t, run[0]) && NoneReplaces(Step(t, run[0]), run[1..]))
  }

  /** Over every run, whatever the engine accepts and refuses. */
  lemma {:induction false} RunKeepsInv(t: Tracker, run: seq<Action>)
    requires Inv(t) && NoneReplaces(t, run)
    ensures Inv(Run(t, run))
    decreases run
  {
    if run != [] {
      match run[0] {
        case Start(_, _, _, _) => StartKeepsIff(t, run[0]);
        case Update(_, _, _) => UpdateKeeps(t, run[0]);
        case Stop(_, _) => StopKeeps(t, run[0]);
      }
      hide Inv, Step, Replaces;
      RunKeepsInv(Step(t, run[0]), run[1..]);
    }
  }

  /** Started twice under one key, first at one second and then at two, a session leaves the engine at an
      interval that nobody asks for any more. */
  lemma ReusedKeyBreaks(key: Key)
    ensures var t := Run(Tracker(map[], None), [Start(key, LocationOptions(1, 1000), true, true)]);
      var a := Start(key, LocationOptions(1, 2000), true, true);
      && Inv(t) && Replaces(t, a)
      && Step(t, a) == Tracker(map[key := LocationOptions(1, 2000)], Some(1000)) && !Inv(Step(t, a))
  {
    var start, a := Start(key, LocationOptions(1, 1000), true, true), Start(key, LocationOptions(1, 2000), true, true);
    var t0 := Tracker(map[], None);
    StartKeepsIff(t0, start);
    var t := Step(t0, start);
    assert t == Tracker(map[key := LocationOptions(1, 1000)], Some(1000));
    assert Run(t0, [start]) == t by {
      assert [start][1..] == [];
    }
    OnlyOneSmallest(Smallest(t.sessions), 1000, t.sessions);
    StartKeepsIff(t, a);
    assert t.sessions[key := LocationOptions(1, 2000)] == map[key := LocationOptions(1, 2000)];
  }

  /** Every start has a key of its own: none is in use, and none is started twice. Such are the keys that
      generateSessionId makes until its counter wraps around. */
  ghost predicate KeysOfTheirOwn(inUse: set<Key>, run: seq<Action>)
    decreases run
  {
    run == [] || (
      (run[0].Start? ==> run[0].key !in inUse) &&
      KeysOfTheirOwn(if run[0].Start? then inUse + {run[0].key} else inUse, run[1..])
    )
  }

  /** With keys of their own no session ever replaces another, so the invariant holds over every such run. */
  lemma {:induction false} OwnKeysNeverReplace(t: Tracker, inUse: set<Key>, run: seq<Action>)
    requires t.sessions.Keys <= inUse && KeysOfTheirOwn(inUse, run)
    ensures NoneReplaces(t, run)
    decreases run
  {
    if run != [] {
      OwnKeysNeverReplace(Step(t, run[0]), if run[0].Start? then inUse + {run[0].key} else inUse, run[1..]);
    }
  }

  /** restartSessions, whatever the engine did before: the engine has come up again. */
  ghost function SessionsRestarted(t: Tracker, engineOk: bool): Tracker {
    if t.sessions == map[] || !engineOk then t else t.(engine := Some(Smallest(t.sessions)))
  }

  /** An engine that has come up idle is brought back in line exactly if there is nothing to do or it accepts
      the call; and an accepted call does that whatever the engine did before. */
  lemma RestartReestablishes(t: Tracker, engineOk: bool)
    requires forall k :: k in t.sessions ==> t.sessions[k].size != 0
    ensures t.engine.None? ==> (Inv(SessionsRestarted(t, engineOk)) <==> t.sessions == map[] || engineOk)
    ensures t.sessions != map[] && engineOk ==> Inv(SessionsRestarted(t, engineOk))
  {
  }

  // ---------- The code ----------

  /** mLocApi: it may refuse any call, and then goes on as before. */
  class LocApi {
    var running: Option<nat>

    method StartFix(interval: nat) returns (ok: bool)
      modifies this
      ensures running == if ok then Some(interval) else old(running)
    {
      ok := *;
      if ok {
        running := Some(interval);
      }
    }

    method StopFix() returns (ok: bool)
      modifies this
      ensures running == if ok then None else old(running)
    {
      ok := *;
      if ok {
        running := None;
      }
    }
  }

  datatype LocationError = Success | GeneralFailure | CallbackMissing | InvalidParameter

  class Adapter {
    const mLocApi: LocApi
    var mTrackingSessions: Sessions

    constructor (locApi: LocApi)
      ensures mLocApi == locApi && mTrackingSessions == map[]
    {
      mLocApi, mTrackingSessions := locApi, map[];
    }

    function Abs(): Tracker
      reads this, mLocApi
    {
      Tracker(mTrackingSessions, mLocApi.running)
    }

    /** No session was saved with options that were never set. */
    predicate Valid()
      reads this
    {
      forall k :: k in mTrackingSessions ==> mTrackingSessions[k].size != 0
    }

    method StartEngine(options: LocationOptions) returns (err: LocationError)
      modifies mLocApi
      ensures err == Success || err == GeneralFailure
      ensures mLocApi.running == if err == Success then Some(options.minInterval) else old(mLocApi.running)
    {
      var ok := mLocApi.StartFix(options.minInterval);
      err := if ok then Success else GeneralFailure;
    }

    method StopEngine() returns (err: LocationError)
      modifies mLocApi
      ensures err == Success || err == GeneralFailure
      ensures mLocApi.running == if err == Success then None else old(mLocApi.running)
    {
      var ok := mLocApi.StopFix();
      err := if ok then Success else GeneralFailure;
    }

    /** The loops that look for the smallest interval, leaving out the session under `key` if any. */
    method SmallestIntervalOptions(key: Option<Key>) returns (smallest: LocationOptions)
      requires Valid()
      ensures var others := if key.Some? then mTrackingSessions - {key.value} else mTrackingSessions;
        if others == map[] then smallest == LocationOptions(0, 0)
        else smallest.size != 0 && smallest.minInterval == Smallest(others)
    {
      smallest := LocationOptions(0, 0);
      ghost var others := if key.Some? then mTrackingSessions - {key.value} else mTrackingSessions;
      var rest := mTrackingSessions.Keys;
      while rest != {}
        invariant rest <= mTrackingSessions.Keys
        invariant smallest.size == 0 ==> smallest == LocationOptions(0, 0) && others.Keys <= rest
        invariant smallest.size != 0 ==> exists k :: k in others && k !in rest && others[k] == smallest
        invariant smallest.size != 0 ==>
          forall k :: k in others && k !in rest ==> smallest.minInterval <= others[k].minInterval
        decreases rest
      {
        var it :| it in rest;
        if key != Some(it) {
          assert it in others;
          if smallest.size == 0 || mTrackingSessions[it].minInterval < smallest.minInterval {
            smallest := mTrackingSessions[it];
          }
        }
        rest := rest - {it};
      }
      if others != map[] {
        assert smallest.size == 0 ==> others == map[];
        assert IsSmallest(smallest.minInterval, others);
        OnlyOneSmallest(smallest.minInterval, Smallest(others), others);
      }
    }

    method StartTrackingMultiplex(options: LocationOptions) returns (err: LocationError)
      requires Valid()
      modifies mLocApi
      ensures err == Success || err == GeneralFailure
      ensures var done := StartTracking(old(Abs()), options, err == Success);
        if done.None? then err != Success && Abs() == old(Abs()) else err == Success && Abs() == done.value
    {
      err := Success;
      if mTrackingSessions == map[] {
        err := StartEngine(options);
      } else {
        var smallest := SmallestIntervalOptions(None);
        if options.minInterval < smallest.minInterval {
          err := StartEngine(options);
        }
      }
    }

    method UpdateTrackingMultiplex(key: Key, options: LocationOptions) returns (err: LocationError)
      requires Valid() && key in mTrackingSessions
      modifies mLocApi
      ensures err == Success || err == GeneralFailure
      ensures var done := UpdateTracking(old(Abs()), key, options, err == Success);
        if done.None? then err != Success && Abs() == old(Abs()) else err == Success && Abs() == done.value
    {
      err := Success;
      OneSession(mTrackingSessions, key);
      if |mTrackingSessions| == 1 {
        err := StartEngine(options);
      } else if key in mTrackingSessions {
        var smallest := SmallestIntervalOptions(Some(key));
        if options.minInterval < smallest.minInterval {
          err := StartEngine(options);
        } else if mTrackingSessions[key].minInterval < smallest.minInterval {
          err := StartEngine(smallest);
        }
      }
    }

    method StopTrackingMultiplex(key: Key) returns (err: LocationError)
      requires Valid() && key in mTrackingSessions
      modifies mLocApi
      ensures err == Success || err == GeneralFailure
      ensures var done := StopTracking(old(Abs()), key, err == Success);
        if done.None? then err != Success && Abs() == old(Abs()) else err == Success && Abs() == done.value
    {
      err := Success;
      OneSession(mTrackingSessions, key);
      if |mTrackingSessions| == 1 {
        err := StopEngine();
      } else if key in mTrackingSessions {
        var smallest := SmallestIntervalOptions(Some(key));
        if mTrackingSessions[key].minInterval < smallest.minInterval {
          err := StartEngine(smallest);
        }
      }
    }

    method StartTrackingCommand(key: Key, options: LocationOptions, hasCallback: bool) returns (err: LocationError)
      requires Valid()
      modifies this, mLocApi
      ensures Valid() && Abs() == Step(old(Abs()), Start(key, options, hasCallback, err == Success))
      ensures mTrackingSessions ==
        if err == Success then old(mTrackingSessions)[key := options] else old(mTrackingSessions)
      ensures !hasCallback ==> err == CallbackMissing
      ensures hasCallback && options.size == 0 ==> err == InvalidParameter
      ensures hasCallback && options.size != 0 ==> err == Success || err == GeneralFailure
    {
      if !hasCallback {
        return CallbackMissing;
      }
      if options.size == 0 {
        return InvalidParameter;
      }
      err := StartTrackingMultiplex(options);
      if err == Success {
        mTrackingSessions := mTrackingSessions[key := options];
      }
    }

    /** No response is reported for a session that does not exist. */
    method UpdateTrackingOptionsCommand(key: Key, options: LocationOptions) returns (response: Option<LocationError>)
      requires Valid()
      modifies this, mLocApi
      ensures Valid() && Abs() == Step(old(Abs()), Update(key, options, response == Some(Success)))
      ensures mTrackingSessions ==
        if response == Some(Success) then old(mTrackingSessions)[key := options] else old(mTrackingSessions)
      ensures response.None? <==> key !in old(mTrackingSessions)
      ensures key in old(mTrackingSessions) ==>
        if options.size == 0 then response == Some(InvalidParameter)
        else response == Some(Success) || response == Some(GeneralFailure)
    {
      if key !in mTrackingSessions {
        return None;
      }
      if options.size == 0 {
        return Some(InvalidParameter);
      }
      var err := UpdateTrackingMultiplex(key, options);
      if err == Success {
        mTrackingSessions := mTrackingSessions[key := options];
      }
      response := Some(err);
    }

    method StopTrackingCommand(key: Key) returns (response: Option<LocationError>)
      requires Valid()
      modifies this, mLocApi
      ensures Valid() && Abs() == Step(old(Abs()), Stop(key, response == Some(Success)))
      ensures mTrackingSessions ==
        if response == Some(Success) then old(mTrackingSessions) - {key} else old(mTrackingSessions)
      ensures response.None? <==> key !in old(mTrackingSessions)
      ensures response.Some? ==> response.value == Success || response.value == GeneralFailure
    {
      if key !in mTrackingSessions {
        return None;
      }
      var err := StopTrackingMultiplex(key);
      if err == Success {
        mTrackingSessions := mTrackingSessions - {key};
      }
      response := Some(err);
    }

    /** One stop for each session of the client, in some order; those that the engine refuses stay. */
    method StopClientSessions(client: nat) returns (ghost stops: seq<Action>)
      requires Valid()
      modifies this, mLocApi
      ensures Valid() && Abs() == Run(old(Abs()), stops)
      ensures StopsOf(stops, client, old(mTrackingSessions).Keys)
    {
      stops := [];
      ghost var done: set<Key> := {};
      var rest := mTrackingSessions.Keys;
      while rest != {}
        invariant Valid() && rest <= mTrackingSessions.Keys
        invariant rest !! done && rest + done == old(mTrackingSessions).Keys
        invariant Abs() == Run(old(Abs()), stops) && StopsOf(stops, client, done)
        decreases rest
      {
        var it :| it in rest;
        if it.client == client {
          RunAppend(old(Abs()), stops, Stop(it, true));
          RunAppend(old(Abs()), stops, Stop(it, false));
          var err := StopTrackingMultiplex(it);
          if err == Success {
            mTrackingSessions := mTrackingSessions - {it};
          }
          StopsOneMore(stops, client, done, it, err == Success);
          stops := stops + [Stop(it, err == Success)];
        } else {
          StopsOneMore(stops, client, done, it, true);
        }
        done, rest := done + {it}, rest - {it};
      }
    }

    method RestartSessions()
      requires Valid()
      modifies mLocApi
      ensures exists engineOk :: Abs() == SessionsRestarted(old(Abs()), engineOk)
    {
      if mTrackingSessions == map[] {
        assert Abs() == SessionsRestarted(old(Abs()), true);
        return;
      }
      var smallest := SmallestIntervalOptions(None);
      var ok := mLocApi.StartFix(smallest.minInterval);
      assert Abs() == SessionsRestarted(old(Abs()), ok);
    }
  }

  lemma OneSession(m: Sessions, key: Key)
    requires key in m
    ensures |m| == 1 <==> m - {key} == map[]
  {
    assert m.Keys == (m - {key}).Keys + {key};
  }

  /** Nothing but stops: for every one of some keys that belongs to the client exactly one. */
  ghost predicate StopsOf(stops: seq<Action>, client: nat, keys: set<Key>) {
    && (forall i {:trigger stops[i]} :: 0 <= i < |stops| ==>
          stops[i].Stop? && stops[i].key.client == client && stops[i].key in keys)
    && (forall i, j {:trigger stops[i], stops[j]} :: 0 <= i < j < |stops| ==> stops[i].key != stops[j].key)
    && (forall k :: k in keys && k.client == client ==> exists i :: 0 <= i < |stops| && stops[i].key == k)
  }

  lemma StopsOneMore(stops: seq<Action>, client: nat, done: set<Key>, key: Key, engineOk: bool)
    requires StopsOf(stops, client, done) && key !in done
    ensures key.client == client ==> StopsOf(stops + [Stop(key, engineOk)], client, done + {key})
    ensures key.client != client ==> StopsOf(stops, client, done + {key})
  {
    if key.client == client {
      var stops' := stops + [Stop(key, engineOk)];
      forall k | k in done + {key} && k.client == client ensures exists i :: 0 <= i < |stops'| && stops'[i].key == k {
        if k == key {
          assert stops'[|stops|].key == k;
        } else {
          var i :| 0 <= i < |stops| && stops[i].key == k;
          assert stops'[i].key == k;
        }
      }
    }
  }

  lemma {:induction false} RunAppend(t: Tracker, run: seq<Action>, a: Action)
    ensures Run(t, run + [a]) == Step(Run(t, run), a)
    decreases run
  {
    if run == [] {
      assert ([a])[1..] == [];
    } else {
      assert (run + [a])[1..] == run[1..] + [a];
      RunAppend(Step(t, run[0]), run[1..], a);
    }
  }

  /** Once the engine has accepted every stop, no session of the client is left, and the others are as before. */
  lemma {:induction false} ClientGone(t: Tracker, stops: seq<Action>, client: nat, key: Key)
    requires forall i {:trigger stops[i]} :: 0 <= i < |stops| ==> stops[i].Stop? && stops[i].key.client == client
    ensures key.client != client ==> (key in Run(t, stops).sessions <==> key in t.sessions)
    ensures key in Run(t, stops).sessions ==> key in t.sessions && Run(t, stops).sessions[key] == t.sessions[key]
    ensures (exists i :: 0 <= i < |stops| && stops[i].key == key && stops[i].engineOk) ==>
      key !in Run(t, stops).sessions
    decreases stops
  {
    if stops != [] {
      var t', rest := Step(t, stops[0]), stops[1..];
      assert forall i {:trigger rest[i]} :: 0 <= i < |rest| ==> rest[i] == stops[i + 1];
      ClientGone(t', rest, client, key);
      if i :| 0 <= i < |stops| && stops[i].key == key && stops[i].engineOk {
        assert i > 0 ==> rest[i - 1] == stops[i];
        assert i == 0 ==> key !in t'.sessions;
      }
    }
  }
}
