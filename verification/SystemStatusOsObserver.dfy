/** gps/core/SystemStatusOsObserver.cpp: who subscribed to what, kept twice, and what the framework was asked
    for. Every message is handled in one step. */
module SystemStatusOsObserver {
  import opened Wrappers
  import opened LocUnorderedSetMap
  import opened SystemStatusCache

  datatype Client = Client(address: nat)

  /** A subscription object of the framework: the items registered with it, and whether its requestData
      registers items as well, which its interface leaves open. */
  datatype Framework = Framework(registered: set<DataItemId>, requestRegisters: bool)

  /** The two maps, and the current subscription object once there is one. */
  datatype State = State(
    clientToItems: map<Client, set<DataItemId>>,
    itemToClients: map<DataItemId, set<Client>>,
    connected: bool,
    registered: set<DataItemId>,
    requestRegisters: bool
  )

  /** Requests as they arrive; None stands for a null pointer. A subscription object comes with the items
      that it was asked for before, if any. */
  datatype Action =
    | Subscribe(items: set<DataItemId>, client: Option<Client>, toRequestData: bool)
    | UpdateSubscription(items: set<DataItemId>, client: Option<Client>)
    | Unsubscribe(items: set<DataItemId>, client: Option<Client>)
    | UnsubscribeAll(client: Option<Client>)
    | SetSubscriptionObj(obj: Option<Framework>)

  function Register(st: State, subscribe: set<DataItemId>, unsubscribe: set<DataItemId>): State {
    if st.connected then st.(registered := st.registered + subscribe - unsubscribe) else st
  }

  /** Does a subscription go out as a mere request for data? */
  predicate OnlyRequested(st: State, toRequestData: bool) {
    toRequestData && st.connected && !st.requestRegisters
  }

  function Subscribed(st: State, items: set<DataItemId>, c: Client, toRequestData: bool): State {
    Register(st.(itemToClients := Added(st.itemToClients, items, {c}),
                 clientToItems := Added(st.clientToItems, {c}, items)),
             if OnlyRequested(st, toRequestData) then {} else NewKeys(st.itemToClients, items, {c}), {})
  }

  /** What updateSubscription does when `gone` is what update returned. */
  function UpdatedWith(st: State, items: set<DataItemId>, c: Client, gone: set<DataItemId>): State {
    var trimmed := Trimmed(st.itemToClients, gone, {c});
    var added := items - ValSet(st.clientToItems, c);
    Register(st.(itemToClients := Added(trimmed, added, {c}), clientToItems := Updated(st.clientToItems, c, items)),
             NewKeys(trimmed, added, {c}), GoneKeys(st.itemToClients, gone, {c}))
  }

  function SubscriptionUpdated(st: State, items: set<DataItemId>, c: Client): State {
    UpdatedWith(st, items, c, items * ValSet(st.clientToItems, c))
  }

  function Unsubscribed(st: State, items: set<DataItemId>, c: Client): State {
    var unused := GoneVals(st.clientToItems, {c}, items);
    Register(st.(clientToItems := Trimmed(st.clientToItems, {c}, items),
                 itemToClients := Trimmed(st.itemToClients, unused, {c})),
             {}, GoneKeys(st.itemToClients, unused, {c}))
  }

  function AllUnsubscribed(st: State, c: Client): State {
    var items := ValSet(st.clientToItems, c);
    if items == {} then st
    else
      Register(st.(clientToItems := st.clientToItems - {c}, itemToClients := Trimmed(st.itemToClients, items, {c})),
               {}, GoneKeys(st.itemToClients, items, {c}))
  }

  function Connected(st: State, obj: Framework): State {
    st.(connected := true, registered := obj.registered + st.itemToClients.Keys,
        requestRegisters := obj.requestRegisters)
  }

  /** Requests for no items or from nobody are dropped. */
  function Step(st: State, a: Action): State {
    match a
    case Subscribe(items, client, toRequestData) =>
      if items == {} || client.None? then st else Subscribed(st, items, client.value, toRequestData)
    case UpdateSubscription(items, client) =>
      if items == {} || client.None? then st else SubscriptionUpdated(st, items, client.value)
    case Unsubscribe(items, client) => if items == {} || client.None? then st else Unsubscribed(st, items, client.value)
    case UnsubscribeAll(client) => if client.None? then st else AllUnsubscribed(st, client.value)
    case SetSubscriptionObj(obj) => if obj.None? then st else Connected(st, obj.value)
  }

  const START := State(map[], map[], false, {}, false)

  // ---------- The two maps agree ----------

  ghost predicate Inverse(st: State) {
    forall c, i :: Related(st.clientToItems, c, i) <==> Related(st.itemToClients, i, c)
  }

  /** The two maps are inverse relations without empty entries. */
  ghost predicate Agree(st: State) {
    Inverse(st) && NoEmptyEntry(st.clientToItems) && NoEmptyEntry(st.itemToClients)
  }

  /** What is registered with the framework is what somebody wants. */
  predicate Exact(st: State) {
    st.connected ==> st.registered == st.itemToClients.Keys
  }

  /** Nothing is registered that nobody wants. */
  predicate NothingSpare(st: State) {
    st.connected ==> st.registered <= st.itemToClients.Keys
  }

  lemma SubscribeKeeps(st: State, items: set<DataItemId>, c: Client, toRequestData: bool)
    requires Agree(st)
    ensures Agree(Subscribed(st, items, c, toRequestData))
  {
    var st' := Subscribed(st, items, c, toRequestData);
    forall d, i ensures Related(st'.clientToItems, d, i) <==> Related(st'.itemToClients, i, d) {
      RelatedAfter(st.clientToItems, {c}, items, d, i);
      RelatedAfter(st.itemToClients, items, {c}, i, d);
    }
    NoEmptyAfter(st.clientToItems, {c}, items);
    NoEmptyAfter(st.itemToClients, items, {c});
  }

  lemma UnsubscribeKeeps(st: State, items: set<DataItemId>, c: Client)
    requires Agree(st)
    ensures Agree(Unsubscribed(st, items, c))
  {
    var st' := Unsubscribed(st, items, c);
    var unused := GoneVals(st.clientToItems, {c}, items);
    forall d, i ensures Related(st'.clientToItems, d, i) <==> Related(st'.itemToClients, i, d) {
      RelatedAfter(st.clientToItems, {c}, items, d, i);
      RelatedAfter(st.itemToClients, unused, {c}, i, d);
    }
    NoEmptyAfter(st.clientToItems, {c}, items);
    NoEmptyAfter(st.itemToClients, unused, {c});
  }

  lemma UnsubscribeAllKeeps(st: State, c: Client)
    requires Agree(st)
    ensures Agree(AllUnsubscribed(st, c))
  {
    var st', items := AllUnsubscribed(st, c), ValSet(st.clientToItems, c);
    forall d, i ensures Related(st'.clientToItems, d, i) <==> Related(st'.itemToClients, i, d) {
      RelatedAfter(st.itemToClients, items, {c}, i, d);
    }
    NoEmptyAfter(st.itemToClients, items, {c});
  }

  /** Entry by entry, after an update that trims `gone`. */
  lemma UpdateRelates(st: State, items: set<DataItemId>, c: Client, gone: set<DataItemId>, d: Client, i: DataItemId)
    requires items != {}
    ensures var st' := UpdatedWith(st, items, c, gone);
      && (Related(st'.clientToItems, d, i) <==> if d == c then i in items else Related(st.clientToItems, d, i))
      && (Related(st'.itemToClients, i, d) <==>
            (Related(st.itemToClients, i, d) && !(d == c && i in gone)) ||
            (d == c && i in items - ValSet(st.clientToItems, c)))
  {
    var trimmed := Trimmed(st.itemToClients, gone, {c});
    RelatedAfter(st.itemToClients, gone, {c}, i, d);
    RelatedAfter(trimmed, items - ValSet(st.clientToItems, c), {c}, i, d);
    hide Added, Trimmed;
  }

  /** An update leaves no entry empty, whatever it trims. */
  lemma UpdateLeavesNoneEmpty(st: State, items: set<DataItemId>, c: Client, gone: set<DataItemId>)
    requires Agree(st) && items != {}
    ensures var st' := UpdatedWith(st, items, c, gone); Agree(st') <==> Inverse(st')
  {
    NoEmptyAfter(st.itemToClients, gone, {c});
    NoEmptyAfter(Trimmed(st.itemToClients, gone, {c}), items - ValSet(st.clientToItems, c), {c});
    hide Inverse, Added, Trimmed;
  }

  /** updateSubscription keeps the maps agreeing exactly when the client had no items before. */
  lemma UpdateKeepsIff(st: State, items: set<DataItemId>, c: Client)
    requires Agree(st) && items != {}
    ensures Agree(SubscriptionUpdated(st, items, c)) <==> ValSet(st.clientToItems, c) == {}
  {
    var cur := ValSet(st.clientToItems, c);
    var st' := SubscriptionUpdated(st, items, c);
    UpdateLeavesNoneEmpty(st, items, c, items * cur);
    if cur != {} {
      var i :| i in cur;
      assert Related(st.clientToItems, c, i);
      UpdateRelates(st, items, c, items * cur, c, i);
      assert Related(st'.clientToItems, c, i) <==> i in items;
      assert Related(st'.itemToClients, i, c) <==> i !in items;
    } else {
      forall d, i ensures Related(st'.clientToItems, d, i) <==> Related(st'.itemToClients, i, d) {
        UpdateRelates(st, items, c, items * cur, d, i);
        assert Related(st.clientToItems, d, i) <==> Related(st.itemToClients, i, d);
      }
    }
    hide SubscriptionUpdated;
  }

  /** Trimming what the client really gave up, the values that the documentation of update promises, keeps
      the maps agreeing and the registrations exact for every client. */
  lemma RepairedUpdateKeeps(st: State, items: set<DataItemId>, c: Client)
    requires Agree(st) && items != {}
    ensures var st' := UpdatedWith(st, items, c, ValSet(st.clientToItems, c) - items);
      Agree(st') && (Exact(st) ==> Exact(st'))
  {
    var gone := ValSet(st.clientToItems, c) - items;
    var st' := UpdatedWith(st, items, c, gone);
    UpdateLeavesNoneEmpty(st, items, c, gone);
    UpdateRegisters(st, items, c, gone);
    forall d, i ensures Related(st'.clientToItems, d, i) <==> Related(st'.itemToClients, i, d) {
      UpdateRelates(st, items, c, gone, d, i);
      assert Related(st.clientToItems, d, i) <==> Related(st.itemToClients, i, d);
    }
    hide UpdatedWith;
  }

  /** One client, subscribed to {1, 2}. */
  function OneAndTwo(f: Framework, c: Client): State {
    Subscribed(Connected(START, f), {DataItem(1), DataItem(2)}, c, false)
  }

  lemma OneAndTwoIs(f: Framework, c: Client)
    requires f.registered == {}
    ensures var one, two := DataItem(1), DataItem(2);
      OneAndTwo(f, c) ==
      State(map[c := {one, two}], map[one := {c}, two := {c}], true, {one, two}, f.requestRegisters)
  {
    var one, two := DataItem(1), DataItem(2);
    AddToOne(START.clientToItems, c, {one, two});
    assert ValSet(START.clientToItems, c) + {one, two} == {one, two};
    assert {} + {c} == {c};
    assert Added(START.itemToClients, {one, two}, {c}) == map[one := {c}, two := {c}];
    assert NewKeys(START.itemToClients, {one, two}, {c}) == {one, two};
  }

  /** From {1, 2} to {2, 3}: the client stays listed under 1 and vanishes from 2, which the framework is told
      to drop. */
  lemma UpdateBreaks(f: Framework, c: Client)
    requires f.registered == {}
    ensures var one, two, three := DataItem(1), DataItem(2), DataItem(3);
      && Agree(OneAndTwo(f, c)) && Exact(OneAndTwo(f, c))
      && SubscriptionUpdated(OneAndTwo(f, c), {two, three}, c) ==
         State(map[c := {two, three}], map[one := {c}, three := {c}], true, {one, three}, f.requestRegisters)
  {
    var one, two, three := DataItem(1), DataItem(2), DataItem(3);
    var st := OneAndTwo(f, c);
    SubscribeKeeps(Connected(START, f), {one, two}, c, false);
    OneAndTwoIs(f, c);
    assert {two, three} * {one, two} == {two} && {two, three} - {one, two} == {three};
    TwoMakesRoomForThree(c);
    assert {one, two} + {three} - {two} == {one, three};
    hide Agree, OneAndTwo, Trimmed, GoneKeys, Added, NewKeys;
  }

  lemma TwoMakesRoomForThree(c: Client)
    ensures var one, two, three := DataItem(1), DataItem(2), DataItem(3);
      var m := map[one := {c}, two := {c}];
      && Trimmed(m, {two}, {c}) == map[one := {c}] && GoneKeys(m, {two}, {c}) == {two}
      && Added(map[one := {c}], {three}, {c}) == map[one := {c}, three := {c}]
      && NewKeys(map[one := {c}], {three}, {c}) == {three}
  {
    assert {} + {c} == {c};
  }

  // ---------- The framework is asked for what somebody wants ----------

  /** What an update registers makes up for what it adds and takes away, whatever it trims. */
  lemma UpdateRegisters(st: State, items: set<DataItemId>, c: Client, gone: set<DataItemId>)
    requires gone !! (items - ValSet(st.clientToItems, c))
    ensures var st' := UpdatedWith(st, items, c, gone);
      && (Exact(st) ==> Exact(st')) && (NothingSpare(st) ==> NothingSpare(st'))
      && forall i :: Unregistered(st, i) && i in st'.itemToClients ==> Unregistered(st', i)
  {
    var trimmed := Trimmed(st.itemToClients, gone, {c});
    KeysAfter(st.itemToClients, gone, {c});
    KeysAfter(trimmed, items - ValSet(st.clientToItems, c), {c});
    hide Added, Trimmed;
  }

  /** With a framework whose requestData registers nothing, a subscription that asks for data leaves
      unregistered whatever nobody wanted before. */
  lemma SubscribeRegistersIff(st: State, items: set<DataItemId>, c: Client, toRequestData: bool)
    requires Exact(st)
    ensures Exact(Subscribed(st, items, c, toRequestData)) <==>
      !OnlyRequested(st, toRequestData) || items <= st.itemToClients.Keys
  {
    KeysAfter(st.itemToClients, items, {c});
    if !(items <= st.itemToClients.Keys) {
      var i :| i in items && i !in st.itemToClients.Keys;
      assert i in NewKeys(st.itemToClients, items, {c});
    }
    hide Added;
  }

  /** Somebody wants the item, and the framework is there but has it not registered. */
  predicate Unregistered(st: State, i: DataItemId) {
    i in st.itemToClients && st.connected && i !in st.registered
  }

  /** No request for an item that was missed makes up for it while somebody wants the item; only a new
      subscription object is asked for it. */
  lemma MissedStays(st: State, a: Action, i: DataItemId)
    requires Unregistered(st, i) && i in Step(st, a).itemToClients && !a.SetSubscriptionObj?
    ensures Unregistered(Step(st, a), i)
  {
    match a
    case UpdateSubscription(items, client) =>
      if items != {} && client.Some? {
        UpdateRegisters(st, items, client.value, items * ValSet(st.clientToItems, client.value));
      }
    case _ =>
  }

  /** One client asks for the data of an item, another subscribes to it: both want it, and a framework whose
      requestData registers nothing is never asked to. */
  lemma RequestHidesSubscription(f: Framework, c: Client, d: Client, i: DataItemId)
    requires f.registered == {} && !f.requestRegisters
    ensures var st := Subscribed(Subscribed(Connected(START, f), {i}, c, true), {i}, d, false);
      && i in ValSet(st.clientToItems, c) && i in ValSet(st.clientToItems, d)
      && st.connected && st.registered == {}
  {
    var st := Subscribed(Connected(START, f), {i}, c, true);
    assert i in st.itemToClients.Keys;
    assert NewKeys(st.itemToClients, {i}, {d}) == {};
  }

  // ---------- Over every run ----------

  /** Checked before a request: an update comes from a client without items. */
  predicate KeepsMaps(st: State, a: Action) {
    a.UpdateSubscription? ==> a.items == {} || a.client.None? || ValSet(st.clientToItems, a.client.value) == {}
  }

  /** Checked before a request: a subscription object has not been asked for anything that nobody wants. */
  predicate BringsNothingSpare(st: State, a: Action) {
    a.SetSubscriptionObj? && a.obj.Some? ==> a.obj.value.registered <= st.itemToClients.Keys
  }

  /** The same, and a mere request for data concerns items that somebody wants already. */
  predicate KeepsExact(st: State, a: Action) {
    && BringsNothingSpare(st, a)
    && (a.Subscribe? && a.client.Some? && OnlyRequested(st, a.toRequestData) ==> a.items <= st.itemToClients.Keys)
  }

  /** The maps go on agreeing after exactly the requests that keep them. */
  lemma StepKeepsMapsIff(st: State, a: Action)
    requires Agree(st)
    ensures Agree(Step(st, a)) <==> KeepsMaps(st, a)
  {
    match a {
      case Subscribe(items, client, toRequestData) =>
        if client.Some? {
          SubscribeKeeps(st, items, client.value, toRequestData);
        }
      case UpdateSubscription(items, client) =>
        if items != {} && client.Some? {
          UpdateKeepsIff(st, items, client.value);
        }
      case Unsubscribe(items, client) =>
        if client.Some? {
          UnsubscribeKeeps(st, items, client.value);
        }
      case UnsubscribeAll(client) =>
        if client.Some? {
          UnsubscribeAllKeeps(st, client.value);
        }
      case SetSubscriptionObj(obj) =>
        hide NoEmptyEntry;
    }
    hide Subscribed, SubscriptionUpdated, Unsubscribed, AllUnsubscribed;
  }

  /** Whether or not the maps agree, what is registered stays what somebody wants after exactly the requests
      that keep it so. */
  lemma StepKeepsExactIff(st: State, a: Action)
    requires Exact(st)
    ensures Exact(Step(st, a)) <==> KeepsExact(st, a)
  {
    match a {
      case Subscribe(items, client, toRequestData) =>
        if client.Some? {
          SubscribeRegistersIff(st, items, client.value, toRequestData);
        }
        hide Subscribed;
      case UpdateSubscription(items, client) =>
        if items != {} && client.Some? {
          UpdateRegisters(st, items, client.value, items * ValSet(st.clientToItems, client.value));
        }
        hide UpdatedWith;
      case Unsubscribe(items, client) =>
        if client.Some? {
          KeysAfter(st.itemToClients, GoneVals(st.clientToItems, {client.value}, items), {client.value});
        }
      case UnsubscribeAll(client) =>
        if client.Some? {
          KeysAfter(st.itemToClients, ValSet(st.clientToItems, client.value), {client.value});
        }
      case SetSubscriptionObj(obj) =>
    }
  }

  /** With any framework, only a subscription object that brings it along makes something registered that nobody
      wants. */
  lemma StepKeepsNothingSpareIff(st: State, a: Action)
    requires NothingSpare(st)
    ensures NothingSpare(Step(st, a)) <==> BringsNothingSpare(st, a)
  {
    match a {
      case Subscribe(items, client, toRequestData) =>
        if client.Some? {
          KeysAfter(st.itemToClients, items, {client.value});
        }
      case UpdateSubscription(items, client) =>
        if items != {} && client.Some? {
          UpdateRegisters(st, items, client.value, items * ValSet(st.clientToItems, client.value));
        }
        hide UpdatedWith;
      case Unsubscribe(items, client) =>
        if client.Some? {
          KeysAfter(st.itemToClients, GoneVals(st.clientToItems, {client.value}, items), {client.value});
        }
      case UnsubscribeAll(client) =>
        if client.Some? {
          KeysAfter(st.itemToClients, ValSet(st.clientToItems, client.value), {client.value});
        }
      case SetSubscriptionObj(obj) =>
    }
  }

  ghost function After(run: seq<Action>): State {
    if run == [] then START else Step(After(run[..|run| - 1]), run[|run| - 1])
  }

  /** Every request of a run meets a condition on the state it finds. */
  ghost predicate Throughout(run: seq<Action>, condition: (State, Action) -> bool) {
    run == [] || (Throughout(run[..|run| - 1], condition) && condition(After(run[..|run| - 1]), run[|run| - 1]))
  }

  /** Over every run of requests that keep them, the maps are inverse relations without empty entries. */
  lemma {:induction false} RunKeepsMaps(run: seq<Action>)
    requires Throughout(run, KeepsMaps)
    ensures Agree(After(run))
  {
    if run != [] {
      RunKeepsMaps(run[..|run| - 1]);
      StepKeepsMapsIff(After(run[..|run| - 1]), run[|run| - 1]);
    }
  }

  /** Over every run of requests that keep it so, what is registered with the framework is what somebody wants. */
  lemma {:induction false} RunKeepsExact(run: seq<Action>)
    requires Throughout(run, KeepsExact)
    ensures Exact(After(run))
  {
    if run != [] {
      RunKeepsExact(run[..|run| - 1]);
      StepKeepsExactIff(After(run[..|run| - 1]), run[|run| - 1]);
    }
  }

  /** Over every run in which no subscription object brings it along, nothing is registered that nobody wants. */
  lemma {:induction false} RunKeepsNothingSpare(run: seq<Action>)
    requires Throughout(run, BringsNothingSpare)
    ensures NothingSpare(After(run))
  {
    if run != [] {
      RunKeepsNothingSpare(run[..|run| - 1]);
      StepKeepsNothingSpareIff(After(run[..|run| - 1]), run[|run| - 1]);
    }
  }

  /** Over the last requests of a run, from the `from`-th on, somebody wants the item, and there is no new
      subscription object. */
  ghost predicate WantedSince(run: seq<Action>, from: nat, i: DataItemId) {
    && (from < |run| ==> !run[|run| - 1].SetSubscriptionObj? && WantedSince(run[..|run| - 1], from, i))
    && i in After(run).itemToClients
  }

  /** An item that was missed stays so for as long as somebody wants it, whoever subscribes to it. */
  lemma {:induction false} MissedStaysMissed(run: seq<Action>, from: nat, i: DataItemId)
    requires from <= |run| && Unregistered(After(run[..from]), i) && WantedSince(run, from, i)
    ensures Unregistered(After(run), i)
  {
    if from == |run| {
      assert run[..from] == run;
    } else {
      assert run[..|run| - 1][..from] == run[..from];
      MissedStaysMissed(run[..|run| - 1], from, i);
      hide Step, Unregistered;
      MissedStays(After(run[..|run| - 1]), run[|run| - 1], i);
    }
  }

  // ---------- Who wants what ----------

  /** Does a request ask for an item on behalf of a client, or give it up? None if it does neither. */
  function Says(a: Action, c: Client, i: DataItemId): Option<bool> {
    match a
    case Subscribe(items, client, _) => if client == Some(c) && i in items then Some(true) else None
    case UpdateSubscription(items, client) => if client == Some(c) && items != {} then Some(i in items) else None
    case Unsubscribe(items, client) => if client == Some(c) && i in items then Some(false) else None
    case UnsubscribeAll(client) => if client == Some(c) then Some(false) else None
    case SetSubscriptionObj(_) => None
  }

  /** Every request adds and takes away exactly the pairs that it speaks of. */
  lemma StepRelates(st: State, a: Action, c: Client, i: DataItemId)
    ensures Related(Step(st, a).clientToItems, c, i) <==>
      match Says(a, c, i)
      case Some(wanted) => wanted
      case None => Related(st.clientToItems, c, i)
  {
    match a {
      case Subscribe(items, client, toRequestData) =>
        if client.Some? {
          RelatedAfter(st.clientToItems, {client.value}, items, c, i);
        }
        hide Added;
      case UpdateSubscription(items, client) =>
        if client.Some? && items != {} {
          UpdateRelates(st, items, client.value, items * ValSet(st.clientToItems, client.value), c, i);
        }
        hide UpdatedWith;
      case Unsubscribe(items, client) =>
        if client.Some? {
          RelatedAfter(st.clientToItems, {client.value}, items, c, i);
        }
        hide Trimmed, GoneVals;
      case UnsubscribeAll(client) =>
      case SetSubscriptionObj(_) =>
    }
  }

  /** What becomes of the pair in the map from items to clients, whether or not the maps agree: what a client gives
      up is taken out if the other map had it, and an update takes out what it should keep. */
  lemma StepRelatesBack(st: State, a: Action, c: Client, i: DataItemId)
    ensures var was, listed := Related(st.itemToClients, i, c), Related(st.clientToItems, c, i);
      Related(Step(st, a).itemToClients, i, c) <==>
      match Says(a, c, i)
      case Some(true) => if a.UpdateSubscription? then !listed else true
      case Some(false) => if a.UpdateSubscription? then was else was && !listed
      case None => was
  {
    match a {
      case Subscribe(items, client, toRequestData) =>
        if client.Some? {
          RelatedAfter(st.itemToClients, items, {client.value}, i, c);
        }
        hide Added;
      case UpdateSubscription(items, client) =>
        if client.Some? && items != {} {
          UpdateRelates(st, items, client.value, items * ValSet(st.clientToItems, client.value), c, i);
        }
        hide UpdatedWith;
      case Unsubscribe(items, client) =>
        if client.Some? {
          RelatedAfter(st.itemToClients, GoneVals(st.clientToItems, {client.value}, items), {client.value}, i, c);
        }
        hide Trimmed;
      case UnsubscribeAll(client) =>
        if client.Some? {
          RelatedAfter(st.itemToClients, ValSet(st.clientToItems, client.value), {client.value}, i, c);
        }
        hide Trimmed;
      case SetSubscriptionObj(_) =>
    }
  }

  /** What the last request of a run that spoke of the pair said. */
  function Wants(run: seq<Action>, c: Client, i: DataItemId): bool {
    run != [] && (
      match Says(run[|run| - 1], c, i)
      case Some(wanted) => wanted
      case None => Wants(run[..|run| - 1], c, i)
    )
  }

  /** Over every run, a client is listed with exactly the items that it asked for last and has not given up. */
  lemma {:induction false} RunRelates(run: seq<Action>, c: Client, i: DataItemId)
    ensures Related(After(run).clientToItems, c, i) <==> Wants(run, c, i)
  {
    if run != [] {
      RunRelates(run[..|run| - 1], c, i);
      hide Step, Says;
      StepRelates(After(run[..|run| - 1]), run[|run| - 1], c, i);
    }
  }

  // ---------- Notification ----------

  /** What one client is sent: items with their values. */
  datatype Delivery = Delivery(client: Client, items: map<DataItemId, string>)

  /** The clients listed under any of some items. */
  function Interested(m: map<DataItemId, set<Client>>, items: set<DataItemId>): set<Client> {
    set i, c | i in items && i in m && c in m[i] :: c
  }

  /** For each of some clients its items among the updated ones. */
  function Chosen(m: map<Client, set<DataItemId>>, clients: set<Client>, updated: set<DataItemId>):
      map<Client, set<DataItemId>>
  {
    map c | c in clients && ValSet(m, c) * updated != {} :: ValSet(m, c) * updated
  }

  /** Whom the second map lists under an updated item, and what the first lists for each of them. */
  function Selected(st: State, updated: set<DataItemId>): map<Client, set<DataItemId>> {
    Chosen(st.clientToItems, Interested(st.itemToClients, updated), updated)
  }

  /** As long as the maps agree, a notification reaches exactly the clients with an updated item among theirs,
      each with exactly those items. */
  lemma NotifySelectsExactly(st: State, updated: set<DataItemId>, c: Client)
    requires Inverse(st)
    ensures c in Selected(st, updated) <==> ValSet(st.clientToItems, c) * updated != {}
    ensures c in Selected(st, updated) ==> Selected(st, updated)[c] == ValSet(st.clientToItems, c) * updated
  {
    if ValSet(st.clientToItems, c) * updated != {} {
      var i :| i in ValSet(st.clientToItems, c) * updated;
      assert Related(st.clientToItems, c, i);
      assert Related(st.itemToClients, i, c);
    }
  }

  /** After every run, no notification tells a client of an item that it does not want; and as long as the maps have
      been kept agreeing, each tells it of all that it wants. */
  lemma ToldWhatIsWanted(run: seq<Action>, updated: set<DataItemId>, c: Client, i: DataItemId)
    ensures var told := Selected(After(run), updated);
      && (c in told && i in told[c] ==> Wants(run, c, i) && i in updated)
      && (Throughout(run, KeepsMaps) && Wants(run, c, i) && i in updated ==> c in told && i in told[c])
  {
    RunRelates(run, c, i);
    hide Wants;
    if Throughout(run, KeepsMaps) && Wants(run, c, i) && i in updated {
      RunKeepsMaps(run);
      hide After, Throughout;
      NotifySelectsExactly(After(run), updated, c);
      assert i in ValSet(After(run).clientToItems, c) * updated;
    }
  }

  /** In a batch that brings each item at most once, a client is told of an item exactly if it wants it and the
      batch brings the cache a new value for it. */
  lemma ToldOfChanges(run: seq<Action>, cache: Cache, v: seq<Incoming>, c: Client, i: DataItemId)
    requires Throughout(run, KeepsMaps) && EachOnce(v)
    ensures var told := Selected(After(run), UpdatedIds(cache, v));
      c in told && i in told[c] <==> Wants(run, c, i) && Changed(cache, CacheAfter(cache, v), i)
  {
    hide *;
    UpdatedExactly(cache, v, i);
    ToldWhatIsWanted(run, UpdatedIds(cache, v), c, i);
  }

  /** After the broken update from {1, 2} to {2, 3} news about 2 reach nobody. */
  lemma UpdateSilences(f: Framework, c: Client)
    requires f.registered == {}
    ensures var two, three := DataItem(2), DataItem(3);
      var st := SubscriptionUpdated(OneAndTwo(f, c), {two, three}, c);
      two in ValSet(st.clientToItems, c) && Selected(st, {two}) == map[]
  {
    UpdateBreaks(f, c);
    hide OneAndTwo, SubscriptionUpdated;
  }

  /** Deliveries in some order: one for each client of `m`, with its items as they are cached, and no other. */
  ghost predicate Delivers(ds: seq<Delivery>, m: map<Client, set<DataItemId>>, cache: Cache) {
    && (forall k {:trigger ds[k]} :: 0 <= k < |ds| ==>
          ds[k].client in m && ds[k].items == Cached(cache, m[ds[k].client]))
    && (forall j, k {:trigger ds[j], ds[k]} :: 0 <= j < k < |ds| ==> ds[j].client != ds[k].client)
    && |ds| == |m|
  }

  function DeliveryFor(m: map<Client, set<DataItemId>>, c: Client, updated: set<DataItemId>, cache: Cache):
      seq<Delivery>
  {
    if ValSet(m, c) * updated == {} then [] else [Delivery(c, Cached(cache, ValSet(m, c) * updated))]
  }

  lemma DeliversNone(m: map<Client, set<DataItemId>>, updated: set<DataItemId>, cache: Cache)
    ensures Delivers([], Chosen(m, {}, updated), cache)
  {
    assert Chosen(m, {}, updated) == map[];
  }

  lemma DeliversOneMore(ds: seq<Delivery>, m: map<Client, set<DataItemId>>, done: set<Client>, c: Client,
                        updated: set<DataItemId>, cache: Cache)
    requires c !in done && Delivers(ds, Chosen(m, done, updated), cache)
    ensures Delivers(ds + DeliveryFor(m, c, updated, cache), Chosen(m, done + {c}, updated), cache)
  {
    ChosenOneMore(m, done, c, updated);
    var items := ValSet(m, c) * updated;
    if items != {} {
      hide *;
      AppendDelivery(ds, Chosen(m, done, updated), c, items, cache);
    }
  }

  /** How far the last loop of a notification has come. */
  ghost predicate Telling(before: seq<Delivery>, now: seq<Delivery>, ds: seq<Delivery>,
                          m: map<Client, set<DataItemId>>, done: set<Client>, updated: set<DataItemId>, cache: Cache)
  {
    now == before + ds && Delivers(ds, Chosen(m, done, updated), cache)
  }

  lemma TellingOneMore(before: seq<Delivery>, now: seq<Delivery>, ds: seq<Delivery>, m: map<Client, set<DataItemId>>,
                       done: set<Client>, c: Client, updated: set<DataItemId>, cache: Cache)
    requires Telling(before, now, ds, m, done, updated, cache) && c !in done
    ensures var d := DeliveryFor(m, c, updated, cache);
      Telling(before, now + d, ds + d, m, done + {c}, updated, cache)
  {
    DeliversOneMore(ds, m, done, c, updated, cache);
  }

  lemma AppendDelivery(ds: seq<Delivery>, m: map<Client, set<DataItemId>>, c: Client, items: set<DataItemId>,
                       cache: Cache)
    requires Delivers(ds, m, cache) && c !in m
    ensures Delivers(ds + [Delivery(c, Cached(cache, items))], m[c := items], cache)
  {
    hide Cached;
  }

  lemma ChosenOneMore(m: map<Client, set<DataItemId>>, done: set<Client>, c: Client, updated: set<DataItemId>)
    requires c !in done
    ensures c !in Chosen(m, done, updated)
    ensures Chosen(m, done + {c}, updated) ==
      if ValSet(m, c) * updated == {} then Chosen(m, done, updated)
      else Chosen(m, done, updated)[c := ValSet(m, c) * updated]
  {
  }

  // ---------- The code ----------

  /** The framework's side of a subscription: the items registered, and those whose data it was asked for. */
  class IDataItemSubscription {
    ghost const requestRegisters: bool
    ghost var registered: set<DataItemId>
    ghost var requested: set<DataItemId>

    ghost function Abs(): Framework
      reads this
    {
      Framework(registered, requestRegisters)
    }

    method Subscribe(items: set<DataItemId>)
      modifies this
      ensures registered == old(registered) + items && requested == old(requested)
    {
      registered := registered + items;
    }

    method RequestData(items: set<DataItemId>)
      modifies this
      ensures requested == old(requested) + items
      ensures registered == if requestRegisters then old(registered) + items else old(registered)
    {
      requested := requested + items;
      if requestRegisters {
        registered := registered + items;
      }
    }

    method Unsubscribe(items: set<DataItemId>)
      modifies this
      ensures registered == old(registered) - items && requested == old(requested)
    {
      registered := registered - items;
    }
  }

  /** What a client is sent of some items: those that are cached, if any are. */
  function FirstResponse(cache: Cache, items: set<DataItemId>, c: Client): seq<Delivery> {
    if Cached(cache, items) == map[] then [] else [Delivery(c, Cached(cache, items))]
  }

  /** A first response goes to the client alone, and tells of exactly those of the items that are cached, by the
      values in the cache; where none is, nothing is sent. */
  lemma FirstResponseIsCached(cache: Cache, items: set<DataItemId>, c: Client)
    ensures |FirstResponse(cache, items, c)| <= 1
    ensures FirstResponse(cache, items, c) == [] <==> items !! cache.Keys
    ensures forall d, i :: d in FirstResponse(cache, items, c) ==>
      d.client == c && (i in d.items <==> i in items && i in cache) && (i in d.items ==> d.items[i] == cache[i])
  {
    if !(items !! cache.Keys) {
      var i :| i in items && i in cache;
      assert i in Cached(cache, items);
    }
  }

  /** The items whose data a subscription asks for: those that nobody had subscribed to. */
  function AskedFor(m: map<DataItemId, set<Client>>, items: set<DataItemId>, client: Option<Client>,
                    toRequestData: bool): set<DataItemId>
  {
    if client.None? || !toRequestData then {} else NewKeys(m, items, {client.value})
  }

  /** So data are asked for exactly where a subscription asks for them and nobody wanted the item before. */
  lemma AskedForUnwanted(m: map<DataItemId, set<Client>>, items: set<DataItemId>, client: Option<Client>,
                         toRequestData: bool, i: DataItemId)
    requires NoEmptyEntry(m)
    ensures i in AskedFor(m, items, client, toRequestData) <==>
      client.Some? && toRequestData && i in items && forall c :: !Related(m, i, c)
  {
    if i in m {
      var c :| c in m[i];
      assert Related(m, i, c);
    }
  }

  /** containerTransfer, of a list into a set. */
  method ToSet(l: seq<DataItemId>) returns (items: set<DataItemId>)
    ensures items == Items(l)
  {
    items := {};
    var i := 0;
    while i < |l|
      invariant 0 <= i <= |l| && items == Items(l[..i])
    {
      assert l[..i + 1] == l[..i] + [l[i]];
      items := items + {l[i]};
      i := i + 1;
    }
    assert l[..i] == l;
  }

  function Items(l: seq<DataItemId>): set<DataItemId> {
    set item | item in l
  }

  class Observer {
    var mSubscriptionObj: IDataItemSubscription?
    const mClientToDataItems: LocUnorderedSetMap<Client, DataItemId>
    const mDataItemToClients: LocUnorderedSetMap<DataItemId, Client>
    var mDataItemCache: Cache
    ghost var notified: seq<Delivery>

    constructor ()
      ensures Abs() == START && fresh(mClientToDataItems) && fresh(mDataItemToClients) && mSubscriptionObj == null
    {
      mSubscriptionObj, mDataItemCache, notified := null, map[], [];
      mClientToDataItems := new LocUnorderedSetMap<Client, DataItemId>();
      mDataItemToClients := new LocUnorderedSetMap<DataItemId, Client>();
    }

    ghost function Abs(): State
      reads this, mClientToDataItems, mDataItemToClients, mSubscriptionObj
    {
      State(mClientToDataItems.mMap, mDataItemToClients.mMap,
            mSubscriptionObj != null, if mSubscriptionObj == null then {} else mSubscriptionObj.registered,
            mSubscriptionObj != null && mSubscriptionObj.requestRegisters)
    }

    method SetSubscriptionObj(subscriptionObj: IDataItemSubscription?)
      modifies this`mSubscriptionObj, subscriptionObj
      ensures Abs() == Step(old(Abs()), Action.SetSubscriptionObj(
        if subscriptionObj == null then None else Some(old(subscriptionObj.Abs()))))
      ensures subscriptionObj != null ==>
        subscriptionObj.requested == old(subscriptionObj.requested) + old(mDataItemToClients.mMap).Keys
    {
      if subscriptionObj == null {
        return;
      }
      mSubscriptionObj := subscriptionObj;
      if mDataItemToClients.mMap != map[] {
        var keys := mDataItemToClients.GetKeys();
        mSubscriptionObj.Subscribe(keys);
        mSubscriptionObj.RequestData(keys);
      }
    }

    method Subscribe(l: seq<DataItemId>, client: Option<Client>, toRequestData: bool)
      modifies mClientToDataItems, mDataItemToClients, mSubscriptionObj, this`notified
      ensures Abs() == Step(old(Abs()), Action.Subscribe(Items(l), client, toRequestData))
      ensures notified == old(notified) +
        if l == [] || client.None? then [] else FirstResponse(mDataItemCache, Items(l), client.value)
      ensures mSubscriptionObj != null ==>
        mSubscriptionObj.requested ==
        old(mSubscriptionObj.requested + AskedFor(mDataItemToClients.mMap, Items(l), client, toRequestData))
    {
      if l == [] || client.None? {
        return;
      }
      assert l[0] in Items(l);
      var items := ToSet(l);
      var dataItemsToSubscribe := mDataItemToClients.Add(items, {client.value});
      var added := mClientToDataItems.AddEntry(client.value, items);
      SendCachedDataItems(items, client.value);
      if mSubscriptionObj != null && dataItemsToSubscribe != {} {
        if toRequestData {
          mSubscriptionObj.RequestData(dataItemsToSubscribe);
        } else {
          mSubscriptionObj.Subscribe(dataItemsToSubscribe);
        }
      }
      hide Added, NewKeys, Items;
    }

    method UpdateSubscription(l: seq<DataItemId>, client: Option<Client>)
      modifies mClientToDataItems, mDataItemToClients, mSubscriptionObj, this`notified
      ensures Abs() == Step(old(Abs()), Action.UpdateSubscription(Items(l), client))
      ensures notified == old(notified) + if l == [] || client.None? then []
        else FirstResponse(mDataItemCache, Items(l) - ValSet(old(mClientToDataItems.mMap), client.value), client.value)
    {
      if l == [] || client.None? {
        return;
      }
      assert l[0] in Items(l);
      var items := ToSet(l);
      hide Added, NewKeys, Items, Trimmed, GoneKeys, Updated;
      var unused, left := mClientToDataItems.Update(client.value, items);
      var dataItemsToUnsubscribe, _ := mDataItemToClients.TrimOrRemove(unused, {client.value});
      var dataItemsToSubscribe := mDataItemToClients.Add(left, {client.value});
      SendCachedDataItems(left, client.value);
      if mSubscriptionObj != null {
        if dataItemsToSubscribe != {} {
          mSubscriptionObj.Subscribe(dataItemsToSubscribe);
        }
        if dataItemsToUnsubscribe != {} {
          mSubscriptionObj.Unsubscribe(dataItemsToUnsubscribe);
        }
      }
      assert mSubscriptionObj != null ==>
        mSubscriptionObj.registered ==
        old(mSubscriptionObj.registered) + dataItemsToSubscribe - dataItemsToUnsubscribe;
    }

    method Unsubscribe(l: seq<DataItemId>, client: Option<Client>)
      modifies mClientToDataItems, mDataItemToClients, mSubscriptionObj
      ensures Abs() == Step(old(Abs()), Action.Unsubscribe(Items(l), client))
    {
      if l == [] || client.None? {
        return;
      }
      assert l[0] in Items(l);
      var items := ToSet(l);
      hide Items, Trimmed, GoneKeys, GoneVals;
      var clientToRemove, unused := mClientToDataItems.TrimOrRemove({client.value}, items);
      var dataItemsToUnsubscribe, _ := mDataItemToClients.TrimOrRemove(unused, {client.value});
      if mSubscriptionObj != null && dataItemsToUnsubscribe != {} {
        mSubscriptionObj.Unsubscribe(dataItemsToUnsubscribe);
      }
    }

    method UnsubscribeAll(client: Option<Client>)
      modifies mClientToDataItems, mDataItemToClients, mSubscriptionObj
      ensures Abs() == Step(old(Abs()), Action.UnsubscribeAll(client))
    {
      if client.None? {
        return;
      }
      hide Trimmed, GoneKeys;
      var items := mClientToDataItems.GetValSet(client.value);
      if items != {} {
        var removed := mClientToDataItems.Remove(client.value);
        var dataItemsToUnsubscribe, _ := mDataItemToClients.TrimOrRemove(items, {client.value});
        if dataItemsToUnsubscribe != {} && mSubscriptionObj != null {
          mSubscriptionObj.Unsubscribe(dataItemsToUnsubscribe);
        }
      }
    }

    method SendCachedDataItems(s: set<DataItemId>, to: Client)
      modifies this`notified
      ensures notified == old(notified) + FirstResponse(mDataItemCache, s, to)
    {
      var dataItems: map<DataItemId, string> := map[];
      var rest := s;
      while rest != {}
        invariant rest <= s && dataItems == Cached(mDataItemCache, s - rest)
        decreases rest
      {
        var each :| each in rest;
        if each in mDataItemCache {
          dataItems := dataItems[each := mDataItemCache[each]];
        }
        rest := rest - {each};
      }
      assert s - rest == s;
      if dataItems != map[] {
        notified := notified + [Delivery(to, dataItems)];
      }
    }

    method UpdateCache(d: Incoming) returns (dataItemUpdated: bool)
      modifies this`mDataItemCache
      ensures dataItemUpdated == IsUpdate(old(mDataItemCache), d) && mDataItemCache == CacheWith(old(mDataItemCache), d)
    {
      dataItemUpdated := false;
      if d.handled {
        if d.id !in mDataItemCache {
          if d.creatable {
            mDataItemCache := mDataItemCache[d.id := d.value];
            dataItemUpdated := true;
          }
        } else {
          dataItemUpdated := Copy(d);
        }
      }
    }

    /** copy, from an incoming item into the cached one of its kind: was it another value? */
    method Copy(d: Incoming) returns (copied: bool)
      requires d.id in mDataItemCache
      modifies this`mDataItemCache
      ensures mDataItemCache == old(mDataItemCache)[d.id := d.value]
      ensures copied <==> old(mDataItemCache) != mDataItemCache
    {
      copied := mDataItemCache[d.id] != d.value;
      mDataItemCache := mDataItemCache[d.id := d.value];
    }

    /** HandleNotify. */
    method Notify(v: seq<Incoming>)
      modifies this`mDataItemCache, this`notified
      ensures mDataItemCache == CacheAfter(old(mDataItemCache), v)
      ensures exists ds ::
        && notified == old(notified) + ds
        && Delivers(ds, Selected(Abs(), UpdatedIds(old(mDataItemCache), v)), mDataItemCache)
    {
      UpdatedAreCached(mDataItemCache, v);
      hide CacheAfter, UpdatedIds;
      var toBeSent := UpdateAll(v);
      var clientSet := Listed(toBeSent);
      ghost var _ := TellClients(clientSet, toBeSent);
    }

    /** The last loop of HandleNotify. */
    method TellClients(clientSet: set<Client>, toBeSent: set<DataItemId>) returns (ghost ds: seq<Delivery>)
      requires toBeSent <= mDataItemCache.Keys
      modifies this`notified
      ensures notified == old(notified) + ds
      ensures Delivers(ds, Chosen(mClientToDataItems.mMap, clientSet, toBeSent), mDataItemCache)
    {
      ds := [];
      DeliversNone(mClientToDataItems.mMap, toBeSent, mDataItemCache);
      assert Telling(notified, notified, ds, mClientToDataItems.mMap, {}, toBeSent, mDataItemCache);
      SplitEnds(clientSet);
      hide Split, Delivers, Chosen, DeliveryFor;
      ghost var done := {};
      var rest := clientSet;
      while rest != {}
        invariant Split(clientSet, done, rest)
        invariant Telling(old(notified), notified, ds, mClientToDataItems.mMap, done, toBeSent, mDataItemCache)
        decreases rest
      {
        var client :| client in rest;
        SplitStep(clientSet, done, rest, client);
        TellingOneMore(old(notified), notified, ds, mClientToDataItems.mMap, done, client, toBeSent, mDataItemCache);
        TellClient(client, toBeSent);
        ds := ds + DeliveryFor(mClientToDataItems.mMap, client, toBeSent, mDataItemCache);
        done, rest := done + {client}, rest - {client};
      }
    }

    /** The body of that loop. */
    method TellClient(client: Client, toBeSent: set<DataItemId>)
      requires toBeSent <= mDataItemCache.Keys
      modifies this`notified
      ensures notified == old(notified) + DeliveryFor(mClientToDataItems.mMap, client, toBeSent, mDataItemCache)
    {
      var items := mClientToDataItems.GetValSet(client);
      items := Intersected(items, toBeSent);
      SendCachedDataItems(items, client);
      FirstResponseIsCached(mDataItemCache, items, client);
    }

    /** The first loop of HandleNotify: every item updates the cache. */
    method UpdateAll(v: seq<Incoming>) returns (toBeSent: set<DataItemId>)
      modifies this`mDataItemCache
      ensures mDataItemCache == CacheAfter(old(mDataItemCache), v) && toBeSent == UpdatedIds(old(mDataItemCache), v)
    {
      toBeSent := {};
      var i := 0;
      while i < |v|
        invariant 0 <= i <= |v|
        invariant CacheAfter(mDataItemCache, v[i..]) == CacheAfter(old(mDataItemCache), v)
        invariant toBeSent + UpdatedIds(mDataItemCache, v[i..]) == UpdatedIds(old(mDataItemCache), v)
      {
        assert v[i..][1..] == v[i + 1..];
        var updated := UpdateCache(v[i]);
        if updated {
          toBeSent := toBeSent + {v[i].id};
        }
        i := i + 1;
      }
    }

    /** The second loop: the clients listed under any of the items. */
    method Listed(toBeSent: set<DataItemId>) returns (clientSet: set<Client>)
      ensures clientSet == Interested(mDataItemToClients.mMap, toBeSent)
    {
      clientSet := {};
      var rest := toBeSent;
      while rest != {}
        invariant rest <= toBeSent && clientSet == Interested(mDataItemToClients.mMap, toBeSent - rest)
        decreases rest
      {
        var each :| each in rest;
        assert toBeSent - (rest - {each}) == toBeSent - rest + {each};
        InterestedOneMore(mDataItemToClients.mMap, toBeSent - rest, each);
        if each in mDataItemToClients.mMap {
          clientSet := clientSet + mDataItemToClients.mMap[each];
        }
        rest := rest - {each};
      }
      assert toBeSent - rest == toBeSent;
    }
  }

  /** The innermost loop of HandleNotify: everything that is not among `kept` is erased. */
  method Intersected(s: set<DataItemId>, kept: set<DataItemId>) returns (r: set<DataItemId>)
    ensures r == s * kept
  {
    r := s;
    var rest := s;
    while rest != {}
      invariant rest <= s && r == (s - rest) * kept + rest
      decreases rest
    {
      var item :| item in rest;
      if item !in kept {
        r := r - {item};
      }
      rest := rest - {item};
    }
  }

  lemma InterestedOneMore(m: map<DataItemId, set<Client>>, done: set<DataItemId>, i: DataItemId)
    ensures Interested(m, done + {i}) == Interested(m, done) + ValSet(m, i)
  {
  }
}
