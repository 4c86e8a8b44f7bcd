/** The coordinator of live data: the current state, and the subscribers that hold filtered copies of it. */
module LiveCoordinator {
  import opened Sequences
  import opened Samples
  import opened Events
  import opened LiveChanges
  import opened LiveUnit

  class LiveCoordinator {
    var nodes: map<int, NodeState>
    var devices: map<int, DeviceState>
    var values: map<string, Value>
    var subscribers: map<nat, LiveUnit>
    /** The state after every loop step so far, the newest last. */
    ghost var past: seq<Snapshot>

    function State(): Snapshot
      reads this`nodes, this`devices, this`values
    {
      Snapshot(nodes, devices, values)
    }

    ghost function Units(): set<LiveUnit>
      reads this`subscribers
    {
      set k | k in subscribers :: subscribers[k]
    }

    ghost predicate Separate()
      reads this`subscribers
    {
      forall i, j :: i in subscribers && j in subscribers && i != j ==> subscribers[i] != subscribers[j]
    }

    ghost predicate Valid()
      reads this, Units()
    {
      && Separate() && past != [] && Last(past) == State()
      && forall k :: k in subscribers ==> Current(subscribers[k], State(), past)
    }

    constructor ()
      ensures Valid() && State() == BLANK && subscribers == map[] && past == [BLANK]
    {
      nodes, devices, values, subscribers := map[], map[], map[], map[];
      past := [BLANK];
    }

    /**
      One event has been handled: the maps hold all it says; a subscriber is dropped exactly if there was news
      for it that its channel did not take; every other one was sent its part of the news, and nothing else.
    */
    twostate predicate Handles(e: Event)
      reads this, Units()
    {
      var news := NewsOf(old(State()), e);
      && Valid() && State() == ApplyAll(old(State()), Said(e)) && past == old(past) + [State()]
      && (forall k :: k in subscribers <==>
            k in old(subscribers) && Survives(old(subscribers)[k].filter, news, old(subscribers[k].CanSend())))
      && (forall k :: k in subscribers ==>
            subscribers[k] == old(subscribers[k])
            && subscribers[k].sent == old(subscribers[k].sent) + Payloads(news, subscribers[k].filter))
    }

    /**
      The same, told by the maps alone: a subscriber for whose filter nothing has changed is sent nothing and stays,
      whatever its channel holds; any other one stays exactly if its channel is open and holds at most one payload,
      and is sent one more, which holds exactly what has changed.
    */
    twostate predicate Tells(e: Event)
      reads this, Units()
    {
      forall k :: k in old(subscribers) ==>
        var u := old(subscribers)[k];
        var same := RestrictAll(State(), u.filter) == RestrictAll(old(State()), u.filter);
        && (k in subscribers <==> same || (old(u.open) && |old(u.queue)| <= 1))
        && (k in subscribers ==>
              && subscribers[k] == u
              && if same then u.sent == old(u.sent)
                 else u.sent != [] && Front(u.sent) == old(u.sent) && SaysChanges(old(State()), e, u.filter, Last(u.sent)))
    }

    twostate lemma HandledIsTold(e: Event)
      requires Handles(e)
      ensures DistinctTags(e) ==> Tells(e)
      ensures match e
              case NodeEvent(id, state) => State() == old(State()).(nodes := old(nodes)[id := state])
              case DeviceEvent(id, status, measures) =>
                State() == old(State()).(devices := old(devices)[id := status], values := Apply(old(values), measures))
    {
      StateAfter(old(State()), e);
      hide KeepAll, NewsOf, RestrictAll, ApplyAll, Said, SaysChanges, Current;
      if DistinctTags(e) {
        ghost var s, news := old(State()), NewsOf(old(State()), e);
        forall f: Filter
          ensures KeepAll(news, f) == NOTHING <==> RestrictAll(ApplyAll(s, Said(e)), f) == RestrictAll(s, f)
          ensures SaysChanges(s, e, f, KeepAll(news, f))
        {
          EventMeans(s, e, f);
        }
        forall sent: seq<Payload>, f: Filter
          ensures KeepAll(news, f) == NOTHING ==> sent + Payloads(news, f) == sent
          ensures KeepAll(news, f) != NOTHING ==> Front(sent + Payloads(news, f)) == sent && Last(sent + Payloads(news, f)) == KeepAll(news, f)
        {
        }
      }
    }

    method PushNode(id: int, state: NodeState)
      requires Separate()
      modifies Units()`nodesChange
      ensures forall k :: k in subscribers ==>
                subscribers[k].nodesChange == old(subscribers[k].nodesChange) + Keep([(id, state)], subscribers[k].filter.nodes)
    {
      var todo := subscribers.Keys;
      while todo != {}
        invariant todo <= subscribers.Keys
        invariant forall k :: k in subscribers ==>
          subscribers[k].nodesChange
          == old(subscribers[k].nodesChange) + (if k in todo then [] else Keep([(id, state)], subscribers[k].filter.nodes))
        decreases |todo|
      {
        var k := Pick(todo);
        subscribers[k].NodeEvents(id, state);
        todo := todo - {k};
      }
    }

    method PushDevice(id: int, state: DeviceState)
      requires Separate()
      modifies Units()`deviceChange
      ensures forall k :: k in subscribers ==>
                subscribers[k].deviceChange == old(subscribers[k].deviceChange) + Keep([(id, state)], subscribers[k].filter.devices)
    {
      var todo := subscribers.Keys;
      while todo != {}
        invariant todo <= subscribers.Keys
        invariant forall k :: k in subscribers ==>
          subscribers[k].deviceChange
          == old(subscribers[k].deviceChange) + (if k in todo then [] else Keep([(id, state)], subscribers[k].filter.devices))
        decreases |todo|
      {
        var k := Pick(todo);
        subscribers[k].DeviceEvents(id, state);
        todo := todo - {k};
      }
    }

    method PushValue(tag: string, value: Value)
      requires Separate()
      modifies Units()`valueChange
      ensures forall k :: k in subscribers ==>
                subscribers[k].valueChange == old(subscribers[k].valueChange) + Keep([(tag, value)], subscribers[k].filter.tags)
    {
      var todo := subscribers.Keys;
      while todo != {}
        invariant todo <= subscribers.Keys
        invariant forall k :: k in subscribers ==>
          subscribers[k].valueChange
          == old(subscribers[k].valueChange) + (if k in todo then [] else Keep([(tag, value)], subscribers[k].filter.tags))
        decreases |todo|
      {
        var k := Pick(todo);
        subscribers[k].ValueEvents(tag, value);
        todo := todo - {k};
      }
    }

    /** The client is up to date with `s`, and exactly what `news` means for it is pending. */
    ghost predicate Pushed(u: LiveUnit, s: Snapshot, news: Payload)
      reads this`past, u
    {
      && u.Valid() && u.Pending() == KeepAll(news, u.filter)
      && Fold(u.sent) == RestrictAll(s, u.filter)
      && Faithful(u.sent, u.marks, u.filter, past)
    }

    /** The unit still has its news pending; `sent` and `canSend` are as they were when the flush began. */
    ghost predicate Waiting(u: LiveUnit, s: Snapshot, news: Payload, sent: seq<Payload>, canSend: bool)
      reads this`past, u
    {
      Pushed(u, s, news) && u.sent == sent && u.CanSend() == canSend
    }

    /** The unit has sent its news, and its client is up to date. */
    ghost predicate Handled(u: LiveUnit, s: Snapshot, news: Payload, sent: seq<Payload>)
      reads this`past, u
    {
      Current(u, ApplyAll(s, news), past + [ApplyAll(s, news)]) && u.sent == sent + Payloads(news, u.filter)
    }

    /** Whether a unit survives the flush of `news`. */
    ghost predicate Survives(f: Filter, news: Payload, canSend: bool) {
      KeepAll(news, f) == NOTHING || canSend
    }

    /** Flush one unit that has the filtered news pending. */
    method FlushOne(u: LiveUnit, ghost s: Snapshot, ghost news: Payload, ghost sent: seq<Payload>, ghost canSend: bool)
      returns (alive: bool)
      requires Waiting(u, s, news, sent, canSend)
      modifies u
      ensures alive == Survives(u.filter, news, canSend)
      ensures alive ==> Handled(u, s, news, sent)
    {
      ghost var marks, step := u.marks, |past|;
      hide Fold, RestrictAll, Faithful, KeepAll, ApplyAll, SentIn, Payloads, LiveUnit.Valid;
      alive := u.Flush(step);
      if alive {
        ClientStep(sent, marks, u.filter, past, s, news, u.sent, u.marks);
        SentPayloads(step, sent, marks, news, u.filter, u.sent, u.marks);
      }
    }

    /** Flush everybody and tell who has to go. */
    method FlushAll(units: map<nat, LiveUnit>, ghost s: Snapshot, ghost news: Payload,
                    ghost sent: map<nat, seq<Payload>>, ghost canSend: map<nat, bool>) returns (dead: set<nat>)
      requires forall i, j :: i in units && j in units && i != j ==> units[i] != units[j]
      requires units.Keys <= sent.Keys && units.Keys <= canSend.Keys
      requires forall k :: k in units ==> Waiting(units[k], s, news, sent[k], canSend[k])
      modifies set k | k in units :: units[k]
      ensures forall k :: k in units ==> (k in dead <==> !Survives(units[k].filter, news, canSend[k]))
      ensures forall k :: k in units && k !in dead ==> Handled(units[k], s, news, sent[k])
    {
      hide Waiting, Handled, Survives;
      var todo := units.Keys;
      dead := {};
      while todo != {}
        invariant todo <= units.Keys && dead !! todo
        invariant forall k :: k in todo ==> Waiting(units[k], s, news, sent[k], canSend[k])
        invariant forall k :: k in units && k !in todo ==> (k in dead <==> !Survives(units[k].filter, news, canSend[k]))
        invariant forall k :: k in units && k !in todo && k !in dead ==> Handled(units[k], s, news, sent[k])
        decreases |todo|
      {
        var k := Pick(todo);
        var alive := FlushOne(units[k], s, news, sent[k], canSend[k]);
        if !alive {
          dead := dead + {k};
        }
        todo := todo - {k};
      }
    }

    /** Flush everybody and drop those whose channel does not take what is pending. */
    method FlushSubscribers(ghost s: Snapshot, ghost news: Payload)
      requires Separate() && forall k :: k in subscribers ==> Pushed(subscribers[k], s, news)
      modifies this`subscribers, Units()
      ensures Separate()
      ensures forall k :: k in subscribers <==>
                k in old(subscribers) && Survives(old(subscribers)[k].filter, news, old(subscribers[k].CanSend()))
      ensures forall k :: k in subscribers ==>
                subscribers[k] == old(subscribers)[k] && Handled(subscribers[k], s, news, old(subscribers[k].sent))
    {
      hide Pushed, LiveUnit.CanSend, Handled, Survives;
      ghost var sent := map k | k in subscribers :: subscribers[k].sent;
      ghost var canSend := map k | k in subscribers :: subscribers[k].CanSend();
      var dead := FlushAll(subscribers, s, news, sent, canSend);
      subscribers := map k | k in subscribers && k !in dead :: subscribers[k];
    }

    /** The unit has nothing pending, and its client holds the state `s` within the unit's filter. */
    ghost predicate Current(u: LiveUnit, s: Snapshot, history: seq<Snapshot>)
      reads u
    {
      && u.Valid() && u.Pending() == NOTHING
      && Fold(u.sent) == RestrictAll(s, u.filter)
      && Faithful(u.sent, u.marks, u.filter, history)
    }

    /** The end of a loop step: all units have the filtered news pending, and the maps hold them. */
    method Conclude(ghost s: Snapshot, ghost news: Payload)
      requires Separate() && State() == ApplyAll(s, news)
      requires forall k :: k in subscribers ==> Pushed(subscribers[k], s, news)
      modifies this`subscribers, this`past, Units()
      ensures Valid() && past == old(past) + [State()] && State() == old(State())
      ensures forall k :: k in subscribers <==>
                k in old(subscribers) && Survives(old(subscribers)[k].filter, news, old(subscribers[k].CanSend()))
      ensures forall k :: k in subscribers ==>
                subscribers[k] == old(subscribers[k])
                && subscribers[k].sent == old(subscribers[k].sent) + Payloads(news, subscribers[k].filter)
    {
      hide Fold, RestrictAll, Faithful, KeepAll, ApplyAll, LiveUnit.Valid, Payloads, Pushed;
      FlushSubscribers(s, news);
      past := past + [State()];
    }

    method OnNodeEvent(id: int, state: NodeState)
      requires Valid()
      modifies this, Units()
      ensures Handles(NodeEvent(id, state)) && Tells(NodeEvent(id, state))
      ensures nodes == old(nodes)[id := state] && devices == old(devices) && values == old(values)
    {
      ghost var s, news := State(), NewsOf(State(), NodeEvent(id, state));
      NewsOfSuffices(s, NodeEvent(id, state));
      NodeNews(s, id, state);
      hide NewsOf, Said, Current, Pushed, KeepAll, ApplyAll, Payloads;
      if IsNews(nodes, (id, state)) {
        NodeChanged(id, state);
        Conclude(s, news);
      } else {
        ApplyNothing(s);
        NothingChanged(news);
      }
      HandledIsTold(NodeEvent(id, state));
    }

    /** The changed state is stored and pushed to everybody. */
    method NodeChanged(id: int, state: NodeState)
      requires Valid()
      modifies this`nodes, Units()`nodesChange
      ensures State() == old(State()).(nodes := old(nodes)[id := state])
      ensures forall k :: k in subscribers ==> Pushed(subscribers[k], old(State()), Payload([(id, state)], [], []))
    {
      OneNode(id, state);
      hide Fold, RestrictAll, Faithful, LiveUnit.Valid, Keep, KeepAll;
      nodes := nodes[id := state];
      PushNode(id, state);
    }

    method OnDeviceEvent(id: int, status: DeviceState, measures: seq<(string, Value)>)
      requires Valid()
      modifies this, Units()
      ensures Handles(DeviceEvent(id, status, measures))
      ensures Distinct(measures) ==> Tells(DeviceEvent(id, status, measures))
      ensures nodes == old(nodes) && devices == old(devices)[id := status] && values == Apply(old(values), measures)
    {
      ghost var s, e := State(), DeviceEvent(id, status, measures);
      DeviceNews(s, id, status, measures);
      hide NewsOf, Said, Current, Pushed, KeepAll, ApplyAll, Payloads, News, Apply;
      ghost var news := DeviceChanged(id, status);
      MeasuresChanged(s, news, measures);
      assert news.(values := News(s.values, measures)) == NewsOf(s, e);
      Conclude(s, NewsOf(s, e));
      HandledIsTold(e);
    }

    /** The status of the device is stored and pushed to everybody if it is news. */
    method DeviceChanged(id: int, status: DeviceState) returns (ghost news: Payload)
      requires Valid()
      modifies this`devices, Units()`deviceChange
      ensures news == Payload([], News(old(devices), [(id, status)]), []) && devices == Apply(old(devices), news.devices)
      ensures forall k :: k in subscribers ==> Pushed(subscribers[k], old(State()), news)
    {
      news := Payload([], News(devices, [(id, status)]), []);
      NewsOne(devices, (id, status));
      hide Fold, RestrictAll, Faithful, LiveUnit.Valid, Keep, News, Apply;
      if IsNews(devices, (id, status)) {
        devices := devices[id := status];
        PushDevice(id, status);
      }
      forall k | k in subscribers ensures subscribers[k].Pending() == KeepAll(news, subscribers[k].filter) {
        KeepNothing<int, NodeState>(subscribers[k].filter.nodes);
        KeepNothing<int, DeviceState>(subscribers[k].filter.devices);
        KeepNothing<string, Value>(subscribers[k].filter.tags);
      }
    }

    /** Every measure that is news is stored and pushed to everybody, one after another. */
    method MeasuresChanged(ghost s: Snapshot, ghost news: Payload, measures: seq<(string, Value)>)
      requires Separate() && values == s.values && news.values == []
      requires forall k :: k in subscribers ==> Pushed(subscribers[k], s, news)
      modifies this`values, Units()`valueChange
      ensures values == Apply(s.values, News(s.values, measures))
      ensures forall k :: k in subscribers ==> Pushed(subscribers[k], s, news.(values := News(s.values, measures)))
    {
      assert measures[..0] == [];
      assert news == news.(values := News(s.values, measures[..0]));
      for i := 0 to |measures|
        invariant values == Apply(s.values, measures[..i])
        invariant forall k :: k in subscribers ==> Pushed(subscribers[k], s, news.(values := News(s.values, measures[..i])))
      {
        var value := measures[i];
        assert measures[..i + 1] == measures[..i] + [value];
        NewsLast(s.values, measures[..i], value);
        ApplyLast(s.values, measures[..i], value);
        hide News, Apply, Pushed;
        if IsNews(values, value) {
          ValueChanged(value, s, news.(values := News(s.values, measures[..i])));
        } else {
          assert values[value.0 := value.1] == values;
        }
      }
      assert measures[..|measures|] == measures;
      NewsSuffices(s.values, measures);
    }

    method ValueChanged(value: (string, Value), ghost s: Snapshot, ghost news: Payload)
      requires Separate() && forall k :: k in subscribers ==> Pushed(subscribers[k], s, news)
      modifies this`values, Units()`valueChange
      ensures values == old(values)[value.0 := value.1]
      ensures forall k :: k in subscribers ==> Pushed(subscribers[k], s, news.(values := news.values + [value]))
    {
      OneMoreValue(news, value);
      hide Fold, RestrictAll, Faithful, LiveUnit.Valid, Keep, KeepAll;
      values := values[value.0 := value.1];
      PushValue(value.0, value.1);
    }

    // ----- Subscribing -----

    /** A unit that nobody has used yet. */
    ghost predicate IsNew(u: LiveUnit)
      reads u
    {
      u.Valid() && u.Pending() == NOTHING && u.sent == [] && u.marks == []
    }

    method FillNodes(u: LiveUnit)
      requires u.nodesChange == []
      modifies u`nodesChange
      ensures Apply(map[], u.nodesChange) == Restrict(nodes, u.filter.nodes)
    {
      var todo := nodes.Keys;
      RestrictStart(nodes, u.filter.nodes, todo);
      assert Apply(map[], u.nodesChange) == map[];
      hide Apply, Restrict, Keep;
      while todo != {}
        invariant todo <= nodes.Keys
        invariant Apply(map[], u.nodesChange) == Restrict(nodes, u.filter.nodes - todo)
        decreases |todo|
      {
        var k := Pick(todo);
        ApplyOne(map[], u.nodesChange, (k, nodes[k]), u.filter.nodes);
        u.NodeEvents(k, nodes[k]);
        RestrictMore(nodes, u.filter.nodes, todo, k);
        todo := todo - {k};
      }
      RestrictStart(nodes, u.filter.nodes, todo);
    }

    method FillDevices(u: LiveUnit)
      requires u.deviceChange == []
      modifies u`deviceChange
      ensures Apply(map[], u.deviceChange) == Restrict(devices, u.filter.devices)
    {
      var todo := devices.Keys;
      RestrictStart(devices, u.filter.devices, todo);
      assert Apply(map[], u.deviceChange) == map[];
      hide Apply, Restrict, Keep;
      while todo != {}
        invariant todo <= devices.Keys
        invariant Apply(map[], u.deviceChange) == Restrict(devices, u.filter.devices - todo)
        decreases |todo|
      {
        var k := Pick(todo);
        ApplyOne(map[], u.deviceChange, (k, devices[k]), u.filter.devices);
        u.DeviceEvents(k, devices[k]);
        RestrictMore(devices, u.filter.devices, todo, k);
        todo := todo - {k};
      }
      RestrictStart(devices, u.filter.devices, todo);
    }

    method FillValues(u: LiveUnit)
      requires u.valueChange == []
      modifies u`valueChange
      ensures Apply(map[], u.valueChange) == Restrict(values, u.filter.tags)
    {
      var todo := values.Keys;
      RestrictStart(values, u.filter.tags, todo);
      assert Apply(map[], u.valueChange) == map[];
      hide Apply, Restrict, Keep;
      while todo != {}
        invariant todo <= values.Keys
        invariant Apply(map[], u.valueChange) == Restrict(values, u.filter.tags - todo)
        decreases |todo|
      {
        var k := Pick(todo);
        ApplyOne(map[], u.valueChange, (k, values[k]), u.filter.tags);
        u.ValueEvents(k, values[k]);
        RestrictMore(values, u.filter.tags, todo, k);
        todo := todo - {k};
      }
      RestrictStart(values, u.filter.tags, todo);
    }

    method FillAll(u: LiveUnit)
      requires u.Pending() == NOTHING
      modifies u`nodesChange, u`deviceChange, u`valueChange
      ensures ApplyAll(BLANK, u.Pending()) == RestrictAll(State(), u.filter)
    {
      hide Apply, Restrict;
      FillNodes(u);
      FillDevices(u);
      FillValues(u);
    }

    /** The whole state within the filter, in whatever order the maps give it, as the first payload. */
    method FirstWrite(u: LiveUnit) returns (alive: bool)
      requires IsNew(u) && past != [] && Last(past) == State()
      modifies u
      ensures alive == (RestrictAll(State(), u.filter) == BLANK || old(u.CanSend()))
      ensures alive ==> Current(u, State(), past)
    {
      hide ApplyAll, RestrictAll, Fold, Faithful, LiveUnit.Valid, SentIn;
      assert u.marks == [] && u.sent == [];
      FillAll(u);
      ghost var p, step := u.Pending(), |past| - 1;
      PendingIsSnapshot(p, State(), u.filter);
      hide LiveUnit.Pending, LiveUnit.CanSend;
      alive := u.Flush(step);
      if alive {
        FirstPayload(u.sent, u.marks, p, State(), u.filter, past);
      }
    }

    /** A new unit is taken in with the whole state, unless its channel does not take it. */
    method OnNew(id: nat, u: LiveUnit)
      requires Valid() && IsNew(u) && u !in Units()
      modifies this`subscribers, this`past, u
      ensures Valid() && past == old(past) + [State()]
      ensures subscribers == if RestrictAll(State(), u.filter) == BLANK || old(u.CanSend()) then old(subscribers)[id := u] else old(subscribers)
    {
      hide Current, RestrictAll, LiveUnit.CanSend, LiveUnit.Valid;
      NothingChanged(NOTHING);
      var alive := FirstWrite(u);
      if alive {
        subscribers := subscribers[id := u];
      }
    }

    method OnDelete(id: nat)
      requires Valid()
      modifies this`subscribers, this`past
      ensures Valid() && past == old(past) + [State()]
      ensures subscribers == old(subscribers) - {id}
    {
      hide Current;
      NothingChanged(NOTHING);
      subscribers := subscribers - {id};
    }

    /** The old unit goes whatever becomes of the new one. */
    method OnChange(oldId: nat, newId: nat, u: LiveUnit)
      requires Valid() && IsNew(u) && u !in Units()
      modifies this`subscribers, this`past, u
      ensures Valid() && past == old(past) + [State()]
      ensures subscribers ==
        if RestrictAll(State(), u.filter) == BLANK || old(u.CanSend()) then (old(subscribers) - {oldId})[newId := u]
        else old(subscribers) - {oldId}
    {
      hide Current, RestrictAll, LiveUnit.CanSend, LiveUnit.Valid;
      NothingChanged(NOTHING);
      subscribers := subscribers - {oldId};
      var alive := FirstWrite(u);
      if alive {
        subscribers := subscribers[newId := u];
      }
    }

    // ----- The clients -----

    /** A client takes a payload whenever it likes; nothing the coordinator relies on depends on when. */
    method Consume(id: nat) returns (r: Option<Payload>)
      requires Valid() && id in subscribers
      modifies subscribers[id]
      ensures Valid() && subscribers[id].sent == old(subscribers[id].sent)
      ensures r == (if old(subscribers[id].queue) == [] then None else Some(old(subscribers[id].queue)[0]))
      ensures subscribers[id].queue == if r == None then [] else old(subscribers[id].queue)[1..]
    {
      r := subscribers[id].Receive();
    }

    method Leave(id: nat)
      requires Valid() && id in subscribers
      modifies subscribers[id]
      ensures Valid() && !subscribers[id].CanSend()
    {
      subscribers[id].Close();
    }

    /**
      What the client of a live subscriber has received so far is the filtered state of some loop step in the past,
      and with the at most two payloads still in its channel it is the current one.
    */
    lemma ClientView(id: nat) returns (received: seq<Payload>, step: nat)
      requires Valid() && id in subscribers
      ensures var u := subscribers[id];
              && received + u.queue == u.sent && |u.queue| <= 2
              && Fold(received + u.queue) == RestrictAll(State(), u.filter)
              && (if received == [] then Fold(received) == BLANK
                  else step < |past| && Fold(received) == RestrictAll(past[step], u.filter))
    {
      var u := subscribers[id];
      assert Current(u, State(), past);
      var n := |u.sent| - |u.queue|;
      received, step := u.sent[..n], 0;
      if n > 0 {
        step := u.marks[n - 1];
        assert u.sent[..n - 1 + 1] == received;
      }
    }

    /** A step without news for anybody leaves everybody up to date. */
    method NothingChanged(ghost news: Payload)
      requires Valid() && news == NOTHING
      modifies this`past
      ensures Valid() && past == old(past) + [State()]
      ensures forall f :: KeepAll(news, f) == NOTHING && Payloads(news, f) == []
    {
      past := past + [State()];
      hide Fold, RestrictAll, LiveUnit.Valid, Faithful;
      forall k | k in subscribers ensures Current(subscribers[k], State(), past) {
        var u := subscribers[k];
        StaysFaithful(u.sent, u.marks, u.filter, old(past), State());
      }
    }
  }

  lemma OneNode(id: int, state: NodeState)
    ensures forall f: Filter :: KeepAll(Payload([(id, state)], [], []), f) == Payload(Keep([(id, state)], f.nodes), [], [])
  {
    forall f: Filter ensures KeepAll(Payload([(id, state)], [], []), f) == Payload(Keep([(id, state)], f.nodes), [], []) {
      KeepNothing<int, DeviceState>(f.devices);
      KeepNothing<string, Value>(f.tags);
    }
  }

  lemma OneMoreValue(news: Payload, value: (string, Value))
    ensures forall f: Filter :: KeepAll(news.(values := news.values + [value]), f)
                             == KeepAll(news, f).(values := KeepAll(news, f).values + Keep([value], f.tags))
  {
    forall f: Filter
      ensures KeepAll(news.(values := news.values + [value]), f) == KeepAll(news, f).(values := KeepAll(news, f).values + Keep([value], f.tags))
    {
      hide Keep;
      KeepLast(news.values, value, f.tags);
      KeepOne(value, f.tags);
    }
  }

  lemma KeepNothing<K, V>(keys: set<K>)
    ensures Keep<K, V>([], keys) == []
  {
  }

  lemma NewsOne<K, V>(m: map<K, V>, c: (K, V))
    ensures News(m, [c]) == if IsNews(m, c) then [c] else []
    ensures Apply(m, News(m, [c])) == if IsNews(m, c) then m[c.0 := c.1] else m
  {
    NewsLast(m, [], c);
    ApplyLast(m, [], c);
    assert [] + [c] == [c];
  }

  lemma DeviceNews(s: Snapshot, id: int, status: DeviceState, measures: seq<(string, Value)>)
    ensures var e, device, values := DeviceEvent(id, status, measures), News(s.devices, [(id, status)]), News(s.values, measures);
            && NewsOf(s, e) == Payload([], device, values)
            && Snapshot(s.nodes, Apply(s.devices, device), Apply(s.values, values)) == ApplyAll(s, NewsOf(s, e)) == ApplyAll(s, Said(e))
  {
    NewsOfSuffices(s, DeviceEvent(id, status, measures));
    NoNews(s.nodes);
  }

  lemma NoNews<K, V>(m: map<K, V>)
    ensures News<K, V>(m, []) == [] && Apply(m, []) == m
  {
  }

  lemma SentPayloads(step: nat, sent: seq<Payload>, marks: seq<nat>, news: Payload, f: Filter, sent': seq<Payload>, marks': seq<nat>)
    requires SentIn(step, sent, marks, KeepAll(news, f), sent', marks')
    ensures sent' == sent + Payloads(news, f)
  {
    hide KeepAll;
  }

  lemma ApplyOne<K, V>(m: map<K, V>, changes: seq<(K, V)>, c: (K, V), keys: set<K>)
    ensures Apply(m, changes + Keep([c], keys)) == if c.0 in keys then Apply(m, changes)[c.0 := c.1] else Apply(m, changes)
  {
    KeepOne(c, keys);
    ApplyLast(m, changes, c);
    assert changes + [] == changes;
  }

  lemma PendingIsSnapshot(p: Payload, s: Snapshot, f: Filter)
    requires ApplyAll(BLANK, p) == RestrictAll(s, f)
    ensures p == NOTHING <==> RestrictAll(s, f) == BLANK
  {
    hide Apply, Restrict;
    ApplyToNothing(p.nodes);
    ApplyToNothing(p.devices);
    ApplyToNothing(p.values);
  }

  lemma FirstPayload(sent: seq<Payload>, marks: seq<nat>, p: Payload, s: Snapshot, f: Filter, past: seq<Snapshot>)
    requires ApplyAll(BLANK, p) == RestrictAll(s, f) && past != [] && Last(past) == s
    requires SentIn(|past| - 1, [], [], p, sent, marks)
    ensures Fold(sent) == RestrictAll(s, f) && Faithful(sent, marks, f, past)
  {
    var earlier := Front(past);
    FrontLast(past);
    assert Fold([]) == BLANK && Faithful([], [], f, earlier);
    ApplyNothing(BLANK);
    hide Fold, Faithful, ApplyAll, RestrictAll;
    if p == NOTHING {
      StaysFaithful([], [], f, earlier, s);
    } else {
      FoldLast([], p);
      SendsFaithfully([], [], f, earlier, s, p);
    }
  }

  /** The filtered copy grows by one key when one more key is no longer to do. */
  lemma RestrictMore<K, V>(m: map<K, V>, keys: set<K>, todo: set<K>, k: K)
    requires k in m && k in todo
    ensures Restrict(m, keys - (todo - {k})) == if k in keys then Restrict(m, keys - todo)[k := m[k]] else Restrict(m, keys - todo)
  {
  }

  lemma RestrictStart<K, V>(m: map<K, V>, keys: set<K>, todo: set<K>)
    ensures todo == m.Keys ==> Restrict(m, keys - todo) == map[]
    ensures todo == {} ==> Restrict(m, keys - todo) == Restrict(m, keys)
  {
    assert todo == {} ==> keys - todo == keys;
  }

  lemma NodeNews(s: Snapshot, id: int, state: NodeState)
    ensures NewsOf(s, NodeEvent(id, state)) == if IsNews(s.nodes, (id, state)) then Payload([(id, state)], [], []) else NOTHING
    ensures ApplyAll(s, Payload([(id, state)], [], [])) == s.(nodes := s.nodes[id := state])
  {
    NewsLast(s.nodes, [], (id, state));
    ApplyLast(s.nodes, [], (id, state));
    assert [] + [(id, state)] == [(id, state)];
  }

  /** The maps are walked through in an order of their own. */
  method Pick<T>(s: set<T>) returns (x: T)
    requires s != {}
    ensures x in s
  {
    x :| x in s;
  }

  /** The part of the news that a filter lets through, as one payload if there is any. */
  function Payloads(news: Payload, f: Filter): seq<Payload> {
    if KeepAll(news, f) == NOTHING then [] else [KeepAll(news, f)]
  }
}
