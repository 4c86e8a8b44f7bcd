/** Live data as maps, and the changes that are sent to keep copies of them up to date. */
module LiveChanges {
  import opened Sequences
  import opened Samples
  import opened Events

  // ----- One map -----

  /** A copy after the changes have been applied to it in order. */
  function Apply<K, V>(m: map<K, V>, changes: seq<(K, V)>): map<K, V> {
    if changes == [] then m
    else Apply(m, Front(changes))[Last(changes).0 := Last(changes).1]
  }

  /** The changes to the given keys. */
  function Keep<K(==), V>(changes: seq<(K, V)>, keys: set<K>): seq<(K, V)> {
    if changes == [] then []
    else Keep(Front(changes), keys) + (if Last(changes).0 in keys then [Last(changes)] else [])
  }

  function Restrict<K, V>(m: map<K, V>, keys: set<K>): map<K, V> {
    map k | k in m && k in keys :: m[k]
  }

  predicate IsNews<K, V(==)>(m: map<K, V>, change: (K, V)) {
    change.0 !in m || m[change.0] != change.1
  }

  /** The changes that do change something when applied one after another. */
  function News<K, V(==)>(m: map<K, V>, changes: seq<(K, V)>): seq<(K, V)> {
    if changes == [] then []
    else News(m, Front(changes)) + (if IsNews(Apply(m, Front(changes)), Last(changes)) then [Last(changes)] else [])
  }

  lemma ApplyNone<K, V>(m: map<K, V>)
    ensures Apply(m, []) == m
  {
  }

  lemma ApplyLast<K, V>(m: map<K, V>, changes: seq<(K, V)>, c: (K, V))
    ensures Apply(m, changes + [c]) == Apply(m, changes)[c.0 := c.1]
  {
    assert Front(changes + [c]) == changes;
  }

  lemma KeepLast<K, V>(changes: seq<(K, V)>, c: (K, V), keys: set<K>)
    ensures Keep(changes + [c], keys) == if c.0 in keys then Keep(changes, keys) + [c] else Keep(changes, keys)
  {
    assert Front(changes + [c]) == changes;
  }

  lemma NewsLast<K, V>(m: map<K, V>, changes: seq<(K, V)>, c: (K, V))
    ensures News(m, changes + [c]) == if IsNews(Apply(m, changes), c) then News(m, changes) + [c] else News(m, changes)
  {
    assert Front(changes + [c]) == changes;
  }

  /** Leaving out what is not news loses nothing. */
  lemma {:induction false} NewsSuffices<K, V>(m: map<K, V>, changes: seq<(K, V)>)
    ensures Apply(m, News(m, changes)) == Apply(m, changes)
  {
    if changes != [] {
      hide Apply, News;
      var p, c := Front(changes), Last(changes);
      FrontLast(changes);
      NewsSuffices(m, p);
      NewsLast(m, p, c);
      ApplyLast(m, p, c);
      ApplyLast(m, News(m, p), c);
      if !IsNews(Apply(m, p), c) {
        assert Apply(m, p)[c.0 := c.1] == Apply(m, p);
      }
    }
  }

  /** A filtered copy kept up to date with the filtered changes is the filtered map. */
  lemma {:induction false} FilteredCopy<K, V>(m: map<K, V>, changes: seq<(K, V)>, keys: set<K>)
    ensures Restrict(Apply(m, changes), keys) == Apply(Restrict(m, keys), Keep(changes, keys))
  {
    if changes != [] {
      hide Apply, Keep;
      var p, c := Front(changes), Last(changes);
      FrontLast(changes);
      FilteredCopy(m, p, keys);
      ApplyLast(m, p, c);
      KeepLast(p, c, keys);
      ApplyLast(Restrict(m, keys), Keep(p, keys), c);
      RestrictUpdate(Apply(m, p), c, keys);
    } else {
      assert Apply(m, changes) == m && Keep(changes, keys) == [];
    }
  }

  lemma RestrictUpdate<K, V>(m: map<K, V>, c: (K, V), keys: set<K>)
    ensures Restrict(m[c.0 := c.1], keys) == if c.0 in keys then Restrict(m, keys)[c.0 := c.1] else Restrict(m, keys)
  {
  }

  /** Changes never sent to a key outside of the filter. */
  lemma {:induction false} KeepOnly<K, V>(changes: seq<(K, V)>, keys: set<K>)
    ensures forall c :: c in Keep(changes, keys) <==> c in changes && c.0 in keys
  {
    if changes != [] {
      FrontLast(changes);
      KeepOnly(Front(changes), keys);
    }
  }

  // ----- What is news, read off the maps alone -----

  /** A change is news exactly if it changes the map. */
  lemma IsNewsExactly<K, V>(m: map<K, V>, c: (K, V))
    ensures IsNews(m, c) <==> m[c.0 := c.1] != m
  {
    assert c.0 in m[c.0 := c.1] && m[c.0 := c.1][c.0] == c.1;
    if !IsNews(m, c) {
      assert m[c.0 := c.1] == m;
    }
  }

  /** Of changes applied one after another exactly those are news that change the map when their turn comes. */
  lemma NewsStep<K, V>(m: map<K, V>, changes: seq<(K, V)>, c: (K, V))
    ensures News(m, []) == []
    ensures News(m, changes + [c]) == News(m, changes) + if Apply(m, changes + [c]) != Apply(m, changes) then [c] else []
  {
    hide Apply, IsNews;
    NewsLast(m, changes, c);
    ApplyLast(m, changes, c);
    IsNewsExactly(Apply(m, changes), c);
  }

  /** No two of the changes are to the same key. */
  ghost predicate Distinct<K, V>(changes: seq<(K, V)>) {
    forall i, j :: 0 <= i < j < |changes| ==> changes[i].0 != changes[j].0
  }

  lemma DistinctFront<K, V>(changes: seq<(K, V)>)
    requires changes != [] && Distinct(changes)
    ensures Distinct(Front(changes)) && forall c :: c in Front(changes) ==> c.0 != Last(changes).0
    ensures forall c :: c in changes <==> c in Front(changes) || c == Last(changes)
  {
    FrontLast(changes);
  }

  /** A key that is changed has its new value, and any other key is as it was. */
  lemma {:induction false} ApplyMeans<K, V>(m: map<K, V>, changes: seq<(K, V)>)
    requires Distinct(changes)
    ensures forall c :: c in changes ==> c.0 in Apply(m, changes) && Apply(m, changes)[c.0] == c.1
    ensures forall k :: (forall c :: c in changes ==> c.0 != k) ==>
              (k in Apply(m, changes) <==> k in m) && (k in m ==> Apply(m, changes)[k] == m[k])
  {
    if changes != [] {
      DistinctFront(changes);
      ApplyMeans(m, Front(changes));
    }
  }

  /** The news are exactly those of the changes that change the map. */
  lemma {:induction false} NewsExactly<K, V>(m: map<K, V>, changes: seq<(K, V)>)
    requires Distinct(changes)
    ensures forall c :: c in News(m, changes) <==> c in changes && (c.0 !in m || m[c.0] != c.1)
  {
    if changes != [] {
      DistinctFront(changes);
      hide Distinct, Apply;
      NewsExactly(m, Front(changes));
      ApplyMeans(m, Front(changes));
    }
  }

  /** There are news for a filter exactly if the changes change what it lets through. */
  lemma {:induction false} SilentExactly<K, V>(m: map<K, V>, changes: seq<(K, V)>, keys: set<K>)
    requires Distinct(changes)
    ensures Keep(News(m, changes), keys) == [] <==> Restrict(Apply(m, changes), keys) == Restrict(m, keys)
  {
    var news := Keep(News(m, changes), keys);
    hide Apply, Keep, News, Distinct;
    if news == [] {
      NewsSuffices(m, changes);
      FilteredCopy(m, News(m, changes), keys);
      ApplyNone(Restrict(m, keys));
    } else {
      var c := Last(news);
      KeepOnly(News(m, changes), keys);
      NewsExactly(m, changes);
      ApplyMeans(m, changes);
      assert c in news;
      assert c.0 in Restrict(Apply(m, changes), keys) && Restrict(Apply(m, changes), keys)[c.0] == c.1;
      assert c.0 in Restrict(m, keys) ==> Restrict(m, keys)[c.0] == m[c.0];
    }
  }

  /** `p` holds exactly those of the changes to the given keys that change the map. */
  ghost predicate AreChanges<K(!new), V(!new)>(p: seq<(K, V)>, m: map<K, V>, changes: seq<(K, V)>, keys: set<K>) {
    forall c :: c in p <==> c in changes && c.0 in keys && (c.0 !in m || m[c.0] != c.1)
  }

  /** Both together, for one map. */
  lemma {:induction false} NewsMeans<K(!new), V(!new)>(m: map<K, V>, changes: seq<(K, V)>, keys: set<K>)
    requires Distinct(changes)
    ensures Keep(News(m, changes), keys) == [] <==> Restrict(Apply(m, changes), keys) == Restrict(m, keys)
    ensures AreChanges(Keep(News(m, changes), keys), m, changes, keys)
  {
    hide Apply, Keep, News, Restrict, Distinct;
    SilentExactly(m, changes, keys);
    NewsExactly(m, changes);
    KeepOnly(News(m, changes), keys);
  }

  // ----- The three maps together -----

  datatype Snapshot = Snapshot(nodes: map<int, NodeState>, devices: map<int, DeviceState>, values: map<string, Value>)

  datatype Payload = Payload(nodes: seq<(int, NodeState)>, devices: seq<(int, DeviceState)>, values: seq<(string, Value)>)

  datatype Filter = Filter(nodes: set<int>, devices: set<int>, tags: set<string>)

  const NOTHING: Payload := Payload([], [], [])

  const BLANK: Snapshot := Snapshot(map[], map[], map[])

  function ApplyAll(s: Snapshot, p: Payload): Snapshot {
    Snapshot(Apply(s.nodes, p.nodes), Apply(s.devices, p.devices), Apply(s.values, p.values))
  }

  function KeepAll(p: Payload, f: Filter): Payload {
    Payload(Keep(p.nodes, f.nodes), Keep(p.devices, f.devices), Keep(p.values, f.tags))
  }

  function RestrictAll(s: Snapshot, f: Filter): Snapshot {
    Snapshot(Restrict(s.nodes, f.nodes), Restrict(s.devices, f.devices), Restrict(s.values, f.tags))
  }

  /** What a client knows after it has applied the payloads it was sent. */
  function Fold(payloads: seq<Payload>): Snapshot {
    if payloads == [] then BLANK else ApplyAll(Fold(Front(payloads)), Last(payloads))
  }

  lemma FoldLast(payloads: seq<Payload>, p: Payload)
    ensures Fold(payloads + [p]) == ApplyAll(Fold(payloads), p)
  {
    assert Front(payloads + [p]) == payloads;
  }

  lemma ApplyNothing(s: Snapshot)
    ensures ApplyAll(s, NOTHING) == s
  {
  }

  lemma FilteredCopies(s: Snapshot, p: Payload, f: Filter)
    ensures RestrictAll(ApplyAll(s, p), f) == ApplyAll(RestrictAll(s, f), KeepAll(p, f))
  {
    hide Apply, Keep, Restrict;
    FilteredCopy(s.nodes, p.nodes, f.nodes);
    FilteredCopy(s.devices, p.devices, f.devices);
    FilteredCopy(s.values, p.values, f.tags);
  }

  // ----- Events -----

  datatype Event =
    | NodeEvent(id: int, state: NodeState)
    | DeviceEvent(id: int, status: DeviceState, measures: seq<(string, Value)>)

  /** All that an event says, and the part of it that is news. */
  function Said(e: Event): Payload {
    match e
    case NodeEvent(id, state) => Payload([(id, state)], [], [])
    case DeviceEvent(id, status, measures) => Payload([], [(id, status)], measures)
  }

  function NewsOf(s: Snapshot, e: Event): Payload {
    var said := Said(e);
    Payload(News(s.nodes, said.nodes), News(s.devices, said.devices), News(s.values, said.values))
  }

  lemma NewsOfSuffices(s: Snapshot, e: Event)
    ensures ApplyAll(s, NewsOf(s, e)) == ApplyAll(s, Said(e))
  {
    hide Apply, News;
    NewsSuffices(s.nodes, Said(e).nodes);
    NewsSuffices(s.devices, Said(e).devices);
    NewsSuffices(s.values, Said(e).values);
  }

  /** No two measures of the event are of the same tag. */
  ghost predicate DistinctTags(e: Event) {
    e.DeviceEvent? ==> Distinct(e.measures)
  }

  /** `p` holds exactly those of the things said that the filter lets through and that change the state. */
  ghost predicate SaysChanges(s: Snapshot, e: Event, f: Filter, p: Payload) {
    match e
    case NodeEvent(id, state) => AreChanges(p.nodes, s.nodes, [(id, state)], f.nodes) && p.devices == [] && p.values == []
    case DeviceEvent(id, status, measures) =>
      && p.nodes == [] && AreChanges(p.devices, s.devices, [(id, status)], f.devices)
      && AreChanges(p.values, s.values, measures, f.tags)
  }

  /** What an event means to a filter: nothing, exactly if it changes nothing within it, and otherwise the changes. */
  lemma {:induction false} EventMeans(s: Snapshot, e: Event, f: Filter)
    requires DistinctTags(e)
    ensures KeepAll(NewsOf(s, e), f) == NOTHING <==> RestrictAll(ApplyAll(s, Said(e)), f) == RestrictAll(s, f)
    ensures SaysChanges(s, e, f, KeepAll(NewsOf(s, e), f))
  {
    match e
    case NodeEvent(id, state) =>
      NewsMeans(s.nodes, [(id, state)], f.nodes);
      NoNewsMeans(s.devices, f.devices);
      NoNewsMeans(s.values, f.tags);
      hide Apply, Keep, News, Restrict, AreChanges;
    case DeviceEvent(id, status, measures) =>
      NoNewsMeans(s.nodes, f.nodes);
      NewsMeans(s.devices, [(id, status)], f.devices);
      NewsMeans(s.values, measures, f.tags);
      hide Apply, Keep, News, Restrict, AreChanges;
  }

  lemma NoNewsMeans<K, V>(m: map<K, V>, keys: set<K>)
    ensures Keep(News<K, V>(m, []), keys) == [] && Apply(m, []) == m
  {
  }

  /** The state after an event. */
  lemma StateAfter(s: Snapshot, e: Event)
    ensures ApplyAll(s, Said(e)) ==
            match e
            case NodeEvent(id, state) => s.(nodes := s.nodes[id := state])
            case DeviceEvent(id, status, measures) => s.(devices := s.devices[id := status], values := Apply(s.values, measures))
  {
    match e
    case NodeEvent(id, state) => ApplyOnly(s.nodes, (id, state));
    case DeviceEvent(id, status, measures) => ApplyOnly(s.devices, (id, status));
  }

  lemma ApplyOnly<K, V>(m: map<K, V>, c: (K, V))
    ensures Apply(m, [c]) == m[c.0 := c.1]
  {
    assert [] + [c] == [c];
    ApplyLast(m, [], c);
  }

  // ----- What a client has seen -----

  /**
    Every payload was sent in its own loop step, in order, and a client that has applied the payloads up to any
    one of them holds exactly the filtered state as it was after that step.
  */
  ghost predicate Faithful(sent: seq<Payload>, marks: seq<nat>, f: Filter, past: seq<Snapshot>) {
    && |marks| == |sent|
    && (forall j :: 0 <= j < |marks| ==> marks[j] < |past| && Fold(sent[..j + 1]) == RestrictAll(past[marks[j]], f))
    && (forall i, j :: 0 <= i < j < |marks| ==> marks[i] < marks[j])
  }

  /** A step that sends nothing. */
  lemma StaysFaithful(sent: seq<Payload>, marks: seq<nat>, f: Filter, past: seq<Snapshot>, s: Snapshot)
    requires Faithful(sent, marks, f, past)
    ensures Faithful(sent, marks, f, past + [s])
  {
    hide Fold, RestrictAll;
  }

  /** A step that sends a payload which brings the client up to date. */
  lemma SendsFaithfully(sent: seq<Payload>, marks: seq<nat>, f: Filter, past: seq<Snapshot>, s: Snapshot, p: Payload)
    requires Faithful(sent, marks, f, past) && ApplyAll(Fold(sent), p) == RestrictAll(s, f)
    ensures Faithful(sent + [p], marks + [|past|], f, past + [s])
  {
    FoldLast(sent, p);
    hide Fold, RestrictAll;
    var sent', marks', past' := sent + [p], marks + [|past|], past + [s];
    forall j | 0 <= j < |marks'| ensures marks'[j] < |past'| && Fold(sent'[..j + 1]) == RestrictAll(past'[marks'[j]], f) {
      if j < |marks| {
        assert sent'[..j + 1] == sent[..j + 1];
      } else {
        assert sent'[..j + 1] == sent';
      }
    }
  }

  /** One flush: the pending payload is sent in this step unless it is empty. */
  ghost predicate SentIn(step: nat, sent: seq<Payload>, marks: seq<nat>, p: Payload, sent': seq<Payload>, marks': seq<nat>) {
    if p == NOTHING then sent' == sent && marks' == marks else sent' == sent + [p] && marks' == marks + [step]
  }

  /** A client that is up to date stays so when it is sent the filtered news, or nothing where there are none for it. */
  lemma {:induction false} ClientStep(sent: seq<Payload>, marks: seq<nat>, f: Filter, past: seq<Snapshot>, s: Snapshot, news: Payload,
                   sent': seq<Payload>, marks': seq<nat>)
    requires Fold(sent) == RestrictAll(s, f) && Faithful(sent, marks, f, past)
    requires SentIn(|past|, sent, marks, KeepAll(news, f), sent', marks')
    ensures Fold(sent') == RestrictAll(ApplyAll(s, news), f) && Faithful(sent', marks', f, past + [ApplyAll(s, news)])
  {
    FilteredCopies(s, news, f);
    ApplyNothing(Fold(sent));
    FoldLast(sent, KeepAll(news, f));
    hide Fold, RestrictAll, ApplyAll, KeepAll, Faithful;
    StaysFaithful(sent, marks, f, past, ApplyAll(s, news));
    if KeepAll(news, f) != NOTHING {
      SendsFaithfully(sent, marks, f, past, ApplyAll(s, news), KeepAll(news, f));
    }
  }

  lemma {:induction false} ApplyToNothing<K, V>(changes: seq<(K, V)>)
    ensures Apply(map[], changes) == map[] <==> changes == []
  {
    if changes != [] {
      var k := Last(changes).0;
      assert k in Apply(map[], changes);
    }
  }
}
