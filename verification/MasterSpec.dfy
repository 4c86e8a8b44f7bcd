/** What a node's reading loop does, as functions of its state and of what it meets outside. */
module MasterSpec {
  import opened Sequences
  import opened Events
  import opened Plugins
  import opened ReadPlanner
  import opened ReadCycle
  import opened Scheduler

  datatype Message =
    | NodeEvent(state: NodeState)
    | DeviceEvent(status: DeviceState, id: int, measures: seq<Option<ModbusMeasure>>)

  /** `latest` is the device of the last cycle that was not cut short by the socket; `sent` goes to the controller. */
  datatype Master = Master(devices: seq<Device>, connected: bool, current: Option<nat>, latest: Option<nat>,
                           ctxState: NodeState, lastConnecting: int, sent: seq<Message>)

  datatype Connection = BadAddress | Refusal | Accepted

  /** What one tick meets: the configured devices, connection attempts, answers of the network, and clocks. */
  datatype Surroundings = Surroundings(found: seq<Option<Device>>, first: Connection, firstAt: int, net: Network, times: nat -> int,
                                       finishedAt: int, droppedAt: int, second: Connection, secondAt: int, ts: int)

  const FRESH := Master([], false, None, None, UnConnected, 0, [])

  ghost predicate InRange(index: Option<nat>, devices: seq<Device>) {
    index.Some? ==> index.value < |devices|
  }

  // ----- Connecting -----

  function Say(m: Master, state: NodeState): Master {
    m.(ctxState := state, sent := m.sent + [NodeEvent(state)])
  }

  function Dropped(m: Master, now: int): Master {
    Say(m, UnConnected).(lastConnecting := now + 60000, connected := false)
  }

  /** An address that cannot be parsed leaves the node connecting. */
  function Contexted(m: Master, connection: Connection, now: int): Master {
    var starting := Say(m.(connected := false), Connecting);
    match connection
    case BadAddress => starting
    case Accepted => Say(starting.(connected := true), Connected)
    case Refusal => Dropped(starting, now)
  }

  function Raised(devices: seq<Device>, index: Option<nat>): seq<Device>
    requires InRange(index, devices)
  {
    if index.None? then devices else devices[index.value := TimeoutIncreased(devices[index.value])]
  }

  /** The answer to a header mismatch: blame a device, drop the connection and connect again. */
  function Recovered(m: Master, blamed: Option<nat>, s: Surroundings): Master
    requires InRange(blamed, m.devices)
  {
    var again := Contexted(Dropped(m.(devices := Raised(m.devices, blamed)), s.droppedAt), s.second, s.secondAt);
    if again.connected then again else Dropped(again, s.secondAt)
  }

  // ----- Reading -----

  function CycleOf(d: Device, s: Surroundings): Cycle {
    RunCycle(d.steps, s.net, RetryLimit(d.retryCount), s.times)
  }

  predicate Reads(m: Master)
    requires InRange(m.current, m.devices)
  {
    m.current.Some? && m.devices[m.current.value].isActive && m.connected
  }

  /** The device that a header mismatch is blamed on: the current one if it kept others waiting, else the previous one. */
  function Culprit(m: Master, late: bool): Option<nat> {
    if late then m.current else m.latest
  }

  function ReadOnce(m: Master, s: Surroundings): Master
    requires InRange(m.current, m.devices) && InRange(m.latest, m.devices)
  {
    if !Reads(m) then m
    else
      var i := m.current.value;
      var d := m.devices[i];
      var c := CycleOf(d, s);
      var marked := m.(devices := m.devices[i := d.(steps := c.steps)]);
      match c.end
      case Disconnected => Dropped(marked, s.droppedAt)
      case Mismatch(late) => Recovered(marked.(latest := m.current), Culprit(m, late), s)
      case Completed =>
        marked.(latest := m.current, devices := m.devices[i := Finished(d.(steps := c.steps), s.finishedAt)],
                sent := m.sent + [DeviceEvent(StatusOf(c.failed, |d.steps|), d.id, c.measures)])
  }

  // ----- The loop -----

  /** The devices whose values could be read from the database. */
  function Loaded(found: seq<Option<Device>>): seq<Device> {
    if found == [] then [] else Loaded(Front(found)) + if Last(found).Some? then [Last(found).value] else []
  }

  lemma LoadedLast(found: seq<Option<Device>>, d: Option<Device>)
    ensures Loaded(found + [d]) == if d.Some? then Loaded(found) + [d.value] else Loaded(found)
  {
    assert Front(found + [d]) == found;
  }

  /** Every device takes its own place if it could be read, and is left out otherwise. */
  lemma {:induction false} LoadedExactly(a: seq<Option<Device>>, d: Option<Device>, b: seq<Option<Device>>)
    ensures Loaded([]) == []
    ensures Loaded(a + [d] + b) == Loaded(a) + (if d.Some? then [d.value] else []) + Loaded(b)
  {
    var here := if d.Some? then [d.value] else [];
    if b == [] {
      assert a + [d] + b == a + [d];
      LoadedLast(a, d);
    } else {
      var p, x := Front(b), Last(b);
      FrontLast(b);
      hide *;
      Assoc(a + [d], p, [x]);
      LoadedExactly(a, d, p);
      LoadedLast(a + [d] + p, x);
      LoadedLast(p, x);
      if x.Some? {
        Assoc(Loaded(a) + here, Loaded(p), [x.value]);
      }
    }
  }

  /** The source stops if there are devices but no values of any of them could be read. */
  predicate Loadable(found: seq<Option<Device>>) {
    found == [] || Loaded(found) != []
  }

  function Created(m: Master, found: seq<Option<Device>>): Master
    requires Loadable(found)
  {
    if found == [] then m.(devices := [])
    else m.(devices := Loaded(found), current := Some(Choose(Loaded(found))))
  }

  /** Devices and their indices belong together, and the connection is what the controller was told last. */
  ghost predicate Sound(m: Master) {
    && InRange(m.current, m.devices) && InRange(m.latest, m.devices)
    && (m.connected <==> m.ctxState == Connected)
    && m.ctxState == LastNodeState(m.sent)
  }

  function LastNodeState(sent: seq<Message>): NodeState {
    if sent == [] then UnConnected
    else if Last(sent).NodeEvent? then Last(sent).state
    else LastNodeState(Front(sent))
  }

  /** The master once it has looked for devices if it had none, and once it has tried to connect if it was not. */
  function Built(m: Master, s: Surroundings): Master
    requires Loadable(s.found)
  {
    if m.devices == [] then Created(m, s.found) else m
  }

  function Connectable(m: Master, s: Surroundings): Master {
    if m.connected then m else Contexted(m, s.first, s.firstAt)
  }

  function Tick(m: Master, s: Surroundings): Master
    requires Sound(m) && Loadable(s.found)
  {
    var built := Built(m, s);
    if built.devices == [] then built
    else
      var up := Connectable(built, s);
      if up.connected then ReadOnce(up, s) else up
  }

  function SaturatingSub(a: int, b: int): int {
    if a < b then 0 else a - b
  }

  function Chosen(m: Master): Master {
    if m.devices != [] && m.connected then m.(current := Some(Choose(m.devices))) else m
  }

  /** How long the loop is to sleep, in milliseconds. */
  function Delay(m: Master, ts: int): int {
    if m.devices == [] then 60000
    else if !m.connected then SaturatingSub(m.lastConnecting, ts)
    else
      var d := m.devices[Choose(m.devices)];
      SaturatingSub(if d.isActive then d.nextReadAt else 1000, ts)
  }

  /** The loop never sleeps less than 20 ms. */
  function Sleep(delay: int): int {
    if delay > 20 then delay else 20
  }

  // ----- Every run -----

  lemma SaySound(m: Master, state: NodeState)
    ensures LastNodeState(Say(m, state).sent) == state
  {
  }

  lemma ContextedSound(m: Master, connection: Connection, now: int)
    ensures var c := Contexted(m, connection, now);
            && (c.connected <==> c.ctxState == Connected) && c.ctxState == LastNodeState(c.sent)
            && (c.connected <==> connection == Accepted)
  {
  }

  lemma RecoveredSound(m: Master, blamed: Option<nat>, s: Surroundings)
    requires InRange(blamed, m.devices)
    ensures var r := Recovered(m, blamed, s);
            && (r.connected <==> r.ctxState == Connected) && r.ctxState == LastNodeState(r.sent)
            && r.devices == Raised(m.devices, blamed) && r.current == m.current && r.latest == m.latest
            && (r.connected <==> s.second == Accepted)
  {
    var dropped := Dropped(m.(devices := Raised(m.devices, blamed)), s.droppedAt);
    ContextedSound(dropped, s.second, s.secondAt);
    hide Raised, LastNodeState;
    SaySound(Contexted(dropped, s.second, s.secondAt), UnConnected);
  }

  lemma ReadSound(m: Master, s: Surroundings)
    requires Sound(m)
    ensures Sound(ReadOnce(m, s)) && |ReadOnce(m, s).devices| == |m.devices|
  {
    hide RunCycle, Recovered, StatusOf;
    if Reads(m) {
      var i := m.current.value;
      var c := CycleOf(m.devices[i], s);
      var marked := m.(devices := m.devices[i := m.devices[i].(steps := c.steps)]);
      if c.end.Mismatch? {
        RecoveredSound(marked.(latest := m.current), Culprit(m, c.end.late), s);
      }
    }
  }

  /** The first devices are built inside of a tick, which is then the tick of a master that had them before. */
  lemma BuiltSound(m: Master, s: Surroundings)
    requires Sound(m) && Loadable(s.found)
    ensures var built := Built(m, s);
            && Sound(built) && built.connected == m.connected && built.lastConnecting == m.lastConnecting
            && built.sent == m.sent && built.ctxState == m.ctxState
            && (m.devices != [] ==> built == m)
            && (m.devices == [] ==> (built.devices == [] <==> s.found == []))
            && (built.devices != [] ==> Tick(built, s) == Tick(m, s))
  {
    hide ReadOnce, Contexted, Choose;
  }

  lemma {:induction false} TickSound(m: Master, s: Surroundings)
    requires Sound(m) && Loadable(s.found)
    ensures Sound(Tick(m, s))
    ensures m.devices != [] ==> |Tick(m, s).devices| == |m.devices|
  {
    hide RunCycle, ReadOnce, Loaded, LastNodeState;
    var built := Built(m, s);
    if built.devices != [] {
      ContextedSound(built, s.first, s.firstAt);
      var up := Connectable(built, s);
      if up.connected {
        ReadSound(up, s);
      }
    }
  }
}
