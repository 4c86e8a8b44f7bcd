/** Properties of whole runs of a node's reading loop. */
module MasterRuns {
  import opened Sequences
  import opened Events
  import opened ReadPlanner
  import opened ReadCycle
  import opened Scheduler
  import opened MasterSpec

  ghost predicate AllLoadable(run: seq<Surroundings>) {
    forall k :: 0 <= k < |run| ==> Loadable(run[k].found)
  }

  /** Ticks, each followed by the choice of the next device. */
  ghost function Loop(m: Master, run: seq<Surroundings>): (r: Master)
    requires Sound(m) && AllLoadable(run)
    ensures Sound(r)
  {
    if |run| == 0 then m
    else
      var before := Loop(m, Front(run));
      TickSound(before, Last(run));
      Chosen(Tick(before, Last(run)))
  }

  lemma LoopLast(m: Master, run: seq<Surroundings>, s: Surroundings)
    requires Sound(m) && AllLoadable(run + [s])
    ensures AllLoadable(run) && Loadable(s.found)
    ensures Loop(m, run + [s]) == Chosen(Tick(Loop(m, run), s))
  {
    hide Tick, Chosen, Sound, Loadable;
    assert (run + [s])[|run|] == s && Front(run + [s]) == run;
    assert forall k :: 0 <= k < |run| ==> (run + [s])[k] == run[k];
  }

  // ----- What the controller is told -----

  /** A message that may follow the messages before it. */
  predicate Follows(sent: seq<Message>, message: Message) {
    match message
    case DeviceEvent(_, _, _) => LastNodeState(sent) == Connected
    case NodeEvent(Connected) => sent != [] && Last(sent) == NodeEvent(Connecting)
    case NodeEvent(Connecting) => LastNodeState(sent) != Connected
    case NodeEvent(UnConnected) => true
  }

  predicate Proper(sent: seq<Message>) {
    sent == [] || (Proper(Front(sent)) && Follows(Front(sent), Last(sent)))
  }

  lemma ProperSays(m: Master, state: NodeState)
    requires Proper(m.sent) && Follows(m.sent, NodeEvent(state))
    ensures Proper(Say(m, state).sent)
  {
  }

  lemma ContextedProper(m: Master, connection: Connection, now: int)
    requires Proper(m.sent) && LastNodeState(m.sent) != Connected
    ensures Proper(Contexted(m, connection, now).sent)
  {
    var starting := Say(m.(connected := false), Connecting);
    hide Proper;
    ProperSays(m.(connected := false), Connecting);
    if connection.Accepted? {
      ProperSays(starting.(connected := true), Connected);
    } else if connection.Refusal? {
      ProperSays(starting, UnConnected);
    }
  }

  lemma RecoveredProper(m: Master, blamed: Option<nat>, s: Surroundings)
    requires InRange(blamed, m.devices) && Proper(m.sent)
    ensures Proper(Recovered(m, blamed, s).sent)
  {
    var dropped := Dropped(m.(devices := Raised(m.devices, blamed)), s.droppedAt);
    SaySound(m, UnConnected);
    hide Proper, Raised;
    ProperSays(m, UnConnected);
    ContextedProper(dropped, s.second, s.secondAt);
    ProperSays(Contexted(dropped, s.second, s.secondAt), UnConnected);
  }

  lemma TickProper(m: Master, s: Surroundings)
    requires Sound(m) && Loadable(s.found) && Proper(m.sent)
    ensures Proper(Tick(m, s).sent)
  {
    hide Loaded, RunCycle, Raised, StatusOf, LastNodeState, Choose;
    var built := Built(m, s);
    if built.devices != [] {
      var up := Connectable(built, s);
      ContextedSound(built, s.first, s.firstAt);
      if !built.connected {
        ContextedProper(built, s.first, s.firstAt);
      }
      if up.connected {
        ReadProper(up, s);
      }
    }
  }

  lemma ReadProper(m: Master, s: Surroundings)
    requires Sound(m) && m.connected && Proper(m.sent)
    ensures Proper(ReadOnce(m, s).sent)
  {
    if Reads(m) {
      var i := m.current.value;
      var c := CycleOf(m.devices[i], s);
      var marked := m.(devices := m.devices[i := m.devices[i].(steps := c.steps)]);
      var report := DeviceEvent(StatusOf(c.failed, |m.devices[i].steps|), m.devices[i].id, c.measures);
      assert Front(m.sent + [report]) == m.sent;
      ProperSays(m, UnConnected);
      if c.end.Mismatch? {
        RecoveredProper(marked.(latest := m.current), Culprit(m, c.end.late), s);
      }
    }
  }

  /**
    After any run from a fresh start the controller has been told a proper story: it is told of a connection exactly
    when there is one, only ever after an attempt that was announced while there was none, and every report of a
    device comes while the last it heard of the node is that it is connected.
  */
  lemma {:induction false} ProperStory(run: seq<Surroundings>)
    requires AllLoadable(run)
    ensures Loop(FRESH, run).connected <==> LastNodeState(Loop(FRESH, run).sent) == Connected
    ensures Proper(Loop(FRESH, run).sent)
  {
    NothingSaid();
    hide Tick, Proper, LastNodeState;
    if |run| > 0 {
      ProperStory(Front(run));
      TickProper(Loop(FRESH, Front(run)), Last(run));
    }
  }

  lemma NothingSaid()
    ensures Sound(FRESH) && Proper(FRESH.sent)
  {
  }

  lemma LoadablePrefix(run: seq<Surroundings>, k: nat)
    requires AllLoadable(run) && k < |run|
    ensures AllLoadable(run[..k]) && AllLoadable(run[..k + 1]) && run[..k + 1] == run[..k] + [run[k]]
  {
  }

  // ----- Timeouts -----

  /** The device that a tick reads, if it reads one. */
  ghost function Polls(m: Master, s: Surroundings): (p: Option<nat>)
    requires Sound(m) && Loadable(s.found)
    ensures InRange(p, Built(m, s).devices)
  {
    BuiltSound(m, s);
    var up := Connectable(Built(m, s), s);
    if Reads(up) then up.current else None
  }

  /** How the cycle of a tick ends that reads a device. */
  ghost function PollEnd(m: Master, s: Surroundings): CycleEnd
    requires Sound(m) && Loadable(s.found) && Polls(m, s).Some?
  {
    CycleOf(Built(m, s).devices[Polls(m, s).value], s).end
  }

  /** The tick reads a device, and its cycle is not cut short. */
  ghost predicate Completes(m: Master, s: Surroundings)
    requires Sound(m) && Loadable(s.found)
  {
    Polls(m, s).Some? && PollEnd(m, s).Completed?
  }

  /** The device whose timeout a tick raises: only after a header mismatch, and only if there is one to blame. */
  ghost function Blamed(m: Master, s: Surroundings): (b: Option<nat>)
    requires Sound(m) && Loadable(s.found)
    ensures InRange(b, Built(m, s).devices)
  {
    BuiltSound(m, s);
    if Polls(m, s).Some? && PollEnd(m, s).Mismatch? then Culprit(Built(m, s), PollEnd(m, s).late) else None
  }

  /** The settings of a device that no tick changes. */
  predicate SameSettings(d: Device, d': Device) {
    && d'.id == d.id && d'.isActive == d.isActive && d'.timeForRecall == d.timeForRecall
    && d'.retryCount == d.retryCount && |d'.steps| == |d.steps|
  }

  predicate RaisedBy(d: Device, d': Device, blamed: bool) {
    SameSettings(d, d') && d'.timeout == d.timeout + if blamed then 50 else 0
  }

  lemma ReadTimeouts(m: Master, s: Surroundings, i: nat)
    requires Sound(m) && m.connected && Loadable(s.found) && i < |m.devices|
    ensures |ReadOnce(m, s).devices| == |m.devices|
    ensures RaisedBy(m.devices[i], ReadOnce(m, s).devices[i], Blamed(m, s) == Some(i))
  {
    hide RunCycle, StatusOf, LastNodeState;
    ReadSound(m, s);
    if Reads(m) {
      var k := m.current.value;
      var c := CycleOf(m.devices[k], s);
      var marked := m.(devices := m.devices[k := m.devices[k].(steps := c.steps)]);
      if c.end.Mismatch? {
        RecoveredSound(marked.(latest := m.current), Culprit(m, c.end.late), s);
      }
    }
  }

  /**
    In a tick, the first one included, the timeout of a device grows by exactly 50 if it is the one to blame for a
    header mismatch, and not at all otherwise.
  */
  lemma {:induction false} TickTimeouts(m: Master, s: Surroundings, i: nat)
    requires Sound(m) && Loadable(s.found) && i < |Built(m, s).devices|
    ensures |Tick(m, s).devices| == |Built(m, s).devices|
    ensures RaisedBy(Built(m, s).devices[i], Tick(m, s).devices[i], Blamed(m, s) == Some(i))
  {
    hide RunCycle, ReadOnce, LastNodeState, RaisedBy, Choose, Loaded;
    var built := Built(m, s);
    BuiltSound(m, s);
    TickSound(built, s);
    ContextedSound(built, s.first, s.firstAt);
    var up := Connectable(built, s);
    if up.connected {
      ReadTimeouts(up, s, i);
    } else {
      RaisedByNone(built.devices[i]);
    }
  }

  lemma RaisedByNone(d: Device)
    ensures RaisedBy(d, d, false)
  {
  }

  function TimeoutSum(devices: seq<Device>): nat {
    if devices == [] then 0 else TimeoutSum(Front(devices)) + Last(devices).timeout
  }

  lemma {:induction false} SumRaised(a: seq<Device>, b: seq<Device>, blamed: Option<nat>)
    requires |a| == |b| && forall i :: 0 <= i < |a| ==> b[i].timeout == a[i].timeout + if blamed == Some(i) then 50 else 0
    ensures TimeoutSum(b) == TimeoutSum(a) + if InRange(blamed, a) && blamed.Some? then 50 else 0
  {
    if a != [] {
      SumRaised(Front(a), Front(b), blamed);
    }
  }

  lemma TickSum(m: Master, s: Surroundings)
    requires Sound(m) && Loadable(s.found)
    ensures TimeoutSum(Tick(m, s).devices) == TimeoutSum(Built(m, s).devices) + if Blamed(m, s).Some? then 50 else 0
  {
    var built, tick := Built(m, s), Tick(m, s);
    if built.devices != [] {
      hide Tick, Blamed, Sound, Built;
      TickTimeouts(m, s, 0);
      forall i | 0 <= i < |built.devices|
        ensures tick.devices[i].timeout == built.devices[i].timeout + if Blamed(m, s) == Some(i) then 50 else 0
      {
        TickTimeouts(m, s, i);
      }
      SumRaised(built.devices, tick.devices, Blamed(m, s));
    }
  }

  /** The header mismatches of a run that had a device to blame. */
  ghost function Blames(m: Master, run: seq<Surroundings>): nat
    requires Sound(m) && AllLoadable(run)
  {
    if |run| == 0 then 0
    else Blames(m, Front(run)) + if Blamed(Loop(m, Front(run)), Last(run)).Some? then 1 else 0
  }

  /** The timeouts of all devices together when they were created, be that before the run or in it. */
  ghost function SumAtCreation(m: Master, run: seq<Surroundings>): nat
    requires Sound(m) && AllLoadable(run)
  {
    if |run| == 0 then TimeoutSum(m.devices)
    else if Loop(m, Front(run)).devices == [] then TimeoutSum(Built(Loop(m, Front(run)), Last(run)).devices)
    else SumAtCreation(m, Front(run))
  }

  /** A master without devices has nobody to blame. */
  lemma {:induction false} NobodyToBlame(m: Master, run: seq<Surroundings>)
    requires Sound(m) && AllLoadable(run) && Loop(m, run).devices == []
    ensures Blames(m, run) == 0
  {
    if |run| > 0 {
      var before, s := Loop(m, Front(run)), Last(run);
      hide Tick, Sound, Loadable, Reads;
      TickSound(before, s);
      NobodyToBlame(m, Front(run));
      NoPoll(before, s);
    }
  }

  lemma NoPoll(m: Master, s: Surroundings)
    requires Sound(m) && Loadable(s.found) && Tick(m, s).devices == []
    ensures Built(m, s).devices == [] && Polls(m, s) == None
  {
    hide ReadOnce, LastNodeState, Choose, Loaded;
    BuiltSound(m, s);
    TickSound(Built(m, s), s);
    ContextedSound(Built(m, s), s.first, s.firstAt);
  }

  /** Over any run, from a fresh start too, the timeouts grow by exactly 50 for each mismatch with a device to blame. */
  lemma {:induction false} TimeoutsGrow(m: Master, run: seq<Surroundings>)
    requires Sound(m) && AllLoadable(run)
    ensures TimeoutSum(Loop(m, run).devices) == SumAtCreation(m, run) + 50 * Blames(m, run)
  {
    if |run| > 0 {
      var before, s := Loop(m, Front(run)), Last(run);
      BuiltSound(before, s);
      hide Tick, Blamed, Sound, Built, Loadable;
      TimeoutsGrow(m, Front(run));
      TickSum(before, s);
      if before.devices == [] {
        NobodyToBlame(m, Front(run));
      }
    }
  }

  /** Devices are built once, and then stay. */
  lemma {:induction false} DevicesStay(m: Master, run: seq<Surroundings>)
    requires Sound(m) && m.devices != [] && AllLoadable(run)
    ensures |Loop(m, run).devices| == |m.devices|
    ensures forall i :: 0 <= i < |m.devices| ==> SameSettings(m.devices[i], Loop(m, run).devices[i])
  {
    if |run| > 0 {
      DevicesStay(m, Front(run));
      var before, s := Loop(m, Front(run)), Last(run);
      BuiltSound(before, s);
      hide Tick, Blamed, Sound, Built, Loadable;
      TickTimeouts(before, s, 0);
      forall i | 0 <= i < |before.devices| ensures SameSettings(before.devices[i], Tick(before, s).devices[i]) {
        TickTimeouts(before, s, i);
      }
    }
  }

  // ----- Waiting -----

  /** When the connection of a tick was given up: at its first attempt, in its cycle, or when it was tried again. */
  ghost function GivenUpAt(m: Master, s: Surroundings): int
    requires Sound(m) && Loadable(s.found)
  {
    if !m.connected && s.first == Refusal then s.firstAt
    else if Polls(m, s).Some? && PollEnd(m, s).Disconnected? then s.droppedAt
    else s.secondAt
  }

  /**
    A tick with devices that ends without a connection makes the loop wait a minute from when the connection was
    given up, except where the very first attempt of the tick met a bad address: then the node stays connecting
    and the loop keeps the waiting time it had.
  */
  lemma {:induction false} WaitsToReconnect(m: Master, s: Surroundings, ts: int)
    requires Sound(m) && Loadable(s.found) && Built(m, s).devices != [] && !Tick(m, s).connected
    ensures var t := Tick(m, s);
            && (t.ctxState == Connecting <==> !m.connected && s.first == BadAddress)
            && (t.ctxState == Connecting ==> t.lastConnecting == m.lastConnecting)
            && (t.ctxState == UnConnected ==> t.lastConnecting == GivenUpAt(m, s) + 60000)
            && Delay(t, ts) == SaturatingSub(t.lastConnecting, ts)
  {
    hide RunCycle, LastNodeState, Raised, StatusOf, Choose, Loaded;
    BuiltSound(m, s);
    TickSound(Built(m, s), s);
  }

  /** Every attempt to connect meets an address that cannot be parsed. */
  ghost predicate NeverParsed(run: seq<Surroundings>) {
    forall k :: 0 <= k < |run| ==> run[k].first == BadAddress
  }

  function Attempts(n: nat): (sent: seq<Message>)
    ensures |sent| == n && forall k :: 0 <= k < n ==> sent[k] == NodeEvent(Connecting)
  {
    seq(n, k => NodeEvent(Connecting))
  }

  lemma BadAddressTick(m: Master, s: Surroundings)
    requires Sound(m) && Loadable(s.found) && !m.connected && s.first == BadAddress
    ensures Polls(m, s) == None && Tick(m, s).devices == Built(m, s).devices
    ensures !Tick(m, s).connected && Tick(m, s).lastConnecting == m.lastConnecting
    ensures Built(m, s).devices != [] ==> Tick(m, s).sent == m.sent + [NodeEvent(Connecting)]
  {
    hide LastNodeState, Choose, Loaded, ReadOnce;
  }

  /**
    A fresh node with devices and an address that cannot be parsed announces an attempt in every tick, and never
    waits for the minute after which it says it will try again: it turns every 20 ms for ever and reads nothing.
  */
  lemma {:induction false} BadAddressForEver(run: seq<Surroundings>, ts: int)
    requires AllLoadable(run) && NeverParsed(run) && |run| > 0 && run[0].found != [] && ts >= 0
    ensures Sound(FRESH)
    ensures var m := Loop(FRESH, run);
            && m.devices != [] && !m.connected && m.ctxState == Connecting && m.lastConnecting == 0
            && m.sent == Attempts(|run|) && Sleep(Delay(m, ts)) == 20
  {
    NothingSaid();
    var p, s := Front(run), Last(run);
    FrontLast(run);
    hide Tick, Choose, Loaded, ReadOnce, Proper;
    if |run| > 1 {
      assert p[0] == run[0];
      BadAddressForEver(p, ts);
    } else {
      assert p == [] && s == run[0];
    }
    var before := Loop(FRESH, p);
    BuiltSound(before, s);
    BadAddressTick(before, s);
    TickSound(before, s);
    assert Attempts(|p|) + [NodeEvent(Connecting)] == Attempts(|run|) && Last(Attempts(|run|)) == NodeEvent(Connecting);
  }

  /** Without devices the loop waits a full minute for them, and nothing changes until the database finds some. */
  lemma {:induction false} WaitsForDevices(run: seq<Surroundings>, ts: int)
    requires AllLoadable(run)
    ensures Loop(FRESH, run).devices == [] <==> forall k :: 0 <= k < |run| ==> run[k].found == []
    ensures Loop(FRESH, run).devices == [] ==> Loop(FRESH, run) == FRESH && Sleep(Delay(Loop(FRESH, run), ts)) == 60000
  {
    NothingSaid();
    if |run| > 0 {
      var p, s := Front(run), Last(run);
      FrontLast(run);
      hide Proper, ReadOnce, LastNodeState, Choose, Loaded;
      WaitsForDevices(p, ts);
      BuiltSound(Loop(FRESH, p), s);
      TickSound(Loop(FRESH, p), s);
      if s.found != [] || Loop(FRESH, p).devices != [] {
        TickSound(Built(Loop(FRESH, p), s), s);
      }
    }
  }

  /**
    With a connection and an inactive device chosen, the number 1000 is taken as a point in time: the loop waits
    for a second only at time 0, and from time 1000 on it does not wait at all.
  */
  lemma IdleDelay(m: Master, ts: int)
    requires m.devices != [] && m.connected && !m.devices[Choose(m.devices)].isActive && ts >= 0
    ensures Delay(m, ts) == 1000 <==> ts == 0
    ensures Delay(m, ts) == 0 <==> ts >= 1000
  {
  }

  /** With a connection and an active device chosen the loop sleeps until that device is due, and 20 ms at least. */
  lemma SleepsUntilDue(m: Master, ts: int)
    requires m.devices != [] && m.connected && m.devices[Choose(m.devices)].isActive
    ensures var due := m.devices[Choose(m.devices)].nextReadAt;
            ts + Sleep(Delay(m, ts)) == if due > ts + 20 then due else ts + 20
  {
  }

  // ----- The sleeps of a run -----

  /** How long the loop sleeps after each tick. */
  ghost function Sleeps(m: Master, run: seq<Surroundings>): seq<int>
    requires Sound(m) && AllLoadable(run)
  {
    if |run| == 0 then []
    else Sleeps(m, Front(run)) + [Sleep(Delay(Loop(m, run), Last(run).ts))]
  }

  lemma SleepsLast(m: Master, run: seq<Surroundings>, s: Surroundings)
    requires Sound(m) && AllLoadable(run + [s])
    ensures AllLoadable(run)
    ensures Sleeps(m, run + [s]) == Sleeps(m, run) + [Sleep(Delay(Loop(m, run + [s]), s.ts))]
  {
    assert forall k :: 0 <= k < |run| ==> (run + [s])[k] == run[k];
    assert Front(run + [s]) == run;
  }
}
