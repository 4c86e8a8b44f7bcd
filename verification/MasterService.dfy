/** Which devices the reading loop of a node serves: a healthy loop is the scheduler, and a blocked device waits for ever. */
module MasterService {
  import opened Sequences
  import opened Events
  import opened ReadPlanner
  import opened ReadCycle
  import opened Scheduler
  import opened MasterSpec
  import opened MasterRuns

  /** The part of a device that decides when it is polled. */
  function Timing(d: Device): Device {
    d.(steps := [], timeout := 0)
  }

  function Timings(devices: seq<Device>): (r: seq<Device>)
    ensures |r| == |devices| && forall i :: 0 <= i < |devices| ==> r[i] == Timing(devices[i])
  {
    Map(Timing, devices)
  }

  lemma {:induction false} SameChoice(devices: seq<Device>, n: nat)
    requires n <= |devices| && devices != []
    ensures ChooseAmong(Timings(devices), n) == ChooseAmong(devices, n)
  {
    if n > 0 {
      SameChoice(devices, n - 1);
    }
  }

  lemma SameTimings(a: seq<Device>, b: seq<Device>)
    requires a != [] && Timings(a) == Timings(b)
    ensures b != [] && Choose(a) == Choose(b)
  {
    hide ChooseAmong;
    SameChoice(a, |a|);
    SameChoice(b, |b|);
    assert |Timings(a)| == |a| && |Timings(b)| == |b|;
  }

  // ----- The chosen device -----

  /** The current device is the one the scheduler chooses, with or without a connection. */
  ghost predicate Aimed(m: Master) {
    Sound(m) && (m.devices != [] ==> m.current == Some(Choose(m.devices)))
  }

  /** A tick moves the deadline of a device only by completing its cycle. */
  lemma {:induction false} TickDeadlines(m: Master, s: Surroundings, i: nat)
    requires Sound(m) && Loadable(s.found) && i < |Built(m, s).devices|
    ensures |Tick(m, s).devices| == |Built(m, s).devices|
    ensures Timing(Tick(m, s).devices[i])
         == if Polls(m, s) == Some(i) && PollEnd(m, s).Completed?
            then Timing(Built(m, s).devices[i]).(nextReadAt := s.finishedAt + Built(m, s).devices[i].timeForRecall)
            else Timing(Built(m, s).devices[i])
  {
    ActiveTiming(Built(m, s).devices[i]);
    hide RunCycle, ReadOnce, LastNodeState, Timing, Choose, Loaded;
    var built := Built(m, s);
    BuiltSound(m, s);
    TickSound(built, s);
    ContextedSound(built, s.first, s.firstAt);
    var up := Connectable(built, s);
    if up.connected {
      ReadDeadlines(up, s, i);
    }
  }

  /** A tick reads a device exactly if it finds or makes a connection and the chosen device is active: that device. */
  lemma {:induction false} PollsExactly(m: Master, s: Surroundings)
    requires Aimed(m) && Loadable(s.found)
    ensures var devices := Built(m, s).devices;
            Polls(m, s) == if devices != [] && devices[Choose(devices)].isActive && (m.connected || s.first == Accepted)
                           then Some(Choose(devices)) else None
  {
    hide LastNodeState, Choose, Loaded;
    BuiltSound(m, s);
    ContextedSound(Built(m, s), s.first, s.firstAt);
  }

  lemma ReadDeadlines(m: Master, s: Surroundings, i: nat)
    requires Sound(m) && m.connected && i < |m.devices|
    ensures |ReadOnce(m, s).devices| == |m.devices| && ReadOnce(m, s).current == m.current
    ensures ReadOnce(m, s).connected || !Reads(m) || !CycleOf(m.devices[m.current.value], s).end.Completed?
    ensures Timing(ReadOnce(m, s).devices[i])
         == if Reads(m) && m.current == Some(i) && CycleOf(m.devices[i], s).end.Completed? then Finished(Timing(m.devices[i]), s.finishedAt)
            else Timing(m.devices[i])
  {
    hide RunCycle, StatusOf, LastNodeState;
    ReadSound(m, s);
    if Reads(m) {
      var k := m.current.value;
      var c := CycleOf(m.devices[k], s);
      var marked := m.(devices := m.devices[k := m.devices[k].(steps := c.steps)]);
      if c.end.Mismatch? {
        RecoveredSound(marked.(latest := m.current), Culprit(m, c.end.late), s);
      }
    }
  }

  /** A tick without a connection at its end has completed no cycle, and has chosen nobody else. */
  lemma TickUnconnected(m: Master, s: Surroundings)
    requires Sound(m) && Loadable(s.found) && Built(m, s).devices != [] && !Tick(m, s).connected
    ensures Tick(m, s).current == Built(m, s).current
    ensures Polls(m, s).Some? ==> !PollEnd(m, s).Completed?
  {
    hide RunCycle, ReadOnce, LastNodeState, Choose, Loaded;
    var built := Built(m, s);
    BuiltSound(m, s);
    ContextedSound(built, s.first, s.firstAt);
    var up := Connectable(built, s);
    if up.connected {
      ReadDeadlines(up, s, 0);
    }
  }

  lemma AimedTurn(m: Master, s: Surroundings)
    requires Aimed(m) && Loadable(s.found)
    ensures Sound(Tick(m, s)) && Aimed(Chosen(Tick(m, s)))
  {
    var built, tick := Built(m, s), Tick(m, s);
    BuiltSound(m, s);
    TickSound(m, s);
    if built.devices != [] {
      hide Tick, LastNodeState, Choose, Loaded, PollEnd;
      TickDeadlines(m, s, 0);
      if !tick.connected {
        TickUnconnected(m, s);
        forall i | 0 <= i < |built.devices| ensures Timing(tick.devices[i]) == Timing(built.devices[i]) {
          TickDeadlines(m, s, i);
        }
        SameTimings(built.devices, tick.devices);
      }
    }
  }

  /** In every state a run can reach, the current device is the one the scheduler chooses. */
  lemma {:induction false} CurrentIsChosen(m: Master, run: seq<Surroundings>)
    requires Aimed(m) && AllLoadable(run)
    ensures Aimed(FRESH) && Aimed(Loop(m, run))
  {
    FreshIsAimed();
    if |run| > 0 {
      hide Tick, Chosen, Aimed, Loadable;
      CurrentIsChosen(m, Front(run));
      AimedTurn(Loop(m, Front(run)), Last(run));
    }
  }

  lemma FreshIsAimed()
    ensures Aimed(FRESH)
  {
  }

  // ----- A healthy loop is the scheduler -----

  /** There are devices, and the one that the scheduler chooses is next. */
  ghost predicate Ready(m: Master) {
    Aimed(m) && m.devices != []
  }

  /** An active device is chosen. */
  predicate Busy(m: Master) {
    m.devices != [] && m.devices[Choose(m.devices)].isActive
  }

  /** There is a connection or the tick makes one, and its cycle is not cut short. */
  ghost predicate Healthy(m: Master, s: Surroundings)
    requires Ready(m) && Loadable(s.found)
  {
    Connectable(m, s).connected && (Polls(m, s).Some? ==> PollEnd(m, s).Completed?)
  }

  /** After what connecting made it say, the only message of the turn from `m` to `next` is a report of this device. */
  ghost predicate Reported(m: Master, s: Surroundings, next: Master, id: int) {
    exists status, measures :: next.sent == Connectable(m, s).sent + [DeviceEvent(status, id, measures)]
  }

  /** A healthy turn of the loop is one round of the scheduler, and reads and reports the device that was due. */
  lemma {:induction false} HealthyTurn(m: Master, s: Surroundings)
    requires Ready(m) && Loadable(s.found) && Healthy(m, s)
    ensures var next, c := Chosen(Tick(m, s)), Choose(m.devices);
            && Ready(next) && next.connected
            && Timings(next.devices) == Round(Timings(m.devices), s.finishedAt)
            && Polls(m, s) == (if m.devices[c].isActive then Some(c) else None)
            && (if m.devices[c].isActive then Reported(m, s, next, m.devices[c].id) else next.sent == Connectable(m, s).sent)
  {
    var next, c, tick := Chosen(Tick(m, s)), Choose(m.devices), Tick(m, s);
    HealthyMessage(m, s);
    BuiltSound(m, s);
    hide Tick, LastNodeState, ChooseAmong, PollEnd, Reported, Timing;
    AimedTurn(m, s);
    SameChoice(m.devices, |m.devices|);
    TickDeadlines(m, s, 0);
    ActiveTiming(m.devices[c]);
    forall i | 0 <= i < |m.devices| ensures Timings(next.devices)[i] == Round(Timings(m.devices), s.finishedAt)[i] {
      TickDeadlines(m, s, i);
    }
  }

  lemma ActiveTiming(d: Device)
    ensures Timing(d).isActive == d.isActive && Timing(d).id == d.id
    ensures Timing(d).nextReadAt == d.nextReadAt && Timing(d).timeForRecall == d.timeForRecall
  {
  }

  lemma HealthyMessage(m: Master, s: Surroundings)
    requires Ready(m) && Loadable(s.found) && Healthy(m, s)
    ensures var tick, c := Tick(m, s), Choose(m.devices);
            && tick.connected && Chosen(tick).sent == tick.sent && Chosen(tick).connected
            && Polls(m, s) == (if m.devices[c].isActive then Some(c) else None)
            && (if m.devices[c].isActive then Reported(m, s, tick, m.devices[c].id) else tick.sent == Connectable(m, s).sent)
  {
    hide RunCycle, LastNodeState, StatusOf, ChooseAmong;
    var up, c := Connectable(m, s), Choose(m.devices);
    if m.devices[c].isActive {
      var cycle := CycleOf(m.devices[c], s);
      assert Tick(m, s).sent == up.sent + [DeviceEvent(StatusOf(cycle.failed, |m.devices[c].steps|), m.devices[c].id, cycle.measures)];
    }
  }

  // ----- Every run is a run of the scheduler -----

  /** The times at which the completed polls of a run set new deadlines. */
  ghost function Done(m: Master, run: seq<Surroundings>): seq<int>
    requires Sound(m) && AllLoadable(run)
  {
    if |run| == 0 then []
    else Done(m, Front(run)) + if Completes(Loop(m, Front(run)), Last(run)) then [Last(run).finishedAt] else []
  }

  /** A turn whose cycle completes is one round of the scheduler, and any other turn moves no deadline. */
  lemma {:induction false} AnyTurn(m: Master, s: Surroundings)
    requires Ready(m) && Loadable(s.found)
    ensures var next, c := Chosen(Tick(m, s)), Choose(m.devices);
            && Ready(next)
            && Timings(next.devices) == (if Completes(m, s) then Round(Timings(m.devices), s.finishedAt) else Timings(m.devices))
            && (Completes(m, s) ==> Polls(m, s) == Some(c) && m.devices[c].isActive && Reported(m, s, next, m.devices[c].id))
  {
    if Completes(m, s) {
      CompletesIsHealthy(m, s);
      hide *;
      HealthyTurn(m, s);
    } else {
      BuiltSound(m, s);
      hide Tick, LastNodeState, Choose, PollEnd, Timing, Polls, Completes;
      AimedTurn(m, s);
      TickDeadlines(m, s, 0);
      forall i | 0 <= i < |m.devices| ensures Timings(Chosen(Tick(m, s)).devices)[i] == Timings(m.devices)[i] {
        TickDeadlines(m, s, i);
        CutShortDeadline(m, s, i);
      }
    }
  }

  lemma CutShortDeadline(m: Master, s: Surroundings, i: nat)
    requires Sound(m) && Loadable(s.found) && !Completes(m, s)
    ensures !(Polls(m, s) == Some(i) && PollEnd(m, s).Completed?)
  {
  }

  lemma CompletesIsHealthy(m: Master, s: Surroundings)
    requires Ready(m) && Loadable(s.found) && Completes(m, s)
    ensures Healthy(m, s) && Busy(m)
  {
    hide LastNodeState, Choose;
    BuiltSound(m, s);
    ContextedSound(m, s.first, s.firstAt);
  }

  /** Over any run, whichever cycles are cut short, the deadlines are those of the scheduler after the completed polls. */
  lemma {:induction false} LoopIsRounds(m: Master, run: seq<Surroundings>)
    requires Ready(m) && AllLoadable(run)
    ensures Ready(Loop(m, run)) && Timings(Loop(m, run).devices) == Rounds(Timings(m.devices), Done(m, run))
  {
    if |run| > 0 {
      var p, s := Front(run), Last(run);
      DoneLast(m, run);
      hide Tick, Chosen, Loop, Loadable, Choose, Completes, Timings, Rounds, AllLoadable, Done, Aimed;
      LoopIsRounds(m, p);
      LoopLast(m, p, s);
      AnyTurn(Loop(m, p), s);
      RoundsLast(Timings(m.devices), Done(m, p), s.finishedAt);
    }
  }

  lemma DoneLast(m: Master, run: seq<Surroundings>)
    requires Sound(m) && AllLoadable(run) && |run| > 0
    ensures AllLoadable(Front(run)) && Loadable(Last(run).found) && run == Front(run) + [Last(run)]
    ensures Done(m, run) == if Completes(Loop(m, Front(run)), Last(run)) then Done(m, Front(run)) + [Last(run).finishedAt] else Done(m, Front(run))
  {
    hide Tick, Completes, Loadable, Loop;
  }

  lemma RoundsLast(devices: seq<Device>, times: seq<int>, now: int)
    requires devices != []
    ensures Rounds(devices, times + [now]) == Round(Rounds(devices, times), now)
  {
    assert Front(times + [now]) == times;
  }

  /** The turn of the run in which poll `j` completes. */
  lemma {:induction false} DoneTurn(m: Master, run: seq<Surroundings>, j: nat) returns (k: nat)
    requires Sound(m) && AllLoadable(run) && j < |Done(m, run)|
    ensures k < |run| && AllLoadable(run[..k]) && Done(m, run[..k]) == Done(m, run)[..j]
    ensures Completes(Loop(m, run[..k]), run[k])
  {
    hide Tick, Sound, Loadable, Completes, Loop;
    if j < |Done(m, Front(run))| {
      k := DoneTurn(m, Front(run), j);
      assert Front(run)[..k] == run[..k] && Done(m, Front(run))[..j] == Done(m, run)[..j];
    } else {
      k := |run| - 1;
      assert run[..k] == Front(run) && Done(m, run)[..j] == Done(m, Front(run));
    }
  }

  // ----- Fairness -----

  /** In turn `k` of the run the device `d` is read and reported. */
  ghost predicate Served(m: Master, run: seq<Surroundings>, k: nat, d: nat)
    requires Sound(m) && AllLoadable(run) && k < |run| && d < |m.devices|
  {
    && Polls(Loop(m, run[..k]), run[k]) == Some(d)
    && Reported(Loop(m, run[..k]), run[k], Loop(m, run[..k + 1]), m.devices[d].id)
  }

  lemma PolledIsServed(m: Master, run: seq<Surroundings>, j: nat, d: nat) returns (k: nat)
    requires Ready(m) && AllLoadable(run) && j < |Done(m, run)| && d < |m.devices|
    requires Polled(Timings(m.devices), Done(m, run), j) == d
    ensures k < |run| && Served(m, run, k, d)
  {
    k := DoneTurn(m, run, j);
    LoadablePrefix(run, k);
    PolledNow(m, run, j, k, d);
    hide Tick, Chosen, Loop, Completes, Loadable, Choose, Sound, Polls, Timings, Round, Polled, AllLoadable, Reported, Done;
    LoopIsRounds(m, run[..k]);
    LoopLast(m, run[..k], run[k]);
    AnyTurn(Loop(m, run[..k]), run[k]);
  }

  lemma PolledNow(m: Master, run: seq<Surroundings>, j: nat, k: nat, d: nat)
    requires Ready(m) && AllLoadable(run) && j < |Done(m, run)| && d < |m.devices| && k < |run|
    requires Polled(Timings(m.devices), Done(m, run), j) == d
    requires AllLoadable(run[..k]) && Done(m, run[..k]) == Done(m, run)[..j]
    ensures var before := Loop(m, run[..k]);
            && |before.devices| == |m.devices| && Choose(before.devices) == d && before.devices[d].id == m.devices[d].id
  {
    var before := Loop(m, run[..k]);
    hide Tick, Loop, Round, Rounds, Loadable, ChooseAmong, AllLoadable, Done, SameSettings;
    LoopIsRounds(m, run[..k]);
    SameChoice(before.devices, |before.devices|);
    SameId(m, run[..k], d);
  }

  lemma SameId(m: Master, run: seq<Surroundings>, d: nat)
    requires Sound(m) && AllLoadable(run) && d < |m.devices|
    ensures |Loop(m, run).devices| == |m.devices| && Loop(m, run).devices[d].id == m.devices[d].id
    ensures Loop(m, run).devices[d].isActive == m.devices[d].isActive
  {
    hide Loop, Sound, AllLoadable;
    DevicesStay(m, run);
  }

  lemma UnblockedTimings(devices: seq<Device>, d: nat)
    requires d < |devices|
    ensures Unblocked(Timings(devices), d) == Unblocked(devices, d) && Timings(devices)[d].isActive == devices[d].isActive
    ensures Timings(devices)[d].nextReadAt == devices[d].nextReadAt
    ensures forall times, bound :: Past(Timings(devices), times, bound) == Past(devices, times, bound)
  {
    forall times, bound ensures Past(Timings(devices), times, bound) == Past(devices, times, bound) {
      assert forall i :: 0 <= i < |devices| ==> Timings(devices)[i].timeForRecall == devices[i].timeForRecall;
      if Past(Timings(devices), times, bound) {
        forall i, k | 0 <= i < |devices| && 0 <= k < |times| ensures times[k] + devices[i].timeForRecall > bound {
          assert times[k] + Timings(devices)[i].timeForRecall > bound;
        }
      }
    }
  }

  /**
    Fairness of the loop: while the first device does not block it, an active device that is overdue is read and
    reported within as many completed polls as there are devices, whatever happens in all other turns.
  */
  lemma {:induction false} OverdueIsServed(m: Master, run: seq<Surroundings>, d: nat)
    requires Ready(m) && AllLoadable(run) && |Done(m, run)| >= |m.devices|
    requires d < |m.devices| && m.devices[d].isActive && Unblocked(m.devices, d)
    requires Past(m.devices, Done(m, run), m.devices[d].nextReadAt)
    ensures exists k :: 0 <= k < |run| && Served(m, run, k, d)
  {
    var devices, times := Timings(m.devices), Done(m, run);
    hide Polled, Served, Unblocked, Past, Done;
    UnblockedTimings(m.devices, d);
    if forall j :: 0 <= j < |times| ==> Polled(devices, times, j) != d {
      Fair(devices, times, d);
    }
    var j :| 0 <= j < |times| && Polled(devices, times, j) == d;
    var k := PolledIsServed(m, run, j, d);
  }

  /** Until it has been served, an unblocked active device keeps the choice active. */
  lemma {:induction false} ChoiceStaysActive(m: Master, run: seq<Surroundings>, d: nat)
    requires Ready(m) && AllLoadable(run) && d < |m.devices| && m.devices[d].isActive && Unblocked(m.devices, d)
    requires forall k :: 0 <= k < |run| ==> !Served(m, run, k, d)
    ensures Ready(Loop(m, run)) && Busy(Loop(m, run))
  {
    var devices, times, after := Timings(m.devices), Done(m, run), Loop(m, run);
    hide Polled, Served, Unblocked, Done, Loop, Choose, Rounds;
    forall j | 0 <= j < |times| ensures Polled(devices, times, j) != d {
      if Polled(devices, times, j) == d {
        var k := PolledIsServed(m, run, j, d);
      }
    }
    UnblockedTimings(m.devices, d);
    LoopIsRounds(m, run);
    OldestUntilPolled(devices, times, d);
    SameOldest(after.devices, Rounds(devices, times));
  }

  lemma SameOldest(devices: seq<Device>, timings: seq<Device>)
    requires devices != [] && Timings(devices) == timings && IsOldest(timings, Choose(timings))
    ensures devices[Choose(devices)].isActive
  {
    hide ChooseAmong;
    SameChoice(devices, |devices|);
    ActiveTiming(devices[Choose(devices)]);
  }

  // ----- Healthy runs -----

  ghost predicate HealthyRun(m: Master, run: seq<Surroundings>)
    requires Sound(m) && AllLoadable(run)
  {
    |run| == 0
    || (HealthyRun(m, Front(run)) && Ready(Loop(m, Front(run))) && Healthy(Loop(m, Front(run)), Last(run)))
  }

  /** In a healthy run every turn completes a poll as long as an active device is chosen. */
  lemma {:induction false} HealthyDone(m: Master, run: seq<Surroundings>)
    requires Ready(m) && AllLoadable(run) && HealthyRun(m, run)
    requires forall k :: 0 <= k < |run| ==> Busy(Loop(m, run[..k]))
    ensures Done(m, run) == Map(FinishedAt, run)
  {
    if |run| > 0 {
      var p, s := Front(run), Last(run);
      DoneLast(m, run);
      HealthyLast(m, run);
      assert run[..|run| - 1] == p;
      hide *;
      forall k | 0 <= k < |p| ensures Busy(Loop(m, p[..k])) {
        assert p[..k] == run[..k];
      }
      HealthyDone(m, p);
      HealthyCompletes(Loop(m, p), s);
      MapJoin(FinishedAt, p, [s]);
    }
  }

  lemma HealthyLast(m: Master, run: seq<Surroundings>)
    requires Ready(m) && AllLoadable(run) && HealthyRun(m, run) && |run| > 0
    ensures AllLoadable(Front(run)) && HealthyRun(m, Front(run)) && Loadable(Last(run).found)
    ensures Ready(Loop(m, Front(run))) && Healthy(Loop(m, Front(run)), Last(run))
  {
    hide Loop, Healthy, Ready, Loadable;
  }

  lemma HealthyCompletes(m: Master, s: Surroundings)
    requires Ready(m) && Loadable(s.found) && Healthy(m, s) && Busy(m)
    ensures Completes(m, s) && FinishedAt(s) == s.finishedAt
  {
    hide LastNodeState, Choose, PollEnd, Connectable, Polls, Aimed;
    HealthyTurn(m, s);
  }

  function FinishedAt(s: Surroundings): int {
    s.finishedAt
  }

  // ----- Starvation -----

  /** A blocked device is never read, whatever the network, the database and the other devices do. */
  lemma {:induction false} BlockedIsNeverRead(m: Master, run: seq<Surroundings>, s: Surroundings, d: nat)
    requires Ready(m) && AllLoadable(run) && Loadable(s.found)
    requires 0 < d < |m.devices| && !Unblocked(m.devices, d)
    ensures var after := Loop(m, run);
            && Ready(after) && |after.devices| == |m.devices|
            && Timing(after.devices[0]) == Timing(m.devices[0]) && Timing(after.devices[d]) == Timing(m.devices[d])
            && Polls(after, s) != Some(0) && Polls(after, s) != Some(d)
  {
    hide Tick, Loadable;
    if |run| > 0 {
      var before, last := Loop(m, Front(run)), Last(run);
      BlockedIsNeverRead(m, Front(run), last, d);
      BuiltSound(before, last);
      hide Timing, Choose, Unblocked, Polls;
      AimedTurn(before, last);
      TickDeadlines(before, last, 0);
      TickDeadlines(before, last, d);
    }
    BlockedNow(m.devices, Loop(m, run), s, d);
  }

  lemma BlockedNow(devices: seq<Device>, m: Master, s: Surroundings, d: nat)
    requires Ready(m) && Loadable(s.found)
    requires 0 < d < |m.devices| == |devices| && !Unblocked(devices, d)
    requires Timing(m.devices[0]) == Timing(devices[0]) && Timing(m.devices[d]) == Timing(devices[d])
    ensures Polls(m, s) != Some(0) && Polls(m, s) != Some(d)
  {
    ActiveTiming(devices[0]);
    ActiveTiming(devices[d]);
    ActiveTiming(m.devices[0]);
    ActiveTiming(m.devices[d]);
    assert Rounds(m.devices, []) == m.devices;
    hide Timing, Choose;
    BlockedForEver(m.devices, [], d);
    BuiltSound(m, s);
  }

  /** Surroundings in which nothing is cut short: connections are accepted, and requests are never answered. */
  function Silence(now: int): Surroundings {
    Surroundings([], Accepted, 0, (k: nat, t: nat) => Elapsed, (k: nat) => 0, now, 0, Accepted, 0, 0)
  }

  lemma {:induction false} SilenceCompletes(steps: seq<ReadStep>, limit: nat, now: int)
    ensures RunCycle(steps, Silence(now).net, limit, Silence(now).times).end == Completed
  {
    if steps != [] {
      var answer := Answers(Silence(now).net, |steps| - 1);
      SilenceCompletes(Front(steps), limit, now);
      TriesBounded(answer, limit, 0);
      var last := RunStep(answer, limit, 0).tries - 1;
      var net := Silence(now).net;
      assert net(|steps| - 1, last) == Elapsed;
      assert answer(last) == Classify(net(|steps| - 1, last));
      hide RunStep;
    }
  }

  function Quiet(now: int, n: nat): (run: seq<Surroundings>)
    ensures |run| == n && forall k :: 0 <= k < n ==> run[k] == Silence(now)
  {
    if n == 0 then [] else Quiet(now, n - 1) + [Silence(now)]
  }

  lemma QuietFacts(devices: seq<Device>, now: int, n: nat, bound: int)
    requires forall i :: 0 <= i < |devices| ==> now + devices[i].timeForRecall > bound
    ensures AllLoadable(Quiet(now, n)) && Past(devices, Map(FinishedAt, Quiet(now, n)), bound)
    ensures forall k :: 0 <= k < n ==> Quiet(now, n)[k].found == []
  {
    hide Quiet;
  }

  lemma {:induction false} SilenceIsHealthy(m: Master, now: int, n: nat)
    requires Ready(m)
    ensures AllLoadable(Quiet(now, n)) && HealthyRun(m, Quiet(now, n))
  {
    QuietFacts([], now, n, 0);
    if n > 0 {
      hide Tick, Choose, RunCycle, Healthy, Loop, Ready, Sound, Silence, Loadable, HealthyRun, AllLoadable;
      SilenceIsHealthy(m, now, n - 1);
      LoopIsRounds(m, Quiet(now, n - 1));
      SilenceTick(Loop(m, Quiet(now, n - 1)), now);
      HealthyExtends(m, Quiet(now, n - 1), Silence(now));
    }
  }

  lemma HealthyExtends(m: Master, run: seq<Surroundings>, s: Surroundings)
    requires Ready(m) && AllLoadable(run) && HealthyRun(m, run) && Loadable(s.found)
    requires Ready(Loop(m, run)) && Healthy(Loop(m, run), s)
    ensures AllLoadable(run + [s]) && HealthyRun(m, run + [s])
  {
    hide Tick, Choose, RunCycle, Healthy, Loop, Loadable;
    assert Front(run + [s]) == run;
  }

  lemma SilenceTick(m: Master, now: int)
    requires Ready(m)
    ensures Silence(now).found == [] && Loadable(Silence(now).found) && FinishedAt(Silence(now)) == now && Healthy(m, Silence(now))
  {
    var s := Silence(now);
    BuiltSound(m, s);
    if Polls(m, s).Some? {
      var d := m.devices[Polls(m, s).value];
      SilenceCompletes(d.steps, RetryLimit(d.retryCount), now);
      hide RunCycle;
    }
  }

  lemma {:induction false} ReadIfUnblocked(m: Master, d: nat) returns (run: seq<Surroundings>, s: Surroundings)
    requires Ready(m) && d < |m.devices| && m.devices[d].isActive && Unblocked(m.devices, d)
    ensures AllLoadable(run) && Loadable(s.found) && Polls(Loop(m, run), s) == Some(d)
    ensures s.found == [] && forall k :: 0 <= k < |run| ==> run[k].found == []
  {
    hide Past, HealthyRun, Unblocked, Loop, Polls, Reported, Quiet, Silence, AllLoadable, Loadable, Served, Sound, Done;
    var now := LateEnough(m.devices, m.devices[d].nextReadAt);
    var whole := Quiet(now, |m.devices|);
    SilenceIsHealthy(m, now, |m.devices|);
    QuietFacts(m.devices, now, |m.devices|, m.devices[d].nextReadAt);
    if forall k :: 0 <= k < |whole| ==> !Served(m, whole, k, d) {
      UnservedIsDone(m, whole, d);
      OverdueIsServed(m, whole, d);
    }
    var k :| 0 <= k < |whole| && Served(m, whole, k, d);
    ServedIsRead(m, whole, k, d);
    run, s := whole[..k], whole[k];
  }

  lemma UnservedIsDone(m: Master, run: seq<Surroundings>, d: nat)
    requires Ready(m) && AllLoadable(run) && HealthyRun(m, run)
    requires d < |m.devices| && m.devices[d].isActive && Unblocked(m.devices, d)
    requires forall k :: 0 <= k < |run| ==> !Served(m, run, k, d)
    ensures Done(m, run) == Map(FinishedAt, run)
  {
    hide Loop, Choose, Unblocked, Served, HealthyRun, Sound;
    forall k | 0 <= k < |run| ensures AllLoadable(run[..k]) && Busy(Loop(m, run[..k])) {
      LoadablePrefix(run, k);
      UnservedPrefix(m, run, k, d);
      ChoiceStaysActive(m, run[..k], d);
    }
    HealthyDone(m, run);
  }

  lemma UnservedPrefix(m: Master, run: seq<Surroundings>, n: nat, d: nat)
    requires Sound(m) && AllLoadable(run) && n < |run| && AllLoadable(run[..n]) && d < |m.devices|
    requires forall k :: 0 <= k < |run| ==> !Served(m, run, k, d)
    ensures forall k :: 0 <= k < n ==> !Served(m, run[..n], k, d)
  {
    hide Loop, Polls, Reported, Sound, AllLoadable;
    forall k | 0 <= k < n ensures !Served(m, run[..n], k, d) {
      assert run[..n][..k] == run[..k] && run[..n][..k + 1] == run[..k + 1] && run[..n][k] == run[k];
      assert !Served(m, run, k, d);
    }
  }

  lemma ServedIsRead(m: Master, run: seq<Surroundings>, k: nat, d: nat)
    requires Sound(m) && AllLoadable(run) && k < |run| && d < |m.devices| && Served(m, run, k, d)
    ensures AllLoadable(run[..k]) && Loadable(run[k].found) && Polls(Loop(m, run[..k]), run[k]) == Some(d)
  {
    hide Loop, Polls, Reported;
    LoadablePrefix(run, k);
  }

  /** From a ready state some run of the loop reads the active device `d` if and only if the first device does not block it. */
  lemma {:induction false} ReadExactly(m: Master, d: nat)
    requires Ready(m) && d < |m.devices| && m.devices[d].isActive
    ensures (exists run, s: Surroundings :: AllLoadable(run) && Loadable(s.found) && Polls(Loop(m, run), s) == Some(d)) <==> Unblocked(m.devices, d)
  {
    var blocked := !Unblocked(m.devices, d);
    assert blocked ==> 0 < d;
    hide Polls, Loop, AllLoadable, Loadable, Unblocked, Ready;
    if blocked {
      forall run, s: Surroundings | AllLoadable(run) && Loadable(s.found) ensures Polls(Loop(m, run), s) != Some(d) {
        BlockedIsNeverRead(m, run, s, d);
      }
    } else {
      var run, s := ReadIfUnblocked(m, d);
    }
  }

  /**
    Once an inactive device is chosen nothing is ever read again, and no device changes; with a connection nothing
    happens at all, and from time 1000 on the loop turns at its floor of 20 ms.
  */
  lemma {:induction false} IdleForEver(m: Master, run: seq<Surroundings>, s: Surroundings)
    requires Ready(m) && !Busy(m) && AllLoadable(run) && Loadable(s.found)
    ensures Loop(m, run).devices == m.devices && Ready(Loop(m, run)) && Polls(Loop(m, run), s) == None
    ensures m.connected ==> Loop(m, run) == m && (s.ts >= 1000 ==> Sleep(Delay(Loop(m, run), s.ts)) == 20)
  {
    hide ReadOnce, LastNodeState, Choose;
    if |run| > 0 {
      IdleForEver(m, Front(run), Last(run));
      AimedTurn(Loop(m, Front(run)), Last(run));
      IdleTick(Loop(m, Front(run)), Last(run));
    }
    IdleTick(Loop(m, run), s);
  }

  /**
    Behind an inactive first device, once polls set deadlines that are not before the first device's own, fewer polls
    are completed than there are devices in all time, whatever happens in all other turns.
  */
  lemma {:induction false} FewPolls(m: Master, run: seq<Surroundings>)
    requires Ready(m) && AllLoadable(run)
    requires !m.devices[0].isActive && Past(m.devices, Done(m, run), m.devices[0].nextReadAt - 1)
    ensures |Done(m, run)| < |m.devices|
  {
    var devices, times := Timings(m.devices), Done(m, run);
    var n := |m.devices| - 1;
    if |times| > n {
      UnblockedTimings(m.devices, 0);
      var k := DoneTurn(m, run, n);
      hide Tick, Choose, Past, Loop, Done, NotBlocked, Aimed, Completes, AllLoadable, Sound;
      PastPrefix(devices, times, m.devices[0].nextReadAt - 1, n);
      ServiceEnds(devices, times[..n], []);
      LoadablePrefix(run, k);
      LoopIsRounds(m, run[..k]);
      BlockedIsIdle(Loop(m, run[..k]).devices);
      AnyTurn(Loop(m, run[..k]), run[k]);
    }
  }

  /** A healthy loop comes to the state in which an inactive device is chosen after fewer turns than there are devices. */
  lemma {:induction false} ServiceEndsInLoop(m: Master, run: seq<Surroundings>)
    requires Ready(m) && AllLoadable(run) && HealthyRun(m, run) && |run| >= |m.devices| - 1
    requires !m.devices[0].isActive && Past(m.devices, Map(FinishedAt, run), m.devices[0].nextReadAt - 1)
    ensures Ready(Loop(m, run)) && !Busy(Loop(m, run))
  {
    var after := Loop(m, run);
    LoopIsRounds(m, run);
    if Busy(after) {
      hide Loop, Choose, HealthyRun, Sound, Past, Done, NotBlocked;
      forall k | 0 <= k < |run| ensures AllLoadable(run[..k]) && Busy(Loop(m, run[..k])) {
        LoadablePrefix(run, k);
        IdleStays(m, run, k);
      }
      HealthyDone(m, run);
      UnblockedTimings(m.devices, 0);
      ServiceEnds(Timings(m.devices), Done(m, run), []);
      BlockedIsIdle(after.devices);
    }
  }

  lemma IdleStays(m: Master, run: seq<Surroundings>, k: nat)
    requires Ready(m) && AllLoadable(run) && k < |run| && AllLoadable(run[..k])
    ensures Busy(Loop(m, run)) ==> Busy(Loop(m, run[..k]))
  {
    var before := Loop(m, run[..k]);
    assert AllLoadable(run[k..]) && run == run[..k] + run[k..];
    hide Loop, Choose, Sound, AllLoadable, Loadable;
    LoopIsRounds(m, run[..k]);
    LoopIsRounds(m, run);
    LoopJoin(m, run[..k], run[k..]);
    if !Busy(before) {
      SilenceLoads();
      IdleForEver(before, run[k..], Silence(0));
    }
  }

  lemma SilenceLoads()
    ensures Loadable(Silence(0).found)
  {
  }

  lemma BlockedIsIdle(devices: seq<Device>)
    requires devices != [] && !NotBlocked(Timings(devices))
    ensures !devices[Choose(devices)].isActive
  {
    SameChoice(devices, |devices|);
    ChoosesOldest(Timings(devices));
    ChooseAmongLeast(Timings(devices), |devices|);
    ActiveTiming(devices[Choose(devices)]);
  }

  lemma IdleTick(m: Master, s: Surroundings)
    requires Ready(m) && !Busy(m) && Loadable(s.found)
    ensures Polls(m, s) == None && Tick(m, s).devices == m.devices && Tick(m, s) == Connectable(m, s)
    ensures m.connected ==> Chosen(Tick(m, s)) == m
  {
    hide LastNodeState, Choose;
  }

  // ----- From a fresh start -----

  ghost predicate AllInOrder(run: seq<Surroundings>) {
    forall k :: 0 <= k < |run| ==> CreatedInOrder(Loaded(run[k].found))
  }

  /** If the first device is inactive, it is the one that is chosen. */
  ghost predicate IdleFirst(m: Master) {
    Aimed(m) && (m.devices != [] && !m.devices[0].isActive ==> !m.devices[Choose(m.devices)].isActive)
  }

  lemma BuiltIsIdle(m: Master, s: Surroundings)
    requires IdleFirst(m) && Loadable(s.found) && CreatedInOrder(Loaded(s.found))
    ensures IdleFirst(Built(m, s))
  {
    hide Choose, Loaded, CreatedInOrder;
    BuiltSound(m, s);
    if m.devices == [] && s.found != [] && !Loaded(s.found)[0].isActive {
      FirstDecides(Loaded(s.found));
    }
  }

  lemma IdleTurn(m: Master, s: Surroundings)
    requires IdleFirst(m) && Loadable(s.found) && CreatedInOrder(Loaded(s.found))
    ensures Sound(Tick(m, s)) && IdleFirst(Chosen(Tick(m, s)))
    ensures Built(m, s).devices != [] && !Built(m, s).devices[0].isActive ==> Polls(m, s) == None
  {
    var built, tick := Built(m, s), Tick(m, s);
    BuiltIsIdle(m, s);
    BuiltSound(m, s);
    AimedTurn(m, s);
    hide Choose, Loaded, CreatedInOrder, LastNodeState, ReadOnce;
    if built.devices != [] {
      if built.devices[0].isActive {
        TickTimeouts(m, s, 0);
      } else {
        IdleTick(built, s);
      }
    }
  }

  lemma FreshIsIdle()
    ensures IdleFirst(FRESH)
  {
  }

  /** Behind an inactive first device nobody is ever read, from the first tick on, in any run from a fresh start. */
  lemma {:induction false} NobodyIsRead(run: seq<Surroundings>, s: Surroundings)
    requires AllLoadable(run) && Loadable(s.found) && AllInOrder(run) && CreatedInOrder(Loaded(s.found))
    ensures Sound(FRESH) && IdleFirst(Loop(FRESH, run))
    ensures var built := Built(Loop(FRESH, run), s);
            built.devices != [] && !built.devices[0].isActive ==> Polls(Loop(FRESH, run), s) == None
  {
    FreshIsIdle();
    hide Tick, Chosen, Loadable, IdleFirst, CreatedInOrder, Loaded, Polls, Built, Aimed;
    if |run| > 0 {
      NobodyIsRead(Front(run), Last(run));
      IdleTurn(Loop(FRESH, Front(run)), Last(run));
    }
    IdleTurn(Loop(FRESH, run), s);
  }

  /** The first turn of a fresh master builds the devices it finds, and a run after it continues the loop. */
  lemma {:induction false} LoopJoin(m: Master, a: seq<Surroundings>, b: seq<Surroundings>)
    requires Sound(m) && AllLoadable(a) && AllLoadable(b)
    ensures AllLoadable(a + b) && Loop(m, a + b) == Loop(Loop(m, a), b)
  {
    if |b| == 0 {
      assert a + b == a;
    } else {
      hide Tick, Chosen, Sound, Loadable;
      assert Front(a + b) == a + Front(b) && Last(a + b) == Last(b);
      LoopJoin(m, a, Front(b));
      assert forall k :: 0 <= k < |a + b| ==> (a + b)[k] == if k < |a| then a[k] else b[k - |a|];
    }
  }

  /** Runs from a fresh start that begin with this configuration. */
  ghost predicate Begins(run: seq<Surroundings>, s: Surroundings, found: seq<Option<Device>>) {
    AllLoadable(run) && Loadable(s.found) && AllInOrder(run) && CreatedInOrder(Loaded(s.found)) && (run + [s])[0].found == found
  }

  /**
    From a fresh start and a configuration whose devices are created in order, an active device is read in some run
    if and only if the first device is active.
  */
  lemma {:induction false} ReadFromFreshExactly(found: seq<Option<Device>>, d: nat)
    requires CreatedInOrder(Loaded(found)) && d < |Loaded(found)| && Loaded(found)[d].isActive
    ensures Sound(FRESH)
    ensures (exists run, s :: Begins(run, s, found) && Polls(Loop(FRESH, run), s) == Some(d)) <==> Loaded(found)[0].isActive
  {
    FreshIsIdle();
    var active := Loaded(found)[0].isActive;
    hide Polls, Loop, Loaded, CreatedInOrder, Begins;
    if active {
      var run, s := ReadFromFresh(found, d);
    } else {
      forall run, s | Begins(run, s, found) ensures Polls(Loop(FRESH, run), s) != Some(d) {
        NotReadFromFresh(found, run, s);
      }
    }
  }

  lemma NotReadFromFresh(found: seq<Option<Device>>, run: seq<Surroundings>, s: Surroundings)
    requires Begins(run, s, found) && Loaded(found) != [] && !Loaded(found)[0].isActive
    ensures Sound(FRESH) && Polls(Loop(FRESH, run), s) == None
  {
    FreshIsIdle();
    NobodyIsRead(run, s);
    StaysBuilt(found, run, s);
  }

  /** The first device is the first one of the configuration the run begins with. */
  lemma {:induction false} StaysBuilt(found: seq<Option<Device>>, run: seq<Surroundings>, s: Surroundings)
    requires Begins(run, s, found) && Loaded(found) != []
    ensures Sound(FRESH) && |Built(Loop(FRESH, run), s).devices| == |Loaded(found)|
    ensures forall i :: 0 <= i < |Loaded(found)| ==> SameSettings(Loaded(found)[i], Built(Loop(FRESH, run), s).devices[i])
  {
    FreshIsIdle();
    if |run| == 0 {
      assert (run + [s])[0] == s && found != [];
    } else {
      var p, last := Front(run), Last(run);
      assert (p + [last])[0] == run[0] && (run + [s])[0] == run[0];
      hide Tick, Loaded, CreatedInOrder, Aimed, Sound, Loadable;
      StaysBuilt(found, p, last);
      var before := Loop(FRESH, p);
      BuiltSound(before, last);
      TickTimeouts(before, last, 0);
      forall i | 0 <= i < |Loaded(found)| ensures SameSettings(Loaded(found)[i], Tick(before, last).devices[i]) {
        TickTimeouts(before, last, i);
      }
    }
  }

  lemma {:induction false} ReadFromFresh(found: seq<Option<Device>>, d: nat) returns (run: seq<Surroundings>, s: Surroundings)
    requires CreatedInOrder(Loaded(found)) && d < |Loaded(found)| && Loaded(found)[d].isActive && Loaded(found)[0].isActive
    ensures Sound(FRESH) && Begins(run, s, found) && Polls(Loop(FRESH, run), s) == Some(d)
  {
    FreshIsIdle();
    var first := Silence(0).(found := found);
    assert found != [];
    assert Begins([first], Silence(0), found) by { assert ([first] + [Silence(0)])[0] == first && Loaded([]) == []; }
    StaysBuilt(found, [first], Silence(0));
    NobodyIsRead([first], Silence(0));
    var m := Loop(FRESH, [first]);
    BuiltSound(m, Silence(0));
    var later: seq<Surroundings>;
    later, s := ReadIfUnblocked(m, d);
    LoopJoin(FRESH, [first], later);
    run := [first] + later;
    assert (run + [s])[0] == first;
    forall k | 0 <= k < |run| ensures CreatedInOrder(Loaded(run[k].found)) {
      assert k > 0 ==> run[k] == later[k - 1];
    }
  }
}
