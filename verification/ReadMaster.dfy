/** The reading loop of a node, in place. */
module ReadMasterUnit {
  import opened Sequences
  import opened Events
  import opened Plugins
  import opened ReadPlanner
  import opened ReadCycle
  import opened Scheduler
  import opened MasterSpec
  import MasterRuns

  /** Repeat one request until its fate is decided. */
  method TryStep(net: Network, k: nat, limit: nat) returns (end: StepEnd)
    ensures end == RunStep(Answers(net, k), limit, 0).end
  {
    var currTry := 0;
    while true
      invariant currTry == 0 || currTry < limit
      invariant RunStep(Answers(net, k), limit, 0) == RunStep(Answers(net, k), limit, currTry)
      decreases limit - currTry
    {
      var answer := Classify(net(k, currTry));
      match answer
      case Words(words) => return Read(words);
      case SocketFail => return Lost;
      case RemoveStep => return Refused;
      case WrongHeader => return if currTry > 0 then Mismatched(true) else Mismatched(false);
      case _ => currTry := currTry + 1;
      if currTry >= limit {
        return GaveUp;
      }
    }
  }

  class ReadMaster {
    var devices: seq<Device>
    var ctx: bool
    var current: Option<nat>
    var latest: Option<nat>
    var ctxState: NodeState
    var lastConnecting: int
    /** The messages handed to the controller. */
    var sent: seq<Message>

    ghost function State(): Master
      reads this
    {
      Master(devices, ctx, current, latest, ctxState, lastConnecting, sent)
    }

    constructor ()
      ensures State() == FRESH
    {
      devices, ctx, current, latest := [], false, None, None;
      ctxState, lastConnecting, sent := UnConnected, 0, [];
    }

    method SendConnectingMsg(state: NodeState)
      modifies this`ctxState, this`sent
      ensures State() == Say(old(State()), state)
    {
      ctxState := state;
      sent := sent + [NodeEvent(state)];
    }

    method Disconnecting(now: int)
      modifies this`ctxState, this`sent, this`lastConnecting, this`ctx
      ensures State() == Dropped(old(State()), now)
    {
      lastConnecting := now + 60000;
      SendConnectingMsg(UnConnected);
      ctx := false;
    }

    method CreateContext(connection: Connection, now: int) returns (ok: bool)
      modifies this`ctxState, this`sent, this`lastConnecting, this`ctx
      ensures State() == Contexted(old(State()), connection, now) && ok == ctx
    {
      ctx := false;
      SendConnectingMsg(Connecting);
      match connection
      case BadAddress => return false;
      case Accepted =>
        ctx := true;
        SendConnectingMsg(Connected);
        return true;
      case Refusal =>
        Disconnecting(now);
        return false;
    }

    method IncreaseTimeout(idx: Option<nat>, s: Surroundings)
      requires InRange(idx, devices)
      modifies this`devices, this`ctxState, this`sent, this`lastConnecting, this`ctx
      ensures State() == Recovered(old(State()), idx, s)
    {
      if idx.Some? {
        devices := devices[idx.value := TimeoutIncreased(devices[idx.value])];
      }
      Disconnecting(s.droppedAt);
      var ok := CreateContext(s.second, s.secondAt);
      if !ok {
        Disconnecting(s.secondAt);
      }
    }

    /** Choose the device to poll next, and say when; without an active one, the number 1000. */
    method WhenNextDevice() returns (whenNext: int)
      requires devices != []
      modifies this`current
      ensures current == Some(Choose(devices))
      ensures whenNext == if devices[Choose(devices)].isActive then devices[Choose(devices)].nextReadAt else 1000
    {
      whenNext := devices[0].nextReadAt;
      current := Some(0);
      for i := 0 to |devices|
        invariant current == Some(ChooseAmong(devices, i)) && whenNext == devices[ChooseAmong(devices, i)].nextReadAt
      {
        if devices[i].nextReadAt < whenNext && devices[i].isActive {
          whenNext := devices[i].nextReadAt;
          current := Some(i);
        }
      }
      if !devices[current.value].isActive {
        whenNext := 1000;
      }
    }

    method WhenNext(ts: int) returns (delay: int)
      modifies this`current
      ensures State() == Chosen(old(State())) && delay == Delay(old(State()), ts)
    {
      if devices == [] {
        return 60000;
      }
      if !ctx {
        return SaturatingSub(lastConnecting, ts);
      }
      var whenNext := WhenNextDevice();
      return SaturatingSub(whenNext, ts);
    }

    method CreateDevices(found: seq<Option<Device>>) returns (ok: bool)
      requires Loadable(found)
      modifies this`devices, this`current
      ensures State() == Created(old(State()), found) && ok == (found != [])
    {
      devices := [];
      if found == [] {
        return false;
      }
      var units := [];
      assert found[..0] == [];
      for i := 0 to |found|
        invariant units == Loaded(found[..i]) && devices == []
      {
        assert Front(found[..i + 1]) == found[..i];
        if found[i].Some? {
          units := units + [found[i].value];
        }
      }
      assert found[..|found|] == found;
      devices := units;
      var _ := WhenNextDevice();
      return true;
    }

    /** The requests of device `i` in order; refused ones are marked as broken in place. */
    method ReadSteps(i: nat, s: Surroundings) returns (totalResult: seq<Option<ModbusMeasure>>, failedSteps: nat, end: CycleEnd)
      requires i < |devices|
      modifies this`devices
      ensures var c := CycleOf(old(devices[i]), s);
              && devices == old(devices)[i := old(devices[i]).(steps := c.steps)]
              && totalResult == c.measures && failedSteps == c.failed && end == c.end
    {
      hide RunCycle, RunStep, GetValues, FailAll, Answers;
      ghost var d := devices[i];
      var limit := RetryLimit(devices[i].retryCount);
      totalResult, failedSteps, end := [], 0, Completed;
      var k := 0;
      NothingYet(d.steps, s, limit);
      while k < |devices[i].steps|
        invariant 0 <= k <= |d.steps| && |devices| == |old(devices)|
        invariant devices[i] == d.(steps := devices[i].steps) && devices == old(devices)[i := devices[i]]
        invariant |devices[i].steps| == |d.steps| && devices[i].steps[k..] == d.steps[k..]
        invariant RunCycle(d.steps[..k], s.net, limit, s.times) == Cycle(devices[i].steps[..k], totalResult, failedSteps, Completed)
        decreases |d.steps| - k
      {
        var step := devices[i].steps[k];
        var ts := s.times(k);
        RunCycleNext(d.steps, k, s, limit);
        Tails(devices[i].steps, d.steps, k);
        if step.broken {
          failedSteps := failedSteps + 1;
        } else {
          var stepEnd := TryStep(s.net, k, limit);
          match stepEnd
          case Read(words) => totalResult := totalResult + GetValues(step, words, ts);
          case GaveUp =>
            totalResult := totalResult + FailAll(step, ts);
            failedSteps := failedSteps + 1;
          case Refused =>
            Replaced(devices[i].steps, step.(broken := true), k);
            devices := devices[i := devices[i].(steps := devices[i].steps[k := step.(broken := true)])];
            totalResult := totalResult + FailAll(step, ts);
            failedSteps := failedSteps + 1;
          case Lost =>
            return totalResult, failedSteps, Disconnected;
          case Mismatched(late) =>
            return totalResult, failedSteps, Mismatch(late);
        }
        k := k + 1;
      }
      assert d.steps[..k] == d.steps && devices[i].steps[..k] == devices[i].steps;
    }

    method ReadDevice(s: Surroundings)
      requires InRange(current, devices) && InRange(latest, devices)
      modifies this
      ensures State() == ReadOnce(old(State()), s)
    {
      if current.None? || !devices[current.value].isActive || !ctx {
        return;
      }
      var i := current.value;
      var devId, totalSteps := devices[i].id, |devices[i].steps|;
      var totalResult, failedSteps, end := ReadSteps(i, s);
      if end.Disconnected? {
        Disconnecting(s.droppedAt);
        return;
      }
      var prev := latest;
      latest := current;
      if end.Mismatch? {
        IncreaseTimeout(if end.late then current else prev, s);
        return;
      }
      devices := devices[i := Finished(devices[i], s.finishedAt)];
      sent := sent + [DeviceEvent(StatusOf(failedSteps, totalSteps), devId, totalResult)];
    }

    method Tick(s: Surroundings)
      requires Sound(State()) && Loadable(s.found)
      modifies this
      ensures State() == MasterSpec.Tick(old(State()), s) && Sound(State())
    {
      TickSound(State(), s);
      if devices == [] {
        var ok := CreateDevices(s.found);
        if !ok {
          return;
        }
      }
      if !ctx {
        var ok := CreateContext(s.first, s.firstAt);
        if !ok {
          return;
        }
      }
      ReadDevice(s);
    }
  }

  lemma NothingYet(steps: seq<ReadStep>, s: Surroundings, limit: nat)
    ensures RunCycle(steps[..0], s.net, limit, s.times) == Cycle(steps[..0], [], 0, Completed)
  {
  }

  lemma Tails(a: seq<ReadStep>, b: seq<ReadStep>, k: nat)
    requires k < |a| == |b| && a[k..] == b[k..]
    ensures a[k] == b[k] && a[k + 1..] == b[k + 1..] && a[..k + 1] == a[..k] + [b[k]] && a == a[..k + 1] + b[k + 1..]
  {
    assert a[k..][1..] == b[k..][1..];
    assert a[k..][0] == b[k..][0];
  }

  lemma Replaced(a: seq<ReadStep>, x: ReadStep, k: nat)
    requires k < |a|
    ensures a[k := x][k + 1..] == a[k + 1..] && a[k := x][..k + 1] == a[..k] + [x]
  {
  }

  /** The cycle up to and including step `k`, and the whole cycle if that step cuts it short. */
  lemma RunCycleNext(steps: seq<ReadStep>, k: nat, s: Surroundings, limit: nat)
    requires k < |steps|
    ensures var next := Visit(RunCycle(steps[..k], s.net, limit, s.times), steps[k], Answers(s.net, k), limit, s.times(k));
            && RunCycle(steps[..k + 1], s.net, limit, s.times) == next
            && (!next.end.Completed? ==> RunCycle(steps, s.net, limit, s.times) == next.(steps := next.steps + steps[k + 1..]))
  {
    assert steps[..k + 1] == steps[..k] + [steps[k]];
    hide Visit;
    RunCycleLast(steps[..k], steps[k], s.net, limit, s.times);
    if !RunCycle(steps[..k + 1], s.net, limit, s.times).end.Completed? {
      CutShort(steps, k + 1, s.net, limit, s.times);
    }
  }

  /** A node's loop over a given run of surroundings: every tick is followed by the choice of the next device. */
  method NodeLoop(run: seq<Surroundings>) returns (master: ReadMaster, sleeps: seq<int>)
    requires MasterRuns.AllLoadable(run)
    ensures Sound(FRESH) && master.State() == MasterRuns.Loop(FRESH, run) && sleeps == MasterRuns.Sleeps(FRESH, run)
  {
    master := new ReadMaster();
    MasterRuns.NothingSaid();
    sleeps := [];
    for k := 0 to |run|
      invariant fresh(master)
      invariant MasterRuns.AllLoadable(run[..k]) && master.State() == MasterRuns.Loop(FRESH, run[..k])
      invariant sleeps == MasterRuns.Sleeps(FRESH, run[..k])
    {
      MasterRuns.LoadablePrefix(run, k);
      MasterRuns.LoopLast(FRESH, run[..k], run[k]);
      MasterRuns.SleepsLast(FRESH, run[..k], run[k]);
      master.Tick(run[k]);
      var delay := master.WhenNext(run[k].ts);
      sleeps := sleeps + [Sleep(delay)];
    }
    assert run[..|run|] == run;
  }
}
