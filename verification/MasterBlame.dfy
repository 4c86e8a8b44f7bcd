/** Which device a header mismatch is blamed on, told by the turns of a run, and what becomes of the timeouts. */
module MasterBlame {
  import opened Sequences
  import opened ReadCycle
  import opened Scheduler
  import opened MasterSpec
  import opened MasterRuns
  import opened MasterReports

  /** The device read in the last turn of the run that did not lose its connection. */
  ghost function Previous(run: seq<Surroundings>): Option<nat>
    requires Sound(FRESH) && AllLoadable(run)
  {
    if |run| == 0 then None
    else
      var m, s := Loop(FRESH, Front(run)), Last(run);
      if Polls(m, s).Some? && PollEnd(m, s) != Disconnected then Polls(m, s) else Previous(Front(run))
  }

  lemma {:induction false} TickLatest(m: Master, s: Surroundings)
    requires Sound(m) && Loadable(s.found)
    ensures Tick(m, s).latest == if Polls(m, s).Some? && PollEnd(m, s) != Disconnected then Polls(m, s) else m.latest
  {
    hide RunCycle, ReadOnce, LastNodeState, Choose, Loaded;
    var built := Built(m, s);
    BuiltSound(m, s);
    ContextedSound(built, s.first, s.firstAt);
    var up := Connectable(built, s);
    if up.connected {
      ReadLatest(up, s);
    }
  }

  lemma ReadLatest(m: Master, s: Surroundings)
    requires Sound(m)
    ensures ReadOnce(m, s).latest == if Reads(m) && CycleOf(m.devices[m.current.value], s).end != Disconnected then m.current else m.latest
  {
    hide RunCycle, StatusOf, LastNodeState;
    if Reads(m) {
      var k := m.current.value;
      var c := CycleOf(m.devices[k], s);
      var marked := m.(devices := m.devices[k := m.devices[k].(steps := c.steps)]);
      if c.end.Mismatch? {
        RecoveredSound(marked.(latest := m.current), Culprit(m, c.end.late), s);
      }
    }
  }

  lemma {:induction false} LatestIsPrevious(run: seq<Surroundings>)
    requires AllLoadable(run)
    ensures Sound(FRESH) && Loop(FRESH, run).latest == Previous(run)
  {
    NothingSaid();
    if |run| > 0 {
      hide Tick, Sound, Loadable, Proper, Polls, PollEnd;
      LatestIsPrevious(Front(run));
      TickLatest(Loop(FRESH, Front(run)), Last(run));
    }
  }

  /**
    The turn that follows the run charges device `i`: it reads `i` and meets a wrong header after a first try that had
    to be repeated, or it meets one at the first try of a request, and `i` was read before.
  */
  ghost predicate Charges(run: seq<Surroundings>, s: Surroundings, i: nat)
    requires Sound(FRESH) && AllLoadable(run) && Loadable(s.found)
  {
    var m := Loop(FRESH, run);
    && Polls(m, s).Some?
    && (|| (PollEnd(m, s) == Mismatch(true) && Polls(m, s) == Some(i))
        || (PollEnd(m, s) == Mismatch(false) && Previous(run) == Some(i)))
  }

  /** Exactly the device that is charged has its timeout raised, by 50. */
  lemma {:induction false} BlamedExactly(run: seq<Surroundings>, s: Surroundings, i: nat)
    requires AllLoadable(run) && Loadable(s.found)
    requires Sound(FRESH) && i < |Built(Loop(FRESH, run), s).devices|
    ensures var m := Loop(FRESH, run);
            && |Tick(m, s).devices| == |Built(m, s).devices|
            && Tick(m, s).devices[i].timeout == Built(m, s).devices[i].timeout + if Charges(run, s, i) then 50 else 0
  {
    var m := Loop(FRESH, run);
    LatestIsPrevious(run);
    TickTimeouts(m, s, i);
    hide Tick, Loop, Sound, Loadable, AllLoadable, Polls, PollEnd, Previous, Choose, Loaded;
  }

  /** How often the turns of the run charge device `i`. */
  ghost function Charged(run: seq<Surroundings>, i: nat): nat
    requires Sound(FRESH) && AllLoadable(run)
  {
    if |run| == 0 then 0 else Charged(Front(run), i) + if Charges(Front(run), Last(run), i) then 1 else 0
  }

  lemma BuiltOrigin(run: seq<Surroundings>)
    requires AllLoadable(run) && |run| > 0
    ensures Sound(FRESH) && AllLoadable(Front(run)) && Loadable(Last(run).found)
    ensures var m := Loop(FRESH, Front(run));
            && |Origin(Front(run))| == |m.devices| && |Origin(run)| == |Built(m, Last(run)).devices|
            && (m.devices == [] ==> Built(m, Last(run)).devices == Origin(run))
            && (m.devices != [] ==> Built(m, Last(run)) == m && Origin(run) == Origin(Front(run)))
  {
    FrontLoadable(run);
    LoopLives(Front(run));
    hide Loop, Loaded, Choose, Life, AllLoadable, Loadable;
    NothingLoaded();
  }

  lemma ChargesSomebody(run: seq<Surroundings>, s: Surroundings, i: nat)
    requires AllLoadable(run) && Loadable(s.found)
    ensures Sound(FRESH) && (Charges(run, s, i) ==> Built(Loop(FRESH, run), s).devices != [])
  {
    NothingSaid();
    hide Loop, Built, PollEnd, Loaded, Choose, Reads;
  }

  /** After any run from a fresh start the timeout of each device is that of its creation plus 50 for every charge. */
  lemma {:induction false} TimeoutsExactly(run: seq<Surroundings>)
    requires AllLoadable(run)
    ensures Sound(FRESH) && |Loop(FRESH, run).devices| == |Origin(run)|
    ensures forall i :: 0 <= i < |Origin(run)| ==> Loop(FRESH, run).devices[i].timeout == Origin(run)[i].timeout + 50 * Charged(run, i)
    ensures Origin(run) == [] ==> forall i :: Charged(run, i) == 0
  {
    NothingSaid();
    if |run| > 0 {
      var p, s := Front(run), Last(run);
      BuiltOrigin(run);
      LoopLives(run);
      hide Tick, Built, Sound, Loadable, Proper, Charges, Origin, AllLoadable, Life, Lived;
      TimeoutsExactly(p);
      forall i | 0 <= i < |Origin(run)| ensures Loop(FRESH, run).devices[i].timeout == Origin(run)[i].timeout + 50 * Charged(run, i) {
        BlamedExactly(p, s, i);
      }
      forall i: nat ensures Origin(run) == [] ==> Charged(run, i) == 0 {
        ChargesSomebody(p, s, i);
      }
    }
  }
}
