/**
  What the log of a tag means: which failures reach it, which signal it describes,
  how close together and how far apart its entries are.
*/
module Signal {
  import opened Sequences
  import opened Samples
  import opened HasherSpec

  // ----- Outages, read off the inputs alone -----

  /** The inputs end in an unbroken sequence of failing samples that begins at index `j`. */
  ghost predicate OutageFrom(s: seq<Sample>, j: int) {
    && 1 <= j < |s|
    && (forall i :: j <= i < |s| ==> s[i].val == Failed)
    && (j == 1 || s[j - 1].val != Failed)
  }

  /** The last sample is the first one with which the outage from `j` spans more than the failure delta. */
  ghost predicate ReportFrom(s: seq<Sample>, j: int) {
    && OutageFrom(s, j)
    && Last(s).ts - s[j].ts > FAILURE_DELTA
    && forall i :: j <= i < |s| - 1 ==> s[i].ts - s[j].ts <= FAILURE_DELTA
  }

  ghost predicate ReportDue(s: seq<Sample>) {
    exists j :: ReportFrom(s, j)
  }

  /** The outage from `j` does not span more than the failure delta yet. */
  ghost predicate Unconfirmed(s: seq<Sample>, j: int) {
    && OutageFrom(s, j)
    && forall i :: j <= i < |s| ==> s[i].ts - s[j].ts <= FAILURE_DELTA
  }

  ghost predicate Confirmed(s: seq<Sample>, j: int) {
    && OutageFrom(s, j)
    && exists i :: j <= i < |s| && s[i].ts - s[j].ts > FAILURE_DELTA
  }

  /** The sample that creates the cache, every good sample, and the sample that confirms an outage. */
  ghost function Clean(s: seq<Sample>): seq<Sample> {
    if |s| <= 1 then s
    else Clean(Front(s)) + (if Last(s).val != Failed || ReportDue(s) then [Last(s)] else [])
  }

  lemma OutageUnique(s: seq<Sample>, j: int, k: int)
    requires OutageFrom(s, j) && OutageFrom(s, k)
    ensures j == k
  {
    var failing := set i | 1 <= i < |s| && s[i].val == Failed;
    assert j < k ==> k - 1 in failing;
    assert k < j ==> j - 1 in failing;
  }

  /** How the phase of the cache reads off the inputs. */
  ghost predicate PhaseMeans(s: seq<Sample>, m: Memory)
    requires s != [] && WellFormed(m)
  {
    match m.phase
    case Normal => |s| == 1 || Last(s).val != Failed
    case InFail => exists j :: Unconfirmed(s, j) && Last(m.history).ts == s[j].ts
    case FailReported => exists j :: Confirmed(s, j)
  }

  lemma OutageContinues(a: seq<Sample>, b: seq<Sample>, j: int)
    requires a != [] && a <= b && forall i :: |a| <= i < |b| ==> b[i].val == Failed
    requires if |a| == 1 || Last(a).val != Failed then j == |a| < |b| else OutageFrom(a, j)
    ensures OutageFrom(b, j)
  {
    assert forall i :: 0 <= i < |a| ==> b[i] == a[i];
  }

  lemma OnlyOutage(s: seq<Sample>, j: int)
    requires OutageFrom(s, j)
    ensures ReportDue(s) <==> ReportFrom(s, j)
  {
    forall k | ReportFrom(s, k) ensures k == j { OutageUnique(s, k, j); }
  }

  lemma PhaseStep(s: seq<Sample>, x: Sample, m: Memory)
    requires s != [] && WellFormed(m) && PhaseMeans(s, m)
    ensures PhaseMeans(s + [x], Add(m, x).memory)
    ensures ReportDue(s + [x]) <==> m.phase == InFail && Add(m, x).memory.phase == FailReported
  {
    var t := s + [x];
    if x.val != Failed {
      assert Last(t) == x;
    } else if m.phase == Normal {
      OutageContinues(s, t, |s|);
      OnlyOutage(t, |s|);
      assert Unconfirmed(t, |s|);
    } else if m.phase == InFail {
      var j :| Unconfirmed(s, j) && Last(m.history).ts == s[j].ts;
      OutageContinues(s, t, j);
      OnlyOutage(t, j);
      assert t[|s|] == x;
      assert if x.ts - s[j].ts > FAILURE_DELTA then Confirmed(t, j) else Unconfirmed(t, j);
    } else {
      var j :| Confirmed(s, j);
      var i :| j <= i < |s| && s[i].ts - s[j].ts > FAILURE_DELTA;
      OutageContinues(s, t, j);
      OnlyOutage(t, j);
      assert t[i] == s[i];
      assert Confirmed(t, j);
    }
  }

  lemma {:induction false} PhaseAfterRun(s: seq<Sample>)
    requires s != []
    ensures PhaseMeans(s, Run(s).memory)
  {
    if |s| > 1 {
      var p, x := Front(s), Last(s);
      PhaseAfterRun(p);
      PhaseStep(p, x, Run(p).memory);
      assert p + [x] == s;
    }
  }

  // ----- The four things one sample can do -----

  /**
    Ignored: a failure that is not (or no longer) news. Held: a silent duplicate. Beat: an equal value that is logged.
    Turned: a new value, which also closes the slot before it.
  */
  datatype Effect = Ignored | Held | Beat | Turned

  ghost predicate HasEffect(m: Memory, x: Sample, r: Outcome, eff: Effect)
    requires WellFormed(m) && WellFormed(r.memory)
  {
    var h, h' := Settled(m), Settled(r.memory);
    match eff
    case Ignored => h' == h && r.emitted == [] && r.memory.silent == m.silent
    case Held => h' == Front(h) + [x] && Last(h).val == x.val && r.emitted == [] && r.memory.silent
    case Beat => h' == h + [x] && Last(h).val == x.val && r.emitted == [x] && !r.memory.silent
    case Turned => h' == h + [x] && Last(h).val != x.val && r.emitted == Closing(m, Last(h), x) && !r.memory.silent
  }

  function EffectOf(m: Memory, x: Sample): Effect
    requires WellFormed(m)
  {
    var h := Settled(m);
    if x.val == Failed && !(m.phase == InFail && x.ts - Last(m.history).ts > FAILURE_DELTA) then Ignored
    else if Last(h).val != x.val then Turned
    else if x.val == Failed || x.ts - m.lastEmitted > STABLE_DELTA then Beat
    else Held
  }

  /** A silent slot always holds a good value, and a reported outage is never silent. */
  ghost predicate SilentIsGood(m: Memory)
    requires WellFormed(m)
  {
    && (m.silent ==> m.phase != FailReported && Last(Settled(m)).val != Failed)
  }

  lemma SilentStep(m: Memory, x: Sample)
    requires WellFormed(m) && SilentIsGood(m)
    ensures SilentIsGood(Add(m, x).memory)
    ensures HasEffect(m, x, Add(m, x), EffectOf(m, x))
  {
    var h := Settled(m);
    assert Front(h + [x]) == h;
    if x.val == Failed {
      FailStep(m, x);
    } else if m.phase == InFail {
      NormalStep(m.(history := h, phase := Normal), x);
    } else if m.phase == Normal {
      NormalStep(m, x);
    }
  }

  lemma NormalStep(m: Memory, x: Sample)
    requires WellFormed(m) && SilentIsGood(m) && m.phase == Normal && x.val != Failed
    ensures SilentIsGood(AddNormal(m, x).memory)
    ensures HasEffect(m, x, AddNormal(m, x), EffectOf(m, x))
  {
  }

  lemma FailStep(m: Memory, x: Sample)
    requires WellFormed(m) && SilentIsGood(m) && x.val == Failed
    ensures SilentIsGood(AddFail(m, x).memory)
    ensures HasEffect(m, x, AddFail(m, x), EffectOf(m, x))
  {
    assert Front(m.history + [x]) == m.history;
  }

  /** The last step of a run, seen as one of the four effects. */
  lemma {:induction false} RunEffect(s: seq<Sample>)
    requires s != []
    ensures SilentIsGood(Run(s).memory)
    ensures |s| > 1 ==> HasEffect(Run(Front(s)).memory, Last(s), Emission(s), EffectOf(Run(Front(s)).memory, Last(s)))
  {
    if |s| > 1 {
      RunEffect(Front(s));
      SilentStep(Run(Front(s)).memory, Last(s));
    }
  }

  /** The outcome of `add` on the last input of a run. */
  function Emission(s: seq<Sample>): (r: Outcome)
    requires |s| >= 2
    ensures WellFormed(r.memory)
    ensures Run(s) == Trace(r.memory, Run(Front(s)).log + r.emitted)
  {
    Add(Run(Front(s)).memory, Last(s))
  }

  /** An input is kept exactly when it has an effect. */
  lemma KeptEffect(s: seq<Sample>, x: Sample, m: Memory)
    requires s != [] && WellFormed(m) && PhaseMeans(s, m)
    ensures ReportDue(s + [x]) <==> x.val == Failed && EffectOf(m, x) != Ignored
  {
    PhaseStep(s, x, m);
  }

  lemma ReportEffect(s: seq<Sample>)
    requires |s| > 1
    ensures ReportDue(s) <==> Last(s).val == Failed && EffectOf(Run(Front(s)).memory, Last(s)) != Ignored
  {
    var p, x := Front(s), Last(s);
    PhaseAfterRun(p);
    KeptEffect(p, x, Run(p).memory);
    assert p + [x] == s;
  }

  lemma CleanEffect(s: seq<Sample>)
    requires |s| > 1
    ensures Clean(s) == Clean(Front(s)) + (if EffectOf(Run(Front(s)).memory, Last(s)) == Ignored then [] else [Last(s)])
  {
    ReportEffect(s);
  }

  // ----- Failure reporting -----

  function Failures(s: seq<Sample>): seq<Sample> {
    if s == [] then []
    else Failures(Front(s)) + (if Last(s).val == Failed then [Last(s)] else [])
  }

  lemma FailuresExtend(s: seq<Sample>, x: Sample)
    ensures Failures(s + [x]) == Failures(s) + (if x.val == Failed then [x] else [])
  {
    assert Front(s + [x]) == s;
  }

  /** `add` emits a failure exactly when the inputs say an outage first outlasts the delta, and it is that sample. */
  lemma FailureReporting(s: seq<Sample>)
    requires |s| >= 2
    ensures Failures(Emission(s).emitted) == if ReportDue(s) then [Last(s)] else []
  {
    RunEffect(Front(s));
    RunEffect(s);
    ReportEffect(s);
    var m := Run(Front(s)).memory;
    FailuresOfEffect(m, Last(s), Emission(s), EffectOf(m, Last(s)));
  }

  lemma FailuresOfEffect(m: Memory, x: Sample, r: Outcome, eff: Effect)
    requires WellFormed(m) && WellFormed(r.memory) && HasEffect(m, x, r, eff) && SilentIsGood(m) && SilentIsGood(r.memory)
    ensures Failures(r.emitted) == if eff != Ignored && x.val == Failed then [x] else []
  {
    var last := Last(Settled(m));
    FailuresExtend([], last);
    FailuresExtend([], x);
    FailuresExtend([last], x);
    assert [] + [x] == [x] && [] + [last] == [last] && [last] + [x] == [last, x];
  }

  /** Two reports are always separated by a good sample: an outage is reported at most once. */
  lemma ReportedOnce(a: seq<Sample>, b: seq<Sample>)
    requires a < b && ReportDue(a) && ReportDue(b)
    ensures exists i :: |a| <= i < |b| && b[i].val != Failed
  {
    var j :| ReportFrom(a, j);
    assert Last(a) == b[|a| - 1] && a[j] == b[j];
    if forall i :: |a| <= i < |b| ==> b[i].val == Failed {
      OutageContinues(a, b, j);
      OnlyOutage(b, j);
    }
  }

  /** Apart from a slot awaiting confirmation, cache and log hold exactly the same failures. */
  lemma {:induction false} SameFailures(s: seq<Sample>)
    requires s != []
    ensures Failures(Settled(Run(s).memory)) == Failures(Run(s).log)
  {
    if |s| > 1 {
      SameFailures(Front(s));
      RunEffect(Front(s));
      RunEffect(s);
      var m := Run(Front(s)).memory;
      FailuresStep(m, Last(s), Emission(s), EffectOf(m, Last(s)), Run(Front(s)).log);
    }
  }

  lemma FailuresStep(m: Memory, x: Sample, r: Outcome, eff: Effect, log: seq<Sample>)
    requires WellFormed(m) && WellFormed(r.memory) && HasEffect(m, x, r, eff) && SilentIsGood(m) && SilentIsGood(r.memory)
    requires Failures(Settled(m)) == Failures(log)
    ensures Failures(Settled(r.memory)) == Failures(log + r.emitted)
  {
    hide Failures;
    var h := Settled(m);
    assert h == Front(h) + [Last(h)];
    FailuresExtend(Front(h), Last(h));
    FailuresExtend(h, x);
    FailuresExtend(log, x);
    match eff
    case Ignored =>
      assert log + [] == log;
    case Held =>
      assert log + [] == log;
      FailuresExtend(Front(h), x);
    case Beat =>
    case Turned =>
      FailuresExtend(log, Last(h));
      FailuresExtend(log + [Last(h)], x);
      assert log + [Last(h), x] == log + [Last(h)] + [x];
  }

  /** A burst of failures that was never reported is invisible: memory and log are as if it had not happened. */
  lemma {:induction false} NoiseErased(s: seq<Sample>, burst: seq<Sample>, x: Sample)
    requires s != [] && Run(s).memory.phase == Normal
    requires burst != [] && forall i :: 0 <= i < |burst| ==> burst[i].val == Failed && burst[i].ts - burst[0].ts <= FAILURE_DELTA
    requires x.val != Failed
    ensures Run(s + burst + [x]) == Run(s + [x])
  {
    DuringNoise(s, burst);
    var m := Run(s).memory;
    assert Front(s + burst + [x]) == s + burst && Front(s + [x]) == s;
    assert Front(m.history + [burst[0]]) == m.history;
  }

  lemma {:induction false} DuringNoise(s: seq<Sample>, burst: seq<Sample>)
    requires s != [] && Run(s).memory.phase == Normal
    requires burst != [] && forall i :: 0 <= i < |burst| ==> burst[i].val == Failed && burst[i].ts - burst[0].ts <= FAILURE_DELTA
    ensures Run(s + burst) == Trace(Run(s).memory.(history := Run(s).memory.history + [burst[0]], phase := InFail), Run(s).log)
  {
    assert Front(s + burst) == s + Front(burst);
    if |burst| == 1 {
      assert s + Front(burst) == s;
    } else {
      DuringNoise(s, Front(burst));
    }
  }

  // ----- Cache, log and inputs describe the same signal -----

  /** Runs of the log, of the settled history and of the cleaned inputs agree wherever they are closed. */
  ghost predicate SameSignal(c: seq<Sample>, h: seq<Sample>, log: seq<Sample>, silent: bool) {
    && c != [] && h != [] && log != []
    && Last(h) == Last(c)
    && RunEnds(h) == RunEnds(c)
    && RunStarts(log) == RunStarts(c)
    && Front(RunEnds(log)) == Front(RunEnds(c))
    && Last(log).val == Last(c).val
    && (!silent ==> Last(log) == Last(c))
  }

  lemma SignalHeld(c: seq<Sample>, h: seq<Sample>, log: seq<Sample>, silent: bool, x: Sample)
    requires SameSignal(c, h, log, silent) && Last(c).val == x.val
    ensures SameSignal(c + [x], Front(h) + [x], log, true)
  {
    RunsExtend(c, x);
    RunsRestamp(h, x);
  }

  lemma SignalBeat(c: seq<Sample>, h: seq<Sample>, log: seq<Sample>, silent: bool, x: Sample)
    requires SameSignal(c, h, log, silent) && Last(c).val == x.val
    ensures SameSignal(c + [x], h + [x], log + [x], false)
  {
    RunsExtend(c, x);
    RunsExtend(h, x);
    RunsExtend(log, x);
  }

  lemma SignalTurned(c: seq<Sample>, h: seq<Sample>, log: seq<Sample>, x: Sample)
    requires SameSignal(c, h, log, false) && Last(c).val != x.val
    ensures SameSignal(c + [x], h + [x], log + [x], false)
  {
    RunsExtend(c, x);
    RunsExtend(h, x);
    RunsExtend(log, x);
  }

  /** Emitting the silent slot brings the log up to date. */
  lemma SignalCaughtUp(c: seq<Sample>, h: seq<Sample>, log: seq<Sample>)
    requires SameSignal(c, h, log, true)
    ensures SameSignal(c, h, log + [Last(h)], false)
  {
    RunsExtend(log, Last(h));
    assert RunEnds(c) == Front(RunEnds(c)) + [Last(c)];
  }

  lemma SignalStep(m: Memory, x: Sample, r: Outcome, eff: Effect, c: seq<Sample>, log: seq<Sample>)
    requires WellFormed(m) && WellFormed(r.memory) && HasEffect(m, x, r, eff)
    requires SameSignal(c, Settled(m), log, m.silent)
    ensures SameSignal(c + (if eff == Ignored then [] else [x]), Settled(r.memory), log + r.emitted, r.memory.silent)
  {
    hide RunEnds, RunStarts;
    var h := Settled(m);
    match eff
    case Ignored =>
      assert c + [] == c && log + [] == log;
    case Held =>
      assert log + [] == log;
      SignalHeld(c, h, log, m.silent, x);
    case Beat =>
      SignalBeat(c, h, log, m.silent, x);
    case Turned =>
      if m.silent {
        SignalCaughtUp(c, h, log);
        SignalTurned(c, h, log + [Last(h)], x);
        assert log + [Last(h), x] == log + [Last(h)] + [x];
      } else {
        SignalTurned(c, h, log, x);
      }
  }

  lemma {:induction false} SignalPreserved(s: seq<Sample>)
    requires s != []
    ensures SameSignal(Clean(s), Settled(Run(s).memory), Run(s).log, Run(s).memory.silent)
  {
    if |s| > 1 {
      SignalPreserved(Front(s));
      RunEffect(Front(s));
      RunEffect(s);
      CleanEffect(s);
      var m := Run(Front(s)).memory;
      SignalStep(m, Last(s), Emission(s), EffectOf(m, Last(s)), Clean(Front(s)), Run(Front(s)).log);
    }
  }

  // ----- Where the cache keeps the start of a run -----

  /** The last sample is the first one of its run. */
  predicate Lone(s: seq<Sample>) {
    s != [] && (|s| == 1 || s[|s| - 2].val != Last(s).val)
  }

  /** In every run of good values the second sample comes more than the stable delta after the first. */
  predicate SecondsLate(c: seq<Sample>) {
    |c| <= 1
    || (SecondsLate(Front(c))
        && (Lone(Front(c)) && c[|c| - 2].val == Last(c).val != Failed ==> Last(c).ts - c[|c| - 2].ts > STABLE_DELTA))
  }

  lemma SecondsLateLast(c: seq<Sample>, x: Sample)
    requires c != []
    ensures SecondsLate(c + [x])
         == (SecondsLate(c) && (Lone(c) && Last(c).val == x.val != Failed ==> x.ts - Last(c).ts > STABLE_DELTA))
    ensures Lone(c + [x]) == (Last(c).val != x.val)
  {
    assert Front(c + [x]) == c;
  }

  /**
    The starts of two lists with the same last sample `tip`, the second one restamped at times: where both are alone
    in their last run, or only the second one is, and that they are equal exactly if every second sample was late.
  */
  ghost predicate Tied(a: seq<Sample>, b: seq<Sample>, lone: bool, loneToo: bool, late: bool, tip: Sample, lastEmitted: int) {
    && a != [] && |a| == |b| && Last(a).ts <= tip.ts
    && (lone ==> loneToo && (tip.val != Failed ==> lastEmitted == tip.ts))
    && (loneToo ==> Last(b) == tip)
    && (loneToo && !lone ==> Last(a).ts < tip.ts)
    && (b == a <==> late)
  }

  /** How the starts in the cleaned inputs and in the settled history are related in every reachable state. */
  ghost predicate StartsRelated(c: seq<Sample>, h: seq<Sample>, lastEmitted: int) {
    && c != [] && h != [] && Last(h) == Last(c)
    && Tied(RunStarts(c), RunStarts(h), Lone(c), Lone(h), SecondsLate(c), Last(c), lastEmitted)
  }

  lemma TiedHeld(a: seq<Sample>, b: seq<Sample>, lone: bool, loneToo: bool, late: bool, tip: Sample, lastEmitted: int, x: Sample)
    requires Tied(a, b, lone, loneToo, late, tip, lastEmitted) && tip.ts < x.ts
    requires tip.val == x.val != Failed && x.ts - lastEmitted <= STABLE_DELTA
    ensures b != []
    ensures Tied(a, if loneToo then Front(b) + [x] else b, false, loneToo, late && (lone ==> x.ts - tip.ts > STABLE_DELTA), x, lastEmitted)
  {
    var moved := Front(b) + [x];
    assert Last(moved) == x;
  }

  lemma TiedTurned(a: seq<Sample>, b: seq<Sample>, lone: bool, loneToo: bool, late: bool, tip: Sample, lastEmitted: int, lastEmitted': int, x: Sample)
    requires Tied(a, b, lone, loneToo, late, tip, lastEmitted) && (x.val != Failed ==> lastEmitted' == x.ts)
    ensures Tied(a + [x], b + [x], true, true, late, x, lastEmitted')
  {
    assert Front(a + [x]) == a && Front(b + [x]) == b;
  }

  lemma NewLast(h: seq<Sample>, c: seq<Sample>, x: Sample)
    requires h != []
    ensures Last(Front(h) + [x]) == Last(c + [x]) == Last(h + [x]) == x
  {
  }

  /** A restamped entry that is alone in its run takes the start of the run with it. */
  lemma StartsRestamp(h: seq<Sample>, x: Sample)
    requires h != [] && Last(h).val == x.val
    ensures Lone(Front(h) + [x]) == Lone(h)
    ensures RunStarts(Front(h) + [x]) == if Lone(h) then Front(RunStarts(h)) + [x] else RunStarts(h)
    ensures Lone(h) ==> RunStarts(h) != [] && Last(RunStarts(h)) == Last(h)
  {
    var p := Front(h);
    FrontLast(h);
    if p != [] {
      RunsExtend(p, Last(h));
      RunsExtend(p, x);
      hide RunEnds, RunStarts;
    } else {
      assert p + [x] == [x] && Front([x]) == [] && RunStarts([x]) == [] + [x] && RunStarts(h) == [] + [Last(h)];
    }
  }

  lemma StartsHeld(c: seq<Sample>, h: seq<Sample>, lastEmitted: int, x: Sample)
    requires StartsRelated(c, h, lastEmitted) && Last(c).ts < x.ts
    requires Last(c).val == x.val != Failed && x.ts - lastEmitted <= STABLE_DELTA
    ensures StartsRelated(c + [x], Front(h) + [x], lastEmitted)
  {
    hide Tied, Lone, SecondsLate, RunStarts, RunEnds, Front, Last;
    RunsExtend(c, x);
    SecondsLateLast(c, x);
    StartsRestamp(h, x);
    NewLast(h, c, x);
    TiedHeld(RunStarts(c), RunStarts(h), Lone(c), Lone(h), SecondsLate(c), Last(c), lastEmitted, x);
  }

  lemma StartsBeat(c: seq<Sample>, h: seq<Sample>, lastEmitted: int, lastEmitted': int, x: Sample)
    requires StartsRelated(c, h, lastEmitted) && Last(c).ts < x.ts
    requires Last(c).val == x.val && (x.val != Failed ==> x.ts - lastEmitted > STABLE_DELTA)
    ensures StartsRelated(c + [x], h + [x], lastEmitted')
  {
    hide Lone, SecondsLate, RunStarts, RunEnds;
    RunsExtend(c, x);
    RunsExtend(h, x);
    SecondsLateLast(c, x);
    SecondsLateLast(h, x);
    NewLast(h, c, x);
  }

  lemma StartsTurned(c: seq<Sample>, h: seq<Sample>, lastEmitted: int, lastEmitted': int, x: Sample)
    requires StartsRelated(c, h, lastEmitted) && Last(c).val != x.val && (x.val != Failed ==> lastEmitted' == x.ts)
    ensures StartsRelated(c + [x], h + [x], lastEmitted')
  {
    hide Tied, Lone, SecondsLate, RunStarts, RunEnds, Front, Last;
    RunsExtend(c, x);
    RunsExtend(h, x);
    SecondsLateLast(c, x);
    SecondsLateLast(h, x);
    NewLast(h, c, x);
    TiedTurned(RunStarts(c), RunStarts(h), Lone(c), Lone(h), SecondsLate(c), Last(c), lastEmitted, lastEmitted', x);
  }

  /** When the memory remembers the time of its last emission. */
  lemma EmissionTime(m: Memory, x: Sample)
    requires WellFormed(m)
    ensures EffectOf(m, x) == Turned && x.val != Failed ==> Add(m, x).memory.lastEmitted == x.ts
    ensures EffectOf(m, x) == Ignored || EffectOf(m, x) == Held ==> Add(m, x).memory.lastEmitted == m.lastEmitted
    ensures EffectOf(m, x) == Held ==> x.val != Failed && x.ts - m.lastEmitted <= STABLE_DELTA
    ensures EffectOf(m, x) == Beat && x.val != Failed ==> x.ts - m.lastEmitted > STABLE_DELTA
  {
  }

  lemma StartsStep(m: Memory, x: Sample, r: Outcome, eff: Effect, c: seq<Sample>)
    requires WellFormed(m) && WellFormed(r.memory) && HasEffect(m, x, r, eff) && r == Add(m, x) && eff == EffectOf(m, x)
    requires StartsRelated(c, Settled(m), m.lastEmitted) && Last(c).ts < x.ts
    ensures StartsRelated(c + (if eff == Ignored then [] else [x]), Settled(r.memory), r.memory.lastEmitted)
  {
    EmissionTime(m, x);
    var h := Settled(m);
    assert Last(h) == Last(c);
    hide Add, EffectOf, StartsRelated;
    match eff
    case Ignored => assert c + [] == c;
    case Held => StartsHeld(c, h, m.lastEmitted, x);
    case Beat => StartsBeat(c, h, m.lastEmitted, r.memory.lastEmitted, x);
    case Turned => StartsTurned(c, h, m.lastEmitted, r.memory.lastEmitted, x);
  }

  lemma {:induction false} CleanNotLater(s: seq<Sample>)
    requires s != [] && Spaced(s, 1)
    ensures Clean(s) != [] && Last(Clean(s)).ts <= Last(s).ts
  {
    if |s| > 1 {
      CleanNotLater(Front(s));
      assert s[|s| - 2].ts + 1 <= s[|s| - 1].ts;
    }
  }

  lemma {:induction false} StartsAfterRun(s: seq<Sample>)
    requires s != [] && Spaced(s, 1)
    ensures StartsRelated(Clean(s), Settled(Run(s).memory), Run(s).memory.lastEmitted)
  {
    if |s| == 1 {
      OneStart(s[0]);
      assert s == [s[0]] && Settled(Run(s).memory) == s;
    } else {
      var p, x := Front(s), Last(s);
      var m := Run(p).memory;
      assert Spaced(p, 1) && Last(p).ts + 1 <= x.ts;
      hide StartsRelated, Spaced;
      StartsAfterRun(p);
      CleanNotLater(p);
      RunEffect(p);
      RunEffect(s);
      CleanEffect(s);
      hide Clean, Run, Settled;
      StartsStep(m, x, Emission(s), EffectOf(m, x), Clean(p));
    }
  }

  lemma OneStart(x: Sample)
    ensures StartsRelated([x], [x], x.ts)
  {
    assert Front([x]) == [] && RunStarts([x]) == [] + [x];
  }

  /**
    The cache keeps the starts of all runs if and only if in every run of good values the second sample comes more
    than the stable delta after the first: otherwise it silently overwrites it, however the run goes on.
  */
  lemma {:induction false} StartsKeptExactly(s: seq<Sample>)
    requires s != [] && Spaced(s, 1)
    ensures RunStarts(Settled(Run(s).memory)) == RunStarts(Clean(s)) <==> SecondsLate(Clean(s))
  {
    hide Run, Clean, Settled, RunStarts, SecondsLate;
    StartsAfterRun(s);
  }

  /** An input: a silent duplicate overwrites the time of the first sample of its run. */
  lemma StartsMove(a: Sample, b: Sample)
    requires a.val == b.val != Failed && b.ts - a.ts <= STABLE_DELTA
    ensures RunStarts(Clean([a, b])) == [a] && RunStarts(Run([a, b]).log) == [a]
    ensures RunStarts(Settled(Run([a, b]).memory)) == [b]
  {
    assert Front([a, b]) == [a] && Front([a]) == [] && Front([a]) + [b] == [b] && Front([b]) == [];
    assert Run([a]) == Trace(Start(a), [a]) && Clean([a]) == [a];
    assert RunStarts([]) == [] && [] + [a] == [a] && [] + [b] == [b] && [a] + [] == [a];
    assert Run([a, b]) == Trace(Memory([b], Normal, true, a.ts), [a]);
    assert Clean([a, b]) == [a, b];
  }
}
