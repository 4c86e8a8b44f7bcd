/** When the entries of a log happen, and what the log still says about every single sample. */
module SignalTiming {
  import opened Sequences
  import opened Samples
  import opened HasherSpec
  import opened Signal

  // ----- Order -----

  /** History and log keep the spacing of the inputs, whatever it is. */
  ghost predicate InOrder(m: Memory, log: seq<Sample>, now: int, gap: nat)
    requires WellFormed(m) && log != []
  {
    && Spaced(m.history, gap) && Spaced(log, gap)
    && Last(m.history).ts <= now
    && Last(log).ts + (if m.silent then gap else 0) <= Last(Settled(m)).ts
  }

  lemma SpacedExtend(s: seq<Sample>, x: Sample, gap: nat)
    requires Spaced(s, gap) && (s != [] ==> Last(s).ts + gap <= x.ts)
    ensures Spaced(s + [x], gap)
    ensures s != [] ==> Spaced(Front(s), gap) && Spaced(Front(s) + [x], gap)
    ensures |s| >= 2 ==> s[|s| - 2].ts + gap <= Last(s).ts
  {
  }

  lemma HistoryStep(m: Memory, x: Sample, gap: nat)
    requires WellFormed(m) && Spaced(m.history, gap) && Last(m.history).ts + gap <= x.ts
    ensures Spaced(Add(m, x).memory.history, gap) && Last(Add(m, x).memory.history).ts <= x.ts
  {
    if x.val != Failed && m.phase == InFail {
      SpacedExtend(m.history, x, gap);
      NormalHistory(m.(history := Front(m.history), phase := Normal), x, gap);
    } else if x.val != Failed && m.phase == Normal {
      NormalHistory(m, x, gap);
    } else {
      SpacedExtend(m.history, x, gap);
    }
  }

  lemma NormalHistory(m: Memory, x: Sample, gap: nat)
    requires m.history != [] && Spaced(m.history, gap) && Last(m.history).ts + gap <= x.ts
    ensures Spaced(AddNormal(m, x).memory.history, gap) && Last(AddNormal(m, x).memory.history).ts <= x.ts
  {
    SpacedExtend(m.history, x, gap);
  }

  lemma LogStep(m: Memory, x: Sample, r: Outcome, eff: Effect, log: seq<Sample>, gap: nat)
    requires WellFormed(m) && WellFormed(r.memory) && HasEffect(m, x, r, eff)
    requires log != [] && Spaced(log, gap) && Last(Settled(m)).ts + gap <= x.ts
    requires Last(log).ts + (if m.silent then gap else 0) <= Last(Settled(m)).ts
    ensures Spaced(log + r.emitted, gap)
    ensures Last(log + r.emitted).ts + (if r.memory.silent then gap else 0) <= Last(Settled(r.memory)).ts
  {
    var last := Last(Settled(m));
    if r.emitted == [] {
      assert log + r.emitted == log;
    } else if eff == Turned && m.silent {
      SpacedExtend(log, last, gap);
      SpacedExtend(log + [last], x, gap);
      assert log + [last, x] == log + [last] + [x];
    } else {
      SpacedExtend(log, x, gap);
    }
  }

  lemma OrderStep(m: Memory, x: Sample, log: seq<Sample>, now: int, gap: nat)
    requires WellFormed(m) && SilentIsGood(m) && log != [] && InOrder(m, log, now, gap) && now + gap <= x.ts
    ensures InOrder(Add(m, x).memory, log + Add(m, x).emitted, x.ts, gap)
  {
    SilentStep(m, x);
    HistoryStep(m, x, gap);
    assert Last(Settled(m)).ts <= Last(m.history).ts by {
      if m.phase == InFail {
        SpacedPair(m.history, gap, |m.history| - 2, |m.history| - 1);
      }
    }
    LogStep(m, x, Add(m, x), EffectOf(m, x), log, gap);
  }

  lemma {:induction false} LogSpacing(s: seq<Sample>, gap: nat)
    requires s != [] && Spaced(s, gap)
    ensures Run(s).log != [] && InOrder(Run(s).memory, Run(s).log, Last(s).ts, gap)
  {
    if |s| > 1 {
      LogSpacing(Front(s), gap);
      RunEffect(Front(s));
      OrderStep(Run(Front(s)).memory, Last(s), Run(Front(s)).log, Last(Front(s)).ts, gap);
    }
  }

  /** A log of strictly later inputs never repeats a time stamp. */
  lemma LogStrictlyIncreases(s: seq<Sample>)
    requires s != [] && Spaced(s, 1)
    ensures forall i, j :: 0 <= i < j < |Run(s).log| ==> Run(s).log[i].ts < Run(s).log[j].ts
  {
    LogSpacing(s, 1);
    var log := Run(s).log;
    forall i, j | 0 <= i < j < |log| ensures log[i].ts < log[j].ts {
      SpacedPair(log, 1, i, j);
    }
  }

  /** Cache and log invent nothing: every entry is one of the inputs. */
  lemma {:induction false} EntriesAreInputs(s: seq<Sample>)
    requires s != []
    ensures forall e :: e in Run(s).memory.history || e in Run(s).log ==> e in s
  {
    if |s| > 1 {
      EntriesAreInputs(Front(s));
      AddedEntries(Run(Front(s)).memory, Last(s));
      assert s == Front(s) + [Last(s)];
    }
  }

  lemma AddedEntries(m: Memory, x: Sample)
    requires WellFormed(m)
    ensures forall e :: e in Add(m, x).memory.history || e in Add(m, x).emitted ==> e in m.history || e == x
  {
    assert |m.history| >= 2 ==> m.history[|m.history| - 2] in m.history;
    assert forall e :: e in Front(m.history) ==> e in m.history;
  }

  // ----- No sample is lost -----

  /**
    Entry `i` of the log accounts for `x`: it is `x`'s own time, or `x` lies between it and the next entry of
    the same value, or it is the newest entry and `x` lies between it and the newest slot of the cache.
  */
  ghost predicate Covers(log: seq<Sample>, i: int, x: Sample, tip: Sample) {
    && 0 <= i < |log| && log[i].val == x.val && log[i].ts <= x.ts
    && (|| log[i].ts == x.ts
        || (i + 1 < |log| && log[i + 1].val == x.val && x.ts <= log[i + 1].ts)
        || (i + 1 == |log| && tip.val == x.val && x.ts <= tip.ts))
  }

  ghost predicate Covered(log: seq<Sample>, x: Sample, tip: Sample) {
    exists i :: Covers(log, i, x, tip)
  }

  lemma CoverGrows(log: seq<Sample>, x: Sample, tip: Sample, e: Sample)
    requires Covered(log, x, tip) && tip.val == e.val && tip.ts <= e.ts
    ensures Covered(log, x, e) && Covered(log + [e], x, e)
  {
    var i :| Covers(log, i, x, tip);
    assert Covers(log, i, x, e) && Covers(log + [e], i, x, e);
  }

  lemma CoverTurns(log: seq<Sample>, x: Sample, tip: Sample, e: Sample)
    requires log != [] && Covered(log, x, tip) && Last(log) == tip
    ensures Covered(log + [e], x, e)
  {
    var i :| Covers(log, i, x, tip);
    assert Covers(log + [e], i, x, e);
  }

  lemma CoverStep(m: Memory, x: Sample, r: Outcome, eff: Effect, log: seq<Sample>, y: Sample)
    requires WellFormed(m) && WellFormed(r.memory) && HasEffect(m, x, r, eff) && log != []
    requires Last(log).ts <= Last(Settled(m)).ts <= x.ts && Last(log).val == Last(Settled(m)).val
    requires !m.silent ==> Last(log) == Last(Settled(m))
    requires Covered(log, y, Last(Settled(m))) || (eff != Ignored && y == x)
    ensures Covered(log + r.emitted, y, Last(Settled(r.memory)))
  {
    var tip := Last(Settled(m));
    assert log + [] == log;
    if eff != Ignored && y == x {
      assert Covers(log + r.emitted, |log + r.emitted| - 1, x, x);
    } else if eff == Held || eff == Beat {
      CoverGrows(log, y, tip, x);
    } else if eff == Turned && m.silent {
      CoverGrows(log, y, tip, tip);
      CoverTurns(log + [tip], y, tip, x);
      assert log + [tip, x] == log + [tip] + [x];
    } else if eff == Turned {
      CoverTurns(log, y, tip, x);
    }
  }

  lemma {:induction false} CleanCovered(s: seq<Sample>, y: Sample)
    requires s != [] && Spaced(s, 0) && y in Clean(s)
    ensures Covered(Run(s).log, y, Last(Settled(Run(s).memory)))
  {
    if |s| == 1 {
      assert Covers(Run(s).log, 0, y, y);
    } else {
      var p, x := Front(s), Last(s);
      var m := Run(p).memory;
      RunEffect(s);
      CleanEffect(s);
      SignalPreserved(p);
      LogSpacing(p, 0);
      if y in Clean(p) {
        CleanCovered(p, y);
      }
      SettledNotLater(m);
      CoverStep(m, x, Emission(s), EffectOf(m, x), Run(p).log, y);
    }
  }

  lemma SettledNotLater(m: Memory)
    requires WellFormed(m) && Spaced(m.history, 0)
    ensures Last(Settled(m)).ts <= Last(m.history).ts
  {
    if m.phase == InFail {
      SpacedPair(m.history, 0, |m.history| - 2, |m.history| - 1);
    }
  }

  lemma {:induction false} GoodIsKept(s: seq<Sample>, y: Sample)
    requires y in s && y.val != Failed
    ensures y in Clean(s)
  {
    if |s| > 1 {
      assert s == Front(s) + [Last(s)];
      if y in Front(s) {
        GoodIsKept(Front(s), y);
      }
    }
  }

  /** Every good sample, kept or thrown away as a duplicate, is accounted for by the log and the newest slot. */
  lemma NoGoodSampleLost(s: seq<Sample>, y: Sample)
    requires s != [] && Spaced(s, 0) && y in s && y.val != Failed
    ensures Covered(Run(s).log, y, Last(Settled(Run(s).memory)))
  {
    GoodIsKept(s, y);
    CleanCovered(s, y);
  }

  /** The value the log holds at time `t`: that of its latest entry not after `t`. */
  function ValueAt(log: seq<Sample>, t: int): Value {
    if log == [] then Failed
    else if Last(log).ts <= t then Last(log).val
    else ValueAt(Front(log), t)
  }

  lemma {:induction false} ValueAtEntry(log: seq<Sample>, t: int, i: nat)
    requires Spaced(log, 1) && i < |log| && log[i].ts <= t && (i + 1 < |log| ==> t < log[i + 1].ts)
    ensures ValueAt(log, t) == log[i].val
  {
    if i + 1 < |log| {
      if i + 2 < |log| {
        SpacedPair(log, 1, i + 1, |log| - 1);
      }
      ValueAtEntry(Front(log), t, i);
    }
  }

  /** Reading the log as a step function gives back every good sample of a run with strictly later inputs. */
  lemma LogReproducesSamples(s: seq<Sample>, y: Sample)
    requires s != [] && Spaced(s, 1) && y in s && y.val != Failed
    ensures ValueAt(Run(s).log, y.ts) == y.val
  {
    NoGoodSampleLost(s, y);
    LogSpacing(s, 1);
    hide Run, Settled, ValueAt, Covered, Spaced;
    CoveredIsReadBack(Run(s).log, y, Last(Settled(Run(s).memory)));
  }

  lemma CoveredIsReadBack(log: seq<Sample>, y: Sample, tip: Sample)
    requires Spaced(log, 1) && Covered(log, y, tip)
    ensures ValueAt(log, y.ts) == y.val
  {
    hide ValueAt;
    var i :| Covers(log, i, y, tip);
    if i + 1 < |log| && log[i + 1].ts <= y.ts {
      ValueAtEntry(log, y.ts, i + 1);
    } else {
      ValueAtEntry(log, y.ts, i);
    }
  }

  // ----- How far apart -----

  /** Neighbouring inputs are at most `g` seconds apart. */
  ghost predicate Within(s: seq<Sample>, g: int) {
    forall i :: 0 < i < |s| ==> s[i].ts - s[i - 1].ts <= g
  }

  /** Neighbouring entries are at most `bound` apart unless the earlier one is a reported failure. */
  ghost predicate GapBound(log: seq<Sample>, bound: int) {
    forall i :: 0 < i < |log| && (i == 1 || log[i - 1].val != Failed) ==> log[i].ts - log[i - 1].ts <= bound
  }

  /** How late it can be, given the newest entry of the log. */
  ghost predicate Pace(m: Memory, newest: Sample, now: int, g: int)
    requires WellFormed(m)
  {
    var tip := Last(Settled(m)).ts;
    && tip <= now
    && match m.phase
       case Normal => newest.ts == m.lastEmitted && tip == now && now - m.lastEmitted <= STABLE_DELTA
       case InFail => newest.ts == m.lastEmitted && tip - m.lastEmitted <= STABLE_DELTA
                      && Last(m.history).ts - tip <= g && now - Last(m.history).ts <= FAILURE_DELTA
       case FailReported => newest.val == Failed
  }

  ghost predicate Cadence(m: Memory, log: seq<Sample>, now: int, g: int)
    requires WellFormed(m) && log != []
  {
    && GapBound(log, STABLE_DELTA + FAILURE_DELTA + 2 * g)
    && Pace(m, Last(log), now, g)
    && (m.phase == FailReported ==> |log| >= 2)
  }

  lemma GapExtend(log: seq<Sample>, x: Sample, bound: int)
    requires log != [] && GapBound(log, bound)
    requires (|log| >= 2 && Last(log).val == Failed) || x.ts - Last(log).ts <= bound
    ensures GapBound(log + [x], bound)
  {
  }

  lemma PaceStep(m: Memory, x: Sample, newest: Sample, now: int, g: int)
    requires WellFormed(m) && Pace(m, newest, now, g) && now <= x.ts <= now + g
    ensures Pace(Add(m, x).memory, if Add(m, x).emitted == [] then newest else x, x.ts, g)
  {
    if x.val == Failed {
      hide Pace, AddFail;
      PaceFailed(m, x, newest, now, g);
    } else if m.phase == FailReported {
      assert Last(m.history + [x]) == x;
    } else {
      PaceGood(m.(history := Settled(m), phase := Normal), x, newest, g);
      hide AddNormal, Pace;
    }
  }

  lemma PaceFailed(m: Memory, x: Sample, newest: Sample, now: int, g: int)
    requires WellFormed(m) && Pace(m, newest, now, g) && now <= x.ts <= now + g && x.val == Failed
    ensures Pace(AddFail(m, x).memory, if AddFail(m, x).emitted == [] then newest else x, x.ts, g)
  {
    if m.phase == Normal {
      assert Front(m.history + [x]) == m.history;
    } else if m.phase == InFail {
      assert Last(Front(m.history) + [x]) == x;
    }
  }

  /** After a good sample the newest entry is as recent as the memory of it, whatever came before. */
  lemma PaceGood(m: Memory, x: Sample, newest: Sample, g: int)
    requires m.history != [] && newest.ts == m.lastEmitted
    ensures WellFormed(AddNormal(m, x).memory)
    ensures m.phase == Normal ==> Pace(AddNormal(m, x).memory, if AddNormal(m, x).emitted == [] then newest else x, x.ts, g)
  {
    assert Last(m.history + [x]) == x && Last(Front(m.history) + [x]) == x;
  }

  lemma GapStep(m: Memory, x: Sample, r: Outcome, eff: Effect, log: seq<Sample>, now: int, g: int)
    requires WellFormed(m) && WellFormed(r.memory) && HasEffect(m, x, r, eff)
    requires log != [] && Cadence(m, log, now, g) && now <= x.ts <= now + g
    ensures GapBound(log + r.emitted, STABLE_DELTA + FAILURE_DELTA + 2 * g)
    ensures r.emitted != [] ==> |log + r.emitted| >= 2 && Last(log + r.emitted) == x
  {
    hide GapBound;
    var last, bound := Last(Settled(m)), STABLE_DELTA + FAILURE_DELTA + 2 * g;
    if r.emitted == [] {
      assert log + r.emitted == log;
    } else if eff == Turned && m.silent {
      GapExtend(log, last, bound);
      GapExtend(log + [last], x, bound);
      assert log + [last, x] == log + [last] + [x];
    } else {
      GapExtend(log, x, bound);
    }
  }

  lemma CadenceStep(m: Memory, x: Sample, log: seq<Sample>, now: int, g: int)
    requires WellFormed(m) && SilentIsGood(m) && log != [] && Cadence(m, log, now, g)
    requires now <= x.ts <= now + g
    ensures Cadence(Add(m, x).memory, log + Add(m, x).emitted, x.ts, g)
  {
    SilentStep(m, x);
    var r := Add(m, x);
    assert r.memory.phase == FailReported && m.phase != FailReported ==> r.emitted != [];
    hide Add, GapBound, Pace, HasEffect, EffectOf;
    PaceStep(m, x, Last(log), now, g);
    GapStep(m, x, r, EffectOf(m, x), log, now, g);
    if r.emitted == [] {
      assert log + r.emitted == log;
    }
  }

  lemma {:induction false} CadenceHolds(s: seq<Sample>, g: int)
    requires s != [] && Spaced(s, 0) && Within(s, g)
    ensures Run(s).log != [] && Cadence(Run(s).memory, Run(s).log, Last(s).ts, g)
  {
    if |s| > 1 {
      var p := Front(s);
      CadenceHolds(p, g);
      RunEffect(p);
      CadenceStep(Run(p).memory, Last(s), Run(p).log, Last(p).ts, g);
    }
  }

  /**
    Stable values, changes and noise in any mixture: entries are at most 300 + 120 + 2g seconds apart, and outside
    a reported outage the newest entry is at most 300 + 120 + g seconds old.
  */
  lemma LogGapBound(s: seq<Sample>, g: nat)
    requires s != [] && Spaced(s, 0) && Within(s, g)
    ensures var log := Run(s).log;
            && (forall i :: 0 < i < |log| && (i == 1 || log[i - 1].val != Failed) ==> log[i].ts - log[i - 1].ts <= 420 + 2 * g)
            && (Run(s).memory.phase != FailReported ==> log != [] && Last(s).ts - Last(log).ts <= 420 + g)
  {
    CadenceHolds(s, g);
  }

  lemma RunAdd(s: seq<Sample>, x: Sample)
    requires s != []
    ensures Run(s + [x]) == Trace(Add(Run(s).memory, x).memory, Run(s).log + Add(Run(s).memory, x).emitted)
  {
    assert Front(s + [x]) == s;
  }

  /** Samples of one value after `from` and up to `end`, at most `g` apart, the first one included. */
  function Paced(v: Value, from: int, end: int, g: int): (s: seq<Sample>)
    requires g >= 1 && from < end
    ensures s != [] && Last(s) == Sample(v, end) && from < s[0].ts <= from + g
    ensures forall i :: 0 <= i < |s| ==> s[i].val == v && from < s[i].ts <= end
    decreases end - from
  {
    if end - from <= g then [Sample(v, end)] else Paced(v, from, end - g, g) + [Sample(v, end)]
  }

  lemma {:induction false} PacedSpacing(v: Value, from: int, end: int, g: int)
    requires g >= 1 && from < end
    ensures Spaced(Paced(v, from, end, g), 1) && Within(Paced(v, from, end, g), g)
    decreases end - from
  {
    if end - from > g {
      PacedSpacing(v, from, end - g, g);
    }
  }

  lemma SpacingJoin(a: seq<Sample>, b: seq<Sample>, g: int)
    requires a != [] && b != [] && Spaced(a, 1) && Spaced(b, 1) && Within(a, g) && Within(b, g)
    requires Last(a).ts < b[0].ts <= Last(a).ts + g
    ensures Spaced(a + b, 1) && Within(a + b, g)
  {
  }

  /** Equal good values within the stable delta are held silently. */
  lemma {:induction false} HeldSilently(v: Value, end: int, g: int)
    requires v != Failed && g >= 1 && 0 < end <= STABLE_DELTA
    ensures Run([Sample(v, 0)] + Paced(v, 0, end, g)) == Trace(Memory([Sample(v, end)], Normal, true, 0), [Sample(v, 0)])
    decreases end
  {
    var a, x := Sample(v, 0), Sample(v, end);
    assert Run([a]) == Trace(Start(a), [a]) && [a] + [] == [a];
    HeldStep(Start(a), x);
    if end <= g {
      hide Run, Add;
      RunAdd([a], x);
    } else {
      var p := Paced(v, 0, end - g, g);
      assert [a] + (p + [x]) == [a] + p + [x];
      HeldStep(Memory([Sample(v, end - g)], Normal, true, 0), x);
      hide Run, Add;
      HeldSilently(v, end - g, g);
      RunAdd([a] + p, x);
    }
  }

  lemma HeldStep(m: Memory, x: Sample)
    requires |m.history| == 1 && m.phase == Normal && m.history[0].val == x.val != Failed && x.ts - m.lastEmitted <= STABLE_DELTA
    ensures Add(m, x) == Outcome(Memory([x], Normal, true, m.lastEmitted), [])
  {
    assert Front(m.history) + [x] == [x];
  }

  /** Hold a value for 300 seconds, and fail from one interval later on for 120 seconds. */
  function Holding(v: Value, g: int): (s: seq<Sample>)
    requires g >= 1
    ensures s != [] && Last(s) == Sample(v, 300)
  {
    [Sample(v, 0)] + Paced(v, 0, 300, g)
  }

  function Noise(g: int): (s: seq<Sample>)
    requires g >= 1
    ensures s != [] && s[0] == Sample(Failed, 300 + g) && Last(s) == Sample(Failed, 420 + g)
    ensures forall i :: 0 <= i < |s| ==> s[i].val == Failed && s[i].ts - s[0].ts <= FAILURE_DELTA
  {
    [Sample(Failed, 300 + g)] + Paced(Failed, 300 + g, 420 + g, g)
  }

  lemma HeldSpacing(v: Value, g: int)
    requires g >= 1
    ensures Spaced(Holding(v, g), 1) && Within(Holding(v, g), g) && Spaced(Noise(g), 1) && Within(Noise(g), g)
  {
    PacedSpacing(v, 0, 300, g);
    PacedSpacing(Failed, 300 + g, 420 + g, g);
    OneSample(Sample(v, 0), g);
    OneSample(Sample(Failed, 300 + g), g);
    hide Paced, Spaced, Within;
    SpacingJoin([Sample(v, 0)], Paced(v, 0, 300, g), g);
    SpacingJoin([Sample(Failed, 300 + g)], Paced(Failed, 300 + g, 420 + g, g), g);
  }

  lemma LateBeat(m: Memory, b: Sample)
    requires m.history != [] && m.phase == Normal && Last(m.history).val == b.val != Failed && b.ts - m.lastEmitted > STABLE_DELTA
    ensures Add(m, b).emitted == [b]
  {
  }

  lemma NoiseBridged(v: Value, g: int)
    requires v != Failed && g >= 1
    ensures Run(Holding(v, g) + Noise(g) + [Sample(v, 420 + 2 * g)]).log == [Sample(v, 0), Sample(v, 420 + 2 * g)]
  {
    var b := Sample(v, 420 + 2 * g);
    HeldSilently(v, 300, g);
    assert Run(Holding(v, g)) == Trace(Memory([Sample(v, 300)], Normal, true, 0), [Sample(v, 0)]);
    LateBeat(Memory([Sample(v, 300)], Normal, true, 0), b);
    hide Run, Add, Paced, Holding, Noise;
    NoiseErased(Holding(v, g), Noise(g), b);
    RunAdd(Holding(v, g), b);
  }

  /**
    The bound is attained for every sampling interval: hold a value for 300 seconds, fail from one interval later on
    for 120 seconds, and come back one interval after that.
  */
  lemma {:induction false} GapBoundAttained(v: Value, g: int) returns (s: seq<Sample>)
    requires v != Failed && g >= 1
    ensures s != [] && Spaced(s, 1) && Within(s, g)
    ensures Run(s).log == [Sample(v, 0), Sample(v, 420 + 2 * g)]
  {
    var b := Sample(v, 420 + 2 * g);
    s := Holding(v, g) + Noise(g) + [b];
    hide Run, Paced, Spaced, Within, Holding, Noise;
    NoiseBridged(v, g);
    HeldSpacing(v, g);
    OneSample(b, g);
    SpacingJoin(Holding(v, g), Noise(g), g);
    assert Last(Holding(v, g) + Noise(g)) == Last(Noise(g));
    SpacingJoin(Holding(v, g) + Noise(g), [b], g);
  }

  lemma OneSample(x: Sample, g: int)
    ensures Spaced([x], 1) && Within([x], g)
  {
  }
}
