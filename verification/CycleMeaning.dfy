/** What the measures of a completed cycle are worth, whatever fails on the way. */
module CycleMeaning {
  import opened Sequences
  import opened Plugins
  import opened ReadPlanner
  import opened PlanMeaning
  import opened DevicePool
  import opened ReadCycle

  // ----- One cycle -----

  /** Whatever is answered comes from the device's memory. */
  ghost predicate FromMemory(net: Network, steps: seq<ReadStep>, memory: Memory) {
    forall k: nat, t: nat :: k < |steps| && net(k, t).Answer? ==> net(k, t).words == ReadWords(memory, steps[k])
  }

  /** Every plugin makes of the answer to its step what it would make of its own registers. */
  ghost predicate ReadsTrue(step: ReadStep, memory: Memory) {
    forall p, time :: p in step.values ==> GetValue(p, ReadWords(memory, step), time) == Some(Direct(p, memory, time))
  }

  /** The measures of a step: what the memory holds for its plugins, or failures. */
  function Measures(step: ReadStep, memory: Memory, time: int, answered: bool): seq<Option<ModbusMeasure>> {
    Map((p: Plugin) => Some(if answered then Direct(p, memory, time) else Fail(p, time)), step.values)
  }

  /** What a completed cycle measures. */
  function Truth(steps: seq<ReadStep>, net: Network, limit: nat, times: nat -> int, memory: Memory): seq<Option<ModbusMeasure>> {
    if steps == [] then []
    else
      var k := |steps| - 1;
      Truth(Front(steps), net, limit, times, memory)
      + if Last(steps).broken then [] else Measures(Last(steps), memory, times(k), Answered(Last(steps), Answers(net, k), limit))
  }

  lemma VisitMeasures(c: Cycle, step: ReadStep, net: Network, k: nat, limit: nat, ts: int, memory: Memory)
    requires Visit(c, step, Answers(net, k), limit, ts).end.Completed? && ReadsTrue(step, memory)
    requires forall t: nat :: net(k, t).Answer? ==> net(k, t).words == ReadWords(memory, step)
    ensures c.end.Completed?
    ensures Visit(c, step, Answers(net, k), limit, ts).measures
         == c.measures + if step.broken then [] else Measures(step, memory, ts, Answered(step, Answers(net, k), limit))
  {
    TriesBounded(Answers(net, k), limit, 0);
    var r := RunStep(Answers(net, k), limit, 0);
    hide RunStep, GetValue, Direct, ReadWords, Fail;
    if !step.broken && r.end.Read? {
      assert net(k, r.tries - 1).Answer? && r.end.words == ReadWords(memory, step);
      assert GetValues(step, r.end.words, ts) == Measures(step, memory, ts, true);
    } else if !step.broken {
      assert FailAll(step, ts) == Measures(step, memory, ts, false);
    }
  }

  /**
    Whatever fails on the way, a completed cycle measures for every plugin of every step that was not broken before
    what the device's memory holds if the step is answered, and a failure otherwise.
  */
  lemma {:induction false} MeasuresExactly(steps: seq<ReadStep>, net: Network, limit: nat, times: nat -> int, memory: Memory)
    requires FromMemory(net, steps, memory) && forall s :: s in steps ==> ReadsTrue(s, memory)
    requires RunCycle(steps, net, limit, times).end.Completed?
    ensures RunCycle(steps, net, limit, times).measures == Truth(steps, net, limit, times, memory)
  {
    if steps != [] {
      var p, step, k := Front(steps), Last(steps), |steps| - 1;
      FrontLast(steps);
      assert FromMemory(net, p, memory) by {
        assert forall i :: 0 <= i < k ==> p[i] == steps[i];
      }
      assert step == steps[k] && step in steps && forall s :: s in p ==> s in steps;
      hide Visit, ReadsTrue, Answered, Measures, ReadWords;
      VisitMeasures(RunCycle(p, net, limit, times), step, net, k, limit, times(k), memory);
      MeasuresExactly(p, net, limit, times, memory);
    }
  }

  // ----- A configured device -----

  /** The measure is one of this configured value: what the memory holds for it, or a failure. */
  ghost predicate IsMeasureOf(m: ModbusMeasure, v: ValueRead, memory: Memory) {
    var held := HeldFor(memory)(v);
    held.Some? && (m == held.value.(time := m.time) || m == held.value.(time := m.time, value := Unreadable))
  }

  /** Every plugin of the step belongs to a configured value that the mode serves. */
  ghost predicate Configured(values: seq<ValueRead>, byGroup: bool, step: ReadStep) {
    forall p :: p in step.values ==> exists v :: v in values && v.decoding.Some? && IsRead(values, v, byGroup) && Settings(p) == MakePlugin(v)
  }

  lemma TakenReadsTrue(values: seq<Plugin>, g: seq<int>, regType: RegType, memory: Memory)
    requires NotInit(values, regType) && Addressable(g)
    ensures ReadsTrue(NewStep(g[0], |g|, regType).(values := Taken(values, g)), memory)
  {
    var step := NewStep(g[0], |g|, regType).(values := Taken(values, g));
    var words := ReadWords(memory, step);
    TakenMembers(values, g);
    assert |words| == |g| && forall i :: 0 <= i < |g| ==> words[i] == memory(regType, g[i]);
    hide Taken, Finds, Located, GetValue, ReadWords, Direct;
    forall q, time | q in Taken(values, g) ensures GetValue(q, words, time) == Some(Direct(q, memory, time)) {
      var v :| v in values && Finds(v, g) && q == Located(v, g);
      FoundDecodesDirectly(v, g, words, memory, time);
      DirectLocated(v, g, memory, time);
    }
  }

  lemma DirectLocated(v: Plugin, g: seq<int>, memory: Memory, time: int)
    ensures Direct(Located(v, g), memory, time) == Direct(v, memory, time)
  {
    hide Decode;
    LocatedKeepsSettings(v, g);
  }

  lemma {:induction false} PlannedReadsTrue(blocks: seq<seq<int>>, values: seq<Plugin>, regType: RegType, memory: Memory)
    requires NonEmpty(blocks) && NotInit(values, regType) && forall g :: g in blocks ==> Addressable(g)
    ensures forall s :: s in Plan(blocks, values, regType).steps ==> ReadsTrue(s, memory)
  {
    if blocks != [] {
      var g, p := Last(blocks), Front(blocks);
      assert g in blocks && Addressable(g);
      hide Taken, Rest, Addressable, ReadsTrue;
      PlannedReadsTrue(p, values, regType, memory);
      LeftMembers(p, values, regType);
      hide NotInit, CoveredBy;
      TakenReadsTrue(Plan(p, values, regType).left, g, regType, memory);
    }
  }

  lemma {:induction false} MemberPlaced(steps: seq<ReadStep>, s: ReadStep, p: Plugin)
    requires s in steps && p in s.values
    ensures Settings(p) in multiset(Map(Settings, PlacedIn(steps)))
  {
    FrontLast(steps);
    MapJoin(Settings, PlacedIn(Front(steps)), Last(steps).values);
    if s == Last(steps) {
      var i :| 0 <= i < |s.values| && s.values[i] == p;
      assert Map(Settings, s.values)[i] == Settings(p);
    } else {
      MemberPlaced(Front(steps), s, p);
    }
  }

  lemma {:induction false} ServedMembers(values: seq<Plugin>, ok: Plugin -> bool)
    ensures forall p :: p in Served(values, ok) ==> p in values && ok(p)
  {
    if values != [] {
      FrontLast(values);
      ServedMembers(Front(values), ok);
    }
  }

  lemma {:induction false} UnitsMembers(values: seq<ValueRead>, regType: RegType)
    ensures forall p :: p in UnitsOf(values, regType).values ==> p.regType == regType && exists v :: v in values && v.decoding.Some? && p == MakePlugin(v)
  {
    if values != [] {
      FrontLast(values);
      UnitsMembers(Front(values), regType);
    }
  }

  lemma PlacedConfigured(values: seq<ValueRead>, regType: RegType, byGroup: bool)
    ensures multiset(Map(Settings, PlacedIn(StepsOf(values, regType, byGroup).steps)))
         == multiset(Map(Settings, Served(UnitsOf(values, regType).values, IsServed(values, byGroup))))
  {
    var units := UnitsOf(values, regType);
    hide GroupPlan, SinglePlan, UnitsOf, Unbroken, OneRegister, Served, Unserved, PlacedIn, Settings;
    UnitsListed(values, regType);
    if byGroup {
      GroupModeServes(units.values, units.registers, regType);
      SameServed(units.values, IsServed(values, byGroup), IsUnbroken(units.registers));
    } else {
      SingleModeServes(units.values, units.registers, regType);
      SameServed(units.values, IsServed(values, byGroup), IsOneRegister());
    }
  }

  lemma StepsConfigured(values: seq<ValueRead>, regType: RegType, byGroup: bool)
    ensures forall s :: s in StepsOf(values, regType, byGroup).steps ==> Configured(values, byGroup, s)
  {
    var steps, served := StepsOf(values, regType, byGroup).steps, Served(UnitsOf(values, regType).values, IsServed(values, byGroup));
    PlacedConfigured(values, regType, byGroup);
    ServedMembers(UnitsOf(values, regType).values, IsServed(values, byGroup));
    UnitsMembers(values, regType);
    hide StepsOf, UnitsOf, Served, IsServed, IsRead, PlacedIn;
    forall s | s in steps ensures Configured(values, byGroup, s) {
      forall p | p in s.values
        ensures exists v :: v in values && v.decoding.Some? && IsRead(values, v, byGroup) && Settings(p) == MakePlugin(v)
      {
        MemberPlaced(steps, s, p);
        var i :| 0 <= i < |served| && Map(Settings, served)[i] == Settings(p);
        assert served[i] in served;
        var v :| v in values && v.decoding.Some? && served[i] == MakePlugin(v);
        ServedIsRead(values, v, byGroup);
      }
    }
  }

  lemma StepsReadTrue(values: seq<ValueRead>, regType: RegType, byGroup: bool, memory: Memory)
    requires Addressed(values, regType, byGroup)
    ensures forall s :: s in StepsOf(values, regType, byGroup).steps ==> ReadsTrue(s, memory)
  {
    var units := UnitsOf(values, regType);
    hide Plan, UnitsOf, ReadsTrue, RegisterGroups.Groups, RegisterGroups.Sort, Asked;
    UnitsListed(values, regType);
    AddressedRegisters(values, regType, byGroup);
    if byGroup {
      GroupsNonEmpty(RegisterGroups.Sort(units.registers));
      GroupsAddressable(units.registers);
      PlannedReadsTrue(RegisterGroups.Groups(RegisterGroups.Sort(units.registers)), units.values, regType, memory);
    } else {
      SinglesAddressable(units.registers);
      PlannedReadsTrue(Singles(units.registers), units.values, regType, memory);
    }
  }

  lemma MeasureOfSettings(p: Plugin, v: ValueRead, memory: Memory, time: int)
    requires v.decoding.Some? && Settings(p) == MakePlugin(v)
    ensures IsMeasureOf(Direct(p, memory, time), v, memory) && IsMeasureOf(Fail(p, time), v, memory)
  {
    hide Decode;
  }

  /** The measure is there, and is that of some configured value which the mode serves. */
  ghost predicate Fits(m: Option<ModbusMeasure>, values: seq<ValueRead>, byGroup: bool, memory: Memory) {
    m.Some? && exists v :: v in values && IsRead(values, v, byGroup) && IsMeasureOf(m.value, v, memory)
  }

  lemma StepFits(step: ReadStep, values: seq<ValueRead>, byGroup: bool, memory: Memory, time: int, answered: bool)
    requires Configured(values, byGroup, step)
    ensures forall m :: m in Measures(step, memory, time, answered) ==> Fits(m, values, byGroup, memory)
  {
    hide Direct, Fail, IsMeasureOf, IsRead;
    forall p | p in step.values
      ensures Fits(Some(Direct(p, memory, time)), values, byGroup, memory) && Fits(Some(Fail(p, time)), values, byGroup, memory)
    {
      var v :| v in values && v.decoding.Some? && IsRead(values, v, byGroup) && Settings(p) == MakePlugin(v);
      MeasureOfSettings(p, v, memory, time);
    }
  }

  lemma {:induction false} TruthFits(steps: seq<ReadStep>, values: seq<ValueRead>, byGroup: bool, net: Network, limit: nat,
                                     times: nat -> int, memory: Memory)
    requires forall s :: s in steps ==> Configured(values, byGroup, s)
    ensures forall m :: m in Truth(steps, net, limit, times, memory) ==> Fits(m, values, byGroup, memory)
  {
    if steps != [] {
      var k := |steps| - 1;
      FrontLast(steps);
      hide Configured, Fits, Measures, Answered;
      TruthFits(Front(steps), values, byGroup, net, limit, times, memory);
      StepFits(Last(steps), values, byGroup, memory, times(k), Answered(Last(steps), Answers(net, k), limit));
    }
  }

  lemma PlanConfigured(values: seq<ValueRead>, byGroup: bool, memory: Memory)
    requires forall t :: Addressed(values, t, byGroup)
    ensures forall s :: s in DeviceSteps(values, byGroup) ==> ReadsTrue(s, memory) && Configured(values, byGroup, s)
  {
    hide StepsOf, Addressed, ReadsTrue, Configured;
    forall t: RegType ensures forall s :: s in StepsOf(values, t, byGroup).steps ==> ReadsTrue(s, memory) && Configured(values, byGroup, s) {
      StepsReadTrue(values, t, byGroup, memory);
      StepsConfigured(values, t, byGroup);
    }
  }

  lemma LifeConfigured(values: seq<ValueRead>, byGroup: bool, run: seq<Conditions>, limit: nat, memory: Memory)
    requires forall t :: Addressed(values, t, byGroup)
    ensures forall s :: s in After(DeviceSteps(values, byGroup), run, limit) ==> ReadsTrue(s, memory) && Configured(values, byGroup, s)
  {
    var planned := DeviceSteps(values, byGroup);
    var steps := After(planned, run, limit);
    PlanConfigured(values, byGroup, memory);
    SameButBroken(planned, run, limit);
    hide After, DeviceSteps, GetValue, Direct, IsRead, Addressed;
    forall s | s in steps ensures ReadsTrue(s, memory) && Configured(values, byGroup, s) {
      var k :| 0 <= k < |steps| && steps[k] == s;
      assert planned[k] in planned;
      assert ReadWords(memory, s) == ReadWords(memory, planned[k]);
    }
  }

  /**
    Over the whole life of a device and whatever fails: every measure of a completed cycle is that of a configured
    value which its mode serves, under that value's number, tag and logging flag, and says what the device's memory
    holds for the value, or that it could not be read.
  */
  lemma {:induction false} DeviceMeasuresTrue(values: seq<ValueRead>, byGroup: bool, run: seq<Conditions>, limit: nat, net: Network,
                                              times: nat -> int, memory: Memory)
    requires forall t :: Addressed(values, t, byGroup)
    requires FromMemory(net, After(DeviceSteps(values, byGroup), run, limit), memory)
    requires RunCycle(After(DeviceSteps(values, byGroup), run, limit), net, limit, times).end.Completed?
    ensures forall m :: m in RunCycle(After(DeviceSteps(values, byGroup), run, limit), net, limit, times).measures ==>
              Fits(m, values, byGroup, memory)
  {
    var steps := After(DeviceSteps(values, byGroup), run, limit);
    LifeConfigured(values, byGroup, run, limit, memory);
    hide RunCycle, After, Addressed, FromMemory, Truth, DeviceSteps, ReadsTrue, Configured, Fits;
    MeasuresExactly(steps, net, limit, times, memory);
    TruthFits(steps, values, byGroup, net, limit, times, memory);
  }
}
