/** The devices of a node as their configuration creates them, and which of them are ever read. */
module MasterCreation {
  import opened Sequences
  import opened ReadPlanner
  import opened DevicePool
  import opened ReadCycle
  import opened Scheduler
  import opened MasterSpec
  import opened MasterRuns
  import opened MasterService

  /** The configuration of a device. */
  datatype DeviceRead = DeviceRead(id: int, isActive: bool, timeForRecall: int, timeout: nat, retryCount: int, readByGroup: bool)

  /** A device is created due at once, with the requests planned for its values. */
  function NewDevice(conf: DeviceRead, values: seq<ValueRead>, now: int): Device {
    Device(conf.id, conf.isActive, conf.timeForRecall, conf.timeout, conf.retryCount, now, DeviceSteps(values, conf.readByGroup))
  }

  ghost predicate IsCreated(d: Device) {
    exists conf, values, now :: ShortRequests(values) && d == NewDevice(conf, values, now)
  }

  ghost predicate AllCreated(devices: seq<Device>) {
    forall i :: 0 <= i < |devices| ==> IsCreated(devices[i])
  }

  // ----- From the configuration of a node -----

  /** A configured device, its values if the database gives them, and the clock at its creation. */
  datatype Setup = Setup(conf: DeviceRead, values: Option<seq<ValueRead>>, now: int)

  function DeviceOf(s: Setup): Option<Device> {
    if s.values.None? then None else Some(NewDevice(s.conf, s.values.value, s.now))
  }

  /** Devices are created one after another. */
  ghost predicate InTurn(setups: seq<Setup>) {
    forall i, j :: 0 <= i < j < |setups| ==> setups[i].now <= setups[j].now
  }

  /** The first device whose values could be read. */
  ghost predicate IsFirst(setups: seq<Setup>, f: nat) {
    f < |setups| && setups[f].values.Some? && forall j :: 0 <= j < f ==> setups[j].values.None?
  }

  lemma {:induction false} NoneLoaded(setups: seq<Setup>)
    requires forall j :: 0 <= j < |setups| ==> setups[j].values.None?
    ensures Loaded(Map(DeviceOf, setups)) == []
  {
    if setups != [] {
      assert Front(Map(DeviceOf, setups)) == Map(DeviceOf, Front(setups));
      NoneLoaded(Front(setups));
    }
  }

  /** This device is the first one, and none is due before that time. */
  ghost predicate Leads(first: Option<Device>, loaded: seq<Device>, now: int) {
    loaded != [] && Some(loaded[0]) == first && forall d :: d in loaded ==> now <= d.nextReadAt
  }

  lemma LeadsOn(first: Option<Device>, loaded: seq<Device>, now: int, d: Option<Device>)
    requires Leads(first, loaded, now) && (d.Some? ==> now <= d.value.nextReadAt)
    ensures Leads(first, if d.Some? then loaded + [d.value] else loaded, now)
  {
  }

  /** The first readable device comes first, and none is due before it. */
  lemma {:induction false} FirstLoaded(setups: seq<Setup>, f: nat)
    requires InTurn(setups) && IsFirst(setups, f)
    ensures Leads(DeviceOf(setups[f]), Loaded(Map(DeviceOf, setups)), setups[f].now)
    decreases |setups|
  {
    LastSetup(setups, f);
    hide *;
    var p, last := Front(setups), Last(setups);
    DueAtCreation(last);
    LoadedLast(Map(DeviceOf, p), DeviceOf(last));
    if f < |p| {
      FirstLoaded(p, f);
      LeadsOn(DeviceOf(setups[f]), Loaded(Map(DeviceOf, p)), setups[f].now, DeviceOf(last));
    } else {
      NoneLoaded(p);
      LeadsAlone(DeviceOf(last), last.now);
    }
  }

  lemma LastSetup(setups: seq<Setup>, f: nat)
    requires InTurn(setups) && IsFirst(setups, f)
    ensures setups != [] && |Front(setups)| == |setups| - 1 && f < |setups|
    ensures Map(DeviceOf, setups) == Map(DeviceOf, Front(setups)) + [DeviceOf(Last(setups))]
    ensures var p := Front(setups);
            if f < |p| then IsFirst(p, f) && InTurn(p) && setups[f].now <= Last(setups).now && p[f] == setups[f]
            else setups[f] == Last(setups) && Last(setups).values.Some? && forall j :: 0 <= j < |p| ==> p[j].values.None?
  {
    hide DeviceOf;
  }

  lemma DueAtCreation(s: Setup)
    ensures DeviceOf(s).Some? <==> s.values.Some?
    ensures DeviceOf(s).Some? ==> DeviceOf(s).value.nextReadAt == s.now
  {
    hide DeviceSteps;
  }

  lemma LeadsAlone(d: Option<Device>, now: int)
    requires d.Some? && d.value.nextReadAt == now
    ensures Leads(d, [] + [d.value], now)
  {
  }

  /** Where device `i` is in the list of the readable ones. */
  function Place(setups: seq<Setup>, i: nat): nat
    requires i < |setups|
  {
    |Loaded(Map(DeviceOf, setups[..i]))|
  }

  lemma AtPlace(setups: seq<Setup>, i: nat)
    requires i < |setups| && setups[i].values.Some?
    ensures Place(setups, i) < |Loaded(Map(DeviceOf, setups))|
    ensures Some(Loaded(Map(DeviceOf, setups))[Place(setups, i)]) == DeviceOf(setups[i])
  {
    var a, b := Map(DeviceOf, setups[..i]), Map(DeviceOf, setups[i + 1..]);
    DueAtCreation(setups[i]);
    MapAround(setups, i);
    hide DeviceOf, Loaded;
    LoadedExactly(a, DeviceOf(setups[i]), b);
    Amid(Loaded(a), DeviceOf(setups[i]).value, Loaded(b));
  }

  lemma MapAround(setups: seq<Setup>, i: nat)
    requires i < |setups|
    ensures Map(DeviceOf, setups) == Map(DeviceOf, setups[..i]) + [DeviceOf(setups[i])] + Map(DeviceOf, setups[i + 1..])
  {
    hide DeviceOf;
  }

  lemma Amid<T>(a: seq<T>, x: T, b: seq<T>)
    ensures |a| < |a + [x] + b| && (a + [x] + b)[|a|] == x
  {
  }

  /**
    From configuration to reading: a device that is configured as active, and whose values can be read, is read in
    some run from a fresh start if and only if the first device whose values can be read is configured as active, too.
  */
  lemma {:induction false} ConfiguredIsReadExactly(setups: seq<Setup>, f: nat, i: nat)
    requires InTurn(setups) && IsFirst(setups, f)
    requires i < |setups| && setups[i].values.Some? && setups[i].conf.isActive
    ensures Sound(FRESH)
    ensures (exists run, s :: Begins(run, s, Map(DeviceOf, setups)) && Polls(Loop(FRESH, run), s) == Some(Place(setups, i)))
       <==> setups[f].conf.isActive
  {
    LoadedInOrder(setups, f);
    AtPlace(setups, i);
    ActiveAsConfigured(setups[i]);
    hide *;
    ReadFromFreshExactly(Map(DeviceOf, setups), Place(setups, i));
  }

  lemma ActiveAsConfigured(s: Setup)
    requires s.values.Some?
    ensures DeviceOf(s).Some? && DeviceOf(s).value.isActive == s.conf.isActive
  {
    hide DeviceSteps;
  }

  lemma LoadedInOrder(setups: seq<Setup>, f: nat)
    requires InTurn(setups) && IsFirst(setups, f)
    ensures var loaded := Loaded(Map(DeviceOf, setups));
            loaded != [] && CreatedInOrder(loaded) && loaded[0].isActive == setups[f].conf.isActive
  {
    FirstLoaded(setups, f);
    ActiveAsConfigured(setups[f]);
    DueAtCreation(setups[f]);
    hide Loaded, DeviceOf, InTurn, IsFirst;
    var loaded := Loaded(Map(DeviceOf, setups));
    assert forall k :: 0 <= k < |loaded| ==> loaded[k] in loaded;
  }

  /** In every run that begins with this configuration each device keeps the number and the settings configured for it. */
  lemma {:induction false} ConfiguredStays(setups: seq<Setup>, i: nat, run: seq<Surroundings>, s: Surroundings)
    requires i < |setups| && setups[i].values.Some? && Begins(run, s, Map(DeviceOf, setups))
    ensures Sound(FRESH) && Place(setups, i) < |Built(Loop(FRESH, run), s).devices|
    ensures var d, conf := Built(Loop(FRESH, run), s).devices[Place(setups, i)], setups[i].conf;
            && d.id == conf.id && d.isActive == conf.isActive && d.timeForRecall == conf.timeForRecall
            && d.retryCount == conf.retryCount && |d.steps| == |DeviceSteps(setups[i].values.value, conf.readByGroup)|
  {
    AtPlace(setups, i);
    hide Loaded, Begins, Loop, DeviceSteps, Place, Built;
    StaysBuilt(Map(DeviceOf, setups), run, s);
  }
}
