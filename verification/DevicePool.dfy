/** The four lists of read requests of a device, and the iterator that walks through them. */
module DevicePool {
  import opened Sequences
  import opened RegisterGroups
  import opened Plugins
  import opened ReadPlanner
  import opened PlanMeaning

  /** A value of the configuration; its decoding type may be unknown. */
  datatype ValueRead = ValueRead(id: int, tag: string, isLogging: bool, decoding: Option<Decoding>)

  datatype Decoding = Decoding(regType: RegType, decoder: Decoder)

  datatype InitPlugins = InitPlugins(values: seq<Plugin>, registers: seq<int>)

  function MakePlugin(v: ValueRead): Plugin
    requires v.decoding.Some?
  {
    Plugin(v.id, v.tag, v.isLogging, v.decoding.value.regType, v.decoding.value.decoder, false, 0, 0)
  }

  function AddPlugin(units: InitPlugins, p: Plugin): InitPlugins {
    InitPlugins(units.values + [p], units.registers + Registers(p.decoder))
  }

  /** The plugins of one register type, and every register they ask for, in the order of the configuration. */
  function UnitsOf(values: seq<ValueRead>, regType: RegType): InitPlugins {
    if values == [] then InitPlugins([], [])
    else
      var v, before := Last(values), UnitsOf(Front(values), regType);
      if v.decoding.Some? && v.decoding.value.regType == regType then AddPlugin(before, MakePlugin(v)) else before
  }

  /** The plugins of all values whose decoding type is known. */
  function Known(values: seq<ValueRead>): seq<Plugin> {
    if values == [] then []
    else Known(Front(values)) + (if Last(values).decoding.Some? then [MakePlugin(Last(values))] else [])
  }

  method Distribute(values: seq<ValueRead>)
    returns (coils: InitPlugins, discrete: InitPlugins, holding: InitPlugins, input: InitPlugins)
    ensures coils == UnitsOf(values, Coils) && discrete == UnitsOf(values, Discrete)
    ensures holding == UnitsOf(values, Holding) && input == UnitsOf(values, Input)
  {
    var empty := InitPlugins([], []);
    coils, discrete, holding, input := empty, empty, empty, empty;
    assert values[..0] == [];
    for i := 0 to |values|
      invariant coils == UnitsOf(values[..i], Coils) && discrete == UnitsOf(values[..i], Discrete)
      invariant holding == UnitsOf(values[..i], Holding) && input == UnitsOf(values[..i], Input)
    {
      var v := values[i];
      assert Front(values[..i + 1]) == values[..i];
      if v.decoding.Some? {
        var plugin := MakePlugin(v);
        match plugin.regType
        case Coils => coils := AddPlugin(coils, plugin);
        case Discrete => discrete := AddPlugin(discrete, plugin);
        case Holding => holding := AddPlugin(holding, plugin);
        case Input => input := AddPlugin(input, plugin);
      }
    }
    assert values[..|values|] == values;
  }

  /** The requests for one register type. */
  function StepsOf(values: seq<ValueRead>, regType: RegType, byGroup: bool): Planned {
    var units := UnitsOf(values, regType);
    if byGroup then GroupPlan(units.values, units.registers, regType) else SinglePlan(units.values, units.registers, regType)
  }

  class PollValueIterator {
    var coils: seq<ReadStep>
    var discrete: seq<ReadStep>
    var holding: seq<ReadStep>
    var input: seq<ReadStep>

    constructor ()
      ensures AllSteps() == []
    {
      coils, discrete, holding, input := [], [], [], [];
    }

    function ListOf(regType: RegType): seq<ReadStep>
      reads this
    {
      match regType
      case Coils => coils
      case Discrete => discrete
      case Holding => holding
      case Input => input
    }

    /** All requests in the order in which they are sent. */
    function AllSteps(): seq<ReadStep>
      reads this
    {
      coils + discrete + holding + input
    }

    function TotalSteps(): (n: nat)
      reads this
      ensures n == |AllSteps()|
    {
      |coils| + |discrete| + |holding| + |input|
    }

    method Init(values: seq<ValueRead>, readByGroup: bool)
      modifies this
      ensures forall t :: ListOf(t) == StepsOf(values, t, readByGroup).steps
      ensures AllSteps() == DeviceSteps(values, readByGroup)
    {
      hide GroupPlan, SinglePlan, UnitsOf;
      var c, d, h, i := Distribute(values);
      if readByGroup {
        coils := GroupSort(c.values, c.registers, Coils);
        discrete := GroupSort(d.values, d.registers, Discrete);
        holding := GroupSort(h.values, h.registers, Holding);
        input := GroupSort(i.values, i.registers, Input);
      } else {
        coils := SingleSort(c.values, c.registers, Coils);
        discrete := SingleSort(d.values, d.registers, Discrete);
        holding := SingleSort(h.values, h.registers, Holding);
        input := SingleSort(i.values, i.registers, Input);
      }
    }
  }

  class PoolValueRefIterator {
    const pool: PollValueIterator
    var currType: RegType
    var currIndex: nat

    constructor (pool: PollValueIterator)
      ensures Valid() && Seen() == 0 && this.pool == pool
    {
      this.pool := pool;
      currType, currIndex := Coils, 0;
    }

    ghost predicate Valid()
      reads this, pool
    {
      currIndex <= |pool.ListOf(currType)|
    }

    /** How many requests lie before the current position. */
    ghost function Seen(): nat
      reads this, pool
    {
      currIndex + match currType
                  case Coils => 0
                  case Discrete => |pool.coils|
                  case Holding => |pool.coils| + |pool.discrete|
                  case Input => |pool.coils| + |pool.discrete| + |pool.holding|
    }

    static function ListsAfter(t: RegType): nat {
      match t
      case Coils => 3
      case Discrete => 2
      case Holding => 1
      case Input => 0
    }

    /** The next request in the order coils, discrete, holding, input; nothing once all have been seen. */
    method Next() returns (r: Option<ReadStep>)
      requires Valid()
      modifies this
      ensures Valid()
      ensures old(Seen()) < |pool.AllSteps()| ==> r == Some(pool.AllSteps()[old(Seen())]) && Seen() == old(Seen()) + 1
      ensures old(Seen()) >= |pool.AllSteps()| ==> r == None && Seen() == old(Seen())
    {
      while true
        invariant Valid() && Seen() == old(Seen())
        decreases ListsAfter(currType)
      {
        var currList := pool.ListOf(currType);
        if currIndex < |currList| {
          var step := currList[currIndex];
          currIndex := currIndex + 1;
          return Some(step);
        }
        match currType
        case Coils => currIndex, currType := 0, Discrete;
        case Discrete => currIndex, currType := 0, Holding;
        case Holding => currIndex, currType := 0, Input;
        case Input => return None;
      }
    }
  }

  /** Repeated `Next` yields every request once, in order, and as many of them as are counted. */
  method Collect(pool: PollValueIterator) returns (all: seq<ReadStep>)
    ensures all == pool.AllSteps() && |all| == pool.TotalSteps()
  {
    var walker := new PoolValueRefIterator(pool);
    all := [];
    var next := walker.Next();
    while next.Some?
      invariant walker.Valid() && walker.pool == pool && fresh(walker)
      invariant next.Some? ==> |all| + 1 == walker.Seen() <= |pool.AllSteps()| && next.value == pool.AllSteps()[|all|]
      invariant next.None? ==> |all| == |pool.AllSteps()|
      invariant |all| <= |pool.AllSteps()| && all == pool.AllSteps()[..|all|]
      decreases |pool.AllSteps()| - |all|, next.Some?
    {
      all := all + [next.value];
      next := walker.Next();
    }
  }

  // ----- A whole poll of a device -----

  lemma {:induction false} UnitsListed(values: seq<ValueRead>, regType: RegType)
    ensures NotInit(UnitsOf(values, regType).values, regType)
    ensures Listed(UnitsOf(values, regType).values, UnitsOf(values, regType).registers)
  {
    if values != [] {
      UnitsListed(Front(values), regType);
    }
  }

  /** Every value with a known decoding type has its plugin in exactly one of the four lists. */
  lemma {:induction false} UnitsPartition<T>(f: Plugin -> T, values: seq<ValueRead>)
    ensures Bag(f, Known(values))
         == Bag(f, UnitsOf(values, Coils).values) + Bag(f, UnitsOf(values, Discrete).values)
          + Bag(f, UnitsOf(values, Holding).values) + Bag(f, UnitsOf(values, Input).values)
  {
    hide Bag;
    if values == [] {
      EmptyBag(f);
    } else {
      var p, v := Front(values), Last(values);
      UnitsPartition(f, p);
      BagSplit(f, Known(p), []);
      EmptyBag(f);
      if v.decoding.Some? {
        var plugin := MakePlugin(v);
        BagSplit(f, Known(p), [plugin]);
        BagSplit(f, UnitsOf(p, plugin.regType).values, [plugin]);
      }
    }
  }

  lemma {:induction false} PollSplit(a: seq<ReadStep>, b: seq<ReadStep>, memory: Memory, times: nat -> int)
    ensures Poll(a + b, memory, times) == Poll(a, memory, times) + Poll(b, memory, (k: nat) => times(|a| + k))
  {
    var later := (k: nat) => times(|a| + k);
    if b == [] {
      assert a + b == a;
    } else {
      var p, x := Front(b), Last(b);
      FrontLast(b);
      assert Front(a + b) == a + p;
      PollSplit(a, p, memory, times);
      hide Map, PollStep;
      Assoc(Poll(a, memory, times), Poll(p, memory, later), Map(Untimed, PollStep(x, memory, later(|p|))));
    }
  }

  // ----- What the configuration asks for -----

  /** The registers that the values of one register type ask for, each as often as it is asked for. */
  function Asked(values: seq<ValueRead>, regType: RegType): multiset<int> {
    if values == [] then multiset{}
    else
      Asked(Front(values), regType)
      + match Last(values).decoding
        case Some(Decoding(t, Shift(addr, _))) => (if t == regType then multiset{addr} else multiset{})
        case Some(Decoding(t, Bit(addr, _))) => (if t == regType then multiset{addr} else multiset{})
        case Some(Decoding(t, Satec(hi, lo, _, _))) => (if t == regType then multiset{hi, lo} else multiset{})
        case None => multiset{}
  }

  lemma {:induction false} RegistersAsked(values: seq<ValueRead>, regType: RegType)
    ensures multiset(UnitsOf(values, regType).registers) == Asked(values, regType)
    ensures |UnitsOf(values, regType).registers| == |Asked(values, regType)|
  {
    if values != [] {
      RegistersAsked(Front(values), regType);
      var before, v := UnitsOf(Front(values), regType).registers, Last(values);
      if v.decoding.Some? {
        assert multiset(before + Registers(v.decoding.value.decoder)) == multiset(before) + multiset(Registers(v.decoding.value.decoder));
      }
    }
    assert |multiset(UnitsOf(values, regType).registers)| == |UnitsOf(values, regType).registers|;
  }

  /** The registers of one register type fit the requests of the chosen mode. */
  ghost predicate Addressed(values: seq<ValueRead>, regType: RegType, byGroup: bool) {
    && (forall x :: x in Asked(values, regType) ==> 0 <= x < 65536)
    && (byGroup ==> |Asked(values, regType)| < 65536)
  }

  lemma AddressedRegisters(values: seq<ValueRead>, regType: RegType, byGroup: bool)
    requires Addressed(values, regType, byGroup)
    ensures var registers := UnitsOf(values, regType).registers;
            InAddressRange(registers) && (byGroup ==> |registers| < 65536)
  {
    hide Asked, UnitsOf;
    RegistersAsked(values, regType);
    forall r | r in UnitsOf(values, regType).registers ensures 0 <= r < 65536 {
      assert r in multiset(UnitsOf(values, regType).registers);
    }
  }

  /**
    Whether the chosen mode serves a value: one with two registers only if every register between them is asked for
    exactly once, or if they are one and the same.
  */
  ghost predicate IsRead(all: seq<ValueRead>, v: ValueRead, byGroup: bool) {
    match v.decoding
    case None => false
    case Some(Decoding(t, Satec(hi, lo, _, _))) =>
      if byGroup then forall x :: (lo < x < hi || hi < x < lo) ==> Asked(all, t)[x] == 1 else hi == lo
    case Some(_) => true
  }

  /** Those of the values that the chosen mode serves on a device with all of them. */
  ghost function Readable(all: seq<ValueRead>, values: seq<ValueRead>, byGroup: bool): seq<ValueRead> {
    if values == [] then []
    else Readable(all, Front(values), byGroup) + if IsRead(all, Last(values), byGroup) then [Last(values)] else []
  }

  /** What the memory of the device holds for a value. */
  function HeldFor(memory: Memory): ValueRead -> Option<ModbusMeasure> {
    (v: ValueRead) =>
      match v.decoding
      case None => None
      case Some(Decoding(t, d)) =>
        var reading := match d
                       case Shift(addr, _) => Decode(d, memory(t, addr), 0)
                       case Bit(addr, _) => Decode(d, memory(t, addr), 0)
                       case Satec(hi, lo, _, _) => Decode(d, memory(t, hi), memory(t, lo));
        Some(ModbusMeasure(reading, v.isLogging, v.id, v.tag, 0))
  }

  lemma ServedIsRead(all: seq<ValueRead>, v: ValueRead, byGroup: bool)
    requires v.decoding.Some?
    ensures IsServed(all, byGroup)(MakePlugin(v)) == IsRead(all, v, byGroup)
  {
    var t := v.decoding.value.regType;
    hide UnitsOf, Asked;
    RegistersAsked(all, t);
    assert forall x :: RegisterGroups.Count(UnitsOf(all, t).registers, x) == Asked(all, t)[x];
    hide RegisterGroups.Count;
    match v.decoding.value.decoder
    case Satec(hi, lo, _, _) =>
      assert Unbroken(UnitsOf(all, t).registers, MakePlugin(v).decoder)
        <==> forall x :: (lo < x < hi || hi < x < lo) ==> RegisterGroups.Count(UnitsOf(all, t).registers, x) == 1;
    case _ =>
  }

  lemma DirectIsHeld(v: ValueRead, memory: Memory)
    requires v.decoding.Some?
    ensures DirectOf(memory)(MakePlugin(v)) == HeldFor(memory)(v)
  {
    hide Decode;
  }

  /** What one more value adds to the measures of the served plugins. */
  lemma ServedOneMore(all: seq<ValueRead>, p: seq<ValueRead>, v: ValueRead, byGroup: bool, memory: Memory)
    ensures Map(DirectOf(memory), Served(Known(p + [v]), IsServed(all, byGroup)))
         == Map(DirectOf(memory), Served(Known(p), IsServed(all, byGroup))) + if IsRead(all, v, byGroup) then [HeldFor(memory)(v)] else []
  {
    var ok := IsServed(all, byGroup);
    assert Front(p + [v]) == p;
    hide IsServed, DirectOf, HeldFor, Served;
    if v.decoding.Some? {
      ServedIsRead(all, v, byGroup);
      DirectIsHeld(v, memory);
      hide MakePlugin, IsRead;
      ServedLast(Known(p), MakePlugin(v), ok);
      MapJoin(DirectOf(memory), Served(Known(p), ok), if ok(MakePlugin(v)) then [MakePlugin(v)] else []);
    } else {
      assert Known(p) + [] == Known(p);
    }
  }

  lemma ReadableOneMore(all: seq<ValueRead>, p: seq<ValueRead>, v: ValueRead, byGroup: bool, memory: Memory)
    ensures Map(HeldFor(memory), Readable(all, p + [v], byGroup))
         == Map(HeldFor(memory), Readable(all, p, byGroup)) + if IsRead(all, v, byGroup) then [HeldFor(memory)(v)] else []
  {
    assert Front(p + [v]) == p;
    hide IsRead, HeldFor;
    MapJoin(HeldFor(memory), Readable(all, p, byGroup), if IsRead(all, v, byGroup) then [v] else []);
  }

  /** What the served plugins read is what the memory holds for the served values. */
  lemma {:induction false} ServedIsReadable(all: seq<ValueRead>, values: seq<ValueRead>, byGroup: bool, memory: Memory)
    ensures Map(DirectOf(memory), Served(Known(values), IsServed(all, byGroup))) == Map(HeldFor(memory), Readable(all, values, byGroup))
  {
    if values == [] {
      NobodyServed(IsServed(all, byGroup));
    } else {
      hide *;
      FrontLast(values);
      ServedIsReadable(all, Front(values), byGroup, memory);
      ServedOneMore(all, Front(values), Last(values), byGroup, memory);
      ReadableOneMore(all, Front(values), Last(values), byGroup, memory);
    }
  }

  /** The plugins that the chosen mode serves, given all values of the device. */
  ghost function IsServed(values: seq<ValueRead>, byGroup: bool): Plugin -> bool {
    (p: Plugin) => if byGroup then Unbroken(UnitsOf(values, p.regType).registers, p.decoder) else OneRegister(p.decoder)
  }

  lemma TypeComplete(values: seq<ValueRead>, regType: RegType, byGroup: bool, memory: Memory, times: nat -> int)
    requires Addressed(values, regType, byGroup)
    ensures multiset(Poll(StepsOf(values, regType, byGroup).steps, memory, times))
         == Bag(DirectOf(memory), Served(UnitsOf(values, regType).values, IsServed(values, byGroup)))
  {
    var units := UnitsOf(values, regType);
    hide Poll, GroupPlan, SinglePlan, Bag, DirectOf, UnitsOf, Unbroken, OneRegister, Served, Unserved;
    UnitsListed(values, regType);
    AddressedRegisters(values, regType, byGroup);
    if byGroup {
      GroupModeComplete(units.values, units.registers, regType, memory, times);
      SameServed(units.values, IsServed(values, byGroup), IsUnbroken(units.registers));
    } else {
      SingleModeComplete(units.values, units.registers, regType, memory, times);
      SameServed(units.values, IsServed(values, byGroup), IsOneRegister());
    }
  }

  /** The served plugins are served in exactly one of the four lists. */
  lemma {:induction false} ServedPartition<T>(f: Plugin -> T, values: seq<ValueRead>, ok: Plugin -> bool)
    ensures Bag(f, Served(Known(values), ok))
         == Bag(f, Served(UnitsOf(values, Coils).values, ok)) + Bag(f, Served(UnitsOf(values, Discrete).values, ok))
          + Bag(f, Served(UnitsOf(values, Holding).values, ok)) + Bag(f, Served(UnitsOf(values, Input).values, ok))
  {
    hide Bag, Served;
    EmptyBag(f);
    if values == [] {
      NobodyServed(ok);
    } else {
      var p, v := Front(values), Last(values);
      ServedPartition(f, p, ok);
      if v.decoding.Some? {
        var plugin := MakePlugin(v);
        var one := if ok(plugin) then [plugin] else [];
        ServedLast(Known(p), plugin, ok);
        ServedLast(UnitsOf(p, plugin.regType).values, plugin, ok);
        BagSplit(f, Served(Known(p), ok), one);
        BagSplit(f, Served(UnitsOf(p, plugin.regType).values, ok), one);
      } else {
        assert Known(p) + [] == Known(p);
      }
    }
  }

  lemma NobodyServed(ok: Plugin -> bool)
    ensures Served([], ok) == []
  {
  }

  function DeviceSteps(values: seq<ValueRead>, byGroup: bool): seq<ReadStep> {
    StepsOf(values, Coils, byGroup).steps + StepsOf(values, Discrete, byGroup).steps
    + StepsOf(values, Holding, byGroup).steps + StepsOf(values, Input, byGroup).steps
  }

  /** The four lists together. */
  lemma {:induction false} ServedArePolled(values: seq<ValueRead>, byGroup: bool, memory: Memory, times: nat -> int)
    requires forall t :: Addressed(values, t, byGroup)
    ensures multiset(Poll(DeviceSteps(values, byGroup), memory, times))
         == Bag(DirectOf(memory), Served(Known(values), IsServed(values, byGroup)))
  {
    var c, d := StepsOf(values, Coils, byGroup).steps, StepsOf(values, Discrete, byGroup).steps;
    var h, i := StepsOf(values, Holding, byGroup).steps, StepsOf(values, Input, byGroup).steps;
    var afterC, afterD, afterH := (k: nat) => times(|c| + k), (k: nat) => times(|c + d| + k), (k: nat) => times(|c + d + h| + k);
    hide Poll, StepsOf, Bag, DirectOf, UnitsOf, Known, IsServed, Served;
    assert forall t :: Addressed(values, t, byGroup);
    hide Addressed;
    PollSplit(c + d + h, i, memory, times);
    PollSplit(c + d, h, memory, times);
    PollSplit(c, d, memory, times);
    TypeComplete(values, Coils, byGroup, memory, times);
    TypeComplete(values, Discrete, byGroup, memory, afterC);
    TypeComplete(values, Holding, byGroup, memory, afterD);
    TypeComplete(values, Input, byGroup, memory, afterH);
    ServedPartition(DirectOf(memory), values, IsServed(values, byGroup));
  }

  /**
    One poll of a device gives exactly one measure for every configured value that the chosen mode serves, whatever
    the other values are: what the device's memory holds for it, under the value's own number, tag and logging flag.
  */
  lemma {:induction false} DevicePollComplete(values: seq<ValueRead>, byGroup: bool, memory: Memory, times: nat -> int)
    requires forall t :: Addressed(values, t, byGroup)
    ensures multiset(Poll(DeviceSteps(values, byGroup), memory, times))
         == multiset(Map(HeldFor(memory), Readable(values, values, byGroup)))
  {
    hide Poll, DeviceSteps, Known, IsServed, Served, Readable, Addressed;
    ServedArePolled(values, byGroup, memory, times);
    ServedIsReadable(values, values, byGroup, memory);
  }
}
