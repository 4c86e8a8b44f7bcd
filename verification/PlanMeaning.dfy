/** What a read plan preserves: every plugin, and the value each plugin would read by itself. */
module PlanMeaning {
  import opened Sequences
  import opened RegisterGroups
  import opened Plugins
  import opened ReadPlanner

  // ----- No plugin is lost or duplicated -----

  /** `f` looks at the settings of a plugin, not at the positions it has learned. */
  ghost predicate Blind<T>(f: Plugin -> T) {
    forall p, g :: f(Located(p, g)) == f(p)
  }

  /** The values of `f` over a list of plugins, regardless of order. */
  ghost function Bag<T>(f: Plugin -> T, values: seq<Plugin>): multiset<T> {
    multiset(Map(f, values))
  }

  lemma BagSplit<T>(f: Plugin -> T, a: seq<Plugin>, b: seq<Plugin>)
    ensures Bag(f, a + b) == Bag(f, a) + Bag(f, b)
  {
    assert Map(f, a + b) == Map(f, a) + Map(f, b);
  }

  lemma {:induction false} TakeConserves<T>(f: Plugin -> T, values: seq<Plugin>, g: seq<int>)
    requires Blind(f)
    ensures Bag(f, Taken(values, g)) + Bag(f, Rest(values, g)) == Bag(f, values)
  {
    if values != [] {
      var p, v := Front(values), Last(values);
      FrontLast(values);
      TakeConserves(f, p, g);
      BagSplit(f, p, [v]);
      BagSplit(f, Goes(v, g), Taken(p, g));
      BagSplit(f, Rest(p, g), Stays(v, g));
      OneStep(f, v, g);
    }
  }

  lemma OneStep<T>(f: Plugin -> T, v: Plugin, g: seq<int>)
    requires Blind(f)
    ensures Bag(f, Goes(v, g)) + Bag(f, Stays(v, g)) == Bag(f, [v])
  {
    hide Located, Finds;
    assert f(Located(v, g)) == f(v);
    assert Map(f, [Located(v, g)]) == Map(f, [v]);
  }

  /** All plugins of the steps. */
  function PlacedIn(steps: seq<ReadStep>): seq<Plugin> {
    if steps == [] then [] else PlacedIn(Front(steps)) + Last(steps).values
  }

  /** Whatever can be read off the settings, the placed plugins and those left over together have it as the input did. */
  lemma {:induction false} PlanConserves<T>(f: Plugin -> T, blocks: seq<seq<int>>, values: seq<Plugin>, regType: RegType)
    requires Blind(f) && NonEmpty(blocks)
    ensures Bag(f, PlacedIn(Plan(blocks, values, regType).steps)) + Bag(f, Plan(blocks, values, regType).left) == Bag(f, values)
  {
    hide Bag, Blind, Taken, Rest;
    if blocks == [] {
      EmptyBag(f);
    } else {
      var g, before := Last(blocks), Plan(Front(blocks), values, regType);
      PlanConserves(f, Front(blocks), values, regType);
      TakeConserves(f, before.left, g);
      BagSplit(f, PlacedIn(before.steps), Taken(before.left, g));
    }
  }

  lemma EmptyBag<T>(f: Plugin -> T)
    ensures Bag(f, []) == multiset{}
  {
  }

  /** The placed plugins and those left over are the plugins that were given, each once. */
  lemma PlacementConserves(blocks: seq<seq<int>>, values: seq<Plugin>, regType: RegType)
    requires NonEmpty(blocks)
    ensures var plan := Plan(blocks, values, regType);
            multiset(Map(Settings, PlacedIn(plan.steps))) + multiset(Map(Settings, plan.left)) == multiset(Map(Settings, values))
  {
    forall p, g ensures Settings(Located(p, g)) == Settings(p) { LocatedKeepsSettings(p, g); }
    PlanConserves(Settings, blocks, values, regType);
  }

  // ----- Who is left over -----

  ghost predicate NotInit(values: seq<Plugin>, regType: RegType) {
    forall v :: v in values ==> !v.isInit && v.regType == regType
  }

  ghost predicate CoveredBy(blocks: seq<seq<int>>, d: Decoder) {
    exists g :: g in blocks && Covers(d, g)
  }

  lemma {:induction false} RestMembers(values: seq<Plugin>, g: seq<int>, regType: RegType)
    requires NotInit(values, regType)
    ensures NotInit(Rest(values, g), regType)
    ensures forall v :: v in Rest(values, g) ==> !Covers(v.decoder, g) && exists u :: u in values && u.decoder == v.decoder
    ensures forall u :: u in values && !Covers(u.decoder, g) ==> exists v :: v in Rest(values, g) && v.decoder == u.decoder
  {
    if values != [] {
      var p, v := Front(values), Last(values);
      FrontLast(values);
      RestMembers(p, g, regType);
      LocatedKeepsSettings(v, g);
      assert Located(v, g).decoder == v.decoder && Located(v, g).regType == v.regType;
    }
  }

  lemma {:induction false} TakenMembers(values: seq<Plugin>, g: seq<int>)
    ensures forall q :: q in Taken(values, g) ==> exists v :: v in values && Finds(v, g) && q == Located(v, g)
  {
    if values != [] {
      FrontLast(values);
      TakenMembers(Front(values), g);
    }
  }

  lemma {:induction false} LeftMembers(blocks: seq<seq<int>>, values: seq<Plugin>, regType: RegType)
    requires NonEmpty(blocks) && NotInit(values, regType)
    ensures var left := Plan(blocks, values, regType).left;
            && NotInit(left, regType)
            && (forall v :: v in left ==> !CoveredBy(blocks, v.decoder) && exists u :: u in values && u.decoder == v.decoder)
            && (forall u :: u in values && !CoveredBy(blocks, u.decoder) ==> exists v :: v in left && v.decoder == u.decoder)
  {
    hide Rest, Taken, Covers;
    if blocks != [] {
      FrontLast(blocks);
      LeftMembers(Front(blocks), values, regType);
      RestMembers(Plan(Front(blocks), values, regType).left, Last(blocks), regType);
      assert forall d :: CoveredBy(blocks, d) <==> CoveredBy(Front(blocks), d) || Covers(d, Last(blocks));
    }
  }

  // ----- Exactly who is served -----

  /** The plugins for which `ok` holds, in order, and the others. */
  function Served(values: seq<Plugin>, ok: Plugin -> bool): seq<Plugin> {
    if values == [] then [] else Served(Front(values), ok) + (if ok(Last(values)) then [Last(values)] else [])
  }

  function Unserved(values: seq<Plugin>, ok: Plugin -> bool): seq<Plugin> {
    if values == [] then [] else Unserved(Front(values), ok) + (if ok(Last(values)) then [] else [Last(values)])
  }

  lemma ServedLast(values: seq<Plugin>, v: Plugin, ok: Plugin -> bool)
    ensures Served(values + [v], ok) == Served(values, ok) + (if ok(v) then [v] else [])
    ensures Unserved(values + [v], ok) == Unserved(values, ok) + (if ok(v) then [] else [v])
  {
    assert Front(values + [v]) == values;
  }

  lemma {:induction false} ServedSplit<T>(f: Plugin -> T, values: seq<Plugin>, ok: Plugin -> bool)
    ensures Bag(f, Served(values, ok)) + Bag(f, Unserved(values, ok)) == Bag(f, values)
  {
    if values == [] {
      EmptyBag(f);
    } else {
      var p, v := Front(values), Last(values);
      FrontLast(values);
      ServedLast(p, v, ok);
      hide Bag, Served, Unserved;
      ServedSplit(f, p, ok);
      EmptyBag(f);
      BagSplit(f, p, [v]);
      BagSplit(f, Served(p, ok), if ok(v) then [v] else []);
      BagSplit(f, Unserved(p, ok), if ok(v) then [] else [v]);
    }
  }

  lemma {:induction false} SameServed(values: seq<Plugin>, ok: Plugin -> bool, ok': Plugin -> bool)
    requires forall v :: v in values ==> ok(v) == ok'(v)
    ensures Served(values, ok) == Served(values, ok') && Unserved(values, ok) == Unserved(values, ok')
  {
    if values != [] {
      FrontLast(values);
      SameServed(Front(values), ok, ok');
    }
  }

  lemma {:induction false} NobodyUnserved(values: seq<Plugin>, ok: Plugin -> bool)
    ensures Unserved(values, ok) == [] <==> forall v :: v in values ==> ok(v)
    ensures (forall v :: v in values ==> ok(v)) ==> Served(values, ok) == values
  {
    if values != [] {
      FrontLast(values);
      NobodyUnserved(Front(values), ok);
    }
  }

  /** Serving more plugins keeps those that were served before. */
  lemma {:induction false} ServedGrows<T>(f: Plugin -> T, values: seq<Plugin>, ok: Plugin -> bool, more: Plugin -> bool)
    requires forall v :: ok(v) ==> more(v)
    ensures Bag(f, Served(values, ok)) <= Bag(f, Served(values, more))
  {
    if values != [] {
      var p, v := Front(values), Last(values);
      FrontLast(values);
      ServedLast(p, v, ok);
      ServedLast(p, v, more);
      hide Bag, Served;
      ServedGrows(f, p, ok, more);
      EmptyBag(f);
      BagSplit(f, Served(p, ok), if ok(v) then [v] else []);
      BagSplit(f, Served(p, more), if more(v) then [v] else []);
    }
  }

  /** `f` looks at nothing but the settings of a plugin. */
  ghost predicate OnSettings<T>(f: Plugin -> T) {
    forall p :: f(Settings(p)) == f(p)
  }

  lemma SameOnSettings<T>(f: Plugin -> T, a: seq<Plugin>, b: seq<Plugin>)
    requires OnSettings(f) && Map(Settings, a) == Map(Settings, b)
    ensures Map(f, a) == Map(f, b)
  {
    forall i | 0 <= i < |a| ensures f(a[i]) == f(b[i]) {
      assert Map(Settings, a)[i] == Map(Settings, b)[i];
      assert f(Settings(a[i])) == f(a[i]) && f(Settings(b[i])) == f(b[i]);
    }
  }

  lemma {:induction false} UnservedOnSettings(a: seq<Plugin>, b: seq<Plugin>, ok: Plugin -> bool)
    requires OnSettings(ok) && Map(Settings, a) == Map(Settings, b)
    ensures Map(Settings, Unserved(a, ok)) == Map(Settings, Unserved(b, ok))
  {
    SameOnSettings(ok, a, b);
    if a != [] {
      var n := |a| - 1;
      assert Map(Settings, Front(a)) == Map(Settings, a)[..n] && Map(Settings, Front(b)) == Map(Settings, b)[..n];
      assert Map(ok, a)[n] == Map(ok, b)[n] && Map(Settings, a)[n] == Map(Settings, b)[n];
      hide OnSettings;
      UnservedOnSettings(Front(a), Front(b), ok);
      MapJoin(Settings, Unserved(Front(a), ok), if ok(a[n]) then [] else [a[n]]);
      MapJoin(Settings, Unserved(Front(b), ok), if ok(b[n]) then [] else [b[n]]);
    }
  }

  lemma {:induction false} UnservedTwice(values: seq<Plugin>, ok: Plugin -> bool, later: Plugin -> bool, both: Plugin -> bool)
    requires forall p :: both(p) == (ok(p) || later(p))
    ensures Unserved(Unserved(values, ok), later) == Unserved(values, both)
  {
    if values != [] {
      var p, v := Front(values), Last(values);
      UnservedTwice(p, ok, later, both);
      if ok(v) {
        assert Unserved(p, ok) + [] == Unserved(p, ok) && Unserved(p, both) + [] == Unserved(p, both);
      } else {
        ServedLast(Unserved(p, ok), v, later);
      }
    }
  }

  /** The plugins whose registers all lie in this block, and in some one of these blocks. */
  function InBlock(g: seq<int>): Plugin -> bool {
    (p: Plugin) => Covers(p.decoder, g)
  }

  ghost function InOneOf(blocks: seq<seq<int>>): Plugin -> bool {
    (p: Plugin) => CoveredBy(blocks, p.decoder)
  }

  lemma {:induction false} RestIsUnserved(values: seq<Plugin>, g: seq<int>, regType: RegType)
    requires NotInit(values, regType)
    ensures Map(Settings, Rest(values, g)) == Map(Settings, Unserved(values, InBlock(g)))
  {
    if values != [] {
      var p, v := Front(values), Last(values);
      FrontLast(values);
      assert v in values && forall u :: u in p ==> u in values;
      LocatedKeepsSettings(v, g);
      assert Map(Settings, Stays(v, g)) == Map(Settings, if InBlock(g)(v) then [] else [v]);
      hide Located, Settings, Covers, InBlock;
      RestIsUnserved(p, g, regType);
      MapJoin(Settings, Rest(p, g), Stays(v, g));
      MapJoin(Settings, Unserved(p, InBlock(g)), if InBlock(g)(v) then [] else [v]);
    }
  }

  /** The plugins left over are exactly those that no block covers, in their old order. */
  lemma {:induction false} LeftIsUnserved(blocks: seq<seq<int>>, values: seq<Plugin>, regType: RegType)
    requires NonEmpty(blocks) && NotInit(values, regType)
    ensures Map(Settings, Plan(blocks, values, regType).left) == Map(Settings, Unserved(values, InOneOf(blocks)))
  {
    if blocks == [] {
      NobodyCovered(values);
    } else {
      var p, g := Front(blocks), Last(blocks);
      FrontLast(blocks);
      var left := Plan(p, values, regType).left;
      assert OnSettings(InBlock(g));
      assert forall v :: InOneOf(blocks)(v) == (InOneOf(p)(v) || InBlock(g)(v));
      LeftMembers(p, values, regType);
      hide Rest, Taken, InBlock, InOneOf, OnSettings, NotInit, Unserved, Settings;
      LeftIsUnserved(p, values, regType);
      RestIsUnserved(left, g, regType);
      UnservedOnSettings(left, Unserved(values, InOneOf(p)), InBlock(g));
      UnservedTwice(values, InOneOf(p), InBlock(g), InOneOf(blocks));
    }
  }

  lemma {:induction false} NobodyCovered(values: seq<Plugin>)
    ensures Unserved(values, InOneOf([])) == values
  {
    if values != [] {
      NobodyCovered(Front(values));
      FrontLast(values);
    }
  }

  /** A plan places exactly the plugins that have all their registers in one block, each once, and leaves exactly the others. */
  lemma {:induction false} ServesExactly(blocks: seq<seq<int>>, values: seq<Plugin>, regType: RegType, ok: Plugin -> bool)
    requires NonEmpty(blocks) && NotInit(values, regType)
    requires forall v :: v in values ==> ok(v) == CoveredBy(blocks, v.decoder)
    ensures var plan := Plan(blocks, values, regType);
            && Map(Settings, plan.left) == Map(Settings, Unserved(values, ok))
            && multiset(Map(Settings, PlacedIn(plan.steps))) == multiset(Map(Settings, Served(values, ok)))
            && (plan.left == [] <==> forall v :: v in values ==> ok(v))
  {
    var plan := Plan(blocks, values, regType);
    assert forall v :: InOneOf(blocks)(v) == CoveredBy(blocks, v.decoder);
    hide *;
    SameServed(values, ok, InOneOf(blocks));
    LeftIsUnserved(blocks, values, regType);
    PlacementConserves(blocks, values, regType);
    NobodyUnserved(values, ok);
    SettingsEmpty(plan.left, Unserved(values, ok));
    ServedIsPlaced(values, ok, plan.left, multiset(Map(Settings, PlacedIn(plan.steps))));
  }

  lemma SettingsEmpty(a: seq<Plugin>, b: seq<Plugin>)
    requires Map(Settings, a) == Map(Settings, b)
    ensures a == [] <==> b == []
  {
  }

  lemma ServedIsPlaced(values: seq<Plugin>, ok: Plugin -> bool, left: seq<Plugin>, placed: multiset<Plugin>)
    requires Map(Settings, left) == Map(Settings, Unserved(values, ok))
    requires placed + multiset(Map(Settings, left)) == multiset(Map(Settings, values))
    ensures placed == multiset(Map(Settings, Served(values, ok)))
  {
    hide Settings, Served, Unserved;
    ServedSplit(Settings, values, ok);
    SameRemainder(placed, Bag(Settings, Served(values, ok)), Bag(Settings, left));
  }

  lemma SameRemainder<T>(a: multiset<T>, b: multiset<T>, c: multiset<T>)
    requires a + c == b + c
    ensures a == b
  {
    assert a == a + c - c && b == b + c - c;
  }

  // ----- When group mode and single mode serve a plugin -----

  /** Every register strictly between the two of a decoder is listed, and listed once. */
  ghost predicate Unbroken(registers: seq<int>, d: Decoder) {
    d.Satec? ==>
      forall x :: (d.lo < x < d.hi || d.hi < x < d.lo) ==> Count(registers, x) == 1
  }

  /** The registers of every plugin are listed. */
  ghost predicate Listed(values: seq<Plugin>, registers: seq<int>) {
    forall v, r :: v in values && r in Registers(v.decoder) ==> r in registers
  }

  lemma GroupCovers(registers: seq<int>, d: Decoder)
    requires forall r :: r in Registers(d) ==> r in registers
    ensures CoveredBy(Groups(Sort(registers)), d) <==> Unbroken(registers, d)
  {
    hide *;
    SameGroupExactly(registers, LowHigh(d).0, LowHigh(d).1);
    CoversTogether(Groups(Sort(registers)), d);
    UnbrokenBetween(registers, d);
  }

  lemma CoversTogether(blocks: seq<seq<int>>, d: Decoder)
    ensures CoveredBy(blocks, d) <==> Together(blocks, LowHigh(d).0, LowHigh(d).1)
  {
    var low, high := LowHigh(d).0, LowHigh(d).1;
    if CoveredBy(blocks, d) {
      var g :| g in blocks && Covers(d, g);
      assert low in g && high in g;
    }
    if Together(blocks, low, high) {
      var g :| g in blocks && low in g && high in g;
      assert Covers(d, g);
    }
  }

  lemma UnbrokenBetween(registers: seq<int>, d: Decoder)
    ensures Unbroken(registers, d) <==> forall x :: LowHigh(d).0 < x < LowHigh(d).1 ==> Count(registers, x) == 1
  {
    hide Count;
  }

  /** The lower and the higher register of a decoder. */
  function LowHigh(d: Decoder): (r: (int, int))
    ensures r.0 in Registers(d) && r.1 in Registers(d) && r.0 <= r.1
    ensures forall x :: x in Registers(d) ==> x == r.0 || x == r.1
  {
    match d
    case Shift(addr, _) => (addr, addr)
    case Bit(addr, _) => (addr, addr)
    case Satec(hi, lo, _, _) => if hi <= lo then (hi, lo) else (lo, hi)
  }

  ghost function IsUnbroken(registers: seq<int>): Plugin -> bool {
    (p: Plugin) => Unbroken(registers, p.decoder)
  }

  /**
    Group mode places, each once, exactly the plugins between whose registers nothing is missing or repeated,
    and leaves exactly the others, whatever else is in the list.
  */
  lemma {:induction false} GroupModeServes(values: seq<Plugin>, registers: seq<int>, regType: RegType)
    requires NotInit(values, regType) && Listed(values, registers)
    ensures var plan := GroupPlan(values, registers, regType);
            && Map(Settings, plan.left) == Map(Settings, Unserved(values, IsUnbroken(registers)))
            && multiset(Map(Settings, PlacedIn(plan.steps))) == multiset(Map(Settings, Served(values, IsUnbroken(registers))))
            && (plan.left == [] <==> forall v :: v in values ==> Unbroken(registers, v.decoder))
  {
    hide Plan, CoveredBy, Unbroken, Groups, Sort, Served, Unserved, PlacedIn, Settings;
    GroupsNonEmpty(Sort(registers));
    forall v | v in values
      ensures CoveredBy(Groups(Sort(registers)), v.decoder) <==> Unbroken(registers, v.decoder)
    {
      GroupCovers(registers, v.decoder);
    }
    ServesExactly(Groups(Sort(registers)), values, regType, IsUnbroken(registers));
  }

  /** One register, or two that are neighbours. */
  predicate Near(d: Decoder) {
    d.Satec? ==> -1 <= d.hi - d.lo <= 1
  }

  /**
    Every plugin with one register or two neighbouring ones is placed in group mode, exactly as often as it is
    configured, however often registers repeat and whatever pairs are left over.
  */
  lemma {:induction false} NearIsPlaced(values: seq<Plugin>, registers: seq<int>, regType: RegType, v: Plugin)
    requires NotInit(values, regType) && Listed(values, registers) && Near(v.decoder)
    ensures multiset(Map(Settings, PlacedIn(GroupPlan(values, registers, regType).steps)))[Settings(v)]
         == multiset(Map(Settings, values))[Settings(v)]
  {
    assert IsUnbroken(registers)(v) && OnSettings(IsUnbroken(registers));
    hide Plan, Settings, PlacedIn, Unbroken, Served, Unserved;
    GroupModeServes(values, registers, regType);
    ServedSplit(Settings, values, IsUnbroken(registers));
    NotUnserved(values, IsUnbroken(registers), v);
  }

  lemma {:induction false} NotUnserved(values: seq<Plugin>, ok: Plugin -> bool, v: Plugin)
    requires ok(v) && OnSettings(ok)
    ensures multiset(Map(Settings, Unserved(values, ok)))[Settings(v)] == 0
  {
    if values != [] {
      var p, u := Front(values), Last(values);
      NotUnserved(p, ok, v);
      assert ok(Settings(u)) == ok(u) && ok(Settings(v)) == ok(v);
      hide Settings;
      MapJoin(Settings, Unserved(p, ok), if ok(u) then [] else [u]);
    }
  }

  /** All registers of the decoder are one and the same. */
  predicate OneRegister(d: Decoder) {
    d.Satec? ==> d.hi == d.lo
  }

  function IsOneRegister(): Plugin -> bool {
    (p: Plugin) => OneRegister(p.decoder)
  }

  /** Single mode places, each once, exactly the plugins that do not have two different registers, and leaves exactly the others. */
  lemma {:induction false} SingleModeServes(values: seq<Plugin>, registers: seq<int>, regType: RegType)
    requires NotInit(values, regType) && Listed(values, registers)
    ensures var plan := SinglePlan(values, registers, regType);
            && Map(Settings, plan.left) == Map(Settings, Unserved(values, IsOneRegister()))
            && multiset(Map(Settings, PlacedIn(plan.steps))) == multiset(Map(Settings, Served(values, IsOneRegister())))
            && (plan.left == [] <==> forall v :: v in values ==> OneRegister(v.decoder))
  {
    hide Plan, CoveredBy, OneRegister, Served, Unserved, PlacedIn, Settings;
    forall v | v in values ensures CoveredBy(Singles(registers), v.decoder) <==> OneRegister(v.decoder) {
      SingleCovers(registers, v.decoder);
    }
    ServesExactly(Singles(registers), values, regType, IsOneRegister());
  }

  lemma SingleCovers(registers: seq<int>, d: Decoder)
    requires forall r :: r in Registers(d) ==> r in registers
    ensures CoveredBy(Singles(registers), d) <==> OneRegister(d)
  {
    var r := Registers(d)[0];
    assert r in Registers(d);
    var i :| 0 <= i < |registers| && registers[i] == r;
    assert Singles(registers)[i] == [r] && Singles(registers)[i] in Singles(registers);
    if OneRegister(d) {
      assert Covers(d, [r]);
    }
    if CoveredBy(Singles(registers), d) {
      var g :| g in Singles(registers) && Covers(d, g);
      assert forall x :: x in Registers(d) ==> x == g[0];
      if d.Satec? {
        assert d.hi in Registers(d) && d.lo in Registers(d);
      }
    }
  }

  // ----- Decoded values -----

  /** The words a device answers to the request of a step. */
  function ReadWords(memory: Memory, step: ReadStep): (words: seq<Word>)
    ensures |words| == step.length && forall i :: 0 <= i < |words| ==> words[i] == memory(step.regType, step.start + i)
  {
    seq(step.length, i requires 0 <= i < step.length => memory(step.regType, step.start + i))
  }

  /** A measure without its time, which is the time of its own request. */
  function Untimed(m: Option<ModbusMeasure>): Option<ModbusMeasure> {
    if m.None? then None else Some(m.value.(time := 0))
  }

  /** What the plugins of a step make of the device's answer, or nothing where one reaches outside of it. */
  function PollStep(step: ReadStep, memory: Memory, time: int): (r: seq<Option<ModbusMeasure>>)
    ensures |r| == |step.values|
    ensures forall i :: 0 <= i < |r| ==> r[i] == GetValue(step.values[i], ReadWords(memory, step), time)
  {
    seq(|step.values|, i requires 0 <= i < |step.values| => GetValue(step.values[i], ReadWords(memory, step), time))
  }

  /** All measures of one poll, each request at its own time, with the times left out. */
  function Poll(steps: seq<ReadStep>, memory: Memory, times: nat -> int): seq<Option<ModbusMeasure>> {
    if steps == [] then []
    else
      var k := |steps| - 1;
      Poll(Front(steps), memory, times) + Map(Untimed, PollStep(Last(steps), memory, times(k)))
  }

  /** What a plugin makes of its own registers. */
  function DirectOf(memory: Memory): Plugin -> Option<ModbusMeasure> {
    (p: Plugin) => Some(Direct(p, memory, 0))
  }

  /** A contiguous block that fits the 16 bits of the request. */
  ghost predicate Addressable(g: seq<int>) {
    IsRun(g) && 0 <= g[0] && Last(g) < 65536 && |g| < 65536
  }

  lemma DirectIsBlind(memory: Memory)
    ensures Blind(DirectOf(memory))
  {
    forall p, g ensures DirectOf(memory)(Located(p, g)) == DirectOf(memory)(p) {
      LocatedKeepsSettings(p, g);
    }
  }

  /** The measures of one step are what its plugins would have read by themselves. */
  lemma {:induction false} StepDecodes(values: seq<Plugin>, g: seq<int>, regType: RegType, memory: Memory, time: int)
    requires NotInit(values, regType) && Addressable(g)
    ensures Map(Untimed, PollStep(NewStep(g[0], |g|, regType).(values := Taken(values, g)), memory, time))
         == Map(DirectOf(memory), Taken(values, g))
  {
    var step := NewStep(g[0], |g|, regType).(values := Taken(values, g));
    var words := ReadWords(memory, step);
    TakenMembers(values, g);
    assert |words| == |g| && forall i :: 0 <= i < |g| ==> words[i] == memory(regType, g[i]);
    hide Taken, Finds, Located, GetValue, ReadWords;
    forall q | q in Taken(values, g) ensures Untimed(GetValue(q, words, time)) == DirectOf(memory)(q) {
      var v :| v in values && Finds(v, g) && q == Located(v, g);
      TakenDecodes(v, g, words, memory, time);
    }
  }

  lemma TakenDecodes(v: Plugin, g: seq<int>, words: seq<Word>, memory: Memory, time: int)
    requires Finds(v, g)
    requires |words| == |g| && forall i :: 0 <= i < |g| ==> words[i] == memory(v.regType, g[i])
    ensures Untimed(GetValue(Located(v, g), words, time)) == DirectOf(memory)(Located(v, g))
  {
    hide GetValue, Finds;
    FoundDecodesDirectly(v, g, words, memory, time);
    LocatedKeepsSettings(v, g);
  }

  lemma {:induction false} PollDecodes(blocks: seq<seq<int>>, values: seq<Plugin>, regType: RegType, memory: Memory, times: nat -> int)
    requires NonEmpty(blocks) && NotInit(values, regType) && forall g :: g in blocks ==> Addressable(g)
    ensures var steps := Plan(blocks, values, regType).steps;
            Poll(steps, memory, times) == Map(DirectOf(memory), PlacedIn(steps))
  {
    hide Taken, Rest, Addressable, DirectOf, PollStep;
    if blocks != [] {
      var g, before := Last(blocks), Plan(Front(blocks), values, regType);
      assert g in blocks && Addressable(g);
      PollDecodes(Front(blocks), values, regType, memory, times);
      LeftMembers(Front(blocks), values, regType);
      hide NotInit, Untimed, CoveredBy;
      StepDecodes(before.left, g, regType, memory, times(|before.steps|));
      MapJoin(DirectOf(memory), PlacedIn(before.steps), Taken(before.left, g));
    }
  }

  ghost predicate InAddressRange(registers: seq<int>) {
    forall r :: r in registers ==> 0 <= r < 65536
  }

  lemma GroupsAddressable(registers: seq<int>)
    requires InAddressRange(registers) && |registers| < 65536
    ensures forall g :: g in Groups(Sort(registers)) ==> Addressable(g)
  {
    var s := Sort(registers);
    SortMembers(registers);
    GroupsAreRuns(s);
    GroupsConcat(s);
    hide Groups, Sort;
    forall g | g in Groups(s) ensures Addressable(g) {
      assert IsRun(g);
      WithinConcat(Groups(s), g);
      assert g[0] in s && Last(g) in s;
    }
  }

  lemma SinglesAddressable(registers: seq<int>)
    requires InAddressRange(registers)
    ensures NonEmpty(Singles(registers)) && forall g :: g in Singles(registers) ==> Addressable(g)
  {
    forall g | g in Singles(registers) ensures Addressable(g) {
      var k :| 0 <= k < |Singles(registers)| && Singles(registers)[k] == g;
      assert registers[k] in registers;
    }
  }

  lemma SortMembers(registers: seq<int>)
    ensures |Sort(registers)| == |registers| && forall x :: x in Sort(registers) ==> x in registers
  {
    hide Sort;
    var s := Sort(registers);
    assert |multiset(s)| == |multiset(registers)|;
    forall x | x in s ensures x in registers {
      assert x in multiset(s);
    }
  }

  lemma WithinConcat(p: seq<seq<int>>, g: seq<int>)
    requires g in p
    ensures |g| <= |Concat(p)| && forall x :: x in g ==> x in Concat(p)
  {
    var k :| 0 <= k < |p| && p[k] == g;
    ConcatAround(p, k);
  }

  /**
    Grouped polling preserves meaning: for every device memory the measures of all grouped requests, together with
    what the plugins left over would have read, are what every plugin would have read from its own registers;
    no plugin ever reaches outside of its answer.
  */
  lemma {:induction false} GroupModeMeaning(values: seq<Plugin>, registers: seq<int>, regType: RegType, memory: Memory, times: nat -> int)
    requires NotInit(values, regType) && InAddressRange(registers) && |registers| < 65536
    ensures var plan := GroupPlan(values, registers, regType);
            multiset(Poll(plan.steps, memory, times)) + Bag(DirectOf(memory), plan.left) == Bag(DirectOf(memory), values)
  {
    hide Plan, Groups, Sort, Poll, PlacedIn, Addressable;
    var blocks := Groups(Sort(registers));
    GroupsNonEmpty(Sort(registers));
    GroupsAddressable(registers);
    DirectIsBlind(memory);
    PlanConserves(DirectOf(memory), blocks, values, regType);
    PollDecodes(blocks, values, regType, memory, times);
  }

  lemma {:induction false} SingleModeMeaning(values: seq<Plugin>, registers: seq<int>, regType: RegType, memory: Memory, times: nat -> int)
    requires NotInit(values, regType) && InAddressRange(registers)
    ensures var plan := SinglePlan(values, registers, regType);
            multiset(Poll(plan.steps, memory, times)) + Bag(DirectOf(memory), plan.left) == Bag(DirectOf(memory), values)
  {
    hide Plan, Poll, PlacedIn;
    var blocks := Singles(registers);
    SinglesAddressable(registers);
    DirectIsBlind(memory);
    PlanConserves(DirectOf(memory), blocks, values, regType);
    PollDecodes(blocks, values, regType, memory, times);
  }

  /** A grouped poll measures exactly the plugins that group mode serves, each once and correctly. */
  lemma {:induction false} GroupModeComplete(values: seq<Plugin>, registers: seq<int>, regType: RegType, memory: Memory, times: nat -> int)
    requires NotInit(values, regType) && Listed(values, registers)
    requires InAddressRange(registers) && |registers| < 65536
    ensures multiset(Poll(GroupPlan(values, registers, regType).steps, memory, times))
         == Bag(DirectOf(memory), Served(values, IsUnbroken(registers)))
  {
    DirectOnSettings(memory);
    hide *;
    GroupModeServes(values, registers, regType);
    GroupModeMeaning(values, registers, regType, memory, times);
    ServedIsMeasured(DirectOf(memory), multiset(Poll(GroupPlan(values, registers, regType).steps, memory, times)), values,
                     GroupPlan(values, registers, regType).left, IsUnbroken(registers));
  }

  /** A poll by single registers measures exactly the plugins that single mode serves. */
  lemma {:induction false} SingleModeComplete(values: seq<Plugin>, registers: seq<int>, regType: RegType, memory: Memory, times: nat -> int)
    requires NotInit(values, regType) && Listed(values, registers) && InAddressRange(registers)
    ensures multiset(Poll(SinglePlan(values, registers, regType).steps, memory, times))
         == Bag(DirectOf(memory), Served(values, IsOneRegister()))
  {
    DirectOnSettings(memory);
    hide *;
    SingleModeServes(values, registers, regType);
    SingleModeMeaning(values, registers, regType, memory, times);
    ServedIsMeasured(DirectOf(memory), multiset(Poll(SinglePlan(values, registers, regType).steps, memory, times)), values,
                     SinglePlan(values, registers, regType).left, IsOneRegister());
  }

  lemma DirectOnSettings(memory: Memory)
    ensures OnSettings(DirectOf(memory))
  {
  }

  lemma ServedIsMeasured<T>(f: Plugin -> T, measured: multiset<T>, values: seq<Plugin>, left: seq<Plugin>, ok: Plugin -> bool)
    requires OnSettings(f) && Map(Settings, left) == Map(Settings, Unserved(values, ok))
    requires measured + Bag(f, left) == Bag(f, values)
    ensures measured == Bag(f, Served(values, ok))
  {
    hide OnSettings, Served, Unserved, Settings;
    SameOnSettings(f, left, Unserved(values, ok));
    ServedSplit(f, values, ok);
    SameRemainder(measured, Bag(f, Served(values, ok)), Bag(f, left));
  }

  /** Group mode measures all that single mode measures, and the same where every plugin has one register. */
  lemma {:induction false} ModesAgree(values: seq<Plugin>, registers: seq<int>, regType: RegType, memory: Memory, times: nat -> int, times': nat -> int)
    requires NotInit(values, regType) && Listed(values, registers)
    requires InAddressRange(registers) && |registers| < 65536
    ensures var grouped := multiset(Poll(GroupPlan(values, registers, regType).steps, memory, times));
            var single := multiset(Poll(SinglePlan(values, registers, regType).steps, memory, times'));
            && single <= grouped
            && ((forall v :: v in values ==> OneRegister(v.decoder)) ==> grouped == single)
  {
    forall v: Plugin ensures IsOneRegister()(v) ==> IsUnbroken(registers)(v) {}
    assert (forall v :: v in values ==> OneRegister(v.decoder)) ==> forall v :: v in values ==> IsOneRegister()(v) == IsUnbroken(registers)(v);
    hide *;
    GroupModeComplete(values, registers, regType, memory, times);
    SingleModeComplete(values, registers, regType, memory, times');
    ServedGrows(DirectOf(memory), values, IsOneRegister(), IsUnbroken(registers));
    if forall v :: v in values ==> OneRegister(v.decoder) {
      SameServed(values, IsOneRegister(), IsUnbroken(registers));
    }
  }
}
