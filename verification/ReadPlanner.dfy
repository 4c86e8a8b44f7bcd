/** Turning the values of a device into read requests, each with the plugins that decode its answer. */
module ReadPlanner {
  import opened Sequences
  import opened RegisterGroups
  import opened Plugins

  datatype ReadStep = ReadStep(values: seq<Plugin>, start: Word, length: Word, regType: RegType, broken: bool)

  /** Addresses and lengths are cut down to 16 bits. */
  function NewStep(start: int, length: int, regType: RegType): ReadStep {
    ReadStep([], start % 65536, length % 65536, regType, false)
  }

  // ----- Handing plugins to a step -----

  /** What one plugin contributes to the step, and to the list that remains. */
  function Goes(v: Plugin, dataset: seq<int>): seq<Plugin> {
    if Finds(v, dataset) then [Located(v, dataset)] else []
  }

  function Stays(v: Plugin, dataset: seq<int>): seq<Plugin> {
    if Finds(v, dataset) then [] else [Located(v, dataset)]
  }

  /** The plugins that find their registers in the block, last one first. */
  function Taken(values: seq<Plugin>, dataset: seq<int>): seq<Plugin> {
    if values == [] then [] else Goes(Last(values), dataset) + Taken(Front(values), dataset)
  }

  /** The plugins that do not, in their old order. */
  function Rest(values: seq<Plugin>, dataset: seq<int>): seq<Plugin> {
    if values == [] then [] else Rest(Front(values), dataset) + Stays(Last(values), dataset)
  }

  /** The positions of the plugins that find their registers. */
  function Indices(values: seq<Plugin>, dataset: seq<int>): (r: seq<nat>)
    ensures forall k :: 0 <= k < |r| ==> r[k] < |values|
  {
    if values == [] then []
    else Indices(Front(values), dataset) + (if Finds(Last(values), dataset) then [|values| - 1] else [])
  }

  function AllLocated(values: seq<Plugin>, dataset: seq<int>): (r: seq<Plugin>)
    ensures |r| == |values| && forall i :: 0 <= i < |r| ==> r[i] == Located(values[i], dataset)
  {
    seq(|values|, i requires 0 <= i < |values| => Located(values[i], dataset))
  }

  lemma StepByOne(values: seq<Plugin>, v: Plugin, dataset: seq<int>)
    ensures Taken(values + [v], dataset) == Goes(v, dataset) + Taken(values, dataset)
    ensures Rest(values + [v], dataset) == Rest(values, dataset) + Stays(v, dataset)
    ensures Indices(values + [v], dataset) == Indices(values, dataset) + (if Finds(v, dataset) then [|values|] else [])
  {
    assert Front(values + [v]) == values;
  }

  lemma {:induction false} Split(a: seq<Plugin>, b: seq<Plugin>, dataset: seq<int>)
    ensures Taken(a + b, dataset) == Taken(b, dataset) + Taken(a, dataset)
    ensures Rest(a + b, dataset) == Rest(a, dataset) + Rest(b, dataset)
  {
    if b == [] {
      assert a + b == a;
    } else {
      hide *;
      var p, v := Front(b), Last(b);
      FrontLast(b);
      Assoc(a, p, [v]);
      Split(a, p, dataset);
      StepByOne(a + p, v, dataset);
      StepByOne(p, v, dataset);
      Assoc(Goes(v, dataset), Taken(p, dataset), Taken(a, dataset));
      Assoc(Rest(a, dataset), Rest(p, dataset), Stays(v, dataset));
    }
  }

  ghost predicate NoneFound(values: seq<Plugin>, dataset: seq<int>) {
    Taken(values, dataset) == [] && Rest(values, dataset) == AllLocated(values, dataset)
  }

  lemma NoneFoundExtends(values: seq<Plugin>, v: Plugin, dataset: seq<int>)
    requires NoneFound(values, dataset) && !Finds(v, dataset)
    ensures NoneFound(values + [v], dataset)
  {
    StepByOne(values, v, dataset);
    assert AllLocated(values + [v], dataset) == AllLocated(values, dataset) + [Located(v, dataset)];
  }

  /** The last recorded position is that of a plugin that is found, and nothing is found after it. */
  ghost predicate LastFound(values: seq<Plugin>, dataset: seq<int>)
    requires Indices(values, dataset) != []
  {
    var i := Last(Indices(values, dataset));
    && Finds(values[i], dataset)
    && Indices(values[..i], dataset) == Front(Indices(values, dataset))
    && NoneFound(values[i + 1..], dataset)
  }

  lemma {:induction false} LastIndexFound(values: seq<Plugin>, dataset: seq<int>)
    ensures if Indices(values, dataset) == [] then NoneFound(values, dataset) else LastFound(values, dataset)
  {
    if values == [] {
      NothingInEmpty(dataset);
    } else {
      hide *;
      var p, v := Front(values), Last(values);
      FrontLast(values);
      LastIndexFound(p, dataset);
      if Finds(v, dataset) {
        FoundLast(p, v, dataset);
      } else if Indices(p, dataset) == [] {
        NoneFoundExtends(p, v, dataset);
        NotFoundLast(p, v, dataset);
      } else {
        NotFoundLast(p, v, dataset);
      }
    }
  }

  lemma FoundLast(p: seq<Plugin>, v: Plugin, dataset: seq<int>)
    requires Finds(v, dataset)
    ensures Indices(p + [v], dataset) != [] && LastFound(p + [v], dataset)
  {
    hide Finds;
    StepByOne(p, v, dataset);
    NothingInEmpty(dataset);
    assert (p + [v])[..|p|] == p && (p + [v])[|p| + 1..] == [];
  }

  lemma NotFoundLast(p: seq<Plugin>, v: Plugin, dataset: seq<int>)
    requires !Finds(v, dataset)
    ensures Indices(p + [v], dataset) == Indices(p, dataset)
    ensures Indices(p, dataset) != [] && LastFound(p, dataset) ==> LastFound(p + [v], dataset)
  {
    hide Finds, Indices, NoneFound;
    StepByOne(p, v, dataset);
    if Indices(p, dataset) != [] && LastFound(p, dataset) {
      var i := Last(Indices(p, dataset));
      NoneFoundExtends(p[i + 1..], v, dataset);
      Extended(p, v, i);
    }
  }

  /** Moving the plugin at the last recorded position out of the list. */
  lemma OneMoved(values: seq<Plugin>, n: nat, dataset: seq<int>)
    requires n <= |values| && Indices(values[..n], dataset) != []
    ensures var i := Last(Indices(values[..n], dataset));
            && i < n && Indices(values[..i], dataset) == Front(Indices(values[..n], dataset))
            && Taken(values[i..], dataset) == Taken(values[n..], dataset) + [Located(values[i], dataset)]
            && Rest(values[i..], dataset) == AllLocated(values[i + 1..n], dataset) + Rest(values[n..], dataset)
  {
    hide Finds, Located, NoneFound, AllLocated, Taken, Rest, Indices;
    LastIndexFound(values[..n], dataset);
    var i := Last(Indices(values[..n], dataset));
    assert values[..n][..i] == values[..i] && values[..n][i + 1..] == values[i + 1..n];
    assert values[i..] == [values[i]] + (values[i + 1..n] + values[n..]);
    QuietTail(values[i], values[i + 1..n], values[n..], dataset);
  }

  lemma QuietTail(v: Plugin, quiet: seq<Plugin>, later: seq<Plugin>, dataset: seq<int>)
    requires Finds(v, dataset) && NoneFound(quiet, dataset)
    ensures Taken([v] + (quiet + later), dataset) == Taken(later, dataset) + [Located(v, dataset)]
    ensures Rest([v] + (quiet + later), dataset) == AllLocated(quiet, dataset) + Rest(later, dataset)
  {
    assert Taken([v], dataset) == [Located(v, dataset)] && Rest([v], dataset) == [] by { Single(v, dataset); }
    hide Taken, Rest, Finds, Located, AllLocated;
    Split(quiet, later, dataset);
    Split([v], quiet + later, dataset);
  }

  lemma Single(v: Plugin, dataset: seq<int>)
    ensures Taken([v], dataset) == Goes(v, dataset) && Rest([v], dataset) == Stays(v, dataset)
  {
    StepByOne([], v, dataset);
    assert [] + [v] == [v];
  }

  lemma NothingInEmpty(dataset: seq<int>)
    ensures Taken([], dataset) == [] && Rest([], dataset) == [] && Indices([], dataset) == []
  {
  }

  /**
    Show the block to every plugin, collect the positions of those that find themselves in it,
    and move these, from the last to the first, out of the list and into the step.
  */
  method TakeMatching(step: ReadStep, values: seq<Plugin>, dataset: seq<int>) returns (step': ReadStep, rest: seq<Plugin>)
    ensures step' == step.(values := step.values + Taken(values, dataset))
    ensures rest == Rest(values, dataset)
  {
    var shown, indices := ShowBlock(values, dataset);
    step', rest := MoveOut(step, shown, indices, values, dataset);
  }

  method ShowBlock(values: seq<Plugin>, dataset: seq<int>) returns (shown: seq<Plugin>, indices: seq<nat>)
    ensures shown == AllLocated(values, dataset) && indices == Indices(values, dataset)
  {
    NothingInEmpty(dataset);
    hide Taken, Rest, Indices, Finds, Located, AllLocated, Goes, Stays;
    indices := [];
    shown := values;
    assert values[..0] == [];
    for i := 0 to |values|
      invariant |shown| == |values| && shown == AllLocated(values[..i], dataset) + values[i..]
      invariant indices == Indices(values[..i], dataset)
    {
      var p', found := FindYourRegisters(shown[i], dataset);
      StepByOne(values[..i], values[i], dataset);
      assert values[..i + 1] == values[..i] + [values[i]];
      shown := shown[i := p'];
      if found {
        indices := indices + [i];
      }
    }
    assert values[..|values|] == values;
  }

  method MoveOut(step: ReadStep, shown: seq<Plugin>, indices: seq<nat>, ghost values: seq<Plugin>, ghost dataset: seq<int>)
    returns (step': ReadStep, rest: seq<Plugin>)
    requires shown == AllLocated(values, dataset) && indices == Indices(values, dataset)
    ensures step' == step.(values := step.values + Taken(values, dataset))
    ensures rest == Rest(values, dataset)
  {
    NothingInEmpty(dataset);
    hide Taken, Rest, Indices, NoneFound, Finds, Located, AllLocated, Goes, Stays;
    step', rest := step, shown;
    ghost var n: nat := |values|;
    assert values[n..] == [] && values[..n] == values;
    var j := |indices|;
    while j > 0
      invariant 0 <= j <= |indices| && 0 <= n <= |values|
      invariant indices[..j] == Indices(values[..n], dataset)
      invariant rest == AllLocated(values[..n], dataset) + Rest(values[n..], dataset)
      invariant step' == step.(values := step.values + Taken(values[n..], dataset))
    {
      j := j - 1;
      var i := indices[j];
      OneMoved(values, n, dataset);
      assert i == Last(Indices(values[..n], dataset));
      LocatedAround(values[..n], i, dataset);
      assert values[..n][..i] == values[..i] && values[..n][i + 1..] == values[i + 1..n];
      step' := step'.(values := step'.values + [rest[i]]);
      rest := rest[..i] + rest[i + 1..];
      n := i;
    }
    LastIndexFound(values[..n], dataset);
    NoneFoundSplits(values, n, dataset);
  }

  lemma LocatedAround(values: seq<Plugin>, i: nat, dataset: seq<int>)
    requires i < |values|
    ensures AllLocated(values, dataset)[..i] == AllLocated(values[..i], dataset)
    ensures AllLocated(values, dataset)[i] == Located(values[i], dataset)
    ensures AllLocated(values, dataset)[i + 1..] == AllLocated(values[i + 1..], dataset)
  {
    hide Located;
  }

  lemma NoneFoundSplits(values: seq<Plugin>, n: nat, dataset: seq<int>)
    requires n <= |values| && NoneFound(values[..n], dataset)
    ensures Taken(values, dataset) == Taken(values[n..], dataset)
    ensures Rest(values, dataset) == AllLocated(values[..n], dataset) + Rest(values[n..], dataset)
  {
    assert values == values[..n] + values[n..];
    Split(values[..n], values[n..], dataset);
  }

  // ----- Whole plans -----

  /** The read requests for one register type, and the plugins that no request serves. */
  datatype Planned = Planned(steps: seq<ReadStep>, left: seq<Plugin>)

  ghost predicate NonEmpty(blocks: seq<seq<int>>) {
    forall i :: 0 <= i < |blocks| ==> blocks[i] != []
  }

  /** One request per block of addresses, in order; each takes its plugins from those that are left. */
  function Plan(blocks: seq<seq<int>>, values: seq<Plugin>, regType: RegType): (r: Planned)
    requires NonEmpty(blocks)
    ensures |r.steps| == |blocks|
  {
    if blocks == [] then Planned([], values)
    else
      var g, before := Last(blocks), Plan(Front(blocks), values, regType);
      Planned(before.steps + [NewStep(g[0], |g|, regType).(values := Taken(before.left, g))], Rest(before.left, g))
  }

  lemma PlanLast(blocks: seq<seq<int>>, g: seq<int>, values: seq<Plugin>, regType: RegType)
    requires NonEmpty(blocks) && g != []
    ensures NonEmpty(blocks + [g])
    ensures var before := Plan(blocks, values, regType);
            Plan(blocks + [g], values, regType)
            == Planned(before.steps + [NewStep(g[0], |g|, regType).(values := Taken(before.left, g))], Rest(before.left, g))
  {
    assert Front(blocks + [g]) == blocks;
  }

  /** One block per listed register, in the order of the list. */
  function Singles(registers: seq<int>): (r: seq<seq<int>>)
    ensures |r| == |registers| && forall i :: 0 <= i < |r| ==> r[i] == [registers[i]]
  {
    seq(|registers|, i requires 0 <= i < |registers| => [registers[i]])
  }

  lemma GroupsNonEmpty(s: seq<int>)
    ensures NonEmpty(Groups(s))
  {
    hide Groups;
    GroupsAreRuns(s);
    forall i | 0 <= i < |Groups(s)| ensures Groups(s)[i] != [] {
      assert IsRun(Groups(s)[i]);
    }
  }

  function GroupPlan(plugins: seq<Plugin>, registers: seq<int>, regType: RegType): Planned {
    GroupsNonEmpty(Sort(registers));
    Plan(Groups(Sort(registers)), plugins, regType)
  }

  function SinglePlan(plugins: seq<Plugin>, registers: seq<int>, regType: RegType): Planned {
    Plan(Singles(registers), plugins, regType)
  }

  method GroupSort(plugins: seq<Plugin>, registers: seq<int>, regType: RegType) returns (res: seq<ReadStep>)
    ensures res == GroupPlan(plugins, registers, regType).steps
  {
    hide Groups, Sort, Plan;
    GroupsNonEmpty(Sort(registers));
    var groups := RegSort(registers);
    res := SortInto(groups, plugins, regType);
  }

  method SingleSort(plugins: seq<Plugin>, registers: seq<int>, regType: RegType) returns (res: seq<ReadStep>)
    ensures res == SinglePlan(plugins, registers, regType).steps
  {
    hide Plan;
    res := SortInto(Singles(registers), plugins, regType);
  }

  /** The loop that both modes share: they differ only in the blocks. */
  method SortInto(blocks: seq<seq<int>>, plugins: seq<Plugin>, regType: RegType) returns (res: seq<ReadStep>)
    requires NonEmpty(blocks)
    ensures res == Plan(blocks, plugins, regType).steps
  {
    hide Taken, Rest;
    var values := plugins;
    res := [];
    assert blocks[..0] == [];
    for k := 0 to |blocks|
      invariant NonEmpty(blocks[..k])
      invariant Plan(blocks[..k], plugins, regType) == Planned(res, values)
    {
      var reg := blocks[k];
      PlanLast(blocks[..k], reg, plugins, regType);
      assert blocks[..k + 1] == blocks[..k] + [reg];
      var step := NewStep(reg[0], |reg|, regType);
      assert step.values + Taken(values, reg) == Taken(values, reg);
      step, values := TakeMatching(step, values, reg);
      res := res + [step];
    }
    assert blocks[..|blocks|] == blocks;
  }
}
