/** What one tag's cache remembers and what it sends to the database, on an unbounded history. */
module HasherSpec {
  import opened Sequences
  import opened Samples

  const STABLE_DELTA: int := 300
  const FAILURE_DELTA: int := 120

  datatype Phase = Normal | InFail | FailReported

  /** `silent` is the silent-duplicate flag: the newest good slot holds a time stamp the database has not seen. */
  datatype Memory = Memory(history: seq<Sample>, phase: Phase, silent: bool, lastEmitted: int)

  datatype Outcome = Outcome(memory: Memory, emitted: seq<Sample>)

  ghost predicate WellFormed(m: Memory) {
    && m.history != []
    && (m.phase != Normal ==> |m.history| >= 2 && Last(m.history).val == Failed)
  }

  function Start(first: Sample): Memory {
    Memory([first], Normal, false, first.ts)
  }

  /** What goes to the database when `x` closes the slot before it. */
  function Closing(m: Memory, previous: Sample, x: Sample): seq<Sample> {
    if m.silent then [previous, x] else [x]
  }

  function AddNormal(m: Memory, x: Sample): Outcome
    requires m.history != []
  {
    var last := Last(m.history);
    if last.val != x.val then
      Outcome(Memory(m.history + [x], Normal, false, x.ts), Closing(m, last, x))
    else if x.ts - m.lastEmitted > STABLE_DELTA then
      Outcome(Memory(m.history + [x], Normal, false, x.ts), [x])
    else
      Outcome(Memory(Front(m.history) + [x], Normal, true, m.lastEmitted), [])
  }

  function AddFail(m: Memory, x: Sample): Outcome
    requires WellFormed(m)
  {
    match m.phase
    case FailReported => Outcome(m, [])
    case Normal => Outcome(m.(history := m.history + [x], phase := InFail), [])
    case InFail =>
      if x.ts - Last(m.history).ts > FAILURE_DELTA then
        Outcome(Memory(Front(m.history) + [x], FailReported, false, m.lastEmitted),
                Closing(m, m.history[|m.history| - 2], x))
      else
        Outcome(m, [])
  }

  function Add(m: Memory, x: Sample): (r: Outcome)
    requires WellFormed(m)
    ensures WellFormed(r.memory)
  {
    if x.val == Failed then AddFail(m, x)
    else match m.phase
      case Normal => AddNormal(m, x)
      case InFail => AddNormal(m.(history := Front(m.history), phase := Normal), x)
      case FailReported => Outcome(Memory(m.history + [x], Normal, false, x.ts), [x])
  }

  /** The memory and the complete log after a run: the first sample creates the cache, the others are added. */
  datatype Trace = Trace(memory: Memory, log: seq<Sample>)

  function Run(inputs: seq<Sample>): (r: Trace)
    requires inputs != []
    ensures WellFormed(r.memory)
  {
    if |inputs| == 1 then Trace(Start(inputs[0]), inputs)
    else
      var before := Run(Front(inputs));
      var step := Add(before.memory, Last(inputs));
      Trace(step.memory, before.log + step.emitted)
  }

  /** The history without a failure slot that is still waiting to be confirmed. */
  function Settled(m: Memory): seq<Sample> {
    if m.phase == InFail && m.history != [] then Front(m.history) else m.history
  }
}
