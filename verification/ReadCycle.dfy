/** One polling cycle of a device: each request is repeated until it is answered, refused or given up. */
module ReadCycle {
  import opened Sequences
  import opened Events
  import opened Plugins
  import opened ReadPlanner
  import opened PlanMeaning
  import opened DevicePool

  // ----- What the network can answer -----

  datatype ExceptionCode =
    | IllegalFunction | IllegalDataAddress | IllegalDataValue | MemoryParityError | ServerDeviceBusy | Acknowledge
    | ServerDeviceFailure | GatewayPathUnavailable | GatewayTargetDevice | OtherException

  datatype ErrorKind =
    | ConnectionRefused | ConnectionReset | HostUnreachable | NetworkUnreachable | ConnectionAborted | NotConnected
    | BrokenPipe | TimedOut | NetworkDown | OtherKind

  datatype NetResult =
    | Elapsed
    | Answer(words: seq<Word>)
    | Exception(code: ExceptionCode)
    | Transport(kind: ErrorKind)
    | FunctionCodeMismatch
    | HeaderMismatch

  datatype Outcome = Words(words: seq<Word>) | Timeout | DeviceProtocolError | SocketFail | RemoveStep | WrongHeader

  function Classify(r: NetResult): Outcome {
    match r
    case Answer(words) => Words(words)
    case Elapsed => Timeout
    case Exception(code) =>
      if code.IllegalFunction? || code.IllegalDataAddress? then RemoveStep
      else if code.ServerDeviceFailure? || code.GatewayPathUnavailable? || code.GatewayTargetDevice? then SocketFail
      else Timeout
    case Transport(kind) => if kind.OtherKind? then Timeout else SocketFail
    case FunctionCodeMismatch => DeviceProtocolError
    case HeaderMismatch => WrongHeader
  }

  predicate Retryable(o: Outcome) {
    o.Timeout? || o.DeviceProtocolError?
  }

  /** The answer to each try of each request of a cycle. */
  type Network = (nat, nat) -> NetResult

  function Answers(net: Network, k: nat): nat -> Outcome {
    (t: nat) => Classify(net(k, t))
  }

  // ----- One request -----

  datatype StepEnd = Read(words: seq<Word>) | GaveUp | Refused | Lost | Mismatched(late: bool)

  /** What an answer that is not retried means, if it comes on try `t`. */
  function EndOf(o: Outcome, t: nat): StepEnd
    requires !Retryable(o)
  {
    match o
    case Words(words) => Read(words)
    case SocketFail => Lost
    case RemoveStep => Refused
    case WrongHeader => Mismatched(t > 0)
  }

  /** A signed count that is reinterpreted as an unsigned 64-bit one. */
  function RetryLimit(retryCount: int): nat {
    retryCount % 0x1_0000_0000_0000_0000
  }

  /** A count that is not negative is the limit itself; a negative one is as good as no limit. */
  lemma RetryLimitExactly(retryCount: int)
    ensures 0 <= retryCount < 0x1_0000_0000_0000_0000 ==> RetryLimit(retryCount) == retryCount
    ensures -0x8000_0000 <= retryCount < 0 ==> RetryLimit(retryCount) == 0x1_0000_0000_0000_0000 + retryCount
  {
  }

  datatype Tried = Tried(end: StepEnd, tries: nat)

  function RunStep(answer: nat -> Outcome, limit: nat, t: nat): Tried
    decreases if t < limit then limit - t else 0
  {
    if !Retryable(answer(t)) then Tried(EndOf(answer(t), t), t + 1)
    else if t + 1 >= limit then Tried(GaveUp, t + 1)
    else RunStep(answer, limit, t + 1)
  }

  function MaxTries(limit: nat): nat {
    if limit == 0 then 1 else limit
  }

  /**
    A request is sent at least once and at most `max(1, limit)` times; every answer but the last one was retryable,
    and the last one decides, unless all tries are used up.
  */
  lemma {:induction false} TriesBounded(answer: nat -> Outcome, limit: nat, t: nat)
    requires t < MaxTries(limit)
    ensures var r := RunStep(answer, limit, t);
            && t < r.tries <= MaxTries(limit)
            && (forall i :: t <= i < r.tries - 1 ==> Retryable(answer(i)))
            && if Retryable(answer(r.tries - 1)) then r == Tried(GaveUp, MaxTries(limit)) else r.end == EndOf(answer(r.tries - 1), r.tries - 1)
    decreases MaxTries(limit) - t
  {
    if Retryable(answer(t)) && t + 1 < limit {
      TriesBounded(answer, limit, t + 1);
    }
  }

  /** The last answer, read off the network, decides: what breaks a step, what ends the cycle and what is retried. */
  lemma StepEndMeans(net: Network, k: nat, limit: nat)
    ensures var r := RunStep(Answers(net, k), limit, 0);
            && 1 <= r.tries <= MaxTries(limit)
            && var last := net(k, r.tries - 1);
            && (r.end.Read? <==> last.Answer?)
            && (r.end.Refused? <==> last == Exception(IllegalFunction) || last == Exception(IllegalDataAddress))
            && (r.end.Lost? <==>
                  || (last.Transport? && last.kind != OtherKind)
                  || (last.Exception? && last.code in {ServerDeviceFailure, GatewayPathUnavailable, GatewayTargetDevice}))
            && (r.end.Mismatched? <==> last == HeaderMismatch)
            && (r.end.Mismatched? ==> r.end.late == (r.tries > 1))
            && (r.end.GaveUp? ==> r.tries == MaxTries(limit))
  {
    TriesBounded(Answers(net, k), limit, 0);
    hide RunStep;
  }

  // ----- A cycle -----

  datatype CycleEnd = Completed | Disconnected | Mismatch(late: bool)

  /** The steps as the cycle leaves them, the measures and failures it has collected, and how it ended. */
  datatype Cycle = Cycle(steps: seq<ReadStep>, measures: seq<Option<ModbusMeasure>>, failed: nat, end: CycleEnd)

  /** The measures of an answered step; nothing for a plugin with a position outside of the answer. */
  function GetValues(step: ReadStep, words: seq<Word>, ts: int): seq<Option<ModbusMeasure>> {
    Map((p: Plugin) => GetValue(p, words, ts), step.values)
  }

  function FailAll(step: ReadStep, ts: int): seq<Option<ModbusMeasure>> {
    Map((p: Plugin) => Some(Fail(p, ts)), step.values)
  }

  /** How a step ends that is not yet broken. */
  function Ended(c: Cycle, step: ReadStep, end: StepEnd, ts: int): Cycle {
    match end
    case Read(words) => c.(steps := c.steps + [step], measures := c.measures + GetValues(step, words, ts))
    case GaveUp => c.(steps := c.steps + [step], measures := c.measures + FailAll(step, ts), failed := c.failed + 1)
    case Refused => c.(steps := c.steps + [step.(broken := true)], measures := c.measures + FailAll(step, ts), failed := c.failed + 1)
    case Lost => c.(steps := c.steps + [step], end := Disconnected)
    case Mismatched(late) => c.(steps := c.steps + [step], end := Mismatch(late))
  }

  function Visit(c: Cycle, step: ReadStep, answer: nat -> Outcome, limit: nat, ts: int): Cycle {
    if !c.end.Completed? then c.(steps := c.steps + [step])
    else if step.broken then c.(steps := c.steps + [step], failed := c.failed + 1)
    else Ended(c, step, RunStep(answer, limit, 0).end, ts)
  }

  /** The cycle over all steps in order; `times(k)` is the clock when step `k` collects its measures. */
  function RunCycle(steps: seq<ReadStep>, net: Network, limit: nat, times: nat -> int): (c: Cycle)
    ensures |c.steps| == |steps|
  {
    if steps == [] then Cycle([], [], 0, Completed)
    else Visit(RunCycle(Front(steps), net, limit, times), Last(steps), Answers(net, |steps| - 1), limit, times(|steps| - 1))
  }

  lemma RunCycleLast(steps: seq<ReadStep>, step: ReadStep, net: Network, limit: nat, times: nat -> int)
    ensures RunCycle(steps + [step], net, limit, times)
         == Visit(RunCycle(steps, net, limit, times), step, Answers(net, |steps|), limit, times(|steps|))
  {
    assert Front(steps + [step]) == steps;
  }

  predicate CutsShort(end: StepEnd) {
    end.Lost? || end.Mismatched?
  }

  /** No request of an unbroken step before step `k` loses the connection or gets a wrong header. */
  ghost predicate Reached(steps: seq<ReadStep>, net: Network, limit: nat, k: nat)
    requires k <= |steps|
  {
    forall j :: 0 <= j < k && !steps[j].broken ==> !CutsShort(RunStep(Answers(net, j), limit, 0).end)
  }

  lemma ReachedFront(steps: seq<ReadStep>, net: Network, limit: nat)
    requires steps != []
    ensures forall k :: 0 <= k < |steps| ==> Reached(steps, net, limit, k) == Reached(Front(steps), net, limit, k)
  {
    hide RunStep, Answers, CutsShort;
    forall k | 0 <= k < |steps| ensures Reached(steps, net, limit, k) == Reached(Front(steps), net, limit, k) {
      assert forall j :: 0 <= j < k ==> Front(steps)[j] == steps[j];
    }
  }

  /** The request that cuts the cycle short. */
  ghost predicate FirstCut(steps: seq<ReadStep>, net: Network, limit: nat, k: nat) {
    k < |steps| && !steps[k].broken && Reached(steps, net, limit, k) && CutsShort(RunStep(Answers(net, k), limit, 0).end)
  }

  /**
    A cycle completes if and only if no request cuts it short; otherwise the first one that does decides how it ends,
    and a wrong header is late exactly if it was not the answer to the first try.
  */
  lemma {:induction false} CycleEnds(steps: seq<ReadStep>, net: Network, limit: nat, times: nat -> int)
    ensures RunCycle(steps, net, limit, times).end.Completed? <==> Reached(steps, net, limit, |steps|)
    ensures forall k :: FirstCut(steps, net, limit, k) ==>
              var r := RunStep(Answers(net, k), limit, 0);
              RunCycle(steps, net, limit, times).end == if r.end.Lost? then Disconnected else Mismatch(r.tries > 1)
  {
    if steps != [] {
      var p, n := Front(steps), |steps| - 1;
      TriesBounded(Answers(net, n), limit, 0);
      hide RunStep;
      CycleEnds(p, net, limit, times);
      assert forall k :: 0 <= k < n ==> p[k] == steps[k];
      forall k | FirstCut(steps, net, limit, k) ensures k == n || FirstCut(p, net, limit, k) {
      }
    }
  }

  /** A cycle that has been cut short stays so. */
  lemma {:induction false} CutShort(steps: seq<ReadStep>, n: nat, net: Network, limit: nat, times: nat -> int)
    requires n <= |steps| && !RunCycle(steps[..n], net, limit, times).end.Completed?
    ensures RunCycle(steps, net, limit, times)
         == RunCycle(steps[..n], net, limit, times).(steps := RunCycle(steps[..n], net, limit, times).steps + steps[n..])
  {
    if n == |steps| {
      assert steps[..n] == steps;
    } else {
      assert Front(steps)[..n] == steps[..n] && steps[n..] == Front(steps)[n..] + [Last(steps)];
      CutShort(Front(steps), n, net, limit, times);
    }
  }

  // ----- Accounting -----

  predicate Answered(step: ReadStep, answer: nat -> Outcome, limit: nat) {
    !step.broken && RunStep(answer, limit, 0).end.Read?
  }

  function StatusOf(failed: nat, total: nat): DeviceState {
    if failed == 0 then Full else if failed == total then Failed else SomePart
  }

  ghost predicate AllAnswered(steps: seq<ReadStep>, net: Network, limit: nat) {
    forall k :: 0 <= k < |steps| ==> Answered(steps[k], Answers(net, k), limit)
  }

  ghost predicate NoneAnswered(steps: seq<ReadStep>, net: Network, limit: nat) {
    forall k :: 0 <= k < |steps| ==> !Answered(steps[k], Answers(net, k), limit)
  }

  lemma LastAnswered(steps: seq<ReadStep>, step: ReadStep, net: Network, limit: nat)
    ensures var answered := Answered(step, Answers(net, |steps|), limit);
            && AllAnswered(steps + [step], net, limit) == (AllAnswered(steps, net, limit) && answered)
            && NoneAnswered(steps + [step], net, limit) == (NoneAnswered(steps, net, limit) && !answered)
  {
    hide Answered, Answers;
    assert (steps + [step])[|steps|] == step;
    assert forall k :: 0 <= k < |steps| ==> (steps + [step])[k] == steps[k];
  }

  lemma VisitCounts(c: Cycle, step: ReadStep, answer: nat -> Outcome, limit: nat, ts: int)
    ensures var d := Visit(c, step, answer, limit, ts);
            && d.failed <= c.failed + 1
            && (d.end.Completed? ==> c.end.Completed? && d.failed == c.failed + if Answered(step, answer, limit) then 0 else 1)
  {
    hide RunStep;
  }

  lemma {:induction false} FailuresCounted(steps: seq<ReadStep>, net: Network, limit: nat, times: nat -> int)
    ensures var c := RunCycle(steps, net, limit, times);
            && c.failed <= |steps|
            && (c.end.Completed? ==> (c.failed == 0 <==> AllAnswered(steps, net, limit)))
            && (c.end.Completed? ==> (c.failed == |steps| <==> NoneAnswered(steps, net, limit)))
  {
    if steps != [] {
      var p, n := Front(steps), |steps| - 1;
      FrontLast(steps);
      VisitCounts(RunCycle(p, net, limit, times), Last(steps), Answers(net, n), limit, times(n));
      hide Visit, Answered, RunStep, Answers, AllAnswered, NoneAnswered;
      FailuresCounted(p, net, limit, times);
      LastAnswered(p, Last(steps), net, limit);
    }
  }

  /** The report of a completed cycle says what was answered. */
  lemma StatusMeaning(steps: seq<ReadStep>, net: Network, limit: nat, times: nat -> int)
    requires RunCycle(steps, net, limit, times).end.Completed?
    ensures var status := StatusOf(RunCycle(steps, net, limit, times).failed, |steps|);
            && (status == Full <==> AllAnswered(steps, net, limit))
            && (status == Failed <==> steps != [] && NoneAnswered(steps, net, limit))
  {
    hide RunCycle, Answered;
    FailuresCounted(steps, net, limit, times);
  }

  /** The positions of the plugin lie inside the answer of its step. */
  predicate Inside(p: Plugin, length: nat) {
    p.pos < length && (p.decoder.Satec? ==> p.loPos < length)
  }

  ghost predicate AllInside(steps: seq<ReadStep>) {
    forall k, p :: 0 <= k < |steps| && p in steps[k].values ==> Inside(p, steps[k].length)
  }

  /** A successful read of `length` registers returns as many words. */
  ghost predicate FullAnswers(net: Network, steps: seq<ReadStep>) {
    forall k: nat, t: nat :: k < |steps| && net(k, t).Answer? ==> |net(k, t).words| == steps[k].length
  }

  /** Whose measure it is, when it was taken, and whether there is a value in it. */
  datatype Receipt = Receipt(id: int, tag: string, isLogging: bool, time: int, readable: bool)

  function ReceiptOf(m: Option<ModbusMeasure>): Option<Receipt> {
    if m.None? then None
    else Some(Receipt(m.value.id, m.value.tag, m.value.isLogging, m.value.time, m.value.value != Unreadable))
  }

  /** One receipt for every plugin of the step. */
  function Receipts(step: ReadStep, time: int, readable: bool): seq<Option<Receipt>> {
    Map((p: Plugin) => Some(Receipt(p.id, p.tag, p.isLogging, time, readable)), step.values)
  }

  /** What a cycle owes: a receipt per plugin of every step that was not broken before, readable if the step is answered. */
  function Owed(steps: seq<ReadStep>, net: Network, limit: nat, times: nat -> int): seq<Option<Receipt>> {
    if steps == [] then []
    else
      var k := |steps| - 1;
      Owed(Front(steps), net, limit, times)
      + if Last(steps).broken then [] else Receipts(Last(steps), times(k), Answered(Last(steps), Answers(net, k), limit))
  }

  lemma ValuesReceipts(step: ReadStep, words: seq<Word>, ts: int)
    requires |words| == step.length && forall p :: p in step.values ==> Inside(p, step.length)
    ensures Map(ReceiptOf, GetValues(step, words, ts)) == Receipts(step, ts, true)
  {
    hide Signed16, Pow2;
    forall i | 0 <= i < |step.values|
      ensures ReceiptOf(GetValue(step.values[i], words, ts)) == Receipts(step, ts, true)[i]
    {
      assert Inside(step.values[i], step.length);
    }
  }

  /** What one visited step adds to the measures. */
  lemma StepReceipts(c: Cycle, step: ReadStep, answer: nat -> Outcome, limit: nat, ts: int)
    requires forall p :: p in step.values ==> Inside(p, step.length)
    requires forall t :: answer(t).Words? ==> |answer(t).words| == step.length
    requires Visit(c, step, answer, limit, ts).end.Completed?
    ensures c.end.Completed?
    ensures Map(ReceiptOf, Visit(c, step, answer, limit, ts).measures)
         == Map(ReceiptOf, c.measures) + if step.broken then [] else Receipts(step, ts, Answered(step, answer, limit))
  {
    TriesBounded(answer, limit, 0);
    var r := RunStep(answer, limit, 0);
    hide RunStep, GetValues;
    if !step.broken && r.end.Read? {
      assert answer(r.tries - 1) == Words(r.end.words);
      ValuesReceipts(step, r.end.words, ts);
      MapJoin(ReceiptOf, c.measures, GetValues(step, r.end.words, ts));
    } else {
      assert Map(ReceiptOf, FailAll(step, ts)) == Receipts(step, ts, false);
      MapJoin(ReceiptOf, c.measures, FailAll(step, ts));
    }
  }

  /**
    In a completed cycle every step that was not broken before gives exactly one measure per plugin, in the order of
    steps and plugins and at the step's own time, with a value if and only if the step was answered.
  */
  lemma {:induction false} MeasuresAccounted(steps: seq<ReadStep>, net: Network, limit: nat, times: nat -> int)
    requires AllInside(steps) && FullAnswers(net, steps)
    requires RunCycle(steps, net, limit, times).end.Completed?
    ensures Map(ReceiptOf, RunCycle(steps, net, limit, times).measures) == Owed(steps, net, limit, times)
  {
    if steps != [] {
      var p, step, k := Front(steps), Last(steps), |steps| - 1;
      var answer, before := Answers(net, k), RunCycle(p, net, limit, times);
      assert AllInside(p) && FullAnswers(net, p) by {
        assert forall i :: 0 <= i < k ==> p[i] == steps[i];
      }
      assert forall t :: answer(t).Words? ==> |answer(t).words| == step.length;
      assert step == steps[k];
      hide Visit, Inside, FullAnswers, AllInside, Answered, Receipts;
      StepReceipts(before, step, answer, limit, times(k));
      MeasuresAccounted(p, net, limit, times);
    }
  }

  // ----- Broken steps -----

  /** The step after a cycle that reaches it or not, and in which it is refused or not. */
  function Worn(step: ReadStep, refused: bool): ReadStep {
    if refused then step.(broken := true) else step
  }

  ghost predicate RefusedIn(steps: seq<ReadStep>, net: Network, limit: nat, k: nat)
    requires k < |steps|
  {
    Reached(steps, net, limit, k) && RunStep(Answers(net, k), limit, 0).end == Refused
  }

  lemma VisitWears(c: Cycle, step: ReadStep, answer: nat -> Outcome, limit: nat, ts: int)
    ensures Visit(c, step, answer, limit, ts).steps
         == c.steps + [Worn(step, c.end.Completed? && RunStep(answer, limit, 0).end == Refused)]
  {
    hide RunStep;
  }

  /** A cycle changes nothing in the steps but that those it reaches become broken if they are refused, and repairs none. */
  lemma {:induction false} OnlyBreaks(steps: seq<ReadStep>, net: Network, limit: nat, times: nat -> int)
    ensures forall k :: 0 <= k < |steps| ==> RunCycle(steps, net, limit, times).steps[k] == Worn(steps[k], RefusedIn(steps, net, limit, k))
  {
    if steps != [] {
      var p, n := Front(steps), |steps| - 1;
      var before, c := RunCycle(p, net, limit, times), RunCycle(steps, net, limit, times);
      FrontLast(steps);
      RunCycleLast(p, Last(steps), net, limit, times);
      VisitWears(before, Last(steps), Answers(net, n), limit, times(n));
      assert c.steps == before.steps + [Worn(Last(steps), before.end.Completed? && RunStep(Answers(net, n), limit, 0).end == Refused)];
      hide *;
      OnlyBreaks(p, net, limit, times);
      forall k | 0 <= k < |steps| ensures c.steps[k] == Worn(steps[k], RefusedIn(steps, net, limit, k)) {
        if k < n {
          FrontRefused(steps, net, limit, k);
        } else {
          LastRefused(steps, net, limit, times);
        }
      }
    }
  }

  lemma FrontRefused(steps: seq<ReadStep>, net: Network, limit: nat, k: nat)
    requires k < |steps| - 1
    ensures Front(steps)[k] == steps[k] && RefusedIn(steps, net, limit, k) == RefusedIn(Front(steps), net, limit, k)
  {
    hide RunStep, Answers, Reached;
    ReachedFront(steps, net, limit);
  }

  lemma LastRefused(steps: seq<ReadStep>, net: Network, limit: nat, times: nat -> int)
    requires steps != []
    ensures Last(steps) == steps[|steps| - 1]
    ensures RefusedIn(steps, net, limit, |steps| - 1)
         == (RunCycle(Front(steps), net, limit, times).end.Completed? && RunStep(Answers(net, |steps| - 1), limit, 0).end == Refused)
  {
    hide RunCycle, RunStep, Answers, Reached;
    ReachedFront(steps, net, limit);
    CycleEnds(Front(steps), net, limit, times);
  }

  datatype Conditions = Conditions(net: Network, times: nat -> int)

  /** The steps after any number of cycles. */
  ghost function After(steps: seq<ReadStep>, run: seq<Conditions>, limit: nat): (r: seq<ReadStep>)
    ensures |r| == |steps|
  {
    if |run| == 0 then steps else RunCycle(After(steps, Front(run), limit), Last(run).net, limit, Last(run).times).steps
  }

  /** A device with a broken step is never reported as fully read again. */
  lemma {:induction false} NeverFullAgain(steps: seq<ReadStep>, k: nat, run: seq<Conditions>, limit: nat, net: Network, times: nat -> int)
    requires k < |steps| && steps[k].broken
    ensures After(steps, run, limit)[k].broken
    ensures var c := RunCycle(After(steps, run, limit), net, limit, times);
            c.end.Completed? ==> StatusOf(c.failed, |steps|) != Full
  {
    hide RunCycle, RunStep;
    if |run| > 0 {
      NeverFullAgain(steps, k, Front(run), limit, net, times);
      OnlyBreaks(After(steps, Front(run), limit), Last(run).net, limit, Last(run).times);
    }
    if RunCycle(After(steps, run, limit), net, limit, times).end.Completed? {
      StatusMeaning(After(steps, run, limit), net, limit, times);
    }
  }

  // ----- Planned steps reach only into their own answers -----

  ghost predicate Short(blocks: seq<seq<int>>) {
    forall g :: g in blocks ==> |g| < 65536
  }

  lemma {:induction false} PlannedInside(blocks: seq<seq<int>>, values: seq<Plugin>, regType: RegType)
    requires NonEmpty(blocks) && NotInit(values, regType) && Short(blocks)
    ensures AllInside(Plan(blocks, values, regType).steps)
  {
    if blocks != [] {
      var g, p := Last(blocks), Front(blocks);
      FrontLast(blocks);
      hide *;
      LastShort(p, g);
      PlanLast(p, g, values, regType);
      PlannedInside(p, values, regType);
      LeftMembers(p, values, regType);
      StepInside(Plan(p, values, regType).left, g, regType);
      InsideJoin(Plan(p, values, regType).steps, [NewStep(g[0], |g|, regType).(values := Taken(Plan(p, values, regType).left, g))]);
    }
  }

  lemma LastShort(blocks: seq<seq<int>>, g: seq<int>)
    requires NonEmpty(blocks + [g]) && Short(blocks + [g])
    ensures NonEmpty(blocks) && g != [] && Short(blocks) && |g| < 65536
  {
    assert (blocks + [g])[|blocks|] == g;
    assert forall i :: 0 <= i < |blocks| ==> (blocks + [g])[i] == blocks[i];
  }

  lemma StepInside(values: seq<Plugin>, g: seq<int>, regType: RegType)
    requires NotInit(values, regType) && g != [] && |g| < 65536
    ensures AllInside([NewStep(g[0], |g|, regType).(values := Taken(values, g))])
  {
    hide Taken, Inside;
    TakenInside(values, g, regType);
  }

  lemma TakenInside(values: seq<Plugin>, g: seq<int>, regType: RegType)
    requires NotInit(values, regType)
    ensures forall q :: q in Taken(values, g) ==> Inside(q, |g|)
  {
    TakenMembers(values, g);
    hide Taken;
    forall q | q in Taken(values, g) ensures Inside(q, |g|) {
      var v :| v in values && Finds(v, g) && q == Located(v, g);
      LocatedInside(v, g);
    }
  }

  lemma LocatedInside(v: Plugin, g: seq<int>)
    requires Finds(v, g)
    ensures Inside(Located(v, g), |g|)
  {
    match v.decoder
    case Satec(hi, lo, _, _) => assert hi in Registers(v.decoder) && lo in Registers(v.decoder);
    case Shift(addr, _) => assert addr in Registers(v.decoder);
    case Bit(addr, _) => assert addr in Registers(v.decoder);
  }

  /** No request is asked to span 65536 registers or more. */
  ghost predicate ShortRequests(values: seq<ValueRead>) {
    forall t :: |Asked(values, t)| < 65536
  }

  lemma TypeInside(values: seq<ValueRead>, regType: RegType, byGroup: bool)
    requires ShortRequests(values)
    ensures AllInside(StepsOf(values, regType, byGroup).steps)
  {
    var units := UnitsOf(values, regType);
    assert |Asked(values, regType)| < 65536;
    RegistersAsked(values, regType);
    hide Plan, UnitsOf, AllInside, NotInit;
    UnitsListed(values, regType);
    if byGroup {
      GroupsShort(units.registers);
      PlannedInside(RegisterGroups.Groups(RegisterGroups.Sort(units.registers)), units.values, regType);
    } else {
      PlannedInside(Singles(units.registers), units.values, regType);
    }
  }

  lemma GroupsShort(registers: seq<int>)
    requires |registers| < 65536
    ensures NonEmpty(RegisterGroups.Groups(RegisterGroups.Sort(registers)))
    ensures Short(RegisterGroups.Groups(RegisterGroups.Sort(registers)))
  {
    var s := RegisterGroups.Sort(registers);
    GroupsNonEmpty(s);
    SortMembers(registers);
    RegisterGroups.GroupsConcat(s);
    hide RegisterGroups.Groups, RegisterGroups.Sort;
    forall g | g in RegisterGroups.Groups(s) ensures |g| < 65536 {
      WithinConcat(RegisterGroups.Groups(s), g);
    }
  }

  /** Cycles change nothing in the steps but whether they are broken. */
  lemma {:induction false} SameButBroken(steps: seq<ReadStep>, run: seq<Conditions>, limit: nat)
    ensures forall k :: 0 <= k < |steps| ==> After(steps, run, limit)[k] == steps[k].(broken := After(steps, run, limit)[k].broken)
  {
    hide RunCycle, RunStep, RefusedIn;
    if |run| > 0 {
      SameButBroken(steps, Front(run), limit);
      OnlyBreaks(After(steps, Front(run), limit), Last(run).net, limit, Last(run).times);
    }
  }

  lemma InsideKept(steps: seq<ReadStep>, run: seq<Conditions>, limit: nat)
    requires AllInside(steps)
    ensures AllInside(After(steps, run, limit))
  {
    hide Inside, After;
    SameButBroken(steps, run, limit);
  }

  /**
    Over the whole life of a device: after any cycles under any conditions, a completed cycle accounts for
    exactly the plugins of the steps that have not been refused so far.
  */
  lemma {:induction false} DeviceAccounted(values: seq<ValueRead>, byGroup: bool, run: seq<Conditions>, limit: nat, net: Network, times: nat -> int)
    requires ShortRequests(values)
    requires FullAnswers(net, After(DeviceSteps(values, byGroup), run, limit))
    requires RunCycle(After(DeviceSteps(values, byGroup), run, limit), net, limit, times).end.Completed?
    ensures var steps := After(DeviceSteps(values, byGroup), run, limit);
            Map(ReceiptOf, RunCycle(steps, net, limit, times).measures) == Owed(steps, net, limit, times)
  {
    hide StepsOf, Inside, RunCycle, After, ShortRequests;
    TypeInside(values, Coils, byGroup);
    TypeInside(values, Discrete, byGroup);
    TypeInside(values, Holding, byGroup);
    TypeInside(values, Input, byGroup);
    InsideJoin(StepsOf(values, Coils, byGroup).steps, StepsOf(values, Discrete, byGroup).steps);
    InsideJoin(StepsOf(values, Coils, byGroup).steps + StepsOf(values, Discrete, byGroup).steps, StepsOf(values, Holding, byGroup).steps);
    InsideJoin(StepsOf(values, Coils, byGroup).steps + StepsOf(values, Discrete, byGroup).steps + StepsOf(values, Holding, byGroup).steps,
               StepsOf(values, Input, byGroup).steps);
    hide AllInside;
    InsideKept(DeviceSteps(values, byGroup), run, limit);
    MeasuresAccounted(After(DeviceSteps(values, byGroup), run, limit), net, limit, times);
  }

  lemma InsideJoin(a: seq<ReadStep>, b: seq<ReadStep>)
    requires AllInside(a) && AllInside(b)
    ensures AllInside(a + b)
  {
    hide Inside;
  }

  // ----- Faults that retries overcome -----

  /** Every step is answered from the device's memory before its tries are used up; until then, answers are retryable. */
  ghost predicate AnsweredInTime(net: Network, steps: seq<ReadStep>, limit: nat, memory: Memory) {
    forall k :: 0 <= k < |steps| ==> InTime(Answers(net, k), limit, ReadWords(memory, steps[k]))
  }

  ghost predicate InTime(answer: nat -> Outcome, limit: nat, words: seq<Word>) {
    exists t: nat :: t < MaxTries(limit) && answer(t) == Words(words) && forall i: nat :: i < t ==> Retryable(answer(i))
  }

  lemma InTimeReads(answer: nat -> Outcome, limit: nat, words: seq<Word>)
    requires InTime(answer, limit, words)
    ensures RunStep(answer, limit, 0).end == Read(words)
  {
    TriesBounded(answer, limit, 0);
    hide RunStep;
    var t: nat :| t < MaxTries(limit) && answer(t) == Words(words) && forall i: nat :: i < t ==> Retryable(answer(i));
    var last := RunStep(answer, limit, 0).tries - 1;
    assert !Retryable(answer(t));
    var o := answer(last);
    assert last < t ==> Retryable(o);
  }

  /** The cycle then completes, and measures what a poll without any fault measures. */
  lemma {:induction false} CycleDecodes(steps: seq<ReadStep>, net: Network, limit: nat, times: nat -> int, memory: Memory)
    requires AnsweredInTime(net, steps, limit, memory) && forall s :: s in steps ==> !s.broken
    ensures var c := RunCycle(steps, net, limit, times);
            && c.end == Completed && c.failed == 0 && c.steps == steps
            && Map(Untimed, c.measures) == Poll(steps, memory, times)
  {
    if steps != [] {
      var p, step, k := Front(steps), Last(steps), |steps| - 1;
      assert forall i :: 0 <= i < k ==> p[i] == steps[i];
      assert step == steps[k] && step in steps;
      hide RunStep, InTime, GetValue, ReadWords, Untimed, Answers;
      CycleDecodes(p, net, limit, times, memory);
      InTimeReads(Answers(net, k), limit, ReadWords(memory, step));
      assert GetValues(step, ReadWords(memory, step), times(k)) == PollStep(step, memory, times(k));
      MapJoin(Untimed, RunCycle(p, net, limit, times).measures, PollStep(step, memory, times(k)));
      FrontLast(steps);
    }
  }

  lemma {:induction false} PlannedWhole(blocks: seq<seq<int>>, values: seq<Plugin>, regType: RegType)
    requires NonEmpty(blocks)
    ensures forall s :: s in Plan(blocks, values, regType).steps ==> !s.broken
  {
    if blocks != [] {
      hide Taken, Rest;
      PlannedWhole(Front(blocks), values, regType);
    }
  }

  lemma StepsWhole(values: seq<ValueRead>, regType: RegType, byGroup: bool)
    ensures forall s :: s in StepsOf(values, regType, byGroup).steps ==> !s.broken
  {
    hide Plan;
    var units := UnitsOf(values, regType);
    GroupsNonEmpty(RegisterGroups.Sort(units.registers));
    PlannedWhole(RegisterGroups.Groups(RegisterGroups.Sort(units.registers)), units.values, regType);
    PlannedWhole(Singles(units.registers), units.values, regType);
  }

  /**
    From configuration to report: whatever faults retries overcome, a cycle of a freshly planned device reports
    `Full`, with exactly one measure for every configured value that its mode serves, read as from the device's own memory.
  */
  lemma {:induction false} DeviceCycleComplete(values: seq<ValueRead>, byGroup: bool, net: Network, limit: nat, times: nat -> int, memory: Memory)
    requires forall t :: Addressed(values, t, byGroup)
    requires AnsweredInTime(net, DeviceSteps(values, byGroup), limit, memory)
    ensures var steps := DeviceSteps(values, byGroup);
            var c := RunCycle(steps, net, limit, times);
            && c.end == Completed && StatusOf(c.failed, |steps|) == Full
            && multiset(Map(Untimed, c.measures)) == multiset(Map(HeldFor(memory), Readable(values, values, byGroup)))
  {
    StepsWhole(values, Coils, byGroup);
    StepsWhole(values, Discrete, byGroup);
    StepsWhole(values, Holding, byGroup);
    StepsWhole(values, Input, byGroup);
    hide StepsOf, RunCycle, AnsweredInTime, Poll, Addressed, Readable;
    CycleDecodes(DeviceSteps(values, byGroup), net, limit, times, memory);
    DevicePollComplete(values, byGroup, memory, times);
  }
}
