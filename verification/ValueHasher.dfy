/** The deduplicating cache of one tag: a ring of samples, overwritten in place. */
module ValueHasherUnit {
  import opened Sequences
  import opened Samples
  import opened HasherSpec
  import opened RingBuffer
  import opened SignalTiming

  class ValueHasher {
    const capacity: nat
    const slots: array<Sample>
    var current: nat
    var head: nat
    var tail: nat
    var ringFinished: bool
    var silent: bool
    var phase: Phase
    var lastEmitted: int
    /** Everything this cache was ever given, everything it ever sent out, and the memory it stands for. */
    ghost var inputs: seq<Sample>
    ghost var log: seq<Sample>
    ghost var memory: Memory

    function Position(): Cursor
      reads this`current, this`head, this`tail, this`ringFinished
    {
      Cursor(current, head, tail, ringFinished)
    }

    /** The fields without the ghosts mean `m`. */
    ghost predicate Holds(m: Memory)
      reads this`current, this`head, this`tail, this`ringFinished, this`silent, this`phase, this`lastEmitted, slots
    {
      && slots.Length == capacity
      && Represents(slots[..], Position(), m.history)
      && (phase != Normal ==> Packed(Position(), capacity))
      && m == Memory(m.history, phase, silent, lastEmitted)
    }

    /** The fields mean what the unbounded specification holds after the same inputs. */
    ghost predicate Valid()
      reads this, slots
    {
      && inputs != [] && Run(inputs) == Trace(memory, log)
      && Holds(memory)
    }

    /** The complete history, evicted entries included. */
    ghost function History(): seq<Sample>
      reads this
    {
      memory.history
    }

    /** The live part of the cache, oldest entry first. */
    ghost function Live(): seq<Sample>
      requires Valid()
      reads this, slots
    {
      Window(slots[..], head, tail)
    }

    constructor (capacity: nat, first: Sample)
      requires capacity >= 2
      ensures Valid() && fresh(slots) && this.capacity == capacity
      ensures inputs == [first] && log == [first]
    {
      this.capacity := capacity;
      slots := new Sample[capacity](_ => Sample(Measured(0.0), 0));
      current, head, tail, ringFinished := 0, 0, 0, false;
      silent, phase, lastEmitted := false, Normal, first.ts;
      inputs, log, memory := [first], [first], Start(first);
      new;
      slots[0] := first;
      FirstSlot(slots[..], first);
      hide Represents;
    }

    method Advance()
      requires slots.Length == capacity
      modifies this`current, this`ringFinished
      ensures current == if old(ringFinished) then old(current) else old(current) + 1
      ensures ringFinished == (old(ringFinished) || current == capacity)
    {
      if !ringFinished {
        current := current + 1;
        if current == capacity {
          ringFinished := true;
        }
      }
    }

    method GoAhead()
      requires slots.Length == capacity && head < capacity && capacity >= 2
      modifies this`head, this`tail
      ensures head == Wrap(old(head) + 1, capacity)
      ensures tail == if ringFinished then Wrap(head + 1, capacity) else old(tail)
    {
      WrapIsRemainder(head + 1, capacity);
      head := (head + 1) % capacity;
      if ringFinished {
        FullTurn(head + 1, capacity);
        tail := (capacity + head + 1) % capacity;
      }
    }

    /** The tail must not go back with the head: the slot being left has overwritten the oldest entry. */
    method RollBack()
      requires slots.Length == capacity && head < capacity
      modifies this`head
      ensures head == if old(head) == 0 then (if ringFinished then capacity - 1 else 0) else old(head) - 1
    {
      if ringFinished {
        head := if head == 0 then capacity - 1 else head - 1;
      } else {
        if head != 0 { head := head - 1; } else { head := 0; }
      }
    }

    function CurrentVal(): (Option<Sample>, Option<Sample>)
      requires head < slots.Length
      reads this, slots
    {
      (Some(slots[head]), None)
    }

    function CurrentAndPreviousVal(): (Option<Sample>, Option<Sample>)
      requires head < slots.Length && slots.Length == capacity
      reads this, slots
    {
      if head == 0 && !ringFinished then (None, None)
      else
        var prev := if head == 0 && ringFinished then capacity - 1 else head - 1;
        (Some(slots[head]), Some(slots[prev]))
    }

    /** The pair that `add` returns, as the rows that are saved: the older point first. */
    static function Rows(now: Option<Sample>, before: Option<Sample>): seq<Sample> {
      (if before.Some? then [before.value] else []) + (if now.Some? then [now.value] else [])
    }

    /** The three statements with which every new slot is taken. */
    method Append(x: Sample, ghost history: seq<Sample>)
      requires slots.Length == capacity && Represents(slots[..], Position(), history)
      modifies this`current, this`head, this`tail, this`ringFinished, slots
      ensures Represents(slots[..], Position(), history + [x]) && Packed(Position(), capacity)
      ensures head < capacity && slots[head] == x
    {
      hide Represents, Window, Packed;
      Appended(slots[..], Position(), history, x);
      ghost var c, before := Position(), slots[..];
      Advance();
      GoAhead();
      assert Position() == Advanced(c, capacity);
      slots[head] := x;
      assert slots[..] == before[head := x];
    }

    /** Overwrite the time stamp of the newest slot. */
    method Restamp(x: Sample, ghost history: seq<Sample>)
      requires slots.Length == capacity && Represents(slots[..], Position(), history) && Last(history).val == x.val
      modifies slots
      ensures Represents(slots[..], Position(), Front(history) + [x])
    {
      hide Represents, Window, Last, Front;
      NewestTwo(slots[..], Position(), history);
      Restamped(slots[..], Position(), history, x);
      ghost var before := slots[..];
      slots[head] := slots[head].(ts := x.ts);
      assert slots[..] == before[head := x];
    }

    /** The newest point, preceded by the one before it if that was extended silently. */
    method CloseSlot(ghost history: seq<Sample>) returns (now: Option<Sample>, before: Option<Sample>)
      requires slots.Length == capacity && Represents(slots[..], Position(), history)
      requires Packed(Position(), capacity) && |history| >= 2
      modifies this`silent
      ensures !silent
      ensures Rows(now, before) == if old(silent) then [history[|history| - 2], Last(history)] else [Last(history)]
    {
      hide Represents, Window;
      NewestTwo(slots[..], Position(), history);
      if silent {
        silent := false;
        now, before := CurrentAndPreviousVal().0, CurrentAndPreviousVal().1;
      } else {
        now, before := CurrentVal().0, CurrentVal().1;
      }
    }

    method AddNormal(x: Sample, ghost m: Memory) returns (now: Option<Sample>, before: Option<Sample>)
      requires Holds(m) && m.phase == Normal
      modifies this`current, this`head, this`tail, this`ringFinished, this`silent, this`lastEmitted, slots
      ensures Holds(HasherSpec.AddNormal(m, x).memory)
      ensures Rows(now, before) == HasherSpec.AddNormal(m, x).emitted
    {
      hide Represents, Window, Packed, Wrap;
      NewestTwo(slots[..], Position(), m.history);
      now, before := None, None;
      AppendedPair(m.history, x);
      hide Last, Front;
      if slots[head].val == x.val {
        if x.ts - lastEmitted > STABLE_DELTA {
          assert HasherSpec.AddNormal(m, x) == Outcome(Memory(m.history + [x], Normal, false, x.ts), [x]);
          hide HasherSpec.AddNormal;
          Append(x, m.history);
          lastEmitted := x.ts;
          silent := false;
          now, before := CurrentVal().0, CurrentVal().1;
        } else {
          assert HasherSpec.AddNormal(m, x) == Outcome(Memory(Front(m.history) + [x], Normal, true, m.lastEmitted), []);
          hide HasherSpec.AddNormal;
          silent := true;
          Restamp(x, m.history);
        }
      } else {
        assert HasherSpec.AddNormal(m, x) == Outcome(Memory(m.history + [x], Normal, false, x.ts), Closing(m, Last(m.history), x));
        hide HasherSpec.AddNormal;
        Append(x, m.history);
        lastEmitted := x.ts;
        now, before := CloseSlot(m.history + [x]);
      }
    }

    /** The failure slot was noise: give it back and treat the sample as if it had not been there. */
    method AddAfterNoise(x: Sample, ghost m: Memory) returns (now: Option<Sample>, before: Option<Sample>)
      requires Holds(m) && m.phase == InFail && |m.history| >= 2
      modifies this`current, this`head, this`tail, this`ringFinished, this`silent, this`phase, this`lastEmitted, slots
      ensures var m' := m.(history := Front(m.history), phase := Normal);
              Holds(HasherSpec.AddNormal(m', x).memory) && Rows(now, before) == HasherSpec.AddNormal(m', x).emitted
    {
      hide Represents;
      GivenBack(slots[..], Position(), m.history);
      phase := Normal;
      if !ringFinished {
        current := current - 1;
      }
      RollBack();
      now, before := AddNormal(x, m.(history := Front(m.history), phase := Normal));
    }

    method CleanFailReport(x: Sample, ghost m: Memory) returns (now: Option<Sample>, before: Option<Sample>)
      requires Holds(m) && m.phase == FailReported
      modifies this`current, this`head, this`tail, this`ringFinished, this`silent, this`phase, this`lastEmitted, slots
      ensures Holds(Memory(m.history + [x], Normal, false, x.ts)) && Rows(now, before) == [x]
    {
      phase := Normal;
      silent := false;
      Append(x, m.history);
      lastEmitted := x.ts;
      now, before := CurrentVal().0, CurrentVal().1;
    }

    method AddFail(x: Sample, ghost m: Memory) returns (now: Option<Sample>, before: Option<Sample>)
      requires Holds(m) && WellFormed(m) && x.val == Failed
      modifies this`current, this`head, this`tail, this`ringFinished, this`silent, this`phase, slots
      ensures Holds(HasherSpec.AddFail(m, x).memory)
      ensures Rows(now, before) == HasherSpec.AddFail(m, x).emitted
    {
      hide Represents, Window, Packed, Wrap;
      NewestTwo(slots[..], Position(), m.history);
      FailCases(m, x);
      hide HasherSpec.AddFail, Closing, Last, Front;
      now, before := None, None;
      if phase == FailReported {
        return;
      }
      ghost var history := m.history;
      if phase != InFail {
        Append(x, history);
        history := history + [x];
        phase := InFail;
      }
      if x.ts - slots[head].ts > FAILURE_DELTA && phase != FailReported {
        Restamp(x, history);
        phase := FailReported;
        now, before := CloseSlot(Front(history) + [x]);
      }
    }

    /** `add` without the ghosts: the phase and the failure marker choose the branch. */
    method Dispatch(x: Sample, ghost m: Memory) returns (now: Option<Sample>, before: Option<Sample>)
      requires WellFormed(m) && Holds(m)
      modifies this`current, this`head, this`tail, this`ringFinished, this`silent, this`phase, this`lastEmitted, slots
      ensures Holds(HasherSpec.Add(m, x).memory)
      ensures Rows(now, before) == HasherSpec.Add(m, x).emitted
    {
      assert m.phase == phase;
      hide Holds, Rows, HasherSpec.AddNormal, HasherSpec.AddFail;
      if x.val == Failed {
        now, before := AddFail(x, m);
      } else {
        match phase
        case Normal => now, before := AddNormal(x, m);
        case InFail => now, before := AddAfterNoise(x, m);
        case FailReported => now, before := CleanFailReport(x, m);
      }
    }

    method Add(x: Sample) returns (now: Option<Sample>, before: Option<Sample>)
      requires Valid()
      modifies this, slots
      ensures Valid() && inputs == old(inputs) + [x]
      ensures log == old(log) + Rows(now, before)
      ensures Rows(now, before) == HasherSpec.Add(old(memory), x).emitted
    {
      ghost var m := memory;
      hide Run, Holds, Rows, HasherSpec.Add, WellFormed;
      RunAdd(inputs, x);
      now, before := Dispatch(x, m);
      inputs, log, memory := inputs + [x], log + Rows(now, before), HasherSpec.Add(m, x).memory;
    }

    /** The number of live slots, counted from the tail, whose time stamp is before `target`. */
    static method LowerBoundRing(arr: array<Sample>, size: nat, oldest: nat, target: int, ghost live: seq<Sample>)
      returns (left: nat)
      requires oldest < arr.Length && size == |live| <= arr.Length
      requires forall i :: 0 <= i < size ==> live[i] == arr[Wrap(oldest + i, arr.Length)]
      requires Spaced(live, 0)
      ensures SplitsAt(live, left, target)
    {
      left := 0;
      var right := size;
      while left < right
        invariant left <= right <= size
        invariant forall i :: 0 <= i < left ==> live[i].ts < target
        invariant forall i :: right <= i < size ==> target <= live[i].ts
      {
        var mid := left + (right - left) / 2;
        WrapIsRemainder(oldest + mid, arr.Length);
        var idx := (oldest + mid) % arr.Length;
        assert arr[idx] == live[mid];
        if arr[idx].ts < target {
          forall i | left <= i < mid ensures live[i].ts <= live[mid].ts { NotEarlier(live, i, mid); }
          left := mid + 1;
        } else {
          forall i | mid < i < size ensures live[mid].ts <= live[i].ts { NotEarlier(live, mid, i); }
          right := mid;
        }
      }
    }

    /**
      The live samples with `from <= ts < to`, or nothing if the cache cannot answer: an empty interval, a cache
      that has not been added to, a start before the oldest live slot, or no live sample in the interval.
    */
    ghost function Cached(from: int, to: int): Option<seq<Sample>>
      requires Valid()
      reads this, slots
    {
      if from >= to || (|Live()| == 1 && !ringFinished) || from < Live()[0].ts || InRange(Live(), from, to) == [] then None
      else Some(Stamped(InRange(Live(), from, to)))
    }

    method GetHashed(from: int, to: int) returns (r: Option<seq<Sample>>)
      requires Valid() && Spaced(inputs, 0)
      ensures r == Cached(from, to)
      // When it answers, and with which samples.
      ensures r.Some? <==> |History()| >= 2 && from < to && Live()[0].ts <= from && exists x :: x in Live() && from <= x.ts < to
      ensures r.Some? ==> forall x :: x in r.value <==> x in Live() && from <= x.ts < to && x.ts != 0
      // The promise: with strictly later, positive times, a cached answer is the answer of the complete history.
      ensures r.Some? && Spaced(inputs, 1) && Positive(inputs) ==> r.value == InRange(History(), from, to)
      // With times that merely never go back, it is if and only if nothing was evicted at the start of the query.
      ensures r.Some? && Positive(inputs) ==> (r.value == InRange(History(), from, to) <==> !EvictedAt(from))
    {
      Readable();
      CachedMeans(from, to);
      ghost var live, promised, positive, cached := Live(), Spaced(inputs, 1) && Positive(inputs), Positive(inputs), Cached(from, to);
      assert cached ==
        if from >= to || (|live| == 1 && !ringFinished) || from < live[0].ts || InRange(live, from, to) == [] then None
        else Some(Stamped(InRange(live, from, to)));
      hide *;
      if from >= to || (head == tail && !ringFinished) || from < slots[tail].ts {
        return None;
      }
      r := Search(from, to, live);
      if r.Some? && positive {
        LiveAnswersExactly(from, to);
        if promised {
          LiveAnswersForHistory(from, to);
        }
      }
    }

    lemma CachedMeans(from: int, to: int)
      requires Valid()
      ensures var r, live := Cached(from, to), Live();
              && (r.Some? <==> |History()| >= 2 && from < to && live[0].ts <= from && exists x :: x in live && from <= x.ts < to)
              && (r.Some? ==> forall x :: x in r.value <==> x in live && from <= x.ts < to && x.ts != 0)
    {
      var live := Live();
      LiveSlots(slots[..], Position(), History());
      InRangeNone(live, from, to);
      InRangeMembers(live, from, to);
      StampedMembers(InRange(live, from, to));
      hide InRange, Stamped, Window, Represents, Run;
    }

    /**
      A cache with two entries answers every interval that contains an entry and starts at or after its oldest live
      one: at or after its first one, as long as the history fits the ring.
    */
    lemma {:induction false} Answers(from: int, to: int)
      requires Valid() && |History()| >= 2 && from < to && exists x :: x in History() && from <= x.ts < to
      requires Spaced(inputs, 0) && History()[if |History()| < capacity then 0 else |History()| - capacity + 1].ts <= from
      ensures Cached(from, to).Some?
    {
      var history, live := History(), Live();
      var k := |history| - |live|;
      RingRefinesHistory();
      assert live == history[k..] && live[0] == history[k];
      LogSpacing(inputs, 0);
      CachedMeans(from, to);
      hide Run, Window, Represents, Cached, Holds, Spaced;
      NotEarlier(history, k, if |history| < capacity then 0 else |history| - capacity + 1);
      WindowHasEntry(history, k, from, to);
    }

    lemma Readable()
      requires Valid() && Spaced(inputs, 0)
      ensures head < capacity && tail < capacity && Spaced(Live(), 0) && Live()[0] == slots[tail]
      ensures !ringFinished ==> (|Live()| == 1 <==> head == tail)
    {
      assert Spaced(History(), 0) by {
        hide Holds, Spaced;
        LogSpacing(inputs, 0);
      }
      hide Run, Spaced;
      LiveSlots(slots[..], Position(), History());
    }

    /**
      The ring stands for the unbounded list: read from tail to head it is the newest part of the history, all of
      it before the ring first closes, then all slots or, once a noise slot was given back, all but one.
    */
    lemma RingRefinesHistory()
      requires Valid()
      ensures IsSuffix(Live(), History()) && History() == Run(inputs).memory.history
      ensures |Live()| >= (if |History()| < capacity - 1 then |History()| else capacity - 1)
      ensures !ringFinished ==> Live() == History() && tail == 0 && current == head
      ensures ringFinished && phase != Normal ==> |Live()| == capacity
    {
      hide Run;
      LiveLength(slots[..], Position(), History());
    }

    lemma FitsSlots()
      requires Valid()
      ensures |Live()| <= capacity
    {
    }

    /** The newest entry that has been evicted carries this time stamp. */
    ghost predicate EvictedAt(t: int)
      requires Valid()
      reads this, slots
    {
      |History()| > |Live()| && History()[|History()| - |Live()| - 1].ts == t
    }

    /** A query that the cache accepts gets the complete answer if and only if nothing was evicted at its start time. */
    lemma {:induction false} LiveAnswersExactly(from: int, to: int)
      requires Valid() && Spaced(inputs, 0) && Positive(inputs)
      requires Live()[0].ts <= from < to
      ensures Stamped(InRange(Live(), from, to)) == InRange(History(), from, to) <==> !EvictedAt(from)
    {
      var history, live := History(), Live();
      var k := |history| - |live|;
      assert live == history[k..] && live[0] == history[k];
      assert EvictedAt(from) == (k > 0 && history[k - 1].ts == from);
      hide Represents, Window, Run, InRange, Stamped;
      LogSpacing(inputs, 0);
      WindowAnswersForHistory(history, k, from, to);
      EntriesAreInputs(inputs);
      InRangeMembers(live, from, to);
      assert forall x :: x in live ==> x in history;
      StampedAll(InRange(live, from, to));
    }

    /** Evicted entries never matter to a query that the cache accepts, if every input is strictly later. */
    lemma {:induction false} LiveAnswersForHistory(from: int, to: int)
      requires Valid() && Spaced(inputs, 1) && Positive(inputs)
      requires Live()[0].ts <= from < to
      ensures !EvictedAt(from)
      ensures Stamped(InRange(Live(), from, to)) == InRange(History(), from, to)
    {
      var history, live := History(), Live();
      var k := |history| - |live|;
      assert live == history[k..] && live[0] == history[k];
      hide Represents, Window, Run, InRange, Stamped;
      LogSpacing(inputs, 1);
      if k > 0 {
        SpacedPair(history, 1, k - 1, k);
      }
      LiveAnswersExactly(from, to);
    }

    lemma {:induction false} MissesTwin()
      requires Valid() && capacity == 2 && inputs == TRIPLE
      ensures Cached(1, 2).Some? && Cached(1, 2).value != InRange(History(), 1, 2)
    {
      hide Run, Represents, Window, Holds, Placed, Wrap, InRange, Stamped;
      RingRefinesHistory();
      FitsSlots();
      ThreeTurns(TRIPLE[0], TRIPLE[1], TRIPLE[2]);
      assert History() == TRIPLE && 1 <= |Live()| <= 2 && Live() == TRIPLE[3 - |Live()|..];
      assert ringFinished && EvictedAt(1) && Live()[0].ts == 1;
      MissesEvicted(2);
    }

    lemma MissesEvicted(to: int)
      requires Valid() && Spaced(inputs, 0) && Positive(inputs) && ringFinished
      requires EvictedAt(Live()[0].ts) && Live()[0].ts < to
      ensures Cached(Live()[0].ts, to).Some? && Cached(Live()[0].ts, to).value != InRange(History(), Live()[0].ts, to)
    {
      var from := Live()[0].ts;
      assert Live()[0] in Live();
      hide Run, Represents, Window, Holds, InRange, Stamped, EvictedAt, Spaced, Positive;
      InRangeNone(Live(), from, to);
      LiveAnswersExactly(from, to);
    }

    /** Two binary searches over the live slots, and the slots between them. */
    method Search(from: int, to: int, ghost live: seq<Sample>) returns (r: Option<seq<Sample>>)
      requires slots.Length == capacity && head < capacity && tail < capacity && from < to
      requires live == Window(slots[..], head, tail) && Spaced(live, 0)
      ensures r == if InRange(live, from, to) == [] then None else Some(Stamped(InRange(live, from, to)))
    {
      hide Window, InRange, Spaced, Stamped;
      var oldest := tail;
      WrapIsRemainder(head + capacity - oldest, capacity);
      var len := (head + capacity - oldest) % capacity + 1;
      var start := LowerBoundRing(slots, len, oldest, from, live);
      var end := LowerBoundRing(slots, len, oldest, to, live);
      SplitsInOrder(live, start, end, from, to);
      BlockIsRange(live, start, end, from, to);
      if start == end {
        return None;
      }
      var result := Collect(oldest, start, end, live);
      return Some(result);
    }

    /** Live slots `start` to `end`, except those that never got a time stamp. */
    method Collect(oldest: nat, start: nat, end: nat, ghost live: seq<Sample>) returns (result: seq<Sample>)
      requires slots.Length == capacity && oldest < capacity && start <= end <= |live| <= capacity
      requires forall i :: 0 <= i < |live| ==> live[i] == slots[Wrap(oldest + i, capacity)]
      ensures result == Stamped(live[start..end])
    {
      result := [];
      for i := start to end
        invariant result == Stamped(live[start..i])
      {
        WrapIsRemainder(oldest + i, capacity);
        var idx := (oldest + i) % capacity;
        var hv := slots[idx];
        assert Front(live[start..i + 1]) == live[start..i];
        if hv.ts != 0 {
          result := result + [hv];
        }
      }
    }
  }

  lemma FailCases(m: Memory, x: Sample)
    requires WellFormed(m)
    ensures var outcome := HasherSpec.AddFail(m, x);
            && (m.phase == FailReported ==> outcome == Outcome(m, []))
            && (m.phase == Normal ==> outcome == Outcome(Memory(m.history + [x], InFail, m.silent, m.lastEmitted), []))
            && (m.phase == InFail ==>
                  if x.ts - Last(m.history).ts > FAILURE_DELTA then
                    var closed := Front(m.history) + [x];
                    && |closed| >= 2 && Last(closed) == x
                    && outcome == Outcome(Memory(closed, FailReported, false, m.lastEmitted),
                                          if m.silent then [closed[|closed| - 2], x] else [x])
                  else outcome == Outcome(m, []))
  {
  }

  /** Three different samples at one time in a ring of two slots: the cache answers without the one it has evicted. */
  method EvictedTwin() returns (hasher: ValueHasher)
    ensures fresh(hasher) && hasher.Valid() && hasher.capacity == 2 && hasher.inputs == TRIPLE
    ensures hasher.Cached(1, 2).Some? && hasher.Cached(1, 2).value != InRange(hasher.History(), 1, 2)
  {
    var a, b, c := Sample(Measured(1.0), 1), Sample(Measured(2.0), 1), Sample(Measured(3.0), 1);
    assert [a] + [b] + [c] == TRIPLE;
    hide *;
    hasher := new ValueHasher(2, a);
    var now, before := hasher.Add(b);
    now, before := hasher.Add(c);
    hasher.MissesTwin();
  }

  const TRIPLE: seq<Sample> := [Sample(Measured(1.0), 1), Sample(Measured(2.0), 1), Sample(Measured(3.0), 1)]

  lemma ThreeTurns(a: Sample, b: Sample, c: Sample)
    requires a.val != b.val && b.val != c.val && a.val != Failed && b.val != Failed && c.val != Failed
    ensures Run([a, b, c]).memory.history == [a, b, c]
  {
    assert [a] + [b] == [a, b] && [a, b] + [c] == [a, b, c];
    assert Run([a]) == Trace(Start(a), [a]);
    RunAdd([a], b);
    RunAdd([a, b], c);
  }
}
