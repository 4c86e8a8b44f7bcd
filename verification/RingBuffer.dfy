/** A wrap-around buffer of samples: which slots are live, and how one step of the cursor changes that. */
module RingBuffer {
  import opened Sequences
  import opened Samples

  /** The four position fields of the cache. */
  datatype Cursor = Cursor(current: nat, head: nat, tail: nat, finished: bool)

  function Wrap(i: nat, capacity: nat): nat {
    if i < capacity then i else i - capacity
  }

  lemma WrapIsRemainder(i: nat, capacity: nat)
    requires i < 2 * capacity
    ensures i % capacity == Wrap(i, capacity)
  {
    if i >= capacity {
      assert i == (i - capacity) + 1 * capacity;
    }
  }

  lemma FullTurn(i: nat, capacity: nat)
    requires 0 < capacity && i <= capacity
    ensures (capacity + i) % capacity == Wrap(i, capacity)
  {
    if i < capacity {
      WrapIsRemainder(capacity + i, capacity);
    } else {
      assert capacity + i == 2 * capacity;
    }
  }

  /** The live slots, read from tail to head. */
  function Window(slots: seq<Sample>, head: nat, tail: nat): (w: seq<Sample>)
    requires head < |slots| && tail < |slots|
    ensures w != [] && |w| == Wrap(head + |slots| - tail, |slots|) + 1
    ensures forall i :: 0 <= i < |w| ==> w[i] == slots[Wrap(tail + i, |slots|)]
  {
    if tail <= head then slots[tail..head + 1] else slots[tail..] + slots[..head + 1]
  }

  ghost predicate IsSuffix(w: seq<Sample>, history: seq<Sample>) {
    |w| <= |history| && history[|history| - |w|..] == w
  }

  /**
    The positions after a history of `total` entries: tail at 0 and everything live until the buffer first wraps,
    then more entries than slots and the tail one slot after the head, or two after a noise slot has been given back.
  */
  ghost predicate Placed(c: Cursor, n: nat, total: nat) {
    && n >= 2 && c.head < n && c.tail < n && total > 0
    && if c.finished then
         c.current == n && ((c.tail == Wrap(c.head + 1, n) && total > n) || (c.tail == Wrap(c.head + 2, n) && total >= n))
       else
         c.tail == 0 && c.current == c.head && total == c.head + 1
  }

  lemma PlacedInside(c: Cursor, n: nat, total: nat)
    requires Placed(c, n, total)
    ensures c.head < n && c.tail < n && n >= 2 && total > 0
  {
  }

  /** The buffer holds the newest entries of `history`. */
  ghost predicate Represents(slots: seq<Sample>, c: Cursor, history: seq<Sample>) {
    Placed(c, |slots|, |history|) && IsSuffix(Window(slots, c.head, c.tail), history)
  }

  /** No slot is given up: the next entry must overwrite the oldest one. */
  ghost predicate Packed(c: Cursor, n: nat) {
    c.finished ==> c.tail == Wrap(c.head + 1, n)
  }

  lemma FirstSlot(slots: seq<Sample>, x: Sample)
    requires |slots| >= 2 && slots[0] == x
    ensures Represents(slots, Cursor(0, 0, 0, false), [x])
  {
    assert slots[0..1] == [x];
  }

  /** Everything is live before the buffer wraps; afterwards at most one slot is missing. */
  lemma LiveLength(slots: seq<Sample>, c: Cursor, history: seq<Sample>)
    requires Represents(slots, c, history)
    ensures var live := |Window(slots, c.head, c.tail)|;
            live >= (if |history| < |slots| - 1 then |history| else |slots| - 1)
    ensures c.finished && Packed(c, |slots|) ==> |Window(slots, c.head, c.tail)| == |slots|
  {
  }

  /** What a reader of the buffer needs to know about it. */
  lemma LiveSlots(slots: seq<Sample>, c: Cursor, history: seq<Sample>)
    requires Represents(slots, c, history)
    ensures c.head < |slots| && c.tail < |slots|
    ensures if c.finished then |history| >= 2 else |history| == |Window(slots, c.head, c.tail)|
    ensures Spaced(history, 0) ==> Spaced(Window(slots, c.head, c.tail), 0)
  {
    var w := Window(slots, c.head, c.tail);
    assert !c.finished ==> |w| == |history|;
    hide Window, Wrap;
    if Spaced(history, 0) {
      SuffixSpaced(history, |history| - |w|);
    }
  }

  lemma SuffixSpaced(s: seq<Sample>, k: nat)
    requires k <= |s| && Spaced(s, 0)
    ensures Spaced(s[k..], 0)
  {
    var w := s[k..];
    forall i | 0 < i < |w| ensures w[i - 1].ts <= w[i].ts {
      assert w[i] == s[k + i] && w[i - 1] == s[k + i - 1];
    }
  }

  // ----- Taking a slot -----

  /** Where the cursor stands after the position is counted and the head is moved. */
  function Advanced(c: Cursor, n: nat): (c': Cursor)
    requires c.head < n
    ensures c'.head < n
  {
    var finished := c.finished || c.current + 1 == n;
    var head := Wrap(c.head + 1, n);
    Cursor(if c.finished then c.current else c.current + 1, head,
           if finished then Wrap(head + 1, n) else c.tail, finished)
  }

  lemma AdvancedPlaced(c: Cursor, n: nat, total: nat)
    requires Placed(c, n, total)
    ensures var c' := Advanced(c, n);
            && Placed(c', n, total + 1) && Packed(c', n)
            && (c'.tail == c.tail != c'.head || (c.tail == c'.head && c'.tail == Wrap(c.tail + 1, n)))
            && c'.head == Wrap(c.head + 1, n)
  {
  }

  /** While there is room, the next entry lengthens the window. */
  lemma WindowGrows(slots: seq<Sample>, head: nat, tail: nat, x: Sample)
    requires head < |slots| && tail < |slots| && tail != Wrap(head + 1, |slots|)
    ensures Window(slots[Wrap(head + 1, |slots|) := x], Wrap(head + 1, |slots|), tail) == Window(slots, head, tail) + [x]
  {
    hide Window;
    var n, head' := |slots|, Wrap(head + 1, |slots|);
    var w, w' := Window(slots, head, tail), Window(slots[head' := x], head', tail);
    assert |w'| == |w| + 1;
    forall i | 0 <= i < |w| ensures w'[i] == w[i] {
      assert Wrap(tail + i, n) != head';
    }
    assert w' == w + [x];
  }

  /** When all slots are live, the next entry overwrites the oldest one. */
  lemma WindowSlides(slots: seq<Sample>, head: nat, tail: nat, x: Sample)
    requires head < |slots| && tail == Wrap(head + 1, |slots|) && |slots| >= 2
    ensures Window(slots[tail := x], tail, Wrap(tail + 1, |slots|)) == Window(slots, head, tail)[1..] + [x]
  {
    hide Window;
    var n, tail' := |slots|, Wrap(tail + 1, |slots|);
    var w, w' := Window(slots, head, tail), Window(slots[tail := x], tail, tail');
    assert |w'| == |w| == n;
    forall i | 0 <= i < n - 1 ensures w'[i] == w[1 + i] {
      assert Wrap(tail' + i, n) == Wrap(tail + 1 + i, n) != tail;
    }
    assert w' == w[1..] + [x];
  }

  lemma SuffixExtends(w: seq<Sample>, history: seq<Sample>, x: Sample)
    requires IsSuffix(w, history)
    ensures IsSuffix(w + [x], history + [x])
  {
    assert (history + [x])[|history| - |w|..] == w + [x];
  }

  lemma SuffixSlides(w: seq<Sample>, history: seq<Sample>, x: Sample)
    requires w != [] && IsSuffix(w, history)
    ensures IsSuffix(w[1..] + [x], history + [x])
  {
    assert (history + [x])[|history| - |w| + 1..] == w[1..] + [x];
  }

  lemma {:induction false} Appended(slots: seq<Sample>, c: Cursor, history: seq<Sample>, x: Sample)
    requires Represents(slots, c, history)
    ensures c.head < |slots| && |slots| >= 2
    ensures var c' := Advanced(c, |slots|);
            Represents(slots[c'.head := x], c', history + [x]) && Packed(c', |slots|)
  {
    hide Window, IsSuffix, Placed, Wrap, Advanced, Packed;
    PlacedInside(c, |slots|, |history|);
    AdvancedPlaced(c, |slots|, |history|);
    var c' := Advanced(c, |slots|);
    PlacedInside(c', |slots|, |history| + 1);
    AppendedSuffix(slots, c.head, c.tail, c'.tail, history, x);
  }

  lemma AppendedSuffix(slots: seq<Sample>, head: nat, tail: nat, tail': nat, history: seq<Sample>, x: Sample)
    requires head < |slots| && tail < |slots| && tail' < |slots| && |slots| >= 2
    requires IsSuffix(Window(slots, head, tail), history)
    requires var head' := Wrap(head + 1, |slots|);
             tail' == tail != head' || (tail == head' && tail' == Wrap(tail + 1, |slots|))
    ensures var head' := Wrap(head + 1, |slots|);
            IsSuffix(Window(slots[head' := x], head', tail'), history + [x])
  {
    var w := Window(slots, head, tail);
    if tail == Wrap(head + 1, |slots|) {
      assert w != [];
      hide *;
      WindowSlides(slots, head, tail, x);
      SuffixSlides(w, history, x);
    } else {
      hide *;
      WindowGrows(slots, head, tail, x);
      SuffixExtends(w, history, x);
    }
  }

  // ----- Rewriting the newest slot and giving it back -----

  lemma WindowEnds(slots: seq<Sample>, head: nat, tail: nat, x: Sample)
    requires head < |slots| && tail < |slots|
    ensures Last(Window(slots, head, tail)) == slots[head]
    ensures Window(slots[head := x], head, tail) == Front(Window(slots, head, tail)) + [x]
  {
    hide Window;
    var w, w' := Window(slots, head, tail), Window(slots[head := x], head, tail);
    assert Wrap(tail + |w| - 1, |slots|) == head;
    forall i | 0 <= i < |w| - 1 ensures w'[i] == w[i] {
      assert Wrap(tail + i, |slots|) != head;
    }
    assert w' == Front(w) + [x];
  }

  lemma SuffixRestamps(w: seq<Sample>, history: seq<Sample>, x: Sample)
    requires w != [] && IsSuffix(w, history)
    ensures Last(w) == Last(history) && IsSuffix(Front(w) + [x], Front(history) + [x])
    ensures |w| >= 2 ==> |history| >= 2 && w[|w| - 2] == history[|history| - 2] && IsSuffix(Front(w), Front(history))
  {
    assert (Front(history) + [x])[|history| - |w|..] == Front(w) + [x];
    assert Last(w) == history[|history| - |w|..][|w| - 1];
    if |w| >= 2 {
      assert w[|w| - 2] == history[|history| - |w|..][|w| - 2];
      assert Front(history)[|history| - |w|..] == Front(w);
    }
  }

  lemma {:induction false} Restamped(slots: seq<Sample>, c: Cursor, history: seq<Sample>, x: Sample)
    requires Represents(slots, c, history)
    ensures c.head < |slots| && history != []
    ensures Represents(slots[c.head := x], c, Front(history) + [x])
  {
    assert c.head < |slots| && c.tail < |slots| && history != [];
    hide Window, IsSuffix, Placed;
    WindowEnds(slots, c.head, c.tail, x);
    SuffixRestamps(Window(slots, c.head, c.tail), history, x);
  }

  /** The head goes back one slot; the tail stays where the overwritten oldest entry left it. */
  function RolledBack(c: Cursor, n: nat): Cursor
    requires c.head < n
  {
    if c.finished then c.(head := if c.head == 0 then n - 1 else c.head - 1)
    else c.(current := if c.current == 0 then 0 else c.current - 1, head := if c.head == 0 then 0 else c.head - 1)
  }

  lemma RolledBackPlaced(c: Cursor, n: nat, total: nat)
    requires Placed(c, n, total) && Packed(c, n) && total >= 2
    ensures var c' := RolledBack(c, n);
            && Placed(c', n, total - 1)
            && c.head != c.tail && c.head == Wrap(c'.head + 1, n)
            && c'.head < n && c'.tail == c.tail < n
    ensures !c.finished ==> c.current == c.head > 0
  {
  }

  lemma WindowShrinks(slots: seq<Sample>, head: nat, tail: nat)
    requires head < |slots| && tail < |slots| && tail != Wrap(head + 1, |slots|)
    ensures Window(slots, head, tail) == Front(Window(slots, Wrap(head + 1, |slots|), tail))
    ensures |Window(slots, Wrap(head + 1, |slots|), tail)| >= 2
  {
    hide Window;
    assert |Window(slots, Wrap(head + 1, |slots|), tail)| == |Window(slots, head, tail)| + 1;
  }

  lemma GivenBack(slots: seq<Sample>, c: Cursor, history: seq<Sample>)
    requires Represents(slots, c, history) && Packed(c, |slots|) && |history| >= 2
    ensures c.head < |slots| && (!c.finished ==> c.current == c.head > 0)
    ensures Represents(slots, RolledBack(c, |slots|), Front(history))
  {
    var n := |slots|;
    var c' := RolledBack(c, n);
    RolledBackPlaced(c, n, |history|);
    hide Window, IsSuffix, Placed, Wrap, Packed, RolledBack;
    WindowShrinks(slots, c'.head, c.tail);
    SuffixRestamps(Window(slots, c.head, c.tail), history, Last(history));
  }

  lemma TwoEntries(c: Cursor, n: nat, total: nat)
    requires Placed(c, n, total) && Packed(c, n) && total >= 2
    ensures c.head != c.tail && (c.head != 0 || c.finished)
  {
  }

  /** The newest two entries sit in the head slot and the slot before it. */
  lemma NewestTwo(slots: seq<Sample>, c: Cursor, history: seq<Sample>)
    requires Represents(slots, c, history)
    ensures c.head < |slots| && history != [] && slots[c.head] == Last(history)
    ensures Packed(c, |slots|) && |history| >= 2 ==>
              (c.head != 0 || c.finished) && slots[if c.head == 0 then |slots| - 1 else c.head - 1] == history[|history| - 2]
  {
    PlacedInside(c, |slots|, |history|);
    var w := Window(slots, c.head, c.tail);
    assert w != [] && IsSuffix(w, history);
    assert Placed(c, |slots|, |history|);
    hide *;
    WindowEnds(slots, c.head, c.tail, slots[c.head]);
    SuffixRestamps(w, history, Last(history));
    if Packed(c, |slots|) && |history| >= 2 {
      TwoEntries(c, |slots|, |history|);
      WindowSecond(slots, c.head, c.tail);
    }
  }

  lemma WindowSecond(slots: seq<Sample>, head: nat, tail: nat)
    requires head < |slots| && tail < |slots| && head != tail && |slots| >= 2
    ensures var w := Window(slots, head, tail);
            |w| >= 2 && w[|w| - 2] == slots[if head == 0 then |slots| - 1 else head - 1]
  {
    hide Window;
    var w := Window(slots, head, tail);
    assert Wrap(tail + (|w| - 2), |slots|) == if head == 0 then |slots| - 1 else head - 1;
  }

  // ----- Time ranges -----

  /** The samples with `from <= ts < to`, in order. */
  function InRange(s: seq<Sample>, from: int, to: int): seq<Sample> {
    if s == [] then []
    else InRange(Front(s), from, to) + (if from <= Last(s).ts < to then [Last(s)] else [])
  }

  /** The samples with a time stamp other than 0. */
  function Stamped(s: seq<Sample>): seq<Sample> {
    if s == [] then []
    else Stamped(Front(s)) + (if Last(s).ts != 0 then [Last(s)] else [])
  }

  lemma InRangeLast(s: seq<Sample>, x: Sample, from: int, to: int)
    ensures InRange(s + [x], from, to) == if from <= x.ts < to then InRange(s, from, to) + [x] else InRange(s, from, to)
  {
    assert Front(s + [x]) == s;
  }

  lemma {:induction false} InRangeSplit(a: seq<Sample>, b: seq<Sample>, from: int, to: int)
    ensures InRange(a + b, from, to) == InRange(a, from, to) + InRange(b, from, to)
  {
    if b == [] {
      assert a + b == a;
    } else {
      hide *;
      var p, x := Front(b), Last(b);
      FrontLast(b);
      Assoc(a, p, [x]);
      InRangeSplit(a, p, from, to);
      InRangeLast(a + p, x, from, to);
      InRangeLast(p, x, from, to);
      Assoc(InRange(a, from, to), InRange(p, from, to), if from <= x.ts < to then [x] else []);
    }
  }

  lemma {:induction false} InRangeAll(s: seq<Sample>, from: int, to: int)
    requires forall x :: x in s ==> from <= x.ts < to
    ensures InRange(s, from, to) == s
  {
    if s != [] {
      hide InRange;
      var p, x := Front(s), Last(s);
      assert s == p + [x] && x in s;
      InRangeAll(p, from, to);
      InRangeLast(p, x, from, to);
    }
  }

  lemma {:induction false} InRangeNone(s: seq<Sample>, from: int, to: int)
    ensures InRange(s, from, to) == [] <==> forall x :: x in s ==> !(from <= x.ts < to)
  {
    if s != [] {
      hide InRange;
      var p, x := Front(s), Last(s);
      assert s == p + [x] && x in s;
      InRangeNone(p, from, to);
      InRangeLast(p, x, from, to);
    }
  }

  lemma StampedLast(s: seq<Sample>, x: Sample)
    ensures Stamped(s + [x]) == if x.ts != 0 then Stamped(s) + [x] else Stamped(s)
  {
    assert Front(s + [x]) == s;
  }

  lemma {:induction false} StampedAll(s: seq<Sample>)
    requires forall x :: x in s ==> x.ts > 0
    ensures Stamped(s) == s
  {
    if s != [] {
      hide Stamped;
      var p, x := Front(s), Last(s);
      assert s == p + [x] && x in s;
      StampedAll(p);
      StampedLast(p, x);
    }
  }

  lemma {:induction false} InRangeMembers(s: seq<Sample>, from: int, to: int)
    ensures forall x :: x in InRange(s, from, to) <==> x in s && from <= x.ts < to
  {
    if s != [] {
      hide InRange;
      var p, x := Front(s), Last(s);
      assert s == p + [x] && x in s;
      InRangeMembers(p, from, to);
      InRangeLast(p, x, from, to);
    }
  }

  lemma {:induction false} StampedMembers(s: seq<Sample>)
    ensures forall x :: x in Stamped(s) <==> x in s && x.ts != 0
  {
    if s != [] {
      hide Stamped;
      var p, x := Front(s), Last(s);
      assert s == p + [x] && x in s;
      StampedMembers(p);
      StampedLast(p, x);
    }
  }

  /** `k` splits `w` into what lies before `target` and what does not. */
  ghost predicate SplitsAt(w: seq<Sample>, k: nat, target: int) {
    && k <= |w|
    && (forall i :: 0 <= i < k ==> w[i].ts < target)
    && (forall i :: k <= i < |w| ==> target <= w[i].ts)
  }

  lemma SplitsInOrder(w: seq<Sample>, start: nat, end: nat, from: int, to: int)
    requires from < to && SplitsAt(w, start, from) && SplitsAt(w, end, to)
    ensures start <= end
  {
    assert end < |w| ==> to <= w[end].ts;
  }

  /** The block of a window between two lower bounds is the range query on that window. */
  lemma BlockIsRange(w: seq<Sample>, start: nat, end: nat, from: int, to: int)
    requires from < to && start <= end && SplitsAt(w, start, from) && SplitsAt(w, end, to)
    ensures InRange(w, from, to) == w[start..end]
  {
    hide InRange;
    var a, b, c := w[..start], w[start..end], w[end..];
    assert w == a + b + c;
    InRangePad(a, b, c, from, to);
  }

  lemma InRangePad(a: seq<Sample>, b: seq<Sample>, c: seq<Sample>, from: int, to: int)
    requires forall i :: 0 <= i < |a| ==> a[i].ts < from
    requires forall i :: 0 <= i < |b| ==> from <= b[i].ts < to
    requires forall i :: 0 <= i < |c| ==> c[i].ts >= to
    ensures InRange(a + b + c, from, to) == b
  {
    hide InRange;
    InRangeNone(a, from, to);
    InRangeAll(b, from, to);
    InRangeNone(c, from, to);
    InRangeSplit(a, b, from, to);
    InRangeSplit(a + b, c, from, to);
  }

  /**
    For a query that starts inside the live window, the window answers for the complete history, evicted entries
    included, exactly when the newest evicted entry does not carry the query's own start time.
  */
  lemma WindowAnswersForHistory(history: seq<Sample>, k: nat, from: int, to: int)
    requires k < |history| && Spaced(history, 0) && history[k].ts <= from < to
    ensures InRange(history[k..], from, to) == InRange(history, from, to) <==> k == 0 || history[k - 1].ts != from
  {
    hide InRange;
    var evicted := history[..k];
    assert history == evicted + history[k..];
    InRangeSplit(evicted, history[k..], from, to);
    InRangeNone(evicted, from, to);
    assert k > 0 ==> evicted[k - 1] == history[k - 1] && history[k - 1] in evicted;
    forall x | x in evicted ensures x.ts <= history[k - 1].ts <= from {
      var i :| 0 <= i < k && evicted[i] == x;
      NotEarlier(history, i, k - 1);
      NotEarlier(history, k - 1, k);
    }
  }

  /** If the query starts inside the live window, and the history has an entry for it, the window has one. */
  lemma WindowHasEntry(history: seq<Sample>, k: nat, from: int, to: int)
    requires k < |history| && Spaced(history, 0) && history[k].ts <= from
    requires exists x :: x in history && from <= x.ts < to
    ensures exists x :: x in history[k..] && from <= x.ts < to
  {
    var x :| x in history && from <= x.ts < to;
    var i :| 0 <= i < |history| && history[i] == x;
    if i < k {
      NotEarlier(history, i, k);
      assert history[k] == history[k..][0];
    } else {
      assert x == history[k..][i - k];
    }
  }

  lemma NotEarlier(s: seq<Sample>, i: nat, j: nat)
    requires Spaced(s, 0) && i <= j < |s|
    ensures s[i].ts <= s[j].ts
  {
    if i < j {
      SpacedPair(s, 0, i, j);
    }
  }
}
