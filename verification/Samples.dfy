/** Time-stamped measurements and the vocabulary used to compare sequences of them. */
module Samples {
  import opened Sequences

  /** A measured value. `Failed` stands for the marker the reader sends in place of a reading. */
  datatype Value = Failed | Measured(number: real)

  datatype Sample = Sample(val: Value, ts: int)

  /** Neighbouring samples are at least `gap` seconds apart: 0 is "never back in time", 1 is "strictly later". */
  ghost predicate Spaced(s: seq<Sample>, gap: int) {
    forall i :: 0 < i < |s| ==> s[i - 1].ts + gap <= s[i].ts
  }

  ghost predicate Positive(s: seq<Sample>) {
    forall x :: x in s ==> x.ts > 0
  }

  lemma {:induction false} SpacedPair(s: seq<Sample>, gap: nat, i: nat, j: nat)
    requires Spaced(s, gap) && i < j < |s|
    ensures s[i].ts + gap <= s[j].ts
    decreases j
  {
    if i + 1 < j {
      SpacedPair(s, gap, i, j - 1);
    }
  }

  /** The first sample of every maximal stretch of equal values. */
  function RunStarts(s: seq<Sample>): seq<Sample> {
    if s == [] then []
    else if |s| >= 2 && s[|s| - 2].val == Last(s).val then RunStarts(Front(s))
    else RunStarts(Front(s)) + [Last(s)]
  }

  /** The last sample of every maximal stretch of equal values. */
  function RunEnds(s: seq<Sample>): (r: seq<Sample>)
    ensures s != [] ==> r != [] && Last(r) == Last(s)
  {
    if s == [] then []
    else if |s| >= 2 && s[|s| - 2].val == Last(s).val then Front(RunEnds(Front(s))) + [Last(s)]
    else RunEnds(Front(s)) + [Last(s)]
  }

  lemma RunsExtend(s: seq<Sample>, x: Sample)
    requires s != []
    ensures RunStarts(s + [x]) == if Last(s).val == x.val then RunStarts(s) else RunStarts(s) + [x]
    ensures RunEnds(s + [x]) == if Last(s).val == x.val then Front(RunEnds(s)) + [x] else RunEnds(s) + [x]
  {
    assert Front(s + [x]) == s;
  }

  /** Restamping the last sample moves the end of the last run and nothing else. */
  lemma RunsRestamp(s: seq<Sample>, x: Sample)
    requires s != [] && Last(s).val == x.val
    ensures RunEnds(Front(s) + [x]) == Front(RunEnds(s)) + [x]
  {
    var p := Front(s);
    FrontLast(s);
    if p == [] {
      assert [x] == p + [x];
    } else {
      RunsExtend(p, Last(s));
      RunsExtend(p, x);
      hide RunStarts, RunEnds;
    }
  }
}
