/** Splitting the registers of a device into contiguous groups, one read request each. */
module RegisterGroups {
  import opened Sequences

  // ----- Sorting -----

  predicate Ascending(s: seq<int>) {
    forall i :: 0 < i < |s| ==> s[i - 1] <= s[i]
  }

  function Insert(s: seq<int>, x: int): (r: seq<int>)
    ensures multiset(r) == multiset(s) + multiset{x}
  {
    if s == [] || s[|s| - 1] <= x then s + [x]
    else
      FrontLast(s);
      Insert(Front(s), x) + [Last(s)]
  }

  lemma {:induction false} InsertAscends(s: seq<int>, x: int)
    requires Ascending(s)
    ensures Ascending(Insert(s, x)) && Insert(s, x) != []
    ensures Last(Insert(s, x)) == if s == [] || Last(s) <= x then x else Last(s)
  {
    if s != [] && Last(s) > x {
      InsertAscends(Front(s), x);
    }
  }

  function Sort(s: seq<int>): (r: seq<int>)
    ensures multiset(r) == multiset(s)
  {
    if s == [] then []
    else
      FrontLast(s);
      Insert(Sort(Front(s)), Last(s))
  }

  lemma {:induction false} SortAscends(s: seq<int>)
    ensures Ascending(Sort(s))
  {
    if s != [] {
      SortAscends(Front(s));
      InsertAscends(Sort(Front(s)), Last(s));
    }
  }

  // ----- Grouping -----

  /** Consecutive addresses: start, start + 1, and so on. */
  ghost predicate IsRun(g: seq<int>) {
    g != [] && forall i :: 0 <= i < |g| ==> g[i] == g[0] + i
  }

  /** The groups of an ascending list: a register joins the last group if it is one more than its last member. */
  function Groups(s: seq<int>): (r: seq<seq<int>>)
    ensures r == [] <==> s == []
    ensures s != [] ==> Last(r) != [] && Last(Last(r)) == Last(s)
  {
    if s == [] then []
    else
      var r, x := Groups(Front(s)), Last(s);
      if r != [] && x == Last(Last(r)) + 1 then Front(r) + [Last(r) + [x]]
      else r + [[x]]
  }

  lemma GroupsLast(s: seq<int>, x: int)
    ensures Groups(s + [x]) == if s != [] && x == Last(s) + 1 then Front(Groups(s)) + [Last(Groups(s)) + [x]] else Groups(s) + [[x]]
  {
    assert Front(s + [x]) == s;
  }

  method RegSort(registers: seq<int>) returns (res: seq<seq<int>>)
    ensures res == Groups(Sort(registers))
  {
    hide Groups, Sort;
    var sorted := Sort(registers);
    res := [];
    var group: seq<int> := [];
    for i := 0 to |sorted|
      invariant i == 0 ==> res == [] && group == []
      invariant i > 0 ==> Groups(sorted[..i]) == res + [group] && group != [] && Last(group) == sorted[i - 1]
    {
      var reg := sorted[i];
      GroupsLast(sorted[..i], reg);
      assert sorted[..i + 1] == sorted[..i] + [reg];
      assert Front(res + [group]) == res && Last(res + [group]) == group;
      assert i == 0 ==> sorted[..i] == [] && Groups(sorted[..i]) == [] && group + [reg] == [reg];
      if group == [] || reg == Last(group) + 1 {
        group := group + [reg];
      } else {
        res := res + [group];
        group := [reg];
      }
    }
    assert sorted[..|sorted|] == sorted;
    if group != [] {
      res := res + [group];
    }
  }

  lemma {:induction false} GroupsAreRuns(s: seq<int>)
    ensures forall g :: g in Groups(s) ==> IsRun(g)
  {
    if s != [] {
      var r, x := Groups(Front(s)), Last(s);
      GroupsAreRuns(Front(s));
      if r != [] && x == Last(Last(r)) + 1 {
        assert IsRun(Last(r));
        assert IsRun(Last(r) + [x]);
      }
    }
  }

  lemma {:induction false} GroupsConcat(s: seq<int>)
    ensures Concat(Groups(s)) == s
  {
    if s != [] {
      var r, x := Groups(Front(s)), Last(s);
      GroupsConcat(Front(s));
      FrontLast(s);
      if r != [] && x == Last(Last(r)) + 1 {
        ConcatLast(Front(r), Last(r) + [x]);
      } else {
        ConcatLast(r, [x]);
      }
    }
  }

  // ----- Counting starts and ends -----

  /** How often `x` is polled. */
  ghost function Count(s: seq<int>, x: int): nat {
    multiset(s)[x]
  }

  /** How many groups start, or end, with `x`. */
  ghost function Starts(p: seq<seq<int>>, x: int): nat {
    if p == [] then 0 else Starts(Front(p), x) + (if Last(p) != [] && Last(p)[0] == x then 1 else 0)
  }

  ghost function Ends(p: seq<seq<int>>, x: int): nat {
    if p == [] then 0 else Ends(Front(p), x) + (if Last(p) != [] && Last(Last(p)) == x then 1 else 0)
  }

  ghost predicate AllRuns(p: seq<seq<int>>) {
    forall g :: g in p ==> IsRun(g)
  }

  lemma {:induction false} RunCount(g: seq<int>, x: int)
    requires IsRun(g)
    ensures Count(g, x) == if g[0] <= x <= Last(g) then 1 else 0
  {
    FrontLast(g);
    if |g| == 1 {
      assert g == [g[0]];
    } else {
      RunCount(Front(g), x);
    }
  }

  /** A register either starts a group or follows its predecessor in one. */
  lemma {:induction false} StartsBalanceEnds(p: seq<seq<int>>, x: int)
    requires AllRuns(p)
    ensures Count(Concat(p), x) - Starts(p, x) == Count(Concat(p), x - 1) - Ends(p, x - 1)
  {
    if p != [] {
      var g := Last(p);
      StartsBalanceEnds(Front(p), x);
      assert IsRun(g);
      RunCount(g, x);
      RunCount(g, x - 1);
    }
  }

  lemma {:induction false} AtMostLast(s: seq<int>, z: int)
    requires Ascending(s) && z in s
    ensures z <= Last(s)
  {
    if z != Last(s) {
      FrontLast(s);
      AtMostLast(Front(s), z);
    }
  }

  lemma StartsLast(s: seq<int>, y: int, x: int)
    ensures Starts(Groups(s + [y]), x) == Starts(Groups(s), x) + (if y == x && !(s != [] && y == Last(s) + 1) then 1 else 0)
  {
    GroupsLast(s, y);
    var r := Groups(s);
    if s != [] && y == Last(s) + 1 {
      assert Front(Front(r) + [Last(r) + [y]]) == Front(r);
    } else {
      assert Front(r + [[y]]) == r;
    }
  }

  /** Only a register whose predecessor is not polled at all, or a repeated one, starts a group. */
  lemma {:induction false} GreedyStarts(s: seq<int>, x: int)
    requires Ascending(s)
    ensures Starts(Groups(s), x) == Count(s, x) - (if Count(s, x) > 0 && Count(s, x - 1) > 0 then 1 else 0)
  {
    if s != [] {
      var p, y := Front(s), Last(s);
      FrontLast(s);
      GreedyStarts(p, x);
      hide Groups, Starts;
      StartsLast(p, y, x);
      CountLast(p, y, x);
      CountLast(p, y, x - 1);
      if p != [] {
        CountsAround(p, x);
        CountsAround(p, x - 1);
      }
    }
  }

  lemma CountLast(s: seq<int>, y: int, x: int)
    ensures Count(s + [y], x) == Count(s, x) + (if x == y then 1 else 0)
  {
  }

  lemma CountsAround(s: seq<int>, x: int)
    requires Ascending(s) && s != []
    ensures x > Last(s) ==> Count(s, x) == 0
    ensures x == Last(s) ==> Count(s, x) > 0
  {
    if x in s {
      AtMostLast(s, x);
    }
  }

  // ----- The fewest requests -----

  /** A way to read all registers, each as often as it is listed, in contiguous blocks. */
  ghost predicate IsPartition(p: seq<seq<int>>, registers: seq<int>) {
    AllRuns(p) && multiset(Concat(p)) == multiset(registers)
  }

  ghost predicate FewestGroups(p: seq<seq<int>>, registers: seq<int>) {
    forall q :: IsPartition(q, registers) ==> |p| <= |q|
  }

  /** Two neighbouring registers that are both listed more than once. */
  ghost predicate NeighboursRepeat(registers: seq<int>, x: int) {
    Count(registers, x) >= 2 && Count(registers, x + 1) >= 2
  }

  lemma {:induction false} RegSortPartitions(registers: seq<int>)
    ensures IsPartition(Groups(Sort(registers)), registers)
  {
    GroupsAreRuns(Sort(registers));
    GroupsConcat(Sort(registers));
  }

  /** Comparing partitions start by start. */
  lemma {:induction false} FewerStarts(p: seq<seq<int>>, q: seq<seq<int>>)
    requires AllRuns(p) && AllRuns(q) && forall x :: Starts(p, x) <= Starts(q, x)
    ensures |p| <= |q|
    decreases |p|
  {
    if p != [] {
      assert IsRun(Last(p));
      var x := Last(p)[0];
      assert Starts(q, x) >= Starts(p, x) >= 1;
      var k := SomeStart(q, x);
      var rest := q[..k] + q[k + 1..];
      forall y ensures Starts(Front(p), y) <= Starts(rest, y) {
        StartsWithout(q, k, y);
      }
      FewerStarts(Front(p), rest);
    }
  }

  lemma {:induction false} SomeStart(p: seq<seq<int>>, x: int) returns (k: nat)
    requires Starts(p, x) > 0
    ensures k < |p| && p[k] != [] && p[k][0] == x
  {
    if Last(p) != [] && Last(p)[0] == x {
      k := |p| - 1;
    } else {
      k := SomeStart(Front(p), x);
    }
  }

  lemma {:induction false} SomeEnd(p: seq<seq<int>>, x: int) returns (k: nat)
    requires Ends(p, x) > 0
    ensures k < |p| && p[k] != [] && Last(p[k]) == x
  {
    if Last(p) != [] && Last(Last(p)) == x {
      k := |p| - 1;
    } else {
      k := SomeEnd(Front(p), x);
    }
  }

  lemma {:induction false} StartsWithout(p: seq<seq<int>>, k: nat, x: int)
    requires k < |p|
    ensures Starts(p, x) == Starts(p[..k] + p[k + 1..], x) + (if p[k] != [] && p[k][0] == x then 1 else 0)
  {
    if k == |p| - 1 {
      assert p[..k] + p[k + 1..] == Front(p);
    } else {
      StartsWithout(Front(p), k, x);
      var rest := p[..k] + p[k + 1..];
      assert Front(rest) == Front(p)[..k] + Front(p)[k + 1..] && Last(rest) == Last(p);
    }
  }

  /** The number of read requests is the least possible exactly when no two neighbouring registers both repeat. */
  lemma {:induction false} RegSortOptimal(registers: seq<int>)
    ensures FewestGroups(Groups(Sort(registers)), registers) <==> forall x :: !NeighboursRepeat(registers, x)
  {
    if forall x :: !NeighboursRepeat(registers, x) {
      forall q | IsPartition(q, registers) ensures |Groups(Sort(registers))| <= |q| {
        NoFewer(registers, q);
      }
    } else {
      var x :| NeighboursRepeat(registers, x);
      var q := MergedPartition(registers, x);
    }
  }

  lemma NoFewer(registers: seq<int>, q: seq<seq<int>>)
    requires IsPartition(q, registers) && forall x :: !NeighboursRepeat(registers, x)
    ensures |Groups(Sort(registers))| <= |q|
  {
    var s := Sort(registers);
    var p := Groups(s);
    SortAscends(registers);
    RegSortPartitions(registers);
    forall x ensures Starts(p, x) <= Starts(q, x) {
      GreedyStarts(s, x);
      StartsBalanceEnds(q, x);
      assert !NeighboursRepeat(registers, x - 1);
    }
    FewerStarts(p, q);
  }

  /** Where two neighbours both repeat, one group can be appended to another. */
  lemma MergedPartition(registers: seq<int>, x: int) returns (q: seq<seq<int>>)
    requires NeighboursRepeat(registers, x)
    ensures IsPartition(q, registers) && |q| < |Groups(Sort(registers))|
  {
    var s := Sort(registers);
    var p := Groups(s);
    SortAscends(registers);
    RegSortPartitions(registers);
    GreedyStarts(s, x + 1);
    StartsBalanceEnds(p, x + 1);
    var i := SomeEnd(p, x);
    var k := SomeStart(p, x + 1);
    assert IsRun(p[i]) && IsRun(p[k]);
    q := Merge(p, i, k);
  }

  /** Append group `k` to group `i`. */
  lemma Merge(p: seq<seq<int>>, i: nat, k: nat) returns (q: seq<seq<int>>)
    requires AllRuns(p) && i < |p| && k < |p| && IsRun(p[i]) && IsRun(p[k]) && p[k][0] == Last(p[i]) + 1
    ensures AllRuns(q) && multiset(Concat(q)) == multiset(Concat(p)) && |q| < |p|
  {
    var joined := p[i] + p[k];
    assert i != k;
    assert IsRun(joined);
    var r := p[i := joined];
    q := r[..k] + r[k + 1..];
    hide Concat;
    ConcatReplace(p, i, joined);
    ConcatWithout(r, k);
    assert r[k] == p[k] && multiset(joined) == multiset(p[i]) + multiset(p[k]);
    Cancel(multiset(Concat(q)), multiset(Concat(p)), multiset(p[k]), multiset(p[i]));
  }

  lemma Cancel(a: multiset<int>, b: multiset<int>, c: multiset<int>, d: multiset<int>)
    requires a + c + d == b + (d + c)
    ensures a == b
  {
    forall x ensures a[x] == b[x] {
      assert (a + c + d)[x] == (b + (d + c))[x];
    }
  }

  lemma ConcatWithout(p: seq<seq<int>>, k: nat)
    requires k < |p|
    ensures multiset(Concat(p)) == multiset(Concat(p[..k] + p[k + 1..])) + multiset(p[k])
  {
    hide Concat;
    ConcatSplit(p[..k], p[k + 1..]);
    ConcatLast(p[..k], p[k]);
    ConcatSplit(p[..k] + [p[k]], p[k + 1..]);
    assert p == p[..k] + [p[k]] + p[k + 1..];
  }

  lemma ConcatReplace(p: seq<seq<int>>, i: nat, g: seq<int>)
    requires i < |p|
    ensures multiset(Concat(p[i := g])) + multiset(p[i]) == multiset(Concat(p)) + multiset(g)
  {
    hide Concat;
    var r := p[i := g];
    ConcatWithout(p, i);
    ConcatWithout(r, i);
    assert r[..i] == p[..i] && r[i + 1..] == p[i + 1..];
  }

  // ----- Which registers share a group -----

  ghost predicate Together(p: seq<seq<int>>, a: int, b: int) {
    exists g :: g in p && a in g && b in g
  }

  /**
    Two listed registers are read by one request exactly when every register strictly between them is listed,
    and listed once: a gap separates them, and so does a repetition.
  */
  lemma {:induction false} SameGroupExactly(registers: seq<int>, a: int, b: int)
    requires a in registers && b in registers && a <= b
    ensures Together(Groups(Sort(registers)), a, b) <==> forall x :: a < x < b ==> Count(registers, x) == 1
  {
    var s := Sort(registers);
    SortAscends(registers);
    RegSortPartitions(registers);
    GroupsConcat(s);
    hide Groups, Sort;
    if Together(Groups(s), a, b) {
      var g :| g in Groups(s) && a in g && b in g;
      assert IsRun(g);
      forall x | a < x < b ensures Count(registers, x) == 1 {
        InnerOnce(s, Groups(s), g, a, x, b);
      }
    }
    if forall x :: a < x < b ==> Count(registers, x) == 1 {
      forall x | a <= x <= b ensures Count(s, x) == Count(registers, x) {}
      OneGroup(s, a, b);
    }
  }

  lemma OneGroup(s: seq<int>, a: int, b: int)
    requires Ascending(s) && Count(s, a) > 0 && Count(s, b) > 0 && a <= b
    requires forall x :: a < x < b ==> Count(s, x) == 1
    ensures Together(Groups(s), a, b)
  {
    hide Groups, Starts, Concat;
    var p := Groups(s);
    GroupsAreRuns(s);
    GroupsConcat(s);
    if a == b {
      var k := GroupWith(p, a);
      assert p[k] in p;
    } else {
      GreedyStarts(s, b);
      var k := InnerMember(p, b);
      assert p[k] in p && IsRun(p[k]);
      ReachesDown(s, p[k], k, a, b);
    }
  }

  /** No group starts strictly between `a` and `b`, so one that holds `b` further on holds `a`, too. */
  lemma ReachesDown(s: seq<int>, g: seq<int>, k: nat, a: int, b: int)
    requires Ascending(s) && Count(s, a) > 0 && a < b
    requires forall x :: a < x < b ==> Count(s, x) == 1
    requires k < |Groups(s)| && Groups(s)[k] == g && IsRun(g) && b in g && g[0] != b
    ensures a in g
  {
    hide Groups, Starts;
    var first := g[0];
    var i :| 0 <= i < |g| && g[i] == b;
    if a < first {
      GreedyStarts(s, first);
      assert first - 1 == a || Count(s, first - 1) == 1;
      StartsWithout(Groups(s), k, first);
    } else {
      assert g[a - first] == a;
    }
  }

  lemma {:induction false} GroupWith(p: seq<seq<int>>, x: int) returns (k: nat)
    requires Count(Concat(p), x) > 0
    ensures k < |p| && x in p[k]
  {
    if x in Last(p) {
      k := |p| - 1;
    } else {
      k := GroupWith(Front(p), x);
    }
  }

  /** Not every occurrence of `x` starts a group: some group has it further on. */
  lemma {:induction false} InnerMember(p: seq<seq<int>>, x: int) returns (k: nat)
    requires AllRuns(p) && Count(Concat(p), x) > Starts(p, x)
    ensures k < |p| && x in p[k] && p[k][0] != x
  {
    var g := Last(p);
    assert IsRun(g);
    RunCount(g, x);
    if x in g && g[0] != x {
      k := |p| - 1;
    } else {
      k := InnerMember(Front(p), x);
    }
  }

  /** In an ascending list, what lies strictly inside a group is not repeated outside it. */
  lemma InnerOnce(s: seq<int>, p: seq<seq<int>>, g: seq<int>, a: int, x: int, b: int)
    requires Ascending(s) && Concat(p) == s && g in p && IsRun(g)
    requires a in g && b in g && a < x < b
    ensures Count(s, x) == 1
  {
    var k :| 0 <= k < |p| && p[k] == g;
    var before, after := Concat(p[..k]), Concat(p[k + 1..]);
    ConcatAround(p, k);
    var at := x - g[0];
    assert g[at - 1] == x - 1 && g[at] == x && g[at + 1] == x + 1;
    var i := |before| + at;
    assert s[i - 1] == x - 1 && s[i] == x && s[i + 1] == x + 1;
    AloneBetween(s, i);
  }

  lemma ConcatAround(p: seq<seq<int>>, k: nat)
    requires k < |p|
    ensures Concat(p) == Concat(p[..k]) + p[k] + Concat(p[k + 1..])
  {
    hide *;
    Around(p, k);
    ConcatLast(p[..k], p[k]);
    ConcatSplit(p[..k] + [p[k]], p[k + 1..]);
  }

  lemma AloneBetween(s: seq<int>, i: nat)
    requires Ascending(s) && 0 < i < |s| - 1 && s[i - 1] < s[i] < s[i + 1]
    ensures Count(s, s[i]) == 1
  {
    var x, low, high := s[i], s[..i], s[i + 1..];
    assert s == low + [x] + high;
    if x in low {
      AtMostLast(low, x);
    }
    if x in high {
      AtLeastFirst(high, x);
    }
  }

  lemma {:induction false} AtLeastFirst(s: seq<int>, z: int)
    requires Ascending(s) && z in s
    ensures s[0] <= z
  {
    if |s| > 1 {
      FrontLast(s);
      if z in Front(s) {
        AtLeastFirst(Front(s), z);
      } else {
        AtLeastFirst(Front(s), s[|s| - 2]);
      }
    }
  }
}
