/** One cache per tag, all feeding one write buffer. */
module MeasureMaster {
  import opened Sequences
  import opened Samples
  import opened HasherSpec
  import opened RingBuffer
  import opened SignalTiming
  import opened ValueHasherUnit
  import opened DbMeasureUnit

  /** The number of slots of every cache. */
  const MAX_POINTS: nat := 131072

  datatype Measure = Measure(id: int, isLogging: bool, sample: Sample)

  datatype Response = Response(id: int, values: seq<Sample>, from: int, to: int)

  /** The rows that are logged, in order of arrival. */
  function Logged(measures: seq<Measure>): seq<Row> {
    if measures == [] then []
    else
      var m := measures[|measures| - 1];
      Logged(measures[..|measures| - 1]) + (if m.isLogging then [Row(m.id, m.sample)] else [])
  }

  lemma LoggedLast(measures: seq<Measure>, m: Measure)
    ensures Logged(measures + [m]) == if m.isLogging then Logged(measures) + [Row(m.id, m.sample)] else Logged(measures)
  {
    assert (measures + [m])[..|measures|] == measures;
  }

  /** Every measure leaves its row at its own place if it is to be logged, and nothing otherwise. */
  lemma {:induction false} LoggedExactly(a: seq<Measure>, m: Measure, b: seq<Measure>)
    ensures Logged([]) == []
    ensures Logged(a + [m] + b) == Logged(a) + (if m.isLogging then [Row(m.id, m.sample)] else []) + Logged(b)
  {
    var here := if m.isLogging then [Row(m.id, m.sample)] else [];
    if b == [] {
      assert a + [m] + b == a + [m];
      LoggedLast(a, m);
    } else {
      var p, x := Front(b), Last(b);
      FrontLast(b);
      hide *;
      Assoc(a + [m], p, [x]);
      LoggedExactly(a, m, p);
      LoggedLast(a + [m] + p, x);
      LoggedLast(p, x);
      Assoc(Logged(a) + here, Logged(p), [Row(x.id, x.sample)]);
    }
  }

  lemma LoggedNext(before: seq<Row>, measures: seq<Measure>, i: nat)
    requires i < |measures|
    ensures before + Logged(measures[..i + 1])
         == if measures[i].isLogging then before + Logged(measures[..i]) + [Row(measures[i].id, measures[i].sample)]
            else before + Logged(measures[..i])
  {
    hide Logged;
    assert measures[..i + 1] == measures[..i] + [measures[i]];
    LoggedLast(measures[..i], measures[i]);
    Assoc(before, Logged(measures[..i]), [Row(measures[i].id, measures[i].sample)]);
  }

  lemma {:induction false} ForTagSplit(a: seq<Row>, b: seq<Row>, id: int)
    ensures ForTag(a + b, id) == ForTag(a, id) + ForTag(b, id)
  {
    if b == [] {
      assert a + b == a;
    } else {
      hide *;
      var p, x := Front(b), Last(b);
      FrontLast(b);
      Assoc(a, p, [x]);
      ForTagSplit(a, p, id);
      ForTagLast(a + p, x, id);
      ForTagLast(p, x, id);
      Assoc(ForTag(a, id), ForTag(p, id), if x.id == id then [x.sample] else []);
    }
  }

  /** What the samples of one tag must have put into the database. */
  ghost function ExpectedLog(samples: seq<Sample>): seq<Sample> {
    if samples == [] then [] else Run(samples).log
  }

  class MeasureMaster {
    var hashers: map<int, ValueHasher>
    const dbUnit: DbMeasureUnit
    /** All logged samples so far. */
    ghost var arrived: seq<Row>

    ghost var Repr: set<object>

    ghost predicate Separate()
      reads this, Repr
    {
      && this in Repr && dbUnit in Repr
      && (forall id :: id in hashers ==> hashers[id] in Repr && hashers[id].slots in Repr)
      && forall i, j :: i in hashers && j in hashers && i != j ==> hashers[i] != hashers[j] && hashers[i].slots != hashers[j].slots
    }

    /** The tag's cache has seen exactly its own samples, and its own log is what was handed over for saving. */
    ghost predicate TagValid(id: int)
      requires Separate()
      reads this, Repr
    {
      if id in hashers then
        hashers[id].Valid() && hashers[id].inputs == ForTag(arrived, id) && hashers[id].log == ForTag(dbUnit.given, id)
        && hashers[id].capacity == MAX_POINTS
      else
        ForTag(arrived, id) == [] == ForTag(dbUnit.given, id)
    }

    ghost predicate Valid()
      reads this, Repr
    {
      Separate() && dbUnit.Valid() && forall id :: TagValid(id)
    }

    constructor ()
      ensures Valid() && fresh(Repr) && arrived == [] && dbUnit.given == [] && hashers == map[]
    {
      hashers, arrived := map[], [];
      var unit := new DbMeasureUnit();
      dbUnit := unit;
      Repr := {this, unit};
    }

    /** Hand one point over for saving, whatever the database makes of it. */
    method Save(id: int, x: Sample)
      requires dbUnit.Valid()
      modifies dbUnit
      ensures dbUnit.Valid() && dbUnit.given == old(dbUnit.given) + [Row(id, x)]
    {
      var commit: Commit := *;
      var ok := dbUnit.SaveValue(Row(id, x), commit);
    }

    /** The older point is saved first. */
    method SaveBoth(id: int, now: Option<Sample>, before: Option<Sample>)
      requires dbUnit.Valid()
      modifies dbUnit
      ensures dbUnit.Valid()
      ensures dbUnit.given == old(dbUnit.given) + Tagged(id, ValueHasher.Rows(now, before))
    {
      hide DbMeasureUnit.Valid;
      if before.Some? {
        Save(id, before.value);
      }
      if now.Some? {
        Save(id, now.value);
      }
    }

    method AddToExisting(id: int, x: Sample)
      requires Valid() && id in hashers
      modifies Repr
      ensures Repr == old(Repr)
      ensures Valid() && arrived == old(arrived) + [Row(id, x)]
    {
      hide ForTag, Tagged, ValueHasher.Rows, ValueHasher.Valid, DbMeasureUnit.Valid;
      assert TagValid(id);
      ghost var arrivedBefore, givenBefore := arrived, dbUnit.given;
      var hasher := hashers[id];
      var now, previous := hasher.Add(x);
      ghost var rows := ValueHasher.Rows(now, previous);
      SaveBoth(id, now, previous);
      arrived := arrived + [Row(id, x)];
      forall other ensures TagValid(other) {
        assert old(TagValid(other));
        OneTagMoves(arrivedBefore, givenBefore, id, x, rows, other);
      }
    }

    method AddFirst(id: int, x: Sample)
      requires Valid() && id !in hashers
      modifies this, dbUnit
      ensures Valid() && arrived == old(arrived) + [Row(id, x)]
      ensures fresh(Repr - old(Repr))
    {
      hide ForTag, Tagged, ValueHasher.Valid, DbMeasureUnit.Valid;
      assert TagValid(id);
      ghost var arrivedBefore, givenBefore := arrived, dbUnit.given;
      var hasher := new ValueHasher(MAX_POINTS, x);
      hashers := hashers[id := hasher];
      Repr := Repr + {hasher, hasher.slots};
      Save(id, x);
      arrived := arrived + [Row(id, x)];
      forall other ensures TagValid(other) {
        assert old(TagValid(other));
        ForTagLast(arrivedBefore, Row(id, x), other);
        ForTagLast(givenBefore, Row(id, x), other);
      }
    }

    method WriteMeasure(measures: seq<Measure>)
      requires Valid()
      modifies Repr
      ensures Valid() && fresh(Repr - old(Repr))
      ensures arrived == old(arrived) + Logged(measures)
    {
      hide Valid, TagValid, Separate, DbMeasureUnit.Valid;
      ghost var before := arrived;
      assert before + [] == before && measures[..0] == [];
      for i := 0 to |measures|
        invariant Valid() && fresh(Repr - old(Repr))
        invariant arrived == before + Logged(measures[..i])
      {
        hide Logged;
        LoggedNext(before, measures, i);
        if measures[i].isLogging {
          WriteOne(measures[i].id, measures[i].sample);
        }
      }
      assert measures[..|measures|] == measures;
    }

    method WriteOne(id: int, x: Sample)
      requires Valid()
      modifies Repr
      ensures Valid() && fresh(Repr - old(Repr)) && arrived == old(arrived) + [Row(id, x)]
    {
      hide TagValid, DbMeasureUnit.Valid;
      if id in hashers {
        AddToExisting(id, x);
      } else {
        AddFirst(id, x);
      }
    }

    /** What the cache of the tag answers, if there is one. */
    ghost function FromCache(id: int, from: int, to: int): Option<seq<Sample>>
      requires Valid()
      reads this, Repr
    {
      assert TagValid(id);
      if id in hashers then hashers[id].Cached(from, to) else None
    }

    /** The database is asked only where no cache can answer. */
    method ReadOne(id: int, from: int, to: int, table: (int, int, int) -> Option<seq<Sample>>) returns (r: Option<seq<Sample>>)
      requires Valid() && Spaced(ForTag(arrived, id), 0)
      ensures r == if FromCache(id, from, to).Some? then FromCache(id, from, to) else table(id, from, to)
    {
      assert TagValid(id);
      hide ForTag, ValueHasher.Valid, Spaced, ValueHasher.Cached, Positive, InRange, ValueHasher.Live, ValueHasher.History;
      if id in hashers {
        r := hashers[id].GetHashed(from, to);
        if r.Some? {
          return;
        }
      }
      r := table(id, from, to);
    }

    /** One answer per requested tag, in the order of the request, or nothing if the database fails one of them. */
    method ReadMeasure(ids: seq<int>, from: int, to: int, table: (int, int, int) -> Option<seq<Sample>>)
      returns (r: Option<seq<Response>>)
      requires Valid() && forall id :: Spaced(ForTag(arrived, id), 0)
      ensures r == None <==> exists i :: 0 <= i < |ids| && FromCache(ids[i], from, to) == None == table(ids[i], from, to)
      ensures r.Some? ==> |r.value| == |ids| && forall i :: 0 <= i < |ids| ==>
                var answer := if FromCache(ids[i], from, to).Some? then FromCache(ids[i], from, to) else table(ids[i], from, to);
                answer.Some? && r.value[i] == Response(ids[i], answer.value, from, to)
    {
      hide TagValid, FromCache, ForTag, Spaced;
      var results: seq<Response> := [];
      for k := 0 to |ids|
        invariant Valid() && forall id :: Spaced(ForTag(arrived, id), 0)
        invariant |results| == k
        invariant forall i :: 0 <= i < k ==>
          var answer := if FromCache(ids[i], from, to).Some? then FromCache(ids[i], from, to) else table(ids[i], from, to);
          answer.Some? && results[i] == Response(ids[i], answer.value, from, to)
      {
        var res := ReadOne(ids[k], from, to, table);
        if res == None {
          return None;
        }
        results := results + [Response(ids[k], res.value, from, to)];
      }
      return Some(results);
    }

    /** An answer that comes from a cache is the tag's complete history in that interval. */
    lemma {:induction false} CachedAnswerIsComplete(id: int, from: int, to: int)
      requires Valid() && Spaced(ForTag(arrived, id), 1) && Positive(ForTag(arrived, id))
      requires FromCache(id, from, to).Some?
      ensures ForTag(arrived, id) != []
      ensures FromCache(id, from, to).value == InRange(Run(ForTag(arrived, id)).memory.history, from, to)
    {
      assert TagValid(id);
      hashers[id].LiveAnswersForHistory(from, to);
    }

    /**
      The database need not be asked for any interval that contains an entry of the tag and starts at or after the
      oldest of its newest 131071 entries, once there are two.
    */
    lemma {:induction false} RecentIsCached(id: int, from: int, to: int)
      requires Valid() && ForTag(arrived, id) != [] && Spaced(ForTag(arrived, id), 0)
      requires var history := Run(ForTag(arrived, id)).memory.history;
               && |history| >= 2 && from < to && (exists x :: x in history && from <= x.ts < to)
               && history[if |history| < 131072 then 0 else |history| - 131071].ts <= from
      ensures FromCache(id, from, to).Some?
    {
      assert TagValid(id);
      hide Run, ForTag, Spaced, ValueHasher.Cached;
      hashers[id].Answers(from, to);
    }

    /**
      Unless a commit went unheard, the rows of each tag in the database and the buffer are exactly the log of that
      tag's own samples, whatever the other tags did and whichever flushes failed.
    */
    lemma StoredIsExpected(id: int)
      requires Valid() && !dbUnit.unheard
      ensures ForTag(dbUnit.Stored(), id) == ExpectedLog(ForTag(arrived, id))
    {
      assert TagValid(id);
    }

    /** The stored rows of a tag whose samples are strictly later than one another are strictly later, too. */
    lemma StoredStrictlyIncreases(id: int)
      requires Valid() && !dbUnit.unheard && Spaced(ForTag(arrived, id), 1)
      ensures forall i, j :: 0 <= i < j < |ForTag(dbUnit.Stored(), id)| ==>
                ForTag(dbUnit.Stored(), id)[i].ts < ForTag(dbUnit.Stored(), id)[j].ts
    {
      StoredIsExpected(id);
      if ForTag(arrived, id) != [] {
        LogStrictlyIncreases(ForTag(arrived, id));
      }
    }
  }

  /** A sample of one tag and the rows it leads to concern that tag only. */
  lemma OneTagMoves(arrived: seq<Row>, given: seq<Row>, id: int, x: Sample, rows: seq<Sample>, other: int)
    ensures ForTag(arrived + [Row(id, x)], other) == if other == id then ForTag(arrived, other) + [x] else ForTag(arrived, other)
    ensures ForTag(given + Tagged(id, rows), other) == if other == id then ForTag(given, other) + rows else ForTag(given, other)
  {
    hide ForTag, Tagged;
    ForTagLast(arrived, Row(id, x), other);
    ForTagSplit(given, Tagged(id, rows), other);
    ForTagTagged(id, rows, other);
  }

  function Tagged(id: int, samples: seq<Sample>): (r: seq<Row>)
    ensures |r| == |samples| && forall i :: 0 <= i < |r| ==> r[i] == Row(id, samples[i])
  {
    seq(|samples|, i requires 0 <= i < |samples| => Row(id, samples[i]))
  }

  lemma {:induction false} ForTagTagged(id: int, samples: seq<Sample>, other: int)
    ensures ForTag(Tagged(id, samples), other) == if other == id then samples else []
  {
    if samples != [] {
      assert Tagged(id, samples) == Tagged(id, Front(samples)) + [Row(id, Last(samples))];
      FrontLast(samples);
      hide ForTag, Tagged;
      ForTagTagged(id, Front(samples), other);
      ForTagLast(Tagged(id, Front(samples)), Row(id, Last(samples)), other);
    }
  }
}
