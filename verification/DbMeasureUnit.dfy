/** The write buffer in front of the database, with commits that may fail. */
module DbMeasureUnit {
  import opened Sequences
  import opened Samples

  datatype Row = Row(id: int, sample: Sample)

  /**
    What becomes of one transaction: it is committed and reported so, it is refused, or it is committed
    while the writer sees a failure because the answer came too late.
  */
  datatype Commit = Done | Refused | Unheard

  /** The rows of one tag, without the tag. */
  function ForTag(rows: seq<Row>, id: int): seq<Sample> {
    if rows == [] then []
    else ForTag(rows[..|rows| - 1], id) + (if rows[|rows| - 1].id == id then [rows[|rows| - 1].sample] else [])
  }

  lemma ForTagLast(rows: seq<Row>, row: Row, id: int)
    ensures ForTag(rows + [row], id) == if row.id == id then ForTag(rows, id) + [row.sample] else ForTag(rows, id)
  {
    assert (rows + [row])[..|rows|] == rows;
  }

  const BATCH_LIMIT: nat := 20

  /** Every row given is stored at least as often as it was given, and no other row is. */
  ghost predicate Kept(given: seq<Row>, stored: seq<Row>) {
    multiset(given) <= multiset(stored) && forall row :: row in stored ==> row in given
  }

  class DbMeasureUnit {
    var buff: seq<Row>
    /** The committed transactions, every row ever given to be saved, and whether some answer went unheard. */
    ghost var batches: seq<seq<Row>>
    ghost var given: seq<Row>
    ghost var unheard: bool

    /** Everything in the database, followed by what waits for the next flush. */
    ghost function Stored(): seq<Row>
      reads this
    {
      Concat(batches) + buff
    }

    /**
      No row is ever lost or made up: every row is stored at least as often as it was given, and nothing else is.
      Rows are stored exactly as given, in order, if and only if no commit went unheard.
    */
    ghost predicate Valid()
      reads this
    {
      && (forall b :: b in batches ==> |b| > BATCH_LIMIT)
      && |buff| <= |given| <= |Stored()| && given[|given| - |buff|..] == buff
      && Kept(given, Stored())
      && (unheard ==> |given| < |Stored()|)
      && (!unheard ==> Stored() == given)
    }

    constructor ()
      ensures Valid() && given == [] && batches == [] && !unheard
    {
      buff, batches, given, unheard := [], [], [], false;
    }

    method SaveValue(row: Row, commit: Commit) returns (ok: bool)
      requires Valid()
      modifies this
      ensures Valid() && given == old(given) + [row]
      ensures old(|buff|) < BATCH_LIMIT ==> ok && batches == old(batches) && buff == old(buff) + [row] && unheard == old(unheard)
      ensures old(|buff|) >= BATCH_LIMIT ==>
                && (ok <==> commit == Done)
                && batches == old(batches) + (if commit == Refused then [] else [old(buff) + [row]])
                && buff == (if commit == Done then [] else old(buff) + [row])
                && unheard == (old(unheard) || commit == Unheard)
    {
      hide Kept, Concat;
      ghost var before, givenBefore := Stored(), given;
      buff := buff + [row];
      given := given + [row];
      assert Stored() == before + [row];
      BothExtended(givenBefore, before, row);
      assert Valid();
      if |buff| > BATCH_LIMIT {
        ok := Flush(commit);
      } else {
        ok := true;
      }
    }

    method Flush(commit: Commit) returns (ok: bool)
      requires Valid() && |buff| > BATCH_LIMIT
      modifies this`buff, this`batches, this`unheard
      ensures Valid() && (ok <==> commit == Done)
      ensures batches == old(batches) + (if commit == Refused then [] else [old(buff)])
      ensures buff == (if commit == Done then [] else old(buff))
      ensures unheard == (old(unheard) || commit == Unheard)
    {
      ConcatLast(batches, buff);
      hide Kept, Concat;
      ghost var before := Stored();
      if commit != Refused {
        batches := batches + [buff];
      }
      if commit == Done {
        buff := [];
        assert Stored() == before;
      } else if commit == Unheard {
        unheard := true;
        assert Stored() == before + buff;
        BuffRepeated(given, before, buff);
      }
      ok := commit == Done;
    }
  }

  lemma BothExtended(given: seq<Row>, stored: seq<Row>, row: Row)
    requires Kept(given, stored)
    ensures Kept(given + [row], stored + [row])
  {
  }

  lemma BuffRepeated(given: seq<Row>, stored: seq<Row>, buff: seq<Row>)
    requires Kept(given, stored)
    requires |buff| <= |given| && given[|given| - |buff|..] == buff
    ensures Kept(given, stored + buff)
  {
    assert multiset(stored + buff) == multiset(stored) + multiset(buff);
    forall r | r in buff ensures r in given {
      assert r in given[|given| - |buff|..];
    }
  }

  /** After one commit that took effect unheard, 21 rows are stored 42 times: in the database, and waiting once more. */
  method UnheardTwice(row: Row) returns (unit: DbMeasureUnit)
    ensures fresh(unit) && unit.Valid() && unit.unheard
    ensures |unit.given| == 21 && |unit.Stored()| == 42 && unit.buff == unit.given && unit.batches == [unit.given]
  {
    unit := new DbMeasureUnit();
    for i := 0 to 20
      invariant fresh(unit) && unit.Valid() && !unit.unheard && unit.batches == []
      invariant |unit.buff| == i && unit.buff == unit.given
    {
      var ok := unit.SaveValue(row, Done);
    }
    var ok := unit.SaveValue(row, Unheard);
    ConcatLast([], unit.given);
    assert [] + [unit.given] == [unit.given] && Concat([]) + unit.given == unit.given;
  }
}
