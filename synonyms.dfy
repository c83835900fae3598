/**
 * The synonym picker of the status line (`_synonyms`, `incrementSynonym`,
 * `nextSynonym` and `applySynonym` in stats.js): a list of synonyms with
 * one row marked active, a cursor that steps through the rows and wraps
 * around, and a replacement that only fires once the cursor has moved.
 */
module Synonyms {
  import opened Wrappers

  /** `(index + 1) % n`: the next row, back to the first after the last. */
  function NextIndex(index: nat, n: nat): (j: nat)
    requires n > 0
    ensures j < n
    ensures index < n - 1 ==> j == index + 1
    ensures index == n - 1 ==> j == 0
  {
    (index + 1) % n
  }

  /** Where `k` steps of `NextIndex` from `index` lead. */
  function Advance(index: nat, n: nat, k: nat): nat
    requires n > 0
  {
    if k == 0 then index else NextIndex(Advance(index, n, k - 1), n)
  }

  /**
   * Within one round, `k` steps move the cursor `k` rows on, counting
   * past the last row back from the first.
   */
  lemma {:induction false} AdvanceWithinRound(index: nat, n: nat, k: nat)
    requires index < n && k <= n
    ensures Advance(index, n, k) == if index + k < n then index + k else index + k - n
  {
    if k > 0 {
      AdvanceWithinRound(index, n, k - 1);
    }
  }

  /** As many steps as there are rows bring the cursor back where it was. */
  lemma {:induction false} FullCycle(index: nat, n: nat)
    requires index < n
    ensures Advance(index, n, n) == index
  {
    AdvanceWithinRound(index, n, n);
  }

  /** The `active` classes of `n` rows when only row `k` carries it. */
  function Marks(n: nat, k: nat): (marks: seq<bool>)
    ensures |marks| == n
    ensures forall i :: 0 <= i < n ==> (marks[i] <==> i == k)
  {
    seq(n, i => i == k)
  }

  /** Taking the mark off one row and putting it on another leaves one mark, on the other row. */
  lemma {:induction false} MarkMoves(n: nat, from: nat, to: nat)
    requires from < n && to < n
    ensures Marks(n, from)[from := false][to := true] == Marks(n, to)
  {
    var moved := Marks(n, from)[from := false][to := true];
    assert forall i :: 0 <= i < n ==> moved[i] == Marks(n, to)[i];
  }

  /**
   * `left.selection.index`: a row number, or the NaN that `% 0` leaves
   * behind once the cursor steps through an empty synonym list.
   */
  datatype Cursor = Row(i: nat) | NotANumber

  /** The cursor points at one of `n` rendered rows. */
  predicate OnRow(c: Cursor, n: nat)
  {
    c.Row? && c.i < n
  }

  /**
   * `incrementSynonym` over a list of `n` synonyms: the next row, wrapping
   * around; NaN stays NaN, and `% 0` turns a row into NaN.
   */
  function Step(c: Cursor, n: nat): (d: Cursor)
    ensures d.NotANumber? <==> (c.NotANumber? || n == 0)
    ensures d.Row? ==> d.i < n && d.i == NextIndex(c.i, n)
  {
    if c.NotANumber? || n == 0 then NotANumber else Row(NextIndex(c.i, n))
  }

  /**
   * What `applySynonym` does: nothing; hand a synonym to the replace
   * callback; hand it `undefined`, which indexing an empty list or a NaN
   * cursor gives; or fail because `left.synonyms` is null.
   */
  datatype ApplyOutcome = Ignored | Replace(word: string) | ReplaceWithUndefined | NoList

  class SynonymBrowser {
    /** The texts of the rows of the rendered list (`this.list`); empty while no list was rendered. */
    var rows: seq<string>
    /** Which rows carry the `active` class. */
    var active: seq<bool>
    /** `left.synonyms` as the last update saw it; `None` for null. */
    var synonyms: Option<seq<string>>
    /** The cursor, `left.selection.index`. */
    var cursor: Cursor
    /** Set by the first step of the cursor and never cleared. */
    var isSynonymsActive: bool

    /** A mark per rendered row. */
    ghost predicate Valid()
      reads this
    {
      |active| == |rows|
    }

    /** Exactly one row is marked, the one under the cursor. */
    predicate OneMark()
      reads this
    {
      OnRow(cursor, |rows|) && active == Marks(|rows|, cursor.i)
    }

    /**
     * Nothing rendered, no list, the flag down. The cursor belongs to the
     * editor's selection, not to the status line, so its value at the
     * start is a parameter: a step that fails before any `Open` leaves it
     * as it was, and `applySynonym` then reads it.
     */
    constructor (start: Cursor)
      ensures Valid()
      ensures rows == [] && active == [] && synonyms == None && cursor == start && !isSynonymsActive
    {
      rows, active, synonyms, cursor, isSynonymsActive := [], [], None, start, false;
    }

    /** The editor sets `left.synonyms`; nothing else changes. */
    method Hand(list: Option<seq<string>>)
      requires Valid()
      modifies this
      ensures Valid() && synonyms == list
      ensures rows == old(rows) && active == old(active) && cursor == old(cursor)
      ensures isSynonymsActive == old(isSynonymsActive)
    {
      synonyms := list;
    }

    /**
     * `_synonyms`: moves the cursor to the first row and, for a non-empty
     * `left.synonyms`, renders it with the first row marked. An empty list
     * has no first row to mark: the source throws there, after resetting
     * the cursor and before replacing the old rendered list, which keeps
     * its marks. It is only called while `left.synonyms` is set.
     */
    method Open() returns (ok: bool)
      requires Valid() && synonyms.Some?
      modifies this
      ensures Valid()
      ensures cursor == Row(0) && synonyms == old(synonyms)
      ensures isSynonymsActive == old(isSynonymsActive)
      ensures ok == (|synonyms.value| > 0)
      ensures ok ==> rows == synonyms.value && active == Marks(|rows|, 0) && OneMark()
      ensures !ok ==> rows == old(rows) && active == old(active)
    {
      cursor := Row(0);
      var list := synonyms.value;
      if |list| == 0 {
        return false;
      }
      rows := list;
      active := Marks(|list|, 0);
      ok := true;
    }

    /**
     * `nextSynonym`: raises the flag, then moves the cursor a step through
     * `left.synonyms` and the mark from the old row to the new one. The
     * source throws with no rendered list or a null `left.synonyms`, before
     * the cursor moves; once it has moved, it throws when the old cursor
     * was on no row (before any mark changes) or the new one is on no row
     * (after the old row lost its mark).
     */
    method Next() returns (ok: bool)
      requires Valid()
      modifies this
      ensures Valid()
      ensures isSynonymsActive && rows == old(rows) && synonyms == old(synonyms)
      ensures |rows| == 0 || synonyms.None? ==> cursor == old(cursor) && active == old(active)
      ensures |rows| > 0 && synonyms.Some? ==> cursor == Step(old(cursor), |synonyms.value|)
      ensures ok <==> |rows| > 0 && synonyms.Some? && OnRow(old(cursor), |rows|) && OnRow(cursor, |rows|)
      ensures ok ==> active == old(active)[old(cursor).i := false][cursor.i := true]
      ensures ok && old(OneMark()) ==> OneMark()
      ensures !ok && |rows| > 0 && synonyms.Some? && OnRow(old(cursor), |rows|) ==>
        active == old(active)[old(cursor).i := false]
      ensures !OnRow(old(cursor), |rows|) ==> active == old(active)
      ensures synonyms == Some(rows) && OnRow(old(cursor), |rows|) ==>
        ok && cursor == Row(NextIndex(old(cursor).i, |rows|))
    {
      isSynonymsActive := true;
      if |rows| == 0 || synonyms.None? {
        return false;
      }
      var previous := cursor;
      cursor := Step(cursor, |synonyms.value|);
      if !OnRow(previous, |rows|) {
        return false;
      }
      active := active[previous.i := false];
      if !OnRow(cursor, |rows|) {
        return false;
      }
      active := active[cursor.i := true];
      ok := true;
      if old(OneMark()) {
        MarkMoves(|rows|, previous.i, cursor.i);
      }
    }

    /**
     * `applySynonym`: nothing until the cursor has moved once; after
     * that, the synonym under the cursor goes to the editor's replace
     * callback, which gets `undefined` for an empty list or a lost cursor.
     */
    method Apply() returns (outcome: ApplyOutcome)
      requires Valid()
      ensures outcome == Ignored <==> !isSynonymsActive
      ensures isSynonymsActive && synonyms.None? ==> outcome == NoList
      ensures isSynonymsActive && synonyms.Some? && (synonyms.value == [] || cursor.NotANumber?) ==>
        outcome == ReplaceWithUndefined
      ensures isSynonymsActive && synonyms.Some? && synonyms.value != [] && cursor.Row? ==>
        outcome == Replace(synonyms.value[cursor.i % |synonyms.value|])
      ensures isSynonymsActive && synonyms == Some(rows) && OneMark() ==>
        active[cursor.i] && outcome == Replace(rows[cursor.i])
    {
      if !isSynonymsActive {
        return Ignored;
      }
      match synonyms
      case None =>
        outcome := NoList;
      case Some(list) =>
        if list == [] || cursor.NotANumber? {
          outcome := ReplaceWithUndefined;
        } else {
          outcome := Replace(list[cursor.i % |list|]);
        }
    }
  }

  /**
   * Three synonyms: two steps put the cursor and the mark on the third,
   * one more brings them back to the first, which is then what a
   * replacement uses.
   */
  method CycleThroughThree() returns (outcome: ApplyOutcome)
    ensures outcome == Replace("big")
  {
    var b := new SynonymBrowser(Row(0));
    b.Hand(Some(["big", "large", "huge"]));
    var ok := b.Open();
    ok := b.Next();
    ok := b.Next();
    assert b.cursor == Row(2) && b.active == [false, false, true];
    ok := b.Next();
    assert b.cursor == Row(0) && b.active == [true, false, false];
    outcome := b.Apply();
  }

  /**
   * A list of two, then an empty list: the step that follows loses the
   * cursor and every mark, and applying hands `undefined` to the replace
   * callback instead of a synonym.
   */
  method StepAfterEmptyList() returns (outcome: ApplyOutcome)
    ensures outcome == ReplaceWithUndefined
  {
    var b := new SynonymBrowser(Row(0));
    b.Hand(Some(["a", "b"]));
    var ok := b.Open();
    b.Hand(Some([]));
    ok := b.Open();
    assert b.rows == ["a", "b"] && b.active == [true, false];
    ok := b.Next();
    assert !ok && b.cursor == NotANumber && b.active == [false, false];
    outcome := b.Apply();
  }

  /**
   * A list of two, one step, then `left.synonyms` cleared: a further step
   * fails leaving cursor and mark on the second row, and applying fails
   * for want of a list.
   */
  method StepAfterListCleared() returns (ok: bool, outcome: ApplyOutcome)
    ensures !ok && outcome == NoList
  {
    var b := new SynonymBrowser(Row(0));
    b.Hand(Some(["a", "b"]));
    ok := b.Open();
    ok := b.Next();
    b.Hand(None);
    ok := b.Next();
    assert b.cursor == Row(1) && b.active == [false, true];
    outcome := b.Apply();
  }

  /**
   * A list of three rendered, then a longer list handed over without a
   * new rendering: the third step through the longer list takes the
   * cursor past the rendered rows, so it fails after unmarking the last
   * row, and applying reads the longer list.
   */
  method StepThroughLongerList() returns (ok: bool, outcome: ApplyOutcome)
    ensures !ok && outcome == Replace("d")
  {
    var b := new SynonymBrowser(Row(0));
    b.Hand(Some(["a", "b", "c"]));
    ok := b.Open();
    b.Hand(Some(["a", "b", "c", "d"]));
    ok := b.Next();
    ok := b.Next();
    ok := b.Next();
    assert b.cursor == Row(3) && b.active == [false, false, false];
    outcome := b.Apply();
  }

  /**
   * A list handed over by an update in another mode, so nothing was
   * rendered: the first step fails before the cursor moves, but it
   * raises the flag, and applying then reads the list at the editor's
   * own cursor.
   */
  method ApplyWithoutRendering(start: nat) returns (ok: bool, outcome: ApplyOutcome)
    ensures !ok && outcome == Replace(["a", "b"][start % 2])
  {
    var b := new SynonymBrowser(Row(start));
    b.Hand(Some(["a", "b"]));
    ok := b.Next();
    outcome := b.Apply();
  }
}
