/**
 The sidebar controls that feed the filter: each dropdown's option list, which
 cascades from the selectors above it, and the two date sliders, whose bounds
 are the earliest and latest disbursement days of the whole table.
 */
module Sidebar {
  import opened Wrappers
  import opened Seqs
  import opened Loans
  import opened Filtering

  /** Column `c` of every row, in row order (`data[c]`). */
  function ColumnOf(rows: seq<Loan>, c: Column): seq<string>
  {
    seq(|rows|, i requires 0 <= i < |rows| => Field(rows[i], c))
  }

  /**
   The option list of selector `c`: the sentinel, then the distinct values of
   `c` among the rows that pass every selector above `c` in the cascade.
   */
  function Options(rows: seq<Loan>, sel: Selection, c: Column): (r: seq<string>)
    ensures |r| >= 1 && r[0] == ALL
    ensures forall i, j :: 1 <= i < j < |r| ==> r[i] != r[j]
    ensures forall l :: l in rows && MatchesUpTo(sel, l, Rank(c)) ==> Field(l, c) in r[1..]
    ensures forall v :: v in r[1..] ==> exists l :: l in rows && MatchesUpTo(sel, l, Rank(c)) && Field(l, c) == v
  {
    var upstream := NarrowUpTo(rows, sel, Rank(c));
    var values := ColumnOf(upstream, c);
    var r := [ALL] + Distinct(values);
    assert r[1..] == Distinct(values);
    assert forall l :: l in upstream ==> Field(l, c) in values by {
      forall l | l in upstream
        ensures Field(l, c) in values
      {
        var i :| 0 <= i < |upstream| && upstream[i] == l;
        assert values[i] == Field(l, c);
      }
    }
    assert forall v :: v in values ==> exists l :: l in upstream && Field(l, c) == v by {
      forall v | v in values
        ensures exists l :: l in upstream && Field(l, c) == v
      {
        var i :| 0 <= i < |values| && values[i] == v;
        assert upstream[i] in upstream;
      }
    }
    r
  }

  /** The first and last selectable day of the date sliders. */
  datatype Bounds = Bounds(first: int, last: int)

  /** The earliest disbursement day of a non-empty table (`.min()`). */
  function Earliest(rows: seq<Loan>): (d: int)
    requires rows != []
    ensures exists l :: l in rows && l.disbursed == d
    ensures forall l :: l in rows ==> d <= l.disbursed
  {
    if |rows| == 1 then rows[0].disbursed
    else
      var rest := Earliest(rows[1..]);
      assert rows == [rows[0]] + rows[1..];
      if rows[0].disbursed <= rest then rows[0].disbursed else rest
  }

  /** The latest disbursement day of a non-empty table (`.max()`). */
  function Latest(rows: seq<Loan>): (d: int)
    requires rows != []
    ensures exists l :: l in rows && l.disbursed == d
    ensures forall l :: l in rows ==> l.disbursed <= d
  {
    if |rows| == 1 then rows[0].disbursed
    else
      var rest := Latest(rows[1..]);
      assert rows == [rows[0]] + rows[1..];
      if rows[0].disbursed >= rest then rows[0].disbursed else rest
  }

  /**
   The slider bounds, taken from the whole table: its earliest and latest
   disbursement days. An empty table has neither, and the sliders cannot be
   built.
   */
  function DateBounds(rows: seq<Loan>): (b: Option<Bounds>)
    ensures b.None? <==> rows == []
    ensures b.Some? ==> b.value.first <= b.value.last
    ensures b.Some? ==> forall l :: l in rows ==> b.value.first <= l.disbursed <= b.value.last
    ensures b.Some? ==> exists l :: l in rows && l.disbursed == b.value.first
    ensures b.Some? ==> exists l :: l in rows && l.disbursed == b.value.last
  {
    if rows == [] then None else Some(Bounds(Earliest(rows), Latest(rows)))
  }

  /**
   What the two sliders let a viewer pick: a start day between the bounds, then
   an end day between that start and the last day.
   */
  predicate SliderAllows(b: Bounds, sel: Selection)
  {
    b.first <= sel.start <= sel.end <= b.last
  }

  /** The days a slider with range `r` can be set to. */
  predicate Within(r: Bounds, day: int)
  {
    r.first <= day <= r.last
  }

  /** The start slider ranges over the whole table's days. */
  function StartRange(b: Bounds): Bounds { b }

  /** The end slider's low end is the chosen start day, its high end the last day. */
  function EndRange(b: Bounds, start: int): Bounds { Bounds(start, b.last) }

  /**
   A pair of slider positions can be reached exactly when `SliderAllows` holds,
   so a reachable window never has its end before its start.
   */
  lemma SlidersReach(b: Bounds, sel: Selection)
    ensures Within(StartRange(b), sel.start) && Within(EndRange(b, sel.start), sel.end)
      <==> SliderAllows(b, sel)
    ensures SliderAllows(b, sel) ==> sel.start <= sel.end && b.first <= b.last
  {
  }

  /** The sidebar as first drawn: every selector "All", sliders at their ends. */
  function DefaultSelection(rows: seq<Loan>): (sel: Option<Selection>)
    ensures sel.Some? <==> rows != []
    ensures sel.Some? ==> NoCategory(sel.value) && SliderAllows(DateBounds(rows).value, sel.value)
    ensures sel.Some? ==> sel.value.start == DateBounds(rows).value.first
    ensures sel.Some? ==> sel.value.end == DateBounds(rows).value.last
  {
    match DateBounds(rows)
    case None => None
    case Some(b) => Some(Selection(ALL, ALL, ALL, ALL, ALL, b.first, b.last))
  }

  /** The dashboard as first drawn shows the whole table, in table order. */
  lemma DefaultSelectionKeepsEverything(rows: seq<Loan>)
    requires rows != []
    ensures FilterLoans(rows, DefaultSelection(rows).value) == rows
  {
    var sel := DefaultSelection(rows).value;
    NoCategoryIsWindow(rows, sel);
    KeepAll(rows, Window(sel.start, sel.end));
  }

  /** A value other than "All" picked from a dropdown occurs on a row that passes the selectors above. */
  lemma PickedValueOccurs(rows: seq<Loan>, sel: Selection, c: Column, v: string)
    requires v != ALL && v in Options(rows, sel, c)
    ensures exists l :: l in rows && MatchesUpTo(sel, l, Rank(c)) && Field(l, c) == v
  {
    var opts := Options(rows, sel, c);
    var i :| 0 <= i < |opts| && opts[i] == v;
    assert opts[1..][i - 1] == v;
  }

  /**
   Picking every selector from its own option list never empties the
   categorical part of the view: some row of the table passes all five.
   */
  lemma {:induction false} PickedOptionsKeepARow(rows: seq<Loan>, sel: Selection, k: nat)
    requires rows != []
    requires k <= |Columns|
    requires forall c :: Rank(c) < k ==> Choice(sel, c) in Options(rows, sel, c)
    ensures NarrowUpTo(rows, sel, k) != []
  {
    if k > 0 {
      var c := Columns[k - 1];
      var v := Choice(sel, c);
      RankOfColumn(k - 1);
      var l: Loan;
      if v == ALL {
        PickedOptionsKeepARow(rows, sel, k - 1);
        l := NarrowUpTo(rows, sel, k - 1)[0];
      } else {
        PickedValueOccurs(rows, sel, c, v);
        l :| l in rows && MatchesUpTo(sel, l, k - 1) && Field(l, c) == v;
      }
      assert MatchesUpTo(sel, l, k);
      assert l in NarrowUpTo(rows, sel, k);
    }
  }
}
