/**
 The dashboard's row selection: five categorical selectors, each either the
 sentinel "All" or an equality test on its column, combined by AND, then a
 closed window on the disbursement day.
 */
module Filtering {
  import opened Seqs
  import opened Loans

  /** The sentinel a selector holds when it constrains nothing. */
  const ALL: string := "All"

  /** The sidebar state: five selector values and the two slider days. */
  datatype Selection = Selection(
    country: string,
    sector: string,
    activity: string,
    gender: string,
    repay: string,
    start: int,
    end: int)

  function Choice(sel: Selection, c: Column): string
  {
    match c
    case Country => sel.country
    case Sector => sel.sector
    case Activity => sel.activity
    case Gender => sel.gender
    case Repayment => sel.repay
  }

  /** All five selectors hold the sentinel. */
  predicate NoCategory(sel: Selection)
  {
    sel.country == ALL && sel.sector == ALL && sel.activity == ALL && sel.gender == ALL && sel.repay == ALL
  }

  /** Selector `c` lets row `l` through. */
  predicate Admits(sel: Selection, c: Column, l: Loan)
  {
    Choice(sel, c) == ALL || Field(l, c) == Choice(sel, c)
  }

  predicate InWindow(l: Loan, start: int, end: int)
  {
    start <= l.disbursed <= end
  }

  /** The single conjunctive predicate the filtered view is meant to satisfy. */
  predicate Selected(sel: Selection, l: Loan)
  {
    && Admits(sel, Country, l)
    && Admits(sel, Sector, l)
    && Admits(sel, Activity, l)
    && Admits(sel, Gender, l)
    && Admits(sel, Repayment, l)
    && InWindow(l, sel.start, sel.end)
  }

  /** Row `l` passes the first `k` selectors of the cascade. */
  predicate MatchesUpTo(sel: Selection, l: Loan, k: nat)
  {
    if k == 0 || k > |Columns| then k == 0
    else MatchesUpTo(sel, l, k - 1) && Admits(sel, Columns[k - 1], l)
  }

  // Boolean masks, as closures, so the same mask can be named in several places.
  function HasValue(c: Column, v: string): Loan -> bool { l => Field(l, c) == v }
  function Window(start: int, end: int): Loan -> bool { l => InWindow(l, start, end) }
  function Matcher(sel: Selection): Loan -> bool { l => Selected(sel, l) }
  function UpTo(sel: Selection, k: nat): Loan -> bool { l => MatchesUpTo(sel, l, k) }

  /** One `if v != 'All': data = data[data[c] == v]` step. */
  function Narrow(rows: seq<Loan>, c: Column, v: string): (r: seq<Loan>)
    ensures |r| <= |rows|
    ensures forall l :: l in r <==> l in rows && (v == ALL || Field(l, c) == v)
    ensures forall l :: multiset(r)[l] == if v == ALL || Field(l, c) == v then multiset(rows)[l] else 0
  {
    if v == ALL then rows else Keep(rows, HasValue(c, v))
  }

  /** The sidebar's running `data`: the rows that survive the first `k` selectors. */
  function NarrowUpTo(rows: seq<Loan>, sel: Selection, k: nat): (r: seq<Loan>)
    requires k <= |Columns|
    ensures |r| <= |rows|
    ensures forall l :: l in r <==> l in rows && MatchesUpTo(sel, l, k)
    ensures forall l :: multiset(r)[l] == if MatchesUpTo(sel, l, k) then multiset(rows)[l] else 0
  {
    if k == 0 then rows
    else Narrow(NarrowUpTo(rows, sel, k - 1), Columns[k - 1], Choice(sel, Columns[k - 1]))
  }

  /** Passing the whole cascade and the window is being selected. */
  lemma CascadeThenWindow(sel: Selection, l: Loan)
    ensures Selected(sel, l) == (MatchesUpTo(sel, l, |Columns|) && InWindow(l, sel.start, sel.end))
    ensures NoCategory(sel) ==> MatchesUpTo(sel, l, |Columns|)
  {
    assert MatchesUpTo(sel, l, 1) == Admits(sel, Country, l);
    assert MatchesUpTo(sel, l, 2) == (MatchesUpTo(sel, l, 1) && Admits(sel, Sector, l));
    assert MatchesUpTo(sel, l, 3) == (MatchesUpTo(sel, l, 2) && Admits(sel, Activity, l));
    assert MatchesUpTo(sel, l, 4) == (MatchesUpTo(sel, l, 3) && Admits(sel, Gender, l));
    assert MatchesUpTo(sel, l, 5) == (MatchesUpTo(sel, l, 4) && Admits(sel, Repayment, l));
  }

  /**
   The `filter` function. When every selector is "All" it starts from a copy of
   the table; otherwise it applies the five `!= 'All'` steps in cascade order.
   Either way it then keeps the rows whose disbursement day is in [start, end].
   */
  function FilterLoans(rows: seq<Loan>, sel: Selection): (r: seq<Loan>)
    ensures |r| <= |rows|
    ensures forall l :: l in r <==> l in rows && Selected(sel, l)
    ensures forall l :: multiset(r)[l] == if Selected(sel, l) then multiset(rows)[l] else 0
  {
    var narrowed := if NoCategory(sel) then rows else NarrowUpTo(rows, sel, |Columns|);
    var r := Keep(narrowed, Window(sel.start, sel.end));
    assert forall l :: multiset(r)[l] == if Selected(sel, l) then multiset(rows)[l] else 0 by {
      forall l: Loan
        ensures multiset(r)[l] == if Selected(sel, l) then multiset(rows)[l] else 0
      {
        CascadeThenWindow(sel, l);
      }
    }
    assert forall l :: l in r <==> l in rows && Selected(sel, l) by {
      forall l: Loan
        ensures l in r <==> l in rows && Selected(sel, l)
      {
        assert (l in r) == (multiset(r)[l] > 0);
        assert (l in rows) == (multiset(rows)[l] > 0);
      }
    }
    r
  }

  /** Narrowing by the first `k` selectors is one filter by their conjunction. */
  lemma {:induction false} NarrowUpToIsConjunction(rows: seq<Loan>, sel: Selection, k: nat)
    requires k <= |Columns|
    ensures NarrowUpTo(rows, sel, k) == Keep(rows, UpTo(sel, k))
  {
    if k == 0 {
      KeepAll(rows, UpTo(sel, 0));
    } else {
      NarrowUpToIsConjunction(rows, sel, k - 1);
      var c, v := Columns[k - 1], Choice(sel, Columns[k - 1]);
      if v == ALL {
        KeepSame(rows, UpTo(sel, k - 1), UpTo(sel, k));
      } else {
        KeepKeep(rows, UpTo(sel, k - 1), HasValue(c, v), UpTo(sel, k));
      }
    }
  }

  /** The filtered view is the rows meeting the one conjunctive predicate, in table order. */
  lemma FilterIsConjunction(rows: seq<Loan>, sel: Selection)
    ensures FilterLoans(rows, sel) == Keep(rows, Matcher(sel))
  {
    forall l: Loan
      ensures Selected(sel, l) == (MatchesUpTo(sel, l, |Columns|) && InWindow(l, sel.start, sel.end))
      ensures NoCategory(sel) ==> MatchesUpTo(sel, l, |Columns|)
    {
      CascadeThenWindow(sel, l);
    }
    if NoCategory(sel) {
      KeepSame(rows, Window(sel.start, sel.end), Matcher(sel));
    } else {
      NarrowUpToIsConjunction(rows, sel, |Columns|);
      KeepKeep(rows, UpTo(sel, |Columns|), Window(sel.start, sel.end), Matcher(sel));
    }
  }

  /** The filter fabricates nothing and keeps table order. */
  lemma FilterIsSubsequence(rows: seq<Loan>, sel: Selection)
    ensures IsSubsequence(FilterLoans(rows, sel), rows)
  {
    FilterIsConjunction(rows, sel);
    KeepIsSubsequence(rows, Matcher(sel));
  }

  function Admitting(c: Column, v: string): Loan -> bool { l => v == ALL || Field(l, c) == v }

  /** A selector step is the boolean mask "sentinel, or equal". */
  lemma NarrowIsKeep(rows: seq<Loan>, c: Column, v: string)
    ensures Narrow(rows, c, v) == Keep(rows, Admitting(c, v))
  {
    if v == ALL {
      KeepAll(rows, Admitting(c, v));
    } else {
      KeepSame(rows, HasValue(c, v), Admitting(c, v));
    }
  }

  /** Independent equality selectors can be applied in either order. */
  lemma NarrowCommutes(rows: seq<Loan>, c1: Column, v1: string, c2: Column, v2: string)
    ensures Narrow(Narrow(rows, c1, v1), c2, v2) == Narrow(Narrow(rows, c2, v2), c1, v1)
  {
    var a1, a2 := Admitting(c1, v1), Admitting(c2, v2);
    var both: Loan -> bool := l => a1(l) && a2(l);
    var first1 := Narrow(rows, c1, v1);
    var first2 := Narrow(rows, c2, v2);
    NarrowIsKeep(rows, c1, v1);
    NarrowIsKeep(rows, c2, v2);
    NarrowIsKeep(first1, c2, v2);
    NarrowIsKeep(first2, c1, v1);
    KeepKeep(rows, a1, a2, both);
    KeepKeep(rows, a2, a1, both);
  }

  /** Filtering an already filtered view with the same selection changes nothing. */
  lemma FilterIdempotent(rows: seq<Loan>, sel: Selection)
    ensures FilterLoans(FilterLoans(rows, sel), sel) == FilterLoans(rows, sel)
  {
    FilterIsConjunction(rows, sel);
    FilterIsConjunction(FilterLoans(rows, sel), sel);
    KeepKeep(rows, Matcher(sel), Matcher(sel), Matcher(sel));
  }

  /** With every selector at "All" the view is exactly the rows inside the date window. */
  lemma NoCategoryIsWindow(rows: seq<Loan>, sel: Selection)
    requires NoCategory(sel)
    ensures FilterLoans(rows, sel) == Keep(rows, Window(sel.start, sel.end))
  {
  }
}
