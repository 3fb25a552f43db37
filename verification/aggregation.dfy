/**
 Sums over the filtered view: the four summary cards, and the grouped totals
 (`groupby(key)[col].sum()`, and `value_counts()` as the grouped sum of one per
 row) that the rankings are taken from.
 */
module Aggregation {
  import opened Seqs
  import opened Loans
  import opened Filtering

  /** Column sum: `view[col].sum()`, which is 0 on an empty view. */
  function Sum<T>(xs: seq<T>, f: T -> int): (s: int)
  {
    if xs == [] then 0 else f(xs[0]) + Sum(xs[1..], f)
  }

  lemma {:induction false} SumConcat<T>(xs: seq<T>, ys: seq<T>, f: T -> int)
    ensures Sum(xs + ys, f) == Sum(xs, f) + Sum(ys, f)
  {
    if xs == [] {
      assert xs + ys == ys;
    } else {
      assert (xs + ys)[1..] == xs[1..] + ys;
      SumConcat(xs[1..], ys, f);
    }
  }

  /** A non-negative column sums to at least zero. */
  lemma {:induction false} SumNonNegative<T>(xs: seq<T>, f: T -> int)
    requires forall x :: x in xs ==> f(x) >= 0
    ensures Sum(xs, f) >= 0
  {
    if xs != [] {
      SumNonNegative(xs[1..], f);
    }
  }

  /**
   Splitting rows by any mask splits a column sum: the rows a filter keeps and
   the rows it drops add up to the whole.
   */
  lemma {:induction false} SumSplits<T(!new)>(xs: seq<T>, p: T -> bool, notP: T -> bool, f: T -> int)
    requires forall x :: notP(x) == !p(x)
    ensures Sum(Keep(xs, p), f) + Sum(Keep(xs, notP), f) == Sum(xs, f)
  {
    if xs != [] {
      SumSplits(xs[1..], p, notP, f);
    }
  }

  /** Narrowing the rows never raises the sum of a non-negative column. */
  lemma KeepSumBound<T(!new)>(xs: seq<T>, p: T -> bool, f: T -> int)
    requires forall x :: x in xs ==> f(x) >= 0
    ensures Sum(Keep(xs, p), f) <= Sum(xs, f)
  {
    var notP: T -> bool := x => !p(x);
    SumSplits(xs, p, notP, f);
    SumNonNegative(Keep(xs, notP), f);
  }

  /** The four metric cards. */
  datatype Cards = Cards(funded: int, loan: int, lenders: int, borrowers: int)

  function CardTotals(view: seq<Loan>): (c: Cards)
    ensures c.funded >= 0 && c.loan >= 0 && c.lenders >= 0 && c.borrowers >= 0
    ensures view == [] ==> c == Cards(0, 0, 0, 0)
  {
    SumNonNegative(view, FundedAmount);
    SumNonNegative(view, LoanAmount);
    SumNonNegative(view, LenderCount);
    SumNonNegative(view, BorrowerCount);
    Cards(Sum(view, FundedAmount), Sum(view, LoanAmount), Sum(view, LenderCount), Sum(view, BorrowerCount))
  }

  /** Cards add up over a split of the rows: each card is a plain column sum. */
  lemma CardTotalsConcat(xs: seq<Loan>, ys: seq<Loan>)
    ensures CardTotals(xs + ys).funded == CardTotals(xs).funded + CardTotals(ys).funded
    ensures CardTotals(xs + ys).loan == CardTotals(xs).loan + CardTotals(ys).loan
    ensures CardTotals(xs + ys).lenders == CardTotals(xs).lenders + CardTotals(ys).lenders
    ensures CardTotals(xs + ys).borrowers == CardTotals(xs).borrowers + CardTotals(ys).borrowers
  {
    SumConcat(xs, ys, FundedAmount);
    SumConcat(xs, ys, LoanAmount);
    SumConcat(xs, ys, LenderCount);
    SumConcat(xs, ys, BorrowerCount);
  }

  /** A single row's cards are its own funded amount, loan amount, lender count and borrower count. */
  lemma CardTotalsOne(l: Loan)
    ensures CardTotals([l]) == Cards(l.fundedAmount, l.loanAmount, l.lenderCount, l.borrowerCount)
  {
    assert [l][1..] == [];
    assert Sum([l], FundedAmount) == l.fundedAmount;
    assert Sum([l], LoanAmount) == l.loanAmount;
    assert Sum([l], LenderCount) == l.lenderCount;
    assert Sum([l], BorrowerCount) == l.borrowerCount;
  }

  /** Every card of the filtered view is at most the same card for the whole table. */
  lemma CardsOfFilteredView(rows: seq<Loan>, sel: Selection)
    ensures CardTotals(FilterLoans(rows, sel)).funded <= CardTotals(rows).funded
    ensures CardTotals(FilterLoans(rows, sel)).loan <= CardTotals(rows).loan
    ensures CardTotals(FilterLoans(rows, sel)).lenders <= CardTotals(rows).lenders
    ensures CardTotals(FilterLoans(rows, sel)).borrowers <= CardTotals(rows).borrowers
  {
    FilterIsConjunction(rows, sel);
    KeepSumBound(rows, Matcher(sel), FundedAmount);
    KeepSumBound(rows, Matcher(sel), LoanAmount);
    KeepSumBound(rows, Matcher(sel), LenderCount);
    KeepSumBound(rows, Matcher(sel), BorrowerCount);
  }

  /** The grouped total of key `k`: the sum of `val` over the rows whose key is `k`. */
  function Total<K(==)>(rows: seq<Loan>, key: Loan -> K, k: K, val: Loan -> int): (s: int)
  {
    if rows == [] then 0
    else (if key(rows[0]) == k then val(rows[0]) else 0) + Total(rows[1..], key, k, val)
  }

  lemma {:induction false} TotalSnoc<K>(rows: seq<Loan>, l: Loan, key: Loan -> K, k: K, val: Loan -> int)
    ensures Total(rows + [l], key, k, val) == Total(rows, key, k, val) + (if key(l) == k then val(l) else 0)
  {
    if rows == [] {
      assert rows + [l] == [l];
    } else {
      assert (rows + [l])[1..] == rows[1..] + [l];
      TotalSnoc(rows[1..], l, key, k, val);
    }
  }

  /** The keys present in the rows: the index of a `groupby` result. */
  function KeysOf<K(==)>(rows: seq<Loan>, key: Loan -> K): set<K>
  {
    set l | l in rows :: key(l)
  }

  /** The reference grouped totals: each present key mapped to its total. */
  function TotalsOf<K(==)>(rows: seq<Loan>, key: Loan -> K, val: Loan -> int): (m: map<K, int>)
  {
    map k | k in KeysOf(rows, key) :: Total(rows, key, k, val)
  }

  /**
   `groupby(key)[val].sum()` in one pass over the rows: one entry per key that
   occurs, holding that key's total.
   */
  method GroupTotals<K(==)>(rows: seq<Loan>, key: Loan -> K, val: Loan -> int) returns (m: map<K, int>)
    ensures m.Keys == KeysOf(rows, key)
    ensures forall k :: k in m ==> m[k] == Total(rows, key, k, val)
    ensures m == TotalsOf(rows, key, val)
  {
    m := map[];
    var i := 0;
    while i < |rows|
      invariant 0 <= i <= |rows|
      invariant m.Keys == KeysOf(rows[..i], key)
      invariant forall k :: k in m ==> m[k] == Total(rows[..i], key, k, val)
    {
      var l := rows[i];
      var seen, next := rows[..i], rows[..i + 1];
      assert next == seen + [l];
      if key(l) !in m {
        TotalAbsent(seen, key, key(l), val);
      }
      var m' := m[key(l) := (if key(l) in m then m[key(l)] else 0) + val(l)];
      forall k | k in m'
        ensures m'[k] == Total(next, key, k, val)
      {
        TotalSnoc(seen, l, key, k, val);
      }
      m := m';
      i := i + 1;
    }
    assert rows[..i] == rows;
  }

  /** A key that occurs in no row totals zero. */
  lemma {:induction false} TotalAbsent<K>(rows: seq<Loan>, key: Loan -> K, k: K, val: Loan -> int)
    requires k !in KeysOf(rows, key)
    ensures Total(rows, key, k, val) == 0
  {
    if rows != [] {
      assert rows[0] in rows;
      assert KeysOf(rows[1..], key) <= KeysOf(rows, key);
      TotalAbsent(rows[1..], key, k, val);
    }
  }

  /** The totals of the keys `ks`, added up. */
  function TotalOver<K(==)>(ks: seq<K>, rows: seq<Loan>, key: Loan -> K, val: Loan -> int): (s: int)
  {
    if ks == [] then 0 else Total(rows, key, ks[0], val) + TotalOver(ks[1..], rows, key, val)
  }

  lemma {:induction false} TotalOverFirstRow<K>(ks: seq<K>, rows: seq<Loan>, key: Loan -> K, val: Loan -> int)
    requires rows != []
    ensures TotalOver(ks, rows, key, val) == TotalOver(ks, [rows[0]], key, val) + TotalOver(ks, rows[1..], key, val)
  {
    if ks != [] {
      var k, l := ks[0], rows[0];
      assert [l][1..] == [];
      assert Total([l], key, k, val) == if key(l) == k then val(l) else 0;
      assert Total(rows, key, k, val) == Total([l], key, k, val) + Total(rows[1..], key, k, val);
      TotalOverFirstRow(ks[1..], rows, key, val);
    }
  }

  /** One row contributes to the totals of the listed keys once if its key is listed, else not at all. */
  lemma {:induction false} TotalOverOneRow<K>(ks: seq<K>, l: Loan, key: Loan -> K, val: Loan -> int)
    requires forall i, j :: 0 <= i < j < |ks| ==> ks[i] != ks[j]
    ensures TotalOver(ks, [l], key, val) == if key(l) in ks then val(l) else 0
  {
    if ks != [] {
      assert [l][1..] == [];
      assert Total([l], key, ks[0], val) == if key(l) == ks[0] then val(l) else 0;
      assert key(l) in ks <==> key(l) == ks[0] || key(l) in ks[1..] by {
        assert ks == [ks[0]] + ks[1..];
      }
      TotalOverOneRow(ks[1..], l, key, val);
    }
  }

  /** The totals of a distinct list of keys covering every row add up to the column sum. */
  lemma {:induction false} TotalsAddUp<K>(ks: seq<K>, rows: seq<Loan>, key: Loan -> K, val: Loan -> int)
    requires forall i, j :: 0 <= i < j < |ks| ==> ks[i] != ks[j]
    requires forall l :: l in rows ==> key(l) in ks
    ensures TotalOver(ks, rows, key, val) == Sum(rows, val)
  {
    if rows == [] {
      TotalsOfNothing(ks, key, val);
    } else {
      TotalOverFirstRow(ks, rows, key, val);
      TotalOverOneRow(ks, rows[0], key, val);
      assert forall l :: l in rows[1..] ==> l in rows;
      TotalsAddUp(ks, rows[1..], key, val);
    }
  }

  lemma {:induction false} TotalsOfNothing<K>(ks: seq<K>, key: Loan -> K, val: Loan -> int)
    ensures TotalOver(ks, [], key, val) == 0
  {
    if ks != [] {
      TotalsOfNothing(ks[1..], key, val);
    }
  }

  /** The key of every row, in row order (`data[key]`). */
  function KeyColumn<K>(rows: seq<Loan>, key: Loan -> K): seq<K>
  {
    seq(|rows|, i requires 0 <= i < |rows| => key(rows[i]))
  }

  /**
   The slices of a grouped chart, taken over every key and before any top-N
   cut, add up to the matching summary card: grouping neither loses nor
   double-counts a row.
   */
  lemma GroupsAddUpToCard<K(!new)>(view: seq<Loan>, key: Loan -> K, val: Loan -> int)
    ensures TotalOver(Distinct(KeyColumn(view, key)), view, key, val) == Sum(view, val)
  {
    var column := KeyColumn(view, key);
    forall l | l in view
      ensures key(l) in Distinct(column)
    {
      var i :| 0 <= i < |view| && view[i] == l;
      assert column[i] == key(l);
    }
    TotalsAddUp(Distinct(column), view, key, val);
  }

  /** The region pie over all regions adds up to the loan-amount card. */
  lemma RegionSlicesMatchLoanCard(view: seq<Loan>)
    ensures TotalOver(Distinct(KeyColumn(view, Region)), view, Region, LoanAmount) == CardTotals(view).loan
  {
    GroupsAddUpToCard(view, Region, LoanAmount);
  }
}
