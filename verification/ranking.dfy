/**
 The top-N charts: grouped totals sorted in descending order and cut to their
 first N entries (`sort_values(ascending=False).head(n)`). The sort the
 dashboard uses promises no order among equal totals, so neither does the
 model: where totals tie, any of the tied keys may come first.
 */
module Ranking {
  import opened Loans
  import opened Aggregation

  /** The keys a ranking lists. */
  function RankedKeys<K>(r: seq<(K, int)>): set<K>
  {
    set i | 0 <= i < |r| :: r[i].0
  }

  /** Every non-empty table of totals has a largest total. */
  lemma {:induction false} HasLargest<K>(m: map<K, int>)
    requires |m| > 0
    ensures exists k :: k in m && forall k' :: k' in m ==> m[k'] <= m[k]
    decreases |m|
  {
    var k :| k in m;
    if !forall k' :: k' in m ==> m[k'] <= m[k] {
      var bigger :| bigger in m && m[bigger] > m[k];
      var rest := m - {k};
      assert rest.Keys == m.Keys - {k};
      assert bigger in rest;
      HasLargest(rest);
      var j :| j in rest && forall k' :: k' in rest ==> rest[k'] <= rest[j];
      assert forall k' :: k' in m ==> m[k'] <= m[j] by {
        forall k' | k' in m
          ensures m[k'] <= m[j]
        {
          if k' != k {
            assert k' in rest;
          } else {
            assert rest[bigger] <= rest[j];
          }
        }
      }
    }
  }

  /** The entries of `r` are distinct keys of `m` with their totals, largest first. */
  ghost predicate Ranked<K>(m: map<K, int>, r: seq<(K, int)>)
  {
    && (forall i :: 0 <= i < |r| ==> r[i].0 in m && r[i].1 == m[r[i].0])
    && (forall i, j :: 0 <= i < j < |r| ==> r[i].0 != r[j].0)
    && (forall i, j :: 0 <= i < j < |r| ==> r[i].1 >= r[j].1)
  }

  /** No key left out of `r` has a total above any entry of `r`. */
  ghost predicate Complete<K>(m: map<K, int>, r: seq<(K, int)>)
  {
    forall k, i :: k in m && k !in RankedKeys(r) && 0 <= i < |r| ==> m[k] <= r[i].1
  }

  /**
   `r` is a correct top-`n` cut of the totals `m`: as many entries as `n` and
   the number of keys allow, one per key, each with its own total, largest
   first, and nothing left out that beats an entry kept.
   */
  ghost predicate IsTopN<K>(r: seq<(K, int)>, m: map<K, int>, n: nat)
  {
    && |r| == (if |m| < n then |m| else n)
    && Ranked(m, r)
    && Complete(m, r)
  }

  /** No total in `rest` exceeds any entry of `r`. */
  ghost predicate Dominated<K>(rest: map<K, int>, r: seq<(K, int)>)
  {
    forall k, i :: k in rest && 0 <= i < |r| ==> rest[k] <= r[i].1
  }

  /**
   Halfway through a top-`n` cut: `r` holds the keys taken so far, correctly
   ranked, and `rest` the totals still to rank, none above anything taken.
   */
  ghost predicate Partial<K>(m: map<K, int>, r: seq<(K, int)>, rest: map<K, int>)
  {
    && rest.Keys == m.Keys - RankedKeys(r)
    && |rest| + |r| == |m|
    && (forall k :: k in rest ==> rest[k] == m[k])
    && Ranked(m, r)
    && Dominated(rest, r)
  }

  lemma AppendKey<K>(r: seq<(K, int)>, e: (K, int))
    ensures RankedKeys(r + [e]) == RankedKeys(r) + {e.0}
  {
    var r' := r + [e];
    assert forall i :: 0 <= i < |r| ==> r'[i] == r[i];
    assert r'[|r|] == e;
  }

  /** Appending a key not yet ranked, with a total no larger than any ranked one, keeps `r` ranked. */
  lemma AppendRanked<K>(m: map<K, int>, r: seq<(K, int)>, k: K)
    requires Ranked(m, r)
    requires k in m && k !in RankedKeys(r)
    requires forall i :: 0 <= i < |r| ==> m[k] <= r[i].1
    ensures Ranked(m, r + [(k, m[k])])
  {
    var r' := r + [(k, m[k])];
    forall i, j | 0 <= i < j < |r'|
      ensures r'[i].0 != r'[j].0 && r'[i].1 >= r'[j].1
    {
      assert r'[i] == r[i];
      if j < |r| {
        assert r'[j] == r[j];
      } else {
        assert r[i].0 in RankedKeys(r);
      }
    }
    forall i | 0 <= i < |r'|
      ensures r'[i].0 in m && r'[i].1 == m[r'[i].0]
    {
      if i < |r| {
        assert r'[i] == r[i];
      }
    }
  }

  /** Removing a largest total leaves totals no larger than it. */
  lemma RemoveLargest<K>(rest: map<K, int>, r: seq<(K, int)>, k: K)
    requires Dominated(rest, r)
    requires k in rest && forall k' :: k' in rest ==> rest[k'] <= rest[k]
    ensures Dominated(rest - {k}, r + [(k, rest[k])])
  {
    var r' := r + [(k, rest[k])];
    forall k', i | k' in rest - {k} && 0 <= i < |r'|
      ensures (rest - {k})[k'] <= r'[i].1
    {
      if i < |r| {
        assert r'[i] == r[i];
      }
    }
  }

  /** Taking a largest remaining total keeps the cut correct. */
  lemma TakeLargest<K>(m: map<K, int>, r: seq<(K, int)>, rest: map<K, int>, k: K)
    requires Partial(m, r, rest)
    requires k in rest && forall k' :: k' in rest ==> rest[k'] <= rest[k]
    ensures Partial(m, r + [(k, rest[k])], rest - {k})
    ensures |rest - {k}| == |rest| - 1
  {
    var e := (k, rest[k]);
    var rest' := rest - {k};
    AppendKey(r, e);
    assert rest'.Keys == rest.Keys - {k};
    assert |rest'.Keys| == |rest.Keys| - 1;
    assert forall i :: 0 <= i < |r| ==> m[k] <= r[i].1;
    AppendRanked(m, r, k);
    RemoveLargest(rest, r, k);
  }

  /** A cut with nothing left, or `n` entries, is a correct top-`n`. */
  lemma PartialDone<K>(m: map<K, int>, r: seq<(K, int)>, rest: map<K, int>, n: nat)
    requires Partial(m, r, rest)
    requires |r| <= n
    requires |r| == n || |rest| == 0
    ensures IsTopN(r, m, n)
  {
    assert forall k :: k in m && k !in RankedKeys(r) ==> k in rest;
  }

  /**
   The first `n` entries of the totals sorted in descending order: repeatedly
   take a key with the largest remaining total.
   */
  method TopN<K>(m: map<K, int>, n: nat) returns (r: seq<(K, int)>)
    ensures IsTopN(r, m, n)
  {
    r := [];
    var rest := m;
    while |r| < n && |rest| > 0
      invariant |r| <= n
      invariant Partial(m, r, rest)
      decreases |rest|
    {
      HasLargest(rest);
      var k :| k in rest && forall k' :: k' in rest ==> rest[k'] <= rest[k];
      TakeLargest(m, r, rest, k);
      r, rest := r + [(k, rest[k])], rest - {k};
    }
    PartialDone(m, r, rest, n);
  }

  /** The keys among the first `j` entries of a ranking. */
  function PrefixKeys<K>(r: seq<(K, int)>, j: nat): set<K>
    requires j <= |r|
  {
    set t | 0 <= t < j :: r[t].0
  }

  /** `j` entries name at most `j` keys, and exactly `j` when the keys are distinct. */
  lemma {:induction false} PrefixKeysCount<K>(r: seq<(K, int)>, j: nat)
    requires j <= |r|
    ensures |PrefixKeys(r, j)| <= j
    ensures (forall s, t :: 0 <= s < t < |r| ==> r[s].0 != r[t].0) ==> |PrefixKeys(r, j)| == j
  {
    if j > 0 {
      PrefixKeysCount(r, j - 1);
      assert PrefixKeys(r, j) == PrefixKeys(r, j - 1) + {r[j - 1].0};
    }
  }

  /** Removing `b` from `a` removes at most `|b|` elements. */
  lemma {:induction false} DifferenceCount<K>(a: set<K>, b: set<K>)
    ensures |a - b| >= |a| - |b|
    decreases |b|
  {
    if b != {} {
      var y :| y in b;
      var a', b' := a - {y}, b - {y};
      assert |b'| == |b| - 1;
      assert |a'| >= |a| - 1 by {
        if y in a {
          assert a == a' + {y};
        } else {
          assert a' == a;
        }
      }
      DifferenceCount(a', b');
      assert a - b == a' - b';
    }
  }

  /** A key outside the first `i` entries of a correct cut totals at most entry `i`. */
  lemma AtMostEntry<K>(a: seq<(K, int)>, m: map<K, int>, i: nat, k: K)
    requires Ranked(m, a) && Complete(m, a)
    requires i < |a| && k in m && k !in PrefixKeys(a, i)
    ensures m[k] <= a[i].1
  {
    if k in RankedKeys(a) {
      var t :| 0 <= t < |a| && a[t].0 == k;
      assert t >= i by {
        assert forall s :: 0 <= s < i ==> a[s].0 in PrefixKeys(a, i);
      }
      assert a[t].1 == m[k];
      assert a[i].1 >= a[t].1 by {
        if i < t {
          assert a[i].1 >= a[t].1;
        }
      }
    }
  }

  /** Among `i + 1` distinct keys, one is missing from any `i` entries. */
  lemma Pigeonhole<K>(a: seq<(K, int)>, b: seq<(K, int)>, i: nat)
    requires i < |a| && i < |b|
    requires forall s, t :: 0 <= s < t < |b| ==> b[s].0 != b[t].0
    ensures exists j :: 0 <= j <= i && b[j].0 !in PrefixKeys(a, i)
  {
    var big, before := PrefixKeys(b, i + 1), PrefixKeys(a, i);
    PrefixKeysCount(b, i + 1);
    PrefixKeysCount(a, i);
    DifferenceCount(big, before);
    var k :| k in big - before;
    var j :| 0 <= j <= i && b[j].0 == k;
  }

  /** Position `i` of a correct cut holds a total at least that of position `i` of any other. */
  lemma NotBelow<K>(a: seq<(K, int)>, b: seq<(K, int)>, m: map<K, int>, n: nat, i: nat)
    requires IsTopN(a, m, n) && IsTopN(b, m, n)
    requires i < |a|
    ensures a[i].1 >= b[i].1
  {
    Pigeonhole(a, b, i);
    var j :| 0 <= j <= i && b[j].0 !in PrefixKeys(a, i);
    assert b[j].1 >= b[i].1 by {
      if j < i {
        assert b[j].1 >= b[i].1;
      }
    }
    AtMostEntry(a, m, i, b[j].0);
  }

  /**
   Rankings are deterministic up to ties: any two correct top-`n` cuts of the
   same totals show the same totals in the same order, so only keys with equal
   totals can trade places.
   */
  lemma TopNTotalsAgree<K>(a: seq<(K, int)>, b: seq<(K, int)>, m: map<K, int>, n: nat)
    requires IsTopN(a, m, n) && IsTopN(b, m, n)
    ensures |a| == |b|
    ensures forall i :: 0 <= i < |a| ==> a[i].1 == b[i].1
  {
    forall i | 0 <= i < |a|
      ensures a[i].1 == b[i].1
    {
      NotBelow(a, b, m, n, i);
      NotBelow(b, a, m, n, i);
    }
  }

  /** The loan amount of each region, largest five (`most_region`). */
  method TopRegionsByLoanAmount(view: seq<Loan>) returns (r: seq<(string, int)>)
    ensures IsTopN(r, TotalsOf(view, Region, LoanAmount), 5)
  {
    var totals := GroupTotals(view, Region, LoanAmount);
    r := TopN(totals, 5);
  }

  /** The lender count of each region, largest five (`region_lender`). */
  method TopRegionsByLenders(view: seq<Loan>) returns (r: seq<(string, int)>)
    ensures IsTopN(r, TotalsOf(view, Region, LenderCount), 5)
  {
    var totals := GroupTotals(view, Region, LenderCount);
    r := TopN(totals, 5);
  }

  /** The number of loans of each region, largest fifteen (`Regions_count`). */
  method TopRegionsByCount(view: seq<Loan>) returns (r: seq<(string, int)>)
    ensures IsTopN(r, TotalsOf(view, Region, One), 15)
  {
    var totals := GroupTotals(view, Region, One);
    r := TopN(totals, 15);
  }

  /** The loan amount of each partner, largest five (`most_partner_loans`). */
  method TopPartnersByLoanAmount(view: seq<Loan>) returns (r: seq<(int, int)>)
    ensures IsTopN(r, TotalsOf(view, PartnerId, LoanAmount), 5)
  {
    var totals := GroupTotals(view, PartnerId, LoanAmount);
    r := TopN(totals, 5);
  }

  /** The number of loans of each partner, largest five (`most_partners`). */
  method TopPartnersByCount(view: seq<Loan>) returns (r: seq<(int, int)>)
    ensures IsTopN(r, TotalsOf(view, PartnerId, One), 5)
  {
    var totals := GroupTotals(view, PartnerId, One);
    r := TopN(totals, 5);
  }
}
