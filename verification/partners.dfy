/**
 The "Top Partners Names" table: for every partner id in either partner
 top-five, the name on the first row of the partners table that carries that
 id, one row per id, ordered by id as `groupby` orders its keys.
 */
module PartnerNames {
  import opened Wrappers
  import opened Seqs
  import opened Ranking

  /** A row of the partners table: `Partner ID` and `Field Partner Name`. */
  datatype Partner = Partner(id: int, name: string)

  function Ids(rows: seq<Partner>): set<int>
  {
    set p | p in rows :: p.id
  }

  /** Ids strictly increase along the table, so no id occurs twice. */
  ghost predicate SortedById(t: seq<Partner>)
  {
    forall i, j :: 0 <= i < j < |t| ==> t[i].id < t[j].id
  }

  /** The name on the first row with id `id`, if any row has it. */
  function FirstName(rows: seq<Partner>, id: int): (r: Option<string>)
    ensures r.Some? <==> id in Ids(rows)
    ensures r.Some? ==> Partner(id, r.value) in rows
  {
    if rows == [] then None
    else if rows[0].id == id then Some(rows[0].name)
    else
      assert rows == [rows[0]] + rows[1..];
      FirstName(rows[1..], id)
  }

  /** Adding a row at the end changes the first name only of an id not seen before. */
  lemma {:induction false} FirstNameSnoc(rows: seq<Partner>, p: Partner, id: int)
    ensures FirstName(rows + [p], id) ==
      if id in Ids(rows) then FirstName(rows, id)
      else if p.id == id then Some(p.name)
      else None
  {
    if rows == [] {
      assert rows + [p] == [p];
    } else {
      assert (rows + [p])[1..] == rows[1..] + [p];
      FirstNameSnoc(rows[1..], p, id);
    }
  }

  function IdIn(ids: set<int>): Partner -> bool { (p: Partner) => p.id in ids }

  /** Keeping the rows of some ids does not change the first name of those ids. */
  lemma {:induction false} FirstNameKeep(rows: seq<Partner>, ids: set<int>, id: int)
    requires id in ids
    ensures FirstName(Keep(rows, IdIn(ids)), id) == FirstName(rows, id)
  {
    if rows != [] {
      FirstNameKeep(rows[1..], ids, id);
    }
  }

  /** Insert a row with a new id into an id-sorted table. */
  function Insert(t: seq<Partner>, p: Partner): (r: seq<Partner>)
    requires SortedById(t) && p.id !in Ids(t)
    ensures SortedById(r)
    ensures forall e :: e in r <==> e in t || e == p
  {
    if t == [] then [p]
    else if p.id < t[0].id then [p] + t
    else
      var head, tail := t[0], t[1..];
      assert t == [head] + tail;
      assert forall e :: e in tail ==> head.id < e.id;
      [head] + Insert(tail, p)
  }

  /** Adding one row adds its id. */
  lemma IdsAddOne(t: seq<Partner>, r: seq<Partner>, p: Partner)
    requires forall e :: e in r <==> e in t || e == p
    ensures Ids(r) == Ids(t) + {p.id}
  {
    assert p in r;
  }

  /** `groupby('Partner ID').first()`: one row per id, the first name seen, ordered by id. */
  function FirstPerId(rows: seq<Partner>): (t: seq<Partner>)
    ensures SortedById(t)
    ensures Ids(t) == Ids(rows)
    ensures forall e :: e in t ==> FirstName(rows, e.id) == Some(e.name)
  {
    if rows == [] then []
    else
      var init, p := rows[..|rows| - 1], rows[|rows| - 1];
      assert rows == init + [p];
      var t := FirstPerId(init);
      forall id: int
        ensures FirstName(rows, id) ==
          if id in Ids(init) then FirstName(init, id) else if p.id == id then Some(p.name) else None
      {
        FirstNameSnoc(init, p, id);
      }
      if p.id in Ids(t) then t
      else
        var r := Insert(t, p);
        IdsAddOne(t, r, p);
        r
  }

  /** Keeping the rows of some ids keeps exactly those of the ids that occur. */
  lemma IdsKeep(rows: seq<Partner>, ids: set<int>)
    ensures Ids(Keep(rows, IdIn(ids))) == Ids(rows) * ids
  {
    var kept := Keep(rows, IdIn(ids));
    forall id | id in Ids(rows) * ids
      ensures id in Ids(kept)
    {
      var p :| p in rows && p.id == id;
      assert p in kept;
    }
  }

  /**
   The partner-name table shown beside the partner charts: the partners rows
   whose id is in either top-five, reduced to one row per id by `first()`, then
   filtered once more by the same two id lists.
   */
  function PartnerNameTable(partners: seq<Partner>, byAmount: seq<(int, int)>, byCount: seq<(int, int)>)
    : (t: seq<Partner>)
    ensures SortedById(t)
    ensures Ids(t) == Ids(partners) * (RankedKeys(byAmount) + RankedKeys(byCount))
    ensures forall e :: e in t ==> FirstName(partners, e.id) == Some(e.name)
  {
    var wanted := RankedKeys(byAmount) + RankedKeys(byCount);
    var partnerIds := Ids(Keep(partners, IdIn(wanted)));
    IdsKeep(partners, wanted);
    var names := Keep(partners, IdIn(partnerIds));
    assert names == Keep(partners, IdIn(wanted)) by {
      KeepSame(partners, IdIn(partnerIds), IdIn(wanted));
    }
    IdsKeep(partners, wanted);
    var pivot := FirstPerId(names);
    assert forall e :: e in pivot ==> FirstName(partners, e.id) == Some(e.name) by {
      forall e | e in pivot
        ensures FirstName(partners, e.id) == Some(e.name)
      {
        assert e.id in Ids(pivot);
        FirstNameKeep(partners, wanted, e.id);
      }
    }
    assert Keep(pivot, IdIn(wanted)) == pivot by {
      forall e | e in pivot
        ensures e.id in wanted
      {
        assert e.id in Ids(pivot);
      }
      KeepAll(pivot, IdIn(wanted));
    }
    Keep(pivot, IdIn(wanted))
  }
}
