/**
 * The deal store: a table of rows with a generated primary key, a unique
 * index on dealUniqueId and NOT NULL columns, read back by id, by key, in
 * descending dealTimestamp order (whole or one page), and counted.
 */
module DealRepository {
  import opened Wrappers
  import opened DealEntity

  /** The ordering column; every stored row has one (NOT NULL), so the null case never arises for rows. */
  function SortKey(d: FxDeal): int
  {
    if d.dealTimestamp.Some? then d.dealTimestamp.value else 0
  }

  /** ORDER BY dealTimestamp DESC holds of s. */
  ghost predicate DescendingByTimestamp(s: seq<FxDeal>)
  {
    forall i, j | 0 <= i < j < |s| :: SortKey(s[i]) >= SortKey(s[j])
  }

  /** No row of s has a timestamp above b. */
  ghost predicate BoundedBy(s: seq<FxDeal>, b: int)
  {
    forall k | 0 <= k < |s| :: SortKey(s[k]) <= b
  }

  /** A bound on s and on x is a bound on any rearrangement of s with x added. */
  lemma BoundSurvivesInsertion(s: seq<FxDeal>, x: FxDeal, t: seq<FxDeal>, b: int)
    requires BoundedBy(s, b) && SortKey(x) <= b
    requires multiset(t) == multiset(s) + multiset{x}
    ensures BoundedBy(t, b)
  {
    forall k | 0 <= k < |t|
      ensures SortKey(t[k]) <= b
    {
      assert t[k] in multiset(t);
      if t[k] != x {
        assert t[k] in multiset(s);
        assert t[k] in s;
      }
    }
  }

  /** The head of a descending sequence is at least as late as every row of it. */
  lemma HeadBoundsRest(s: seq<FxDeal>)
    requires DescendingByTimestamp(s) && s != []
    ensures BoundedBy(s, SortKey(s[0])) && BoundedBy(s[1..], SortKey(s[0]))
  {
    assert forall k | 0 < k < |s| :: SortKey(s[0]) >= SortKey(s[k]);
  }

  /** A row at least as late as every row of a descending t may head it. */
  lemma ConsDescending(y: FxDeal, t: seq<FxDeal>)
    requires DescendingByTimestamp(t) && BoundedBy(t, SortKey(y))
    ensures DescendingByTimestamp([y] + t)
  {
  }

  /** Insert x into a descending sequence, ahead of the rows with the same timestamp. */
  function InsertByTimestamp(x: FxDeal, s: seq<FxDeal>): (r: seq<FxDeal>)
    requires DescendingByTimestamp(s)
    ensures DescendingByTimestamp(r)
    ensures multiset(r) == multiset(s) + multiset{x}
  {
    if s == [] then
      [x]
    else if SortKey(x) >= SortKey(s[0]) then
      HeadBoundsRest(s);
      ConsDescending(x, s);
      [x] + s
    else
      var rest := InsertByTimestamp(x, s[1..]);
      HeadBoundsRest(s);
      BoundSurvivesInsertion(s[1..], x, rest, SortKey(s[0]));
      ConsDescending(s[0], rest);
      assert s == [s[0]] + s[1..];
      [s[0]] + rest
  }

  /** findAll(): the rows in descending timestamp order; rows of equal timestamp keep insertion order. */
  function SortByTimestamp(s: seq<FxDeal>): (r: seq<FxDeal>)
    ensures DescendingByTimestamp(r)
    ensures multiset(r) == multiset(s)
  {
    if s == [] then []
    else
      assert s == [s[0]] + s[1..];
      InsertByTimestamp(s[0], SortByTimestamp(s[1..]))
  }

  /** setFirstResult(offset).setMaxResults(limit) applied to an ordered result. */
  function Page(s: seq<FxDeal>, offset: nat, limit: nat): (r: seq<FxDeal>)
    ensures |r| <= limit
    ensures |r| == if offset >= |s| then 0 else if |s| - offset < limit then |s| - offset else limit
    ensures forall i | 0 <= i < |r| :: r[i] == s[offset + i]
    ensures multiset(r) <= multiset(s)
  {
    if offset >= |s| then []
    else
      var end := if |s| - offset < limit then |s| else offset + limit;
      assert s == s[..offset] + s[offset..end] + s[end..];
      s[offset..end]
  }

  ghost predicate HasId(rows: seq<FxDeal>, id: int)
  {
    exists i | 0 <= i < |rows| :: rows[i].id == Some(id)
  }

  ghost predicate HasKey(rows: seq<FxDeal>, key: string)
  {
    exists i | 0 <= i < |rows| :: rows[i].dealUniqueId == Some(key)
  }

  /** The first row whose id is id. */
  function FirstWithId(rows: seq<FxDeal>, id: int): (r: Option<FxDeal>)
    ensures r.Some? <==> HasId(rows, id)
    ensures r.Some? ==> r.value in rows && r.value.id == Some(id)
  {
    if rows == [] then None
    else if rows[0].id == Some(id) then Some(rows[0])
    else
      var r := FirstWithId(rows[1..], id);
      assert HasId(rows, id) ==> HasId(rows[1..], id) by {
        if HasId(rows, id) {
          var i :| 0 <= i < |rows| && rows[i].id == Some(id);
          assert rows[1..][i - 1] == rows[i];
        }
      }
      assert HasId(rows[1..], id) ==> HasId(rows, id) by {
        if HasId(rows[1..], id) {
          var i :| 0 <= i < |rows[1..]| && rows[1..][i].id == Some(id);
          assert rows[i + 1] == rows[1..][i];
        }
      }
      r
  }

  /** The first row whose dealUniqueId is key. */
  function FirstWithKey(rows: seq<FxDeal>, key: string): (r: Option<FxDeal>)
    ensures r.Some? <==> HasKey(rows, key)
    ensures r.Some? ==> r.value in rows && r.value.dealUniqueId == Some(key)
  {
    if rows == [] then None
    else if rows[0].dealUniqueId == Some(key) then Some(rows[0])
    else
      var r := FirstWithKey(rows[1..], key);
      assert HasKey(rows, key) ==> HasKey(rows[1..], key) by {
        if HasKey(rows, key) {
          var i :| 0 <= i < |rows| && rows[i].dealUniqueId == Some(key);
          assert rows[1..][i - 1] == rows[i];
        }
      }
      assert HasKey(rows[1..], key) ==> HasKey(rows, key) by {
        if HasKey(rows[1..], key) {
          var i :| 0 <= i < |rows[1..]| && rows[1..][i].dealUniqueId == Some(key);
          assert rows[i + 1] == rows[1..][i];
        }
      }
      r
  }

  /** SELECT COUNT(f) ... WHERE f.dealUniqueId = key */
  function CountWithKey(rows: seq<FxDeal>, key: string): nat
  {
    if rows == [] then 0
    else (if rows[0].dealUniqueId == Some(key) then 1 else 0) + CountWithKey(rows[1..], key)
  }

  /** The count is positive exactly when some row has the key. */
  lemma {:induction false} CountPositiveIffHasKey(rows: seq<FxDeal>, key: string)
    ensures CountWithKey(rows, key) > 0 <==> HasKey(rows, key)
  {
    if rows != [] {
      CountPositiveIffHasKey(rows[1..], key);
      if HasKey(rows, key) && rows[0].dealUniqueId != Some(key) {
        var i :| 0 <= i < |rows| && rows[i].dealUniqueId == Some(key);
        assert rows[1..][i - 1] == rows[i];
      }
      if HasKey(rows[1..], key) {
        var i :| 0 <= i < |rows[1..]| && rows[1..][i].dealUniqueId == Some(key);
        assert rows[i + 1] == rows[1..][i];
      }
    }
  }

  /** No two rows share a key. */
  ghost predicate KeysUnique(rows: seq<FxDeal>)
  {
    forall i, j | 0 <= i < j < |rows| :: rows[i].dealUniqueId != rows[j].dealUniqueId
  }

  /** With the unique index in force, a key matches at most one row. */
  lemma {:induction false} UniqueKeyCountAtMostOne(rows: seq<FxDeal>, key: string)
    requires KeysUnique(rows)
    ensures CountWithKey(rows, key) <= 1
  {
    if rows != [] {
      assert KeysUnique(rows[1..]) by {
        forall i, j | 0 <= i < j < |rows[1..]|
          ensures rows[1..][i].dealUniqueId != rows[1..][j].dealUniqueId
        {
          assert rows[1..][i] == rows[i + 1] && rows[1..][j] == rows[j + 1];
        }
      }
      UniqueKeyCountAtMostOne(rows[1..], key);
      if rows[0].dealUniqueId == Some(key) {
        assert !HasKey(rows[1..], key) by {
          forall i | 0 <= i < |rows[1..]|
            ensures rows[1..][i].dealUniqueId != Some(key)
          {
            assert rows[1..][i] == rows[i + 1];
          }
        }
        CountPositiveIffHasKey(rows[1..], key);
      }
    }
  }

  /** Why the store refused a save. */
  datatype SaveError =
    | DetachedEntity                     // persist of an entity that already carries an id
    | NotNullViolation                   // a NOT NULL column is null
    | UniqueViolation(dealUniqueId: string)  // the unique index on dealUniqueId

  datatype SaveResult = Persisted(deal: FxDeal) | Rejected(error: SaveError)

  class FxDealRepository {
    /** The table, in insertion order. */
    var rows: seq<FxDeal>
    /** The identity column's next value. */
    var nextId: int

    ghost predicate Valid()
      reads this
    {
      && 1 <= nextId
      && (forall i | 0 <= i < |rows| :: IsPersistedRow(rows[i]) && rows[i].id.value < nextId)
      && KeysUnique(rows)
      && (forall i, j | 0 <= i < j < |rows| :: rows[i].id != rows[j].id)
    }

    constructor ()
      ensures Valid() && rows == []
    {
      rows := [];
      nextId := 1;
    }

    /**
     * save: the persist callback stamps createdAt and updatedAt, the insert
     * takes the next identity value, and the row is flushed at once, so the
     * store's constraints are checked here: a detached entity, a null in a
     * NOT NULL column or a key already present is refused and nothing changes.
     */
    method Save(deal: FxDeal, now: int) returns (result: SaveResult)
      requires Valid()
      modifies this
      ensures Valid()
      ensures deal.id.Some? ==> result == Rejected(DetachedEntity)
      ensures deal.id.None? && !HasRequiredColumns(deal) ==> result == Rejected(NotNullViolation)
      ensures deal.id.None? && HasRequiredColumns(deal) && HasKey(old(rows), deal.dealUniqueId.value)
        ==> result == Rejected(UniqueViolation(deal.dealUniqueId.value))
      ensures result.Rejected? ==> rows == old(rows) && nextId == old(nextId)
      ensures result.Persisted? <==>
        deal.id.None? && HasRequiredColumns(deal) && !HasKey(old(rows), deal.dealUniqueId.value)
      ensures result.Persisted? ==>
        && rows == old(rows) + [result.deal]
        && Terms(result.deal) == Terms(deal)
        && result.deal.id == Some(old(nextId))
        && nextId == old(nextId) + 1
        && result.deal.createdAt == Some(now) && result.deal.updatedAt == Some(now)
        && !HasId(old(rows), old(nextId))
    {
      if deal.id.Some? {
        return Rejected(DetachedEntity);
      }
      if !HasRequiredColumns(deal) {
        return Rejected(NotNullViolation);
      }
      var key := deal.dealUniqueId.value;
      if CountWithKey(rows, key) > 0 {
        CountPositiveIffHasKey(rows, key);
        return Rejected(UniqueViolation(key));
      }
      CountPositiveIffHasKey(rows, key);
      var stored := OnCreate(deal.(id := Some(nextId)), now);
      rows := rows + [stored];
      nextId := nextId + 1;
      result := Persisted(stored);
    }

    /** findById: the row with that primary key, or empty. */
    function FindById(id: int): (r: Option<FxDeal>)
      reads this
      ensures r.Some? <==> HasId(rows, id)
      ensures r.Some? ==> r.value in rows && r.value.id == Some(id)
      ensures Valid() ==> forall i | 0 <= i < |rows| && rows[i].id == Some(id) :: r == Some(rows[i])
    {
      FirstWithId(rows, id)
    }

    /** findByDealUniqueId: the row whose key equals key exactly, or empty. */
    function FindByDealUniqueId(key: string): (r: Option<FxDeal>)
      reads this
      ensures r.Some? <==> HasKey(rows, key)
      ensures r.Some? ==> r.value in rows && r.value.dealUniqueId == Some(key)
      ensures Valid() ==> forall i | 0 <= i < |rows| && rows[i].dealUniqueId == Some(key) :: r == Some(rows[i])
    {
      FirstWithKey(rows, key)
    }

    /** existsByDealUniqueId: the number of rows with the key is positive. */
    function ExistsByDealUniqueId(key: string): (b: bool)
      reads this
      ensures b <==> HasKey(rows, key)
      ensures b <==> FindByDealUniqueId(key).Some?
    {
      CountPositiveIffHasKey(rows, key);
      CountWithKey(rows, key) > 0
    }

    /** findAll(): every row, newest dealTimestamp first. */
    function FindAll(): (r: seq<FxDeal>)
      reads this
      ensures multiset(r) == multiset(rows)
      ensures |r| == |rows|
      ensures DescendingByTimestamp(r)
    {
      var r := SortByTimestamp(rows);
      assert |r| == |multiset(r)| == |multiset(rows)| == |rows|;
      r
    }

    /** findAll(offset, limit): the rows of findAll() from position offset on, at most limit of them. */
    function FindAllPaged(offset: nat, limit: nat): (r: seq<FxDeal>)
      reads this
      ensures |r| <= limit
      ensures |r| == if offset >= |rows| then 0 else if |rows| - offset < limit then |rows| - offset else limit
      ensures forall i | 0 <= i < |r| :: r[i] == FindAll()[offset + i]
      ensures DescendingByTimestamp(r)
      ensures multiset(r) <= multiset(rows)
    {
      Page(FindAll(), offset, limit)
    }

    /** count(): the number of rows. */
    function Count(): (n: nat)
      reads this
      ensures n == |rows|
    {
      |rows|
    }

    /** Under the store invariant no two stored deals are equal in the sense of equals(). */
    lemma StoredDealsPairwiseUnequal()
      requires Valid()
      ensures forall i, j | 0 <= i < j < |rows| :: !Equals(rows[i], Some(rows[j]))
    {
    }
  }
}
