/**
 * The Tag and Ingredient tables, modelled as values.
 *
 * Both tables have the same shape: rows of (id, owning user, name) with
 * database-assigned ids. The natural key used by the recipe serializer is
 * (owner, name); `GetOrCreate` is the table's get-or-create query on that key
 * and `GetOrCreateAll` runs it over a submitted list of names, in order.
 */
module Tables {
  import opened Wrappers

  type UserId = nat
  type RowId = nat
  type Name = string

  /** One Tag or Ingredient row. */
  datatype Row = Row(id: RowId, owner: UserId, name: Name)

  /** The row has the natural key (owner, name). */
  predicate Keyed(r: Row, owner: UserId, name: Name) {
    r.owner == owner && r.name == name
  }

  /** No two rows share a natural key. */
  ghost predicate KeysUnique(rows: seq<Row>) {
    forall i, j :: 0 <= i < j < |rows| ==> !Keyed(rows[j], rows[i].owner, rows[i].name)
  }

  /**
   * A table: its rows in insertion order and the id the next inserted row
   * receives (an auto-increment counter).
   */
  datatype Table = Table(rows: seq<Row>, nextId: RowId) {

    /**
     * Ids are fresh and increase with insertion order, and the natural key is
     * unique (get-or-create never inserts a second row for a key it finds).
     */
    ghost predicate Valid() {
      (forall i :: 0 <= i < |rows| ==> rows[i].id < nextId)
      && (forall i, j :: 0 <= i < j < |rows| ==> rows[i].id < rows[j].id)
      && KeysUnique(rows)
    }
  }

  /** The rows with natural key (owner, name), in table order. */
  function Matching(rows: seq<Row>, owner: UserId, name: Name): (m: seq<Row>)
    ensures forall r :: r in m <==> r in rows && Keyed(r, owner, name)
  {
    if rows == [] then []
    else (if Keyed(rows[0], owner, name) then [rows[0]] else []) + Matching(rows[1..], owner, name)
  }

  /** The ids of the rows owned by `owner`. */
  function OwnedIds(t: Table, owner: UserId): set<RowId> {
    set r | r in t.rows && r.owner == owner :: r.id
  }

  /** The ids of the rows owned by `owner` whose name is one of `names`. */
  function NamedIds(t: Table, owner: UserId, names: seq<Name>): set<RowId> {
    set r | r in t.rows && r.owner == owner && r.name in names :: r.id
  }

  /** The ids in a list, as a set. */
  function Elems(ids: seq<RowId>): set<RowId> {
    set id | id in ids
  }

  lemma ElemsAppend(ids: seq<RowId>, id: RowId)
    ensures Elems(ids + [id]) == Elems(ids) + {id}
  {
  }

  /**
   * The lookup half of get-or-create: a row keyed (owner, name), searched
   * among `owner`'s rows only.
   */
  function Lookup(rows: seq<Row>, owner: UserId, name: Name): (found: Option<Row>)
    ensures found.Some? ==> found.value in rows && Keyed(found.value, owner, name)
    ensures found.None? ==> forall r :: r in rows ==> !Keyed(r, owner, name)
  {
    if rows == [] then None
    else if Keyed(rows[0], owner, name) then Some(rows[0])
    else Lookup(rows[1..], owner, name)
  }

  /** What get-or-create gives back: the new table, the row's id, and whether it was created. */
  datatype Got = Got(table: Table, id: RowId, created: bool)

  /**
   * Get-or-create on the key (owner, name): reuse the existing row, or insert
   * one with a fresh id.
   */
  function GetOrCreate(t: Table, owner: UserId, name: Name): (g: Got)
    ensures Row(g.id, owner, name) in g.table.rows
    ensures g.created <==> forall r :: r in t.rows ==> !Keyed(r, owner, name)
    ensures !g.created ==> g.table == t
    ensures g.created ==> g.id == t.nextId && t.rows <= g.table.rows
                          && |g.table.rows| == |t.rows| + 1 && g.table.nextId > g.id
  {
    match Lookup(t.rows, owner, name)
    case Some(row) => Got(t, row.id, false)
    case None => Got(Table(t.rows + [Row(t.nextId, owner, name)], t.nextId + 1), t.nextId, true)
  }

  /** The result of running get-or-create over a list: the final table and the ids, one per name. */
  datatype GotAll = GotAll(table: Table, ids: seq<RowId>)

  /** Get-or-create for each name of `names`, left to right, threading the table. */
  function GetOrCreateAll(t: Table, owner: UserId, names: seq<Name>): (g: GotAll)
    ensures |g.ids| == |names|
    decreases |names|
  {
    if names == [] then GotAll(t, [])
    else
      var prev := GetOrCreateAll(t, owner, names[..|names| - 1]);
      var got := GetOrCreate(prev.table, owner, names[|names| - 1]);
      GotAll(got.table, prev.ids + [got.id])
  }

  /** Two rows of a valid table with the same natural key are the same row. */
  lemma SameKeySameRow(t: Table, r1: Row, r2: Row)
    requires t.Valid() && r1 in t.rows && r2 in t.rows
    requires r1.owner == r2.owner && r1.name == r2.name
    ensures r1 == r2
  {
    var i :| 0 <= i < |t.rows| && t.rows[i] == r1;
    var j :| 0 <= j < |t.rows| && t.rows[j] == r2;
  }

  /** A key that no row carries has no matching rows. */
  lemma {:induction false} NoMatch(rows: seq<Row>, owner: UserId, name: Name)
    requires forall r :: r in rows ==> !Keyed(r, owner, name)
    ensures Matching(rows, owner, name) == []
  {
    if rows != [] {
      assert rows[0] in rows;
      NoMatch(rows[1..], owner, name);
    }
  }

  /** In rows with unique keys, a key that occurs at all occurs exactly once. */
  lemma {:induction false} OneMatch(rows: seq<Row>, owner: UserId, name: Name, k: nat)
    requires KeysUnique(rows) && k < |rows| && Keyed(rows[k], owner, name)
    ensures |Matching(rows, owner, name)| == 1
  {
    var rest := rows[1..];
    assert KeysUnique(rest) by {
      forall i, j | 0 <= i < j < |rest| ensures !Keyed(rest[j], rest[i].owner, rest[i].name) {
        assert rest[i] == rows[i + 1] && rest[j] == rows[j + 1];
      }
    }
    if k == 0 {
      NoMatch(rest, owner, name);
    } else {
      assert !Keyed(rows[k], rows[0].owner, rows[0].name);
      OneMatch(rest, owner, name, k - 1);
    }
  }

  /**
   * One get-or-create keeps the table valid, only appends, and whatever it
   * appends belongs to `owner`.
   */
  lemma GetOrCreateKeepsValid(t: Table, owner: UserId, name: Name)
    requires t.Valid()
    ensures var g := GetOrCreate(t, owner, name);
      g.table.Valid() && t.rows <= g.table.rows
      && forall i :: |t.rows| <= i < |g.table.rows| ==> g.table.rows[i].owner == owner
  {
    var g := GetOrCreate(t, owner, name);
    if g.created {
      var rows := g.table.rows;
      assert rows == t.rows + [Row(t.nextId, owner, name)];
      forall i, j | 0 <= i < j < |rows| ensures !Keyed(rows[j], rows[i].owner, rows[i].name) {
        if j == |t.rows| {
          assert rows[i] in t.rows;
        }
      }
    }
  }

  /**
   * Running get-or-create over a list keeps the table valid and only appends
   * to it, and every appended row belongs to `owner`.
   */
  lemma {:induction false} GetOrCreateAllGrows(t: Table, owner: UserId, names: seq<Name>)
    requires t.Valid()
    ensures var g := GetOrCreateAll(t, owner, names);
      g.table.Valid() && t.rows <= g.table.rows
      && (forall i :: |t.rows| <= i < |g.table.rows| ==> g.table.rows[i].owner == owner)
  {
    if names != [] {
      var n := |names| - 1;
      GetOrCreateAllGrows(t, owner, names[..n]);
      var prev := GetOrCreateAll(t, owner, names[..n]);
      GetOrCreateKeepsValid(prev.table, owner, names[n]);
      var rows := GetOrCreateAll(t, owner, names).table.rows;
      assert rows == GetOrCreate(prev.table, owner, names[n]).table.rows;
      forall i | |t.rows| <= i < |rows| ensures rows[i].owner == owner {
        if i < |prev.table.rows| {
          assert rows[i] == prev.table.rows[i];
        }
      }
    }
  }

  /**
   * Running get-or-create over a list leaves a row (ids[k], owner, names[k])
   * for every position k of the list.
   */
  lemma {:induction false} GetOrCreateAllRows(t: Table, owner: UserId, names: seq<Name>)
    ensures var g := GetOrCreateAll(t, owner, names);
      forall k :: 0 <= k < |names| ==> Row(g.ids[k], owner, names[k]) in g.table.rows
  {
    if names != [] {
      var n := |names| - 1;
      var init := names[..n];
      GetOrCreateAllRows(t, owner, init);
      var prev := GetOrCreateAll(t, owner, init);
      var got := GetOrCreate(prev.table, owner, names[n]);
      var g := GetOrCreateAll(t, owner, names);
      assert g.table == got.table && g.ids == prev.ids + [got.id];
      assert prev.table.rows <= g.table.rows;
      forall k | 0 <= k < |names| ensures Row(g.ids[k], owner, names[k]) in g.table.rows {
        if k < n {
          assert init[k] == names[k] && g.ids[k] == prev.ids[k];
          assert Row(prev.ids[k], owner, init[k]) in prev.table.rows;
        } else {
          assert g.ids[k] == got.id;
        }
      }
    }
  }

  /** The two lemmas above together, as the lemmas below use them. */
  lemma GetOrCreateAllFacts(t: Table, owner: UserId, names: seq<Name>)
    requires t.Valid()
    ensures var g := GetOrCreateAll(t, owner, names);
      g.table.Valid() && t.rows <= g.table.rows
      && (forall k :: 0 <= k < |names| ==> Row(g.ids[k], owner, names[k]) in g.table.rows)
  {
    GetOrCreateAllGrows(t, owner, names);
    GetOrCreateAllRows(t, owner, names);
  }

  /**
   * Only `owner`'s rows are added: every row of another user in the new
   * table was already there.
   */
  lemma GetOrCreateAllOthersUntouched(t: Table, owner: UserId, names: seq<Name>)
    requires t.Valid()
    ensures var g := GetOrCreateAll(t, owner, names);
      forall r :: r in g.table.rows && r.owner != owner ==> r in t.rows
  {
    GetOrCreateAllGrows(t, owner, names);
    var g := GetOrCreateAll(t, owner, names);
    forall r | r in g.table.rows && r.owner != owner ensures r in t.rows {
      var i :| 0 <= i < |g.table.rows| && g.table.rows[i] == r;
      assert i < |t.rows|;
      assert t.rows[i] == r;
    }
  }

  /**
   * The ids returned are exactly the ids of `owner`'s rows named in the list:
   * nothing of another user, nothing unnamed.
   */
  lemma GetOrCreateAllExact(t: Table, owner: UserId, names: seq<Name>)
    requires t.Valid()
    ensures var g := GetOrCreateAll(t, owner, names);
      Elems(g.ids) == NamedIds(g.table, owner, names)
  {
    GetOrCreateAllFacts(t, owner, names);
    var g := GetOrCreateAll(t, owner, names);
    forall id | id in Elems(g.ids) ensures id in NamedIds(g.table, owner, names) {
      var k :| 0 <= k < |g.ids| && g.ids[k] == id;
      assert Row(id, owner, names[k]) in g.table.rows;
    }
    forall id | id in NamedIds(g.table, owner, names) ensures id in Elems(g.ids) {
      var r :| r in g.table.rows && r.owner == owner && r.name in names && r.id == id;
      var k :| 0 <= k < |names| && names[k] == r.name;
      SameKeySameRow(g.table, r, Row(g.ids[k], owner, names[k]));
    }
  }

  /** After get-or-create over a list, each submitted name has exactly one row for `owner`. */
  lemma GetOrCreateAllExactlyOne(t: Table, owner: UserId, names: seq<Name>)
    requires t.Valid()
    ensures var g := GetOrCreateAll(t, owner, names);
      forall name :: name in names ==> |Matching(g.table.rows, owner, name)| == 1
  {
    GetOrCreateAllFacts(t, owner, names);
    var g := GetOrCreateAll(t, owner, names);
    forall name | name in names ensures |Matching(g.table.rows, owner, name)| == 1 {
      var k :| 0 <= k < |names| && names[k] == name;
      var i :| 0 <= i < |g.table.rows| && g.table.rows[i] == Row(g.ids[k], owner, name);
      OneMatch(g.table.rows, owner, name, i);
    }
  }

  /**
   * When every name already has a row (ids[k], owner, names[k]), get-or-create
   * over the list inserts nothing and returns exactly those ids.
   */
  lemma {:induction false} GetOrCreateAllPresent(t: Table, owner: UserId, names: seq<Name>, ids: seq<RowId>)
    requires t.Valid() && |ids| == |names|
    requires forall k :: 0 <= k < |names| ==> Row(ids[k], owner, names[k]) in t.rows
    ensures GetOrCreateAll(t, owner, names) == GotAll(t, ids)
  {
    if names != [] {
      var n := |names| - 1;
      GetOrCreateAllPresent(t, owner, names[..n], ids[..n]);
      var found := Lookup(t.rows, owner, names[n]);
      assert Keyed(Row(ids[n], owner, names[n]), owner, names[n]);
      SameKeySameRow(t, found.value, Row(ids[n], owner, names[n]));
      assert ids[..n] + [ids[n]] == ids;
    }
  }

  /** Get-or-create over the same list twice equals once: same table, same ids. */
  lemma GetOrCreateAllIdempotent(t: Table, owner: UserId, names: seq<Name>)
    requires t.Valid()
    ensures var g := GetOrCreateAll(t, owner, names);
      GetOrCreateAll(g.table, owner, names) == g
  {
    GetOrCreateAllFacts(t, owner, names);
    var g := GetOrCreateAll(t, owner, names);
    GetOrCreateAllPresent(g.table, owner, names, g.ids);
  }
}
