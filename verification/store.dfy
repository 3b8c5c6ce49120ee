/**
 * The `orders` table of server.py as an abstract table: its rows in id
 * order and the AUTOINCREMENT counter (the table's sqlite_sequence entry),
 * with the three statements the handlers run against it.
 */
module OrderStore {
  import opened PyJson
  import opened Validation

  /** The largest rowid SQLite assigns; AUTOINCREMENT past it fails with SQLITE_FULL. */
  const MaxRowId: int := 0x7FFF_FFFF_FFFF_FFFF

  /** A stored order; `items` is items_json as json.loads gives it back. */
  datatype Order = Order(id: int, name: string, phone: string, address: string,
                         items: seq<Json>, total: int, createdAt: string)

  /** The outcome of one statement: its result, or a sqlite3.Error. */
  datatype Outcome<T> = Done(value: T) | DatabaseError

  predicate IdsIncreasing(rows: seq<Order>) {
    forall i, j :: 0 <= i < j < |rows| ==> rows[i].id < rows[j].id
  }

  /**
   * The table invariant: rows are in increasing id order, every id lies in
   * 1..lastId, and lastId (the largest id ever handed out) fits a rowid.
   */
  predicate Consistent(rows: seq<Order>, lastId: int) {
    0 <= lastId <= MaxRowId && IdsIncreasing(rows)
    && forall i :: 0 <= i < |rows| ==> 1 <= rows[i].id <= lastId
  }

  /** The row INSERT writes: the validated fields, the given id and the server's clock reading. */
  function Stored(o: NewOrder, id: int, createdAt: string): Order {
    Order(id, o.name, o.phone, o.address, o.items, o.total, createdAt)
  }

  /** DELETE FROM orders WHERE id = ?: every row with that id goes, the others stay in order. */
  function Without(rows: seq<Order>, id: int): (r: seq<Order>)
    ensures |r| <= |rows|
  {
    if rows == [] then []
    else (if rows[0].id == id then [] else [rows[0]]) + Without(rows[1..], id)
  }

  /**
   * SELECT ... ORDER BY id DESC LIMIT limit, over rows kept in id order:
   * the last min(limit, |rows|) rows, the newest first.
   */
  function Newest(rows: seq<Order>, limit: nat): (r: seq<Order>)
    ensures |r| == if limit < |rows| then limit else |rows|
    ensures forall j :: 0 <= j < |r| ==> r[j] == rows[|rows| - 1 - j]
  {
    if limit == 0 || rows == [] then []
    else [rows[|rows| - 1]] + Newest(rows[..|rows| - 1], limit - 1)
  }

  /**
   * A successful insert keeps the table consistent, and the new row's id
   * is larger than every id already in the table.
   */
  lemma InsertKeepsConsistent(rows: seq<Order>, lastId: int, o: NewOrder, now: string)
    requires Consistent(rows, lastId) && lastId < MaxRowId
    ensures Consistent(rows + [Stored(o, lastId + 1, now)], lastId + 1)
    ensures forall i :: 0 <= i < |rows| ==> rows[i].id < lastId + 1
  {
  }

  /** Without keeps exactly the rows whose id differs. */
  lemma {:induction false} WithoutMembers(rows: seq<Order>, id: int)
    ensures forall o :: o in Without(rows, id) <==> o in rows && o.id != id
  {
    if rows != [] {
      WithoutMembers(rows[1..], id);
      assert rows == [rows[0]] + rows[1..];
    }
  }

  /** Deleting keeps the table consistent. */
  lemma {:induction false} WithoutKeepsConsistent(rows: seq<Order>, lastId: int, id: int)
    requires Consistent(rows, lastId)
    ensures Consistent(Without(rows, id), lastId)
  {
    WithoutKeepsIncreasing(rows, id);
    WithoutMembers(rows, id);
  }

  /** Without keeps rows in their relative order: an increasing list stays increasing. */
  lemma {:induction false} WithoutKeepsIncreasing(rows: seq<Order>, id: int)
    requires IdsIncreasing(rows)
    ensures IdsIncreasing(Without(rows, id))
  {
    if rows != [] {
      WithoutKeepsIncreasing(rows[1..], id);
      var rest := Without(rows[1..], id);
      WithoutMembers(rows[1..], id);
      forall o | o in rest ensures rows[0].id < o.id {
        var k :| 0 <= k < |rows[1..]| && rows[1..][k] == o;
        assert rows[k + 1] == o;
      }
    }
  }

  /** Deleting an id twice is deleting it once. */
  lemma {:induction false} WithoutIdempotent(rows: seq<Order>, id: int)
    ensures Without(Without(rows, id), id) == Without(rows, id)
  {
    if rows != [] {
      WithoutIdempotent(rows[1..], id);
      var w := Without(rows, id);
      if rows[0].id != id {
        assert w == [rows[0]] + Without(rows[1..], id);
        assert w != [] && w[0] == rows[0] && w[1..] == Without(rows[1..], id);
      } else {
        assert w == Without(rows[1..], id);
      }
    }
  }

  /** Deleting an id no row has changes nothing. */
  lemma {:induction false} WithoutAbsent(rows: seq<Order>, id: int)
    requires forall i :: 0 <= i < |rows| ==> rows[i].id != id
    ensures Without(rows, id) == rows
  {
    if rows != [] {
      WithoutAbsent(rows[1..], id);
      assert [rows[0]] + rows[1..] == rows;
    }
  }

  /** In a consistent table, deleting a present id removes exactly that row. */
  lemma {:induction false} WithoutPresent(rows: seq<Order>, id: int, k: nat)
    requires IdsIncreasing(rows) && k < |rows| && rows[k].id == id
    ensures Without(rows, id) == rows[..k] + rows[k + 1..]
    ensures |Without(rows, id)| == |rows| - 1
    decreases |rows|, 1
  {
    if k == 0 {
      WithoutHead(rows, id);
    } else {
      WithoutKeepsHead(rows, id, k);
    }
  }

  /** The row holding the id is the first one: the rest all have larger ids and stay. */
  lemma WithoutHead(rows: seq<Order>, id: int)
    requires IdsIncreasing(rows) && rows != [] && rows[0].id == id
    ensures Without(rows, id) == rows[1..]
  {
    var tail := rows[1..];
    forall i | 0 <= i < |tail| ensures tail[i].id != id {
      assert tail[i] == rows[i + 1];
    }
    WithoutAbsent(tail, id);
  }

  /** The row holding the id is further on: the first row stays, and the proof recurses on the rest. */
  lemma {:induction false} WithoutKeepsHead(rows: seq<Order>, id: int, k: nat)
    requires IdsIncreasing(rows) && 0 < k < |rows| && rows[k].id == id
    ensures Without(rows, id) == rows[..k] + rows[k + 1..]
    decreases |rows|, 0
  {
    var tail := rows[1..];
    TailIncreasing(rows);
    assert rows[0].id < rows[k].id;
    WithoutPresent(tail, id, k - 1);
    assert tail[..k - 1] == rows[1..k];
    assert tail[k..] == rows[k + 1..];
    assert [rows[0]] + rows[1..k] == rows[..k];
  }

  lemma TailIncreasing(rows: seq<Order>)
    requires IdsIncreasing(rows) && rows != []
    ensures IdsIncreasing(rows[1..])
  {
  }

  /** The listing is in strictly descending id order. */
  lemma NewestDescending(rows: seq<Order>, limit: nat)
    requires IdsIncreasing(rows)
    ensures var r := Newest(rows, limit);
            forall i, j :: 0 <= i < j < |r| ==> r[i].id > r[j].id
  {
  }

  /**
   * The listing holds the largest ids: every row left out has a smaller id
   * than every row listed.
   */
  lemma NewestAreLargest(rows: seq<Order>, limit: nat)
    requires IdsIncreasing(rows)
    ensures var r := Newest(rows, limit);
            forall i, j :: 0 <= i < |rows| - |r| && 0 <= j < |r| ==> rows[i].id < r[j].id
  {
  }

  /** Right after an insert, the newest row listed is the one just inserted, with the payload's fields. */
  lemma InsertThenListFirst(rows: seq<Order>, o: NewOrder, id: int, now: string, limit: nat)
    requires limit >= 1
    ensures Newest(rows + [Stored(o, id, now)], limit)[0] == Stored(o, id, now)
  {
  }

  class OrderTable {
    var rows: seq<Order>
    var lastId: int

    ghost predicate Valid()
      reads this
    {
      Consistent(rows, lastId)
    }

    /** A freshly created table (init_db on a new database file). */
    constructor ()
      ensures Valid() && rows == [] && lastId == 0
    {
      rows := [];
      lastId := 0;
    }

    /**
     * INSERT INTO orders: `now` is datetime.now(timezone.utc).isoformat()
     * and `available` says whether SQLite carries out the statement. The
     * new row gets the id after the largest one ever used; when that would
     * pass MaxRowId, or the database fails, nothing changes.
     */
    method Insert(o: NewOrder, now: string, available: bool) returns (r: Outcome<int>)
      requires Valid()
      modifies this
      ensures Valid()
      ensures r.Done? <==> available && old(lastId) < MaxRowId
      ensures r.Done? ==> r.value == old(lastId) + 1 == lastId
                          && rows == old(rows) + [Stored(o, r.value, now)]
                          && forall i :: 0 <= i < |old(rows)| ==> old(rows)[i].id < r.value
      ensures r.DatabaseError? ==> rows == old(rows) && lastId == old(lastId)
    {
      if !available || lastId == MaxRowId {
        return DatabaseError;
      }
      InsertKeepsConsistent(rows, lastId, o, now);
      lastId := lastId + 1;
      rows := rows + [Stored(o, lastId, now)];
      r := Done(lastId);
    }

    /**
     * The SELECT of handle_list_orders and handle_admin_page followed by
     * the loop that turns each fetched row into an order record.
     */
    method ListRecent(limit: nat, available: bool) returns (r: Outcome<seq<Order>>)
      requires Valid()
      ensures r.Done? <==> available
      ensures r.Done? ==> r.value == Newest(rows, limit)
    {
      if !available {
        return DatabaseError;
      }
      var n := |rows|;
      var count := if limit < n then limit else n;
      var orders: seq<Order> := [];
      var i := 0;
      while i < count
        invariant 0 <= i <= count
        invariant |orders| == i
        invariant forall j :: 0 <= j < i ==> orders[j] == rows[n - 1 - j]
      {
        orders := orders + [rows[n - 1 - i]];
        i := i + 1;
      }
      r := Done(orders);
    }

    /** DELETE FROM orders WHERE id = ?; zero rows affected is success too. */
    method Delete(id: int, available: bool) returns (ok: bool)
      requires Valid()
      modifies this
      ensures Valid()
      ensures ok == available
      ensures rows == (if ok then Without(old(rows), id) else old(rows))
      ensures lastId == old(lastId)
    {
      ok := available;
      if ok {
        WithoutKeepsConsistent(rows, lastId, id);
        rows := Without(rows, id);
      }
    }
  }
}
