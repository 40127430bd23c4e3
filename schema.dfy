/** The `platos` table: its rows, its AUTO_INCREMENT counter and the
    statements the server and the migration run against it. */
module Schema {
  import opened Wire

  /** Value MySQL stores for `disponible BOOLEAN DEFAULT TRUE` when an
      INSERT omits the column. */
  const DisponibleDefault: int := 1

  /** One stored row. `disponible` is the TINYINT(1) behind BOOLEAN. */
  datatype Row = Row(
    id: int,
    nombre: string,
    precio: Price,
    descripcion: Option<string>,
    categoria: Option<string>,
    disponible: int)

  /** The values of one INSERT tuple; the table assigns the id. */
  datatype Values = Values(
    nombre: string,
    precio: Price,
    descripcion: Option<string>,
    categoria: Option<string>,
    disponible: int)

  /** The table's contents: its rows in primary-key order, and the next
      value of the AUTO_INCREMENT counter. */
  datatype Snapshot = Snapshot(rows: seq<Row>, nextId: int)

  predicate Ascending(rows: seq<Row>) {
    forall i, j :: 0 <= i < j < |rows| ==> rows[i].id < rows[j].id
  }

  /** Ids are positive, unique, stored in ascending order and all below the
      counter, so the counter never hands out an id in use. */
  predicate WellFormed(s: Snapshot) {
    && 1 <= s.nextId
    && Ascending(s.rows)
    && forall i :: 0 <= i < |s.rows| ==> 1 <= s.rows[i].id < s.nextId
  }

  /** The row an INSERT tuple becomes once it has id `id`. */
  function Stored(id: int, v: Values): Row {
    Row(id, v.nombre, v.precio, v.descripcion, v.categoria, v.disponible)
  }

  /** A multi-row INSERT: the tuples become rows with consecutive fresh ids
      in the order listed, after every existing row. */
  function Inserted(s: Snapshot, vs: seq<Values>): (r: Snapshot)
    requires WellFormed(s)
    ensures WellFormed(r)
    ensures r.nextId == s.nextId + |vs|
    ensures |r.rows| == |s.rows| + |vs| && r.rows[..|s.rows|] == s.rows
    ensures forall i :: 0 <= i < |vs| ==> r.rows[|s.rows| + i] == Stored(s.nextId + i, vs[i])
    ensures forall i, j :: 0 <= i < |s.rows| <= j < |r.rows| ==> s.rows[i].id < r.rows[j].id
  {
    var added := seq(|vs|, i requires 0 <= i < |vs| => Stored(s.nextId + i, vs[i]));
    Snapshot(s.rows + added, s.nextId + |vs|)
  }

  /** Into an empty table, the `i`-th tuple becomes the `i`-th row. */
  lemma InsertedIntoEmpty(s: Snapshot, vs: seq<Values>, i: nat)
    requires WellFormed(s) && s.rows == [] && i < |vs|
    ensures Inserted(s, vs).rows[i] == Stored(s.nextId + i, vs[i])
  {
    assert Inserted(s, vs).rows[|s.rows| + i] == Stored(s.nextId + i, vs[i]);
  }

  /** `SELECT ... WHERE id = ? LIMIT 1`: the position of the row with that
      id, if there is one. */
  function Find(rows: seq<Row>, id: int): (r: Option<nat>)
    ensures r.Some? ==> r.value < |rows| && rows[r.value].id == id
    ensures r.None? <==> forall i :: 0 <= i < |rows| ==> rows[i].id != id
  {
    if |rows| == 0 then None
    else if rows[0].id == id then Some(0)
    else
      match Find(rows[1..], id)
      case None => None
      case Some(k) => Some(k + 1)
  }

  /** With unique ids, the row `Find` reports is the only one with that id. */
  lemma FindUnique(rows: seq<Row>, id: int, i: nat)
    requires Ascending(rows) && i < |rows| && rows[i].id == id
    ensures Find(rows, id) == Some(i)
  {
  }

  /** Overwriting a row's other columns keeps the table well formed. */
  lemma ReplacedKeepsWellFormed(s: Snapshot, k: nat, row: Row)
    requires WellFormed(s) && k < |s.rows| && row.id == s.rows[k].id
    ensures WellFormed(Snapshot(s.rows[k := row], s.nextId))
  {
  }

  class Table {
    var rows: seq<Row>
    var nextId: int

    function State(): Snapshot
      reads this
    {
      Snapshot(rows, nextId)
    }

    ghost predicate Valid()
      reads this
    {
      WellFormed(State())
    }

    /** `CREATE TABLE platos (...)`: empty, counter at 1. */
    constructor ()
      ensures Valid() && rows == [] && nextId == 1
    {
      rows := [];
      nextId := 1;
    }

    /** `INSERT INTO platos (...) VALUES ...`; returns the first new id
        (`insertId`). */
    method Insert(vs: seq<Values>) returns (insertId: int)
      requires Valid()
      modifies this
      ensures Valid()
      ensures State() == Inserted(old(State()), vs)
      ensures insertId == old(nextId)
    {
      var after := Inserted(State(), vs);
      insertId := nextId;
      rows, nextId := after.rows, after.nextId;
    }
  }

  /** The database: the `platos` table once something has created it. */
  class Database {
    var platos: Table?

    constructor ()
      ensures platos == null
    {
      platos := null;
    }
  }
}
