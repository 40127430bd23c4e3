/** The `/api/platos` handlers: list, create, partial update and delete
    over the `platos` table, with their status codes and error order. */
module Server {
  import opened Wire
  import opened Schema

  const RequiredMessage := "Nombre y precio requeridos"
  const NotFoundMessage := "Plato no encontrado"
  const NoFieldsMessage := "No hay campos para actualizar"
  const UpdateFailedMessage := "Error al actualizar plato"
  const DeletedMessage := "Plato eliminado"

  /** An HTTP response: a status and a JSON body, or a status and an
      `{ error }` message. */
  datatype Reply<+T> = Success(status: int, body: T) | Failure(status: int, error: string)

  /** The JSON body of a POST or PUT. */
  datatype Body = Body(
    nombre: Field<string>,
    precio: Field<Price>,
    descripcion: Field<string>,
    categoria: Field<string>,
    disponible: Field<bool>)

  /** The body of a successful DELETE: a message and the raw row. */
  datatype Deleted = Deleted(mensaje: string, eliminado: Row)

  /** `toBool(val)`, that is `!!+val`, on the integer a TINYINT column
      holds. */
  function ToBool(val: int): (b: bool)
    ensures b <==> val != 0
    ensures val == 0 || val == 1 ==> (if b then 1 else 0) == val
  {
    val != 0
  }

  /** `b ? 1 : 0`: how a boolean is written to the `disponible` column. */
  function Flag(b: bool): int {
    if b then 1 else 0
  }

  /** `toBool` reads back every flag the handlers write, and every flag it
      reads back is written as it was stored. */
  lemma FlagRoundTrip(b: bool, v: int)
    ensures ToBool(Flag(b)) == b
    ensures v == 0 || v == 1 ==> Flag(ToBool(v)) == v
  {
  }

  /** A row as GET, POST and PUT send it: `disponible` through `toBool`. */
  function View(r: Row): Plato {
    Plato(r.id, r.nombre, r.precio, r.descripcion, r.categoria, ToBool(r.disponible))
  }

  /** GET `/api/platos`: every row, ascending by id, with `disponible` as a
      boolean. */
  method List(t: Table) returns (reply: Reply<seq<Plato>>)
    requires t.Valid()
    ensures reply.Success? && reply.status == 200
    ensures |reply.body| == |t.rows|
    ensures forall i :: 0 <= i < |t.rows| ==>
              reply.body[i].id == t.rows[i].id && reply.body[i].nombre == t.rows[i].nombre
              && reply.body[i].precio == t.rows[i].precio
              && reply.body[i].descripcion == t.rows[i].descripcion
              && reply.body[i].categoria == t.rows[i].categoria
              && (reply.body[i].disponible <==> t.rows[i].disponible != 0)
    ensures forall i, j :: 0 <= i < j < |reply.body| ==> reply.body[i].id < reply.body[j].id
  {
    var rows := t.rows;
    reply := Success(200, seq(|rows|, i requires 0 <= i < |rows| => View(rows[i])));
  }

  /** The POST guard `!nombre || precio === undefined || precio === null`. */
  predicate MissingRequired(body: Body)
    ensures body.nombre == Given("") ==> MissingRequired(body)
    ensures !MissingRequired(body) ==> body.nombre.Given? && body.precio.Given?
    ensures body.nombre.Given? && body.nombre.value != "" && body.precio.Given? ==> !MissingRequired(body)
  {
    || !body.nombre.Given? || body.nombre.value == ""
    || !body.precio.Given?
  }

  /** A text column on insert: the destructuring default `''` applies to a
      missing field only; an explicit null is stored as NULL. */
  function TextOnInsert(f: Field<string>): Option<string> {
    match f
    case Undefined => Some("")
    case Null => None
    case Given(s) => Some(s)
  }

  /** The INSERT tuple a POST body becomes. */
  function Insertion(body: Body): (v: Values)
    requires !MissingRequired(body)
    ensures v.nombre == body.nombre.value != "" && v.precio == body.precio.value
    ensures body.descripcion.Undefined? ==> v.descripcion == Some("")
    ensures body.categoria.Undefined? ==> v.categoria == Some("")
    ensures body.descripcion.Given? ==> v.descripcion == Some(body.descripcion.value)
    ensures body.categoria.Given? ==> v.categoria == Some(body.categoria.value)
    ensures body.descripcion.Null? ==> v.descripcion.None?
    ensures body.categoria.Null? ==> v.categoria.None?
    ensures v.disponible == 1 <==> body.disponible.Undefined? || body.disponible == Given(true)
    ensures v.disponible == 0 || v.disponible == 1
  {
    var disponible := match body.disponible
      case Undefined => true
      case Null => false
      case Given(b) => b;
    Values(body.nombre.value, body.precio.value,
           TextOnInsert(body.descripcion), TextOnInsert(body.categoria), Flag(disponible))
  }

  /** POST `/api/platos`. A body without a name or a price is refused with
      400 before anything is written; otherwise the row is inserted under a
      fresh id and read back. A zero price is accepted; no price is refused
      for being negative. */
  method Create(t: Table, body: Body) returns (reply: Reply<Plato>)
    requires t.Valid()
    modifies t
    ensures t.Valid()
    ensures MissingRequired(body) ==>
              reply == Failure(400, RequiredMessage) && t.State() == old(t.State())
    ensures !MissingRequired(body) ==>
              && t.State() == Inserted(old(t.State()), [Insertion(body)])
              && reply == Success(201, View(Stored(old(t.nextId), Insertion(body))))
    ensures reply.Success? ==>
              forall i :: 0 <= i < |old(t.rows)| ==> old(t.rows)[i].id < reply.body.id
  {
    if MissingRequired(body) {
      return Failure(400, RequiredMessage);
    }
    var insertId := t.Insert([Insertion(body)]);
    FindUnique(t.rows, insertId, |t.rows| - 1);
    var found := Find(t.rows, insertId);
    reply := Success(201, View(t.rows[found.value]));
  }

  /** One `column = ?` item of the PUT's SET list with its parameter. */
  datatype Assignment =
    | SetNombre(nombre: Option<string>)
    | SetPrecio(precio: Option<Price>)
    | SetDescripcion(descripcion: Option<string>)
    | SetCategoria(categoria: Option<string>)
    | SetDisponible(disponible: int)

  /** A supplied field as an SQL parameter: JSON null is NULL. */
  function Param<T>(f: Field<T>): Option<T> {
    if f.Given? then Some(f.value) else None
  }

  /** The SET list the PUT handler builds: one item per field that is not
      `undefined`, in the order nombre, precio, descripcion, categoria,
      disponible. */
  function Assignments(body: Body): (r: seq<Assignment>)
    ensures |r| <= 5
    ensures r == [] <==> NoFields(body)
  {
    (if body.nombre.Defined() then [SetNombre(Param(body.nombre))] else [])
    + (if body.precio.Defined() then [SetPrecio(Param(body.precio))] else [])
    + (if body.descripcion.Defined() then [SetDescripcion(Param(body.descripcion))] else [])
    + (if body.categoria.Defined() then [SetCategoria(Param(body.categoria))] else [])
    + (if body.disponible.Defined() then [SetDisponible(Flag(body.disponible == Given(true)))] else [])
  }

  /** One assignment applied to a row; NULL into the NOT NULL columns
      `nombre` or `precio` makes the statement fail. */
  function Assign(row: Row, a: Assignment): Option<Row> {
    match a
    case SetNombre(v) => if v.None? then None else Some(row.(nombre := v.value))
    case SetPrecio(v) => if v.None? then None else Some(row.(precio := v.value))
    case SetDescripcion(v) => Some(row.(descripcion := v))
    case SetCategoria(v) => Some(row.(categoria := v))
    case SetDisponible(v) => Some(row.(disponible := v))
  }

  /** `UPDATE platos SET ... WHERE id = ?` on the matching row: all the
      assignments, or none when one of them fails. */
  function Execute(row: Row, updates: seq<Assignment>): Option<Row>
    decreases |updates|
  {
    if |updates| == 0 then Some(row)
    else
      match Assign(row, updates[0])
      case None => None
      case Some(next) => Execute(next, updates[1..])
  }

  /** An UPDATE runs its assignments one after the other. */
  lemma {:induction false} ExecuteConcat(row: Row, a: seq<Assignment>, b: seq<Assignment>)
    ensures Execute(row, a + b) ==
              match Execute(row, a)
              case None => None
              case Some(mid) => Execute(mid, b)
    decreases |a|
  {
    if |a| > 0 {
      assert (a + b)[1..] == a[1..] + b;
      match Assign(row, a[0])
      case None =>
      case Some(next) => ExecuteConcat(next, a[1..], b);
    } else {
      assert a + b == b;
    }
  }

  /** The row after a successful PUT: each supplied field takes its new
      value, each other field keeps its old one. */
  function Patched(row: Row, body: Body): Row {
    Row(row.id,
        if body.nombre.Given? then body.nombre.value else row.nombre,
        if body.precio.Given? then body.precio.value else row.precio,
        if body.descripcion.Defined() then Param(body.descripcion) else row.descripcion,
        if body.categoria.Defined() then Param(body.categoria) else row.categoria,
        if body.disponible.Defined() then Flag(body.disponible == Given(true)) else row.disponible)
  }

  /** The SET list does what the field-by-field definition says: it fails
      exactly when `nombre` or `precio` is null, and otherwise changes the
      supplied fields and nothing else, the id included. */
  lemma {:induction false} ExecuteAssignments(row: Row, body: Body)
    ensures Execute(row, Assignments(body)).None? <==> body.nombre.Null? || body.precio.Null?
    ensures Execute(row, Assignments(body)).Some? ==>
              Execute(row, Assignments(body)).value == Patched(row, body)
  {
    var a1 := if body.nombre.Defined() then [SetNombre(Param(body.nombre))] else [];
    var a2 := if body.precio.Defined() then [SetPrecio(Param(body.precio))] else [];
    var a3 := if body.descripcion.Defined() then [SetDescripcion(Param(body.descripcion))] else [];
    var a4 := if body.categoria.Defined() then [SetCategoria(Param(body.categoria))] else [];
    var a5 := if body.disponible.Defined() then [SetDisponible(Flag(body.disponible == Given(true)))] else [];
    assert Assignments(body) == a1 + (a2 + (a3 + (a4 + a5)));
    ExecuteConcat(row, a1, a2 + (a3 + (a4 + a5)));
    var r1 := Execute(row, a1);
    if r1.Some? {
      ExecuteConcat(r1.value, a2, a3 + (a4 + a5));
      var r2 := Execute(r1.value, a2);
      if r2.Some? {
        ExecuteConcat(r2.value, a3, a4 + a5);
        var r3 := Execute(r2.value, a3).value;
        ExecuteConcat(r3, a4, a5);
      }
    }
  }

  /** No field of the body is anything but `undefined`. */
  predicate NoFields(body: Body) {
    && body.nombre.Undefined? && body.precio.Undefined? && body.descripcion.Undefined?
    && body.categoria.Undefined? && body.disponible.Undefined?
  }

  /** The handler's `updates`/`params` pushes: the SET list built field by
      field. */
  method BuildAssignments(body: Body) returns (updates: seq<Assignment>)
    ensures updates == Assignments(body)
  {
    updates := [];
    if body.nombre.Defined() { updates := updates + [SetNombre(Param(body.nombre))]; }
    if body.precio.Defined() { updates := updates + [SetPrecio(Param(body.precio))]; }
    if body.descripcion.Defined() { updates := updates + [SetDescripcion(Param(body.descripcion))]; }
    if body.categoria.Defined() { updates := updates + [SetCategoria(Param(body.categoria))]; }
    if body.disponible.Defined() {
      updates := updates + [SetDisponible(Flag(body.disponible == Given(true)))];
    }
  }

  /** PUT `/api/platos/:id`. An unknown id gives 404 before the body is
      looked at; a body with no field gives 400; a null name or price is
      refused by the NOT NULL columns (500); otherwise exactly the
      supplied fields of that one row change and the row is read back. */
  method Update(t: Table, id: int, body: Body) returns (reply: Reply<Plato>)
    requires t.Valid()
    modifies t
    ensures t.Valid() && t.nextId == old(t.nextId)
    ensures Find(old(t.rows), id).None? ==>
              reply == Failure(404, NotFoundMessage) && t.rows == old(t.rows)
    ensures Find(old(t.rows), id).Some? && NoFields(body) ==>
              reply == Failure(400, NoFieldsMessage) && t.rows == old(t.rows)
    ensures Find(old(t.rows), id).Some? && !NoFields(body) && (body.nombre.Null? || body.precio.Null?) ==>
              reply == Failure(500, UpdateFailedMessage) && t.rows == old(t.rows)
    ensures Find(old(t.rows), id).Some? && !NoFields(body) && !body.nombre.Null? && !body.precio.Null? ==>
              var k := Find(old(t.rows), id).value;
              && t.rows == old(t.rows)[k := Patched(old(t.rows)[k], body)]
              && reply == Success(200, View(t.rows[k]))
  {
    var found := Find(t.rows, id);
    if found.None? {
      return Failure(404, NotFoundMessage);
    }
    var updates := BuildAssignments(body);
    if |updates| == 0 {
      return Failure(400, NoFieldsMessage);
    }
    var k := found.value;
    ExecuteAssignments(t.rows[k], body);
    var updated := Execute(t.rows[k], updates);
    if updated.None? {
      return Failure(500, UpdateFailedMessage);
    }
    ReplacedKeepsWellFormed(t.State(), k, updated.value);
    t.rows := t.rows[k := updated.value];
    FindUnique(t.rows, id, k);
    var again := Find(t.rows, id);
    reply := Success(200, View(t.rows[again.value]));
  }

  /** Removing the row at `k` keeps the table well formed, and its id is
      no longer found. */
  lemma {:induction false} RemovedGone(s: Snapshot, k: nat)
    requires WellFormed(s) && k < |s.rows|
    ensures WellFormed(Snapshot(s.rows[..k] + s.rows[k + 1..], s.nextId))
    ensures Find(s.rows[..k] + s.rows[k + 1..], s.rows[k].id).None?
  {
    var rest := s.rows[..k] + s.rows[k + 1..];
    forall i | 0 <= i < |rest|
      ensures rest[i] == s.rows[if i < k then i else i + 1]
    {
    }
    forall i | 0 <= i < |rest|
      ensures rest[i].id != s.rows[k].id
    {
      assert rest[i] == s.rows[if i < k then i else i + 1];
    }
  }

  /** DELETE `/api/platos/:id`. An unknown id gives 404 and changes
      nothing; otherwise that row alone is removed, the others keep their
      order, and the removed row is returned as stored. */
  method Delete(t: Table, id: int) returns (reply: Reply<Deleted>)
    requires t.Valid()
    modifies t
    ensures t.Valid() && t.nextId == old(t.nextId)
    ensures Find(old(t.rows), id).None? ==>
              reply == Failure(404, NotFoundMessage) && t.rows == old(t.rows)
    ensures Find(old(t.rows), id).Some? ==>
              var k := Find(old(t.rows), id).value;
              && t.rows == old(t.rows)[..k] + old(t.rows)[k + 1..]
              && reply == Success(200, Deleted(DeletedMessage, old(t.rows)[k]))
    ensures Find(t.rows, id).None?
  {
    var found := Find(t.rows, id);
    if found.None? {
      return Failure(404, NotFoundMessage);
    }
    var k := found.value;
    var removed := t.rows[k];
    RemovedGone(t.State(), k);
    t.rows := t.rows[..k] + t.rows[k + 1..];
    reply := Success(200, Deleted(DeletedMessage, removed));
  }

  /** A fresh table through one create, update and delete: the reply of
      each handler and the final listing, and a second delete that finds
      nothing. */
  method GordaBlancaScenario()
    returns (created: Reply<Plato>, updated: Reply<Plato>, deleted: Reply<Deleted>,
             again: Reply<Deleted>, listed: Reply<seq<Plato>>)
    ensures created == Success(201, Plato(1, "Gorda Blanca", 1400, Some("Salsa y queso fresco"),
                                          Some("Picadas y Gordas"), true))
    ensures updated == Success(200, Plato(1, "Gorda Blanca", 1400, Some("Salsa y queso fresco"),
                                          Some("Picadas y Gordas"), false))
    ensures deleted.Success? && deleted.body.eliminado.id == 1 && deleted.body.eliminado.disponible == 0
    ensures again == Failure(404, NotFoundMessage)
    ensures listed == Success(200, [])
  {
    var t := new Table();
    created := Create(t, Body(Given("Gorda Blanca"), Given(1400), Given("Salsa y queso fresco"),
                              Given("Picadas y Gordas"), Undefined));
    updated := Update(t, 1, Body(Undefined, Undefined, Undefined, Undefined, Given(false)));
    deleted := Delete(t, 1);
    again := Delete(t, 1);
    listed := List(t);
  }
}
