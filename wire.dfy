/** Value shapes shared by the API server and the menu page: nullable
    values, JSON request fields and the menu item as the API returns it. */
module Wire {

  /** A value that may be SQL NULL or JSON null. */
  datatype Option<+T> = None | Some(value: T) {
    function GetOr(default: T): T {
      match this
      case Some(v) => v
      case None => default
    }
  }

  /** One field of a JSON object as JavaScript sees it: missing
      (`undefined`), explicitly `null`, or given. `!== undefined` holds of
      the last two. */
  datatype Field<+T> = Undefined | Null | Given(value: T) {
    predicate Defined() {
      !Undefined?
    }
  }

  /** A scalar JSON value. */
  datatype Scalar = Bool(b: bool) | Number(n: int) | Str(s: string)

  /** Prices are whole cents: nothing in the system compares or computes
      with them, so the decimal representation does not matter here. */
  type Price = int

  /** A menu item ("plato") as the API sends it: `disponible` is a real
      boolean, `descripcion` and `categoria` may be null. */
  datatype Plato = Plato(
    id: int,
    nombre: string,
    precio: Price,
    descripcion: Option<string>,
    categoria: Option<string>,
    disponible: bool)

  /** JavaScript `s || ''` for a field holding a string. */
  function OrEmpty(f: Field<string>): string {
    if f.Given? then f.value else ""
  }
}
