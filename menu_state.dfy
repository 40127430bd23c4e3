/** The menu page's item list and admin form: normalising the fetched
    items, validating and submitting the form, and the local list updates
    after a create, an update or a delete. */
module MenuState {
  import opened Wire

  /** An item as `res.json()` hands it over, before normalisation. */
  datatype RawPlato = RawPlato(
    id: int,
    nombre: Field<string>,
    precio: Field<Price>,
    descripcion: Field<string>,
    categoria: Field<string>,
    disponible: Field<Scalar>)

  /** `p.disponible === 1 || p.disponible === true`. */
  predicate Available(v: Field<Scalar>) {
    v == Given(Number(1)) || v == Given(Bool(true))
  }

  /** One item through the `map` of `cargarPlatos`. */
  function Normalized(p: RawPlato): (q: Plato)
    ensures q.id == p.id
    ensures p.nombre.Given? ==> q.nombre == p.nombre.value
    ensures !p.nombre.Given? ==> q.nombre == ""
    ensures q.precio == if p.precio.Given? then p.precio.value else 0
    ensures q.descripcion == Some(if p.descripcion.Given? then p.descripcion.value else "")
    ensures q.categoria == Some(if p.categoria.Given? then p.categoria.value else "")
    ensures q.disponible <==> p.disponible == Given(Number(1)) || p.disponible == Given(Bool(true))
  {
    Plato(p.id, OrEmpty(p.nombre), if p.precio.Given? then p.precio.value else 0,
          Some(OrEmpty(p.descripcion)), Some(OrEmpty(p.categoria)), Available(p.disponible))
  }

  /** `cargarPlatos`: the whole fetched list, in the order received. */
  function NormalizedAll(datos: seq<RawPlato>): (r: seq<Plato>)
    ensures |r| == |datos|
    ensures forall i :: 0 <= i < |datos| ==> r[i] == Normalized(datos[i])
  {
    seq(|datos|, i requires 0 <= i < |datos| => Normalized(datos[i]))
  }

  /** The JSON the server writes for an item, as the page parses it back. */
  function AsJson(p: Plato): RawPlato {
    RawPlato(p.id, Given(p.nombre), Given(p.precio),
             if p.descripcion.Some? then Given(p.descripcion.value) else Null,
             if p.categoria.Some? then Given(p.categoria.value) else Null,
             Given(Bool(p.disponible)))
  }

  /** Normalising what the server sends gives back the server's item, with
      a NULL description or category read as the empty string. */
  lemma NormalizedServerItem(p: Plato)
    ensures Normalized(AsJson(p)) == p.(descripcion := Some(p.descripcion.GetOr("")),
                                        categoria := Some(p.categoria.GetOr("")))
  {
  }

  /** The admin form. `precio` is the input's text, or the number `editar`
      copied into it. */
  datatype Form = Form(
    nombre: string,
    precio: Scalar,
    descripcion: string,
    categoria: string,
    disponible: bool)

  const EmptyForm := Form("", Str(""), "", "", true)

  /** What the form sends: a PUT to the item being edited or a POST, or a
      DELETE of one item. */
  datatype Request = Put(id: int, payload: Form) | Post(payload: Form) | Delete(id: int)

  /** The admin page state: the list, the form, and `editandoId`. */
  datatype Admin = Admin(platos: seq<Plato>, form: Form, editandoId: Option<int>)

  /** The guard `!formData.nombre || formData.precio === ''`, negated. */
  predicate Submittable(f: Form)
    ensures f == EmptyForm ==> !Submittable(f)
    ensures f.nombre == "" || f.precio == Str("") ==> !Submittable(f)
    ensures f.nombre != "" && f.precio != Str("") ==> Submittable(f)
  {
    f.nombre != "" && f.precio != Str("")
  }

  /** `platos.map(p => p.id === editandoId ? actualizado : p)`. */
  function ReplaceById(platos: seq<Plato>, id: int, updated: Plato): (r: seq<Plato>)
    ensures |r| == |platos|
    ensures forall i :: 0 <= i < |platos| && platos[i].id == id ==> r[i] == updated
    ensures forall i :: 0 <= i < |platos| && platos[i].id != id ==> r[i] == platos[i]
  {
    seq(|platos|, i requires 0 <= i < |platos| => if platos[i].id == id then updated else platos[i])
  }

  /** `platos.filter(p => p.id !== id)`. */
  function RemoveById(platos: seq<Plato>, id: int): (r: seq<Plato>)
    ensures |r| <= |platos|
    ensures forall p :: p in r <==> p in platos && p.id != id
    decreases |platos|
  {
    if |platos| == 0 then []
    else (if platos[0].id != id then [platos[0]] else []) + RemoveById(platos[1..], id)
  }

  /** Filtering by id distributes over concatenation, so the items kept
      stay in their original order. */
  lemma {:induction false} RemoveByIdConcat(a: seq<Plato>, b: seq<Plato>, id: int)
    ensures RemoveById(a + b, id) == RemoveById(a, id) + RemoveById(b, id)
    decreases |a|
  {
    if |a| == 0 {
      assert a + b == b;
    } else {
      assert (a + b)[1..] == a[1..] + b;
      RemoveByIdConcat(a[1..], b, id);
    }
  }

  /** Removing an id nobody has changes nothing. */
  lemma {:induction false} RemoveAbsent(platos: seq<Plato>, id: int)
    requires forall i :: 0 <= i < |platos| ==> platos[i].id != id
    ensures RemoveById(platos, id) == platos
    decreases |platos|
  {
    if |platos| > 0 {
      RemoveAbsent(platos[1..], id);
    }
  }

  /** Deleting an item after editing it leaves the same list as deleting
      it straight away: the edit touched no other item. */
  lemma {:induction false} RemoveAfterReplace(platos: seq<Plato>, id: int, updated: Plato)
    requires updated.id == id
    ensures RemoveById(ReplaceById(platos, id, updated), id) == RemoveById(platos, id)
    decreases |platos|
  {
    if |platos| > 0 {
      var r := ReplaceById(platos, id, updated);
      assert r[1..] == ReplaceById(platos[1..], id, updated);
      RemoveAfterReplace(platos[1..], id, updated);
    }
  }

  /** `agregarOActualizar` with the server's reply `reply`. An unsubmittable
      form sends nothing and changes nothing. Otherwise an edit sends a PUT,
      replaces the edited item by the reply and leaves edit mode; a new item
      is POSTed and the reply appended; either way the form is cleared. */
  function Submit(s: Admin, reply: Plato): (r: (Admin, Option<Request>))
    ensures !Submittable(s.form) ==> r == (s, None)
    ensures Submittable(s.form) && s.editandoId.Some? ==>
              && r.1 == Some(Put(s.editandoId.value, s.form))
              && r.0 == Admin(ReplaceById(s.platos, s.editandoId.value, reply), EmptyForm, None)
    ensures Submittable(s.form) && s.editandoId.None? ==>
              && r.1 == Some(Post(s.form))
              && r.0 == Admin(s.platos + [reply], EmptyForm, None)
  {
    if !Submittable(s.form) then (s, None)
    else
      match s.editandoId
      case Some(id) => (Admin(ReplaceById(s.platos, id, reply), EmptyForm, None), Some(Put(id, s.form)))
      case None => (Admin(s.platos + [reply], EmptyForm, None), Some(Post(s.form)))
  }

  /** `eliminar(id)` after the confirmation dialog: declined, nothing is
      sent or changed; confirmed, the DELETE is sent and the items with
      that id leave the list. */
  function Eliminate(s: Admin, id: int, confirmed: bool): (r: (Admin, Option<Request>))
    ensures !confirmed ==> r == (s, None)
    ensures confirmed ==> r == (s.(platos := RemoveById(s.platos, id)), Some(Delete(id)))
  {
    if !confirmed then (s, None) else (s.(platos := RemoveById(s.platos, id)), Some(Delete(id)))
  }

  /** A created item comes back last, and deleting it again restores the
      list, provided its id was new to the list. */
  lemma CreateThenDelete(s: Admin, reply: Plato)
    requires Submittable(s.form) && s.editandoId.None?
    requires forall i :: 0 <= i < |s.platos| ==> s.platos[i].id != reply.id
    ensures var after := Submit(s, reply).0;
            after.platos[|after.platos| - 1] == reply
            && Eliminate(after, reply.id, true).0.platos == s.platos
  {
    RemoveByIdConcat(s.platos, [reply], reply.id);
    RemoveAbsent(s.platos, reply.id);
    assert RemoveById([reply], reply.id) == [];
  }
}
