/** The migration script: create the `platos` table if it is absent, then
    seed it with the starter catalog only when it holds no rows. */
module Migrate {
  import opened Wire
  import opened Schema

  /** One entry of the starter catalog, as the seed INSERT lists it. */
  datatype Item = Item(nombre: string, precio: Price, descripcion: string, categoria: string)

  /** The thirty seed entries in the order the INSERT lists them (prices in
      cents). */
  const Catalog: seq<Item> := [
      Item("Picada Sencilla", 1400,
           "Salsa, queso fresco, cebolla y frijoles. Salsas disponibles: ranchera, verde con aguacate, tomate, chipotle o habanera.",
           "Picadas y Gordas"),
      Item("Gorda Blanca", 1400,
           "Salsa y queso fresco. Salsas disponibles: ranchera, verde con aguacate, tomate, chipotle o habanera.",
           "Picadas y Gordas"),
      Item("Gorda Dulce", 1400,
           "Salsa, queso fresco y crema. Salsas disponibles: ranchera, verde con aguacate, tomate, chipotle o habanera.",
           "Picadas y Gordas"),
      Item("Gorda Negra", 1400,
           "Salsa, queso fresco y crema. Salsas disponibles: ranchera, verde con aguacate, tomate, chipotle o habanera.",
           "Picadas y Gordas"),
      Item("Picada preparada", 2200,
           "Preparada con picadillo, pollo, longaniza o huevo. Incluye salsa, queso fresco y cebolla.",
           "Picadas y Gordas"),
      Item("Gorda preparada", 2200,
           "Preparada con picadillo, pollo, longaniza o huevo. Incluye salsa y queso fresco.",
           "Picadas y Gordas"),
      Item("Empanada", 1800,
           "Rellena de queso de hebra, picadillo, pollo o longaniza. Se sirve con salsa, crema y queso fresco.",
           "Empanadas"),
      Item("Empanada Negra", 2200,
           "Rellena de queso de hebra, picadillo, pollo o longaniza. Se sirve con salsa, crema y queso fresco.",
           "Empanadas"),
      Item("Empanada Dulce", 2200,
           "Rellena de queso de hebra, picadillo, pollo o longaniza. Se sirve con salsa, crema y queso fresco.",
           "Empanadas"),
      Item("Quesadilla Chica", 1800,
           "Queso de hebra como base, con picadillo, pollo o longaniza. Acompañada de salsa, crema y queso fresco.",
           "Quesadillas"),
      Item("Quesadilla Grande", 5500,
           "Queso de hebra como base, con picadillo, pollo o longaniza. Acompañada de salsa, crema y queso fresco.",
           "Quesadillas"),
      Item("Salsa Extra", 500,
           "Porción adicional de salsa.",
           "Complementos"),
      Item("Chilaquiles Sencillos", 5000,
           "Totopos con salsa, crema y queso fresco.",
           "Desayunos"),
      Item("Chilaquiles preparados", 6500,
           "Chilaquiles con huevo estrellado o revuelto, o longaniza.",
           "Desayunos"),
      Item("Huevos al Gusto", 6000,
           "Dos huevos con jamón, longaniza o a la mexicana, acompañados con frijol de bola, queso fresco, salsa y tres tortillas hechas a mano.",
           "Desayunos"),
      Item("Torta de Pibil", 5000,
           "Torta con mayonesa, cebolla y habanero",
           "Tortas"),
      Item("Taco de Pibil", 1100,
           "Taco de cochinita pibil",
           "Tacos"),
      Item("Promo 5 Tacos de Pibil", 5000,
           "Promoción de 5 tacos de pibil",
           "Promociones"),
      Item("Agua de Horchata 1 lt", 3000,
           "Agua fresca de horchata",
           "Bebidas"),
      Item("Agua de Jamaica 1 lt", 3000,
           "Agua fresca de jamaica",
           "Bebidas"),
      Item("Coca Cola 600 ml", 2500,
           "Refresco Coca Cola de 600 ml",
           "Bebidas"),
      Item("Café con leche", 2000,
           "Café con leche caliente",
           "Bebidas"),
      Item("Agua para café", 1500,
           "Agua caliente para preparar café",
           "Bebidas"),
      Item("Refresco", 2500,
           "Refrescos varios",
           "Bebidas"),
      Item("Licuado de Fresa 500 ml", 4000,
           "Licuado de fresa 500 ml",
           "Licuados"),
      Item("Licuado de Fresa 1 lt", 7000,
           "Licuado de fresa 1 litro",
           "Licuados"),
      Item("Licuado de Plátano o Chocomilk 500 ml", 3500,
           "Licuado de plátano o chocomilk 500 ml",
           "Licuados"),
      Item("Licuado de Plátano o Chocomilk 1 lt", 5000,
           "Licuado de plátano o chocomilk 1 litro",
           "Licuados"),
      Item("Hielito", 2000,
           "Hielito sabor a fruta",
           "Postres"),
      Item("Chamoyada", 3500,
           "Chamoyada con frutas y chamoy",
           "Postres")
    ]

  /** The seed INSERT names nombre, precio, descripcion and categoria;
      `disponible` takes the column default. */
  function SeedValues(): (vs: seq<Values>)
    ensures |vs| == |Catalog| == 30
    ensures forall i :: 0 <= i < |vs| ==>
              && vs[i].nombre == Catalog[i].nombre && vs[i].precio == Catalog[i].precio
              && vs[i].descripcion == Some(Catalog[i].descripcion)
              && vs[i].categoria == Some(Catalog[i].categoria)
              && vs[i].disponible == DisponibleDefault
    ensures forall i :: 0 <= i < |vs| ==> vs[i].nombre != "" && vs[i].precio >= 0
  {
    seq(|Catalog|, i requires 0 <= i < |Catalog| =>
      Values(Catalog[i].nombre, Catalog[i].precio, Some(Catalog[i].descripcion),
             Some(Catalog[i].categoria), DisponibleDefault))
  }

  /** `CREATE TABLE IF NOT EXISTS platos`: the table as it was, or a new
      empty one whose counter starts at 1. */
  function CreatedIfAbsent(existing: Option<Snapshot>): Snapshot {
    existing.GetOr(Snapshot([], 1))
  }

  /** The count-guarded seed: insert the catalog when `COUNT(*)` is 0. */
  function Seeded(s: Snapshot): (r: Snapshot)
    requires WellFormed(s)
    ensures WellFormed(r)
    ensures |s.rows| > 0 ==> r == s
    ensures |s.rows| == 0 ==> |r.rows| == |Catalog| && r.nextId == s.nextId + |Catalog|
  {
    if |s.rows| == 0 then Inserted(s, SeedValues()) else s
  }

  /** A whole migration run over the table, absent or present. */
  function Migrated(existing: Option<Snapshot>): (r: Snapshot)
    requires existing.Some? ==> WellFormed(existing.value)
    ensures WellFormed(r)
  {
    Seeded(CreatedIfAbsent(existing))
  }

  /** Creating the table never touches an existing one. */
  lemma CreationKeepsExisting(s: Snapshot)
    ensures CreatedIfAbsent(Some(s)) == s
  {
  }

  /** A table with rows is left exactly as it was; an empty one receives
      the catalog, in order, under fresh ascending ids, each available. */
  lemma SeedOnlyWhenEmpty(s: Snapshot)
    requires WellFormed(s)
    ensures |s.rows| > 0 ==> Seeded(s) == s
    ensures |s.rows| == 0 ==>
              && |Seeded(s).rows| == 30 && Seeded(s).nextId == s.nextId + 30
              && forall i :: 0 <= i < 30 ==>
                   && Seeded(s).rows[i].id == s.nextId + i
                   && Seeded(s).rows[i].nombre == Catalog[i].nombre
                   && Seeded(s).rows[i].precio == Catalog[i].precio
                   && Seeded(s).rows[i].descripcion == Some(Catalog[i].descripcion)
                   && Seeded(s).rows[i].categoria == Some(Catalog[i].categoria)
                   && Seeded(s).rows[i].disponible == 1
  {
    if |s.rows| == 0 {
      var vs := SeedValues();
      assert s.rows == [];
      forall i | 0 <= i < 30
        ensures Seeded(s).rows[i] == Stored(s.nextId + i, vs[i])
      {
        InsertedIntoEmpty(s, vs, i);
      }
    }
  }

  /** Running the migration a second time changes nothing, so it never
      duplicates the catalog. */
  lemma {:induction false} MigrationIdempotent(existing: Option<Snapshot>)
    requires existing.Some? ==> WellFormed(existing.value)
    ensures Migrated(Some(Migrated(existing))) == Migrated(existing)
  {
    var once := Migrated(existing);
    var created := CreatedIfAbsent(existing);
    SeedOnlyWhenEmpty(created);
    SeedOnlyWhenEmpty(once);
    assert |once.rows| > 0;
  }

  /** The script against the database: create the table if absent, count
      its rows, and insert the catalog when the count is 0. */
  method Migrate(db: Database)
    requires db.platos != null ==> db.platos.Valid()
    modifies db, db.platos
    ensures db.platos != null && db.platos.Valid()
    ensures old(db.platos) != null ==> db.platos == old(db.platos)
    ensures db.platos.State() ==
              Migrated(if old(db.platos) == null then None else Some(old(db.platos.State())))
  {
    if db.platos == null {
      db.platos := new Table();
    }
    var table := db.platos;
    var count := |table.rows|;
    if count == 0 {
      var _ := table.Insert(SeedValues());
    }
  }
}
