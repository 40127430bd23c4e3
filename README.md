# Fondita menu: a Dafny model

Fondita is a small restaurant's menu application. An Express server keeps the
menu items ("platos") in one MySQL table and serves them under `/api/platos`.
A React page shows the menu to customers and offers a hidden admin panel to
create, edit and delete items. A migration script creates the table and seeds it
with a starter catalog of thirty dishes.

This project models the logic of those pieces and proves what each one promises:

- **The table** (`schema.dfy`, module `Schema`). The table is a `Table` object
  holding its rows and its AUTO_INCREMENT counter. The rows are kept in
  primary-key order, which is the order `ORDER BY id` returns. `Valid()` says
  that ids are positive, unique and ascending, and all below the counter.
  A multi-row INSERT assigns consecutive fresh ids. `Find` is the
  `WHERE id = ? LIMIT 1` lookup.
- **The API handlers** (`server.dfy`, module `Server`). These are `toBool`
  and the GET, POST, PUT and DELETE handlers. Each handler is a method on an
  injected `Table` and returns either a status with a body or a status with an
  `{ error }` message. The PUT handler builds its SET list field by field, in
  the order nombre, precio, descripcion, categoria, disponible. That list is
  proved to change exactly the supplied fields. Errors come in the source's
  order: 404 before 400.
- **The migration** (`migrate.dfy`, module `Migrate`). It creates the table if
  absent and inserts the catalog only when `COUNT(*)` is 0. Running it twice
  gives the same table as running it once.
- **The admin shortcut** (`admin_shortcut.dfy`, module `AdminShortcut`). The
  keydown listener keeps the last five lowercased keys in a window and shows
  the admin button when they spell "admin".
- **The landing-page timers** (`counters.dfy`, module `Counters`). The
  statistics counters climb to fixed limits, and the testimonial carousel
  cycles through its entries.
- **The menu list** (`menu_state.dfy`, module `MenuState`). This covers
  normalising the fetched items, validating and submitting the admin form, and
  the local list updates after a create, an update or a delete.
- **The menu view** (`menu_view.dfy`, module `MenuView`). This covers the
  search and category filter, and the category buttons.
- **Image URLs** (`images.dfy`, module `Images`). This is `getImage`.
- `wire.dfy` (module `Wire`) holds the value shapes shared by the server and
  the page. `text.dfy` (module `Text`) holds the JavaScript string operations
  the page uses.

Prices are whole cents. Nothing in the code compares prices or computes with
them.

A JSON field is `Undefined`, `Null` or `Given(v)`. `!== undefined` holds of
the last two, so `null` counts as supplied. This matches the handlers'
`!== undefined` tests.

The handlers check only what the code checks:

- POST does not refuse a negative price.
- PUT does not re-check the fields it receives. An empty name is accepted,
  and so is a negative price.
- GET returns every item, available or not.

Some behaviour comes from the database rather than the JavaScript:

- A PUT that sets `nombre` or `precio` to `null` is refused by the NOT NULL
  columns (`migrate.js:25-26`). MySQL's default strict mode turns that into an
  error, which the handler's catch block answers with 500. The table is left
  unchanged.
- POST's destructuring defaults apply to a missing field only. An explicit
  `null` description or category is stored as NULL. An explicit `null`
  `disponible` is stored as 0.

## Model

| member | source | states |
|---|---|---|
| `Schema.Table.constructor` | fondita-backend/migrate.js:22-31 | a newly created table is empty, with its AUTO_INCREMENT counter at 1 |
| `Schema.Inserted` | fondita-backend/migrate.js:24 | an INSERT appends its tuples after every existing row, in listed order, with consecutive fresh ids larger than every id in use; the table stays well formed |
| `Schema.Table.Insert` | fondita-backend/server.js:62-65 | the INSERT statement changes the table as `Inserted` says, and `insertId` is the first new id |
| `Schema.Find` | fondita-backend/server.js:84-85 | `WHERE id = ? LIMIT 1` finds a row with that id if one exists, and reports none exactly when no row has it |
| `Schema.FindUnique` | fondita-backend/server.js:67-68 | with unique ids, reading a row back by its id finds that row |
| `Server.ToBool` | fondita-backend/server.js:39-41 | `toBool` is true exactly for a non-zero stored flag, and re-encodes a stored 0 or 1 as itself |
| `Server.FlagRoundTrip` | fondita-backend/server.js:39-41 | `toBool` reads back true for a stored 1 and false for a stored 0, so it inverts the `? 1 : 0` encoding used on writes |
| `Server.List` | fondita-backend/server.js:45-54 | GET answers 200 with every row, field for field, with `disponible` true iff the stored flag is non-zero, in strictly ascending id order |
| `Server.MissingRequired` | fondita-backend/server.js:60 | the guard passes exactly the bodies with a non-empty name and a given price, so a zero or negative price is accepted; a passing body has a name and a price to store |
| `Server.Insertion` | fondita-backend/server.js:59-64 | a POST body becomes a tuple with its name and price; a missing description or category becomes `''`, an explicit null one is stored as NULL, and a given one as given; a missing `disponible` becomes 1; an explicit null `disponible` becomes 0 |
| `Server.Create` | fondita-backend/server.js:57-76 | an empty or missing name, or an undefined or null price, gives 400 and leaves the table unchanged; otherwise one row is appended under a fresh id larger than every existing id, and 201 returns that row with its boolean `disponible` |
| `Server.Assignments` | fondita-backend/server.js:87-95 | the SET list has at most five items, and is empty exactly when every field is `undefined`, the case answered with 400 |
| `Server.BuildAssignments` | fondita-backend/server.js:87-93 | the pushes build exactly the SET list `Assignments` describes, field by field in the order nombre, precio, descripcion, categoria, disponible |
| `Server.ExecuteAssignments` | fondita-backend/server.js:87-97 | the SET list fails exactly when `nombre` or `precio` is null; otherwise it sets each supplied field, maps null to NULL and `disponible` to 1/0, and leaves the id and every unsupplied field as they were |
| `Server.Update` | fondita-backend/server.js:79-109 | an unknown id gives 404 before the body is looked at; no supplied field gives 400; a null name or price gives 500; each of these leaves the table unchanged; otherwise only the target row changes, only in its supplied fields, ids and order are kept, and 200 returns the row after the update |
| `Server.RemovedGone` | fondita-backend/server.js:117 | removing a row keeps the table well formed, and its id can no longer be found |
| `Server.Delete` | fondita-backend/server.js:112-123 | an unknown id gives 404 and changes nothing; otherwise that row alone is removed, the rest keep their order, and 200 returns the removed row as stored; afterwards the id is not found |
| `Server.GordaBlancaScenario` | fondita-backend/server.js:57-123 | on a new table, create gives id 1 with `disponible` true; an update of `disponible` alone keeps the name; delete returns the row; a second delete gives 404; the final list is empty |
| `Migrate.SeedValues` | fondita-backend/migrate.js:37-69 | the seed INSERT holds the thirty catalog entries in listed order; each has a non-empty name, a non-negative price, and `disponible` from the column default (TRUE) |
| `Migrate.CreationKeepsExisting` | fondita-backend/migrate.js:22-31 | `CREATE TABLE IF NOT EXISTS` leaves an existing table's rows and counter as they were |
| `Migrate.Migrated` | fondita-backend/migrate.js:22-74 | a migration run always leaves a well-formed table |
| `Migrate.Seeded` | fondita-backend/migrate.js:34-35 | the count-guarded seed keeps the table well formed, leaves a table with rows as it was, and gives an empty one as many rows as the catalog has, advancing the counter by as many |
| `Migrate.SeedOnlyWhenEmpty` | fondita-backend/migrate.js:35-69 | a table with rows is left exactly as it was; an empty table receives exactly the thirty catalog rows, in order, under ascending fresh ids, each available |
| `Migrate.MigrationIdempotent` | fondita-backend/migrate.js:35-74 | running the migration on its own result changes nothing |
| `Migrate.Migrate` | fondita-backend/migrate.js:22-74 | the script creates the table only when it is absent and leaves it as `Migrated` describes |
| `Images.GetImage` | fondita-frontend/src/getImage.js:1-11 | a missing or empty path gives `/fallback.jpg`; a path starting with `/uploads` is appended to `http://localhost:5000` unchanged; any other path goes under `http://localhost:5000/uploads/` |
| `Images.UrlKeepsPath` | fondita-frontend/src/getImage.js:5-10 | for every non-empty path, the URL starts with `http://localhost:5000/uploads` and ends with the path |
| `Images.BareAndPrefixedAgree` | fondita-frontend/src/getImage.js:4-10 | a bare file name and the same name under `/uploads/` resolve to the same URL |
| `Images.PlainPrefixTest` | fondita-frontend/src/getImage.js:5 | the test is a plain string prefix, so `/uploadsX` gets no second `/uploads/` |
| `Text.Contains` | fondita-frontend/src/App.js:194 | `includes` can hold only when the needle is no longer than the string |
| `Text.ContainsAt` | fondita-frontend/src/App.js:194 | `includes` holds whenever the needle occurs at some position |
| `Text.ContainsOccurs` | fondita-frontend/src/App.js:194 | `includes` holds only when the needle occurs at some position; with `ContainsAt`, it holds exactly then |
| `AdminShortcut.Pushed` | fondita-frontend/src/App.js:50-55 | after `push` and `shift` the window ends with the lowercased key, and a window of at most five stays at most five |
| `AdminShortcut.Step` | fondita-frontend/src/App.js:49-62 | after a key, the button is shown iff it was already shown or the joined window of the last five lowercased keys is `admin`; the window is cleared exactly when it joins to `admin`, is otherwise the pushed window, and is never longer than five |
| `AdminShortcut.LastOfPushed` | fondita-frontend/src/App.js:50-55 | pushing a key and shifting out the oldest entry past five gives exactly the last five keys typed |
| `AdminShortcut.RunBounded` | fondita-frontend/src/App.js:52-55 | whatever keys are typed, the window never holds more than five entries |
| `AdminShortcut.TypingAdminShows` | fondita-frontend/src/App.js:50-61 | typing a, d, m, i, n, in either case, shows the button, whatever was typed before |
| `AdminShortcut.UpperCaseShows` | fondita-frontend/src/App.js:50 | typing `ADMIN` shows the button because the keys are lowercased |
| `AdminShortcut.KeyListener.constructor` | fondita-frontend/src/App.js:31 | the listener starts with an empty window and the button hidden |
| `AdminShortcut.KeyListener.Press` | fondita-frontend/src/App.js:49-63 | the handler changes the state as `Step` says; the window is the last five lowercased keys since the last match, or empty right after one; the button shows iff those keys spell `admin` or it was already shown |
| `Counters.Tick` | fondita-frontend/src/App.js:78-82 | one tick never lowers a counter that is within its limit and on its step, and keeps it within the limit and on the step |
| `Counters.TicksClosedForm` | fondita-frontend/src/App.js:77-83 | after n ticks from zero, the counters are n, 2n and 50n, each capped at 15, 50 and 1000 |
| `Counters.TicksBounded` | fondita-frontend/src/App.js:78-82 | años stays at most 15; platillos stays even and at most 50; clientes stays a multiple of 50 and at most 1000 |
| `Counters.TicksMonotone` | fondita-frontend/src/App.js:78-82 | no counter ever goes down from one tick to a later one |
| `Counters.TicksSettle` | fondita-frontend/src/App.js:78-82 | from the 25th tick on, the counters rest at 15, 50 and 1000 |
| `Counters.NextTestimonial` | fondita-frontend/src/App.js:100 | the carousel index is always a valid index into the three testimonials |
| `Counters.ShownIsMod` | fondita-frontend/src/App.js:98-103 | after k steps the carousel shows testimonial k mod 3 |
| `Counters.VisitsEvery` | fondita-frontend/src/App.js:100 | every testimonial is shown, first after i steps and then again every three steps |
| `MenuState.Normalized` | fondita-frontend/src/App.js:109-116 | normalisation keeps the id; a missing or null name, description or category becomes `''`; an unreadable price becomes 0; `disponible` is true iff the raw value is `1` or `true` |
| `MenuState.NormalizedAll` | fondita-frontend/src/App.js:109-117 | every fetched item is normalised, in the order received |
| `MenuState.NormalizedServerItem` | fondita-frontend/src/App.js:109-116 | normalising an item the server sent gives that item back, with a NULL description or category read as `''` |
| `MenuState.ReplaceById` | fondita-frontend/src/App.js:151-154 | after an update, exactly the items with the edited id are replaced by the reply; length and order are kept |
| `MenuState.RemoveById` | fondita-frontend/src/App.js:176 | after a delete, an item remains iff it was there and its id differs from the deleted one |
| `MenuState.RemoveByIdConcat` | fondita-frontend/src/App.js:176 | filtering by id distributes over concatenation, so the remaining items keep their order |
| `MenuState.RemoveAbsent` | fondita-frontend/src/App.js:176 | deleting an id no item has leaves the list unchanged |
| `MenuState.RemoveAfterReplace` | fondita-frontend/src/App.js:151-176 | deleting an item after editing it gives the same list as deleting it without the edit |
| `MenuState.Submittable` | fondita-frontend/src/App.js:130 | the form is refused exactly when the name is empty or the price text is `''`, so a price of 0 is sent; the cleared form is refused |
| `MenuState.Submit` | fondita-frontend/src/App.js:128-170 | with an empty name or an empty price text, nothing is sent and nothing changes; otherwise an edit sends a PUT, replaces the item and leaves edit mode; a new item is POSTed and the reply appended; the form is then cleared |
| `MenuState.Eliminate` | fondita-frontend/src/App.js:172-180 | a declined confirmation sends and changes nothing; a confirmed one sends the DELETE and removes the items with that id |
| `MenuState.CreateThenDelete` | fondita-frontend/src/App.js:163-176 | a created item is appended last, and deleting it restores the list, provided its id was new to the list |
| `MenuView.Filtered` | fondita-frontend/src/App.js:193-197 | an item is shown iff its lowercased name includes the lowercased search text and the filter is `Todos` or equals its category |
| `MenuView.FilteredConcat` | fondita-frontend/src/App.js:193 | the filter keeps list order: it distributes over concatenation |
| `MenuView.ShowsAllByDefault` | fondita-frontend/src/App.js:193-197 | with an empty search and `Todos`, every item is shown, in order |
| `MenuView.SearchIgnoresCase` | fondita-frontend/src/App.js:194 | lowercasing the name or the search text beforehand changes nothing |
| `MenuView.NonEmptyCategories` | fondita-frontend/src/App.js:199 | `filter(Boolean)` keeps exactly the categories that are neither null nor empty |
| `MenuView.NonEmptyCategoriesConcat` | fondita-frontend/src/App.js:199 | `map` and `filter` keep the items' order: the categories of two lists joined are those of the first followed by those of the second |
| `MenuView.FirstItemOrder` | fondita-frontend/src/App.js:199 | two categories first appear in the filtered list in the same order as the first items filed under them |
| `MenuView.Distinct` | fondita-frontend/src/App.js:199 | the `Set` keeps exactly the elements of its input |
| `MenuView.DistinctOrdered` | fondita-frontend/src/App.js:199 | the `Set` holds no duplicates and lists elements in the order of their first appearance |
| `MenuView.Categories` | fondita-frontend/src/App.js:199 | the category list starts with `Todos`, and after it holds exactly the non-empty categories of the items |
| `MenuView.CategoriesOrdered` | fondita-frontend/src/App.js:199 | after `Todos`, the categories come in the order in which the first item of each appears in the list |
| `MenuView.CategoriesDistinct` | fondita-frontend/src/App.js:199 | after `Todos`, no category appears twice |

## Left out

- The Express app is not modelled: routing, CORS, JSON body parsing, the
  catch-all 404 route, `app.listen`, dotenv and pool creation
  (`server.js:1-37`, `125-138`). This is library plumbing.
- SQL text, connections, `CREATE DATABASE IF NOT EXISTS` and `changeUser` are
  left out. The table is modelled as a value.
- Concurrent requests are left out. The code relies on the database for
  atomicity.
- Storage failures answered with 500 by the catch blocks are left out. The one
  exception is a null name or price in a PUT, which the NOT NULL columns
  refuse under MySQL's default strict mode. Outside strict mode MySQL would
  store `''` or `0.00` with a warning and the PUT would answer 200; the model
  does not cover that mode.
- Column limits that MySQL enforces in strict mode are not modelled: names or
  categories over 100 characters and prices beyond DECIMAL(10,2). They would
  end in a 500.
- `Server.List`: `parseFloat(r.precio)` is not modelled. Prices are integer
  cents, so the decimal string MySQL returns for DECIMAL plays no part.
- `MenuState.Normalized`: `parseFloat(p.precio) || 0` is modelled only for an
  integer price or an unreadable one. Parsing a decimal string is left out.
- `MenuState.Submit`: the payload carries the form's price as entered.
  `Number(formData.precio)` is not modelled.
- `MenuState.Submit`: the client does not check the reply's status. An error
  body would be placed in the list. The model takes the server's reply to be
  an item.
- `Server.ToBool` is modelled on integers, the only values the TINYINT column
  yields. Other JavaScript values given to `+val` are not modelled.
- Request fields are typed: strings for text fields, integers for the price,
  booleans for `disponible`. Other JSON types in a request body are not
  modelled, and neither is a non-numeric `:id` in the URL.
- `Text.Lower` lowercases ASCII letters only. Unicode case mapping in
  `toLowerCase` is not modelled.
- The `'1234'` password gate is left out (`App.js:606`). It is not a
  security mechanism.
- React rendering, animation and the `setTimeout`/`setInterval` scheduling
  are left out. So are the scroll and keydown listener registration, `fetch`,
  `alert` and the contact form. The confirmation dialog of `eliminar` is a
  boolean parameter. `editar` and `manejarCambio`, which only copy values
  into the form, are not modelled.
- The mapping of the carousel over `testimonios.length` uses the page's fixed
  count of three testimonials.
