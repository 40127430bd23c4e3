/** What the menu shows: the items matching the search box and the
    category filter, and the list of category buttons. */
module MenuView {
  import opened Wire
  import opened Text

  const Todos := "Todos"

  /** The test inside `platosFiltrados`: the lowercased name includes the
      lowercased search text, and the filter is `Todos` or the item's
      category. */
  predicate Visible(p: Plato, buscar: string, filtro: string) {
    && Contains(Lower(p.nombre), Lower(buscar))
    && (filtro == Todos || p.categoria == Some(filtro))
  }

  /** `platosFiltrados`. */
  function Filtered(platos: seq<Plato>, buscar: string, filtro: string): (r: seq<Plato>)
    ensures |r| <= |platos|
    ensures forall p :: p in r <==> p in platos && Visible(p, buscar, filtro)
    decreases |platos|
  {
    if |platos| == 0 then []
    else
      (if Visible(platos[0], buscar, filtro) then [platos[0]] else [])
      + Filtered(platos[1..], buscar, filtro)
  }

  /** The filter keeps the list's order: it distributes over concatenation. */
  lemma {:induction false} FilteredConcat(a: seq<Plato>, b: seq<Plato>, buscar: string, filtro: string)
    ensures Filtered(a + b, buscar, filtro) == Filtered(a, buscar, filtro) + Filtered(b, buscar, filtro)
    decreases |a|
  {
    if |a| == 0 {
      assert a + b == b;
    } else {
      assert (a + b)[1..] == a[1..] + b;
      FilteredConcat(a[1..], b, buscar, filtro);
    }
  }

  /** With an empty search box and `Todos` selected, every item is shown. */
  lemma {:induction false} ShowsAllByDefault(platos: seq<Plato>)
    ensures Filtered(platos, "", Todos) == platos
    decreases |platos|
  {
    if |platos| > 0 {
      ContainsEmpty(Lower(platos[0].nombre));
      assert Lower("") == "";
      ShowsAllByDefault(platos[1..]);
      assert [platos[0]] + platos[1..] == platos;
    }
  }

  /** The search ignores the case of both the name and the search text. */
  lemma SearchIgnoresCase(p: Plato, buscar: string, filtro: string)
    ensures Visible(p, buscar, filtro) == Visible(p.(nombre := Lower(p.nombre)), Lower(buscar), filtro)
  {
    LowerIdempotent(p.nombre);
    LowerIdempotent(buscar);
  }

  lemma LowerIdempotent(s: string)
    ensures Lower(Lower(s)) == Lower(s)
  {
  }

  /** `platos.map(p => p.categoria).filter(Boolean)`: categories that are
      neither null nor empty, in list order. */
  function NonEmptyCategories(platos: seq<Plato>): (r: seq<string>)
    ensures forall c :: c in r <==> c != "" && exists i :: 0 <= i < |platos| && platos[i].categoria == Some(c)
    decreases |platos|
  {
    if |platos| == 0 then []
    else
      var rest := NonEmptyCategories(platos[1..]);
      assert forall i :: 0 <= i < |platos| - 1 ==> platos[1..][i] == platos[i + 1];
      match platos[0].categoria
      case Some(c) => if c != "" then [c] + rest else rest
      case None => rest
  }

  /** `map` and `filter` keep the list's order: the categories of two lists
      one after the other are those of the first, then those of the second. */
  lemma {:induction false} NonEmptyCategoriesConcat(a: seq<Plato>, b: seq<Plato>)
    ensures NonEmptyCategories(a + b) == NonEmptyCategories(a) + NonEmptyCategories(b)
    decreases |a|
  {
    if |a| == 0 {
      assert a + b == b;
    } else {
      assert (a + b)[1..] == a[1..] + b;
      NonEmptyCategoriesConcat(a[1..], b);
    }
  }

  /** The position of the first item filed under category `c`. */
  function FirstItem(platos: seq<Plato>, c: string): (k: nat)
    requires exists i :: 0 <= i < |platos| && platos[i].categoria == Some(c)
    ensures k < |platos| && platos[k].categoria == Some(c)
    ensures forall m :: 0 <= m < k ==> platos[m].categoria != Some(c)
    decreases |platos|
  {
    if platos[0].categoria == Some(c) then 0
    else
      assert forall i :: 1 <= i < |platos| ==> platos[1..][i - 1] == platos[i];
      1 + FirstItem(platos[1..], c)
  }

  /** Two categories come in the filtered list in the order of the first
      items filed under them. */
  lemma {:induction false} FirstItemOrder(platos: seq<Plato>, c: string, d: string)
    requires c in NonEmptyCategories(platos) && d in NonEmptyCategories(platos) && c != d
    ensures (FirstIndex(NonEmptyCategories(platos), c) < FirstIndex(NonEmptyCategories(platos), d))
              <==> (FirstItem(platos, c) < FirstItem(platos, d))
    decreases |platos|
  {
    var n, rest := NonEmptyCategories(platos), platos[1..];
    var nr := NonEmptyCategories(rest);
    if platos[0].categoria != Some(c) && platos[0].categoria != Some(d) {
      assert n == nr || (|n| > 0 && n[0] != c && n[0] != d && n[1..] == nr);
      FirstItemOrder(rest, c, d);
    }
  }

  /** `[...new Set(s)]`: each element once, where it first appears. */
  function Distinct(s: seq<string>): (d: seq<string>)
    ensures forall x :: x in d <==> x in s
    decreases |s|
  {
    if |s| == 0 then []
    else
      var d := Distinct(s[..|s| - 1]);
      assert s == s[..|s| - 1] + [s[|s| - 1]];
      if s[|s| - 1] in d then d else d + [s[|s| - 1]]
  }

  /** The position where `x` first appears in `s`. */
  function FirstIndex(s: seq<string>, x: string): (k: nat)
    requires x in s
    ensures k < |s| && s[k] == x && x !in s[..k]
  {
    if s[0] == x then 0 else 1 + FirstIndex(s[1..], x)
  }

  lemma {:induction false} FirstIndexAppend(s: seq<string>, y: string, x: string)
    requires x in s
    ensures FirstIndex(s + [y], x) == FirstIndex(s, x)
    decreases |s|
  {
    if s[0] != x {
      assert (s + [y])[1..] == s[1..] + [y];
      FirstIndexAppend(s[1..], y, x);
    }
  }

  /** `Distinct` holds no duplicates and lists its elements in the order of
      their first appearance. */
  lemma {:induction false} DistinctOrdered(s: seq<string>)
    ensures forall i, j :: 0 <= i < j < |Distinct(s)| ==> Distinct(s)[i] != Distinct(s)[j]
    ensures forall i, j :: 0 <= i < j < |Distinct(s)| ==>
              FirstIndex(s, Distinct(s)[i]) < FirstIndex(s, Distinct(s)[j])
    decreases |s|
  {
    if |s| > 0 {
      var init, x := s[..|s| - 1], s[|s| - 1];
      assert s == init + [x];
      DistinctOrdered(init);
      var d := Distinct(init);
      forall y | y in init
        ensures FirstIndex(s, y) == FirstIndex(init, y)
      {
        FirstIndexAppend(init, x, y);
      }
      if x !in d {
        assert x !in init;
        assert FirstIndex(s, x) == |init|;
      }
    }
  }

  /** `categorias`: `Todos`, then every non-empty category once, in order
      of first appearance. */
  function Categories(platos: seq<Plato>): (r: seq<string>)
    ensures |r| >= 1 && r[0] == Todos
    ensures forall c :: c in r[1..] <==> c != "" && exists i :: 0 <= i < |platos| && platos[i].categoria == Some(c)
  {
    [Todos] + Distinct(NonEmptyCategories(platos))
  }

  /** The category buttons after `Todos` come in the order in which their
      categories first appear in the list. */
  lemma CategoriesOrdered(platos: seq<Plato>)
    ensures var r := Categories(platos);
            forall i, j :: 1 <= i < j < |r| ==> FirstItem(platos, r[i]) < FirstItem(platos, r[j])
  {
    var n := NonEmptyCategories(platos);
    DistinctOrdered(n);
    var r := Categories(platos);
    var d := Distinct(n);
    forall i, j | 1 <= i < j < |r|
      ensures FirstItem(platos, r[i]) < FirstItem(platos, r[j])
    {
      assert r[i] == d[i - 1] && r[j] == d[j - 1];
      FirstItemOrder(platos, r[i], r[j]);
    }
  }

  /** The category buttons after `Todos` are pairwise different. */
  lemma CategoriesDistinct(platos: seq<Plato>)
    ensures var r := Categories(platos);
            forall i, j :: 1 <= i < j < |r| ==> r[i] != r[j]
  {
    DistinctOrdered(NonEmptyCategories(platos));
    var r := Categories(platos);
    var d := Distinct(NonEmptyCategories(platos));
    forall i, j | 1 <= i < j < |r|
      ensures r[i] != r[j]
    {
      assert r[i] == d[i - 1] && r[j] == d[j - 1];
    }
  }
}
