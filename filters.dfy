/** Client-side filtering (`aplicarFiltros`) and the table it feeds: a row is shown when it
    passes all three criteria, and an empty-state row is shown when none does. */
module Filters {
  import opened Wrappers
  import opened Text
  import opened Records

  /** The maximum-price box after `parseFloat`: empty (falsy, no criterion), a number, or text
      that does not parse (NaN, against which every comparison is false). */
  datatype MaxPrice = Blank | Limit(value: real) | NotANumber

  /** The filter boxes. An empty text box sets no criterion. */
  datatype Criteria = Criteria(sabor: string, categoria: string, precoMax: MaxPrice)

  const NoCriteria: Criteria := Criteria("", "", Blank)

  predicate PriceOk(d: Item, p: MaxPrice)
  {
    match p
    case Blank => true
    case Limit(m) => d.preco <= m
    case NotANumber => false
  }

  predicate SaborOk(d: Item, c: Criteria)
  {
    c.sabor == "" || Contains(Lower(d.sabor), Lower(c.sabor))
  }

  /** With optional chaining a row without a category yields undefined, which is falsy. */
  predicate CategoriaOk(d: Item, c: Criteria)
  {
    c.categoria == "" || (d.categoria.Some? && Contains(Lower(d.categoria.value), Lower(c.categoria)))
  }

  /** `aplicarFiltros(doce)`. */
  predicate Matches(d: Item, c: Criteria)
  {
    PriceOk(d, c.precoMax) && SaborOk(d, c) && CategoriaOk(d, c)
  }

  /** `doces.filter(aplicarFiltros)`: the table rows. */
  function Visible(rows: seq<Item>, c: Criteria): (r: seq<Item>)
    ensures |r| <= |rows|
    ensures forall i :: 0 <= i < |r| ==> Matches(r[i], c)
  {
    if rows == [] then []
    else (if Matches(rows[0], c) then [rows[0]] else []) + Visible(rows[1..], c)
  }

  /** Each passing row is shown as many times as it was loaded; a failing row not at all. */
  lemma {:induction false} VisibleCounts(rows: seq<Item>, c: Criteria, x: Item)
    ensures multiset(Visible(rows, c))[x] == if Matches(x, c) then multiset(rows)[x] else 0
    decreases |rows|
  {
    if rows != [] {
      VisibleCounts(rows[1..], c, x);
      assert rows == [rows[0]] + rows[1..];
      assert multiset(rows) == multiset([rows[0]]) + multiset(rows[1..]);
    }
  }

  /** The 'Nenhum doce encontrado' row is rendered instead of the table rows. */
  predicate ShowsEmptyRow(rows: seq<Item>, c: Criteria)
  {
    |Visible(rows, c)| == 0
  }

  /** `r` is `s` with some elements dropped and the rest kept in order. */
  ghost predicate Subsequence(r: seq<Item>, s: seq<Item>)
    decreases |s|
  {
    if r == [] then true
    else if s == [] then false
    else (r[0] == s[0] && Subsequence(r[1..], s[1..])) || Subsequence(r, s[1..])
  }

  /** The rows shown keep the loaded order. */
  lemma {:induction false} VisibleIsSubsequence(rows: seq<Item>, c: Criteria)
    ensures Subsequence(Visible(rows, c), rows)
    decreases |rows|
  {
    if rows != [] {
      VisibleIsSubsequence(rows[1..], c);
      var v := Visible(rows[1..], c);
      if Matches(rows[0], c) {
        assert Visible(rows, c) == [rows[0]] + v;
        assert ([rows[0]] + v)[1..] == v;
      } else {
        assert Visible(rows, c) == v;
      }
    }
  }

  /** Unfolds `Visible` on a list with a known first row. */
  lemma VisibleCons(x: Item, rest: seq<Item>, c: Criteria)
    ensures Visible([x] + rest, c) == (if Matches(x, c) then [x] else []) + Visible(rest, c)
  {
    assert ([x] + rest)[1..] == rest;
  }

  /** A loaded row is shown exactly when it passes the criteria. */
  lemma VisibleMembership(rows: seq<Item>, c: Criteria, x: Item)
    ensures x in Visible(rows, c) <==> x in rows && Matches(x, c)
  {
    var r := Visible(rows, c);
    VisibleCounts(rows, c, x);
    assert x in r <==> multiset(r)[x] > 0;
    assert x in rows <==> multiset(rows)[x] > 0;
  }

  /** The empty-state row appears exactly when no loaded row passes the criteria. */
  lemma EmptyRowIff(rows: seq<Item>, c: Criteria)
    ensures ShowsEmptyRow(rows, c) <==> forall i :: 0 <= i < |rows| ==> !Matches(rows[i], c)
  {
    var r := Visible(rows, c);
    if r != [] {
      VisibleMembership(rows, c, r[0]);
    }
    forall i | 0 <= i < |rows| && Matches(rows[i], c)
      ensures r != []
    {
      VisibleMembership(rows, c, rows[i]);
    }
  }

  /** With every box empty every row matches and the whole list is shown. */
  lemma {:induction false} NoCriteriaShowsAll(rows: seq<Item>)
    ensures forall d :: Matches(d, NoCriteria)
    ensures Visible(rows, NoCriteria) == rows
    decreases |rows|
  {
    if rows != [] {
      NoCriteriaShowsAll(rows[1..]);
      assert rows == [rows[0]] + rows[1..];
    }
  }

  /** `c2` keeps every criterion `c1` sets and may set more. */
  predicate Narrows(c2: Criteria, c1: Criteria)
  {
    && (c1.sabor == "" || c2.sabor == c1.sabor)
    && (c1.categoria == "" || c2.categoria == c1.categoria)
    && (c1.precoMax == Blank || c2.precoMax == c1.precoMax)
  }

  /** Setting an extra criterion can only remove rows. */
  lemma NarrowingShrinks(d: Item, c1: Criteria, c2: Criteria)
    requires Narrows(c2, c1) && Matches(d, c2)
    ensures Matches(d, c1)
  {
  }

  /** Filtering by a narrower set of criteria is filtering the already-filtered rows. */
  lemma {:induction false} NarrowingFiltersVisible(rows: seq<Item>, c1: Criteria, c2: Criteria)
    requires Narrows(c2, c1)
    ensures Visible(Visible(rows, c1), c2) == Visible(rows, c2)
    decreases |rows|
  {
    if rows != [] {
      var x, rest := rows[0], rows[1..];
      assert rows == [x] + rest;
      NarrowingFiltersVisible(rest, c1, c2);
      VisibleCons(x, rest, c1);
      VisibleCons(x, rest, c2);
      if Matches(x, c2) {
        NarrowingShrinks(x, c1, c2);
      }
      if Matches(x, c1) {
        VisibleCons(x, Visible(rest, c1), c2);
      } else {
        assert Visible(rows, c1) == Visible(rest, c1);
        assert Visible(rows, c2) == Visible(rest, c2);
      }
    }
  }

  /** Typing more into the flavour box can only remove rows. */
  lemma LongerSaborNarrows(d: Item, c: Criteria, more: string)
    requires Matches(d, c.(sabor := c.sabor + more))
    ensures Matches(d, c)
  {
    if c.sabor != "" {
      LowerAppend(c.sabor, more);
      ContainsPrefixOfNeedle(Lower(d.sabor), Lower(c.sabor), Lower(more));
    }
  }

  /** Typing more into the category box can only remove rows. */
  lemma LongerCategoriaNarrows(d: Item, c: Criteria, more: string)
    requires Matches(d, c.(categoria := c.categoria + more))
    ensures Matches(d, c)
  {
    if c.categoria != "" {
      LowerAppend(c.categoria, more);
      ContainsPrefixOfNeedle(Lower(d.categoria.value), Lower(c.categoria), Lower(more));
    }
  }

  /** A lower price ceiling can only remove rows. */
  lemma LowerLimitNarrows(d: Item, c: Criteria, lo: real, hi: real)
    requires lo <= hi && Matches(d, c.(precoMax := Limit(lo)))
    ensures Matches(d, c.(precoMax := Limit(hi)))
  {
  }

  /** The ceiling is inclusive: a row priced at it is kept, one priced above it is not. */
  lemma PriceBoundInclusive(d: Item, c: Criteria, m: real)
    requires SaborOk(d, c) && CategoriaOk(d, c)
    ensures Matches(d, c.(precoMax := Limit(m))) <==> d.preco <= m
  {
  }

  /** A ceiling of 10.50 keeps a row at 10.50 and drops one at 10.51. */
  lemma PriceScenario(d: Item)
    ensures Matches(d.(preco := 10.50), Criteria("", "", Limit(10.50)))
    ensures !Matches(d.(preco := 10.51), Criteria("", "", Limit(10.50)))
  {
  }

  /** A ceiling that is not a number hides every row. */
  lemma NotANumberHidesAll(rows: seq<Item>, c: Criteria)
    requires c.precoMax == NotANumber
    ensures ShowsEmptyRow(rows, c)
  {
    EmptyRowIff(rows, c);
  }

  /** A row without a category never passes a category criterion. */
  lemma NoCategoryNeverMatches(d: Item, c: Criteria)
    requires d.categoria.None? && c.categoria != ""
    ensures !Matches(d, c)
  {
  }

  /** The text criteria are substring tests on the folded texts. */
  lemma SaborIsFoldedSubstring(d: Item, c: Criteria)
    requires c.sabor != ""
    ensures SaborOk(d, c) <==> exists i :: OccursAt(Lower(d.sabor), Lower(c.sabor), i)
  {
    assert SaborOk(d, c) == Contains(Lower(d.sabor), Lower(c.sabor));
    ContainsIff(Lower(d.sabor), Lower(c.sabor));
  }

  /** Folds a criterion's text boxes. */
  function FoldCriteria(c: Criteria): Criteria
  {
    c.(sabor := Lower(c.sabor), categoria := Lower(c.categoria))
  }

  /** Folds a row's flavour and category. */
  function FoldItem(d: Item): Item
  {
    d.(sabor := Lower(d.sabor), categoria := if d.categoria.Some? then Some(Lower(d.categoria.value)) else None)
  }

  /** Matching ignores letter case on both sides. */
  lemma MatchIgnoresCase(d: Item, c: Criteria)
    ensures Matches(FoldItem(d), FoldCriteria(c)) == Matches(d, c)
  {
    LowerIdempotent(d.sabor);
    LowerIdempotent(c.sabor);
    LowerIdempotent(c.categoria);
    if d.categoria.Some? {
      LowerIdempotent(d.categoria.value);
    }
  }

  /** A row whose flavour is 'Morango' is found by the search 'morango' and by 'MORANGO'. */
  lemma MorangoScenario(d: Item)
    requires d.sabor == "Morango"
    ensures Matches(d, Criteria("morango", "", Blank))
    ensures Matches(d, Criteria("MORANGO", "", Blank))
  {
    FoldsToMorango("Morango");
    FoldsToMorango("MORANGO");
    FoundByFoldedSearch(d, "morango");
    FoundByFoldedSearch(d, "MORANGO");
  }

  /** A search that folds to the row's folded flavour finds the row. */
  lemma FoundByFoldedSearch(d: Item, search: string)
    requires search != "" && Lower(search) == Lower(d.sabor)
    ensures Matches(d, Criteria(search, "", Blank))
  {
    var f := Lower(d.sabor);
    assert OccursAt(f, f, 0);
    ContainsAt(f, f, 0);
  }

  /** Both spellings of the search fold to 'morango'. */
  lemma FoldsToMorango(s: string)
    requires s == "Morango" || s == "MORANGO"
    ensures Lower(s) == "morango"
  {
    assert forall i :: 0 <= i < 7 ==> Lower(s)[i] == "morango"[i];
  }
}
