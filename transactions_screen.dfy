/** The transactions screen: the category menu, the list filtered by
    category and by a case-insensitive search in the description, and the
    monthly trend, sorted by month and optionally restricted to one
    category. */
module TransactionsScreen {
  import opened Common
  import opened Ledger
  import opened Sorting

  /** The menu entry that selects every category. */
  const AllCategories: string := "Toutes"

  /** The only other entry when no transaction has a category. */
  const NoCategory: string := "Autres"

  /** A point of the monthly trend the server sends: a "yyyy-MM" month and
      its total. */
  datatype TrendPoint = TrendPoint(mois: string, total: real)

  // ---------------------------------------------------------------------
  // Category menu
  // ---------------------------------------------------------------------

  /** Some transaction has the non-empty category `c`. */
  predicate HasCategory(txs: seq<Transaction>, c: string)
  {
    c != "" && exists i :: 0 <= i < |txs| && txs[i].category == Some(c)
  }

  /** `t.data.map(tx => tx.categorie)`, a missing category read as the
      empty string, which `filter(Boolean)` drops just as it drops
      `undefined`. */
  function CategoryFields(txs: seq<Transaction>): (r: seq<string>)
    ensures |r| == |txs|
    ensures forall i :: 0 <= i < |txs| ==> r[i] == OrDefault(txs[i].category, "")
  {
    seq(|txs|, i requires 0 <= i < |txs| => OrDefault(txs[i].category, ""))
  }

  predicate NonEmpty(c: string)
  {
    c != ""
  }

  /** `t.data.map(tx => tx.categorie).filter(Boolean)`: the non-empty
      categories in transaction order, each as often as transactions carry
      it, and exactly the categories in use. */
  function RawCategories(txs: seq<Transaction>): (r: seq<string>)
    ensures Subsequence(r, CategoryFields(txs))
    ensures forall c :: c in CategoryFields(txs) ==>
      multiset(r)[c] == if c != "" then multiset(CategoryFields(txs))[c] else 0
    ensures forall c :: c in r <==> HasCategory(txs, c)
  {
    var fields := CategoryFields(txs);
    FilterFacts(fields, NonEmpty);
    forall c
      ensures c in Filter(fields, NonEmpty) <==> HasCategory(txs, c)
    {
      FilterMembership(fields, NonEmpty, c);
      if HasCategory(txs, c) {
        var i :| 0 <= i < |txs| && txs[i].category == Some(c);
        assert fields[i] == c;
      }
    }
    Filter(fields, NonEmpty)
  }

  /** `['Toutes', ...(uniqueCats.length > 0 ? uniqueCats : ['Autres'])]`
      with `uniqueCats = [...new Set(raw)]`: "Toutes" first, then every
      category in use once each, in the order of its first transaction, or
      "Autres" alone when none is. */
  function Categories(txs: seq<Transaction>): (r: seq<string>)
    ensures |r| >= 2 && r[0] == AllCategories
    ensures (exists c :: HasCategory(txs, c)) ==> r == [AllCategories] + Distinct(RawCategories(txs))
    ensures forall i, j :: 1 <= i < j < |r| ==> r[i] != r[j]
    ensures (exists c :: HasCategory(txs, c)) ==> forall c :: c in r[1..] <==> HasCategory(txs, c)
    ensures (forall c :: !HasCategory(txs, c)) ==> r == [AllCategories, NoCategory]
  {
    var uniqueCats := Distinct(RawCategories(txs));
    if |uniqueCats| > 0 then
      assert ([AllCategories] + uniqueCats)[1..] == uniqueCats;
      assert HasCategory(txs, uniqueCats[0]);
      [AllCategories] + uniqueCats
    else
      [AllCategories, NoCategory]
  }

  /** The chips after "Toutes" keep the order in which the categories first
      appear in the transactions. */
  lemma CategoriesInFirstUseOrder(txs: seq<Transaction>)
    requires exists c :: HasCategory(txs, c)
    ensures forall i, j, k ::
      1 <= i < j < |Categories(txs)| && 0 <= k < |RawCategories(txs)| && RawCategories(txs)[k] == Categories(txs)[j]
      ==> Categories(txs)[i] in RawCategories(txs)[..k]
  {
    var raw := RawCategories(txs);
    DistinctFirstOccurrence(raw);
    var r := Categories(txs);
    forall i, j, k | 1 <= i < j < |r| && 0 <= k < |raw| && raw[k] == r[j]
      ensures r[i] in raw[..k]
    {
      assert r[i] == Distinct(raw)[i - 1] && r[j] == Distinct(raw)[j - 1];
    }
  }

  // ---------------------------------------------------------------------
  // List filter
  // ---------------------------------------------------------------------

  /** `base`: every transaction for "Toutes", else those whose category is
      the selection. */
  function Base(txs: seq<Transaction>, selectedCat: string): (r: seq<Transaction>)
    ensures selectedCat == AllCategories ==> r == txs
    ensures selectedCat != AllCategories ==> Subsequence(r, txs)
    ensures selectedCat != AllCategories ==> forall t :: t in txs ==>
      multiset(r)[t] == if t.category == Some(selectedCat) then multiset(txs)[t] else 0
  {
    if selectedCat == AllCategories then txs
    else
      var p := (t: Transaction) => t.category == Some(selectedCat);
      FilterFacts(txs, p);
      Filter(txs, p)
  }

  /** `tx.description.toLowerCase().includes(search.toLowerCase())`: the
      lower-cased search occurs at some position of the lower-cased
      description. */
  predicate MatchesSearch(t: Transaction, search: string)
    ensures MatchesSearch(t, search) <==> OccursSomewhere(Lower(t.description), Lower(search))
  {
    ContainsIffOccurs(Lower(t.description), Lower(search));
    Contains(Lower(t.description), Lower(search))
  }

  /** `filteredSearch`: the base transactions matching the search, in their
      order. */
  function Filtered(txs: seq<Transaction>, selectedCat: string, search: string): (r: seq<Transaction>)
    ensures Subsequence(r, Base(txs, selectedCat))
    ensures forall t :: t in Base(txs, selectedCat) ==>
      multiset(r)[t] == if MatchesSearch(t, search) then multiset(Base(txs, selectedCat))[t] else 0
  {
    var p := (t: Transaction) => MatchesSearch(t, search);
    FilterFacts(Base(txs, selectedCat), p);
    Filter(Base(txs, selectedCat), p)
  }

  /** A transaction is listed iff it has the selected category (or "Toutes"
      is selected) and its description matches the search. */
  lemma FilteredMembership(txs: seq<Transaction>, selectedCat: string, search: string, t: Transaction)
    ensures t in Filtered(txs, selectedCat, search) <==>
      t in txs && (selectedCat == AllCategories || t.category == Some(selectedCat)) && MatchesSearch(t, search)
  {
    FilterMembership(Base(txs, selectedCat), (u: Transaction) => MatchesSearch(u, search), t);
    if selectedCat != AllCategories {
      FilterMembership(txs, (u: Transaction) => u.category == Some(selectedCat), t);
    }
  }

  /** An empty search keeps the whole base list. */
  lemma EmptySearchKeepsBase(txs: seq<Transaction>, selectedCat: string)
    ensures Filtered(txs, selectedCat, "") == Base(txs, selectedCat)
  {
    forall t | t in Base(txs, selectedCat)
      ensures MatchesSearch(t, "")
    {
      ContainsEmpty(Lower(t.description));
    }
    FilterKeepsAll(Base(txs, selectedCat), (t: Transaction) => MatchesSearch(t, ""));
  }

  /** "Réinitialiser les filtres" (search "" and "Toutes") lists every
      transaction, as the list shown right after loading does. */
  lemma ResetShowsAll(txs: seq<Transaction>)
    ensures Filtered(txs, AllCategories, "") == txs
  {
    EmptySearchKeepsBase(txs, AllCategories);
  }

  /** The search ignores case: searching for a word and for its
      lower-cased form list the same transactions. */
  lemma SearchIgnoresCase(txs: seq<Transaction>, selectedCat: string, search: string)
    ensures Filtered(txs, selectedCat, Lower(search)) == Filtered(txs, selectedCat, search)
  {
    LowerIdempotent(search);
    FilterExtensional(Base(txs, selectedCat),
      (t: Transaction) => MatchesSearch(t, Lower(search)), (t: Transaction) => MatchesSearch(t, search));
  }

  // ---------------------------------------------------------------------
  // Monthly trend
  // ---------------------------------------------------------------------

  /** The transactions of category `c` whose date starts with `mois`. */
  predicate InMonthWithCategory(t: Transaction, mois: string, c: string)
  {
    StartsWith(t.date, mois) && t.category == Some(c)
  }

  /** `trendFiltered`: the server's trend for "Toutes", else the same months
      with each total recomputed from the transactions of the selected
      category in that month. */
  function TrendFiltered(trend: seq<TrendPoint>, txs: seq<Transaction>, selectedCat: string): (r: seq<TrendPoint>)
    ensures selectedCat == AllCategories ==> r == trend
    ensures |r| == |trend|
    ensures forall i :: 0 <= i < |trend| ==> r[i].mois == trend[i].mois
    ensures selectedCat != AllCategories ==> forall i :: 0 <= i < |trend| ==>
      r[i].total == SumWhere(txs, (t: Transaction) => InMonthWithCategory(t, trend[i].mois, selectedCat))
  {
    if selectedCat == AllCategories then trend
    else
      var r := seq(|trend|, i requires 0 <= i < |trend| =>
        TrendPoint(trend[i].mois,
          TotalAmount(Filter(txs, (t: Transaction) => InMonthWithCategory(t, trend[i].mois, selectedCat)))));
      assert forall i :: 0 <= i < |trend| ==>
        r[i].total == SumWhere(txs, (t: Transaction) => InMonthWithCategory(t, trend[i].mois, selectedCat)) by {
        forall i | 0 <= i < |trend| {
          TotalOfFilter(txs, (t: Transaction) => InMonthWithCategory(t, trend[i].mois, selectedCat));
        }
      }
      r
  }

  /** A transaction of another category, or outside every month of the
      trend, changes no restricted total. */
  lemma OtherTransactionIgnored(trend: seq<TrendPoint>, txs: seq<Transaction>, selectedCat: string, t: Transaction)
    requires selectedCat != AllCategories
    requires t.category != Some(selectedCat) || forall i :: 0 <= i < |trend| ==> !StartsWith(t.date, trend[i].mois)
    ensures TrendFiltered(trend, txs + [t], selectedCat) == TrendFiltered(trend, txs, selectedCat)
  {
    forall i | 0 <= i < |trend|
      ensures TrendFiltered(trend, txs + [t], selectedCat)[i] == TrendFiltered(trend, txs, selectedCat)[i]
    {
      SumWhereSnoc(txs, t, (u: Transaction) => InMonthWithCategory(u, trend[i].mois, selectedCat));
    }
  }

  function MoisOf(p: TrendPoint): string
  {
    p.mois
  }

  /** `monthly.data.sort(...)`: the server's points in place, in
      increasing month order. */
  method SortTrend(monthly: seq<TrendPoint>) returns (trend: seq<TrendPoint>)
    ensures multiset(trend) == multiset(monthly)
    ensures SortedBy(trend, MoisOf, false)
  {
    var a := new TrendPoint[|monthly|](i requires 0 <= i < |monthly| => monthly[i]);
    assert a[..] == monthly;
    SortBy(a, MoisOf, false);
    trend := a[..];
  }
}
