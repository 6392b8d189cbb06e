/**
 * The product list page (client/src/pages/Products.tsx): the derivation of the rows shown
 * from the loaded products, the search text and the sort controls, and the product form's
 * Save-button and submit rules.
 */
module Products {
  import opened Wrappers
  import opened Seqs
  import opened Text
  import opened Client

  datatype SortKey = Name | Price | Stock

  // ---------------------------------------------------------------- search filter

  /** `search.trim().toLowerCase()`: a lower-case query with no white space at either end. */
  function Query(search: string): (r: string)
    ensures Lower(r) == r
    ensures |r| <= |search|
    ensures r != [] ==> !IsSpace(r[0]) && !IsSpace(r[|r| - 1])
  {
    var t := Trim(search);
    LowerIdempotent(t);
    if t == [] then Lower(t)
    else
      LowerKeepsEnds(t);
      Lower(t)
  }

  /**
   * The filter callback for an already normalised query `q`: the empty query matches every
   * product, and a query longer than each of the three fields matches none.
   */
  predicate MatchesQuery(p: Product, q: string)
    ensures q == [] ==> MatchesQuery(p, q)
    ensures |q| > |p.name| && |q| > |p.sku| && |q| > |p.category.GetOr("")| ==> !MatchesQuery(p, q)
  {
    q == [] ||
    Includes(Lower(p.name), q) || Includes(Lower(p.sku), q) || Includes(Lower(p.category.GetOr("")), q)
  }

  function Matcher(q: string): Product -> bool
  {
    (p: Product) => MatchesQuery(p, q)
  }

  /** `list.filter(...)` with the search text of the page. */
  function FilterBySearch(list: seq<Product>, search: string): (r: seq<Product>)
    ensures IsSubsequence(r, list)
    ensures forall p :: p in r <==> p in list && MatchesQuery(p, Query(search))
    ensures forall p :: multiset(r)[p] == if MatchesQuery(p, Query(search)) then multiset(list)[p] else 0
    ensures Query(search) == [] ==> r == list
  {
    var q := Query(search);
    FilterIsSubsequence(list, Matcher(q));
    FilterMatcherMembers(list, q);
    EmptyQueryKeepsAll(list, q);
    Filter(list, Matcher(q))
  }

  lemma EmptyQueryKeepsAll(list: seq<Product>, q: string)
    ensures q == [] ==> Filter(list, Matcher(q)) == list
  {
    if q == [] {
      assert forall i :: 0 <= i < |list| ==> Matcher(q)(list[i]);
      FilterKeepsAll(list, Matcher(q));
    }
  }

  lemma FilterMatcherMembers(list: seq<Product>, q: string)
    ensures forall p :: p in Filter(list, Matcher(q)) <==> p in list && MatchesQuery(p, q)
    ensures forall p :: multiset(Filter(list, Matcher(q)))[p] == if MatchesQuery(p, q) then multiset(list)[p] else 0
  {
    forall p ensures p in Filter(list, Matcher(q)) <==> p in list && MatchesQuery(p, q) {
      FilterMembership(list, Matcher(q), p);
    }
    forall p ensures multiset(Filter(list, Matcher(q)))[p] == if MatchesQuery(p, q) then multiset(list)[p] else 0 {
      FilterMultiplicity(list, Matcher(q), p);
    }
  }

  /** A search text made only of white space shows every product. */
  lemma BlankSearchShowsAll(list: seq<Product>, search: string)
    requires forall k :: 0 <= k < |search| ==> IsSpace(search[k])
    ensures FilterBySearch(list, search) == list
  {
    TrimEmptyIffBlank(search);
  }

  /** The search ignores letter case: texts that agree once lower-cased select the same products. */
  lemma SearchIgnoresCase(list: seq<Product>, a: string, b: string)
    requires Lower(a) == Lower(b)
    ensures FilterBySearch(list, a) == FilterBySearch(list, b)
  {
    LowerTrimCommute(a);
    LowerTrimCommute(b);
  }

  /** A non-blank query matches exactly when it occurs in the lower-cased name, SKU or category. */
  lemma MatchesIffOccurs(p: Product, q: string)
    requires q != []
    ensures MatchesQuery(p, q) <==>
      Occurs(Lower(p.name), q) || Occurs(Lower(p.sku), q) || Occurs(Lower(p.category.GetOr("")), q)
  {
    IncludesIffOccurs(Lower(p.name), q);
    IncludesIffOccurs(Lower(p.sku), q);
    IncludesIffOccurs(Lower(p.category.GetOr("")), q);
  }

  // ---------------------------------------------------------------- comparator

  /**
   * The comparator handed to `sort`: negative puts `a` first, positive puts `b` first.
   * Ascending, `a` may come first exactly when its key is no greater; descending, exactly
   * when it is no smaller.
   */
  function Compare(key: SortKey, asc: bool, a: Product, b: Product): (r: real)
    ensures asc ==> (r <= 0.0 <==> KeyLeq(key, a, b))
    ensures !asc ==> (r <= 0.0 <==> KeyLeq(key, b, a))
  {
    LocaleCompareAntisymmetric(a.name, b.name);
    var dir: real := if asc then 1.0 else -1.0;
    match key
    case Name => (LocaleCompare(a.name, b.name) as real) * dir
    case Price => (a.price - b.price) * dir
    case Stock => (a.stock - b.stock) * dir
  }

  /** `a` and `b` agree on the sort key. */
  predicate SameKey(key: SortKey, a: Product, b: Product)
  {
    match key
    case Name => a.name == b.name
    case Price => a.price == b.price
    case Stock => a.stock == b.stock
  }

  /** `a` comes no later than `b` in ascending order of the key. */
  predicate KeyLeq(key: SortKey, a: Product, b: Product)
  {
    match key
    case Name => LocaleCompare(a.name, b.name) <= 0
    case Price => a.price <= b.price
    case Stock => a.stock <= b.stock
  }

  /** The comparator reports a tie exactly when the keys agree. */
  lemma CompareZeroIffSameKey(key: SortKey, asc: bool, a: Product, b: Product)
    ensures Compare(key, asc, a, b) == 0.0 <==> SameKey(key, a, b)
  {
    if key == Name {
      LocaleCompareZeroIffEqual(a.name, b.name);
    }
  }

  /** Swapping the arguments negates the comparator. */
  lemma CompareAntisymmetric(key: SortKey, asc: bool, a: Product, b: Product)
    ensures Compare(key, asc, a, b) == -Compare(key, asc, b, a)
  {
    if key == Name {
      LocaleCompareAntisymmetric(a.name, b.name);
    }
  }

  /** "Not after" under the comparator is transitive, in either direction. */
  lemma CompareTransitive(key: SortKey, asc: bool, a: Product, b: Product, c: Product)
    requires Compare(key, asc, a, b) <= 0.0 && Compare(key, asc, b, c) <= 0.0
    ensures Compare(key, asc, a, c) <= 0.0
  {
    if key == Name {
      if asc {
        LocaleCompareTransitive(a.name, b.name, c.name);
      } else {
        LocaleCompareAntisymmetric(a.name, b.name);
        LocaleCompareAntisymmetric(b.name, c.name);
        LocaleCompareAntisymmetric(a.name, c.name);
        LocaleCompareTransitive(c.name, b.name, a.name);
      }
    }
  }

  // ---------------------------------------------------------------- stable sort

  /** Adjacent elements are in comparator order. */
  predicate Sorted(key: SortKey, asc: bool, s: seq<Product>)
  {
    forall i :: 0 <= i < |s| - 1 ==> Compare(key, asc, s[i], s[i + 1]) <= 0.0
  }

  /** Puts `x` before the first element it does not compare after, so that ties keep `x` first. */
  function Insert(key: SortKey, asc: bool, x: Product, t: seq<Product>): (r: seq<Product>)
    ensures |r| == |t| + 1 && multiset(r) == multiset(t) + multiset{x}
    ensures r[0] == x || (t != [] && r[0] == t[0])
  {
    if t == [] then [x]
    else if Compare(key, asc, x, t[0]) <= 0.0 then [x] + t
    else
      assert t == [t[0]] + t[1..];
      [t[0]] + Insert(key, asc, x, t[1..])
  }

  /**
   * `[...list].sort(comparator)`: `Array.prototype.sort` is a stable sort, modelled as
   * insertion sort; it works on a copy, so the list it is given is left as it was.
   */
  function SortBy(key: SortKey, asc: bool, s: seq<Product>): (r: seq<Product>)
    ensures |r| == |s| && multiset(r) == multiset(s)
    ensures Sorted(key, asc, r)
  {
    if s == [] then []
    else
      var t := SortBy(key, asc, s[1..]);
      InsertSorted(key, asc, s[0], t);
      assert s == [s[0]] + s[1..];
      Insert(key, asc, s[0], t)
  }

  lemma {:induction false} InsertSorted(key: SortKey, asc: bool, x: Product, t: seq<Product>)
    requires Sorted(key, asc, t)
    ensures Sorted(key, asc, Insert(key, asc, x, t))
  {
    if t != [] && Compare(key, asc, x, t[0]) > 0.0 {
      CompareAntisymmetric(key, asc, x, t[0]);
      InsertSorted(key, asc, x, t[1..]);
      var r := Insert(key, asc, x, t);
      assert r[1..] == Insert(key, asc, x, t[1..]);
      assert Compare(key, asc, r[0], r[1]) <= 0.0;
    }
  }

  /** The products whose sort key agrees with that of `k`. */
  function SameKeyAs(key: SortKey, k: Product): Product -> bool
  {
    (p: Product) => SameKey(key, p, k)
  }

  /** Inserting only passes over elements of a different key, so no tie changes order. */
  lemma {:induction false} InsertStable(key: SortKey, asc: bool, x: Product, t: seq<Product>, k: Product)
    ensures Filter(Insert(key, asc, x, t), SameKeyAs(key, k)) == Filter([x] + t, SameKeyAs(key, k))
  {
    if t != [] && Compare(key, asc, x, t[0]) > 0.0 {
      var y, tail := t[0], t[1..];
      InsertStable(key, asc, x, tail, k);
      NotBothSameKeyAs(key, asc, x, y, k);
      assert Insert(key, asc, x, t) == [y] + Insert(key, asc, x, tail);
      assert t == [y] + tail;
      FilterSwapFront(x, y, tail, Insert(key, asc, x, tail), SameKeyAs(key, k));
    }
  }

  /** Two products the comparator does not tie cannot both share the key of `k`. */
  lemma NotBothSameKeyAs(key: SortKey, asc: bool, x: Product, y: Product, k: Product)
    requires Compare(key, asc, x, y) > 0.0
    ensures !(SameKeyAs(key, k)(x) && SameKeyAs(key, k)(y))
  {
    CompareZeroIffSameKey(key, asc, x, y);
  }

  /** The sort is stable: products with equal keys keep their relative order. */
  lemma {:induction false} SortStable(key: SortKey, asc: bool, s: seq<Product>, k: Product)
    ensures Filter(SortBy(key, asc, s), SameKeyAs(key, k)) == Filter(s, SameKeyAs(key, k))
  {
    if s != [] {
      var f := SameKeyAs(key, k);
      var t := SortBy(key, asc, s[1..]);
      SortStable(key, asc, s[1..], k);
      InsertStable(key, asc, s[0], t, k);
      FilterAppend([s[0]], t, f);
      FilterAppend([s[0]], s[1..], f);
      assert [s[0]] + s[1..] == s;
    }
  }

  /** Sorted output is ordered by the key: non-decreasing when ascending, non-increasing when descending. */
  lemma SortedByKey(key: SortKey, asc: bool, s: seq<Product>)
    requires Sorted(key, asc, s)
    ensures forall i :: 0 <= i < |s| - 1 ==>
      if asc then KeyLeq(key, s[i], s[i + 1]) else KeyLeq(key, s[i + 1], s[i])
  {
    forall i | 0 <= i < |s| - 1
      ensures if asc then KeyLeq(key, s[i], s[i + 1]) else KeyLeq(key, s[i + 1], s[i])
    {
      assert Compare(key, asc, s[i], s[i + 1]) <= 0.0;
      LocaleCompareAntisymmetric(s[i].name, s[i + 1].name);
    }
  }

  // ---------------------------------------------------------------- the derived rows

  /** The `filtered` memo: `data ?? []`, filtered by the search, then sorted. */
  function Derive(data: Option<seq<Product>>, search: string, key: SortKey, asc: bool): (r: seq<Product>)
    ensures var list := data.GetOr([]);
      && multiset(r) == multiset(FilterBySearch(list, search))
      && (forall p :: p in r <==> p in list && MatchesQuery(p, Query(search)))
      && Sorted(key, asc, r)
      && |r| <= |list|
    ensures data.None? ==> r == []
  {
    var list := data.GetOr([]);
    var filtered := FilterBySearch(list, search);
    assert forall p :: p in SortBy(key, asc, filtered) <==> p in multiset(filtered);
    SortBy(key, asc, filtered)
  }

  /** Rows with equal sort keys appear in the order the loaded list has them. */
  lemma DeriveStable(data: Option<seq<Product>>, search: string, key: SortKey, asc: bool, k: Product)
    ensures Filter(Derive(data, search, key, asc), SameKeyAs(key, k)) ==
            Filter(FilterBySearch(data.GetOr([]), search), SameKeyAs(key, k))
  {
    SortStable(key, asc, FilterBySearch(data.GetOr([]), search), k);
  }

  // ---------------------------------------------------------------- the product form

  /** The form's five text inputs. */
  datatype FormFields = FormFields(name: string, sku: string, price: string, stock: string, category: string)

  /**
   * The inputs' initial values: the product being edited, with an absent category as empty
   * text; a new-product form starts empty, so its Save button starts disabled.
   */
  function InitialForm(initial: Option<Product>, toText: Number -> string): (r: FormFields)
    ensures initial.None? ==> r == FormFields("", "", "", "", "") && Disabled(false, r)
    ensures initial.Some? ==>
      && r.name == initial.value.name && r.sku == initial.value.sku
      && r.price == toText(initial.value.price) && r.stock == toText(initial.value.stock)
      && (r.category == "" <==> initial.value.category in {None, Some("")})
  {
    match initial
    case None => FormFields("", "", "", "", "")
    case Some(p) => FormFields(p.name, p.sku, toText(p.price), toText(p.stock), p.category.GetOr(""))
  }

  /**
   * `disabled`: an empty string is falsy, so Save is off while saving or while a required
   * field is empty. When it is on, nothing is being saved, price and stock have text, and
   * whatever number conversion is used, the submitted name and SKU are non-empty.
   */
  predicate Disabled(submitting: bool, f: FormFields)
    ensures submitting ==> Disabled(submitting, f)
    ensures !Disabled(submitting, f) ==>
      && !submitting && f.price != "" && f.stock != ""
      && forall toNumber: string -> Number :: Submit(f, toNumber).name != "" && Submit(f, toNumber).sku != ""
  {
    submitting || f.name == "" || f.sku == "" || f.price == "" || f.stock == ""
  }

  /** `handleSubmit`'s values: `Number(...)` for price and stock, and `category || undefined`. */
  function Submit(f: FormFields, toNumber: string -> Number): (r: ProductInput)
    ensures r.name == f.name && r.sku == f.sku && r.price == toNumber(f.price) && r.stock == toNumber(f.stock)
    ensures r.category.None? <==> f.category == ""
    ensures r.category.Some? ==> r.category.value == f.category
  {
    ProductInput(f.name, f.sku, toNumber(f.price), toNumber(f.stock), if f.category == "" then None else Some(f.category))
  }

  /** A form whose Save button is enabled submits a non-empty name and SKU. */
  lemma EnabledSubmitsNames(submitting: bool, f: FormFields, toNumber: string -> Number)
    requires !Disabled(submitting, f)
    ensures !submitting && Submit(f, toNumber).name != "" && Submit(f, toNumber).sku != ""
  {
  }

  /**
   * Opening the edit form on a product and saving it unchanged only stamps `updatedAt`,
   * provided numbers survive the text round trip and the category is not the empty string
   * (which the form would turn into no category).
   */
  lemma EditUnchangedRoundTrip(p: Product, toText: Number -> string, toNumber: string -> Number, now: Timestamp)
    requires toNumber(toText(p.price)) == p.price && toNumber(toText(p.stock)) == p.stock
    requires p.category != Some("")
    ensures ApplyPatch(p, InputPatch(Submit(InitialForm(Some(p), toText), toNumber)), now) ==
            p.(updatedAt := Some(now))
  {
  }

  /** Saving an edit form whose category is blank clears the product's category. */
  lemma BlankCategoryClears(p: Product, f: FormFields, toNumber: string -> Number, now: Timestamp)
    requires f.category == ""
    ensures ApplyPatch(p, InputPatch(Submit(f, toNumber)), now).category == None
  {
  }
}
