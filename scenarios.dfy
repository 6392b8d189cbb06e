/**
 * Worked scenarios: a filter and sort example of the product list, and a session against
 * the local store with the API unreachable, checked from the operations' contracts alone.
 */
module Scenarios {
  import opened Wrappers
  import opened Seqs
  import opened Text
  import opened Client
  import opened Products

  function Mouse(now: Timestamp): Product { Product("1", "Mouse", "M", 10.0, 5.0, None, now, None) }
  function Keyboard(now: Timestamp): Product { Product("2", "Keyboard", "K", 50.0, 2.0, None, now, None) }
  function Monitor(now: Timestamp): Product { Product("3", "Monitor", "N", 200.0, 9.0, None, now, None) }

  /** By price, ascending: Mouse (10), Keyboard (50), Monitor (200). */
  lemma PriceAscending(now: Timestamp)
    ensures SortBy(Price, true, [Mouse(now), Keyboard(now), Monitor(now)]) == [Mouse(now), Keyboard(now), Monitor(now)]
  {
    var m, k, n := Mouse(now), Keyboard(now), Monitor(now);
    assert [m, k, n][1..] == [k, n] && [k, n][1..] == [n] && [n][1..] == [];
    assert SortBy(Price, true, [n]) == [n];
    assert SortBy(Price, true, [k, n]) == Insert(Price, true, k, [n]) == [k, n];
    assert Insert(Price, true, m, [k, n]) == [m, k, n];
  }

  /** By stock, descending: Monitor (9), Mouse (5), Keyboard (2). */
  lemma StockDescending(now: Timestamp)
    ensures SortBy(Stock, false, [Mouse(now), Keyboard(now), Monitor(now)]) == [Monitor(now), Mouse(now), Keyboard(now)]
  {
    var m, k, n := Mouse(now), Keyboard(now), Monitor(now);
    assert [m, k, n][1..] == [k, n] && [k, n][1..] == [n] && [n][1..] == [];
    assert SortBy(Stock, false, [n]) == [n];
    assert Insert(Stock, false, k, [n]) == [n] + Insert(Stock, false, k, []) == [n, k];
    assert SortBy(Stock, false, [k, n]) == [n, k];
    assert [n, k][1..] == [k];
    assert Insert(Stock, false, m, [k]) == [m, k];
    assert Insert(Stock, false, m, [n, k]) == [n] + Insert(Stock, false, m, [k]) == [n, m, k];
  }

  lemma QueryKey()
    ensures Query("key") == "key"
  {
    var q := "key";
    assert TrimStart(q) == q;
    assert TrimEnd(q) == q;
    assert Lower(q) == q;
  }

  /** A text without the letter k does not include "key". */
  lemma NoLetterK(h: string)
    requires forall i :: 0 <= i < |h| ==> h[i] != 'k'
    ensures !Includes(h, "key")
  {
    IncludesIffOccurs(h, "key");
    forall i | 0 <= i <= |h| - 3 ensures !OccursAt(h, "key", i) {
      assert h[i..i + 3][0] == h[i];
      assert "key"[0] == 'k';
    }
  }

  lemma Misses(p: Product)
    requires forall i :: 0 <= i < |p.name| ==> LowerChar(p.name[i]) != 'k'
    requires |p.sku| < 3 && p.category == None
    ensures !MatchesQuery(p, "key")
  {
    NoLetterK(Lower(p.name));
    assert !Includes(Lower(p.sku), "key");
    assert !Includes(Lower(""), "key");
  }

  lemma MouseMisses(now: Timestamp) ensures !MatchesQuery(Mouse(now), "key") { Misses(Mouse(now)); }
  lemma MonitorMisses(now: Timestamp) ensures !MatchesQuery(Monitor(now), "key") { Misses(Monitor(now)); }

  lemma KeyboardMatches(now: Timestamp)
    ensures MatchesQuery(Keyboard(now), "key")
  {
    var h := Lower("Keyboard");
    assert h[0] == 'k' && h[1] == 'e' && h[2] == 'y';
    assert h[..3] == "key";
  }

  lemma FilterMiddle(m: Product, k: Product, n: Product, f: Product -> bool)
    requires !f(m) && f(k) && !f(n)
    ensures Filter([m, k, n], f) == [k]
  {
    assert [m, k, n][1..] == [k, n] && [k, n][1..] == [n] && [n][1..] == [];
    assert Filter([n], f) == Filter([], f) == [];
    assert Filter([k, n], f) == [k] + Filter([n], f);
    assert Filter([m, k, n], f) == Filter([k, n], f);
  }

  /** Searching for "key" leaves only the keyboard. */
  lemma SearchKey(now: Timestamp)
    ensures FilterBySearch([Mouse(now), Keyboard(now), Monitor(now)], "key") == [Keyboard(now)]
  {
    QueryKey();
    MouseMisses(now);
    KeyboardMatches(now);
    MonitorMisses(now);
    FilterMiddle(Mouse(now), Keyboard(now), Monitor(now), Matcher("key"));
  }

  /** A session with the API down, starting from empty storage. */
  method OfflineSession(ids: SeedIds, input: ProductInput, id: Id, unknown: Id, now: Timestamp, later: Timestamp)
    requires id !in [ids.mouse, ids.keyboard, ids.monitor]
    requires unknown !in [id, ids.mouse, ids.keyboard, ids.monitor]
  {
    var store := new ProductStore(Absent);
    var first := store.GetProducts(Unavailable, ids, now);
    assert |first| == 3 && first == SeedProducts(ids, now);
    var second := store.GetProducts(Unavailable, ids, later);
    assert second == first && store.content == Arr(first);

    var p := store.CreateProduct(input, Unavailable, id, later);
    var third := store.GetProducts(Unavailable, ids, later);
    assert third == [p] + first && Carries(p, input);

    var missing := store.UpdateProduct(unknown, InputPatch(input), Unavailable, later);
    assert Ids(third) == [id, ids.mouse, ids.keyboard, ids.monitor];
    assert missing == Err(NotFound);

    assert Ids(first) == [ids.mouse, ids.keyboard, ids.monitor];
    CreateThenDelete(Arr(first), input, id, later);
    var gone := store.DeleteProduct(id, Unavailable);
    assert store.ReadLocalProducts() == first;
  }
}
