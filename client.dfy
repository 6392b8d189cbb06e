/**
 * The client's data-access layer (client/src/lib/client.ts): the Product records, the
 * browser-local fallback list kept under the storage key "sim_products_v1", and the four
 * CRUD operations, each of which first tries the REST API and falls back to the local list
 * when that attempt fails. The network is not modelled: each CRUD operation receives the
 * remote outcome and the generated values its fallback needs (seed ids and a timestamp for
 * the list, an id and a timestamp for create, a timestamp for update, nothing more for
 * delete); seeding and writing the local list receive no remote outcome.
 */
module Client {
  import opened Wrappers
  import opened Seqs

  type Id = string
  /** An ISO-8601 time stamp, as produced by `new Date().toISOString()`. */
  type Timestamp = string
  /** A JavaScript number (NaN, the infinities and rounding are not modelled). */
  type Number = real

  datatype Product = Product(
    id: Id,
    name: string,
    sku: string,
    price: Number,
    stock: Number,
    category: Option<string>,
    createdAt: Timestamp,
    updatedAt: Option<Timestamp>)

  /** The fields a caller supplies to create a product. */
  datatype ProductInput = ProductInput(
    name: string,
    sku: string,
    price: Number,
    stock: Number,
    category: Option<string>)

  /**
   * `Partial<ProductInput>`: `None` is a key the patch does not carry. A patch can carry the
   * key `category` holding `undefined` (the edit form sends that for an empty category),
   * which is `Some(None)`; spreading it clears the product's category.
   */
  datatype ProductPatch = ProductPatch(
    name: Option<string>,
    sku: Option<string>,
    price: Option<Number>,
    stock: Option<Number>,
    category: Option<Option<string>>)

  /**
   * What the storage key holds, once read and parsed: nothing (or the empty string), text
   * that is not JSON, JSON that is not an array, or an array of records.
   */
  datatype Stored = Absent | Malformed | NonArray | Arr(products: seq<Product>)

  /** The outcome of a remote call: a successful response with its parsed body, or a failure
      of any kind (network error, non-2xx status, body that is not JSON). */
  datatype Remote<T> = Answered(body: T) | Unavailable

  /** The shapes a list response body can take. */
  datatype ListBody =
    | ArrayBody(items: seq<Product>)
    | ObjectBody(products: Option<seq<Product>>)  // any non-null object; `products` may be missing
    | NullBody

  /** The shapes a create or update response body can take. */
  datatype ProductBody =
    | BareBody(product: Product)       // the record itself, with no `product` key
    | WrappedBody(product: Product)    // `{ product: ... }`
    | NullProductBody

  /** The three ids `uuid()` yields while seeding, in order. */
  datatype SeedIds = SeedIds(mouse: Id, keyboard: Id, monitor: Id)

  const NotFound: string := "Product not found"

  /** `readLocalProducts`: anything but an array reads as the empty list; it never fails. */
  function Decode(s: Stored): (r: seq<Product>)
    ensures s.Arr? ==> r == s.products
    ensures !s.Arr? ==> r == []
  {
    match s
    case Arr(ps) => ps
    case _ => []
  }

  /** The ids of a list, in order. */
  function Ids(list: seq<Product>): (r: seq<Id>)
    ensures |r| == |list|
    ensures forall i :: 0 <= i < |list| ==> r[i] == list[i].id
  {
    if list == [] then [] else [list[0].id] + Ids(list[1..])
  }

  /** No two records of the list share an id (the code keeps this only when ids are fresh). */
  predicate UniqueIds(list: seq<Product>)
  {
    forall i, j :: 0 <= i < j < |list| ==> list[i].id != list[j].id
  }

  /** A product carries exactly the caller-supplied fields of `input`. */
  predicate Carries(p: Product, input: ProductInput)
  {
    p.name == input.name && p.sku == input.sku && p.price == input.price &&
    p.stock == input.stock && p.category == input.category
  }

  // ---------------------------------------------------------------- remote responses

  /**
   * `Array.isArray(data) ? data : data.products ?? []`. `None` is the case where reading
   * `products` of a null body throws inside the `try`, so that the call falls back.
   */
  function NormaliseList(b: ListBody): (r: Option<seq<Product>>)
    ensures b.ArrayBody? ==> r == Some(b.items)
    ensures b.ObjectBody? && b.products.Some? ==> r == Some(b.products.value)
    ensures b.ObjectBody? && b.products.None? ==> r == Some([])
    ensures r.None? <==> b.NullBody?
  {
    match b
    case ArrayBody(items) => Some(items)
    case ObjectBody(products) => Some(products.GetOr([]))
    case NullBody => None
  }

  /** `data.product ?? data`; `None` when the body is null and the property read throws. */
  function NormaliseProduct(b: ProductBody): (r: Option<Product>)
    ensures !b.NullProductBody? ==> r == Some(b.product)
    ensures r.None? <==> b.NullProductBody?
  {
    match b
    case BareBody(p) => Some(p)
    case WrappedBody(p) => Some(p)
    case NullProductBody => None
  }

  // ---------------------------------------------------------------- seeding

  /**
   * The three sample products `ensureSeed` writes: each has a positive price and stock and
   * a category, and all share one `createdAt` and have no `updatedAt`.
   */
  function SeedProducts(ids: SeedIds, now: Timestamp): (r: seq<Product>)
    ensures |r| == 3
    ensures forall i :: 0 <= i < |r| ==>
      && r[i].price > 0.0 && r[i].stock > 0.0 && r[i].category.Some?
      && r[i].createdAt == now && r[i].updatedAt == None
  {
    [ Product(ids.mouse, "Wireless Mouse", "WM-1001", 25.99, 120.0, Some("Accessories"), now, None),
      Product(ids.keyboard, "Mechanical Keyboard", "MK-2002", 79.0, 45.0, Some("Accessories"), now, None),
      Product(ids.monitor, "27\" Monitor", "MN-2700", 239.99, 18.0, Some("Displays"), now, None) ]
  }

  /** What `ensureSeed` leaves in the store. */
  function SeedStep(s: Stored, ids: SeedIds, now: Timestamp): (r: Stored)
    ensures |Decode(s)| > 0 ==> r == s
    ensures |Decode(s)| == 0 ==> r == Arr(SeedProducts(ids, now))
    ensures |Decode(r)| > 0
  {
    if |Decode(s)| > 0 then s else Arr(SeedProducts(ids, now))
  }

  /** A freshly seeded store has three products, all created at `now` and never updated,
      with the ids `uuid()` produced, in order. */
  lemma SeedShape(ids: SeedIds, now: Timestamp)
    ensures var ps := Decode(SeedStep(Absent, ids, now));
      |ps| == 3 && Ids(ps) == [ids.mouse, ids.keyboard, ids.monitor] &&
      forall i :: 0 <= i < 3 ==> ps[i].createdAt == now && ps[i].updatedAt == None
  {
    var ps := Decode(SeedStep(Absent, ids, now));
    assert Ids(ps) == [ps[0].id, ps[1].id, ps[2].id];
  }

  /** Distinct seed ids give a seed list with unique ids. */
  lemma SeedUniqueIds(ids: SeedIds, now: Timestamp)
    requires ids.mouse != ids.keyboard && ids.mouse != ids.monitor && ids.keyboard != ids.monitor
    ensures UniqueIds(SeedProducts(ids, now))
  {
  }

  /** Seeding a second time, with whatever ids and clock, changes nothing. */
  lemma SeedIdempotent(s: Stored, ids: SeedIds, now: Timestamp, ids': SeedIds, now': Timestamp)
    ensures SeedStep(SeedStep(s, ids, now), ids', now') == SeedStep(s, ids, now)
  {
  }

  // ---------------------------------------------------------------- fallback operations

  /** Fallback of `getProducts`: seed, then read. Yields the new store and the list returned. */
  function FallbackList(s: Stored, ids: SeedIds, now: Timestamp): (r: (Stored, seq<Product>))
    ensures r.1 == Decode(r.0) && |r.1| > 0
    ensures |Decode(s)| > 0 ==> r.0 == s && r.1 == Decode(s)
    ensures |Decode(s)| == 0 ==> r.1 == SeedProducts(ids, now)
  {
    var s' := SeedStep(s, ids, now);
    (s', Decode(s'))
  }

  /** A second fallback read neither reseeds nor returns anything different. */
  lemma ListTwice(s: Stored, ids: SeedIds, now: Timestamp, ids': SeedIds, now': Timestamp)
    ensures var first := FallbackList(s, ids, now);
      FallbackList(first.0, ids', now') == first
  {
  }

  /** `{ id: uuid(), createdAt: now, ...input }`. */
  function NewProduct(input: ProductInput, id: Id, now: Timestamp): (p: Product)
    ensures Carries(p, input) && p.id == id && p.createdAt == now && p.updatedAt == None
  {
    Product(id, input.name, input.sku, input.price, input.stock, input.category, now, None)
  }

  /** Fallback of `createProduct`: the new record goes in front of the old list. */
  function FallbackCreate(s: Stored, input: ProductInput, id: Id, now: Timestamp): (r: (Stored, Product))
    ensures r.0.Arr? && |Decode(r.0)| == |Decode(s)| + 1
    ensures Decode(r.0)[0] == r.1 && Decode(r.0)[1..] == Decode(s)
    ensures Carries(r.1, input) && r.1.id == id && r.1.createdAt == now && r.1.updatedAt == None
  {
    var p := NewProduct(input, id, now);
    (Arr([p] + Decode(s)), p)
  }

  /** Listing after a fallback create returns the new record first, then the old list, with no reseeding. */
  lemma CreateThenList(s: Stored, input: ProductInput, id: Id, now: Timestamp, ids: SeedIds, now': Timestamp)
    ensures var (s1, p) := FallbackCreate(s, input, id, now);
      FallbackList(s1, ids, now') == (s1, [p] + Decode(s))
  {
    var (s1, p) := FallbackCreate(s, input, id, now);
    assert Decode(s1) == [p] + Decode(s);
  }

  /** Creating with an id not yet in the list keeps the ids unique. */
  lemma CreateKeepsUniqueIds(s: Stored, input: ProductInput, id: Id, now: Timestamp)
    requires UniqueIds(Decode(s)) && id !in Ids(Decode(s))
    ensures UniqueIds(Decode(FallbackCreate(s, input, id, now).0))
  {
    var before := Decode(s);
    var after := Decode(FallbackCreate(s, input, id, now).0);
    forall i, j | 0 <= i < j < |after| ensures after[i].id != after[j].id {
      if i == 0 {
        assert after[j] == before[j - 1];
        assert Ids(before)[j - 1] == before[j - 1].id;
      } else {
        assert after[i] == before[i - 1] && after[j] == before[j - 1];
      }
    }
  }

  /** `list.findIndex(p => p.id === id)`: the first index holding `id`, or -1 if none does. */
  function FindIndex(list: seq<Product>, id: Id): (r: int)
    ensures -1 <= r < |list|
    ensures r == -1 <==> forall i :: 0 <= i < |list| ==> list[i].id != id
    ensures r >= 0 ==> list[r].id == id && forall j :: 0 <= j < r ==> list[j].id != id
  {
    if list == [] then -1
    else if list[0].id == id then 0
    else
      var k := FindIndex(list[1..], id);
      if k == -1 then -1 else k + 1
  }

  /** `{ ...product, ...patch, updatedAt: now }`. */
  function ApplyPatch(p: Product, patch: ProductPatch, now: Timestamp): (r: Product)
    ensures r.id == p.id && r.createdAt == p.createdAt && r.updatedAt == Some(now)
  {
    Product(p.id,
            patch.name.GetOr(p.name),
            patch.sku.GetOr(p.sku),
            patch.price.GetOr(p.price),
            patch.stock.GetOr(p.stock),
            patch.category.GetOr(p.category),
            p.createdAt,
            Some(now))
  }

  /** A patch that carries no key only stamps `updatedAt`. */
  lemma EmptyPatchStampsOnly(p: Product, now: Timestamp)
    ensures ApplyPatch(p, ProductPatch(None, None, None, None, None), now) == p.(updatedAt := Some(now))
  {
  }

  /**
   * The patch the edit form sends: every input field, `category` included even when
   * undefined. Applied to any record, it gives the record a create with the same input
   * would have made under that record's id and `createdAt`, stamped as updated.
   */
  function InputPatch(input: ProductInput): (r: ProductPatch)
    ensures forall p: Product, t: Timestamp :: ApplyPatch(p, r, t) == NewProduct(input, p.id, p.createdAt).(updatedAt := Some(t))
  {
    ProductPatch(Some(input.name), Some(input.sku), Some(input.price), Some(input.stock), Some(input.category))
  }

  /** Patching with a whole input makes the record carry exactly that input; an undefined category clears it. */
  lemma InputPatchCarries(p: Product, input: ProductInput, now: Timestamp)
    ensures Carries(ApplyPatch(p, InputPatch(input), now), input)
  {
  }

  /** Fallback of `updateProduct`: patch the first record with the id, or fail with "Product not found". */
  function FallbackUpdate(s: Stored, id: Id, patch: ProductPatch, now: Timestamp): (r: (Stored, Result<Product, string>))
    ensures (forall i :: 0 <= i < |Decode(s)| ==> Decode(s)[i].id != id) ==> r == (s, Err(NotFound))
    ensures var list := Decode(s); var k := FindIndex(list, id);
      k >= 0 ==>
        && r.1.Ok? && r.0.Arr?
        && |Decode(r.0)| == |list|
        && Decode(r.0)[k] == r.1.value == ApplyPatch(list[k], patch, now)
        && forall j :: 0 <= j < |list| && j != k ==> Decode(r.0)[j] == list[j]
  {
    var list := Decode(s);
    var k := FindIndex(list, id);
    if k == -1 then (s, Err(NotFound))
    else
      var updated := ApplyPatch(list[k], patch, now);
      (Arr(list[k := updated]), Ok(updated))
  }

  /** Updating never changes which ids the list holds, nor their order. */
  lemma UpdateKeepsIds(s: Stored, id: Id, patch: ProductPatch, now: Timestamp)
    ensures Ids(Decode(FallbackUpdate(s, id, patch, now).0)) == Ids(Decode(s))
  {
    var after := Decode(FallbackUpdate(s, id, patch, now).0);
    assert |after| == |Decode(s)|;
    assert forall i :: 0 <= i < |after| ==> after[i].id == Decode(s)[i].id;
  }

  /** The test `filter` keeps on delete: a record passes exactly when its id differs. */
  function NotId(id: Id): (r: Product -> bool)
    ensures forall p: Product :: r(p) <==> p.id != id
  {
    (p: Product) => p.id != id
  }

  lemma FilterNotIdMembers(list: seq<Product>, id: Id)
    ensures forall x :: x in Filter(list, NotId(id)) <==> x in list && x.id != id
    ensures forall x :: multiset(Filter(list, NotId(id)))[x] == if x.id != id then multiset(list)[x] else 0
  {
    forall x ensures x in Filter(list, NotId(id)) <==> x in list && x.id != id {
      FilterMembership(list, NotId(id), x);
    }
    forall x ensures multiset(Filter(list, NotId(id)))[x] == if x.id != id then multiset(list)[x] else 0 {
      FilterMultiplicity(list, NotId(id), x);
    }
  }

  /** `list.filter(p => p.id !== id)`. */
  function RemoveId(list: seq<Product>, id: Id): (r: seq<Product>)
    ensures forall i :: 0 <= i < |r| ==> r[i].id != id
    ensures forall x :: x in r <==> x in list && x.id != id
    ensures forall x :: multiset(r)[x] == if x.id != id then multiset(list)[x] else 0
    ensures IsSubsequence(r, list)
    ensures (forall i :: 0 <= i < |list| ==> list[i].id != id) ==> r == list
  {
    FilterAllPass(list, NotId(id));
    FilterIsSubsequence(list, NotId(id));
    FilterNotIdMembers(list, id);
    if forall i :: 0 <= i < |list| ==> list[i].id != id then
      FilterKeepsAll(list, NotId(id));
      Filter(list, NotId(id))
    else
      Filter(list, NotId(id))
  }

  /** Fallback of `deleteProduct`: drop every record with the id (none is not an error) and confirm the id. */
  function FallbackDelete(s: Stored, id: Id): (r: (Stored, Id))
    ensures r.1 == id && r.0.Arr?
    ensures forall i :: 0 <= i < |Decode(r.0)| ==> Decode(r.0)[i].id != id
    ensures forall x :: x in Decode(r.0) <==> x in Decode(s) && x.id != id
    ensures forall x :: multiset(Decode(r.0))[x] == if x.id != id then multiset(Decode(s))[x] else 0
    ensures IsSubsequence(Decode(r.0), Decode(s))
    ensures (forall i :: 0 <= i < |Decode(s)| ==> Decode(s)[i].id != id) ==> Decode(r.0) == Decode(s)
  {
    (Arr(RemoveId(Decode(s), id)), id)
  }

  /** Deleting the same id twice is deleting it once. */
  lemma DeleteIdempotent(s: Stored, id: Id)
    ensures FallbackDelete(FallbackDelete(s, id).0, id) == FallbackDelete(s, id)
  {
    FilterIdempotent(Decode(s), NotId(id));
  }

  /** Deleting a record just created under a fresh id gives back the list as it was. */
  lemma CreateThenDelete(s: Stored, input: ProductInput, id: Id, now: Timestamp)
    requires id !in Ids(Decode(s))
    ensures Decode(FallbackDelete(FallbackCreate(s, input, id, now).0, id).0) == Decode(s)
  {
    var list := Decode(s);
    var p := NewProduct(input, id, now);
    assert Decode(FallbackCreate(s, input, id, now).0) == [p] + list;
    assert forall i :: 0 <= i < |list| ==> list[i].id != id by {
      assert forall i :: 0 <= i < |list| ==> Ids(list)[i] == list[i].id;
    }
    assert ([p] + list)[0] == p && ([p] + list)[1..] == list;
    assert !NotId(id)(p);
    calc {
      RemoveId([p] + list, id);
      Filter([p] + list, NotId(id));
      Filter(list, NotId(id));
      RemoveId(list, id);
      list;
    }
  }

  /** Subsequences of a list with unique ids have unique ids. */
  lemma {:induction false} SubsequenceKeepsUniqueIds(a: seq<Product>, b: seq<Product>)
    requires IsSubsequence(a, b) && UniqueIds(b)
    ensures UniqueIds(a)
  {
    if a != [] && b != [] {
      assert UniqueIds(b[1..]);
      if a[0] == b[0] && IsSubsequence(a[1..], b[1..]) {
        SubsequenceKeepsUniqueIds(a[1..], b[1..]);
        forall j | 0 < j < |a| ensures a[0].id != a[j].id {
          SubsequenceMember(a[1..], b[1..], j - 1);
        }
      } else {
        SubsequenceKeepsUniqueIds(a, b[1..]);
      }
    }
  }

  /** Every element of a subsequence is an element of the whole. */
  lemma {:induction false} SubsequenceMember(a: seq<Product>, b: seq<Product>, i: int)
    requires IsSubsequence(a, b) && 0 <= i < |a|
    ensures exists k :: 0 <= k < |b| && b[k] == a[i]
  {
    if a[0] == b[0] && IsSubsequence(a[1..], b[1..]) {
      if i > 0 {
        SubsequenceMember(a[1..], b[1..], i - 1);
        var k :| 0 <= k < |b[1..]| && b[1..][k] == a[1..][i - 1];
        assert b[k + 1] == a[i];
      } else {
        assert b[0] == a[0];
      }
    } else {
      SubsequenceMember(a, b[1..], i);
      var k :| 0 <= k < |b[1..]| && b[1..][k] == a[i];
      assert b[k + 1] == a[i];
    }
  }

  /** Fallback update and delete keep the ids unique (create does given a fresh id, see CreateKeepsUniqueIds). */
  lemma FallbackKeepsUniqueIds(s: Stored, id: Id, patch: ProductPatch, now: Timestamp)
    requires UniqueIds(Decode(s))
    ensures UniqueIds(Decode(FallbackUpdate(s, id, patch, now).0))
    ensures UniqueIds(Decode(FallbackDelete(s, id).0))
  {
    var after := Decode(FallbackUpdate(s, id, patch, now).0);
    UpdateKeepsIds(s, id, patch, now);
    assert forall i :: 0 <= i < |after| ==> after[i].id == Ids(after)[i] == Ids(Decode(s))[i];
    SubsequenceKeepsUniqueIds(Decode(FallbackDelete(s, id).0), Decode(s));
  }

  // ---------------------------------------------------------------- the store

  /**
   * The local fallback store: the content of the storage key, read and rewritten whole by
   * every fallback. Each operation takes the remote outcome; it touches the store only when
   * the remote attempt fails, or when its body is null so that normalising it throws.
   */
  class ProductStore {
    var content: Stored

    constructor (initial: Stored)
      ensures content == initial
    {
      content := initial;
    }

    /** `readLocalProducts()`: the stored array, or the empty list when there is none. */
    function ReadLocalProducts(): (r: seq<Product>)
      reads this
      ensures content.Arr? ==> r == content.products
      ensures !content.Arr? ==> r == []
    {
      Decode(content)
    }

    /** `writeLocalProducts(products)`: the JSON text of an array reads back as that array. */
    method WriteLocalProducts(products: seq<Product>)
      modifies this
      ensures content == Arr(products)
    {
      content := Arr(products);
    }

    /** `ensureSeed()`. */
    method EnsureSeed(ids: SeedIds, now: Timestamp)
      modifies this
      ensures content == SeedStep(old(content), ids, now)
    {
      var existing := ReadLocalProducts();
      if |existing| > 0 {
        return;
      }
      WriteLocalProducts(SeedProducts(ids, now));
    }

    /** `getProducts()`. */
    method GetProducts(remote: Remote<ListBody>, ids: SeedIds, now: Timestamp) returns (r: seq<Product>)
      modifies this
      ensures remote.Answered? && NormaliseList(remote.body).Some? ==>
        r == NormaliseList(remote.body).value && content == old(content)
      ensures !(remote.Answered? && NormaliseList(remote.body).Some?) ==>
        (content, r) == FallbackList(old(content), ids, now)
    {
      if remote.Answered? {
        var data := NormaliseList(remote.body);
        if data.Some? {
          return data.value;
        }
      }
      EnsureSeed(ids, now);
      r := ReadLocalProducts();
    }

    /** `createProduct(input)`. */
    method CreateProduct(input: ProductInput, remote: Remote<ProductBody>, id: Id, now: Timestamp) returns (r: Product)
      modifies this
      ensures remote.Answered? && NormaliseProduct(remote.body).Some? ==>
        r == NormaliseProduct(remote.body).value && content == old(content)
      ensures !(remote.Answered? && NormaliseProduct(remote.body).Some?) ==>
        (content, r) == FallbackCreate(old(content), input, id, now)
    {
      if remote.Answered? {
        var data := NormaliseProduct(remote.body);
        if data.Some? {
          return data.value;
        }
      }
      var product := NewProduct(input, id, now);
      var list := ReadLocalProducts();
      list := [product] + list;
      WriteLocalProducts(list);
      r := product;
    }

    /** `updateProduct(id, patch)`; `Err` is the thrown "Product not found". */
    method UpdateProduct(id: Id, patch: ProductPatch, remote: Remote<ProductBody>, now: Timestamp)
      returns (r: Result<Product, string>)
      modifies this
      ensures remote.Answered? && NormaliseProduct(remote.body).Some? ==>
        r == Ok(NormaliseProduct(remote.body).value) && content == old(content)
      ensures !(remote.Answered? && NormaliseProduct(remote.body).Some?) ==>
        (content, r) == FallbackUpdate(old(content), id, patch, now)
    {
      if remote.Answered? {
        var data := NormaliseProduct(remote.body);
        if data.Some? {
          return Ok(data.value);
        }
      }
      var list := ReadLocalProducts();
      var idx := FindIndex(list, id);
      if idx == -1 {
        return Err(NotFound);
      }
      var updated := ApplyPatch(list[idx], patch, now);
      var next := list[idx := updated];
      WriteLocalProducts(next);
      r := Ok(updated);
    }

    /** `deleteProduct(id)`; the result `{ id }` is the id itself. */
    method DeleteProduct(id: Id, remote: Remote<()>) returns (r: Id)
      modifies this
      ensures r == id
      ensures remote.Answered? ==> content == old(content)
      ensures remote.Unavailable? ==> content == FallbackDelete(old(content), id).0
    {
      if remote.Answered? {
        return id;
      }
      var list := ReadLocalProducts();
      var next := RemoveId(list, id);
      WriteLocalProducts(next);
      r := id;
    }
  }
}
